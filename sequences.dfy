/** Positions of the elements of a sequence that pass a test. */
module Sequences {

  /** The positions of the elements that pass `p`, in order. */
  function IndicesWhere<T>(s: seq<T>, p: T -> bool): seq<nat>
  {
    if s == [] then []
    else IndicesWhere(s[..|s| - 1], p) + (if p(s[|s| - 1]) then [|s| - 1] else [])
  }

  /** The positions point at elements that pass, ascend, and miss none. */
  lemma IndicesWhereSpec<T>(s: seq<T>, p: T -> bool)
    ensures var idx := IndicesWhere(s, p);
      && |idx| <= |s|
      && (forall k :: 0 <= k < |idx| ==> idx[k] < |s| && p(s[idx[k]]))
      && (forall k, m :: 0 <= k < m < |idx| ==> idx[k] < idx[m])
      && (forall i :: 0 <= i < |s| && p(s[i]) ==> i in idx)
  {
    IndicesPass(s, p);
    IndicesAscend(s, p);
    IndicesComplete(s, p);
  }

  lemma {:induction false} IndicesPass<T>(s: seq<T>, p: T -> bool)
    ensures var idx := IndicesWhere(s, p);
      && |idx| <= |s|
      && forall k :: 0 <= k < |idx| ==> idx[k] < |s| && p(s[idx[k]])
  {
    if s != [] {
      var init := s[..|s| - 1];
      IndicesPass(init, p);
      var idx0, idx := IndicesWhere(init, p), IndicesWhere(s, p);
      forall k | 0 <= k < |idx0|
        ensures idx[k] < |s| && p(s[idx[k]])
      {
        assert idx0[k] < |init| && p(init[idx0[k]]);
        assert idx[k] == idx0[k] && init[idx0[k]] == s[idx0[k]];
      }
    }
  }

  lemma {:induction false} IndicesAscend<T>(s: seq<T>, p: T -> bool)
    ensures var idx := IndicesWhere(s, p);
      forall k, m :: 0 <= k < m < |idx| ==> idx[k] < idx[m]
  {
    if s != [] {
      var init := s[..|s| - 1];
      IndicesPass(init, p);
      IndicesAscend(init, p);
      var idx0, idx := IndicesWhere(init, p), IndicesWhere(s, p);
      forall k, m | 0 <= k < m < |idx|
        ensures idx[k] < idx[m]
      {
        assert idx[k] == idx0[k] && idx0[k] < |init|;
        if m < |idx0| {
          assert idx[m] == idx0[m];
        }
      }
    }
  }

  lemma {:induction false} IndicesComplete<T>(s: seq<T>, p: T -> bool)
    ensures var idx := IndicesWhere(s, p);
      forall i :: 0 <= i < |s| && p(s[i]) ==> i in idx
  {
    if s != [] {
      var init := s[..|s| - 1];
      IndicesComplete(init, p);
      var idx0, idx := IndicesWhere(init, p), IndicesWhere(s, p);
      forall i | 0 <= i < |s| && p(s[i])
        ensures i in idx
      {
        if i < |init| {
          assert init[i] == s[i] && i in idx0;
        }
      }
    }
  }
}
