/** The hashtag and mention tables of `analyze_posts`: insertion-ordered dicts
    from token to count, filled by `d[t] = d.get(t, 0) + 1`, then ranked by a
    stable descending sort on the count and cut to the first entries. */
module FrequencyTable {

  type Entry = (string, nat)

  /** An insertion-ordered dict: entries in first-insertion order. */
  type Counts = seq<Entry>

  /** The keys of an insertion-ordered dict, in order. */
  function Keys<V>(d: seq<(string, V)>): (ks: seq<string>)
    ensures |ks| == |d|
    ensures forall i :: 0 <= i < |d| ==> ks[i] == d[i].0
  {
    seq(|d|, i requires 0 <= i < |d| => d[i].0)
  }

  predicate DistinctKeys(d: Counts)
  {
    forall i, j :: 0 <= i < j < |d| ==> d[i].0 != d[j].0
  }

  /** `d.get(k, 0)`. */
  function Get(d: Counts, k: string): nat
  {
    if d == [] then 0 else if d[0].0 == k then d[0].1 else Get(d[1..], k)
  }

  /** `d[k] = d.get(k, 0) + 1`: an existing key keeps its place, a new key goes
      last. */
  function Increment(d: Counts, k: string): Counts
  {
    if d == [] then [(k, 1)]
    else if d[0].0 == k then [(k, d[0].1 + 1)] + d[1..]
    else [d[0]] + Increment(d[1..], k)
  }

  /** The table after counting `tokens` into `d`, one increment per token. */
  function CountInto(d: Counts, tokens: seq<string>): Counts
  {
    if tokens == [] then d
    else Increment(CountInto(d, tokens[..|tokens| - 1]), tokens[|tokens| - 1])
  }

  /** The position of the first occurrence of `t`. */
  function FirstIndex(tokens: seq<string>, t: string): (i: nat)
    requires t in tokens
    ensures i < |tokens| && tokens[i] == t
    ensures forall j :: 0 <= j < i ==> tokens[j] != t
  {
    if tokens[0] == t then 0 else 1 + FirstIndex(tokens[1..], t)
  }

  /** One increment adds one to the counted key and leaves every other key's
      count alone. */
  lemma {:induction false} IncrementGet(d: Counts, k: string, x: string)
    ensures Get(Increment(d, k), x) == Get(d, x) + (if x == k then 1 else 0)
  {
    if d != [] && d[0].0 != k {
      IncrementGet(d[1..], k, x);
    }
  }

  /** One increment keeps the existing keys in place and appends a new key at
      the end. */
  lemma {:induction false} IncrementKeys(d: Counts, k: string)
    ensures Keys(Increment(d, k)) == if k in Keys(d) then Keys(d) else Keys(d) + [k]
  {
    if d != [] {
      KeysCons(d[0], d[1..]);
      assert d == [d[0]] + d[1..];
      if d[0].0 != k {
        IncrementKeys(d[1..], k);
        KeysCons(d[0], Increment(d[1..], k));
        assert k in Keys(d) <==> k in Keys(d[1..]);
        if k !in Keys(d[1..]) {
          assert [d[0].0] + (Keys(d[1..]) + [k]) == ([d[0].0] + Keys(d[1..])) + [k];
        }
      } else {
        KeysCons((k, d[0].1 + 1), d[1..]);
      }
    }
  }

  /** The keys of a dict with one more entry in front. */
  lemma KeysCons<V>(e: (string, V), rest: seq<(string, V)>)
    ensures Keys([e] + rest) == [e.0] + Keys(rest)
  {
    assert Keys([e] + rest)[0] == e.0;
  }

  predicate DistinctSeq(ks: seq<string>)
  {
    forall i, j :: 0 <= i < j < |ks| ==> ks[i] != ks[j]
  }

  /** `d[k] = d.get(k, 0) + 1`: `k`'s count grows by one, every other count
      is unchanged, `k` is appended only when it is new, and the keys stay
      distinct. */
  lemma IncrementSpec(d: Counts, k: string)
    requires DistinctKeys(d)
    ensures DistinctKeys(Increment(d, k))
    ensures forall x :: Get(Increment(d, k), x) == Get(d, x) + (if x == k then 1 else 0)
    ensures Keys(Increment(d, k)) == if k in Keys(d) then Keys(d) else Keys(d) + [k]
  {
    forall x ensures Get(Increment(d, k), x) == Get(d, x) + (if x == k then 1 else 0) {
      IncrementGet(d, k, x);
    }
    IncrementKeys(d, k);
    var e := Increment(d, k);
    assert DistinctSeq(Keys(d));
    assert DistinctSeq(Keys(e));
    forall i, j | 0 <= i < j < |e|
      ensures e[i].0 != e[j].0
    {
      assert Keys(e)[i] == e[i].0 && Keys(e)[j] == e[j].0;
    }
  }

  /** Counting a stream of tokens into a table: every count grows by exactly
      the number of occurrences of its key, so counts only ever increase; the
      keys already present keep their positions and the keys stay distinct. */
  lemma {:induction false} CountIntoSpec(d: Counts, tokens: seq<string>)
    requires DistinctKeys(d)
    ensures DistinctKeys(CountInto(d, tokens))
    ensures forall x :: Get(CountInto(d, tokens), x) == Get(d, x) + multiset(tokens)[x]
    ensures Keys(d) <= Keys(CountInto(d, tokens))
    ensures forall x :: x in Keys(CountInto(d, tokens)) <==> x in Keys(d) || x in tokens
  {
    if tokens != [] {
      var init := tokens[..|tokens| - 1];
      var t := tokens[|tokens| - 1];
      assert tokens == init + [t];
      CountIntoSpec(d, init);
      IncrementSpec(CountInto(d, init), t);
    }
  }

  /** Counting is cumulative: counting `a + b` is counting `a` and then `b`. */
  lemma {:induction false} CountIntoAppend(d: Counts, a: seq<string>, b: seq<string>)
    ensures CountInto(d, a + b) == CountInto(CountInto(d, a), b)
  {
    if b != [] {
      assert (a + b)[..|a + b| - 1] == a + b[..|b| - 1];
      CountIntoAppend(d, a, b[..|b| - 1]);
    } else {
      assert a + b == a;
    }
  }

  /** The table counted from scratch lists exactly the tokens seen, each once,
      in order of first occurrence, each with its number of occurrences. */
  lemma TallySpec(tokens: seq<string>)
    ensures DistinctKeys(CountInto([], tokens))
    ensures forall x :: Get(CountInto([], tokens), x) == multiset(tokens)[x]
    ensures forall x :: x in Keys(CountInto([], tokens)) <==> x in tokens
    ensures forall i, j :: 0 <= i < j < |CountInto([], tokens)| ==>
      FirstIndex(tokens, CountInto([], tokens)[i].0) < FirstIndex(tokens, CountInto([], tokens)[j].0)
  {
    CountIntoSpec([], tokens);
    TallyOrder(tokens);
  }

  /** The keys of `d` are tokens, listed in order of first occurrence. */
  predicate FirstSeenOrder(d: Counts, tokens: seq<string>)
  {
    forall i, j :: 0 <= i < j < |d| ==>
      d[i].0 in tokens && d[j].0 in tokens && FirstIndex(tokens, d[i].0) < FirstIndex(tokens, d[j].0)
  }

  /** The keys of a fresh tally appear in order of first occurrence. */
  lemma {:induction false} TallyOrder(tokens: seq<string>)
    ensures FirstSeenOrder(CountInto([], tokens), tokens)
  {
    if tokens != [] {
      var init := tokens[..|tokens| - 1];
      var t := tokens[|tokens| - 1];
      assert tokens == init + [t];
      TallyOrder(init);
      CountIntoSpec([], init);
      var before := CountInto([], init);
      assert CountInto([], tokens) == Increment(before, t);
      TallyOrderStep(before, init, t);
    }
  }

  /** Counting one more token keeps a tally's keys in first-seen order. */
  lemma TallyOrderStep(before: Counts, init: seq<string>, t: string)
    requires DistinctKeys(before)
    requires forall x :: x in Keys(before) <==> x in init
    requires FirstSeenOrder(before, init)
    ensures FirstSeenOrder(Increment(before, t), init + [t])
  {
    var after := Increment(before, t);
    IncrementSpec(before, t);
    forall i, j | 0 <= i < j < |after|
      ensures after[i].0 in init + [t] && after[j].0 in init + [t]
      ensures FirstIndex(init + [t], after[i].0) < FirstIndex(init + [t], after[j].0)
    {
      TallyOrderPair(before, init, t, i, j);
    }
  }

  /** Two keys of a tally stay in first-seen order when one more token is
      counted. */
  lemma TallyOrderPair(before: Counts, init: seq<string>, t: string, i: nat, j: nat)
    requires DistinctKeys(before)
    requires forall x :: x in Keys(before) <==> x in init
    requires FirstSeenOrder(before, init)
    requires i < j < |Increment(before, t)|
    ensures var after := Increment(before, t);
      after[i].0 in init + [t] && after[j].0 in init + [t]
    ensures var after := Increment(before, t);
      FirstIndex(init + [t], after[i].0) < FirstIndex(init + [t], after[j].0)
  {
    var after := Increment(before, t);
    IncrementKeys(before, t);
    assert after[i].0 == Keys(after)[i];
    assert after[j].0 == Keys(after)[j];
    if t in Keys(before) {
      assert before[i].0 == after[i].0 && before[j].0 == after[j].0;
      assert Keys(before)[i] in init && Keys(before)[j] in init;
      FirstIndexPrefix(init, [t], after[i].0);
      FirstIndexPrefix(init, [t], after[j].0);
    } else {
      assert after[i].0 == before[i].0 && Keys(before)[i] in init;
      FirstIndexPrefix(init, [t], after[i].0);
      if j < |before| {
        assert after[j].0 == before[j].0 && Keys(before)[j] in init;
        FirstIndexPrefix(init, [t], after[j].0);
      } else {
        assert after[j].0 == t && t !in init;
        assert FirstIndex(init + [t], t) == |init|;
      }
    }
  }

  lemma {:induction false} FirstIndexPrefix(a: seq<string>, b: seq<string>, t: string)
    requires t in a
    ensures FirstIndex(a + b, t) == FirstIndex(a, t)
  {
    if a[0] != t {
      assert (a + b)[1..] == a[1..] + b;
      FirstIndexPrefix(a[1..], b, t);
    }
  }

  // ---------------------------------------------------------------------------
  // Ranking: `sorted(d.items(), key=lambda x: x[1], reverse=True)`

  /** Place `e` in front of the first entry whose count is not larger, so it
      precedes every later entry with its own count. */
  function InsertByCount(e: Entry, s: Counts): Counts
  {
    if s == [] || e.1 >= s[0].1 then [e] + s
    else [s[0]] + InsertByCount(e, s[1..])
  }

  /** A stable sort by descending count (an insertion sort from the back). */
  function SortByCount(d: Counts): Counts
  {
    if d == [] then [] else InsertByCount(d[0], SortByCount(d[1..]))
  }

  predicate NonIncreasing(s: Counts)
  {
    forall i, j :: 0 <= i < j < |s| ==> s[i].1 >= s[j].1
  }

  /** The entries with count `c`, in their order. */
  function WithCount(s: Counts, c: nat): Counts
  {
    if s == [] then [] else (if s[0].1 == c then [s[0]] else []) + WithCount(s[1..], c)
  }

  /** `sorted(...)[:n]`. */
  function Top(d: Counts, n: nat): Counts
  {
    var sorted := SortByCount(d);
    if |sorted| <= n then sorted else sorted[..n]
  }

  lemma {:induction false} InsertByCountMultiset(e: Entry, s: Counts)
    ensures multiset(InsertByCount(e, s)) == multiset(s) + multiset{e}
  {
    if s != [] && e.1 < s[0].1 {
      InsertByCountMultiset(e, s[1..]);
      assert s == [s[0]] + s[1..];
    }
  }

  lemma {:induction false} InsertByCountWithCount(e: Entry, s: Counts, c: nat)
    ensures WithCount(InsertByCount(e, s), c) == (if e.1 == c then [e] else []) + WithCount(s, c)
  {
    if s == [] || e.1 >= s[0].1 {
      assert InsertByCount(e, s)[1..] == s;
    } else {
      InsertByCountWithCount(e, s[1..], c);
      assert InsertByCount(e, s)[1..] == InsertByCount(e, s[1..]);
    }
  }

  lemma {:induction false} InsertByCountSorted(e: Entry, s: Counts)
    requires NonIncreasing(s)
    ensures NonIncreasing(InsertByCount(e, s))
  {
    if s != [] && e.1 < s[0].1 {
      var r := InsertByCount(e, s[1..]);
      InsertByCountSorted(e, s[1..]);
      InsertByCountMultiset(e, s[1..]);
      assert InsertByCount(e, s) == [s[0]] + r;
      forall k | 0 <= k < |r|
        ensures r[k].1 <= s[0].1
      {
        assert r[k] in multiset(r);
        if r[k] != e {
          assert r[k] in multiset(s[1..]);
          var m :| 0 <= m < |s[1..]| && s[1..][m] == r[k];
          assert s[1 + m] == r[k];
        }
      }
    }
  }

  lemma InsertByCountSpec(e: Entry, s: Counts)
    requires NonIncreasing(s)
    ensures NonIncreasing(InsertByCount(e, s))
    ensures multiset(InsertByCount(e, s)) == multiset(s) + multiset{e}
    ensures forall c ::
      WithCount(InsertByCount(e, s), c) == (if e.1 == c then [e] else []) + WithCount(s, c)
  {
    InsertByCountSorted(e, s);
    InsertByCountMultiset(e, s);
    forall c ensures WithCount(InsertByCount(e, s), c) == (if e.1 == c then [e] else []) + WithCount(s, c) {
      InsertByCountWithCount(e, s, c);
    }
  }

  /** The sort is a stable descending sort: the result is ordered by
      non-increasing count, holds the same entries, and lists the entries of
      each count in their original (first-seen) order. */
  lemma {:induction false} SortByCountSpec(d: Counts)
    ensures NonIncreasing(SortByCount(d))
    ensures multiset(SortByCount(d)) == multiset(d)
    ensures forall c :: WithCount(SortByCount(d), c) == WithCount(d, c)
  {
    if d != [] {
      SortByCountSpec(d[1..]);
      InsertByCountSpec(d[0], SortByCount(d[1..]));
      assert d == [d[0]] + d[1..];
    }
  }

  /** In a list ordered by non-increasing count, an entry beyond the first
      `m` has no larger count than any of the first `m`. */
  lemma PrefixDominates(s: Counts, m: nat, e: Entry)
    requires NonIncreasing(s) && m <= |s|
    requires e in s && e !in s[..m]
    ensures forall f :: f in s[..m] ==> f.1 >= e.1
  {
    var i :| 0 <= i < |s| && s[i] == e;
    forall f | f in s[..m]
      ensures f.1 >= e.1
    {
      var j :| 0 <= j < m && s[..m][j] == f;
    }
  }

  /** The top list: `min(n, |d|)` entries of the table, in non-increasing count
      order, and no entry left out has a larger count than any entry kept. */
  lemma TopSpec(d: Counts, n: nat)
    ensures |Top(d, n)| == if |d| <= n then |d| else n
    ensures NonIncreasing(Top(d, n))
    ensures forall e :: e in Top(d, n) ==> e in d
    ensures forall e :: e in d && e !in Top(d, n) ==> forall f :: f in Top(d, n) ==> f.1 >= e.1
  {
    var sorted := SortByCount(d);
    SortByCountSpec(d);
    assert |sorted| == |multiset(sorted)| == |multiset(d)| == |d|;
    var m := if |d| <= n then |d| else n;
    assert Top(d, n) == sorted[..m];
    forall e | e in sorted[..m]
      ensures e in d
    {
      assert e in multiset(sorted);
    }
    forall e | e in d && e !in sorted[..m]
      ensures forall f :: f in sorted[..m] ==> f.1 >= e.1
    {
      assert e in multiset(sorted);
      PrefixDominates(sorted, m, e);
    }
  }

  /** Counting tokens and ranking the table: each listed entry carries the
      exact number of occurrences of its token, tokens are listed at most once,
      and a token that is left out occurs no more often than any listed one. */
  lemma RankedTokens(tokens: seq<string>, n: nat)
    ensures var top := Top(CountInto([], tokens), n);
      && NonIncreasing(top)
      && (forall e :: e in top ==> e.0 in tokens && e.1 == multiset(tokens)[e.0])
      && (forall i, j :: 0 <= i < j < |top| ==> top[i].0 != top[j].0)
      && (forall t :: t in tokens && t !in Keys(top) ==>
            forall e :: e in top ==> e.1 >= multiset(tokens)[t])
  {
    var d := CountInto([], tokens);
    var top := Top(d, n);
    TallySpec(tokens);
    TopSpec(d, n);
    SortByCountSpec(d);
    forall e | e in d
      ensures e.0 in tokens && e.1 == multiset(tokens)[e.0]
    {
      var i :| 0 <= i < |d| && d[i] == e;
      assert Keys(d)[i] == e.0;
      GetOfEntry(d, i);
    }
    forall i, j | 0 <= i < j < |top|
      ensures top[i].0 != top[j].0
    {
      var s := SortByCount(d);
      assert top[i] == s[i] && top[j] == s[j];
      DistinctAfterPermutation(d, s, i, j);
    }
    forall t | t in tokens && t !in Keys(top)
      ensures forall e :: e in top ==> e.1 >= multiset(tokens)[t]
    {
      assert t in Keys(d);
      var i :| 0 <= i < |d| && Keys(d)[i] == t;
      GetOfEntry(d, i);
    }
  }

  lemma {:induction false} GetOfEntry(d: Counts, i: nat)
    requires DistinctKeys(d) && i < |d|
    ensures Get(d, d[i].0) == d[i].1
  {
    if i > 0 {
      assert d[1..][i - 1] == d[i];
      GetOfEntry(d[1..], i - 1);
    }
  }

  lemma MultiplicityOfDistinct(d: Counts, a: nat)
    requires DistinctKeys(d) && a < |d|
    ensures multiset(d)[d[a]] == 1
  {
    assert d == d[..a] + [d[a]] + d[a + 1..];
    assert d[a] !in d[..a] by {
      forall k | 0 <= k < a ensures d[..a][k] != d[a] {
        assert d[..a][k] == d[k];
      }
    }
    assert d[a] !in d[a + 1..] by {
      var rest := d[a + 1..];
      forall k | 0 <= k < |rest| ensures rest[k] != d[a] {
        assert rest[k] == d[a + 1 + k];
      }
    }
  }

  lemma MultiplicityOfRepeated(s: Counts, i: nat, j: nat)
    requires i < j < |s| && s[i] == s[j]
    ensures multiset(s)[s[i]] >= 2
  {
    assert s == s[..i] + [s[i]] + s[i + 1..j] + [s[j]] + s[j + 1..];
  }

  /** A permutation of a table with distinct keys has distinct keys. */
  lemma DistinctAfterPermutation(d: Counts, s: Counts, i: nat, j: nat)
    requires DistinctKeys(d) && multiset(s) == multiset(d)
    requires i < j < |s|
    ensures s[i].0 != s[j].0
  {
    assert s[i] in multiset(d) && s[j] in multiset(d);
    var a :| 0 <= a < |d| && d[a] == s[i];
    var b :| 0 <= b < |d| && d[b] == s[j];
    if s[i].0 == s[j].0 {
      assert a == b;
      MultiplicityOfRepeated(s, i, j);
      MultiplicityOfDistinct(d, a);
    }
  }
}
