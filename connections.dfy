/** `analyze_connections`: collect the follower and followee lists, then the
    two asymmetric differences by username. */
module ConnectionAnalysis {
  import opened Provider

  /** The `{"username", "full_name", "is_verified"}` dict of one account. */
  datatype Account = Account(username: string, fullName: string, isVerified: bool)

  /** `Unavailable` is the two-key dict `{"followers": [], "following": []}`
      returned for a private profile, a logged-out session or an error. */
  datatype Connections =
    | Unavailable
    | Analyzed(followersCount: nat, followingCount: nat,
               notFollowingBack: seq<string>, notFollowedBack: seq<string>,
               followers: seq<Account>, following: seq<Account>)

  function Usernames(accounts: seq<Account>): (names: seq<string>)
    ensures |names| == |accounts|
    ensures forall i :: 0 <= i < |accounts| ==> names[i] == accounts[i].username
  {
    seq(|accounts|, i requires 0 <= i < |accounts| => accounts[i].username)
  }

  /** `[u["username"] for u in accounts if u["username"] not in [o["username"] for o in others]]` */
  function Unmatched(accounts: seq<Account>, others: seq<Account>): seq<string>
  {
    if accounts == [] then []
    else
      (if accounts[0].username in Usernames(others) then [] else [accounts[0].username])
        + Unmatched(accounts[1..], others)
  }

  /** `a` is `b` with some elements dropped, the rest kept in order. */
  predicate Subsequence(a: seq<string>, b: seq<string>)
  {
    if a == [] then true
    else if b == [] then false
    else if a[0] == b[0] then Subsequence(a[1..], b[1..])
    else Subsequence(a, b[1..])
  }

  /** A username is in the difference exactly when some account carries it
      and no account of the other list does. */
  lemma {:induction false} UnmatchedMembership(accounts: seq<Account>, others: seq<Account>, u: string)
    ensures u in Unmatched(accounts, others) <==> u in Usernames(accounts) && u !in Usernames(others)
  {
    if accounts != [] {
      UnmatchedMembership(accounts[1..], others, u);
      assert Usernames(accounts) == [accounts[0].username] + Usernames(accounts[1..]);
    }
  }

  /** The difference keeps the order of the list it filters. */
  lemma {:induction false} UnmatchedInOrder(accounts: seq<Account>, others: seq<Account>)
    ensures Subsequence(Unmatched(accounts, others), Usernames(accounts))
  {
    if accounts != [] {
      var names := Usernames(accounts);
      assert names[1..] == Usernames(accounts[1..]);
      UnmatchedInOrder(accounts[1..], others);
      if accounts[0].username !in Usernames(others) {
        assert Unmatched(accounts, others)[1..] == Unmatched(accounts[1..], others);
      } else {
        assert Unmatched(accounts, others) == Unmatched(accounts[1..], others);
        SubsequenceDropHead(Unmatched(accounts, others), names);
      }
    }
  }

  lemma SubsequenceDropHead(a: seq<string>, b: seq<string>)
    requires b != [] && Subsequence(a, b[1..])
    ensures Subsequence(a, b)
  {
    if a != [] && a[0] == b[0] {
      SubsequenceTail(a, b[1..]);
    }
  }

  lemma {:induction false} SubsequenceTail(a: seq<string>, b: seq<string>)
    requires a != [] && Subsequence(a, b)
    ensures Subsequence(a[1..], b)
  {
    if b != [] {
      if a[0] == b[0] {
        SubsequenceDropHead(a[1..], b);
      } else {
        SubsequenceTail(a, b[1..]);
        SubsequenceDropHead(a[1..], b);
      }
    }
  }

  /** The differences look only at which usernames the other list holds: any
      two lists with the same usernames, in whatever order or multiplicity,
      give the same result. */
  lemma {:induction false} UnmatchedByNamesOnly(accounts: seq<Account>, others1: seq<Account>, others2: seq<Account>)
    requires forall u :: u in Usernames(others1) <==> u in Usernames(others2)
    ensures Unmatched(accounts, others1) == Unmatched(accounts, others2)
  {
    if accounts != [] {
      UnmatchedByNamesOnly(accounts[1..], others1, others2);
    }
  }

  /** In particular permuting the other list changes nothing. */
  lemma UnmatchedPermutationInvariant(accounts: seq<Account>, others1: seq<Account>, others2: seq<Account>)
    requires multiset(others1) == multiset(others2)
    ensures Unmatched(accounts, others1) == Unmatched(accounts, others2)
  {
    forall u
      ensures u in Usernames(others1) <==> u in Usernames(others2)
    {
      if u in Usernames(others1) {
        var i :| 0 <= i < |others1| && others1[i].username == u;
        assert others1[i] in multiset(others2);
      }
      if u in Usernames(others2) {
        var i :| 0 <= i < |others2| && others2[i].username == u;
        assert others2[i] in multiset(others1);
      }
    }
    UnmatchedByNamesOnly(accounts, others1, others2);
  }

  /** Permuting the filtered list permutes the result the same way, so the
      result's set of usernames does not depend on either list's order. */
  lemma UnmatchedSetOrderFree(a1: seq<Account>, a2: seq<Account>, o1: seq<Account>, o2: seq<Account>, u: string)
    requires multiset(a1) == multiset(a2) && multiset(o1) == multiset(o2)
    ensures u in Unmatched(a1, o1) <==> u in Unmatched(a2, o2)
  {
    UnmatchedPermutationInvariant(a2, o1, o2);
    UnmatchedMembership(a1, o1, u);
    UnmatchedMembership(a2, o1, u);
    if u in Usernames(a1) {
      var i :| 0 <= i < |a1| && a1[i].username == u;
      assert a1[i] in multiset(a2);
    }
    if u in Usernames(a2) {
      var i :| 0 <= i < |a2| && a2[i].username == u;
      assert a2[i] in multiset(a1);
    }
  }

  /** The drained contents of a connection stream, or `None` when iterating
      it raises (`for a in stream: lst.append({...})`). */
  method Collect(src: Stream<Account>) returns (r: Option<seq<Account>>)
    ensures FailsWhenDrained(src) <==> r.None?
    ensures r.Some? ==> r.value == src.items
  {
    var collected: seq<Account> := [];
    var i := 0;
    while true
      invariant 0 <= i <= |src.items|
      invariant src.failAt.None? || src.failAt.value >= i
      invariant collected == src.items[..i]
      decreases |src.items| - i
    {
      // the provider is asked for item i
      if src.failAt == Some(i) {
        return None;
      }
      if i == |src.items| {
        break;
      }
      collected := collected + [Account(src.items[i].username, src.items[i].fullName, src.items[i].isVerified)];
      i := i + 1;
    }
    assert collected == src.items;
    r := Some(collected);
  }

  /** `analyze_connections`: the private-profile and login guards, the two
      collection loops (followers first), the differences, and the error
      fallback. */
  method AnalyzeConnections(isPrivate: bool, isLoggedIn: bool,
                            followersSrc: Stream<Account>, followeesSrc: Stream<Account>)
    returns (c: Connections)
    ensures isPrivate || !isLoggedIn ==> c == Unavailable
    ensures !isPrivate && isLoggedIn && (FailsWhenDrained(followersSrc) || FailsWhenDrained(followeesSrc))
      ==> c == Unavailable
    ensures !isPrivate && isLoggedIn && !FailsWhenDrained(followersSrc) && !FailsWhenDrained(followeesSrc) ==>
      var followers := followersSrc.items;
      var following := followeesSrc.items;
      c == Analyzed(|followers|, |following|, Unmatched(following, followers),
                    Unmatched(followers, following), followers, following)
  {
    if isPrivate {
      return Unavailable;
    }
    if !isLoggedIn {
      return Unavailable;
    }
    var followers := Collect(followersSrc);
    if followers.None? {
      return Unavailable;
    }
    var following := Collect(followeesSrc);
    if following.None? {
      return Unavailable;
    }
    var f := followers.value;
    var g := following.value;
    c := Analyzed(|f|, |g|, Unmatched(g, f), Unmatched(f, g), f, g);
  }

  /** Nobody is in both differences: a handle missing from the followers that
      is also a follower does not exist, and the two differences are
      disjoint. */
  lemma DifferencesDisjoint(followers: seq<Account>, following: seq<Account>, u: string)
    ensures u in Unmatched(following, followers) ==> u in Usernames(following) && u !in Usernames(followers)
    ensures !(u in Unmatched(following, followers) && u in Unmatched(followers, following))
  {
    UnmatchedMembership(following, followers, u);
    UnmatchedMembership(followers, following, u);
  }
}
