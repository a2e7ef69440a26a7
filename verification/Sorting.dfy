/** Python's `sorted`. */
module Sorting {
  import opened PriorityQueue

  ghost predicate SortedBy<T(!new)>(s: seq<T>, le: (T, T) -> bool) {
    forall i, j :: 0 <= i < j < |s| ==> le(s[i], s[j])
  }

  function InsertAt<T>(s: seq<T>, x: T, i: nat): (r: seq<T>)
    requires i <= |s|
    ensures |r| == |s| + 1 && r[i] == x
    ensures (forall j :: 0 <= j < i ==> r[j] == s[j]) && forall j :: i < j < |r| ==> r[j] == s[j - 1]
  {
    s[..i] + [x] + s[i..]
  }

  lemma InsertedAll<T>(s: seq<T>, x: T, i: nat)
    requires i <= |s|
    ensures multiset(InsertAt(s, x, i)) == multiset(s + [x])
  {
    assert s == s[..i] + s[i..];
  }

  /** `r` is `s` in the order of the places `at`: sorted, and equal entries as they were. */
  ghost predicate StablySorted<T(!new)>(s: seq<T>, r: seq<T>, at: seq<nat>, le: (T, T) -> bool) {
    && SortedBy(r, le) && |r| == |at| && multiset(r) == multiset(s)
    && (forall i :: 0 <= i < |at| ==> at[i] < |s| && r[i] == s[at[i]])
    && (forall n: nat :: n < |s| ==> n in at)
    && forall i, j :: 0 <= i < j < |at| ==> at[i] != at[j] && (le(r[j], r[i]) ==> at[i] < at[j])
  }

  lemma PlacesInserted<T>(s: seq<T>, r: seq<T>, at: seq<nat>, x: T, i: nat)
    requires |r| == |at| && (forall j :: 0 <= j < |at| ==> at[j] < |s| && r[j] == s[at[j]]) && i <= |r|
    requires forall n: nat :: n < |s| ==> n in at
    ensures var r', at' := InsertAt(r, x, i), InsertAt(at, |s|, i);
            && (forall j :: 0 <= j < |at'| ==> at'[j] < |s + [x]| && r'[j] == (s + [x])[at'[j]])
            && forall n: nat :: n < |s + [x]| ==> n in at'
  {
    var all, r', at' := s + [x], InsertAt(r, x, i), InsertAt(at, |s|, i);
    forall n: nat | n < |all|
      ensures n in at'
    {
      if n < |s| {
        assert n in at;
        var j :| 0 <= j < |at| && at[j] == n;
        assert at'[if j < i then j else j + 1] == n;
      } else {
        assert at'[i] == n;
      }
    }
    forall j | 0 <= j < |at'|
      ensures at'[j] < |all| && r'[j] == all[at'[j]]
    {
      assert j != i ==> at'[j] == at[if j < i then j else j - 1];
    }
  }

  lemma StablyInserted<T(!new)>(s: seq<T>, r: seq<T>, at: seq<nat>, x: T, le: (T, T) -> bool, i: nat)
    requires StablySorted(s, r, at, le) && i <= |r|
    requires forall j :: 0 <= j < i ==> le(r[j], x)
    requires forall j :: i <= j < |r| ==> le(x, r[j]) && !le(r[j], x)
    ensures StablySorted(s + [x], InsertAt(r, x, i), InsertAt(at, |s|, i), le)
  {
    var r', at' := InsertAt(r, x, i), InsertAt(at, |s|, i);
    PlacesInserted(s, r, at, x, i);
    InsertedAll(r, x, i);
    forall j, k | 0 <= j < k < |at'|
      ensures le(r'[j], r'[k]) && at'[j] != at'[k] && (le(r'[k], r'[j]) ==> at'[j] < at'[k])
    {
      assert j != i ==> at'[j] == at[if j < i then j else j - 1] && r'[j] == r[if j < i then j else j - 1];
      assert k != i ==> at'[k] == at[if k < i then k else k - 1] && r'[k] == r[if k < i then k else k - 1];
    }
  }

  lemma NextInserted<T(!new)>(s: seq<T>, r: seq<T>, at: seq<nat>, n: nat, le: (T, T) -> bool, i: nat)
    requires n < |s| && StablySorted(s[..n], r, at, le) && i <= |r|
    requires forall j :: 0 <= j < i ==> le(r[j], s[n])
    requires forall j :: i <= j < |r| ==> le(s[n], r[j]) && !le(r[j], s[n])
    ensures StablySorted(s[..n + 1], InsertAt(r, s[n], i), InsertAt(at, n, i), le)
  {
    StablyInserted(s[..n], r, at, s[n], le, i);
    FrontSnoc(s, n);
  }

  lemma FrontSnoc<T>(s: seq<T>, n: nat)
    requires n < |s|
    ensures s[..n + 1] == s[..n] + [s[n]]
  {
  }

  /** Behind the last entry that `x` may follow. */
  method Place<T(!new)>(r: seq<T>, x: T, le: (T, T) -> bool) returns (k: nat)
    requires Total(le) && Transitive(le) && SortedBy(r, le)
    ensures k <= |r| && forall j :: 0 <= j < k ==> le(r[j], x)
    ensures forall j :: k <= j < |r| ==> le(x, r[j]) && !le(r[j], x)
  {
    k := |r|;
    while k > 0 && !le(r[k - 1], x)
      invariant 0 <= k <= |r|
      invariant forall j :: k <= j < |r| ==> le(x, r[j]) && !le(r[j], x)
    {
      k := k - 1;
    }
  }

  /** `sorted`, with the places the entries come from. */
  method StableSort<T(!new)>(s: seq<T>, le: (T, T) -> bool) returns (r: seq<T>, ghost at: seq<nat>)
    requires Total(le) && Transitive(le)
    ensures StablySorted(s, r, at, le)
  {
    r, at := [], [];
    for i := 0 to |s|
      invariant StablySorted(s[..i], r, at, le)
    {
      var k := Place(r, s[i], le);
      NextInserted(s, r, at, i, le, k);
      r, at := InsertAt(r, s[i], k), InsertAt(at, i, k);
    }
    assert s[..|s|] == s;
  }

  method Sort<T(!new)>(s: seq<T>, le: (T, T) -> bool) returns (r: seq<T>)
    requires Total(le) && Transitive(le)
    ensures SortedBy(r, le) && multiset(r) == multiset(s)
  {
    ghost var at;
    r, at := StableSort(s, le);
  }

  lemma SameElements<T>(r: seq<T>, s: seq<T>)
    requires multiset(r) == multiset(s)
    ensures |r| == |s|
    ensures forall x :: x in r <==> x in s
  {
    assert |r| == |multiset(r)| && |s| == |multiset(s)|;
    forall x
      ensures x in r <==> x in s
    {
      assert x in r <==> x in multiset(r);
      assert x in s <==> x in multiset(s);
    }
  }
}
