/** Least-recently-used replacement, in the repository's three spellings, and the exclusive
    two-tier cache. */
module Lru {
  import opened Prelude
  import opened Paging
  import opened Recency

  /** One access: the order of residents after requesting `k` with `n` slots. */
  function Touch(order: seq<Key>, n: nat, k: Key): seq<Key>
    requires n >= 1
  {
    if k in order then MoveToEnd(order, k)
    else if |order| >= n then order[1..] + [k]
    else order + [k]
  }

  function Order(s: seq<Key>, n: nat): seq<Key>
    requires n >= 1
  {
    if s == [] then [] else Touch(Order(s[..|s| - 1], n), n, s[|s| - 1])
  }

  lemma TouchDistinct(order: seq<Key>, n: nat, k: Key)
    requires n >= 1 && Distinct(order)
    ensures Distinct(Touch(order, n, k))
    ensures |order| <= n ==> |Touch(order, n, k)| <= n
  {
    MoveToEndDistinct(order, k);
  }

  predicate HitAt(s: seq<Key>, n: nat, i: nat)
    requires n >= 1 && i < |s|
  {
    s[i] in Order(s[..i], n)
  }

  function Misses(s: seq<Key>, n: nat): nat
    requires n >= 1
  {
    if s == [] then 0 else
      Misses(s[..|s| - 1], n) + if s[|s| - 1] in Order(s[..|s| - 1], n) then 0 else 1
  }

  // ---- what an LRU cache holds ----

  lemma TouchYoungestHit(rest: seq<Key>, top: seq<Key>, n: nat, k: Key)
    requires Distinct(rest + top) && k in top && (|top| == n || (rest == [] && |top| <= n))
    ensures MoveToEnd(top, k) == Youngest(MoveToEnd(rest + top, k), n)
  {
    DistinctParts(rest, top);
    RemoveConcat(rest, top, k);
    RemoveAbsent(rest, k);
    RemoveDistinct(top, k);
    assert MoveToEnd(rest + top, k) == rest + MoveToEnd(top, k);
    YoungestConcat(rest, MoveToEnd(top, k), n);
  }

  lemma TouchYoungestMiss(rest: seq<Key>, top: seq<Key>, n: nat, k: Key)
    requires n >= 1 && k !in top && (|top| == n || (rest == [] && |top| <= n))
    ensures (if |top| >= n then top[1..] + [k] else top + [k]) == Youngest(MoveToEnd(rest + top, k), n)
  {
    RemoveConcat(rest, top, k);
    RemoveAbsent(top, k);
    assert MoveToEnd(rest + top, k) == Remove(rest, k) + (top + [k]);
    YoungestConcat(Remove(rest, k), top + [k], n);
  }

  /** Touching the `n` youngest of an order gives the `n` youngest of the touched order. */
  lemma TouchYoungest(order: seq<Key>, n: nat, k: Key)
    requires n >= 1 && Distinct(order)
    ensures Touch(Youngest(order, n), n, k) == Youngest(MoveToEnd(order, k), n)
  {
    var top := Youngest(order, n);
    var rest := order[..|order| - |top|];
    assert order == rest + top;
    if k in top {
      TouchYoungestHit(rest, top, n, k);
    } else {
      TouchYoungestMiss(rest, top, n, k);
    }
  }

  /** The cache of size `n` holds the `n` keys used last, in order of use. */
  lemma {:induction false} OrderIsYoungest(s: seq<Key>, n: nat)
    requires n >= 1
    ensures Order(s, n) == Youngest(ByLastUse(s), n)
  {
    if s != [] {
      var front := s[..|s| - 1];
      OrderIsYoungest(front, n);
      ByLastUseDistinct(front);
      TouchYoungest(ByLastUse(front), n, s[|s| - 1]);
    }
  }

  ghost predicate IsSuffix<T>(a: seq<T>, b: seq<T>) {
    |a| <= |b| && a == b[|b| - |a|..]
  }

  /** Inclusion: a smaller cache holds the young end of a larger one. */
  lemma SmallerIsSuffix(s: seq<Key>, n: nat, m: nat)
    requires 1 <= n <= m
    ensures IsSuffix(Order(s, n), Order(s, m))
  {
    OrderIsYoungest(s, n);
    OrderIsYoungest(s, m);
  }

  /** Misses never rise with capacity. */
  lemma {:induction false} MissesFallWithCapacity(s: seq<Key>, n: nat, m: nat)
    requires 1 <= n <= m
    ensures Misses(s, m) <= Misses(s, n)
  {
    if s != [] {
      var front := s[..|s| - 1];
      MissesFallWithCapacity(front, n, m);
      SmallerIsSuffix(front, n, m);
    }
  }

  // ---- LRU against every other schedule ----

  /** LRU is itself a schedule, so it fetches at least the minimum. */
  lemma {:induction false} LruIsSchedule(s: seq<Key>, cap: nat, i: nat) returns (moves: seq<Move>)
    requires cap >= 1 && i <= |s|
    ensures Perform(s, cap, moves) == At(Members(Order(s[..i], cap)), i, Misses(s[..i], cap))
  {
    if i == 0 {
      moves := [];
    } else {
      moves := LruIsSchedule(s, cap, i - 1);
      var front := s[..i - 1];
      assert s[..i][..i - 1] == front;
      moves := TouchIsSchedule(s, cap, i - 1, Order(front, cap), Misses(front, cap), moves) by {
        OrderIsYoungest(front, cap);
        ByLastUseDistinct(front);
      }
    }
  }

  lemma TouchIsSchedule(s: seq<Key>, cap: nat, i: nat, order: seq<Key>, m: nat, before: seq<Move>)
    returns (moves: seq<Move>)
    requires cap >= 1 && i < |s| && Distinct(order) && |order| <= cap
    requires Perform(s, cap, before) == At(Members(order), i, m)
    ensures Perform(s, cap, moves) ==
            At(Members(Touch(order, cap, s[i])), i + 1, m + if s[i] in order then 0 else 1)
  {
    var k := s[i];
    var gone: set<Key> := if k !in order && |order| >= cap then {order[0]} else {};
    TouchMembers(order, cap, k);
    moves := Demand(s, cap, before, Members(order), i, m, gone);
  }

  lemma TouchMembers(order: seq<Key>, cap: nat, k: Key)
    requires cap >= 1 && Distinct(order) && |order| <= cap
    ensures Members(Touch(order, cap, k)) ==
            Members(order) - (if k !in order && |order| >= cap then {order[0]} else {}) + {k}
    ensures |Members(Touch(order, cap, k))| <= cap
  {
    TouchDistinct(order, cap, k);
    DistinctSize(Touch(order, cap, k));
    if k in order {
      MoveToEndDistinct(order, k);
      assert Members(MoveToEnd(order, k)) == Members(order) - {} + {k};
    } else if |order| >= cap {
      MembersSplit(order);
      MembersAppend(order[1..], k);
    } else {
      MembersAppend(order, k);
      assert Members(order) - {} == Members(order);
    }
  }

  lemma OptAtMostLru(s: seq<Key>, cap: nat, m: nat)
    requires cap >= 1 && IsLeastFetches(s, cap, m)
    ensures m <= Misses(s, cap)
  {
    var moves := LruIsSchedule(s, cap, |s|);
    assert s[..|s|] == s;
    assert Serves(s, cap, moves);
  }

  /** Compulsory floor: the keys served so far were each loaded at least once. */
  lemma {:induction false} LoadedOnce(s: seq<Key>, cap: nat, moves: seq<Move>) returns (loaded: set<Key>)
    requires Perform(s, cap, moves).At?
    ensures var p := Perform(s, cap, moves);
            && p.served <= |s| && p.held <= loaded && Members(s[..p.served]) <= loaded
            && |loaded| <= p.fetches
  {
    if moves == [] {
      loaded := {};
    } else {
      var q := Perform(s, cap, moves[..|moves| - 1]);
      loaded := LoadedOnce(s, cap, moves[..|moves| - 1]);
      match moves[|moves| - 1]
      case Load(k) => loaded := loaded + {k};
      case Drop(_) =>
      case Serve =>
        assert s[..q.served + 1] == s[..q.served] + [s[q.served]];
    }
  }

  lemma CompulsoryFloor(s: seq<Key>, cap: nat, m: nat)
    requires IsLeastFetches(s, cap, m)
    ensures |Members(s)| <= m
  {
    var moves :| Serves(s, cap, moves) && Fetches(s, cap, moves) == m;
    var loaded := LoadedOnce(s, cap, moves);
    assert s[..|s|] == s;
    SubsetSize(Members(s), loaded);
  }

  /** With room for every key, LRU (hence OPT) only takes the compulsory misses. */
  lemma {:induction false} AmpleMisses(s: seq<Key>, cap: nat)
    requires cap >= 1 && |Members(s)| <= cap
    ensures Misses(s, cap) == |Members(s)|
  {
    if s != [] {
      var front, k := s[..|s| - 1], s[|s| - 1];
      assert s == front + [k];
      SubsetSize(Members(front), Members(s));
      AmpleMisses(front, cap);
      OrderIsYoungest(front, cap);
      ByLastUseDistinct(front);
      DistinctSize(ByLastUse(front));
      assert Members(ByLastUse(front)) == Members(front);
      assert Members(s) == Members(front) + {k};
    }
  }

  /** The printed decomposition: compulsory <= OPT <= LRU, all equal once every key fits. */
  lemma MissLadder(s: seq<Key>, cap: nat, m: nat)
    requires cap >= 1 && IsLeastFetches(s, cap, m)
    ensures |Members(s)| <= m <= Misses(s, cap)
    ensures |Members(s)| <= cap ==> |Members(s)| == m == Misses(s, cap)
  {
    CompulsoryFloor(s, cap, m);
    OptAtMostLru(s, cap, m);
    if |Members(s)| <= cap {
      AmpleMisses(s, cap);
    }
  }
}
