/** The LRU simulators as the scripts write them, and the exclusive two-tier cache
    (scripts/simcache.py, scripts/belady_bound.py, scripts/policy2.py). */
module LruCaches {
  import opened Prelude
  import opened Paging
  import opened Recency
  import opened Lru

  /** `class LRU` of scripts/simcache.py: evict, then insert. */
  class LruCache {
    var n: nat
    var d: seq<Key>

    constructor (n: nat)
      ensures this.n == n && d == []
    {
      this.n := n;
      d := [];
    }

    method Access(k: Key) returns (hit: bool)
      requires n >= 1
      modifies this`d
      ensures hit == (k in old(d)) && d == Touch(old(d), n, k)
    {
      if k in d {
        d := MoveToEnd(d, k);
        return true;
      }
      if |d| >= n {
        d := d[1..];
      }
      d := d + [k];
      return false;
    }
  }

  /** `class TwoTier`: `l1` is filled on demand, `l2` by the victims of `l1`. */
  class TwoTier {
    var n1: nat
    var n2: nat
    var l1: seq<Key>
    var l2: seq<Key>

    ghost predicate Valid()
      reads this
    {
      && n1 >= 1 && n2 >= 1
      && Distinct(l2 + l1)
      && |l1| <= n1 && |l2| <= n2
      && (l2 != [] ==> |l1| == n1)
    }

    constructor (n1: nat, n2: nat)
      requires n1 >= 1 && n2 >= 1
      ensures Valid() && this.n1 == n1 && this.n2 == n2 && l1 == l2 == []
    {
      this.n1, this.n2 := n1, n2;
      l1, l2 := [], [];
    }

    /** `l2` followed by `l1` is the order of one LRU cache of the joint size, and `l1` alone
        is the order of an LRU cache of its own size. */
    method Access(k: Key) returns (hit: bool)
      requires Valid()
      modifies this`l1, this`l2
      ensures Valid()
      ensures hit == (k in old(l2 + l1))
      ensures l2 + l1 == Touch(old(l2 + l1), n1 + n2, k)
      ensures l1 == Touch(old(l1), n1, k)
    {
      ghost var a, b := l2, l1;
      TouchDistinct(a + b, n1 + n2, k);
      if k in l1 {
        FrontHit(a, b, k);
        l1 := MoveToEnd(l1, k);
        return true;
      }
      hit := k in l2;
      if hit {
        BackHit(a, b, k);
        l2 := Remove(l2, k);
      }
      if |l1| >= n1 {
        var v := l1[0];
        l1 := l1[1..];
        if |l2| >= n2 {
          l2 := l2[1..];
        }
        l2 := l2 + [v];
      }
      l1 := l1 + [k];
      if !hit {
        Miss(a, b, n1, n2, k);
      }
    }
  }

  lemma FrontHit(l2: seq<Key>, l1: seq<Key>, k: Key)
    requires Distinct(l2 + l1) && k in l1
    ensures MoveToEnd(l2 + l1, k) == l2 + MoveToEnd(l1, k)
    ensures |MoveToEnd(l1, k)| == |l1|
  {
    DistinctParts(l2, l1);
    RemoveConcat(l2, l1, k);
    RemoveAbsent(l2, k);
    RemoveDistinct(l1, k);
  }

  lemma BackHit(l2: seq<Key>, l1: seq<Key>, k: Key)
    requires Distinct(l2 + l1) && k in l2 && k !in l1 && l1 != []
    ensures MoveToEnd(l2 + l1, k) == (Remove(l2, k) + [l1[0]]) + (l1[1..] + [k])
    ensures |Remove(l2, k)| == |l2| - 1
  {
    RemoveConcat(l2, l1, k);
    RemoveAbsent(l1, k);
    DistinctParts(l2, l1);
    RemoveDistinct(l2, k);
  }

  lemma Miss(l2: seq<Key>, l1: seq<Key>, n1: nat, n2: nat, k: Key)
    requires n1 >= 1 && n2 >= 1 && k !in l2 && k !in l1 && |l1| <= n1 && |l2| <= n2 && (l2 != [] ==> |l1| == n1)
    ensures |l1| < n1 ==> Touch(l2 + l1, n1 + n2, k) == l2 + (l1 + [k])
    ensures |l1| == n1 ==>
              Touch(l2 + l1, n1 + n2, k) ==
              ((if |l2| >= n2 then l2[1..] else l2) + [l1[0]]) + (l1[1..] + [k])
  {
  }

  lemma PrefixStep(s: seq<Key>, i: nat)
    requires i < |s|
    ensures s[..i + 1][..i] == s[..i] && s[..i + 1][i] == s[i]
  {
  }

  /** The hits and misses of an LRU cache on the first requests. */
  ghost predicate HitsAre(s: seq<Key>, n: nat, hits: seq<bool>)
    requires n >= 1
  {
    |hits| <= |s| && forall i :: 0 <= i < |hits| ==> hits[i] == HitAt(s, n, i)
  }

  lemma OneMoreAccess(s: seq<Key>, n: nat, hits: seq<bool>)
    requires n >= 1 && |hits| < |s| && HitsAre(s, n, hits)
    ensures var i := |hits|; var order := Order(s[..i], n);
            Order(s[..i + 1], n) == Touch(order, n, s[i]) && HitsAre(s, n, hits + [s[i] in order])
  {
    PrefixStep(s, |hits|);
  }

  method RunLru(s: seq<Key>, n: nat) returns (hits: seq<bool>)
    requires n >= 1
    ensures |hits| == |s| && forall i :: 0 <= i < |s| ==> hits[i] == HitAt(s, n, i)
  {
    var c := new LruCache(n);
    hits := [];
    for i := 0 to |s|
      invariant c.n == n && c.d == Order(s[..i], n)
      invariant |hits| == i && HitsAre(s, n, hits)
    {
      OneMoreAccess(s, n, hits);
      var hit := c.Access(s[i]);
      hits := hits + [hit];
    }
  }

  /** The two-tier cache has exactly the hits and misses of one LRU cache of the joint size. */
  method RunTwoTier(s: seq<Key>, n1: nat, n2: nat) returns (hits: seq<bool>)
    requires n1 >= 1 && n2 >= 1
    ensures |hits| == |s| && forall i :: 0 <= i < |s| ==> hits[i] == HitAt(s, n1 + n2, i)
  {
    var c := new TwoTier(n1, n2);
    hits := [];
    for i := 0 to |s|
      invariant c.Valid() && c.n1 == n1 && c.n2 == n2 && c.l2 + c.l1 == Order(s[..i], n1 + n2)
      invariant |hits| == i && HitsAre(s, n1 + n2, hits)
    {
      OneMoreAccess(s, n1 + n2, hits);
      var hit := c.Access(s[i]);
      hits := hits + [hit];
    }
  }

  /** scripts/belady_bound.py `sim_lru`. */
  method SimLru(s: seq<Key>, cap: nat) returns (m: nat)
    requires cap >= 1
    ensures m == Misses(s, cap)
  {
    var c: seq<Key> := [];
    m := 0;
    for i := 0 to |s|
      invariant c == Order(s[..i], cap) && m == Misses(s[..i], cap)
    {
      PrefixStep(s, i);
      var k := s[i];
      if k in c {
        c := MoveToEnd(c, k);
      } else {
        m := m + 1;
        if |c| >= cap {
          c := c[1..];
        }
        c := c + [k];
      }
    }
    assert s[..|s|] == s;
  }

  /** Inserting first and evicting when too long is the same access. */
  method InsertAccess(res: seq<Key>, S: nat, k: Key) returns (miss: int, res': seq<Key>)
    requires |res| <= S
    ensures miss == if k in res then 0 else 1
    ensures S >= 1 ==> res' == Touch(res, S, k)
    ensures S == 0 ==> res' == []
  {
    if k in res {
      return 0, MoveToEnd(res, k);
    }
    res' := res + [k];
    if |res'| > S {
      assert S >= 1 ==> res'[1..] == res[1..] + [k];
      res' := res'[1..];
    }
    miss := 1;
  }

  /** With no slot at all every request misses. */
  predicate MissedAt(s: seq<Key>, S: nat, i: nat)
    requires i < |s|
  {
    S == 0 || !HitAt(s, S, i)
  }

  /** Misses among the first `n` requests that belong to token `t0` or later. */
  function MissesFrom(reqs: seq<Request>, S: nat, t0: int, n: nat): nat
    requires n <= |reqs|
  {
    if n == 0 then 0
    else MissesFrom(reqs, S, t0, n - 1) + if MissedAt(Keys(reqs), S, n - 1) && reqs[n - 1].token >= t0 then 1 else 0
  }

  /** scripts/policy2.py `lru`, scripts/policy_sim.py `run_lru`: insert, then evict.  All misses, and those
      from token `t0` on. */
  method InsertThenEvict(reqs: seq<Request>, S: nat, t0: int) returns (m: nat, w: nat)
    ensures S >= 1 ==> m == Misses(Keys(reqs), S)
    ensures S == 0 ==> m == |reqs|
    ensures w == MissesFrom(reqs, S, t0, |reqs|)
  {
    ghost var s := Keys(reqs);
    var res: seq<Key> := [];
    m, w := 0, 0;
    for i := 0 to |reqs|
      invariant |res| <= S
      invariant S >= 1 ==> res == Order(s[..i], S) && m == Misses(s[..i], S)
      invariant S == 0 ==> m == i
      invariant w == MissesFrom(reqs, S, t0, i)
    {
      PrefixStep(s, i);
      if S >= 1 {
        OrderIsYoungest(s[..i + 1], S);
      }
      var miss;
      miss, res := InsertAccess(res, S, reqs[i].key);
      m := m + miss;
      w := w + if reqs[i].token >= t0 then miss else 0;
    }
    assert s[..|s|] == s;
  }
}
