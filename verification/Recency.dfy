/** Orders of distinct keys, as Python's `OrderedDict` keeps them: oldest first. */
module Recency {
  import opened Prelude

  function Members<T(==)>(order: seq<T>): set<T> {
    set x | x in order
  }

  /** `del d[k]`. */
  function Remove<T(==)>(order: seq<T>, k: T): seq<T> {
    if order == [] then []
    else if order[0] == k then Remove(order[1..], k)
    else [order[0]] + Remove(order[1..], k)
  }

  /** `d.move_to_end(k)`, and also `d[k] = 1` for a new key. */
  function MoveToEnd<T(==)>(order: seq<T>, k: T): seq<T> {
    Remove(order, k) + [k]
  }

  /** The `n` youngest. */
  function Youngest<T>(order: seq<T>, n: nat): seq<T> {
    if |order| <= n then order else order[|order| - n..]
  }

  /** The keys of a stream by last use. */
  function ByLastUse<T(==)>(s: seq<T>): seq<T> {
    if s == [] then [] else MoveToEnd(ByLastUse(s[..|s| - 1]), s[|s| - 1])
  }

  // ---- laws ----

  lemma {:induction false} RemoveAbsent<T>(order: seq<T>, k: T)
    requires k !in order
    ensures Remove(order, k) == order
  {
    if order != [] {
      RemoveAbsent(order[1..], k);
    }
  }

  lemma {:induction false} RemoveConcat<T>(a: seq<T>, b: seq<T>, k: T)
    ensures Remove(a + b, k) == Remove(a, k) + Remove(b, k)
  {
    if a == [] {
      assert a + b == b;
    } else {
      assert (a + b)[1..] == a[1..] + b;
      RemoveConcat(a[1..], b, k);
    }
  }

  lemma {:induction false} RemoveMembers<T>(order: seq<T>, k: T)
    ensures forall x :: x in Remove(order, k) <==> x in order && x != k
  {
    if order != [] {
      RemoveMembers(order[1..], k);
      assert forall x :: x in order <==> x == order[0] || x in order[1..];
    }
  }

  lemma {:induction false} RemoveDistinct<T>(order: seq<T>, k: T)
    requires Distinct(order)
    ensures Distinct(Remove(order, k))
    ensures |Remove(order, k)| == |order| - (if k in order then 1 else 0)
  {
    if order != [] {
      var rest := order[1..];
      RemoveDistinct(rest, k);
      RemoveMembers(rest, k);
      assert order[0] !in rest;
      if order[0] == k {
        RemoveAbsent(rest, k);
      }
    }
  }

  lemma YoungestConcat<T>(a: seq<T>, b: seq<T>, n: nat)
    requires |b| >= n || a == []
    ensures Youngest(a + b, n) == Youngest(b, n)
  {
  }

  lemma MoveToEndDistinct<T>(order: seq<T>, k: T)
    requires Distinct(order)
    ensures Distinct(MoveToEnd(order, k))
    ensures forall x :: x in MoveToEnd(order, k) <==> x in order || x == k
    ensures |MoveToEnd(order, k)| == |order| + (if k in order then 0 else 1)
  {
    RemoveDistinct(order, k);
    RemoveMembers(order, k);
  }

  lemma {:induction false} ByLastUseDistinct<T>(s: seq<T>)
    ensures Distinct(ByLastUse(s))
    ensures forall x :: x in ByLastUse(s) <==> x in s
  {
    if s != [] {
      var front := s[..|s| - 1];
      ByLastUseDistinct(front);
      MoveToEndDistinct(ByLastUse(front), s[|s| - 1]);
      assert s == front + [s[|s| - 1]];
    }
  }

  /** The keys of a stream and its recency order are equally many. */
  lemma DistinctSize<T>(order: seq<T>)
    requires Distinct(order)
    ensures |Members(order)| == |order|
  {
    if order != [] {
      var rest := order[1..];
      DistinctSize(rest);
      assert Members(order) == Members(rest) + {order[0]};
    }
  }

  lemma MembersAppend<T>(order: seq<T>, k: T)
    ensures Members(order + [k]) == Members(order) + {k}
  {
  }

  /** Dropping the oldest key. */
  lemma MembersSplit<T>(order: seq<T>)
    requires Distinct(order) && order != []
    ensures Members(order[1..]) == Members(order) - {order[0]}
  {
  }

  // ---- what the orders are ----

  /** Moving a key to the end leaves the others as they are. */
  lemma {:induction false} RemoveIs<T>(order: seq<T>, k: T, i: nat)
    requires Distinct(order) && i < |order| && order[i] == k
    ensures Remove(order, k) == order[..i] + order[i + 1..]
  {
    var rest := order[1..];
    if i == 0 {
      RemoveAbsent(rest, k);
    } else {
      assert order[0] != order[i];
      RemoveIs(rest, k, i - 1);
      assert [order[0]] + rest[..i - 1] == order[..i] && rest[i..] == order[i + 1..];
    }
  }

  lemma MoveToEndIs<T>(order: seq<T>, k: T)
    requires Distinct(order)
    ensures k !in order ==> MoveToEnd(order, k) == order + [k]
    ensures forall i :: 0 <= i < |order| && order[i] == k ==>
              MoveToEnd(order, k) == order[..i] + order[i + 1..] + [k]
  {
    if k !in order {
      RemoveAbsent(order, k);
    }
    forall i | 0 <= i < |order| && order[i] == k
      ensures MoveToEnd(order, k) == order[..i] + order[i + 1..] + [k]
    {
      RemoveIs(order, k, i);
    }
  }

  /** Place `p` holds the last use of `x`. */
  ghost predicate LastUse<T>(s: seq<T>, p: nat, x: T) {
    p < |s| && s[p] == x && x !in s[p + 1..]
  }

  ghost predicate UsedBefore<T>(s: seq<T>, x: T, y: T) {
    exists p: nat, q: nat :: p < q && LastUse(s, p, x) && LastUse(s, q, y)
  }

  lemma LastUseKept<T>(s: seq<T>, x: T, p: nat, y: T)
    requires LastUse(s, p, y) && y != x
    ensures LastUse(s + [x], p, y)
  {
    assert (s + [x])[p + 1..] == s[p + 1..] + [x];
  }

  /** Every key of the stream once, by its last use. */
  lemma {:induction false} ByLastUseIs<T>(s: seq<T>)
    ensures Distinct(ByLastUse(s)) && forall x :: x in ByLastUse(s) <==> x in s
    ensures forall x :: x in s ==> exists p: nat :: LastUse(s, p, x)
    ensures forall i, j :: 0 <= i < j < |ByLastUse(s)| ==> UsedBefore(s, ByLastUse(s)[i], ByLastUse(s)[j])
  {
    if s != [] {
      var front, x := s[..|s| - 1], s[|s| - 1];
      var was, order := ByLastUse(front), ByLastUse(s);
      ByLastUseIs(front);
      assert s == front + [x] && s[|s|..] == [];
      assert LastUse(s, |s| - 1, x);
      RemoveDistinct(was, x);
      RemoveMembers(was, x);
      DistinctConcat(Remove(was, x), [x]);
      UsesKept(front, x);
      forall i, j | 0 <= i < j < |order|
        ensures UsedBefore(s, order[i], order[j])
      {
        OrderKept(front, x, was, i, j);
      }
    }
  }

  lemma UsesKept<T>(front: seq<T>, x: T)
    requires forall y :: y in front ==> exists p: nat :: LastUse(front, p, y)
    ensures forall y :: y in front + [x] ==> exists p: nat :: LastUse(front + [x], p, y)
  {
    var s := front + [x];
    forall y | y in s
      ensures exists p: nat :: LastUse(s, p, y)
    {
      if y == x {
        assert LastUse(s, |front|, x);
      } else {
        var p: nat :| LastUse(front, p, y);
        LastUseKept(front, x, p, y);
      }
    }
  }

  /** Every two keys of an order stand by their last uses. */
  ghost predicate ByUse<T>(s: seq<T>, order: seq<T>) {
    && (forall y :: y in order ==> y in s && exists p: nat :: LastUse(s, p, y))
    && (forall i, j :: 0 <= i < j < |order| ==> UsedBefore(s, order[i], order[j]))
  }

  /** A use leaves two other keys in their order. */
  lemma BeforeKept<T>(front: seq<T>, x: T, y: T, z: T)
    requires UsedBefore(front, y, z) && y != x && z != x
    ensures UsedBefore(front + [x], y, z)
  {
    var p: nat, q: nat :| p < q && LastUse(front, p, y) && LastUse(front, q, z);
    LastUseKept(front, x, p, y);
    LastUseKept(front, x, q, z);
  }

  /** The key just used comes after every other. */
  lemma BeforeNew<T>(front: seq<T>, x: T, y: T, p: nat)
    requires LastUse(front, p, y) && y != x
    ensures UsedBefore(front + [x], y, x)
  {
    LastUseKept(front, x, p, y);
    assert LastUse(front + [x], |front|, x);
  }

  lemma OrderKept<T>(front: seq<T>, x: T, was: seq<T>, i: nat, j: nat)
    requires ByUse(front, was) && i < j <= |Remove(was, x)|
    ensures UsedBefore(front + [x], Remove(was, x)[i], if j == |Remove(was, x)| then x else Remove(was, x)[j])
  {
    var kept := Remove(was, x);
    var a := RemovePlace(was, x, i);
    if j == |kept| {
      assert was[a] in was;
      var p: nat :| LastUse(front, p, kept[i]);
      BeforeNew(front, x, kept[i], p);
    } else {
      var b, c := RemoveOrder(was, x, i, j);
      BeforeKept(front, x, kept[i], kept[j]);
    }
  }

  /** What is left stands in the same order. */
  lemma {:induction false} RemoveOrder<T>(order: seq<T>, k: T, i: nat, j: nat) returns (a: nat, b: nat)
    requires i < j < |Remove(order, k)|
    ensures a < b < |order| && order[a] == Remove(order, k)[i] && order[b] == Remove(order, k)[j]
    ensures Remove(order, k)[i] != k && Remove(order, k)[j] != k
  {
    var rest := order[1..];
    if order[0] == k {
      a, b := RemoveOrder(rest, k, i, j);
      a, b := a + 1, b + 1;
    } else if i > 0 {
      a, b := RemoveOrder(rest, k, i - 1, j - 1);
      a, b := a + 1, b + 1;
    } else {
      var m := RemovePlace(rest, k, j - 1);
      a, b := 0, m + 1;
    }
  }

  lemma {:induction false} RemovePlace<T>(order: seq<T>, k: T, i: nat) returns (a: nat)
    requires i < |Remove(order, k)|
    ensures a < |order| && order[a] == Remove(order, k)[i] && Remove(order, k)[i] != k
  {
    var rest := order[1..];
    if order[0] == k {
      a := RemovePlace(rest, k, i);
      a := a + 1;
    } else if i > 0 {
      a := RemovePlace(rest, k, i - 1);
      a := a + 1;
    } else {
      a := 0;
    }
  }
}
