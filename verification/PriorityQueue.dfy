/** Python's `heapq` and Rust's `BinaryHeap`, as far as their callers can observe them:
    a multiset of entries from which a least entry is taken. */
module PriorityQueue {

  ghost predicate Total<T(!new)>(le: (T, T) -> bool) {
    forall a, b :: le(a, b) || le(b, a)
  }

  ghost predicate Transitive<T(!new)>(le: (T, T) -> bool) {
    forall a, b, c :: le(a, b) && le(b, c) ==> le(a, c)
  }

  predicate Least<T(==, !new)>(e: T, heap: multiset<T>, le: (T, T) -> bool) {
    e in heap && forall f :: f in heap ==> le(e, f)
  }

  lemma LeastExists<T(!new)>(heap: multiset<T>, le: (T, T) -> bool)
    requires Total(le) && Transitive(le)
    requires heap != multiset{}
    ensures exists e :: Least(e, heap, le)
    decreases |heap|
  {
    var x :| x in heap;
    var rest := heap - multiset{x};
    var e := x;
    if rest != multiset{} {
      LeastExists(rest, le);
      var y :| Least(y, rest, le);
      e := if le(x, y) then x else y;
      assert le(e, x) && le(e, y);
      forall f | f in heap
        ensures le(e, f)
      {
        if f != x {
          assert f in rest;
          assert le(y, f);
        }
      }
    } else {
      assert heap == multiset{x};
      assert le(x, x);
    }
    assert Least(e, heap, le);
  }

  /** `heappop`: removes one occurrence of a least entry; ties are broken in any way. */
  method Pop<T(==, !new)>(heap: multiset<T>, le: (T, T) -> bool) returns (e: T, rest: multiset<T>)
    requires Total(le) && Transitive(le)
    requires heap != multiset{}
    ensures Least(e, heap, le) && rest == heap - multiset{e}
  {
    LeastExists(heap, le);
    e :| e in heap && Least(e, heap, le);
    rest := heap - multiset{e};
  }

  /** The same for entries that all differ. */
  method PopSet<T(==, !new)>(heap: set<T>, le: (T, T) -> bool) returns (e: T, rest: set<T>)
    requires Total(le) && Transitive(le)
    requires heap != {}
    ensures e in heap && rest == heap - {e}
    ensures forall f :: f in heap ==> le(e, f)
  {
    assert multiset(heap) != multiset{} by {
      var x :| x in heap;
      assert x in multiset(heap);
    }
    ghost var more: multiset<T>;
    e, more := Pop(multiset(heap), le);
    rest := heap - {e};
    forall f | f in heap
      ensures le(e, f)
    {
      assert f in multiset(heap);
    }
  }
}
