/** Interval lists of the prefill and verify traces (scripts/final5.py, scratch/prefill_trace/lib.py).
    Times are whole nanoseconds; a span covers the ticks from `b` up to, not including, `e`. */
module Intervals {
  import opened PriorityQueue
  import Sorting

  datatype Span = Span(b: int, e: int)

  predicate SpanLe(s: Span, t: Span) {
    s.b < t.b || (s.b == t.b && s.e <= t.e)
  }

  lemma SpanOrder()
    ensures Total(SpanLe) && Transitive(SpanLe)
  {
  }

  predicate Covers(s: Span, x: int) {
    s.b <= x < s.e
  }

  /** Some span covers `x`. */
  ghost predicate In(iv: seq<Span>, x: int) {
    exists i :: 0 <= i < |iv| && Covers(iv[i], x)
  }

  ghost predicate Proper(iv: seq<Span>) {
    forall i :: 0 <= i < |iv| ==> iv[i].b <= iv[i].e
  }

  /** In order, without overlap. */
  ghost predicate Ordered(iv: seq<Span>) {
    Proper(iv) && forall i, j :: 0 <= i < j < |iv| ==> iv[i].e <= iv[j].b
  }

  /** In order, with a gap between any two. */
  ghost predicate Merged(iv: seq<Span>) {
    Proper(iv) && forall i, j :: 0 <= i < j < |iv| ==> iv[i].e < iv[j].b
  }

  ghost function Ticks(s: Span): set<int> {
    set x: int | s.b <= x < s.e && Covers(s, x)
  }

  /** The ticks the spans cover. */
  ghost function Points(iv: seq<Span>): set<int> {
    if iv == [] then {} else Points(iv[..|iv| - 1]) + Ticks(iv[|iv| - 1])
  }

  /** `tot`. */
  function Tot(iv: seq<Span>): int {
    if iv == [] then 0 else Tot(iv[..|iv| - 1]) + (iv[|iv| - 1].e - iv[|iv| - 1].b)
  }

  // ---- points and measure ----

  lemma InSnoc(iv: seq<Span>, s: Span, x: int)
    ensures In(iv + [s], x) <==> In(iv, x) || Covers(s, x)
  {
    if In(iv, x) {
      var i :| 0 <= i < |iv| && Covers(iv[i], x);
      assert Covers((iv + [s])[i], x);
    }
    if Covers(s, x) {
      assert Covers((iv + [s])[|iv|], x);
    }
    if In(iv + [s], x) {
      var i :| 0 <= i < |iv + [s]| && Covers((iv + [s])[i], x);
    }
  }

  lemma {:induction false} InPoints(iv: seq<Span>, x: int)
    ensures x in Points(iv) <==> In(iv, x)
  {
    if iv != [] {
      var n := |iv| - 1;
      InPoints(iv[..n], x);
      InSnoc(iv[..n], iv[n], x);
      assert iv[..n] + [iv[n]] == iv;
    }
  }

  lemma {:induction false} TicksSize(b: int, e: int)
    requires b <= e
    ensures |Ticks(Span(b, e))| == e - b
    decreases e - b
  {
    if b < e {
      TicksSize(b, e - 1);
      assert Ticks(Span(b, e)) == Ticks(Span(b, e - 1)) + {e - 1};
    } else {
      assert Ticks(Span(b, e)) == {};
    }
  }

  lemma DisjointSize<T>(s: set<T>, t: set<T>)
    requires s !! t
    ensures |s + t| == |s| + |t|
  {
  }

  /** The total length of spans without overlap is the number of ticks they cover. */
  lemma {:induction false} TotIsMeasure(iv: seq<Span>)
    requires Ordered(iv)
    ensures Tot(iv) == |Points(iv)|
  {
    if iv != [] {
      var n := |iv| - 1;
      TotIsMeasure(iv[..n]);
      TicksSize(iv[n].b, iv[n].e);
      assert Points(iv[..n]) !! Ticks(iv[n]) by {
        forall x | x in Points(iv[..n])
          ensures x !in Ticks(iv[n])
        {
          InPoints(iv[..n], x);
          var i :| 0 <= i < n && Covers(iv[..n][i], x);
          assert iv[i].e <= iv[n].b;
        }
      }
      DisjointSize(Points(iv[..n]), Ticks(iv[n]));
    }
  }

  lemma SameMeasure(a: seq<Span>, b: seq<Span>)
    requires forall x :: In(a, x) <==> In(b, x)
    ensures Points(a) == Points(b)
  {
    forall x
      ensures x in Points(a) <==> x in Points(b)
    {
      InPoints(a, x);
      InPoints(b, x);
    }
  }

  lemma SameSpans(a: seq<Span>, b: seq<Span>)
    requires multiset(a) == multiset(b)
    ensures Proper(a) ==> Proper(b)
    ensures forall x :: In(a, x) <==> In(b, x)
  {
    Sorting.SameElements(a, b);
    forall i | 0 <= i < |b|
      ensures b[i] in a
    {
      assert b[i] in b;
    }
    forall i | 0 <= i < |a|
      ensures a[i] in b
    {
      assert a[i] in a;
    }
    forall x
      ensures In(a, x) <==> In(b, x)
    {
      if In(a, x) {
        var i :| 0 <= i < |a| && Covers(a[i], x);
        var j :| 0 <= j < |b| && b[j] == a[i];
        assert Covers(b[j], x);
      }
      if In(b, x) {
        var j :| 0 <= j < |b| && Covers(b[j], x);
        var i :| 0 <= i < |a| && a[i] == b[j];
        assert Covers(a[i], x);
      }
    }
  }

  // ---- merge and union ----

  /** `out` is what the first `n` sorted spans merge to. */
  ghost predicate MergedSoFar(iv: seq<Span>, out: seq<Span>, n: nat)
    requires n <= |iv|
  {
    && Merged(out) && (forall x :: In(out, x) <==> In(iv[..n], x))
    && (out == [] <==> n == 0)
    && (n > 0 ==> out[|out| - 1].b <= iv[n - 1].b)
  }

  /** Growing the last span over one that starts in or right after it covers both. */
  lemma InGrown(out: seq<Span>, s: Span, x: int)
    requires out != []
    requires var last := out[|out| - 1]; last.b <= s.b <= last.e && s.b <= s.e
    ensures var k := |out| - 1;
            In(out[..k] + [Span(out[k].b, if s.e > out[k].e then s.e else out[k].e)], x) <==> In(out, x) || Covers(s, x)
  {
    var k := |out| - 1;
    InSnoc(out[..k], out[k], x);
    InSnoc(out[..k], Span(out[k].b, if s.e > out[k].e then s.e else out[k].e), x);
    assert out[..k] + [out[k]] == out;
  }

  lemma MergeStep(iv: seq<Span>, out: seq<Span>, n: nat, out': seq<Span>)
    requires n < |iv| && Proper(iv) && Sorting.SortedBy(iv, SpanLe) && MergedSoFar(iv, out, n)
    requires var k := |out| - 1;
             out' == if out != [] && iv[n].b <= out[k].e
                     then out[..k] + [Span(out[k].b, if iv[n].e > out[k].e then iv[n].e else out[k].e)]
                     else out + [iv[n]]
    ensures MergedSoFar(iv, out', n + 1)
  {
    assert iv[..n + 1] == iv[..n] + [iv[n]];
    var k := |out| - 1;
    assert n > 0 ==> SpanLe(iv[n - 1], iv[n]);
    forall x
      ensures In(out', x) <==> In(iv[..n + 1], x)
    {
      InSnoc(iv[..n], iv[n], x);
      if out != [] && iv[n].b <= out[k].e {
        InGrown(out, iv[n], x);
      } else {
        InSnoc(out, iv[n], x);
      }
    }
  }

  /** `merge`: the same ticks, as spans in order with gaps between them. */
  method Merge(iv: seq<Span>) returns (out: seq<Span>)
    requires Proper(iv)
    ensures Merged(out) && forall x :: In(out, x) <==> In(iv, x)
  {
    SpanOrder();
    var sorted := Sorting.Sort(iv, SpanLe);
    SameSpans(iv, sorted);
    out := [];
    for n := 0 to |sorted|
      invariant MergedSoFar(sorted, out, n)
    {
      ghost var before := out;
      var s := sorted[n];
      var k := |out| - 1;
      if out != [] && s.b <= out[k].e {
        out := out[..k] + [Span(out[k].b, if s.e > out[k].e then s.e else out[k].e)];
      } else {
        out := out + [s];
      }
      MergeStep(sorted, before, n, out);
    }
    assert sorted[..|sorted|] == sorted;
  }

  /** The open span is the last one of `out`; `tot` sums the closed ones. */
  ghost predicate Summed(out: seq<Span>, open: bool, cs: int, ce: int, tot: int) {
    if open then out != [] && out[|out| - 1] == Span(cs, ce) && tot == Tot(out[..|out| - 1]) else out == [] && tot == 0
  }

  lemma SummedNew(out: seq<Span>, open: bool, cs: int, ce: int, tot: int, s: Span)
    requires Summed(out, open, cs, ce, tot)
    ensures Summed(out + [s], true, s.b, s.e, if open then tot + (ce - cs) else tot)
  {
    assert (out + [s])[..|out|] == out;
  }

  lemma SummedGrow(out: seq<Span>, cs: int, ce: int, tot: int, ce': int)
    requires Summed(out, true, cs, ce, tot)
    ensures Summed(out[..|out| - 1] + [Span(cs, ce')], true, cs, ce', tot)
  {
    assert (out[..|out| - 1] + [Span(cs, ce')])[..|out| - 1] == out[..|out| - 1];
  }

  ghost predicate UnionSoFar(iv: seq<Span>, n: nat, out: seq<Span>, open: bool, cs: int, ce: int, tot: int)
    requires n <= |iv|
  {
    MergedSoFar(iv, out, n) && Summed(out, open, cs, ce, tot)
  }

  lemma UnionStep(iv: seq<Span>, n: nat, out: seq<Span>, open: bool, cs: int, ce: int, tot: int)
    returns (out': seq<Span>)
    requires n < |iv| && Proper(iv) && Sorting.SortedBy(iv, SpanLe) && UnionSoFar(iv, n, out, open, cs, ce, tot)
    ensures !open || iv[n].b > ce ==>
              UnionSoFar(iv, n + 1, out', true, iv[n].b, iv[n].e, if open then tot + (ce - cs) else tot)
    ensures open && iv[n].b <= ce ==>
              UnionSoFar(iv, n + 1, out', true, cs, if iv[n].e > ce then iv[n].e else ce, tot)
  {
    if !open || iv[n].b > ce {
      out' := out + [iv[n]];
      SummedNew(out, open, cs, ce, tot, iv[n]);
    } else {
      var ce' := if iv[n].e > ce then iv[n].e else ce;
      out' := out[..|out| - 1] + [Span(cs, ce')];
      SummedGrow(out, cs, ce, tot, ce');
    }
    MergeStep(iv, out, n, out');
  }

  lemma UnionIs(iv: seq<Span>, sorted: seq<Span>, out: seq<Span>, open: bool, cs: int, ce: int, tot: int)
    requires Proper(iv) && forall x :: In(sorted, x) <==> In(iv, x)
    requires UnionSoFar(sorted, |sorted|, out, open, cs, ce, tot)
    ensures (if open then tot + (ce - cs) else tot) == |Points(iv)|
  {
    assert sorted[..|sorted|] == sorted;
    TotIsMeasure(out);
    SameMeasure(out, iv);
  }

  /** `union`: the number of ticks covered. */
  method Union(iv: seq<Span>) returns (tot: int)
    requires Proper(iv)
    ensures tot == |Points(iv)|
  {
    SpanOrder();
    var sorted := Sorting.Sort(iv, SpanLe);
    SameSpans(iv, sorted);
    tot := 0;
    var open, cs, ce := false, 0, 0;
    ghost var out: seq<Span> := [];
    for n := 0 to |sorted|
      invariant UnionSoFar(sorted, n, out, open, cs, ce, tot)
    {
      var s := sorted[n];
      out := UnionStep(sorted, n, out, open, cs, ce, tot);
      if !open || s.b > ce {
        if open {
          tot := tot + (ce - cs);
        }
        open, cs, ce := true, s.b, s.e;
      } else {
        ce := if s.e > ce then s.e else ce;
      }
    }
    UnionIs(iv, sorted, out, open, cs, ce, tot);
    if open {
      tot := tot + (ce - cs);
    }
  }

  // ---- difference ----

  /** Between the spans already passed and the next one nothing is covered. */
  lemma Uncovered(b: seq<Span>, m: nat, cur: int, hi: int)
    requires Ordered(b) && m <= |b|
    requires forall q :: 0 <= q < m ==> b[q].e <= cur
    requires m < |b| ==> hi <= b[m].b
    ensures forall x :: cur <= x < hi ==> !In(b, x)
  {
    forall x, i | cur <= x < hi && 0 <= i < |b|
      ensures !Covers(b[i], x)
    {
      if i > m {
        assert b[m].e <= b[i].b;
      }
    }
  }

  /** Pieces of `s` up to `cur` that `b` leaves. */
  ghost predicate Pieces(s: Span, b: seq<Span>, out: seq<Span>, cur: int) {
    && Ordered(out) && s.b <= cur
    && (forall i :: 0 <= i < |out| ==> s.b <= out[i].b && out[i].e <= cur && out[i].e <= s.e)
    && forall x :: x < cur && x < s.e ==> (In(out, x) <==> s.b <= x && !In(b, x))
  }

  lemma AddPiece(s: Span, b: seq<Span>, out: seq<Span>, cur: int, hi: int)
    requires Pieces(s, b, out, cur) && cur < hi <= s.e
    requires forall x :: cur <= x < hi ==> !In(b, x)
    ensures Pieces(s, b, out + [Span(cur, hi)], hi)
  {
    forall x | x < hi
      ensures In(out + [Span(cur, hi)], x) <==> s.b <= x && !In(b, x)
    {
      InSnoc(out, Span(cur, hi), x);
      if x >= cur {
        assert Covers(Span(cur, hi), x);
      }
    }
  }

  lemma SkipSpan(s: Span, b: seq<Span>, out: seq<Span>, cur: int, m: nat)
    requires Pieces(s, b, out, cur) && m < |b| && b[m].b <= cur <= b[m].e
    ensures Pieces(s, b, out, b[m].e)
  {
    forall x | x < b[m].e && x < s.e
      ensures In(out, x) <==> s.b <= x && !In(b, x)
    {
      if x >= cur {
        assert Covers(b[m], x);
        forall i | 0 <= i < |out|
          ensures !Covers(out[i], x)
        {
        }
      }
    }
  }

  /** One span minus a list. */
  method SubSpan(s: Span, b: seq<Span>) returns (out: seq<Span>)
    requires s.b <= s.e && Ordered(b)
    ensures Ordered(out) && (forall i :: 0 <= i < |out| ==> s.b <= out[i].b && out[i].e <= s.e)
    ensures forall x :: In(out, x) <==> Covers(s, x) && !In(b, x)
  {
    out := [];
    var cur, m := s.b, 0;
    while m < |b|
      invariant m <= |b| && Pieces(s, b, out, cur) && forall q :: 0 <= q < m ==> b[q].e <= cur
    {
      if b[m].e <= cur {
        m := m + 1;
        continue;
      }
      if b[m].b >= s.e {
        break;
      }
      if b[m].b > cur {
        Uncovered(b, m, cur, b[m].b);
        AddPiece(s, b, out, cur, b[m].b);
        out := out + [Span(cur, b[m].b)];
        cur := b[m].b;
      }
      SkipSpan(s, b, out, cur, m);
      cur := b[m].e;
      if cur >= s.e {
        break;
      }
      m := m + 1;
    }
    if cur < s.e {
      Uncovered(b, m, cur, s.e);
      AddPiece(s, b, out, cur, s.e);
      out := out + [Span(cur, s.e)];
      cur := s.e;
    }
    WholeSpan(s, b, out, cur);
  }

  lemma WholeSpan(s: Span, b: seq<Span>, out: seq<Span>, cur: int)
    requires s.b <= s.e <= cur && Pieces(s, b, out, cur)
    ensures forall x :: In(out, x) <==> Covers(s, x) && !In(b, x)
  {
    forall x
      ensures In(out, x) <==> Covers(s, x) && !In(b, x)
    {
      if x >= s.e {
        forall i | 0 <= i < |out|
          ensures !Covers(out[i], x)
        {
        }
      }
    }
  }

  lemma InConcat(a: seq<Span>, b: seq<Span>, x: int)
    ensures In(a + b, x) <==> In(a, x) || In(b, x)
  {
    if In(a, x) {
      var i :| 0 <= i < |a| && Covers(a[i], x);
      assert Covers((a + b)[i], x);
    }
    if In(b, x) {
      var i :| 0 <= i < |b| && Covers(b[i], x);
      assert Covers((a + b)[|a| + i], x);
    }
    if In(a + b, x) {
      var i :| 0 <= i < |a + b| && Covers((a + b)[i], x);
      assert if i < |a| then Covers(a[i], x) else Covers(b[i - |a|], x);
    }
  }

  /** `sub` of the first `n` spans. */
  ghost predicate SubSoFar(a: seq<Span>, b: seq<Span>, out: seq<Span>, n: nat)
    requires n <= |a|
  {
    && Ordered(out) && (n > 0 ==> forall i :: 0 <= i < |out| ==> out[i].e <= a[n - 1].e)
    && (n == 0 ==> out == [])
    && forall x :: In(out, x) <==> In(a[..n], x) && !In(b, x)
  }

  lemma SubStep(a: seq<Span>, b: seq<Span>, out: seq<Span>, n: nat, more: seq<Span>)
    requires n < |a| && Ordered(a) && SubSoFar(a, b, out, n) && Ordered(more)
    requires forall i :: 0 <= i < |more| ==> a[n].b <= more[i].b && more[i].e <= a[n].e
    requires forall x :: In(more, x) <==> Covers(a[n], x) && !In(b, x)
    ensures SubSoFar(a, b, out + more, n + 1)
  {
    assert a[..n + 1] == a[..n] + [a[n]];
    assert n > 0 ==> a[n - 1].e <= a[n].b;
    forall x
      ensures In(out + more, x) <==> In(a[..n + 1], x) && !In(b, x)
    {
      InConcat(out, more, x);
      InSnoc(a[..n], a[n], x);
    }
  }

  /** `sub`: exactly the ticks of `a` that `b` does not cover. */
  method Sub(a: seq<Span>, b: seq<Span>) returns (out: seq<Span>)
    requires Ordered(a) && Ordered(b)
    ensures Ordered(out) && forall x :: In(out, x) <==> In(a, x) && !In(b, x)
  {
    out := [];
    for n := 0 to |a|
      invariant SubSoFar(a, b, out, n)
    {
      var more := SubSpan(a[n], b);
      SubStep(a, b, out, n, more);
      out := out + more;
    }
    assert a[..|a|] == a;
  }
}
