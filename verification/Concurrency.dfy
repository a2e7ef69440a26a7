/** Mean concurrency and busy share of a window, by a sweep over starts and ends
    (scratch/prefill_trace/b2bw.py). */
module Concurrency {
  import opened Intervals

  /** `(t, 1)` at a start, `(t, -1)` at an end. */
  datatype Event = Event(t: int, d: int)

  predicate EventLe(x: Event, y: Event) {
    x.t < y.t || (x.t == y.t && x.d <= y.d)
  }

  predicate Meets(s: Span, a: int, b: int) {
    s.e > a && s.b < b
  }

  function Clip(s: Span, a: int, b: int): Span {
    Span(if s.b > a then s.b else a, if s.e < b then s.e else b)
  }

  /** The spans that meet the window, clipped to it. */
  function Clipped(iv: seq<Span>, a: int, b: int): seq<Span> {
    if iv == [] then []
    else
      var n := |iv| - 1;
      if Meets(iv[n], a, b) then Clipped(iv[..n], a, b) + [Clip(iv[n], a, b)] else Clipped(iv[..n], a, b)
  }

  // ---- what the sweep measures ----

  /** How many spans cover `x`. */
  ghost function Depth(iv: seq<Span>, x: int): nat {
    if iv == [] then 0 else Depth(iv[..|iv| - 1], x) + if Covers(iv[|iv| - 1], x) then 1 else 0
  }

  /** Span-ticks between `lo` and `hi`. */
  ghost function Area(iv: seq<Span>, lo: int, hi: int): int
    requires lo <= hi
    decreases hi - lo
  {
    if lo == hi then 0 else Area(iv, lo, hi - 1) + Depth(iv, hi - 1)
  }

  /** Ticks between `lo` and `hi` that some span covers. */
  ghost function Cover(iv: seq<Span>, lo: int, hi: int): int
    requires lo <= hi
    decreases hi - lo
  {
    if lo == hi then 0 else Cover(iv, lo, hi - 1) + if In(iv, hi - 1) then 1 else 0
  }

  lemma {:induction false} DepthIsIn(iv: seq<Span>, x: int)
    ensures Depth(iv, x) > 0 <==> In(iv, x)
  {
    if iv != [] {
      var n := |iv| - 1;
      DepthIsIn(iv[..n], x);
      InSnoc(iv[..n], iv[n], x);
      assert iv[..n] + [iv[n]] == iv;
    }
  }

  lemma {:induction false} AreaNone(lo: int, hi: int)
    requires lo <= hi
    ensures Area([], lo, hi) == 0
    decreases hi - lo
  {
    if lo < hi {
      AreaNone(lo, hi - 1);
    }
  }

  /** How much of `s` lies below `hi`. */
  function Below(s: Span, hi: int): int {
    if hi <= s.b then 0 else if hi <= s.e then hi - s.b else s.e - s.b
  }

  lemma {:induction false} AreaSnoc(iv: seq<Span>, s: Span, lo: int, hi: int)
    requires lo <= hi && lo <= s.b <= s.e
    ensures Area(iv + [s], lo, hi) == Area(iv, lo, hi) + Below(s, hi)
    decreases hi - lo
  {
    if lo < hi {
      AreaSnoc(iv, s, lo, hi - 1);
    }
  }

  ghost predicate Inside(iv: seq<Span>, a: int, b: int) {
    forall i :: 0 <= i < |iv| ==> a <= iv[i].b <= iv[i].e <= b
  }

  /** Counting by ticks or by spans gives the same. */
  lemma {:induction false} AreaIsTot(iv: seq<Span>, a: int, b: int)
    requires a <= b && Inside(iv, a, b)
    ensures Area(iv, a, b) == Tot(iv)
  {
    if iv == [] {
      AreaNone(a, b);
    } else {
      var n := |iv| - 1;
      AreaIsTot(iv[..n], a, b);
      AreaSnoc(iv[..n], iv[n], a, b);
      assert iv[..n] + [iv[n]] == iv;
    }
  }

  ghost function CoveredBelow(iv: seq<Span>, lo: int, hi: int): set<int> {
    set x: int | lo <= x < hi && In(iv, x)
  }

  lemma {:induction false} CoverIsSize(iv: seq<Span>, lo: int, hi: int)
    requires lo <= hi
    ensures Cover(iv, lo, hi) == |CoveredBelow(iv, lo, hi)|
    decreases hi - lo
  {
    if lo < hi {
      CoverIsSize(iv, lo, hi - 1);
      var before := CoveredBelow(iv, lo, hi - 1);
      assert CoveredBelow(iv, lo, hi) == if In(iv, hi - 1) then before + {hi - 1} else before;
    } else {
      assert CoveredBelow(iv, lo, hi) == {};
    }
  }

  lemma CoverIsMeasure(iv: seq<Span>, a: int, b: int)
    requires a <= b && Inside(iv, a, b)
    ensures Cover(iv, a, b) == |Points(iv)|
  {
    CoverIsSize(iv, a, b);
    forall x
      ensures x in CoveredBelow(iv, a, b) <==> x in Points(iv)
    {
      InPoints(iv, x);
    }
    assert CoveredBelow(iv, a, b) == Points(iv);
  }

  // ---- events ----

  /** `[(start, 1) …] + [(end, -1) …]`. */
  function Events(iv: seq<Span>): seq<Event> {
    seq(|iv|, i requires 0 <= i < |iv| => Event(iv[i].b, 1)) + seq(|iv|, i requires 0 <= i < |iv| => Event(iv[i].e, -1))
  }

  /** The sum of the steps up to time `x`. */
  ghost function Net(ev: seq<Event>, x: int): int {
    if ev == [] then 0 else Net(ev[..|ev| - 1], x) + if ev[|ev| - 1].t <= x then ev[|ev| - 1].d else 0
  }

  lemma {:induction false} NetConcat(p: seq<Event>, q: seq<Event>, x: int)
    ensures Net(p + q, x) == Net(p, x) + Net(q, x)
  {
    if q == [] {
      assert p + q == p;
    } else {
      var n := |q| - 1;
      NetConcat(p, q[..n], x);
      assert p + q == p + q[..n] + [q[n]];
    }
  }

  lemma NetWithout(ev: seq<Event>, i: nat, x: int)
    requires i < |ev|
    ensures Net(ev, x) == Net(ev[..i] + ev[i + 1..], x) + if ev[i].t <= x then ev[i].d else 0
  {
    assert ev == ev[..i] + ([ev[i]] + ev[i + 1..]);
    NetConcat(ev[..i], [ev[i]] + ev[i + 1..], x);
    NetConcat([ev[i]], ev[i + 1..], x);
    NetConcat(ev[..i], ev[i + 1..], x);
    assert [] + [ev[i]] == [ev[i]];
  }

  lemma WithoutSame(p: seq<Event>, q: seq<Event>, i: nat)
    requires p != [] && multiset(p) == multiset(q) && i < |q| && q[i] == p[|p| - 1]
    ensures multiset(p[..|p| - 1]) == multiset(q[..i] + q[i + 1..])
  {
    var y := q[i];
    var p', q' := p[..|p| - 1], q[..i] + q[i + 1..];
    assert p == p' + [y];
    assert q == q[..i] + [y] + q[i + 1..];
    assert multiset(p) == multiset(p') + multiset{y} && multiset(q) == multiset(q') + multiset{y};
    assert multiset(p') == multiset(p) - multiset{y} && multiset(q') == multiset(q) - multiset{y};
  }

  /** The sum does not depend on the order of the events. */
  lemma {:induction false} NetOfSorted(p: seq<Event>, q: seq<Event>, x: int)
    requires multiset(p) == multiset(q)
    ensures Net(p, x) == Net(q, x)
    decreases |p|
  {
    Sorting.SameElements(p, q);
    if p != [] {
      var y := p[|p| - 1];
      assert y in p && y in q;
      var i :| 0 <= i < |q| && q[i] == y;
      WithoutSame(p, q, i);
      NetOfSorted(p[..|p| - 1], q[..i] + q[i + 1..], x);
      NetWithout(q, i, x);
    }
  }

  lemma EventsSnoc(iv: seq<Span>, s: Span)
    ensures multiset(Events(iv + [s])) == multiset(Events(iv) + [Event(s.b, 1)] + [Event(s.e, -1)])
  {
    var n := |iv|;
    var starts, ends := Events(iv)[..n], Events(iv)[n..];
    assert Events(iv) == starts + ends;
    assert Events(iv + [s]) == starts + [Event(s.b, 1)] + ends + [Event(s.e, -1)];
  }

  /** Between two events the running count is the number of spans that cover the tick. */
  lemma {:induction false} NetIsDepth(iv: seq<Span>, x: int)
    requires Proper(iv)
    ensures Net(Events(iv), x) == Depth(iv, x)
  {
    if iv == [] {
      assert Events(iv) == [];
    } else {
      var n := |iv| - 1;
      var s := iv[n];
      NetIsDepth(iv[..n], x);
      assert iv[..n] + [s] == iv;
      EventsSnoc(iv[..n], s);
      NetOfSorted(Events(iv), Events(iv[..n]) + [Event(s.b, 1)] + [Event(s.e, -1)], x);
    }
  }

  // ---- the sweep ----

  /** After `n` sorted events, the last at `last`. */
  ghost predicate Swept(ev: seq<Event>, iv: seq<Span>, a: int, n: nat, cur: int, last: int, acc: int, busy: int) {
    && n <= |ev| && a <= last
    && (forall i :: 0 <= i < n ==> ev[i].t <= last) && (forall i :: n <= i < |ev| ==> ev[i].t >= last)
    && cur == StepSum(ev[..n])
    && acc == Area(iv, a, last) && busy == Cover(iv, a, last)
  }

  ghost function StepSum(ev: seq<Event>): int {
    if ev == [] then 0 else StepSum(ev[..|ev| - 1]) + ev[|ev| - 1].d
  }

  lemma {:induction false} NetAll(ev: seq<Event>, x: int)
    requires forall i :: 0 <= i < |ev| ==> ev[i].t <= x
    ensures Net(ev, x) == StepSum(ev)
  {
    if ev != [] {
      NetAll(ev[..|ev| - 1], x);
    }
  }

  lemma {:induction false} NetNone(ev: seq<Event>, x: int)
    requires forall i :: 0 <= i < |ev| ==> ev[i].t > x
    ensures Net(ev, x) == 0
  {
    if ev != [] {
      NetNone(ev[..|ev| - 1], x);
    }
  }

  /** Between consecutive events the count is `cur`. */
  lemma FlatBetween(ev: seq<Event>, n: nat, x: int)
    requires n <= |ev|
    requires forall i :: 0 <= i < n ==> ev[i].t <= x
    requires forall i :: n <= i < |ev| ==> ev[i].t > x
    ensures Net(ev, x) == StepSum(ev[..n])
  {
    assert ev == ev[..n] + ev[n..];
    NetConcat(ev[..n], ev[n..], x);
    NetAll(ev[..n], x);
    NetNone(ev[n..], x);
  }

  /** `depth` repeated over `n` ticks. */
  ghost function Repeated(depth: int, n: nat): int {
    if n == 0 then 0 else Repeated(depth, n - 1) + depth
  }

  lemma {:induction false} RepeatedIsProduct(depth: int, n: nat)
    ensures Repeated(depth, n) == depth * n
  {
    if n > 0 {
      RepeatedIsProduct(depth, n - 1);
    }
  }

  ghost predicate ConstantDepth(iv: seq<Span>, lo: int, hi: int, depth: int) {
    forall x :: lo <= x < hi ==> Depth(iv, x) == depth
  }

  lemma {:induction false} StretchArea(iv: seq<Span>, a: int, lo: int, hi: int, depth: int)
    requires a <= lo <= hi && ConstantDepth(iv, lo, hi, depth)
    ensures Area(iv, a, hi) == Area(iv, a, lo) + Repeated(depth, hi - lo)
    decreases hi - lo
  {
    if lo < hi {
      StretchArea(iv, a, lo, hi - 1, depth);
    }
  }

  lemma {:induction false} StretchCover(iv: seq<Span>, a: int, lo: int, hi: int, depth: int)
    requires a <= lo <= hi && ConstantDepth(iv, lo, hi, depth)
    ensures Cover(iv, a, hi) == Cover(iv, a, lo) + if depth > 0 then hi - lo else 0
    decreases hi - lo
  {
    if lo < hi {
      StretchCover(iv, a, lo, hi - 1, depth);
      DepthIsIn(iv, hi - 1);
    }
  }

  lemma SweepTo(ev: seq<Event>, iv: seq<Span>, a: int, n: nat, cur: int, last: int, acc: int, busy: int, t: int)
    requires Proper(iv) && multiset(ev) == multiset(Events(iv)) && Swept(ev, iv, a, n, cur, last, acc, busy)
    requires last <= t && forall i :: n <= i < |ev| ==> ev[i].t >= t
    ensures acc + cur * (t - last) == Area(iv, a, t)
    ensures busy + (if cur > 0 then t - last else 0) == Cover(iv, a, t)
  {
    forall x | last <= x < t
      ensures Depth(iv, x) == cur
    {
      FlatBetween(ev, n, x);
      NetOfSorted(ev, Events(iv), x);
      NetIsDepth(iv, x);
    }
    StretchArea(iv, a, last, t, cur);
    StretchCover(iv, a, last, t, cur);
    RepeatedIsProduct(cur, t - last);
  }

  lemma SweepStep(ev: seq<Event>, iv: seq<Span>, a: int, n: nat, cur: int, last: int, acc: int, busy: int)
    requires Proper(iv) && multiset(ev) == multiset(Events(iv)) && Sorting.SortedBy(ev, EventLe)
    requires Swept(ev, iv, a, n, cur, last, acc, busy) && n < |ev|
    ensures var e := ev[n];
            Swept(ev, iv, a, n + 1, cur + e.d, e.t, acc + cur * (e.t - last), busy + if cur > 0 then e.t - last else 0)
  {
    var e := ev[n];
    forall i | n <= i < |ev|
      ensures ev[i].t >= e.t
    {
      assert i > n ==> EventLe(ev[n], ev[i]);
    }
    SweepTo(ev, iv, a, n, cur, last, acc, busy, e.t);
    assert ev[..n + 1][..n] == ev[..n];
  }

  lemma ClippedInside(iv: seq<Span>, a: int, b: int)
    requires a < b && Proper(iv)
    ensures Inside(Clipped(iv, a, b), a, b)
  {
    if iv != [] {
      var n := |iv| - 1;
      ClippedInside(iv[..n], a, b);
    }
  }

  lemma EventsInside(iv: seq<Span>, ev: seq<Event>, a: int, b: int)
    requires Inside(iv, a, b) && multiset(ev) == multiset(Events(iv))
    ensures forall i :: 0 <= i < |ev| ==> a <= ev[i].t <= b
  {
    Sorting.SameElements(ev, Events(iv));
    forall i | 0 <= i < |ev|
      ensures a <= ev[i].t <= b
    {
      assert ev[i] in ev && ev[i] in Events(iv);
    }
  }

  /** `conc`: the mean number of spans in flight over the window, and the share of the window that
      any span covers. */
  method Conc(iv: seq<Span>, a: int, b: int) returns (mean: real, busy: real)
    requires a < b && Proper(iv)
    ensures mean == Tot(Clipped(iv, a, b)) as real / (b - a) as real
    ensures busy == |Points(Clipped(iv, a, b))| as real / (b - a) as real
  {
    var clipped := Clipped(iv, a, b);
    ClippedInside(iv, a, b);
    var ev := Sorting.Sort(Events(clipped), EventLe);
    EventsInside(clipped, ev, a, b);
    var cur, last, acc, used := 0, a, 0, 0;
    for n := 0 to |ev|
      invariant Swept(ev, clipped, a, n, cur, last, acc, used) && last <= b
    {
      SweepStep(ev, clipped, a, n, cur, last, acc, used);
      var e := ev[n];
      acc := acc + cur * (e.t - last);
      used := used + if cur > 0 then e.t - last else 0;
      cur := cur + e.d;
      last := e.t;
    }
    SweepEnd(ev, clipped, a, b, cur, last, acc, used);
    mean, busy := acc as real / (b - a) as real, used as real / (b - a) as real;
  }

  /** Nothing is in flight after the last event. */
  lemma NothingLeft(ev: seq<Event>, iv: seq<Span>, a: int, b: int, cur: int, last: int, acc: int, busy: int)
    requires a < b && Inside(iv, a, b) && multiset(ev) == multiset(Events(iv))
    requires Swept(ev, iv, a, |ev|, cur, last, acc, busy) && last <= b
    ensures cur == 0
  {
    FlatBetween(ev, |ev|, b);
    NetOfSorted(ev, Events(iv), b);
    NetIsDepth(iv, b);
    DepthIsIn(iv, b);
  }

  lemma SweepEnd(ev: seq<Event>, iv: seq<Span>, a: int, b: int, cur: int, last: int, acc: int, busy: int)
    requires a < b && Inside(iv, a, b) && multiset(ev) == multiset(Events(iv))
    requires Swept(ev, iv, a, |ev|, cur, last, acc, busy) && last <= b
    ensures acc == Tot(iv) && busy == |Points(iv)|
  {
    SweepTo(ev, iv, a, |ev|, cur, last, acc, busy, b);
    NothingLeft(ev, iv, a, b, cur, last, acc, busy);
    AreaIsTot(iv, a, b);
    CoverIsMeasure(iv, a, b);
  }

  /** The clipped spans cover what the spans cover of the window. */
  lemma {:induction false} ClippedCovers(iv: seq<Span>, a: int, b: int, x: int)
    ensures In(Clipped(iv, a, b), x) <==> a <= x < b && In(iv, x)
  {
    if iv != [] {
      var n := |iv| - 1;
      ClippedCovers(iv[..n], a, b, x);
      InSnoc(Clipped(iv[..n], a, b), Clip(iv[n], a, b), x);
      InSnoc(iv[..n], iv[n], x);
      assert iv[..n] + [iv[n]] == iv;
    }
  }
}
