/** Which shipped cost tables let a run of the lazy greedy place an expert that is not a best one
    (scripts/sim.py, scripts/sim2.py). */
module BestPicks {
  import opened Prelude
  import opened LazyGreedy
  import opened CostTables

  /** No run on the host tier places an expert that saves less than some candidate, up to `SLACK`. */
  ghost predicate AlwaysBest(cost: Cost, minGain: real) {
    forall m: Problem | OnHost(m, cost, minGain) :: PlacesBest(m)
  }

  ghost predicate OnHost(m: Problem, cost: Cost, minGain: real) {
    && m.cost == cost && m.minGain == minGain && !m.allowDgpu && Shaped(m.picks, m.n) && TopkPicks(m.picks)
  }

  // ---- the input on which a rising table misses ----

  const SIX: seq<nat> := [0, 1, 2, 3, 4, 5]

  /** Two layers, and one token that picks the same six experts in both. */
  function Twice(cost: Cost, minGain: real): Problem {
    Problem(cost, [[SIX], [SIX]], 1, 1_000_000_000, 0, false, minGain)
  }

  /** Three picks save `hi`, `lo` and `hi` again. */
  ghost predicate Dips(cost: Cost, hi: real, lo: real) {
    && StepSaving(cost, 0, 0, Host) == hi && StepSaving(cost, 1, 0, Host) == lo && StepSaving(cost, 2, 0, Host) == hi
    && hi > lo + SLACK
  }

  /** `a` placed in layer 0 and `b` in layer 1. */
  function Pair(a: set<nat>, b: set<nat>): Placement {
    Placement([a, b], [{}, {}])
  }

  lemma SixCounts()
    ensures Count(SIX, {}) == 0 && Count(SIX, {0}) == 1 && Count(SIX, {0, 5}) == 2
  {
    CountNone(SIX);
    OccurrencesAtMostOne(SIX, 0);
    OccurrencesAtMostOne(SIX, 5);
    CountAdds(SIX, {}, 0);
    CountAdds(SIX, {0}, 5);
    assert {} + {0} == {0} && {0} + {5} == {0, 5};
    assert SIX[0] == 0 && SIX[5] == 5;
  }

  lemma SixUses(e: nat)
    ensures Uses([SIX], e, 1) == if e < 6 then [0] else []
  {
    OccurrencesAtMostOne(SIX, e);
    assert e < 6 ==> SIX[e] == e;
    assert Uses([SIX], e, 0) == [];
    UsesStep([SIX], e, 1);
  }

  lemma TwiceFits(cost: Cost, minGain: real, a: set<nat>, b: set<nat>)
    ensures OnHost(Twice(cost, minGain), cost, minGain) && Fits(Twice(cost, minGain), Pair(a, b))
  {
  }

  /** With one token a gain is the table's step. */
  lemma TwiceGain(cost: Cost, minGain: real, a: set<nat>, b: set<nat>, l: nat, e: nat)
    requires l < 2 && e < 6
    ensures GainNow(Twice(cost, minGain), Pair(a, b), l, e, Host) ==
            StepSaving(cost, Count(SIX, if l == 0 then a else b), 0, Host)
  {
    var members := if l == 0 then a else b;
    SixUses(e);
    SixCounts();
    assert Savings(cost, [SIX], members, {}, Host, [0]) ==
           Savings(cost, [SIX], members, {}, Host, []) + StepSaving(cost, Count(SIX, members), Count(SIX, {}), Host);
  }

  lemma PutPair(a: set<nat>, b: set<nat>, l: nat, e: nat)
    requires l < 2
    ensures Put(Pair(a, b), l, e, Host) == if l == 0 then Pair(a + {e}, b) else Pair(a, b + {e})
  {
  }

  lemma PairSizes(a: set<nat>, b: set<nat>)
    ensures Sizes(Pair(a, b).hs) == |a| + |b|
  {
    var hs := [a, b];
    assert hs[..1] == [a] && [a][..0] == hs[..0];
    assert Sizes(hs[..1]) == |a|;
  }

  lemma TwiceOpen(cost: Cost, minGain: real, a: set<nat>, b: set<nat>, l: nat, e: nat)
    requires l < 2 && e < 6 && |a| + |b| < 10 && e !in (if l == 0 then a else b)
    ensures Open(Twice(cost, minGain), Pair(a, b), l, e, Host)
  {
    SixUses(e);
    PairSizes(a, b);
  }

  lemma TwiceItem(cost: Cost, minGain: real, x: Entry)
    ensures IsItem(Twice(cost, minGain), x) <==> x.l < 2 && x.e < 6 && x.tier == Host
  {
    SixUses(x.e);
  }

  // ---- the run ----

  function Stored(hi: real, lo: real, l: nat, b: nat, e: nat): Entry {
    Entry(if e < b then -lo else -hi, l, e, Host)
  }

  /** The entries left: in layer 0 experts from `a0` on, in layer 1 experts in `[a1, c1)`; those below
      `b0` and `b1` stored with `lo`, the others with `hi`. */
  function Left(hi: real, lo: real, a0: nat, b0: nat, a1: nat, b1: nat, c1: nat): set<Entry> {
    (set e: nat | a0 <= e < 6 :: Stored(hi, lo, 0, b0, e)) + (set e: nat | a1 <= e < c1 :: Stored(hi, lo, 1, b1, e))
  }

  ghost predicate IsLeft(hi: real, lo: real, a0: nat, b0: nat, a1: nat, b1: nat, c1: nat, x: Entry) {
    (a0 <= x.e < 6 && x == Stored(hi, lo, 0, b0, x.e)) || (a1 <= x.e < c1 && x == Stored(hi, lo, 1, b1, x.e))
  }

  lemma LeftIs(hi: real, lo: real, a0: nat, b0: nat, a1: nat, b1: nat, c1: nat)
    ensures forall x :: x in Left(hi, lo, a0, b0, a1, b1, c1) <==> IsLeft(hi, lo, a0, b0, a1, b1, c1, x)
  {
    forall x
      ensures x in Left(hi, lo, a0, b0, a1, b1, c1) <==> IsLeft(hi, lo, a0, b0, a1, b1, c1, x)
    {
    }
  }

  /** Expert 0 of layer 0 is placed; those below `i` of layer 0 have gone back. */
  function First(hi: real, lo: real, i: nat): State {
    State(Pair({0}, {}), Left(hi, lo, 1, i, 0, 0, 6))
  }

  /** Expert 0 of layer 1 is placed too; those below `i` of layer 1 have gone back. */
  function Second(hi: real, lo: real, i: nat): State {
    State(Pair({0}, {0}), Left(hi, lo, 1, 6, 1, i, 6))
  }

  /** And so is expert 5 of layer 1: the others there save `hi` again, but are stored with `lo`. */
  function Third(hi: real, lo: real): State {
    State(Pair({0}, {0, 5}), Left(hi, lo, 1, 6, 1, 5, 5))
  }

  lemma Pushed(m: Problem, s: State, x: Entry, next: Entry, g: real)
    requires Reached(m, s) && Fits(m, s.p) && Top(s.heap, x) && Open(m, s.p, x.l, x.e, x.tier)
    requires g == GainNow(m, s.p, x.l, x.e, x.tier) && next in s.heap && next != x && g < -next.prio - SLACK
    ensures Reached(m, State(s.p, s.heap - {x} + {x.(prio := -g)}))
  {
    assert Beaten(m, s, x);
    ReachedNext(m, s, State(s.p, s.heap - {x} + {x.(prio := -g)}), x);
  }

  /** Nothing is stored above `g` but the popped entry itself. */
  lemma PlacedLow(m: Problem, s: State, x: Entry, g: real)
    requires Reached(m, s) && Fits(m, s.p) && Top(s.heap, x) && Open(m, s.p, x.l, x.e, x.tier)
    requires g == GainNow(m, s.p, x.l, x.e, x.tier) > m.minGain && forall y :: y in s.heap && y != x ==> -y.prio <= g
    ensures Reached(m, State(Put(s.p, x.l, x.e, x.tier), s.heap - {x}))
  {
    assert Places(m, s, x);
    ReachedNext(m, s, State(Put(s.p, x.l, x.e, x.tier), s.heap - {x}), x);
  }

  lemma Placed(m: Problem, s: State, x: Entry, g: real)
    requires Reached(m, s) && Fits(m, s.p) && Top(s.heap, x) && Open(m, s.p, x.l, x.e, x.tier)
    requires g == GainNow(m, s.p, x.l, x.e, x.tier) > m.minGain && -x.prio <= g
    ensures Places(m, s, x) && Reached(m, State(Put(s.p, x.l, x.e, x.tier), s.heap - {x}))
  {
    ReachedNext(m, s, State(Put(s.p, x.l, x.e, x.tier), s.heap - {x}), x);
  }

  lemma ToStart(cost: Cost, minGain: real, hi: real, lo: real)
    requires Dips(cost, hi, lo)
    ensures Reached(Twice(cost, minGain), State(Pair({}, {}), Left(hi, lo, 0, 0, 0, 0, 6)))
  {
    var m, s := Twice(cost, minGain), State(Pair({}, {}), Left(hi, lo, 0, 0, 0, 0, 6));
    assert Nothing(2) == Pair({}, {});
    LeftIs(hi, lo, 0, 0, 0, 0, 6);
    SixCounts();
    forall x
      ensures x in s.heap <==> IsItem(m, x) && Fresh(m, s.p, x)
    {
      TwiceItem(cost, minGain, x);
      if x.l < 2 && x.e < 6 && x.tier == Host {
        TwiceGain(cost, minGain, {}, {}, x.l, x.e);
      }
    }
    assert LazyRun(m, [s]);
  }

  lemma PlacesFirst(cost: Cost, minGain: real, hi: real, lo: real)
    requires Dips(cost, hi, lo) && lo > minGain
    ensures Reached(Twice(cost, minGain), First(hi, lo, 1))
  {
    var m, s := Twice(cost, minGain), State(Pair({}, {}), Left(hi, lo, 0, 0, 0, 0, 6));
    var x := Entry(-hi, 0, 0, Host);
    ToStart(cost, minGain, hi, lo);
    LeftIs(hi, lo, 0, 0, 0, 0, 6);
    LeftIs(hi, lo, 1, 1, 0, 0, 6);
    SixCounts();
    TwiceGain(cost, minGain, {}, {}, 0, 0);
    TwiceOpen(cost, minGain, {}, {}, 0, 0);
    assert s.heap - {x} == Left(hi, lo, 1, 1, 0, 0, 6);
    PutPair({}, {}, 0, 0);
    assert {} + {0} == {0};
    Placed(m, s, x, hi);
  }

  lemma {:induction false} PushesFirst(cost: Cost, minGain: real, hi: real, lo: real, i: nat)
    requires Dips(cost, hi, lo) && lo > minGain && 1 <= i <= 6
    ensures Reached(Twice(cost, minGain), First(hi, lo, i))
  {
    if i == 1 {
      PlacesFirst(cost, minGain, hi, lo);
    } else {
      PushesFirst(cost, minGain, hi, lo, i - 1);
      PushFirst(cost, minGain, hi, lo, i - 1);
    }
  }

  lemma PushFirst(cost: Cost, minGain: real, hi: real, lo: real, i: nat)
    requires Dips(cost, hi, lo) && 1 <= i < 6 && Reached(Twice(cost, minGain), First(hi, lo, i))
    ensures Reached(Twice(cost, minGain), First(hi, lo, i + 1))
  {
    var m, s := Twice(cost, minGain), First(hi, lo, i);
    var x, next := Entry(-hi, 0, i, Host), Entry(-hi, 1, 0, Host);
    LeftIs(hi, lo, 1, i, 0, 0, 6);
    LeftIs(hi, lo, 1, i + 1, 0, 0, 6);
    SixCounts();
    TwiceGain(cost, minGain, {0}, {}, 0, i);
    TwiceOpen(cost, minGain, {0}, {}, 0, i);
    assert s.heap - {x} + {x.(prio := -lo)} == Left(hi, lo, 1, i + 1, 0, 0, 6);
    Pushed(m, s, x, next, lo);
  }

  lemma PlacesSecond(cost: Cost, minGain: real, hi: real, lo: real)
    requires Dips(cost, hi, lo) && lo > minGain
    ensures Reached(Twice(cost, minGain), Second(hi, lo, 1))
  {
    var m, s := Twice(cost, minGain), First(hi, lo, 6);
    var x := Entry(-hi, 1, 0, Host);
    PushesFirst(cost, minGain, hi, lo, 6);
    LeftIs(hi, lo, 1, 6, 0, 0, 6);
    LeftIs(hi, lo, 1, 6, 1, 1, 6);
    SixCounts();
    TwiceGain(cost, minGain, {0}, {}, 1, 0);
    TwiceOpen(cost, minGain, {0}, {}, 1, 0);
    assert s.heap - {x} == Left(hi, lo, 1, 6, 1, 1, 6);
    PutPair({0}, {}, 1, 0);
    assert {} + {0} == {0};
    Placed(m, s, x, hi);
  }

  lemma {:induction false} PushesSecond(cost: Cost, minGain: real, hi: real, lo: real, i: nat)
    requires Dips(cost, hi, lo) && lo > minGain && 1 <= i <= 5
    ensures Reached(Twice(cost, minGain), Second(hi, lo, i))
  {
    if i == 1 {
      PlacesSecond(cost, minGain, hi, lo);
    } else {
      PushesSecond(cost, minGain, hi, lo, i - 1);
      PushSecond(cost, minGain, hi, lo, i - 1);
    }
  }

  lemma PushSecond(cost: Cost, minGain: real, hi: real, lo: real, i: nat)
    requires Dips(cost, hi, lo) && 1 <= i < 5 && Reached(Twice(cost, minGain), Second(hi, lo, i))
    ensures Reached(Twice(cost, minGain), Second(hi, lo, i + 1))
  {
    var m, s := Twice(cost, minGain), Second(hi, lo, i);
    var x, next := Entry(-hi, 1, i, Host), Entry(-hi, 1, 5, Host);
    LeftIs(hi, lo, 1, 6, 1, i, 6);
    LeftIs(hi, lo, 1, 6, 1, i + 1, 6);
    SixCounts();
    TwiceGain(cost, minGain, {0}, {0}, 1, i);
    TwiceOpen(cost, minGain, {0}, {0}, 1, i);
    assert s.heap - {x} + {x.(prio := -lo)} == Left(hi, lo, 1, 6, 1, i + 1, 6);
    Pushed(m, s, x, next, lo);
  }

  lemma PlacesThird(cost: Cost, minGain: real, hi: real, lo: real)
    requires Dips(cost, hi, lo) && lo > minGain
    ensures Reached(Twice(cost, minGain), Third(hi, lo))
  {
    var m, s := Twice(cost, minGain), Second(hi, lo, 5);
    var x := Entry(-hi, 1, 5, Host);
    PushesSecond(cost, minGain, hi, lo, 5);
    LeftIs(hi, lo, 1, 6, 1, 5, 6);
    LeftIs(hi, lo, 1, 6, 1, 5, 5);
    SixCounts();
    TwiceGain(cost, minGain, {0}, {0}, 1, 5);
    TwiceOpen(cost, minGain, {0}, {0}, 1, 5);
    assert s.heap - {x} == Left(hi, lo, 1, 6, 1, 5, 5);
    PutPair({0}, {0}, 1, 5);
    assert {0} + {5} == {0, 5};
    PlacedLow(m, s, x, lo);
  }

  /** Expert 1 of layer 0 is placed next, for `lo`, while expert 1 of layer 1 would save `hi`. */
  lemma Misses(cost: Cost, minGain: real, hi: real, lo: real)
    requires Dips(cost, hi, lo) && lo > minGain
    ensures var m, s, x := Twice(cost, minGain), Third(hi, lo), Entry(-lo, 0, 1, Host);
            && OnHost(m, cost, minGain) && Reached(m, s) && Fits(m, s.p) && Places(m, s, x)
            && GainNow(m, s.p, 0, 1, Host) == lo
            && Open(m, s.p, 1, 1, Host) && GainNow(m, s.p, 1, 1, Host) == hi
  {
    PlacesThird(cost, minGain, hi, lo);
    LeftIs(hi, lo, 1, 6, 1, 5, 5);
    SixCounts();
    TwiceGain(cost, minGain, {0}, {0, 5}, 0, 1);
    TwiceGain(cost, minGain, {0}, {0, 5}, 1, 1);
    TwiceOpen(cost, minGain, {0}, {0, 5}, 0, 1);
    TwiceOpen(cost, minGain, {0}, {0, 5}, 1, 1);
  }

  // ---- every run is the same ----

  lemma TopIsOne(heap: set<Entry>, x: Entry, y: Entry)
    requires Top(heap, x) && Top(heap, y)
    ensures x == y
  {
    assert EntryLe(x, y) && EntryLe(y, x);
  }

  lemma TurnIsOne(m: Problem, s: State, t: State, t': State)
    requires Turn(m, s, t) && Turn(m, s, t')
    ensures t == t'
  {
    var x :| TurnOn(m, s, t, x);
    var y :| TurnOn(m, s, t', y);
    TopIsOne(s.heap, x, y);
  }

  /** Two runs go the same way as long as both last. */
  lemma {:induction false} RunsAgree(m: Problem, run: seq<State>, other: seq<State>, k: nat)
    requires LazyRun(m, run) && LazyRun(m, other) && k < |run| && k < |other|
    ensures run[k] == other[k]
  {
    if k == 0 {
      assert run[0].heap == other[0].heap;
    } else {
      RunsAgree(m, run, other, k - 1);
      assert Turn(m, run[k - 1], run[k]) && Turn(m, other[k - 1], other[k]);
      TurnIsOne(m, run[k - 1], run[k], other[k]);
    }
  }

  /** A run to its end passes through every state some run gets to and goes on from. */
  lemma PassesThrough(m: Problem, run: seq<State>, s: State, x: Entry) returns (k: nat)
    requires LazyRun(m, run) && Stops(m, run[|run| - 1]) && Reached(m, s) && Fits(m, s.p) && Places(m, s, x)
    ensures k + 1 < |run| && run[k] == s && run[k + 1] == State(Put(s.p, x.l, x.e, x.tier), s.heap - {x})
  {
    var other :| LazyRun(m, other) && other[|other| - 1] == s;
    var t := State(Put(s.p, x.l, x.e, x.tier), s.heap - {x});
    k := |other| - 1;
    RunGoesOn(m, other, t, x);
    var longer := other + [t];
    if k + 1 < |run| {
      RunsAgree(m, run, longer, k);
      RunsAgree(m, run, longer, k + 1);
    } else {
      var last := |run| - 1;
      RunsAgree(m, run, longer, last);
      StopsThere(m, longer, last);
      assert false;
    }
  }

  lemma StopsThere(m: Problem, run: seq<State>, k: nat)
    requires LazyRun(m, run) && k < |run| && Stops(m, run[k])
    ensures k == |run| - 1
  {
    if k < |run| - 1 {
      assert Turn(m, run[k], run[k + 1]);
      var x :| TurnOn(m, run[k], run[k + 1], x);
      var y :| Refused(m, run[k], y);
      TopIsOne(run[k].heap, x, y);
      assert false;
    }
  }

  // ---- the shipped tables ----

  lemma MeasuredDips(m: Model, capped: bool)
    requires Shipped(m) && m.link == Measured
    ensures Dips(CostUsed(m, capped), 92.7, 92.6)
  {
    forall a: nat | a <= 3
      ensures CostUsed(m, capped)(a, 0) == HostCell(m, a)
    {
      HostCellOf(m, a);
      CappedHost(m, a);
    }
  }

  /** So the greedy itself, run to its end on a measured table, places an expert for 92.6 us while another
      one would save 92.7. */
  lemma MeasuredMisses(m: Model, capped: bool, minGain: real, run: seq<State>) returns (k: nat)
    requires Shipped(m) && m.link == Measured && minGain < 92.6
    requires var p := Twice(CostUsed(m, capped), minGain); LazyRun(p, run) && Stops(p, run[|run| - 1])
    ensures k + 1 < |run| && run[k + 1].p == Put(run[k].p, 0, 1, Host)
    ensures var p := Twice(CostUsed(m, capped), minGain);
            && Fits(p, run[k].p) && GainNow(p, run[k].p, 0, 1, Host) == 92.6
            && Open(p, run[k].p, 1, 1, Host) && GainNow(p, run[k].p, 1, 1, Host) == 92.7
  {
    var cost := CostUsed(m, capped);
    MeasuredDips(m, capped);
    Misses(cost, minGain, 92.7, 92.6);
    k := PassesThrough(Twice(cost, minGain), run, Third(92.7, 92.6), Entry(-92.6, 0, 1, Host));
  }

  /** On the host tier every run of a shipped table, claim-capped or not, always places a best candidate
      exactly when its link is not the measured one. */
  lemma BestPickIff(m: Model, capped: bool, minGain: real)
    requires Shipped(m) && minGain < 92.6
    ensures AlwaysBest(CostUsed(m, capped), minGain) <==> m.link != Measured
  {
    var cost := CostUsed(m, capped);
    if m.link == Measured {
      MeasuredDips(m, capped);
      Misses(cost, minGain, 92.7, 92.6);
      assert !PlacesBest(Twice(cost, minGain));
    } else {
      forall p: Problem | OnHost(p, cost, minGain)
        ensures PlacesBest(p)
      {
        ShippedRunsAreSteady(p, m, capped);
        SteadyPlacesBest(p);
      }
    }
  }
}
