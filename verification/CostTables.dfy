/** The cost tables the placement runs with, and how far each is from diminishing savings
    (scripts/sim.py, scripts/sim2.py). */
module CostTables {
  import opened LazyGreedy

  /** Cost of `k` picks left to the other box. */
  datatype Link = Linear(b: real, c: real) | Measured

  datatype Model = Model(c1: real, link: Link)

  const SHARED := 96.0
  const DGPU_PICK := 29.0

  function Box2(link: Link, k: nat): real {
    match link
    case Linear(b, c) => if k == 0 then 0.0 else b + c * k as real
    case Measured =>
      if k == 0 then 0.0 else if k == 1 then 274.0 else if k == 2 then 315.5 else if k == 3 then 357.0
      else if k == 4 then 449.7 else if k == 5 then 542.3 else 635.0
  }

  function Larger(x: real, y: real): real {
    if x >= y then x else y
  }

  function Smaller(x: real, y: real): real {
    if x <= y then x else y
  }

  /** `Model.tab`: the slowest of the three boxes.  No token picks more than `TOPK` experts. */
  function Table(m: Model, nh: nat, d: nat): real {
    if nh + d > TOPK then 0.0
    else Larger(Larger(m.c1 * nh as real, SHARED + DGPU_PICK * d as real), Box2(m.link, TOPK - nh - d))
  }

  function CostOf(m: Model): Cost {
    (nh: nat, d: nat) => Table(m, nh, d)
  }

  const LIN73 := Model(73.0, Linear(202.0, 72.0))
  const MEAS73 := Model(73.0, Measured)
  const LIN98 := Model(98.0, Linear(202.0, 72.0))
  const MEAS98 := Model(98.0, Measured)
  const LIN73X := Model(73.0, Linear(250.0, 72.0))

  /** Only the cells a token can reach matter. */
  lemma SameCells(f: Cost, g: Cost, dgpu: bool, rise: real)
    requires forall a: nat, b: nat :: a + b <= TOPK && (b > 0 ==> dgpu) ==> f(a, b) == g(a, b)
    ensures RisesAtMost(f, dgpu, rise) <==> RisesAtMost(g, dgpu, rise)
  {
    forall a: nat, b: nat, tier | a + b < TOPK && (tier == Dgpu || b > 0 ==> dgpu)
      ensures StepSaving(f, a, b, tier) == StepSaving(g, a, b, tier)
    {
    }
  }

  // ---- both tiers ----

  /** One more pick on either tier makes a pick save no more. */
  ghost predicate Falls(f: Cost, a: nat, b: nat, tier: Tier) {
    StepSaving(f, a + 1, b, tier) <= StepSaving(f, a, b, tier) &&
        StepSaving(f, a, b + 1, tier) <= StepSaving(f, a, b, tier)
  }

  ghost predicate StepsFall(f: Cost) {
    forall a: nat, b: nat, tier :: a + b + 1 < TOPK ==> Falls(f, a, b, tier)
  }

  /** Falling step by step is falling along every path. */
  lemma {:induction false} WalkFalls(f: Cost, a: nat, b: nat, a': nat, b': nat, tier: Tier)
    requires StepsFall(f) && a <= a' && b <= b' && a' + b' < TOPK
    ensures StepSaving(f, a', b', tier) <= StepSaving(f, a, b, tier)
    decreases a' + b'
  {
    if a < a' {
      assert Falls(f, a' - 1, b', tier);
      WalkFalls(f, a, b, a' - 1, b', tier);
    } else if b < b' {
      assert Falls(f, a', b' - 1, tier);
      WalkFalls(f, a, b, a', b' - 1, tier);
    }
  }

  lemma StepsSuffice(f: Cost)
    requires StepsFall(f)
    ensures RisesAtMost(f, true, 0.0)
  {
    forall a: nat, b: nat, a': nat, b': nat, tier | a <= a' && b <= b' && a' + b' < TOPK
      ensures StepSaving(f, a', b', tier) <= StepSaving(f, a, b, tier)
    {
      WalkFalls(f, a, b, a', b', tier);
    }
  }

  /** The linear tables cell by cell: the other box is the slowest but for a loaded host, and does
      nothing when every pick is local. */
  function Cell73(nh: nat, d: nat): real {
    if nh + d == TOPK then Larger(73.0 * nh as real, SHARED + DGPU_PICK * d as real)
    else if nh == 5 then 365.0 else if nh == 4 && d == 1 then 292.0
    else 634.0 - 72.0 * (nh + d) as real
  }

  function Cell98(nh: nat, d: nat): real {
    if nh + d == TOPK then Larger(98.0 * nh as real, SHARED + DGPU_PICK * d as real)
    else if nh == 5 then 490.0 else if nh == 4 then 392.0 else if nh == 3 && d == 2 then 294.0
    else 634.0 - 72.0 * (nh + d) as real
  }

  /** LIN73, claim-capped: this changes the cells where the host is the slowest. */
  function CappedCell73(nh: nat, d: nat): real {
    if nh >= 5 then if d == 0 then 346.0 else 292.0 else if nh == 4 && d == 2 then 274.0 else Cell73(nh, d)
  }

  lemma CellsFall(a: nat, b: nat, tier: Tier)
    requires a + b + 1 < TOPK
    ensures Falls(Cell73, a, b, tier) && Falls(Cell98, a, b, tier)
  {
  }

  lemma CappedCellsFall(a: nat, b: nat, tier: Tier)
    requires a + b + 1 < TOPK
    ensures Falls(CappedCell73, a, b, tier)
  {
  }

  lemma CellOf(nh: nat, d: nat)
    requires nh + d <= TOPK
    ensures Table(LIN73, nh, d) == Cell73(nh, d) && Table(LIN98, nh, d) == Cell98(nh, d)
  {
  }

  lemma CellsDiminish()
    ensures RisesAtMost(Cell73, true, 0.0) && RisesAtMost(Cell98, true, 0.0) && RisesAtMost(CappedCell73, true, 0.0)
  {
    forall a: nat, b: nat, tier | a + b + 1 < TOPK
      ensures Falls(Cell73, a, b, tier) && Falls(Cell98, a, b, tier) && Falls(CappedCell73, a, b, tier)
    {
      CellsFall(a, b, tier);
      CappedCellsFall(a, b, tier);
    }
    StepsSuffice(Cell73);
    StepsSuffice(Cell98);
    StepsSuffice(CappedCell73);
  }

  /** The linear tables have diminishing savings on both tiers. */
  lemma LinearDiminishes(m: Model)
    requires m == LIN73 || m == LIN98
    ensures RisesAtMost(CostOf(m), true, 0.0)
  {
    var g: Cost := if m == LIN73 then Cell73 else Cell98;
    forall a: nat, b: nat | a + b <= TOPK
      ensures CostOf(m)(a, b) == g(a, b)
    {
      CellOf(a, b);
    }
    CellsDiminish();
    SameCells(CostOf(m), g, true, 0.0);
  }

  // ---- claim-capped tables ----

  /** `ClaimModel.tab`: a token may leave picks unclaimed, so a cell is the least cost below it. */
  function Least(f: Cost, nh: nat, d: nat): real
    decreases nh + d
  {
    var here := f(nh, d);
    var left := if nh == 0 then here else Smaller(here, Least(f, nh - 1, d));
    if d == 0 then left else Smaller(left, Least(f, nh, d - 1))
  }

  function Capped(f: Cost): Cost {
    (nh: nat, d: nat) => Least(f, nh, d)
  }

  lemma {:induction false} LeastIsLeast(f: Cost, nh: nat, d: nat)
    ensures forall a, b :: 0 <= a <= nh && 0 <= b <= d ==> Least(f, nh, d) <= f(a, b)
    ensures exists a, b :: 0 <= a <= nh && 0 <= b <= d && Least(f, nh, d) == f(a, b)
    decreases nh + d
  {
    if nh > 0 {
      LeastIsLeast(f, nh - 1, d);
    }
    if d > 0 {
      LeastIsLeast(f, nh, d - 1);
    }
    assert Least(f, nh, d) == f(nh, d) || (nh > 0 && Least(f, nh, d) == Least(f, nh - 1, d)) ||
           (d > 0 && Least(f, nh, d) == Least(f, nh, d - 1));
  }

  lemma CappedCellStep(nh: nat, d: nat)
    requires nh + d <= TOPK
    ensures var left := if nh == 0 then Cell73(nh, d) else Smaller(Cell73(nh, d), CappedCell73(nh - 1, d));
            CappedCell73(nh, d) == if d == 0 then left else Smaller(left, CappedCell73(nh, d - 1))
  {
  }

  lemma CappedFrom(nh: nat, d: nat)
    requires nh + d <= TOPK
    requires nh > 0 ==> Least(CostOf(LIN73), nh - 1, d) == CappedCell73(nh - 1, d)
    requires d > 0 ==> Least(CostOf(LIN73), nh, d - 1) == CappedCell73(nh, d - 1)
    ensures Least(CostOf(LIN73), nh, d) == CappedCell73(nh, d)
  {
    CellOf(nh, d);
    CappedCellStep(nh, d);
  }

  lemma {:induction false} CappedLin73(nh: nat, d: nat)
    requires nh + d <= TOPK
    ensures Least(CostOf(LIN73), nh, d) == CappedCell73(nh, d)
    decreases nh + d
  {
    if nh > 0 {
      CappedLin73(nh - 1, d);
    }
    if d > 0 {
      CappedLin73(nh, d - 1);
    }
    CappedFrom(nh, d);
  }

  /** The claim-capped LIN73 table has diminishing savings on both tiers too. */
  lemma CappedDiminishes()
    ensures RisesAtMost(Capped(CostOf(LIN73)), true, 0.0)
  {
    var f := Capped(CostOf(LIN73));
    forall a: nat, b: nat | a + b <= TOPK
      ensures f(a, b) == CappedCell73(a, b)
    {
      CappedLin73(a, b);
    }
    CellsDiminish();
    SameCells(f, CappedCell73, true, 0.0);
  }

  // ---- the host tier alone ----

  predicate Shipped(m: Model) {
    m == LIN73 || m == MEAS73 || m == LIN98 || m == MEAS98 || m == LIN73X
  }

  /** A shipped table's cost with `a` picks on the host and none on the dGPU. */
  function HostCell(m: Model, a: nat): real
    requires Shipped(m)
  {
    if a >= 5 || (a == 4 && m.c1 == 98.0) then m.c1 * a as real
    else if m == LIN73X then 682.0 - 72.0 * a as real
    else if m.link != Measured then 634.0 - 72.0 * a as real
    else if a == 0 then 635.0 else if a == 1 then 542.3 else if a == 2 then 449.7 else if a == 3 then 357.0 else 315.5
  }

  lemma HostCellOf(m: Model, a: nat)
    requires Shipped(m) && a <= TOPK
    ensures Table(m, a, 0) == HostCell(m, a)
  {
  }

  /** How much savings rise on the host tier: not at all for a linear link, by a tenth for the measured one. */
  function HostRise(m: Model): real {
    if m.link == Measured then 0.1 else 0.0
  }

  /** How many picks the host takes before it is the slowest box. */
  function Knee(m: Model): nat {
    if m == LIN73X then 5 else if m == MEAS98 then 3 else 4
  }

  function CappedHostCell(m: Model, a: nat): real
    requires Shipped(m)
  {
    HostCell(m, if a <= Knee(m) then a else Knee(m))
  }

  /** Host costs as a table of both tiers. */
  function HostTable(m: Model, capped: bool): Cost
    requires Shipped(m)
  {
    (a: nat, b: nat) => if capped then CappedHostCell(m, a) else HostCell(m, a)
  }

  lemma HostTableStep(m: Model, capped: bool, a: nat, a': nat)
    requires Shipped(m) && a <= a' < TOPK
    ensures var f := HostTable(m, capped); StepSaving(f, a', 0, Host) <= StepSaving(f, a, 0, Host) + HostRise(m)
  {
  }

  lemma HostTableRise(m: Model, capped: bool, rise: real)
    requires Shipped(m) && rise >= HostRise(m)
    ensures RisesAtMost(HostTable(m, capped), false, rise)
  {
    var f := HostTable(m, capped);
    forall a: nat, b: nat, a': nat, b': nat, tier | a <= a' && b <= b' && a' + b' < TOPK && tier == Host && b' == 0
      ensures StepSaving(f, a', b', tier) <= StepSaving(f, a, b, tier) + rise
    {
      HostTableStep(m, capped, a, a');
    }
  }

  lemma HostTableNeeds(m: Model, capped: bool, rise: real)
    requires Shipped(m) && RisesAtMost(HostTable(m, capped), false, rise)
    ensures rise >= HostRise(m)
  {
    var f := HostTable(m, capped);
    assert StepSaving(f, 2, 0, Host) <= StepSaving(f, 1, 0, Host) + rise;
  }

  lemma HostTableIff(m: Model, capped: bool, rise: real)
    requires Shipped(m)
    ensures RisesAtMost(HostTable(m, capped), false, rise) <==> rise >= HostRise(m)
  {
    if rise >= HostRise(m) {
      HostTableRise(m, capped, rise);
    }
    if RisesAtMost(HostTable(m, capped), false, rise) {
      HostTableNeeds(m, capped, rise);
    }
  }

  /** On the host tier a shipped table's savings rise by exactly `HostRise`. */
  lemma HostOnlyIff(m: Model, rise: real)
    requires Shipped(m)
    ensures RisesAtMost(CostOf(m), false, rise) <==> rise >= HostRise(m)
  {
    forall a: nat | a <= TOPK
      ensures CostOf(m)(a, 0) == HostTable(m, false)(a, 0)
    {
      HostCellOf(m, a);
    }
    SameCells(CostOf(m), HostTable(m, false), false, rise);
    HostTableIff(m, false, rise);
  }

  lemma {:induction false} CappedHost(m: Model, a: nat)
    requires Shipped(m) && a <= TOPK
    ensures Least(CostOf(m), a, 0) == CappedHostCell(m, a)
  {
    HostCellOf(m, a);
    if a > 0 {
      CappedHost(m, a - 1);
    }
  }

  /** And a claim-capped table's by just as much. */
  lemma CappedHostOnlyIff(m: Model, rise: real)
    requires Shipped(m)
    ensures RisesAtMost(Capped(CostOf(m)), false, rise) <==> rise >= HostRise(m)
  {
    forall a: nat | a <= TOPK
      ensures Capped(CostOf(m))(a, 0) == HostTable(m, true)(a, 0)
    {
      CappedHost(m, a);
    }
    SameCells(Capped(CostOf(m)), HostTable(m, true), false, rise);
    HostTableIff(m, true, rise);
  }

  // ---- the runs of both scripts ----

  function CostUsed(m: Model, capped: bool): Cost {
    if capped then Capped(CostOf(m)) else CostOf(m)
  }

  /** Every shipped table on the host tier alone, and LIN73 on both tiers: no placement of a run falls
      short of the best candidate by more than the slack and a tenth of a microsecond, which only the
      measured tables need. */
  lemma ShippedRunsAreSteady(p: Problem, m: Model, capped: bool)
    requires Shipped(m) && p.cost == CostUsed(m, capped) && TopkPicks(p.picks) && (p.allowDgpu ==> m == LIN73)
    ensures Steady(p, HostRise(m))
  {
    if p.allowDgpu {
      LinearDiminishes(m);
      CappedDiminishes();
    } else {
      HostOnlyIff(m, HostRise(m));
      CappedHostOnlyIff(m, HostRise(m));
    }
  }
}
