/** How long a run of one sub-batch without misses takes, exactly (scripts/sched_sim2.py, `simulate`). */
module SchedulerExact {
  import opened Prelude
  import opened Scheduler
  import opened SchedulerBuild
  import opened SchedulerPath

  // ---- times in terms of the plan ----

  predicate Shares(plan: Plan, t: nat, u: nat)
    requires t < |plan| && u < |plan|
  {
    plan[t].res.Some? && plan[u].res == plan[t].res && plan[t].dur != 0.0 && plan[u].dur != 0.0
  }

  ghost predicate PlanTimed(plan: Plan, times: Times, t: nat)
    requires t < |plan|
  {
    && t in times.ready && t in times.start && t in times.end && plan[t].dur >= 0.0
    && (forall p :: p in plan[t].preds ==> p in times.end && times.end[p] <= times.ready[t])
    && (plan[t].preds != [] ==> exists p :: p in plan[t].preds && p in times.end && times.end[p] == times.ready[t])
    && (plan[t].preds == [] ==> times.ready[t] == 0.0)
    && times.start[t] >= times.ready[t] && times.end[t] == times.start[t] + plan[t].dur
    && (times.start[t] == times.ready[t] || exists u :: HandedOver(plan, times, t, u))
  }

  ghost predicate HandedOver(plan: Plan, times: Times, t: nat, u: nat)
    requires t < |plan| && t in times.start
  {
    u < |plan| && u != t && Shares(plan, t, u) && u in times.end && times.end[u] == times.start[t]
  }

  ghost predicate AllTimed(plan: Plan, times: Times) {
    forall t :: 0 <= t < |plan| ==> PlanTimed(plan, times, t)
  }

  /** The tasks behind `c` wait for `c` or for one another. */
  ghost predicate Behind(plan: Plan, c: nat) {
    forall u, p :: c < u < |plan| && p in plan[u].preds ==> c <= p < u
  }

  ghost predicate Waits1(plan: Plan, c: nat) {
    forall u :: c < u < |plan| ==> plan[u].preds != []
  }

  /** Everything up to `c` has ended when `c` has. */
  ghost predicate DoneBy(times: Times, c: nat) {
    c in times.end && forall t :: 0 <= t <= c ==> t in times.end && times.end[t] <= times.end[c]
  }

  /** What comes behind `c` is ready no earlier than `c` ends. */
  lemma {:induction false} ReadyBehind(plan: Plan, times: Times, c: nat, u: nat)
    requires AllTimed(plan, times) && Behind(plan, c) && Waits1(plan, c) && c < u < |plan|
    ensures c in times.end && u in times.ready && times.ready[u] >= times.end[c]
    decreases u
  {
    assert PlanTimed(plan, times, u) && PlanTimed(plan, times, c);
    var p :| p in plan[u].preds && p in times.end && times.end[p] == times.ready[u];
    if p > c {
      ReadyBehind(plan, times, c, p);
      assert PlanTimed(plan, times, p);
    }
  }

  /** Nothing else on its resource is between when `t` is ready and when it ends. */
  ghost predicate Alone(plan: Plan, times: Times, t: nat, u: nat)
    requires t < |plan| && u < |plan|
  {
    && t in times.ready && t in times.end && u in times.ready && u in times.end
    && (times.end[u] <= times.ready[t] || times.ready[u] >= times.end[t])
  }

  /** A task is not handed its resource late by one that is not between. */
  lemma NotHandedOver(plan: Plan, times: Times, t: nat, u: nat)
    requires t < |plan| && u < |plan| && PlanTimed(plan, times, t) && PlanTimed(plan, times, u)
    requires Alone(plan, times, t, u) && HandedOver(plan, times, t, u)
    ensures times.start[t] == times.ready[t]
  {
  }

  lemma OnTime(plan: Plan, times: Times, t: nat)
    requires AllTimed(plan, times) && t < |plan|
    requires forall u :: 0 <= u < |plan| && u != t && Shares(plan, t, u) ==> Alone(plan, times, t, u)
    ensures t in times.ready && t in times.end && times.end[t] == times.ready[t] + plan[t].dur
  {
    assert PlanTimed(plan, times, t);
    if times.start[t] != times.ready[t] {
      var u :| HandedOver(plan, times, t, u);
      NotHandedOver(plan, times, t, u);
    }
  }

  /** Task `t` of a stretch `(c, e]` between two gates, with no other task of the stretch on its resource
      but those that it waits for, or that wait for it. */
  lemma OnTimeBetween(plan: Plan, times: Times, c: nat, e: nat, t: nat)
    requires AllTimed(plan, times) && c < t <= e < |plan| && Behind(plan, c) && Waits1(plan, c)
    requires Behind(plan, e) && Waits1(plan, e) && DoneBy(times, c) && t in times.end && e in times.end
    requires times.end[t] <= times.end[e]
    requires forall u :: c < u <= e && u != t && Shares(plan, t, u) ==> Alone(plan, times, t, u)
    ensures t in times.ready && times.end[t] == times.ready[t] + plan[t].dur
  {
    assert PlanTimed(plan, times, t);
    ReadyBehind(plan, times, c, t);
    forall u | 0 <= u < |plan| && u != t && Shares(plan, t, u)
      ensures Alone(plan, times, t, u)
    {
      assert PlanTimed(plan, times, u);
      if u > e {
        ReadyBehind(plan, times, e, u);
      }
    }
    OnTime(plan, times, t);
  }

  lemma ReadyOf(plan: Plan, times: Times, t: nat, p: nat)
    requires AllTimed(plan, times) && t < |plan| && plan[t].preds == [p]
    ensures p in times.end && t in times.ready && times.ready[t] == times.end[p]
  {
    assert PlanTimed(plan, times, t);
    assert p in plan[t].preds;
  }

  lemma EndsBehind(plan: Plan, times: Times, t: nat, p: nat)
    requires AllTimed(plan, times) && t < |plan| && p in plan[t].preds
    ensures p in times.end && t in times.ready && t in times.end
    ensures times.end[p] <= times.ready[t] <= times.end[t] - plan[t].dur <= times.end[t]
  {
    assert PlanTimed(plan, times, t);
  }

  /** A task right behind a gate, and a gate itself, starts when the one before it ends. */
  lemma GateExact(plan: Plan, times: Times, t: nat)
    requires AllTimed(plan, times) && 0 < t < |plan| && plan[t].preds == [t - 1] && DoneBy(times, t - 1)
    requires Behind(plan, t - 1) && Waits1(plan, t - 1) && Behind(plan, t) && Waits1(plan, t)
    ensures t in times.end && times.end[t] == times.end[t - 1] + plan[t].dur && DoneBy(times, t)
  {
    assert PlanTimed(plan, times, t);
    ReadyOf(plan, times, t, t - 1);
    OnTimeBetween(plan, times, t - 1, t, t);
  }

  // ---- one layer ----

  function Max3(x: real, y: real, z: real): real {
    if x >= y && x >= z then x else if y >= z then y else z
  }

  /** The tasks of a layer of one sub-batch without misses, from task `n` on. */
  ghost predicate LayerIn(plan: Plan, n: nat, attend: real, local: real, there: real, picks: real, home: real,
                          shared: real)
  {
    && 0 < n && n + 10 < |plan|
    && plan[n] == Node(Some(Dgpu), attend, [n - 1])
    && plan[n + 1] == Node(Some(Igpu1), local, [n]) && plan[n + 2] == Node(None, 0.0, [n + 1])
    && plan[n + 3] == Node(Some(Igpu1), 0.0, [n + 2])
    && plan[n + 4] == Node(None, there, [n]) && plan[n + 5] == Node(Some(Igpu2), picks, [n + 4])
    && plan[n + 6] == Node(None, 0.0, [n + 5]) && plan[n + 7] == Node(Some(Igpu2), 0.0, [n + 6])
    && plan[n + 8] == Node(None, home, [n + 7])
    && plan[n + 9] == Node(Some(Dgpu), shared, [n]) && plan[n + 10] == Node(Some(Dgpu), 0.02, [n + 3, n + 8, n + 9])
  }

  /** The gates around a layer. */
  ghost predicate Gates(plan: Plan, n: nat) {
    && 0 < n && Behind(plan, n - 1) && Waits1(plan, n - 1) && Behind(plan, n) && Waits1(plan, n)
    && Behind(plan, n + 10) && Waits1(plan, n + 10)
  }

  /** A task on no resource, or for no time, starts when ready. */
  lemma Unhindered(plan: Plan, times: Times, t: nat, p: nat)
    requires AllTimed(plan, times) && t < |plan| && plan[t].preds == [p] && (plan[t].res.None? || plan[t].dur == 0.0)
    ensures p in times.end && t in times.end && times.end[t] == times.end[p] + plan[t].dur
  {
    assert PlanTimed(plan, times, t);
    ReadyOf(plan, times, t, p);
  }

  lemma LocalBranch(plan: Plan, times: Times, n: nat, attend: real, local: real, there: real, picks: real, home: real,
                    shared: real)
    requires AllTimed(plan, times) && LayerIn(plan, n, attend, local, there, picks, home, shared) && Gates(plan, n)
    requires DoneBy(times, n)
    ensures n + 3 in times.end && times.end[n + 3] == times.end[n] + local
  {
    Unhindered(plan, times, n + 2, n + 1);
    Unhindered(plan, times, n + 3, n + 2);
    EndsBehind(plan, times, n + 10, n + 3);
    ReadyOf(plan, times, n + 1, n);
    NoOther(plan, n, attend, local, there, picks, home, shared, n + 1);
    OnTimeBetween(plan, times, n, n + 10, n + 1);
  }

  /** On either box only one task of a layer takes time, and on the dGPU behind the attention only two. */
  lemma NoOther(plan: Plan, n: nat, attend: real, local: real, there: real, picks: real, home: real, shared: real,
                t: nat)
    requires LayerIn(plan, n, attend, local, there, picks, home, shared)
    requires t == n + 1 || t == n + 5 || t == n + 9 || t == n + 10
    ensures forall u :: n < u <= n + 10 && u != t && !(t >= n + 9 && u >= n + 9) ==> !Shares(plan, t, u)
  {
  }

  lemma RemoteBranch(plan: Plan, times: Times, n: nat, attend: real, local: real, there: real, picks: real, home: real,
                     shared: real)
    requires AllTimed(plan, times) && LayerIn(plan, n, attend, local, there, picks, home, shared) && Gates(plan, n)
    requires DoneBy(times, n)
    ensures n + 8 in times.end && times.end[n + 8] == times.end[n] + there + picks + home
  {
    Unhindered(plan, times, n + 4, n);
    Unhindered(plan, times, n + 6, n + 5);
    Unhindered(plan, times, n + 7, n + 6);
    Unhindered(plan, times, n + 8, n + 7);
    EndsBehind(plan, times, n + 10, n + 8);
    assert PlanTimed(plan, times, n + 8) && PlanTimed(plan, times, n + 10);
    ReadyOf(plan, times, n + 5, n + 4);
    NoOther(plan, n, attend, local, there, picks, home, shared, n + 5);
    OnTimeBetween(plan, times, n, n + 10, n + 5);
  }

  lemma SharedBranch(plan: Plan, times: Times, n: nat, attend: real, local: real, there: real, picks: real, home: real,
                     shared: real)
    requires AllTimed(plan, times) && LayerIn(plan, n, attend, local, there, picks, home, shared) && Gates(plan, n)
    requires DoneBy(times, n)
    ensures n + 9 in times.end && times.end[n + 9] == times.end[n] + shared
  {
    assert n + 9 in plan[n + 10].preds;
    EndsBehind(plan, times, n + 10, n + 9);
    ReadyOf(plan, times, n + 9, n);
    assert PlanTimed(plan, times, n + 9) && PlanTimed(plan, times, n + 10);
    NoOther(plan, n, attend, local, there, picks, home, shared, n + 9);
    OnTimeBetween(plan, times, n, n + 10, n + 9);
  }

  /** The merge starts when the slowest of the three branches ends. */
  lemma MergeExact(plan: Plan, times: Times, n: nat, attend: real, local: real, there: real, picks: real, home: real,
                   shared: real)
    requires AllTimed(plan, times) && LayerIn(plan, n, attend, local, there, picks, home, shared) && Gates(plan, n)
    requires DoneBy(times, n) && n + 3 in times.end && n + 8 in times.end && n + 9 in times.end && n in times.end
    requires times.end[n + 3] == times.end[n] + local && times.end[n + 8] == times.end[n] + there + picks + home
    requires times.end[n + 9] == times.end[n] + shared
    ensures n + 10 in times.end
    ensures times.end[n + 10] == times.end[n] + Max3(local, there + picks + home, shared) + 0.02
  {
    assert PlanTimed(plan, times, n + 10);
    EndsBehind(plan, times, n + 10, n + 3);
    EndsBehind(plan, times, n + 10, n + 8);
    assert n + 9 in plan[n + 10].preds;
    EndsBehind(plan, times, n + 10, n + 9);
    assert PlanTimed(plan, times, n + 9);
    NoOther(plan, n, attend, local, there, picks, home, shared, n + 10);
    OnTimeBetween(plan, times, n, n + 10, n + 10);
  }

  lemma LayerDone(plan: Plan, times: Times, n: nat, attend: real, local: real, there: real, picks: real, home: real,
                  shared: real)
    requires AllTimed(plan, times) && LayerIn(plan, n, attend, local, there, picks, home, shared) && DoneBy(times, n)
    ensures DoneBy(times, n + 10)
  {
    assert n + 9 in plan[n + 10].preds;
    EndsBehind(plan, times, n + 10, n + 9);
    EndsBehind(plan, times, n + 10, n + 8);
    EndsBehind(plan, times, n + 10, n + 3);
    EndsBehind(plan, times, n + 8, n + 7);
    EndsBehind(plan, times, n + 7, n + 6);
    EndsBehind(plan, times, n + 6, n + 5);
    EndsBehind(plan, times, n + 5, n + 4);
    EndsBehind(plan, times, n + 3, n + 2);
    EndsBehind(plan, times, n + 2, n + 1);
    EndsBehind(plan, times, n + 9, n);
    forall t | n < t <= n + 10
      ensures t in times.end && times.end[t] <= times.end[n + 10]
    {
      assert t == n + 1 || t == n + 2 || t == n + 3 || t == n + 4 || t == n + 5 || t == n + 6 || t == n + 7 ||
             t == n + 8 || t == n + 9 || t == n + 10;
    }
  }

  lemma LayerExact(plan: Plan, times: Times, n: nat, attend: real, local: real, there: real, picks: real, home: real,
                   shared: real)
    requires AllTimed(plan, times) && LayerIn(plan, n, attend, local, there, picks, home, shared) && Gates(plan, n)
    requires DoneBy(times, n - 1)
    ensures DoneBy(times, n + 10)
    ensures times.end[n + 10] == times.end[n - 1] + attend + Max3(local, there + picks + home, shared) + 0.02
  {
    GateExact(plan, times, n);
    LocalBranch(plan, times, n, attend, local, there, picks, home, shared);
    RemoteBranch(plan, times, n, attend, local, there, picks, home, shared);
    SharedBranch(plan, times, n, attend, local, there, picks, home, shared);
    MergeExact(plan, times, n, attend, local, there, picks, home, shared);
    LayerDone(plan, times, n, attend, local, there, picks, home, shared);
  }

  // ---- gates of the whole plan ----

  ghost predicate Gate(plan: Plan, c: nat) {
    c < |plan| && Behind(plan, c) && Waits1(plan, c)
  }

  /** A block behind task `n - 1`: its tasks wait for that one or for earlier ones of the block. */
  ghost predicate BlockBehind(more: Plan, n: nat) {
    forall i :: 0 <= i < |more| ==> more[i].preds != [] && forall p :: p in more[i].preds ==> n - 1 <= p < n + i
  }

  /** A gate of a front stays one when what follows waits behind the front. */
  lemma GateExtends(part: Plan, plan: Plan, c: nat)
    requires Begins(part, plan) && Gate(part, c) && Gate(plan, |part| - 1)
    ensures Gate(plan, c)
  {
    forall u | c < u < |plan|
      ensures plan[u].preds != [] && forall p :: p in plan[u].preds ==> c <= p < u
    {
      if u < |part| {
        assert plan[..|part|][u] == plan[u];
      }
    }
  }

  lemma LastIsGate(part: Plan, more: Plan)
    requires part != [] && BlockBehind(more, |part|)
    ensures Gate(part + more, |part| - 1)
  {
    var plan := part + more;
    forall u | |part| - 1 < u < |plan|
      ensures plan[u].preds != [] && forall p :: p in plan[u].preds ==> |part| - 1 <= p < u
    {
      assert plan[u] == more[u - |part|];
    }
  }

  // ---- one sub-batch without misses ----

  ghost predicate NoMisses(draws: seq<nat>) {
    forall i :: 0 <= i < |draws| ==> draws[i] == 0
  }

  lemma NoDraw(draws: seq<nat>, i: nat)
    requires NoMisses(draws)
    ensures Draw(draws, i) == 0
  {
  }

  lemma OneLayerPlan(s: Built, b: nat, config: Config, draws: seq<nat>)
    requires config.NonNegative() && NoMisses(draws) && |s.post| == 1
    ensures var q := SubBatches(s, [b], config, draws, 1);
            && q.plan == s.plan + LayerPlan(|s.plan|, s.post[0], None, b, config, 0, 0)
            && q.post == [|s.plan| + 10]
  {
    OneMoreSubBatch(s, [b], config, draws, 0);
    NoDraw(draws, s.drawn);
    NoDraw(draws, s.drawn + 1);
  }

  lemma LayerPlanIs(n: nat, b: nat, config: Config)
    requires config.NonNegative() && n > 0
    ensures var layer := LayerPlan(n, n - 1, None, b, config, 0, 0);
            && |layer| == 11
            && layer[0] == Node(Some(Dgpu), Attention(b), [n - 1])
            && layer[1] == Node(Some(Igpu1), config.Picks(b, config.localShare), [n])
            && layer[2] == Node(None, 0.0, [n + 1]) && layer[3] == Node(Some(Igpu1), 0.0, [n + 2])
            && layer[4] == Node(None, config.Link(b, 6000.0), [n])
            && layer[5] == Node(Some(Igpu2), config.Picks(b, config.remoteShare), [n + 4])
            && layer[6] == Node(None, 0.0, [n + 5]) && layer[7] == Node(Some(Igpu2), 0.0, [n + 6])
            && layer[8] == Node(None, config.Link(b, 20000.0), [n + 7])
            && layer[9] == Node(Some(Dgpu), config.Shared(b), [n])
            && layer[10] == Node(Some(Dgpu), 0.02, [n + 3, n + 8, n + 9])
  {
    assert [n + 1] + Range(n + 3, 0) == [n + 1] && [n + 5] + Range(n + 7, 0) == [n + 5];
    assert 0 as real * PICK == 0.0;
  }

  lemma LayerBlock(n: nat, b: nat, config: Config)
    requires config.NonNegative() && n > 0
    ensures var layer := LayerPlan(n, n - 1, None, b, config, 0, 0);
            && BlockBehind(layer, n)
            && forall i, p :: 0 < i < 11 && p in layer[i].preds ==> p >= n
  {
    LayerPlanIs(n, b, config);
    var layer := LayerPlan(n, n - 1, None, b, config, 0, 0);
    forall i | 0 <= i < 11
      ensures layer[i].preds != [] && forall p :: p in layer[i].preds ==> n - 1 <= p < n + i && (i > 0 ==> p >= n)
    {
      assert i == 0 || i == 1 || i == 2 || i == 3 || i == 4 || i == 5 || i == 6 || i == 7 || i == 8 || i == 9 ||
             i == 10;
    }
  }

  /** The gates around a layer of the plan. */
  lemma LayerGates(plan: Plan, part: Plan, b: nat, config: Config)
    requires config.NonNegative() && part != []
    requires var next := part + LayerPlan(|part|, |part| - 1, None, b, config, 0, 0);
             Begins(next, plan) && Gate(plan, |next| - 1)
    ensures Gates(plan, |part|) && Gate(plan, |part| - 1)
    ensures LayerIn(plan, |part|, Attention(b), config.Picks(b, config.localShare), config.Link(b, 6000.0),
                    config.Picks(b, config.remoteShare), config.Link(b, 20000.0), config.Shared(b))
  {
    var n, layer := |part|, LayerPlan(|part|, |part| - 1, None, b, config, 0, 0);
    LayerBlock(n, b, config);
    LastIsGate(part, layer);
    AttendIsGate(part, layer);
    GateExtends(part + layer, plan, n - 1);
    GateExtends(part + layer, plan, n);
    LayerPlanIs(n, b, config);
    BeginsFront(part, layer, plan);
    assert forall i :: 0 <= i < 11 ==> plan[n + i] == layer[i];
    assert plan[n + 0] == layer[0];
  }

  lemma AttendIsGate(part: Plan, layer: Plan)
    requires part != [] && layer != [] && BlockBehind(layer, |part|)
    requires forall i, p :: 0 < i < |layer| && p in layer[i].preds ==> p >= |part|
    ensures Gate(part + layer, |part|)
  {
    var plan := part + layer;
    forall u | |part| < u < |plan|
      ensures plan[u].preds != [] && forall p :: p in plan[u].preds ==> |part| <= p < u
    {
      assert plan[u] == layer[u - |part|];
    }
  }

  /** What a layer takes: attention, the slowest of the local picks, the remote ones with their link, and
      the shared expert, and the merge. */
  ghost function LayerTime(config: Config, b: nat): real {
    var local := 6.0 * b as real * config.localShare * 0.088;
    var remote := config.rtt + 26000.0 * b as real / 1500000.0 + 6.0 * b as real * config.remoteShare * 0.088;
    var shared := 0.06 + 6.0 * b as real * 0.05 * 0.088 * 214.0 / 640.0;
    0.58 + 0.03 * (b as real - 1.0) + Max3(local, remote, shared) + 0.02
  }

  lemma LayerTimeIs(config: Config, b: nat)
    requires config.NonNegative()
    ensures LayerTime(config, b) ==
            Attention(b) + Max3(config.Picks(b, config.localShare), config.Link(b, 6000.0) +
                config.Picks(b, config.remoteShare) + config.Link(b, 20000.0), config.Shared(b)) + 0.02
  {
    assert config.Link(b, 6000.0) + config.Link(b, 20000.0) == config.rtt + 26000.0 * b as real / 1500000.0;
  }

  ghost predicate EndsAt(times: Times, c: nat, at: real) {
    DoneBy(times, c) && times.end[c] == at
  }

  lemma OneLayerTakes(plan: Plan, times: Times, part: Plan, b: nat, config: Config, at: real)
    requires config.NonNegative() && part != [] && AllTimed(plan, times) && EndsAt(times, |part| - 1, at)
    requires var next := part + LayerPlan(|part|, |part| - 1, None, b, config, 0, 0);
             Begins(next, plan) && Gate(plan, |next| - 1)
    ensures EndsAt(times, |part| + 10, at + LayerTime(config, b)) && Gate(plan, |part| - 1)
  {
    LayerGates(plan, part, b, config);
    LayerExact(plan, times, |part|, Attention(b), config.Picks(b, config.localShare), config.Link(b, 6000.0),
               config.Picks(b, config.remoteShare), config.Link(b, 20000.0), config.Shared(b));
    LayerTimeIs(config, b);
  }

  /** `s` is a plan whose last task is the sub-batch's. */
  ghost predicate Straight(s: Built) {
    s.plan != [] && s.post == [|s.plan| - 1]
  }

  lemma {:induction false} LayersStraight(s: Built, b: nat, config: Config, draws: seq<nat>, l: nat)
    requires config.NonNegative() && NoMisses(draws) && Straight(s)
    ensures Straight(LayersPlan(s, [b], config, draws, l))
  {
    if l > 0 {
      LayersStraight(s, b, config, draws, l - 1);
      OneLayerPlan(LayersPlan(s, [b], config, draws, l - 1), b, config, draws);
    }
  }

  /** A front of the plan that ends in a gate. */
  ghost predicate FrontGate(plan: Plan, part: Plan) {
    part != [] && Begins(part, plan) && Gate(plan, |part| - 1)
  }

  lemma NextLayerPlan(s: Built, b: nat, config: Config, draws: seq<nat>, l: nat)
    requires config.NonNegative() && NoMisses(draws) && Straight(s) && l > 0
    ensures var r := LayersPlan(s, [b], config, draws, l - 1);
            && Straight(r)
            && LayersPlan(s, [b], config, draws, l).plan ==
               r.plan + LayerPlan(|r.plan|, |r.plan| - 1, None, b, config, 0, 0)
  {
    LayersStraight(s, b, config, draws, l - 1);
    OneLayerPlan(LayersPlan(s, [b], config, draws, l - 1), b, config, draws);
  }

  lemma OneLayerBack(plan: Plan, s: Built, b: nat, config: Config, draws: seq<nat>, l: nat)
    requires config.NonNegative() && NoMisses(draws) && Straight(s) && l > 0
    requires FrontGate(plan, LayersPlan(s, [b], config, draws, l).plan)
    ensures var r := LayersPlan(s, [b], config, draws, l - 1);
            && Straight(r) && FrontGate(plan, r.plan)
            && LayersPlan(s, [b], config, draws, l).plan ==
               r.plan + LayerPlan(|r.plan|, |r.plan| - 1, None, b, config, 0, 0)
  {
    var r := LayersPlan(s, [b], config, draws, l - 1);
    NextLayerPlan(s, b, config, draws, l);
    BeginsFront(r.plan, LayerPlan(|r.plan|, |r.plan| - 1, None, b, config, 0, 0), plan);
    LayerGates(plan, r.plan, b, config);
  }

  lemma {:induction false} LayersBack(plan: Plan, s: Built, b: nat, config: Config, draws: seq<nat>, l: nat)
    requires config.NonNegative() && NoMisses(draws) && Straight(s)
    requires FrontGate(plan, LayersPlan(s, [b], config, draws, l).plan)
    ensures FrontGate(plan, s.plan)
  {
    if l > 0 {
      OneLayerBack(plan, s, b, config, draws, l);
      LayersBack(plan, s, b, config, draws, l - 1);
    }
  }

  /** The layers of a step. */
  lemma {:induction false} LayersTakeExactly(plan: Plan, times: Times, s: Built, b: nat, config: Config,
                                             draws: seq<nat>, l: nat, at: real, c: real)
    requires config.NonNegative() && NoMisses(draws) && Straight(s) && AllTimed(plan, times)
    requires FrontGate(plan, LayersPlan(s, [b], config, draws, l).plan)
    requires EndsAt(times, |s.plan| - 1, at) && c == LayerTime(config, b)
    ensures EndsAt(times, |LayersPlan(s, [b], config, draws, l).plan| - 1, at + Repeated(l, c))
  {
    if l > 0 {
      var r := LayersPlan(s, [b], config, draws, l - 1);
      OneLayerBack(plan, s, b, config, draws, l);
      LayersTakeExactly(plan, times, s, b, config, draws, l - 1, at, c);
      OneLayerTakes(plan, times, r.plan, b, config, at + Repeated(l - 1, c));
    }
  }

  // ---- steps ----

  /** A chain of tasks behind a front, each waiting for the one before. */
  ghost predicate ChainBehind(more: Plan, n: nat) {
    n > 0 && forall i :: 0 <= i < |more| ==> more[i].preds == [n + i - 1]
  }

  ghost function Durations(more: Plan): real {
    if more == [] then 0.0 else Durations(more[..|more| - 1]) + more[|more| - 1].dur
  }

  lemma ChainBack(plan: Plan, part: Plan, node: Node)
    requires part != [] && node.preds == [|part| - 1] && FrontGate(plan, part + [node])
    ensures FrontGate(plan, part) && plan[|part|] == node
  {
    BeginsFront(part, [node], plan);
    assert plan[|part| + 0] == node;
    LastIsGate(part, [node]);
    GateExtends(part + [node], plan, |part| - 1);
  }

  lemma {:induction false} ChainTakesExactly(plan: Plan, times: Times, part: Plan, more: Plan, at: real)
    requires AllTimed(plan, times) && part != [] && ChainBehind(more, |part|) && FrontGate(plan, part + more)
    requires EndsAt(times, |part| - 1, at)
    ensures FrontGate(plan, part) && EndsAt(times, |part| + |more| - 1, at + Durations(more))
    decreases |more|
  {
    if more == [] {
      assert part + more == part;
    } else {
      var m := |more| - 1;
      assert part + more == (part + more[..m]) + [more[m]];
      ChainBack(plan, part + more[..m], more[m]);
      ChainTakesExactly(plan, times, part, more[..m], at);
      GateExact(plan, times, |part| + m);
    }
  }

  lemma TailIsChain(n: nat, drafts: bool, config: Config)
    requires config.NonNegative() && n > 0
    ensures var tail := TailPlan(n, [n - 1], drafts, config);
            ChainBehind(tail, n) && Durations(tail) == 1.4 + TailPath(config, if drafts then 2 else 1)
  {
    var head, wait := Node(Some(Dgpu), 1.4, [n - 1]), Node(None, 0.05, [n]);
    if drafts {
      DrafterIsChain(n, config);
    } else {
      DurationsSnoc([], head);
      DurationsSnoc([head], wait);
      assert TailPlan(n, [n - 1], false, config) == [head] + [wait];
      assert [] + [head] == [head];
    }
  }

  lemma DrafterIsChain(n: nat, config: Config)
    requires config.NonNegative() && n > 0
    ensures var tail := TailPlan(n, [n - 1], true, config);
            ChainBehind(tail, n) && Durations(tail) == 1.4 + TailPath(config, 2)
  {
    var head, acc := Node(Some(Dgpu), 1.4, [n - 1]), Node(None, 0.1, [n]);
    var d1, d2 := Node(Some(Dgpu), config.drafter.0, [n + 1]), Node(Some(Igpu1), config.drafter.1, [n + 2]);
    var d3 := Node(Some(Dgpu), config.drafter.2, [n + 3]);
    DurationsOfFive(head, acc, d1, d2, d3);
    assert TailPlan(n, [n - 1], true, config) == [head, acc, d1, d2, d3];
  }

  lemma DurationsOfFive(a: Node, b: Node, c: Node, d: Node, e: Node)
    ensures Durations([a, b, c, d, e]) == a.dur + b.dur + c.dur + d.dur + e.dur
  {
    DurationsSnoc([], a);
    DurationsSnoc([a], b);
    DurationsSnoc([a, b], c);
    DurationsSnoc([a, b, c], d);
    DurationsSnoc([a, b, c, d], e);
    assert [] + [a] == [a] && [a] + [b] == [a, b] && [a, b] + [c] == [a, b, c];
    assert [a, b, c] + [d] == [a, b, c, d] && [a, b, c, d] + [e] == [a, b, c, d, e];
  }

  lemma DurationsSnoc(more: Plan, node: Node)
    ensures Durations(more + [node]) == Durations(more) + node.dur
  {
    assert (more + [node])[..|more|] == more;
  }

  /** One step of a single sub-batch. */
  ghost function StepTime(config: Config, b: nat): real {
    Repeated(config.layers, LayerTime(config, b)) + 1.4 + TailPath(config, b)
  }

  /** The plan up to the end of the layers of a step. */
  ghost function LayersEnd(part: Plan, drawn: nat, b: nat, config: Config, draws: seq<nat>): Plan
    requires config.NonNegative() && part != []
  {
    LayersPlan(StepStart(part, |part| - 1, drawn, 1), [b], config, draws, config.layers).plan
  }

  lemma SumOfOne(b: nat)
    ensures Sum([b]) == b
  {
    SumSnoc([], b);
    assert [] + [b] == [b];
  }

  lemma TailOfStraight(s: Built, b: nat, config: Config)
    requires Straight(s)
    ensures TailPlan(|s.plan|, s.post, Sum([b]) > 1, config) == TailPlan(|s.plan|, [|s.plan| - 1], b > 1, config)
  {
    SumOfOne(b);
  }

  lemma StepOfOne(part: Plan, drawn: nat, b: nat, config: Config, draws: seq<nat>)
    requires config.NonNegative() && part != []
    ensures var s := LayersPlan(StepStart(part, |part| - 1, drawn, 1), [b], config, draws, config.layers);
            StepPlan(part, |part| - 1, drawn, [b], config, draws).plan ==
            s.plan + TailPlan(|s.plan|, s.post, Sum([b]) > 1, config)
  {
    assert |[b]| == 1;
  }

  lemma OneStepPlan(part: Plan, drawn: nat, b: nat, config: Config, draws: seq<nat>)
    requires config.NonNegative() && NoMisses(draws) && part != []
    ensures var mid := LayersEnd(part, drawn, b, config, draws);
            && mid != []
            && StepPlan(part, |part| - 1, drawn, [b], config, draws).plan ==
               mid + TailPlan(|mid|, [|mid| - 1], b > 1, config)
  {
    var start := StepStart(part, |part| - 1, drawn, 1);
    var s := LayersPlan(start, [b], config, draws, config.layers);
    LayersStraight(start, b, config, draws, config.layers);
    StepOfOne(part, drawn, b, config, draws);
    TailOfStraight(s, b, config);
    assert s.plan == LayersEnd(part, drawn, b, config, draws);
  }

  lemma TailTakesExactly(plan: Plan, times: Times, mid: Plan, b: nat, config: Config, at: real)
    requires config.NonNegative() && AllTimed(plan, times) && mid != [] && EndsAt(times, |mid| - 1, at)
    requires FrontGate(plan, mid + TailPlan(|mid|, [|mid| - 1], b > 1, config))
    ensures EndsAt(times, |mid| + |TailPlan(|mid|, [|mid| - 1], b > 1, config)| - 1, at + 1.4 + TailPath(config, b))
  {
    TailIsChain(|mid|, b > 1, config);
    ChainTakesExactly(plan, times, mid, TailPlan(|mid|, [|mid| - 1], b > 1, config), at);
  }

  lemma LayersOfStepTake(plan: Plan, times: Times, part: Plan, drawn: nat, b: nat, config: Config, draws: seq<nat>,
                         at: real)
    requires config.NonNegative() && NoMisses(draws) && AllTimed(plan, times) && part != []
    requires EndsAt(times, |part| - 1, at) && FrontGate(plan, LayersEnd(part, drawn, b, config, draws))
    ensures EndsAt(times, |LayersEnd(part, drawn, b, config, draws)| - 1,
                   at + Repeated(config.layers, LayerTime(config, b)))
  {
    LayersTakeExactly(plan, times, StepStart(part, |part| - 1, drawn, 1), b, config, draws, config.layers, at,
                      LayerTime(config, b));
  }

  lemma TailBack(plan: Plan, mid: Plan, b: nat, config: Config)
    requires config.NonNegative() && mid != []
    requires FrontGate(plan, mid + TailPlan(|mid|, [|mid| - 1], b > 1, config))
    ensures FrontGate(plan, mid)
  {
    TailIsChain(|mid|, b > 1, config);
    ChainGate(plan, mid, TailPlan(|mid|, [|mid| - 1], b > 1, config));
  }

  lemma StepTakesExactly(plan: Plan, times: Times, part: Plan, drawn: nat, b: nat, config: Config, draws: seq<nat>,
                         at: real, next: Plan)
    requires config.NonNegative() && NoMisses(draws) && AllTimed(plan, times) && part != []
    requires next == StepPlan(part, |part| - 1, drawn, [b], config, draws).plan && FrontGate(plan, next)
    requires EndsAt(times, |part| - 1, at)
    ensures EndsAt(times, |next| - 1, at + StepTime(config, b))
  {
    var mid := LayersEnd(part, drawn, b, config, draws);
    OneStepPlan(part, drawn, b, config, draws);
    TailBack(plan, mid, b, config);
    LayersOfStepTake(plan, times, part, drawn, b, config, draws, at);
    TailTakesExactly(plan, times, mid, b, config, at + Repeated(config.layers, LayerTime(config, b)));
  }

  lemma {:induction false} ChainGate(plan: Plan, part: Plan, more: Plan)
    requires part != [] && ChainBehind(more, |part|) && FrontGate(plan, part + more)
    ensures FrontGate(plan, part)
    decreases |more|
  {
    if more == [] {
      assert part + more == part;
    } else {
      var m := |more| - 1;
      assert part + more == (part + more[..m]) + [more[m]];
      ChainBack(plan, part + more[..m], more[m]);
      ChainGate(plan, part, more[..m]);
    }
  }

  lemma StepBack(plan: Plan, part: Plan, drawn: nat, b: nat, config: Config, draws: seq<nat>, next: Plan)
    requires config.NonNegative() && NoMisses(draws) && part != []
    requires next == StepPlan(part, |part| - 1, drawn, [b], config, draws).plan && FrontGate(plan, next)
    ensures FrontGate(plan, part)
  {
    OneStepPlan(part, drawn, b, config, draws);
    TailBack(plan, LayersEnd(part, drawn, b, config, draws), b, config);
    StartBack(plan, part, drawn, b, config, draws);
  }

  lemma StartBack(plan: Plan, part: Plan, drawn: nat, b: nat, config: Config, draws: seq<nat>)
    requires config.NonNegative() && NoMisses(draws) && part != []
    requires FrontGate(plan, LayersEnd(part, drawn, b, config, draws))
    ensures FrontGate(plan, part)
  {
    LayersBack(plan, StepStart(part, |part| - 1, drawn, 1), b, config, draws, config.layers);
  }

  /** If `next` is a front then so is `part`, and the last task of `next` ends exactly `x` after that of `part`. */
  ghost predicate LongerBy(plan: Plan, times: Times, part: Plan, next: Plan, x: real) {
    && part != [] && next != []
    && (FrontGate(plan, next) ==> FrontGate(plan, part) && (DoneBy(times, |part| - 1) ==>
                                                            EndsAt(times, |next| - 1, times.end[|part| - 1] + x)))
  }

  lemma StepIsLongerBy(plan: Plan, times: Times, part: Plan, drawn: nat, b: nat, config: Config, draws: seq<nat>,
                       next: Plan)
    requires config.NonNegative() && NoMisses(draws) && AllTimed(plan, times) && part != []
    requires next == StepPlan(part, |part| - 1, drawn, [b], config, draws).plan
    ensures LongerBy(plan, times, part, next, StepTime(config, b))
  {
    if FrontGate(plan, next) {
      StepBack(plan, part, drawn, b, config, draws, next);
      if DoneBy(times, |part| - 1) {
        StepTakesExactly(plan, times, part, drawn, b, config, draws, times.end[|part| - 1], next);
      }
    }
  }

  lemma PlanIsLongerBy(plan: Plan, times: Times, b: nat, config: Config, draws: seq<nat>, steps: nat)
    requires config.NonNegative() && NoMisses(draws) && AllTimed(plan, times)
    ensures LongerBy(plan, times, BuildPlan([b], config, draws, steps).plan,
                     BuildPlan([b], config, draws, steps + 1).plan, StepTime(config, b))
  {
    var s := BuildPlan([b], config, draws, steps);
    NextPlan([b], config, draws, steps);
    StepIsLongerBy(plan, times, s.plan, s.drawn, b, config, draws, BuildPlan([b], config, draws, steps + 1).plan);
  }

  lemma {:induction false} FrontsTakeExactly(plan: Plan, times: Times, fronts: seq<Plan>, n: nat, x: real)
    requires n < |fronts| && FrontGate(plan, fronts[n]) && AllTimed(plan, times) && fronts[0] == [ROOT]
    requires forall i :: 0 <= i < n ==> LongerBy(plan, times, fronts[i], fronts[i + 1], x)
    ensures EndsAt(times, |fronts[n]| - 1, Repeated(n, x))
  {
    if n == 0 {
      RootEnds(plan, times);
    } else {
      assert LongerBy(plan, times, fronts[n - 1], fronts[n - 1 + 1], x);
      FrontsTakeExactly(plan, times, fronts, n - 1, x);
    }
  }

  lemma RootEnds(plan: Plan, times: Times)
    requires Begins([ROOT], plan) && AllTimed(plan, times)
    ensures EndsAt(times, 0, 0.0)
  {
    assert plan[..1][0] == ROOT;
    assert PlanTimed(plan, times, 0);
  }

  /** A run of one sub-batch without misses takes exactly its step time, step by step. */
  lemma RunTakesExactly(plan: Plan, times: Times, b: nat, config: Config, draws: seq<nat>, steps: nat)
    requires config.NonNegative() && NoMisses(draws) && AllTimed(plan, times)
    requires plan == BuildPlan([b], config, draws, steps).plan
    ensures EndsAt(times, |plan| - 1, Repeated(steps, StepTime(config, b)))
  {
    assert plan[..|plan|] == plan;
    var fronts, x := Fronts([b], config, draws, steps), StepTime(config, b);
    forall i | 0 <= i < steps
      ensures LongerBy(plan, times, fronts[i], fronts[i + 1], x)
    {
      PlanIsLongerBy(plan, times, b, config, draws, i);
    }
    FrontsTakeExactly(plan, times, fronts, steps, x);
  }

  // ---- when the bound is met ----

  lemma {:induction false} RepeatedSame(n: nat, x: real, y: real)
    requires x <= y
    ensures Repeated(n, x) <= Repeated(n, y) && (Repeated(n, x) == Repeated(n, y) <==> n == 0 || x == y)
  {
    if n > 0 {
      RepeatedSame(n - 1, x, y);
    }
  }

  /** The remote picks with their link are the slowest branch of a layer. */
  ghost predicate RemoteSlowest(config: Config, b: nat) {
    var remote := config.rtt + 26000.0 * b as real / 1500000.0 + 6.0 * b as real * config.remoteShare * 0.088;
    && 6.0 * b as real * config.localShare * 0.088 <= remote
    && 0.06 + 6.0 * b as real * 0.05 * 0.088 * 214.0 / 640.0 <= remote
  }

  lemma LayerTimeMeets(config: Config, b: nat)
    ensures LayerPath(config, b) <= LayerTime(config, b)
    ensures LayerPath(config, b) == LayerTime(config, b) <==> RemoteSlowest(config, b)
  {
  }

  /** So the critical path of the remote picks is all a run takes exactly when they are the slowest branch,
      if there is a step with a layer. */
  lemma PathIsTimeIff(config: Config, b: nat, steps: nat)
    ensures Repeated(steps, StepTime(config, b)) == Repeated(steps, StepPath(config, [b], 0)) <==>
            steps == 0 || config.layers == 0 || RemoteSlowest(config, b)
  {
    LayerTimeMeets(config, b);
    RepeatedSame(config.layers, LayerPath(config, b), LayerTime(config, b));
    assert [b][..0] == [];
    assert Positions([b]) == b;
    RepeatedSame(steps, StepPath(config, [b], 0), StepTime(config, b));
  }
}
