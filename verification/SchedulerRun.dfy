/** A run of the simulator: building the graph, the event loop, and what comes out (scripts/sched_sim2.py,
    `simulate`). */
module SchedulerRun {
  import opened Prelude
  import opened Scheduler
  import opened SchedulerBuild
  import opened SchedulerPath
  import opened SchedulerExact
  import opened SchedulerWork

  // ---- the graph ----

  /** What is built is what the event loop needs: one source, one sink, no cycle. */
  lemma ShapeOfGraph(g: Graph, plan: Plan, rank: seq<nat>, top: nat, last: nat)
    requires |plan| == |g| && Sound(g, plan, |g|) && Shaped(plan, rank, top, {last}) && last < |g|
    ensures WellFormed(g) && Ranked(g, rank) && Bounded(rank, top)
    ensures OneSource(g, 0) && OneSink(g, last) && g[0].preds == []
  {
    SoundWellFormed(g, plan);
    forall t | 0 <= t < |g|
      ensures NodeFine(plan, rank, top, t) && (t == last || Feeds(plan, t))
    {
      ShapedAt(plan, rank, top, {last}, |plan|, t);
    }
    RanksOfGraph(g, plan, rank, top);
    forall t | 0 <= t < |g| && t != last
      ensures g[t].succs != []
    {
      FeedsHasSuccessor(g, plan, t);
    }
  }

  lemma RanksOfGraph(g: Graph, plan: Plan, rank: seq<nat>, top: nat)
    requires 1 <= |plan| == |g| == |rank| && forall t :: 0 <= t < |g| ==> NodeOf(g[t]) == plan[t]
    requires forall t :: 0 <= t < |g| ==> NodeFine(plan, rank, top, t)
    ensures Ranked(g, rank) && Bounded(rank, top) && OneSource(g, 0) && g[0].preds == []
  {
    forall t | 0 <= t < |g|
      ensures g[t].preds == plan[t].preds && rank[t] <= top && (g[t].preds == [] <==> t == 0)
    {
      assert NodeOf(g[t]) == plan[t] && NodeFine(plan, rank, top, t);
    }
    forall t: nat, p: nat {:trigger p in g[t].preds} | t < |g| && p in g[t].preds
      ensures p < |g| && rank[p] < rank[t]
    {
      assert NodeFine(plan, rank, top, t) && p in plan[t].preds;
    }
  }

  lemma FeedsHasSuccessor(g: Graph, plan: Plan, t: nat)
    requires WellFormed(g) && |plan| == |g| && (forall u :: 0 <= u < |g| ==> NodeOf(g[u]) == plan[u]) && t < |g| &&
             Feeds(plan, t)
    ensures g[t].succs != []
  {
    var u :| 0 <= u < |plan| && t in plan[u].preds;
    assert NodeOf(g[u]) == plan[u];
    assert multiset(g[t].succs)[u] == multiset(g[u].preds)[t];
    assert t in multiset(g[u].preds);
  }

  /** Some task takes time, so the run does. */
  lemma TakesTime(g: Graph, times: Times, last: nat, t: nat)
    requires t < |g| && last < |g| && last in times.end && AllEndBy(g, times.end, times.end[last])
    requires g[t].dur > 0.0 && TaskTimed(g, times, t)
    ensures times.end[last] > 0.0
  {
  }

  // ---- the times ----

  /** The graph has exactly the tasks, durations and edges of the plan. */
  ghost predicate IsPlan(g: Graph, plan: Plan) {
    |g| == |plan| && forall t :: 0 <= t < |g| ==> NodeOf(g[t]) == plan[t]
  }

  lemma NodeIsTimed(g: Graph, plan: Plan, times: Times, t: nat)
    requires IsPlan(g, plan) && t < |g|
    requires TaskTimed(g, times, t) && g[t].dur >= 0.0
    ensures PlanTimed(plan, times, t)
  {
    assert NodeOf(g[t]) == plan[t];
    if times.start[t] != times.ready[t] {
      var u :| u < |g| && u in times.end && u != t && g[t].res.Some? && g[t].dur != 0.0 &&
        Occupies(g, u, g[t].res.value) && times.end[u] == times.start[t];
      assert NodeOf(g[u]) == plan[u];
      assert HandedOver(plan, times, t, u);
    }
  }

  lemma NodeWaits(g: Graph, plan: Plan, times: Times, t: nat)
    requires |g| == |plan| && t < |g| && NodeOf(g[t]) == plan[t] && TaskTimed(g, times, t) && g[t].dur >= 0.0
    ensures Waited(plan, times.end, t)
  {
  }

  lemma TimesOfPlan(g: Graph, plan: Plan, times: Times)
    requires IsPlan(g, plan) && WellFormed(g)
    requires forall t :: 0 <= t < |g| ==> TaskTimed(g, times, t)
    ensures Follows(plan, times.end) && AllTimed(plan, times)
  {
    forall t | 0 <= t < |plan|
      ensures Waited(plan, times.end, t) && PlanTimed(plan, times, t)
    {
      NodeIsTimed(g, plan, times, t);
      NodeWaits(g, plan, times, t);
    }
  }

  // ---- the run ----

  /** No run is faster than the path of any of its sub-batches, step by step. */
  ghost predicate NoFaster(total: real, subs: seq<nat>, config: Config, steps: nat) {
    forall si :: 0 <= si < |subs| ==> total >= Repeated(steps, StepPath(config, subs, si))
  }

  /** A run of one sub-batch without misses takes its step time exactly. */
  ghost predicate JustAsFast(total: real, subs: seq<nat>, config: Config, draws: seq<nat>, steps: nat) {
    |subs| == 1 && NoMisses(draws) ==> total == Repeated(steps, StepTime(config, subs[0]))
  }

  /** A resource is busy, step by step, with the layers and the tail, and with all misses drawn. */
  ghost predicate BusyWith(busy: map<Resource, real>, subs: seq<nat>, config: Config, draws: seq<nat>, steps: nat,
                           k: Resource)
  {
    k in busy && busy[k] == Repeated(steps, StepBusy(config, subs, k)) +
                            MissWork(draws, Count(steps, Count(config.layers, |subs|)), k)
  }

  lemma NoneFaster(plan: Plan, times: Times, subs: seq<nat>, config: Config, draws: seq<nat>, steps: nat, total: real)
    requires config.NonNegative() && Follows(plan, times.end) && plan == BuildPlan(subs, config, draws, steps).plan
    requires |plan| - 1 in times.end && total == times.end[|plan| - 1]
    ensures NoFaster(total, subs, config, steps)
  {
    forall si | 0 <= si < |subs|
      ensures total >= Repeated(steps, StepPath(config, subs, si))
    {
      RunTakes(plan, times.end, subs, config, draws, steps, si);
    }
  }

  lemma OneIsAsFast(plan: Plan, times: Times, subs: seq<nat>, config: Config, draws: seq<nat>, steps: nat, total: real)
    requires config.NonNegative() && AllTimed(plan, times) && plan == BuildPlan(subs, config, draws, steps).plan
    requires |plan| - 1 in times.end && total == times.end[|plan| - 1]
    ensures JustAsFast(total, subs, config, draws, steps)
  {
    if |subs| == 1 && NoMisses(draws) {
      assert subs == [subs[0]];
      RunTakesExactly(plan, times, subs[0], config, draws, steps);
    }
  }

  /** What the times and the graph say of the total and the busy times. */
  lemma Outcome(g: Graph, plan: Plan, times: Times, subs: seq<nat>, config: Config, draws: seq<nat>, steps: nat,
                total: real, busy: map<Resource, real>)
    requires config.NonNegative() && WellFormed(g) && forall t :: 0 <= t < |g| ==> TaskTimed(g, times, t)
    requires plan == BuildPlan(subs, config, draws, steps).plan && IsPlan(g, plan)
    requires |plan| - 1 in times.end && total == times.end[|plan| - 1]
    requires forall k :: k in busy && busy[k] == Work(g, k, |g|)
    ensures NoFaster(total, subs, config, steps) && JustAsFast(total, subs, config, draws, steps)
    ensures forall k :: BusyWith(busy, subs, config, draws, steps, k)
  {
    TimesOfPlan(g, plan, times);
    NoneFaster(plan, times, subs, config, draws, steps, total);
    OneIsAsFast(plan, times, subs, config, draws, steps, total);
    forall k: Resource
      ensures BusyWith(busy, subs, config, draws, steps, k)
    {
      RunIsBusy(g, subs, config, draws, steps, k);
    }
  }

  /** `simulate`: the graph has exactly the tasks, durations and edges of the plan; every task runs once;
      the reported total is when the last of them ends, no earlier than the path of any sub-batch allows, and
      with one sub-batch and no misses exactly when its slowest branches allow; every resource is busy with
      all its work, and no longer than the total. */
  method Simulate(subs: seq<nat>, config: Config, steps: nat, draws: seq<nat>)
    returns (total: real, busy: map<Resource, real>, ghost g: Graph, ghost times: Times, ghost order: seq<nat>,
             ghost pushes: Pushes)
    requires config.NonNegative() && subs != []
    ensures WellFormed(g) && Schedule(g, times, order)
    ensures PushOrder(g, 0, order, pushes) && FirstCome(times, order, pushes)
    ensures IsPlan(g, BuildPlan(subs, config, draws, steps).plan)
    ensures forall t :: 0 <= t < |g| ==> Climbs(g[t].succs)
    ensures forall t :: 0 <= t < |g| ==> t in order && t in times.end && times.end[t] <= total
    ensures |g| - 1 in times.end && times.end[|g| - 1] == total
    ensures NoFaster(total, subs, config, steps)
    ensures JustAsFast(total, subs, config, draws, steps)
    ensures forall k :: BusyWith(busy, subs, config, draws, steps, k) && busy[k] <= total
    ensures steps > 0 ==> total > 0.0
  {
    var dag, root, last := Build(subs, config, steps, draws);
    g := dag.tasks;
    ghost var plan := dag.plan;
    BuildHangs(subs, config, draws, steps);
    assert Hangs(plan, {last});
    ghost var rank: seq<nat>, top: nat :| Shaped(plan, rank, top, {last});
    ShapeOfGraph(g, plan, rank, top, last);
    SoundWellFormed(g, plan);
    var end, u;
    end, u, times, order, pushes := EventLoop(dag.tasks, root);
    AllRun(g, rank, root, end.Keys);
    total, busy := end[last], u.busy;
    BusyWithinTotal(g, rank, top, root, last, times, order, u);
    Outcome(g, plan, times, subs, config, draws, steps, total, busy);
    if steps > 0 {
      ghost var t :| 0 <= t < |g| && plan[t].dur > 0.0;
      TakesTime(g, times, last, t);
    }
  }
}
