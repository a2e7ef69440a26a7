/** How busy the tasks of a plan keep each resource, in the numbers of the configuration and the misses drawn
    (scripts/sched_sim2.py, `simulate`). */
module SchedulerWork {
  import opened Prelude
  import opened Scheduler
  import opened SchedulerBuild
  import opened SchedulerPath

  ghost function PlanWork(plan: Plan, k: Resource): real {
    if plan == [] then 0.0
    else
      var node := plan[|plan| - 1];
      PlanWork(plan[..|plan| - 1], k) + if node.res == Some(k) then node.dur else 0.0
  }

  lemma {:induction false} WorkIsPlan(g: Graph, plan: Plan, k: Resource, n: nat)
    requires n <= |g| == |plan| && forall t :: 0 <= t < |g| ==> NodeOf(g[t]) == plan[t]
    ensures Work(g, k, n) == PlanWork(plan[..n], k)
  {
    if n > 0 {
      WorkIsPlan(g, plan, k, n - 1);
      assert plan[..n][..n - 1] == plan[..n - 1] && NodeOf(g[n - 1]) == plan[n - 1];
    }
  }

  lemma {:induction false} WorkJoins(a: Plan, b: Plan, k: Resource)
    ensures PlanWork(a + b, k) == PlanWork(a, k) + PlanWork(b, k)
  {
    if b == [] {
      assert a + b == a;
    } else {
      WorkJoins(a, b[..|b| - 1], k);
      assert (a + b)[..|a + b| - 1] == a + b[..|b| - 1];
    }
  }

  lemma WorkOfOne(node: Node, k: Resource)
    ensures PlanWork([node], k) == if node.res == Some(k) then node.dur else 0.0
  {
    assert [node][..0] == [];
  }

  lemma WorkOfTwo(a: Node, b: Node, k: Resource)
    ensures PlanWork([a, b], k) == PlanWork([a], k) + PlanWork([b], k)
  {
    assert [a, b] == [a] + [b];
    WorkJoins([a], [b], k);
  }

  lemma {:induction false} WorkOfReads(on: Resource, a: nat, n: nat, k: Resource)
    ensures PlanWork(Reads(on, a, n), k) == if k == on then n as real * 4.82 else 0.0
  {
    if n > 0 {
      WorkOfReads(on, a, n - 1, k);
      assert Reads(on, a, n)[..n - 1] == Reads(on, a, n - 1);
    }
  }

  // ---- one layer of one sub-batch ----

  /** Without misses: attention, the shared expert and the merge; the picks of either box. */
  ghost function LayerBusy(config: Config, b: nat, k: Resource): real {
    match k
    case Dgpu => 0.58 + 0.03 * (b as real - 1.0) + 0.06 + 6.0 * b as real * 0.05 * 0.088 * 214.0 / 640.0 + 0.02
    case Igpu1 => 6.0 * b as real * config.localShare * 0.088
    case Igpu2 => 6.0 * b as real * config.remoteShare * 0.088
    case Nvme1 => 0.0
    case Nvme2 => 0.0
  }

  /** `n1` misses on the first box and `n2` on the second: a read and a late pick each. */
  ghost function MissBusy(n1: nat, n2: nat, k: Resource): real {
    match k
    case Dgpu => 0.0
    case Igpu1 => n1 as real * 0.088
    case Igpu2 => n2 as real * 0.088
    case Nvme1 => n1 as real * 4.82
    case Nvme2 => n2 as real * 4.82
  }

  lemma WorkOfLocal(n: nat, a: nat, picks: real, misses: nat, k: Resource)
    ensures PlanWork(LocalPlan(n, a, picks, misses), k) ==
            MissBusy(misses, 0, k) + if k == Igpu1 then picks else 0.0
  {
    var e1, j1 := Node(Some(Igpu1), picks, [a]), Node(None, 0.0, [n] + Range(n + 2, misses));
    var e1b := Node(Some(Igpu1), misses as real * PICK, [n + 1]);
    var fetch := Reads(Nvme1, a, misses);
    WorkJoins([e1, j1] + fetch, [e1b], k);
    WorkJoins([e1, j1], fetch, k);
    WorkOfTwo(e1, j1, k);
    WorkOfOne(e1, k);
    WorkOfOne(j1, k);
    WorkOfOne(e1b, k);
    WorkOfReads(Nvme1, a, misses, k);
  }

  lemma WorkOfRemote(n: nat, a: nat, there: real, picks: real, misses: nat, home: real, k: Resource)
    ensures PlanWork(RemotePlan(n, a, there, picks, misses, home), k) ==
            MissBusy(0, misses, k) + if k == Igpu2 then picks else 0.0
  {
    var out, e2 := Node(None, there, [a]), Node(Some(Igpu2), picks, [n]);
    var j2 := Node(None, 0.0, [n + 1] + Range(n + 3, misses));
    var e2b, back := Node(Some(Igpu2), misses as real * PICK, [n + 2]), Node(None, home, [n + 3 + misses]);
    var fetch := Reads(Nvme2, n, misses);
    assert [out, e2, j2] == [out, e2] + [j2];
    WorkJoins([out, e2, j2] + fetch, [e2b, back], k);
    WorkJoins([out, e2, j2], fetch, k);
    WorkJoins([out, e2], [j2], k);
    WorkOfTwo(out, e2, k);
    WorkOfTwo(e2b, back, k);
    WorkOfOne(out, k);
    WorkOfOne(e2, k);
    WorkOfOne(j2, k);
    WorkOfOne(e2b, k);
    WorkOfOne(back, k);
    WorkOfReads(Nvme2, n, misses, k);
  }

  lemma WorkOfMerge(n: nat, a: nat, e1b: nat, back: nat, shared: real, k: Resource)
    ensures PlanWork(MergePlan(n, a, e1b, back, shared), k) == if k == Dgpu then shared + 0.02 else 0.0
  {
    var e3, post := Node(Some(Dgpu), shared, [a]), Node(Some(Dgpu), 0.02, [e1b, back, n]);
    WorkOfTwo(e3, post, k);
    WorkOfOne(e3, k);
    WorkOfOne(post, k);
  }

  lemma WorkOfFour(a: Plan, b: Plan, c: Plan, d: Plan, k: Resource)
    ensures PlanWork(a + b + c + d, k) == PlanWork(a, k) + PlanWork(b, k) + PlanWork(c, k) + PlanWork(d, k)
  {
    WorkJoins(a + b + c, d, k);
    WorkJoins(a + b, c, k);
    WorkJoins(a, b, k);
  }

  lemma LayerBusyIs(config: Config, b: nat, k: Resource)
    requires config.NonNegative()
    ensures LayerBusy(config, b, k) == (if k == Dgpu then Attention(b) + (config.Shared(b) + 0.02) else 0.0)
              + (if k == Igpu1 then config.Picks(b, config.localShare) else 0.0)
              + (if k == Igpu2 then config.Picks(b, config.remoteShare) else 0.0)
  {
  }

  lemma MissBusyIs(n1: nat, n2: nat, k: Resource)
    ensures MissBusy(n1, n2, k) == MissBusy(n1, 0, k) + MissBusy(0, n2, k)
  {
  }

  lemma WorkOfParts(attend: Node, n: nat, b: nat, config: Config, n1: nat, n2: nat, k: Resource, there: real,
                    home: real, local: real, remote: real, shared: real)
    requires attend.res == Some(Dgpu)
    ensures PlanWork([attend] + LocalPlan(n + 1, n, local, n1) + RemotePlan(n + 4 + n1, n, there, remote, n2, home)
                     + MergePlan(n + 9 + n1 + n2, n, n + 3 + n1, n + 8 + n1 + n2, shared), k) ==
            (if k == Dgpu then attend.dur + (shared + 0.02) else 0.0) + (if k == Igpu1 then local else 0.0)
              + (if k == Igpu2 then remote else 0.0) + MissBusy(n1, n2, k)
  {
    WorkOfFour([attend], LocalPlan(n + 1, n, local, n1), RemotePlan(n + 4 + n1, n, there, remote, n2, home),
               MergePlan(n + 9 + n1 + n2, n, n + 3 + n1, n + 8 + n1 + n2, shared), k);
    WorkOfOne(attend, k);
    WorkOfLocal(n + 1, n, local, n1, k);
    WorkOfRemote(n + 4 + n1, n, there, remote, n2, home, k);
    WorkOfMerge(n + 9 + n1 + n2, n, n + 3 + n1, n + 8 + n1 + n2, shared, k);
    MissBusyIs(n1, n2, k);
  }

  lemma WorkOfLayer(n: nat, prev: nat, before: Option<nat>, b: nat, config: Config, n1: nat, n2: nat, k: Resource)
    requires config.NonNegative()
    ensures PlanWork(LayerPlan(n, prev, before, b, config, n1, n2), k) == LayerBusy(config, b, k) + MissBusy(n1, n2, k)
  {
    WorkOfParts(AttendNode(prev, before, b), n, b, config, n1, n2, k, config.Link(b, 6000.0), config.Link(b, 20000.0),
                config.Picks(b, config.localShare), config.Picks(b, config.remoteShare), config.Shared(b));
    LayerBusyIs(config, b, k);
  }

  // ---- the misses ----

  /** How often the list of draws says the `i`-th layer of a sub-batch misses on the first or the second box. */
  ghost function MissesAt(draws: seq<nat>, i: nat, box: nat): nat {
    if 2 * i + box < |draws| then draws[2 * i + box] else 0
  }

  ghost function MissWork(draws: seq<nat>, m: nat, k: Resource): real {
    if m == 0 then 0.0
    else MissWork(draws, m - 1, k) + MissBusy(MissesAt(draws, m - 1, 0), MissesAt(draws, m - 1, 1), k)
  }

  /** After `m` layers of sub-batches. */
  ghost predicate Busy(s: Built, draws: seq<nat>, m: nat, k: Resource, least: real) {
    s.drawn == 2 * m && PlanWork(s.plan, k) == least + MissWork(draws, m, k)
  }

  // ---- layers, steps and the run ----

  ghost function SubsBusy(config: Config, subs: seq<nat>, n: nat, k: Resource): real
    requires n <= |subs|
  {
    if n == 0 then 0.0 else SubsBusy(config, subs, n - 1, k) + LayerBusy(config, subs[n - 1], k)
  }

  lemma FollowedBusy(r: Built, i: nat, b: nat, config: Config, draws: seq<nat>, m: nat, k: Resource, w: real, d: real)
    requires config.NonNegative() && i < |r.post| && Busy(r, draws, m, k, w) && d == LayerBusy(config, b, k)
    ensures Busy(Followed(r, i, b, config, draws), draws, m + 1, k, w + d)
  {
    var n1, n2 := Draw(draws, r.drawn), Draw(draws, r.drawn + 1);
    var layer := LayerPlan(|r.plan|, r.post[i], r.before, b, config, n1, n2);
    WorkOfLayer(|r.plan|, r.post[i], r.before, b, config, n1, n2, k);
    WorkJoins(r.plan, layer, k);
    assert n1 == MissesAt(draws, m, 0) && n2 == MissesAt(draws, m, 1);
  }

  lemma {:induction false} SubBatchesBusy(s: Built, subs: seq<nat>, config: Config, draws: seq<nat>, n: nat, m: nat,
                                          k: Resource, w: real)
    requires config.NonNegative() && n <= |subs| == |s.post| && Busy(s, draws, m, k, w)
    ensures Busy(SubBatches(s, subs, config, draws, n), draws, m + n, k, w + SubsBusy(config, subs, n, k))
  {
    if n > 0 {
      SubBatchesBusy(s, subs, config, draws, n - 1, m, k, w);
      FollowedBusy(SubBatches(s, subs, config, draws, n - 1), n - 1, subs[n - 1], config, draws, m + n - 1, k,
                   w + SubsBusy(config, subs, n - 1, k), LayerBusy(config, subs[n - 1], k));
    }
  }

  /** `x`, `n` times: `CountIs`. */
  ghost function Count(n: nat, x: nat): nat {
    if n == 0 then 0 else Count(n - 1, x) + x
  }

  lemma {:induction false} CountIs(n: nat, x: nat)
    ensures Count(n, x) == n * x
  {
    if n > 0 {
      CountIs(n - 1, x);
      assert n * x == (n - 1) * x + x;
    }
  }

  lemma {:induction false} LayersBusy(s: Built, subs: seq<nat>, config: Config, draws: seq<nat>, l: nat, m: nat,
                                      k: Resource, w: real, d: real)
    requires config.NonNegative() && |subs| == |s.post| && Busy(s, draws, m, k, w)
    requires d == SubsBusy(config, subs, |subs|, k)
    ensures Busy(LayersPlan(s, subs, config, draws, l), draws, m + Count(l, |subs|), k, w + Repeated(l, d))
  {
    if l > 0 {
      LayersBusy(s, subs, config, draws, l - 1, m, k, w, d);
      SubBatchesBusy(LayersPlan(s, subs, config, draws, l - 1), subs, config, draws, |subs|,
                     m + Count(l - 1, |subs|), k, w + Repeated(l - 1, d));
    }
  }

  /** The head, and the drafter when there is more than one position. */
  ghost function TailBusy(config: Config, positions: nat, k: Resource): real {
    match k
    case Dgpu => if positions > 1 then 1.4 + config.drafter.0 + config.drafter.2 else 1.4
    case Igpu1 => if positions > 1 then config.drafter.1 else 0.0
    case Igpu2 => 0.0
    case Nvme1 => 0.0
    case Nvme2 => 0.0
  }

  lemma WorkOfTail(n: nat, post: seq<nat>, drafts: bool, config: Config, k: Resource)
    ensures PlanWork(TailPlan(n, post, drafts, config), k) == TailBusy(config, if drafts then 2 else 1, k)
  {
    var head := Node(Some(Dgpu), 1.4, post);
    WorkJoins([head], AfterHead(n, drafts, config), k);
    WorkOfOne(head, k);
    if drafts {
      WorkOfDrafter(n, config, k);
    } else {
      WorkOfOne(Node(None, 0.05, [n]), k);
    }
  }

  lemma WorkOfDrafter(n: nat, config: Config, k: Resource)
    ensures PlanWork(AfterHead(n, true, config), k) ==
            if k == Dgpu then config.drafter.0 + config.drafter.2 else if k == Igpu1 then config.drafter.1 else 0.0
  {
    var acc, d1 := Node(None, 0.1, [n]), Node(Some(Dgpu), config.drafter.0, [n + 1]);
    var d2, d3 := Node(Some(Igpu1), config.drafter.1, [n + 2]), Node(Some(Dgpu), config.drafter.2, [n + 3]);
    assert AfterHead(n, true, config) == [acc, d1] + [d2, d3];
    WorkJoins([acc, d1], [d2, d3], k);
    WorkOfTwo(acc, d1, k);
    WorkOfTwo(d2, d3, k);
    WorkOfOne(acc, k);
    WorkOfOne(d1, k);
    WorkOfOne(d2, k);
    WorkOfOne(d3, k);
  }

  ghost function StepBusy(config: Config, subs: seq<nat>, k: Resource): real {
    Repeated(config.layers, SubsBusy(config, subs, |subs|, k)) + TailBusy(config, Positions(subs), k)
  }

  lemma TailIsBusy(r: Built, drafts: bool, config: Config, draws: seq<nat>, m: nat, k: Resource, w: real, e: real)
    requires Busy(r, draws, m, k, w) && e == TailBusy(config, if drafts then 2 else 1, k)
    ensures Busy(r.(plan := r.plan + TailPlan(|r.plan|, r.post, drafts, config)), draws, m, k, w + e)
  {
    WorkOfTail(|r.plan|, r.post, drafts, config, k);
    WorkJoins(r.plan, TailPlan(|r.plan|, r.post, drafts, config), k);
  }

  lemma TailBusyIs(config: Config, subs: seq<nat>, k: Resource)
    ensures TailBusy(config, Positions(subs), k) == TailBusy(config, if Sum(subs) > 1 then 2 else 1, k)
  {
    PositionsIs(subs);
  }

  /** A step keeps `k` busy for `d`: each of its layers for `c`, and its tail for `e`; it makes `j` draws. */
  ghost predicate Costs(config: Config, subs: seq<nat>, k: Resource, c: real, e: real, d: real, j: nat) {
    && c == SubsBusy(config, subs, |subs|, k) && e == TailBusy(config, if Sum(subs) > 1 then 2 else 1, k)
    && d == Repeated(config.layers, c) + e && j == Count(config.layers, |subs|)
  }

  lemma StepIsBusy(part: Plan, drawn: nat, before: Option<nat>, post: seq<nat>, subs: seq<nat>, config: Config,
                   draws: seq<nat>, m: nat, k: Resource, w: real, c: real, e: real, d: real, j: nat)
    requires config.NonNegative() && Busy(Built(part, post, before, drawn), draws, m, k, w) && part != []
    requires Costs(config, subs, k, c, e, d, j)
    ensures Busy(StepPlan(part, |part| - 1, drawn, subs, config, draws), draws, m + j, k, w + d)
  {
    var start, f := StepStart(part, |part| - 1, drawn, |subs|), Repeated(config.layers, c);
    LayersBusy(start, subs, config, draws, config.layers, m, k, w, c);
    TailIsBusy(LayersPlan(start, subs, config, draws, config.layers), Sum(subs) > 1, config, draws, m + j, k, w + f, e);
  }

  /** `r` is `s` and `j` layers of sub-batches with work `d`. */
  ghost predicate MoreBusy(s: Built, r: Built, draws: seq<nat>, k: Resource, d: real, j: nat) {
    forall m: nat, w: real :: Busy(s, draws, m, k, w) ==> Busy(r, draws, m + j, k, w + d)
  }

  lemma NextBusy(subs: seq<nat>, config: Config, draws: seq<nat>, steps: nat, k: Resource, c: real, e: real, d: real,
                 j: nat)
    requires config.NonNegative() && Costs(config, subs, k, c, e, d, j)
    ensures MoreBusy(BuildPlan(subs, config, draws, steps), BuildPlan(subs, config, draws, steps + 1), draws, k, d, j)
  {
    var s := BuildPlan(subs, config, draws, steps);
    assert BuildPlan(subs, config, draws, steps + 1) == NextStep(subs, config, draws, steps);
    forall m: nat, w: real | Busy(s, draws, m, k, w)
      ensures Busy(NextStep(subs, config, draws, steps), draws, m + j, k, w + d)
    {
      StepIsBusy(s.plan, s.drawn, s.before, s.post, subs, config, draws, m, k, w, c, e, d, j);
    }
  }

  lemma {:induction false} BuildsBusy(builds: seq<Built>, draws: seq<nat>, n: nat, k: Resource, d: real, j: nat)
    requires n < |builds| && Busy(builds[0], draws, 0, k, 0.0)
    requires forall i :: 0 <= i < n ==> MoreBusy(builds[i], builds[i + 1], draws, k, d, j)
    ensures Busy(builds[n], draws, Count(n, j), k, Repeated(n, d))
  {
    if n > 0 {
      BuildsBusy(builds, draws, n - 1, k, d, j);
      assert MoreBusy(builds[n - 1], builds[n - 1 + 1], draws, k, d, j);
    }
  }

  lemma StepsBusy(subs: seq<nat>, config: Config, draws: seq<nat>, steps: nat, k: Resource, c: real, e: real, d: real,
                  j: nat)
    requires config.NonNegative() && Costs(config, subs, k, c, e, d, j)
    ensures Busy(BuildPlan(subs, config, draws, steps), draws, Count(steps, j), k, Repeated(steps, d))
  {
    var builds := seq(steps + 1, i requires 0 <= i <= steps => BuildPlan(subs, config, draws, i));
    WorkOfOne(ROOT, k);
    forall i | 0 <= i < steps
      ensures MoreBusy(builds[i], builds[i + 1], draws, k, d, j)
    {
      NextBusy(subs, config, draws, i, k, c, e, d, j);
    }
    BuildsBusy(builds, draws, steps, k, d, j);
  }

  /** All the work of a run: every step that of its layers and its tail, and all misses drawn. */
  lemma RunIsBusy(g: Graph, subs: seq<nat>, config: Config, draws: seq<nat>, steps: nat, k: Resource)
    requires config.NonNegative()
    requires var plan := BuildPlan(subs, config, draws, steps).plan;
             |g| == |plan| && forall t :: 0 <= t < |g| ==> NodeOf(g[t]) == plan[t]
    ensures Work(g, k, |g|) == Repeated(steps, StepBusy(config, subs, k)) +
                               MissWork(draws, Count(steps, Count(config.layers, |subs|)), k)
  {
    var plan, j := BuildPlan(subs, config, draws, steps).plan, Count(config.layers, |subs|);
    WorkIsPlan(g, plan, k, |g|);
    assert plan[..|g|] == plan;
    TailBusyIs(config, subs, k);
    StepsBusy(subs, config, draws, steps, k, SubsBusy(config, subs, |subs|, k),
              TailBusy(config, Positions(subs), k), StepBusy(config, subs, k), j);
  }
}
