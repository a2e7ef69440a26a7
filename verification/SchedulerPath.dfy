/** The critical path through the graph of scripts/sched_sim2.py, `simulate`, in the numbers of its
    configuration. */
module SchedulerPath {
  import opened Prelude
  import opened Scheduler
  import opened SchedulerBuild

  /** A task ends no earlier than its duration after every task it waits for. */
  ghost predicate Waited(plan: Plan, end: map<nat, real>, t: nat)
    requires t < |plan|
  {
    t in end && end[t] >= 0.0 && forall p :: p in plan[t].preds ==> p in end && end[p] + plan[t].dur <= end[t]
  }

  ghost predicate Follows(plan: Plan, end: map<nat, real>) {
    forall t :: 0 <= t < |plan| ==> Waited(plan, end, t)
  }

  ghost predicate Begins(part: Plan, plan: Plan) {
    |part| <= |plan| && plan[..|part|] == part
  }

  lemma BeginsFront(a: Plan, b: Plan, plan: Plan)
    requires Begins(a + b, plan)
    ensures Begins(a, plan) && forall i :: 0 <= i < |b| ==> plan[|a| + i] == b[i]
  {
    assert plan[..|a + b|][..|a|] == plan[..|a|];
    forall i | 0 <= i < |b|
      ensures plan[|a| + i] == b[i]
    {
      assert plan[..|a + b|][|a| + i] == (a + b)[|a| + i];
    }
  }

  lemma Chained(plan: Plan, end: map<nat, real>, t: nat, p: nat)
    requires Follows(plan, end) && t < |plan| && p in plan[t].preds
    ensures p in end && t in end && end[t] >= end[p] + plan[t].dur
  {
    assert Waited(plan, end, t);
  }

  ghost predicate EndsAfter(end: map<nat, real>, t: nat, least: real) {
    t in end && end[t] >= least
  }

  // ---- a layer ----

  /** Attention, over the link, the remote picks, back, and the merge. */
  ghost function LayerPath(config: Config, b: nat): real {
    0.58 + 0.03 * (b as real - 1.0) + config.rtt + 26000.0 * b as real / 1500000.0
    + 6.0 * b as real * config.remoteShare * 0.088 + 0.02
  }

  /** Attention alone. */
  ghost function AttendTime(b: nat): real {
    0.58 + 0.03 * (b as real - 1.0)
  }

  /** The chain of a layer from task `n` on. */
  lemma LayerNodes(n: nat, prev: nat, before: Option<nat>, b: nat, config: Config, n1: nat, n2: nat)
    requires config.NonNegative()
    ensures var layer, m := LayerPlan(n, prev, before, b, config, n1, n2), n + 4 + n1;
            && layer[0] == AttendNode(prev, before, b)
            && layer[4 + n1] == Node(None, config.Link(b, 6000.0), [n])
            && layer[5 + n1] == Node(Some(Igpu2), config.Picks(b, config.remoteShare), [m])
            && layer[6 + n1].preds == [m + 1] + Range(m + 3, n2) && layer[6 + n1].dur == 0.0
            && layer[7 + n1 + n2] == Node(Some(Igpu2), n2 as real * PICK, [m + 2])
            && layer[8 + n1 + n2] == Node(None, config.Link(b, 20000.0), [m + 3 + n2])
            && layer[10 + n1 + n2].dur == 0.02 && m + 4 + n2 in layer[10 + n1 + n2].preds
  {
    var merge := MergePlan(n + 9 + n1 + n2, n, n + 3 + n1, n + 8 + n1 + n2, config.Shared(b));
    assert merge[1].preds[1] == n + 8 + n1 + n2;
  }

  /** The durations along the chain add up to the path. */
  lemma PathOf(config: Config, b: nat)
    requires config.NonNegative()
    ensures Attention(b) + config.Link(b, 6000.0) + config.Picks(b, config.remoteShare) + config.Link(b, 20000.0) + 0.02
            == LayerPath(config, b)
  {
    assert config.Link(b, 6000.0) + config.Link(b, 20000.0) == config.rtt + 26000.0 * b as real / 1500000.0;
  }

  /** Two links of a chain. */
  lemma Two(plan: Plan, end: map<nat, real>, t: nat, u: nat, v: nat, d: real, e: real)
    requires Follows(plan, end) && t < |plan| && u < |plan|
    requires v in plan[u].preds && u in plan[t].preds && plan[u].dur >= d && plan[t].dur >= e
    ensures v in end && t in end && end[t] >= end[v] + d + e
  {
    Chained(plan, end, u, v);
    Chained(plan, end, t, u);
  }

  /** What the chain of a layer finds in the plan. */
  ghost predicate ChainIn(plan: Plan, n: nat, m: nat, n2: nat, prev: nat, attend: real, there: real, picks: real,
                          home: real)
  {
    && n < |plan| && m + 6 + n2 < |plan| && prev in plan[n].preds && plan[n].dur == attend
    && n in plan[m].preds && plan[m].dur == there
    && m in plan[m + 1].preds && plan[m + 1].dur == picks
    && m + 1 in plan[m + 2].preds && plan[m + 2].dur >= 0.0
    && m + 2 in plan[m + 3 + n2].preds && plan[m + 3 + n2].dur >= 0.0
    && m + 3 + n2 in plan[m + 4 + n2].preds && plan[m + 4 + n2].dur == home
    && m + 4 + n2 in plan[m + 6 + n2].preds && plan[m + 6 + n2].dur == 0.02
  }

  lemma LayerChain(plan: Plan, part: Plan, prev: nat, before: Option<nat>, b: nat, config: Config, n1: nat, n2: nat)
    requires config.NonNegative() && prev < |part|
    requires Begins(part + LayerPlan(|part|, prev, before, b, config, n1, n2), plan)
    ensures ChainIn(plan, |part|, |part| + 4 + n1, n2, prev, Attention(b), config.Link(b, 6000.0),
                    config.Picks(b, config.remoteShare), config.Link(b, 20000.0))
  {
    var n, m := |part|, |part| + 4 + n1;
    var layer := LayerPlan(n, prev, before, b, config, n1, n2);
    LayerNodes(n, prev, before, b, config, n1, n2);
    BeginsFront(part, layer, plan);
    assert plan[n] == layer[0] && plan[m] == layer[4 + n1] && plan[m + 1] == layer[5 + n1];
    assert plan[m + 2] == layer[6 + n1] && plan[m + 3 + n2] == layer[7 + n1 + n2];
    assert plan[m + 4 + n2] == layer[8 + n1 + n2] && plan[m + 6 + n2] == layer[10 + n1 + n2];
    assert m + 1 == plan[m + 2].preds[0];
  }

  lemma ChainTakes(plan: Plan, end: map<nat, real>, n: nat, m: nat, n2: nat, prev: nat, attend: real, there: real,
                   picks: real, home: real)
    requires Follows(plan, end) && ChainIn(plan, n, m, n2, prev, attend, there, picks, home)
    ensures prev in end && n in end && m + 6 + n2 in end && end[n] >= end[prev] + attend
    ensures end[m + 6 + n2] >= end[n] + there + picks + home + 0.02
  {
    Chained(plan, end, n, prev);
    Chained(plan, end, m, n);
    Two(plan, end, m + 2, m + 1, m, picks, 0.0);
    Two(plan, end, m + 4 + n2, m + 3 + n2, m + 2, 0.0, home);
    Chained(plan, end, m + 6 + n2, m + 4 + n2);
  }

  /** The attention of a layer, task `n`, follows task `prev`, and its last task, `post`, ends `c` after `prev`. */
  ghost predicate LayerSpan(end: map<nat, real>, n: nat, post: nat, prev: nat, b: nat, c: real) {
    && prev in end && EndsAfter(end, n, end[prev] + AttendTime(b))
    && EndsAfter(end, post, end[n] + (c - AttendTime(b)))
  }

  /** The attention also follows that of the sub-batch before. */
  lemma AttendTakes(plan: Plan, end: map<nat, real>, part: Plan, prev: nat, before: nat, b: nat, config: Config,
                    n1: nat, n2: nat)
    requires config.NonNegative() && Follows(plan, end) && prev < |part|
    requires Begins(part + LayerPlan(|part|, prev, Some(before), b, config, n1, n2), plan)
    ensures before in end && EndsAfter(end, |part|, end[before] + AttendTime(b))
  {
    var layer := LayerPlan(|part|, prev, Some(before), b, config, n1, n2);
    BeginsFront(part, layer, plan);
    LayerNodes(|part|, prev, Some(before), b, config, n1, n2);
    assert plan[|part| + 0] == layer[0] && layer[0].preds[1] == before;
    Chained(plan, end, |part|, before);
  }

  lemma LayerTakes(plan: Plan, end: map<nat, real>, part: Plan, prev: nat, before: Option<nat>, b: nat,
                   config: Config, n1: nat, n2: nat)
    requires config.NonNegative() && Follows(plan, end) && prev < |part|
    requires Begins(part + LayerPlan(|part|, prev, before, b, config, n1, n2), plan)
    ensures LayerSpan(end, |part|, |part| + 10 + n1 + n2, prev, b, LayerPath(config, b))
  {
    LayerChain(plan, part, prev, before, b, config, n1, n2);
    ChainTakes(plan, end, |part|, |part| + 4 + n1, n2, prev, Attention(b), config.Link(b, 6000.0),
               config.Picks(b, config.remoteShare), config.Link(b, 20000.0));
    PathOf(config, b);
  }

  ghost predicate AddsLayer(plan: Plan, part: Plan, prev: nat, before: Option<nat>, b: nat, config: Config, n1: nat,
                            n2: nat)
    requires config.NonNegative()
  {
    prev < |part| && Begins(part + LayerPlan(|part|, prev, before, b, config, n1, n2), plan)
  }

  /** Every layer of a sub-batch of `b` positions takes at least `c`. */
  ghost predicate EachTakes(plan: Plan, end: map<nat, real>, config: Config, b: nat, c: real)
    requires config.NonNegative()
  {
    EachSpans(plan, end, config, b, c)
  }

  ghost predicate EachSpans(plan: Plan, end: map<nat, real>, config: Config, b: nat, c: real)
    requires config.NonNegative()
  {
    forall part, prev, before, n1, n2 :: AddsLayer(plan, part, prev, before, b, config, n1, n2) ==>
      LayerSpan(end, |part|, |part| + 10 + n1 + n2, prev, b, c)
  }

  lemma LayersTakePath(plan: Plan, end: map<nat, real>, config: Config, b: nat)
    requires config.NonNegative() && Follows(plan, end)
    ensures EachTakes(plan, end, config, b, LayerPath(config, b))
  {
    forall part, prev, before, n1, n2 | AddsLayer(plan, part, prev, before, b, config, n1, n2)
      ensures LayerSpan(end, |part|, |part| + 10 + n1 + n2, prev, b, LayerPath(config, b))
    {
      LayerTakes(plan, end, part, prev, before, b, config, n1, n2);
    }
  }

  // ---- layers and steps ----

  /** The last task of sub-batch `si` ends no earlier than `least`. */
  ghost predicate EndsFrom(end: map<nat, real>, post: seq<nat>, si: nat, least: real) {
    si < |post| && post[si] in end && end[post[si]] >= least
  }

  lemma OneMoreSubBatch(s: Built, subs: seq<nat>, config: Config, draws: seq<nat>, k: nat)
    requires config.NonNegative() && k < |subs| == |s.post|
    ensures var (q, r) := (SubBatches(s, subs, config, draws, k + 1), SubBatches(s, subs, config, draws, k));
            var n1, n2 := Draw(draws, r.drawn), Draw(draws, r.drawn + 1);
            && q.plan == r.plan + LayerPlan(|r.plan|, r.post[k], r.before, subs[k], config, n1, n2)
            && q.post == r.post[k := |r.plan| + 10 + n1 + n2]
  {
    assert SubBatches(s, subs, config, draws, k + 1) == NextSubBatch(s, subs, config, draws, k);
  }

  lemma SubBatchGrows(s: Built, subs: seq<nat>, config: Config, draws: seq<nat>, k: nat, plan: Plan)
    requires config.NonNegative() && k < |subs| == |s.post|
    requires Begins(SubBatches(s, subs, config, draws, k + 1).plan, plan)
    ensures Begins(SubBatches(s, subs, config, draws, k).plan, plan)
  {
    var r := SubBatches(s, subs, config, draws, k);
    var n1, n2 := Draw(draws, r.drawn), Draw(draws, r.drawn + 1);
    OneMoreSubBatch(s, subs, config, draws, k);
    BeginsFront(r.plan, LayerPlan(|r.plan|, r.post[k], r.before, subs[k], config, n1, n2), plan);
  }

  lemma {:induction false} SubBatchesGrow(s: Built, subs: seq<nat>, config: Config, draws: seq<nat>, k: nat, plan: Plan)
    requires config.NonNegative() && k <= |subs| == |s.post|
    requires Begins(SubBatches(s, subs, config, draws, k).plan, plan)
    ensures Begins(s.plan, plan)
  {
    if k > 0 {
      SubBatchGrows(s, subs, config, draws, k - 1, plan);
      SubBatchesGrow(s, subs, config, draws, k - 1, plan);
    }
  }

  lemma OneTakes(plan: Plan, end: map<nat, real>, r: Built, q: Built, k: nat, b: nat, config: Config, n1: nat, n2: nat,
                 si: nat, least: real, c: real)
    requires config.NonNegative() && k < |r.post| && InPlan(r) && (si == k ==> EachTakes(plan, end, config, b, c))
    requires q.plan == r.plan + LayerPlan(|r.plan|, r.post[k], r.before, b, config, n1, n2) && Begins(q.plan, plan)
    requires q.post == r.post[k := |r.plan| + 10 + n1 + n2] && EndsFrom(end, r.post, si, least)
    ensures EndsFrom(end, q.post, si, if si == k then least + c else least)
  {
    if si == k {
      assert AddsLayer(plan, r.plan, r.post[k], r.before, b, config, n1, n2);
    }
  }

  lemma SubBatchTakes(plan: Plan, end: map<nat, real>, s: Built, subs: seq<nat>, config: Config, draws: seq<nat>,
                      k: nat, si: nat, least: real, c: real)
    requires config.NonNegative() && k < |subs| == |s.post| && si < |subs| && Underway(s)
    requires EachTakes(plan, end, config, subs[si], c)
    requires EndsFrom(end, SubBatches(s, subs, config, draws, k).post, si, least)
    requires Begins(SubBatches(s, subs, config, draws, k + 1).plan, plan)
    ensures EndsFrom(end, SubBatches(s, subs, config, draws, k + 1).post, si, if si == k then least + c else least)
  {
    var (r, q) := (SubBatches(s, subs, config, draws, k), SubBatches(s, subs, config, draws, k + 1));
    OneMoreSubBatch(s, subs, config, draws, k);
    SubBatchesHang(s, subs, config, draws, k);
    OneTakes(plan, end, r, q, k, subs[k], config, Draw(draws, r.drawn), Draw(draws, r.drawn + 1), si, least, c);
  }

  /** The first `k` sub-batches have come a layer further. */
  lemma {:induction false} SubBatchesTake(plan: Plan, end: map<nat, real>, s: Built, subs: seq<nat>, config: Config,
                                          draws: seq<nat>, k: nat, si: nat, least: real, c: real)
    requires config.NonNegative() && k <= |subs| == |s.post| && si < |subs|
    requires EachTakes(plan, end, config, subs[si], c) && Underway(s) && EndsFrom(end, s.post, si, least)
    requires Begins(SubBatches(s, subs, config, draws, k).plan, plan)
    ensures EndsFrom(end, SubBatches(s, subs, config, draws, k).post, si, if si < k then least + c else least)
  {
    if k > 0 {
      SubBatchGrows(s, subs, config, draws, k - 1, plan);
      SubBatchesTake(plan, end, s, subs, config, draws, k - 1, si, least, c);
      SubBatchTakes(plan, end, s, subs, config, draws, k - 1, si, if si < k - 1 then least + c else least, c);
    }
  }

  // ---- the first layer of a step ----

  /** Attention of the first `k` sub-batches, one after the other. */
  ghost function Attends(subs: seq<nat>, k: nat): real
    requires k <= |subs|
  {
    if k == 0 then 0.0 else Attends(subs, k - 1) + 0.58 + 0.03 * (subs[k - 1] as real - 1.0)
  }

  /** In the first layer behind time `at`, with the first `k` sub-batches done. */
  ghost predicate FirstDone(end: map<nat, real>, r: Built, subs: seq<nat>, k: nat, si: nat, at: real, c: real) {
    && |r.post| == |subs| && k <= |subs| && si < |subs|
    && (forall i :: k <= i < |subs| ==> EndsFrom(end, r.post, i, at))
    && (if k == 0 then r.before.None? else
          r.before.Some? && EndsAfter(end, r.before.value, at + Attends(subs, k)))
    && (si < k ==> EndsFrom(end, r.post, si, at + Attends(subs, si) + c))
  }

  /** The attention of sub-batch `k` ends after those of all sub-batches before it. */
  lemma AttendInTurn(plan: Plan, end: map<nat, real>, r: Built, subs: seq<nat>, k: nat, config: Config, n1: nat,
                     n2: nat, si: nat, at: real, c: real)
    requires config.NonNegative() && Follows(plan, end) && k < |subs| && InPlan(r) && |r.post| == |subs|
    requires Begins(r.plan + LayerPlan(|r.plan|, r.post[k], r.before, subs[k], config, n1, n2), plan)
    requires FirstDone(end, r, subs, k, si, at, c)
    ensures EndsAfter(end, |r.plan|, at + Attends(subs, k + 1))
  {
    if k == 0 {
      LayerTakes(plan, end, r.plan, r.post[k], r.before, subs[k], config, n1, n2);
      assert EndsFrom(end, r.post, k, at);
    } else {
      AttendTakes(plan, end, r.plan, r.post[k], r.before.value, subs[k], config, n1, n2);
    }
  }

  lemma FirstStep(plan: Plan, end: map<nat, real>, r: Built, q: Built, subs: seq<nat>, k: nat, config: Config,
                  n1: nat, n2: nat, si: nat, at: real, c: real)
    requires config.NonNegative() && Follows(plan, end) && k < |subs| && InPlan(r) && |r.post| == |subs|
    requires si < |subs| && EachTakes(plan, end, config, subs[si], c) && FirstDone(end, r, subs, k, si, at, c)
    requires q.plan == r.plan + LayerPlan(|r.plan|, r.post[k], r.before, subs[k], config, n1, n2)
    requires Begins(q.plan, plan) && q.post == r.post[k := |r.plan| + 10 + n1 + n2] && q.before == Some(|r.plan|)
    ensures FirstDone(end, q, subs, k + 1, si, at, c)
  {
    AttendInTurn(plan, end, r, subs, k, config, n1, n2, si, at, c);
    if si == k {
      assert AddsLayer(plan, r.plan, r.post[k], r.before, subs[k], config, n1, n2);
    }
    forall i | k + 1 <= i < |subs|
      ensures EndsFrom(end, q.post, i, at)
    {
      assert EndsFrom(end, r.post, i, at);
    }
  }

  lemma OneFirst(plan: Plan, end: map<nat, real>, s: Built, subs: seq<nat>, config: Config, draws: seq<nat>, k: nat,
                 si: nat, at: real, c: real)
    requires config.NonNegative() && Follows(plan, end) && k < |subs| == |s.post| && Underway(s) && si < |subs|
    requires EachTakes(plan, end, config, subs[si], c)
    requires FirstDone(end, SubBatches(s, subs, config, draws, k), subs, k, si, at, c)
    requires Begins(SubBatches(s, subs, config, draws, k + 1).plan, plan)
    ensures FirstDone(end, SubBatches(s, subs, config, draws, k + 1), subs, k + 1, si, at, c)
  {
    var (r, q) := (SubBatches(s, subs, config, draws, k), SubBatches(s, subs, config, draws, k + 1));
    OneMoreSubBatch(s, subs, config, draws, k);
    SubBatchesHang(s, subs, config, draws, k);
    FirstStep(plan, end, r, q, subs, k, config, Draw(draws, r.drawn), Draw(draws, r.drawn + 1), si, at, c);
  }

  lemma {:induction false} FirstTakes(plan: Plan, end: map<nat, real>, s: Built, subs: seq<nat>, config: Config,
                                      draws: seq<nat>, k: nat, si: nat, at: real, c: real)
    requires config.NonNegative() && Follows(plan, end) && k <= |subs| == |s.post| && Underway(s) && si < |subs|
    requires EachTakes(plan, end, config, subs[si], c) && forall i :: 0 <= i < |subs| ==> EndsFrom(end, s.post, i, at)
    requires Begins(SubBatches(s, subs, config, draws, k).plan, plan)
    ensures FirstDone(end, SubBatches(s, subs, config, draws, k), subs, k, si, at, c)
  {
    if k > 0 {
      SubBatchGrows(s, subs, config, draws, k - 1, plan);
      FirstTakes(plan, end, s, subs, config, draws, k - 1, si, at, c);
      OneFirst(plan, end, s, subs, config, draws, k - 1, si, at, c);
    }
  }

  // ---- the layers of a step ----

  /** `x`, `n` times. */
  ghost function Repeated(n: nat, x: real): real {
    if n == 0 then 0.0 else Repeated(n - 1, x) + x
  }

  lemma {:induction false} RepeatedIs(n: nat, x: real)
    ensures Repeated(n, x) == n as real * x
  {
    if n > 0 {
      RepeatedIs(n - 1, x);
      assert n as real * x == (n - 1) as real * x + x;
    }
  }

  /** What `l` layers of `c` take a sub-batch `head` behind in the first. */
  ghost function Trailing(l: nat, head: real, c: real): real {
    if l == 0 then 0.0 else head + Repeated(l, c)
  }

  lemma {:induction false} LayersTake(plan: Plan, end: map<nat, real>, s: Built, subs: seq<nat>, config: Config,
                                      draws: seq<nat>, l: nat, si: nat, at: real, c: real)
    requires config.NonNegative() && Follows(plan, end) && |subs| == |s.post| && si < |subs| && Underway(s)
    requires EachTakes(plan, end, config, subs[si], c) && forall i :: 0 <= i < |subs| ==> EndsFrom(end, s.post, i, at)
    requires Begins(LayersPlan(s, subs, config, draws, l).plan, plan)
    ensures EndsFrom(end, LayersPlan(s, subs, config, draws, l).post, si, at + Trailing(l, Attends(subs, si), c))
  {
    if l == 1 {
      assert LayersPlan(s, subs, config, draws, 0) == s && Repeated(1, c) == Repeated(0, c) + c;
      FirstTakes(plan, end, s, subs, config, draws, |subs|, si, at, c);
    } else if l > 1 {
      var r := LayersPlan(s, subs, config, draws, l - 1);
      SubBatchesGrow(r, subs, config, draws, |subs|, plan);
      LayersTake(plan, end, s, subs, config, draws, l - 1, si, at, c);
      LayersHang(s, subs, config, draws, l - 1);
      SubBatchesTake(plan, end, r, subs, config, draws, |subs|, si, at + Trailing(l - 1, Attends(subs, si), c), c);
    }
  }

  /** The drafter when the sub-batches hold more than one position, a wait when not. */
  ghost function TailPath(config: Config, positions: nat): real {
    if positions > 1 then 0.1 + config.drafter.0 + config.drafter.1 + config.drafter.2 else 0.05
  }

  /** Positions of all sub-batches. */
  ghost function Positions(subs: seq<nat>): nat {
    if subs == [] then 0 else Positions(subs[..|subs| - 1]) + subs[|subs| - 1]
  }

  lemma {:induction false} SumSnoc(s: seq<nat>, x: nat)
    ensures Sum(s + [x]) == Sum(s) + x
  {
    if s == [] {
      assert s + [x] == [x] && [x][1..] == [];
    } else {
      assert (s + [x])[1..] == s[1..] + [x];
      SumSnoc(s[1..], x);
    }
  }

  lemma {:induction false} PositionsIs(subs: seq<nat>)
    ensures Positions(subs) == Sum(subs)
  {
    if subs != [] {
      PositionsIs(subs[..|subs| - 1]);
      SumSnoc(subs[..|subs| - 1], subs[|subs| - 1]);
      assert subs == subs[..|subs| - 1] + [subs[|subs| - 1]];
    }
  }

  ghost function StepPath(config: Config, subs: seq<nat>, si: nat): real
    requires si < |subs|
  {
    (if config.layers == 0 then 0.0 else Attends(subs, si) + Repeated(config.layers, LayerPath(config, subs[si])))
    + 1.4 + TailPath(config, Positions(subs))
  }

  /** The head and what follows it, behind the last task of a sub-batch. */
  lemma TailTakes(plan: Plan, end: map<nat, real>, part: Plan, post: seq<nat>, drafts: bool, config: Config, p: nat,
                  least: real)
    requires config.NonNegative() && Follows(plan, end) && p in post && EndsAfter(end, p, least)
    requires Begins(part + TailPlan(|part|, post, drafts, config), plan)
    ensures EndsAfter(end, |part| + |TailPlan(|part|, post, drafts, config)| - 1,
                      least + 1.4 + TailPath(config, if drafts then 2 else 1))
  {
    var n, tail := |part|, TailPlan(|part|, post, drafts, config);
    BeginsFront(part, tail, plan);
    assert plan[n + 0] == tail[0] && plan[n + 1] == tail[1];
    Chained(plan, end, n, p);
    Chained(plan, end, n + 1, n);
    if drafts {
      assert plan[n + 2] == tail[2] && plan[n + 3] == tail[3] && plan[n + 4] == tail[4];
      Chained(plan, end, n + 2, n + 1);
      Chained(plan, end, n + 3, n + 2);
      Chained(plan, end, n + 4, n + 3);
    }
  }

  /** From the last task of a sub-batch to the end of the step. */
  lemma RestTakes(plan: Plan, end: map<nat, real>, s: Built, config: Config, drafts: bool, si: nat, next: Plan,
                  least: real, e: real)
    requires config.NonNegative() && Follows(plan, end) && si < |s.post| && EndsAfter(end, s.post[si], least)
    requires next == s.plan + TailPlan(|s.plan|, s.post, drafts, config) && Begins(next, plan)
    requires e == TailPath(config, if drafts then 2 else 1)
    ensures EndsAfter(end, |next| - 1, least + 1.4 + e)
  {
    TailTakes(plan, end, s.plan, s.post, drafts, config, s.post[si], least);
  }

  ghost function StepOf(config: Config, subs: seq<nat>, si: nat, c: real, e: real): real
    requires si < |subs|
  {
    Trailing(config.layers, Attends(subs, si), c) + 1.4 + e
  }

  /** `next` is `part` and one more step, whose layers take sub-batch `si` at least `c` each, and its tail `e`. */
  ghost predicate OneStep(plan: Plan, end: map<nat, real>, part: Plan, drawn: nat, subs: seq<nat>, config: Config,
                          draws: seq<nat>, si: nat, next: Plan, c: real, e: real, x: real)
  {
    && config.NonNegative() && Follows(plan, end) && si < |subs| && Rests(part)
    && EachTakes(plan, end, config, subs[si], c) && e == TailPath(config, if Sum(subs) > 1 then 2 else 1)
    && next == StepPlan(part, |part| - 1, drawn, subs, config, draws).plan && x == StepOf(config, subs, si, c, e)
  }

  lemma StepTakes(plan: Plan, end: map<nat, real>, part: Plan, drawn: nat, subs: seq<nat>, config: Config,
                  draws: seq<nat>, si: nat, at: real, next: Plan, c: real, e: real, x: real)
    requires OneStep(plan, end, part, drawn, subs, config, draws, si, next, c, e, x) && Begins(next, plan)
    requires EndsAfter(end, |part| - 1, at)
    ensures EndsAfter(end, |next| - 1, at + x)
  {
    var s := LayersPlan(StepStart(part, |part| - 1, drawn, |subs|), subs, config, draws, config.layers);
    var r := Trailing(config.layers, Attends(subs, si), c);
    BeginsFront(s.plan, TailPlan(|s.plan|, s.post, Sum(subs) > 1, config), plan);
    LayersOfStep(plan, end, part, drawn, subs, config, draws, si, at, |part| - 1, c);
    RestTakes(plan, end, s, config, Sum(subs) > 1, si, next, at + r, e);
  }

  lemma LayersOfStep(plan: Plan, end: map<nat, real>, part: Plan, drawn: nat, subs: seq<nat>, config: Config,
                     draws: seq<nat>, si: nat, at: real, prev: nat, c: real)
    requires config.NonNegative() && Follows(plan, end) && si < |subs| && Rests(part) && prev == |part| - 1
    requires EachTakes(plan, end, config, subs[si], c) && EndsAfter(end, prev, at)
    requires Begins(LayersPlan(StepStart(part, prev, drawn, |subs|), subs, config, draws, config.layers).plan, plan)
    ensures var post := LayersPlan(StepStart(part, prev, drawn, |subs|), subs, config, draws, config.layers).post;
            post[si] in post && EndsAfter(end, post[si], at + Trailing(config.layers, Attends(subs, si), c))
  {
    StartHangs(part, prev, drawn, |subs|);
    LayersTake(plan, end, StepStart(part, prev, drawn, |subs|), subs, config, draws, config.layers, si, at, c);
  }

  lemma TailOf(config: Config, subs: seq<nat>)
    ensures TailPath(config, Positions(subs)) == TailPath(config, if Sum(subs) > 1 then 2 else 1)
  {
    PositionsIs(subs);
  }

  lemma LayersKeep(part: Plan, drawn: nat, subs: seq<nat>, config: Config, draws: seq<nat>, plan: Plan)
    requires config.NonNegative() && part != []
    requires Begins(StepPlan(part, |part| - 1, drawn, subs, config, draws).plan, plan)
    ensures Begins(part, plan)
  {
    var s0 := StepStart(part, |part| - 1, drawn, |subs|);
    var s := LayersPlan(s0, subs, config, draws, config.layers);
    BeginsFront(s.plan, TailPlan(|s.plan|, s.post, Sum(subs) > 1, config), plan);
    LayersGrow(s0, subs, config, draws, config.layers, plan);
  }

  lemma {:induction false} LayersGrow(s: Built, subs: seq<nat>, config: Config, draws: seq<nat>, l: nat, plan: Plan)
    requires config.NonNegative() && |subs| == |s.post| && Begins(LayersPlan(s, subs, config, draws, l).plan, plan)
    ensures Begins(s.plan, plan)
  {
    if l > 0 {
      var r := LayersPlan(s, subs, config, draws, l - 1);
      SubBatchesGrow(r, subs, config, draws, |subs|, plan);
      LayersGrow(s, subs, config, draws, l - 1, plan);
    }
  }

  lemma NextPlan(subs: seq<nat>, config: Config, draws: seq<nat>, steps: nat)
    requires config.NonNegative()
    ensures var s := BuildPlan(subs, config, draws, steps);
            s.plan != [] &&
            BuildPlan(subs, config, draws, steps + 1).plan ==
            StepPlan(s.plan, |s.plan| - 1, s.drawn, subs, config, draws).plan
  {
    assert BuildPlan(subs, config, draws, steps + 1) == NextStep(subs, config, draws, steps);
  }

  /** If `next` begins the plan so does `part`, and the last task of `next` ends `x` after that of `part`. */
  ghost predicate Longer(plan: Plan, end: map<nat, real>, part: Plan, next: Plan, x: real) {
    && part != [] && next != []
    && (Begins(next, plan) ==> Begins(part, plan) &&
                               |part| - 1 in end && EndsAfter(end, |next| - 1, end[|part| - 1] + x))
  }

  lemma StepIsLonger(plan: Plan, end: map<nat, real>, part: Plan, drawn: nat, subs: seq<nat>, config: Config,
                     draws: seq<nat>, si: nat, next: Plan, c: real, e: real, x: real)
    requires OneStep(plan, end, part, drawn, subs, config, draws, si, next, c, e, x)
    ensures Longer(plan, end, part, next, x)
  {
    if Begins(next, plan) {
      LayersKeep(part, drawn, subs, config, draws, plan);
      LastIn(plan, end, part);
      StepTakes(plan, end, part, drawn, subs, config, draws, si, end[|part| - 1], next, c, e, x);
    }
  }

  lemma LastIn(plan: Plan, end: map<nat, real>, part: Plan)
    requires Follows(plan, end) && part != [] && Begins(part, plan)
    ensures |part| - 1 in end
  {
    assert Waited(plan, end, |part| - 1);
  }

  lemma PlanIsLonger(plan: Plan, end: map<nat, real>, subs: seq<nat>, config: Config, draws: seq<nat>, steps: nat,
                     si: nat, c: real, e: real, x: real)
    requires config.NonNegative() && Follows(plan, end) && si < |subs| && x == StepOf(config, subs, si, c, e)
    requires EachTakes(plan, end, config, subs[si], c) && e == TailPath(config, if Sum(subs) > 1 then 2 else 1)
    ensures Longer(plan, end, BuildPlan(subs, config, draws, steps).plan,
                   BuildPlan(subs, config, draws, steps + 1).plan, x)
  {
    var s := BuildPlan(subs, config, draws, steps);
    NextPlan(subs, config, draws, steps);
    BuildHangs(subs, config, draws, steps);
    StepIsLonger(plan, end, s.plan, s.drawn, subs, config, draws, si,
                 BuildPlan(subs, config, draws, steps + 1).plan, c, e, x);
  }

  lemma {:induction false} FrontsTake(plan: Plan, end: map<nat, real>, fronts: seq<Plan>, n: nat, x: real)
    requires n < |fronts| && Begins(fronts[n], plan) && Follows(plan, end) && fronts[0] == [ROOT]
    requires forall i :: 0 <= i < n ==> Longer(plan, end, fronts[i], fronts[i + 1], x)
    ensures fronts[n] != [] && EndsAfter(end, |fronts[n]| - 1, Repeated(n, x))
  {
    if n == 0 {
      assert Waited(plan, end, 0);
    } else {
      assert Longer(plan, end, fronts[n - 1], fronts[n - 1 + 1], x);
      FrontsTake(plan, end, fronts, n - 1, x);
    }
  }

  /** The plan after every number of steps. */
  ghost function Fronts(subs: seq<nat>, config: Config, draws: seq<nat>, steps: nat): (fronts: seq<Plan>)
    requires config.NonNegative()
    ensures |fronts| == steps + 1 && fronts[0] == [ROOT]
    ensures fronts[steps] == BuildPlan(subs, config, draws, steps).plan
  {
    seq(steps + 1, i requires 0 <= i <= steps => BuildPlan(subs, config, draws, i).plan)
  }

  lemma FrontIsLonger(plan: Plan, end: map<nat, real>, subs: seq<nat>, config: Config, draws: seq<nat>, steps: nat,
                      i: nat, si: nat, c: real, e: real, x: real)
    requires config.NonNegative() && Follows(plan, end) && si < |subs| && x == StepOf(config, subs, si, c, e)
    requires EachTakes(plan, end, config, subs[si], c) && e == TailPath(config, if Sum(subs) > 1 then 2 else 1)
    requires i < steps
    ensures var fronts := Fronts(subs, config, draws, steps); Longer(plan, end, fronts[i], fronts[i + 1], x)
  {
    PlanIsLonger(plan, end, subs, config, draws, i, si, c, e, x);
  }

  lemma FrontsAreLonger(plan: Plan, end: map<nat, real>, subs: seq<nat>, config: Config, draws: seq<nat>, steps: nat,
                        si: nat, c: real, e: real, x: real)
    requires config.NonNegative() && Follows(plan, end) && si < |subs| && x == StepOf(config, subs, si, c, e)
    requires EachTakes(plan, end, config, subs[si], c) && e == TailPath(config, if Sum(subs) > 1 then 2 else 1)
    ensures var fronts := Fronts(subs, config, draws, steps);
            forall i :: 0 <= i < steps ==> Longer(plan, end, fronts[i], fronts[i + 1], x)
  {
    var fronts := Fronts(subs, config, draws, steps);
    forall i | 0 <= i < steps
      ensures Longer(plan, end, fronts[i], fronts[i + 1], x)
    {
      FrontIsLonger(plan, end, subs, config, draws, steps, i, si, c, e, x);
    }
  }

  lemma RunTakesEach(plan: Plan, end: map<nat, real>, subs: seq<nat>, config: Config, draws: seq<nat>, steps: nat,
                     si: nat, c: real, e: real, x: real)
    requires config.NonNegative() && Follows(plan, end) && si < |subs| && x == StepOf(config, subs, si, c, e)
    requires EachTakes(plan, end, config, subs[si], c) && e == TailPath(config, if Sum(subs) > 1 then 2 else 1)
    requires plan == BuildPlan(subs, config, draws, steps).plan
    ensures EndsAfter(end, |plan| - 1, Repeated(steps, x))
  {
    FrontsAreLonger(plan, end, subs, config, draws, steps, si, c, e, x);
    assert plan[..|plan|] == plan;
    FrontsTake(plan, end, Fronts(subs, config, draws, steps), steps, x);
  }

  /** A run takes at least, every step, the path of any of its sub-batches. */
  lemma RunTakes(plan: Plan, end: map<nat, real>, subs: seq<nat>, config: Config, draws: seq<nat>, steps: nat, si: nat)
    requires config.NonNegative() && Follows(plan, end) && si < |subs|
    requires plan == BuildPlan(subs, config, draws, steps).plan
    ensures EndsAfter(end, |plan| - 1, Repeated(steps, StepPath(config, subs, si)))
  {
    var c := LayerPath(config, subs[si]);
    LayersTakePath(plan, end, config, subs[si]);
    TailOf(config, subs);
    RunTakesEach(plan, end, subs, config, draws, steps, si, c, TailPath(config, if Sum(subs) > 1 then 2 else 1),
                 StepPath(config, subs, si));
  }
}
