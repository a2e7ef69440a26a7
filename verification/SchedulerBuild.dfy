/** Building the task graph and simulating it (scripts/sched_sim2.py, `dep` and `simulate`). */
module SchedulerBuild {
  import opened Prelude
  import opened Scheduler

  const PICK: real := 0.088
  const SHARED: real := 0.05
  const MISS: real := 4.82
  const LINK_BW: real := 1500000.0

  /** `ATT`. */
  function Attention(b: nat): (r: real)
    ensures r >= 0.55
  {
    0.55 + 0.03 * (b as real - 1.0) + 0.03
  }

  /** Arguments of `simulate` that set durations, all times or shares, and the layers (40 in the script). */
  datatype Config = Config(layers: nat, rtt: real, localShare: real, remoteShare: real, drafter: (real, real, real)) {
    predicate NonNegative() {
      rtt >= 0.0 && localShare >= 0.0 && remoteShare >= 0.0 && drafter.0 >= 0.0 && drafter.1 >= 0.0 && drafter.2 >= 0.0
    }

    /** Link time of `bytes` per position, one way. */
    function Link(b: nat, bytes: real): (r: real)
      requires NonNegative() && bytes >= 0.0
      ensures r >= 0.0
    {
      assert b as real * bytes >= 0.0;
      rtt / 2.0 + b as real * bytes / LINK_BW
    }

    /** Time of the picks of `b` positions with a share of them on one box. */
    function Picks(b: nat, share: real): (r: real)
      requires share >= 0.0
      ensures r >= 0.0
    {
      assert 6.0 * b as real * share >= 0.0;
      6.0 * b as real * share * PICK
    }

    /** Time of the shared expert. */
    function Shared(b: nat): (r: real)
      ensures r >= 0.06
    {
      0.06 + Picks(b, SHARED) * 214.0 / 640.0
    }
  }

  // ---- what is built ----

  /** A task as it is asked for: what it runs on, for how long, and after which tasks. */
  datatype Node = Node(res: Option<Resource>, dur: real, preds: seq<nat>)

  type Plan = seq<Node>

  function Range(n: nat, k: nat): (r: seq<nat>)
    ensures |r| == k
  {
    seq(k, i requires 0 <= i < k => n + i)
  }

  /** `k` NVMe reads behind task `a`. */
  function Reads(on: Resource, a: nat, k: nat): Plan {
    seq(k, i requires 0 <= i < k => Node(Some(on), MISS, [a]))
  }

  /** Attention: after what the sub-batch did last and the attention of the sub-batch before it. */
  function AttendNode(prev: nat, before: Option<nat>, b: nat): Node {
    Node(Some(Dgpu), Attention(b), if before.Some? then [prev, before.value] else [prev])
  }

  /** `e1`, `j1`, the reads and `e1b`, from task `n` on. */
  function LocalPlan(n: nat, a: nat, picks: real, misses: nat): (p: Plan)
    ensures |p| == misses + 3
  {
    [Node(Some(Igpu1), picks, [a]), Node(None, 0.0, [n] + Range(n + 2, misses))]
    + Reads(Nvme1, a, misses)
    + [Node(Some(Igpu1), misses as real * PICK, [n + 1])]
  }

  /** `out`, `e2` and `j2`, from task `n` on, before `j2` waits for reads. */
  function AwayPlan(n: nat, a: nat, there: real, picks: real): Plan {
    [Node(None, there, [a]), Node(Some(Igpu2), picks, [n]), Node(None, 0.0, [n + 1])]
  }

  /** `out`, `e2`, `j2`, the reads, `e2b` and `back`, from task `n` on. */
  function RemotePlan(n: nat, a: nat, there: real, picks: real, misses: nat, home: real): (p: Plan)
    ensures |p| == misses + 5
  {
    [Node(None, there, [a]), Node(Some(Igpu2), picks, [n]), Node(None, 0.0, [n + 1] + Range(n + 3, misses))]
    + Reads(Nvme2, n, misses)
    + [Node(Some(Igpu2), misses as real * PICK, [n + 2]), Node(None, home, [n + 3 + misses])]
  }

  /** `e3` and `post`, from task `n` on. */
  function MergePlan(n: nat, a: nat, e1b: nat, back: nat, shared: real): Plan {
    [Node(Some(Dgpu), shared, [a]), Node(Some(Dgpu), 0.02, [e1b, back, n])]
  }

  /** One layer of one sub-batch of `b` positions, from task `n` on; its last task is `post`. */
  function LayerPlan(n: nat, prev: nat, before: Option<nat>, b: nat, config: Config, n1: nat, n2: nat): (p: Plan)
    requires config.NonNegative()
    ensures |p| == n1 + n2 + 11
  {
    [AttendNode(prev, before, b)]
    + LocalPlan(n + 1, n, config.Picks(b, config.localShare), n1)
    + RemotePlan(n + 4 + n1, n, config.Link(b, 6000.0), config.Picks(b, config.remoteShare), n2,
        config.Link(b, 20000.0))
    + MergePlan(n + 9 + n1 + n2, n, n + 3 + n1, n + 8 + n1 + n2, config.Shared(b))
  }

  /** The plan so far, the last task of every sub-batch, the attention of the last one, and the draws used. */
  datatype Built = Built(plan: Plan, post: seq<nat>, before: Option<nat>, drawn: nat)

  ghost predicate InPlan(s: Built) {
    && (forall si :: 0 <= si < |s.post| ==> s.post[si] < |s.plan|)
    && (s.before.Some? ==> s.before.value < |s.plan|)
  }

  /** The Poisson draws are any list, long enough for the run; there are none past its end. */
  function Draw(draws: seq<nat>, i: nat): nat {
    if i < |draws| then draws[i] else 0
  }

  /** A layer of sub-batch `k`, of size `b`, is added. */
  function Followed(r: Built, k: nat, b: nat, config: Config, draws: seq<nat>): (q: Built)
    requires config.NonNegative() && k < |r.post|
    ensures |q.post| == |r.post|
  {
    var n, n1, n2 := |r.plan|, Draw(draws, r.drawn), Draw(draws, r.drawn + 1);
    Built(r.plan + LayerPlan(n, r.post[k], r.before, b, config, n1, n2),
          r.post[k := n + 10 + n1 + n2], Some(n), r.drawn + 2)
  }

  /** The first `k` sub-batches of a layer; each attention follows the one before it. */
  function SubBatches(s: Built, subs: seq<nat>, config: Config, draws: seq<nat>, k: nat): (r: Built)
    requires config.NonNegative() && k <= |subs| == |s.post|
    ensures |r.post| == |s.post|
    decreases k, 0
  {
    if k == 0 then s.(before := None) else NextSubBatch(s, subs, config, draws, k - 1)
  }

  /** And one more. */
  function NextSubBatch(s: Built, subs: seq<nat>, config: Config, draws: seq<nat>, k: nat): (r: Built)
    requires config.NonNegative() && k < |subs| == |s.post|
    ensures |r.post| == |s.post|
    decreases k, 1
  {
    Followed(SubBatches(s, subs, config, draws, k), k, subs[k], config, draws)
  }

  /** The first `l` layers of a step. */
  function LayersPlan(s: Built, subs: seq<nat>, config: Config, draws: seq<nat>, l: nat): (r: Built)
    requires config.NonNegative() && |subs| == |s.post|
    ensures |r.post| == |s.post|
  {
    if l == 0 then s else SubBatches(LayersPlan(s, subs, config, draws, l - 1), subs, config, draws, |subs|)
  }

  /** What follows the head: the drafter, or a plain wait. */
  function AfterHead(n: nat, drafts: bool, config: Config): (p: Plan)
    ensures |p| >= 1
  {
    if drafts then
      [Node(None, 0.1, [n]), Node(Some(Dgpu), config.drafter.0, [n + 1]), Node(Some(Igpu1), config.drafter.1, [n + 2]),
       Node(Some(Dgpu), config.drafter.2, [n + 3])]
    else [Node(None, 0.05, [n])]
  }

  /** The head waits for every sub-batch. */
  function TailPlan(n: nat, post: seq<nat>, drafts: bool, config: Config): (p: Plan)
    ensures |p| >= 2
  {
    [Node(Some(Dgpu), 1.4, post)] + AfterHead(n, drafts, config)
  }

  function StepStart(plan: Plan, prev: nat, drawn: nat, k: nat): (s: Built)
    ensures |s.post| == k
  {
    Built(plan, seq(k, _ => prev), None, drawn)
  }

  function Sum(s: seq<nat>): nat {
    if s == [] then 0 else s[0] + Sum(s[1..])
  }

  /** One step behind task `prev`; its last task ends it. */
  function StepPlan(plan: Plan, prev: nat, drawn: nat, subs: seq<nat>, config: Config, draws: seq<nat>): (s: Built)
    requires config.NonNegative()
    ensures |s.plan| >= 1
  {
    var s := LayersPlan(StepStart(plan, prev, drawn, |subs|), subs, config, draws, config.layers);
    s.(plan := s.plan + TailPlan(|s.plan|, s.post, Sum(subs) > 1, config))
  }

  const ROOT := Node(None, 0.0, [])

  /** The plan of `simulate`: the root, then the steps, each behind the last task of the one before. */
  function BuildPlan(subs: seq<nat>, config: Config, draws: seq<nat>, steps: nat): (s: Built)
    requires config.NonNegative()
    ensures |s.plan| >= 1
    decreases steps, 0
  {
    if steps == 0 then Built([ROOT], [], None, 0) else NextStep(subs, config, draws, steps - 1)
  }

  function NextStep(subs: seq<nat>, config: Config, draws: seq<nat>, steps: nat): (s: Built)
    requires config.NonNegative()
    ensures |s.plan| >= 1
    decreases steps, 1
  {
    var s := BuildPlan(subs, config, draws, steps);
    StepPlan(s.plan, |s.plan| - 1, s.drawn, subs, config, draws)
  }

  // ---- the shape of a plan: one source, what is open, no cycle ----

  /** Some task waits for `t`. */
  ghost predicate Feeds(plan: Plan, t: nat) {
    exists u :: 0 <= u < |plan| && t in plan[u].preds
  }

  /** Every task but the root waits, only for tasks ranked lower, and takes no negative time. */
  ghost predicate NodeFine(plan: Plan, rank: seq<nat>, top: nat, t: nat)
    requires t < |plan| == |rank|
  {
    && plan[t].dur >= 0.0 && rank[t] < top && (plan[t].preds == [] <==> t == 0)
    && forall p :: p in plan[t].preds ==> p < |plan| && rank[p] < rank[t]
  }

  /** The first `n` tasks are fine, ranked below `top`, and waited for unless in `open`. */
  ghost predicate ShapedTo(plan: Plan, rank: seq<nat>, top: nat, open: set<nat>, n: nat)
    requires n <= |plan| == |rank|
  {
    n == 0 || (ShapedTo(plan, rank, top, open, n - 1) && NodeFine(plan, rank, top, n - 1) &&
               (n - 1 in open || Feeds(plan, n - 1)))
  }

  ghost predicate Shaped(plan: Plan, rank: seq<nat>, top: nat, open: set<nat>) {
    1 <= |plan| == |rank| && ShapedTo(plan, rank, top, open, |plan|)
  }

  lemma {:induction false} ShapedAt(plan: Plan, rank: seq<nat>, top: nat, open: set<nat>, n: nat, t: nat)
    requires t < n <= |plan| == |rank| && ShapedTo(plan, rank, top, open, n)
    ensures NodeFine(plan, rank, top, t) && (t in open || Feeds(plan, t))
  {
    if t < n - 1 {
      ShapedAt(plan, rank, top, open, n - 1, t);
    }
  }

  lemma {:induction false} ShapedAll(plan: Plan, rank: seq<nat>, top: nat, open: set<nat>, n: nat)
    requires n <= |plan| == |rank|
    requires forall t :: 0 <= t < n ==> NodeFine(plan, rank, top, t) && (t in open || Feeds(plan, t))
    ensures ShapedTo(plan, rank, top, open, n)
  {
    if n > 0 {
      ShapedAll(plan, rank, top, open, n - 1);
    }
  }

  /** A node appended at `n + i` with rank `ranks[i]`: it waits for old tasks, or new ones ranked lower. */
  ghost predicate NewFine(n: nat, more: Plan, ranks: seq<nat>, top: nat, top': nat, i: nat)
    requires i < |more| == |ranks|
  {
    && more[i].dur >= 0.0 && top <= ranks[i] < top' && more[i].preds != []
    && forall p :: p in more[i].preds ==> p < n || (p < n + |more| && ranks[p - n] < ranks[i])
  }

  ghost predicate Piece(n: nat, more: Plan, ranks: seq<nat>, top: nat, top': nat) {
    |more| == |ranks| && top <= top' && forall i :: 0 <= i < |more| ==> NewFine(n, more, ranks, top, top', i)
  }

  /** What is open once the piece is appended: old tasks it does not wait for, and some of its own. */
  ghost predicate Opens(n: nat, more: Plan, open: set<nat>, open': set<nat>) {
    && (forall t :: t in open && t !in open' ==> Feeds(more, t))
    && (forall t :: n <= t < n + |more| && t !in open' ==> Feeds(more, t))
  }

  lemma FeedsGrows(plan: Plan, more: Plan, t: nat)
    ensures Feeds(plan, t) || Feeds(more, t) ==> Feeds(plan + more, t)
  {
    var all := plan + more;
    if Feeds(plan, t) {
      var u :| 0 <= u < |plan| && t in plan[u].preds;
      assert all[u] == plan[u];
    } else if Feeds(more, t) {
      var u :| 0 <= u < |more| && t in more[u].preds;
      assert all[|plan| + u] == more[u];
    }
  }

  lemma NodeGrows(plan: Plan, rank: seq<nat>, top: nat, more: Plan, ranks: seq<nat>, top': nat, t: nat)
    requires |plan| == |rank| && |more| == |ranks| && 1 <= |plan| && top <= top' && t < |plan| + |more|
    requires forall u :: 0 <= u < |plan| ==> NodeFine(plan, rank, top, u)
    requires t >= |plan| ==> NewFine(|plan|, more, ranks, top, top', t - |plan|)
    ensures NodeFine(plan + more, rank + ranks, top', t)
  {
    if t < |plan| {
      assert NodeFine(plan, rank, top, t);
    } else {
      forall p | p in more[t - |plan|].preds
        ensures p < |plan| + |more| && (rank + ranks)[p] < (rank + ranks)[t]
      {
        if p < |plan| {
          assert NodeFine(plan, rank, top, p);
        }
      }
    }
  }

  /** Appending a piece keeps the shape. */
  lemma ShapeGrows(plan: Plan, rank: seq<nat>, top: nat, open: set<nat>, more: Plan, ranks: seq<nat>, top': nat,
                   open': set<nat>)
    requires Shaped(plan, rank, top, open) && Piece(|plan|, more, ranks, top, top') && Opens(|plan|, more, open, open')
    ensures Shaped(plan + more, rank + ranks, top', open')
  {
    forall t | 0 <= t < |plan|
      ensures NodeFine(plan, rank, top, t) && (t in open || Feeds(plan, t))
    {
      ShapedAt(plan, rank, top, open, |plan|, t);
    }
    forall t | 0 <= t < |plan + more|
      ensures NodeFine(plan + more, rank + ranks, top', t) && (t in open' || Feeds(plan + more, t))
    {
      assert t >= |plan| ==> NewFine(|plan|, more, ranks, top, top', t - |plan|);
      NodeGrows(plan, rank, top, more, ranks, top', t);
      FeedsGrows(plan, more, t);
    }
    ShapedAll(plan + more, rank + ranks, top', open', |plan + more|);
  }

  // ---- the pieces ----

  lemma FeedsAt(plan: Plan, u: nat, t: nat)
    requires u < |plan| && t in plan[u].preds
    ensures Feeds(plan, t)
  {
  }

  lemma OneNode(n: nat, node: Node, top: nat, open: set<nat>)
    requires node.dur >= 0.0 && node.preds != [] && forall p :: p in node.preds ==> p < n
    ensures Piece(n, [node], [top], top, top + 1)
    ensures Opens(n, [node], open, (set t | t in open && t !in node.preds) + {n})
  {
    forall t: nat | t in node.preds
      ensures Feeds([node], t)
    {
      FeedsAt([node], 0, t);
    }
  }

  function LocalRanks(top: nat, misses: nat): (r: seq<nat>)
    ensures |r| == misses + 3
  {
    [top, top + 2] + seq(misses, _ => top + 1) + [top + 3]
  }

  lemma LocalPiece(n: nat, a: nat, picks: real, misses: nat, top: nat)
    requires a < n && picks >= 0.0
    ensures Piece(n, LocalPlan(n, a, picks, misses), LocalRanks(top, misses), top, top + 4)
  {
    var (more, ranks, top') := (LocalPlan(n, a, picks, misses), LocalRanks(top, misses), top + 4);
    forall i | 0 <= i < |more|
      ensures NewFine(n, more, ranks, top, top', i)
    {
      if i == 1 {
        assert more[1].preds == [n] + Range(n + 2, misses);
      } else if 2 <= i < misses + 2 {
        assert more[i] == Node(Some(Nvme1), MISS, [a]);
      }
    }
  }

  lemma LocalOpens(n: nat, a: nat, picks: real, misses: nat, open: set<nat>)
    requires a < n
    ensures Opens(n, LocalPlan(n, a, picks, misses), open, open - {a} + {n + misses + 2})
  {
    var more := LocalPlan(n, a, picks, misses);
    FeedsAt(more, 0, a);
    FeedsAt(more, 1, n);
    FeedsAt(more, misses + 2, n + 1);
    forall t: nat | n <= t < n + |more| && t != n + misses + 2
      ensures Feeds(more, t)
    {
      if t >= n + 2 {
        assert more[1].preds[1 + (t - n - 2)] == t;
        FeedsAt(more, 1, t);
      }
    }
  }

  function RemoteRanks(top: nat, misses: nat): (r: seq<nat>)
    ensures |r| == misses + 5
  {
    [top, top + 1, top + 2] + seq(misses, _ => top + 1) + [top + 3, top + 4]
  }

  lemma RemotePiece(n: nat, a: nat, there: real, picks: real, misses: nat, home: real, top: nat)
    requires a < n && there >= 0.0 && picks >= 0.0 && home >= 0.0
    ensures Piece(n, RemotePlan(n, a, there, picks, misses, home), RemoteRanks(top, misses), top, top + 5)
  {
    var (more, ranks, top') := (RemotePlan(n, a, there, picks, misses, home), RemoteRanks(top, misses), top + 5);
    forall i | 0 <= i < |more|
      ensures NewFine(n, more, ranks, top, top', i)
    {
      if i == 2 {
        assert more[2].preds == [n + 1] + Range(n + 3, misses);
      } else if 3 <= i < misses + 3 {
        assert more[i] == Node(Some(Nvme2), MISS, [n]);
      }
    }
  }

  lemma RemoteFeeds(n: nat, a: nat, there: real, picks: real, misses: nat, home: real, t: nat)
    requires n <= t < n + misses + 4
    ensures Feeds(RemotePlan(n, a, there, picks, misses, home), t)
  {
    var more := RemotePlan(n, a, there, picks, misses, home);
    if t == n {
      FeedsAt(more, 1, t);
    } else if t == n + 1 {
      FeedsAt(more, 2, t);
    } else if t == n + 2 {
      FeedsAt(more, misses + 3, t);
    } else if t < n + misses + 3 {
      assert more[2].preds[1 + (t - n - 3)] == t;
      FeedsAt(more, 2, t);
    } else {
      FeedsAt(more, misses + 4, t);
    }
  }

  lemma RemoteOpens(n: nat, a: nat, there: real, picks: real, misses: nat, home: real, open: set<nat>)
    ensures Opens(n, RemotePlan(n, a, there, picks, misses, home), open, open + {n + misses + 4})
  {
    forall t: nat | n <= t < n + misses + 4
      ensures Feeds(RemotePlan(n, a, there, picks, misses, home), t)
    {
      RemoteFeeds(n, a, there, picks, misses, home, t);
    }
  }

  lemma MergeFits(n: nat, a: nat, e1b: nat, back: nat, shared: real, top: nat, open: set<nat>)
    requires a < n && e1b < n && back < n && shared >= 0.0
    ensures Piece(n, MergePlan(n, a, e1b, back, shared), [top, top + 1], top, top + 2)
    ensures Opens(n, MergePlan(n, a, e1b, back, shared), open, open - {e1b, back} + {n + 1})
  {
    var more := MergePlan(n, a, e1b, back, shared);
    FeedsAt(more, 1, e1b);
    FeedsAt(more, 1, back);
    FeedsAt(more, 1, n);
  }

  /** A plan of which only the tasks of `open` may be left unwaited for. */
  ghost predicate Hangs(plan: Plan, open: set<nat>) {
    exists rank: seq<nat>, top: nat :: Shaped(plan, rank, top, open)
  }

  lemma HangsGrows(plan: Plan, rank: seq<nat>, top: nat, open: set<nat>, more: Plan, ranks: seq<nat>, top': nat,
                   open': set<nat>)
    requires Shaped(plan, rank, top, open) && Piece(|plan|, more, ranks, top, top') && Opens(|plan|, more, open, open')
    ensures Hangs(plan + more, open')
  {
    ShapeGrows(plan, rank, top, open, more, ranks, top', open');
  }

  lemma NodeHangs(plan: Plan, open: set<nat>, node: Node, open': set<nat>)
    requires Hangs(plan, open) && node.dur >= 0.0 && node.preds != [] && forall p :: p in node.preds ==> p < |plan|
    requires forall t :: t in open && t !in node.preds ==> t in open'
    requires |plan| in open'
    ensures Hangs(plan + [node], open')
  {
    var rank: seq<nat>, top: nat :| Shaped(plan, rank, top, open);
    OneNode(|plan|, node, top, open);
    assert Opens(|plan|, [node], open, open');
    HangsGrows(plan, rank, top, open, [node], [top], top + 1, open');
  }

  lemma LocalHangs(plan: Plan, open: set<nat>, a: nat, picks: real, misses: nat)
    requires Hangs(plan, open) && a < |plan| && picks >= 0.0
    ensures Hangs(plan + LocalPlan(|plan|, a, picks, misses), open - {a} + {|plan| + misses + 2})
  {
    var rank: seq<nat>, top: nat :| Shaped(plan, rank, top, open);
    LocalPiece(|plan|, a, picks, misses, top);
    LocalOpens(|plan|, a, picks, misses, open);
    HangsGrows(plan, rank, top, open, LocalPlan(|plan|, a, picks, misses), LocalRanks(top, misses), top + 4,
               open - {a} + {|plan| + misses + 2});
  }

  lemma RemoteHangs(plan: Plan, open: set<nat>, a: nat, there: real, picks: real, misses: nat, home: real)
    requires Hangs(plan, open) && a < |plan| && there >= 0.0 && picks >= 0.0 && home >= 0.0
    ensures Hangs(plan + RemotePlan(|plan|, a, there, picks, misses, home), open + {|plan| + misses + 4})
  {
    var rank: seq<nat>, top: nat :| Shaped(plan, rank, top, open);
    RemotePiece(|plan|, a, there, picks, misses, home, top);
    RemoteOpens(|plan|, a, there, picks, misses, home, open);
    HangsGrows(plan, rank, top, open, RemotePlan(|plan|, a, there, picks, misses, home), RemoteRanks(top, misses),
        top + 5,
               open + {|plan| + misses + 4});
  }

  lemma MergeHangs(plan: Plan, open: set<nat>, a: nat, e1b: nat, back: nat, shared: real)
    requires Hangs(plan, open) && a < |plan| && e1b < |plan| && back < |plan| && shared >= 0.0
    ensures Hangs(plan + MergePlan(|plan|, a, e1b, back, shared), open - {e1b, back} + {|plan| + 1})
  {
    var rank: seq<nat>, top: nat :| Shaped(plan, rank, top, open);
    MergeFits(|plan|, a, e1b, back, shared, top, open);
    HangsGrows(plan, rank, top, open, MergePlan(|plan|, a, e1b, back, shared), [top, top + 1], top + 2,
               open - {e1b, back} + {|plan| + 1});
  }

  lemma HangsFewer(plan: Plan, open: set<nat>, open': set<nat>)
    requires Hangs(plan, open) && forall t :: t in open && t < |plan| ==> t in open'
    ensures Hangs(plan, open')
  {
    var rank: seq<nat>, top: nat :| Shaped(plan, rank, top, open);
    forall t | 0 <= t < |plan|
      ensures NodeFine(plan, rank, top, t) && (t in open' || Feeds(plan, t))
    {
      ShapedAt(plan, rank, top, open, |plan|, t);
    }
    ShapedAll(plan, rank, top, open', |plan|);
    assert Shaped(plan, rank, top, open');
  }

  /** Attention and the picks computed here leave only `e1b` open. */
  lemma HereHangs(plan: Plan, open: set<nat>, prev: nat, before: Option<nat>, b: nat, picks: real, n1: nat)
    requires Hangs(plan, open) && prev < |plan| && (before.Some? ==> before.value < |plan|) && picks >= 0.0
    requires forall t :: t in open ==> t < |plan|
    ensures var n := |plan|;
            Hangs(plan + [AttendNode(prev, before, b)] + LocalPlan(n + 1, n, picks, n1), open - {prev} + {n + n1 + 3})
  {
    var n := |plan|;
    var p1, o1 := plan + [AttendNode(prev, before, b)], open - {prev} + {n};
    NodeHangs(plan, open, AttendNode(prev, before, b), o1);
    LocalHangs(p1, o1, n, picks, n1);
    HangsFewer(p1 + LocalPlan(n + 1, n, picks, n1), o1 - {n} + {n + 1 + n1 + 2}, open - {prev} + {n + n1 + 3});
  }

  /** The other box and the merge close `e1b` and leave only `post` open. */
  lemma ThereHangs(plan: Plan, open: set<nat>, a: nat, e1b: nat, there: real, picks: real, n2: nat, home: real,
                   shared: real)
    requires Hangs(plan, open) && a < |plan| && e1b < |plan| && there >= 0.0 && picks >= 0.0 && home >= 0.0 &&
             shared >= 0.0
    ensures var n := |plan|;
            Hangs(plan + RemotePlan(n, a, there, picks, n2, home)
                + MergePlan(n + 5 + n2, a, e1b, n + 5 + n2 - 1, shared),
                  open - {e1b} + {n + 6 + n2})
  {
    var n := |plan|;
    var p1, o1 := plan + RemotePlan(n, a, there, picks, n2, home), open + {n + n2 + 4};
    RemoteHangs(plan, open, a, there, picks, n2, home);
    MergeHangs(p1, o1, a, e1b, n + n2 + 4, shared);
    HangsFewer(p1 + MergePlan(n + 5 + n2, a, e1b, n + 5 + n2 - 1, shared), o1 - {e1b, n + n2 + 4} + {n + 5 + n2 + 1},
               open - {e1b} + {n + 6 + n2});
  }

  /** One layer of one sub-batch closes what the sub-batch did last and leaves only its own last task open. */
  lemma LayerHangs(plan: Plan, open: set<nat>, prev: nat, before: Option<nat>, b: nat, config: Config, n1: nat, n2: nat)
    requires Hangs(plan, open) && prev < |plan| && (before.Some? ==> before.value < |plan|) && config.NonNegative()
    requires forall t :: t in open ==> t < |plan|
    ensures Hangs(plan + LayerPlan(|plan|, prev, before, b, config, n1, n2), open - {prev} + {|plan| + 10 + n1 + n2})
  {
    var n := |plan|;
    var p1 := plan + [AttendNode(prev, before, b)] + LocalPlan(n + 1, n, config.Picks(b, config.localShare), n1);
    var o1 := open - {prev} + {n + n1 + 3};
    HereHangs(plan, open, prev, before, b, config.Picks(b, config.localShare), n1);
    ThereHangs(p1, o1, n, n + n1 + 3, config.Link(b, 6000.0), config.Picks(b, config.remoteShare), n2,
        config.Link(b, 20000.0),
               config.Shared(b));
    LayerPlanIs(plan, n, prev, before, b, config, n1, n2);
    HangsFewer(plan + LayerPlan(n, prev, before, b, config, n1, n2), o1 - {n + n1 + 3} + {n + 10 + n1 + n2},
               open - {prev} + {n + 10 + n1 + n2});
  }

  lemma LayerPlanIs(plan: Plan, n: nat, prev: nat, before: Option<nat>, b: nat, config: Config, n1: nat, n2: nat)
    requires config.NonNegative()
    ensures plan + [AttendNode(prev, before, b)]
            + LocalPlan(n + 1, n, config.Picks(b, config.localShare), n1)
            + RemotePlan(n + 4 + n1, n, config.Link(b, 6000.0), config.Picks(b, config.remoteShare), n2,
                config.Link(b, 20000.0))
            + MergePlan(n + 9 + n1 + n2, n, n + 3 + n1, n + 9 + n1 + n2 - 1, config.Shared(b)) ==
            plan + LayerPlan(n, prev, before, b, config, n1, n2)
  {
  }

  // ---- the whole plan ----

  ghost function Ends(post: seq<nat>): set<nat> {
    set t | t in post
  }

  /** Everything is in the plan, and only the last tasks of the sub-batches are open. */
  ghost predicate Underway(s: Built) {
    InPlan(s) && Hangs(s.plan, Ends(s.post))
  }

  lemma {:induction false} SubBatchesHang(s: Built, subs: seq<nat>, config: Config, draws: seq<nat>, k: nat)
    requires config.NonNegative() && k <= |subs| == |s.post| && Underway(s)
    ensures Underway(SubBatches(s, subs, config, draws, k))
  {
    if k > 0 {
      SubBatchesHang(s, subs, config, draws, k - 1);
      NextHangs(s, subs, config, draws, k - 1);
    } else {
      FirstHangs(s);
    }
  }

  lemma FirstHangs(s: Built)
    requires Underway(s)
    ensures Underway(s.(before := None))
  {
  }

  lemma NextHangs(s: Built, subs: seq<nat>, config: Config, draws: seq<nat>, k: nat)
    requires config.NonNegative() && k < |subs| == |s.post| && Underway(SubBatches(s, subs, config, draws, k))
    ensures Underway(NextSubBatch(s, subs, config, draws, k))
  {
    var r := SubBatches(s, subs, config, draws, k);
    var n1, n2 := Draw(draws, r.drawn), Draw(draws, r.drawn + 1);
    var post := |r.plan| + 10 + n1 + n2;
    LayerHangs(r.plan, Ends(r.post), r.post[k], r.before, subs[k], config, n1, n2);
    EndsMove(r.post, k, post);
    HangsFewer(r.plan + LayerPlan(|r.plan|, r.post[k], r.before, subs[k], config, n1, n2),
               Ends(r.post) - {r.post[k]} + {post}, Ends(r.post[k := post]));
  }

  lemma EndsMove(post: seq<nat>, k: nat, p: nat)
    requires k < |post|
    ensures forall t :: t in Ends(post) - {post[k]} + {p} ==> t in Ends(post[k := p])
  {
    var post' := post[k := p];
    assert post'[k] == p;
    forall t | t in post && t != post[k]
      ensures t in post'
    {
      var j :| 0 <= j < |post| && post[j] == t;
      assert post'[j] == t;
    }
  }

  lemma {:induction false} LayersHang(s: Built, subs: seq<nat>, config: Config, draws: seq<nat>, l: nat)
    requires config.NonNegative() && |subs| == |s.post| && Underway(s)
    ensures Underway(LayersPlan(s, subs, config, draws, l))
  {
    if l > 0 {
      LayersHang(s, subs, config, draws, l - 1);
      SubBatchesHang(LayersPlan(s, subs, config, draws, l - 1), subs, config, draws, |subs|);
    }
  }

  /** A chain behind the last task leaves only its end open. */
  lemma {:induction false} ChainHangs(plan: Plan, more: Plan)
    requires plan != [] && Hangs(plan, {|plan| - 1})
    requires forall i :: 0 <= i < |more| ==> more[i].dur >= 0.0 && more[i].preds == [|plan| + i - 1]
    ensures Hangs(plan + more, {|plan| + |more| - 1})
    decreases |more|
  {
    if more == [] {
      assert plan + more == plan;
    } else {
      var m := |more| - 1;
      ChainHangs(plan, more[..m]);
      var front := plan + more[..m];
      NodeHangs(front, {|front| - 1}, more[m], {|front|});
      assert front + [more[m]] == plan + more;
    }
  }

  ghost predicate Works(plan: Plan) {
    exists t :: 0 <= t < |plan| && plan[t].dur > 0.0
  }

  /** The head closes every sub-batch, and what follows it is a chain. */
  lemma TailHangs(plan: Plan, post: seq<nat>, drafts: bool, config: Config)
    requires config.NonNegative() && post != [] && Hangs(plan, Ends(post)) && forall p :: p in post ==> p < |plan|
    ensures Hangs(plan + TailPlan(|plan|, post, drafts, config),
            {|plan| + |TailPlan(|plan|, post, drafts, config)| - 1})
    ensures Works(plan + TailPlan(|plan|, post, drafts, config))
  {
    var n := |plan|;
    var head, after := Node(Some(Dgpu), 1.4, post), AfterHead(n, drafts, config);
    NodeHangs(plan, Ends(post), head, {n});
    ChainHangs(plan + [head], after);
    assert plan + [head] + after == plan + TailPlan(n, post, drafts, config);
    assert (plan + TailPlan(n, post, drafts, config))[n] == head;
  }

  lemma StartHangs(plan: Plan, prev: nat, drawn: nat, k: nat)
    requires prev < |plan| && Hangs(plan, {prev}) && k >= 1
    ensures Underway(StepStart(plan, prev, drawn, k))
  {
    var post := StepStart(plan, prev, drawn, k).post;
    assert post[0] == prev;
    HangsFewer(plan, {prev}, Ends(post));
  }

  /** What a whole step, or the root, leaves: the last task open and nothing else. */
  ghost predicate Rests(plan: Plan) {
    plan != [] && Hangs(plan, {|plan| - 1})
  }

  lemma StepHangs(plan: Plan, drawn: nat, subs: seq<nat>, config: Config, draws: seq<nat>)
    requires config.NonNegative() && subs != [] && Rests(plan)
    ensures Rests(StepPlan(plan, |plan| - 1, drawn, subs, config, draws).plan)
    ensures Works(StepPlan(plan, |plan| - 1, drawn, subs, config, draws).plan)
  {
    var s0 := StepStart(plan, |plan| - 1, drawn, |subs|);
    StartHangs(plan, |plan| - 1, drawn, |subs|);
    LayersHang(s0, subs, config, draws, config.layers);
    var s := LayersPlan(s0, subs, config, draws, config.layers);
    TailHangs(s.plan, s.post, Sum(subs) > 1, config);
  }

  /** The plan of the whole run: one source, one sink, no cycle, and work as soon as there is a step. */
  lemma {:induction false} BuildHangs(subs: seq<nat>, config: Config, draws: seq<nat>, steps: nat)
    requires config.NonNegative() && subs != []
    ensures Rests(BuildPlan(subs, config, draws, steps).plan)
    ensures steps > 0 ==> Works(BuildPlan(subs, config, draws, steps).plan)
  {
    if steps == 0 {
      RootRests();
    } else {
      BuildHangs(subs, config, draws, steps - 1);
      NextRests(subs, config, draws, steps - 1);
    }
  }

  lemma NextRests(subs: seq<nat>, config: Config, draws: seq<nat>, steps: nat)
    requires config.NonNegative() && subs != [] && Rests(BuildPlan(subs, config, draws, steps).plan)
    ensures Rests(NextStep(subs, config, draws, steps).plan) && Works(NextStep(subs, config, draws, steps).plan)
  {
    var s := BuildPlan(subs, config, draws, steps);
    StepHangs(s.plan, s.drawn, subs, config, draws);
  }

  lemma RootRests()
    ensures Rests([ROOT])
  {
    assert ShapedTo([ROOT], [0], 1, {0}, 0);
    assert Shaped([ROOT], [0], 1, {0});
  }

  // ---- the list under construction ----

  function NodeOf(t: Task): Node {
    Node(t.res, t.dur, t.preds)
  }

  /** In the order of creation. */
  ghost predicate Climbs(s: seq<nat>) {
    forall i, j :: 0 <= i < j < |s| ==> s[i] <= s[j]
  }

  lemma ClimbsOn(s: seq<nat>, x: nat)
    requires Climbs(s) && forall y :: y in s ==> y <= x
    ensures Climbs(s + [x])
  {
    assert forall i :: 0 <= i < |s| ==> s[i] in s;
  }

  /** No task behind `b` waits for `a`. */
  ghost predicate NoneBehind(plan: Plan, a: nat, b: nat) {
    forall u :: b < u < |plan| ==> a !in plan[u].preds
  }

  /** One task is the plan's, and its bookkeeping agrees with the other tasks'. */
  ghost predicate TaskSound(g: Graph, plan: Plan, t: nat)
    requires t < |g| == |plan|
  {
    && NodeOf(g[t]) == plan[t]
    && g[t].dur >= 0.0 && g[t].npend == |g[t].preds|
    && (forall p: nat :: p in g[t].preds ==> p < |g|)
    && (forall s: nat :: s in g[t].succs ==> s < |g|)
    && (forall b :: 0 <= b < |g| ==> multiset(g[t].succs)[b] == multiset(g[b].preds)[t])
    && Climbs(g[t].succs)
  }

  ghost predicate Sound(g: Graph, plan: Plan, n: nat)
    requires n <= |g| == |plan|
  {
    n == 0 || (Sound(g, plan, n - 1) && TaskSound(g, plan, n - 1))
  }

  lemma {:induction false} SoundTask(g: Graph, plan: Plan, n: nat, t: nat)
    requires t < n <= |g| == |plan| && Sound(g, plan, n)
    ensures TaskSound(g, plan, t)
  {
    if t < n - 1 {
      SoundTask(g, plan, n - 1, t);
    }
  }

  lemma {:induction false} TasksSound(g: Graph, plan: Plan, n: nat)
    requires n <= |g| == |plan| && forall t :: 0 <= t < n ==> TaskSound(g, plan, t)
    ensures Sound(g, plan, n)
  {
    if n > 0 {
      TasksSound(g, plan, n - 1);
    }
  }

  /** What `dep(a, b)` does to the two tasks. */
  function Linked(g: Graph, a: nat, b: nat): Graph
    requires a < |g| && b < |g| && a != b
  {
    g[a := g[a].(succs := g[a].succs + [b])][b := g[b].(preds := g[b].preds + [a], npend := g[b].npend + 1)]
  }

  lemma LinkedInTurn(g: Graph, a: nat, b: nat)
    requires a < |g| && b < |g| && a != b
    ensures var g' := g[a := g[a].(succs := g[a].succs + [b])];
            g'[b := g'[b].(preds := g'[b].preds + [a], npend := g'[b].npend + 1)] == Linked(g, a, b)
  {
  }

  method Link(g: Graph, a: nat, b: nat) returns (g': Graph)
    requires a < |g| && b < |g| && a != b
    ensures g' == Linked(g, a, b)
  {
    LinkedInTurn(g, a, b);
    var ta := g[a];
    g' := g[a := ta.(succs := ta.succs + [b])];
    var tb := g'[b];
    g' := g'[b := tb.(preds := tb.preds + [a], npend := tb.npend + 1)];
  }

  /** `b` also waits for `a`. */
  function Waits(plan: Plan, a: nat, b: nat): Plan
    requires b < |plan|
  {
    plan[b := plan[b].(preds := plan[b].preds + [a])]
  }

  lemma SnocCount(s: seq<nat>, x: nat, y: nat)
    ensures multiset(s + [x])[y] == multiset(s)[y] + if x == y then 1 else 0
  {
  }

  lemma LinkedEdge(g: Graph, plan: Plan, a: nat, b: nat, x: nat, y: nat)
    requires |plan| == |g| && x < |g| && TaskSound(g, plan, x) && a < |g| && b < |g| && a != b && y < |g|
    ensures multiset(Linked(g, a, b)[x].succs)[y] == multiset(Linked(g, a, b)[y].preds)[x]
  {
    SnocCount(g[a].succs, b, y);
    SnocCount(g[b].preds, a, x);
    assert multiset(g[x].succs)[y] == multiset(g[y].preds)[x];
  }

  lemma LinkedTask(g: Graph, plan: Plan, a: nat, b: nat, t: nat)
    requires |plan| == |g| && t < |g| && TaskSound(g, plan, t) && a < |g| && b < |g| && a != b
    requires t == a ==> forall s :: s in g[a].succs ==> s <= b
    ensures TaskSound(Linked(g, a, b), Waits(plan, a, b), t)
  {
    if t == a {
      ClimbsOn(g[a].succs, b);
    }
    forall y | 0 <= y < |g|
      ensures multiset(Linked(g, a, b)[t].succs)[y] == multiset(Linked(g, a, b)[y].preds)[t]
    {
      LinkedEdge(g, plan, a, b, t, y);
    }
  }

  lemma SuccsUpTo(g: Graph, plan: Plan, a: nat, b: nat)
    requires |plan| == |g| && Sound(g, plan, |g|) && a < |g| && NoneBehind(plan, a, b)
    ensures forall s :: s in g[a].succs ==> s <= b
  {
    SoundTask(g, plan, |g|, a);
    forall s | s in g[a].succs
      ensures s <= b
    {
      assert s in multiset(g[a].succs);
      assert multiset(g[s].preds)[a] > 0;
      assert a in multiset(g[s].preds);
      SoundTask(g, plan, |g|, s);
      assert a in plan[s].preds;
    }
  }

  lemma LinkedSound(g: Graph, plan: Plan, a: nat, b: nat)
    requires |plan| == |g| && Sound(g, plan, |g|) && a < |g| && b < |g| && a != b && NoneBehind(plan, a, b)
    ensures Sound(Linked(g, a, b), Waits(plan, a, b), |g|)
  {
    SuccsUpTo(g, plan, a, b);
    forall t | 0 <= t < |g|
      ensures TaskSound(Linked(g, a, b), Waits(plan, a, b), t)
    {
      SoundTask(g, plan, |g|, t);
      LinkedTask(g, plan, a, b, t);
    }
    TasksSound(Linked(g, a, b), Waits(plan, a, b), |g|);
  }

  lemma AddedTask(g: Graph, plan: Plan, task: Task, t: nat)
    requires |plan| == |g| && (forall u :: 0 <= u < |g| ==> TaskSound(g, plan, u)) && t <= |g|
    requires task.preds == [] && task.succs == [] && task.npend == 0 && task.dur >= 0.0
    ensures TaskSound(g + [task], plan + [NodeOf(task)], t)
  {
    var (g', plan') := (g + [task], plan + [NodeOf(task)]);
    if t < |g| {
      assert TaskSound(g, plan, t) && |g| !in g[t].succs;
    }
    forall y | 0 <= y < |g'|
      ensures multiset(g'[t].succs)[y] == multiset(g'[y].preds)[t]
    {
      if y < |g| && t == |g| {
        assert TaskSound(g, plan, y);
        assert t !in g[y].preds;
      }
    }
  }

  lemma AllSound(g: Graph, plan: Plan)
    requires |plan| == |g| && Sound(g, plan, |g|)
    ensures forall t :: 0 <= t < |g| ==> TaskSound(g, plan, t)
  {
    forall t | 0 <= t < |g|
      ensures TaskSound(g, plan, t)
    {
      SoundTask(g, plan, |g|, t);
    }
  }

  lemma AddedSound(g: Graph, plan: Plan, task: Task)
    requires |plan| == |g| && Sound(g, plan, |g|)
    requires task.preds == [] && task.succs == [] && task.npend == 0 && task.dur >= 0.0
    ensures Sound(g + [task], plan + [NodeOf(task)], |g| + 1)
  {
    var (g', plan') := (g + [task], plan + [NodeOf(task)]);
    AllSound(g, plan);
    forall t | 0 <= t < |g'|
      ensures TaskSound(g', plan', t)
    {
      AddedTask(g, plan, task, t);
    }
    TasksSound(g', plan', |g'|);
  }

  lemma SoundClosed(g: Graph, plan: Plan)
    requires |plan| == |g| && forall t :: 0 <= t < |g| ==> TaskSound(g, plan, t)
    ensures Closed(g)
  {
    forall t: nat, p: nat {:trigger p in g[t].preds} | t < |g| && p in g[t].preds
      ensures p < |g|
    {
      assert TaskSound(g, plan, t);
    }
    forall t: nat, s: nat {:trigger s in g[t].succs} | t < |g| && s in g[t].succs
      ensures s < |g|
    {
      assert TaskSound(g, plan, t);
    }
  }

  lemma SoundWellFormed(g: Graph, plan: Plan)
    requires |plan| == |g| && Sound(g, plan, |g|)
    ensures WellFormed(g) && forall t :: 0 <= t < |g| ==> NodeOf(g[t]) == plan[t] && Climbs(g[t].succs)
  {
    AllSound(g, plan);
    SoundClosed(g, plan);
    forall t, b | 0 <= t < |g| && 0 <= b < |g|
      ensures multiset(g[t].succs)[b] == multiset(g[b].preds)[t]
    {
      assert TaskSound(g, plan, t);
    }
    forall t | 0 <= t < |g|
      ensures g[t].dur >= 0.0 && g[t].npend == |g[t].preds| && NodeOf(g[t]) == plan[t] && Climbs(g[t].succs)
    {
      assert TaskSound(g, plan, t);
    }
  }

  // ---- plans grow task by task ----

  lemma LastWaits(plan: Plan, node: Node, a: nat)
    ensures Waits(plan + [node], a, |plan|) == plan + [node.(preds := node.preds + [a])]
  {
  }

  lemma ReadIs(before: Plan, k: Resource, a: nat, i: nat, plan: Plan, m: nat, j: nat)
    requires j + 1 == |before| && plan == WithReads(before, k, a, i) && m == |plan|
    ensures j < m && Waits(plan + [Node(Some(k), MISS, [a])], m, j) == WithReads(before, k, a, i + 1)
  {
    WithMoreReads(before, k, a, i);
  }

  /** The last task of `plan` also waits for `n` reads behind `a`. */
  function WithReads(plan: Plan, k: Resource, a: nat, n: nat): Plan
    requires plan != []
  {
    var j := |plan| - 1;
    plan[j := plan[j].(preds := plan[j].preds + Range(|plan|, n))] + Reads(k, a, n)
  }

  /** Nothing waits for a read that is only just added. */
  lemma ReadIsNew(before: Plan, k: Resource, a: nat, i: nat, j: nat)
    requires a < |before| && j + 1 == |before|
    ensures var plan := WithReads(before, k, a, i); NoneBehind(plan + [Node(Some(k), MISS, [a])], |plan|, j)
  {
  }

  lemma WithNoReads(plan: Plan, k: Resource, a: nat)
    requires plan != []
    ensures WithReads(plan, k, a, 0) == plan
  {
    var j := |plan| - 1;
    assert plan[j].preds + Range(|plan|, 0) == plan[j].preds;
  }

  lemma WithMoreReads(plan: Plan, k: Resource, a: nat, n: nat)
    requires plan != []
    ensures Waits(WithReads(plan, k, a, n) + [Node(Some(k), MISS, [a])], |plan| + n, |plan| - 1) ==
            WithReads(plan, k, a, n + 1)
  {
    var j := |plan| - 1;
    assert plan[j].preds + Range(|plan|, n) + [|plan| + n] == plan[j].preds + Range(|plan|, n + 1);
  }

  lemma LocalPlanIs(plan: Plan, a: nat, picks: real, misses: nat)
    ensures var n := |plan|;
            WithReads(plan + [Node(Some(Igpu1), picks, [a])] + [Node(None, 0.0, [n])], Nvme1, a, misses)
            + [Node(Some(Igpu1), misses as real * PICK, [n + 1])] == plan + LocalPlan(n, a, picks, misses)
  {
  }

  lemma AwayPlanIs(plan: Plan, a: nat, there: real, picks: real)
    ensures var n := |plan|;
            plan + [Node(None, there, [a])] + [Node(Some(Igpu2), picks, [n])] + [Node(None, 0.0, [n + 1])] ==
            plan + AwayPlan(n, a, there, picks)
  {
  }

  lemma RemotePlanIs(plan: Plan, a: nat, there: real, picks: real, misses: nat, home: real)
    ensures var n := |plan|;
            WithReads(plan + AwayPlan(n, a, there, picks), Nvme2, n, misses)
            + [Node(Some(Igpu2), misses as real * PICK, [n + 2])] + [Node(None, home, [n + 3 + misses])] ==
            plan + RemotePlan(n, a, there, picks, misses, home)
  {
  }

  lemma MergePlanIs(plan: Plan, a: nat, e1b: nat, back: nat, shared: real)
    ensures var n := |plan|;
            plan + [Node(Some(Dgpu), shared, [a])] + [Node(Some(Dgpu), 0.02, [e1b] + [back] + [n])] ==
            plan + MergePlan(n, a, e1b, back, shared)
  {
    assert [e1b] + [back] + [|plan|] == [e1b, back, |plan|];
  }

  lemma LayerDone(plan: Plan, p1: Plan, p2: Plan, a: nat, e1b: nat, n: nat, m: nat, prev: nat, before: Option<nat>,
                  b: nat,
                  config: Config, n1: nat, n2: nat)
    requires config.NonNegative() && e1b == a + 3 + n1 && n == a + 4 + n1 && m == a + 9 + n1 + n2
    requires p1 == plan + [AttendNode(prev, before, b)] + LocalPlan(a + 1, a, config.Picks(b, config.localShare), n1)
    requires p2 == p1
             + RemotePlan(n, a, config.Link(b, 6000.0), config.Picks(b, config.remoteShare), n2,
                 config.Link(b, 20000.0))
             + MergePlan(m, a, e1b, m - 1, config.Shared(b))
    ensures p2 == plan + LayerPlan(a, prev, before, b, config, n1, n2)
  {
    LayerPlanIs(plan, a, prev, before, b, config, n1, n2);
  }

  /** The growing list `tasks`; `plan` is what has been asked for. */
  class Dag {
    var tasks: Graph
    ghost var plan: Plan

    constructor ()
      ensures Valid() && tasks == [] && plan == []
    {
      tasks, plan := [], [];
    }

    ghost predicate Valid()
      reads this
    {
      |plan| == |tasks| && Sound(tasks, plan, |tasks|)
    }

    /** `T(res, dur)`: a new task. */
    method Add(res: Option<Resource>, dur: real) returns (t: nat)
      requires Valid() && dur >= 0.0
      modifies this
      ensures Valid() && t == |old(plan)| && plan == old(plan) + [Node(res, dur, [])]
      ensures tasks == old(tasks) + [Task(res, dur, [], [], 0)]
    {
      t := |tasks|;
      var task := Task(res, dur, [], [], 0);
      AddedSound(tasks, plan, task);
      tasks, plan := tasks + [task], plan + [Node(res, dur, [])];
    }

    /** `dep(a, b)`. */
    method Dep(a: nat, b: nat)
      requires Valid() && a < |plan| && b < |plan| && a != b && NoneBehind(plan, a, b)
      modifies this
      ensures Valid() && tasks == Linked(old(tasks), a, b) && plan == Waits(old(plan), a, b)
    {
      LinkedSound(tasks, plan, a, b);
      var linked := Link(tasks, a, b);
      tasks, plan := linked, Waits(plan, a, b);
    }

    /** A new task after `a`. */
    method Then(a: nat, res: Option<Resource>, dur: real) returns (t: nat)
      requires Valid() && dur >= 0.0 && a < |plan|
      modifies this
      ensures Valid() && t == |old(plan)| && plan == old(plan) + [Node(res, dur, [a])]
    {
      t := Add(res, dur);
      LastWaits(plan[..t], Node(res, dur, []), a);
      assert plan == plan[..t] + [Node(res, dur, [])] && [] + [a] == [a];
      Dep(a, t);
    }

    /** The last task, `node`, waits for `a` too. */
    method Also(a: nat, b: nat, ghost front: Plan, ghost node: Node)
      requires Valid() && plan == front + [node] && b == |front| && a < b
      modifies this
      ensures Valid() && plan == front + [node.(preds := node.preds + [a])]
    {
      LastWaits(front, node, a);
      Dep(a, b);
    }

    /** `n` reads behind `a` that the last task waits for. */
    method Misses(a: nat, j: nat, k: Resource, n: nat)
      requires Valid() && a < |plan| && j + 1 == |plan|
      modifies this
      ensures Valid() && plan == WithReads(old(plan), k, a, n)
    {
      WithNoReads(plan, k, a);
      for i := 0 to n
        invariant Valid() && plan == WithReads(old(plan), k, a, i)
      {
        Read(a, j, k, old(plan), i);
      }
    }

    method Read(a: nat, j: nat, k: Resource, ghost before: Plan, ghost i: nat)
      requires Valid() && a < |before| && j + 1 == |before| && plan == WithReads(before, k, a, i)
      modifies this
      ensures Valid() && plan == WithReads(before, k, a, i + 1)
    {
      ReadIs(before, k, a, i, plan, |plan|, j);
      ReadIsNew(before, k, a, i, j);
      var m := Then(a, Some(k), MISS);
      Dep(m, j);
    }

    /** The picks computed on this box: `e1`, the NVMe reads, `e1b`. */
    method Local(a: nat, picks: real, misses: nat) returns (done: nat)
      requires Valid() && a < |plan| && picks >= 0.0
      modifies this
      ensures Valid() && done == |old(plan)| + misses + 2
      ensures plan == old(plan) + LocalPlan(|old(plan)|, a, picks, misses)
    {
      LocalPlanIs(plan, a, picks, misses);
      var e1 := Then(a, Some(Igpu1), picks);
      var j1 := Then(e1, None, 0.0);
      Misses(a, j1, Nvme1, misses);
      done := Then(j1, Some(Igpu1), misses as real * PICK);
    }

    /** The picks computed on the other box, there: `out`, `e2`, `j2` and its reads. */
    method Away(a: nat, there: real, picks: real, misses: nat) returns (j2: nat)
      requires Valid() && a < |plan| && there >= 0.0 && picks >= 0.0
      modifies this
      ensures Valid() && j2 == |old(plan)| + 2
      ensures plan == WithReads(old(plan) + AwayPlan(|old(plan)|, a, there, picks), Nvme2, |old(plan)|, misses)
    {
      AwayPlanIs(plan, a, there, picks);
      var out := Then(a, None, there);
      var e2 := Then(out, Some(Igpu2), picks);
      j2 := Then(e2, None, 0.0);
      Misses(out, j2, Nvme2, misses);
    }

    /** And back: `e2b` and `back`. */
    method Remote(a: nat, there: real, picks: real, misses: nat, home: real) returns (back: nat)
      requires Valid() && a < |plan| && there >= 0.0 && picks >= 0.0 && home >= 0.0
      modifies this
      ensures Valid() && back == |old(plan)| + misses + 4
      ensures plan == old(plan) + RemotePlan(|old(plan)|, a, there, picks, misses, home)
    {
      RemotePlanIs(plan, a, there, picks, misses, home);
      var j2 := Away(a, there, picks, misses);
      var e2b := Then(j2, Some(Igpu2), misses as real * PICK);
      back := Then(e2b, None, home);
    }

    /** `e3` and `post`. */
    method Merge(a: nat, e1b: nat, back: nat, shared: real) returns (post: nat)
      requires Valid() && a < |plan| && e1b < |plan| && back < |plan| && shared >= 0.0
      modifies this
      ensures Valid() && post == |old(plan)| + 1
      ensures plan == old(plan) + MergePlan(|old(plan)|, a, e1b, back, shared)
    {
      MergePlanIs(plan, a, e1b, back, shared);
      var e3 := Then(a, Some(Dgpu), shared);
      ghost var front := plan;
      post := Then(e1b, Some(Dgpu), 0.02);
      Also(back, post, front, Node(Some(Dgpu), 0.02, [e1b]));
      Also(e3, post, front, Node(Some(Dgpu), 0.02, [e1b] + [back]));
    }

    /** Attention of one sub-batch. */
    method Attend(prev: nat, before: Option<nat>, b: nat) returns (a: nat)
      requires Valid() && prev < |plan| && (before.Some? ==> before.value < |plan|)
      modifies this
      ensures Valid() && a == |old(plan)| && plan == old(plan) + [AttendNode(prev, before, b)]
    {
      a := Then(prev, Some(Dgpu), Attention(b));
      if before.Some? {
        assert [prev] + [before.value] == [prev, before.value];
        Also(before.value, a, old(plan), Node(Some(Dgpu), Attention(b), [prev]));
      }
    }

    /** Attention and the picks computed here. */
    method Here(prev: nat, before: Option<nat>, b: nat, config: Config, n1: nat) returns (a: nat, e1b: nat)
      requires Valid() && prev < |plan| && (before.Some? ==> before.value < |plan|) && config.NonNegative()
      modifies this
      ensures Valid() && a == |old(plan)| && e1b == a + 3 + n1 && |plan| == a + 4 + n1
      ensures plan == old(plan) + [AttendNode(prev, before, b)]
              + LocalPlan(a + 1, a, config.Picks(b, config.localShare), n1)
    {
      a := Attend(prev, before, b);
      assert |plan| == a + 1;
      e1b := Local(a, config.Picks(b, config.localShare), n1);
    }

    /** The picks computed on the other box, and the end of the layer, from tasks `n` and `m` on. */
    method There(a: nat, e1b: nat, b: nat, config: Config, n2: nat, ghost n: nat, ghost m: nat) returns (post: nat)
      requires Valid() && a < |plan| && e1b < |plan| && config.NonNegative() && n == |plan| && m == n + 5 + n2
      modifies this
      ensures Valid() && post == m + 1
      ensures plan == old(plan)
              + RemotePlan(n, a, config.Link(b, 6000.0), config.Picks(b, config.remoteShare), n2,
                  config.Link(b, 20000.0))
              + MergePlan(m, a, e1b, m - 1, config.Shared(b))
    {
      var back := Remote(a, config.Link(b, 6000.0), config.Picks(b, config.remoteShare), n2, config.Link(b, 20000.0));
      assert |plan| == m && back == m - 1;
      post := Merge(a, e1b, back, config.Shared(b));
    }

    /** One layer of one sub-batch. */
    method Layer(prev: nat, before: Option<nat>, b: nat, config: Config, n1: nat, n2: nat) returns (a: nat, post: nat)
      requires Valid() && prev < |plan| && (before.Some? ==> before.value < |plan|) && config.NonNegative()
      modifies this
      ensures Valid() && a == |old(plan)| && post == a + 10 + n1 + n2
      ensures plan == old(plan) + LayerPlan(a, prev, before, b, config, n1, n2)
    {
      var e1b;
      a, e1b := Here(prev, before, b, config, n1);
      ghost var p1, n, m := plan, a + 4 + n1, a + 9 + n1 + n2;
      post := There(a, e1b, b, config, n2, n, m);
      LayerDone(old(plan), p1, plan, a, e1b, n, m, prev, before, b, config, n1, n2);
    }
  }

  /** The loop variables are what the plan's state says. */
  ghost predicate At(plan: Plan, post: seq<nat>, drawn: nat, s: Built) {
    plan == s.plan && post == s.post && drawn == s.drawn
  }

  /** The layers of one step: every sub-batch goes through every layer, in order. */
  method Layers(dag: Dag, subs: seq<nat>, config: Config, draws: seq<nat>, drawn: nat, prev: nat)
    returns (post: seq<nat>, drawn': nat)
    requires dag.Valid() && Rests(dag.plan) && prev == |dag.plan| - 1 && config.NonNegative() && subs != []
    modifies dag
    ensures dag.Valid()
    ensures At(dag.plan, post, drawn',
            LayersPlan(StepStart(old(dag.plan), prev, drawn, |subs|), subs, config, draws, config.layers))
  {
    post, drawn' := seq(|subs|, _ => prev), drawn;
    ghost var s0 := StepStart(dag.plan, prev, drawn, |subs|);
    StartHangs(dag.plan, prev, drawn, |subs|);
    for l := 0 to config.layers
      invariant dag.Valid() && At(dag.plan, post, drawn', LayersPlan(s0, subs, config, draws, l))
    {
      LayersHang(s0, subs, config, draws, l);
      post, drawn' := OneLayer(dag, subs, config, draws, LayersPlan(s0, subs, config, draws, l), post, drawn');
    }
  }

  /** And so is the previous sub-batch's attention. */
  ghost predicate Between(plan: Plan, post: seq<nat>, before: Option<nat>, drawn: nat, s: Built) {
    At(plan, post, drawn, s) && before == s.before
  }

  method OneLayer(dag: Dag, subs: seq<nat>, config: Config, draws: seq<nat>, ghost s: Built, post: seq<nat>, drawn: nat)
    returns (post': seq<nat>, drawn': nat)
    requires dag.Valid() && At(dag.plan, post, drawn, s) && |post| == |subs| && config.NonNegative() && Underway(s)
    modifies dag
    ensures dag.Valid() && At(dag.plan, post', drawn', SubBatches(s, subs, config, draws, |subs|))
  {
    post', drawn' := post, drawn;
    var before: Option<nat> := None;
    for si := 0 to |subs|
      invariant dag.Valid() && Between(dag.plan, post', before, drawn', SubBatches(s, subs, config, draws, si))
    {
      SubBatchesHang(s, subs, config, draws, si);
      assert InPlan(SubBatches(s, subs, config, draws, si));
      post', before, drawn' := OneSubBatch(dag, subs, config, draws, s, si, post', before, drawn');
    }
  }

  method OneSubBatch(dag: Dag, subs: seq<nat>, config: Config, draws: seq<nat>, ghost s: Built, si: nat, post: seq<nat>,
                     before: Option<nat>, drawn: nat)
    returns (post': seq<nat>, before': Option<nat>, drawn': nat)
    requires dag.Valid() && config.NonNegative() && si < |subs| == |s.post| && |post| == |subs|
    requires Between(dag.plan, post, before, drawn, SubBatches(s, subs, config, draws, si)) && post[si] < |dag.plan|
    requires before.Some? ==> before.value < |dag.plan|
    modifies dag
    ensures dag.Valid()
    ensures Between(dag.plan, post', before', drawn', NextSubBatch(s, subs, config, draws, si))
  {
    var a, p := dag.Layer(post[si], before, subs[si], config, Draw(draws, drawn), Draw(draws, drawn + 1));
    post', before', drawn' := post[si := p], Some(a), drawn + 2;
    FollowedIs(SubBatches(s, subs, config, draws, si), si, subs[si], config, draws, old(dag.plan), dag.plan, post,
               before, drawn, a, p);
  }

  lemma FollowedIs(r: Built, k: nat, b: nat, config: Config, draws: seq<nat>, plan: Plan, plan': Plan,
                   post: seq<nat>, before: Option<nat>, drawn: nat, a: nat, p: nat)
    requires config.NonNegative() && k < |r.post| == |post| && Between(plan, post, before, drawn, r)
    requires a == |plan| && p == a + 10 + Draw(draws, drawn) + Draw(draws, drawn + 1)
    requires plan' == plan + LayerPlan(a, post[k], before, b, config, Draw(draws, drawn), Draw(draws, drawn + 1))
    ensures Between(plan', post[k := p], Some(a), drawn + 2, Followed(r, k, b, config, draws))
  {
  }

  lemma NextDone(post: seq<nat>, i: nat)
    requires i < |post|
    ensures post[..i] + [post[i]] == post[..i + 1]
  {
  }

  /** The head waits for every sub-batch. */
  method Head(dag: Dag, post: seq<nat>) returns (head: nat)
    requires dag.Valid() && forall si :: 0 <= si < |post| ==> post[si] < |dag.plan|
    modifies dag
    ensures dag.Valid() && head == |old(dag.plan)| && dag.plan == old(dag.plan) + [Node(Some(Dgpu), 1.4, post)]
  {
    head := dag.Add(Some(Dgpu), 1.4);
    ghost var done: seq<nat> := [];
    for i := 0 to |post|
      invariant dag.Valid() && done == post[..i] && dag.plan == old(dag.plan) + [Node(Some(Dgpu), 1.4, done)]
    {
      dag.Also(post[i], head, old(dag.plan), Node(Some(Dgpu), 1.4, done));
      NextDone(post, i);
      done := done + [post[i]];
    }
    assert done == post;
  }

  method Drafter(dag: Dag, head: nat, config: Config) returns (last: nat)
    requires dag.Valid() && config.NonNegative() && head == |dag.plan| - 1
    modifies dag
    ensures dag.Valid() && dag.plan == old(dag.plan) + AfterHead(head, true, config) && last == |dag.plan| - 1
  {
    var acc := dag.Then(head, None, 0.1);
    var d1 := dag.Then(acc, Some(Dgpu), config.drafter.0);
    var d2 := dag.Then(d1, Some(Igpu1), config.drafter.1);
    last := dag.Then(d2, Some(Dgpu), config.drafter.2);
    DrafterIs(old(dag.plan), head, config);
  }

  /** The drafter, or a plain wait, behind the head. */
  method After(dag: Dag, head: nat, drafts: bool, config: Config) returns (last: nat)
    requires dag.Valid() && config.NonNegative() && head == |dag.plan| - 1
    modifies dag
    ensures dag.Valid() && dag.plan == old(dag.plan) + AfterHead(head, drafts, config) && last == |dag.plan| - 1
  {
    if drafts {
      last := Drafter(dag, head, config);
    } else {
      last := dag.Then(head, None, 0.05);
    }
  }

  lemma DrafterIs(plan: Plan, n: nat, config: Config)
    requires n == |plan| - 1
    ensures plan + [Node(None, 0.1, [n])] + [Node(Some(Dgpu), config.drafter.0, [n + 1])]
            + [Node(Some(Igpu1), config.drafter.1, [n + 2])] + [Node(Some(Dgpu), config.drafter.2, [n + 3])] ==
            plan + AfterHead(n, true, config)
  {
  }

  /** One step: the layers, the head, and what follows it. */
  method Step(dag: Dag, subs: seq<nat>, config: Config, draws: seq<nat>, drawn: nat, prev: nat)
    returns (last: nat, drawn': nat)
    requires dag.Valid() && Rests(dag.plan) && prev == |dag.plan| - 1 && config.NonNegative() && subs != []
    modifies dag
    ensures var s := StepPlan(old(dag.plan), prev, drawn, subs, config, draws);
            dag.Valid() && dag.plan == s.plan && drawn' == s.drawn && last == |s.plan| - 1
  {
    var post;
    StartHangs(dag.plan, prev, drawn, |subs|);
    LayersHang(StepStart(dag.plan, prev, drawn, |subs|), subs, config, draws, config.layers);
    post, drawn' := Layers(dag, subs, config, draws, drawn, prev);
    last := Tail(dag, post, Sum(subs) > 1, config);
  }

  method Tail(dag: Dag, post: seq<nat>, drafts: bool, config: Config) returns (last: nat)
    requires dag.Valid() && config.NonNegative() && forall si :: 0 <= si < |post| ==> post[si] < |dag.plan|
    modifies dag
    ensures dag.Valid() && dag.plan == old(dag.plan) + TailPlan(|old(dag.plan)|, post, drafts, config) &&
            last == |dag.plan| - 1
  {
    var head := Head(dag, post);
    last := After(dag, head, drafts, config);
    assert old(dag.plan) + [Node(Some(Dgpu), 1.4, post)] + AfterHead(head, drafts, config) ==
           old(dag.plan) + TailPlan(head, post, drafts, config);
  }

  /** All steps, from the root. */
  method Build(subs: seq<nat>, config: Config, steps: nat, draws: seq<nat>) returns (dag: Dag, root: nat, last: nat)
    requires config.NonNegative() && subs != []
    ensures fresh(dag) && dag.Valid() && root == 0
    ensures dag.plan == BuildPlan(subs, config, draws, steps).plan && last == |dag.plan| - 1
  {
    dag := new Dag();
    root := dag.Add(None, 0.0);
    last := root;
    var drawn := 0;
    ghost var s := BuildPlan(subs, config, draws, 0);
    for step := 0 to steps
      invariant fresh(dag) && dag.Valid() && last == |dag.plan| - 1
      invariant s == BuildPlan(subs, config, draws, step) && dag.plan == s.plan && drawn == s.drawn
    {
      BuildHangs(subs, config, draws, step);
      last, drawn := Step(dag, subs, config, draws, drawn, last);
      s := NextStep(subs, config, draws, step);
    }
  }
}
