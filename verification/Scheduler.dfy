/** The event loop of the DAG list scheduler (scripts/sched_sim2.py). */
module Scheduler {
  import opened Prelude
  import PriorityQueue

  datatype Resource = Dgpu | Igpu1 | Igpu2 | Nvme1 | Nvme2

  /** `res == None` is pure latency: such a task waits for nothing but its predecessors. */
  datatype Task = Task(res: Option<Resource>, dur: real, preds: seq<nat>, succs: seq<nat>, npend: nat)

  /** `tasks`, in creation order. */
  type Graph = seq<Task>

  // ---- well-formed graphs ----

  ghost predicate Closed(g: Graph) {
    && (forall t: nat, p: nat :: t < |g| && p in g[t].preds ==> p < |g|)
    && (forall t: nat, s: nat :: t < |g| && s in g[t].succs ==> s < |g|)
  }

  /** `dep` records every edge at both of its ends. */
  ghost predicate Mirrored(g: Graph)
    requires Closed(g)
  {
    forall a, b :: 0 <= a < |g| && 0 <= b < |g| ==> multiset(g[a].succs)[b] == multiset(g[b].preds)[a]
  }

  ghost predicate WellFormed(g: Graph) {
    && Closed(g) && Mirrored(g)
    && forall t :: 0 <= t < |g| ==> g[t].dur >= 0.0 && g[t].npend == |g[t].preds|
  }

  /** Edges climb in rank, so the graph has no cycle. */
  ghost predicate Ranked(g: Graph, rank: seq<nat>) {
    |rank| == |g| && forall t: nat, p: nat {:trigger p in g[t].preds} :: t < |g| && p in g[t].preds ==>
        p < |g| && rank[p] < rank[t]
  }

  predicate Occupies(g: Graph, t: nat, k: Resource)
    requires t < |g|
  {
    g[t].res == Some(k) && g[t].dur != 0.0
  }

  // ---- what a schedule is ----

  /** `ready`, `start` and `end` of the tasks run so far. */
  datatype Times = Times(ready: map<nat, real>, start: map<nat, real>, end: map<nat, real>)

  /** `r` is the time the last predecessor ends; the root is ready at 0. */
  ghost predicate IsReady(g: Graph, end: map<nat, real>, t: nat, r: real)
    requires t < |g|
  {
    && (forall p :: p in g[t].preds ==> p in end && end[p] <= r)
    && (if g[t].preds == [] then r == 0.0 else exists p :: p in g[t].preds && p in end && end[p] == r)
  }

  /** `at` is when another task leaves the resource that `t` occupies. */
  ghost predicate Handover(g: Graph, end: map<nat, real>, t: nat, at: real)
    requires t < |g|
  {
    exists u :: u < |g| && u in end && u != t && g[t].res.Some? && g[t].dur != 0.0 &&
      Occupies(g, u, g[t].res.value) && end[u] == at
  }

  /** One task's times: it starts when ready, or as soon after as its resource is handed over. */
  ghost predicate TaskTimed(g: Graph, times: Times, t: nat) {
    && t < |g| && t in times.ready && t in times.start && t in times.end
    && IsReady(g, times.end, t, times.ready[t])
    && times.start[t] >= times.ready[t] >= 0.0
    && times.end[t] == times.start[t] + g[t].dur
    && (times.start[t] == times.ready[t] || Handover(g, times.end, t, times.start[t]))
  }

  /** The tasks of `order` ran once each, in this order. */
  ghost predicate Schedule(g: Graph, times: Times, order: seq<nat>) {
    && Distinct(order)
    && (forall t :: t in times.end <==> t in order)
    && (forall t :: t in times.end ==> TaskTimed(g, times, t))
    && (forall i, j :: 0 <= i < j < |order| ==> InTurn(g, times, order[i], order[j]))
  }

  /** `t` was taken from the queue before `u`: ready no later, and off a shared resource in time. */
  ghost predicate InTurn(g: Graph, times: Times, t: nat, u: nat) {
    && t < |g| && u < |g| && t in times.ready && u in times.ready && t in times.end && u in times.start
    && times.ready[t] <= times.ready[u]
    && forall k :: Occupies(g, t, k) && Occupies(g, u, k) ==> times.end[t] <= times.start[u]
  }

  /** Work of the tasks below `n` that are in `done` and occupy `k`. */
  ghost function Load(g: Graph, k: Resource, done: set<nat>, n: nat): (r: real)
    requires n <= |g|
  {
    if n == 0 then 0.0
    else Load(g, k, done, n - 1) + if n - 1 in done && Occupies(g, n - 1, k) then g[n - 1].dur else 0.0
  }

  lemma {:induction false} LoadAdd(g: Graph, k: Resource, done: set<nat>, t: nat, n: nat)
    requires n <= |g| && t !in done
    ensures Load(g, k, done + {t}, n) == Load(g, k, done, n) + if t < n && Occupies(g, t, k) then g[t].dur else 0.0
  {
    if n > 0 {
      LoadAdd(g, k, done, t, n - 1);
    }
  }

  // ---- pending predecessors ----

  ghost function Pend(preds: seq<nat>, done: set<nat>): nat {
    if preds == [] then 0
    else Pend(preds[..|preds| - 1], done) + if preds[|preds| - 1] in done then 0 else 1
  }

  lemma {:induction false} PendAdd(preds: seq<nat>, done: set<nat>, t: nat)
    requires t !in done
    ensures Pend(preds, done) == Pend(preds, done + {t}) + multiset(preds)[t]
  {
    if preds != [] {
      PendAdd(preds[..|preds| - 1], done, t);
      assert preds == preds[..|preds| - 1] + [preds[|preds| - 1]];
    }
  }

  lemma {:induction false} PendZero(preds: seq<nat>, done: set<nat>)
    ensures Pend(preds, done) == 0 <==> forall p :: p in preds ==> p in done
  {
    if preds != [] {
      PendZero(preds[..|preds| - 1], done);
      assert preds == preds[..|preds| - 1] + [preds[|preds| - 1]];
    }
  }

  lemma {:induction false} PendNone(preds: seq<nat>)
    ensures Pend(preds, {}) == |preds|
  {
    if preds != [] {
      PendNone(preds[..|preds| - 1]);
    }
  }

  // ---- the queue ----

  /** A heap tuple `(ready, cnt, task)`; `cnt` differs between any two. */
  datatype Entry = Entry(r: real, cnt: nat, t: nat)

  predicate EntryLe(a: Entry, b: Entry) {
    a.r < b.r || (a.r == b.r && a.cnt <= b.cnt)
  }

  ghost predicate Queued(pq: set<Entry>, t: nat) {
    exists x :: x in pq && x.t == t
  }

  /** Every predecessor has run. */
  ghost predicate Due(g: Graph, done: set<nat>, t: nat)
    requires t < |g|
  {
    forall p :: p in g[t].preds ==> p in done
  }

  /** Only queued tasks are due, each queued once, with its ready time. */
  ghost predicate QueueSound(g: Graph, end: map<nat, real>, pq: set<Entry>) {
    && (forall x :: x in pq ==> x.t < |g| && x.t !in end && IsReady(g, end, x.t, x.r))
    && (forall x, y :: x in pq && y in pq && x.t == y.t ==> x == y)
  }

  /** `max(x.end for x in s.preds)`. */
  method MaxEnd(g: Graph, end: map<nat, real>, s: nat) returns (r: real)
    requires s < |g| && g[s].preds != [] && forall p :: p in g[s].preds ==> p in end
    ensures IsReady(g, end, s, r)
  {
    var preds := g[s].preds;
    assert preds[0] in preds;
    r := end[preds[0]];
    for i := 1 to |preds|
      invariant forall j :: 0 <= j < i ==> end[preds[j]] <= r
      invariant exists p :: p in preds && p in end && end[p] == r
    {
      assert preds[i] in preds;
      if end[preds[i]] > r {
        r := end[preds[i]];
      }
    }
  }

  // ---- the queue while one task's successors are visited ----

  /** `npend` with the successors in `left` still to be counted down. */
  ghost predicate Counts(g: Graph, done: set<nat>, left: seq<nat>, npend: seq<nat>) {
    |npend| == |g| && forall s :: 0 <= s < |g| ==> npend[s] == Pend(g[s].preds, done) + multiset(left)[s]
  }

  /** Every task that is due, except those still to be counted down, has run or is queued. */
  ghost predicate QueueComplete(g: Graph, root: nat, done: set<nat>, left: seq<nat>, pq: set<Entry>) {
    forall s :: 0 <= s < |g| && s !in left && Due(g, done, s) && (g[s].preds != [] || s == root) ==>
        s in done || Queued(pq, s)
  }

  /** The first task of `left` was pushed, or none. */
  ghost predicate PushedOne(g: Graph, done: set<nat>, left: seq<nat>, pq: set<Entry>, pq': set<Entry>, cnt: nat,
                            cnt': nat)
    requires left != []
  {
    if cnt' == cnt then pq' == pq
    else
      && cnt' == cnt + 1 && left[0] < |g| && left[0] !in left[1..] && Due(g, done, left[0])
      && forall x :: x in pq' ==> x in pq || (x.cnt == cnt && x.t == left[0])
  }

  lemma PushNew(g: Graph, t: nat, done: set<nat>, pushed: seq<(nat, nat)>, j: nat, s: nat)
    requires t < |g| && j < |g[t].succs| && s == g[t].succs[j] && PushedAll(g, t, done, pushed, j)
    requires s < |g| && s !in g[t].succs[j + 1..] && Due(g, done, s)
    ensures PushedAll(g, t, done, pushed + [(s, j)], j + 1)
  {
    var pushed' := pushed + [(s, j)];
    forall k | 0 <= k < |pushed'|
      ensures pushed'[k].1 < j + 1 && PushedBy(g, t, pushed'[k].1, pushed'[k].0, done)
    {
      assert k < |pushed| ==> pushed'[k] == pushed[k];
    }
  }

  lemma QueueGrown(pq: set<Entry>, pq0: set<Entry>, pq': set<Entry>, cnt: nat, pushed: seq<(nat, nat)>, s: nat, j: nat)
    requires QueueGrows(pq, pq0, cnt, pushed)
    requires forall x :: x in pq' ==> x in pq0 || (x.cnt == cnt + |pushed| && x.t == s)
    ensures QueueGrows(pq, pq', cnt, pushed + [(s, j)])
  {
    var pushed' := pushed + [(s, j)];
    forall x | x in pq' && x !in pq
      ensures cnt <= x.cnt < cnt + |pushed'| && pushed'[x.cnt - cnt].0 == x.t
    {
      if x in pq0 {
        assert pushed'[x.cnt - cnt] == pushed[x.cnt - cnt];
      }
    }
  }

  lemma PushOne(g: Graph, t: nat, done: set<nat>, pushed: seq<(nat, nat)>, j: nat, left: seq<nat>, pq: set<Entry>,
                pq0: set<Entry>, pq': set<Entry>, cnt: nat, was: nat, cnt': nat)
    requires t < |g| && j < |g[t].succs| && PushedAll(g, t, done, pushed, j) && QueueGrows(pq, pq0, cnt, pushed)
    requires left != [] && left[0] == g[t].succs[j] && left[1..] == g[t].succs[j + 1..]
    requires was == cnt + |pushed| && PushedOne(g, done, left, pq0, pq', was, cnt')
    ensures var pushed' := if cnt' > was then pushed + [(g[t].succs[j], j)] else pushed;
            PushedAll(g, t, done, pushed', j + 1) && QueueGrows(pq, pq', cnt, pushed') && cnt' == cnt + |pushed'|
  {
    if cnt' > was {
      PushNew(g, t, done, pushed, j, left[0]);
      QueueGrown(pq, pq0, pq', cnt, pushed, left[0], j);
    }
  }

  /** The queue and the counters while the successors in `left` are still to be visited. */
  ghost predicate Counting(g: Graph, root: nat, end: map<nat, real>, npend: seq<nat>, pq: set<Entry>, left: seq<nat>) {
    && Counts(g, end.Keys, left, npend) && QueueSound(g, end, pq) && QueueComplete(g, root, end.Keys, left, pq)
    && forall s :: s in left ==> s !in end && !Queued(pq, s)
  }

  /** A successor that still waits is not pushed. */
  lemma StillWaits(g: Graph, root: nat, end: map<nat, real>, npend: seq<nat>, pq: set<Entry>, left: seq<nat>)
    requires left != [] && left[0] < |g| && Counting(g, root, end, npend, pq, left)
    requires npend[left[0]] != 1
    ensures npend[left[0]] > 0 && Counting(g, root, end, npend[left[0] := npend[left[0]] - 1], pq, left[1..])
  {
    var s, rest := left[0], left[1..];
    assert left == [s] + rest;
    CountDown(g, end.Keys, s, rest, npend);
    PendZero(g[s].preds, end.Keys);
    if s !in rest {
      assert multiset(rest)[s] == 0;
      assert !Due(g, end.Keys, s);
    }
  }

  /** One that does not is. */
  lemma IsDue(g: Graph, root: nat, end: map<nat, real>, npend: seq<nat>, pq: set<Entry>, left: seq<nat>)
    requires left != [] && left[0] < |g| && Counting(g, root, end, npend, pq, left) && npend[left[0]] == 1
    ensures Due(g, end.Keys, left[0]) && left[0] !in left[1..]
    ensures Counts(g, end.Keys, left[1..], npend[left[0] := 0])
  {
    var s, rest := left[0], left[1..];
    assert left == [s] + rest;
    CountDown(g, end.Keys, s, rest, npend);
    PendZero(g[s].preds, end.Keys);
  }

  lemma Joins(g: Graph, root: nat, end: map<nat, real>, npend: seq<nat>, pq: set<Entry>, left: seq<nat>, x: Entry)
    requires left != [] && left[0] < |g| && Counting(g, root, end, npend, pq, left) && npend[left[0]] == 1
    requires x.t == left[0] && IsReady(g, end, x.t, x.r)
    ensures Counting(g, root, end, npend[left[0] := 0], pq + {x}, left[1..])
  {
    assert left == [left[0]] + left[1..];
    IsDue(g, root, end, npend, pq, left);
    QueueAdd(g, root, end, left[0], left[1..], pq, x);
  }

  method ReleaseOne(g: Graph, root: nat, t: nat, left: seq<nat>, npend: seq<nat>, end: map<nat, real>, pq: set<Entry>,
                    cnt: nat)
    returns (npend': seq<nat>, pq': set<Entry>, cnt': nat)
    requires WellFormed(g) && t < |g| && t in end && left != [] && forall s :: s in left ==> s in g[t].succs
    requires Counting(g, root, end, npend, pq, left)
    ensures Counting(g, root, end, npend', pq', left[1..])
    ensures forall x :: x in pq' ==> x in pq || (x.t < |g| && t in g[x.t].preds)
    ensures PushedOne(g, end.Keys, left, pq, pq', cnt, cnt')
  {
    var s := left[0];
    assert s in g[t].succs;
    PendingPred(g, t, s);
    pq', cnt' := pq, cnt;
    if npend[s] != 1 {
      StillWaits(g, root, end, npend, pq, left);
    }
    npend' := npend[s := npend[s] - 1];
    if npend'[s] == 0 {
      IsDue(g, root, end, npend, pq, left);
      var r := MaxEnd(g, end, s);
      Joins(g, root, end, npend, pq, left, Entry(r, cnt, s));
      pq' := pq + {Entry(r, cnt, s)};
      cnt' := cnt + 1;
    }
  }

  /** The first `j` successors of `t` have been visited. */
  ghost predicate Visited(g: Graph, root: nat, t: nat, end: map<nat, real>, npend: seq<nat>, pq: set<Entry>,
                          pq': set<Entry>, cnt: nat, cnt': nat, pushed: seq<(nat, nat)>, j: nat)
  {
    && WellFormed(g) && t < |g| && t in end && j <= |g[t].succs|
    && Counting(g, root, end, npend, pq', g[t].succs[j..])
    && (forall x :: x in pq' ==> x in pq || (x.t < |g| && t in g[x.t].preds))
    && PushedAll(g, t, end.Keys, pushed, j) && QueueGrows(pq, pq', cnt, pushed) && cnt' == cnt + |pushed|
  }

  lemma RestOf(s: seq<nat>, j: nat)
    requires j < |s|
    ensures s[j..][0] == s[j] && s[j..][1..] == s[j + 1..] && forall x :: x in s[j..] ==> x in s
  {
  }

  method Visit(g: Graph, root: nat, t: nat, npend: seq<nat>, end: map<nat, real>, ghost pq0: set<Entry>, pq: set<Entry>,
               ghost cnt0: nat, cnt: nat, ghost pushed: seq<(nat, nat)>, j: nat)
    returns (npend': seq<nat>, pq': set<Entry>, cnt': nat, ghost pushed': seq<(nat, nat)>)
    requires Visited(g, root, t, end, npend, pq0, pq, cnt0, cnt, pushed, j) && j < |g[t].succs|
    ensures Visited(g, root, t, end, npend', pq0, pq', cnt0, cnt', pushed', j + 1)
  {
    RestOf(g[t].succs, j);
    npend', pq', cnt' := ReleaseOne(g, root, t, g[t].succs[j..], npend, end, pq, cnt);
    PushOne(g, t, end.Keys, pushed, j, g[t].succs[j..], pq0, pq, pq', cnt0, cnt, cnt');
    pushed' := if cnt' > cnt then pushed + [(g[t].succs[j], j)] else pushed;
  }

  /** `for s in t.succs: …` — `end` already has `t`. */
  method Release(g: Graph, root: nat, t: nat, npend: seq<nat>, end: map<nat, real>, pq: set<Entry>, cnt: nat)
    returns (npend': seq<nat>, pq': set<Entry>, cnt': nat, ghost pushed: seq<(nat, nat)>)
    requires WellFormed(g) && t < |g| && t in end
    requires Counts(g, end.Keys, g[t].succs, npend) && QueueSound(g, end, pq) &&
             QueueComplete(g, root, end.Keys, g[t].succs, pq)
    requires forall s :: s in g[t].succs ==> s !in end && !Queued(pq, s)
    ensures Visited(g, root, t, end, npend', pq, pq', cnt, cnt', pushed, |g[t].succs|)
  {
    npend', pq', cnt', pushed := npend, pq, cnt, [];
    assert g[t].succs[0..] == g[t].succs;
    for j := 0 to |g[t].succs|
      invariant Visited(g, root, t, end, npend', pq, pq', cnt, cnt', pushed, j)
    {
      npend', pq', cnt', pushed := Visit(g, root, t, npend', end, pq, pq', cnt, cnt', pushed, j);
    }
  }

  lemma CountDown(g: Graph, done: set<nat>, s: nat, rest: seq<nat>, npend: seq<nat>)
    requires s < |g| && Counts(g, done, [s] + rest, npend)
    ensures npend[s] > 0 && Counts(g, done, rest, npend[s := npend[s] - 1])
    ensures npend[s] == 1 ==> s !in rest
    ensures npend[s] == Pend(g[s].preds, done) + multiset(rest)[s] + 1
  {
    assert multiset([s] + rest) == multiset{s} + multiset(rest);
  }

  lemma PendingPred(g: Graph, t: nat, s: nat)
    requires WellFormed(g) && t < |g| && s in g[t].succs
    ensures s < |g| && t in g[s].preds
  {
    assert multiset(g[t].succs)[s] > 0;
    assert t in multiset(g[s].preds);
  }

  lemma QueueAdd(g: Graph, root: nat, end: map<nat, real>, s: nat, rest: seq<nat>, pq: set<Entry>, x: Entry)
    requires s < |g| && x.t == s && s !in end && IsReady(g, end, s, x.r) && !Queued(pq, s) && s !in rest
    requires QueueSound(g, end, pq) && QueueComplete(g, root, end.Keys, [s] + rest, pq)
    requires forall u :: u in rest ==> !Queued(pq, u)
    ensures QueueSound(g, end, pq + {x}) && QueueComplete(g, root, end.Keys, rest, pq + {x})
    ensures forall u :: u in rest ==> !Queued(pq + {x}, u)
  {
    forall u | 0 <= u < |g| && u !in rest && Due(g, end.Keys, u) && (g[u].preds != [] || u == root)
      ensures u in end.Keys || Queued(pq + {x}, u)
    {
      if u == s {
        assert x in pq + {x};
      } else if u !in end.Keys {
        assert u !in [s] + rest;
        var y :| y in pq && y.t == u;
        assert y in pq + {x};
      }
    }
  }

  // ---- first come, first served ----

  /** The tasks in the order they were pushed, where each was pushed from (at which task of the order, as which of
      its successors), and the number every task of the order was pushed under. */
  datatype Pushes = Pushes(tasks: seq<nat>, from: seq<(nat, nat)>, nums: seq<nat>)

  /** Successor `at` of task `t` is due with it, and does not come again behind. */
  ghost predicate PushedBy(g: Graph, t: nat, at: nat, s: nat, done: set<nat>) {
    && t < |g| && s < |g| && at < |g[t].succs| && g[t].succs[at] == s && s !in g[t].succs[at + 1..] && Due(g, done, s)
  }

  /** What visiting the successors of `t` pushed: tasks and places among the successors. */
  ghost predicate PushedAll(g: Graph, t: nat, done: set<nat>, pushed: seq<(nat, nat)>, n: nat) {
    && (forall k :: 0 <= k < |pushed| ==> pushed[k].1 < n && PushedBy(g, t, pushed[k].1, pushed[k].0, done))
    && forall k, l :: 0 <= k < l < |pushed| ==> pushed[k].1 < pushed[l].1
  }

  /** They are in the queue under the next numbers. */
  ghost predicate QueueGrows(pq: set<Entry>, pq': set<Entry>, cnt: nat, pushed: seq<(nat, nat)>) {
    forall x :: x in pq' && x !in pq ==> cnt <= x.cnt < cnt + |pushed| && pushed[x.cnt - cnt].0 == x.t
  }

  ghost function MembersOf(order: seq<nat>): set<nat> {
    set t | t in order
  }

  /** Pushed from an earlier task, or by an earlier successor of the same. */
  ghost predicate FromBefore(a: (nat, nat), b: (nat, nat)) {
    a.0 < b.0 || (a.0 == b.0 && a.1 < b.1)
  }

  /** Push `p` is of a successor of a task of the order, when the last of its predecessors had run. */
  ghost predicate PushAt(g: Graph, order: seq<nat>, pushes: Pushes, p: nat)
    requires p < |pushes.tasks| == |pushes.from|
  {
    var (i, at) := pushes.from[p];
    i < |order| && PushedBy(g, order[i], at, pushes.tasks[p], MembersOf(order[..i + 1]))
  }

  /** The root is pushed first, and the others in the order of what pushes them. */
  ghost predicate PushOrder(g: Graph, root: nat, order: seq<nat>, pushes: Pushes) {
    && |pushes.tasks| == |pushes.from| >= 1 && pushes.tasks[0] == root
    && (forall p :: 1 <= p < |pushes.tasks| ==> PushAt(g, order, pushes, p))
    && forall p, q :: 1 <= p < q < |pushes.from| ==> FromBefore(pushes.from[p], pushes.from[q])
  }

  /** Ready sooner, or pushed sooner. */
  ghost predicate Sooner(r: real, n: nat, r': real, n': nat) {
    r < r' || (r == r' && n < n')
  }

  /** The tasks run in the order they are ready, and of those ready together the first pushed runs first. */
  ghost predicate FirstCome(times: Times, order: seq<nat>, pushes: Pushes) {
    && |pushes.nums| == |order|
    && (forall i :: 0 <= i < |order| ==>
          order[i] in times.ready && pushes.nums[i] < |pushes.tasks| && pushes.tasks[pushes.nums[i]] == order[i])
    && forall i, j :: 0 <= i < j < |order| ==>
         Sooner(times.ready[order[i]], pushes.nums[i], times.ready[order[j]], pushes.nums[j])
  }

  /** And what is queued comes after. */
  ghost predicate QueueLater(times: Times, order: seq<nat>, pushes: Pushes, pq: set<Entry>)
    requires FirstCome(times, order, pushes)
  {
    forall x :: x in pq ==> LaterThanAll(times, order, pushes, x)
  }

  ghost predicate Served(g: Graph, root: nat, times: Times, order: seq<nat>, pushes: Pushes, pq: set<Entry>) {
    PushOrder(g, root, order, pushes) && FirstCome(times, order, pushes) && QueueLater(times, order, pushes, pq)
  }

  ghost function Tasks(pushed: seq<(nat, nat)>): (ts: seq<nat>)
    ensures |ts| == |pushed| && forall k :: 0 <= k < |pushed| ==> ts[k] == pushed[k].0
  {
    seq(|pushed|, k requires 0 <= k < |pushed| => pushed[k].0)
  }

  ghost function Places(i: nat, pushed: seq<(nat, nat)>): (from: seq<(nat, nat)>)
    ensures |from| == |pushed| && forall k :: 0 <= k < |pushed| ==> from[k] == (i, pushed[k].1)
  {
    seq(|pushed|, k requires 0 <= k < |pushed| => (i, pushed[k].1))
  }

  /** The pushes once `x` has run. */
  ghost function PushedOn(pushes: Pushes, i: nat, x: Entry, pushed: seq<(nat, nat)>): Pushes {
    Pushes(pushes.tasks + Tasks(pushed), pushes.from + Places(i, pushed), pushes.nums + [x.cnt])
  }

  lemma PushOrderOn(g: Graph, root: nat, order: seq<nat>, pushes: Pushes, x: Entry, pushed: seq<(nat, nat)>,
                    done: set<nat>, n: nat)
    requires PushOrder(g, root, order, pushes) && PushedAll(g, x.t, done, pushed, n)
    requires done == MembersOf(order + [x.t])
    ensures PushOrder(g, root, order + [x.t], PushedOn(pushes, |order|, x, pushed))
  {
    var order', pushes' := order + [x.t], PushedOn(pushes, |order|, x, pushed);
    forall p | 1 <= p < |pushes'.tasks|
      ensures PushAt(g, order', pushes', p)
    {
      if p < |pushes.tasks| {
        assert PushAt(g, order, pushes, p);
        var i := pushes.from[p].0;
        assert order'[..i + 1] == order[..i + 1];
      } else {
        assert PushedBy(g, x.t, pushed[p - |pushes.tasks|].1, pushed[p - |pushes.tasks|].0, done);
        assert order'[..|order| + 1] == order';
      }
    }
    forall p, q | 1 <= p < q < |pushes'.from|
      ensures FromBefore(pushes'.from[p], pushes'.from[q])
    {
      if p < |pushes.from| {
        assert PushAt(g, order, pushes, p);
      }
    }
  }

  /** The popped entry comes before all others. */
  lemma PoppedFirst(g: Graph, times: Times, order: seq<nat>, pushes: Pushes, pq: set<Entry>, x: Entry, y: Entry)
    requires FirstCome(times, order, pushes) && QueueLater(times, order, pushes, pq) && QueueSound(g, times.end, pq)
    requires x in pq && y in pq && y != x && EntryLe(x, y)
    ensures Sooner(x.r, x.cnt, y.r, y.cnt)
  {
    assert x.cnt == y.cnt ==> x.t == y.t;
  }

  lemma ServedOn(g: Graph, root: nat, times: Times, order: seq<nat>, pushes: Pushes, pq: set<Entry>, x: Entry,
                 times': Times, pq': set<Entry>, pushed: seq<(nat, nat)>, n: nat)
    requires Served(g, root, times, order, pushes, pq) && QueueSound(g, times.end, pq) && x in pq
    requires (forall y :: y in pq ==> EntryLe(x, y)) && times'.ready == times.ready[x.t := x.r] && x.t !in order
    requires PushedAll(g, x.t, MembersOf(order + [x.t]), pushed, n)
    requires QueueGrows(pq - {x}, pq', |pushes.tasks|, pushed) && forall y :: y in pq' ==> x.r <= y.r
    ensures Served(g, root, times', order + [x.t], PushedOn(pushes, |order|, x, pushed), pq')
  {
    PushOrderOn(g, root, order, pushes, x, pushed, MembersOf(order + [x.t]), n);
    FirstComeOn(times, order, pushes, pq, x, times', pushed);
    forall y | y in pq'
      ensures LaterThanAll(times', order + [x.t], PushedOn(pushes, |order|, x, pushed), y)
    {
      if y in pq {
        PoppedFirst(g, times, order, pushes, pq, x, y);
      }
      QueueLaterOn(times, order, pushes, pq, x, times', pq', pushed, y);
    }
  }

  ghost predicate LaterThanAll(times: Times, order: seq<nat>, pushes: Pushes, x: Entry)
    requires FirstCome(times, order, pushes)
  {
    && x.cnt < |pushes.tasks| && pushes.tasks[x.cnt] == x.t
    && forall i :: 0 <= i < |order| ==> Sooner(times.ready[order[i]], pushes.nums[i], x.r, x.cnt)
  }

  lemma FirstComeOn(times: Times, order: seq<nat>, pushes: Pushes, pq: set<Entry>, x: Entry, times': Times,
                    pushed: seq<(nat, nat)>)
    requires FirstCome(times, order, pushes) && QueueLater(times, order, pushes, pq) && x in pq && x.t !in order
    requires times'.ready == times.ready[x.t := x.r]
    ensures FirstCome(times', order + [x.t], PushedOn(pushes, |order|, x, pushed))
  {
    assert forall i :: 0 <= i < |order| ==> order[i] in order && order[i] != x.t;
  }

  lemma QueueLaterOn(times: Times, order: seq<nat>, pushes: Pushes, pq: set<Entry>, x: Entry, times': Times,
                     pq': set<Entry>, pushed: seq<(nat, nat)>, y: Entry)
    requires FirstCome(times, order, pushes) && QueueLater(times, order, pushes, pq) && x in pq && x.t !in order
    requires times'.ready == times.ready[x.t := x.r] && y in pq' && x.r <= y.r
    requires QueueGrows(pq - {x}, pq', |pushes.tasks|, pushed)
    requires y in pq - {x} ==> Sooner(x.r, x.cnt, y.r, y.cnt)
    requires FirstCome(times', order + [x.t], PushedOn(pushes, |order|, x, pushed))
    ensures LaterThanAll(times', order + [x.t], PushedOn(pushes, |order|, x, pushed), y)
  {
    var order', pushes' := order + [x.t], PushedOn(pushes, |order|, x, pushed);
    if y in pq - {x} {
      assert LaterThanAll(times, order, pushes, y);
    } else {
      assert y.cnt >= |pushes.tasks|;
    }
    forall i | 0 <= i < |order'|
      ensures Sooner(times'.ready[order'[i]], pushes'.nums[i], y.r, y.cnt)
    {
      if i < |order| {
        assert order'[i] == order[i] && order[i] in order;
        assert LaterThanAll(times, order, pushes, x);
      }
    }
  }

  // ---- resources ----

  ghost predicate FreeIs(g: Graph, end: map<nat, real>, free: map<Resource, real>, k: Resource) {
    && k in free && free[k] >= 0.0
    && (forall t :: t in end && t < |g| && Occupies(g, t, k) ==> end[t] <= free[k])
    && (free[k] == 0.0 || exists t :: t in end && t < |g| && Occupies(g, t, k) && end[t] == free[k])
  }

  ghost predicate BusyIs(g: Graph, end: map<nat, real>, busy: map<Resource, real>, k: Resource) {
    k in busy && busy[k] == Load(g, k, end.Keys, |g|)
  }

  /** `free`, `busy` and `T_end` are the last hand-over, the work done and the last end so far. */
  datatype Usage = Usage(free: map<Resource, real>, busy: map<Resource, real>, tEnd: real)

  ghost predicate UsageIs(g: Graph, end: map<nat, real>, u: Usage) {
    && (forall k :: FreeIs(g, end, u.free, k))
    && (forall k :: BusyIs(g, end, u.busy, k))
    && (forall k :: k in u.free && k in u.busy && u.busy[k] <= u.free[k] <= u.tEnd)
    && (forall t :: t in end ==> end[t] <= u.tEnd)
  }

  /** Start and end of a task, and what it does to the resources. */
  method Start(g: Graph, ghost end: map<nat, real>, u: Usage, t: nat, r: real) returns (st: real, en: real, u': Usage)
    requires WellFormed(g) && t < |g| && t !in end && r >= 0.0 && UsageIs(g, end, u)
    ensures r <= st && en == st + g[t].dur && UsageIs(g, end[t := en], u')
    ensures forall k, v :: Occupies(g, t, k) && v in end && v < |g| && Occupies(g, v, k) ==> end[v] <= st
    ensures st == r || Handover(g, end, t, st)
  {
    var task := g[t];
    if task.res.None? || task.dur == 0.0 {
      st, en := r, r + task.dur;
      u' := u.(tEnd := if en > u.tEnd then en else u.tEnd);
      UsageIdle(g, end, u, t, en);
    } else {
      var k := task.res.value;
      assert FreeIs(g, end, u.free, k) && BusyIs(g, end, u.busy, k);
      st := if r > u.free[k] then r else u.free[k];
      en := st + task.dur;
      u' := Usage(u.free[k := en], u.busy[k := u.busy[k] + task.dur], if en > u.tEnd then en else u.tEnd);
      UsageTaken(g, end, u, t, k, st);
    }
  }

  lemma UsageIdle(g: Graph, end: map<nat, real>, u: Usage, t: nat, en: real)
    requires t < |g| && t !in end && (g[t].res.None? || g[t].dur == 0.0) && UsageIs(g, end, u)
    ensures UsageIs(g, end[t := en], u.(tEnd := if en > u.tEnd then en else u.tEnd))
  {
    var end' := end[t := en];
    assert end'.Keys == end.Keys + {t};
    forall k
      ensures FreeIs(g, end', u.free, k) && BusyIs(g, end', u.busy, k)
    {
      assert FreeIs(g, end, u.free, k) && BusyIs(g, end, u.busy, k);
      LoadAdd(g, k, end.Keys, t, |g|);
    }
  }

  lemma UsageTaken(g: Graph, end: map<nat, real>, u: Usage, t: nat, k: Resource, st: real)
    requires WellFormed(g) && t < |g| && t !in end && Occupies(g, t, k) && UsageIs(g, end, u)
    requires k in u.free && k in u.busy && st >= u.free[k]
    ensures var en := st + g[t].dur;
            UsageIs(g, end[t := en],
                    Usage(u.free[k := en], u.busy[k := u.busy[k] + g[t].dur], if en > u.tEnd then en else u.tEnd))
  {
    var en := st + g[t].dur;
    var end' := end[t := en];
    var free', busy' := u.free[k := en], u.busy[k := u.busy[k] + g[t].dur];
    assert end'.Keys == end.Keys + {t};
    forall j
      ensures FreeIs(g, end', free', j)
    {
      assert FreeIs(g, end, u.free, j);
      assert j == k ==> t in end' && end'[t] == en;
    }
    forall j
      ensures BusyIs(g, end', busy', j)
    {
      assert BusyIs(g, end, u.busy, j);
      LoadAdd(g, j, end.Keys, t, |g|);
    }
  }

  // ---- one step of the schedule ----

  lemma TasksTimed(g: Graph, times: Times, t: nat, r: real, st: real, en: real, times': Times)
    requires t < |g| && t !in times.end && forall u :: u in times.end ==> TaskTimed(g, times, u)
    requires IsReady(g, times.end, t, r) && 0.0 <= r <= st && en == st + g[t].dur
    requires st == r || Handover(g, times.end, t, st)
    requires times' == Times(times.ready[t := r], times.start[t := st], times.end[t := en])
    ensures forall u :: u in times'.end ==> TaskTimed(g, times', u)
  {
    forall u | u in times'.end
      ensures TaskTimed(g, times', u)
    {
      if u != t {
        TimedFrame(g, times, times', t, u);
      } else {
        assert st != r ==> Handover(g, times'.end, t, st) by {
          if st != r {
            var v :| v < |g| && v in times.end && v != t && g[t].res.Some? && Occupies(g, v, g[t].res.value) &&
                times.end[v] == st;
            assert v in times'.end && times'.end[v] == st;
          }
        }
      }
    }
  }

  lemma TimedStep(g: Graph, times: Times, order: seq<nat>, t: nat, r: real, st: real, en: real, times': Times)
    requires Schedule(g, times, order) && t < |g| && t !in times.end
    requires IsReady(g, times.end, t, r) && 0.0 <= r <= st && en == st + g[t].dur
    requires st == r || Handover(g, times.end, t, st)
    requires times' == Times(times.ready[t := r], times.start[t := st], times.end[t := en])
    requires forall u :: u in order ==> TaskTimed(g, times, u) && times.ready[u] <= r
    requires forall k, v :: Occupies(g, t, k) && v in times.end && v < |g| && Occupies(g, v, k) ==> times.end[v] <= st
    ensures Schedule(g, times', order + [t])
  {
    TasksTimed(g, times, t, r, st, en, times');
    DistinctConcat(order, [t]);
    forall u | u in order
      ensures InTurn(g, times', u, t)
    {
      InTurnLast(g, times, times', t, st, u);
    }
    OrderKept(g, times, times', order, t);
  }

  lemma OrderKept(g: Graph, times: Times, times': Times, order: seq<nat>, t: nat)
    requires forall i, j :: 0 <= i < j < |order| ==> InTurn(g, times, order[i], order[j])
    requires forall u :: u in order ==> u in times.end
    requires t !in times.end && t in times'.ready && t in times'.start && t in times'.end
    requires times' == Times(times.ready[t := times'.ready[t]], times.start[t := times'.start[t]],
             times.end[t := times'.end[t]])
    requires forall u :: u in order ==> InTurn(g, times', u, t)
    ensures forall i, j :: 0 <= i < j < |order + [t]| ==> InTurn(g, times', (order + [t])[i], (order + [t])[j])
  {
    var order' := order + [t];
    forall i, j | 0 <= i < j < |order'|
      ensures InTurn(g, times', order'[i], order'[j])
    {
      assert order[i] in order;
      if j < |order| {
        assert order[j] in order;
        InTurnKept(g, times, times', t, order[i], order[j]);
      }
    }
  }

  lemma InTurnKept(g: Graph, times: Times, times': Times, t: nat, u: nat, v: nat)
    requires InTurn(g, times, u, v) && u in times.end && v in times.end && t !in times.end
    requires t in times'.ready && t in times'.start && t in times'.end
    requires times' == Times(times.ready[t := times'.ready[t]], times.start[t := times'.start[t]],
             times.end[t := times'.end[t]])
    ensures InTurn(g, times', u, v)
  {
  }

  lemma InTurnLast(g: Graph, times: Times, times': Times, t: nat, st: real, u: nat)
    requires t < |g| && TaskTimed(g, times, u) && t !in times.end
    requires t in times'.ready && times'.start == times.start[t := st] && t in times'.end
    requires times' == Times(times.ready[t := times'.ready[t]], times'.start, times.end[t := times'.end[t]])
    requires times.ready[u] <= times'.ready[t]
    requires forall k :: Occupies(g, t, k) && Occupies(g, u, k) ==> times.end[u] <= st
    ensures InTurn(g, times', u, t)
  {
  }

  lemma TimedFrame(g: Graph, times: Times, times': Times, t: nat, u: nat)
    requires TaskTimed(g, times, u) && t !in times.end && u != t && t in times'.end
    requires times'.end == times.end[t := times'.end[t]]
    requires u in times'.ready && u in times'.start && times'.ready[u] == times.ready[u] &&
             times'.start[u] == times.start[u]
    ensures TaskTimed(g, times', u)
  {
    if times.start[u] != times.ready[u] {
      var v :| v < |g| && v in times.end && v != u && g[u].res.Some? && Occupies(g, v, g[u].res.value) &&
          times.end[v] == times.start[u];
      assert v in times'.end && times'.end[v] == times'.start[u];
    }
  }

  // ---- the whole run ----

  /** The queue and the counters once all successors of the tasks run have been visited. */
  ghost predicate InQueue(g: Graph, root: nat, end: map<nat, real>, npend: seq<nat>, pq: set<Entry>) {
    Counts(g, end.Keys, [], npend) && QueueSound(g, end, pq) && QueueComplete(g, root, end.Keys, [], pq)
  }

  /** The tasks run form a schedule, and what is queued is ready no earlier than they were. */
  ghost predicate InOrder(g: Graph, times: Times, order: seq<nat>, pq: set<Entry>) {
    && Schedule(g, times, order)
    && (forall t, x :: t in times.end && x in pq ==> t in times.ready && times.ready[t] <= x.r)
    && (forall x :: x in pq ==> x.r >= 0.0)
  }

  /** Nothing that is due is left behind. */
  ghost predicate Exhausted(g: Graph, root: nat, done: set<nat>) {
    forall s :: 0 <= s < |g| && Due(g, done, s) && (g[s].preds != [] || s == root) ==> s in done
  }

  /** The unfinished tasks. */
  ghost function Unfinished(g: Graph, end: map<nat, real>): set<nat> {
    set t: nat | t < |g| && t !in end
  }

  lemma FewerUnfinished(g: Graph, end: map<nat, real>, t: nat, en: real)
    requires t < |g| && t !in end
    ensures |Unfinished(g, end[t := en])| < |Unfinished(g, end)|
  {
    assert t in Unfinished(g, end);
    assert Unfinished(g, end[t := en]) == Unfinished(g, end) - {t};
  }

  /** The queue as `Release` finds it once `t` has its end. */
  lemma Finished(g: Graph, root: nat, times: Times, npend: seq<nat>, pq: set<Entry>, x: Entry, en: real)
    requires WellFormed(g) && x in pq && x.t < |g| && x.t !in times.end
    requires Counts(g, times.end.Keys, [], npend) && QueueSound(g, times.end, pq) &&
             QueueComplete(g, root, times.end.Keys, [], pq)
    requires forall v :: v in times.end ==> TaskTimed(g, times, v)
    ensures var end' := times.end[x.t := en];
            && Counts(g, end'.Keys, g[x.t].succs, npend) && QueueSound(g, end', pq - {x})
            && QueueComplete(g, root, end'.Keys, g[x.t].succs, pq - {x})
            && forall s :: s in g[x.t].succs ==> s !in end' && !Queued(pq - {x}, s)
  {
    var t := x.t;
    var end' := times.end[t := en];
    assert end'.Keys == times.end.Keys + {t};
    forall s | 0 <= s < |g|
      ensures npend[s] == Pend(g[s].preds, end'.Keys) + multiset(g[t].succs)[s]
    {
      PendAdd(g[s].preds, times.end.Keys, t);
    }
    FinishedSound(g, times, pq, x, en);
    FinishedComplete(g, root, times, pq, x);
    forall s | s in g[t].succs
      ensures s !in end' && !Queued(pq - {x}, s)
    {
      PendingPred(g, t, s);
      assert s in times.end ==> TaskTimed(g, times, s);
      assert IsReady(g, times.end, t, x.r);
    }
  }

  lemma FinishedSound(g: Graph, times: Times, pq: set<Entry>, x: Entry, en: real)
    requires QueueSound(g, times.end, pq) && x in pq
    ensures QueueSound(g, times.end[x.t := en], pq - {x})
  {
    forall y | y in pq - {x}
      ensures y.t < |g| && y.t !in times.end[x.t := en] && IsReady(g, times.end[x.t := en], y.t, y.r)
    {
    }
  }

  lemma FinishedComplete(g: Graph, root: nat, times: Times, pq: set<Entry>, x: Entry)
    requires WellFormed(g) && x in pq && x.t < |g| && QueueComplete(g, root, times.end.Keys, [], pq)
    ensures QueueComplete(g, root, times.end.Keys + {x.t}, g[x.t].succs, pq - {x})
  {
    var done := times.end.Keys + {x.t};
    forall s | 0 <= s < |g| && s !in g[x.t].succs && Due(g, done, s) && (g[s].preds != [] || s == root)
      ensures s in done || Queued(pq - {x}, s)
    {
      assert Due(g, times.end.Keys, s) && s !in [];
      if s !in done {
        var y :| y in pq && y.t == s;
        assert y in pq - {x};
      }
    }
  }

  /** What `Release` pushed is ready no earlier than what was popped. */
  lemma LaterReady(g: Graph, times: Times, times': Times, pq: set<Entry>, pq': set<Entry>, x: Entry, st: real, en: real)
    requires x in pq && x.t !in times.end && x.t < |g| && x.r >= 0.0 && x.r <= st <= en
    requires times' == Times(times.ready[x.t := x.r], times.start[x.t := st], times.end[x.t := en])
    requires forall t, y :: t in times.end && y in pq ==> t in times.ready && times.ready[t] <= y.r
    requires forall y :: y in pq ==> EntryLe(x, y)
    requires QueueSound(g, times'.end, pq')
    requires forall y :: y in pq' ==> y in pq - {x} || x.t in g[y.t].preds
    ensures forall t, y :: t in times'.end && y in pq' ==> t in times'.ready && times'.ready[t] <= y.r
    ensures forall y :: y in pq' ==> y.r >= 0.0
  {
    forall y | y in pq'
      ensures x.r <= y.r
    {
      if y in pq {
        assert EntryLe(x, y);
      } else {
        assert IsReady(g, times'.end, y.t, y.r);
        assert times'.end[x.t] <= y.r;
      }
    }
    forall t, y | t in times'.end && y in pq'
      ensures t in times'.ready && times'.ready[t] <= y.r
    {
      if t != x.t {
        assert x in pq && times.ready[t] <= x.r;
      }
    }
  }

  function Zeros(): map<Resource, real> {
    map[Dgpu := 0.0, Igpu1 := 0.0, Igpu2 := 0.0, Nvme1 := 0.0, Nvme2 := 0.0]
  }

  lemma RunStep(g: Graph, times: Times, order: seq<nat>, pq: set<Entry>, x: Entry, st: real, en: real, times': Times,
                pq': set<Entry>)
    requires InOrder(g, times, order, pq) && QueueSound(g, times.end, pq)
    requires x in pq && forall y :: y in pq ==> EntryLe(x, y)
    requires x.t < |g| && g[x.t].dur >= 0.0 && x.r <= st && en == st + g[x.t].dur
    requires forall k, v :: Occupies(g, x.t, k) && v in times.end && v < |g| && Occupies(g, v, k) ==> times.end[v] <= st
    requires st == x.r || Handover(g, times.end, x.t, st)
    requires times' == Times(times.ready[x.t := x.r], times.start[x.t := st], times.end[x.t := en])
    requires QueueSound(g, times'.end, pq') && forall y :: y in pq' ==> y in pq - {x} || x.t in g[y.t].preds
    ensures InOrder(g, times', order + [x.t], pq')
  {
    OrderReady(g, times, order, pq, x);
    TimedStep(g, times, order, x.t, x.r, st, en, times');
    LaterReady(g, times, times', pq, pq', x, st, en);
  }

  lemma OrderReady(g: Graph, times: Times, order: seq<nat>, pq: set<Entry>, x: Entry)
    requires InOrder(g, times, order, pq) && x in pq
    ensures forall u :: u in order ==> TaskTimed(g, times, u) && times.ready[u] <= x.r
  {
  }

  lemma FinishedQueue(g: Graph, root: nat, times: Times, order: seq<nat>, npend: seq<nat>, pq: set<Entry>, x: Entry,
                      en: real,
                      end': map<nat, real>)
    requires WellFormed(g) && Schedule(g, times, order) && InQueue(g, root, times.end, npend, pq) && x in pq
    requires x.t < |g| && x.t !in times.end && end' == times.end[x.t := en]
    ensures Counts(g, end'.Keys, g[x.t].succs, npend) && QueueSound(g, end', pq - {x})
    ensures QueueComplete(g, root, end'.Keys, g[x.t].succs, pq - {x})
    ensures forall s :: s in g[x.t].succs ==> s !in end' && !Queued(pq - {x}, s)
  {
    Finished(g, root, times, npend, pq, x, en);
  }

  /** The loop invariant. */
  ghost predicate LoopAt(g: Graph, root: nat, end: map<nat, real>, u: Usage, npend: seq<nat>, pq: set<Entry>, cnt: nat,
                         times: Times, order: seq<nat>, pushes: Pushes)
  {
    && times.end == end && InOrder(g, times, order, pq) && InQueue(g, root, end, npend, pq) && UsageIs(g, end, u)
    && Served(g, root, times, order, pushes, pq) && cnt == |pushes.tasks|
  }

  /** One turn: the next task of the queue runs. */
  method RunNext(g: Graph, root: nat, end: map<nat, real>, u: Usage, npend: seq<nat>, pq: set<Entry>, cnt: nat,
                 ghost times: Times, ghost order: seq<nat>, ghost pushes: Pushes)
    returns (end': map<nat, real>, u': Usage, npend': seq<nat>, pq': set<Entry>, cnt': nat, ghost times': Times,
             ghost order': seq<nat>, ghost pushes': Pushes)
    requires WellFormed(g) && LoopAt(g, root, end, u, npend, pq, cnt, times, order, pushes) && pq != {}
    ensures LoopAt(g, root, end', u', npend', pq', cnt', times', order', pushes')
    ensures |Unfinished(g, end')| < |Unfinished(g, end)|
  {
    var x, rest := PriorityQueue.PopSet(pq, EntryLe);
    var st, en;
    st, en, u' := Start(g, end, u, x.t, x.r);
    times' := Times(times.ready[x.t := x.r], times.start[x.t := st], end[x.t := en]);
    FinishedQueue(g, root, times, order, npend, pq, x, en, end[x.t := en]);
    FewerUnfinished(g, end, x.t, en);
    end' := end[x.t := en];
    ghost var pushed;
    npend', pq', cnt', pushed := Release(g, root, x.t, npend, end', rest, cnt);
    RunStep(g, times, order, pq, x, st, en, times', pq');
    ServedStep(g, root, times, order, pushes, pq, x, st, en, times', pq', pushed);
    order', pushes' := order + [x.t], PushedOn(pushes, |order|, x, pushed);
  }

  /** The event loop: the tasks it runs form a schedule, none that is due is left behind, and it reports
      for every resource the work done on it. */
  method EventLoop(g: Graph, root: nat)
    returns (end: map<nat, real>, u: Usage, ghost times: Times, ghost order: seq<nat>, ghost pushes: Pushes)
    requires WellFormed(g) && root < |g| && g[root].preds == []
    ensures times.end == end && Schedule(g, times, order) && Exhausted(g, root, end.Keys)
    ensures PushOrder(g, root, order, pushes) && FirstCome(times, order, pushes)
    ensures UsageIs(g, end, u)
  {
    var npend: seq<nat> := seq(|g|, i requires 0 <= i < |g| => g[i].npend);
    var pq, cnt := {Entry(0.0, 0, root)}, 1;
    end, u := map[], Usage(Zeros(), Zeros(), 0.0);
    times, order, pushes := Times(map[], map[], map[]), [], Pushes([root], [(0, 0)], []);
    Initially(g, root, npend);
    while pq != {}
      invariant LoopAt(g, root, end, u, npend, pq, cnt, times, order, pushes)
      decreases |Unfinished(g, end)|
    {
      end, u, npend, pq, cnt, times, order, pushes := RunNext(g, root, end, u, npend, pq, cnt, times, order, pushes);
    }
  }

  lemma ServedStep(g: Graph, root: nat, times: Times, order: seq<nat>, pushes: Pushes, pq: set<Entry>, x: Entry,
                   st: real, en: real, times': Times, pq': set<Entry>, pushed: seq<(nat, nat)>)
    requires Served(g, root, times, order, pushes, pq) && InOrder(g, times, order, pq) && QueueSound(g, times.end, pq)
    requires x in pq && (forall y :: y in pq ==> EntryLe(x, y)) && x.t < |g|
    requires times' == Times(times.ready[x.t := x.r], times.start[x.t := st], times.end[x.t := en])
    requires PushedAll(g, x.t, times'.end.Keys, pushed, |g[x.t].succs|)
    requires QueueGrows(pq - {x}, pq', |pushes.tasks|, pushed) && InOrder(g, times', order + [x.t], pq')
    ensures Served(g, root, times', order + [x.t], PushedOn(pushes, |order|, x, pushed), pq')
  {
    assert times'.end.Keys == MembersOf(order + [x.t]);
    forall y | y in pq'
      ensures x.r <= y.r
    {
      assert x.t in times'.end;
    }
    ServedOn(g, root, times, order, pushes, pq, x, times', pq', pushed, |g[x.t].succs|);
  }

  lemma Initially(g: Graph, root: nat, npend: seq<nat>)
    requires WellFormed(g) && root < |g| && g[root].preds == []
    requires |npend| == |g| && forall s :: 0 <= s < |g| ==> npend[s] == g[s].npend
    ensures InOrder(g, Times(map[], map[], map[]), [], {Entry(0.0, 0, root)})
    ensures InQueue(g, root, map[], npend, {Entry(0.0, 0, root)})
    ensures UsageIs(g, map[], Usage(Zeros(), Zeros(), 0.0))
  {
    var times := Times(map[], map[], map[]);
    var x := Entry(0.0, 0, root);
    forall s | 0 <= s < |g|
      ensures npend[s] == Pend(g[s].preds, {})
    {
      PendNone(g[s].preds);
    }
    assert x in {x} && Queued({x}, root);
    forall s | 0 <= s < |g| && g[s].preds != []
      ensures !Due(g, {}, s)
    {
      assert g[s].preds[0] in g[s].preds;
    }
    UnusedAtFirst(g);
    assert times.end.Keys == {};
  }

  lemma UnusedAtFirst(g: Graph)
    ensures UsageIs(g, map[], Usage(Zeros(), Zeros(), 0.0))
  {
    var none: map<nat, real> := map[];
    assert none.Keys == {};
    forall k
      ensures FreeIs(g, none, Zeros(), k) && BusyIs(g, none, Zeros(), k) && Zeros()[k] == 0.0
    {
      LoadNone(g, k, |g|);
      assert k == Dgpu || k == Igpu1 || k == Igpu2 || k == Nvme1 || k == Nvme2;
    }
  }

  lemma {:induction false} LoadNone(g: Graph, k: Resource, n: nat)
    requires n <= |g|
    ensures Load(g, k, {}, n) == 0.0
  {
    if n > 0 {
      LoadNone(g, k, n - 1);
    }
  }

  // ---- connected graphs without cycles ----

  /** Every task but the root waits for another one. */
  ghost predicate OneSource(g: Graph, root: nat) {
    forall t :: 0 <= t < |g| && g[t].preds == [] ==> t == root
  }

  /** Every task but the last one has a successor. */
  ghost predicate OneSink(g: Graph, last: nat) {
    forall t :: 0 <= t < |g| && g[t].succs == [] ==> t == last
  }

  /** Without cycles and stray sources every task is run. */
  lemma {:induction false} EveryTaskRuns(g: Graph, rank: seq<nat>, root: nat, done: set<nat>, t: nat)
    requires Ranked(g, rank) && OneSource(g, root) && Exhausted(g, root, done) && t < |g|
    ensures t in done
    decreases rank[t]
  {
    forall p | p in g[t].preds
      ensures p in done
    {
      EveryTaskRuns(g, rank, root, done, p);
    }
    assert Due(g, done, t);
  }

  ghost predicate Bounded(rank: seq<nat>, top: nat) {
    forall t :: 0 <= t < |rank| ==> rank[t] <= top
  }

  /** Along every edge rank and end climb. */
  ghost predicate Flows(g: Graph, rank: seq<nat>, end: map<nat, real>)
    requires |rank| == |g|
  {
    && (forall t :: 0 <= t < |g| ==> t in end)
    && forall t: nat, s: nat {:trigger s in g[t].succs} :: t < |g| && s in g[t].succs ==>
         s < |g| && rank[t] < rank[s] && end[t] <= end[s]
  }

  lemma ScheduleFlows(g: Graph, rank: seq<nat>, times: Times, order: seq<nat>)
    requires WellFormed(g) && Ranked(g, rank)
    requires Schedule(g, times, order) && forall v :: 0 <= v < |g| ==> v in times.end
    ensures Flows(g, rank, times.end)
  {
    forall t: nat, s: nat {:trigger s in g[t].succs} | t < |g| && s in g[t].succs
      ensures s < |g| && rank[t] < rank[s] && times.end[t] <= times.end[s]
    {
      PendingPred(g, t, s);
      EdgeFlows(g, times, t, s);
    }
  }

  lemma EdgeFlows(g: Graph, times: Times, t: nat, s: nat)
    requires s < |g| && TaskTimed(g, times, s) && t in g[s].preds && g[s].dur >= 0.0
    ensures t in times.end && times.end[t] <= times.end[s]
  {
  }

  lemma {:induction false} FlowUp(g: Graph, rank: seq<nat>, top: nat, end: map<nat, real>, last: nat, t: nat)
    requires |rank| == |g| && Flows(g, rank, end) && Bounded(rank, top) && OneSink(g, last) && last < |g| && t < |g|
    ensures end[t] <= end[last]
    decreases top - rank[t]
  {
    if t != last {
      var s := g[t].succs[0];
      assert s in g[t].succs;
      FlowUp(g, rank, top, end, last, s);
    }
  }

  /** With one sink, everything ends before the sink does. */
  lemma EndsBeforeLast(g: Graph, rank: seq<nat>, top: nat, times: Times, order: seq<nat>, last: nat, t: nat)
    requires WellFormed(g) && Ranked(g, rank) && Bounded(rank, top) && OneSink(g, last) && last < |g| && t < |g|
    requires Schedule(g, times, order) && forall v :: 0 <= v < |g| ==> v in times.end
    ensures times.end[t] <= times.end[last]
  {
    ScheduleFlows(g, rank, times, order);
    FlowUp(g, rank, top, times.end, last, t);
  }

  /** All the work there is for `k`. */
  ghost function Work(g: Graph, k: Resource, n: nat): real
    requires n <= |g|
  {
    if n == 0 then 0.0 else Work(g, k, n - 1) + if Occupies(g, n - 1, k) then g[n - 1].dur else 0.0
  }

  lemma {:induction false} LoadIsWork(g: Graph, k: Resource, done: set<nat>, n: nat)
    requires n <= |g| && forall t :: 0 <= t < n ==> t in done
    ensures Load(g, k, done, n) == Work(g, k, n)
  {
    if n > 0 {
      LoadIsWork(g, k, done, n - 1);
    }
  }

  lemma AllRun(g: Graph, rank: seq<nat>, root: nat, done: set<nat>)
    requires Ranked(g, rank) && OneSource(g, root) && Exhausted(g, root, done)
    ensures forall t :: 0 <= t < |g| ==> t in done
  {
    forall t | 0 <= t < |g|
      ensures t in done
    {
      EveryTaskRuns(g, rank, root, done, t);
    }
  }

  ghost predicate AllEndBy(g: Graph, end: map<nat, real>, at: real) {
    forall t :: 0 <= t < |g| ==> t in end && end[t] <= at
  }

  lemma AllEndBeforeLast(g: Graph, rank: seq<nat>, top: nat, end: map<nat, real>, last: nat)
    requires |rank| == |g| && Flows(g, rank, end) && Bounded(rank, top) && OneSink(g, last) && last < |g|
    ensures AllEndBy(g, end, end[last])
  {
    forall t | 0 <= t < |g|
      ensures end[t] <= end[last]
    {
      FlowUp(g, rank, top, end, last, t);
    }
  }

  /** The last end bounds every hand-over, and so all the work done on a resource. */
  lemma BusyBy(g: Graph, end: map<nat, real>, u: Usage, k: Resource, at: real)
    requires UsageIs(g, end, u) && AllEndBy(g, end, at) && at >= 0.0
    ensures k in u.busy && u.busy[k] == Work(g, k, |g|) <= at
  {
    assert FreeIs(g, end, u.free, k) && BusyIs(g, end, u.busy, k);
    LoadIsWork(g, k, end.Keys, |g|);
    if u.free[k] != 0.0 {
      var t :| t in end && t < |g| && Occupies(g, t, k) && end[t] == u.free[k];
      assert end[t] <= at;
    }
  }

  /** Every task runs, no resource is busier than the run is long, and the busy time is all the work there is. */
  lemma BusyWithinTotal(g: Graph, rank: seq<nat>, top: nat, root: nat, last: nat, times: Times, order: seq<nat>,
                        u: Usage)
    requires WellFormed(g) && Ranked(g, rank) && Bounded(rank, top) && OneSource(g, root) && OneSink(g, last) &&
             last < |g|
    requires Schedule(g, times, order) && Exhausted(g, root, times.end.Keys) && UsageIs(g, times.end, u)
    ensures forall t :: 0 <= t < |g| ==> t in order && TaskTimed(g, times, t)
    ensures last in times.end && AllEndBy(g, times.end, times.end[last])
    ensures forall k :: k in u.busy && u.busy[k] == Work(g, k, |g|) <= times.end[last]
  {
    AllRun(g, rank, root, times.end.Keys);
    ScheduleFlows(g, rank, times, order);
    AllEndBeforeLast(g, rank, top, times.end, last);
    assert TaskTimed(g, times, last);
    forall k
      ensures k in u.busy && u.busy[k] == Work(g, k, |g|) <= times.end[last]
    {
      BusyBy(g, times.end, u, k, times.end[last]);
    }
  }
}
