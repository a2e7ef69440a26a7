/** Prefill of a whole prompt: the chunks, the ring of rows entering the decoder, and the bounded replay
    (scripts/ced_edit.py, crates/v4flash-kernels/src/het/forward_prefill.rs). */
module PromptPrefill {
  import opened Arithmetic
  import opened Prelude
  import opened TwoLanePrefill

  // ---- which reads a range makes ----

  /** Layer `l` has read at position `q`. */
  ghost predicate ReadAt(log: seq<Use>, l: nat, q: nat) {
    exists i :: 0 <= i < |log| && log[i].layer == l && log[i].pos == q
  }

  /** Layer by layer, position by position. */
  ghost predicate InOrder(log: seq<Use>) {
    forall i, j :: 0 <= i < j < |log| ==>
      log[i].layer < log[j].layer || (log[i].layer == log[j].layer && log[i].pos < log[j].pos)
  }

  ghost predicate Within(log: seq<Use>, l0: nat, l1: nat, p0: nat, p1: nat) {
    forall i :: 0 <= i < |log| ==> l0 <= log[i].layer < l1 && p0 <= log[i].pos < p1
  }

  /** The reads are one of each layer of `[l0, l1)` at each position of `[p0, p1)`, in order. */
  ghost predicate IsGrid(log: seq<Use>, l0: nat, l1: nat, p0: nat, p1: nat) {
    && Within(log, l0, l1, p0, p1) && InOrder(log)
    && forall l, q :: l0 <= l < l1 && p0 <= q < p1 ==> ReadAt(log, l, q)
  }

  lemma ReadAtJoin(a: seq<Use>, b: seq<Use>, l: nat, q: nat)
    ensures ReadAt(a + b, l, q) <==> ReadAt(a, l, q) || ReadAt(b, l, q)
  {
    var ab := a + b;
    if ReadAt(a, l, q) {
      var i :| 0 <= i < |a| && a[i].layer == l && a[i].pos == q;
      assert ab[i] == a[i];
    } else if ReadAt(b, l, q) {
      var i :| 0 <= i < |b| && b[i].layer == l && b[i].pos == q;
      assert ab[|a| + i] == b[i];
    }
  }

  /** One more row. */
  lemma GridRow(log: seq<Use>, l: nat, p0: nat, p1: nat, u: Use)
    requires IsGrid(log, l, l + 1, p0, p1) && p0 <= p1 && u.layer == l && u.pos == p1
    ensures IsGrid(log + [u], l, l + 1, p0, p1 + 1)
  {
    forall k, q | l <= k < l + 1 && p0 <= q < p1 + 1
      ensures ReadAt(log + [u], k, q)
    {
      ReadAtJoin(log, [u], k, q);
      assert [u][0] == u;
    }
  }

  /** One more layer. */
  lemma GridLayer(a: seq<Use>, b: seq<Use>, l0: nat, l: nat, p0: nat, p1: nat)
    requires l0 <= l && IsGrid(a, l0, l, p0, p1) && IsGrid(b, l, l + 1, p0, p1)
    ensures IsGrid(a + b, l0, l + 1, p0, p1)
  {
    forall k, q | l0 <= k < l + 1 && p0 <= q < p1
      ensures ReadAt(a + b, k, q)
    {
      ReadAtJoin(a, b, k, q);
    }
  }

  lemma {:induction false} LayerLogIsGrid(layer: nat, ratio: nat, pos0: nat, b: nat)
    ensures IsGrid(LayerLog(layer, ratio, pos0, b), layer, layer + 1, pos0, pos0 + b)
  {
    if b > 0 {
      LayerLogIsGrid(layer, ratio, pos0, b - 1);
      GridRow(LayerLog(layer, ratio, pos0, b - 1), layer, pos0, pos0 + b - 1,
              Use(layer, pos0 + b - 1, Visible(ratio, pos0 + b - 1)));
    }
  }

  /** A range that attends in all its layers. */
  lemma {:induction false} RangeLogIsGrid(net: Net, lo: nat, hi: nat, ced: Mode, pos0: nat, b: nat)
    requires lo <= hi <= |net.ratios| && (ced == KvSourceOnly ==> hi <= net.split)
    ensures IsGrid(RangeLog(net, lo, hi, ced, pos0, b), lo, hi, pos0, pos0 + b)
  {
    if lo < hi {
      RangeLogIsGrid(net, lo, hi - 1, ced, pos0, b);
      LayerLogIsGrid(hi - 1, net.ratios[hi - 1], pos0, b);
      GridLayer(RangeLog(net, lo, hi - 1, ced, pos0, b), LayerLog(hi - 1, net.ratios[hi - 1], pos0, b), lo, hi - 1,
                pos0, pos0 + b);
    }
  }

  /** How many layers read in a chunk: all of them, or those below the split. */
  ghost function Reading(net: Net, ced: bool): nat {
    if ced then net.split else |net.ratios|
  }

  lemma ChunkIsGrid(net: Net, ced: bool, pos: nat, b: nat)
    requires net.split < |net.ratios|
    ensures var mode, hi := if ced then KvSourceOnly else Exact, if ced then net.split + 1 else |net.ratios|;
            IsGrid(RangeLog(net, 0, hi, mode, pos, b), 0, Reading(net, ced), pos, pos + b)
  {
    RangeLogIsGrid(net, 0, Reading(net, ced), if ced then KvSourceOnly else Exact, pos, b);
  }

  // ---- the reads of a prompt ----

  /** Stretch `k` of the log, up to `ends[k + 1]`, is chunk `k`, from position `starts[k]` to the next. */
  ghost predicate Stretches(log: seq<Use>, layers: nat, starts: seq<nat>, ends: seq<nat>) {
    && |starts| == |ends| >= 1 && ends[0] == 0 && ends[|ends| - 1] == |log|
    && forall k :: 0 <= k < |starts| - 1 ==> Stretch(log, layers, starts, ends, k)
  }

  ghost predicate Stretch(log: seq<Use>, layers: nat, starts: seq<nat>, ends: seq<nat>, k: nat)
    requires k + 1 < |starts| == |ends|
  {
    && starts[k] < starts[k + 1] && ends[k] <= ends[k + 1] <= |log|
    && IsGrid(log[ends[k]..ends[k + 1]], 0, layers, starts[k], starts[k + 1])
  }

  lemma OneMoreStretch(log: seq<Use>, layers: nat, starts: seq<nat>, ends: seq<nat>, more: seq<Use>, start: nat)
    requires Stretches(log, layers, starts, ends) && starts[|starts| - 1] < start
    requires IsGrid(more, 0, layers, starts[|starts| - 1], start)
    ensures Stretches(log + more, layers, starts + [start], ends + [|log + more|])
  {
    var log', starts', ends' := log + more, starts + [start], ends + [|log + more|];
    forall k | 0 <= k < |starts'| - 1
      ensures Stretch(log', layers, starts', ends', k)
    {
      if k == |starts| - 1 {
        assert log'[ends'[k]..ends'[k + 1]] == more;
      } else {
        assert Stretch(log, layers, starts, ends, k);
        assert log'[ends'[k]..ends'[k + 1]] == log[ends[k]..ends[k + 1]];
      }
    }
  }

  /** The layers below `layers` have read at every position of `[p0, p1)`, and no layer at any other. */
  ghost predicate ReadsAre(log: seq<Use>, layers: nat, p0: nat, p1: nat) {
    forall l: nat, q: nat :: ReadAt(log, l, q) <==> l < layers && p0 <= q < p1
  }

  lemma MoreReads(log: seq<Use>, layers: nat, p0: nat, p1: nat, more: seq<Use>, p2: nat)
    requires ReadsAre(log, layers, p0, p1) && p0 <= p1 <= p2 && IsGrid(more, 0, layers, p1, p2)
    ensures ReadsAre(log + more, layers, p0, p2)
  {
    forall l: nat, q: nat
      ensures ReadAt(log + more, l, q) <==> l < layers && p0 <= q < p2
    {
      ReadAtJoin(log, more, l, q);
    }
  }

  /** The reads of a prompt of `t` tokens from `pos0` on.  In full: every layer at every position.  Split: every
      encoder layer at every position, and every decoder layer at the last 128 alone. */
  ghost predicate PromptReads(net: Net, ced: bool, pos0: nat, t: nat, log: seq<Use>) {
    forall l: nat, q: nat :: ReadAt(log, l, q) <==>
      l < |net.ratios| && pos0 <= q < pos0 + t && (ced && l >= net.split && t > 128 ==> q >= pos0 + t - 128)
  }

  /** In order: the chunks, and then the decoder's layers. */
  ghost predicate PromptOrder(net: Net, ced: bool, pos0: nat, t: nat, log: seq<Use>, starts: seq<nat>, ends: seq<nat>)
  {
    && |starts| == |ends| >= 1 && starts[0] == pos0 && starts[|starts| - 1] == pos0 + t && ends[|ends| - 1] <= |log|
    && Stretches(log[..ends[|ends| - 1]], if ced then net.split else |net.ratios|, starts, ends)
    && if ced then IsGrid(log[ends[|ends| - 1]..], net.split, |net.ratios|, pos0 + t - (if t > 128 then 128 else t),
                          pos0 + t)
       else ends[|ends| - 1] == |log|
  }

  /** A chunk ends `sizes(k)` behind its start, or at the end of the prompt. */
  ghost predicate ChunksOf(starts: seq<nat>, end: nat, sizes: nat -> nat) {
    forall k :: 0 <= k < |starts| - 1 ==>
      starts[k + 1] == if starts[k] + sizes(k) <= end then starts[k] + sizes(k) else end
  }

  /** The driver's log before the replay. */
  ghost predicate ChunksRead(net: Net, ced: bool, pos0: nat, p: nat, more: seq<Use>, starts: seq<nat>, ends: seq<nat>)
  {
    && Stretches(more, Reading(net, ced), starts, ends) && starts[0] == pos0 && starts[|starts| - 1] == p
    && ReadsAre(more, Reading(net, ced), pos0, p)
  }

  lemma NextChunkRead(net: Net, ced: bool, pos0: nat, p: nat, more: seq<Use>, starts: seq<nat>, ends: seq<nat>,
                      chunk: seq<Use>, p': nat)
    requires ChunksRead(net, ced, pos0, p, more, starts, ends) && pos0 <= p < p'
    requires IsGrid(chunk, 0, Reading(net, ced), p, p')
    ensures ChunksRead(net, ced, pos0, p', more + chunk, starts + [p'], ends + [|more + chunk|])
  {
    OneMoreStretch(more, Reading(net, ced), starts, ends, chunk, p');
    MoreReads(more, Reading(net, ced), pos0, p, chunk, p');
  }

  /** Without a replay the chunks are all there is. */
  lemma ChunksAreAll(net: Net, ced: bool, pos0: nat, t: nat, more: seq<Use>, starts: seq<nat>, ends: seq<nat>)
    requires ChunksRead(net, ced, pos0, pos0 + t, more, starts, ends) && (ced ==> t == 0)
    ensures PromptReads(net, ced, pos0, t, more) && PromptOrder(net, ced, pos0, t, more, starts, ends)
  {
    var n := ends[|ends| - 1];
    assert more[..n] == more && more[n..] == [];
  }

  lemma ReplayIsRest(net: Net, pos0: nat, t: nat, more: seq<Use>, starts: seq<nat>, ends: seq<nat>, replay: seq<Use>)
    requires ChunksRead(net, true, pos0, pos0 + t, more, starts, ends) && net.split <= |net.ratios|
    requires IsGrid(replay, net.split, |net.ratios|, pos0 + t - (if t > 128 then 128 else t), pos0 + t)
    ensures PromptReads(net, true, pos0, t, more + replay)
    ensures PromptOrder(net, true, pos0, t, more + replay, starts, ends)
  {
    var all, n := more + replay, ends[|ends| - 1];
    assert all[..n] == more && all[n..] == replay;
    forall l: nat, q: nat
      ensures ReadAt(all, l, q) <==> l < |net.ratios| && pos0 <= q < pos0 + t &&
                                     (l >= net.split && t > 128 ==> q >= pos0 + t - 128)
    {
      ReadAtJoin(more, replay, l, q);
    }
  }

  /** Every read is of exactly one compressed row per `ratio` positions up to its own, each pooling its own. */
  ghost predicate RowsRead(net: Net, log: seq<Use>) {
    forall k :: 0 <= k < |log| ==> RowsReadAt(net, log[k])
  }

  ghost predicate RowsReadAt(net: Net, u: Use) {
    && u.layer < |net.ratios|
    && if net.ratios[u.layer] == 0 then u.rows == []
       else && |u.rows| == (u.pos + 1) / net.ratios[u.layer]
            && forall i :: 0 <= i < |u.rows| ==>
                 u.rows[i] == Range(net.ratios[u.layer] * i, net.ratios[u.layer] * (i + 1))
  }

  lemma CausalRowsRead(net: Net, log: seq<Use>)
    requires Causal(net, log)
    ensures RowsRead(net, log)
  {
    forall k | 0 <= k < |log|
      ensures RowsReadAt(net, log[k])
    {
      assert UseCausal(net, log[k]);
      if net.ratios[log[k].layer] > 0 {
        VisibleIs(net.ratios[log[k].layer], log[k].pos);
      }
    }
  }

  lemma VisibleIs(ratio: nat, pos: nat)
    requires ratio > 0
    ensures |Visible(ratio, pos)| == (pos + 1) / ratio
    ensures forall i :: 0 <= i < |Visible(ratio, pos)| ==> Visible(ratio, pos)[i] == Range(ratio * i, ratio * (i + 1))
  {
    var n := Boundaries(pos + 1, ratio);
    BoundaryCount(pos + 1, ratio);
    RowsLength(ratio, n);
    forall i | 0 <= i < n
      ensures RowsOf(ratio, n)[i] == Range(ratio * i, ratio * (i + 1))
    {
      RowAt(ratio, n, i);
    }
  }

  // ---- the whole prompt ----

  const SWA_WINDOW: nat := 128

  /** The last `w` entries. */
  function LastOf<T>(s: seq<T>, w: nat): (r: seq<T>)
    ensures |r| == if |s| <= w then |s| else w
  {
    if |s| <= w then s else s[|s| - w..]
  }

  lemma LastSnoc<T>(s: seq<T>, x: T, w: nat)
    requires w > 0
    ensures LastOf(s + [x], w) == if |LastOf(s, w)| == w then LastOf(s, w)[1..] + [x] else LastOf(s, w) + [x]
  {
  }

  /** The ring after `n` rows: the last of them entering the decoder, in order. */
  ghost predicate RingAt(ring: seq<Hidden>, pos0: nat, n: nat, depth: nat) {
    |ring| == (if n <= SWA_WINDOW then n else SWA_WINDOW) && AreRows(ring, pos0 + n - |ring|, |ring|, depth)
  }

  /** Pushes the last rows of a chunk, read from the lane that holds them. */
  method PushRows(ring: seq<Hidden>, laneA: seq<Hidden>, laneB: seq<Hidden>, ghost pos0: nat, ghost n: nat, a: nat,
                  b: nat, ghost depth: nat)
    returns (ring': seq<Hidden>)
    requires RingAt(ring, pos0, n, depth) && 0 < a <= b
    requires AreRows(laneA, pos0 + n, a, depth) && AreRows(laneB, pos0 + n + a, b - a, depth)
    ensures RingAt(ring', pos0, n + b, depth)
  {
    ring' := ring;
    var take := if b < SWA_WINDOW then b else SWA_WINDOW;
    ghost var pushed: seq<Hidden> := [];
    assert ring + pushed == ring;
    for i := b - take to b
      invariant ring' == LastOf(ring + pushed, SWA_WINDOW)
      invariant AreRows(pushed, pos0 + n + b - take, i - (b - take), depth)
    {
      var row := if i < a then laneA[i] else laneB[i - a];
      assert row == Hidden(pos0 + n + i, depth);
      LastSnoc(ring + pushed, row, SWA_WINDOW);
      Assoc(ring, pushed, [row]);
      ring' := ring' + [row];
      if |ring'| > SWA_WINDOW {
        ring' := ring'[1..];
      }
      pushed := pushed + [row];
    }
    PushedAll(ring, pushed, pos0, n, b, take, depth);
  }

  lemma PushedAll(ring: seq<Hidden>, pushed: seq<Hidden>, pos0: nat, n: nat, b: nat, take: nat, depth: nat)
    requires RingAt(ring, pos0, n, depth) && take == (if b < SWA_WINDOW then b else SWA_WINDOW)
    requires AreRows(pushed, pos0 + n + b - take, take, depth)
    ensures RingAt(LastOf(ring + pushed, SWA_WINDOW), pos0, n + b, depth)
  {
    var all := ring + pushed;
    var last := LastOf(all, SWA_WINDOW);
    if take == b {
      assert AreRows(all, pos0 + n - |ring|, |ring| + b, depth);
    } else {
      assert last == pushed;
    }
  }

  /** Every read in the log is of exactly the rows its position may read. */
  ghost predicate Causal(net: Net, log: seq<Use>) {
    forall k :: 0 <= k < |log| ==> UseCausal(net, log[k])
  }

  ghost predicate UseCausal(net: Net, u: Use) {
    && u.layer < |net.ratios| && u.rows == Visible(net.ratios[u.layer], u.pos)
    && forall i, j :: 0 <= i < |u.rows| && 0 <= j < |u.rows[i]| ==> u.rows[i][j] <= u.pos
  }

  lemma {:induction false} LayerLogCausal(net: Net, layer: nat, pos0: nat, b: nat)
    requires layer < |net.ratios|
    ensures Causal(net, LayerLog(layer, net.ratios[layer], pos0, b))
  {
    if b > 0 {
      LayerLogCausal(net, layer, pos0, b - 1);
      var pos := pos0 + b - 1;
      if net.ratios[layer] > 0 {
        CausalRows(net.ratios[layer], pos, Boundaries(pos + 1, net.ratios[layer]));
      }
      assert UseCausal(net, Use(layer, pos, Visible(net.ratios[layer], pos)));
    }
  }

  lemma CausalConcat(net: Net, a: seq<Use>, b: seq<Use>)
    requires Causal(net, a) && Causal(net, b)
    ensures Causal(net, a + b)
  {
  }

  lemma {:induction false} RangeLogCausal(net: Net, lo: nat, hi: nat, ced: Mode, pos0: nat, b: nat)
    requires hi <= |net.ratios|
    ensures Causal(net, RangeLog(net, lo, hi, ced, pos0, b))
  {
    if lo < hi {
      var l := hi - 1;
      RangeLogCausal(net, lo, l, ced, pos0, b);
      if ModeOf(net, ced, l) != KvSourceOnly {
        LayerLogCausal(net, l, pos0, b);
        CausalConcat(net, RangeLog(net, lo, l, ced, pos0, b), LayerLog(l, net.ratios[l], pos0, b));
      }
    }
  }

  /** Every store a range can touch holds the first `p` positions. */
  ghost predicate AllAt(net: Net, done: seq<nat>, p: nat) {
    |done| == |net.ratios| && forall l :: 0 <= l < |done| && Owns(net, l) ==> done[l] == p
  }

  /** No layer after the split owns a store. */
  ghost predicate SplitIsLast(net: Net) {
    forall l :: 0 <= l < |net.ratios| && Owns(net, l) ==> l <= net.split
  }

  lemma FirstLayer(net: Net)
    requires Sound(net)
    ensures SourceOf(net, 0).None? && SourceOf(net, net.split).None?
  {
    assert SoundLayer(net, 0) && SoundLayer(net, net.split);
  }

  lemma StoreOwned(net: Net, l: nat)
    requires Sound(net) && l < |net.ratios| && net.ratios[l] > 0
    ensures Owns(net, StoreLayer(net, l))
  {
    assert SoundLayer(net, l);
  }

  /** A chunk of the encoder (or of all layers) is ready when all stores end where it starts. */
  lemma ChunkReady(net: Net, done: seq<nat>, ced: Mode, p: nat, b: nat)
    requires Sound(net) && AllAt(net, done, p) && ced != Replay
    ensures var hi := if ced == Exact then |net.ratios| else net.split + 1;
            && Ready(net, done, 0, hi, ced, p, b)
            && (ced == Exact || SplitIsLast(net) ==> AllAt(net, After(net, done, 0, hi, ced, p + b), p + b))
  {
    FirstLayer(net);
    var hi := if ced == Exact then |net.ratios| else net.split + 1;
    forall l | 0 <= l < hi
      ensures StoreReady(net, done, 0, ced, p, b, l)
    {
      if net.ratios[l] > 0 {
        StoreOwned(net, l);
      }
    }
    forall l | 0 <= l < |done| && Owns(net, l)
      ensures ced == Exact || SplitIsLast(net) ==> After(net, done, 0, hi, ced, p + b)[l] == p + b
    {
      AfterAt(net, done, 0, hi, ced, p + b, l);
    }
  }

  /** The replay is ready once the split layer's store holds the whole prompt. */
  lemma ReplayReady(net: Net, done: seq<nat>, p: nat, seg: nat)
    requires Sound(net) && SplitIsLast(net) && AllAt(net, done, p) && seg <= p
    ensures Ready(net, done, net.split, |net.ratios|, Replay, p - seg, seg)
  {
    FirstLayer(net);
    var start := p - seg;
    forall l | net.split <= l < |net.ratios|
      ensures StoreReady(net, done, net.split, Replay, start, seg, l)
    {
      if net.ratios[l] > 0 {
        StoreOwned(net, l);
      }
    }
  }

  /** The row of the head: the last one, in lane B unless that is empty. */
  function HeadRow(laneA: seq<Hidden>, laneB: seq<Hidden>): Hidden
    requires laneA != []
  {
    if laneB != [] then laneB[|laneB| - 1] else laneA[|laneA| - 1]
  }

  method InputRows(pos0: nat, b: nat) returns (rows: seq<Hidden>)
    ensures AreRows(rows, pos0, b, 0)
  {
    rows := seq(b, i requires 0 <= i => Hidden(pos0 + i, 0));
  }

  /** One chunk of `b` rows through the encoder and the split layer's projection, or through all layers. */
  method Chunk(state: State, pos: nat, a: nat, b: nat, ced: bool, ghost done: seq<nat>)
    returns (ok: bool, laneA: Lane, laneB: Lane, ghost done': seq<nat>, ghost chunk: seq<Use>)
    requires Sound(state.net) && Held(state.net, state.compressors, done) && AllAt(state.net, done, pos) &&
             (ced ==> SplitIsLast(state.net))
    requires 0 < a <= b
    modifies state
    ensures ok && Held(state.net, state.compressors, done') && AllAt(state.net, done', pos + b)
    ensures var depth := if ced then state.net.split else |state.net.ratios|;
            AreRows(laneA.residual, pos, a, depth) && AreRows(laneB.residual, pos + a, b - a, depth)
    ensures state.log == old(state.log) + chunk && Causal(state.net, chunk)
    ensures IsGrid(chunk, 0, Reading(state.net, ced), pos, pos + b)
  {
    var mode := if ced then KvSourceOnly else Exact;
    var hi := if ced then state.net.split + 1 else |state.net.ratios|;
    var rows := InputRows(pos, b);
    ChunkReady(state.net, done, mode, pos, b);
    RangeLogCausal(state.net, 0, hi, mode, pos, b);
    done' := After(state.net, done, 0, hi, mode, pos + b);
    ok, laneA, laneB := state.RunRange(rows, pos, a, 0, hi, mode, done);
    chunk := RangeLog(state.net, 0, hi, mode, pos, b);
    ChunkIsGrid(state.net, ced, pos, b);
  }

  /** The bounded replay: the last rows entering the decoder, through the decoder. */
  method ReplaySegment(state: State, ring: seq<Hidden>, p: nat, a: nat, ghost done: seq<nat>)
    returns (ok: bool, head: Hidden)
    requires Sound(state.net) && SplitIsLast(state.net) && Held(state.net, state.compressors, done) &&
             AllAt(state.net, done, p)
    requires 0 < a <= |ring| <= p && AreRows(ring, p - |ring|, |ring|, state.net.split)
    modifies state
    ensures ok && head == Hidden(p - 1, |state.net.ratios|)
    ensures Held(state.net, state.compressors, done)
    ensures state.log == old(state.log)
            + RangeLog(state.net, state.net.split, |state.net.ratios|, Replay, p - |ring|, |ring|)
  {
    var split, n := state.net.split, |state.net.ratios|;
    ReplayReady(state.net, done, p, |ring|);
    var laneA, laneB;
    ok, laneA, laneB := state.RunRange(ring, p - |ring|, a, split, n, Replay, done);
    ReplayKeeps(state.net, done, n, p);
    head := HeadRow(laneA.residual, laneB.residual);
  }

  lemma {:induction false} ReplayKeeps(net: Net, done: seq<nat>, hi: nat, end: nat)
    requires Sound(net) && SplitIsLast(net) && hi <= |done| == |net.ratios|
    ensures After(net, done, net.split, hi, Replay, end) == done
  {
    if net.split < hi {
      ReplayKeeps(net, done, hi - 1, end);
    }
  }

  /** The log since `log0`, `more`, is causal and the stores hold the first `p` positions. */
  ghost predicate Reached(net: Net, compressors: seq<Option<Store>>, done: seq<nat>, log0: seq<Use>, more: seq<Use>,
                          log: seq<Use>, p: nat) {
    && Held(net, compressors, done) && AllAt(net, done, p)
    && log == log0 + more && Causal(net, more)
  }

  /** What the driver keeps between chunks: the ring, or the row of the head. */
  ghost predicate Kept(net: Net, ced: bool, ring: seq<Hidden>, head: Option<Hidden>, pos0: nat, n: nat) {
    if ced then RingAt(ring, pos0, n, net.split) && head == None
    else head == if n == 0 then None else Some(Hidden(pos0 + n - 1, |net.ratios|))
  }

  /** One turn of the chunk loop. */
  method ChunkStep(state: State, pos0: nat, n: nat, a: nat, b: nat, ced: bool, ring: seq<Hidden>, head: Option<Hidden>,
                   ghost done: seq<nat>, ghost log0: seq<Use>, ghost more: seq<Use>)
    returns (ok: bool, ring': seq<Hidden>, head': Option<Hidden>, ghost done': seq<nat>, ghost chunk: seq<Use>)
    requires Sound(state.net) && (ced ==> SplitIsLast(state.net)) && 0 < a <= b
    requires Reached(state.net, state.compressors, done, log0, more, state.log, pos0 + n) &&
             Kept(state.net, ced, ring, head, pos0, n)
    modifies state
    ensures ok && Reached(state.net, state.compressors, done', log0, more + chunk, state.log, pos0 + n + b) &&
            Kept(state.net, ced, ring', head', pos0, n + b)
    ensures IsGrid(chunk, 0, Reading(state.net, ced), pos0 + n, pos0 + n + b)
  {
    var laneA, laneB;
    ok, laneA, laneB, done', chunk := Chunk(state, pos0 + n, a, b, ced, done);
    Assoc(log0, more, chunk);
    CausalConcat(state.net, more, chunk);
    ring', head' := ring, head;
    if ced {
      ring' := PushRows(ring, laneA.residual, laneB.residual, pos0, n, a, b, state.net.split);
    } else {
      head' := Some(HeadRow(laneA.residual, laneB.residual));
    }
  }

  /** The replay after the last chunk. */
  method FinishReplay(state: State, ring: seq<Hidden>, pos0: nat, t: nat, a: nat, ghost done: seq<nat>,
                      ghost log0: seq<Use>, ghost more: seq<Use>)
    returns (ok: bool, head: Hidden, ghost replay: seq<Use>)
    requires Sound(state.net) && SplitIsLast(state.net) && t > 0 && RingAt(ring, pos0, t, state.net.split) &&
             0 < a <= |ring|
    requires Reached(state.net, state.compressors, done, log0, more, state.log, pos0 + t)
    modifies state
    ensures ok && head == Hidden(pos0 + t - 1, |state.net.ratios|)
    ensures Reached(state.net, state.compressors, done, log0, more + replay, state.log, pos0 + t)
    ensures IsGrid(replay, state.net.split, |state.net.ratios|, pos0 + t - (if t > 128 then 128 else t), pos0 + t)
  {
    replay := RangeLog(state.net, state.net.split, |state.net.ratios|, Replay, pos0 + t - |ring|, |ring|);
    RangeLogCausal(state.net, state.net.split, |state.net.ratios|, Replay, pos0 + t - |ring|, |ring|);
    RangeLogIsGrid(state.net, state.net.split, |state.net.ratios|, Replay, pos0 + t - |ring|, |ring|);
    ok, head := ReplaySegment(state, ring, pos0 + t, a, done);
    Assoc(log0, more, replay);
    CausalConcat(state.net, more, replay);
  }

  lemma NextStart(starts: seq<nat>, end: nat, sizes: nat -> nat, start: nat)
    requires |starts| >= 1 && ChunksOf(starts, end, sizes)
    requires var p, n := starts[|starts| - 1], sizes(|starts| - 1); start == if p + n <= end then p + n else end
    ensures ChunksOf(starts + [start], end, sizes)
  {
  }

  /** The first chunks of a prompt have been read, up to position `pos0 + n`. */
  ghost predicate ChunksDone(net: Net, ced: bool, pos0: nat, n: nat, t: nat, sizes: nat -> nat, more: seq<Use>,
                             starts: seq<nat>, ends: seq<nat>)
  {
    ChunksRead(net, ced, pos0, pos0 + n, more, starts, ends) && ChunksOf(starts, pos0 + t, sizes)
  }

  lemma ChunkDone(net: Net, ced: bool, pos0: nat, n: nat, t: nat, sizes: nat -> nat, more: seq<Use>, starts: seq<nat>,
                  ends: seq<nat>, chunk: seq<Use>, b: nat)
    requires ChunksDone(net, ced, pos0, n, t, sizes, more, starts, ends) && b > 0
    requires IsGrid(chunk, 0, Reading(net, ced), pos0 + n, pos0 + n + b)
    requires var s := sizes(|starts| - 1); b == if n + s <= t then s else t - n
    ensures ChunksDone(net, ced, pos0, n + b, t, sizes, more + chunk, starts + [pos0 + n + b], ends + [|more + chunk|])
  {
    NextChunkRead(net, ced, pos0, pos0 + n, more, starts, ends, chunk, pos0 + n + b);
    NextStart(starts, pos0 + t, sizes, pos0 + n + b);
  }

  /** What a prefill has read. */
  ghost predicate PromptDone(net: Net, ced: bool, pos0: nat, t: nat, sizes: nat -> nat, more: seq<Use>,
                             starts: seq<nat>, ends: seq<nat>)
  {
    && PromptReads(net, ced, pos0, t, more) && RowsRead(net, more)
    && PromptOrder(net, ced, pos0, t, more, starts, ends) && ChunksOf(starts, pos0 + t, sizes)
  }

  lemma AllDone(net: Net, ced: bool, pos0: nat, t: nat, sizes: nat -> nat, more: seq<Use>, starts: seq<nat>,
                ends: seq<nat>, replay: seq<Use>)
    requires ChunksDone(net, ced, pos0, t, t, sizes, more, starts, ends) && Causal(net, more + replay)
    requires net.split <= |net.ratios|
    requires ced && t > 0 ==>
               IsGrid(replay, net.split, |net.ratios|, pos0 + t - (if t > 128 then 128 else t), pos0 + t)
    requires !(ced && t > 0) ==> replay == []
    ensures PromptDone(net, ced, pos0, t, sizes, more + replay, starts, ends)
  {
    CausalRowsRead(net, more + replay);
    if ced && t > 0 {
      ReplayIsRest(net, pos0, t, more, starts, ends, replay);
    } else {
      assert more + replay == more;
      ChunksAreAll(net, ced, pos0, t, more, starts, ends);
    }
  }

  /** What the chunk loop has done by position `pos0 + n`. */
  ghost predicate LoopAt(state: State, pos0: nat, n: nat, t: nat, ced: bool, sizes: nat -> nat, ring: seq<Hidden>,
                         head: Option<Hidden>, done: seq<nat>, log0: seq<Use>, more: seq<Use>, starts: seq<nat>,
                         ends: seq<nat>)
    reads state
  {
    && Reached(state.net, state.compressors, done, log0, more, state.log, pos0 + n)
    && Kept(state.net, ced, ring, head, pos0, n)
    && ChunksDone(state.net, ced, pos0, n, t, sizes, more, starts, ends)
  }

  /** Chunked prefill with the last token's logits: no call fails; the reads of every layer are those of
      `PromptReads`, in the order of the chunks; each is of exactly the rows its position may read; the stores
      end holding the prompt, and the head gets the last position's row after all layers — for every chunking
      and every lane cut. */
  method Prefill(state: State, pos0: nat, t: nat, ced: bool, sizes: nat -> nat, cut: nat -> nat, ghost done: seq<nat>)
    returns (ok: bool, head: Option<Hidden>, ghost done': seq<nat>, ghost more: seq<Use>, ghost starts: seq<nat>,
             ghost ends: seq<nat>)
    requires Sound(state.net) && Held(state.net, state.compressors, done) && AllAt(state.net, done, pos0) &&
             (ced ==> SplitIsLast(state.net))
    requires (forall k :: sizes(k) >= 1) && forall b :: b >= 1 ==> 1 <= cut(b) <= b
    modifies state
    ensures ok && (if t == 0 then head == None else head == Some(Hidden(pos0 + t - 1, |state.net.ratios|)))
    ensures Reached(state.net, state.compressors, done', old(state.log), more, state.log, pos0 + t)
    ensures PromptDone(state.net, ced, pos0, t, sizes, more, starts, ends)
  {
    ok, head, done', more, starts, ends := true, None, done, [], [pos0], [0];
    var ring: seq<Hidden> := [];
    var start, k := 0, 0;
    ghost var log0 := state.log;
    assert log0 == log0 + more;
    while start < t
      invariant start <= t && ok && |starts| == k + 1
      invariant LoopAt(state, pos0, start, t, ced, sizes, ring, head, done', log0, more, starts, ends)
      decreases t - start
    {
      var b := if start + sizes(k) <= t then sizes(k) else t - start;
      ghost var chunk;
      ok, ring, head, done', chunk := ChunkStep(state, pos0, start, cut(b), b, ced, ring, head, done', log0, more);
      ChunkDone(state.net, ced, pos0, start, t, sizes, more, starts, ends, chunk, b);
      more, starts, ends := more + chunk, starts + [pos0 + start + b], ends + [|more + chunk|];
      start, k := start + b, k + 1;
    }
    ghost var replay := [];
    assert more + replay == more;
    if ced && t > 0 {
      var row;
      ok, row, replay := FinishReplay(state, ring, pos0, t, cut(|ring|), done', log0, more);
      head := Some(row);
    }
    AllDone(state.net, ced, pos0, t, sizes, more, starts, ends, replay);
    more := more + replay;
  }

  /** The `v41` network is one of these. */
  lemma V41Sound()
    ensures Sound(V41) && SplitIsLast(V41) && |V41.ratios| == 40
  {
    var net := V41;
    forall l: nat | l < 40
      ensures SoundLayer(net, l) && (Owns(net, l) ==> l <= 20)
    {
      var src := [2, 8, 14, 20];
      assert Latest(src, l, 0) == None;
      assert Latest(src, l, 1) == if l >= 2 then Some(2) else None;
      assert Latest(src, l, 2) == if l >= 8 then Some(8) else Latest(src, l, 1);
      assert Latest(src, l, 3) == if l >= 14 then Some(14) else Latest(src, l, 2);
      assert Latest(src, l, 4) == if l >= 20 then Some(20) else Latest(src, l, 3);
    }
  }
}
