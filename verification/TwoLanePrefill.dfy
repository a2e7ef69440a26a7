/** Two-lane pipelined prefill over a layer range, with the compressed KV stores it writes and
    reads (scripts/ced_edit.py, crates/v4flash-kernels/src/het/forward_prefill.rs, config.rs). */
module TwoLanePrefill {
  import opened Arithmetic
  import opened Prelude

  // ---- compressed stores ----

  /** A compressor's state: the rows written, each pooled from the positions listed, and the
      positions not yet pooled. */
  datatype Store = Store(rows: seq<seq<nat>>, pending: seq<nat>)

  function Range(lo: nat, hi: nat): (s: seq<nat>)
    ensures |s| == if lo <= hi then hi - lo else 0
    ensures forall i :: 0 <= i < |s| ==> s[i] == lo + i
  {
    if lo <= hi then seq(hi - lo, i requires 0 <= i => lo + i) else []
  }

  /** The first `n` rows: row `i` pools positions `[i * ratio, (i + 1) * ratio)`. */
  function RowsOf(ratio: nat, n: nat): seq<seq<nat>> {
    if n == 0 then [] else RowsOf(ratio, n - 1) + [Range(ratio * (n - 1), ratio * n)]
  }

  /** How many of the first `p` positions end a group of `ratio`. */
  function Boundaries(p: nat, ratio: nat): nat
    requires ratio > 0
  {
    if p == 0 then 0 else Boundaries(p - 1, ratio) + if p % ratio == 0 then 1 else 0
  }

  /** One position: pool at a boundary. */
  function Project(s: Store, ratio: nat, p: nat): Store
    requires ratio > 0
  {
    var pending := s.pending + [p];
    if (p + 1) % ratio == 0 then Store(s.rows + [pending], []) else Store(s.rows, pending)
  }

  /** The store once the first `p` positions have been projected into it. */
  function StoreOf(ratio: nat, p: nat): Store
    requires ratio > 0
  {
    if p == 0 then Store([], []) else Project(StoreOf(ratio, p - 1), ratio, p - 1)
  }

  lemma DivStep(p: nat, ratio: nat)
    requires ratio > 0
    ensures (p + 1) / ratio == p / ratio + if (p + 1) % ratio == 0 then 1 else 0
  {
    var q, r := p / ratio, p % ratio;
    assert p == ratio * q + r;
    if r + 1 == ratio {
      assert p + 1 == ratio * (q + 1);
      DivExact(q + 1, ratio);
    } else {
      DivRest(q, r + 1, ratio);
    }
  }

  /** The positional formula. */
  lemma {:induction false} BoundaryCount(p: nat, ratio: nat)
    requires ratio > 0
    ensures Boundaries(p, ratio) == p / ratio
  {
    if p == 0 {
      DivExact(0, ratio);
    } else {
      BoundaryCount(p - 1, ratio);
      DivStep(p - 1, ratio);
    }
  }

  lemma BoundaryStep(p: nat, ratio: nat)
    requires ratio > 0
    ensures (p + 1) % ratio == 0 ==> ratio * Boundaries(p + 1, ratio) == p + 1
    ensures ratio * Boundaries(p, ratio) <= p
  {
    BoundaryCount(p, ratio);
    BoundaryCount(p + 1, ratio);
  }

  /** The check of the multi-stream arena: a row's store count plus its own boundary is the positional
      count exactly when the store holds one row per boundary before the row. */
  lemma ArenaRowIff(stored: nat, pos: nat, ratio: nat)
    requires ratio > 0
    ensures stored + (if (pos + 1) % ratio == 0 then 1 else 0) == (pos + 1) / ratio <==>
            stored == Boundaries(pos, ratio)
  {
    BoundaryCount(pos, ratio);
    BoundaryCount(pos + 1, ratio);
  }

  lemma {:induction false} BoundariesMonotone(p: nat, q: nat, ratio: nat)
    requires ratio > 0 && p <= q
    ensures Boundaries(p, ratio) <= Boundaries(q, ratio)
    decreases q - p
  {
    if p < q {
      BoundariesMonotone(p, q - 1, ratio);
      BoundaryStep(q - 1, ratio);
    }
  }

  /** The store after `p` positions, in terms of its boundaries. */
  function StoreAt(ratio: nat, p: nat): Store
    requires ratio > 0
  {
    Store(RowsOf(ratio, Boundaries(p, ratio)), Range(ratio * Boundaries(p, ratio), p))
  }

  lemma RangeSnoc(lo: nat, hi: nat)
    requires lo <= hi
    ensures Range(lo, hi) + [hi] == Range(lo, hi + 1)
  {
  }

  lemma StoreAtStep(ratio: nat, p: nat)
    requires ratio > 0
    ensures Project(StoreAt(ratio, p), ratio, p) == StoreAt(ratio, p + 1)
  {
    BoundaryStep(p, ratio);
    var n := Boundaries(p, ratio);
    RangeSnoc(ratio * n, p);
    if (p + 1) % ratio == 0 {
      assert Boundaries(p + 1, ratio) == n + 1 && Range(p + 1, p + 1) == [];
      assert RowsOf(ratio, n + 1) == RowsOf(ratio, n) + [Range(ratio * n, ratio * (n + 1))];
    } else {
      assert Boundaries(p + 1, ratio) == n;
    }
  }

  /** One row per boundary, each pooling its own `ratio` positions. */
  lemma {:induction false} StoreIs(ratio: nat, p: nat)
    requires ratio > 0
    ensures StoreOf(ratio, p) == Store(RowsOf(ratio, Boundaries(p, ratio)), Range(ratio * Boundaries(p, ratio), p))
  {
    if p > 0 {
      StoreIs(ratio, p - 1);
      StoreAtStep(ratio, p - 1);
    }
  }

  lemma StoreRows(ratio: nat, p: nat)
    requires ratio > 0
    ensures StoreOf(ratio, p).rows == RowsOf(ratio, Boundaries(p, ratio)) &&
            |StoreOf(ratio, p).rows| == Boundaries(p, ratio)
  {
    StoreIs(ratio, p);
    RowsLength(ratio, Boundaries(p, ratio));
  }

  lemma {:induction false} RowsPrefix(ratio: nat, m: nat, n: nat)
    requires m <= n
    ensures |RowsOf(ratio, n)| == n && RowsOf(ratio, n)[..m] == RowsOf(ratio, m)
  {
    RowsLength(ratio, n);
    RowsLength(ratio, m);
    if m < n {
      RowsPrefix(ratio, m, n - 1);
    }
  }

  lemma {:induction false} RowsLength(ratio: nat, n: nat)
    ensures |RowsOf(ratio, n)| == n
  {
    if n > 0 {
      RowsLength(ratio, n - 1);
    }
  }

  /** Rows a query at `pos` may read hold positions up to `pos` only. */
  lemma {:induction false} CausalRows(ratio: nat, pos: nat, n: nat)
    requires ratio > 0 && n <= Boundaries(pos + 1, ratio)
    ensures forall i, j :: 0 <= i < |RowsOf(ratio, n)| && 0 <= j < |RowsOf(ratio, n)[i]| ==>
            RowsOf(ratio, n)[i][j] <= pos
  {
    if n > 0 {
      CausalRows(ratio, pos, n - 1);
      BoundaryStep(pos + 1, ratio);
      MulMonotone(n, Boundaries(pos + 1, ratio), ratio);
    }
  }

  // ---- layers ----

  datatype Mode = Exact | KvSourceOnly | Replay

  /** Per-layer compression ratios (0: none), the KV-source layers, and `CED_DECODER_START`. */
  datatype Net = Net(ratios: seq<nat>, sources: seq<nat>, split: nat)

  /** The last of the first `n` sources that is not above the layer. */
  function Latest(sources: seq<nat>, layer: nat, n: nat): (s: Option<nat>)
    requires n <= |sources|
    ensures s.Some? ==> s.value in sources && s.value <= layer
  {
    if n == 0 then None else if sources[n - 1] <= layer then Some(sources[n - 1]) else Latest(sources, layer, n - 1)
  }

  /** `kv_source_of`. */
  function SourceOf(net: Net, layer: nat): Option<nat>
    requires layer < |net.ratios|
  {
    if net.ratios[layer] == 0 then None
    else
      var s := Latest(net.sources, layer, |net.sources|);
      if s.Some? && s.value != layer then s else None
  }

  /** The layer has compressor weights. */
  predicate Owns(net: Net, layer: nat) {
    layer < |net.ratios| && net.ratios[layer] > 0 && layer in net.sources
  }

  /** A compressed layer either owns a store or reads one of its own ratio below it. */
  ghost predicate SoundLayer(net: Net, layer: nat)
    requires layer < |net.ratios|
  {
    net.ratios[layer] > 0 ==> if Owns(net, layer) then SourceOf(net, layer).None? else Reads(net, layer)
  }

  /** Every layer is sound and the split layer owns a store. */
  ghost predicate Sound(net: Net) {
    && net.split < |net.ratios| && Owns(net, net.split)
    && forall l :: 0 <= l < |net.ratios| ==> SoundLayer(net, l)
  }

  ghost predicate Reads(net: Net, layer: nat)
    requires layer < |net.ratios|
  {
    var s := SourceOf(net, layer);
    s.Some? && Owns(net, s.value) && s.value < layer && net.ratios[s.value] == net.ratios[layer]
  }

  /** The `v41` tables. */
  const V41 := Net([0, 0] + seq(18, _ => 2) + seq(20, _ => 1), [2, 8, 14, 20], 20)

  // ---- what attention reads ----

  /** One row of attention: the compressed rows it may read. */
  datatype Use = Use(layer: nat, pos: nat, rows: seq<seq<nat>>)

  /** The rows a query at `pos` must read: one per boundary up to it. */
  function Visible(ratio: nat, pos: nat): seq<seq<nat>> {
    if ratio == 0 then [] else RowsOf(ratio, Boundaries(pos + 1, ratio))
  }

  /** The reads of positions `[pos0, pos0 + b)` in one layer. */
  function LayerLog(layer: nat, ratio: nat, pos0: nat, b: nat): seq<Use> {
    if b == 0 then []
    else LayerLog(layer, ratio, pos0, b - 1) + [Use(layer, pos0 + b - 1, Visible(ratio, pos0 + b - 1))]
  }

  lemma {:induction false} LayerLogSplit(layer: nat, ratio: nat, pos0: nat, a: nat, b: nat)
    ensures LayerLog(layer, ratio, pos0, a) + LayerLog(layer, ratio, pos0 + a, b) == LayerLog(layer, ratio, pos0, a + b)
  {
    if b == 0 {
      assert LayerLog(layer, ratio, pos0, a) + [] == LayerLog(layer, ratio, pos0, a);
    } else {
      LayerLogSplit(layer, ratio, pos0, a, b - 1);
      Assoc(LayerLog(layer, ratio, pos0, a), LayerLog(layer, ratio, pos0 + a, b - 1),
            [Use(layer, pos0 + a + b - 1, Visible(ratio, pos0 + a + b - 1))]);
    }
  }

  lemma LaneLogs(layer: nat, ratio: nat, pos0: nat, a: nat, b: nat, log: seq<Use>)
    requires a <= b
    ensures log + LayerLog(layer, ratio, pos0, a) + LayerLog(layer, ratio, pos0 + a, b - a) ==
            log + LayerLog(layer, ratio, pos0, b)
  {
    LayerLogSplit(layer, ratio, pos0, a, b - a);
    Assoc(log, LayerLog(layer, ratio, pos0, a), LayerLog(layer, ratio, pos0 + a, b - a));
  }

  // ---- lanes ----

  /** A residual row: its position, and the layers it has been through. */
  datatype Hidden = Hidden(pos: nat, depth: nat)

  /** The rows of positions `[pos0, pos0 + b)` after `depth` layers. */
  ghost predicate AreRows(rows: seq<Hidden>, pos0: nat, b: nat, depth: nat) {
    |rows| == b && forall i :: 0 <= i < b ==> rows[i] == Hidden(pos0 + i, depth)
  }

  datatype Lane = Lane(residual: seq<Hidden>, next: seq<Hidden>)

  /** Post-MoE into `residual_next`, then the swap. */
  method PostMoe(lane: Lane, ghost pos0: nat, ghost b: nat, ghost depth: nat) returns (lane': Lane)
    requires AreRows(lane.residual, pos0, b, depth)
    ensures AreRows(lane'.residual, pos0, b, depth + 1)
  {
    var next := seq(|lane.residual|,
        i requires 0 <= i < |lane.residual| => Hidden(lane.residual[i].pos, lane.residual[i].depth + 1));
    lane' := Lane(next, lane.residual);
  }

  // ---- what a layer range does ----

  function ModeOf(net: Net, ced: Mode, layer: nat): Mode {
    if layer == net.split then ced else Exact
  }

  /** Store `l` holds the first `done` positions, in its own layer. */
  ghost predicate HeldAt(net: Net, compressors: seq<Option<Store>>, done: seq<nat>, l: nat)
    requires l < |net.ratios| == |compressors| == |done|
  {
    compressors[l] == if Owns(net, l) then Some(StoreOf(net.ratios[l], done[l])) else None
  }

  ghost predicate Held(net: Net, compressors: seq<Option<Store>>, done: seq<nat>) {
    |net.ratios| == |compressors| == |done| && forall l :: 0 <= l < |done| ==> HeldAt(net, compressors, done, l)
  }

  /** The layer whose store a layer reads or writes. */
  function StoreLayer(net: Net, layer: nat): (s: nat)
    requires layer < |net.ratios|
    ensures s <= layer
  {
    var s := SourceOf(net, layer);
    if s.Some? then s.value else layer
  }

  /** Layers `[lo, hi)` have run over positions up to `end`. */
  ghost function After(net: Net, done: seq<nat>, lo: nat, hi: nat, ced: Mode, end: nat): (done': seq<nat>)
    requires hi <= |done|
    ensures |done'| == |done|
  {
    if hi <= lo then done
    else
      var before := After(net, done, lo, hi - 1, ced, end);
      if Appends(net, hi - 1, ModeOf(net, ced, hi - 1)) then before[hi - 1 := end] else before
  }

  lemma {:induction false} AfterAt(net: Net, done: seq<nat>, lo: nat, hi: nat, ced: Mode, end: nat, l: nat)
    requires hi <= |done| && l < |done|
    ensures After(net, done, lo, hi, ced, end)[l] ==
            if lo <= l < hi && Appends(net, l, ModeOf(net, ced, l)) then end else done[l]
  {
    if lo < hi {
      AfterAt(net, done, lo, hi - 1, ced, end, l);
    }
  }

  /** The range can run over `[pos0, pos0 + b)`: a store it writes ends at `pos0`, a store it only
      reads goes as far as the batch, and its first layer needs no lending. */
  ghost predicate Ready(net: Net, done: seq<nat>, lo: nat, hi: nat, ced: Mode, pos0: nat, b: nat) {
    && lo < hi <= |net.ratios| == |done| && SourceOf(net, lo).None?
    && forall l :: lo <= l < hi ==> StoreReady(net, done, lo, ced, pos0, b, l)
  }

  ghost predicate StoreReady(net: Net, done: seq<nat>, lo: nat, ced: Mode, pos0: nat, b: nat, l: nat)
    requires l < |net.ratios| == |done|
  {
    net.ratios[l] > 0 ==>
      var s := StoreLayer(net, l);
      if Appends(net, s, ModeOf(net, ced, s)) && lo <= s then done[s] == pos0 else done[s] >= pos0 + b
  }

  /** The reads of a range: layer by layer, whatever the lane cut. */
  ghost function RangeLog(net: Net, lo: nat, hi: nat, ced: Mode, pos0: nat, b: nat): seq<Use>
    requires hi <= |net.ratios|
  {
    if hi <= lo then []
    else if ModeOf(net, ced, hi - 1) == KvSourceOnly then RangeLog(net, lo, hi - 1, ced, pos0, b)
    else RangeLog(net, lo, hi - 1, ced, pos0, b) + LayerLog(hi - 1, net.ratios[hi - 1], pos0, b)
  }

  /** The mode fits the range. */
  predicate ModeFits(net: Net, lo: nat, hi: nat, ced: Mode) {
    match ced
    case Exact => true
    case KvSourceOnly => hi == net.split + 1
    case Replay => lo == net.split
  }

  // ---- state ----

  /** The call writes to the layer's own store. */
  predicate Appends(net: Net, layer: nat, mode: Mode) {
    Owns(net, layer) && mode != Replay
  }

  /** The store a call reads holds the boundaries up to position `end`. */
  predicate Enough(net: Net, layer: nat, mode: Mode, end: nat, done: nat)
    requires layer < |net.ratios| && net.ratios[layer] > 0
  {
    Appends(net, layer, mode) || Boundaries(end, net.ratios[layer]) <= Boundaries(done, net.ratios[layer])
  }

  /** The stores after a call has run the layer up to position `end`. */
  ghost function Written(net: Net, stores: seq<Option<Store>>, layer: nat, mode: Mode, end: nat)
    : (s: seq<Option<Store>>)
    requires layer < |net.ratios| == |stores|
    ensures |s| == |stores|
  {
    if Appends(net, layer, mode) then stores[layer := Some(StoreOf(net.ratios[layer], end))] else stores
  }

  lemma WrittenTwice(net: Net, stores: seq<Option<Store>>, layer: nat, mode: Mode, mid: nat, end: nat)
    requires layer < |net.ratios| == |stores|
    ensures Written(net, Written(net, stores, layer, mode, mid), layer, mode, end) ==
            Written(net, stores, layer, mode, end)
  {
  }

  /** The reads after a call has run the layer over `[pos0, pos0 + b)`. */
  ghost function Logged(net: Net, log: seq<Use>, layer: nat, mode: Mode, pos0: nat, b: nat): seq<Use>
    requires layer < |net.ratios|
  {
    if mode == KvSourceOnly then log else log + LayerLog(layer, net.ratios[layer], pos0, b)
  }

  lemma LoggedTwice(net: Net, log: seq<Use>, layer: nat, mode: Mode, pos0: nat, a: nat, b: nat)
    requires layer < |net.ratios| && a <= b
    ensures Logged(net, Logged(net, log, layer, mode, pos0, a), layer, mode, pos0 + a, b - a) ==
            Logged(net, log, layer, mode, pos0, b)
  {
    LaneLogs(layer, net.ratios[layer], pos0, a, b, log);
  }

  /** A lane of the layer can run up to position `end`: its own store is at its start, or the store it
      reads goes far enough. */
  ghost predicate LaneReady(net: Net, stores: seq<Option<Store>>, layer: nat, mode: Mode, pos0: nat, end: nat,
                            done: nat)
    requires layer < |net.ratios| == |stores|
  {
    && (net.ratios[layer] > 0 ==> stores[layer] == Some(StoreOf(net.ratios[layer], done)))
    && if Appends(net, layer, mode) then done == pos0 else net.ratios[layer] > 0 ==> done >= end
  }

  lemma FirstLaneReady(net: Net, stores: seq<Option<Store>>, layer: nat, mode: Mode, pos0: nat, mid: nat, end: nat,
                       done: nat)
    requires layer < |net.ratios| == |stores| && LaneReady(net, stores, layer, mode, pos0, end, done) && mid <= end
    ensures LaneReady(net, stores, layer, mode, pos0, mid, done)
  {
  }

  lemma NextLaneReady(net: Net, stores: seq<Option<Store>>, layer: nat, mode: Mode, pos0: nat, mid: nat, end: nat,
                      done: nat)
    requires layer < |net.ratios| == |stores| && LaneReady(net, stores, layer, mode, pos0, end, done)
    ensures LaneReady(net, Written(net, stores, layer, mode, mid), layer, mode, mid, end,
                      if Appends(net, layer, mode) then mid else done)
  {
  }

  lemma LaneHasEnough(net: Net, stores: seq<Option<Store>>, layer: nat, mode: Mode, pos0: nat, end: nat, done: nat)
    requires layer < |net.ratios| == |stores| && net.ratios[layer] > 0
    requires LaneReady(net, stores, layer, mode, pos0, end, done)
    ensures stores[layer].Some? && Enough(net, layer, mode, end, done)
  {
    if !Appends(net, layer, mode) {
      BoundariesMonotone(end, done, net.ratios[layer]);
    }
  }

  class State {
    const net: Net
    var compressors: seq<Option<Store>>
    ghost var log: seq<Use>

    constructor (net: Net, compressors: seq<Option<Store>>)
      ensures this.net == net && this.compressors == compressors && log == []
    {
      this.net, this.compressors, log := net, compressors, [];
    }

    /** Projects the lane's positions into the layer's own store. */
    method Append(layer: nat, pos0: nat, b: nat) returns (counts: seq<nat>)
      requires layer < |net.ratios| == |compressors| && net.ratios[layer] > 0
      requires compressors[layer] == Some(StoreOf(net.ratios[layer], pos0))
      modifies this`compressors
      ensures compressors == old(compressors)[layer := Some(StoreOf(net.ratios[layer], pos0 + b))]
      ensures Counted(counts, net.ratios[layer], pos0, b)
    {
      var ratio := net.ratios[layer];
      var store := compressors[layer].value;
      counts := [];
      for k := 0 to b
        invariant store == StoreOf(ratio, pos0 + k) && Counted(counts, ratio, pos0, k) &&
                  compressors == old(compressors)
      {
        store := Project(store, ratio, pos0 + k);
        StoreRows(ratio, pos0 + k + 1);
        counts := counts + [|store.rows|];
      }
      compressors := compressors[layer := Some(store)];
    }

    /** Counts the rows of a store that another call has written; fails when it holds too few. */
    method Reuse(layer: nat, pos0: nat, b: nat, ghost done: nat) returns (ok: bool, counts: seq<nat>)
      requires layer < |net.ratios| == |compressors| && net.ratios[layer] > 0
      requires compressors[layer] == Some(StoreOf(net.ratios[layer], done))
      ensures ok <==> Boundaries(pos0 + b, net.ratios[layer]) <= Boundaries(done, net.ratios[layer])
      ensures ok ==> Counted(counts, net.ratios[layer], pos0, b)
    {
      var ratio := net.ratios[layer];
      var need := (pos0 + b) / ratio;
      BoundaryCount(pos0 + b, ratio);
      StoreRows(ratio, done);
      counts := [];
      if |compressors[layer].value.rows| < need {
        return false, [];
      }
      for k := 0 to b
        invariant Counted(counts, ratio, pos0, k)
      {
        BoundaryCount(pos0 + k + 1, ratio);
        counts := counts + [(pos0 + k + 1) / ratio];
      }
      ok := true;
    }

    /** Pre-MoE of one lane: project into the layer's store or count what it holds, then attend.
        `done` is how many positions the store holds. */
    method PreMoe(layer: nat, pos0: nat, b: nat, mode: Mode, ghost done: nat) returns (ok: bool)
      requires layer < |net.ratios| == |compressors|
      requires net.ratios[layer] > 0 && compressors[layer].Some? ==>
               compressors[layer] == Some(StoreOf(net.ratios[layer], done))
      requires Appends(net, layer, mode) ==> done == pos0
      modifies this
      ensures ok <==>
              net.ratios[layer] == 0 || (old(compressors)[layer].Some? && Enough(net, layer, mode, pos0 + b, done))
      ensures ok ==>
                compressors == if Appends(net, layer, mode)
                               then old(compressors)[layer := Some(StoreOf(net.ratios[layer], pos0 + b))]
                               else old(compressors)
      ensures ok ==>
                log == if mode == KvSourceOnly then old(log) else old(log) + LayerLog(layer, net.ratios[layer], pos0, b)
    {
      var ratio := net.ratios[layer];
      var counts: seq<nat> := [];
      ghost var held := done;
      if ratio > 0 {
        if compressors[layer].None? {
          return false;
        }
        if Appends(net, layer, mode) {
          counts := Append(layer, pos0, b);
          held := pos0 + b;
        } else {
          ok, counts := Reuse(layer, pos0, b, done);
          if !ok {
            return;
          }
        }
      }
      ok := true;
      if mode != KvSourceOnly {
        Attend(layer, pos0, b, counts, held);
      }
    }

    /** A lane that can run runs. */
    method OneLane(layer: nat, mode: Mode, pos0: nat, b: nat, ghost end: nat, ghost done: nat) returns (ok: bool)
      requires layer < |net.ratios| == |compressors| && end == pos0 + b
      requires LaneReady(net, compressors, layer, mode, pos0, end, done)
      modifies this
      ensures ok
      ensures compressors == Written(net, old(compressors), layer, mode, end)
      ensures log == Logged(net, old(log), layer, mode, pos0, b)
    {
      if net.ratios[layer] > 0 {
        LaneHasEnough(net, compressors, layer, mode, pos0, end, done);
      }
      ok := PreMoe(layer, pos0, b, mode, done);
    }

    /** Both lanes of one layer, its store in place. */
    method Lanes(layer: nat, mode: Mode, pos0: nat, a: nat, b: nat, ghost done: nat) returns (ok: bool)
      requires layer < |net.ratios| == |compressors| && a <= b
      requires LaneReady(net, compressors, layer, mode, pos0, pos0 + b, done)
      modifies this
      ensures ok
      ensures compressors == Written(net, old(compressors), layer, mode, pos0 + b)
      ensures log == Logged(net, old(log), layer, mode, pos0, b)
    {
      ghost var mid, end := pos0 + a, pos0 + b;
      WrittenTwice(net, compressors, layer, mode, mid, end);
      LoggedTwice(net, log, layer, mode, pos0, a, b);
      FirstLaneReady(net, compressors, layer, mode, pos0, mid, end, done);
      NextLaneReady(net, compressors, layer, mode, pos0, mid, end, done);
      ok := OneLane(layer, mode, pos0, a, mid, done);
      if b > a {
        ok := OneLane(layer, mode, pos0 + a, b - a, end, if Appends(net, layer, mode) then mid else done);
      }
    }

    /** Both lanes of one layer, the source's store lent to it meanwhile. */
    method Layer(layer: nat, mode: Mode, pos0: nat, a: nat, b: nat, ghost done: seq<nat>) returns (ok: bool)
      requires layer < |net.ratios| && a <= b && Sound(net) && Held(net, compressors, done)
      requires Appends(net, layer, mode) ==> done[layer] == pos0
      requires net.ratios[layer] > 0 && !Appends(net, layer, mode) ==> done[StoreLayer(net, layer)] >= pos0 + b
      modifies this
      ensures ok
      ensures Held(net, compressors, if Appends(net, layer, mode) then done[layer := pos0 + b] else done)
      ensures log == if mode == KvSourceOnly then old(log) else old(log) + LayerLog(layer, net.ratios[layer], pos0, b)
    {
      assert SoundLayer(net, layer);
      var src := SourceOf(net, layer);
      ghost var d := done[StoreLayer(net, layer)];
      assert HeldAt(net, compressors, done, layer) && HeldAt(net, compressors, done, StoreLayer(net, layer));
      if src.Some? {
        compressors := compressors[layer := compressors[src.value]][src.value := None];
        ok := Lanes(layer, mode, pos0, a, b, d);
        compressors := compressors[src.value := compressors[layer]][layer := None];
        assert compressors == old(compressors);
      } else {
        ok := Lanes(layer, mode, pos0, a, b, d);
        if Appends(net, layer, mode) {
          Restored(net, old(compressors), compressors, done, layer, pos0 + b);
        }
      }
    }

    /** Layer `n` of a range. */
    method RangeLayer(lo: nat, hi: nat, n: nat, ced: Mode, pos0: nat, a: nat, b: nat, ghost done: seq<nat>,
                      ghost base: seq<Use>)
      requires Sound(net) && a <= b && lo <= n < hi && Ready(net, done, lo, hi, ced, pos0, b)
      requires Held(net, compressors, After(net, done, lo, n, ced, pos0 + b)) &&
               log == base + RangeLog(net, lo, n, ced, pos0, b)
      modifies this
      ensures Held(net, compressors, After(net, done, lo, n + 1, ced, pos0 + b)) &&
              log == base + RangeLog(net, lo, n + 1, ced, pos0, b)
    {
      LayerReady(net, done, lo, hi, ced, pos0, b, n);
      Assoc(base, RangeLog(net, lo, n, ced, pos0, b), LayerLog(n, net.ratios[n], pos0, b));
      var ok := Layer(n, ModeOf(net, ced, n), pos0, a, b, After(net, done, lo, n, ced, pos0 + b));
    }

    /** Warm-up and steady state: every layer's pre-MoE, every layer's post-MoE but the last one's. */
    method RunLayers(rowsA: seq<Hidden>, rowsB: seq<Hidden>, pos0: nat, a: nat, b: nat, lo: nat, hi: nat, ced: Mode,
                     ghost done: seq<nat>)
      returns (laneA: Lane, laneB: Lane)
      requires Sound(net) && Held(net, compressors, done) && a <= b && Ready(net, done, lo, hi, ced, pos0, b)
      requires AreRows(rowsA, pos0, a, lo) && AreRows(rowsB, pos0 + a, b - a, lo)
      modifies this
      ensures Held(net, compressors, After(net, done, lo, hi, ced, pos0 + b)) &&
              log == old(log) + RangeLog(net, lo, hi, ced, pos0, b)
      ensures AreRows(laneA.residual, pos0, a, hi - 1) && AreRows(laneB.residual, pos0 + a, b - a, hi - 1)
    {
      laneA, laneB := Lane(rowsA, []), Lane(rowsB, []);
      ghost var base := log;
      assert base + RangeLog(net, lo, lo, ced, pos0, b) == base;
      RangeLayer(lo, hi, lo, ced, pos0, a, b, done, base);
      for n := lo + 1 to hi
        invariant Held(net, compressors, After(net, done, lo, n, ced, pos0 + b)) &&
                  log == base + RangeLog(net, lo, n, ced, pos0, b)
        invariant AreRows(laneA.residual, pos0, a, n - 1) && AreRows(laneB.residual, pos0 + a, b - a, n - 1)
      {
        laneA := PostMoe(laneA, pos0, a, n - 1);
        laneB := PostMoe(laneB, pos0 + a, b - a, n - 1);
        RangeLayer(lo, hi, n, ced, pos0, a, b, done, base);
      }
    }

    /** The pipelined driver over layers `[lo, hi)`: rows `[0, a)` of the batch in lane A, the rest in
        lane B.  What attention reads does not depend on the cut. */
    method RunRange(rows: seq<Hidden>, pos0: nat, a: nat, lo: nat, hi: nat, ced: Mode, ghost done: seq<nat>)
      returns (ok: bool, laneA: Lane, laneB: Lane)
      requires Sound(net) && Held(net, compressors, done) && 0 < a <= |rows| && AreRows(rows, pos0, |rows|, lo)
      requires lo < hi <= |net.ratios| && ModeFits(net, lo, hi, ced) ==> Ready(net, done, lo, hi, ced, pos0, |rows|)
      modifies this
      ensures ok <==> lo < hi <= |net.ratios| && ModeFits(net, lo, hi, ced)
      ensures !ok ==> compressors == old(compressors) && log == old(log)
      ensures ok ==>
                && Held(net, compressors, After(net, done, lo, hi, ced, pos0 + |rows|))
                && log == old(log) + RangeLog(net, lo, hi, ced, pos0, |rows|)
                && var depth := if ModeOf(net, ced, hi - 1) == KvSourceOnly then hi - 1 else hi;
                   AreRows(laneA.residual, pos0, a, depth) && AreRows(laneB.residual, pos0 + a, |rows| - a, depth)
    {
      laneA, laneB := Lane([], []), Lane([], []);
      ok := lo < hi <= |net.ratios| && ModeFits(net, lo, hi, ced);
      if !ok {
        return;
      }
      laneA, laneB := RunLayers(rows[..a], rows[a..], pos0, a, |rows|, lo, hi, ced, done);
      if ModeOf(net, ced, hi - 1) != KvSourceOnly {
        laneA := PostMoe(laneA, pos0, a, hi - 1);
        laneB := PostMoe(laneB, pos0 + a, |rows| - a, hi - 1);
      }
    }

    /** Attention of one lane: row `k` reads the first `counts[k]` rows of the store. */
    ghost method Attend(layer: nat, pos0: nat, b: nat, counts: seq<nat>, done: nat)
      requires layer < |net.ratios| == |compressors|
      requires var ratio := net.ratios[layer];
               ratio > 0 ==> Counted(counts, ratio, pos0, b) && compressors[layer] == Some(StoreOf(ratio, done))
                             && Boundaries(pos0 + b, ratio) <= Boundaries(done, ratio)
      modifies this`log
      ensures log == old(log) + LayerLog(layer, net.ratios[layer], pos0, b)
    {
      var ratio := net.ratios[layer];
      for k := 0 to b
        invariant log == old(log) + LayerLog(layer, ratio, pos0, k)
      {
        var rows: seq<seq<nat>> := [];
        if ratio > 0 {
          BoundariesMonotone(pos0 + k + 1, pos0 + b, ratio);
          StoreRows(ratio, done);
          RowsPrefix(ratio, Boundaries(pos0 + k + 1, ratio), Boundaries(done, ratio));
          rows := compressors[layer].value.rows[..counts[k]];
        }
        log := log + [Use(layer, pos0 + k, rows)];
      }
    }
  }

  /** Each layer of a ready range finds its store as it needs it. */
  lemma LayerReady(net: Net, done: seq<nat>, lo: nat, hi: nat, ced: Mode, pos0: nat, b: nat, n: nat)
    requires Ready(net, done, lo, hi, ced, pos0, b) && lo <= n < hi && Sound(net)
    ensures var done' := After(net, done, lo, n, ced, pos0 + b);
            && (Appends(net, n, ModeOf(net, ced, n)) ==> done'[n] == pos0)
            && (net.ratios[n] > 0 && !Appends(net, n, ModeOf(net, ced, n)) ==> done'[StoreLayer(net, n)] >= pos0 + b)
  {
    assert SoundLayer(net, n);
    AfterAt(net, done, lo, n, ced, pos0 + b, n);
    AfterAt(net, done, lo, n, ced, pos0 + b, StoreLayer(net, n));
    assert StoreReady(net, done, lo, ced, pos0, b, n);
  }

  lemma Restored(net: Net, before: seq<Option<Store>>, compressors: seq<Option<Store>>, done: seq<nat>, layer: nat,
                 end: nat)
    requires Held(net, before, done) && layer < |net.ratios| == |compressors|
    requires forall l :: 0 <= l < |compressors| && l != layer ==> compressors[l] == before[l]
    requires compressors[layer] == if Owns(net, layer) then Some(StoreOf(net.ratios[layer], end)) else None
    ensures Held(net, compressors, done[layer := end])
  {
    var done' := done[layer := end];
    forall l | 0 <= l < |done|
      ensures HeldAt(net, compressors, done', l)
    {
      assert HeldAt(net, before, done, l);
    }
  }

  /** `n_comp_after`: what row `k` may read. */
  ghost predicate Counted(counts: seq<nat>, ratio: nat, pos0: nat, n: nat)
    requires ratio > 0
  {
    |counts| == n && forall k :: 0 <= k < n ==> counts[k] == Boundaries(pos0 + k + 1, ratio)
  }

  // ---- the old counts ----

  /** What row `k` used to read: the rows before this call, by subtraction, and the boundaries since. */
  function OldCount(stored: nat, pos0: nat, b: nat, ratio: nat, k: nat): int
    requires ratio > 0
  {
    stored - (Boundaries(pos0 + b, ratio) - Boundaries(pos0, ratio))
    + (Boundaries(pos0 + k + 1, ratio) - Boundaries(pos0, ratio))
  }

  /** In lane A, rows `[pos0, pos0 + a)` of a chunk of `b` rows whose source layer has run for both
      lanes, the old count is the right one exactly when lane B completes no compressed row. */
  lemma OldCountLeaks(pos0: nat, a: nat, b: nat, ratio: nat, k: nat)
    requires ratio > 0 && k < a <= b
    ensures OldCount(Boundaries(pos0 + b, ratio), pos0, a, ratio, k) == Boundaries(pos0 + k + 1, ratio) <==>
            Boundaries(pos0 + b, ratio) == Boundaries(pos0 + a, ratio)
    ensures OldCount(Boundaries(pos0 + b, ratio), pos0, a, ratio, k) >= Boundaries(pos0 + k + 1, ratio)
  {
    BoundariesMonotone(pos0 + a, pos0 + b, ratio);
  }

  lemma {:induction false} RowAt(ratio: nat, n: nat, i: nat)
    requires i < n
    ensures |RowsOf(ratio, n)| == n && RowsOf(ratio, n)[i] == Range(ratio * i, ratio * (i + 1))
  {
    RowsLength(ratio, n);
    if i < n - 1 {
      RowAt(ratio, n - 1, i);
      RowsLength(ratio, n - 1);
    }
  }

  lemma NextBoundary(p: nat, ratio: nat)
    requires ratio > 0
    ensures ratio * (Boundaries(p, ratio) + 1) > p
  {
    BoundaryCount(p, ratio);
    assert ratio * (p / ratio + 1) == ratio * (p / ratio) + ratio;
  }

  /** Some of the first `count` rows pools a position after `pos`. */
  ghost predicate ReadsPast(ratio: nat, count: nat, pos: nat) {
    exists i, j :: 0 <= i < |RowsOf(ratio, count)| && 0 <= j < |RowsOf(ratio, count)[i]| &&
        RowsOf(ratio, count)[i][j] > pos
  }

  lemma LateRow(ratio: nat, count: nat, i: nat, pos: nat)
    requires ratio > 0 && i < count && ratio * (i + 1) > pos + 1
    ensures ReadsPast(ratio, count, pos)
  {
    RowAt(ratio, count, i);
    assert ratio * (i + 1) == ratio * i + ratio;
    assert RowsOf(ratio, count)[i][ratio - 1] == ratio * (i + 1) - 1;
  }

  /** When lane B completes one, the old count let lane A's query at `pos0 + k` read a row that pools
      a later position. */
  lemma OldCountReadsTheFuture(pos0: nat, a: nat, b: nat, ratio: nat, k: nat)
    requires ratio > 0 && k < a <= b && Boundaries(pos0 + b, ratio) != Boundaries(pos0 + a, ratio)
    ensures var count := OldCount(Boundaries(pos0 + b, ratio), pos0, a, ratio, k);
            0 < count <= Boundaries(pos0 + b, ratio) && ReadsPast(ratio, count, pos0 + k)
  {
    OldCountLeaks(pos0, a, b, ratio, k);
    BoundariesMonotone(pos0 + k + 1, pos0 + a, ratio);
    NextBoundary(pos0 + k + 1, ratio);
    LateRow(ratio, OldCount(Boundaries(pos0 + b, ratio), pos0, a, ratio, k), Boundaries(pos0 + k + 1, ratio), pos0 + k);
  }
}
