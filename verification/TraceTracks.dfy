/** Spreading trace slices over sub-tracks (scripts/evt2perfetto.py, `Tracks`). */
module TraceTracks {
  import opened Prelude
  import Sorting

  /** A time in nanoseconds; a trace clock that was never mapped gives `NaN`. */
  datatype Time = NaN | At(ns: real)

  datatype Value = Number(x: real) | Text(s: string)

  /** `args`; an event without any has none. */
  type Args = map<string, Value>

  datatype Slice = Slice(a: real, b: real, name: string, args: Args)

  predicate SliceLe(s: Slice, t: Slice) {
    s.a < t.a || (s.a == t.a && s.b <= t.b)
  }

  /** Two slices that may share a sub-track: one ends before the other starts. */
  predicate Apart(s: Slice, t: Slice) {
    s.b <= t.a || t.b <= s.a
  }

  ghost predicate Proper(sl: seq<Slice>) {
    forall i :: 0 <= i < |sl| ==> sl[i].a <= sl[i].b
  }

  /** A sub-track for every slice, none holding two slices that overlap. */
  ghost predicate Separates(sl: seq<Slice>, lane: seq<nat>, width: nat) {
    && |lane| == |sl|
    && (forall i :: 0 <= i < |lane| ==> lane[i] < width)
    && (forall i, j :: 0 <= i < j < |lane| && lane[i] == lane[j] ==> Apart(sl[i], sl[j]))
  }

  /** Every slice is on the first sub-track whose earlier slices have all ended. */
  ghost predicate FirstFree(sl: seq<Slice>, lane: seq<nat>) {
    |lane| <= |sl| && forall i :: 0 <= i < |lane| ==> FirstFreeAt(sl, lane, i)
  }

  ghost predicate FirstFreeAt(sl: seq<Slice>, lane: seq<nat>, i: nat)
    requires i < |lane| <= |sl|
  {
    IsFree(sl, lane, i, lane[i]) && forall k :: 0 <= k < lane[i] ==> !IsFree(sl, lane, i, k)
  }

  ghost predicate IsFree(sl: seq<Slice>, lane: seq<nat>, i: nat, k: nat)
    requires i < |lane| <= |sl|
  {
    forall j :: 0 <= j < i && lane[j] == k ==> sl[j].b <= sl[i].a
  }

  /** Slices that overlap pairwise. */
  ghost predicate Clique(sl: seq<Slice>, members: seq<nat>) {
    && Distinct(members)
    && (forall p :: 0 <= p < |members| ==> members[p] < |sl|)
    && (forall p, q :: 0 <= p < q < |members| ==> !Apart(sl[members[p]], sl[members[q]]))
  }

  // ---- first fit ----

  /** First fit after `i` slices: `last[k]` is the slice that ends sub-track `k`. */
  ghost predicate Fitted(sl: seq<Slice>, lane: seq<nat>, ends: seq<real>, last: seq<nat>) {
    && |lane| <= |sl| && |last| == |ends|
    && Separates(sl[..|lane|], lane, |ends|)
    && (forall j :: 0 <= j < |lane| ==> sl[j].b <= ends[lane[j]])
    && (forall k :: 0 <= k < |ends| ==> last[k] < |lane| && lane[last[k]] == k && sl[last[k]].b == ends[k])
  }

  /** The first sub-track that is free at `a`. */
  method FreeTrack(ends: seq<real>, a: real) returns (k: nat)
    ensures k <= |ends| && (k < |ends| ==> ends[k] <= a)
    ensures forall i :: 0 <= i < k ==> ends[i] > a
  {
    k := 0;
    while k < |ends| && ends[k] > a
      invariant k <= |ends| && forall i :: 0 <= i < k ==> ends[i] > a
    {
      k := k + 1;
    }
  }

  /** Sub-track `k` is the first free one for the next slice. */
  lemma FreeIs(sl: seq<Slice>, lane: seq<nat>, ends: seq<real>, last: seq<nat>, k: nat)
    requires Fitted(sl, lane, ends, last) && |lane| < |sl| && FirstFree(sl, lane) && k <= |ends|
    requires (k < |ends| ==> ends[k] <= sl[|lane|].a) && forall i :: 0 <= i < k ==> ends[i] > sl[|lane|].a
    ensures FirstFree(sl, lane + [k])
  {
    var n, lane' := |lane|, lane + [k];
    forall i | 0 <= i < n
      ensures FirstFreeAt(sl, lane', i)
    {
      assert FirstFreeAt(sl, lane, i);
      forall c: nat
        ensures IsFree(sl, lane', i, c) <==> IsFree(sl, lane, i, c)
      {
      }
    }
    forall c | 0 <= c < k
      ensures !IsFree(sl, lane', n, c)
    {
      assert lane'[last[c]] == c && sl[last[c]].b > sl[n].a;
    }
  }

  lemma ReuseFits(sl: seq<Slice>, lane: seq<nat>, ends: seq<real>, last: seq<nat>, k: nat)
    requires Proper(sl) && Fitted(sl, lane, ends, last) && |lane| < |sl| && k < |ends| && ends[k] <= sl[|lane|].a
    ensures Fitted(sl, lane + [k], ends[k := sl[|lane|].b], last[k := |lane|])
  {
  }

  lemma OpenFits(sl: seq<Slice>, lane: seq<nat>, ends: seq<real>, last: seq<nat>)
    requires Proper(sl) && Fitted(sl, lane, ends, last) && |lane| < |sl|
    ensures Fitted(sl, lane + [|ends|], ends + [sl[|lane|].b], last + [|lane|])
  {
  }

  /** When no sub-track is free, the slices that end them overlap each other and the new one. */
  lemma NoneFree(sl: seq<Slice>, lane: seq<nat>, ends: seq<real>, last: seq<nat>)
    requires Proper(sl) && Sorting.SortedBy(sl, SliceLe) && Fitted(sl, lane, ends, last) && |lane| < |sl|
    requires forall k :: 0 <= k < |ends| ==> ends[k] > sl[|lane|].a
    ensures Clique(sl, last + [|lane|])
  {
    var i := |lane|;
    var members := last + [i];
    forall p, q | 0 <= p < q < |members|
      ensures members[p] != members[q] && !Apart(sl[members[p]], sl[members[q]])
    {
      assert members[p] == last[p] && SliceLe(sl[last[p]], sl[i]);
      if q < |last| {
        assert members[q] == last[q] && SliceLe(sl[last[q]], sl[i]);
        assert lane[last[p]] != lane[last[q]];
      }
    }
  }

  /** One track: first fit over the slices sorted by start and end.  As many slices as there are
      sub-tracks overlap pairwise. */
  method FirstFit(sl: seq<Slice>) returns (lane: seq<nat>, width: nat, ghost clique: seq<nat>)
    requires Proper(sl) && Sorting.SortedBy(sl, SliceLe)
    ensures Separates(sl, lane, width) && Clique(sl, clique) && |clique| == width
    ensures FirstFree(sl, lane)
  {
    lane := [];
    clique := [];
    var ends: seq<real> := [];
    ghost var last: seq<nat> := [];
    for i := 0 to |sl|
      invariant |lane| == i && Fitted(sl, lane, ends, last)
      invariant Clique(sl, clique) && |clique| == |ends| && FirstFree(sl, lane)
    {
      var k := FreeTrack(ends, sl[i].a);
      FreeIs(sl, lane, ends, last, k);
      if k < |ends| {
        ReuseFits(sl, lane, ends, last, k);
        lane, ends, last := lane + [k], ends[k := sl[i].b], last[k := i];
      } else {
        NoneFree(sl, lane, ends, last);
        OpenFits(sl, lane, ends, last);
        clique := last + [i];
        lane, ends, last := lane + [k], ends + [sl[i].b], last + [i];
      }
    }
    assert sl[..|sl|] == sl;
    width := |ends|;
  }

  // ---- as few sub-tracks as possible ----

  lemma {:induction false} Pigeonhole(xs: seq<nat>, m: nat)
    requires Distinct(xs) && forall i :: 0 <= i < |xs| ==> xs[i] < m
    ensures |xs| <= m
  {
    if xs != [] {
      var first := xs[0];
      assert first < m;
      if m - 1 in xs {
        var i :| 0 <= i < |xs| && xs[i] == m - 1;
        Pigeonhole(xs[..i] + xs[i + 1..], m - 1);
      } else {
        Pigeonhole(xs, m - 1);
      }
    }
  }

  /** No way of separating the slices does with fewer sub-tracks than a clique has members. */
  lemma FewestLanes(sl: seq<Slice>, clique: seq<nat>, lane: seq<nat>, width: nat)
    requires Clique(sl, clique) && Separates(sl, lane, width)
    ensures |clique| <= width
  {
    var used := seq(|clique|, p requires 0 <= p < |clique| => lane[clique[p]]);
    forall p, q | 0 <= p < q < |used|
      ensures used[p] != used[q]
    {
      var x, y := clique[p], clique[q];
      assert x != y && !Apart(sl[x], sl[y]);
      assert !Apart(sl[y], sl[x]);
      var lx, ly := lane[x], lane[y];
      assert used[p] == lx && used[q] == ly;
    }
    Pigeonhole(used, width);
  }

  // ---- labels ----

  function Label(track: string, lane: nat): string {
    if lane == 0 then track else track + " #" + Digits(lane + 1)
  }

  lemma LabelsAre(track: string)
    ensures Label(track, 0) == track && Label(track, 1) == track + " #2" && Label(track, 9) == track + " #10"
  {
    assert Digits(10) == Digits(1) + [DIGITS[0]];
  }

  /** The last `#` of a numbered label ends its track's name. */
  lemma NumberedLabel(t: string, d: string, u: string, e: string)
    requires '#' !in d && '#' !in e && t + " #" + d == u + " #" + e
    ensures t == u && d == e
  {
    var s, r := t + " #" + d, u + " #" + e;
    assert s[|t| + 1] == '#' && r[|u| + 1] == '#';
    forall i | |t| + 1 < i < |s|
      ensures s[i] != '#'
    {
      assert s[i] == d[i - |t| - 2];
    }
    forall i | |u| + 1 < i < |r|
      ensures r[i] != '#'
    {
      assert r[i] == e[i - |u| - 2];
    }
    assert t == s[..|t|] && u == r[..|u|] && d == s[|t| + 2..] && e == r[|u| + 2..];
  }

  /** Two sub-tracks share a label exactly when they are the same, or one is the first sub-track of
      a track whose name is the other's label. */
  lemma LabelsCollide(t: string, i: nat, u: string, j: nat)
    ensures Label(t, i) == Label(u, j) <==>
            (t == u && i == j) || (i == 0 && j > 0 && t == Label(u, j)) || (j == 0 && i > 0 && u == Label(t, i))
  {
    if i > 0 && j > 0 && Label(t, i) == Label(u, j) {
      NumberedLabel(t, Digits(i + 1), u, Digits(j + 1));
      DigitsInjective(i + 1, j + 1);
    }
    if i == 0 && j > 0 {
      assert |Label(u, j)| > |u|;
    }
    if j == 0 && i > 0 {
      assert |Label(t, i)| > |t|;
    }
  }

  // ---- the recorder ----

  /** A track of a process. */
  type Key = (int, string)

  datatype Event =
    | ThreadName(pid: int, tid: nat, name: string)
    | SortIndex(pid: int, tid: nat)
    | Complete(pid: int, tid: nat, name: string, ts: real, dur: real, args: Args)

  /** The slices among the events. */
  function Completes(ev: seq<Event>): seq<Event> {
    if ev == [] then []
    else if ev[|ev| - 1].Complete? then Completes(ev[..|ev| - 1]) + [ev[|ev| - 1]]
    else Completes(ev[..|ev| - 1])
  }

  /** A finished track: its slices in start order and the sub-track of each. */
  datatype Row = Row(key: Key, slices: seq<Slice>, lane: seq<nat>, width: nat)

  /** No separation uses fewer sub-tracks. */
  ghost predicate Fewest(sl: seq<Slice>, width: nat) {
    forall lane, w :: Separates(sl, lane, w) ==> width <= w
  }

  /** Every pending slice is on exactly one sub-track, none overlap there, and no fewer would do. */
  ghost predicate Finished(row: Row, key: Key, pending: seq<Slice>) {
    && row.key == key && multiset(row.slices) == multiset(pending) && Sorting.SortedBy(row.slices, SliceLe)
    && Separates(row.slices, row.lane, row.width) && Fewest(row.slices, row.width) && FirstFree(row.slices, row.lane)
  }

  ghost predicate AllFinished(rows: seq<Row>, keys: seq<Key>, pending: map<Key, seq<Slice>>) {
    && |rows| <= |keys|
    && forall r :: 0 <= r < |rows| ==> keys[r] in pending && Finished(rows[r], keys[r], pending[keys[r]])
  }

  /** Slices with the same start and end are in the order they came in. */
  ghost predicate AllStable(rows: seq<Row>, keys: seq<Key>, pending: map<Key, seq<Slice>>) {
    && |rows| <= |keys|
    && forall r :: 0 <= r < |rows| ==> keys[r] in pending && Stable(rows[r], pending[keys[r]])
  }

  ghost predicate AllLaid(rows: seq<Row>, keys: seq<Key>, pending: map<Key, seq<Slice>>) {
    AllFinished(rows, keys, pending) && AllStable(rows, keys, pending)
  }

  ghost predicate Stable(row: Row, pending: seq<Slice>) {
    exists at :: Sorting.StablySorted(pending, row.slices, at, SliceLe)
  }

  function Us(t0: real, t: real): real {
    (t - t0) / 1000.0
  }

  function Duration(s: Slice): real {
    if (s.b - s.a) / 1000.0 >= 0.001 then (s.b - s.a) / 1000.0 else 0.001
  }

  ghost predicate Labelled(row: Row, tids: map<Key, nat>, n: nat) {
    n <= |row.lane| && forall i :: 0 <= i < n ==> (row.key.0, Label(row.key.1, row.lane[i])) in tids
  }

  /** The event of slice `i` of a row. */
  ghost function Shown(t0: real, row: Row, tids: map<Key, nat>, i: nat): Event
    requires i < |row.lane| == |row.slices| && (row.key.0, Label(row.key.1, row.lane[i])) in tids
  {
    Complete(row.key.0, tids[(row.key.0, Label(row.key.1, row.lane[i]))], row.slices[i].name,
             (row.slices[i].a - t0) / 1000.0,
             if row.slices[i].b - row.slices[i].a >= 1.0 then (row.slices[i].b - row.slices[i].a) / 1000.0 else 0.001,
             row.slices[i].args)
  }

  lemma ShownIs(t0: real, row: Row, tids: map<Key, nat>, i: nat)
    requires i < |row.lane| == |row.slices| && (row.key.0, Label(row.key.1, row.lane[i])) in tids
    ensures var s, tid := row.slices[i], tids[(row.key.0, Label(row.key.1, row.lane[i]))];
            Shown(t0, row, tids, i) == Complete(row.key.0, tid, s.name, Us(t0, s.a), Duration(s), s.args)
  {
  }

  /** Times are in microseconds from `t0` on, of which a nanosecond is a thousandth. */
  lemma ShownTimes(t0: real, row: Row, tids: map<Key, nat>, i: nat)
    requires i < |row.lane| == |row.slices| && (row.key.0, Label(row.key.1, row.lane[i])) in tids
    ensures var s, e := row.slices[i], Shown(t0, row, tids, i);
            && e.ts * 1000.0 == s.a - t0 && (s.a == t0 ==> e.ts == 0.0)
            && (s.b - s.a >= 1.0 ==> (e.ts + e.dur) * 1000.0 == s.b - t0) && (s.b - s.a < 1.0 ==> e.dur * 1000.0 == 1.0)
  {
  }

  /** The events of the first `n` slices of a row. */
  ghost function ShownRow(t0: real, row: Row, tids: map<Key, nat>, n: nat): seq<Event>
    requires |row.lane| == |row.slices| && Labelled(row, tids, n)
  {
    if n == 0 then [] else ShownRow(t0, row, tids, n - 1) + [Shown(t0, row, tids, n - 1)]
  }

  ghost predicate RowsLabelled(rows: seq<Row>, tids: map<Key, nat>) {
    forall r :: 0 <= r < |rows| ==> |rows[r].lane| == |rows[r].slices| && Labelled(rows[r], tids, |rows[r].lane|)
  }

  ghost function ShownRows(t0: real, rows: seq<Row>, tids: map<Key, nat>): seq<Event>
    requires RowsLabelled(rows, tids)
  {
    if rows == [] then []
    else ShownRows(t0, rows[..|rows| - 1], tids) + ShownRow(t0, rows[|rows| - 1], tids, |rows[|rows| - 1].lane|)
  }

  ghost predicate Extends(tids: map<Key, nat>, tids': map<Key, nat>) {
    forall k :: k in tids ==> k in tids' && tids'[k] == tids[k]
  }

  lemma {:induction false} ShownRowExtends(t0: real, row: Row, tids: map<Key, nat>, tids': map<Key, nat>, n: nat)
    requires |row.lane| == |row.slices| && Labelled(row, tids, n) && Extends(tids, tids')
    ensures Labelled(row, tids', n) && ShownRow(t0, row, tids', n) == ShownRow(t0, row, tids, n)
  {
    if n > 0 {
      ShownRowExtends(t0, row, tids, tids', n - 1);
    }
  }

  lemma {:induction false} ShownRowsExtend(t0: real, rows: seq<Row>, tids: map<Key, nat>, tids': map<Key, nat>)
    requires RowsLabelled(rows, tids) && Extends(tids, tids')
    ensures RowsLabelled(rows, tids') && ShownRows(t0, rows, tids') == ShownRows(t0, rows, tids)
  {
    if rows != [] {
      var n := |rows| - 1;
      ShownRowsExtend(t0, rows[..n], tids, tids');
      ShownRowExtends(t0, rows[n], tids, tids', |rows[n].lane|);
      assert forall r :: 0 <= r < n ==> rows[..n][r] == rows[r];
    }
  }

  /** Thread numbers: one per label. */
  ghost predicate Numbered(tids: map<Key, nat>) {
    && (forall k :: k in tids ==> 1 <= tids[k] <= |tids|)
    && (forall k, l :: k in tids && l in tids && tids[k] == tids[l] ==> k == l)
  }

  class Tracks {
    const t0: real
    var ev: seq<Event>
    var keys: seq<Key>
    var pending: map<Key, seq<Slice>>
    var tids: map<Key, nat>

    ghost predicate Valid()
      reads this
    {
      && Distinct(keys) && (forall k :: k in keys <==> k in pending)
      && (forall k :: k in pending ==> Proper(pending[k]))
      && Numbered(tids)
    }

    constructor (t0: real)
      ensures Valid() && ev == [] && keys == [] && pending == map[] && tids == map[] && this.t0 == t0
    {
      this.t0 := t0;
      ev, keys, pending, tids := [], [], map[], map[];
    }

    /** The thread number of a label, announced when it is new. */
    method Tid(pid: int, name: string) returns (tid: nat)
      requires Valid()
      modifies this`ev, this`tids
      ensures Valid() && Extends(old(tids), tids) && (pid, name) in tids && tids[(pid, name)] == tid
      ensures if (pid, name) in old(tids) then tids == old(tids) && ev == old(ev)
              else tids == old(tids)[(pid, name) := |old(tids)| + 1]
                   && ev == old(ev) + [ThreadName(pid, tid, name)] + [SortIndex(pid, tid)]
      ensures Completes(ev) == Completes(old(ev))
    {
      var key := (pid, name);
      if key !in tids {
        tids := tids[key := |tids| + 1];
        ev := ev + [ThreadName(pid, tids[key], name)];
        ev := ev + [SortIndex(pid, tids[key])];
      }
      tid := tids[key];
    }

    /** Records a slice, unless an end is unknown or it ends before it starts. */
    method AddSlice(pid: int, track: string, name: string, a: Time, b: Time, args: Args)
      requires Valid()
      modifies this`keys, this`pending
      ensures Valid()
      ensures if a.NaN? || b.NaN? || b.ns < a.ns then keys == old(keys) && pending == old(pending)
              else
                var key := (pid, track);
                var before := if key in old(pending) then old(pending)[key] else [];
                && pending == old(pending)[key := before + [Slice(a.ns, b.ns, name, args)]]
                && keys == if key in old(pending) then old(keys) else old(keys) + [key]
    {
      if a.NaN? || b.NaN? || b.ns < a.ns {
        return;
      }
      var key := (pid, track);
      if key !in pending {
        DistinctConcat(keys, [key]);
        keys := keys + [key];
        pending := pending[key := []];
      }
      pending := pending[key := pending[key] + [Slice(a.ns, b.ns, name, args)]];
    }

    /** The event of one slice. */
    method ShowSlice(row: Row, i: nat)
      requires Valid() && i < |row.lane| == |row.slices|
      modifies this`ev, this`tids
      ensures Valid() && Extends(old(tids), tids) && (row.key.0, Label(row.key.1, row.lane[i])) in tids
      ensures Completes(ev) == Completes(old(ev)) + [Shown(t0, row, tids, i)]
    {
      var s := row.slices[i];
      var tid := Tid(row.key.0, Label(row.key.1, row.lane[i]));
      var x := Complete(row.key.0, tid, s.name, Us(t0, s.a), Duration(s), s.args);
      ev := ev + [x];
      ShownIs(t0, row, tids, i);
    }

    /** The events of one row. */
    method Show(row: Row)
      requires Valid() && |row.lane| == |row.slices|
      modifies this`ev, this`tids
      ensures Valid() && Extends(old(tids), tids) && Labelled(row, tids, |row.lane|)
      ensures Completes(ev) == Completes(old(ev)) + ShownRow(t0, row, tids, |row.lane|)
    {
      ghost var base := Completes(ev);
      for i := 0 to |row.lane|
        invariant Valid() && Extends(old(tids), tids) && Labelled(row, tids, i)
        invariant Completes(ev) == base + ShownRow(t0, row, tids, i)
      {
        ghost var tids0 := tids;
        ShowSlice(row, i);
        ShowStep(t0, row, tids0, tids, i, base);
      }
    }

    /** Sorts a track's slices and spreads them over its sub-tracks. */
    method Lay(key: Key) returns (row: Row)
      requires Valid() && key in pending
      ensures Finished(row, key, pending[key]) && Stable(row, pending[key])
    {
      var slices;
      ghost var at;
      slices, at := Sorting.StableSort(pending[key], SliceLe);
      ProperSorted(pending[key], slices);
      var lane, width, clique := FirstFit(slices);
      FirstFitIsFewest(slices, clique);
      row := Row(key, slices, lane, width);
    }

    /** One turn of the loop of `finish`. */
    method ShowKey(key: Key, ghost rows: seq<Row>, ghost base: seq<Event>) returns (row: Row)
      requires Valid() && key in pending && RowsLabelled(rows, tids) &&
               Completes(ev) == base + ShownRows(t0, rows, tids)
      modifies this`ev, this`tids
      ensures Valid() && Extends(old(tids), tids) && Finished(row, key, pending[key]) && Stable(row, pending[key])
      ensures RowsLabelled(rows + [row], tids) && Completes(ev) == base + ShownRows(t0, rows + [row], tids)
    {
      row := Lay(key);
      ghost var tids0 := tids;
      Show(row);
      FinishStep(t0, rows, row, tids0, tids, base);
    }

    /** The loop of `finish`. */
    method ShowAll() returns (ghost rows: seq<Row>)
      requires Valid()
      modifies this`ev, this`tids
      ensures Valid() && Extends(old(tids), tids) && |rows| == |keys|
      ensures AllLaid(rows, keys, pending)
      ensures RowsLabelled(rows, tids) && Completes(ev) == Completes(old(ev)) + ShownRows(t0, rows, tids)
    {
      rows := [];
      ghost var base, tids0 := Completes(ev), tids;
      assert base + [] == base;
      var todo, slices := keys, pending;
      assert forall r :: 0 <= r < |todo| ==> todo[r] in keys;
      for r := 0 to |todo|
        invariant Valid() && keys == todo && pending == slices && Extends(tids0, tids)
        invariant |rows| == r && AllLaid(rows, todo, slices)
        invariant RowsLabelled(rows, tids) && Completes(ev) == base + ShownRows(t0, rows, tids)
      {
        var row := ShowKey(todo[r], rows, base);
        FinishedSnoc(rows, todo, slices, row);
        rows := rows + [row];
      }
    }

    /** `finish`: every pending slice becomes one event, on a sub-track where it overlaps nothing,
        with as few sub-tracks per track as possible. */
    method Finish() returns (ghost rows: seq<Row>)
      requires Valid()
      modifies this
      ensures Valid() && pending == map[] && keys == [] && Extends(old(tids), tids)
      ensures |rows| == |old(keys)| && AllFinished(rows, old(keys), old(pending))
      ensures AllStable(rows, old(keys), old(pending))
      ensures RowsLabelled(rows, tids) && Completes(ev) == Completes(old(ev)) + ShownRows(t0, rows, tids)
    {
      rows := ShowAll();
      keys, pending := [], map[];
    }
  }

  lemma ShowStep(t0: real, row: Row, tids: map<Key, nat>, tids': map<Key, nat>, i: nat, base: seq<Event>)
    requires i < |row.lane| == |row.slices| && Labelled(row, tids, i) && Extends(tids, tids')
    requires (row.key.0, Label(row.key.1, row.lane[i])) in tids'
    ensures Labelled(row, tids', i + 1)
    ensures base + ShownRow(t0, row, tids', i + 1) == base + ShownRow(t0, row, tids, i) + [Shown(t0, row, tids', i)]
  {
    ShownRowExtends(t0, row, tids, tids', i);
    Assoc(base, ShownRow(t0, row, tids, i), [Shown(t0, row, tids', i)]);
  }

  lemma FinishStep(t0: real, rows: seq<Row>, row: Row, tids: map<Key, nat>, tids': map<Key, nat>, base: seq<Event>)
    requires RowsLabelled(rows, tids) && Extends(tids, tids')
    requires |row.lane| == |row.slices| && Labelled(row, tids', |row.lane|)
    ensures RowsLabelled(rows + [row], tids')
    ensures base + ShownRows(t0, rows + [row], tids') ==
            base + ShownRows(t0, rows, tids) + ShownRow(t0, row, tids', |row.lane|)
  {
    ShownRowsExtend(t0, rows, tids, tids');
    assert (rows + [row])[..|rows|] == rows;
    Assoc(base, ShownRows(t0, rows, tids), ShownRow(t0, row, tids', |row.lane|));
  }

  lemma FinishedSnoc(rows: seq<Row>, keys: seq<Key>, pending: map<Key, seq<Slice>>, row: Row)
    requires AllLaid(rows, keys, pending) && |rows| < |keys| && keys[|rows|] in pending
    requires Finished(row, keys[|rows|], pending[keys[|rows|]]) && Stable(row, pending[keys[|rows|]])
    ensures AllLaid(rows + [row], keys, pending)
  {
  }

  lemma ProperSorted(sl: seq<Slice>, sorted: seq<Slice>)
    requires Proper(sl) && multiset(sorted) == multiset(sl)
    ensures Proper(sorted)
  {
    Sorting.SameElements(sorted, sl);
    forall i | 0 <= i < |sorted|
      ensures sorted[i].a <= sorted[i].b
    {
      assert sorted[i] in sorted && sorted[i] in sl;
    }
  }

  lemma FirstFitIsFewest(sl: seq<Slice>, clique: seq<nat>)
    requires Clique(sl, clique)
    ensures Fewest(sl, |clique|)
  {
    forall lane, w | Separates(sl, lane, w)
      ensures |clique| <= w
    {
      FewestLanes(sl, clique, lane, w);
    }
  }

  // ---- threads ----

  /** A track named like a numbered sub-track of another. */
  predicate NamedLike(k: Key, lane: nat, l: Key, other: nat) {
    k.0 == l.0 && lane == 0 && other > 0 && k.1 == Label(l.1, other)
  }

  /** Two slices get the same thread exactly when they are on the same sub-track of the same track,
      or one's track is named like the other's sub-track. */
  lemma ThreadIsSubTrack(k: Key, lane: nat, l: Key, other: nat, tids: map<Key, nat>)
    requires Numbered(tids) && (k.0, Label(k.1, lane)) in tids && (l.0, Label(l.1, other)) in tids
    ensures tids[(k.0, Label(k.1, lane))] == tids[(l.0, Label(l.1, other))] <==>
            (k == l && lane == other) || NamedLike(k, lane, l, other) || NamedLike(l, other, k, lane)
  {
    LabelsCollide(k.1, lane, l.1, other);
  }

  /** No pending track is named like a sub-track of another one. */
  ghost predicate PlainNames(keys: seq<Key>) {
    forall k, l, lane: nat :: k in keys && l in keys && k.0 == l.0 && lane > 0 ==> k.1 != Label(l.1, lane)
  }

  /** What `finish` can make of pending slices: rows, and thread numbers for their labels. */
  ghost predicate Drawn(keys: seq<Key>, pending: map<Key, seq<Slice>>, rows: seq<Row>, tids: map<Key, nat>) {
    |rows| == |keys| && AllFinished(rows, keys, pending) && RowsLabelled(rows, tids) && Numbered(tids)
  }

  ghost function ThreadOf(row: Row, tids: map<Key, nat>, i: nat): nat
    requires i < |row.lane| && (row.key.0, Label(row.key.1, row.lane[i])) in tids
  {
    tids[(row.key.0, Label(row.key.1, row.lane[i]))]
  }

  /** Slices on one thread do not overlap. */
  ghost predicate OneAtATime(rows: seq<Row>, tids: map<Key, nat>, r: nat, i: nat, q: nat, j: nat)
    requires RowsLabelled(rows, tids) && r < |rows| && q < |rows| && i < |rows[r].lane| && j < |rows[q].lane|
  {
    (r, i) != (q, j) && ThreadOf(rows[r], tids, i) == ThreadOf(rows[q], tids, j) ==>
        Apart(rows[r].slices[i], rows[q].slices[j])
  }

  ghost predicate ThreadsSeparate(rows: seq<Row>, tids: map<Key, nat>)
    requires RowsLabelled(rows, tids)
  {
    forall r, i, q, j :: 0 <= r < |rows| && 0 <= q < |rows| && 0 <= i < |rows[r].lane| && 0 <= j < |rows[q].lane| ==>
      OneAtATime(rows, tids, r, i, q, j)
  }

  /** Whatever is pending on these tracks, no thread shows two slices that overlap. */
  ghost predicate KeepsApart(keys: seq<Key>) {
    forall pending: map<Key, seq<Slice>>, rows: seq<Row>, tids: map<Key, nat> ::
      Drawn(keys, pending, rows, tids) ==> ThreadsSeparate(rows, tids)
  }

  /** With plain names no thread shows two slices that overlap. */
  lemma ThreadsApart(keys: seq<Key>, rows: seq<Row>, pending: map<Key, seq<Slice>>, tids: map<Key, nat>, r: nat, i: nat,
                     q: nat, j: nat)
    requires Distinct(keys) && PlainNames(keys) && Drawn(keys, pending, rows, tids)
    requires r < |rows| && q < |rows| && i < |rows[r].lane| && j < |rows[q].lane|
    ensures OneAtATime(rows, tids, r, i, q, j)
  {
    if (r, i) != (q, j) && ThreadOf(rows[r], tids, i) == ThreadOf(rows[q], tids, j) {
      assert Finished(rows[r], keys[r], pending[keys[r]]) && Finished(rows[q], keys[q], pending[keys[q]]);
      assert keys[r] in keys && keys[q] in keys;
      ThreadIsSubTrack(keys[r], rows[r].lane[i], keys[q], rows[q].lane[j], tids);
      assert r == q;
    }
  }

  lemma NumberOne(tids: map<Key, nat>, k: Key)
    requires Numbered(tids) && k !in tids
    ensures Numbered(tids[k := |tids| + 1])
  {
    var tids' := tids[k := |tids| + 1];
    assert |tids'| == |tids| + 1;
    forall l | l in tids'
      ensures 1 <= tids'[l] <= |tids'|
    {
    }
  }

  /** A numbering of any labels, as `tid` makes it. */
  lemma {:induction false} NumberAll(labels: seq<Key>) returns (tids: map<Key, nat>)
    ensures Numbered(tids) && forall k :: k in labels ==> k in tids
  {
    if labels == [] {
      return map[];
    }
    var n := |labels| - 1;
    tids := NumberAll(labels[..n]);
    assert forall k :: k in labels ==> k in labels[..n] || k == labels[n];
    if labels[n] !in tids {
      NumberOne(tids, labels[n]);
      tids := tids[labels[n] := |tids| + 1];
    }
  }

  /** Copies of one slice need as many sub-tracks as there are copies. */
  function Copies(key: Key, s: Slice, n: nat): Row {
    Row(key, seq(n, _ => s), seq(n, i => i), n)
  }

  lemma CopiesFinished(key: Key, s: Slice, n: nat)
    requires s.a < s.b
    ensures Finished(Copies(key, s, n), key, seq(n, _ => s))
  {
    var row := Copies(key, s, n);
    FirstFitIsFewest(row.slices, row.lane);
    CopiesFree(s, n);
  }

  lemma CopiesFree(s: Slice, n: nat)
    requires s.a < s.b
    ensures FirstFree(seq(n, _ => s), seq(n, i => i))
  {
    var copies, lane: seq<nat> := seq(n, _ => s), seq(n, i => i);
    forall i | 0 <= i < n
      ensures FirstFreeAt(copies, lane, i)
    {
      forall k | 0 <= k < i
        ensures !IsFree(copies, lane, i, k)
      {
        assert lane[k] == k;
      }
    }
  }

  function CopyLabels(key: Key, n: nat): (labels: seq<Key>)
    ensures |labels| == n && forall i :: 0 <= i < n ==> labels[i] == (key.0, Label(key.1, i))
  {
    seq(n, i requires 0 <= i < n => (key.0, Label(key.1, i)))
  }

  lemma CopiesLabelled(key: Key, s: Slice, n: nat, tids: map<Key, nat>)
    requires forall k :: k in CopyLabels(key, n) ==> k in tids
    ensures Labelled(Copies(key, s, n), tids, n)
  {
    forall i | 0 <= i < n
      ensures (key.0, Label(key.1, i)) in tids
    {
      assert CopyLabels(key, n)[i] in CopyLabels(key, n);
    }
  }

  lemma FinishedMore(rows: seq<Row>, keys: seq<Key>, pending: map<Key, seq<Slice>>, n: nat, row: Row,
                     slices: seq<Slice>)
    requires |rows| == n < |keys| && AllFinished(rows, keys[..n], pending) && keys[n] !in keys[..n]
    requires Finished(row, keys[n], slices)
    ensures AllFinished(rows + [row], keys, pending[keys[n] := slices])
  {
    forall r | 0 <= r < n
      ensures keys[r] in pending && keys[r] != keys[n] && Finished(rows[r], keys[r], pending[keys[r]])
    {
      assert keys[..n][r] == keys[r];
    }
  }

  lemma LabelsMore(keys: seq<Key>, times: seq<nat>, n: nat, labels: seq<Key>)
    requires n < |keys| == |times|
    requires forall r, k :: 0 <= r < n && k in CopyLabels(keys[..n][r], times[..n][r]) ==> k in labels
    ensures forall r, k :: 0 <= r < n + 1 && k in CopyLabels(keys[r], times[r]) ==>
              k in labels + CopyLabels(keys[n], times[n])
  {
    assert forall r :: 0 <= r < n ==> keys[..n][r] == keys[r] && times[..n][r] == times[r];
  }

  /** `times[r]` copies of one slice pending on every track. */
  lemma {:induction false} DrawCopies(keys: seq<Key>, s: Slice, times: seq<nat>)
    returns (pending: map<Key, seq<Slice>>, rows: seq<Row>, labels: seq<Key>)
    requires Distinct(keys) && |times| == |keys| && s.a < s.b
    ensures |rows| == |keys| && AllFinished(rows, keys, pending) && forall k :: k in pending ==> k in keys
    ensures forall r :: 0 <= r < |rows| ==> rows[r] == Copies(keys[r], s, times[r])
    ensures forall r, k :: 0 <= r < |rows| && k in CopyLabels(keys[r], times[r]) ==> k in labels
  {
    if keys == [] {
      return map[], [], [];
    }
    var n := |keys| - 1;
    pending, rows, labels := DrawCopies(keys[..n], s, times[..n]);
    CopiesFinished(keys[n], s, times[n]);
    assert keys[n] !in keys[..n];
    FinishedMore(rows, keys, pending, n, Copies(keys[n], s, times[n]), seq(times[n], _ => s));
    LabelsMore(keys, times, n, labels);
    pending := pending[keys[n] := seq(times[n], _ => s)];
    rows := rows + [Copies(keys[n], s, times[n])];
    labels := labels + CopyLabels(keys[n], times[n]);
  }

  /** Two slices that overlap on one thread: the last of `lane + 1` copies, and the first one of the
      track that is named like its sub-track. */
  lemma CopiesCollide(keys: seq<Key>, r: nat, q: nat, lane: nat)
    requires Distinct(keys) && r < |keys| && q < |keys| && NamedLike(keys[r], 0, keys[q], lane)
    ensures !KeepsApart(keys)
  {
    var s := Slice(0.0, 5.0, "", map[]);
    var times := seq(|keys|, x => if x == q then lane + 1 else 1);
    var pending, rows, labels := DrawCopies(keys, s, times);
    var tids := NumberAll(labels);
    forall x | 0 <= x < |rows|
      ensures |rows[x].lane| == |rows[x].slices| && Labelled(rows[x], tids, |rows[x].lane|)
    {
      CopiesLabelled(keys[x], s, times[x], tids);
    }
    assert |Label(keys[q].1, lane)| > |keys[q].1|;
    assert r != q && Drawn(keys, pending, rows, tids);
    assert !OneAtATime(rows, tids, r, 0, q, lane);
  }

  /** Plain names are exactly what keeps the threads free of overlaps, whatever is pending. */
  lemma KeepsApartIff(keys: seq<Key>)
    requires Distinct(keys)
    ensures KeepsApart(keys) <==> PlainNames(keys)
  {
    if PlainNames(keys) {
      forall pending: map<Key, seq<Slice>>, rows: seq<Row>, tids: map<Key, nat> | Drawn(keys, pending, rows, tids)
        ensures ThreadsSeparate(rows, tids)
      {
        forall r, i, q, j | 0 <= r < |rows| && 0 <= q < |rows| && 0 <= i < |rows[r].lane| && 0 <= j < |rows[q].lane|
          ensures OneAtATime(rows, tids, r, i, q, j)
        {
          ThreadsApart(keys, rows, pending, tids, r, i, q, j);
        }
      }
    } else {
      var k, l, lane: nat :| k in keys && l in keys && k.0 == l.0 && lane > 0 && k.1 == Label(l.1, lane);
      var r :| 0 <= r < |keys| && keys[r] == k;
      var q :| 0 <= q < |keys| && keys[q] == l;
      CopiesCollide(keys, r, q, lane);
    }
  }

  /** `f"{device} {stream}"`, the track of a device's stream. */
  function StreamTrack(pid: int, device: string, stream: string): Key {
    (pid, device + " " + stream)
  }

  /** A stream called like a numbered sub-track of another stream is enough to lose this. */
  lemma StreamsCollide(pid: int, device: string, stream: string, lane: nat)
    requires lane > 0
    ensures !KeepsApart([StreamTrack(pid, device, stream), StreamTrack(pid, device, Label(stream, lane))])
  {
    var keys := [StreamTrack(pid, device, stream), StreamTrack(pid, device, Label(stream, lane))];
    assert device + " " + (stream + " #" + Digits(lane + 1)) == device + " " + stream + " #" + Digits(lane + 1);
    assert keys[1].1 == Label(keys[0].1, lane);
    assert |keys[1].1| > |keys[0].1|;
    CopiesCollide(keys, 1, 0, lane);
  }

  // ---- drawn slices ----

  /** The drawn intervals of two events do not overlap. */
  predicate DrawnApart(x: Event, y: Event)
    requires x.Complete? && y.Complete?
  {
    x.ts + x.dur <= y.ts || y.ts + y.dur <= x.ts
  }

  /** `s` is under 1 ns and `t` starts within that nanosecond. */
  predicate Crowds(s: Slice, t: Slice) {
    s.b - s.a < 1.0 && t.a < s.a + 1.0
  }

  /** A slice is drawn at least 1 ns long. */
  lemma DrawnOverlap(t0: real, s: Slice, t: Slice)
    requires s.a <= s.b && SliceLe(s, t) && t.a <= t.b && Apart(s, t)
    ensures Us(t0, s.a) + Duration(s) <= Us(t0, t.a) || Us(t0, t.a) + Duration(t) <= Us(t0, s.a) <==> !Crowds(s, t)
  {
  }

  ghost predicate PairDrawnApart(t0: real, row: Row, tids: map<Key, nat>, i: nat, j: nat)
    requires |row.lane| == |row.slices| && Labelled(row, tids, |row.lane|) && i < j < |row.lane|
  {
    row.lane[i] == row.lane[j] ==> DrawnApart(Shown(t0, row, tids, i), Shown(t0, row, tids, j))
  }

  ghost predicate PairNotCrowded(row: Row, i: nat, j: nat)
    requires |row.lane| == |row.slices| && i < j < |row.lane|
  {
    row.lane[i] == row.lane[j] ==> !Crowds(row.slices[i], row.slices[j])
  }

  lemma PairDrawnApartIff(t0: real, row: Row, key: Key, pending: seq<Slice>, tids: map<Key, nat>, i: nat, j: nat)
    requires Finished(row, key, pending) && Proper(pending) && Labelled(row, tids, |row.lane|)
    requires i < j < |row.lane|
    ensures PairDrawnApart(t0, row, tids, i, j) <==> PairNotCrowded(row, i, j)
  {
    Sorting.SameElements(row.slices, pending);
    assert row.slices[i] in pending && row.slices[j] in pending;
    if row.lane[i] == row.lane[j] {
      assert SliceLe(row.slices[i], row.slices[j]);
      DrawnOverlap(t0, row.slices[i], row.slices[j]);
      ShownIs(t0, row, tids, i);
      ShownIs(t0, row, tids, j);
    }
  }

  /** The events of a finished track stay apart on every sub-track exactly when no slice under 1 ns is
      followed on its sub-track within that nanosecond. */
  lemma DrawnApartIff(t0: real, row: Row, key: Key, pending: seq<Slice>, tids: map<Key, nat>)
    requires Finished(row, key, pending) && Proper(pending) && Labelled(row, tids, |row.lane|)
    ensures (forall i, j :: 0 <= i < j < |row.lane| ==> PairDrawnApart(t0, row, tids, i, j)) <==>
            (forall i, j :: 0 <= i < j < |row.lane| ==> PairNotCrowded(row, i, j))
  {
    forall i, j | 0 <= i < j < |row.lane|
      ensures PairDrawnApart(t0, row, tids, i, j) <==> PairNotCrowded(row, i, j)
    {
      PairDrawnApartIff(t0, row, key, pending, tids, i, j);
    }
  }

  lemma TwoInOrder(slices: seq<Slice>, s: Slice, t: Slice)
    requires multiset(slices) == multiset([s, t]) && Sorting.SortedBy(slices, SliceLe) && SliceLe(s, t) && s != t
    requires !SliceLe(t, s)
    ensures slices == [s, t]
  {
    Sorting.SameElements(slices, [s, t]);
    assert slices[0] in [s, t] && slices[1] in [s, t] && SliceLe(slices[0], slices[1]);
    assert slices == [s, t] by {
      assert s in slices && t in slices;
    }
  }

  const SHORT := Slice(0.0, 0.5, "", map[])
  const NEXT := Slice(0.5, 2.0, "", map[])

  lemma ShortFirst(slices: seq<Slice>)
    requires multiset(slices) == multiset([SHORT, NEXT]) && Sorting.SortedBy(slices, SliceLe)
    ensures slices == [SHORT, NEXT]
  {
    TwoInOrder(slices, SHORT, NEXT);
  }

  lemma TwoCrowd(row: Row)
    requires row.slices == [SHORT, NEXT] && |row.lane| == 2 && row.lane[0] == row.lane[1]
    ensures !PairNotCrowded(row, 0, 1)
  {
  }

  lemma CloseSlicesOverlap(t0: real, row: Row, key: Key, pending: seq<Slice>, tids: map<Key, nat>)
    requires pending == [SHORT, NEXT] && Finished(row, key, pending) && Labelled(row, tids, |row.lane|)
    ensures |row.lane| == 2 && row.lane[0] == row.lane[1] && !PairDrawnApart(t0, row, tids, 0, 1)
  {
    ShortFirst(row.slices);
    OneTrack(row.slices, row.lane, row.width, SHORT, NEXT);
    TwoCrowd(row);
    PairDrawnApartIff(t0, row, key, pending, tids, 0, 1);
  }

  /** Two slices that touch fit on one sub-track. */
  lemma OneTrack(slices: seq<Slice>, lane: seq<nat>, width: nat, s: Slice, t: Slice)
    requires slices == [s, t] && s.b <= t.a && Separates(slices, lane, width) && Fewest(slices, width)
    ensures |lane| == 2 && lane[0] == lane[1]
  {
    assert Separates(slices, [0, 0], 1);
  }

  /** Half a nanosecond, and a slice right behind it: one sub-track, and the events overlap. */
  lemma ShortSliceOverlaps(t0: real, row: Row, key: Key, tids: map<Key, nat>)
    requires Finished(row, key, [Slice(0.0, 0.5, "", map[]), Slice(0.5, 2.0, "", map[])])
    requires Labelled(row, tids, |row.lane|)
    ensures |row.lane| == 2 && row.lane[0] == row.lane[1] && !PairDrawnApart(t0, row, tids, 0, 1)
  {
    CloseSlicesOverlap(t0, row, key, [SHORT, NEXT], tids);
  }
}
