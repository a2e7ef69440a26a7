/** Splitting a call's wall time into device-busy, blocked and host time (scripts/final5.py). */
module TimeSplit {
  import opened Prelude
  import opened Intervals

  datatype Leaf = Leaf(span: Span, name: string)

  // ---- leaves ----

  ghost predicate ByStart(leaves: seq<Leaf>) {
    forall i, j :: 0 <= i < j < |leaves| ==> leaves[i].span.b <= leaves[j].span.b
  }

  /** No leaf starts before an earlier one ends. */
  ghost predicate Apart(leaves: seq<Leaf>) {
    forall i, j :: 0 <= i < j < |leaves| ==> leaves[i].span.e <= leaves[j].span.b
  }

  /** The sort key of scripts/leaves.py: by start, the longest first. */
  predicate ParentFirst(s: Leaf, t: Leaf) {
    s.span.b < t.span.b || (s.span.b == t.span.b && s.span.e >= t.span.e)
  }

  /** Slice `j` is nested in slice `i`: it starts before that ends, and behind its start, or with it when it is
      shorter, or as long and recorded later. */
  ghost predicate Nested(slices: seq<Leaf>, i: nat, j: nat)
    requires i < |slices| && j < |slices|
  {
    var s, t := slices[i].span, slices[j].span;
    t.b < s.e && (s.b < t.b || (s.b == t.b && (t.e < s.e || (t.e == s.e && i < j))))
  }

  ghost predicate IsLeaf(slices: seq<Leaf>, i: nat)
    requires i < |slices|
  {
    forall j :: 0 <= j < |slices| && j != i ==> !Nested(slices, i, j)
  }

  /** `leaves` are the slices at the places `at`, each once: those that no other slice is nested in. */
  ghost predicate LeavesAt(slices: seq<Leaf>, leaves: seq<Leaf>, at: seq<nat>) {
    && |at| == |leaves| && (forall k :: 0 <= k < |at| ==> at[k] < |slices| && leaves[k] == slices[at[k]])
    && (forall k, l :: 0 <= k < l < |at| ==> at[k] != at[l])
    && forall i :: 0 <= i < |slices| ==> (i in at <==> IsLeaf(slices, i))
  }

  /** A leaf properly contains no slice that takes time. */
  lemma LeavesContainNone(slices: seq<Leaf>, leaves: seq<Leaf>, at: seq<nat>, k: nat, j: nat)
    requires LeavesAt(slices, leaves, at) && k < |leaves| && j < |slices|
    requires slices[j].span.b < slices[j].span.e && slices[j].span != leaves[k].span
    ensures !(leaves[k].span.b <= slices[j].span.b && slices[j].span.e <= leaves[k].span.e)
  {
    assert at[k] in at;
    assert IsLeaf(slices, at[k]);
    assert j != at[k] ==> !Nested(slices, at[k], j);
  }

  /** Some slice sorted after `order[i]` starts inside it. */
  ghost predicate HasChild(order: seq<Leaf>, i: nat)
    requires i < |order|
  {
    exists j :: i < j < |order| && order[j].span.b < order[i].span.e
  }

  /** Looking at the next slice only is enough. */
  lemma NextDecides(order: seq<Leaf>, i: nat)
    requires Sorting.SortedBy(order, ParentFirst) && i < |order|
    ensures HasChild(order, i) <==> i + 1 < |order| && order[i + 1].span.b < order[i].span.e
  {
    if HasChild(order, i) {
      var j :| i < j < |order| && order[j].span.b < order[i].span.e;
      assert i + 1 < j ==> ParentFirst(order[i + 1], order[j]);
    }
  }

  /** And that slice is nested in it. */
  lemma ChildIsNested(slices: seq<Leaf>, order: seq<Leaf>, at: seq<nat>, i: nat)
    requires Sorting.StablySorted(slices, order, at, ParentFirst) && i < |order|
    ensures HasChild(order, i) <==> !IsLeaf(slices, at[i])
  {
    if HasChild(order, i) {
      var j :| i < j < |order| && order[j].span.b < order[i].span.e;
      assert ParentFirst(order[i], order[j]) && at[i] != at[j];
      assert Nested(slices, at[i], at[j]);
    }
    if !IsLeaf(slices, at[i]) {
      var n :| 0 <= n < |slices| && n != at[i] && Nested(slices, at[i], n);
      assert n in at;
      var j :| 0 <= j < |at| && at[j] == n;
      assert j < i ==> ParentFirst(order[j], order[i]);
    }
  }

  /** `picks` are the childless of the first `n` slices of the order, and `leaves` are those slices. */
  ghost predicate Kept(order: seq<Leaf>, n: nat, leaves: seq<Leaf>, picks: seq<nat>)
    requires n <= |order|
  {
    && |picks| == |leaves| && (forall k :: 0 <= k < |picks| ==> picks[k] < n && leaves[k] == order[picks[k]])
    && (forall k, l :: 0 <= k < l < |picks| ==> picks[k] < picks[l])
    && forall i :: 0 <= i < n ==> (i in picks <==> !HasChild(order, i))
  }

  lemma KeptStep(order: seq<Leaf>, n: nat, leaves: seq<Leaf>, picks: seq<nat>)
    requires n < |order| && Kept(order, n, leaves, picks)
    ensures HasChild(order, n) ==> Kept(order, n + 1, leaves, picks)
    ensures !HasChild(order, n) ==> Kept(order, n + 1, leaves + [order[n]], picks + [n])
  {
    assert forall i :: i in picks + [n] <==> i in picks || i == n;
  }

  lemma KeptApart(order: seq<Leaf>, leaves: seq<Leaf>, picks: seq<nat>)
    requires Sorting.SortedBy(order, ParentFirst) && Kept(order, |order|, leaves, picks)
    ensures Apart(leaves) && ByStart(leaves)
  {
    forall k, l | 0 <= k < l < |leaves|
      ensures leaves[k].span.e <= leaves[l].span.b && leaves[k].span.b <= leaves[l].span.b
    {
      assert picks[k] in picks;
      assert !HasChild(order, picks[k]);
      assert ParentFirst(order[picks[k]], order[picks[l]]);
    }
  }

  lemma KeptAreLeaves(slices: seq<Leaf>, order: seq<Leaf>, at: seq<nat>, leaves: seq<Leaf>, picks: seq<nat>)
    returns (places: seq<nat>)
    requires Sorting.StablySorted(slices, order, at, ParentFirst) && Kept(order, |order|, leaves, picks)
    ensures LeavesAt(slices, leaves, places)
  {
    places := seq(|picks|, k requires 0 <= k < |picks| => at[picks[k]]);
    forall i | 0 <= i < |slices|
      ensures i in places <==> IsLeaf(slices, i)
    {
      assert i in at;
      var j :| 0 <= j < |at| && at[j] == i;
      ChildIsNested(slices, order, at, j);
      if j in picks {
        var k :| 0 <= k < |picks| && picks[k] == j;
        assert places[k] == i;
      }
      if i in places {
        var k :| 0 <= k < |places| && places[k] == i;
        assert picks[k] in picks && at[picks[k]] == at[j];
      }
    }
  }

  /** The filter of scripts/leaves.py: what it keeps does not overlap, whatever the slices. */
  method KeepLeaves(slices: seq<Leaf>) returns (leaves: seq<Leaf>, ghost places: seq<nat>)
    ensures LeavesAt(slices, leaves, places) && Apart(leaves) && ByStart(leaves)
  {
    var order;
    ghost var at: seq<nat>, picks: seq<nat> := [], [];
    order, at := Sorting.StableSort(slices, ParentFirst);
    leaves := [];
    for i := 0 to |order|
      invariant Kept(order, i, leaves, picks)
    {
      NextDecides(order, i);
      KeptStep(order, i, leaves, picks);
      if i + 1 < |order| && order[i + 1].span.b < order[i].span.e {
        continue;
      }
      leaves, picks := leaves + [order[i]], picks + [i];
    }
    KeptApart(order, leaves, picks);
    places := KeptAreLeaves(slices, order, at, leaves, picks);
  }

  /** `lv[u].sort()`; leaves with the same span in any order. */
  predicate LeafLe(s: Leaf, t: Leaf) {
    SpanLe(s.span, t.span)
  }

  lemma SortKeepsApart(leaves: seq<Leaf>, sorted: seq<Leaf>, at: seq<nat>)
    requires Apart(leaves) && ByStart(leaves) && Sorting.StablySorted(leaves, sorted, at, LeafLe)
    ensures Apart(sorted) && ByStart(sorted)
  {
    forall i, j | 0 <= i < j < |sorted|
      ensures sorted[i].span.e <= sorted[j].span.b && sorted[i].span.b <= sorted[j].span.b
    {
      assert LeafLe(sorted[i], sorted[j]) && at[i] != at[j];
    }
  }

  lemma SortKeepsLeaves(slices: seq<Leaf>, kept: seq<Leaf>, keptAt: seq<nat>, leaves: seq<Leaf>, at: seq<nat>)
    returns (places: seq<nat>)
    requires LeavesAt(slices, kept, keptAt) && Sorting.StablySorted(kept, leaves, at, LeafLe)
    ensures LeavesAt(slices, leaves, places)
  {
    places := seq(|at|, k requires 0 <= k < |at| => keptAt[at[k]]);
    forall k, l | 0 <= k < l < |places|
      ensures places[k] != places[l]
    {
      assert at[k] != at[l];
    }
    forall i | 0 <= i < |slices|
      ensures i in places <==> i in keptAt
    {
      if i in keptAt {
        var j: nat :| j < |keptAt| && keptAt[j] == i;
        assert j in at;
        var k :| 0 <= k < |at| && at[k] == j;
        assert places[k] == i;
      }
    }
  }

  /** The leaves of one unit as scripts/final5.py uses them. */
  method LoadLeaves(slices: seq<Leaf>) returns (leaves: seq<Leaf>, ghost places: seq<nat>)
    ensures LeavesAt(slices, leaves, places) && Apart(leaves) && ByStart(leaves)
  {
    var kept;
    ghost var keptAt, at;
    kept, keptAt := KeepLeaves(slices);
    leaves, at := Sorting.StableSort(kept, LeafLe);
    SortKeepsApart(kept, leaves, at);
    places := SortKeepsLeaves(slices, kept, keptAt, leaves, at);
  }

  // ---- the leaves of a window ----

  /** `bisect_left(starts[u], x)`. */
  method BisectLeft(leaves: seq<Leaf>, x: int) returns (k: nat)
    requires ByStart(leaves)
    ensures k <= |leaves|
    ensures forall i :: 0 <= i < k ==> leaves[i].span.b < x
    ensures forall i :: k <= i < |leaves| ==> leaves[i].span.b >= x
  {
    var lo, hi := 0, |leaves|;
    while lo < hi
      invariant 0 <= lo <= hi <= |leaves|
      invariant forall i :: 0 <= i < lo ==> leaves[i].span.b < x
      invariant forall i :: hi <= i < |leaves| ==> leaves[i].span.b >= x
    {
      var mid := (lo + hi) / 2;
      if leaves[mid].span.b < x {
        lo := mid + 1;
      } else {
        hi := mid;
      }
    }
    k := lo;
  }

  /** Some leaf with a wanted name covers `x`. */
  ghost predicate LeafAt(leaves: seq<Leaf>, part: string, wanted: bool, x: int) {
    exists i :: 0 <= i < |leaves| && LeafCovers(leaves[i], part, wanted, x)
  }

  ghost predicate LeafCovers(leaf: Leaf, part: string, wanted: bool, x: int) {
    Occurs(part, leaf.name) == wanted && Covers(leaf.span, x)
  }

  function Later(x: int, y: int): int {
    if x > y then x else y
  }

  function Earlier(x: int, y: int): int {
    if x < y then x else y
  }

  /** `win(u, b, e)`, keeping the leaves whose name contains `part` (or does not): looking back one leaf
      from the window's start finds every leaf that reaches into it. */
  method Win(leaves: seq<Leaf>, b: int, e: int, part: string, wanted: bool) returns (out: seq<Span>)
    requires ByStart(leaves) && Apart(leaves) && b <= e
    ensures forall i :: 0 <= i < |out| ==> b <= out[i].b < out[i].e <= e
    ensures forall x :: In(out, x) <==> b <= x < e && LeafAt(leaves, part, wanted, x)
  {
    var i := BisectLeft(leaves, b);
    var j := BisectLeft(leaves, e);
    out := [];
    var from := if i == 0 then 0 else i - 1;
    var stop := if j < from then from else j;
    for k := from to stop
      invariant forall p :: 0 <= p < |out| ==> b <= out[p].b < out[p].e <= e
      invariant forall x :: In(out, x) <==> b <= x < e && LeafWithin(leaves, from, k, part, wanted, x)
    {
      ghost var before := out;
      var s := Span(Later(leaves[k].span.b, b), Earlier(leaves[k].span.e, e));
      if Occurs(part, leaves[k].name) == wanted && s.e > s.b {
        out := out + [s];
      }
      WinStep(leaves, b, e, part, wanted, from, k, before, out);
    }
    assert from > 0 ==> leaves[from].span.b < b;
    forall x | b <= x < e
      ensures LeafWithin(leaves, from, stop, part, wanted, x) <==> LeafAt(leaves, part, wanted, x)
    {
      if LeafAt(leaves, part, wanted, x) {
        var n :| 0 <= n < |leaves| && LeafCovers(leaves[n], part, wanted, x);
        assert from <= n < stop;
      }
    }
  }

  /** A leaf in `[from, to)` with a wanted name covers `x`. */
  ghost predicate LeafWithin(leaves: seq<Leaf>, from: nat, stop: nat, part: string, wanted: bool, x: int)
    requires stop <= |leaves|
  {
    exists n :: from <= n < stop && LeafCovers(leaves[n], part, wanted, x)
  }

  lemma WinStep(leaves: seq<Leaf>, b: int, e: int, part: string, wanted: bool, from: nat, k: nat,
                before: seq<Span>, out: seq<Span>)
    requires from <= k < |leaves|
    requires var s := Span(Later(leaves[k].span.b, b), Earlier(leaves[k].span.e, e));
             out == if Occurs(part, leaves[k].name) == wanted && s.e > s.b then before + [s] else before
    requires forall x :: In(before, x) <==> b <= x < e && LeafWithin(leaves, from, k, part, wanted, x)
    ensures forall x :: In(out, x) <==> b <= x < e && LeafWithin(leaves, from, k + 1, part, wanted, x)
  {
    var s := Span(Later(leaves[k].span.b, b), Earlier(leaves[k].span.e, e));
    forall x
      ensures In(out, x) <==> b <= x < e && LeafWithin(leaves, from, k + 1, part, wanted, x)
    {
      InSnoc(before, s, x);
      assert LeafWithin(leaves, from, k + 1, part, wanted, x) <==>
             LeafWithin(leaves, from, k, part, wanted, x) || LeafCovers(leaves[k], part, wanted, x);
    }
  }

  /** The overlaps of two lists. */
  method Overlaps(a: seq<Span>, c: seq<Span>) returns (out: seq<Span>)
    ensures Proper(out) && forall x :: In(out, x) <==> In(a, x) && In(c, x)
  {
    out := [];
    for i := 0 to |a|
      invariant Proper(out) && forall x :: In(out, x) <==> In(a[..i], x) && In(c, x)
    {
      ghost var before := out;
      var more := OverlapsOf(a[i], c);
      out := out + more;
      assert a[..i + 1] == a[..i] + [a[i]];
      forall x
        ensures In(out, x) <==> In(a[..i + 1], x) && In(c, x)
      {
        Intervals.InConcat(before, more, x);
        InSnoc(a[..i], a[i], x);
      }
    }
    assert a[..|a|] == a;
  }

  method OverlapsOf(s: Span, c: seq<Span>) returns (out: seq<Span>)
    ensures Proper(out) && forall x :: In(out, x) <==> Covers(s, x) && In(c, x)
  {
    out := [];
    for j := 0 to |c|
      invariant Proper(out) && forall x :: In(out, x) <==> Covers(s, x) && In(c[..j], x)
    {
      ghost var before := out;
      var o := Span(Later(s.b, c[j].b), Earlier(s.e, c[j].e));
      if o.e > o.b {
        out := out + [o];
      }
      assert c[..j + 1] == c[..j] + [c[j]];
      forall x
        ensures In(out, x) <==> Covers(s, x) && In(c[..j + 1], x)
      {
        InSnoc(before, o, x);
        InSnoc(c[..j], c[j], x);
      }
    }
    assert c[..|c|] == c;
  }

  /** The device spans of the four units in the window. */
  method DeviceSpans(units: seq<seq<Leaf>>, ws: int, we: int) returns (out: seq<Span>)
    requires ws <= we && forall u :: 0 <= u < |units| ==> ByStart(units[u]) && Apart(units[u])
    ensures forall i :: 0 <= i < |out| ==> ws <= out[i].b < out[i].e <= we
    ensures forall x :: In(out, x) <==> ws <= x < we && DeviceAt(units, x)
  {
    out := [];
    for u := 0 to |units|
      invariant forall i :: 0 <= i < |out| ==> ws <= out[i].b < out[i].e <= we
      invariant forall x :: In(out, x) <==> ws <= x < we && DeviceAt(units[..u], x)
    {
      ghost var before := out;
      var more := Win(units[u], ws, we, ".wait", false);
      out := out + more;
      assert units[..u + 1] == units[..u] + [units[u]];
      forall x
        ensures In(out, x) <==> ws <= x < we && DeviceAt(units[..u + 1], x)
      {
        Intervals.InConcat(before, more, x);
        DeviceSnoc(units[..u], units[u], x);
      }
    }
    assert units[..|units|] == units;
  }

  /** A device of some unit runs something other than a wait at `x`. */
  ghost predicate DeviceAt(units: seq<seq<Leaf>>, x: int) {
    exists u :: 0 <= u < |units| && LeafAt(units[u], ".wait", false, x)
  }

  lemma DeviceSnoc(units: seq<seq<Leaf>>, unit: seq<Leaf>, x: int)
    ensures DeviceAt(units + [unit], x) <==> DeviceAt(units, x) || LeafAt(unit, ".wait", false, x)
  {
    var all := units + [unit];
    if DeviceAt(units, x) {
      var u :| 0 <= u < |units| && LeafAt(units[u], ".wait", false, x);
      assert LeafAt(all[u], ".wait", false, x);
    }
    if LeafAt(unit, ".wait", false, x) {
      assert LeafAt(all[|units|], ".wait", false, x);
    }
    if DeviceAt(all, x) {
      var u :| 0 <= u < |all| && LeafAt(all[u], ".wait", false, x);
      assert u < |units| ==> LeafAt(units[u], ".wait", false, x);
    }
  }

  // ---- the split ----

  /** Ticks of the window at which a device runs. */
  ghost function Busy(units: seq<seq<Leaf>>, ws: int, we: int): set<int> {
    set x: int | ws <= x < we && DeviceAt(units, x)
  }

  /** Ticks at which no device runs and the host waits for the other box. */
  ghost function Waiting(units: seq<seq<Leaf>>, remote: seq<Leaf>, ws: int, we: int): set<int> {
    set x: int | ws <= x < we && !DeviceAt(units, x) && LeafAt(remote, "wait L", true, x)
  }

  /** `sub` and the overlaps split the first list's ticks. */
  lemma Partition(whole: seq<Span>, cut: seq<Span>, common: seq<Span>, rest: seq<Span>)
    requires Ordered(whole) && Ordered(common) && Ordered(rest)
    requires forall x :: In(rest, x) <==> In(whole, x) && !In(cut, x)
    requires forall x :: In(common, x) <==> In(whole, x) && In(cut, x)
    ensures Tot(whole) == Tot(common) + Tot(rest)
  {
    TotIsMeasure(whole);
    TotIsMeasure(common);
    TotIsMeasure(rest);
    forall x
      ensures x in Points(whole) <==> x in Points(common) || x in Points(rest)
      ensures !(x in Points(common) && x in Points(rest))
    {
      InPoints(whole, x);
      InPoints(common, x);
      InPoints(rest, x);
    }
    assert Points(whole) == Points(common) + Points(rest);
    DisjointSize(Points(common), Points(rest));
  }

  /** One call: device busy, device idle with the host blocked, and the rest.  The three add up to the
      wall time, and subtracting the waits from the idle time gives the third again. */
  method SplitCall(units: seq<seq<Leaf>>, remote: seq<Leaf>, ws: int, we: int)
    returns (busy: int, blocked: int, host: int, hostAgain: int)
    requires ws <= we && ByStart(remote) && Apart(remote)
    requires forall u :: 0 <= u < |units| ==> ByStart(units[u]) && Apart(units[u])
    ensures busy == |Busy(units, ws, we)| && blocked == |Waiting(units, remote, ws, we)|
    ensures busy + blocked + host == we - ws
    ensures hostAgain == host
  {
    var device := DeviceSpans(units, ws, we);
    var gpu := Merge(device);
    var wall := [Span(ws, we)];
    var idle := Sub(wall, gpu);
    var waits := Win(remote, ws, we, "wait L", true);
    var rem := Merge(waits);
    var overlaps := Overlaps(idle, rem);
    var block := Merge(overlaps);
    busy, blocked := Tot(gpu), Tot(block);
    host := Tot(idle) - blocked;
    var again := Sub(idle, rem);
    hostAgain := Tot(again);
    InWall(device, gpu, ws, we);
    Partition(wall, gpu, gpu, idle);
    Partition(idle, rem, block, again);
    assert Tot(wall) == we - ws by {
      assert wall[..0] == [];
    }
    Meaning(units, remote, ws, we, device, gpu, idle, waits, rem, block);
  }

  /** The same from the recorded slices: the measures are of what the leaves cover. */
  method SplitTrace(slices: seq<seq<Leaf>>, remoteSlices: seq<Leaf>, ws: int, we: int)
    returns (busy: int, blocked: int, host: int, hostAgain: int, ghost units: seq<seq<Leaf>>, ghost remote: seq<Leaf>,
             ghost places: seq<seq<nat>>, ghost remotePlaces: seq<nat>)
    requires ws <= we
    ensures |units| == |slices| == |places|
    ensures forall u :: 0 <= u < |units| ==> LeavesAt(slices[u], units[u], places[u])
    ensures LeavesAt(remoteSlices, remote, remotePlaces)
    ensures busy == |Busy(units, ws, we)| && blocked == |Waiting(units, remote, ws, we)|
    ensures busy + blocked + host == we - ws && hostAgain == host
  {
    var lv: seq<seq<Leaf>> := [];
    places := [];
    for u := 0 to |slices|
      invariant |lv| == u == |places|
      invariant forall v :: 0 <= v < u ==> LeavesAt(slices[v], lv[v], places[v]) && ByStart(lv[v]) && Apart(lv[v])
    {
      var leaves;
      ghost var at;
      leaves, at := LoadLeaves(slices[u]);
      lv, places := lv + [leaves], places + [at];
    }
    var rest;
    rest, remotePlaces := LoadLeaves(remoteSlices);
    busy, blocked, host, hostAgain := SplitCall(lv, rest, ws, we);
    units, remote := lv, rest;
  }

  lemma InWall(device: seq<Span>, gpu: seq<Span>, ws: int, we: int)
    requires forall i :: 0 <= i < |device| ==> ws <= device[i].b < device[i].e <= we
    requires forall x :: In(gpu, x) <==> In(device, x)
    ensures forall x :: In(gpu, x) <==> In([Span(ws, we)], x) && In(gpu, x)
  {
    assert [Span(ws, we)][0] == Span(ws, we);
    forall x | In(gpu, x)
      ensures In([Span(ws, we)], x)
    {
      var i :| 0 <= i < |device| && Covers(device[i], x);
      assert Covers([Span(ws, we)][0], x);
    }
  }

  lemma Meaning(units: seq<seq<Leaf>>, remote: seq<Leaf>, ws: int, we: int, device: seq<Span>, gpu: seq<Span>,
                idle: seq<Span>, waits: seq<Span>, rem: seq<Span>, block: seq<Span>)
    requires Ordered(gpu) && Ordered(block)
    requires forall x :: In(device, x) <==> ws <= x < we && DeviceAt(units, x)
    requires forall x :: In(waits, x) <==> ws <= x < we && LeafAt(remote, "wait L", true, x)
    requires forall x :: In(gpu, x) <==> In(device, x)
    requires forall x :: In(idle, x) <==> In([Span(ws, we)], x) && !In(gpu, x)
    requires forall x :: In(rem, x) <==> In(waits, x)
    requires forall x :: In(block, x) <==> In(idle, x) && In(rem, x)
    ensures Tot(gpu) == |Busy(units, ws, we)| && Tot(block) == |Waiting(units, remote, ws, we)|
  {
    TotIsMeasure(gpu);
    TotIsMeasure(block);
    var wall := [Span(ws, we)];
    forall x
      ensures x in Points(gpu) <==> x in Busy(units, ws, we)
      ensures x in Points(block) <==> x in Waiting(units, remote, ws, we)
    {
      InPoints(gpu, x);
      InPoints(block, x);
      assert In(wall, x) <==> ws <= x < we by {
        InSnoc([], Span(ws, we), x);
        assert [] + wall == wall;
      }
    }
    assert Points(gpu) == Busy(units, ws, we) && Points(block) == Waiting(units, remote, ws, we);
  }
}
