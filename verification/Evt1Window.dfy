/** What a window of an EVT1 trace holds, record by record: which records the reader delivers, which strings
    it knows at its end, and when it fails (scripts/evt2perfetto.py, `records`). */
module Evt1Window {
  import opened Prelude
  import opened ByteEncoding
  import opened Evt1

  // ---- the bytes of a file ----

  /** Record `r` stands at byte `o`: kind and number of values in two bytes each, low byte first, and the values. */
  ghost predicate StandsAt(data: seq<Byte>, o: nat, r: Record) {
    && o + 4 + 8 * r.n <= |data|
    && r.kid == data[o] as nat + 256 * data[o + 1] as nat
    && r.n == data[o + 2] as nat + 256 * data[o + 3] as nat
    && r.payload == data[o + 4..o + 4 + 8 * r.n]
  }

  /** Too few bytes are left at `o` for a record. */
  ghost predicate CutShort(data: seq<Byte>, o: nat) {
    |data| < o + 4 || |data| < o + 4 + 8 * (data[o + 2] as nat + 256 * data[o + 3] as nat)
  }

  /** Record `i` stands at `o[i]`, each behind the one before, until the bytes are cut short. */
  ghost predicate LaidOut(data: seq<Byte>, recs: seq<Record>, o: seq<nat>) {
    && |o| == |recs| + 1 && o[0] == 0
    && (forall i :: 0 <= i < |recs| ==> StandsAt(data, o[i], recs[i]) && o[i + 1] == o[i] + 4 + 8 * recs[i].n)
    && o[|recs|] <= |data| && CutShort(data, o[|recs|])
  }

  lemma StandsFirst(data: seq<Byte>)
    requires Complete(data)
    ensures StandsAt(data, 0, Head(data)) && Size(data) == 4 + 8 * Head(data).n
  {
  }

  /** What stands in the rest stands behind the first `n` bytes. */
  lemma StandsBehind(data: seq<Byte>, n: nat, o: nat, r: Record)
    requires n <= |data| && StandsAt(data[n..], o, r)
    ensures StandsAt(data, o + n, r)
  {
    assert data[n..][o + 4..o + 4 + 8 * r.n] == data[o + n + 4..o + n + 4 + 8 * r.n];
  }

  lemma ShortBehind(data: seq<Byte>, n: nat, o: nat)
    requires n <= |data| && CutShort(data[n..], o)
    ensures CutShort(data, o + n)
  {
  }

  ghost function Behind(o: seq<nat>, n: nat): (o': seq<nat>)
    ensures |o'| == |o| && forall i :: 0 <= i < |o| ==> o'[i] == o[i] + n
  {
    seq(|o|, i requires 0 <= i < |o| => o[i] + n)
  }

  lemma LaidBehind(data: seq<Byte>, recs: seq<Record>, o: seq<nat>, n: nat)
    requires Complete(data) && n == Size(data) && LaidOut(data[n..], recs, o)
    ensures LaidOut(data, [Head(data)] + recs, [0] + Behind(o, n))
  {
    var o', all := [0] + Behind(o, n), [Head(data)] + recs;
    StandsFirst(data);
    ShortBehind(data, n, o[|recs|]);
    forall i | 0 <= i < |all|
      ensures StandsAt(data, o'[i], all[i]) && o'[i + 1] == o'[i] + 4 + 8 * all[i].n
    {
      if i > 0 {
        StandsBehind(data, n, o[i - 1], recs[i - 1]);
      }
    }
  }

  /** What the reader finds in a file. */
  lemma {:induction false} ParseIs(data: seq<Byte>) returns (o: seq<nat>)
    ensures LaidOut(data, Parse(data), o)
    decreases |data|
  {
    if Complete(data) {
      var rest := ParseIs(data[Size(data)..]);
      LaidBehind(data, Parse(data[Size(data)..]), rest, Size(data));
      o := [0] + Behind(rest, Size(data));
    } else {
      o := [0];
    }
  }

  // ---- times ----

  /** Field `i` of a record is a time, and measured. */
  ghost predicate Measured(kinds: Kinds, float: Float, r: Record, i: nat)
    requires Encodable(r) && r.kid in kinds
  {
    var fields := kinds[r.kid].fields;
    && i < |fields| && i < r.n && |fields[i]| >= 1 && fields[i][0] == 't'
    && (fields[i] == "t" || fields[i] == "t\n" || (|fields[i]| >= 2 && fields[i][1] in "_0123456789"))
    && float(r.payload[8 * i..8 * i + 8]) != NaN
  }

  /** The time of a record is its first measured time field, and NaN when it has none. */
  ghost predicate TimeIs(kinds: Kinds, float: Float, r: Record, t: Value)
    requires Encodable(r)
  {
    if t.NaN? then r.kid in kinds ==> forall i :: 0 <= i < r.n ==> !Measured(kinds, float, r, i)
    else r.kid in kinds && exists i :: FirstMeasured(kinds, float, r, i, t)
  }

  ghost predicate FirstMeasured(kinds: Kinds, float: Float, r: Record, i: nat, t: Value)
    requires Encodable(r) && r.kid in kinds
  {
    && i < r.n && Measured(kinds, float, r, i) && t == float(r.payload[8 * i..8 * i + 8])
    && forall j :: 0 <= j < i ==> !Measured(kinds, float, r, j)
  }

  lemma {:induction false} FirstTimeIs(kinds: Kinds, float: Float, r: Record, i: nat)
    requires Encodable(r) && r.kid in kinds && forall j :: 0 <= j < i ==> !Measured(kinds, float, r, j)
    ensures TimeIs(kinds, float, r, FirstTime(kinds[r.kid].fields, Vals(float, r), i))
    decreases |kinds[r.kid].fields| - i
  {
    var fields, vals := kinds[r.kid].fields, Vals(float, r);
    if i < |fields| {
      if TimeField(fields[i]) && i < |vals| && !vals[i].NaN? {
        assert FirstMeasured(kinds, float, r, i, vals[i]);
      } else {
        assert !Measured(kinds, float, r, i);
        FirstTimeIs(kinds, float, r, i + 1);
      }
    }
  }

  /** And there is one such time. */
  lemma TimeIsTime(kinds: Kinds, float: Float, r: Record, t: Value)
    requires Encodable(r)
    ensures TimeIs(kinds, float, r, t) <==> t == Time(kinds, float, r)
  {
    if r.kid in kinds {
      FirstTimeIs(kinds, float, r, 0);
    }
    if TimeIs(kinds, float, r, t) {
      OneTime(kinds, float, r, t, Time(kinds, float, r));
    }
  }

  lemma OneTime(kinds: Kinds, float: Float, r: Record, t: Value, u: Value)
    requires Encodable(r) && TimeIs(kinds, float, r, t) && TimeIs(kinds, float, r, u)
    ensures t == u
  {
    if !t.NaN? && !u.NaN? {
      var i :| FirstMeasured(kinds, float, r, i, t);
      var k :| FirstMeasured(kinds, float, r, k, u);
      assert i == k;
    }
  }

  // ---- windows, stops and strings ----

  /** The order of floats: no order with NaN. */
  ghost predicate AtMost(a: Value, b: Value) {
    a != NaN && b != NaN && (a == NegInf || b == PosInf || (a.Num? && b.Num? && a.x <= b.x))
  }

  /** `lo <= t <= hi`. */
  ghost predicate Inside(kinds: Kinds, float: Float, w: Window, r: Record)
    requires Encodable(r)
  {
    exists t :: TimeIs(kinds, float, r, t) && AtMost(w.lo, t) && AtMost(t, w.hi)
  }

  /** `t > stop`. */
  ghost predicate Past(kinds: Kinds, float: Float, w: Window, r: Record)
    requires Encodable(r)
  {
    exists t :: TimeIs(kinds, float, r, t) && t != NaN && w.stop != NaN && !AtMost(t, w.stop)
  }

  /** Value `i` is a slot of text: an integer of 48 bits once truncated. */
  ghost predicate IsSlot(vals: seq<Value>, i: nat)
    requires i < |vals|
  {
    vals[i].Num? && -1.0 < vals[i].x < 281474976710656.0
  }

  /** A `str` record that does not decode: no id, no length, or a slot that is none. */
  ghost predicate Broken(kinds: Kinds, float: Float, w: Window, r: Record)
    requires Encodable(r)
  {
    var vals := Vals(float, r);
    && w.decode && r.kid in kinds && kinds[r.kid].name == "str"
    && (|vals| < 2 || !vals[0].Num? || !vals[1].Num? || exists i :: 2 <= i < |vals| && !IsSlot(vals, i))
  }

  lemma {:induction false} SlotBytesIff(vals: seq<Value>, i: nat)
    requires i <= |vals|
    ensures SlotBytes(vals, i).Some? <==> forall j :: i <= j < |vals| ==> IsSlot(vals, j)
    decreases |vals| - i
  {
    if i < |vals| {
      SlotBytesIff(vals, i + 1);
      IntIsSlot(vals, i);
    }
  }

  lemma IntIsSlot(vals: seq<Value>, i: nat)
    requires i < |vals|
    ensures IsSlot(vals, i) <==> Int(vals[i]).Some? && 0 <= Int(vals[i]).value < SLOT
  {
    if vals[i].Num? && vals[i].x < 0.0 {
      assert (-vals[i].x).Floor >= 1 <==> -vals[i].x >= 1.0;
    }
  }

  lemma BrokenIff(kinds: Kinds, float: Float, w: Window, r: Record)
    requires Encodable(r)
    ensures Broken(kinds, float, w, r) <==> Decodes(kinds, w, r) && DecodeStr(Vals(float, r)).None?
  {
    if r.n >= 2 {
      SlotBytesIff(Vals(float, r), 2);
    }
  }

  /** Nothing among the first `i` records keeps the reader from the next. */
  ghost predicate Reaches(kinds: Kinds, float: Float, w: Window, recs: seq<Record>, i: nat)
    requires AllEncodable(recs) && i <= |recs|
  {
    forall j :: 0 <= j < i ==> !Broken(kinds, float, w, recs[j]) && !Past(kinds, float, w, recs[j])
  }

  ghost predicate Increasing(at: seq<nat>) {
    forall j, k :: 0 <= j < k < |at| ==> at[j] < at[k]
  }

  /** `out` are the records at the indices `at`, in file order. */
  ghost predicate PickedAt(recs: seq<Record>, out: seq<Record>, at: seq<nat>) {
    Increasing(at) && |at| == |out| && forall j :: 0 <= j < |at| ==> at[j] < |recs| && out[j] == recs[at[j]]
  }

  /** Record `i` is delivered exactly when it is in the window and the reader comes past it. */
  ghost predicate InWindow(kinds: Kinds, float: Float, w: Window, recs: seq<Record>, out: seq<Record>, at: seq<nat>)
    requires AllEncodable(recs)
  {
    && PickedAt(recs, out, at)
    && forall i :: 0 <= i < |recs| ==>
         (i in at <==> Inside(kinds, float, w, recs[i]) && Reaches(kinds, float, w, recs, i + 1))
  }

  /** The reader comes to record `i`, a `str` record that defines text `id`. */
  ghost predicate DefinesAt(kinds: Kinds, float: Float, w: Window, recs: seq<Record>, i: nat, id: int)
    requires AllEncodable(recs)
  {
    && i < |recs| && Reaches(kinds, float, w, recs, i) && w.decode && recs[i].kid in kinds
    && kinds[recs[i].kid].name == "str"
    && DecodeStr(Vals(float, recs[i])).Some? && DecodeStr(Vals(float, recs[i])).value.id == id
  }

  ghost predicate LastDefines(kinds: Kinds, float: Float, w: Window, recs: seq<Record>, i: nat, id: int)
    requires AllEncodable(recs)
  {
    DefinesAt(kinds, float, w, recs, i, id) && forall j: nat :: j > i ==> !DefinesAt(kinds, float, w, recs, j, id)
  }

  ghost predicate NoneDefines(kinds: Kinds, float: Float, w: Window, recs: seq<Record>, id: int)
    requires AllEncodable(recs)
  {
    forall i: nat :: !DefinesAt(kinds, float, w, recs, i, id)
  }

  ghost predicate SameText(strings: map<int, seq<Byte>>, strings': map<int, seq<Byte>>, id: int) {
    (id in strings' <==> id in strings) && (id in strings ==> strings'[id] == strings[id])
  }

  /** Text `id` is that of the last record read that defines it, or stays what it was. */
  ghost predicate TextIsLast(kinds: Kinds, float: Float, w: Window, recs: seq<Record>, strings: map<int, seq<Byte>>,
                             strings': map<int, seq<Byte>>, id: int)
    requires AllEncodable(recs)
  {
    && (forall i: nat :: LastDefines(kinds, float, w, recs, i, id) ==>
          id in strings' && strings'[id] == DecodeStr(Vals(float, recs[i])).value.bytes)
    && (NoneDefines(kinds, float, w, recs, id) ==> SameText(strings, strings', id))
  }

  ghost predicate TableIs(kinds: Kinds, float: Float, w: Window, recs: seq<Record>, strings: map<int, seq<Byte>>,
                          strings': map<int, seq<Byte>>)
    requires AllEncodable(recs)
  {
    forall id :: TextIsLast(kinds, float, w, recs, strings, strings', id)
  }

  /** The reader fails exactly when it comes to a broken record. */
  ghost predicate FailsAt(kinds: Kinds, float: Float, w: Window, recs: seq<Record>)
    requires AllEncodable(recs)
  {
    exists i: nat :: BreaksAt(kinds, float, w, recs, i)
  }

  ghost predicate Delivers(kinds: Kinds, float: Float, w: Window, recs: seq<Record>, strings: map<int, seq<Byte>>,
                           reading: Reading, at: seq<nat>)
    requires AllEncodable(recs)
  {
    && InWindow(kinds, float, w, recs, reading.out, at)
    && TableIs(kinds, float, w, recs, strings, reading.strings)
    && (reading.ok <==> !FailsAt(kinds, float, w, recs))
  }

  // ---- from a record to the ones behind it ----

  lemma TestsAre(kinds: Kinds, float: Float, w: Window, r: Record)
    requires Encodable(r)
    ensures var t := Time(kinds, float, r);
            && (Inside(kinds, float, w, r) <==> Le(w.lo, t) && Le(t, w.hi))
            && (Past(kinds, float, w, r) <==> Gt(t, w.stop))
  {
    var t := Time(kinds, float, r);
    TimeIsTime(kinds, float, r, t);
    if Inside(kinds, float, w, r) {
      var u :| TimeIs(kinds, float, r, u) && AtMost(w.lo, u) && AtMost(u, w.hi);
      TimeIsTime(kinds, float, r, u);
    }
    if Past(kinds, float, w, r) {
      var u :| TimeIs(kinds, float, r, u) && u != NaN && w.stop != NaN && !AtMost(u, w.stop);
      TimeIsTime(kinds, float, r, u);
    }
  }

  lemma ReachesRest(kinds: Kinds, float: Float, w: Window, recs: seq<Record>, i: nat)
    requires AllEncodable(recs) && 0 < i <= |recs|
    ensures Reaches(kinds, float, w, recs, i) <==>
            !Broken(kinds, float, w, recs[0]) && !Past(kinds, float, w, recs[0]) &&
            Reaches(kinds, float, w, recs[1..], i - 1)
  {
    var rest := recs[1..];
    assert forall j :: 0 <= j < |rest| ==> rest[j] == recs[j + 1];
    if Reaches(kinds, float, w, rest, i - 1) && !Broken(kinds, float, w, recs[0]) && !Past(kinds, float, w, recs[0]) {
      forall j | 0 <= j < i
        ensures !Broken(kinds, float, w, recs[j]) && !Past(kinds, float, w, recs[j])
      {
        assert j > 0 ==> recs[j] == rest[j - 1];
      }
    }
  }

  ghost function Shift(at: seq<nat>): (s: seq<nat>)
    ensures |s| == |at| && forall j :: 0 <= j < |at| ==> s[j] == at[j] + 1
  {
    var s := seq(|at|, j requires 0 <= j < |at| => at[j] + 1);
    assert forall j :: 0 <= j < |at| ==> s[j] - 1 == at[j];
    s
  }

  lemma InShift(at: seq<nat>, i: nat)
    ensures i in Shift(at) <==> i > 0 && i - 1 in at
  {
    if i > 0 && i - 1 in at {
      var j :| 0 <= j < |at| && at[j] == i - 1;
      assert Shift(at)[j] == i;
    }
  }

  /** Record `i` of the rest is record `i + 1`. */
  lemma InRest(kinds: Kinds, float: Float, w: Window, recs: seq<Record>, out: seq<Record>, at: seq<nat>, i: nat)
    requires AllEncodable(recs) && recs != [] && !Broken(kinds, float, w, recs[0]) && !Past(kinds, float, w, recs[0])
    requires InWindow(kinds, float, w, recs[1..], out, at) && 0 < i < |recs|
    ensures i in Shift(at) <==> Inside(kinds, float, w, recs[i]) && Reaches(kinds, float, w, recs, i + 1)
  {
    InShift(at, i);
    ReachesRest(kinds, float, w, recs, i + 1);
    assert recs[i] == recs[1..][i - 1];
  }

  lemma FirstReaches(kinds: Kinds, float: Float, w: Window, recs: seq<Record>, at: seq<nat>)
    requires AllEncodable(recs) && recs != [] && !Broken(kinds, float, w, recs[0]) && !Past(kinds, float, w, recs[0])
    ensures Reaches(kinds, float, w, recs, 1) && 0 !in Shift(at)
  {
    InShift(at, 0);
  }

  lemma ShiftPicks(recs: seq<Record>, out: seq<Record>, at: seq<nat>)
    requires recs != [] && PickedAt(recs[1..], out, at)
    ensures PickedAt(recs, out, Shift(at)) && PickedAt(recs, [recs[0]] + out, [0] + Shift(at))
  {
    assert forall j :: 0 <= j < |at| ==> recs[1..][at[j]] == recs[at[j] + 1];
  }

  lemma ShiftIn(kinds: Kinds, float: Float, w: Window, recs: seq<Record>, out: seq<Record>, at: seq<nat>)
    requires AllEncodable(recs) && recs != [] && !Broken(kinds, float, w, recs[0]) && !Past(kinds, float, w, recs[0])
    requires InWindow(kinds, float, w, recs[1..], out, at)
    ensures Inside(kinds, float, w, recs[0]) ==> InWindow(kinds, float, w, recs, [recs[0]] + out, [0] + Shift(at))
    ensures !Inside(kinds, float, w, recs[0]) ==> InWindow(kinds, float, w, recs, out, Shift(at))
  {
    ShiftPicks(recs, out, at);
    FirstReaches(kinds, float, w, recs, at);
    forall i | 0 < i < |recs|
      ensures i in Shift(at) <==> Inside(kinds, float, w, recs[i]) && Reaches(kinds, float, w, recs, i + 1)
    {
      InRest(kinds, float, w, recs, out, at, i);
    }
  }

  lemma NoneIn(kinds: Kinds, float: Float, w: Window, recs: seq<Record>)
    requires AllEncodable(recs)
    requires recs != [] ==> Broken(kinds, float, w, recs[0]) || Past(kinds, float, w, recs[0])
    ensures InWindow(kinds, float, w, recs, [], [])
  {
    forall i | 0 < i <= |recs|
      ensures !Reaches(kinds, float, w, recs, i)
    {
      ReachesRest(kinds, float, w, recs, i);
    }
  }

  /** What the first record defines, and what the rest does. */
  lemma DefinesRest(kinds: Kinds, float: Float, w: Window, recs: seq<Record>, i: nat, id: int)
    requires AllEncodable(recs) && recs != []
    ensures i > 0 ==> (DefinesAt(kinds, float, w, recs, i, id) <==>
                       !Broken(kinds, float, w, recs[0]) && !Past(kinds, float, w, recs[0]) &&
                       DefinesAt(kinds, float, w, recs[1..], i - 1, id))
    ensures i == 0 ==> (DefinesAt(kinds, float, w, recs, i, id) <==>
                        Decodes(kinds, w, recs[0]) && DecodeStr(Vals(float, recs[0])).Some? &&
                        DecodeStr(Vals(float, recs[0])).value.id == id)
  {
    if 0 < i < |recs| {
      ReachesRest(kinds, float, w, recs, i);
      assert recs[1..][i - 1] == recs[i];
    }
  }

  function Defined(kinds: Kinds, float: Float, w: Window, r: Record, strings: map<int, seq<Byte>>): map<int, seq<Byte>>
    requires Encodable(r)
  {
    var text := DecodeStr(Vals(float, r));
    if Decodes(kinds, w, r) && text.Some? then Define(strings, text.value) else strings
  }

  lemma TextOfOne(kinds: Kinds, float: Float, w: Window, recs: seq<Record>, strings: map<int, seq<Byte>>, id: int)
    requires AllEncodable(recs)
    requires recs != [] ==> Broken(kinds, float, w, recs[0]) || Past(kinds, float, w, recs[0])
    ensures TextIsLast(kinds, float, w, recs, strings,
                       if recs == [] then strings else Defined(kinds, float, w, recs[0], strings), id)
  {
    if recs != [] {
      DefinesRest(kinds, float, w, recs, 0, id);
      forall i: nat
        ensures i > 0 ==> !DefinesAt(kinds, float, w, recs, i, id)
      {
        DefinesRest(kinds, float, w, recs, i, id);
      }
    }
  }

  lemma NoneDefinesRest(kinds: Kinds, float: Float, w: Window, recs: seq<Record>, id: int)
    requires AllEncodable(recs) && recs != [] && !Broken(kinds, float, w, recs[0]) && !Past(kinds, float, w, recs[0])
    requires forall i: nat :: i > 0 ==> !DefinesAt(kinds, float, w, recs, i, id)
    ensures NoneDefines(kinds, float, w, recs[1..], id)
  {
    forall i: nat
      ensures !DefinesAt(kinds, float, w, recs[1..], i, id)
    {
      DefinesRest(kinds, float, w, recs, i + 1, id);
    }
  }

  lemma LastDefinesRest(kinds: Kinds, float: Float, w: Window, recs: seq<Record>, i: nat, id: int)
    requires AllEncodable(recs) && recs != [] && !Broken(kinds, float, w, recs[0]) && !Past(kinds, float, w, recs[0])
    requires LastDefines(kinds, float, w, recs, i, id) && i > 0
    ensures LastDefines(kinds, float, w, recs[1..], i - 1, id)
  {
    DefinesRest(kinds, float, w, recs, i, id);
    forall j: nat | j > i - 1
      ensures !DefinesAt(kinds, float, w, recs[1..], j, id)
    {
      DefinesRest(kinds, float, w, recs, j + 1, id);
    }
  }

  lemma TextGrows(kinds: Kinds, float: Float, w: Window, recs: seq<Record>, strings: map<int, seq<Byte>>,
                  strings': map<int, seq<Byte>>, id: int)
    requires AllEncodable(recs) && recs != [] && !Broken(kinds, float, w, recs[0]) && !Past(kinds, float, w, recs[0])
    requires TextIsLast(kinds, float, w, recs[1..], Defined(kinds, float, w, recs[0], strings), strings', id)
    ensures TextIsLast(kinds, float, w, recs, strings, strings', id)
  {
    DefinesRest(kinds, float, w, recs, 0, id);
    if NoneDefines(kinds, float, w, recs, id) {
      NoneDefinesRest(kinds, float, w, recs, id);
    }
    forall i: nat | LastDefines(kinds, float, w, recs, i, id)
      ensures id in strings' && strings'[id] == DecodeStr(Vals(float, recs[i])).value.bytes
    {
      if i == 0 {
        NoneDefinesRest(kinds, float, w, recs, id);
      } else {
        LastDefinesRest(kinds, float, w, recs, i, id);
      }
    }
  }

  ghost predicate BreaksAt(kinds: Kinds, float: Float, w: Window, recs: seq<Record>, i: nat)
    requires AllEncodable(recs)
  {
    i < |recs| && Reaches(kinds, float, w, recs, i) && Broken(kinds, float, w, recs[i])
  }

  lemma FailsRest(kinds: Kinds, float: Float, w: Window, recs: seq<Record>)
    requires AllEncodable(recs) && recs != []
    ensures FailsAt(kinds, float, w, recs) <==>
            (Broken(kinds, float, w, recs[0]) ||
             (!Past(kinds, float, w, recs[0]) && FailsAt(kinds, float, w, recs[1..])))
  {
    var rest := recs[1..];
    if Broken(kinds, float, w, recs[0]) {
      assert BreaksAt(kinds, float, w, recs, 0);
    } else {
      if FailsAt(kinds, float, w, recs) {
        var i: nat :| BreaksAt(kinds, float, w, recs, i);
        ReachesRest(kinds, float, w, recs, i);
        assert BreaksAt(kinds, float, w, rest, i - 1);
      }
      if !Past(kinds, float, w, recs[0]) && FailsAt(kinds, float, w, rest) {
        var i: nat :| BreaksAt(kinds, float, w, rest, i);
        ReachesRest(kinds, float, w, recs, i + 1);
        assert BreaksAt(kinds, float, w, recs, i + 1);
      }
    }
  }

  // ---- the rules of the reader ----

  lemma WalkStep(kinds: Kinds, float: Float, w: Window, recs: seq<Record>, strings: map<int, seq<Byte>>)
    requires AllEncodable(recs) && recs != []
    ensures var r, strings1 := recs[0], Defined(kinds, float, w, recs[0], strings);
            var rest := Walk(kinds, float, w, recs[1..], strings1);
            Walk(kinds, float, w, recs, strings) ==
            if Broken(kinds, float, w, r) then Reading([], strings1, false)
            else if Past(kinds, float, w, r) then Reading([], strings1, true)
            else if Inside(kinds, float, w, r) then rest.(out := [r] + rest.out) else rest
  {
    TestsAre(kinds, float, w, recs[0]);
    BrokenIff(kinds, float, w, recs[0]);
  }

  /** The reader ends at the first record. */
  lemma EndsDelivers(kinds: Kinds, float: Float, w: Window, recs: seq<Record>, strings: map<int, seq<Byte>>)
    requires AllEncodable(recs)
    requires recs != [] ==> Broken(kinds, float, w, recs[0]) || Past(kinds, float, w, recs[0])
    ensures var strings1 := if recs == [] then strings else Defined(kinds, float, w, recs[0], strings);
            Delivers(kinds, float, w, recs, strings,
                     Reading([], strings1, recs == [] || !Broken(kinds, float, w, recs[0])), [])
  {
    NoneIn(kinds, float, w, recs);
    if recs != [] {
      FailsRest(kinds, float, w, recs);
    }
    var strings1 := if recs == [] then strings else Defined(kinds, float, w, recs[0], strings);
    forall id
      ensures TextIsLast(kinds, float, w, recs, strings, strings1, id)
    {
      TextOfOne(kinds, float, w, recs, strings, id);
    }
  }

  /** It goes on behind the first record. */
  lemma GoesOn(kinds: Kinds, float: Float, w: Window, recs: seq<Record>, strings: map<int, seq<Byte>>, rest: Reading,
               at: seq<nat>)
    requires AllEncodable(recs) && recs != [] && !Broken(kinds, float, w, recs[0]) && !Past(kinds, float, w, recs[0])
    requires Delivers(kinds, float, w, recs[1..], Defined(kinds, float, w, recs[0], strings), rest, at)
    ensures if Inside(kinds, float, w, recs[0])
            then Delivers(kinds, float, w, recs, strings, rest.(out := [recs[0]] + rest.out), [0] + Shift(at))
            else Delivers(kinds, float, w, recs, strings, rest, Shift(at))
  {
    ShiftIn(kinds, float, w, recs, rest.out, at);
    FailsRest(kinds, float, w, recs);
    forall id
      ensures TextIsLast(kinds, float, w, recs, strings, rest.strings, id)
    {
      TextGrows(kinds, float, w, recs, strings, rest.strings, id);
    }
  }

  /** The rules of `records` deliver exactly the records of the window. */
  lemma {:induction false} WalkDelivers(kinds: Kinds, float: Float, w: Window, recs: seq<Record>,
                                        strings: map<int, seq<Byte>>)
    returns (at: seq<nat>)
    requires AllEncodable(recs)
    ensures Delivers(kinds, float, w, recs, strings, Walk(kinds, float, w, recs, strings), at)
  {
    if recs == [] {
      at := [];
      EndsDelivers(kinds, float, w, recs, strings);
    } else {
      WalkStep(kinds, float, w, recs, strings);
      if Broken(kinds, float, w, recs[0]) || Past(kinds, float, w, recs[0]) {
        at := [];
        EndsDelivers(kinds, float, w, recs, strings);
      } else {
        var strings1 := Defined(kinds, float, w, recs[0], strings);
        var ats := WalkDelivers(kinds, float, w, recs[1..], strings1);
        GoesOn(kinds, float, w, recs, strings, Walk(kinds, float, w, recs[1..], strings1), ats);
        at := if Inside(kinds, float, w, recs[0]) then [0] + Shift(ats) else Shift(ats);
      }
    }
  }
}
