/** Whole EVT1 files: reading one at once, cutting a window out of one, and the string records
    (scripts/evt2perfetto.py, scripts/evtrace.py, crates/v4flash-kernels/src/het/evtrace.rs). */
module Evt1Files {
  import opened Prelude
  import opened ByteEncoding
  import opened Evt1
  import opened Evt1Reader
  import opened Evt1Window

  // ---- reading a file at once ----

  /** The rules of `read_file`, record by record: every record but the `str` ones is kept. */
  function ReadAll(kinds: Kinds, float: Float, recs: seq<Record>, strings: map<int, seq<Byte>>): Reading
    requires AllEncodable(recs)
  {
    if recs == [] then Reading([], strings, true)
    else if IsStr(kinds, recs[0]) then
      var text := DecodeStr(Vals(float, recs[0]));
      if text.None? then Reading([], strings, false)
      else ReadAll(kinds, float, recs[1..], Define(strings, text.value))
    else Prepend([recs[0]], ReadAll(kinds, float, recs[1..], strings))
  }

  function ReadBytes(kinds: Kinds, float: Float, data: seq<Byte>, strings: map<int, seq<Byte>>): Reading {
    ParseEncodable(data);
    ReadAll(kinds, float, Parse(data), strings)
  }

  lemma ReadStep(kinds: Kinds, float: Float, data: seq<Byte>, strings: map<int, seq<Byte>>)
    requires Complete(data)
    ensures var r, rest, text := Head(data), data[Size(data)..], DecodeStr(Vals(float, Head(data)));
            ReadBytes(kinds, float, data, strings) ==
            if !IsStr(kinds, r) then Prepend([r], ReadBytes(kinds, float, rest, strings))
            else if text.None? then Reading([], strings, false)
            else ReadBytes(kinds, float, rest, Define(strings, text.value))
  {
    ParseEncodable(data);
    ParseEncodable(data[Size(data)..]);
    assert Parse(data)[1..] == Parse(data[Size(data)..]);
  }

  /** `read_file` keeps record `i` exactly when it is no `str` record and no such record up to it is broken. */
  ghost predicate KeepsPlain(kinds: Kinds, float: Float, recs: seq<Record>, out: seq<Record>, at: seq<nat>)
    requires AllEncodable(recs)
  {
    && PickedAt(recs, out, at)
    && forall i :: 0 <= i < |recs| ==>
         (i in at <==> !(recs[i].kid in kinds && kinds[recs[i].kid].name == "str") &&
                       Reaches(kinds, float, EVERYTHING, recs, i + 1))
  }

  /** It fails at the first broken one, and every text is that of the last record that defines it. */
  ghost predicate ReadsAs(kinds: Kinds, float: Float, recs: seq<Record>, strings: map<int, seq<Byte>>,
                          reading: Reading, at: seq<nat>)
    requires AllEncodable(recs)
  {
    && KeepsPlain(kinds, float, recs, reading.out, at)
    && TableIs(kinds, float, EVERYTHING, recs, strings, reading.strings)
    && (reading.ok <==> !FailsAt(kinds, float, EVERYTHING, recs))
  }

  /** Without a window nothing stops the reader. */
  lemma NeverPast(kinds: Kinds, float: Float, r: Record)
    requires Encodable(r)
    ensures !Past(kinds, float, EVERYTHING, r)
  {
  }

  lemma ShiftPlain(kinds: Kinds, float: Float, recs: seq<Record>, out: seq<Record>, at: seq<nat>)
    requires AllEncodable(recs) && recs != [] && !Broken(kinds, float, EVERYTHING, recs[0])
    requires KeepsPlain(kinds, float, recs[1..], out, at)
    ensures IsStr(kinds, recs[0]) ==> KeepsPlain(kinds, float, recs, out, Shift(at))
    ensures !IsStr(kinds, recs[0]) ==> KeepsPlain(kinds, float, recs, [recs[0]] + out, [0] + Shift(at))
  {
    var r := recs[0];
    NeverPast(kinds, float, r);
    ShiftPicks(recs, out, at);
    FirstReaches(kinds, float, EVERYTHING, recs, at);
    forall i | 0 < i < |recs|
      ensures i in Shift(at) <==> !(recs[i].kid in kinds && kinds[recs[i].kid].name == "str") &&
                                  Reaches(kinds, float, EVERYTHING, recs, i + 1)
    {
      InShift(at, i);
      ReachesRest(kinds, float, EVERYTHING, recs, i + 1);
      assert recs[i] == recs[1..][i - 1];
    }
  }

  lemma ReadsOn(kinds: Kinds, float: Float, recs: seq<Record>, strings: map<int, seq<Byte>>, rest: Reading,
                at: seq<nat>)
    requires AllEncodable(recs) && recs != [] && !Broken(kinds, float, EVERYTHING, recs[0])
    requires ReadsAs(kinds, float, recs[1..], Defined(kinds, float, EVERYTHING, recs[0], strings), rest, at)
    ensures if IsStr(kinds, recs[0]) then ReadsAs(kinds, float, recs, strings, rest, Shift(at))
            else ReadsAs(kinds, float, recs, strings, Prepend([recs[0]], rest), [0] + Shift(at))
  {
    NeverPast(kinds, float, recs[0]);
    ShiftPlain(kinds, float, recs, rest.out, at);
    FailsRest(kinds, float, EVERYTHING, recs);
    forall id
      ensures TextIsLast(kinds, float, EVERYTHING, recs, strings, rest.strings, id)
    {
      TextGrows(kinds, float, EVERYTHING, recs, strings, rest.strings, id);
    }
  }

  lemma {:induction false} ReadAllIs(kinds: Kinds, float: Float, recs: seq<Record>, strings: map<int, seq<Byte>>)
    returns (at: seq<nat>)
    requires AllEncodable(recs)
    ensures ReadsAs(kinds, float, recs, strings, ReadAll(kinds, float, recs, strings), at)
  {
    if recs != [] {
      BrokenIff(kinds, float, EVERYTHING, recs[0]);
    }
    if recs == [] || Broken(kinds, float, EVERYTHING, recs[0]) {
      at := [];
      EndsDelivers(kinds, float, EVERYTHING, recs, strings);
      forall i | 0 < i <= |recs|
        ensures !Reaches(kinds, float, EVERYTHING, recs, i)
      {
        ReachesRest(kinds, float, EVERYTHING, recs, i);
      }
    } else {
      var strings1 := Defined(kinds, float, EVERYTHING, recs[0], strings);
      var ats := ReadAllIs(kinds, float, recs[1..], strings1);
      ReadsOn(kinds, float, recs, strings, ReadAll(kinds, float, recs[1..], strings1), ats);
      at := if IsStr(kinds, recs[0]) then Shift(ats) else [0] + Shift(ats);
    }
  }

  /** The loop of `read_file`, past the header: the records it keeps and the string table. */
  method ReadRecords(body: seq<Byte>, kinds: Kinds, float: Float, strings: map<int, seq<Byte>>)
    returns (out: seq<Record>, strings': map<int, seq<Byte>>, ok: bool, ghost at: seq<nat>)
    ensures AllEncodable(Parse(body)) && ReadsAs(kinds, float, Parse(body), strings, Reading(out, strings', ok), at)
    ensures Reading(out, strings', ok) == ReadBytes(kinds, float, body, strings)
  {
    ParseEncodable(body);
    at := ReadAllIs(kinds, float, Parse(body), strings);
    out, strings', ok := [], strings, true;
    var left := body;
    while Complete(left)
      invariant ok && ReadBytes(kinds, float, body, strings) == Prepend(out, ReadBytes(kinds, float, left, strings'))
      decreases |left|
    {
      var r, size := Head(left), Size(left);
      ReadStep(kinds, float, left, strings');
      if IsStr(kinds, r) {
        var text := DecodeStr(Vals(float, r));
        if text.None? {
          ok := false;
          return;
        }
        strings' := Define(strings', text.value);
      } else {
        PrependTwice(out, [r], ReadBytes(kinds, float, left[size..], strings'));
        out := out + [r];
      }
      left := left[size..];
    }
  }

  /** The records with a time. */
  function Timed(kinds: Kinds, float: Float, recs: seq<Record>): seq<Record>
    requires AllEncodable(recs)
  {
    if recs == [] then []
    else
      var rest := Timed(kinds, float, recs[1..]);
      if Time(kinds, float, recs[0]).NaN? then rest else [recs[0]] + rest
  }

  ghost predicate TimelessStrings(kinds: Kinds) {
    forall k, i :: k in kinds && kinds[k].name == "str" && 0 <= i < |kinds[k].fields| ==> !TimeField(kinds[k].fields[i])
  }

  lemma {:induction false} NoTimeField(fields: seq<string>, vals: seq<Value>, i: nat)
    requires forall j :: 0 <= j < |fields| ==> !TimeField(fields[j])
    ensures FirstTime(fields, vals, i).NaN?
    decreases |fields| - i
  {
    if i < |fields| {
      NoTimeField(fields, vals, i + 1);
    }
  }

  lemma {:induction false} ReadAllEncodable(kinds: Kinds, float: Float, recs: seq<Record>, strings: map<int, seq<Byte>>)
    requires AllEncodable(recs)
    ensures AllEncodable(ReadAll(kinds, float, recs, strings).out)
  {
    if recs != [] {
      if IsStr(kinds, recs[0]) {
        var text := DecodeStr(Vals(float, recs[0]));
        if text.Some? {
          ReadAllEncodable(kinds, float, recs[1..], Define(strings, text.value));
        }
      } else {
        ReadAllEncodable(kinds, float, recs[1..], strings);
      }
    }
  }

  /** Without a window the streaming reader delivers exactly the timed records of the whole file, with
      the same string table, and fails on the same files. */
  lemma {:induction false} ReadersAgree(kinds: Kinds, float: Float, recs: seq<Record>, strings: map<int, seq<Byte>>)
    requires AllEncodable(recs) && TimelessStrings(kinds)
    ensures AllEncodable(ReadAll(kinds, float, recs, strings).out)
    ensures var all := ReadAll(kinds, float, recs, strings);
            Walk(kinds, float, EVERYTHING, recs, strings) == all.(out := Timed(kinds, float, all.out))
  {
    ReadAllEncodable(kinds, float, recs, strings);
    if recs != [] {
      var r := recs[0];
      var t := Time(kinds, float, r);
      assert !Gt(t, PosInf) && (Le(NegInf, t) && Le(t, PosInf) <==> !t.NaN?);
      if IsStr(kinds, r) {
        NoTimeField(kinds[r.kid].fields, Vals(float, r), 0);
        var text := DecodeStr(Vals(float, r));
        if text.Some? {
          ReadersAgree(kinds, float, recs[1..], Define(strings, text.value));
        }
      } else {
        ReadersAgree(kinds, float, recs[1..], strings);
        TimedFirst(kinds, float, r, ReadAll(kinds, float, recs[1..], strings).out);
      }
    }
  }

  lemma TimedFirst(kinds: Kinds, float: Float, r: Record, recs: seq<Record>)
    requires Encodable(r) && AllEncodable(recs)
    ensures AllEncodable([r] + recs)
    ensures Timed(kinds, float, [r] + recs) ==
            if Time(kinds, float, r).NaN? then Timed(kinds, float, recs) else [r] + Timed(kinds, float, recs)
  {
    assert ([r] + recs)[1..] == recs;
  }

  // ---- files ----

  const MAGIC: seq<Byte> := [0x45, 0x56, 0x54, 0x31]

  datatype Header = Header(tierB: bool, kinds: Kinds, strings: seq<seq<Byte>>)

  /** `json.loads` and `json.dumps` of a header. */
  type Loads = seq<Byte> -> Option<Header>
  type Dumps = Header -> seq<Byte>

  const MAX_HEADER: nat := 0x1_0000_0000

  function PackLong(x: nat): seq<Byte>
    requires x < MAX_HEADER
  {
    PackWord(x % 0x10000) + PackWord(x / 0x10000)
  }

  function Long(data: seq<Byte>, at: nat): nat
    requires at + 4 <= |data|
  {
    Word(data, at) + 0x10000 * Word(data, at + 2)
  }

  lemma LongIs(data: seq<Byte>, at: nat)
    requires at + 4 <= |data|
    ensures Long(data, at) == data[at] as nat + 256 * data[at + 1] as nat + 65536 * data[at + 2] as nat
                              + 16777216 * data[at + 3] as nat
  {
  }

  /** `header_of`; fails on anything that is not an EVT1 file. */
  function HeaderOf(file: seq<Byte>, loads: Loads): Option<(nat, Header)> {
    if |file| < 8 || file[..4] != MAGIC then None
    else
      var hlen := Long(file, 4);
      var h := loads(if 8 + hlen <= |file| then file[8..8 + hlen] else file[8..]);
      if h.None? then None else Some((hlen, h.value))
  }

  /** A file: magic, header length, header, records. */
  function FileOf(header: seq<Byte>, body: seq<Byte>): seq<Byte>
    requires |header| < MAX_HEADER
  {
    MAGIC + PackLong(|header|) + header + body
  }

  lemma LongPacked(x: nat)
    requires x < MAX_HEADER
    ensures |PackLong(x)| == 4 && Long(PackLong(x), 0) == x
  {
    var b := PackLong(x);
    var lo, hi := x % 0x10000, x / 0x10000;
    assert Word(b, 0) == lo && Word(b, 2) == hi;
  }

  lemma FileParts(header: seq<Byte>, body: seq<Byte>)
    requires |header| < MAX_HEADER
    ensures var file := FileOf(header, body);
            && |file| >= 8 + |header| && file[..4] == MAGIC && Long(file, 4) == |header|
            && file[8..8 + |header|] == header && file[8 + |header|..] == body
  {
    var file := FileOf(header, body);
    LongPacked(|header|);
    var b := PackLong(|header|);
    assert file[4] == b[0] && file[5] == b[1] && file[6] == b[2] && file[7] == b[3];
    assert Word(file, 4) == Word(b, 0) && Word(file, 6) == Word(b, 2);
  }

  /** `dict(enumerate(strings))`. */
  function Enumerate(strings: seq<seq<Byte>>): map<int, seq<Byte>> {
    map k: int | 0 <= k < |strings| :: strings[k]
  }

  /** `[strings.get(k, '') for k in range(n)]`. */
  function Table(strings: map<int, seq<Byte>>, n: nat): (table: seq<seq<Byte>>)
    ensures |table| == n
    ensures forall k :: 0 <= k < n ==> table[k] == if k in strings then strings[k] else []
  {
    seq(n, k requires 0 <= k < n => if k in strings then strings[k] else [])
  }

  method AnyOf<T(==)>(s: set<T>) returns (x: T)
    requires s != {}
    ensures x in s
  {
    x :| x in s;
  }

  /** `max(strings) + 1`, or 0 when no id is a table index. */
  method TableSize(strings: map<int, seq<Byte>>) returns (n: nat)
    ensures forall k :: k in strings ==> k < n
    ensures n > 0 ==> n - 1 in strings
  {
    n := 0;
    var todo: set<int> := strings.Keys;
    while todo != {}
      invariant todo <= strings.Keys
      invariant forall k :: k in strings && k !in todo ==> k < n
      invariant n == 0 || n - 1 in strings
    {
      var k := AnyOf(todo);
      if k >= n {
        n := k + 1;
      }
      todo := todo - {k};
    }
  }

  // ---- cutting ----

  const STOP_MARGIN: real := 30000000000.0

  /** The window `cmd_cut` reads: in a Tier B dump, which is in batch order, nothing stops the reader. */
  function CutWindow(header: Header, from: real, to: real): Window {
    Window(Num(from), Num(to), if header.tierB then PosInf else Num(to + STOP_MARGIN), true)
  }

  /** What a cut must read as: the kinds, the records of the window, and every string defined by then. */
  ghost predicate CutReads(cut: seq<Byte>, loads: Loads, header: Header, reading: Reading) {
    var got := HeaderOf(cut, loads);
    && got.Some? && 8 + got.value.0 <= |cut|
    && got.value.1.tierB == header.tierB && got.value.1.kinds == header.kinds
    && Parse(cut[8 + got.value.0..]) == reading.out
    && forall k :: k in reading.strings && k >= 0 ==>
         k in Enumerate(got.value.1.strings) && Enumerate(got.value.1.strings)[k] == reading.strings[k]
  }

  lemma CutIsRead(loads: Loads, dumps: Dumps, header: Header, header': Header, out: seq<Record>,
                  strings: map<int, seq<Byte>>)
    requires loads(dumps(header')) == Some(header') && |dumps(header')| < MAX_HEADER && AllEncodable(out)
    requires header'.tierB == header.tierB && header'.kinds == header.kinds
    requires forall k :: k in strings && k >= 0 ==> k < |header'.strings| && header'.strings[k] == strings[k]
    ensures CutReads(FileOf(dumps(header'), Join(out)), loads, header, Reading(out, strings, true))
  {
    FileParts(dumps(header'), Join(out));
    ParseJoin(out);
  }

  /** Outcome of a cut: an exception, no record in the window, or the cut's bytes. */
  datatype Cutting = Raises | NoRecords | Written(file: seq<Byte>)

  function Body(file: seq<Byte>, hlen: nat): seq<Byte> {
    if 8 + hlen <= |file| then file[8 + hlen..] else []
  }

  /** The header a cut is written with. */
  ghost predicate CutHeader(header: Header, strings: map<int, seq<Byte>>, header': Header) {
    && header'.tierB == header.tierB && header'.kinds == header.kinds
    && forall k :: k in strings && k >= 0 ==> k < |header'.strings| && header'.strings[k] == strings[k]
  }

  /** The record has a time between `from` and `to`. */
  ghost predicate TimedIn(kinds: Kinds, float: Float, r: Record, from: real, to: real)
    requires Encodable(r)
  {
    exists x :: TimeIs(kinds, float, r, Num(x)) && from <= x <= to
  }

  ghost predicate TimedPast(kinds: Kinds, float: Float, r: Record, stop: real)
    requires Encodable(r)
  {
    TimeIs(kinds, float, r, PosInf) || exists x :: TimeIs(kinds, float, r, Num(x)) && x > stop
  }

  /** A cut keeps the records of the window, in file order: in a Tier B dump all of them, elsewhere those
      with no record up to them later than 30 s past the window's end. */
  ghost predicate CutKeeps(header: Header, float: Float, from: real, to: real, recs: seq<Record>, out: seq<Record>,
                           at: seq<nat>)
    requires AllEncodable(recs)
  {
    && PickedAt(recs, out, at)
    && forall i :: 0 <= i < |recs| ==>
         (i in at <==> TimedIn(header.kinds, float, recs[i], from, to) &&
                       (header.tierB || NonePast(header.kinds, float, recs, i + 1, to + 30000000000.0)))
  }

  ghost predicate NonePast(kinds: Kinds, float: Float, recs: seq<Record>, n: nat, stop: real)
    requires AllEncodable(recs) && n <= |recs|
  {
    forall j :: 0 <= j < n ==> !TimedPast(kinds, float, recs[j], stop)
  }

  lemma CutTests(header: Header, float: Float, from: real, to: real, r: Record)
    requires Encodable(r)
    ensures var w := CutWindow(header, from, to);
            && (Inside(header.kinds, float, w, r) <==> TimedIn(header.kinds, float, r, from, to))
            && (Past(header.kinds, float, w, r) <==>
                !header.tierB && TimedPast(header.kinds, float, r, to + 30000000000.0))
  {
    var w, t := CutWindow(header, from, to), Time(header.kinds, float, r);
    TimeIsTime(header.kinds, float, r, t);
    TestsAre(header.kinds, float, w, r);
    TimeIsTime(header.kinds, float, r, PosInf);
    forall x: real
      ensures TimeIs(header.kinds, float, r, Num(x)) <==> t == Num(x)
    {
      TimeIsTime(header.kinds, float, r, Num(x));
    }
  }

  /** A reader that does not fail comes to every record but for those past the window. */
  lemma {:induction false} ReachesUnlessPast(kinds: Kinds, float: Float, w: Window, recs: seq<Record>, i: nat)
    requires AllEncodable(recs) && i <= |recs| && !FailsAt(kinds, float, w, recs)
    ensures Reaches(kinds, float, w, recs, i) <==> forall j :: 0 <= j < i ==> !Past(kinds, float, w, recs[j])
  {
    if i > 0 {
      ReachesUnlessPast(kinds, float, w, recs, i - 1);
      assert !BreaksAt(kinds, float, w, recs, i - 1);
    }
  }

  lemma WindowIsCut(header: Header, float: Float, from: real, to: real, recs: seq<Record>, out: seq<Record>,
                    at: seq<nat>)
    requires AllEncodable(recs) && !FailsAt(header.kinds, float, CutWindow(header, from, to), recs)
    requires InWindow(header.kinds, float, CutWindow(header, from, to), recs, out, at)
    ensures CutKeeps(header, float, from, to, recs, out, at)
  {
    var w := CutWindow(header, from, to);
    forall r | r in recs
      ensures Inside(header.kinds, float, w, r) <==> TimedIn(header.kinds, float, r, from, to)
      ensures Past(header.kinds, float, w, r) <==>
              !header.tierB && TimedPast(header.kinds, float, r, to + 30000000000.0)
    {
      CutTests(header, float, from, to, r);
    }
    forall i | 0 < i <= |recs|
      ensures Reaches(header.kinds, float, w, recs, i) <==>
              header.tierB || NonePast(header.kinds, float, recs, i, to + 30000000000.0)
    {
      ReachesUnlessPast(header.kinds, float, w, recs, i);
    }
  }

  /** So every record of a cut lies between `from` and `to`. */
  lemma CutIsInWindow(header: Header, float: Float, from: real, to: real, recs: seq<Record>, out: seq<Record>,
                      at: seq<nat>, j: nat)
    requires AllEncodable(recs) && CutKeeps(header, float, from, to, recs, out, at) && j < |out|
    ensures Encodable(out[j]) && exists x :: Time(header.kinds, float, out[j]) == Num(x) && from <= x <= to
  {
    assert at[j] in at;
    var x :| TimeIs(header.kinds, float, out[j], Num(x)) && from <= x <= to;
    TimeIsTime(header.kinds, float, out[j], Num(x));
  }

  method NewHeader(header: Header, strings: map<int, seq<Byte>>) returns (header': Header)
    ensures CutHeader(header, strings, header')
  {
    if strings == map[] {
      header' := header;
    } else {
      var n := TableSize(strings);
      header' := header.(strings := Table(strings, n));
    }
  }

  ghost function RecordsOf(cut: seq<Byte>, loads: Loads): seq<Record> {
    var got := HeaderOf(cut, loads);
    if got.None? then [] else Parse(Body(cut, got.value.0))
  }

  /** `cmd_cut` on one file: a written cut reads as the window's records with every string defined by
      the cut's end. */
  method Cut(file: seq<Byte>, loads: Loads, dumps: Dumps, float: Float, from: real, to: real, chunks: nat -> nat)
    returns (cut: Cutting, ghost at: seq<nat>)
    requires forall h :: loads(dumps(h)) == Some(h)
    requires forall k :: chunks(k) >= 1
    ensures HeaderOf(file, loads).None? ==> cut == Raises
    ensures HeaderOf(file, loads).Some? ==>
              var (hlen, header) := HeaderOf(file, loads).value;
              var reading := WalkBytes(header.kinds, float, CutWindow(header, from, to), Body(file, hlen),
                  Enumerate(header.strings));
              && (!reading.ok ==> cut == Raises)
              && (reading.ok && reading.out == [] ==> cut == NoRecords)
              && (cut == Raises && reading.ok ==>
                    exists header' :: CutHeader(header, reading.strings, header') && |dumps(header')| >= MAX_HEADER)
              && (cut.Written? ==> CutReads(cut.file, loads, header, reading))
    ensures HeaderOf(file, loads).Some? ==>
              var (hlen, header) := HeaderOf(file, loads).value;
              var recs, w := Parse(Body(file, hlen)), CutWindow(header, from, to);
              && AllEncodable(recs)
              && (FailsAt(header.kinds, float, w, recs) ==> cut == Raises)
              && (cut == NoRecords ==> CutKeeps(header, float, from, to, recs, [], at))
              && (cut.Written? ==> CutKeeps(header, float, from, to, recs, RecordsOf(cut.file, loads), at))
  {
    at := [];
    var h := HeaderOf(file, loads);
    if h.None? {
      cut := Raises;
      return;
    }
    var (hlen, header) := h.value;
    var out, raw, strings, ok;
    out, raw, strings, ok, at :=
        Records(Body(file, hlen), header.kinds, float, CutWindow(header, from, to), Enumerate(header.strings), chunks);
    if !ok {
      cut := Raises;
      return;
    }
    if out == [] {
      WindowIsCut(header, float, from, to, Parse(Body(file, hlen)), out, at);
      cut := NoRecords;
      return;
    }
    var header' := NewHeader(header, strings);
    var hb := dumps(header');
    if |hb| >= MAX_HEADER {
      assert CutHeader(header, strings, header');
      cut := Raises;
      return;
    }
    CutIsRead(loads, dumps, header, header', out, strings);
    WindowIsCut(header, float, from, to, Parse(Body(file, hlen)), out, at);
    cut := Written(FileOf(hb, raw));
  }

  /** Reading a cut again with the same window keeps every record. */
  lemma {:induction false} KeptAgain(kinds: Kinds, float: Float, w: Window, recs: seq<Record>,
                                     strings: map<int, seq<Byte>>, strings2: map<int, seq<Byte>>)
    requires AllEncodable(recs)
    ensures var out := Walk(kinds, float, w, recs, strings).out;
            AllEncodable(out) && Walk(kinds, float, w, out, strings2).out == out &&
                Walk(kinds, float, w, out, strings2).ok
  {
    if recs != [] {
      var r := recs[0];
      var v := Visit(kinds, float, w, r, strings);
      if v.status == Going {
        var rest := Walk(kinds, float, w, recs[1..], v.strings).out;
        KeptAgain(kinds, float, w, recs[1..], v.strings, Visit(kinds, float, w, r, strings2).strings);
        KeptAgain(kinds, float, w, recs[1..], v.strings, strings2);
        assert ([r] + rest)[1..] == rest;
      }
    }
  }

  // ---- string records ----

  const MAX_FIELDS: nat := 112

  function FromLittleEndian(b: seq<Byte>): nat {
    if b == [] then 0 else b[0] as nat + 256 * FromLittleEndian(b[1..])
  }

  /** The low byte comes first. */
  lemma SixBytes(b: seq<Byte>)
    requires |b| == 6
    ensures FromLittleEndian(b) == b[0] as nat + 256 * b[1] as nat + 65536 * b[2] as nat + 16777216 * b[3] as nat
                                   + 4294967296 * b[4] as nat + 1099511627776 * b[5] as nat
  {
    assert b[1..][1..] == b[2..] && b[2..][1..] == b[3..] && b[3..][1..] == b[4..] && b[4..][1..] == b[5..];
    assert b[5..][1..] == [];
    assert FromLittleEndian(b[4..]) == b[4] as nat + 256 * FromLittleEndian(b[5..]);
    assert FromLittleEndian(b[2..]) == b[2] as nat + 256 * FromLittleEndian(b[3..]);
  }

  /** The bytes of slot `i`: six of them, fewer at the end. */
  function Chunk(b: seq<Byte>, i: nat): (c: seq<Byte>)
    requires 6 * i < |b|
    ensures 0 < |c| <= 6
  {
    if 6 * i + 6 <= |b| then b[6 * i..6 * i + 6] else b[6 * i..]
  }

  function SlotCount(b: seq<Byte>): nat {
    var n := (|b| + 5) / 6;
    if n < MAX_FIELDS - 2 then n else MAX_FIELDS - 2
  }

  /** `str_rec`: id, length, and six bytes per slot. */
  function StrVals(id: nat, b: seq<Byte>): seq<Value> {
    [Num(id as real), Num((if |b| < 6 * SlotCount(b) then |b| else 6 * SlotCount(b)) as real)] + Slots(b, SlotCount(b))
  }

  function Slots(b: seq<Byte>, n: nat): (slots: seq<Value>)
    requires 6 * n < |b| + 6
    ensures |slots| == n
  {
    seq(n, i requires 0 <= i < n => Num(FromLittleEndian(Chunk(b, i)) as real))
  }

  function Zeros(n: nat): seq<Byte> {
    if n == 0 then [] else [0] + Zeros(n - 1)
  }

  lemma {:induction false} EndianZero(n: nat)
    ensures LittleEndian(0, n) == Zeros(n)
  {
    if n > 0 {
      EndianZero(n - 1);
    }
  }

  lemma {:induction false} EndianRoundTrip(b: seq<Byte>, n: nat)
    requires |b| <= n
    ensures LittleEndian(FromLittleEndian(b), n) == b + Zeros(n - |b|)
    decreases n
  {
    if b == [] {
      EndianZero(n);
      assert b + Zeros(n) == Zeros(n);
    } else {
      EndianRoundTrip(b[1..], n - 1);
      var x := FromLittleEndian(b);
      assert x % 256 == b[0] as nat && x / 256 == FromLittleEndian(b[1..]);
      assert [b[0]] + (b[1..] + Zeros(n - |b|)) == b + Zeros(n - |b|);
    }
  }

  function Pow256(n: nat): nat {
    if n == 0 then 1 else 256 * Pow256(n - 1)
  }

  lemma {:induction false} EndianBound(b: seq<Byte>)
    ensures FromLittleEndian(b) < Pow256(|b|)
  {
    if b != [] {
      EndianBound(b[1..]);
    }
  }

  lemma ChunkFits(b: seq<Byte>, i: nat)
    requires 6 * i < |b|
    ensures FromLittleEndian(Chunk(b, i)) < SLOT
  {
    var c := Chunk(b, i);
    EndianBound(c);
    Pow256Monotone(|c|, 6);
    assert Pow256(6) == SLOT by {
      assert Pow256(2) == 65536;
      assert Pow256(4) == 256 * Pow256(3) == 256 * 256 * Pow256(2);
      assert Pow256(6) == 256 * Pow256(5) == 256 * 256 * Pow256(4);
    }
  }

  lemma {:induction false} Pow256Monotone(m: nat, n: nat)
    requires m <= n
    ensures Pow256(m) <= Pow256(n)
  {
    if m < n {
      Pow256Monotone(m, n - 1);
    }
  }

  lemma IntOfNat(x: nat)
    ensures Int(Num(x as real)) == Some(x)
  {
  }

  /** The slots from `i` on decode to the bytes from `6 * i` on, padded with zeros. */
  lemma {:induction false} SlotsDecode(vals: seq<Value>, b: seq<Byte>, n: nat, i: nat)
    requires 6 * n < |b| + 6 && i <= n && |vals| == n + 2 && vals[2..] == Slots(b, n)
    ensures var got := SlotBytes(vals, i + 2);
            got.Some? && |got.value| == 6 * (n - i)
            && forall k :: 6 * i <= k < 6 * n && k < |b| ==> got.value[k - 6 * i] == b[k]
    decreases n - i
  {
    if i < n {
      SlotsDecode(vals, b, n, i + 1);
      assert vals[i + 2] == vals[2..][i];
      SlotDecodes(b, n, i);
      var first := LittleEndian(FromLittleEndian(Chunk(b, i)), 6);
      var rest := SlotBytes(vals, i + 3).value;
      assert SlotBytes(vals, i + 2) == Some(first + rest);
      forall k | 6 * i <= k < 6 * n && k < |b|
        ensures (first + rest)[k - 6 * i] == b[k]
      {
        if k < 6 * i + 6 {
          assert first[k - 6 * i] == Chunk(b, i)[k - 6 * i];
        } else {
          assert rest[k - 6 * (i + 1)] == b[k];
        }
      }
    }
  }

  lemma SlotDecodes(b: seq<Byte>, n: nat, i: nat)
    requires 6 * n < |b| + 6 && i < n
    ensures var c := Chunk(b, i);
            && Int(Slots(b, n)[i]) == Some(FromLittleEndian(c)) && FromLittleEndian(c) < SLOT
            && c <= LittleEndian(FromLittleEndian(c), 6)
  {
    ChunkFits(b, i);
    IntOfNat(FromLittleEndian(Chunk(b, i)));
    EndianRoundTrip(Chunk(b, i), 6);
  }

  lemma StrValsParts(id: nat, b: seq<Byte>)
    ensures var n, vals := SlotCount(b), StrVals(id, b);
            && |vals| == n + 2 && vals[2..] == Slots(b, n)
            && Int(vals[0]) == Some(id) && Int(vals[1]) == Some(if |b| < 6 * n then |b| else 6 * n)
  {
    IntOfNat(id);
    IntOfNat(if |b| < 6 * SlotCount(b) then |b| else 6 * SlotCount(b));
  }

  lemma SlotCountIs(b: seq<Byte>)
    ensures var n := SlotCount(b);
            6 * n < |b| + 6 && (if |b| < 6 * n then |b| else 6 * n) == if |b| <= 660 then |b| else 660
  {
  }

  /** A string record decodes to its id and text, cut at 660 bytes. */
  lemma StrRoundTrip(id: nat, b: seq<Byte>)
    ensures DecodeStr(StrVals(id, b)) == Some(Text(id, if |b| <= 660 then b else b[..660]))
  {
    var n, vals := SlotCount(b), StrVals(id, b);
    StrValsParts(id, b);
    SlotCountIs(b);
    SlotsDecode(vals, b, n, 0);
    var len := if |b| <= 660 then |b| else 660;
    var got := SlotBytes(vals, 2).value;
    assert got[..len] == b[..len];
    assert Upto(got, len) == got[..len];
    assert b[..|b|] == b;
  }
}
