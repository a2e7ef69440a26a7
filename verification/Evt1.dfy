/** The EVT1 trace format: records, and what a window of them delivers (scripts/evt2perfetto.py,
    scripts/evtrace.py, crates/v4flash-kernels/src/het/evtrace.rs). */
module Evt1 {
  import opened Prelude
  import opened ByteEncoding

  // ---- values ----

  /** A 64-bit float: exact, infinite or not measured. */
  datatype Value = NaN | NegInf | Num(x: real) | PosInf

  /** `a <= b`; false when either is NaN. */
  predicate Le(a: Value, b: Value) {
    if a.NaN? || b.NaN? then false
    else a.NegInf? || b.PosInf? || (a.Num? && b.Num? && a.x <= b.x)
  }

  predicate Gt(a: Value, b: Value) {
    !a.NaN? && !b.NaN? && !Le(a, b)
  }

  /** `int(x)`; raises on NaN and infinities. */
  function Int(v: Value): Option<int> {
    if v.Num? then Some(if v.x >= 0.0 then v.x.Floor else -((-v.x).Floor)) else None
  }

  // ---- records ----

  /** Kind id, number of values, and their 8-byte encodings. */
  datatype Record = Record(kid: nat, n: nat, payload: seq<Byte>)

  predicate Encodable(r: Record) {
    r.kid < 0x10000 && r.n < 0x10000 && |r.payload| == 8 * r.n
  }

  /** `struct.unpack_from('<H', data, at)`. */
  function Word(data: seq<Byte>, at: nat): (w: nat)
    requires at + 2 <= |data|
    ensures w < 0x10000
  {
    data[at] as nat + 256 * data[at + 1] as nat
  }

  /** `struct.pack('<H', w)`. */
  function PackWord(w: nat): seq<Byte>
    requires w < 0x10000
  {
    [(w % 256) as Byte, (w / 256) as Byte]
  }

  function Size(data: seq<Byte>): nat
    requires |data| >= 4
  {
    4 + 8 * Word(data, 2)
  }

  /** A whole record is there. */
  predicate Complete(data: seq<Byte>) {
    |data| >= 4 && Size(data) <= |data|
  }

  function Head(data: seq<Byte>): (r: Record)
    requires Complete(data)
    ensures Encodable(r)
  {
    Record(Word(data, 0), Word(data, 2), data[4..Size(data)])
  }

  /** The bytes of a record (`write_rec`). */
  function Raw(r: Record): (data: seq<Byte>)
    requires Encodable(r)
    ensures |data| == 4 + 8 * r.n
  {
    PackWord(r.kid) + PackWord(r.n) + r.payload
  }

  /** All records of a file body; a truncated tail is dropped. */
  function Parse(data: seq<Byte>): seq<Record> {
    if Complete(data) then [Head(data)] + Parse(data[Size(data)..]) else []
  }

  ghost predicate AllEncodable(recs: seq<Record>) {
    forall i :: 0 <= i < |recs| ==> Encodable(recs[i])
  }

  function Join(recs: seq<Record>): seq<Byte>
    requires AllEncodable(recs)
  {
    if recs == [] then [] else Raw(recs[0]) + Join(recs[1..])
  }

  lemma WordBytes(lo: Byte, hi: Byte)
    ensures (lo as nat + 256 * hi as nat) % 256 == lo as nat && (lo as nat + 256 * hi as nat) / 256 == hi as nat
  {
  }

  /** The bytes the reader slices out are the record's encoding. */
  lemma RawHead(data: seq<Byte>)
    requires Complete(data)
    ensures Raw(Head(data)) == data[..Size(data)]
  {
    WordBytes(data[0], data[1]);
    WordBytes(data[2], data[3]);
  }

  lemma HeadRaw(r: Record, rest: seq<Byte>)
    requires Encodable(r)
    ensures Complete(Raw(r) + rest) && Head(Raw(r) + rest) == r && (Raw(r) + rest)[Size(Raw(r) + rest)..] == rest
  {
    var data := Raw(r) + rest;
    assert data[0] as nat == r.kid % 256 && data[1] as nat == r.kid / 256;
    assert data[2] as nat == r.n % 256 && data[3] as nat == r.n / 256;
    assert Word(data, 2) == r.n && Word(data, 0) == r.kid;
    assert data[4..Size(data)] == r.payload;
  }

  /** Reading back what was written. */
  lemma {:induction false} ParseJoin(recs: seq<Record>)
    requires AllEncodable(recs)
    ensures Parse(Join(recs)) == recs
  {
    if recs != [] {
      HeadRaw(recs[0], Join(recs[1..]));
      ParseJoin(recs[1..]);
    }
  }

  /** A record that is complete stays the same as more of the file arrives. */
  lemma ParseMore(data: seq<Byte>, rest: seq<Byte>)
    requires Complete(data)
    ensures Parse(data + rest) == [Head(data)] + Parse(data[Size(data)..] + rest)
  {
    var all := data + rest;
    assert Word(all, 0) == Word(data, 0) && Word(all, 2) == Word(data, 2);
    assert all[4..Size(all)] == data[4..Size(data)];
    assert all[Size(all)..] == data[Size(data)..] + rest;
  }

  // ---- kinds, times, strings ----

  datatype Kind = Kind(name: string, fields: seq<string>)

  type Kinds = map<nat, Kind>

  /** What eight bytes mean as a float. */
  type Float = seq<Byte> -> Value

  function Vals(float: Float, r: Record): (vals: seq<Value>)
    requires Encodable(r)
    ensures |vals| == r.n
  {
    seq(r.n, i requires 0 <= i < r.n => float(r.payload[8 * i..8 * i + 8]))
  }

  /** `^t(_|\d|$)`. */
  predicate TimeField(f: string) {
    f != [] && f[0] == 't' && (|f| == 1 || f[1] == '_' || '0' <= f[1] <= '9' || f[1..] == "\n")
  }

  /** The first time field from `i` on that is not NaN. */
  function FirstTime(fields: seq<string>, vals: seq<Value>, i: nat): Value
    decreases |fields| - i
  {
    if i >= |fields| then NaN
    else if TimeField(fields[i]) && i < |vals| && !vals[i].NaN? then vals[i]
    else FirstTime(fields, vals, i + 1)
  }

  function Time(kinds: Kinds, float: Float, r: Record): Value
    requires Encodable(r)
  {
    if r.kid in kinds then FirstTime(kinds[r.kid].fields, Vals(float, r), 0) else NaN
  }

  predicate IsStr(kinds: Kinds, r: Record) {
    r.kid in kinds && kinds[r.kid].name == "str"
  }

  /** `x.to_bytes(n, 'little')`. */
  function LittleEndian(x: nat, n: nat): (b: seq<Byte>)
    ensures |b| == n
  {
    if n == 0 then [] else [(x % 256) as Byte] + LittleEndian(x / 256, n - 1)
  }

  const SLOT: nat := 0x1_0000_0000_0000

  /** The bytes of the slots from `i` on, six per slot. */
  function SlotBytes(vals: seq<Value>, i: nat): Option<seq<Byte>>
    decreases |vals| - i
  {
    if i >= |vals| then Some([])
    else
      var x := Int(vals[i]);
      if x.None? || x.value < 0 || x.value >= SLOT then None
      else
        var rest := SlotBytes(vals, i + 1);
        if rest.None? then None else Some(LittleEndian(x.value, 6) + rest.value)
  }

  /** Python's `b[:n]`. */
  function Upto(b: seq<Byte>, n: int): seq<Byte> {
    if n >= |b| then b else if n >= 0 then b[..n] else if |b| + n >= 0 then b[..|b| + n] else []
  }

  datatype Text = Text(id: int, bytes: seq<Byte>)

  /** `decode_str`; raises when a value is missing, not a number or out of range. */
  function DecodeStr(vals: seq<Value>): Option<Text> {
    if |vals| < 2 then None
    else
      var id, len, b := Int(vals[0]), Int(vals[1]), SlotBytes(vals, 2);
      if id.None? || len.None? || b.None? then None else Some(Text(id.value, Upto(b.value, len.value)))
  }

  // ---- what a reader delivers ----

  /** `decode`: a string table is passed, and `str` records are decoded into it. */
  datatype Window = Window(lo: Value, hi: Value, stop: Value, decode: bool)

  const EVERYTHING := Window(NegInf, PosInf, PosInf, true)

  predicate Decodes(kinds: Kinds, w: Window, r: Record) {
    w.decode && IsStr(kinds, r)
  }

  /** Records in the window, the string table, and whether no `str` record was malformed. */
  datatype Reading = Reading(out: seq<Record>, strings: map<int, seq<Byte>>, ok: bool)

  function Define(strings: map<int, seq<Byte>>, text: Text): map<int, seq<Byte>> {
    strings[text.id := text.bytes]
  }

  /** The rules of `records`, record by record. */
  function Walk(kinds: Kinds, float: Float, w: Window, recs: seq<Record>, strings: map<int, seq<Byte>>): Reading
    requires AllEncodable(recs)
  {
    if recs == [] then Reading([], strings, true)
    else
      var r := recs[0];
      var text := DecodeStr(Vals(float, r));
      if Decodes(kinds, w, r) && text.None? then Reading([], strings, false)
      else
        var strings' := if Decodes(kinds, w, r) then Define(strings, text.value) else strings;
        var t := Time(kinds, float, r);
        if Gt(t, w.stop) then Reading([], strings', true)
        else
          var rest := Walk(kinds, float, w, recs[1..], strings');
          if Le(w.lo, t) && Le(t, w.hi) then rest.(out := [r] + rest.out) else rest
  }

  /** Without a string table nothing fails, and the records are those a reader with one delivers when it
      does not fail. */
  lemma {:induction false} WithoutTable(kinds: Kinds, float: Float, w: Window, recs: seq<Record>,
                                        strings: map<int, seq<Byte>>, table: map<int, seq<Byte>>)
    requires AllEncodable(recs) && !w.decode
    ensures var plain, full := Walk(kinds, float, w, recs, strings),
                Walk(kinds, float, w.(decode := true), recs, table);
            plain.ok && plain.strings == strings && (full.ok ==> plain.out == full.out)
  {
    if recs != [] {
      var v := DecodeStr(Vals(float, recs[0]));
      var table' := if IsStr(kinds, recs[0]) && v.Some? then Define(table, v.value) else table;
      WithoutTable(kinds, float, w, recs[1..], strings, table');
    }
  }

  function Prepend(out: seq<Record>, more: Reading): Reading {
    more.(out := out + more.out)
  }

  lemma {:induction false} ParseEncodable(data: seq<Byte>)
    ensures AllEncodable(Parse(data))
    decreases |data|
  {
    if Complete(data) {
      ParseEncodable(data[Size(data)..]);
    }
  }

  /** `Walk` over the records of some bytes. */
  function WalkBytes(kinds: Kinds, float: Float, w: Window, data: seq<Byte>, strings: map<int, seq<Byte>>): Reading {
    ParseEncodable(data);
    Walk(kinds, float, w, Parse(data), strings)
  }
}
