/** What `read_file` of scripts/evtrace.py returns: the records of every kind as dictionaries, with
    their string ids looked up in the table of the whole file. */
module Evt1Tables {
  import opened Prelude
  import opened ByteEncoding
  import opened Evt1
  import opened Evt1Files
  import opened Evt1Window

  /** `_role` and `_pid`, the same for every record of a file. */
  datatype Origin = Origin(role: string, pid: Option<int>)

  /** A record: its numeric fields, and the `<field>_s` texts. */
  datatype Row = Row(fields: map<string, Value>, texts: map<string, seq<Byte>>, origin: Origin)

  type Rows = map<string, seq<Row>>

  function KindName(kinds: Kinds, kid: nat): string {
    if kid in kinds then kinds[kid].name else "kind" + Digits(kid)
  }

  /** The field names of a record; an unknown kind numbers them. */
  function FieldNames(kinds: Kinds, r: Record): seq<string> {
    if r.kid in kinds then kinds[r.kid].fields
    else seq(r.n, i requires 0 <= i < r.n => "f" + Digits(i))
  }

  /** `dict(zip(fields, vals))` of the first `n` pairs; the last value of a repeated name wins. */
  function Zip(fields: seq<string>, vals: seq<Value>, n: nat): map<string, Value>
    requires n <= |fields| && n <= |vals|
  {
    if n == 0 then map[] else Zip(fields, vals, n - 1)[fields[n - 1] := vals[n - 1]]
  }

  function Fewer(a: nat, b: nat): (n: nat)
    ensures n <= a && n <= b
  {
    if a <= b then a else b
  }

  function RowOf(kinds: Kinds, float: Float, origin: Origin, r: Record): Row
    requires Encodable(r)
  {
    var fields, vals := FieldNames(kinds, r), Vals(float, r);
    Row(Zip(fields, vals, Fewer(|fields|, |vals|)), map[], origin)
  }

  /** The rows of one kind, in file order. */
  function RowsOf(kinds: Kinds, float: Float, origin: Origin, recs: seq<Record>, name: string): seq<Row>
    requires AllEncodable(recs)
  {
    if recs == [] then []
    else
      var rows, r := RowsOf(kinds, float, origin, recs[..|recs| - 1], name), recs[|recs| - 1];
      if KindName(kinds, r.kid) == name then rows + [RowOf(kinds, float, origin, r)] else rows
  }

  ghost predicate IsTable(kinds: Kinds, float: Float, origin: Origin, recs: seq<Record>, out: Rows)
    requires AllEncodable(recs)
  {
    forall name :: RowsOf(kinds, float, origin, recs, name) == if name in out then out[name] else []
  }

  // ---- what a row holds ----

  /** Value `i` is the last under its name among the first `n`. */
  ghost predicate LastUnder(fields: seq<string>, n: nat, i: nat)
    requires n <= |fields|
  {
    i < n && forall j :: i < j < n ==> fields[j] != fields[i]
  }

  /** A row has the names of the first `n` fields, each with the last value under it. */
  ghost predicate Holds(row: map<string, Value>, fields: seq<string>, vals: seq<Value>, n: nat)
    requires n <= |fields| && n <= |vals|
  {
    && (forall f :: f in row <==> f in fields[..n])
    && forall i: nat :: LastUnder(fields, n, i) ==> row[fields[i]] == vals[i]
  }

  lemma LastUnderFewer(fields: seq<string>, n: nat, i: nat)
    requires 0 < n <= |fields| && LastUnder(fields, n, i) && i != n - 1
    ensures LastUnder(fields, n - 1, i) && fields[i] != fields[n - 1]
  {
  }

  lemma {:induction false} ZipHolds(fields: seq<string>, vals: seq<Value>, n: nat)
    requires n <= |fields| && n <= |vals|
    ensures Holds(Zip(fields, vals, n), fields, vals, n)
  {
    if n > 0 {
      ZipHolds(fields, vals, n - 1);
      ZipStep(Zip(fields, vals, n - 1), fields, vals, n);
    }
  }

  lemma ZipStep(row: map<string, Value>, fields: seq<string>, vals: seq<Value>, n: nat)
    requires 0 < n <= |fields| && n <= |vals| && Holds(row, fields, vals, n - 1)
    ensures Holds(row[fields[n - 1] := vals[n - 1]], fields, vals, n)
  {
    var name, all := fields[n - 1], row[fields[n - 1] := vals[n - 1]];
    assert fields[..n] == fields[..n - 1] + [name];
    assert forall f :: f in all <==> f in fields[..n];
    forall i: nat | LastUnder(fields, n, i)
      ensures fields[i] in all && all[fields[i]] == vals[i]
    {
      assert fields[..n][i] == fields[i];
      if i != n - 1 {
        LastUnderFewer(fields, n, i);
      }
    }
  }

  /** A row of a known kind holds under every field name its value, as many as there are of both; one of an
      unknown kind holds value `i` under `f<i>`. */
  ghost predicate IsRow(kinds: Kinds, float: Float, origin: Origin, r: Record, row: Row)
    requires Encodable(r)
  {
    var names := if r.kid in kinds then kinds[r.kid].fields else seq(r.n, i requires 0 <= i < r.n => "f" + Digits(i));
    var n := if |names| <= r.n then |names| else r.n;
    && row.origin == origin && row.texts == map[]
    && (forall f :: f in row.fields <==> f in names[..n])
    && forall i: nat :: LastUnder(names, n, i) ==> row.fields[names[i]] == float(r.payload[8 * i..8 * i + 8])
  }

  lemma RowIs(kinds: Kinds, float: Float, origin: Origin, r: Record)
    requires Encodable(r)
    ensures IsRow(kinds, float, origin, r, RowOf(kinds, float, origin, r))
  {
    var fields, vals := FieldNames(kinds, r), Vals(float, r);
    ZipHolds(fields, vals, Fewer(|fields|, |vals|));
  }

  ghost predicate IsKind(kinds: Kinds, r: Record, name: string) {
    name == if r.kid in kinds then kinds[r.kid].name else "kind" + Digits(r.kid)
  }

  /** `at` are the records of kind `name`, in file order. */
  ghost predicate OfKind(kinds: Kinds, recs: seq<Record>, name: string, at: seq<nat>) {
    && Increasing(at) && (forall j :: 0 <= j < |at| ==> at[j] < |recs|)
    && forall i :: 0 <= i < |recs| ==> (i in at <==> IsKind(kinds, recs[i], name))
  }

  /** The rows of kind `name` are those of its records, in file order. */
  ghost predicate RowsAt(kinds: Kinds, float: Float, origin: Origin, recs: seq<Record>, name: string, rows: seq<Row>,
                         at: seq<nat>)
    requires AllEncodable(recs)
  {
    && OfKind(kinds, recs, name, at) && |at| == |rows|
    && forall j :: 0 <= j < |at| ==> IsRow(kinds, float, origin, recs[at[j]], rows[j])
  }

  lemma OneMoreIndex(at: seq<nat>, n: nat)
    requires Increasing(at) && forall j :: 0 <= j < |at| ==> at[j] < n
    ensures Increasing(at + [n]) && (forall j :: 0 <= j < |at + [n]| ==> (at + [n])[j] < n + 1)
    ensures n !in at && forall i :: i in at + [n] <==> i in at || i == n
  {
  }

  lemma OneMoreOfKind(kinds: Kinds, recs: seq<Record>, r: Record, name: string, at: seq<nat>)
    requires OfKind(kinds, recs, name, at)
    ensures IsKind(kinds, r, name) ==> OfKind(kinds, recs + [r], name, at + [|recs|])
    ensures !IsKind(kinds, r, name) ==> OfKind(kinds, recs + [r], name, at)
  {
    var all := recs + [r];
    OneMoreIndex(at, |recs|);
    forall i | 0 <= i < |recs|
      ensures i in at <==> IsKind(kinds, all[i], name)
    {
      assert all[i] == recs[i];
    }
  }

  /** `rows` are the rows of the records at `at`. */
  ghost predicate RowsFrom(kinds: Kinds, float: Float, origin: Origin, recs: seq<Record>, rows: seq<Row>, at: seq<nat>)
    requires AllEncodable(recs)
  {
    |at| == |rows| &&
    forall j :: 0 <= j < |at| ==> at[j] < |recs| && rows[j] == RowOf(kinds, float, origin, recs[at[j]])
  }

  lemma OneMoreRow(kinds: Kinds, float: Float, origin: Origin, recs: seq<Record>, r: Record, rows: seq<Row>,
                   at: seq<nat>)
    requires AllEncodable(recs) && Encodable(r) && RowsFrom(kinds, float, origin, recs, rows, at)
    ensures RowsFrom(kinds, float, origin, recs + [r], rows, at)
    ensures RowsFrom(kinds, float, origin, recs + [r], rows + [RowOf(kinds, float, origin, r)], at + [|recs|])
  {
    var all := recs + [r];
    assert forall i :: 0 <= i < |recs| ==> all[i] == recs[i];
  }

  lemma RowsOfMore(kinds: Kinds, float: Float, origin: Origin, recs: seq<Record>, r: Record, name: string)
    requires AllEncodable(recs) && Encodable(r)
    ensures AllEncodable(recs + [r])
    ensures var rows := RowsOf(kinds, float, origin, recs, name);
            RowsOf(kinds, float, origin, recs + [r], name) ==
            if IsKind(kinds, r, name) then rows + [RowOf(kinds, float, origin, r)] else rows
  {
    assert (recs + [r])[..|recs|] == recs;
  }

  ghost predicate RowsOfKind(kinds: Kinds, float: Float, origin: Origin, recs: seq<Record>, name: string, at: seq<nat>)
    requires AllEncodable(recs)
  {
    OfKind(kinds, recs, name, at) && RowsFrom(kinds, float, origin, recs, RowsOf(kinds, float, origin, recs, name), at)
  }

  lemma RowsStep(kinds: Kinds, float: Float, origin: Origin, recs: seq<Record>, r: Record, name: string, at: seq<nat>)
    returns (at': seq<nat>)
    requires AllEncodable(recs) && Encodable(r) && RowsOfKind(kinds, float, origin, recs, name, at)
    ensures AllEncodable(recs + [r]) && RowsOfKind(kinds, float, origin, recs + [r], name, at')
  {
    OneMoreOfKind(kinds, recs, r, name, at);
    OneMoreRow(kinds, float, origin, recs, r, RowsOf(kinds, float, origin, recs, name), at);
    RowsOfMore(kinds, float, origin, recs, r, name);
    at' := if IsKind(kinds, r, name) then at + [|recs|] else at;
  }

  lemma {:induction false} RowsAre(kinds: Kinds, float: Float, origin: Origin, recs: seq<Record>, name: string, n: nat)
    returns (at: seq<nat>)
    requires AllEncodable(recs) && n <= |recs|
    ensures RowsOfKind(kinds, float, origin, recs[..n], name, at)
  {
    if n == 0 {
      at := [];
    } else {
      at := RowsAre(kinds, float, origin, recs, name, n - 1);
      at := RowsStep(kinds, float, origin, recs[..n - 1], recs[n - 1], name, at);
      assert recs[..n] == recs[..n - 1] + [recs[n - 1]];
    }
  }

  lemma RowsAreAt(kinds: Kinds, float: Float, origin: Origin, recs: seq<Record>, name: string)
    returns (at: seq<nat>)
    requires AllEncodable(recs)
    ensures RowsAt(kinds, float, origin, recs, name, RowsOf(kinds, float, origin, recs, name), at)
  {
    at := RowsAre(kinds, float, origin, recs, name, |recs|);
    assert recs[..|recs|] == recs;
    forall j | 0 <= j < |at|
      ensures IsRow(kinds, float, origin, recs[at[j]], RowOf(kinds, float, origin, recs[at[j]]))
    {
      RowIs(kinds, float, origin, recs[at[j]]);
    }
  }

  // ---- texts ----

  const UNKNOWN: seq<Byte> := [0x3F]

  /** The fields of a kind that hold string ids. */
  function TextFields(kind: string): seq<string> {
    if kind == "knob" then ["name", "value"]
    else if kind == "dev" then ["name", "device", "stream"]
    else if kind == "step_dev" || kind == "cal" then ["device"]
    else []
  }

  const TEXT_KINDS: seq<string> := ["knob", "dev", "step_dev", "cal"]

  /** `strings.get(int(v), '?') if v == v else '?'`; `int` raises on an infinity. */
  function TextOf(strings: map<int, seq<Byte>>, fields: map<string, Value>, field: string): Option<seq<Byte>> {
    if field !in fields || fields[field].NaN? then Some(UNKNOWN)
    else
      match Int(fields[field])
      case None => None
      case Some(id) => Some(if id in strings then strings[id] else UNKNOWN)
  }

  predicate Readable(strings: map<int, seq<Byte>>, row: Row, fields: seq<string>) {
    forall i :: 0 <= i < |fields| ==> TextOf(strings, row.fields, fields[i]).Some?
  }

  /** `row` with the texts of the first `n` fields. */
  function WithTexts(strings: map<int, seq<Byte>>, row: Row, fields: seq<string>, n: nat): (row': Row)
    requires n <= |fields| && Readable(strings, row, fields)
    ensures row'.fields == row.fields && row'.origin == row.origin
  {
    if n == 0 then row
    else
      var before := WithTexts(strings, row, fields, n - 1);
      before.(texts := before.texts[fields[n - 1] + "_s" := TextOf(strings, row.fields, fields[n - 1]).value])
  }

  ghost predicate AllReadable(strings: map<int, seq<Byte>>, rows: seq<Row>, fields: seq<string>) {
    forall i :: 0 <= i < |rows| ==> Readable(strings, rows[i], fields)
  }

  /** Every row of a kind has the texts of its string fields, looked up in one table. */
  ghost predicate Looked(strings: map<int, seq<Byte>>, fields: seq<string>, rows: seq<Row>, rows': seq<Row>) {
    && |rows'| == |rows| && AllReadable(strings, rows, fields)
    && forall i :: 0 <= i < |rows| ==> rows'[i] == WithTexts(strings, rows[i], fields, |fields|)
  }

  method LookUpRow(strings: map<int, seq<Byte>>, row: Row, fields: seq<string>) returns (row': Row, ok: bool)
    ensures ok <==> Readable(strings, row, fields)
    ensures ok ==> row' == WithTexts(strings, row, fields, |fields|)
  {
    ok := forall i :: 0 <= i < |fields| ==> TextOf(strings, row.fields, fields[i]).Some?;
    row' := row;
    if !ok {
      return;
    }
    for k := 0 to |fields|
      invariant row' == WithTexts(strings, row, fields, k)
    {
      var text := TextOf(strings, row'.fields, fields[k]);
      row' := row'.(texts := row'.texts[fields[k] + "_s" := text.value]);
    }
  }

  method LookUpRows(strings: map<int, seq<Byte>>, rows: seq<Row>, fields: seq<string>)
    returns (rows': seq<Row>, ok: bool)
    ensures ok <==> AllReadable(strings, rows, fields)
    ensures ok ==> Looked(strings, fields, rows, rows')
  {
    rows', ok := [], true;
    for i := 0 to |rows|
      invariant ok && |rows'| == i
      invariant forall j :: 0 <= j < i ==>
                  Readable(strings, rows[j], fields) && rows'[j] == WithTexts(strings, rows[j], fields, |fields|)
    {
      var row;
      row, ok := LookUpRow(strings, rows[i], fields);
      if !ok {
        return;
      }
      rows' := rows' + [row];
    }
  }

  /** The rows of every kind with their texts; the first `n` text kinds have been done. */
  ghost predicate LookedUp(strings: map<int, seq<Byte>>, out: Rows, out': Rows, n: nat)
    requires n <= |TEXT_KINDS|
  {
    && out'.Keys == out.Keys
    && (forall k :: 0 <= k < n && TEXT_KINDS[k] in out ==>
          Looked(strings, TextFields(TEXT_KINDS[k]), out[TEXT_KINDS[k]], out'[TEXT_KINDS[k]]))
    && (forall name :: name in out && name !in TEXT_KINDS[..n] ==> out'[name] == out[name])
  }

  /** No id field of a text kind holds an infinity. */
  ghost predicate Resolvable(strings: map<int, seq<Byte>>, out: Rows) {
    forall k :: 0 <= k < |TEXT_KINDS| && TEXT_KINDS[k] in out ==>
      AllReadable(strings, out[TEXT_KINDS[k]], TextFields(TEXT_KINDS[k]))
  }

  lemma LookedUpStep(strings: map<int, seq<Byte>>, out: Rows, out': Rows, n: nat, rows: seq<Row>)
    requires n < |TEXT_KINDS| && LookedUp(strings, out, out', n) && TEXT_KINDS[n] in out
    requires Looked(strings, TextFields(TEXT_KINDS[n]), out[TEXT_KINDS[n]], rows)
    ensures LookedUp(strings, out, out'[TEXT_KINDS[n] := rows], n + 1)
  {
    var done := out'[TEXT_KINDS[n] := rows];
    assert TEXT_KINDS[..n + 1] == TEXT_KINDS[..n] + [TEXT_KINDS[n]];
    forall k | 0 <= k < n + 1 && TEXT_KINDS[k] in out
      ensures Looked(strings, TextFields(TEXT_KINDS[k]), out[TEXT_KINDS[k]], done[TEXT_KINDS[k]])
    {
    }
  }

  method LookUp(strings: map<int, seq<Byte>>, out: Rows) returns (out': Rows, ok: bool)
    ensures ok <==> Resolvable(strings, out)
    ensures ok ==> LookedUp(strings, out, out', |TEXT_KINDS|)
  {
    out', ok := out, true;
    for k := 0 to |TEXT_KINDS|
      invariant ok && LookedUp(strings, out, out', k)
    {
      var kind := TEXT_KINDS[k];
      if kind in out {
        var rows;
        assert kind !in TEXT_KINDS[..k];
        rows, ok := LookUpRows(strings, out'[kind], TextFields(kind));
        if !ok {
          return;
        }
        LookedUpStep(strings, out, out', k, rows);
        out' := out'[kind := rows];
      } else {
        assert TEXT_KINDS[..k + 1] == TEXT_KINDS[..k] + [kind];
      }
    }
  }

  // ---- the whole file ----

  /** The table has the rows of every kind, and no others. */
  ghost predicate HasRows(kinds: Kinds, float: Float, origin: Origin, recs: seq<Record>, out: Rows)
    requires AllEncodable(recs)
  {
    forall name :: HasRowsOf(kinds, float, origin, recs, out, name)
  }

  ghost predicate HasRowsOf(kinds: Kinds, float: Float, origin: Origin, recs: seq<Record>, out: Rows, name: string)
    requires AllEncodable(recs)
  {
    var rows := if name in out then out[name] else [];
    exists at :: RowsAt(kinds, float, origin, recs, name, rows, at)
  }

  lemma TableHasRows(kinds: Kinds, float: Float, origin: Origin, recs: seq<Record>, out: Rows)
    requires AllEncodable(recs) && IsTable(kinds, float, origin, recs, out)
    ensures HasRows(kinds, float, origin, recs, out)
  {
    forall name
      ensures HasRowsOf(kinds, float, origin, recs, out, name)
    {
      var rows := RowsOf(kinds, float, origin, recs, name);
      var at := RowsAreAt(kinds, float, origin, recs, name);
      assert RowsAt(kinds, float, origin, recs, name, rows, at);
    }
  }

  method AddRow(out: Rows, name: string, row: Row) returns (out': Rows)
    ensures out' == out[name := (if name in out then out[name] else []) + [row]]
  {
    out' := out[name := (if name in out then out[name] else []) + [row]];
  }

  lemma TableStep(kinds: Kinds, float: Float, origin: Origin, recs: seq<Record>, i: nat, out: Rows)
    requires i < |recs| && AllEncodable(recs) && IsTable(kinds, float, origin, recs[..i], out)
    ensures var name := KindName(kinds, recs[i].kid);
            IsTable(kinds, float, origin, recs[..i + 1],
                    out[name := (if name in out then out[name] else []) + [RowOf(kinds, float, origin, recs[i])]])
  {
    assert recs[..i + 1][..i] == recs[..i];
    var before := recs[..i];
    forall name
      ensures RowsOf(kinds, float, origin, recs[..i + 1], name) ==
              if KindName(kinds, recs[i].kid) == name
              then RowsOf(kinds, float, origin, before, name) + [RowOf(kinds, float, origin, recs[i])]
              else RowsOf(kinds, float, origin, before, name)
    {
    }
  }

  method Tabulate(kinds: Kinds, float: Float, origin: Origin, recs: seq<Record>) returns (out: Rows)
    requires AllEncodable(recs)
    ensures IsTable(kinds, float, origin, recs, out) && forall name :: name in out ==> out[name] != []
  {
    out := map[];
    for i := 0 to |recs|
      invariant IsTable(kinds, float, origin, recs[..i], out) && forall name :: name in out ==> out[name] != []
    {
      TableStep(kinds, float, origin, recs, i, out);
      out := AddRow(out, KindName(kinds, recs[i].kid), RowOf(kinds, float, origin, recs[i]));
    }
    assert recs[..|recs|] == recs;
  }

  /** `read_file`, past the header: it fails when a string record or a string id is no number, and
      otherwise returns every kind's records in file order; every text is looked up in the table the
      WHOLE file leaves, so a string may be defined after its use. */
  method ReadFile(body: seq<Byte>, kinds: Kinds, float: Float, origin: Origin, table: map<int, seq<Byte>>)
    returns (out: Rows, strings: map<int, seq<Byte>>, ok: bool, ghost plain: Rows, ghost reading: Reading,
             ghost at: seq<nat>)
    ensures AllEncodable(Parse(body)) && ReadsAs(kinds, float, Parse(body), table, reading, at)
    ensures AllEncodable(reading.out) && HasRows(kinds, float, origin, reading.out, plain)
    ensures ok <==> reading.ok && AllFinite(plain)
    ensures ok ==> strings == reading.strings && TextsAre(strings, plain, out)
    ensures && reading == ReadBytes(kinds, float, body, table)
            && AllEncodable(reading.out) && IsTable(kinds, float, origin, reading.out, plain)
            && (ok <==> reading.ok && Resolvable(reading.strings, plain))
            && (ok ==> strings == reading.strings && LookedUp(strings, plain, out, |TEXT_KINDS|))
  {
    ParseEncodable(body);
    ReadAllEncodable(kinds, float, Parse(body), table);
    var recs;
    recs, strings, ok, at := ReadRecords(body, kinds, float, table);
    reading := Reading(recs, strings, ok);
    var rows := Tabulate(kinds, float, origin, recs);
    plain, out := rows, map[];
    TableHasRows(kinds, float, origin, recs, plain);
    ResolvableIff(strings, plain);
    if ok {
      out, ok := LookUp(strings, rows);
      if ok {
        TextsLookedUp(strings, plain, out);
      }
    }
  }

  /** `int(v)` for a number. */
  ghost predicate Truncates(x: real, k: int) {
    if x >= 0.0 then k as real <= x < k as real + 1.0 else k as real - 1.0 < x <= k as real
  }

  lemma IntTruncates(x: real)
    ensures Int(Num(x)).Some? && Truncates(x, Int(Num(x)).value)
  {
  }

  /** The text of a field that is missing, not measured or unknown is `?`; else what the table says. */
  ghost predicate IsText(strings: map<int, seq<Byte>>, row: Row, field: string, text: seq<Byte>) {
    if field !in row.fields || row.fields[field].NaN? then text == [0x3F]
    else
      row.fields[field].Num? &&
      exists k :: Truncates(row.fields[field].x, k) && text == if k in strings then strings[k] else [0x3F]
  }

  lemma TextOfIs(strings: map<int, seq<Byte>>, row: Row, field: string)
    requires TextOf(strings, row.fields, field).Some?
    ensures IsText(strings, row, field, TextOf(strings, row.fields, field).value)
  {
    if field in row.fields && !row.fields[field].NaN? {
      IntTruncates(row.fields[field].x);
    }
  }

  /** A looked-up row is the plain one with the texts of its fields. */
  ghost predicate HasText(strings: map<int, seq<Byte>>, row: Row, row': Row, field: string) {
    && row'.fields == row.fields && row'.origin == row.origin
    && field + "_s" in row'.texts && IsText(strings, row, field, row'.texts[field + "_s"])
  }

  ghost predicate AllHaveText(strings: map<int, seq<Byte>>, out: Rows, out': Rows, kind: string, field: string) {
    kind in out ==> kind in out' && |out'[kind]| == |out[kind]| &&
                    forall i :: 0 <= i < |out[kind]| ==> HasText(strings, out[kind][i], out'[kind][i], field)
  }

  lemma LookedUpHasText(strings: map<int, seq<Byte>>, out: Rows, out': Rows, k: nat, i: nat)
    requires LookedUp(strings, out, out', |TEXT_KINDS|) && k < |TEXT_KINDS| && i < |TextFields(TEXT_KINDS[k])|
    ensures AllHaveText(strings, out, out', TEXT_KINDS[k], TextFields(TEXT_KINDS[k])[i])
  {
    var kind, fields := TEXT_KINDS[k], TextFields(TEXT_KINDS[k]);
    if kind in out {
      assert Looked(strings, fields, out[kind], out'[kind]);
      forall j | 0 <= j < |out[kind]|
        ensures HasText(strings, out[kind][j], out'[kind][j], fields[i])
      {
        TextIs(strings, out[kind][j], fields, |fields|, i);
        TextOfIs(strings, out[kind][j], fields[i]);
      }
    }
  }

  /** The texts that are looked up; rows of other kinds stay as they are. */
  ghost predicate TextsAre(strings: map<int, seq<Byte>>, out: Rows, out': Rows) {
    && AllHaveText(strings, out, out', "knob", "name") && AllHaveText(strings, out, out', "knob", "value")
    && AllHaveText(strings, out, out', "dev", "name") && AllHaveText(strings, out, out', "dev", "device")
    && AllHaveText(strings, out, out', "dev", "stream")
    && AllHaveText(strings, out, out', "step_dev", "device") && AllHaveText(strings, out, out', "cal", "device")
    && out'.Keys == out.Keys
    && forall kind :: kind in out && kind !in ["knob", "dev", "step_dev", "cal"] ==> out'[kind] == out[kind]
  }

  lemma TextsLookedUp(strings: map<int, seq<Byte>>, out: Rows, out': Rows)
    requires LookedUp(strings, out, out', |TEXT_KINDS|)
    ensures TextsAre(strings, out, out')
  {
    LookedUpHasText(strings, out, out', 0, 0);
    LookedUpHasText(strings, out, out', 0, 1);
    LookedUpHasText(strings, out, out', 1, 0);
    LookedUpHasText(strings, out, out', 1, 1);
    LookedUpHasText(strings, out, out', 1, 2);
    LookedUpHasText(strings, out, out', 2, 0);
    LookedUpHasText(strings, out, out', 3, 0);
    assert TEXT_KINDS[..|TEXT_KINDS|] == TEXT_KINDS;
  }

  /** No row of a kind holds an infinity under a name. */
  ghost predicate Finite(out: Rows, kind: string, field: string) {
    kind in out ==> forall i :: 0 <= i < |out[kind]| && field in out[kind][i].fields ==>
      out[kind][i].fields[field] != PosInf && out[kind][i].fields[field] != NegInf
  }

  ghost predicate AllFinite(out: Rows) {
    && Finite(out, "knob", "name") && Finite(out, "knob", "value") && Finite(out, "dev", "name")
    && Finite(out, "dev", "device") && Finite(out, "dev", "stream") && Finite(out, "step_dev", "device")
    && Finite(out, "cal", "device")
  }

  lemma ReadableIff(strings: map<int, seq<Byte>>, rows: seq<Row>, fields: seq<string>)
    ensures AllReadable(strings, rows, fields) <==>
            forall i, j :: 0 <= i < |rows| && 0 <= j < |fields| && fields[j] in rows[i].fields ==>
              rows[i].fields[fields[j]] != PosInf && rows[i].fields[fields[j]] != NegInf
  {
    forall i, j | 0 <= i < |rows| && 0 <= j < |fields|
      ensures TextOf(strings, rows[i].fields, fields[j]).Some? <==>
              (fields[j] in rows[i].fields ==>
               rows[i].fields[fields[j]] != PosInf && rows[i].fields[fields[j]] != NegInf)
    {
    }
    if AllReadable(strings, rows, fields) {
      forall i | 0 <= i < |rows|
        ensures Readable(strings, rows[i], fields)
      {
      }
    }
  }

  lemma KindReadable(strings: map<int, seq<Byte>>, out: Rows, kind: string)
    ensures kind in out ==> (AllReadable(strings, out[kind], TextFields(kind)) <==>
                             forall j :: 0 <= j < |TextFields(kind)| ==> Finite(out, kind, TextFields(kind)[j]))
  {
    if kind in out {
      ReadableIff(strings, out[kind], TextFields(kind));
    }
  }

  lemma ResolvableIff(strings: map<int, seq<Byte>>, out: Rows)
    ensures Resolvable(strings, out) <==> AllFinite(out)
  {
    forall k | 0 <= k < |TEXT_KINDS|
      ensures TEXT_KINDS[k] in out ==>
                (AllReadable(strings, out[TEXT_KINDS[k]], TextFields(TEXT_KINDS[k])) <==>
                 forall j :: 0 <= j < |TextFields(TEXT_KINDS[k])| ==>
                   Finite(out, TEXT_KINDS[k], TextFields(TEXT_KINDS[k])[j]))
    {
      KindReadable(strings, out, TEXT_KINDS[k]);
    }
    assert TextFields(TEXT_KINDS[0])[0] == "name" && TextFields(TEXT_KINDS[0])[1] == "value";
    assert TextFields(TEXT_KINDS[1])[0] == "name" && TextFields(TEXT_KINDS[1])[1] == "device";
    assert TextFields(TEXT_KINDS[1])[2] == "stream";
    assert TextFields(TEXT_KINDS[2])[0] == "device" && TextFields(TEXT_KINDS[3])[0] == "device";
  }

  /** A looked-up text is what the table says of the id, and `?` for an id that is missing or unknown. */
  lemma {:induction false} TextIs(strings: map<int, seq<Byte>>, row: Row, fields: seq<string>, n: nat, i: nat)
    requires i < n <= |fields| && Readable(strings, row, fields) && Distinct(fields)
    ensures var row' := WithTexts(strings, row, fields, n);
            fields[i] + "_s" in row'.texts &&
                Some(row'.texts[fields[i] + "_s"]) == TextOf(strings, row.fields, fields[i])
  {
    if i < n - 1 {
      TextIs(strings, row, fields, n - 1, i);
      var a, b := fields[i] + "_s", fields[n - 1] + "_s";
      assert a[..|fields[i]|] == fields[i] && b[..|fields[n - 1]|] == fields[n - 1];
      assert a == b ==> |fields[i]| == |fields[n - 1]|;
    }
  }
}
