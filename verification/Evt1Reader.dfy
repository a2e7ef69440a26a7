/** The streaming reader of EVT1 traces (scripts/evt2perfetto.py, `records`). */
module Evt1Reader {
  import opened Prelude
  import opened ByteEncoding
  import opened Evt1
  import opened Evt1Window

  lemma PrependTwice(a: seq<Record>, b: seq<Record>, more: Reading)
    ensures Prepend(a, Prepend(b, more)) == Prepend(a + b, more)
  {
    Assoc(a, b, more.out);
  }

  lemma {:induction false} JoinSnoc(recs: seq<Record>, r: Record)
    requires AllEncodable(recs) && Encodable(r)
    ensures AllEncodable(recs + [r]) && Join(recs + [r]) == Join(recs) + Raw(r)
  {
    if recs == [] {
      assert recs + [r] == [r] && Join([]) == [];
      assert Join([r]) == Raw(r) + Join([]);
    } else {
      JoinSnoc(recs[1..], r);
      assert (recs + [r])[1..] == recs[1..] + [r];
      Assoc(Raw(recs[0]), Join(recs[1..]), Raw(r));
    }
  }

  datatype Status = Going | Stopped | Malformed

  /** What one record does to the reading. */
  datatype Effect = Effect(status: Status, kept: seq<Record>, strings: map<int, seq<Byte>>)

  function Visit(kinds: Kinds, float: Float, w: Window, r: Record, strings: map<int, seq<Byte>>): Effect
    requires Encodable(r)
  {
    var text := DecodeStr(Vals(float, r));
    if Decodes(kinds, w, r) && text.None? then Effect(Malformed, [], strings)
    else
      var strings' := if Decodes(kinds, w, r) then Define(strings, text.value) else strings;
      var t := Time(kinds, float, r);
      if Gt(t, w.stop) then Effect(Stopped, [], strings')
      else Effect(Going, if Le(w.lo, t) && Le(t, w.hi) then [r] else [], strings')
  }

  lemma WalkVisit(kinds: Kinds, float: Float, w: Window, data: seq<Byte>, rest: seq<Byte>, strings: map<int, seq<Byte>>)
    requires Complete(data)
    ensures var v := Visit(kinds, float, w, Head(data), strings);
            WalkBytes(kinds, float, w, data + rest, strings) ==
            if v.status == Going then Prepend(v.kept, WalkBytes(kinds, float, w, data[Size(data)..] + rest, v.strings))
            else Reading([], v.strings, v.status == Stopped)
  {
    ParseMore(data, rest);
    ParseEncodable(data + rest);
    ParseEncodable(data[Size(data)..] + rest);
    var recs := Parse(data + rest);
    assert recs[0] == Head(data) && recs[1..] == Parse(data[Size(data)..] + rest);
  }

  /** `all` is what has been delivered so far and what the bytes not yet read still give. */
  ghost predicate Owed(kinds: Kinds, float: Float, w: Window, all: Reading, status: Status, kept: seq<Record>,
                       strings: map<int, seq<Byte>>, left: seq<Byte>) {
    all == if status == Going then Prepend(kept, WalkBytes(kinds, float, w, left, strings))
           else Reading(kept, strings, status == Stopped)
  }

  lemma DrainStep(kinds: Kinds, float: Float, w: Window, all: Reading, kept: seq<Record>,
                  strings: map<int, seq<Byte>>, left: seq<Byte>, rest: seq<Byte>)
    requires Complete(left) && Owed(kinds, float, w, all, Going, kept, strings, left + rest)
    ensures var v := Visit(kinds, float, w, Head(left), strings);
            Owed(kinds, float, w, all, v.status, if v.kept == [] then kept else kept + v.kept, v.strings,
                 left[Size(left)..] + rest)
  {
    var v := Visit(kinds, float, w, Head(left), strings);
    WalkVisit(kinds, float, w, left, rest, strings);
    assert v.kept == [] ==> kept + v.kept == kept;
    PrependTwice(kept, v.kept, WalkBytes(kinds, float, w, left[Size(left)..] + rest, v.strings));
  }

  /** The bytes of a kept record follow those kept before. */
  lemma KeepRaw(kept: seq<Record>, left: seq<Byte>)
    requires AllEncodable(kept) && Complete(left)
    ensures AllEncodable(kept + [Head(left)]) && Join(kept + [Head(left)]) == Join(kept) + left[..Size(left)]
  {
    JoinSnoc(kept, Head(left));
    RawHead(left);
  }

  /** The body of the inner loop: one complete record. */
  method TakeRecord(kinds: Kinds, float: Float, w: Window, ghost all: Reading, kept: seq<Record>, raw: seq<Byte>,
                    strings: map<int, seq<Byte>>, left: seq<Byte>, ghost rest: seq<Byte>)
    returns (status: Status, kept': seq<Record>, raw': seq<Byte>, strings': map<int, seq<Byte>>)
    requires Complete(left) && Owed(kinds, float, w, all, Going, kept, strings, left + rest)
    requires AllEncodable(kept) && raw == Join(kept)
    ensures Owed(kinds, float, w, all, status, kept', strings', left[Size(left)..] + rest)
    ensures AllEncodable(kept') && raw' == Join(kept')
  {
    var v := Visit(kinds, float, w, Head(left), strings);
    DrainStep(kinds, float, w, all, kept, strings, left, rest);
    status, strings' := v.status, v.strings;
    if v.kept == [] {
      kept', raw' := kept, raw;
    } else {
      KeepRaw(kept, left);
      kept', raw' := kept + [Head(left)], raw + left[..Size(left)];
    }
  }

  /** The records that are complete in `data`, whatever follows it. */
  method Drain(kinds: Kinds, float: Float, w: Window, data: seq<Byte>, ghost rest: seq<Byte>,
               strings: map<int, seq<Byte>>)
    returns (status: Status, kept: seq<Record>, raw: seq<Byte>, strings': map<int, seq<Byte>>, left: seq<Byte>)
    ensures AllEncodable(kept) && raw == Join(kept)
    ensures Owed(kinds, float, w, WalkBytes(kinds, float, w, data + rest, strings), status, kept, strings', left + rest)
    ensures status == Going ==> !Complete(left)
  {
    status, kept, raw, strings', left := Going, [], [], strings, data;
    ghost var all := WalkBytes(kinds, float, w, data + rest, strings);
    while status == Going && Complete(left)
      invariant AllEncodable(kept) && raw == Join(kept)
      invariant Owed(kinds, float, w, all, status, kept, strings', left + rest)
      decreases |left|
    {
      var size := Size(left);
      status, kept, raw, strings' := TakeRecord(kinds, float, w, all, kept, raw, strings', left, rest);
      left := left[size..];
    }
  }

  lemma {:induction false} JoinConcat(a: seq<Record>, b: seq<Record>)
    requires AllEncodable(a) && AllEncodable(b)
    ensures AllEncodable(a + b) && Join(a + b) == Join(a) + Join(b)
  {
    if b == [] {
      assert a + b == a;
    } else {
      var n := |b| - 1;
      JoinConcat(a, b[..n]);
      JoinSnoc(a + b[..n], b[n]);
      JoinSnoc(b[..n], b[n]);
      assert a + b == a + b[..n] + [b[n]] && b == b[..n] + [b[n]];
      Assoc(Join(a), Join(b[..n]), Raw(b[n]));
    }
  }

  /** The loop of `records`, from the header on: however the file arrives in chunks, it delivers what the whole
      file holds. */
  method Stream(body: seq<Byte>, kinds: Kinds, float: Float, w: Window, strings: map<int, seq<Byte>>,
                chunks: nat -> nat)
    returns (out: seq<Record>, raw: seq<Byte>, strings': map<int, seq<Byte>>, ok: bool)
    requires forall k :: chunks(k) >= 1
    ensures Reading(out, strings', ok) == WalkBytes(kinds, float, w, body, strings)
    ensures AllEncodable(out) && raw == Join(out)
  {
    out, raw, strings', ok := [], [], strings, true;
    var buf, pos, k := [], 0, 0;
    assert buf + body[pos..] == body;
    while true
      invariant pos <= |body| && AllEncodable(out) && raw == Join(out) && ok
      invariant WalkBytes(kinds, float, w, body, strings) ==
                Prepend(out, WalkBytes(kinds, float, w, buf + body[pos..], strings'))
      decreases |body| - pos
    {
      var n := chunks(k);
      var next := if pos + n <= |body| then pos + n else |body|;
      var chunk := body[pos..next];
      assert body[pos..] == chunk + body[next..];
      Assoc(buf, chunk, body[next..]);
      var status, kept, bytes, left;
      status, kept, bytes, strings', left := Drain(kinds, float, w, buf + chunk, body[next..], strings');
      JoinConcat(out, kept);
      PrependTwice(out, kept, WalkBytes(kinds, float, w, left + body[next..], strings'));
      out, raw := out + kept, raw + bytes;
      if status != Going {
        ok := status == Stopped;
        return;
      }
      buf, pos, k := left, next, k + 1;
      if chunk == [] {
        assert left + body[next..] == left;
        return;
      }
    }
  }

  /** `records`: the records of the window, at the indices `at` of the file's records, with their bytes, and the
      texts defined by where the reader stops. */
  method Records(body: seq<Byte>, kinds: Kinds, float: Float, w: Window, strings: map<int, seq<Byte>>,
                 chunks: nat -> nat)
    returns (out: seq<Record>, raw: seq<Byte>, strings': map<int, seq<Byte>>, ok: bool, ghost at: seq<nat>)
    requires forall k :: chunks(k) >= 1
    ensures AllEncodable(Parse(body))
    ensures Delivers(kinds, float, w, Parse(body), strings, Reading(out, strings', ok), at)
    ensures Reading(out, strings', ok) == WalkBytes(kinds, float, w, body, strings)
    ensures AllEncodable(out) && raw == Join(out)
  {
    out, raw, strings', ok := Stream(body, kinds, float, w, strings, chunks);
    ParseEncodable(body);
    at := WalkDelivers(kinds, float, w, Parse(body), strings);
  }
}
