/** GPT-2 byte encoding: every raw byte becomes one printable character, written in UTF-8
    (scripts/gen_joyai_pretok_vectors.py, crates/v4flash-core/src/tokenizer.rs). */
module ByteEncoding {

  newtype Byte = b: int | 0 <= b < 256
  type Bytes = seq<Byte>

  const SPACE: Byte := 0x20
  const NEWLINE: Byte := 0x0A

  predicate Printable(b: int) {
    33 <= b <= 126 || 161 <= b <= 172 || b >= 174
  }

  /** Number of bytes below `b` that are not printable. */
  function Gaps(b: nat): (n: nat)
    ensures n <= b
  {
    if b == 0 then 0 else Gaps(b - 1) + if Printable(b - 1) then 0 else 1
  }

  function Codepoint(b: Byte): (cp: nat)
    ensures cp < 512
  {
    if Printable(b as int) then b as nat else 256 + Gaps(b as nat)
  }

  /** `_gpt2_table`. */
  method Gpt2Table() returns (tbl: seq<nat>)
    ensures |tbl| == 256 && forall b: Byte :: tbl[b] == Codepoint(b)
  {
    tbl := [];
    var n := 0;
    for b := 0 to 256
      invariant |tbl| == b && n == Gaps(b)
      invariant forall x: int :: 0 <= x < b ==> tbl[x] == Codepoint(x as Byte)
    {
      if Printable(b) {
        tbl := tbl + [b];
      } else {
        tbl := tbl + [256 + n];
        n := n + 1;
      }
    }
  }

  /** `gpt2_byte_to_codepoint` recounts the gaps for every byte. */
  method ByteToCodepoint(b: Byte) returns (cp: nat)
    ensures cp == Codepoint(b)
  {
    if Printable(b as int) {
      return b as nat;
    }
    var n := 0;
    for x := 0 to 256
      invariant x <= b as int && n == Gaps(x)
    {
      if Printable(x) {
        continue;
      }
      if x == b as int {
        return 256 + n;
      }
      n := n + 1;
    }
    assert false; // every byte that is not printable is met by the loop
  }

  lemma {:induction false} GapsGrow(a: nat, b: nat)
    requires a <= b
    ensures Gaps(a) <= Gaps(b)
    decreases b
  {
    if a < b {
      GapsGrow(a, b - 1);
    }
  }

  /** Up to the first byte of a stretch the gaps are `n`; in a stretch of printable bytes they stay so, in one of
      others they grow. */
  lemma {:induction false} GapsStay(a: nat, b: nat)
    requires a <= b && forall x :: a <= x < b ==> Printable(x)
    ensures Gaps(b) == Gaps(a)
    decreases b
  {
    if a < b {
      GapsStay(a, b - 1);
    }
  }

  lemma {:induction false} GapsAll(a: nat, b: nat)
    requires a <= b && forall x :: a <= x < b ==> !Printable(x)
    ensures Gaps(b) == Gaps(a) + (b - a)
    decreases b
  {
    if a < b {
      GapsAll(a, b - 1);
    }
  }

  /** Below the last stretch of bytes that are not printable. */
  lemma GapsBelow(b: nat)
    requires b <= 161
    ensures Gaps(b) == if b <= 33 then b else if b <= 127 then 33 else b - 94
  {
    if b <= 33 {
      GapsAll(0, b);
    } else if b <= 127 {
      GapsAll(0, 33);
      GapsStay(33, b);
    } else {
      GapsBelow(127);
      GapsAll(127, b);
    }
  }

  /** The characters: of the 68 bytes that are not printable, 0 to 32, 127 to 160 and 173, those from U+0100 on. */
  lemma CodepointIs(b: Byte)
    ensures Codepoint(b) == if b <= 32 then 256 + b as nat
                            else if b <= 126 then b as nat
                            else if b <= 160 then 289 + (b as nat - 127)
                            else if b == 173 then 323 else b as nat
  {
    if b <= 160 {
      GapsBelow(b as nat);
    } else if b == 173 {
      GapsBelow(161);
      GapsStay(161, 173);
    }
  }

  /** In UTF-8: one byte below 128, and two above. */
  lemma CharacterIs(b: Byte)
    ensures var cp := Codepoint(b);
            Character(b) == if cp < 128 then [cp as Byte] else [(192 + cp / 64) as Byte, (128 + cp % 64) as Byte]
  {
  }

  /** No two bytes share a character. */
  lemma CodepointInjective(a: Byte, b: Byte)
    requires Codepoint(a) == Codepoint(b)
    ensures a == b
  {
    if a < b && !Printable(a as int) {
      GapsGrow(a as nat + 1, b as nat);
    } else if b < a && !Printable(b as int) {
      GapsGrow(b as nat + 1, a as nat);
    }
  }

  /** `utf8_put`. */
  function Utf8(cp: nat): Bytes
    requires cp < 0x110000
  {
    if cp <= 0x7F then [cp as Byte]
    else if cp <= 0x7FF then [(0xC0 + cp / 64) as Byte, (0x80 + cp % 64) as Byte]
    else if cp <= 0xFFFF then [(0xE0 + cp / 4096) as Byte, (0x80 + cp / 64 % 64) as Byte, (0x80 + cp % 64) as Byte]
    else [(0xF0 + cp / 262144) as Byte, (0x80 + cp / 4096 % 64) as Byte,
          (0x80 + cp / 64 % 64) as Byte, (0x80 + cp % 64) as Byte]
  }

  /** `utf8_len_from_first_byte`. */
  function Utf8Len(c: Byte): nat {
    if c < 0x80 then 1
    else if 0xC0 <= c < 0xE0 then 2
    else if 0xE0 <= c < 0xF0 then 3
    else if 0xF0 <= c < 0xF8 then 4
    else 1
  }

  /** The character of one raw byte. */
  function Character(b: Byte): Bytes {
    Utf8(Codepoint(b))
  }

  function ByteEncode(raw: Bytes): Bytes {
    if raw == [] then [] else ByteEncode(raw[..|raw| - 1]) + Character(raw[|raw| - 1])
  }

  method ByteEncodeLoop(raw: Bytes) returns (out: Bytes)
    ensures out == ByteEncode(raw)
  {
    out := [];
    for i := 0 to |raw|
      invariant out == ByteEncode(raw[..i])
    {
      assert raw[..i + 1][..i] == raw[..i];
      var cp := ByteToCodepoint(raw[i]);
      out := out + Utf8(cp);
    }
    assert raw[..|raw|] == raw;
  }

  /** One symbol per character, cut by the length each first byte announces. */
  function Characters(enc: Bytes): (sym: seq<Bytes>) {
    if enc == [] then [] else
      var n := Utf8Len(enc[0]);
      if n < |enc| then [enc[..n]] + Characters(enc[n..]) else [enc]
  }

  /** A character announces its own length, is at most two bytes long and is never a blank. */
  lemma CharacterShape(b: Byte)
    ensures var c := Character(b);
            && 1 <= |c| <= 2 && Utf8Len(c[0]) == |c|
            && SPACE !in c && NEWLINE !in c
  {
    assert !Printable(SPACE as int) && !Printable(NEWLINE as int);
  }

  lemma CharacterInjective(a: Byte, b: Byte)
    requires Character(a) == Character(b)
    ensures a == b
  {
    CodepointInjectiveFromUtf8(Codepoint(a), Codepoint(b));
    CodepointInjective(a, b);
  }

  lemma CodepointInjectiveFromUtf8(a: nat, b: nat)
    requires a < 512 && b < 512 && Utf8(a) == Utf8(b)
    ensures a == b
  {
    if a > 0x7F {
      assert Utf8(a)[0] == Utf8(b)[0] && Utf8(a)[1] == Utf8(b)[1];
    } else {
      assert Utf8(a)[0] == Utf8(b)[0];
    }
  }

  lemma {:induction false} ByteEncodeConcat(a: Bytes, b: Bytes)
    ensures ByteEncode(a + b) == ByteEncode(a) + ByteEncode(b)
  {
    if b == [] {
      assert a + b == a;
    } else {
      var front := b[..|b| - 1];
      assert (a + b)[..|a + b| - 1] == a + front;
      ByteEncodeConcat(a, front);
    }
  }

  lemma {:induction false} EncodedHasNoBlank(raw: Bytes)
    ensures SPACE !in ByteEncode(raw) && NEWLINE !in ByteEncode(raw)
  {
    if raw != [] {
      EncodedHasNoBlank(raw[..|raw| - 1]);
      CharacterShape(raw[|raw| - 1]);
    }
  }

  /** Cutting an encoding into characters gives one symbol per raw byte, in order. */
  lemma {:induction false} OneSymbolPerByte(raw: Bytes)
    ensures |Characters(ByteEncode(raw))| == |raw|
    ensures forall i :: 0 <= i < |raw| ==> Characters(ByteEncode(raw))[i] == Character(raw[i])
  {
    if raw != [] {
      var c, rest := Character(raw[0]), raw[1..];
      FirstCharacter(raw);
      CharacterShape(raw[0]);
      OneSymbolPerByte(rest);
      CharactersHead(c, ByteEncode(rest));
    }
  }

  lemma FirstCharacter(raw: Bytes)
    requires raw != []
    ensures ByteEncode(raw) == Character(raw[0]) + ByteEncode(raw[1..])
  {
    assert raw == [raw[0]] + raw[1..];
    ByteEncodeConcat([raw[0]], raw[1..]);
    ByteEncodeOne(raw[0]);
  }

  lemma ByteEncodeOne(b: Byte)
    ensures ByteEncode([b]) == Character(b)
  {
    assert [b][..0] == [] && ByteEncode([]) == [];
  }

  lemma CharactersHead(c: Bytes, rest: Bytes)
    requires c != [] && Utf8Len(c[0]) == |c|
    ensures Characters(c + rest) == [c] + Characters(rest)
  {
    var enc := c + rest;
    assert enc[..|c|] == c && enc[|c|..] == rest;
    if rest == [] {
      assert enc == c;
    }
  }

  /** The encoding can be undone. */
  lemma ByteEncodeInjective(a: Bytes, b: Bytes)
    requires ByteEncode(a) == ByteEncode(b)
    ensures a == b
  {
    OneSymbolPerByte(a);
    OneSymbolPerByte(b);
    forall i | 0 <= i < |a|
      ensures a[i] == b[i]
    {
      CharacterInjective(a[i], b[i]);
    }
  }
}
