/** The trimmed golden-vector vocabularies (scripts/gen_tool_prompt_vectors.py,
    scripts/gen_joyai_pretok_vectors.py): dropping every merge and token that does not occur in
    the byte-encoded corpus changes no tokenization of the corpus. */
module VocabTrim {
  import opened Prelude
  import opened ByteEncoding
  import opened Bpe

  datatype Token = Token(id: int, text: Bytes)

  // ---- loading a vocabulary ----

  /** `token_to_id` of `from_sparse_parts`: the last entry of a text wins; an empty text or an id
      outside the vocabulary is skipped. */
  function IdTable(tokens: seq<Token>, size: nat): map<Bytes, int> {
    if tokens == [] then map[] else
      var t := tokens[|tokens| - 1];
      var ids := IdTable(tokens[..|tokens| - 1], size);
      if 0 <= t.id < size && t.text != [] then ids[t.text := t.id] else ids
  }

  /** `merge_rank`: the position in the list; the last of equal merges wins. */
  function RankTable(merges: seq<Bytes>): Ranks {
    if merges == [] then map[]
    else RankTable(merges[..|merges| - 1])[merges[|merges| - 1] := |merges| - 1]
  }

  predicate Listed(t: Token, size: nat) {
    0 <= t.id < size && t.text != []
  }

  /** `tokens` of `from_sparse_parts`: the text of every id, empty for an id not listed. */
  function TextTable(tokens: seq<Token>, size: nat): (texts: seq<Bytes>)
    ensures |texts| == size
  {
    if tokens == [] then seq(size, _ => []) else
      var t := tokens[|tokens| - 1];
      var texts := TextTable(tokens[..|tokens| - 1], size);
      if Listed(t, size) then texts[t.id := t.text] else texts
  }

  /** A vocabulary with what is looked up by name when it is loaded. */
  datatype BpeVocab = BpeVocab(vocab: Vocab, tokens: seq<Bytes>, bosId: Option<int>, eosId: Option<int>,
                               dsmlId: Option<int>)

  function LookupTokenId(ids: map<Bytes, int>, name: Bytes): Option<int> {
    if name in ids then Some(ids[name]) else None
  }

  function Ascii(s: string): Bytes {
    seq(|s|, i requires 0 <= i < |s| => if s[i] < 128 as char then s[i] as int as Byte else 0)
  }

  const BAR: Bytes := [0xEF, 0xBD, 0x9C]
  const BLOCK: Bytes := [0xE2, 0x96, 0x81]
  const BOS := Ascii("<") + BAR + Ascii("begin") + BLOCK + Ascii("of") + BLOCK + Ascii("sentence") + BAR + Ascii(">")
  const EOS := Ascii("<") + BAR + Ascii("end") + BLOCK + Ascii("of") + BLOCK + Ascii("sentence") + BAR + Ascii(">")
  const DSML := BAR + Ascii("DSML") + BAR

  /** `from_sparse_parts` on a token list and a merge list. */
  function Loaded(size: nat, tokens: seq<Token>, merges: seq<Bytes>): BpeVocab {
    var ids := IdTable(tokens, size);
    BpeVocab(Vocab(ids, RankTable(merges)), TextTable(tokens, size),
             LookupTokenId(ids, BOS), LookupTokenId(ids, EOS), LookupTokenId(ids, DSML))
  }

  /** `xs[i]` is the last entry that equals it. */
  ghost predicate LastOf<T>(xs: seq<T>, i: nat) {
    i < |xs| && forall j :: i < j < |xs| ==> xs[j] != xs[i]
  }

  /** A string is ranked exactly when it is a merge, by its last place in the list. */
  ghost predicate RanksAre(merges: seq<Bytes>, ranks: Ranks) {
    && (forall m :: m in ranks <==> m in merges)
    && (forall i: nat :: LastOf(merges, i) ==> ranks[merges[i]] == i)
  }

  /** No later token that counts has the text of token `i`. */
  ghost predicate LastText(tokens: seq<Token>, size: nat, i: nat) {
    && i < |tokens| && Counts(tokens[i], size)
    && forall j :: i < j < |tokens| && tokens[j].text == tokens[i].text ==> !Counts(tokens[j], size)
  }

  /** No later token that counts has the id of token `i`. */
  ghost predicate LastId(tokens: seq<Token>, size: nat, i: nat) {
    && i < |tokens| && Counts(tokens[i], size)
    && forall j :: i < j < |tokens| && tokens[j].id == tokens[i].id ==> !Counts(tokens[j], size)
  }

  /** An empty text counts for nothing, nor does an id outside the vocabulary. */
  ghost predicate Counts(t: Token, size: nat) {
    |t.text| > 0 && !(t.id < 0) && !(t.id >= size)
  }

  ghost predicate HasText(tokens: seq<Token>, size: nat, text: Bytes) {
    exists i :: 0 <= i < |tokens| && Counts(tokens[i], size) && tokens[i].text == text
  }

  ghost predicate HasId(tokens: seq<Token>, size: nat, id: int) {
    exists i :: 0 <= i < |tokens| && Counts(tokens[i], size) && tokens[i].id == id
  }

  /** Exactly the listed texts have an id, that of their last entry. */
  ghost predicate IdsAre(tokens: seq<Token>, size: nat, ids: map<Bytes, int>) {
    && (forall text :: text in ids <==> HasText(tokens, size, text))
    && (forall i: nat :: LastText(tokens, size, i) ==> tokens[i].text in ids && ids[tokens[i].text] == tokens[i].id)
  }

  /** Every listed id has the text of its last entry, every other id no text. */
  ghost predicate TextsAre(tokens: seq<Token>, size: nat, texts: seq<Bytes>) {
    && |texts| == size
    && (forall id :: 0 <= id < size && !HasId(tokens, size, id) ==> texts[id] == [])
    && (forall i: nat :: LastId(tokens, size, i) ==> texts[tokens[i].id] == tokens[i].text)
  }

  lemma {:induction false} RankTableIs(merges: seq<Bytes>)
    ensures RanksAre(merges, RankTable(merges))
  {
    if merges != [] {
      var front, last := merges[..|merges| - 1], merges[|merges| - 1];
      RankTableIs(front);
      assert forall m :: m in merges <==> m in front || m == last;
      forall i: nat | LastOf(merges, i)
        ensures RankTable(merges)[merges[i]] == i
      {
        if i < |front| {
          assert merges[|front|] != merges[i];
          assert LastOf(front, i) && front[i] == merges[i];
        }
      }
    }
  }

  lemma {:induction false} IdTableIs(tokens: seq<Token>, size: nat)
    ensures IdsAre(tokens, size, IdTable(tokens, size))
  {
    if tokens != [] {
      var front, last := tokens[..|tokens| - 1], tokens[|tokens| - 1];
      IdTableIs(front, size);
      assert tokens == front + [last];
      IdStep(front, last, size, IdTable(front, size));
    }
  }

  lemma IdStep(front: seq<Token>, last: Token, size: nat, ids: map<Bytes, int>)
    requires IdsAre(front, size, ids)
    ensures IdsAre(front + [last], size, if Listed(last, size) then ids[last.text := last.id] else ids)
  {
    var tokens, ids' := front + [last], if Listed(last, size) then ids[last.text := last.id] else ids;
    forall text
      ensures text in ids' <==> HasText(tokens, size, text)
    {
      TextSnoc(front, last, size, text);
    }
    forall i: nat | LastText(tokens, size, i)
      ensures tokens[i].text in ids' && ids'[tokens[i].text] == tokens[i].id
    {
      if i < |front| {
        EarlierText(front, last, size, i);
      }
    }
  }

  lemma EarlierText(front: seq<Token>, last: Token, size: nat, i: nat)
    requires i < |front| && LastText(front + [last], size, i)
    ensures LastText(front, size, i) && !(Listed(last, size) && last.text == front[i].text)
  {
    var tokens := front + [last];
    assert tokens[|front|] == last && tokens[i] == front[i];
    forall j | i < j < |front| && front[j].text == front[i].text
      ensures !Counts(front[j], size)
    {
      assert tokens[j] == front[j];
    }
  }

  lemma TextSnoc(front: seq<Token>, last: Token, size: nat, text: Bytes)
    ensures HasText(front + [last], size, text) <==>
            HasText(front, size, text) || (Counts(last, size) && last.text == text)
  {
    var all := front + [last];
    assert all[|front|] == last;
    if HasText(front, size, text) {
      var i :| 0 <= i < |front| && Counts(front[i], size) && front[i].text == text;
      assert all[i] == front[i];
    }
  }

  lemma IdSnoc(front: seq<Token>, last: Token, size: nat, id: int)
    ensures HasId(front + [last], size, id) <==> HasId(front, size, id) || (Counts(last, size) && last.id == id)
  {
    var all := front + [last];
    assert all[|front|] == last;
    if HasId(front, size, id) {
      var i :| 0 <= i < |front| && Counts(front[i], size) && front[i].id == id;
      assert all[i] == front[i];
    }
  }

  lemma {:induction false} TextTableIs(tokens: seq<Token>, size: nat)
    ensures TextsAre(tokens, size, TextTable(tokens, size))
  {
    if tokens != [] {
      var front, last := tokens[..|tokens| - 1], tokens[|tokens| - 1];
      TextTableIs(front, size);
      forall id | 0 <= id < size && !HasId(tokens, size, id)
        ensures TextTable(tokens, size)[id] == []
      {
        IdSnoc(front, last, size, id);
        assert tokens == front + [last];
      }
      forall i: nat | LastId(tokens, size, i)
        ensures TextTable(tokens, size)[tokens[i].id] == tokens[i].text
      {
        if i < |front| {
          assert tokens[|front|] == last;
          assert LastId(front, size, i) && front[i] == tokens[i];
        }
      }
    }
  }

  /** The tables of a token list and a merge list; the last entry wins everywhere. */
  method FromSparseParts(size: nat, tokens: seq<Token>, merges: seq<Bytes>) returns (v: BpeVocab)
    ensures v == Loaded(size, tokens, merges)
    ensures RanksAre(merges, v.vocab.ranks)
    ensures IdsAre(tokens, size, v.vocab.ids) && TextsAre(tokens, size, v.tokens)
    ensures v.bosId.Some? <==> HasText(tokens, size, BOS)
    ensures v.eosId.Some? <==> HasText(tokens, size, EOS)
    ensures v.dsmlId.Some? <==> HasText(tokens, size, DSML)
    ensures forall i: nat :: LastText(tokens, size, i) ==>
              && (tokens[i].text == BOS ==> v.bosId == Some(tokens[i].id))
              && (tokens[i].text == EOS ==> v.eosId == Some(tokens[i].id))
              && (tokens[i].text == DSML ==> v.dsmlId == Some(tokens[i].id))
  {
    RankTableIs(merges);
    IdTableIs(tokens, size);
    TextTableIs(tokens, size);
    var ids: map<Bytes, int> := map[];
    var texts: seq<Bytes> := seq(size, _ => []);
    for i := 0 to |tokens|
      invariant ids == IdTable(tokens[..i], size) && texts == TextTable(tokens[..i], size)
    {
      assert tokens[..i + 1][..i] == tokens[..i];
      var t := tokens[i];
      if t.id < 0 || t.id >= size || t.text == [] {
        continue;
      }
      ids := ids[t.text := t.id];
      texts := texts[t.id := t.text];
    }
    assert tokens[..|tokens|] == tokens;
    var ranks: Ranks := map[];
    for i := 0 to |merges|
      invariant ranks == RankTable(merges[..i])
    {
      assert merges[..i + 1][..i] == merges[..i];
      ranks := ranks[merges[i] := i];
    }
    assert merges[..|merges|] == merges;
    v := BpeVocab(Vocab(ids, ranks), texts, LookupTokenId(ids, BOS), LookupTokenId(ids, EOS), LookupTokenId(ids, DSML));
  }

  /** No id is listed twice, as in a table keyed by id. */
  ghost predicate OneTextPerId(tokens: seq<Token>, size: nat) {
    forall i, j :: 0 <= i < j < |tokens| && Listed(tokens[i], size) && Listed(tokens[j], size) ==>
        tokens[i].id != tokens[j].id
  }

  lemma {:induction false} IdIsListed(tokens: seq<Token>, size: nat, text: Bytes) returns (i: nat)
    requires text in IdTable(tokens, size)
    ensures i < |tokens| && Listed(tokens[i], size) && tokens[i] == Token(IdTable(tokens, size)[text], text)
  {
    var n := |tokens| - 1;
    if Listed(tokens[n], size) && tokens[n].text == text {
      return n;
    }
    i := IdIsListed(tokens[..n], size, text);
  }

  /** The text of a token's id is the token: what `token_text` gives back is what was looked up. */
  lemma {:induction false} TextOfId(tokens: seq<Token>, size: nat, text: Bytes)
    requires OneTextPerId(tokens, size) && text in IdTable(tokens, size)
    ensures 0 <= IdTable(tokens, size)[text] < size && TextTable(tokens, size)[IdTable(tokens, size)[text]] == text
  {
    var n := |tokens| - 1;
    var front, last := tokens[..n], tokens[n];
    if !(Listed(last, size) && last.text == text) {
      TextOfId(front, size, text);
      var i := IdIsListed(front, size, text);
      assert front[i] == tokens[i];
    }
  }

  // ---- which pair merges ----

  /** Pair `i` is entry `p` of the merge list, "left right", and not listed again later. */
  ghost predicate PairListed(merges: seq<Bytes>, sym: seq<Bytes>, i: nat, p: nat) {
    i + 1 < |sym| && LastOf(merges, p) && merges[p] == sym[i] + [0x20] + sym[i + 1]
  }

  lemma {:induction false} LastExists(merges: seq<Bytes>, m: Bytes) returns (p: nat)
    requires m in merges
    ensures LastOf(merges, p) && merges[p] == m
  {
    p := |merges| - 1;
    if merges[p] != m {
      p := LastExists(merges[..p], m);
      assert merges[..|merges| - 1][p] == merges[p];
      forall j | p < j < |merges|
        ensures merges[j] != merges[p]
      {
        assert j < |merges| - 1 ==> merges[..|merges| - 1][j] == merges[j];
      }
    }
  }

  lemma RankedIsListed(merges: seq<Bytes>, ranks: Ranks, sym: seq<Bytes>, j: nat)
    requires RanksAre(merges, ranks) && j + 1 < |sym|
    ensures PairRanked(ranks, sym, j) <==> exists q :: PairListed(merges, sym, j, q)
    ensures forall q :: PairListed(merges, sym, j, q) ==> PairRank(ranks, sym, j) == q
  {
    var key := sym[j] + [0x20] + sym[j + 1];
    if key in merges {
      var q := LastExists(merges, key);
      assert PairListed(merges, sym, j, q);
    }
  }

  /** Of the pairs of a piece the one listed first merges, the leftmost of equal ones. */
  lemma FirstListedMerges(merges: seq<Bytes>, ranks: Ranks, sym: seq<Bytes>, i: nat, p: nat)
    requires RanksAre(merges, ranks) && PairListed(merges, sym, i, p)
    requires forall j, q :: PairListed(merges, sym, j, q) ==> p < q || (p == q && i <= j)
    ensures Greedy(ranks, sym) == Greedy(ranks, sym[..i] + [sym[i] + sym[i + 1]] + sym[i + 2..])
  {
    forall j | 0 <= j < |sym| - 1
      ensures PairRanked(ranks, sym, j) ==>
                p < PairRank(ranks, sym, j) || (p == PairRank(ranks, sym, j) && i <= j)
    {
      RankedIsListed(merges, ranks, sym, j);
      if PairRanked(ranks, sym, j) {
        var q :| PairListed(merges, sym, j, q);
      }
    }
    RankedIsListed(merges, ranks, sym, i);
    BestIs(ranks, sym);
    assert IsBest(ranks, sym, i);
  }

  /** A piece without a listed pair is done. */
  lemma NothingListed(merges: seq<Bytes>, ranks: Ranks, sym: seq<Bytes>)
    requires RanksAre(merges, ranks) && forall j, q :: !PairListed(merges, sym, j, q)
    ensures Greedy(ranks, sym) == sym
  {
    forall j | 0 <= j < |sym| - 1
      ensures !PairRanked(ranks, sym, j)
    {
      RankedIsListed(merges, ranks, sym, j);
    }
    BestIs(ranks, sym);
  }

  const A: Bytes := [0x61]
  const B: Bytes := [0x62]
  const C: Bytes := [0x63]
  const A_B: Bytes := [0x61, 0x20, 0x62]
  const B_C: Bytes := [0x62, 0x20, 0x63]

  lemma AbcPairs(merges: seq<Bytes>, first: Bytes, second: Bytes)
    requires merges == [first, second] && {first, second} == {A_B, B_C}
    ensures var ab := if first == A_B then 0 else 1;
            forall i, p :: PairListed(merges, [A, B, C], i, p) <==> (i == 0 && p == ab) || (i == 1 && p == 1 - ab)
    ensures forall i, p :: !PairListed(merges, [A, B + C], i, p) && !PairListed(merges, [A + B, C], i, p)
  {
    assert A + [0x20] + B == A_B && B + [0x20] + C == B_C;
    assert A_B[0] != B_C[0];
    assert |A + [0x20] + (B + C)| == 4 && |A + B + [0x20] + C| == 4;
  }

  /** So the piece "abc" is cut "a", "bc" when "b c" is listed before "a b", and "ab", "c" when after. */
  lemma ListOrderDecides(ranks: Ranks, swapped: Ranks)
    requires RanksAre([B_C, A_B], ranks) && RanksAre([A_B, B_C], swapped)
    ensures Greedy(ranks, [A, B, C]) == [A, B + C] && Greedy(swapped, [A, B, C]) == [A + B, C]
  {
    var sym := [A, B, C];
    AbcPairs([B_C, A_B], B_C, A_B);
    AbcPairs([A_B, B_C], A_B, B_C);
    FirstListedMerges([B_C, A_B], ranks, sym, 1, 0);
    FirstListedMerges([A_B, B_C], swapped, sym, 0, 0);
    assert sym[..1] + [sym[1] + sym[2]] + sym[3..] == [A, B + C];
    assert sym[..0] + [sym[0] + sym[1]] + sym[2..] == [A + B, C];
    NothingListed([B_C, A_B], ranks, [A, B + C]);
    NothingListed([A_B, B_C], swapped, [A + B, C]);
  }

  // ---- the trim ----

  /** `m.replace(" ", "", 1)`. */
  function DropBlank(m: Bytes): Bytes {
    if m == [] then [] else if m[0] == SPACE then m[1..] else [m[0]] + DropBlank(m[1..])
  }

  predicate KeepsMerge(universe: Bytes, m: Bytes) {
    Occurs(DropBlank(m), universe)
  }

  /** `extra` are the structural ids that are always present. */
  predicate KeepsToken(universe: Bytes, extra: set<int>, t: Token) {
    t.text != [] && (|t.text| == 1 || Occurs(t.text, universe) || t.id in extra)
  }

  function KeptMerges(merges: seq<Bytes>, universe: Bytes): seq<Bytes> {
    if merges == [] then [] else
      var front, m := KeptMerges(merges[..|merges| - 1], universe), merges[|merges| - 1];
      if KeepsMerge(universe, m) then front + [m] else front
  }

  function KeptTokens(tokens: seq<Token>, universe: Bytes, extra: set<int>): seq<Token> {
    if tokens == [] then [] else
      var front, t := KeptTokens(tokens[..|tokens| - 1], universe, extra), tokens[|tokens| - 1];
      if KeepsToken(universe, extra, t) then front + [t] else front
  }

  /** `"\n".join(byte_encode(text) for text in texts)`. */
  function Universe(texts: seq<Bytes>): Bytes {
    if texts == [] then []
    else if |texts| == 1 then ByteEncode(texts[0])
    else ByteEncode(texts[0]) + [NEWLINE] + Universe(texts[1..])
  }

  // ---- substrings ----

  lemma OccursIntro<T>(pre: seq<T>, t: seq<T>, post: seq<T>, u: seq<T>)
    requires u == pre + t + post
    ensures Occurs(t, u)
  {
    assert u[|pre|..|pre| + |t|] == t;
    assert OccursAt(t, u, |pre|);
  }

  lemma SliceOfSlice<T>(s: seq<T>, t: seq<T>, u: seq<T>, i: nat, j: nat)
    requires OccursAt(s, t, i) && OccursAt(t, u, j)
    ensures OccursAt(s, u, j + i)
  {
    forall x | 0 <= x < |s|
      ensures s[x] == u[j + i + x]
    {
      assert s[x] == t[i..i + |s|][x] && t[i + x] == u[j..j + |t|][i + x];
    }
  }

  lemma OccursTrans<T>(s: seq<T>, t: seq<T>, u: seq<T>)
    requires Occurs(s, t) && Occurs(t, u)
    ensures Occurs(s, u)
  {
    var i :| 0 <= i <= |t| && OccursAt(s, t, i);
    var j :| 0 <= j <= |u| && OccursAt(t, u, j);
    SliceOfSlice(s, t, u, i, j);
  }

  lemma {:induction false} TextOccurs(texts: seq<Bytes>, k: nat)
    requires k < |texts|
    ensures Occurs(ByteEncode(texts[k]), Universe(texts))
  {
    var first, rest := ByteEncode(texts[0]), Universe(texts[1..]);
    if |texts| == 1 {
      assert first == [] + first + [];
      OccursIntro([], first, [], Universe(texts));
    } else if k == 0 {
      Assoc(first, [NEWLINE], rest);
      assert Universe(texts) == [] + first + ([NEWLINE] + rest);
      OccursIntro([], first, [NEWLINE] + rest, Universe(texts));
    } else {
      TextOccurs(texts[1..], k - 1);
      assert Universe(texts) == (first + [NEWLINE]) + rest + [];
      OccursIntro(first + [NEWLINE], rest, [], Universe(texts));
      OccursTrans(ByteEncode(texts[k]), rest, Universe(texts));
    }
  }

  /** Pre-tokenized pieces are sub-ranges of a text, and so are their encodings. */
  lemma PieceOccurs(text: Bytes, a: nat, b: nat)
    requires a <= b <= |text|
    ensures Occurs(ByteEncode(text[a..b]), ByteEncode(text))
  {
    ThreeParts(text, a, b);
    PartOccurs(text[..a], text[a..b], text[b..]);
  }

  lemma ThreeParts(text: Bytes, a: nat, b: nat)
    requires a <= b <= |text|
    ensures text[..a] + text[a..b] + text[b..] == text
  {
  }

  lemma PartOccurs(x: Bytes, y: Bytes, z: Bytes)
    ensures Occurs(ByteEncode(y), ByteEncode(x + y + z))
  {
    ByteEncodeConcat(x + y, z);
    ByteEncodeConcat(x, y);
    OccursIntro(ByteEncode(x), ByteEncode(y), ByteEncode(z), ByteEncode(x + y + z));
  }

  // ---- the merges that can fire are kept, in the same order ----

  lemma {:induction false} RankBound(merges: seq<Bytes>, m: Bytes)
    requires m in RankTable(merges)
    ensures RankTable(merges)[m] < |merges|
  {
    if m != merges[|merges| - 1] {
      RankBound(merges[..|merges| - 1], m);
    }
  }

  lemma {:induction false} KeptRanked(merges: seq<Bytes>, universe: Bytes, m: Bytes)
    requires KeepsMerge(universe, m)
    ensures m in RankTable(KeptMerges(merges, universe)) <==> m in RankTable(merges)
  {
    if merges != [] {
      var front, last := merges[..|merges| - 1], merges[|merges| - 1];
      KeptRanked(front, universe, m);
      var kept := KeptMerges(front, universe);
      if KeepsMerge(universe, last) {
        assert (kept + [last])[..|kept|] == kept;
      }
    }
  }

  lemma {:induction false} KeptOrder(merges: seq<Bytes>, universe: Bytes, m: Bytes, n: Bytes)
    requires KeepsMerge(universe, m) && KeepsMerge(universe, n)
    requires m in RankTable(merges) && n in RankTable(merges)
    ensures m in RankTable(KeptMerges(merges, universe)) && n in RankTable(KeptMerges(merges, universe))
    ensures RankTable(KeptMerges(merges, universe))[m] <= RankTable(KeptMerges(merges, universe))[n] <==>
            RankTable(merges)[m] <= RankTable(merges)[n]
  {
    KeptRanked(merges, universe, m);
    KeptRanked(merges, universe, n);
    var front, last := merges[..|merges| - 1], merges[|merges| - 1];
    var kept := KeptMerges(front, universe);
    if KeepsMerge(universe, last) {
      assert (kept + [last])[..|kept|] == kept;
    }
    if m != last && n != last {
      KeptOrder(front, universe, m, n);
    } else if m != last {
      KeptRanked(front, universe, m);
      RankBound(front, m);
      RankBound(kept, m);
    } else if n != last {
      KeptRanked(front, universe, n);
      RankBound(front, n);
      RankBound(kept, n);
    }
  }

  lemma {:induction false} DropBlankOfKey(a: Bytes, b: Bytes)
    requires SPACE !in a
    ensures DropBlank(MergeKey(a, b)) == a + b
  {
    if a == [] {
      assert MergeKey(a, b) == [SPACE] + b;
    } else {
      DropBlankOfKey(a[1..], b);
      assert MergeKey(a, b) == [a[0]] + MergeKey(a[1..], b);
      assert [a[0]] + (a[1..] + b) == a + b;
    }
  }

  // ---- the symbols always spell a part of the universe ----

  function Concat(sym: seq<Bytes>): Bytes {
    if sym == [] then [] else sym[0] + Concat(sym[1..])
  }

  lemma {:induction false} ConcatSplit(a: seq<Bytes>, b: seq<Bytes>)
    ensures Concat(a + b) == Concat(a) + Concat(b)
  {
    if a == [] {
      assert a + b == b;
    } else {
      assert (a + b)[1..] == a[1..] + b;
      ConcatSplit(a[1..], b);
    }
  }

  lemma ConcatOne(s: Bytes)
    ensures Concat([s]) == s
  {
    assert [s][1..] == [];
  }

  lemma ConcatHead(sym: seq<Bytes>, i: nat)
    requires i < |sym|
    ensures Concat(sym[i..]) == sym[i] + Concat(sym[i + 1..])
  {
    assert sym[i..][1..] == sym[i + 1..];
  }

  lemma ConcatCut(sym: seq<Bytes>, i: nat)
    requires i <= |sym|
    ensures Concat(sym) == Concat(sym[..i]) + Concat(sym[i..])
  {
    assert sym == sym[..i] + sym[i..];
    ConcatSplit(sym[..i], sym[i..]);
  }

  lemma ConcatParts(sym: seq<Bytes>, i: nat)
    requires i + 1 < |sym|
    ensures Concat(sym) == Concat(sym[..i]) + (sym[i] + sym[i + 1]) + Concat(sym[i + 2..])
  {
    var pre, rest := Concat(sym[..i]), Concat(sym[i + 2..]);
    ConcatCut(sym, i);
    ConcatHead(sym, i);
    ConcatHead(sym, i + 1);
    Assoc(sym[i], sym[i + 1], rest);
    Assoc(pre, sym[i] + sym[i + 1], rest);
  }

  lemma ConcatJoin(sym: seq<Bytes>, i: nat)
    requires i + 1 < |sym|
    ensures Concat(Join(sym, i)) == Concat(sym)
  {
    ConcatParts(sym, i);
    var pre, both, post := sym[..i], sym[i] + sym[i + 1], sym[i + 2..];
    ConcatSplit(pre + [both], post);
    ConcatSplit(pre, [both]);
    ConcatOne(both);
  }

  lemma {:induction false} CharactersConcat(enc: Bytes)
    ensures Concat(Characters(enc)) == enc
  {
    if enc != [] {
      var n := Utf8Len(enc[0]);
      if n < |enc| {
        CharactersConcat(enc[n..]);
        var rest := Characters(enc[n..]);
        assert ([enc[..n]] + rest)[1..] == rest;
      } else {
        assert [enc][1..] == [];
      }
    }
  }

  ghost predicate Within(sym: seq<Bytes>, universe: Bytes) {
    SPACE !in Concat(sym) && Occurs(Concat(sym), universe)
  }

  lemma PairKept(sym: seq<Bytes>, universe: Bytes, i: nat)
    requires Within(sym, universe) && i + 1 < |sym|
    ensures KeepsMerge(universe, MergeKey(sym[i], sym[i + 1]))
  {
    ConcatParts(sym, i);
    OccursIntro(Concat(sym[..i]), sym[i] + sym[i + 1], Concat(sym[i + 2..]), Concat(sym));
    OccursTrans(sym[i] + sym[i + 1], Concat(sym), universe);
    assert SPACE !in sym[i] by {
      assert forall x :: x in sym[i] ==> x in Concat(sym);
    }
    DropBlankOfKey(sym[i], sym[i + 1]);
  }

  lemma {:induction false} BestOfKept(merges: seq<Bytes>, universe: Bytes, sym: seq<Bytes>, n: nat)
    requires Within(sym, universe) && (n == 0 || n < |sym|)
    ensures BestOf(RankTable(KeptMerges(merges, universe)), sym, n) == BestOf(RankTable(merges), sym, n)
  {
    if n > 0 {
      BestOfKept(merges, universe, sym, n - 1);
      PairKept(sym, universe, n - 1);
      var key := MergeKey(sym[n - 1], sym[n]);
      KeptRanked(merges, universe, key);
      var best := BestOf(RankTable(merges), sym, n - 1);
      if best.Some? && key in RankTable(merges) {
        PairKept(sym, universe, best.value);
        KeptOrder(merges, universe, MergeKey(sym[best.value], sym[best.value + 1]), key);
      }
    }
  }

  lemma {:induction false} GreedyKept(merges: seq<Bytes>, universe: Bytes, sym: seq<Bytes>)
    requires Within(sym, universe)
    ensures Greedy(RankTable(KeptMerges(merges, universe)), sym) == Greedy(RankTable(merges), sym)
    ensures Within(Greedy(RankTable(merges), sym), universe)
    decreases |sym|
  {
    var full, kept := RankTable(merges), RankTable(KeptMerges(merges, universe));
    if |sym| > 0 {
      BestOfKept(merges, universe, sym, |sym| - 1);
    }
    var best := Best(full, sym);
    assert best == Best(kept, sym);
    if best.Some? {
      ConcatJoin(sym, best.value);
      GreedyKept(merges, universe, Join(sym, best.value));
    }
  }

  // ---- the tokens that can be emitted are kept ----

  /** Every entry with this text is kept. */
  ghost predicate AlwaysKept(tokens: seq<Token>, universe: Bytes, extra: set<int>, text: Bytes) {
    |text| == 1 || Occurs(text, universe) || forall i :: 0 <= i < |tokens| && tokens[i].text == text ==>
        tokens[i].id in extra
  }

  lemma {:induction false} IdKept(tokens: seq<Token>, size: nat, universe: Bytes, extra: set<int>, text: Bytes)
    requires AlwaysKept(tokens, universe, extra, text)
    ensures LookupTokenId(IdTable(KeptTokens(tokens, universe, extra), size), text) ==
            LookupTokenId(IdTable(tokens, size), text)
  {
    if tokens != [] {
      var front, last := tokens[..|tokens| - 1], tokens[|tokens| - 1];
      assert forall i :: 0 <= i < |front| ==> front[i] == tokens[i];
      IdKept(front, size, universe, extra, text);
      var kept := KeptTokens(front, universe, extra);
      if KeepsToken(universe, extra, last) {
        assert (kept + [last])[..|kept|] == kept;
      }
    }
  }

  lemma {:induction false} ByteIdsKept(tokens: seq<Token>, size: nat, universe: Bytes, extra: set<int>, piece: Bytes)
    ensures ByteIds(IdTable(KeptTokens(tokens, universe, extra), size), piece) == ByteIds(IdTable(tokens, size), piece)
  {
    if piece != [] {
      ByteIdsKept(tokens, size, universe, extra, piece[..|piece| - 1]);
      IdKept(tokens, size, universe, extra, [piece[|piece| - 1]]);
    }
  }

  lemma {:induction false} EmitKept(tokens: seq<Token>, size: nat, universe: Bytes, extra: set<int>, sym: seq<Bytes>)
    requires Occurs(Concat(sym), universe)
    ensures Emit(IdTable(KeptTokens(tokens, universe, extra), size), sym) == Emit(IdTable(tokens, size), sym)
  {
    if sym != [] {
      var front, last := sym[..|sym| - 1], sym[|sym| - 1];
      assert sym == front + [last];
      ConcatSplit(front, [last]);
      assert Concat([last]) == last;
      OccursIntro([], Concat(front), last, Concat(sym));
      OccursTrans(Concat(front), Concat(sym), universe);
      EmitKept(tokens, size, universe, extra, front);
      OccursIntro(Concat(front), last, [], Concat(sym));
      OccursTrans(last, Concat(sym), universe);
      IdKept(tokens, size, universe, extra, last);
      ByteIdsKept(tokens, size, universe, extra, last);
    }
  }

  /** Any raw bytes whose encoding occurs in the universe have the same symbols and the same ids
      under the trimmed vocabulary. */
  lemma TrimKeepsPiece(tokens: seq<Token>, merges: seq<Bytes>, size: nat, universe: Bytes, extra: set<int>, raw: Bytes)
    requires Occurs(ByteEncode(raw), universe)
    ensures var full := Vocab(IdTable(tokens, size), RankTable(merges));
            var trimmed := Vocab(IdTable(KeptTokens(tokens, universe, extra), size),
                RankTable(KeptMerges(merges, universe)));
            && Greedy(trimmed.ranks, Characters(ByteEncode(raw))) == Greedy(full.ranks, Characters(ByteEncode(raw)))
            && EncodePiece(trimmed, raw) == EncodePiece(full, raw)
  {
    var sym := Characters(ByteEncode(raw));
    CharactersConcat(ByteEncode(raw));
    EncodedHasNoBlank(raw);
    GreedyKept(merges, universe, sym);
    EmitKept(tokens, size, universe, extra, Greedy(RankTable(merges), sym));
  }

  /** The control tokens a generator lists as structural are found under the same ids. */
  lemma TrimKeepsNames(tokens: seq<Token>, merges: seq<Bytes>, size: nat, universe: Bytes, extra: set<int>)
    requires forall i :: 0 <= i < |tokens| && tokens[i].text in {BOS, EOS, DSML} ==> tokens[i].id in extra
    ensures var full := Loaded(size, tokens, merges);
            var trimmed := Loaded(size, KeptTokens(tokens, universe, extra), KeptMerges(merges, universe));
            trimmed.bosId == full.bosId && trimmed.eosId == full.eosId && trimmed.dsmlId == full.dsmlId
  {
    IdKept(tokens, size, universe, extra, BOS);
    IdKept(tokens, size, universe, extra, EOS);
    IdKept(tokens, size, universe, extra, DSML);
  }

  // ---- the ids spell the piece ----

  /** `token_text` of every id, joined. */
  function Spelled(texts: seq<Bytes>, ids: seq<int>): Bytes {
    if ids == [] then [] else
      var id := ids[|ids| - 1];
      Spelled(texts, ids[..|ids| - 1]) + if 0 <= id < |texts| then texts[id] else []
  }

  ghost predicate AllTokens(ids: map<Bytes, int>, sym: seq<Bytes>) {
    forall i :: 0 <= i < |sym| ==> sym[i] in ids
  }

  /** The result of every merge is a token. */
  ghost predicate MergesAreTokens(v: Vocab) {
    forall a, b :: Mergeable(v.ranks, a, b) ==> a + b in v.ids
  }

  lemma {:induction false} GreedyTokens(v: Vocab, sym: seq<Bytes>)
    requires MergesAreTokens(v) && AllTokens(v.ids, sym)
    ensures AllTokens(v.ids, Greedy(v.ranks, sym)) && Concat(Greedy(v.ranks, sym)) == Concat(sym)
    decreases |sym|
  {
    var best := Best(v.ranks, sym);
    if best.Some? {
      var i := best.value;
      assert Mergeable(v.ranks, sym[i], sym[i + 1]);
      ConcatJoin(sym, i);
      GreedyTokens(v, Join(sym, i));
    }
  }

  lemma SpelledSnoc(texts: seq<Bytes>, ids: seq<int>, id: int)
    requires 0 <= id < |texts|
    ensures Spelled(texts, ids + [id]) == Spelled(texts, ids) + texts[id]
  {
    assert (ids + [id])[..|ids|] == ids;
  }

  lemma ConcatSnoc(sym: seq<Bytes>)
    requires sym != []
    ensures Concat(sym) == Concat(sym[..|sym| - 1]) + sym[|sym| - 1]
  {
    ConcatCut(sym, |sym| - 1);
    ConcatOne(sym[|sym| - 1]);
    assert sym[|sym| - 1..] == [sym[|sym| - 1]];
  }

  lemma {:induction false} EmitSpells(ids: map<Bytes, int>, texts: seq<Bytes>, sym: seq<Bytes>)
    requires AllTokens(ids, sym)
    requires forall text :: text in ids ==> 0 <= ids[text] < |texts| && texts[ids[text]] == text
    ensures Spelled(texts, Emit(ids, sym)) == Concat(sym)
  {
    if sym != [] {
      var front, last := sym[..|sym| - 1], sym[|sym| - 1];
      EmitSpells(ids, texts, front);
      ConcatSnoc(sym);
      SpelledSnoc(texts, Emit(ids, front), ids[last]);
      assert Emit(ids, sym) == Emit(ids, front) + [ids[last]];
    }
  }

  /** Encoding then looking the ids up again gives the piece's encoding back, when its characters and
      the results of all merges are tokens. */
  lemma IdsSpellPiece(size: nat, tokens: seq<Token>, merges: seq<Bytes>, raw: Bytes)
    requires OneTextPerId(tokens, size)
    requires var v := Loaded(size, tokens, merges).vocab;
             MergesAreTokens(v) && AllTokens(v.ids, Characters(ByteEncode(raw)))
    ensures var v := Loaded(size, tokens, merges); Spelled(v.tokens, EncodePiece(v.vocab, raw)) == ByteEncode(raw)
  {
    var v := Loaded(size, tokens, merges);
    var sym := Characters(ByteEncode(raw));
    CharactersConcat(ByteEncode(raw));
    GreedyTokens(v.vocab, sym);
    forall text | text in v.vocab.ids
      ensures 0 <= v.vocab.ids[text] < |v.tokens| && v.tokens[v.vocab.ids[text]] == text
    {
      TextOfId(tokens, size, text);
    }
    EmitSpells(v.vocab.ids, v.tokens, Greedy(v.vocab.ranks, sym));
  }

  // ---- the corpus ----

  /** The claim of the generators: every piece of every text of the corpus is tokenized exactly as
      with the full vocabulary, wherever the pre-tokenizer cuts. */
  lemma TrimKeepsCorpus(tokens: seq<Token>, merges: seq<Bytes>, size: nat, texts: seq<Bytes>, extra: set<int>, k: nat,
                        a: nat, b: nat)
    requires k < |texts| && a <= b <= |texts[k]|
    ensures var universe := Universe(texts);
            EncodePiece(Vocab(IdTable(KeptTokens(tokens, universe, extra), size),
                RankTable(KeptMerges(merges, universe))), texts[k][a..b]) ==
            EncodePiece(Vocab(IdTable(tokens, size), RankTable(merges)), texts[k][a..b])
  {
    TextOccurs(texts, k);
    PieceOccurs(texts[k], a, b);
    OccursTrans(ByteEncode(texts[k][a..b]), ByteEncode(texts[k]), Universe(texts));
    TrimKeepsPiece(tokens, merges, size, Universe(texts), extra, texts[k][a..b]);
  }
}
