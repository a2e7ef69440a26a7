/** The ids of a piece, symbol by symbol (`bpe_emit_piece`, step 4, in crates/v4flash-core/src/tokenizer.rs). */
module EmittedIds {
  import opened Prelude
  import opened ByteEncoding
  import opened Bpe

  /** `at` lists, in order, the places of a symbol whose single byte is a token. */
  ghost predicate BytesAt(ids: map<Bytes, int>, piece: Bytes, at: seq<nat>) {
    && (forall j, k :: 0 <= j < k < |at| ==> at[j] < at[k])
    && (forall b: nat :: b in at <==> b < |piece| && [piece[b]] in ids)
  }

  /** `given` are the ids of the bytes at `at`. */
  ghost predicate BytesGive(ids: map<Bytes, int>, piece: Bytes, at: seq<nat>, given: seq<int>) {
    && BytesAt(ids, piece, at) && |given| == |at|
    && forall k :: 0 <= k < |at| ==> at[k] < |piece| && [piece[at[k]]] in ids && given[k] == ids[[piece[at[k]]]]
  }

  /** A symbol that is a token gives its id alone, and any other the ids of its bytes that are. */
  ghost predicate SymbolGives(ids: map<Bytes, int>, piece: Bytes, given: seq<int>) {
    if piece in ids then given == [ids[piece]]
    else exists at: seq<nat> :: BytesGive(ids, piece, at, given)
  }

  /** What symbol `i` gives starts at place `starts[i]` of the ids and ends where the next starts. */
  ghost predicate GivenAt(ids: map<Bytes, int>, sym: seq<Bytes>, out: seq<int>, starts: seq<nat>, i: nat) {
    && i < |sym| && i + 1 < |starts| && starts[i] <= starts[i + 1] <= |out|
    && SymbolGives(ids, sym[i], out[starts[i]..starts[i + 1]])
  }

  ghost predicate SymbolsGive(ids: map<Bytes, int>, sym: seq<Bytes>, out: seq<int>, starts: seq<nat>) {
    && |starts| == |sym| + 1 && starts[0] == 0 && starts[|sym|] == |out|
    && forall i :: 0 <= i < |sym| ==> GivenAt(ids, sym, out, starts, i)
  }

  lemma {:induction false} ByteIdsAre(ids: map<Bytes, int>, piece: Bytes) returns (at: seq<nat>)
    ensures BytesGive(ids, piece, at, ByteIds(ids, piece))
  {
    at := [];
    if piece != [] {
      var front, b := piece[..|piece| - 1], piece[|piece| - 1];
      at := ByteIdsAre(ids, front);
      OneMoreByte(ids, front, b, at, ByteIds(ids, front));
      if [b] in ids {
        at := at + [|front|];
      }
      assert piece == front + [b];
    }
  }

  lemma OneMoreByte(ids: map<Bytes, int>, front: Bytes, b: Byte, at: seq<nat>, given: seq<int>)
    requires BytesGive(ids, front, at, given)
    ensures [b] in ids ==> BytesGive(ids, front + [b], at + [|front|], given + [ids[[b]]])
    ensures [b] !in ids ==> BytesGive(ids, front + [b], at, given)
  {
    assert forall k: nat :: k in at + [|front|] <==> k in at || k == |front|;
  }

  lemma SymbolIdsAre(ids: map<Bytes, int>, piece: Bytes)
    ensures SymbolGives(ids, piece, SymbolIds(ids, piece))
  {
    if piece !in ids {
      var at := ByteIdsAre(ids, piece);
    }
  }

  lemma GivenStill(ids: map<Bytes, int>, sym: seq<Bytes>, out: seq<int>, starts: seq<nat>, i: nat, last: Bytes,
                   more: seq<int>, end: nat)
    requires GivenAt(ids, sym, out, starts, i)
    ensures GivenAt(ids, sym + [last], out + more, starts + [end], i)
  {
    assert (out + more)[starts[i]..starts[i + 1]] == out[starts[i]..starts[i + 1]];
  }

  lemma Behind<T>(a: seq<T>, b: seq<T>)
    ensures (a + b)[|a|..|a| + |b|] == b
  {
  }

  lemma GivenLast(ids: map<Bytes, int>, sym: seq<Bytes>, out: seq<int>, starts: seq<nat>, last: Bytes, more: seq<int>)
    requires |starts| == |sym| + 1 && starts[|sym|] == |out| && SymbolGives(ids, last, more)
    ensures GivenAt(ids, sym + [last], out + more, starts + [|out| + |more|], |sym|)
  {
    Behind(out, more);
    Behind(sym, [last]);
  }

  lemma OneMoreSymbol(ids: map<Bytes, int>, sym: seq<Bytes>, out: seq<int>, starts: seq<nat>, last: Bytes,
                      more: seq<int>)
    requires SymbolsGive(ids, sym, out, starts) && SymbolGives(ids, last, more)
    ensures SymbolsGive(ids, sym + [last], out + more, starts + [|out| + |more|])
  {
    var starts' := starts + [|out| + |more|];
    forall i | 0 <= i < |sym| + 1
      ensures GivenAt(ids, sym + [last], out + more, starts', i)
    {
      if i < |sym| {
        GivenStill(ids, sym, out, starts, i, last, more, |out| + |more|);
      } else {
        GivenLast(ids, sym, out, starts, last, more);
      }
    }
  }

  lemma {:induction false} EmittedAre(ids: map<Bytes, int>, sym: seq<Bytes>) returns (starts: seq<nat>)
    ensures SymbolsGive(ids, sym, Emit(ids, sym), starts)
  {
    starts := [0];
    if sym != [] {
      var front, last := sym[..|sym| - 1], sym[|sym| - 1];
      var was := EmittedAre(ids, front);
      SymbolIdsAre(ids, last);
      OneMoreSymbol(ids, front, Emit(ids, front), was, last, SymbolIds(ids, last));
      starts := was + [|Emit(ids, front)| + |SymbolIds(ids, last)|];
      assert sym == front + [last];
    }
  }

  /** The best pair of `sym` is joined, and nothing else changes. */
  ghost predicate Merges(ranks: Ranks, sym: seq<Bytes>, next: seq<Bytes>) {
    exists i: nat :: IsBest(ranks, sym, i) && next == sym[..i] + [sym[i] + sym[i + 1]] + sym[i + 2..]
  }

  /** One step of the greedy rule after another, from the characters of a piece to symbols no pair of which is
      listed. */
  ghost predicate MergesTo(ranks: Ranks, steps: seq<seq<Bytes>>) {
    && steps != []
    && (forall t :: 0 <= t < |steps| - 1 ==> Merges(ranks, steps[t], steps[t + 1]))
    && NoPair(ranks, steps[|steps| - 1])
  }

  lemma {:induction false} GreedySteps(ranks: Ranks, sym: seq<Bytes>) returns (steps: seq<seq<Bytes>>)
    ensures MergesTo(ranks, steps) && steps[0] == sym && steps[|steps| - 1] == Greedy(ranks, sym)
    decreases |sym|
  {
    BestIs(ranks, sym);
    steps := [sym];
    if Best(ranks, sym).Some? {
      var i := Best(ranks, sym).value;
      assert IsBest(ranks, sym, i);
      var rest := GreedySteps(ranks, Join(sym, i));
      steps := [sym] + rest;
      OneMoreMerge(ranks, sym, rest);
    }
  }

  lemma OneMoreMerge(ranks: Ranks, sym: seq<Bytes>, rest: seq<seq<Bytes>>)
    requires MergesTo(ranks, rest) && Merges(ranks, sym, rest[0])
    ensures MergesTo(ranks, [sym] + rest)
  {
    var steps := [sym] + rest;
    forall t | 0 <= t < |steps| - 1
      ensures Merges(ranks, steps[t], steps[t + 1])
    {
      if t > 0 {
        assert steps[t] == rest[t - 1] && steps[t + 1] == rest[t];
      }
    }
  }

  /** A piece from bytes to ids: a symbol per byte, merged pair by pair, and the ids of what is left. */
  lemma PieceIds(v: Vocab, raw: Bytes) returns (steps: seq<seq<Bytes>>, starts: seq<nat>)
    ensures MergesTo(v.ranks, steps) && |steps[0]| == |raw|
    ensures forall i :: 0 <= i < |raw| ==> steps[0][i] == Character(raw[i])
    ensures SymbolsGive(v.ids, steps[|steps| - 1], EncodePiece(v, raw), starts)
  {
    var sym := Characters(ByteEncode(raw));
    OneSymbolPerByte(raw);
    steps := GreedySteps(v.ranks, sym);
    starts := EmittedAre(v.ids, Greedy(v.ranks, sym));
  }
}
