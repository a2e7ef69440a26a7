/** Byte-pair encoding of one piece (crates/v4flash-core/src/tokenizer.rs): the merge loop that
    rescans every pair, and the heap of candidate pairs that replaced it. */
module Bpe {
  import opened Prelude
  import opened ByteEncoding
  import PriorityQueue

  /** "left right" -> rank. */
  type Ranks = map<Bytes, nat>

  /** The key of a merge; unambiguous because encoded text contains no blank. */
  function MergeKey(a: Bytes, b: Bytes): Bytes {
    a + [SPACE] + b
  }

  predicate Mergeable(ranks: Ranks, a: Bytes, b: Bytes) {
    MergeKey(a, b) in ranks
  }

  function Rank(ranks: Ranks, a: Bytes, b: Bytes): nat
    requires Mergeable(ranks, a, b)
  {
    ranks[MergeKey(a, b)]
  }

  // ---- the greedy rule ----

  /** Pair `i` is (`sym[i]`, `sym[i + 1]`). */
  predicate PairRanked(ranks: Ranks, sym: seq<Bytes>, i: nat)
    requires i + 1 < |sym|
  {
    Mergeable(ranks, sym[i], sym[i + 1])
  }

  function PairRank(ranks: Ranks, sym: seq<Bytes>, i: nat): nat
    requires i + 1 < |sym| && PairRanked(ranks, sym, i)
  {
    Rank(ranks, sym[i], sym[i + 1])
  }

  /** Pair `i` has the lowest rank, and is the leftmost to have it. */
  ghost predicate IsBest(ranks: Ranks, sym: seq<Bytes>, i: nat) {
    && i + 1 < |sym| && PairRanked(ranks, sym, i)
    && forall j :: 0 <= j < |sym| - 1 && PairRanked(ranks, sym, j) ==>
         PairRank(ranks, sym, i) < PairRank(ranks, sym, j) ||
         (PairRank(ranks, sym, i) == PairRank(ranks, sym, j) && i <= j)
  }

  ghost predicate NoPair(ranks: Ranks, sym: seq<Bytes>) {
    forall j :: 0 <= j < |sym| - 1 ==> !PairRanked(ranks, sym, j)
  }

  function Join(sym: seq<Bytes>, i: nat): seq<Bytes>
    requires i + 1 < |sym|
  {
    sym[..i] + [sym[i] + sym[i + 1]] + sym[i + 2..]
  }

  /** The best of the first `n` pairs, by a left-to-right scan. */
  function BestOf(ranks: Ranks, sym: seq<Bytes>, n: nat): (best: Option<nat>)
    requires n == 0 || n < |sym|
    ensures best.Some? ==> best.value < n && PairRanked(ranks, sym, best.value)
  {
    if n == 0 then None else
      var best := BestOf(ranks, sym, n - 1);
      if !PairRanked(ranks, sym, n - 1) then best
      else if best.Some? && PairRank(ranks, sym, best.value) <= PairRank(ranks, sym, n - 1) then best
      else Some(n - 1)
  }

  function Best(ranks: Ranks, sym: seq<Bytes>): Option<nat> {
    if |sym| == 0 then None else BestOf(ranks, sym, |sym| - 1)
  }

  /** Merge the lowest-rank adjacent pair, the leftmost on a tie, until none has a rank. */
  function Greedy(ranks: Ranks, sym: seq<Bytes>): seq<Bytes>
    decreases |sym|
  {
    match Best(ranks, sym)
    case None => sym
    case Some(i) => Greedy(ranks, Join(sym, i))
  }

  lemma {:induction false} BestOfIsLeast(ranks: Ranks, sym: seq<Bytes>, n: nat)
    requires n == 0 || n < |sym|
    ensures match BestOf(ranks, sym, n)
            case None => forall j :: 0 <= j < n ==> !PairRanked(ranks, sym, j)
            case Some(i) =>
              forall j :: 0 <= j < n && PairRanked(ranks, sym, j) ==>
                PairRank(ranks, sym, i) < PairRank(ranks, sym, j) ||
                (PairRank(ranks, sym, i) == PairRank(ranks, sym, j) && i <= j)
  {
    if n > 0 {
      BestOfIsLeast(ranks, sym, n - 1);
    }
  }

  lemma BestIs(ranks: Ranks, sym: seq<Bytes>)
    ensures Best(ranks, sym).None? <==> NoPair(ranks, sym)
    ensures forall i: nat :: IsBest(ranks, sym, i) <==> Best(ranks, sym) == Some(i)
  {
    if |sym| > 0 {
      BestOfIsLeast(ranks, sym, |sym| - 1);
    }
  }

  /** `bpe_emit_piece_greedy`, step 3: rescan every pair after every merge. */
  method MergeGreedy(ranks: Ranks, sym0: seq<Bytes>) returns (sym: seq<Bytes>)
    ensures sym == Greedy(ranks, sym0)
  {
    sym := sym0;
    while true
      invariant Greedy(ranks, sym) == Greedy(ranks, sym0)
      decreases |sym|
    {
      var best: Option<nat> := None;
      if |sym| > 0 {
        for i := 0 to |sym| - 1
          invariant best == BestOf(ranks, sym, i)
        {
          if PairRanked(ranks, sym, i) {
            if best.None? || PairRank(ranks, sym, i) < PairRank(ranks, sym, best.value) {
              best := Some(i);
            }
          }
        }
      }
      if best.None? {
        return;
      }
      sym := Join(sym, best.value);
    }
  }

  // ---- the linked symbols ----

  const NONE: int := -1

  /** `cuts` are the symbol boundaries of `enc`. */
  ghost predicate IsCut(enc: Bytes, cuts: seq<nat>) {
    && |cuts| >= 1 && cuts[0] == 0 && cuts[|cuts| - 1] == |enc|
    && forall i, j :: 0 <= i < j < |cuts| ==> cuts[i] < cuts[j]
  }

  ghost function Segments(enc: Bytes, cuts: seq<nat>): (sym: seq<Bytes>)
    requires IsCut(enc, cuts)
    ensures |sym| == |cuts| - 1
  {
    seq(|cuts| - 1, i requires 0 <= i < |cuts| - 1 => enc[cuts[i]..cuts[i + 1]])
  }

  /** Symbol `i` between the boundaries. */
  function Sym(enc: Bytes, cuts: seq<nat>, i: nat): Bytes
    requires i + 1 < |cuts| && cuts[i] <= cuts[i + 1] <= |enc|
  {
    enc[cuts[i]..cuts[i + 1]]
  }

  /** Symbol `i` is linked to its end. */
  ghost predicate Ends(cuts: seq<nat>, end: seq<int>, i: nat) {
    i + 1 < |cuts| && cuts[i] < |end| && end[cuts[i]] == cuts[i + 1]
  }

  /** Symbol `i` is linked to the one before it. */
  ghost predicate Follows(cuts: seq<nat>, prev: seq<int>, i: nat) {
    i + 1 < |cuts| && cuts[i] < |prev| && prev[cuts[i]] == if i == 0 then NONE else cuts[i - 1]
  }

  /** `end[s]` is where the symbol starting at `s` ends, `prev[s]` where the one before it starts;
      a position that starts no symbol has `end == NONE`. */
  ghost predicate Linked(enc: Bytes, cuts: seq<nat>, end: seq<int>, prev: seq<int>) {
    && IsCut(enc, cuts)
    && |end| == |prev| == |enc|
    && (forall i :: 0 <= i < |cuts| - 1 ==> Ends(cuts, end, i))
    && (forall i :: 0 <= i < |cuts| - 1 ==> Follows(cuts, prev, i))
    && (forall x :: 0 <= x < |end| && end[x] != NONE ==> x in cuts)
  }

  // ---- candidate pairs ----

  datatype Candidate = Candidate(rank: nat, l: nat, m: nat, r: nat)

  predicate CandidateLe(a: Candidate, b: Candidate) {
    a.rank < b.rank || (a.rank == b.rank &&
      (a.l < b.l || (a.l == b.l &&
        (a.m < b.m || (a.m == b.m && a.r <= b.r)))))
  }

  /** A candidate was right when pushed: it names two parts of `enc` and their rank. */
  ghost predicate Sound(ranks: Ranks, enc: Bytes, c: Candidate) {
    && c.l < c.m < c.r <= |enc|
    && Mergeable(ranks, enc[c.l..c.m], enc[c.m..c.r])
    && c.rank == Rank(ranks, enc[c.l..c.m], enc[c.m..c.r])
  }

  /** Pair `i` of the current symbols has a rank. */
  ghost predicate CutRanked(ranks: Ranks, enc: Bytes, cuts: seq<nat>, i: nat)
    requires IsCut(enc, cuts) && i + 2 < |cuts|
  {
    Mergeable(ranks, Sym(enc, cuts, i), Sym(enc, cuts, i + 1))
  }

  /** Pair `i` of the current symbols, as a candidate. */
  ghost function PairAt(ranks: Ranks, enc: Bytes, cuts: seq<nat>, i: nat): Candidate
    requires IsCut(enc, cuts) && i + 2 < |cuts| && CutRanked(ranks, enc, cuts, i)
  {
    Candidate(Rank(ranks, Sym(enc, cuts, i), Sym(enc, cuts, i + 1)), cuts[i], cuts[i + 1], cuts[i + 2])
  }

  /** The heap misses no ranked pair of the current symbols. */
  ghost predicate Complete(ranks: Ranks, enc: Bytes, cuts: seq<nat>, heap: multiset<Candidate>)
    requires IsCut(enc, cuts)
  {
    forall i :: 0 <= i < |cuts| - 2 && CutRanked(ranks, enc, cuts, i) ==>
      PairAt(ranks, enc, cuts, i) in heap
  }

  ghost predicate AllSound(ranks: Ranks, enc: Bytes, heap: multiset<Candidate>) {
    forall c :: c in heap ==> Sound(ranks, enc, c)
  }

  /** A popped candidate whose symbols still end where they did is a current pair. */
  lemma FreshIsPair(ranks: Ranks, enc: Bytes, cuts: seq<nat>, end: seq<int>, prev: seq<int>, c: Candidate)
    returns (i: nat)
    requires Linked(enc, cuts, end, prev) && Sound(ranks, enc, c)
    requires end[c.l] == c.m && end[c.m] == c.r
    ensures i + 2 < |cuts| && cuts[i] == c.l && cuts[i + 1] == c.m && cuts[i + 2] == c.r
    ensures CutRanked(ranks, enc, cuts, i) && PairAt(ranks, enc, cuts, i) == c
  {
    i :| 0 <= i < |cuts| && cuts[i] == c.l;
    assert Ends(cuts, end, i);
    assert Ends(cuts, end, i + 1);
  }

  /** The least candidate of a complete heap, if it is fresh, is the greedy choice. */
  lemma LeastIsBest(ranks: Ranks, enc: Bytes, cuts: seq<nat>, heap: multiset<Candidate>, c: Candidate, i: nat)
    requires IsCut(enc, cuts) && Complete(ranks, enc, cuts, heap)
    requires PriorityQueue.Least(c, heap, CandidateLe)
    requires i + 2 < |cuts| && CutRanked(ranks, enc, cuts, i) && PairAt(ranks, enc, cuts, i) == c
    ensures Best(ranks, Segments(enc, cuts)) == Some(i)
  {
    var sym := Segments(enc, cuts);
    forall j | 0 <= j < |sym| - 1 && PairRanked(ranks, sym, j)
      ensures PairRank(ranks, sym, i) < PairRank(ranks, sym, j) ||
              (PairRank(ranks, sym, i) == PairRank(ranks, sym, j) && i <= j)
    {
      assert CutRanked(ranks, enc, cuts, j);
      assert CandidateLe(c, PairAt(ranks, enc, cuts, j));
      if j < i {
        assert cuts[j] < cuts[i];
      }
    }
    assert IsBest(ranks, sym, i);
    BestIs(ranks, sym);
  }

  ghost function Uncut(cuts: seq<nat>, i: nat): seq<nat>
    requires i + 1 < |cuts|
  {
    cuts[..i + 1] + cuts[i + 2..]
  }

  lemma UncutAt(cuts: seq<nat>, i: nat, j: nat)
    requires i + 1 < |cuts| && j < |cuts| - 1
    ensures |Uncut(cuts, i)| == |cuts| - 1
    ensures Uncut(cuts, i)[j] == cuts[if j <= i then j else j + 1]
  {
  }

  lemma UncutIsCut(enc: Bytes, cuts: seq<nat>, i: nat)
    requires IsCut(enc, cuts) && i + 2 < |cuts|
    ensures IsCut(enc, Uncut(cuts, i)) && |Uncut(cuts, i)| == |cuts| - 1
  {
    var cuts' := Uncut(cuts, i);
    forall j, k | 0 <= j < k < |cuts'|
      ensures cuts'[j] < cuts'[k]
    {
      UncutAt(cuts, i, j);
      UncutAt(cuts, i, k);
    }
  }

  lemma JoinAt(sym: seq<Bytes>, i: nat, j: nat)
    requires i + 1 < |sym| && j < |sym| - 1
    ensures |Join(sym, i)| == |sym| - 1
    ensures Join(sym, i)[j] == if j < i then sym[j] else if j == i then sym[i] + sym[i + 1] else sym[j + 1]
  {
  }

  lemma UncutSym(enc: Bytes, cuts: seq<nat>, i: nat, j: nat)
    requires IsCut(enc, cuts) && i + 2 < |cuts| && j < |cuts| - 2 && IsCut(enc, Uncut(cuts, i))
    ensures |Uncut(cuts, i)| == |cuts| - 1
    ensures Sym(enc, Uncut(cuts, i), j) ==
            if j < i then Sym(enc, cuts, j)
            else if j == i then Sym(enc, cuts, i) + Sym(enc, cuts, i + 1)
            else Sym(enc, cuts, j + 1)
  {
    UncutAt(cuts, i, j);
    UncutAt(cuts, i, j + 1);
    if j == i {
      assert enc[cuts[i]..cuts[i + 1]] + enc[cuts[i + 1]..cuts[i + 2]] == enc[cuts[i]..cuts[i + 2]];
    }
  }

  lemma SegmentsAt(enc: Bytes, cuts: seq<nat>, j: nat)
    requires IsCut(enc, cuts) && j + 1 < |cuts|
    ensures Segments(enc, cuts)[j] == Sym(enc, cuts, j)
  {
  }

  lemma UncutSegment(enc: Bytes, cuts: seq<nat>, i: nat, j: nat)
    requires IsCut(enc, cuts) && i + 2 < |cuts| && IsCut(enc, Uncut(cuts, i)) && j + 2 < |cuts|
    ensures Segments(enc, Uncut(cuts, i))[j] == Join(Segments(enc, cuts), i)[j]
  {
    UncutSym(enc, cuts, i, j);
    JoinAt(Segments(enc, cuts), i, j);
    SegmentsAt(enc, Uncut(cuts, i), j);
  }

  /** Removing a boundary joins the two symbols it separated. */
  lemma UncutIsJoin(enc: Bytes, cuts: seq<nat>, i: nat)
    requires IsCut(enc, cuts) && i + 2 < |cuts|
    ensures IsCut(enc, Uncut(cuts, i))
    ensures Segments(enc, Uncut(cuts, i)) == Join(Segments(enc, cuts), i)
  {
    UncutIsCut(enc, cuts, i);
    var cuts' := Uncut(cuts, i);
    forall j | 0 <= j < |cuts'| - 1
      ensures Segments(enc, cuts')[j] == Join(Segments(enc, cuts), i)[j]
    {
      UncutSegment(enc, cuts, i, j);
    }
  }

  /** The links of one symbol after the merge at `i`. */
  lemma LinkAfterMerge(enc: Bytes, cuts: seq<nat>, end: seq<int>, prev: seq<int>, i: nat, j: nat, end': seq<int>,
                       prev': seq<int>)
    requires Linked(enc, cuts, end, prev) && i + 2 < |cuts| && j < |cuts| - 2
    requires end' == end[cuts[i] := cuts[i + 2]][cuts[i + 1] := NONE]
    requires prev' == if cuts[i + 2] < |enc| then prev[cuts[i + 2] := cuts[i]] else prev
    ensures Ends(Uncut(cuts, i), end', j) && Follows(Uncut(cuts, i), prev', j)
  {
    var k := if j <= i then j else j + 1;
    UncutAt(cuts, i, j);
    UncutAt(cuts, i, j + 1);
    assert Ends(cuts, end, k) && Follows(cuts, prev, k);
    assert cuts[k] != cuts[i + 1] && (cuts[k] == cuts[i] <==> k == i) && (cuts[k] == cuts[i + 2] <==> k == i + 2);
    if j > 0 {
      UncutAt(cuts, i, j - 1);
    }
  }

  lemma LinkedAfterMerge(enc: Bytes, cuts: seq<nat>, end: seq<int>, prev: seq<int>, i: nat)
    requires Linked(enc, cuts, end, prev) && i + 2 < |cuts|
    ensures var (l, m, r) := (cuts[i], cuts[i + 1], cuts[i + 2]);
            Linked(enc, Uncut(cuts, i), end[l := r][m := NONE], if r < |enc| then prev[r := l] else prev)
  {
    var (l, m, r) := (cuts[i], cuts[i + 1], cuts[i + 2]);
    var cuts' := Uncut(cuts, i);
    var end' := end[l := r][m := NONE];
    var prev' := if r < |enc| then prev[r := l] else prev;
    UncutIsCut(enc, cuts, i);
    forall j | 0 <= j < |cuts'| - 1
      ensures Ends(cuts', end', j) && Follows(cuts', prev', j)
    {
      LinkAfterMerge(enc, cuts, end, prev, i, j, end', prev');
    }
    forall x | 0 <= x < |end'| && end'[x] != NONE
      ensures x in cuts'
    {
      var k :| 0 <= k < |cuts| && cuts[k] == x;
      UncutAt(cuts, i, if k <= i then k else k - 1);
    }
  }

  /** What `push` adds: the pair, if it has a rank. */
  function Pushed(ranks: Ranks, enc: Bytes, l: nat, m: nat, r: nat): multiset<Candidate>
    requires l <= m <= r <= |enc|
  {
    var a, b := enc[l..m], enc[m..r];
    if Mergeable(ranks, a, b) then multiset{Candidate(Rank(ranks, a, b), l, m, r)} else multiset{}
  }

  /** The two pairs a merged symbol forms with its neighbours. */
  function Neighbours(ranks: Ranks, enc: Bytes, cuts: seq<nat>, i: nat): multiset<Candidate>
    requires IsCut(enc, cuts) && i + 2 < |cuts|
  {
    (if i + 3 < |cuts| then Pushed(ranks, enc, cuts[i], cuts[i + 2], cuts[i + 3]) else multiset{}) +
    (if i > 0 then Pushed(ranks, enc, cuts[i - 1], cuts[i], cuts[i + 2]) else multiset{})
  }

  lemma CompleteAfterMerge(ranks: Ranks, enc: Bytes, cuts: seq<nat>, heap: multiset<Candidate>, c: Candidate, i: nat)
    requires IsCut(enc, cuts) && i + 2 < |cuts| && Complete(ranks, enc, cuts, heap)
    requires c in heap && c.l == cuts[i] && c.m == cuts[i + 1]
    ensures IsCut(enc, Uncut(cuts, i))
    ensures Complete(ranks, enc, Uncut(cuts, i), heap - multiset{c} + Neighbours(ranks, enc, cuts, i))
  {
    UncutIsJoin(enc, cuts, i);
    var cuts' := Uncut(cuts, i);
    forall j | 0 <= j < |cuts'| - 2 && CutRanked(ranks, enc, cuts', j)
      ensures PairAt(ranks, enc, cuts', j) in heap - multiset{c} + Neighbours(ranks, enc, cuts, i)
    {
      if j == i || j + 1 == i {
        NewPair(ranks, enc, cuts, i, j);
      } else {
        OldPair(ranks, enc, cuts, heap, c, i, j);
      }
    }
  }

  /** A pair with the merged symbol is one of those pushed. */
  lemma NewPair(ranks: Ranks, enc: Bytes, cuts: seq<nat>, i: nat, j: nat)
    requires IsCut(enc, cuts) && i + 2 < |cuts| && IsCut(enc, Uncut(cuts, i)) && j + 2 < |Uncut(cuts, i)|
    requires CutRanked(ranks, enc, Uncut(cuts, i), j) && (j == i || j + 1 == i)
    ensures PairAt(ranks, enc, Uncut(cuts, i), j) in Neighbours(ranks, enc, cuts, i)
  {
    UncutAt(cuts, i, j);
    UncutAt(cuts, i, j + 1);
    UncutAt(cuts, i, j + 2);
  }

  lemma SamePair(ranks: Ranks, enc: Bytes, cuts: seq<nat>, i: nat, j: nat)
    requires IsCut(enc, cuts) && i + 2 < |cuts| && IsCut(enc, Uncut(cuts, i)) && j + 2 < |Uncut(cuts, i)|
    requires CutRanked(ranks, enc, Uncut(cuts, i), j) && j != i && j + 1 != i
    ensures var k := if j < i then j else j + 1;
            CutRanked(ranks, enc, cuts, k) && PairAt(ranks, enc, cuts, k) == PairAt(ranks, enc, Uncut(cuts, i), j)
  {
    UncutAt(cuts, i, j);
    UncutAt(cuts, i, j + 1);
    UncutAt(cuts, i, j + 2);
    UncutSym(enc, cuts, i, j);
    UncutSym(enc, cuts, i, j + 1);
  }

  /** Any other pair was there before. */
  lemma OldPair(ranks: Ranks, enc: Bytes, cuts: seq<nat>, heap: multiset<Candidate>, c: Candidate, i: nat, j: nat)
    requires IsCut(enc, cuts) && i + 2 < |cuts| && Complete(ranks, enc, cuts, heap) && c.l == cuts[i]
    requires IsCut(enc, Uncut(cuts, i)) && j + 2 < |Uncut(cuts, i)|
    requires CutRanked(ranks, enc, Uncut(cuts, i), j) && j != i && j + 1 != i
    ensures PairAt(ranks, enc, Uncut(cuts, i), j) in heap - multiset{c}
  {
    var k := if j < i then j else j + 1;
    var p := PairAt(ranks, enc, Uncut(cuts, i), j);
    SamePair(ranks, enc, cuts, i, j);
    assert CutRanked(ranks, enc, cuts, k) && PairAt(ranks, enc, cuts, k) == p;
    assert p.l == cuts[k] && cuts[k] != cuts[i];
  }

  lemma PushedSound(ranks: Ranks, enc: Bytes, l: nat, m: nat, r: nat)
    requires l < m < r <= |enc|
    ensures AllSound(ranks, enc, Pushed(ranks, enc, l, m, r))
  {
  }

  // ---- the heap loop ----

  method Push(ranks: Ranks, enc: Bytes, heap: multiset<Candidate>, l: nat, m: nat, r: nat)
    returns (heap': multiset<Candidate>)
    requires l < m < r <= |enc| && AllSound(ranks, enc, heap)
    ensures heap' == heap + Pushed(ranks, enc, l, m, r) && AllSound(ranks, enc, heap')
  {
    PushedSound(ranks, enc, l, m, r);
    heap' := heap + Pushed(ranks, enc, l, m, r);
  }

  /** The first `off` bytes are linked. */
  ghost predicate LinkedUpTo(enc: Bytes, off: nat, cuts: seq<nat>, end: seq<int>, prev: seq<int>) {
    && off <= |enc| && IsCut(enc[..off], cuts)
    && |end| == |prev| == |enc|
    && (forall i :: 0 <= i < |cuts| - 1 ==> Ends(cuts, end, i))
    && (forall i :: 0 <= i < |cuts| - 1 ==> Follows(cuts, prev, i))
    && (forall x :: 0 <= x < |end| && end[x] != NONE ==> x in cuts)
  }

  lemma LinkedUpToStep(enc: Bytes, off: nat, cuts: seq<nat>, end: seq<int>, prev: seq<int>, e: nat, last: int)
    requires LinkedUpTo(enc, off, cuts, end, prev) && off < e <= |enc|
    requires last == if |cuts| == 1 then NONE else cuts[|cuts| - 2]
    ensures LinkedUpTo(enc, e, cuts + [e], end[off := e], prev[off := last])
  {
    SegmentsExtend(enc, cuts, off, e);
    var (cuts', end', prev') := (cuts + [e], end[off := e], prev[off := last]);
    forall i | 0 <= i < |cuts'| - 1
      ensures Ends(cuts', end', i) && Follows(cuts', prev', i)
    {
      if i < |cuts| - 1 {
        assert Ends(cuts, end, i) && Follows(cuts, prev, i);
      }
    }
    forall x | 0 <= x < |end'| && end'[x] != NONE
      ensures x in cuts'
    {
      assert x != off ==> x in cuts;
      assert cuts'[|cuts| - 1] == off;
    }
  }

  /** The symbols so far, and the characters of the rest. */
  ghost predicate CharactersUpTo(enc: Bytes, off: nat, cuts: seq<nat>) {
    && off <= |enc| && IsCut(enc[..off], cuts)
    && Segments(enc[..off], cuts) + Characters(enc[off..]) == Characters(enc)
  }

  lemma CharactersUpToStep(enc: Bytes, off: nat, cuts: seq<nat>, e: nat)
    requires CharactersUpTo(enc, off, cuts) && off < |enc|
    requires e == (if off + Utf8Len(enc[off]) > |enc| then |enc| else off + Utf8Len(enc[off]))
    ensures CharactersUpTo(enc, e, cuts + [e])
  {
    SegmentsExtend(enc, cuts, off, e);
    CharactersStep(enc, off, e);
  }

  /** Step 2: one symbol per character of `enc`. */
  method LinkCharacters(enc: Bytes) returns (end: seq<int>, prev: seq<int>, ghost cuts: seq<nat>)
    ensures Linked(enc, cuts, end, prev) && Segments(enc, cuts) == Characters(enc)
  {
    var n := |enc|;
    end, prev := seq(n, _ => NONE), seq(n, _ => NONE);
    var off, last := 0, NONE;
    cuts := [0];
    while off < n
      invariant LinkedUpTo(enc, off, cuts, end, prev)
      invariant last == if |cuts| == 1 then NONE else cuts[|cuts| - 2]
      invariant CharactersUpTo(enc, off, cuts)
    {
      var e := if off + Utf8Len(enc[off]) > n then n else off + Utf8Len(enc[off]);
      LinkedUpToStep(enc, off, cuts, end, prev, e, last);
      CharactersUpToStep(enc, off, cuts, e);
      end := end[off := e];
      prev := prev[off := last];
      cuts := cuts + [e];
      last := off;
      off := e;
    }
    assert enc[..n] == enc && enc[n..] == [];
  }

  lemma CharactersStep(enc: Bytes, off: nat, e: nat)
    requires off < |enc| && e == (if off + Utf8Len(enc[off]) > |enc| then |enc| else off + Utf8Len(enc[off]))
    ensures Characters(enc[off..]) == [enc[off..e]] + Characters(enc[e..])
  {
    var rest, n := enc[off..], Utf8Len(enc[off]);
    if n < |rest| {
      assert rest[..n] == enc[off..e] && rest[n..] == enc[e..];
    } else {
      assert rest == enc[off..e] && enc[e..] == [];
    }
  }

  lemma SliceOfPrefix(enc: Bytes, n: nat, lo: nat, hi: nat)
    requires lo <= hi <= n <= |enc|
    ensures enc[..n][lo..hi] == enc[lo..hi]
  {
  }

  lemma SegmentsExtend(enc: Bytes, cuts: seq<nat>, off: nat, e: nat)
    requires off < e <= |enc| && IsCut(enc[..off], cuts)
    ensures IsCut(enc[..e], cuts + [e])
    ensures Segments(enc[..e], cuts + [e]) == Segments(enc[..off], cuts) + [enc[off..e]]
  {
    var cuts' := cuts + [e];
    forall j | 0 <= j < |cuts|
      ensures Segments(enc[..e], cuts')[j] == (Segments(enc[..off], cuts) + [enc[off..e]])[j]
    {
      if j < |cuts| - 1 {
        SliceOfPrefix(enc, e, cuts[j], cuts[j + 1]);
        SliceOfPrefix(enc, off, cuts[j], cuts[j + 1]);
      } else {
        SliceOfPrefix(enc, e, off, e);
      }
    }
  }

  /** Step 3: merge off a min-heap of candidate pairs, each checked against the current symbols
      when popped. Same result as rescanning every pair after every merge. */
  method MergeByHeap(ranks: Ranks, enc: Bytes) returns (end: seq<int>, ghost cuts: seq<nat>)
    ensures IsCut(enc, cuts) && |end| == |enc|
    ensures forall i :: 0 <= i < |cuts| - 1 ==> Ends(cuts, end, i)
    ensures Segments(enc, cuts) == Greedy(ranks, Characters(enc))
  {
    var n := |enc|;
    var prev;
    end, prev, cuts := LinkCharacters(enc);
    var heap := FirstCandidates(ranks, enc, end, prev, cuts);
    while heap != multiset{}
      invariant Linked(enc, cuts, end, prev)
      invariant Complete(ranks, enc, cuts, heap) && AllSound(ranks, enc, heap)
      invariant Greedy(ranks, Segments(enc, cuts)) == Greedy(ranks, Characters(enc))
      decreases |cuts|, |heap|
    {
      var c, rest := PriorityQueue.Pop(heap, CandidateLe);
      if end[c.l] != c.m || end[c.m] != c.r {
        StaleIsNoPair(ranks, enc, cuts, end, prev, heap, c);
        heap := rest;
        continue;
      }
      end, prev, heap, cuts := MergePair(ranks, enc, end, prev, heap, rest, c, cuts);
    }
    NothingLeft(ranks, enc, cuts);
  }

  lemma NothingLeft(ranks: Ranks, enc: Bytes, cuts: seq<nat>)
    requires IsCut(enc, cuts) && Complete(ranks, enc, cuts, multiset{})
    ensures Greedy(ranks, Segments(enc, cuts)) == Segments(enc, cuts)
  {
    var sym := Segments(enc, cuts);
    forall j | 0 <= j < |sym| - 1
      ensures !PairRanked(ranks, sym, j)
    {
      assert PairRanked(ranks, sym, j) ==> CutRanked(ranks, enc, cuts, j);
    }
    BestIs(ranks, sym);
  }

  lemma StaleIsNoPair(ranks: Ranks, enc: Bytes, cuts: seq<nat>, end: seq<int>, prev: seq<int>,
                      heap: multiset<Candidate>, c: Candidate)
    requires Linked(enc, cuts, end, prev) && Complete(ranks, enc, cuts, heap) && c in heap && Sound(ranks, enc, c)
    requires end[c.l] != c.m || end[c.m] != c.r
    ensures Complete(ranks, enc, cuts, heap - multiset{c})
  {
    forall i | 0 <= i < |cuts| - 2 && CutRanked(ranks, enc, cuts, i)
      ensures PairAt(ranks, enc, cuts, i) in heap - multiset{c}
    {
      assert Ends(cuts, end, i) && Ends(cuts, end, i + 1);
      assert PairAt(ranks, enc, cuts, i) != c;
    }
  }

  /** Every adjacent pair of the initial symbols that has a rank. */
  method FirstCandidates(ranks: Ranks, enc: Bytes, end: seq<int>, prev: seq<int>, ghost cuts: seq<nat>)
    returns (heap: multiset<Candidate>)
    requires Linked(enc, cuts, end, prev)
    ensures Complete(ranks, enc, cuts, heap) && AllSound(ranks, enc, heap)
  {
    var n := |enc|;
    heap := multiset{};
    var s := 0;
    ghost var i := 0;
    while s < n && end[s] < n
      invariant 0 <= i < |cuts| && s == cuts[i]
      invariant AllSound(ranks, enc, heap)
      invariant forall j :: 0 <= j < i && j < |cuts| - 2 && CutRanked(ranks, enc, cuts, j) ==>
                PairAt(ranks, enc, cuts, j) in heap
      decreases n - s
    {
      assert Ends(cuts, end, i);
      var m := end[s];
      assert Ends(cuts, end, i + 1);
      heap := Push(ranks, enc, heap, s, m, end[m]);
      s := m;
      i := i + 1;
    }
    if i + 1 < |cuts| {
      assert Ends(cuts, end, i);
      ghost var x := |cuts| - 1;
      assert cuts[x] == n;
    }
  }

  /** A fresh pair is merged and the pairs of the merged symbol are pushed. */
  method MergePair(ranks: Ranks, enc: Bytes, end: seq<int>, prev: seq<int>, ghost heap: multiset<Candidate>,
                   rest: multiset<Candidate>,
                   c: Candidate, ghost cuts: seq<nat>)
    returns (end': seq<int>, prev': seq<int>, heap': multiset<Candidate>, ghost cuts': seq<nat>)
    requires Linked(enc, cuts, end, prev) && Complete(ranks, enc, cuts, heap) && AllSound(ranks, enc, heap)
    requires PriorityQueue.Least(c, heap, CandidateLe) && rest == heap - multiset{c}
    requires Sound(ranks, enc, c) && end[c.l] == c.m && end[c.m] == c.r
    ensures Linked(enc, cuts', end', prev') && |cuts'| < |cuts|
    ensures Complete(ranks, enc, cuts', heap') && AllSound(ranks, enc, heap')
    ensures Greedy(ranks, Segments(enc, cuts')) == Greedy(ranks, Segments(enc, cuts))
  {
    var n, l, m, r := |enc|, c.l, c.m, c.r;
    ghost var i := FreshIsPair(ranks, enc, cuts, end, prev, c);
    LeastIsBest(ranks, enc, cuts, heap, c, i);
    UncutIsJoin(enc, cuts, i);
    LinkedAfterMerge(enc, cuts, end, prev, i);
    CompleteAfterMerge(ranks, enc, cuts, heap, c, i);
    cuts' := Uncut(cuts, i);
    end' := end[l := r][m := NONE];
    prev' := if r < n then prev[r := l] else prev;
    heap' := PushNeighbours(ranks, enc, end', prev', rest, c, cuts, i);
    assert |cuts'| < |cuts|;
  }

  /** The merged symbol with its right and its left neighbour. */
  method PushNeighbours(ranks: Ranks, enc: Bytes, end: seq<int>, prev: seq<int>, rest: multiset<Candidate>,
                        c: Candidate, ghost cuts: seq<nat>, ghost i: nat)
    returns (heap: multiset<Candidate>)
    requires IsCut(enc, cuts) && i + 2 < |cuts| && Linked(enc, Uncut(cuts, i), end, prev) && AllSound(ranks, enc, rest)
    requires c.l == cuts[i] && c.m == cuts[i + 1] && c.r == cuts[i + 2]
    ensures heap == rest + Neighbours(ranks, enc, cuts, i) && AllSound(ranks, enc, heap)
  {
    var l, r := c.l, c.r;
    heap := rest;
    ghost var cuts' := Uncut(cuts, i);
    UncutAt(cuts, i, i);
    UncutAt(cuts, i, i + 1);
    assert Ends(cuts', end, i) && Follows(cuts', prev, i);
    if r < |enc| {
      UncutAt(cuts, i, i + 2);
      assert Ends(cuts', end, i + 1);
      heap := Push(ranks, enc, heap, l, r, end[r]);
    }
    if prev[l] != NONE {
      UncutAt(cuts, i, i - 1);
      heap := Push(ranks, enc, heap, prev[l], l, r);
    }
  }

  // ---- ids ----

  datatype Vocab = Vocab(ids: map<Bytes, int>, ranks: Ranks)

  /** A symbol that is no token falls back to its single bytes; a byte that is none is dropped. */
  function ByteIds(ids: map<Bytes, int>, piece: Bytes): seq<int> {
    if piece == [] then [] else
      ByteIds(ids, piece[..|piece| - 1]) +
      (var b := [piece[|piece| - 1]]; if b in ids then [ids[b]] else [])
  }

  function SymbolIds(ids: map<Bytes, int>, piece: Bytes): seq<int> {
    if piece in ids then [ids[piece]] else ByteIds(ids, piece)
  }

  function Emit(ids: map<Bytes, int>, sym: seq<Bytes>): seq<int> {
    if sym == [] then [] else Emit(ids, sym[..|sym| - 1]) + SymbolIds(ids, sym[|sym| - 1])
  }

  /** The token ids of one piece of raw bytes. */
  function EncodePiece(v: Vocab, raw: Bytes): seq<int> {
    Emit(v.ids, Greedy(v.ranks, Characters(ByteEncode(raw))))
  }

  method EmitSymbol(ids: map<Bytes, int>, piece: Bytes, out: seq<int>) returns (out': seq<int>)
    ensures out' == out + SymbolIds(ids, piece)
  {
    if piece in ids {
      return out + [ids[piece]];
    }
    out' := out;
    for i := 0 to |piece|
      invariant out' == out + ByteIds(ids, piece[..i])
    {
      assert piece[..i + 1][..i] == piece[..i];
      if [piece[i]] in ids {
        out' := out' + [ids[[piece[i]]]];
      }
    }
    assert piece[..|piece|] == piece;
  }

  lemma EmitStep(ids: map<Bytes, int>, sym: seq<Bytes>, i: nat)
    requires i < |sym|
    ensures Emit(ids, sym[..i + 1]) == Emit(ids, sym[..i]) + SymbolIds(ids, sym[i])
  {
    assert sym[..i + 1][..i] == sym[..i];
  }

  method EmitAll(ids: map<Bytes, int>, sym: seq<Bytes>, out: seq<int>) returns (out': seq<int>)
    ensures out' == out + Emit(ids, sym)
  {
    out' := out;
    for i := 0 to |sym|
      invariant out' == out + Emit(ids, sym[..i])
    {
      EmitStep(ids, sym, i);
      Assoc(out, Emit(ids, sym[..i]), SymbolIds(ids, sym[i]));
      out' := EmitSymbol(ids, sym[i], out');
    }
    assert sym[..|sym|] == sym;
  }

  /** `bpe_emit_piece_greedy`. */
  method BpeEmitPieceGreedy(v: Vocab, raw: Bytes, out: seq<int>) returns (out': seq<int>)
    ensures out' == out + EncodePiece(v, raw)
  {
    var enc := ByteEncodeLoop(raw);
    var sym := MergeGreedy(v.ranks, Characters(enc));
    out' := EmitAll(v.ids, sym, out);
  }

  /** `bpe_emit_piece`: the heap loop emits, id for id, what the rescanning loop does. */
  method BpeEmitPiece(v: Vocab, raw: Bytes, out: seq<int>) returns (out': seq<int>)
    ensures out' == out + EncodePiece(v, raw)
  {
    var enc := ByteEncodeLoop(raw);
    ghost var cuts;
    var end;
    end, cuts := MergeByHeap(v.ranks, enc);
    out' := EmitLinked(v.ids, enc, end, out, cuts);
  }

  /** The ids of the first `i` segments. */
  ghost function EmitFirst(ids: map<Bytes, int>, enc: Bytes, cuts: seq<nat>, i: nat): seq<int>
    requires IsCut(enc, cuts) && i < |cuts|
  {
    Emit(ids, Segments(enc, cuts)[..i])
  }

  lemma EmitNext(ids: map<Bytes, int>, enc: Bytes, cuts: seq<nat>, i: nat, out: seq<int>)
    requires IsCut(enc, cuts) && i + 1 < |cuts|
    ensures out + EmitFirst(ids, enc, cuts, i + 1) ==
            (out + EmitFirst(ids, enc, cuts, i)) + SymbolIds(ids, Sym(enc, cuts, i))
  {
    EmitStep(ids, Segments(enc, cuts), i);
    SegmentsAt(enc, cuts, i);
    Assoc(out, EmitFirst(ids, enc, cuts, i), SymbolIds(ids, Sym(enc, cuts, i)));
  }

  /** Step 4 over the linked symbols. */
  method EmitLinked(ids: map<Bytes, int>, enc: Bytes, end: seq<int>, out: seq<int>, ghost cuts: seq<nat>)
    returns (out': seq<int>)
    requires IsCut(enc, cuts) && |end| == |enc|
    requires forall i :: 0 <= i < |cuts| - 1 ==> Ends(cuts, end, i)
    ensures out' == out + Emit(ids, Segments(enc, cuts))
  {
    var s := 0;
    ghost var i := 0;
    out' := out;
    while s < |enc|
      invariant 0 <= i < |cuts| && s == cuts[i]
      invariant out' == out + EmitFirst(ids, enc, cuts, i)
    {
      EmitNext(ids, enc, cuts, i, out);
      assert Ends(cuts, end, i);
      out' := EmitSymbol(ids, enc[s..end[s]], out');
      s := end[s];
      i := i + 1;
    }
    WholeSegments(enc, cuts, i);
  }

  lemma WholeSegments(enc: Bytes, cuts: seq<nat>, i: nat)
    requires IsCut(enc, cuts) && i < |cuts| && cuts[i] >= |enc|
    ensures i == |cuts| - 1 && Segments(enc, cuts)[..i] == Segments(enc, cuts)
  {
    var last := |cuts| - 1;
    assert cuts[last] == |enc|;
  }
}
