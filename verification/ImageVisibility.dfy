/** Which keys a prompt row attends to when images are visible in both directions
    (scripts/gen_image_visibility_vectors.py). */
module ImageVisibility {
  const IMAGE_START := 0
  const IMAGE_END := 4

  predicate IsStart(ids: seq<int>, vocab: int, i: nat)
    requires i < |ids|
  {
    ids[i] == vocab + IMAGE_START
  }

  predicate IsEnd(ids: seq<int>, vocab: int, i: nat)
    requires i < |ids|
  {
    ids[i] == vocab + IMAGE_END
  }

  function Min(a: int, b: int): int {
    if a <= b then a else b
  }

  function Max(a: int, b: int): int {
    if a >= b then a else b
  }

  // ---- the scans, for any token stream ----

  /** Starts minus ends among the first `n` tokens. */
  function Open(ids: seq<int>, vocab: int, n: nat): int
    requires n <= |ids|
  {
    if n == 0 then 0 else
      Open(ids, vocab, n - 1) + (if IsStart(ids, vocab, n - 1) then 1 else 0)
      - (if IsEnd(ids, vocab, n - 1) then 1 else 0)
  }

  predicate Valid(ids: seq<int>, vocab: int, i: nat)
    requires i < |ids|
  {
    Open(ids, vocab, i + 1) > 0 || IsEnd(ids, vocab, i)
  }

  /** The last start among the first `n` tokens; 0 if there is none. */
  function LastStart(ids: seq<int>, vocab: int, n: nat): (s: nat)
    requires n <= |ids|
    ensures s == 0 || s < n
  {
    if n == 0 then 0 else if IsStart(ids, vocab, n - 1) then n - 1 else LastStart(ids, vocab, n - 1)
  }

  /** The first end at or after `i`; the length if there is none. */
  function NextEnd(ids: seq<int>, vocab: int, i: nat): (e: nat)
    requires i <= |ids|
    ensures i <= e <= |ids|
    decreases |ids| - i
  {
    if i == |ids| then i else if IsEnd(ids, vocab, i) then i else NextEnd(ids, vocab, i + 1)
  }

  function LeftOf(ids: seq<int>, vocab: int, limit: int, i: nat): int
    requires i < |ids|
  {
    Min(if Valid(ids, vocab, i) then i - LastStart(ids, vocab, i + 1) else 0, limit - 1)
  }

  function RightOf(ids: seq<int>, vocab: int, limit: int, i: nat): int
    requires i < |ids|
  {
    Min(if Valid(ids, vocab, i) then NextEnd(ids, vocab, i) - i else 0, limit)
  }

  /** `get_image_visible`: prefix counts, a running maximum of starts and a reverse running minimum
      of ends. */
  method GetImageVisible(ids: seq<int>, vocab: int, limit: int) returns (left: seq<int>, right: seq<int>)
    ensures |left| == |right| == |ids|
    ensures forall i :: 0 <= i < |ids| ==>
            left[i] == LeftOf(ids, vocab, limit, i) && right[i] == RightOf(ids, vocab, limit, i)
  {
    var n := |ids|;
    var a, b, m := 0, 0, 0;
    var valid: seq<bool>, starts: seq<int> := [], [];
    for i := 0 to n
      invariant a - b == Open(ids, vocab, i) && m == LastStart(ids, vocab, i)
      invariant |valid| == |starts| == i
      invariant forall j :: 0 <= j < i ==> valid[j] == Valid(ids, vocab, j) && starts[j] == LastStart(ids, vocab, j + 1)
    {
      a := a + if IsStart(ids, vocab, i) then 1 else 0;
      b := b + if IsEnd(ids, vocab, i) then 1 else 0;
      valid := valid + [a > b || IsEnd(ids, vocab, i)];
      m := Max(m, if IsStart(ids, vocab, i) then i else 0);
      starts := starts + [m];
    }
    var ends := NextEnds(ids, vocab);
    left := seq(n, i requires 0 <= i < n => Min(if valid[i] then i - starts[i] else 0, limit - 1));
    right := seq(n, i requires 0 <= i < n => Min(if valid[i] then ends[i] - i else 0, limit));
  }

  /** The reverse running minimum. */
  method NextEnds(ids: seq<int>, vocab: int) returns (ends: seq<int>)
    ensures |ends| == |ids| && forall j :: 0 <= j < |ids| ==> ends[j] == NextEnd(ids, vocab, j)
  {
    var n := |ids|;
    var m := n;
    ends := seq(n, _ => 0);
    for i := n downto 0
      invariant |ends| == n && m == NextEnd(ids, vocab, i)
      invariant forall j :: i <= j < n ==> ends[j] == NextEnd(ids, vocab, j)
    {
      m := Min(m, if IsEnd(ids, vocab, i) then i else n);
      ends := ends[i := m];
    }
  }

  // ---- prompts with images ----

  /** An image occupies the tokens `[s, e]`, start to end. */
  datatype Span = Span(s: nat, e: nat)

  ghost predicate InOrder(spans: seq<Span>) {
    && (forall k :: 0 <= k < |spans| ==> spans[k].s < spans[k].e)
    && (forall j, k :: 0 <= j < k < |spans| ==> spans[j].e < spans[k].s)
  }

  /** The images of a prompt in order: starts and ends are exactly the span ends. */
  ghost predicate HasSpans(ids: seq<int>, vocab: int, spans: seq<Span>) {
    && InOrder(spans) && (forall k :: 0 <= k < |spans| ==> spans[k].e < |ids|)
    && (forall k :: 0 <= k < |spans| ==> ids[spans[k].s] == vocab && ids[spans[k].e] == vocab + 4)
    && (forall i :: 0 <= i < |ids| && Asked(i) && ids[i] == vocab ==> exists k :: 0 <= k < |spans| && spans[k].s == i)
    && (forall i :: 0 <= i < |ids| && Asked(i) && ids[i] == vocab + 4 ==>
          exists k :: 0 <= k < |spans| && spans[k].e == i)
  }

  /** Always true: names the tokens whose span is looked up in a proof. */
  ghost predicate Asked(i: int) {
    true
  }

  lemma SpanOfStart(ids: seq<int>, vocab: int, spans: seq<Span>, i: nat) returns (k: nat)
    requires HasSpans(ids, vocab, spans) && i < |ids| && IsStart(ids, vocab, i)
    ensures k < |spans| && spans[k].s == i
  {
    assert Asked(i);
    k :| 0 <= k < |spans| && spans[k].s == i;
  }

  lemma SpanOfEnd(ids: seq<int>, vocab: int, spans: seq<Span>, i: nat) returns (k: nat)
    requires HasSpans(ids, vocab, spans) && i < |ids| && IsEnd(ids, vocab, i)
    ensures k < |spans| && spans[k].e == i
  {
    assert Asked(i);
    k :| 0 <= k < |spans| && spans[k].e == i;
  }

  ghost predicate InSpan(spans: seq<Span>, k: nat, i: nat)
    requires k < |spans|
  {
    spans[k].s <= i <= spans[k].e
  }

  ghost predicate InImage(spans: seq<Span>, i: nat) {
    exists k :: 0 <= k < |spans| && InSpan(spans, k, i)
  }

  ghost predicate OpenAfter(spans: seq<Span>, n: nat) {
    exists k :: 0 <= k < |spans| && spans[k].s < n <= spans[k].e
  }

  lemma Opens(spans: seq<Span>, k: nat)
    requires InOrder(spans) && k < |spans|
    ensures !OpenAfter(spans, spans[k].s) && OpenAfter(spans, spans[k].s + 1)
  {
  }

  lemma Closes(spans: seq<Span>, k: nat)
    requires InOrder(spans) && k < |spans|
    ensures OpenAfter(spans, spans[k].e) && !OpenAfter(spans, spans[k].e + 1)
  {
  }

  lemma StaysOpen(spans: seq<Span>, i: nat)
    requires forall k :: 0 <= k < |spans| ==> spans[k].s != i && spans[k].e != i
    ensures OpenAfter(spans, i + 1) <==> OpenAfter(spans, i)
  {
  }

  lemma NotBoth(ids: seq<int>, vocab: int, i: nat)
    requires i < |ids|
    ensures !(IsStart(ids, vocab, i) && IsEnd(ids, vocab, i))
  {
  }

  /** A start opens an image, an end closes it, and nothing else does. */
  ghost predicate OpensRight(ids: seq<int>, vocab: int, spans: seq<Span>, i: nat)
    requires i < |ids|
  {
    if IsStart(ids, vocab, i) then !OpenAfter(spans, i) && OpenAfter(spans, i + 1)
    else if IsEnd(ids, vocab, i) then OpenAfter(spans, i) && !OpenAfter(spans, i + 1)
    else OpenAfter(spans, i + 1) <==> OpenAfter(spans, i)
  }

  lemma OpenStep(ids: seq<int>, vocab: int, spans: seq<Span>, i: nat)
    requires HasSpans(ids, vocab, spans) && i < |ids|
    ensures OpensRight(ids, vocab, spans, i)
  {
    NotBoth(ids, vocab, i);
    if IsStart(ids, vocab, i) {
      var k := SpanOfStart(ids, vocab, spans, i);
      Opens(spans, k);
    } else if IsEnd(ids, vocab, i) {
      var k := SpanOfEnd(ids, vocab, spans, i);
      Closes(spans, k);
    } else {
      forall k | 0 <= k < |spans|
        ensures spans[k].s != i && spans[k].e != i
      {
        assert IsStart(ids, vocab, spans[k].s) && IsEnd(ids, vocab, spans[k].e);
      }
      StaysOpen(spans, i);
    }
  }

  lemma {:induction false} OpenCounts(ids: seq<int>, vocab: int, spans: seq<Span>, n: nat)
    requires n <= |ids| && forall i :: 0 <= i < n ==> OpensRight(ids, vocab, spans, i)
    ensures Open(ids, vocab, n) == if OpenAfter(spans, n) then 1 else 0
  {
    if n > 0 {
      OpenCounts(ids, vocab, spans, n - 1);
      NotBoth(ids, vocab, n - 1);
      assert OpensRight(ids, vocab, spans, n - 1);
    }
  }

  /** The running counts say whether the scan is between a start and its end. */
  lemma OpenIsInside(ids: seq<int>, vocab: int, spans: seq<Span>, n: nat)
    requires HasSpans(ids, vocab, spans) && n <= |ids|
    ensures Open(ids, vocab, n) == if OpenAfter(spans, n) then 1 else 0
  {
    forall i | 0 <= i < n
      ensures OpensRight(ids, vocab, spans, i)
    {
      OpenStep(ids, vocab, spans, i);
    }
    OpenCounts(ids, vocab, spans, n);
  }

  lemma NothingInside(ids: seq<int>, vocab: int, spans: seq<Span>, k: nat, i: nat)
    requires HasSpans(ids, vocab, spans) && k < |spans| && InSpan(spans, k, i)
    ensures i > spans[k].s ==> !IsStart(ids, vocab, i)
    ensures i < spans[k].e ==> !IsEnd(ids, vocab, i)
  {
    if IsStart(ids, vocab, i) {
      var j := SpanOfStart(ids, vocab, spans, i);
    } else if IsEnd(ids, vocab, i) {
      var j := SpanOfEnd(ids, vocab, spans, i);
    }
  }

  lemma {:induction false} LastStartInSpan(ids: seq<int>, vocab: int, spans: seq<Span>, k: nat, n: nat)
    requires HasSpans(ids, vocab, spans) && k < |spans| && spans[k].s < n <= spans[k].e + 1
    ensures LastStart(ids, vocab, n) == spans[k].s
  {
    if n - 1 > spans[k].s {
      NothingInside(ids, vocab, spans, k, n - 1);
      LastStartInSpan(ids, vocab, spans, k, n - 1);
    }
  }

  lemma {:induction false} NextEndInSpan(ids: seq<int>, vocab: int, spans: seq<Span>, k: nat, i: nat)
    requires HasSpans(ids, vocab, spans) && k < |spans| && InSpan(spans, k, i)
    ensures NextEnd(ids, vocab, i) == spans[k].e
    decreases spans[k].e - i
  {
    if i < spans[k].e {
      NothingInside(ids, vocab, spans, k, i);
      NextEndInSpan(ids, vocab, spans, k, i + 1);
    }
  }

  /** Inside an image: the distances to its own start and end, capped. */
  lemma VisibleInImage(ids: seq<int>, vocab: int, spans: seq<Span>, limit: int, k: nat, i: nat)
    requires HasSpans(ids, vocab, spans) && k < |spans| && InSpan(spans, k, i) && i < |ids|
    ensures LeftOf(ids, vocab, limit, i) == Min(i - spans[k].s, limit - 1)
    ensures RightOf(ids, vocab, limit, i) == Min(spans[k].e - i, limit)
  {
    OpenIsInside(ids, vocab, spans, i + 1);
    LastStartInSpan(ids, vocab, spans, k, i + 1);
    NextEndInSpan(ids, vocab, spans, k, i);
    assert i < spans[k].e ==> spans[k].s < i + 1 <= spans[k].e;
  }

  /** Outside every image: nothing. */
  lemma VisibleOutside(ids: seq<int>, vocab: int, spans: seq<Span>, limit: int, i: nat)
    requires HasSpans(ids, vocab, spans) && i < |ids| && limit >= 1 && !InImage(spans, i)
    ensures LeftOf(ids, vocab, limit, i) == RightOf(ids, vocab, limit, i) == 0
  {
    OpenIsInside(ids, vocab, spans, i + 1);
    forall k | 0 <= k < |spans|
      ensures !(spans[k].s < i + 1 <= spans[k].e)
    {
      assert !InSpan(spans, k, i);
    }
    if IsEnd(ids, vocab, i) {
      var k := SpanOfEnd(ids, vocab, spans, i);
      assert InSpan(spans, k, i);
    }
  }

  // ---- the attention window ----

  /** First key of a row. */
  function WindowStart(window: int, idx: nat, left: int): int {
    Max(idx - (window - 1) - Max(left - (window - 1), 0), 0)
  }

  /** Key `j` is visible to a row: one of `width` keys from the first, not past the right reach. */
  ghost predicate Sees(window: int, limit: int, n: nat, idx: nat, left: int, right: int, key: int) {
    WindowStart(window, idx, left) <= key < WindowStart(window, idx, left) + Min(n, window + limit) &&
        key <= idx + right
  }

  const HIDDEN := -1

  /** `width` keys one after another from the first on, `-1` in place of those past the reach. */
  ghost predicate IsRow(row: seq<int>, width: nat, first: int, reach: int) {
    |row| == width && forall x :: 0 <= x < width ==> row[x] == if first + x <= reach then first + x else -1
  }

  /** `get_window_topk_idxs_visible`: one row of keys per token, hidden keys marked `-1`. */
  method GetWindow(window: int, n: nat, left: seq<int>, right: seq<int>, limit: int) returns (rows: seq<seq<int>>)
    requires |left| == |right| == n
    ensures |rows| == n
    ensures forall i, key :: 0 <= i < n && key >= 0 ==>
            (key in rows[i] <==> Sees(window, limit, n, i, left[i], right[i], key))
    ensures forall i :: 0 <= i < n ==>
              IsRow(rows[i], Max(Min(n, window + limit), 0), WindowStart(window, i, left[i]), i + right[i])
  {
    var width := Min(n, window + limit);
    rows := [];
    for idx := 0 to n
      invariant |rows| == idx
      invariant forall i, key :: 0 <= i < idx && key >= 0 ==>
                (key in rows[i] <==> Sees(window, limit, n, i, left[i], right[i], key))
      invariant forall i :: 0 <= i < idx ==>
                  IsRow(rows[i], Max(width, 0), WindowStart(window, i, left[i]), i + right[i])
    {
      var leftAdd := Max(left[idx] - (window - 1), 0);
      var start := Max(idx - (window - 1) - leftAdd, 0);
      var keys: seq<int> := [];
      for j := 0 to Max(width, 0)
        invariant |keys| == j
        invariant forall x :: 0 <= x < j ==> keys[x] == if start + x <= idx + right[idx] then start + x else HIDDEN
      {
        keys := keys + [if start + j <= idx + right[idx] then start + j else HIDDEN];
      }
      forall key | key >= 0
        ensures key in keys <==> Sees(window, limit, n, idx, left[idx], right[idx], key)
      {
        if Sees(window, limit, n, idx, left[idx], right[idx], key) {
          assert keys[key - start] == key;
        }
      }
      rows := rows + [keys];
    }
  }

  /** What row `i` of a prompt sees. */
  ghost predicate RowSees(ids: seq<int>, vocab: int, window: int, limit: int, i: nat, key: nat)
    requires i < |ids|
  {
    Sees(window, limit, |ids|, i, LeftOf(ids, vocab, limit, i), RightOf(ids, vocab, limit, i), key)
  }

  /** A text row sees its causal window. */
  lemma TextRowSees(ids: seq<int>, vocab: int, spans: seq<Span>, window: int, limit: int, i: nat, key: nat)
    requires HasSpans(ids, vocab, spans) && i < |ids| && window >= 1 && limit >= 1 && !InImage(spans, i)
    ensures RowSees(ids, vocab, window, limit, i, key) <==> i - window < key <= i
  {
    VisibleOutside(ids, vocab, spans, limit, i);
  }

  /** First and last key of a row at `i` inside an image `[s, e]`: the window or the capped distance to the
      start, whichever is longer, back; the end or `limit` keys, whichever is nearer, ahead; and no
      more than `window + limit` keys in all. */
  function FirstKey(window: int, limit: int, s: nat, i: nat): int {
    Max(i - Max(Min(i - s, limit - 1), window - 1), 0)
  }

  function LastKey(window: int, limit: int, s: nat, e: nat, i: nat): int {
    Min(Min(e, i + limit), FirstKey(window, limit, s, i) + window + limit - 1)
  }

  /** Exactly what a row of any image sees, over-long images included. */
  lemma ImageRowSees(ids: seq<int>, vocab: int, spans: seq<Span>, window: int, limit: int, k: nat, i: nat, key: nat)
    requires HasSpans(ids, vocab, spans) && window >= 1 && limit >= 1
    requires k < |spans| && InSpan(spans, k, i) && i < |ids|
    ensures RowSees(ids, vocab, window, limit, i, key) <==>
            FirstKey(window, limit, spans[k].s, i) <= key <= LastKey(window, limit, spans[k].s, spans[k].e, i)
  {
    VisibleInImage(ids, vocab, spans, limit, k, i);
  }

  /** A row of an image that fits the limit sees its causal window and its whole image, and nothing
      after it. */
  lemma FittingRowSees(ids: seq<int>, vocab: int, spans: seq<Span>, window: int, limit: int, k: nat, i: nat, key: nat)
    requires HasSpans(ids, vocab, spans) && window >= 1 && limit >= 1
    requires k < |spans| && InSpan(spans, k, i) && i < |ids| && spans[k].e - spans[k].s < limit
    ensures RowSees(ids, vocab, window, limit, i, key) <==>
            key <= spans[k].e && (key > i - window || key >= spans[k].s)
  {
    ImageRowSees(ids, vocab, spans, window, limit, k, i, key);
  }

  /** Every row of an image sees all of it exactly when the image is shorter than the limit, or just as
      long as the limit with a window that reaches back over it. */
  lemma WholeImageVisibleIff(ids: seq<int>, vocab: int, spans: seq<Span>, window: int, limit: int, k: nat)
    requires HasSpans(ids, vocab, spans) && k < |spans| && window >= 1 && limit >= 1
    ensures (forall i, key :: InSpan(spans, k, i) && InSpan(spans, k, key) ==>
              RowSees(ids, vocab, window, limit, i, key)) <==>
            var length := spans[k].e - spans[k].s; length < limit || (length == limit && window > limit)
  {
    var (s, e) := (spans[k].s, spans[k].e);
    assert InSpan(spans, k, e) && InSpan(spans, k, s);
    if e - s < limit || (e - s == limit && window > limit) {
      forall i, key | InSpan(spans, k, i) && InSpan(spans, k, key)
        ensures RowSees(ids, vocab, window, limit, i, key)
      {
        ImageRowSees(ids, vocab, spans, window, limit, k, i, key);
      }
    } else if e - s > limit {
      ImageRowSees(ids, vocab, spans, window, limit, k, s, e);
      assert !RowSees(ids, vocab, window, limit, s, e);
    } else {
      ImageRowSees(ids, vocab, spans, window, limit, k, e, s);
      assert !RowSees(ids, vocab, window, limit, e, s);
    }
  }

  // ---- cutting a prompt into chunks ----

  /** `legal(p)`: a cut is not strictly inside an image. */
  predicate Legal(spans: seq<Span>, p: nat) {
    forall k :: 0 <= k < |spans| ==> !(spans[k].s < p <= spans[k].e)
  }

  lemma LegalHides(ids: seq<int>, vocab: int, spans: seq<Span>, window: int, limit: int, p: nat, i: nat, key: nat)
    requires HasSpans(ids, vocab, spans) && window >= 1 && limit >= 1 && Legal(spans, p)
    requires i < p <= key < |ids|
    ensures !RowSees(ids, vocab, window, limit, i, key)
  {
    if InImage(spans, i) {
      var k :| 0 <= k < |spans| && InSpan(spans, k, i);
      ImageRowSees(ids, vocab, spans, window, limit, k, i, key);
    } else {
      TextRowSees(ids, vocab, spans, window, limit, i, key);
    }
  }

  /** A cut inside image `k` parts row `p - 1` from key `p`, which it sees. */
  lemma CutInside(ids: seq<int>, vocab: int, spans: seq<Span>, window: int, limit: int, p: nat, k: nat)
    requires HasSpans(ids, vocab, spans) && 1 <= p < |ids| && window >= 1 && limit >= 1
    requires k < |spans| && spans[k].s < p <= spans[k].e
    ensures RowSees(ids, vocab, window, limit, p - 1, p)
  {
    assert InSpan(spans, k, p - 1);
    ImageRowSees(ids, vocab, spans, window, limit, k, p - 1, p);
  }

  /** The legal cuts are exactly those no earlier row sees across, whatever the lengths of the images. */
  lemma LegalIff(ids: seq<int>, vocab: int, spans: seq<Span>, window: int, limit: int, p: nat)
    requires HasSpans(ids, vocab, spans) && 1 <= p < |ids| && window >= 1 && limit >= 1
    ensures Legal(spans, p) <==>
            forall i, key :: 0 <= i < p <= key < |ids| ==> !RowSees(ids, vocab, window, limit, i, key)
  {
    if Legal(spans, p) {
      forall i, key | 0 <= i < p <= key < |ids|
        ensures !RowSees(ids, vocab, window, limit, i, key)
      {
        LegalHides(ids, vocab, spans, window, limit, p, i, key);
      }
    } else {
      var k :| 0 <= k < |spans| && spans[k].s < p <= spans[k].e;
      CutInside(ids, vocab, spans, window, limit, p, k);
    }
  }
}
