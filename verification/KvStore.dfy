/** The chunked KV prefix store, replayed over a sequence of prompts
    (scripts/kvstore_analysis/sim.py).  A chunk is keyed by the token prefix it ends. */
module KvStore {
  import opened Arithmetic

  type Prompt = seq<int>

  const BPP: nat := 2760
  const FULL_TAIL: nat := 5670000
  const ENC_TAIL: nat := 2650000
  const OLD_TAIL: nat := 5240000
  const W: nat := 128

  // ---- common prefixes ----

  function Lcp(a: Prompt, b: Prompt): (n: nat)
    ensures n <= |a| && n <= |b| && a[..n] == b[..n]
    ensures n < |a| && n < |b| ==> a[n] != b[n]
  {
    if a == [] || b == [] || a[0] != b[0] then 0
    else
      var n := 1 + Lcp(a[1..], b[1..]);
      assert a[..n] == [a[0]] + a[1..][..n - 1] && b[..n] == [b[0]] + b[1..][..n - 1];
      n
  }

  /** It is the longest common prefix. */
  lemma LcpIsLongest(a: Prompt, b: Prompt, n: nat)
    requires n <= |a| && n <= |b|
    ensures n <= Lcp(a, b) <==> a[..n] == b[..n]
  {
    var l := Lcp(a, b);
    if n <= l {
      assert a[..n] == a[..l][..n] && b[..n] == b[..l][..n];
    } else {
      assert a[..n][l] != b[..n][l];
    }
  }

  // ---- chunks ----

  /** Chunk number and the prefix it ends. */
  datatype Key = Key(k: nat, prefix: Prompt)

  /** Where chunk `k` ends. */
  function End(k: nat, c: nat): nat {
    (k + 1) * c
  }

  lemma WholeChunks(k: nat, n: nat, c: nat)
    requires c > 0
    ensures k < n / c <==> End(k, c) <= n
  {
    var q := n / c;
    if k < q {
      MulMonotone(k + 1, q, c);
    } else {
      MulMonotone(q + 1, k + 1, c);
      assert c * (q + 1) == c * q + c;
    }
  }

  /** A whole chunk of the prompt. */
  ghost predicate ChunkOf(p: Prompt, c: nat, key: Key) {
    End(key.k, c) <= |p| && key.prefix == p[..End(key.k, c)]
  }

  /** A whole chunk of some prompt. */
  ghost predicate Seen(prompts: seq<Prompt>, c: nat, key: Key) {
    exists i :: 0 <= i < |prompts| && ChunkOf(prompts[i], c, key)
  }

  lemma SeenSnoc(prompts: seq<Prompt>, p: Prompt, c: nat, key: Key)
    ensures Seen(prompts + [p], c, key) <==> Seen(prompts, c, key) || ChunkOf(p, c, key)
  {
    var all := prompts + [p];
    if Seen(prompts, c, key) {
      var i :| 0 <= i < |prompts| && ChunkOf(prompts[i], c, key);
      assert ChunkOf(all[i], c, key);
    }
    if ChunkOf(p, c, key) {
      assert ChunkOf(all[|prompts|], c, key);
    }
  }

  /** Two prompts that agree up to `n` share their chunks up to there. */
  lemma SharedChunk(p: Prompt, q: Prompt, n: nat, c: nat, key: Key)
    requires n <= Lcp(p, q) && End(key.k, c) <= n && ChunkOf(p, c, key)
    ensures ChunkOf(q, c, key)
  {
    LcpIsLongest(p, q, End(key.k, c));
  }

  // ---- restore points ----

  /** A tail saved for prompt `j` at length `len`. */
  datatype Tail = Tail(j: nat, len: nat)

  /** A tail usable for a prompt of length `n`, leaving at least `suffix` positions to prefill. */
  predicate Usable(tail: Tail, lcps: seq<nat>, n: nat, suffix: nat) {
    tail.j < |lcps| && tail.len + suffix <= n && lcps[tail.j] >= tail.len
  }

  ghost predicate LcpsOf(t: Prompt, prompts: seq<Prompt>, lcps: seq<nat>) {
    |lcps| == |prompts| && forall j :: 0 <= j < |lcps| ==> lcps[j] == Lcp(t, prompts[j])
  }

  /** The greatest value of the list, 0 for none. */
  ghost predicate Greatest(s: seq<nat>, m: nat) {
    (forall j :: 0 <= j < |s| ==> s[j] <= m) && (m == 0 || m in s)
  }

  /** The deepest usable full tail or encoder tail: `best`. */
  ghost predicate Deepest(full: seq<Tail>, enc: seq<Tail>, lcps: seq<nat>, n: nat, best: nat) {
    && (forall x :: x in full && Usable(x, lcps, n, 1) ==> x.len <= best)
    && (forall x :: x in enc && Usable(x, lcps, n, 129) ==> x.len <= best)
    && (best == 0 || (exists x :: x in full && Usable(x, lcps, n, 1) && x.len == best)
        || exists x :: x in enc && Usable(x, lcps, n, 129) && x.len == best)
  }

  /** Today's rule: an older prompt that is a proper prefix. */
  ghost predicate WholeSnapshot(t: Prompt, prompts: seq<Prompt>, j: nat) {
    j < |prompts| && Lcp(t, prompts[j]) == |prompts[j]| < |t|
  }

  ghost predicate TodayBest(t: Prompt, prompts: seq<Prompt>, today: nat) {
    && (forall j: nat :: WholeSnapshot(t, prompts, j) ==> |prompts[j]| <= today)
    && (today == 0 || exists j: nat :: WholeSnapshot(t, prompts, j) && |prompts[j]| == today)
  }

  /** Compares a prompt with every older one. */
  method Compare(t: Prompt, prompts: seq<Prompt>) returns (lcps: seq<nat>, any: nat, today: nat)
    ensures LcpsOf(t, prompts, lcps) && Greatest(lcps, any) && TodayBest(t, prompts, today)
  {
    lcps, any, today := [], 0, 0;
    for j := 0 to |prompts|
      invariant |lcps| == j && forall i :: 0 <= i < j ==> lcps[i] == Lcp(t, prompts[i])
      invariant Greatest(lcps, any)
      invariant forall i: nat :: i < j && WholeSnapshot(t, prompts, i) ==> |prompts[i]| <= today
      invariant today == 0 || exists i: nat :: WholeSnapshot(t, prompts, i) && |prompts[i]| == today
    {
      var l := Lcp(t, prompts[j]);
      GreatestSnoc(lcps, any, l);
      lcps := lcps + [l];
      any := if l > any then l else any;
      if l == |prompts[j]| && l < |t| {
        assert WholeSnapshot(t, prompts, j);
        today := if l > today then l else today;
      }
    }
  }

  lemma GreatestSnoc(s: seq<nat>, m: nat, l: nat)
    requires Greatest(s, m)
    ensures Greatest(s + [l], if l > m then l else m)
  {
    if l > m {
      assert (s + [l])[|s|] == l;
    } else if m != 0 {
      var j :| 0 <= j < |s| && s[j] == m;
      assert (s + [l])[j] == m;
    }
  }

  method DeepestTail(full: seq<Tail>, enc: seq<Tail>, lcps: seq<nat>, n: nat) returns (best: nat)
    ensures Deepest(full, enc, lcps, n, best)
  {
    best := 0;
    for i := 0 to |full|
      invariant forall k :: 0 <= k < i && Usable(full[k], lcps, n, 1) ==> full[k].len <= best
      invariant best == 0 || exists x :: x in full && Usable(x, lcps, n, 1) && x.len == best
    {
      if Usable(full[i], lcps, n, 1) && full[i].len > best {
        assert full[i] in full;
        best := full[i].len;
      }
    }
    ghost var first := best;
    for i := 0 to |enc|
      invariant first <= best
      invariant forall k :: 0 <= k < i && Usable(enc[k], lcps, n, W + 1) ==> enc[k].len <= best
      invariant best == 0 || (exists x :: x in full && Usable(x, lcps, n, 1) && x.len == best)
                || exists x :: x in enc && Usable(x, lcps, n, W + 1) && x.len == best
    {
      if Usable(enc[i], lcps, n, W + 1) && enc[i].len > best {
        assert enc[i] in enc;
        best := enc[i].len;
      }
    }
  }

  // ---- what the store holds ----

  /** Every tail belongs to an older prompt and lies within it; every older prompt has its full tail. */
  ghost predicate TailsOf(prompts: seq<Prompt>, full: seq<Tail>, enc: seq<Tail>) {
    && |full| == |prompts| && (forall j :: 0 <= j < |full| ==> full[j] == Tail(j, |prompts[j]|))
    && forall x :: x in enc ==> x.j < |prompts| && x.len <= |prompts[x.j]|
  }

  /** The keys are exactly the whole chunks of the prompts seen. */
  ghost predicate KeysOf(prompts: seq<Prompt>, c: nat, keys: set<Key>) {
    forall key: Key :: key in keys <==> Seen(prompts, c, key)
  }

  lemma TodayIsUsable(t: Prompt, prompts: seq<Prompt>, full: seq<Tail>, enc: seq<Tail>, lcps: seq<nat>, today: nat,
                      best: nat)
    requires TailsOf(prompts, full, enc) && LcpsOf(t, prompts, lcps)
    requires TodayBest(t, prompts, today) && Deepest(full, enc, lcps, |t|, best)
    ensures today <= best
  {
    if today > 0 {
      var j: nat :| WholeSnapshot(t, prompts, j) && |prompts[j]| == today;
      assert full[j] in full && Usable(full[j], lcps, |t|, 1);
    }
  }

  /** The restored prefix is shared with an older prompt. */
  lemma RestoredIsShared(t: Prompt, prompts: seq<Prompt>, full: seq<Tail>, enc: seq<Tail>, lcps: seq<nat>, best: nat)
    requires TailsOf(prompts, full, enc) && LcpsOf(t, prompts, lcps) && Deepest(full, enc, lcps, |t|, best) && best > 0
    ensures best < |t| && exists j :: 0 <= j < |prompts| && best <= Lcp(t, prompts[j])
  {
    var x: Tail :| (x in full || x in enc) && Usable(x, lcps, |t|, 1) && x.len == best;
    assert lcps[x.j] == Lcp(t, prompts[x.j]);
  }

  /** What is restored lies between today's rule and the longest common prefix with an older prompt. */
  lemma RestoredBetween(t: Prompt, prompts: seq<Prompt>, full: seq<Tail>, enc: seq<Tail>, lcps: seq<nat>, any: nat,
                        today: nat, best: nat)
    requires TailsOf(prompts, full, enc) && LcpsOf(t, prompts, lcps) && Greatest(lcps, any)
    requires TodayBest(t, prompts, today) && Deepest(full, enc, lcps, |t|, best)
    ensures today <= best <= any <= |t|
  {
    TodayIsUsable(t, prompts, full, enc, lcps, today, best);
    if best > 0 {
      RestoredIsShared(t, prompts, full, enc, lcps, best);
      var j :| 0 <= j < |prompts| && best <= Lcp(t, prompts[j]);
      assert lcps[j] <= any;
    }
    if any > 0 {
      var j :| 0 <= j < |lcps| && lcps[j] == any;
      assert lcps[j] == Lcp(t, prompts[j]);
    }
  }

  /** A chunk of the new prompt that the restore skips is already stored. */
  lemma SkippedIsStored(t: Prompt, prompts: seq<Prompt>, c: nat, keys: set<Key>, best: nat, key: Key)
    requires c > 0 && KeysOf(prompts, c, keys) && ChunkOf(t, c, key) && key.k < best / c
    requires exists j :: 0 <= j < |prompts| && best <= Lcp(t, prompts[j])
    ensures key in keys
  {
    var j :| 0 <= j < |prompts| && best <= Lcp(t, prompts[j]);
    WholeChunks(key.k, best, c);
    SharedChunk(t, prompts[j], best, c, key);
    assert Seen(prompts, c, key);
  }

  /** The prompt's chunks from `first` up to chunk `k` have been added. */
  ghost predicate WrittenTo(t: Prompt, c: nat, first: nat, keys: set<Key>, keys': set<Key>, k: nat) {
    forall key: Key :: key in keys' <==> key in keys || (ChunkOf(t, c, key) && first <= key.k < k)
  }

  lemma OneMoreKey(t: Prompt, c: nat, first: nat, keys: set<Key>, keys': set<Key>, k: nat, key: Key)
    requires WrittenTo(t, c, first, keys, keys', k) && first <= k && ChunkOf(t, c, key) && key.k == k
    ensures WrittenTo(t, c, first, keys, keys' + {key}, k + 1)
  {
  }

  /** Stores a chunk unless it is there. */
  method WriteChunk(keys: set<Key>, key: Key, size: nat) returns (keys': set<Key>, written: nat)
    ensures keys' == keys + {key} && written + |keys| * size == |keys'| * size
  {
    keys', written := keys, 0;
    if key !in keys {
      AddOne(|keys|, size);
      keys', written := keys + {key}, size;
    } else {
      assert keys + {key} == keys;
    }
  }

  /** Writes the chunks of the positions prefilled. */
  method WriteChunks(t: Prompt, prompts: seq<Prompt>, c: nat, best: nat, keys: set<Key>)
    returns (keys': set<Key>, written: nat)
    requires c > 0 && KeysOf(prompts, c, keys) && best <= |t|
    requires best > 0 ==> exists j :: 0 <= j < |prompts| && best <= Lcp(t, prompts[j])
    ensures KeysOf(prompts + [t], c, keys') && written + |keys| * (c * BPP) == |keys'| * (c * BPP)
  {
    keys', written := keys, 0;
    var first, last, size := best / c, |t| / c, c * BPP;
    FirstChunk(best, |t|, c);
    for k := first to last
      invariant WrittenTo(t, c, first, keys, keys', k)
      invariant written + |keys| * size == |keys'| * size
    {
      WholeChunks(k, |t|, c);
      var key, more := Key(k, t[..End(k, c)]), 0;
      OneMoreKey(t, c, first, keys, keys', k, key);
      keys', more := WriteChunk(keys', key, size);
      written := written + more;
    }
    WrittenKeys(t, prompts, c, best, keys, keys');
  }

  /** With the chunks the restore skips, which are stored already, all of the prompt's chunks are. */
  lemma WrittenKeys(t: Prompt, prompts: seq<Prompt>, c: nat, best: nat, keys: set<Key>, keys': set<Key>)
    requires c > 0 && KeysOf(prompts, c, keys)
    requires best > 0 ==> exists j :: 0 <= j < |prompts| && best <= Lcp(t, prompts[j])
    requires WrittenTo(t, c, best / c, keys, keys', |t| / c)
    ensures KeysOf(prompts + [t], c, keys')
  {
    forall key: Key
      ensures key in keys' <==> Seen(prompts + [t], c, key)
    {
      SeenSnoc(prompts, t, c, key);
      WholeChunks(key.k, |t|, c);
      if ChunkOf(t, c, key) && key.k < best / c {
        PositiveBest(key.k, best, c);
        SkippedIsStored(t, prompts, c, keys, best, key);
      }
    }
  }

  lemma FirstChunk(best: nat, n: nat, c: nat)
    requires c > 0 && best <= n
    ensures best / c <= n / c
  {
    if best / c > 0 {
      WholeChunks(best / c - 1, best, c);
      WholeChunks(best / c - 1, n, c);
    }
  }

  lemma PositiveBest(k: nat, best: nat, c: nat)
    requires c > 0 && k < best / c
    ensures best > 0
  {
  }

  lemma AddOne(n: nat, x: nat)
    ensures (n + 1) * x == n * x + x
  {
  }

  // ---- encoder tails ----

  lemma NextMultiple(x: nat, y: nat, k: nat)
    requires k > 0 && x % k == 0 && y % k == 0 && x < y
    ensures x + k <= y
  {
    if y / k <= x / k {
      MulMonotone(y / k, x / k, k);
    } else {
      MulStep(k, x / k, y / k);
    }
  }

  lemma FirstMultiple(best: nat, k: nat)
    requires k > 0
    ensures var first := (best / k + 1) * k;
            first % k == 0 && best < first <= best + k
  {
    var q := best / k;
    Successor(q, k);
  }

  lemma Successor(q: nat, k: nat)
    requires k > 0
    ensures (q + 1) * k == k * q + k && ((q + 1) * k) % k == 0
  {
    DivExact(q + 1, k);
    assert (q + 1) * k == k * (q + 1);
  }

  lemma ModShift(x: nat, k: nat)
    requires k > 0 && x % k == 0
    ensures (x + k) % k == 0
  {
    Successor(x / k, k);
  }

  /** Encoder tails of prompt `i`: at every multiple of `k` strictly between the restore point and its end. */
  ghost predicate EncTailsOf(added: seq<Tail>, i: nat, best: nat, n: nat, k: nat)
    requires k > 0
  {
    && (forall x: Tail :: x in added <==> x.j == i && best < x.len < n && x.len % k == 0)
    && forall a, b :: 0 <= a < b < |added| ==> added[a].len < added[b].len
  }

  method EncTails(i: nat, best: nat, n: nat, k: nat) returns (added: seq<Tail>)
    requires k > 0
    ensures EncTailsOf(added, i, best, n, k)
  {
    added := [];
    var at := (best / k + 1) * k;
    FirstMultiple(best, k);
    forall x: nat | x % k == 0 && best < x
      ensures x >= at
    {
      FirstIsFirst(best, x, k);
    }
    while at < n
      invariant at % k == 0 && at > best
      invariant EncTailsOf(added, i, best, if at < n then at else n, k)
      decreases n - at
    {
      ghost var next := if at + k < n then at + k else n;
      forall x: Tail
        ensures x in added + [Tail(i, at)] <==> x.j == i && best < x.len < next && x.len % k == 0
        ensures x in added ==> x.len < at
      {
        if at < x.len && x.len % k == 0 {
          NextMultiple(at, x.len, k);
        }
      }
      added := added + [Tail(i, at)];
      ModShift(at, k);
      at := at + k;
    }
  }

  lemma FirstIsFirst(best: nat, x: nat, k: nat)
    requires k > 0 && x % k == 0 && best < x
    ensures (best / k + 1) * k <= x
  {
    var first := (best / k + 1) * k;
    FirstMultiple(best, k);
    if x < first {
      NextMultiple(x, first, k);
    }
  }

  // ---- the replay ----

  datatype Store = Store(full: seq<Tail>, enc: seq<Tail>, keys: set<Key>)

  datatype Totals = Totals(total: nat, lcp: nat, today: nat, restored: nat, bytesNew: nat, bytesToday: nat)

  function Tokens(prompts: seq<Prompt>): nat {
    if prompts == [] then 0 else Tokens(prompts[..|prompts| - 1]) + |prompts[|prompts| - 1]|
  }

  /** Bytes of the full tails, each with the part of a chunk behind the last whole one. */
  function TailBytes(prompts: seq<Prompt>, c: nat): nat
    requires c > 0
  {
    if prompts == [] then 0
    else TailBytes(prompts[..|prompts| - 1], c) + 5670000 + |prompts[|prompts| - 1]| % c * 2760
  }

  function TodayBytes(prompts: seq<Prompt>): nat {
    if prompts == [] then 0 else TodayBytes(prompts[..|prompts| - 1]) + |prompts[|prompts| - 1]| * 2760 + 5240000
  }

  /** Restored tokens are ordered, and every byte written is a chunk stored once, a full tail or an encoder tail. */
  ghost predicate Balanced(prompts: seq<Prompt>, c: nat, store: Store, sum: Totals)
    requires c > 0
  {
    && sum.total == Tokens(prompts) && sum.today <= sum.restored <= sum.lcp <= sum.total
    && sum.bytesNew == |store.keys| * (c * 2760) + TailBytes(prompts, c) + |store.enc| * 2650000
    && sum.bytesToday == TodayBytes(prompts)
  }

  ghost predicate Stored(prompts: seq<Prompt>, c: nat, store: Store) {
    TailsOf(prompts, store.full, store.enc) && KeysOf(prompts, c, store.keys)
  }

  /** Whatever prompt a tail restores, the whole chunks below it are stored. */
  lemma TailChunksStored(prompts: seq<Prompt>, c: nat, store: Store, tail: Tail, key: Key)
    requires Stored(prompts, c, store) && (tail in store.full || tail in store.enc)
    ensures tail.j < |prompts| && tail.len <= |prompts[tail.j]|
    ensures End(key.k, c) <= tail.len && key.prefix == prompts[tail.j][..End(key.k, c)] ==> key in store.keys
  {
    if End(key.k, c) <= tail.len && key.prefix == prompts[tail.j][..End(key.k, c)] {
      assert ChunkOf(prompts[tail.j], c, key);
    }
  }

  lemma TailsSnoc(prompts: seq<Prompt>, t: Prompt, full: seq<Tail>, enc: seq<Tail>, added: seq<Tail>)
    requires TailsOf(prompts, full, enc)
    requires forall x :: x in added ==> x.j == |prompts| && x.len <= |t|
    ensures TailsOf(prompts + [t], full + [Tail(|prompts|, |t|)], enc + added)
  {
  }

  lemma SumsSnoc(prompts: seq<Prompt>, t: Prompt, c: nat)
    requires c > 0
    ensures Tokens(prompts + [t]) == Tokens(prompts) + |t|
    ensures TailBytes(prompts + [t], c) == TailBytes(prompts, c) + FULL_TAIL + |t| % c * BPP
    ensures TodayBytes(prompts + [t]) == TodayBytes(prompts) + |t| * BPP + OLD_TAIL
  {
    assert (prompts + [t])[..|prompts|] == prompts;
  }

  /** What a prompt finds: its common prefixes, the deepest usable tail, and the encoder tails it leaves. */
  ghost predicate Replayed(t: Prompt, prompts: seq<Prompt>, k: nat, store: Store, store': Store, any: nat, today: nat,
                           best: nat, lcps: seq<nat>)
    requires k > 0
  {
    && LcpsOf(t, prompts, lcps) && Greatest(lcps, any) && TodayBest(t, prompts, today)
    && Deepest(store.full, store.enc, lcps, |t|, best)
    && store.enc <= store'.enc && EncTailsOf(store'.enc[|store.enc|..], |prompts|, best, |t|, k)
  }

  /** One prompt: what it restores and what it writes. */
  method Replay(t: Prompt, prompts: seq<Prompt>, c: nat, k: nat, store: Store, sum: Totals)
    returns (store': Store, sum': Totals, any: nat, today: nat, best: nat, ghost lcps: seq<nat>)
    requires c > 0 && k > 0 && Stored(prompts, c, store) && Balanced(prompts, c, store, sum)
    ensures Stored(prompts + [t], c, store') && Balanced(prompts + [t], c, store', sum')
    ensures Replayed(t, prompts, k, store, store', any, today, best, lcps) && today <= best <= any <= |t|
    ensures sum'.restored == sum.restored + best && sum'.today == sum.today + today && sum'.lcp == sum.lcp + any
  {
    var all;
    all, any, today := Compare(t, prompts);
    lcps := all;
    best := DeepestTail(store.full, store.enc, all, |t|);
    RestoredBetween(t, prompts, store.full, store.enc, all, any, today, best);
    if best > 0 {
      RestoredIsShared(t, prompts, store.full, store.enc, all, best);
    }
    var keys, chunks := WriteChunks(t, prompts, c, best, store.keys);
    var added := EncTails(|prompts|, best, |t|, k);
    store' := Store(store.full + [Tail(|prompts|, |t|)], store.enc + added, keys);
    sum' := Totals(sum.total + |t|, sum.lcp + any, sum.today + today, sum.restored + best,
                   sum.bytesNew + chunks + (FULL_TAIL + |t| % c * BPP) + |added| * ENC_TAIL,
                   sum.bytesToday + |t| * BPP + OLD_TAIL);
    TailsSnoc(prompts, t, store.full, store.enc, added);
    SumsSnoc(prompts, t, c);
    assert store'.enc[|store.enc|..] == added;
  }

  // ---- a run, prompt by prompt ----

  /** The longest prefix that prompt `i` has in common with an older one. */
  ghost predicate AnyAt(prompts: seq<Prompt>, i: nat, any: nat)
    requires i < |prompts|
  {
    && (forall j :: 0 <= j < i ==> Lcp(prompts[i], prompts[j]) <= any)
    && (any == 0 || exists j :: 0 <= j < i && Shares(prompts, i, j, any))
  }

  /** Prompt `i` starts with the first `n` tokens of prompt `j`. */
  ghost predicate Shares(prompts: seq<Prompt>, i: nat, j: nat, n: nat)
    requires i < |prompts| && j < |prompts|
  {
    n <= |prompts[i]| && n <= |prompts[j]| && prompts[i][..n] == prompts[j][..n]
  }

  /** Prompt `j` is a proper prefix of prompt `i`. */
  ghost predicate Extends(prompts: seq<Prompt>, i: nat, j: nat)
    requires i < |prompts| && j < |prompts|
  {
    |prompts[j]| < |prompts[i]| && Shares(prompts, i, j, |prompts[j]|)
  }

  /** The longest older prompt that is a proper prefix of prompt `i`. */
  ghost predicate TodayAt(prompts: seq<Prompt>, i: nat, today: nat)
    requires i < |prompts|
  {
    && (forall j :: 0 <= j < i && Extends(prompts, i, j) ==> |prompts[j]| <= today)
    && (today == 0 || exists j :: 0 <= j < i && Extends(prompts, i, j) && |prompts[j]| == today)
  }

  /** Prompt `i` can start from position `n` of the older prompt `j`: from its end with a token left, or, with
      more than 128 left, from a multiple of `k` that `j` went past when it was prefilled. */
  ghost predicate Restores(prompts: seq<Prompt>, k: nat, bests: seq<nat>, i: nat, j: nat, n: nat)
    requires i < |prompts| && k > 0
  {
    && j < i && j < |bests| && Shares(prompts, i, j, n)
    && ((n == |prompts[j]| && n < |prompts[i]|)
        || (bests[j] < n < |prompts[j]| && n % k == 0 && n + 128 < |prompts[i]|))
  }

  /** The deepest such position. */
  ghost predicate BestAt(prompts: seq<Prompt>, k: nat, bests: seq<nat>, i: nat, best: nat)
    requires i < |prompts| && k > 0
  {
    && (forall j: nat, n: nat :: Restores(prompts, k, bests, i, j, n) ==> n <= best)
    && (best == 0 || exists j: nat :: Restores(prompts, k, bests, i, j, best))
  }

  /** What the first prompts could restore, today and in the chunked store. */
  ghost predicate Restored(prompts: seq<Prompt>, k: nat, anys: seq<nat>, todays: seq<nat>, bests: seq<nat>)
    requires k > 0
  {
    && |anys| == |todays| == |bests| <= |prompts|
    && forall i :: 0 <= i < |bests| ==> FoundAt(prompts, k, bests[..i], i, anys[i], todays[i], bests[i])
  }

  /** What prompt `i` finds. */
  ghost predicate FoundAt(prompts: seq<Prompt>, k: nat, bests: seq<nat>, i: nat, any: nat, today: nat, best: nat)
    requires i < |prompts| && k > 0
  {
    AnyAt(prompts, i, any) && TodayAt(prompts, i, today) && BestAt(prompts, k, bests, i, best)
  }

  /** The encoder tails: every multiple of `k` a prefill went past, once. */
  ghost predicate EncIs(prompts: seq<Prompt>, k: nat, bests: seq<nat>, enc: seq<Tail>)
    requires k > 0 && |bests| <= |prompts|
  {
    && (forall x: Tail :: x in enc <==> x.j < |bests| && bests[x.j] < x.len < |prompts[x.j]| && x.len % k == 0)
    && forall a, b :: 0 <= a < b < |enc| ==> enc[a] != enc[b]
  }

  ghost function SumOf(s: seq<nat>): nat {
    if s == [] then 0 else SumOf(s[..|s| - 1]) + s[|s| - 1]
  }

  lemma SumOfSnoc(s: seq<nat>, x: nat)
    ensures SumOf(s + [x]) == SumOf(s) + x
  {
    assert (s + [x])[..|s|] == s;
  }

  lemma SharesIff(prompts: seq<Prompt>, i: nat, j: nat, n: nat)
    requires i < |prompts| && j < |prompts|
    ensures Shares(prompts, i, j, n) <==> n <= Lcp(prompts[i], prompts[j])
  {
    if n <= |prompts[i]| && n <= |prompts[j]| {
      LcpIsLongest(prompts[i], prompts[j], n);
    }
  }

  lemma AnyIs(prompts: seq<Prompt>, i: nat, lcps: seq<nat>, any: nat)
    requires i < |prompts| && LcpsOf(prompts[i], prompts[..i], lcps) && Greatest(lcps, any)
    ensures AnyAt(prompts, i, any)
  {
    forall j | 0 <= j < i
      ensures Lcp(prompts[i], prompts[j]) <= any
    {
      assert prompts[..i][j] == prompts[j] && lcps[j] <= any;
    }
    if any > 0 {
      var j :| 0 <= j < |lcps| && lcps[j] == any;
      assert prompts[..i][j] == prompts[j];
      SharesIff(prompts, i, j, any);
    }
  }

  lemma ExtendsIff(prompts: seq<Prompt>, i: nat, j: nat)
    requires j < i < |prompts|
    ensures Extends(prompts, i, j) <==> WholeSnapshot(prompts[i], prompts[..i], j)
  {
    assert prompts[..i][j] == prompts[j];
    SharesIff(prompts, i, j, |prompts[j]|);
  }

  lemma TodayIs(prompts: seq<Prompt>, i: nat, today: nat)
    requires i < |prompts| && TodayBest(prompts[i], prompts[..i], today)
    ensures TodayAt(prompts, i, today)
  {
    forall j | 0 <= j < i
      ensures Extends(prompts, i, j) ==> |prompts[j]| <= today
    {
      ExtendsIff(prompts, i, j);
      assert prompts[..i][j] == prompts[j];
    }
    if today > 0 {
      var j: nat :| WholeSnapshot(prompts[i], prompts[..i], j) && |prompts[..i][j]| == today;
      ExtendsIff(prompts, i, j);
    }
  }

  /** The usable tails are the positions a prompt can start from. */
  lemma UsableIff(prompts: seq<Prompt>, k: nat, bests: seq<nat>, full: seq<Tail>, enc: seq<Tail>, lcps: seq<nat>,
                  j: nat, n: nat)
    requires k > 0 && |bests| < |prompts| && TailsOf(prompts[..|bests|], full, enc) && EncIs(prompts, k, bests, enc)
    requires LcpsOf(prompts[|bests|], prompts[..|bests|], lcps)
    ensures var l := |prompts[|bests|]|;
            Restores(prompts, k, bests, |bests|, j, n) <==>
            (Tail(j, n) in full && Usable(Tail(j, n), lcps, l, 1)) ||
            (Tail(j, n) in enc && Usable(Tail(j, n), lcps, l, 129))
  {
    if j < |bests| {
      SharesIff(prompts, |bests|, j, n);
      assert prompts[..|bests|][j] == prompts[j];
      assert full[j] == Tail(j, |prompts[j]|);
    }
  }

  lemma BestIs(prompts: seq<Prompt>, k: nat, bests: seq<nat>, full: seq<Tail>, enc: seq<Tail>, lcps: seq<nat>,
               best: nat)
    requires k > 0 && |bests| < |prompts| && TailsOf(prompts[..|bests|], full, enc) && EncIs(prompts, k, bests, enc)
    requires LcpsOf(prompts[|bests|], prompts[..|bests|], lcps)
    requires Deepest(full, enc, lcps, |prompts[|bests|]|, best)
    ensures BestAt(prompts, k, bests, |bests|, best)
  {
    forall j: nat, n: nat | Restores(prompts, k, bests, |bests|, j, n)
      ensures n <= best
    {
      UsableIff(prompts, k, bests, full, enc, lcps, j, n);
      assert Tail(j, n).len == n;
    }
    if best > 0 {
      var l := |prompts[|bests|]|;
      var x: Tail :| x.len == best && ((x in full && Usable(x, lcps, l, 1)) || (x in enc && Usable(x, lcps, l, 129)));
      UsableIff(prompts, k, bests, full, enc, lcps, x.j, best);
      assert x == Tail(x.j, best);
    }
  }

  lemma EncGrows(prompts: seq<Prompt>, k: nat, bests: seq<nat>, enc: seq<Tail>, best: nat, added: seq<Tail>)
    requires k > 0 && |bests| < |prompts| && EncIs(prompts, k, bests, enc)
    requires EncTailsOf(added, |bests|, best, |prompts[|bests|]|, k)
    ensures EncIs(prompts, k, bests + [best], enc + added)
  {
    var n, all, bests' := |bests|, enc + added, bests + [best];
    forall x: Tail
      ensures x in all <==> x.j < n + 1 && bests'[x.j] < x.len < |prompts[x.j]| && x.len % k == 0
    {
      assert x.j < n ==> bests'[x.j] == bests[x.j];
    }
    forall a, b | 0 <= a < b < |all|
      ensures all[a] != all[b]
    {
      if b >= |enc| {
        assert all[b] in added;
        if a < |enc| {
          assert all[a] in enc;
        }
      }
    }
  }

  lemma RestoredMore(prompts: seq<Prompt>, k: nat, anys: seq<nat>, todays: seq<nat>, bests: seq<nat>, any: nat,
                     today: nat, best: nat)
    requires k > 0 && Restored(prompts, k, anys, todays, bests) && |bests| < |prompts|
    requires FoundAt(prompts, k, bests, |bests|, any, today, best)
    ensures Restored(prompts, k, anys + [any], todays + [today], bests + [best])
  {
    var bests' := bests + [best];
    forall i | 0 <= i < |bests'|
      ensures FoundAt(prompts, k, bests'[..i], i, (anys + [any])[i], (todays + [today])[i], bests'[i])
    {
      assert bests'[..i] == bests[..i];
      assert bests[..|bests|] == bests;
    }
  }

  /** What a run has restored in the first prompts. */
  ghost predicate RunTo(prompts: seq<Prompt>, k: nat, enc: seq<Tail>, sum: Totals, anys: seq<nat>, todays: seq<nat>,
                        bests: seq<nat>)
    requires k > 0
  {
    && Restored(prompts, k, anys, todays, bests) && EncIs(prompts, k, bests, enc)
    && sum.lcp == SumOf(anys) && sum.today == SumOf(todays) && sum.restored == SumOf(bests)
  }

  lemma FoundIs(prompts: seq<Prompt>, k: nat, bests: seq<nat>, store: Store, store': Store, any: nat, today: nat,
                best: nat, lcps: seq<nat>)
    requires k > 0 && |bests| < |prompts| && EncIs(prompts, k, bests, store.enc)
    requires TailsOf(prompts[..|bests|], store.full, store.enc)
    requires Replayed(prompts[|bests|], prompts[..|bests|], k, store, store', any, today, best, lcps)
    ensures FoundAt(prompts, k, bests, |bests|, any, today, best)
  {
    AnyIs(prompts, |bests|, lcps, any);
    TodayIs(prompts, |bests|, today);
    BestIs(prompts, k, bests, store.full, store.enc, lcps, best);
  }

  lemma RunStep(prompts: seq<Prompt>, k: nat, store: Store, sum: Totals, anys: seq<nat>, todays: seq<nat>,
                bests: seq<nat>, store': Store, sum': Totals, any: nat, today: nat, best: nat)
    requires k > 0 && RunTo(prompts, k, store.enc, sum, anys, todays, bests) && |bests| < |prompts|
    requires FoundAt(prompts, k, bests, |bests|, any, today, best)
    requires EncIs(prompts, k, bests + [best], store'.enc)
    requires sum'.restored == sum.restored + best && sum'.today == sum.today + today && sum'.lcp == sum.lcp + any
    ensures RunTo(prompts, k, store'.enc, sum', anys + [any], todays + [today], bests + [best])
  {
    RestoredMore(prompts, k, anys, todays, bests, any, today, best);
    SumOfSnoc(anys, any);
    SumOfSnoc(todays, today);
    SumOfSnoc(bests, best);
  }

  lemma FrontSnoc(prompts: seq<Prompt>, i: nat)
    requires i < |prompts|
    ensures prompts[..i + 1] == prompts[..i] + [prompts[i]]
  {
  }

  lemma EncMore(prompts: seq<Prompt>, k: nat, bests: seq<nat>, enc: seq<Tail>, enc': seq<Tail>, best: nat)
    requires k > 0 && |bests| < |prompts| && EncIs(prompts, k, bests, enc) && enc <= enc'
    requires EncTailsOf(enc'[|enc|..], |bests|, best, |prompts[|bests|]|, k)
    ensures EncIs(prompts, k, bests + [best], enc')
  {
    EncGrows(prompts, k, bests, enc, best, enc'[|enc|..]);
    assert enc + enc'[|enc|..] == enc';
  }

  /** `run`: every prompt restores from the deepest position it can, the restored totals are the sums of those,
      the keys are exactly the whole chunks of the prompts, and every byte written is one of a chunk stored once, a
      full tail or an encoder tail. */
  method Run(prompts: seq<Prompt>, c: nat, k: nat)
    returns (store: Store, sum: Totals, ghost anys: seq<nat>, ghost todays: seq<nat>, ghost bests: seq<nat>)
    requires c > 0 && k > 0
    ensures |bests| == |prompts| && RunTo(prompts, k, store.enc, sum, anys, todays, bests)
    ensures Stored(prompts, c, store) && Balanced(prompts, c, store, sum)
  {
    store, sum := Store([], [], {}), Totals(0, 0, 0, 0, 0, 0);
    anys, todays, bests := [], [], [];
    for i := 0 to |prompts|
      invariant |bests| == i && RunTo(prompts, k, store.enc, sum, anys, todays, bests)
      invariant Stored(prompts[..i], c, store) && Balanced(prompts[..i], c, store, sum)
    {
      FrontSnoc(prompts, i);
      var any, today, best, store', sum';
      ghost var lcps;
      store', sum', any, today, best, lcps := Replay(prompts[i], prompts[..i], c, k, store, sum);
      FoundIs(prompts, k, bests, store, store', any, today, best, lcps);
      EncMore(prompts, k, bests, store.enc, store'.enc, best);
      RunStep(prompts, k, store, sum, anys, todays, bests, store', sum', any, today, best);
      store, sum := store', sum';
      anys, todays, bests := anys + [any], todays + [today], bests + [best];
    }
    assert prompts[..|prompts|] == prompts;
  }
}
