/** The three offline "evict the farthest next use" simulators: the lazy-heap pagers of
    scripts/belady_bound.py and scripts/policy2.py and the scan of scripts/polsim.py. */
module BeladyPolicies {
  import opened Paging
  import PriorityQueue

  // ---- next uses ----

  /** `last` gives the first use of every key at or after `i`. */
  ghost predicate FirstUses(s: seq<Key>, i: nat, last: map<Key, nat>)
    requires i <= |s|
  {
    forall k :: NextUse(s, i, k) == if k in last then last[k] else |s|
  }

  lemma FirstUsesStep(s: seq<Key>, i: nat, last: map<Key, nat>)
    requires i < |s| && FirstUses(s, i + 1, last)
    ensures FirstUses(s, i, last[s[i] := i])
  {
    forall c
      ensures NextUse(s, i, c) == if c == s[i] then i else if c in last then last[c] else |s|
    {
      assert NextUse(s, i + 1, c) == if c in last then last[c] else |s|;
    }
  }

  /** `nxt[i]`: index of the next access to the same key, `n` when there is none. */
  method NextUseTable(s: seq<Key>) returns (nxt: seq<nat>)
    ensures |nxt| == |s|
    ensures forall i :: 0 <= i < |s| ==> nxt[i] == NextUse(s, i + 1, s[i])
  {
    var n := |s|;
    nxt := seq(n, _ => n);
    var last: map<Key, nat> := map[];
    for i := n downto 0
      invariant |nxt| == n && FirstUses(s, i, last)
      invariant forall j :: i <= j < n ==> nxt[j] == NextUse(s, j + 1, s[j])
    {
      var k := s[i];
      assert NextUse(s, i + 1, k) == if k in last then last[k] else n;
      nxt := nxt[i := if k in last then last[k] else n];
      FirstUsesStep(s, i, last);
      last := last[k := i];
    }
  }

  // ---- the lazily invalidated heap ----

  /** A heap tuple `(-nextUse, key)`. */
  datatype Entry = Entry(nextUse: nat, key: Key)

  predicate KeyLe(a: Key, b: Key) {
    a.layer < b.layer || (a.layer == b.layer && a.expert <= b.expert)
  }

  predicate EntryLe(a: Entry, b: Entry) {
    a.nextUse > b.nextUse || (a.nextUse == b.nextUse && KeyLe(a.key, b.key))
  }

  /** `res` holds each resident's next use; the heap has a current entry for every resident,
      among any number of stale ones. */
  ghost predicate Tracked(s: seq<Key>, i: nat, res: map<Key, nat>, heap: multiset<Entry>)
    requires i <= |s|
  {
    forall k :: k in res ==> res[k] == NextUse(s, i, k) && Entry(res[k], k) in heap
  }

  /** The victim loop always finds a current entry, and it names a farthest resident. */
  method EvictFarthest(ghost s: seq<Key>, ghost i: nat, res: map<Key, nat>, heap: multiset<Entry>)
    returns (victim: Key, res': map<Key, nat>, heap': multiset<Entry>)
    requires i <= |s| && Tracked(s, i, res, heap) && res != map[]
    ensures FarthestVictim(s, i, res.Keys, victim)
    ensures res' == res - {victim} && Tracked(s, i, res', heap')
  {
    heap' := heap;
    var k0 :| k0 in res;
    while true
      invariant Tracked(s, i, res, heap')
      decreases |heap'|
    {
      assert Entry(res[k0], k0) in heap';
      var e, rest := PriorityQueue.Pop(heap', EntryLe);
      if e.key in res && res[e.key] == e.nextUse {
        victim := e.key;
        forall k | k in res
          ensures NextUse(s, i, k) <= NextUse(s, i, victim)
        {
          assert EntryLe(e, Entry(res[k], k));
        }
        res' := res - {victim};
        heap' := rest;
        return;
      }
      heap' := rest;
    }
  }

  /** The bookkeeping common to a hit and a fill: `k` is requested at `i` and next used at `nu`. */
  lemma TrackedAfterAccess(s: seq<Key>, i: nat, res: map<Key, nat>, heap: multiset<Entry>, nu: nat)
    requires i < |s| && Tracked(s, i, res, heap) && nu == NextUse(s, i + 1, s[i])
    ensures Tracked(s, i + 1, res[s[i] := nu], heap + multiset{Entry(nu, s[i])})
  {
  }

  lemma RunExtends(s: seq<Key>, cap: nat, run: seq<Mark>, b: Mark)
    requires FarthestRun(s, cap, run) && |run| <= |s|
    requires FarthestStep(s, cap, |run| - 1, run[|run| - 1], b)
    ensures FarthestRun(s, cap, run + [b])
  {
    var r := run + [b];
    forall i | 0 <= i < |r| - 1
      ensures FarthestStep(s, cap, i, r[i], r[i + 1])
    {
      assert r[i] == run[i];
    }
  }

  /** `run` is the history of a simulator that has processed `i` accesses. */
  ghost predicate Simulated(s: seq<Key>, cap: nat, run: seq<Mark>, i: nat, held: set<Key>, m: nat) {
    i <= |s| && |run| == i + 1 && FarthestRun(s, cap, run) && run[i] == Mark(held, m)
  }

  lemma SimulatedStep(s: seq<Key>, cap: nat, run: seq<Mark>, i: nat, held: set<Key>, m: nat, held': set<Key>, m': nat)
    requires Simulated(s, cap, run, i, held, m) && i < |s|
    requires FarthestStep(s, cap, i, Mark(held, m), Mark(held', m'))
    ensures Simulated(s, cap, run + [Mark(held', m')], i + 1, held', m')
  {
    RunExtends(s, cap, run, Mark(held', m'));
  }

  lemma EvictionStep(s: seq<Key>, cap: nat, i: nat, held: set<Key>, v: Key, m: nat)
    requires i < |s| && s[i] !in held && |held| >= cap && FarthestVictim(s, i, held, v)
    ensures FarthestStep(s, cap, i, Mark(held, m), Mark(held - {v} + {s[i]}, m + 1))
  {
  }

  /** The part of an access of `sim_opt` that counts the miss and makes room. */
  method MakeRoom(ghost s: seq<Key>, ghost i: nat, cap: nat, k: Key, res: map<Key, nat>, heap: multiset<Entry>, m: nat)
    returns (res': map<Key, nat>, heap': multiset<Entry>, m': nat)
    requires cap >= 1 && i < |s| && k == s[i] && Tracked(s, i, res, heap)
    ensures Tracked(s, i, res', heap')
    ensures FarthestStep(s, cap, i, Mark(res.Keys, m), Mark(res'.Keys + {k}, m'))
  {
    res', heap', m' := res, heap, m;
    if k in res {
      assert res.Keys + {k} == res.Keys;
    } else {
      m' := m + 1;
      if |res| >= cap {
        var victim;
        victim, res', heap' := EvictFarthest(s, i, res, heap);
        EvictionStep(s, cap, i, res.Keys, victim, m);
      }
    }
  }

  /** scripts/belady_bound.py `sim_opt`: the exact minimum number of fetches. */
  method SimOpt(s: seq<Key>, cap: nat) returns (m: nat, ghost run: seq<Mark>)
    requires cap >= 1
    ensures IsLeastFetches(s, cap, m)
    ensures FarthestRun(s, cap, run) && |run| == |s| + 1 && m == run[|s|].misses
  {
    var nxt := NextUseTable(s);
    var res: map<Key, nat> := map[];
    var heap: multiset<Entry> := multiset{};
    m := 0;
    run := [Mark({}, 0)];
    for i := 0 to |s|
      invariant Simulated(s, cap, run, i, res.Keys, m)
      invariant Tracked(s, i, res, heap)
    {
      var k := s[i];
      ghost var held, m0 := res.Keys, m;
      res, heap, m := MakeRoom(s, i, cap, k, res, heap, m);
      SimulatedStep(s, cap, run, i, held, m0, res.Keys + {k}, m);
      run := run + [Mark(res.Keys + {k}, m)];
      TrackedAfterAccess(s, i, res, heap, nxt[i]);
      res := res[k := nxt[i]];
      heap := heap + multiset{Entry(nxt[i], k)};
    }
    FarthestIsLeast(s, cap, run);
  }

  // ---- scripts/policy2.py `belady`: the same heap, on requests tagged with their token ----

  /** Misses of the first `n` requests that belong to token `t0` or later. */
  ghost function ScoredMisses(reqs: seq<Request>, t0: int, run: seq<Mark>, n: nat): int
    requires n <= |reqs| && n < |run|
  {
    if n == 0 then 0 else
      ScoredMisses(reqs, t0, run, n - 1) +
      (if reqs[n - 1].token >= t0 then run[n].misses - run[n - 1].misses else 0)
  }

  lemma {:induction false} ScoredMissesPrefix(reqs: seq<Request>, t0: int, run: seq<Mark>, b: Mark, n: nat)
    requires n <= |reqs| && n < |run|
    ensures ScoredMisses(reqs, t0, run + [b], n) == ScoredMisses(reqs, t0, run, n)
  {
    if n > 0 {
      ScoredMissesPrefix(reqs, t0, run, b, n - 1);
    }
  }

  lemma ScoredMissesStep(reqs: seq<Request>, t0: int, run: seq<Mark>, b: Mark)
    requires 1 <= |run| <= |reqs|
    ensures ScoredMisses(reqs, t0, run + [b], |run|) ==
            ScoredMisses(reqs, t0, run, |run| - 1) +
            (if reqs[|run| - 1].token >= t0 then b.misses - run[|run| - 1].misses else 0)
  {
    ScoredMissesPrefix(reqs, t0, run, b, |run| - 1);
  }

  /** The scored miss count does not depend on how ties were broken either. */
  lemma {:induction false} ScoredMissesAgree(reqs: seq<Request>, cap: nat, t0: int, run: seq<Mark>, other: seq<Mark>,
                                             n: nat)
    requires cap >= 1 && FarthestRun(Keys(reqs), cap, run) && FarthestRun(Keys(reqs), cap, other)
    requires n <= |reqs| && n < |run| && n < |other|
    ensures ScoredMisses(reqs, t0, run, n) == ScoredMisses(reqs, t0, other, n)
  {
    if n > 0 {
      FarthestRunsAgree(Keys(reqs), cap, run, other, n);
      FarthestRunsAgree(Keys(reqs), cap, run, other, n - 1);
      ScoredMissesAgree(reqs, cap, t0, run, other, n - 1);
    }
  }

  /** `S == 0` behaves as one slot: the first key is added after an empty victim search. */
  function Slots(S: nat): nat {
    if S == 0 then 1 else S
  }

  lemma TrackedNeedsEntries(s: seq<Key>, i: nat, res: map<Key, nat>, heap: multiset<Entry>)
    requires i <= |s| && Tracked(s, i, res, heap)
    ensures res != map[] ==> heap != multiset{}
  {
    if res != map[] {
      var k :| k in res;
      assert Entry(res[k], k) in heap;
    }
  }

  /** `while heap:` may run dry, and then nothing is evicted: only when nothing is resident. */
  method SearchVictim(ghost s: seq<Key>, ghost i: nat, res: set<Key>, heap: multiset<Entry>, pos: map<Key, nat>)
    returns (res': set<Key>, heap': multiset<Entry>, pos': map<Key, nat>, ghost victim: Key)
    requires i <= |s| && pos.Keys == res && Tracked(s, i, pos, heap)
    ensures Tracked(s, i, pos', heap') && pos'.Keys == res'
    ensures res == {} ==> res' == {}
    ensures res != {} ==> FarthestVictim(s, i, res, victim) && res' == res - {victim}
  {
    heap', victim := heap, Key(0, 0);
    while heap' != multiset{}
      invariant Tracked(s, i, pos, heap')
      decreases |heap'|
    {
      var e, rest := PriorityQueue.Pop(heap', EntryLe);
      heap' := rest;
      if e.key in res && e.key in pos && pos[e.key] == e.nextUse {
        forall k | k in pos
          ensures NextUse(s, i, k) <= NextUse(s, i, e.key)
        {
          assert EntryLe(e, Entry(pos[k], k));
        }
        victim := e.key;
        res', pos' := res - {e.key}, pos - {e.key};
        return;
      }
    }
    res', pos' := res, pos;
    TrackedNeedsEntries(s, i, pos, heap');
  }

  method BeladyMakeRoom(ghost s: seq<Key>, ghost i: nat, S: nat, k: Key, res: set<Key>, heap: multiset<Entry>,
                        pos: map<Key, nat>, ghost m: nat)
    returns (miss: int, res': set<Key>, heap': multiset<Entry>, pos': map<Key, nat>)
    requires i < |s| && k == s[i] && pos.Keys == res && Tracked(s, i, pos, heap)
    ensures Tracked(s, i, pos', heap') && pos'.Keys == res'
    ensures 0 <= miss <= 1 && FarthestStep(s, Slots(S), i, Mark(res, m), Mark(res' + {k}, m + miss))
  {
    miss, res', heap', pos' := 0, res, heap, pos;
    if k in res {
      assert res + {k} == res;
    } else {
      miss := 1;
      if |res| >= S {
        ghost var victim;
        res', heap', pos', victim := SearchVictim(s, i, res, heap, pos);
        if res != {} {
          assert |res| >= 1;
          EvictionStep(s, Slots(S), i, res, victim, m);
        }
      }
    }
  }

  method Belady(reqs: seq<Request>, S: nat, t0: int) returns (m: nat, w: int, ghost run: seq<Mark>)
    ensures IsLeastFetches(Keys(reqs), Slots(S), m)
    ensures FarthestRun(Keys(reqs), Slots(S), run) && |run| == |reqs| + 1 && m == run[|reqs|].misses
    ensures w == ScoredMisses(reqs, t0, run, |reqs|)
    ensures forall other :: FarthestRun(Keys(reqs), Slots(S), other) && |other| == |reqs| + 1 ==>
              w == ScoredMisses(reqs, t0, other, |reqs|)
  {
    var nxt := NextUseTable(Keys(reqs));
    m, w, run := BeladyLoop(reqs, Keys(reqs), nxt, S, t0);
    FarthestIsLeast(Keys(reqs), Slots(S), run);
    forall other | FarthestRun(Keys(reqs), Slots(S), other) && |other| == |reqs| + 1
      ensures w == ScoredMisses(reqs, t0, other, |reqs|)
    {
      ScoredMissesAgree(reqs, Slots(S), t0, run, other, |reqs|);
    }
  }

  /** `Simulated`, with `w` of the misses scored. */
  ghost predicate Scored(reqs: seq<Request>, s: seq<Key>, cap: nat, t0: int, run: seq<Mark>, i: nat, held: set<Key>,
                         m: nat, w: int)
    requires i <= |reqs| == |s|
  {
    Simulated(s, cap, run, i, held, m) && w == ScoredMisses(reqs, t0, run, i)
  }

  lemma ScoredStep(reqs: seq<Request>, s: seq<Key>, cap: nat, t0: int, run: seq<Mark>, i: nat, held: set<Key>, m: nat,
                   w: int, held': set<Key>, m': nat)
    requires i < |reqs| == |s| && Scored(reqs, s, cap, t0, run, i, held, m, w)
    requires FarthestStep(s, cap, i, Mark(held, m), Mark(held', m'))
    ensures Scored(reqs, s, cap, t0, run + [Mark(held', m')], i + 1, held', m',
                   w + if reqs[i].token >= t0 then m' - m else 0)
  {
    SimulatedStep(s, cap, run, i, held, m, held', m');
    ScoredMissesStep(reqs, t0, run, Mark(held', m'));
  }

  method BeladyLoop(reqs: seq<Request>, ghost s: seq<Key>, nxt: seq<nat>, S: nat, t0: int)
    returns (m: nat, w: int, ghost run: seq<Mark>)
    requires |s| == |reqs| == |nxt| && forall i :: 0 <= i < |s| ==> s[i] == reqs[i].key
    requires forall i :: 0 <= i < |s| ==> nxt[i] == NextUse(s, i + 1, s[i])
    ensures FarthestRun(s, Slots(S), run) && |run| == |reqs| + 1 && m == run[|reqs|].misses
    ensures w == ScoredMisses(reqs, t0, run, |reqs|)
  {
    var res: set<Key> := {};
    var heap: multiset<Entry> := multiset{};
    var pos: map<Key, nat> := map[];
    m, w := 0, 0;
    run := [Mark({}, 0)];
    for i := 0 to |reqs|
      invariant Scored(reqs, s, Slots(S), t0, run, i, res, m, w)
      invariant pos.Keys == res && Tracked(s, i, pos, heap)
    {
      var key, held, m0 := reqs[i].key, res, m;
      res, heap, pos, m := BeladyStep(s, i, S, key, nxt[i], res, heap, pos, m);
      ScoredStep(reqs, s, Slots(S), t0, run, i, held, m0, w, res, m);
      run := run + [Mark(res, m)];
      w := w + if reqs[i].token >= t0 then m - m0 else 0;
    }
  }

  /** One access: evict, count the miss, and file the key under its next use. */
  method BeladyStep(ghost s: seq<Key>, ghost i: nat, S: nat, key: Key, next: nat, res: set<Key>,
                    heap: multiset<Entry>, pos: map<Key, nat>, m: nat)
    returns (res': set<Key>, heap': multiset<Entry>, pos': map<Key, nat>, m': nat)
    requires i < |s| && key == s[i] && next == NextUse(s, i + 1, key) && pos.Keys == res && Tracked(s, i, pos, heap)
    ensures pos'.Keys == res' && Tracked(s, i + 1, pos', heap')
    ensures FarthestStep(s, Slots(S), i, Mark(res, m), Mark(res', m'))
  {
    var miss;
    miss, res', heap', pos' := BeladyMakeRoom(s, i, S, key, res, heap, pos, m);
    TrackedAfterAccess(s, i, pos', heap', next);
    res', m' := res' + {key}, m + miss;
    pos' := pos'[key := next];
    heap' := heap' + multiset{Entry(next, key)};
  }

  // ---- scripts/polsim.py `belady`: a scan over the residents at every eviction ----

  /** Stands for "never used again" in the scan. */
  const NEVER: nat := 1_000_000_000

  function ScannedUse(s: seq<Key>, i: nat, k: Key): nat
    requires i <= |s|
  {
    var nu := NextUse(s, i, k);
    if nu < |s| then nu else NEVER
  }

  /** A resident the scan can settle on. */
  ghost predicate ScanVictim(s: seq<Key>, i: nat, held: set<Key>, v: Key)
    requires i <= |s|
  {
    v in held && forall k :: k in held ==> ScannedUse(s, i, k) <= ScannedUse(s, i, v)
  }

  /** No resident's next use reaches the stand-in for "never" in the presence of a resident that is
      never used again. */
  ghost predicate SentinelHolds(s: seq<Key>, i: nat, held: set<Key>)
    requires i <= |s|
  {
    (exists k :: k in held && NextUse(s, i, k) == |s|) ==>
      forall k :: k in held && NextUse(s, i, k) < |s| ==> NextUse(s, i, k) < NEVER
  }

  /** That is exactly when every victim the scan can settle on is a farthest one. */
  lemma ScanIsFarthestIff(s: seq<Key>, i: nat, held: set<Key>)
    requires i <= |s|
    ensures (forall v :: ScanVictim(s, i, held, v) ==> FarthestVictim(s, i, held, v)) <==> SentinelHolds(s, i, held)
  {
    if live: Key, dead: Key :|
      live in held && dead in held && NEVER <= NextUse(s, i, live) < |s| == NextUse(s, i, dead) {
      var v := LatestLive(s, i, held, live);
      assert ScanVictim(s, i, held, v) && !FarthestVictim(s, i, held, v);
    }
  }

  lemma LatestLive(s: seq<Key>, i: nat, held: set<Key>, k0: Key) returns (v: Key)
    requires i <= |s| && k0 in held && NextUse(s, i, k0) < |s|
    ensures v in held && NextUse(s, i, k0) <= NextUse(s, i, v) < |s|
    ensures forall k :: k in held && NextUse(s, i, k) < |s| ==> NextUse(s, i, k) <= NextUse(s, i, v)
  {
    v := k0;
    while exists k :: k in held && NextUse(s, i, v) < NextUse(s, i, k) < |s|
      invariant v in held && NextUse(s, i, k0) <= NextUse(s, i, v) < |s|
      decreases |s| - NextUse(s, i, v)
    {
      var k :| k in held && NextUse(s, i, v) < NextUse(s, i, k) < |s|;
      v := k;
    }
  }

  /** `lst` holds the indices below `n` at which `k` is requested, in order. */
  ghost predicate UsesOf(s: seq<Key>, n: nat, k: Key, lst: seq<nat>)
    requires n <= |s|
  {
    && (forall a, b :: 0 <= a < b < |lst| ==> lst[a] < lst[b])
    && (forall a :: 0 <= a < |lst| ==> lst[a] < n && s[lst[a]] == k)
    && (forall x :: 0 <= x < n && s[x] == k ==> x in lst)
  }

  /** Python's `bisect.bisect_right`. */
  method BisectRight(lst: seq<nat>, x: nat) returns (j: nat)
    requires forall a, b :: 0 <= a < b < |lst| ==> lst[a] < lst[b]
    ensures j <= |lst|
    ensures forall a :: 0 <= a < j ==> lst[a] <= x
    ensures forall a :: j <= a < |lst| ==> x < lst[a]
  {
    var lo, hi := 0, |lst|;
    while lo < hi
      invariant lo <= hi <= |lst|
      invariant forall a :: 0 <= a < lo ==> lst[a] <= x
      invariant forall a :: hi <= a < |lst| ==> x < lst[a]
    {
      var mid := (lo + hi) / 2;
      if x < lst[mid] {
        hi := mid;
      } else {
        lo := mid + 1;
      }
    }
    j := lo;
  }

  lemma UsesOfExtends(s: seq<Key>, n: nat, k: Key, lst: seq<nat>)
    requires n < |s| && UsesOf(s, n, k, lst)
    ensures UsesOf(s, n + 1, k, if s[n] == k then lst + [n] else lst)
  {
    var lst' := if s[n] == k then lst + [n] else lst;
    forall x | 0 <= x < n + 1 && s[x] == k
      ensures x in lst'
    {
      if x < n {
        var j :| 0 <= j < |lst| && lst[j] == x;
        assert lst'[j] == x;
      } else {
        assert lst'[|lst|] == x;
      }
    }
  }

  /** `uses` lists the first `n` accesses of every key. */
  ghost predicate Listed(s: seq<Key>, n: nat, uses: map<Key, seq<nat>>)
    requires n <= |s|
  {
    && (forall k :: k in uses ==> UsesOf(s, n, k, uses[k]))
    && (forall j :: 0 <= j < n ==> s[j] in uses)
  }

  lemma UsesOfExtendAll(s: seq<Key>, n: nat, uses: map<Key, seq<nat>>)
    requires n < |s| && Listed(s, n, uses)
    ensures var k := s[n]; Listed(s, n + 1, uses[k := (if k in uses then uses[k] else []) + [n]])
  {
    var k := s[n];
    var lst := if k in uses then uses[k] else [];
    var uses' := uses[k := lst + [n]];
    forall c | c in uses'
      ensures UsesOf(s, n + 1, c, uses'[c])
    {
      UsesOfExtends(s, n, c, if c == k then lst else uses[c]);
    }
  }

  /** `nxt[k].append(i)` for every access. */
  method UseLists(s: seq<Key>) returns (uses: map<Key, seq<nat>>)
    ensures Listed(s, |s|, uses)
  {
    uses := map[];
    for i := 0 to |s|
      invariant Listed(s, i, uses)
    {
      var k := s[i];
      var lst := if k in uses then uses[k] else [];
      UsesOfExtendAll(s, i, uses);
      uses := uses[k := lst + [i]];
    }
  }

  lemma NextUseIs(s: seq<Key>, i: nat, k: Key, j: nat)
    requires i <= j <= |s| && (j < |s| ==> s[j] == k)
    requires forall x :: i <= x < j ==> s[x] != k
    ensures NextUse(s, i, k) == j
    decreases j - i
  {
    if i < j {
      NextUseIs(s, i + 1, k, j);
    }
  }

  method NextFromList(s: seq<Key>, i: nat, c: Key, lst: seq<nat>) returns (nu: nat)
    requires i < |s| && s[i] != c && UsesOf(s, |s|, c, lst)
    ensures nu == ScannedUse(s, i, c)
  {
    var j := BisectRight(lst, i);
    nu := if j < |lst| then lst[j] else NEVER;
    ghost var next := if j < |lst| then lst[j] else |s|;
    forall x | i <= x < next
      ensures s[x] != c
    {
    }
    NextUseIs(s, i, c, next);
  }

  method Scan(s: seq<Key>, i: nat, uses: map<Key, seq<nat>>, cache: set<Key>) returns (victim: Key)
    requires i < |s| && cache != {} && s[i] !in cache
    requires forall k :: k in uses ==> UsesOf(s, |s|, k, uses[k])
    requires forall k :: k in cache ==> k in uses
    ensures ScanVictim(s, i, cache, victim)
  {
    var todo := cache;
    var far: int := -1;
    victim :| victim in cache;
    while todo != {}
      invariant todo <= cache
      invariant far == -1 ==> todo == cache
      invariant far != -1 ==> victim in cache && far == ScannedUse(s, i, victim)
      invariant forall k :: k in cache && k !in todo ==> ScannedUse(s, i, k) <= far
    {
      var c :| c in todo;
      todo := todo - {c};
      var nu := NextFromList(s, i, c, uses[c]);
      if far == -1 || nu > far {
        far, victim := nu, c;
      }
    }
  }

  ghost predicate ScanStep(s: seq<Key>, cap: nat, i: nat, a: Mark, b: Mark)
    requires i < |s|
  {
    if s[i] in a.held then b == a
    else if |a.held| < cap then b == Mark(a.held + {s[i]}, a.misses + 1)
    else exists v :: ScanVictim(s, i, a.held, v) && b == Mark(a.held - {v} + {s[i]}, a.misses + 1)
  }

  /** `run[i]` is the state of the scan before access `i`, for some order of the set. */
  ghost predicate ScanRun(s: seq<Key>, cap: nat, run: seq<Mark>) {
    && 1 <= |run| <= |s| + 1
    && run[0] == Mark({}, 0)
    && forall i :: 0 <= i < |run| - 1 ==> ScanStep(s, cap, i, run[i], run[i + 1])
  }

  /** The stand-in is sound at every eviction of the run. */
  ghost predicate SentinelAlong(s: seq<Key>, cap: nat, run: seq<Mark>)
    requires |run| <= |s| + 1
  {
    forall i :: 0 <= i < |run| - 1 && s[i] !in run[i].held && |run[i].held| >= cap ==> SentinelHolds(s, i, run[i].held)
  }

  lemma ScanRunIsFarthest(s: seq<Key>, cap: nat, run: seq<Mark>)
    requires ScanRun(s, cap, run) && SentinelAlong(s, cap, run)
    ensures FarthestRun(s, cap, run)
  {
    forall i | 0 <= i < |run| - 1
      ensures FarthestStep(s, cap, i, run[i], run[i + 1])
    {
      assert ScanStep(s, cap, i, run[i], run[i + 1]);
      ScanIsFarthestIff(s, i, run[i].held);
    }
  }

  /** So it is on every trace no longer than the stand-in. */
  lemma SentinelHoldsWithin(s: seq<Key>, cap: nat, run: seq<Mark>)
    requires |s| <= NEVER && |run| <= |s| + 1
    ensures SentinelAlong(s, cap, run)
  {
  }

  lemma {:induction false} ScanRunFits(s: seq<Key>, cap: nat, run: seq<Mark>, i: nat)
    requires cap >= 1 && ScanRun(s, cap, run) && i < |run|
    ensures |run[i].held| <= i && |run[i].held| <= cap
  {
    if i > 0 {
      ScanRunFits(s, cap, run, i - 1);
      assert ScanStep(s, cap, i - 1, run[i - 1], run[i]);
    }
  }

  /** Lengths at which the stand-in does no harm: below it, or with at most one eviction, or with one slot. */
  predicate ScanSafe(n: nat, cap: nat) {
    cap == 1 || n <= NEVER || n <= cap + 1
  }

  lemma LastEviction(s: seq<Key>, i: nat, held: set<Key>)
    requires i + 1 == |s| && s[i] !in held
    ensures SentinelHolds(s, i, held)
  {
    forall k | k in held
      ensures NextUse(s, i, k) == |s|
    {
      assert NextUse(s, i, k) == NextUse(s, i + 1, k);
    }
  }

  lemma OneResident(s: seq<Key>, i: nat, held: set<Key>)
    requires i <= |s| && |held| <= 1
    ensures SentinelHolds(s, i, held)
  {
    forall a, b | a in held && b in held
      ensures a == b
    {
      assert {a, b} <= held;
      SubsetSize({a, b}, held);
    }
  }

  lemma SafeSentinel(s: seq<Key>, cap: nat, run: seq<Mark>)
    requires cap >= 1 && ScanRun(s, cap, run) && ScanSafe(|s|, cap)
    ensures SentinelAlong(s, cap, run)
  {
    forall i | 0 <= i < |run| - 1 && s[i] !in run[i].held && |run[i].held| >= cap
      ensures SentinelHolds(s, i, run[i].held)
    {
      ScanRunFits(s, cap, run, i);
      if cap == 1 {
        OneResident(s, i, run[i].held);
      } else if |s| <= NEVER {
        SentinelHoldsWithin(s, cap, run);
      } else {
        LastEviction(s, i, run[i].held);
      }
    }
  }

  /** One eviction and fill of the scan. */
  method ScanMakeRoom(s: seq<Key>, i: nat, cap: nat, uses: map<Key, seq<nat>>, cache: set<Key>, ghost m: nat)
    returns (cache': set<Key>)
    requires cap >= 1 && i < |s| && s[i] !in cache
    requires Listed(s, |s|, uses) && forall k :: k in cache ==> k in uses
    ensures cache' <= cache
    ensures ScanStep(s, cap, i, Mark(cache, m), Mark(cache' + {s[i]}, m + 1))
  {
    cache' := cache;
    if |cache| >= cap {
      var fk := Scan(s, i, uses, cache);
      cache' := cache - {fk};
    }
  }

  /** The scan has served `i` accesses and holds `cache` after `m` misses. */
  ghost predicate Scanned(s: seq<Key>, cap: nat, run: seq<Mark>, i: nat, cache: set<Key>, m: nat) {
    ScanRun(s, cap, run) && |run| == i + 1 && run[i] == Mark(cache, m)
  }

  lemma ScanExtends(s: seq<Key>, cap: nat, run: seq<Mark>, i: nat, cache: set<Key>, m: nat, next: Mark)
    requires i < |s| && Scanned(s, cap, run, i, cache, m) && ScanStep(s, cap, i, Mark(cache, m), next)
    ensures Scanned(s, cap, run + [next], i + 1, next.held, next.misses)
  {
    var longer := run + [next];
    forall x | 0 <= x < i + 1
      ensures ScanStep(s, cap, x, longer[x], longer[x + 1])
    {
      if x < i {
        assert ScanStep(s, cap, x, run[x], run[x + 1]);
      }
    }
  }

  /** Misses from access `start` on. */
  ghost function MissesSince(run: seq<Mark>, start: nat): int
    requires |run| >= 1
  {
    run[|run| - 1].misses - run[if start < |run| then start else |run| - 1].misses
  }

  lemma MissesSinceStep(run: seq<Mark>, start: nat, next: Mark)
    requires |run| >= 1
    ensures MissesSince(run + [next], start) ==
            if |run| <= start then 0 else MissesSince(run, start) + next.misses - run[|run| - 1].misses
  {
  }

  /** Misses are counted from `start` on; the earlier accesses warm the cache. */
  method ScanBelady(s: seq<Key>, cap: nat, start: nat) returns (miss: int, ghost run: seq<Mark>)
    requires cap >= 1
    ensures ScanRun(s, cap, run) && |run| == |s| + 1
    ensures miss == run[|s|].misses - run[if start <= |s| then start else |s|].misses
    ensures SentinelAlong(s, cap, run) ==> FarthestRun(s, cap, run)
    ensures SentinelAlong(s, cap, run) && start == 0 ==> IsLeastFetches(s, cap, miss)
    ensures ScanSafe(|s|, cap) ==> SentinelAlong(s, cap, run)
    ensures ScanSafe(|s|, cap) && start == 0 ==> IsLeastFetches(s, cap, miss)
  {
    var uses := UseLists(s);
    miss, run := ScanLoop(s, cap, start, uses);
    if ScanSafe(|s|, cap) {
      SafeSentinel(s, cap, run);
    }
    if SentinelAlong(s, cap, run) {
      ScanRunIsFarthest(s, cap, run);
      FarthestIsLeast(s, cap, run);
    }
  }

  method ScanLoop(s: seq<Key>, cap: nat, start: nat, uses: map<Key, seq<nat>>)
    returns (miss: int, ghost run: seq<Mark>)
    requires cap >= 1 && Listed(s, |s|, uses)
    ensures ScanRun(s, cap, run) && |run| == |s| + 1 && miss == MissesSince(run, start)
  {
    var cache: set<Key> := {};
    miss := 0;
    ghost var m := 0;
    run := [Mark({}, 0)];
    for i := 0 to |s|
      invariant Scanned(s, cap, run, i, cache, m) && miss == MissesSince(run, start)
      invariant forall k :: k in cache ==> k in uses
    {
      ghost var (held, before) := (cache, m);
      if s[i] !in cache {
        cache := ScanMakeRoom(s, i, cap, uses, cache, m);
        cache := cache + {s[i]};
        m := m + 1;
        if i >= start {
          miss := miss + 1;
        }
      }
      ScanExtends(s, cap, run, i, held, before, Mark(cache, m));
      MissesSinceStep(run, start, Mark(cache, m));
      run := run + [Mark(cache, m)];
    }
  }
}
