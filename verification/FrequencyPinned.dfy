/** scripts/policy_sim.py `run_flfu`: a core pinned by decayed frequency, re-chosen every few
    tokens, over an LRU of everything else. */
module FrequencyPinned {
  import opened Prelude
  import opened Paging
  import opened Recency
  import opened PinnedPolicies

  type Counter = map<Key, real>

  /** `top` is a result of `Counter.most_common(n)`, for some way to break ties. */
  ghost predicate IsMostCommon(cnt: Counter, n: nat, top: set<Key>) {
    && top <= cnt.Keys
    && |top| == (if n <= |cnt| then n else |cnt|)
    && forall a, b :: a in top && b in cnt && b !in top ==> cnt[a] >= cnt[b]
  }

  lemma LargestExists(cnt: Counter, rest: set<Key>)
    requires rest != {} && rest <= cnt.Keys
    ensures exists k :: k in rest && forall x :: x in rest ==> cnt[x] <= cnt[k]
  {
    var k :| k in rest;
    if rest - {k} != {} {
      LargestExists(cnt, rest - {k});
      var y :| y in rest - {k} && forall x :: x in rest - {k} ==> cnt[x] <= cnt[y];
      var top := if cnt[k] >= cnt[y] then k else y;
      assert forall x :: x in rest ==> x == k || x in rest - {k};
      assert top in rest && forall x :: x in rest ==> cnt[x] <= cnt[top];
    } else {
      assert rest == {k};
    }
  }

  method MostCommon(cnt: Counter, n: nat) returns (top: set<Key>)
    ensures IsMostCommon(cnt, n, top)
  {
    top := {};
    while |top| < n && top != cnt.Keys
      invariant top <= cnt.Keys && |top| <= n
      invariant forall a, b :: a in top && b in cnt && b !in top ==> cnt[a] >= cnt[b]
      decreases cnt.Keys - top
    {
      var rest := cnt.Keys - top;
      LargestExists(cnt, rest);
      var k :| k in rest && forall x :: x in rest ==> cnt[x] <= cnt[k];
      top := top + {k};
    }
    SubsetSize(top, cnt.Keys);
    assert |cnt.Keys| == |cnt|;
    if |top| < n {
      assert top == cnt.Keys;
    }
  }

  /** Counts are scaled down at a re-pin and forgotten below 1/4. */
  function Decayed(cnt: Counter, decay: real): Counter {
    map k | k in cnt && Scaled(cnt[k], decay) >= 0.25 :: Scaled(cnt[k], decay)
  }

  function Scaled(c: real, decay: real): real {
    c * decay
  }

  method Decay(cnt: Counter, decay: real) returns (cnt': Counter)
    ensures cnt' == Decayed(cnt, decay)
  {
    ghost var goal := Decayed(cnt, decay);
    cnt' := cnt;
    var todo := cnt.Keys;
    while todo != {}
      invariant todo <= cnt.Keys && cnt'.Keys <= cnt.Keys
      invariant forall k :: k in todo ==> k in cnt' && cnt'[k] == cnt[k]
      invariant forall k :: k in cnt && k !in todo ==> (k in cnt' <==> k in goal)
      invariant forall k :: k in cnt' && k !in todo ==> k in goal && cnt'[k] == goal[k]
    {
      var k :| k in todo;
      todo := todo - {k};
      var c := Scaled(cnt'[k], decay);
      if c < 0.25 {
        cnt' := cnt' - {k};
      } else {
        cnt' := cnt'[k := c];
      }
    }
  }

  /** The LRU order lists exactly the residents that are not pinned. */
  ghost predicate Kept(lru: seq<Key>, res: set<Key>, pinned: set<Key>, S: nat) {
    Distinct(lru) && Members(lru) == res - pinned && |res| <= S
  }

  lemma KeptAfterHit(lru: seq<Key>, res: set<Key>, pinned: set<Key>, S: nat, key: Key)
    requires Kept(lru, res, pinned, S) && key in lru
    ensures Kept(MoveToEnd(lru, key), res, pinned, S)
  {
    MoveToEndDistinct(lru, key);
    assert Members(MoveToEnd(lru, key)) == Members(lru);
  }

  lemma KeptAfterEvict(lru: seq<Key>, res: set<Key>, pinned: set<Key>, S: nat)
    requires Kept(lru, res, pinned, S) && lru != [] && lru[0] in res
    ensures Kept(lru[1..], res - {lru[0]}, pinned, S - 1)
  {
    assert Members(lru[1..]) == Members(lru) - {lru[0]};
  }

  lemma KeptAfterFill(lru: seq<Key>, res: set<Key>, pinned: set<Key>, S: nat, key: Key)
    requires Kept(lru, res, pinned, S) && |res| < S && key !in res
    ensures Kept(if key in pinned then lru else lru + [key], res + {key}, pinned, S)
  {
    assert key !in lru by { assert key !in Members(lru); }
    assert Members(lru + [key]) == Members(lru) + {key};
  }

  /** `next(iter(res))`: the key a walk of the set starts with, at the miss of that number. */
  type First = (set<Key>, nat) -> Key

  ghost predicate IsFirst(first: First) {
    forall res: set<Key>, miss: nat :: res != {} ==> first(res, miss) in res
  }

  /** The eviction of a miss that has been counted: the oldest unpinned key goes, or any key. */
  function Evicted(st: PinSplit, S: nat, first: First): PinSplit {
    if |st.res| < S then st
    else if st.lru == [] then st.(res := st.res - {first(st.res, st.miss)})
    else st.(lru := st.lru[1..], res := st.res - {st.lru[0]})
  }

  function Filled(st: PinSplit, pinned: set<Key>, key: Key): PinSplit {
    st.(lru := if key in pinned then st.lru else st.lru + [key], res := st.res + {key})
  }

  /** One request. */
  function FlfuKey(st: PinSplit, S: nat, t0: int, pinned: set<Key>, t: int, key: Key, first: First): PinSplit {
    if key in st.res then st.(lru := if key in st.lru then MoveToEnd(st.lru, key) else st.lru)
    else Filled(Evicted(CountMiss(st, t0, t), S, first), pinned, key)
  }

  /** It is the step of `run_pinned`, but for a miss that finds every slot pinned. */
  lemma FlfuIsSplit(st: PinSplit, S: nat, t0: int, pinned: set<Key>, t: int, key: Key, first: First)
    requires !GivesUp(st, S, key)
    ensures FlfuKey(st, S, t0, pinned, t, key, first) == SplitKey(st, S, t0, pinned, t, key)
  {
  }

  lemma PinsFillTheCache(lru: seq<Key>, res: set<Key>, pinned: set<Key>, S: nat)
    requires Kept(lru, res, pinned, S) && lru == []
    ensures res <= pinned && (|res| >= S ==> |pinned| >= S)
  {
    assert forall k :: k in res && k !in pinned ==> k in Members(lru);
    SubsetSize(res, pinned);
  }

  /** A request loses a pinned resident. */
  ghost predicate LosesPin(st: PinSplit, st': PinSplit, pinned: set<Key>) {
    exists k :: k in pinned && k in st.res && k !in st'.res
  }

  /** One request keeps the relation of the fields, and loses a pinned resident exactly when it misses on
      a cache full of them; fewer pins than slots rule that out. */
  lemma RequestKeeps(st: PinSplit, pinned: set<Key>, S: nat, t0: int, t: int, key: Key, first: First)
    requires Kept(st.lru, st.res, pinned, S) && S >= 1 && IsFirst(first)
    ensures var st' := FlfuKey(st, S, t0, pinned, t, key, first);
            Kept(st'.lru, st'.res, pinned, S) && (LosesPin(st, st', pinned) <==> GivesUp(st, S, key))
    ensures |pinned| < S ==> !GivesUp(st, S, key)
  {
    var (lru, res) := (st.lru, st.res);
    if GivesUp(st, S, key) {
      PinsFillTheCache(lru, res, pinned, S);
      var v := first(res, st.miss + 1);
      assert res != {} && v in res && v in pinned;
      assert Members(lru) == res - {v} - pinned;
      KeptAfterFill(lru, res - {v}, pinned, S, key);
    } else {
      SplitKeeps(st, pinned, S, t0, t, key);
      FlfuIsSplit(st, S, t0, pinned, t, key, first);
    }
  }

  lemma SplitKeeps(st: PinSplit, pinned: set<Key>, S: nat, t0: int, t: int, key: Key)
    requires Kept(st.lru, st.res, pinned, S) && S >= 1 && !GivesUp(st, S, key)
    ensures var st' := SplitKey(st, S, t0, pinned, t, key);
            Kept(st'.lru, st'.res, pinned, S) && !LosesPin(st, st', pinned)
  {
    var (lru, res) := (st.lru, st.res);
    if key in res {
      if key in lru {
        KeptAfterHit(lru, res, pinned, S, key);
      }
    } else if |res| >= S {
      OldestUnpinned(lru, res, pinned, S);
      KeptAfterEvict(lru, res, pinned, S);
      KeptAfterFill(lru[1..], res - {lru[0]}, pinned, S, key);
    } else {
      KeptAfterFill(lru, res, pinned, S, key);
    }
  }

  lemma OldestUnpinned(lru: seq<Key>, res: set<Key>, pinned: set<Key>, S: nat)
    requires Kept(lru, res, pinned, S) && lru != []
    ensures lru[0] in res && lru[0] !in pinned
  {
    assert lru[0] in Members(lru);
  }

  /** The keys a request evicts: at most one. */
  function Gone(st: PinSplit, S: nat, key: Key, first: First): set<Key> {
    if key in st.res || |st.res| < S then {}
    else if st.lru == [] then {first(st.res, st.miss + 1)}
    else {st.lru[0]}
  }

  lemma GoneIs(st: PinSplit, pinned: set<Key>, S: nat, t0: int, t: int, key: Key, first: First)
    requires Kept(st.lru, st.res, pinned, S) && S >= 1 && IsFirst(first)
    ensures AtMostOne(Gone(st, S, key, first), st.res)
    ensures FlfuKey(st, S, t0, pinned, t, key, first).res == st.res - Gone(st, S, key, first) + {key}
    ensures |FlfuKey(st, S, t0, pinned, t, key, first).res| <= S
  {
    RequestKeeps(st, pinned, S, t0, t, key, first);
    if key !in st.res && |st.res| >= S {
      if st.lru == [] {
        assert first(st.res, st.miss + 1) in st.res;
      } else {
        OldestUnpinned(st.lru, st.res, pinned, S);
      }
    }
  }

  /** The victim: the oldest key of the LRU order that is resident, or some resident that is not pinned, or
      any resident. */
  method FindVictim(lru: seq<Key>, res: set<Key>, pinned: set<Key>, ghost S: nat, miss: nat, first: First)
    returns (lru': seq<Key>, victim: Key)
    requires Kept(lru, res, pinned, S)
    ensures if lru == [] then lru' == [] && victim == first(res, miss) else lru' == lru[1..] && victim == lru[0]
  {
    lru', victim := lru, first(res, miss);
    if lru != [] {
      OldestUnpinned(lru, res, pinned, S);
    }
    var found := false;
    while lru' != [] && !found
      invariant !found ==> lru' == lru && victim == first(res, miss)
      invariant found ==> lru != [] && lru' == lru[1..] && victim == lru[0]
      decreases |lru'|
    {
      var c := lru'[0];
      lru' := lru'[1..];
      if c in res {
        victim, found := c, true;
      }
    }
    if !found {
      PinsFillTheCache(lru, res, pinned, S);
      var todo := res;
      while todo != {} && !found
        invariant todo <= res && lru' == lru == [] && victim == first(res, miss)
        decreases todo
      {
        var c :| c in todo;
        todo := todo - {c};
        if c !in pinned { // never: every resident is pinned
          victim, found := c, true;
        }
      }
    }
  }

  method Access(S: nat, t0: int, t: int, key: Key, st: PinSplit, pinned: set<Key>, first: First)
    returns (st': PinSplit)
    requires Kept(st.lru, st.res, pinned, S) && S >= 1 && IsFirst(first)
    ensures st' == FlfuKey(st, S, t0, pinned, t, key, first) && Kept(st'.lru, st'.res, pinned, S)
    ensures LosesPin(st, st', pinned) <==> GivesUp(st, S, key)
  {
    RequestKeeps(st, pinned, S, t0, t, key, first);
    if key in st.res {
      st' := st;
      if key in st.lru {
        st' := st.(lru := MoveToEnd(st.lru, key));
      }
    } else {
      st' := st.(miss := st.miss + 1);
      if t >= t0 {
        st' := st'.(wmiss := st.wmiss + 1);
      }
      assert st' == CountMiss(st, t0, t);
      st' := MakeRoom(S, st', pinned, first);
      st' := st'.(res := st'.res + {key});
      if key !in pinned {
        st' := st'.(lru := st'.lru + [key]);
      }
    }
  }

  /** A miss, counted as number `st.miss`, evicts when the cache is full. */
  method MakeRoom(S: nat, st: PinSplit, pinned: set<Key>, first: First) returns (st': PinSplit)
    requires Kept(st.lru, st.res, pinned, S)
    ensures st' == Evicted(st, S, first)
  {
    st' := st;
    if |st.res| >= S {
      var lru, v := FindVictim(st.lru, st.res, pinned, S, st.miss, first);
      st' := st.(lru := lru, res := st.res - {v});
    }
  }

  lemma {:induction false} UnpinnedNone(order: seq<Key>)
    ensures Unpinned(order, {}) == order
  {
    if order != [] {
      UnpinnedNone(order[1..]);
    }
  }

  lemma {:induction false} UnpinnedOneMore(order: seq<Key>, pinned: set<Key>, k: Key)
    ensures Unpinned(order, pinned + {k}) == Remove(Unpinned(order, pinned), k)
  {
    if order != [] {
      UnpinnedOneMore(order[1..], pinned, k);
      var head := if order[0] in pinned then [] else [order[0]];
      RemoveConcat(head, Unpinned(order[1..], pinned), k);
      assert Remove(head, k) == if order[0] in pinned + {k} then [] else [order[0]];
    }
  }

  lemma {:induction false} UnpinnedDistinct(order: seq<Key>, pinned: set<Key>)
    requires Distinct(order)
    ensures Distinct(Unpinned(order, pinned))
  {
    if order != [] {
      var rest := order[1..];
      UnpinnedDistinct(rest, pinned);
      UnpinnedMembers(rest, pinned);
      assert order[0] !in Members(Unpinned(rest, pinned));
    }
  }

  /** Keys that lost their pin re-enter the order at the back, in any order; keys that gained one leave
      it. */
  ghost predicate Reordered(lru: seq<Key>, res: set<Key>, pinned: set<Key>, chosen: set<Key>, lru': seq<Key>) {
    exists back :: Distinct(back) && Members(back) == res * (pinned - chosen) && lru' == Unpinned(lru + back, chosen)
  }

  lemma KeptReordered(lru: seq<Key>, res: set<Key>, pinned: set<Key>, chosen: set<Key>, S: nat, lru': seq<Key>)
    requires Kept(lru, res, pinned, S) && Reordered(lru, res, pinned, chosen, lru')
    ensures Kept(lru', res, chosen, S)
  {
    var back :| Distinct(back) && Members(back) == res * (pinned - chosen) && lru' == Unpinned(lru + back, chosen);
    assert forall x :: x in lru ==> x in Members(lru);
    assert forall x :: x in back ==> x in Members(back);
    DistinctConcat(lru, back);
    UnpinnedDistinct(lru + back, chosen);
    UnpinnedMembers(lru + back, chosen);
    assert Members(lru + back) == Members(lru) + Members(back);
  }

  method Repin(lru: seq<Key>, res: set<Key>, pinned: set<Key>, chosen: set<Key>, ghost S: nat) returns (lru': seq<Key>)
    requires Kept(lru, res, pinned, S)
    ensures Reordered(lru, res, pinned, chosen, lru') && Kept(lru', res, chosen, S)
  {
    var longer := Reenter(lru, res, pinned, chosen, S);
    lru' := longer;
    UnpinnedNone(longer);
    var todo := chosen;
    assert chosen - todo == {};
    while todo != {}
      invariant todo <= chosen && lru' == Unpinned(longer, chosen - todo)
    {
      var k :| k in todo;
      UnpinnedOneMore(longer, chosen - todo, k);
      assert chosen - (todo - {k}) == chosen - todo + {k};
      todo := todo - {k};
      lru' := Remove(lru', k);
    }
    assert chosen - {} == chosen;
    KeptReordered(lru, res, pinned, chosen, S, lru');
  }

  method Reenter(lru: seq<Key>, res: set<Key>, pinned: set<Key>, chosen: set<Key>, ghost S: nat)
    returns (lru': seq<Key>)
    requires Kept(lru, res, pinned, S)
    ensures exists back :: Distinct(back) && Members(back) == res * (pinned - chosen) && lru' == lru + back
  {
    lru' := lru;
    ghost var back: seq<Key> := [];
    var todo := pinned - chosen;
    while todo != {}
      invariant todo <= pinned - chosen && lru' == lru + back
      invariant Distinct(back) && Members(back) == res * (pinned - chosen - todo)
    {
      var k :| k in todo;
      todo := todo - {k};
      assert k in lru <==> k in Members(lru);
      assert k in back <==> k in Members(back);
      if k in res && k !in lru' {
        lru' := lru' + [k];
        assert Members(back + [k]) == Members(back) + {k};
        back := back + [k];
      }
    }
  }

  // ---- histories ----

  datatype Flfu = Flfu(split: PinSplit, pinned: set<Key>, cnt: Counter)

  datatype Settings = Settings(S: nat, t0: int, nPin: nat, repin: nat, decay: real, first: First)

  ghost predicate Held(st: Flfu, S: nat) {
    S >= 1 && Kept(st.split.lru, st.split.res, st.pinned, S)
  }

  function Counted(cnt: Counter, key: Key): Counter {
    cnt[key := (if key in cnt then cnt[key] else 0.0) + 1.0]
  }

  /** One request of token `t`. */
  function AfterKey(st: Flfu, p: Settings, t: int, key: Key): Flfu {
    Flfu(FlfuKey(st.split, p.S, p.t0, st.pinned, t, key, p.first), st.pinned, Counted(st.cnt, key))
  }

  /** The first `n` requests of token `t`. */
  function AfterKeys(st: Flfu, p: Settings, t: int, keys: seq<Key>, n: nat): Flfu
    requires n <= |keys|
  {
    if n == 0 then st else AfterKey(AfterKeys(st, p, t, keys, n - 1), p, t, keys[n - 1])
  }

  /** The list, the residents and the pins fit together at every request; none gives up when there are
      fewer pins than slots. */
  lemma {:induction false} RequestsKeep(st: Flfu, p: Settings, t: int, keys: seq<Key>, n: nat)
    requires Held(st, p.S) && IsFirst(p.first) && n <= |keys|
    ensures var r := AfterKeys(st, p, t, keys, n);
            && Held(r, p.S) && r.pinned == st.pinned
            && (n < |keys| && |st.pinned| < p.S ==> !GivesUp(r.split, p.S, keys[n]))
  {
    if n > 0 {
      RequestsKeep(st, p, t, keys, n - 1);
      RequestKeeps(AfterKeys(st, p, t, keys, n - 1).split, st.pinned, p.S, p.t0, t, keys[n - 1], p.first);
    }
    if n < |keys| {
      RequestKeeps(AfterKeys(st, p, t, keys, n).split, st.pinned, p.S, p.t0, t, keys[n], p.first);
    }
  }

  ghost predicate ResidentAfter(st: Flfu, p: Settings, t: int, keys: seq<Key>, n: nat, k: Key)
    requires n <= |keys|
  {
    k in AfterKeys(st, p, t, keys, n).split.res
  }

  /** A pinned resident after `n` requests, with fewer pins than slots. */
  ghost predicate Safe(st: Flfu, p: Settings, t: int, keys: seq<Key>, n: nat, k: Key) {
    && Held(st, p.S) && IsFirst(p.first) && |st.pinned| < p.S
    && n <= |keys| && k in st.pinned && ResidentAfter(st, p, t, keys, n, k)
  }

  lemma NextKeeps(st: Flfu, p: Settings, t: int, keys: seq<Key>, n: nat, k: Key)
    requires 0 < n <= |keys| && Safe(st, p, t, keys, n - 1, k)
    ensures Safe(st, p, t, keys, n, k)
  {
    RequestsKeep(st, p, t, keys, n - 1);
    var now := AfterKeys(st, p, t, keys, n - 1);
    RequestKeeps(now.split, now.pinned, p.S, p.t0, t, keys[n - 1], p.first);
  }

  /** With fewer pins than slots a pinned key, once resident, stays: no request of a token evicts it. */
  lemma {:induction false} PinnedStay(st: Flfu, p: Settings, t: int, keys: seq<Key>, n: nat, later: nat, k: Key)
    requires n <= later <= |keys| && Safe(st, p, t, keys, n, k)
    ensures Safe(st, p, t, keys, later, k)
    decreases later
  {
    if n < later {
      PinnedStay(st, p, t, keys, n, later - 1, k);
      NextKeeps(st, p, t, keys, later, k);
    }
  }

  /** A re-pin: the most frequent keys are pinned, the order follows, the counts decay. */
  ghost predicate Repinned(a: Flfu, b: Flfu, nPin: nat, decay: real) {
    && IsMostCommon(a.cnt, nPin, b.pinned)
    && Reordered(a.split.lru, a.split.res, a.pinned, b.pinned, b.split.lru)
    && b.split == a.split.(lru := b.split.lru)
    && b.cnt == Decayed(a.cnt, decay)
  }

  /** The requests of token `t`. */
  function AfterToken(p: Settings, t: nat, tk: seq<seq<Key>>, a: Flfu): Flfu {
    AfterKeys(a, p, t, FlatRows(tk), |FlatRows(tk)|)
  }

  ghost predicate TokenStep(p: Settings, t: nat, tk: seq<seq<Key>>, a: Flfu, b: Flfu)
    requires p.repin >= 1
  {
    var mid := AfterToken(p, t, tk, a);
    if (t + 1) % p.repin == 0 then Repinned(mid, b, p.nPin, p.decay) else b == mid
  }

  const COLD := Flfu(EMPTY_SPLIT, {}, map[])

  /** `trace[t]` is the state before token `t`, for some way to break ties and to order sets. */
  ghost predicate FlfuRun(p: Settings, toks: seq<seq<seq<Key>>>, trace: seq<Flfu>)
    requires p.repin >= 1
  {
    && 1 <= |trace| <= |toks| + 1 && trace[0] == COLD
    && (forall t :: 0 <= t < |trace| ==> Held(trace[t], p.S))
    && forall t :: 0 <= t < |trace| - 1 ==> TokenStep(p, t, toks[t], trace[t], trace[t + 1])
  }

  // ---- the whole run is a schedule ----

  function FlatRows(rows: seq<seq<Key>>): seq<Key> {
    if rows == [] then [] else rows[0] + FlatRows(rows[1..])
  }

  function Flat(toks: seq<seq<seq<Key>>>): seq<Key> {
    if toks == [] then [] else FlatRows(toks[0]) + Flat(toks[1..])
  }

  ghost predicate Serving(s: seq<Key>, i: nat, S: nat, st: Flfu, moves: seq<Move>) {
    i <= |s| && Perform(s, S, moves) == At(st.split.res, i, st.split.miss)
  }

  /** The first `n` requests of a token have taken `a` to `st`. */
  ghost predicate Doing(p: Settings, t: nat, a: Flfu, keys: seq<Key>, n: nat, st: Flfu) {
    n <= |keys| && st == AfterKeys(a, p, t, keys, n)
  }

  /** And served `i` of the stream. */
  ghost predicate Underway(p: Settings, t: nat, a: Flfu, keys: seq<Key>, n: nat, st: Flfu, s: seq<Key>, i: nat,
                           moves: seq<Move>) {
    Held(st, p.S) && IsFirst(p.first) && Doing(p, t, a, keys, n, st) && Serving(s, i, p.S, st, moves)
  }

  method RunKey(key: Key, p: Settings, t: nat, st: Flfu, ghost s: seq<Key>, ghost i: nat, ghost moves: seq<Move>)
    returns (st': Flfu, ghost moves': seq<Move>)
    requires Held(st, p.S) && IsFirst(p.first) && Serving(s, i, p.S, st, moves) && i < |s| && s[i] == key
    ensures Held(st', p.S) && st' == AfterKey(st, p, t, key) && Serving(s, i + 1, p.S, st', moves')
  {
    var split := Access(p.S, p.t0, t, key, st.split, st.pinned, p.first);
    GoneIs(st.split, st.pinned, p.S, p.t0, t, key, p.first);
    moves' := Demand(s, p.S, moves, st.split.res, i, st.split.miss, Gone(st.split, p.S, key, p.first));
    st' := Flfu(split, st.pinned, Counted(st.cnt, key));
  }

  /** A row: the requests from `n` on of its token, at `i` in the stream. */
  lemma RowKey(row: seq<Key>, s: seq<Key>, i: nat, ki: nat, x: nat)
    requires RowAt(row, s, i) && ki < |row| && x == i + ki
    ensures x < |s| && s[x] == row[ki]
  {
  }

  method RunRow(row: seq<Key>, p: Settings, t: nat, st: Flfu, ghost a: Flfu, ghost keys: seq<Key>, ghost n: nat,
                ghost s: seq<Key>, ghost i: nat, ghost moves: seq<Move>)
    returns (st': Flfu, ghost moves': seq<Move>, ghost x: nat, ghost y: nat)
    requires Underway(p, t, a, keys, n, st, s, i, moves)
    requires RowAt(row, keys, n) && RowAt(row, s, i)
    ensures Underway(p, t, a, keys, x, st', s, y, moves')
    ensures x == n + |row| && y == i + |row|
  {
    st', moves' := st, moves;
    x, y := n, i;
    for ki := 0 to |row|
      invariant x == n + ki && y == i + ki
      invariant Underway(p, t, a, keys, x, st', s, y, moves')
    {
      RowKey(row, keys, n, ki, x);
      RowKey(row, s, i, ki, y);
      st', moves' := RunTokenKey(row[ki], p, t, st', a, keys, x, s, y, moves');
      x, y := x + 1, y + 1;
    }
  }

  method RunTokenKey(key: Key, p: Settings, t: nat, st: Flfu, ghost a: Flfu, ghost keys: seq<Key>, ghost n: nat,
                     ghost s: seq<Key>, ghost i: nat, ghost moves: seq<Move>)
    returns (st': Flfu, ghost moves': seq<Move>)
    requires Underway(p, t, a, keys, n, st, s, i, moves)
    requires n < |keys| && keys[n] == key && i < |s| && s[i] == key
    ensures Underway(p, t, a, keys, n + 1, st', s, i + 1, moves')
  {
    st', moves' := RunKey(key, p, t, st, s, i, moves);
  }

  /** `row` stands in `s` at `i`. */
  ghost predicate RowAt(row: seq<Key>, s: seq<Key>, i: nat) {
    i + |row| <= |s| && forall x :: 0 <= x < |row| ==> s[i + x] == row[x]
  }

  /** Requests in the first `ri` rows. */
  function Offset(rows: seq<seq<Key>>, ri: nat): nat
    requires ri <= |rows|
  {
    if ri == 0 then 0 else Offset(rows, ri - 1) + |rows[ri - 1]|
  }

  lemma {:induction false} OffsetIs(rows: seq<seq<Key>>, ri: nat)
    requires ri <= |rows|
    ensures Offset(rows, ri) == |FlatRows(rows[..ri])|
  {
    if ri > 0 {
      OffsetIs(rows, ri - 1);
      FlatRowsSplit(rows, ri - 1);
    }
  }

  lemma {:induction false} FlatRowsSplit(rows: seq<seq<Key>>, ri: nat)
    requires ri < |rows|
    ensures FlatRows(rows[..ri + 1]) == FlatRows(rows[..ri]) + rows[ri]
  {
    var a := rows[..ri + 1];
    if ri > 0 {
      FlatRowsSplit(rows[1..], ri - 1);
      assert a[1..] == rows[1..][..ri] && rows[..ri][1..] == rows[1..][..ri - 1];
    } else {
      assert a == [rows[0]];
    }
  }

  lemma {:induction false} FlatRowsSuffix(rows: seq<seq<Key>>, ri: nat)
    requires ri <= |rows|
    ensures FlatRows(rows) == FlatRows(rows[..ri]) + FlatRows(rows[ri..])
  {
    if ri > 0 {
      FlatRowsSuffix(rows[1..], ri - 1);
      assert rows[..ri][1..] == rows[1..][..ri - 1] && rows[ri..] == rows[1..][ri - 1..];
    } else {
      assert rows[0..] == rows;
    }
  }

  lemma OffsetAll(rows: seq<seq<Key>>)
    ensures Offset(rows, |rows|) == |FlatRows(rows)|
  {
    OffsetIs(rows, |rows|);
    assert rows[..|rows|] == rows;
  }

  /** Row `ri` stands in its token, and so in the stream. */
  lemma RowInStream(rows: seq<seq<Key>>, ri: nat, n: nat, s: seq<Key>, i: nat)
    requires ri < |rows| && n == Offset(rows, ri) && RowAt(FlatRows(rows), s, i)
    ensures RowAt(rows[ri], FlatRows(rows), n) && RowAt(rows[ri], s, i + n)
    ensures n + |rows[ri]| == Offset(rows, ri + 1)
  {
    RowInRows(rows, ri);
    RowAtJoin(rows[ri], FlatRows(rows), n, s, i);
  }

  lemma RowInRows(rows: seq<seq<Key>>, ri: nat)
    requires ri < |rows|
    ensures RowAt(rows[ri], FlatRows(rows), Offset(rows, ri))
  {
    OffsetIs(rows, ri);
    FlatRowsSuffix(rows, ri);
    assert rows[ri..][0] == rows[ri];
  }

  lemma RowAtJoin(row: seq<Key>, keys: seq<Key>, n: nat, s: seq<Key>, i: nat)
    requires RowAt(row, keys, n) && RowAt(keys, s, i)
    ensures RowAt(row, s, i + n)
  {
    forall x | 0 <= x < |row|
      ensures s[i + n + x] == row[x]
    {
      assert s[i + (n + x)] == keys[n + x];
    }
  }

  method RunToken(tk: seq<seq<Key>>, p: Settings, t: nat, a: Flfu, ghost s: seq<Key>, ghost i: nat,
                  ghost moves: seq<Move>)
    returns (st: Flfu, ghost moves': seq<Move>)
    requires Held(a, p.S) && IsFirst(p.first) && Serving(s, i, p.S, a, moves) && RowAt(FlatRows(tk), s, i)
    ensures Held(st, p.S) && st == AfterToken(p, t, tk, a)
    ensures Serving(s, i + |FlatRows(tk)|, p.S, st, moves')
  {
    st, moves' := a, moves;
    ghost var keys, n, x := FlatRows(tk), 0, i;
    for ri := 0 to |tk|
      invariant n == Offset(tk, ri) && x == i + n
      invariant Underway(p, t, a, keys, n, st, s, x, moves')
    {
      RowInStream(tk, ri, n, s, i);
      st, moves', n, x := RunRow(tk[ri], p, t, st, a, keys, n, s, x, moves');
    }
    OffsetAll(tk);
  }

  method RepinStep(p: Settings, st: Flfu) returns (st': Flfu)
    requires Held(st, p.S)
    ensures Repinned(st, st', p.nPin, p.decay) && Held(st', p.S)
  {
    var chosen := MostCommon(st.cnt, p.nPin);
    var lru := Repin(st.split.lru, st.split.res, st.pinned, chosen, p.S);
    var cnt := Decay(st.cnt, p.decay);
    st' := Flfu(st.split.(lru := lru), chosen, cnt);
  }

  lemma {:induction false} FlatSplit(toks: seq<seq<seq<Key>>>, ti: nat)
    requires ti < |toks|
    ensures Flat(toks[..ti + 1]) == Flat(toks[..ti]) + FlatRows(toks[ti])
  {
    var a := toks[..ti + 1];
    if ti > 0 {
      FlatSplit(toks[1..], ti - 1);
      assert a[1..] == toks[1..][..ti] && toks[..ti][1..] == toks[1..][..ti - 1];
    } else {
      assert a == [toks[0]];
    }
  }

  lemma {:induction false} FlatSuffix(toks: seq<seq<seq<Key>>>, ti: nat)
    requires ti <= |toks|
    ensures Flat(toks) == Flat(toks[..ti]) + Flat(toks[ti..])
  {
    if ti > 0 {
      FlatSuffix(toks[1..], ti - 1);
      assert toks[..ti][1..] == toks[1..][..ti - 1] && toks[ti..] == toks[1..][ti - 1..];
    } else {
      assert toks[0..] == toks;
    }
  }

  /** Requests of the first `ti` tokens. */
  function Requests(toks: seq<seq<seq<Key>>>, ti: nat): nat
    requires ti <= |toks|
  {
    if ti == 0 then 0 else Requests(toks, ti - 1) + |FlatRows(toks[ti - 1])|
  }

  lemma {:induction false} RequestsIs(toks: seq<seq<seq<Key>>>, ti: nat)
    requires ti <= |toks|
    ensures Requests(toks, ti) == |Flat(toks[..ti])|
  {
    if ti > 0 {
      RequestsIs(toks, ti - 1);
      FlatSplit(toks, ti - 1);
    }
  }

  lemma TokenInStream(toks: seq<seq<seq<Key>>>, ti: nat)
    requires ti < |toks|
    ensures RowAt(FlatRows(toks[ti]), Flat(toks), Requests(toks, ti))
  {
    RequestsIs(toks, ti);
    FlatSuffix(toks, ti);
    assert toks[ti..][0] == toks[ti];
  }

  lemma {:induction false} PinsAtMost(p: Settings, toks: seq<seq<seq<Key>>>, trace: seq<Flfu>, t: nat)
    requires p.repin >= 1 && FlfuRun(p, toks, trace) && IsFirst(p.first) && t < |trace|
    ensures |trace[t].pinned| <= p.nPin
  {
    if t > 0 {
      PinsAtMost(p, toks, trace, t - 1);
      assert TokenStep(p, t - 1, toks[t - 1], trace[t - 1], trace[t]);
      RequestsKeep(trace[t - 1], p, t - 1, FlatRows(toks[t - 1]), |FlatRows(toks[t - 1])|);
    }
  }

  /** With fewer pins than slots a pinned resident is not evicted over a whole token, re-pin included. */
  lemma PinnedSurvive(p: Settings, toks: seq<seq<seq<Key>>>, trace: seq<Flfu>, t: nat, k: Key)
    requires p.repin >= 1 && FlfuRun(p, toks, trace) && IsFirst(p.first) && p.nPin < p.S && t + 1 < |trace|
    requires k in trace[t].pinned && k in trace[t].split.res
    ensures k in trace[t + 1].split.res
  {
    var keys := FlatRows(toks[t]);
    PinsAtMost(p, toks, trace, t);
    assert TokenStep(p, t, toks[t], trace[t], trace[t + 1]);
    PinnedStay(trace[t], p, t, keys, 0, |keys|, k);
  }

  lemma RunExtended(p: Settings, toks: seq<seq<seq<Key>>>, trace: seq<Flfu>, st: Flfu)
    requires p.repin >= 1 && FlfuRun(p, toks, trace) && |trace| <= |toks| && Held(st, p.S)
    requires TokenStep(p, |trace| - 1, toks[|trace| - 1], trace[|trace| - 1], st)
    ensures FlfuRun(p, toks, trace + [st])
  {
    var longer := trace + [st];
    forall t | 0 <= t < |longer| - 1
      ensures TokenStep(p, t, toks[t], longer[t], longer[t + 1])
    {
      assert t < |trace| - 1 ==> TokenStep(p, t, toks[t], trace[t], trace[t + 1]);
    }
  }

  /** `int(S * pin_frac)` keys are pinned, none when that is negative. */
  function PinCount(S: nat, pinFrac: real): nat {
    Truncated(Share(S, pinFrac))
  }

  function Share(S: nat, pinFrac: real): real {
    S as real * pinFrac
  }

  function Truncated(x: real): nat {
    if x <= 0.0 then 0 else x.Floor
  }

  lemma ProductBelow(n: real, f: real)
    requires n > 0.0
    ensures n * f < n <==> f < 1.0
  {
    if f < 1.0 {
      assert n * (1.0 - f) > 0.0;
    } else {
      assert n * (f - 1.0) >= 0.0;
    }
  }

  lemma ShareBelow(S: nat, pinFrac: real)
    requires S >= 1
    ensures Share(S, pinFrac) < S as real <==> pinFrac < 1.0
  {
    ProductBelow(S as real, pinFrac);
  }

  lemma TruncatedBelow(x: real, n: nat)
    requires n >= 1
    ensures Truncated(x) < n <==> x < n as real
  {
  }

  /** There are fewer pins than slots exactly for a fraction below one. */
  lemma PinsFit(S: nat, pinFrac: real)
    requires S >= 1
    ensures PinCount(S, pinFrac) < S <==> pinFrac < 1.0
  {
    ShareBelow(S, pinFrac);
    TruncatedBelow(Share(S, pinFrac), S);
  }

  /** One token, and the re-pin if it is due. */
  method RunTokenStep(toks: seq<seq<seq<Key>>>, p: Settings, ti: nat, a: Flfu, ghost moves: seq<Move>)
    returns (st: Flfu, ghost moves': seq<Move>)
    requires ti < |toks| && Held(a, p.S) && IsFirst(p.first) && p.repin >= 1
    requires Serving(Flat(toks), Requests(toks, ti), p.S, a, moves)
    ensures Held(st, p.S) && TokenStep(p, ti, toks[ti], a, st)
    ensures Serving(Flat(toks), Requests(toks, ti + 1), p.S, st, moves')
  {
    var mid;
    mid, moves' := RunTokenAt(toks, p, ti, a, moves);
    st := mid;
    if (ti + 1) % p.repin == 0 {
      st := RepinStep(p, mid);
    }
  }

  method RunTokenAt(toks: seq<seq<seq<Key>>>, p: Settings, ti: nat, a: Flfu, ghost moves: seq<Move>)
    returns (st: Flfu, ghost moves': seq<Move>)
    requires ti < |toks| && Held(a, p.S) && IsFirst(p.first) && Serving(Flat(toks), Requests(toks, ti), p.S, a, moves)
    ensures Held(st, p.S) && st == AfterToken(p, ti, toks[ti], a)
    ensures Serving(Flat(toks), Requests(toks, ti + 1), p.S, st, moves')
  {
    TokenInStream(toks, ti);
    st, moves' := RunToken(toks[ti], p, ti, a, Flat(toks), Requests(toks, ti), moves);
  }

  lemma AllRequests(toks: seq<seq<seq<Key>>>)
    ensures Requests(toks, |toks|) == |Flat(toks)|
  {
    RequestsIs(toks, |toks|);
    assert toks[..|toks|] == toks;
  }

  /** The run is one of the policy, so the list, the residents and the pins fit together at every
      request, and below a pin fraction of one no pinned resident is evicted (`PinnedSurvive`); and its
      misses are the fetches of a schedule, so `run_flfu` too fetches no less than the offline optimum. */
  method RunFlfu(toks: seq<seq<seq<Key>>>, S: nat, t0: int, pinFrac: real, repin: nat, decay: real, first: First)
    returns (miss: nat, wmiss: nat, ghost trace: seq<Flfu>, ghost moves: seq<Move>)
    requires S >= 1 && repin >= 1 && IsFirst(first)
    ensures FlfuRun(Settings(S, t0, PinCount(S, pinFrac), repin, decay, first), toks, trace)
    ensures |trace| == |toks| + 1
    ensures miss == trace[|toks|].split.miss && wmiss == trace[|toks|].split.wmiss
    ensures Serves(Flat(toks), S, moves) && Fetches(Flat(toks), S, moves) == miss
    ensures forall least: nat :: IsLeastFetches(Flat(toks), S, least) ==> least <= miss
  {
    var p := Settings(S, t0, PinCount(S, pinFrac), repin, decay, first);
    var st := COLD;
    trace, moves := [st], [];
    for ti := 0 to |toks|
      invariant FlfuRun(p, toks, trace) && |trace| == ti + 1 && trace[ti] == st
      invariant Serving(Flat(toks), Requests(toks, ti), S, st, moves)
    {
      st, moves := RunTokenStep(toks, p, ti, st, moves);
      RunExtended(p, toks, trace, st);
      trace := trace + [st];
    }
    AllRequests(toks);
    miss, wmiss := st.split.miss, st.split.wmiss;
  }
}
