/** LRU with a pinned set: the split bookkeeping of scripts/policy_sim.py `run_pinned` against the
    single list of scripts/policy2.py `pinned_lru`. */
module PinnedPolicies {
  import opened Prelude
  import opened Paging
  import opened Recency

  // ---- scripts/policy2.py: one order over all residents, a victim search skips pinned keys ----

  datatype PinList = PinList(order: seq<Key>, m: nat, w: nat)

  /** Index of the oldest key that is not pinned; `|order|` if there is none. */
  function FirstUnpinned(order: seq<Key>, pinned: set<Key>): (j: nat)
    ensures j <= |order|
    ensures j < |order| ==> order[j] !in pinned
    ensures forall x :: 0 <= x < j ==> order[x] in pinned
  {
    if order == [] then 0
    else if order[0] !in pinned then 0
    else 1 + FirstUnpinned(order[1..], pinned)
  }

  /** The order after the victim search: the oldest key goes when every resident is pinned. */
  function Evict(order: seq<Key>, pinned: set<Key>): seq<Key>
    requires order != []
  {
    var j := FirstUnpinned(order, pinned);
    Without(order, if j < |order| then j else 0)
  }

  function Without(order: seq<Key>, j: nat): seq<Key>
    requires j < |order|
  {
    order[..j] + order[j + 1..]
  }

  function ListRequest(st: PinList, S: nat, t0: int, pinned: set<Key>, r: Request): PinList
    requires S >= 1
  {
    if r.key in st.order then st.(order := MoveToEnd(st.order, r.key))
    else
      var room := if |st.order| >= S then Evict(st.order, pinned) else st.order;
      PinList(room + [r.key], st.m + 1, st.w + if r.token >= t0 then 1 else 0)
  }

  function ListRun(st: PinList, reqs: seq<Request>, S: nat, t0: int, pinned: set<Key>): PinList
    requires S >= 1
    decreases |reqs|
  {
    if reqs == [] then st
    else ListRun(ListRequest(st, S, t0, pinned, reqs[0]), reqs[1..], S, t0, pinned)
  }

  lemma {:induction false} ListRunConcat(st: PinList, a: seq<Request>, b: seq<Request>, S: nat, t0: int,
                                         pinned: set<Key>)
    requires S >= 1
    ensures ListRun(st, a + b, S, t0, pinned) == ListRun(ListRun(st, a, S, t0, pinned), b, S, t0, pinned)
    decreases |a|
  {
    if a == [] {
      assert a + b == b;
    } else {
      assert (a + b)[1..] == a[1..] + b;
      ListRunConcat(ListRequest(st, S, t0, pinned, a[0]), a[1..], b, S, t0, pinned);
    }
  }

  const EMPTY_LIST := PinList([], 0, 0)

  method PinnedLru(reqs: seq<Request>, S: nat, t0: int, pinned: set<Key>) returns (m: nat, w: nat)
    requires S >= 1
    ensures var end := ListRun(EMPTY_LIST, reqs, S, t0, pinned); m == end.m && w == end.w
  {
    var res: seq<Key> := [];
    m, w := 0, 0;
    for i := 0 to |reqs|
      invariant ListRun(PinList(res, m, w), reqs[i..], S, t0, pinned) == ListRun(EMPTY_LIST, reqs, S, t0, pinned)
    {
      assert reqs[i..][1..] == reqs[i + 1..];
      res, m, w := ListAccess(res, m, w, S, t0, pinned, reqs[i]);
    }
  }

  method ListAccess(res: seq<Key>, m: nat, w: nat, S: nat, t0: int, pinned: set<Key>, r: Request)
    returns (res': seq<Key>, m': nat, w': nat)
    requires S >= 1
    ensures PinList(res', m', w') == ListRequest(PinList(res, m, w), S, t0, pinned, r)
  {
    res', m', w' := res, m, w;
    if r.key in res {
      res' := MoveToEnd(res, r.key);
    } else {
      m' := m + 1;
      w' := w + if r.token >= t0 then 1 else 0;
      if |res| >= S {
        var j := FindVictim(res, pinned);
        res' := Without(res, if j < |res| then j else 0);
      }
      res' := res' + [r.key];
    }
  }

  method FindVictim(res: seq<Key>, pinned: set<Key>) returns (j: nat)
    ensures j == FirstUnpinned(res, pinned)
  {
    j := 0;
    while j < |res| && res[j] in pinned
      invariant j <= FirstUnpinned(res, pinned)
    {
      j := j + 1;
    }
  }

  // ---- scripts/policy_sim.py: the unpinned residents in an LRU order, all residents in a set ----

  datatype PinSplit = PinSplit(lru: seq<Key>, res: set<Key>, miss: nat, wmiss: nat)

  const EMPTY_SPLIT := PinSplit([], {}, 0, 0)

  function CountMiss(st: PinSplit, t0: int, t: int): PinSplit {
    st.(miss := st.miss + 1, wmiss := st.wmiss + if t >= t0 then 1 else 0)
  }

  /** A miss that finds every slot pinned: it is counted, and the rest of the row is skipped. */
  predicate GivesUp(st: PinSplit, S: nat, key: Key) {
    key !in st.res && |st.res| >= S && st.lru == []
  }

  function SplitKey(st: PinSplit, S: nat, t0: int, pinned: set<Key>, t: int, key: Key): PinSplit
    requires !GivesUp(st, S, key)
  {
    if key in st.res then
      st.(lru := if key in st.lru then MoveToEnd(st.lru, key) else st.lru)
    else
      var full := |st.res| >= S;
      var lru := if full then st.lru[1..] else st.lru;
      var res := if full then st.res - {st.lru[0]} else st.res;
      CountMiss(st, t0, t).(lru := if key in pinned then lru else lru + [key], res := res + {key})
  }

  function SplitRow(st: PinSplit, S: nat, t0: int, pinned: set<Key>, t: int, row: seq<Key>): PinSplit
    decreases |row|
  {
    if row == [] then st
    else if GivesUp(st, S, row[0]) then CountMiss(st, t0, t)
    else SplitRow(SplitKey(st, S, t0, pinned, t, row[0]), S, t0, pinned, t, row[1..])
  }

  function SplitToken(st: PinSplit, S: nat, t0: int, pinned: set<Key>, t: int, rows: seq<seq<Key>>): PinSplit
    decreases |rows|
  {
    if rows == [] then st
    else SplitToken(SplitRow(st, S, t0, pinned, t, rows[0]), S, t0, pinned, t, rows[1..])
  }

  function SplitRun(st: PinSplit, S: nat, t0: int, pinned: set<Key>, t: int, toks: seq<seq<seq<Key>>>): PinSplit
    decreases |toks|
  {
    if toks == [] then st
    else SplitRun(SplitToken(st, S, t0, pinned, t, toks[0]), S, t0, pinned, t + 1, toks[1..])
  }

  method RunPinned(toks: seq<seq<seq<Key>>>, S: nat, t0: int, pinned: set<Key>) returns (miss: nat, wmiss: nat)
    ensures var end := SplitRun(EMPTY_SPLIT, S, t0, pinned, 0, toks); miss == end.miss && wmiss == end.wmiss
  {
    var st := EMPTY_SPLIT;
    for ti := 0 to |toks|
      invariant SplitRun(st, S, t0, pinned, ti, toks[ti..]) == SplitRun(EMPTY_SPLIT, S, t0, pinned, 0, toks)
    {
      assert toks[ti..][0] == toks[ti] && toks[ti..][1..] == toks[ti + 1..];
      st := RunPinnedToken(st, S, t0, pinned, ti, toks[ti]);
    }
    miss, wmiss := st.miss, st.wmiss;
  }

  method RunPinnedToken(st: PinSplit, S: nat, t0: int, pinned: set<Key>, ti: nat, tk: seq<seq<Key>>)
    returns (st': PinSplit)
    ensures st' == SplitToken(st, S, t0, pinned, ti, tk)
  {
    st' := st;
    for ri := 0 to |tk|
      invariant SplitToken(st', S, t0, pinned, ti, tk[ri..]) == SplitToken(st, S, t0, pinned, ti, tk)
    {
      assert tk[ri..][0] == tk[ri] && tk[ri..][1..] == tk[ri + 1..];
      st' := RunPinnedRow(st', S, t0, pinned, ti, tk[ri]);
    }
  }

  method RunPinnedRow(st: PinSplit, S: nat, t0: int, pinned: set<Key>, ti: nat, row: seq<Key>) returns (st': PinSplit)
    ensures st' == SplitRow(st, S, t0, pinned, ti, row)
  {
    st' := st;
    for ki := 0 to |row|
      invariant SplitRow(st', S, t0, pinned, ti, row[ki..]) == SplitRow(st, S, t0, pinned, ti, row)
    {
      assert row[ki..][0] == row[ki] && row[ki..][1..] == row[ki + 1..];
      var gaveUp;
      st', gaveUp := RunPinnedKey(st', S, t0, pinned, ti, row[ki]);
      if gaveUp {
        return;
      }
    }
  }

  /** One request; `gaveUp` is the `break` out of the row. */
  method RunPinnedKey(st: PinSplit, S: nat, t0: int, pinned: set<Key>, ti: nat, key: Key)
    returns (st': PinSplit, gaveUp: bool)
    ensures gaveUp == GivesUp(st, S, key)
    ensures st' == if gaveUp then CountMiss(st, t0, ti) else SplitKey(st, S, t0, pinned, ti, key)
  {
    var lru, res, miss, wmiss := st.lru, st.res, st.miss, st.wmiss;
    gaveUp := false;
    if key in res {
      if key in lru {
        lru := MoveToEnd(lru, key);
      }
    } else {
      miss := miss + 1;
      if ti >= t0 {
        wmiss := wmiss + 1;
      }
      if |res| >= S {
        if lru == [] {
          return PinSplit(lru, res, miss, wmiss), true;
        }
        var v := lru[0];
        lru := lru[1..];
        res := res - {v};
      }
      res := res + {key};
      if key !in pinned {
        lru := lru + [key];
      }
    }
    st' := PinSplit(lru, res, miss, wmiss);
  }

  // ---- the two agree while a slot is always left for an unpinned key ----

  function Unpinned(order: seq<Key>, pinned: set<Key>): seq<Key> {
    if order == [] then []
    else (if order[0] in pinned then [] else [order[0]]) + Unpinned(order[1..], pinned)
  }

  lemma {:induction false} UnpinnedConcat(a: seq<Key>, b: seq<Key>, pinned: set<Key>)
    ensures Unpinned(a + b, pinned) == Unpinned(a, pinned) + Unpinned(b, pinned)
  {
    if a == [] {
      assert a + b == b;
    } else {
      assert (a + b)[1..] == a[1..] + b;
      UnpinnedConcat(a[1..], b, pinned);
    }
  }

  lemma {:induction false} UnpinnedMembers(order: seq<Key>, pinned: set<Key>)
    ensures Members(Unpinned(order, pinned)) == Members(order) - pinned
  {
    if order != [] {
      UnpinnedMembers(order[1..], pinned);
      assert Members(order) == {order[0]} + Members(order[1..]);
      assert Members(Unpinned(order, pinned)) ==
             (if order[0] in pinned then {} else {order[0]}) + Members(Unpinned(order[1..], pinned));
    }
  }

  lemma {:induction false} UnpinnedRemove(order: seq<Key>, pinned: set<Key>, k: Key)
    ensures Unpinned(Remove(order, k), pinned) == Remove(Unpinned(order, pinned), k)
  {
    if order != [] {
      var rest := order[1..];
      UnpinnedRemove(rest, pinned, k);
      if order[0] in pinned {
        assert Unpinned(order, pinned) == Unpinned(rest, pinned);
        if order[0] != k {
          UnpinnedConcat([order[0]], Remove(rest, k), pinned);
          assert Unpinned([order[0]], pinned) == [];
        }
      } else {
        RemoveConcat([order[0]], Unpinned(rest, pinned), k);
        if order[0] != k {
          UnpinnedConcat([order[0]], Remove(rest, k), pinned);
          assert Unpinned([order[0]], pinned) == [order[0]];
        }
      }
    }
  }

  /** The victim search on the single list finds the oldest of the split order. */
  lemma {:induction false} UnpinnedEvict(order: seq<Key>, pinned: set<Key>)
    requires Unpinned(order, pinned) != []
    ensures var j := FirstUnpinned(order, pinned);
            && j < |order| && order[j] == Unpinned(order, pinned)[0]
            && Unpinned(Evict(order, pinned), pinned) == Unpinned(order, pinned)[1..]
  {
    var rest := order[1..];
    if order[0] in pinned {
      UnpinnedEvict(rest, pinned);
      assert order == [order[0]] + rest;
      EvictPinnedHead(order[0], rest, pinned);
    } else {
      assert Without(order, 0) == rest;
    }
  }

  lemma FirstPinnedHead(k: Key, rest: seq<Key>, pinned: set<Key>)
    requires k in pinned
    ensures FirstUnpinned([k] + rest, pinned) == FirstUnpinned(rest, pinned) + 1
  {
    assert ([k] + rest)[1..] == rest;
  }

  lemma WithoutTail(k: Key, rest: seq<Key>, j: nat)
    requires j < |rest|
    ensures Without([k] + rest, j + 1) == [k] + Without(rest, j)
  {
  }

  lemma EvictPinnedHead(k: Key, rest: seq<Key>, pinned: set<Key>)
    requires k in pinned && FirstUnpinned(rest, pinned) < |rest|
    ensures FirstUnpinned([k] + rest, pinned) == FirstUnpinned(rest, pinned) + 1
    ensures Evict([k] + rest, pinned) == [k] + Evict(rest, pinned)
  {
    assert ([k] + rest)[1..] == rest;
    FirstPinnedHead(k, rest, pinned);
    WithoutTail(k, rest, FirstUnpinned(rest, pinned));
  }

  /** The split bookkeeping describes the single list. */
  ghost predicate Describes(split: PinSplit, list: PinList, S: nat, pinned: set<Key>) {
    && Distinct(list.order) && |list.order| <= S
    && split.res == Members(list.order)
    && split.lru == Unpinned(list.order, pinned)
    && split.miss == list.m && split.wmiss == list.w
  }

  /** Fewer pins than slots: `run_pinned` never gives up. */
  lemma NeverGivesUp(split: PinSplit, list: PinList, S: nat, pinned: set<Key>, key: Key)
    requires |pinned| < S && Describes(split, list, S, pinned)
    ensures !GivesUp(split, S, key)
  {
    UnpinnedMembers(list.order, pinned);
    DistinctSize(list.order);
    if split.lru == [] {
      assert split.res - pinned == {};
      assert forall k :: k in split.res && k !in pinned ==> k in split.res - pinned;
      SubsetSize(split.res, pinned);
    }
  }

  lemma KeyAgrees(split: PinSplit, list: PinList, S: nat, t0: int, pinned: set<Key>, t: int, key: Key)
    requires |pinned| < S && Describes(split, list, S, pinned)
    ensures !GivesUp(split, S, key)
    ensures Describes(SplitKey(split, S, t0, pinned, t, key), ListRequest(list, S, t0, pinned, Request(key, t)), S,
            pinned)
  {
    NeverGivesUp(split, list, S, pinned, key);
    if key in list.order {
      assert key in split.lru <==> key !in pinned by {
        UnpinnedMembers(list.order, pinned);
        assert key in Members(split.lru) <==> key in Members(list.order) - pinned;
      }
      HitAgrees(list.order, pinned, key);
    } else {
      assert |split.res| == |list.order| by { DistinctSize(list.order); }
      MissAgrees(list.order, S, pinned, key);
    }
  }

  lemma HitAgrees(order: seq<Key>, pinned: set<Key>, key: Key)
    requires Distinct(order) && key in order
    ensures var order' := MoveToEnd(order, key);
            && Distinct(order') && |order'| == |order| && Members(order') == Members(order)
            && Unpinned(order', pinned) ==
               (if key in pinned then Unpinned(order, pinned) else MoveToEnd(Unpinned(order, pinned), key))
  {
    MoveToEndDistinct(order, key);
    UnpinnedRemove(order, pinned, key);
    UnpinnedConcat(Remove(order, key), [key], pinned);
    UnpinnedMembers(order, pinned);
    if key in pinned {
      assert key !in Members(Unpinned(order, pinned));
      RemoveAbsent(Unpinned(order, pinned), key);
    }
  }

  lemma EvictShape(order: seq<Key>, pinned: set<Key>)
    requires Distinct(order) && Unpinned(order, pinned) != []
    ensures var room, lru := Evict(order, pinned), Unpinned(order, pinned);
            && Distinct(room) && |room| == |order| - 1 && (forall x :: x in room ==> x in order)
            && Members(room) == Members(order) - {lru[0]}
            && Unpinned(room, pinned) == lru[1..]
  {
    UnpinnedEvict(order, pinned);
  }

  lemma MissAgrees(order: seq<Key>, S: nat, pinned: set<Key>, key: Key)
    requires Distinct(order) && |order| <= S && key !in order && S >= 1
    requires |order| >= S ==> Unpinned(order, pinned) != []
    ensures var full := |order| >= S;
            var lru := Unpinned(order, pinned);
            var order' := (if full then Evict(order, pinned) else order) + [key];
            && Distinct(order') && |order'| <= S
            && Members(order') == (if full then Members(order) - {lru[0]} else Members(order)) + {key}
            && Unpinned(order', pinned) == (if full then lru[1..] else lru) + (if key in pinned then [] else [key])
  {
    var room := order;
    if |order| >= S {
      EvictShape(order, pinned);
      room := Evict(order, pinned);
    }
    DistinctConcat(room, [key]);
    UnpinnedConcat(room, [key], pinned);
    assert [key] == [key] + [];
    MembersAppend(room, key);
  }

  // ---- whole traces ----

  function RowRequests(t: int, row: seq<Key>): seq<Request> {
    if row == [] then [] else [Request(row[0], t)] + RowRequests(t, row[1..])
  }

  function TokenRequests(t: int, rows: seq<seq<Key>>): seq<Request> {
    if rows == [] then [] else RowRequests(t, rows[0]) + TokenRequests(t, rows[1..])
  }

  /** The request stream of a trace, each request tagged with its token. */
  function Requests(t: int, toks: seq<seq<seq<Key>>>): seq<Request>
    decreases |toks|
  {
    if toks == [] then [] else TokenRequests(t, toks[0]) + Requests(t + 1, toks[1..])
  }

  lemma {:induction false} RowAgrees(split: PinSplit, list: PinList, S: nat, t0: int, pinned: set<Key>, t: int,
                                     row: seq<Key>)
    requires |pinned| < S && Describes(split, list, S, pinned)
    ensures Describes(SplitRow(split, S, t0, pinned, t, row), ListRun(list, RowRequests(t, row), S, t0, pinned), S,
            pinned)
    decreases |row|
  {
    if row != [] {
      KeyAgrees(split, list, S, t0, pinned, t, row[0]);
      RowAgrees(SplitKey(split, S, t0, pinned, t, row[0]), ListRequest(list, S, t0, pinned, Request(row[0], t)),
                S, t0, pinned, t, row[1..]);
    }
  }

  lemma {:induction false} TokenAgrees(split: PinSplit, list: PinList, S: nat, t0: int, pinned: set<Key>, t: int,
                                       rows: seq<seq<Key>>)
    requires |pinned| < S && Describes(split, list, S, pinned)
    ensures Describes(SplitToken(split, S, t0, pinned, t, rows), ListRun(list, TokenRequests(t, rows), S, t0, pinned),
            S, pinned)
    decreases |rows|
  {
    if rows != [] {
      RowAgrees(split, list, S, t0, pinned, t, rows[0]);
      ListRunConcat(list, RowRequests(t, rows[0]), TokenRequests(t, rows[1..]), S, t0, pinned);
      TokenAgrees(SplitRow(split, S, t0, pinned, t, rows[0]), ListRun(list, RowRequests(t, rows[0]), S, t0, pinned),
                  S, t0, pinned, t, rows[1..]);
    }
  }

  lemma {:induction false} RunAgrees(split: PinSplit, list: PinList, S: nat, t0: int, pinned: set<Key>, t: int,
                                     toks: seq<seq<seq<Key>>>)
    requires |pinned| < S && Describes(split, list, S, pinned)
    ensures Describes(SplitRun(split, S, t0, pinned, t, toks), ListRun(list, Requests(t, toks), S, t0, pinned), S,
            pinned)
    decreases |toks|
  {
    if toks != [] {
      TokenAgrees(split, list, S, t0, pinned, t, toks[0]);
      ListRunConcat(list, TokenRequests(t, toks[0]), Requests(t + 1, toks[1..]), S, t0, pinned);
      RunAgrees(SplitToken(split, S, t0, pinned, t, toks[0]), ListRun(list, TokenRequests(t, toks[0]), S, t0, pinned),
                S, t0, pinned, t + 1, toks[1..]);
    }
  }

  /** The two simulators count the same misses on every trace and scoring point. */
  ghost predicate SameMisses(S: nat, pinned: set<Key>)
    requires S >= 1
  {
    forall t0: int, toks: seq<seq<seq<Key>>> ::
      var split := SplitRun(EMPTY_SPLIT, S, t0, pinned, 0, toks);
      var list := ListRun(EMPTY_LIST, Requests(0, toks), S, t0, pinned);
      split.miss == list.m && split.wmiss == list.w
  }

  // ---- with every slot pinned they part ----

  lemma PickKeys(pinned: set<Key>, n: nat) returns (row: seq<Key>)
    requires n <= |pinned|
    ensures |row| == n && Distinct(row) && Members(row) <= pinned
  {
    if n == 0 {
      row := [];
    } else {
      var k :| k in pinned;
      row := PickKeys(pinned - {k}, n - 1);
      assert k !in row by { assert forall x :: x in row ==> x in Members(row); }
      row := row + [k];
      assert Members(row) == Members(row[..n - 1]) + {k};
    }
  }

  lemma {:induction false} FillSplit(row: seq<Key>, S: nat, pinned: set<Key>, i: nat)
    requires |row| == S >= 1 && Distinct(row) && Members(row) <= pinned && i <= S
    ensures SplitRow(PinSplit([], Members(row[..i]), i, 0), S, 1, pinned, 0, row[i..]) ==
            PinSplit([], Members(row), S, 0)
    decreases S - i
  {
    if i == S {
      assert row[..S] == row;
    } else {
      FillSplit(row, S, pinned, i + 1);
      assert row[i..][1..] == row[i + 1..];
      assert row[..i + 1] == row[..i] + [row[i]];
      assert row == row[..i] + row[i..];
      DistinctParts(row[..i], row[i..]);
      DistinctSize(row[..i]);
      MembersAppend(row[..i], row[i]);
      assert row[i] in Members(row);
    }
  }

  lemma {:induction false} FillList(row: seq<Key>, S: nat, pinned: set<Key>, i: nat)
    requires |row| == S >= 1 && Distinct(row) && i <= S
    ensures ListRun(PinList(row[..i], i, 0), RowRequests(0, row[i..]), S, 1, pinned) == PinList(row, S, 0)
    decreases S - i
  {
    if i == S {
      assert row[..S] == row;
    } else {
      FillList(row, S, pinned, i + 1);
      assert row[i..][1..] == row[i + 1..];
      assert row[..i + 1] == row[..i] + [row[i]];
      var rest := RowRequests(0, row[i + 1..]);
      assert RowRequests(0, row[i..]) == [Request(row[i], 0)] + rest;
      assert ([Request(row[i], 0)] + rest)[1..] == rest;
    }
  }

  lemma ThreeRows(split: PinSplit, list: PinList, S: nat, t0: int, pinned: set<Key>, a: seq<Key>, b: seq<Key>,
                  c: seq<Key>)
    requires S >= 1
    ensures SplitRun(split, S, t0, pinned, 0, [[a, b, c]]) ==
            SplitRow(SplitRow(SplitRow(split, S, t0, pinned, 0, a), S, t0, pinned, 0, b), S, t0, pinned, 0, c)
    ensures ListRun(list, Requests(0, [[a, b, c]]), S, t0, pinned) ==
            ListRun(ListRun(ListRun(list, RowRequests(0, a), S, t0, pinned), RowRequests(0, b), S, t0, pinned),
                    RowRequests(0, c), S, t0, pinned)
  {
    var rows := [a, b, c];
    assert rows[1..] == [b, c] && [b, c][1..] == [c] && [c][1..] == [];
    var ra, rb, rc := RowRequests(0, a), RowRequests(0, b), RowRequests(0, c);
    assert TokenRequests(0, [c]) == rc;
    assert TokenRequests(0, rows) == ra + (rb + rc);
    assert Requests(0, [rows]) == ra + (rb + rc);
    ListRunConcat(list, ra, rb + rc, S, t0, pinned);
    ListRunConcat(ListRun(list, ra, S, t0, pinned), rb, rc, S, t0, pinned);
    var s1 := SplitRow(split, S, t0, pinned, 0, a);
    var s2 := SplitRow(s1, S, t0, pinned, 0, b);
    assert SplitToken(s2, S, t0, pinned, 0, [c]) == SplitRow(s2, S, t0, pinned, 0, c);
    assert SplitToken(s1, S, t0, pinned, 0, [b, c]) == SplitRow(s2, S, t0, pinned, 0, c);
    assert SplitRun(split, S, t0, pinned, 0, [rows]) ==
           SplitRun(SplitToken(split, S, t0, pinned, 0, rows), S, t0, pinned, 1, []);
  }

  /** `pinned_lru` makes room for it by dropping that very key. */
  lemma ListDrops(row: seq<Key>, S: nat, pinned: set<Key>, b: Key)
    requires |row| == S >= 1 && Distinct(row) && Members(row) <= pinned && b !in row
    ensures ListRun(ListRun(PinList(row, S, 0), RowRequests(0, [b]), S, 1, pinned), RowRequests(0, [row[0]]), S, 1,
            pinned).m == S + 2
  {
    var l2 := PinList(row[1..] + [b], S + 1, 0);
    var r1, r2 := Request(b, 0), Request(row[0], 0);
    assert ListRequest(PinList(row, S, 0), S, 1, pinned, r1) == l2;
    assert RowRequests(0, [b]) == [r1] && [r1][1..] == [];
    assert RowRequests(0, [row[0]]) == [r2] && [r2][1..] == [];
  }

  lemma DifferOn(S: nat, pinned: set<Key>, toks: seq<seq<seq<Key>>>)
    requires S >= 1
    requires SplitRun(EMPTY_SPLIT, S, 1, pinned, 0, toks).miss != ListRun(EMPTY_LIST, Requests(0, toks), S, 1, pinned).m
    ensures !SameMisses(S, pinned)
  {
  }

  /** A trace on which they differ: fill every slot with a pinned key, request an unpinned one,
      then the oldest pinned one again. */
  lemma Parts(S: nat, pinned: set<Key>, b: Key)
    requires 1 <= S <= |pinned| && b !in pinned
    ensures !SameMisses(S, pinned)
  {
    var row := PickKeys(pinned, S);
    FillSplit(row, S, pinned, 0);
    FillList(row, S, pinned, 0);
    assert row[0..] == row && row[..0] == [] && Members(row[..0]) == {};
    assert b !in row by { assert forall x :: x in row ==> x in Members(row); }
    ListDrops(row, S, pinned, b);
    ThreeRows(EMPTY_SPLIT, EMPTY_LIST, S, 1, pinned, row, [b], [row[0]]);
    DifferOn(S, pinned, [[row, [b], [row[0]]]]);
  }

  /** `run_pinned` has the misses of `pinned_lru` exactly when fewer keys are pinned than there
      are slots. */
  lemma SameMissesIff(S: nat, pinned: set<Key>, b: Key)
    requires S >= 1 && b !in pinned
    ensures SameMisses(S, pinned) <==> |pinned| < S
  {
    if |pinned| < S {
      forall t0: int, toks: seq<seq<seq<Key>>>
        ensures var split := SplitRun(EMPTY_SPLIT, S, t0, pinned, 0, toks);
                var list := ListRun(EMPTY_LIST, Requests(0, toks), S, t0, pinned);
                split.miss == list.m && split.wmiss == list.w
      {
        RunAgrees(EMPTY_SPLIT, EMPTY_LIST, S, t0, pinned, 0, toks);
      }
    } else {
      Parts(S, pinned, b);
    }
  }
}
