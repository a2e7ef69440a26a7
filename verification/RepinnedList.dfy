/** scripts/policy2.py `pinned_lru` with re-pinning: one LRU order over all residents, whose victim search
    skips a core that is chosen anew by decayed frequency. */
module RepinnedList {
  import opened Prelude
  import opened Paging
  import opened Recency
  import opened PinnedPolicies
  import opened FrequencyPinned

  datatype Repinning = Repinning(list: PinList, cnt: Counter, pin: set<Key>, last: int)

  /** Pins are chosen anew at the first request of every token divisible by `repin`. */
  datatype Pinning = Pinning(S: nat, t0: int, repin: nat, nPin: nat, decay: real)

  /** Nothing resident, counted or pinned; `last_t` is -1. */
  const START := Repinning(EMPTY_LIST, map[], {}, -1)

  predicate Due(p: Pinning, last: int, t: int)
    requires p.repin >= 1
  {
    t != last && t != 0 && t % p.repin == 0
  }

  /** The key is counted; at a re-pin the most frequent keys are pinned, this one included, and the counts
      decay. */
  ghost predicate Counts(p: Pinning, a: Repinning, r: Request, b: Repinning)
    requires p.repin >= 1
  {
    var cnt := Counted(a.cnt, r.key);
    && b.last == r.token
    && if Due(p, a.last, r.token) then IsMostCommon(cnt, p.nPin, b.pin) && b.cnt == Decayed(cnt, p.decay)
       else b.pin == a.pin && b.cnt == cnt
  }

  ghost predicate RequestStep(p: Pinning, a: Repinning, r: Request, b: Repinning)
    requires p.S >= 1 && p.repin >= 1
  {
    Counts(p, a, r, b) && b.list == ListRequest(a.list, p.S, p.t0, b.pin, r)
  }

  /** `trace[i]` is the state before request `i`, for some way to break ties. */
  ghost predicate RepinRun(p: Pinning, reqs: seq<Request>, trace: seq<Repinning>)
    requires p.S >= 1 && p.repin >= 1
  {
    && 1 <= |trace| <= |reqs| + 1 && trace[0] == START
    && forall i :: 0 <= i < |trace| - 1 ==> RequestStep(p, trace[i], reqs[i], trace[i + 1])
  }

  // ---- one request ----

  ghost predicate Fits(order: seq<Key>, S: nat) {
    Distinct(order) && |order| <= S
  }

  /** The index of the victim: the oldest key that is not pinned, or the oldest of all. */
  function VictimAt(order: seq<Key>, pinned: set<Key>): (j: nat)
    requires order != []
    ensures j < |order|
  {
    var j := FirstUnpinned(order, pinned);
    if j < |order| then j else 0
  }

  /** The keys a request evicts: at most one. */
  function Dropped(order: seq<Key>, S: nat, pinned: set<Key>, key: Key): set<Key>
    requires S >= 1
  {
    if key in order || |order| < S then {} else {order[VictimAt(order, pinned)]}
  }

  lemma WithoutOne(order: seq<Key>, j: nat)
    requires Distinct(order) && j < |order|
    ensures Distinct(Without(order, j)) && Members(Without(order, j)) == Members(order) - {order[j]}
  {
    var rest := Without(order, j);
    forall x
      ensures x in rest <==> x in order && x != order[j]
    {
      if x in order && x != order[j] {
        var i :| 0 <= i < |order| && order[i] == x;
        assert rest[if i < j then i else i - 1] == x;
      }
    }
  }

  lemma RequestFits(st: PinList, S: nat, t0: int, pinned: set<Key>, r: Request)
    requires S >= 1 && Fits(st.order, S)
    ensures var st', gone := ListRequest(st, S, t0, pinned, r), Dropped(st.order, S, pinned, r.key);
            && Fits(st'.order, S) && AtMostOne(gone, Members(st.order))
            && Members(st'.order) == Members(st.order) - gone + {r.key}
            && st'.m == st.m + if r.key in st.order then 0 else 1
  {
    var order := st.order;
    if r.key in order {
      MoveToEndDistinct(order, r.key);
      assert Members(MoveToEnd(order, r.key)) == Members(order);
    } else if |order| >= S {
      var j := VictimAt(order, pinned);
      WithoutOne(order, j);
      AppendNew(Without(order, j), r.key);
      assert order[j] in Members(order);
    } else {
      AppendNew(order, r.key);
    }
  }

  lemma AppendNew(order: seq<Key>, key: Key)
    requires Distinct(order) && key !in Members(order)
    ensures Distinct(order + [key]) && Members(order + [key]) == Members(order) + {key}
  {
    assert forall x :: x in order ==> x in Members(order);
  }

  /** A request loses a pinned resident exactly when it misses on a cache full of them. */
  lemma LosesPinIff(st: PinList, S: nat, t0: int, pinned: set<Key>, r: Request)
    requires S >= 1 && Fits(st.order, S)
    ensures (exists k :: k in pinned && k in st.order && k !in ListRequest(st, S, t0, pinned, r).order) <==>
            r.key !in st.order && |st.order| >= S && Members(st.order) <= pinned
  {
    var (order, order') := (st.order, ListRequest(st, S, t0, pinned, r).order);
    RequestFits(st, S, t0, pinned, r);
    assert forall x :: x in order <==> x in Members(order);
    assert forall x :: x in order' <==> x in Members(order');
    if r.key !in order && |order| >= S {
      var v := order[VictimAt(order, pinned)];
      assert v in Members(order) && v !in Members(order');
      if Members(order) <= pinned {
        assert v in pinned && v in order && v !in order';
      } else {
        UnpinnedVictim(order, pinned);
      }
    }
  }

  lemma UnpinnedVictim(order: seq<Key>, pinned: set<Key>)
    requires order != [] && !(Members(order) <= pinned)
    ensures order[VictimAt(order, pinned)] !in pinned
  {
    var k :| k in Members(order) && k !in pinned;
    var i :| 0 <= i < |order| && order[i] == k;
    assert FirstUnpinned(order, pinned) <= i;
  }

  /** So with fewer pins than slots none is lost. */
  lemma PinsStay(st: PinList, S: nat, t0: int, pinned: set<Key>, r: Request, k: Key)
    requires S >= 1 && Fits(st.order, S) && |pinned| < S && k in pinned && k in st.order
    ensures k in ListRequest(st, S, t0, pinned, r).order
  {
    LosesPinIff(st, S, t0, pinned, r);
    if |st.order| >= S && Members(st.order) <= pinned {
      DistinctSize(st.order);
      SubsetSize(Members(st.order), pinned);
    }
  }

  // ---- whole runs ----

  lemma {:induction false} RunFits(p: Pinning, reqs: seq<Request>, trace: seq<Repinning>, i: nat)
    requires p.S >= 1 && p.repin >= 1 && RepinRun(p, reqs, trace) && i < |trace|
    ensures Fits(trace[i].list.order, p.S) && |trace[i].pin| <= p.nPin
  {
    if i > 0 {
      RunFits(p, reqs, trace, i - 1);
      assert RequestStep(p, trace[i - 1], reqs[i - 1], trace[i]);
      StepFits(p, trace[i - 1], reqs[i - 1], trace[i]);
    }
  }

  lemma StepFits(p: Pinning, a: Repinning, r: Request, b: Repinning)
    requires p.S >= 1 && p.repin >= 1 && RequestStep(p, a, r, b) && Fits(a.list.order, p.S) && |a.pin| <= p.nPin
    ensures Fits(b.list.order, p.S) && |b.pin| <= p.nPin
  {
    RequestFits(a.list, p.S, p.t0, b.pin, r);
  }

  /** With fewer pins than slots a run never evicts a key that is pinned at the time. */
  lemma PinnedSurvive(p: Pinning, reqs: seq<Request>, trace: seq<Repinning>, i: nat, k: Key)
    requires p.S >= 1 && p.repin >= 1 && RepinRun(p, reqs, trace) && p.nPin < p.S && i + 1 < |trace|
    requires k in trace[i + 1].pin && k in trace[i].list.order
    ensures k in trace[i + 1].list.order
  {
    RunFits(p, reqs, trace, i);
    RunFits(p, reqs, trace, i + 1);
    assert RequestStep(p, trace[i], reqs[i], trace[i + 1]);
    PinsStay(trace[i].list, p.S, p.t0, trace[i + 1].pin, reqs[i], k);
  }

  method CountRequest(p: Pinning, cnt: Counter, pin: set<Key>, last: int, r: Request)
    returns (cnt': Counter, pin': set<Key>)
    requires p.repin >= 1
    ensures forall list, list' ::
              Counts(p, Repinning(list, cnt, pin, last), r, Repinning(list', cnt', pin', r.token))
  {
    cnt', pin' := Counted(cnt, r.key), pin;
    if r.token != last && r.token != 0 && r.token % p.repin == 0 {
      pin' := MostCommon(cnt', p.nPin);
      cnt' := Decay(cnt', p.decay);
    }
  }

  ghost predicate Served(p: Pinning, reqs: seq<Request>, st: Repinning, i: nat, moves: seq<Move>) {
    && i <= |reqs| && Fits(st.list.order, p.S)
    && Perform(Keys(reqs), p.S, moves) == At(Members(st.list.order), i, st.list.m)
  }

  lemma ServedNext(p: Pinning, reqs: seq<Request>, a: Repinning, b: Repinning, i: nat, moves: seq<Move>)
    returns (moves': seq<Move>)
    requires p.S >= 1 && p.repin >= 1 && i < |reqs| && Served(p, reqs, a, i, moves) && RequestStep(p, a, reqs[i], b)
    ensures Served(p, reqs, b, i + 1, moves')
  {
    var order, r := a.list.order, reqs[i];
    var gone := Dropped(order, p.S, b.pin, r.key);
    RequestFits(a.list, p.S, p.t0, b.pin, r);
    DistinctSize(b.list.order);
    assert r.key in order <==> r.key in Members(order);
    moves' := Demand(Keys(reqs), p.S, moves, Members(order), i, a.list.m, gone);
  }

  lemma RunGrows(p: Pinning, reqs: seq<Request>, trace: seq<Repinning>, b: Repinning)
    requires p.S >= 1 && p.repin >= 1 && RepinRun(p, reqs, trace) && |trace| <= |reqs|
    requires RequestStep(p, trace[|trace| - 1], reqs[|trace| - 1], b)
    ensures RepinRun(p, reqs, trace + [b])
  {
    var longer := trace + [b];
    forall i | 0 <= i < |longer| - 1
      ensures RequestStep(p, longer[i], reqs[i], longer[i + 1])
    {
      assert i < |trace| - 1 ==> RequestStep(p, trace[i], reqs[i], trace[i + 1]);
    }
  }

  /** The counts are those of a run of the policy, and the misses are the fetches of a schedule, so it
      fetches no less than the offline optimum. */
  method PinnedLruRepinned(reqs: seq<Request>, p: Pinning)
    returns (m: nat, w: nat, ghost trace: seq<Repinning>, ghost moves: seq<Move>)
    requires p.S >= 1 && p.repin >= 1
    ensures RepinRun(p, reqs, trace) && |trace| == |reqs| + 1
    ensures m == trace[|reqs|].list.m && w == trace[|reqs|].list.w
    ensures Serves(Keys(reqs), p.S, moves) && Fetches(Keys(reqs), p.S, moves) == m
    ensures forall least: nat :: IsLeastFetches(Keys(reqs), p.S, least) ==> least <= m
  {
    var res: seq<Key>, cnt: Counter, pin: set<Key>, last := [], map[], {}, -1;
    m, w := 0, 0;
    trace, moves := [START], [];
    for i := 0 to |reqs|
      invariant RepinRun(p, reqs, trace) && |trace| == i + 1
      invariant trace[i] == Repinning(PinList(res, m, w), cnt, pin, last)
      invariant Served(p, reqs, trace[i], i, moves)
    {
      ghost var a := trace[i];
      cnt, pin := CountRequest(p, cnt, pin, last, reqs[i]);
      last := reqs[i].token;
      res, m, w := ListAccess(res, m, w, p.S, p.t0, pin, reqs[i]);
      ghost var b := Repinning(PinList(res, m, w), cnt, pin, last);
      moves := ServedNext(p, reqs, a, b, i, moves);
      RunGrows(p, reqs, trace, b);
      trace := trace + [b];
    }
  }
}
