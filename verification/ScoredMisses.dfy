/** Which misses the policies with a pinned core score: those of token `t0` and later (scripts/policy_sim.py
    `run_pinned` and `run_flfu`, scripts/policy2.py `pinned_lru`). */
module ScoredMisses {
  import opened Prelude
  import opened Paging
  import opened Recency
  import opened PinnedPolicies
  import opened FrequencyPinned
  import opened RepinnedList

  // ---- `run_pinned` ----

  /** From `a` to `b` the scored misses grow with the misses when `scored`, and stay when not. */
  ghost predicate Scores(a: PinSplit, b: PinSplit, scored: bool) {
    b.wmiss as int - a.wmiss == (if scored then b.miss as int - a.miss else 0) && a.miss <= b.miss
  }

  lemma {:induction false} RowScores(st: PinSplit, S: nat, t0: int, pinned: set<Key>, t: int, row: seq<Key>)
    ensures Scores(st, SplitRow(st, S, t0, pinned, t, row), t >= t0)
    decreases |row|
  {
    if row != [] && !GivesUp(st, S, row[0]) {
      RowScores(SplitKey(st, S, t0, pinned, t, row[0]), S, t0, pinned, t, row[1..]);
    }
  }

  lemma {:induction false} TokenScores(st: PinSplit, S: nat, t0: int, pinned: set<Key>, t: int, rows: seq<seq<Key>>)
    ensures Scores(st, SplitToken(st, S, t0, pinned, t, rows), t >= t0)
    decreases |rows|
  {
    if rows != [] {
      RowScores(st, S, t0, pinned, t, rows[0]);
      TokenScores(SplitRow(st, S, t0, pinned, t, rows[0]), S, t0, pinned, t, rows[1..]);
    }
  }

  lemma {:induction false} RunScores(st: PinSplit, S: nat, t0: int, pinned: set<Key>, t: int,
                                     toks: seq<seq<seq<Key>>>)
    requires t >= t0 || t + |toks| <= t0
    ensures Scores(st, SplitRun(st, S, t0, pinned, t, toks), t >= t0)
    decreases |toks|
  {
    if toks != [] {
      TokenScores(st, S, t0, pinned, t, toks[0]);
      RunScores(SplitToken(st, S, t0, pinned, t, toks[0]), S, t0, pinned, t + 1, toks[1..]);
      if t < t0 && t + 1 >= t0 {
        assert toks[1..] == [];
      }
    }
  }

  lemma {:induction false} RunSplits(st: PinSplit, S: nat, t0: int, pinned: set<Key>, t: int, a: seq<seq<seq<Key>>>,
                                     b: seq<seq<seq<Key>>>)
    ensures SplitRun(st, S, t0, pinned, t, a + b) ==
            SplitRun(SplitRun(st, S, t0, pinned, t, a), S, t0, pinned, t + |a|, b)
    decreases |a|
  {
    if a == [] {
      assert a + b == b;
    } else {
      assert (a + b)[1..] == a[1..] + b;
      RunSplits(SplitToken(st, S, t0, pinned, t, a[0]), S, t0, pinned, t + 1, a[1..], b);
    }
  }

  /** The first token that is scored. */
  function Clamp(t0: int, n: nat): (k: nat)
    ensures k <= n
  {
    if t0 <= 0 then 0 else if t0 <= n then t0 else n
  }

  /** The misses of `run_pinned` that are scored are all but those of the tokens before `t0`. */
  lemma PinnedScored(S: nat, t0: int, pinned: set<Key>, toks: seq<seq<seq<Key>>>)
    ensures var k := if t0 <= 0 then 0 else if t0 <= |toks| then t0 else |toks|;
            SplitRun(EMPTY_SPLIT, S, t0, pinned, 0, toks).wmiss ==
            SplitRun(EMPTY_SPLIT, S, t0, pinned, 0, toks).miss - SplitRun(EMPTY_SPLIT, S, t0, pinned, 0, toks[..k]).miss
  {
    var k := Clamp(t0, |toks|);
    var mid := SplitRun(EMPTY_SPLIT, S, t0, pinned, 0, toks[..k]);
    assert toks == toks[..k] + toks[k..];
    RunSplits(EMPTY_SPLIT, S, t0, pinned, 0, toks[..k], toks[k..]);
    if k > 0 {
      RunScores(EMPTY_SPLIT, S, t0, pinned, 0, toks[..k]);
    }
    if k < |toks| {
      RunScores(mid, S, t0, pinned, k, toks[k..]);
    }
  }

  // ---- `pinned_lru` ----

  /** The places below `n` that are flagged. */
  ghost function Flagged(flags: seq<bool>, n: nat): set<nat>
    requires n <= |flags|
  {
    set i: nat | i < n && flags[i]
  }

  lemma OneMoreFlag(flags: seq<bool>, n: nat)
    requires n < |flags|
    ensures |Flagged(flags, n + 1)| == |Flagged(flags, n)| + if flags[n] then 1 else 0
  {
    assert Flagged(flags, n + 1) == if flags[n] then Flagged(flags, n) + {n} else Flagged(flags, n);
  }

  lemma NoFlag(flags: seq<bool>)
    ensures |Flagged(flags, 0)| == 0
  {
    assert Flagged(flags, 0) == {};
  }

  /** `missed[i]`: the key of request `i` is not listed; `late[i]`: and the request is of token `t0` or later. */
  ghost predicate ListMisses(reqs: seq<Request>, S: nat, t0: int, pinned: set<Key>, missed: seq<bool>, late: seq<bool>)
    requires S >= 1
  {
    && |missed| == |late| == |reqs|
    && (forall i :: 0 <= i < |reqs| ==>
          (missed[i] <==> reqs[i].key !in ListRun(EMPTY_LIST, reqs[..i], S, t0, pinned).order))
    && forall i :: 0 <= i < |reqs| ==> (late[i] <==> missed[i] && reqs[i].token >= t0)
  }

  lemma ListNext(reqs: seq<Request>, S: nat, t0: int, pinned: set<Key>, k: nat)
    requires S >= 1 && k < |reqs|
    ensures ListRun(EMPTY_LIST, reqs[..k + 1], S, t0, pinned) ==
            ListRequest(ListRun(EMPTY_LIST, reqs[..k], S, t0, pinned), S, t0, pinned, reqs[k])
  {
    assert reqs[..k + 1] == reqs[..k] + [reqs[k]] && [reqs[k]][1..] == [];
    ListRunConcat(EMPTY_LIST, reqs[..k], [reqs[k]], S, t0, pinned);
  }

  /** The misses of `pinned_lru` are the requests of a key that is not listed, and the scored ones those of token
      `t0` or later. */
  lemma {:induction false} ListScored(reqs: seq<Request>, S: nat, t0: int, pinned: set<Key>, missed: seq<bool>,
                                      late: seq<bool>, n: nat)
    requires S >= 1 && n <= |reqs| && ListMisses(reqs, S, t0, pinned, missed, late)
    ensures var end := ListRun(EMPTY_LIST, reqs[..n], S, t0, pinned);
            end.m == |Flagged(missed, n)| && end.w == |Flagged(late, n)|
  {
    if n == 0 {
      NoFlag(missed);
      NoFlag(late);
    } else {
      ListScored(reqs, S, t0, pinned, missed, late, n - 1);
      ListNext(reqs, S, t0, pinned, n - 1);
      OneMoreFlag(missed, n - 1);
      OneMoreFlag(late, n - 1);
    }
  }

  // ---- `pinned_lru` with re-pinning ----

  ghost predicate RepinMisses(reqs: seq<Request>, t0: int, trace: seq<Repinning>, missed: seq<bool>, late: seq<bool>) {
    && |missed| == |late| == |reqs| <= |trace|
    && (forall i :: 0 <= i < |reqs| ==> (missed[i] <==> reqs[i].key !in trace[i].list.order))
    && forall i :: 0 <= i < |reqs| ==> (late[i] <==> missed[i] && reqs[i].token >= t0)
  }

  lemma StepCounts(p: Pinning, a: Repinning, r: Request, b: Repinning)
    requires p.S >= 1 && p.repin >= 1 && RequestStep(p, a, r, b)
    ensures b.list.m == a.list.m + if r.key in a.list.order then 0 else 1
    ensures b.list.w == a.list.w + if r.key !in a.list.order && r.token >= p.t0 then 1 else 0
  {
  }

  lemma CountsAt(p: Pinning, reqs: seq<Request>, trace: seq<Repinning>, i: nat)
    requires p.S >= 1 && p.repin >= 1 && RepinRun(p, reqs, trace) && i + 1 < |trace|
    ensures var order, r := trace[i].list.order, reqs[i];
            && trace[i + 1].list.m == trace[i].list.m + (if r.key in order then 0 else 1)
            && trace[i + 1].list.w == trace[i].list.w + (if r.key !in order && r.token >= p.t0 then 1 else 0)
  {
    assert RequestStep(p, trace[i], reqs[i], trace[i + 1]);
    StepCounts(p, trace[i], reqs[i], trace[i + 1]);
  }

  /** A count that grows by one at every flag. */
  lemma {:induction false} FlagsCounted(counts: seq<nat>, flags: seq<bool>, n: nat)
    requires |counts| == |flags| + 1 && n <= |flags| && counts[0] == 0
    requires forall i :: 0 <= i < |flags| ==> counts[i + 1] == counts[i] + if flags[i] then 1 else 0
    ensures counts[n] == |Flagged(flags, n)|
  {
    if n == 0 {
      NoFlag(flags);
    } else {
      FlagsCounted(counts, flags, n - 1);
      OneMoreFlag(flags, n - 1);
      assert counts[n - 1 + 1] == counts[n - 1] + if flags[n - 1] then 1 else 0;
    }
  }

  /** The same with re-pinning. */
  lemma RepinScored(p: Pinning, reqs: seq<Request>, trace: seq<Repinning>, missed: seq<bool>, late: seq<bool>)
    requires p.S >= 1 && p.repin >= 1 && RepinRun(p, reqs, trace) && |trace| == |reqs| + 1
    requires RepinMisses(reqs, p.t0, trace, missed, late)
    ensures trace[|reqs|].list.m == |Flagged(missed, |reqs|)| && trace[|reqs|].list.w == |Flagged(late, |reqs|)|
  {
    var ms: seq<nat> := seq(|trace|, i requires 0 <= i < |trace| => trace[i].list.m);
    var ws: seq<nat> := seq(|trace|, i requires 0 <= i < |trace| => trace[i].list.w);
    forall i | 0 <= i < |reqs|
      ensures ms[i + 1] == ms[i] + if missed[i] then 1 else 0
      ensures ws[i + 1] == ws[i] + if late[i] then 1 else 0
    {
      CountsAt(p, reqs, trace, i);
    }
    FlagsCounted(ms, missed, |reqs|);
    FlagsCounted(ws, late, |reqs|);
  }

  lemma LastToken(p: Pinning, reqs: seq<Request>, trace: seq<Repinning>, i: nat)
    requires p.S >= 1 && p.repin >= 1 && RepinRun(p, reqs, trace) && i < |trace|
    ensures trace[i].last == if i == 0 then -1 else reqs[i - 1].token
  {
    if i > 0 {
      assert RequestStep(p, trace[i - 1], reqs[i - 1], trace[i]);
    }
  }

  /** Pins are chosen anew exactly at the first request of a token other than 0 that `repin` divides. */
  lemma RepinsAt(p: Pinning, reqs: seq<Request>, trace: seq<Repinning>, i: nat)
    requires p.S >= 1 && p.repin >= 1 && RepinRun(p, reqs, trace) && i + 1 < |trace|
    ensures var t := reqs[i].token;
            var first := if i == 0 then t != -1 else t != reqs[i - 1].token;
            if first && t != 0 && t % p.repin == 0
            then IsMostCommon(Counted(trace[i].cnt, reqs[i].key), p.nPin, trace[i + 1].pin)
            else trace[i + 1].pin == trace[i].pin
  {
    LastToken(p, reqs, trace, i);
    assert RequestStep(p, trace[i], reqs[i], trace[i + 1]);
  }

  // ---- `run_flfu` ----

  lemma {:induction false} KeysScore(st: Flfu, p: Settings, t: int, keys: seq<Key>, n: nat)
    requires n <= |keys|
    ensures Scores(st.split, AfterKeys(st, p, t, keys, n).split, t >= p.t0)
  {
    if n > 0 {
      KeysScore(st, p, t, keys, n - 1);
      KeyScores(AfterKeys(st, p, t, keys, n - 1), p, t, keys[n - 1]);
    }
  }

  lemma KeyScores(st: Flfu, p: Settings, t: int, key: Key)
    ensures Scores(st.split, AfterKey(st, p, t, key).split, t >= p.t0)
  {
  }

  lemma StepScores(p: Settings, toks: seq<seq<seq<Key>>>, trace: seq<Flfu>, t: nat)
    requires p.repin >= 1 && FlfuRun(p, toks, trace) && t + 1 < |trace|
    ensures Scores(trace[t].split, trace[t + 1].split, t >= p.t0)
  {
    assert TokenStep(p, t, toks[t], trace[t], trace[t + 1]);
    KeysScore(trace[t], p, t, FlatRows(toks[t]), |FlatRows(toks[t])|);
  }

  lemma {:induction false} ScoresAlong(splits: seq<PinSplit>, t0: int, t: nat, u: nat)
    requires t <= u < |splits| && (t >= t0 || u <= t0)
    requires forall i :: 0 <= i < |splits| - 1 ==> Scores(splits[i], splits[i + 1], i >= t0)
    ensures Scores(splits[t], splits[u], t >= t0)
    decreases u - t
  {
    if t < u {
      ScoresAlong(splits, t0, t, u - 1);
      assert Scores(splits[u - 1], splits[u - 1 + 1], u - 1 >= t0);
    }
  }

  /** The misses of `run_flfu` that are scored are all but those of the tokens before `t0`. */
  lemma FlfuScored(p: Settings, toks: seq<seq<seq<Key>>>, trace: seq<Flfu>)
    requires p.repin >= 1 && FlfuRun(p, toks, trace) && |trace| == |toks| + 1
    ensures var k := if p.t0 <= 0 then 0 else if p.t0 <= |toks| then p.t0 else |toks|;
            trace[|toks|].split.wmiss == trace[|toks|].split.miss - trace[k].split.miss
  {
    var k := Clamp(p.t0, |toks|);
    var splits := seq(|trace|, i requires 0 <= i < |trace| => trace[i].split);
    forall i | 0 <= i < |splits| - 1
      ensures Scores(splits[i], splits[i + 1], i >= p.t0)
    {
      StepScores(p, toks, trace, i);
    }
    if k > 0 {
      ScoresAlong(splits, p.t0, 0, k);
    }
    if k < |toks| {
      ScoresAlong(splits, p.t0, k, |toks|);
    }
  }
}
