/** Demand and prefetch schedules over a fixed request stream, and the policy that
    always evicts the resident whose next use is farthest away. */
module Paging {

  datatype Key = Key(layer: int, expert: int)

  /** An access tagged with the token it belongs to. */
  datatype Request = Request(key: Key, token: int)

  function Keys(reqs: seq<Request>): (s: seq<Key>)
    ensures |s| == |reqs|
    ensures forall i :: 0 <= i < |s| ==> s[i] == reqs[i].key
  {
    seq(|reqs|, i requires 0 <= i < |reqs| => reqs[i].key)
  }

  /** What a pager can do between two accesses. `Serve` is the next access of the stream. */
  datatype Move = Load(key: Key) | Drop(key: Key) | Serve

  datatype Position = Broken | At(held: set<Key>, served: nat, fetches: nat)

  /** Every `Load` costs one fetch, whether on demand or ahead of time. A move that overfills
      the cache, or serves a key that is not held, breaks the schedule. */
  ghost function Advance(s: seq<Key>, cap: nat, p: Position, m: Move): Position {
    if p.Broken? then Broken else
      match m
      case Load(k) =>
        if |p.held + {k}| <= cap then At(p.held + {k}, p.served, p.fetches + 1) else Broken
      case Drop(k) => At(p.held - {k}, p.served, p.fetches)
      case Serve =>
        if p.served < |s| && s[p.served] in p.held then At(p.held, p.served + 1, p.fetches) else Broken
  }

  ghost function Perform(s: seq<Key>, cap: nat, moves: seq<Move>): Position {
    if moves == [] then At({}, 0, 0)
    else Advance(s, cap, Perform(s, cap, moves[..|moves| - 1]), moves[|moves| - 1])
  }

  /** `moves` serves the whole stream. */
  ghost predicate Serves(s: seq<Key>, cap: nat, moves: seq<Move>) {
    var p := Perform(s, cap, moves);
    p.At? && p.served == |s|
  }

  ghost function Fetches(s: seq<Key>, cap: nat, moves: seq<Move>): nat
    requires Serves(s, cap, moves)
  {
    Perform(s, cap, moves).fetches
  }

  /** `m` is the least number of fetches with which any schedule serves `s`. */
  ghost predicate IsLeastFetches(s: seq<Key>, cap: nat, m: nat) {
    && (exists moves :: Serves(s, cap, moves) && Fetches(s, cap, moves) == m)
    && (forall moves :: Serves(s, cap, moves) ==> m <= Fetches(s, cap, moves))
  }

  /** Index of the first access to `k` at or after `i`; `|s|` if there is none. */
  function NextUse(s: seq<Key>, i: nat, k: Key): (j: nat)
    requires i <= |s|
    ensures i <= j <= |s|
    ensures j < |s| ==> s[j] == k
    decreases |s| - i
  {
    if i == |s| then i else if s[i] == k then i else NextUse(s, i + 1, k)
  }

  /** The members of `held` that are requested in `[i, t)`. */
  ghost function Due(s: seq<Key>, i: nat, held: set<Key>, t: nat): set<Key>
    requires i <= |s|
  {
    set k | k in held && NextUse(s, i, k) < t
  }

  // ---- the farthest-next-use policy ----

  datatype Mark = Mark(held: set<Key>, misses: nat)

  ghost predicate FarthestVictim(s: seq<Key>, i: nat, held: set<Key>, v: Key)
    requires i <= |s|
  {
    v in held && forall k :: k in held ==> NextUse(s, i, k) <= NextUse(s, i, v)
  }

  ghost predicate FarthestStep(s: seq<Key>, cap: nat, i: nat, a: Mark, b: Mark)
    requires i < |s|
  {
    if s[i] in a.held then b == a
    else if |a.held| < cap then b == Mark(a.held + {s[i]}, a.misses + 1)
    else exists v :: FarthestVictim(s, i, a.held, v) && b == Mark(a.held - {v} + {s[i]}, a.misses + 1)
  }

  /** `run[i]` is the state of the policy before access `i`, for some way to break ties. */
  ghost predicate FarthestRun(s: seq<Key>, cap: nat, run: seq<Mark>) {
    && 1 <= |run| <= |s| + 1
    && run[0] == Mark({}, 0)
    && forall i :: 0 <= i < |run| - 1 ==> FarthestStep(s, cap, i, run[i], run[i + 1])
  }

  lemma {:induction false} RunFits(s: seq<Key>, cap: nat, run: seq<Mark>, i: nat)
    requires cap >= 1 && FarthestRun(s, cap, run) && i < |run|
    ensures |run[i].held| <= cap
  {
    if i > 0 {
      RunFits(s, cap, run, i - 1);
      assert FarthestStep(s, cap, i - 1, run[i - 1], run[i]);
      var a := run[i - 1];
      if s[i - 1] !in a.held && |a.held| >= cap {
        var v :| FarthestVictim(s, i - 1, a.held, v) && run[i] == Mark(a.held - {v} + {s[i - 1]}, a.misses + 1);
        assert |a.held - {v}| == |a.held| - 1;
      }
    }
  }

  /** Serving access `i` moves only `s[i]` within the ranking by next use. */
  lemma DueAfterServe(s: seq<Key>, i: nat, held: set<Key>, t: nat)
    requires i < |s| && i < t
    ensures var k := s[i];
            |Due(s, i + 1, held, t)| ==
            |Due(s, i, held, t)| - (if k in held && NextUse(s, i + 1, k) >= t then 1 else 0)
  {
    var k := s[i];
    var before, after := Due(s, i, held, t), Due(s, i + 1, held, t);
    assert k in before <==> k in held;
    forall x | x != k
      ensures x in before <==> x in after
    {
    }
    if k in held && NextUse(s, i + 1, k) >= t {
      assert after == before - {k};
    } else {
      assert after == before;
    }
  }

  lemma DueGrows(s: seq<Key>, i: nat, held: set<Key>, k: Key, t: nat)
    requires i <= |s| && k !in held
    ensures |Due(s, i, held + {k}, t)| == |Due(s, i, held, t)| + (if NextUse(s, i, k) < t then 1 else 0)
  {
    if NextUse(s, i, k) < t {
      assert Due(s, i, held + {k}, t) == Due(s, i, held, t) + {k};
    } else {
      assert Due(s, i, held + {k}, t) == Due(s, i, held, t);
    }
  }

  ghost function Lead(s: seq<Key>, i: nat, held: set<Key>, opt: set<Key>, t: nat): int
    requires i <= |s|
  {
    |Due(s, i, held, t)| - |Due(s, i, opt, t)|
  }

  lemma SubsetSize<T>(a: set<T>, b: set<T>)
    requires a <= b
    ensures |a| <= |b|
  {
    assert |b| == |a| + |b - a| by { assert b == a + (b - a); }
  }

  lemma DueShrinks(s: seq<Key>, i: nat, held: set<Key>, k: Key, t: nat)
    requires i <= |s| && k in held
    ensures |Due(s, i, held - {k}, t)| == |Due(s, i, held, t)| - (if NextUse(s, i, k) < t then 1 else 0)
  {
    DueGrows(s, i, held - {k}, k, t);
    assert held - {k} + {k} == held;
  }

  /** A pager that holds the requested key is ahead of one that does not. */
  lemma AheadByRequested(s: seq<Key>, i: nat, held: set<Key>, opt: set<Key>)
    requires i < |s| && s[i] in held && s[i] !in opt
    ensures Lead(s, i, held, opt, i + 1) >= 1
  {
    assert Due(s, i, opt, i + 1) == {};
    SubsetSize({s[i]}, Due(s, i, held, i + 1));
  }

  /** The farthest policy misses with room to spare. */
  lemma LeadAfterFill(s: seq<Key>, i: nat, held: set<Key>, opt: set<Key>, t: nat)
    requires i < |s| && s[i] in held && s[i] !in opt && i < t
    ensures Lead(s, i + 1, held, opt + {s[i]}, t) == Lead(s, i, held, opt, t) - 1
  {
    DueAfterServe(s, i, held, t);
    DueAfterServe(s, i, opt, t);
    DueGrows(s, i + 1, opt, s[i], t);
  }

  /** The farthest policy misses when full: however many keys due before `t` the other pager is
      ahead by, it has paid for them. */
  lemma LeadAfterEvict(s: seq<Key>, cap: nat, i: nat, held: set<Key>, opt: set<Key>, v: Key, paid: int, t: nat)
    requires i < |s| && s[i] in held && |held| <= cap
    requires |opt| == cap && s[i] !in opt && FarthestVictim(s, i, opt, v)
    requires i < t && Lead(s, i, held, opt, t) <= paid && Lead(s, i, held, opt, i + 1) <= paid
    ensures Lead(s, i + 1, held, opt - {v} + {s[i]}, t) <= paid - 1
  {
    LeadAfterFill(s, i, held, opt - {v}, t);
    DueShrinks(s, i, opt, v, t);
    if NextUse(s, i, v) < t {
      // every resident is due before t, so nobody is ahead at t by more than the lost victim
      assert Due(s, i, opt, t) == opt;
      SubsetSize(Due(s, i, held, t), held);
      AheadByRequested(s, i, held, opt);
    }
  }

  lemma LeadAfterMiss(s: seq<Key>, cap: nat, i: nat, held: set<Key>, a: Mark, b: Mark, paid: int, t: nat)
    requires i < |s| && s[i] in held && |held| <= cap
    requires |a.held| <= cap && s[i] !in a.held && FarthestStep(s, cap, i, a, b)
    requires i < t && Lead(s, i, held, a.held, t) <= paid && Lead(s, i, held, a.held, i + 1) <= paid
    ensures Lead(s, i + 1, held, b.held, t) <= paid - 1
  {
    if |a.held| < cap {
      LeadAfterFill(s, i, held, a.held, t);
    } else {
      var v :| FarthestVictim(s, i, a.held, v) && b == Mark(a.held - {v} + {s[i]}, a.misses + 1);
      LeadAfterEvict(s, cap, i, held, a.held, v, paid, t);
    }
  }

  /** At every point of every schedule, the keys by which it is ahead of the farthest policy,
      up to any horizon, are covered by the fetches it has paid beyond the policy's misses. */
  lemma {:induction false} LeadIsPaidFor(s: seq<Key>, cap: nat, run: seq<Mark>, moves: seq<Move>)
    requires cap >= 1 && FarthestRun(s, cap, run)
    requires Perform(s, cap, moves).At? && Perform(s, cap, moves).served < |run|
    ensures var p := Perform(s, cap, moves);
            && |p.held| <= cap
            && p.served <= |s|
            && forall t :: p.served <= t <= |s| ==>
                 Lead(s, p.served, p.held, run[p.served].held, t) <= p.fetches - run[p.served].misses
    decreases |moves|
  {
    var p := Perform(s, cap, moves);
    if moves != [] {
      var front := moves[..|moves| - 1];
      var q := Perform(s, cap, front);
      LeadIsPaidFor(s, cap, run, front);
      var i := q.served;
      match moves[|moves| - 1]
      case Load(k) =>
        forall t | i <= t <= |s|
          ensures Lead(s, i, p.held, run[i].held, t) <= p.fetches - run[i].misses
        {
          assert Lead(s, i, q.held, run[i].held, t) <= q.fetches - run[i].misses;
          if k in q.held {
            assert p.held == q.held;
          } else {
            DueGrows(s, i, q.held, k, t);
          }
        }
      case Drop(k) =>
        SubsetSize(p.held, q.held);
        forall t | i <= t <= |s|
          ensures Lead(s, i, p.held, run[i].held, t) <= p.fetches - run[i].misses
        {
          assert Lead(s, i, q.held, run[i].held, t) <= q.fetches - run[i].misses;
          SubsetSize(Due(s, i, p.held, t), Due(s, i, q.held, t));
        }
      case Serve =>
        RunFits(s, cap, run, i);
        assert FarthestStep(s, cap, i, run[i], run[i + 1]);
        forall t: nat | p.served <= t <= |s|
          ensures Lead(s, p.served, p.held, run[p.served].held, t) <= p.fetches - run[p.served].misses
        {
          assert Lead(s, i, q.held, run[i].held, t) <= q.fetches - run[i].misses;
          if s[i] in run[i].held {
            DueAfterServe(s, i, q.held, t);
            DueAfterServe(s, i, run[i].held, t);
          } else {
            assert Lead(s, i, q.held, run[i].held, i + 1) <= q.fetches - run[i].misses;
            LeadAfterMiss(s, cap, i, q.held, run[i], run[i + 1], q.fetches - run[i].misses, t);
          }
        }
    }
  }

  // ---- the farthest policy is itself a schedule ----

  lemma {:induction false} RunIsSchedule(s: seq<Key>, cap: nat, run: seq<Mark>, i: nat) returns (moves: seq<Move>)
    requires cap >= 1 && FarthestRun(s, cap, run) && i < |run|
    ensures Perform(s, cap, moves) == At(run[i].held, i, run[i].misses)
  {
    if i == 0 {
      moves := [];
    } else {
      moves := RunIsSchedule(s, cap, run, i - 1);
      RunFits(s, cap, run, i);
      assert FarthestStep(s, cap, i - 1, run[i - 1], run[i]);
      moves := StepIsSchedule(s, cap, i - 1, run[i - 1], run[i], moves);
    }
  }

  lemma StepIsSchedule(s: seq<Key>, cap: nat, i: nat, a: Mark, b: Mark, before: seq<Move>) returns (moves: seq<Move>)
    requires i < |s| && FarthestStep(s, cap, i, a, b) && |b.held| <= cap
    requires Perform(s, cap, before) == At(a.held, i, a.misses)
    ensures Perform(s, cap, moves) == At(b.held, i + 1, b.misses)
  {
    var gone := StepVictim(s, cap, i, a, b);
    moves := Demand(s, cap, before, a.held, i, a.misses, gone);
  }

  lemma StepVictim(s: seq<Key>, cap: nat, i: nat, a: Mark, b: Mark) returns (gone: set<Key>)
    requires i < |s| && FarthestStep(s, cap, i, a, b)
    ensures AtMostOne(gone, a.held) && (s[i] in a.held ==> gone == {})
    ensures b == Mark(a.held - gone + {s[i]}, a.misses + if s[i] in a.held then 0 else 1)
  {
    gone := {};
    if s[i] in a.held || |a.held| < cap {
      assert b.held == a.held - {} + {s[i]};
    } else {
      var v :| FarthestVictim(s, i, a.held, v) && b == Mark(a.held - {v} + {s[i]}, a.misses + 1);
      gone := {v};
    }
  }

  lemma PerformStep(s: seq<Key>, cap: nat, moves: seq<Move>, m: Move, p: Position)
    requires Advance(s, cap, Perform(s, cap, moves), m) == p
    ensures Perform(s, cap, moves + [m]) == p
  {
  }

  ghost predicate AtMostOne<T(!new)>(gone: set<T>, held: set<T>) {
    gone == {} || exists v :: v in held && gone == {v}
  }

  /** Demand paging as moves: a hit serves; a miss drops at most one key, loads and serves. */
  lemma Demand(s: seq<Key>, cap: nat, before: seq<Move>, held: set<Key>, i: nat, f: nat, gone: set<Key>)
    returns (moves: seq<Move>)
    requires i < |s| && Perform(s, cap, before) == At(held, i, f) && AtMostOne(gone, held)
    requires s[i] in held ==> gone == {}
    requires s[i] !in held ==> |held - gone + {s[i]}| <= cap
    ensures Perform(s, cap, moves) == At(held - gone + {s[i]}, i + 1, f + if s[i] in held then 0 else 1)
  {
    var k := s[i];
    if k in held {
      assert held - gone + {k} == held;
      PerformStep(s, cap, before, Serve, At(held, i + 1, f));
      moves := before + [Serve];
    } else {
      var ready := before;
      if gone != {} {
        var v :| v in held && gone == {v};
        PerformStep(s, cap, before, Drop(v), At(held - gone, i, f));
        ready := before + [Drop(v)];
      } else {
        assert held - gone == held;
      }
      PerformStep(s, cap, ready, Load(k), At(held - gone + {k}, i, f + 1));
      PerformStep(s, cap, ready + [Load(k)], Serve, At(held - gone + {k}, i + 1, f + 1));
      moves := ready + [Load(k)] + [Serve];
    }
  }

  /** No schedule, whether it predicts for replacement or for prefetch, fetches less. */
  lemma FarthestIsLeast(s: seq<Key>, cap: nat, run: seq<Mark>)
    requires cap >= 1 && FarthestRun(s, cap, run) && |run| == |s| + 1
    ensures IsLeastFetches(s, cap, run[|s|].misses)
  {
    var mine := RunIsSchedule(s, cap, run, |s|);
    assert Serves(s, cap, mine) && Fetches(s, cap, mine) == run[|s|].misses;
    forall moves | Serves(s, cap, moves)
      ensures run[|s|].misses <= Fetches(s, cap, moves)
    {
      LeadIsPaidFor(s, cap, run, moves);
      var p := Perform(s, cap, moves);
      assert Lead(s, |s|, p.held, run[|s|].held, |s|) == 0;
    }
  }

  /** However ties are broken, the policy misses at the same accesses. */
  lemma FarthestRunsAgree(s: seq<Key>, cap: nat, run: seq<Mark>, other: seq<Mark>, i: nat)
    requires cap >= 1 && FarthestRun(s, cap, run) && FarthestRun(s, cap, other)
    requires i < |run| && i < |other|
    ensures run[i].misses == other[i].misses
  {
    var mine := RunIsSchedule(s, cap, run, i);
    var theirs := RunIsSchedule(s, cap, other, i);
    LeadIsPaidFor(s, cap, run, theirs);
    LeadIsPaidFor(s, cap, other, mine);
    assert Lead(s, i, other[i].held, run[i].held, i) == 0;
    assert Lead(s, i, run[i].held, other[i].held, i) == 0;
  }
}
