/** How many keys `run_flfu` of scripts/policy_sim.py pins, and what a key counts after any number of re-pins. */
module FrequencyCounts {
  import opened Prelude
  import opened Paging
  import opened Recency
  import opened PinnedPolicies
  import opened FrequencyPinned

  // ---- the number of pins ----

  /** It is the share of the slots, rounded towards zero, and none of a negative share. */
  lemma PinCountIs(S: nat, pinFrac: real)
    ensures if pinFrac <= 0.0 || S == 0 then PinCount(S, pinFrac) == 0
            else PinCount(S, pinFrac) as real <= S as real * pinFrac < PinCount(S, pinFrac) as real + 1.0
  {
    if pinFrac <= 0.0 {
      assert S as real * (-pinFrac) >= 0.0;
    } else if S > 0 {
      assert S as real * pinFrac > 0.0;
    }
  }

  // ---- one token ----

  /** A key that is not in the counter counts nothing. */
  ghost function CountOf(cnt: Counter, k: Key): real {
    if k in cnt then cnt[k] else 0.0
  }

  /** How often a token requests a key. */
  ghost function TokenOccurs(tk: seq<seq<Key>>, k: Key): nat {
    if tk == [] then 0 else multiset(tk[0])[k] + TokenOccurs(tk[1..], k)
  }

  lemma {:induction false} OccursFlat(tk: seq<seq<Key>>, k: Key)
    ensures multiset(FlatRows(tk))[k] == TokenOccurs(tk, k)
  {
    if tk != [] {
      OccursFlat(tk[1..], k);
    }
  }

  lemma KeyCounted(cnt: Counter, key: Key, k: Key)
    ensures CountOf(Counted(cnt, key), k) == CountOf(cnt, k) + if key == k then 1.0 else 0.0
  {
  }

  lemma OneMoreKey(keys: seq<Key>, n: nat, k: Key)
    requires n < |keys|
    ensures multiset(keys[..n + 1])[k] == multiset(keys[..n])[k] + if keys[n] == k then 1 else 0
  {
    assert keys[..n + 1] == keys[..n] + [keys[n]];
  }

  /** Every request counts one. */
  lemma {:induction false} KeysCounted(st: Flfu, p: Settings, t: int, keys: seq<Key>, n: nat, k: Key)
    requires n <= |keys|
    ensures CountOf(AfterKeys(st, p, t, keys, n).cnt, k) == CountOf(st.cnt, k) + multiset(keys[..n])[k] as real
  {
    if n > 0 {
      KeysCounted(st, p, t, keys, n - 1, k);
      OneMoreKey(keys, n - 1, k);
      KeyCounted(AfterKeys(st, p, t, keys, n - 1).cnt, keys[n - 1], k);
    }
  }

  lemma TokenCounted(p: Settings, t: nat, tk: seq<seq<Key>>, a: Flfu, k: Key)
    ensures CountOf(AfterToken(p, t, tk, a).cnt, k) == CountOf(a.cnt, k) + TokenOccurs(tk, k) as real
  {
    var keys := FlatRows(tk);
    KeysCounted(a, p, t, keys, |keys|, k);
    assert keys[..|keys|] == keys;
    OccursFlat(tk, k);
  }

  /** A re-pin scales the count, and forgets it below a quarter. */
  ghost function Forgotten(x: real): real {
    if x >= 0.25 then x else 0.0
  }

  lemma DecayIs(cnt: Counter, decay: real, k: Key)
    ensures CountOf(Decayed(cnt, decay), k) == Forgotten(Scaled(CountOf(cnt, k), decay))
    ensures k in Decayed(cnt, decay) <==> Scaled(CountOf(cnt, k), decay) >= 0.25
  {
  }

  lemma StepCounts(p: Settings, t: nat, tk: seq<seq<Key>>, a: Flfu, b: Flfu, k: Key)
    requires p.repin >= 1 && TokenStep(p, t, tk, a, b) && (t + 1) % p.repin != 0
    ensures CountOf(b.cnt, k) == CountOf(a.cnt, k) + TokenOccurs(tk, k) as real
  {
    TokenCounted(p, t, tk, a, k);
  }

  lemma RepinCounts(p: Settings, t: nat, tk: seq<seq<Key>>, a: Flfu, b: Flfu, k: Key, c: real)
    requires p.repin >= 1 && TokenStep(p, t, tk, a, b) && (t + 1) % p.repin == 0
    requires c == CountOf(a.cnt, k) + TokenOccurs(tk, k) as real
    ensures CountOf(b.cnt, k) == Forgotten(Scaled(c, p.decay))
  {
    var mid := AfterToken(p, t, tk, a);
    TokenCounted(p, t, tk, a, k);
    assert b.cnt == Decayed(mid.cnt, p.decay) && CountOf(mid.cnt, k) == c;
    DecayIs(mid.cnt, p.decay, k);
  }

  // ---- the counts of one key along a run ----

  /** Token `i` takes the count from `counts[i]` on: its requests are added, and a re-pin that is due scales it. */
  ghost predicate CountStep(counts: seq<real>, occurs: seq<nat>, due: seq<bool>, decay: real, i: nat)
    requires i < |occurs| == |due| && |counts| == |occurs| + 1
  {
    var c := counts[i] + occurs[i] as real;
    counts[i + 1] == if due[i] then Forgotten(Scaled(c, decay)) else c
  }

  ghost predicate CountSteps(counts: seq<real>, occurs: seq<nat>, due: seq<bool>, decay: real) {
    && |occurs| == |due| && |counts| == |occurs| + 1
    && forall i :: 0 <= i < |occurs| ==> CountStep(counts, occurs, due, decay, i)
  }

  /** Requests of the tokens from `t` up to `u`. */
  ghost function Between(occurs: seq<nat>, t: nat, u: nat): nat
    requires t <= u <= |occurs|
  {
    if t == u then 0 else Between(occurs, t, u - 1) + occurs[u - 1]
  }

  lemma {:induction false} UpToRepin(counts: seq<real>, occurs: seq<nat>, due: seq<bool>, decay: real, t: nat, u: nat)
    requires CountSteps(counts, occurs, due, decay) && t <= u <= |occurs| && forall i :: t <= i < u ==> !due[i]
    ensures counts[u] == counts[t] + Between(occurs, t, u) as real
  {
    if t < u {
      UpToRepin(counts, occurs, due, decay, t, u - 1);
      assert CountStep(counts, occurs, due, decay, u - 1);
    }
  }

  /** From one re-pin to the next: `t` tokens precede the one, `u` the other. */
  ghost predicate NextRepin(due: seq<bool>, t: nat, u: nat) {
    t < u <= |due| && due[u - 1] && forall i :: t <= i < u - 1 ==> !due[i]
  }

  lemma Period(counts: seq<real>, occurs: seq<nat>, due: seq<bool>, decay: real, t: nat, u: nat)
    requires CountSteps(counts, occurs, due, decay) && NextRepin(due, t, u)
    ensures counts[u] == Forgotten(Scaled(counts[t] + Between(occurs, t, u) as real, decay))
  {
    UpToRepin(counts, occurs, due, decay, t, u - 1);
    assert CountStep(counts, occurs, due, decay, u - 1);
  }

  // ---- several re-pins ----

  ghost function Pow(x: real, n: nat): real {
    if n == 0 then 1.0 else x * Pow(x, n - 1)
  }

  /** What `occurs[j]` requests before re-pin `j` weigh at the end, with `c` from before. */
  ghost function Weight(c: real, occurs: seq<nat>, decay: real): real {
    if occurs == [] then c
    else Scaled(Weight(c, occurs[..|occurs| - 1], decay) + occurs[|occurs| - 1] as real, decay)
  }

  /** `x` after `n` re-pins. */
  ghost function Left(x: real, decay: real, n: nat): real {
    x * Pow(decay, n)
  }

  /** A request loses one factor of the decay at every re-pin since. */
  ghost function Faded(occurs: seq<nat>, decay: real, n: nat): real
    requires |occurs| <= n
  {
    if occurs == [] then 0.0
    else
      var j := |occurs| - 1;
      Faded(occurs[..j], decay, n) + Left(occurs[j] as real, decay, n - j)
  }

  lemma LeftMore(x: real, decay: real, n: nat)
    ensures Left(x, decay, n + 1) == Scaled(Left(x, decay, n), decay)
  {
    assert Pow(decay, n + 1) == decay * Pow(decay, n);
  }

  lemma LeftOne(x: real, decay: real)
    ensures Left(x, decay, 1) == Scaled(x, decay)
  {
    assert Pow(decay, 1) == decay * Pow(decay, 0) == decay;
  }

  lemma ScaledSum(x: real, y: real, decay: real)
    ensures Scaled(x + y, decay) == Scaled(x, decay) + Scaled(y, decay)
  {
  }

  lemma {:induction false} FadedMore(occurs: seq<nat>, decay: real, n: nat)
    requires |occurs| <= n
    ensures Faded(occurs, decay, n + 1) == Scaled(Faded(occurs, decay, n), decay)
  {
    if occurs != [] {
      var j := |occurs| - 1;
      FadedMore(occurs[..j], decay, n);
      LeftMore(occurs[j] as real, decay, n - j);
      ScaledSum(Faded(occurs[..j], decay, n), Left(occurs[j] as real, decay, n - j), decay);
    }
  }

  /** What a count of `c` and the requests since come to. */
  ghost function Remains(c: real, occurs: seq<nat>, decay: real): real {
    Left(c, decay, |occurs|) + Faded(occurs, decay, |occurs|)
  }

  lemma RemainsMore(c: real, occurs: seq<nat>, decay: real, n: nat)
    requires |occurs| == n + 1
    ensures Remains(c, occurs, decay) == Scaled(Remains(c, occurs[..n], decay) + occurs[n] as real, decay)
  {
    var o, l, f := occurs[n] as real, Left(c, decay, n), Faded(occurs[..n], decay, n);
    LeftMore(c, decay, n);
    FadedMore(occurs[..n], decay, n);
    LeftOne(o, decay);
    ScaledSum(l + f, o, decay);
    ScaledSum(l, f, decay);
  }

  lemma {:induction false} WeightIs(c: real, occurs: seq<nat>, decay: real)
    ensures Weight(c, occurs, decay) == Remains(c, occurs, decay)
  {
    if occurs != [] {
      WeightIs(c, occurs[..|occurs| - 1], decay);
      RemainsMore(c, occurs, decay, |occurs| - 1);
    }
  }

  /** `at` are consecutive re-pins, and `each[j]` is how often the tokens between `at[j]` and the next request the
      key. */
  ghost predicate Periods(occurs: seq<nat>, due: seq<bool>, at: seq<nat>, each: seq<nat>) {
    && |at| == |each| + 1 && |occurs| == |due|
    && forall j :: 0 <= j < |each| ==> PeriodAt(occurs, due, at, each, j)
  }

  ghost predicate PeriodAt(occurs: seq<nat>, due: seq<bool>, at: seq<nat>, each: seq<nat>, j: nat)
    requires j < |each| < |at| && |occurs| == |due|
  {
    NextRepin(due, at[j], at[j + 1]) && each[j] == Between(occurs, at[j], at[j + 1])
  }

  /** The weight has been a quarter or more at every re-pin before the `m`-th. */
  ghost predicate Remembered(c: real, each: seq<nat>, decay: real, m: nat)
    requires m <= |each|
  {
    forall i :: 0 < i < m ==> Weight(c, each[..i], decay) >= 0.25
  }

  /** Behind the `m`-th re-pin a key counts its weight, or nothing when that is below a quarter. */
  lemma {:induction false} RepinsWeigh(counts: seq<real>, occurs: seq<nat>, due: seq<bool>, decay: real, at: seq<nat>,
                                       each: seq<nat>, m: nat)
    requires CountSteps(counts, occurs, due, decay) && Periods(occurs, due, at, each) && 0 < m <= |each|
    requires PeriodAt(occurs, due, at, each, 0) && Remembered(counts[at[0]], each, decay, m)
    ensures PeriodAt(occurs, due, at, each, m - 1)
    ensures counts[at[m]] == Forgotten(Weight(counts[at[0]], each[..m], decay))
  {
    var c := counts[at[0]];
    if m > 1 {
      RepinsWeigh(counts, occurs, due, decay, at, each, m - 1);
      assert Weight(c, each[..m - 1], decay) >= 0.25;
    }
    assert PeriodAt(occurs, due, at, each, m - 1);
    Period(counts, occurs, due, decay, at[m - 1], at[m]);
    assert each[..m][..m - 1] == each[..m - 1];
  }

  /** Written out: what it counted before, and each request since, has lost one factor of the decay per re-pin. */
  lemma RepinsFade(counts: seq<real>, occurs: seq<nat>, due: seq<bool>, decay: real, at: seq<nat>, each: seq<nat>)
    requires CountSteps(counts, occurs, due, decay) && Periods(occurs, due, at, each) && |each| > 0
    requires PeriodAt(occurs, due, at, each, 0) && Remembered(counts[at[0]], each, decay, |each|)
    ensures PeriodAt(occurs, due, at, each, |each| - 1)
    ensures counts[at[|each|]] == Forgotten(Remains(counts[at[0]], each, decay))
  {
    RepinsWeigh(counts, occurs, due, decay, at, each, |each|);
    assert each[..|each|] == each;
    WeightIs(counts[at[0]], each, decay);
  }

  // ---- in a run of the policy ----

  /** `counts[t]` is what key `k` counts before token `t`, `occurs[t]` how often that requests it, and a re-pin is due
      behind every `repin`-th token. */
  ghost predicate CountsOf(repin: nat, toks: seq<seq<seq<Key>>>, trace: seq<Flfu>, k: Key, counts: seq<real>,
                           occurs: seq<nat>, due: seq<bool>)
    requires repin >= 1
  {
    && |trace| == |toks| + 1 == |counts| && |occurs| == |due| == |toks|
    && (forall t :: 0 <= t < |trace| ==> counts[t] == CountOf(trace[t].cnt, k))
    && (forall t :: 0 <= t < |toks| ==> occurs[t] == TokenOccurs(toks[t], k))
    && forall t :: 0 <= t < |toks| ==> (due[t] <==> (t + 1) % repin == 0)
  }

  lemma StepAt(p: Settings, toks: seq<seq<seq<Key>>>, trace: seq<Flfu>, t: nat)
    requires p.repin >= 1 && FlfuRun(p, toks, trace) && t + 1 < |trace|
    ensures TokenStep(p, t, toks[t], trace[t], trace[t + 1])
  {
  }

  lemma CountGoes(p: Settings, t: nat, tk: seq<seq<Key>>, a: Flfu, b: Flfu, k: Key, due: bool, c: real)
    requires p.repin >= 1 && TokenStep(p, t, tk, a, b) && due == ((t + 1) % p.repin == 0)
    requires c == CountOf(a.cnt, k) + TokenOccurs(tk, k) as real
    ensures due ==> CountOf(b.cnt, k) == Forgotten(Scaled(c, p.decay))
    ensures !due ==> CountOf(b.cnt, k) == c
  {
    if due {
      RepinCounts(p, t, tk, a, b, k, c);
    } else {
      StepCounts(p, t, tk, a, b, k);
    }
  }

  /** So the counts of every key go as `RepinsFade` says. */
  lemma RunCounts(p: Settings, toks: seq<seq<seq<Key>>>, trace: seq<Flfu>, k: Key, counts: seq<real>, occurs: seq<nat>,
                  due: seq<bool>)
    requires p.repin >= 1 && FlfuRun(p, toks, trace) && CountsOf(p.repin, toks, trace, k, counts, occurs, due)
    ensures CountSteps(counts, occurs, due, p.decay) && counts[0] == 0.0
  {
    forall t | 0 <= t < |toks|
      ensures CountStep(counts, occurs, due, p.decay, t)
    {
      StepAt(p, toks, trace, t);
      CountGoes(p, t, toks[t], trace[t], trace[t + 1], k, due[t], counts[t] + occurs[t] as real);
    }
  }
}
