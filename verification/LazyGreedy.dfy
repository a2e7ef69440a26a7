/** Lazy-greedy placement of experts on a host and a dGPU tier (scripts/sim.py, scripts/sim2.py). */
module LazyGreedy {
  import opened Prelude
  import PriorityQueue

  /** The experts each token picks in one layer. */
  type Column = seq<seq<nat>>

  /** Cost of a layer with so many picks on the host and on the dGPU. */
  type Cost = (nat, nat) -> real

  datatype Tier = Dgpu | Host

  /** `picks[l][i]`: what token `i` picks in layer `l`; every layer sees `n` tokens. */
  type Picks = seq<Column>

  ghost predicate Shaped(picks: Picks, n: nat) {
    forall l :: 0 <= l < |picks| ==> |picks[l]| == n
  }

  ghost predicate DistinctColumn(col: Column) {
    forall i :: 0 <= i < |col| ==> Distinct(col[i])
  }

  ghost predicate DistinctPicks(picks: Picks) {
    forall l :: 0 <= l < |picks| ==> DistinctColumn(picks[l])
  }

  // ---- evaluation ----

  /** `sum(1 for e in p if e in members)`. */
  function Count(p: seq<nat>, members: set<nat>): nat {
    if p == [] then 0 else Count(p[..|p| - 1], members) + if p[|p| - 1] in members then 1 else 0
  }

  /** The places of `p` that hold a member. */
  lemma {:induction false} CountIs(p: seq<nat>, members: set<nat>)
    ensures Count(p, members) == |set i | 0 <= i < |p| && p[i] in members|
  {
    var at := set i | 0 <= i < |p| && p[i] in members;
    if p != [] {
      var n := |p| - 1;
      CountIs(p[..n], members);
      var front := set i | 0 <= i < |p[..n]| && p[..n][i] in members;
      assert at == front + if p[n] in members then {n} else {};
    }
  }

  /** Cost of a layer over its first `n` tokens. */
  function LayerSum(cost: Cost, col: Column, h: set<nat>, d: set<nat>, n: nat): real
    requires n <= |col|
  {
    if n == 0 then 0.0
    else LayerSum(cost, col, h, d, n - 1) + cost(Count(col[n - 1], h), Count(col[n - 1], d))
  }

  function Mean(cost: Cost, col: Column, h: set<nat>, d: set<nat>, n: nat): real
    requires |col| == n > 0
  {
    LayerSum(cost, col, h, d, n) / n as real
  }

  /** `evaluate`: mean cost per token of the first `layers` layers. */
  function Evaluate(cost: Cost, picks: Picks, n: nat, hs: seq<set<nat>>, ds: seq<set<nat>>, layers: nat): real
    requires n > 0 && Shaped(picks, n) && layers <= |picks| == |hs| == |ds|
  {
    if layers == 0 then 0.0
    else Evaluate(cost, picks, n, hs, ds, layers - 1) +
         Mean(cost, picks[layers - 1], hs[layers - 1], ds[layers - 1], n)
  }

  /** Picks of the first `n` tokens that are in `members`. */
  function CountSum(col: Column, members: set<nat>, n: nat): nat
    requires n <= |col|
  {
    if n == 0 then 0 else CountSum(col, members, n - 1) + Count(col[n - 1], members)
  }

  /** The total, and per layer the mean host picks, cost and dGPU picks. */
  method EvaluateLoop(cost: Cost, picks: Picks, n: nat, hs: seq<set<nat>>, ds: seq<set<nat>>)
    returns (tot: real, nbar: seq<real>, ph: seq<real>, nd: seq<real>)
    requires n > 0 && Shaped(picks, n) && |picks| == |hs| == |ds|
    ensures tot == Evaluate(cost, picks, n, hs, ds, |picks|)
    ensures |nbar| == |ph| == |nd| == |picks|
    ensures forall l :: 0 <= l < |picks| ==> ph[l] == Mean(cost, picks[l], hs[l], ds[l], n)
    ensures forall l :: 0 <= l < |picks| ==> nbar[l] == CountSum(picks[l], hs[l], n) as real / n as real
    ensures forall l :: 0 <= l < |picks| ==> nd[l] == CountSum(picks[l], ds[l], n) as real / n as real
  {
    tot, nbar, ph, nd := 0.0, [], [], [];
    for l := 0 to |picks|
      invariant tot == Evaluate(cost, picks, n, hs, ds, l) && |nbar| == |ph| == |nd| == l
      invariant forall k :: 0 <= k < l ==> ph[k] == Mean(cost, picks[k], hs[k], ds[k], n)
      invariant forall k :: 0 <= k < l ==> nbar[k] == CountSum(picks[k], hs[k], n) as real / n as real
      invariant forall k :: 0 <= k < l ==> nd[k] == CountSum(picks[k], ds[k], n) as real / n as real
    {
      var s, sn, sd := LayerLoop(cost, picks[l], n, hs[l], ds[l]);
      tot, ph := tot + s / n as real, ph + [s / n as real];
      nbar, nd := nbar + [sn as real / n as real], nd + [sd as real / n as real];
    }
  }

  method LayerLoop(cost: Cost, col: Column, n: nat, h: set<nat>, d: set<nat>) returns (s: real, sn: nat, sd: nat)
    requires |col| == n
    ensures s == LayerSum(cost, col, h, d, n) && sn == CountSum(col, h, n) && sd == CountSum(col, d, n)
  {
    s, sn, sd := 0.0, 0, 0;
    for i := 0 to n
      invariant s == LayerSum(cost, col, h, d, i) && sn == CountSum(col, h, i) && sd == CountSum(col, d, i)
    {
      var a, b := Count(col[i], h), Count(col[i], d);
      s, sn, sd := s + cost(a, b), sn + a, sd + b;
    }
  }

  // ---- where an expert is picked ----

  function Occurrences(p: seq<nat>, e: nat): nat {
    if p == [] then 0 else Occurrences(p[..|p| - 1], e) + if p[|p| - 1] == e then 1 else 0
  }

  function Times(i: nat, k: nat): seq<nat> {
    seq(k, _ => i)
  }

  /** Tokens below `n` that pick `e`, once per occurrence. */
  function Uses(col: Column, e: nat, n: nat): (at: seq<nat>)
    requires n <= |col|
    ensures forall j :: 0 <= j < |at| ==> at[j] < n
  {
    if n == 0 then [] else Uses(col, e, n - 1) + Times(n - 1, Occurrences(col[n - 1], e))
  }

  function StepSaving(cost: Cost, a: nat, b: nat, tier: Tier): real {
    cost(a, b) - (if tier == Host then cost(a + 1, b) else cost(a, b + 1))
  }

  /** What one more pick on a tier saves, summed over the listed tokens. */
  function Savings(cost: Cost, col: Column, h: set<nat>, d: set<nat>, tier: Tier, at: seq<nat>): real
    requires forall j :: 0 <= j < |at| ==> at[j] < |col|
  {
    if at == [] then 0.0
    else
      var p := col[at[|at| - 1]];
      Savings(cost, col, h, d, tier, at[..|at| - 1]) + StepSaving(cost, Count(p, h), Count(p, d), tier)
  }

  // ---- laws ----

  lemma {:induction false} CountAdds(p: seq<nat>, members: set<nat>, e: nat)
    requires e !in members
    ensures Count(p, members + {e}) == Count(p, members) + Occurrences(p, e)
  {
    if p != [] {
      CountAdds(p[..|p| - 1], members, e);
    }
  }

  lemma {:induction false} CountNone(p: seq<nat>)
    ensures Count(p, {}) == 0
  {
    if p != [] {
      CountNone(p[..|p| - 1]);
    }
  }

  lemma {:induction false} OccurrencesAtMostOne(p: seq<nat>, e: nat)
    requires Distinct(p)
    ensures Occurrences(p, e) == if e in p then 1 else 0
  {
    if p != [] {
      var front := p[..|p| - 1];
      OccurrencesAtMostOne(front, e);
      assert e in p <==> e in front || e == p[|p| - 1];
    }
  }

  ghost function Grow(members: set<nat>, e: nat, here: bool): set<nat> {
    if here then members + {e} else members
  }

  lemma CountGrows(p: seq<nat>, members: set<nat>, e: nat, here: bool)
    requires Distinct(p) && e !in members
    ensures Count(p, Grow(members, e, here)) == Count(p, members) + if here && e in p then 1 else 0
  {
    CountAdds(p, members, e);
    OccurrencesAtMostOne(p, e);
  }

  lemma UsesStep(col: Column, e: nat, n: nat)
    requires 0 < n <= |col| && Distinct(col[n - 1])
    ensures Uses(col, e, n) == if e in col[n - 1] then Uses(col, e, n - 1) + [n - 1] else Uses(col, e, n - 1)
  {
    OccurrencesAtMostOne(col[n - 1], e);
  }

  /** One token: what it saves is what its cost drops by. */
  lemma CellDrop(cost: Cost, p: seq<nat>, h: set<nat>, d: set<nat>, tier: Tier, e: nat)
    requires Distinct(p) && e !in h && e !in d
    ensures cost(Count(p, h), Count(p, d))
            - cost(Count(p, Grow(h, e, tier == Host)), Count(p, Grow(d, e, tier == Dgpu))) ==
            if e in p then StepSaving(cost, Count(p, h), Count(p, d), tier) else 0.0
  {
    CountGrows(p, h, e, tier == Host);
    CountGrows(p, d, e, tier == Dgpu);
  }

  lemma SavingsStep(cost: Cost, col: Column, h: set<nat>, d: set<nat>, tier: Tier, e: nat, n: nat)
    requires 0 < n <= |col| && Distinct(col[n - 1])
    ensures Savings(cost, col, h, d, tier, Uses(col, e, n)) ==
            Savings(cost, col, h, d, tier, Uses(col, e, n - 1)) +
            if e in col[n - 1] then StepSaving(cost, Count(col[n - 1], h), Count(col[n - 1], d), tier) else 0.0
  {
    UsesStep(col, e, n);
    if e in col[n - 1] {
    }
  }

  /** The gain of placing `e` is exactly the drop of the layer's cost, when no token picks an
      expert twice. */
  lemma {:induction false} SavingsIsDrop(cost: Cost, col: Column, h: set<nat>, d: set<nat>, tier: Tier, e: nat,
                                         n: nat, h': set<nat>, d': set<nat>)
    requires n <= |col| && DistinctColumn(col) && e !in h && e !in d
    requires h' == Grow(h, e, tier == Host) && d' == Grow(d, e, tier == Dgpu)
    ensures Savings(cost, col, h, d, tier, Uses(col, e, n)) ==
            LayerSum(cost, col, h, d, n) - LayerSum(cost, col, h', d', n)
  {
    if n > 0 {
      SavingsIsDrop(cost, col, h, d, tier, e, n - 1, h', d');
      CellDrop(cost, col[n - 1], h, d, tier, e);
      SavingsStep(cost, col, h, d, tier, e, n);
    }
  }

  lemma {:induction false} LayerSumEmpty(cost: Cost, col: Column, n: nat)
    requires n <= |col|
    ensures LayerSum(cost, col, {}, {}, n) == n as real * cost(0, 0)
  {
    if n > 0 {
      LayerSumEmpty(cost, col, n - 1);
      CountNone(col[n - 1]);
      assert n as real * cost(0, 0) == (n - 1) as real * cost(0, 0) + cost(0, 0);
    }
  }

  /** `sum(M.f(0, 0) for _ in range(layers))`. */
  function BaseTotal(cost: Cost, layers: nat): real {
    if layers == 0 then 0.0 else BaseTotal(cost, layers - 1) + cost(0, 0)
  }

  lemma DivideOut(s: real, n: real, x: real)
    requires n > 0.0 && s == n * x
    ensures s / n == x
  {
  }

  lemma {:induction false} BaseIsEvaluate(cost: Cost, picks: Picks, n: nat, none: seq<set<nat>>, layers: nat)
    requires n > 0 && Shaped(picks, n) && layers <= |picks| == |none|
    requires forall l :: 0 <= l < |none| ==> none[l] == {}
    ensures Evaluate(cost, picks, n, none, none, layers) == BaseTotal(cost, layers)
  {
    if layers > 0 {
      BaseIsEvaluate(cost, picks, n, none, layers - 1);
      LayerSumEmpty(cost, picks[layers - 1], n);
      DivideOut(LayerSum(cost, picks[layers - 1], {}, {}, n), n as real, cost(0, 0));
    }
  }

  /** Changing one layer's sets changes `evaluate` by that layer's mean. */
  lemma {:induction false} EvaluateUpdate(cost: Cost, picks: Picks, n: nat, hs: seq<set<nat>>, ds: seq<set<nat>>,
                                          l: nat, h: set<nat>, d: set<nat>, layers: nat)
    requires n > 0 && Shaped(picks, n) && layers <= |picks| == |hs| == |ds| && l < |hs|
    ensures Evaluate(cost, picks, n, hs[l := h], ds[l := d], layers) ==
            Evaluate(cost, picks, n, hs, ds, layers) +
            if l < layers then Mean(cost, picks[l], h, d, n) - Mean(cost, picks[l], hs[l], ds[l], n) else 0.0
  {
    if layers > 0 {
      EvaluateUpdate(cost, picks, n, hs, ds, l, h, d, layers - 1);
    }
  }

  // ---- `where`: the tokens that pick each expert ----

  function Listed(uses: map<(nat, nat), seq<nat>>, l: nat, e: nat): seq<nat> {
    if (l, e) in uses then uses[(l, e)] else []
  }

  lemma OccurrencesStep(p: seq<nat>, x: nat, e: nat, i: nat)
    requires x < |p|
    ensures Times(i, Occurrences(p[..x + 1], e)) ==
            if p[x] == e then Times(i, Occurrences(p[..x], e)) + [i] else Times(i, Occurrences(p[..x], e))
  {
    assert p[..x + 1][..x] == p[..x];
  }

  /** One token's picks in one layer. */
  method AddPicks(uses: map<(nat, nat), seq<nat>>, l: nat, i: nat, p: seq<nat>)
    returns (uses': map<(nat, nat), seq<nat>>)
    ensures forall e :: Listed(uses', l, e) == Listed(uses, l, e) + Times(i, Occurrences(p, e))
    ensures forall k, e :: k != l ==> Listed(uses', k, e) == Listed(uses, k, e)
    ensures forall key :: key in uses' ==> uses'[key] != [] || (key in uses && uses[key] == [])
    ensures forall key :: key in uses' ==> key in uses || key.0 == l
  {
    uses' := uses;
    for x := 0 to |p|
      invariant forall e :: Listed(uses', l, e) == Listed(uses, l, e) + Times(i, Occurrences(p[..x], e))
      invariant forall k, e :: k != l ==> Listed(uses', k, e) == Listed(uses, k, e)
      invariant forall key :: key in uses' ==> uses'[key] != [] || (key in uses && uses[key] == [])
      invariant forall key :: key in uses' ==> key in uses || key.0 == l
    {
      ghost var before := uses';
      uses' := uses'[(l, p[x]) := Listed(uses', l, p[x]) + [i]];
      forall e
        ensures Listed(uses', l, e) == Listed(uses, l, e) + Times(i, Occurrences(p[..x + 1], e))
      {
        OccurrencesStep(p, x, e, i);
        assert Listed(before, l, e) == Listed(uses, l, e) + Times(i, Occurrences(p[..x], e));
        Assoc(Listed(uses, l, e), Times(i, Occurrences(p[..x], e)), [i]);
      }
    }
    assert p[..|p|] == p;
  }

  /** Layer `k` lists every expert with the tokens below `m` that pick it. */
  ghost predicate LayerListed(picks: Picks, uses: map<(nat, nat), seq<nat>>, k: nat, m: nat)
    requires k < |picks|
  {
    m <= |picks[k]| && forall e :: Listed(uses, k, e) == Uses(picks[k], e, m)
  }

  ghost predicate AllListed(picks: Picks, uses: map<(nat, nat), seq<nat>>, m: nat) {
    && (forall k :: 0 <= k < |picks| ==> LayerListed(picks, uses, k, m))
    && (forall key :: key in uses ==> key.0 < |picks| && uses[key] != [])
  }

  method BuildWhere(picks: Picks, n: nat) returns (uses: map<(nat, nat), seq<nat>>)
    requires Shaped(picks, n)
    ensures AllListed(picks, uses, n)
  {
    uses := map[];
    for i := 0 to n
      invariant AllListed(picks, uses, i)
    {
      uses := AddToken(picks, uses, n, i, i + 1);
    }
  }

  /** Token `i` has been added to the layers below `l`. */
  ghost predicate Added(picks: Picks, uses: map<(nat, nat), seq<nat>>, i: nat, l: nat, k: nat)
    requires k < |picks|
  {
    LayerListed(picks, uses, k, if k < l then i + 1 else i)
  }

  lemma AddedStep(picks: Picks, before: map<(nat, nat), seq<nat>>, uses: map<(nat, nat), seq<nat>>, n: nat, i: nat,
                  l: nat, l': nat)
    requires Shaped(picks, n) && i < n && l < |picks| && l' == l + 1
    requires forall k :: 0 <= k < |picks| ==> Added(picks, before, i, l, k)
    requires forall e :: Listed(uses, l, e) == Listed(before, l, e) + Times(i, Occurrences(picks[l][i], e))
    requires forall k, e :: k != l ==> Listed(uses, k, e) == Listed(before, k, e)
    ensures forall k :: 0 <= k < |picks| ==> Added(picks, uses, i, l', k)
  {
    forall k | 0 <= k < |picks|
      ensures Added(picks, uses, i, l', k)
    {
      assert Added(picks, before, i, l, k);
      forall e
        ensures Listed(uses, k, e) == Uses(picks[k], e, if k < l' then i + 1 else i)
      {
        assert Listed(before, k, e) == Uses(picks[k], e, if k < l then i + 1 else i);
      }
    }
  }

  method AddToken(picks: Picks, uses: map<(nat, nat), seq<nat>>, n: nat, i: nat, ghost next: nat)
    returns (uses': map<(nat, nat), seq<nat>>)
    requires Shaped(picks, n) && i < n && AllListed(picks, uses, i) && next == i + 1
    ensures AllListed(picks, uses', next)
  {
    uses' := uses;
    for l := 0 to |picks|
      invariant forall k :: 0 <= k < |picks| ==> Added(picks, uses', i, l, k)
      invariant forall key :: key in uses' ==> key.0 < |picks| && uses'[key] != []
    {
      ghost var before := uses';
      uses' := AddPicks(uses', l, i, picks[l][i]);
      AddedStep(picks, before, uses', n, i, l, l + 1);
    }
    forall k | 0 <= k < |picks|
      ensures LayerListed(picks, uses', k, next)
    {
      assert Added(picks, uses', i, |picks|, k);
    }
  }

  // ---- counters ----

  /** `counts[l][i]` is the number of picks of token `i` placed in layer `l`. */
  ghost predicate CountsOf(col: Column, members: set<nat>, counts: seq<nat>) {
    |counts| == |col| && forall i :: 0 <= i < |col| ==> counts[i] == Count(col[i], members)
  }

  ghost predicate Counted(picks: Picks, sets: seq<set<nat>>, counts: seq<seq<nat>>) {
    |sets| == |counts| == |picks| && forall l :: 0 <= l < |picks| ==> CountsOf(picks[l], sets[l], counts[l])
  }

  lemma {:induction false} UsesMultiplicity(col: Column, e: nat, n: nat, i: nat)
    requires n <= |col| && i < |col|
    ensures multiset(Uses(col, e, n))[i] == if i < n then Occurrences(col[i], e) else 0
  {
    if n > 0 {
      UsesMultiplicity(col, e, n - 1, i);
      TimesMultiplicity(n - 1, Occurrences(col[n - 1], e), i);
    }
  }

  lemma {:induction false} TimesMultiplicity(x: nat, k: nat, i: nat)
    ensures multiset(Times(x, k))[i] == if i == x then k else 0
  {
    if k > 0 {
      TimesMultiplicity(x, k - 1, i);
      assert Times(x, k) == Times(x, k - 1) + [x];
    }
  }

  /** `for i in where[(l, e)]: counts[l][i] += 1`. */
  method Bump(counts: seq<nat>, at: seq<nat>) returns (counts': seq<nat>)
    requires forall j :: 0 <= j < |at| ==> at[j] < |counts|
    ensures |counts'| == |counts|
    ensures forall i :: 0 <= i < |counts| ==> counts'[i] == counts[i] + multiset(at)[i]
  {
    counts' := counts;
    for j := 0 to |at|
      invariant |counts'| == |counts|
      invariant forall i :: 0 <= i < |counts| ==> counts'[i] == counts[i] + multiset(at[..j])[i]
    {
      assert at[..j + 1] == at[..j] + [at[j]];
      counts' := counts'[at[j] := counts'[at[j]] + 1];
    }
    assert at[..|at|] == at;
  }

  lemma BumpIsCount(col: Column, members: set<nat>, e: nat, counts: seq<nat>, counts': seq<nat>)
    requires CountsOf(col, members, counts) && e !in members && |counts'| == |counts|
    requires forall i :: 0 <= i < |counts| ==> counts'[i] == counts[i] + multiset(Uses(col, e, |col|))[i]
    ensures CountsOf(col, members + {e}, counts')
  {
    forall i | 0 <= i < |col|
      ensures counts'[i] == Count(col[i], members + {e})
    {
      UsesMultiplicity(col, e, |col|, i);
      CountAdds(col[i], members, e);
    }
  }

  // ---- gains ----

  /** Mean saving per token of placing expert `e` of layer `l` on a tier. */
  ghost function GainOf(cost: Cost, picks: Picks, n: nat, hs: seq<set<nat>>, ds: seq<set<nat>>, l: nat, e: nat,
                        tier: Tier): real
    requires n > 0 && Shaped(picks, n) && l < |picks| == |hs| == |ds|
  {
    Savings(cost, picks[l], hs[l], ds[l], tier, Uses(picks[l], e, n)) / n as real
  }

  method Gain(cost: Cost, n: nat, col: Column, nh: seq<nat>, nd: seq<nat>, at: seq<nat>, tier: Tier,
              ghost h: set<nat>, ghost d: set<nat>) returns (g: real)
    requires n > 0 && |col| == n && CountsOf(col, h, nh) && CountsOf(col, d, nd)
    requires forall j :: 0 <= j < |at| ==> at[j] < n
    ensures g == Savings(cost, col, h, d, tier, at) / n as real
  {
    var sum := 0.0;
    for j := 0 to |at|
      invariant sum == Savings(cost, col, h, d, tier, at[..j])
    {
      assert at[..j + 1] == at[..j] + [at[j]];
      var a, b := nh[at[j]], nd[at[j]];
      sum := sum + (cost(a, b) - if tier == Host then cost(a + 1, b) else cost(a, b + 1));
    }
    assert at[..|at|] == at;
    g := sum / n as real;
  }

  lemma DivSub(a: real, b: real, n: real)
    requires n > 0.0
    ensures a / n - b / n == (a - b) / n
  {
  }

  /** Placing an expert lowers `evaluate` by exactly its gain. */
  lemma PlacementDrops(cost: Cost, picks: Picks, n: nat, hs: seq<set<nat>>, ds: seq<set<nat>>, l: nat, e: nat,
                       tier: Tier)
    requires n > 0 && Shaped(picks, n) && l < |picks| == |hs| == |ds| && DistinctPicks(picks)
    requires e !in hs[l] && e !in ds[l]
    ensures Evaluate(cost, picks, n, hs[l := Grow(hs[l], e, tier == Host)], ds[l := Grow(ds[l], e, tier == Dgpu)],
            |picks|) ==
            Evaluate(cost, picks, n, hs, ds, |picks|) - GainOf(cost, picks, n, hs, ds, l, e, tier)
  {
    var h', d' := Grow(hs[l], e, tier == Host), Grow(ds[l], e, tier == Dgpu);
    EvaluateUpdate(cost, picks, n, hs, ds, l, h', d', |picks|);
    SavingsIsDrop(cost, picks[l], hs[l], ds[l], tier, e, n, h', d');
    DivSub(LayerSum(cost, picks[l], hs[l], ds[l], n), LayerSum(cost, picks[l], h', d', n), n as real);
  }

  // ---- the problem ----

  /** Arguments of `greedy` (`minGain` 0) and `greedy2` (`minGain` 0.05). */
  datatype Problem = Problem(cost: Cost, picks: Picks, n: nat, hostSlots: nat, dgpuSlots: nat, allowDgpu: bool,
                             minGain: real)

  /** A heap entry is pushed back only when its gain fell short of the next one by more than this. */
  const SLACK: real := 0.000000001

  /** The sets placed so far. */
  datatype Placement = Placement(hs: seq<set<nat>>, ds: seq<set<nat>>)

  ghost predicate Fits(m: Problem, p: Placement) {
    Shaped(m.picks, m.n) && |p.hs| == |p.ds| == |m.picks|
  }

  /** What placing expert `e` of layer `l` on `tier` would save now. */
  ghost function GainNow(m: Problem, p: Placement, l: nat, e: nat, tier: Tier): real
    requires Fits(m, p) && m.n > 0 && l < |m.picks|
  {
    GainOf(m.cost, m.picks, m.n, p.hs, p.ds, l, e, tier)
  }

  function Sizes(sets: seq<set<nat>>): nat {
    if sets == [] then 0 else Sizes(sets[..|sets| - 1]) + |sets[|sets| - 1]|
  }

  /** A candidate: somebody picks the expert, it is on no tier yet, and the tier has room for it. */
  ghost predicate Open(m: Problem, p: Placement, l: nat, e: nat, tier: Tier)
    requires Fits(m, p)
  {
    && m.n > 0 && l < |m.picks| && Uses(m.picks[l], e, m.n) != [] && e !in p.hs[l] && e !in p.ds[l]
    && (tier == Host ==> Sizes(p.hs) < m.hostSlots)
    && (tier == Dgpu ==> m.allowDgpu && |p.ds[l]| < m.dgpuSlots)
  }

  /** No candidate saves more than `g`. */
  ghost predicate NoneAbove(m: Problem, p: Placement, g: real)
    requires Fits(m, p)
  {
    forall l, e, tier :: Open(m, p, l, e, tier) ==> GainNow(m, p, l, e, tier) <= g
  }

  /** Picks per token and layer. */
  const TOPK: nat := 6

  /** Placing other picks of a token first makes a pick save at most `rise` more: for the counts a token
      with `TOPK` picks can have, and with picks on the dGPU only where that tier is used. */
  ghost predicate RisesAtMost(cost: Cost, dgpu: bool, rise: real) {
    forall a: nat, b: nat, a': nat, b': nat, tier ::
      a <= a' && b <= b' && a' + b' < TOPK && (tier == Dgpu || b' > 0 ==> dgpu) ==>
      StepSaving(cost, a', b', tier) <= StepSaving(cost, a, b, tier) + rise
  }

  ghost predicate TopkPicks(picks: Picks) {
    DistinctPicks(picks) && forall l, i :: 0 <= l < |picks| && 0 <= i < |picks[l]| ==> |picks[l][i]| <= TOPK
  }

  /** Tokens pick at most `TOPK` different experts a layer, and savings rise by at most `rise`. */
  ghost predicate Steady(m: Problem, rise: real) {
    rise >= 0.0 && TopkPicks(m.picks) && RisesAtMost(m.cost, m.allowDgpu, rise)
  }

  // ---- the lazy heap ----

  /** A heap tuple `(-gain, l, e, tier)`. */
  datatype Entry = Entry(prio: real, l: nat, e: nat, tier: Tier)

  predicate EntryLe(a: Entry, b: Entry) {
    a.prio < b.prio || (a.prio == b.prio &&
      (a.l < b.l || (a.l == b.l &&
        (a.e < b.e || (a.e == b.e && (a.tier == Dgpu || b.tier == Host))))))
  }

  predicate SameItem(a: Entry, b: Entry) {
    a.l == b.l && a.e == b.e && a.tier == b.tier
  }

  /** The stored gain is the current one. */
  ghost predicate Fresh(m: Problem, p: Placement, x: Entry)
    requires Fits(m, p)
  {
    m.n > 0 && x.l < |m.picks| && -x.prio == GainNow(m, p, x.l, x.e, x.tier)
  }

  ghost function Stale(m: Problem, p: Placement, heap: set<Entry>): set<Entry>
    requires Fits(m, p)
  {
    set x | x in heap && !Fresh(m, p, x)
  }

  /** An expert somebody picks, on a tier in use. */
  ghost predicate IsItem(m: Problem, x: Entry) {
    && x.l < |m.picks| && m.n <= |m.picks[x.l]| && Uses(m.picks[x.l], x.e, m.n) != []
    && (x.tier == Dgpu ==> m.allowDgpu)
  }

  /** One entry per expert and tier. */
  ghost predicate IsHeap(m: Problem, heap: set<Entry>) {
    && (forall x :: x in heap ==> IsItem(m, x))
    && (forall x, y :: x in heap && y in heap && SameItem(x, y) ==> x == y)
  }

  /** `p` holds everything `q` does. */
  ghost predicate Before(q: Placement, p: Placement) {
    && |q.hs| == |q.ds| == |p.hs| == |p.ds|
    && forall l :: 0 <= l < |p.hs| ==> q.hs[l] <= p.hs[l] && q.ds[l] <= p.ds[l]
  }

  /** The stored gain was the current one at the placement `q`. */
  ghost predicate WasFresh(m: Problem, q: Placement, x: Entry) {
    Fits(m, q) && Fresh(m, q, x)
  }

  /** A candidate's entry, with its gain at `p` or at some earlier placement. */
  ghost predicate Bounds(m: Problem, p: Placement, x: Entry, l: nat, e: nat, tier: Tier) {
    x.l == l && x.e == e && x.tier == tier && exists q :: Before(q, p) && WasFresh(m, q, x)
  }

  lemma FreshBounds(m: Problem, p: Placement, x: Entry)
    requires Fits(m, p) && Fresh(m, p, x)
    ensures Bounds(m, p, x, x.l, x.e, x.tier)
  {
    assert Before(p, p) && WasFresh(m, p, x);
  }

  ghost predicate Queued(m: Problem, p: Placement, heap: set<Entry>, l: nat, e: nat, tier: Tier)
    requires Fits(m, p)
  {
    exists x :: x in heap && Bounds(m, p, x, l, e, tier)
  }

  /** Every candidate is in the heap. */
  ghost predicate Covers(m: Problem, p: Placement, heap: set<Entry>)
    requires Fits(m, p)
  {
    forall l, e, tier :: Open(m, p, l, e, tier) ==> Queued(m, p, heap, l, e, tier)
  }

  lemma StaleSwap(m: Problem, p: Placement, heap: set<Entry>, x: Entry, y: Entry)
    requires Fits(m, p) && x in heap && !Fresh(m, p, x) && Fresh(m, p, y)
    ensures Stale(m, p, heap - {x} + {y}) == Stale(m, p, heap) - {x}
  {
  }

  lemma HeapSwap(m: Problem, heap: set<Entry>, x: Entry, y: Entry)
    requires x in heap && IsHeap(m, heap) && SameItem(x, y)
    ensures IsHeap(m, heap - {x} + {y})
  {
    forall a, b | a in heap - {x} + {y} && b in heap - {x} + {y} && SameItem(a, b)
      ensures a == b
    {
      var (a', b') := (if a == y then x else a, if b == y then x else b);
      assert a' in heap && b' in heap && SameItem(a', b');
    }
  }

  /** An entry is pushed back only when its stored gain was stale, and is fresh when pushed back:
      between two placements this can happen only once per entry. */
  lemma RepushFreshens(m: Problem, p: Placement, heap: set<Entry>, x: Entry, y: Entry, next: Entry)
    requires Fits(m, p) && x in heap && IsHeap(m, heap) && SameItem(x, y)
    requires Fresh(m, p, y) && EntryLe(x, next) && -y.prio < -next.prio
    ensures IsHeap(m, heap - {x} + {y})
    ensures |heap - {x} + {y}| <= |heap|
    ensures |Stale(m, p, heap - {x} + {y})| < |Stale(m, p, heap)|
  {
    assert !Fresh(m, p, x);
    HeapSwap(m, heap, x, y);
    StaleSwap(m, p, heap, x, y);
    var before := Stale(m, p, heap);
    assert x in before;
  }

  // ---- one placement ----

  datatype Point = Point(host: nat, dgpu: nat, total: real)

  function Put(p: Placement, l: nat, e: nat, tier: Tier): (q: Placement)
    requires l < |p.hs| == |p.ds|
    ensures |q.hs| == |q.ds| == |p.hs|
  {
    if tier == Host then Placement(p.hs[l := p.hs[l] + {e}], p.ds) else Placement(p.hs, p.ds[l := p.ds[l] + {e}])
  }

  lemma {:induction false} SizesUpdate(sets: seq<set<nat>>, l: nat, e: nat)
    requires l < |sets| && e !in sets[l]
    ensures Sizes(sets[l := sets[l] + {e}]) == Sizes(sets) + 1
  {
    var sets' := sets[l := sets[l] + {e}];
    if l == |sets| - 1 {
      assert sets'[..l] == sets[..l];
    } else {
      SizesUpdate(sets[..|sets| - 1], l, e);
      assert sets'[..|sets| - 1] == sets[..|sets| - 1][l := sets[l] + {e}];
    }
  }

  lemma {:induction false} CountMonotone(p: seq<nat>, a: set<nat>, b: set<nat>)
    requires a <= b
    ensures Count(p, a) <= Count(p, b)
  {
    if p != [] {
      CountMonotone(p[..|p| - 1], a, b);
    }
  }

  lemma {:induction false} CountsFit(p: seq<nat>, a: set<nat>, b: set<nat>, e: nat)
    requires a !! b && e !in a && e !in b
    ensures Count(p, a) + Count(p, b) + (if e in p then 1 else 0) <= |p|
  {
    if p != [] {
      var front := p[..|p| - 1];
      CountsFit(front, a, b, e);
      assert e in p <==> e in front || e == p[|p| - 1];
    }
  }

  lemma {:induction false} UsesAtMost(col: Column, e: nat, n: nat)
    requires n <= |col| && DistinctColumn(col)
    ensures |Uses(col, e, n)| <= n
  {
    if n > 0 {
      UsesStep(col, e, n);
      UsesAtMost(col, e, n - 1);
      assert |Uses(col, e, n)| <= |Uses(col, e, n - 1)| + 1;
    }
  }

  /** Every listed token picks the expert. */
  lemma {:induction false} UsesPick(col: Column, e: nat, n: nat, j: nat)
    requires n <= |col| && DistinctColumn(col) && j < |Uses(col, e, n)|
    ensures e in col[Uses(col, e, n)[j]]
  {
    UsesStep(col, e, n);
    if j < |Uses(col, e, n - 1)| {
      UsesPick(col, e, n - 1, j);
    }
  }

  lemma StepRises(cost: Cost, dgpu: bool, rise: real, a: nat, b: nat, a': nat, b': nat, tier: Tier)
    requires RisesAtMost(cost, dgpu, rise) && a <= a' && b <= b' && a' + b' < TOPK
    requires tier == Dgpu || b' > 0 ==> dgpu
    ensures StepSaving(cost, a', b', tier) <= StepSaving(cost, a, b, tier) + rise
  {
  }

  /** With more picks placed, a token that picks `e` saves at most `rise` more. */
  lemma PickRises(cost: Cost, dgpu: bool, rise: real, p: seq<nat>, h: set<nat>, d: set<nat>, h': set<nat>, d': set<nat>,
                  e: nat, tier: Tier)
    requires RisesAtMost(cost, dgpu, rise) && h <= h' && d <= d' && h' !! d' && e !in h' && e !in d'
    requires (tier == Dgpu ==> dgpu) && (!dgpu ==> d' == {}) && |p| <= TOPK && e in p
    ensures StepSaving(cost, Count(p, h'), Count(p, d'), tier) <=
            StepSaving(cost, Count(p, h), Count(p, d), tier) + rise
  {
    CountMonotone(p, h, h');
    CountMonotone(p, d, d');
    CountsFit(p, h', d', e);
    CountNone(p);
    StepRises(cost, dgpu, rise, Count(p, h), Count(p, d), Count(p, h'), Count(p, d'), tier);
  }

  /** `rise`, `k` times. */
  function Rises(rise: real, k: nat): real {
    if k == 0 then 0.0 else Rises(rise, k - 1) + rise
  }

  lemma {:induction false} RisesBound(rise: real, k: nat, n: nat)
    requires rise >= 0.0 && k <= n
    ensures Rises(rise, k) <= rise * n as real
    decreases n
  {
    if n > 0 {
      RisesBound(rise, if k == 0 then 0 else k - 1, n - 1);
      assert rise * n as real == rise * (n - 1) as real + rise;
    }
  }

  lemma {:induction false} SavingsRise(cost: Cost, dgpu: bool, rise: real, col: Column, h: set<nat>, d: set<nat>,
                                       h': set<nat>, d': set<nat>, e: nat, tier: Tier, at: seq<nat>)
    requires RisesAtMost(cost, dgpu, rise) && h <= h' && d <= d' && h' !! d' && e !in h' && e !in d'
    requires (tier == Dgpu ==> dgpu) && (!dgpu ==> d' == {})
    requires forall j :: 0 <= j < |at| ==> at[j] < |col| && |col[at[j]]| <= TOPK && e in col[at[j]]
    ensures Savings(cost, col, h', d', tier, at) <= Savings(cost, col, h, d, tier, at) + Rises(rise, |at|)
  {
    if at != [] {
      var front, p := at[..|at| - 1], col[at[|at| - 1]];
      SavingsRise(cost, dgpu, rise, col, h, d, h', d', e, tier, front);
      PickRises(cost, dgpu, rise, p, h, d, h', d', e, tier);
    }
  }

  lemma MeanRise(s: real, s': real, rise: real, k: nat, n: nat)
    requires s' <= s + Rises(rise, k) && rise >= 0.0 && k <= n && n > 0
    ensures s' / n as real <= s / n as real + rise
  {
    RisesBound(rise, k, n);
    DivMonotone(s', s + rise * n as real, n as real);
    DivAdd(s, rise, n as real);
  }

  lemma DivAdd(s: real, rise: real, n: real)
    requires n > 0.0
    ensures (s + rise * n) / n == s / n + rise
  {
  }

  lemma DivMonotone(a: real, b: real, n: real)
    requires n > 0.0 && a <= b
    ensures a / n <= b / n
  {
  }

  /** A candidate's gain is at most `rise` more than it was at any earlier placement. */
  lemma GainRises(m: Problem, q: Placement, p: Placement, l: nat, e: nat, tier: Tier, rise: real)
    requires Steady(m, rise) && Fits(m, q) && Fits(m, p) && Before(q, p) && WithinBudget(m, p) && Open(m, p, l, e, tier)
    ensures GainNow(m, p, l, e, tier) <= GainNow(m, q, l, e, tier) + rise
  {
    var col := m.picks[l];
    var at := Uses(col, e, m.n);
    UsesAtMost(col, e, m.n);
    forall j | 0 <= j < |at|
      ensures e in col[at[j]]
    {
      UsesPick(col, e, m.n, j);
    }
    SavingsRise(m.cost, m.allowDgpu, rise, col, q.hs[l], q.ds[l], p.hs[l], p.ds[l], e, tier, at);
    MeanRise(Savings(m.cost, col, q.hs[l], q.ds[l], tier, at), Savings(m.cost, col, p.hs[l], p.ds[l], tier, at),
             rise, |at|, m.n);
  }

  /** The entry that survives the re-push test is within `SLACK` and the rise of every candidate's gain. */
  lemma TopIsBest(m: Problem, p: Placement, heap: set<Entry>, x: Entry, g: real, rise: real)
    requires Fits(m, p) && WithinBudget(m, p) && Covers(m, p, heap) && IsHeap(m, heap) && x in heap
    requires m.n > 0 && g == GainNow(m, p, x.l, x.e, x.tier)
    requires forall y :: y in heap - {x} ==> -y.prio <= g + SLACK
    requires Steady(m, rise)
    ensures NoneAbove(m, p, g + SLACK + rise)
  {
    forall l, e, tier | Open(m, p, l, e, tier)
      ensures GainNow(m, p, l, e, tier) <= g + SLACK + rise
    {
      var y :| y in heap && Bounds(m, p, y, l, e, tier);
      var q :| Before(q, p) && WasFresh(m, q, y);
      GainRises(m, q, p, l, e, tier, rise);
      assert y != x ==> y in heap - {x};
    }
  }

  lemma OpenBefore(m: Problem, p: Placement, l: nat, e: nat, tier: Tier, l': nat, e': nat, tier': Tier)
    requires Fits(m, p) && l < |m.picks| && e !in p.hs[l] && e !in p.ds[l]
    requires Open(m, Put(p, l, e, tier), l', e', tier')
    ensures Open(m, p, l', e', tier') && (l', e') != (l, e)
  {
    SizesUpdate(p.hs, l, e);
  }

  lemma CoversRefreshed(m: Problem, p: Placement, heap: set<Entry>, x: Entry, y: Entry)
    requires Fits(m, p) && Covers(m, p, heap) && SameItem(x, y) && Fresh(m, p, y)
    ensures Covers(m, p, heap - {x} + {y})
  {
    FreshBounds(m, p, y);
    forall l, e, tier | Open(m, p, l, e, tier)
      ensures Queued(m, p, heap - {x} + {y}, l, e, tier)
    {
      var z :| z in heap && Bounds(m, p, z, l, e, tier);
      if z == x {
        assert y in heap - {x} + {y} && Bounds(m, p, y, l, e, tier);
      } else {
        assert z in heap - {x} + {y} && Bounds(m, p, z, l, e, tier);
      }
    }
  }

  lemma CoversPut(m: Problem, p: Placement, heap: set<Entry>, x: Entry)
    requires Fits(m, p) && Covers(m, p, heap) && x.l < |m.picks| && x.e !in p.hs[x.l] && x.e !in p.ds[x.l]
    ensures Covers(m, Put(p, x.l, x.e, x.tier), heap - {x})
  {
    var q := Put(p, x.l, x.e, x.tier);
    forall l, e, tier | Open(m, q, l, e, tier)
      ensures Queued(m, q, heap - {x}, l, e, tier)
    {
      OpenBefore(m, p, x.l, x.e, x.tier, l, e, tier);
      var y :| y in heap && Bounds(m, p, y, l, e, tier);
      var p0 :| Before(p0, p) && WasFresh(m, p0, y);
      assert Before(p0, q);
      assert y in heap - {x} && Bounds(m, q, y, l, e, tier);
    }
  }

  // ---- the trajectory ----

  /** Budgets hold, no expert is on both tiers, and the dGPU tier stays empty unless it is used. */
  ghost predicate WithinBudget(m: Problem, p: Placement) {
    && |p.hs| == |p.ds| && Sizes(p.hs) <= m.hostSlots
    && (forall l :: 0 <= l < |p.hs| ==> |p.ds[l]| <= m.dgpuSlots && p.hs[l] !! p.ds[l])
    && (!m.allowDgpu ==> forall l :: 0 <= l < |p.ds| ==> p.ds[l] == {})
  }

  /** A trajectory point reports its placement: slots used, and what `evaluate` would say. */
  ghost predicate Reports(m: Problem, p: Placement, at: Point)
    requires Fits(m, p)
  {
    && at.host == Sizes(p.hs) && at.dgpu == Sizes(p.ds)
    && (m.n > 0 && DistinctPicks(m.picks) ==> at.total == Evaluate(m.cost, m.picks, m.n, p.hs, p.ds, |m.picks|))
  }

  /** From `p` an expert is placed; the total drops by what it saves: more than `minGain` and as much as
      any candidate up to `SLACK` and the rise of the cost. */
  ghost predicate Chosen(m: Problem, p: Placement, q: Placement, a: Point, b: Point, l: nat, e: nat, tier: Tier)
    requires Fits(m, p)
  {
    && Open(m, p, l, e, tier) && q == Put(p, l, e, tier)
    && a.total - b.total == GainNow(m, p, l, e, tier) > m.minGain
    && forall rise :: Steady(m, rise) ==> NoneAbove(m, p, GainNow(m, p, l, e, tier) + SLACK + rise)
  }

  ghost predicate Follows(m: Problem, p: Placement, q: Placement, a: Point, b: Point)
    requires Fits(m, p)
  {
    exists l, e, tier :: Chosen(m, p, q, a, b, l, e, tier)
  }

  /** `steps[k]` is what point `k` of the trajectory reports. */
  ghost predicate AtPoint(m: Problem, traj: seq<Point>, steps: seq<Placement>, k: nat)
    requires k < |traj| == |steps|
  {
    && Fits(m, steps[k]) && WithinBudget(m, steps[k]) && Reports(m, steps[k], traj[k])
    && (k > 0 ==> Fits(m, steps[k - 1]) && Follows(m, steps[k - 1], steps[k], traj[k - 1], traj[k]))
  }

  ghost predicate Trajectory(m: Problem, traj: seq<Point>, steps: seq<Placement>) {
    && |traj| == |steps| > 0 && steps[0] == Nothing(|m.picks|)
    && forall k :: 0 <= k < |traj| ==> AtPoint(m, traj, steps, k)
  }

  /** `empty()`. */
  function Nothing(layers: nat): Placement {
    Placement(seq(layers, _ => {}), seq(layers, _ => {}))
  }

  lemma TrajectoryExtends(m: Problem, traj: seq<Point>, steps: seq<Placement>, at: Point, q: Placement)
    requires Trajectory(m, traj, steps) && AtPoint(m, traj, steps, |steps| - 1)
    requires Fits(m, q) && WithinBudget(m, q) && Reports(m, q, at)
    requires Follows(m, steps[|steps| - 1], q, traj[|traj| - 1], at)
    ensures Trajectory(m, traj + [at], steps + [q])
  {
    forall k | 0 <= k < |traj| + 1
      ensures AtPoint(m, traj + [at], steps + [q], k)
    {
      if k < |traj| {
        assert AtPoint(m, traj, steps, k);
      }
    }
  }

  /** What a placement does to budgets and to the reported total. */
  lemma PutReports(m: Problem, p: Placement, at: Point, l: nat, e: nat, tier: Tier, g: real, b: Point)
    requires Fits(m, p) && Reports(m, p, at) && WithinBudget(m, p) && Open(m, p, l, e, tier)
    requires g == GainNow(m, p, l, e, tier)
    requires b.host == Sizes(Put(p, l, e, tier).hs) && b.dgpu == Sizes(Put(p, l, e, tier).ds) && b.total == at.total - g
    ensures Reports(m, Put(p, l, e, tier), b) && WithinBudget(m, Put(p, l, e, tier))
  {
    SizesUpdate(p.hs, l, e);
    if DistinctPicks(m.picks) {
      PlacementDrops(m.cost, m.picks, m.n, p.hs, p.ds, l, e, tier);
      assert p.hs[l := p.hs[l]] == p.hs && p.ds[l := p.ds[l]] == p.ds;
    }
  }

  // ---- the counters the loop keeps ----

  function Sum(s: seq<nat>): nat {
    if s == [] then 0 else Sum(s[..|s| - 1]) + s[|s| - 1]
  }

  datatype Counters = Counters(nh: seq<seq<nat>>, nd: seq<seq<nat>>, placed: set<(nat, nat)>, usedH: nat,
                               usedD: seq<nat>)

  ghost predicate PlacedIs(p: Placement, placed: set<(nat, nat)>) {
    |p.hs| == |p.ds| && forall l: nat, e: nat :: (l, e) in placed <==> l < |p.hs| && (e in p.hs[l] || e in p.ds[l])
  }

  ghost predicate UsedIs(p: Placement, usedH: nat, usedD: seq<nat>) {
    usedH == Sizes(p.hs) && |usedD| == |p.ds| && forall l :: 0 <= l < |usedD| ==> usedD[l] == |p.ds[l]|
  }

  ghost predicate Keeps(m: Problem, p: Placement, c: Counters) {
    && Counted(m.picks, p.hs, c.nh) && Counted(m.picks, p.ds, c.nd)
    && PlacedIs(p, c.placed) && UsedIs(p, c.usedH, c.usedD)
  }

  lemma {:induction false} SumIsSizes(used: seq<nat>, sets: seq<set<nat>>)
    requires |used| == |sets| && forall l :: 0 <= l < |used| ==> used[l] == |sets[l]|
    ensures Sum(used) == Sizes(sets)
  {
    if used != [] {
      SumIsSizes(used[..|used| - 1], sets[..|sets| - 1]);
    }
  }

  lemma UsedPut(p: Placement, c: Counters, l: nat, e: nat, tier: Tier)
    requires |p.hs| == |p.ds| && UsedIs(p, c.usedH, c.usedD) && l < |p.hs| && e !in p.hs[l] && e !in p.ds[l]
    ensures UsedIs(Put(p, l, e, tier), if tier == Host then c.usedH + 1 else c.usedH,
                   if tier == Dgpu then c.usedD[l := c.usedD[l] + 1] else c.usedD)
  {
    SizesUpdate(p.hs, l, e);
  }

  lemma PlacedPut(p: Placement, placed: set<(nat, nat)>, l: nat, e: nat, tier: Tier)
    requires PlacedIs(p, placed) && l < |p.hs|
    ensures PlacedIs(Put(p, l, e, tier), placed + {(l, e)})
  {
  }

  lemma CountedPut(picks: Picks, sets: seq<set<nat>>, counts: seq<seq<nat>>, l: nat, e: nat, row: seq<nat>)
    requires Counted(picks, sets, counts) && l < |picks| && CountsOf(picks[l], sets[l] + {e}, row)
    ensures Counted(picks, sets[l := sets[l] + {e}], counts[l := row])
  {
  }

  /** The counter updates of one placement. */
  method Place(m: Problem, ghost p: Placement, c: Counters, l: nat, e: nat, tier: Tier, at: seq<nat>)
    returns (c': Counters)
    requires Fits(m, p) && l < |m.picks| && Keeps(m, p, c) && (l, e) !in c.placed && at == Uses(m.picks[l], e, m.n)
    ensures Keeps(m, Put(p, l, e, tier), c')
  {
    UsedPut(p, c, l, e, tier);
    PlacedPut(p, c.placed, l, e, tier);
    if tier == Host {
      var row := Bump(c.nh[l], at);
      BumpIsCount(m.picks[l], p.hs[l], e, c.nh[l], row);
      CountedPut(m.picks, p.hs, c.nh, l, e, row);
      c' := c.(nh := c.nh[l := row], placed := c.placed + {(l, e)}, usedH := c.usedH + 1);
    } else {
      var row := Bump(c.nd[l], at);
      BumpIsCount(m.picks[l], p.ds[l], e, c.nd[l], row);
      CountedPut(m.picks, p.ds, c.nd, l, e, row);
      c' := c.(nd := c.nd[l := row], placed := c.placed + {(l, e)}, usedD := c.usedD[l := c.usedD[l] + 1]);
    }
  }

  /** `gain` as the counters give it. */
  method CurrentGain(m: Problem, ghost p: Placement, c: Counters, uses: map<(nat, nat), seq<nat>>, l: nat, e: nat,
                     tier: Tier)
    returns (g: real)
    requires Fits(m, p) && Keeps(m, p, c) && AllListed(m.picks, uses, m.n) && l < |m.picks| && m.n > 0
    ensures g == GainNow(m, p, l, e, tier)
  {
    assert LayerListed(m.picks, uses, l, m.n);
    g := Gain(m.cost, m.n, m.picks[l], c.nh[l], c.nd[l], Listed(uses, l, e), tier, p.hs[l], p.ds[l]);
  }

  // ---- runs ----

  /** What one turn of the loop starts from. */
  datatype State = State(p: Placement, heap: set<Entry>)

  ghost predicate Top(heap: set<Entry>, x: Entry) {
    x in heap && forall y :: y in heap ==> EntryLe(x, y)
  }

  /** Another entry's stored gain is above `x`'s current one by more than `SLACK`. */
  ghost predicate Beaten(m: Problem, s: State, x: Entry)
    requires Fits(m, s.p) && m.n > 0 && x.l < |m.picks|
  {
    exists y :: y in s.heap && y != x && GainNow(m, s.p, x.l, x.e, x.tier) < -y.prio - SLACK
  }

  /** The popped entry is placed. */
  ghost predicate Places(m: Problem, s: State, x: Entry)
    requires Fits(m, s.p)
  {
    && Top(s.heap, x) && Open(m, s.p, x.l, x.e, x.tier) && !Beaten(m, s, x)
    && GainNow(m, s.p, x.l, x.e, x.tier) > m.minGain
  }

  /** One turn: the popped entry is dropped, pushed back with its current gain, or placed. */
  ghost predicate TurnOn(m: Problem, s: State, t: State, x: Entry) {
    && Fits(m, s.p) && Top(s.heap, x)
    && if !Open(m, s.p, x.l, x.e, x.tier) then t == State(s.p, s.heap - {x})
       else if Beaten(m, s, x)
       then t == State(s.p, s.heap - {x} + {x.(prio := -GainNow(m, s.p, x.l, x.e, x.tier))})
       else Places(m, s, x) && t == State(Put(s.p, x.l, x.e, x.tier), s.heap - {x})
  }

  ghost predicate Turn(m: Problem, s: State, t: State) {
    exists x :: TurnOn(m, s, t, x)
  }

  /** Nothing placed, and every expert that is picked has its fresh entries. */
  ghost predicate Starts(m: Problem, s: State) {
    && s.p == Nothing(|m.picks|) && Fits(m, s.p)
    && forall x :: x in s.heap <==> IsItem(m, x) && Fresh(m, s.p, x)
  }

  ghost predicate LazyRun(m: Problem, run: seq<State>) {
    run != [] && Starts(m, run[0]) && forall k :: 0 <= k < |run| - 1 ==> Turn(m, run[k], run[k + 1])
  }

  /** The loop ends: the heap is empty, or the popped entry saves too little. */
  ghost predicate Stops(m: Problem, s: State) {
    Fits(m, s.p) && (s.heap != {} ==> exists x :: Refused(m, s, x))
  }

  ghost predicate Refused(m: Problem, s: State, x: Entry)
    requires Fits(m, s.p)
  {
    && Top(s.heap, x) && Open(m, s.p, x.l, x.e, x.tier) && !Beaten(m, s, x)
    && GainNow(m, s.p, x.l, x.e, x.tier) <= m.minGain
  }

  /** The placements a run goes through. */
  ghost function Placements(run: seq<State>): (steps: seq<Placement>)
    ensures run != [] ==> steps != [] && steps[|steps| - 1] == run[|run| - 1].p
  {
    if |run| == 0 then []
    else
      var (steps, p) := (Placements(run[..|run| - 1]), run[|run| - 1].p);
      if steps != [] && steps[|steps| - 1] == p then steps else steps + [p]
  }

  lemma RunGoesOn(m: Problem, run: seq<State>, t: State, x: Entry)
    requires LazyRun(m, run) && TurnOn(m, run[|run| - 1], t, x)
    ensures LazyRun(m, run + [t])
    ensures Placements(run + [t]) == if t.p == run[|run| - 1].p then Placements(run) else Placements(run) + [t.p]
  {
    var longer := run + [t];
    forall k | 0 <= k < |run|
      ensures Turn(m, longer[k], longer[k + 1])
    {
      if k < |run| - 1 {
        assert Turn(m, run[k], run[k + 1]);
      } else {
        assert longer[k] == run[k] && longer[k + 1] == t;
      }
    }
    PlacementsNext(run, t);
  }

  lemma PlacementsNext(run: seq<State>, t: State)
    requires run != []
    ensures Placements(run + [t]) == if t.p == run[|run| - 1].p then Placements(run) else Placements(run) + [t.p]
  {
    var longer := run + [t];
    assert longer[..|longer| - 1] == run && longer[|longer| - 1] == t;
    assert Placements(longer) == Placements(run) + [t.p] ||
           (Placements(longer) == Placements(run) && Placements(run)[|Placements(run)| - 1] == t.p);
  }

  /** Some run gets to `s`. */
  ghost predicate Reached(m: Problem, s: State) {
    exists run :: LazyRun(m, run) && run[|run| - 1] == s
  }

  lemma ReachedNext(m: Problem, s: State, t: State, x: Entry)
    requires Reached(m, s) && TurnOn(m, s, t, x)
    ensures Reached(m, t)
  {
    var run :| LazyRun(m, run) && run[|run| - 1] == s;
    RunGoesOn(m, run, t, x);
    assert (run + [t])[|run + [t]| - 1] == t;
  }

  /** No run places an expert that saves less than some candidate, up to `SLACK`. */
  ghost predicate PlacesBest(m: Problem) {
    forall s, x :: Reached(m, s) && Fits(m, s.p) && Places(m, s, x) ==>
      NoneAbove(m, s.p, GainNow(m, s.p, x.l, x.e, x.tier) + SLACK)
  }

  /** Budgets hold, and no candidate is missing from the heap. */
  ghost predicate Sound(m: Problem, s: State) {
    Fits(m, s.p) && WithinBudget(m, s.p) && IsHeap(m, s.heap) && Covers(m, s.p, s.heap)
  }

  lemma StartIsSound(m: Problem, s: State)
    requires Starts(m, s)
    ensures Sound(m, s)
  {
    NothingReports(m);
    forall l, e, tier | Open(m, s.p, l, e, tier)
      ensures Queued(m, s.p, s.heap, l, e, tier)
    {
      var x := Entry(-GainNow(m, s.p, l, e, tier), l, e, tier);
      FreshBounds(m, s.p, x);
      assert x in s.heap;
    }
  }

  lemma PutWithinBudget(m: Problem, p: Placement, l: nat, e: nat, tier: Tier)
    requires Fits(m, p) && WithinBudget(m, p) && Open(m, p, l, e, tier)
    ensures WithinBudget(m, Put(p, l, e, tier))
  {
    SizesUpdate(p.hs, l, e);
  }

  lemma TurnKeepsSound(m: Problem, s: State, t: State, x: Entry)
    requires Sound(m, s) && TurnOn(m, s, t, x)
    ensures Sound(m, t)
  {
    if !Open(m, s.p, x.l, x.e, x.tier) {
      DropCovers(m, s.p, s.heap, x);
    } else if Beaten(m, s, x) {
      var y := x.(prio := -GainNow(m, s.p, x.l, x.e, x.tier));
      HeapSwap(m, s.heap, x, y);
      CoversRefreshed(m, s.p, s.heap, x, y);
    } else {
      PutWithinBudget(m, s.p, x.l, x.e, x.tier);
      CoversPut(m, s.p, s.heap, x);
    }
  }

  lemma DropCovers(m: Problem, p: Placement, heap: set<Entry>, x: Entry)
    requires Fits(m, p) && Covers(m, p, heap) && !Open(m, p, x.l, x.e, x.tier)
    ensures Covers(m, p, heap - {x})
  {
    forall l, e, tier | Open(m, p, l, e, tier)
      ensures Queued(m, p, heap - {x}, l, e, tier)
    {
      var y :| y in heap && Bounds(m, p, y, l, e, tier);
      assert y in heap - {x};
    }
  }

  lemma {:induction false} RunIsSound(m: Problem, run: seq<State>)
    requires LazyRun(m, run)
    ensures Sound(m, run[|run| - 1])
  {
    if |run| == 1 {
      StartIsSound(m, run[0]);
    } else {
      var front := run[..|run| - 1];
      assert forall k :: 0 <= k < |front| - 1 ==> Turn(m, front[k], front[k + 1]) by {
        forall k | 0 <= k < |front| - 1
          ensures Turn(m, front[k], front[k + 1])
        {
          assert Turn(m, run[k], run[k + 1]);
        }
      }
      RunIsSound(m, front);
      assert Turn(m, run[|run| - 2], run[|run| - 1]);
      var x :| TurnOn(m, run[|run| - 2], run[|run| - 1], x);
      TurnKeepsSound(m, run[|run| - 2], run[|run| - 1], x);
    }
  }

  /** Where savings do not rise, every placement of every run is a best one. */
  lemma SteadyPlacesBest(m: Problem)
    requires Steady(m, 0.0)
    ensures PlacesBest(m)
  {
    forall s, x | Reached(m, s) && Fits(m, s.p) && Places(m, s, x)
      ensures NoneAbove(m, s.p, GainNow(m, s.p, x.l, x.e, x.tier) + SLACK)
    {
      var run :| LazyRun(m, run) && run[|run| - 1] == s;
      RunIsSound(m, run);
      TopIsBest(m, s.p, s.heap, x, GainNow(m, s.p, x.l, x.e, x.tier), 0.0);
    }
  }

  // ---- the whole run ----

  /** Every entry is fresh, and every listed expert outside `todo` has its entries. */
  ghost predicate Pushed(m: Problem, p: Placement, uses: map<(nat, nat), seq<nat>>, todo: set<(nat, nat)>,
                         heap: set<Entry>)
    requires Fits(m, p)
  {
    && (forall x :: x in heap ==>
          Fresh(m, p, x) && (x.tier == Dgpu ==> m.allowDgpu) && (x.l, x.e) in uses && (x.l, x.e) !in todo)
    && (forall key, tier :: key in uses && key !in todo && (tier == Dgpu ==> m.allowDgpu) ==> HasEntry(heap, key, tier))
  }

  ghost predicate HasEntry(heap: set<Entry>, key: (nat, nat), tier: Tier) {
    exists x :: x in heap && x.l == key.0 && x.e == key.1 && x.tier == tier
  }

  lemma PushedIsHeap(m: Problem, p: Placement, uses: map<(nat, nat), seq<nat>>, heap: set<Entry>)
    requires Fits(m, p) && AllListed(m.picks, uses, m.n) && Pushed(m, p, uses, {}, heap)
    ensures IsHeap(m, heap) && Covers(m, p, heap)
  {
    forall x | x in heap
      ensures IsItem(m, x)
    {
      assert LayerListed(m.picks, uses, x.l, m.n);
    }
    forall l, e, tier | Open(m, p, l, e, tier)
      ensures Queued(m, p, heap, l, e, tier)
    {
      assert LayerListed(m.picks, uses, l, m.n);
      assert HasEntry(heap, (l, e), tier);
      var x :| x in heap && x.l == l && x.e == e && x.tier == tier;
      FreshBounds(m, p, x);
    }
  }

  lemma PushedIsAll(m: Problem, p: Placement, uses: map<(nat, nat), seq<nat>>, heap: set<Entry>)
    requires Fits(m, p) && AllListed(m.picks, uses, m.n) && Pushed(m, p, uses, {}, heap)
    ensures forall x :: x in heap <==> IsItem(m, x) && Fresh(m, p, x)
  {
    PushedIsHeap(m, p, uses, heap);
    forall x | IsItem(m, x) && Fresh(m, p, x)
      ensures x in heap
    {
      assert LayerListed(m.picks, uses, x.l, m.n);
      assert HasEntry(heap, (x.l, x.e), x.tier);
    }
  }

  lemma PushedStep(m: Problem, p: Placement, uses: map<(nat, nat), seq<nat>>, todo: set<(nat, nat)>, key: (nat, nat),
                   heap: set<Entry>, more: set<Entry>)
    requires Fits(m, p) && Pushed(m, p, uses, todo, heap) && key in todo && key in uses
    requires forall x :: x in more ==> Fresh(m, p, x) && (x.tier == Dgpu ==> m.allowDgpu) && (x.l, x.e) == key
    requires forall tier :: (tier == Dgpu ==> m.allowDgpu) ==> HasEntry(more, key, tier)
    ensures Pushed(m, p, uses, todo - {key}, heap + more)
  {
    forall k, tier | k in uses && k !in todo - {key} && (tier == Dgpu ==> m.allowDgpu)
      ensures HasEntry(heap + more, k, tier)
    {
      var part := if k == key then more else heap;
      assert HasEntry(part, k, tier);
      var x :| x in part && x.l == k.0 && x.e == k.1 && x.tier == tier;
      assert x in heap + more;
    }
  }

  /** The entries of one expert. */
  method EntriesOf(m: Problem, ghost p: Placement, c: Counters, uses: map<(nat, nat), seq<nat>>, key: (nat, nat))
    returns (more: set<Entry>)
    requires Fits(m, p) && Keeps(m, p, c) && AllListed(m.picks, uses, m.n) && key in uses
    ensures forall x :: x in more ==> Fresh(m, p, x) && (x.tier == Dgpu ==> m.allowDgpu) && (x.l, x.e) == key
    ensures forall tier :: (tier == Dgpu ==> m.allowDgpu) ==> HasEntry(more, key, tier)
  {
    var (l, e) := key;
    assert LayerListed(m.picks, uses, l, m.n) && Listed(uses, l, e) == uses[key];
    var g := CurrentGain(m, p, c, uses, l, e, Host);
    var x := Entry(-g, l, e, Host);
    more := {x};
    if m.allowDgpu {
      g := CurrentGain(m, p, c, uses, l, e, Dgpu);
      var y := Entry(-g, l, e, Dgpu);
      more := {x, y};
      assert y in more;
    }
    assert x in more;
  }

  method InitialHeap(m: Problem, ghost p: Placement, c: Counters, uses: map<(nat, nat), seq<nat>>)
    returns (heap: set<Entry>)
    requires Fits(m, p) && Keeps(m, p, c) && AllListed(m.picks, uses, m.n)
    ensures IsHeap(m, heap) && Covers(m, p, heap)
    ensures forall x :: x in heap <==> IsItem(m, x) && Fresh(m, p, x)
  {
    heap := {};
    var todo := uses.Keys;
    while todo != {}
      invariant todo <= uses.Keys && Pushed(m, p, uses, todo, heap)
    {
      var key :| key in todo;
      var more := EntriesOf(m, p, c, uses, key);
      PushedStep(m, p, uses, todo, key, heap, more);
      heap := heap + more;
      todo := todo - {key};
    }
    PushedIsHeap(m, p, uses, heap);
    PushedIsAll(m, p, uses, heap);
  }

  lemma EntryOrder()
    ensures PriorityQueue.Total(EntryLe) && PriorityQueue.Transitive(EntryLe)
  {
  }

  /** `heapq.heappop`. */
  method PopEntry(heap: set<Entry>) returns (top: Entry, rest: set<Entry>)
    requires heap != {}
    ensures top in heap && rest == heap - {top}
    ensures forall y :: y in heap ==> EntryLe(top, y)
  {
    EntryOrder();
    top, rest := PriorityQueue.PopSet(heap, EntryLe);
  }

  lemma {:induction false} SizesNone(none: seq<set<nat>>)
    requires forall l :: 0 <= l < |none| ==> none[l] == {}
    ensures Sizes(none) == 0
  {
    if none != [] {
      SizesNone(none[..|none| - 1]);
    }
  }

  lemma CountedNone(m: Problem, none: seq<set<nat>>, zeros: seq<seq<nat>>)
    requires Shaped(m.picks, m.n) && |none| == |zeros| == |m.picks|
    requires forall l :: 0 <= l < |none| ==> none[l] == {}
    requires forall l :: 0 <= l < |zeros| ==> zeros[l] == seq(m.n, _ => 0)
    ensures Counted(m.picks, none, zeros)
  {
    forall l, i | 0 <= l < |m.picks| && 0 <= i < m.n
      ensures Count(m.picks[l][i], {}) == 0
    {
      CountNone(m.picks[l][i]);
    }
    forall l | 0 <= l < |m.picks|
      ensures CountsOf(m.picks[l], none[l], zeros[l])
    {
    }
  }

  lemma NothingReports(m: Problem)
    requires Shaped(m.picks, m.n)
    ensures Reports(m, Nothing(|m.picks|), Point(0, 0, BaseTotal(m.cost, |m.picks|)))
    ensures WithinBudget(m, Nothing(|m.picks|))
  {
    var none := Nothing(|m.picks|).hs;
    SizesNone(none);
    if m.n > 0 {
      BaseIsEvaluate(m.cost, m.picks, m.n, none, |m.picks|);
    }
  }

  method Start(m: Problem) returns (c: Counters)
    requires Shaped(m.picks, m.n)
    ensures Keeps(m, Nothing(|m.picks|), c)
  {
    var zeros: seq<seq<nat>> := seq(|m.picks|, _ => seq(m.n, _ => 0));
    c := Counters(zeros, zeros, {}, 0, seq(|m.picks|, _ => 0));
    ghost var none := Nothing(|m.picks|).hs;
    CountedNone(m, none, zeros);
    SizesNone(none);
  }

  /** What the loop has established: the trajectory so far, and that no candidate is missing from the heap. */
  ghost predicate Running(m: Problem, p: Placement, c: Counters, heap: set<Entry>, traj: seq<Point>,
                          steps: seq<Placement>)
  {
    && Trajectory(m, traj, steps) && AtPoint(m, traj, steps, |steps| - 1) && steps[|steps| - 1] == p
    && Fits(m, p) && Keeps(m, p, c) && IsHeap(m, heap) && Covers(m, p, heap)
  }

  lemma LastPoint(m: Problem, p: Placement, c: Counters, heap: set<Entry>, traj: seq<Point>, steps: seq<Placement>)
    requires Running(m, p, c, heap, traj, steps)
    ensures Fits(m, p) && WithinBudget(m, p) && Reports(m, p, traj[|traj| - 1])
  {
  }

  lemma FollowsNow(m: Problem, p: Placement, a: Point, b: Point, x: Entry, g: real)
    requires Fits(m, p) && Open(m, p, x.l, x.e, x.tier) && g == GainNow(m, p, x.l, x.e, x.tier) > m.minGain
    requires forall rise :: Steady(m, rise) ==> NoneAbove(m, p, g + SLACK + rise)
    requires b.total == a.total - g
    ensures Follows(m, p, Put(p, x.l, x.e, x.tier), a, b)
  {
    assert Chosen(m, p, Put(p, x.l, x.e, x.tier), a, b, x.l, x.e, x.tier);
  }

  /** A placement keeps the loop going. */
  lemma PlacementStep(m: Problem, p: Placement, c: Counters, heap: set<Entry>, traj: seq<Point>, steps: seq<Placement>,
                      x: Entry, g: real, c': Counters, at: Point)
    requires Running(m, p, c, heap, traj, steps) && x in heap && Open(m, p, x.l, x.e, x.tier)
    requires g == GainNow(m, p, x.l, x.e, x.tier) > m.minGain
    requires forall rise :: Steady(m, rise) ==> NoneAbove(m, p, g + SLACK + rise)
    requires Keeps(m, Put(p, x.l, x.e, x.tier), c')
    requires at == Point(c'.usedH, Sum(c'.usedD), traj[|traj| - 1].total - g)
    ensures Running(m, Put(p, x.l, x.e, x.tier), c', heap - {x}, traj + [at], steps + [Put(p, x.l, x.e, x.tier)])
  {
    var q, last := Put(p, x.l, x.e, x.tier), traj[|traj| - 1];
    LastPoint(m, p, c, heap, traj, steps);
    SumIsSizes(c'.usedD, q.ds);
    PutReports(m, p, last, x.l, x.e, x.tier, g, at);
    FollowsNow(m, p, last, at, x, g);
    TrajectoryExtends(m, traj, steps, at, q);
    CoversPut(m, p, heap, x);
  }

  /** Can this entry still be placed?  If not, it is dropped for good. */
  method Placeable(m: Problem, ghost p: Placement, c: Counters, x: Entry) returns (ok: bool)
    requires Fits(m, p) && Keeps(m, p, c) && IsItem(m, x)
    ensures ok <==> Open(m, p, x.l, x.e, x.tier)
  {
    ok := (x.l, x.e) !in c.placed && !(x.tier == Host && c.usedH >= m.hostSlots) &&
        !(x.tier == Dgpu && c.usedD[x.l] >= m.dgpuSlots);
  }

  lemma DropStep(m: Problem, p: Placement, c: Counters, heap: set<Entry>, traj: seq<Point>, steps: seq<Placement>,
                 x: Entry)
    requires Running(m, p, c, heap, traj, steps) && x in heap && !Open(m, p, x.l, x.e, x.tier)
    ensures Running(m, p, c, heap - {x}, traj, steps) && |heap - {x}| < |heap|
  {
  }

  /** `x` goes back with its current gain. */
  ghost predicate Repushed(m: Problem, p: Placement, heap: set<Entry>, x: Entry, heap': set<Entry>)
    requires Fits(m, p) && m.n > 0 && x.l < |m.picks|
  {
    && Beaten(m, State(p, heap), x) && heap' == heap - {x} + {x.(prio := -GainNow(m, p, x.l, x.e, x.tier))}
    && IsHeap(m, heap') && Covers(m, p, heap')
  }

  /** Is the popped entry's gain still the best one on record?  If not it goes back with its current gain. */
  method Outdated(m: Problem, ghost p: Placement, heap: set<Entry>, top: Entry, rest: set<Entry>, g: real)
    returns (again: bool, heap': set<Entry>)
    requires Fits(m, p) && IsHeap(m, heap) && Covers(m, p, heap) && top in heap && rest == heap - {top}
    requires Top(heap, top) && Fresh(m, p, top.(prio := -g))
    ensures again ==> Repushed(m, p, heap, top, heap') && |heap'| <= |heap|
    ensures again ==> |Stale(m, p, heap')| < |Stale(m, p, heap)|
    ensures !again ==> !Beaten(m, State(p, heap), top) && heap' == rest
    ensures !again ==> forall y :: y in rest ==> -y.prio <= g + SLACK
  {
    again, heap' := false, rest;
    if rest != {} {
      var next, _ := PopEntry(rest);
      if g < -next.prio - SLACK {
        Overtaken(m, p, heap, top, next, g);
        OvertakenFewer(m, p, heap, top, top.(prio := -g), next, g);
        again, heap' := true, rest + {top.(prio := -g)};
      } else {
        NotOvertaken(m, p, heap, top, next, g);
      }
    } else {
      assert forall y :: y in heap && y != top ==> y in rest;
    }
  }

  lemma Overtaken(m: Problem, p: Placement, heap: set<Entry>, x: Entry, next: Entry, g: real)
    requires Fits(m, p) && IsHeap(m, heap) && Covers(m, p, heap) && Top(heap, x) && Fresh(m, p, x.(prio := -g))
    requires next in heap - {x} && g < -next.prio - SLACK
    ensures Repushed(m, p, heap, x, heap - {x} + {x.(prio := -g)})
  {
    HeapSwap(m, heap, x, x.(prio := -g));
    CoversRefreshed(m, p, heap, x, x.(prio := -g));
    OvertakenBeaten(m, p, heap, x, next, g);
  }

  lemma OvertakenFewer(m: Problem, p: Placement, heap: set<Entry>, x: Entry, y: Entry, next: Entry, g: real)
    requires Fits(m, p) && IsHeap(m, heap) && Top(heap, x) && y == x.(prio := -g) && Fresh(m, p, y)
    requires next in heap - {x} && g < -next.prio - SLACK
    ensures |heap - {x} + {y}| <= |heap|
    ensures |Stale(m, p, heap - {x} + {y})| < |Stale(m, p, heap)|
  {
    RepushFreshens(m, p, heap, x, y, next);
  }

  lemma OvertakenBeaten(m: Problem, p: Placement, heap: set<Entry>, x: Entry, next: Entry, g: real)
    requires Fits(m, p) && Fresh(m, p, x.(prio := -g)) && next in heap - {x} && g < -next.prio - SLACK
    ensures Beaten(m, State(p, heap), x) && g == GainNow(m, p, x.l, x.e, x.tier)
  {
  }

  lemma NotOvertaken(m: Problem, p: Placement, heap: set<Entry>, x: Entry, next: Entry, g: real)
    requires Fits(m, p) && Fresh(m, p, x.(prio := -g)) && Top(heap - {x}, next) && g >= -next.prio - SLACK
    ensures !Beaten(m, State(p, heap), x) && forall y :: y in heap - {x} ==> -y.prio <= g + SLACK
  {
    forall y | y in heap - {x}
      ensures -y.prio <= g + SLACK
    {
      assert EntryLe(next, y);
    }
  }

  /** `run` has got to `s` through the placements `steps`. */
  ghost predicate Behind(m: Problem, run: seq<State>, s: State, steps: seq<Placement>) {
    LazyRun(m, run) && run[|run| - 1] == s && Placements(run) == steps
  }

  lemma BehindNext(m: Problem, run: seq<State>, s: State, t: State, steps: seq<Placement>, x: Entry)
    returns (run': seq<State>)
    requires Behind(m, run, s, steps) && TurnOn(m, s, t, x) && t.p == s.p
    ensures Behind(m, run', t, steps)
  {
    RunGoesOn(m, run, t, x);
    run' := run + [t];
  }

  /** The loop invariant. */
  ghost predicate Going(m: Problem, p: Placement, c: Counters, heap: set<Entry>, traj: seq<Point>,
                        steps: seq<Placement>, run: seq<State>)
  {
    Running(m, p, c, heap, traj, steps) && Behind(m, run, State(p, heap), steps)
  }

  lemma DropGoes(m: Problem, p: Placement, c: Counters, heap: set<Entry>, traj: seq<Point>, steps: seq<Placement>,
                 run: seq<State>, x: Entry)
    returns (run': seq<State>)
    requires Going(m, p, c, heap, traj, steps, run) && Top(heap, x) && !Open(m, p, x.l, x.e, x.tier)
    ensures Going(m, p, c, heap - {x}, traj, steps, run') && |heap - {x}| < |heap|
  {
    DropStep(m, p, c, heap, traj, steps, x);
    run' := BehindNext(m, run, State(p, heap), State(p, heap - {x}), steps, x);
  }

  lemma RepushGoes(m: Problem, p: Placement, c: Counters, heap: set<Entry>, traj: seq<Point>, steps: seq<Placement>,
                   run: seq<State>, x: Entry, heap': set<Entry>)
    returns (run': seq<State>)
    requires Going(m, p, c, heap, traj, steps, run) && Top(heap, x) && Open(m, p, x.l, x.e, x.tier)
    requires Repushed(m, p, heap, x, heap')
    ensures Going(m, p, c, heap', traj, steps, run')
  {
    run' := BehindNext(m, run, State(p, heap), State(p, heap'), steps, x);
  }

  lemma PlacementGoes(m: Problem, p: Placement, c: Counters, heap: set<Entry>, traj: seq<Point>,
                      steps: seq<Placement>, run: seq<State>, x: Entry, g: real, c': Counters, at: Point)
    returns (run': seq<State>)
    requires Going(m, p, c, heap, traj, steps, run) && Places(m, State(p, heap), x)
    requires g == GainNow(m, p, x.l, x.e, x.tier)
    requires forall rise :: Steady(m, rise) ==> NoneAbove(m, p, g + SLACK + rise)
    requires Keeps(m, Put(p, x.l, x.e, x.tier), c')
    requires at == Point(c'.usedH, Sum(c'.usedD), traj[|traj| - 1].total - g)
    ensures var q := Put(p, x.l, x.e, x.tier); Going(m, q, c', heap - {x}, traj + [at], steps + [q], run')
  {
    PlacementStep(m, p, c, heap, traj, steps, x, g, c', at);
    run' := BehindPlaced(m, run, State(p, heap), steps, x);
  }

  lemma BehindPlaced(m: Problem, run: seq<State>, s: State, steps: seq<Placement>, x: Entry)
    returns (run': seq<State>)
    requires Behind(m, run, s, steps) && Fits(m, s.p) && Places(m, s, x)
    ensures var q := Put(s.p, x.l, x.e, x.tier); Behind(m, run', State(q, s.heap - {x}), steps + [q])
  {
    var t := State(Put(s.p, x.l, x.e, x.tier), s.heap - {x});
    assert x.e in t.p.hs[x.l] || x.e in t.p.ds[x.l];
    RunGoesOn(m, run, t, x);
    run' := run + [t];
  }

  lemma GoingStarts(m: Problem, p: Placement, c: Counters, heap: set<Entry>, traj: seq<Point>)
    requires Shaped(m.picks, m.n) && p == Nothing(|m.picks|) && Keeps(m, p, c) && IsHeap(m, heap) && Covers(m, p, heap)
    requires forall x :: x in heap <==> IsItem(m, x) && Fresh(m, p, x)
    requires traj == [Point(0, 0, BaseTotal(m.cost, |m.picks|))]
    ensures Going(m, p, c, heap, traj, [p], [State(p, heap)])
  {
    NothingReports(m);
    assert Starts(m, State(p, heap));
    assert Placements([State(p, heap)]) == [p];
  }

  /** The popped entry has been found placeable, with gain `g`. */
  ghost predicate Winner(m: Problem, p: Placement, heap: set<Entry>, x: Entry, g: real)
    requires Fits(m, p)
  {
    && Top(heap, x) && Open(m, p, x.l, x.e, x.tier) && !Beaten(m, State(p, heap), x)
    && g == GainNow(m, p, x.l, x.e, x.tier)
    && forall rise :: Steady(m, rise) ==> NoneAbove(m, p, g + SLACK + rise)
  }

  /** The top of the loop: pop, and drop the entry or push it back (`again`), or find it placeable. */
  method Consider(m: Problem, ghost p: Placement, c: Counters, uses: map<(nat, nat), seq<nat>>, heap: set<Entry>,
                  ghost traj: seq<Point>, ghost steps: seq<Placement>, ghost run: seq<State>)
    returns (again: bool, heap': set<Entry>, top: Entry, g: real, ghost run': seq<State>)
    requires Going(m, p, c, heap, traj, steps, run) && AllListed(m.picks, uses, m.n) && heap != {}
    ensures again ==> Going(m, p, c, heap', traj, steps, run') && |heap'| <= |heap|
    ensures again && |heap'| == |heap| ==> |Stale(m, p, heap')| < |Stale(m, p, heap)|
    ensures !again ==> Winner(m, p, heap, top, g) && heap' == heap - {top} && run' == run && |heap'| < |heap|
  {
    var rest;
    top, rest := PopEntry(heap);
    again, heap', g, run' := false, rest, 0.0, run;
    var ok := Placeable(m, p, c, top);
    if !ok {
      again := true;
      run' := DropGoes(m, p, c, heap, traj, steps, run, top);
      return;
    }
    g := CurrentGain(m, p, c, uses, top.l, top.e, top.tier);
    again, heap' := Outdated(m, p, heap, top, rest, g);
    if again {
      run' := RepushGoes(m, p, c, heap, traj, steps, run, top, heap');
    } else {
      LastPoint(m, p, c, heap, traj, steps);
      forall rise | Steady(m, rise)
        ensures NoneAbove(m, p, g + SLACK + rise)
      {
        TopIsBest(m, p, heap, top, g, rise);
      }
    }
  }

  /** The bottom of the loop: place the entry. */
  method PlaceTop(m: Problem, p: Placement, c: Counters, uses: map<(nat, nat), seq<nat>>, ghost heap: set<Entry>,
                  traj: seq<Point>, ghost steps: seq<Placement>, ghost run: seq<State>, top: Entry, g: real)
    returns (p': Placement, c': Counters, traj': seq<Point>, ghost steps': seq<Placement>, ghost run': seq<State>)
    requires Going(m, p, c, heap, traj, steps, run) && AllListed(m.picks, uses, m.n)
    requires Winner(m, p, heap, top, g) && g > m.minGain
    ensures Going(m, p', c', heap - {top}, traj', steps', run')
  {
    assert LayerListed(m.picks, uses, top.l, m.n);
    c' := Place(m, p, c, top.l, top.e, top.tier, Listed(uses, top.l, top.e));
    var at := Point(c'.usedH, Sum(c'.usedD), traj[|traj| - 1].total - g);
    run' := PlacementGoes(m, p, c, heap, traj, steps, run, top, g, c', at);
    p' := Put(p, top.l, top.e, top.tier);
    traj', steps' := traj + [at], steps + [p'];
  }

  ghost predicate Done(m: Problem, traj: seq<Point>, p: Placement, steps: seq<Placement>, run: seq<State>) {
    && LazyRun(m, run) && Stops(m, run[|run| - 1]) && Placements(run) == steps
    && Trajectory(m, traj, steps) && steps[|steps| - 1] == p && Fits(m, p)
    && forall rise :: Steady(m, rise) ==> NoneAbove(m, p, m.minGain + SLACK + rise)
  }

  lemma EndsRefused(m: Problem, p: Placement, c: Counters, heap: set<Entry>, traj: seq<Point>, steps: seq<Placement>,
                    run: seq<State>, x: Entry, g: real)
    requires Going(m, p, c, heap, traj, steps, run) && Winner(m, p, heap, x, g) && g <= m.minGain
    ensures Done(m, traj, p, steps, run)
  {
    assert Refused(m, State(p, heap), x);
  }

  lemma EndsEmpty(m: Problem, p: Placement, c: Counters, traj: seq<Point>, steps: seq<Placement>, run: seq<State>)
    requires Going(m, p, c, {}, traj, steps, run)
    ensures Done(m, traj, p, steps, run)
  {
    assert Stops(m, State(p, {}));
    assert forall g :: NoneAbove(m, p, g);
  }

  /** `greedy` and `greedy2`: at every point of the trajectory the running total is `evaluate` of the
      sets placed so far and both budgets hold; every placement is as good as any candidate, and on
      return no candidate saves more than `minGain`, up to `SLACK` and the rise of the cost table.  The
      placements are those of a run of the loop, turn by turn, to its end. */
  method Greedy(m: Problem)
    returns (traj: seq<Point>, p: Placement, ghost steps: seq<Placement>, ghost run: seq<State>)
    requires Shaped(m.picks, m.n)
    ensures LazyRun(m, run) && Stops(m, run[|run| - 1]) && Placements(run) == steps
    ensures Trajectory(m, traj, steps) && steps[|steps| - 1] == p && Fits(m, p)
    ensures forall rise :: Steady(m, rise) ==> NoneAbove(m, p, m.minGain + SLACK + rise)
  {
    var uses := BuildWhere(m.picks, m.n);
    p := Nothing(|m.picks|);
    var c := Start(m);
    var heap := InitialHeap(m, p, c, uses);
    traj := [Point(0, 0, BaseTotal(m.cost, |m.picks|))];
    steps, run := [p], [State(p, heap)];
    GoingStarts(m, p, c, heap, traj);
    traj, p, steps, run := GreedyLoop(m, p, c, uses, heap, traj, steps, run);
  }

  method GreedyLoop(m: Problem, p0: Placement, c0: Counters, uses: map<(nat, nat), seq<nat>>, heap0: set<Entry>,
                    traj0: seq<Point>, ghost steps0: seq<Placement>, ghost run0: seq<State>)
    returns (traj: seq<Point>, p: Placement, ghost steps: seq<Placement>, ghost run: seq<State>)
    requires AllListed(m.picks, uses, m.n) && Going(m, p0, c0, heap0, traj0, steps0, run0)
    ensures Done(m, traj, p, steps, run)
  {
    var c, heap := c0, heap0;
    traj, p, steps, run := traj0, p0, steps0, run0;
    while heap != {}
      invariant Going(m, p, c, heap, traj, steps, run)
      decreases |heap|, |Stale(m, p, heap)|
    {
      var again, heap', top, g;
      again, heap', top, g, run := Consider(m, p, c, uses, heap, traj, steps, run);
      if again {
        heap := heap';
        continue;
      }
      if g <= m.minGain {
        EndsRefused(m, p, c, heap, traj, steps, run, top, g);
        return;
      }
      p, c, traj, steps, run := PlaceTop(m, p, c, uses, heap, traj, steps, run, top, g);
      heap := heap';
    }
    EndsEmpty(m, p, c, traj, steps, run);
  }
}
