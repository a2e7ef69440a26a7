/** For which traces the scan of scripts/polsim.py is optimal, whatever order its set is walked in. */
module ScanSentinel {
  import opened Paging
  import opened BeladyPolicies

  /** Every run of the scan on every trace of length `n` fetches no more than any schedule. */
  ghost predicate AlwaysLeast(n: nat, cap: nat) {
    forall s, run: seq<Mark> ::
      |s| == n && ScanRun(s, cap, run) && |run| == n + 1 ==> IsLeastFetches(s, cap, run[n].misses)
  }

  // ---- a trace on which the stand-in does harm ----

  function K(j: nat): Key {
    Key(0, j)
  }

  /** Fills the cache, stays on one more key until the end, and asks for the first key again. */
  function Late(n: nat, cap: nat): (s: seq<Key>)
    ensures |s| == n
  {
    seq(n, i requires 0 <= i => if i < cap then K(i) else if i < n - 1 then K(cap) else K(0))
  }

  function Initial(i: nat): set<Key> {
    set j: nat | j < i :: K(j)
  }

  lemma {:induction false} InitialSize(i: nat)
    ensures |Initial(i)| == i
  {
    if i > 0 {
      InitialSize(i - 1);
      assert Initial(i) == Initial(i - 1) + {K(i - 1)};
    }
  }

  lemma LateUses(n: nat, cap: nat, j: nat)
    requires 2 <= cap && cap + 2 <= n && j < cap
    ensures NextUse(Late(n, cap), cap, K(j)) == if j == 0 then n - 1 else n
  {
    NextUseIs(Late(n, cap), cap, K(j), if j == 0 then n - 1 else n);
  }

  lemma LastUses(n: nat, cap: nat, k: Key)
    requires cap + 2 <= n && k != K(0)
    ensures NextUse(Late(n, cap), n - 1, k) == n
  {
    NextUseIs(Late(n, cap), n - 1, k, n);
  }

  /** What is held once key `drop` has made room for `K(cap)`. */
  function After(cap: nat, drop: nat): set<Key> {
    Initial(cap) - {K(drop)} + {K(cap)}
  }

  /** The state before access `i` of the run that drops key `drop` and ends in `last`. */
  function MarkAt(n: nat, cap: nat, drop: nat, last: Mark, i: nat): Mark {
    if i <= cap then Mark(Initial(i), i) else if i < n then Mark(After(cap, drop), cap + 1) else last
  }

  function RunOf(n: nat, cap: nat, drop: nat, last: Mark): (run: seq<Mark>)
    ensures |run| == n + 1 && forall i :: 0 <= i <= n ==> run[i] == MarkAt(n, cap, drop, last, i)
  {
    seq(n + 1, i requires 0 <= i => MarkAt(n, cap, drop, last, i))
  }

  lemma Begins(n: nat, cap: nat, drop: nat, last: Mark)
    requires cap < n
    ensures MarkAt(n, cap, drop, last, 0) == Mark({}, 0) && MarkAt(n, cap, drop, last, n) == last
  {
    assert Initial(0) == {};
  }

  lemma Filling(n: nat, cap: nat, i: nat)
    requires i < cap && cap + 2 <= n
    ensures Late(n, cap)[i] !in Initial(i) && |Initial(i)| < cap
    ensures Initial(i + 1) == Initial(i) + {Late(n, cap)[i]}
  {
    InitialSize(i);
  }

  /** The scan prefers key 0, which is used again, to the ones that are not. */
  lemma ScanDropsFirst(n: nat, cap: nat)
    requires 2 <= cap && cap + 2 <= n && NEVER < n
    ensures ScanVictim(Late(n, cap), cap, Initial(cap), K(0))
  {
    forall k | k in Initial(cap)
      ensures ScannedUse(Late(n, cap), cap, k) <= ScannedUse(Late(n, cap), cap, K(0))
    {
      var j: nat :| j < cap && k == K(j);
      LateUses(n, cap, j);
    }
    LateUses(n, cap, 0);
    assert K(0) in Initial(cap);
  }

  lemma FarthestDropsSecond(n: nat, cap: nat)
    requires 2 <= cap && cap + 2 <= n
    ensures FarthestVictim(Late(n, cap), cap, Initial(cap), K(1))
  {
    LateUses(n, cap, 1);
    assert K(1) in Initial(cap);
  }

  lemma ScanEndsAnyhow(n: nat, cap: nat)
    requires 2 <= cap && cap + 2 <= n
    ensures ScanVictim(Late(n, cap), n - 1, After(cap, 0), K(cap))
  {
    forall k | k in After(cap, 0)
      ensures NextUse(Late(n, cap), n - 1, k) == n
    {
      LastUses(n, cap, k);
    }
  }

  lemma AfterSize(cap: nat, drop: nat)
    requires drop < cap
    ensures |After(cap, drop)| == cap
  {
    InitialSize(cap);
    assert K(drop) in Initial(cap) && K(cap) !in Initial(cap);
  }

  lemma FirstEviction(n: nat, cap: nat)
    requires 2 <= cap && cap + 2 <= n && NEVER < n
    ensures ScanStep(Late(n, cap), cap, cap, Mark(Initial(cap), cap), Mark(After(cap, 0), cap + 1))
  {
    InitialSize(cap);
    ScanDropsFirst(n, cap);
  }

  lemma SecondEviction(n: nat, cap: nat)
    requires 2 <= cap && cap + 2 <= n
    ensures ScanStep(Late(n, cap), cap, n - 1, Mark(After(cap, 0), cap + 1),
                     Mark(After(cap, 0) - {K(cap)} + {K(0)}, cap + 2))
  {
    AfterSize(cap, 0);
    ScanEndsAnyhow(n, cap);
  }

  function Missing(cap: nat): Mark {
    Mark(After(cap, 0) - {K(cap)} + {K(0)}, cap + 2)
  }

  lemma FillStep(n: nat, cap: nat, i: nat)
    requires i < cap && cap + 2 <= n
    ensures ScanStep(Late(n, cap), cap, i, Mark(Initial(i), i), Mark(Initial(i + 1), i + 1))
  {
    Filling(n, cap, i);
  }

  lemma StayStep(n: nat, cap: nat, i: nat, a: Mark)
    requires cap < i < n - 1 && K(cap) in a.held
    ensures ScanStep(Late(n, cap), cap, i, a, a)
  {
  }

  lemma ScanStepAt(n: nat, cap: nat, i: nat)
    requires 2 <= cap && cap + 2 <= n && NEVER < n && i < n
    ensures ScanStep(Late(n, cap), cap, i, MarkAt(n, cap, 0, Missing(cap), i), MarkAt(n, cap, 0, Missing(cap), i + 1))
  {
    var (a, b) := (MarkAt(n, cap, 0, Missing(cap), i), MarkAt(n, cap, 0, Missing(cap), i + 1));
    if i < cap {
      FillStep(n, cap, i);
      assert a == Mark(Initial(i), i) && b == Mark(Initial(i + 1), i + 1);
    } else if i == cap {
      FirstEviction(n, cap);
      assert a == Mark(Initial(cap), cap) && b == Mark(After(cap, 0), cap + 1);
    } else if i == n - 1 {
      SecondEviction(n, cap);
      assert a == Mark(After(cap, 0), cap + 1) && b == Missing(cap);
    } else {
      StayStep(n, cap, i, Mark(After(cap, 0), cap + 1));
      assert a == b == Mark(After(cap, 0), cap + 1);
    }
  }

  /** The scan may drop key 0 and fetches it again. */
  lemma ScanMayMiss(n: nat, cap: nat) returns (run: seq<Mark>)
    requires 2 <= cap && cap + 2 <= n && NEVER < n
    ensures ScanRun(Late(n, cap), cap, run) && |run| == n + 1 && run[n].misses == cap + 2
  {
    run := RunOf(n, cap, 0, Missing(cap));
    Begins(n, cap, 0, Missing(cap));
    forall i | 0 <= i < n
      ensures ScanStep(Late(n, cap), cap, i, run[i], run[i + 1])
    {
      ScanStepAt(n, cap, i);
      assert run[i] == MarkAt(n, cap, 0, Missing(cap), i) && run[i + 1] == MarkAt(n, cap, 0, Missing(cap), i + 1);
    }
  }

  lemma FarthestStepAt(n: nat, cap: nat, last: Mark, i: nat)
    requires 2 <= cap && cap + 2 <= n && i < n && last == Mark(After(cap, 1), cap + 1)
    ensures FarthestStep(Late(n, cap), cap, i, MarkAt(n, cap, 1, last, i), MarkAt(n, cap, 1, last, i + 1))
  {
    if i < cap {
      Filling(n, cap, i);
    } else if i == cap {
      InitialSize(cap);
      FarthestDropsSecond(n, cap);
    } else if i == n - 1 {
      assert K(0) in Initial(cap);
    } else {
      assert Late(n, cap)[i] == K(cap);
    }
  }

  /** Dropping key 1 instead is a farthest-use run, one fetch shorter. */
  lemma FarthestFetchesLess(n: nat, cap: nat)
    requires 2 <= cap && cap + 2 <= n
    ensures IsLeastFetches(Late(n, cap), cap, cap + 1)
  {
    var last := Mark(After(cap, 1), cap + 1);
    var run := RunOf(n, cap, 1, last);
    Begins(n, cap, 1, last);
    forall i | 0 <= i < n
      ensures FarthestStep(Late(n, cap), cap, i, run[i], run[i + 1])
    {
      FarthestStepAt(n, cap, last, i);
      assert run[i] == MarkAt(n, cap, 1, last, i) && run[i + 1] == MarkAt(n, cap, 1, last, i + 1);
    }
    FarthestIsLeast(Late(n, cap), cap, run);
  }

  /** The scan is optimal on every trace of length `n`, in whatever order it walks its set, exactly when
      the stand-in exceeds every index, or there is at most one eviction, or there is one slot. */
  lemma AlwaysLeastIff(n: nat, cap: nat)
    requires cap >= 1
    ensures AlwaysLeast(n, cap) <==> ScanSafe(n, cap)
  {
    if ScanSafe(n, cap) {
      forall s, run: seq<Mark> | |s| == n && ScanRun(s, cap, run) && |run| == n + 1
        ensures IsLeastFetches(s, cap, run[n].misses)
      {
        SafeSentinel(s, cap, run);
        ScanRunIsFarthest(s, cap, run);
        FarthestIsLeast(s, cap, run);
      }
    } else {
      var run := ScanMayMiss(n, cap);
      FarthestFetchesLess(n, cap);
      assert !IsLeastFetches(Late(n, cap), cap, run[n].misses);
    }
  }
}
