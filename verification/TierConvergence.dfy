// One sweep over any number of tiers, in whatever order they stand, seen from
// one identifier.

module TierConvergence {
  import opened Bytes
  import opened Ids
  import opened TierCache
  import opened TierQueue
  import opened TierSweep
  import opened TierPairs

  ghost predicate AllFit(tiers: seq<TierData>, id: Id, own: seq<byte>, forms: iset<seq<byte>>, max: int) {
    forall k :: 0 <= k < |tiers| ==> Fit(tiers[k], id, own, forms, max)
  }

  /** No two tiers have the same major number and none is the network. */
  predicate DistinctMajors(tiers: seq<TierData>) {
    && (forall i, j :: 0 <= i < j < |tiers| ==> tiers[i].major != tiers[j].major)
    && forall i :: 0 <= i < |tiers| ==> tiers[i].major != TIER_MAJOR_NETWORK
  }

  /** Tier by tier, the identifier only advances. */
  predicate AllAdvance(tiers: seq<TierData>, next: seq<TierData>, id: Id, max: int) {
    && |next| == |tiers|
    && forall k :: 0 <= k < |tiers| ==> Advances(tiers[k], next[k], id, max)
  }

  /** The effect on a pair of positions, the lower major number at `u`. */
  predicate EffectAt(tiers: seq<TierData>, next: seq<TierData>, u: nat, w: nat, id: Id, max: int)
    requires u < |tiers| == |next| && w < |tiers|
  {
    tiers[u].major < tiers[w].major ==> PairEffect(Pair(tiers[u], tiers[w]), Pair(next[u], next[w]), id, max)
  }

  lemma SyncAtEffect(tiers: seq<TierData>, i: nat, c: nat, own: seq<byte>, id: Id, forms: iset<seq<byte>>, max: int)
    requires i < |tiers| && c < |tiers| && i != c && max >= 0
    requires MayTravel(id) && AllFit(tiers, id, own, forms, max) && DistinctMajors(tiers)
    ensures var next := SyncAt(tiers, i, c, own);
      && next.ok && AllFit(next.tiers, id, own, forms, max)
      && AllAdvance(tiers, next.tiers, id, max)
      && EffectAt(tiers, next.tiers, i, c, id, max) && EffectAt(tiers, next.tiers, c, i, id, max)
      && forall k :: 0 <= k < |tiers| && k != i && k != c ==> next.tiers[k] == tiers[k]
  {
    hide Fit, MayTravel, PairEffect, SyncPair, Advances;
    assert tiers[i].major != tiers[c].major;
    var (low, high) := if tiers[i].major > tiers[c].major then (c, i) else (i, c);
    SyncPairEffect(Pair(tiers[low], tiers[high]), own, id, forms, max);
    PairEffectAdvances(Pair(tiers[low], tiers[high]), SyncPair(Pair(tiers[low], tiers[high]), own).value, id, max);
    forall k | 0 <= k < |tiers|
      ensures Advances(tiers[k], SyncAt(tiers, i, c, own).tiers[k], id, max)
    {
      AdvancesItself(tiers[k], id, max);
    }
  }

  lemma PairEffectAdvances(p: Pair, q: Pair, id: Id, max: int)
    requires PairEffect(p, q, id, max)
    ensures Advances(p.low, q.low, id, max) && Advances(p.high, q.high, id, max)
  {
    hide Ver, Ix, Advances, Pure, SameAt;
  }

  // ----- the sweep in progress -----

  /** What is known at the start: tier `a` has the least major number of those
      that hold the identifier, and tier `r` lists only its greatest version. */
  predicate Setting(start: seq<TierData>, a: nat, r: nat, id: Id, max: int) {
    && a < |start| && r < |start| && max >= 0
    && DistinctMajors(start)
    && Ver(start[a], id) >= 0
    && (forall k :: 0 <= k < |start| && Ver(start[k], id) >= 0 ==> start[a].major <= start[k].major)
    && Pure(start[r], id, max)
  }

  /** Row `u`, column `w` has been visited when the sweep stands before row `i`,
      column `c`. */
  predicate Seen(i: nat, c: nat, u: nat, w: nat) {
    u < i || (u == i && w < c)
  }

  /** What the visits so far have done to tier `k`. A tier between `a` and `r`
      that did not hold the identifier gets it from `a`; it has the greatest
      version after the second visit with `r`, or, when `r` stands before it and
      `a` after it, after the second visit with `a`. */
  predicate Progress(start: seq<TierData>, tiers: seq<TierData>, a: nat, r: nat, id: Id, max: int, i: nat, c: nat,
                     k: nat)
    requires a < |start| && r < |start| && k < |start| == |tiers|
  {
    var between := start[a].major < start[k].major < start[r].major;
    && (k != r && (start[k].major > start[r].major || Ver(start[k], id) >= 0) && (Seen(i, c, k, r) || Seen(i, c, r, k))
        ==> Ver(tiers[k], id) == max)
    && (start[k].major > start[a].major && (Seen(i, c, a, k) || Seen(i, c, k, a)) ==> Ver(tiers[k], id) >= 0)
    && (between && !(r < k < a) && Seen(i, c, if k > r then k else r, if k > r then r else k) ==>
        Ver(tiers[k], id) == max)
    && (between && r < k < a && Seen(i, c, a, k) ==> Ver(tiers[k], id) == max)
  }

  /** What holds throughout the sweep. */
  ghost predicate Underway(start: seq<TierData>, tiers: seq<TierData>, a: nat, id: Id, own: seq<byte>,
                           forms: iset<seq<byte>>, max: int)
    requires a < |start|
  {
    && AllFit(tiers, id, own, forms, max) && AllAdvance(start, tiers, id, max)
    && forall k :: 0 <= k < |start| && start[k].major < start[a].major ==> Ver(tiers[k], id) == -1
  }

  ghost predicate AllProgress(start: seq<TierData>, tiers: seq<TierData>, a: nat, r: nat, id: Id, max: int, i: nat,
                              c: nat)
    requires a < |start| && r < |start| && |start| == |tiers|
  {
    forall k :: 0 <= k < |start| ==> Progress(start, tiers, a, r, id, max, i, c, k)
  }

  lemma AdvancesFacts(start: seq<TierData>, tiers: seq<TierData>, k: nat, id: Id, max: int)
    requires k < |start| && AllAdvance(start, tiers, id, max)
    ensures tiers[k].major == start[k].major && Ver(start[k], id) <= Ver(tiers[k], id)
    ensures Pure(start[k], id, max) ==> Pure(tiers[k], id, max)
  {
    hide Ver, Ix, Pure;
  }

  lemma PureVersion(t: TierData, id: Id, own: seq<byte>, forms: iset<seq<byte>>, max: int)
    requires Fit(t, id, own, forms, max)
    ensures Ver(t, id) <= max && (Pure(t, id, max) ==> Ver(t, id) == max)
  {
    hide Ver, Ix, TierInv, Ready;
    InvTracks(t, id);
  }

  /** The four facts about a pair whose lower tier is at `u`. */
  lemma EffectFacts(tiers: seq<TierData>, next: seq<TierData>, u: nat, w: nat, id: Id, max: int)
    requires u < |tiers| == |next| && w < |tiers| && EffectAt(tiers, next, u, w, id, max)
    requires tiers[u].major < tiers[w].major
    ensures Ver(tiers[u], id) >= 0 ==> Ver(next[w], id) >= 0
    ensures Ver(tiers[u], id) == max ==> Ver(next[w], id) == max
    ensures Ver(tiers[u], id) >= 0 && Pure(tiers[w], id, max) ==> Ver(next[u], id) == max
    ensures Ver(tiers[u], id) == -1 ==> Ver(next[u], id) == -1 && Ver(next[w], id) == Ver(tiers[w], id)
  {
    hide Ver, Ix, Pure, Advances;
  }

  /** One visit, seen from tier `k`. */
  lemma ProgressStep(start: seq<TierData>, tiers: seq<TierData>, next: seq<TierData>, a: nat, r: nat, id: Id,
                     own: seq<byte>,
                     forms: iset<seq<byte>>, max: int, i: nat, c: nat, k: nat)
    requires Setting(start, a, r, id, max) && k < |start| && i < |start| && c < |start| && i != c
    requires Underway(start, tiers, a, id, own, forms, max) && AllProgress(start, tiers, a, r, id, max, i, c)
    requires AllFit(next, id, own, forms, max) && AllAdvance(tiers, next, id, max)
    requires EffectAt(tiers, next, i, c, id, max) && EffectAt(tiers, next, c, i, id, max)
    ensures Progress(start, next, a, r, id, max, i, c + 1, k)
  {
    hide Ver, Pure, Fit, Advances, EffectAt;
    SettingDistinct(start, a, r, id, max, k);
    StateFacts(start, tiers, next, id, own, forms, max, k);
    StateFacts(start, tiers, next, id, own, forms, max, a);
    StateFacts(start, tiers, next, id, own, forms, max, r);
    assert Progress(start, tiers, a, r, id, max, i, c, k) && Progress(start, tiers, a, r, id, max, i, c, a);
    if (i == k && c == r) || (i == r && c == k) {
      if start[k].major < start[r].major {
        EffectFacts(tiers, next, k, r, id, max);
      } else {
        EffectFacts(tiers, next, r, k, id, max);
      }
    }
    if ((i == a && c == k) || (i == k && c == a)) && start[k].major > start[a].major {
      EffectFacts(tiers, next, a, k, id, max);
    }
  }

  lemma SettingDistinct(start: seq<TierData>, a: nat, r: nat, id: Id, max: int, k: nat)
    requires Setting(start, a, r, id, max) && k < |start|
    ensures k != r ==> start[k].major != start[r].major
    ensures k != a ==> start[k].major != start[a].major
    ensures Ver(start[a], id) >= 0 && Pure(start[r], id, max)
  {
    hide Ver, Pure;
  }

  lemma StateFacts(start: seq<TierData>, tiers: seq<TierData>, next: seq<TierData>, id: Id, own: seq<byte>,
                   forms: iset<seq<byte>>, max: int, k: nat)
    requires k < |start| && AllAdvance(start, tiers, id, max) && AllAdvance(tiers, next, id, max)
    requires AllFit(tiers, id, own, forms, max) && AllFit(next, id, own, forms, max)
    ensures tiers[k].major == start[k].major
    ensures Ver(start[k], id) <= Ver(tiers[k], id) <= Ver(next[k], id) <= max
    ensures Pure(start[k], id, max) ==> Pure(tiers[k], id, max) && Ver(tiers[k], id) == max
  {
    hide Ver, Pure, Fit, Advances;
    AdvancesFacts(start, tiers, k, id, max);
    AdvancesFacts(tiers, next, k, id, max);
    PureVersion(tiers[k], id, own, forms, max);
    PureVersion(next[k], id, own, forms, max);
  }

  lemma UnderwayStep(start: seq<TierData>, tiers: seq<TierData>, next: seq<TierData>, a: nat, r: nat, id: Id,
                     own: seq<byte>, forms: iset<seq<byte>>, max: int, i: nat, c: nat)
    requires Setting(start, a, r, id, max) && i < |start| && c < |start| && i != c
    requires Underway(start, tiers, a, id, own, forms, max)
    requires AllFit(next, id, own, forms, max) && AllAdvance(tiers, next, id, max)
    requires EffectAt(tiers, next, i, c, id, max) && EffectAt(tiers, next, c, i, id, max)
    requires forall k :: 0 <= k < |tiers| && k != i && k != c ==> next[k] == tiers[k]
    ensures Underway(start, next, a, id, own, forms, max)
  {
    hide Ver, Pure, Fit, Advances, EffectAt;
    forall k | 0 <= k < |start|
      ensures Advances(start[k], next[k], id, max)
    {
      AdvancesTwice(start[k], tiers[k], next[k], id, max);
    }
    forall k | 0 <= k < |start| && start[k].major < start[a].major
      ensures Ver(next[k], id) == -1
    {
      if k == i || k == c {
        var other := if k == i then c else i;
        LowerStaysEmpty(start, tiers, next, a, r, id, max, k, other);
      }
    }
  }

  lemma LowerStaysEmpty(start: seq<TierData>, tiers: seq<TierData>, next: seq<TierData>, a: nat, r: nat, id: Id,
                        max: int,
                        k: nat, other: nat)
    requires Setting(start, a, r, id, max) && k < |start| && other < |start| && k != other
    requires AllAdvance(start, tiers, id, max) && |next| == |tiers|
    requires forall j :: 0 <= j < |start| && start[j].major < start[a].major ==> Ver(tiers[j], id) == -1
    requires EffectAt(tiers, next, k, other, id, max) && EffectAt(tiers, next, other, k, id, max)
    requires start[k].major < start[a].major
    ensures Ver(next[k], id) == -1
  {
    hide Ver, Pure, EffectAt, Advances;
    AdvancesFacts(start, tiers, k, id, max);
    AdvancesFacts(start, tiers, other, id, max);
    if start[k].major < start[other].major {
      EffectFacts(tiers, next, k, other, id, max);
    } else {
      assert start[k].major != start[other].major;
      EffectFacts(tiers, next, other, k, id, max);
    }
  }

  // ----- a whole sweep -----

  lemma HeadersKept(start: seq<TierData>, tiers: seq<TierData>, id: Id, max: int)
    requires DistinctMajors(start) && AllAdvance(start, tiers, id, max)
    ensures DistinctMajors(tiers)
  {
    hide Ver, Ix, Pure;
  }

  lemma SeenSame(start: seq<TierData>, tiers: seq<TierData>, a: nat, r: nat, id: Id, max: int, i: nat)
    requires a < |start| && r < |start| && |start| == |tiers| && i < |start|
    ensures AllProgress(start, tiers, a, r, id, max, i, i) ==> AllProgress(start, tiers, a, r, id, max, i, i + 1)
    ensures AllProgress(start, tiers, a, r, id, max, i, |start|) ==> AllProgress(start, tiers, a, r, id, max, i + 1, 0)
  {
    hide Ver;
    var j := i + 1;
    if AllProgress(start, tiers, a, r, id, max, i, i) {
      forall k | 0 <= k < |start|
        ensures Progress(start, tiers, a, r, id, max, i, j, k)
      {
        assert Progress(start, tiers, a, r, id, max, i, i, k) && Progress(start, tiers, a, r, id, max, i, i, a);
      }
    }
    if AllProgress(start, tiers, a, r, id, max, i, |start|) {
      forall k | 0 <= k < |start|
        ensures Progress(start, tiers, a, r, id, max, j, 0, k)
      {
        assert Progress(start, tiers, a, r, id, max, i, |start|, k);
      }
    }
  }

  lemma {:induction false} SweepRowProgress(start: seq<TierData>, tiers: seq<TierData>, a: nat, r: nat, id: Id,
                                            own: seq<byte>,
                                            forms: iset<seq<byte>>, max: int, i: nat, c: nat)
    requires Setting(start, a, r, id, max) && MayTravel(id) && i < |start| == |tiers| && c <= |start|
    requires Underway(start, tiers, a, id, own, forms, max) && AllProgress(start, tiers, a, r, id, max, i, c)
    ensures var row := SweepRow(tiers, i, c, own);
      row.ok && Underway(start, row.tiers, a, id, own, forms, max)
      && AllProgress(start, row.tiers, a, r, id, max, i + 1, 0)
    decreases |start| - c
  {
    hide Ver, Pure, Fit, Advances, EffectAt, Progress, SyncAt, MayTravel;
    if c == |start| {
      SeenSame(start, tiers, a, r, id, max, i);
    } else if i == c {
      SeenSame(start, tiers, a, r, id, max, i);
      SweepRowProgress(start, tiers, a, r, id, own, forms, max, i, c + 1);
    } else {
      HeadersKept(start, tiers, id, max);
      SyncAtEffect(tiers, i, c, own, id, forms, max);
      var next := SyncAt(tiers, i, c, own).tiers;
      UnderwayStep(start, tiers, next, a, r, id, own, forms, max, i, c);
      var j := c + 1;
      forall k | 0 <= k < |start|
        ensures Progress(start, next, a, r, id, max, i, j, k)
      {
        ProgressStep(start, tiers, next, a, r, id, own, forms, max, i, c, k);
      }
      SweepRowProgress(start, next, a, r, id, own, forms, max, i, c + 1);
    }
  }

  /** The loop at the end of a row finds nothing to do. */
  lemma LoopsAreSettled(tiers: seq<TierData>, id: Id, own: seq<byte>, forms: iset<seq<byte>>, max: int, i: nat)
    requires AllFit(tiers, id, own, forms, max) && i < |tiers|
    ensures tiers[i := Loop(tiers[i]).tier] == tiers
  {
    hide Loop, TierInv, Ready, Ver;
    assert Fit(tiers[i], id, own, forms, max);
    LoopSettled(tiers[i]);
  }

  lemma {:induction false} SweepFromProgress(start: seq<TierData>, tiers: seq<TierData>, a: nat, r: nat, id: Id,
                                             own: seq<byte>, forms: iset<seq<byte>>, max: int, i: nat)
    requires Setting(start, a, r, id, max) && MayTravel(id) && i <= |start| == |tiers|
    requires Underway(start, tiers, a, id, own, forms, max) && AllProgress(start, tiers, a, r, id, max, i, 0)
    ensures var done := SweepFrom(tiers, i, own);
      done.ok && Underway(start, done.tiers, a, id, own, forms, max)
      && AllProgress(start, done.tiers, a, r, id, max, |start|, 0)
    decreases |start| - i
  {
    hide Setting, AllFit, AllAdvance, Progress, AllProgress, SweepRow, MayTravel, Loop, Ver;
    if i < |start| {
      SweepRowProgress(start, tiers, a, r, id, own, forms, max, i, 0);
      var row := SweepRow(tiers, i, 0, own);
      LoopsAreSettled(row.tiers, id, own, forms, max, i);
      SweepFromProgress(start, row.tiers, a, r, id, own, forms, max, i + 1);
    }
  }

  /** Every tier from the lowest holder up has the greatest version, and the
      tiers below still lack the identifier. */
  predicate Converged(start: seq<TierData>, done: seq<TierData>, a: nat, id: Id, max: int)
    requires a < |start|
  {
    && |done| == |start|
    && forall k :: 0 <= k < |start| ==>
      Ver(done[k], id) == if start[k].major < start[a].major then -1 else max
  }

  lemma ProgressAtEnd(start: seq<TierData>, done: seq<TierData>, a: nat, r: nat, id: Id, own: seq<byte>,
                      forms: iset<seq<byte>>, max: int, k: nat)
    requires Setting(start, a, r, id, max) && k < |start|
    requires Underway(start, done, a, id, own, forms, max) && AllProgress(start, done, a, r, id, max, |start|, 0)
    requires start[k].major >= start[a].major
    ensures Ver(done[k], id) == max
  {
    hide Ver, Pure, Fit, Advances;
    SettingDistinct(start, a, r, id, max, k);
    assert Progress(start, done, a, r, id, max, |start|, 0, k);
    AdvancesFacts(start, done, r, id, max);
    PureVersion(done[r], id, own, forms, max);
  }

  lemma StartIsUnderway(start: seq<TierData>, a: nat, r: nat, id: Id, own: seq<byte>, forms: iset<seq<byte>>, max: int)
    requires Setting(start, a, r, id, max) && AllFit(start, id, own, forms, max)
    ensures Underway(start, start, a, id, own, forms, max) && AllProgress(start, start, a, r, id, max, 0, 0)
  {
    hide Pure, Fit, Advances, Version;
    forall k | 0 <= k < |start|
      ensures Advances(start[k], start[k], id, max)
    {
      AdvancesItself(start[k], id, max);
    }
  }

  /** One sweep converges, whatever the order of the tiers: provided that some
      tier lists only the greatest version, every tier from the lowest holder up
      ends with that version, and lower tiers still lack the identifier. */
  lemma OneSweepConverges(start: seq<TierData>, a: nat, r: nat, id: Id, own: seq<byte>, forms: iset<seq<byte>>,
                          max: int)
    requires Setting(start, a, r, id, max) && MayTravel(id) && AllFit(start, id, own, forms, max)
    ensures var done := TierLoop(start, own);
      done.ok && Converged(start, done.tiers, a, id, max)
      && AllFit(done.tiers, id, own, forms, max) && AllAdvance(start, done.tiers, id, max)
  {
    hide Setting, AllFit, AllAdvance, Progress, AllProgress, SweepFrom, MayTravel, Ver;
    SettingIndexes(start, a, r, id, max);
    StartIsUnderway(start, a, r, id, own, forms, max);
    SweepFromProgress(start, start, a, r, id, own, forms, max, 0);
    var done := TierLoop(start, own).tiers;
    forall k | 0 <= k < |start| && start[k].major >= start[a].major
      ensures Ver(done[k], id) == max
    {
      ProgressAtEnd(start, done, a, r, id, own, forms, max, k);
    }
  }

  lemma SettingAgain(start: seq<TierData>, done: seq<TierData>, a: nat, r: nat, id: Id, max: int)
    requires Setting(start, a, r, id, max) && AllAdvance(start, done, id, max) && Converged(start, done, a, id, max)
    ensures Setting(done, a, r, id, max)
  {
    hide Ver, Pure, Advances;
    HeadersKept(start, done, id, max);
    forall k | 0 <= k < |start|
      ensures done[k].major == start[k].major && (Pure(start[k], id, max) ==> Pure(done[k], id, max))
    {
      AdvancesFacts(start, done, k, id, max);
    }
  }

  /** A second sweep changes the version of the identifier nowhere. */
  lemma SecondSweepChangesNothing(start: seq<TierData>, a: nat, r: nat, id: Id, own: seq<byte>, forms: iset<seq<byte>>,
                                  max: int)
    requires Setting(start, a, r, id, max) && MayTravel(id) && AllFit(start, id, own, forms, max)
    ensures var once := TierLoop(start, own);
      var twice := TierLoop(once.tiers, own);
      once.ok && twice.ok && forall k :: 0 <= k < |start| ==> Ver(twice.tiers[k], id) == Ver(once.tiers[k], id)
  {
    hide Setting, AllFit, TierLoop, MayTravel, Ver, Advances;
    OneSweepConverges(start, a, r, id, own, forms, max);
    var once := TierLoop(start, own).tiers;
    SettingAgain(start, once, a, r, id, max);
    OneSweepConverges(once, a, r, id, own, forms, max);
    forall k | 0 <= k < |start|
      ensures once[k].major == start[k].major
    {
      AdvancesFacts(start, once, k, id, max);
    }
    SettingIndexes(start, a, r, id, max);
  }

  lemma SettingIndexes(start: seq<TierData>, a: nat, r: nat, id: Id, max: int)
    requires Setting(start, a, r, id, max)
    ensures a < |start| && r < |start|
  {
  }

  // ----- exact indexes -----

  /** The index lists the identifier once at most. */
  predicate ListedOnce(t: TierData, id: Id) {
    |Ix(t, id)| <= 1
  }

  /** With one index entry for each identifier the greatest version is always
      listed purely, so one sweep converges. */
  lemma ExactIndexesConverge(start: seq<TierData>, a: nat, id: Id, own: seq<byte>, forms: iset<seq<byte>>, max: int)
    requires a < |start| && DistinctMajors(start) && MayTravel(id) && AllFit(start, id, own, forms, max)
    requires forall k :: 0 <= k < |start| ==> ListedOnce(start[k], id)
    requires Ver(start[a], id) >= 0
    requires forall k :: 0 <= k < |start| && Ver(start[k], id) >= 0 ==> start[a].major <= start[k].major
    requires exists k :: 0 <= k < |start| && Ver(start[k], id) == max
    ensures var done := TierLoop(start, own);
      done.ok && Converged(start, done.tiers, a, id, max)
  {
    hide Ver, Fit, TierLoop, MayTravel, DistinctMajors, Converged, ListedOnce;
    var r :| 0 <= r < |start| && Ver(start[r], id) == max;
    FitBounds(start[a], id, own, forms, max);
    OnceIsPure(start[r], id, own, forms, max);
    OneSweepConverges(start, a, r, id, own, forms, max);
  }

  lemma OnceIsPure(t: TierData, id: Id, own: seq<byte>, forms: iset<seq<byte>>, max: int)
    requires Fit(t, id, own, forms, max) && ListedOnce(t, id) && Ver(t, id) == max >= 0
    ensures Pure(t, id, max)
  {
    hide Ver, Ix, TierInv, Ready;
    InvTracks(t, id);
  }

  // ----- when a second sweep is quiet -----

  /** Every entry the index has of the identifier is this version. */
  predicate Uniform(t: TierData, id: Id, v: int) {
    forall i :: 0 <= i < |Ix(t, id)| ==> Ix(t, id)[i] == v
  }

  predicate AllUniform(tiers: seq<TierData>, id: Id, v: int) {
    forall k :: 0 <= k < |tiers| ==> Uniform(tiers[k], id, v)
  }

  lemma ShiftUniform(from: TierData, to: TierData, m: Id, own: seq<byte>, id: Id, v: int)
    requires TierInv(from) && TierInv(to) && Uniform(from, id, v) && Uniform(to, id, v)
    ensures var done := Shift(from, to, m, own);
      done.from == from && TierInv(done.to) && Uniform(done.to, id, v)
  {
    hide Ver, Ix, TierInv, Shift, SameHeader;
    ShiftAt(from, to, m, own, id);
    InvTracks(from, id);
  }

  lemma {:induction false} MovesUniform(p: Pair, moves: seq<Move>, own: seq<byte>, id: Id, v: int)
    requires TierInv(p.low) && TierInv(p.high) && Uniform(p.low, id, v) && Uniform(p.high, id, v)
    ensures var q := ShiftMoves(p, moves, own);
      TierInv(q.low) && TierInv(q.high) && Uniform(q.low, id, v) && Uniform(q.high, id, v)
    decreases |moves|
  {
    hide TierInv, Uniform, Shift;
    if moves != [] {
      ShiftUniform(p.low, p.high, moves[0].id, own, id, v);
      ShiftUniform(p.high, p.low, moves[0].id, own, id, v);
      MovesUniform(ShiftMove(p, moves[0], own), moves[1..], own, id, v);
    }
  }

  ghost predicate AllSettled(tiers: seq<TierData>) {
    forall k :: 0 <= k < |tiers| ==> TierInv(tiers[k])
  }

  lemma SyncAtUniform(tiers: seq<TierData>, i: nat, c: nat, own: seq<byte>, id: Id, v: int)
    requires i < |tiers| && c < |tiers| && i != c && AllSettled(tiers) && AllUniform(tiers, id, v)
    ensures var next := SyncAt(tiers, i, c, own);
      AllSettled(next.tiers) && AllUniform(next.tiers, id, v)
  {
    hide TierInv, Uniform, ShiftMoves, TierMoves;
    var (low, high) := if tiers[i].major > tiers[c].major then (c, i) else (i, c);
    var p := Pair(tiers[low], tiers[high]);
    if TierMoves(p.low, p.high).Ok? {
      MovesUniform(p, TierMoves(p.low, p.high).value, own, id, v);
    }
  }

  lemma {:induction false} SweepRowUniform(tiers: seq<TierData>, i: nat, c: nat, own: seq<byte>, id: Id, v: int)
    requires i < |tiers| && c <= |tiers| && AllSettled(tiers) && AllUniform(tiers, id, v)
    ensures var row := SweepRow(tiers, i, c, own);
      AllSettled(row.tiers) && AllUniform(row.tiers, id, v)
    decreases |tiers| - c
  {
    hide AllSettled, AllUniform, SyncAt;
    if c < |tiers| {
      if i == c {
        SweepRowUniform(tiers, i, c + 1, own, id, v);
      } else {
        SyncAtUniform(tiers, i, c, own, id, v);
        SweepRowUniform(SyncAt(tiers, i, c, own).tiers, i, c + 1, own, id, v);
      }
    }
  }

  lemma {:induction false} SweepFromUniform(tiers: seq<TierData>, i: nat, own: seq<byte>, id: Id, v: int)
    requires i <= |tiers| && AllSettled(tiers) && AllUniform(tiers, id, v)
    ensures var done := SweepFrom(tiers, i, own);
      AllUniform(done.tiers, id, v)
    decreases |tiers| - i
  {
    hide AllUniform, SweepRow, Loop, TierInv;
    if i < |tiers| {
      SweepRowUniform(tiers, i, 0, own, id, v);
      var row := SweepRow(tiers, i, 0, own).tiers;
      LoopSettled(row[i]);
      assert row[i := row[i]] == row;
      SweepFromUniform(row, i + 1, own, id, v);
    }
  }

  /** Between these two tiers the identifier is not moved. */
  predicate NoMove(low: TierData, high: TierData, id: Id) {
    && TierMoves(low, high).Ok?
    && Move(id, true) !in TierMoves(low, high).value && Move(id, false) !in TierMoves(low, high).value
  }

  predicate Quiet(tiers: seq<TierData>, id: Id) {
    forall i, c :: 0 <= i < |tiers| && 0 <= c < |tiers| && tiers[i].major < tiers[c].major ==>
      NoMove(tiers[i], tiers[c], id)
  }

  /** Nothing is moved exactly when every entry of the lower index equals the
      first entry of the higher one. */
  lemma NoMoveExactly(low: TierData, high: TierData, id: Id)
    requires TierInv(low) && TierInv(high) && MayTravel(id)
    requires low.major != high.major && high.major != TIER_MAJOR_NETWORK
    ensures NoMove(low, high, id) <==> Uniform(low, id, if Ix(high, id) == [] then -1 else Ix(high, id)[0])
  {
    hide Ver, Ix, TierInv, Listed, Index, Moves, MemOnly, FirstListed, ValidId, BlankHash, Wants;
    InvTracks(low, id);
    InvTracks(high, id);
    IxIsListed(low, id);
    IxIsListed(high, id);
    MovesExactly(Index(low).value, Index(high).value, id, true);
    MovesExactly(Index(low).value, Index(high).value, id, false);
    NothingWantedExactly(Ix(low, id), FirstListed(Index(high).value, id));
  }

  lemma NothingWantedExactly(listed: seq<uint64>, first: int)
    ensures !Wants(listed, first, true) && !Wants(listed, first, false) <==>
      forall i :: 0 <= i < |listed| ==> listed[i] == first
  {
    if !Wants(listed, first, true) && !Wants(listed, first, false) {
      forall i | 0 <= i < |listed|
        ensures listed[i] == first
      {
        assert !(listed[i] > first) && !(listed[i] < first);
      }
    }
  }

  lemma UniformIsQuiet(start: seq<TierData>, done: seq<TierData>, a: nat, id: Id, own: seq<byte>,
                       forms: iset<seq<byte>>,
                       max: int, i: nat, c: nat)
    requires a < |start| && DistinctMajors(start) && MayTravel(id) && i < |start| && c < |start|
    requires Converged(start, done, a, id, max) && AllAdvance(start, done, id, max) && AllFit(done, id, own, forms, max)
    requires AllUniform(done, id, max) && max >= 0 && done[i].major < done[c].major
    ensures NoMove(done[i], done[c], id)
  {
    hide Ver, Ix, TierInv, Ready, MayTravel, NoMove;
    AdvancesFacts(start, done, i, id, max);
    AdvancesFacts(start, done, c, id, max);
    assert Fit(done[i], id, own, forms, max) && Fit(done[c], id, own, forms, max);
    NoMoveExactly(done[i], done[c], id);
    InvTracks(done[i], id);
    InvTracks(done[c], id);
    assert Uniform(done[i], id, max) && Uniform(done[c], id, max);
  }

  /** A holder whose index has an old entry keeps it, and makes a sweep noisy. */
  lemma StaleIsNoisy(start: seq<TierData>, done: seq<TierData>, r: nat, id: Id, own: seq<byte>, forms: iset<seq<byte>>,
                     max: int, k: nat)
    requires r < |start| && k < |start| && DistinctMajors(start) && MayTravel(id)
    requires AllAdvance(start, done, id, max) && AllFit(done, id, own, forms, max) && Pure(start[r], id, max)
    requires !Uniform(start[k], id, max) && Ver(done[k], id) == max
    ensures !Quiet(done, id)
  {
    hide Ver, TierInv, Ready, MayTravel, NoMove, Index, Listed;
    var j :| 0 <= j < |Ix(start[k], id)| && Ix(start[k], id)[j] != max;
    AdvancesFacts(start, done, k, id, max);
    AdvancesFacts(start, done, r, id, max);
    assert Advances(start[k], done[k], id, max);
    assert Ix(done[k], id)[j] != max;
    assert Fit(done[k], id, own, forms, max) && Fit(done[r], id, own, forms, max);
    InvTracks(done[k], id);
    if done[k].major < done[r].major {
      NoMoveExactly(done[k], done[r], id);
    } else {
      assert k != r;
      assert done[r].major < done[k].major;
      NoMoveExactly(done[r], done[k], id);
      assert Ix(done[r], id)[0] == max;
      assert Ix(done[k], id)[0] <= Ix(done[k], id)[j] <= max;
    }
  }

  /** After one sweep no further move of the identifier is planned anywhere
      exactly when every tier that held it at the start listed only the greatest
      version: an overwritten version leaves its entry in the index. */
  lemma QuietExactly(start: seq<TierData>, a: nat, r: nat, id: Id, own: seq<byte>, forms: iset<seq<byte>>, max: int)
    requires Setting(start, a, r, id, max) && MayTravel(id) && AllFit(start, id, own, forms, max)
    ensures Quiet(TierLoop(start, own).tiers, id) <==> AllUniform(start, id, max)
  {
    hide Ver, Ix, TierLoop, Fit, Advances, MayTravel, NoMove, Uniform;
    OneSweepConverges(start, a, r, id, own, forms, max);
    var done := TierLoop(start, own).tiers;
    if AllUniform(start, id, max) {
      SweepIsUniform(start, own, id, forms, max);
      forall i, c | 0 <= i < |done| && 0 <= c < |done| && done[i].major < done[c].major
        ensures NoMove(done[i], done[c], id)
      {
        UniformIsQuiet(start, done, a, id, own, forms, max, i, c);
      }
    } else {
      var k :| 0 <= k < |start| && !Uniform(start[k], id, max);
      ListedIsHeld(start[k], id, own, forms, max);
      StaleIsNoisy(start, done, r, id, own, forms, max, k);
    }
  }

  lemma SweepIsUniform(start: seq<TierData>, own: seq<byte>, id: Id, forms: iset<seq<byte>>, max: int)
    requires AllFit(start, id, own, forms, max) && AllUniform(start, id, max)
    ensures AllUniform(TierLoop(start, own).tiers, id, max)
  {
    hide Ver, TierInv, Ready, Uniform, SweepFrom;
    SweepFromUniform(start, 0, own, id, max);
  }

  lemma ListedIsHeld(t: TierData, id: Id, own: seq<byte>, forms: iset<seq<byte>>, max: int)
    requires Fit(t, id, own, forms, max) && !Uniform(t, id, max)
    ensures Ver(t, id) >= 0
  {
    hide Ver, Ix, TierInv, Ready;
    InvTracks(t, id);
  }

  // ----- when a pair converges -----

  /** For two tiers that both hold the identifier, in any state their indexes
      can be in: both end with the greater version exactly when the lower one
      has it already or its oldest index entry is below the oldest entry of the
      higher one. Stale entries can hide a newer version for good. */
  lemma PairConvergesExactly(p: Pair, own: seq<byte>, id: Id, forms: iset<seq<byte>>, max: int)
    requires MayTravel(id) && PairFit(p, id, own, forms, max)
    requires p.low.major != p.high.major && p.high.major != TIER_MAJOR_NETWORK
    requires Ver(p.low, id) >= 0 && Ver(p.high, id) >= 0 && (Ver(p.low, id) == max || Ver(p.high, id) == max)
    ensures SyncPair(p, own).Ok? && |Ix(p.low, id)| > 0 && |Ix(p.high, id)| > 0
    ensures var q := SyncPair(p, own).value;
      Ver(q.low, id) == max && Ver(q.high, id) == max <==>
        Ver(p.low, id) == max || Ix(p.low, id)[0] < Ix(p.high, id)[0]
  {
    hide Ver, Ix, TierInv, Ready, ShiftMoves, Listed, Index, Advances, SameAt, Wants, MemOnly, FirstListed, MayTravel;
    InvTracks(p.low, id);
    InvTracks(p.high, id);
    SyncPairEffect(p, own, id, forms, max);
    PairMovesDown(p, own, id, forms, max);
    var q := SyncPair(p, own).value;
    FitBounds(q.low, id, own, forms, max);
    FitBounds(q.high, id, own, forms, max);
    AdvancesVer(p.low, q.low, id, max);
    AdvancesVer(p.high, q.high, id, max);
  }

  lemma PairMovesDown(p: Pair, own: seq<byte>, id: Id, forms: iset<seq<byte>>, max: int)
    requires MayTravel(id) && PairFit(p, id, own, forms, max)
    requires p.low.major != p.high.major && p.high.major != TIER_MAJOR_NETWORK
    requires Ver(p.low, id) >= 0 && Ver(p.high, id) >= 0
    ensures SyncPair(p, own).Ok? && |Ix(p.low, id)| > 0 && |Ix(p.high, id)| > 0
    ensures var q := SyncPair(p, own).value;
      if Ix(p.low, id)[0] < Ix(p.high, id)[0] then Ver(q.low, id) >= Ver(p.high, id)
      else Ver(q.low, id) == Ver(p.low, id)
  {
    hide Ver, Ix, TierInv, Ready, ShiftMoves, Listed, Index, Advances, Wants, MemOnly, FirstListed, ValidId, BlankHash;
    InvTracks(p.low, id);
    InvTracks(p.high, id);
    IxIsListed(p.low, id);
    IxIsListed(p.high, id);
    MovesExactly(Index(p.low).value, Index(p.high).value, id, false);
    MovesStep(p, TierMoves(p.low, p.high).value, own, id, forms, max);
    WantsDownFirst(Ix(p.low, id), Ix(p.high, id)[0]);
  }

  lemma WantsDownFirst(listed: seq<uint64>, first: int)
    requires NonDecreasing(listed) && listed != []
    ensures Wants(listed, first, false) <==> listed[0] < first
  {
  }
}
