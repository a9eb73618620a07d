// Any number of sweeps over any number of tiers, in whatever state their
// indexes are: exactly when the greatest version reaches every holder.

module TierCuts {
  import opened Bytes
  import opened Ids
  import opened TierCache
  import opened TierQueue
  import opened TierSweep
  import opened TierPairs
  import opened TierConvergence

  function Sweeps(tiers: seq<TierData>, own: seq<byte>, n: nat): seq<TierData>
    decreases n
  {
    if n == 0 then tiers else Sweeps(TierLoop(tiers, own).tiers, own, n - 1)
  }

  // ----- cuts -----

  /** The first version the index lists, -1 when it lists none. It never changes
      while a tier holds the identifier. */
  function Oldest(t: TierData, id: Id): int {
    if Ix(t, id) == [] then -1 else Ix(t, id)[0]
  }

  /** The tiers from this major number up, and only those, hold the identifier. */
  predicate HeldFrom(tiers: seq<TierData>, id: Id, floor: byte) {
    forall k :: 0 <= k < |tiers| ==> (Ver(tiers[k], id) >= 0 <==> tiers[k].major >= floor)
  }

  /** Some tier below the cut holds the identifier, none the greatest version. */
  predicate Behind(tiers: seq<TierData>, id: Id, max: int, cut: byte) {
    && (exists k :: 0 <= k < |tiers| && tiers[k].major < cut && Ver(tiers[k], id) >= 0)
    && forall k :: 0 <= k < |tiers| && tiers[k].major < cut ==> Ver(tiers[k], id) < max
  }

  /** Some holder below the cut lists an older first entry than a tier above. */
  predicate Crossing(tiers: seq<TierData>, id: Id, cut: byte) {
    exists i, j :: 0 <= i < |tiers| && 0 <= j < |tiers| && tiers[i].major < cut <= tiers[j].major
      && Ver(tiers[i], id) >= 0 && Oldest(tiers[i], id) < Oldest(tiers[j], id)
  }

  predicate Bridged(tiers: seq<TierData>, id: Id, max: int, cut: byte) {
    Behind(tiers, id, max, cut) ==> Crossing(tiers, id, cut)
  }

  /** Every cut that leaves holders behind is crossed. */
  ghost predicate Bridges(tiers: seq<TierData>, id: Id, max: int) {
    forall cut: byte :: Bridged(tiers, id, max, cut)
  }

  // ----- sweeps in progress -----

  /** What holds throughout: the tiers fit and only advance, those below the
      lowest holder get nothing, and an uncrossed cut keeps the greatest version
      above it. */
  ghost predicate Going(start: seq<TierData>, tiers: seq<TierData>, id: Id, own: seq<byte>, forms: iset<seq<byte>>,
                        max: int, floor: byte, cut: byte)
  {
    && AllFit(tiers, id, own, forms, max) && AllAdvance(start, tiers, id, max)
    && (forall k :: 0 <= k < |start| && start[k].major < floor ==> Ver(tiers[k], id) == -1)
    && (HeldFrom(start, id, floor) && !Bridged(start, id, max, cut) ==>
        forall k :: 0 <= k < |start| && start[k].major < cut ==> Ver(tiers[k], id) < max)
  }

  lemma GoingParts(start: seq<TierData>, tiers: seq<TierData>, id: Id, own: seq<byte>, forms: iset<seq<byte>>,
                   max: int, floor: byte, cut: byte)
    requires Going(start, tiers, id, own, forms, max, floor, cut)
    ensures |tiers| == |start| && AllFit(tiers, id, own, forms, max) && AllAdvance(start, tiers, id, max)
  {
    hide Ver, Fit, Advances, HeldFrom, Bridged;
  }

  /** A tier without the identifier, with none below that has it, gets none. */
  lemma LackStays(tiers: seq<TierData>, next: seq<TierData>, id: Id, max: int, k: nat, other: nat)
    requires k < |tiers| == |next| && other < |tiers| && tiers[k].major != tiers[other].major
    requires Ver(tiers[k], id) == -1 && (tiers[other].major < tiers[k].major ==> Ver(tiers[other], id) == -1)
    requires EffectAt(tiers, next, k, other, id, max) && EffectAt(tiers, next, other, k, id, max)
    ensures Ver(next[k], id) == -1
  {
    hide Ver, EffectAt;
    if tiers[k].major < tiers[other].major {
      EffectFacts(tiers, next, k, other, id, max);
    } else {
      EffectFacts(tiers, next, other, k, id, max);
    }
  }

  /** Two tiers that both lack the greatest version still lack it afterwards. */
  lemma BothStayBehind(p: Pair, own: seq<byte>, id: Id, forms: iset<seq<byte>>, max: int)
    requires MayTravel(id) && PairFit(p, id, own, forms, max) && max >= 1
    requires p.low.major != p.high.major && p.high.major != TIER_MAJOR_NETWORK
    requires Ver(p.low, id) < max && Ver(p.high, id) < max
    ensures SyncPair(p, own).Ok?
    ensures var q := SyncPair(p, own).value;
      Ver(q.low, id) < max && Ver(q.high, id) < max
  {
    hide Ver, TierInv, Ready, MayTravel, SyncPair, PairEffect;
    SyncPairEffect(p, own, id, forms, max - 1);
  }

  /** Across an uncrossed cut nothing comes down. */
  lemma LowStaysBehind(p: Pair, own: seq<byte>, id: Id, forms: iset<seq<byte>>, max: int)
    requires MayTravel(id) && PairFit(p, id, own, forms, max) && max >= 0
    requires p.low.major != p.high.major && p.high.major != TIER_MAJOR_NETWORK
    requires Ver(p.low, id) < max
    requires Ver(p.low, id) >= 0 ==> Ver(p.high, id) >= 0 && Oldest(p.low, id) >= Oldest(p.high, id)
    ensures SyncPair(p, own).Ok? && Ver(SyncPair(p, own).value.low, id) < max
  {
    hide Ver, Ix, Fit, MayTravel, SyncPair, Advances;
    SyncPairEffect(p, own, id, forms, max);
    if Ver(p.low, id) >= 0 {
      PairMovesDown(p, own, id, forms, max);
    }
  }

  lemma OldestStays(t: TierData, next: TierData, id: Id, own: seq<byte>, forms: iset<seq<byte>>, max: int)
    requires Fit(t, id, own, forms, max) && Ver(t, id) >= 0 && Advances(t, next, id, max)
    ensures Oldest(next, id) == Oldest(t, id) && Ver(next, id) >= 0
  {
    hide Ver, Ix, TierInv, Ready, Pure;
    InvTracks(t, id);
  }

  lemma SyncAtPair(tiers: seq<TierData>, i: nat, c: nat, own: seq<byte>, u: nat, w: nat)
    requires i < |tiers| && c < |tiers| && i != c && ((u == i && w == c) || (u == c && w == i))
    requires tiers[u].major < tiers[w].major
    requires SyncPair(Pair(tiers[u], tiers[w]), own).Ok?
    ensures var q := SyncPair(Pair(tiers[u], tiers[w]), own).value;
      SyncAt(tiers, i, c, own).tiers[u] == q.low && SyncAt(tiers, i, c, own).tiers[w] == q.high
  {
    hide SyncPair;
  }

  /** One visit, seen from a tier below an uncrossed cut. */
  lemma BehindStays(start: seq<TierData>, tiers: seq<TierData>, i: nat, c: nat, own: seq<byte>, id: Id,
                    forms: iset<seq<byte>>, max: int, floor: byte, cut: byte, k: nat, other: nat)
    requires DistinctMajors(start) && MayTravel(id) && AllFit(start, id, own, forms, max)
    requires Going(start, tiers, id, own, forms, max, floor, cut)
    requires HeldFrom(start, id, floor) && !Bridged(start, id, max, cut)
    requires k < |start| && other < |start| && ((i == k && c == other) || (i == other && c == k)) && k != other
    requires start[k].major < cut
    ensures Ver(SyncAt(tiers, i, c, own).tiers[k], id) < max
  {
    hide Ver, Fit, MayTravel, Advances, SyncPair, SyncAt, Oldest;
    HeadersKept(start, tiers, id, max);
    AdvancesFacts(start, tiers, k, id, max);
    AdvancesFacts(start, tiers, other, id, max);
    assert Fit(tiers[k], id, own, forms, max) && Fit(tiers[other], id, own, forms, max);
    assert tiers[k].major != tiers[other].major && Ver(tiers[k], id) < max;
    if start[other].major < cut {
      var (u, w) := if tiers[k].major < tiers[other].major then (k, other) else (other, k);
      BehindMax(start, id, max, cut);
      BothStayBehind(Pair(tiers[u], tiers[w]), own, id, forms, max);
      SyncAtPair(tiers, i, c, own, u, w);
    } else {
      if Ver(tiers[k], id) >= 0 {
        assert Fit(start[k], id, own, forms, max) && Fit(start[other], id, own, forms, max);
        OldestStays(start[k], tiers[k], id, own, forms, max);
        OldestStays(start[other], tiers[other], id, own, forms, max);
        assert Oldest(start[k], id) >= Oldest(start[other], id);
      }
      BehindMax(start, id, max, cut);
      LowStaysBehind(Pair(tiers[k], tiers[other]), own, id, forms, max);
      SyncAtPair(tiers, i, c, own, k, other);
    }
  }

  lemma BehindMax(start: seq<TierData>, id: Id, max: int, cut: byte)
    requires Behind(start, id, max, cut)
    ensures max >= 1
  {
    hide Version;
  }

  lemma GoingStep(start: seq<TierData>, tiers: seq<TierData>, i: nat, c: nat, own: seq<byte>, id: Id,
                  forms: iset<seq<byte>>, max: int, floor: byte, cut: byte)
    requires DistinctMajors(start) && MayTravel(id) && AllFit(start, id, own, forms, max) && max >= 0
    requires Going(start, tiers, id, own, forms, max, floor, cut)
    requires i < |start| && c < |start| && i != c
    ensures var next := SyncAt(tiers, i, c, own);
      next.ok && Going(start, next.tiers, id, own, forms, max, floor, cut) && AllAdvance(tiers, next.tiers, id, max)
  {
    hide Ver, Fit, MayTravel, Advances, SyncAt, EffectAt, HeldFrom, Bridged;
    HeadersKept(start, tiers, id, max);
    SyncAtEffect(tiers, i, c, own, id, forms, max);
    var next := SyncAt(tiers, i, c, own).tiers;
    forall k | 0 <= k < |start|
      ensures Advances(start[k], next[k], id, max) && tiers[k].major == start[k].major
      ensures start[k].major < floor ==> Ver(next[k], id) == -1
    {
      AdvancesTwice(start[k], tiers[k], next[k], id, max);
      AdvancesFacts(start, tiers, k, id, max);
      if start[k].major < floor && (k == i || k == c) {
        var other := if k == i then c else i;
        AdvancesFacts(start, tiers, other, id, max);
        LackStays(tiers, next, id, max, k, other);
      }
    }
    if HeldFrom(start, id, floor) && !Bridged(start, id, max, cut) {
      forall k | 0 <= k < |start| && start[k].major < cut
        ensures Ver(next[k], id) < max
      {
        if k == i || k == c {
          BehindStays(start, tiers, i, c, own, id, forms, max, floor, cut, k, if k == i then c else i);
        }
      }
    }
  }

  lemma {:induction false} GoingRow(start: seq<TierData>, tiers: seq<TierData>, i: nat, c: nat, own: seq<byte>, id: Id,
                                    forms: iset<seq<byte>>, max: int, floor: byte, cut: byte)
    requires DistinctMajors(start) && MayTravel(id) && AllFit(start, id, own, forms, max) && max >= 0
    requires Going(start, tiers, id, own, forms, max, floor, cut) && i < |start| == |tiers| && c <= |start|
    ensures var row := SweepRow(tiers, i, c, own);
      row.ok && Going(start, row.tiers, id, own, forms, max, floor, cut)
    decreases |start| - c
  {
    hide Going, AllFit, MayTravel, SyncAt, DistinctMajors;
    if c < |start| {
      if i == c {
        GoingRow(start, tiers, i, c + 1, own, id, forms, max, floor, cut);
      } else {
        GoingStep(start, tiers, i, c, own, id, forms, max, floor, cut);
        GoingRow(start, SyncAt(tiers, i, c, own).tiers, i, c + 1, own, id, forms, max, floor, cut);
      }
    }
  }

  /** A row and the loop after it. */
  lemma GoingRowEnds(start: seq<TierData>, tiers: seq<TierData>, i: nat, own: seq<byte>, id: Id,
                     forms: iset<seq<byte>>, max: int, floor: byte, cut: byte)
    requires DistinctMajors(start) && MayTravel(id) && AllFit(start, id, own, forms, max) && max >= 0
    requires Going(start, tiers, id, own, forms, max, floor, cut) && i < |start| == |tiers|
    ensures var row := SweepRow(tiers, i, 0, own).tiers;
      Going(start, row, id, own, forms, max, floor, cut) && SweepFrom(tiers, i, own) == SweepFrom(row, i + 1, own)
  {
    hide Going, AllFit, AllAdvance, MayTravel, SweepRow, DistinctMajors, Loop;
    GoingRow(start, tiers, i, 0, own, id, forms, max, floor, cut);
    var row := SweepRow(tiers, i, 0, own).tiers;
    GoingParts(start, row, id, own, forms, max, floor, cut);
    LoopsAreSettled(row, id, own, forms, max, i);
  }

  lemma NothingLeft(tiers: seq<TierData>, own: seq<byte>)
    ensures SweepFrom(tiers, |tiers|, own) == Sweep(tiers, true)
  {
    hide SweepRow, Loop;
  }

  lemma {:induction false} GoingFrom(start: seq<TierData>, tiers: seq<TierData>, i: nat, own: seq<byte>, id: Id,
                                     forms: iset<seq<byte>>, max: int, floor: byte, cut: byte)
    requires DistinctMajors(start) && MayTravel(id) && AllFit(start, id, own, forms, max) && max >= 0
    requires Going(start, tiers, id, own, forms, max, floor, cut) && i <= |start| == |tiers|
    ensures var done := SweepFrom(tiers, i, own);
      done.ok && Going(start, done.tiers, id, own, forms, max, floor, cut)
    decreases |start| - i
  {
    hide Going, AllFit, MayTravel, SweepRow, SweepFrom, DistinctMajors, Loop;
    NothingLeft(tiers, own);
    if i < |start| {
      GoingRowEnds(start, tiers, i, own, id, forms, max, floor, cut);
      GoingFrom(start, SweepRow(tiers, i, 0, own).tiers, i + 1, own, id, forms, max, floor, cut);
    }
  }

  /** Any tiers are a beginning: nothing is claimed below major number 0. */
  lemma ItselfGoing(tiers: seq<TierData>, id: Id, own: seq<byte>, forms: iset<seq<byte>>, max: int)
    requires AllFit(tiers, id, own, forms, max)
    ensures Going(tiers, tiers, id, own, forms, max, 0, 0)
  {
    hide Ver, Fit, Advances, HeldFrom, Bridged;
    forall k | 0 <= k < |tiers|
      ensures Advances(tiers[k], tiers[k], id, max)
    {
      AdvancesItself(tiers[k], id, max);
    }
  }

  /** A sweep goes on to its end, and no version goes back. */
  lemma SweepAdvances(tiers: seq<TierData>, own: seq<byte>, id: Id, forms: iset<seq<byte>>, max: int)
    requires DistinctMajors(tiers) && MayTravel(id) && AllFit(tiers, id, own, forms, max) && max >= 0
    ensures var done := TierLoop(tiers, own);
      done.ok && AllFit(done.tiers, id, own, forms, max) && AllAdvance(tiers, done.tiers, id, max)
      && DistinctMajors(done.tiers)
  {
    hide Going, AllFit, AllAdvance, MayTravel, SweepFrom, DistinctMajors;
    ItselfGoing(tiers, id, own, forms, max);
    GoingFrom(tiers, tiers, 0, own, id, forms, max, 0, 0);
    var done := TierLoop(tiers, own).tiers;
    GoingParts(tiers, done, id, own, forms, max, 0, 0);
    HeadersKept(tiers, done, id, max);
  }

  // ----- what one sweep is sure to do -----

  lemma RowAdvances(tiers: seq<TierData>, i: nat, c: nat, own: seq<byte>, id: Id, forms: iset<seq<byte>>, max: int)
    requires DistinctMajors(tiers) && MayTravel(id) && AllFit(tiers, id, own, forms, max) && max >= 0
    requires i < |tiers| && c <= |tiers|
    ensures var row := SweepRow(tiers, i, c, own);
      row.ok && AllFit(row.tiers, id, own, forms, max) && AllAdvance(tiers, row.tiers, id, max)
      && DistinctMajors(row.tiers)
  {
    hide Going, AllFit, AllAdvance, MayTravel, SweepRow, DistinctMajors;
    ItselfGoing(tiers, id, own, forms, max);
    GoingRow(tiers, tiers, i, c, own, id, forms, max, 0, 0);
    var row := SweepRow(tiers, i, c, own).tiers;
    GoingParts(tiers, row, id, own, forms, max, 0, 0);
    HeadersKept(tiers, row, id, max);
  }

  lemma AllAdvanceTwice(a: seq<TierData>, b: seq<TierData>, c: seq<TierData>, id: Id, max: int)
    requires AllAdvance(a, b, id, max) && AllAdvance(b, c, id, max)
    ensures AllAdvance(a, c, id, max)
  {
    hide Advances;
    forall k | 0 <= k < |a|
      ensures Advances(a[k], c[k], id, max)
    {
      AdvancesTwice(a[k], b[k], c[k], id, max);
    }
  }

  lemma AllAdvanceItself(a: seq<TierData>, id: Id, max: int)
    ensures AllAdvance(a, a, id, max)
  {
    hide Advances;
    forall k | 0 <= k < |a|
      ensures Advances(a[k], a[k], id, max)
    {
      AdvancesItself(a[k], id, max);
    }
  }

  /** The tiers as they are before a visit that lies on the way. */
  ghost predicate Visits(tiers: seq<TierData>, before: seq<TierData>, done: seq<TierData>, u: nat, w: nat,
                         own: seq<byte>, id: Id, forms: iset<seq<byte>>, max: int)
    requires u < |tiers| && w < |tiers| && u != w
  {
    && AllAdvance(tiers, before, id, max) && AllFit(before, id, own, forms, max) && DistinctMajors(before)
    && AllAdvance(SyncAt(before, u, w, own).tiers, done, id, max)
  }

  lemma StepAdvances(tiers: seq<TierData>, i: nat, c: nat, own: seq<byte>, id: Id, forms: iset<seq<byte>>, max: int)
    requires DistinctMajors(tiers) && MayTravel(id) && AllFit(tiers, id, own, forms, max) && max >= 0
    requires i < |tiers| && c < |tiers| && i != c
    ensures var next := SyncAt(tiers, i, c, own);
      next.ok && AllFit(next.tiers, id, own, forms, max) && AllAdvance(tiers, next.tiers, id, max)
      && DistinctMajors(next.tiers)
  {
    hide AllFit, AllAdvance, MayTravel, SyncAt, DistinctMajors, EffectAt;
    SyncAtEffect(tiers, i, c, own, id, forms, max);
    HeadersKept(tiers, SyncAt(tiers, i, c, own).tiers, id, max);
  }

  lemma {:induction false} RowVisits(tiers: seq<TierData>, i: nat, c: nat, w: nat, own: seq<byte>, id: Id,
                                     forms: iset<seq<byte>>, max: int)
    returns (before: seq<TierData>)
    requires DistinctMajors(tiers) && MayTravel(id) && AllFit(tiers, id, own, forms, max) && max >= 0
    requires i < |tiers| && c <= w < |tiers| && i != w
    ensures |before| == |tiers|
    ensures Visits(tiers, before, SweepRow(tiers, i, c, own).tiers, i, w, own, id, forms, max)
    decreases w - c
  {
    hide AllFit, AllAdvance, MayTravel, SyncAt, DistinctMajors;
    if c == w {
      before := tiers;
      AllAdvanceItself(tiers, id, max);
      StepAdvances(tiers, i, c, own, id, forms, max);
      RowAdvances(SyncAt(tiers, i, c, own).tiers, i, c + 1, own, id, forms, max);
    } else if i == c {
      before := RowVisits(tiers, i, c + 1, w, own, id, forms, max);
    } else {
      StepAdvances(tiers, i, c, own, id, forms, max);
      var next := SyncAt(tiers, i, c, own).tiers;
      before := RowVisits(next, i, c + 1, w, own, id, forms, max);
      AllAdvanceTwice(tiers, next, before, id, max);
    }
  }

  lemma RowThenLoop(tiers: seq<TierData>, i: nat, own: seq<byte>, id: Id, forms: iset<seq<byte>>, max: int)
    requires DistinctMajors(tiers) && MayTravel(id) && AllFit(tiers, id, own, forms, max) && max >= 0 && i < |tiers|
    ensures SweepFrom(tiers, i, own) == SweepFrom(SweepRow(tiers, i, 0, own).tiers, i + 1, own)
  {
    hide AllFit, AllAdvance, MayTravel, SweepRow, DistinctMajors, Loop;
    RowAdvances(tiers, i, 0, own, id, forms, max);
    LoopsAreSettled(SweepRow(tiers, i, 0, own).tiers, id, own, forms, max, i);
  }

  lemma RestAdvances(tiers: seq<TierData>, i: nat, own: seq<byte>, id: Id, forms: iset<seq<byte>>, max: int)
    requires DistinctMajors(tiers) && MayTravel(id) && AllFit(tiers, id, own, forms, max) && max >= 0 && i <= |tiers|
    ensures AllAdvance(tiers, SweepFrom(tiers, i, own).tiers, id, max)
  {
    hide Going, AllFit, AllAdvance, MayTravel, SweepFrom, DistinctMajors;
    ItselfGoing(tiers, id, own, forms, max);
    GoingFrom(tiers, tiers, i, own, id, forms, max, 0, 0);
    GoingParts(tiers, SweepFrom(tiers, i, own).tiers, id, own, forms, max, 0, 0);
  }

  /** Every ordered pair of positions is visited on the way of a sweep. */
  lemma {:induction false} SweepVisits(tiers: seq<TierData>, i: nat, u: nat, w: nat, own: seq<byte>, id: Id,
                                       forms: iset<seq<byte>>, max: int)
    returns (before: seq<TierData>)
    requires DistinctMajors(tiers) && MayTravel(id) && AllFit(tiers, id, own, forms, max) && max >= 0
    requires i <= u < |tiers| && w < |tiers| && u != w
    ensures |before| == |tiers|
    ensures Visits(tiers, before, SweepFrom(tiers, i, own).tiers, u, w, own, id, forms, max)
    decreases u - i
  {
    hide AllFit, AllAdvance, MayTravel, SyncAt, SweepRow, SweepFrom, DistinctMajors;
    RowThenLoop(tiers, i, own, id, forms, max);
    RowAdvances(tiers, i, 0, own, id, forms, max);
    var row := SweepRow(tiers, i, 0, own).tiers;
    if i == u {
      before := RowVisits(tiers, i, 0, w, own, id, forms, max);
      RestAdvances(row, i + 1, own, id, forms, max);
      AllAdvanceTwice(SyncAt(before, u, w, own).tiers, row, SweepFrom(row, i + 1, own).tiers, id, max);
    } else {
      before := SweepVisits(row, i + 1, u, w, own, id, forms, max);
      AllAdvanceTwice(tiers, row, before, id, max);
    }
  }

  /** One sweep, for a lower tier `u` and a higher tier `w`: what `u` holds `w`
      holds afterwards; the greatest version goes up; and it comes down when the
      first entry of `u` is older than that of `w`. */
  lemma SweepMoves(tiers: seq<TierData>, u: nat, w: nat, own: seq<byte>, id: Id, forms: iset<seq<byte>>, max: int)
    requires DistinctMajors(tiers) && MayTravel(id) && AllFit(tiers, id, own, forms, max) && max >= 0
    requires u < |tiers| && w < |tiers| && tiers[u].major < tiers[w].major && Ver(tiers[u], id) >= 0
    ensures var done := TierLoop(tiers, own).tiers;
      && Ver(done[w], id) >= 0
      && (Ver(tiers[u], id) == max ==> Ver(done[w], id) == max)
      && (Ver(tiers[w], id) == max && Oldest(tiers[u], id) < Oldest(tiers[w], id) ==> Ver(done[u], id) == max)
  {
    hide Ver, Ix, Fit, Advances, MayTravel, SyncAt, SyncPair, SweepFrom, Pure;
    var before := SweepVisits(tiers, 0, u, w, own, id, forms, max);
    SweepAdvances(tiers, own, id, forms, max);
    var done := TierLoop(tiers, own).tiers;
    VisitedVersions(tiers, before, done, own, id, forms, max, u, w, u);
    VisitedVersions(tiers, before, done, own, id, forms, max, u, w, w);
    var p := Pair(before[u], before[w]);
    SyncPairEffect(p, own, id, forms, max);
    SyncAtPair(before, u, w, own, u, w);
    var q := SyncPair(p, own).value;
    EffectVersions(p, q, id, max);
    if Ver(tiers[w], id) == max && Oldest(tiers[u], id) < Oldest(tiers[w], id) {
      OldestStays(tiers[u], before[u], id, own, forms, max);
      OldestStays(tiers[w], before[w], id, own, forms, max);
      PairMovesDown(p, own, id, forms, max);
    }
  }

  lemma EffectVersions(p: Pair, q: Pair, id: Id, max: int)
    requires PairEffect(p, q, id, max)
    ensures Ver(p.low, id) >= 0 ==> Ver(q.high, id) >= 0
    ensures Ver(p.low, id) == max ==> Ver(q.high, id) == max
  {
    hide Ver, Ix, Advances, Pure;
  }

  lemma VisitedVersions(tiers: seq<TierData>, before: seq<TierData>, done: seq<TierData>, own: seq<byte>, id: Id,
                        forms: iset<seq<byte>>, max: int, u: nat, w: nat, k: nat)
    requires u < |tiers| && w < |tiers| && u != w && k < |tiers|
    requires Visits(tiers, before, done, u, w, own, id, forms, max)
    requires AllFit(tiers, id, own, forms, max) && AllFit(done, id, own, forms, max)
    ensures |before| == |tiers| == |done|
    ensures Fit(tiers[k], id, own, forms, max) && Fit(before[k], id, own, forms, max)
    ensures Advances(tiers[k], before[k], id, max) && before[k].major == tiers[k].major
    ensures before[k].major != TIER_MAJOR_NETWORK
    ensures Ver(tiers[k], id) <= Ver(before[k], id) <= max
    ensures Ver(SyncAt(before, u, w, own).tiers[k], id) <= Ver(done[k], id) <= max
  {
    hide Ver, Fit, Advances, SyncAt;
    AdvancesFacts(tiers, before, k, id, max);
    AdvancesFacts(SyncAt(before, u, w, own).tiers, done, k, id, max);
    FitBounds(before[k], id, own, forms, max);
    FitBounds(done[k], id, own, forms, max);
  }

  // ----- many sweeps -----

  lemma {:induction false} GoingSweeps(start: seq<TierData>, tiers: seq<TierData>, n: nat, own: seq<byte>, id: Id,
                                       forms: iset<seq<byte>>, max: int, floor: byte, cut: byte)
    requires DistinctMajors(start) && MayTravel(id) && AllFit(start, id, own, forms, max) && max >= 0
    requires Going(start, tiers, id, own, forms, max, floor, cut)
    ensures Going(start, Sweeps(tiers, own, n), id, own, forms, max, floor, cut)
    decreases n
  {
    hide Going, AllFit, MayTravel, SweepFrom, DistinctMajors;
    if n > 0 {
      GoingParts(start, tiers, id, own, forms, max, floor, cut);
      GoingFrom(start, tiers, 0, own, id, forms, max, floor, cut);
      GoingSweeps(start, TierLoop(tiers, own).tiers, n - 1, own, id, forms, max, floor, cut);
    }
  }

  /** How many of the first `n` tiers have a smaller major number. */
  function CountBelow(tiers: seq<TierData>, major: int, n: nat): (c: nat)
    requires n <= |tiers|
    ensures c <= n
  {
    if n == 0 then 0 else CountBelow(tiers, major, n - 1) + if tiers[n - 1].major < major then 1 else 0
  }

  lemma {:induction false} CountLess(tiers: seq<TierData>, a: int, b: int, n: nat, i: nat)
    requires a <= b && n <= |tiers|
    ensures CountBelow(tiers, a, n) <= CountBelow(tiers, b, n)
    ensures i < n && a <= tiers[i].major < b ==> CountBelow(tiers, a, n) < CountBelow(tiers, b, n)
    ensures i < n && a <= tiers[i].major ==> CountBelow(tiers, a, n) < n
  {
    if n > 0 {
      CountLess(tiers, a, b, n - 1, i);
    }
  }

  /** The tier with the least major number of those that have the greatest version. */
  lemma {:induction false} LeastWithMax(tiers: seq<TierData>, id: Id, max: int, k: nat) returns (t: nat)
    requires k < |tiers| && Ver(tiers[k], id) == max
    ensures t < |tiers| && Ver(tiers[t], id) == max && tiers[t].major <= tiers[k].major
    ensures forall j :: 0 <= j < |tiers| && tiers[j].major < tiers[t].major ==> Ver(tiers[j], id) != max
    decreases tiers[k].major
  {
    hide Ver;
    if j: nat :| j < |tiers| && tiers[j].major < tiers[k].major && Ver(tiers[j], id) == max {
      t := LeastWithMax(tiers, id, max, j);
    } else {
      t := k;
    }
  }

  /** Every tier from `floor` up has the greatest version. */
  predicate AllNewest(tiers: seq<TierData>, id: Id, max: int, floor: byte) {
    forall k :: 0 <= k < |tiers| && tiers[k].major >= floor ==> Ver(tiers[k], id) == max
  }

  /** One sweep brings everything above tier `t` up to date. */
  lemma SweepRaises(tiers: seq<TierData>, t: nat, own: seq<byte>, id: Id, forms: iset<seq<byte>>, max: int)
    requires DistinctMajors(tiers) && MayTravel(id) && AllFit(tiers, id, own, forms, max) && max >= 0
    requires t < |tiers| && Ver(tiers[t], id) == max
    ensures AllNewest(TierLoop(tiers, own).tiers, id, max, tiers[t].major)
  {
    hide Ver, Fit, Advances, MayTravel, TierLoop;
    SweepAdvances(tiers, own, id, forms, max);
    var done := TierLoop(tiers, own).tiers;
    forall k | 0 <= k < |done| && done[k].major >= tiers[t].major
      ensures Ver(done[k], id) == max
    {
      AdvancesFacts(tiers, done, k, id, max);
      FitBounds(done[k], id, own, forms, max);
      if k != t {
        assert tiers[k].major != tiers[t].major;
        SweepMoves(tiers, t, k, own, id, forms, max);
      }
    }
  }

  lemma NewestStays(tiers: seq<TierData>, n: nat, own: seq<byte>, id: Id, forms: iset<seq<byte>>, max: int, floor: byte)
    requires DistinctMajors(tiers) && MayTravel(id) && AllFit(tiers, id, own, forms, max) && max >= 0
    requires AllNewest(tiers, id, max, floor)
    ensures AllNewest(Sweeps(tiers, own, n), id, max, floor)
  {
    hide Ver, Fit, Advances, MayTravel, Sweeps, Going;
    ItselfGoing(tiers, id, own, forms, max);
    GoingSweeps(tiers, tiers, n, own, id, forms, max, 0, 0);
    var done := Sweeps(tiers, own, n);
    GoingParts(tiers, done, id, own, forms, max, 0, 0);
    forall k | 0 <= k < |done| && done[k].major >= floor
      ensures Ver(done[k], id) == max
    {
      AdvancesFacts(tiers, done, k, id, max);
      FitBounds(done[k], id, own, forms, max);
    }
  }

  /** With every cut crossed, two sweeps carry the greatest version to a tier
      with a smaller major number. */
  lemma TwoSweepsLower(start: seq<TierData>, tiers: seq<TierData>, t: nat, own: seq<byte>, id: Id,
                       forms: iset<seq<byte>>, max: int, floor: byte)
    returns (i: nat)
    requires DistinctMajors(start) && MayTravel(id) && AllFit(start, id, own, forms, max) && max >= 0
    requires HeldFrom(start, id, floor) && Bridges(start, id, max)
    requires Going(start, tiers, id, own, forms, max, floor, 0) && t < |start| == |tiers| && Ver(tiers[t], id) == max
    requires forall j :: 0 <= j < |tiers| && tiers[j].major < tiers[t].major ==> Ver(tiers[j], id) != max
    requires exists k :: 0 <= k < |start| && floor <= start[k].major < start[t].major
    ensures i < |start| && start[i].major < start[t].major
    ensures var u := TierLoop(TierLoop(tiers, own).tiers, own).tiers;
      i < |u| && Ver(u[i], id) == max && Going(start, u, id, own, forms, max, floor, 0)
  {
    hide Ver, Fit, Advances, MayTravel, TierLoop, Oldest, Going, Bridged;
    GoingParts(start, tiers, id, own, forms, max, floor, 0);
    HeadersKept(start, tiers, id, max);
    var j: nat;
    i, j := LowestCutCrossed(start, tiers, t, own, id, forms, max, floor);
    SweepRaises(tiers, t, own, id, forms, max);
    SweepGoing(start, tiers, own, id, forms, max, floor);
    var u := TierLoop(tiers, own).tiers;
    SweepGoing(start, u, own, id, forms, max, floor);
    CrossedStill(start, tiers, u, own, id, forms, max, floor, i, j, t);
    SweepMoves(u, i, j, own, id, forms, max);
  }

  lemma SweepGoing(start: seq<TierData>, tiers: seq<TierData>, own: seq<byte>, id: Id, forms: iset<seq<byte>>, max: int,
                   floor: byte)
    requires DistinctMajors(start) && MayTravel(id) && AllFit(start, id, own, forms, max) && max >= 0
    requires Going(start, tiers, id, own, forms, max, floor, 0)
    ensures var done := TierLoop(tiers, own).tiers;
      && Going(start, done, id, own, forms, max, floor, 0)
      && |tiers| == |done| == |start| && AllFit(done, id, own, forms, max) && AllAdvance(start, done, id, max)
      && DistinctMajors(done)
  {
    hide AllFit, AllAdvance, DistinctMajors, MayTravel, SweepFrom, Going;
    GoingParts(start, tiers, id, own, forms, max, floor, 0);
    GoingFrom(start, tiers, 0, own, id, forms, max, floor, 0);
    var done := TierLoop(tiers, own).tiers;
    GoingParts(start, done, id, own, forms, max, floor, 0);
    HeadersKept(start, done, id, max);
  }

  lemma LowestCutCrossed(start: seq<TierData>, tiers: seq<TierData>, t: nat, own: seq<byte>, id: Id,
                         forms: iset<seq<byte>>, max: int, floor: byte)
    returns (i: nat, j: nat)
    requires AllFit(tiers, id, own, forms, max) && AllAdvance(start, tiers, id, max)
    requires HeldFrom(start, id, floor) && Bridges(start, id, max) && t < |start| == |tiers|
    requires forall k :: 0 <= k < |tiers| && tiers[k].major < tiers[t].major ==> Ver(tiers[k], id) != max
    requires exists k :: 0 <= k < |start| && floor <= start[k].major < start[t].major
    ensures i < |start| && j < |start| && start[i].major < start[t].major <= start[j].major
    ensures Ver(start[i], id) >= 0 && Oldest(start[i], id) < Oldest(start[j], id)
  {
    hide Ver, Fit, Advances, Oldest;
    var cut := start[t].major;
    forall k | 0 <= k < |start|
      ensures tiers[k].major == start[k].major
      ensures start[k].major < cut ==> Ver(start[k], id) < max
    {
      AdvancesFacts(start, tiers, k, id, max);
      AdvancesFacts(start, tiers, t, id, max);
      FitBounds(tiers[k], id, own, forms, max);
    }
    var k :| 0 <= k < |start| && floor <= start[k].major < cut;
    assert Ver(start[k], id) >= 0;
    assert Bridged(start, id, max, cut);
    i, j :| 0 <= i < |start| && 0 <= j < |start| && start[i].major < cut <= start[j].major
      && Ver(start[i], id) >= 0 && Oldest(start[i], id) < Oldest(start[j], id);
  }

  lemma CrossedStill(start: seq<TierData>, tiers: seq<TierData>, u: seq<TierData>, own: seq<byte>, id: Id,
                     forms: iset<seq<byte>>, max: int, floor: byte, i: nat, j: nat, t: nat)
    requires AllFit(start, id, own, forms, max) && AllAdvance(start, u, id, max) && HeldFrom(start, id, floor)
    requires AllAdvance(start, tiers, id, max)
    requires t < |start| && i < |start| && j < |start| && start[i].major < start[t].major <= start[j].major
    requires Ver(start[i], id) >= 0 && Oldest(start[i], id) < Oldest(start[j], id)
    requires AllNewest(u, id, max, tiers[t].major)
    ensures u[i].major < u[j].major && Ver(u[i], id) >= 0 && Ver(u[j], id) == max
    ensures Oldest(u[i], id) < Oldest(u[j], id)
  {
    hide Ver, Fit, Advances, Oldest;
    AdvancesFacts(start, u, i, id, max);
    AdvancesFacts(start, u, j, id, max);
    AdvancesFacts(start, tiers, t, id, max);
    assert Fit(start[i], id, own, forms, max) && Fit(start[j], id, own, forms, max);
    assert Ver(start[j], id) >= 0;
    OldestStays(start[i], u[i], id, own, forms, max);
    OldestStays(start[j], u[j], id, own, forms, max);
  }

  /** With every cut crossed, two sweeps for each tier below are enough. */
  lemma {:induction false} CrossedReaches(start: seq<TierData>, tiers: seq<TierData>, t: nat, n: nat, own: seq<byte>,
                                          id: Id, forms: iset<seq<byte>>, max: int, floor: byte)
    requires DistinctMajors(start) && MayTravel(id) && AllFit(start, id, own, forms, max) && max >= 0
    requires HeldFrom(start, id, floor) && Bridges(start, id, max)
    requires Going(start, tiers, id, own, forms, max, floor, 0) && t < |start| == |tiers| && Ver(tiers[t], id) == max
    requires forall j :: 0 <= j < |tiers| && tiers[j].major < tiers[t].major ==> Ver(tiers[j], id) != max
    requires n >= 2 * CountBelow(start, start[t].major, |start|) + 1
    ensures AllNewest(Sweeps(tiers, own, n), id, max, floor)
    decreases n
  {
    hide Ver, Fit, Advances, MayTravel, TierLoop, Going, HeldFrom, Bridges, CountBelow, DistinctMajors;
    GoingParts(start, tiers, id, own, forms, max, floor, 0);
    HeadersKept(start, tiers, id, max);
    AdvancesFacts(start, tiers, t, id, max);
    if k: nat :| k < |start| && floor <= start[k].major < start[t].major {
      CountLess(start, start[k].major, start[t].major, |start|, k);
      var i := TwoSweepsLower(start, tiers, t, own, id, forms, max, floor);
      var v := TierLoop(TierLoop(tiers, own).tiers, own).tiers;
      GoingParts(start, v, id, own, forms, max, floor, 0);
      var t' := LeastWithMax(v, id, max, i);
      AdvancesFacts(start, v, i, id, max);
      AdvancesFacts(start, v, t', id, max);
      CountLess(start, start[t'].major, start[t].major, |start|, t');
      assert Sweeps(tiers, own, n) == Sweeps(TierLoop(tiers, own).tiers, own, n - 1) == Sweeps(v, own, n - 2);
      CrossedReaches(start, v, t', n - 2, own, id, forms, max, floor);
    } else {
      SweepRaises(tiers, t, own, id, forms, max);
      SweepGoing(start, tiers, own, id, forms, max, floor);
      var u := TierLoop(tiers, own).tiers;
      NewestFromFloor(start, u, id, max, floor, start[t].major);
      NewestStays(u, n - 1, own, id, forms, max, floor);
    }
  }

  lemma NewestFromFloor(start: seq<TierData>, u: seq<TierData>, id: Id, max: int, floor: byte, major: byte)
    requires AllAdvance(start, u, id, max) && AllNewest(u, id, max, major)
    requires forall k :: 0 <= k < |start| ==> !(floor <= start[k].major < major)
    ensures AllNewest(u, id, max, floor)
  {
    hide Ver, Advances;
    forall k | 0 <= k < |u| && u[k].major >= floor
      ensures Ver(u[k], id) == max
    {
      AdvancesFacts(start, u, k, id, max);
    }
  }

  // ----- the exact condition -----

  lemma StartGoing(start: seq<TierData>, id: Id, own: seq<byte>, forms: iset<seq<byte>>, max: int, floor: byte,
                   cut: byte)
    requires AllFit(start, id, own, forms, max)
    requires forall k :: 0 <= k < |start| && start[k].major < floor ==> Ver(start[k], id) == -1
    ensures Going(start, start, id, own, forms, max, floor, cut)
  {
    hide Ver, Fit, Advances, HeldFrom, Crossing;
    AllAdvanceItself(start, id, max);
  }

  lemma HeldFromFacts(start: seq<TierData>, id: Id, floor: byte)
    requires HeldFrom(start, id, floor)
    ensures forall k :: 0 <= k < |start| && start[k].major < floor ==> Ver(start[k], id) == -1
  {
    hide Version;
  }

  /** For any number of tiers in any order, all those from tier `a` up holding
      the identifier: the greatest version reaches all of them exactly when every
      cut that has a holder but no greatest version below it is crossed by some
      pair whose lower tier lists an older first entry. What two sweeps for each
      tier do not bring, no number of sweeps brings. */
  lemma ManyTiersConvergeExactly(start: seq<TierData>, a: nat, own: seq<byte>, id: Id, forms: iset<seq<byte>>, max: int,
                                 n: nat)
    requires a < |start| && DistinctMajors(start) && MayTravel(id) && AllFit(start, id, own, forms, max)
    requires HeldFrom(start, id, start[a].major) && max >= 0
    requires exists k :: 0 <= k < |start| && Ver(start[k], id) == max
    ensures n >= 2 * |start| && Bridges(start, id, max) ==> Converged(start, Sweeps(start, own, n), a, id, max)
    ensures Converged(start, Sweeps(start, own, n), a, id, max) ==> Bridges(start, id, max)
  {
    hide Ver, Fit, Advances, MayTravel, Sweeps, Going, Bridged, DistinctMajors;
    var floor := start[a].major;
    HeldFromFacts(start, id, floor);
    var done := Sweeps(start, own, n);
    if Bridges(start, id, max) {
      if n >= 2 * |start| {
        var k: nat :| k < |start| && Ver(start[k], id) == max;
        var t := LeastWithMax(start, id, max, k);
        CountLess(start, start[t].major, start[t].major, |start|, t);
        StartGoing(start, id, own, forms, max, floor, 0);
        CrossedReaches(start, start, t, n, own, id, forms, max, floor);
        GoingSweeps(start, start, n, own, id, forms, max, floor, 0);
        GoingParts(start, done, id, own, forms, max, floor, 0);
        GoingConverged(start, done, a, own, id, forms, max);
      }
    } else {
      var cut: byte :| !Bridged(start, id, max, cut);
      StartGoing(start, id, own, forms, max, floor, cut);
      GoingSweeps(start, start, n, own, id, forms, max, floor, cut);
      UncrossedStays(start, done, a, own, id, forms, max, cut);
    }
  }

  lemma GoingConverged(start: seq<TierData>, done: seq<TierData>, a: nat, own: seq<byte>, id: Id,
                       forms: iset<seq<byte>>, max: int)
    requires a < |start| && Going(start, done, id, own, forms, max, start[a].major, 0)
    requires |done| == |start| && AllNewest(done, id, max, start[a].major)
    ensures Converged(start, done, a, id, max)
  {
    hide Ver, Fit, Advances, HeldFrom, Bridged;
    forall k | 0 <= k < |start|
      ensures done[k].major == start[k].major
    {
      AdvancesFacts(start, done, k, id, max);
    }
  }

  lemma UncrossedStays(start: seq<TierData>, done: seq<TierData>, a: nat, own: seq<byte>, id: Id,
                       forms: iset<seq<byte>>, max: int, cut: byte)
    requires a < |start| && Going(start, done, id, own, forms, max, start[a].major, cut)
    requires HeldFrom(start, id, start[a].major) && !Bridged(start, id, max, cut)
    ensures !Converged(start, done, a, id, max)
  {
    hide Ver, Fit, Advances, Crossing;
    var k :| 0 <= k < |start| && start[k].major < cut && Ver(start[k], id) >= 0;
    assert start[k].major >= start[a].major && Ver(done[k], id) < max;
  }

  /** Some number of sweeps converges exactly when every cut is crossed. */
  lemma SomeSweepConverges(start: seq<TierData>, a: nat, own: seq<byte>, id: Id, forms: iset<seq<byte>>, max: int)
    requires a < |start| && DistinctMajors(start) && MayTravel(id) && AllFit(start, id, own, forms, max)
    requires HeldFrom(start, id, start[a].major) && max >= 0
    requires exists k :: 0 <= k < |start| && Ver(start[k], id) == max
    ensures (exists n :: Converged(start, Sweeps(start, own, n), a, id, max)) <==> Bridges(start, id, max)
  {
    hide Ver, Fit, MayTravel, Sweeps, Bridges, DistinctMajors, Converged, HeldFrom;
    ManyTiersConvergeExactly(start, a, own, id, forms, max, 2 * |start|);
    if n: nat :| Converged(start, Sweeps(start, own, n), a, id, max) {
      ManyTiersConvergeExactly(start, a, own, id, forms, max, n);
    }
  }

  /** After one sweep every tier from the lowest holder up holds the identifier. */
  lemma FirstSweepHolds(start: seq<TierData>, a: nat, own: seq<byte>, id: Id, forms: iset<seq<byte>>, max: int)
    requires a < |start| && DistinctMajors(start) && MayTravel(id) && AllFit(start, id, own, forms, max) && max >= 0
    requires Ver(start[a], id) >= 0
    requires forall k :: 0 <= k < |start| && Ver(start[k], id) >= 0 ==> start[a].major <= start[k].major
    ensures var once := TierLoop(start, own).tiers;
      |once| == |start| && once[a].major == start[a].major && HeldFrom(once, id, once[a].major)
  {
    hide Ver, Fit, Advances, MayTravel, SweepFrom, Bridged;
    var floor := start[a].major;
    LackersBelow(start, a, id);
    StartGoing(start, id, own, forms, max, floor, 0);
    GoingFrom(start, start, 0, own, id, forms, max, floor, 0);
    var once := TierLoop(start, own).tiers;
    AdvancesFacts(start, once, a, id, max);
    forall k | 0 <= k < |start|
      ensures Ver(once[k], id) >= 0 <==> once[k].major >= floor
    {
      AdvancesFacts(start, once, k, id, max);
      if start[k].major >= floor && k != a {
        assert start[k].major != start[a].major;
        SweepMoves(start, a, k, own, id, forms, max);
      }
    }
  }

  lemma LackersBelow(start: seq<TierData>, a: nat, id: Id)
    requires a < |start|
    requires forall k :: 0 <= k < |start| && Ver(start[k], id) >= 0 ==> start[a].major <= start[k].major
    ensures forall k :: 0 <= k < |start| && start[k].major < start[a].major ==> Ver(start[k], id) == -1
  {
    hide Version;
  }

  /** From any tiers at all, whichever of them hold the identifier: some number
      of sweeps converges exactly when every cut is crossed after the first. */
  lemma AnyTiersConvergeExactly(start: seq<TierData>, a: nat, own: seq<byte>, id: Id, forms: iset<seq<byte>>, max: int)
    requires a < |start| && DistinctMajors(start) && MayTravel(id) && AllFit(start, id, own, forms, max) && max >= 0
    requires Ver(start[a], id) >= 0
    requires forall k :: 0 <= k < |start| && Ver(start[k], id) >= 0 ==> start[a].major <= start[k].major
    requires exists k :: 0 <= k < |start| && Ver(start[k], id) == max
    ensures (exists n :: n >= 1 && Converged(start, Sweeps(start, own, n), a, id, max)) <==>
      Bridges(TierLoop(start, own).tiers, id, max)
  {
    hide Ver, Fit, MayTravel, TierLoop, Bridges, DistinctMajors, Advances, HeldFrom, Converged;
    SweepAdvances(start, own, id, forms, max);
    var once := TierLoop(start, own).tiers;
    FirstSweepHolds(start, a, own, id, forms, max);
    var k :| 0 <= k < |start| && Ver(start[k], id) == max;
    AdvancesFacts(start, once, k, id, max);
    FitBounds(once[k], id, own, forms, max);
    if Bridges(once, id, max) {
      var m := 2 * |start|;
      ManyTiersConvergeExactly(once, a, own, id, forms, max, m);
      SameConverged(start, once, Sweeps(once, own, m), a, id, max);
      SweepsNext(start, own, m + 1);
      assert Converged(start, Sweeps(start, own, m + 1), a, id, max);
    }
    if n: nat :| n >= 1 && Converged(start, Sweeps(start, own, n), a, id, max) {
      SweepsNext(start, own, n);
      ManyTiersConvergeExactly(once, a, own, id, forms, max, n - 1);
      SameConverged(start, once, Sweeps(once, own, n - 1), a, id, max);
    }
  }

  lemma SweepsNext(tiers: seq<TierData>, own: seq<byte>, n: nat)
    requires n >= 1
    ensures Sweeps(tiers, own, n) == Sweeps(TierLoop(tiers, own).tiers, own, n - 1)
  {
    hide SweepFrom;
  }

  lemma SameConverged(start: seq<TierData>, once: seq<TierData>, done: seq<TierData>, a: nat, id: Id, max: int)
    requires a < |start| && AllAdvance(start, once, id, max)
    ensures Converged(start, done, a, id, max) <==> Converged(once, done, a, id, max)
  {
    hide Ver, Advances;
    forall k | 0 <= k < |start|
      ensures once[k].major == start[k].major
    {
      AdvancesFacts(start, once, k, id, max);
    }
  }

  lemma CrossingStays(start: seq<TierData>, once: seq<TierData>, own: seq<byte>, id: Id, forms: iset<seq<byte>>,
                      max: int, cut: byte)
    requires AllFit(start, id, own, forms, max) && AllAdvance(start, once, id, max) && Crossing(start, id, cut)
    ensures Crossing(once, id, cut)
  {
    hide Ver, Fit, Advances, Oldest;
    var i, j :| 0 <= i < |start| && 0 <= j < |start| && start[i].major < cut <= start[j].major
      && Ver(start[i], id) >= 0 && Oldest(start[i], id) < Oldest(start[j], id);
    AdvancesFacts(start, once, i, id, max);
    AdvancesFacts(start, once, j, id, max);
    assert Fit(start[i], id, own, forms, max) && Fit(start[j], id, own, forms, max);
    OldestIsHeld(start[i], id, own, forms, max);
    OldestIsHeld(start[j], id, own, forms, max);
    OldestStays(start[i], once[i], id, own, forms, max);
    OldestStays(start[j], once[j], id, own, forms, max);
  }

  lemma OldestIsHeld(t: TierData, id: Id, own: seq<byte>, forms: iset<seq<byte>>, max: int)
    requires Fit(t, id, own, forms, max)
    ensures Oldest(t, id) >= 0 <==> Ver(t, id) >= 0
    ensures Oldest(t, id) >= -1
  {
    hide Ver, Ix, TierInv, Ready;
    InvTracks(t, id);
  }

  lemma BehindBefore(start: seq<TierData>, once: seq<TierData>, a: nat, id: Id, max: int, cut: byte)
    requires a < |start| && AllAdvance(start, once, id, max) && Ver(start[a], id) >= 0
    requires HeldFrom(once, id, start[a].major) && Behind(once, id, max, cut)
    ensures Behind(start, id, max, cut)
  {
    hide Ver, Advances;
    forall k | 0 <= k < |start|
      ensures once[k].major == start[k].major && Ver(start[k], id) <= Ver(once[k], id)
    {
      AdvancesFacts(start, once, k, id, max);
    }
    var k :| 0 <= k < |once| && once[k].major < cut && Ver(once[k], id) >= 0;
    assert start[a].major <= once[k].major < cut;
  }

  /** A condition on the starting tiers, whichever of them hold the identifier: if
      the first entries of those that do cross every cut, some number of sweeps
      converges. */
  lemma CrossedAtStartConverges(start: seq<TierData>, a: nat, own: seq<byte>, id: Id, forms: iset<seq<byte>>, max: int)
    requires a < |start| && DistinctMajors(start) && MayTravel(id) && AllFit(start, id, own, forms, max) && max >= 0
    requires Ver(start[a], id) >= 0
    requires forall k :: 0 <= k < |start| && Ver(start[k], id) >= 0 ==> start[a].major <= start[k].major
    requires exists k :: 0 <= k < |start| && Ver(start[k], id) == max
    requires Bridges(start, id, max)
    ensures exists n :: n >= 1 && Converged(start, Sweeps(start, own, n), a, id, max)
  {
    hide Ver, Fit, MayTravel, TierLoop, DistinctMajors, Advances, HeldFrom, Converged, Behind, Crossing, Sweeps;
    SweepAdvances(start, own, id, forms, max);
    FirstSweepHolds(start, a, own, id, forms, max);
    AnyTiersConvergeExactly(start, a, own, id, forms, max);
    var once := TierLoop(start, own).tiers;
    forall cut: byte
      ensures Bridged(once, id, max, cut)
    {
      if Behind(once, id, max, cut) {
        BehindBefore(start, once, a, id, max, cut);
        assert Bridged(start, id, max, cut);
        CrossingStays(start, once, own, id, forms, max, cut);
      }
    }
  }

  // ----- all tiers hold the identifier -----

  /** If there are tiers below this major number, all short of the greatest
      version, then one of them lists an older first entry than a tier above. */
  predicate OlderBelow(start: seq<TierData>, id: Id, max: int, cut: byte)
    requires forall k :: 0 <= k < |start| ==> |Ix(start[k], id)| > 0
  {
    (exists k :: 0 <= k < |start| && start[k].major < cut)
    && (forall k :: 0 <= k < |start| && start[k].major < cut ==> Ver(start[k], id) < max)
    ==>
    (exists i, j :: 0 <= i < |start| && 0 <= j < |start| && start[i].major < cut <= start[j].major
      && Ix(start[i], id)[0] < Ix(start[j], id)[0])
  }

  predicate AllHave(tiers: seq<TierData>, id: Id, v: int) {
    forall k :: 0 <= k < |tiers| ==> Ver(tiers[k], id) == v
  }

  lemma HoldersList(start: seq<TierData>, id: Id, own: seq<byte>, forms: iset<seq<byte>>, max: int)
    requires AllFit(start, id, own, forms, max) && forall k :: 0 <= k < |start| ==> Ver(start[k], id) >= 0
    ensures forall k :: 0 <= k < |start| ==> |Ix(start[k], id)| > 0
  {
    hide Ver, Ix, TierInv, Ready;
    forall k | 0 <= k < |start|
      ensures |Ix(start[k], id)| > 0
    {
      assert Fit(start[k], id, own, forms, max);
      InvTracks(start[k], id);
    }
  }

  lemma BridgedIsOlderBelow(start: seq<TierData>, id: Id, max: int, cut: byte)
    requires forall k :: 0 <= k < |start| ==> |Ix(start[k], id)| > 0 && Ver(start[k], id) >= 0
    ensures Bridged(start, id, max, cut) <==> OlderBelow(start, id, max, cut)
  {
    hide Ver, Ix;
    assert forall k :: 0 <= k < |start| ==> Oldest(start[k], id) == Ix(start[k], id)[0];
  }

  lemma {:induction false} LowestTier(start: seq<TierData>, k: nat) returns (a: nat)
    requires k < |start|
    ensures a < |start| && forall j :: 0 <= j < |start| ==> start[a].major <= start[j].major
    decreases start[k].major
  {
    if j: nat :| j < |start| && start[j].major < start[k].major {
      a := LowestTier(start, j);
    } else {
      a := k;
    }
  }

  /** When all tiers hold the identifier: some number of sweeps gives all of them
      the greatest version exactly when the first index entries allow it across
      every cut. Only the state before the first sweep is read. */
  lemma AllHoldersConvergeExactly(start: seq<TierData>, own: seq<byte>, id: Id, forms: iset<seq<byte>>, max: int)
    requires DistinctMajors(start) && MayTravel(id) && AllFit(start, id, own, forms, max)
    requires forall k :: 0 <= k < |start| ==> Ver(start[k], id) >= 0
    requires exists k :: 0 <= k < |start| && Ver(start[k], id) == max
    ensures forall k :: 0 <= k < |start| ==> |Ix(start[k], id)| > 0
    ensures (exists n :: AllHave(Sweeps(start, own, n), id, max)) <==>
      forall cut: byte :: OlderBelow(start, id, max, cut)
  {
    hide Ver, Ix, Fit, MayTravel, Sweeps, DistinctMajors, Bridged, OlderBelow, SweepFrom;
    HoldersList(start, id, own, forms, max);
    forall cut: byte
      ensures Bridged(start, id, max, cut) <==> OlderBelow(start, id, max, cut)
    {
      BridgedIsOlderBelow(start, id, max, cut);
    }
    var k: nat :| k < |start| && Ver(start[k], id) == max;
    var a := LowestTier(start, k);
    SomeSweepConverges(start, a, own, id, forms, max);
    forall n: nat
      ensures AllHave(Sweeps(start, own, n), id, max) <==> Converged(start, Sweeps(start, own, n), a, id, max)
    {
      SweepsKeepCount(start, own, n);
    }
  }

  lemma {:induction false} SweepsKeepCount(tiers: seq<TierData>, own: seq<byte>, n: nat)
    ensures |Sweeps(tiers, own, n)| == |tiers|
    decreases n
  {
    hide SweepFrom;
    if n > 0 {
      SweepsKeepCount(TierLoop(tiers, own).tiers, own, n - 1);
    }
  }
}
