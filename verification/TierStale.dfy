// Two tiers: when index entries of overwritten versions hide a newer one.

module TierStale {
  import opened Bytes
  import opened Ids
  import opened Objects
  import opened TierCache
  import opened TierQueue
  import opened TierSweep
  import opened TierPairs
  import opened TierConvergence
  import opened TierCuts
  import opened TierReady
  import opened TierFilled

  // ----- a sweep over two tiers -----

  /** Both tiers may be compared and both hold the identifier. */
  ghost predicate TwoHolders(p: Pair, id: Id, own: seq<byte>, forms: iset<seq<byte>>, max: int) {
    && MayTravel(id) && PairFit(p, id, own, forms, max)
    && p.low.major < p.high.major && p.high.major != TIER_MAJOR_NETWORK
    && Ver(p.low, id) >= 0 && Ver(p.high, id) >= 0
    && (Ver(p.low, id) == max || Ver(p.high, id) == max)
  }

  lemma HoldersStay(p: Pair, own: seq<byte>, id: Id, forms: iset<seq<byte>>, max: int)
    requires TwoHolders(p, id, own, forms, max)
    ensures SyncPair(p, own).Ok? && TwoHolders(SyncPair(p, own).value, id, own, forms, max)
    ensures |Ix(p.low, id)| > 0 && |Ix(p.high, id)| > 0
    ensures var q := SyncPair(p, own).value;
      && Ix(q.low, id) != [] && Ix(q.low, id)[0] == Ix(p.low, id)[0]
      && Ix(q.high, id) != [] && Ix(q.high, id)[0] == Ix(p.high, id)[0]
      && Ver(p.low, id) <= Ver(q.low, id) <= max && Ver(p.high, id) <= Ver(q.high, id) <= max
  {
    hide Ver, Ix, SyncPair, MayTravel, Fit, Pure, SameAt;
    PairConvergesExactly(p, own, id, forms, max);
    SyncPairEffect(p, own, id, forms, max);
    var q := SyncPair(p, own).value;
    PureVersion(q.low, id, own, forms, max);
    PureVersion(q.high, id, own, forms, max);
  }

  /** A sweep visits the only pair twice. */
  lemma TwoTiersLoop(p: Pair, own: seq<byte>, id: Id, forms: iset<seq<byte>>, max: int)
    requires TwoHolders(p, id, own, forms, max)
    ensures SyncPair(p, own).Ok?
    ensures var q := SyncPair(SyncPair(p, own).value, own);
      q.Ok? && TierLoop([p.low, p.high], own) == Sweep([q.value.low, q.value.high], true)
  {
    hide Ver, Ix, MayTravel, Fit, Loop, SyncPair;
    HoldersStay(p, own, id, forms, max);
    var u := SyncPair(p, own).value;
    HoldersStay(u, own, id, forms, max);
    var q := SyncPair(u, own).value;
    var start, once, twice := [p.low, p.high], [u.low, u.high], [q.low, q.high];
    assert SyncAt(start, 0, 1, own).tiers == once && SyncAt(once, 1, 0, own).tiers == twice;
    FitLoops(u.low, id, own, forms, max);
    FitLoops(q.high, id, own, forms, max);
    assert SweepRow(start, 0, 0, own) == SweepRow(start, 0, 1, own) == SweepRow(once, 0, 2, own) == Sweep(once, true);
    assert SweepRow(once, 1, 0, own) == SweepRow(twice, 1, 1, own) == SweepRow(twice, 1, 2, own) == Sweep(twice, true);
    assert once[0 := u.low] == once && twice[1 := q.high] == twice;
    assert SweepFrom(twice, 2, own) == Sweep(twice, true);
    assert SweepFrom(once, 1, own) == SweepFrom(twice, 2, own);
    assert SweepFrom(start, 0, own) == SweepFrom(once, 1, own);
  }

  lemma FitLoops(t: TierData, id: Id, own: seq<byte>, forms: iset<seq<byte>>, max: int)
    requires Fit(t, id, own, forms, max)
    ensures Loop(t).tier == t
  {
    hide TierInv, Ready, Ver, Loop;
    LoopSettled(t);
  }

  /** For two holders of an identifier the first sweep decides: both end with the
      greater version exactly when the lower tier has it already or its oldest
      index entry is below the oldest entry of the higher tier, and otherwise the
      lower tier keeps its version for ever. */
  lemma {:induction false} TwoTiersConvergeExactly(p: Pair, own: seq<byte>, id: Id, forms: iset<seq<byte>>, max: int,
                                                   n: nat)
    requires n >= 1 && TwoHolders(p, id, own, forms, max)
    ensures |Ix(p.low, id)| > 0 && |Ix(p.high, id)| > 0
    ensures var done := Sweeps([p.low, p.high], own, n);
      |done| == 2 && (Ver(done[0], id) == max && Ver(done[1], id) == max <==>
        Ver(p.low, id) == max || Ix(p.low, id)[0] < Ix(p.high, id)[0])
      && (Ix(p.low, id)[0] >= Ix(p.high, id)[0] ==> Ver(done[0], id) == Ver(p.low, id))
    decreases n
  {
    hide Ver, Ix, MayTravel, Fit, TierLoop, SyncPair;
    TwoTiersLoop(p, own, id, forms, max);
    HoldersStay(p, own, id, forms, max);
    PairConvergesExactly(p, own, id, forms, max);
    var u := SyncPair(p, own).value;
    HoldersStay(u, own, id, forms, max);
    PairConvergesExactly(u, own, id, forms, max);
    LowStays(p, own, id, forms, max);
    LowStays(u, own, id, forms, max);
    var q := SyncPair(u, own).value;
    if n > 1 {
      TwoTiersConvergeExactly(q, own, id, forms, max, n - 1);
    } else {
      SweepsOnce([p.low, p.high], own);
    }
  }

  lemma SweepsOnce(tiers: seq<TierData>, own: seq<byte>)
    ensures Sweeps(tiers, own, 1) == TierLoop(tiers, own).tiers
  {
    hide TierLoop;
    assert Sweeps(tiers, own, 1) == Sweeps(TierLoop(tiers, own).tiers, own, 0);
  }

  lemma LowStays(p: Pair, own: seq<byte>, id: Id, forms: iset<seq<byte>>, max: int)
    requires TwoHolders(p, id, own, forms, max)
    ensures SyncPair(p, own).Ok? && |Ix(p.low, id)| > 0 && |Ix(p.high, id)| > 0
    ensures Ix(p.low, id)[0] >= Ix(p.high, id)[0] ==> Ver(SyncPair(p, own).value.low, id) == Ver(p.low, id)
  {
    hide Ver, Ix, MayTravel, Fit, SyncPair;
    PairMovesDown(p, own, id, forms, max);
  }

  // ----- concrete tiers -----

  /** UUID 1, an owner hash that starts with 1, type 20. */
  function ExampleId(): Id {
    [1] + Zeros(7) + [1] + Zeros(31) + [20]
  }

  lemma ExampleTravels()
    ensures MayTravel(ExampleId()) && Hash(ExampleId()) != Zeros(32)
  {
    var id := ExampleId();
    assert id[0] == 1 && id[8] == 1 && id[40] == 20;
    assert Hash(id)[0] == 1;
    UuidIsNotZero(id);
  }

  lemma UuidIsNotZero(id: Id)
    requires id[0] == 1
    ensures Uuid(id) != 0
  {
    assert id[..8][0] == 1;
  }

  /** What adding one bare export does to a tier, for its own identifier. */
  lemma AddBare(t: TierData, id: Id, version: uint64)
    requires CacheInv(t) && MayTravel(id) && t.extras == [0] && Ver(t, id) <= version
    ensures var next := CacheAdd(t, Bare(id, version)).tier;
      CacheInv(next) && next.extras == [0] && Ver(next, id) == version && Ix(next, id) == Ix(t, id) + [version]
  {
    hide CacheAdd, CacheInv, Listed, Index, Version, ValidId, BlankHash, Put, Bare, PayloadId, PayloadVersion;
    BareHeader(id, version);
    CacheInvIndex(t);
    CacheAddEffect(t, Bare(id, version));
    CacheAddAt(t, Bare(id, version), id);
    CacheAddKeepsInv(t, Bare(id, version));
  }

  lemma OneAdd(major: byte, id: Id, v: uint64)
    requires MayTravel(id)
    ensures var t := Filling(major, 0, [0], [Bare(id, v)]).Tier();
      Ver(t, id) == v && Ix(t, id) == [v]
  {
    hide CacheAdd, CacheInv, Ver, Ix, Bare;
    var f := Filling(major, 0, [0], []);
    EmptyListsNothing(f, id);
    AddBare(f.Tier(), id, v);
    AddAllOne(f.Tier(), Bare(id, v));
  }

  lemma TwoAdds(major: byte, id: Id, v: uint64, w: uint64)
    requires MayTravel(id) && v <= w
    ensures var t := Filling(major, 0, [0], [Bare(id, v), Bare(id, w)]).Tier();
      Ver(t, id) == w && Ix(t, id) == [v, w]
  {
    hide CacheAdd, CacheInv, Ver, Ix, Bare;
    var f := Filling(major, 0, [0], []);
    EmptyListsNothing(f, id);
    AddBare(f.Tier(), id, v);
    AddBare(CacheAdd(f.Tier(), Bare(id, v)).tier, id, w);
    AddAllTwo(f.Tier(), Bare(id, v), Bare(id, w));
  }

  lemma EmptyListsNothing(f: Filling, id: Id)
    requires f.offered == [] && f.extras == [0]
    ensures CacheInv(f.Tier()) && f.Tier().extras == [0] && Ver(f.Tier(), id) == -1 && Ix(f.Tier(), id) == []
  {
    EmptyTierInv(f.major, f.minor, f.extras, id);
    assert Index(f.Tier()) == Ok([]);
  }

  lemma AddAllOne(t: TierData, d: seq<byte>)
    ensures AddAll(t, [d]) == CacheAdd(t, d).tier && AddAll(t, []) == t
  {
    hide CacheAdd;
    assert [d][..0] == [];
  }

  lemma AddAllTwo(t: TierData, d: seq<byte>, e: seq<byte>)
    ensures AddAll(t, [d, e]) == CacheAdd(CacheAdd(t, d).tier, e).tier
  {
    hide CacheAdd;
    assert [d, e][..1] == [d];
    AddAllOne(t, d);
  }

  ghost predicate IsBare(d: seq<byte>, id: Id, max: int) {
    exists v: uint64 :: v <= max && d == Bare(id, v)
  }

  lemma BarePlain(f: Filling, id: Id, max: int)
    requires MayTravel(id) && f.extras == [0] && max < U64
    requires forall i :: 0 <= i < |f.offered| ==> IsBare(f.offered[i], id, max)
    ensures f.Plain(id) && f.AtMost(id, max)
  {
    hide ValidId, BlankHash, Acceptable, PayloadId, PayloadVersion, Bare;
    forall i | 0 <= i < |f.offered|
      ensures |f.offered[i]| >= 50 && f.offered[i][0] == 0
      ensures PayloadId(f.offered[i]) == id && PayloadVersion(f.offered[i]) <= max
    {
      assert IsBare(f.offered[i], id, max);
      var v: uint64 :| v <= max && f.offered[i] == Bare(id, v);
      BareHeader(id, v);
    }
  }

  /** A concrete pair that never converges: the lower tier was given version 1,
      the higher one version 1 and then 2. After any number of sweeps the lower
      tier still has version 1. */
  lemma StalePairStaysApart(n: nat)
    ensures
      var id := ExampleId();
      var low := Filling(1, 0, [0], [Bare(id, 1)]).Tier();
      var high := Filling(2, 0, [0], [Bare(id, 1), Bare(id, 2)]).Tier();
      Ver(low, id) == 1 && Ver(high, id) == 2
      && (n >= 1 ==> var done := Sweeps([low, high], Zeros(32), n);
          |done| == 2 && Ver(done[0], id) == 1)
  {
    hide Ver, Ix, Sweeps, MayTravel, Fit, Bare, Hash, AddAll, CacheInv;
    var id, own := ExampleId(), Zeros(32);
    var low, high := Filling(1, 0, [0], [Bare(id, 1)]), Filling(2, 0, [0], [Bare(id, 1), Bare(id, 2)]);
    ExampleTravels();
    OneAdd(1, id, 1);
    TwoAdds(2, id, 1, 2);
    assert IsBare(Bare(id, 1), id, 2) && IsBare(Bare(id, 2), id, 2);
    BarePlain(low, id, 2);
    BarePlain(high, id, 2);
    FilledFits(low, id, own, 2);
    FilledFits(high, id, own, 2);
    FilledFacts(low, id, 2);
    FilledFacts(high, id, 2);
    if n >= 1 {
      TwoTiersConvergeExactly(Pair(low.Tier(), high.Tier()), own, id, PlainForms(), 2, n);
    }
  }

  /** A concrete pair with one index entry in each tier that converges in one
      sweep, after which copies are still planned. */
  lemma ExactPairStaysNoisy()
    ensures
      var id := ExampleId();
      var low := Filling(1, 0, [0], [Bare(id, 2)]).Tier();
      var high := Filling(2, 0, [0], [Bare(id, 1)]).Tier();
      var done := TierLoop([low, high], Zeros(32)).tiers;
      && ListedOnce(low, id) && ListedOnce(high, id)
      && Ver(done[0], id) == 2 && Ver(done[1], id) == 2
      && !Quiet(done, id)
  {
    hide Ver, Ix, TierLoop, MayTravel, Fit, Bare, Hash, AddAll, CacheInv, Quiet;
    var id, own := ExampleId(), Zeros(32);
    var low, high := Filling(1, 0, [0], [Bare(id, 2)]), Filling(2, 0, [0], [Bare(id, 1)]);
    ExampleTravels();
    OneAdd(1, id, 2);
    OneAdd(2, id, 1);
    assert IsBare(Bare(id, 1), id, 2) && IsBare(Bare(id, 2), id, 2);
    BarePlain(low, id, 2);
    BarePlain(high, id, 2);
    FilledFits(low, id, own, 2);
    FilledFits(high, id, own, 2);
    FilledFacts(low, id, 2);
    FilledFacts(high, id, 2);
    var start := [low.Tier(), high.Tier()];
    assert Ix(start[1], id)[0] != 2;
    OneSweepConverges(start, 0, 0, id, own, PlainForms(), 2);
    QuietExactly(start, 0, 0, id, own, PlainForms(), 2);
    assert !Uniform(start[1], id, 2);
  }
}
