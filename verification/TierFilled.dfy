// From empty tiers to convergence: tiers filled by any runs of adds, then one
// sweep, stated about what was added.

module TierFilled {
  import opened Bytes
  import opened Ids
  import opened TierCache
  import opened TierQueue
  import opened TierSweep
  import opened TierPairs
  import opened TierConvergence
  import opened TierReady

  /** A tier and everything that was offered to it, in order. */
  datatype Filling = Filling(major: byte, minor: byte, extras: seq<byte>, offered: seq<seq<byte>>)
  {
    function Tier(): TierData {
      AddAll(EmptyTier(major, minor, extras), offered)
    }

    /** It stores plain bytes, and nothing offered has an invalid identifier. */
    predicate Plain(id: Id) {
      && extras != [] && extras[0] == 0 && AllIdsValid(offered)
      && forall i :: 0 <= i < |offered| && Storable(extras, id, offered[i]) ==> offered[i] != [] && offered[i][0] == 0
    }

    /** Some payload of the identifier was offered that can be stored. */
    predicate Offered(id: Id) {
      exists i :: 0 <= i < |offered| && Storable(extras, id, offered[i])
    }

    predicate AtMost(id: Id, max: int) {
      forall i :: 0 <= i < |offered| && Storable(extras, id, offered[i]) ==> VersionOf(offered[i]) <= max
    }

    predicate Only(id: Id, max: int) {
      forall i :: 0 <= i < |offered| && Storable(extras, id, offered[i]) ==> VersionOf(offered[i]) == max
    }
  }

  function Tiers(fs: seq<Filling>): (r: seq<TierData>)
    ensures |r| == |fs|
  {
    seq(|fs|, k requires 0 <= k < |fs| => fs[k].Tier())
  }

  lemma {:induction false} AddAllKeepsHeader(t: TierData, ds: seq<seq<byte>>)
    ensures SameHeader(t, AddAll(t, ds))
    ensures AddAll(t, ds).inbound == t.inbound && AddAll(t, ds).outbound == t.outbound
  {
    hide CacheAdd;
    if ds != [] {
      AddAllKeepsHeader(t, ds[..|ds| - 1]);
      AddIgnoresQueues(AddAll(t, ds[..|ds| - 1]), ds[|ds| - 1], [], []);
    }
  }

  lemma NewestBounds(f: Filling, id: Id, got: seq<byte>, max: int)
    requires Newest(f.extras, f.offered, id, got) && f.Plain(id) && f.AtMost(id, max)
    ensures got == [] <==> !f.Offered(id)
    ensures got != [] ==> |got| >= 50 && got[0] == 0 && VersionOf(got) <= max
  {
    hide VersionOf, Acceptable, PayloadId;
    if got != [] {
      var k :| 0 <= k < |f.offered| && Winner(f.extras, f.offered, id, k) && f.offered[k] == got;
      StorableIsLong(f.extras, id, got);
    }
  }

  lemma FilledFacts(f: Filling, id: Id, max: int)
    requires f.Plain(id) && f.AtMost(id, max)
    ensures var t := f.Tier();
      && TierInv(t) && t.major == f.major && t.minor == f.minor && t.extras == f.extras
      && (Ver(t, id) >= 0 <==> f.Offered(id)) && (f.Offered(id) ==> Ver(t, id) <= max)
      && (var p := CacheGet(t.data, id); p == [] || (|p| >= 50 && p[0] == 0))
  {
    hide CacheInv, Newest, CacheGet, Version, VersionOf, Storable, AddAll, Index, ValidId, PayloadId;
    var empty := EmptyTier(f.major, f.minor, f.extras);
    CacheRefinesMap(f.major, f.minor, f.extras, f.offered, id);
    AddAllKeepsHeader(empty, f.offered);
    var t := f.Tier();
    CacheInvIndex(t);
    CacheGetAfter(t, [], id);
    NewestBounds(f, id, CacheGet(t.data, id), max);
    EmptyHasNoVersion();
    LongHasVersion(CacheGet(t.data, id));
  }

  lemma EmptyHasNoVersion()
    ensures VersionOf([]) == -1
  {
  }

  lemma LongHasVersion(p: seq<byte>)
    ensures |p| >= 50 ==> VersionOf(p) >= 0
  {
  }

  /** A tier to which only one version was offered lists only that one. */
  lemma {:induction false} FilledUniform(t: TierData, ds: seq<seq<byte>>, id: Id, max: int)
    requires CacheInv(t) && AllIdsValid(ds) && Uniform(t, id, max)
    requires forall i :: 0 <= i < |ds| && Storable(t.extras, id, ds[i]) ==> VersionOf(ds[i]) == max
    ensures CacheInv(AddAll(t, ds)) && Uniform(AddAll(t, ds), id, max)
  {
    hide CacheInv, CacheAdd, Storable, VersionOf, PayloadId, ValidId, Uniform;
    if ds != [] {
      var before, d := ds[..|ds| - 1], ds[|ds| - 1];
      FilledUniform(t, before, id, max);
      AddAllKeepsHeader(t, before);
      AddUniform(AddAll(t, before), d, id, max);
    }
  }

  lemma AddUniform(t: TierData, d: seq<byte>, id: Id, max: int)
    requires CacheInv(t) && (|d| >= 50 ==> ValidId(PayloadId(d))) && Uniform(t, id, max)
    requires Storable(t.extras, id, d) ==> VersionOf(d) == max
    ensures CacheInv(CacheAdd(t, d).tier) && Uniform(CacheAdd(t, d).tier, id, max)
  {
    hide CacheInv, CacheAdd, PayloadId, ValidId, PayloadVersion, Listed, Index, Version, Acceptable, Put;
    CacheInvIndex(t);
    CacheAddKeepsInv(t, d);
    CacheAddEffect(t, d);
    if CacheAdd(t, d).ok {
      AcceptableIsLong(t.extras, d);
      CacheAddAt(t, d, id);
      assert id == PayloadId(d) ==> Storable(t.extras, id, d) && PayloadVersion(d) == max;
      assert Ix(CacheAdd(t, d).tier, id) == if id == PayloadId(d) then Ix(t, id) + [PayloadVersion(d)] else Ix(t, id);
    }
  }

  lemma EmptyUniform(f: Filling, id: Id, max: int)
    ensures CacheInv(EmptyTier(f.major, f.minor, f.extras)) && Uniform(EmptyTier(f.major, f.minor, f.extras), id, max)
  {
    EmptyTierInv(f.major, f.minor, f.extras, id);
    assert Index(EmptyTier(f.major, f.minor, f.extras)) == Ok([]);
  }

  lemma FilledPure(f: Filling, id: Id, max: int)
    requires f.Plain(id) && f.Only(id, max) && f.AtMost(id, max) && f.Offered(id)
    ensures Pure(f.Tier(), id, max)
  {
    hide CacheInv, TierInv, Storable, VersionOf, AddAll, Ver, Ix, CacheGet, PayloadId, ValidId;
    EmptyUniform(f, id, max);
    FilledUniform(EmptyTier(f.major, f.minor, f.extras), f.offered, id, max);
    FilledFacts(f, id, max);
    InvTracks(f.Tier(), id);
  }

  lemma FilledFits(f: Filling, id: Id, own: seq<byte>, max: int)
    requires f.Plain(id) && f.AtMost(id, max) && max >= 0 && Hash(id) != own && f.major != 0
    ensures Fit(f.Tier(), id, own, PlainForms(), max)
  {
    hide TierInv, Storable, VersionOf, AddAll, Ver, CacheGet, Hash, Ready, PlainForms, PayloadId, ValidId;
    FilledFacts(f, id, max);
    NotOfferedBound(f.Tier(), id);
    ForeignIsReady(f.Tier(), id, own);
  }

  lemma NotOfferedBound(t: TierData, id: Id)
    ensures Ver(t, id) >= -1
  {
  }

  /** Any number of tiers, whatever was offered to each of them: if some tier was
      offered the greatest version of an identifier and no other version of it,
      then after one sweep every tier from the lowest that was offered the
      identifier gives that version, and the tiers below give nothing. */
  lemma FilledTiersConverge(fs: seq<Filling>, a: nat, r: nat, id: Id, own: seq<byte>, max: int, k: nat)
    requires a < |fs| && r < |fs| && k < |fs| && max >= 0 && MayTravel(id) && Hash(id) != own
    requires forall i, j :: 0 <= i < j < |fs| ==> fs[i].major != fs[j].major
    requires forall i :: 0 <= i < |fs| ==>
      fs[i].major != 0 && fs[i].major != TIER_MAJOR_NETWORK && fs[i].Plain(id) && fs[i].AtMost(id, max)
    requires fs[a].Offered(id) && forall i :: 0 <= i < |fs| && fs[i].Offered(id) ==> fs[a].major <= fs[i].major
    requires fs[r].Offered(id) && fs[r].Only(id, max)
    ensures var done := TierLoop(Tiers(fs), own);
      var got := CacheGet(done.tiers[k].data, id);
      && done.ok
      && if fs[k].major < fs[a].major then got == []
         else |got| >= 50 && PayloadId(got) == id && PayloadVersion(got) == max
  {
    hide Fit, TierLoop, Pure, Ver, AllIdsValid, AddAll, MayTravel, Hash, CacheGet, Storable, TierInv, Advances,
      PayloadId, PayloadVersion;
    var start := Tiers(fs);
    forall i | 0 <= i < |fs|
      ensures Fit(start[i], id, own, PlainForms(), max) && start[i].major == fs[i].major
      ensures Ver(start[i], id) >= 0 <==> fs[i].Offered(id)
    {
      FilledFits(fs[i], id, own, max);
      FilledFacts(fs[i], id, max);
    }
    FilledPure(fs[r], id, max);
    OneSweepConverges(start, a, r, id, own, PlainForms(), max);
    var done := TierLoop(start, own).tiers;
    FitInv(done[k], id, own, PlainForms(), max);
    HeldOrNothing(done[k], id);
  }

  lemma FitInv(t: TierData, id: Id, own: seq<byte>, forms: iset<seq<byte>>, max: int)
    requires Fit(t, id, own, forms, max)
    ensures TierInv(t)
  {
    hide TierInv, Ready, Ver;
  }

  lemma HeldOrNothing(t: TierData, id: Id)
    requires TierInv(t)
    ensures var got := CacheGet(t.data, id);
      if Ver(t, id) == -1 then got == []
      else |got| >= 50 && PayloadId(got) == id && PayloadVersion(got) == Ver(t, id)
  {
    hide PayloadId, PayloadVersion, TierInv, GetData, Find;
    if Ver(t, id) >= 0 {
      ReadListed(t, id);
    }
  }
}
