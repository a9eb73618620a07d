// What a sweep leaves where it is: the types that are kept in memory, and what
// belongs to other installations.

module TierStay {
  import opened Bytes
  import opened Ids
  import opened Objects
  import Records
  import opened Strip
  import Transport
  import opened TierCache
  import opened TierQueue
  import opened TierSweep
  import opened TierPairs
  import opened TierConvergence
  import opened TierSafety
  import opened TierUnreadable

  // ----- types that are kept in memory -----

  /** The record, the version and the index entries of the identifier are the same. */
  predicate SameRecord(t: TierData, next: TierData, id: Id) {
    CacheGet(next.data, id) == CacheGet(t.data, id) && SameAt(t, next, id)
  }

  lemma SameRecordTwice(t: TierData, u: TierData, next: TierData, id: Id)
    requires SameRecord(t, u, id) && SameRecord(u, next, id)
    ensures SameRecord(t, next, id)
  {
    hide CacheGet, Ver, Ix;
  }

  /** A shift does nothing to other identifiers. */
  lemma ShiftKeepsOthers(from: TierData, to: TierData, id: Id, own: seq<byte>, at: Id)
    requires TierInv(from) && TierInv(to) && id != at
    ensures var done := Shift(from, to, id, own);
      done.from == from && TierInv(done.to) && SameHeader(to, done.to) && SameRecord(to, done.to, at)
  {
    hide TierInv, SameAt, GetData, Transportable, FetchId, Loop, ValidId, Hash, Version, Index, SameHeader, CacheGet;
    ShiftAt(from, to, id, own, at);
    if MayShift(from, to, id, own) {
      MayShiftListed(from, to, id, own);
      ReadListed(from, id);
      var p := CacheGet(from.data, id);
      var sent := Transportable(p, id, own, to);
      if sent.Ok? && sent.value != [] {
        SentKeepsHeader(p, id, own, to);
        FetchedHeader(sent.value);
        PushAt(to, sent.value, at);
      }
    }
  }

  ghost predicate PairKeeps(p: Pair, q: Pair, id: Id) {
    && TierInv(q.low) && TierInv(q.high)
    && SameHeader(p.low, q.low) && SameHeader(p.high, q.high)
    && SameRecord(p.low, q.low, id) && SameRecord(p.high, q.high, id)
  }

  lemma {:induction false} MovesKeepOthers(p: Pair, moves: seq<Move>, own: seq<byte>, at: Id)
    requires TierInv(p.low) && TierInv(p.high) && forall i :: 0 <= i < |moves| ==> moves[i].id != at
    ensures PairKeeps(p, ShiftMoves(p, moves, own), at)
    decreases |moves|
  {
    hide TierInv, SameRecord, Shift;
    SameRecordItself(p.low, at);
    SameRecordItself(p.high, at);
    if moves != [] {
      var m := moves[0];
      if m.up {
        ShiftKeepsOthers(p.low, p.high, m.id, own, at);
      } else {
        ShiftKeepsOthers(p.high, p.low, m.id, own, at);
      }
      var u := ShiftMove(p, m, own);
      MovesKeepOthers(u, moves[1..], own, at);
      var q := ShiftMoves(u, moves[1..], own);
      SameRecordTwice(p.low, u.low, q.low, at);
      SameRecordTwice(p.high, u.high, q.high, at);
    }
  }

  lemma SameRecordItself(t: TierData, id: Id)
    ensures SameRecord(t, t, id)
  {
    hide CacheGet, Ver, Ix;
  }

  ghost predicate AllKeep(tiers: seq<TierData>, next: seq<TierData>, id: Id) {
    && |next| == |tiers| && AllSettled(next)
    && forall k :: 0 <= k < |tiers| ==> SameRecord(tiers[k], next[k], id)
  }

  lemma AllKeepItself(tiers: seq<TierData>, id: Id)
    requires AllSettled(tiers)
    ensures AllKeep(tiers, tiers, id)
  {
    hide TierInv, SameRecord;
    forall k | 0 <= k < |tiers|
      ensures SameRecord(tiers[k], tiers[k], id)
    {
      SameRecordItself(tiers[k], id);
    }
  }

  lemma AllKeepTwice(a: seq<TierData>, b: seq<TierData>, c: seq<TierData>, id: Id)
    requires AllKeep(a, b, id) && AllKeep(b, c, id)
    ensures AllKeep(a, c, id)
  {
    hide TierInv, SameRecord;
    forall k | 0 <= k < |a|
      ensures SameRecord(a[k], c[k], id)
    {
      SameRecordTwice(a[k], b[k], c[k], id);
    }
  }

  lemma SyncAtKeeps(tiers: seq<TierData>, i: nat, c: nat, own: seq<byte>, id: Id)
    requires i < |tiers| && c < |tiers| && i != c && AllSettled(tiers)
    requires Type(id) in {4, 6, 12, 29, 30, 32, 35}
    ensures AllKeep(tiers, SyncAt(tiers, i, c, own).tiers, id)
  {
    hide TierInv, SameRecord, ShiftMoves, Moves, Index;
    AllKeepItself(tiers, id);
    var (low, high) := if tiers[i].major > tiers[c].major then (c, i) else (i, c);
    var p := Pair(tiers[low], tiers[high]);
    if TierMoves(p.low, p.high).Ok? {
      var moves := TierMoves(p.low, p.high).value;
      forall k | 0 <= k < |moves|
        ensures moves[k].id != id
      {
        PlannedTypes(Index(p.low).value, Index(p.high).value, k);
      }
      MovesKeepOthers(p, moves, own, id);
    }
  }

  lemma {:induction false} RowKeeps(tiers: seq<TierData>, i: nat, c: nat, own: seq<byte>, id: Id)
    requires i < |tiers| && c <= |tiers| && AllSettled(tiers)
    requires Type(id) in {4, 6, 12, 29, 30, 32, 35}
    ensures AllKeep(tiers, SweepRow(tiers, i, c, own).tiers, id)
    decreases |tiers| - c
  {
    hide AllKeep, AllSettled, SyncAt;
    AllKeepItself(tiers, id);
    if c < |tiers| {
      if i == c {
        RowKeeps(tiers, i, c + 1, own, id);
      } else {
        SyncAtKeeps(tiers, i, c, own, id);
        var next := SyncAt(tiers, i, c, own).tiers;
        KeepersAreSettled(tiers, next, id);
        if SyncAt(tiers, i, c, own).ok {
          RowKeeps(next, i, c + 1, own, id);
          AllKeepTwice(tiers, next, SweepRow(next, i, c + 1, own).tiers, id);
        }
      }
    }
  }

  lemma KeepersAreSettled(tiers: seq<TierData>, next: seq<TierData>, id: Id)
    requires AllKeep(tiers, next, id)
    ensures AllSettled(next)
  {
    hide TierInv, SameRecord;
  }

  lemma LoopsDoNothing(tiers: seq<TierData>, i: nat)
    requires i < |tiers| && AllSettled(tiers)
    ensures tiers[i := Loop(tiers[i]).tier] == tiers
  {
    hide Loop, TierInv;
    LoopSettled(tiers[i]);
  }

  /** A sweep leaves every identifier of these types as it is in every tier. */
  lemma {:induction false} MemoryTypesStay(tiers: seq<TierData>, i: nat, own: seq<byte>, id: Id)
    requires i <= |tiers| && AllSettled(tiers) && Type(id) in {4, 6, 12, 29, 30, 32, 35}
    ensures AllKeep(tiers, SweepFrom(tiers, i, own).tiers, id)
    decreases |tiers| - i
  {
    hide AllKeep, AllSettled, SweepRow, Loop;
    AllKeepItself(tiers, id);
    if i < |tiers| {
      RowKeeps(tiers, i, 0, own, id);
      var row := SweepRow(tiers, i, 0, own).tiers;
      KeepersAreSettled(tiers, row, id);
      LoopsDoNothing(row, i);
      if SweepRow(tiers, i, 0, own).ok {
        MemoryTypesStay(row, i + 1, own, id);
        AllKeepTwice(tiers, row, SweepFrom(row, i + 1, own).tiers, id);
      }
    }
  }

  lemma SweepKeepsMemoryTypes(tiers: seq<TierData>, own: seq<byte>, id: Id, k: nat)
    requires k < |tiers| && AllSettled(tiers) && Type(id) in {4, 6, 12, 29, 30, 32, 35}
    ensures var done := TierLoop(tiers, own).tiers;
      && CacheGet(done[k].data, id) == CacheGet(tiers[k].data, id)
      && Version(done[k].data, id) == Version(tiers[k].data, id)
  {
    hide TierInv, CacheGet, SweepFrom, Ix;
    MemoryTypesStay(tiers, 0, own, id);
    assert SameRecord(tiers[k], TierLoop(tiers, own).tiers[k], id);
  }

  // ----- identifiers of other installations -----

  /** Memory may hold any version, every other tier only versions up to `most`. */
  predicate Outside(t: TierData, id: Id, most: int) {
    t.major == 0 || Ver(t, id) <= most
  }

  ghost predicate AllOutside(tiers: seq<TierData>, id: Id, most: int) {
    AllSettled(tiers) && forall k :: 0 <= k < |tiers| ==> Outside(tiers[k], id, most)
  }

  lemma ShiftStaysOutside(from: TierData, to: TierData, m: Id, own: seq<byte>, id: Id, most: int)
    requires TierInv(from) && TierInv(to) && Outside(from, id, most) && Outside(to, id, most) && Hash(id) != own
    ensures var done := Shift(from, to, m, own);
      done.from == from && TierInv(done.to) && Outside(done.to, id, most)
  {
    hide Ver, Ix, TierInv, Shift, Hash;
    ShiftAt(from, to, m, own, id);
    if from.major == 0 && m == id {
      ForeignStaysInMemory(from, to, m, own);
    }
  }

  lemma {:induction false} MovesStayOutside(p: Pair, moves: seq<Move>, own: seq<byte>, id: Id, most: int)
    requires TierInv(p.low) && TierInv(p.high) && Outside(p.low, id, most) && Outside(p.high, id, most)
    requires Hash(id) != own
    ensures var q := ShiftMoves(p, moves, own);
      TierInv(q.low) && TierInv(q.high) && Outside(q.low, id, most) && Outside(q.high, id, most)
    decreases |moves|
  {
    hide TierInv, Outside, Shift, Hash;
    if moves != [] {
      if moves[0].up {
        ShiftStaysOutside(p.low, p.high, moves[0].id, own, id, most);
      } else {
        ShiftStaysOutside(p.high, p.low, moves[0].id, own, id, most);
      }
      MovesStayOutside(ShiftMove(p, moves[0], own), moves[1..], own, id, most);
    }
  }

  lemma SyncAtStaysOutside(tiers: seq<TierData>, i: nat, c: nat, own: seq<byte>, id: Id, most: int)
    requires i < |tiers| && c < |tiers| && i != c && AllOutside(tiers, id, most) && Hash(id) != own
    ensures AllOutside(SyncAt(tiers, i, c, own).tiers, id, most)
  {
    hide TierInv, Outside, ShiftMoves, TierMoves, Hash;
    var (low, high) := if tiers[i].major > tiers[c].major then (c, i) else (i, c);
    var p := Pair(tiers[low], tiers[high]);
    if TierMoves(p.low, p.high).Ok? {
      MovesStayOutside(p, TierMoves(p.low, p.high).value, own, id, most);
    }
  }

  lemma {:induction false} RowStaysOutside(tiers: seq<TierData>, i: nat, c: nat, own: seq<byte>, id: Id, most: int)
    requires i < |tiers| && c <= |tiers| && AllOutside(tiers, id, most) && Hash(id) != own
    ensures AllOutside(SweepRow(tiers, i, c, own).tiers, id, most)
    decreases |tiers| - c
  {
    hide AllOutside, SyncAt, Hash;
    if c < |tiers| {
      if i == c {
        RowStaysOutside(tiers, i, c + 1, own, id, most);
      } else {
        SyncAtStaysOutside(tiers, i, c, own, id, most);
        RowStaysOutside(SyncAt(tiers, i, c, own).tiers, i, c + 1, own, id, most);
      }
    }
  }

  lemma {:induction false} SweepStaysOutside(tiers: seq<TierData>, i: nat, own: seq<byte>, id: Id, most: int)
    requires i <= |tiers| && AllOutside(tiers, id, most) && Hash(id) != own
    ensures AllOutside(SweepFrom(tiers, i, own).tiers, id, most)
    decreases |tiers| - i
  {
    hide Outside, SweepRow, Loop, TierInv, Hash;
    if i < |tiers| {
      RowStaysOutside(tiers, i, 0, own, id, most);
      var row := SweepRow(tiers, i, 0, own).tiers;
      LoopsDoNothing(row, i);
      SweepStaysOutside(row, i + 1, own, id, most);
    }
  }

  /** No sweep brings a version of an identifier of another installation out of
      memory: no other tier has a newer one afterwards than the newest that the
      other tiers had before; if none of them had it, none has it. */
  lemma ForeignNeverLeavesMemory(tiers: seq<TierData>, own: seq<byte>, id: Id, most: int, k: nat)
    requires AllSettled(tiers) && Hash(id) != own && k < |tiers|
    requires forall j :: 0 <= j < |tiers| && tiers[j].major != 0 ==> Version(tiers[j].data, id) <= most
    ensures var done := TierLoop(tiers, own).tiers;
      && done[k].major == tiers[k].major
      && (tiers[k].major != 0 ==> Version(done[k].data, id) <= most)
  {
    hide TierInv, SweepFrom, Version, Hash, Run;
    SweepStaysOutside(tiers, 0, own, id, most);
    var actions := SweepFromIsRun(tiers, 0, own);
    UnreadableForEver(tiers, actions, own, k);
    assert Outside(TierLoop(tiers, own).tiers[k], id, most);
  }

  // ----- what a shift stores -----

  /** The target keeps its record or gets the payload as it was sent. */
  lemma ShiftStores(from: TierData, to: TierData, id: Id, own: seq<byte>)
    requires TierInv(from) && TierInv(to)
    ensures var p := CacheGet(Shift(from, to, id, own).to.data, id);
      p == CacheGet(to.data, id) || Transportable(CacheGet(from.data, id), id, own, to) == Ok(p)
  {
    hide TierInv, SameAt, GrewAt, GetData, Transportable, FetchId, Loop, ValidId, Hash, Version, Index, SameHeader,
      CacheGet;
    if MayShift(from, to, id, own) {
      MayShiftListed(from, to, id, own);
      ReadListed(from, id);
      var p := CacheGet(from.data, id);
      var sent := Transportable(p, id, own, to);
      if sent.Ok? && sent.value != [] {
        SentKeepsHeader(p, id, own, to);
        FetchedHeader(sent.value);
        PushAt(to, sent.value, id);
      }
    }
  }

  /** Of an identifier of this installation a tier only ever gets the records
      that list this tier, and of those it gets all. */
  lemma OwnIsStoredListed(from: TierData, to: TierData, id: Id, own: seq<byte>, r: Records.Record)
    requires TierInv(from) && TierInv(to) && Hash(id) == own
    ensures var before, p := CacheGet(from.data, id), CacheGet(Shift(from, to, id, own).to.data, id);
      p == CacheGet(to.data, id)
      || (RecordsOf(before).Ok? && RecordsOf(p).Ok?
          && (r in RecordsOf(p).value <==> r in RecordsOf(before).value && (to.major, to.minor) in r.rules.tier))
  {
    hide TierInv, CacheGet, Hash, Shift, StripToTransportable, RecordsOf;
    ShiftStores(from, to, id, own);
    var before := CacheGet(from.data, id);
    var rules := Transport.Rules([(to.major, to.minor)], []);
    if StripToTransportable(before, rules).Ok? {
      StripLeavesListed(before, rules);
      StripForTier(before, (to.major, to.minor), r);
    }
  }

  /** Of any other identifier it gets the bytes as they are. */
  lemma ForeignIsStoredWhole(from: TierData, to: TierData, id: Id, own: seq<byte>)
    requires TierInv(from) && TierInv(to) && Hash(id) != own
    ensures var p := CacheGet(Shift(from, to, id, own).to.data, id);
      p == CacheGet(to.data, id) || p == CacheGet(from.data, id)
  {
    hide TierInv, CacheGet, Hash, Shift;
    ShiftStores(from, to, id, own);
  }

  // ----- when a shift succeeds -----

  /** What the loop over the identifiers asks before it reads anything. */
  predicate Asks(from: TierData, to: TierData, id: Id, own: seq<byte>) {
    && id[40] != 29
    && (from.major == 0 ==> id[8..40] == own)
    && Index(from).Ok? && Index(to).Ok?
    && (exists i :: 0 <= i < |Index(from).value| && Index(from).value[i].0 == id)
    && |to.extras| > 0
  }

  lemma AskedExactly(from: TierData, to: TierData, id: Id, own: seq<byte>)
    ensures MayShift(from, to, id, own) <==> Asks(from, to, id, own)
  {
    hide Index;
  }

  /** The source tier is left as the reading leaves it, in any state, also when
      nothing was read. */
  lemma ShiftReads(from: TierData, to: TierData, id: Id, own: seq<byte>)
    ensures Shift(from, to, id, own).from == if Asks(from, to, id, own) then GetData(from, id).tier else from
  {
    hide GetData, AddData, Transportable, Asks, MayShift;
    AskedExactly(from, to, id, own);
    if MayShift(from, to, id, own) {
      AskersHaveExtras(from, to, id, own);
    }
  }

  lemma AskersHaveExtras(from: TierData, to: TierData, id: Id, own: seq<byte>)
    requires Asks(from, to, id, own)
    ensures to.extras != []
  {
  }

  /** Between settled tiers the identifier is erased from the caller's list
      exactly when something is left to send whose extra byte is the first one
      that the target allows; otherwise the target stays as it is. */
  lemma ShiftErasesExactly(from: TierData, to: TierData, id: Id, own: seq<byte>)
    requires TierInv(from) && TierInv(to)
    ensures var done, sent := Shift(from, to, id, own), Transportable(CacheGet(from.data, id), id, own, to);
      && (done.ok <==> Asks(from, to, id, own) && sent.Ok? && |sent.value| > 0 && sent.value[0] == to.extras[0])
      && (!done.ok ==> done.to == to)
  {
    hide TierInv, GetData, AddData, Transportable, Loop, ValidId, Hash, Version, Index, CacheGet, Asks, MayShift;
    AskedExactly(from, to, id, own);
    if MayShift(from, to, id, own) {
      AskersHaveExtras(from, to, id, own);
      MayShiftListed(from, to, id, own);
      ReadListed(from, id);
      var sent := Transportable(CacheGet(from.data, id), id, own, to);
      if sent.Ok? && sent.value != [] {
        SentKeepsHeader(CacheGet(from.data, id), id, own, to);
        AddDataExactly(to, sent.value);
      }
    }
  }
}
