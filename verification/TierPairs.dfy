// What one shift and one pair of tiers do to each identifier.

module TierPairs {
  import opened Bytes
  import opened Ids
  import opened Objects
  import opened Strip
  import opened TierCache
  import opened TierQueue
  import opened TierSweep

  // ----- one identifier in one tier -----

  function Ver(t: TierData, id: Id): (v: int)
    ensures v >= -1
  {
    Version(t.data, id)
  }

  /** The versions the index lists of an identifier. */
  function Ix(t: TierData, id: Id): seq<uint64> {
    if Index(t).Ok? then Listed(Index(t).value, id) else []
  }

  predicate SameAt(t: TierData, next: TierData, id: Id) {
    Ver(next, id) == Ver(t, id) && Ix(next, id) == Ix(t, id)
  }

  /** A version was added: it is not older, and the index has one more entry. */
  predicate GrewAt(t: TierData, next: TierData, id: Id, v: int) {
    v >= 0 && v < U64 && Ver(t, id) <= v == Ver(next, id) && Ix(next, id) == Ix(t, id) + [v]
  }

  predicate SameHeader(t: TierData, next: TierData) {
    t.major == next.major && t.minor == next.minor && t.extras == next.extras
  }

  lemma InvTracks(t: TierData, id: Id)
    requires TierInv(t)
    ensures Index(t).Ok? && Tracks(Ix(t, id), Ver(t, id))
  {
    hide Version, Listed, Tracks, UniqueIds, Index, Settled;
  }

  lemma {:induction false} ListsIsListed(index: seq<IndexEntry>, id: Id)
    ensures ListsId(index, id) <==> Listed(index, id) != []
  {
    if index != [] {
      ListsIsListed(index[1..], id);
      if ListsId(index[1..], id) {
        var i :| 0 <= i < |index[1..]| && index[1..][i].0 == id;
        assert index[i + 1].0 == id;
      }
    }
  }

  // ----- payloads on their way -----

  lemma FetchedHeader(d: seq<byte>)
    requires |d| >= 50
    ensures FetchId(d) == Ok(PayloadId(d)) && FetchModInc(d) == Ok(PayloadVersion(d))
  {
    hide Uint64Of;
  }

  /** Whatever is sent has the identifier and the version of what was read. */
  lemma SentKeepsHeader(p: Payload, id: Id, own: seq<byte>, to: TierData)
    requires Transportable(p, id, own, to).Ok? && Transportable(p, id, own, to).value != []
    ensures var q := Transportable(p, id, own, to).value;
      |q| >= 50 && PayloadId(q) == PayloadId(p) && PayloadVersion(q) == PayloadVersion(p)
  {
    hide StripToTransportable, FetchId, FetchModInc, PayloadId, PayloadVersion;
    var q := Transportable(p, id, own, to).value;
    if Hash(id) == own {
      StripKeepsHeader(p, Transport.Rules([(to.major, to.minor)], []));
    }
    FetchedHeader(p);
    FetchedHeader(q);
  }

  /** What a settled tier hands over when its index lists the identifier. */
  lemma ReadListed(t: TierData, id: Id)
    requires TierInv(t) && Ver(t, id) >= 0
    ensures var p := CacheGet(t.data, id);
      |p| >= 50 && PayloadId(p) == id && PayloadVersion(p) == Ver(t, id)
      && GetData(t, id) == Got(t, p)
  {
    hide PayloadId, PayloadVersion, Find, GetData, TierInv;
    GetDataSettled(t, id);
  }

  /** Adding a payload to a settled tier, seen from one identifier. */
  lemma PushAt(t: TierData, q: Payload, id: Id)
    requires TierInv(t) && ValidId(PayloadId(q))
    ensures var next := Loop(Push(t, PayloadId(q), q)).tier;
      && TierInv(next) && SameHeader(t, next)
      && (SameAt(t, next, id) || (id == PayloadId(q) && GrewAt(t, next, id, PayloadVersion(q))))
      && (Acceptable(t.extras, q) && Ver(t, PayloadId(q)) <= PayloadVersion(q) && id == PayloadId(q) ==>
          GrewAt(t, next, id, PayloadVersion(q)) && CacheGet(next.data, id) == q)
      && (CacheGet(next.data, id) == CacheGet(t.data, id) || (id == PayloadId(q) && CacheGet(next.data, id) == q))
  {
    hide Loop, CacheAdd, CacheInv, Settled, Index, Version, Listed, Acceptable, ValidId, PayloadId, PayloadVersion, Put,
      CacheGet;
    CacheInvIndex(t);
    LoopPushed(t, PayloadId(q), q);
    PushedKeepsInv(t, PayloadId(q), q);
    CacheAddEffect(t, q);
    CacheAddGets(t, q, id);
    SameIndex(t, Push(t, PayloadId(q), q));
    if CacheAdd(t, q).ok {
      CacheAddAt(t, q, id);
    }
  }

  lemma CacheAddGets(t: TierData, q: Payload, id: Id)
    requires Index(t).Ok?
    ensures var next := CacheAdd(t, q);
      && (next.ok && id == PayloadId(q) ==> CacheGet(next.tier.data, id) == q)
      && (CacheGet(next.tier.data, id) == CacheGet(t.data, id)
          || (id == PayloadId(q) && CacheGet(next.tier.data, id) == q))
  {
    hide CacheAdd, Index, Version, Find, Acceptable, PayloadId, PayloadVersion, Put;
    CacheAddEffect(t, q);
    if CacheAdd(t, q).ok {
      PutFinds(t.data, q, id);
    }
  }

  /** One shift between settled tiers, seen from one identifier: the source is
      as it was, and the target is as it was or has the version of the source. */
  lemma ShiftAt(from: TierData, to: TierData, id: Id, own: seq<byte>, at: Id)
    requires TierInv(from) && TierInv(to)
    ensures var done := Shift(from, to, id, own);
      && done.from == from && TierInv(done.to) && SameHeader(to, done.to)
      && (SameAt(to, done.to, at) || (at == id && GrewAt(to, done.to, at, Ver(from, id))))
  {
    hide TierInv, SameAt, GrewAt, GetData, Transportable, FetchId, Loop, ValidId, Hash, Version, Index, SameHeader;
    SameAtItself(to, at);
    if MayShift(from, to, id, own) {
      MayShiftListed(from, to, id, own);
      ReadListed(from, id);
      var p := CacheGet(from.data, id);
      var sent := Transportable(p, id, own, to);
      if sent.Ok? && sent.value != [] {
        SentKeepsHeader(p, id, own, to);
        FetchedHeader(sent.value);
        PushAt(to, sent.value, at);
      }
    }
  }

  lemma SameAtItself(t: TierData, at: Id)
    ensures SameAt(t, t, at) && SameHeader(t, t)
  {
  }

  lemma MayShiftListed(from: TierData, to: TierData, id: Id, own: seq<byte>)
    requires TierInv(from) && MayShift(from, to, id, own)
    ensures Ver(from, id) >= 0 && ValidId(id)
  {
    hide Version, Listed, UniqueIds, Index, Settled, ValidId;
    InvTracks(from, id);
    var index := Index(from).value;
    ListsIsListed(index, id);
    var i :| 0 <= i < |index| && index[i].0 == id;
    IndexIsValid(from, i);
  }

  // ----- shifts that succeed -----

  /** An identifier that every tier may hold and send. */
  predicate MayTravel(id: Id) {
    !MemOnly(Type(id)) && ValidId(id) && !BlankHash(Hash(id))
  }

  /** Plain bytes that still carry something of `forms` when sent to this tier. */
  ghost predicate Sends(p: seq<byte>, id: Id, own: seq<byte>, to: TierData, forms: iset<seq<byte>>) {
    && |p| >= 50 && p[0] == 0
    && Transportable(p, id, own, to).Ok? && Transportable(p, id, own, to).value != []
    && Transportable(p, id, own, to).value in forms
  }

  /** The tier takes and sends this identifier: it stores plain bytes, the
      stored payload is one of `forms`, and so is whatever is made of one of
      them on the way to this tier. */
  ghost predicate Ready(t: TierData, id: Id, own: seq<byte>, forms: iset<seq<byte>>) {
    && t.extras != [] && t.extras[0] == 0
    && (t.major == 0 ==> Hash(id) == own)
    && (CacheGet(t.data, id) == [] || CacheGet(t.data, id) in forms)
    && forall p {:trigger Sends(p, id, own, t, forms)} :: p in forms ==> Sends(p, id, own, t, forms)
  }

  lemma ReadyKept(t: TierData, next: TierData, id: Id, own: seq<byte>, forms: iset<seq<byte>>)
    requires Ready(t, id, own, forms) && SameHeader(t, next)
    requires CacheGet(next.data, id) in forms || CacheGet(next.data, id) == CacheGet(t.data, id)
    ensures Ready(next, id, own, forms)
  {
    hide StripToTransportable, CacheGet, Sends;
    forall p | p in forms
      ensures Sends(p, id, own, next, forms)
    {
      assert Sends(p, id, own, t, forms);
      SendsSame(p, id, own, t, next, forms);
    }
  }

  lemma SendsSame(p: seq<byte>, id: Id, own: seq<byte>, t: TierData, next: TierData, forms: iset<seq<byte>>)
    requires Sends(p, id, own, t, forms) && SameHeader(t, next)
    ensures Sends(p, id, own, next, forms)
  {
    hide StripToTransportable;
  }

  lemma ReadySends(from: TierData, to: TierData, id: Id, own: seq<byte>, forms: iset<seq<byte>>)
    requires Ready(from, id, own, forms) && Ready(to, id, own, forms) && CacheGet(from.data, id) != []
    ensures var sent := Transportable(CacheGet(from.data, id), id, own, to);
      && sent.Ok? && sent.value in forms && |sent.value| >= 50 && sent.value[0] == 0
      && ForceToExtra(sent.value, to.extras[0]).Ok?
      && (!BlankHash(Hash(PayloadId(sent.value))) ==> Acceptable(to.extras, sent.value))
  {
    hide Transportable, CacheGet, BlankHash, PayloadId;
    var p := CacheGet(from.data, id);
    assert Sends(p, id, own, to, forms);
    assert Sends(Transportable(p, id, own, to).value, id, own, to, forms);
  }

  /** Shifting keeps both tiers ready, whatever identifier is shifted. */
  lemma ShiftReady(from: TierData, to: TierData, id: Id, own: seq<byte>, at: Id, forms: iset<seq<byte>>)
    requires TierInv(from) && TierInv(to) && Ready(from, at, own, forms) && Ready(to, at, own, forms)
    ensures Ready(Shift(from, to, id, own).to, at, own, forms)
  {
    hide TierInv, SameAt, GrewAt, GetData, Transportable, FetchId, Loop, ValidId, Hash, Version, Index, Ready,
      SameHeader, CacheGet;
    if MayShift(from, to, id, own) {
      MayShiftListed(from, to, id, own);
      ReadListed(from, id);
      var p := CacheGet(from.data, id);
      var sent := Transportable(p, id, own, to);
      if sent.Ok? && sent.value != [] {
        SentKeepsHeader(p, id, own, to);
        FetchedHeader(sent.value);
        PushAt(to, sent.value, at);
        if id == at {
          ReadySends(from, to, at, own, forms);
        }
        ReadyKept(to, Loop(Push(to, id, sent.value)).tier, at, own, forms);
      }
    }
  }

  /** Between ready tiers a shift fails only when the target has a newer version. */
  lemma ShiftSucceeds(from: TierData, to: TierData, id: Id, own: seq<byte>, forms: iset<seq<byte>>)
    requires TierInv(from) && TierInv(to) && Ready(from, id, own, forms) && Ready(to, id, own, forms)
    requires MayTravel(id) && Ver(from, id) >= 0 && Ver(to, id) <= Ver(from, id)
    ensures GrewAt(to, Shift(from, to, id, own).to, id, Ver(from, id))
  {
    hide TierInv, SameAt, GrewAt, GetData, Transportable, FetchId, Loop, ValidId, Hash, Version, Index, Ready,
      SameHeader, CacheGet, BlankHash, Acceptable, PayloadId, PayloadVersion;
    ReadyMayShift(from, to, id, own, forms);
    ReadListed(from, id);
    ReadySends(from, to, id, own, forms);
    var sent := Transportable(CacheGet(from.data, id), id, own, to);
    SentKeepsHeader(CacheGet(from.data, id), id, own, to);
    FetchedHeader(sent.value);
    PushAt(to, sent.value, id);
    ReadyExtras(to, id, own, forms);
  }

  lemma ReadyExtras(t: TierData, id: Id, own: seq<byte>, forms: iset<seq<byte>>)
    requires Ready(t, id, own, forms)
    ensures t.extras != [] && t.extras[0] == 0
  {
    hide Sends, CacheGet;
  }

  lemma ReadyMayShift(from: TierData, to: TierData, id: Id, own: seq<byte>, forms: iset<seq<byte>>)
    requires TierInv(from) && TierInv(to) && Ready(from, id, own, forms) && Ready(to, id, own, forms)
    requires MayTravel(id) && Ver(from, id) >= 0
    ensures MayShift(from, to, id, own)
  {
    hide TierInv, Transportable, CacheGet, Version, Index, Listed, Hash, ValidId, Sends;
    InvTracks(from, id);
    InvTracks(to, id);
    ListsIsListed(Index(from).value, id);
  }

  // ----- which moves are made -----

  /** Some listed version is above (or below) the first one of the other tier. */
  predicate Wants(listed: seq<uint64>, first: int, up: bool) {
    exists i :: 0 <= i < |listed| && if up then listed[i] > first else listed[i] < first
  }

  lemma WantsCons(v: uint64, rest: seq<uint64>, first: int, up: bool)
    ensures Wants([v] + rest, first, up) <==> (if up then v > first else v < first) || Wants(rest, first, up)
  {
    var all := [v] + rest;
    if Wants(rest, first, up) {
      var i :| 0 <= i < |rest| && if up then rest[i] > first else rest[i] < first;
      assert all[i + 1] == rest[i];
    }
    assert all[0] == v;
  }

  /** A move up (or down) is made for an identifier exactly when the lower index
      lists a version above (or below) the first version of the higher index. */
  lemma {:induction false} MovesExactly(low: seq<IndexEntry>, high: seq<IndexEntry>, id: Id, up: bool)
    ensures Move(id, up) in Moves(low, high) <==>
      !MemOnly(Type(id)) && Wants(Listed(low, id), FirstListed(high, id), up)
  {
    hide MemOnly, Wants, FirstListed;
    if low == [] {
      NothingWanted(FirstListed(high, id), up);
    } else {
      MovesExactly(low[1..], high, id, up);
      WantsCons(low[0].1, Listed(low[1..], id), FirstListed(high, id), up);
      assert [] + Listed(low[1..], id) == Listed(low[1..], id);
    }
  }

  lemma NothingWanted(first: int, up: bool)
    ensures !Wants([], first, up)
  {
  }

  // ----- one pair of tiers -----

  /** The tier is settled, ready for the identifier and holds no version above `max`. */
  ghost predicate Fit(t: TierData, id: Id, own: seq<byte>, forms: iset<seq<byte>>, max: int) {
    TierInv(t) && Ready(t, id, own, forms) && Ver(t, id) <= max
  }

  /** The index lists the identifier, and only at this version. */
  predicate Pure(t: TierData, id: Id, v: int) {
    Ix(t, id) != [] && forall i :: 0 <= i < |Ix(t, id)| ==> Ix(t, id)[i] == v
  }

  /** Versions and index entries of the identifier only grow. */
  predicate Advances(t: TierData, next: TierData, id: Id, max: int) {
    && SameHeader(t, next)
    && Ver(t, id) <= Ver(next, id)
    && Ix(t, id) <= Ix(next, id)
    && (Pure(t, id, max) ==> Pure(next, id, max))
  }

  lemma AdvancesTwice(t: TierData, u: TierData, next: TierData, id: Id, max: int)
    requires Advances(t, u, id, max) && Advances(u, next, id, max)
    ensures Advances(t, next, id, max)
  {
    hide Ver, Ix, Pure;
  }

  lemma GrewAdvances(t: TierData, next: TierData, id: Id, v: int, max: int)
    requires TierInv(t) && SameHeader(t, next) && v <= max
    requires SameAt(t, next, id) || GrewAt(t, next, id, v)
    ensures Advances(t, next, id, max)
  {
    hide Ver, Ix, TierInv;
    InvTracks(t, id);
  }

  lemma ShiftFits(from: TierData, to: TierData, m: Id, own: seq<byte>, id: Id, forms: iset<seq<byte>>, max: int)
    requires MayTravel(id) && Fit(from, id, own, forms, max) && Fit(to, id, own, forms, max)
    ensures var done := Shift(from, to, m, own);
      && done.from == from && Fit(done.to, id, own, forms, max) && Advances(to, done.to, id, max)
      && (m != id ==> SameAt(to, done.to, id))
      && (m == id && Ver(from, id) >= 0 ==> Ver(done.to, id) >= Ver(from, id))
  {
    hide Ver, Ix, TierInv, Ready, Shift, MayTravel, SameHeader, Advances;
    ShiftAt(from, to, m, own, id);
    ShiftReady(from, to, m, own, id, forms);
    GrewAdvances(to, Shift(from, to, m, own).to, id, Ver(from, id), max);
    if m == id && Ver(from, id) >= 0 && Ver(to, id) <= Ver(from, id) {
      ShiftSucceeds(from, to, id, own, forms);
    }
  }

  ghost predicate PairFit(p: Pair, id: Id, own: seq<byte>, forms: iset<seq<byte>>, max: int) {
    Fit(p.low, id, own, forms, max) && Fit(p.high, id, own, forms, max)
  }

  predicate PairAdvances(p: Pair, q: Pair, id: Id, max: int) {
    Advances(p.low, q.low, id, max) && Advances(p.high, q.high, id, max)
  }

  lemma MoveStep(p: Pair, m: Move, own: seq<byte>, id: Id, forms: iset<seq<byte>>, max: int)
    requires MayTravel(id) && PairFit(p, id, own, forms, max)
    ensures var q := ShiftMove(p, m, own);
      && PairFit(q, id, own, forms, max) && PairAdvances(p, q, id, max)
      && (m != Move(id, false) ==> SameAt(p.low, q.low, id))
      && (m != Move(id, true) ==> SameAt(p.high, q.high, id))
      && (m == Move(id, true) && Ver(p.low, id) >= 0 ==> Ver(q.high, id) >= Ver(p.low, id))
      && (m == Move(id, false) && Ver(p.high, id) >= 0 ==> Ver(q.low, id) >= Ver(p.high, id))
  {
    hide Ver, Ix, Fit, Shift, MayTravel, Advances, SameAt;
    SameAtItself(p.low, id);
    SameAtItself(p.high, id);
    AdvancesItself(p.low, id, max);
    AdvancesItself(p.high, id, max);
    if m.up {
      ShiftFits(p.low, p.high, m.id, own, id, forms, max);
    } else {
      ShiftFits(p.high, p.low, m.id, own, id, forms, max);
    }
  }

  lemma AdvancesItself(t: TierData, id: Id, max: int)
    ensures Advances(t, t, id, max)
  {
  }

  lemma {:induction false} MovesStep(p: Pair, moves: seq<Move>, own: seq<byte>, id: Id, forms: iset<seq<byte>>,
                                     max: int)
    requires MayTravel(id) && PairFit(p, id, own, forms, max)
    ensures var q := ShiftMoves(p, moves, own);
      && PairFit(q, id, own, forms, max) && PairAdvances(p, q, id, max)
      && (Move(id, false) !in moves ==> SameAt(p.low, q.low, id))
      && (Move(id, true) !in moves ==> SameAt(p.high, q.high, id))
      && (Move(id, true) in moves && Ver(p.low, id) >= 0 ==> Ver(q.high, id) >= Ver(p.low, id))
      && (Move(id, false) in moves && Ver(p.high, id) >= 0 ==> Ver(q.low, id) >= Ver(p.high, id))
    decreases |moves|
  {
    hide Ver, Ix, Fit, ShiftMove, MayTravel, Pure, SameHeader;
    if moves == [] {
      AdvancesItself(p.low, id, max);
      AdvancesItself(p.high, id, max);
    } else {
      MoveStep(p, moves[0], own, id, forms, max);
      var u := ShiftMove(p, moves[0], own);
      MovesStep(u, moves[1..], own, id, forms, max);
      var q := ShiftMoves(u, moves[1..], own);
      AdvancesTwice(p.low, u.low, q.low, id, max);
      AdvancesTwice(p.high, u.high, q.high, id, max);
    }
  }

  /** What synchronising two tiers does for one identifier: nothing gets older;
      what the lower tier holds the higher one holds afterwards; the greatest
      version goes up; it comes down from a tier that lists only that version;
      and nothing at all happens when the lower tier lacks the identifier. */
  predicate PairEffect(p: Pair, q: Pair, id: Id, max: int) {
    && PairAdvances(p, q, id, max)
    && (Ver(p.low, id) >= 0 ==> Ver(q.high, id) >= 0)
    && (Ver(p.low, id) == max ==> Ver(q.high, id) == max)
    && (Ver(p.low, id) >= 0 && Pure(p.high, id, max) ==> Ver(q.low, id) == max)
    && (Ver(p.low, id) == -1 ==> SameAt(p.low, q.low, id) && SameAt(p.high, q.high, id))
  }

  lemma SyncPairEffect(p: Pair, own: seq<byte>, id: Id, forms: iset<seq<byte>>, max: int)
    requires MayTravel(id) && PairFit(p, id, own, forms, max)
    requires p.low.major != p.high.major && p.high.major != TIER_MAJOR_NETWORK && max >= 0
    ensures SyncPair(p, own).Ok?
    ensures var q := SyncPair(p, own).value;
      PairFit(q, id, own, forms, max) && PairEffect(p, q, id, max)
  {
    hide Ver, Ix, TierInv, Ready, ShiftMoves, Listed, Index, Advances, SameAt, Wants, MemOnly, FirstListed;
    InvTracks(p.low, id);
    InvTracks(p.high, id);
    var moves := TierMoves(p.low, p.high).value;
    IxIsListed(p.low, id);
    IxIsListed(p.high, id);
    var first := FirstListed(Index(p.high).value, id);
    MovesExactly(Index(p.low).value, Index(p.high).value, id, true);
    MovesExactly(Index(p.low).value, Index(p.high).value, id, false);
    MovesStep(p, moves, own, id, forms, max);
    WantedUp(Ix(p.low, id), Ver(p.low, id), Ix(p.high, id), Ver(p.high, id), first);
    WantedDown(Ix(p.low, id), Ver(p.low, id), Ix(p.high, id), first, max);
    var q := ShiftMoves(p, moves, own);
    FitBounds(q.low, id, own, forms, max);
    FitBounds(q.high, id, own, forms, max);
    AdvancesVer(p.low, q.low, id, max);
    AdvancesVer(p.high, q.high, id, max);
  }

  lemma FitBounds(t: TierData, id: Id, own: seq<byte>, forms: iset<seq<byte>>, max: int)
    requires Fit(t, id, own, forms, max)
    ensures Ver(t, id) <= max
  {
  }

  lemma AdvancesVer(t: TierData, next: TierData, id: Id, max: int)
    requires Advances(t, next, id, max)
    ensures Ver(t, id) <= Ver(next, id)
  {
  }

  lemma IxIsListed(t: TierData, id: Id)
    requires Index(t).Ok?
    ensures Ix(t, id) == Listed(Index(t).value, id)
    ensures FirstListed(Index(t).value, id) == if Ix(t, id) == [] then -1 else Ix(t, id)[0]
  {
    hide Index;
  }

  /** If the lower tier holds a version the higher one does not have yet, a move
      up is wanted; without the identifier nothing is. */
  lemma WantedUp(low: seq<uint64>, lowVer: int, high: seq<uint64>, highVer: int, first: int)
    requires Tracks(low, lowVer) && Tracks(high, highVer) && first == if high == [] then -1 else high[0]
    ensures lowVer >= 0 ==> Wants(low, first, true) || highVer >= lowVer
    ensures lowVer == -1 ==> !Wants(low, first, true) && !Wants(low, first, false)
  {
    if lowVer >= 0 && lowVer > first {
      assert low[|low| - 1] > first;
    }
  }

  lemma WantedDown(low: seq<uint64>, lowVer: int, high: seq<uint64>, first: int, max: int)
    requires Tracks(low, lowVer) && first == if high == [] then -1 else high[0]
    requires lowVer <= max
    ensures high != [] && (forall i :: 0 <= i < |high| ==> high[i] == max) && lowVer >= 0 ==>
      Wants(low, first, false) || lowVer == max
  {
    if high != [] && high[0] == max && 0 <= lowVer < max {
      assert low[|low| - 1] < high[0];
    }
  }
}
