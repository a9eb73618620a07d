// Tiers whose index cannot be read, and what becomes of the sweep.

module TierUnreadable {
  import opened Bytes
  import opened Ids
  import opened IdSets
  import opened Objects
  import opened Strip
  import opened TierCache
  import opened TierQueue
  import opened TierSweep
  import opened TierPairs
  import opened TierConvergence
  import opened TierSafety

  // ----- an unreadable index stays unreadable -----

  /** The header stays, and so does an index that cannot be read. */
  predicate StaysUnreadable(t: TierData, next: TierData) {
    SameHeader(t, next) && (Index(t).Err? ==> Index(next).Err?)
  }

  lemma StaysTwice(t: TierData, u: TierData, next: TierData)
    requires StaysUnreadable(t, u) && StaysUnreadable(u, next)
    ensures StaysUnreadable(t, next)
  {
    hide Index;
  }

  /** The index fields are as they were. */
  lemma SameFieldsStay(t: TierData, next: TierData)
    requires SameHeader(t, next) && t.ids == next.ids && t.modIncs == next.modIncs
    ensures StaysUnreadable(t, next)
  {
    hide Expand;
  }

  lemma AddIdBufferStays(t: TierData, id: Id, version: uint64)
    ensures Index(t).Err? ==> Index(AddIdBuffer(t, id, version).tier).Err?
  {
    hide Expand, Compact, AllValid;
    if Expand(t.ids).Ok? {
      CompactRoundTrip(Expand(t.ids).value + [id]);
    }
  }

  lemma AddStays(t: TierData, d: seq<byte>)
    ensures StaysUnreadable(t, CacheAdd(t, d).tier)
  {
    hide Acceptable, Put, Index, AddIdBuffer, PayloadId, PayloadVersion;
    SameFieldsStay(t, t);
    AddIgnoresQueues(t, d, [], []);
    if Acceptable(t.extras, d) {
      AcceptableIsLong(t.extras, d);
      if Put(t.data, d).Ok? {
        var u := t.(data := Put(t.data, d).value);
        SameIndex(t, u);
        AddIdBufferStays(u, PayloadId(d), PayloadVersion(d));
      }
    }
  }

  lemma {:induction false} DrainStays(t: TierData, queue: seq<Entry>)
    ensures StaysUnreadable(t, Drain(t, queue).tier)
    decreases |queue|
  {
    hide CacheAdd, StaysUnreadable;
    if queue == [] {
      SameFieldsStay(t, t);
    } else {
      AddStays(t, queue[0].payload);
      DrainStays(CacheAdd(t, queue[0].payload).tier, queue[1..]);
      StaysTwice(t, CacheAdd(t, queue[0].payload).tier, Drain(t, queue).tier);
    }
  }

  lemma LoopStays(t: TierData)
    ensures StaysUnreadable(t, Loop(t).tier)
  {
    hide Drain, Fill, StaysUnreadable;
    var u := t.(inbound := Fill(t.data, t.inbound).queue);
    SameFieldsStay(t, u);
    DrainStays(u, t.outbound);
    var drained := Drain(u, t.outbound);
    SameFieldsStay(drained.tier, drained.tier.(outbound := drained.kept));
    StaysTwice(t, u, drained.tier);
    StaysTwice(t, drained.tier, drained.tier.(outbound := drained.kept));
  }

  lemma GetStays(t: TierData, id: Id)
    ensures StaysUnreadable(t, GetData(t, id).tier)
  {
    hide Loop, StaysUnreadable;
    var u := t.(inbound := t.inbound + [Entry(id, [])]);
    SameFieldsStay(t, u);
    LoopStays(u);
    StaysTwice(t, u, Loop(u).tier);
    SameFieldsStay(t, TakeEntry(t, id).tier);
    SameFieldsStay(Loop(u).tier, TakeEntry(Loop(u).tier, id).tier);
    StaysTwice(t, Loop(u).tier, TakeEntry(Loop(u).tier, id).tier);
  }

  lemma AddDataStays(t: TierData, d: seq<byte>)
    ensures StaysUnreadable(t, AddData(t, d).tier)
  {
    hide Loop, StaysUnreadable, FetchId, ForceToExtra;
    SameFieldsStay(t, t);
    if FetchId(d).Ok? {
      var u := Push(t, FetchId(d).value, d);
      SameFieldsStay(t, u);
      LoopStays(u);
      StaysTwice(t, u, Loop(u).tier);
    }
  }

  lemma ShiftStays(from: TierData, to: TierData, id: Id, own: seq<byte>)
    ensures var done := Shift(from, to, id, own);
      StaysUnreadable(from, done.from) && StaysUnreadable(to, done.to)
  {
    hide StaysUnreadable, MayShift, GetData, AddData, Transportable, ForceToExtra;
    SameFieldsStay(from, from);
    SameFieldsStay(to, to);
    GetStays(from, id);
    var sent := Transportable(GetData(from, id).payload, id, own, to);
    if sent.Ok? {
      AddDataStays(to, sent.value);
    }
  }

  lemma PerformStays(tiers: seq<TierData>, a: Action, own: seq<byte>, k: nat)
    requires k < |tiers|
    ensures StaysUnreadable(tiers[k], Perform(tiers, a, own)[k])
  {
    hide StaysUnreadable, Shift, Loop;
    SameFieldsStay(tiers[k], tiers[k]);
    match a
    case Fail =>
    case LoopOne(i) =>
      LoopStays(tiers[k]);
    case ShiftOne(from, to, id) =>
      if from < |tiers| && to < |tiers| {
        ShiftStays(tiers[from], tiers[to], id, own);
      }
  }

  /** Over any run an index that cannot be read stays so. */
  lemma {:induction false} UnreadableForEver(tiers: seq<TierData>, actions: seq<Action>, own: seq<byte>, k: nat)
    requires k < |tiers|
    ensures StaysUnreadable(tiers[k], Run(tiers, actions, own)[k])
    decreases |actions|
  {
    hide StaysUnreadable, Perform;
    if actions == [] {
      SameFieldsStay(tiers[k], tiers[k]);
    } else {
      PerformStays(tiers, actions[0], own, k);
      var next := Perform(tiers, actions[0], own);
      UnreadableForEver(next, actions[1..], own, k);
      StaysTwice(tiers[k], next[k], Run(tiers, actions, own)[k]);
    }
  }

  // ----- it ends the sweep -----

  lemma SyncAtStays(tiers: seq<TierData>, i: nat, c: nat, own: seq<byte>, k: nat)
    requires i < |tiers| && c < |tiers| && i != c && k < |tiers|
    ensures StaysUnreadable(tiers[k], SyncAt(tiers, i, c, own).tiers[k])
  {
    hide StaysUnreadable, Run, SyncAt;
    var actions := SyncAtIsRun(tiers, i, c, own);
    UnreadableForEver(tiers, actions, own, k);
  }

  lemma SyncAtMajors(tiers: seq<TierData>, i: nat, c: nat, own: seq<byte>)
    requires i < |tiers| && c < |tiers| && i != c && DistinctMajors(tiers)
    ensures DistinctMajors(SyncAt(tiers, i, c, own).tiers)
  {
    hide SyncAt, Index;
    forall k | 0 <= k < |tiers|
      ensures SameHeader(tiers[k], SyncAt(tiers, i, c, own).tiers[k])
    {
      SyncAtStays(tiers, i, c, own, k);
    }
  }

  /** A pair is synchronised exactly when both its indexes can be read. */
  lemma SyncAtOkExactly(tiers: seq<TierData>, i: nat, c: nat, own: seq<byte>)
    requires i < |tiers| && c < |tiers| && i != c && DistinctMajors(tiers)
    ensures SyncAt(tiers, i, c, own).ok <==> Index(tiers[i]).Ok? && Index(tiers[c]).Ok?
  {
    hide Index, Moves, ShiftMoves;
    assert tiers[i].major != tiers[c].major;
  }

  /** Row 0 compares the first tier with every other one. */
  lemma {:induction false} RowStops(tiers: seq<TierData>, c: nat, own: seq<byte>, k: nat)
    requires DistinctMajors(tiers) && 1 <= c <= k < |tiers| && Index(tiers[k]).Err?
    ensures !SweepRow(tiers, 0, c, own).ok
    decreases k - c
  {
    hide Index, SyncAt, DistinctMajors;
    SyncAtOkExactly(tiers, 0, c, own);
    if c < k {
      SyncAtMajors(tiers, 0, c, own);
      SyncAtStays(tiers, 0, c, own, k);
      RowStops(SyncAt(tiers, 0, c, own).tiers, c + 1, own, k);
    }
  }

  /** One index that cannot be read, at any position, ends the sweep inside its
      first row, whatever state the other tiers are in. */
  lemma UnreadableEndsSweep(tiers: seq<TierData>, own: seq<byte>, k: nat)
    requires |tiers| >= 2 && DistinctMajors(tiers) && k < |tiers| && Index(tiers[k]).Err?
    ensures !TierLoop(tiers, own).ok && TierLoop(tiers, own) == SweepRow(tiers, 0, 0, own)
  {
    hide Index, SyncAt, Loop, DistinctMajors;
    assert SweepRow(tiers, 0, 0, own) == SweepRow(tiers, 0, 1, own);
    if k == 0 {
      SyncAtOkExactly(tiers, 0, 1, own);
    } else {
      RowStops(tiers, 1, own, k);
    }
  }

  /** And every sweep after any run that follows. */
  lemma UnreadableEndsEverySweep(tiers: seq<TierData>, actions: seq<Action>, own: seq<byte>, k: nat)
    requires |tiers| >= 2 && DistinctMajors(tiers) && k < |tiers| && Index(tiers[k]).Err?
    ensures !TierLoop(Run(tiers, actions, own), own).ok
  {
    hide Index, Run, SweepFrom;
    var later := Run(tiers, actions, own);
    forall j | 0 <= j < |tiers|
      ensures SameHeader(tiers[j], later[j])
    {
      UnreadableForEver(tiers, actions, own, j);
    }
    UnreadableForEver(tiers, actions, own, k);
    UnreadableEndsSweep(later, own, k);
  }

  // ----- exactly then -----

  ghost function ValidHeaders(): iset<(Id, uint64)> {
    iset id: Id, v: uint64 | ValidId(id) :: (id, v)
  }

  /** It has a valid identifier, or the cache will never take it. */
  ghost predicate Harmless(extras: seq<byte>, data: seq<Payload>, d: seq<byte>) {
    Among(ValidHeaders(), d) || Refused(extras, data, d)
  }

  ghost predicate AllHarmless(extras: seq<byte>, data: seq<Payload>, queue: seq<Entry>) {
    forall i :: 0 <= i < |queue| ==> Harmless(extras, data, queue[i].payload)
  }

  /** A readable tier, with requests and entries waiting or not, where no payload
      with an invalid identifier is stored or waits to be stored. */
  ghost predicate Sound(t: TierData) {
    && Index(t).Ok? && AllAmong(ValidHeaders(), t.data)
    && QueueAmong(ValidHeaders(), t.inbound)
    && AllHarmless(t.extras, t.data, t.outbound)
  }

  ghost predicate CacheSound(t: TierData) {
    Index(t).Ok? && AllAmong(ValidHeaders(), t.data)
  }

  lemma AmongIsValid(d: seq<byte>)
    requires |d| >= 50
    ensures Among(ValidHeaders(), d) <==> ValidId(PayloadId(d))
  {
    hide PayloadId, PayloadVersion, ValidId;
  }

  lemma AddSound(t: TierData, d: seq<byte>)
    requires CacheSound(t) && Harmless(t.extras, t.data, d)
    ensures CacheSound(CacheAdd(t, d).tier) && CacheAdd(t, d).tier.extras == t.extras
  {
    hide Index, CacheAdd, Among, AllAmong, Acceptable, Version, PayloadId, PayloadVersion, Put, ValidId,
      ValidHeaders, Refused;
    AddIgnoresQueues(t, d, [], []);
    RefusedFails(t, d);
    CacheAddEffect(t, d);
    if CacheAdd(t, d).ok {
      AcceptableIsLong(t.extras, d);
      AmongIsValid(d);
      AddWithin(t, d, ValidHeaders());
    }
  }

  lemma HarmlessStays(t: TierData, d: seq<byte>, other: seq<byte>)
    requires Index(t).Ok? && Harmless(t.extras, t.data, other)
    ensures Harmless(t.extras, CacheAdd(t, d).tier.data, other)
  {
    hide Index, CacheAdd, Among, Refused;
    if Refused(t.extras, t.data, other) {
      RefusedStays(t, d, other);
    }
  }

  lemma AllHarmlessStays(t: TierData, d: seq<byte>, queue: seq<Entry>)
    requires Index(t).Ok? && AllHarmless(t.extras, t.data, queue)
    ensures AllHarmless(t.extras, CacheAdd(t, d).tier.data, queue)
  {
    hide Index, CacheAdd, Harmless;
    forall i | 0 <= i < |queue|
      ensures Harmless(t.extras, CacheAdd(t, d).tier.data, queue[i].payload)
    {
      HarmlessStays(t, d, queue[i].payload);
    }
  }

  lemma AllHarmlessTail(extras: seq<byte>, data: seq<Payload>, queue: seq<Entry>)
    requires queue != [] && AllHarmless(extras, data, queue)
    ensures Harmless(extras, data, queue[0].payload) && AllHarmless(extras, data, queue[1..])
  {
    hide Harmless;
  }

  /** A harmless queue leaves a sound cache, for which other queues are as
      harmless as before. */
  lemma {:induction false} DrainSound(t: TierData, queue: seq<Entry>, others: seq<Entry>)
    requires CacheSound(t) && AllHarmless(t.extras, t.data, queue) && AllHarmless(t.extras, t.data, others)
    ensures var done := Drain(t, queue).tier;
      CacheSound(done) && done.extras == t.extras && AllHarmless(t.extras, done.data, others)
    decreases |queue|
  {
    hide CacheAdd, AllHarmless, Harmless, Index, AllAmong;
    if queue != [] {
      var d := queue[0].payload;
      AllHarmlessTail(t.extras, t.data, queue);
      AddSound(t, d);
      AllHarmlessStays(t, d, queue[1..]);
      AllHarmlessStays(t, d, others);
      DrainSound(CacheAdd(t, d).tier, queue[1..], others);
    }
  }

  lemma {:induction false} KeptAreQueued(t: TierData, queue: seq<Entry>, i: nat) returns (j: nat)
    requires i < |Drain(t, queue).kept|
    ensures j < |queue| && Drain(t, queue).kept[i] == queue[j]
    decreases |queue|
  {
    hide CacheAdd;
    var add := CacheAdd(t, queue[0].payload);
    if add.ok || i > 0 {
      j := KeptAreQueued(add.tier, queue[1..], if add.ok then i else i - 1);
      j := j + 1;
    } else {
      j := 0;
    }
  }

  lemma KeptAreHarmless(t: TierData, queue: seq<Entry>, extras: seq<byte>, data: seq<Payload>)
    requires AllHarmless(extras, data, queue)
    ensures AllHarmless(extras, data, Drain(t, queue).kept)
  {
    hide Drain, Harmless;
    var kept := Drain(t, queue).kept;
    forall i | 0 <= i < |kept|
      ensures Harmless(extras, data, kept[i].payload)
    {
      var j := KeptAreQueued(t, queue, i);
    }
  }

  lemma LoopSound(t: TierData)
    requires Sound(t)
    ensures Sound(Loop(t).tier)
  {
    hide Drain, Fill, QueueAmong, AllAmong, AllHarmless, Index;
    FillWithin(t.data, t.inbound, ValidHeaders());
    var u := t.(inbound := Fill(t.data, t.inbound).queue);
    SameIndex(t, u);
    DrainSound(u, t.outbound, t.outbound);
    DrainWithinQueues(u, t.outbound);
    var drained := Drain(u, t.outbound);
    KeptAreHarmless(u, t.outbound, t.extras, drained.tier.data);
    SameIndex(drained.tier, drained.tier.(outbound := drained.kept));
  }

  lemma {:induction false} DrainWithinQueues(t: TierData, queue: seq<Entry>)
    ensures Drain(t, queue).tier.inbound == t.inbound
    decreases |queue|
  {
    hide CacheAdd;
    if queue != [] {
      AddIgnoresQueues(t, queue[0].payload, [], []);
      DrainWithinQueues(CacheAdd(t, queue[0].payload).tier, queue[1..]);
    }
  }

  lemma TakeSound(t: TierData, id: Id)
    requires Sound(t)
    ensures Sound(TakeEntry(t, id).tier) && Among(ValidHeaders(), TakeEntry(t, id).payload)
  {
    hide Among, AllAmong, FindEntry, AllHarmless, Index;
    EmptyIsAmong(ValidHeaders());
    SameIndex(t, TakeEntry(t, id).tier);
  }

  lemma GetSound(t: TierData, id: Id)
    requires Sound(t)
    ensures Sound(GetData(t, id).tier) && Among(ValidHeaders(), GetData(t, id).payload)
  {
    hide Loop, TakeEntry, Among, AllAmong, QueueAmong, AllHarmless, Index;
    EmptyIsAmong(ValidHeaders());
    TakeSound(t, id);
    var u := t.(inbound := t.inbound + [Entry(id, [])]);
    PushedWithin(t.inbound, Entry(id, []), ValidHeaders());
    SameIndex(t, u);
    LoopSound(u);
    TakeSound(Loop(u).tier, id);
  }

  lemma AddDataSound(t: TierData, d: seq<byte>)
    requires Sound(t) && Among(ValidHeaders(), d)
    ensures Sound(AddData(t, d).tier)
  {
    hide Loop, Among, AllAmong, QueueAmong, FetchId, Index, Refused, ForceToExtra;
    if FetchId(d).Ok? {
      var u := Push(t, FetchId(d).value, d);
      SameIndex(t, u);
      LoopSound(u);
    }
  }

  lemma ShiftSound(from: TierData, to: TierData, id: Id, own: seq<byte>)
    requires Sound(from) && Sound(to)
    ensures var done := Shift(from, to, id, own);
      Sound(done.from) && Sound(done.to)
  {
    hide Sound, Among, MayShift, GetData, AddData, Transportable, ForceToExtra;
    GetSound(from, id);
    var p := GetData(from, id).payload;
    var sent := Transportable(p, id, own, to);
    if p != [] && sent.Ok? && sent.value != [] {
      SentWithin(p, id, own, to, ValidHeaders());
      AddDataSound(to, sent.value);
    }
  }

  lemma {:induction false} MovesSound(p: Pair, moves: seq<Move>, own: seq<byte>)
    requires Sound(p.low) && Sound(p.high)
    ensures var q := ShiftMoves(p, moves, own);
      Sound(q.low) && Sound(q.high)
    decreases |moves|
  {
    hide Sound, Shift;
    if moves != [] {
      ShiftSound(p.low, p.high, moves[0].id, own);
      ShiftSound(p.high, p.low, moves[0].id, own);
      MovesSound(ShiftMove(p, moves[0], own), moves[1..], own);
    }
  }

  ghost predicate AllSound(tiers: seq<TierData>) {
    forall k :: 0 <= k < |tiers| ==> Sound(tiers[k])
  }

  lemma SyncAtKeepsSound(tiers: seq<TierData>, i: nat, c: nat, own: seq<byte>)
    requires i < |tiers| && c < |tiers| && i != c && AllSound(tiers)
    ensures AllSound(SyncAt(tiers, i, c, own).tiers)
  {
    hide Sound, ShiftMoves, TierMoves;
    var (low, high) := if tiers[i].major > tiers[c].major then (c, i) else (i, c);
    var p := Pair(tiers[low], tiers[high]);
    if TierMoves(p.low, p.high).Ok? {
      MovesSound(p, TierMoves(p.low, p.high).value, own);
    }
  }

  lemma SoundIsReadable(t: TierData)
    requires Sound(t)
    ensures Index(t).Ok?
  {
    hide Index, AllAmong, QueueAmong, AllHarmless;
  }

  lemma SyncAtSound(tiers: seq<TierData>, i: nat, c: nat, own: seq<byte>)
    requires i < |tiers| && c < |tiers| && i != c && AllSound(tiers) && DistinctMajors(tiers)
    ensures var next := SyncAt(tiers, i, c, own);
      next.ok && AllSound(next.tiers) && DistinctMajors(next.tiers)
  {
    hide Sound, Index, DistinctMajors, SyncAt;
    SyncAtOkExactly(tiers, i, c, own);
    SoundIsReadable(tiers[i]);
    SoundIsReadable(tiers[c]);
    SyncAtMajors(tiers, i, c, own);
    SyncAtKeepsSound(tiers, i, c, own);
  }

  lemma {:induction false} RowSound(tiers: seq<TierData>, i: nat, c: nat, own: seq<byte>)
    requires i < |tiers| && c <= |tiers| && AllSound(tiers) && DistinctMajors(tiers)
    ensures var row := SweepRow(tiers, i, c, own);
      row.ok && AllSound(row.tiers) && DistinctMajors(row.tiers)
    decreases |tiers| - c
  {
    hide AllSound, DistinctMajors, SyncAt;
    if c < |tiers| {
      if i == c {
        RowSound(tiers, i, c + 1, own);
      } else {
        SyncAtSound(tiers, i, c, own);
        RowSound(SyncAt(tiers, i, c, own).tiers, i, c + 1, own);
      }
    }
  }

  lemma LoopAtSound(tiers: seq<TierData>, i: nat)
    requires i < |tiers| && AllSound(tiers) && DistinctMajors(tiers)
    ensures var next := tiers[i := Loop(tiers[i]).tier];
      AllSound(next) && DistinctMajors(next)
  {
    hide Sound, Loop, Index;
    LoopSound(tiers[i]);
    LoopStays(tiers[i]);
  }

  lemma {:induction false} SweepSound(tiers: seq<TierData>, i: nat, own: seq<byte>)
    requires i <= |tiers| && AllSound(tiers) && DistinctMajors(tiers)
    ensures SweepFrom(tiers, i, own).ok && AllSound(SweepFrom(tiers, i, own).tiers)
    decreases |tiers| - i
  {
    hide DistinctMajors, SweepRow, Loop, AllSound;
    if i < |tiers| {
      RowSound(tiers, i, 0, own);
      var row := SweepRow(tiers, i, 0, own).tiers;
      LoopAtSound(row, i);
      SweepSound(row[i := Loop(row[i]).tier], i + 1, own);
    }
  }

  /** For tiers that are sound or unreadable, whatever waits in their queues, the
      sweep goes on to its end exactly when all indexes can be read. */
  lemma SweepEndsExactly(tiers: seq<TierData>, own: seq<byte>)
    requires |tiers| >= 2 && DistinctMajors(tiers)
    requires forall k :: 0 <= k < |tiers| ==> Sound(tiers[k]) || Index(tiers[k]).Err?
    ensures TierLoop(tiers, own).ok <==> forall k :: 0 <= k < |tiers| ==> Index(tiers[k]).Ok?
  {
    hide DistinctMajors, SweepFrom, Index, Sound;
    if k: nat :| k < |tiers| && Index(tiers[k]).Err? {
      UnreadableEndsSweep(tiers, own, k);
    } else {
      SweepSound(tiers, 0, own);
    }
  }

  /** Readable tiers in which every payload, stored or queued, has a valid
      identifier are sound. */
  lemma ValidIsSound(t: TierData)
    requires Index(t).Ok? && Within(t, ValidHeaders())
    ensures Sound(t)
  {
    hide Index, Among, AllAmong, Refused, ValidHeaders;
  }

  /** And so are all settled ones. */
  lemma SettledIsSound(t: TierData)
    requires TierInv(t)
    ensures Sound(t)
  {
    hide Index, Among, Refused, Version, Listed, Tracks, UniqueIds, ValidHeaders;
    forall i | 0 <= i < |t.data|
      ensures Among(ValidHeaders(), t.data[i])
    {
      StoredIsValid(t, i);
    }
  }

  lemma StoredIsValid(t: TierData, i: nat)
    requires TierInv(t) && i < |t.data|
    ensures Among(ValidHeaders(), t.data[i])
  {
    hide Index, Listed, UniqueIds, ValidHeaders, Settled, ValidId, PayloadId, PayloadVersion;
    var id := PayloadId(t.data[i]);
    assert Find(t.data, id) <= i;
    InvTracks(t, id);
    var index := Index(t).value;
    ListsIsListed(index, id);
    var k :| 0 <= k < |index| && index[k].0 == id;
    IndexIsValid(t, k);
    AmongIsValid(t.data[i]);
  }
}
