// The storage index (src/id/tier/storage/id_tier_storage.cpp), the lookup that
// pairs its two lists (src/id/tier/id_tier_lookup.cpp:5-22) and the cache medium
// (src/id/tier/id_tier_cache.cpp), on values.

module TierCache {
  import opened Bytes
  import opened Ids
  import opened IdSets
  import opened Objects

  /** Bytes whose header can be read; a cache never holds anything shorter. */
  type Payload = s: seq<byte> | |s| >= 50 witness Zeros(50)

  function PayloadId(p: Payload): Id {
    Reverse(p[1..42])
  }

  function PayloadVersion(p: Payload): uint64 {
    Uint64Of(Reverse(p[42..50]))
  }

  /** One entry of a transport queue; without a payload it is a request. */
  datatype Entry = Entry(id: Id, payload: seq<byte>)

  datatype TierData = TierData(
    major: byte, minor: byte, extras: seq<byte>, ids: seq<byte>, modIncs: seq<uint64>,
    data: seq<Payload>, inbound: seq<Entry>, outbound: seq<Entry>)

  datatype Step = Step(tier: TierData, ok: bool)

  // ----- the index -----

  type IndexEntry = (Id, uint64)

  function Pairs(ids: seq<Id>, versions: seq<uint64>): (r: seq<IndexEntry>)
    requires |ids| == |versions|
    ensures |r| == |ids|
  {
    seq(|ids|, i requires 0 <= i < |ids| => (ids[i], versions[i]))
  }

  function IndexOf(ids: seq<byte>, versions: seq<uint64>): Result<seq<IndexEntry>> {
    var list :- Expand(ids);
    if |list| == |versions| then Ok(Pairs(list, versions)) else Err
  }

  function Index(t: TierData): Result<seq<IndexEntry>> {
    IndexOf(t.ids, t.modIncs)
  }

  /** The versions the index lists for one identifier, oldest entry first. */
  function Listed(index: seq<IndexEntry>, id: Id): seq<uint64> {
    if index == [] then [] else (if index[0].0 == id then [index[0].1] else []) + Listed(index[1..], id)
  }

  lemma {:induction false} ListedAppend(index: seq<IndexEntry>, e: IndexEntry, id: Id)
    ensures Listed(index + [e], id) == if e.0 == id then Listed(index, id) + [e.1] else Listed(index, id)
  {
    if index == [] {
      assert [e][1..] == [] && [] + [e] == [e];
    } else {
      assert (index + [e])[1..] == index[1..] + [e];
      ListedAppend(index[1..], e, id);
    }
  }

  function AddIdBuffer(t: TierData, id: Id, version: uint64): Step {
    match Expand(t.ids)
    case Err => Step(t, false)
    case Ok(ids) => Step(t.(ids := Compact(ids + [id]), modIncs := t.modIncs + [version]), true)
  }

  /** A pair is added at the end; an invalid identifier makes the whole index
      unreadable. */
  lemma AddIdBufferExtends(t: TierData, id: Id, version: uint64)
    requires Index(t).Ok?
    ensures AddIdBuffer(t, id, version).ok
    ensures Index(AddIdBuffer(t, id, version).tier) ==
      if ValidId(id) then Ok(Index(t).value + [(id, version)]) else Err
  {
    hide Expand, Compact, ValidId;
    var ids := Expand(t.ids).value;
    ExpandedAreValid(t.ids);
    CompactRoundTrip(ids + [id]);
    AllValidSnoc(ids, id);
    if ValidId(id) {
      assert Pairs(ids + [id], t.modIncs + [version]) == Pairs(ids, t.modIncs) + [(id, version)];
    }
  }

  lemma ExpandedAreValid(idSet: seq<byte>)
    requires Expand(idSet).Ok?
    ensures AllValid(Expand(idSet).value)
  {
    hide ExpandCopy, ValidId;
  }

  lemma AllValidSnoc(ids: seq<Id>, id: Id)
    requires AllValid(ids)
    ensures AllValid(ids + [id]) <==> ValidId(id)
  {
    hide ValidId;
    assert (ids + [id])[|ids|] == id;
  }

  /** Setting the index and reading it back gives the same pairs exactly when
      the identifiers are valid. */
  lemma SetIdBufferRoundTrip(ids: seq<Id>, versions: seq<uint64>)
    requires |ids| == |versions|
    ensures IndexOf(Compact(ids), versions) == if AllValid(ids) then Ok(Pairs(ids, versions)) else Err
  {
    hide Expand, Compact, AllValid;
    CompactRoundTrip(ids);
  }

  /** The index never lists an invalid identifier. */
  lemma IndexIsValid(t: TierData, i: nat)
    requires Index(t).Ok? && i < |Index(t).value|
    ensures ValidId(Index(t).value[i].0)
  {
    hide Expand, ValidId;
    ExpandedAreValid(t.ids);
  }

  // ----- the cache -----

  /** Types that are stored with any extra byte. */
  function EncryptBlacklist(): seq<byte> {
    [3, 2, 8, 11, 9, 10]
  }

  predicate EncryptBlacklisted(t: byte) {
    t in EncryptBlacklist()
  }

  /** What add refuses before it looks at the stored records. */
  predicate Acceptable(extras: seq<byte>, d: seq<byte>) {
    |d| >= 50 && (d[0] in extras || EncryptBlacklisted(Type(PayloadId(d)))) && !BlankHash(Hash(PayloadId(d)))
  }

  function Find(data: seq<Payload>, id: Id): (k: nat)
    ensures k <= |data|
    ensures forall j :: 0 <= j < k ==> PayloadId(data[j]) != id
    ensures k < |data| ==> PayloadId(data[k]) == id
  {
    if data == [] || PayloadId(data[0]) == id then 0 else 1 + Find(data[1..], id)
  }

  lemma FindIs(data: seq<Payload>, id: Id, k: nat)
    requires k <= |data|
    requires forall j :: 0 <= j < k ==> PayloadId(data[j]) != id
    requires k < |data| ==> PayloadId(data[k]) == id
    ensures Find(data, id) == k
  {
    hide PayloadId;
  }

  /** A newer record is not overwritten by an older one. */
  function Put(data: seq<Payload>, d: Payload): Result<seq<Payload>> {
    var k := Find(data, PayloadId(d));
    if k == |data| then Ok(data + [d])
    else if PayloadVersion(data[k]) > PayloadVersion(d) then Err
    else Ok(data[k := d])
  }

  function CacheAdd(t: TierData, d: seq<byte>): Step {
    if !Acceptable(t.extras, d) then Step(t, false)
    else match Put(t.data, d)
      case Err => Step(t, false)
      case Ok(data) => AddIdBuffer(t.(data := data), PayloadId(d), PayloadVersion(d))
  }

  function CacheGet(data: seq<Payload>, id: Id): seq<byte> {
    var k := Find(data, id);
    if k == |data| then [] else data[k]
  }

  /** The version a cache holds of an identifier, -1 when it holds none. */
  function Version(data: seq<Payload>, id: Id): (v: int)
    ensures v >= -1
    ensures v == -1 <==> Find(data, id) == |data|
  {
    var k := Find(data, id);
    if k == |data| then -1 else PayloadVersion(data[k])
  }

  lemma PutFinds(data: seq<Payload>, d: Payload, id: Id)
    requires Put(data, d).Ok?
    ensures var next, k := Put(data, d).value, Find(data, PayloadId(d));
      && |next| >= |data| && k < |next| && next[k] == d && Find(next, PayloadId(d)) == k
      && (id != PayloadId(d) ==>
          if Find(data, id) == |data| then Find(next, id) == |next|
          else Find(next, id) == Find(data, id) && next[Find(data, id)] == data[Find(data, id)])
  {
    hide PayloadId, PayloadVersion, Find;
    var next, k := Put(data, d).value, Find(data, PayloadId(d));
    FindIs(next, PayloadId(d), k);
    if id != PayloadId(d) {
      FindIs(next, id, if Find(data, id) == |data| then |next| else Find(data, id));
    }
  }

  /** Which version each identifier has after an add. */
  lemma PutVersion(data: seq<Payload>, d: Payload, id: Id)
    ensures Put(data, d).Ok? <==> Version(data, PayloadId(d)) <= PayloadVersion(d)
    ensures Put(data, d).Ok? ==>
      Version(Put(data, d).value, id) == if id == PayloadId(d) then PayloadVersion(d) else Version(data, id)
  {
    hide PayloadId, PayloadVersion, Find;
    if Put(data, d).Ok? {
      PutFinds(data, d, id);
    }
  }

  /** Everything an add to a readable index does. */
  lemma CacheAddEffect(t: TierData, d: seq<byte>)
    requires Index(t).Ok?
    ensures var next := CacheAdd(t, d);
      && (next.ok <==> Acceptable(t.extras, d) && Version(t.data, PayloadId(d)) <= PayloadVersion(d))
      && (!next.ok ==> next.tier == t)
      && (next.ok ==>
        && Put(t.data, d) == Ok(next.tier.data)
        && next.tier == t.(data := next.tier.data, ids := next.tier.ids, modIncs := next.tier.modIncs)
        && Index(next.tier) ==
             if ValidId(PayloadId(d)) then Ok(Index(t).value + [(PayloadId(d), PayloadVersion(d))]) else Err)
  {
    hide PayloadId, PayloadVersion, Find, Put, Index, AddIdBuffer, BlankHash, ValidId, EncryptBlacklisted;
    if Acceptable(t.extras, d) {
      PutVersion(t.data, d, PayloadId(d));
      if Put(t.data, d).Ok? {
        var u := t.(data := Put(t.data, d).value);
        SameIndex(t, u);
        AddIdBufferExtends(u, PayloadId(d), PayloadVersion(d));
        AddIdBufferFrame(u, PayloadId(d), PayloadVersion(d));
      }
    }
  }

  lemma SameIndex(t: TierData, u: TierData)
    requires t.ids == u.ids && t.modIncs == u.modIncs
    ensures Index(t) == Index(u)
  {
  }

  lemma AddIdBufferFrame(t: TierData, id: Id, version: uint64)
    ensures var u := AddIdBuffer(t, id, version).tier;
      u == t.(ids := u.ids, modIncs := u.modIncs)
  {
    hide Expand, Compact;
  }

  // ----- adds in any state -----

  /** The records after a payload was offered: the write comes before the index
      is touched, so it does not depend on the index. */
  function StoredWith(data: seq<Payload>, extras: seq<byte>, d: seq<byte>): seq<Payload> {
    if Acceptable(extras, d) && Put(data, d).Ok? then Put(data, d).value else data
  }

  /** What an add does in any state: it is accepted exactly when the payload is
      acceptable and not older and the stored identifiers can be unpacked; when it
      is not accepted, the record may have been written all the same. */
  lemma CacheAddExactly(t: TierData, d: seq<byte>)
    ensures var next := CacheAdd(t, d);
      && (next.ok <==>
          Acceptable(t.extras, d) && Version(t.data, PayloadId(d)) <= PayloadVersion(d) && Expand(t.ids).Ok?)
      && next.tier.data == StoredWith(t.data, t.extras, d)
      && (!next.ok ==> next.tier == t.(data := next.tier.data))
      && (next.ok ==>
          (Expand(next.tier.ids) == if ValidId(PayloadId(d)) then Ok(Expand(t.ids).value + [PayloadId(d)]) else Err))
      && next.tier.extras == t.extras
  {
    hide PayloadId, PayloadVersion, Find, Put, Version, BlankHash, ValidId, EncryptBlacklisted, Expand, Compact;
    if Acceptable(t.extras, d) {
      AcceptableIsLong(t.extras, d);
      PutVersion(t.data, d, PayloadId(d));
      if Expand(t.ids).Ok? {
        var ids := Expand(t.ids).value;
        ExpandedAreValid(t.ids);
        CompactRoundTrip(ids + [PayloadId(d)]);
        AllValidSnoc(ids, PayloadId(d));
      }
    }
  }

  /** A refused add changes nothing exactly when the identifiers can be unpacked,
      or nothing was to be written, or the very same bytes were stored already. */
  lemma RefusedWritesExactly(t: TierData, d: seq<byte>)
    requires !CacheAdd(t, d).ok
    ensures CacheAdd(t, d).tier == t <==>
      Expand(t.ids).Ok? || !Acceptable(t.extras, d) || Put(t.data, d).Err? || Put(t.data, d).value == t.data
  {
    hide PayloadId, PayloadVersion, Find, Put, Version, Acceptable, ValidId, Expand, CacheAdd;
    CacheAddExactly(t, d);
    if Acceptable(t.extras, d) {
      AcceptableIsLong(t.extras, d);
      PutVersion(t.data, d, PayloadId(d));
    }
  }

  // ----- what a cache keeps -----

  predicate NonDecreasing(s: seq<uint64>) {
    forall i, j :: 0 <= i <= j < |s| ==> s[i] <= s[j]
  }

  /** The index entries of one identifier never go back and end at the version
      that is stored. */
  predicate Tracks(listed: seq<uint64>, version: int) {
    && NonDecreasing(listed)
    && (listed == [] <==> version == -1)
    && (listed != [] ==> listed[|listed| - 1] == version)
  }

  lemma TracksMore(listed: seq<uint64>, version: int, next: uint64)
    requires Tracks(listed, version) && version <= next
    ensures Tracks(listed + [next], next)
  {
  }

  predicate UniqueIds(data: seq<Payload>) {
    forall i, j :: 0 <= i < j < |data| ==> PayloadId(data[i]) != PayloadId(data[j])
  }

  ghost predicate CacheInv(t: TierData) {
    && Index(t).Ok?
    && UniqueIds(t.data)
    && forall id: Id :: Tracks(Listed(Index(t).value, id), Version(t.data, id))
  }

  lemma PutUnique(data: seq<Payload>, d: Payload)
    requires UniqueIds(data) && Put(data, d).Ok?
    ensures UniqueIds(Put(data, d).value)
  {
    hide PayloadId, PayloadVersion, Find;
  }

  /** How the version and the index entries of one identifier move. */
  lemma CacheAddAt(t: TierData, d: seq<byte>, id: Id)
    requires Index(t).Ok? && CacheAdd(t, d).ok && ValidId(PayloadId(d))
    ensures var next := CacheAdd(t, d).tier;
      && Index(next).Ok?
      && (if id == PayloadId(d)
          then && Version(next.data, id) == PayloadVersion(d) >= Version(t.data, id)
               && Listed(Index(next).value, id) == Listed(Index(t).value, id) + [PayloadVersion(d)]
          else && Version(next.data, id) == Version(t.data, id)
               && Listed(Index(next).value, id) == Listed(Index(t).value, id))
  {
    hide PayloadId, PayloadVersion, Index, CacheAdd, Put, Version, Listed, ValidId, Acceptable;
    CacheAddEffect(t, d);
    AcceptableIsLong(t.extras, d);
    PutVersion(t.data, d, id);
    ListedAppend(Index(t).value, (PayloadId(d), PayloadVersion(d)), id);
  }

  lemma CacheAddKeepsInv(t: TierData, d: seq<byte>)
    requires CacheInv(t) && (|d| >= 50 ==> ValidId(PayloadId(d)))
    ensures CacheInv(CacheAdd(t, d).tier)
  {
    hide PayloadId, PayloadVersion, Index, CacheAdd, Put, Version, Listed, ValidId, Acceptable, UniqueIds, Tracks;
    CacheAddEffect(t, d);
    if CacheAdd(t, d).ok {
      AcceptableIsLong(t.extras, d);
      var next := CacheAdd(t, d).tier;
      PutUnique(t.data, d);
      forall id: Id
        ensures Tracks(Listed(Index(next).value, id), Version(next.data, id))
      {
        CacheAddAt(t, d, id);
        if id == PayloadId(d) {
          TracksMore(Listed(Index(t).value, id), Version(t.data, id), PayloadVersion(d));
        }
      }
    }
  }

  lemma AcceptableIsLong(extras: seq<byte>, d: seq<byte>)
    requires Acceptable(extras, d)
    ensures |d| >= 50
  {
  }

  // ----- any run of adds -----

  function AddAll(t: TierData, ds: seq<seq<byte>>): TierData {
    if ds == [] then t else CacheAdd(AddAll(t, ds[..|ds| - 1]), ds[|ds| - 1]).tier
  }

  /** The version of a payload, -1 when the header cannot be read. */
  function VersionOf(d: seq<byte>): int {
    if |d| >= 50 then PayloadVersion(d) else -1
  }

  /** The payload can be stored under this identifier. */
  predicate Storable(extras: seq<byte>, id: Id, d: seq<byte>) {
    Acceptable(extras, d) && PayloadId(d) == id
  }

  /** The payload at `k` is the last of those with the greatest version. */
  predicate Winner(extras: seq<byte>, ds: seq<seq<byte>>, id: Id, k: nat)
    requires k < |ds|
  {
    && Storable(extras, id, ds[k])
    && forall j :: 0 <= j < |ds| && Storable(extras, id, ds[j]) ==>
      VersionOf(ds[j]) < VersionOf(ds[k]) || (VersionOf(ds[j]) == VersionOf(ds[k]) && j <= k)
  }

  /** What a lookup must give: the winner, or nothing when there is none. */
  predicate Newest(extras: seq<byte>, ds: seq<seq<byte>>, id: Id, got: seq<byte>) {
    if got == [] then forall k :: 0 <= k < |ds| ==> !Storable(extras, id, ds[k])
    else exists k :: 0 <= k < |ds| && Winner(extras, ds, id, k) && ds[k] == got
  }

  lemma NewestStep(extras: seq<byte>, ds: seq<seq<byte>>, d: seq<byte>, id: Id, got: seq<byte>, next: seq<byte>)
    requires Newest(extras, ds, id, got)
    requires next == if Storable(extras, id, d) && VersionOf(got) <= VersionOf(d) then d else got
    requires Storable(extras, id, d) ==> d != []
    requires got == [] ==> VersionOf(got) <= VersionOf(d)
    ensures Newest(extras, ds + [d], id, next)
  {
    hide Storable, VersionOf;
    var more := ds + [d];
    assert more[|ds|] == d;
    if got != [] {
      var k :| 0 <= k < |ds| && Winner(extras, ds, id, k) && ds[k] == got;
      assert Winner(extras, more, id,
        if Storable(extras, id, d) && VersionOf(got) <= VersionOf(d) then |ds| else k);
    } else if Storable(extras, id, d) {
      assert Winner(extras, more, id, |ds|);
    }
  }

  lemma CacheGetAfter(t: TierData, d: seq<byte>, id: Id)
    requires Index(t).Ok?
    ensures var got := CacheGet(t.data, id);
      CacheGet(CacheAdd(t, d).tier.data, id) ==
        if Storable(t.extras, id, d) && VersionOf(got) <= VersionOf(d) then d else got
    ensures CacheAdd(t, d).tier.extras == t.extras
    ensures VersionOf(CacheGet(t.data, id)) == Version(t.data, id)
  {
    hide PayloadId, PayloadVersion, Find, Put, Index, CacheAdd, Acceptable;
    CacheAddEffect(t, d);
    if CacheAdd(t, d).ok {
      AcceptableIsLong(t.extras, d);
      PutFinds(t.data, d, id);
    }
    if Acceptable(t.extras, d) {
      AcceptableIsLong(t.extras, d);
    }
  }

  lemma StorableIsLong(extras: seq<byte>, id: Id, d: seq<byte>)
    ensures Storable(extras, id, d) ==> |d| >= 50 && VersionOf(d) >= 0
    ensures VersionOf([]) == -1 <= VersionOf(d)
  {
    hide PayloadId, PayloadVersion;
  }

  predicate AllIdsValid(ds: seq<seq<byte>>) {
    forall i :: 0 <= i < |ds| && |ds[i]| >= 50 ==> ValidId(PayloadId(ds[i]))
  }

  function EmptyTier(major: byte, minor: byte, extras: seq<byte>): TierData {
    TierData(major, minor, extras, [], [], [], [], [])
  }

  lemma EmptyTierInv(major: byte, minor: byte, extras: seq<byte>, id: Id)
    ensures var t := EmptyTier(major, minor, extras);
      CacheInv(t) && Newest(extras, [], id, CacheGet(t.data, id))
  {
    var t := EmptyTier(major, minor, extras);
    assert Index(t) == Ok([]);
  }

  /** Over any run of adds, accepted or refused, the cache is a versioned map:
      a lookup gives the last payload among those with the greatest version, no
      identifier has two records, and the index stays readable and in step. */
  lemma {:induction false} CacheRefinesMap(major: byte, minor: byte, extras: seq<byte>, ds: seq<seq<byte>>, id: Id)
    requires AllIdsValid(ds)
    ensures var t := AddAll(EmptyTier(major, minor, extras), ds);
      t.extras == extras && CacheInv(t) && Newest(extras, ds, id, CacheGet(t.data, id))
  {
    hide Newest, CacheInv, CacheAdd, CacheGet, PayloadId, ValidId, Storable, VersionOf;
    EmptyTierInv(major, minor, extras, id);
    if ds != [] {
      var before, d := ds[..|ds| - 1], ds[|ds| - 1];
      CacheRefinesMap(major, minor, extras, before, id);
      var t := AddAll(EmptyTier(major, minor, extras), before);
      assert before + [d] == ds;
      CacheInvIndex(t);
      CacheAddKeepsInv(t, d);
      CacheGetAfter(t, d, id);
      StorableIsLong(extras, id, d);
      NewestStep(extras, before, d, id, CacheGet(t.data, id), CacheGet(CacheAdd(t, d).tier.data, id));
    }
  }

  lemma CacheInvIndex(t: TierData)
    requires CacheInv(t)
    ensures Index(t).Ok?
  {
  }

  /** Storing an invalid identifier is accepted, and leaves an index that can no
      longer be read. */
  lemma InvalidIdPoisonsIndex(t: TierData, d: seq<byte>)
    requires Index(t).Ok? && CacheAdd(t, d).ok
    ensures |d| >= 50 && (Index(CacheAdd(t, d).tier).Ok? <==> ValidId(PayloadId(d)))
  {
    hide PayloadId, PayloadVersion, Index, CacheAdd, Put, Version, Acceptable, ValidId;
    CacheAddEffect(t, d);
    AcceptableIsLong(t.extras, d);
  }

  // ----- a concrete invalid identifier -----

  /** An export without fields. */
  function Bare(id: Id, version: uint64): Payload {
    [0] + Reverse(id) + BigEndian(version, 8)
  }

  lemma BareHeader(id: Id, version: uint64)
    ensures PayloadId(Bare(id, version)) == id && PayloadVersion(Bare(id, version)) == version
    ensures Bare(id, version)[0] == 0
  {
    hide Uint64Of, LittleEndian;
    var p := Bare(id, version);
    assert p[1..42] == Reverse(id) && p[42..50] == BigEndian(version, 8);
    ReverseTwice(id);
    ReverseTwice(LittleEndian(version, 8));
    Uint64RoundTrip(version);
  }

  /** UUID 0, an owner hash that starts with 1, type 20. */
  function InvalidExampleId(): Id {
    Zeros(8) + [1] + Zeros(31) + [20]
  }

  lemma {:induction false} ZerosDecode(n: nat)
    ensures FromLittleEndian(Zeros(n)) == 0
  {
    if n > 0 {
      ZerosDecode(n - 1);
      assert Zeros(n)[1..] == Zeros(n - 1);
    }
  }

  lemma InvalidExample()
    ensures !ValidId(InvalidExampleId()) && !BlankHash(Hash(InvalidExampleId()))
  {
    var id := InvalidExampleId();
    assert id[8] == 1 && id[40] == 20 && id[..8] == Zeros(8);
    assert Hash(id)[0] == 1;
    ZerosDecode(8);
  }

  /** A concrete payload with an invalid identifier that an empty cache accepts:
      it is stored and can be looked up, and the index can no longer be read. */
  lemma InvalidIdIsAccepted()
    ensures var p := Bare(InvalidExampleId(), 1);
      var add := CacheAdd(EmptyTier(1, 0, [0]), p);
      add.ok && CacheGet(add.tier.data, InvalidExampleId()) == p && Index(add.tier).Err?
  {
    hide PayloadId, PayloadVersion, CacheAdd, Bare, BlankHash, Hash, ValidId, Index, EncryptBlacklisted;
    var id, t := InvalidExampleId(), EmptyTier(1, 0, [0]);
    InvalidExample();
    BareHeader(id, 1);
    EmptyTierInv(1, 0, [0], id);
    CacheInvIndex(t);
    CacheAddEffect(t, Bare(id, 1));
    CacheGetAfter(t, Bare(id, 1), id);
    InvalidIdPoisonsIndex(t, Bare(id, 1));
  }

  // ----- acceptance in bytes -----

  /** What a cache may take, read from the bytes: a whole header, an extra byte
      that is allowed or one of the six types that are never encrypted, and an
      owner hash that is not blank. */
  lemma AcceptableInBytes(extras: seq<byte>, d: seq<byte>)
    ensures Acceptable(extras, d) <==>
      && |d| >= 50
      && (d[0] in extras || d[1] in {2, 3, 8, 9, 10, 11})
      && exists i :: 2 <= i < 34 && d[i] != 0
  {
    hide PayloadId, Hash, Type, BlankHash;
    if |d| >= 50 {
      PayloadType(d);
      PayloadHash(d);
    }
  }

  lemma PayloadType(d: Payload)
    ensures Type(PayloadId(d)) == d[1]
  {
  }

  lemma PayloadHashAt(d: Payload, i: nat)
    requires 2 <= i < 34
    ensures |Hash(PayloadId(d))| == 32 && Hash(PayloadId(d))[33 - i] == d[i]
  {
    var id := PayloadId(d);
    assert id[41 - i] == d[i] && Hash(id) == id[8..40];
  }

  lemma PayloadHash(d: Payload)
    ensures BlankHash(Hash(PayloadId(d))) <==> forall i :: 2 <= i < 34 ==> d[i] == 0
  {
    hide PayloadId, Hash;
    var hash := Hash(PayloadId(d));
    forall i | 2 <= i < 34
      ensures |hash| == 32 && hash[33 - i] == d[i]
    {
      PayloadHashAt(d, i);
    }
    PayloadHashAt(d, 2);
    forall j | 0 <= j < 32
      ensures hash[j] == d[33 - j]
    {
      PayloadHashAt(d, 33 - j);
    }
    if i :| 2 <= i < 34 && d[i] != 0 {
      assert hash[33 - i] == d[i];
    }
  }
}
