// The tier state as the object the program keeps: its storage index, its cache
// and its queues, changed in place (src/id/tier/id_tier.cpp,
// src/id/tier/id_tier_define.h, src/id/tier/id_tier_cache.cpp,
// src/id/tier/storage/id_tier_storage.cpp, src/id/tier/move/id_tier_move.cpp).

module TierStates {
  import opened Bytes
  import opened Ids
  import opened IdSets
  import opened Objects
  import opened Strip
  import opened TierCache
  import TierQueue
  import opened TierSweep

  lemma FindStep(data: seq<Payload>, id: Id, i: nat)
    requires i < |data| && (forall j :: 0 <= j < i ==> PayloadId(data[j]) != id) && PayloadId(data[i]) == id
    ensures Find(data, id) == i
  {
    hide PayloadId;
    FindIs(data, id, i);
  }

  lemma FindNone(data: seq<Payload>, id: Id)
    requires forall j :: 0 <= j < |data| ==> PayloadId(data[j]) != id
    ensures Find(data, id) == |data|
  {
    hide PayloadId;
    FindIs(data, id, |data|);
  }

  /** The header fetches of the cache, taken together. */
  lemma AcceptableFetches(extras: seq<byte>, d: seq<byte>)
    ensures Acceptable(extras, d) <==>
      && FetchExtra(d).Ok? && FetchId(d).Ok? && FetchModInc(d).Ok?
      && (FetchExtra(d).value in extras || EncryptBlacklisted(Type(FetchId(d).value)))
      && !BlankHash(Hash(FetchId(d).value))
    ensures |d| >= 50 ==> FetchId(d) == Ok(PayloadId(d)) && FetchModInc(d) == Ok(PayloadVersion(d))
    ensures FetchModInc(d).Ok? ==> |d| >= 50
  {
    hide Uint64Of, BlankHash, EncryptBlacklisted, Hash, Type;
  }

  /** `std::find` on a byte vector. */
  method FindByte(s: seq<byte>, b: byte) returns (found: bool)
    ensures found <==> b in s
  {
    for i := 0 to |s|
      invariant b !in s[..i]
    {
      if s[i] == b {
        return true;
      }
      assert s[..i + 1] == s[..i] + [s[i]];
    }
    assert s[..|s|] == s;
    return false;
  }

  class TierState {
    var major: byte
    var minor: byte
    var extras: seq<byte>
    var ids: seq<byte>
    var modIncs: seq<uint64>
    var cacheData: seq<Payload>
    var inbound: seq<Entry>
    var outbound: seq<Entry>

    constructor (major: byte, minor: byte, extras: seq<byte>)
      ensures View() == EmptyTier(major, minor, extras)
    {
      this.major, this.minor, this.extras := major, minor, extras;
      ids, modIncs, cacheData, inbound, outbound := [], [], [], [], [];
    }

    function View(): TierData
      reads this
    {
      TierData(major, minor, extras, ids, modIncs, cacheData, inbound, outbound)
    }

    // ----- storage -----

    method AddIdBuffer(id: Id, modInc: uint64) returns (ok: bool)
      modifies this`ids, this`modIncs
      ensures Step(View(), ok) == TierCache.AddIdBuffer(old(View()), id, modInc)
    {
      hide Expand, Compact;
      var set_ := AddIdToSet(ids, id);
      if set_.Err? {
        return false;
      }
      ids := set_.value;
      modIncs := modIncs + [modInc];
      return true;
    }

    /** The index reads back as exactly the given pairs when their identifiers
        are valid. */
    method SetIdBuffer(pairs: seq<IndexEntry>)
      modifies this`ids, this`modIncs
      ensures Index(View()) ==
        if forall i :: 0 <= i < |pairs| ==> ValidId(pairs[i].0) then Ok(pairs) else Err
      ensures View() == old(View()).(ids := ids, modIncs := modIncs)
    {
      hide Expand, Compact, ValidId;
      var idsNew: seq<Id>, modIncsNew: seq<uint64> := [], [];
      for i := 0 to |pairs|
        invariant |idsNew| == |modIncsNew| == i
        invariant forall k :: 0 <= k < i ==> idsNew[k] == pairs[k].0 && modIncsNew[k] == pairs[k].1
      {
        idsNew := idsNew + [pairs[i].0];
        modIncsNew := modIncsNew + [pairs[i].1];
      }
      ids := CompactIdSet(idsNew);
      modIncs := modIncsNew;
      SetIdBufferRoundTrip(idsNew, modIncsNew);
      assert Pairs(idsNew, modIncsNew) == pairs;
    }

    /** `id_mod_inc::from_state`. */
    method FromState() returns (r: Result<seq<IndexEntry>>)
      ensures r == Index(View())
    {
      hide Expand;
      var idList := ExpandIdSet(ids);
      if idList.Err? || |idList.value| != |modIncs| {
        return Err;
      }
      var retval: seq<IndexEntry> := [];
      for i := 0 to |idList.value|
        invariant retval == Pairs(idList.value, modIncs)[..i]
      {
        retval := retval + [(idList.value[i], modIncs[i])];
      }
      assert retval == Pairs(idList.value, modIncs);
      return Ok(retval);
    }

    /** Whether the cache may take a payload with this extra byte and identifier:
        of the payloads with this header and an owner, all or none can be added. */
    method IsAllowedExtra(extra: byte, id: Id) returns (ok: bool)
      ensures ok <==> extra in extras || EncryptBlacklisted(Type(id))
      ensures forall d: seq<byte> :: |d| >= 50 && d[0] == extra && PayloadId(d) == id && !BlankHash(Hash(id)) ==>
        (Acceptable(extras, d) <==> ok)
    {
      hide PayloadId, BlankHash, Hash, Type;
      var found := FindByte(extras, extra);
      if found {
        return true;
      }
      ok := FindByte(EncryptBlacklist(), Type(id));
    }

    // ----- the cache medium -----

    method AddData(data: seq<byte>) returns (ok: bool)
      modifies this`cacheData, this`ids, this`modIncs
      ensures Step(View(), ok) == CacheAdd(old(View()), data)
    {
      hide PayloadId, PayloadVersion, Find, TierCache.AddIdBuffer, FetchExtra, FetchId, FetchModInc, BlankHash,
        EncryptBlacklisted, Acceptable;
      AcceptableFetches(extras, data);
      var extra, idNew, modIncNew := FetchExtra(data), FetchId(data), FetchModInc(data);
      if extra.Err? || idNew.Err? {
        return false;
      }
      var allowed := IsAllowedExtra(extra.value, idNew.value);
      if !allowed || modIncNew.Err? || BlankHash(Hash(idNew.value)) {
        return false;
      }
      var written := Write(data);
      if !written {
        return false;
      }
      ok := AddIdBuffer(idNew.value, modIncNew.value);
    }

    /** The loop that overwrites the first record of the identifier, or adds one
        at the end; an older version is refused. */
    method Write(data: Payload) returns (ok: bool)
      modifies this`cacheData
      ensures match Put(old(cacheData), data)
        case Ok(next) => ok && cacheData == next
        case Err => !ok && cacheData == old(cacheData)
    {
      hide PayloadId, PayloadVersion, Find;
      var idNew, modIncNew := PayloadId(data), PayloadVersion(data);
      var wrote := false;
      for i := 0 to |cacheData|
        invariant !wrote && cacheData == old(cacheData)
        invariant forall j :: 0 <= j < i ==> PayloadId(cacheData[j]) != idNew
      {
        var idTmp, modIncTmp := PayloadId(cacheData[i]), PayloadVersion(cacheData[i]);
        if idTmp == idNew {
          FindStep(cacheData, idNew, i);
          if modIncTmp > modIncNew {
            return false;
          }
          cacheData := cacheData[i := data];
          wrote := true;
          break;
        }
      }
      if !wrote {
        FindNone(cacheData, idNew);
        cacheData := cacheData + [data];
      }
      return true;
    }

    method GetId(id: Id) returns (r: seq<byte>)
      ensures r == CacheGet(cacheData, id)
    {
      hide PayloadId;
      for i := 0 to |cacheData|
        invariant forall j :: 0 <= j < i ==> PayloadId(cacheData[j]) != id
      {
        if PayloadId(cacheData[i]) == id {
          FindStep(cacheData, id, i);
          return cacheData[i];
        }
      }
      FindNone(cacheData, id);
      return [];
    }

    // ----- the queues -----

    /** The first loop of the macro: requests are answered in place. */
    method LoopInbound() returns (ok: bool)
      modifies this`inbound
      ensures TierQueue.Filled(inbound, ok) == TierQueue.Fill(cacheData, old(inbound))
    {
      hide CacheGet;
      for i := 0 to |inbound|
        invariant |inbound| == |old(inbound)|
        invariant AnsweredUpTo(cacheData, old(inbound), inbound, i)
      {
        AnsweredStep(cacheData, old(inbound), inbound, i);
        if |inbound[i].payload| == 0 {
          var payload := GetId(inbound[i].id);
          if |payload| == 0 {
            return false;
          }
          inbound := inbound[i := inbound[i].(payload := payload)];
        }
      }
      AnsweredEnd(cacheData, old(inbound), inbound);
      return true;
    }

    /** The second loop: an entry is erased as soon as it is added, and the index
        steps back so that the next entry is not skipped. */
    method LoopOutbound()
      modifies this`outbound, this`cacheData, this`ids, this`modIncs
      ensures var drained := TierQueue.Drain(old(View()), old(outbound));
        View() == drained.tier.(outbound := drained.kept)
    {
      hide CacheAdd, TierQueue.Drain, DrainedUpTo;
      ghost var start, queue := View(), outbound;
      DrainedStart(start);
      var i := 0;
      while i < |outbound|
        invariant 0 <= i <= |outbound|
        invariant DrainedUpTo(start, queue, View(), i)
        decreases |outbound| - i
      {
        DrainedStep(start, queue, View(), i);
        ghost var was := View();
        if |outbound[i].payload| != 0 {
          var complete := AddData(outbound[i].payload);
          if complete {
            outbound := outbound[..i] + outbound[i + 1..];
            i := i - 1;
          }
        } else {
          EmptyIsRefused(was);
        }
        i := i + 1;
      }
      DrainedEnd(start, queue, View());
    }

    method Loop() returns (ok: bool)
      modifies this`inbound, this`outbound, this`cacheData, this`ids, this`modIncs
      ensures Step(View(), ok) == TierQueue.Loop(old(View()))
    {
      hide TierQueue.Drain, TierQueue.Fill;
      ok := LoopInbound();
      if !ok {
        return;
      }
      LoopOutbound();
    }

    method FindIf(id: Id) returns (k: nat)
      ensures k == TierQueue.FindEntry(inbound, id)
    {
      k := 0;
      while k < |inbound| && inbound[k].id != id
        invariant k <= |inbound|
        invariant TierQueue.FindEntry(inbound, id) == k + TierQueue.FindEntry(inbound[k..], id)
      {
        assert inbound[k..][1..] == inbound[k + 1..];
        k := k + 1;
      }
    }

    /** An answered request is handed over and erased. */
    method Take(id: Id) returns (payload: seq<byte>)
      modifies this`inbound
      ensures TierQueue.Got(View(), payload) == TierQueue.TakeEntry(old(View()), id)
    {
      hide TierQueue.FindEntry;
      var k := FindIf(id);
      if k == |inbound| || |inbound[k].payload| == 0 {
        return [];
      }
      payload := inbound[k].payload;
      inbound := inbound[..k] + inbound[k + 1..];
    }

    /** `get_data_from_state` for this state and one identifier. */
    method GetDataFromState(id: Id) returns (payload: seq<byte>)
      modifies this`inbound, this`outbound, this`cacheData, this`ids, this`modIncs
      ensures TierQueue.Got(View(), payload) == TierQueue.GetData(old(View()), id)
    {
      hide TierQueue.FindEntry, TierQueue.TakeEntry, TierQueue.Loop;
      var k := FindIf(id);
      if k == |inbound| {
        inbound := inbound + [Entry(id, [])];
        var ok := Loop();
        if !ok {
          return [];
        }
      }
      payload := Take(id);
    }

    /** `add_data_to_state` for this state and one payload; not ok when printing
        the error throws. */
    method AddDataToState(data: seq<byte>) returns (ok: bool)
      modifies this`inbound, this`outbound, this`cacheData, this`ids, this`modIncs
      ensures Step(View(), ok) == TierQueue.AddData(old(View()), data)
    {
      hide TierQueue.Loop, FetchId;
      if |extras| == 0 || extras[0] >= 4 {
        return FetchId(data).Ok?;
      }
      var forced := ForceToExtra(data, extras[0]);
      if forced.Err? {
        return FetchId(data).Ok?;
      }
      var id := FetchId(forced.value);
      if id.Err? {
        return FetchId(data).Ok?;
      }
      outbound := outbound + [Entry(id.value, forced.value)];
      var looped := Loop();
      return true;
    }
  }

  // ----- the queue loops in progress -----

  /** The first `i` requests have been answered. */
  predicate AnsweredUpTo(data: seq<Payload>, queue: seq<Entry>, now: seq<Entry>, i: nat)
    requires i <= |now|
  {
    && |now| == |queue|
    && TierQueue.Fill(data, queue) ==
         TierQueue.Filled(now[..i] + TierQueue.Fill(data, now[i..]).queue, TierQueue.Fill(data, now[i..]).ok)
  }

  lemma AnsweredStep(data: seq<Payload>, queue: seq<Entry>, now: seq<Entry>, i: nat)
    requires i < |now| && AnsweredUpTo(data, queue, now, i)
    ensures var payload := if now[i].payload == [] then CacheGet(data, now[i].id) else now[i].payload;
      if payload == [] then TierQueue.Fill(data, queue) == TierQueue.Filled(now, false)
      else AnsweredUpTo(data, queue, now[i := now[i].(payload := payload)], i + 1)
    ensures now[i].payload != [] ==> now[i := now[i].(payload := now[i].payload)] == now
  {
    hide CacheGet;
    var payload := if now[i].payload == [] then CacheGet(data, now[i].id) else now[i].payload;
    assert now[i..][1..] == now[i + 1..];
    if payload == [] {
      assert now[..i] + now[i..] == now;
    } else {
      var next := now[i := now[i].(payload := payload)];
      assert next[i + 1..] == now[i + 1..];
      assert next[..i + 1] == now[..i] + [Entry(now[i].id, payload)];
      var more := TierQueue.Fill(data, now[i + 1..]);
      assert now[..i] + ([Entry(now[i].id, payload)] + more.queue) == next[..i + 1] + more.queue;
    }
  }

  lemma AnsweredEnd(data: seq<Payload>, queue: seq<Entry>, now: seq<Entry>)
    requires AnsweredUpTo(data, queue, now, |now|)
    ensures TierQueue.Fill(data, queue) == TierQueue.Filled(now, true)
  {
    assert now[..|now|] == now && now + [] == now;
  }

  /** The queue has been worked off up to index `i` of what is left of it. */
  predicate DrainedUpTo(start: TierData, queue: seq<Entry>, now: TierData, i: nat)
    requires i <= |now.outbound|
  {
    var more := TierQueue.Drain(now.(outbound := start.outbound), now.outbound[i..]);
    TierQueue.Drain(start, queue) == TierQueue.Drained(more.tier, now.outbound[..i] + more.kept)
  }

  lemma DrainedStart(start: TierData)
    ensures DrainedUpTo(start, start.outbound, start, 0)
  {
    hide CacheAdd;
    assert start.(outbound := start.outbound) == start && start.outbound[0..] == start.outbound;
    assert [] + TierQueue.Drain(start, start.outbound).kept == TierQueue.Drain(start, start.outbound).kept;
  }

  lemma DrainedStep(start: TierData, queue: seq<Entry>, now: TierData, i: nat)
    requires i < |now.outbound| && DrainedUpTo(start, queue, now, i)
    ensures var add := CacheAdd(now, now.outbound[i].payload);
      && add.tier.outbound == now.outbound
      && (if add.ok
          then DrainedUpTo(start, queue, add.tier.(outbound := now.outbound[..i] + now.outbound[i + 1..]), i)
          else DrainedUpTo(start, queue, add.tier, i + 1))
  {
    hide CacheAdd;
    var e, was := now.outbound[i], now.(outbound := start.outbound);
    var add := CacheAdd(now, e.payload);
    TierQueue.AddIgnoresQueues(now, e.payload, now.inbound, start.outbound);
    assert now.(inbound := now.inbound, outbound := start.outbound) == was;
    assert CacheAdd(was, e.payload) == Step(add.tier.(outbound := start.outbound), add.ok);
    assert now.outbound[i..][1..] == now.outbound[i + 1..];
    var more := TierQueue.Drain(add.tier.(outbound := start.outbound), now.outbound[i + 1..]);
    if add.ok {
      var left := now.outbound[..i] + now.outbound[i + 1..];
      assert left[..i] == now.outbound[..i] && left[i..] == now.outbound[i + 1..];
    } else {
      assert now.outbound[..i + 1] + more.kept == now.outbound[..i] + ([e] + more.kept);
    }
  }

  lemma DrainedEnd(start: TierData, queue: seq<Entry>, now: TierData)
    requires DrainedUpTo(start, queue, now, |now.outbound|)
    ensures var drained := TierQueue.Drain(start, queue);
      now == drained.tier.(outbound := drained.kept)
  {
    assert now.outbound[|now.outbound|..] == [] && now.outbound[..|now.outbound|] + [] == now.outbound;
  }

  lemma EmptyIsRefused(t: TierData)
    ensures CacheAdd(t, []) == Step(t, false)
  {
  }

  // ----- who copies what to whom -----

  /** The identifier, the lower tier, the higher one, and which way to copy. */
  datatype MoveTuple = MoveTuple(id: Id, first: TierState, second: TierState, copyUp: bool)

  function Tuples(moves: seq<Move>, low: TierState, high: TierState): (r: seq<MoveTuple>)
    ensures |r| == |moves|
  {
    seq(|moves|, i requires 0 <= i < |moves| => MoveTuple(moves[i].id, low, high, moves[i].up))
  }

  /** The inner loop: the first entry of the second index with this identifier. */
  method FindSecond(second: seq<IndexEntry>, id: Id) returns (found: bool, modInc: uint64)
    requires !MemOnly(Type(id))
    ensures if found then FirstListed(second, id) == modInc else FirstListed(second, id) == -1
  {
    hide MemOnly, Listed;
    found, modInc := false, 0;
    for b := 0 to |second|
      invariant FirstListed(second, id) == FirstListed(second[b..], id)
    {
      assert second[b..][1..] == second[b + 1..];
      if MemOnly(Type(second[b].0)) {
        continue;
      }
      if second[b].0 == id {
        return true, second[b].1;
      }
    }
    assert second[|second|..] == [];
  }

  /** What entry `a` of the first index asks for. */
  function MovesOf(a: IndexEntry, second: seq<IndexEntry>): seq<Move> {
    if MemOnly(Type(a.0)) || a.1 == FirstListed(second, a.0) then []
    else [Move(a.0, a.1 > FirstListed(second, a.0))]
  }

  lemma {:induction false} MovesSnoc(first: seq<IndexEntry>, a: IndexEntry, second: seq<IndexEntry>)
    ensures Moves(first + [a], second) == Moves(first, second) + MovesOf(a, second)
  {
    hide MemOnly, FirstListed;
    if first == [] {
      assert [a][1..] == [] && [] + [a] == [a];
      assert MovesOf(a, second) + [] == MovesOf(a, second) && [] + MovesOf(a, second) == MovesOf(a, second);
    } else {
      assert (first + [a])[1..] == first[1..] + [a];
      MovesSnoc(first[1..], a, second);
      assert Moves(first, second) == MovesOf(first[0], second) + Moves(first[1..], second);
    }
  }

  method StandardMoveLogic(first: TierState, second: TierState) returns (r: Result<seq<MoveTuple>>)
    ensures match Index(first.View())
      case Err => r == Err
      case Ok(a) =>
        match Index(second.View())
        case Err => r == Err
        case Ok(b) => r == Ok(Tuples(Moves(a, b), first, second))
  {
    hide Index, MemOnly, FirstListed, Moves;
    var firstBuffer := first.FromState();
    if firstBuffer.Err? {
      return Err;
    }
    var secondBuffer := second.FromState();
    if secondBuffer.Err? {
      return Err;
    }
    var retval := [];
    NoMoves(secondBuffer.value);
    for a := 0 to |firstBuffer.value|
      invariant retval == Tuples(Moves(firstBuffer.value[..a], secondBuffer.value), first, second)
    {
      var (aId, aModInc) := firstBuffer.value[a];
      assert firstBuffer.value[..a + 1] == firstBuffer.value[..a] + [firstBuffer.value[a]];
      MovesSnoc(firstBuffer.value[..a], firstBuffer.value[a], secondBuffer.value);
      LockedIsMemOnly(aId);
      if Type(aId) == TYPE_ID_TIER_STATE {
        continue;
      }
      if MemOnly(Type(aId)) {
        continue;
      }
      var found, bModInc := FindSecond(secondBuffer.value, aId);
      if found {
        if aModInc > bModInc {
          retval := retval + [MoveTuple(aId, first, second, true)];
        } else if aModInc < bModInc {
          retval := retval + [MoveTuple(aId, first, second, false)];
        }
      } else {
        retval := retval + [MoveTuple(aId, first, second, true)];
      }
    }
    assert firstBuffer.value[..|firstBuffer.value|] == firstBuffer.value;
    return Ok(retval);
  }

  lemma NoMoves(second: seq<IndexEntry>)
    ensures Moves([], second) == []
  {
  }

  lemma LockedIsMemOnly(id: Id)
    ensures Type(id) == TYPE_ID_TIER_STATE ==> MemOnly(Type(id))
  {
  }

  /** The tiers are put in the order of their major numbers first. */
  method MoveLogic(first_: TierState, second_: TierState) returns (r: Result<seq<MoveTuple>>)
    ensures var (low, high) := if first_.major > second_.major then (second_, first_) else (first_, second_);
      match TierMoves(low.View(), high.View())
      case Err => r == Err
      case Ok(moves) => r == Ok(Tuples(moves, low, high))
  {
    hide Index, Moves;
    var first, second := first_, second_;
    if first.major == second.major {
      return Ok([]);
    }
    if first.major > second.major {
      first, second := second, first;
    }
    if second.major == TIER_MAJOR_NETWORK {
      return Ok([]);
    }
    r := StandardMoveLogic(first, second);
  }

  // ----- one shift -----

  /** The checks before anything is read. */
  method CheckShift(start: TierState, end: TierState, id: Id, own: seq<byte>) returns (ok: bool)
    ensures ok <==> MayShift(start.View(), end.View(), id, own)
  {
    hide Index, Hash;
    var firstBuffer := start.FromState();
    if firstBuffer.Err? {
      return false;
    }
    var secondBuffer := end.FromState();
    if secondBuffer.Err? {
      return false;
    }
    if Type(id) == TYPE_ID_TIER_STATE {
      return false;
    }
    if start.major == 0 && Hash(id) != own {
      return false;
    }
    var found := false;
    for k := 0 to |firstBuffer.value|
      invariant found <==> exists i :: 0 <= i < k && firstBuffer.value[i].0 == id
    {
      found := found || firstBuffer.value[k].0 == id;
    }
    return found && |end.extras| > 0;
  }

  /** The list holds one identifier, which is erased when its payload has been
      handed to the other tier. */
  method ShiftDataToState(start: TierState, end: TierState, idVector: Vector<Id>, own: seq<byte>)
    requires start != end && |idVector.elems| == 1
    modifies start`inbound, start`outbound, start`cacheData, start`ids, start`modIncs
    modifies end`inbound, end`outbound, end`cacheData, end`ids, end`modIncs, idVector
    ensures Shifted(start.View(), end.View(), idVector.elems == []) ==
      Shift(old(start.View()), old(end.View()), old(idVector.elems[0]), own)
  {
    hide MayShift, Transportable, TierQueue.GetData, TierQueue.AddData;
    var id := idVector.elems[0];
    var may := CheckShift(start, end, id, own);
    if !may {
      return;
    }
    ShiftersHaveExtras(start.View(), end.View(), id, own);
    var shiftPayload := start.GetDataFromState(id);
    if |shiftPayload| == 0 {
      return;
    }
    var sent := Prepare(shiftPayload, end, id, own);
    if sent.Err? || |sent.value| == 0 {
      return;
    }
    var forced := ForceToExtra(sent.value, end.extras[0]);
    if forced.Err? {
      return;
    }
    var added := end.AddDataToState(forced.value);
    if added {
      idVector.elems := [];
    }
  }

  lemma ShiftersHaveExtras(from: TierData, to: TierData, id: Id, own: seq<byte>)
    requires MayShift(from, to, id, own)
    ensures to.extras != []
  {
  }

  /** Identifiers of this installation are stripped for the tier. */
  method Prepare(payload: seq<byte>, end: TierState, id: Id, own: seq<byte>) returns (r: Result<seq<byte>>)
    ensures r == Transportable(payload, id, own, end.View())
  {
    hide StripToTransportable, Hash;
    if Hash(id) == own {
      r := StripBytes(payload, Transport.Rules([(end.major, end.minor)], []));
    } else {
      return Ok(payload);
    }
  }

  // ----- the sweep -----

  predicate DistinctStates(tiers: seq<TierState>) {
    forall i, j :: 0 <= i < j < |tiers| ==> tiers[i] != tiers[j]
  }

  function Views(tiers: seq<TierState>): (r: seq<TierData>)
    reads tiers
    ensures |r| == |tiers| && forall i :: 0 <= i < |tiers| ==> r[i] == tiers[i].View()
  {
    seq(|tiers|, i requires 0 <= i < |tiers| reads tiers => tiers[i].View())
  }

  /** The innermost loop: every planned move is made in turn; what a shift throws
      is caught. */
  method MakeMoves(moveLogic: seq<MoveTuple>, ghost moves: seq<Move>, low: TierState, high: TierState, own: seq<byte>)
    requires low != high && moveLogic == Tuples(moves, low, high)
    modifies low`inbound, low`outbound, low`cacheData, low`ids, low`modIncs
    modifies high`inbound, high`outbound, high`cacheData, high`ids, high`modIncs
    ensures Pair(low.View(), high.View()) == ShiftMoves(Pair(old(low.View()), old(high.View())), moves, own)
  {
    hide Shift;
    for a := 0 to |moveLogic|
      invariant ShiftMoves(Pair(old(low.View()), old(high.View())), moves, own) ==
        ShiftMoves(Pair(low.View(), high.View()), moves[a..], own)
    {
      assert moves[a..][1..] == moves[a + 1..] && moves[a..][0] == moves[a];
      var move := moveLogic[a];
      var shiftOperation := new Vector([move.id]);
      if move.copyUp {
        ShiftDataToState(move.first, move.second, shiftOperation, own);
      } else {
        ShiftDataToState(move.second, move.first, shiftOperation, own);
      }
    }
    assert moves[|moves|..] == [];
  }

  /** One pair of the sweep. An unreadable index throws, and nothing catches it. */
  method SyncStates(tiers: seq<TierState>, i: nat, c: nat, own: seq<byte>) returns (ok: bool)
    requires i < |tiers| && c < |tiers| && i != c && DistinctStates(tiers)
    modifies tiers
    ensures Sweep(Views(tiers), ok) == SyncAt(old(Views(tiers)), i, c, own)
  {
    hide TierMoves, ShiftMoves;
    assert tiers[i] != tiers[c];
    ghost var was := Views(tiers);
    ghost var (l, h) := if tiers[i].major > tiers[c].major then (c, i) else (i, c);
    var moveLogic := MoveLogic(tiers[i], tiers[c]);
    if moveLogic.Err? {
      return false;
    }
    ghost var moves := TierMoves(was[l], was[h]).value;
    var low, high := tiers[i], tiers[c];
    if tiers[i].major > tiers[c].major {
      low, high := tiers[c], tiers[i];
    }
    MakeMoves(moveLogic.value, moves, low, high, own);
    assert forall k :: 0 <= k < |tiers| && k != l && k != h ==> tiers[k] != low && tiers[k] != high;
    assert Views(tiers) == was[l := low.View()][h := high.View()];
    return true;
  }

  /** `id_tier_loop`. */
  method IdTierLoop(tierStateVector: seq<TierState>, own: seq<byte>) returns (ok: bool)
    requires DistinctStates(tierStateVector)
    modifies tierStateVector
    ensures Sweep(Views(tierStateVector), ok) == TierLoop(old(Views(tierStateVector)), own)
  {
    hide SyncAt, SweepRow, TierQueue.Loop, DistinctStates;
    for i := 0 to |tierStateVector|
      invariant TierLoop(old(Views(tierStateVector)), own) == SweepFrom(Views(tierStateVector), i, own)
    {
      ok := RowOfStates(tierStateVector, i, own);
      if !ok {
        return;
      }
      ok := LoopState(tierStateVector, i);
    }
    return true;
  }

  method RowOfStates(tiers: seq<TierState>, i: nat, own: seq<byte>) returns (ok: bool)
    requires i < |tiers| && DistinctStates(tiers)
    modifies tiers
    ensures Sweep(Views(tiers), ok) == SweepRow(old(Views(tiers)), i, 0, own)
  {
    hide SyncAt, DistinctStates;
    for c := 0 to |tiers|
      invariant SweepRow(old(Views(tiers)), i, 0, own) == SweepRow(Views(tiers), i, c, own)
    {
      if i == c {
        continue;
      }
      ok := SyncStates(tiers, i, c, own);
      if !ok {
        return;
      }
    }
    return true;
  }

  method LoopState(tiers: seq<TierState>, i: nat) returns (ok: bool)
    requires i < |tiers| && DistinctStates(tiers)
    modifies tiers
    ensures Views(tiers) == old(Views(tiers))[i := TierQueue.Loop(old(Views(tiers))[i]).tier]
  {
    hide TierQueue.Loop;
    ok := tiers[i].Loop();
    assert forall k :: 0 <= k < |tiers| && k != i ==> tiers[k] != tiers[i];
  }
}
