// The transport queues of a tier: the loop every medium runs over them
// (src/id/tier/id_tier_define.h:18-50) and the two operations that use them,
// for one state and one identifier (src/id/tier/id_tier.cpp:275-382), on values.

module TierQueue {
  import opened Bytes
  import opened Ids
  import opened IdSets
  import opened Objects
  import opened Strip
  import opened TierCache

  // ----- the loop -----

  datatype Filled = Filled(queue: seq<Entry>, ok: bool)

  /** Requests are answered in order; one that cannot be answered throws. */
  function Fill(data: seq<Payload>, queue: seq<Entry>): Filled {
    if queue == [] then Filled([], true)
    else
      var e := queue[0];
      var payload := if e.payload == [] then CacheGet(data, e.id) else e.payload;
      if payload == [] then Filled(queue, false)
      else
        var more := Fill(data, queue[1..]);
        Filled([Entry(e.id, payload)] + more.queue, more.ok)
  }

  datatype Drained = Drained(tier: TierData, kept: seq<Entry>)

  /** Every entry is tried once; the ones that cannot be added stay. An empty
      payload is never acceptable. */
  function Drain(t: TierData, queue: seq<Entry>): Drained
    decreases |queue|
  {
    if queue == [] then Drained(t, [])
    else
      var add := CacheAdd(t, queue[0].payload);
      var more := Drain(add.tier, queue[1..]);
      if add.ok then more else Drained(more.tier, [queue[0]] + more.kept)
  }

  function Loop(t: TierData): Step {
    var filled := Fill(t.data, t.inbound);
    var u := t.(inbound := filled.queue);
    if !filled.ok then Step(u, false)
    else
      var drained := Drain(u, t.outbound);
      Step(drained.tier.(outbound := drained.kept), true)
  }

  // ----- every entry once, in order -----

  lemma {:induction false} DrainAppend(t: TierData, a: seq<Entry>, b: seq<Entry>)
    ensures var first := Drain(t, a);
      var second := Drain(first.tier, b);
      Drain(t, a + b) == Drained(second.tier, first.kept + second.kept)
    decreases |a|
  {
    hide CacheAdd;
    if a == [] {
      assert a + b == b && [] + Drain(t, b).kept == Drain(t, b).kept;
    } else {
      assert (a + b)[1..] == a[1..] + b;
      var add := CacheAdd(t, a[0].payload);
      DrainAppend(add.tier, a[1..], b);
      var first := Drain(add.tier, a[1..]);
      var second := Drain(first.tier, b);
      assert [a[0]] + (first.kept + second.kept) == ([a[0]] + first.kept) + second.kept;
    }
  }

  lemma DrainOne(t: TierData, e: Entry)
    ensures var add := CacheAdd(t, e.payload);
      Drain(t, [e]) == Drained(add.tier, if add.ok then [] else [e])
  {
    hide CacheAdd;
    assert [e][1..] == [] && [e] + [] == [e];
  }

  lemma DrainSnoc(t: TierData, queue: seq<Entry>, e: Entry)
    ensures var first := Drain(t, queue);
      var add := CacheAdd(first.tier, e.payload);
      Drain(t, queue + [e]) == Drained(add.tier, first.kept + if add.ok then [] else [e])
  {
    hide CacheAdd, Drain;
    DrainAppend(t, queue, [e]);
    DrainOne(Drain(t, queue).tier, e);
  }

  /** Entry `i` is accepted when its turn comes, after all the entries before it. */
  predicate Accepted(t: TierData, queue: seq<Entry>, i: nat)
    requires i < |queue|
  {
    CacheAdd(Drain(t, queue[..i]).tier, queue[i].payload).ok
  }

  /** The entries that are accepted, or the ones that are not, in order. */
  function Chosen(t: TierData, queue: seq<Entry>, accepted: bool, n: nat): seq<Entry>
    requires n <= |queue|
  {
    if n == 0 then []
    else Chosen(t, queue, accepted, n - 1) + if Accepted(t, queue, n - 1) == accepted then [queue[n - 1]] else []
  }

  function PayloadsOf(queue: seq<Entry>): (r: seq<seq<byte>>)
    ensures |r| == |queue|
  {
    seq(|queue|, i requires 0 <= i < |queue| => queue[i].payload)
  }

  lemma {:induction false} KeptAreRefused(t: TierData, queue: seq<Entry>, n: nat)
    requires n <= |queue|
    ensures Drain(t, queue[..n]).kept == Chosen(t, queue, false, n)
  {
    hide CacheAdd, Drain;
    if n == 0 {
      NothingDrained(t);
      assert queue[..0] == [];
    } else {
      KeptAreRefused(t, queue, n - 1);
      assert queue[..n] == queue[..n - 1] + [queue[n - 1]];
      DrainSnoc(t, queue[..n - 1], queue[n - 1]);
    }
  }

  lemma ChosenStep(t: TierData, queue: seq<Entry>, n: nat)
    requires n < |queue|
    ensures Chosen(t, queue, true, n + 1) ==
      Chosen(t, queue, true, n) + if Accepted(t, queue, n) then [queue[n]] else []
    ensures Chosen(t, queue, false, n + 1) ==
      Chosen(t, queue, false, n) + if Accepted(t, queue, n) then [] else [queue[n]]
  {
    hide Accepted;
  }

  /** Adding one entry to one of two parts adds it to the whole. */
  lemma PartsSnoc(a: seq<Entry>, b: seq<Entry>, all: seq<Entry>, e: Entry, first: bool)
    requires multiset(a) + multiset(b) == multiset(all)
    ensures multiset(a + if first then [e] else []) + multiset(b + if first then [] else [e]) == multiset(all + [e])
  {
    assert multiset(all + [e]) == multiset(all) + multiset([e]);
    if first {
      assert b + [] == b && multiset(a + [e]) == multiset(a) + multiset([e]);
    } else {
      assert a + [] == a && multiset(b + [e]) == multiset(b) + multiset([e]);
    }
  }

  lemma {:induction false} ChosenIsAll(t: TierData, queue: seq<Entry>, n: nat)
    requires n <= |queue|
    ensures multiset(Chosen(t, queue, false, n)) + multiset(Chosen(t, queue, true, n)) == multiset(queue[..n])
  {
    hide Accepted, Chosen;
    if n == 0 {
      NothingChosen(t, queue);
      assert queue[..0] == [];
    } else {
      ChosenIsAll(t, queue, n - 1);
      ChosenStep(t, queue, n - 1);
      assert queue[..n] == queue[..n - 1] + [queue[n - 1]];
      PartsSnoc(Chosen(t, queue, false, n - 1), Chosen(t, queue, true, n - 1), queue[..n - 1], queue[n - 1],
                !Accepted(t, queue, n - 1));
    }
  }

  lemma NothingChosen(t: TierData, queue: seq<Entry>)
    ensures Chosen(t, queue, false, 0) == [] && Chosen(t, queue, true, 0) == []
  {
  }

  lemma {:induction false} DrainAddsAll(t: TierData, queue: seq<Entry>, n: nat)
    requires n <= |queue|
    ensures Drain(t, queue[..n]).tier == AddAll(t, PayloadsOf(queue[..n]))
  {
    hide CacheAdd, Drain, AddAll, PayloadsOf;
    if n == 0 {
      NothingDrained(t);
      assert queue[..0] == [];
    } else {
      DrainAddsAll(t, queue, n - 1);
      assert queue[..n] == queue[..n - 1] + [queue[n - 1]];
      DrainSnoc(t, queue[..n - 1], queue[n - 1]);
      AddAllSnoc(t, queue[..n - 1], queue[n - 1]);
    }
  }

  /** In any state of the tier and for any queue: every entry is tried once, in
      order; what stays is what was refused at its turn, in the old order; and
      nothing is lost, doubled or skipped. */
  lemma DrainConserves(t: TierData, queue: seq<Entry>, n: nat)
    requires n <= |queue|
    ensures var done := Drain(t, queue[..n]);
      && done.kept == Chosen(t, queue, false, n)
      && multiset(done.kept) + multiset(Chosen(t, queue, true, n)) == multiset(queue[..n])
      && done.tier == AddAll(t, PayloadsOf(queue[..n]))
  {
    hide Drain, AddAll, Chosen, PayloadsOf;
    KeptAreRefused(t, queue, n);
    ChosenIsAll(t, queue, n);
    DrainAddsAll(t, queue, n);
  }

  lemma {:induction false} AcceptedAdds(t: TierData, queue: seq<Entry>, n: nat)
    requires n <= |queue| && CacheInv(t) && AllIdsValid(PayloadsOf(queue))
    ensures var done := Drain(t, queue[..n]);
      done.tier == AddAll(t, PayloadsOf(Chosen(t, queue, true, n))) && CacheInv(done.tier)
  {
    hide CacheAdd, Drain, CacheInv, PayloadId, ValidId, AddAll;
    if n == 0 {
      NothingDrained(t);
      assert queue[..0] == [];
    } else {
      var e := queue[n - 1];
      AcceptedAdds(t, queue, n - 1);
      assert queue[..n] == queue[..n - 1] + [e];
      DrainSnoc(t, queue[..n - 1], e);
      var first := Drain(t, queue[..n - 1]);
      assert PayloadsOf(queue)[n - 1] == e.payload;
      RefusedChangesNothing(first.tier, e.payload);
      CacheAddKeepsInv(first.tier, e.payload);
      var gone := Chosen(t, queue, true, n - 1);
      AddAllSnoc(t, gone, e);
      assert gone + [] == gone;
    }
  }

  /** With valid identifiers throughout, the cache has had exactly the accepted
      entries added, once each and in order: the refused ones left no trace. */
  lemma DrainAddsAccepted(t: TierData, queue: seq<Entry>, n: nat)
    requires n <= |queue| && CacheInv(t) && AllIdsValid(PayloadsOf(queue))
    ensures var done := Drain(t, queue[..n]);
      var gone := Chosen(t, queue, true, n);
      && done.kept == Chosen(t, queue, false, n)
      && multiset(done.kept) + multiset(gone) == multiset(queue[..n])
      && done.tier == AddAll(t, PayloadsOf(gone))
      && CacheInv(done.tier)
  {
    hide Drain, CacheInv, AddAll, Chosen, AllIdsValid;
    DrainConserves(t, queue, n);
    AcceptedAdds(t, queue, n);
  }

  lemma NothingDrained(t: TierData)
    ensures Drain(t, []) == Drained(t, []) && AddAll(t, []) == t && PayloadsOf([]) == []
  {
  }

  lemma AddAllSnoc(t: TierData, gone: seq<Entry>, e: Entry)
    ensures AddAll(t, PayloadsOf(gone + [e])) == CacheAdd(AddAll(t, PayloadsOf(gone)), e.payload).tier
  {
    hide CacheAdd;
    var ds := PayloadsOf(gone + [e]);
    assert ds[..|gone|] == PayloadsOf(gone);
  }

  lemma RefusedChangesNothing(t: TierData, d: seq<byte>)
    requires CacheInv(t)
    ensures !CacheAdd(t, d).ok ==> CacheAdd(t, d).tier == t
  {
    hide CacheAdd, Acceptable, Version, PayloadId, PayloadVersion, Put, Index;
    CacheInvIndex(t);
    CacheAddEffect(t, d);
  }

  // ----- identifiers that cannot be unpacked -----

  /** The records after a list of payloads was offered, whatever the index. */
  function StoredAll(data: seq<Payload>, extras: seq<byte>, ds: seq<seq<byte>>): seq<Payload>
    decreases |ds|
  {
    if ds == [] then data else StoredAll(StoredWith(data, extras, ds[0]), extras, ds[1..])
  }

  lemma StoredWithHolds(data: seq<Payload>, extras: seq<byte>, d: seq<byte>, id: Id)
    ensures Version(StoredWith(data, extras, d), id) >= Version(data, id)
    ensures Acceptable(extras, d) ==> Version(StoredWith(data, extras, d), PayloadId(d)) >= PayloadVersion(d)
  {
    hide PayloadId, PayloadVersion, Put, Version, Acceptable;
    if Acceptable(extras, d) {
      AcceptableIsLong(extras, d);
      PutVersion(data, d, id);
      PutVersion(data, d, PayloadId(d));
    }
  }

  lemma {:induction false} StoredAllNotOlder(data: seq<Payload>, extras: seq<byte>, ds: seq<seq<byte>>, id: Id)
    ensures Version(StoredAll(data, extras, ds), id) >= Version(data, id)
    decreases |ds|
  {
    hide StoredWith, Version;
    if ds != [] {
      StoredWithHolds(data, extras, ds[0], id);
      StoredAllNotOlder(StoredWith(data, extras, ds[0]), extras, ds[1..], id);
    }
  }

  /** Of every acceptable payload, that version or a newer one is stored. */
  lemma {:induction false} StoredAllHolds(data: seq<Payload>, extras: seq<byte>, ds: seq<seq<byte>>, i: nat)
    requires i < |ds| && Acceptable(extras, ds[i])
    ensures Version(StoredAll(data, extras, ds), PayloadId(ds[i])) >= PayloadVersion(ds[i])
    decreases i
  {
    hide StoredWith, Version, Acceptable, PayloadId, PayloadVersion;
    AcceptableIsLong(extras, ds[i]);
    if i == 0 {
      StoredWithHolds(data, extras, ds[0], PayloadId(ds[0]));
      StoredAllNotOlder(StoredWith(data, extras, ds[0]), extras, ds[1..], PayloadId(ds[0]));
    } else {
      StoredAllHolds(StoredWith(data, extras, ds[0]), extras, ds[1..], i - 1);
    }
  }

  lemma PayloadsOfTail(queue: seq<Entry>)
    requires queue != []
    ensures PayloadsOf(queue)[0] == queue[0].payload && PayloadsOf(queue)[1..] == PayloadsOf(queue[1..])
  {
  }

  /** What a queue leaves in the cache does not depend on the index. */
  lemma {:induction false} DrainStores(t: TierData, queue: seq<Entry>)
    ensures Drain(t, queue).tier.data == StoredAll(t.data, t.extras, PayloadsOf(queue))
    decreases |queue|
  {
    hide CacheAdd, StoredWith;
    if queue != [] {
      PayloadsOfTail(queue);
      CacheAddExactly(t, queue[0].payload);
      DrainStores(CacheAdd(t, queue[0].payload).tier, queue[1..]);
    }
  }

  lemma {:induction false} UnreadableDrain(t: TierData, queue: seq<Entry>)
    requires Expand(t.ids).Err?
    ensures Drain(t, queue).kept == queue
    ensures Drain(t, queue).tier == t.(data := Drain(t, queue).tier.data)
    decreases |queue|
  {
    hide CacheAdd, Expand, StoredWith;
    if queue != [] {
      CacheAddExactly(t, queue[0].payload);
      UnreadableDrain(CacheAdd(t, queue[0].payload).tier, queue[1..]);
      assert [queue[0]] + queue[1..] == queue;
    }
  }

  /** When the stored identifiers cannot be unpacked every entry is refused and
      stays queued, and yet of every acceptable payload that version or a newer one
      is stored: the records are those of a tier whose index is in order. */
  lemma UnreadableStoresAndKeeps(t: TierData, queue: seq<Entry>, i: nat)
    requires Expand(t.ids).Err?
    ensures var done := Drain(t, queue);
      && done.kept == queue
      && done.tier == t.(data := StoredAll(t.data, t.extras, PayloadsOf(queue)))
      && (i < |queue| && Acceptable(t.extras, queue[i].payload) ==>
          Version(done.tier.data, PayloadId(queue[i].payload)) >= PayloadVersion(queue[i].payload))
  {
    hide Drain, Expand, Version, Acceptable, PayloadId, PayloadVersion, StoredAll;
    UnreadableDrain(t, queue);
    DrainStores(t, queue);
    if i < |queue| && Acceptable(t.extras, queue[i].payload) {
      AcceptableIsLong(t.extras, queue[i].payload);
      assert PayloadsOf(queue)[i] == queue[i].payload;
      StoredAllHolds(t.data, t.extras, PayloadsOf(queue), i);
    }
  }

  /** After an accepted entry with an invalid identifier nothing more is taken
      out of the queue. */
  lemma DrainStopsAtInvalid(t: TierData, queue: seq<Entry>, m: nat)
    requires m < |queue| && Accepted(t, queue, m)
    requires |queue[m].payload| >= 50 ==> !ValidId(PayloadId(queue[m].payload))
    ensures Drain(t, queue).kept == Drain(t, queue[..m]).kept + queue[m + 1..]
  {
    hide Drain, CacheAdd, Expand, Version, Acceptable, PayloadId, PayloadVersion, StoredWith, ValidId;
    var first, e := Drain(t, queue[..m]), queue[m];
    CacheAddExactly(first.tier, e.payload);
    AcceptableIsLong(first.tier.extras, e.payload);
    DrainSnoc(t, queue[..m], e);
    assert queue == (queue[..m] + [e]) + queue[m + 1..];
    DrainAppend(t, queue[..m] + [e], queue[m + 1..]);
    UnreadableDrain(CacheAdd(first.tier, e.payload).tier, queue[m + 1..]);
    assert first.kept + [] == first.kept;
  }

  // ----- settled queues -----

  /** The cache will not take this payload, now or after any other add. */
  predicate Refused(extras: seq<byte>, data: seq<Payload>, d: seq<byte>) {
    Acceptable(extras, d) ==> Version(data, PayloadId(d)) > PayloadVersion(d)
  }

  predicate Settled(t: TierData) {
    t.inbound == [] && forall i :: 0 <= i < |t.outbound| ==> Refused(t.extras, t.data, t.outbound[i].payload)
  }

  ghost predicate TierInv(t: TierData) {
    CacheInv(t) && Settled(t)
  }

  lemma RefusedFails(t: TierData, d: seq<byte>)
    requires Index(t).Ok?
    ensures CacheAdd(t, d).ok <==> !Refused(t.extras, t.data, d)
    ensures Refused(t.extras, t.data, d) ==> CacheAdd(t, d) == Step(t, false)
  {
    hide CacheAdd, Acceptable, Version, PayloadId, PayloadVersion, Put, Index;
    CacheAddEffect(t, d);
  }

  lemma {:induction false} DrainRefused(t: TierData, queue: seq<Entry>)
    requires Index(t).Ok?
    requires forall i :: 0 <= i < |queue| ==> Refused(t.extras, t.data, queue[i].payload)
    ensures Drain(t, queue) == Drained(t, queue)
    decreases |queue|
  {
    hide CacheAdd, Refused, Index;
    if queue != [] {
      RefusedFails(t, queue[0].payload);
      DrainRefused(t, queue[1..]);
      assert [queue[0]] + queue[1..] == queue;
    }
  }

  /** A loop over settled queues does nothing, however often it runs. */
  lemma LoopSettled(t: TierData)
    requires TierInv(t)
    ensures Loop(t) == Step(t, true)
  {
    hide Drain, Refused, CacheInv;
    CacheInvIndex(t);
    DrainRefused(t, t.outbound);
    assert t.(inbound := []) == t && t.(outbound := t.outbound) == t;
  }

  /** Adding looks at neither queue. */
  lemma AddIgnoresQueues(t: TierData, d: seq<byte>, inbound: seq<Entry>, outbound: seq<Entry>)
    ensures var add := CacheAdd(t, d);
      CacheAdd(t.(inbound := inbound, outbound := outbound), d) ==
        Step(add.tier.(inbound := inbound, outbound := outbound), add.ok)
    ensures CacheAdd(t, d).tier.inbound == t.inbound && CacheAdd(t, d).tier.outbound == t.outbound
    ensures CacheAdd(t, d).tier.extras == t.extras
    ensures CacheAdd(t, d).tier.major == t.major && CacheAdd(t, d).tier.minor == t.minor
  {
    hide Put, Acceptable;
  }

  lemma RefusedStays(t: TierData, d: seq<byte>, other: seq<byte>)
    requires Index(t).Ok? && Refused(t.extras, t.data, other)
    ensures Refused(t.extras, CacheAdd(t, d).tier.data, other)
  {
    hide CacheAdd, Acceptable, Version, PayloadId, PayloadVersion, Put, Index;
    CacheAddEffect(t, d);
    if Acceptable(t.extras, d) && Acceptable(t.extras, other) {
      AcceptableIsLong(t.extras, d);
      AcceptableIsLong(t.extras, other);
      PutVersion(t.data, d, PayloadId(other));
    }
  }

  function Push(t: TierData, id: Id, d: seq<byte>): TierData {
    t.(outbound := t.outbound + [Entry(id, d)])
  }

  /** A settled tier with one more entry tries just that one. */
  lemma LoopPushed(t: TierData, id: Id, d: seq<byte>)
    requires TierInv(t)
    ensures var add := CacheAdd(t, d);
      Loop(Push(t, id, d)) == Step(if add.ok then add.tier else Push(t, id, d), true)
  {
    hide Drain, Refused, CacheInv, CacheAdd;
    CacheInvIndex(t);
    var u := Push(t, id, d);
    assert u.(inbound := []) == u;
    SameIndex(t, u);
    DrainRefused(u, t.outbound);
    DrainSnoc(u, t.outbound, Entry(id, d));
    AddIgnoresQueues(t, d, t.inbound, u.outbound);
    RefusedChangesNothing(t, d);
    assert t.outbound + [] == t.outbound;
    AddKeepsQueues(t, d);
  }

  lemma AddKeepsQueues(t: TierData, d: seq<byte>)
    ensures var next := CacheAdd(t, d).tier;
      next.(outbound := t.outbound) == next && next.(inbound := t.inbound) == next
  {
    hide CacheAdd;
    AddIgnoresQueues(t, d, [], []);
  }

  lemma PushedKeepsInv(t: TierData, id: Id, d: seq<byte>)
    requires TierInv(t) && (|d| >= 50 ==> ValidId(PayloadId(d)))
    ensures TierInv(Loop(Push(t, id, d)).tier)
  {
    hide Loop, CacheAdd, Refused, CacheInv, ValidId, PayloadId;
    LoopPushed(t, id, d);
    CacheInvIndex(t);
    AddIgnoresQueues(t, d, [], []);
    RefusedFails(t, d);
    if CacheAdd(t, d).ok {
      CacheAddKeepsInv(t, d);
      forall i | 0 <= i < |t.outbound|
        ensures Refused(t.extras, CacheAdd(t, d).tier.data, t.outbound[i].payload)
      {
        RefusedStays(t, d, t.outbound[i].payload);
      }
    } else {
      QueuesDoNotMatter(t, Push(t, id, d));
    }
  }

  lemma QueuesDoNotMatter(t: TierData, u: TierData)
    requires CacheInv(t) && u == t.(inbound := u.inbound, outbound := u.outbound)
    ensures CacheInv(u)
  {
    hide Version, Listed, Tracks, UniqueIds;
    SameIndex(t, u);
  }

  // ----- reading and adding through the queues -----

  function FindEntry(queue: seq<Entry>, id: Id): (k: nat)
    ensures k <= |queue|
    ensures forall j :: 0 <= j < k ==> queue[j].id != id
    ensures k < |queue| ==> queue[k].id == id
  {
    if queue == [] || queue[0].id == id then 0 else 1 + FindEntry(queue[1..], id)
  }

  datatype Got = Got(tier: TierData, payload: seq<byte>)

  /** An answered request is handed over and erased. */
  function TakeEntry(t: TierData, id: Id): Got {
    var k := FindEntry(t.inbound, id);
    if k == |t.inbound| || t.inbound[k].payload == [] then Got(t, [])
    else Got(t.(inbound := t.inbound[..k] + t.inbound[k + 1..]), t.inbound[k].payload)
  }

  /** `get_data_from_state`; without data the request stays in the queue. */
  function GetData(t: TierData, id: Id): Got {
    if FindEntry(t.inbound, id) < |t.inbound| then TakeEntry(t, id)
    else
      var looped := Loop(t.(inbound := t.inbound + [Entry(id, [])]));
      if looped.ok then TakeEntry(looped.tier, id) else Got(looped.tier, [])
  }

  /** `add_data_to_state`: not ok when the error message itself throws. */
  function AddData(t: TierData, d: seq<byte>): Step {
    if t.extras == [] || t.extras[0] >= 4 || ForceToExtra(d, t.extras[0]).Err? || FetchId(d).Err?
    then Step(t, FetchId(d).Ok?)
    else Step(Loop(Push(t, FetchId(d).value, d)).tier, true)
  }

  /** A settled tier answers from its cache and is as it was. */
  lemma GetDataSettled(t: TierData, id: Id)
    requires TierInv(t) && CacheGet(t.data, id) != []
    ensures GetData(t, id) == Got(t, CacheGet(t.data, id))
  {
    hide Drain, Refused, CacheInv, CacheGet;
    CacheInvIndex(t);
    var e := Entry(id, CacheGet(t.data, id));
    FillOne(t.data, id);
    var u := t.(inbound := [e]);
    SameIndex(t, u);
    DrainRefused(u, t.outbound);
    assert t.inbound + [Entry(id, [])] == [Entry(id, [])];
    assert u.(outbound := t.outbound) == u;
    assert [e][..0] + [e][1..] == [] && u.(inbound := []) == t;
  }

  lemma FillOne(data: seq<Payload>, id: Id)
    requires CacheGet(data, id) != []
    ensures Fill(data, [Entry(id, [])]) == Filled([Entry(id, CacheGet(data, id))], true)
  {
    hide CacheGet;
    assert [Entry(id, [])][1..] == [];
  }

  /** A request that cannot be answered stays and keeps the whole tier from
      taking data: every later loop throws before it looks at what is to be added. */
  lemma UnansweredBlocks(t: TierData, id: Id, d: seq<byte>)
    requires TierInv(t) && CacheGet(t.data, id) == [] && FetchId(d).Ok?
    requires t.extras != [] && t.extras[0] < 4 && ForceToExtra(d, t.extras[0]).Ok?
    ensures var blocked := GetData(t, id).tier;
      && blocked == t.(inbound := [Entry(id, [])])
      && AddData(blocked, d).tier == blocked.(outbound := t.outbound + [Entry(FetchId(d).value, d)])
      && Loop(blocked) == Step(blocked, false)
  {
    hide Drain, CacheInv, CacheGet, FetchId;
    assert t.inbound + [Entry(id, [])] == [Entry(id, [])];
  }

  // ----- when the loop gets to the data to be added -----

  /** The request has its payload already or the cache has it. */
  predicate Answerable(data: seq<Payload>, e: Entry) {
    e.payload != [] || CacheGet(data, e.id) != []
  }

  predicate AllAnswerable(data: seq<Payload>, queue: seq<Entry>) {
    forall i :: 0 <= i < |queue| ==> Answerable(data, queue[i])
  }

  lemma AllAnswerableHead(data: seq<Payload>, queue: seq<Entry>)
    requires queue != []
    ensures AllAnswerable(data, queue) <==> Answerable(data, queue[0]) && AllAnswerable(data, queue[1..])
  {
    hide Answerable;
    assert forall i :: 1 <= i < |queue| ==> queue[i] == queue[1..][i - 1];
  }

  lemma {:induction false} FillOkIffAnswerable(data: seq<Payload>, queue: seq<Entry>)
    ensures Fill(data, queue).ok <==> AllAnswerable(data, queue)
    decreases |queue|
  {
    hide CacheGet, AllAnswerable;
    if queue == [] {
      NothingToAnswer(data);
    } else {
      AllAnswerableHead(data, queue);
      FillOkIffAnswerable(data, queue[1..]);
    }
  }

  lemma NothingToAnswer(data: seq<Payload>)
    ensures AllAnswerable(data, [])
  {
  }

  lemma {:induction false} FillKeepsUnanswered(data: seq<Payload>, queue: seq<Entry>, i: nat)
    ensures |Fill(data, queue).queue| == |queue|
    ensures i < |queue| && !Answerable(data, queue[i]) ==> Fill(data, queue).queue[i] == queue[i]
    decreases |queue|
  {
    hide CacheGet;
    if queue != [] {
      FillKeepsUnanswered(data, queue[1..], if i == 0 then 0 else i - 1);
    }
  }

  /** The requests are worked through to the end exactly when each has a payload
      already or is answered; one that cannot be answered is left as it is. */
  lemma FillOkExactly(data: seq<Payload>, queue: seq<Entry>)
    ensures Fill(data, queue).ok <==> forall i :: 0 <= i < |queue| ==> Answerable(data, queue[i])
    ensures |Fill(data, queue).queue| == |queue|
    ensures forall i :: 0 <= i < |queue| && !Answerable(data, queue[i]) ==> Fill(data, queue).queue[i] == queue[i]
  {
    hide Fill, Answerable;
    FillOkIffAnswerable(data, queue);
    FillKeepsUnanswered(data, queue, 0);
    forall i | 0 <= i < |queue| && !Answerable(data, queue[i])
      ensures Fill(data, queue).queue[i] == queue[i]
    {
      FillKeepsUnanswered(data, queue, i);
    }
  }

  /** A loop gets as far as the outbound queue exactly when every request has a
      payload already or is answered by the cache. */
  lemma LoopReachesQueueExactly(t: TierData)
    ensures Loop(t).ok <==>
      forall i :: 0 <= i < |t.inbound| ==> t.inbound[i].payload != [] || CacheGet(t.data, t.inbound[i].id) != []
  {
    hide CacheGet, Drain, Fill;
    FillOkExactly(t.data, t.inbound);
    assert forall i :: 0 <= i < |t.inbound| ==>
      (Answerable(t.data, t.inbound[i]) <==> t.inbound[i].payload != [] || CacheGet(t.data, t.inbound[i].id) != []);
  }

  /** Some request cannot be answered. */
  predicate Blocked(t: TierData) {
    exists i :: 0 <= i < |t.inbound| && !Answerable(t.data, t.inbound[i])
  }

  /** Nothing was stored, and everything that waited to be added still waits. */
  predicate Held(t: TierData, next: TierData) {
    && next.data == t.data && next.ids == t.ids && next.modIncs == t.modIncs
    && t.outbound <= next.outbound
  }

  lemma BlockedLoop(t: TierData)
    requires Blocked(t)
    ensures !Loop(t).ok && Blocked(Loop(t).tier) && Held(t, Loop(t).tier)
  {
    hide CacheGet, Drain, Fill;
    FillOkExactly(t.data, t.inbound);
    var i :| 0 <= i < |t.inbound| && !Answerable(t.data, t.inbound[i]);
    assert Loop(t).tier.inbound[i] == t.inbound[i];
  }

  /** Only answered requests are taken out of the queue. */
  lemma BlockedTake(t: TierData, id: Id)
    requires Blocked(t)
    ensures Blocked(TakeEntry(t, id).tier) && Held(t, TakeEntry(t, id).tier)
  {
    hide CacheGet;
    var i :| 0 <= i < |t.inbound| && !Answerable(t.data, t.inbound[i]);
    var k := FindEntry(t.inbound, id);
    if k < |t.inbound| && t.inbound[k].payload != [] {
      var next := TakeEntry(t, id).tier;
      assert next.inbound[if i < k then i else i - 1] == t.inbound[i];
    } else {
      assert TakeEntry(t, id).tier == t;
    }
  }

  lemma BlockedGet(t: TierData, id: Id)
    requires Blocked(t)
    ensures Blocked(GetData(t, id).tier) && Held(t, GetData(t, id).tier)
  {
    hide CacheGet, Loop, TakeEntry, Answerable;
    if FindEntry(t.inbound, id) < |t.inbound| {
      BlockedTake(t, id);
    } else {
      var u := t.(inbound := t.inbound + [Entry(id, [])]);
      var i :| 0 <= i < |t.inbound| && !Answerable(t.data, t.inbound[i]);
      assert u.inbound[i] == t.inbound[i];
      BlockedLoop(u);
    }
  }

  lemma BlockedAdd(t: TierData, d: seq<byte>)
    requires Blocked(t)
    ensures Blocked(AddData(t, d).tier) && Held(t, AddData(t, d).tier)
  {
    hide CacheGet, Loop, FetchId, ForceToExtra, Answerable;
    if FetchId(d).Ok? {
      BlockedLoop(Push(t, FetchId(d).value, d));
    }
  }

  /** A payload is queued, and the loops are run, exactly when its extra byte is
      the first one the tier allows, that is one of the four known ones, and the
      identifier can be read; otherwise the tier stays as it is, and the caller
      sees a failure only when not even the message can name the identifier. */
  lemma AddDataExactly(t: TierData, d: seq<byte>)
    ensures t.extras != [] && t.extras[0] < 4 && |d| >= 42 && d[0] == t.extras[0] ==>
      AddData(t, d) == Step(Loop(t.(outbound := t.outbound + [Entry(Reverse(d[1..42]), d)])).tier, true)
    ensures !(t.extras != [] && t.extras[0] < 4 && |d| >= 42 && d[0] == t.extras[0]) ==>
      AddData(t, d) == Step(t, |d| >= 42)
  {
    hide Loop;
  }
}
