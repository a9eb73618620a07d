// What every run keeps, whatever the indexes and queues of the tiers are and
// however many shifts fail: nothing gets older and nothing is made up.

module TierSafety {
  import opened Bytes
  import opened Ids
  import opened Objects
  import opened Strip
  import opened TierCache
  import opened TierQueue
  import opened TierSweep
  import opened TierPairs

  // ----- runs -----

  /** One thing that can happen to the tiers. */
  datatype Action = ShiftOne(from: nat, to: nat, id: Id) | LoopOne(i: nat) | Fail

  function Perform(tiers: seq<TierData>, a: Action, own: seq<byte>): (r: seq<TierData>)
    ensures |r| == |tiers|
  {
    match a
    case Fail => tiers
    case LoopOne(i) => if i < |tiers| then tiers[i := Loop(tiers[i]).tier] else tiers
    case ShiftOne(from, to, id) =>
      if from < |tiers| && to < |tiers| && from != to then
        var done := Shift(tiers[from], tiers[to], id, own);
        tiers[from := done.from][to := done.to]
      else tiers
  }

  function Run(tiers: seq<TierData>, actions: seq<Action>, own: seq<byte>): (r: seq<TierData>)
    ensures |r| == |tiers|
    decreases |actions|
  {
    if actions == [] then tiers else Run(Perform(tiers, actions[0], own), actions[1..], own)
  }

  lemma {:induction false} RunAppend(tiers: seq<TierData>, a: seq<Action>, b: seq<Action>, own: seq<byte>)
    ensures Run(tiers, a + b, own) == Run(Run(tiers, a, own), b, own)
    decreases |a|
  {
    hide Perform;
    if a == [] {
      assert a + b == b;
    } else {
      assert (a + b)[1..] == a[1..] + b;
      RunAppend(Perform(tiers, a[0], own), a[1..], b, own);
    }
  }

  // ----- versions never go back -----

  ghost predicate NotOlder(t: TierData, next: TierData) {
    forall id: Id :: Ver(t, id) <= Ver(next, id)
  }

  lemma NotOlderTwice(t: TierData, u: TierData, next: TierData)
    requires NotOlder(t, u) && NotOlder(u, next)
    ensures NotOlder(t, next)
  {
    hide Ver;
  }

  lemma SameDataNotOlder(t: TierData, next: TierData)
    requires t.data == next.data
    ensures NotOlder(t, next)
  {
    hide Version;
  }

  lemma AddNotOlder(t: TierData, d: seq<byte>)
    ensures NotOlder(t, CacheAdd(t, d).tier)
  {
    hide Acceptable, Put, Version, AddIdBuffer, PayloadId, PayloadVersion;
    if Acceptable(t.extras, d) {
      AcceptableIsLong(t.extras, d);
      forall id: Id
        ensures Put(t.data, d).Ok? ==> Version(t.data, id) <= Version(Put(t.data, d).value, id)
      {
        PutVersion(t.data, d, id);
      }
      if Put(t.data, d).Ok? {
        AddIdBufferFrame(t.(data := Put(t.data, d).value), PayloadId(d), PayloadVersion(d));
      }
    }
  }

  lemma {:induction false} DrainNotOlder(t: TierData, queue: seq<Entry>)
    ensures NotOlder(t, Drain(t, queue).tier)
    decreases |queue|
  {
    hide CacheAdd, NotOlder;
    if queue == [] {
      SameDataNotOlder(t, t);
    } else {
      AddNotOlder(t, queue[0].payload);
      DrainNotOlder(CacheAdd(t, queue[0].payload).tier, queue[1..]);
      NotOlderTwice(t, CacheAdd(t, queue[0].payload).tier, Drain(t, queue).tier);
    }
  }

  lemma LoopNotOlder(t: TierData)
    ensures NotOlder(t, Loop(t).tier)
  {
    hide Drain, Fill, NotOlder;
    var u := t.(inbound := Fill(t.data, t.inbound).queue);
    SameDataNotOlder(t, u);
    DrainNotOlder(u, t.outbound);
    var drained := Drain(u, t.outbound);
    SameDataNotOlder(drained.tier, drained.tier.(outbound := drained.kept));
    NotOlderTwice(t, u, drained.tier);
    NotOlderTwice(t, drained.tier, drained.tier.(outbound := drained.kept));
  }

  lemma GetNotOlder(t: TierData, id: Id)
    ensures NotOlder(t, GetData(t, id).tier)
  {
    hide Loop, NotOlder;
    var u := t.(inbound := t.inbound + [Entry(id, [])]);
    SameDataNotOlder(t, u);
    LoopNotOlder(u);
    NotOlderTwice(t, u, Loop(u).tier);
    SameDataNotOlder(t, TakeEntry(t, id).tier);
    SameDataNotOlder(Loop(u).tier, TakeEntry(Loop(u).tier, id).tier);
    NotOlderTwice(t, Loop(u).tier, TakeEntry(Loop(u).tier, id).tier);
  }

  lemma AddDataNotOlder(t: TierData, d: seq<byte>)
    ensures NotOlder(t, AddData(t, d).tier)
  {
    hide Loop, NotOlder, FetchId;
    SameDataNotOlder(t, t);
    if FetchId(d).Ok? {
      var u := Push(t, FetchId(d).value, d);
      SameDataNotOlder(t, u);
      LoopNotOlder(u);
      NotOlderTwice(t, u, Loop(u).tier);
    }
  }

  // ----- nothing is made up -----

  /** The header of the payload, if it has one, is among the known ones. */
  ghost predicate Among(known: iset<(Id, uint64)>, p: seq<byte>) {
    |p| >= 50 ==> (PayloadId(p), PayloadVersion(p)) in known
  }

  ghost predicate AllAmong(known: iset<(Id, uint64)>, ps: seq<seq<byte>>) {
    forall i :: 0 <= i < |ps| ==> Among(known, ps[i])
  }

  ghost predicate QueueAmong(known: iset<(Id, uint64)>, queue: seq<Entry>) {
    forall i :: 0 <= i < |queue| ==> Among(known, queue[i].payload)
  }

  /** Everything the tier stores or has queued is known. */
  ghost predicate Within(t: TierData, known: iset<(Id, uint64)>) {
    AllAmong(known, t.data) && QueueAmong(known, t.inbound) && QueueAmong(known, t.outbound)
  }

  lemma AddWithin(t: TierData, d: seq<byte>, known: iset<(Id, uint64)>)
    requires AllAmong(known, t.data) && Among(known, d)
    ensures AllAmong(known, CacheAdd(t, d).tier.data)
  {
    hide Acceptable, AddIdBuffer, Among, PayloadId, PayloadVersion, Find;
    if Acceptable(t.extras, d) {
      AcceptableIsLong(t.extras, d);
      if Put(t.data, d).Ok? {
        AddIdBufferFrame(t.(data := Put(t.data, d).value), PayloadId(d), PayloadVersion(d));
      }
    }
  }

  lemma {:induction false} DrainWithin(t: TierData, queue: seq<Entry>, known: iset<(Id, uint64)>)
    requires AllAmong(known, t.data) && QueueAmong(known, queue)
    ensures AllAmong(known, Drain(t, queue).tier.data) && QueueAmong(known, Drain(t, queue).kept)
    ensures Drain(t, queue).tier.inbound == t.inbound
    decreases |queue|
  {
    hide CacheAdd, Among;
    if queue != [] {
      var e := queue[0];
      AddWithin(t, e.payload, known);
      AddIgnoresQueues(t, e.payload, [], []);
      DrainWithin(CacheAdd(t, e.payload).tier, queue[1..], known);
    }
  }

  lemma {:induction false} FillWithin(data: seq<Payload>, queue: seq<Entry>, known: iset<(Id, uint64)>)
    requires AllAmong(known, data) && QueueAmong(known, queue)
    ensures QueueAmong(known, Fill(data, queue).queue)
    decreases |queue|
  {
    hide Among, Find;
    if queue != [] {
      FillWithin(data, queue[1..], known);
    }
  }

  lemma LoopWithin(t: TierData, known: iset<(Id, uint64)>)
    requires Within(t, known)
    ensures Within(Loop(t).tier, known)
  {
    hide Drain, Fill, QueueAmong, AllAmong;
    FillWithin(t.data, t.inbound, known);
    DrainWithin(t.(inbound := Fill(t.data, t.inbound).queue), t.outbound, known);
  }

  lemma PushedWithin(queue: seq<Entry>, e: Entry, known: iset<(Id, uint64)>)
    requires QueueAmong(known, queue) && Among(known, e.payload)
    ensures QueueAmong(known, queue + [e])
  {
    hide Among;
  }

  lemma EmptyIsAmong(known: iset<(Id, uint64)>)
    ensures Among(known, [])
  {
  }

  lemma TakeWithin(t: TierData, id: Id, known: iset<(Id, uint64)>)
    requires Within(t, known)
    ensures Within(TakeEntry(t, id).tier, known) && Among(known, TakeEntry(t, id).payload)
  {
    hide Among, AllAmong, FindEntry;
    EmptyIsAmong(known);
  }

  lemma GetWithin(t: TierData, id: Id, known: iset<(Id, uint64)>)
    requires Within(t, known)
    ensures Within(GetData(t, id).tier, known) && Among(known, GetData(t, id).payload)
  {
    hide Loop, TakeEntry, Among, AllAmong, QueueAmong;
    EmptyIsAmong(known);
    TakeWithin(t, id, known);
    var u := t.(inbound := t.inbound + [Entry(id, [])]);
    PushedWithin(t.inbound, Entry(id, []), known);
    LoopWithin(u, known);
    TakeWithin(Loop(u).tier, id, known);
  }

  lemma AddDataWithin(t: TierData, d: seq<byte>, known: iset<(Id, uint64)>)
    requires Within(t, known) && Among(known, d)
    ensures Within(AddData(t, d).tier, known)
  {
    hide Loop, Among, AllAmong, QueueAmong, FetchId;
    if FetchId(d).Ok? {
      PushedWithin(t.outbound, Entry(FetchId(d).value, d), known);
      LoopWithin(Push(t, FetchId(d).value, d), known);
    }
  }

  /** What stripping leaves has the header of what was stripped. */
  lemma SentWithin(p: seq<byte>, id: Id, own: seq<byte>, to: TierData, known: iset<(Id, uint64)>)
    requires Among(known, p) && Transportable(p, id, own, to).Ok? && Transportable(p, id, own, to).value != []
    ensures Among(known, Transportable(p, id, own, to).value)
  {
    hide StripToTransportable, PayloadId, PayloadVersion;
    if Hash(id) == own {
      StrippedIsLong(p, RulesTo(to));
      SentKeepsHeader(p, id, own, to);
    }
  }

  function RulesTo(t: TierData): Transport.Rules {
    Transport.Rules([(t.major, t.minor)], [])
  }

  lemma StrippedIsLong(p: seq<byte>, rules: Transport.Rules)
    requires StripToTransportable(p, rules).Ok?
    ensures |p| >= 50
  {
  }

  // ----- one action -----

  /** The tier kept its versions and took nothing unknown. */
  ghost predicate Safe(t: TierData, next: TierData, known: iset<(Id, uint64)>) {
    NotOlder(t, next) && (Within(t, known) ==> Within(next, known))
  }

  lemma SafeItself(t: TierData, known: iset<(Id, uint64)>)
    ensures Safe(t, t, known)
  {
    hide Ver;
  }

  lemma ShiftIsSafe(from: TierData, to: TierData, id: Id, own: seq<byte>, known: iset<(Id, uint64)>)
    requires Within(from, known) && Within(to, known)
    ensures var done := Shift(from, to, id, own);
      Safe(from, done.from, known) && Safe(to, done.to, known)
  {
    hide NotOlder, Within, Among, MayShift, GetData, AddData, Transportable, ForceToExtra;
    SafeItself(from, known);
    SafeItself(to, known);
    GetNotOlder(from, id);
    GetWithin(from, id, known);
    var p := GetData(from, id).payload;
    var sent := Transportable(p, id, own, to);
    if p != [] && sent.Ok? && sent.value != [] {
      SentWithin(p, id, own, to, known);
      AddDataNotOlder(to, sent.value);
      AddDataWithin(to, sent.value, known);
    }
  }

  ghost predicate AllWithin(tiers: seq<TierData>, known: iset<(Id, uint64)>) {
    forall k :: 0 <= k < |tiers| ==> Within(tiers[k], known)
  }

  ghost predicate AllNotOlder(tiers: seq<TierData>, next: seq<TierData>) {
    |next| == |tiers| && forall k :: 0 <= k < |tiers| ==> NotOlder(tiers[k], next[k])
  }

  lemma PerformIsSafe(tiers: seq<TierData>, a: Action, own: seq<byte>, known: iset<(Id, uint64)>)
    requires AllWithin(tiers, known)
    ensures AllNotOlder(tiers, Perform(tiers, a, own)) && AllWithin(Perform(tiers, a, own), known)
  {
    hide NotOlder, Within, Shift, Loop;
    forall k | 0 <= k < |tiers|
      ensures NotOlder(tiers[k], tiers[k])
    {
      SameDataNotOlder(tiers[k], tiers[k]);
    }
    match a
    case Fail =>
    case LoopOne(i) =>
      if i < |tiers| {
        LoopNotOlder(tiers[i]);
        LoopWithin(tiers[i], known);
      }
    case ShiftOne(from, to, id) =>
      if from < |tiers| && to < |tiers| {
        ShiftIsSafe(tiers[from], tiers[to], id, own, known);
      }
  }

  lemma {:induction false} RunIsSafe(tiers: seq<TierData>, actions: seq<Action>, own: seq<byte>, known: iset<(Id,
                                     uint64)>)
    requires AllWithin(tiers, known)
    ensures AllNotOlder(tiers, Run(tiers, actions, own)) && AllWithin(Run(tiers, actions, own), known)
    decreases |actions|
  {
    hide NotOlder, Within, Perform;
    var done := Run(tiers, actions, own);
    if actions == [] {
      forall k | 0 <= k < |tiers|
        ensures NotOlder(tiers[k], tiers[k])
      {
        SameDataNotOlder(tiers[k], tiers[k]);
      }
    } else {
      var next := Perform(tiers, actions[0], own);
      PerformIsSafe(tiers, actions[0], own, known);
      RunIsSafe(next, actions[1..], own, known);
      forall k | 0 <= k < |tiers|
        ensures NotOlder(tiers[k], done[k])
      {
        NotOlderTwice(tiers[k], next[k], done[k]);
      }
    }
  }

  // ----- the result -----

  predicate HasHeader(p: seq<byte>, id: Id, v: int) {
    |p| >= 50 && PayloadId(p) == id && PayloadVersion(p) == v
  }

  /** The tier stores this version of the identifier or has it in a queue. */
  predicate Carries(t: TierData, id: Id, v: int) {
    || (exists i :: 0 <= i < |t.data| && HasHeader(t.data[i], id, v))
    || (exists i :: 0 <= i < |t.inbound| && HasHeader(t.inbound[i].payload, id, v))
    || (exists i :: 0 <= i < |t.outbound| && HasHeader(t.outbound[i].payload, id, v))
  }

  predicate SomeCarries(tiers: seq<TierData>, id: Id, v: int) {
    exists k :: 0 <= k < |tiers| && Carries(tiers[k], id, v)
  }

  ghost function KnownIn(tiers: seq<TierData>): iset<(Id, uint64)> {
    iset id: Id, v: uint64 | SomeCarries(tiers, id, v) :: (id, v)
  }

  lemma CarriedIsAmong(tiers: seq<TierData>, k: nat, p: seq<byte>)
    requires k < |tiers|
    requires |p| >= 50 ==> Carries(tiers[k], PayloadId(p), PayloadVersion(p))
    ensures Among(KnownIn(tiers), p)
  {
    hide Carries, PayloadId, PayloadVersion;
  }

  lemma TierKnowsItself(tiers: seq<TierData>, k: nat)
    requires k < |tiers|
    ensures Within(tiers[k], KnownIn(tiers))
  {
    hide Among, KnownIn, PayloadId, PayloadVersion;
    var t := tiers[k];
    forall i | 0 <= i < |t.data|
      ensures Among(KnownIn(tiers), t.data[i])
    {
      assert HasHeader(t.data[i], PayloadId(t.data[i]), PayloadVersion(t.data[i]));
      CarriedIsAmong(tiers, k, t.data[i]);
    }
    forall i | 0 <= i < |t.inbound|
      ensures Among(KnownIn(tiers), t.inbound[i].payload)
    {
      var p := t.inbound[i].payload;
      assert |p| >= 50 ==> HasHeader(p, PayloadId(p), PayloadVersion(p));
      CarriedIsAmong(tiers, k, p);
    }
    forall i | 0 <= i < |t.outbound|
      ensures Among(KnownIn(tiers), t.outbound[i].payload)
    {
      var p := t.outbound[i].payload;
      assert |p| >= 50 ==> HasHeader(p, PayloadId(p), PayloadVersion(p));
      CarriedIsAmong(tiers, k, p);
    }
  }

  lemma HeldIsAmong(t: TierData, id: Id, known: iset<(Id, uint64)>)
    requires Within(t, known) && Ver(t, id) >= 0
    ensures 0 <= Ver(t, id) < U64 && (id, Ver(t, id)) in known
  {
    hide Find, PayloadId, PayloadVersion, QueueAmong;
    assert Among(known, t.data[Find(t.data, id)]);
  }

  /** Over any run, from any state of indexes and queues and with any failures,
      no tier's version of an identifier decreases, and every version held at
      the end was held or queued somewhere at the start. */
  lemma AnyRunIsSafe(start: seq<TierData>, actions: seq<Action>, own: seq<byte>, id: Id, k: nat)
    requires k < |start|
    ensures var done := Run(start, actions, own);
      && Ver(start[k], id) <= Ver(done[k], id)
      && (Ver(done[k], id) >= 0 ==> SomeCarries(start, id, Ver(done[k], id)))
  {
    hide Ver, Within, SomeCarries, Run;
    forall j | 0 <= j < |start|
      ensures Within(start[j], KnownIn(start))
    {
      TierKnowsItself(start, j);
    }
    RunIsSafe(start, actions, own, KnownIn(start));
    var done := Run(start, actions, own);
    assert NotOlder(start[k], done[k]) && Within(done[k], KnownIn(start));
    if Ver(done[k], id) >= 0 {
      HeldIsAmong(done[k], id, KnownIn(start));
    }
  }

  /** With nothing newer in the queues the greatest version stays the greatest,
      where it was. */
  lemma GreatestIsKept(start: seq<TierData>, actions: seq<Action>, own: seq<byte>, id: Id, max: int, k: nat)
    requires k < |start| && Ver(start[k], id) == max
    requires forall v: uint64 :: SomeCarries(start, id, v) ==> v <= max
    ensures var done := Run(start, actions, own);
      Ver(done[k], id) == max && forall j :: 0 <= j < |done| ==> Ver(done[j], id) <= max
  {
    hide Ver, SomeCarries, Run;
    AnyRunIsSafe(start, actions, own, id, k);
    var done := Run(start, actions, own);
    forall j | 0 <= j < |done|
      ensures Ver(done[j], id) <= max
    {
      AnyRunIsSafe(start, actions, own, id, j);
      VersionFits(done[j], id);
    }
  }

  lemma VersionFits(t: TierData, id: Id)
    ensures -1 <= Ver(t, id) < U64
  {
  }

  // ----- the sweep is a run -----

  lemma {:induction false} MovesAreRun(tiers: seq<TierData>, low: nat, high: nat, moves: seq<Move>, own: seq<byte>)
    returns (actions: seq<Action>)
    requires low < |tiers| && high < |tiers| && low != high
    ensures var q := ShiftMoves(Pair(tiers[low], tiers[high]), moves, own);
      Run(tiers, actions, own) == tiers[low := q.low][high := q.high]
    decreases |moves|
  {
    hide Shift;
    if moves == [] {
      actions := [];
      assert tiers[low := tiers[low]][high := tiers[high]] == tiers;
    } else {
      var m := moves[0];
      var a := if m.up then ShiftOne(low, high, m.id) else ShiftOne(high, low, m.id);
      var next := Perform(tiers, a, own);
      var p := ShiftMove(Pair(tiers[low], tiers[high]), m, own);
      assert next == tiers[low := p.low][high := p.high];
      var more := MovesAreRun(next, low, high, moves[1..], own);
      actions := [a] + more;
      var q := ShiftMoves(p, moves[1..], own);
      assert next[low := q.low][high := q.high] == tiers[low := q.low][high := q.high];
    }
  }

  lemma SyncAtIsRun(tiers: seq<TierData>, i: nat, c: nat, own: seq<byte>) returns (actions: seq<Action>)
    requires i < |tiers| && c < |tiers| && i != c
    ensures Run(tiers, actions, own) == SyncAt(tiers, i, c, own).tiers
  {
    hide Perform, ShiftMoves, TierMoves;
    var (low, high) := if tiers[i].major > tiers[c].major then (c, i) else (i, c);
    var moves := TierMoves(tiers[low], tiers[high]);
    actions := [];
    if moves.Ok? {
      actions := MovesAreRun(tiers, low, high, moves.value, own);
    }
  }

  lemma {:induction false} SweepRowIsRun(tiers: seq<TierData>, i: nat, c: nat, own: seq<byte>)
    returns (actions: seq<Action>)
    requires i < |tiers| && c <= |tiers|
    ensures Run(tiers, actions, own) == SweepRow(tiers, i, c, own).tiers
    decreases |tiers| - c
  {
    hide Run, SyncAt;
    NothingRun(tiers, own);
    actions := [];
    if c < |tiers| {
      if i == c {
        actions := SweepRowIsRun(tiers, i, c + 1, own);
      } else {
        actions := SyncAtIsRun(tiers, i, c, own);
        var next := SyncAt(tiers, i, c, own);
        if next.ok {
          var more := SweepRowIsRun(next.tiers, i, c + 1, own);
          RunAppend(tiers, actions, more, own);
          actions := actions + more;
        }
      }
    }
  }

  lemma NothingRun(tiers: seq<TierData>, own: seq<byte>)
    ensures Run(tiers, [], own) == tiers
  {
  }

  lemma LoopIsRun(tiers: seq<TierData>, i: nat, own: seq<byte>)
    requires i < |tiers|
    ensures Run(tiers, [LoopOne(i)], own) == tiers[i := Loop(tiers[i]).tier]
  {
    hide Loop;
    assert [LoopOne(i)][1..] == [];
  }

  lemma {:induction false} SweepFromIsRun(tiers: seq<TierData>, i: nat, own: seq<byte>) returns (actions: seq<Action>)
    requires i <= |tiers|
    ensures Run(tiers, actions, own) == SweepFrom(tiers, i, own).tiers
    decreases |tiers| - i
  {
    hide Run, SweepRow, Loop;
    NothingRun(tiers, own);
    actions := [];
    if i < |tiers| {
      actions := SweepRowIsRun(tiers, i, 0, own);
      var row := SweepRow(tiers, i, 0, own);
      if row.ok {
        LoopIsRun(row.tiers, i, own);
        var next := row.tiers[i := Loop(row.tiers[i]).tier];
        var more := SweepFromIsRun(next, i + 1, own);
        RunAppend(tiers, actions, [LoopOne(i)], own);
        RunAppend(tiers, actions + [LoopOne(i)], more, own);
        actions := actions + [LoopOne(i)] + more;
      }
    }
  }

  /** A sweep is a run, so all of this holds of sweeps, also of those that an
      unreadable index ends early. */
  lemma SweepIsSafe(start: seq<TierData>, own: seq<byte>, id: Id, k: nat)
    requires k < |start|
    ensures var done := TierLoop(start, own).tiers;
      && Ver(start[k], id) <= Ver(done[k], id)
      && (Ver(done[k], id) >= 0 ==> SomeCarries(start, id, Ver(done[k], id)))
  {
    hide Ver, SomeCarries, Run, SweepFrom;
    var actions := SweepFromIsRun(start, 0, own);
    AnyRunIsSafe(start, actions, own, id, k);
  }

  // ----- blocked tiers -----

  lemma HeldTwice(t: TierData, u: TierData, next: TierData)
    requires Held(t, u) && Held(u, next)
    ensures Held(t, next)
  {
  }

  lemma PerformBlocked(tiers: seq<TierData>, a: Action, own: seq<byte>, k: nat)
    requires k < |tiers| && Blocked(tiers[k])
    ensures Blocked(Perform(tiers, a, own)[k]) && Held(tiers[k], Perform(tiers, a, own)[k])
  {
    hide Blocked, Loop, GetData, AddData, MayShift, Transportable, ForceToExtra;
    BlockedLoop(tiers[k]);
    match a
    case Fail =>
    case LoopOne(i) =>
    case ShiftOne(from, to, id) =>
      BlockedGet(tiers[k], id);
      if from < |tiers| && to == k && from != to {
        var sent := Transportable(GetData(tiers[from], id).payload, id, own, tiers[k]);
        if sent.Ok? {
          BlockedAdd(tiers[k], sent.value);
        }
      }
  }

  /** A tier with a request that cannot be answered stays so over any run, stores
      nothing more, and keeps waiting all that waited to be added. */
  lemma {:induction false} BlockedForEver(tiers: seq<TierData>, actions: seq<Action>, own: seq<byte>, k: nat)
    requires k < |tiers| && Blocked(tiers[k])
    ensures Blocked(Run(tiers, actions, own)[k]) && Held(tiers[k], Run(tiers, actions, own)[k])
    decreases |actions|
  {
    hide Blocked, Perform;
    if actions != [] {
      PerformBlocked(tiers, actions[0], own, k);
      var next := Perform(tiers, actions[0], own);
      BlockedForEver(next, actions[1..], own, k);
      HeldTwice(tiers[k], next[k], Run(tiers, actions, own)[k]);
    }
  }

  lemma SweepKeepsBlocked(tiers: seq<TierData>, own: seq<byte>, k: nat)
    requires k < |tiers| && Blocked(tiers[k])
    ensures Blocked(TierLoop(tiers, own).tiers[k]) && Held(tiers[k], TierLoop(tiers, own).tiers[k])
  {
    hide Blocked, Run, SweepFrom;
    var actions := SweepFromIsRun(tiers, 0, own);
    BlockedForEver(tiers, actions, own, k);
  }
}
