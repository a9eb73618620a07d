// Who copies what to whom (src/id/tier/move/id_tier_move.cpp), one shift
// (src/id/tier/id_tier.cpp:168-255) and the sweep over all pairs of tiers
// (src/id/tier/id_tier.cpp:494-579), on values.

module TierSweep {
  import opened Bytes
  import opened Ids
  import opened Objects
  import opened Strip
  import opened TierCache
  import opened TierQueue

  const TIER_MAJOR_NETWORK: byte := 4

  /** Types that are only ever kept in memory. */
  predicate MemOnly(t: byte) {
    t in [29, 32, 30, 35, 12, 6, 4]
  }

  // ----- the move logic -----

  /** Copy an identifier from the lower tier to the higher one, or down again. */
  datatype Move = Move(id: Id, up: bool)

  /** The first version the index lists, -1 when the identifier is not there. */
  function FirstListed(index: seq<IndexEntry>, id: Id): (v: int)
    ensures v == if Listed(index, id) == [] then -1 else Listed(index, id)[0]
  {
    if index == [] then -1 else if index[0].0 == id then index[0].1 else FirstListed(index[1..], id)
  }

  /** Each entry of the lower index is compared with the first entry that the
      higher index has of that identifier. */
  function Moves(low: seq<IndexEntry>, high: seq<IndexEntry>): seq<Move> {
    if low == [] then []
    else
      var (id, version) := low[0];
      var there := FirstListed(high, id);
      (if MemOnly(Type(id)) || version == there then [] else [Move(id, version > there)]) + Moves(low[1..], high)
  }

  /** The moves between two tiers, the one with the lower major number first. */
  function TierMoves(low: TierData, high: TierData): Result<seq<Move>> {
    if low.major == high.major || high.major == TIER_MAJOR_NETWORK then Ok([])
    else
      var first :- Index(low);
      var second :- Index(high);
      Ok(Moves(first, second))
  }

  // ----- one shift -----

  datatype Shifted = Shifted(from: TierData, to: TierData, ok: bool)

  predicate ListsId(index: seq<IndexEntry>, id: Id) {
    exists i :: 0 <= i < |index| && index[i].0 == id
  }

  /** The transport of the payload: identifiers of this installation lose the
      fields the target tier must not hold. */
  function Transportable(p: seq<byte>, id: Id, own: seq<byte>, to: TierData): Result<seq<byte>> {
    if Hash(id) == own then StripToTransportable(p, Transport.Rules([(to.major, to.minor)], [])) else Ok(p)
  }

  /** `own` is the hash of the identifiers that belong to this installation. */
  predicate MayShift(from: TierData, to: TierData, id: Id, own: seq<byte>) {
    && Type(id) != TYPE_ID_TIER_STATE
    && (from.major == 0 ==> Hash(id) == own)
    && Index(from).Ok? && Index(to).Ok? && ListsId(Index(from).value, id)
    && to.extras != []
  }

  /** `ok` when the identifier is erased from the caller's list. */
  function Shift(from: TierData, to: TierData, id: Id, own: seq<byte>): Shifted {
    if !MayShift(from, to, id, own) then Shifted(from, to, false)
    else
      var got := GetData(from, id);
      if got.payload == [] then Shifted(got.tier, to, false)
      else
        var sent := Transportable(got.payload, id, own, to);
        if sent.Err? || sent.value == [] || ForceToExtra(sent.value, to.extras[0]).Err?
        then Shifted(got.tier, to, false)
        else
          var add := AddData(to, sent.value);
          Shifted(got.tier, add.tier, add.ok)
  }

  // ----- the sweep -----

  datatype Pair = Pair(low: TierData, high: TierData)

  function ShiftMove(p: Pair, m: Move, own: seq<byte>): Pair {
    if m.up then
      var done := Shift(p.low, p.high, m.id, own);
      Pair(done.from, done.to)
    else
      var done := Shift(p.high, p.low, m.id, own);
      Pair(done.to, done.from)
  }

  function ShiftMoves(p: Pair, moves: seq<Move>, own: seq<byte>): Pair
    decreases |moves|
  {
    if moves == [] then p else ShiftMoves(ShiftMove(p, moves[0], own), moves[1..], own)
  }

  /** One pair: the moves are worked out first and then made one by one. */
  function SyncPair(p: Pair, own: seq<byte>): Result<Pair> {
    var moves :- TierMoves(p.low, p.high);
    Ok(ShiftMoves(p, moves, own))
  }

  /** Tiers, and whether the sweep went on; an unreadable index ends it. */
  datatype Sweep = Sweep(tiers: seq<TierData>, ok: bool)

  /** The pair of tiers at two positions, in the order of their major numbers. */
  function SyncAt(tiers: seq<TierData>, i: nat, c: nat, own: seq<byte>): (r: Sweep)
    requires i < |tiers| && c < |tiers| && i != c
    ensures |r.tiers| == |tiers|
  {
    var (low, high) := if tiers[i].major > tiers[c].major then (c, i) else (i, c);
    match SyncPair(Pair(tiers[low], tiers[high]), own)
    case Err => Sweep(tiers, false)
    case Ok(p) => Sweep(tiers[low := p.low][high := p.high], true)
  }

  function SweepRow(tiers: seq<TierData>, i: nat, c: nat, own: seq<byte>): (r: Sweep)
    requires i < |tiers| && c <= |tiers|
    ensures |r.tiers| == |tiers|
    decreases |tiers| - c
  {
    if c == |tiers| then Sweep(tiers, true)
    else if i == c then SweepRow(tiers, i, c + 1, own)
    else
      var next := SyncAt(tiers, i, c, own);
      if next.ok then SweepRow(next.tiers, i, c + 1, own) else next
  }

  /** After its row each tier runs its loop; what that throws is caught. */
  function SweepFrom(tiers: seq<TierData>, i: nat, own: seq<byte>): (r: Sweep)
    requires i <= |tiers|
    ensures |r.tiers| == |tiers|
    decreases |tiers| - i
  {
    if i == |tiers| then Sweep(tiers, true)
    else
      var row := SweepRow(tiers, i, 0, own);
      if !row.ok then row else SweepFrom(row.tiers[i := Loop(row.tiers[i]).tier], i + 1, own)
  }

  function TierLoop(tiers: seq<TierData>, own: seq<byte>): (r: Sweep)
    ensures |r.tiers| == |tiers|
  {
    SweepFrom(tiers, 0, own)
  }

  // ----- what is planned, in numbers -----

  /** The seven types that are kept in memory: tier states, HTTP states and file
      drivers, sink states, sockets, protocol sockets and consoles. */
  lemma MemoryTypes(t: byte)
    ensures MemOnly(t) <==> t in {4, 6, 12, 29, 30, 32, 35}
  {
  }

  /** Nothing of those types is ever planned. */
  lemma {:induction false} PlannedTypes(low: seq<IndexEntry>, high: seq<IndexEntry>, i: nat)
    requires i < |Moves(low, high)|
    ensures Type(Moves(low, high)[i].id) !in {4, 6, 12, 29, 30, 32, 35}
    decreases |low|
  {
    hide FirstListed, MemOnly;
    MemoryTypes(Type(low[0].0));
    var here := |Moves(low, high)| - |Moves(low[1..], high)|;
    if i >= here {
      PlannedTypes(low[1..], high, i - here);
    }
  }

  /** An entry of any other type that the higher index lacks is planned up. */
  lemma {:induction false} MissingIsPlannedUp(low: seq<IndexEntry>, high: seq<IndexEntry>, i: nat)
    requires i < |low| && Type(low[i].0) !in {4, 6, 12, 29, 30, 32, 35}
    requires forall j :: 0 <= j < |high| ==> high[j].0 != low[i].0
    ensures Move(low[i].0, true) in Moves(low, high)
  {
    hide FirstListed, MemOnly;
    if i == 0 {
      MemoryTypes(Type(low[0].0));
      AbsentFirst(high, low[0].0);
    } else {
      MissingIsPlannedUp(low[1..], high, i - 1);
    }
  }

  lemma {:induction false} AbsentFirst(index: seq<IndexEntry>, id: Id)
    requires forall j :: 0 <= j < |index| ==> index[j].0 != id
    ensures FirstListed(index, id) == -1
  {
    if index != [] {
      AbsentFirst(index[1..], id);
    }
  }

  /** Tiers with the same major number, and the network above another tier, get
      no moves; all others need two readable indexes. */
  lemma PairsWithoutMoves(low: TierData, high: TierData)
    ensures low.major == high.major || high.major == 4 ==> TierMoves(low, high) == Ok([])
    ensures low.major != high.major && high.major != 4 ==>
      (TierMoves(low, high).Ok? <==> Index(low).Ok? && Index(high).Ok?)
  {
    hide Index, Moves;
  }

  /** Such a pair is left exactly as it is. */
  lemma SyncLeavesAlone(tiers: seq<TierData>, i: nat, c: nat, own: seq<byte>)
    requires i < |tiers| && c < |tiers| && i != c
    requires tiers[i].major == tiers[c].major
      || (tiers[i].major < tiers[c].major == 4) || (tiers[c].major < tiers[i].major == 4)
    ensures SyncAt(tiers, i, c, own) == Sweep(tiers, true)
  {
    hide Index, Moves, ShiftMove;
    assert tiers[i := tiers[i]][c := tiers[c]] == tiers && tiers[c := tiers[c]][i := tiers[i]] == tiers;
  }

  // ----- what is never shifted -----

  /** An identifier of another installation never leaves memory. */
  lemma ForeignStaysInMemory(from: TierData, to: TierData, id: Id, own: seq<byte>)
    requires from.major == 0 && Hash(id) != own
    ensures Shift(from, to, id, own) == Shifted(from, to, false)
  {
    hide GetData, AddData, Transportable, Index, Hash;
  }

  /** Neither is a tier state shifted, nor what the index does not list, nor
      anything to a tier that allows no extra byte. */
  lemma NeverShifted(from: TierData, to: TierData, id: Id, own: seq<byte>)
    requires Type(id) == 29 || to.extras == [] || Index(from).Err? || Index(to).Err?
      || forall i :: 0 <= i < |Index(from).value| ==> Index(from).value[i].0 != id
    ensures Shift(from, to, id, own) == Shifted(from, to, false)
  {
    hide GetData, AddData, Transportable, Index, Hash;
  }

  /** After its row a tier runs its loop, also when it is alone. */
  lemma OneTierLoops(t: TierData, own: seq<byte>)
    ensures TierLoop([t], own) == Sweep([Loop(t).tier], true)
  {
    hide Loop, SyncAt;
    var tiers := [t];
    assert SweepRow(tiers, 0, 0, own) == SweepRow(tiers, 0, 1, own) == Sweep(tiers, true);
    assert tiers[0 := Loop(t).tier] == [Loop(t).tier];
    assert SweepFrom(tiers, 0, own) == SweepFrom([Loop(t).tier], 1, own);
  }
}
