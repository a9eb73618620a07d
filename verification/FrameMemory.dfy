// The frame objects in memory, with the methods that link them, put them on the
// clock and seek over them.

module FrameMemory {
  import opened Bytes
  import opened Ids
  import opened IdSets
  import opened Frames
  import opened Seek
  import opened Playback

  class Frame {
    const id: Id
    var start: uint64
    var ttl: uint32
    var entry: uint64
    var packets: seq<Packet>
    var back: seq<byte>
    var fwd: seq<byte>

    constructor (id: Id)
      ensures this.id == id && Data() == FrameData(0, 0, 0, [], [], [])
    {
      this.id := id;
      start, ttl, entry, packets, back, fwd := 0, 0, 0, [], [], [];
    }

    function Data(): FrameData
      reads this
    {
      FrameData(start, ttl, entry, packets, back, fwd)
    }

    method GetLinkedList() returns (r: Result<Links>)
      ensures r == GetLinks(Data())
    {
      var b := ExpandIdSet(back);
      if b.Err? {
        return Err;
      }
      var f := ExpandIdSet(fwd);
      if f.Err? {
        return Err;
      }
      return Ok((b.value, f.value));
    }

    method SetLinkedList(links: Links)
      modifies this
      ensures Data() == SetLinks(old(Data()), id, links)
    {
      var first := EraseId(links.0, id);
      var second := EraseId(links.1, id);
      back := CompactIdSet(first);
      fwd := CompactIdSet(second);
    }
  }

  method FilledFrame(id: Id, packets: seq<Packet>, ttl: uint32, entry: uint64) returns (f: Frame)
    ensures fresh(f) && f.id == id && f.Data() == FrameData(0, ttl, entry, packets, [], [])
  {
    f := new Frame(id);
    f.packets := packets;
    f.ttl := ttl;
    f.entry := entry;
  }

  /** Identifiers the generator may hand out: valid, not blank, not in use and
      not repeated. */
  predicate Unused(ids: seq<Id>, keys: set<Id>) {
    && AllValid(ids) && Distinct(ids) && BlankId() !in ids
    && forall i :: 0 <= i < |ids| ==> ids[i] !in keys
  }

  /** The first `n` new frames stand beside what was there. */
  ghost predicate MadeUpTo(before: Store, now: Store, ids: seq<Id>, chunks: seq<seq<Packet>>, ttl: uint32, n: nat)
    requires n <= |ids| && n <= |chunks|
  {
    && (forall id :: id in now <==> id in before || id in ids[..n])
    && (forall id :: id in before ==> now[id] == before[id])
    && (forall k :: 0 <= k < n ==> ids[k] in now && now[ids[k]] == FrameData(0, ttl, k % U64, chunks[k], [], []))
  }

  /** The new frames `v` were made and then linked. */
  ghost predicate MadeAndLinked(before: Store, now: Store, ids: seq<Id>, chunks: seq<seq<Packet>>, ttl: uint32,
                                v: seq<Id>)
    requires |chunks| <= |ids|
  {
    exists made :: (MadeUpTo(before, made, ids, chunks, ttl, |chunks|)
      && Stored(made, v) && LinkedUpTo(made, now, v, LINK_DEPTH, |v|))
  }

  lemma MadeNothing(before: Store, ids: seq<Id>, chunks: seq<seq<Packet>>, ttl: uint32)
    ensures MadeUpTo(before, before, ids, chunks, ttl, 0)
  {
  }

  lemma NoPacketsNoChunks(s: nat)
    requires s >= 1
    ensures Chunks([], s) == []
  {
  }

  lemma MadeUpToStep(before: Store, now: Store, ids: seq<Id>, chunks: seq<seq<Packet>>, ttl: uint32, n: nat)
    requires n < |ids| && n < |chunks| && Unused(ids, before.Keys)
    requires MadeUpTo(before, now, ids, chunks, ttl, n)
    ensures MadeUpTo(before, now[ids[n] := FrameData(0, ttl, n % U64, chunks[n], [], [])], ids, chunks, ttl, n + 1)
  {
    hide AllValid;
    assert ids[..n + 1] == ids[..n] + [ids[n]];
    assert ids[n] !in before;
  }

  /** Frame `k` of the first `n` has its start time; nothing else has changed. */
  ghost predicate StartedUpTo(before: Store, now: Store, ids: seq<Id>, start: uint64, frameTime: nat, n: nat)
    requires n <= |ids| && Stored(before, ids)
  {
    && now.Keys == before.Keys
    && (forall k :: 0 <= k < n ==> now[ids[k]] == before[ids[k]].(start := FrameStart(start, frameTime, k)))
    && (forall id :: id in before && id !in ids[..n] ==> now[id] == before[id])
  }

  lemma AssignedIsStarted(before: Store, now: Store, ids: seq<Id>, starts: seq<uint64>, start: uint64, frameTime: nat)
    requires Stored(before, ids) && |starts| == |ids| && AssignedUpTo(before, now, ids, starts, |ids|)
    requires forall k :: 0 <= k < |ids| ==> starts[k] == FrameStart(start, frameTime, k)
    ensures StartedUpTo(before, now, ids, start, frameTime, |ids|)
  {
    hide FrameStart;
  }

  // ----- seeking -----

  /** Two runs that have ended, in the same way and on the same frame. */
  predicate SameEnd(o: Outcome, end: Outcome) {
    && o != Running
    && (if end.Found? then o.Found? && o.id == end.id else o == end)
  }

  lemma SeekUnroll(store: Store, id: Id, t: uint64, iterations: nat, end: Outcome)
    requires id in store && SameEnd(SeekRun(store, id, t, iterations), end)
    ensures iterations > 0
    ensures match SeekStep(store, id, t)
      case Stay => end.Found? && end.id == id
      case Stop => end == NotFound
      case Throw => end == Threw
      case Back(next) => SameEnd(SeekRun(store, next, t, iterations - 1), end)
      case Forward(next) => SameEnd(SeekRun(store, next, t, iterations - 1), end)
  {
    hide SeekStep;
  }

  /** What the caller of the seek gets. */
  function SeekResult(o: Outcome): Result<Id> {
    match o
    case Found(id, _, _) => Ok(id)
    case Threw => Err
    case _ => Ok(BlankId())
  }

  lemma SeekResultOf(o: Outcome)
    ensures o.Found? ==> SeekResult(o) == Ok(o.id)
    ensures o == NotFound ==> SeekResult(o) == Ok(BlankId())
    ensures o == Threw ==> SeekResult(o) == Err
  {
  }

  lemma CoversInTime(store: Store, v: seq<Id>, depth: nat, k: nat, t: uint64)
    requires Timeline(store, v, depth) && k < |v|
    ensures v[k] in store
    ensures store[v[k]].Covers(t) <==> store[v[k]].start <= t <= store[v[k]].start + store[v[k]].ttl
  {
    hide IsLinked, AllValid, Distinct;
    TimelineParts(store, v, depth);
  }

  /** What the caller gets from any frame of a timeline for a time in no gap: a
      frame whose time is the one sought if there is one, else the blank identifier. */
  lemma ScrollAnswers(store: Store, v: seq<Id>, depth: nat, i: nat, t: uint64, iterations: nat)
    requires i < |v| && Timeline(store, v, depth) && !InGap(store, v, t) && iterations >= |v| + i + 1
    ensures forall k :: 0 <= k < |v| ==> v[k] in store
    ensures v[i] in store
    ensures var r := SeekResult(SeekRun(store, v[i], t, iterations));
      if exists k :: 0 <= k < |v| && store[v[k]].start <= t <= store[v[k]].start + store[v[k]].ttl
      then r.Ok? && r.value in v && r.value in store
        && store[r.value].start <= t <= store[r.value].start + store[r.value].ttl
      else r == Ok(BlankId())
  {
    hide SeekRun, SeekResult, Timeline, InGap;
    TimelineParts(store, v, depth);
    SeekIsCorrect(store, v, depth, i, t, iterations);
    var o := SeekRun(store, v[i], t, iterations);
    SeekResultOf(o);
    forall k | 0 <= k < |v|
      ensures store[v[k]].Covers(t) <==> store[v[k]].start <= t <= store[v[k]].start + store[v[k]].ttl
    {
      CoversInTime(store, v, depth, k, t);
    }
    if o.Found? && o.id in v {
      var k :| 0 <= k < |v| && v[k] == o.id;
    }
  }

  /** Where the seek ends off a timeline: unreadable lists make it throw, in the
      frame it is at and in the one it would go to, and an empty list, the blank
      identifier or a missing frame gives the blank identifier. */
  lemma ScrollEdges(store: Store, id: Id, t: uint64, iterations: nat)
    requires id in store && !store[id].Covers(t) && iterations >= 1
    ensures var r := SeekResult(SeekRun(store, id, t, iterations));
      var back, fwd := Expand(store[id].back), Expand(store[id].fwd);
      if back.Err? || fwd.Err? then r == Err
      else
        var list := if t > store[id].End() then fwd.value else back.value;
        if list == [] || list[0] == Zeros(41) || list[0] !in store then r == Ok(Zeros(41))
        else Expand(store[list[0]].back).Err? || Expand(store[list[0]].fwd).Err? ==> r == Err
  {
    hide Expand;
  }

  /** The caller gets the frame numbered `x / d / s`, which holds the packet
      numbered `x / d` at place `(x / d) % s`. */
  predicate GivesPacket(store: Store, ids: seq<Id>, packets: seq<Packet>, d: nat, s: nat, x: nat, r: Result<Id>)
    requires d >= 1 && s >= 1
  {
    var j := x / d;
    && j < |packets| && j / s < |ids| && r == Ok(ids[j / s]) && ids[j / s] in store
    && j % s < |store[ids[j / s]].packets| && store[ids[j / s]].packets[j % s] == packets[j]
  }

  lemma FoundGivesPacket(store: Store, ids: seq<Id>, packets: seq<Packet>, d: nat, s: nat, x: nat, o: Outcome)
    requires d >= 1 && s >= 1 && FindsPacket(store, ids, packets, d, s, x, o)
    ensures GivesPacket(store, ids, packets, d, s, x, SeekResult(o))
  {
  }

  /** End to end: for a time of a loaded stream off the frame boundaries the caller
      gets the frame that holds the packet of that time, at the packet's place. */
  lemma ScrollFindsPacket(store: Store, ids: seq<Id>, packets: seq<Packet>, d: uint32, s: nat, start: uint64,
                          i: nat, t: uint64, iterations: nat)
    requires d >= 1 && s >= 1 && d * s < U32 && Loaded(store, ids, packets, d, s, start)
    requires start + |ids| * (d * s) < U64
    requires AllValid(ids) && Distinct(ids) && BlankId() !in ids && IsLinked(store, ids, LINK_DEPTH)
    requires i < |ids| && iterations >= |ids| + i + 1
    requires start <= t < start + |packets| * d && !OnBoundary(t - start, d * s)
    ensures ids[i] in store
    ensures GivesPacket(store, ids, packets, d, s, t - start, SeekResult(SeekRun(store, ids[i], t, iterations)))
  {
    hide SeekRun, IsLinked, AllValid, Distinct, Loaded, SeekResult, OnBoundary, FindsPacket, GivesPacket;
    LoadedStored(store, ids, packets, d, s, start);
    SeekFindsPacket(store, ids, packets, d, s, start, i, t, iterations);
    FoundGivesPacket(store, ids, packets, d, s, t - start, SeekRun(store, ids[i], t, iterations));
  }

  lemma SameAsItself(end: Outcome)
    requires end != Running
    ensures SameEnd(end, end)
  {
  }

  lemma StaysOn(store: Store, id: Id, t: uint64)
    requires id in store && store[id].Covers(t)
    ensures SeekStep(store, id, t) == Stay
  {
  }

  // ----- collecting neighbours -----

  lemma NoNeighbours(v: seq<Id>, i: nat)
    requires i < |v|
    ensures Before(v, i, 0) == [] && After(v, i, 0) == []
  {
  }

  lemma FrontSlice(v: seq<Id>, a: nat, b: nat)
    requires a < b <= |v|
    ensures v[a..b] == [v[a]] + v[a + 1..b]
  {
  }

  lemma BackSlice(v: seq<Id>, a: nat, b: nat)
    requires a <= b < |v|
    ensures v[a..b + 1] == v[a..b] + [v[b]]
  {
  }

  lemma NextNeighbours(v: seq<Id>, i: nat, c: nat)
    requires i < |v| && c >= 1
    ensures After(v, i, c) == if i + c < |v| then After(v, i, c - 1) + [v[i + c]] else After(v, i, c - 1)
    ensures Before(v, i, c) == if c <= i then [v[i - c]] + Before(v, i, c - 1) else Before(v, i, c - 1)
  {
    if i + c < |v| {
      BackSlice(v, i + 1, i + c);
    }
    if c <= i {
      FrontSlice(v, i - c, i);
    }
  }

  // ----- making frames -----

  lemma {:induction false} ChunksAreFewer(packets: seq<Packet>, s: nat)
    requires s >= 1
    ensures |Chunks(packets, s)| <= |packets|
    decreases |packets|
  {
    if |packets| > s {
      ChunksAreFewer(packets[s..], s);
    }
  }

  lemma ChunksStep(packets: seq<Packet>, s: nat)
    requires s >= 1 && packets != []
    ensures var end := if |packets| > s then s else |packets|;
      Chunks(packets, s) == [packets[..end]] + Chunks(packets[end..], s)
  {
    if |packets| <= s {
      assert packets[..|packets|] == packets && packets[|packets|..] == [];
    }
  }

  lemma NewIdIsUnused(before: Store, now: Store, ids: seq<Id>, chunks: seq<seq<Packet>>, ttl: uint32, n: nat)
    requires n < |ids| && n < |chunks| && Unused(ids, before.Keys)
    requires MadeUpTo(before, now, ids, chunks, ttl, n)
    ensures ids[n] !in now && ids[n] != BlankId()
  {
    hide AllValid;
    assert ids[n] in ids;
    assert ids[n] !in ids[..n];
  }

  lemma MadeIsFresh(before: Store, made: Store, ids: seq<Id>, chunks: seq<seq<Packet>>, ttl: uint32)
    requires |chunks| <= |ids| && Unused(ids, before.Keys)
    requires MadeUpTo(before, made, ids, chunks, ttl, |chunks|)
    ensures var v := ids[..|chunks|];
      AllValid(v) && Distinct(v) && BlankId() !in v && Stored(made, v) && Fresh(made, v)
  {
    hide ValidId;
  }

  // ----- setting the clock -----

  lemma ChunksAreFull(packets: seq<Packet>, s: nat)
    requires s >= 1
    ensures forall k :: 0 <= k < |Chunks(packets, s)| ==> 1 <= |Chunks(packets, s)[k]|
    ensures forall k :: 0 <= k < |Chunks(packets, s)| - 1 ==> |Chunks(packets, s)[k]| == s
  {
    hide Chunks;
    forall k | 0 <= k < |Chunks(packets, s)|
      ensures 1 <= |Chunks(packets, s)[k]|
      ensures k < |Chunks(packets, s)| - 1 ==> |Chunks(packets, s)[k]| == s
    {
      ChunkSizes(packets, s, k);
    }
  }

  /** The number of frames for `n` packets, with the number of whole snippets
      that fit a frame, or one, in each. */
  function FramesNeeded(n: nat, snippet: uint32, frameDuration: uint64): nat {
    if snippet == 0 || snippet > frameDuration then n
    else
      var s := frameDuration / snippet;
      if s == 0 then n else (n + s - 1) / s
  }

  /** All packets go into that many frames but not into one fewer. */
  lemma FramesNeededIsLeast(n: nat, snippet: uint32, frameDuration: uint64, s: nat)
    requires if snippet != 0 && snippet <= frameDuration then s * snippet <= frameDuration < (s + 1) * snippet
             else s == 1
    ensures var frames := FramesNeeded(n, snippet, frameDuration);
      n <= frames * s && (n > 0 ==> frames > 0 && (frames - 1) * s < n)
  {
    if snippet != 0 && snippet <= frameDuration {
      QuotientBetween(frameDuration, snippet, s);
      OneFits(frameDuration, snippet, s);
      CeilingIsLeast(n, s, (n + s - 1) / s);
    }
  }

  lemma OneFits(n: nat, m: nat, q: nat)
    requires 1 <= m <= n < (q + 1) * m
    ensures q >= 1
  {
  }

  lemma CeilingIsLeast(n: nat, s: nat, c: nat)
    requires s >= 1 && c == (n + s - 1) / s
    ensures n <= c * s && (n > 0 ==> c > 0 && (c - 1) * s < n)
  {
    var r := (n + s - 1) % s;
    assert n + s - 1 == s * c + r;
    if c > 0 {
      assert (c - 1) * s == c * s - s;
    }
  }

  lemma FrameCount(packets: seq<Packet>, snippet: uint32, frameDuration: uint64)
    ensures |Chunks(packets, SnippetsPerFrame(snippet, frameDuration))| ==
      FramesNeeded(|packets|, snippet, frameDuration)
  {
    hide Chunks, SnippetsPerFrame;
    var s := SnippetsPerFrame(snippet, frameDuration);
    SnippetsFill(snippet, frameDuration);
    ChunkCount(packets, s);
    if snippet != 0 && snippet <= frameDuration {
      QuotientBetween(frameDuration, snippet, s);
    } else {
      QuotientIs(|packets|, 1, |packets|, 0);
    }
  }

  lemma QuotientBetween(n: nat, m: nat, q: nat)
    requires m >= 1 && q * m <= n < (q + 1) * m
    ensures n / m == q
  {
    assert (q + 1) * m == q * m + m;
    QuotientIs(n, m, q, n - m * q);
  }

  /** The frames of the console last one second at most, or one snippet. */
  lemma ConsoleFrameFits(snippet: uint32)
    ensures snippet * SnippetsPerFrame(snippet, CONSOLE_FRAME_DURATION) < U32
  {
    if snippet != 0 {
      assert snippet * (CONSOLE_FRAME_DURATION / snippet) <= CONSOLE_FRAME_DURATION;
    }
  }

  /** What linking keeps of the new frames. */
  lemma LinkedKeepsFrames(before: Store, made: Store, linked: Store, ids: seq<Id>, chunks: seq<seq<Packet>>,
                          ttl: uint32, v: seq<Id>)
    requires |chunks| <= |ids| && v == ids[..|chunks|] && Stored(made, v)
    requires MadeUpTo(before, made, ids, chunks, ttl, |chunks|)
    requires LinkedUpTo(made, linked, v, LINK_DEPTH, |v|)
    ensures Stored(linked, v)
    ensures forall k :: 0 <= k < |v| ==>
      linked[v[k]].packets == chunks[k] && linked[v[k]].ttl == ttl && linked[v[k]].entry == k % U64
  {
    hide Compact, Before, After;
  }

  /** What was in memory before is untouched by making and linking. */
  lemma LinkedKeepsOthers(before: Store, made: Store, linked: Store, ids: seq<Id>, chunks: seq<seq<Packet>>,
                          ttl: uint32, v: seq<Id>)
    requires |chunks| <= |ids| && v == ids[..|chunks|] && Stored(made, v) && Unused(ids, before.Keys)
    requires MadeUpTo(before, made, ids, chunks, ttl, |chunks|)
    requires LinkedUpTo(made, linked, v, LINK_DEPTH, |v|)
    ensures forall id :: id in before ==> id in linked && id !in v && linked[id] == before[id]
  {
    hide WithLinks, AllValid, Distinct;
    assert v[..|v|] == v;
  }

  lemma StartedIsLoaded(linked: Store, now: Store, v: seq<Id>, packets: seq<Packet>, d: uint32, s: nat, start: uint64)
    requires s >= 1 && |v| == |Chunks(packets, s)| && Stored(linked, v)
    requires forall k :: 0 <= k < |v| ==>
      linked[v[k]].packets == Chunks(packets, s)[k] && linked[v[k]].ttl == (d * s) % U32
      && linked[v[k]].entry == k % U64
    requires StartedUpTo(linked, now, v, start, d * s, |v|)
    ensures Loaded(now, v, packets, d, s, start)
  {
    hide FrameStart, Chunks;
  }

  lemma StartedKeepsLinks(linked: Store, now: Store, v: seq<Id>, start: uint64, frameTime: nat)
    requires Stored(linked, v) && IsLinked(linked, v, LINK_DEPTH)
    requires StartedUpTo(linked, now, v, start, frameTime, |v|)
    ensures IsLinked(now, v, LINK_DEPTH)
  {
    hide FrameStart, Compact, Before, After;
  }

  // ----- the whole load -----

  ghost predicate Keeps(before: Store, now: Store) {
    forall id :: id in before ==> id in now && now[id] == before[id]
  }

  lemma KeepsItself(store: Store)
    ensures Keeps(store, store)
  {
  }

  /** Linked frames `v` hold the packets; what was there before is untouched. */
  ghost predicate NewFrames(before: Store, now: Store, v: seq<Id>, packets: seq<Packet>, d: uint32, s: nat)
    requires s >= 1
  {
    && |v| == |Chunks(packets, s)| && Stored(now, v)
    && AllValid(v) && Distinct(v) && BlankId() !in v
    && IsLinked(now, v, LINK_DEPTH)
    && Keeps(before, now) && (forall id :: id in before ==> id !in v)
    && forall k :: 0 <= k < |v| ==>
      now[v[k]].packets == Chunks(packets, s)[k] && now[v[k]].ttl == (d * s) % U32 && now[v[k]].entry == k % U64
  }

  lemma MadeAreNewFrames(before: Store, now: Store, ids: seq<Id>, packets: seq<Packet>, d: uint32, s: nat, v: seq<Id>)
    requires s >= 1 && |Chunks(packets, s)| <= |ids| && v == ids[..|Chunks(packets, s)|] && Unused(ids, before.Keys)
    requires MadeAndLinked(before, now, ids, Chunks(packets, s), (d * s) % U32, v)
    ensures NewFrames(before, now, v, packets, d, s)
  {
    hide MadeUpTo, LinkedUpTo, Chunks, Unused, IsLinked, AllValid, Distinct, Fresh;
    var chunks, ttl := Chunks(packets, s), (d * s) % U32;
    var made :| MadeUpTo(before, made, ids, chunks, ttl, |chunks|)
      && Stored(made, v) && LinkedUpTo(made, now, v, LINK_DEPTH, |v|);
    MadeIsFresh(before, made, ids, chunks, ttl);
    LinkedKeepsFrames(before, made, now, ids, chunks, ttl, v);
    LinkedKeepsOthers(before, made, now, ids, chunks, ttl, v);
    LinkedUpToIsLinked(made, now, v, LINK_DEPTH);
  }

  /** Linking the new frames a second time changes nothing, and all but the last
      hold `s` packets. */
  lemma NewFramesLinked(before: Store, now: Store, v: seq<Id>, packets: seq<Packet>, d: uint32, s: nat)
    requires s >= 1 && NewFrames(before, now, v, packets, d, s)
    ensures Frames.LinkVector(now, v, LINK_DEPTH) == Linked(now, true)
    ensures Stored(now, v) && Distinct(v) && Keeps(before, now)
    ensures forall k :: 0 <= k < |v| ==> 1 <= |now[v[k]].packets|
    ensures forall k :: 0 <= k < |v| - 1 ==> |now[v[k]].packets| == s
  {
    hide Chunks, IsLinked, AllValid, Distinct, Keeps, Frames.LinkVector;
    LinkVectorIsIdempotent(now, v, LINK_DEPTH, LINK_DEPTH);
    ChunksAreFull(packets, s);
  }

  /** All frames get their start times when none is empty and all but the last
      have the same size. */
  lemma EvenFramesStart(linked: Store, v: seq<Id>, d: uint32, start: uint64, s: nat)
    requires Stored(linked, v) && Distinct(v)
    requires forall k :: 0 <= k < |v| ==> 1 <= |linked[v[k]].packets|
    requires forall k :: 0 <= k < |v| - 1 ==> |linked[v[k]].packets| == s
    ensures var done := AssignFrom(linked, v, d, 0, start);
      done.ok && StartedUpTo(linked, done.store, v, start, d * s, |v|)
  {
    hide StartedUpTo, AssignedUpTo, AssignFrom, Distinct, Starts, FrameStart;
    AssignStarts(linked, v, d, start);
    assert FirstEmpty(linked, v, 0) == |v|;
    forall k | 0 <= k < |v|
      ensures Starts(linked, v, d, start)[k] == FrameStart(start, d * s, k)
    {
      EvenStarts(linked, v, d, start, s, k);
    }
    AssignedIsStarted(linked, AssignFrom(linked, v, d, 0, start).store, v, Starts(linked, v, d, start), start, d * s);
  }

  lemma StartedFrames(before: Store, linked: Store, now: Store, v: seq<Id>, packets: seq<Packet>,
                      d: uint32, s: nat, start: uint64)
    requires s >= 1 && NewFrames(before, linked, v, packets, d, s)
    requires StartedUpTo(linked, now, v, start, d * s, |v|)
    ensures Loaded(now, v, packets, d, s, start) && IsLinked(now, v, LINK_DEPTH)
    ensures AllValid(v) && Distinct(v) && BlankId() !in v && Keeps(before, now)
  {
    hide Chunks, IsLinked, AllValid, Distinct, Loaded, FrameStart;
    StartedIsLoaded(linked, now, v, packets, d, s, start);
    StartedKeepsLinks(linked, now, v, start, d * s);
    assert v[..|v|] == v;
  }

  class Memory {
    var objects: map<Id, Frame>

    constructor ()
      ensures Valid() && objects == map[]
    {
      objects := map[];
    }

    /** Every frame is found under its own identifier. */
    ghost predicate Valid()
      reads this
    {
      forall id :: id in objects ==> objects[id].id == id && id != BlankId()
    }

    function Store(): (store: Store)
      reads this, objects.Values
      ensures store.Keys == objects.Keys
      ensures forall id :: id in objects ==> store[id] == objects[id].Data()
    {
      map id | id in objects :: objects[id].Data()
    }

    method GetLinkedList(id: Id) returns (r: Result<Links>)
      requires id in objects
      ensures r == GetLinks(Store()[id])
    {
      r := objects[id].GetLinkedList();
    }

    method SetLinkedList(id: Id, links: Links)
      requires Valid() && id in objects
      modifies objects[id]
      ensures Store() == old(Store())[id := SetLinks(old(Store())[id], id, links)]
    {
      var f := objects[id];
      f.SetLinkedList(links);
      assert forall k :: k in objects && k != id ==> objects[k] != f;
    }

    /** The loop that collects the lists of frame `i`; an index outside the
        vector throws, is caught and adds nothing. */
    method Neighbours(v: seq<Id>, depth: nat, i: nat, addBackward: bool, addForward: bool) returns (links: Links)
      requires i < |v| && depth + |v| < U64
      ensures links.0 == (if addBackward then Before(v, i, depth) else [])
      ensures links.1 == (if addForward then After(v, i, depth) else [])
    {
      hide Before, After;
      var backward, forward := [], [];
      NoNeighbours(v, i);
      for c := 1 to depth + 1
        invariant backward == if addBackward then Before(v, i, c - 1) else []
        invariant forward == if addForward then After(v, i, c - 1) else []
      {
        NextNeighbours(v, i, c);
        if addForward && i + c < |v| {
          forward := forward + [v[i + c]];
        }
        if addBackward && c <= i {
          backward := [v[i - c]] + backward;
        }
      }
      links := (backward, forward);
    }

    /** A list that is not empty stays; an empty one gets the neighbours. */
    method AddNeighbours(now: Links, v: seq<Id>, depth: nat, i: nat) returns (links: Links)
      requires i < |v| && depth + |v| < U64
      ensures links == NewLinks(now, v, depth, i)
    {
      var addForward, addBackward := now.1 == [], now.0 == [];
      links := Neighbours(v, depth, i, addBackward, addForward);
      if !addForward {
        links := (links.0, now.1);
      }
      if !addBackward {
        links := (now.0, links.1);
      }
    }

    /** The assertions on the two lists of frame `i`. */
    method CheckLinks(links: Links, v: seq<Id>, i: nat) returns (ok: bool)
      requires i < |v|
      ensures ok <==> LinksAgree(links, v, i)
    {
      var backward, forward := links.0, links.1;
      if i > 0 && |backward| == 0 {
        return false;
      }
      if i < |v| - 1 && |forward| == 0 {
        return false;
      }
      if |backward| >= 1 && (i == 0 || backward[|backward| - 1] != v[i - 1]) {
        return false;
      }
      if |forward| >= 1 && (i == |v| - 1 || forward[0] != v[i + 1]) {
        return false;
      }
      return true;
    }

    /** The depth leaves room for the 64-bit index arithmetic of the source. */
    method LinkOne(v: seq<Id>, depth: nat, i: nat) returns (ok: bool)
      requires Valid() && i < |v| && depth + |v| < U64
      modifies objects.Values
      ensures Linked(Store(), ok) == Frames.LinkOne(old(Store()), v, depth, i)
    {
      hide GetLinks, SetLinks, NewLinks, LinksAgree, Memory.Store, Memory.Valid, Frame.Data;
      if v[i] !in objects {
        return false;
      }
      var now := GetLinkedList(v[i]);
      if now.Err? {
        return false;
      }
      var links := AddNeighbours(now.value, v, depth, i);
      ok := CheckLinks(links, v, i);
      if ok {
        SetLinkedList(v[i], links);
      }
    }

    method LinkVector(v: seq<Id>, depth: nat) returns (ok: bool)
      requires Valid() && depth + |v| < U64
      modifies objects.Values
      ensures Linked(Store(), ok) == Frames.LinkVector(old(Store()), v, depth)
    {
      hide Frames.LinkOne, SetLinks, AllValid;
      ok := AssertValidIds(v);
      if !ok || |v| <= 1 {
        return;
      }
      if |v| == 2 {
        if v[0] !in objects {
          return false;
        }
        SetLinkedList(v[0], ([], [v[1]]));
        if v[1] !in objects {
          return false;
        }
        SetLinkedList(v[1], ([v[0]], []));
        return true;
      }
      for i := 0 to |v|
        invariant Frames.LinkFrom(old(Store()), v, depth, 0) == Frames.LinkFrom(Store(), v, depth, i)
      {
        ok := LinkOne(v, depth, i);
        if !ok {
          return;
        }
      }
      return true;
    }

    /** `next` is the frame the seek goes on with, or null. */
    ghost predicate IsNext(data: Frame, t: uint64, next: Result<Frame?>)
      requires data.id in objects
      reads this, objects.Values
    {
      match SeekStep(Store(), data.id, t)
      case Stay => false
      case Throw => next == Err
      case Stop => next == Ok(null)
      case Back(id) => next == Ok(objects[id])
      case Forward(id) => next == Ok(objects[id])
    }

    /** The part of the loop body after the `BETWEEN` test. */
    method NextFrame(data: Frame, t: uint64) returns (r: Result<Frame?>)
      requires data.id in objects && objects[data.id] == data && !data.Data().Covers(t)
      ensures IsNext(data, t, r)
    {
      hide GetLinks, Memory.Store;
      var goForward := t > (data.start + data.ttl) % U64;
      var linkedList := GetLinkedList(data.id);
      if linkedList.Err? {
        return Err;
      }
      var newId := BlankId();
      if goForward {
        if |linkedList.value.1| >= 1 {
          newId := linkedList.value.1[0];
        }
      } else {
        if |linkedList.value.0| >= 1 {
          newId := linkedList.value.0[0];
        }
      }
      if newId != BlankId() && newId in objects {
        var idPair := GetLinkedList(newId);
        if idPair.Err? {
          return Err;
        }
        return Ok(objects[newId]);
      }
      return Ok(null);
    }

    /** From here the seek ends as `end` within `left` iterations. */
    ghost predicate Seeking(data: Frame?, t: uint64, left: nat, end: Outcome)
      reads this, objects.Values
    {
      if data == null then end == NotFound
      else data.id in objects && objects[data.id] == data && SameEnd(SeekRun(Store(), data.id, t, left), end)
    }

    lemma SeekingStep(data: Frame, t: uint64, left: nat, end: Outcome, next: Result<Frame?>)
      requires Valid() && Seeking(data, t, left, end) && IsNext(data, t, next)
      ensures next.Err? ==> end == Threw
      ensures next.Ok? ==> left > 0 && Seeking(next.value, t, left - 1, end)
    {
      hide SeekStep, SeekRun, SameEnd, Memory.Store;
      SeekUnroll(Store(), data.id, t, left, end);
    }

    lemma SeekingEnds(data: Frame, t: uint64, left: nat, end: Outcome)
      requires Seeking(data, t, left, end) && data.Data().Covers(t)
      ensures end.Found? && end.id == data.id
    {
      hide SeekStep, SeekRun, SameEnd, Memory.Store;
      StaysOn(Store(), data.id, t);
      SeekUnroll(Store(), data.id, t, left, end);
    }

    /** The loop ends because the seek from this frame ends within `iterations`;
        for frames on a timeline `SeekEndsExactly` says when that is so. */
    method ScrollToTime(data_: Frame?, t: uint64, ghost iterations: nat) returns (r: Result<Id>)
      requires Valid() && (data_ != null ==> data_.id in objects && objects[data_.id] == data_)
      requires data_ != null ==> SeekRun(Store(), data_.id, t, iterations) != Running
      ensures r == if data_ == null then Ok(BlankId()) else SeekResult(SeekRun(Store(), data_.id, t, iterations))
    {
      hide SeekStep, SeekRun, SameEnd, Memory.Store, Memory.IsNext, Memory.Seeking, Memory.Valid;
      if data_ == null {
        return Ok(BlankId());
      }
      var data: Frame? := data_;
      ghost var left, end := iterations, SeekRun(Store(), data_.id, t, iterations);
      SeekingStarts(data_, t, iterations);
      while data != null
        invariant Seeking(data, t, left, end)
        decreases if data == null then 0 else left + 1
      {
        SeekingIsListed(data, t, left, end);
        if data.start <= t <= (data.start + data.ttl) % U64 {
          SeekingEnds(data, t, left, end);
          return Ok(data.id);
        }
        var next := NextFrame(data, t);
        SeekingStep(data, t, left, end, next);
        if next.Err? {
          return Err;
        }
        data := next.value;
        left := left - 1;
      }
      SeekingFails(t, left, end);
      return Ok(BlankId());
    }

    lemma SeekingStarts(data: Frame, t: uint64, left: nat)
      requires data.id in objects && objects[data.id] == data && SeekRun(Store(), data.id, t, left) != Running
      ensures Seeking(data, t, left, SeekRun(Store(), data.id, t, left))
    {
      hide SeekRun, SameEnd, Memory.Store;
      SameAsItself(SeekRun(Store(), data.id, t, left));
    }

    lemma SeekingIsListed(data: Frame, t: uint64, left: nat, end: Outcome)
      requires Seeking(data, t, left, end)
      ensures data.id in objects && objects[data.id] == data
    {
      hide SeekRun, SameEnd, Memory.Store;
    }

    lemma SeekingFails(t: uint64, left: nat, end: Outcome)
      requires Seeking(null, t, left, end)
      ensures end == NotFound
    {
    }

    method NewFrame(newId: Id, packets: seq<Packet>, ttl: uint32, entry: uint64)
      requires Valid() && newId !in objects && newId != BlankId()
      modifies this
      ensures Valid() && newId in objects && fresh(objects[newId]) && objects == old(objects)[newId := objects[newId]]
      ensures Store() == old(Store())[newId := FrameData(0, ttl, entry, packets, [], [])]
    {
      hide Memory.Store, Frame.Data;
      ghost var before := Store();
      var f := FilledFrame(newId, packets, ttl, entry);
      objects := objects[newId := f];
      StoreWith(before, newId);
    }

    lemma StoreChanged(before: Store, id: Id)
      requires id in objects && objects.Keys == before.Keys
      requires forall k :: k in before && k != id ==> objects[k].Data() == before[k]
      ensures Store() == before[id := objects[id].Data()]
    {
      hide Memory.Store;
    }

    /** Memory with one more frame stores one more frame. */
    lemma StoreWith(before: Store, newId: Id)
      requires newId in objects && newId !in before && objects.Keys == before.Keys + {newId}
      requires forall id :: id in before ==> objects[id].Data() == before[id]
      ensures Store() == before[newId := objects[newId].Data()]
    {
      hide Memory.Store;
    }

    /** The loop that cuts the codec data into frames of `s` packets. */
    method MakeFrames(codecSet: Vector<Packet>, s: nat, ttl: uint32, newIds: seq<Id>) returns (retval: seq<Id>)
      requires Valid() && Unused(newIds, objects.Keys) && s >= 1 && |Chunks(codecSet.elems, s)| <= |newIds|
      modifies this, codecSet
      ensures Valid() && codecSet.elems == []
      ensures forall id :: id in objects ==> objects[id] in old(objects.Values) || fresh(objects[id])
      ensures var chunks := Chunks(old(codecSet.elems), s);
        && retval == newIds[..|chunks|]
        && MadeUpTo(old(Store()), Store(), newIds, chunks, ttl, |chunks|)
    {
      hide Unused, MadeUpTo, Chunks, Memory.Store, Memory.Valid, Frame.Data;
      ghost var before, chunks := Store(), Chunks(codecSet.elems, s);
      retval := [];
      MadeNothing(before, newIds, chunks, ttl);
      while |codecSet.elems| > 0
        invariant Valid() && |retval| <= |chunks| && retval == newIds[..|retval|]
        invariant chunks[|retval|..] == Chunks(codecSet.elems, s)
        invariant MadeUpTo(before, Store(), newIds, chunks, ttl, |retval|)
        invariant forall id :: id in objects ==> objects[id] in old(objects.Values) || fresh(objects[id])
        decreases |codecSet.elems|
      {
        var n := |retval|;
        ghost var now := Store();
        ChunksStep(codecSet.elems, s);
        NewIdIsUnused(before, now, newIds, chunks, ttl, n);
        MadeUpToStep(before, now, newIds, chunks, ttl, n);
        var end := if |codecSet.elems| > s then s else |codecSet.elems|;
        assert chunks[n] == chunks[n..][0] && chunks[n..][1..] == chunks[n + 1..];
        NewFrame(newIds[n], codecSet.elems[..end], ttl, n % U64);
        retval := retval + [newIds[n]];
        codecSet.elems := codecSet.elems[end..];
      }
      NoPacketsNoChunks(s);
    }

    /** The repackaging branch; `newIds` are the identifiers that the random
        generator gives to the new frames. */
    method ToFrames(codecSet: Vector<Packet>, snippet: uint32, frameDuration: uint64, newIds: seq<Id>)
      returns (retval: seq<Id>)
      requires Valid() && Unused(newIds, objects.Keys) && |newIds| >= |codecSet.elems|
      requires |codecSet.elems| + LINK_DEPTH < U64
      modifies this, objects.Values, codecSet
      ensures Valid() && codecSet.elems == []
      ensures forall id :: id in objects ==> objects[id] in old(objects.Values) || fresh(objects[id])
      ensures var s := SnippetsPerFrame(snippet, frameDuration);
        var chunks := Chunks(old(codecSet.elems), s);
        && |chunks| <= |newIds| && retval == newIds[..|chunks|] && |chunks| <= |old(codecSet.elems)|
        && MadeAndLinked(old(Store()), Store(), newIds, chunks, (snippet * s) % U32, retval)
      ensures |retval| == FramesNeeded(|old(codecSet.elems)|, snippet, frameDuration)
    {
      hide SnippetsPerFrame, MadeUpTo, Unused, LinkedUpTo, Chunks, Fresh, AllValid, Distinct, Frames.LinkVector,
        FramesNeeded;
      var s := SnippetsPerFrame(snippet, frameDuration);
      var ttl := (snippet * s) % U32;
      ghost var before, chunks := Store(), Chunks(codecSet.elems, s);
      ChunksAreFewer(codecSet.elems, s);
      FrameCount(codecSet.elems, snippet, frameDuration);
      retval := MakeFrames(codecSet, s, ttl, newIds);
      ghost var made := Store();
      MadeIsFresh(before, made, newIds, chunks, ttl);
      LinkVectorLinks(made, retval, LINK_DEPTH);
      var ok := LinkVector(retval, LINK_DEPTH);
    }

    /** Frames get consecutive start times; a frame that is missing or has no
        packets throws. */
    method AssignStartTimes(ids: seq<Id>, snippet: uint32, trueStart: uint64) returns (ok: bool)
      requires Valid()
      modifies objects.Values
      ensures Timed(Store(), ok) == AssignFrom(old(Store()), ids, snippet, 0, trueStart)
    {
      hide Memory.Store, AssignFrom, Frame.Data, Memory.Valid;
      var startTime: uint64 := trueStart;
      for k := 0 to |ids|
        invariant AssignFrom(old(Store()), ids, snippet, 0, trueStart) ==
          AssignFrom(Store(), ids, snippet, k, startTime)
      {
        AssignUnfold(Store(), ids, snippet, k, startTime);
        if ids[k] !in objects {
          return false;
        }
        var size := PacketSetSize(ids[k]);
        if size == 0 {
          return false;
        }
        SetStartTime(ids[k], startTime);
        startTime := (startTime + snippet * size) % U64;
      }
      AssignUnfold(Store(), ids, snippet, |ids|, startTime);
      return true;
    }

    method PacketSetSize(id: Id) returns (size: nat)
      requires id in objects
      ensures size == |Store()[id].packets|
    {
      hide Memory.Store;
      size := |objects[id].packets|;
    }

    method SetStartTime(id: Id, startTime: uint64)
      requires Valid() && id in objects
      modifies objects[id]
      ensures Store() == old(Store())[id := old(Store())[id].(start := startTime)]
    {
      hide Memory.Store;
      ghost var before := Store();
      var frame := objects[id];
      frame.start := startTime;
      assert forall k :: k in objects && k != id ==> objects[k] != frame;
      StoreChanged(before, id);
    }

    /** Packets become linked frames on the clock, starting at `trueStart`. */
    method LoadSamplesToFrames(packets: seq<Packet>, snippet: uint32, trueStart: uint64, newIds: seq<Id>)
      returns (r: Result<seq<Id>>)
      requires Valid() && Unused(newIds, objects.Keys) && |newIds| >= |packets| && |packets| + LINK_DEPTH < U64
      modifies this, objects.Values
      ensures r.Ok? <==> packets != [] && snippet != 0
      ensures r.Ok? ==>
        var s := SnippetsPerFrame(snippet, CONSOLE_FRAME_DURATION);
        && Loaded(Store(), r.value, packets, snippet, s, trueStart) && IsLinked(Store(), r.value, 10)
        && AllValid(r.value) && Distinct(r.value) && BlankId() !in r.value && snippet * s < U32
      ensures r.Ok? ==> |r.value| == FramesNeeded(|packets|, snippet, 1_000_000)
      ensures Keeps(old(Store()), Store())
    {
      hide NewFrames, Chunks, Unused, IsLinked, StartedUpTo, Loaded, SnippetsPerFrame, AllValid, Distinct,
        MadeAndLinked, Keeps, Frames.LinkVector, FramesNeeded;
      if |packets| == 0 {
        KeepsItself(Store());
        return Err;
      }
      ghost var before := Store();
      ghost var s := SnippetsPerFrame(snippet, CONSOLE_FRAME_DURATION);
      var codecSet := new Vector(packets);
      var retval := ToFrames(codecSet, snippet, CONSOLE_FRAME_DURATION, newIds);
      ghost var linked := Store();
      MadeAreNewFrames(before, linked, newIds, packets, snippet, s, retval);
      NewFramesLinked(before, linked, retval, packets, snippet, s);
      var ok := LinkVector(retval, LINK_DEPTH);
      if snippet == 0 {
        return Err;
      }
      ok := AssignStartTimes(retval, snippet, trueStart);
      EvenFramesStart(linked, retval, snippet, trueStart, s);
      StartedFrames(before, linked, Store(), retval, packets, snippet, s, trueStart);
      ConsoleFrameFits(snippet);
      return Ok(retval);
    }
  }
}
