// Packets cut into frames and frames set on the clock: the repackaging branch
// of `codec::to_frames` (src/tv/transcode/tv_transcode_audio.cpp:257-299) and
// the timing loop of the console (src/console/console_manager.cpp:193-212), on
// values, with the seek over the result.

module Playback {
  import opened Bytes
  import opened Ids
  import opened Frames
  import opened Seek

  type Packet = seq<byte>

  const LINK_DEPTH: nat := 10
  const CONSOLE_FRAME_DURATION: uint64 := 1_000_000

  /** At least one snippet a frame, and one when the duration is unknown. */
  function SnippetsPerFrame(snippet: uint32, frameDuration: uint64): (s: nat)
    ensures s >= 1
  {
    if snippet == 0 || frameDuration / snippet == 0 then 1 else frameDuration / snippet
  }

  function Chunks(packets: seq<Packet>, s: nat): seq<seq<Packet>>
    requires s >= 1
  {
    if packets == [] then []
    else if |packets| > s then [packets[..s]] + Chunks(packets[s..], s)
    else [packets]
  }

  /** A frame gets as many snippets as fit its duration; one when the duration of
      a snippet is unknown or longer than the frame. */
  lemma SnippetsFill(snippet: uint32, frameDuration: uint64)
    ensures var s := SnippetsPerFrame(snippet, frameDuration);
      && (snippet != 0 && snippet <= frameDuration ==> s * snippet <= frameDuration < (s + 1) * snippet)
      && (snippet == 0 || snippet > frameDuration ==> s == 1)
  {
    if snippet != 0 && snippet <= frameDuration {
      var q, r := frameDuration / snippet, frameDuration % snippet;
      assert frameDuration == snippet * q + r;
      assert (q + 1) * snippet == q * snippet + snippet;
      if q == 0 {
        assert false;
      }
    } else if snippet != 0 {
      QuotientIs(frameDuration, snippet, 0, frameDuration);
    }
  }

  /** So many frames does it take. */
  lemma {:induction false} ChunkCount(packets: seq<Packet>, s: nat)
    requires s >= 1
    ensures |Chunks(packets, s)| == (|packets| + s - 1) / s
    decreases |packets|
  {
    if packets == [] {
      QuotientIs(s - 1, s, 0, s - 1);
    } else if |packets| > s {
      ChunkCount(packets[s..], s);
      QuotientAfter(|packets| + s - 1, s);
    } else {
      QuotientIs(|packets| + s - 1, s, 1, |packets| - 1);
    }
  }

  /** Packet `j` is in chunk `j / s` at position `j % s`. */
  lemma {:induction false} ChunkAt(packets: seq<Packet>, s: nat, j: nat)
    requires s >= 1 && j < |packets|
    ensures j / s < |Chunks(packets, s)|
    ensures j % s < |Chunks(packets, s)[j / s]|
    ensures Chunks(packets, s)[j / s][j % s] == packets[j]
    decreases |packets|
  {
    if j < s {
      QuotientIs(j, s, 0, j);
    } else {
      ChunkAt(packets[s..], s, j - s);
      QuotientAfter(j, s);
    }
  }

  lemma QuotientAfter(j: nat, s: nat)
    requires 1 <= s <= j
    ensures j / s == (j - s) / s + 1 && j % s == (j - s) % s
  {
    var q, r := (j - s) / s, (j - s) % s;
    assert s * (q + 1) == s * q + s;
    QuotientIs(j, s, q + 1, r);
  }

  /** Every chunk but the last is full, and none is empty. */
  lemma {:induction false} ChunkSizes(packets: seq<Packet>, s: nat, k: nat)
    requires s >= 1 && k < |Chunks(packets, s)|
    ensures 1 <= |Chunks(packets, s)[k]| <= s
    ensures k < |Chunks(packets, s)| - 1 ==> |Chunks(packets, s)[k]| == s
    decreases |packets|
  {
    if |packets| > s {
      assert packets[s..] != [];
      if k > 0 {
        ChunkSizes(packets[s..], s, k - 1);
      }
    }
  }

  /** The frames of a stream: their packets, their 32-bit time to live, their
      place, and start times one whole frame apart. */
  predicate Loaded(store: Store, ids: seq<Id>, packets: seq<Packet>, d: uint32, s: nat, start: uint64)
    requires s >= 1
  {
    && |ids| == |Chunks(packets, s)|
    && Stored(store, ids)
    && forall k :: 0 <= k < |ids| ==>
      && store[ids[k]].packets == Chunks(packets, s)[k]
      && store[ids[k]].ttl == (d * s) % U32
      && store[ids[k]].entry == k % U64
      && store[ids[k]].start == FrameStart(start, d * s, k)
  }

  function FrameStart(start: uint64, frameTime: nat, k: nat): uint64 {
    (start + k * frameTime) % U64
  }

  // ----- the timing loop -----

  datatype Timed = Timed(store: Store, ok: bool)

  /** Each frame starts where the one before it ends; a frame that is missing or
      has no packets throws. */
  function AssignFrom(store: Store, ids: seq<Id>, d: uint32, k: nat, t: uint64): Timed
    requires k <= |ids|
    decreases |ids| - k
  {
    if k == |ids| then Timed(store, true)
    else if ids[k] !in store || store[ids[k]].packets == [] then Timed(store, false)
    else
      var f := store[ids[k]];
      AssignFrom(store[ids[k] := f.(start := t)], ids, d, k + 1, (t + d * |f.packets|) % U64)
  }

  lemma AssignUnfold(store: Store, ids: seq<Id>, d: uint32, k: nat, t: uint64)
    requires k <= |ids|
    ensures AssignFrom(store, ids, d, k, t) ==
      if k == |ids| then Timed(store, true)
      else if ids[k] !in store || |store[ids[k]].packets| == 0 then Timed(store, false)
      else AssignFrom(store[ids[k] := store[ids[k]].(start := t)], ids, d, k + 1,
                      (t + d * |store[ids[k]].packets|) % U64)
  {
  }

  /** The first frame from `k` on that is missing or has no packets. */
  function FirstEmpty(store: Store, ids: seq<Id>, k: nat): (n: nat)
    requires k <= |ids|
    ensures k <= n <= |ids|
    ensures forall j :: k <= j < n ==> ids[j] in store && store[ids[j]].packets != []
    ensures n < |ids| ==> ids[n] !in store || store[ids[n]].packets == []
    decreases |ids| - k
  {
    if k == |ids| || ids[k] !in store || store[ids[k]].packets == [] then k else FirstEmpty(store, ids, k + 1)
  }

  function PacketCount(store: Store, id: Id): nat {
    if id in store then |store[id].packets| else 0
  }

  /** The start time of frame `k`: 64-bit sums of the durations before it. */
  function StartAt(store: Store, ids: seq<Id>, d: uint32, start: uint64, k: nat): uint64
    requires k <= |ids|
  {
    if k == 0 then start else (StartAt(store, ids, d, start, k - 1) + d * PacketCount(store, ids[k - 1])) % U64
  }

  function Starts(store: Store, ids: seq<Id>, d: uint32, start: uint64): (r: seq<uint64>)
    ensures |r| == |ids|
  {
    seq(|ids|, k requires 0 <= k < |ids| => StartAt(store, ids, d, start, k))
  }

  /** The first `n` frames have these start times; nothing else has changed. */
  ghost predicate AssignedUpTo(before: Store, now: Store, ids: seq<Id>, starts: seq<uint64>, n: nat)
    requires n <= |ids| == |starts|
  {
    && now.Keys == before.Keys
    && (forall k :: 0 <= k < n ==> ids[k] in before && now[ids[k]] == before[ids[k]].(start := starts[k]))
    && (forall id :: id in before && id !in ids[..n] ==> now[id] == before[id])
  }

  lemma AssignedStep(before: Store, now: Store, ids: seq<Id>, starts: seq<uint64>, n: nat)
    requires n < |ids| == |starts| && Distinct(ids) && ids[n] in before
    requires AssignedUpTo(before, now, ids, starts, n)
    ensures ids[n] in now && now[ids[n]] == before[ids[n]]
    ensures AssignedUpTo(before, now[ids[n] := before[ids[n]].(start := starts[n])], ids, starts, n + 1)
  {
    hide Distinct;
    NotBefore(ids, n);
  }

  lemma AssignedStops(before: Store, now: Store, ids: seq<Id>, starts: seq<uint64>, n: nat)
    requires n < |ids| == |starts| && Distinct(ids) && AssignedUpTo(before, now, ids, starts, n)
    ensures ids[n] in now <==> ids[n] in before
    ensures ids[n] in before ==> now[ids[n]] == before[ids[n]]
  {
    hide Distinct;
    NotBefore(ids, n);
  }

  lemma StartsNext(store: Store, ids: seq<Id>, d: uint32, start: uint64, k: nat)
    requires k < |ids|
    ensures var starts := Starts(store, ids, d, start);
      && starts[0] == start
      && (k + 1 < |ids| ==> starts[k + 1] == (starts[k] + d * PacketCount(store, ids[k])) % U64)
  {
  }

  lemma {:induction false} AssignFromStarts(before: Store, now: Store, ids: seq<Id>, d: uint32, start: uint64, k: nat,
                                            t: uint64)
    requires k <= |ids| && Distinct(ids) && (k < |ids| ==> t == Starts(before, ids, d, start)[k])
    requires AssignedUpTo(before, now, ids, Starts(before, ids, d, start), k)
    ensures var n, done := FirstEmpty(before, ids, k), AssignFrom(now, ids, d, k, t);
      && (done.ok <==> n == |ids|)
      && AssignedUpTo(before, done.store, ids, Starts(before, ids, d, start), n)
    decreases |ids| - k
  {
    hide AssignedUpTo, Distinct, Starts;
    if k < |ids| {
      var starts := Starts(before, ids, d, start);
      AssignedStops(before, now, ids, starts, k);
      if ids[k] in before && before[ids[k]].packets != [] {
        AssignedStep(before, now, ids, starts, k);
        StartsNext(before, ids, d, start, k);
        var next := now[ids[k] := before[ids[k]].(start := t)];
        AssignFromStarts(before, next, ids, d, start, k + 1, (t + d * |before[ids[k]].packets|) % U64);
      }
    }
  }

  lemma NothingAssigned(before: Store, ids: seq<Id>, d: uint32, start: uint64)
    ensures AssignedUpTo(before, before, ids, Starts(before, ids, d, start), 0)
    ensures |ids| > 0 ==> Starts(before, ids, d, start)[0] == start
  {
  }

  /** The loop fails exactly when some frame is missing or has no packets; every
      frame before the first such frame has its start time, whatever the sizes
      of the frames, and nothing else has changed. */
  lemma AssignStarts(before: Store, ids: seq<Id>, d: uint32, start: uint64)
    requires Distinct(ids)
    ensures var n, done := FirstEmpty(before, ids, 0), AssignFrom(before, ids, d, 0, start);
      && (done.ok <==> forall j :: 0 <= j < |ids| ==> ids[j] in before && before[ids[j]].packets != [])
      && AssignedUpTo(before, done.store, ids, Starts(before, ids, d, start), n)
  {
    hide AssignedUpTo, Distinct, AssignFrom, Starts;
    NothingAssigned(before, ids, d, start);
    AssignFromStarts(before, before, ids, d, start, 0, start);
  }

  /** Frames of equal size start one whole frame apart. */
  lemma {:induction false} EvenStarts(store: Store, ids: seq<Id>, d: uint32, start: uint64, s: nat, k: nat)
    requires k < |ids| && forall j :: 0 <= j < |ids| - 1 ==> PacketCount(store, ids[j]) == s
    ensures Starts(store, ids, d, start)[k] == FrameStart(start, d * s, k)
  {
    hide FrameStart, PacketCount, Starts;
    StartsNext(store, ids, d, start, if k == 0 then 0 else k - 1);
    if k == 0 {
      StartOfFirst(start, d * s);
    } else {
      EvenStarts(store, ids, d, start, s, k - 1);
      StartOfNext(start, d, s, k - 1);
    }
  }

  lemma StartOfFirst(start: uint64, frameTime: nat)
    ensures FrameStart(start, frameTime, 0) == start
  {
  }

  lemma StartOfNext(start: uint64, d: uint32, s: nat, k: nat)
    ensures FrameStart(start, d * s, k + 1) == (FrameStart(start, d * s, k) + d * s) % U64
  {
    WrapAdd(start + k * (d * s), d * s);
    assert (k + 1) * (d * s) == k * (d * s) + d * s;
  }

  lemma WrapAdd(a: nat, b: nat)
    ensures (a + b) % U64 == (a % U64 + b) % U64
  {
    var q, c := a / U64, a % U64 + b;
    QuotientIs(a + b, U64, q + c / U64, c % U64);
  }

  lemma FrameTimes(start: uint64, frameTime: nat, k: nat, n: nat)
    requires k < n && start + n * frameTime < U64
    ensures FrameStart(start, frameTime, k) == start + k * frameTime
    ensures start + k * frameTime + frameTime == start + (k + 1) * frameTime < U64
  {
    MultiplyMonotone(frameTime, k + 1, n);
    assert (k + 1) * frameTime == k * frameTime + frameTime;
  }

  lemma LoadedFrame(store: Store, ids: seq<Id>, packets: seq<Packet>, d: uint32, s: nat, start: uint64, k: nat)
    requires s >= 1 && Loaded(store, ids, packets, d, s, start) && start + |ids| * (d * s) < U64
    requires k < |ids|
    ensures store[ids[k]].start == start + k * (d * s)
    ensures store[ids[k]].start + store[ids[k]].ttl < U64
    ensures store[ids[k]].End() == start + k * (d * s) + (d * s) % U32
  {
    hide Chunks, FrameStart;
    FrameTimes(start, d * s, k, |ids|);
  }

  lemma LoadedNext(store: Store, ids: seq<Id>, packets: seq<Packet>, d: uint32, s: nat, start: uint64, k: nat)
    requires s >= 1 && Loaded(store, ids, packets, d, s, start) && start + |ids| * (d * s) < U64
    requires k < |ids| - 1
    ensures store[ids[k + 1]].start == store[ids[k]].End() - (d * s) % U32 + d * s
  {
    hide Loaded, FrameStart;
    LoadedStored(store, ids, packets, d, s, start);
    LoadedFrame(store, ids, packets, d, s, start, k);
    LoadedFrame(store, ids, packets, d, s, start, k + 1);
    assert (k + 1) * (d * s) == k * (d * s) + d * s;
  }

  /** Frames that each start a frame time after the one before, and end after
      that time modulo 2^32, meet exactly when the time is below 2^32. */
  lemma FramesMeet(store: Store, ids: seq<Id>, frameTime: nat)
    requires Stored(store, ids)
    requires forall k :: 0 <= k < |ids| ==> store[ids[k]].start + store[ids[k]].ttl < U64
    requires forall k :: 0 <= k < |ids| - 1 ==>
      store[ids[k + 1]].start == store[ids[k]].End() - frameTime % U32 + frameTime
    ensures Contiguous(store, ids) <==> frameTime < U32 || |ids| <= 1
    ensures Sorted(store, ids)
  {
    assert frameTime % U32 <= frameTime;
    if Contiguous(store, ids) && |ids| > 1 {
      assert store[ids[0]].End() == store[ids[0 + 1]].start;
    }
  }

  /** Consecutive frames meet exactly when a whole frame fits the 32-bit time to
      live, or there is at most one frame. */
  lemma LoadedIsContiguous(store: Store, ids: seq<Id>, packets: seq<Packet>, d: uint32, s: nat, start: uint64)
    requires s >= 1 && Loaded(store, ids, packets, d, s, start) && start + |ids| * (d * s) < U64
    ensures Contiguous(store, ids) <==> d * s < U32 || |ids| <= 1
    ensures Sorted(store, ids)
  {
    hide Loaded, FrameStart, Contiguous, Sorted;
    LoadedStored(store, ids, packets, d, s, start);
    forall k | 0 <= k < |ids|
      ensures store[ids[k]].start + store[ids[k]].ttl < U64
    {
      LoadedFrame(store, ids, packets, d, s, start, k);
    }
    forall k | 0 <= k < |ids| - 1
      ensures store[ids[k + 1]].start == store[ids[k]].End() - (d * s) % U32 + d * s
    {
      LoadedNext(store, ids, packets, d, s, start, k);
    }
    FramesMeet(store, ids, d * s);
  }

  lemma LoadedStored(store: Store, ids: seq<Id>, packets: seq<Packet>, d: uint32, s: nat, start: uint64)
    requires s >= 1 && Loaded(store, ids, packets, d, s, start)
    ensures Stored(store, ids) && |ids| == |Chunks(packets, s)|
  {
  }

  lemma FrameOfTime(x: nat, d: nat, s: nat, frameTime: nat)
    requires d >= 1 && s >= 1 && frameTime == d * s
    ensures frameTime >= 1 && x / frameTime == (x / d) / s
    ensures ((x / d) / s) * frameTime <= x < ((x / d) / s) * frameTime + frameTime
  {
    FrameOfDigits(x, d, s, frameTime, x / d, x % d, (x / d) / s, (x / d) % s);
  }

  lemma FrameOfDigits(x: nat, d: nat, s: nat, frameTime: nat, j: nat, u: nat, k: nat, r: nat)
    requires frameTime == d * s
    requires x == d * j + u && u < d && j == s * k + r && r < s
    ensures frameTime >= 1 && x / frameTime == k
    ensures k * frameTime <= x < k * frameTime + frameTime
  {
    Regroup(d, s, k, r, u);
    var rest := d * r + u;
    assert x == frameTime * k + rest;
    QuotientIs(x, frameTime, k, rest);
  }

  lemma Regroup(d: nat, s: nat, k: nat, r: nat, u: nat)
    requires r < s && u < d
    ensures d * (s * k + r) + u == (d * s) * k + (d * r + u)
    ensures d * r + u < d * s
  {
    MultiplyMonotone(d, r + 1, s);
    assert d * (r + 1) == d * r + d;
    assert d * (s * k + r) == d * (s * k) + d * r;
    assert d * (s * k) == (d * s) * k;
  }

  lemma OnlyFrame(x: nat, frameTime: nat, k: nat, q: nat)
    requires k * frameTime < x < (k + 1) * frameTime
    requires q * frameTime <= x <= (q + 1) * frameTime
    ensures q == k
  {
    MultiplyMonotone(frameTime, q + 1, k);
    MultiplyMonotone(frameTime, k + 1, q);
  }

  /** Frames on the clock, linked: a timeline without gaps. */
  lemma LoadedIsTimeline(store: Store, ids: seq<Id>, packets: seq<Packet>, d: uint32, s: nat, start: uint64, t: uint64)
    requires s >= 1 && d * s < U32 && Loaded(store, ids, packets, d, s, start) && start + |ids| * (d * s) < U64
    requires AllValid(ids) && Distinct(ids) && BlankId() !in ids && IsLinked(store, ids, LINK_DEPTH)
    ensures Timeline(store, ids, LINK_DEPTH) && !InGap(store, ids, t)
  {
    hide Loaded, IsLinked, AllValid, Distinct, Sorted, InGap, Contiguous;
    LoadedStored(store, ids, packets, d, s, start);
    LoadedIsContiguous(store, ids, packets, d, s, start);
    ContiguousHasNoGaps(store, ids, t);
  }

  predicate OnBoundary(x: nat, frameTime: nat) {
    frameTime >= 1 && x % frameTime == 0
  }

  /** The seek has found the frame numbered `x / d / s`, which holds the packet
      numbered `x / d` at place `(x / d) % s`. */
  predicate FindsPacket(store: Store, ids: seq<Id>, packets: seq<Packet>, d: nat, s: nat, x: nat, o: Outcome)
    requires d >= 1 && s >= 1
  {
    var j := x / d;
    && o.Found? && j < |packets|
    && j / s < |ids| && o.id == ids[j / s] && o.id in store
    && j % s < |store[o.id].packets| && store[o.id].packets[j % s] == packets[j]
  }

  lemma LoadedCovers(store: Store, ids: seq<Id>, packets: seq<Packet>, d: uint32, s: nat, start: uint64,
                     k: nat, t: uint64, frameTime: nat)
    requires s >= 1 && d * s == frameTime < U32 && Loaded(store, ids, packets, d, s, start)
    requires start + |ids| * frameTime < U64 && k < |ids| && start <= t
    ensures ids[k] in store
    ensures store[ids[k]].Covers(t) <==> k * frameTime <= t - start <= (k + 1) * frameTime
  {
    hide Loaded;
    LoadedStored(store, ids, packets, d, s, start);
    LoadedFrame(store, ids, packets, d, s, start, k);
    assert (k + 1) * frameTime == k * frameTime + frameTime;
  }

  lemma SeekFindsFrame(store: Store, ids: seq<Id>, packets: seq<Packet>, d: uint32, s: nat, start: uint64,
                       i: nat, t: uint64, iterations: nat, k: nat, frameTime: nat)
    requires s >= 1 && d * s == frameTime < U32 && Loaded(store, ids, packets, d, s, start)
    requires start + |ids| * frameTime < U64
    requires AllValid(ids) && Distinct(ids) && BlankId() !in ids && IsLinked(store, ids, LINK_DEPTH)
    requires i < |ids| && iterations >= |ids| + i + 1
    requires k < |ids| && start <= t && k * frameTime < t - start < (k + 1) * frameTime
    ensures var o := SeekRun(store, ids[i], t, iterations);
      o.Found? && o.id == ids[k]
  {
    hide SeekRun, Timeline, InGap, IsLinked, AllValid, Distinct, Loaded, Sorted;
    LoadedStored(store, ids, packets, d, s, start);
    LoadedIsTimeline(store, ids, packets, d, s, start, t);
    LoadedCovers(store, ids, packets, d, s, start, k, t, frameTime);
    assert SomeCovers(store, ids, t);
    SeekIsCorrect(store, ids, LINK_DEPTH, i, t, iterations);
    var o := SeekRun(store, ids[i], t, iterations);
    var q :| 0 <= q < |ids| && ids[q] == o.id;
    LoadedCovers(store, ids, packets, d, s, start, q, t, frameTime);
    OnlyFrame(t - start, frameTime, k, q);
  }

  lemma SeekFindsPacketAt(store: Store, ids: seq<Id>, packets: seq<Packet>, d: uint32, s: nat, start: uint64,
                          i: nat, t: uint64, iterations: nat, frameTime: nat, j: nat, k: nat, r: nat)
    requires s >= 1 && d * s == frameTime < U32 && Loaded(store, ids, packets, d, s, start)
    requires start + |ids| * frameTime < U64
    requires AllValid(ids) && Distinct(ids) && BlankId() !in ids && IsLinked(store, ids, LINK_DEPTH)
    requires i < |ids| && iterations >= |ids| + i + 1
    requires j < |packets| && k < |Chunks(packets, s)| && r < |Chunks(packets, s)[k]|
    requires Chunks(packets, s)[k][r] == packets[j]
    requires start <= t && k * frameTime < t - start < (k + 1) * frameTime
    ensures k < |ids|
    ensures var o := SeekRun(store, ids[i], t, iterations);
      && o.Found? && o.id == ids[k] && o.id in store
      && r < |store[o.id].packets| && store[o.id].packets[r] == packets[j]
  {
    hide SeekRun, IsLinked, AllValid, Distinct, Loaded, Chunks;
    LoadedStored(store, ids, packets, d, s, start);
    LoadedPackets(store, ids, packets, d, s, start, k);
    SeekFindsFrame(store, ids, packets, d, s, start, i, t, iterations, k, frameTime);
  }

  /** End to end: from any frame of the loaded stream, seeking to a time of the
      stream that is not on a frame boundary finds the frame that holds the
      packet of that time, at the packet's place in the frame. */
  lemma SeekFindsPacket(store: Store, ids: seq<Id>, packets: seq<Packet>, d: uint32, s: nat, start: uint64,
                        i: nat, t: uint64, iterations: nat)
    requires d >= 1 && s >= 1 && d * s < U32 && Loaded(store, ids, packets, d, s, start)
    requires start + |ids| * (d * s) < U64
    requires AllValid(ids) && Distinct(ids) && BlankId() !in ids && IsLinked(store, ids, LINK_DEPTH)
    requires i < |ids| && iterations >= |ids| + i + 1
    requires start <= t < start + |packets| * d && !OnBoundary(t - start, d * s)
    ensures FindsPacket(store, ids, packets, d, s, t - start, SeekRun(store, ids[i], t, iterations))
  {
    hide SeekRun, IsLinked, AllValid, Distinct, Loaded, OnBoundary, Chunks;
    var x, frameTime := t - start, d * s;
    var j := x / d;
    PacketOfTime(x, d, |packets|);
    FrameOfTime(x, d, s, frameTime);
    ChunkAt(packets, s, j);
    NotOnBoundary(x, frameTime, j / s);
    SeekFindsPacketAt(store, ids, packets, d, s, start, i, t, iterations, frameTime, j, j / s, j % s);
  }

  lemma LoadedPackets(store: Store, ids: seq<Id>, packets: seq<Packet>, d: uint32, s: nat, start: uint64, k: nat)
    requires s >= 1 && Loaded(store, ids, packets, d, s, start) && k < |ids|
    ensures ids[k] in store && k < |Chunks(packets, s)| && store[ids[k]].packets == Chunks(packets, s)[k]
  {
    hide Chunks, FrameStart;
  }

  lemma PacketOfTime(x: nat, d: nat, n: nat)
    requires d >= 1 && x < n * d
    ensures x / d < n
  {
    MultiplyMonotone(d, n, x / d);
  }

  lemma NotOnBoundary(x: nat, frameTime: nat, k: nat)
    requires frameTime >= 1 && !OnBoundary(x, frameTime) && k * frameTime <= x < k * frameTime + frameTime
    ensures k * frameTime < x < (k + 1) * frameTime
  {
    QuotientIs(x, frameTime, k, x - k * frameTime);
    assert (k + 1) * frameTime == k * frameTime + frameTime;
  }
}
