// The time seek over linked frames (src/tv/tv_frame_standard.h:58-121).

module Seek {
  import opened Bytes
  import opened Ids
  import opened IdSets
  import opened Frames

  // ----- one iteration and many -----

  datatype Step = Stay | Back(id: Id) | Forward(id: Id) | Stop | Throw

  /** One iteration: stay on a frame that covers the time, else follow the first
      forward or the first backward link; a link to nothing stops. */
  function SeekStep(store: Store, id: Id, t: uint64): (step: Step)
    requires id in store
    ensures step.Back? || step.Forward? ==> step.id in store
  {
    var f := store[id];
    if f.Covers(t) then Stay
    else match GetLinks(f)
      case Err => Throw
      case Ok(links) =>
        var goForward := t > f.End();
        var list := if goForward then links.1 else links.0;
        if list == [] || list[0] == BlankId() || list[0] !in store then Stop
        else if GetLinks(store[list[0]]).Err? then Throw
        else if goForward then Forward(list[0]) else Back(list[0])
  }

  /** The frame found and the links followed to it, or how else the loop ended;
      `Running` when it has not ended yet. */
  datatype Outcome = Found(id: Id, back: nat, forward: nat) | NotFound | Threw | Running

  function SeekRun(store: Store, id: Id, t: uint64, iterations: nat): Outcome
    requires id in store
    decreases iterations
  {
    if iterations == 0 then Running
    else match SeekStep(store, id, t)
      case Stay => Found(id, 0, 0)
      case Stop => NotFound
      case Throw => Threw
      case Back(next) => Count(SeekRun(store, next, t, iterations - 1), 1, 0)
      case Forward(next) => Count(SeekRun(store, next, t, iterations - 1), 0, 1)
  }

  function Count(o: Outcome, back: nat, forward: nat): Outcome {
    if o.Found? then Found(o.id, o.back + back, o.forward + forward) else o
  }

  // ----- timelines -----

  /** Frames in order of time; between two of them time may be missing. */
  predicate Sorted(store: Store, v: seq<Id>)
    requires Stored(store, v)
  {
    && (forall i :: 0 <= i < |v| ==> store[v[i]].start + store[v[i]].ttl < U64)
    && forall i :: 0 <= i < |v| - 1 ==> store[v[i]].End() <= store[v[i + 1]].start
  }

  predicate Timeline(store: Store, v: seq<Id>, depth: nat) {
    && depth >= 1 && AllValid(v) && Distinct(v) && BlankId() !in v
    && IsLinked(store, v, depth)
    && Sorted(store, v)
  }

  /** The time lies strictly between two neighbouring frames. */
  predicate InGap(store: Store, v: seq<Id>, t: uint64)
    requires Stored(store, v)
  {
    exists g :: 0 <= g < |v| - 1 && store[v[g]].End() < t < store[v[g + 1]].start
  }

  predicate Contiguous(store: Store, v: seq<Id>)
    requires Stored(store, v)
  {
    forall i :: 0 <= i < |v| - 1 ==> store[v[i]].End() == store[v[i + 1]].start
  }

  lemma {:induction false} InOrder(store: Store, v: seq<Id>, i: nat, j: nat)
    requires i <= j < |v| && Stored(store, v) && Sorted(store, v)
    ensures store[v[i]].start <= store[v[j]].start && store[v[i]].End() <= store[v[j]].End()
    ensures store[v[i]].start <= store[v[i]].End()
    ensures i < j ==> store[v[i]].End() <= store[v[j]].start
    decreases j - i
  {
    if i < j {
      InOrder(store, v, i, j - 1);
      InOrder(store, v, j, j);
    }
  }

  /** On a timeline forward links step one frame and backward links jump `depth`
      frames or to the first frame. */
  lemma StepAt(store: Store, v: seq<Id>, depth: nat, i: nat, t: uint64)
    requires i < |v| && Timeline(store, v, depth)
    ensures v[i] in store
    ensures SeekStep(store, v[i], t) ==
      if store[v[i]].Covers(t) then Stay
      else if t > store[v[i]].End() then if i == |v| - 1 then Stop else Forward(v[i + 1])
      else if i == 0 then Stop else Back(v[Max(0, i - depth)])
  {
    hide GetLinks, WithLinks, ValidId, Sorted, Distinct;
    LinksAt(store, v, depth, i);
    if i < |v| - 1 {
      LinksAt(store, v, depth, i + 1);
    }
    if i > 0 {
      LinksAt(store, v, depth, Max(0, i - depth));
    }
  }

  lemma LinksAt(store: Store, v: seq<Id>, depth: nat, i: nat)
    requires i < |v| && Timeline(store, v, depth)
    ensures v[i] in store && v[i] != BlankId()
    ensures GetLinks(store[v[i]]) == Ok((Before(v, i, depth), After(v, i, depth)))
  {
    hide GetLinks, WithLinks, Before, After, ValidId, Sorted, Distinct;
    GetNeighbours(store[v[i]], v, i, depth);
    assert v[i] in v;
  }

  // ----- the forward phase -----

  /** The first frame from `i` on that ends at or after the time. */
  function FirstEnding(store: Store, v: seq<Id>, i: nat, t: uint64): (k: nat)
    requires i <= |v| && Stored(store, v)
    ensures i <= k <= |v|
    ensures forall j :: i <= j < k ==> store[v[j]].End() < t
    ensures k < |v| ==> t <= store[v[k]].End()
    decreases |v| - i
  {
    if i == |v| || t <= store[v[i]].End() then i else FirstEnding(store, v, i + 1, t)
  }

  /** Once at or past the start of a frame, the seek only steps forward and stops
      at the first frame that ends late enough. */
  lemma {:induction false} SeekForward(store: Store, v: seq<Id>, depth: nat, i: nat, t: uint64, iterations: nat)
    requires i < |v| && Timeline(store, v, depth)
    requires store[v[i]].start <= t && !InGap(store, v, t) && iterations >= |v| - i
    ensures var k := FirstEnding(store, v, i, t);
      if k < |v| then SeekRun(store, v[i], t, iterations) == Found(v[k], 0, k - i) && store[v[k]].Covers(t)
      else SeekRun(store, v[i], t, iterations) == NotFound
    decreases |v| - i
  {
    hide SeekStep, Timeline, FrameData.End;
    assert Stored(store, v) && Sorted(store, v) by { TimelineParts(store, v, depth); }
    StepAt(store, v, depth, i, t);
    if t > store[v[i]].End() && i < |v| - 1 {
      assert store[v[i + 1]].start <= t;
      SeekForward(store, v, depth, i + 1, t, iterations - 1);
    }
  }

  lemma TimelineParts(store: Store, v: seq<Id>, depth: nat)
    requires Timeline(store, v, depth)
    ensures depth >= 1 && Stored(store, v) && Sorted(store, v)
  {
  }

  // ----- the backward phase -----

  /** How many jumps of `depth` frames lead from frame `i` to the first one. */
  function Jumps(i: nat, depth: nat): nat
    requires depth >= 1
  {
    if i == 0 then 0 else 1 + Jumps(Max(0, i - depth), depth)
  }

  lemma {:induction false} JumpsIsCeiling(i: nat, depth: nat)
    requires depth >= 1
    ensures Jumps(i, depth) == (i + depth - 1) / depth
  {
    if i > depth {
      JumpsIsCeiling(i - depth, depth);
      QuotientIs(i + depth - 1, depth, (i - 1) / depth + 1, (i - 1) % depth);
    } else if i > 0 {
      QuotientIs(i + depth - 1, depth, 1, i - 1);
    } else {
      QuotientIs(depth - 1, depth, 0, depth - 1);
    }
  }

  /** Seeking back from frame `i` lands before it, after at most ceil(i / depth)
      backward links and then at most depth - 1 forward links; a time before the
      first frame is not found. */
  lemma {:induction false} SeekBack(store: Store, v: seq<Id>, depth: nat, i: nat, t: uint64, iterations: nat)
    requires i < |v| && Timeline(store, v, depth)
    requires t < store[v[i]].start && !InGap(store, v, t) && iterations >= |v| + i + 1
    ensures var o := SeekRun(store, v[i], t, iterations);
      if store[v[0]].start <= t
      then o.Found? && o.id in v && o.id in store && store[o.id].Covers(t)
        && o.back <= Jumps(i, depth) && o.forward <= depth - 1
      else o == NotFound
    decreases i
  {
    hide SeekStep, Timeline, FrameData.End;
    TimelineParts(store, v, depth);
    StepAt(store, v, depth, i, t);
    InOrder(store, v, i, i);
    if i > 0 {
      var j := Max(0, i - depth);
      if t < store[v[j]].start {
        SeekBack(store, v, depth, j, t, iterations - 1);
      } else {
        InOrder(store, v, 0, j);
        assert t <= store[v[i - 1]].End();
        SeekForward(store, v, depth, j, t, iterations - 1);
      }
    }
  }

  lemma RewindHopBound(store: Store, v: seq<Id>, depth: nat, i: nat, t: uint64, iterations: nat)
    requires i < |v| && Timeline(store, v, depth) && !InGap(store, v, t)
    requires store[v[0]].start <= t < store[v[i]].start && iterations >= |v| + i + 1
    ensures var o := SeekRun(store, v[i], t, iterations);
      o.Found? && o.id in v && store[o.id].Covers(t)
      && o.back <= (i + depth - 1) / depth && o.forward <= depth - 1
  {
    hide SeekRun, Timeline;
    TimelineParts(store, v, depth);
    SeekBack(store, v, depth, i, t, iterations);
    JumpsIsCeiling(i, depth);
  }

  // ----- the seek -----

  predicate SomeCovers(store: Store, v: seq<Id>, t: uint64)
    requires Stored(store, v)
  {
    exists k :: 0 <= k < |v| && store[v[k]].Covers(t)
  }

  /** Outside the gaps, from any frame, the seek ends on a frame that covers the
      time if there is one, and otherwise finds nothing. */
  lemma SeekIsCorrect(store: Store, v: seq<Id>, depth: nat, i: nat, t: uint64, iterations: nat)
    requires i < |v| && Timeline(store, v, depth) && !InGap(store, v, t) && iterations >= |v| + i + 1
    ensures var o := SeekRun(store, v[i], t, iterations);
      if SomeCovers(store, v, t) then o.Found? && o.id in v && o.id in store && store[o.id].Covers(t)
      else o == NotFound
  {
    hide SeekRun, Timeline;
    TimelineParts(store, v, depth);
    if t < store[v[i]].start {
      SeekBack(store, v, depth, i, t, iterations);
      if SomeCovers(store, v, t) {
        var k :| 0 <= k < |v| && store[v[k]].Covers(t);
        InOrder(store, v, 0, k);
      }
    } else {
      SeekForward(store, v, depth, i, t, iterations);
      if SomeCovers(store, v, t) {
        var k :| 0 <= k < |v| && store[v[k]].Covers(t);
        InOrder(store, v, k, |v| - 1);
      }
    }
  }

  lemma GapStep(store: Store, v: seq<Id>, depth: nat, i: nat, t: uint64)
    requires i < |v| && Timeline(store, v, depth) && InGap(store, v, t)
    ensures v[i] in store
    ensures (i < |v| - 1 && SeekStep(store, v[i], t) == Forward(v[i + 1]))
         || (i > 0 && SeekStep(store, v[i], t) == Back(v[Max(0, i - depth)]))
  {
    hide SeekStep, Timeline;
    TimelineParts(store, v, depth);
    var g :| 0 <= g < |v| - 1 && store[v[g]].End() < t < store[v[g + 1]].start;
    StepAt(store, v, depth, i, t);
    if i <= g {
      InOrder(store, v, i, g);
    } else {
      InOrder(store, v, g + 1, i);
    }
  }

  /** Inside a gap the seek goes back and forth for ever. */
  lemma {:induction false} GapNeverEnds(store: Store, v: seq<Id>, depth: nat, i: nat, t: uint64, iterations: nat)
    requires i < |v| && Timeline(store, v, depth) && InGap(store, v, t)
    ensures SeekRun(store, v[i], t, iterations) == Running
    decreases iterations
  {
    hide SeekStep, Timeline, InGap;
    TimelineParts(store, v, depth);
    if iterations > 0 {
      GapStep(store, v, depth, i, t);
      if i < |v| - 1 {
        GapNeverEnds(store, v, depth, i + 1, t, iterations - 1);
      }
      GapNeverEnds(store, v, depth, Max(0, i - depth), t, iterations - 1);
    }
  }

  /** The seek ends exactly for the times that lie in no gap. */
  lemma SeekEndsExactly(store: Store, v: seq<Id>, depth: nat, i: nat, t: uint64)
    requires i < |v| && Timeline(store, v, depth)
    ensures (exists n :: SeekRun(store, v[i], t, n) != Running) <==> !InGap(store, v, t)
  {
    hide SeekRun, Timeline, InGap;
    TimelineParts(store, v, depth);
    if InGap(store, v, t) {
      forall n: nat
        ensures SeekRun(store, v[i], t, n) == Running
      {
        GapNeverEnds(store, v, depth, i, t, n);
      }
    } else {
      SeekIsCorrect(store, v, depth, i, t, |v| + i + 1);
      assert SeekRun(store, v[i], t, |v| + i + 1) != Running;
    }
  }

  /** Contiguous frames have no gaps, so every seek over them ends. */
  lemma ContiguousHasNoGaps(store: Store, v: seq<Id>, t: uint64)
    requires Stored(store, v) && Contiguous(store, v)
    ensures !InGap(store, v, t)
  {
  }

  // ----- a concrete gap -----

  function ExampleFrameId(uuid: byte): Id {
    [uuid] + Zeros(40)
  }

  lemma ExampleFrameIdIsValid(uuid: byte)
    requires uuid != 0
    ensures ValidId(ExampleFrameId(uuid)) && ExampleFrameId(uuid) != BlankId()
  {
    var id := ExampleFrameId(uuid);
    assert id[0] == uuid && id[..8][0] == uuid && BlankId()[0] == 0;
  }

  function FreshFrame(start: uint64, ttl: uint32): FrameData {
    FrameData(start, ttl, 0, [], [], [])
  }

  lemma TwoFramesLinked(store: Store, a: Id, b: Id)
    requires a != b && a in store && b in store && Fresh(store, [a, b]) && ValidId(a) && ValidId(b)
    ensures var done := LinkVector(store, [a, b], 10);
      && done.ok && IsLinked(done.store, [a, b], 10) && Stored(done.store, [a, b])
      && done.store[a].start == store[a].start && done.store[a].ttl == store[a].ttl
      && done.store[b].start == store[b].start && done.store[b].ttl == store[b].ttl
  {
    hide Compact, Before, After, ValidId, LinkVector;
    var v := [a, b];
    assert AllValid(v) && Distinct(v) && Stored(store, v);
    LinkVectorLinks(store, v, 10);
    LinkedUpToIsLinked(store, LinkVector(store, v, 10).store, v, 10);
    assert v[0] == a && v[1] == b;
  }

  /** A concrete seek that never ends: two frames from 0 to 1 and from 10 to 11,
      linked, and the time 5. */
  lemma GapExists(n: nat)
    ensures
      var a, b := ExampleFrameId(1), ExampleFrameId(2);
      var done := LinkVector(map[a := FreshFrame(0, 1), b := FreshFrame(10, 1)], [a, b], 10);
      && done.ok && Timeline(done.store, [a, b], 10) && InGap(done.store, [a, b], 5)
      && a in done.store && SeekRun(done.store, a, 5, n) == Running
  {
    hide ExampleFrameId, LinkVector, IsLinked, SeekRun, ValidId;
    var a, b := ExampleFrameId(1), ExampleFrameId(2);
    ExampleFrameIdIsValid(1);
    ExampleFrameIdIsValid(2);
    ExamplesDiffer();
    var store := map[a := FreshFrame(0, 1), b := FreshFrame(10, 1)];
    TwoFramesLinked(store, a, b);
    var done, v := LinkVector(store, [a, b], 10), [a, b];
    assert v[0] == a && v[1] == b && AllValid(v) && BlankId() !in v;
    assert done.store[v[0]].End() < 5 < done.store[v[0 + 1]].start;
    GapNeverEnds(done.store, v, 10, 0, 5, n);
  }

  lemma ExamplesDiffer()
    ensures ExampleFrameId(1) != ExampleFrameId(2)
  {
    assert ExampleFrameId(1)[0] == 1 && ExampleFrameId(2)[0] == 2;
  }
}
