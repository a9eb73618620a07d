// The frame history of an item (src/tv/tv_item.cpp:12-46): packed identifier
// lists, escaped one after the other into one byte vector.

module TvItems {
  import opened Bytes
  import opened Ids
  import opened IdSets
  import opened Escape

  const ESCAPE: byte := 0x80

  function CompactEach(lists: seq<seq<Id>>): seq<seq<byte>> {
    if lists == [] then [] else [Compact(lists[0])] + CompactEach(lists[1..])
  }

  function ExpandEach(sets: seq<seq<byte>>): Result<seq<seq<Id>>> {
    if sets == [] then Ok([])
    else
      var first :- Expand(sets[0]);
      Joined([first], ExpandEach(sets[1..]))
  }

  function FrameIdVector(frameSets: seq<byte>): Result<seq<seq<Id>>> {
    var (sets, _) :- UnescapeAll(frameSets, ESCAPE);
    ExpandEach(sets)
  }

  predicate EachValid(lists: seq<seq<Id>>) {
    forall ids :: ids in lists ==> AllValid(ids)
  }

  lemma {:induction false} ExpandCompacted(lists: seq<seq<Id>>)
    ensures ExpandEach(DropEmpty(CompactEach(lists))) ==
      if EachValid(lists) then Ok(DropEmpty(lists)) else Err
  {
    hide Compact, Expand, AllValid, DropEmpty;
    NothingToDrop();
    if lists != [] {
      ExpandCompacted(lists[1..]);
      CompactRoundTrip(lists[0]);
      EmptyCompacts(lists[0]);
      DropEmptyCons(lists[0], lists[1..]);
      DropEmptyCons(Compact(lists[0]), CompactEach(lists[1..]));
      assert lists == [lists[0]] + lists[1..];
      assert EachValid(lists) <==> AllValid(lists[0]) && EachValid(lists[1..]);
      var later := DropEmpty(CompactEach(lists[1..]));
      assert ([Compact(lists[0])] + later)[1..] == later;
    }
  }

  lemma NothingToDrop()
    ensures DropEmpty<byte>([]) == [] && DropEmpty<Id>([]) == []
  {
  }

  lemma DropEmptyCons<T>(first: seq<T>, later: seq<seq<T>>)
    ensures DropEmpty([first] + later) == (if first == [] then [] else [first]) + DropEmpty(later)
    ensures first == [] ==> DropEmpty([first] + later) == DropEmpty(later)
  {
    assert ([first] + later)[1..] == later;
  }

  lemma EmptyCompacts(ids: seq<Id>)
    ensures Compact(ids) == [] <==> ids == []
    ensures ids == [] ==> AllValid(ids)
  {
    hide CompactCopy;
  }

  /** Whatever lists were added, and wherever the empty ones were, reading gives
      the non-empty lists in order; an invalid identifier makes it throw. */
  lemma HistoryRoundTrip(lists: seq<seq<Id>>)
    requires Framable(CompactEach(lists), ESCAPE)
    ensures FrameIdVector(Wires(CompactEach(lists), ESCAPE)) ==
      if EachValid(lists) then Ok(DropEmpty(lists)) else Err
  {
    hide UnescapeAll, ExpandEach, CompactEach, Wires, StreamTail;
    DeframesPackets(CompactEach(lists), ESCAPE);
    ExpandCompacted(lists);
  }

  lemma {:induction false} WiresAppend(a: seq<seq<byte>>, p: seq<byte>, e: byte)
    ensures Wires(a + [p], e) == Wires(a, e) + Wire(p, e)
  {
    hide Wire;
    if a == [] {
      assert a + [p] == [p] && [p][1..] == [];
      assert Wire(p, e) + [] == Wire(p, e);
    } else {
      assert (a + [p])[1..] == a[1..] + [p];
      WiresAppend(a[1..], p, e);
      assert Wire(a[0], e) + (Wires(a[1..], e) + Wire(p, e)) == (Wire(a[0], e) + Wires(a[1..], e)) + Wire(p, e);
    }
  }

  lemma {:induction false} CompactEachAppend(a: seq<seq<Id>>, ids: seq<Id>)
    ensures CompactEach(a + [ids]) == CompactEach(a) + [Compact(ids)]
  {
    hide Compact;
    if a == [] {
      assert a + [ids] == [ids] && [ids][1..] == [];
    } else {
      assert (a + [ids])[1..] == a[1..] + [ids];
      CompactEachAppend(a[1..], ids);
    }
  }

  class TvItem {
    var frameSets: seq<byte>
    ghost var added: seq<seq<Id>>  // the lists given to AddFrameId, oldest first

    ghost predicate Valid()
      reads this
    {
      frameSets == Wires(CompactEach(added), ESCAPE)
    }

    constructor ()
      ensures Valid() && added == []
    {
      frameSets := [];
      added := [];
    }

    method AddFrameId(streamIdVector: seq<Id>)
      requires Valid()
      modifies this
      ensures Valid() && added == old(added) + [streamIdVector]
      ensures frameSets == old(frameSets) + Wire(Compact(streamIdVector), 0x80)
    {
      var packed := CompactIdSet(streamIdVector);
      var chunk := EscapeVector(packed, ESCAPE);
      WiresAppend(CompactEach(added), packed, ESCAPE);
      CompactEachAppend(added, streamIdVector);
      frameSets := frameSets + chunk;
      added := added + [streamIdVector];
    }

    method GetFrameIdVector() returns (idVector: Result<seq<seq<Id>>>)
      requires Valid()
      ensures idVector == FrameIdVector(frameSets)
      ensures Framable(CompactEach(added), ESCAPE) ==>
        idVector == if EachValid(added) then Ok(DropEmpty(added)) else Err
    {
      hide UnescapeAll, Expand, Framable, EachValid;
      if Framable(CompactEach(added), ESCAPE) {
        HistoryRoundTrip(added);
      }
      var tmp := UnescapeAllVectors(frameSets, ESCAPE);
      if tmp.Err? {
        return Err;
      }
      var sets := tmp.value.0;
      var ids := [];
      assert sets[0..] == sets;
      JoinedTwice(ids, ids, ExpandEach(sets));
      for i := 0 to |sets|
        invariant ExpandEach(sets) == Joined(ids, ExpandEach(sets[i..]))
      {
        assert sets[i..][1..] == sets[i + 1..];
        var expanded := ExpandIdSet(sets[i]);
        if expanded.Err? {
          return Err;
        }
        JoinedTwice(ids, [expanded.value], ExpandEach(sets[i + 1..]));
        ids := ids + [expanded.value];
      }
      assert ids + [] == ids;
      return Ok(ids);
    }

    method ClearFrameSets()
      modifies this
      ensures Valid() && added == []
    {
      frameSets := [];
      added := [];
    }
  }
}
