// Packetizing and depacketizing for TCP (src/net/interface/net_interface_tcp.cpp)
// and the ways the receive loop hands chunks to the depacketizer.

module TcpFraming {
  import opened Bytes
  import opened Escape

  const ESCAPE: byte := 0xAB

  method Packetize(packet: Vector<byte>) returns (retval: seq<seq<byte>>)
    modifies packet
    ensures retval == [Wire(old(packet.elems), ESCAPE)] && packet.elems == []
  {
    var escaped := EscapeVector(packet.elems, ESCAPE);
    packet.elems := [];
    retval := [escaped];
  }

  /** Returns the payloads of the whole frames; what is left over replaces the
      chunks.  When deframing fails the chunks stay as they were. */
  method Depacketize(packet: Vector<seq<byte>>) returns (retval: Result<seq<seq<byte>>>)
    modifies packet
    ensures match UnescapeAll(Flatten(old(packet.elems)), ESCAPE)
      case Ok((outs, rest)) => retval == Ok(outs) && packet.elems == [rest]
      case Err => retval == Err && packet.elems == old(packet.elems)
  {
    var realPacket := Collapse2dVector(packet.elems);
    var tmp := UnescapeAllVectors(realPacket, ESCAPE);
    if tmp.Err? {
      return Err;
    }
    packet.elems := [];
    packet.elems := packet.elems + [tmp.value.1];
    return Ok(tmp.value.0);
  }

  lemma FlattenTwo<T>(a: seq<T>, b: seq<T>)
    ensures Flatten([a]) == a && Flatten([a, b]) == a + b
  {
    assert [a][1..] == [] && [a, b][1..] == [b];
    assert Flatten([b]) == b + Flatten([b][1..]);
  }

  /** One depacketize call after each received chunk is appended. */
  method ReceiveChunks(packet: Vector<seq<byte>>, chunks: seq<seq<byte>>) returns (outs: Result<seq<seq<byte>>>)
    modifies packet
    ensures match Feed(Flatten(old(packet.elems)), chunks, ESCAPE)
      case Ok((all, rest)) => outs == Ok(all) && Flatten(packet.elems) == rest
      case Err => outs == Err
  {
    var first := [];
    ghost var whole := Feed(Flatten(packet.elems), chunks, ESCAPE);
    PrependTwice([], [], whole);
    for i := 0 to |chunks|
      invariant whole == Prepend(first, Feed(Flatten(packet.elems), chunks[i..], ESCAPE))
    {
      ghost var left := Flatten(packet.elems);
      FlattenSnoc(packet.elems, chunks[i]);
      packet.elems := packet.elems + [chunks[i]];
      var more := Depacketize(packet);
      if more.Err? {
        return Err;
      }
      assert chunks[i..][1..] == chunks[i + 1..];
      FlattenTwo(packet.elems[0], []);
      PrependTwice(first, more.value, Feed(packet.elems[0], chunks[i + 1..], ESCAPE));
      first := first + more.value;
    }
    assert first + [] == first;
    outs := Ok(first);
  }

  // ----- the add_* accessor used by the receive loop (src/id/id.h:28) -----

  /** The accessor ignores an element that the vector already holds. */
  function AddElement<T(==)>(vector: seq<T>, datum: T): seq<T> {
    if datum in vector then vector else vector + [datum]
  }

  /** Handing a chunk over through the accessor, instead of appending it, gives
      the same outputs and leftover exactly when the chunk differs from the
      leftover, or is empty, or is the frame of an empty packet. */
  lemma AddElementLosesChunk(left: seq<byte>, chunk: seq<byte>, e: byte)
    requires UnescapeAll(left, e) == Ok(([], left))
    ensures UnescapeAll(Flatten(AddElement([left], chunk)), e) == UnescapeAll(Flatten([left] + [chunk]), e)
       <==> chunk != left || chunk == [] || chunk == Wire([], e)
  {
    FlattenTwo(left, chunk);
    assert [left] + [chunk] == [left, chunk];
    if chunk == left {
      if left == [] {
        assert left + left == left;
      } else {
        LeftoverTwice(left, e);
      }
    } else {
      assert chunk !in [left];
    }
  }

  lemma LeftoverTwice(left: seq<byte>, e: byte)
    requires UnescapeAll(left, e) == Ok(([], left)) && left != []
    ensures UnescapeAll(left + left, e) == Ok(([], left)) <==> left == Wire([], e)
  {
    if left == Wire([], e) {
      EmptyFrameTwice(e);
    } else if UnescapeAll(left + left, e) == Ok(([], left)) {
      LeftoverConsumes(left + left, left, e);
      StuckIsShort(left, e);
    }
  }

  lemma EmptyFrameTwice(e: byte)
    requires UnescapeAll(Wire([], e), e) == Ok(([], Wire([], e)))
    ensures UnescapeAll(Wire([], e) + Wire([], e), e) == Ok(([], Wire([], e)))
  {
    var left := Wire([], e);
    UnescapeWireThen([], left, e);
    PrependTwice([], [], UnescapeAll(left, e));
  }

  lemma StuckIsShort(left: seq<byte>, e: byte)
    requires |left| >= 5 && left[0] == e && UnescapeAll(left, e) == Ok(([], left))
    requires FromBigEndian((left + left)[1..5]) + 5 <= |left|
    ensures left == Wire([], e)
  {
    hide UnescapeAll, FromBigEndian, Header, Stuff;
    SliceOfAppend(left, left, 1, 5);
    if |left| == 5 {
      EmptyFrame(left, e);
    } else {
      StuckIsIncomplete(left, e);
    }
  }

  /** Five bytes with length zero are the frame of the empty packet. */
  lemma EmptyFrame(left: seq<byte>, e: byte)
    requires |left| == 5 && left[0] == e && FromBigEndian(left[1..5]) == 0
    ensures left == Wire([], e)
  {
    hide FromBigEndian, BigEndian;
    ZeroBigEndian(left[1..5]);
    assert left == [e] + left[1..5];
    EmptyWire(e);
  }

  lemma EmptyWire(e: byte)
    ensures Wire([], e) == [e] + BigEndian(0, 4)
  {
    hide BigEndian;
    assert Stuff([], e) == [] && Header(0, e) + [] == Header(0, e);
  }

  lemma StuckIsIncomplete(left: seq<byte>, e: byte)
    requires |left| > 5 && left[0] == e && UnescapeAll(left, e) == Ok(([], left))
    ensures FromBigEndian(left[1..5]) + 5 > |left|
  {
    hide FromBigEndian, Unstuff;
    var len := FromBigEndian(left[1..5]);
    if len + 5 <= |left| {
      UnescapeAllShrinks(left[5 + len..], e);
    }
  }

  lemma IncompleteIsStuck(left: seq<byte>, e: byte)
    requires |left| <= 5 || (left[0] == e && FromBigEndian(left[1..5]) + 5 > |left|)
    ensures UnescapeAll(left, e) == Ok(([], left))
  {
    hide FromBigEndian, Unstuff;
  }

  /** Deframing that leaves fewer bytes has taken a frame off the front. */
  lemma LeftoverConsumes(v: seq<byte>, rest: seq<byte>, e: byte)
    requires UnescapeAll(v, e).Ok? && UnescapeAll(v, e).value.1 == rest && |rest| < |v|
    ensures |v| > 5 && v[0] == e && FromBigEndian(v[1..5]) + 5 + |rest| <= |v|
  {
    UnescapeAllShrinks(v[5 + FromBigEndian(v[1..5])..], e);
  }

  lemma ZeroBigEndian(s: seq<byte>)
    requires FromBigEndian(s) == 0
    ensures s == BigEndian(0, |s|)
  {
    LittleEndianEncodes(Reverse(s));
    ReverseTwice(s);
  }

  lemma {:induction false} UnescapeAllShrinks(v: seq<byte>, e: byte)
    ensures UnescapeAll(v, e).Ok? ==> |UnescapeAll(v, e).value.1| <= |v|
    decreases |v|
  {
    match Unescape(v, e)
    case Err =>
    case Ok((p, rest)) =>
      if |rest| < |v| {
        UnescapeAllShrinks(rest, e);
      }
  }

  /** A packet whose frame arrives as the same chunk twice is delivered when
      chunks are appended and lost when they go through the accessor. */
  lemma RepeatedChunkIsLost(half: seq<byte>, packet: seq<byte>, e: byte)
    requires half + half == Wire(packet, e) && packet != [] && |Stuff(packet, e)| < U32
    ensures Feed([], [half, half], e) == Ok(([packet], []))
    ensures UnescapeAll(half, e) == Ok(([], half))
    ensures UnescapeAll(Flatten(AddElement([half], half)), e) == Ok(([], half))
  {
    HalfFrameIsStuck(half, packet, e);
    FlattenTwo(half, half);
    var chunks, packets := [half, half], [packet];
    assert Flatten(chunks) == Wires(packets, e) by {
      assert packets[1..] == [];
      assert Wires(packets, e) == Wire(packet, e) + [];
    }
    assert chunks[..2] == chunks;
    StreamDelivers(packets, chunks, 2, e);
  }

  lemma HalfFrameIsStuck(half: seq<byte>, packet: seq<byte>, e: byte)
    requires half + half == Wire(packet, e) && packet != [] && |Stuff(packet, e)| < U32
    ensures UnescapeAll(half, e) == Ok(([], half))
  {
    hide UnescapeAll, FromBigEndian, Header, Stuff;
    var len := |Stuff(packet, e)|;
    if |half| > 5 {
      HalfHasHeader(half, Header(len, e), Stuff(packet, e));
      HeaderDecodes(len, e);
      HeaderStarts(len, e);
    }
    IncompleteIsStuck(half, e);
  }

  lemma HalfHasHeader(half: seq<byte>, header: seq<byte>, body: seq<byte>)
    requires half + half == header + body && |header| == 5 < |half|
    ensures half[0] == header[0] && half[1..5] == header[1..] && |half| < 5 + |body|
  {
    assert half == (half + half)[..|half|];
    assert (header + body)[1..5] == header[1..];
  }

  lemma HeaderStarts(escapedLength: nat, e: byte)
    ensures Header(escapedLength, e)[0] == e
  {
    hide BigEndian;
  }

  lemma NineBigEndian()
    ensures BigEndian(9, 4) == [0, 0, 0, 9]
  {
    LittleEndianStep(9, 4);
    LittleEndianStep(0, 3);
    LittleEndianStep(0, 2);
    LittleEndianStep(0, 1);
  }

  lemma StuffOther(b: byte, rest: seq<byte>, e: byte)
    requires b != e
    ensures Stuff([b] + rest, e) == [b] + Stuff(rest, e)
  {
    assert ([b] + rest)[1..] == rest;
  }

  lemma StuffRunThen(n: nat, rest: seq<byte>, e: byte)
    requires n >= 1 && !StartsWith(rest, e)
    ensures Stuff(Run(e, n) + rest, e) == Run(e, n + 1) + Stuff(rest, e)
  {
    hide Stuff, RunLength;
    RunLengthOf(e, n, rest);
    var s := Run(e, n) + rest;
    assert s[n..] == rest;
    StuffUnfold(s, e, n);
  }

  lemma EscapedTail(e: byte)
    requires e != 0 && e != 9
    ensures Stuff([0, 0, 0, 9, e], e) == [0, 0, 0, 9, e, e]
  {
    hide Stuff;
    assert Stuff([], e) == [] by { EmptyStuffs(e); }
    StuffRunThen(1, [], e);
    assert Run(e, 1) + [] == [e] && Run(e, 2) + [] == [e, e];
    StuffOther(9, [e], e);
    StuffOther(0, [9, e], e);
    StuffOther(0, [0, 9, e], e);
    StuffOther(0, [0, 0, 9, e], e);
    assert [9] + [e] == [9, e] && [0] + [9, e] == [0, 9, e] && [0] + [0, 9, e] == [0, 0, 9, e];
    assert [0] + [0, 0, 9, e] == [0, 0, 0, 9, e];
  }

  /** Such a packet exists. */
  lemma RepeatedChunkExists()
    ensures
      var half := [0xAB, 0, 0, 0, 9, 0xAB, 0xAB];
      half + half == Wire([0xAB, 0xAB, 0, 0, 0, 9, 0xAB], ESCAPE)
  {
    hide Stuff;
    var e, tail := ESCAPE, [0, 0, 0, 9, ESCAPE];
    EscapedTail(e);
    StuffRunThen(2, tail, e);
    assert Run(e, 2) + tail == [e, e, 0, 0, 0, 9, e];
    assert Run(e, 3) + [0, 0, 0, 9, e, e] == [e, e, e, 0, 0, 0, 9, e, e];
    NineBigEndian();
  }
}
