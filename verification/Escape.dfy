// Run-length escaping of byte vectors and the length-prefixed frames built on
// it (src/escape.cpp).

module Escape {
  import opened Bytes

  /** The first element is repeated this many times at the front. */
  function RunLength(s: seq<byte>, e: byte): (n: nat)
    ensures n <= |s|
    ensures forall i :: 0 <= i < n ==> s[i] == e
    ensures n < |s| ==> s[n] != e
  {
    if s != [] && s[0] == e then 1 + RunLength(s[1..], e) else 0
  }

  function Run(e: byte, n: nat): (r: seq<byte>)
    ensures |r| == n && forall i :: 0 <= i < n ==> r[i] == e
  {
    seq(n, _ => e)
  }

  /** Every maximal run of n >= 1 escape bytes becomes a run of n + 1. */
  function Stuff(s: seq<byte>, e: byte): seq<byte>
    decreases |s|
  {
    if s == [] then []
    else if s[0] != e then [s[0]] + Stuff(s[1..], e)
    else var n := RunLength(s, e); Run(e, n + 1) + Stuff(s[n..], e)
  }

  /** Every maximal run of n >= 1 escape bytes becomes a run of n - 1. */
  function Unstuff(s: seq<byte>, e: byte): seq<byte>
    decreases |s|
  {
    if s == [] then []
    else if s[0] != e then [s[0]] + Unstuff(s[1..], e)
    else var n := RunLength(s, e); Run(e, n - 1) + Unstuff(s[n..], e)
  }

  /** No maximal run of escape bytes has length one. */
  predicate NoLoneEscape(s: seq<byte>, e: byte)
    decreases |s|
  {
    if s == [] then true
    else if s[0] != e then NoLoneEscape(s[1..], e)
    else var n := RunLength(s, e); n >= 2 && NoLoneEscape(s[n..], e)
  }

  predicate StartsWith(s: seq<byte>, e: byte) {
    s != [] && s[0] == e
  }

  lemma {:induction false} RunLengthOf(e: byte, n: nat, t: seq<byte>)
    requires !StartsWith(t, e)
    ensures RunLength(Run(e, n) + t, e) == n
    ensures (Run(e, n) + t)[n..] == t
  {
    if n > 0 {
      assert (Run(e, n) + t)[1..] == Run(e, n - 1) + t;
      RunLengthOf(e, n - 1, t);
    }
  }

  lemma SplitRun(s: seq<byte>, e: byte)
    ensures s == Run(e, RunLength(s, e)) + s[RunLength(s, e)..]
  {
  }

  /** Unescaping undoes escaping, for every body and every escape byte. */
  lemma {:induction false} UnstuffStuff(s: seq<byte>, e: byte)
    ensures Unstuff(Stuff(s, e), e) == s
    decreases |s|
  {
    if s != [] {
      if s[0] != e {
        UnstuffStuff(s[1..], e);
        assert Stuff(s, e)[1..] == Stuff(s[1..], e);
      } else {
        var n := RunLength(s, e);
        UnstuffStuff(s[n..], e);
        RunLengthOf(e, n + 1, Stuff(s[n..], e));
        SplitRun(s, e);
      }
    }
  }

  /** Escaping undoes unescaping exactly on bodies without a run of length one. */
  lemma {:induction false} StuffUnstuff(s: seq<byte>, e: byte)
    ensures Stuff(Unstuff(s, e), e) == s <==> NoLoneEscape(s, e)
    decreases |s|
  {
    if s != [] {
      if s[0] != e {
        StuffUnstuff(s[1..], e);
        assert Unstuff(s, e)[1..] == Unstuff(s[1..], e);
        assert Stuff(Unstuff(s, e), e)[1..] == Stuff(Unstuff(s[1..], e), e);
      } else {
        var n := RunLength(s, e);
        var u := Unstuff(s[n..], e);
        StuffUnstuff(s[n..], e);
        if n >= 2 {
          RunLengthOf(e, n - 1, u);
          SplitRun(s, e);
          var again := Run(e, n) + Stuff(u, e);
          assert Stuff(Unstuff(s, e), e) == again;
          assert again[n..] == Stuff(u, e);
        } else {
          assert Unstuff(s, e) == u;
          assert !StartsWith(Stuff(u, e), e);
        }
      }
    }
  }

  lemma {:induction false} StuffLeavesNoLoneEscape(s: seq<byte>, e: byte)
    ensures NoLoneEscape(Stuff(s, e), e)
  {
    UnstuffStuff(s, e);
    StuffUnstuff(Stuff(s, e), e);
  }

  /** At most one inserted byte for every two bytes of the body. */
  lemma {:induction false} StuffBound(s: seq<byte>, e: byte)
    ensures |s| <= |Stuff(s, e)| <= |s| + (|s| + 1) / 2
    decreases |s|
  {
    if s != [] {
      if s[0] != e {
        StuffBound(s[1..], e);
      } else {
        var t := s[RunLength(s, e)..];
        if t != [] {
          StuffBound(t[1..], e);
        }
      }
    }
  }

  /** A frame: the escape byte, the 32-bit escaped length, the escaped body. */
  function Wire(p: seq<byte>, e: byte): seq<byte> {
    Header(|Stuff(p, e)|, e) + Stuff(p, e)
  }

  function Header(escapedLength: nat, e: byte): (r: seq<byte>)
    ensures |r| == 5 && r[0] == e
  {
    [e] + BigEndian(escapedLength % U32, 4)
  }

  lemma HeaderDecodes(escapedLength: nat, e: byte)
    ensures FromBigEndian(Header(escapedLength, e)[1..]) == escapedLength % U32
  {
    assert Header(escapedLength, e)[1..] == BigEndian(escapedLength % U32, 4);
    assert Pow256(4) == U32;
    BigEndianDecodes(escapedLength % U32, 4);
  }

  lemma WireBound(p: seq<byte>, e: byte)
    ensures |Wire(p, e)| <= 5 + |p| + (|p| + 1) / 2
  {
    StuffBound(p, e);
  }

  // ----- src/escape.cpp:6-33 -----

  method EscapeVector(vector_: seq<byte>, escapeChar: byte) returns (vector: seq<byte>)
    ensures vector == Wire(vector_, escapeChar)
  {
    vector := StuffInPlace(vector_, escapeChar);
    ghost var body := vector;
    var escapedLength := BigEndian(|vector| % U32, 4);
    vector := escapedLength + vector;
    vector := [escapeChar] + vector;
    assert vector == ([escapeChar] + escapedLength) + body;
  }

  /** `j` is one past the run of escape bytes that starts at `i`. */
  predicate RunEnds(v: seq<byte>, i: nat, j: nat, e: byte) {
    && i <= j <= |v|
    && (forall k :: i <= k < j ==> v[k] == e)
    && (j < |v| ==> v[j] != e)
  }

  lemma RunEndsLength(v: seq<byte>, i: nat, j: nat, e: byte)
    requires RunEnds(v, i, j, e)
    ensures RunLength(v[i..], e) == j - i
    ensures v[i..] == Run(e, j - i) + v[j..]
  {
    assert v[i..] == Run(e, j - i) + v[j..];
    RunLengthOf(e, j - i, v[j..]);
  }

  lemma StuffUnfold(s: seq<byte>, e: byte, n: nat)
    requires s != [] && s[0] == e && n == RunLength(s, e)
    ensures Stuff(s, e) == Run(e, n + 1) + Stuff(s[n..], e)
    ensures Unstuff(s, e) == Run(e, n - 1) + Unstuff(s[n..], e)
  {
  }

  /** What one insertion and the skip after it do to the work left. */
  lemma StuffRun(was: seq<byte>, i: nat, j: nat, e: byte)
    requires i < |was| && was[i] == e
    requires RunEnds(was[..i] + [e] + was[i..], i, j, e)
    ensures
      var v := was[..i] + [e] + was[i..];
      i + 1 < j && was[..i] + Stuff(was[i..], e) == v[..j] + Stuff(v[j..], e)
  {
    hide Stuff, RunLength;
    var v := was[..i] + [e] + was[i..];
    assert v[i + 1] == e;
    RunEndsAfterInsert(was, i, j, e);
    RunEndsLength(was, i, j - 1, e);
    StuffUnfold(was[i..], e, j - 1 - i);
    assert v[..j] == was[..i] + Run(e, j - i) && v[j..] == was[i..][j - 1 - i..];
  }

  lemma RunEndsAfterInsert(was: seq<byte>, i: nat, j: nat, e: byte)
    requires i < |was| && i + 1 < j
    requires RunEnds(was[..i] + [e] + was[i..], i, j, e)
    ensures RunEnds(was, i, j - 1, e)
  {
    var v := was[..i] + [e] + was[i..];
    assert forall k :: i <= k < |was| ==> was[k] == v[k + 1];
  }

  lemma StuffByte(was: seq<byte>, i: nat, e: byte)
    requires i < |was| && was[i] != e
    ensures was[..i] + Stuff(was[i..], e) == was[..i + 1] + Stuff(was[i + 1..], e)
  {
    assert was[i..][1..] == was[i + 1..] && was[..i + 1] == was[..i] + [was[i]];
  }

  lemma EmptyStuffs(e: byte)
    ensures Stuff([], e) == [] && Unstuff([], e) == []
  {
  }

  /** The inner loop that skips the rest of a run. */
  method SkipRun(vector: seq<byte>, escapeChar: byte, start: nat) returns (i: nat)
    requires start <= |vector|
    ensures RunEnds(vector, start, i, escapeChar) && i <= |vector|
  {
    i := start;
    while i < |vector| && vector[i] == escapeChar
      invariant start <= i <= |vector|
      invariant forall k :: start <= k < i ==> vector[k] == escapeChar
    {
      i := i + 1;
    }
  }

  /** The loop of src/escape.cpp:9-20. */
  method StuffInPlace(vector_: seq<byte>, escapeChar: byte) returns (vector: seq<byte>)
    ensures vector == Stuff(vector_, escapeChar)
  {
    hide Stuff, RunEnds;
    EmptyStuffs(escapeChar);
    vector := vector_;
    var i := 0;
    while i < |vector|
      invariant i <= |vector|
      invariant vector[..i] + Stuff(vector[i..], escapeChar) == Stuff(vector_, escapeChar)
      decreases |vector| - i
    {
      ghost var was, start := vector, i;
      if vector[i] == escapeChar {
        vector := vector[..i] + [escapeChar] + vector[i..];
        i := SkipRun(vector, escapeChar, i);
        StuffRun(was, start, i, escapeChar);
        i := i - 1;
      } else {
        StuffByte(was, start, escapeChar);
      }
      i := i + 1;
    }
    assert vector[..i] == vector && vector[i..] == [];
  }

  // ----- src/escape.cpp:35-78 -----

  /** One frame taken off the front: the payload (empty when no whole frame is
      there yet) and the bytes that remain. */
  function Unescape(v: seq<byte>, e: byte): Result<(seq<byte>, seq<byte>)> {
    if |v| <= 5 then Ok(([], v))
    else if v[0] != e then Err
    else
      var len := FromBigEndian(v[1..5]);
      if len + 5 <= |v| then Ok((Unstuff(v[5..5 + len], e), v[5 + len..])) else Ok(([], v))
  }

  /** What one erasure and the skip after it do to the work left. */
  lemma UnstuffRun(was: seq<byte>, i: nat, j: nat, e: byte)
    requires i < |was| && was[i] == e
    requires RunEnds(was[..i] + was[i + 1..], i, j, e)
    ensures
      var v := was[..i] + was[i + 1..];
      was[..i] + Unstuff(was[i..], e) == v[..j] + Unstuff(v[j..], e)
  {
    hide Unstuff, RunLength;
    var v := was[..i] + was[i + 1..];
    RunEndsAfterErase(was, i, j, e);
    RunEndsLength(was, i, j + 1, e);
    StuffUnfold(was[i..], e, j + 1 - i);
    assert v[..j] == was[..i] + Run(e, j - i) && v[j..] == was[i..][j + 1 - i..];
  }

  lemma RunEndsAfterErase(was: seq<byte>, i: nat, j: nat, e: byte)
    requires i < |was| && was[i] == e
    requires RunEnds(was[..i] + was[i + 1..], i, j, e)
    ensures RunEnds(was, i, j + 1, e)
  {
    var v := was[..i] + was[i + 1..];
    assert forall k :: i < k < |was| ==> was[k] == v[k - 1];
  }

  lemma UnstuffByte(was: seq<byte>, i: nat, e: byte)
    requires i < |was| && was[i] != e
    ensures was[..i] + Unstuff(was[i..], e) == was[..i + 1] + Unstuff(was[i + 1..], e)
  {
    assert was[i..][1..] == was[i + 1..] && was[..i + 1] == was[..i] + [was[i]];
  }

  /** The loop of src/escape.cpp:63-75. */
  method UnstuffInPlace(body: seq<byte>, escapeChar: byte) returns (payload: seq<byte>)
    ensures payload == Unstuff(body, escapeChar)
  {
    hide Unstuff, RunEnds;
    EmptyStuffs(escapeChar);
    payload := body;
    var payloadSize := |payload|;
    var i := 0;
    while i < payloadSize
      invariant payloadSize == |payload| && i <= |payload|
      invariant payload[..i] + Unstuff(payload[i..], escapeChar) == Unstuff(body, escapeChar)
      decreases |payload| - i
    {
      ghost var was, start := payload, i;
      if payload[i] == escapeChar {
        payload := payload[..i] + payload[i + 1..];
        payloadSize := payloadSize - 1;
        i := SkipRun(payload, escapeChar, i);
        UnstuffRun(was, start, i, escapeChar);
        i := i - 1;
      } else {
        UnstuffByte(was, start, escapeChar);
      }
      i := i + 1;
    }
    assert payload[..i] == payload && payload[i..] == [];
  }

  method UnescapeVector(vector_: seq<byte>, escapeChar: byte) returns (r: Result<(seq<byte>, seq<byte>)>)
    ensures r == Unescape(vector_, escapeChar)
  {
    var vector, payload := vector_, [];
    if |vector| <= 5 {
      return Ok(([], vector));
    }
    if vector[0] != escapeChar {
      return Err;
    }
    var escapedLength := FromBigEndian(vector[1..5]);
    if escapedLength + 5 <= |vector| {
      vector := vector[5..];
      payload := vector[..escapedLength];
      vector := vector[escapedLength..];
      assert payload == vector_[5..5 + escapedLength] && vector == vector_[5 + escapedLength..];
    } else {
      assert Unstuff([], escapeChar) == [];
    }
    payload := UnstuffInPlace(payload, escapeChar);
    return Ok((payload, vector));
  }

  /** A frame comes back as its payload with nothing left over exactly when the
      payload is not empty and its escaped form fits the 32-bit length. */
  lemma UnescapeWire(p: seq<byte>, e: byte)
    ensures Unescape(Wire(p, e), e) == Ok((p, [])) <==> p != [] && |Stuff(p, e)| < U32
  {
    StuffBound(p, e);
    assert p == [] ==> Stuff(p, e) == [];
    if |Stuff(p, e)| >= U32 {
      UnescapeWireTooLong(p, e);
    } else if p != [] {
      UnescapeWireThen(p, [], e);
      assert Wire(p, e) + [] == Wire(p, e);
    }
  }

  lemma UnescapeFrame(header: seq<byte>, body: seq<byte>, rest: seq<byte>, e: byte)
    requires |header| == 5 && header[0] == e && |body| + |rest| > 0
    requires FromBigEndian(header[1..]) == |body|
    ensures Unescape(header + body + rest, e) == Ok((Unstuff(body, e), rest))
  {
    var v := header + body + rest;
    assert v[1..5] == header[1..];
    assert v[5..5 + |body|] == body && v[5 + |body|..] == rest;
  }

  lemma UnescapeWireThen(p: seq<byte>, rest: seq<byte>, e: byte)
    requires |Stuff(p, e)| < U32 && |Stuff(p, e)| + |rest| > 0
    ensures Unescape(Wire(p, e) + rest, e) == Ok((p, rest))
  {
    hide Stuff, Unstuff, FromBigEndian, Header;
    var body := Stuff(p, e);
    HeaderDecodes(|body|, e);
    UnstuffStuff(p, e);
    UnescapeFrame(Header(|body|, e), body, rest, e);
  }

  /** Only the length modulo 2^32 is sent: the rest of the body is left over. */
  lemma UnescapeWireTooLong(p: seq<byte>, e: byte)
    requires |Stuff(p, e)| >= U32
    ensures Unescape(Wire(p, e), e).Ok? && Unescape(Wire(p, e), e).value.1 != []
  {
    var body := Stuff(p, e);
    HeaderDecodes(|body|, e);
    UnescapeTruncated(Header(|body|, e), body, |body| % U32, e);
  }

  lemma UnescapeTruncated(header: seq<byte>, body: seq<byte>, len: nat, e: byte)
    requires |header| == 5 && header[0] == e && len < |body|
    requires FromBigEndian(header[1..]) == len
    ensures Unescape(header + body, e) == Ok((Unstuff(body[..len], e), body[len..]))
  {
    UnescapeFrame(header, body[..len], body[len..], e);
    assert header + body[..len] + body[len..] == header + body;
  }

  // ----- src/escape.cpp:80-101 -----

  type Deframed = Result<(seq<seq<byte>>, seq<byte>)>

  function NonEmpty(p: seq<byte>): seq<seq<byte>> {
    if p == [] then [] else [p]
  }

  function Prepend(outs: seq<seq<byte>>, d: Deframed): Deframed {
    match d
    case Ok((more, rest)) => Ok((outs + more, rest))
    case Err => Err
  }

  lemma PrependTwice(a: seq<seq<byte>>, b: seq<seq<byte>>, d: Deframed)
    ensures Prepend(a, Prepend(b, d)) == Prepend(a + b, d)
    ensures Prepend([], d) == d
  {
    match d
    case Err =>
    case Ok((more, rest)) =>
      assert a + (b + more) == (a + b) + more;
      assert [] + more == more;
  }

  /** Frames are taken off the front until taking one changes nothing. */
  function UnescapeAll(v: seq<byte>, e: byte): Deframed
    decreases |v|
  {
    match Unescape(v, e)
    case Err => Err
    case Ok((p, rest)) =>
      if |rest| < |v| then Prepend(NonEmpty(p), UnescapeAll(rest, e)) else Ok(([], v))
  }

  method UnescapeAllVectors(vector_: seq<byte>, escapeChar: byte) returns (r: Deframed)
    ensures r == UnescapeAll(vector_, escapeChar)
  {
    var vector, first := vector_, [];
    var oldSize := 0;
    PrependTwice([], [], UnescapeAll(vector, escapeChar));
    while |vector| != oldSize
      invariant UnescapeAll(vector_, escapeChar) == Prepend(first, UnescapeAll(vector, escapeChar))
      invariant |vector| <= oldSize || oldSize == 0
      invariant |vector| == oldSize ==> UnescapeAll(vector, escapeChar) == Ok(([], vector))
      decreases |vector|, |vector| != oldSize
    {
      oldSize := |vector|;
      ghost var was := first;
      var tmp := UnescapeVector(vector, escapeChar);
      if tmp.Err? {
        return Err;
      }
      if |tmp.value.0| != 0 {
        first := first + [tmp.value.0];
      }
      PrependTwice(was, NonEmpty(tmp.value.0), UnescapeAll(tmp.value.1, escapeChar));
      vector := tmp.value.1;
    }
    assert first + [] == first;
    r := Ok((first, vector));
  }

  // ----- feeding a stream in pieces -----

  /** Deframing what is left over from earlier bytes together with later bytes
      continues the deframing of all of them at once. */
  lemma {:induction false} UnescapeAllSplits(v: seq<byte>, c: seq<byte>, e: byte)
    ensures match UnescapeAll(v, e)
      case Ok((outs, rest)) => UnescapeAll(v + c, e) == Prepend(outs, UnescapeAll(rest + c, e))
      case Err => UnescapeAll(v + c, e) == Err
    decreases |v|
  {
    match Unescape(v, e)
    case Err =>
      assert (v + c)[1..5] == v[1..5];
    case Ok((p, rest)) =>
      if |rest| < |v| {
        var len := FromBigEndian(v[1..5]);
        SliceOfAppend(v, c, 1, 5);
        SliceOfAppend(v, c, 5, 5 + len);
        SliceOfAppend(v, c, 5 + len, |v|);
        UnescapeAllSplits(rest, c, e);
        match UnescapeAll(rest, e)
        case Err =>
        case Ok((outs, left)) => PrependTwice(NonEmpty(p), outs, UnescapeAll(left + c, e));
      } else {
        PrependTwice([], [], UnescapeAll(v + c, e));
      }
  }

  /** A deframer that starts with `left` over and is given the chunks one call
      at a time. */
  function Feed(left: seq<byte>, chunks: seq<seq<byte>>, e: byte): Deframed
    decreases |chunks|
  {
    if chunks == [] then Ok(([], left))
    else match UnescapeAll(left + chunks[0], e)
      case Err => Err
      case Ok((outs, rest)) => Prepend(outs, Feed(rest, chunks[1..], e))
  }

  /** Chunking invariance, for every byte stream, well formed or not: however
      the bytes are cut, the outputs, the leftover and the failures are those
      of deframing the whole stream at once. */
  lemma {:induction false} ChunkingInvariance(left: seq<byte>, chunks: seq<seq<byte>>, e: byte)
    requires UnescapeAll(left, e) == Ok(([], left))
    ensures Feed(left, chunks, e) == UnescapeAll(left + Flatten(chunks), e)
    decreases |chunks|
  {
    if chunks == [] {
      assert left + Flatten(chunks) == left;
    } else {
      var first, later := left + chunks[0], Flatten(chunks[1..]);
      assert left + Flatten(chunks) == first + later;
      UnescapeAllSplits(first, later, e);
      match UnescapeAll(first, e)
      case Err =>
      case Ok((outs, rest)) =>
        LeftoverIsStuck(first, e);
        ChunkingInvariance(rest, chunks[1..], e);
    }
  }

  /** What a deframing leaves over yields nothing by itself. */
  lemma {:induction false} LeftoverIsStuck(v: seq<byte>, e: byte)
    ensures match UnescapeAll(v, e)
      case Ok((_, rest)) => UnescapeAll(rest, e) == Ok(([], rest))
      case Err => true
    decreases |v|
  {
    match Unescape(v, e)
    case Err =>
    case Ok((p, rest)) =>
      if |rest| < |v| {
        LeftoverIsStuck(rest, e);
      }
  }

  // ----- streams of frames -----

  /** The frames of the packets, one after the other. */
  function Wires(packets: seq<seq<byte>>, e: byte): seq<byte> {
    if packets == [] then [] else Wire(packets[0], e) + Wires(packets[1..], e)
  }

  predicate Framable(packets: seq<seq<byte>>, e: byte) {
    forall p :: p in packets ==> |Stuff(p, e)| < U32
  }

  function DropEmpty<T>(packets: seq<seq<T>>): seq<seq<T>> {
    if packets == [] then []
    else (if packets[0] == [] then [] else [packets[0]]) + DropEmpty(packets[1..])
  }

  /** An empty packet at the very end stays behind as its own five bytes. */
  function StreamTail(packets: seq<seq<byte>>, e: byte): seq<byte> {
    if packets != [] && packets[|packets| - 1] == [] then Wire([], e) else []
  }

  /** Deframing a stream of frames returns the non-empty packets in order. */
  lemma {:induction false} DeframesPackets(packets: seq<seq<byte>>, e: byte)
    requires Framable(packets, e)
    ensures UnescapeAll(Wires(packets, e), e) == Ok((DropEmpty(packets), StreamTail(packets, e)))
  {
    if packets != [] {
      var p, rest := packets[0], Wires(packets[1..], e);
      DeframesPackets(packets[1..], e);
      if p == [] && rest == [] {
        WiresEmpty(packets[1..], e);
        assert packets == [[]] && Stuff([], e) == [] && |Wire([], e)| == 5;
        assert Wires(packets, e) == Wire([], e);
        assert DropEmpty(packets) == [];
      } else {
        StuffBound(p, e);
        UnescapeWireThen(p, rest, e);
        assert NonEmpty(p) == if p == [] then [] else [p];
      }
    }
  }

  lemma WiresEmpty(packets: seq<seq<byte>>, e: byte)
    ensures Wires(packets, e) == [] <==> packets == []
  {
  }

  /** Any split of the frames of non-empty packets into chunks: after every call
      the outputs so far are a prefix of the packets, no assertion fails, and at
      the end they are the packets, with nothing left over. */
  lemma StreamDelivers(packets: seq<seq<byte>>, chunks: seq<seq<byte>>, k: nat, e: byte)
    requires Framable(packets, e) && [] !in packets
    requires Flatten(chunks) == Wires(packets, e)
    requires k <= |chunks|
    ensures Feed([], chunks[..k], e).Ok?
    ensures Feed([], chunks[..k], e).value.0 <= packets
    ensures Feed([], chunks, e) == Ok((packets, []))
  {
    var early, late := Flatten(chunks[..k]), Flatten(chunks[k..]);
    assert chunks == chunks[..k] + chunks[k..];
    FlattenAppend(chunks[..k], chunks[k..]);
    DeframesPackets(packets, e);
    DropEmptyKeeps(packets);
    ChunkingInvariance([], chunks, e);
    ChunkingInvariance([], chunks[..k], e);
    assert [] + Flatten(chunks) == early + late && [] + early == early;
    UnescapeAllSplits(early, late, e);
  }

  lemma {:induction false} DropEmptyKeeps<T>(packets: seq<seq<T>>)
    requires [] !in packets
    ensures DropEmpty(packets) == packets
  {
    if packets != [] {
      DropEmptyKeeps(packets[1..]);
    }
  }
}
