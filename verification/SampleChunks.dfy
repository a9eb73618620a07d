// Cutting raw samples into chunks of one size
// (src/tv/transcode/tv_transcode_audio.cpp:462-478).

module SampleChunks {
  import opened Bytes

  /** Whole chunks of `size` bytes and a shorter rest that together are `s`. */
  predicate Cut(s: seq<byte>, size: nat, chunks: seq<seq<byte>>, rest: seq<byte>) {
    && Flatten(chunks) + rest == s
    && |rest| < size
    && forall i :: 0 <= i < |chunks| ==> |chunks[i]| == size
  }

  lemma {:induction false} FlattenLength(chunks: seq<seq<byte>>, size: nat)
    requires forall i :: 0 <= i < |chunks| ==> |chunks[i]| == size
    ensures |Flatten(chunks)| == |chunks| * size
  {
    if chunks != [] {
      FlattenLength(chunks[1..], size);
      assert |chunks| * size == size + (|chunks| - 1) * size;
    }
  }

  /** There is one way to cut, and it has as many chunks as fit. */
  lemma {:induction false} CutIsUnique(s: seq<byte>, size: nat, a: seq<seq<byte>>, x: seq<byte>, b: seq<seq<byte>>,
                                       y: seq<byte>)
    requires Cut(s, size, a, x) && Cut(s, size, b, y)
    ensures a == b && x == y
    decreases |a|
  {
    if a == [] || b == [] {
      FlattenLength(a, size);
      FlattenLength(b, size);
      MultiplyMonotone(size, 1, |a|);
      MultiplyMonotone(size, 1, |b|);
      assert [] + x == x && [] + y == y;
    } else {
      var p, q := Flatten(a[1..]) + x, Flatten(b[1..]) + y;
      assert s == a[0] + p && s == b[0] + q;
      assert s[..size] == a[0] && s[..size] == b[0];
      assert s[size..] == p && s[size..] == q;
      CutIsUnique(p, size, a[1..], x, b[1..], y);
      assert a == [a[0]] + a[1..] && b == [b[0]] + b[1..];
    }
  }

  /** Cutting more samples behind the rest continues the cut of all of them. */
  lemma CutContinues(s: seq<byte>, more: seq<byte>, size: nat, a: seq<seq<byte>>, x: seq<byte>, b: seq<seq<byte>>,
                     y: seq<byte>)
    requires Cut(s, size, a, x) && Cut(x + more, size, b, y)
    ensures Cut(s + more, size, a + b, y)
  {
    hide Flatten;
    FlattenAppend(a, b);
    Regrouped(Flatten(a), Flatten(b), x, more, y);
  }

  lemma Regrouped(a: seq<byte>, b: seq<byte>, x: seq<byte>, more: seq<byte>, y: seq<byte>)
    requires b + y == x + more
    ensures (a + b) + y == (a + x) + more
  {
    assert (a + b) + y == a + (b + y);
    assert (a + x) + more == a + (x + more);
  }

  /** The chunks are taken off the front; a chunk size of zero would divide by
      zero in the source. */
  method SamplesToChunksOfLength(samples: Vector<byte>, chunkSize: uint32) returns (retval: seq<seq<byte>>)
    requires chunkSize > 0
    modifies samples
    ensures Cut(old(samples.elems), chunkSize, retval, samples.elems)
    ensures |retval| == |old(samples.elems)| / chunkSize
  {
    hide Flatten;
    var s := samples.elems;
    var wholeChunks := |s| / chunkSize;
    retval := [];
    var to := 0;
    assert Flatten(retval) == [] by { FlattenLength(retval, chunkSize); }
    for i := 0 to wholeChunks
      invariant |retval| == i && to == i * chunkSize <= |s|
      invariant Flatten(retval) == s[..to]
      invariant forall k :: 0 <= k < |retval| ==> |retval[k]| == chunkSize
    {
      NextChunk(|s|, chunkSize, i);
      var from := to;
      to := (i + 1) * chunkSize;
      FlattenSnoc(retval, s[from..to]);
      assert s[..to] == s[..from] + s[from..to];
      retval := retval + [s[from..to]];
    }
    RestIsShort(|s|, chunkSize);
    assert s[..to] + s[to..] == s;
    samples.elems := s[chunkSize * wholeChunks..];
  }

  lemma NextChunk(n: nat, size: nat, i: nat)
    requires size > 0 && i < n / size
    ensures (i + 1) * size == i * size + size <= n
  {
    MultiplyMonotone(size, i + 1, n / size);
  }

  lemma RestIsShort(n: nat, size: nat)
    requires size > 0
    ensures size * (n / size) == (n / size) * size <= n < size * (n / size) + size
  {
  }
}
