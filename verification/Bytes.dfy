// Byte strings, the in-place byte reversal behind every network-byte-order
// conversion (src/convert.cpp), and little-endian memory images of integers.

module Bytes {

  type byte = x: int | 0 <= x < 256
  type uint16 = x: int | 0 <= x < 0x1_0000
  type uint32 = x: int | 0 <= x < 0x1_0000_0000
  type uint64 = x: int | 0 <= x < 0x1_0000_0000_0000_0000

  const U16: nat := 0x1_0000
  const U32: nat := 0x1_0000_0000
  const U64: nat := 0x1_0000_0000_0000_0000

  /** An operation of the source that either returns or throws. */
  datatype Result<+T> = Ok(value: T) | Err {
    predicate IsFailure() { Err? }

    function PropagateFailure<U>(): Result<U>
      requires Err?
    {
      Err
    }

    function Extract(): T
      requires Ok?
    {
      value
    }
  }

  /** What was read so far, followed by what the rest yields. */
  function Joined<T>(first: seq<T>, more: Result<seq<T>>): Result<seq<T>> {
    match more
    case Ok(later) => Ok(first + later)
    case Err => Err
  }

  lemma JoinedTwice<T>(a: seq<T>, b: seq<T>, more: Result<seq<T>>)
    ensures Joined(a, Joined(b, more)) == Joined(a + b, more)
    ensures Joined([], more) == more
  {
    match more
    case Err =>
    case Ok(later) =>
      assert a + (b + later) == (a + b) + later;
      assert [] + later == later;
  }

  datatype Option<+T> = None | Some(value: T)

  /** A vector the source passes by pointer and changes in place. */
  class Vector<T> {
    var elems: seq<T>

    constructor (elems: seq<T>)
      ensures this.elems == elems
    {
      this.elems := elems;
    }
  }

  // ----- exclusive or on bytes -----

  function Pow2(k: nat): nat {
    if k == 0 then 1 else 2 * Pow2(k - 1)
  }

  /** Exclusive or of the lowest `k` bits. */
  function XorBits(k: nat, a: nat, b: nat): nat {
    if k == 0 then 0 else (if a % 2 != b % 2 then 1 else 0) + 2 * XorBits(k - 1, a / 2, b / 2)
  }

  lemma {:induction false} XorBitsBound(k: nat, a: nat, b: nat)
    ensures XorBits(k, a, b) < Pow2(k)
  {
    if k > 0 {
      XorBitsBound(k - 1, a / 2, b / 2);
    }
  }

  lemma {:induction false} XorBitsCancel(k: nat, a: nat, b: nat)
    requires a < Pow2(k) && b < Pow2(k)
    ensures XorBits(k, XorBits(k, a, b), b) == a
    ensures XorBits(k, b, XorBits(k, a, b)) == a
  {
    if k > 0 {
      XorBitsCancel(k - 1, a / 2, b / 2);
      assert XorBits(k, a, b) / 2 == XorBits(k - 1, a / 2, b / 2);
    }
  }

  function Xor(a: byte, b: byte): byte {
    XorBitsBound(8, a, b);
    assert Pow2(8) == 256;
    XorBits(8, a, b)
  }

  lemma XorCancel(a: byte, b: byte)
    ensures Xor(Xor(a, b), b) == a
    ensures Xor(b, Xor(a, b)) == a
  {
    assert Pow2(8) == 256;
    XorBitsCancel(8, a, b);
  }

  lemma {:induction false} XorBitsNone(k: nat, a: nat)
    requires a < Pow2(k)
    ensures XorBits(k, a, 0) == a && XorBits(k, a, a) == 0
  {
    if k > 0 {
      XorBitsNone(k - 1, a / 2);
    }
  }

  /** Equal bits give zero, and zero changes nothing. */
  lemma XorNone(a: byte)
    ensures Xor(a, 0) == a && Xor(a, a) == 0
  {
    assert Pow2(8) == 256;
    XorBitsNone(8, a);
  }

  // ----- reversal -----

  function Reverse<T>(s: seq<T>): (r: seq<T>)
    ensures |r| == |s|
  {
    seq(|s|, i requires 0 <= i < |s| => s[|s| - 1 - i])
  }

  lemma ReverseTwice<T>(s: seq<T>)
    ensures Reverse(Reverse(s)) == s
  {
    assert forall i :: 0 <= i < |s| ==> Reverse(Reverse(s))[i] == s[i];
  }

  lemma {:induction false} XorBitsCommute(k: nat, a: nat, b: nat)
    ensures XorBits(k, a, b) == XorBits(k, b, a)
  {
    if k > 0 {
      XorBitsCommute(k - 1, a / 2, b / 2);
    }
  }

  /** One round of the loop in `NboTo`: three exclusive-ors exchange two bytes. */
  method XorSwap(data: array<byte>, first: nat, second: nat)
    requires first < second < data.Length
    modifies data
    ensures data[..] == old(data[..])[first := old(data[second])][second := old(data[first])]
  {
    var a, b := data[first], data[second];
    XorCancel(a, b);
    XorBitsCommute(8, a, b);
    XorCancel(b, a);
    data[first] := Xor(data[first], data[second]);
    data[second] := Xor(data[second], data[first]);
    data[first] := Xor(data[first], data[second]);
    assert data[first] == b && data[second] == a;
  }

  function ReverseSlice(s: seq<byte>, start: nat, size: nat): seq<byte>
    requires start + size <= |s|
  {
    s[..start] + Reverse(s[start..start + size]) + s[start + size..]
  }

  /** The in-place loop, run on `size` bytes of a buffer starting at `start`,
      reverses exactly those bytes. */
  method NboTo(data: array<byte>, start: nat, size: nat)
    requires start + size <= data.Length
    modifies data
    ensures data[..] == ReverseSlice(old(data[..]), start, size)
  {
    var len := size / 2;
    for i := 0 to len
      invariant HalfReversed(old(data[..]), data[..], start, size, i)
    {
      var first, second := start + i, start + (size - i - 1);
      ghost var was := data[..];
      XorSwap(data, first, second);
      HalfReversedStep(old(data[..]), was, data[..], start, size, i);
    }
    HalfReversedEnd(old(data[..]), data[..], start, size);
  }

  /** The outermost `i` pairs of the `size` bytes at `start` are exchanged. */
  ghost predicate HalfReversed(was: seq<byte>, now: seq<byte>, start: nat, size: nat, i: nat)
    requires start + size <= |was| && 2 * i <= size
  {
    && |now| == |was|
    && (forall k :: 0 <= k < start + size - i && !(start <= k < start + i) ==> now[k] == was[k])
    && (forall k :: start + size <= k < |was| ==> now[k] == was[k])
    && (forall k :: start <= k < start + i ==> now[k] == was[2 * start + size - 1 - k])
    && (forall k :: start + size - i <= k < start + size ==> now[k] == was[2 * start + size - 1 - k])
  }

  lemma HalfReversedStep(was: seq<byte>, now: seq<byte>, next: seq<byte>, start: nat, size: nat, i: nat)
    requires start + size <= |was| && 2 * i + 2 <= size
    requires HalfReversed(was, now, start, size, i)
    requires next == now[start + i := now[start + size - i - 1]][start + size - i - 1 := now[start + i]]
    ensures HalfReversed(was, next, start, size, i + 1)
  {
  }

  lemma ReverseSliceLength(s: seq<byte>, start: nat, size: nat)
    requires start + size <= |s|
    ensures |ReverseSlice(s, start, size)| == |s|
  {
  }

  lemma ReverseSliceAt(s: seq<byte>, start: nat, size: nat, k: nat)
    requires start + size <= |s| && k < |s|
    ensures k < |ReverseSlice(s, start, size)|
    ensures ReverseSlice(s, start, size)[k] ==
      if start <= k < start + size then s[2 * start + size - 1 - k] else s[k]
  {
  }

  lemma HalfReversedEnd(was: seq<byte>, now: seq<byte>, start: nat, size: nat)
    requires start + size <= |was|
    requires HalfReversed(was, now, start, size, size / 2)
    ensures now == ReverseSlice(was, start, size)
  {
    hide ReverseSlice;
    ReverseSliceLength(was, start, size);
    forall k | 0 <= k < |was|
      ensures now[k] == ReverseSlice(was, start, size)[k]
    {
      ReverseSliceAt(was, start, size, k);
    }
  }

  /** `convert::nbo::to` on a byte vector passed by value. */
  method NboVector(data: seq<byte>) returns (r: seq<byte>)
    ensures r == Reverse(data)
  {
    var a := new byte[|data|](i requires 0 <= i < |data| => data[i]);
    assert a[..] == data;
    NboTo(a, 0, |data|);
    r := a[..];
    assert data[0..|data|] == data && [] + Reverse(data) + [] == Reverse(data);
  }

  // ----- concatenation -----

  lemma SliceOfAppend<T>(a: seq<T>, b: seq<T>, i: nat, j: nat)
    requires i <= j <= |a|
    ensures (a + b)[i..j] == a[i..j]
    ensures (a + b)[i..] == a[i..] + b
  {
  }

  function Flatten<T>(parts: seq<seq<T>>): seq<T> {
    if parts == [] then [] else parts[0] + Flatten(parts[1..])
  }

  lemma {:induction false} FlattenAppend<T>(a: seq<seq<T>>, b: seq<seq<T>>)
    ensures Flatten(a + b) == Flatten(a) + Flatten(b)
  {
    if a == [] {
      assert a + b == b;
    } else {
      assert (a + b)[1..] == a[1..] + b;
      FlattenAppend(a[1..], b);
    }
  }

  lemma FlattenSnoc<T>(a: seq<seq<T>>, b: seq<T>)
    ensures Flatten(a + [b]) == Flatten(a) + b
  {
    FlattenAppend(a, [b]);
    assert Flatten([b]) == b + Flatten([b][1..]);
    assert b + [] == b;
  }

  /** `convert::vector::collapse_2d_vector`. */
  method Collapse2dVector(vector: seq<seq<byte>>) returns (retval: seq<byte>)
    ensures retval == Flatten(vector)
  {
    retval := [];
    for i := 0 to |vector|
      invariant retval == Flatten(vector[..i])
    {
      assert vector[..i + 1] == vector[..i] + [vector[i]];
      FlattenSnoc(vector[..i], vector[i]);
      retval := retval + vector[i];
    }
    assert vector[..|vector|] == vector;
  }

  // ----- integers in memory -----

  function Pow256(k: nat): (r: nat)
    ensures r > 0
  {
    if k == 0 then 1 else 256 * Pow256(k - 1)
  }

  /** The `k` lowest bytes of `n`, least significant first (x86 memory order). */
  function LittleEndian(n: nat, k: nat): (r: seq<byte>)
    ensures |r| == k
  {
    seq(k, i requires 0 <= i < k => (n / Pow256(i)) % 256)
  }

  /** Dividing by 256 drops the lowest byte. */
  lemma LittleEndianStep(n: nat, k: nat)
    requires k > 0
    ensures LittleEndian(n, k) == [n % 256] + LittleEndian(n / 256, k - 1)
  {
    forall i | 0 <= i < k - 1
      ensures n / Pow256(i + 1) == (n / 256) / Pow256(i)
    {
      DivideTwice(n, Pow256(i));
    }
    assert Pow256(0) == 1;
  }

  lemma DivideTwice(n: nat, p: nat)
    requires p > 0
    ensures n / (256 * p) == (n / 256) / p
  {
    var q, r := (n / 256) / p, (n / 256) % p;
    assert n == (256 * p) * q + (256 * r + n % 256);
    QuotientIs(n, 256 * p, q, 256 * r + n % 256);
  }

  lemma QuotientIs(n: nat, m: nat, q: nat, r: nat)
    requires m > 0 && n == m * q + r && r < m
    ensures n / m == q && n % m == r
  {
    MultiplyMonotone(m, n / m + 1, q);
    MultiplyMonotone(m, q + 1, n / m);
  }

  lemma MultiplyMonotone(m: nat, a: nat, b: nat)
    ensures a <= b ==> m * a <= m * b && a * m <= b * m
  {
    if a <= b {
      assert m * (b - a) >= 0;
    }
  }

  function FromLittleEndian(s: seq<byte>): nat {
    if s == [] then 0 else s[0] + 256 * FromLittleEndian(s[1..])
  }

  lemma {:induction false} FromLittleEndianBound(s: seq<byte>)
    ensures FromLittleEndian(s) < Pow256(|s|)
  {
    if s != [] {
      FromLittleEndianBound(s[1..]);
    }
  }

  lemma {:induction false} LittleEndianDecodes(n: nat, k: nat)
    requires n < Pow256(k)
    ensures FromLittleEndian(LittleEndian(n, k)) == n
  {
    if k > 0 {
      LittleEndianDecodes(n / 256, k - 1);
      LittleEndianStep(n, k);
    }
  }

  lemma {:induction false} LittleEndianEncodes(s: seq<byte>)
    ensures LittleEndian(FromLittleEndian(s), |s|) == s
  {
    if s != [] {
      LittleEndianEncodes(s[1..]);
      var n := FromLittleEndian(s);
      assert n % 256 == s[0] && n / 256 == FromLittleEndian(s[1..]);
      LittleEndianStep(n, |s|);
      assert s == [s[0]] + s[1..];
    }
  }

  /** Network byte order: most significant byte first. */
  function BigEndian(n: nat, k: nat): (r: seq<byte>)
    ensures |r| == k
  {
    Reverse(LittleEndian(n, k))
  }

  function FromBigEndian(s: seq<byte>): nat {
    FromLittleEndian(Reverse(s))
  }

  lemma BigEndianDecodes(n: nat, k: nat)
    requires n < Pow256(k)
    ensures FromBigEndian(BigEndian(n, k)) == n
  {
    ReverseTwice(LittleEndian(n, k));
    LittleEndianDecodes(n, k);
  }

  /** One and two bytes in network byte order. */
  lemma SmallBigEndian(n: uint16)
    ensures n < 256 ==> BigEndian(n, 1) == [n]
    ensures BigEndian(n, 2) == [n / 256, n % 256] && FromBigEndian([n / 256, n % 256]) == n
  {
    assert Pow256(0) == 1 && Pow256(1) == 256 && Pow256(2) == 65536;
    assert LittleEndian(n, 1) == [n % 256] && LittleEndian(n, 2) == [n % 256, n / 256];
    BigEndianDecodes(n, 2);
  }
}
