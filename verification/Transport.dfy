// The byte format of identified objects (src/id/id_transport.cpp): sizes,
// payloads, transport rules and the records that carry one field each.
//
// Every printer appends to a byte vector and every parser takes its bytes off
// the front of one.  A printer or parser that throws leaves a vector that all
// its callers discard, so nothing is said about that vector.

module Transport {
  import opened Bytes

  type Parsed<+T> = Result<(T, seq<byte>)>

  // ----- static sizes -----

  function TakeReversed(s: seq<byte>, n: nat): (r: Parsed<seq<byte>>)
    ensures r.Ok? ==> |r.value.0| == n && |r.value.1| == |s| - n
  {
    if n <= |s| then Ok((Reverse(s[..n]), s[n..])) else Err
  }

  lemma TakeReversedPrinted(p: seq<byte>, rest: seq<byte>)
    ensures TakeReversed(Reverse(p) + rest, |p|) == Ok((p, rest))
  {
    ReverseTwice(p);
    assert (Reverse(p) + rest)[..|p|] == Reverse(p) && (Reverse(p) + rest)[|p|..] == rest;
  }

  method ExportStaticSizePayload(pusher: Vector<byte>, data: seq<byte>)
    modifies pusher
    ensures pusher.elems == old(pusher.elems) + Reverse(data)
  {
    var old_ := pusher.elems;
    var all := old_ + data;
    var a := new byte[|all|](i requires 0 <= i < |all| => all[i]);
    assert a[..] == all;
    NboTo(a, |all| - |data|, |data|);
    assert all[..|old_|] == old_ && all[|old_|..|old_| + |data|] == data && all[|old_| + |data|..] == [];
    pusher.elems := a[..];
  }

  method ImportStaticSizePayload(puller: Vector<byte>, size: nat) returns (data: Result<seq<byte>>)
    modifies puller
    ensures match TakeReversed(old(puller.elems), size)
      case Ok((d, rest)) => data == Ok(d) && puller.elems == rest
      case Err => data == Err
  {
    if |puller.elems| < size {
      return Err;
    }
    var d := NboVector(puller.elems[..size]);
    puller.elems := puller.elems[size..];
    return Ok(d);
  }

  // ----- eight-bit sizes -----

  function Print8(p: seq<byte>): Result<seq<byte>> {
    if |p| <= 255 then Ok([|p|] + Reverse(p)) else Err
  }

  /** Reading past the end of the vector, undefined in the source, is a failure. */
  function Parse8(s: seq<byte>): (r: Parsed<seq<byte>>)
    ensures r.Ok? ==> |r.value.0| <= 255 && |r.value.1| < |s|
  {
    if s == [] then Err else TakeReversed(s[1..], s[0])
  }

  lemma Parse8Printed(p: seq<byte>, rest: seq<byte>)
    requires |p| <= 255
    ensures Parse8(Print8(p).value + rest) == Ok((p, rest))
  {
    TakeReversedPrinted(p, rest);
    assert (([|p|] + Reverse(p)) + rest)[1..] == Reverse(p) + rest;
  }

  method Export8BitSizePayload(pusher: Vector<byte>, payload: seq<byte>) returns (ok: bool)
    modifies pusher
    ensures ok == Print8(payload).Ok?
    ensures ok ==> pusher.elems == old(pusher.elems) + Print8(payload).value
  {
    if |payload| > 255 {
      return false;
    }
    pusher.elems := pusher.elems + [|payload|];
    var reversed := NboVector(payload);
    pusher.elems := pusher.elems + reversed;
    return true;
  }

  method Import8BitSizePayload(puller: Vector<byte>) returns (retval: Result<seq<byte>>)
    modifies puller
    ensures match Parse8(old(puller.elems))
      case Ok((d, rest)) => retval == Ok(d) && puller.elems == rest
      case Err => retval == Err
  {
    if puller.elems == [] {
      return Err;
    }
    var size := puller.elems[0];
    puller.elems := puller.elems[1..];
    retval := ImportStaticSizePayload(puller, size);
  }

  // ----- dynamic sizes -----

  const SIZE_LIMIT: nat := 0x100_0000_0000_0000

  /** The fewest bytes, at least one, that hold `n`. */
  function ByteCount(n: nat): (k: nat)
    requires n < SIZE_LIMIT
    ensures 1 <= k <= 7
  {
    if n <= 0xFF then 1
    else if n <= 0xFFFF then 2
    else if n <= 0xFF_FFFF then 3
    else if n <= 0xFFFF_FFFF then 4
    else if n <= 0xFF_FFFF_FFFF then 5
    else if n <= 0xFFFF_FFFF_FFFF then 6
    else 7
  }

  lemma ByteCountIsLeast(n: nat)
    requires n < SIZE_LIMIT
    ensures n < Pow256(ByteCount(n))
    ensures forall k :: 1 <= k < ByteCount(n) ==> n >= Pow256(k)
  {
    assert Pow256(1) == 0x100 && Pow256(2) == 0x1_0000 && Pow256(3) == 0x100_0000;
    assert Pow256(4) == 0x1_0000_0000 && Pow256(5) == 0x100_0000_0000;
    assert Pow256(6) == 0x1_0000_0000_0000 && Pow256(7) == SIZE_LIMIT;
  }

  /** A size: the number of its bytes, then the bytes. */
  function PrintSize(n: nat): Result<seq<byte>> {
    if n < SIZE_LIMIT then Ok([ByteCount(n)] + BigEndian(n, ByteCount(n))) else Err
  }

  function ParseSize(s: seq<byte>): (r: Parsed<nat>)
    ensures r.Ok? ==> |r.value.1| < |s|
  {
    if s == [] || |s| - 1 < s[0] || s[0] > 8 then Err
    else Ok((FromBigEndian(s[1..1 + s[0]]), s[1 + s[0]..]))
  }

  /** Sizes are self-delimiting and decode to themselves below 2^56. */
  lemma ParseSizePrinted(n: nat, rest: seq<byte>)
    requires n < SIZE_LIMIT
    ensures ParseSize(PrintSize(n).value + rest) == Ok((n, rest))
  {
    var k := ByteCount(n);
    var s := PrintSize(n).value + rest;
    ByteCountIsLeast(n);
    BigEndianDecodes(n, k);
    assert s[1..1 + k] == BigEndian(n, k) && s[1 + k..] == rest;
  }

  /** Small sizes in bytes. */
  lemma SizeFormat(n: uint16)
    ensures n < 256 ==> PrintSize(n) == Ok([1, n])
    ensures n >= 256 ==> PrintSize(n) == Ok([2, n / 256, n % 256])
  {
    hide BigEndian;
    SmallBigEndian(n);
    assert [1] + [n % 256] == [1, n % 256] && [2] + [n / 256, n % 256] == [2, n / 256, n % 256];
  }

  /** Sizes are written with up to seven bytes but read with up to eight. */
  lemma SizeLimits(n: nat, eight: seq<byte>, rest: seq<byte>)
    requires |eight| == 8
    ensures PrintSize(n).Ok? <==> n < 0x100_0000_0000_0000
    ensures ParseSize([8] + eight + rest) == Ok((FromBigEndian(eight), rest))
    ensures ParseSize([9] + eight + rest).Err?
  {
    assert ([8] + eight + rest)[1..9] == eight && ([8] + eight + rest)[9..] == rest;
  }

  method ExportGenDynamicSize(size: nat) returns (retval: Result<seq<byte>>)
    ensures retval == PrintSize(size)
  {
    if size >= SIZE_LIMIT {
      return Err;
    }
    var byteCount := ByteCount(size);
    var payloadSize := NboVector(LittleEndian(size, byteCount));
    return Ok([byteCount] + payloadSize);
  }

  method ImportGenDynamicSize(puller: Vector<byte>) returns (retval: Result<nat>)
    modifies puller
    ensures match ParseSize(old(puller.elems))
      case Ok((n, rest)) => retval == Ok(n) && puller.elems == rest
      case Err => retval == Err
  {
    if puller.elems == [] {
      return Err;
    }
    var sizeSize := puller.elems[0];
    puller.elems := puller.elems[1..];
    if |puller.elems| < sizeSize || sizeSize > 8 {
      return Err;
    }
    assert puller.elems[..sizeSize] == old(puller.elems)[1..1 + sizeSize];
    var bytes := NboVector(puller.elems[..sizeSize]);
    puller.elems := puller.elems[sizeSize..];
    return Ok(FromLittleEndian(bytes));
  }

  function PrintPayload(p: seq<byte>): Result<seq<byte>> {
    var size :- PrintSize(|p|);
    Ok(size + Reverse(p))
  }

  function ParsePayload(s: seq<byte>): (r: Parsed<seq<byte>>)
    ensures r.Ok? ==> |r.value.0| + |r.value.1| < |s|
  {
    var (n, rest) :- ParseSize(s);
    TakeReversed(rest, n)
  }

  lemma ParsePayloadPrinted(p: seq<byte>, rest: seq<byte>)
    requires PrintPayload(p).Ok?
    ensures ParsePayload(PrintPayload(p).value + rest) == Ok((p, rest))
  {
    hide ParseSize, PrintSize, TakeReversed;
    assert |p| < SIZE_LIMIT by { SizePrints(|p|); }
    var size := PrintSize(|p|).value;
    ParseSizePrinted(|p|, Reverse(p) + rest);
    TakeReversedPrinted(p, rest);
    assert (size + Reverse(p)) + rest == size + (Reverse(p) + rest);
  }

  /** A payload is read exactly when all of its bytes are there. */
  lemma PayloadReadsExactly(n: nat, rest: seq<byte>)
    requires n < SIZE_LIMIT
    ensures ParsePayload(PrintSize(n).value + rest) ==
      if n <= |rest| then Ok((Reverse(rest[..n]), rest[n..])) else Err
  {
    hide PrintSize, ParseSize;
    SizePrints(n);
    ParseSizePrinted(n, rest);
  }

  lemma SizePrints(n: nat)
    ensures PrintSize(n).Ok? <==> n < SIZE_LIMIT
  {
  }

  method ExportDynamicSizePayload(pusher: Vector<byte>, payload: seq<byte>) returns (ok: bool)
    modifies pusher
    ensures ok == PrintPayload(payload).Ok?
    ensures ok ==> pusher.elems == old(pusher.elems) + PrintPayload(payload).value
  {
    var sizeData := ExportGenDynamicSize(|payload|);
    if sizeData.Err? {
      return false;
    }
    pusher.elems := pusher.elems + sizeData.value;
    var reversed := NboVector(payload);
    pusher.elems := pusher.elems + reversed;
    return true;
  }

  method ImportDynamicSizePayload(puller: Vector<byte>) returns (retval: Result<seq<byte>>)
    modifies puller
    ensures match ParsePayload(old(puller.elems))
      case Ok((d, rest)) => retval == Ok(d) && puller.elems == rest
      case Err => retval == Err
  {
    var size := ImportGenDynamicSize(puller);
    if size.Err? {
      return Err;
    }
    retval := ImportStaticSizePayload(puller, size.value);
  }

  // ----- transport rules -----

  type Tier = (byte, byte)

  datatype Rules = Rules(tier: seq<Tier>, intermediary: seq<byte>)

  function TierBytes(tiers: seq<Tier>): (r: seq<byte>)
    ensures |r| == 2 * |tiers|
  {
    if tiers == [] then [] else [tiers[0].0, tiers[0].1] + TierBytes(tiers[1..])
  }

  function BytesToTiers(s: seq<byte>): (r: seq<Tier>)
    requires |s| % 2 == 0
    ensures 2 * |r| == |s|
  {
    if s == [] then [] else [(s[0], s[1])] + BytesToTiers(s[2..])
  }

  lemma {:induction false} TierBytesRoundTrip(tiers: seq<Tier>)
    ensures BytesToTiers(TierBytes(tiers)) == tiers
  {
    if tiers != [] {
      TierBytesRoundTrip(tiers[1..]);
      assert TierBytes(tiers)[2..] == TierBytes(tiers[1..]);
    }
  }

  lemma {:induction false} TierBytesAppend(a: seq<Tier>, t: Tier)
    ensures TierBytes(a + [t]) == TierBytes(a) + [t.0, t.1]
  {
    if a == [] {
      assert a + [t] == [t];
      assert TierBytes([t]) == [t.0, t.1] + TierBytes([t][1..]);
    } else {
      TierBytesAppend(a[1..], t);
      assert (a + [t])[1..] == a[1..] + [t];
    }
  }

  function PrintRules(r: Rules): Result<seq<byte>> {
    var tier :- Print8(TierBytes(r.tier));
    var intermediary :- Print8(r.intermediary);
    Ok(tier + intermediary)
  }

  function ParseRules(s: seq<byte>): (r: Parsed<Rules>)
    ensures r.Ok? ==> |r.value.1| < |s| && |r.value.0.tier| <= 127 && |r.value.0.intermediary| <= 255
  {
    var (tier, rest) :- Parse8(s);
    if |tier| % 2 != 0 then Err
    else
      var (intermediary, rest) :- Parse8(rest);
      Ok((Rules(BytesToTiers(tier), intermediary), rest))
  }

  /** Up to 127 tiers and 255 intermediaries fit. */
  lemma RulesPrint(r: Rules)
    ensures PrintRules(r).Ok? <==> |r.tier| <= 127 && |r.intermediary| <= 255
  {
  }

  lemma ParseRulesPrinted(r: Rules, rest: seq<byte>)
    requires PrintRules(r).Ok?
    ensures ParseRules(PrintRules(r).value + rest) == Ok((r, rest))
  {
    hide Parse8, Print8, TierBytes, BytesToTiers;
    PrintRulesParts(r);
    TierBytesRoundTrip(r.tier);
    var tier, intermediary := TierBytes(r.tier), r.intermediary;
    Parse8Printed(intermediary, rest);
    Parse8Printed(tier, Print8(intermediary).value + rest);
    assert PrintRules(r).value + rest == Print8(tier).value + (Print8(intermediary).value + rest);
  }

  lemma PrintRulesParts(r: Rules)
    requires PrintRules(r).Ok?
    ensures |TierBytes(r.tier)| <= 255 && |r.intermediary| <= 255
    ensures Print8(TierBytes(r.tier)).Ok? && Print8(r.intermediary).Ok?
  {
  }

  /** Rules are read exactly when both lengths fit and the first is even. */
  lemma RulesReadExactly(s: seq<byte>)
    ensures ParseRules(s).Ok? <==>
      |s| >= 1 && s[0] % 2 == 0 && |s| - 2 >= s[0] && |s| - 2 - s[0] >= s[1 + s[0]]
    ensures ParseRules(s).Ok? ==>
      var (rules, rest) := ParseRules(s).value;
      && |rules.tier| == s[0] / 2
      && rules.intermediary == Reverse(s[2 + s[0]..][..s[1 + s[0]]])
      && rest == s[2 + s[0]..][s[1 + s[0]]..]
  {
    if |s| >= 1 && |s| - 1 >= s[0] {
      assert s[1..][s[0]..] == s[1 + s[0]..];
      if |s| - 2 >= s[0] {
        assert s[1 + s[0]..][1..] == s[2 + s[0]..];
      }
    }
  }

  method StringifyRulesTier(tierVector: seq<Tier>) returns (retval: seq<byte>)
    ensures retval == TierBytes(tierVector)
  {
    retval := [];
    for i := 0 to |tierVector|
      invariant retval == TierBytes(tierVector[..i])
    {
      TierBytesAppend(tierVector[..i], tierVector[i]);
      assert tierVector[..i + 1] == tierVector[..i] + [tierVector[i]];
      retval := retval + [tierVector[i].0];
      retval := retval + [tierVector[i].1];
    }
    assert tierVector[..|tierVector|] == tierVector;
  }

  method UnstringifyRulesTier(str: seq<byte>) returns (retval: Result<seq<Tier>>)
    ensures retval == if |str| % 2 == 0 then Ok(BytesToTiers(str)) else Err
  {
    if |str| % 2 != 0 {
      return Err;
    }
    var tiers := [];
    var i := 0;
    while i < |str|
      invariant i <= |str| && i % 2 == 0
      invariant tiers + BytesToTiers(str[i..]) == BytesToTiers(str)
    {
      assert str[i..][2..] == str[i + 2..];
      assert tiers + BytesToTiers(str[i..]) == (tiers + [(str[i], str[i + 1])]) + BytesToTiers(str[i + 2..]);
      assert BytesToTiers(str[i..]) == [(str[i], str[i + 1])] + BytesToTiers(str[i + 2..]);
      tiers := tiers + [(str[i], str[i + 1])];
      i := i + 2;
    }
    assert str[i..] == [] && tiers + [] == tiers;
    return Ok(tiers);
  }

  method StringifyRules(pusher: Vector<byte>, rules: Rules) returns (ok: bool)
    modifies pusher
    ensures ok == PrintRules(rules).Ok?
    ensures ok ==> pusher.elems == old(pusher.elems) + PrintRules(rules).value
  {
    var tier := StringifyRulesTier(rules.tier);
    ok := Export8BitSizePayload(pusher, tier);
    if ok {
      ok := Export8BitSizePayload(pusher, rules.intermediary);
    }
  }

  method UnstringifyRules(puller: Vector<byte>) returns (r: Result<Rules>)
    modifies puller
    ensures match ParseRules(old(puller.elems))
      case Ok((rules, rest)) => r == Ok(rules) && puller.elems == rest
      case Err => r == Err
  {
    var str := Import8BitSizePayload(puller);
    if str.Err? {
      return Err;
    }
    var rules := UnstringifyRulesTier(str.value);
    if rules.Err? {
      return Err;
    }
    var intermediary := Import8BitSizePayload(puller);
    if intermediary.Err? {
      return Err;
    }
    return Ok(Rules(rules.value, intermediary.value));
  }
}
