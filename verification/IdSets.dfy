// Identifiers (src/id/id.h, src/id/id.cpp) and their packed lists
// (src/id/set/id_set.cpp, src/id/set/id_set_copy.cpp).

module Ids {
  import opened Bytes

  const TYPE_COUNT: nat := 41
  const TYPE_ID_TIER_STATE: byte := 29

  /** Eight bytes of UUID, 32 bytes of owner hash and one type byte. */
  type Id = s: seq<byte> | |s| == 41 witness Zeros(41)

  function Zeros(n: nat): (r: seq<byte>)
    ensures |r| == n && forall i :: 0 <= i < n ==> r[i] == 0
  {
    seq(n, _ => 0)
  }

  /** `ID_BLANK_ID`. */
  function BlankId(): Id {
    Zeros(41)
  }

  function Uuid(id: Id): nat {
    FromLittleEndian(id[..8])
  }

  function Hash(id: Id): seq<byte> {
    id[8..40]
  }

  function Type(id: Id): byte {
    id[40]
  }

  predicate BlankHash(hash: seq<byte>) {
    forall i :: 0 <= i < |hash| ==> hash[i] == 0
  }

  /** What `id_api::assert_valid_id` lets through. */
  predicate ValidId(id: Id) {
    id == BlankId() || (Type(id) <= TYPE_COUNT && Uuid(id) != 0)
  }

  predicate AllValid(ids: seq<Id>) {
    forall i :: 0 <= i < |ids| ==> ValidId(ids[i])
  }

  /** In bytes: all of them zero, or a type of at most 41 and a UUID that is not zero. */
  lemma ValidIdInBytes(id: Id)
    ensures ValidId(id) <==>
      (forall i :: 0 <= i < 41 ==> id[i] == 0) || (id[40] <= 41 && exists i :: 0 <= i < 8 && id[i] != 0)
  {
    DecodesToZero(id[..8]);
    assert (forall i :: 0 <= i < 41 ==> id[i] == 0) <==> id == BlankId();
  }

  lemma {:induction false} DecodesToZero(s: seq<byte>)
    ensures FromLittleEndian(s) == 0 <==> forall i :: 0 <= i < |s| ==> s[i] == 0
  {
    if s != [] {
      DecodesToZero(s[1..]);
      assert forall i :: 1 <= i < |s| ==> s[i] == s[1..][i - 1];
    }
  }

  method AssertValidIds(ids: seq<Id>) returns (ok: bool)
    ensures ok <==> AllValid(ids)
  {
    for i := 0 to |ids|
      invariant AllValid(ids[..i])
    {
      if !ValidId(ids[i]) {
        return false;
      }
    }
    assert ids[..|ids|] == ids;
    return true;
  }
}

module IdSets {
  import opened Bytes
  import opened Ids

  const SCHEME_COPY: byte := 1

  function ReverseEach(ids: seq<Id>): (r: seq<Id>)
    ensures |r| == |ids|
  {
    seq(|ids|, i requires 0 <= i < |ids| => Reverse(ids[i]))
  }

  lemma ReverseEachTwice(ids: seq<Id>)
    ensures ReverseEach(ReverseEach(ids)) == ids
  {
    forall i | 0 <= i < |ids|
      ensures ReverseEach(ReverseEach(ids))[i] == ids[i]
    {
      ReverseTwice(ids[i]);
    }
  }

  /** A byte vector read as an array of identifiers. */
  function SplitIds(s: seq<byte>): seq<Id>
    requires |s| % 41 == 0
    decreases |s|
  {
    if s == [] then [] else [s[..41]] + SplitIds(s[41..])
  }

  lemma {:induction false} SplitFlatten(ids: seq<Id>)
    ensures |Flatten(ids)| == 41 * |ids|
    ensures SplitIds(Flatten(ids)) == ids
  {
    if ids != [] {
      SplitFlatten(ids[1..]);
      var s := Flatten(ids);
      assert s[..41] == ids[0] && s[41..] == Flatten(ids[1..]);
    }
  }

  lemma {:induction false} FlattenSplit(s: seq<byte>)
    requires |s| % 41 == 0
    ensures Flatten(SplitIds(s)) == s
    decreases |s|
  {
    if s != [] {
      FlattenSplit(s[41..]);
      assert SplitIds(s)[1..] == SplitIds(s[41..]);
    }
  }

  // ----- src/id/set/id_set_copy.cpp -----

  function CompactCopy(ids: seq<Id>): seq<byte> {
    Flatten(ReverseEach(ids))
  }

  function ExpandCopy(s: seq<byte>): Result<seq<Id>> {
    if |s| % 41 == 0 then Ok(ReverseEach(SplitIds(s))) else Err
  }

  method NboEach(ids: seq<Id>) returns (r: seq<Id>)
    ensures r == ReverseEach(ids)
  {
    r := ids;
    for i := 0 to |ids|
      invariant |r| == |ids|
      invariant forall k :: 0 <= k < i ==> r[k] == Reverse(ids[k])
      invariant forall k :: i <= k < |ids| ==> r[k] == ids[k]
    {
      var reversed := NboVector(r[i]);
      r := r[i := reversed];
    }
  }

  method CompactIdSetCopy(idSet: seq<Id>) returns (retval: seq<byte>)
    ensures retval == CompactCopy(idSet)
  {
    var reversed := NboEach(idSet);
    retval := Collapse2dVector(reversed);
  }

  method ExpandIdSetCopy(idSet: seq<byte>) returns (retval: Result<seq<Id>>)
    ensures retval == ExpandCopy(idSet)
  {
    if |idSet| % 41 != 0 {
      return Err;
    }
    var ids := NboEach(SplitIds(idSet));
    return Ok(ids);
  }

  lemma CopyRoundTrip(ids: seq<Id>)
    ensures |CompactCopy(ids)| == 41 * |ids|
    ensures ExpandCopy(CompactCopy(ids)) == Ok(ids)
  {
    SplitFlatten(ReverseEach(ids));
    ReverseEachTwice(ids);
  }

  // ----- src/id/set/id_set.cpp -----

  function Compact(ids: seq<Id>): seq<byte> {
    if ids == [] then [] else [SCHEME_COPY] + CompactCopy(ids)
  }

  /** Only the copy scheme is read; any other scheme byte is a failure here. */
  function Expand(idSet: seq<byte>): Result<seq<Id>> {
    if |idSet| <= 2 then Ok([])
    else if idSet[0] != SCHEME_COPY then Err
    else
      var raw := ExpandCopy(idSet[1..]);
      if raw.Ok? && AllValid(raw.value) then raw else Err
  }

  method ExpandIdSet(idSet: seq<byte>) returns (retval: Result<seq<Id>>)
    ensures retval == Expand(idSet)
  {
    if |idSet| <= 2 {
      return Ok([]);
    }
    if idSet[0] != SCHEME_COPY {
      return Err;
    }
    retval := ExpandIdSetCopy(idSet[1..]);
    if retval.Ok? {
      var ok := AssertValidIds(retval.value);
      if !ok {
        return Err;
      }
    }
  }

  method CompactIdSet(idSet: seq<Id>) returns (retval: seq<byte>)
    ensures retval == Compact(idSet)
  {
    if |idSet| == 0 {
      return [];
    }
    retval := CompactIdSetCopy(idSet);
    retval := [SCHEME_COPY] + retval;
  }

  /** A packed list unpacks to itself exactly when its identifiers are valid. */
  lemma CompactRoundTrip(ids: seq<Id>)
    ensures Expand(Compact(ids)) == if AllValid(ids) then Ok(ids) else Err
  {
    CopyRoundTrip(ids);
    if ids != [] {
      assert Compact(ids)[1..] == CompactCopy(ids);
    }
  }

  /** Packing is the only encoding of a non-empty list. */
  lemma ExpandIsInjective(idSet: seq<byte>)
    requires Expand(idSet).Ok? && |idSet| > 2
    ensures Compact(Expand(idSet).value) == idSet
  {
    var raw := SplitIds(idSet[1..]);
    FlattenSplit(idSet[1..]);
    ReverseEachTwice(raw);
  }

  method AddIdToSet(idSet: seq<byte>, id: Id) returns (r: Result<seq<byte>>)
    ensures match Expand(idSet)
      case Ok(ids) => r == Ok(Compact(ids + [id]))
      case Err => r == Err
  {
    var out := ExpandIdSet(idSet);
    if out.Err? {
      return Err;
    }
    var packed := CompactIdSet(out.value + [id]);
    return Ok(packed);
  }

  function Without(ids: seq<Id>, id: Id): seq<Id> {
    if ids == [] then [] else (if ids[0] == id then [] else [ids[0]]) + Without(ids[1..], id)
  }

  lemma {:induction false} WithoutAppend(a: seq<Id>, b: seq<Id>, id: Id)
    ensures Without(a + b, id) == Without(a, id) + Without(b, id)
  {
    if a == [] {
      assert a + b == b;
    } else {
      assert (a + b)[1..] == a[1..] + b;
      WithoutAppend(a[1..], b, id);
    }
  }

  /** Every occurrence goes; every other identifier keeps its multiplicity. */
  lemma {:induction false} WithoutCounts(ids: seq<Id>, id: Id, other: Id)
    ensures multiset(Without(ids, id))[other] == if other == id then 0 else multiset(ids)[other]
  {
    if ids != [] {
      WithoutCounts(ids[1..], id, other);
      assert ids == [ids[0]] + ids[1..];
    }
  }

  lemma WithoutStep(out: seq<Id>, i: nat, id: Id)
    requires i < |out|
    ensures out[..i] + Without(out[i..], id) ==
      if out[i] == id then out[..i] + Without(out[i + 1..], id) else out[..i + 1] + Without(out[i + 1..], id)
  {
    assert out[i..][1..] == out[i + 1..] && out[..i + 1] == out[..i] + [out[i]];
  }

  /** The loop of src/id/set/id_set.cpp:138-143; stepping the index back below
      zero wraps around, and the loop increment wraps it forward again. */
  method EraseId(out_: seq<Id>, id: Id) returns (out: seq<Id>)
    ensures out == Without(out_, id)
  {
    out := out_;
    var i := 0;
    while i < |out|
      invariant 0 <= i <= |out|
      invariant out[..i] + Without(out[i..], id) == Without(out_, id)
      decreases |out| - i
    {
      WithoutStep(out, i, id);
      if out[i] == id {
        ghost var was := out;
        out := out[..i] + out[i + 1..];
        assert out[..i] == was[..i] && out[i..] == was[i + 1..];
        i := i - 1;
      }
      i := i + 1;
    }
    assert out[..i] == out && out[i..] == [];
  }

  /** The identifier is pushed before it is erased everywhere. */
  method DelIdFromSet(idSet: seq<byte>, id: Id) returns (r: Result<seq<byte>>)
    ensures match Expand(idSet)
      case Ok(ids) => r == Ok(Compact(Without(ids, id)))
      case Err => r == Err
  {
    hide Expand, Compact;
    var expanded := ExpandIdSet(idSet);
    if expanded.Err? {
      return Err;
    }
    var out := expanded.value + [id];
    WithoutAppend(expanded.value, [id], id);
    assert Without([id], id) == [] + Without([id][1..], id);
    out := EraseId(out, id);
    assert out == Without(expanded.value, id);
    var packed := CompactIdSet(out);
    return Ok(packed);
  }

  method SizeOfIdSet(idSet: seq<byte>) returns (r: Result<nat>)
    ensures match Expand(idSet)
      case Ok(ids) => r == Ok(|ids|)
      case Err => r == Err
  {
    var expanded := ExpandIdSet(idSet);
    if expanded.Err? {
      return Err;
    }
    return Ok(|expanded.value|);
  }

  // ----- the format -----

  /** A packed list is the scheme byte 1 and then each identifier backwards. */
  lemma PackedFormat(ids: seq<Id>, i: nat, k: nat)
    requires i < |ids| && k < 41
    ensures |Compact(ids)| == 1 + 41 * |ids| && Compact(ids)[0] == 1
    ensures Compact(ids)[1 + 41 * i + k] == ids[i][40 - k]
  {
    CopyRoundTrip(ids);
    FlattenAt(ReverseEach(ids), i, k);
  }

  lemma {:induction false} FlattenAt(ids: seq<Id>, i: nat, k: nat)
    requires i < |ids| && k < 41
    ensures 41 * i + k < |Flatten(ids)| && Flatten(ids)[41 * i + k] == ids[i][k]
  {
    if i > 0 {
      FlattenAt(ids[1..], i - 1, k);
    }
  }

  /** What unpacks: at most two bytes, to nothing; else the scheme byte 1 and whole
      identifiers, all of them valid. */
  lemma ExpandOkExactly(s: seq<byte>)
    ensures |s| <= 2 ==> Expand(s) == Ok([])
    ensures |s| > 2 ==> (Expand(s).Ok? <==> s[0] == 1 && (|s| - 1) % 41 == 0 && exists ids :: IsPacked(ids, s))
  {
    if |s| > 2 && Expand(s).Ok? {
      ExpandIsInjective(s);
      ExpandedValid(s);
      assert IsPacked(Expand(s).value, s);
    }
    if ids :| IsPacked(ids, s) {
      CompactRoundTrip(ids);
    }
  }

  lemma ExpandedValid(s: seq<byte>)
    requires Expand(s).Ok?
    ensures AllValid(Expand(s).value)
  {
    hide ExpandCopy, ValidId;
  }

  predicate IsPacked(ids: seq<Id>, s: seq<byte>) {
    AllValid(ids) && Compact(ids) == s
  }
}
