// Exporting and importing whole objects (src/id/id_export.cpp,
// src/id/id_import.cpp, src/id/id_transport_data_ptr.cpp).

module Objects {
  import opened Bytes
  import opened Ids
  import opened Transport
  import opened Records
  import IdSets

  /** The four one-dimensional kinds of registered data. */
  datatype Field =
    | Raw(mem: seq<byte>)
    | IdArray(ids: seq<Id>)
    | ByteVector(bytes: seq<byte>)
    | EightByteVector(words: seq<uint64>)

  datatype Datum = Datum(field: Field, rules: Rules)

  datatype Object = Object(id: Id, modInc: uint64, data: seq<Datum>)

  // ----- memory of a field -----

  function WordsMemory(words: seq<uint64>): (r: seq<byte>)
    ensures |r| == 8 * |words|
  {
    if words == [] then [] else LittleEndian(words[0], 8) + WordsMemory(words[1..])
  }

  function MemoryWords(s: seq<byte>): seq<uint64>
    requires |s| % 8 == 0
  {
    if s == [] then [] else [Uint64Of(s[..8])] + MemoryWords(s[8..])
  }

  function Uint64Of(s: seq<byte>): uint64
    requires |s| == 8
  {
    FromLittleEndianBound(s);
    assert Pow256(8) == U64;
    FromLittleEndian(s)
  }

  lemma Uint64RoundTrip(n: uint64)
    ensures Uint64Of(LittleEndian(n, 8)) == n
  {
    assert Pow256(8) == U64;
    LittleEndianDecodes(n, 8);
  }

  lemma {:induction false} WordsRoundTrip(words: seq<uint64>)
    ensures MemoryWords(WordsMemory(words)) == words
  {
    hide Uint64Of, LittleEndian;
    if words != [] {
      WordsRoundTrip(words[1..]);
      Uint64RoundTrip(words[0]);
      var s := WordsMemory(words);
      assert s[..8] == LittleEndian(words[0], 8) && s[8..] == WordsMemory(words[1..]);
    }
  }

  function Memory(f: Field): seq<byte> {
    match f
    case Raw(mem) => mem
    case IdArray(ids) => Flatten(ids)
    case ByteVector(bytes) => bytes
    case EightByteVector(words) => WordsMemory(words)
  }

  predicate VariableLength(f: Field) {
    f.ByteVector? || f.EightByteVector?
  }

  /** Writing an exported payload over the field `f`. */
  function Load(f: Field, mem: seq<byte>): Result<Field> {
    match f
    case Raw(was) => if |mem| == |was| then Ok(Raw(mem)) else Err
    case IdArray(was) => if |mem| == 41 * |was| then Ok(IdArray(IdSets.SplitIds(mem))) else Err
    case ByteVector(_) => Ok(ByteVector(mem))
    case EightByteVector(_) => if |mem| % 8 == 0 then Ok(EightByteVector(MemoryWords(mem))) else Err
  }

  /** Same kind, and the same size where the kind has a fixed size. */
  predicate SameShape(a: Field, b: Field) {
    match a
    case Raw(mem) => b.Raw? && |b.mem| == |mem|
    case IdArray(ids) => b.IdArray? && |b.ids| == |ids|
    case ByteVector(_) => b.ByteVector?
    case EightByteVector(_) => b.EightByteVector?
  }

  lemma LoadRestores(f: Field, target: Field)
    requires SameShape(f, target)
    ensures Load(target, Memory(f)) == Ok(f)
  {
    hide MemoryWords, WordsMemory, IdSets.SplitIds, Flatten;
    match f
    case Raw(_) =>
    case IdArray(ids) => IdSets.SplitFlatten(ids);
    case ByteVector(_) =>
    case EightByteVector(words) =>
      WordsRoundTrip(words);
      assert |WordsMemory(words)| == 8 * |words|;
  }

  // ----- export -----

  function DatumRecord(d: Datum, i: nat): Record {
    Record([Memory(d.field)], i % U16, d.rules)
  }

  /** An empty vector exports nothing; an empty fixed-size field throws. */
  function PrintDatum(d: Datum, i: nat): Result<seq<byte>> {
    if Memory(d.field) != [] then PrintRecord(DatumRecord(d, i))
    else if VariableLength(d.field) then Ok([])
    else Err
  }

  function PrintData(data: seq<Datum>, i: nat): Result<seq<byte>>
    requires i <= |data|
    decreases |data| - i
  {
    if i == |data| then Ok([])
    else
      var first :- PrintDatum(data[i], i);
      var more :- PrintData(data, i + 1);
      Ok(first + more)
  }

  function Preamble(extra: byte, id: Id, modInc: uint64): (r: seq<byte>)
    ensures |r| == 50 && r[0] == extra
  {
    [extra] + Reverse(id) + BigEndian(modInc, 8)
  }

  /** `owner` is the hash of the running node's key. */
  function PrintObject(o: Object, extra: byte, owner: seq<byte>): Result<seq<byte>> {
    if Hash(o.id) != owner || extra >= 4 then Err
    else
      var fields :- PrintData(o.data, 0);
      Ok(Preamble(extra, o.id, o.modInc) + fields)
  }

  // ----- import -----

  function ParseDatum(data: seq<Datum>, s: seq<byte>): (r: Parsed<seq<Datum>>)
    ensures r.Ok? ==> |r.value.1| < |s| && |r.value.0| == |data|
  {
    var (record, rest) :- ParseRecord(s, false);
    if record.transI >= |data| || |record.nether| != 1 then Err
    else
      var field :- Load(data[record.transI].field, record.nether[0]);
      Ok((data[record.transI := data[record.transI].(field := field)], rest))
  }

  /** Fields are taken until the bytes end or one of them fails. */
  function ParseData(data: seq<Datum>, s: seq<byte>): seq<Datum>
    decreases |s|
  {
    if s == [] then data
    else match ParseDatum(data, s)
      case Ok((data', rest)) => ParseData(data', rest)
      case Err => data
  }

  /** Any change of the extra byte needs foreign calls and fails here. */
  function ForceToExtra(data: seq<byte>, extra: byte): Result<seq<byte>> {
    if data == [] || data[0] != extra then Err else Ok(data)
  }

  function ParsePreamble(s: seq<byte>): Parsed<(Id, uint64)> {
    var data :- ForceToExtra(s, 0);
    var (id, s) :- TakeReversed(data[1..], 41);
    var (modInc, s) :- TakeReversed(s, 8);
    Ok(((id, Uint64Of(modInc)), s))
  }

  function ParseObject(o: Object, s: seq<byte>): Result<Object> {
    var ((id, modInc), rest) :- ParsePreamble(s);
    Ok(Object(id, modInc, ParseData(o.data, rest)))
  }

  lemma PreambleRoundTrip(id: Id, modInc: uint64, rest: seq<byte>)
    ensures ParsePreamble(Preamble(0, id, modInc) + rest) == Ok(((id, modInc), rest))
  {
    hide Uint64Of, TakeReversed, LittleEndian;
    var s := Preamble(0, id, modInc) + rest;
    var tail := BigEndian(modInc, 8) + rest;
    assert s[1..] == Reverse(id) + tail;
    TakeReversedPrinted(id, tail);
    TakeReversedPrinted(LittleEndian(modInc, 8), rest);
    Uint64RoundTrip(modInc);
  }

  // ----- object round trip -----

  predicate SameSchema(a: seq<Datum>, b: seq<Datum>) {
    |a| == |b| && forall i :: 0 <= i < |a| ==> SameShape(a[i].field, b[i].field)
  }

  /** The first `n` fields as exported where something was exported, the rest as
      they were in the target. */
  function Restored(from: seq<Datum>, target: seq<Datum>, n: nat): (r: seq<Datum>)
    requires |from| == |target|
    ensures |r| == |target|
  {
    seq(|target|, i requires 0 <= i < |target| =>
      if i < n && Memory(from[i].field) != [] then Datum(from[i].field, target[i].rules) else target[i])
  }

  lemma PrintDataStep(data: seq<Datum>, i: nat)
    requires i < |data| && PrintData(data, i).Ok?
    ensures PrintDatum(data[i], i).Ok? && PrintData(data, i + 1).Ok?
    ensures PrintData(data, i).value == PrintDatum(data[i], i).value + PrintData(data, i + 1).value
  {
    hide PrintDatum;
  }

  lemma ParseDatumPrinted(d: Datum, data: seq<Datum>, i: nat, rest: seq<byte>)
    requires i < |data| <= U16 && SameShape(d.field, data[i].field)
    requires Memory(d.field) != [] && PrintDatum(d, i).Ok?
    ensures PrintDatum(d, i).value != []
    ensures ParseDatum(data, PrintDatum(d, i).value + rest) == Ok((data[i := data[i].(field := d.field)], rest))
  {
    hide PrintRecord, ParseRecord, Memory, Load, SameShape;
    ParseRecordPrinted(DatumRecord(d, i), rest, false);
    RecordIsNotEmpty(DatumRecord(d, i));
    LoadRestores(d.field, data[i].field);
  }

  lemma ParseDataStep(data: seq<Datum>, s: seq<byte>, data': seq<Datum>, rest: seq<byte>)
    requires s != [] && ParseDatum(data, s) == Ok((data', rest))
    ensures ParseData(data, s) == ParseData(data', rest)
  {
    hide ParseDatum;
  }

  lemma RestoredStep(from: seq<Datum>, target: seq<Datum>, i: nat)
    requires |from| == |target| && i < |from|
    ensures Restored(from, target, i + 1) ==
      if Memory(from[i].field) != [] then Restored(from, target, i)[i := target[i].(field := from[i].field)]
      else Restored(from, target, i)
    ensures Restored(from, target, i)[i] == target[i]
  {
    hide Memory;
  }

  lemma {:induction false} ParseDataPrinted(from: seq<Datum>, target: seq<Datum>, i: nat)
    requires i <= |from| <= U16 && SameSchema(from, target) && PrintData(from, i).Ok?
    ensures ParseData(Restored(from, target, i), PrintData(from, i).value) == Restored(from, target, |from|)
    decreases |from| - i
  {
    hide PrintDatum, ParseDatum, Memory, Restored, SameShape;
    if i < |from| {
      PrintDataStep(from, i);
      RestoredStep(from, target, i);
      ParseDataPrinted(from, target, i + 1);
      var now, rest := Restored(from, target, i), PrintData(from, i + 1).value;
      if Memory(from[i].field) != [] {
        ParseDatumPrinted(from[i], now, i, rest);
        ParseDataStep(now, PrintDatum(from[i], i).value + rest, Restored(from, target, i + 1), rest);
      } else {
        EmptyDatumPrints(from[i], i);
        assert [] + rest == rest;
      }
    }
  }

  lemma EmptyDatumPrints(d: Datum, i: nat)
    requires Memory(d.field) == [] && PrintDatum(d, i).Ok?
    ensures PrintDatum(d, i).value == [] && VariableLength(d.field)
  {
  }

  /** Importing an export into an object of the same schema restores the
      identifier, the version and every exported field, and touches nothing
      else. */
  lemma ObjectRoundTrip(o: Object, target: Object, owner: seq<byte>)
    requires PrintObject(o, 0, owner).Ok? && |o.data| <= U16 && SameSchema(o.data, target.data)
    ensures ParseObject(target, PrintObject(o, 0, owner).value) ==
      Ok(Object(o.id, o.modInc, Restored(o.data, target.data, |o.data|)))
  {
    hide PrintData, ParseData, Preamble, ParsePreamble;
    PreambleRoundTrip(o.id, o.modInc, PrintData(o.data, 0).value);
    ParseDataPrinted(o.data, target.data, 0);
    RestoredNone(o.data, target.data);
  }

  lemma RestoredNone(from: seq<Datum>, target: seq<Datum>)
    requires |from| == |target|
    ensures Restored(from, target, 0) == target
  {
  }

  predicate SameFields(a: seq<Datum>, b: seq<Datum>) {
    |a| == |b| && forall i :: 0 <= i < |a| ==> a[i].field == b[i].field
  }

  /** Every field comes back exactly when the fields that are empty in the
      exported object are empty in the target to begin with. */
  lemma ObjectRoundTripIsExact(o: Object, target: Object, owner: seq<byte>)
    requires PrintObject(o, 0, owner).Ok? && |o.data| <= U16 && SameSchema(o.data, target.data)
    ensures
      var r := ParseObject(target, PrintObject(o, 0, owner).value);
      r.Ok? && (SameFields(r.value.data, o.data) <==>
        forall i :: 0 <= i < |o.data| && Memory(o.data[i].field) == [] ==> Memory(target.data[i].field) == [])
  {
    hide PrintObject, ParseObject, Memory;
    ObjectRoundTrip(o, target, owner);
    var all := Restored(o.data, target.data, |o.data|);
    forall i | 0 <= i < |o.data|
      ensures all[i].field == o.data[i].field <==>
        (Memory(o.data[i].field) == [] ==> Memory(target.data[i].field) == [])
    {
      if Memory(o.data[i].field) == [] {
        EmptyFieldsAgree(o.data[i].field, target.data[i].field);
      }
    }
  }

  lemma EmptyFieldsAgree(a: Field, b: Field)
    requires SameShape(a, b) && Memory(a) == []
    ensures Memory(b) == [] <==> a == b
  {
    match a
    case Raw(_) =>
    case IdArray(ids) =>
      IdSets.SplitFlatten(ids);
      IdSets.SplitFlatten(b.ids);
    case ByteVector(_) =>
    case EightByteVector(_) =>
  }

  // ----- the format, and what is refused -----

  /** The header: the extra byte, the identifier backwards, the version with its
      most significant byte first. */
  lemma HeaderFormat(extra: byte, id: Id, modInc: uint64, k: nat)
    requires k < 41
    ensures Preamble(extra, id, modInc)[0] == extra && Preamble(extra, id, modInc)[1 + k] == id[40 - k]
    ensures modInc < 256 ==> Preamble(extra, id, modInc)[42..] == [0, 0, 0, 0, 0, 0, 0, modInc]
  {
    if modInc < 256 {
      SmallVersion(modInc);
      assert Preamble(extra, id, modInc)[42..] == BigEndian(modInc, 8);
    }
  }

  lemma SmallVersion(n: byte)
    ensures BigEndian(n, 8) == [0, 0, 0, 0, 0, 0, 0, n]
  {
    hide LittleEndian;
    LittleEndianStep(n, 8);
    NoHigherBytes(7);
    assert Reverse(LittleEndian(n, 8)) == [0, 0, 0, 0, 0, 0, 0, n];
  }

  lemma NoHigherBytes(k: nat)
    ensures LittleEndian(0, k) == Zeros(k)
  {
    forall i | 0 <= i < k
      ensures LittleEndian(0, k)[i] == 0
    {
      QuotientIs(0, Pow256(i), 0, 0);
    }
  }

  /** Only the owner exports, with one of four extra bytes; fields of a fixed
      size may not be empty, and sizes have limits. */
  lemma ExportsExactly(o: Object, extra: byte, owner: seq<byte>)
    ensures PrintObject(o, extra, owner).Ok? <==>
      && o.id[8..40] == owner && extra < 4
      && forall i :: 0 <= i < |o.data| ==> Exports(o.data[i])
  {
    hide PrintData, Exports;
    DataPrints(o.data, 0);
  }

  predicate Exports(d: Datum) {
    if Memory(d.field) == [] then d.field.ByteVector? || d.field.EightByteVector?
    else |d.rules.tier| <= 127 && |d.rules.intermediary| <= 255 && |Memory(d.field)| < 0x100_0000_0000_0000
  }

  lemma {:induction false} DataPrints(data: seq<Datum>, i: nat)
    requires i <= |data|
    ensures PrintData(data, i).Ok? <==> forall k :: i <= k < |data| ==> Exports(data[k])
    decreases |data| - i
  {
    hide PrintDatum, Exports;
    if i < |data| {
      DatumPrints(data[i], i);
      DataPrints(data, i + 1);
    }
  }

  lemma DatumPrints(d: Datum, i: nat)
    ensures PrintDatum(d, i).Ok? <==> Exports(d)
  {
    hide PrintRecord, Memory;
    RecordPrints(DatumRecord(d, i));
    assert Memory(d.field) in [Memory(d.field)];
  }

  /** A field takes a payload exactly when the size fits its kind, and then has
      that payload as its memory. */
  lemma LoadExactly(f: Field, mem: seq<byte>)
    ensures Load(f, mem).Ok? <==> match f
      case Raw(was) => |mem| == |was|
      case IdArray(ids) => |mem| == 41 * |ids|
      case ByteVector(_) => true
      case EightByteVector(_) => |mem| % 8 == 0
    ensures Load(f, mem).Ok? ==> SameShape(f, Load(f, mem).value) && Memory(Load(f, mem).value) == mem
  {
    hide MemoryWords, WordsMemory, IdSets.SplitIds, Flatten;
    match f
    case Raw(_) =>
    case IdArray(ids) =>
      if |mem| == 41 * |ids| {
        IdSets.FlattenSplit(mem);
        SplitLength(mem, |ids|);
      }
    case ByteVector(_) =>
    case EightByteVector(_) =>
      if |mem| % 8 == 0 {
        MemoryRoundTrip(mem);
      }
  }

  lemma {:induction false} SplitLength(s: seq<byte>, n: nat)
    requires |s| == 41 * n
    ensures |IdSets.SplitIds(s)| == n
    decreases n
  {
    if n > 0 {
      SplitLength(s[41..], n - 1);
    }
  }

  lemma {:induction false} MemoryRoundTrip(s: seq<byte>)
    requires |s| % 8 == 0
    ensures WordsMemory(MemoryWords(s)) == s
    decreases |s|
  {
    hide LittleEndian, FromLittleEndian;
    if s != [] {
      MemoryRoundTrip(s[8..]);
      LittleEndianEncodes(s[..8]);
      assert MemoryWords(s)[1..] == MemoryWords(s[8..]);
      assert s == s[..8] + s[8..];
    }
  }

  /** What one record does to an object: its one part goes into the field at its
      position; any other record, or a part of the wrong size, ends the import. */
  lemma ImportOneRecord(r: Record, data: seq<Datum>, rest: seq<byte>)
    requires PrintRecord(r).Ok?
    ensures ParseData(data, PrintRecord(r).value + rest) ==
      if r.transI < |data| && |r.nether| == 1 && Load(data[r.transI].field, r.nether[0]).Ok?
      then ParseData(data[r.transI := Datum(Load(data[r.transI].field, r.nether[0]).value, data[r.transI].rules)], rest)
      else data
  {
    hide PrintRecord, ParseRecord, Load;
    ParseRecordPrinted(r, rest, false);
    RecordIsNotEmpty(r);
  }

  /** Whatever the bytes are, an import changes neither the number of fields nor
      their kinds, their fixed sizes or their rules. */
  lemma {:induction false} ImportKeepsSchema(data: seq<Datum>, s: seq<byte>)
    ensures SameSchema(data, ParseData(data, s))
    ensures forall i :: 0 <= i < |data| ==> ParseData(data, s)[i].rules == data[i].rules
    decreases |s|
  {
    hide ParseRecord, Load;
    if s != [] && ParseDatum(data, s).Ok? {
      var (data', rest) := ParseDatum(data, s).value;
      var record := ParseRecord(s, false).value.0;
      LoadExactly(data[record.transI].field, record.nether[0]);
      ImportKeepsSchema(data', rest);
      assert ParseData(data, s) == ParseData(data', rest);
    }
  }

  // ----- the object with its methods -----

  class DataId {
    var id: Id
    var modInc: uint64
    var data: seq<Datum>

    constructor (o: Object)
      ensures View() == o
    {
      id, modInc, data := o.id, o.modInc, o.data;
    }

    function View(): Object
      reads this
    {
      Object(id, modInc, data)
    }

    method ExportPtrFromDataIdPtr(pusher: Vector<byte>, i: nat) returns (ok: bool)
      requires i < |data|
      modifies pusher
      ensures ok == PrintDatum(data[i], i).Ok?
      ensures ok ==> pusher.elems == old(pusher.elems) + PrintDatum(data[i], i).value
    {
      hide PrintRecord, Memory;
      var mem := Memory(data[i].field);
      if mem == [] {
        ok := VariableLength(data[i].field);
        assert pusher.elems + [] == pusher.elems;
        return;
      }
      ok := ExportToVectorized(pusher, Record([mem], i % U16, data[i].rules));
    }

    method ExportData(extra: byte, owner: seq<byte>) returns (r: Result<seq<byte>>)
      ensures r == PrintObject(View(), extra, owner)
    {
      hide PrintDatum;
      if Hash(id) != owner || extra >= 4 {
        return Err;
      }
      var retval := new Vector([]);
      ExportStaticSizePayload(retval, [extra]);
      ExportStaticSizePayload(retval, id);
      ExportStaticSizePayload(retval, LittleEndian(modInc, 8));
      ghost var head := Preamble(extra, id, modInc);
      assert retval.elems == head by {
        assert Reverse([extra]) == [extra];
      }
      for i := 0 to |data|
        invariant fresh(retval)
        invariant PrintData(data, 0).Ok? <==> PrintData(data, i).Ok?
        invariant PrintData(data, i).Ok? ==>
          head + PrintData(data, 0).value == retval.elems + PrintData(data, i).value
      {
        ghost var before := retval.elems;
        var ok := ExportPtrFromDataIdPtr(retval, i);
        if !ok {
          return Err;
        }
        if PrintData(data, i).Ok? {
          PrintDataStep(data, i);
          var d := PrintDatum(data[i], i).value;
          assert before + (d + PrintData(data, i + 1).value) == (before + d) + PrintData(data, i + 1).value;
        }
      }
      assert retval.elems + [] == retval.elems;
      return Ok(retval.elems);
    }

    method ImportPtrToDataIdPtr(puller: Vector<byte>) returns (ok: bool)
      modifies this`data, puller
      ensures match ParseDatum(old(data), old(puller.elems))
        case Ok((d, rest)) => ok && data == d && puller.elems == rest
        case Err => !ok && data == old(data)
    {
      hide ParseRecord, Load;
      var record := ImportRecord(puller, false);
      if record.Err? || record.value.transI >= |data| || |record.value.nether| != 1 {
        return false;
      }
      var i := record.value.transI;
      var field := Load(data[i].field, record.value.nether[0]);
      if field.Err? {
        return false;
      }
      data := data[i := data[i].(field := field.value)];
      return true;
    }

    /** A failing field ends the import silently; the earlier ones stay. */
    method ImportData(bytes: seq<byte>) returns (ok: bool)
      modifies this
      ensures match ParseObject(old(View()), bytes)
        case Ok(o) => ok && View() == o
        case Err => !ok && data == old(data) && modInc == old(modInc)
    {
      hide ParseDatum, Uint64Of, TakeReversed;
      var forced := ForceToExtra(bytes, 0);
      if forced.Err? {
        return false;
      }
      var puller := new Vector(forced.value[1..]);
      var newId := ImportStaticSizePayload(puller, 41);
      if newId.Err? {
        return false;
      }
      id := newId.value;
      var newModInc := ImportStaticSizePayload(puller, 8);
      if newModInc.Err? {
        return false;
      }
      modInc := Uint64Of(newModInc.value);
      var going := true;
      while going && |puller.elems| > 0
        invariant fresh(puller)
        invariant id == newId.value && modInc == Uint64Of(newModInc.value)
        invariant (if going then ParseData(data, puller.elems) else data) ==
          ParseObject(old(View()), bytes).value.data
        decreases going, |puller.elems|
      {
        going := ImportPtrToDataIdPtr(puller);
      }
      return true;
    }
  }
}
