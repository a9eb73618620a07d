// The byte-level filter that keeps only the fields a tier may hold, and the
// unencrypted header fields (src/id/id_api.cpp:351-431 and 553-648).

module Strip {
  import opened Bytes
  import opened Ids
  import opened Transport
  import opened Records
  import opened Objects

  // ----- the header -----

  function FetchExtra(data: seq<byte>): Result<byte> {
    if data == [] then Err else Ok(data[0])
  }

  function FetchId(data: seq<byte>): Result<Id> {
    if |data| < 42 then Err else Ok(Reverse(data[1..42]))
  }

  function FetchModInc(data: seq<byte>): Result<uint64> {
    if |data| < 50 then Err else Ok(Uint64Of(Reverse(data[42..50])))
  }

  method GenericFetch(start: nat, size: nat, byteVector: seq<byte>) returns (r: Result<seq<byte>>)
    ensures r == if start + size > |byteVector| then Err else Ok(Reverse(byteVector[start..start + size]))
  {
    if start + size > |byteVector| {
      return Err;
    }
    var fetched := NboVector(byteVector[start..start + size]);
    return Ok(fetched);
  }

  /** One byte is enough for the extra byte, 42 for the identifier and 50 for the
      version; both are stored backwards. */
  lemma FetchExactly(data: seq<byte>)
    ensures FetchExtra(data).Ok? <==> |data| >= 1
    ensures FetchId(data).Ok? <==> |data| >= 42
    ensures FetchModInc(data).Ok? <==> |data| >= 50
    ensures |data| >= 1 ==> FetchExtra(data).value == data[0]
    ensures |data| >= 42 ==> forall k :: 0 <= k < 41 ==> FetchId(data).value[k] == data[41 - k]
    ensures |data| >= 50 ==> FetchModInc(data).value == FromBigEndian(data[42..50])
  {
  }

  /** The header fields of exported bytes are those of the object. */
  lemma FetchPrinted(o: Object, owner: seq<byte>)
    requires PrintObject(o, 0, owner).Ok?
    ensures var s := PrintObject(o, 0, owner).value;
      FetchExtra(s) == Ok(0) && FetchId(s) == Ok(o.id) && FetchModInc(s) == Ok(o.modInc)
  {
    hide PrintData, Uint64Of;
    var s := PrintObject(o, 0, owner).value;
    assert s[1..42] == Reverse(o.id) && s[42..50] == BigEndian(o.modInc, 8);
    ReverseTwice(o.id);
    ReverseTwice(LittleEndian(o.modInc, 8));
    Uint64RoundTrip(o.modInc);
  }

  // ----- which records pass -----

  predicate TierAllowed(r: Rules, rules: Rules) {
    rules.tier == [] || exists c :: 0 <= c < |r.tier| && r.tier[c] in rules.tier
  }

  predicate IntermediaryAllowed(r: Rules, rules: Rules) {
    rules.intermediary == [] || exists c :: 0 <= c < |r.intermediary| && r.intermediary[c] in rules.intermediary
  }

  predicate Allowed(r: Rules, rules: Rules) {
    TierAllowed(r, rules) && IntermediaryAllowed(r, rules)
  }

  function Keep(rs: seq<Record>, rules: Rules): seq<Record> {
    if rs == [] then []
    else (if Allowed(rs[0].rules, rules) then [rs[0]] else []) + Keep(rs[1..], rules)
  }

  function StripToTransportable(data: seq<byte>, rules: Rules): Result<seq<byte>> {
    if |rules.tier| > 1 || |rules.intermediary| > 1 then Err
    else
      var data :- ForceToExtra(data, 0);
      if |data| < 50 then Err
      else
        var records :- ParseRecords(data[50..]);
        var kept :- PrintRecords(Keep(records, rules));
        Ok(if kept == [] then [] else data[..50] + kept)
  }

  // ----- stripping an export -----

  /** The export of just the fields whose own rules allow the transport. */
  function PrintAllowed(data: seq<Datum>, i: nat, rules: Rules): Result<seq<byte>>
    requires i <= |data|
    decreases |data| - i
  {
    if i == |data| then Ok([])
    else
      var first :- if Allowed(data[i].rules, rules) then PrintDatum(data[i], i) else Ok([]);
      var more :- PrintAllowed(data, i + 1, rules);
      Ok(first + more)
  }

  /** The records of the fields that carry data. */
  function DataRecords(data: seq<Datum>, i: nat): seq<Record>
    requires i <= |data|
    decreases |data| - i
  {
    if i == |data| then []
    else (if Memory(data[i].field) != [] then [DatumRecord(data[i], i)] else []) + DataRecords(data, i + 1)
  }

  lemma PrintRecordsCons(r: Record, rs: seq<Record>)
    requires PrintRecord(r).Ok? && PrintRecords(rs).Ok?
    ensures PrintRecords([r] + rs) == Ok(PrintRecord(r).value + PrintRecords(rs).value)
  {
    hide PrintRecord;
    assert ([r] + rs)[1..] == rs;
  }

  lemma DataRecordsStep(data: seq<Datum>, i: nat, rules: Rules)
    requires i < |data|
    ensures var later := DataRecords(data, i + 1);
      if Memory(data[i].field) != [] then DataRecords(data, i) == [DatumRecord(data[i], i)] + later
      else DataRecords(data, i) == later
    ensures var later := Keep(DataRecords(data, i + 1), rules);
      if Memory(data[i].field) != [] && Allowed(data[i].rules, rules)
      then Keep(DataRecords(data, i), rules) == [DatumRecord(data[i], i)] + later
      else Keep(DataRecords(data, i), rules) == later
  {
    hide Memory, Allowed;
    var r, later := DatumRecord(data[i], i), DataRecords(data, i + 1);
    assert [] + later == later;
    if Memory(data[i].field) != [] {
      assert ([r] + later)[1..] == later;
      assert [] + Keep(later, rules) == Keep(later, rules);
    }
  }

  lemma AllowedDatum(data: seq<Datum>, i: nat, rules: Rules)
    requires i < |data| && PrintDatum(data[i], i).Ok? && PrintAllowed(data, i + 1, rules).Ok?
    ensures PrintAllowed(data, i, rules) == Ok(
      (if Allowed(data[i].rules, rules) then PrintDatum(data[i], i).value else []) +
      PrintAllowed(data, i + 1, rules).value)
  {
    hide PrintDatum, Allowed;
  }

  /** An export is the print of its records, and the export of the allowed
      fields is the print of the records that are kept. */
  lemma {:induction false} ExportIsRecords(data: seq<Datum>, i: nat, rules: Rules)
    requires i <= |data| && PrintData(data, i).Ok?
    ensures PrintRecords(DataRecords(data, i)) == PrintData(data, i)
    ensures PrintAllowed(data, i, rules).Ok?
    ensures PrintRecords(Keep(DataRecords(data, i), rules)) == PrintAllowed(data, i, rules)
    ensures NoWrap(DataRecords(data, i))
    decreases |data| - i
  {
    hide PrintRecord, PrintDatum, Memory, Allowed, PrintAllowed, DataRecords, Keep;
    if i == |data| {
      NoFieldsLeft(data, rules);
    } else {
      PrintDataStep(data, i);
      ExportIsRecords(data, i + 1, rules);
      DataRecordsStep(data, i, rules);
      AllowedDatum(data, i, rules);
      DatumPrintsRecord(data[i], i);
      var later := DataRecords(data, i + 1);
      if Memory(data[i].field) != [] {
        PrintRecordsCons(DatumRecord(data[i], i), later);
        PrintRecordsCons(DatumRecord(data[i], i), Keep(later, rules));
      }
      var more := PrintAllowed(data, i + 1, rules).value;
      assert [] + PrintData(data, i + 1).value == PrintData(data, i + 1).value;
      assert [] + more == more;
    }
  }

  lemma NoFieldsLeft(data: seq<Datum>, rules: Rules)
    ensures DataRecords(data, |data|) == [] && Keep([], rules) == []
    ensures PrintAllowed(data, |data|, rules) == Ok([])
  {
  }

  lemma DatumPrintsRecord(d: Datum, i: nat)
    requires PrintDatum(d, i).Ok?
    ensures if Memory(d.field) != [] then PrintDatum(d, i) == PrintRecord(DatumRecord(d, i))
            else PrintDatum(d, i) == Ok([])
  {
    hide PrintRecord, Memory;
  }

  /** Stripping commutes with exporting: filtering the bytes of an object gives
      the export of the fields whose rules match, or nothing when none of them
      carries data. */
  lemma StripCommutesWithExport(o: Object, owner: seq<byte>, rules: Rules)
    requires PrintObject(o, 0, owner).Ok? && |rules.tier| <= 1 && |rules.intermediary| <= 1
    ensures PrintAllowed(o.data, 0, rules).Ok?
    ensures
      var fields := PrintAllowed(o.data, 0, rules).value;
      StripToTransportable(PrintObject(o, 0, owner).value, rules) ==
        Ok(if fields == [] then [] else Preamble(0, o.id, o.modInc) + fields)
  {
    hide PrintData, PrintAllowed, PrintRecords, ParseRecords, Keep, DataRecords, Preamble;
    ExportIsRecords(o.data, 0, rules);
    RecordsRoundTrip(DataRecords(o.data, 0));
    var head, fields := Preamble(0, o.id, o.modInc), PrintData(o.data, 0).value;
    assert (head + fields)[..50] == head && (head + fields)[50..] == fields;
  }

  // ----- stripping any bytes -----

  lemma {:induction false} KeepTwice(rs: seq<Record>, rules: Rules)
    ensures Keep(Keep(rs, rules), rules) == Keep(rs, rules)
    ensures NoWrap(rs) ==> NoWrap(Keep(rs, rules))
  {
    hide Allowed;
    if rs != [] {
      KeepTwice(rs[1..], rules);
      if Allowed(rs[0].rules, rules) {
        assert Keep(rs, rules)[1..] == Keep(rs[1..], rules);
      } else {
        assert Keep(rs, rules) == Keep(rs[1..], rules);
      }
    }
  }

  /** What is kept carries the header of the original bytes. */
  lemma StripKeepsHeader(data: seq<byte>, rules: Rules)
    requires StripToTransportable(data, rules).Ok? && StripToTransportable(data, rules).value != []
    ensures var c := StripToTransportable(data, rules).value;
      |c| > 50 && FetchExtra(c) == FetchExtra(data) == Ok(0)
      && FetchId(c) == FetchId(data) && FetchModInc(c) == FetchModInc(data)
  {
    hide ParseRecords, PrintRecords, Keep, Uint64Of;
    var c := StripToTransportable(data, rules).value;
    assert c[..50] == data[..50];
    assert c[..50][1..42] == c[1..42] && data[..50][1..42] == data[1..42];
    assert c[..50][42..50] == c[42..50] && data[..50][42..50] == data[42..50];
  }

  /** Stripping is idempotent on any bytes it accepts and does not empty. */
  lemma StripIsIdempotent(data: seq<byte>, rules: Rules)
    requires StripToTransportable(data, rules).Ok? && StripToTransportable(data, rules).value != []
    ensures StripToTransportable(StripToTransportable(data, rules).value, rules) == StripToTransportable(data, rules)
  {
    hide ParseRecords, PrintRecords, Keep;
    var records := ParseRecords(data[50..]).value;
    var kept := Keep(records, rules);
    ParsedNoWrap(data[50..]);
    KeepTwice(records, rules);
    RecordsRoundTrip(kept);
    var head, fields := data[..50], PrintRecords(kept).value;
    assert (head + fields)[..50] == head && (head + fields)[50..] == fields;
  }

  // ----- what is left, read from the records alone -----

  /** The records that list the one tier and the one intermediary asked for. */
  function Listing(rs: seq<Record>, rules: Rules): seq<Record>
    requires |rules.tier| <= 1 && |rules.intermediary| <= 1
  {
    if rs == [] then []
    else
      var r := rs[0].rules;
      (if (|rules.tier| == 1 && rules.tier[0] !in r.tier)
          || (|rules.intermediary| == 1 && rules.intermediary[0] !in r.intermediary)
       then [] else [rs[0]]) + Listing(rs[1..], rules)
  }

  lemma AllowedIsListed(r: Rules, rules: Rules)
    requires |rules.tier| <= 1 && |rules.intermediary| <= 1
    ensures Allowed(r, rules) <==>
      && (|rules.tier| == 1 ==> rules.tier[0] in r.tier)
      && (|rules.intermediary| == 1 ==> rules.intermediary[0] in r.intermediary)
  {
    assert rules.tier == [] || rules.tier == [rules.tier[0]];
    assert rules.intermediary == [] || rules.intermediary == [rules.intermediary[0]];
  }

  lemma {:induction false} KeepIsListing(rs: seq<Record>, rules: Rules)
    requires |rules.tier| <= 1 && |rules.intermediary| <= 1
    ensures Keep(rs, rules) == Listing(rs, rules)
  {
    hide Allowed;
    if rs != [] {
      AllowedIsListed(rs[0].rules, rules);
      KeepIsListing(rs[1..], rules);
    }
  }

  lemma {:induction false} ListingHas(rs: seq<Record>, rules: Rules, r: Record)
    requires |rules.tier| <= 1 && |rules.intermediary| <= 1
    ensures r in Listing(rs, rules) <==>
      && r in rs
      && (forall t :: t in rules.tier ==> t in r.rules.tier)
      && (forall m :: m in rules.intermediary ==> m in r.rules.intermediary)
  {
    if rs != [] {
      ListingHas(rs[1..], rules, r);
      assert rs == [rs[0]] + rs[1..];
    }
  }

  /** The records of stripped bytes; nothing left is no records. */
  function RecordsOf(data: seq<byte>): Result<seq<Record>> {
    if data == [] then Ok([]) else if |data| < 50 then Err else ParseRecords(data[50..])
  }

  /** Stripped bytes hold the listed records in their order and no other; they
      are empty exactly when no record is listed. */
  lemma StripLeavesListed(data: seq<byte>, rules: Rules)
    requires StripToTransportable(data, rules).Ok?
    ensures |rules.tier| <= 1 && |rules.intermediary| <= 1 && RecordsOf(data).Ok?
    ensures var c, listed := StripToTransportable(data, rules).value, Listing(RecordsOf(data).value, rules);
      RecordsOf(c) == Ok(listed) && (c == [] <==> listed == [])
  {
    hide ParseRecords, PrintRecords, Keep, Listing;
    var records := ParseRecords(data[50..]).value;
    var kept := Keep(records, rules);
    KeepIsListing(records, rules);
    ParsedNoWrap(data[50..]);
    KeepTwice(records, rules);
    RecordsRoundTrip(kept);
    PrintsEmpty(kept);
    var head, fields := data[..50], PrintRecords(kept).value;
    assert (head + fields)[50..] == fields;
  }

  lemma PrintsEmpty(rs: seq<Record>)
    requires PrintRecords(rs).Ok?
    ensures PrintRecords(rs).value == [] <==> rs == []
  {
    hide PrintRecord;
    if rs != [] {
      RecordIsNotEmpty(rs[0]);
    }
  }

  /** Stripped for one tier: a record is left exactly when it lists that tier. */
  lemma StripForTier(data: seq<byte>, t: Tier, r: Record)
    requires StripToTransportable(data, Rules([t], [])).Ok?
    ensures var c := StripToTransportable(data, Rules([t], [])).value;
      RecordsOf(c).Ok? && (r in RecordsOf(c).value <==> r in RecordsOf(data).value && t in r.rules.tier)
  {
    hide ParseRecords, StripToTransportable, RecordsOf, Listing;
    StripLeavesListed(data, Rules([t], []));
    ListingHas(RecordsOf(data).value, Rules([t], []), r);
    assert t in Rules([t], []).tier;
  }

  lemma StripForIntermediary(data: seq<byte>, m: byte, r: Record)
    requires StripToTransportable(data, Rules([], [m])).Ok?
    ensures var c := StripToTransportable(data, Rules([], [m])).value;
      RecordsOf(c).Ok? && (r in RecordsOf(c).value <==> r in RecordsOf(data).value && m in r.rules.intermediary)
  {
    hide ParseRecords, StripToTransportable, RecordsOf, Listing;
    StripLeavesListed(data, Rules([], [m]));
    ListingHas(RecordsOf(data).value, Rules([], [m]), r);
    assert m in Rules([], [m]).intermediary;
  }

  /** Without a tier or an intermediary every record is left. */
  lemma StripForAll(data: seq<byte>)
    requires StripToTransportable(data, Rules([], [])).Ok?
    ensures RecordsOf(StripToTransportable(data, Rules([], [])).value) == RecordsOf(data)
  {
    hide ParseRecords, StripToTransportable, RecordsOf, Listing;
    StripLeavesListed(data, Rules([], []));
    EverythingListed(RecordsOf(data).value);
  }

  lemma {:induction false} EverythingListed(rs: seq<Record>)
    ensures Listing(rs, Rules([], [])) == rs
  {
    if rs != [] {
      EverythingListed(rs[1..]);
    }
  }

  lemma {:induction false} AllPrint(rs: seq<Record>)
    ensures PrintRecords(rs).Ok? <==> forall i :: 0 <= i < |rs| ==> PrintRecord(rs[i]).Ok?
  {
    hide PrintRecord;
    if rs != [] {
      AllPrint(rs[1..]);
      assert rs == [rs[0]] + rs[1..];
    }
  }

  lemma {:induction false} ParsedAreSmall(s: seq<byte>, i: nat)
    requires ParseRecords(s).Ok? && i < |ParseRecords(s).value|
    ensures var r := ParseRecords(s).value[i];
      |r.rules.tier| <= 127 && |r.rules.intermediary| <= 255 && |r.nether| <= U16
    decreases i
  {
    hide ParseRecord;
    ParseRecordBound(s);
    ParsedRulesAreSmall(s);
    if i > 0 {
      ParsedAreSmall(ParseRecord(s, true).value.1, i - 1);
    }
  }

  lemma ParsedRulesAreSmall(s: seq<byte>)
    ensures ParseRecord(s, true).Ok? ==>
      var r := ParseRecord(s, true).value.0; |r.rules.tier| <= 127 && |r.rules.intermediary| <= 255
  {
    hide ParseRules, ParseNether, Uint16Of;
  }

  /** Stripping succeeds exactly for one tier and one intermediary at most, an
      unencrypted header, records that can be read, and no part of a listed
      record of 2^56 bytes or more. */
  lemma StripOkExactly(data: seq<byte>, rules: Rules)
    ensures StripToTransportable(data, rules).Ok? <==>
      && |rules.tier| <= 1 && |rules.intermediary| <= 1
      && |data| >= 50 && data[0] == 0 && ParseRecords(data[50..]).Ok?
      && (forall r :: r in Listing(ParseRecords(data[50..]).value, rules) ==>
            forall v :: v in r.nether ==> |v| < 0x100_0000_0000_0000)
  {
    hide ParseRecords, PrintRecords, PrintRecord, Keep, Listing;
    if |rules.tier| <= 1 && |rules.intermediary| <= 1 && |data| >= 50 && ParseRecords(data[50..]).Ok? {
      var records := ParseRecords(data[50..]).value;
      var listed := Listing(records, rules);
      KeepIsListing(records, rules);
      AllPrint(listed);
      forall i | 0 <= i < |listed|
        ensures PrintRecord(listed[i]).Ok? <==> forall v :: v in listed[i].nether ==> |v| < 0x100_0000_0000_0000
      {
        ListingHas(records, rules, listed[i]);
        var j :| 0 <= j < |records| && records[j] == listed[i];
        ParsedAreSmall(data[50..], j);
        RecordPrints(listed[i]);
      }
    }
  }

  // ----- the method -----

  method RulesAllow(r: Rules, rules: Rules) returns (ok: bool)
    ensures ok == Allowed(r, rules)
  {
    var goodTier := |rules.tier| == 0;
    for c := 0 to |r.tier|
      invariant goodTier <==> rules.tier == [] || exists k :: 0 <= k < c && r.tier[k] in rules.tier
    {
      goodTier := goodTier || r.tier[c] in rules.tier;
    }
    var goodIntermediary := |rules.intermediary| == 0;
    for c := 0 to |r.intermediary|
      invariant goodIntermediary <==>
        rules.intermediary == [] || exists k :: 0 <= k < c && r.intermediary[k] in rules.intermediary
    {
      goodIntermediary := goodIntermediary || r.intermediary[c] in rules.intermediary;
    }
    return goodTier && goodIntermediary;
  }

  lemma {:induction false} KeepAppend(rs: seq<Record>, r: Record, rules: Rules)
    ensures Keep(rs + [r], rules) == Keep(rs, rules) + if Allowed(r.rules, rules) then [r] else []
  {
    hide Allowed;
    if rs == [] {
      assert rs + [r] == [r] && [r][1..] == [];
    } else {
      assert (rs + [r])[1..] == rs[1..] + [r];
      KeepAppend(rs[1..], r, rules);
    }
  }

  lemma {:induction false} PrintRecordsAppend(rs: seq<Record>, more: seq<Record>)
    ensures PrintRecords(rs + more).Ok? <==> PrintRecords(rs).Ok? && PrintRecords(more).Ok?
    ensures PrintRecords(rs + more).Ok? ==>
      PrintRecords(rs + more).value == PrintRecords(rs).value + PrintRecords(more).value
  {
    hide PrintRecord;
    if rs == [] {
      assert rs + more == more;
    } else {
      assert (rs + more)[1..] == rs[1..] + more;
      PrintRecordsAppend(rs[1..], more);
    }
  }

  lemma PrintOneRecord(r: Record)
    ensures PrintRecords([r]) == PrintRecord(r)
  {
    hide PrintRecord;
    assert [r][1..] == [];
    if PrintRecord(r).Ok? {
      assert PrintRecord(r).value + [] == PrintRecord(r).value;
    }
  }

  /** The import, filter and export loop over the records. */
  method StripRecords(retval: Vector<byte>, allImport: seq<Record>, rules: Rules) returns (ok: bool)
    modifies retval
    ensures ok == PrintRecords(Keep(allImport, rules)).Ok?
    ensures ok ==> retval.elems == old(retval.elems) + PrintRecords(Keep(allImport, rules)).value
  {
    hide PrintRecord, PrintRecords, Keep, Allowed;
    ghost var head := retval.elems;
    NothingKept(rules);
    for i := 0 to |allImport|
      invariant PrintRecords(Keep(allImport[..i], rules)).Ok?
      invariant retval.elems == head + PrintRecords(Keep(allImport[..i], rules)).value
    {
      ghost var kept, was := Keep(allImport[..i], rules), retval.elems;
      var r := allImport[i];
      assert allImport[..i + 1] == allImport[..i] + [r];
      KeepAppend(allImport[..i], r, rules);
      PrintRecordsAppend(kept, [r]);
      PrintOneRecord(r);
      var good := RulesAllow(r.rules, rules);
      if good {
        ok := ExportToVectorized(retval, r);
        if !ok {
          KeepSplits(allImport, i + 1, rules);
          PrintRecordsAppend(kept + [r], Keep(allImport[i + 1..], rules));
          return;
        }
        assert (head + PrintRecords(kept).value) + PrintRecord(r).value ==
          head + (PrintRecords(kept).value + PrintRecord(r).value);
      } else {
        assert kept + [] == kept;
      }
    }
    assert allImport[..|allImport|] == allImport;
    return true;
  }

  lemma NothingKept(rules: Rules)
    ensures Keep([], rules) == [] && PrintRecords([]) == Ok([])
  {
  }

  lemma {:induction false} KeepSplits(rs: seq<Record>, n: nat, rules: Rules)
    requires n <= |rs|
    ensures Keep(rs, rules) == Keep(rs[..n], rules) + Keep(rs[n..], rules)
    decreases n
  {
    hide Allowed;
    if n == 0 {
      assert rs[..0] == [] && rs[0..] == rs;
    } else {
      KeepSplits(rs[1..], n - 1, rules);
      assert rs[..n][1..] == rs[1..][..n - 1] && rs[1..][n - 1..] == rs[n..];
    }
  }

  method StripBytes(data_: seq<byte>, rules: Rules) returns (r: Result<seq<byte>>)
    ensures r == StripToTransportable(data_, rules)
  {
    hide ParseRecords, PrintRecords, Keep;
    if |rules.tier| > 1 || |rules.intermediary| > 1 {
      return Err;
    }
    var forced := ForceToExtra(data_, 0);
    if forced.Err? {
      return Err;
    }
    var data := new Vector(forced.value);
    var retval := new Vector([]);
    var extra := ImportStaticSizePayload(data, 1);
    if extra.Err? {
      return Err;
    }
    var id := ImportStaticSizePayload(data, 41);
    if id.Err? {
      return Err;
    }
    var modInc := ImportStaticSizePayload(data, 8);
    if modInc.Err? {
      return Err;
    }
    ExportStaticSizePayload(retval, extra.value);
    ExportStaticSizePayload(retval, id.value);
    ExportStaticSizePayload(retval, modInc.value);
    assert retval.elems == data_[..50] && data.elems == data_[50..] by {
      HeaderIsCopied(data_);
    }
    var allImport := ImportToVectorized(data);
    if allImport.Err? {
      return Err;
    }
    var ok := StripRecords(retval, allImport.value, rules);
    if !ok {
      return Err;
    }
    return Ok(if |retval.elems| <= 50 then [] else retval.elems);
  }

  lemma HeaderIsCopied(s: seq<byte>)
    requires |s| >= 50
    ensures TakeReversed(s, 1).Ok? && TakeReversed(s[1..], 41).Ok? && TakeReversed(s[1..][41..], 8).Ok?
    ensures s[1..][41..][8..] == s[50..]
    ensures Reverse(TakeReversed(s, 1).value.0) + Reverse(TakeReversed(s[1..], 41).value.0)
      + Reverse(TakeReversed(s[1..][41..], 8).value.0) == s[..50]
  {
    ReverseTwice(s[..1]);
    ReverseTwice(s[1..][..41]);
    ReverseTwice(s[1..][41..][..8]);
  }
}
