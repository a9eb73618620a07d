// Records: one exported field each, with the sub-vectors of a nested field
// (src/id/id_api.cpp:489-549, src/id/id_transport.cpp:271-281).

module Records {
  import opened Bytes
  import opened Transport

  datatype Record = Record(nether: seq<seq<byte>>, transI: uint16, rules: Rules)

  // ----- printing -----

  /** The sub-vectors from position `i` on, each after its position. */
  function PrintSubs(nether: seq<seq<byte>>, i: nat): Result<seq<byte>>
    requires i <= |nether|
    decreases |nether| - i
  {
    if i == |nether| then Ok([])
    else
      var pos :- PrintSize(i);
      var payload :- PrintPayload(nether[i]);
      var more :- PrintSubs(nether, i + 1);
      Ok(pos + payload + more)
  }

  function PrintRecord(r: Record): Result<seq<byte>> {
    var rules :- PrintRules(r.rules);
    var count :- PrintSize(|r.nether|);
    var subs :- PrintSubs(r.nether, 0);
    Ok(BigEndian(r.transI, 2) + rules + count + subs)
  }

  function PrintRecords(rs: seq<Record>): Result<seq<byte>> {
    if rs == [] then Ok([])
    else
      var first :- PrintRecord(rs[0]);
      var more :- PrintRecords(rs[1..]);
      Ok(first + more)
  }

  // ----- parsing -----

  function PadTo(nether: seq<seq<byte>>, n: nat): (r: seq<seq<byte>>)
    ensures |r| == if |nether| < n then n else |nether|
  {
    if |nether| < n then nether + seq(n - |nether|, _ => []) else nether
  }

  /** A sub-vector goes to its position, which has to be empty so far; the
      position 2^64 - 1 has no successor to grow to. */
  function NetherAdd(nether: seq<seq<byte>>, data: seq<byte>, pos: nat): Result<seq<seq<byte>>> {
    if pos + 1 == U64 then Err
    else if PadTo(nether, pos + 1)[pos] != [] then Err
    else Ok(PadTo(nether, pos + 1)[pos := data])
  }

  /** `import_to_vectorized` keeps sixteen bits of a position; the importer of a
      whole object keeps all of them. */
  function Position(pos: nat, wrap: bool): nat {
    if wrap then pos % U16 else pos
  }

  function ParseSubs(count: nat, s: seq<byte>, nether: seq<seq<byte>>, wrap: bool): (r: Parsed<seq<seq<byte>>>)
    ensures r.Ok? ==> |r.value.1| <= |s|
    decreases count
  {
    if count == 0 then Ok((nether, s))
    else
      var (pos, s) :- ParseSize(s);
      var (data, s) :- ParsePayload(s);
      var nether :- NetherAdd(nether, data, Position(pos, wrap));
      ParseSubs(count - 1, s, nether, wrap)
  }

  function ParseNether(s: seq<byte>, wrap: bool): (r: Parsed<seq<seq<byte>>>)
    ensures r.Ok? ==> |r.value.1| < |s|
  {
    var (count, s) :- ParseSize(s);
    ParseSubs(count, s, [], wrap)
  }

  function Uint16Of(s: seq<byte>): uint16
    requires |s| == 2
  {
    FromLittleEndianBound(s);
    assert Pow256(2) == U16;
    FromLittleEndian(s)
  }

  function ParseRecord(s: seq<byte>, wrap: bool): (r: Parsed<Record>)
    ensures r.Ok? ==> |r.value.1| < |s|
  {
    var (transI, s) :- TakeReversed(s, 2);
    var (rules, s) :- ParseRules(s);
    var (nether, s) :- ParseNether(s, wrap);
    Ok((Record(nether, Uint16Of(transI), rules), s))
  }

  function ParseRecords(s: seq<byte>): Result<seq<Record>>
    decreases |s|
  {
    if s == [] then Ok([])
    else
      var (r, s) :- ParseRecord(s, true);
      var more :- ParseRecords(s);
      Ok([r] + more)
  }

  // ----- round trips -----

  lemma NetherAddNext(nether: seq<seq<byte>>, i: nat)
    requires i < |nether| && i + 1 < U64
    ensures NetherAdd(nether[..i], nether[i], i) == Ok(nether[..i + 1])
  {
    assert PadTo(nether[..i], i + 1)[i := nether[i]] == nether[..i + 1];
  }

  lemma PrintSubsStep(nether: seq<seq<byte>>, i: nat, rest: seq<byte>)
    requires i < |nether| && PrintSubs(nether, i).Ok?
    ensures PrintSize(i).Ok? && PrintPayload(nether[i]).Ok? && PrintSubs(nether, i + 1).Ok?
    ensures i < SIZE_LIMIT
    ensures PrintSubs(nether, i).value + rest ==
      PrintSize(i).value + (PrintPayload(nether[i]).value + (PrintSubs(nether, i + 1).value + rest))
  {
    hide PrintSize, PrintPayload;
    SizePrints(i);
  }

  lemma NoMoreSubs(nether: seq<seq<byte>>, rest: seq<byte>, wrap: bool)
    ensures PrintSubs(nether, |nether|) == Ok([])
    ensures ParseSubs(0, [] + rest, nether[..|nether|], wrap) == Ok((nether, rest))
  {
    assert nether[..|nether|] == nether && [] + rest == rest;
  }

  lemma ParseSubsStep(count: nat, s: seq<byte>, nether: seq<seq<byte>>, wrap: bool,
                      pos: nat, s1: seq<byte>, data: seq<byte>, s2: seq<byte>)
    requires count > 0
    requires ParseSize(s) == Ok((pos, s1)) && ParsePayload(s1) == Ok((data, s2))
    requires NetherAdd(nether, data, Position(pos, wrap)).Ok?
    ensures ParseSubs(count, s, nether, wrap) ==
      ParseSubs(count - 1, s2, NetherAdd(nether, data, Position(pos, wrap)).value, wrap)
  {
    hide ParseSize, ParsePayload, NetherAdd, Position;
  }

  lemma {:induction false} ParseSubsPrinted(nether: seq<seq<byte>>, i: nat, rest: seq<byte>, wrap: bool)
    requires i <= |nether| && PrintSubs(nether, i).Ok?
    requires wrap ==> |nether| <= U16
    ensures ParseSubs(|nether| - i, PrintSubs(nether, i).value + rest, nether[..i], wrap) == Ok((nether, rest))
    decreases |nether| - i
  {
    hide PrintSubs, PrintSize, PrintPayload, ParseSize, ParsePayload, ParseSubs, NetherAdd;
    if i == |nether| {
      NoMoreSubs(nether, rest, wrap);
    } else {
      PrintSubsStep(nether, i, rest);
      var later := PrintSubs(nether, i + 1).value + rest;
      ParseSizePrinted(i, PrintPayload(nether[i]).value + later);
      ParsePayloadPrinted(nether[i], later);
      NetherAddNext(nether, i);
      ParseSubsStep(|nether| - i, PrintSubs(nether, i).value + rest, nether[..i], wrap,
                    i, PrintPayload(nether[i]).value + later, nether[i], later);
      ParseSubsPrinted(nether, i + 1, rest, wrap);
    }
  }

  lemma PrintRecordParts(r: Record, rest: seq<byte>)
    requires PrintRecord(r).Ok?
    ensures PrintRules(r.rules).Ok? && PrintSize(|r.nether|).Ok? && PrintSubs(r.nether, 0).Ok?
    ensures |r.nether| < SIZE_LIMIT
    ensures PrintRecord(r).value + rest == BigEndian(r.transI, 2) +
      (PrintRules(r.rules).value + (PrintSize(|r.nether|).value + (PrintSubs(r.nether, 0).value + rest)))
  {
    hide PrintRules, PrintSize, PrintSubs, BigEndian;
    SizePrints(|r.nether|);
  }

  lemma ParseRecordFrom(s: seq<byte>, wrap: bool, transI: seq<byte>, s1: seq<byte>, rules: Rules, s2: seq<byte>,
                        nether: seq<seq<byte>>, rest: seq<byte>)
    requires TakeReversed(s, 2) == Ok((transI, s1)) && ParseRules(s1) == Ok((rules, s2))
    requires ParseNether(s2, wrap) == Ok((nether, rest))
    ensures |transI| == 2 && ParseRecord(s, wrap) == Ok((Record(nether, Uint16Of(transI), rules), rest))
  {
    hide ParseRules, ParseNether, Uint16Of;
  }

  lemma ParseRecordPrinted(r: Record, rest: seq<byte>, wrap: bool)
    requires PrintRecord(r).Ok?
    requires wrap ==> |r.nether| <= U16
    ensures ParseRecord(PrintRecord(r).value + rest, wrap) == Ok((r, rest))
  {
    hide PrintRules, PrintSize, PrintSubs, PrintRecord, ParseRules, ParseNether, ParseRecord, TakeReversed, BigEndian;
    PrintRecordParts(r, rest);
    var subs := PrintSubs(r.nether, 0).value + rest;
    var count := PrintSize(|r.nether|).value + subs;
    var rules := PrintRules(r.rules).value + count;
    ParseUint16Printed(r.transI, rules);
    ParseRulesPrinted(r.rules, count);
    ParseNetherPrinted(r.nether, rest, wrap);
    ParseRecordFrom(PrintRecord(r).value + rest, wrap, LittleEndian(r.transI, 2), rules, r.rules, count, r.nether,
      rest);
  }

  lemma ParseUint16Printed(n: uint16, rest: seq<byte>)
    ensures TakeReversed(BigEndian(n, 2) + rest, 2) == Ok((LittleEndian(n, 2), rest))
    ensures Uint16Of(LittleEndian(n, 2)) == n
  {
    TakeReversedPrinted(LittleEndian(n, 2), rest);
    assert Pow256(2) == U16;
    LittleEndianDecodes(n, 2);
  }

  lemma ParseNetherPrinted(nether: seq<seq<byte>>, rest: seq<byte>, wrap: bool)
    requires |nether| < SIZE_LIMIT && PrintSize(|nether|).Ok? && PrintSubs(nether, 0).Ok?
    requires wrap ==> |nether| <= U16
    ensures ParseNether(PrintSize(|nether|).value + (PrintSubs(nether, 0).value + rest), wrap) == Ok((nether, rest))
  {
    hide PrintSize, PrintSubs, ParseSize, ParseSubs;
    ParseSizePrinted(|nether|, PrintSubs(nether, 0).value + rest);
    ParseSubsPrinted(nether, 0, rest, wrap);
    assert nether[..0] == [];
  }

  predicate NoWrap(rs: seq<Record>) {
    forall r :: r in rs ==> |r.nether| <= U16
  }

  lemma ParseRecordsStep(s: seq<byte>, r: Record, rest: seq<byte>)
    requires ParseRecord(s, true) == Ok((r, rest))
    ensures ParseRecords(s) == Joined([r], ParseRecords(rest))
  {
    hide ParseRecord;
  }

  lemma PrintRecordsStep(rs: seq<Record>)
    requires rs != [] && PrintRecords(rs).Ok?
    ensures PrintRecord(rs[0]).Ok? && PrintRecords(rs[1..]).Ok?
    ensures PrintRecords(rs).value == PrintRecord(rs[0]).value + PrintRecords(rs[1..]).value
  {
    hide PrintRecord;
  }

  lemma {:induction false} PrintedRecordsParse(rs: seq<Record>)
    requires PrintRecords(rs).Ok? && NoWrap(rs)
    ensures ParseRecords(PrintRecords(rs).value) == Ok(rs)
  {
    hide PrintRecord, ParseRecord;
    if rs != [] {
      PrintRecordsStep(rs);
      PrintedRecordsParse(rs[1..]);
      var more := PrintRecords(rs[1..]).value;
      ParseRecordPrinted(rs[0], more, true);
      ParseRecordsStep(PrintRecord(rs[0]).value + more, rs[0], more);
      assert rs == [rs[0]] + rs[1..];
    }
  }

  lemma RecordIsNotEmpty(r: Record)
    requires PrintRecord(r).Ok?
    ensures PrintRecord(r).value != []
  {
    hide PrintRules, PrintSize, PrintSubs;
  }

  /** What prints: 127 tiers, 255 intermediaries, sizes below 2^56. */
  lemma RecordPrints(r: Record)
    ensures PrintRecord(r).Ok? <==>
      && |r.rules.tier| <= 127 && |r.rules.intermediary| <= 255 && |r.nether| < SIZE_LIMIT
      && forall v :: v in r.nether ==> |v| < SIZE_LIMIT
  {
    hide PrintRules, PrintSize, PrintSubs;
    RulesPrint(r.rules);
    SizePrints(|r.nether|);
    if |r.nether| < SIZE_LIMIT {
      SubsPrint(r.nether, 0);
      assert r.nether[0..] == r.nether;
    }
  }

  lemma {:induction false} SubsPrint(nether: seq<seq<byte>>, i: nat)
    requires i <= |nether| < SIZE_LIMIT
    ensures PrintSubs(nether, i).Ok? <==> forall v :: v in nether[i..] ==> |v| < SIZE_LIMIT
    decreases |nether| - i
  {
    hide PrintSize;
    if i < |nether| {
      SubsPrint(nether, i + 1);
      SizePrints(i);
      SizePrints(|nether[i]|);
      assert nether[i..] == [nether[i]] + nether[i + 1..];
    }
  }

  lemma NetherAddBound(nether: seq<seq<byte>>, data: seq<byte>, pos: nat)
    requires |nether| <= U16 && pos < U16
    ensures NetherAdd(nether, data, pos).Ok? ==> |NetherAdd(nether, data, pos).value| <= U16
  {
  }

  lemma {:induction false} ParseSubsBound(count: nat, s: seq<byte>, nether: seq<seq<byte>>)
    requires |nether| <= U16
    ensures var r := ParseSubs(count, s, nether, true); r.Ok? ==> |r.value.0| <= U16
    decreases count
  {
    hide ParseSize, ParsePayload, NetherAdd;
    if count > 0 && ParseSubs(count, s, nether, true).Ok? {
      var (pos, s1) := ParseSize(s).value;
      var (data, s2) := ParsePayload(s1).value;
      NetherAddBound(nether, data, pos % U16);
      ParseSubsBound(count - 1, s2, NetherAdd(nether, data, pos % U16).value);
    }
  }

  lemma ParseRecordBound(s: seq<byte>)
    ensures ParseRecord(s, true).Ok? ==> |ParseRecord(s, true).value.0.nether| <= U16
  {
    hide ParseRules, ParseSize, ParseSubs, Uint16Of;
    if ParseRecord(s, true).Ok? {
      var (_, s1) := TakeReversed(s, 2).value;
      var (_, s2) := ParseRules(s1).value;
      var (count, s3) := ParseSize(s2).value;
      ParseSubsBound(count, s3, []);
    }
  }

  lemma {:induction false} ParsedNoWrap(s: seq<byte>)
    ensures ParseRecords(s).Ok? ==> NoWrap(ParseRecords(s).value)
    decreases |s|
  {
    hide ParseRecord;
    if s != [] && ParseRecord(s, true).Ok? {
      var (r, rest) := ParseRecord(s, true).value;
      ParsedNoWrap(rest);
      ParseRecordBound(s);
    }
  }

  /** A list of records comes back from its concatenated exports exactly when
      none of them has more than 65536 sub-vectors. */
  lemma RecordsRoundTrip(rs: seq<Record>)
    requires PrintRecords(rs).Ok?
    ensures ParseRecords(PrintRecords(rs).value) == Ok(rs) <==> NoWrap(rs)
  {
    hide ParseRecords, PrintRecords, NoWrap;
    ParsedNoWrap(PrintRecords(rs).value);
    if NoWrap(rs) {
      PrintedRecordsParse(rs);
    }
  }

  lemma ParseRecordsHead(s: seq<byte>)
    requires s != [] && ParseRecords(s).Ok?
    ensures ParseRecord(s, true).Ok?
    ensures ParseRecords(s).value != [] && ParseRecords(s).value[0] == ParseRecord(s, true).value.0
  {
    hide ParseRecord;
  }

  /** A printed record comes back exactly when it has at most 65536 sub-vectors:
      positions are kept in sixteen bits. */
  lemma RecordRoundTripsExactly(r: Record)
    requires PrintRecord(r).Ok?
    ensures ParseRecords(PrintRecord(r).value) == Ok([r]) <==> |r.nether| <= U16
  {
    hide PrintRecord, ParseRecord;
    var s := PrintRecord(r).value;
    RecordIsNotEmpty(r);
    if ParseRecords(s) == Ok([r]) {
      ParseRecordBound(s);
      ParseRecordsHead(s);
    }
    if |r.nether| <= U16 {
      assert s + [] == s;
      ParseRecordPrinted(r, [], true);
      ParseRecordsStep(s, r, []);
      assert [r] + [] == [r];
    }
  }

  lemma PrintedThen(rs: seq<Record>, rest: seq<byte>)
    requires rs != [] && PrintRecords(rs).Ok?
    ensures PrintRecords(rs).value + rest == PrintRecord(rs[0]).value + (PrintRecords(rs[1..]).value + rest)
  {
    hide PrintRecord;
    PrintRecordsStep(rs);
  }

  /** Bytes that follow whole records are read on their own, and when they are no
      records nothing is read at all. */
  lemma {:induction false} RecordsThen(rs: seq<Record>, rest: seq<byte>)
    requires PrintRecords(rs).Ok? && NoWrap(rs)
    ensures ParseRecords(PrintRecords(rs).value + rest) == Joined(rs, ParseRecords(rest))
    ensures 0 < |rest| < 5 ==> ParseRecords(PrintRecords(rs).value + rest).Err?
  {
    hide PrintRecord, ParseRecord, ParseRecords;
    ShortIsNoRecord(rest);
    if rs == [] {
      assert [] + rest == rest;
      JoinedTwice([], [], ParseRecords(rest));
    } else {
      PrintedThen(rs, rest);
      PrintRecordsStep(rs);
      var later := PrintRecords(rs[1..]).value + rest;
      ParseRecordPrinted(rs[0], later, true);
      ParseRecordsStep(PrintRecord(rs[0]).value + later, rs[0], later);
      RecordsThen(rs[1..], rest);
      JoinedTwice([rs[0]], rs[1..], ParseRecords(rest));
      assert rs == [rs[0]] + rs[1..];
    }
  }

  lemma ShortIsNoRecord(s: seq<byte>)
    ensures 0 < |s| < 5 ==> ParseRecords(s).Err?
  {
    hide ParseSubs, Uint16Of, BytesToTiers, FromLittleEndian;
  }

  /** A record of one short part in bytes: the position of its field, its tiers
      and intermediaries each after their number and in reverse, the number of
      parts, and the part in reverse after its position and its length. */
  lemma RecordFormat(transI: uint16, a: byte, b: byte, m: byte, part: seq<byte>)
    requires |part| < 256
    ensures PrintRecord(Record([part], transI, Rules([(a, b)], [m]))) ==
      Ok([transI / 256, transI % 256, 2, b, a, 1, m, 1, 1, 1, 0, 1, |part|] + Reverse(part))
  {
    hide PrintSize, PrintRules, BigEndian, Reverse;
    SmallBigEndian(transI);
    RulesFormat(a, b, m);
    SizeFormat(1);
    OnePartFormat(part);
    assert ([transI / 256, transI % 256] + [2, b, a, 1, m]) + [1, 1] + ([1, 0, 1, |part|] + Reverse(part)) ==
      [transI / 256, transI % 256, 2, b, a, 1, m, 1, 1, 1, 0, 1, |part|] + Reverse(part);
  }

  lemma RulesFormat(a: byte, b: byte, m: byte)
    ensures PrintRules(Rules([(a, b)], [m])) == Ok([2, b, a, 1, m])
  {
    assert TierBytes([(a, b)]) == [a, b] + TierBytes([(a, b)][1..]);
    assert TierBytes([(a, b)]) == [a, b];
    assert Reverse([a, b]) == [b, a] && Reverse([m]) == [m];
    assert [2] + [b, a] == [2, b, a] && [1] + [m] == [1, m] && [2, b, a] + [1, m] == [2, b, a, 1, m];
  }

  lemma OnePartFormat(part: seq<byte>)
    requires |part| < 256
    ensures PrintSubs([part], 0) == Ok([1, 0, 1, |part|] + Reverse(part))
  {
    hide PrintSize, Reverse;
    SizeFormat(0);
    SizeFormat(|part|);
    assert PrintSubs([part], 1) == Ok([]);
    assert ([1, 0] + ([1, |part|] + Reverse(part))) + [] == [1, 0, 1, |part|] + Reverse(part);
  }

  // ----- the methods -----

  method NetherAddAtPos(nether: Vector<seq<byte>>, data: seq<byte>, pos: nat) returns (ok: bool)
    modifies nether
    ensures match NetherAdd(old(nether.elems), data, pos)
      case Ok(n) => ok && nether.elems == n
      case Err => !ok
  {
    if pos + 1 == U64 {
      return false;
    }
    ghost var was := nether.elems;
    while |nether.elems| < pos + 1
      invariant |was| <= |nether.elems| && (|nether.elems| <= pos + 1 || nether.elems == was)
      invariant nether.elems == PadTo(was, |nether.elems|)
    {
      nether.elems := nether.elems + [[]];
    }
    if nether.elems[pos] != [] {
      return false;
    }
    nether.elems := nether.elems[pos := data];
    return true;
  }

  /** The length and the loop shared by both importers. */
  method ImportNether(puller: Vector<byte>, wrap: bool) returns (r: Result<seq<seq<byte>>>)
    modifies puller
    ensures match ParseNether(old(puller.elems), wrap)
      case Ok((nether, rest)) => r == Ok(nether) && puller.elems == rest
      case Err => r == Err
  {
    hide ParseSize, ParsePayload, NetherAdd;
    ghost var whole := ParseNether(puller.elems, wrap);
    var vectorLength := ImportGenDynamicSize(puller);
    if vectorLength.Err? {
      return Err;
    }
    var nether := new Vector([]);
    for i := 0 to vectorLength.value
      invariant whole == ParseSubs(vectorLength.value - i, puller.elems, nether.elems, wrap)
      invariant fresh(nether) && nether as object != puller
    {
      var pos := ImportGenDynamicSize(puller);
      if pos.Err? {
        return Err;
      }
      var data := ImportDynamicSizePayload(puller);
      if data.Err? {
        return Err;
      }
      var ok := NetherAddAtPos(nether, data.value, Position(pos.value, wrap));
      if !ok {
        return Err;
      }
    }
    return Ok(nether.elems);
  }

  method ImportRecord(puller: Vector<byte>, wrap: bool) returns (r: Result<Record>)
    modifies puller
    ensures match ParseRecord(old(puller.elems), wrap)
      case Ok((record, rest)) => r == Ok(record) && puller.elems == rest
      case Err => r == Err
  {
    hide ParseRules, ParseNether, TakeReversed;
    var transI := ImportStaticSizePayload(puller, 2);
    if transI.Err? {
      return Err;
    }
    var rules := UnstringifyRules(puller);
    if rules.Err? {
      return Err;
    }
    var nether := ImportNether(puller, wrap);
    if nether.Err? {
      return Err;
    }
    return Ok(Record(nether.value, Uint16Of(transI.value), rules.value));
  }

  method ImportToVectorized(vector: Vector<byte>) returns (r: Result<seq<Record>>)
    modifies vector
    ensures r == ParseRecords(old(vector.elems))
  {
    hide ParseRecord;
    var retval := [];
    ghost var whole := ParseRecords(vector.elems);
    JoinedTwice([], [], whole);
    while |vector.elems| > 0
      invariant whole == Joined(retval, ParseRecords(vector.elems))
      decreases |vector.elems|
    {
      ghost var was := vector.elems;
      var tmp := ImportRecord(vector, true);
      if tmp.Err? {
        return Err;
      }
      ParseRecordsStep(was, tmp.value, vector.elems);
      JoinedTwice(retval, [tmp.value], ParseRecords(vector.elems));
      retval := retval + [tmp.value];
    }
    assert retval + [] == retval;
    return Ok(retval);
  }

  method ExportToVectorized(vector: Vector<byte>, data: Record) returns (ok: bool)
    modifies vector
    ensures ok == PrintRecord(data).Ok?
    ensures ok ==> vector.elems == old(vector.elems) + PrintRecord(data).value
  {
    hide PrintRules, PrintSize, PrintPayload, PrintSubs;
    ghost var was := vector.elems;
    ExportStaticSizePayload(vector, LittleEndian(data.transI, 2));
    ok := StringifyRules(vector, data.rules);
    if !ok {
      return;
    }
    var vectorLength := ExportGenDynamicSize(|data.nether|);
    if vectorLength.Err? {
      return false;
    }
    vector.elems := vector.elems + vectorLength.value;
    ghost var head := BigEndian(data.transI, 2) + PrintRules(data.rules).value + vectorLength.value;
    assert vector.elems == was + head;
    ok := ExportSubs(vector, data.nether);
    if ok {
      assert was + head + PrintSubs(data.nether, 0).value == was + (head + PrintSubs(data.nether, 0).value);
    }
  }

  method ExportSubs(vector: Vector<byte>, nether: seq<seq<byte>>) returns (ok: bool)
    modifies vector
    ensures ok == PrintSubs(nether, 0).Ok?
    ensures ok ==> vector.elems == old(vector.elems) + PrintSubs(nether, 0).value
  {
    hide PrintSize, PrintPayload;
    ghost var was := vector.elems;
    for i := 0 to |nether|
      invariant PrintSubs(nether, 0).Ok? <==> PrintSubs(nether, i).Ok?
      invariant PrintSubs(nether, i).Ok? ==>
        was + PrintSubs(nether, 0).value == vector.elems + PrintSubs(nether, i).value
    {
      var vectorIter := ExportGenDynamicSize(i);
      if vectorIter.Err? {
        return false;
      }
      ghost var before := vector.elems;
      vector.elems := vector.elems + vectorIter.value;
      ok := ExportDynamicSizePayload(vector, nether[i]);
      if !ok {
        return;
      }
      if PrintSubs(nether, i).Ok? {
        assert vector.elems == before + (vectorIter.value + PrintPayload(nether[i]).value);
      }
    }
    assert PrintSubs(nether, |nether|) == Ok([]);
    return true;
  }

  // ----- where a part may go -----

  /** A part is put at its position unless another part is there already, or the
      position is the last 64-bit number; parts between are empty. */
  lemma NetherAddExactly(nether: seq<seq<byte>>, data: seq<byte>, pos: nat)
    ensures NetherAdd(nether, data, pos).Ok? <==>
      pos != 0xFFFF_FFFF_FFFF_FFFF && (pos < |nether| ==> nether[pos] == [])
    ensures NetherAdd(nether, data, pos).Ok? ==>
      var r := NetherAdd(nether, data, pos).value;
      && |r| == (if |nether| <= pos then pos + 1 else |nether|) && r[pos] == data
      && forall k :: 0 <= k < |r| && k != pos ==> r[k] == if k < |nether| then nether[k] else []
  {
  }
}
