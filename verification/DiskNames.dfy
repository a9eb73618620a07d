// File names of the disk tier (src/id/tier/disk/id_tier_disk.cpp:17-62 and
// 104-106) and the hexadecimal form of identifiers (src/convert.cpp:120-274).

module DiskNames {
  import opened Bytes
  import opened Ids

  // ----- hexadecimal digits -----

  function HexDigit(n: nat): char
    requires n < 16
  {
    if n < 10 then '0' + n as char else 'a' + (n - 10) as char
  }

  function ToByteChar(hex: char): Result<nat> {
    if '0' <= hex <= '9' then Ok(hex as int - '0' as int)
    else if 'a' <= hex <= 'f' then Ok(10 + (hex as int - 'a' as int))
    else Err
  }

  lemma HexDigitRoundTrip(n: nat)
    requires n < 16
    ensures ToByteChar(HexDigit(n)) == Ok(n)
    ensures HexDigit(n) != ' ' && HexDigit(n) != '_' && HexDigit(n) != '/'
  {
  }

  /** The sixteen digits; capital letters are refused. */
  lemma HexDigits(n: nat, c: char)
    requires n < 16
    ensures HexDigit(n) == "0123456789abcdef"[n]
    ensures ToByteChar(c).Ok? <==> c in "0123456789abcdef"
  {
    if '0' <= c <= '9' {
      assert "0123456789abcdef"[c as int - '0' as int] == c;
    } else if 'a' <= c <= 'f' {
      assert "0123456789abcdef"[10 + (c as int - 'a' as int)] == c;
    }
  }

  function ByteToHex(b: byte): (r: string)
    ensures |r| == 2
  {
    [HexDigit(b / 16), HexDigit(b % 16)]
  }

  function HexToByte(high: char, low: char): Result<byte> {
    var h :- ToByteChar(high);
    var l :- ToByteChar(low);
    if h < 16 && l < 16 then Ok(h * 16 + l) else Err
  }

  function HexOf(s: seq<byte>): (r: string)
    ensures |r| == 2 * |s|
  {
    if s == [] then "" else ByteToHex(s[0]) + HexOf(s[1..])
  }

  function BytesOf(hex: string): Result<seq<byte>> {
    if |hex| < 2 then Ok([])
    else
      var first :- HexToByte(hex[0], hex[1]);
      var more :- BytesOf(hex[2..]);
      Ok([first] + more)
  }

  function TrimStart(s: string): string {
    if s != "" && s[0] == ' ' then TrimStart(s[1..]) else s
  }

  function TrimEnd(s: string): string {
    if s != "" && s[|s| - 1] == ' ' then TrimEnd(s[..|s| - 1]) else s
  }

  /** All hexadecimal is most significant byte first. */
  function ToHex(bytes: seq<byte>): string {
    HexOf(Reverse(bytes))
  }

  function FromHex(hex: string): Result<seq<byte>> {
    var bytes :- BytesOf(TrimStart(hex));
    Ok(Reverse(bytes))
  }

  predicate Plain(s: string) {
    forall i :: 0 <= i < |s| ==> s[i] != ' ' && s[i] != '_' && s[i] != '/'
  }

  lemma HexByteRoundTrip(b: byte)
    ensures var hex := ByteToHex(b);
      HexToByte(hex[0], hex[1]) == Ok(b) && Plain(hex)
  {
    hide HexDigit, ToByteChar;
    HexDigitRoundTrip(b / 16);
    HexDigitRoundTrip(b % 16);
    assert (b / 16) * 16 + b % 16 == b;
  }

  lemma {:induction false} HexOfRoundTrip(s: seq<byte>)
    ensures BytesOf(HexOf(s)) == Ok(s) && Plain(HexOf(s))
  {
    hide ByteToHex, HexToByte;
    if s != [] {
      HexOfRoundTrip(s[1..]);
      HexByteRoundTrip(s[0]);
      assert HexOf(s)[2..] == HexOf(s[1..]);
      assert s == [s[0]] + s[1..];
    }
  }

  lemma HexRoundTrip(bytes: seq<byte>)
    ensures FromHex(ToHex(bytes)) == Ok(bytes) && Plain(ToHex(bytes)) && |ToHex(bytes)| == 2 * |bytes|
  {
    hide BytesOf, HexOf;
    HexOfRoundTrip(Reverse(bytes));
    ReverseTwice(bytes);
  }

  lemma {:induction false} HexOfAppend(s: seq<byte>, b: byte)
    ensures HexOf(s + [b]) == HexOf(s) + ByteToHex(b)
  {
    hide ByteToHex;
    if s == [] {
      assert s + [b] == [b] && [b][1..] == [];
    } else {
      HexOfAppend(s[1..], b);
      assert (s + [b])[1..] == s[1..] + [b];
    }
  }

  method NumberToHex(byte_: seq<byte>) returns (retval: string)
    ensures retval == ToHex(byte_)
  {
    hide ByteToHex;
    retval := "";
    var bytes := NboVector(byte_);
    for i := 0 to |bytes|
      invariant retval == HexOf(bytes[..i])
    {
      HexOfAppend(bytes[..i], bytes[i]);
      assert bytes[..i + 1] == bytes[..i] + [bytes[i]];
      retval := retval + ByteToHex(bytes[i]);
    }
    assert bytes[..|bytes|] == bytes;
  }

  lemma BytesOfStep(hex: string, i: nat)
    requires 2 * i + 1 < |hex|
    ensures BytesOf(hex[2 * i..]) == match HexToByte(hex[2 * i], hex[2 * i + 1])
      case Ok(b) => Joined([b], BytesOf(hex[2 * (i + 1)..]))
      case Err => Err
  {
    hide HexToByte;
    assert hex[2 * i..][2..] == hex[2 * (i + 1)..];
  }

  method NumberFromHex(hex_: string) returns (r: Result<seq<byte>>)
    ensures r == FromHex(hex_)
  {
    hide HexToByte;
    var hex := hex_;
    while hex != "" && hex[0] == ' '
      invariant TrimStart(hex) == TrimStart(hex_)
      decreases |hex|
    {
      hex := hex[1..];
    }
    var retval := [];
    assert hex[0..] == hex;
    JoinedTwice(retval, retval, BytesOf(hex));
    for i := 0 to |hex| / 2
      invariant BytesOf(hex) == Joined(retval, BytesOf(hex[2 * i..]))
    {
      BytesOfStep(hex, i);
      var next := HexToByte(hex[i * 2], hex[i * 2 + 1]);
      if next.Err? {
        return Err;
      }
      JoinedTwice(retval, [next.value], BytesOf(hex[2 * (i + 1)..]));
      retval := retval + [next.value];
    }
    assert retval + [] == retval;
    var reversed := NboVector(retval);
    return Ok(reversed);
  }

  // ----- identifiers -----

  function IdToHex(id: Id): string {
    ToHex(id[..8]) + "-" + ToHex(id[8..40]) + "-" + ToHex(id[40..])
  }

  /** A part that holds blanks decodes to fewer bytes; copying those, undefined
      in the source, is a failure. */
  function IdFromHex(text: string): Result<Id> {
    var s := TrimEnd(TrimStart(text));
    if |s| != 84 then Err
    else
      var uuid :- FromHex(s[..16]);
      var hash :- FromHex(s[17..81]);
      var type_ :- FromHex(s[82..]);
      if |uuid| != 8 || |hash| != 32 || type_ == [] then Err else Ok(uuid + hash + [type_[0]])
  }

  lemma PlainIsTrimmed(s: string)
    requires s != "" && s[0] != ' ' && s[|s| - 1] != ' '
    ensures TrimStart(s) == s && TrimEnd(s) == s
  {
  }

  lemma IdHexParts(a: string, b: string, c: string)
    requires |a| == 16 && |b| == 64 && |c| == 2 && Plain(a) && Plain(b) && Plain(c)
    ensures var s := a + "-" + b + "-" + c;
      |s| == 84 && s[..16] == a && s[17..81] == b && s[82..] == c && Plain(s)
  {
  }

  lemma IdHexRoundTrip(id: Id)
    ensures IdFromHex(IdToHex(id)) == Ok(id) && Plain(IdToHex(id)) && IdToHex(id) != ""
  {
    hide ToHex, FromHex, TrimStart, TrimEnd;
    HexRoundTrip(id[..8]);
    HexRoundTrip(id[8..40]);
    HexRoundTrip(id[40..]);
    IdHexParts(ToHex(id[..8]), ToHex(id[8..40]), ToHex(id[40..]));
    PlainIsTrimmed(IdToHex(id));
    assert id[..8] + id[8..40] + [id[40..][0]] == id;
  }

  function Blanks(n: nat): (r: string)
    ensures |r| == n && forall i :: 0 <= i < n ==> r[i] == ' '
  {
    seq(n, _ => ' ')
  }

  lemma {:induction false} TrimStartBlanks(n: nat, s: string)
    requires s != "" && s[0] != ' '
    ensures TrimStart(Blanks(n) + s) == s
    decreases n
  {
    if n == 0 {
      assert Blanks(0) + s == s;
    } else {
      assert (Blanks(n) + s)[1..] == Blanks(n - 1) + s;
      TrimStartBlanks(n - 1, s);
    }
  }

  lemma {:induction false} TrimEndBlanks(s: string, n: nat)
    requires s != "" && s[|s| - 1] != ' '
    ensures TrimEnd(s + Blanks(n)) == s
    decreases n
  {
    if n == 0 {
      assert s + Blanks(0) == s;
    } else {
      assert (s + Blanks(n))[..|s| + n - 1] == s + Blanks(n - 1);
      TrimEndBlanks(s, n - 1);
    }
  }

  /** The text of an identifier has dashes between its parts; when it is read
      back, blanks around it and what stands for the dashes do not matter. */
  lemma IdTextVariants(id: Id, x: char, y: char, before: nat, after: nat)
    ensures IdToHex(id)[16] == IdToHex(id)[81] == '-'
    ensures IdFromHex(Blanks(before) + IdToHex(id)[16 := x][81 := y] + Blanks(after)) == Ok(id)
  {
    hide ToHex, FromHex, TrimStart, TrimEnd;
    HexRoundTrip(id[..8]);
    HexRoundTrip(id[8..40]);
    HexRoundTrip(id[40..]);
    var text := IdToHex(id);
    IdHexParts(ToHex(id[..8]), ToHex(id[8..40]), ToHex(id[40..]));
    var s := text[16 := x][81 := y];
    assert s[..16] == text[..16] && s[17..81] == text[17..81] && s[82..] == text[82..];
    assert (Blanks(before) + s) + Blanks(after) == Blanks(before) + (s + Blanks(after));
    TrimStartBlanks(before, s + Blanks(after));
    TrimEndBlanks(s, after);
    assert id[..8] + id[8..40] + [id[40..][0]] == id;
  }

  lemma BytesOfPair(b: byte, later: string)
    ensures BytesOf(ByteToHex(b) + later) == Joined([b], BytesOf(later))
  {
    hide ByteToHex, HexToByte;
    HexByteRoundTrip(b);
    assert (ByteToHex(b) + later)[2..] == later;
  }

  /** The first byte is the last pair of digits, and a lone digit at the end is
      not read. */
  lemma HexFormat(a: byte, b: byte, c: char)
    ensures ToHex([a, b]) == [HexDigit(b / 16), HexDigit(b % 16), HexDigit(a / 16), HexDigit(a % 16)]
    ensures FromHex(ToHex([a, b]) + [c]) == Ok([a, b])
  {
    hide HexDigit, ToByteChar, HexToByte;
    assert Reverse([a, b]) == [b, a] && [b, a][1..] == [a] && [a][1..] == [];
    assert HexOf([a]) == ByteToHex(a) + HexOf([]);
    assert HexOf([b, a]) == ByteToHex(b) + HexOf([a]);
    HexDigitRoundTrip(b / 16);
    BytesOfPair(b, ByteToHex(a) + [c]);
    BytesOfPair(a, [c]);
    assert ToHex([a, b]) + [c] == ByteToHex(b) + (ByteToHex(a) + [c]);
    assert [b] + ([a] + []) == [b, a] && Reverse([b, a]) == [a, b];
  }

  // ----- decimal numbers -----

  function Decimal(n: nat): string {
    (if n < 10 then "" else Decimal(n / 10)) + ['0' + (n % 10) as char]
  }

  predicate IsDigit(c: char) {
    '0' <= c <= '9'
  }

  /** The value of the leading digits after `acc`. */
  function LeadingValue(s: string, acc: nat): nat {
    if s == "" || !IsDigit(s[0]) then acc else LeadingValue(s[1..], 10 * acc + (s[0] as int - '0' as int))
  }

  /** `std::stoull` on text without leading blanks or sign. */
  function StoUll(s: string): Result<nat> {
    if s == "" || !IsDigit(s[0]) then Err
    else if LeadingValue(s, 0) >= U64 then Err
    else Ok(LeadingValue(s, 0))
  }

  predicate AllDigits(s: string) {
    forall i :: 0 <= i < |s| ==> IsDigit(s[i])
  }

  lemma {:induction false} LeadingValueSnoc(s: string, d: char, acc: nat)
    requires AllDigits(s) && IsDigit(d)
    ensures LeadingValue(s + [d], acc) == 10 * LeadingValue(s, acc) + (d as int - '0' as int)
  {
    if s == "" {
      assert (s + [d])[1..] == "";
    } else {
      assert (s + [d])[1..] == s[1..] + [d];
      LeadingValueSnoc(s[1..], d, 10 * acc + (s[0] as int - '0' as int));
    }
  }

  lemma {:induction false} DecimalRoundTrip(n: nat)
    ensures Decimal(n) != "" && AllDigits(Decimal(n)) && LeadingValue(Decimal(n), 0) == n
  {
    var d := '0' + (n % 10) as char;
    if n >= 10 {
      DecimalRoundTrip(n / 10);
      LeadingValueSnoc(Decimal(n / 10), d, 0);
    } else {
      assert Decimal(n) == [d] && [d][1..] == "";
    }
  }

  /** A number is written without leading zeros. */
  lemma {:induction false} NoLeadingZero(n: nat)
    ensures Decimal(n) != "" && (Decimal(n)[0] == '0' <==> n == 0)
  {
    if n >= 10 {
      NoLeadingZero(n / 10);
    }
  }

  lemma {:induction false} LeadingValueStops(s: string, rest: string, acc: nat)
    requires AllDigits(s) && (rest == "" || !('0' <= rest[0] <= '9'))
    ensures LeadingValue(s + rest, acc) == LeadingValue(s, acc)
  {
    if s == "" {
      assert s + rest == rest;
    } else {
      assert (s + rest)[1..] == s[1..] + rest;
      LeadingValueStops(s[1..], rest, 10 * acc + (s[0] as int - '0' as int));
    }
  }

  /** Reading a number stops at the first other character; there has to be a
      digit, and the number has to be below 2^64. */
  lemma StoUllReads(n: nat, rest: string)
    requires rest == "" || !('0' <= rest[0] <= '9')
    ensures StoUll(Decimal(n) + rest) == if n < 0x1_0000_0000_0000_0000 then Ok(n) else Err
    ensures StoUll(rest).Err?
  {
    hide Decimal, LeadingValue;
    DecimalRoundTrip(n);
    LeadingValueStops(Decimal(n), rest, 0);
  }

  // ----- file names -----

  function GenFilename(id: Id, modInc: uint64): string {
    IdToHex(id) + "_" + Decimal(modInc)
  }

  /** `find_last_of` for one character. */
  function LastIndexOf(s: string, c: char): (r: Option<nat>)
    ensures r.Some? ==> r.value < |s|
  {
    if s == "" then None
    else if s[|s| - 1] == c then Some(|s| - 1)
    else LastIndexOf(s[..|s| - 1], c)
  }

  lemma {:induction false} LastIndexOfSplit(a: string, c: char, b: string)
    requires forall i :: 0 <= i < |b| ==> b[i] != c
    ensures LastIndexOf(a + [c] + b, c) == Some(|a|)
    decreases |b|
  {
    var s := a + [c] + b;
    if b == "" {
      assert s == a + [c];
    } else {
      assert s[..|s| - 1] == a + [c] + b[..|b| - 1];
      LastIndexOfSplit(a, c, b[..|b| - 1]);
    }
  }

  /** One directory entry: a name without '_' or '/', or with an empty part, is
      skipped; a malformed identifier or number throws.  When the last '_' comes
      before the last '/', the length of the identifier part wraps around. */
  function ParseName(file: string): Result<Option<(Id, uint64)>> {
    var underscore := LastIndexOf(file, '_');
    var slash := LastIndexOf(file, '/');
    if underscore.None? || slash.None? then Ok(None)
    else
      var start := slash.value + 1;
      var idComponent := if underscore.value < start then file[start..] else file[start..underscore.value];
      var modIncComponent := file[underscore.value + 1..];
      if idComponent == "" || modIncComponent == "" then Ok(None)
      else
        var id :- IdFromHex(idComponent);
        var modInc :- StoUll(modIncComponent);
        Ok(Some((id, modInc)))
  }

  predicate IsLast(s: string, c: char, i: nat) {
    i < |s| && s[i] == c && c !in s[i + 1..]
  }

  /** Where the character is for the last time, if it is there. */
  lemma {:induction false} LastIndexOfIs(s: string, c: char)
    ensures match LastIndexOf(s, c)
      case None => c !in s
      case Some(i) => IsLast(s, c, i)
    decreases |s|
  {
    if s != "" && s[|s| - 1] != c {
      var front := s[..|s| - 1];
      LastIndexOfIs(front, c);
      assert s == front + [s[|s| - 1]];
      if LastIndexOf(front, c).Some? {
        var i := LastIndexOf(front, c).value;
        assert s[i + 1..] == front[i + 1..] + [s[|s| - 1]];
      }
    }
  }

  /** The last '_' follows the last '/' at once. */
  predicate NoIdPart(file: string) {
    exists i :: 0 < i < |file| && file[i - 1] == '/' && file[i] == '_' && '/' !in file[i..] && '_' !in file[i + 1..]
  }

  lemma NoIdPartExactly(file: string, u: nat, s: nat)
    requires IsLast(file, '_', u) && IsLast(file, '/', s)
    ensures NoIdPart(file) <==> u == s + 1
  {
    if u == s + 1 {
      assert file[u - 1] == '/' && file[u..] == file[s + 1..];
    }
    if NoIdPart(file) {
      var i :| 0 < i < |file| && file[i - 1] == '/' && file[i] == '_' && '/' !in file[i..] && '_' !in file[i + 1..];
      LastIsUnique(file, '_', u, i);
      LastIsUnique(file, '/', s, i - 1);
    }
  }

  /** A name is skipped exactly when it has no '_' or no '/', or nothing after
      the last of one of them, or nothing between the last '/' and the last '_'
      that follows it. */
  lemma SkippedExactly(file: string)
    ensures ParseName(file) == Ok(None) <==>
      || '_' !in file || '/' !in file
      || file[|file| - 1] == '_' || file[|file| - 1] == '/'
      || NoIdPart(file)
  {
    hide LastIndexOf, IdFromHex, StoUll, NoIdPart, IsLast;
    LastIndexOfIs(file, '_');
    LastIndexOfIs(file, '/');
    if LastIndexOf(file, '_').Some? && LastIndexOf(file, '/').Some? {
      var u, s := LastIndexOf(file, '_').value, LastIndexOf(file, '/').value;
      NoIdPartExactly(file, u, s);
      AfterLast(file, '_', u);
      AfterLast(file, '/', s);
    } else {
      NoIdPartHasBoth(file);
    }
  }

  lemma NoIdPartHasBoth(file: string)
    ensures NoIdPart(file) ==> '_' in file && '/' in file
  {
  }

  lemma AfterLast(s: string, c: char, i: nat)
    requires IsLast(s, c, i)
    ensures c in s && (s[i + 1..] == "" <==> s[|s| - 1] == c)
  {
    if i + 1 < |s| {
      assert s[i + 1..][|s| - i - 2] == s[|s| - 1];
    }
  }

  lemma LastIsUnique(s: string, c: char, i: nat, j: nat)
    requires IsLast(s, c, i) && IsLast(s, c, j)
    ensures i == j
  {
    NotAfter(s[i + 1..], c, j - i - 1);
    NotAfter(s[j + 1..], c, i - j - 1);
  }

  lemma NotAfter(rest: string, c: char, k: int)
    requires c !in rest
    ensures 0 <= k < |rest| ==> rest[k] != c
  {
  }

  /** Whatever the directory path, a generated name reads back as the identifier
      and the version it was made from. */
  lemma FileNameRoundTrip(path: string, id: Id, modInc: uint64)
    ensures ParseName(path + "/" + GenFilename(id, modInc)) == Ok(Some((id, modInc)))
  {
    hide IdToHex, IdFromHex, Decimal, LastIndexOf, LeadingValue;
    var hex, number := IdToHex(id), Decimal(modInc);
    var file := path + "/" + GenFilename(id, modInc);
    IdHexRoundTrip(id);
    DecimalRoundTrip(modInc);
    assert file == (path + "/" + hex) + "_" + number;
    LastIndexOfSplit(path + "/" + hex, '_', number);
    LastIndexOfSplit(path, '/', hex + "_" + number);
    assert file[|path| + 1..|path| + 1 + |hex|] == hex;
    assert file[|path| + 1 + |hex| + 1..] == number;
  }

  /** A file without '_' in its own name takes its version from a directory whose
      name ends in '_' and a number. */
  lemma DirectoryIsRead(path: string, n: nat, id: Id)
    requires n < 0x1_0000_0000_0000_0000
    ensures ParseName(path + "_" + Decimal(n) + "/" + IdToHex(id)) == Ok(Some((id, n)))
  {
    hide IdToHex, IdFromHex, Decimal, LastIndexOf, StoUll;
    var hex, number := IdToHex(id), Decimal(n);
    var file := path + "_" + number + "/" + hex;
    IdHexRoundTrip(id);
    DecimalRoundTrip(n);
    StoUllReads(n, "/" + hex);
    assert file == path + "_" + (number + "/" + hex);
    LastIndexOfSplit(path, '_', number + "/" + hex);
    LastIndexOfSplit(path + "_" + number, '/', hex);
    assert file[|path| + 1..] == number + ("/" + hex);
    assert file[|path| + 1 + |number| + 1..] == hex;
  }

  function ParseNames(files: seq<string>): Result<seq<(Id, uint64)>> {
    if files == [] then Ok([])
    else
      var first :- ParseName(files[0]);
      var more :- ParseNames(files[1..]);
      Ok(Entry(first) + more)
  }

  /** The listing of a directory of stored objects is its exact index. */
  lemma {:induction false} ListingIsIndex(path: string, entries: seq<(Id, uint64)>)
    ensures ParseNames(seq(|entries|, i requires 0 <= i < |entries| =>
        path + "/" + GenFilename(entries[i].0, entries[i].1))) == Ok(entries)
  {
    hide ParseName, GenFilename;
    var files := seq(|entries|, i requires 0 <= i < |entries| =>
      path + "/" + GenFilename(entries[i].0, entries[i].1));
    if entries != [] {
      var later := entries[1..];
      ListingIsIndex(path, later);
      assert files[1..] == seq(|later|, i requires 0 <= i < |later| =>
        path + "/" + GenFilename(later[i].0, later[i].1));
      FileNameRoundTrip(path, entries[0].0, entries[0].1);
      assert entries == [entries[0]] + later;
    }
  }

  function Entry(name: Option<(Id, uint64)>): seq<(Id, uint64)> {
    if name.Some? then [name.value] else []
  }

  lemma ParseNamesStep(files: seq<string>, i: nat)
    requires i < |files|
    ensures ParseNames(files[i..]) == match ParseName(files[i])
      case Ok(first) => Joined(Entry(first), ParseNames(files[i + 1..]))
      case Err => Err
  {
    hide ParseName;
    assert files[i..][1..] == files[i + 1..];
  }

  method GenIdBuffer(allFiles: seq<string>) returns (r: Result<seq<(Id, uint64)>>)
    ensures r == ParseNames(allFiles)
  {
    hide ParseName, ParseNames;
    var retval := [];
    assert allFiles[0..] == allFiles;
    JoinedTwice(retval, retval, ParseNames(allFiles));
    for i := 0 to |allFiles|
      invariant ParseNames(allFiles) == Joined(retval, ParseNames(allFiles[i..]))
    {
      ParseNamesStep(allFiles, i);
      var next := ParseName(allFiles[i]);
      if next.Err? {
        return Err;
      }
      JoinedTwice(retval, Entry(next.value), ParseNames(allFiles[i + 1..]));
      retval := retval + Entry(next.value);
    }
    NoNames(allFiles);
    assert retval + [] == retval;
    return Ok(retval);
  }

  lemma NoNames(files: seq<string>)
    ensures ParseNames(files[|files|..]) == Ok([])
  {
  }
}
