/** The bundled rulepack archive: the length-prefixed encoder, the reader that
    unpacks it, why each undoes the other, and why equal archives mean equal
    rulepacks. */
module Archive {
  import opened Prelude

  type Bytes = seq<byte>

  datatype RuleFile = RuleFile(path: Bytes, content: Bytes)

  // "BNSRP001"
  const MAGIC: Bytes := [0x42, 0x4E, 0x53, 0x52, 0x50, 0x30, 0x30, 0x31]
  const SLASH: byte := 0x2F
  const BACKSLASH: byte := 0x5C

  // -------------------------------------------------------- little endian

  function Power256(width: nat): (r: nat)
    ensures r > 0
  {
    if width == 0 then 1 else 256 * Power256(width - 1)
  }

  function ToLittleEndian(n: nat, width: nat): (bytes: Bytes)
    ensures |bytes| == width
  {
    if width == 0 then [] else [(n % 256) as byte] + ToLittleEndian(n / 256, width - 1)
  }

  function FromLittleEndian(bytes: Bytes): nat {
    if bytes == [] then 0 else bytes[0] as int + 256 * FromLittleEndian(bytes[1..])
  }

  lemma {:induction false} LittleEndianReads(n: nat, width: nat)
    requires n < Power256(width)
    ensures FromLittleEndian(ToLittleEndian(n, width)) == n
  {
    if width > 0 {
      LittleEndianReads(n / 256, width - 1);
    }
  }

  lemma {:induction false} LittleEndianWrites(bytes: Bytes)
    ensures FromLittleEndian(bytes) < Power256(|bytes|)
    ensures ToLittleEndian(FromLittleEndian(bytes), |bytes|) == bytes
  {
    if bytes != [] {
      var high := FromLittleEndian(bytes[1..]);
      LittleEndianWrites(bytes[1..]);
      assert FromLittleEndian(bytes) == bytes[0] as int + 256 * high;
      assert FromLittleEndian(bytes) % 256 == bytes[0] as int && FromLittleEndian(bytes) / 256 == high;
    }
  }

  /** The least significant byte comes first. */
  lemma {:induction false} LittleEndianByte(n: nat, width: nat, k: nat)
    requires k < width
    ensures ToLittleEndian(n, width)[k] as int == n / Power256(k) % 256
    decreases width
  {
    if k > 0 {
      LittleEndianByte(n / 256, width - 1, k - 1);
      DividesTwice(n, Power256(k - 1));
    }
  }

  lemma DividesTwice(n: nat, m: nat)
    requires m > 0
    ensures n / 256 / m == n / (256 * m)
  {
    var q, r := n / (256 * m), n % (256 * m);
    assert n == 256 * m * q + r && 0 <= r < 256 * m;
    assert n / 256 == m * q + r / 256 by {
      assert n == 256 * (m * q) + r;
    }
    assert 0 <= r / 256 < m;
    QuotientIs(m * q + r / 256, m, q, r / 256);
  }

  lemma QuotientIs(n: nat, m: nat, q: nat, r: nat)
    requires 0 < m && r < m && n == m * q + r
    ensures n / m == q
  {
    var d := n / m;
    assert n == m * d + n % m;
    Between(m, q - d, n % m - r);
  }

  lemma Between(m: int, k: int, rest: int)
    requires 0 < m && m * k == rest && -m < rest < m
    ensures k == 0
  {
    if k > 0 {
      Grows(m, k);
    } else if k < 0 {
      Grows(m, -k);
    }
  }

  lemma Grows(m: int, k: int)
    requires 0 < m && 0 < k
    ensures m * k >= m
  {
  }

  // --------------------------------------------------------------- encoding

  predicate RecordFits(f: RuleFile) {
    |f.path| < Power256(4) && |f.content| < Power256(8)
  }

  predicate Fits(files: seq<RuleFile>) {
    |files| < Power256(4) && forall f :: f in files ==> RecordFits(f)
  }

  function Record(f: RuleFile): Bytes {
    ToLittleEndian(|f.path|, 4) + ToLittleEndian(|f.content|, 8) + f.path + f.content
  }

  function Records(files: seq<RuleFile>): Bytes {
    if files == [] then [] else Record(files[0]) + Records(files[1..])
  }

  function Encode(files: seq<RuleFile>): Bytes {
    MAGIC + ToLittleEndian(|files|, 4) + Records(files)
  }

  function Slashed(path: Bytes): (r: Bytes)
    ensures |r| == |path|
    ensures forall i :: 0 <= i < |path| ==> r[i] == if path[i] == BACKSLASH then SLASH else path[i]
  {
    if path == [] then []
    else [if path[0] == BACKSLASH then SLASH else path[0]] + Slashed(path[1..])
  }

  /** The rulepack as archived: backslashes in paths become slashes. */
  function Normalized(files: seq<RuleFile>): (r: seq<RuleFile>)
    ensures |r| == |files|
    ensures forall i :: 0 <= i < |files| ==> r[i] == RuleFile(Slashed(files[i].path), files[i].content)
  {
    if files == [] then []
    else [RuleFile(Slashed(files[0].path), files[0].content)] + Normalized(files[1..])
  }

  /** Where the parts of an archive lie: the magic, the count, and per file its
      path length in four bytes, its content length in eight, path and content. */
  lemma ArchiveLayout(files: seq<RuleFile>, f: RuleFile)
    ensures Encode(files)[..8] == [0x42, 0x4E, 0x53, 0x52, 0x50, 0x30, 0x30, 0x31]
    ensures |Encode(files)| >= 12 && Encode(files)[8..12] == ToLittleEndian(|files|, 4)
    ensures Encode([])[12..] == [] && Encode(files + [f])[12..] == Encode(files)[12..] + Record(f)
    ensures var r := Record(f);
            && |r| == 12 + |f.path| + |f.content|
            && r[..4] == ToLittleEndian(|f.path|, 4) && r[4..12] == ToLittleEndian(|f.content|, 8)
            && r[12..12 + |f.path|] == f.path && r[12 + |f.path|..] == f.content
  {
    hide ToLittleEndian;
    RecordsAppend(files, f);
    assert Encode(files)[12..] == Records(files) && Encode(files + [f])[12..] == Records(files + [f]);
  }

  lemma {:induction false} RecordsAppend(files: seq<RuleFile>, f: RuleFile)
    ensures Records(files + [f]) == Records(files) + Record(f)
  {
    if files == [] {
      assert files + [f] == [f];
      assert Records([f]) == Record(f) + Records([]);
    } else {
      assert (files + [f])[1..] == files[1..] + [f];
      RecordsAppend(files[1..], f);
    }
  }

  /** Append one length-prefixed record. */
  method AppendRecord(archive: Bytes, f: RuleFile) returns (r: Result<Bytes>)
    ensures r.Ok? <==> RecordFits(f)
    ensures r.Ok? ==> r.value == archive + Record(RuleFile(Slashed(f.path), f.content))
  {
    hide ToLittleEndian, Power256;
    var path := Slashed(f.path);
    if |path| >= Power256(4) {
      return Err("rulepack path is too long");
    }
    var out := archive + ToLittleEndian(|path|, 4);
    if |f.content| >= Power256(8) {
      return Err("rulepack file is too large");
    }
    out := out + ToLittleEndian(|f.content|, 8);
    out := out + path;
    out := out + f.content;
    return Ok(out);
  }

  /** Build the archive by appending one record per file. */
  method BuildArchive(files: seq<RuleFile>) returns (r: Result<Bytes>)
    ensures r.Ok? <==> Fits(files)
    ensures r.Ok? ==> r.value == Encode(Normalized(files))
  {
    hide Record, Records, RecordFits, ToLittleEndian, Power256;
    if |files| >= Power256(4) {
      return Err("bundled rulepack has too many files");
    }
    ghost var packed, header := Normalized(files), MAGIC + ToLittleEndian(|files|, 4);
    var archive := MAGIC + ToLittleEndian(|files|, 4);
    NoRecords();
    for k := 0 to |files|
      invariant archive == header + Records(packed[..k])
      invariant forall i :: 0 <= i < k ==> RecordFits(files[i])
    {
      assert files[k] in files;
      r := AppendRecord(archive, files[k]);
      if r.Err? {
        return;
      }
      archive := r.value;
      assert packed[..k + 1] == packed[..k] + [packed[k]];
      RecordsAppend(packed[..k], packed[k]);
      assert archive == header + (Records(packed[..k]) + Record(packed[k]));
    }
    assert packed[..|files|] == packed;
    return Ok(archive);
  }

  lemma NoRecords()
    ensures Records([]) == []
  {
  }

  // ---------------------------------------------------------------- reading

  /** Read one record at `at`; the reader refuses some paths. */
  function ReadRecord(data: Bytes, at: nat, accepts: Bytes -> bool): (r: Option<(RuleFile, nat)>)
    ensures r.Some? ==> r.value.1 <= |data|
  {
    if at + 12 > |data| then None
    else
      var pathEnd := at + 12 + FromLittleEndian(data[at..at + 4]);
      var end := pathEnd + FromLittleEndian(data[at + 4..at + 12]);
      if end > |data| || !accepts(data[at + 12..pathEnd]) then None
      else Some((RuleFile(data[at + 12..pathEnd], data[pathEnd..end]), end))
  }

  function ReadRecords(data: Bytes, at: nat, count: nat, accepts: Bytes -> bool): (r: Option<(seq<RuleFile>, nat)>)
    requires at <= |data|
    ensures r.Some? ==> r.value.1 <= |data|
    decreases count
  {
    if count == 0 then Some(([], at))
    else
      var first := ReadRecord(data, at, accepts);
      if first.None? then None
      else Prepend([first.value.0], ReadRecords(data, first.value.1, count - 1, accepts))
  }

  function Prepend(files: seq<RuleFile>, r: Option<(seq<RuleFile>, nat)>): Option<(seq<RuleFile>, nat)> {
    if r.None? then None else Some((files + r.value.0, r.value.1))
  }

  function Decode(data: Bytes, accepts: Bytes -> bool): Option<seq<RuleFile>> {
    if |data| < 12 || data[..8] != MAGIC then None
    else
      var r := ReadRecords(data, 12, FromLittleEndian(data[8..12]), accepts);
      if r.None? || r.value.1 != |data| then None else Some(r.value.0)
  }

  /** The reader's cursor: it fails instead of running past the end. */
  class Cursor {
    const data: Bytes
    var position: nat

    constructor (data: Bytes)
      ensures this.data == data && position == 0
    {
      this.data := data;
      position := 0;
    }

    method ReadExact(n: nat) returns (r: Option<Bytes>)
      requires position <= |data|
      modifies this`position
      ensures position <= |data|
      ensures r.Some? <==> old(position) + n <= |data|
      ensures r.Some? ==> position == old(position) + n && r.value == data[old(position)..position]
    {
      if position + n > |data| {
        return None;
      }
      r := Some(data[position..position + n]);
      position := position + n;
    }
  }

  method ReadRule(cursor: Cursor, accepts: Bytes -> bool) returns (r: Option<RuleFile>)
    requires cursor.position <= |cursor.data|
    modifies cursor`position
    ensures cursor.position <= |cursor.data|
    ensures var expected := ReadRecord(cursor.data, old(cursor.position), accepts);
            if expected.None? then r.None? else r == Some(expected.value.0) && cursor.position == expected.value.1
  {
    hide FromLittleEndian;
    var pathLength := cursor.ReadExact(4);
    if pathLength.None? {
      return None;
    }
    var contentLength := cursor.ReadExact(8);
    if contentLength.None? {
      return None;
    }
    var path := cursor.ReadExact(FromLittleEndian(pathLength.value));
    if path.None? || !accepts(path.value) {
      return None;
    }
    var content := cursor.ReadExact(FromLittleEndian(contentLength.value));
    if content.None? {
      return None;
    }
    return Some(RuleFile(path.value, content.value));
  }

  /** Unpack an archive record by record. */
  method Unpack(data: Bytes, accepts: Bytes -> bool) returns (r: Option<seq<RuleFile>>)
    ensures r == Decode(data, accepts)
  {
    hide FromLittleEndian, ReadRecord, Prepend;
    var cursor := new Cursor(data);
    var magic := cursor.ReadExact(8);
    if magic.None? || magic.value != MAGIC {
      return None;
    }
    var count := cursor.ReadExact(4);
    if count.None? {
      return None;
    }
    var total := FromLittleEndian(count.value);
    var files: seq<RuleFile> := [];
    PrependNothing(ReadRecords(data, 12, total, accepts));
    for k := 0 to total
      invariant cursor.data == data && cursor.position <= |data|
      invariant ReadRecords(data, 12, total, accepts) ==
                Prepend(files, ReadRecords(data, cursor.position, total - k, accepts))
    {
      var file := ReadRule(cursor, accepts);
      if file.None? {
        PrependEnds(files, cursor.position);
        return None;
      }
      PrependMore(files, file.value, ReadRecords(data, cursor.position, total - k - 1, accepts));
      files := files + [file.value];
    }
    PrependEnds(files, cursor.position);
    return if cursor.position != |data| then None else Some(files);
  }

  lemma PrependEnds(files: seq<RuleFile>, at: nat)
    ensures Prepend(files, None) == None && Prepend(files, Some(([], at))) == Some((files, at))
  {
    assert files + [] == files;
  }

  lemma PrependNothing(r: Option<(seq<RuleFile>, nat)>)
    ensures Prepend([], r) == r
  {
    if r.Some? {
      assert [] + r.value.0 == r.value.0;
    }
  }

  lemma PrependMore(files: seq<RuleFile>, f: RuleFile, r: Option<(seq<RuleFile>, nat)>)
    ensures Prepend(files, Prepend([f], r)) == Prepend(files + [f], r)
  {
    if r.Some? {
      assert files + ([f] + r.value.0) == files + [f] + r.value.0;
    }
  }

  // ------------------------------------------------------------- round trip

  /** The bytes of `part` lie in `data` from `at` on. */
  ghost predicate Holds(data: Bytes, at: nat, part: Bytes) {
    at + |part| <= |data| && data[at..at + |part|] == part
  }

  lemma HoldsParts(data: Bytes, at: nat, a: Bytes, b: Bytes)
    ensures Holds(data, at, a + b) <==> Holds(data, at, a) && Holds(data, at + |a|, b)
  {
    if at + |a + b| <= |data| {
      var whole := data[at..at + |a + b|];
      assert data[at..at + |a|] == whole[..|a|] && data[at + |a|..at + |a| + |b|] == whole[|a|..];
      assert whole == whole[..|a|] + whole[|a|..];
      assert (a + b)[..|a|] == a && (a + b)[|a|..] == b;
    }
  }

  lemma RecordHolds(data: Bytes, at: nat, f: RuleFile)
    requires RecordFits(f)
    ensures Holds(data, at, Record(f)) <==>
      && at + 12 + |f.path| + |f.content| <= |data|
      && FromLittleEndian(data[at..at + 4]) == |f.path|
      && FromLittleEndian(data[at + 4..at + 12]) == |f.content|
      && data[at + 12..at + 12 + |f.path|] == f.path
      && data[at + 12 + |f.path|..at + 12 + |f.path| + |f.content|] == f.content
  {
    var sizes := ToLittleEndian(|f.path|, 4) + ToLittleEndian(|f.content|, 8);
    HoldsParts(data, at, sizes + f.path, f.content);
    HoldsParts(data, at, sizes, f.path);
    HoldsParts(data, at, ToLittleEndian(|f.path|, 4), ToLittleEndian(|f.content|, 8));
    LittleEndianReads(|f.path|, 4);
    LittleEndianReads(|f.content|, 8);
    if at + 12 <= |data| {
      LittleEndianWrites(data[at..at + 4]);
      LittleEndianWrites(data[at + 4..at + 12]);
    }
  }

  lemma RecordReads(data: Bytes, at: nat, f: RuleFile, accepts: Bytes -> bool)
    requires RecordFits(f) && accepts(f.path) && Holds(data, at, Record(f))
    ensures ReadRecord(data, at, accepts) == Some((f, at + |Record(f)|))
  {
    RecordHolds(data, at, f);
  }

  lemma ReadIsRecord(data: Bytes, at: nat, accepts: Bytes -> bool)
    requires ReadRecord(data, at, accepts).Some?
    ensures var (f, end) := ReadRecord(data, at, accepts).value;
            RecordFits(f) && accepts(f.path) && Holds(data, at, Record(f)) && end == at + |Record(f)|
  {
    hide Power256, ToLittleEndian, FromLittleEndian, Record;
    var f := ReadRecord(data, at, accepts).value.0;
    LittleEndianWrites(data[at..at + 4]);
    LittleEndianWrites(data[at + 4..at + 12]);
    RecordHolds(data, at, f);
    RecordLength(f);
  }

  lemma RecordLength(f: RuleFile)
    ensures |Record(f)| == 12 + |f.path| + |f.content|
  {
  }

  /** Reading gives back exactly the records that are there. */
  lemma {:induction false} RecordsRead(data: Bytes, at: nat, files: seq<RuleFile>, accepts: Bytes -> bool)
    requires forall f :: f in files ==> RecordFits(f) && accepts(f.path)
    requires Holds(data, at, Records(files))
    ensures at <= |data| && ReadRecords(data, at, |files|, accepts) == Some((files, at + |Records(files)|))
    decreases |files|
  {
    hide Record, ReadRecord, RecordFits;
    if files != [] {
      var f, rest := files[0], files[1..];
      assert Records(files) == Record(f) + Records(rest);
      HoldsParts(data, at, Record(f), Records(rest));
      RecordReads(data, at, f, accepts);
      RecordsRead(data, at + |Record(f)|, rest, accepts);
      assert ReadRecords(data, at, |files|, accepts) ==
             Prepend([f], ReadRecords(data, at + |Record(f)|, |rest|, accepts));
      assert files == [f] + rest;
    }
  }

  lemma {:induction false} ReadIsRecorded(data: Bytes, at: nat, count: nat, accepts: Bytes -> bool)
    requires at <= |data| && ReadRecords(data, at, count, accepts).Some?
    ensures var (files, end) := ReadRecords(data, at, count, accepts).value;
            && |files| == count && Holds(data, at, Records(files)) && end == at + |Records(files)|
            && forall f :: f in files ==> RecordFits(f) && accepts(f.path)
    decreases count
  {
    if count > 0 {
      hide Record, ReadRecord, RecordFits, Holds;
      var (f, end) := ReadRecord(data, at, accepts).value;
      var rest := ReadRecords(data, end, count - 1, accepts).value.0;
      ReadIsRecord(data, at, accepts);
      ReadIsRecorded(data, end, count - 1, accepts);
      HoldsParts(data, at, Record(f), Records(rest));
      assert ([f] + rest)[1..] == rest;
    }
  }

  lemma DecodedIsEncoded(data: Bytes, accepts: Bytes -> bool)
    requires Decode(data, accepts).Some?
    ensures var files := Decode(data, accepts).value;
            Fits(files) && (forall f :: f in files ==> accepts(f.path)) && data == Encode(files)
  {
    hide FromLittleEndian, ToLittleEndian, Power256, ReadRecords, Records, RecordFits;
    ReadIsRecorded(data, 12, FromLittleEndian(data[8..12]), accepts);
    LittleEndianWrites(data[8..12]);
    assert data == data[..8] + data[8..12] + data[12..];
  }

  lemma EncodedIsDecoded(files: seq<RuleFile>, accepts: Bytes -> bool)
    requires Fits(files) && forall f :: f in files ==> accepts(f.path)
    ensures Decode(Encode(files), accepts) == Some(files)
  {
    hide FromLittleEndian, ToLittleEndian, Power256, ReadRecords, Records, RecordFits;
    var data := Encode(files);
    LittleEndianReads(|files|, 4);
    assert data[..8] == MAGIC && data[8..12] == ToLittleEndian(|files|, 4);
    assert data[12..|data|] == Records(files);
    RecordsRead(data, 12, files, accepts);
  }

  /** The reader accepts exactly the archives of rulepacks that fit and whose
      paths it accepts, and returns exactly that rulepack. */
  lemma DecodeIsInverse(data: Bytes, files: seq<RuleFile>, accepts: Bytes -> bool)
    ensures Decode(data, accepts) == Some(files) <==>
            Fits(files) && (forall f :: f in files ==> accepts(f.path)) && data == Encode(files)
  {
    hide Decode, Encode, Fits;
    if Decode(data, accepts) == Some(files) {
      DecodedIsEncoded(data, accepts);
    }
    if Fits(files) && (forall f :: f in files ==> accepts(f.path)) && data == Encode(files) {
      EncodedIsDecoded(files, accepts);
    }
  }

  /** Equal archives mean equal rulepacks, up to the slash rewriting that every
      path goes through. */
  lemma ArchiveIsIdentity(a: seq<RuleFile>, b: seq<RuleFile>)
    requires Fits(a) && Fits(b)
    ensures Encode(Normalized(a)) == Encode(Normalized(b)) <==> Normalized(a) == Normalized(b)
  {
    FitsNormalized(a);
    FitsNormalized(b);
    DecodeIsInverse(Encode(Normalized(a)), Normalized(a), _ => true);
    DecodeIsInverse(Encode(Normalized(a)), Normalized(b), _ => true);
  }

  lemma FitsNormalized(files: seq<RuleFile>)
    requires Fits(files)
    ensures Fits(Normalized(files))
  {
    forall f | f in Normalized(files)
      ensures RecordFits(f)
    {
      var i :| 0 <= i < |files| && Normalized(files)[i] == f;
      assert RecordFits(files[i]);
    }
  }

  /** Without backslashes in paths the archive determines the rulepack. */
  lemma ArchiveDetermines(a: seq<RuleFile>, b: seq<RuleFile>)
    requires Fits(a) && Fits(b)
    requires forall f :: f in a + b ==> BACKSLASH !in f.path
    ensures Encode(Normalized(a)) == Encode(Normalized(b)) <==> a == b
  {
    AlreadySlashed(a);
    AlreadySlashed(b);
    ArchiveIsIdentity(a, b);
  }

  lemma AlreadySlashed(files: seq<RuleFile>)
    requires forall f :: f in files ==> BACKSLASH !in f.path
    ensures Normalized(files) == files
  {
    forall i | 0 <= i < |files|
      ensures Normalized(files)[i] == files[i]
    {
      assert files[i] in files;
      assert Slashed(files[i].path) == files[i].path;
    }
  }
}
