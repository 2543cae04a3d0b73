/**
 The record pack of large repositories: written by crates/rgctl-dashboard/src/cfg_record_pack.rs, read back in the
 browser by dashboard/src/cfgRecordIndex.ts, one record at a time through HTTP range requests.
 */
module CfgRecordIndex {
  import opened Wrappers
  import opened LittleEndian

  const MAGIC: Bytes := [0x52, 0x42, 0x43, 0x49]
  const ENTRY_SIZE := 28

  /** The sixteen bytes of a function id. */
  type UuidBytes = b: Bytes | |b| == 16 witness [0, 0, 0, 0, 0, 0, 0, 0, 0, 0, 0, 0, 0, 0, 0, 0]

  datatype Location = Location(offset: nat, length: nat)

  // ---------------------------------------------------------------- numbers of the browser

  /**
   `Number` of an unsigned 64-bit integer: exact below 2^53, else the nearest multiple of a power of two, ties to even.
   */
  function ToNumber(n: nat): nat {
    if n < 0x20_0000_0000_0000 then n else RoundTo(n, Unit(n))
  }

  /** The distance between neighbouring numbers around `n`. */
  function Unit(n: nat): (u: nat)
    ensures u > 0
  {
    if n < 0x20_0000_0000_0000 then 1 else 2 * Unit(n / 2)
  }

  function RoundTo(n: nat, unit: nat): nat
    requires unit > 0
  {
    var low := n / unit * unit;
    var rest := n - low;
    if 2 * rest < unit || (2 * rest == unit && n / unit % 2 == 0) then low else low + unit
  }

  // ---------------------------------------------------------------- ids

  function HexDigit(n: nat): char
    requires n < 16
  {
    "0123456789abcdef"[n]
  }

  /** Two hex digits for every byte. */
  function Hex(bytes: Bytes): (s: string)
    ensures |s| == 2 * |bytes|
  {
    if bytes == [] then "" else [HexDigit(bytes[0] / 16), HexDigit(bytes[0] % 16)] + Hex(bytes[1..])
  }

  function FormatUuid(bytes: UuidBytes): string {
    var hex := Hex(bytes);
    hex[0..8] + "-" + hex[8..12] + "-" + hex[12..16] + "-" + hex[16..20] + "-" + hex[20..]
  }

  lemma HexDigitInjective(a: nat, b: nat)
    requires a < 16 && b < 16 && HexDigit(a) == HexDigit(b)
    ensures a == b
  {
  }

  lemma {:induction false} HexInjective(a: Bytes, b: Bytes)
    requires |a| == |b| && Hex(a) == Hex(b)
    ensures a == b
  {
    if a != [] {
      assert Hex(a)[..2] == [HexDigit(a[0] / 16), HexDigit(a[0] % 16)];
      assert Hex(b)[..2] == [HexDigit(b[0] / 16), HexDigit(b[0] % 16)];
      assert Hex(a)[0] == Hex(b)[0] && Hex(a)[1] == Hex(b)[1];
      HexDigitInjective(a[0] / 16, b[0] / 16);
      HexDigitInjective(a[0] % 16, b[0] % 16);
      assert Hex(a)[2..] == Hex(a[1..]);
      assert Hex(b)[2..] == Hex(b[1..]);
      HexInjective(a[1..], b[1..]);
      assert a == [a[0]] + a[1..];
      assert b == [b[0]] + b[1..];
    }
  }

  /** Different ids are written differently. */
  lemma FormatUuidInjective(a: UuidBytes, b: UuidBytes)
    requires FormatUuid(a) == FormatUuid(b)
    ensures a == b
  {
    HexOfUuid(a);
    HexOfUuid(b);
    HexInjective(a, b);
  }

  /** The digits of an id, read off its written form. */
  lemma {:induction false} HexOfUuid(a: UuidBytes)
    ensures |FormatUuid(a)| == 36
    ensures var s := FormatUuid(a); Hex(a) == s[0..8] + s[9..13] + s[14..18] + s[19..23] + s[24..]
  {
    var f, s := Hex(a), FormatUuid(a);
    assert s[0..8] == f[0..8];
    assert s[9..13] == f[8..12];
    assert s[14..18] == f[12..16];
    assert s[19..23] == f[16..20];
    assert s[24..] == f[20..];
    assert f == f[0..8] + f[8..12] + f[12..16] + f[16..20] + f[20..];
  }

  // ---------------------------------------------------------------- reading the index

  function U32(bytes: Bytes, pos: nat): nat
    requires pos + 4 <= |bytes|
  {
    FromLe(bytes[pos..pos + 4])
  }

  function U64(bytes: Bytes, pos: nat): nat
    requires pos + 8 <= |bytes|
  {
    FromLe(bytes[pos..pos + 8])
  }

  function EntryAt(bytes: Bytes, pos: nat): (string, Location)
    requires pos + ENTRY_SIZE <= |bytes|
  {
    (FormatUuid(bytes[pos..pos + 16]), Location(ToNumber(U64(bytes, pos + 16)), U32(bytes, pos + 24)))
  }

  /** The table of the first `count` entries; a repeated id keeps its last entry. */
  function Entries(bytes: Bytes, count: nat): map<string, Location>
    requires 16 + count * ENTRY_SIZE <= |bytes|
  {
    if count == 0 then map[]
    else
      var (id, location) := EntryAt(bytes, 16 + (count - 1) * ENTRY_SIZE);
      Entries(bytes, count - 1)[id := location]
  }

  function ParseIndex(bytes: Bytes): Result<map<string, Location>> {
    if |bytes| < 16 then Err("cfg record index truncated")
    else if bytes[..4] != MAGIC then Err("invalid cfg record index magic")
    else if U32(bytes, 4) != 1 then Err("unsupported cfg record index version")
    else
      var count := ToNumber(U64(bytes, 8));
      if |bytes| < 16 + count * ENTRY_SIZE then Err("cfg record index payload truncated")
      else Ok(Entries(bytes, count))
  }

  method ParseCfgRecordIndex(bytes: Bytes) returns (r: Result<map<string, Location>>)
    ensures r == ParseIndex(bytes)
    ensures |bytes| < 16 ==> r == Err("cfg record index truncated")
    ensures |bytes| >= 16 && bytes[..4] != [0x52, 0x42, 0x43, 0x49] ==> r == Err("invalid cfg record index magic")
    ensures |bytes| >= 16 && bytes[..4] == [0x52, 0x42, 0x43, 0x49] && bytes[4..8] != [1, 0, 0, 0] ==>
              r == Err("unsupported cfg record index version")
  {
    if |bytes| < 16 {
      return Err("cfg record index truncated");
    }
    for i := 0 to 4
      invariant bytes[..i] == MAGIC[..i]
    {
      if bytes[i] != MAGIC[i] {
        assert bytes[..4][i] != MAGIC[i];
        return Err("invalid cfg record index magic");
      }
    }
    assert MAGIC[..4] == MAGIC;
    var version := U32(bytes, 4);
    OnlyOne(bytes[4..8]);
    if version != 1 {
      return Err("unsupported cfg record index version");
    }
    var count := ToNumber(U64(bytes, 8));
    if |bytes| < 16 + count * ENTRY_SIZE {
      return Err("cfg record index payload truncated");
    }
    var entries := ReadEntries(bytes, count);
    return Ok(entries);
  }

  method ReadEntry(bytes: Bytes, start: nat) returns (id: string, location: Location, pos: nat)
    requires start + ENTRY_SIZE <= |bytes|
    ensures (id, location) == EntryAt(bytes, start) && pos == start + ENTRY_SIZE
  {
    pos := start;
    id := FormatUuid(bytes[pos..pos + 16]);
    pos := pos + 16;
    var offset := ToNumber(U64(bytes, pos));
    pos := pos + 8;
    var length := U32(bytes, pos);
    pos := pos + 4;
    location := Location(offset, length);
  }

  lemma EntriesNext(bytes: Bytes, i: nat, pos: nat)
    requires pos == 16 + i * ENTRY_SIZE && pos + ENTRY_SIZE <= |bytes|
    ensures Entries(bytes, i + 1) == var (id, location) := EntryAt(bytes, pos); Entries(bytes, i)[id := location]
  {
  }

  method ReadEntries(bytes: Bytes, count: nat) returns (entries: map<string, Location>)
    requires 16 + count * ENTRY_SIZE <= |bytes|
    ensures entries == Entries(bytes, count)
  {
    entries := map[];
    var pos := 16;
    for i := 0 to count
      invariant pos == 16 + i * ENTRY_SIZE
      invariant entries == Entries(bytes, i)
    {
      EntriesNext(bytes, i, pos);
      var id, location;
      id, location, pos := ReadEntry(bytes, pos);
      entries := entries[id := location];
    }
  }

  // ---------------------------------------------------------------- writing the index

  datatype IndexEntry = IndexEntry(functionId: UuidBytes, offset: nat, length: nat)

  /** The values fit the fields of the format, as they do in the types of the exporter. */
  ghost predicate AllFit(entries: seq<IndexEntry>) {
    && |entries| < 0x20_0000_0000_0000
    && forall i | 0 <= i < |entries| :: entries[i].offset < 0x1_0000_0000_0000_0000 && entries[i].length < 0x1_0000_0000
  }

  ghost predicate DistinctIds(entries: seq<IndexEntry>) {
    forall j, k | 0 <= j < k < |entries| :: entries[j].functionId != entries[k].functionId
  }

  function EncodeEntry(e: IndexEntry): (bytes: Bytes)
    ensures |bytes| == ENTRY_SIZE
  {
    e.functionId + ToLe(e.offset, 8) + ToLe(e.length, 4)
  }

  function EncodeEntries(entries: seq<IndexEntry>): (bytes: Bytes)
    ensures |bytes| == |entries| * ENTRY_SIZE
  {
    if entries == [] then [] else EncodeEntries(entries[..|entries| - 1]) + EncodeEntry(entries[|entries| - 1])
  }

  function Header(count: nat): (bytes: Bytes)
    ensures |bytes| == 16
  {
    MAGIC + ToLe(1, 4) + ToLe(count, 8)
  }

  function EncodeIndex(entries: seq<IndexEntry>): Bytes {
    Header(|entries|) + EncodeEntries(entries)
  }

  /** Each id with its length and its offset, the latter as `view` shows it. */
  function Table(entries: seq<IndexEntry>, view: nat -> nat): map<string, Location> {
    if entries == [] then map[]
    else
      var e := entries[|entries| - 1];
      Table(entries[..|entries| - 1], view)[FormatUuid(e.functionId) := Location(view(e.offset), e.length)]
  }

  function Exact(n: nat): nat {
    n
  }

  lemma EntryRoundTrip(bytes: Bytes, before: Bytes, e: IndexEntry, behind: Bytes)
    requires bytes == before + EncodeEntry(e) + behind
    requires e.offset < 0x1_0000_0000_0000_0000 && e.length < 0x1_0000_0000
    ensures EntryAt(bytes, |before|) == (FormatUuid(e.functionId), Location(ToNumber(e.offset), e.length))
  {
    var pos := |before|;
    Pow256Values();
    LeRoundTrip(e.offset, 8);
    LeRoundTrip(e.length, 4);
    assert bytes[pos..pos + 16] == e.functionId;
    assert bytes[pos + 16..pos + 24] == ToLe(e.offset, 8);
    assert bytes[pos + 24..pos + 28] == ToLe(e.length, 4);
  }

  function Seen(e: IndexEntry): (string, Location) {
    (FormatUuid(e.functionId), Location(ToNumber(e.offset), e.length))
  }

  /** Where the last entry stands among the bytes. */
  lemma LastEntrySplit(header: Bytes, entries: seq<IndexEntry>, behind: Bytes)
    requires entries != []
    ensures var rest, last := entries[..|entries| - 1], EncodeEntry(entries[|entries| - 1]);
            && header + EncodeEntries(entries) + behind == header + EncodeEntries(rest) + last + behind
            && header + EncodeEntries(entries) + behind == header + EncodeEntries(rest) + (last + behind)
  {
  }

  /** Every written entry reads as itself. */
  lemma {:induction false} EntryInPlace(bytes: Bytes, header: Bytes, entries: seq<IndexEntry>, behind: Bytes, i: nat)
    requires |header| == 16 && AllFit(entries) && i < |entries|
    requires bytes == header + EncodeEntries(entries) + behind
    ensures EntryAt(bytes, 16 + i * ENTRY_SIZE) == Seen(entries[i])
  {
    var rest, last := entries[..|entries| - 1], entries[|entries| - 1];
    LastEntrySplit(header, entries, behind);
    if i < |rest| {
      EntryInPlace(bytes, header, rest, EncodeEntry(last) + behind, i);
    } else {
      EntryRoundTrip(bytes, header + EncodeEntries(rest), last, behind);
    }
  }

  lemma {:induction false} EntriesAreTable(bytes: Bytes, entries: seq<IndexEntry>)
    requires |bytes| >= 16 + |entries| * ENTRY_SIZE
    requires forall i | 0 <= i < |entries| :: EntryAt(bytes, 16 + i * ENTRY_SIZE) == Seen(entries[i])
    ensures Entries(bytes, |entries|) == Table(entries, ToNumber)
  {
    if entries != [] {
      EntriesAreTable(bytes, entries[..|entries| - 1]);
    }
  }

  lemma {:induction false} EntriesRoundTrip(bytes: Bytes, header: Bytes, entries: seq<IndexEntry>, behind: Bytes)
    requires |header| == 16 && AllFit(entries)
    requires bytes == header + EncodeEntries(entries) + behind
    ensures Entries(bytes, |entries|) == Table(entries, ToNumber)
  {
    forall i | 0 <= i < |entries| ensures EntryAt(bytes, 16 + i * ENTRY_SIZE) == Seen(entries[i]) {
      EntryInPlace(bytes, header, entries, behind, i);
    }
    EntriesAreTable(bytes, entries);
  }

  lemma HeaderRoundTrip(count: nat, body: Bytes)
    requires count < 0x20_0000_0000_0000
    ensures var bytes := Header(count) + body;
            bytes[..4] == MAGIC && U32(bytes, 4) == 1 && ToNumber(U64(bytes, 8)) == count
  {
    var bytes := Header(count) + body;
    Pow256Values();
    LeRoundTrip(1, 4);
    LeRoundTrip(count, 8);
    assert bytes[4..8] == ToLe(1, 4);
    assert bytes[8..16] == ToLe(count, 8);
  }

  /** Reading what was written gives back every id and length, and every offset as a browser number. */
  lemma {:induction false} IndexRoundTrip(entries: seq<IndexEntry>)
    requires AllFit(entries)
    ensures ParseIndex(EncodeIndex(entries)) == Ok(Table(entries, ToNumber))
  {
    HeaderRoundTrip(|entries|, EncodeEntries(entries));
    assert EncodeIndex(entries) == Header(|entries|) + EncodeEntries(entries) + [];
    EntriesRoundTrip(EncodeIndex(entries), Header(|entries|), entries, []);
  }

  /** With distinct ids the table has each record under its id. */
  lemma {:induction false} TableLookup(entries: seq<IndexEntry>, view: nat -> nat, i: nat)
    requires DistinctIds(entries) && i < |entries|
    ensures FormatUuid(entries[i].functionId) in Table(entries, view)
    ensures Table(entries, view)[FormatUuid(entries[i].functionId)]
              == Location(view(entries[i].offset), entries[i].length)
  {
    var n := |entries| - 1;
    if i < n {
      TableLookup(entries[..n], view, i);
      if FormatUuid(entries[i].functionId) == FormatUuid(entries[n].functionId) {
        FormatUuidInjective(entries[i].functionId, entries[n].functionId);
      }
    }
  }

  lemma {:induction false} TableExact(entries: seq<IndexEntry>)
    requires forall i | 0 <= i < |entries| :: ToNumber(entries[i].offset) == entries[i].offset
    ensures Table(entries, ToNumber) == Table(entries, Exact)
  {
    if entries != [] {
      TableExact(entries[..|entries| - 1]);
    }
  }

  /** Browser numbers around `n` are the multiples of `Unit(n)`: below 2^53 every integer, above it ever fewer. */
  predicate Representable(n: nat) {
    n % Unit(n) == 0
  }

  /** A number arrives unchanged exactly when it is a multiple of the spacing; 2^53 + 1 is the first that does not. */
  lemma WhichOffsetsSurvive(n: nat)
    ensures ToNumber(n) == n <==> Representable(n)
    ensures n <= 0x20_0000_0000_0000 ==> Representable(n)
    ensures !Representable(0x20_0000_0000_0001)
  {
    assert Unit(0x20_0000_0000_0001) == 2 * Unit(0x20_0000_0000_0001 / 2);
    var unit := Unit(n);
    assert n == n / unit * unit + n % unit;
  }

  /** For distinct ids, the index is read back exactly when every offset is a browser number. */
  lemma {:induction false} IndexExactlyReadBack(entries: seq<IndexEntry>)
    requires AllFit(entries) && DistinctIds(entries)
    ensures ParseIndex(EncodeIndex(entries)) == Ok(Table(entries, Exact))
       <==> forall i | 0 <= i < |entries| :: Representable(entries[i].offset)
  {
    IndexRoundTrip(entries);
    forall i | 0 <= i < |entries|
      ensures ToNumber(entries[i].offset) == entries[i].offset <==> Representable(entries[i].offset)
    {
      WhichOffsetsSurvive(entries[i].offset);
    }
    if forall i | 0 <= i < |entries| :: Representable(entries[i].offset) {
      TableExact(entries);
    } else {
      var i :| 0 <= i < |entries| && !Representable(entries[i].offset);
      TableLookup(entries, ToNumber, i);
      TableLookup(entries, Exact, i);
    }
  }

  /** Every proper prefix of an index is rejected. */
  lemma PrefixRejected(entries: seq<IndexEntry>, n: nat)
    requires AllFit(entries) && n < |EncodeIndex(entries)|
    ensures ParseIndex(EncodeIndex(entries)[..n]).Err?
  {
    var bytes := EncodeIndex(entries);
    HeaderRoundTrip(|entries|, EncodeEntries(entries));
    if n >= 16 {
      assert bytes[..n][..4] == bytes[..4];
      assert bytes[..n][4..8] == bytes[4..8];
      assert bytes[..n][8..16] == bytes[8..16];
    }
  }

  // ---------------------------------------------------------------- fetching one record

  datatype Response = Response(status: int, body: Bytes)

  /**
   What a server may answer to a request for bytes `first` to `last` of its data (sections 14.2 and 15.3.7 of RFC
   9110): the part that exists, with 206; 416 if none does; or, as for a range that makes no sense, everything with 200.
   */
  ghost predicate MayRespond(data: Bytes, first: nat, last: int, r: Response) {
    || r == Response(200, data)
    || (first <= last && first < |data|
         && r == Response(206, data[first..if last + 1 <= |data| then last + 1 else |data|]))
    || ((first > last || first >= |data|) && r.status == 416)
  }

  function FetchResult(location: Location, res: Response): Result<Bytes> {
    if !(200 <= res.status < 300) then Err("cfg record fetch HTTP status")
    else if res.status == 206 && |res.body| == location.length then Ok(res.body)
    else if |res.body| < location.offset + location.length then Err("cfg record fetch truncated")
    else Ok(res.body[location.offset..location.offset + location.length])
  }

  /**
   Whether the server honours or ignores the range, a non-empty record that lies within the data is returned exactly.
   */
  lemma FetchReturnsRecord(data: Bytes, location: Location, res: Response)
    requires location.length > 0
    requires MayRespond(data, location.offset, location.offset + location.length - 1, res)
    ensures if location.offset + location.length <= |data|
            then FetchResult(location, res) == Ok(data[location.offset..location.offset + location.length])
            else FetchResult(location, res).Err?
  {
  }

  // ---------------------------------------------------------------- the whole way

  datatype Record = Record(functionId: UuidBytes, content: Bytes)

  /** The export: contents one after the other, and an entry for each. */
  class CfgRecordPackWriter {
    var dataFile: Bytes
    var entries: seq<IndexEntry>
    var offset: nat

    constructor ()
      ensures dataFile == [] && entries == [] && offset == 0
    {
      dataFile, entries, offset := [], [], 0;
    }

    /** Refuse a record whose length does not fit; otherwise append it. */
    method Append(functionId: UuidBytes, content: Bytes) returns (r: Result<()>)
      modifies this
      ensures r.Err? <==> |content| >= 0x1_0000_0000
      ensures r.Err? ==> dataFile == old(dataFile) && entries == old(entries) && offset == old(offset)
      ensures r.Ok? ==> dataFile == old(dataFile) + content
                        && entries == old(entries) + [IndexEntry(functionId, old(offset), |content|)]
                        && offset == old(offset) + |content|
    {
      if |content| >= 0x1_0000_0000 {
        return Err("cfg detail record exceeds u32::MAX");
      }
      dataFile := dataFile + content;
      entries := entries + [IndexEntry(functionId, offset, |content|)];
      offset := offset + |content|;
      return Ok(());
    }

    /** The index file: header and entries, one after the other. */
    method Finish() returns (index: Bytes)
      ensures index == EncodeIndex(entries)
    {
      index := MAGIC + ToLe(1, 4);
      index := index + ToLe(|entries|, 8);
      ghost var head := index;
      for i := 0 to |entries|
        invariant index == head + EncodeEntries(entries[..i])
      {
        EncodeNext(head, entries, i);
        index := index + entries[i].functionId;
        index := index + ToLe(entries[i].offset, 8);
        index := index + ToLe(entries[i].length, 4);
      }
      assert entries[..|entries|] == entries;
    }
  }

  lemma EncodeNext(head: Bytes, entries: seq<IndexEntry>, i: nat)
    requires i < |entries|
    ensures head + EncodeEntries(entries[..i + 1])
         == head + EncodeEntries(entries[..i])
          + entries[i].functionId + ToLe(entries[i].offset, 8) + ToLe(entries[i].length, 4)
  {
    assert entries[..i + 1][..i] == entries[..i];
  }

  function DataFile(records: seq<Record>): Bytes {
    if records == [] then [] else DataFile(records[..|records| - 1]) + records[|records| - 1].content
  }

  function EntriesOf(records: seq<Record>): (entries: seq<IndexEntry>)
    ensures |entries| == |records|
    ensures forall i | 0 <= i < |records| ::
              entries[i].functionId == records[i].functionId && entries[i].length == |records[i].content|
  {
    if records == [] then []
    else
      var last := records[|records| - 1];
      EntriesOf(records[..|records| - 1]) +
        [IndexEntry(last.functionId, |DataFile(records[..|records| - 1])|, |last.content|)]
  }

  /**
   Appending every record writes exactly this data file and this index; a record that is too long stops the export.
   */
  method WritePack(records: seq<Record>) returns (r: Result<(Bytes, Bytes)>)
    ensures r.Err? <==> exists i | 0 <= i < |records| :: |records[i].content| >= 0x1_0000_0000
    ensures r.Ok? ==> r.value == (DataFile(records), EncodeIndex(EntriesOf(records)))
  {
    var writer := new CfgRecordPackWriter();
    for i := 0 to |records|
      invariant writer.dataFile == DataFile(records[..i]) && writer.entries == EntriesOf(records[..i])
      invariant writer.offset == |writer.dataFile|
      invariant forall k | 0 <= k < i :: |records[k].content| < 0x1_0000_0000
    {
      assert records[..i + 1][..i] == records[..i];
      var appended := writer.Append(records[i].functionId, records[i].content);
      if appended.Err? {
        return Err(appended.message);
      }
    }
    assert records[..|records|] == records;
    var index := writer.Finish();
    r := Ok((writer.dataFile, index));
  }

  lemma {:induction false} EntriesLocate(records: seq<Record>, i: nat)
    requires i < |records|
    ensures var e := EntriesOf(records)[i];
            && e.offset + e.length <= |DataFile(records)|
            && DataFile(records)[e.offset..e.offset + e.length] == records[i].content
  {
    var n := |records| - 1;
    var before, last := DataFile(records[..n]), records[n].content;
    assert DataFile(records) == before + last;
    if i < n {
      EntriesLocate(records[..n], i);
      var e := EntriesOf(records[..n])[i];
      assert EntriesOf(records)[i] == e;
      assert (before + last)[e.offset..e.offset + e.length] == before[e.offset..e.offset + e.length];
    } else {
      assert EntriesOf(records)[i] == IndexEntry(records[n].functionId, |before|, |last|);
      assert (before + last)[|before|..|before| + |last|] == last;
    }
  }

  /** A pack that the exporter can write and the browser can address. */
  ghost predicate Exportable(records: seq<Record>) {
    && |records| < 0x20_0000_0000_0000 && |DataFile(records)| < 0x20_0000_0000_0000
    && (forall i | 0 <= i < |records| :: 0 < |records[i].content| < 0x1_0000_0000)
    && (forall j, k | 0 <= j < k < |records| :: records[j].functionId != records[k].functionId)
  }

  lemma {:induction false} PackFits(records: seq<Record>)
    requires Exportable(records)
    ensures AllFit(EntriesOf(records)) && DistinctIds(EntriesOf(records))
    ensures forall i | 0 <= i < |records| :: EntriesOf(records)[i].offset < 0x20_0000_0000_0000
  {
    forall k | 0 <= k < |records| {
      EntriesLocate(records, k);
    }
  }

  lemma {:induction false} PackIndexed(records: seq<Record>, i: nat)
    requires Exportable(records) && i < |records|
    ensures var index, id := ParseIndex(EncodeIndex(EntriesOf(records))), FormatUuid(records[i].functionId);
            && index.Ok? && id in index.value
            && index.value[id] == Location(EntriesOf(records)[i].offset, EntriesOf(records)[i].length)
  {
    PackFits(records);
    IndexRoundTrip(EntriesOf(records));
    TableLookup(EntriesOf(records), ToNumber, i);
  }

  lemma {:induction false} RecordFetched(records: seq<Record>, i: nat, res: Response)
    requires Exportable(records) && i < |records|
    requires var e := EntriesOf(records)[i]; MayRespond(DataFile(records), e.offset, e.offset + e.length - 1, res)
    ensures FetchResult(Location(EntriesOf(records)[i].offset, EntriesOf(records)[i].length), res)
              == Ok(records[i].content)
  {
    EntriesLocate(records, i);
    var e := EntriesOf(records)[i];
    FetchReturnsRecord(DataFile(records), Location(e.offset, e.length), res);
  }

  /**
   From exporter to browser: parsing the written index, looking a function up under its formatted id, and fetching its
   range gives back the record that was appended for it, whether or not the server honours ranges.
   */
  lemma {:induction false} PackDeliversRecord(records: seq<Record>, i: nat, res: Response)
    requires Exportable(records) && i < |records|
    requires var e := EntriesOf(records)[i]; MayRespond(DataFile(records), e.offset, e.offset + e.length - 1, res)
    ensures var index := ParseIndex(EncodeIndex(EntriesOf(records)));
            var id := FormatUuid(records[i].functionId);
            && index.Ok? && id in index.value
            && FetchResult(index.value[id], res) == Ok(records[i].content)
  {
    PackIndexed(records, i);
    RecordFetched(records, i, res);
  }

  // ---------------------------------------------------------------- the format, byte by byte

  lemma {:induction false} OnlyOne(bytes: Bytes)
    requires |bytes| == 4
    ensures FromLe(bytes) == 1 <==> bytes == [1, 0, 0, 0]
  {
    assert FromLe(bytes) == bytes[0] + 256 * FromLe(bytes[1..]);
    assert FromLe(bytes[1..]) == bytes[1] + 256 * FromLe(bytes[1..][1..]);
    assert bytes[1..][1..] == bytes[2..] && bytes[2..][1..] == bytes[3..] && bytes[3..][1..] == [];
    assert FromLe(bytes[2..]) == bytes[2] + 256 * FromLe(bytes[3..]);
    assert FromLe(bytes[3..]) == bytes[3] + 256 * FromLe([]);
  }

  lemma {:induction false} EncodedAt(entries: seq<IndexEntry>, i: nat)
    requires i < |entries|
    ensures EncodeEntries(entries)[28 * i..28 * i + 28] == EncodeEntry(entries[i])
  {
    var n := |entries| - 1;
    if i < n {
      EncodedAt(entries[..n], i);
      assert EncodeEntries(entries)[28 * i..28 * i + 28] == EncodeEntries(entries[..n])[28 * i..28 * i + 28];
    }
  }

  /** The header: four letters, version 1, and the number of entries, least significant byte first. */
  lemma {:induction false} HeaderLayout(entries: seq<IndexEntry>, j: nat)
    requires j < 8
    ensures var bytes := EncodeIndex(entries);
            && |bytes| == 16 + 28 * |entries| && bytes[0..4] == [0x52, 0x42, 0x43, 0x49] && bytes[4..8] == [1, 0, 0, 0]
            && bytes[8 + j] == |entries| / Pow256(j) % 256
  {
    ByteOf(|entries|, 8, j);
    assert ToLe(1, 4) == [1, 0, 0, 0];
    assert EncodeIndex(entries)[8 + j] == ToLe(|entries|, 8)[j];
  }

  /** Entry `i` takes 28 bytes: the id, eight bytes of offset and four of length, least significant bytes first. */
  lemma {:induction false} EntryLayout(entries: seq<IndexEntry>, i: nat, j: nat)
    requires i < |entries| && j < 8
    ensures var bytes, at, e := EncodeIndex(entries), 16 + 28 * i, entries[i];
            && at + 28 <= |bytes| && bytes[at..at + 16] == e.functionId
            && bytes[at + 16 + j] == e.offset / Pow256(j) % 256
            && (j < 4 ==> bytes[at + 24 + j] == e.length / Pow256(j) % 256)
  {
    var bytes, at, e := EncodeIndex(entries), 16 + 28 * i, entries[i];
    EncodedAt(entries, i);
    assert bytes[at..at + 28] == EncodeEntries(entries)[28 * i..28 * i + 28];
    EntryBytes(e, j);
    PartsOf(bytes, at, EncodeEntry(e), j);
  }

  lemma PartsOf(bytes: Bytes, at: nat, piece: Bytes, j: nat)
    requires at + 28 <= |bytes| && |piece| == 28 && bytes[at..at + 28] == piece && j < 8
    ensures bytes[at..at + 16] == piece[..16] && bytes[at + 16 + j] == piece[16 + j]
    ensures j < 4 ==> bytes[at + 24 + j] == piece[24 + j]
  {
    assert bytes[at..at + 28][16 + j] == bytes[at + 16 + j];
    assert j < 4 ==> bytes[at..at + 28][24 + j] == bytes[at + 24 + j];
    assert bytes[at..at + 28][..16] == bytes[at..at + 16];
  }

  lemma {:induction false} EntryBytes(e: IndexEntry, j: nat)
    requires j < 8
    ensures EncodeEntry(e)[..16] == e.functionId && EncodeEntry(e)[16 + j] == e.offset / Pow256(j) % 256
    ensures j < 4 ==> EncodeEntry(e)[24 + j] == e.length / Pow256(j) % 256
  {
    ByteOf(e.offset, 8, j);
    if j < 4 {
      ByteOf(e.length, 4, j);
    }
  }

  function DigitOf(c: char): int {
    if '0' <= c <= '9' then c as int - '0' as int else c as int - 'a' as int + 10
  }

  /** Byte by byte, the hex text has the high digit and then the low one. */
  lemma {:induction false} HexReads(bytes: Bytes, i: nat)
    requires i < |bytes|
    ensures 16 * DigitOf(Hex(bytes)[2 * i]) + DigitOf(Hex(bytes)[2 * i + 1]) == bytes[i]
    ensures 0 <= DigitOf(Hex(bytes)[2 * i]) < 16 && 0 <= DigitOf(Hex(bytes)[2 * i + 1]) < 16
  {
    if i > 0 {
      HexReads(bytes[1..], i - 1);
    } else {
      DigitReads(bytes[0] / 16);
      DigitReads(bytes[0] % 16);
    }
  }

  lemma DigitReads(n: nat)
    requires n < 16
    ensures DigitOf(HexDigit(n)) == n
  {
  }

  /** An id is written in groups of 8, 4, 4, 4 and 12 digits with hyphens between them. */
  lemma UuidGroups(a: UuidBytes)
    ensures var s := FormatUuid(a); |s| == 36 && s[8] == s[13] == s[18] == s[23] == '-'
  {
    HexOfUuid(a);
  }

  // ---------------------------------------------------------------- the numbers, as they are rounded

  lemma {:induction false} UnitScale(n: nat)
    requires n >= 0x20_0000_0000_0000
    ensures 0x10_0000_0000_0000 * Unit(n) <= n < 0x20_0000_0000_0000 * Unit(n) && Unit(n) % 2 == 0
  {
    if n / 2 >= 0x20_0000_0000_0000 {
      UnitScale(n / 2);
    }
  }

  lemma RoundsEitherWay(n: nat, unit: nat) returns (q: nat, rest: nat)
    requires unit > 0
    ensures n == q * unit + rest && rest < unit
    ensures RoundTo(n, unit) == if 2 * rest < unit || (2 * rest == unit && q % 2 == 0) then q * unit else (q + 1) * unit
  {
    q, rest := n / unit, n % unit;
    assert n == n / unit * unit + n % unit;
  }

  /** A number is rounded to a nearest multiple of the spacing around it, and between two such to the even one. */
  lemma {:induction false} RoundsToNearest(n: nat)
    ensures var d := if ToNumber(n) >= n then ToNumber(n) - n else n - ToNumber(n);
            && ToNumber(n) % Unit(n) == 0 && 2 * d <= Unit(n)
            && (2 * d == Unit(n) ==> ToNumber(n) / Unit(n) % 2 == 0)
  {
    if n >= 0x20_0000_0000_0000 {
      var q, rest := RoundsEitherWay(n, Unit(n));
      MultipleOf(q, Unit(n));
      MultipleOf(q + 1, Unit(n));
    }
  }

  lemma MultipleOf(q: nat, unit: nat)
    requires unit > 0
    ensures q * unit % unit == 0 && q * unit / unit == q
  {
    QuotientIs(q * unit, unit, q, 0);
    assert q * unit == q * unit / unit * unit + q * unit % unit;
  }
}
