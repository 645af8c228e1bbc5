/** The packed files and the reader that searches them. */
module OuiIndex {
  import opened Common
  import opened Utf8
  import opened OuiPack

  const MAGIC: seq<byte> := [0x4F, 0x55, 0x49, 0x31]
  const HEADER_SIZE := 8
  const RECORD_SIZE := 7

  // ----------------------------------------------------------------- byte encodings

  /** `as u32`. */
  function Cast32(n: nat): (u: nat)
    ensures u < U32 && (n < U32 ==> u == n)
  {
    n % U32
  }

  /** The four bytes of a 32-bit number, lowest first. */
  function LittleEndian(u: nat): (b: seq<byte>)
    requires u < U32
    ensures |b| == 4
  {
    [u % 256, u / 256 % 256, u / 256 / 256 % 256, u / 256 / 256 / 256]
  }

  function FromLittleEndian(b: seq<byte>): nat
    requires |b| == 4
  {
    var w: nat, x: nat, y: nat, z: nat := b[0], b[1], b[2], b[3];
    w + 256 * (x + 256 * (y + 256 * z))
  }

  lemma LowByte(n: nat)
    ensures n == n % 256 + 256 * (n / 256)
  {
  }

  lemma LittleEndianRoundTrip(n: nat)
    requires n < U32
    ensures FromLittleEndian(LittleEndian(n)) == n
  {
    LowByte(n);
    LowByte(n / 256);
    LowByte(n / 256 / 256);
  }

  function PrefixBytes(key: nat): (b: seq<byte>)
    ensures |b| == 3
  {
    [key / 65536 % 256, key / 256 % 256, key % 256]
  }

  function PrefixValue(b: seq<byte>): nat
    requires |b| == 3
  {
    var x: nat, y: nat, z: nat := b[0], b[1], b[2];
    x * 65536 + y * 256 + z
  }

  lemma PrefixRoundTrip(key: nat)
    requires key < PREFIXES
    ensures PrefixValue(PrefixBytes(key)) == key
  {
    assert key / 65536 == key / 256 / 256;
  }

  /** Byte-array comparison. */
  predicate LexLess(a: seq<byte>, b: seq<byte>)
    requires |a| == 3 && |b| == 3
  {
    a[0] < b[0] || (a[0] == b[0] && (a[1] < b[1] || (a[1] == b[1] && a[2] < b[2])))
  }

  /** Comparing the bytes compares the numbers. */
  lemma LexIsNumeric(a: seq<byte>, b: seq<byte>)
    requires |a| == 3 && |b| == 3
    ensures LexLess(a, b) <==> PrefixValue(a) < PrefixValue(b)
    ensures a == b <==> PrefixValue(a) == PrefixValue(b)
  {
    if PrefixValue(a) == PrefixValue(b) { assert a == [a[0], a[1], a[2]] && b == [b[0], b[1], b[2]]; }
  }

  // --------------------------------------------------------------------- packing

  function ClampedName(name: string): (b: seq<byte>) { Encode(name[..Fitting(name, MAX_NAME)]) }

  /** `as u8` length, then the bytes. */
  function Entry(name: string): seq<byte> { [|ClampedName(name)| % 256] + ClampedName(name) }

  /** The first `n` parts, end to end. */
  function Concat(parts: seq<seq<byte>>, n: nat): seq<byte>
    requires n <= |parts|
  {
    if n == 0 then [] else Concat(parts, n - 1) + parts[n - 1]
  }

  function Entries(rows: seq<Row>): seq<seq<byte>> { seq(|rows|, i requires 0 <= i < |rows| => Entry(rows[i].name)) }

  function Offset(rows: seq<Row>, i: nat): nat
    requires i <= |rows|
  {
    |Concat(Entries(rows), i)|
  }

  function PackedRecord(rows: seq<Row>, i: nat): (b: seq<byte>)
    requires i < |rows|
    ensures |b| == RECORD_SIZE
  {
    PrefixBytes(rows[i].key) + LittleEndian(Cast32(Offset(rows, i)))
  }

  function Records(rows: seq<Row>): seq<seq<byte>> { seq(|rows|, i requires 0 <= i < |rows| => PackedRecord(rows, i)) }

  function Header(rows: seq<Row>): (b: seq<byte>)
    ensures |b| == HEADER_SIZE
  {
    MAGIC + LittleEndian(Cast32(|rows|))
  }

  function Bin(rows: seq<Row>): seq<byte> { Header(rows) + Concat(Records(rows), |rows|) }
  function Strings(rows: seq<Row>): seq<byte> { Concat(Entries(rows), |rows|) }

  function Offsets(rows: seq<Row>, n: nat): (r: seq<nat>)
    requires n <= |rows|
    ensures |r| == n && forall k :: 0 <= k < n ==> r[k] == Cast32(Offset(rows, k))
  {
    if n == 0 then [] else Offsets(rows, n - 1) + [Cast32(Offset(rows, n - 1))]
  }

  method PackStrings(rows: seq<Row>) returns (strings: seq<byte>, offsets: seq<nat>)
    ensures strings == Strings(rows) && offsets == Offsets(rows, |rows|)
  {
    strings, offsets := [], [];
    var i := 0;
    while i < |rows|
      invariant 0 <= i <= |rows| && strings == Concat(Entries(rows), i) && offsets == Offsets(rows, i)
    {
      var bytes := ClampName(rows[i].name);
      offsets := offsets + [Cast32(|strings|)];
      strings := strings + ([|bytes| % 256] + bytes);
      assert Entries(rows)[i] == [|bytes| % 256] + bytes;
      i := i + 1;
    }
  }

  method PackIndex(rows: seq<Row>, offsets: seq<nat>) returns (bin: seq<byte>)
    requires offsets == Offsets(rows, |rows|)
    ensures bin == Bin(rows)
  {
    bin := MAGIC + LittleEndian(Cast32(|rows|));
    var i := 0;
    while i < |rows|
      invariant 0 <= i <= |rows| && bin == Header(rows) + Concat(Records(rows), i)
    {
      RecordNext(rows, i);
      bin := bin + (PrefixBytes(rows[i].key) + LittleEndian(offsets[i]));
      i := i + 1;
    }
  }

  lemma RecordNext(rows: seq<Row>, i: nat)
    requires i < |rows|
    ensures Header(rows) + Concat(Records(rows), i) + (PrefixBytes(rows[i].key) + LittleEndian(Cast32(Offset(rows, i))))
      == Header(rows) + Concat(Records(rows), i + 1)
  {
    assert Records(rows)[i] == PackedRecord(rows, i);
    Append(Header(rows), Concat(Records(rows), i), PackedRecord(rows, i));
  }

  lemma Append(a: seq<byte>, b: seq<byte>, c: seq<byte>)
    ensures a + b + c == a + (b + c)
  {
  }

  method Pack(rows: seq<Row>) returns (bin: seq<byte>, strings: seq<byte>)
    ensures bin == Bin(rows) && strings == Strings(rows)
  {
    var offsets;
    strings, offsets := PackStrings(rows);
    bin := PackIndex(rows, offsets);
  }

  // ------------------------------------------------------------ nothing is truncated

  lemma {:induction false} KeysGrow(rows: seq<Row>, i: nat)
    requires StrictlyAscending(rows) && i < |rows|
    ensures rows[i].key >= i
  {
    if i > 0 { KeysGrow(rows, i - 1); }
  }

  lemma EntryIsSmall(name: string)
    ensures |ClampedName(name)| <= MAX_NAME && Entry(name)[0] == |ClampedName(name)| && 1 <= |Entry(name)| <= 256
  {
    FittingIsLongest(name, MAX_NAME, Fitting(name, MAX_NAME));
  }

  lemma {:induction false} OffsetIsBounded(rows: seq<Row>, i: nat)
    requires i <= |rows|
    ensures Offset(rows, i) <= 256 * i
  {
    if i > 0 {
      OffsetIsBounded(rows, i - 1);
      EntryIsSmall(rows[i - 1].name);
      assert Entries(rows)[i - 1] == Entry(rows[i - 1].name);
    }
  }

  /** At most 2^24 rows, so the count and every offset fit in 32 bits and every length in 8. */
  lemma NoCastTruncates(rows: seq<Row>)
    requires StrictlyAscending(rows) && Below(rows, PREFIXES)
    ensures |rows| <= PREFIXES && |rows| < U32
    ensures forall i :: 0 <= i < |rows| ==> Offset(rows, i) < U32
    ensures forall i :: 0 <= i < |rows| ==> |ClampedName(rows[i].name)| < 256
  {
    if rows != [] { KeysGrow(rows, |rows| - 1); }
    forall i | 0 <= i < |rows| ensures Offset(rows, i) < U32 && |ClampedName(rows[i].name)| < 256 {
      OffsetIsBounded(rows, i);
      EntryIsSmall(rows[i].name);
    }
  }

  // ------------------------------------------------------------------- the reader

  predicate Shaped(bin: seq<byte>, count: nat) { |bin| == HEADER_SIZE + RECORD_SIZE * count }

  function RecordAt(bin: seq<byte>, count: nat, i: nat): (r: seq<byte>)
    requires Shaped(bin, count) && i < count
    ensures |r| == RECORD_SIZE
  {
    bin[HEADER_SIZE + RECORD_SIZE * i..HEADER_SIZE + RECORD_SIZE * i + RECORD_SIZE]
  }

  function KeyAt(bin: seq<byte>, count: nat, i: nat): seq<byte>
    requires Shaped(bin, count) && i < count
  {
    RecordAt(bin, count, i)[..3]
  }

  function OffsetAt(bin: seq<byte>, count: nat, i: nat): nat
    requires Shaped(bin, count) && i < count
  {
    FromLittleEndian(RecordAt(bin, count, i)[3..])
  }

  predicate SortedIndex(bin: seq<byte>, count: nat)
    requires Shaped(bin, count)
  {
    forall i, j :: 0 <= i < j < count ==> PrefixValue(KeyAt(bin, count, i)) < PrefixValue(KeyAt(bin, count, j))
  }

  /** The linear scan the binary search stands for. */
  function Scan(bin: seq<byte>, count: nat, prefix: seq<byte>, i: nat): Option<nat>
    requires Shaped(bin, count) && i <= count
    decreases count - i
  {
    if i == count then None
    else if KeyAt(bin, count, i) == prefix then Some(OffsetAt(bin, count, i)) else Scan(bin, count, prefix, i + 1)
  }

  lemma {:induction false} ScanFinds(bin: seq<byte>, count: nat, prefix: seq<byte>, i: nat, k: nat)
    requires Shaped(bin, count) && SortedIndex(bin, count) && i <= k < count && KeyAt(bin, count, k) == prefix
    ensures Scan(bin, count, prefix, i) == Some(OffsetAt(bin, count, k))
    decreases count - i
  {
    if i < k {
      assert PrefixValue(KeyAt(bin, count, i)) < PrefixValue(KeyAt(bin, count, k));
      ScanFinds(bin, count, prefix, i + 1, k);
    }
  }

  lemma {:induction false} ScanMisses(bin: seq<byte>, count: nat, prefix: seq<byte>, i: nat)
    requires Shaped(bin, count) && i <= count && forall k :: i <= k < count ==> KeyAt(bin, count, k) != prefix
    ensures Scan(bin, count, prefix, i) == None
    decreases count - i
  {
    if i < count { ScanMisses(bin, count, prefix, i + 1); }
  }

  /** `open`: the header checks, giving the record count. */
  method Open(bin: seq<byte>) returns (count: Option<nat>)
    ensures count.Some? <==> |bin| >= HEADER_SIZE && bin[..4] == MAGIC && Shaped(bin, FromLittleEndian(bin[4..8]))
    ensures count.Some? ==> count.value == FromLittleEndian(bin[4..8]) && Shaped(bin, count.value)
  {
    if |bin| < HEADER_SIZE || bin[..4] != MAGIC { return None; }
    var n := FromLittleEndian(bin[4..8]);
    if n * RECORD_SIZE + HEADER_SIZE != |bin| { return None; }
    return Some(n);
  }

  /** The binary search: what it finds is in the file, and over a sorted file it agrees with the scan. */
  method FindOffset(bin: seq<byte>, count: nat, prefix: seq<byte>) returns (r: Option<nat>)
    requires Shaped(bin, count) && |prefix| == 3
    ensures r.Some? ==>
      exists i :: 0 <= i < count && KeyAt(bin, count, i) == prefix && OffsetAt(bin, count, i) == r.value
    ensures SortedIndex(bin, count) ==> r == Scan(bin, count, prefix, 0)
  {
    var lo, hi := 0, count;
    while lo < hi
      invariant 0 <= lo <= hi <= count
      invariant SortedIndex(bin, count) ==>
        forall k :: 0 <= k < lo ==> PrefixValue(KeyAt(bin, count, k)) < PrefixValue(prefix)
      invariant SortedIndex(bin, count) ==>
        forall k :: hi <= k < count ==> PrefixValue(prefix) < PrefixValue(KeyAt(bin, count, k))
    {
      var mid := (lo + hi) / 2;
      var record := RecordAt(bin, count, mid);
      LexIsNumeric(record[..3], prefix);
      assert KeyAt(bin, count, mid) == record[..3];
      if LexLess(record[..3], prefix) {
        lo := mid + 1;
      } else if record[..3] == prefix {
        if SortedIndex(bin, count) { ScanFinds(bin, count, prefix, 0, mid); }
        assert record[3..7] == record[3..];
        return Some(FromLittleEndian(record[3..7]));
      } else {
        assert PrefixValue(prefix) < PrefixValue(KeyAt(bin, count, mid));
        hi := mid;
      }
    }
    if SortedIndex(bin, count) { ScanMisses(bin, count, prefix, 0); }
    return None;
  }

  function TextIn(b: seq<byte>): Option<seq<byte>> { if WellFormed(b) then Some(b) else None }

  function SliceAt(blob: seq<byte>, offset: nat): Option<seq<byte>> {
    if offset >= |blob| || offset + 1 + blob[offset] > |blob| then None
    else Some(blob[offset + 1..offset + 1 + blob[offset]])
  }

  /** `read_string`. */
  function StringAt(blob: seq<byte>, offset: nat): Option<seq<byte>> {
    var slice := SliceAt(blob, offset);
    if slice.None? then None else TextIn(slice.value)
  }

  method Lookup(bin: seq<byte>, strings: seq<byte>, count: nat, prefix: seq<byte>) returns (r: Option<seq<byte>>)
    requires Shaped(bin, count) && |prefix| == 3
    ensures SortedIndex(bin, count) ==> r == Scanned(bin, strings, count, prefix)
  {
    var offset := FindOffset(bin, count, prefix);
    if offset.None? { return None; }
    return StringAt(strings, offset.value);
  }

  // ---------------------------------------------------------- packing then reading

  lemma SliceOfPrefix(a: seq<byte>, b: seq<byte>, lo: nat, hi: nat)
    requires lo <= hi <= |a|
    ensures (a + b)[lo..hi] == a[lo..hi]
  {
  }

  lemma SliceOfSuffix(a: seq<byte>, b: seq<byte>)
    ensures (a + b)[|a|..|a| + |b|] == b
  {
  }

  /** Each part is found at the length of the parts before it. */
  lemma {:induction false} ConcatHolds(parts: seq<seq<byte>>, n: nat, i: nat)
    requires i < n <= |parts|
    ensures var o := |Concat(parts, i)|;
      o + |parts[i]| <= |Concat(parts, n)| && Concat(parts, n)[o..o + |parts[i]|] == parts[i]
  {
    var before, last := Concat(parts, n - 1), parts[n - 1];
    if i == n - 1 {
      SliceOfSuffix(before, last);
    } else {
      ConcatHolds(parts, n - 1, i);
      SliceOfPrefix(before, last, |Concat(parts, i)|, |Concat(parts, i)| + |parts[i]|);
    }
  }

  lemma {:induction false} ConcatLength(parts: seq<seq<byte>>, n: nat, size: nat)
    requires n <= |parts| && forall i :: 0 <= i < |parts| ==> |parts[i]| == size
    ensures |Concat(parts, n)| == size * n
  {
    if n > 0 { ConcatLength(parts, n - 1, size); }
  }

  lemma PackedIsShaped(rows: seq<Row>)
    requires StrictlyAscending(rows) && Below(rows, PREFIXES)
    ensures Shaped(Bin(rows), |rows|) && Bin(rows)[..4] == MAGIC && FromLittleEndian(Bin(rows)[4..8]) == |rows|
  {
    NoCastTruncates(rows);
    ConcatLength(Records(rows), |rows|, RECORD_SIZE);
    LittleEndianRoundTrip(|rows|);
    assert Bin(rows)[4..8] == LittleEndian(|rows|);
  }

  lemma SliceAfter(a: seq<byte>, b: seq<byte>, lo: nat, hi: nat)
    requires lo <= hi <= |b|
    ensures (a + b)[|a| + lo..|a| + hi] == b[lo..hi]
  {
  }

  lemma PackedRecordAt(rows: seq<Row>, i: nat)
    requires i < |rows| && Shaped(Bin(rows), |rows|)
    ensures RecordAt(Bin(rows), |rows|, i) == PackedRecord(rows, i)
  {
    var parts := Records(rows);
    ConcatHolds(parts, |rows|, i);
    ConcatLength(parts, i, RECORD_SIZE);
    SliceAfter(Header(rows), Concat(parts, |rows|), RECORD_SIZE * i, RECORD_SIZE * i + RECORD_SIZE);
  }

  lemma PackedRecordReadsBack(rows: seq<Row>, i: nat)
    requires StrictlyAscending(rows) && Below(rows, PREFIXES) && i < |rows| && Shaped(Bin(rows), |rows|)
    ensures KeyAt(Bin(rows), |rows|, i) == PrefixBytes(rows[i].key)
    ensures PrefixValue(KeyAt(Bin(rows), |rows|, i)) == rows[i].key
    ensures OffsetAt(Bin(rows), |rows|, i) == Offset(rows, i)
  {
    NoCastTruncates(rows);
    PackedRecordAt(rows, i);
    SplitRecord(PrefixBytes(rows[i].key), LittleEndian(Cast32(Offset(rows, i))));
    PrefixRoundTrip(rows[i].key);
    LittleEndianRoundTrip(Offset(rows, i));
  }

  lemma SplitRecord(a: seq<byte>, b: seq<byte>)
    requires |a| == 3
    ensures (a + b)[..3] == a && (a + b)[3..] == b
  {
  }

  lemma PackedIsSorted(rows: seq<Row>)
    requires StrictlyAscending(rows) && Below(rows, PREFIXES) && Shaped(Bin(rows), |rows|)
    ensures SortedIndex(Bin(rows), |rows|)
  {
    forall i, j | 0 <= i < j < |rows|
      ensures PrefixValue(KeyAt(Bin(rows), |rows|, i)) < PrefixValue(KeyAt(Bin(rows), |rows|, j))
    {
      PackedRecordReadsBack(rows, i);
      PackedRecordReadsBack(rows, j);
    }
  }

  lemma HeadAndTail(blob: seq<byte>, o: nat, head: byte, text: seq<byte>)
    requires o + 1 + |text| <= |blob| && blob[o..o + 1 + |text|] == [head] + text
    ensures blob[o] == head && blob[o + 1..o + 1 + |text|] == text
  {
    var slice := blob[o..o + 1 + |text|];
    assert blob[o] == slice[0] && slice[1..] == text;
    assert blob[o + 1..o + 1 + |text|] == slice[1..];
  }

  lemma SliceHolds(blob: seq<byte>, o: nat, text: seq<byte>)
    requires |text| < 256 && o + 1 + |text| <= |blob| && blob[o..o + 1 + |text|] == [|text|] + text
    ensures SliceAt(blob, o) == Some(text)
  {
    HeadAndTail(blob, o, |text|, text);
  }

  lemma PackedSlice(rows: seq<Row>, i: nat)
    requires i < |rows|
    ensures SliceAt(Strings(rows), Offset(rows, i)) == Some(ClampedName(rows[i].name))
  {
    ConcatHolds(Entries(rows), |rows|, i);
    assert Entries(rows)[i] == Entry(rows[i].name);
    EntryIsSmall(rows[i].name);
    SliceHolds(Strings(rows), Offset(rows, i), ClampedName(rows[i].name));
  }

  lemma PackedNameReadsBack(rows: seq<Row>, i: nat)
    requires i < |rows|
    ensures StringAt(Strings(rows), Offset(rows, i)) == Some(ClampedName(rows[i].name))
  {
    PackedSlice(rows, i);
    EncodedIsWellFormed(rows[i].name[..Fitting(rows[i].name, MAX_NAME)]);
  }

  lemma {:induction false} FirstAt(rows: seq<Row>, key: nat, i: nat)
    requires StrictlyAscending(rows) && i < |rows| && rows[i].key == key
    ensures First(rows, key) == Some(rows[i].name)
  {
    if i > 0 {
      assert rows[0].key < rows[i].key;
      FirstAt(rows[1..], key, i - 1);
    }
  }

  lemma {:induction false} FirstMissing(rows: seq<Row>, key: nat)
    requires forall i :: 0 <= i < |rows| ==> rows[i].key != key
    ensures First(rows, key) == None
  {
    if rows != [] { FirstMissing(rows[1..], key); }
  }

  function Found(rows: seq<Row>, key: nat): Option<seq<byte>> {
    var name := First(rows, key);
    if name.None? then None else Some(ClampedName(name.value))
  }

  function Scanned(bin: seq<byte>, strings: seq<byte>, count: nat, prefix: seq<byte>): Option<seq<byte>>
    requires Shaped(bin, count)
  {
    var o := Scan(bin, count, prefix, 0);
    if o.None? then None else StringAt(strings, o.value)
  }

  lemma PackedScanHits(rows: seq<Row>, i: nat)
    requires StrictlyAscending(rows) && Below(rows, PREFIXES) && i < |rows| && Shaped(Bin(rows), |rows|)
    ensures Scanned(Bin(rows), Strings(rows), |rows|, PrefixBytes(rows[i].key)) == Some(ClampedName(rows[i].name))
  {
    PackedIsSorted(rows);
    PackedRecordReadsBack(rows, i);
    ScanFinds(Bin(rows), |rows|, PrefixBytes(rows[i].key), 0, i);
    PackedNameReadsBack(rows, i);
  }

  lemma PackedScanMisses(rows: seq<Row>, key: nat)
    requires StrictlyAscending(rows) && Below(rows, PREFIXES) && key < PREFIXES && Shaped(Bin(rows), |rows|)
    requires forall i :: 0 <= i < |rows| ==> rows[i].key != key
    ensures Scanned(Bin(rows), Strings(rows), |rows|, PrefixBytes(key)) == None
  {
    PrefixRoundTrip(key);
    forall k | 0 <= k < |rows| ensures KeyAt(Bin(rows), |rows|, k) != PrefixBytes(key) {
      PackedRecordReadsBack(rows, k);
    }
    ScanMisses(Bin(rows), |rows|, PrefixBytes(key), 0);
  }

  /** Scanning a packed file is looking up the rows. */
  lemma PackedScan(rows: seq<Row>, key: nat)
    requires StrictlyAscending(rows) && Below(rows, PREFIXES) && key < PREFIXES && Shaped(Bin(rows), |rows|)
    ensures Scanned(Bin(rows), Strings(rows), |rows|, PrefixBytes(key)) == Found(rows, key)
  {
    if i :| 0 <= i < |rows| && rows[i].key == key {
      FirstAt(rows, key, i);
      PackedScanHits(rows, i);
    } else {
      FirstMissing(rows, key);
      PackedScanMisses(rows, key);
    }
  }

  /**
   The packer's `main` followed by a lookup: for every text and every prefix the
   answer is the first accepted row's name, cut to whole characters within 255
   bytes. Nothing is written when no row is accepted.
   */
  method PackThenLookup(csv: string, key: nat) returns (written: bool, r: Option<seq<byte>>)
    requires key < PREFIXES
    ensures written <==> Rows(csv) != []
    ensures written ==> r == Found(Rows(csv), key)
  {
    var records := ParseCsv(csv);
    records := DedupByKey(SortByKey(records));
    TableIsFirstRows(csv, key);
    TableIsEmptyExactly(csv);
    if records == [] { return false, None; }
    var bin, strings := Pack(records);
    PackedIsShaped(records);
    PackedIsSorted(records);
    PackedScan(records, key);
    var count := Open(bin);
    r := Lookup(bin, strings, count.value, PrefixBytes(key));
    return true, r;
  }

  lemma TableIsEmptyExactly(csv: string)
    ensures Table(csv) == [] <==> Rows(csv) == []
  {
    var rows := Rows(csv);
    if rows != [] {
      TableIsFirstRows(csv, rows[0].key);
      assert First(rows, rows[0].key).Some?;
    }
  }
}
