/** The registry packer: CSV rows to a sorted binary index over length-prefixed names. */
module OuiPack {
  import opened Common
  import Csv
  import opened Text
  import opened Utf8

  const PREFIXES := 0x100_0000
  const U32 := 0x1_0000_0000

  /** An accepted row; the key is the 24-bit prefix read big-endian. */
  datatype Row = Row(key: nat, name: string)

  // ----------------------------------------------------------------------- parsing

  function HexDigit(b: byte): Option<nat> {
    if 0x30 <= b <= 0x39 then Some(b - 0x30)
    else if 0x41 <= b <= 0x46 then Some(b - 0x41 + 10)
    else if 0x61 <= b <= 0x66 then Some(b - 0x61 + 10)
    else None
  }

  /** Two bytes read in base 16; a leading plus sign is a sign, not an error. */
  function HexPair(hi: byte, lo: byte): (r: Option<byte>) {
    var l := HexDigit(lo);
    if l.None? then None
    else if hi == 0x2B then Some(l.value)
    else if HexDigit(hi).None? then None else Some(HexDigit(hi).value * 16 + l.value)
  }

  function Assignment(s: string): (r: Option<nat>)
    ensures r.Some? ==> r.value < PREFIXES
  {
    var b := Encode(Trim(s));
    if |b| < 6 then None
    else
      var x, y, z := HexPair(b[0], b[1]), HexPair(b[2], b[3]), HexPair(b[4], b[5]);
      if x.None? || y.None? || z.None? then None else Some(x.value * 65536 + y.value * 256 + z.value)
  }

  method ParseAssignment(s: string) returns (r: Option<nat>)
    ensures r == Assignment(s)
  {
    var trimmed := Encode(Trim(s));
    if |trimmed| < 6 { return None; }
    var bytes: seq<byte> := [];
    var i := 0;
    while i < 3
      invariant 0 <= i <= 3 && |bytes| == i
      invariant forall k :: 0 <= k < i ==> HexPair(trimmed[k * 2], trimmed[k * 2 + 1]) == Some(bytes[k])
    {
      var pair := HexPair(trimmed[i * 2], trimmed[i * 2 + 1]);
      if pair.None? { return None; }
      bytes := bytes + [pair.value];
      i := i + 1;
    }
    assert HexPair(trimmed[0 * 2], trimmed[0 * 2 + 1]) == Some(bytes[0]);
    assert HexPair(trimmed[1 * 2], trimmed[1 * 2 + 1]) == Some(bytes[1]);
    assert HexPair(trimmed[2 * 2], trimmed[2 * 2 + 1]) == Some(bytes[2]);
    var x: nat, y: nat, z: nat := bytes[0], bytes[1], bytes[2];
    return Some(x * 65536 + y * 256 + z);
  }

  const HEADER := "Registry,"

  /** What the line at `index` contributes. */
  function Accept(line: string, index: nat): (r: Option<Row>)
    ensures r.Some? ==> r.value.key < PREFIXES && r.value.name != ""
  {
    if (index == 0 && HEADER <= line) || Trim(line) == "" then None
    else
      var fields := Csv.SplitFrom(line, "", false);
      if |fields| < 3 || fields[0] != "MA-L" then None
      else
        var key, name := Assignment(fields[1]), Trim(fields[2]);
        if key.None? || name == "" then None else Some(Row(key.value, name))
  }

  /** The accepted rows of the first `n` lines, in order. */
  function Accepted(lines: seq<string>, n: nat): (rows: seq<Row>)
    requires n <= |lines|
    ensures forall i :: 0 <= i < |rows| ==> rows[i].key < PREFIXES
  {
    if n == 0 then []
    else
      var r := Accept(lines[n - 1], n - 1);
      Accepted(lines, n - 1) + if r.Some? then [r.value] else []
  }

  function Rows(csv: string): seq<Row> { Accepted(Lines(csv), |Lines(csv)|) }

  method ParseCsv(input: string) returns (out: seq<Row>)
    ensures out == Rows(input)
  {
    out := [];
    var lines := Lines(input);
    var i := 0;
    while i < |lines|
      invariant 0 <= i <= |lines| && out == Accepted(lines, i)
    {
      var line := lines[i];
      i := i + 1;
      if i == 1 && HEADER <= line { continue; }
      if Trim(line) == "" { continue; }
      var fields := Csv.SplitCsv(line);
      if |fields| < 3 { continue; }
      if fields[0] != "MA-L" { continue; }
      var prefix := ParseAssignment(fields[1]);
      if prefix.None? { continue; }
      var name := Trim(fields[2]);
      if name == "" { continue; }
      out := out + [Row(prefix.value, name)];
    }
  }

  // --------------------------------------------------------------- sort and dedup

  predicate Ascending(s: seq<Row>) { forall i, j :: 0 <= i < j < |s| ==> s[i].key <= s[j].key }
  predicate StrictlyAscending(s: seq<Row>) { forall i, j :: 0 <= i < j < |s| ==> s[i].key < s[j].key }

  function InsertStable(r: Row, s: seq<Row>): seq<Row> {
    if s == [] || r.key <= s[0].key then [r] + s else [s[0]] + InsertStable(r, s[1..])
  }

  /** The stable sort by key. */
  function SortByKey(s: seq<Row>): seq<Row> {
    if s == [] then [] else InsertStable(s[0], SortByKey(s[1..]))
  }

  /** Of neighbours with equal keys the first stays. */
  function DedupByKey(s: seq<Row>): seq<Row>
    decreases |s|
  {
    if |s| < 2 then s
    else if s[0].key == s[1].key then DedupByKey([s[0]] + s[2..])
    else [s[0]] + DedupByKey(s[1..])
  }

  /** The name of the first row with this key. */
  function First(s: seq<Row>, key: nat): Option<string> {
    if s == [] then None else if s[0].key == key then Some(s[0].name) else First(s[1..], key)
  }

  predicate Below(s: seq<Row>, bound: nat) { forall i :: 0 <= i < |s| ==> s[i].key < bound }

  lemma {:induction false} InsertedRows(r: Row, s: seq<Row>, i: nat)
    requires i < |InsertStable(r, s)|
    ensures InsertStable(r, s)[i] == r || InsertStable(r, s)[i] in s
  {
    if s != [] && r.key > s[0].key && i > 0 { InsertedRows(r, s[1..], i - 1); }
  }

  lemma {:induction false} InsertKeepsOrder(r: Row, s: seq<Row>)
    requires Ascending(s)
    ensures Ascending(InsertStable(r, s))
  {
    if s != [] && r.key > s[0].key {
      var rest := InsertStable(r, s[1..]);
      InsertKeepsOrder(r, s[1..]);
      forall k | 0 <= k < |rest| ensures s[0].key <= rest[k].key { InsertedRows(r, s[1..], k); }
    }
  }

  lemma {:induction false} InsertKeepsFirst(r: Row, s: seq<Row>, key: nat)
    ensures First(InsertStable(r, s), key) == if r.key == key then Some(r.name) else First(s, key)
  {
    if s == [] || r.key <= s[0].key {
      assert ([r] + s)[1..] == s;
    } else {
      InsertKeepsFirst(r, s[1..], key);
      assert InsertStable(r, s)[1..] == InsertStable(r, s[1..]);
    }
  }

  lemma InsertKeepsBelow(r: Row, s: seq<Row>, bound: nat)
    requires Below(s, bound) && r.key < bound
    ensures Below(InsertStable(r, s), bound)
  {
    forall i | 0 <= i < |InsertStable(r, s)| ensures InsertStable(r, s)[i].key < bound { InsertedRows(r, s, i); }
  }

  lemma {:induction false} SortKeeps(s: seq<Row>, key: nat, bound: nat)
    ensures Ascending(SortByKey(s)) && First(SortByKey(s), key) == First(s, key)
    ensures Below(s, bound) ==> Below(SortByKey(s), bound)
  {
    if s != [] {
      SortKeeps(s[1..], key, bound);
      InsertKeepsOrder(s[0], SortByKey(s[1..]));
      InsertKeepsFirst(s[0], SortByKey(s[1..]), key);
      if Below(s, bound) { InsertKeepsBelow(s[0], SortByKey(s[1..]), bound); }
    }
  }

  lemma {:induction false} DedupKeeps(s: seq<Row>, key: nat, bound: nat)
    requires Ascending(s)
    ensures StrictlyAscending(DedupByKey(s)) && First(DedupByKey(s), key) == First(s, key)
    ensures Below(s, bound) ==> Below(DedupByKey(s), bound)
    ensures s != [] ==> DedupByKey(s) != [] && DedupByKey(s)[0] == s[0]
    decreases |s|
  {
    if |s| >= 2 {
      if s[0].key == s[1].key {
        var t := [s[0]] + s[2..];
        DedupKeeps(t, key, bound);
        assert t[1..] == s[2..] && s[1..][1..] == s[2..];
      } else {
        DedupKeeps(s[1..], key, bound);
        var rest := DedupByKey(s[1..]);
        assert ([s[0]] + rest)[1..] == rest;
      }
    }
  }

  function Table(csv: string): seq<Row> { DedupByKey(SortByKey(Rows(csv))) }

  /** The table is strictly sorted and keeps, for each key, the first accepted row. */
  lemma TableIsFirstRows(csv: string, key: nat)
    ensures StrictlyAscending(Table(csv))
    ensures Below(Table(csv), PREFIXES)
    ensures First(Table(csv), key) == First(Rows(csv), key)
  {
    SortKeeps(Rows(csv), key, PREFIXES);
    DedupKeeps(SortByKey(Rows(csv)), key, PREFIXES);
  }
}
