/** What text stands for which prefix, and which rows the packer takes. */
module OuiRows {
  import opened Common
  import Csv
  import opened Text
  import opened Utf8
  import opened OuiPack

  // ------------------------------------------------------------------------ prefixes

  /** A digit below sixteen as a character, with upper- or lower-case letters. */
  function HexChar(n: nat, upper: bool): (c: char)
    requires n < 16
    ensures (c as int) < 0x80
  {
    if n < 10 then (0x30 + n) as char else if upper then (0x41 + n - 10) as char else (0x61 + n - 10) as char
  }

  lemma DigitReads(n: nat, upper: bool)
    requires n < 16
    ensures var c := HexChar(n, upper) as int; HexDigit(c) == Some(n)
  {
  }

  lemma {:induction false} EncodeAscii(s: string, k: nat)
    requires k <= |s| && forall i :: 0 <= i < k ==> (s[i] as int) < 0x80
    ensures k <= |Encode(s)| && forall i :: 0 <= i < k ==> Encode(s)[i] == s[i] as int
  {
    if k > 0 {
      EncodeAscii(s[1..], k - 1);
      assert EncodeChar(s[0]) == [s[0] as int];
      forall i | 0 < i < k ensures Encode(s)[i] == s[i] as int { assert Encode(s)[i] == Encode(s[1..])[i - 1]; }
    }
  }

  /** The six digits of a prefix, each in either case. */
  function HexText(key: nat, upper: seq<bool>): string
    requires key < 0x100_0000 && |upper| == 6
  {
    [HexChar(key / 0x10_0000, upper[0]), HexChar(key / 0x1_0000 % 16, upper[1]),
     HexChar(key / 0x1000 % 16, upper[2]), HexChar(key / 0x100 % 16, upper[3]),
     HexChar(key / 0x10 % 16, upper[4]), HexChar(key % 16, upper[5])]
  }

  lemma DigitsOf(key: nat)
    requires key < 0x100_0000
    ensures key / 0x10_0000 * 0x10_0000 + key / 0x1_0000 % 16 * 0x1_0000 + key / 0x1000 % 16 * 0x1000
            + key / 0x100 % 16 * 0x100 + key / 0x10 % 16 * 0x10 + key % 16 == key
  {
    assert key / 0x1_0000 == key / 0x10_0000 * 16 + key / 0x1_0000 % 16;
    assert key / 0x1000 == key / 0x1_0000 * 16 + key / 0x1000 % 16;
    assert key / 0x100 == key / 0x1000 * 16 + key / 0x100 % 16;
    assert key / 0x10 == key / 0x100 * 16 + key / 0x10 % 16;
    assert key == key / 0x10 * 16 + key % 16;
  }

  lemma PairReads(hi: nat, lo: nat, up: bool, low: bool)
    requires hi < 16 && lo < 16
    ensures HexPair(HexChar(hi, up) as int, HexChar(lo, low) as int) == Some(hi * 16 + lo)
  {
    DigitReads(hi, up);
    DigitReads(lo, low);
    assert (HexChar(hi, up) as int) != 0x2B;
  }

  /** Six hexadecimal digits are read as the prefix they print, whatever follows or surrounds them in white space. */
  lemma PrefixReadsBack(s: string, key: nat, upper: seq<bool>, rest: string)
    requires key < 0x100_0000 && |upper| == 6 && Trim(s) == HexText(key, upper) + rest
    ensures Assignment(s) == Some(key)
  {
    var t := Trim(s);
    assert forall i :: 0 <= i < 6 ==> t[i] == HexText(key, upper)[i];
    EncodeAscii(t, 6);
    PairReads(key / 0x10_0000, key / 0x1_0000 % 16, upper[0], upper[1]);
    PairReads(key / 0x1000 % 16, key / 0x100 % 16, upper[2], upper[3]);
    PairReads(key / 0x10 % 16, key % 16, upper[4], upper[5]);
    DigitsOf(key);
  }

  predicate IsHexByte(b: byte) { 0x30 <= b <= 0x39 || 0x41 <= b <= 0x46 || 0x61 <= b <= 0x66 }

  /** An assignment is read exactly if six bytes are there, hexadecimal digits or, first in a pair, a plus sign. */
  lemma PrefixReadExactly(s: string)
    ensures Assignment(s).Some? <==>
      var b := Encode(Trim(s));
      && |b| >= 6
      && IsHexByte(b[1]) && IsHexByte(b[3]) && IsHexByte(b[5])
      && (IsHexByte(b[0]) || b[0] == 0x2B) && (IsHexByte(b[2]) || b[2] == 0x2B) && (IsHexByte(b[4]) || b[4] == 0x2B)
  {
  }

  // ---------------------------------------------------------------------------- rows

  lemma {:induction false} TextsAt(row: seq<Csv.Field>, i: nat)
    requires i < |row|
    ensures |Csv.Texts(row)| == |row| && Csv.Texts(row)[i] == row[i].text
  {
    if i > 0 { TextsAt(row[1..], i - 1); } else if |row| > 1 { TextsAt(row[1..], 0); }
  }

  lemma CommaIsNoSpace(s: string)
    requires ',' in s
    ensures Trim(s) != ""
  {
    var a, b := TrimMeans(s);
    var i :| 0 <= i < |s| && s[i] == ',';
    NonSpaceStaysOut(s, a, b, i);
  }

  lemma PrintHasComma(row: seq<Csv.Field>)
    requires |row| > 1
    ensures ',' in Csv.Print(row)
  {
    assert Csv.Print(row)[|Csv.PrintField(row[0])|] == ',';
  }

  /** The row a printed line stands for: a large-block assignment with a readable prefix and a name. */
  function Taken(row: seq<Csv.Field>): Option<Row> {
    if |row| < 3 || row[0].text != "MA-L" then None
    else
      var key, name := Assignment(row[1].text), Trim(row[2].text);
      if key.None? || name == "" then None else Some(Row(key.value, name))
  }

  /** Whatever the quoting, a printed row is taken for exactly what it stands for; only a header line is skipped. */
  lemma PrintedRowIsTaken(row: seq<Csv.Field>, index: nat)
    requires row != [] && forall i :: 0 <= i < |row| ==> Csv.Printable(row[i])
    requires index > 0 || !("Registry," <= Csv.Print(row))
    ensures Accept(Csv.Print(row), index) == Taken(row)
  {
    var line := Csv.Print(row);
    var fields := Csv.SplitFrom(line, "", false);
    Csv.SplitInvertsPrint(row);
    TextsAt(row, 0);
    assert |fields| == |row| && fields[0] == row[0].text;
    if |row| >= 3 {
      TextsAt(row, 1);
      TextsAt(row, 2);
      PrintHasComma(row);
      CommaIsNoSpace(line);
    }
  }

  lemma HeaderIsSkipped(line: string)
    requires "Registry," <= line
    ensures Accept(line, 0) == None
  {
  }
}
