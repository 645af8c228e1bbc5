/** The packer's row splitter against the field printing of section 2 of RFC 4180. */
module Csv {

  /** The splitter resumed with the field `current` open. */
  function SplitFrom(s: string, current: string, inQuotes: bool): (fields: seq<string>)
    ensures |fields| > 0
    decreases |s|
  {
    if s == "" then [current]
    else if s[0] == '"' then
      if !inQuotes then SplitFrom(s[1..], current, true)
      else if |s| > 1 && s[1] == '"' then SplitFrom(s[2..], current + "\"", true)
      else SplitFrom(s[1..], current, false)
    else if s[0] == ',' && !inQuotes then [current] + SplitFrom(s[1..], "", false)
    else SplitFrom(s[1..], current + [s[0]], inQuotes)
  }

  method SplitCsv(line: string) returns (fields: seq<string>)
    ensures fields == SplitFrom(line, "", false)
  {
    fields := [];
    var current, inQuotes, i := "", false, 0;
    while i < |line|
      invariant 0 <= i <= |line|
      invariant fields + SplitFrom(line[i..], current, inQuotes) == SplitFrom(line, "", false)
    {
      var c := line[i];
      ghost var rest := line[i..];
      assert rest[0] == c && rest[1..] == line[i + 1..];
      assert i + 1 < |line| ==> rest[1] == line[i + 1] && rest[2..] == line[i + 2..];
      i := i + 1;
      if c == '"' && !inQuotes {
        inQuotes := true;
      } else if c == '"' {
        if i < |line| && line[i] == '"' {
          i := i + 1;
          current := current + "\"";
        } else {
          inQuotes := false;
        }
      } else if c == ',' && !inQuotes {
        fields := fields + [current];
        current := "";
      } else {
        current := current + [c];
      }
    }
    fields := fields + [current];
  }

  // --------------------------------------------------------------------- printing

  /** Quotes inside a quoted field are doubled. */
  function Doubled(field: string): string {
    if field == "" then "" else Escaped(field[0]) + Doubled(field[1..])
  }

  /** A field and whether it is enclosed in double quotes. */
  datatype Field = Field(text: string, quoted: bool)

  /** Bare fields hold neither quotes nor commas. */
  predicate Printable(f: Field) {
    f.quoted || ('"' !in f.text && ',' !in f.text)
  }

  function PrintField(f: Field): string {
    if f.quoted then "\"" + Doubled(f.text) + "\"" else f.text
  }

  function Print(row: seq<Field>): string
    requires row != []
  {
    if |row| == 1 then PrintField(row[0]) else PrintField(row[0]) + "," + Print(row[1..])
  }

  function Texts(row: seq<Field>): seq<string> {
    if row == [] then [] else [row[0].text] + Texts(row[1..])
  }

  lemma {:induction false} BareRuns(s: string, text: string, current: string)
    requires '"' !in text && ',' !in text
    ensures SplitFrom(text + s, current, false) == SplitFrom(s, current + text, false)
    decreases |text|
  {
    if text == "" {
      assert text + s == s && current + text == current;
    } else {
      assert (text + s)[1..] == text[1..] + s;
      BareRuns(s, text[1..], current + [text[0]]);
      assert current + [text[0]] + text[1..] == current + text;
    }
  }

  function Escaped(c: char): string { if c == '"' then "\"\"" else [c] }

  lemma EscapedReadsBack(c: char, rest: string, current: string)
    ensures SplitFrom(Escaped(c) + rest, current, true) == SplitFrom(rest, current + [c], true)
  {
    var all := Escaped(c) + rest;
    if c == '"' {
      assert all[2..] == rest && all[1] == '"';
    } else {
      assert all[1..] == rest;
    }
  }

  lemma {:induction false} QuotedRuns(s: string, text: string, current: string)
    requires s != "" && s[0] == '"' && (|s| > 1 ==> s[1] != '"')
    ensures SplitFrom(Doubled(text) + s, current, true) == SplitFrom(s[1..], current + text, false)
    decreases |text|
  {
    if text == "" {
      assert Doubled(text) + s == s && current + text == current;
    } else {
      var rest := Doubled(text[1..]) + s;
      assert Doubled(text) + s == Escaped(text[0]) + rest;
      EscapedReadsBack(text[0], rest, current);
      QuotedRuns(s, text[1..], current + [text[0]]);
      assert current + [text[0]] + text[1..] == current + text;
    }
  }

  /** A printed field, followed by a comma or nothing, is read back whole. */
  lemma FieldReadsBack(f: Field, s: string)
    requires Printable(f) && (s == "" || s[0] == ',')
    ensures SplitFrom(PrintField(f) + s, "", false) == SplitFrom(s, f.text, false)
  {
    if f.quoted {
      var all := PrintField(f) + s;
      assert all == "\"" + (Doubled(f.text) + ("\"" + s));
      assert all[1..] == Doubled(f.text) + ("\"" + s);
      assert ("\"" + s)[1..] == s;
      QuotedRuns("\"" + s, f.text, "");
      assert "" + f.text == f.text;
    } else {
      BareRuns(s, f.text, "");
      assert "" + f.text == f.text;
    }
  }

  /** Splitting inverts printing, for every nonempty row and every choice of quoting. */
  lemma {:induction false} SplitInvertsPrint(row: seq<Field>)
    requires row != [] && forall i :: 0 <= i < |row| ==> Printable(row[i])
    ensures SplitFrom(Print(row), "", false) == Texts(row)
  {
    if |row| == 1 {
      FieldReadsBack(row[0], "");
      assert PrintField(row[0]) + "" == PrintField(row[0]);
      assert Texts(row[1..]) == [];
    } else {
      var s := "," + Print(row[1..]);
      assert Print(row) == PrintField(row[0]) + s;
      FieldReadsBack(row[0], s);
      assert s[1..] == Print(row[1..]);
      SplitInvertsPrint(row[1..]);
    }
  }
}
