/** Trimming and line splitting as the standard string library does them. */
module Text {

  /** The White_Space property, as trimming uses it. */
  predicate IsSpace(c: char) {
    var n := c as int;
    || 0x09 <= n <= 0x0D || n == 0x20 || n == 0x85 || n == 0xA0 || n == 0x1680 || 0x2000 <= n <= 0x200A
    || n == 0x2028 || n == 0x2029 || n == 0x202F || n == 0x205F || n == 0x3000
  }

  function TrimStart(s: string): string { if s != "" && IsSpace(s[0]) then TrimStart(s[1..]) else s }
  function TrimEnd(s: string): string { if s != "" && IsSpace(s[|s| - 1]) then TrimEnd(s[..|s| - 1]) else s }
  function Trim(s: string): string { TrimEnd(TrimStart(s)) }

  /** Position of the first line feed, or the length. */
  function LineEnd(s: string): (n: nat)
    ensures n <= |s| && (n < |s| ==> s[n] == '\n')
  {
    if s == "" || s[0] == '\n' then 0 else 1 + LineEnd(s[1..])
  }

  /** Lines end at a line feed, with one carriage return before it dropped; a final line may lack the line feed. */
  function Lines(s: string): seq<string>
    decreases |s|
  {
    if s == "" then []
    else
      var n := LineEnd(s);
      if n == |s| then [s]
      else [if n > 0 && s[n - 1] == '\r' then s[..n - 1] else s[..n]] + Lines(s[n + 1..])
  }

  // ------------------------------------------------------------------------- laws

  predicate AllSpace(s: string) { forall i :: 0 <= i < |s| ==> IsSpace(s[i]) }

  lemma {:induction false} TrimStartMeans(s: string) returns (n: nat)
    ensures n <= |s| && TrimStart(s) == s[n..] && AllSpace(s[..n])
    ensures n < |s| ==> !IsSpace(s[n])
  {
    if s != "" && IsSpace(s[0]) {
      var m := TrimStartMeans(s[1..]);
      n := m + 1;
      assert s[1..][m..] == s[n..] && s[..n] == [s[0]] + s[1..][..m];
    } else {
      n := 0;
    }
  }

  lemma {:induction false} TrimEndMeans(s: string) returns (n: nat)
    ensures n <= |s| && TrimEnd(s) == s[..n] && AllSpace(s[n..])
    ensures n > 0 ==> !IsSpace(s[n - 1])
  {
    if s != "" && IsSpace(s[|s| - 1]) {
      var t := s[..|s| - 1];
      n := TrimEndMeans(t);
      assert t[..n] == s[..n] && s[n..] == t[n..] + [s[|s| - 1]];
    } else {
      n := |s|;
      assert s[..n] == s;
    }
  }

  /** Trimming cuts exactly the white space at both ends. */
  lemma TrimMeans(s: string) returns (a: nat, b: nat)
    ensures a <= b <= |s| && Trim(s) == s[a..b] && AllSpace(s[..a]) && AllSpace(s[b..])
    ensures a < b ==> !IsSpace(s[a]) && !IsSpace(s[b - 1])
  {
    a := TrimStartMeans(s);
    var t := s[a..];
    var n := TrimEndMeans(t);
    b := a + n;
    assert t[..n] == s[a..b] && t[n..] == s[b..];
    if a < b { assert t[n - 1] == s[b - 1]; }
  }

  lemma NonSpaceStaysOut(raw: string, a: nat, b: nat, n: nat)
    requires a <= b <= |raw| && AllSpace(raw[..a]) && AllSpace(raw[b..]) && n < |raw| && !IsSpace(raw[n])
    ensures a <= n < b
  {
    assert forall i :: 0 <= i < a ==> raw[..a][i] == raw[i];
    assert forall i :: b <= i < |raw| ==> raw[b..][i - b] == raw[i];
  }

  /** Lines printed one after another, each ended by a line feed or by a carriage return and a line feed. */
  function Joined(lines: seq<string>, crlf: seq<bool>): string
    requires |lines| == |crlf|
  {
    if lines == [] then "" else lines[0] + (if crlf[0] then "\r\n" else "\n") + Joined(lines[1..], crlf[1..])
  }

  predicate IsLine(s: string) { '\n' !in s && (s != "" ==> s[|s| - 1] != '\r') }

  lemma {:induction false} LineEndOf(a: string, b: string)
    requires '\n' !in a && (b == "" || b[0] == '\n')
    ensures LineEnd(a + b) == |a|
  {
    if a == "" {
      assert a + b == b;
    } else {
      LineEndOf(a[1..], b);
      assert (a + b)[1..] == a[1..] + b && (a + b)[0] == a[0];
    }
  }

  lemma FirstOfJoined(line: string, crlf: bool, rest: string)
    requires IsLine(line)
    ensures Lines(line + (if crlf then "\r\n" else "\n") + rest) == [line] + Lines(rest)
  {
    var a := if crlf then line + "\r" else line;
    var s := line + (if crlf then "\r\n" else "\n") + rest;
    assert s == a + ("\n" + rest);
    LineEndOf(a, "\n" + rest);
    assert s[|a| + 1..] == rest && s[..|a|] == a;
    if crlf { assert s[|a| - 1] == '\r' && s[..|a| - 1] == line; }
    if !crlf && line != "" { assert s[|a| - 1] == line[|line| - 1]; }
  }

  lemma JoinedFirst(lines: seq<string>, crlf: seq<bool>, last: string)
    requires |lines| == |crlf| > 0
    ensures Joined(lines, crlf) + last
            == lines[0] + (if crlf[0] then "\r\n" else "\n") + (Joined(lines[1..], crlf[1..]) + last)
  {
  }

  /** Splitting into lines gives back what was joined; a last line may lack its end. */
  lemma {:induction false} LinesInvertJoin(lines: seq<string>, crlf: seq<bool>, last: string)
    requires |lines| == |crlf| && (forall i :: 0 <= i < |lines| ==> IsLine(lines[i])) && '\n' !in last
    ensures Lines(Joined(lines, crlf) + last) == lines + if last == "" then [] else [last]
  {
    if lines == [] {
      assert Joined(lines, crlf) + last == last;
      if last != "" {
        LineEndOf(last, "");
        assert last + "" == last;
      }
    } else {
      var more := lines[1..];
      LinesInvertJoin(more, crlf[1..], last);
      JoinedFirst(lines, crlf, last);
      FirstOfJoined(lines[0], crlf[0], Joined(more, crlf[1..]) + last);
      assert lines == [lines[0]] + more;
    }
  }
}
