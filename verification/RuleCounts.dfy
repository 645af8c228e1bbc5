/** What the counters of a pack mean, line by line, apart from how they are gathered. */
module RuleCounts {
  import opened Common
  import opened Text
  import opened Utf8
  import opened Requirements

  /** A line states a rule exactly if its first character that is no white space is there and is no `#`. */
  lemma RuleLineMeans(raw: string)
    ensures IsRule(raw) <==> exists i :: 0 <= i < |raw| && !IsSpace(raw[i]) && raw[i] != '#' && AllSpace(raw[..i])
  {
    var n := TrimStartMeans(raw);
    var a, b := TrimMeans(raw);
    if n < |raw| {
      assert TrimStart(raw)[0] == raw[n];
      NonSpaceStaysOut(raw, a, b, n);
      assert raw[|raw|..] == "";
      forall i | 0 <= i < |raw| && !IsSpace(raw[i]) && AllSpace(raw[..i]) ensures i == n {
        NonSpaceStaysOut(raw, n, |raw|, i);
        NonSpaceStaysOut(raw, i, |raw|, n);
      }
    } else {
      assert raw[..n] == raw;
      assert forall i :: 0 <= i < |raw| ==> IsSpace(raw[i]);
    }
  }

  // ----------------------------------------------------------------- reference counts

  predicate Parses(parse: Parser, lines: seq<string>, i: nat)
    requires i < |lines|
  {
    IsRule(lines[i]) && parse(lines[i]).Some?
  }

  /** The line states a rule no earlier line states. */
  ghost predicate IsFirst(parse: Parser, lines: seq<string>, i: nat)
    requires i < |lines|
  {
    && Parses(parse, lines, i)
    && forall j :: 0 <= j < i && Parses(parse, lines, j) ==> parse(lines[j]).value.key != parse(lines[i]).value.key
  }

  ghost function RuleLines(lines: seq<string>, n: nat): set<nat>
    requires n <= |lines|
  {
    set i: nat | i < n && IsRule(lines[i])
  }

  /** Rules matched by the index: exact names, and wildcards that cover their apex. */
  ghost function IndexedRules(parse: Parser, lines: seq<string>, n: nat): set<nat>
    requires n <= |lines|
  {
    set i: nat | i < n && IsFirst(parse, lines, i)
      && (parse(lines[i]).value.pattern.Exact?
          || (parse(lines[i]).value.pattern.Wildcard? && !parse(lines[i]).value.noapex))
  }

  /** Rules that need more than the index: wildcards and regular expressions. */
  ghost function AdvancedRules(parse: Parser, lines: seq<string>, n: nat): set<nat>
    requires n <= |lines|
  {
    set i: nat | i < n && IsFirst(parse, lines, i)
      && (parse(lines[i]).value.pattern.Wildcard? || parse(lines[i]).value.pattern.Regex?)
  }

  ghost function RegexRules(parse: Parser, lines: seq<string>, n: nat): set<nat>
    requires n <= |lines|
  {
    set i: nat | i < n && IsFirst(parse, lines, i) && parse(lines[i]).value.pattern.Regex?
  }

  ghost function RegexBytes(parse: Parser, lines: seq<string>, n: nat): nat
    requires n <= |lines|
  {
    if n == 0 then 0
    else RegexBytes(parse, lines, n - 1) +
         if n - 1 in RegexRules(parse, lines, n) then Size(parse(lines[n - 1]).value.pattern.source) else 0
  }

  ghost predicate Means(parse: Parser, lines: seq<string>, n: nat, c: Counts)
    requires n <= |lines|
  {
    && c.sourceRules == |RuleLines(lines, n)|
    && c.indexed == |IndexedRules(parse, lines, n)|
    && c.advanced == |AdvancedRules(parse, lines, n)|
    && c.regex == |RegexRules(parse, lines, n)|
    && c.regexSourceBytes == RegexBytes(parse, lines, n)
    && c.skippedRows == 0
  }

  ghost predicate KeysAre(parse: Parser, lines: seq<string>, n: nat, keys: set<string>)
    requires n <= |lines|
  {
    forall k :: k in keys <==> exists j :: 0 <= j < n && Parses(parse, lines, j) && parse(lines[j]).value.key == k
  }

  // ---------------------------------------------------------------------- one more line

  ghost function With(s: set<nat>, i: nat, more: bool): set<nat> { if more then s + {i} else s }

  lemma SetsGrow(parse: Parser, lines: seq<string>, n: nat)
    requires n < |lines|
    ensures RuleLines(lines, n + 1) == With(RuleLines(lines, n), n, IsRule(lines[n]))
    ensures !IsFirst(parse, lines, n) ==>
      && IndexedRules(parse, lines, n + 1) == IndexedRules(parse, lines, n)
      && AdvancedRules(parse, lines, n + 1) == AdvancedRules(parse, lines, n)
      && RegexRules(parse, lines, n + 1) == RegexRules(parse, lines, n)
    ensures IsFirst(parse, lines, n) ==>
      var rule := parse(lines[n]).value;
      && IndexedRules(parse, lines, n + 1) ==
         With(IndexedRules(parse, lines, n), n, rule.pattern.Exact? || (rule.pattern.Wildcard? && !rule.noapex))
      && AdvancedRules(parse, lines, n + 1) == With(AdvancedRules(parse, lines, n), n, !rule.pattern.Exact?)
      && RegexRules(parse, lines, n + 1) == With(RegexRules(parse, lines, n), n, rule.pattern.Regex?)
  {
  }

  lemma LineMeans(parse: Parser, lines: seq<string>, n: nat, t: Tally)
    requires n < |lines| && Means(parse, lines, n, t.counts) && KeysAre(parse, lines, n, t.keys)
    requires CountLine(parse, t, lines[n]).Some?
    ensures Means(parse, lines, n + 1, CountLine(parse, t, lines[n]).value.counts)
  {
    SetsGrow(parse, lines, n);
    var raw := lines[n];
    if IsRule(raw) {
      assert Parses(parse, lines, n);
      assert IsFirst(parse, lines, n) <==> parse(raw).value.key !in t.keys;
    }
  }

  lemma KeysGrow(parse: Parser, lines: seq<string>, n: nat, t: Tally)
    requires n < |lines| && KeysAre(parse, lines, n, t.keys) && CountLine(parse, t, lines[n]).Some?
    ensures KeysAre(parse, lines, n + 1, CountLine(parse, t, lines[n]).value.keys)
  {
    var keys := CountLine(parse, t, lines[n]).value.keys;
    forall k
      ensures k in keys <==> exists j :: 0 <= j < n + 1 && Parses(parse, lines, j) && parse(lines[j]).value.key == k
    {
      if k in keys && k !in t.keys { assert Parses(parse, lines, n) && parse(lines[n]).value.key == k; }
    }
  }

  /** Some rule line does not parse. */
  ghost predicate Broken(parse: Parser, lines: seq<string>, n: nat)
    requires n <= |lines|
  {
    exists i :: 0 <= i < n && IsRule(lines[i]) && parse(lines[i]).None?
  }

  lemma {:induction false} BrokenIsRefused(parse: Parser, lines: seq<string>, n: nat)
    requires n <= |lines|
    ensures CountLines(parse, lines, n).None? <==> Broken(parse, lines, n)
  {
    if n > 0 { BrokenIsRefused(parse, lines, n - 1); }
  }

  lemma {:induction false} LinesMean(parse: Parser, lines: seq<string>, n: nat)
    requires n <= |lines| && CountLines(parse, lines, n).Some?
    ensures Means(parse, lines, n, CountLines(parse, lines, n).value.counts)
    ensures KeysAre(parse, lines, n, CountLines(parse, lines, n).value.keys)
  {
    if n == 0 {
      assert RuleLines(lines, 0) == {} && IndexedRules(parse, lines, 0) == {};
      assert AdvancedRules(parse, lines, 0) == {} && RegexRules(parse, lines, 0) == {};
    } else {
      LinesMean(parse, lines, n - 1);
      LineMeans(parse, lines, n - 1, CountLines(parse, lines, n - 1).value);
      KeysGrow(parse, lines, n - 1, CountLines(parse, lines, n - 1).value);
    }
  }

  // ------------------------------------------------------------------------ the longest

  ghost function LineSizes(lines: seq<string>): seq<nat> {
    seq(|lines|, i requires 0 <= i < |lines| => Size(lines[i]))
  }

  ghost function SourceSizes(parse: Parser, lines: seq<string>): seq<nat> {
    seq(|lines|, i requires 0 <= i < |lines| =>
      if parse(lines[i]).Some? && parse(lines[i]).value.pattern.Regex? then Size(parse(lines[i]).value.pattern.source)
      else 0)
  }

  /** `max` is the largest of these sizes, or zero if there are none. */
  ghost predicate Longest(of: set<nat>, sizes: seq<nat>, max: nat) {
    && (forall i :: i in of ==> i < |sizes| && sizes[i] <= max)
    && (max == 0 || exists i :: i in of && i < |sizes| && sizes[i] == max)
  }

  lemma LongestWith(of: set<nat>, sizes: seq<nat>, max: nat, m: nat, more: bool)
    requires Longest(of, sizes, max) && m < |sizes|
    ensures Longest(With(of, m, more), sizes, if more then Max(max, sizes[m]) else max)
  {
    if max > 0 {
      var i :| i in of && i < |sizes| && sizes[i] == max;
      assert i in With(of, m, more);
    }
    if more { assert m in With(of, m, more); }
  }

  /** The counters of one more line are those two maxima. */
  lemma MaximaNext(parse: Parser, lines: seq<string>, m: nat, t: Tally)
    requires m < |lines| && KeysAre(parse, lines, m, t.keys) && CountLine(parse, t, lines[m]).Some?
    ensures var c := CountLine(parse, t, lines[m]).value.counts;
      && c.maxRuleBytes ==
         (if IsRule(lines[m]) then Max(t.counts.maxRuleBytes, Size(lines[m])) else t.counts.maxRuleBytes)
      && c.maxRegexSourceBytes ==
         if m in RegexRules(parse, lines, m + 1)
         then Max(t.counts.maxRegexSourceBytes, Size(parse(lines[m]).value.pattern.source))
         else t.counts.maxRegexSourceBytes
  {
    if IsRule(lines[m]) {
      assert Parses(parse, lines, m);
      assert IsFirst(parse, lines, m) <==> parse(lines[m]).value.key !in t.keys;
    }
  }

  lemma {:induction false} LinesLongest(parse: Parser, lines: seq<string>, n: nat)
    requires n <= |lines| && CountLines(parse, lines, n).Some?
    ensures var c := CountLines(parse, lines, n).value.counts;
      && Longest(RuleLines(lines, n), LineSizes(lines), c.maxRuleBytes)
      && Longest(RegexRules(parse, lines, n), SourceSizes(parse, lines), c.maxRegexSourceBytes)
  {
    if n > 0 {
      var m := n - 1;
      var t := CountLines(parse, lines, m).value;
      LinesLongest(parse, lines, m);
      LinesMean(parse, lines, m);
      MaximaNext(parse, lines, m, t);
      RulesGrow(parse, lines, m);
      LongestWith(RuleLines(lines, m), LineSizes(lines), t.counts.maxRuleBytes, m, IsRule(lines[m]));
      LongestWith(RegexRules(parse, lines, m), SourceSizes(parse, lines), t.counts.maxRegexSourceBytes, m,
                  m in RegexRules(parse, lines, n));
    }
  }

  lemma RulesGrow(parse: Parser, lines: seq<string>, m: nat)
    requires m < |lines|
    ensures RuleLines(lines, m + 1) == With(RuleLines(lines, m), m, IsRule(lines[m]))
    ensures var before, after := RegexRules(parse, lines, m), RegexRules(parse, lines, m + 1);
      after == With(before, m, m in after)
  {
    SetsGrow(parse, lines, m);
  }

  /**
   A pack is counted exactly if every rule line parses. Then its counters are the
   number of rule lines, and, of the rules no earlier line states, how many the
   index matches, how many need more, and how many and how long the regular
   expressions among them are.
   */
  lemma CountersMean(parse: Parser, body: string)
    ensures PackCounts(parse, body).None? <==> Broken(parse, Lines(body), |Lines(body)|)
    ensures PackCounts(parse, body).Some? ==>
      var lines, c := Lines(body), PackCounts(parse, body).value;
      && Means(parse, lines, |lines|, c)
      && Longest(RuleLines(lines, |lines|), LineSizes(lines), c.maxRuleBytes)
      && Longest(RegexRules(parse, lines, |lines|), SourceSizes(parse, lines), c.maxRegexSourceBytes)
  {
    var lines := Lines(body);
    BrokenIsRefused(parse, lines, |lines|);
    if PackCounts(parse, body).Some? {
      LinesMean(parse, lines, |lines|);
      LinesLongest(parse, lines, |lines|);
    }
  }

  // --------------------------------------------------------------------- over many packs

  /** One counter added up over a list of packs. */
  function Added(packs: map<Id, Counts>, ids: seq<Id>, get: Counts -> nat): nat
    requires forall id :: id in ids ==> id in packs
  {
    if ids == [] then 0 else get(packs[ids[0]]) + Added(packs, ids[1..], get)
  }

  /** One counter's largest value over a list of packs. */
  function Largest(packs: map<Id, Counts>, ids: seq<Id>, get: Counts -> nat): nat
    requires forall id :: id in ids ==> id in packs
  {
    if ids == [] then 0 else Max(get(packs[ids[0]]), Largest(packs, ids[1..], get))
  }

  /** Every counter of a sum is that counter's sum, the two maxima excepted, which are maxima. */
  lemma {:induction false} TotalAddsUp(packs: map<Id, Counts>, ids: seq<Id>)
    requires forall id :: id in ids ==> id in packs
    ensures var t := Total(packs, ids);
      && t.sourceRules == Added(packs, ids, (c: Counts) => c.sourceRules)
      && t.indexed == Added(packs, ids, (c: Counts) => c.indexed)
      && t.advanced == Added(packs, ids, (c: Counts) => c.advanced)
      && t.regex == Added(packs, ids, (c: Counts) => c.regex)
      && t.regexSourceBytes == Added(packs, ids, (c: Counts) => c.regexSourceBytes)
      && t.skippedRows == Added(packs, ids, (c: Counts) => c.skippedRows)
      && t.maxRegexSourceBytes == Largest(packs, ids, (c: Counts) => c.maxRegexSourceBytes)
      && t.maxRuleBytes == Largest(packs, ids, (c: Counts) => c.maxRuleBytes)
  {
    if ids != [] { TotalAddsUp(packs, ids[1..]); }
  }
}
