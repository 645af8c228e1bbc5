/** Rule counting: what a publisher declares and a receiver recounts from the pack bodies. */
module Requirements {
  import opened Common
  import opened Text
  import opened Utf8

  /** Pack identifiers, compared by their order. */
  type Id = nat

  const MAX_PACK_BYTES := 4 * 1024 * 1024
  const MAX_TOTAL_PACK_BYTES := 64 * 1024 * 1024

  datatype Pattern = Exact | Wildcard | Regex(source: string)
  datatype Rule = Rule(key: string, pattern: Pattern, noapex: bool)

  /** The rule grammar, a parameter of the model. */
  type Parser = string -> Option<Rule>

  datatype Counts = Counts(
    sourceRules: nat, indexed: nat, advanced: nat, regex: nat,
    regexSourceBytes: nat, maxRegexSourceBytes: nat, maxRuleBytes: nat, skippedRows: nat)

  const NONE := Counts(0, 0, 0, 0, 0, 0, 0, 0)

  datatype Requirements = Requirements(
    packBytes: nat, store: Counts, profiles: map<string, Counts>, packs: map<Id, Counts>)

  function Size(s: string): nat { |Encode(s)| }

  // ------------------------------------------------------------------- one pack

  predicate IsRule(raw: string) {
    Trim(raw) != "" && !(TrimStart(raw) != "" && TrimStart(raw)[0] == '#')
  }

  datatype Tally = Tally(counts: Counts, keys: set<string>)

  function Seen(c: Counts, raw: string): Counts {
    c.(sourceRules := c.sourceRules + 1, maxRuleBytes := Max(c.maxRuleBytes, Size(raw)))
  }

  function Projected(c: Counts, rule: Rule): Counts {
    match rule.pattern
    case Exact => c.(indexed := c.indexed + 1)
    case Wildcard => c.(advanced := c.advanced + 1, indexed := if rule.noapex then c.indexed else c.indexed + 1)
    case Regex(source) =>
      c.(advanced := c.advanced + 1, regex := c.regex + 1, regexSourceBytes := c.regexSourceBytes + Size(source),
         maxRegexSourceBytes := Max(c.maxRegexSourceBytes, Size(source)))
  }

  /** One line: blank lines and comments do not count, a repeated rule is a source rule only. */
  function CountLine(parse: Parser, t: Tally, raw: string): Option<Tally> {
    if !IsRule(raw) then Some(t)
    else if parse(raw).None? then None
    else
      var rule := parse(raw).value;
      if rule.key in t.keys then Some(Tally(Seen(t.counts, raw), t.keys))
      else Some(Tally(Projected(Seen(t.counts, raw), rule), t.keys + {rule.key}))
  }

  function CountLines(parse: Parser, lines: seq<string>, n: nat): Option<Tally>
    requires n <= |lines|
  {
    if n == 0 then Some(Tally(NONE, {}))
    else
      var t := CountLines(parse, lines, n - 1);
      if t.None? then None else CountLine(parse, t.value, lines[n - 1])
  }

  /** The counters of one pack body, or none if some rule does not parse. */
  function PackCounts(parse: Parser, body: string): Option<Counts> {
    var t := CountLines(parse, Lines(body), |Lines(body)|);
    if t.None? then None else Some(t.value.counts)
  }

  method CountPack(parse: Parser, body: string) returns (r: Option<Counts>)
    ensures r == PackCounts(parse, body)
  {
    var lines := Lines(body);
    var counts, keys, i := NONE, {}, 0;
    while i < |lines|
      invariant 0 <= i <= |lines| && CountLines(parse, lines, i) == Some(Tally(counts, keys))
    {
      var raw := lines[i];
      i := i + 1;
      if !IsRule(raw) { continue; }
      counts := Seen(counts, raw);
      var ast := parse(raw);
      if ast.None? {
        AnError(parse, lines, i, |lines|);
        return None;
      }
      if ast.value.key in keys { continue; }
      keys := keys + {ast.value.key};
      counts := Projected(counts, ast.value);
    }
    return Some(counts);
  }

  lemma {:induction false} AnError(parse: Parser, lines: seq<string>, i: nat, n: nat)
    requires i <= n <= |lines| && CountLines(parse, lines, i) == None
    ensures CountLines(parse, lines, n) == None
  {
    if i < n { AnError(parse, lines, i, n - 1); }
  }

  /** A regex source is part of its line. */
  ghost predicate SourcesFit(parse: Parser) {
    forall raw :: parse(raw).Some? && parse(raw).value.pattern.Regex? ==>
      Size(parse(raw).value.pattern.source) <= Size(raw)
  }

  /** The relations among counters, and what bounds them all. */
  predicate Coherent(c: Counts, bytes: nat) {
    && c.regex <= c.advanced <= c.sourceRules && c.indexed + c.regex <= c.sourceRules <= bytes
    && c.regexSourceBytes <= bytes && c.maxRegexSourceBytes <= bytes && c.maxRuleBytes <= bytes && c.skippedRows == 0
  }

  function Bytes(lines: seq<string>, n: nat): nat
    requires n <= |lines|
  {
    if n == 0 then 0 else Bytes(lines, n - 1) + Size(lines[n - 1])
  }

  lemma RuleIsNotEmpty(raw: string)
    requires IsRule(raw)
    ensures Size(raw) > 0
  {
  }

  lemma LineIsCoherent(parse: Parser, t: Tally, raw: string, bytes: nat)
    requires SourcesFit(parse) && Coherent(t.counts, bytes)
    ensures CountLine(parse, t, raw).Some? ==> Coherent(CountLine(parse, t, raw).value.counts, bytes + Size(raw))
  {
    if IsRule(raw) { RuleIsNotEmpty(raw); }
  }

  lemma {:induction false} LinesAreCoherent(parse: Parser, lines: seq<string>, n: nat)
    requires SourcesFit(parse) && n <= |lines|
    ensures var t := CountLines(parse, lines, n); t.Some? ==> Coherent(t.value.counts, Bytes(lines, n))
  {
    if n > 0 {
      LinesAreCoherent(parse, lines, n - 1);
      var t := CountLines(parse, lines, n - 1);
      if t.Some? { LineIsCoherent(parse, t.value, lines[n - 1], Bytes(lines, n - 1)); }
    }
  }

  /** The largest rule counter bounds every rule line. */
  lemma LineKeepsLongest(parse: Parser, t: Tally, raw: string)
    requires CountLine(parse, t, raw).Some?
    ensures t.counts.maxRuleBytes <= CountLine(parse, t, raw).value.counts.maxRuleBytes
    ensures IsRule(raw) ==> Size(raw) <= CountLine(parse, t, raw).value.counts.maxRuleBytes
  {
  }

  lemma {:induction false} LongestRule(parse: Parser, lines: seq<string>, n: nat, i: nat)
    requires i < n <= |lines| && CountLines(parse, lines, n).Some? && IsRule(lines[i])
    ensures Size(lines[i]) <= CountLines(parse, lines, n).value.counts.maxRuleBytes
  {
    LineKeepsLongest(parse, CountLines(parse, lines, n - 1).value, lines[n - 1]);
    if i < n - 1 { LongestRule(parse, lines, n - 1, i); }
  }

  // -------------------------------------------------- lines are no longer than bodies

  lemma {:induction false} SizeSplits(s: string, n: nat)
    requires n <= |s|
    ensures Size(s) == Size(s[..n]) + Size(s[n..])
  {
    if n == 0 {
      assert s[..n] == "" && s[n..] == s;
    } else {
      SizeSplits(s[1..], n - 1);
      assert s[..n][1..] == s[1..][..n - 1] && s[n..] == s[1..][n - 1..] && s[..n][0] == s[0];
    }
  }

  lemma {:induction false} BytesOfTail(first: string, rest: seq<string>, n: nat)
    requires n <= |rest|
    ensures Bytes([first] + rest, n + 1) == Size(first) + Bytes(rest, n)
  {
    if n > 0 {
      BytesOfTail(first, rest, n - 1);
      assert ([first] + rest)[n] == rest[n - 1];
    }
  }

  function FirstLine(s: string, n: nat): string
    requires n < |s|
  {
    if n > 0 && s[n - 1] == '\r' then s[..n - 1] else s[..n]
  }

  lemma FirstLineFits(s: string, n: nat)
    requires n < |s|
    ensures Size(FirstLine(s, n)) + Size(s[n + 1..]) <= Size(s)
  {
    SizeSplits(s, n);
    SizeSplits(s[n..], 1);
    assert s[n..][1..] == s[n + 1..];
    if n > 0 {
      SizeSplits(s[..n], n - 1);
      assert s[..n][..n - 1] == s[..n - 1];
    }
  }

  lemma LinesStep(s: string)
    requires s != "" && LineEnd(s) < |s|
    ensures Lines(s) == [FirstLine(s, LineEnd(s))] + Lines(s[LineEnd(s) + 1..])
  {
  }

  lemma LastLine(s: string)
    requires s != "" && LineEnd(s) == |s|
    ensures Lines(s) == [s] && Bytes([s], 1) == Size(s)
  {
    assert Bytes([s], 0) == 0;
  }

  lemma {:induction false} LinesFitBody(s: string)
    ensures Bytes(Lines(s), |Lines(s)|) <= Size(s)
    decreases |s|
  {
    if s != "" {
      var n := LineEnd(s);
      if n == |s| {
        LastLine(s);
      } else {
        var first, rest := FirstLine(s, n), Lines(s[n + 1..]);
        LinesStep(s);
        LinesFitBody(s[n + 1..]);
        BytesOfTail(first, rest, |rest|);
        FirstLineFits(s, n);
      }
    }
  }

  lemma PackIsCoherent(parse: Parser, body: string)
    requires SourcesFit(parse)
    ensures PackCounts(parse, body).Some? ==> Coherent(PackCounts(parse, body).value, Size(body))
  {
    LinesAreCoherent(parse, Lines(body), |Lines(body)|);
    LinesFitBody(body);
  }

  lemma RuleFitsLongest(parse: Parser, body: string, i: nat)
    requires PackCounts(parse, body).Some? && i < |Lines(body)| && IsRule(Lines(body)[i])
    ensures Size(Lines(body)[i]) <= PackCounts(parse, body).value.maxRuleBytes
  {
    LongestRule(parse, Lines(body), |Lines(body)|, i);
  }

  // ---------------------------------------------------------------- sums over packs

  function Plus(a: Counts, b: Counts): Counts {
    Counts(a.sourceRules + b.sourceRules, a.indexed + b.indexed, a.advanced + b.advanced, a.regex + b.regex,
           a.regexSourceBytes + b.regexSourceBytes, Max(a.maxRegexSourceBytes, b.maxRegexSourceBytes),
           Max(a.maxRuleBytes, b.maxRuleBytes), a.skippedRows + b.skippedRows)
  }

  predicate Fits(c: Counts) {
    && c.sourceRules <= U64_MAX && c.indexed <= U64_MAX && c.advanced <= U64_MAX && c.regex <= U64_MAX
    && c.regexSourceBytes <= U64_MAX && c.skippedRows <= U64_MAX
  }

  /** `RuleRequirements::add`: checked 64-bit sums, and maxima. */
  function Add(a: Counts, b: Counts): Option<Counts> {
    if Fits(Plus(a, b)) then Some(Plus(a, b)) else None
  }

  predicate AtMost(a: Counts, b: Counts) {
    && a.sourceRules <= b.sourceRules && a.indexed <= b.indexed && a.advanced <= b.advanced && a.regex <= b.regex
    && a.regexSourceBytes <= b.regexSourceBytes && a.maxRegexSourceBytes <= b.maxRegexSourceBytes
    && a.maxRuleBytes <= b.maxRuleBytes && a.skippedRows <= b.skippedRows
  }

  /** The sum over a list of packs, in its order. */
  function Total(packs: map<Id, Counts>, ids: seq<Id>): Counts
    requires forall id :: id in ids ==> id in packs
  {
    if ids == [] then NONE else Plus(packs[ids[0]], Total(packs, ids[1..]))
  }

  lemma PlusCommutes(a: Counts, b: Counts, c: Counts)
    ensures Plus(a, b) == Plus(b, a)
    ensures Plus(a, Plus(b, c)) == Plus(Plus(a, b), c)
    ensures Plus(NONE, a) == a
    ensures AtMost(a, Plus(b, a))
    ensures AtMost(b, c) ==> AtMost(Plus(a, b), Plus(a, c))
  {
  }

  lemma {:induction false} TotalAround(packs: map<Id, Counts>, left: seq<Id>, id: Id, right: seq<Id>)
    requires forall q :: q in left + [id] + right ==> q in packs
    ensures Total(packs, left + [id] + right) == Plus(packs[id], Total(packs, left + right))
  {
    var all := left + [id] + right;
    if left == [] {
      assert all == [id] + right && all[1..] == right && left + right == right;
    } else {
      var rest := left[1..];
      assert all[1..] == rest + [id] + right && (left + right)[1..] == rest + right;
      assert forall q :: q in rest + [id] + right ==> q in all;
      TotalAround(packs, rest, id, right);
      var x, y, z := packs[left[0]], packs[id], Total(packs, rest + right);
      PlusCommutes(x, y, z);
      PlusCommutes(y, x, z);
    }
  }

  lemma Found(ids: seq<Id>, id: Id) returns (k: nat)
    requires id in ids
    ensures k < |ids| && ids == ids[..k] + [id] + ids[k + 1..]
  {
    k :| 0 <= k < |ids| && ids[k] == id;
  }

  lemma Removed(ids: seq<Id>, k: nat)
    requires k < |ids|
    ensures multiset(ids[..k] + ids[k + 1..]) == multiset(ids) - multiset{ids[k]}
  {
    assert ids == ids[..k] + [ids[k]] + ids[k + 1..];
    assert multiset(ids) == multiset(ids[..k]) + multiset{ids[k]} + multiset(ids[k + 1..]);
  }

  lemma HeadRemoved(ids: seq<Id>)
    requires ids != []
    ensures multiset(ids[1..]) == multiset(ids) - multiset{ids[0]}
  {
    assert ids == [ids[0]] + ids[1..];
  }

  /** Taking one pack out of a list takes its counters out of the sum. */
  lemma TotalWithout(packs: map<Id, Counts>, b: seq<Id>, id: Id) returns (rest: seq<Id>)
    requires (forall q :: q in b ==> q in packs) && id in b
    ensures multiset(rest) == multiset(b) - multiset{id} && (forall q :: q in rest ==> q in packs) && |rest| < |b|
    ensures Total(packs, b) == Plus(packs[id], Total(packs, rest))
  {
    var k := Found(b, id);
    rest := b[..k] + b[k + 1..];
    Removed(b, k);
    TotalAround(packs, b[..k], id, b[k + 1..]);
  }

  /** The sum does not depend on the order of the packs. */
  lemma {:induction false} TotalIsOrderFree(packs: map<Id, Counts>, a: seq<Id>, b: seq<Id>)
    requires (forall id :: id in a ==> id in packs)
    requires (forall id :: id in b ==> id in packs)
    requires multiset(a) == multiset(b)
    ensures Total(packs, a) == Total(packs, b)
  {
    if a == [] {
      assert |b| == |multiset(b)| == 0;
    } else {
      assert a[0] in multiset(a);
      var rest := TotalWithout(packs, b, a[0]);
      HeadRemoved(a);
      TotalIsOrderFree(packs, a[1..], rest);
    }
  }

  predicate Distinct(ids: seq<Id>) { forall i, j :: 0 <= i < j < |ids| ==> ids[i] != ids[j] }

  /** Distinct mounts add up to at most the whole store. */
  lemma {:induction false} MountsAtMostStore(packs: map<Id, Counts>, mounted: seq<Id>, all: seq<Id>)
    requires Distinct(mounted) && (forall id :: id in mounted ==> id in all) && (forall id :: id in all ==> id in packs)
    ensures AtMost(Total(packs, mounted), Total(packs, all))
  {
    if mounted != [] {
      var id := mounted[0];
      var k := Found(all, id);
      var rest := all[..k] + all[k + 1..];
      assert forall q :: q in rest ==> q in all;
      forall q | q in mounted[1..] ensures q in rest {
        var j :| 0 <= j < |mounted[1..]| && mounted[1..][j] == q;
        assert mounted[j + 1] == q && q != id;
        assert q in all[..k] + [id] + all[k + 1..];
      }
      MountsAtMostStore(packs, mounted[1..], rest);
      TotalAround(packs, all[..k], id, all[k + 1..]);
      PlusCommutes(packs[id], Total(packs, mounted[1..]), Total(packs, rest));
    }
  }

  function TotalBytes(bodies: map<Id, string>, ids: seq<Id>): nat
    requires forall id :: id in ids ==> id in bodies
  {
    if ids == [] then 0 else Size(bodies[ids[0]]) + TotalBytes(bodies, ids[1..])
  }

  lemma CoherentSum(a: Counts, x: nat, b: Counts, y: nat)
    requires Coherent(a, x) && Coherent(b, y)
    ensures Coherent(Plus(a, b), x + y)
  {
  }

  /** Every sum over packs is coherent and no larger than their bytes, so 64-bit counters cannot overflow. */
  lemma {:induction false} StoreIsCoherent(parse: Parser, bodies: map<Id, string>, packs: map<Id, Counts>, ids: seq<Id>)
    requires SourcesFit(parse)
    requires forall id :: id in ids ==> id in bodies && id in packs && PackCounts(parse, bodies[id]) == Some(packs[id])
    ensures Coherent(Total(packs, ids), TotalBytes(bodies, ids))
  {
    if ids != [] {
      StoreIsCoherent(parse, bodies, packs, ids[1..]);
      PackIsCoherent(parse, bodies[ids[0]]);
      CoherentSum(packs[ids[0]], Size(bodies[ids[0]]), Total(packs, ids[1..]), TotalBytes(bodies, ids[1..]));
    }
  }

  // ------------------------------------------------------------------ requirements

  /** The checked running sum over the first `n` mounts; none for an unknown pack or an overflow. */
  function CheckedSum(packs: map<Id, Counts>, ids: seq<Id>, n: nat): Option<Counts>
    requires n <= |ids|
  {
    if n == 0 then Some(NONE)
    else
      var c := CheckedSum(packs, ids, n - 1);
      if c.None? || ids[n - 1] !in packs then None else Add(c.value, packs[ids[n - 1]])
  }

  lemma {:induction false} TotalOfPrefix(packs: map<Id, Counts>, ids: seq<Id>, n: nat)
    requires 0 < n <= |ids| && forall id :: id in ids ==> id in packs
    ensures Total(packs, ids[..n]) == Plus(Total(packs, ids[..n - 1]), packs[ids[n - 1]])
  {
    var init, id := ids[..n - 1], ids[n - 1];
    assert ids[..n] == init + [id] + [] && init + [] == init;
    TotalAround(packs, init, id, []);
    PlusCommutes(packs[id], Total(packs, init), NONE);
  }

  /** When the full sum fits, every running sum is it so far. */
  lemma {:induction false} CheckedSumIsTotal(packs: map<Id, Counts>, ids: seq<Id>, n: nat)
    requires n <= |ids| && (forall id :: id in ids ==> id in packs) && Fits(Total(packs, ids[..n]))
    ensures CheckedSum(packs, ids, n) == Some(Total(packs, ids[..n]))
  {
    if n == 0 {
      assert ids[..0] == [];
    } else {
      TotalOfPrefix(packs, ids, n);
      CheckedSumIsTotal(packs, ids, n - 1);
    }
  }

  predicate Acceptable(parse: Parser, ids: seq<Id>, bodies: map<Id, string>)
    requires forall id :: id in ids ==> id in bodies
  {
    && (forall id :: id in ids ==> Size(bodies[id]) <= MAX_PACK_BYTES && PackCounts(parse, bodies[id]).Some?)
    && TotalBytes(bodies, ids) <= MAX_TOTAL_PACK_BYTES
  }

  /** The counters of every body that parses. */
  function CountsOf(parse: Parser, bodies: map<Id, string>): map<Id, Counts> {
    map id | id in bodies && PackCounts(parse, bodies[id]).Some? :: PackCounts(parse, bodies[id]).value
  }

  predicate IsMapOrder(ids: seq<Id>, bodies: map<Id, string>) {
    && (forall i, j :: 0 <= i < j < |ids| ==> ids[i] < ids[j])
    && (forall id :: id in ids ==> id in bodies) && (forall id :: id in bodies ==> id in ids)
  }

  function Restrict(packs: map<Id, Counts>,
                    ids: seq<Id>): map<Id, Counts> { map id | id in ids && id in packs :: packs[id] }

  lemma RestrictNext(packs: map<Id, Counts>, ids: seq<Id>, n: nat)
    requires n < |ids| && ids[n] in packs
    ensures Restrict(packs, ids[..n + 1]) == Restrict(packs, ids[..n])[ids[n] := packs[ids[n]]]
  {
    assert ids[..n + 1] == ids[..n] + [ids[n]];
  }

  lemma RestrictAll(packs: map<Id, Counts>, ids: seq<Id>)
    requires forall id :: id in packs ==> id in ids
    ensures Restrict(packs, ids) == packs
  {
  }

  /** The counters of the first `n` packs and their sum. */
  ghost predicate Summed(all: map<Id, Counts>, ids: seq<Id>, n: nat, store: Counts, packs: map<Id, Counts>) {
    && n <= |ids| && (forall id :: id in ids[..n] ==> id in all)
    && packs == Restrict(all, ids[..n]) && store == Total(all, ids[..n])
  }

  lemma SummedNext(all: map<Id, Counts>, ids: seq<Id>, n: nat, store: Counts, packs: map<Id, Counts>)
    requires Summed(all, ids, n, store, packs) && n < |ids| && ids[n] in all
    ensures Summed(all, ids, n + 1, Plus(store, all[ids[n]]), packs[ids[n] := all[ids[n]]])
  {
    assert ids[..n + 1] == ids[..n] + [ids[n]];
    RestrictNext(all, ids, n);
    TotalNext(all, ids, n);
  }

  lemma AcceptableNext(parse: Parser, ids: seq<Id>, bodies: map<Id, string>, n: nat)
    requires IsMapOrder(ids, bodies) && n < |ids| && Acceptable(parse, ids[..n], bodies)
    requires Size(bodies[ids[n]]) <= MAX_PACK_BYTES && PackCounts(parse, bodies[ids[n]]).Some?
    requires TotalBytes(bodies, ids[..n]) + Size(bodies[ids[n]]) <= MAX_TOTAL_PACK_BYTES
    ensures Acceptable(parse, ids[..n + 1], bodies)
    ensures TotalBytes(bodies, ids[..n + 1]) == TotalBytes(bodies, ids[..n]) + Size(bodies[ids[n]])
  {
    BytesOfPrefix(bodies, ids, n + 1);
    assert ids[..n + 1] == ids[..n] + [ids[n]];
  }

  lemma TotalNext(packs: map<Id, Counts>, ids: seq<Id>, n: nat)
    requires n < |ids| && forall id :: id in ids[..n + 1] ==> id in packs
    ensures (forall id :: id in ids[..n] ==> id in packs) && ids[n] in packs
    ensures Total(packs, ids[..n + 1]) == Plus(Total(packs, ids[..n]), packs[ids[n]])
  {
    var next := ids[..n + 1];
    assert next[..n] == ids[..n] && next[..n + 1] == next && next[n] == ids[n];
    TotalOfPrefix(packs, next, n + 1);
  }

  /** Acceptable packs: the next sum stays below their bytes, so it does not overflow. */
  lemma SumFits(parse: Parser, ids: seq<Id>, bodies: map<Id, string>, n: nat, store: Counts)
    requires SourcesFit(parse) && IsMapOrder(ids, bodies) && n < |ids| && Acceptable(parse, ids[..n + 1], bodies)
    requires forall id :: id in ids[..n] ==> id in CountsOf(parse, bodies)
    requires store == Total(CountsOf(parse, bodies), ids[..n]) && ids[n] in CountsOf(parse, bodies)
    ensures Add(store, CountsOf(parse, bodies)[ids[n]]) == Some(Plus(store, CountsOf(parse, bodies)[ids[n]]))
  {
    var all, next := CountsOf(parse, bodies), ids[..n + 1];
    TotalNext(all, ids, n);
    StoreIsCoherent(parse, bodies, all, next);
  }

  lemma RefusedAt(parse: Parser, ids: seq<Id>, bodies: map<Id, string>, n: nat)
    requires IsMapOrder(ids, bodies) && n < |ids|
    requires var body := bodies[ids[n]];
      Size(body) > MAX_PACK_BYTES || TotalBytes(bodies, ids[..n]) + Size(body) > MAX_TOTAL_PACK_BYTES
        || PackCounts(parse, body).None?
    ensures !Acceptable(parse, ids, bodies)
  {
    BytesOfPrefix(bodies, ids, n + 1);
    BytesGrow(bodies, ids, n + 1, |ids|);
    assert ids[..|ids|] == ids && ids[n] in ids;
  }

  /** What the pack loop holds after `n` packs. */
  ghost predicate SoFar(parse: Parser, ids: seq<Id>, bodies: map<Id, string>, n: nat, packBytes: nat, store: Counts,
                        packs: map<Id, Counts>)
    requires IsMapOrder(ids, bodies)
  {
    && n <= |ids| && Acceptable(parse, ids[..n], bodies) && packBytes == TotalBytes(bodies, ids[..n])
    && Summed(CountsOf(parse, bodies), ids, n, store, packs)
  }

  predicate Refuses(packBytes: nat, body: string, counts: Option<Counts>) {
    Size(body) > MAX_PACK_BYTES || packBytes + Size(body) > MAX_TOTAL_PACK_BYTES || counts.None?
  }

  lemma SoFarStart(parse: Parser, ids: seq<Id>, bodies: map<Id, string>)
    requires IsMapOrder(ids, bodies)
    ensures SoFar(parse, ids, bodies, 0, 0, NONE, map[])
  {
    assert ids[..0] == [];
  }

  lemma SoFarNext(parse: Parser, ids: seq<Id>, bodies: map<Id, string>, n: nat, packBytes: nat, store: Counts,
                  packs: map<Id, Counts>, counts: Option<Counts>)
    requires SourcesFit(parse)
    requires IsMapOrder(ids, bodies)
    requires n < |ids|
    requires SoFar(parse, ids, bodies, n, packBytes, store, packs)
    requires counts == PackCounts(parse, bodies[ids[n]])
    ensures Refuses(packBytes, bodies[ids[n]], counts) ==> !Acceptable(parse, ids, bodies)
    ensures !Refuses(packBytes, bodies[ids[n]], counts) ==> Add(store, counts.value) == Some(Plus(store, counts.value))
    ensures !Refuses(packBytes, bodies[ids[n]], counts) ==>
      SoFar(parse, ids, bodies, n + 1,
            packBytes + Size(bodies[ids[n]]), Plus(store, counts.value), packs[ids[n] := counts.value])
  {
    if Refuses(packBytes, bodies[ids[n]], counts) {
      RefusedAt(parse, ids, bodies, n);
    } else {
      AcceptableNext(parse, ids, bodies, n);
      SumFits(parse, ids, bodies, n, store);
      SummedNext(CountsOf(parse, bodies), ids, n, store, packs);
    }
  }

  lemma SoFarAll(parse: Parser, ids: seq<Id>, bodies: map<Id, string>, packBytes: nat, store: Counts, packs: map<Id,
                 Counts>)
    requires IsMapOrder(ids, bodies) && SoFar(parse, ids, bodies, |ids|, packBytes, store, packs)
    ensures Acceptable(parse, ids, bodies) && packBytes == TotalBytes(bodies, ids)
    ensures packs == CountsOf(parse, bodies) && (forall id :: id in ids ==> id in packs) && store == Total(packs, ids)
  {
    assert ids[..|ids|] == ids;
    RestrictAll(CountsOf(parse, bodies), ids);
  }

  /** The pack loop of `requirements`; its 64-bit sums never overflow. */
  method CountStore(parse: Parser, ids: seq<Id>, bodies: map<Id, string>)
    returns (ok: bool, packBytes: nat, store: Counts, packs: map<Id, Counts>)
    requires SourcesFit(parse) && IsMapOrder(ids, bodies)
    ensures ok <==> Acceptable(parse, ids, bodies)
    ensures ok ==>
      && packBytes == TotalBytes(bodies, ids)
      && packs == CountsOf(parse, bodies)
      && (forall id :: id in ids ==> id in packs)
      && store == Total(packs, ids)
  {
    packBytes, store, packs := 0, NONE, map[];
    SoFarStart(parse, ids, bodies);
    var i := 0;
    while i < |ids|
      invariant i <= |ids| && SoFar(parse, ids, bodies, i, packBytes, store, packs)
    {
      var counts := CountPack(parse, bodies[ids[i]]);
      SoFarNext(parse, ids, bodies, i, packBytes, store, packs, counts);
      if Refuses(packBytes, bodies[ids[i]], counts) { return false, 0, NONE, map[]; }
      packBytes := packBytes + Size(bodies[ids[i]]);
      store := Add(store, counts.value).value;
      packs := packs[ids[i] := counts.value];
      i := i + 1;
    }
    SoFarAll(parse, ids, bodies, packBytes, store, packs);
    return true, packBytes, store, packs;
  }

  lemma {:induction false} BytesOfConcat(bodies: map<Id, string>, a: seq<Id>, b: seq<Id>)
    requires forall id :: id in a + b ==> id in bodies
    ensures (forall id :: id in a ==> id in bodies) && (forall id :: id in b ==> id in bodies)
    ensures TotalBytes(bodies, a + b) == TotalBytes(bodies, a) + TotalBytes(bodies, b)
  {
    assert forall id :: id in a || id in b ==> id in a + b;
    if a == [] {
      assert a + b == b;
    } else {
      assert (a + b)[1..] == a[1..] + b;
      BytesOfConcat(bodies, a[1..], b);
    }
  }

  lemma BytesOfPrefix(bodies: map<Id, string>, ids: seq<Id>, n: nat)
    requires 0 < n <= |ids| && forall id :: id in ids ==> id in bodies
    ensures TotalBytes(bodies, ids[..n]) == TotalBytes(bodies, ids[..n - 1]) + Size(bodies[ids[n - 1]])
  {
    assert ids[..n] == ids[..n - 1] + [ids[n - 1]];
    BytesOfConcat(bodies, ids[..n - 1], [ids[n - 1]]);
  }

  lemma BytesGrow(bodies: map<Id, string>, ids: seq<Id>, i: nat, n: nat)
    requires i <= n <= |ids| && forall id :: id in ids ==> id in bodies
    ensures TotalBytes(bodies, ids[..i]) <= TotalBytes(bodies, ids[..n])
  {
    assert ids[..n] == ids[..i] + ids[i..n];
    BytesOfConcat(bodies, ids[..i], ids[i..n]);
  }

  // -------------------------------------------------------------------- profiles

  type Mounts = map<string, seq<Id>>

  function ProfileSum(packs: map<Id, Counts>, mounts: Mounts, profile: string): Option<Counts>
    requires profile in mounts
  {
    CheckedSum(packs, mounts[profile], |mounts[profile]|)
  }

  predicate Mountable(packs: map<Id, Counts>, mounts: Mounts) {
    forall profile :: profile in mounts ==> ProfileSum(packs, mounts, profile).Some?
  }

  function ProfilesOf(packs: map<Id, Counts>, mounts: Mounts): map<string, Counts>
    requires Mountable(packs, mounts)
  {
    map profile | profile in mounts :: ProfileSum(packs, mounts, profile).value
  }

  lemma {:induction false} SumStaysNone(packs: map<Id, Counts>, ids: seq<Id>, i: nat, n: nat)
    requires i <= n <= |ids| && CheckedSum(packs, ids, i) == None
    ensures CheckedSum(packs, ids, n) == None
  {
    if i < n { SumStaysNone(packs, ids, i, n - 1); }
  }

  method CountProfile(packs: map<Id, Counts>, ids: seq<Id>) returns (r: Option<Counts>)
    ensures r == CheckedSum(packs, ids, |ids|)
  {
    var counts, i := NONE, 0;
    while i < |ids|
      invariant 0 <= i <= |ids| && CheckedSum(packs, ids, i) == Some(counts)
    {
      var next := if ids[i] in packs then Add(counts, packs[ids[i]]) else None;
      i := i + 1;
      if next.None? {
        SumStaysNone(packs, ids, i, |ids|);
        return None;
      }
      counts := next.value;
    }
    return Some(counts);
  }

  method CountProfiles(packs: map<Id, Counts>, mounts: Mounts) returns (r: Option<map<string, Counts>>)
    ensures r.Some? <==> Mountable(packs, mounts)
    ensures r.Some? ==> r.value == ProfilesOf(packs, mounts)
  {
    var profiles: map<string, Counts> := map[];
    var todo := mounts.Keys;
    while todo != {}
      invariant todo <= mounts.Keys && profiles.Keys == mounts.Keys - todo
      invariant forall profile :: profile in profiles ==> ProfileSum(packs, mounts, profile) == Some(profiles[profile])
      decreases todo
    {
      var profile :| profile in todo;
      var counts := CountProfile(packs, mounts[profile]);
      if counts.None? {
        assert ProfileSum(packs, mounts, profile).None?;
        return None;
      }
      profiles := profiles[profile := counts.value];
      todo := todo - {profile};
    }
    return Some(profiles);
  }

  lemma AcceptableIsCounted(parse: Parser, ids: seq<Id>, bodies: map<Id, string>)
    requires IsMapOrder(ids, bodies) && Acceptable(parse, ids, bodies)
    ensures CountsOf(parse, bodies).Keys == bodies.Keys && forall id :: id in ids ==> id in CountsOf(parse, bodies)
  {
  }

  /** `requirements`, as a value. */
  ghost function RequirementsOf(parse: Parser, ids: seq<Id>, bodies: map<Id, string>,
                                mounts: Mounts): Option<Requirements>
    requires IsMapOrder(ids, bodies)
  {
    if !Acceptable(parse, ids, bodies) || !Mountable(CountsOf(parse, bodies), mounts) then None
    else
      AcceptableIsCounted(parse, ids, bodies);
      var packs := CountsOf(parse, bodies);
      Some(Requirements(TotalBytes(bodies, ids), Total(packs, ids), ProfilesOf(packs, mounts), packs))
  }

  method ComputeRequirements(parse: Parser, ids: seq<Id>, bodies: map<Id, string>, mounts: Mounts)
    returns (r: Option<Requirements>)
    requires SourcesFit(parse) && IsMapOrder(ids, bodies)
    ensures r == RequirementsOf(parse, ids, bodies, mounts)
  {
    var ok, packBytes, store, packs := CountStore(parse, ids, bodies);
    if !ok { return None; }
    var profiles := CountProfiles(packs, mounts);
    if profiles.None? { return None; }
    return Some(Requirements(packBytes, store, profiles.value, packs));
  }

  predicate Increasing(ids: seq<Id>) { forall i :: 0 < i < |ids| ==> ids[i - 1] < ids[i] }

  lemma {:induction false} IncreasingIsDistinct(ids: seq<Id>, i: nat, j: nat)
    requires Increasing(ids) && i < j < |ids|
    ensures ids[i] < ids[j]
  {
    if i < j - 1 { IncreasingIsDistinct(ids, i, j - 1); }
  }

  lemma FitsBelow(c: Counts, d: Counts, bytes: nat)
    requires AtMost(c, d) && Coherent(d, bytes) && bytes <= MAX_TOTAL_PACK_BYTES
    ensures Fits(c)
  {
  }

  /** A profile with increasing, declared mounts is counted exactly, and within the store. */
  lemma ProfileWithinStore(parse: Parser, ids: seq<Id>, bodies: map<Id, string>, mounted: seq<Id>)
    requires SourcesFit(parse) && IsMapOrder(ids, bodies) && Acceptable(parse, ids, bodies)
    requires Increasing(mounted) && forall id :: id in mounted ==> id in ids
    ensures (forall id :: id in ids ==> id in CountsOf(parse, bodies))
    ensures (forall id :: id in mounted ==> id in CountsOf(parse, bodies))
    ensures var packs := CountsOf(parse, bodies);
      && CheckedSum(packs, mounted, |mounted|) == Some(Total(packs, mounted))
      && AtMost(Total(packs, mounted), Total(packs, ids))
      && Coherent(Total(packs, ids), TotalBytes(bodies, ids))
  {
    var packs := CountsOf(parse, bodies);
    AcceptableIsCounted(parse, ids, bodies);
    StoreIsCoherent(parse, bodies, packs, ids);
    forall i, j | 0 <= i < j < |mounted| ensures mounted[i] != mounted[j] { IncreasingIsDistinct(mounted, i, j); }
    MountsAtMostStore(packs, mounted, ids);
    assert mounted[..|mounted|] == mounted;
    FitsBelow(Total(packs, mounted), Total(packs, ids), TotalBytes(bodies, ids));
    CheckedSumIsTotal(packs, mounted, |mounted|);
  }
}
