/** Publishing a policy capture as an artifact, and verifying an artifact back to a policy. */
module Artifact {
  import opened Common
  import opened Utf8
  import opened Requirements

  type Bytes = seq<byte>
  type Hash = string

  const SCHEMA := 5
  const COST_VERSION := 2
  const MAX_MANIFEST_BYTES := 1024 * 1024
  const MAX_TOML_BYTES := 16 * 1024 * 1024
  const MAX_APPLY_BYTES := 50 * 1024 * 1024
  const MAX_APPLY_FILES := 1000

  const NODE_LOCAL_SECTIONS :=
    ["custom_list_limits", "tracking", "socket", "api", "resource_budget", "backup", "cluster", "node"]
  const EXCLUDED_SECTIONS := ["includes"]
  const NODE_LOCAL_SERVER_FIELDS := ["listen", "log_level", "tcp_timeout_secs"]

  /** A TOML document, as far as stripping looks into it. */
  datatype Value = Scalar(text: string) | Table(entries: map<string, Value>)

  /** A policy: its node-local part, the fields the artifact inspects, and the rest. */
  datatype Config = Config(schema: nat, lists: seq<Id>, profiles: Mounts, shared: string, local: string)

  datatype ObjectRef = ObjectRef(sha256: Hash, bytes: nat)
  datatype PackRef = PackRef(id: Id, blob: ObjectRef)

  datatype Manifest = Manifest(
    format: nat, schema: nat, grammar: string, costVersion: nat, requirementsVersion: nat, compilerVersion: nat,
    lineage: Hash, epoch: nat, configRevision: Hash, policyHash: Hash,
    policyToml: ObjectRef, packs: seq<PackRef>, mounts: Mounts, requirements: Requirements, artifactHash: Hash)

  datatype Snapshot = Snapshot(
    toml: Bytes, mounts: Mounts, ids: seq<Id>, bodies: map<Id, string>, configRevision: Hash, policyHash: Hash,
    requirements: Requirements)

  datatype Candidate = Candidate(artifactHash: Hash, configRevision: Hash, manifest: Bytes, objects: map<Hash, Bytes>)

  /**
   Foreign code: the rule grammar, the digest, text and TOML codecs, the policy hash, the
   manifest's wire form and its domain-separated hash.
   */
  datatype Foreign = Foreign(
    parse: Parser,
    digest: Bytes -> Hash,
    fromUtf8: Bytes -> Option<string>,
    toToml: Value -> Bytes,
    fromToml: Bytes -> Option<Value>,
    toValue: Config -> Value,
    fromValue: Value -> Option<Config>,
    hashPolicy: (Config, map<Id, string>) -> Hash,
    validId: string -> bool,
    toJson: Manifest -> Bytes,
    fromJson: Bytes -> Option<Manifest>,
    sign: Bytes -> Hash)

  // ----------------------------------------------------------- node-local stripping

  function Without(entries: map<string, Value>, names: seq<string>): map<string, Value> {
    map k | k in entries && k !in names :: entries[k]
  }

  /** `replicated_policy_toml` on the parsed document. */
  function Strip(v: Value): Option<Value> {
    if !v.Table? then None
    else
      var t := Without(v.entries, EXCLUDED_SECTIONS + NODE_LOCAL_SECTIONS);
      if "server" !in t then Some(Table(t))
      else if !t["server"].Table? then None
      else Some(Table(t["server" := Table(Without(t["server"].entries, NODE_LOCAL_SERVER_FIELDS))]))
  }

  /** The leak checks of `verify_objects`. */
  predicate Clean(v: Value) {
    && v.Table? && (forall k :: k in v.entries ==> k !in EXCLUDED_SECTIONS + NODE_LOCAL_SECTIONS)
    && ("server" in v.entries ==>
          v.entries["server"].Table? && forall k :: k in v.entries["server"].entries ==> k !in NODE_LOCAL_SERVER_FIELDS)
  }

  lemma ServerIsReplicated()
    ensures "server" !in EXCLUDED_SECTIONS + NODE_LOCAL_SECTIONS
  {
    assert |"server"| == 6 && "server"[0] == 's' && "socket"[1] == 'o' && "server"[1] == 'e';
  }

  /** Stripping leaves nothing the receiver would refuse, and only a clean document is left as it is. */
  lemma StripIsClean(v: Value)
    ensures Strip(v).Some? ==> Clean(Strip(v).value) && Strip(Strip(v).value) == Strip(v)
    ensures Clean(v) <==> Strip(v) == Some(v)
  {
    ServerIsReplicated();
    if v.Table? && Clean(v) {
      assert Without(v.entries, EXCLUDED_SECTIONS + NODE_LOCAL_SECTIONS) == v.entries;
      if "server" in v.entries {
        var server := v.entries["server"].entries;
        assert Without(server, NODE_LOCAL_SERVER_FIELDS) == server;
        assert v.entries["server" := Table(server)] == v.entries;
      }
    }
    if Strip(v).Some? { StripOnceIsEnough(v); }
  }

  lemma StripOnceIsEnough(v: Value)
    requires Strip(v).Some?
    ensures Clean(Strip(v).value) && Strip(Strip(v).value) == Strip(v)
  {
    ServerIsReplicated();
    var w := Strip(v).value;
    assert Without(w.entries, EXCLUDED_SECTIONS + NODE_LOCAL_SECTIONS) == w.entries;
    if "server" in w.entries {
      var server := w.entries["server"].entries;
      assert Without(server, NODE_LOCAL_SERVER_FIELDS) == server;
      assert w.entries["server" := Table(server)] == w.entries;
    }
  }

  // -------------------------------------------------------------------- snapshots

  function Insert(id: Id, s: seq<Id>): seq<Id> {
    if s == [] || id <= s[0] then [id] + s else [s[0]] + Insert(id, s[1..])
  }

  function Sort(s: seq<Id>): seq<Id> { if s == [] then [] else Insert(s[0], Sort(s[1..])) }

  predicate Ascending(s: seq<Id>) { forall i, j :: 0 <= i < j < |s| ==> s[i] <= s[j] }

  lemma {:induction false} InsertedMembers(id: Id, s: seq<Id>)
    ensures multiset(Insert(id, s)) == multiset(s) + multiset{id}
  {
    if s != [] && id > s[0] {
      InsertedMembers(id, s[1..]);
      assert s == [s[0]] + s[1..];
    }
  }

  lemma {:induction false} InsertKeepsOrder(id: Id, s: seq<Id>)
    requires Ascending(s)
    ensures Ascending(Insert(id, s))
  {
    if s != [] && id > s[0] {
      var rest := Insert(id, s[1..]);
      InsertKeepsOrder(id, s[1..]);
      InsertedMembers(id, s[1..]);
      forall k | 0 <= k < |rest| ensures s[0] <= rest[k] {
        assert rest[k] in multiset(rest);
        assert rest[k] == id || rest[k] in s[1..];
      }
    }
  }

  lemma {:induction false} SortKeeps(s: seq<Id>)
    ensures Ascending(Sort(s)) && multiset(Sort(s)) == multiset(s)
  {
    if s != [] {
      SortKeeps(s[1..]);
      InsertKeepsOrder(s[0], Sort(s[1..]));
      InsertedMembers(s[0], Sort(s[1..]));
      assert s == [s[0]] + s[1..];
    }
  }

  lemma SortMembers(s: seq<Id>)
    ensures forall q :: q in Sort(s) <==> q in s
  {
    SortKeeps(s);
    assert forall q :: q in Sort(s) <==> q in multiset(Sort(s));
    assert forall q :: q in s <==> q in multiset(s);
  }

  function SortedMounts(c: Config): Mounts { map p | p in c.profiles :: Sort(c.profiles[p]) }

  function Elements(s: seq<Id>): set<Id> { set id | id in s }

  /** `check_roster` and `captured_bytes`. */
  predicate RosterMatches(c: Config, bodies: map<Id, string>) {
    && |Elements(c.lists)| == |c.lists| && |Elements(c.lists)| == |bodies|
    && (forall id :: id in bodies ==> id in c.lists) && (forall id :: id in c.lists ==> id in bodies)
  }

  predicate MountsMatch(c: Config) {
    forall p :: p in c.profiles ==>
      && Increasing(Sort(c.profiles[p]))
      && forall id :: id in c.profiles[p] ==> id in c.lists
  }

  function RefOf(f: Foreign, b: Bytes): ObjectRef { ObjectRef(f.digest(b), |b|) }

  /** `from_parts`. */
  ghost function FromParts(f: Foreign, c: Config, bodies: map<Id, string>, revision: Hash,
                           policyHash: Hash): Option<Snapshot> {
    var ids, mounts, v := Sort(c.lists), SortedMounts(c), Strip(f.toValue(c));
    if c.schema != SCHEMA || !RosterMatches(c, bodies) || !MountsMatch(c) || v.None? then None
    else if |f.toToml(v.value)| > MAX_TOML_BYTES then None
    else
      RosterOrders(c, bodies);
      var r := RequirementsOf(f.parse, ids, bodies, mounts);
      if r.None? then None else Some(Snapshot(f.toToml(v.value), mounts, ids, bodies, revision, policyHash, r.value))
  }

  lemma {:induction false} DistinctElements(s: seq<Id>)
    requires |Elements(s)| == |s|
    ensures Distinct(s)
  {
    if s != [] {
      var rest := s[1..];
      assert Elements(s) == Elements(rest) + {s[0]} by { assert s == [s[0]] + rest; }
      AtMostLength(rest);
      assert s[0] in rest ==> Elements(s) == Elements(rest);
      DistinctElements(rest);
    }
  }

  lemma {:induction false} AtMostLength(s: seq<Id>)
    ensures |Elements(s)| <= |s|
  {
    if s != [] {
      AtMostLength(s[1..]);
      assert Elements(s) == Elements(s[1..]) + {s[0]} by { assert s == [s[0]] + s[1..]; }
    }
  }

  lemma DistinctCounts(s: seq<Id>, i: nat, j: nat)
    requires i < j < |s| && s[i] == s[j]
    ensures multiset(s)[s[i]] >= 2
  {
    assert s == s[..i] + [s[i]] + s[i + 1..j] + [s[j]] + s[j + 1..];
  }

  lemma {:induction false} DistinctCountsOne(s: seq<Id>, q: Id)
    requires Distinct(s)
    ensures multiset(s)[q] <= 1
  {
    if s != [] {
      DistinctCountsOne(s[1..], q);
      assert s == [s[0]] + s[1..];
      if s[0] == q {
        assert q !in s[1..];
        assert multiset(s[1..])[q] == 0;
      }
    }
  }

  /** Sorting distinct declarations lists the packs in map order. */
  lemma RosterOrders(c: Config, bodies: map<Id, string>)
    requires RosterMatches(c, bodies)
    ensures IsMapOrder(Sort(c.lists), bodies)
  {
    var ids := Sort(c.lists);
    SortKeeps(c.lists);
    SortMembers(c.lists);
    DistinctElements(c.lists);
    forall i, j | 0 <= i < j < |ids| ensures ids[i] < ids[j] {
      if ids[i] == ids[j] {
        DistinctCounts(ids, i, j);
        DistinctCountsOne(c.lists, ids[i]);
      }
    }
  }
}
