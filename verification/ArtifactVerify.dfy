/** Manifests, publication and verification, and the round trip between them. */
module ArtifactVerify {
  import opened Common
  import opened Utf8
  import opened Requirements
  import opened Artifact

  // --------------------------------------------------------------------- manifests

  function DeclaredBytes(packs: seq<PackRef>, n: nat): nat
    requires n <= |packs|
  {
    if n == 0 then 0 else DeclaredBytes(packs, n - 1) + packs[n - 1].blob.bytes
  }

  function Ids(packs: seq<PackRef>): set<Id> { set i | 0 <= i < |packs| :: packs[i].id }

  predicate PacksInOrder(packs: seq<PackRef>, n: nat)
    requires n <= |packs|
  {
    && (forall i :: 0 < i < n ==> packs[i - 1].id < packs[i].id)
    && (forall i :: 0 <= i < n ==> IsHash(packs[i].blob.sha256) && packs[i].blob.bytes <= MAX_PACK_BYTES)
  }

  predicate Capable(m: Manifest) {
    && m.format == 2 && m.schema == SCHEMA && m.grammar == "1" && m.costVersion == COST_VERSION
    && m.requirementsVersion == 1 && m.compilerVersion == 1
  }

  predicate Identified(m: Manifest) {
    && IsHash(m.artifactHash)
    && IsHash(m.configRevision)
    && IsHash(m.policyHash)
    && IsHash(m.policyToml.sha256)
    && IsHash(m.lineage)
    && m.epoch > 0
  }

  predicate MountsDeclared(f: Foreign, m: Manifest) {
    forall p :: p in m.mounts ==>
      && f.validId(p)
      && Increasing(m.mounts[p])
      && forall id :: id in m.mounts[p] ==> id in Ids(m.packs)
  }

  predicate SizesAgree(m: Manifest) {
    var total := DeclaredBytes(m.packs, |m.packs|);
    total == m.requirements.packBytes && total <= MAX_TOTAL_PACK_BYTES && total + m.policyToml.bytes <= MAX_APPLY_BYTES
  }

  /** `Manifest::validate`. */
  predicate Valid(f: Foreign, m: Manifest) {
    && Capable(m) && Identified(m)
    && m.policyToml.bytes <= MAX_TOML_BYTES && |m.packs| < MAX_APPLY_FILES
    && PacksInOrder(m.packs, |m.packs|) && SizesAgree(m)
    && Ids(m.packs) == m.requirements.packs.Keys && m.mounts.Keys == m.requirements.profiles.Keys
    && MountsDeclared(f, m)
    && CanonicalHash(f, m) == Some(m.artifactHash)
  }

  /** The hash covers the wire form without the hash field. */
  function CanonicalHash(f: Foreign, m: Manifest): Option<Hash> {
    var b := f.toJson(m.(artifactHash := ""));
    if |b| <= MAX_MANIFEST_BYTES then Some(f.sign(b)) else None
  }

  function EncodeManifest(f: Foreign, m: Manifest): Option<Bytes> {
    if Valid(f, m) && |f.toJson(m)| <= MAX_MANIFEST_BYTES then Some(f.toJson(m)) else None
  }

  function DecodeManifest(f: Foreign, b: Bytes): Option<Manifest> {
    if |b| > MAX_MANIFEST_BYTES then None
    else
      var m := f.fromJson(b);
      if m.None? || !Valid(f, m.value) then None else m
  }

  ghost predicate JsonInverts(f: Foreign) { forall m: Manifest :: f.fromJson(f.toJson(m)) == Some(m) }

  /** What is encoded decodes to itself, and only valid manifests are encoded or decoded. */
  lemma ManifestRoundTrip(f: Foreign, m: Manifest)
    requires JsonInverts(f)
    ensures EncodeManifest(f, m).Some? ==> Valid(f, m) && DecodeManifest(f, EncodeManifest(f, m).value) == Some(m)
    ensures forall b :: DecodeManifest(f, b).Some? ==> |b| <= 1024 * 1024 && Valid(f, DecodeManifest(f, b).value)
  {
  }

  /** Two valid manifests with one artifact hash are the same, unless the hash collides on their wire forms. */
  lemma HashPinsManifest(f: Foreign, m: Manifest, n: Manifest)
    requires JsonInverts(f) && Valid(f, m) && Valid(f, n) && m.artifactHash == n.artifactHash
    requires var a, b := f.toJson(m.(artifactHash := "")), f.toJson(n.(artifactHash := ""));
      f.sign(a) == f.sign(b) ==> a == b
    ensures m == n
  {
    var m0, n0 := m.(artifactHash := ""), n.(artifactHash := "");
    assert f.fromJson(f.toJson(m0)) == Some(m0) && f.fromJson(f.toJson(n0)) == Some(n0);
    assert m == m0.(artifactHash := m.artifactHash) && n == n0.(artifactHash := n.artifactHash);
  }

  lemma {:induction false} DeclaredBytesAreSmall(packs: seq<PackRef>, n: nat)
    requires n <= |packs| && PacksInOrder(packs, n)
    ensures DeclaredBytes(packs, n) <= n * MAX_PACK_BYTES
  {
    if n > 0 { DeclaredBytesAreSmall(packs, n - 1); }
  }

  /** The pack loop of `validate`; neither its running total nor the final sum can overflow. */
  method ValidateManifest(f: Foreign, m: Manifest) returns (ok: bool)
    ensures ok <==> Valid(f, m)
  {
    if !Capable(m) || !Identified(m) { return false; }
    if m.policyToml.bytes > MAX_TOML_BYTES || |m.packs| >= MAX_APPLY_FILES { return false; }
    var total, ids, i := 0, {}, 0;
    while i < |m.packs|
      invariant 0 <= i <= |m.packs| && PacksInOrder(m.packs, i)
      invariant total == DeclaredBytes(m.packs, i) && ids == Ids(m.packs[..i])
    {
      var pack := m.packs[i];
      if i > 0 && !(m.packs[i - 1].id < pack.id) { return false; }
      if !IsHash(pack.blob.sha256) || pack.blob.bytes > MAX_PACK_BYTES { return false; }
      DeclaredBytesAreSmall(m.packs, i);
      assert total + pack.blob.bytes <= U64_MAX;
      total := total + pack.blob.bytes;
      ids := ids + {pack.id};
      i := i + 1;
      IdsGrow(m.packs, i);
    }
    assert m.packs[..i] == m.packs;
    DeclaredBytesAreSmall(m.packs, i);
    assert total + m.policyToml.bytes <= U64_MAX;
    return total == m.requirements.packBytes && total <= MAX_TOTAL_PACK_BYTES
      && total + m.policyToml.bytes <= MAX_APPLY_BYTES
      && ids == m.requirements.packs.Keys && m.mounts.Keys == m.requirements.profiles.Keys
      && MountsDeclared(f, m)
      && CanonicalHash(f, m) == Some(m.artifactHash);
  }

  lemma IdsGrow(packs: seq<PackRef>, n: nat)
    requires 0 < n <= |packs|
    ensures Ids(packs[..n]) == Ids(packs[..n - 1]) + {packs[n - 1].id}
  {
    var a, b := Ids(packs[..n]), Ids(packs[..n - 1]);
    forall id ensures id in a <==> id in b || id == packs[n - 1].id {
      if id in a {
        var i :| 0 <= i < n && packs[..n][i].id == id;
        if i < n - 1 { assert packs[..n - 1][i].id == id; }
      }
      if id in b {
        var i :| 0 <= i < n - 1 && packs[..n - 1][i].id == id;
        assert packs[..n][i].id == id;
      }
      if id == packs[n - 1].id { assert packs[..n][n - 1].id == id; }
    }
  }

  // ------------------------------------------------------------------- publication

  function PackBytes(s: Snapshot, id: Id): Bytes
    requires id in s.bodies
  {
    Encode(s.bodies[id])
  }

  predicate Complete(s: Snapshot) { forall id :: id in s.ids ==> id in s.bodies }

  function PackRefs(f: Foreign, s: Snapshot): seq<PackRef>
    requires Complete(s)
  {
    seq(|s.ids|, i requires 0 <= i < |s.ids| => PackRef(s.ids[i], RefOf(f, PackBytes(s, s.ids[i]))))
  }

  function ObjectsUpTo(f: Foreign, s: Snapshot, n: nat): map<Hash, Bytes>
    requires Complete(s) && n <= |s.ids|
  {
    if n == 0 then map[f.digest(s.toml) := s.toml]
    else ObjectsUpTo(f, s, n - 1)[f.digest(PackBytes(s, s.ids[n - 1])) := PackBytes(s, s.ids[n - 1])]
  }

  function Unsigned(f: Foreign, s: Snapshot, lineage: Hash, epoch: nat): Manifest
    requires Complete(s)
  {
    Manifest(2, SCHEMA, "1", COST_VERSION, 1, 1, lineage, epoch, s.configRevision, s.policyHash,
             RefOf(f, s.toml), PackRefs(f, s), s.mounts, s.requirements, "")
  }

  /** `PolicySnapshot::publication`. */
  function Publication(f: Foreign, s: Snapshot, lineage: Hash, epoch: nat): Option<Candidate>
    requires Complete(s)
  {
    var m := Signed(f, s, lineage, epoch);
    if m.None? || EncodeManifest(f, m.value).None? then None
    else
      var objects := ObjectsUpTo(f, s, |s.ids|);
      Some(Candidate(m.value.artifactHash, s.configRevision, EncodeManifest(f, m.value).value, objects))
  }

  function Signed(f: Foreign, s: Snapshot, lineage: Hash, epoch: nat): Option<Manifest>
    requires Complete(s)
  {
    var hash := CanonicalHash(f, Unsigned(f, s, lineage, epoch));
    if hash.None? then None else Some(Unsigned(f, s, lineage, epoch).(artifactHash := hash.value))
  }

  method Publish(f: Foreign, s: Snapshot, lineage: Hash, epoch: nat) returns (r: Option<Candidate>)
    requires Complete(s)
    ensures r == Publication(f, s, lineage, epoch)
  {
    var m := Unsigned(f, s, lineage, epoch);
    var hash := CanonicalHash(f, m);
    if hash.None? { return None; }
    m := m.(artifactHash := hash.value);
    var objects := map[f.digest(s.toml) := s.toml];
    var i := 0;
    while i < |s.ids|
      invariant 0 <= i <= |s.ids| && objects == ObjectsUpTo(f, s, i)
    {
      var body := PackBytes(s, s.ids[i]);
      objects := objects[f.digest(body) := body];
      i := i + 1;
    }
    var ok := ValidateManifest(f, m);
    if !ok || |f.toJson(m)| > MAX_MANIFEST_BYTES { return None; }
    return Some(Candidate(m.artifactHash, s.configRevision, f.toJson(m), objects));
  }

  // ------------------------------------------------------------------ verification

  predicate Matches(f: Foreign, ref: ObjectRef, b: Bytes, maximum: nat) {
    |b| <= maximum && ref.bytes == |b| && ref.sha256 == f.digest(b)
  }

  predicate PackPresent(f: Foreign, p: PackRef, objects: map<Hash, Bytes>) {
    && p.blob.sha256 in objects && Matches(f, p.blob, objects[p.blob.sha256], MAX_PACK_BYTES)
    && f.fromUtf8(objects[p.blob.sha256]).Some?
  }

  function BodyOf(f: Foreign, p: PackRef, objects: map<Hash, Bytes>): string
    requires PackPresent(f, p, objects)
  {
    f.fromUtf8(objects[p.blob.sha256]).value
  }

  function BodiesUpTo(f: Foreign, m: Manifest, objects: map<Hash, Bytes>, n: nat): map<Id, string>
    requires n <= |m.packs| && forall i :: 0 <= i < n ==> PackPresent(f, m.packs[i], objects)
  {
    if n == 0 then map[]
    else
      assert PackPresent(f, m.packs[n - 1], objects);
      BodiesUpTo(f, m, objects, n - 1)[m.packs[n - 1].id := BodyOf(f, m.packs[n - 1], objects)]
  }

  function ExpectedUpTo(m: Manifest, n: nat): set<Hash>
    requires n <= |m.packs|
  {
    if n == 0 then {m.policyToml.sha256} else ExpectedUpTo(m, n - 1) + {m.packs[n - 1].blob.sha256}
  }

  /** The policy document, parsed and checked for leaks. */
  function PolicyIn(f: Foreign, m: Manifest, objects: map<Hash, Bytes>): Option<Config> {
    if m.policyToml.sha256 !in objects then None
    else
      var b := objects[m.policyToml.sha256];
      if !Matches(f, m.policyToml, b, MAX_TOML_BYTES) || f.fromUtf8(b).None? || f.fromToml(b).None? then None
      else
        var v := f.fromToml(b).value;
        if !Clean(v) || f.fromValue(v).None? || f.fromValue(v).value.schema != SCHEMA then None else f.fromValue(v)
  }

  predicate AllPresent(f: Foreign, m: Manifest, objects: map<Hash, Bytes>) {
    forall i :: 0 <= i < |m.packs| ==> PackPresent(f, m.packs[i], objects)
  }

  function PackOrder(m: Manifest): seq<Id> { seq(|m.packs|, i requires 0 <= i < |m.packs| => m.packs[i].id) }

  /** Mounts of a parsed policy: sorted and free of duplicates. */
  predicate MountsSorted(c: Config) { forall p :: p in c.profiles ==> Increasing(Sort(c.profiles[p])) }

  lemma {:induction false} BodyKeys(f: Foreign, m: Manifest, objects: map<Hash, Bytes>, n: nat)
    requires n <= |m.packs| && forall i :: 0 <= i < n ==> PackPresent(f, m.packs[i], objects)
    ensures BodiesUpTo(f, m, objects, n).Keys == Ids(m.packs[..n])
  {
    if n > 0 {
      BodyKeys(f, m, objects, n - 1);
      IdsGrow(m.packs, n);
    }
  }

  lemma {:induction false} PacksIncrease(packs: seq<PackRef>, i: nat, j: nat)
    requires PacksInOrder(packs, |packs|) && i < j < |packs|
    ensures packs[i].id < packs[j].id
  {
    if i < j - 1 { PacksIncrease(packs, i, j - 1); }
  }

  lemma {:induction false} BodyAt(f: Foreign, m: Manifest, objects: map<Hash, Bytes>, n: nat, i: nat)
    requires PacksInOrder(m.packs, |m.packs|) && i < n <= |m.packs| && AllPresent(f, m, objects)
    ensures m.packs[i].id in BodiesUpTo(f, m, objects, n)
    ensures BodiesUpTo(f, m, objects, n)[m.packs[i].id] == BodyOf(f, m.packs[i], objects)
  {
    if i < n - 1 {
      BodyAt(f, m, objects, n - 1, i);
      PacksIncrease(m.packs, i, n - 1);
    }
  }

  /** A valid manifest lists its packs in map order. */
  lemma PackOrderIsMapOrder(f: Foreign, m: Manifest, objects: map<Hash, Bytes>)
    requires Valid(f, m) && AllPresent(f, m, objects)
    ensures IsMapOrder(PackOrder(m), BodiesUpTo(f, m, objects, |m.packs|))
  {
    var ids := PackOrder(m);
    BodyKeys(f, m, objects, |m.packs|);
    assert m.packs[..|m.packs|] == m.packs;
    forall i, j | 0 <= i < j < |ids| ensures ids[i] < ids[j] { PacksIncrease(m.packs, i, j); }
    forall id | id in ids ensures id in Ids(m.packs) { var i :| 0 <= i < |ids| && ids[i] == id; }
    forall id | id in Ids(m.packs) ensures id in ids {
      var i :| 0 <= i < |m.packs| && m.packs[i].id == id;
      assert ids[i] == id;
    }
  }

  /** What the bodies must say for a parsed policy to be the manifest's. */
  ghost predicate Consistent(f: Foreign, m: Manifest, c: Config, bodies: map<Id, string>)
    requires IsMapOrder(PackOrder(m), bodies)
  {
    && |Elements(c.lists)| == |c.lists| && Elements(c.lists) == bodies.Keys
    && MountsSorted(c) && SortedMounts(c) == m.mounts
    && RequirementsOf(f.parse, PackOrder(m), bodies, SortedMounts(c)) == Some(m.requirements)
    && f.hashPolicy(c, bodies) == m.policyHash
  }

  /** `verify_objects`, as a value. */
  ghost function Verified(f: Foreign, m: Manifest, objects: map<Hash, Bytes>): Option<Config> {
    var c := PolicyIn(f, m, objects);
    if !Valid(f, m) || c.None? || !AllPresent(f, m, objects) || ExpectedUpTo(m, |m.packs|) != objects.Keys then None
    else
      PackOrderIsMapOrder(f, m, objects);
      if Consistent(f, m, c.value, BodiesUpTo(f, m, objects, |m.packs|)) then c else None
  }

  /** The pack loop of `verify_objects`. */
  method ReadBodies(f: Foreign, m: Manifest, objects: map<Hash, Bytes>)
    returns (r: Option<map<Id, string>>, expected: set<Hash>)
    requires Valid(f, m)
    ensures r.Some? <==> AllPresent(f, m, objects)
    ensures r.Some? ==> r.value == BodiesUpTo(f, m, objects, |m.packs|) && expected == ExpectedUpTo(m, |m.packs|)
  {
    expected := {m.policyToml.sha256};
    var bodies: map<Id, string> := map[];
    var i := 0;
    while i < |m.packs|
      invariant 0 <= i <= |m.packs| && forall k :: 0 <= k < i ==> PackPresent(f, m.packs[k], objects)
      invariant bodies == BodiesUpTo(f, m, objects, i) && expected == ExpectedUpTo(m, i)
    {
      var pack := m.packs[i];
      if !PackPresent(f, pack, objects) { return None, {}; }
      bodies := bodies[pack.id := BodyOf(f, pack, objects)];
      expected := expected + {pack.blob.sha256};
      i := i + 1;
    }
    return Some(bodies), expected;
  }

  method ReadMounts(c: Config) returns (r: Option<Mounts>)
    ensures r.Some? <==> MountsSorted(c)
    ensures r.Some? ==> r.value == SortedMounts(c)
  {
    var mounts: Mounts := map[];
    var todo := c.profiles.Keys;
    while todo != {}
      invariant todo <= c.profiles.Keys && mounts.Keys == c.profiles.Keys - todo
      invariant forall p :: p in mounts ==> mounts[p] == Sort(c.profiles[p]) && Increasing(mounts[p])
      decreases todo
    {
      var p :| p in todo;
      var lists := Sort(c.profiles[p]);
      if !Increasing(lists) { return None; }
      mounts := mounts[p := lists];
      todo := todo - {p};
    }
    return Some(mounts);
  }

  method VerifyObjects(f: Foreign, m: Manifest, objects: map<Hash, Bytes>) returns (r: Option<Config>)
    requires SourcesFit(f.parse)
    ensures r == Verified(f, m, objects)
  {
    var ok := ValidateManifest(f, m);
    if !ok { return None; }
    var c := PolicyIn(f, m, objects);
    if c.None? { return None; }
    var bodies, expected := ReadBodies(f, m, objects);
    if bodies.None? || expected != objects.Keys { return None; }
    PackOrderIsMapOrder(f, m, objects);
    if |Elements(c.value.lists)| != |c.value.lists| || Elements(c.value.lists) != bodies.value.Keys { return None; }
    var mounts := ReadMounts(c.value);
    if mounts.None? || mounts.value != m.mounts { return None; }
    var counted := ComputeRequirements(f.parse, PackOrder(m), bodies.value, mounts.value);
    if counted != Some(m.requirements) || f.hashPolicy(c.value, bodies.value) != m.policyHash { return None; }
    return c;
  }

  // -------------------------------------------------------------------- round trip

  function WithoutLocal(c: Config): Config { c.(local := "") }

  /**
   Contracts of the foreign code: text and TOML read back what was printed, and the policy hash
   ignores node-local fields.
   */
  ghost predicate Lawful(f: Foreign) {
    && SourcesFit(f.parse) && JsonInverts(f)
    && (forall s: string :: f.fromUtf8(Encode(s)) == Some(s))
    && (forall v: Value :: v.Table? ==> f.fromToml(f.toToml(v)) == Some(v) && f.fromUtf8(f.toToml(v)).Some?)
    && (forall c: Config :: Strip(f.toValue(c)).Some? ==>
        f.fromValue(Strip(f.toValue(c)).value) == Some(WithoutLocal(c)))
    && (forall c: Config, bodies: map<Id, string> :: f.hashPolicy(WithoutLocal(c), bodies) == f.hashPolicy(c, bodies))
  }

  predicate InPlay(s: Snapshot, b: Bytes) {
    b == s.toml || exists id :: id in s.bodies && b == PackBytes(s, id)
  }

  /** The digest tells the bodies in play apart. */
  ghost predicate NoCollision(f: Foreign, s: Snapshot) {
    forall a, b :: InPlay(s, a) && InPlay(s, b) && f.digest(a) == f.digest(b) ==> a == b
  }

  lemma {:induction false} ObjectsInPlay(f: Foreign, s: Snapshot, n: nat)
    requires Complete(s) && n <= |s.ids|
    ensures var objects := ObjectsUpTo(f, s, n);
      && (forall h :: h in objects ==> InPlay(s, objects[h]) && f.digest(objects[h]) == h)
      && f.digest(s.toml) in objects && (forall i :: 0 <= i < n ==> f.digest(PackBytes(s, s.ids[i])) in objects)
  {
    if n > 0 {
      ObjectsInPlay(f, s, n - 1);
      assert InPlay(s, PackBytes(s, s.ids[n - 1]));
    }
  }

  /** Identical bodies may share one object; every reference still finds its own bytes. */
  lemma ObjectsHold(f: Foreign, s: Snapshot, b: Bytes)
    requires Complete(s) && NoCollision(f, s)
    requires b == s.toml || exists i :: 0 <= i < |s.ids| && b == PackBytes(s, s.ids[i])
    ensures var objects := ObjectsUpTo(f, s, |s.ids|); f.digest(b) in objects && objects[f.digest(b)] == b
  {
    ObjectsInPlay(f, s, |s.ids|);
    if b != s.toml {
      var i :| 0 <= i < |s.ids| && b == PackBytes(s, s.ids[i]);
      assert InPlay(s, b);
    }
  }

  predicate Refers(f: Foreign, p: PackRef, s: Snapshot, i: nat)
    requires Complete(s) && i < |s.ids|
  {
    p.id == s.ids[i] && p.blob == RefOf(f, PackBytes(s, s.ids[i]))
  }

  lemma {:induction false} ExpectedKeys(f: Foreign, s: Snapshot, m: Manifest, n: nat)
    requires Complete(s) && n <= |s.ids| == |m.packs| && m.policyToml.sha256 == f.digest(s.toml)
    requires forall i :: 0 <= i < |s.ids| ==> Refers(f, m.packs[i], s, i)
    ensures ExpectedUpTo(m, n) == ObjectsUpTo(f, s, n).Keys
  {
    if n > 0 {
      ExpectedKeys(f, s, m, n - 1);
      assert Refers(f, m.packs[n - 1], s, n - 1);
    }
  }

  predicate ReadsBack(f: Foreign, s: Snapshot, p: PackRef, objects: map<Hash, Bytes>, i: nat)
    requires Complete(s) && i < |s.ids|
  {
    p.id == s.ids[i] && PackPresent(f, p, objects) && BodyOf(f, p, objects) == s.bodies[s.ids[i]]
  }

  function Restricted(bodies: map<Id, string>,
                      ids: seq<Id>): map<Id, string> { map id | id in ids && id in bodies :: bodies[id] }

  lemma RestrictedNext(bodies: map<Id, string>, ids: seq<Id>, n: nat)
    requires 0 < n <= |ids| && ids[n - 1] in bodies
    ensures Restricted(bodies, ids[..n]) == Restricted(bodies, ids[..n - 1])[ids[n - 1] := bodies[ids[n - 1]]]
  {
    assert ids[..n] == ids[..n - 1] + [ids[n - 1]];
  }

  lemma {:induction false} BodiesReadBack(f: Foreign, s: Snapshot, m: Manifest, objects: map<Hash, Bytes>, n: nat)
    requires Complete(s) && n <= |s.ids| == |m.packs|
    requires forall i :: 0 <= i < |s.ids| ==> ReadsBack(f, s, m.packs[i], objects, i)
    ensures forall i :: 0 <= i < n ==> PackPresent(f, m.packs[i], objects)
    ensures BodiesUpTo(f, m, objects, n) == Restricted(s.bodies, s.ids[..n])
  {
    assert forall i :: 0 <= i < n ==> ReadsBack(f, s, m.packs[i], objects, i);
    if n > 0 {
      BodiesReadBack(f, s, m, objects, n - 1);
      RestrictedNext(s.bodies, s.ids, n);
      assert ReadsBack(f, s, m.packs[n - 1], objects, n - 1);
    }
  }

  lemma PackReadsBack(f: Foreign, s: Snapshot, i: nat)
    requires Lawful(f) && Complete(s) && NoCollision(f, s) && i < |s.ids| && Size(s.bodies[s.ids[i]]) <= MAX_PACK_BYTES
    ensures ReadsBack(f, s, PackRefs(f, s)[i], ObjectsUpTo(f, s, |s.ids|), i) && Refers(f, PackRefs(f, s)[i], s, i)
  {
    ObjectsHold(f, s, PackBytes(s, s.ids[i]));
  }

  lemma PolicyReadsBack(f: Foreign, c: Config, s: Snapshot, m: Manifest)
    requires Lawful(f) && Complete(s) && NoCollision(f, s) && c.schema == SCHEMA
    requires Strip(f.toValue(c)).Some? && s.toml == f.toToml(Strip(f.toValue(c)).value) && |s.toml| <= MAX_TOML_BYTES
    requires m.policyToml == RefOf(f, s.toml)
    ensures PolicyIn(f, m, ObjectsUpTo(f, s, |s.ids|)) == Some(WithoutLocal(c))
  {
    ObjectsHold(f, s, s.toml);
    StripIsClean(f.toValue(c));
  }

  /** Every object of a publication is where the receiver looks for it, and the bodies read back. */
  lemma ObjectsReadBack(f: Foreign, s: Snapshot, m: Manifest)
    requires Lawful(f) && Complete(s) && NoCollision(f, s)
    requires forall id :: id in s.ids ==> Size(s.bodies[id]) <= MAX_PACK_BYTES
    requires m.packs == PackRefs(f, s) && m.policyToml == RefOf(f, s.toml)
    ensures var objects := ObjectsUpTo(f, s, |s.ids|);
      && AllPresent(f, m, objects) && ExpectedUpTo(m, |m.packs|) == objects.Keys
      && BodiesUpTo(f, m, objects, |m.packs|) == Restricted(s.bodies, s.ids)
    ensures PackOrder(m) == s.ids
  {
    var objects := ObjectsUpTo(f, s, |s.ids|);
    forall i | 0 <= i < |s.ids| ensures ReadsBack(f, s, m.packs[i], objects, i) && Refers(f, m.packs[i], s, i) {
      PackReadsBack(f, s, i);
    }
    ExpectedKeys(f, s, m, |s.ids|);
    BodiesReadBack(f, s, m, objects, |s.ids|);
    assert s.ids[..|s.ids|] == s.ids;
  }

  lemma SnapshotIsSound(f: Foreign, c: Config, bodies: map<Id, string>, revision: Hash, policyHash: Hash)
    requires FromParts(f, c, bodies, revision, policyHash).Some?
    ensures var s := FromParts(f, c, bodies, revision, policyHash).value;
      && Complete(s) && IsMapOrder(s.ids, s.bodies) && s.bodies == bodies && Restricted(bodies, s.ids) == bodies
      && forall id :: id in s.ids ==> Size(s.bodies[id]) <= MAX_PACK_BYTES
  {
    RosterOrders(c, bodies);
  }

  lemma SignedVerifies(f: Foreign, c: Config, bodies: map<Id, string>, revision: Hash, lineage: Hash, epoch: nat)
    requires Lawful(f)
    requires var s := FromParts(f, c, bodies, revision, f.hashPolicy(c, bodies)); s.Some? && NoCollision(f, s.value)
    ensures var s := FromParts(f, c, bodies, revision, f.hashPolicy(c, bodies)).value;
      Complete(s) && var m := Signed(f, s, lineage, epoch);
      m.Some? && Valid(f, m.value) ==> Verified(f, m.value, ObjectsUpTo(f, s, |s.ids|)) == Some(WithoutLocal(c))
  {
    var s := FromParts(f, c, bodies, revision, f.hashPolicy(c, bodies)).value;
    SnapshotIsSound(f, c, bodies, revision, f.hashPolicy(c, bodies));
    if Signed(f, s, lineage, epoch).Some? {
      var m := Signed(f, s, lineage, epoch).value;
      PolicyReadsBack(f, c, s, m);
      ObjectsReadBack(f, s, m);
      PublishedIsConsistent(f, c, bodies, s, m);
    }
  }

  /** Whatever is published decodes and verifies, and verification returns the policy without its node-local fields. */
  lemma RoundTrip(f: Foreign, c: Config, bodies: map<Id, string>, revision: Hash, lineage: Hash, epoch: nat)
    requires Lawful(f)
    requires var s := FromParts(f, c, bodies, revision, f.hashPolicy(c, bodies)); s.Some? && NoCollision(f, s.value)
    ensures var s := FromParts(f, c, bodies, revision, f.hashPolicy(c, bodies)).value;
      Complete(s) && var p := Publication(f, s, lineage, epoch);
      p.Some? ==>
        var m := DecodeManifest(f, p.value.manifest);
        && m.Some?
        && m.value.artifactHash == p.value.artifactHash
        && Verified(f, m.value, p.value.objects) == Some(WithoutLocal(c))
  {
    var s := FromParts(f, c, bodies, revision, f.hashPolicy(c, bodies)).value;
    SignedVerifies(f, c, bodies, revision, lineage, epoch);
    if Publication(f, s, lineage, epoch).Some? { ManifestRoundTrip(f, Signed(f, s, lineage, epoch).value); }
  }

  lemma PublishedIsConsistent(f: Foreign, c: Config, bodies: map<Id, string>, s: Snapshot, m: Manifest)
    requires Lawful(f) && RosterMatches(c, bodies) && MountsMatch(c) && IsMapOrder(s.ids, bodies)
    requires PackOrder(m) == s.ids && m.mounts == SortedMounts(c) && m.policyHash == f.hashPolicy(c, bodies)
    requires RequirementsOf(f.parse, s.ids, bodies, SortedMounts(c)) == Some(m.requirements)
    ensures Consistent(f, m, WithoutLocal(c), bodies)
  {
    assert SortedMounts(WithoutLocal(c)) == SortedMounts(c);
    assert Elements(c.lists) == bodies.Keys;
  }
}
