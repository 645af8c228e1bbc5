/**
 What acceptance of an artifact means. Every byte accepted is pinned by a digest
 of the manifest, so an accepted set of objects under a published manifest is the
 publication's own.
 */
module ArtifactIntegrity {
  import opened Common
  import opened Utf8
  import opened Requirements
  import opened Artifact
  import opened ArtifactVerify

  // ------------------------------------------------------------------ what is accepted

  /** The manifest refers to this object. */
  predicate Cites(m: Manifest, h: Hash) {
    h == m.policyToml.sha256 || exists i :: 0 <= i < |m.packs| && m.packs[i].blob.sha256 == h
  }

  lemma {:induction false} ExpectedIsReferred(m: Manifest, n: nat, h: Hash)
    requires n <= |m.packs|
    ensures h in ExpectedUpTo(m, n) <==>
      h == m.policyToml.sha256 || exists i :: 0 <= i < n && m.packs[i].blob.sha256 == h
  {
    if n > 0 { ExpectedIsReferred(m, n - 1, h); }
  }

  /** Accepted objects are exactly those the manifest refers to, and each has the digest it is filed under. */
  lemma AcceptedIsAttested(f: Foreign, m: Manifest, objects: map<Hash, Bytes>)
    requires Verified(f, m, objects).Some?
    ensures forall h :: h in objects <==> Cites(m, h)
    ensures forall h :: h in objects ==> f.digest(objects[h]) == h
    ensures m.policyToml.sha256 in objects && |objects[m.policyToml.sha256]| == m.policyToml.bytes
    ensures forall i :: 0 <= i < |m.packs| ==>
      var ref := m.packs[i].blob; ref.sha256 in objects && |objects[ref.sha256]| == ref.bytes
  {
    forall h ensures h in objects <==> Cites(m, h) { ExpectedIsReferred(m, |m.packs|, h); }
    forall i | 0 <= i < |m.packs|
      ensures var ref := m.packs[i].blob;
        && ref.sha256 in objects
        && |objects[ref.sha256]| == ref.bytes
        && f.digest(objects[ref.sha256]) == ref.sha256
    {
      assert PackPresent(f, m.packs[i], objects);
    }
  }

  /** The pack bodies, by the manifest's references. */
  predicate BodiesAre(f: Foreign, m: Manifest, objects: map<Hash, Bytes>, bodies: map<Id, string>) {
    && bodies.Keys == Ids(m.packs)
    && forall i :: 0 <= i < |m.packs| ==>
         var p := m.packs[i];
         p.blob.sha256 in objects && p.id in bodies && f.fromUtf8(objects[p.blob.sha256]) == Some(bodies[p.id])
  }

  lemma ReadBodiesAre(f: Foreign, m: Manifest, objects: map<Hash, Bytes>, bodies: map<Id, string>)
    requires PacksInOrder(m.packs, |m.packs|) && AllPresent(f, m, objects) && BodiesAre(f, m, objects, bodies)
    ensures BodiesUpTo(f, m, objects, |m.packs|) == bodies
  {
    var read := BodiesUpTo(f, m, objects, |m.packs|);
    BodyKeys(f, m, objects, |m.packs|);
    assert m.packs[..|m.packs|] == m.packs;
    forall id | id in bodies ensures read[id] == bodies[id] {
      var i :| 0 <= i < |m.packs| && m.packs[i].id == id;
      BodyAt(f, m, objects, |m.packs|, i);
    }
  }

  const LOCAL_SECTIONS :=
    {"includes", "custom_list_limits", "tracking", "socket", "api", "resource_budget", "backup", "cluster", "node"}
  const LOCAL_FIELDS := {"listen", "log_level", "tcp_timeout_secs"}

  /** No node-local or excluded section travels, and no node-local server field. */
  predicate NothingLocal(v: Value) {
    && v.Table?
    && LOCAL_SECTIONS !! v.entries.Keys
    && ("server" in v.entries ==>
          v.entries["server"].Table? && LOCAL_FIELDS !! v.entries["server"].entries.Keys)
  }

  lemma CleanIsNothingLocal(v: Value)
    ensures Clean(v) <==> NothingLocal(v)
  {
    var names := EXCLUDED_SECTIONS + NODE_LOCAL_SECTIONS;
    assert names == ["includes", "custom_list_limits", "tracking", "socket", "api", "resource_budget", "backup",
                     "cluster", "node"];
    assert forall k :: k in names <==> k in LOCAL_SECTIONS;
  }

  /**
   The accepted policy is the document filed under the manifest's reference; it
   names exactly the packs and mounts of the manifest, carries nothing node-local,
   and it, its bodies and their recount are what the manifest declares.
   */
  lemma AcceptedPolicy(f: Foreign, m: Manifest, objects: map<Hash, Bytes>, bodies: map<Id, string>)
    requires Verified(f, m, objects).Some? && BodiesAre(f, m, objects, bodies)
    ensures var c, doc := Verified(f, m, objects).value, f.fromToml(objects[m.policyToml.sha256]);
      && m.format == 2 && m.schema == 5 && c.schema == 5 && m.epoch > 0
      && m.grammar == "1" && m.costVersion == 2 && m.requirementsVersion == 1 && m.compilerVersion == 1
      && doc.Some? && NothingLocal(doc.value) && f.fromValue(doc.value) == Some(c)
      && Distinct(c.lists) && (forall id :: id in c.lists <==> id in bodies)
      && m.mounts.Keys == c.profiles.Keys
      && (forall p :: p in c.profiles ==> multiset(m.mounts[p]) == multiset(c.profiles[p]) && Increasing(m.mounts[p]))
    ensures f.hashPolicy(Verified(f, m, objects).value, bodies) == m.policyHash
    ensures IsMapOrder(PackOrder(m), bodies)
    ensures RequirementsOf(f.parse, PackOrder(m), bodies, m.mounts) == Some(m.requirements)
  {
    var c := Verified(f, m, objects).value;
    ReadBodiesAre(f, m, objects, bodies);
    PackOrderIsMapOrder(f, m, objects);
    assert Consistent(f, m, c, bodies);
    CleanIsNothingLocal(f.fromToml(objects[m.policyToml.sha256]).value);
    DistinctElements(c.lists);
    assert forall id :: id in c.lists <==> id in Elements(c.lists);
    forall p | p in c.profiles ensures multiset(m.mounts[p]) == multiset(c.profiles[p]) && Increasing(m.mounts[p]) {
      SortKeeps(c.profiles[p]);
    }
  }

  /** An artifact whose declared policy hash is not that of its own policy and bodies is refused. */
  lemma WrongPolicyHashIsRefused(f: Foreign, m: Manifest, objects: map<Hash, Bytes>, c: Config, bodies: map<Id, string>)
    requires BodiesAre(f, m, objects, bodies) && f.hashPolicy(c, bodies) != m.policyHash
    ensures Verified(f, m, objects) != Some(c)
  {
    if Verified(f, m, objects) == Some(c) { AcceptedPolicy(f, m, objects, bodies); }
  }

  // ----------------------------------------------------- only the publication is accepted

  /** The digest tells the offered bytes from the published ones. */
  ghost predicate TellsApart(f: Foreign, s: Snapshot, objects: map<Hash, Bytes>) {
    forall h, b :: h in objects && InPlay(s, b) && f.digest(objects[h]) == f.digest(b) ==> objects[h] == b
  }

  /** Under the manifest of a publication nothing but the publication's own objects is accepted. */
  lemma AcceptedIsPublished(f: Foreign, s: Snapshot, lineage: Hash, epoch: nat, objects: map<Hash, Bytes>)
    requires Complete(s) && Signed(f, s, lineage, epoch).Some? && TellsApart(f, s, objects)
    requires Verified(f, Signed(f, s, lineage, epoch).value, objects).Some?
    ensures objects == ObjectsUpTo(f, s, |s.ids|)
  {
    var m, published := Signed(f, s, lineage, epoch).value, ObjectsUpTo(f, s, |s.ids|);
    AcceptedIsAttested(f, m, objects);
    ObjectsInPlay(f, s, |s.ids|);
    forall i | 0 <= i < |s.ids| ensures Refers(f, m.packs[i], s, i) {}
    ExpectedKeys(f, s, m, |s.ids|);
    assert objects.Keys == published.Keys;
    forall h | h in published ensures objects[h] == published[h] {
      assert f.digest(objects[h]) == f.digest(published[h]) && InPlay(s, published[h]);
    }
  }

  /** So what a receiver accepts under a published manifest is the published policy without its node-local fields. */
  lemma OnlyThePolicyIsAccepted(f: Foreign, c: Config, bodies: map<Id, string>, revision: Hash, lineage: Hash,
                                epoch: nat, objects: map<Hash, Bytes>)
    requires Lawful(f)
    requires var s := FromParts(f, c, bodies, revision, f.hashPolicy(c, bodies));
      s.Some? && NoCollision(f, s.value) && TellsApart(f, s.value, objects)
    ensures var s := FromParts(f, c, bodies, revision, f.hashPolicy(c, bodies)).value;
      Complete(s) && var p := Publication(f, s, lineage, epoch);
      p.Some? ==>
        var m := DecodeManifest(f, p.value.manifest);
        && m.Some?
        && Verified(f, m.value, objects) ==
           if objects == p.value.objects then Some(WithoutLocal(c)) else None
  {
    var s := FromParts(f, c, bodies, revision, f.hashPolicy(c, bodies)).value;
    RoundTrip(f, c, bodies, revision, lineage, epoch);
    if Publication(f, s, lineage, epoch).Some? {
      var m := Signed(f, s, lineage, epoch).value;
      ManifestRoundTrip(f, m);
      if Verified(f, m, objects).Some? { AcceptedIsPublished(f, s, lineage, epoch, objects); }
    }
  }

  // ------------------------------------------------------------ what can be published

  /** Stripping drops exactly the node-local and excluded sections and the node-local server fields. */
  lemma StripDropsExactly(v: Value)
    ensures Strip(v).Some? <==> v.Table? && ("server" in v.entries ==> v.entries["server"].Table?)
    ensures Strip(v).Some? ==>
      var w := Strip(v).value;
      && NothingLocal(w)
      && w.entries.Keys == v.entries.Keys -
           LOCAL_SECTIONS
      && (forall k :: k in w.entries && k != "server" ==> w.entries[k] == v.entries[k])
      && ("server" in w.entries ==>
            var a, b := v.entries["server"].entries, w.entries["server"].entries;
            && b.Keys == a.Keys - LOCAL_FIELDS
            && forall k :: k in b ==> b[k] == a[k])
  {
    ServerIsReplicated();
    SectionNames();
    if Strip(v).Some? {
      StripIsClean(v);
      CleanIsNothingLocal(Strip(v).value);
    }
  }

  lemma SectionNames()
    ensures forall k :: k in EXCLUDED_SECTIONS + NODE_LOCAL_SECTIONS <==>
      k in LOCAL_SECTIONS
    ensures forall k :: k in NODE_LOCAL_SERVER_FIELDS <==> k in LOCAL_FIELDS
  {
    assert EXCLUDED_SECTIONS + NODE_LOCAL_SECTIONS ==
      ["includes", "custom_list_limits", "tracking", "socket", "api", "resource_budget", "backup", "cluster", "node"];
  }

  lemma {:induction false} IncreasingSorts(s: seq<Id>)
    ensures Increasing(Sort(s)) <==> Distinct(s)
  {
    var t := Sort(s);
    SortKeeps(s);
    if Distinct(s) {
      forall i | 0 < i < |t| ensures t[i - 1] < t[i] {
        if t[i - 1] == t[i] {
          DistinctCounts(t, i - 1, i);
          DistinctCountsOne(s, t[i]);
        }
      }
    }
    if Increasing(t) {
      forall i, j | 0 <= i < j < |t| ensures t[i] != t[j] { IncreasingIsDistinct(t, i, j); }
      forall i, j | 0 <= i < j < |s| ensures s[i] != s[j] {
        if s[i] == s[j] {
          DistinctCounts(s, i, j);
          DistinctCountsOne(t, s[i]);
        }
      }
    }
  }

  /** The declarations of a policy are in order: packs and mounts named once, and all of them there. */
  ghost predicate Declares(c: Config, bodies: map<Id, string>) {
    && Distinct(c.lists)
    && (forall id :: id in c.lists <==> id in bodies)
    && forall p :: p in c.profiles ==> Distinct(c.profiles[p]) && forall id :: id in c.profiles[p] ==> id in bodies
  }

  lemma {:induction false} ElementsOfDistinct(s: seq<Id>)
    requires Distinct(s)
    ensures |Elements(s)| == |s|
  {
    if s != [] {
      ElementsOfDistinct(s[1..]);
      assert Elements(s) == Elements(s[1..]) + {s[0]} by { assert s == [s[0]] + s[1..]; }
      assert s[0] !in s[1..];
    }
  }

  lemma DeclaresMatches(c: Config, bodies: map<Id, string>)
    ensures Declares(c, bodies) <==> RosterMatches(c, bodies) && MountsMatch(c)
  {
    if RosterMatches(c, bodies) { DistinctElements(c.lists); }
    if Distinct(c.lists) {
      ElementsOfDistinct(c.lists);
      if forall id :: id in c.lists <==> id in bodies {
        assert Elements(c.lists) == bodies.Keys;
      }
    }
    forall p | p in c.profiles ensures Increasing(Sort(c.profiles[p])) <==> Distinct(c.profiles[p]) {
      IncreasingSorts(c.profiles[p]);
    }
  }

  lemma MountableProfiles(parse: Parser, c: Config, bodies: map<Id, string>)
    requires SourcesFit(parse) && RosterMatches(c, bodies) && MountsMatch(c)
    requires IsMapOrder(Sort(c.lists), bodies) && Acceptable(parse, Sort(c.lists), bodies)
    ensures Mountable(CountsOf(parse, bodies), SortedMounts(c))
  {
    forall p | p in SortedMounts(c) ensures ProfileSum(CountsOf(parse, bodies), SortedMounts(c), p).Some? {
      SortMembers(c.profiles[p]);
      ProfileWithinStore(parse, Sort(c.lists), bodies, SortedMounts(c)[p]);
    }
  }

  /** A policy is captured exactly if it declares what it has, every body parses, and the sizes are in bounds. */
  lemma CapturedExactly(f: Foreign, c: Config, bodies: map<Id, string>, revision: Hash, policyHash: Hash)
    requires SourcesFit(f.parse)
    ensures FromParts(f, c, bodies, revision, policyHash).Some? <==>
      && c.schema == 5
      && Declares(c, bodies)
      && Strip(f.toValue(c)).Some?
      && |f.toToml(Strip(f.toValue(c)).value)| <= 16 * 1024 * 1024
      && (forall id :: id in bodies ==> Size(bodies[id]) <= 4 * 1024 * 1024 && PackCounts(f.parse, bodies[id]).Some?)
      && (forall id :: id in Sort(c.lists) ==> id in bodies)
      && TotalBytes(bodies, Sort(c.lists)) <= 64 * 1024 * 1024
  {
    DeclaresMatches(c, bodies);
    if RosterMatches(c, bodies) && MountsMatch(c) {
      RosterOrders(c, bodies);
      if Acceptable(f.parse, Sort(c.lists), bodies) { MountableProfiles(f.parse, c, bodies); }
    }
  }

  // ------------------------------------------------------- what is captured is published

  ghost predicate HashesAreHashes(f: Foreign) {
    forall b :: IsHash(f.digest(b)) && IsHash(f.sign(b))
  }

  lemma {:induction false} DeclaredIsTotal(f: Foreign, s: Snapshot, n: nat)
    requires Complete(s) && n <= |s.ids|
    ensures DeclaredBytes(PackRefs(f, s), n) == TotalBytes(s.bodies, s.ids[..n])
  {
    if n > 0 {
      DeclaredIsTotal(f, s, n - 1);
      BytesOfPrefix(s.bodies, s.ids, n);
    }
  }

  lemma PackIdsAreBodies(f: Foreign, s: Snapshot)
    requires Complete(s) && IsMapOrder(s.ids, s.bodies)
    ensures Ids(PackRefs(f, s)) == s.bodies.Keys
  {
    var packs := PackRefs(f, s);
    forall id ensures id in Ids(packs) <==> id in s.bodies {
      if id in s.bodies {
        var i :| 0 <= i < |s.ids| && s.ids[i] == id;
        assert packs[i].id == id;
      }
      if id in Ids(packs) {
        var i :| 0 <= i < |packs| && packs[i].id == id;
        assert s.ids[i] in s.ids;
      }
    }
  }

  /** What the caller adds to a capture is well-formed, and the whole fits. */
  predicate Publishable(f: Foreign, s: Snapshot, lineage: Hash, epoch: nat, m: Manifest) {
    && IsHash(lineage) && IsHash(s.configRevision) && IsHash(s.policyHash) && epoch > 0
    && |s.ids| < 1000
    && s.requirements.packBytes + |s.toml| <= 50 * 1024 * 1024
    && (forall p :: p in s.mounts ==> f.validId(p))
    && |f.toJson(m.(artifactHash := ""))| <= 1024 * 1024 && |f.toJson(m)| <= 1024 * 1024
  }

  lemma SignedIsValid(f: Foreign, c: Config, bodies: map<Id, string>, s: Snapshot, m: Manifest)
    requires HashesAreHashes(f) && Complete(s) && IsMapOrder(s.ids, s.bodies) && s.bodies == bodies
    requires Declares(c, bodies) && s.ids == Sort(c.lists) && s.mounts == SortedMounts(c)
    requires RequirementsOf(f.parse, s.ids, bodies, s.mounts) == Some(s.requirements) && |s.toml| <= MAX_TOML_BYTES
    requires m == Unsigned(f, s, m.lineage, m.epoch).(artifactHash := m.artifactHash)
    requires CanonicalHash(f, m) == Some(m.artifactHash)
    ensures Publishable(f, s, m.lineage, m.epoch, m) ==> Valid(f, m)
    ensures Valid(f, m) && |f.toJson(m)| <= MAX_MANIFEST_BYTES ==> Publishable(f, s, m.lineage, m.epoch, m)
  {
    DeclaredIsTotal(f, s, |s.ids|);
    assert s.ids[..|s.ids|] == s.ids;
    PackIdsAreBodies(f, s);
    AcceptableIsCounted(f.parse, s.ids, bodies);
    SignedMounts(f, c, bodies, s, m);
    SignedPacks(f, s, m);
  }

  lemma SignedPacks(f: Foreign, s: Snapshot, m: Manifest)
    requires HashesAreHashes(f) && Complete(s) && IsMapOrder(s.ids, s.bodies) && m.packs == PackRefs(f, s)
    requires forall id :: id in s.ids ==> Size(s.bodies[id]) <= MAX_PACK_BYTES
    ensures PacksInOrder(m.packs, |m.packs|)
  {
  }

  lemma SignedMounts(f: Foreign, c: Config, bodies: map<Id, string>, s: Snapshot, m: Manifest)
    requires Complete(s) && IsMapOrder(s.ids, s.bodies) && s.bodies == bodies
    requires Declares(c, bodies) && m.mounts == SortedMounts(c) && m.packs == PackRefs(f, s)
    ensures MountsDeclared(f, m) <==> forall p :: p in m.mounts ==> f.validId(p)
  {
    PackIdsAreBodies(f, s);
    forall p | p in m.mounts ensures Increasing(m.mounts[p]) && forall id :: id in m.mounts[p] ==> id in Ids(m.packs) {
      IncreasingSorts(c.profiles[p]);
      SortMembers(c.profiles[p]);
    }
  }

  /** Every capture can be published, exactly if what the caller adds is well-formed and the whole fits. */
  lemma PublishedExactly(f: Foreign, c: Config, bodies: map<Id, string>, revision: Hash, policyHash: Hash,
                         lineage: Hash, epoch: nat)
    requires HashesAreHashes(f) && FromParts(f, c, bodies, revision, policyHash).Some?
    ensures var s := FromParts(f, c, bodies, revision, policyHash).value;
      && Complete(s)
      && var hash := f.sign(f.toJson(Unsigned(f, s, lineage, epoch)));
         Publication(f, s, lineage, epoch).Some? <==>
           Publishable(f, s, lineage, epoch, Unsigned(f, s, lineage, epoch).(artifactHash := hash))
  {
    var s := FromParts(f, c, bodies, revision, policyHash).value;
    SnapshotIsSound(f, c, bodies, revision, policyHash);
    DeclaresMatches(c, bodies);
    var u := Unsigned(f, s, lineage, epoch);
    assert u.(artifactHash := "") == u;
    if |f.toJson(u)| <= MAX_MANIFEST_BYTES {
      SignedIsValid(f, c, bodies, s, Signed(f, s, lineage, epoch).value);
    }
  }
}
