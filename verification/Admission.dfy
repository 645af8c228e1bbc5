/** Receiver-owned limits gate a complete artifact before anything is persisted. */
module Admission {
  import opened Common
  import opened Text
  import opened Utf8
  import opened Requirements
  import opened Artifact
  import opened ArtifactVerify
  import opened RuleCounts

  /** Projections counted per list and mount. */
  datatype Projection = Projection(indexed: nat, advanced: nat, regex: nat)

  const EMPTY := Projection(0, 0, 0)
  const USIZE_MAX := U64_MAX

  datatype Limits = Limits(
    lists: nat, fileBytes: nat, totalBytes: nat, rulesPerList: nat, ruleBytes: nat,
    store: Projection, profile: Projection, total: Projection)

  const CEILINGS := Limits(
    1024, 4 * 1024 * 1024, 64 * 1024 * 1024, 100_000, 16384,
    Projection(1_000_000, 4096, 256), Projection(250_000, 512, 64), Projection(1_000_000, 4096, 256))

  predicate InRange(n: nat, ceiling: nat) { 0 < n <= ceiling }

  predicate ProjectionInRange(p: Projection, c: Projection) {
    InRange(p.indexed, c.indexed) && InRange(p.advanced, c.advanced) && InRange(p.regex, c.regex)
  }

  predicate ValidLimits(l: Limits) {
    && InRange(l.lists, CEILINGS.lists)
    && InRange(l.fileBytes, CEILINGS.fileBytes)
    && InRange(l.totalBytes, CEILINGS.totalBytes)
    && InRange(l.rulesPerList, CEILINGS.rulesPerList) && InRange(l.ruleBytes, CEILINGS.ruleBytes)
    && ProjectionInRange(l.store, CEILINGS.store)
    && ProjectionInRange(l.profile, CEILINGS.profile)
    && ProjectionInRange(l.total, CEILINGS.total)
  }

  function Project(c: Counts): Projection { Projection(c.indexed, c.advanced, c.regex) }

  predicate Under(p: Projection,
                  l: Projection) { p.indexed <= l.indexed && p.advanced <= l.advanced && p.regex <= l.regex }

  function Sum(a: Projection, b: Projection): Projection {
    Projection(a.indexed + b.indexed, a.advanced + b.advanced, a.regex + b.regex)
  }

  /** `ProjectionCounts::checked_add`. */
  function CheckedSumOf(a: Projection, b: Projection): Option<Projection> {
    var s := Sum(a, b);
    if s.indexed <= USIZE_MAX && s.advanced <= USIZE_MAX && s.regex <= USIZE_MAX then Some(s) else None
  }

  // ---------------------------------------------------------------------- preflight

  /** The sum over the first `n` profiles, in map order. */
  function ProfileTotal(profiles: map<string, Counts>, names: seq<string>, n: nat): Projection
    requires n <= |names| && forall p :: p in names ==> p in profiles
  {
    if n == 0 then EMPTY else Sum(ProfileTotal(profiles, names, n - 1), Project(profiles[names[n - 1]]))
  }

  predicate Names(names: seq<string>, profiles: map<string, Counts>) {
    && (forall i, j :: 0 <= i < j < |names| ==> names[i] != names[j])
    && (forall p :: p in names ==> p in profiles) && (forall p :: p in profiles ==> p in names)
  }

  predicate PackUnder(m: Manifest, p: PackRef, l: Limits) {
    && p.blob.bytes <= l.fileBytes && p.id in m.requirements.packs
    && m.requirements.packs[p.id].sourceRules <= l.rulesPerList
    && m.requirements.packs[p.id].maxRuleBytes <= l.ruleBytes
  }

  predicate PacksUnder(m: Manifest, l: Limits, n: nat)
    requires n <= |m.packs|
  {
    forall i :: 0 <= i < n ==> PackUnder(m, m.packs[i], l)
  }

  predicate ProfilesUnder(profiles: map<string, Counts>, names: seq<string>, l: Limits, n: nat)
    requires n <= |names| && forall p :: p in names ==> p in profiles
  {
    forall i :: 0 <= i < n ==> Under(Project(profiles[names[i]]), l.profile)
  }

  /** Every declared counter within its limit. */
  predicate DeclaredUnder(m: Manifest, l: Limits, names: seq<string>)
    requires Names(names, m.requirements.profiles)
  {
    && |m.packs| <= l.lists && m.requirements.packBytes <= l.totalBytes && PacksUnder(m, l, |m.packs|)
    && Under(Project(m.requirements.store), l.store)
    && ProfilesUnder(m.requirements.profiles, names, l, |names|)
    && Under(ProfileTotal(m.requirements.profiles, names, |names|), l.total)
  }

  method CheckPacks(m: Manifest, l: Limits) returns (ok: bool)
    ensures ok <==> PacksUnder(m, l, |m.packs|)
  {
    var i := 0;
    while i < |m.packs|
      invariant 0 <= i <= |m.packs| && PacksUnder(m, l, i)
    {
      if !PackUnder(m, m.packs[i], l) { return false; }
      i := i + 1;
    }
    return true;
  }

  lemma {:induction false} TotalGrows(profiles: map<string, Counts>, names: seq<string>, i: nat, n: nat)
    requires i <= n <= |names| && forall p :: p in names ==> p in profiles
    ensures Under(ProfileTotal(profiles, names, i), ProfileTotal(profiles, names, n))
  {
    if i < n { TotalGrows(profiles, names, i, n - 1); }
  }

  /** The profile loop: an overflow is a total above every limit. */
  method CheckProfiles(profiles: map<string, Counts>, names: seq<string>, l: Limits) returns (ok: bool)
    requires Names(names, profiles) && ValidLimits(l)
    ensures ok <==> ProfilesUnder(profiles, names, l, |names|) && Under(ProfileTotal(profiles, names, |names|), l.total)
  {
    var total, i := EMPTY, 0;
    while i < |names|
      invariant 0 <= i <= |names| && ProfilesUnder(profiles, names, l, i) && total == ProfileTotal(profiles, names, i)
    {
      var counts := Project(profiles[names[i]]);
      if !Under(counts, l.profile) { return false; }
      var next := CheckedSumOf(total, counts);
      i := i + 1;
      if next.None? {
        TotalGrows(profiles, names, i, |names|);
        return false;
      }
      total := next.value;
    }
    return Under(total, l.total);
  }

  method Preflight(m: Manifest, l: Limits, names: seq<string>) returns (ok: bool)
    requires Names(names, m.requirements.profiles) && ValidLimits(l)
    ensures ok <==> DeclaredUnder(m, l, names)
  {
    if |m.packs| > l.lists || m.requirements.packBytes > l.totalBytes { return false; }
    ok := CheckPacks(m, l);
    if !ok || !Under(Project(m.requirements.store), l.store) { return false; }
    ok := CheckProfiles(m.requirements.profiles, names, l);
  }

  // -------------------------------------------------------------- receiver soundness

  ghost predicate DecodesExactly(f: Foreign) {
    forall b: Bytes :: f.fromUtf8(b).Some? ==> Encode(f.fromUtf8(b).value) == b
  }

  /** The limits hold of what the pack bodies themselves count to. */
  ghost predicate BodyUnder(f: Foreign, body: string, l: Limits) {
    && Size(body) <= l.fileBytes
    && PackCounts(f.parse, body).Some?
    && PackCounts(f.parse, body).value.sourceRules <= l.rulesPerList
    && forall i :: 0 <= i < |Lines(body)| && IsRule(Lines(body)[i]) ==> Size(Lines(body)[i]) <= l.ruleBytes
  }

  ghost predicate CountsUnder(packs: map<Id, Counts>, ids: seq<Id>, mounts: Mounts, l: Limits, names: seq<string>)
    requires (forall id :: id in ids ==> id in packs)
    requires Mountable(packs, mounts)
    requires Names(names, ProfilesOf(packs, mounts))
  {
    && Under(Project(Total(packs, ids)), l.store)
    && ProfilesUnder(ProfilesOf(packs, mounts), names, l, |names|)
    && Under(ProfileTotal(ProfilesOf(packs, mounts), names, |names|), l.total)
  }

  /** Verification makes the declared counters the real ones. */
  lemma DeclaredIsRecounted(f: Foreign, m: Manifest, objects: map<Hash, Bytes>)
    requires Verified(f, m, objects).Some?
    ensures Valid(f, m) && AllPresent(f, m, objects)
    ensures var bodies := BodiesUpTo(f, m, objects, |m.packs|); var packs := CountsOf(f.parse, bodies);
      && IsMapOrder(PackOrder(m), bodies) && Acceptable(f.parse, PackOrder(m), bodies) && Mountable(packs, m.mounts)
      && (forall id :: id in PackOrder(m) ==> id in packs)
      && m.requirements.packBytes == TotalBytes(bodies, PackOrder(m)) && m.requirements.packs == packs
      && m.requirements.store == Total(packs, PackOrder(m)) && m.requirements.profiles == ProfilesOf(packs, m.mounts)
  {
    PackOrderIsMapOrder(f, m, objects);
    AcceptableIsCounted(f.parse, PackOrder(m), BodiesUpTo(f, m, objects, |m.packs|));
  }

  lemma PackFits(f: Foreign, m: Manifest, objects: map<Hash, Bytes>, l: Limits, i: nat)
    requires DecodesExactly(f) && Verified(f, m, objects).Some? && i < |m.packs| && PackUnder(m, m.packs[i], l)
    ensures AllPresent(f, m, objects)
    ensures PackPresent(f, m.packs[i], objects)
    ensures BodyUnder(f, BodyOf(f, m.packs[i], objects), l)
  {
    DeclaredIsRecounted(f, m, objects);
    assert PackPresent(f, m.packs[i], objects);
    BodyAt(f, m, objects, |m.packs|, i);
    var body := BodyOf(f, m.packs[i], objects);
    forall k | 0 <= k < |Lines(body)| && IsRule(Lines(body)[k]) ensures Size(Lines(body)[k]) <= l.ruleBytes {
      RuleFitsLongest(f.parse, body, k);
    }
  }

  /**
   Whatever the manifest declared: once preflight and verification accept, the
   counts of the actual bodies fit every local limit.
   */
  lemma AcceptedFits(f: Foreign, m: Manifest, objects: map<Hash, Bytes>, l: Limits, names: seq<string>)
    requires DecodesExactly(f)
    requires Verified(f, m, objects).Some?
    requires Names(names, m.requirements.profiles)
    requires DeclaredUnder(m, l, names)
    ensures AllPresent(f, m, objects) && |m.packs| <= l.lists
    ensures forall i :: 0 <= i < |m.packs| ==>
      PackPresent(f, m.packs[i], objects) && BodyUnder(f, BodyOf(f, m.packs[i], objects), l)
    ensures var bodies := BodiesUpTo(f, m, objects, |m.packs|); var packs := CountsOf(f.parse, bodies);
      && IsMapOrder(PackOrder(m), bodies) && TotalBytes(bodies, PackOrder(m)) <= l.totalBytes
      && (forall id :: id in PackOrder(m) ==> id in packs)
      && Mountable(packs, m.mounts)
      && Names(names, ProfilesOf(packs, m.mounts))
      && CountsUnder(packs, PackOrder(m), m.mounts, l, names)
  {
    DeclaredIsRecounted(f, m, objects);
    forall i | 0 <= i < |m.packs|
      ensures PackPresent(f, m.packs[i], objects) && BodyUnder(f, BodyOf(f, m.packs[i], objects), l)
    {
      assert PackUnder(m, m.packs[i], l);
      PackFits(f, m, objects, l, i);
    }
  }

  ghost predicate BodiesUnder(f: Foreign, bodies: map<Id, string>, l: Limits) {
    forall id :: id in bodies ==> BodyUnder(f, bodies[id], l)
  }

  function Summed(profiles: map<string, Counts>, names: seq<string>, n: nat, get: Counts -> nat): nat
    requires n <= |names| && forall p :: p in names ==> p in profiles
  {
    if n == 0 then 0 else Summed(profiles, names, n - 1, get) + get(profiles[names[n - 1]])
  }

  lemma {:induction false} ProfileTotalAddsUp(profiles: map<string, Counts>, names: seq<string>, n: nat)
    requires n <= |names| && forall p :: p in names ==> p in profiles
    ensures var t := ProfileTotal(profiles, names, n);
      && t.indexed == Summed(profiles, names, n, (c: Counts) => c.indexed)
      && t.advanced == Summed(profiles, names, n, (c: Counts) => c.advanced)
      && t.regex == Summed(profiles, names, n, (c: Counts) => c.regex)
  {
    if n > 0 { ProfileTotalAddsUp(profiles, names, n - 1); }
  }

  /** Store, every profile, and all profiles together are within their limits, counter by counter. */
  ghost predicate TotalsUnder(packs: map<Id, Counts>, ids: seq<Id>, mounts: Mounts, l: Limits, names: seq<string>)
    requires forall id :: id in ids ==> id in packs
    requires Mountable(packs, mounts)
    requires Names(names, ProfilesOf(packs, mounts))
  {
    var store, profiles := Total(packs, ids), ProfilesOf(packs, mounts);
    && store.indexed <= l.store.indexed && store.advanced <= l.store.advanced && store.regex <= l.store.regex
    && (forall p :: p in profiles ==>
          && profiles[p].indexed <= l.profile.indexed
          && profiles[p].advanced <= l.profile.advanced
          && profiles[p].regex <= l.profile.regex)
    && Summed(profiles, names, |names|, (c: Counts) => c.indexed) <= l.total.indexed
    && Summed(profiles, names, |names|, (c: Counts) => c.advanced) <= l.total.advanced
    && Summed(profiles, names, |names|, (c: Counts) => c.regex) <= l.total.regex
  }

  lemma TotalsUnderMeans(packs: map<Id, Counts>, ids: seq<Id>, mounts: Mounts, l: Limits, names: seq<string>)
    requires forall id :: id in ids ==> id in packs
    requires Mountable(packs, mounts)
    requires Names(names, ProfilesOf(packs, mounts))
    ensures CountsUnder(packs, ids, mounts, l, names) <==> TotalsUnder(packs, ids, mounts, l, names)
  {
    ProfileTotalAddsUp(ProfilesOf(packs, mounts), names, |names|);
  }

  /** What a receiver with these limits has room for, measured on the bodies themselves. */
  ghost predicate RoomFor(f: Foreign, m: Manifest, objects: map<Hash, Bytes>, l: Limits, names: seq<string>)
    requires Verified(f, m, objects).Some? && Names(names, m.requirements.profiles)
  {
    DeclaredIsRecounted(f, m, objects);
    var bodies := BodiesUpTo(f, m, objects, |m.packs|);
    && |m.packs| <= l.lists
    && BodiesUnder(f, bodies, l)
    && TotalBytes(bodies, PackOrder(m)) <= l.totalBytes
    && TotalsUnder(CountsOf(f.parse, bodies), PackOrder(m), m.mounts, l, names)
  }

  lemma BodyDeclares(f: Foreign, m: Manifest, objects: map<Hash, Bytes>, l: Limits, i: nat)
    requires DecodesExactly(f) && Verified(f, m, objects).Some? && i < |m.packs|
    ensures AllPresent(f, m, objects) && m.packs[i].id in BodiesUpTo(f, m, objects, |m.packs|)
    ensures BodyUnder(f, BodiesUpTo(f, m, objects, |m.packs|)[m.packs[i].id], l) <==> PackUnder(m, m.packs[i], l)
  {
    DeclaredIsRecounted(f, m, objects);
    assert PackPresent(f, m.packs[i], objects);
    BodyAt(f, m, objects, |m.packs|, i);
    var body := BodyOf(f, m.packs[i], objects);
    CountersMean(f.parse, body);
    if PackUnder(m, m.packs[i], l) { PackFits(f, m, objects, l, i); }
  }

  lemma BodiesDeclare(f: Foreign, m: Manifest, objects: map<Hash, Bytes>, l: Limits)
    requires DecodesExactly(f) && Verified(f, m, objects).Some?
    ensures AllPresent(f, m, objects)
    ensures BodiesUnder(f, BodiesUpTo(f, m, objects, |m.packs|), l) <==> PacksUnder(m, l, |m.packs|)
  {
    DeclaredIsRecounted(f, m, objects);
    var bodies := BodiesUpTo(f, m, objects, |m.packs|);
    BodyKeys(f, m, objects, |m.packs|);
    assert m.packs[..|m.packs|] == m.packs;
    if PacksUnder(m, l, |m.packs|) {
      forall id | id in bodies ensures BodyUnder(f, bodies[id], l) {
        var i :| 0 <= i < |m.packs| && m.packs[i].id == id;
        BodyDeclares(f, m, objects, l, i);
      }
    }
    if BodiesUnder(f, bodies, l) {
      forall i | 0 <= i < |m.packs| ensures PackUnder(m, m.packs[i], l) { BodyDeclares(f, m, objects, l, i); }
    }
  }

  /** Preflight looks at declarations only, and yet accepts a verified artifact exactly if its bodies fit. */
  lemma AcceptedExactlyIfFits(f: Foreign, m: Manifest, objects: map<Hash, Bytes>, l: Limits, names: seq<string>)
    requires DecodesExactly(f) && Verified(f, m, objects).Some? && Names(names, m.requirements.profiles)
    ensures DeclaredUnder(m, l, names) <==> RoomFor(f, m, objects, l, names)
  {
    DeclaredIsRecounted(f, m, objects);
    BodiesDeclare(f, m, objects, l);
    var packs := CountsOf(f.parse, BodiesUpTo(f, m, objects, |m.packs|));
    TotalsUnderMeans(packs, PackOrder(m), m.mounts, l, names);
  }

  /** `validate_candidate` up to the final schema validation, which is the flag `collects`. */
  method VerifyForReceiver(f: Foreign, m: Manifest, objects: map<Hash, Bytes>, l: Limits, names: seq<string>,
                           collects: bool)
    returns (ok: bool)
    requires SourcesFit(f.parse) && DecodesExactly(f) && Names(names, m.requirements.profiles)
    ensures ok <==> ValidLimits(l) && DeclaredUnder(m, l, names) && Verified(f, m, objects).Some? && collects
  {
    if !ValidLimits(l) { return false; }
    ok := ValidateManifest(f, m);
    if !ok { return false; }
    ok := Preflight(m, l, names);
    if !ok { return false; }
    var c := VerifyObjects(f, m, objects);
    if c.None? { return false; }
    AcceptedFits(f, m, objects, l, names);
    CheckRuleLines(f, m, objects, l);
    return collects;
  }

  /** The per-line length check of `validate_candidate`; it cannot fail. */
  method CheckRuleLines(f: Foreign, m: Manifest, objects: map<Hash, Bytes>, l: Limits)
    requires forall i :: 0 <= i < |m.packs| ==>
      PackPresent(f, m.packs[i], objects) && BodyUnder(f, BodyOf(f, m.packs[i], objects), l)
  {
    var i := 0;
    while i < |m.packs| {
      assert PackPresent(f, m.packs[i], objects);
      var lines := Lines(BodyOf(f, m.packs[i], objects));
      var k := 0;
      while k < |lines|
        invariant 0 <= k <= |lines|
      {
        if IsRule(lines[k]) { assert Size(lines[k]) <= l.ruleBytes; }
        k := k + 1;
      }
      i := i + 1;
    }
  }
}
