/** The overlays of an artifact apply show the loader exactly the candidate inventory. */
module Overlays {
  import opened Common
  import opened Utf8
  import opened Inventory

  /** The loader overlay is keyed by document path, the pack overlay by pack identifier. */
  datatype Slot = DocumentAt(path: Path) | PackNamed(id: string)

  /** Both overlays: what is replaced and what is hidden. */
  datatype Overlays = Overlays(replaced: map<Slot, Bytes>, hidden: set<Slot>)

  const NOTHING := Overlays(map[], {})

  // ------------------------------------------------------------------- pack paths

  /** The part after the last slash. */
  function FileName(path: Path): Path {
    if path == "" then ""
    else if '/' in path[1..] then FileName(path[1..])
    else if path[0] == '/' then path[1..] else path
  }

  /** The part before the last dot, or all of it. */
  function Stem(name: string): string {
    if name == "" then ""
    else if name[|name| - 1] == '.' then name[..|name| - 1] else Stem(name[..|name| - 1])
  }

  function FileStem(path: Path): string {
    var name := FileName(path);
    if Stem(name) == "" then name else Stem(name)
  }

  function PackPath(id: string): Path { "packs/" + id + ".txt" }

  predicate IsPackPath(path: Path) { path == PackPath(FileStem(path)) }

  lemma {:induction false} FileNameAfterSlash(dir: string, name: string)
    requires '/' !in name
    ensures FileName(dir + "/" + name) == name
  {
    var path := dir + "/" + name;
    if dir == "" {
      assert path[1..] == name;
    } else {
      assert path[1..] == dir[1..] + "/" + name;
      assert path[1..][|dir| - 1] == '/';
      FileNameAfterSlash(dir[1..], name);
    }
  }

  lemma StemOfText(id: string)
    ensures Stem(id + ".txt") == id
  {
    var a := id + ".txt";
    assert a[..|a| - 1] == id + ".tx" && (id + ".tx")[..|a| - 2] == id + ".t" && (id + ".t")[..|a| - 3] == id + "."
      && (id + ".")[..|a| - 4] == id;
    assert Stem(id + ".") == id;
    assert Stem(id + ".t") == Stem(id + ".");
    assert Stem(id + ".tx") == Stem(id + ".t");
  }

  /** A pack's path gives its identifier back. */
  lemma PackPathRoundTrip(id: string)
    requires id != "" && '/' !in id
    ensures FileStem(PackPath(id)) == id && IsPackPath(PackPath(id))
  {
    assert PackPath(id) == "packs" + "/" + (id + ".txt");
    FileNameAfterSlash("packs", id + ".txt");
    StemOfText(id);
  }

  predicate Shaped(m: Member) { m.kind == Pack <==> IsPackPath(m.path) }

  /** Pack members, and no others, live at pack paths. */
  predicate WellShaped(s: seq<Member>) { forall i :: 0 <= i < |s| ==> Shaped(s[i]) }

  predicate DocumentsAreText(s: seq<Member>, n: nat)
    requires n <= |s|
  {
    forall i :: 0 <= i < n && s[i].kind == Document ==> WellFormed(s[i].bytes)
  }

  // --------------------------------------------------------------------- overlays

  /** Where the candidate loop files a member. */
  function SlotOf(m: Member): Slot { if m.kind == Pack then PackNamed(FileStem(m.path)) else DocumentAt(m.path) }

  /** Where the loader looks a path up. */
  function SlotFor(path: Path): Slot { if IsPackPath(path) then PackNamed(FileStem(path)) else DocumentAt(path) }

  lemma SlotsAreOwn(p: Path, q: Path)
    ensures SlotFor(p) == SlotFor(q) <==> p == q
  {
  }

  function Stage(o: Overlays, m: Member): Overlays { o.(replaced := o.replaced[SlotOf(m) := m.bytes]) }

  function Hide(o: Overlays, m: Member): Overlays { o.(hidden := o.hidden + {SlotOf(m)}) }

  function Staged(after: seq<Member>, n: nat): Overlays
    requires n <= |after|
  {
    if n == 0 then NOTHING else Stage(Staged(after, n - 1), after[n - 1])
  }

  predicate Gone(m: Member, after: seq<Member>) { At(after, m.path).None? }

  function Hidden(before: seq<Member>, after: seq<Member>, n: nat): Overlays
    requires n <= |before|
  {
    if n == 0 then Staged(after, |after|)
    else
      var o := Hidden(before, after, n - 1);
      if Gone(before[n - 1], after) then Hide(o, before[n - 1]) else o
  }

  method CandidateOverlays(before: seq<Member>, after: seq<Member>) returns (r: Option<Overlays>)
    ensures r.Some? <==> DocumentsAreText(after, |after|)
    ensures r.Some? ==> r.value == Hidden(before, after, |before|)
  {
    var o, i := NOTHING, 0;
    while i < |after|
      invariant 0 <= i <= |after| && DocumentsAreText(after, i) && o == Staged(after, i)
    {
      var m := after[i];
      if m.kind != Pack && !WellFormed(m.bytes) { return None; }
      o := Stage(o, m);
      i := i + 1;
    }
    i := 0;
    while i < |before|
      invariant 0 <= i <= |before| && o == Hidden(before, after, i)
    {
      if Gone(before[i], after) { o := Hide(o, before[i]); }
      i := i + 1;
    }
    return Some(o);
  }

  function BytesAt(s: seq<Member>, path: Path): Option<Bytes> {
    if At(s, path).None? then None else Some(At(s, path).value.bytes)
  }

  function Found(o: Overlays, slot: Slot, otherwise: Option<Bytes>): Option<Bytes> {
    if slot in o.replaced then Some(o.replaced[slot]) else if slot in o.hidden then None else otherwise
  }

  /** What the loader reads at a path of the old tree through the overlays. */
  function Shown(before: seq<Member>, o: Overlays, path: Path): Option<Bytes> {
    Found(o, SlotFor(path), BytesAt(before, path))
  }

  function Replacement(o: Overlays, slot: Slot): Option<Bytes> {
    if slot in o.replaced then Some(o.replaced[slot]) else None
  }

  lemma {:induction false} AtLast(s: seq<Member>, n: nat, path: Path)
    requires 0 < n <= |s| && DistinctPaths(s)
    ensures BytesAt(s[..n], path) == if path == s[n - 1].path then Some(s[n - 1].bytes) else BytesAt(s[..n - 1], path)
  {
    assert s[..n] == s[..n - 1] + [s[n - 1]];
    AtConcat(s[..n - 1], [s[n - 1]], path);
    AtMissing(s[..n - 1], path);
  }

  /** Exactly the members at `path` are filed under `slot`. */
  ghost predicate Files(s: seq<Member>, path: Path, slot: Slot) {
    forall i :: 0 <= i < |s| ==> (SlotOf(s[i]) == slot <==> s[i].path == path)
  }

  lemma ShapedFiles(s: seq<Member>, path: Path)
    requires WellShaped(s)
    ensures Files(s, path, SlotFor(path))
  {
    forall i | 0 <= i < |s| ensures SlotOf(s[i]) == SlotFor(path) <==> s[i].path == path {
      assert Shaped(s[i]);
      SlotsAreOwn(s[i].path, path);
    }
  }

  lemma {:induction false} StagedShows(after: seq<Member>, n: nat, path: Path, slot: Slot)
    requires n <= |after| && DistinctPaths(after) && Files(after, path, slot)
    ensures Replacement(Staged(after, n), slot) == BytesAt(after[..n], path) && Staged(after, n).hidden == {}
  {
    if n > 0 {
      StagedShows(after, n - 1, path, slot);
      AtLast(after, n, path);
    }
  }

  lemma PresentSoFar(s: seq<Member>, n: nat, path: Path)
    requires 0 < n <= |s|
    ensures At(s[..n], path).Some? <==> At(s[..n - 1], path).Some? || s[n - 1].path == path
  {
    assert s[..n] == s[..n - 1] + [s[n - 1]];
    AtConcat(s[..n - 1], [s[n - 1]], path);
  }

  lemma {:induction false} HiddenReplaces(before: seq<Member>, after: seq<Member>, n: nat)
    requires n <= |before|
    ensures Hidden(before, after, n).replaced == Staged(after, |after|).replaced
  {
    if n > 0 { HiddenReplaces(before, after, n - 1); }
  }

  lemma {:induction false} HiddenHides(before: seq<Member>, after: seq<Member>, n: nat, path: Path, slot: Slot)
    requires n <= |before| && Files(before, path, slot) && Staged(after, |after|).hidden == {}
    ensures slot in Hidden(before, after, n).hidden <==> At(after, path).None? && At(before[..n], path).Some?
  {
    if n == 0 {
      assert before[..0] == [];
    } else {
      HiddenHides(before, after, n - 1, path, slot);
      PresentSoFar(before, n, path);
    }
  }

  /** Through the overlays every path of the old tree reads as in the candidate inventory. */
  lemma OverlaysShowCandidate(before: seq<Member>, after: seq<Member>, path: Path)
    requires DistinctPaths(after) && WellShaped(after) && WellShaped(before)
    ensures Shown(before, Hidden(before, after, |before|), path) == BytesAt(after, path)
  {
    var slot := SlotFor(path);
    ShapedFiles(before, path);
    ShapedFiles(after, path);
    StagedShows(after, |after|, path, slot);
    HiddenReplaces(before, after, |before|);
    HiddenHides(before, after, |before|, path, slot);
    assert after[..|after|] == after;
    assert before[..|before|] == before;
  }

  /** An artifact names the bundle and its packs. */
  predicate NamesPacks(expected: seq<Expected>) {
    forall i :: 0 <= i < |expected| ==> expected[i].path == BUNDLE_PATH || IsPackPath(expected[i].path)
  }

  lemma BundleIsNoPack()
    ensures !IsPackPath(BUNDLE_PATH)
  {
    assert BUNDLE_PATH[0] == 'c' && PackPath(FileStem(BUNDLE_PATH))[0] == 'p';
  }

  lemma KeptIsShaped(before: seq<Member>, expected: seq<Expected>, deletes: seq<Path>, k: nat)
    requires DistinctPaths(before) && WellShaped(before) && k < |Kept(before, expected, deletes, |before|)|
    ensures Shaped(Kept(before, expected, deletes, |before|)[k])
  {
    KeptPaths(before, expected, deletes, |before|);
    assert before[..|before|] == before;
    var j :| 0 <= j < |before| && before[j] == Kept(before, expected, deletes, |before|)[k];
  }

  lemma AddedIsShaped(expected: seq<Expected>, objects: map<Hash, Bytes>, i: nat)
    requires NamesPacks(expected) && i < |expected| && forall k :: 0 <= k < |expected| ==> expected[k].sha256 in objects
    ensures |Artifact(expected, objects, |expected|)| == |expected|
    ensures Shaped(Artifact(expected, objects, |expected|)[i])
  {
    ArtifactPaths(expected, objects, |expected|);
    BundleIsNoPack();
  }

  lemma CandidateIsWellShaped(before: seq<Member>, expected: seq<Expected>, objects: map<Hash, Bytes>,
                              deletes: seq<Path>)
    requires DistinctPaths(before)
    requires WellShaped(before)
    requires NamesPacks(expected)
    requires Admissible(expected, objects, deletes)
    ensures WellShaped(Kept(before, expected, deletes, |before|) + Artifact(expected, objects, |expected|))
  {
    var kept, added := Kept(before, expected, deletes, |before|), Artifact(expected, objects, |expected|);
    ArtifactPaths(expected, objects, |expected|);
    var all: seq<Member> := kept + added;
    forall k | 0 <= k < |all| ensures Shaped(all[k]) {
      if k < |kept| {
        KeptIsShaped(before, expected, deletes, k);
      } else {
        AddedIsShaped(expected, objects, k - |kept|);
      }
    }
    assert forall k :: 0 <= k < |all| ==> Shaped(all[k]);
  }
}
