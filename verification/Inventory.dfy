/** The candidate inventory of an artifact apply, and the overlays that show it to the loader. */
module Inventory {
  import opened Common
  import opened Utf8

  type Path = string
  type Hash = string
  type Bytes = seq<byte>

  const BUNDLE_PATH := "cluster.d/00-cluster-policy.toml"
  const MAX_APPLY_FILES := 1000
  const MAX_APPLY_BYTES := 50 * 1024 * 1024

  datatype Kind = Document | Pack
  datatype Member = Member(kind: Kind, path: Path, bytes: Bytes)

  /** One entry of `expected_objects`. */
  datatype Expected = Expected(path: Path, sha256: Hash, size: nat)

  predicate DistinctPaths(s: seq<Member>) { forall i, j :: 0 <= i < j < |s| ==> s[i].path != s[j].path }
  predicate DistinctExpected(s: seq<Expected>) { forall i, j :: 0 <= i < j < |s| ==> s[i].path != s[j].path }

  predicate Expects(expected: seq<Expected>, path: Path) { exists i :: 0 <= i < |expected| && expected[i].path == path }

  function KindOf(path: Path): Kind { if path == BUNDLE_PATH then Document else Pack }

  // --------------------------------------------------------------------- candidate

  predicate Stays(m: Member, expected: seq<Expected>,
                  deletes: seq<Path>) { !Expects(expected, m.path) && m.path !in deletes }

  function Kept(before: seq<Member>, expected: seq<Expected>, deletes: seq<Path>, n: nat): seq<Member>
    requires n <= |before|
  {
    if n == 0 then []
    else
      Kept(before, expected, deletes, n - 1)
      + if Stays(before[n - 1], expected, deletes) then [before[n - 1]] else []
  }

  function Artifact(expected: seq<Expected>, objects: map<Hash, Bytes>, n: nat): seq<Member>
    requires n <= |expected| && forall i :: 0 <= i < n ==> expected[i].sha256 in objects
  {
    if n == 0 then []
    else
      Artifact(expected, objects, n - 1)
      + [Member(KindOf(expected[n - 1].path), expected[n - 1].path, objects[expected[n - 1].sha256])]
  }

  function Sizes(expected: seq<Expected>, n: nat): nat
    requires n <= |expected|
  {
    if n == 0 then 0 else Sizes(expected, n - 1) + expected[n - 1].size
  }

  function ChangedPaths(expected: seq<Expected>, deletes: seq<Path>): set<Path> {
    (set i | 0 <= i < |expected| :: expected[i].path) + (set d | d in deletes)
  }

  predicate Admissible(expected: seq<Expected>, objects: map<Hash, Bytes>, deletes: seq<Path>) {
    && |ChangedPaths(expected, deletes)| <= MAX_APPLY_FILES && Sizes(expected, |expected|) <= MAX_APPLY_BYTES
    && forall i :: 0 <= i < |expected| ==> expected[i].sha256 in objects
  }

  method CandidateInventory(before: seq<Member>, expected: seq<Expected>, objects: map<Hash, Bytes>,
                            deletes: seq<Path>)
    returns (r: Option<seq<Member>>)
    ensures r.Some? <==>
      && |ChangedPaths(expected, deletes)| <= 1000
      && Sizes(expected, |expected|) <= 50 * 1024 * 1024
      && forall i :: 0 <= i < |expected| ==> expected[i].sha256 in objects
    ensures r.Some? ==> r.value == Kept(before, expected, deletes, |before|) + Artifact(expected, objects, |expected|)
  {
    if |ChangedPaths(expected, deletes)| > MAX_APPLY_FILES || Sizes(expected, |expected|) > MAX_APPLY_BYTES {
      return None;
    }
    var members: seq<Member> := [];
    var i := 0;
    while i < |before|
      invariant 0 <= i <= |before| && members == Kept(before, expected, deletes, i)
    {
      if Stays(before[i], expected, deletes) { members := members + [before[i]]; }
      i := i + 1;
    }
    ghost var kept := members;
    i := 0;
    while i < |expected|
      invariant 0 <= i <= |expected| && (forall k :: 0 <= k < i ==> expected[k].sha256 in objects)
      invariant members == kept + Artifact(expected, objects, i)
    {
      if expected[i].sha256 !in objects { return None; }
      members := members + [Member(KindOf(expected[i].path), expected[i].path, objects[expected[i].sha256])];
      i := i + 1;
    }
    return Some(members);
  }

  /** What the inventory holds at a path. */
  function At(s: seq<Member>, path: Path): Option<Member> {
    if s == [] then None else if s[0].path == path then Some(s[0]) else At(s[1..], path)
  }

  lemma {:induction false} AtConcat(a: seq<Member>, b: seq<Member>, path: Path)
    ensures At(a + b, path) == if At(a, path).Some? then At(a, path) else At(b, path)
  {
    if a == [] {
      assert a + b == b;
    } else {
      assert (a + b)[1..] == a[1..] + b;
      AtConcat(a[1..], b, path);
    }
  }

  lemma {:induction false} AtMissing(s: seq<Member>, path: Path)
    ensures At(s, path) == None <==> forall i :: 0 <= i < |s| ==> s[i].path != path
    ensures At(s, path).Some? ==> At(s, path).value.path == path && At(s, path).value in s
  {
    if s != [] { AtMissing(s[1..], path); }
  }

  lemma {:induction false} AtKept(before: seq<Member>, expected: seq<Expected>, deletes: seq<Path>, n: nat, path: Path)
    requires n <= |before|
    ensures At(Kept(before, expected, deletes, n), path) ==
      if !Expects(expected, path) && path !in deletes then At(before[..n], path) else None
  {
    if n > 0 {
      AtKept(before, expected, deletes, n - 1, path);
      var last := if Stays(before[n - 1], expected, deletes) then [before[n - 1]] else [];
      AtConcat(Kept(before, expected, deletes, n - 1), last, path);
      AtConcat(before[..n - 1], [before[n - 1]], path);
      assert before[..n] == before[..n - 1] + [before[n - 1]];
    }
  }

  lemma {:induction false} AtArtifact(expected: seq<Expected>, objects: map<Hash, Bytes>, n: nat, path: Path)
    requires n <= |expected| && DistinctExpected(expected) && forall i :: 0 <= i < n ==> expected[i].sha256 in objects
    ensures At(Artifact(expected, objects, n), path) == None <==> forall i :: 0 <= i < n ==> expected[i].path != path
    ensures forall i :: 0 <= i < n && expected[i].path == path ==>
      At(Artifact(expected, objects, n), path) == Some(Member(KindOf(path), path, objects[expected[i].sha256]))
  {
    if n > 0 {
      AtArtifact(expected, objects, n - 1, path);
      var e := expected[n - 1];
      AtConcat(Artifact(expected, objects, n - 1), [Member(KindOf(e.path), e.path, objects[e.sha256])], path);
    }
  }

  /**
   The candidate is the old inventory overridden by the artifact's objects and
   without the deleted paths; every other member stays byte for byte.
   */
  lemma CandidateOverrides(before: seq<Member>, expected: seq<Expected>, objects: map<Hash, Bytes>,
                           deletes: seq<Path>, path: Path)
    requires DistinctExpected(expected) && Admissible(expected, objects, deletes)
    ensures var after := Kept(before, expected, deletes, |before|) + Artifact(expected, objects, |expected|);
      && (forall i :: 0 <= i < |expected| && expected[i].path == path ==>
            At(after, path) == Some(Member(KindOf(path), path, objects[expected[i].sha256])))
      && (!Expects(expected, path) ==> At(after, path) == if path in deletes then None else At(before, path))
  {
    AtKept(before, expected, deletes, |before|, path);
    AtArtifact(expected, objects, |expected|, path);
    AtConcat(Kept(before, expected, deletes, |before|), Artifact(expected, objects, |expected|), path);
    assert before[..|before|] == before;
  }

  lemma {:induction false} KeptPaths(before: seq<Member>, expected: seq<Expected>, deletes: seq<Path>, n: nat)
    requires n <= |before| && DistinctPaths(before)
    ensures DistinctPaths(Kept(before, expected, deletes, n))
    ensures forall k :: 0 <= k < |Kept(before, expected, deletes, n)| ==>
      && Stays(Kept(before, expected, deletes, n)[k], expected, deletes)
      && Kept(before, expected, deletes, n)[k] in before[..n]
  {
    if n > 0 {
      KeptPaths(before, expected, deletes, n - 1);
      var kept := Kept(before, expected, deletes, n - 1);
      forall k | 0 <= k < |kept| ensures kept[k].path != before[n - 1].path && kept[k] in before[..n] {
        var j :| 0 <= j < n - 1 && before[..n - 1][j] == kept[k];
        assert before[j] == kept[k] && before[..n][j] == kept[k];
      }
      assert before[..n][n - 1] == before[n - 1];
    }
  }

  lemma {:induction false} ArtifactPaths(expected: seq<Expected>, objects: map<Hash, Bytes>, n: nat)
    requires n <= |expected| && forall i :: 0 <= i < n ==> expected[i].sha256 in objects
    ensures |Artifact(expected, objects, n)| == n && forall i :: 0 <= i < n ==>
      && Artifact(expected, objects, n)[i].path == expected[i].path
      && Artifact(expected, objects, n)[i].kind == KindOf(expected[i].path)
  {
    if n > 0 { ArtifactPaths(expected, objects, n - 1); }
  }

  /** So the candidate never names a path twice. */
  lemma CandidatePathsDistinct(before: seq<Member>, expected: seq<Expected>, objects: map<Hash, Bytes>,
                               deletes: seq<Path>)
    requires DistinctPaths(before) && DistinctExpected(expected) && Admissible(expected, objects, deletes)
    ensures DistinctPaths(Kept(before, expected, deletes, |before|) + Artifact(expected, objects, |expected|))
  {
    KeptPaths(before, expected, deletes, |before|);
    ArtifactPaths(expected, objects, |expected|);
  }
}
