/**
 A receiver applies an artifact across two stores: the policy tree with its
 transaction journal and receipts, and the ownership ledger with its pending
 intent. Every durable write is one atomic step, and a run may stop before any
 of them, in the apply or in the recovery that follows.
 */
module ArtifactApply {
  import opened Common

  type Path = string
  type Content = string
  type Key = string

  datatype File = File(inode: nat, content: Content)

  /** What a journal records of one tree member. */
  datatype Member = Member(before: Option<File>, after: Option<Content>, promoted: Option<nat>, restored: Option<nat>)

  datatype Phase = Setup | Prepared | AbortCleanup | Committing | Committed | Aborted

  datatype Journal = Journal(key: Key, phase: Phase, ready: bool, members: map<Path, Member>)

  /** A receipt is undecided while it reads prepared or durability-uncertain. */
  datatype Decision = Undecided | DecidedCommit | DecidedAbort

  datatype Ledger = Ledger(epoch: nat, entries: map<Path, File>)

  datatype Pending = Pending(
    key: Key,
    epoch: nat,
    before: Option<Ledger>,
    baseline: map<Path, File>,
    objects: map<Path, Content>,
    bound: bool)

  datatype Node = Node(
    live: map<Path, File>,
    fence: Option<Journal>,
    undo: map<Key, Journal>,
    receipts: map<Key, Decision>,
    ledger: Option<Ledger>,
    pending: Option<Pending>)

  // ------------------------------------------------------------- the candidate

  predicate Owned(p: Pending, path: Path) {
    p.before.Some? && path in p.before.value.entries
  }

  /** Artifact objects replace, owned paths outside the artifact go, everything else stays. */
  function AfterContent(p: Pending, path: Path): Option<Content> {
    if path in p.objects then Some(p.objects[path])
    else if path in p.baseline && !Owned(p, path) then Some(p.baseline[path].content)
    else None
  }

  function PlanMembers(p: Pending): map<Path, Member> {
    map path | path in p.baseline.Keys + p.objects.Keys ::
      Member(Lookup(p.baseline, path), AfterContent(p, path), None, None)
  }

  predicate Changed(m: Member) {
    !(m.before.Some? && m.after.Some? && m.before.value.content == m.after.value)
  }

  function BeforeInode(m: Member): nat
    requires m.before.Some?
  {
    if m.restored.Some? then m.restored.value else m.before.value.inode
  }

  /** `plan_matches` against the before image. */
  predicate IsBefore(live: map<Path, File>, path: Path, m: Member) {
    if m.before.None? then path !in live
    else path in live && live[path] == File(BeforeInode(m), m.before.value.content)
  }

  /** `plan_matches` against the after image. */
  predicate IsAfter(live: map<Path, File>, path: Path, m: Member) {
    if m.after.None? then path !in live
    else
      && path in live && live[path].content == m.after.value
      && (if Changed(m) then m.promoted == Some(live[path].inode) else live[path].inode == m.before.value.inode)
  }

  ghost predicate AllBefore(live: map<Path, File>, members: map<Path, Member>) {
    live.Keys <= members.Keys && forall path :: path in members ==> IsBefore(live, path, members[path])
  }

  ghost predicate AllAfter(live: map<Path, File>, members: map<Path, Member>) {
    live.Keys <= members.Keys && forall path :: path in members ==> IsAfter(live, path, members[path])
  }

  ghost predicate Mixed(live: map<Path, File>, members: map<Path, Member>) {
    && live.Keys <= members.Keys
    && forall path :: path in members ==> IsBefore(live, path, members[path]) || IsAfter(live, path, members[path])
  }

  // -------------------------------------------------------------- the invariant

  /** The ledger describes files that are there, inode for inode. */
  ghost predicate Agree(live: map<Path, File>, ledger: Option<Ledger>) {
    ledger.Some? ==>
      forall path :: path in ledger.value.entries ==> path in live && live[path] == ledger.value.entries[path]
  }

  ghost predicate WellFormed(p: Pending, ledger: Option<Ledger>) {
    && p.before == ledger
    && Agree(p.baseline, p.before)
    && (forall path :: path in p.objects && path in p.baseline ==> Owned(p, path))
    && (ledger.Some? ==> ledger.value.epoch < p.epoch)
  }

  /** The journal carries out exactly the pending plan. */
  ghost predicate Follows(members: map<Path, Member>, p: Pending) {
    && members.Keys == p.baseline.Keys + p.objects.Keys
    && forall path :: path in members ==>
         && members[path].before == Lookup(p.baseline, path) && members[path].after == AfterContent(p, path)
         && (members[path].restored.Some? ==> Changed(members[path]))
  }

  ghost predicate Untouched(members: map<Path, Member>) {
    forall path :: path in members ==> members[path].promoted.None? && members[path].restored.None?
  }

  ghost predicate FenceSound(n: Node, p: Pending, j: Journal) {
    && j.key == p.key && p.key !in n.undo && Follows(j.members, p)
    && (p.key in n.receipts ==> n.receipts[p.key] == Undecided)
    && match j.phase
       case Setup => Untouched(j.members) && n.live == p.baseline && !j.ready && p.key !in n.receipts
       case Prepared =>
         if j.ready then p.key in n.receipts && Mixed(n.live, j.members)
         else Untouched(j.members) && n.live == p.baseline
       case AbortCleanup => p.key in n.receipts && AllBefore(n.live, j.members)
       case Aborted => p.key in n.receipts && AllBefore(n.live, j.members)
       case Committing => p.key in n.receipts && AllAfter(n.live, j.members)
       case Committed => p.key in n.receipts && AllAfter(n.live, j.members)
  }

  ghost predicate UndoSound(n: Node, p: Pending, j: Journal) {
    && Follows(j.members, p) && p.key in n.receipts
    && ((j.phase == Committed && AllAfter(n.live, j.members) && n.receipts[p.key] != DecidedAbort)
        || (j.phase == Aborted && AllBefore(n.live, j.members) && n.receipts[p.key] != DecidedCommit))
  }

  ghost predicate Inv(n: Node) {
    match n.pending
    case None => n.fence.None? && Agree(n.live, n.ledger) && forall k :: k in n.receipts ==> n.receipts[k] != Undecided
    case Some(p) =>
      && WellFormed(p, n.ledger)
      && (forall k :: k in n.receipts && k != p.key ==> n.receipts[k] != Undecided)
      && match n.fence
         case Some(j) => FenceSound(n, p, j)
         case None =>
           if p.key in n.undo then UndoSound(n, p, n.undo[p.key])
           else p.key !in n.receipts && n.live == p.baseline
  }

  function Contents(live: map<Path, File>): map<Path, Content> {
    map path | path in live :: live[path].content
  }

  function Candidate(p: Pending): map<Path, Content> {
    map path | path in p.baseline.Keys + p.objects.Keys && AfterContent(p, path).Some? :: AfterContent(p, path).value
  }

  /** Policy and ledger are both as before the apply: same contents, same owned paths and epoch. */
  ghost predicate BothOld(n: Node, p: Pending) {
    && Contents(n.live) == Contents(p.baseline)
    && n.ledger.Some? == p.before.Some?
    && (n.ledger.Some? ==>
          && n.ledger.value.epoch == p.before.value.epoch
          && n.ledger.value.entries.Keys == p.before.value.entries.Keys)
  }

  /** Policy is the candidate and the ledger owns exactly the artifact's objects. */
  ghost predicate BothNew(n: Node, p: Pending) {
    && Contents(n.live) == Candidate(p)
    && n.ledger.Some? && n.ledger.value.epoch == p.epoch && n.ledger.value.entries.Keys == p.objects.Keys
    && forall path :: path in p.objects ==> n.ledger.value.entries[path].content == p.objects[path]
  }

  // ------------------------------------------------------------------ evidence

  /** The identity a committed journal attests for a present after state. */
  function AfterIdentity(m: Member): Option<File> {
    if m.after.None? then None
    else if !Changed(m) then m.before
    else if m.promoted.Some? then Some(File(m.promoted.value, m.after.value))
    else None
  }

  lemma AfterIsAttested(live: map<Path, File>, members: map<Path, Member>, path: Path)
    requires AllAfter(live, members) && path in members
    ensures AfterIdentity(members[path]) == Lookup(live, path)
  {
    assert IsAfter(live, path, members[path]);
  }

  function RestoredFile(file: File, members: map<Path, Member>, path: Path): File {
    if path in members && members[path].before.Some? && members[path].restored.Some?
    then File(members[path].restored.value, file.content) else file
  }

  /** The ledger after a rollback: each owned file takes the identity it was restored with. */
  function RestoredLedger(before: Option<Ledger>, members: map<Path, Member>): Option<Ledger> {
    if before.None? then None
    else
      var entries := before.value.entries;
      Some(before.value.(entries := map path | path in entries :: RestoredFile(entries[path], members, path)))
  }

  lemma RolledBackContents(live: map<Path, File>, p: Pending, members: map<Path, Member>)
    requires Follows(members, p) && AllBefore(live, members)
    ensures Contents(live) == Contents(p.baseline)
  {
    forall path ensures path in live <==> path in p.baseline {
      if path in members { assert IsBefore(live, path, members[path]); }
    }
    forall path | path in p.baseline ensures live[path].content == p.baseline[path].content {
      assert path in members && IsBefore(live, path, members[path]);
    }
  }

  lemma RolledBackAgrees(n: Node, p: Pending, members: map<Path, Member>)
    requires WellFormed(p, n.ledger) && Follows(members, p) && AllBefore(n.live, members)
    ensures Agree(n.live, RestoredLedger(p.before, members))
    ensures BothOld(n.(ledger := RestoredLedger(p.before, members)), p)
  {
    RolledBackContents(n.live, p, members);
    if p.before.Some? {
      forall path | path in p.before.value.entries
        ensures path in n.live && n.live[path] == RestoredFile(p.before.value.entries[path], members, path)
      {
        assert path in members && IsBefore(n.live, path, members[path]);
      }
    }
  }

  function NewLedger(p: Pending, live: map<Path, File>): Ledger
    requires forall path :: path in p.objects ==> path in live
  {
    Ledger(p.epoch, map path | path in p.objects :: live[path])
  }

  lemma CommittedContents(live: map<Path, File>, p: Pending, members: map<Path, Member>)
    requires Follows(members, p) && AllAfter(live, members)
    ensures Contents(live) == Candidate(p)
  {
    forall path ensures path in live <==> path in Candidate(p) {
      if path in members { assert IsAfter(live, path, members[path]); }
    }
    forall path | path in live ensures live[path].content == Candidate(p)[path] {
      assert path in members && IsAfter(live, path, members[path]);
    }
  }

  lemma CommittedAgrees(n: Node, p: Pending, members: map<Path, Member>)
    requires Follows(members, p) && AllAfter(n.live, members)
    ensures forall path :: path in p.objects ==> path in n.live && n.live[path].content == p.objects[path]
    ensures Agree(n.live, Some(NewLedger(p, n.live)))
    ensures BothNew(n.(ledger := Some(NewLedger(p, n.live))), p)
  {
    CommittedContents(n.live, p, members);
    forall path | path in p.objects ensures path in n.live && n.live[path].content == p.objects[path] {
      assert path in members && IsAfter(n.live, path, members[path]);
    }
  }
}
