/** Each durable write of an apply, a recovery or a settlement keeps the two stores related. */
module ArtifactSteps {
  import opened Common
  import opened ArtifactApply

  /** A prepared transaction that may have touched members. */
  ghost predicate Moving(n: Node) {
    Inv(n) && n.pending.Some? && n.fence.Some? && n.fence.value.phase == Prepared && n.fence.value.ready
  }

  /** Only the image of one path differs. */
  ghost predicate OnlyAt(live: map<Path, File>, live': map<Path, File>, path: Path) {
    forall q :: q != path ==> (q in live' <==> q in live) && (q in live ==> live'[q] == live[q])
  }

  function WithMember(n: Node, path: Path, m: Member): Node
    requires n.fence.Some?
  {
    n.(fence := Some(n.fence.value.(members := n.fence.value.members[path := m])))
  }

  /** A moving transaction whose members outside `todo` are already back to their before images. */
  ghost predicate Restoring(n: Node, todo: set<Path>) {
    && Moving(n) && todo <= n.fence.value.members.Keys
    && forall q :: q in n.fence.value.members && q !in todo ==> IsBefore(n.live, q, n.fence.value.members[q])
  }

  ghost predicate SamePlan(m: Member, m0: Member) {
    m.before == m0.before && m.after == m0.after && (m.restored.Some? ==> Changed(m))
  }

  lemma OtherMemberStays(live0: map<Path, File>, live: map<Path, File>, path: Path, q: Path, m: Member)
    requires OnlyAt(live0, live, path) && q != path
    ensures IsBefore(live, q, m) == IsBefore(live0, q, m) && IsAfter(live, q, m) == IsAfter(live0, q, m)
  {
  }

  lemma MixedStep(live0: map<Path, File>, live: map<Path, File>, members: map<Path, Member>, path: Path, m: Member)
    requires Mixed(live0, members) && path in members && OnlyAt(live0, live, path)
    requires IsBefore(live, path, m) || IsAfter(live, path, m)
    ensures Mixed(live, members[path := m])
  {
    forall q | q in members && q != path ensures IsBefore(live, q, members[q]) || IsAfter(live, q, members[q]) {
      OtherMemberStays(live0, live, path, q, members[q]);
    }
  }

  lemma FollowsStep(members: map<Path, Member>, p: Pending, path: Path, m: Member)
    requires Follows(members, p) && path in members && SamePlan(m, members[path])
    ensures Follows(members[path := m], p)
  {
    assert members[path := m].Keys == members.Keys;
  }

  /** Rewriting one member record or its live image keeps a moving transaction sound. */
  lemma MovingStep(n: Node, live: map<Path, File>, path: Path, m: Member)
    requires Moving(n) && path in n.fence.value.members && OnlyAt(n.live, live, path)
    requires SamePlan(m, n.fence.value.members[path])
    requires IsBefore(live, path, m) || IsAfter(live, path, m)
    ensures Moving(WithMember(n, path, m).(live := live))
  {
    MixedStep(n.live, live, n.fence.value.members, path, m);
    FollowsStep(n.fence.value.members, n.pending.value, path, m);
  }

  lemma MemberStep(n: Node, live: map<Path, File>, path: Path, m: Member, todo: set<Path>)
    requires Restoring(n, todo) && path in todo && OnlyAt(n.live, live, path)
    requires SamePlan(m, n.fence.value.members[path])
    requires IsBefore(live, path, m) || IsAfter(live, path, m)
    ensures Restoring(WithMember(n, path, m).(live := live), todo)
    ensures IsBefore(live, path, m) ==> Restoring(WithMember(n, path, m).(live := live), todo - {path})
  {
    MovingStep(n, live, path, m);
    forall q | q in n.fence.value.members && q !in todo ensures IsBefore(live, q, n.fence.value.members[q]) {
      OtherMemberStays(n.live, live, path, q, n.fence.value.members[q]);
    }
  }

  lemma NotBeforeIsChanged(n: Node, path: Path)
    requires Moving(n) && path in n.fence.value.members && !IsBefore(n.live, path, n.fence.value.members[path])
    ensures IsAfter(n.live, path, n.fence.value.members[path]) && Changed(n.fence.value.members[path])
  {
  }

  lemma RecordRestored(n: Node, path: Path, inode: nat, todo: set<Path>)
    requires Restoring(n, todo) && path in todo && !IsBefore(n.live, path, n.fence.value.members[path])
    requires n.fence.value.members[path].before.Some?
    ensures Restoring(WithMember(n, path, n.fence.value.members[path].(restored := Some(inode))), todo)
  {
    NotBeforeIsChanged(n, path);
    MemberStep(n, n.live, path, n.fence.value.members[path].(restored := Some(inode)), todo);
  }

  lemma RenamedBack(n: Node, path: Path, todo: set<Path>)
    requires Restoring(n, todo) && path in todo
    requires n.fence.value.members[path].before.Some? && n.fence.value.members[path].restored.Some?
    ensures var m := n.fence.value.members[path];
      Restoring(n.(live := n.live[path := File(m.restored.value, m.before.value.content)]), todo - {path})
  {
    var m := n.fence.value.members[path];
    assert n.fence.value.members[path := m] == n.fence.value.members;
    MemberStep(n, n.live[path := File(m.restored.value, m.before.value.content)], path, m, todo);
  }

  lemma Unlinked(n: Node, path: Path, todo: set<Path>)
    requires Restoring(n, todo) && path in todo && n.fence.value.members[path].before.None?
    ensures Restoring(n.(live := n.live - {path}), todo - {path})
  {
    var m := n.fence.value.members[path];
    assert n.fence.value.members[path := m] == n.fence.value.members;
    MemberStep(n, n.live - {path}, path, m, todo);
  }

  // ------------------------------------------------------- one durable write each

  ghost predicate Open(n: Node) {
    Inv(n) && n.pending.Some? && n.fence.Some?
  }

  function WithPhase(n: Node, phase: Phase): Node
    requires n.fence.Some?
  {
    n.(fence := Some(n.fence.value.(phase := phase)))
  }

  function Begun(n: Node, p: Pending): Node { n.(pending := Some(p)) }

  ghost predicate Admitted(n: Node, p: Pending) {
    && n.pending.None? && p.before == n.ledger && p.baseline == n.live
    && p.key !in n.undo && p.key !in n.receipts
    && (forall path :: path in p.objects && path in n.live ==> n.ledger.Some? && path in n.ledger.value.entries)
    && (n.ledger.Some? ==> n.ledger.value.epoch < p.epoch)
  }

  lemma BeginKeeps(n: Node, p: Pending)
    requires Inv(n) && Admitted(n, p)
    ensures Inv(Begun(n, p))
  {
    assert WellFormed(p, n.ledger);
  }

  function SetUp(n: Node): Node
    requires n.pending.Some?
  {
    n.(fence := Some(Journal(n.pending.value.key, Setup, false, PlanMembers(n.pending.value))))
  }

  lemma SetUpKeeps(n: Node)
    requires Inv(n)
    requires n.pending.Some?
    requires n.fence.None?
    requires n.pending.value.key !in n.receipts
    requires n.pending.value.key !in n.undo
    ensures Open(SetUp(n)) && SetUp(n).fence.value.phase == Setup
  {
    assert Follows(PlanMembers(n.pending.value), n.pending.value);
  }

  lemma PreparedKeeps(n: Node)
    requires Open(n) && n.fence.value.phase == Setup
    ensures Open(WithPhase(n, Prepared)) && !n.fence.value.ready
  {
  }

  lemma ReceiptKeeps(n: Node)
    requires Open(n) && n.fence.value.phase == Prepared && !n.fence.value.ready
    ensures Open(n.(receipts := n.receipts[n.fence.value.key := Undecided]))
  {
  }

  lemma BindKeeps(n: Node)
    requires Open(n)
    ensures Open(n.(pending := Some(n.pending.value.(bound := true))))
  {
    var p := n.pending.value;
    var p' := p.(bound := true);
    assert forall path :: AfterContent(p', path) == AfterContent(p, path) && Owned(p', path) == Owned(p, path);
    assert WellFormed(p', n.ledger);
    assert Follows(n.fence.value.members, p');
  }

  lemma BaselineIsBefore(live: map<Path, File>, p: Pending, members: map<Path, Member>)
    requires Follows(members, p) && Untouched(members) && live == p.baseline
    ensures AllBefore(live, members)
  {
  }

  lemma ReadyKeeps(n: Node)
    requires Open(n) && n.fence.value.phase == Prepared && !n.fence.value.ready && n.fence.value.key in n.receipts
    ensures Moving(n.(fence := Some(n.fence.value.(ready := true))))
  {
    BaselineIsBefore(n.live, n.pending.value, n.fence.value.members);
    assert Mixed(n.live, n.fence.value.members);
  }

  lemma CommittingKeeps(n: Node)
    requires Moving(n) && AllAfter(n.live, n.fence.value.members)
    ensures Open(WithPhase(n, Committing))
  {
  }

  lemma CommittedKeeps(n: Node)
    requires Open(n) && n.fence.value.phase == Committing
    ensures Open(WithPhase(n, Committed))
  {
  }

  lemma AbortCleanupKeeps(n: Node)
    requires Moving(n) && AllBefore(n.live, n.fence.value.members)
    ensures Open(WithPhase(n, AbortCleanup).(fence := Some(n.fence.value.(phase := AbortCleanup, ready := false))))
  {
  }

  lemma AbortedKeeps(n: Node)
    requires Open(n) && n.fence.value.key in n.receipts
    requires n.fence.value.phase == AbortCleanup || (n.fence.value.phase == Prepared && !n.fence.value.ready)
    ensures Open(WithPhase(n, Aborted))
  {
    if n.fence.value.phase == Prepared {
      BaselineIsBefore(n.live, n.pending.value, n.fence.value.members);
    }
  }

  /** Removing a fence whose receipt was never published loses nothing: the tree is the baseline. */
  lemma DropFenceKeeps(n: Node)
    requires Open(n) && n.fence.value.key !in n.receipts
    ensures Inv(n.(fence := None)) && n.live == n.pending.value.baseline
    ensures !CommitDecided(n) && !CommitDecided(n.(fence := None))
  {
  }

  ghost predicate Terminal(n: Node) {
    Open(n) && (n.fence.value.phase == Committed || n.fence.value.phase == Aborted)
  }

  function Terminalized(n: Node): Node
    requires n.fence.Some?
  {
    n.(undo := n.undo[n.fence.value.key := n.fence.value], fence := None)
  }

  /** Request keys the node has seen, the pending one included. */
  ghost function Known(n: Node): set<Key> {
    n.undo.Keys + n.receipts.Keys + if n.pending.Some? then {n.pending.value.key} else {}
  }

  lemma TerminalizeKeeps(n: Node)
    requires Terminal(n)
    ensures Inv(Terminalized(n))
    ensures CommitDecided(Terminalized(n)) == Commits(n.fence.value.phase)
    ensures Known(Terminalized(n)) == Known(n)
  {
    assert UndoSound(Terminalized(n), n.pending.value, n.fence.value);
  }

  function DecisionOf(phase: Phase): Decision {
    if phase == Committed then DecidedCommit else DecidedAbort
  }

  function Decided(n: Node, key: Key): Node
    requires key in n.undo
  {
    n.(receipts := n.receipts[key := DecisionOf(n.undo[key].phase)])
  }

  lemma DecideKeeps(n: Node)
    requires Inv(n) && n.fence.None? && n.pending.Some? && n.pending.value.key in n.undo
    ensures Inv(Decided(n, n.pending.value.key)) && CommitDecided(Decided(n, n.pending.value.key)) == CommitDecided(n)
    ensures Known(Decided(n, n.pending.value.key)) == Known(n)
  {
    var n' := Decided(n, n.pending.value.key);
    assert UndoSound(n', n.pending.value, n.undo[n.pending.value.key]);
  }

  ghost predicate Settleable(n: Node) {
    Inv(n) && n.fence.None? && forall k :: k in n.receipts ==> n.receipts[k] != Undecided
  }

  lemma ClearKeeps(n: Node)
    requires Settleable(n) && n.pending.Some? && n.live == n.pending.value.baseline
    ensures Settleable(n.(pending := None)) && BothOld(n.(pending := None), n.pending.value)
  {
  }

  lemma CompleteKeeps(n: Node, ledger: Ledger)
    requires Settleable(n) && n.pending.Some? && n.pending.value.key in n.undo
    requires var p := n.pending.value; AllAfter(n.live, n.undo[p.key].members)
    requires var p := n.pending.value;
      && ledger.epoch == p.epoch && ledger.entries.Keys == p.objects.Keys
      && forall path :: path in p.objects ==> path in n.live && ledger.entries[path] == n.live[path]
    ensures Settleable(n.(ledger := Some(ledger), pending := None))
    ensures BothNew(n.(ledger := Some(ledger), pending := None), n.pending.value)
  {
    var p := n.pending.value;
    CommittedAgrees(n, p, n.undo[p.key].members);
    assert ledger == NewLedger(p, n.live);
  }

  lemma RestoreOwnershipKeeps(n: Node)
    requires Settleable(n) && n.pending.Some? && n.pending.value.key in n.undo
    requires var p := n.pending.value; AllBefore(n.live, n.undo[p.key].members)
    ensures var p := n.pending.value;
      var n' := n.(ledger := RestoredLedger(p.before, n.undo[p.key].members), pending := None);
      Settleable(n') && BothOld(n', p)
  {
    var p := n.pending.value;
    RolledBackAgrees(n, p, n.undo[p.key].members);
  }

  // ------------------------------------------------------------------- promotion

  /** Members outside `todo` carry their after images, the others still their before images. */
  ghost predicate Split(members: map<Path, Member>, live: map<Path, File>, todo: set<Path>) {
    && todo <= members.Keys
    && forall q :: q in members ==> if q in todo then IsBefore(live, q, members[q]) else IsAfter(live, q, members[q])
  }

  ghost predicate Promoting(n: Node, todo: set<Path>) {
    Moving(n) && Split(n.fence.value.members, n.live, todo)
  }

  lemma ReadyIsPromoting(n: Node)
    requires Open(n) && n.fence.value.phase == Prepared && !n.fence.value.ready && n.fence.value.key in n.receipts
    ensures Promoting(n.(fence := Some(n.fence.value.(ready := true))), n.fence.value.members.Keys)
  {
    ReadyKeeps(n);
    BaselineIsBefore(n.live, n.pending.value, n.fence.value.members);
  }

  lemma SplitRecord(members: map<Path, Member>, live: map<Path, File>, path: Path, m: Member, todo: set<Path>)
    requires Split(members, live, todo) && path in todo && IsBefore(live, path, m)
    ensures Split(members[path := m], live, todo)
  {
  }

  lemma SplitImage(members: map<Path, Member>, live: map<Path, File>, live': map<Path, File>, path: Path,
                   todo: set<Path>)
    requires Split(members, live, todo)
    requires path in todo
    requires OnlyAt(live, live', path)
    requires IsAfter(live', path, members[path])
    ensures Split(members, live', todo - {path})
  {
    forall q | q in members && q != path
      ensures if q in todo then IsBefore(live', q, members[q]) else IsAfter(live', q, members[q])
    {
      OtherMemberStays(live, live', path, q, members[q]);
    }
  }

  /** A member still to be promoted may change its record only. */
  lemma PromoteRecord(n: Node, path: Path, m: Member, todo: set<Path>)
    requires Promoting(n, todo) && path in todo && SamePlan(m, n.fence.value.members[path]) && IsBefore(n.live, path, m)
    ensures Promoting(WithMember(n, path, m), todo)
  {
    MovingStep(n, n.live, path, m);
    SplitRecord(n.fence.value.members, n.live, path, m, todo);
  }

  lemma MovingImage(n: Node, live: map<Path, File>, path: Path)
    requires Moving(n) && path in n.fence.value.members && OnlyAt(n.live, live, path)
    requires IsBefore(live, path, n.fence.value.members[path]) || IsAfter(live, path, n.fence.value.members[path])
    ensures Moving(n.(live := live))
  {
    var m := n.fence.value.members[path];
    assert n.fence.value.members[path := m] == n.fence.value.members;
    MovingStep(n, live, path, m);
  }

  /** A member whose live image becomes its after image is done. */
  lemma PromoteImage(n: Node, live: map<Path, File>, path: Path, todo: set<Path>)
    requires Promoting(n, todo)
    requires path in todo
    requires OnlyAt(n.live, live, path)
    requires IsAfter(live, path, n.fence.value.members[path])
    ensures Promoting(n.(live := live), todo - {path})
  {
    MovingImage(n, live, path);
    SplitImage(n.fence.value.members, n.live, live, path, todo);
  }

  lemma UnchangedIsAfter(n: Node, path: Path, todo: set<Path>)
    requires Promoting(n, todo) && path in todo && !Changed(n.fence.value.members[path])
    ensures Promoting(n, todo - {path})
  {
    var m := n.fence.value.members[path];
    assert IsBefore(n.live, path, m);
    assert IsAfter(n.live, path, m);
  }

  lemma RecordPromoted(n: Node, path: Path, inode: nat, todo: set<Path>)
    requires Promoting(n, todo) && path in todo && Changed(n.fence.value.members[path])
    ensures Promoting(WithMember(n, path, n.fence.value.members[path].(promoted := Some(inode))), todo)
  {
    assert IsBefore(n.live, path, n.fence.value.members[path]);
    PromoteRecord(n, path, n.fence.value.members[path].(promoted := Some(inode)), todo);
  }

  lemma Promoted(n: Node, path: Path, todo: set<Path>)
    requires Promoting(n, todo) && path in todo
    requires var m := n.fence.value.members[path]; Changed(m) && m.after.Some? && m.promoted.Some?
    ensures var m := n.fence.value.members[path];
      Promoting(n.(live := n.live[path := File(m.promoted.value, m.after.value)]), todo - {path})
  {
    var m := n.fence.value.members[path];
    PromoteImage(n, n.live[path := File(m.promoted.value, m.after.value)], path, todo);
  }

  lemma Deleted(n: Node, path: Path, todo: set<Path>)
    requires Promoting(n, todo) && path in todo && n.fence.value.members[path].after.None?
    ensures Promoting(n.(live := n.live - {path}), todo - {path})
  {
    PromoteImage(n, n.live - {path}, path, todo);
  }

  // ------------------------------------------------------------- what settles how

  predicate Commits(phase: Phase) { phase == Committing || phase == Committed }

  /** The commit decision of the pending transaction is in a journal. */
  ghost predicate CommitDecided(n: Node) {
    && n.pending.Some?
    && match n.fence
       case Some(j) => Commits(j.phase)
       case None => n.pending.value.key in n.undo && n.undo[n.pending.value.key].phase == Committed
  }

  ghost predicate ReceiptCommits(n: Node) {
    n.pending.Some? && n.pending.value.key in n.receipts && n.receipts[n.pending.value.key] == DecidedCommit
  }

  /** Once nothing is undecided, the receipt says what the journal decided. */
  lemma ReceiptFollowsJournal(n: Node)
    requires Settleable(n)
    ensures ReceiptCommits(n) <==> CommitDecided(n)
  {
  }

  /** A retained receipt decides; otherwise the tree must still be the baseline. */
  ghost predicate Settles(n: Node, expired: bool, n': Node)
    requires n.pending.Some?
  {
    var p := n.pending.value;
    if p.key in n.receipts && !expired && n.receipts[p.key] == DecidedCommit then BothNew(n', p) else BothOld(n', p)
  }

  lemma DecidedUndo(n: Node)
    requires Settleable(n) && n.pending.Some? && n.pending.value.key in n.receipts
    ensures var p := n.pending.value;
      && p.key in n.undo && Follows(n.undo[p.key].members, p)
      && (n.receipts[p.key] == DecidedCommit ==> AllAfter(n.live, n.undo[p.key].members))
      && (n.receipts[p.key] == DecidedAbort ==> AllBefore(n.live, n.undo[p.key].members))
  {
  }

  /** The evidence for an object names the live file, and its content is the artifact's. */
  lemma ObjectAttested(live: map<Path, File>, members: map<Path, Member>, p: Pending, path: Path)
    requires AllAfter(live, members) && Follows(members, p) && path in p.objects
    ensures path in members
    ensures AfterIdentity(members[path]).Some?
    ensures AfterIdentity(members[path]).value.content == p.objects[path]
    ensures path in live && AfterIdentity(members[path]).value == live[path]
  {
    AfterIsAttested(live, members, path);
    assert IsAfter(live, path, members[path]);
  }

  /** An owned path the artifact drops is a deleted member and gone. */
  lemma DropAttested(live: map<Path, File>, members: map<Path, Member>, p: Pending, path: Path)
    requires AllAfter(live, members)
    requires Follows(members, p)
    requires Agree(p.baseline, p.before)
    requires Owned(p, path)
    requires path !in p.objects
    ensures path in members && members[path].after.None? && path !in live
  {
    assert path in members;
    assert IsAfter(live, path, members[path]);
  }

  /** Only owned members are ever restored under a new identity, and the restored identity is live. */
  lemma RestoredAttested(live: map<Path, File>, members: map<Path, Member>, p: Pending, path: Path)
    requires AllBefore(live, members) && Follows(members, p) && path in p.baseline
    requires forall q :: q in p.objects && q in p.baseline ==> Owned(p, q)
    ensures path in members && path in live && members[path].before.Some?
    ensures members[path].restored.Some? ==> Owned(p, path) && live[path].inode == members[path].restored.value
    ensures members[path].restored.None? ==> live[path] == p.baseline[path]
  {
    assert path in members;
    assert IsBefore(live, path, members[path]);
  }
}
