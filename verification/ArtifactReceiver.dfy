/** The receiver's code: apply, load-time recovery and settlement, stoppable before every durable write. */
module ArtifactReceiver {
  import opened Common
  import opened ArtifactApply
  import opened ArtifactSteps

  datatype Outcome = Done | Replayed | Refused | RolledBack | Interrupted | Failed

  function MemberCount(fence: Option<Journal>): nat {
    if fence.Some? then |fence.value.members.Keys| else 0
  }

  /** The members of the journal an intent leads to. */
  function MembersOf(p: Pending): nat { |p.baseline.Keys + p.objects.Keys| }

  /** Nothing is decided since `start`, and nothing at all changed unless an intent is pending. */
  ghost predicate Waits(start: Node, n: Node) {
    Keeps(start, n) && (start.pending.None? ==> n == start)
  }

  /** A start that did not settle the intent ran out of writes, or failed over an expired receipt. */
  ghost predicate Stopped(start: Node, next: (nat, bool), r: Outcome) {
    (r == Interrupted ==> next.0 < Enough(start)) && (r == Failed ==> next.1)
  }

  /** Writes that always bring a start to its end. */
  ghost function Enough(n: Node): nat { if n.pending.Some? then 2 * MembersOf(n.pending.value) + 5 else 0 }

  lemma FenceMembers(n: Node)
    requires Inv(n)
    ensures MemberCount(n.fence) <= if n.pending.Some? then MembersOf(n.pending.value) else 0
  {
  }

  lemma BindingIsNoContent(n: Node, p: Pending, q: Pending)
    requires p.(bound := true) == q.(bound := true)
    ensures BothNew(n, p) == BothNew(n, q) && BothOld(n, p) == BothOld(n, q)
  {
    assert forall path :: AfterContent(p, path) == AfterContent(q, path);
    assert Candidate(p) == Candidate(q);
  }

  /**
   Both stores new, path by path: every object of the artifact is there and owned,
   every file the node owned before and the artifact does not name is gone, and
   every other file is as it was.
   */
  lemma BothNewMeans(n: Node, p: Pending, path: Path)
    requires BothNew(n, p)
    ensures var owned := p.before.Some? && path in p.before.value.entries;
      && n.ledger.Some? && n.ledger.value.epoch == p.epoch
      && (path in n.ledger.value.entries <==> path in p.objects)
      && (path in p.objects ==> path in n.live && n.live[path].content == p.objects[path])
      && (path !in p.objects && owned ==> path !in n.live)
      && (path !in p.objects && !owned ==>
            (path in n.live <==> path in p.baseline)
            && (path in n.live ==> n.live[path].content == p.baseline[path].content))
  {
    assert path in Contents(n.live) <==> path in Candidate(p);
  }

  /** The intent is pending, or was never written and nothing moved. */
  ghost predicate Unsettled(n: Node, p: Pending) {
    && (p.before.Some? ==> p.before.value.epoch < p.epoch)
    && if n.pending.Some? then n.pending.value.(bound := true) == p.(bound := true)
       else n.ledger == p.before && n.live == p.baseline
  }

  /**
   What the next apply starts from: the node itself, or, if an intent was still
   pending, that intent settled by its journalled decision while its receipt is retained.
   */
  ghost predicate Settled(n: Node, expired: bool, n': Node) {
    if n.pending.None? then n'.live == n.live && n'.ledger == n.ledger
    else if CommitDecided(n) && !expired then BothNew(n', n.pending.value)
    else BothOld(n', n.pending.value)
  }

  /** The settled node over which an intent was recorded. */
  ghost function Base(p: Pending): Node {
    Node(p.baseline, None, map[], map[], p.before, None)
  }

  /** The same intent is still pending, under the same journalled decision. */
  ghost predicate Keeps(n: Node, n': Node) {
    && n'.pending == n.pending
    && n'.ledger == n.ledger
    && CommitDecided(n') == CommitDecided(n)
  }

  /** What an apply over `Base(p)` leaves behind, for each of its outcomes. */
  ghost predicate Ends(r: Outcome, n: Node, p: Pending) {
    match r
    case Done => n.pending.None? && BothNew(n, p)
    case RolledBack => n.pending.None? && BothOld(n, p)
    case Replayed =>
      && n.pending.None? && n.live == p.baseline && n.ledger == p.before
      && n.ledger.Some? && n.ledger.value.epoch == p.epoch
      && Contents(n.ledger.value.entries) == p.objects
    case Refused =>
      && n.pending.None? && n.live == p.baseline && n.ledger == p.before
      && !Admitted(n, p)
      && !(n.ledger.Some? && n.ledger.value.epoch == p.epoch && Contents(n.ledger.value.entries) == p.objects)
    case Interrupted => Unsettled(n, p)
    case Failed => Unsettled(n, p)
  }

  lemma EndsThenSettles(r: Outcome, n: Node, p: Pending, expired: bool, n': Node)
    requires Ends(r, n, p) && Settled(n, expired, n')
    ensures BothOld(n', p) || BothNew(n', p)
    ensures r == Done ==> BothNew(n', p)
    ensures r in {RolledBack, Replayed, Refused} ==> BothOld(n', p)
  {
    if n.pending.Some? {
      BindingIsNoContent(n', n.pending.value, p);
    }
  }

  lemma SettledKept(n: Node, kept: Node, expired: bool, n': Node)
    requires Keeps(n, kept) && (n.pending.None? ==> kept == n)
    requires Settled(kept, expired, n')
    ensures Settled(n, expired, n')
  {
  }

  lemma SettlesIsSettled(n: Node, expired: bool, n': Node)
    requires Settleable(n)
    requires if n.pending.Some? then Settles(n, expired, n') else n' == n
    ensures Settled(n, expired, n')
  {
    ReceiptFollowsJournal(n);
  }

  /**
   `budget` counts the durable writes left before the process stops. Each check
   the recovery makes on its evidence is an assertion: none can fail.
   */
  class Receiver {
    var live: map<Path, File>
    var fence: Option<Journal>
    var undo: map<Key, Journal>
    var receipts: map<Key, Decision>
    var ledger: Option<Ledger>
    var pending: Option<Pending>
    var nextInode: nat

    ghost function View(): Node
      reads this
    {
      Node(live, fence, undo, receipts, ledger, pending)
    }

    /** A node before its first artifact. */
    constructor (live: map<Path, File>, nextInode: nat)
      ensures View() == Node(live, None, map[], map[], None, None) && Inv(View())
    {
      this.live, this.nextInode := live, nextInode;
      fence, undo, receipts, ledger, pending := None, map[], map[], None, None;
    }

    // ---------------------------------------------------------------- recovery

    /** One member of the restore loop: journal the restored identity, then rename; or unlink. */
    method RestoreOne(path: Path, ghost todo: set<Path>, budget: nat) returns (left: nat, finished: bool)
      requires Restoring(View(), todo) && path in todo
      modifies this`live, this`fence, this`nextInode
      ensures Moving(View())
      ensures fence.value.members.Keys == old(fence.value.members.Keys)
      ensures fence.value.key == old(fence.value.key)
      ensures finished ==> Restoring(View(), todo - {path}) && budget <= left + 2
      ensures !finished ==> budget < 2
    {
      var m := fence.value.members[path];
      if IsBefore(live, path, m) { return budget, true; }
      if budget == 0 { return 0, false; }
      left := budget - 1;
      if m.before.None? {
        Unlinked(View(), path, todo);
        live := live - {path};
        return left, true;
      }
      RecordRestored(View(), path, nextInode, todo);
      var m' := m.(restored := Some(nextInode));
      fence := Some(fence.value.(members := fence.value.members[path := m']));
      if left == 0 { return 0, false; }
      left := left - 1;
      RenamedBack(View(), path, todo);
      live := live[path := File(nextInode, m.before.value.content)];
      nextInode := nextInode + 1;
      return left, true;
    }

    /** Every member back to its before image. */
    method RestoreMembers(budget: nat) returns (left: nat, finished: bool)
      requires Moving(View())
      modifies this`live, this`fence, this`nextInode
      ensures Moving(View())
      ensures fence.value.members.Keys == old(fence.value.members.Keys)
      ensures fence.value.key == old(fence.value.key)
      ensures finished ==> AllBefore(live, fence.value.members) && budget <= left + 2 * MemberCount(fence)
      ensures !finished ==> budget < 2 * MemberCount(fence)
    {
      left, finished := budget, true;
      var todo := fence.value.members.Keys;
      while todo != {} && finished
        invariant Moving(View())
        invariant fence.value.members.Keys == old(fence.value.members.Keys)
        invariant fence.value.key == old(fence.value.key)
        invariant |todo| <= MemberCount(fence)
        invariant finished ==> Restoring(View(), todo) && budget <= left + 2 * (MemberCount(fence) - |todo|)
        invariant !finished ==> budget < 2 * MemberCount(fence)
        decreases todo
      {
        var path :| path in todo;
        left, finished := RestoreOne(path, todo, left);
        todo := todo - {path};
      }
    }

    /** `restore_members` for a transaction that may have changed members. */
    method RollBack(budget: nat) returns (left: nat, finished: bool)
      requires Moving(View())
      modifies this`live, this`fence, this`nextInode
      ensures Open(View())
      ensures fence.value.key == old(fence.value.key)
      ensures (fence.value.phase == Prepared || fence.value.phase == AbortCleanup)
      ensures finished ==> fence.value.phase == AbortCleanup && budget <= left + 2 * old(MemberCount(fence)) + 1
      ensures !finished ==> budget < 2 * old(MemberCount(fence)) + 1
    {
      left, finished := RestoreMembers(budget);
      if !finished { return; }
      if left == 0 { return 0, false; }
      left := left - 1;
      AbortCleanupKeeps(View());
      fence := Some(fence.value.(phase := AbortCleanup, ready := false));
    }

    /** Rolls an undecided transaction back to a terminal abort. */
    method AbortFence(budget: nat) returns (left: nat, finished: bool)
      requires Open(View())
      requires fence.value.key in receipts
      requires (fence.value.phase == Prepared || fence.value.phase == AbortCleanup)
      modifies this`live, this`fence, this`nextInode
      ensures Open(View()) && fence.value.key == old(fence.value.key) && !Commits(fence.value.phase)
      ensures finished ==> fence.value.phase == Aborted && budget <= left + 2 * old(MemberCount(fence)) + 2
      ensures !finished ==> budget < 2 * old(MemberCount(fence)) + 2
    {
      left, finished := budget, true;
      if fence.value.phase == Prepared && fence.value.ready {
        left, finished := RollBack(budget);
        if !finished { return; }
      }
      if left == 0 { return 0, false; }
      left := left - 1;
      AbortedKeeps(View());
      fence := Some(fence.value.(phase := Aborted));
    }

    /** Drives an active fence to a terminal phase: forward if the commit was decided, back otherwise. */
    method DecideFence(budget: nat) returns (left: nat, finished: bool)
      requires Open(View()) && fence.value.key in receipts
      modifies this`live, this`fence, this`nextInode
      ensures Open(View())
      ensures fence.value.key == old(fence.value.key)
      ensures Commits(fence.value.phase) == old(Commits(fence.value.phase))
      ensures finished ==> Terminal(View()) && budget <= left + 2 * old(MemberCount(fence)) + 2
      ensures !finished ==> budget < 2 * old(MemberCount(fence)) + 2
    {
      left, finished := budget, true;
      if fence.value.phase == Prepared || fence.value.phase == AbortCleanup {
        left, finished := AbortFence(budget);
      } else if fence.value.phase == Committing {
        if left == 0 { return 0, false; }
        left := left - 1;
        CommittedKeeps(View());
        fence := Some(fence.value.(phase := Committed));
      }
    }

    /** Terminal rename, then the receipt's decision. */
    method CloseFence(budget: nat) returns (left: nat, finished: bool)
      requires Terminal(View())
      modifies this`fence, this`undo, this`receipts
      ensures Inv(View())
      ensures Known(View()) == old(Known(View()))
      ensures finished ==> Settleable(View()) && budget == left + 2
      ensures CommitDecided(View()) == Commits(old(fence).value.phase)
      ensures !finished ==> budget < 2
    {
      if budget == 0 { return 0, false; }
      var key := fence.value.key;
      TerminalizeKeeps(View());
      undo, fence := undo[key := fence.value], None;
      if budget == 1 { return 0, false; }
      DecideKeeps(View());
      receipts := receipts[key := DecisionOf(undo[key].phase)];
      return budget - 2, true;
    }

    /** Without a fence, an undecided receipt takes the decision its terminal undo records. */
    method ReconcileReceipts(budget: nat) returns (left: nat, finished: bool)
      requires Inv(View()) && fence.None?
      modifies this`receipts
      ensures Inv(View()) && Known(View()) == old(Known(View()))
      ensures finished ==> Settleable(View()) && budget <= left + 1
      ensures !finished ==> budget < 1
      ensures old(pending).None? ==> finished && left == budget && receipts == old(receipts)
      ensures CommitDecided(View()) == old(CommitDecided(View()))
    {
      left := budget;
      var todo := receipts.Keys;
      while todo != {}
        invariant Inv(View()) && todo <= receipts.Keys && Known(View()) == old(Known(View()))
        invariant forall k :: k in receipts && k !in todo ==> receipts[k] != Undecided
        invariant left == budget || (left + 1 == budget && forall k :: k in receipts ==> receipts[k] != Undecided)
        invariant pending.None? ==> left == budget && receipts == old(receipts)
        decreases todo
      {
        var key :| key in todo;
        if receipts[key] == Undecided {
          assert key in undo;
          if left == 0 { return 0, false; }
          left := left - 1;
          DecideKeeps(View());
          receipts := receipts[key := DecisionOf(undo[key].phase)];
        }
        todo := todo - {key};
      }
      return left, true;
    }

    /** `recover_active`. */
    method Recover(budget: nat) returns (left: nat, finished: bool)
      requires Inv(View())
      modifies this`live, this`fence, this`undo, this`receipts, this`nextInode
      ensures Inv(View()) && Known(View()) == old(Known(View()))
      ensures finished ==> Settleable(View()) && budget <= left + 2 * old(MemberCount(fence)) + 4
      ensures !finished ==> budget < 2 * old(MemberCount(fence)) + 4
      ensures old(pending).None? ==> finished && left == budget && View() == old(View())
      ensures CommitDecided(View()) == old(CommitDecided(View()))
    {
      if fence.None? {
        left, finished := ReconcileReceipts(budget);
        return;
      }
      if fence.value.key !in receipts {
        if budget == 0 { return 0, false; }
        DropFenceKeeps(View());
        fence := None;
        return budget - 1, true;
      }
      left, finished := DecideFence(budget);
      if finished {
        left, finished := CloseFence(left);
      }
    }

    // -------------------------------------------------------------- settlement

    /** `complete`: identities come from the journal evidence, the live reads only confirm them. */
    method AttestedEntries(p: Pending, members: map<Path, Member>) returns (entries: map<Path, File>)
      requires AllAfter(live, members) && Follows(members, p) && Agree(p.baseline, p.before)
      ensures entries.Keys == p.objects.Keys
      ensures forall path :: path in p.objects ==> path in live && entries[path] == live[path]
    {
      entries := map[];
      var todo := p.objects.Keys;
      while todo != {}
        invariant todo <= p.objects.Keys && entries.Keys == p.objects.Keys - todo
        invariant forall path :: path in entries ==> path in live && entries[path] == live[path]
        decreases todo
      {
        var path :| path in todo;
        ObjectAttested(live, members, p, path);
        assert AfterIdentity(members[path]).value.content == p.objects[path];
        entries := entries[path := AfterIdentity(members[path]).value];
        todo := todo - {path};
      }
      forall path | Owned(p, path) && path !in p.objects ensures path !in live && members[path].after.None? {
        DropAttested(live, members, p, path);
      }
    }

    /** The entry updates of `restore_ownership`: each restored file takes its restored identity. */
    method RestoredEntries(before: map<Path, File>, members: map<Path, Member>, paths: set<Path>)
      returns (entries: map<Path, File>)
      requires before.Keys <= paths <= members.Keys
      requires forall path :: path in paths && members[path].restored.Some? ==>
        path in before && members[path].before.Some?
      ensures entries.Keys == before.Keys
      ensures forall path :: path in before ==> entries[path] == RestoredFile(before[path], members, path)
    {
      entries := before;
      var todo := paths;
      while todo != {}
        invariant todo <= paths && entries.Keys == before.Keys
        invariant forall path :: path in before ==>
          entries[path] == if path in todo then before[path] else RestoredFile(before[path], members, path)
        decreases todo
      {
        var path :| path in todo;
        if members[path].restored.Some? {
          entries := entries[path := File(members[path].restored.value, entries[path].content)];
        }
        todo := todo - {path};
      }
    }

    /** `restore_ownership`. */
    method RestoredOwnership(p: Pending, members: map<Path, Member>) returns (restored: Option<Ledger>)
      requires AllBefore(live, members) && Follows(members, p) && Agree(p.baseline, p.before)
      requires forall q :: q in p.objects && q in p.baseline ==> Owned(p, q)
      ensures restored == RestoredLedger(p.before, members)
    {
      if p.before.None? { return None; }
      forall path | path in p.baseline
        ensures members[path].restored.Some? ==>
          && Owned(p, path)
          && members[path].before.Some?
          && live[path].inode == members[path].restored.value
        ensures members[path].restored.None? ==> live[path] == p.baseline[path]
      {
        RestoredAttested(live, members, p, path);
      }
      var entries := RestoredEntries(p.before.value.entries, members, p.baseline.Keys);
      assert entries == RestoredLedger(p.before, members).value.entries;
      return Some(p.before.value.(entries := entries));
    }

    /** `settle_pending` with `OwnershipStore::recover`. */
    method Settle(budget: nat, expired: bool) returns (left: nat, r: Outcome)
      requires Settleable(View())
      modifies this`ledger, this`pending
      ensures Settleable(View())
      ensures r == Done || r == Interrupted || r == Failed
      ensures r == Done ==> pending.None? && budget <= left + 1
      ensures r != Done ==> View() == old(View())
      ensures r == Done && old(pending).Some? ==> Settles(old(View()), expired, View())
      ensures old(pending).None? ==> r == Done && left == budget && View() == old(View())
      ensures r == Failed <==>
        && old(pending).Some?
        && old(pending).value.key in receipts
        && expired
        && live != old(pending).value.baseline
      ensures r == Interrupted ==> budget == 0
    {
      if pending.None? { return budget, Done; }
      var p := pending.value;
      if p.key !in receipts || expired {
        if live != p.baseline { return budget, Failed; }
        if budget == 0 { return 0, Interrupted; }
        ClearKeeps(View());
        pending := None;
        return budget - 1, Done;
      }
      if budget == 0 { return 0, Interrupted; }
      DecidedUndo(View());
      var members := undo[p.key].members;
      if receipts[p.key] == DecidedCommit {
        var entries := AttestedEntries(p, members);
        CompleteKeeps(View(), Ledger(p.epoch, entries));
        ledger, pending := Some(Ledger(p.epoch, entries)), None;
      } else {
        var restored := RestoredOwnership(p, members);
        RestoreOwnershipKeeps(View());
        ledger, pending := restored, None;
      }
      return budget - 1, Done;
    }

    /** `load`: recovery, then settlement. */
    method Load(budget: nat, expired: bool) returns (left: nat, r: Outcome)
      requires Inv(View())
      modifies this
      ensures Inv(View())
      ensures r == Done || r == Interrupted || r == Failed
      ensures r == Done ==> Settleable(View()) && pending.None? && Agree(live, ledger)
      ensures r == Done ==> Known(View()) <= old(Known(View()))
      ensures r == Done ==> Settled(old(View()), expired, View())
      ensures r != Done ==> Keeps(old(View()), View())
      ensures old(pending).None? ==> r == Done && left == budget && View() == old(View())
      ensures r == Failed ==>
        && expired
        && fence.None?
        && old(pending).value.key in receipts
        && live != old(pending).value.baseline
      ensures r == Interrupted ==> budget < 2 * old(MemberCount(fence)) + 5
      ensures r == Done ==> budget <= left + 2 * old(MemberCount(fence)) + 5
    {
      var finished;
      left, finished := Recover(budget);
      if !finished { return left, Interrupted; }
      ghost var recovered := View();
      ReceiptFollowsJournal(recovered);
      left, r := Settle(left, expired);
      if r == Done {
        SettlesIsSettled(recovered, expired, View());
        SettledKept(old(View()), recovered, expired, View());
      }
    }

    /** One more start, of a node that keeps what it had at `start`. */
    method LoadAgain(ghost start: Node, next: (nat, bool)) returns (r: Outcome)
      requires Inv(View()) && Waits(start, View())
      modifies this
      ensures Inv(View())
      ensures r == Done || r == Interrupted || r == Failed
      ensures r == Done ==> Settled(start, next.1, View()) && pending.None? && fence.None? && Agree(live, ledger)
      ensures r != Done ==> start.pending.Some? && Waits(start, View()) && Stopped(start, next, r)
      ensures start.pending.None? ==> View() == start
    {
      ghost var before := View();
      FenceMembers(before);
      var left;
      left, r := Load(next.0, next.1);
      if r == Done { SettledKept(start, before, next.1, View()); }
    }

    /**
     Any number of starts, each stopped after `starts[i].0` writes and each with
     the receipt expired or not: the first that finishes settles the intent.
     */
    method LoadAfterCrashes(starts: seq<(nat, bool)>) returns (r: Outcome, at: nat)
      requires Inv(View())
      modifies this
      ensures Inv(View())
      ensures r == Done || r == Interrupted || r == Failed
      ensures r == Done ==> at < |starts| && Settled(old(View()), starts[at].1, View())
      ensures r == Done ==> pending.None? && fence.None? && Agree(live, ledger)
      ensures r != Done ==> Keeps(old(View()), View())
      ensures r != Done && starts != [] ==> Stopped(old(View()), starts[|starts| - 1], r)
      ensures r == Failed ==> starts != []
      ensures starts != [] && old(pending).None? ==> r == Done && View() == old(View())
    {
      ghost var start := View();
      r, at := Interrupted, 0;
      while at < |starts|
        invariant 0 <= at <= |starts| && Inv(View())
        invariant r == Interrupted || r == Failed
        invariant Waits(start, View())
        invariant if at == 0 then r == Interrupted else start.pending.Some? && Stopped(start, starts[at - 1], r)
      {
        r := LoadAgain(start, starts[at]);
        if r == Done { return; }
        at := at + 1;
      }
    }

    // ------------------------------------------------------------------- apply

    /** Setup journal, prepared journal, undecided receipt, then the binding to the intent. */
    method Prepare(budget: nat) returns (left: nat, finished: bool)
      requires Inv(View()) && pending.Some? && fence.None?
      requires pending.value.key !in receipts && pending.value.key !in undo
      modifies this`fence, this`receipts, this`pending
      ensures Inv(View()) && pending.Some? && pending.value.(bound := true) == old(pending.value).(bound := true)
      ensures finished ==>
        && pending.value.bound
        && Open(View())
        && fence.value.phase == Prepared
        && !fence.value.ready
        && fence.value.key in receipts
      ensures if finished then budget == left + 4 else budget < 4
    {
      if budget < 1 { return 0, false; }
      SetUpKeeps(View());
      fence := Some(Journal(pending.value.key, Setup, false, PlanMembers(pending.value)));
      if budget < 2 { return 0, false; }
      PreparedKeeps(View());
      fence := Some(fence.value.(phase := Prepared));
      if budget < 3 { return 0, false; }
      ReceiptKeeps(View());
      receipts := receipts[fence.value.key := Undecided];
      if budget < 4 { return 0, false; }
      BindKeeps(View());
      pending := Some(pending.value.(bound := true));
      return budget - 4, true;
    }

    method PromoteOne(path: Path, ghost todo: set<Path>, budget: nat) returns (left: nat, finished: bool)
      requires Promoting(View(), todo) && path in todo
      modifies this`live, this`fence, this`nextInode
      ensures Moving(View())
      ensures fence.value.key == old(fence.value.key)
      ensures fence.value.members.Keys == old(fence.value.members.Keys)
      ensures finished ==> Promoting(View(), todo - {path})
      ensures if finished then budget <= left + 2 else budget < 2
    {
      var m := fence.value.members[path];
      if !Changed(m) {
        UnchangedIsAfter(View(), path, todo);
        return budget, true;
      }
      if budget == 0 { return 0, false; }
      if m.after.None? {
        Deleted(View(), path, todo);
        live := live - {path};
        return budget - 1, true;
      }
      RecordPromoted(View(), path, nextInode, todo);
      var m' := m.(promoted := Some(nextInode));
      fence := Some(fence.value.(members := fence.value.members[path := m']));
      if budget == 1 { return 0, false; }
      Promoted(View(), path, todo);
      live := live[path := File(nextInode, m.after.value)];
      nextInode := nextInode + 1;
      return budget - 2, true;
    }

    method Promote(budget: nat) returns (left: nat, finished: bool)
      requires fence.Some? && Promoting(View(), fence.value.members.Keys)
      modifies this`live, this`fence, this`nextInode
      ensures Moving(View())
      ensures fence.value.key == old(fence.value.key)
      ensures fence.value.members.Keys == old(fence.value.members.Keys)
      ensures finished ==> AllAfter(live, fence.value.members) && budget <= left + 2 * MemberCount(fence)
      ensures !finished ==> budget < 2 * MemberCount(fence)
    {
      left, finished := budget, true;
      var todo := fence.value.members.Keys;
      while todo != {} && finished
        invariant Moving(View())
        invariant fence.value.key == old(fence.value.key)
        invariant fence.value.members.Keys == old(fence.value.members.Keys)
        invariant |todo| <= MemberCount(fence)
        invariant finished ==> Promoting(View(), todo) && budget <= left + 2 * (MemberCount(fence) - |todo|)
        invariant !finished ==> budget < 2 * MemberCount(fence)
        decreases todo
      {
        var path :| path in todo;
        left, finished := PromoteOne(path, todo, left);
        todo := todo - {path};
      }
    }

    /** The commit decision over promoted members, the terminal rename and the receipt. */
    method Conclude(budget: nat) returns (left: nat, finished: bool)
      requires Moving(View()) && AllAfter(live, fence.value.members)
      modifies this`fence, this`undo, this`receipts
      ensures Inv(View())
      ensures finished ==> Settleable(View()) && CommitDecided(View()) && budget == left + 4
      ensures !finished ==> budget < 4
    {
      if budget < 1 { return 0, false; }
      CommittingKeeps(View());
      fence := Some(fence.value.(phase := Committing));
      if budget < 2 { return 0, false; }
      CommittedKeeps(View());
      fence := Some(fence.value.(phase := Committed));
      left, finished := CloseFence(budget - 2);
    }

    /** `commit`: promotion, the commit decision, the terminal rename and the receipt. */
    method Commit(budget: nat) returns (left: nat, finished: bool)
      requires Open(View()) && fence.value.phase == Prepared && !fence.value.ready && fence.value.key in receipts
      modifies this`live, this`fence, this`undo, this`receipts, this`nextInode
      ensures Inv(View())
      ensures finished ==>
        && Settleable(View())
        && pending.value.key in receipts
        && receipts[pending.value.key] == DecidedCommit
      ensures if finished then budget <= left + 2 * old(MemberCount(fence)) + 5
              else budget < 2 * old(MemberCount(fence)) + 5
    {
      if budget == 0 { return 0, false; }
      ReadyIsPromoting(View());
      fence := Some(fence.value.(ready := true));
      left, finished := Promote(budget - 1);
      if !finished { return; }
      left, finished := Conclude(left);
      if finished { ReceiptFollowsJournal(View()); }
    }

    /** Everything after preflight, up to the ownership settlement. */
    method Transact(p: Pending, budget: nat, expired: bool) returns (r: Outcome)
      requires Inv(View()) && Admitted(View(), p) && p.bound == false
      modifies this
      ensures Inv(View())
      ensures r == Done || r == Interrupted || r == Failed
      ensures r == Done ==> pending.None? && fence.None? && BothNew(View(), p)
      ensures r != Done ==> Unsettled(View(), p)
      ensures r == Failed ==> expired
      ensures r == Interrupted ==> budget < 2 * MembersOf(p) + 11
    {
      if budget == 0 { return Interrupted; }
      BeginKeeps(View(), p);
      pending := Some(p);
      var left, finished := Prepare(budget - 1);
      if !finished { return Interrupted; }
      left, finished := Commit(left);
      if !finished { return Interrupted; }
      if expired { return Failed; }
      ghost var bound := pending.value;
      left, r := Settle(left, false);
      BindingIsNoContent(View(), bound, p);
    }

    /** The error paths of an apply that still holds the guard. */
    method RecoverFailedWrite(p: Pending, budget: nat, expired: bool) returns (r: Outcome)
      requires Inv(View()) && Unsettled(View(), p)
      modifies this
      ensures Inv(View())
      ensures r in {Done, RolledBack, Interrupted, Failed}
      ensures r == Done ==> BothNew(View(), p)
      ensures r == RolledBack ==> BothOld(View(), p)
      ensures r in {Done, RolledBack} ==> pending.None? && fence.None? && Agree(live, ledger)
      ensures r in {Interrupted, Failed} ==> Unsettled(View(), p)
      ensures r == Failed ==> expired
      ensures r == Interrupted ==> budget < 2 * MembersOf(p) + 5
    {
      ghost var intent := if pending.Some? then pending.value else p;
      FenceMembers(View());
      var left;
      left, r := Load(budget, expired);
      if r == Done {
        BindingIsNoContent(View(), intent, p);
        r := if ledger.Some? && ledger.value.epoch == p.epoch then Done else RolledBack;
      }
    }

    /** An admitted apply, with its error path when the code keeps control. */
    method Proceed(p: Pending, budget: nat, expired: bool, handled: bool, retries: nat, lapsed: bool)
      returns (r: Outcome)
      requires Inv(View()) && Admitted(View(), p) && !p.bound
      modifies this
      ensures Inv(View()) && Ends(r, View(), p)
      ensures r in {Done, RolledBack, Interrupted, Failed}
      ensures r in {Done, RolledBack} ==> pending.None? && fence.None? && Agree(live, ledger)
      ensures r == Failed ==> expired || lapsed
      ensures r in {Interrupted, RolledBack} ==> budget < 2 * MembersOf(p) + 11
      ensures r == Interrupted && handled ==> retries < 2 * MembersOf(p) + 5
    {
      r := Transact(p, budget, expired);
      if r == Interrupted && handled {
        r := RecoverFailedWrite(p, retries, lapsed);
      }
    }

    /** Destinations the artifact would write but the node does not own. */
    function Occupied(objects: map<Path, Content>): set<Path>
      reads this
    {
      set path | path in objects && path in live && (ledger.None? || path !in ledger.value.entries)
    }

    predicate SameObjects(objects: map<Path, Content>)
      reads this
    {
      ledger.Some? && Contents(ledger.value.entries) == objects
    }

    /** `preflight` and the candidate plan. */
    method Preflight(key: Key, epoch: nat, objects: map<Path, Content>) returns (r: Outcome, p: Pending)
      requires Settleable(View()) && pending.None? && key !in undo && key !in receipts
      ensures p == Pending(key, epoch, ledger, live, objects, false)
      ensures r == Done <==> Admitted(View(), p)
      ensures r == Replayed <==> ledger.Some? && ledger.value.epoch == epoch && SameObjects(objects)
      ensures r in {Done, Replayed, Refused}
    {
      p := Pending(key, epoch, ledger, live, objects, false);
      if ledger.Some? && epoch <= ledger.value.epoch {
        return if epoch == ledger.value.epoch && SameObjects(objects) then Replayed else Refused, p;
      }
      var occupied := Occupied(objects);
      assert forall path :: path in objects && path in live && (ledger.None? || path !in ledger.value.entries) ==>
        path in occupied;
      if occupied != {} {
        var path :| path in occupied;
        return Refused, p;
      }
      return Done, p;
    }

    /**
     `apply_with_runtime`. The request key is fresh by its random attempt. When
     the code keeps control after a failed write (`handled`), it recovers and
     settles itself within `retries` further writes. The receipt of an intent
     found pending may have expired (`stale`), and so may this apply's own by the
     time it settles (`expired`) or recovers (`lapsed`).
     */
    method Apply(key: Key, epoch: nat, objects: map<Path, Content>, budget: nat, stale: bool, expired: bool,
                 handled: bool, retries: nat, lapsed: bool)
      returns (r: Outcome, begun: Option<Pending>)
      requires Inv(View()) && key !in Known(View())
      modifies this
      ensures Inv(View())
      ensures old(pending).None? ==> begun == Some(Pending(key, epoch, old(ledger), old(live), objects, false))
      ensures begun.Some? ==>
        && begun.value == Pending(key, epoch, begun.value.before, begun.value.baseline, objects, false)
        && Settled(old(View()), stale, Base(begun.value))
      ensures begun.None? ==> r in {Interrupted, Failed} && (r == Failed ==> stale) && Keeps(old(View()), View())
      ensures begun.Some? ==> Ends(r, View(), begun.value)
      ensures begun.Some? && r == Failed ==> expired || lapsed
      ensures r in {Interrupted, RolledBack} ==>
        budget < 2 * old(MemberCount(fence)) + 5 + if begun.Some? then 2 * MembersOf(begun.value) + 11 else 0
      ensures r in {Done, RolledBack, Replayed, Refused} ==> pending.None? && fence.None? && Agree(live, ledger)
      ensures old(pending).None? && r in {Replayed, Refused} ==> View() == old(View())
    {
      var left;
      left, r := Load(budget, stale);
      if r != Done { return r, None; }
      var p;
      r, p := Preflight(key, epoch, objects);
      begun := Some(p);
      if r != Done { return; }
      r := Proceed(p, left, expired, handled, retries, lapsed);
    }

    /**
     An apply stopped or finished anywhere, then any number of starts of which one
     finishes: the node ends entirely old or entirely new, measured against the
     node before the call.
     */
    method ApplyThenLoad(key: Key, epoch: nat, objects: map<Path, Content>, budget: nat, stale: bool, expired: bool,
                         handled: bool, retries: nat, lapsed: bool, starts: seq<(nat, bool)>)
      returns (applied: Outcome, begun: Option<Pending>, loaded: Outcome)
      requires Inv(View()) && key !in Known(View())
      modifies this
      ensures Inv(View())
      ensures loaded == Done ==> pending.None? && fence.None? && Agree(live, ledger)
      ensures old(pending).None? ==> begun == Some(Pending(key, epoch, old(ledger), old(live), objects, false))
      ensures begun.Some? ==>
        && begun.value == Pending(key, epoch, begun.value.before, begun.value.baseline, objects, false)
        && Settled(old(View()), stale, Base(begun.value))
      ensures loaded == Done && begun.Some? ==> BothOld(View(), begun.value) || BothNew(View(), begun.value)
      ensures loaded == Done && applied == Done ==> begun.Some? && BothNew(View(), begun.value)
      ensures loaded == Done && applied in {RolledBack, Replayed, Refused} ==>
        begun.Some? && BothOld(View(), begun.value)
      ensures loaded == Done && begun.None? ==>
        Settled(old(View()), false, View()) || Settled(old(View()), true, View())
    {
      applied, begun := Apply(key, epoch, objects, budget, stale, expired, handled, retries, lapsed);
      ghost var stopped := View();
      var at;
      loaded, at := LoadAfterCrashes(starts);
      if loaded == Done {
        if begun.Some? {
          EndsThenSettles(applied, stopped, begun.value, starts[at].1, View());
        } else {
          SettledKept(old(View()), stopped, starts[at].1, View());
        }
      }
    }
  }
}
