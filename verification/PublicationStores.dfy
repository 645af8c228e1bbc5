/** The publication store object and the publisher's entry points. */
module PublicationStores {
  import opened Common
  import opened Publication

  datatype Result = Ok | Faulted | Refused | WriteFailed

  /**
   What a reservation stopped at a failed write leaves: nothing, the epoch taken, or, had the write
   landed, all of it.
   */
  predicate HalfReserved(s: State, record: Record, landed: bool, s': State) {
    || s' == s
    || s' == s.(highWater := s.highWater + 1)
    || (landed && s' == Reserved(s, record))
  }

  /** The writes a call may use before it ends this way: one for each epoch, one more to collect. */
  function Spent(s: State, r: Result): nat { s.highWater + if r == Ok then 1 else 0 }

  class PublicationStore {
    /** What reopening would read. */
    var disk: State
    var state: State
    var poisoned: bool

    ghost predicate Sound()
      reads this
    {
      Good(disk) && (!poisoned ==> state == disk)
    }

    constructor ()
      ensures Sound() && !poisoned && disk == State(0, 0, map[])
    {
      disk := State(0, 0, map[]);
      state := State(0, 0, map[]);
      poisoned := false;
    }

    /** A new `open` reads the authoritative state. */
    method Reopen()
      requires Sound()
      modifies this`state, this`poisoned
      ensures Sound() && !poisoned && state == disk
    {
      state, poisoned := disk, false;
    }

    /** With no write left the write fails; `landed` says whether it reached the disk all the same. */
    method Persist(next: State, budget: nat, landed: bool) returns (left: nat, ok: bool)
      requires Sound() && !poisoned && Good(next)
      modifies this
      ensures Sound() && ok == (budget > 0) && poisoned == !ok
      ensures ok ==> state == next && left == budget - 1
      ensures disk == if ok || landed then next else old(disk)
      ensures !ok ==> left == 0
    {
      if budget > 0 || landed { disk := next; }
      if budget == 0 {
        poisoned := true;
        return 0, false;
      }
      state := next;
      return budget - 1, true;
    }

    /** One iteration of `recover` at epoch `n`, of a recovery that began at `s`. */
    method CarryOut(ghost s: State, n: nat, ev: Evidence, now: nat, budget: nat, landed: bool)
      returns (r: Result, left: nat)
      requires Sound() && !poisoned && Good(s) && SettledBelow(s, n, ev, now, state)
      modifies this
      ensures Sound() && (poisoned <==> r == WriteFailed) && r in {Ok, Faulted, WriteFailed}
      ensures r == Faulted <==> JudgeAt(s, n, ev) == Fault
      ensures r == Ok ==> SettledBelow(s, n + 1, ev, now, state)
      ensures r == Faulted ==> state == old(state)
      ensures r == WriteFailed ==> SettledBelow(s, n, ev, now, disk) || SettledBelow(s, n + 1, ev, now, disk)
      ensures budget <= left + 1 && (r == WriteFailed ==> left == 0 && budget == 0)
    {
      left := budget;
      CarryKeepsGood(s, n, ev, now, state);
      var verdict := JudgeAt(state, n, ev);
      if verdict == Fault { return Faulted, left; }
      if verdict.Keep? { return Ok, left; }
      var ok;
      left, ok := Persist(Carried(state, n, verdict, now), budget, landed);
      return if ok then Ok else WriteFailed, left;
    }

    /**
     `recover`: the pending intents in epoch order, stopping at the first error.
     `upTo` is the first epoch not carried out.
     */
    method Recover(ev: Evidence, now: nat, budget: nat, landed: bool) returns (r: Result, left: nat, upTo: nat)
      requires Sound() && !poisoned
      modifies this
      ensures Sound() && (poisoned <==> r == WriteFailed) && r in {Ok, Faulted, WriteFailed}
      ensures r == Ok ==> NoFaults(old(state), ev) && upTo == old(state).highWater + 1
      ensures r == Faulted ==> JudgeAt(old(state), upTo, ev) == Fault
      ensures NoFaultBelow(old(state), upTo, ev)
      ensures r != WriteFailed ==> SettledBelow(old(state), upTo, ev, now, state)
      ensures r == WriteFailed ==> JudgeAt(old(state), upTo, ev) != Fault
      ensures r == WriteFailed ==>
        SettledBelow(old(state), upTo, ev, now, disk) || SettledBelow(old(state), upTo + 1, ev, now, disk)
      ensures budget <= left + old(state).highWater && (r == WriteFailed ==> left == 0)
    {
      left, upTo := budget, 1;
      NothingSettledYet(state, ev, now);
      while upTo <= state.highWater
        invariant Sound() && !poisoned && state.highWater == old(state).highWater && 1 <= upTo <= state.highWater + 1
        invariant SettledBelow(old(state), upTo, ev, now, state)
        invariant NoFaultBelow(old(state), upTo, ev)
        invariant budget <= left + upTo - 1
        decreases old(state).highWater - upTo
      {
        r, left := CarryOut(old(state), upTo, ev, now, left, landed);
        if r != Ok { return; }
        upTo := upTo + 1;
      }
      NoFaultAnywhere(old(state), ev);
      return Ok, left, upTo;
    }

    /** A new `open`, then `recover`: whatever stops it, the disk holds the intents settled below `upTo`. */
    method ReopenAndRecover(ev: Evidence, now: nat, budget: nat, landed: bool)
      returns (r: Result, left: nat, ghost upTo: nat)
      requires Sound()
      modifies this
      ensures Sound() && (poisoned <==> r == WriteFailed) && r in {Ok, Faulted, WriteFailed}
      ensures SettledBelow(old(disk), upTo, ev, now, disk) && NoFaultBelow(old(disk), upTo, ev)
      ensures r == Ok ==> NoFaults(old(disk), ev) && upTo == old(disk).highWater + 1
      ensures r == Faulted ==> JudgeAt(old(disk), upTo, ev) == Fault
      ensures budget <= left + old(disk).highWater && (r == WriteFailed ==> left == 0)
    {
      Reopen();
      var n;
      r, left, n := Recover(ev, now, budget, landed);
      upTo := if r == WriteFailed && !SettledBelow(old(disk), n, ev, now, disk) then n + 1 else n;
    }

    /** The two newest committed epochs, scanning from the top. */
    method LastTwo() returns (kept: set<nat>)
      requires Sound() && !poisoned
      ensures NewestCommitted(state, kept)
    {
      kept := {};
      var e := state.highWater;
      while e > 0 && |kept| < 2
        invariant |kept| <= 2 && CommittedAbove(state, kept, e)
      {
        ScanDown(state, kept, e);
        if IsCommitted(state, e) { kept := kept + {e}; }
        e := e - 1;
      }
      ScanStops(state, kept, e);
    }

    /** The collected state written, or, by a failed write that landed, there all the same. */
    method Collect(now: nat, budget: nat, landed: bool) returns (left: nat, ok: bool, kept: set<nat>)
      requires Sound() && !poisoned
      modifies this
      ensures Sound() && poisoned == !ok && NewestCommitted(old(disk), kept)
      ensures disk == if ok || landed then Collected(old(disk), kept, now) else old(disk)
      ensures if ok then budget == left + 1 else budget == left == 0
    {
      kept := LastTwo();
      CollectionKeeps(state, kept, now);
      left, ok := Persist(Collected(state, kept, now), budget, landed);
    }

    method Gc(now: nat, budget: nat, landed: bool) returns (left: nat, ok: bool, kept: set<nat>)
      requires Sound() && !poisoned
      modifies this
      ensures Sound() && poisoned == !ok && NewestCommitted(old(disk), kept)
      ensures disk == if ok || landed then Collected(old(disk), kept, now) else old(disk)
      ensures if ok then budget == left + 1 else budget == left == 0
      ensures forall e: nat :: PendingAt(disk, e) <==> PendingAt(old(disk), e)
      ensures forall e: nat :: IsCurrent(disk, e) <==> IsCurrent(old(disk), e)
    {
      left, ok, kept := Collect(now, budget, landed);
      CollectionKeeps(old(disk), kept, now);
    }

    /**
     `reserve` up to its collection: every decided intent settled, every expired
     publication collected. A fault or a failed write leaves the intents settled
     below some epoch, or, if it was the collection that failed, possibly collected.
     */
    method Tidy(ev: Evidence, now: nat, budget: nat, landed: bool)
      returns (r: Result, left: nat, ghost upTo: nat, ghost settled: State, ghost kept: set<nat>)
      requires Sound()
      modifies this
      ensures Sound() && (r == Ok ==> !poisoned) && r in {Ok, Faulted, WriteFailed}
      ensures disk.highWater == old(disk).highWater
      ensures SettledBelow(old(disk), upTo, ev, now, settled) && NoFaultBelow(old(disk), upTo, ev)
      ensures r == Ok || disk != settled ==>
        && NoFaults(old(disk), ev)
        && upTo == old(disk).highWater + 1
        && NewestCommitted(settled, kept)
        && disk == Collected(settled, kept, now)
      ensures r == WriteFailed ==> left == 0
      ensures r == Faulted ==> disk == settled && JudgeAt(old(disk), upTo, ev) == Fault
      ensures r == WriteFailed && disk != settled ==> landed
      ensures budget <= left + Spent(old(disk), r)
    {
      kept := {};
      r, left, upTo := ReopenAndRecover(ev, now, budget, landed);
      settled := disk;
      if r != Ok { return; }
      var ok;
      left, ok, kept := Collect(now, left, landed);
      if !ok { r := WriteFailed; }
    }

    /**
     `reserve`: tidy up, refuse a request that is already pending, then take the
     next epoch. Unless a fault or a failed write stops it, it refuses exactly what
     the tidied store rejects.
     */
    method Reserve(request: Request, artifact: string, revision: string, ev: Evidence, now: nat, budget: nat,
                   landed: bool)
      returns (r: Result, epoch: nat, ghost upTo: nat, ghost settled: State, ghost kept: set<nat>)
      requires Sound()
      modifies this
      ensures Sound() && r in {Ok, Refused, Faulted, WriteFailed}
      ensures old(disk).highWater <= disk.highWater <= old(disk).highWater + 1
      ensures SettledBelow(old(disk), upTo, ev, now, settled) && NoFaultBelow(old(disk), upTo, ev)
      ensures r == Faulted ==> disk == settled && JudgeAt(old(disk), upTo, ev) == Fault
      ensures r in {Ok, Refused} || disk != settled ==>
        && NoFaults(old(disk), ev)
        && upTo == old(disk).highWater + 1
        && NewestCommitted(settled, kept)
      ensures r in {Ok, Refused} ==> (r == Refused <==> Rejects(Collected(settled, kept, now), request, artifact))
      ensures r == Refused ==> disk == Collected(settled, kept, now)
      ensures r == Ok ==>
        && !poisoned && epoch == old(disk).highWater + 1
        && disk == Reserved(Collected(settled, kept, now), Record(artifact, revision, Some(request), true, None))
      ensures r == WriteFailed && disk != settled ==>
        HalfReserved(Collected(settled, kept, now), Record(artifact, revision, Some(request), true, None), landed, disk)
      ensures r == WriteFailed ==> budget < old(disk).highWater + 3
    {
      var left;
      epoch := 0;
      r, left, upTo, settled, kept := Tidy(ev, now, budget, landed);
      if r != Ok { return; }
      if exists e :: e in state.records && IsPending(state.records[e]) && state.records[e].operation == Some(request) {
        r := Refused;
        return;
      }
      r, epoch := ReserveBound(request, artifact, revision, left, landed);
    }

    /** `reserve_record` for a bound intent: the epoch is durable before the record that uses it. */
    method ReserveBound(request: Request, artifact: string, revision: string, budget: nat, landed: bool)
      returns (r: Result, epoch: nat)
      requires Sound() && !poisoned
      requires forall e: nat :: PendingAt(state, e) ==> state.records[e].operation != Some(request)
      modifies this
      ensures Sound() && r in {Ok, Refused, WriteFailed}
      ensures old(disk).highWater <= disk.highWater <= old(disk).highWater + 1
      ensures r == Refused <==> Rejects(old(disk), request, artifact)
      ensures r == Refused ==> disk == old(disk)
      ensures r == Ok ==> !poisoned && epoch == old(disk).highWater + 1
      ensures r == Ok ==> disk == Reserved(old(disk), Record(artifact, revision, Some(request), true, None))
      ensures r == WriteFailed ==>
        HalfReserved(old(disk), Record(artifact, revision, Some(request), true, None), landed, disk)
      ensures r == WriteFailed ==> budget < 2
    {
      if |state.records| >= MAX_RECORDS || state.highWater >= U64_MAX { return Refused, 0; }
      epoch := state.highWater + 1;
      if exists e :: e in state.records && state.records[e].artifact == artifact { return Refused, 0; }
      var record := Record(artifact, revision, Some(request), true, None);
      ReservationKeepsGood(state, record);
      var next := Reserved(state, record);
      assert !Rejects(state, request, artifact) by {
        assert forall e :: e in state.records && IsPending(state.records[e]) ==> PendingAt(state, e);
      }
      var left, ok := Persist(state.(highWater := epoch), budget, landed);
      if !ok { return WriteFailed, 0; }
      left, ok := Persist(next, left, landed);
      return if ok then Ok else WriteFailed, epoch;
    }

    /**
     `finalize`: commit a reservation whose receipt was verified; again for the same
     receipt it is idle.
     */
    method Finalize(epoch: nat, request: Request, receipt: Receipt, matches: bool, intact: bool, now: nat,
                    budget: nat, landed: bool)
      returns (r: Result)
      requires Sound()
      modifies this
      ensures Sound() && r in {Ok, Refused, WriteFailed}
      ensures r == Refused <==>
        || epoch !in old(disk).records
        || old(disk).records[epoch].operation != Some(request)
        || !matches
        || receipt.persistence != Committed
        || receipt.restored
        || !intact
        || (old(IsCommitted(disk, epoch)) && old(disk).records[epoch].committed.value.receiptId != receipt.id)
      ensures r == WriteFailed ==> budget == 0 && !old(IsCommitted(disk, epoch))
      ensures budget == 0 && r == Ok ==> old(IsCommitted(disk, epoch))
      ensures old(IsCommitted(disk, epoch)) || r == Refused ==> disk == old(disk)
      ensures r == Ok && !old(IsCommitted(disk, epoch)) ==>
        PendingAt(old(disk), epoch) && disk == Finalized(old(disk), epoch, receipt.id, now)
      ensures r == WriteFailed ==>
        && PendingAt(old(disk), epoch)
        && disk == if landed then Finalized(old(disk), epoch, receipt.id, now) else old(disk)
      ensures r == Ok ==> IsCommitted(disk, epoch) && disk.records[epoch].committed.value.receiptId == receipt.id
    {
      Reopen();
      if epoch !in state.records || state.records[epoch].operation != Some(request) || !matches { return Refused; }
      if receipt.persistence != Committed || receipt.restored || !intact { return Refused; }
      var record := state.records[epoch];
      if record.committed.Some? { return if record.committed.value.receiptId == receipt.id then Ok else Refused; }
      var next := Carried(state, epoch, Publish(receipt.id), now);
      PublishKeepsGood(state, epoch, receipt.id, now);
      CarryIsFinal(state, epoch, receipt.id, now);
      var left, ok := Persist(next, budget, landed);
      return if ok then Ok else WriteFailed;
    }

    /** A reservation and, once its policy transaction is committed, its publication. */
    method ReserveThenFinalize(request: Request, artifact: string, revision: string, ev: Evidence, now: nat,
                               budget: nat, landed: bool, receipt: Receipt, later: nat, writes: nat)
      returns (r: Result, epoch: nat)
      requires Sound()
      requires receipt.persistence == Committed && !receipt.restored && writes > 0
      modifies this
      ensures Sound() && r in {Ok, Refused, Faulted, WriteFailed}
      ensures r == Ok ==>
        && epoch == old(disk).highWater + 1
        && epoch == disk.highWater
        && IsCommitted(disk, epoch)
        && disk.records[epoch].committed.value.receiptId == receipt.id
        && disk.records[epoch].artifact == artifact
        && disk.records[epoch].operation == Some(request)
        && IsCurrent(disk, epoch)
      ensures r == WriteFailed ==> budget < old(disk).highWater + 3
    {
      ghost var upTo, settled, kept;
      r, epoch, upTo, settled, kept := Reserve(request, artifact, revision, ev, now, budget, landed);
      if r != Ok { return; }
      ghost var reserved := disk;
      assert epoch in reserved.records && reserved.records[epoch].operation == Some(request);
      assert PendingAt(reserved, epoch);
      r := Finalize(epoch, request, receipt, true, true, later, writes, landed);
      assert r == Ok;
    }
  }
}
