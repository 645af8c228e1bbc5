/**
 Publication intents are durable before their policy transaction; recovery
 settles each by its transaction receipt. State writes may fail, and a failed
 write may or may not have reached the disk.
 */
module Publication {
  import opened Common

  /** Actor and request id. */
  datatype Request = Request(actor: string, id: string)

  datatype Persistence = Prepared | DurabilityUncertain | Committed | Aborted
  datatype Receipt = Receipt(id: string, persistence: Persistence, restored: bool)
  datatype Commit = Commit(receiptId: string, at: nat, until: nat)
  datatype Record = Record(
    artifact: string, revision: string, operation: Option<Request>, proof: bool, committed: Option<Commit>)
  datatype State = State(highWater: nat, clock: nat, records: map<nat, Record>)

  const MAX_RECORDS := 4096
  const AVAILABILITY_SECONDS := 24 * 60 * 60

  function SaturatingAdd(a: nat, b: nat): nat { if a + b <= U64_MAX then a + b else U64_MAX }
  /**
   What recovery can see: receipts by request, requests whose tree no longer is
   the captured before state, requests whose receipt does not match the binding,
   and epochs whose stored artifact no longer verifies or is not admitted.
   */
  datatype Evidence = Evidence(
    receipts: map<Request, Receipt>, drifted: set<Request>, mismatched: set<Request>, damaged: set<nat>)

  datatype Verdict = Publish(receiptId: string) | Retire | Keep | Fault

  predicate IsPending(r: Record) { r.committed.None? && r.operation.Some? }

  predicate PendingAt(s: State, e: nat) { e in s.records && IsPending(s.records[e]) }

  function Judge(r: Record, e: nat, ev: Evidence): Verdict
    requires IsPending(r)
  {
    var q := r.operation.value;
    if q !in ev.receipts then (if r.proof && q !in ev.drifted then Retire else Fault)
    else if q in ev.mismatched then Fault
    else
      match ev.receipts[q].persistence
      case Committed =>
        if ev.receipts[q].restored then Retire else if e in ev.damaged then Fault else Publish(ev.receipts[q].id)
      case Aborted => Retire
      case Prepared => Keep
      case DurabilityUncertain => Keep
  }

  function JudgeAt(s: State, e: nat, ev: Evidence): Verdict {
    if PendingAt(s, e) then Judge(s.records[e], e, ev) else Keep
  }

  // -------------------------------------------------------------- the store's state

  ghost predicate Valid(s: State) {
    && |s.records| <= MAX_RECORDS
    && (forall e :: e in s.records ==> 0 < e <= s.highWater)
    && (forall e :: e in s.records && s.records[e].proof ==> s.records[e].operation.Some?)
    && (forall e :: e in s.records && s.records[e].committed.Some? ==>
          var c := s.records[e].committed.value;
          c.at <= s.clock && SaturatingAdd(c.at, AVAILABILITY_SECONDS) <= c.until)
    && (forall e, f :: e in s.records && f in s.records && s.records[e].artifact == s.records[f].artifact ==> e == f)
  }

  /** No two pending reservations share an actor and request id. */
  ghost predicate UniquePending(s: State) {
    forall e, f :: PendingAt(s, e) && PendingAt(s, f) && s.records[e].operation == s.records[f].operation ==> e == f
  }

  ghost predicate Good(s: State) { Valid(s) && UniquePending(s) }

  /** Some records dropped, some pending ones committed, nothing else. */
  ghost predicate Shrinks(s: State, s': State) {
    && s'.records.Keys <= s.records.Keys && s'.highWater == s.highWater && s.clock <= s'.clock
    && forall e :: e in s'.records ==>
         s'.records[e] == s.records[e]
         || (IsPending(s.records[e]) && s'.records[e] == s.records[e].(committed := s'.records[e].committed)
             && s'.records[e].committed.Some?
             && var c := s'.records[e].committed.value;
                c.at <= s'.clock && SaturatingAdd(c.at, AVAILABILITY_SECONDS) <= c.until)
  }

  lemma ShrinkKeepsGood(s: State, s': State)
    requires Good(s) && Shrinks(s, s')
    ensures Good(s')
  {
    SubsetSize(s'.records.Keys, s.records.Keys);
    forall e | PendingAt(s', e) ensures PendingAt(s, e) && s'.records[e] == s.records[e] {}
  }

  // ------------------------------------------------------------------- settlement

  function CommitFor(s: State, receiptId: string, now: nat): Commit {
    Commit(receiptId, Max(now, s.clock), SaturatingAdd(Max(now, s.clock), AVAILABILITY_SECONDS))
  }

  /** What epoch `e` holds once its verdict is carried out. */
  function Outcome(s: State, e: nat, ev: Evidence, now: nat): Option<Record> {
    if e !in s.records then None
    else
      match JudgeAt(s, e, ev)
      case Retire => None
      case Publish(id) => Some(s.records[e].(committed := Some(CommitFor(s, id, now))))
      case Keep => Some(s.records[e])
      case Fault => Some(s.records[e])
  }

  predicate Publishes(s: State, e: nat, ev: Evidence) { JudgeAt(s, e, ev).Publish? }

  ghost predicate AnyPublished(s: State, n: nat, ev: Evidence) {
    exists e: nat :: e < n && Publishes(s, e, ev)
  }

  predicate SettledAt(s: State, n: nat, ev: Evidence, now: nat, s': State, e: nat) {
    (if e in s'.records then Some(s'.records[e]) else None)
      == if e < n then Outcome(s, e, ev, now) else if e in s.records then Some(s.records[e]) else None
  }

  /** `s` with the verdicts of all epochs below `n` carried out. */
  ghost predicate SettledBelow(s: State, n: nat, ev: Evidence, now: nat, s': State) {
    && s'.highWater == s.highWater
    && s'.clock == (if AnyPublished(s, n, ev) then Max(now, s.clock) else s.clock)
    && forall e: nat :: SettledAt(s, n, ev, now, s', e)
  }

  lemma SettledRecordShrinks(s: State, n: nat, ev: Evidence, now: nat, s': State, e: nat)
    requires SettledBelow(s, n, ev, now, s') && e in s'.records
    ensures e in s.records
    ensures s'.records[e] == s.records[e]
      || (s'.records[e] == s.records[e].(committed := s'.records[e].committed) && IsPending(s.records[e])
          && s'.records[e].committed.Some? && s'.records[e].committed.value.at == s'.clock
          && s'.records[e].committed.value.until == SaturatingAdd(s'.clock, AVAILABILITY_SECONDS))
  {
    assert SettledAt(s, n, ev, now, s', e);
    if s'.records[e] != s.records[e] { assert e < n && Publishes(s, e, ev); }
  }

  lemma SettledShrinks(s: State, n: nat, ev: Evidence, now: nat, s': State)
    requires SettledBelow(s, n, ev, now, s')
    ensures Shrinks(s, s')
  {
    forall e | e in s'.records
      ensures e in s.records
      ensures s'.records[e] == s.records[e]
        || (s'.records[e] == s.records[e].(committed := s'.records[e].committed) && IsPending(s.records[e])
            && s'.records[e].committed.Some? && s'.records[e].committed.value.at == s'.clock
            && s'.records[e].committed.value.until == SaturatingAdd(s'.clock, AVAILABILITY_SECONDS))
    {
      SettledRecordShrinks(s, n, ev, now, s', e);
    }
  }

  predicate NoFaults(s: State, ev: Evidence) {
    forall e | e in s.records :: JudgeAt(s, e, ev) != Fault
  }

  ghost predicate NoFaultBelow(s: State, n: nat, ev: Evidence) {
    forall e: nat :: e < n ==> JudgeAt(s, e, ev) != Fault
  }

  lemma NoFaultAnywhere(s: State, ev: Evidence)
    requires Valid(s) && NoFaultBelow(s, s.highWater + 1, ev)
    ensures NoFaults(s, ev)
  {
  }

  /**
   Published if and only if committed and not rolled back, gone if and only if
   aborted, rolled back or receiptless over an unchanged tree, and still pending,
   unchanged, if and only if undecided.
   */
  predicate DecidedByReceipt(s: State, ev: Evidence, s': State, e: nat)
    requires PendingAt(s, e)
  {
    var q := s.records[e].operation.value;
    && ((e in s'.records && s'.records[e].committed.Some?) <==>
          q in ev.receipts && ev.receipts[q].persistence == Committed && !ev.receipts[q].restored)
    && (e !in s'.records <==>
          if q in ev.receipts then
            || ev.receipts[q].persistence == Aborted
            || (ev.receipts[q].persistence == Committed && ev.receipts[q].restored)
          else s.records[e].proof && q !in ev.drifted)
    && (PendingAt(s', e) <==> q in ev.receipts && ev.receipts[q].persistence in {Prepared, DurabilityUncertain})
    && (e in s'.records && s'.records[e].committed.Some? ==>
        s'.records[e].committed.value.receiptId == ev.receipts[q].id)
    && (PendingAt(s', e) ==> s'.records[e] == s.records[e])
  }

  lemma RecoverySettlesByReceipt(s: State, ev: Evidence, now: nat, s': State, e: nat)
    requires Valid(s) && SettledBelow(s, s.highWater + 1, ev, now, s') && NoFaults(s, ev) && PendingAt(s, e)
    ensures DecidedByReceipt(s, ev, s', e)
  {
    assert SettledAt(s, s.highWater + 1, ev, now, s', e);
  }

  /** Recoveries run one after another over the same evidence, the `i`-th stopped before epoch `stops[i]`. */
  ghost predicate Recoveries(states: seq<State>, stops: seq<nat>, nows: seq<nat>, ev: Evidence) {
    && |states| == |stops| + 1 == |nows| + 1
    && forall i :: 0 <= i < |stops| ==> SettledBelow(states[i], stops[i], ev, nows[i], states[i + 1])
  }

  /** The intent has not been reached yet, or is settled for good. */
  predicate UntouchedOrDecided(s: State, ev: Evidence, s': State, e: nat)
    requires PendingAt(s, e)
  {
    (e in s'.records && s'.records[e] == s.records[e]) || DecidedByReceipt(s, ev, s', e)
  }

  lemma RecoveryStep(s: State, ev: Evidence, s': State, n: nat, now: nat, s'': State, e: nat)
    requires PendingAt(s, e) && JudgeAt(s, e, ev) != Fault && UntouchedOrDecided(s, ev, s', e)
    requires SettledBelow(s', n, ev, now, s'')
    ensures UntouchedOrDecided(s, ev, s'', e)
    ensures e < n ==> DecidedByReceipt(s, ev, s'', e)
  {
    assert SettledAt(s', n, ev, now, s'', e);
  }

  lemma {:induction false} RecoveriesReach(states: seq<State>, stops: seq<nat>, nows: seq<nat>, ev: Evidence, i: nat,
                                           e: nat)
    requires Recoveries(states, stops, nows, ev) && i < |states|
    requires PendingAt(states[0], e) && JudgeAt(states[0], e, ev) != Fault
    ensures states[i].highWater == states[0].highWater
    ensures UntouchedOrDecided(states[0], ev, states[i], e)
  {
    if i > 0 {
      var k := i - 1;
      RecoveriesReach(states, stops, nows, ev, k, e);
      assert SettledBelow(states[k], stops[k], ev, nows[k], states[k + 1]);
      RecoveryStep(states[0], ev, states[k], stops[k], nows[k], states[i], e);
    }
  }

  /**
   Any number of recoveries cut short anywhere, then one that finishes: every intent is settled as
   by that one alone.
   */
  lemma ResumedRecoverySettles(states: seq<State>, stops: seq<nat>, nows: seq<nat>, ev: Evidence, e: nat)
    requires Recoveries(states, stops, nows, ev) && stops != [] && stops[|stops| - 1] == states[0].highWater + 1
    requires Valid(states[0]) && NoFaults(states[0], ev) && PendingAt(states[0], e)
    ensures DecidedByReceipt(states[0], ev, states[|stops|], e)
  {
    var k := |stops| - 1;
    RecoveriesReach(states, stops, nows, ev, k, e);
    assert SettledBelow(states[k], stops[k], ev, nows[k], states[k + 1]);
    RecoveryStep(states[0], ev, states[k], stops[k], nows[k], states[k + 1], e);
  }

  /** Records that were not pending are untouched. */
  lemma RecoveryTouchesOnlyPending(s: State, ev: Evidence, now: nat, s': State, e: nat)
    requires Valid(s) && SettledBelow(s, s.highWater + 1, ev, now, s') && !PendingAt(s, e)
    ensures e in s'.records <==> e in s.records
    ensures e in s.records ==> s'.records[e] == s.records[e]
  {
    assert SettledAt(s, s.highWater + 1, ev, now, s', e);
  }

  lemma NothingLeftToJudge(s: State, ev: Evidence, now: nat, s': State, e: nat)
    requires Valid(s) && SettledBelow(s, s.highWater + 1, ev, now, s') && NoFaults(s, ev)
    ensures JudgeAt(s', e, ev) == Keep
  {
    if PendingAt(s', e) {
      if !PendingAt(s, e) { RecoveryTouchesOnlyPending(s, ev, now, s', e); }
      RecoverySettlesByReceipt(s, ev, now, s', e);
    }
  }

  /** Recovering again over the same evidence changes nothing. */
  lemma SecondRecoveryIsIdle(s: State, ev: Evidence, now: nat, s': State, later: nat, s'': State)
    requires Valid(s) && SettledBelow(s, s.highWater + 1, ev, now, s') && NoFaults(s, ev)
    requires SettledBelow(s', s'.highWater + 1, ev, later, s'')
    ensures s'' == s' && NoFaults(s', ev)
  {
    forall e: nat ensures JudgeAt(s', e, ev) == Keep {
      NothingLeftToJudge(s, ev, now, s', e);
    }
    assert !AnyPublished(s', s'.highWater + 1, ev);
    forall e: nat
      ensures (e in s''.records <==> e in s'.records) && (e in s'.records ==> s''.records[e] == s'.records[e])
    {
      assert SettledAt(s', s'.highWater + 1, ev, later, s'', e);
    }
    assert s''.records == s'.records;
  }

  /** The durable state after the verdict of epoch `n` is carried out on `s'`. */
  function Carried(s': State, n: nat, v: Verdict, now: nat): State {
    match v
    case Retire => s'.(records := s'.records - {n})
    case Publish(id) =>
      if n in s'.records then
        var record := s'.records[n].(committed := Some(CommitFor(s', id, now)));
        State(s'.highWater, Max(now, s'.clock), s'.records[n := record])
      else s'
    case _ => s'
  }

  lemma SettleNext(s: State, n: nat, ev: Evidence, now: nat, s': State)
    requires SettledBelow(s, n, ev, now, s') && JudgeAt(s, n, ev) != Fault
    ensures SettledBelow(s, n + 1, ev, now, Carried(s', n, JudgeAt(s, n, ev), now))
  {
    var next, m := Carried(s', n, JudgeAt(s, n, ev), now), n + 1;
    assert SettledAt(s, n, ev, now, s', n);
    forall e: nat ensures SettledAt(s, m, ev, now, next, e) {
      assert SettledAt(s, n, ev, now, s', e);
    }
    if Publishes(s, n, ev) {
      assert AnyPublished(s, n + 1, ev);
    } else {
      assert forall e: nat :: e < n + 1 && Publishes(s, e, ev) ==> e < n;
    }
  }

  lemma NothingSettledYet(s: State, ev: Evidence, now: nat)
    requires Valid(s)
    ensures SettledBelow(s, 1, ev, now, s) && NoFaultBelow(s, 1, ev)
  {
    assert forall e: nat :: e < 1 ==> !Publishes(s, e, ev);
    forall e: nat ensures SettledAt(s, 1, ev, now, s, e) {}
  }

  /** One verdict carried out from a settled prefix: the prefix grows and the state stays good. */
  lemma CarryKeepsGood(s: State, n: nat, ev: Evidence, now: nat, s': State)
    requires Good(s) && SettledBelow(s, n, ev, now, s')
    ensures JudgeAt(s', n, ev) == JudgeAt(s, n, ev)
    ensures JudgeAt(s, n, ev) != Fault ==>
      var next := Carried(s', n, JudgeAt(s', n, ev), now); SettledBelow(s, n + 1, ev, now, next) && Good(next)
  {
    assert SettledAt(s, n, ev, now, s', n);
    if JudgeAt(s, n, ev) != Fault {
      SettleNext(s, n, ev, now, s');
      SettledShrinks(s, n + 1, ev, now, Carried(s', n, JudgeAt(s, n, ev), now));
      ShrinkKeepsGood(s, Carried(s', n, JudgeAt(s, n, ev), now));
    }
  }

  lemma PublishKeepsGood(s: State, e: nat, receiptId: string, now: nat)
    requires Good(s) && PendingAt(s, e)
    ensures Good(Carried(s, e, Publish(receiptId), now))
  {
    var s' := Carried(s, e, Publish(receiptId), now);
    assert Shrinks(s, s');
    ShrinkKeepsGood(s, s');
  }

  /** The reservation at `epoch` committed by this receipt, to be offered for a day. */
  function Finalized(s: State, epoch: nat, receiptId: string, now: nat): State
    requires epoch in s.records
  {
    var at := Max(now, s.clock);
    var commit := Commit(receiptId, at, Min(at + 86400, U64_MAX));
    s.(clock := at, records := s.records[epoch := s.records[epoch].(committed := Some(commit))])
  }

  lemma CarryIsFinal(s: State, epoch: nat, receiptId: string, now: nat)
    requires epoch in s.records
    ensures Carried(s, epoch, Publish(receiptId), now) == Finalized(s, epoch, receiptId, now)
  {
  }

  /** Recovery publishes from a matching committed receipt exactly the record that finalizing would have written. */
  lemma RecoveryFinalizes(s: State, ev: Evidence, now: nat, s': State, epoch: nat)
    requires Valid(s) && SettledBelow(s, s.highWater + 1, ev, now, s') && NoFaults(s, ev) && PendingAt(s, epoch)
    requires var q := s.records[epoch].operation.value;
      q in ev.receipts && ev.receipts[q].persistence == Committed && !ev.receipts[q].restored
    ensures var receipt := ev.receipts[s.records[epoch].operation.value];
      && epoch in s'.records
      && s'.records[epoch] == Finalized(s, epoch, receipt.id, now).records[epoch]
      && s'.clock == Finalized(s, epoch, receipt.id, now).clock
  {
    assert SettledAt(s, s.highWater + 1, ev, now, s', epoch);
    assert JudgeAt(s, epoch, ev) != Fault;
    assert Publishes(s, epoch, ev);
  }

  function Reserved(s: State, record: Record): State {
    s.(highWater := s.highWater + 1, records := s.records[s.highWater + 1 := record])
  }

  lemma ReservationCount(records: map<nat, Record>, e: nat, record: Record)
    requires e !in records
    ensures |records[e := record]| == |records| + 1
  {
    assert records[e := record].Keys == records.Keys + {e};
  }

  lemma ReservationIsValid(s: State, record: Record)
    requires Valid(s) && |s.records| < MAX_RECORDS && record.committed.None? && record.operation.Some?
    requires forall e :: e in s.records ==> s.records[e].artifact != record.artifact
    ensures Valid(Reserved(s, record))
  {
    var n, s' := s.highWater + 1, Reserved(s, record);
    assert n !in s.records;
    ReservationCount(s.records, n, record);
    forall e, f | e in s'.records && f in s'.records && s'.records[e].artifact == s'.records[f].artifact
      ensures e == f
    {
      assert e != n ==> s'.records[e] == s.records[e];
      assert f != n ==> s'.records[f] == s.records[f];
    }
  }

  lemma ReservationIsUnique(s: State, record: Record)
    requires UniquePending(s)
    requires forall e: nat :: PendingAt(s, e) ==> s.records[e].operation != record.operation
    ensures UniquePending(Reserved(s, record))
  {
    var s', n := Reserved(s, record), s.highWater + 1;
    forall e: nat | PendingAt(s', e) && e != n ensures PendingAt(s, e) && s'.records[e] == s.records[e] {}
  }

  lemma ReservationKeepsGood(s: State, record: Record)
    requires Good(s) && |s.records| < MAX_RECORDS && record.committed.None? && record.operation.Some?
    requires forall e :: e in s.records ==> s.records[e].artifact != record.artifact
    requires forall e: nat :: PendingAt(s, e) ==> s.records[e].operation != record.operation
    ensures Good(Reserved(s, record))
  {
    ReservationIsValid(s, record);
    ReservationIsUnique(s, record);
  }

  /** A reservation the store cannot take: a pending twin, no room, no epoch left, or an artifact already known. */
  predicate Rejects(s: State, request: Request, artifact: string) {
    || (exists e | e in s.records :: IsPending(s.records[e]) && s.records[e].operation == Some(request))
    || |s.records| >= MAX_RECORDS
    || s.highWater >= U64_MAX
    || (exists e | e in s.records :: s.records[e].artifact == artifact)
  }

  // ---------------------------------------------------------- collection and current

  predicate IsCommitted(s: State, e: nat) { e in s.records && s.records[e].committed.Some? }

  /** The publication a secondary is offered: the committed record of the highest epoch. */
  predicate IsCurrent(s: State, e: nat) {
    IsCommitted(s, e) && forall f | f in s.records :: IsCommitted(s, f) ==> f <= e
  }

  function Collected(s: State, kept: set<nat>, now: nat): State {
    var at := Max(now, s.clock);
    State(s.highWater, at, map e | e in s.records &&
      (if s.records[e].committed.Some? then s.records[e].committed.value.until > at || e in kept
          else s.records[e].operation.Some?) :: s.records[e])
  }

  /** `kept` holds the newest committed epochs, two or as many as there are. */
  predicate NewestCommitted(s: State, kept: set<nat>) {
    && |kept| <= 2 && (forall e | e in kept :: IsCommitted(s, e))
    && (forall e | e in s.records :: IsCommitted(s, e) && e !in kept ==> |kept| == 2 && forall f | f in kept :: e < f)
  }

  predicate CommittedAbove(s: State, kept: set<nat>, e: nat) {
    && (forall f | f in kept :: IsCommitted(s, f) && e < f)
    && (forall f | f in s.records :: IsCommitted(s, f) && f > e ==> f in kept)
  }

  /** The downward scan for the newest committed epochs, one epoch further. */
  lemma ScanDown(s: State, kept: set<nat>, e: nat)
    requires 0 < e && CommittedAbove(s, kept, e)
    ensures e !in kept && CommittedAbove(s, if IsCommitted(s, e) then kept + {e} else kept, e - 1)
  {
  }

  lemma ScanStops(s: State, kept: set<nat>, e: nat)
    requires CommittedAbove(s, kept, e) && |kept| <= 2 && (e == 0 || |kept| == 2) && 0 !in s.records
    ensures NewestCommitted(s, kept)
  {
  }

  /** The committed epochs above `e`. */
  ghost function Newer(s: State, e: nat): set<nat> { set f | f in s.records && IsCommitted(s, f) && e < f }

  lemma NewerIsKept(s: State, kept: set<nat>, e: nat)
    requires NewestCommitted(s, kept) && IsCommitted(s, e)
    ensures e in kept <==> |Newer(s, e)| < 2
  {
    var newer := Newer(s, e);
    if e in kept {
      forall f | f in newer ensures f in kept - {e} {}
      SubsetSize(newer, kept - {e});
    } else {
      forall f | f in kept ensures f in newer {}
      SubsetSize(kept, newer);
    }
  }

  /**
   Collection drops exactly the reservations nobody is bound to and the publications
   whose day is over, the two newest of them excepted; what stays is unchanged.
   */
  lemma CollectionDropsExactly(s: State, kept: set<nat>, now: nat, e: nat)
    requires NewestCommitted(s, kept) && e in s.records
    ensures var s' := Collected(s, kept, now);
      && (e !in s'.records <==>
            if s.records[e].committed.Some?
            then s.records[e].committed.value.until <= Max(now, s.clock) && |Newer(s, e)| >= 2
            else s.records[e].operation.None?)
      && (e in s'.records ==> s'.records[e] == s.records[e])
  {
    if IsCommitted(s, e) { NewerIsKept(s, kept, e); }
  }

  /** Collection never drops a pending intent, nor the current publication. */
  lemma CollectionKeeps(s: State, kept: set<nat>, now: nat)
    requires Good(s) && NewestCommitted(s, kept)
    ensures Good(Collected(s, kept, now))
    ensures forall e: nat :: PendingAt(Collected(s, kept, now), e) <==> PendingAt(s, e)
    ensures forall e: nat :: IsCurrent(s, e) <==> IsCurrent(Collected(s, kept, now), e)
  {
    var s' := Collected(s, kept, now);
    assert Shrinks(s, s');
    ShrinkKeepsGood(s, s');
    forall e: nat ensures IsCurrent(s, e) <==> IsCurrent(s', e) {
      CurrentSurvives(s, kept, now, e);
    }
  }

  lemma CurrentSurvives(s: State, kept: set<nat>, now: nat, e: nat)
    requires NewestCommitted(s, kept)
    ensures IsCurrent(s, e) <==> IsCurrent(Collected(s, kept, now), e)
  {
    var s' := Collected(s, kept, now);
    if IsCurrent(s', e) {
      forall f | f in s.records && IsCommitted(s, f) ensures f <= e {
        if f !in s'.records {
          assert f !in kept && |kept| == 2;
          var g :| g in kept;
          assert f < g && g in s'.records && IsCommitted(s', g);
        } else {
          assert IsCommitted(s', f);
        }
      }
    }
    if IsCurrent(s, e) {
      assert e in kept;
      assert forall f | f in s'.records :: IsCommitted(s', f) ==> IsCommitted(s, f);
    }
  }
}
