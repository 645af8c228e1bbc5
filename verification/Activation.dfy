/**
 Post-commit completion. A committed change is handed to the daemon at most once
 per attempt, only after a durable queue record, and the outcome goes to the same
 durable receipt. An attempt may stop before any of its effects, and a service
 call that reports failure may still have landed.
 */
module Activation {
  import opened Common
  import opened Receipts

  type Correlation = string

  datatype Delivery = Accepted | QueueFull | ChannelClosed

  /** The daemon's answer, or its response channel dropped. */
  datatype Answer = ActiveNow | SupersededBy(operation: string) | Rejected | NotKnown | Dropped

  /** `answer` is what the daemon says to a request it was handed. */
  datatype Effect =
    | Queue(correlation: Correlation, ok: bool, landed: bool)
    | Send(correlation: Correlation, delivery: Delivery, answer: Answer)
    | Complete(correlationId: Option<Correlation>, outcome: Activation, ok: bool, landed: bool)
    | Audit(ok: bool, landed: bool)

  /** How the outside world behaves during one attempt. */
  datatype World = World(
    correlation: Option<Correlation>, queueOk: bool, queueLanded: bool,
    configured: bool, delivery: Delivery, answer: Answer,
    completeOk: bool, completeLanded: bool,
    auditOk: bool, auditLanded: bool)

  function OutcomeOf(a: Answer): Activation {
    match a
    case ActiveNow => Applied
    case SupersededBy(_) => Superseded
    case Rejected => Failed
    case NotKnown => Unknown
    case Dropped => Unknown
  }

  /** What an outcome says about the request that was handed over. */
  predicate AnswerMeans(delivery: Delivery, answer: Answer, outcome: Activation) {
    && (outcome == Applied <==> delivery == Accepted && answer == ActiveNow)
    && (outcome == Superseded <==> delivery == Accepted && answer.SupersededBy?)
    && (outcome == Failed <==> delivery != Accepted || answer == Rejected)
    && (outcome == Unknown <==> delivery == Accepted && (answer == NotKnown || answer == Dropped))
  }

  predicate Recorded(w: World) { w.completeOk || w.completeLanded }

  /** The outcome of an attempt that did or did not get as far as handing over its request. */
  predicate EndsAs(w: World, sends: bool, outcome: Activation) {
    if sends then AnswerMeans(w.delivery, w.answer, outcome) else outcome == Unknown
  }

  /** An outcome recorded right after `prev`: without a request of its own correlation it is unknown. */
  predicate FitsSend(prev: Option<Effect>, correlationId: Option<Correlation>, outcome: Activation) {
    if prev.Some? && prev.value.Send? && correlationId == Some(prev.value.correlation)
    then AnswerMeans(prev.value.delivery, prev.value.answer, outcome)
    else outcome == Unknown
  }

  /** What an effect leaves on the durable receipt. A queue record puts the activation back to pending. */
  function Landed(r: Receipt, e: Effect): Receipt {
    match e
    case Queue(_, ok, landed) => if ok || landed then r.(activation := Pending) else r
    case Complete(_, outcome, ok, landed) => if ok || landed then r.(activation := outcome) else r
    case Audit(ok, landed) => if landed then r.(auditRecorded := true) else r
    case _ => r
  }

  function Completing(w: World, c: Option<Correlation>, outcome: Activation): Effect {
    Complete(c, outcome, w.completeOk, w.completeLanded)
  }

  /** The effects of one activation attempt, if nothing stops it. */
  function ActivationLog(w: World, r: Receipt): seq<Effect> {
    if w.correlation.None? then [Completing(w, None, Unknown)]
    else
      var c := w.correlation.value;
      if !w.queueOk then [Queuing(w, c)]
      else [Queuing(w, c)] + DeliveryLog(w, r, c)
  }

  function Queuing(w: World, c: Correlation): Effect { Queue(c, w.queueOk, w.queueLanded) }

  /** After the queue record: at most one send, then the outcome. */
  function DeliveryLog(w: World, r: Receipt, c: Correlation): seq<Effect> {
    if !w.configured || r.policyHash.None? then [Completing(w, Some(c), Unknown)]
    else [Send(c, w.delivery, w.answer)] + [SendOutcome(w, c)]
  }

  function SendOutcome(w: World, c: Correlation): Effect {
    Completing(w, Some(c), if w.delivery == Accepted then OutcomeOf(w.answer) else Failed)
  }

  function AuditLog(w: World): seq<Effect> { [Audit(w.auditOk, w.auditLanded)] }

  function OwedActivation(w: World, r: Receipt): seq<Effect> { if NeedsActivation(r) then ActivationLog(w, r) else [] }
  function OwedAudit(w: World, r: Receipt): seq<Effect> { if NeedsAudit(r) then AuditLog(w) else [] }

  function CompletionLog(w: World, r: Receipt): seq<Effect> { OwedActivation(w, r) + OwedAudit(w, r) }

  /** Equal up to diagnostics. */
  predicate Same(a: Receipt, b: Receipt) { a.(diagnostics := []) == b.(diagnostics := []) }

  /** The durable receipt after a history. */
  function Replay(r: Receipt, log: seq<Effect>): Receipt {
    if log == [] then r else Landed(Replay(r, log[..|log| - 1]), log[|log| - 1])
  }

  /** `now` extends `was` by as much of `log` as the budget allows. */
  ghost predicate Did(was: seq<Effect>, now: seq<Effect>, log: seq<Effect>, budget: nat) {
    now == was + log[..Min(budget, |log|)]
  }

  lemma DidBoth(a: seq<Effect>, b: seq<Effect>, c: seq<Effect>, first: seq<Effect>, second: seq<Effect>, budget: nat)
    requires |first| <= budget && Did(a, b, first, budget) && Did(b, c, second, budget - |first|)
    ensures Did(a, c, first + second, budget)
  {
    var n := Min(budget, |first + second|);
    assert (first + second)[..n] == first + second[..n - |first|];
    assert first[..|first|] == first;
  }

  lemma DidFirst(a: seq<Effect>, b: seq<Effect>, first: seq<Effect>, second: seq<Effect>, budget: nat)
    requires budget < |first| && Did(a, b, first, budget)
    ensures Did(a, b, first + second, budget)
  {
    assert (first + second)[..budget] == first[..budget];
  }

  lemma OutcomeMeans(w: World)
    ensures AnswerMeans(w.delivery, w.answer, if w.delivery == Accepted then OutcomeOf(w.answer) else Failed)
  {
  }

  class Completion {
    ghost const committed: Receipt
    /** What the service would read back. */
    var durable: Receipt
    var effects: seq<Effect>

    ghost predicate Valid()
      reads this
    {
      durable == Replay(committed, effects)
    }

    constructor (committed: Receipt)
      ensures Valid() && this.committed == committed && durable == committed && effects == []
    {
      this.committed := committed;
      durable, effects := committed, [];
    }

    /** One effect, unless the process stops first. */
    method Do(e: Effect, budget: nat) returns (left: nat, alive: bool)
      requires Valid()
      modifies this
      ensures Valid() && alive == (budget > 0) && left == (if alive then budget - 1 else 0)
      ensures Did(old(effects), effects, [e], budget)
      ensures durable == if alive then Landed(old(durable), e) else old(durable)
    {
      if budget == 0 { return 0, false; }
      effects := effects + [e];
      durable := Landed(durable, e);
      assert effects[..|effects| - 1] == old(effects);
      return budget - 1, true;
    }

    /** `complete_activation`: the service's receipt, or the cached one with a diagnostic. */
    method CompleteActivation(w: World, c: Option<Correlation>, outcome: Activation, fallback: Receipt, budget: nat)
      returns (r: Receipt, left: nat, alive: bool)
      requires Valid() && Same(fallback, durable)
      modifies this
      ensures Valid() && alive == (budget > 0) && left == (if alive then budget - 1 else 0)
      ensures Did(old(effects), effects, [Completing(w, c, outcome)], budget)
      ensures alive && w.completeOk ==> Same(r, durable) && Same(r, fallback.(activation := outcome))
      ensures alive && (w.completeOk || w.completeLanded) ==> durable.activation == outcome
      ensures alive && !w.completeOk ==> Same(r, fallback)
      ensures durable.(activation := Pending) == old(durable).(activation := Pending)
    {
      left, alive := Do(Completing(w, c, outcome), budget);
      r := if w.completeOk then durable
           else fallback.(diagnostics := fallback.diagnostics + ["activation outcome not recorded"]);
    }

    /** The part of `activate_committed` after the queue record. */
    method Deliver(w: World, c: Correlation, receipt: Receipt, budget: nat) returns (r: Receipt, left: nat, alive: bool)
      requires Valid() && Same(receipt, durable)
      modifies this
      ensures Valid() && Did(old(effects), effects, DeliveryLog(w, receipt, c), budget)
      ensures alive == (budget >= |DeliveryLog(w, receipt, c)|)
      ensures (alive ==> left == budget - |DeliveryLog(w, receipt, c)|)
      ensures alive ==> Same(r.(activation := receipt.activation), receipt)
      ensures alive ==> if w.completeOk then r.activation != Pending else r.activation == receipt.activation
      ensures alive && w.completeOk ==> Same(r, durable)
      ensures alive && Recorded(w) ==> EndsAs(w, w.configured && receipt.policyHash.Some?, durable.activation)
      ensures durable.(activation := Pending) == old(durable).(activation := Pending)
    {
      if !w.configured || receipt.policyHash.None? {
        r, left, alive := CompleteActivation(w, Some(c), Unknown, receipt, budget);
        return;
      }
      left, alive := Do(Send(c, w.delivery, w.answer), budget);
      if !alive {
        DidFirst(old(effects), effects, [Send(c, w.delivery, w.answer)], [SendOutcome(w, c)], budget);
        return receipt, 0, false;
      }
      ghost var sent := effects;
      var outcome := if w.delivery == Accepted then OutcomeOf(w.answer) else Failed;
      OutcomeMeans(w);
      r, left, alive := CompleteActivation(w, Some(c), outcome, receipt, left);
      DidBoth(old(effects), sent, effects, [Send(c, w.delivery, w.answer)], [SendOutcome(w, c)], budget);
    }

    /** The part of `activate_committed` that has a correlation: the queue record, then the delivery. */
    method QueueAndDeliver(w: World, c: Correlation, receipt: Receipt, budget: nat)
      returns (r: Receipt, left: nat, alive: bool)
      requires Valid() && Same(receipt, durable) && w.correlation == Some(c)
      modifies this
      ensures Valid() && Did(old(effects), effects, ActivationLog(w, receipt), budget)
      ensures alive == (budget >= |ActivationLog(w, receipt)|)
      ensures alive ==> left == budget - |ActivationLog(w, receipt)|
      ensures alive ==> Same(r.(activation := receipt.activation), receipt)
      ensures alive && receipt.activation == Pending ==> (r.activation == Pending <==> !w.queueOk || !w.completeOk)
      ensures alive && w.queueOk && w.completeOk ==> Same(r, durable)
      ensures alive && w.queueOk && Recorded(w) ==>
        EndsAs(w, w.configured && receipt.policyHash.Some?, durable.activation)
      ensures durable.(activation := Pending) == old(durable).(activation := Pending)
    {
      ghost var first, second := [Queuing(w, c)], DeliveryLog(w, receipt, c);
      left, alive := Do(Queuing(w, c), budget);
      if !alive {
        DidFirst(old(effects), effects, first, second, budget);
        return receipt, 0, false;
      }
      if !w.queueOk {
        return receipt.(diagnostics := receipt.diagnostics + ["activation queue state not recorded"]), left, true;
      }
      ghost var queued := effects;
      r, left, alive := Deliver(w, c, durable, left);
      assert |first + second| == 1 + |second|;
      DidBoth(old(effects), queued, effects, first, second, budget);
    }

    /** `activate_committed`: the receipt stays pending exactly when a record it needed failed. */
    method ActivateCommitted(w: World, receipt: Receipt, budget: nat) returns (r: Receipt, left: nat, alive: bool)
      requires Valid() && Same(receipt, durable)
      modifies this
      ensures Valid() && Did(old(effects), effects, ActivationLog(w, receipt), budget)
      ensures AttemptShaped(w, ActivationLog(w, receipt))
      ensures alive == (budget >= |ActivationLog(w, receipt)|)
      ensures alive ==> left == budget - |ActivationLog(w, receipt)|
      ensures alive ==> Same(r.(activation := receipt.activation), receipt)
      ensures alive && receipt.activation == Pending ==>
        (r.activation == Pending <==> (w.correlation.Some? && !w.queueOk) || !w.completeOk)
      ensures alive && !(w.correlation.Some? && !w.queueOk) && w.completeOk ==> Same(r, durable)
      ensures alive && !(w.correlation.Some? && !w.queueOk) && Recorded(w) ==>
        EndsAs(w, w.correlation.Some? && w.configured && receipt.policyHash.Some?, durable.activation)
      ensures durable.(activation := Pending) == old(durable).(activation := Pending)
    {
      ShapeOfAttempt(w, receipt);
      if w.correlation.None? {
        r, left, alive := CompleteActivation(w, None, Unknown, receipt, budget);
        return;
      }
      r, left, alive := QueueAndDeliver(w, w.correlation.value, receipt, budget);
    }

    /** `record_receipt_audit`; success may still report the audit as pending. */
    method RecordReceiptAudit(w: World, fallback: Receipt, budget: nat) returns (r: Receipt, alive: bool)
      requires Valid()
      modifies this
      ensures Valid() && alive == (budget > 0) && Did(old(effects), effects, AuditLog(w), budget)
      ensures alive && w.auditOk ==> Same(r, durable)
      ensures alive && !w.auditOk ==> Same(r, fallback.(auditRecorded := false))
      ensures durable.activation == old(durable).activation
      ensures alive && w.auditLanded ==> durable.auditRecorded
    {
      var left;
      left, alive := Do(Audit(w.auditOk, w.auditLanded), budget);
      r := if w.auditOk then durable
           else
             fallback.(auditRecorded := false, diagnostics := fallback.diagnostics + ["audit delivery not recorded"]);
    }

    method ActivateIfOwed(w: World, receipt: Receipt, budget: nat) returns (r: Receipt, left: nat, alive: bool)
      requires Valid() && Same(receipt, durable)
      modifies this
      ensures Valid() && Did(old(effects), effects, OwedActivation(w, receipt), budget)
      ensures alive == (budget >= |OwedActivation(w, receipt)|)
      ensures (alive ==> left == budget - |OwedActivation(w, receipt)|)
      ensures alive ==> NeedsAudit(r) == NeedsAudit(receipt)
      ensures !NeedsActivation(receipt) ==> r == receipt && effects == old(effects)
      ensures alive && NeedsActivation(receipt) && !(w.correlation.Some? && !w.queueOk) && Recorded(w) ==>
        EndsAs(w, w.correlation.Some? && w.configured && receipt.policyHash.Some?, durable.activation)
      ensures durable.(activation := Pending) == old(durable).(activation := Pending)
    {
      if !NeedsActivation(receipt) { return receipt, budget, true; }
      r, left, alive := ActivateCommitted(w, receipt, budget);
    }

    /** `complete_post_commit`: without work owed it is the identity and touches nothing. */
    method CompletePostCommit(w: World, receipt: Receipt, budget: nat) returns (r: Receipt, alive: bool)
      requires Valid() && Same(receipt, durable)
      modifies this
      ensures Valid() && Did(old(effects), effects, CompletionLog(w, receipt), budget)
      ensures alive == (budget >= |CompletionLog(w, receipt)|)
      ensures !RequiresPostCommitCompletion(receipt) ==> r == receipt && effects == old(effects)
      ensures RequiresPostCommitCompletion(receipt) && budget > 0 ==> |effects| > |old(effects)|
      ensures effects != old(effects) ==>
        || (receipt.persistence == Committed && receipt.changed && receipt.activation == Pending)
        || ((receipt.persistence == Committed || receipt.persistence == Aborted) && !receipt.auditRecorded)
      ensures alive && (receipt.persistence == Committed || receipt.persistence == Aborted) && w.auditLanded ==>
        durable.auditRecorded
      ensures alive && receipt.persistence == Committed && receipt.changed && receipt.activation == Pending
              && !(w.correlation.Some? && !w.queueOk) && Recorded(w) ==>
        EndsAs(w, w.correlation.Some? && w.configured && receipt.policyHash.Some?, durable.activation)
    {
      ghost var first, second := OwedActivation(w, receipt), OwedAudit(w, receipt);
      var left;
      r, left, alive := ActivateIfOwed(w, receipt, budget);
      if !alive {
        DidFirst(old(effects), effects, first, second, budget);
        return;
      }
      ghost var activated := effects;
      if NeedsAudit(r) {
        r, alive := RecordReceiptAudit(w, r, left);
      }
      DidBoth(old(effects), activated, effects, first, second, budget);
    }

    /** Any number of attempts with stops in between, each on the receipt as the service reads it back. */
    method Resume(worlds: seq<World>, budgets: seq<nat>)
      requires Valid() && Ordered(committed, effects) && |budgets| == |worlds|
      modifies this
      ensures Valid() && Ordered(committed, effects)
    {
      var i := 0;
      while i < |worlds|
        invariant 0 <= i <= |worlds| && Valid() && Ordered(committed, effects)
      {
        ghost var log := CompletionLog(worlds[i], durable);
        ghost var before := effects;
        AttemptKeepsOrder(committed, before, worlds[i], Min(budgets[i], |log|));
        var r, alive := CompletePostCommit(worlds[i], durable, budgets[i]);
        i := i + 1;
      }
    }
  }

  // ---------------------------------------------------------------- one attempt

  /**
   In the log of one attempt: a send directly follows the durable queue record of
   the same correlation and is directly followed by the attempt's one completion,
   of the same correlation; nothing follows a refused queue record.
   */
  ghost predicate AttemptShaped(w: World, log: seq<Effect>) {
    && log != []
    && (forall i, j :: 0 <= i < |log| && 0 <= j < |log| && log[i].Send? && log[j].Send? ==> i == j)
    && (forall i :: 0 <= i < |log| && log[i].Send? ==>
          && 0 < i < |log| - 1
          && log[i - 1] == Queue(log[i].correlation, true, w.queueLanded)
          && log[i + 1].Complete? && log[i + 1].correlationId == Some(log[i].correlation))
    && (forall i :: 0 <= i < |log| && log[i].Complete? ==> i == |log| - 1)
    && (log[|log| - 1].Complete? <==> !(w.correlation.Some? && !w.queueOk))
    && (forall i :: 0 <= i < |log| && log[i].Queue? && !log[i].ok ==> |log| == 1)
  }

  lemma ShapeOfAttempt(w: World, r: Receipt)
    ensures AttemptShaped(w, ActivationLog(w, r))
  {
    var log := ActivationLog(w, r);
    if w.correlation.Some? && w.queueOk {
      var c := w.correlation.value;
      assert log[1..] == DeliveryLog(w, r, c);
    }
  }

  /** Queue records come first, a send second and after its durable queue record, and outcomes are decided. */
  predicate ShapedAt(log: seq<Effect>, k: nat)
    requires k < |log|
  {
    match log[k]
    case Queue(_, _, _) => k == 0
    case Send(c, _, _) => k == 1 && log[0].Queue? && log[0].correlation == c && log[0].ok
    case Complete(c, outcome, _, _) => FitsSend(Before(log, k), c, outcome) && (k == 0 ==> c.None?)
    case Audit(_, _) => true
  }

  function Before(log: seq<Effect>, k: nat): Option<Effect>
    requires k < |log|
  {
    if k == 0 then None else Some(log[k - 1])
  }

  predicate WellShaped(log: seq<Effect>) { forall k :: 0 <= k < |log| ==> ShapedAt(log, k) }

  /** The log asks for activation: it has a queue record or a send. */
  predicate Activates(log: seq<Effect>) { exists k :: 0 <= k < |log| && (log[k].Queue? || log[k].Send?) }

  lemma ActivationIsWellShaped(w: World, r: Receipt)
    ensures WellShaped(ActivationLog(w, r))
  {
    var log := ActivationLog(w, r);
    assert |log| <= 3;
    forall k | 0 <= k < |log| ensures ShapedAt(log, k) {
      assert k == 0 || k == 1 || k == 2;
    }
  }

  lemma ShapedBefore(log: seq<Effect>, more: seq<Effect>, k: nat)
    requires k < |log| && ShapedAt(log, k)
    ensures ShapedAt(log + more, k)
  {
    assert (log + more)[k] == log[k] && (log + more)[0] == log[0];
    assert Before(log + more, k) == Before(log, k);
  }

  lemma CompletionIsWellShaped(w: World, r: Receipt)
    ensures WellShaped(CompletionLog(w, r))
    ensures Activates(CompletionLog(w, r)) ==> NeedsActivation(r)
  {
    var first, second := OwedActivation(w, r), OwedAudit(w, r);
    var log := first + second;
    if NeedsActivation(r) { ActivationIsWellShaped(w, r); }
    forall k | 0 <= k < |log| ensures ShapedAt(log, k) && (k >= |first| ==> log[k].Audit?) {
      if k < |first| {
        ShapedBefore(first, second, k);
      } else {
        assert log[k] == second[k - |first|];
      }
    }
  }

  // --------------------------------------------------------------- whole histories

  /** A queue record and a send happen while the durable receipt is pending, the send right after its own record. */
  ghost predicate OrderedAt(committed: Receipt, effects: seq<Effect>, i: nat)
    requires i < |effects|
  {
    match effects[i]
    case Queue(_, _, _) => NeedsActivation(Replay(committed, effects[..i]))
    case Send(c, _, _) =>
      && i > 0 && effects[i - 1].Queue? && effects[i - 1].correlation == c && effects[i - 1].ok
      && NeedsActivation(Replay(committed, effects[..i]))
    case Complete(c, outcome, _, _) => FitsSend(Before(effects, i), c, outcome)
    case Audit(_, _) => true
  }

  ghost predicate Ordered(committed: Receipt, effects: seq<Effect>) {
    forall i :: 0 <= i < |effects| ==> OrderedAt(committed, effects, i)
  }

  lemma OrderedPrefix(committed: Receipt, effects: seq<Effect>, more: seq<Effect>, i: nat)
    requires Ordered(committed, effects) && i < |effects|
    ensures OrderedAt(committed, effects + more, i)
  {
    assert OrderedAt(committed, effects, i);
    assert (effects + more)[..i] == effects[..i];
    assert (effects + more)[i] == effects[i];
    assert Before(effects + more, i) == Before(effects, i);
  }

  lemma OrderedQueue(committed: Receipt, effects: seq<Effect>, log: seq<Effect>)
    requires log != [] && log[0].Queue? && NeedsActivation(Replay(committed, effects))
    ensures OrderedAt(committed, effects + log, |effects|)
  {
    var all, m := effects + log, |effects|;
    assert all[m] == log[0] && all[..m] == effects;
  }

  lemma OrderedSend(committed: Receipt, effects: seq<Effect>, log: seq<Effect>)
    requires |log| >= 2 && log[1].Send? && ShapedAt(log, 1) && NeedsActivation(Replay(committed, effects))
    ensures OrderedAt(committed, effects + log, |effects| + 1)
  {
    var all, m := effects + log, |effects|;
    assert all[m + 1] == log[1] && all[m] == log[0];
    assert all[..m + 1] == effects + [log[0]] && (effects + [log[0]])[..m] == effects;
    assert Replay(committed, all[..m + 1]) == Landed(Replay(committed, effects), log[0]);
  }

  lemma OrderedExtends(committed: Receipt, effects: seq<Effect>, log: seq<Effect>)
    requires Ordered(committed, effects) && WellShaped(log)
    requires Activates(log) ==> NeedsActivation(Replay(committed, effects))
    ensures Ordered(committed, effects + log)
  {
    var all, m := effects + log, |effects|;
    forall i | 0 <= i < |all| ensures OrderedAt(committed, all, i) {
      if i < m {
        OrderedPrefix(committed, effects, log, i);
      } else {
        var k := i - m;
        assert all[i] == log[k] && ShapedAt(log, k);
        if log[k].Queue? {
          OrderedQueue(committed, effects, log);
        } else if log[k].Send? {
          OrderedSend(committed, effects, log);
        } else if log[k].Complete? && k > 0 {
          assert all[i - 1] == log[k - 1];
        }
      }
    }
  }

  lemma ShapedPrefix(log: seq<Effect>, n: nat)
    requires WellShaped(log) && n <= |log|
    ensures WellShaped(log[..n]) && (Activates(log[..n]) ==> Activates(log))
  {
    forall k | 0 <= k < n ensures ShapedAt(log[..n], k) {
      assert ShapedAt(log, k) && log[..n][k] == log[k] && log[..n][0] == log[0];
      assert Before(log[..n], k) == Before(log, k);
    }
    if Activates(log[..n]) {
      var k :| 0 <= k < n && (log[..n][k].Queue? || log[..n][k].Send?);
      assert log[k].Queue? || log[k].Send?;
    }
  }

  lemma AttemptKeepsOrder(committed: Receipt, effects: seq<Effect>, w: World, n: nat)
    requires Ordered(committed, effects)
    requires n <= |CompletionLog(w, Replay(committed, effects))|
    ensures Ordered(committed, effects + CompletionLog(w, Replay(committed, effects))[..n])
  {
    var log := CompletionLog(w, Replay(committed, effects));
    CompletionIsWellShaped(w, Replay(committed, effects));
    ShapedPrefix(log, n);
    OrderedExtends(committed, effects, log[..n]);
  }

  /** So once an outcome is durable, a history of attempts one after another sends nothing more. */
  lemma NeverReactivated(committed: Receipt, effects: seq<Effect>, i: nat, j: nat)
    requires Ordered(committed, effects) && i <= j < |effects| && !NeedsActivation(Replay(committed, effects[..i]))
    ensures !effects[j].Send? && !effects[j].Queue?
  {
    SettledStays(committed, effects, i, j);
    assert OrderedAt(committed, effects, j);
  }

  lemma {:induction false} SettledStays(committed: Receipt, effects: seq<Effect>, i: nat, j: nat)
    requires i <= j <= |effects| && !NeedsActivation(Replay(committed, effects[..i]))
    requires Ordered(committed, effects)
    ensures !NeedsActivation(Replay(committed, effects[..j]))
  {
    if i < j {
      SettledStays(committed, effects, i, j - 1);
      assert OrderedAt(committed, effects, j - 1);
      assert effects[..j][..j - 1] == effects[..j - 1];
    }
  }

  /** The effect sets the activation of the durable receipt. */
  predicate Sets(e: Effect) { (e.Queue? || e.Complete?) && (e.ok || e.landed) }

  /**
   The durable outcome of a history is the last one recorded, and the effect before
   it is the request it answers: applied only if the daemon accepted that request
   and reported the policy active.
   */
  lemma {:induction false} OutcomeIsEarned(committed: Receipt, effects: seq<Effect>) returns (i: nat)
    requires Ordered(committed, effects)
    requires Replay(committed, effects).activation !in {Pending, committed.activation}
    ensures i < |effects| && effects[i].Complete? && Sets(effects[i])
    ensures effects[i].outcome == Replay(committed, effects).activation
    ensures FitsSend(Before(effects, i), effects[i].correlationId, effects[i].outcome)
    ensures forall j :: i < j < |effects| ==> !Sets(effects[j])
  {
    var last := |effects| - 1;
    assert effects != [] && OrderedAt(committed, effects, last);
    if Sets(effects[last]) {
      i := last;
    } else {
      var before := effects[..last];
      forall j | 0 <= j < last ensures OrderedAt(committed, before, j) {
        assert OrderedAt(committed, effects, j) && before[..j] == effects[..j];
        assert Before(before, j) == Before(effects, j);
      }
      i := OutcomeIsEarned(committed, before);
      assert Before(before, i) == Before(effects, i);
    }
  }
}
