/**
 Overlapping completions of one receipt. The supervisor can run an apply and a
 resumption of the same key at once, so attempts interleave: each reads the
 receipt, decides by what it read, and then takes its effects one by one.
 */
module ActivationRuns {
  import opened Common
  import opened Receipts
  import opened Activation

  /** The durable receipt, and what every attempt that has read it still has to do. */
  datatype State = State(durable: Receipt, todo: seq<seq<Effect>>)

  datatype Move =
    | Read(w: World)                      // a new attempt reads the receipt and decides
    | Go(id: nat)                         // an attempt takes its next effect
    | Halt(id: nat)                       // an attempt stops for good
    | Audited(ok: bool, landed: bool)     // an audit record, by any attempt

  predicate Enabled(s: State, m: Move) {
    match m
    case Read(_) => true
    case Go(id) => id < |s.todo| && s.todo[id] != []
    case Halt(id) => id < |s.todo|
    case Audited(_, _) => true
  }

  function Next(s: State, m: Move): State
    requires Enabled(s, m)
  {
    match m
    case Read(w) => s.(todo := s.todo + [OwedActivation(w, s.durable)])
    case Go(id) => State(Landed(s.durable, s.todo[id][0]), s.todo[id := s.todo[id][1..]])
    case Halt(id) => s.(todo := s.todo[id := []])
    case Audited(ok, landed) => s.(durable := Landed(s.durable, Audit(ok, landed)))
  }

  predicate IsSend(s: State, m: Move)
    requires Enabled(s, m)
  {
    m.Go? && s.todo[m.id][0].Send?
  }

  ghost predicate IsRun(committed: Receipt, moves: seq<Move>, states: seq<State>) {
    && |states| == |moves| + 1
    && states[0] == State(committed, [])
    && forall i {:trigger Enabled(states[i], moves[i])} ::
         0 <= i < |moves| ==> Enabled(states[i], moves[i]) && states[i + 1] == Next(states[i], moves[i])
  }

  // ------------------------------------------------------------------ what is left

  /** The effect can undo a durable outcome: a send, or a queue record that reaches the receipt. */
  predicate Reopens(e: Effect) { e.Send? || (e.Queue? && (e.ok || e.landed)) }

  /** This attempt read the receipt while it was pending, and still has such an effect to come. */
  ghost predicate Armed(todo: seq<Effect>) { exists k :: 0 <= k < |todo| && Reopens(todo[k]) }

  ghost predicate AnyArmed(s: State) { exists id :: 0 <= id < |s.todo| && Armed(s.todo[id]) }

  /** Outcomes to come are decided, and a send is to come only for a receipt with a policy hash. */
  predicate Proper(todo: seq<Effect>, hash: Option<string>) {
    forall k :: 0 <= k < |todo| ==>
      && (todo[k].Complete? ==> todo[k].outcome != Pending)
      && (todo[k].Send? ==> hash.Some?)
  }

  ghost predicate AllProper(s: State) {
    forall id :: 0 <= id < |s.todo| ==> Proper(s.todo[id], s.durable.policyHash)
  }

  /** Only a committed change ever has anything to do, and no effect alters what was committed. */
  ghost predicate Grounded(s: State) {
    && AllProper(s)
    && (forall id :: 0 <= id < |s.todo| && s.todo[id] != [] ==> s.durable.persistence == Committed && s.durable.changed)
  }

  lemma OwedIsProper(w: World, r: Receipt)
    ensures Proper(OwedActivation(w, r), r.policyHash)
    ensures OwedActivation(w, r) != [] <==> NeedsActivation(r)
  {
    if NeedsActivation(r) {
      ActivationIsWellShaped(w, r);
      var log := ActivationLog(w, r);
      forall k | 0 <= k < |log| ensures log[k].Complete? ==> log[k].outcome != Pending { assert ShapedAt(log, k); }
    }
  }

  lemma LandedKeepsCommit(r: Receipt, e: Effect)
    ensures var t := Landed(r, e);
      t.policyHash == r.policyHash && t.persistence == r.persistence && t.changed == r.changed
  {
  }

  lemma StepGrounded(s: State, m: Move)
    requires Grounded(s) && Enabled(s, m)
    ensures Grounded(Next(s, m)) && Next(s, m).durable.policyHash == s.durable.policyHash
  {
    match m
    case Read(w) => OwedIsProper(w, s.durable);
    case Go(id) =>
      LandedKeepsCommit(s.durable, s.todo[id][0]);
      assert Proper(s.todo[id], s.durable.policyHash);
      assert Proper(s.todo[id][1..], s.durable.policyHash);
    case Halt(id) =>
    case Audited(_, _) =>
  }

  lemma {:induction false} RunGrounded(committed: Receipt, moves: seq<Move>, states: seq<State>, i: nat)
    requires IsRun(committed, moves, states) && i < |states|
    ensures Grounded(states[i]) && states[i].durable.policyHash == committed.policyHash
  {
    if i > 0 {
      var k := i - 1;
      RunGrounded(committed, moves, states, k);
      assert Enabled(states[k], moves[k]);
      StepGrounded(states[k], moves[k]);
    }
  }

  // ------------------------------------------------- an outcome that nobody can undo

  /** The outcome is durable and no attempt that read the receipt earlier can undo it. */
  ghost predicate Final(s: State) {
    !NeedsActivation(s.durable) && !AnyArmed(s)
  }

  lemma UnarmedTail(todo: seq<Effect>)
    requires todo != [] && !Armed(todo)
    ensures !Armed(todo[1..]) && !Reopens(todo[0])
  {
    forall k | 0 <= k < |todo| - 1 ensures !Reopens(todo[1..][k]) { assert todo[1..][k] == todo[k + 1]; }
  }

  lemma FinalStep(s: State, m: Move)
    requires Grounded(s) && Final(s) && Enabled(s, m)
    ensures Final(Next(s, m)) && !IsSend(s, m)
  {
    var t := Next(s, m);
    match m
    case Read(w) =>
      OwedIsProper(w, s.durable);
      forall id | 0 <= id < |t.todo| ensures !Armed(t.todo[id]) {
        if id < |s.todo| { assert t.todo[id] == s.todo[id]; }
      }
    case Go(id) =>
      assert Proper(s.todo[id], s.durable.policyHash);
      UnarmedTail(s.todo[id]);
      forall k | 0 <= k < |t.todo| ensures !Armed(t.todo[k]) {
        if k != id { assert t.todo[k] == s.todo[k]; }
      }
    case Halt(id) =>
      forall k | 0 <= k < |t.todo| ensures !Armed(t.todo[k]) {
        if k != id { assert t.todo[k] == s.todo[k]; }
      }
    case Audited(_, _) =>
  }

  /** Once the outcome is final it stays final, and no later move of any attempt is a send. */
  lemma {:induction false} FinalStays(committed: Receipt, moves: seq<Move>, states: seq<State>, i: nat, j: nat)
    requires IsRun(committed, moves, states) && i <= j < |states| && Final(states[i])
    ensures Final(states[j])
    ensures j < |moves| ==> !IsSend(states[j], moves[j])
    decreases j
  {
    if i < j {
      var k := j - 1;
      FinalStays(committed, moves, states, i, k);
      RunGrounded(committed, moves, states, k);
      FinalStep(states[k], moves[k]);
    }
    if j < |moves| {
      RunGrounded(committed, moves, states, j);
      FinalStep(states[j], moves[j]);
    }
  }

  // --------------------------------------------------- an outcome that can be undone

  /** One run goes on as another, and sends on the way. */
  ghost predicate GoesOnToSend(committed: Receipt, moves: seq<Move>, states: seq<State>, more: seq<Move>,
                               after: seq<State>) {
    && IsRun(committed, moves + more, states + after)
    && exists k :: |moves| <= k < |moves + more| && IsSend((states + after)[k], (moves + more)[k])
  }

  ghost predicate CanSend(committed: Receipt, moves: seq<Move>, states: seq<State>) {
    exists more, after :: GoesOnToSend(committed, moves, states, more, after)
  }

  lemma RunExtends(committed: Receipt, moves: seq<Move>, states: seq<State>, m: Move)
    requires IsRun(committed, moves, states) && Enabled(states[|moves|], m)
    ensures IsRun(committed, moves + [m], states + [Next(states[|moves|], m)])
  {
    var moves', states' := moves + [m], states + [Next(states[|moves|], m)];
    forall i | 0 <= i < |moves'|
      ensures Enabled(states'[i], moves'[i]) && states'[i + 1] == Next(states'[i], moves'[i])
    {
      if i < |moves| { assert Enabled(states[i], moves[i]); }
    }
  }

  lemma SendsNow(committed: Receipt, moves: seq<Move>, states: seq<State>, m: Move)
    requires IsRun(committed, moves, states) && Enabled(states[|moves|], m) && IsSend(states[|moves|], m)
    ensures CanSend(committed, moves, states)
  {
    RunExtends(committed, moves, states, m);
    var after := [Next(states[|moves|], m)];
    assert (states + after)[|moves|] == states[|moves|] && (moves + [m])[|moves|] == m;
    assert GoesOnToSend(committed, moves, states, [m], after);
  }

  lemma SendsLater(committed: Receipt, moves: seq<Move>, states: seq<State>, m: Move)
    requires IsRun(committed, moves, states) && Enabled(states[|moves|], m)
    requires CanSend(committed, moves + [m], states + [Next(states[|moves|], m)])
    ensures CanSend(committed, moves, states)
  {
    var t := Next(states[|moves|], m);
    var more, after :| GoesOnToSend(committed, moves + [m], states + [t], more, after);
    assert (moves + [m]) + more == moves + ([m] + more);
    assert (states + [t]) + after == states + ([t] + after);
    assert GoesOnToSend(committed, moves, states, [m] + more, [t] + after);
  }

  /** A pending receipt with a policy hash can be sent by an attempt that starts now. */
  lemma PendingCanSend(committed: Receipt, moves: seq<Move>, states: seq<State>)
    requires IsRun(committed, moves, states)
    requires var r := states[|moves|].durable; NeedsActivation(r) && r.policyHash.Some?
    ensures CanSend(committed, moves, states)
  {
    var s := states[|moves|];
    var id := |s.todo|;
    var w := World(Some("c"), true, true, true, Delivery.Accepted, ActiveNow, true, true, true, true);
    var read := Next(s, Read(w));
    assert read.todo[id] == [Queuing(w, "c")] + ([Send("c", w.delivery, w.answer)] + [SendOutcome(w, "c")]);
    RunExtends(committed, moves, states, Read(w));
    var queued := Next(read, Go(id));
    assert queued.todo[id][0] == Send("c", w.delivery, w.answer);
    RunExtends(committed, moves + [Read(w)], states + [read], Go(id));
    SendsNow(committed, moves + [Read(w)] + [Go(id)], states + [read] + [queued], Go(id));
    SendsLater(committed, moves + [Read(w)], states + [read], Go(id));
    SendsLater(committed, moves, states, Read(w));
  }

  /** An attempt that read the receipt while it was pending can go on to a send, its own or another's. */
  lemma {:induction false} ArmedCanSend(committed: Receipt, moves: seq<Move>, states: seq<State>, id: nat)
    requires IsRun(committed, moves, states)
    requires var s := states[|moves|]; id < |s.todo| && Armed(s.todo[id]) && s.durable.policyHash.Some?
    ensures CanSend(committed, moves, states)
    decreases |states[|moves|].todo[id]|
  {
    var s := states[|moves|];
    var e, t := s.todo[id][0], Next(s, Go(id));
    RunGrounded(committed, moves, states, |moves|);
    RunExtends(committed, moves, states, Go(id));
    if e.Send? {
      SendsNow(committed, moves, states, Go(id));
    } else {
      if Reopens(e) {
        PendingCanSend(committed, moves + [Go(id)], states + [t]);
      } else {
        var k :| 0 <= k < |s.todo[id]| && Reopens(s.todo[id][k]);
        assert Reopens(t.todo[id][k - 1]);
        ArmedCanSend(committed, moves + [Go(id)], states + [t], id);
      }
      SendsLater(committed, moves, states, Go(id));
    }
  }

  lemma FinalCannotSend(committed: Receipt, moves: seq<Move>, states: seq<State>)
    requires IsRun(committed, moves, states) && Final(states[|moves|])
    ensures !CanSend(committed, moves, states)
  {
    forall more, after ensures !GoesOnToSend(committed, moves, states, more, after) {
      if GoesOnToSend(committed, moves, states, more, after) {
        var k :| |moves| <= k < |moves + more| && IsSend((states + after)[k], (moves + more)[k]);
        assert (states + after)[|moves|] == states[|moves|];
        FinalStays(committed, moves + more, states + after, |moves|, k);
      }
    }
  }

  lemma {:induction false} HashlessNeverSends(committed: Receipt, moves: seq<Move>, states: seq<State>, j: nat)
    requires IsRun(committed, moves, states) && committed.policyHash.None? && j < |moves|
    ensures !IsSend(states[j], moves[j])
  {
    RunGrounded(committed, moves, states, j);
    assert Enabled(states[j], moves[j]);
    if moves[j].Go? { assert Proper(states[j].todo[moves[j].id], states[j].durable.policyHash); }
  }

  /**
   A durable outcome is followed by a send exactly when some attempt that read the
   receipt before the outcome landed still has its queue record or its send to come
   (and the receipt has a policy hash to send).
   */
  lemma ReactivatedExactly(committed: Receipt, moves: seq<Move>, states: seq<State>)
    requires IsRun(committed, moves, states) && !NeedsActivation(states[|moves|].durable)
    ensures CanSend(committed, moves, states) <==> committed.policyHash.Some? && AnyArmed(states[|moves|])
  {
    var s := states[|moves|];
    RunGrounded(committed, moves, states, |moves|);
    if !AnyArmed(s) {
      FinalCannotSend(committed, moves, states);
    } else if committed.policyHash.Some? {
      var id :| 0 <= id < |s.todo| && Armed(s.todo[id]);
      ArmedCanSend(committed, moves, states, id);
    } else {
      forall more, after ensures !GoesOnToSend(committed, moves, states, more, after) {
        if GoesOnToSend(committed, moves, states, more, after) {
          var k :| |moves| <= k < |moves + more| && IsSend((states + after)[k], (moves + more)[k]);
          HashlessNeverSends(committed, moves + more, states + after, k);
        }
      }
    }
  }

  /** An attempt of two takes its next effect. */
  lemma GoOne(durable: Receipt, a: seq<Effect>, b: seq<Effect>, e: Effect, rest: seq<Effect>)
    ensures a == [e] + rest ==> Next(State(durable, [a, b]), Go(0)) == State(Landed(durable, e), [rest, b])
    ensures b == [e] + rest ==> Next(State(durable, [a, b]), Go(1)) == State(Landed(durable, e), [a, rest])
  {
    assert ([e] + rest)[1..] == rest;
    assert [a, b][0 := rest] == [rest, b] && [a, b][1 := rest] == [a, rest];
  }

  /** Two attempts read the receipt, one completes it, and the other then sends all the same. */
  lemma OverlapReactivates(committed: Receipt, w: World) returns (moves: seq<Move>, states: seq<State>)
    requires NeedsActivation(committed) && committed.policyHash.Some?
    requires w.correlation.Some? && w.queueOk && w.configured && w.completeOk
    ensures IsRun(committed, moves, states) && |moves| == 7
    ensures !NeedsActivation(states[5].durable) && IsSend(states[6], moves[6])
  {
    var c := w.correlation.value;
    var queue, send, complete := Queuing(w, c), Send(c, w.delivery, w.answer), SendOutcome(w, c);
    var last: seq<Effect> := [complete];
    var rest := [send] + last;
    var log := [queue] + rest;
    assert log == ActivationLog(w, committed);
    var done := Landed(committed, complete);
    moves := [Read(w), Read(w), Go(0), Go(0), Go(0), Go(1), Go(1)];
    states := [State(committed, []), State(committed, [log]), State(committed, [log, log]),
               State(committed, [rest, log]), State(committed, [last, log]), State(done, [[], log]),
               State(committed, [[], rest]), State(committed, [[], last])];
    assert last == [complete] + [] && Landed(done, queue) == committed;
    assert [] + [log] == [log] && [log] + [log] == [log, log];
    assert Next(states[0], moves[0]) == states[1] && Next(states[1], moves[1]) == states[2];
    GoOne(committed, log, log, queue, rest);
    GoOne(committed, rest, log, send, last);
    GoOne(committed, last, log, complete, []);
    GoOne(done, [], log, queue, rest);
    GoOne(committed, [], rest, send, last);
    assert Next(states[2], moves[2]) == states[3] && Next(states[3], moves[3]) == states[4];
    assert Next(states[4], moves[4]) == states[5] && Next(states[5], moves[5]) == states[6];
    assert Next(states[6], moves[6]) == states[7];
  }

  // ------------------------------------------------------------- outcomes are earned

  /** A request with this correlation was sent earlier in the run, and the outcome says what became of it. */
  ghost predicate SentBefore(moves: seq<Move>, states: seq<State>, i: nat, c: Correlation, outcome: Receipts.Activation)
    requires |states| == |moves| + 1 && i <= |moves|
  {
    exists j :: 0 <= j < i && Enabled(states[j], moves[j]) && IsSend(states[j], moves[j])
      && var e := states[j].todo[moves[j].id][0]; e.correlation == c && AnswerMeans(e.delivery, e.answer, outcome)
  }

  /** The outcome to come at `k` is unknown, or its request comes right before it or came already. */
  ghost predicate Backed(moves: seq<Move>, states: seq<State>, i: nat, todo: seq<Effect>, k: nat)
    requires |states| == |moves| + 1 && i <= |moves| && k < |todo|
  {
    todo[k].Complete? && todo[k].outcome != Unknown ==>
      && todo[k].correlationId.Some?
      && if k > 0 then FitsSend(Some(todo[k - 1]), todo[k].correlationId, todo[k].outcome)
         else SentBefore(moves, states, i, todo[0].correlationId.value, todo[0].outcome)
  }

  ghost predicate AllBacked(moves: seq<Move>, states: seq<State>, i: nat)
    requires |states| == |moves| + 1 && i <= |moves|
  {
    forall id, k :: 0 <= id < |states[i].todo| && 0 <= k < |states[i].todo[id]| ==>
      Backed(moves, states, i, states[i].todo[id], k)
  }

  lemma OwedIsBacked(moves: seq<Move>, states: seq<State>, i: nat, w: World, r: Receipt, k: nat)
    requires |states| == |moves| + 1 && i <= |moves| && k < |OwedActivation(w, r)|
    ensures Backed(moves, states, i, OwedActivation(w, r), k)
  {
    ActivationIsWellShaped(w, r);
    assert ShapedAt(ActivationLog(w, r), k);
  }

  lemma SentStays(moves: seq<Move>, states: seq<State>, i: nat, c: Correlation, outcome: Receipts.Activation)
    requires |states| == |moves| + 1 && i < |moves| && SentBefore(moves, states, i, c, outcome)
    ensures SentBefore(moves, states, i + 1, c, outcome)
  {
  }

  lemma StillBacked(moves: seq<Move>, states: seq<State>, i: nat, todo: seq<Effect>, k: nat)
    requires |states| == |moves| + 1 && i < |moves| && k < |todo| && Backed(moves, states, i, todo, k)
    ensures Backed(moves, states, i + 1, todo, k)
  {
    if todo[k].Complete? && todo[k].outcome != Unknown && k == 0 {
      SentStays(moves, states, i, todo[0].correlationId.value, todo[0].outcome);
    }
  }

  /** Taking the next effect leaves the rest of the attempt backed. */
  lemma TailIsBacked(moves: seq<Move>, states: seq<State>, i: nat, k: nat)
    requires |states| == |moves| + 1 && i < |moves| && Enabled(states[i], moves[i]) && moves[i].Go?
    requires var todo := states[i].todo[moves[i].id]; k + 1 < |todo| && Backed(moves, states, i, todo, k + 1)
    ensures Backed(moves, states, i + 1, states[i].todo[moves[i].id][1..], k)
  {
    var todo := states[i].todo[moves[i].id];
    var rest := todo[1..];
    assert rest[k] == todo[k + 1];
    if k > 0 {
      assert rest[k - 1] == todo[k];
    } else if rest[0].Complete? && rest[0].outcome != Unknown {
      assert IsSend(states[i], moves[i]);
    }
  }

  lemma {:induction false} RunIsBacked(committed: Receipt, moves: seq<Move>, states: seq<State>, i: nat)
    requires IsRun(committed, moves, states) && i <= |moves|
    ensures AllBacked(moves, states, i)
  {
    if i > 0 {
      var m := i - 1;
      RunIsBacked(committed, moves, states, m);
      assert Enabled(states[m], moves[m]);
      var s, t := states[m], states[i];
      forall id, k | 0 <= id < |t.todo| && 0 <= k < |t.todo[id]| ensures Backed(moves, states, i, t.todo[id], k) {
        if moves[m].Read? && id == |s.todo| {
          OwedIsBacked(moves, states, i, moves[m].w, s.durable, k);
        } else if moves[m].Go? && id == moves[m].id {
          assert Backed(moves, states, m, s.todo[id], k + 1);
          TailIsBacked(moves, states, m, k);
        } else {
          assert t.todo[id] == s.todo[id] && Backed(moves, states, m, s.todo[id], k);
          StillBacked(moves, states, m, s.todo[id], k);
        }
      }
    }
  }

  /**
   However attempts overlap, a durable outcome other than unknown answers a request
   that was sent earlier: applied only if the daemon accepted it and reported the
   policy active.
   */
  lemma {:induction false} DurableOutcomeIsEarned(committed: Receipt, moves: seq<Move>, states: seq<State>, i: nat)
    returns (c: Correlation)
    requires IsRun(committed, moves, states) && i <= |moves|
    requires states[i].durable.activation !in {Pending, Unknown, committed.activation}
    ensures SentBefore(moves, states, i, c, states[i].durable.activation)
  {
    var m := i - 1;
    assert i > 0;
    assert Enabled(states[m], moves[m]);
    if states[m].durable.activation == states[i].durable.activation {
      c := DurableOutcomeIsEarned(committed, moves, states, m);
      SentStays(moves, states, m, c, states[i].durable.activation);
    } else {
      var todo := states[m].todo[moves[m].id];
      RunIsBacked(committed, moves, states, m);
      assert Backed(moves, states, m, todo, 0);
      c := todo[0].correlationId.value;
      SentStays(moves, states, m, c, states[i].durable.activation);
    }
  }
}
