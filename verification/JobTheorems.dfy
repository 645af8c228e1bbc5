/** What holds in every run of the job supervisor. */
module JobTheorems {
  import opened Common
  import opened Receipts
  import opened JobProtocol
  import opened JobInvariant
  import opened JobSteps

  /** Steps taken by a caller of the client, as against workers and the loop. */
  predicate ClientStep(step: Step) {
    || step.SExisting? || step.SSubmit? || step.STrySend? || step.SAnswerRefused? || step.SWaitTerminal?
    || step.SAdmit? || step.SDropReceiver? || step.SReconcileUncertain? || step.SReconcileOperation?
  }

  predicate WorkerStep(step: Step) {
    step.SPrepared? || step.SUpdate? || step.SFinishApply? || step.SFailApply? || step.SEndResume?
  }

  lemma ClientStepKeepsLoop(c: Config, s: State, step: Step)
    requires LoopConsistent(c, s) && Enabled(c, s, step) && ClientStep(step)
    ensures LoopConsistent(c, Next(c, s, step))
  {
    if step.STrySend? {
      SendKeepsLoop(c, s, step.job);
    } else {
      ClientFrame(c, s, step);
    }
  }

  lemma SendKeepsLoop(c: Config, s: State, job: Job)
    requires LoopConsistent(c, s) && job in s.at.sending
    ensures LoopConsistent(c, Next(c, s, STrySend(job)))
  {
  }

  lemma ClientFrame(c: Config, s: State, step: Step)
    requires Enabled(c, s, step) && ClientStep(step) && !step.STrySend?
    ensures var t := Next(c, s, step);
            && t.loop == s.loop && t.at.queue == s.at.queue && t.at.backlog == s.at.backlog
            && t.at.doomed == s.at.doomed && t.at.running == s.at.running
  {
  }

  lemma WorkerStepKeepsLoop(c: Config, s: State, step: Step)
    requires LoopConsistent(c, s) && Enabled(c, s, step) && WorkerStep(step)
    ensures LoopConsistent(c, Next(c, s, step))
  {
    match step
    case SFinishApply(k, _, _) => TaskCounted(s, Apply(k));
    case SFailApply(k) => TaskCounted(s, Apply(k));
    case SEndResume(k, _) => TaskCounted(s, Resume(k));
    case _ =>
  }

  /** An ended task still counts until it is joined. */
  lemma TaskCounted(s: State, job: Job)
    requires job in s.at.running
    ensures Tasks(EndTask(s, job)) == Tasks(s) > 0 && |EndTask(s, job).at.running| < |s.at.running|
  {
  }

  lemma LoopStepKeepsLoop(c: Config, s: State, step: Step)
    requires LoopConsistent(c, s) && Enabled(c, s, step) && !ClientStep(step) && !WorkerStep(step)
    ensures LoopConsistent(c, Next(c, s, step))
  {
  }

  /** Every critical section, worker step and loop move keeps the whole invariant. */
  lemma StepKeepsInv(c: Config, s: State, step: Step)
    requires Inv(c, s) && Enabled(c, s, step) && c.maxWaiters > 0
    ensures Inv(c, Next(c, s, step))
  {
    if ClientStep(step) { ClientStepKeepsLoop(c, s, step); ClientStepKeepsJobs(c, s, step); }
    else if WorkerStep(step) { WorkerStepKeepsLoop(c, s, step); WorkerStepKeepsJobs(c, s, step); }
    else { LoopStepKeepsLoop(c, s, step); LoopStepKeepsJobs(c, s, step); }
    StepKeepsRegistry(c, s, step);
  }

  lemma StepKeepsRegistry(c: Config, s: State, step: Step)
    requires RegistryInv(c, s.reg) && Enabled(c, s, step) && c.maxWaiters > 0
    ensures RegistryInv(c, Next(c, s, step).reg)
  {
    var g := s.reg;
    match step
    case SExisting(k, fp, rev, now, w) => SweepKeeps(c, g, now); ExistingKeeps(c, Swept(c, g, now), k, fp, rev, w);
    case SSubmit(k, fp, rev, base, now, w) =>
      SweepKeeps(c, g, now);
      SubmitKeeps(c, Swept(c, g, now), k, fp, rev, base, now, w);
    case SAnswerRefused(job) => FailKeeps(c, g, job);
    case SWaitTerminal(k, op, now, w) => SweepKeeps(c, g, now); WaitTerminalKeeps(c, Swept(c, g, now), k, op, w);
    case SAdmit(k, r, now, w) => SweepKeeps(c, g, now); AdmitKeeps(c, Swept(c, g, now), k, r, w);
    case SDropReceiver(w) => DropReceiverKeeps(c, g, w);
    case SPrepared(k, r, now) => MarkPreparedKeeps(c, g, k, r, now);
    case SUpdate(k, r, now) => UpdateKeeps(c, g, k, r, now);
    case SFinishApply(k, r, now) => MarkFinishedKeeps(c, g, k, r, now);
    case SFailApply(k) => FailBeforeIntentKeeps(c, g, k);
    case SEndResume(k, outcome) =>
      EndResumptionKeeps(c, g, k, if outcome.Some? then Completed(outcome.value) else Refused);
    case SReconcileUncertain(k, r, now) => ReconcileKeeps(c, g, k, r, now);
    case SReconcileOperation(k, r, now) => ReconcileKeeps(c, g, k, r, now);
    case SRecover(pending) => RecoverFillKeeps(c, g, s.at.backlog, pending);
    case SDrain => if s.at.doomed != [] { FailKeeps(c, g, s.at.doomed[0]); }
    case _ =>
  }

  lemma ClientStepKeepsJobs(c: Config, s: State, step: Step)
    requires JobsMatch(s.at, s.reg) && Enabled(c, s, step) && ClientStep(step)
    ensures JobsMatch(Next(c, s, step).at, Next(c, s, step).reg)
  {
    var g, at := s.reg, s.at;
    match step
    case SExisting(k, fp, rev, now, w) =>
      SweepJobs(c, at, g, now);
      ExistingJobs(c, at, Swept(c, g, now), k, fp, rev, w);
    case SSubmit(k, fp, rev, base, now, w) =>
      SweepJobs(c, at, g, now);
      SubmitJobs(c, at, Swept(c, g, now), k, fp, rev, base, now, w);
    case STrySend(job) => TrySendJobs(c, at, s.loop.queueClosed, g, job);
    case SAnswerRefused(job) => AnswerRefusedJobs(at, g, job);
    case SWaitTerminal(k, op, now, w) => SweepJobs(c, at, g, now); WaitTerminalJobs(c, at, Swept(c, g, now), k, op, w);
    case SAdmit(k, r, now, w) => SweepJobs(c, at, g, now); AdmitJobs(c, at, Swept(c, g, now), k, r, w);
    case SDropReceiver(w) => SamePhasesKeep(at, g, g.(dropped := g.dropped + {w}));
    case SReconcileUncertain(k, r, now) => SamePhasesKeep(at, g, ReconcileUncertain(g, k, r, now));
    case SReconcileOperation(k, r, now) => SamePhasesKeep(at, g, ReconcileOperation(g, k, r, now));
  }

  lemma WorkerStepKeepsJobs(c: Config, s: State, step: Step)
    requires JobsMatch(s.at, s.reg) && Enabled(c, s, step) && WorkerStep(step)
    ensures JobsMatch(Next(c, s, step).at, Next(c, s, step).reg)
  {
    var g, at := s.reg, s.at;
    match step
    case SPrepared(k, r, now) => MarkPreparedJobs(at, g, k, r, now);
    case SUpdate(k, r, now) => SamePhasesKeep(at, g, UpdateInProgress(g, k, r, now));
    case SFinishApply(k, r, now) =>
      MarkFinishedEnds(g, k, r, now);
      TaskEnds(at, g, MarkFinished(g, k, r, now), Apply(k));
    case SFailApply(k) => FailEnds(g, Apply(k)); TaskEnds(at, g, FailBeforeIntent(g, k), Apply(k));
    case SEndResume(k, outcome) =>
      var reply := if outcome.Some? then Completed(outcome.value) else Refused;
      EndResumptionEnds(g, k, reply); TaskEnds(at, g, EndResumption(g, k, reply), Resume(k));
  }

  lemma LoopStepKeepsJobs(c: Config, s: State, step: Step)
    requires JobsMatch(s.at, s.reg) && Enabled(c, s, step) && !ClientStep(step) && !WorkerStep(step)
    ensures JobsMatch(Next(c, s, step).at, Next(c, s, step).reg)
  {
    var g, at := s.reg, s.at;
    match step
    case SRecover(pending) => RecoverFillJobs(at, g, pending);
    case SPopBacklog => PopBacklogJobs(at, g);
    case SReceive => ReceiveJobs(at, g);
    case SDrain =>
      if at.doomed != [] { FailDoomedJobs(at, g); }
      else if s.loop.point.DrainQueue? { DoomJobs(at, Drain(s).at, g); }
    case _ =>
  }

  lemma InitInv(c: Config)
    ensures Inv(c, Init())
  {
    assert forall claim :: ListMatches(Init().reg, claim);
  }

  /** Under every interleaving, every reachable state satisfies the invariant. */
  lemma {:induction false} RunKeepsInv(raw: Config, steps: seq<Step>, states: seq<State>, i: nat)
    requires IsRun(Clamp(raw), steps, states) && i < |states|
    ensures Inv(Clamp(raw), states[i])
  {
    if i == 0 {
      InitInv(Clamp(raw));
    } else {
      RunKeepsInv(raw, steps, states, i - 1);
      StepKeepsInv(Clamp(raw), states[i - 1], steps[i - 1]);
    }
  }

  // ----------------------------------------------------------- consequences

  /** A key has one submission job while its record is unfinished, one resumption job while it is
      in the resumption registry, and otherwise none, counted over all places a job can be. */
  lemma OneJobWherever(raw: Config, steps: seq<Step>, states: seq<State>, i: nat, k: JobKey)
    requires IsRun(Clamp(raw), steps, states) && i < |states|
    ensures var s := states[i]; var at := s.at;
            && at.sending[Apply(k)] + at.refused[Apply(k)] + multiset(at.queue)[Apply(k)]
              + multiset(at.doomed)[Apply(k)] + at.running[Apply(k)]
               == (if k in s.reg.jobs && !s.reg.jobs[k].state.Finished? then 1 else 0)
            && at.sending[Resume(k)] + at.refused[Resume(k)] + multiset(at.queue)[Resume(k)]
              + multiset(at.doomed)[Resume(k)]
               + multiset(at.backlog)[Resume(k)] + at.running[Resume(k)]
               == (if k in s.reg.resumptions then 1 else 0)
  {
    RunKeepsInv(raw, steps, states, i);
    var at := states[i].at;
    assert AllJobs(at)[Apply(k)] == One(Unfinished(states[i].reg.jobs, k));
    assert AllJobs(at)[Resume(k)] == One(k in states[i].reg.resumptions);
    assert Apply(k) !in at.backlog;
  }

  /** A registered waiter is held under its own key, or its receiver closed and it was pruned, or it was
      answered exactly once with a reply of its own kind; never two of these. */
  lemma WaitersAreConserved(raw: Config, steps: seq<Step>, states: seq<State>, i: nat, w: Waiter)
    requires IsRun(Clamp(raw), steps, states) && i < |states| && w in states[i].reg.claims
    ensures var g := states[i].reg;
            && One(Held(g, w)) + One(w in g.pruned) + g.delivered[w] == 1
            && (w in g.pruned ==> w in g.dropped)
            && (g.delivered[w] == 1 ==> w in g.replies && ReplyFits(g.claims[w].kind, g.replies[w]))
            && forall claim :: w in List(g, claim) ==> claim == g.claims[w]
  {
    RunKeepsInv(raw, steps, states, i);
    var g := states[i].reg;
    assert Accounted(g, w);
    forall claim | w in List(g, claim) ensures claim == g.claims[w] { assert ListMatches(g, claim); }
  }

  /** Registry, waiter lists, queue and running jobs stay within their configured limits. */
  lemma CapacitiesHold(raw: Config, steps: seq<Step>, states: seq<State>, i: nat)
    requires IsRun(Clamp(raw), steps, states) && i < |states|
    ensures var c, s := Clamp(raw), states[i];
            && |s.reg.jobs| <= c.maxJobs && |s.at.queue| <= c.queueCapacity && |s.at.running| <= c.concurrency
            && (forall k :: k in s.reg.jobs ==>
                |s.reg.jobs[k].prepared| <= c.maxWaiters && |s.reg.jobs[k].terminal| <= c.maxWaiters)
            && (forall k :: k in s.reg.resumptions ==> |s.reg.resumptions[k]| <= c.maxWaiters)
  {
    RunKeepsInv(raw, steps, states, i);
  }

  lemma SweepHolds(c: Config, g: Registry, now: nat, w: Waiter)
    requires Phases(g) && w in g.claims
    ensures Held(Swept(c, g, now), w) == Held(g, w)
  {
    var k := g.claims[w].key;
    if k in g.jobs { assert PhaseLists(g.jobs[k]); }
  }

  /** A sweep at any moment removes no record that still owes an answer. */
  lemma SweepDropsNoWaiter(raw: Config, steps: seq<Step>, states: seq<State>, i: nat, now: nat, w: Waiter)
    requires IsRun(Clamp(raw), steps, states) && i < |states| && w in states[i].reg.claims
    ensures var g := states[i].reg; Held(Swept(Clamp(raw), g, now), w) == Held(g, w)
  {
    RunKeepsInv(raw, steps, states, i);
    SweepHolds(Clamp(raw), states[i].reg, now, w);
  }

  ghost predicate Unlisted(g: Registry, w: Waiter) {
    && (forall k :: k in g.jobs ==> w !in g.jobs[k].prepared && w !in g.jobs[k].terminal)
    && (forall k :: k in g.resumptions ==> w !in g.resumptions[k])
  }

  lemma AnsweredIsUnlisted(g: Registry, w: Waiter)
    requires WaitersConserved(g) && w in g.replies
    ensures Unlisted(g, w)
  {
    assert Accounted(g, w);
    forall k
      ensures k in g.jobs ==> w !in g.jobs[k].prepared && w !in g.jobs[k].terminal
      ensures k in g.resumptions ==> w !in g.resumptions[k]
    {
      assert ListMatches(g, Claim(k, Submission)) && ListMatches(g, Claim(k, Terminal))
        && ListMatches(g, Claim(k, Resumption));
    }
  }

  lemma FailKeepsReply(g: Registry, job: Job, w: Waiter)
    requires Unlisted(g, w) && w in g.replies
    ensures w in Fail(g, job).replies && Fail(g, job).replies[w] == g.replies[w]
  {
  }

  lemma StepKeepsReply(c: Config, s: State, step: Step, w: Waiter)
    requires Unlisted(s.reg, w) && Enabled(c, s, step) && w in s.reg.replies
    ensures w in Next(c, s, step).reg.replies && Next(c, s, step).reg.replies[w] == s.reg.replies[w]
  {
    match step
    case SAnswerRefused(job) => FailKeepsReply(s.reg, job, w);
    case SFailApply(k) => FailKeepsReply(s.reg, Apply(k), w);
    case SDrain => if s.at.doomed != [] { FailKeepsReply(s.reg, s.at.doomed[0], w); }
    case _ => if ClientStep(step) { ClientKeepsReplies(c, s, step); }
  }

  lemma ClientKeepsReplies(c: Config, s: State, step: Step)
    requires Enabled(c, s, step) && ClientStep(step) && !step.SAnswerRefused?
    ensures Next(c, s, step).reg.replies == s.reg.replies
  {
    match step
    case SExisting(k, fp, rev, now, w) => ExistingKeepsReplies(c, Swept(c, s.reg, now), k, fp, rev, w);
    case SSubmit(k, fp, rev, base, now, w) => SubmitKeepsReplies(c, Swept(c, s.reg, now), k, fp, rev, base, now, w);
    case SWaitTerminal(k, op, now, w) => WaitKeepsReplies(c, Swept(c, s.reg, now), k, op, w);
    case SAdmit(k, r, now, w) => AdmitKeepsReplies(c, Swept(c, s.reg, now), k, r, w);
    case _ =>
  }

  lemma ExistingKeepsReplies(c: Config, g: Registry, k: JobKey, fp: string, rev: Option<string>, w: Waiter)
    ensures Existing(c, g, k, fp, rev, w).0.replies == g.replies
  {
  }

  lemma SubmitKeepsReplies(c: Config, g: Registry, k: JobKey, fp: string, rev: Option<string>, base: string,
                           now: nat, w: Waiter)
    ensures Submit(c, g, k, fp, rev, base, now, w).0.replies == g.replies
  {
  }

  lemma WaitKeepsReplies(c: Config, g: Registry, k: JobKey, op: string, w: Waiter)
    ensures WaitTerminal(c, g, k, op, w).0.replies == g.replies
  {
  }

  lemma AdmitKeepsReplies(c: Config, g: Registry, k: JobKey, r: Receipt, w: Waiter)
    ensures Admit(c, g, k, r, w).0.replies == g.replies
  {
  }

  lemma NextKeepsReply(raw: Config, steps: seq<Step>, states: seq<State>, i: nat, w: Waiter)
    requires IsRun(Clamp(raw), steps, states) && i < |steps| && w in states[i].reg.replies
    ensures w in states[i + 1].reg.replies && states[i + 1].reg.replies[w] == states[i].reg.replies[w]
  {
    RunKeepsInv(raw, steps, states, i);
    AnsweredIsUnlisted(states[i].reg, w);
    StepKeepsReply(Clamp(raw), states[i], steps[i], w);
  }

  /** The first reply a waiter gets is the only one: nothing later overwrites it. */
  lemma {:induction false} ReplyIsFinal(raw: Config, steps: seq<Step>, states: seq<State>, i: nat, j: nat, w: Waiter)
    requires IsRun(Clamp(raw), steps, states) && i <= j < |states| && w in states[i].reg.replies
    ensures w in states[j].reg.replies && states[j].reg.replies[w] == states[i].reg.replies[w]
  {
    if i < j {
      ReplyIsFinal(raw, steps, states, i, j - 1, w);
      NextKeepsReply(raw, steps, states, j - 1, w);
    }
  }

  /**
   The submitter that holds this job can still answer every waiter of its key: its send is refused,
   and so are they.
   */
  ghost predicate SubmitterAnswers(c: Config, s: State, job: Job) {
    && (job in s.at.sending ==> job in Next(c, s, STrySend(job)).at.refused)
    && (job in s.at.refused ==>
          var g := Next(c, s, SAnswerRefused(job)).reg;
          forall w | w in g.claims && g.claims[w].key == job.key && g.claims[w].kind.Resumption? == job.Resume? ::
            !Held(g, w))
  }

  /** The job a waiter that is not waiting for a terminal receipt is waiting for. */
  function JobOf(claim: Claim): Job { if claim.kind.Submission? then Apply(claim.key) else Resume(claim.key) }

  lemma ClosedQueueRefuses(c: Config, s: State, job: Job)
    requires s.loop.queueClosed
    ensures SubmitterAnswers(c, s, job)
  {
  }

  /** When the loop has returned, nothing is left in it, and whoever still waits waits for a
      submitter that has yet to send or to answer, whose send is refused and answered to all. */
  lemma ReturnedLoopIsEmpty(raw: Config, steps: seq<Step>, states: seq<State>, i: nat)
    requires IsRun(Clamp(raw), steps, states) && i < |states| && states[i].loop.point.Returned?
    ensures var s := states[i];
            && s.at.queue == [] && s.at.backlog == [] && s.at.doomed == []
            && s.at.running == multiset{} && Tasks(s) == 0
            && (forall job :: SubmitterAnswers(Clamp(raw), s, job))
            && forall w :: w in s.reg.claims && Held(s.reg, w) ==>
                 && !s.reg.claims[w].kind.Terminal?
                 && JobOf(s.reg.claims[w]) in s.at.sending + s.at.refused
  {
    RunKeepsInv(raw, steps, states, i);
    var s := states[i];
    assert AllJobs(s.at) == s.at.sending + s.at.refused;
    forall w | w in s.reg.claims && Held(s.reg, w)
      ensures !s.reg.claims[w].kind.Terminal? && JobOf(s.reg.claims[w]) in s.at.sending + s.at.refused
    {
      HeldWaitsForSubmitter(Clamp(raw), s, w);
    }
    forall job ensures SubmitterAnswers(Clamp(raw), s, job) {
      ClosedQueueRefuses(Clamp(raw), s, job);
    }
  }

  lemma HeldWaitsForSubmitter(c: Config, s: State, w: Waiter)
    requires Inv(c, s) && w in s.reg.claims && Held(s.reg, w)
    requires AllJobs(s.at) == s.at.sending + s.at.refused && Waiting(s.at) == AllJobs(s.at)
    ensures var claim := s.reg.claims[w];
            && !claim.kind.Terminal?
            && JobOf(claim) in s.at.sending + s.at.refused
  {
    var k := s.reg.claims[w].key;
    if s.reg.claims[w].kind.Resumption? {
      assert AllJobs(s.at)[Resume(k)] == 1;
    } else {
      assert PhaseLists(s.reg.jobs[k]) && Unfinished(s.reg.jobs, k);
      assert AllJobs(s.at)[Apply(k)] == 1;
    }
  }

  // -------------------------------------------------------- the drain ends

  /** The moves a stopping loop has left, if nothing is recovered meanwhile. */
  function Left(s: State): nat {
    3 * Tasks(s) +
    match s.loop.point
    case DrainQueue => |s.at.doomed| + 2 * |s.at.queue| + |s.at.backlog| + 3
    case DrainBacklog => |s.at.doomed| + |s.at.backlog| + 2
    case CheckTasks => |s.at.backlog| + 1
    case _ => 0
  }

  predicate Ending(s: State) { Stopping(s.loop.point) || s.loop.point.Returned? }

  /** Every move of the stopping loop uses up at least one of them. */
  lemma DrainComesNearer(c: Config, s: State)
    requires LoopConsistent(c, s) && Enabled(c, s, SDrain)
    ensures Left(Drain(s)) < Left(s)
    ensures Ending(Drain(s))
    ensures Drain(s).loop.retry == s.loop.retry
  {
  }

  lemma {:induction false} RecoverFillGrowth(resumptions: map<JobKey, seq<Waiter>>, backlog: seq<Job>,
                                             pending: seq<JobKey>)
    ensures |RecoverFill(resumptions, backlog, pending).1| <= |backlog| + |pending|
    decreases |pending|
  {
    if pending == [] {
    } else if pending[0] in resumptions {
      RecoverFillGrowth(resumptions, backlog, pending[1..]);
    } else {
      RecoverFillGrowth(resumptions[pending[0] := []], backlog + [Resume(pending[0])], pending[1..]);
    }
  }

  function RecoveredBy(step: Step): nat { if step.SRecover? then |step.pending| else 0 }

  /** Where the drain stands, as far as its end depends on it. */
  ghost predicate Waits(t: State, s: State) {
    && t.loop.point == s.loop.point
    && Tasks(t) == Tasks(s)
    && t.at.queue == s.at.queue
    && t.at.doomed == s.at.doomed
    && (t.loop.retry ==> s.loop.retry)
  }

  lemma WorkerDoesNotDelay(c: Config, s: State, step: Step)
    requires Enabled(c, s, step) && WorkerStep(step)
    ensures Waits(Next(c, s, step), s) && Next(c, s, step).at.backlog == s.at.backlog
  {
    match step
    case SFinishApply(k, _, _) => TaskCounted(s, Apply(k));
    case SFailApply(k) => TaskCounted(s, Apply(k));
    case SEndResume(k, _) => TaskCounted(s, Resume(k));
    case _ =>
  }

  lemma ClientDoesNotDelay(c: Config, s: State, step: Step)
    requires LoopConsistent(c, s) && Ending(s) && Enabled(c, s, step) && ClientStep(step)
    ensures Waits(Next(c, s, step), s) && Next(c, s, step).at.backlog == s.at.backlog
  {
    if !step.STrySend? { ClientFrame(c, s, step); }
  }

  lemma RetryDoesNotDelay(c: Config, s: State, step: Step)
    requires LoopConsistent(c, s) && Ending(s) && Enabled(c, s, step)
    requires !ClientStep(step) && !WorkerStep(step) && !step.SDrain?
    ensures Waits(Next(c, s, step), s) && s.loop.retry
    ensures |Next(c, s, step).at.backlog| <= |s.at.backlog| + RecoveredBy(step)
  {
    if step.SRecover? { RecoverFillGrowth(s.reg.resumptions, s.at.backlog, step.pending); }
  }

  /** Nobody else takes the loop back, except that a recovery still at work may add the jobs it found. */
  lemma OthersDoNotDelay(c: Config, s: State, step: Step)
    requires LoopConsistent(c, s) && Ending(s) && Enabled(c, s, step) && !step.SDrain?
    ensures Waits(Next(c, s, step), s)
    ensures Left(Next(c, s, step)) <= Left(s) + RecoveredBy(step)
    ensures step.SRecover? ==> s.loop.retry
  {
    if ClientStep(step) {
      ClientDoesNotDelay(c, s, step);
    } else if WorkerStep(step) {
      WorkerDoesNotDelay(c, s, step);
    } else {
      RetryDoesNotDelay(c, s, step);
    }
  }

  /** The stopping loop can always move unless it waits for a task that is still at work. */
  lemma DrainIsNeverStuck(c: Config, s: State)
    requires Stopping(s.loop.point)
    ensures Enabled(c, s, SDrain) <==>
      !(s.loop.point.CheckTasks? && s.loop.unjoined == 0 && (s.at.running != multiset{} || s.loop.retry))
  {
  }

  /** The loop's own moves among steps `i` up to, not including, `j`. */
  function DrainMoves(steps: seq<Step>, i: nat, j: nat): nat
    requires i <= j <= |steps|
    decreases j
  {
    if j == i then 0 else DrainMoves(steps, i, j - 1) + if steps[j - 1].SDrain? then 1 else 0
  }

  /** The jobs recovery reported among those steps. */
  function RecoveredJobs(steps: seq<Step>, i: nat, j: nat): nat
    requires i <= j <= |steps|
    decreases j
  {
    if j == i then 0 else RecoveredJobs(steps, i, j - 1) + RecoveredBy(steps[j - 1])
  }

  lemma StoppingStep(c: Config, s: State, step: Step)
    requires LoopConsistent(c, s) && Ending(s) && Enabled(c, s, step)
    ensures var t := Next(c, s, step);
            && Ending(t)
            && Left(t) + (if step.SDrain? then 1 else 0) <= Left(s) + RecoveredBy(step)
            && (t.loop.retry ==> s.loop.retry)
            && (step.SRecover? ==> s.loop.retry)
  {
    if step.SDrain? {
      DrainComesNearer(c, s);
    } else {
      OthersDoNotDelay(c, s, step);
    }
  }

  lemma StoppingRunStep(raw: Config, steps: seq<Step>, states: seq<State>, k: nat)
    requires IsRun(Clamp(raw), steps, states) && k < |steps| && Ending(states[k])
    ensures Ending(states[k + 1])
    ensures Left(states[k + 1]) + (if steps[k].SDrain? then 1 else 0) <= Left(states[k]) + RecoveredBy(steps[k])
    ensures states[k + 1].loop.retry ==> states[k].loop.retry
    ensures steps[k].SRecover? ==> states[k].loop.retry
  {
    RunKeepsInv(raw, steps, states, k);
    StoppingStep(Clamp(raw), states[k], steps[k]);
  }

  /**
   Once it is stopping, the loop makes at most `Left` moves plus one for each job a recovery
   still at work reports, however everyone else interleaves.
   */
  lemma {:induction false} DrainIsBounded(raw: Config, steps: seq<Step>, states: seq<State>, i: nat, j: nat)
    requires IsRun(Clamp(raw), steps, states) && i <= j < |states| && Stopping(states[i].loop.point)
    ensures Ending(states[j])
    ensures DrainMoves(steps, i, j) + Left(states[j]) <= Left(states[i]) + RecoveredJobs(steps, i, j)
    ensures !states[i].loop.retry ==> !states[j].loop.retry && RecoveredJobs(steps, i, j) == 0
    decreases j
  {
    if i < j {
      var k := j - 1;
      DrainIsBounded(raw, steps, states, i, k);
      StoppingRunStep(raw, steps, states, k);
    }
  }

  /**
   The drain ends: without a recovery at work it makes at most `Left` moves in all, it has
   returned when it has made them, and while no task is at work it has returned or can move.
   */
  lemma DrainEnds(raw: Config, steps: seq<Step>, states: seq<State>, i: nat, j: nat)
    requires IsRun(Clamp(raw), steps, states) && i <= j < |states| && Stopping(states[i].loop.point)
    requires !states[i].loop.retry
    ensures DrainMoves(steps, i, j) <= Left(states[i])
    ensures DrainMoves(steps, i, j) == Left(states[i]) ==> states[j].loop.point.Returned?
    ensures states[j].at.running == multiset{} ==>
      states[j].loop.point.Returned? || Enabled(Clamp(raw), states[j], SDrain)
  {
    DrainIsBounded(raw, steps, states, i, j);
    if Stopping(states[j].loop.point) {
      DrainIsNeverStuck(Clamp(raw), states[j]);
    }
  }

  lemma RunExtends(c: Config, steps: seq<Step>, states: seq<State>, step: Step)
    requires IsRun(c, steps, states) && Enabled(c, states[|steps|], step)
    ensures IsRun(c, steps + [step], states + [Next(c, states[|steps|], step)])
  {
    var steps', states' := steps + [step], states + [Next(c, states[|steps|], step)];
    forall i | 0 <= i < |steps'|
      ensures Enabled(c, states'[i], steps'[i]) && states'[i + 1] == Next(c, states'[i], steps'[i])
    {
      if i < |steps| { assert Enabled(c, states[i], steps[i]); }
    }
  }

  /** No task is at work: the loop waits for nobody. */
  predicate Alone(s: State) { s.at.running == multiset{} && !s.loop.retry }

  lemma AloneDrainMoves(raw: Config, steps: seq<Step>, states: seq<State>) returns (t: State)
    requires IsRun(Clamp(raw), steps, states)
    requires Stopping(states[|steps|].loop.point) && Alone(states[|steps|])
    ensures IsRun(Clamp(raw), steps + [SDrain], states + [t])
    ensures Ending(t) && Alone(t) && Left(t) < Left(states[|steps|])
  {
    var c, s := Clamp(raw), states[|steps|];
    RunKeepsInv(raw, steps, states, |steps|);
    DrainIsNeverStuck(c, s);
    DrainComesNearer(c, s);
    RunExtends(c, steps, states, SDrain);
    t := Drain(s);
  }

  /** From any stopping state whose tasks have ended, the loop's moves alone carry it to its return. */
  lemma {:induction false} DrainReturns(raw: Config, steps: seq<Step>, states: seq<State>)
    returns (moves: seq<Step>, after: seq<State>)
    requires IsRun(Clamp(raw), steps, states)
    requires Stopping(states[|steps|].loop.point) && Alone(states[|steps|])
    ensures IsRun(Clamp(raw), steps + moves, states + after) && |after| == |moves| > 0
    ensures forall i :: 0 <= i < |moves| ==> moves[i].SDrain?
    ensures |moves| <= Left(states[|steps|]) && after[|after| - 1].loop.point.Returned?
    decreases Left(states[|steps|])
  {
    var t := AloneDrainMoves(raw, steps, states);
    if t.loop.point.Returned? {
      moves, after := [SDrain], [t];
    } else {
      var rest, last := DrainReturns(raw, steps + [SDrain], states + [t]);
      moves, after := [SDrain] + rest, [t] + last;
      assert steps + moves == (steps + [SDrain]) + rest;
      assert states + after == (states + [t]) + last;
    }
  }
}
