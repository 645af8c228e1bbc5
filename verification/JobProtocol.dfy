/**
 The operator-rule job supervisor as a state machine. Every mutex-guarded
 critical section of the source is one step, so a run of steps is one
 interleaving of submitters, waiters, workers, the recovery retry and the
 supervisor loop. Queue, backlog, tasks and waiter histories are all explicit.
 */
module JobProtocol {
  import opened Common
  import opened Receipts

  datatype JobKey = JobKey(actor: string, requestId: string)

  /** A unit of work that travels from an admission to a task. */
  datatype Job = Apply(key: JobKey) | Resume(key: JobKey)

  type Waiter = nat

  datatype WaiterKind = Submission | Terminal | Resumption

  /** What a waiter was registered for; never changes. */
  datatype Claim = Claim(key: JobKey, kind: WaiterKind)

  datatype Reply = Accepted(receipt: Receipt) | Replayed(receipt: Receipt) | Completed(receipt: Receipt) | Refused

  datatype JobState = Queued | Prepared(receipt: Receipt) | Finished(receipt: Receipt)

  datatype JobRecord = JobRecord(
    fingerprint: string,
    revision: string,
    state: JobState,
    updated: nat,
    prepared: seq<Waiter>,
    terminal: seq<Waiter>)

  datatype Config = Config(maxJobs: nat, queueCapacity: nat, concurrency: nat, maxWaiters: nat, terminalTtl: nat)

  /** The two keyed registries and the history of every waiter ever registered. */
  datatype Registry = Registry(
    jobs: map<JobKey, JobRecord>,
    resumptions: map<JobKey, seq<Waiter>>,
    claims: map<Waiter, Claim>,
    dropped: set<Waiter>,        // the receiver is gone
    pruned: set<Waiter>,         // removed unanswered, because the receiver was gone
    delivered: multiset<Waiter>,
    replies: map<Waiter, Reply>)

  /** Where every job is. */
  datatype Places = Places(
    sending: multiset<Job>,      // admitted, `try_send` still to come
    refused: multiset<Job>,      // `try_send` failed, its submitter still has to answer
    queue: seq<Job>,
    backlog: seq<Job>,
    doomed: seq<Job>,            // taken out by the drain, still to be failed
    running: multiset<Job>)

  /** Where the supervisor loop stands; the last four belong to the shutdown drain. */
  datatype Point = NotStarted | Serving | DrainQueue | DrainBacklog | CheckTasks | Returned

  datatype Loop = Loop(
    point: Point,
    unjoined: nat,               // tasks that ended and were not joined yet
    retry: bool,                 // a background recovery task is running
    recovered: bool,
    accepting: bool,
    queueClosed: bool)

  datatype State = State(reg: Registry, at: Places, loop: Loop)

  const EMPTY_REGISTRY := Registry(map[], map[], map[], {}, {}, multiset{}, map[])

  function Init(): State {
    State(EMPTY_REGISTRY,
          Places(multiset{}, multiset{}, [], [], [], multiset{}),
          Loop(NotStarted, 0, false, false, true, false))
  }

  /** `JoinSet::len`: ended tasks count until they are joined. */
  function Tasks(s: State): nat {
    |s.at.running| + s.loop.unjoined + if s.loop.retry then 1 else 0
  }

  // ---------------------------------------------------------------- waiters

  ghost predicate Distinct(ws: seq<Waiter>) {
    forall i, j :: 0 <= i < j < |ws| ==> ws[i] != ws[j]
  }

  /** `retain(|waiter| !waiter.is_closed())` */
  function Open(ws: seq<Waiter>, dropped: set<Waiter>): seq<Waiter> {
    if ws == [] then []
    else (if ws[0] in dropped then [] else [ws[0]]) + Open(ws[1..], dropped)
  }

  lemma {:induction false} OpenKeepsLiveOnes(ws: seq<Waiter>, dropped: set<Waiter>)
    ensures forall w :: w in Open(ws, dropped) <==> w in ws && w !in dropped
    ensures Distinct(ws) ==> Distinct(Open(ws, dropped))
    ensures |Open(ws, dropped)| <= |ws|
  {
    if ws != [] {
      OpenKeepsLiveOnes(ws[1..], dropped);
      assert ws == [ws[0]] + ws[1..];
    }
  }

  function Closed(ws: seq<Waiter>, dropped: set<Waiter>): set<Waiter> {
    set w | w in ws && w in dropped
  }

  predicate HasRoom(c: Config, ws: seq<Waiter>, dropped: set<Waiter>) {
    |Open(ws, dropped)| < c.maxWaiters
  }

  /** Prune the closed waiters, then push the new one if there is room. */
  function Joined(c: Config, ws: seq<Waiter>, dropped: set<Waiter>, w: Waiter): seq<Waiter> {
    if HasRoom(c, ws, dropped) then Open(ws, dropped) + [w] else Open(ws, dropped)
  }

  function Claimed(c: Config, g: Registry, ws: seq<Waiter>, w: Waiter, claim: Claim): map<Waiter, Claim> {
    if HasRoom(c, ws, g.dropped) then g.claims[w := claim] else g.claims
  }

  /** Send one reply to each listed waiter. */
  function Deliver(g: Registry, ws: seq<Waiter>, reply: Reply): Registry {
    g.(delivered := g.delivered + multiset(ws),
       replies := g.replies + map w | w in ws :: reply)
  }

  // ------------------------------------------------------ critical sections

  predicate Kept(rec: JobRecord, now: nat, ttl: nat) {
    !rec.state.Finished? || Elapsed(now, rec.updated) < ttl
  }

  /** `cleanup_jobs`: the sweep that every registry section starts with. */
  function Swept(c: Config, g: Registry, now: nat): Registry {
    g.(jobs := map k | k in g.jobs && Kept(g.jobs[k], now, c.terminalTtl) :: g.jobs[k])
  }

  datatype SubmitResult =
    Absent | Conflict | Replay(receipt: Receipt) | Reconcile | Wait | WaitersFull | RegistryFull | Enqueue

  predicate SameSubmission(rec: JobRecord, fingerprint: string, revision: Option<string>) {
    rec.fingerprint == fingerprint && (revision.Some? ==> revision.value == rec.revision)
  }

  function JoinQueued(c: Config, g: Registry, k: JobKey, w: Waiter): (Registry, SubmitResult)
    requires k in g.jobs
  {
    var ws := g.jobs[k].prepared;
    (g.(jobs := g.jobs[k := g.jobs[k].(prepared := Joined(c, ws, g.dropped, w))],
        claims := Claimed(c, g, ws, w, Claim(k, Submission)),
        pruned := g.pruned + Closed(ws, g.dropped)),
     if HasRoom(c, ws, g.dropped) then Wait else WaitersFull)
  }

  /** `existing_submission`, after the sweep */
  function Existing(c: Config, g: Registry, k: JobKey, fp: string, rev: Option<string>,
                    w: Waiter): (Registry, SubmitResult) {
    if k !in g.jobs then (g, Absent)
    else if !SameSubmission(g.jobs[k], fp, rev) then (g, Conflict)
    else match g.jobs[k].state
      case Prepared(r) => (g, Replay(r))
      case Finished(r) => (g, if r.persistence == DurabilityUncertain then Reconcile else Replay(r))
      case Queued => JoinQueued(c, g, k, w)
  }

  /** The registry section of `submit_inner`, after the plan was found and the sweep. */
  function Submit(c: Config, g: Registry, k: JobKey, fp: string, rev: Option<string>, base: string, now: nat,
                  w: Waiter): (Registry, SubmitResult) {
    if k in g.jobs then
      if !SameSubmission(g.jobs[k], fp, rev) then (g, Conflict)
      else match g.jobs[k].state
        case Prepared(r) => (g, Replay(r))
        case Finished(r) => (g, Replay(r))
        case Queued => JoinQueued(c, g, k, w)
    else if |g.jobs| >= c.maxJobs then (g, RegistryFull)
    else (NewSubmission(g, k, fp, base, now, w), Enqueue)
  }

  function NewSubmission(g: Registry, k: JobKey, fp: string, base: string, now: nat, w: Waiter): Registry {
    g.(jobs := g.jobs[k := JobRecord(fp, base, Queued, now, [w], [])], claims := g.claims[w := Claim(k, Submission)])
  }

  /** `fail_before_intent` */
  function FailBeforeIntent(g: Registry, k: JobKey): Registry {
    if k !in g.jobs then g
    else Deliver(Deliver(g.(jobs := g.jobs - {k}), g.jobs[k].prepared, Refused), g.jobs[k].terminal, Refused)
  }

  /** `finish_resumption` after its reconciliation, and `fail_resumption`. */
  function EndResumption(g: Registry, k: JobKey, reply: Reply): Registry {
    if k !in g.resumptions then g
    else Deliver(g.(resumptions := g.resumptions - {k}), g.resumptions[k], reply)
  }

  function Fail(g: Registry, job: Job): Registry {
    match job
    case Apply(k) => FailBeforeIntent(g, k)
    case Resume(k) => EndResumption(g, k, Refused)
  }

  /** `prepared` */
  function MarkPrepared(g: Registry, k: JobKey, r: Receipt, now: nat): Registry {
    if k !in g.jobs then g
    else Deliver(g.(jobs := g.jobs[k := g.jobs[k].(state := JobState.Prepared(r), updated := now, prepared := [])]),
                 g.jobs[k].prepared, Accepted(r))
  }

  /** `update_in_progress` */
  function UpdateInProgress(g: Registry, k: JobKey, r: Receipt, now: nat): Registry {
    if k in g.jobs && g.jobs[k].state.Prepared?
    then g.(jobs := g.jobs[k := g.jobs[k].(state := JobState.Prepared(r), updated := now)])
    else g
  }

  /** `finished` */
  function MarkFinished(g: Registry, k: JobKey, r: Receipt, now: nat): Registry {
    if k !in g.jobs then g
    else
      var rec := g.jobs[k];
      var outcome := if rec.state.Queued? then Accepted(r) else Replayed(r);
      var finished := rec.(state := Finished(r), updated := now, prepared := [], terminal := []);
      Deliver(Deliver(g.(jobs := g.jobs[k := finished]), rec.prepared, outcome), rec.terminal, Completed(r))
  }

  datatype TerminalResult = Done(receipt: Receipt) | TerminalWait | TerminalFull | LookDurable

  predicate Names(rec: JobRecord, operationId: string) {
    !rec.state.Queued? && rec.state.receipt.operationId == operationId
  }

  /** The registry section of `wait_terminal`, after the sweep; `k` is the entry the scan found. */
  function WaitTerminal(c: Config, g: Registry, k: JobKey, operationId: string, w: Waiter): (Registry, TerminalResult) {
    if k !in g.jobs || !Names(g.jobs[k], operationId) then (g, LookDurable)
    else if g.jobs[k].state.Finished? then
      var r := g.jobs[k].state.receipt;
      (g, if r.persistence == DurabilityUncertain then LookDurable else Done(r))
    else
      var ws := g.jobs[k].terminal;
      (g.(jobs := g.jobs[k := g.jobs[k].(terminal := Joined(c, ws, g.dropped, w))],
          claims := Claimed(c, g, ws, w, Claim(k, Terminal)),
          pruned := g.pruned + Closed(ws, g.dropped)),
       if HasRoom(c, ws, g.dropped) then TerminalWait else TerminalFull)
  }

  datatype AdmitResult = Start | WaitResumption | Current(receipt: Receipt) | Live | ResumptionFull | AdmitRegistryFull

  /** `admit_resumption`, after the sweep */
  function Admit(c: Config, g: Registry, k: JobKey, r: Receipt, w: Waiter): (Registry, AdmitResult) {
    if k in g.jobs && (g.jobs[k].state.Queued?
                       || (g.jobs[k].state.Prepared? && g.jobs[k].state.receipt.operationId == r.operationId))
    then (g, Live)
    else if k in g.jobs && g.jobs[k].state.Finished?
            && g.jobs[k].state.receipt.operationId == r.operationId
            && !RequiresPostCommitCompletion(g.jobs[k].state.receipt)
    then (g, Current(g.jobs[k].state.receipt))
    else if k in g.resumptions then
      (JoinResumption(c, g, k, w), if HasRoom(c, g.resumptions[k], g.dropped) then WaitResumption else ResumptionFull)
    else if |g.jobs| + |g.resumptions| >= c.maxJobs then (g, AdmitRegistryFull)
    else (NewResumption(g, k, w), Start)
  }

  function JoinResumption(c: Config, g: Registry, k: JobKey, w: Waiter): Registry
    requires k in g.resumptions
  {
    var ws := g.resumptions[k];
    g.(resumptions := g.resumptions[k := Joined(c, ws, g.dropped, w)],
       claims := Claimed(c, g, ws, w, Claim(k, Resumption)),
       pruned := g.pruned + Closed(ws, g.dropped))
  }

  function NewResumption(g: Registry, k: JobKey, w: Waiter): Registry {
    g.(resumptions := g.resumptions[k := [w]], claims := g.claims[w := Claim(k, Resumption)])
  }

  function Refresh(g: Registry, k: JobKey, r: Receipt, now: nat): Registry
    requires k in g.jobs
  {
    g.(jobs := g.jobs[k := g.jobs[k].(state := Finished(r), updated := now)])
  }

  /** `reconcile_uncertain` */
  function ReconcileUncertain(g: Registry, k: JobKey, r: Receipt, now: nat): Registry {
    if k in g.jobs && g.jobs[k].state.Finished? && g.jobs[k].state.receipt.persistence == DurabilityUncertain
    then Refresh(g, k, r, now) else g
  }

  /** `reconcile_operation`; `k` is the finished entry the scan found. */
  function ReconcileOperation(g: Registry, k: JobKey, r: Receipt, now: nat): Registry {
    if k in g.jobs && g.jobs[k].state.Finished? && g.jobs[k].state.receipt.operationId == r.operationId
    then Refresh(g, k, r, now) else g
  }

  /** The registry section of `recover_once`: the resumption registry and the backlog. */
  function RecoverFill(resumptions: map<JobKey, seq<Waiter>>, backlog: seq<Job>,
                       pending: seq<JobKey>): (map<JobKey, seq<Waiter>>, seq<Job>)
    decreases |pending|
  {
    if pending == [] then (resumptions, backlog)
    else if pending[0] in resumptions then RecoverFill(resumptions, backlog, pending[1..])
    else RecoverFill(resumptions[pending[0] := []], backlog + [Resume(pending[0])], pending[1..])
  }

  // ------------------------------------------------------------------ steps

  datatype Step =
    | SExisting(k: JobKey, fp: string, rev: Option<string>, now: nat, w: Waiter)
    | SSubmit(k: JobKey, fp: string, rev: Option<string>, base: string, now: nat, w: Waiter)
    | STrySend(job: Job)
    | SAnswerRefused(job: Job)
    | SWaitTerminal(k: JobKey, operationId: string, now: nat, w: Waiter)
    | SAdmit(k: JobKey, r: Receipt, now: nat, w: Waiter)
    | SDropReceiver(w: Waiter)
    | SPrepared(k: JobKey, r: Receipt, now: nat)
    | SUpdate(k: JobKey, r: Receipt, now: nat)
    | SFinishApply(k: JobKey, r: Receipt, now: nat)
    | SFailApply(k: JobKey)
    | SEndResume(k: JobKey, outcome: Option<Receipt>)
    | SReconcileUncertain(k: JobKey, r: Receipt, now: nat)
    | SReconcileOperation(k: JobKey, r: Receipt, now: nat)
    | SRecover(pending: seq<JobKey>)
    | SStartLoop
    | SSpawnRetry
    | SRetryDone
    | SPopBacklog
    | SReceive
    | SJoin
    | SShutdown
    | SDrain

  predicate Stopping(p: Point) { p.DrainQueue? || p.DrainBacklog? || p.CheckTasks? }

  /** When the code can take the step. A fresh one-shot channel has an unused identity. */
  predicate Enabled(c: Config, s: State, step: Step) {
    match step
    case SExisting(_, _, _, _, w) => w !in s.reg.claims
    case SSubmit(_, _, _, _, _, w) => w !in s.reg.claims
    case STrySend(job) => job in s.at.sending
    case SAnswerRefused(job) => job in s.at.refused
    case SWaitTerminal(_, _, _, w) => w !in s.reg.claims
    case SAdmit(_, _, _, w) => w !in s.reg.claims
    case SDropReceiver(w) => w in s.reg.claims
    case SPrepared(k, _, _) => Apply(k) in s.at.running
    case SUpdate(k, _, _) => Apply(k) in s.at.running
    case SFinishApply(k, _, _) => Apply(k) in s.at.running
    case SFailApply(k) => Apply(k) in s.at.running
    case SEndResume(k, _) => Resume(k) in s.at.running
    case SReconcileUncertain(_, _, _) => true
    case SReconcileOperation(_, _, _) => true
    case SRecover(_) => s.loop.point.NotStarted? || s.loop.retry
    case SStartLoop => s.loop.point.NotStarted?
    case SSpawnRetry => s.loop.point.Serving? && !s.loop.recovered && !s.loop.retry
    case SRetryDone => s.loop.retry
    case SPopBacklog => s.loop.point.Serving? && Tasks(s) < c.concurrency && s.at.backlog != []
    case SReceive => s.loop.point.Serving? && Tasks(s) < c.concurrency && s.at.queue != []
    case SJoin => s.loop.point.Serving? && s.loop.unjoined > 0
    case SShutdown => s.loop.point.Serving?
    case SDrain => Stopping(s.loop.point) && (s.loop.point.CheckTasks? && Tasks(s) > 0 ==> s.loop.unjoined > 0)
  }

  /** `try_send`: a closed or full queue leaves the job with its submitter. */
  function TrySend(c: Config, at: Places, closed: bool, job: Job): Places {
    if closed || |at.queue| >= c.queueCapacity
    then at.(sending := at.sending - multiset{job}, refused := at.refused + multiset{job})
    else at.(sending := at.sending - multiset{job}, queue := at.queue + [job])
  }

  function EndTask(s: State, job: Job): State {
    s.(at := s.at.(running := s.at.running - multiset{job}),
       loop := s.loop.(unjoined := s.loop.unjoined + 1))
  }

  /** One move of the loop while it is stopping. */
  function Drain(s: State): State
    requires Stopping(s.loop.point) && (s.loop.point.CheckTasks? && Tasks(s) > 0 ==> s.loop.unjoined > 0)
  {
    if s.at.doomed != [] then
      s.(at := s.at.(doomed := s.at.doomed[1..]), reg := Fail(s.reg, s.at.doomed[0]))
    else if s.loop.point.DrainQueue? then
      if s.at.queue != [] then s.(at := s.at.(doomed := [s.at.queue[0]], queue := s.at.queue[1..]))
      else s.(at := s.at.(doomed := s.at.backlog, backlog := []), loop := s.loop.(point := DrainBacklog))
    else if s.loop.point.DrainBacklog? then s.(loop := s.loop.(point := CheckTasks))
    else if Tasks(s) == 0 then s.(loop := s.loop.(point := Returned, accepting := false))
    else s.(loop := s.loop.(unjoined := s.loop.unjoined - 1, point := DrainQueue))
  }

  function Next(c: Config, s: State, step: Step): State
    requires Enabled(c, s, step)
  {
    match step
    case SExisting(k, fp, rev, now, w) => s.(reg := Existing(c, Swept(c, s.reg, now), k, fp, rev, w).0)
    case SSubmit(k, fp, rev, base, now, w) =>
      var (g, result) := Submit(c, Swept(c, s.reg, now), k, fp, rev, base, now, w);
      if result.Enqueue? then s.(reg := g, at := s.at.(sending := s.at.sending + multiset{Apply(k)}))
      else s.(reg := g)
    case STrySend(job) => s.(at := TrySend(c, s.at, s.loop.queueClosed, job))
    case SAnswerRefused(job) => s.(at := s.at.(refused := s.at.refused - multiset{job}), reg := Fail(s.reg, job))
    case SWaitTerminal(k, op, now, w) => s.(reg := WaitTerminal(c, Swept(c, s.reg, now), k, op, w).0)
    case SAdmit(k, r, now, w) =>
      var (g, result) := Admit(c, Swept(c, s.reg, now), k, r, w);
      if result.Start? then s.(reg := g, at := s.at.(sending := s.at.sending + multiset{Resume(k)}))
      else s.(reg := g)
    case SDropReceiver(w) => s.(reg := s.reg.(dropped := s.reg.dropped + {w}))
    case SPrepared(k, r, now) => s.(reg := MarkPrepared(s.reg, k, r, now))
    case SUpdate(k, r, now) => s.(reg := UpdateInProgress(s.reg, k, r, now))
    case SFinishApply(k, r, now) => EndTask(s.(reg := MarkFinished(s.reg, k, r, now)), Apply(k))
    case SFailApply(k) => EndTask(s.(reg := FailBeforeIntent(s.reg, k)), Apply(k))
    case SEndResume(k, outcome) =>
      EndTask(s.(reg := EndResumption(s.reg, k, if outcome.Some? then Completed(outcome.value) else Refused)),
          Resume(k))
    case SReconcileUncertain(k, r, now) => s.(reg := ReconcileUncertain(s.reg, k, r, now))
    case SReconcileOperation(k, r, now) => s.(reg := ReconcileOperation(s.reg, k, r, now))
    case SRecover(pending) =>
      var (resumptions, backlog) := RecoverFill(s.reg.resumptions, s.at.backlog, pending);
      s.(reg := s.reg.(resumptions := resumptions), at := s.at.(backlog := backlog), loop := s.loop.(recovered := true))
    case SStartLoop => s.(loop := s.loop.(point := Serving))
    case SSpawnRetry => s.(loop := s.loop.(retry := true))
    case SRetryDone => s.(loop := s.loop.(retry := false, unjoined := s.loop.unjoined + 1))
    case SPopBacklog =>
      s.(at := s.at.(backlog := s.at.backlog[1..], running := s.at.running + multiset{s.at.backlog[0]}))
    case SReceive => s.(at := s.at.(queue := s.at.queue[1..], running := s.at.running + multiset{s.at.queue[0]}))
    case SJoin => s.(loop := s.loop.(unjoined := s.loop.unjoined - 1))
    case SShutdown => s.(loop := s.loop.(point := DrainQueue, accepting := false, queueClosed := true))
    case SDrain => Drain(s)
  }

  /** The limits `new` puts on a configuration. */
  function Clamp(c: Config): Config {
    c.(queueCapacity := AtLeastOne(c.queueCapacity),
       concurrency := AtLeastOne(c.concurrency),
       maxWaiters := AtLeastOne(c.maxWaiters))
  }

  function AtLeastOne(n: nat): nat { if n == 0 then 1 else n }

  /** A run: every step is taken in a state that enables it. */
  ghost predicate IsRun(c: Config, steps: seq<Step>, states: seq<State>) {
    && |states| == |steps| + 1
    && states[0] == Init()
    && forall i {:trigger Enabled(c, states[i], steps[i])} ::
         0 <= i < |steps| ==> Enabled(c, states[i], steps[i]) && states[i + 1] == Next(c, states[i], steps[i])
  }
}
