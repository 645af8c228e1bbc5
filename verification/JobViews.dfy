/**
 The job registry seen through one key. The small automaton below reads the
 steps only; every run of the supervisor shows each key exactly as it says, so
 every answer about a key can be traced to the submission that opened its record
 and to the report its worker made last.
 */
module JobViews {
  import opened Common
  import opened Receipts
  import opened JobProtocol
  import opened JobInvariant
  import opened JobTheorems

  /** The worker's last word on a submission. */
  datatype Told = Nothing | Working(receipt: Receipt) | Final(receipt: Receipt)

  /** `fp` and `base` are those of the submission that opened the record, `at` the time of its last change. */
  datatype View = Gone | Known(fp: string, base: string, told: Told, at: nat)

  /** A finished record is forgotten once it is as old as the configured time to live. */
  function Aged(v: View, now: nat, ttl: nat): View {
    if v.Known? && v.told.Final? && Elapsed(now, v.at) >= ttl then Gone else v
  }

  /** What this step reports about the key, if the record is in a phase that takes the report. */
  function Reported(v: View, k: JobKey, step: Step): Option<Told> {
    if v.Gone? then None
    else
      match step
      case SPrepared(k', r, _) => if k' == k then Some(Working(r)) else None
      case SUpdate(k', r, _) => if k' == k && v.told.Working? then Some(Working(r)) else None
      case SFinishApply(k', r, _) => if k' == k then Some(Final(r)) else None
      case SReconcileUncertain(k', r, _) =>
        if k' == k && v.told.Final? && v.told.receipt.persistence == DurabilityUncertain then Some(Final(r)) else None
      case SReconcileOperation(k', r, _) =>
        if k' == k && v.told.Final? && v.told.receipt.operationId == r.operationId then Some(Final(r)) else None
      case _ => None
  }

  /** The job of the key is given up without a report. */
  predicate GivenUp(k: JobKey, step: Step, doomed: seq<Job>) {
    || (step.SAnswerRefused? && step.job == Apply(k))
    || (step.SFailApply? && step.k == k)
    || (step.SDrain? && doomed != [] && doomed[0] == Apply(k))
  }

  predicate Sweeps(step: Step) { step.SExisting? || step.SSubmit? || step.SWaitTerminal? || step.SAdmit? }

  /** What one step makes of the view; `full` says whether the registry has no room for another record. */
  function Follow(v: View, k: JobKey, step: Step, doomed: seq<Job>, full: bool, ttl: nat): View {
    if GivenUp(k, step, doomed) then Gone
    else if Reported(v, k, step).Some? then v.(told := Reported(v, k, step).value, at := step.now)
    else if !Sweeps(step) then v
    else if step.SSubmit? && step.k == k && Aged(v, step.now, ttl).Gone? && !full
      then Known(step.fp, step.base, Nothing, step.now)
    else Aged(v, step.now, ttl)
  }

  /** Whether a submission at this time finds the registry full. */
  predicate Full(c: Config, s: State, step: Step) {
    step.SSubmit? && |Swept(c, s.reg, step.now).jobs| >= c.maxJobs
  }

  ghost function ViewAt(c: Config, steps: seq<Step>, states: seq<State>, i: nat, k: JobKey): View
    requires |states| == |steps| + 1 && i <= |steps|
  {
    if i == 0 then Gone
    else
      var s, step := states[i - 1], steps[i - 1];
      Follow(ViewAt(c, steps, states, i - 1, k), k, step, s.at.doomed, Full(c, s, step), c.terminalTtl)
  }

  // -------------------------------------------------- the registry shows the view

  predicate Shows(jobs: map<JobKey, JobRecord>, k: JobKey, v: View) {
    match v
    case Gone => k !in jobs
    case Known(fp, base, told, at) =>
      && k in jobs
      && jobs[k].fingerprint == fp
      && jobs[k].revision == base
      && jobs[k].updated == at
      && match told
         case Nothing => jobs[k].state.Queued?
         case Working(r) => jobs[k].state == JobState.Prepared(r)
         case Final(r) => jobs[k].state == JobState.Finished(r)
  }

  lemma SweepShows(c: Config, g: Registry, now: nat, k: JobKey, v: View)
    requires Shows(g.jobs, k, v)
    ensures Shows(Swept(c, g, now).jobs, k, Aged(v, now, c.terminalTtl))
  {
  }

  lemma ExistingShows(c: Config, g: Registry, k': JobKey, fp: string, rev: Option<string>, w: Waiter, k: JobKey,
                      v: View)
    requires Shows(g.jobs, k, v)
    ensures Shows(Existing(c, g, k', fp, rev, w).0.jobs, k, v)
  {
  }

  lemma SubmitShows(c: Config, g: Registry, step: Step, k: JobKey, v: View)
    requires Shows(g.jobs, k, v) && step.SSubmit?
    ensures var t := Submit(c, g, step.k, step.fp, step.rev, step.base, step.now, step.w).0;
      Shows(t.jobs, k,
            if step.k == k && v.Gone? && |g.jobs| < c.maxJobs then Known(step.fp, step.base, Nothing, step.now) else v)
  {
  }

  lemma WaitShows(c: Config, g: Registry, k': JobKey, op: string, w: Waiter, k: JobKey, v: View)
    requires Shows(g.jobs, k, v)
    ensures Shows(WaitTerminal(c, g, k', op, w).0.jobs, k, v)
  {
  }

  lemma AdmitShows(c: Config, g: Registry, k': JobKey, r: Receipt, w: Waiter, k: JobKey, v: View)
    requires Shows(g.jobs, k, v)
    ensures Shows(Admit(c, g, k', r, w).0.jobs, k, v)
  {
  }

  lemma FailShows(g: Registry, job: Job, k: JobKey, v: View)
    requires Shows(g.jobs, k, v)
    ensures Shows(Fail(g, job).jobs, k, if job == Apply(k) then Gone else v)
  {
  }

  lemma SubmitStepShows(c: Config, s: State, step: Step, k: JobKey, v: View)
    requires Enabled(c, s, step) && step.SSubmit? && Shows(s.reg.jobs, k, v)
    ensures Shows(Next(c, s, step).reg.jobs, k, Follow(v, k, step, s.at.doomed, Full(c, s, step), c.terminalTtl))
  {
    SweepShows(c, s.reg, step.now, k, v);
    SubmitShows(c, Swept(c, s.reg, step.now), step, k, Aged(v, step.now, c.terminalTtl));
  }

  lemma SweepingShows(c: Config, s: State, step: Step, k: JobKey, v: View)
    requires Enabled(c, s, step) && Sweeps(step) && !step.SSubmit? && Shows(s.reg.jobs, k, v)
    ensures Shows(Next(c, s, step).reg.jobs, k, Aged(v, step.now, c.terminalTtl))
  {
    var g, e := Swept(c, s.reg, step.now), Aged(v, step.now, c.terminalTtl);
    SweepShows(c, s.reg, step.now, k, v);
    match step
    case SExisting(k', fp, rev, now, w) => ExistingShows(c, g, k', fp, rev, w, k, e);
    case SWaitTerminal(k', op, now, w) => WaitShows(c, g, k', op, w, k, e);
    case SAdmit(k', r, now, w) => AdmitShows(c, g, k', r, w, k, e);
  }

  lemma PreparedShows(g: Registry, k': JobKey, r: Receipt, now: nat, k: JobKey, v: View)
    requires Shows(g.jobs, k, v)
    ensures Shows(MarkPrepared(g, k', r, now).jobs, k,
                  if k' == k && v.Known? then v.(told := Working(r), at := now) else v)
  {
  }

  lemma UpdateShows(g: Registry, k': JobKey, r: Receipt, now: nat, k: JobKey, v: View)
    requires Shows(g.jobs, k, v)
    ensures Shows(UpdateInProgress(g, k', r, now).jobs, k,
                  if k' == k && v.Known? && v.told.Working? then v.(told := Working(r), at := now) else v)
  {
  }

  lemma FinishShows(g: Registry, k': JobKey, r: Receipt, now: nat, k: JobKey, v: View)
    requires Shows(g.jobs, k, v)
    ensures Shows(MarkFinished(g, k', r, now).jobs, k,
                  if k' == k && v.Known? then v.(told := Final(r), at := now) else v)
  {
  }

  lemma UncertainShows(g: Registry, k': JobKey, r: Receipt, now: nat, k: JobKey, v: View)
    requires Shows(g.jobs, k, v)
    ensures Shows(ReconcileUncertain(g, k', r, now).jobs, k,
                  if k' == k && v.Known? && v.told.Final? && v.told.receipt.persistence == DurabilityUncertain
                  then v.(told := Final(r), at := now) else v)
  {
  }

  lemma OperationShows(g: Registry, k': JobKey, r: Receipt, now: nat, k: JobKey, v: View)
    requires Shows(g.jobs, k, v)
    ensures Shows(ReconcileOperation(g, k', r, now).jobs, k,
                  if k' == k && v.Known? && v.told.Final? && v.told.receipt.operationId == r.operationId
                  then v.(told := Final(r), at := now) else v)
  {
  }

  lemma ClientShows(c: Config, s: State, step: Step, k: JobKey, v: View)
    requires Enabled(c, s, step) && ClientStep(step) && !Sweeps(step) && Shows(s.reg.jobs, k, v)
    ensures Shows(Next(c, s, step).reg.jobs, k, Follow(v, k, step, s.at.doomed, Full(c, s, step), c.terminalTtl))
  {
    match step
    case SAnswerRefused(job) => FailShows(s.reg, job, k, v);
    case SReconcileUncertain(k', r, now) => UncertainShows(s.reg, k', r, now, k, v);
    case SReconcileOperation(k', r, now) => OperationShows(s.reg, k', r, now, k, v);
    case _ =>
  }

  lemma WorkerShows(c: Config, s: State, step: Step, k: JobKey, v: View)
    requires Enabled(c, s, step) && WorkerStep(step) && Shows(s.reg.jobs, k, v)
    ensures Shows(Next(c, s, step).reg.jobs, k, Follow(v, k, step, s.at.doomed, Full(c, s, step), c.terminalTtl))
  {
    match step
    case SPrepared(k', r, now) => PreparedShows(s.reg, k', r, now, k, v);
    case SUpdate(k', r, now) => UpdateShows(s.reg, k', r, now, k, v);
    case SFinishApply(k', r, now) => FinishShows(s.reg, k', r, now, k, v);
    case SFailApply(k') => FailShows(s.reg, Apply(k'), k, v);
    case SEndResume(k', _) =>
  }

  lemma LoopShows(c: Config, s: State, step: Step, k: JobKey, v: View)
    requires Enabled(c, s, step) && !ClientStep(step) && !WorkerStep(step) && Shows(s.reg.jobs, k, v)
    ensures Shows(Next(c, s, step).reg.jobs, k, Follow(v, k, step, s.at.doomed, Full(c, s, step), c.terminalTtl))
  {
    if step.SDrain? && s.at.doomed != [] { FailShows(s.reg, s.at.doomed[0], k, v); }
  }

  lemma SweepFollows(v: View, k: JobKey, step: Step, doomed: seq<Job>, full: bool, ttl: nat)
    requires Sweeps(step) && !step.SSubmit?
    ensures Follow(v, k, step, doomed, full, ttl) == Aged(v, step.now, ttl)
  {
  }

  lemma StepShows(c: Config, s: State, step: Step, k: JobKey, v: View)
    requires Enabled(c, s, step) && Shows(s.reg.jobs, k, v)
    ensures Shows(Next(c, s, step).reg.jobs, k, Follow(v, k, step, s.at.doomed, Full(c, s, step), c.terminalTtl))
  {
    if step.SSubmit? {
      SubmitStepShows(c, s, step, k, v);
    } else if Sweeps(step) {
      SweepingShows(c, s, step, k, v);
      SweepFollows(v, k, step, s.at.doomed, Full(c, s, step), c.terminalTtl);
    } else if ClientStep(step) {
      ClientShows(c, s, step, k, v);
    } else if WorkerStep(step) {
      WorkerShows(c, s, step, k, v);
    } else {
      LoopShows(c, s, step, k, v);
    }
  }

  /** In every state of every run the registry holds of a key exactly what its view says. */
  lemma {:induction false} RegistryShowsView(raw: Config, steps: seq<Step>, states: seq<State>, i: nat, k: JobKey)
    requires IsRun(Clamp(raw), steps, states) && i < |states|
    ensures Shows(states[i].reg.jobs, k, ViewAt(Clamp(raw), steps, states, i, k))
  {
    if i > 0 {
      var j, c := i - 1, Clamp(raw);
      RegistryShowsView(raw, steps, states, j, k);
      assert Enabled(c, states[j], steps[j]);
      StepShows(c, states[j], steps[j], k, ViewAt(c, steps, states, j, k));
    }
  }

  // ------------------------------------------------------------- where a view comes from

  ghost predicate Opens(c: Config, steps: seq<Step>, states: seq<State>, o: nat, k: JobKey)
    requires |states| == |steps| + 1 && o < |steps|
  {
    && steps[o].SSubmit? && steps[o].k == k
    && Aged(ViewAt(c, steps, states, o, k), steps[o].now, c.terminalTtl).Gone?
    && !Full(c, states[o], steps[o])
  }

  lemma FollowKeeps(v: View, k: JobKey, step: Step, doomed: seq<Job>, full: bool, ttl: nat)
    requires Follow(v, k, step, doomed, full, ttl).Known?
    ensures var t := Follow(v, k, step, doomed, full, ttl);
      if step.SSubmit? && step.k == k && Aged(v, step.now, ttl).Gone? && !full
      then t.fp == step.fp && t.base == step.base && t.told.Nothing?
      else
        && v.Known? && t.fp == v.fp && t.base == v.base
        && t.told == (if Reported(v, k, step).Some? then Reported(v, k, step).value else v.told)
  {
  }

  /** A known record was opened by one submission, and has been that submission's ever since. */
  lemma {:induction false} RecordOrigin(raw: Config, steps: seq<Step>, states: seq<State>, i: nat, k: JobKey)
    returns (o: nat)
    requires IsRun(Clamp(raw), steps, states) && i < |states|
    requires ViewAt(Clamp(raw), steps, states, i, k).Known?
    ensures o < i && Opens(Clamp(raw), steps, states, o, k)
    ensures forall j :: o < j <= i ==>
      var v := ViewAt(Clamp(raw), steps, states, j, k);
      v.Known? && v.fp == steps[o].fp && v.base == steps[o].base
    ensures forall q :: o < q < i ==> !Opens(Clamp(raw), steps, states, q, k)
  {
    var c, m := Clamp(raw), i - 1;
    assert i > 0;
    FollowKeeps(ViewAt(c, steps, states, m, k), k, steps[m], states[m].at.doomed, Full(c, states[m], steps[m]),
                c.terminalTtl);
    if Opens(c, steps, states, m, k) {
      o := m;
    } else {
      o := RecordOrigin(raw, steps, states, m, k);
    }
  }

  /** What was told last was reported while the record was known, and nothing has been reported since. */
  lemma {:induction false} ToldOrigin(raw: Config, steps: seq<Step>, states: seq<State>, i: nat, k: JobKey)
    returns (p: nat)
    requires IsRun(Clamp(raw), steps, states) && i < |states|
    requires var v := ViewAt(Clamp(raw), steps, states, i, k); v.Known? && !v.told.Nothing?
    ensures p < i
    ensures var u, v := ViewAt(Clamp(raw), steps, states, p, k), ViewAt(Clamp(raw), steps, states, i, k);
      Reported(u, k, steps[p]) == Some(v.told) && u.fp == v.fp && u.base == v.base
    ensures forall q :: p < q < i ==> Reported(ViewAt(Clamp(raw), steps, states, q, k), k, steps[q]).None?
  {
    var c, m := Clamp(raw), i - 1;
    assert i > 0;
    var v := ViewAt(c, steps, states, m, k);
    FollowKeeps(v, k, steps[m], states[m].at.doomed, Full(c, states[m], steps[m]), c.terminalTtl);
    if Reported(v, k, steps[m]).Some? {
      p := m;
    } else {
      p := ToldOrigin(raw, steps, states, m, k);
    }
  }

  // ------------------------------------------------------------------------- answers

  /** The waiters of a list that still listen. */
  function Listening(ws: seq<Waiter>, dropped: set<Waiter>): set<Waiter> { set w | w in ws && w !in dropped }

  lemma {:induction false} ListeningCount(ws: seq<Waiter>, dropped: set<Waiter>)
    requires Distinct(ws)
    ensures |Open(ws, dropped)| == |Listening(ws, dropped)|
  {
    if ws != [] {
      var rest := ws[1..];
      ListeningCount(rest, dropped);
      assert ws == [ws[0]] + rest && ws[0] !in rest;
      assert Listening(ws, dropped) ==
             Listening(rest, dropped) + if ws[0] in dropped then {} else {ws[0]};
    }
  }

  /** There is a place for one more waiter exactly while fewer than the limit are listening. */
  lemma RoomIsListening(c: Config, g: Registry, claim: Claim)
    requires WaitersConserved(g)
    ensures HasRoom(c, List(g, claim), g.dropped) <==> |Listening(List(g, claim), g.dropped)| < c.maxWaiters
  {
    assert ListMatches(g, claim);
    ListeningCount(List(g, claim), g.dropped);
  }

  function AnswerTo(c: Config, s: State, step: Step): SubmitResult
    requires step.SExisting? || step.SSubmit?
  {
    var g := Swept(c, s.reg, step.now);
    if step.SExisting? then Existing(c, g, step.k, step.fp, step.rev, step.w).1
    else Submit(c, g, step.k, step.fp, step.rev, step.base, step.now, step.w).1
  }

  /** What the step finds of its key, once the sweep it starts with is done. */
  ghost function Found(c: Config, steps: seq<Step>, states: seq<State>, i: nat): View
    requires |states| == |steps| + 1 && i < |steps| && Sweeps(steps[i])
  {
    Aged(ViewAt(c, steps, states, i, steps[i].k), steps[i].now, c.terminalTtl)
  }

  lemma FoundShows(raw: Config, steps: seq<Step>, states: seq<State>, i: nat)
    requires IsRun(Clamp(raw), steps, states) && i < |steps| && Sweeps(steps[i])
    ensures Shows(Swept(Clamp(raw), states[i].reg, steps[i].now).jobs, steps[i].k,
                  Found(Clamp(raw), steps, states, i))
  {
    RegistryShowsView(raw, steps, states, i, steps[i].k);
    var v := ViewAt(Clamp(raw), steps, states, i, steps[i].k);
    SweepShows(Clamp(raw), states[i].reg, steps[i].now, steps[i].k, v);
  }

  /** The submission is made for the plan the record was opened for. */
  predicate SamePlan(step: Step, v: View)
    requires (step.SExisting? || step.SSubmit?) && v.Known?
  {
    step.fp == v.fp && (step.rev == None || step.rev == Some(v.base))
  }

  /** The answer a submission gets, by what it finds. */
  ghost predicate Fitting(step: Step, v: View, full: bool, room: bool, answer: SubmitResult)
    requires step.SExisting? || step.SSubmit?
  {
    if v.Gone? then
      answer == if step.SExisting? then Absent else if full then RegistryFull else Enqueue
    else if !SamePlan(step, v) then answer == Conflict
    else
      match v.told
      case Nothing => answer == if room then Wait else WaitersFull
      case Working(r) => answer == Replay(r)
      case Final(r) =>
        answer == if step.SExisting? && r.persistence == DurabilityUncertain then Reconcile else Replay(r)
  }

  lemma AnswerFits(c: Config, s: State, step: Step, v: View)
    requires (step.SExisting? || step.SSubmit?) && Enabled(c, s, step)
    requires Shows(Swept(c, s.reg, step.now).jobs, step.k, v)
    ensures Fitting(step, v, Full(c, s, step),
                    HasRoom(c, List(s.reg, Claim(step.k, Submission)), s.reg.dropped), AnswerTo(c, s, step))
  {
  }

  /** Whether another waiter of this claim finds a place. */
  ghost predicate Room(c: Config, s: State, claim: Claim) {
    |Listening(List(s.reg, claim), s.reg.dropped)| < c.maxWaiters
  }

  /** Only a submission that joins or opens a record leaves more than the sweep does. */
  lemma AnswerLeaves(c: Config, s: State, step: Step)
    requires (step.SExisting? || step.SSubmit?) && Enabled(c, s, step)
    ensures var answer := AnswerTo(c, s, step);
      && (answer !in {Wait, WaitersFull, Enqueue} ==> Next(c, s, step) == s.(reg := Swept(c, s.reg, step.now)))
      && (step.w in Next(c, s, step).reg.claims <==> answer == Wait || answer == Enqueue)
  {
  }

  /**
   In every run a submission is answered by what its key stands for: `Conflict`
   exactly when the record was opened for another plan or another base revision,
   and then nothing but the sweep happens; a receipt only of the same plan.
   */
  lemma SubmissionAnswered(raw: Config, steps: seq<Step>, states: seq<State>, i: nat)
    requires IsRun(Clamp(raw), steps, states) && i < |steps| && (steps[i].SExisting? || steps[i].SSubmit?)
    ensures var c, s, step := Clamp(raw), states[i], steps[i];
      var v, answer := Found(c, steps, states, i), AnswerTo(c, s, step);
      && Fitting(step, v, Full(c, s, step), Room(c, s, Claim(step.k, Submission)), answer)
      && (answer == Conflict <==> v.Known? && !SamePlan(step, v))
      && (answer !in {Wait, WaitersFull, Enqueue} ==> states[i + 1] == s.(reg := Swept(c, s.reg, step.now)))
      && (step.w in states[i + 1].reg.claims <==> answer == Wait || answer == Enqueue)
  {
    var c, s, step := Clamp(raw), states[i], steps[i];
    assert Enabled(c, s, step);
    FoundShows(raw, steps, states, i);
    RunKeepsInv(raw, steps, states, i);
    RoomIsListening(c, s.reg, Claim(step.k, Submission));
    AnswerFits(c, s, step, Found(c, steps, states, i));
    AnswerLeaves(c, s, step);
  }

  /** A replayed receipt is the last report on a record that a submission of this very plan opened. */
  lemma ReplayIsOwn(raw: Config, steps: seq<Step>, states: seq<State>, i: nat) returns (o: nat, p: nat)
    requires IsRun(Clamp(raw), steps, states) && i < |steps| && (steps[i].SExisting? || steps[i].SSubmit?)
    requires AnswerTo(Clamp(raw), states[i], steps[i]).Replay?
    ensures o < p < i && steps[o].SSubmit? && steps[o].k == steps[i].k
    ensures AnswerTo(Clamp(raw), states[o], steps[o]) == Enqueue
    ensures steps[o].fp == steps[i].fp && (steps[i].rev == None || steps[i].rev == Some(steps[o].base))
    ensures var r := AnswerTo(Clamp(raw), states[i], steps[i]).receipt;
      var told := Reported(ViewAt(Clamp(raw), steps, states, p, steps[i].k), steps[i].k, steps[p]);
      told == Some(Working(r)) || told == Some(Final(r))
    ensures forall q :: p < q < i ==>
      Reported(ViewAt(Clamp(raw), steps, states, q, steps[i].k), steps[i].k, steps[q]).None?
  {
    var k := steps[i].k;
    SubmissionAnswered(raw, steps, states, i);
    p := ToldOrigin(raw, steps, states, i, k);
    o := RecordOrigin(raw, steps, states, p, k);
    SubmissionAnswered(raw, steps, states, o);
  }

  /** The answer to a terminal wait: the final receipt of the operation named, or a place among its waiters. */
  ghost predicate FittingWait(v: View, operationId: string, room: bool, answer: TerminalResult) {
    if v.Gone? || v.told.Nothing? || v.told.receipt.operationId != operationId then answer == LookDurable
    else if v.told.Working? then answer == if room then TerminalWait else TerminalFull
    else answer == if v.told.receipt.persistence == DurabilityUncertain then LookDurable else Done(v.told.receipt)
  }

  lemma WaitFits(c: Config, g: Registry, k: JobKey, op: string, w: Waiter, v: View)
    requires Shows(g.jobs, k, v)
    ensures FittingWait(v, op, HasRoom(c, List(g, Claim(k, Terminal)), g.dropped), WaitTerminal(c, g, k, op, w).1)
  {
  }

  /** A sweep keeps the waiters of every record that still has any. */
  lemma SweepKeepsList(c: Config, g: Registry, now: nat, claim: Claim)
    requires Phases(g)
    ensures List(Swept(c, g, now), claim) == List(g, claim)
  {
    if claim.key in g.jobs { assert PhaseLists(g.jobs[claim.key]); }
  }

  lemma TerminalAnswered(raw: Config, steps: seq<Step>, states: seq<State>, i: nat)
    requires IsRun(Clamp(raw), steps, states) && i < |steps| && steps[i].SWaitTerminal?
    ensures var c, step := Clamp(raw), steps[i];
      FittingWait(Found(c, steps, states, i), step.operationId, Room(c, states[i], Claim(step.k, Terminal)),
                  WaitTerminal(c, Swept(c, states[i].reg, step.now), step.k, step.operationId, step.w).1)
  {
    var c, g, step := Clamp(raw), states[i].reg, steps[i];
    FoundShows(raw, steps, states, i);
    RunKeepsInv(raw, steps, states, i);
    RoomIsListening(c, g, Claim(step.k, Terminal));
    SweepKeepsList(c, g, step.now, Claim(step.k, Terminal));
    WaitFits(c, Swept(c, g, step.now), step.k, step.operationId, step.w, Found(c, steps, states, i));
  }

  /** The receipt still owes its daemon an activation or the audit log a record. */
  predicate Owes(r: Receipt) {
    || (r.persistence == Committed && r.changed && r.activation == Pending)
    || ((r.persistence == Committed || r.persistence == Aborted) && !r.auditRecorded)
  }

  /** The answer to a resumption request: not while the same submission is at work, nor when nothing is owed. */
  ghost predicate FittingAdmission(v: View, operationId: string, resumed: bool, room: bool, full: bool,
                                   answer: AdmitResult) {
    if v.Known? && (v.told.Nothing? || (v.told.Working? && v.told.receipt.operationId == operationId))
    then answer == Live
    else if v.Known? && v.told.Final? && v.told.receipt.operationId == operationId && !Owes(v.told.receipt)
    then answer == Current(v.told.receipt)
    else if resumed then answer == if room then WaitResumption else ResumptionFull
    else answer == if full then AdmitRegistryFull else Start
  }

  lemma AdmissionFits(c: Config, g: Registry, k: JobKey, r: Receipt, w: Waiter, v: View)
    requires Shows(g.jobs, k, v)
    ensures FittingAdmission(v, r.operationId, k in g.resumptions,
                             HasRoom(c, List(g, Claim(k, Resumption)), g.dropped),
                             |g.jobs| + |g.resumptions| >= c.maxJobs, Admit(c, g, k, r, w).1)
  {
  }

  lemma AdmissionSweeps(c: Config, s: State, k: JobKey, r: Receipt, now: nat, w: Waiter, v: View)
    requires WaitersConserved(s.reg) && Shows(Swept(c, s.reg, now).jobs, k, v)
    ensures var g := Swept(c, s.reg, now);
      FittingAdmission(v, r.operationId, k in s.reg.resumptions, Room(c, s, Claim(k, Resumption)),
                       |g.jobs| + |g.resumptions| >= c.maxJobs, Admit(c, g, k, r, w).1)
  {
    RoomIsListening(c, s.reg, Claim(k, Resumption));
    AdmissionFits(c, Swept(c, s.reg, now), k, r, w, v);
  }

  lemma AdmissionAnswered(raw: Config, steps: seq<Step>, states: seq<State>, i: nat)
    requires IsRun(Clamp(raw), steps, states) && i < |steps| && steps[i].SAdmit?
    ensures var c, s, step := Clamp(raw), states[i], steps[i];
      var g := Swept(c, s.reg, step.now);
      FittingAdmission(Found(c, steps, states, i), step.r.operationId, step.k in s.reg.resumptions,
                       Room(c, s, Claim(step.k, Resumption)), |g.jobs| + |g.resumptions| >= c.maxJobs,
                       Admit(c, g, step.k, step.r, step.w).1)
  {
    var c, step := Clamp(raw), steps[i];
    FoundShows(raw, steps, states, i);
    RunKeepsInv(raw, steps, states, i);
    AdmissionSweeps(c, states[i], step.k, step.r, step.now, step.w, Found(c, steps, states, i));
  }

  // -------------------------------------------------------------------------- replies

  /** The step that gives a waiter of this claim this reply. */
  predicate Causes(step: Step, doomed: seq<Job>, claim: Claim, reply: Reply) {
    match reply
    case Accepted(r) =>
      claim.kind.Submission? && (step.SPrepared? || step.SFinishApply?) && step.k == claim.key && step.r == r
    case Completed(r) =>
      if claim.kind.Terminal? then step.SFinishApply? && step.k == claim.key && step.r == r
      else claim.kind.Resumption? && step.SEndResume? && step.k == claim.key && step.outcome == Some(r)
    case Replayed(_) => false
    case Refused =>
      if claim.kind.Resumption? then
        || (step.SEndResume? && step.k == claim.key && step.outcome == None)
        || (step.SAnswerRefused? && step.job == Resume(claim.key))
        || (step.SDrain? && doomed != [] && doomed[0] == Resume(claim.key))
      else GivenUp(claim.key, step, doomed)
  }

  lemma FailCauses(g: Registry, job: Job, w: Waiter)
    requires WaitersConserved(g) && w !in g.replies && w in Fail(g, job).replies
    ensures Fail(g, job).replies[w] == Refused && w in g.claims
    ensures g.claims[w].key == job.key && (g.claims[w].kind.Resumption? <==> job.Resume?)
  {
    var k := job.key;
    assert ListMatches(g, Claim(k, Submission)) && ListMatches(g, Claim(k, Terminal));
    assert ListMatches(g, Claim(k, Resumption));
  }

  lemma PreparedCauses(g: Registry, k: JobKey, r: Receipt, now: nat, w: Waiter)
    requires WaitersConserved(g) && w !in g.replies && w in MarkPrepared(g, k, r, now).replies
    ensures w in g.claims && g.claims[w] == Claim(k, Submission)
    ensures MarkPrepared(g, k, r, now).replies[w] == Accepted(r)
  {
    assert ListMatches(g, Claim(k, Submission));
  }

  lemma FinishCauses(g: Registry, k: JobKey, r: Receipt, now: nat, w: Waiter)
    requires WaitersConserved(g) && Phases(g) && w !in g.replies && w in MarkFinished(g, k, r, now).replies
    ensures w in g.claims && g.claims[w].key == k && !g.claims[w].kind.Resumption?
    ensures MarkFinished(g, k, r, now).replies[w] == if g.claims[w].kind.Terminal? then Completed(r) else Accepted(r)
  {
    assert ListMatches(g, Claim(k, Submission)) && ListMatches(g, Claim(k, Terminal));
    assert PhaseLists(g.jobs[k]);
  }

  lemma EndCauses(g: Registry, k: JobKey, reply: Reply, w: Waiter)
    requires WaitersConserved(g) && w !in g.replies && w in EndResumption(g, k, reply).replies
    ensures w in g.claims && g.claims[w] == Claim(k, Resumption)
    ensures EndResumption(g, k, reply).replies[w] == reply
  {
    assert ListMatches(g, Claim(k, Resumption));
  }

  lemma WorkerCauses(c: Config, s: State, step: Step, w: Waiter)
    requires WaitersConserved(s.reg) && Phases(s.reg) && Enabled(c, s, step) && WorkerStep(step)
    requires w !in s.reg.replies && w in Next(c, s, step).reg.replies
    ensures w in s.reg.claims && Causes(step, s.at.doomed, s.reg.claims[w], Next(c, s, step).reg.replies[w])
  {
    match step
    case SPrepared(k, r, now) => PreparedCauses(s.reg, k, r, now, w);
    case SUpdate(_, _, _) =>
    case SFinishApply(k, r, now) => FinishCauses(s.reg, k, r, now, w);
    case SFailApply(k) => FailCauses(s.reg, Apply(k), w);
    case SEndResume(k, outcome) =>
      EndCauses(s.reg, k, if outcome.Some? then Completed(outcome.value) else Refused, w);
  }

  lemma QuietStep(c: Config, s: State, step: Step)
    requires Enabled(c, s, step) && !WorkerStep(step) && !step.SAnswerRefused?
    requires step.SDrain? ==> s.at.doomed == []
    ensures Next(c, s, step).reg.replies == s.reg.replies
  {
    if ClientStep(step) { ClientKeepsReplies(c, s, step); }
  }

  lemma StepCauses(c: Config, s: State, step: Step, w: Waiter)
    requires WaitersConserved(s.reg) && Phases(s.reg) && Enabled(c, s, step)
    requires w !in s.reg.replies && w in Next(c, s, step).reg.replies
    ensures w in s.reg.claims && Causes(step, s.at.doomed, s.reg.claims[w], Next(c, s, step).reg.replies[w])
  {
    if WorkerStep(step) {
      WorkerCauses(c, s, step, w);
    } else if step.SAnswerRefused? {
      FailCauses(s.reg, step.job, w);
    } else if step.SDrain? && s.at.doomed != [] {
      FailCauses(s.reg, s.at.doomed[0], w);
    } else {
      QuietStep(c, s, step);
    }
  }

  /** Every reply was given by a step of the waiter's own key, and carries that step's receipt. */
  lemma {:induction false} ReplyHasCause(raw: Config, steps: seq<Step>, states: seq<State>, i: nat, w: Waiter)
    returns (j: nat)
    requires IsRun(Clamp(raw), steps, states) && i < |states| && w in states[i].reg.replies
    ensures j < i && w in states[j].reg.claims
    ensures Causes(steps[j], states[j].at.doomed, states[j].reg.claims[w], states[i].reg.replies[w])
  {
    var m := i - 1;
    assert i > 0;
    if w in states[m].reg.replies {
      NextKeepsReply(raw, steps, states, m, w);
      j := ReplyHasCause(raw, steps, states, m, w);
    } else {
      RunKeepsInv(raw, steps, states, m);
      assert Enabled(Clamp(raw), states[m], steps[m]);
      StepCauses(Clamp(raw), states[m], steps[m], w);
      j := m;
    }
  }

  // ------------------------------------------------------------- jobs get where they belong

  /** A send puts the job at the end of an open queue that has room, and leaves it with its submitter otherwise. */
  lemma SendIsQueued(c: Config, s: State, job: Job)
    requires Enabled(c, s, STrySend(job))
    ensures var t := Next(c, s, STrySend(job));
      if !s.loop.queueClosed && |s.at.queue| < c.queueCapacity
      then t.at.queue == s.at.queue + [job] && t.at.refused == s.at.refused
      else t.at.queue == s.at.queue && t.at.refused == s.at.refused + multiset{job}
  {
  }

  lemma {:induction false} RecoveryRegisters(resumptions: map<JobKey, seq<Waiter>>, backlog: seq<Job>,
                                             pending: seq<JobKey>, k: JobKey)
    ensures var (m, b) := RecoverFill(resumptions, backlog, pending);
      && (k in m <==> k in resumptions || k in pending)
      && (k in resumptions ==> m[k] == resumptions[k])
      && (k in pending && k !in resumptions ==> Resume(k) in b)
      && (forall job :: job in backlog ==> job in b)
    decreases |pending|
  {
    if pending == [] {
    } else if pending[0] in resumptions {
      RecoveryRegisters(resumptions, backlog, pending[1..], k);
      assert pending == [pending[0]] + pending[1..];
    } else {
      RecoveryRegisters(resumptions[pending[0] := []], backlog + [Resume(pending[0])], pending[1..], k);
      assert pending == [pending[0]] + pending[1..];
      assert Resume(pending[0]) in backlog + [Resume(pending[0])];
    }
  }

  /** Recovery leaves no pending completion behind: every key it reports is in the resumption registry. */
  lemma RecoveryResumesAll(c: Config, s: State, pending: seq<JobKey>, k: JobKey)
    requires Enabled(c, s, SRecover(pending))
    ensures var t := Next(c, s, SRecover(pending));
      && (k in t.reg.resumptions <==> k in s.reg.resumptions || k in pending)
      && (k in pending && k !in s.reg.resumptions ==> Resume(k) in t.at.backlog)
  {
    RecoveryRegisters(s.reg.resumptions, s.at.backlog, pending, k);
  }
}
