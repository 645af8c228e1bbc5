/** Each critical section keeps the supervisor invariant. */
module JobSteps {
  import opened Common
  import opened Receipts
  import opened JobProtocol
  import opened JobInvariant

  /** The part of the invariant that speaks of the registries alone. */
  ghost predicate RegistryInv(c: Config, g: Registry) {
    WaitersConserved(g) && Phases(g) && RegistryBounded(c, g)
  }

  // ------------------------------------------------------------- registries

  lemma SweepKeeps(c: Config, g: Registry, now: nat)
    requires RegistryInv(c, g)
    ensures RegistryInv(c, Swept(c, g, now))
  {
    var h := Swept(c, g, now);
    SameListsKeep(g, h);
    assert h.jobs.Keys <= g.jobs.Keys;
    SubsetSize(h.jobs.Keys, g.jobs.Keys);
  }

  lemma JoinedBounded(c: Config, ws: seq<Waiter>, dropped: set<Waiter>, w: Waiter)
    requires |ws| <= c.maxWaiters
    ensures |Joined(c, ws, dropped, w)| <= c.maxWaiters
  {
    OpenKeepsLiveOnes(ws, dropped);
  }

  lemma JoinQueuedKeeps(c: Config, g: Registry, k: JobKey, w: Waiter)
    requires RegistryInv(c, g) && w !in g.claims && k in g.jobs && g.jobs[k].state.Queued?
    ensures RegistryInv(c, JoinQueued(c, g, k, w).0)
  {
    JoinKeeps(c, g, JoinQueued(c, g, k, w).0, Claim(k, Submission), w);
    JoinedBounded(c, g.jobs[k].prepared, g.dropped, w);
  }

  lemma ExistingKeeps(c: Config, g: Registry, k: JobKey, fp: string, rev: Option<string>, w: Waiter)
    requires RegistryInv(c, g) && w !in g.claims
    ensures RegistryInv(c, Existing(c, g, k, fp, rev, w).0)
  {
    if k in g.jobs && g.jobs[k].state.Queued? { JoinQueuedKeeps(c, g, k, w); }
  }

  lemma SubmitKeeps(c: Config, g: Registry, k: JobKey, fp: string, rev: Option<string>, base: string, now: nat,
                    w: Waiter)
    requires RegistryInv(c, g) && w !in g.claims && c.maxWaiters > 0
    ensures RegistryInv(c, Submit(c, g, k, fp, rev, base, now, w).0)
  {
    if k in g.jobs {
      if g.jobs[k].state.Queued? { JoinQueuedKeeps(c, g, k, w); }
    } else if |g.jobs| < c.maxJobs {
      NewSubmissionKeeps(c, g, k, fp, base, now, w);
    }
  }

  lemma NewSubmissionKeeps(c: Config, g: Registry, k: JobKey, fp: string, base: string, now: nat, w: Waiter)
    requires RegistryInv(c, g) && w !in g.claims && c.maxWaiters > 0 && k !in g.jobs && |g.jobs| < c.maxJobs
    ensures RegistryInv(c, NewSubmission(g, k, fp, base, now, w))
  {
    JoinKeeps(c, g, NewSubmission(g, k, fp, base, now, w), Claim(k, Submission), w);
    NewSubmissionBounds(c, g, k, fp, base, now, w);
  }

  lemma NewSubmissionBounds(c: Config, g: Registry, k: JobKey, fp: string, base: string, now: nat, w: Waiter)
    requires Phases(g) && RegistryBounded(c, g) && c.maxWaiters > 0 && k !in g.jobs && |g.jobs| < c.maxJobs
    ensures Phases(NewSubmission(g, k, fp, base, now, w)) && RegistryBounded(c, NewSubmission(g, k, fp, base, now, w))
  {
    UpdatedKeys(g.jobs, k, JobRecord(fp, base, Queued, now, [w], []));
  }

  lemma WaitTerminalKeeps(c: Config, g: Registry, k: JobKey, op: string, w: Waiter)
    requires RegistryInv(c, g) && w !in g.claims
    ensures RegistryInv(c, WaitTerminal(c, g, k, op, w).0)
  {
    var (h, result) := WaitTerminal(c, g, k, op, w);
    if result.TerminalWait? || result.TerminalFull? {
      JoinKeeps(c, g, h, Claim(k, Terminal), w);
      JoinedBounded(c, g.jobs[k].terminal, g.dropped, w);
    }
  }

  lemma JoinResumptionKeeps(c: Config, g: Registry, k: JobKey, w: Waiter)
    requires RegistryInv(c, g) && w !in g.claims && k in g.resumptions
    ensures RegistryInv(c, JoinResumption(c, g, k, w))
  {
    JoinKeeps(c, g, JoinResumption(c, g, k, w), Claim(k, Resumption), w);
    JoinedBounded(c, g.resumptions[k], g.dropped, w);
  }

  lemma NewResumptionKeeps(c: Config, g: Registry, k: JobKey, w: Waiter)
    requires RegistryInv(c, g) && w !in g.claims && c.maxWaiters > 0 && k !in g.resumptions
    ensures RegistryInv(c, NewResumption(g, k, w))
  {
    JoinKeeps(c, g, NewResumption(g, k, w), Claim(k, Resumption), w);
  }

  lemma AdmitKeeps(c: Config, g: Registry, k: JobKey, r: Receipt, w: Waiter)
    requires RegistryInv(c, g) && w !in g.claims && c.maxWaiters > 0
    ensures RegistryInv(c, Admit(c, g, k, r, w).0)
  {
    if k in g.resumptions { JoinResumptionKeeps(c, g, k, w); } else { NewResumptionKeeps(c, g, k, w); }
  }

  lemma FailKeeps(c: Config, g: Registry, job: Job)
    requires RegistryInv(c, g)
    ensures RegistryInv(c, Fail(g, job))
  {
    match job
    case Apply(k) => FailBeforeIntentKeeps(c, g, k);
    case Resume(k) => EndResumptionKeeps(c, g, k, Refused);
  }

  lemma FailBeforeIntentKeeps(c: Config, g: Registry, k: JobKey)
    requires RegistryInv(c, g)
    ensures RegistryInv(c, FailBeforeIntent(g, k))
  {
    FailBeforeIntentWaiters(g, k);
    FailBeforeIntentBounds(c, g, k);
  }

  lemma FailBeforeIntentBounds(c: Config, g: Registry, k: JobKey)
    requires Phases(g) && RegistryBounded(c, g)
    ensures Phases(FailBeforeIntent(g, k)) && RegistryBounded(c, FailBeforeIntent(g, k))
  {
    SubsetSize(FailBeforeIntent(g, k).jobs.Keys, g.jobs.Keys);
  }

  lemma FailBeforeIntentWaiters(g: Registry, k: JobKey)
    requires WaitersConserved(g)
    ensures WaitersConserved(FailBeforeIntent(g, k))
  {
    if k in g.jobs { AnswerBothKeeps(g, FailBeforeIntent(g, k), k, Refused, Refused); }
  }

  lemma EndResumptionKeeps(c: Config, g: Registry, k: JobKey, reply: Reply)
    requires RegistryInv(c, g) && ReplyFits(Resumption, reply)
    ensures RegistryInv(c, EndResumption(g, k, reply))
  {
    EndResumptionWaiters(g, k, reply);
  }

  lemma EndResumptionWaiters(g: Registry, k: JobKey, reply: Reply)
    requires WaitersConserved(g) && ReplyFits(Resumption, reply)
    ensures WaitersConserved(EndResumption(g, k, reply))
  {
    if k in g.resumptions { AnswerKeeps(g, EndResumption(g, k, reply), Claim(k, Resumption), reply); }
  }

  lemma MarkPreparedKeeps(c: Config, g: Registry, k: JobKey, r: Receipt, now: nat)
    requires RegistryInv(c, g)
    ensures RegistryInv(c, MarkPrepared(g, k, r, now))
  {
    if k in g.jobs {
      AnswerKeeps(g, MarkPrepared(g, k, r, now), Claim(k, Submission), Accepted(r));
      MarkPreparedBounds(c, g, k, r, now);
    }
  }

  lemma MarkPreparedBounds(c: Config, g: Registry, k: JobKey, r: Receipt, now: nat)
    requires Phases(g) && RegistryBounded(c, g) && k in g.jobs
    ensures Phases(MarkPrepared(g, k, r, now)) && RegistryBounded(c, MarkPrepared(g, k, r, now))
  {
    assert MarkPrepared(g, k, r, now).jobs.Keys == g.jobs.Keys;
  }

  lemma MarkFinishedKeeps(c: Config, g: Registry, k: JobKey, r: Receipt, now: nat)
    requires RegistryInv(c, g)
    ensures RegistryInv(c, MarkFinished(g, k, r, now))
  {
    MarkFinishedWaiters(g, k, r, now);
    MarkFinishedBounds(c, g, k, r, now);
  }

  lemma MarkFinishedBounds(c: Config, g: Registry, k: JobKey, r: Receipt, now: nat)
    requires Phases(g) && RegistryBounded(c, g)
    ensures Phases(MarkFinished(g, k, r, now)) && RegistryBounded(c, MarkFinished(g, k, r, now))
  {
    if k in g.jobs { assert MarkFinished(g, k, r, now).jobs.Keys == g.jobs.Keys; }
  }

  lemma MarkFinishedLists(g: Registry, k: JobKey, r: Receipt, now: nat)
    requires k in g.jobs
    ensures var h := MarkFinished(g, k, r, now);
            && List(h, Claim(k, Submission)) == [] && List(h, Claim(k, Terminal)) == []
            && (forall x :: x != Claim(k, Submission) && x != Claim(k, Terminal) ==> List(h, x) == List(g, x))
  {
  }

  lemma MarkFinishedWaiters(g: Registry, k: JobKey, r: Receipt, now: nat)
    requires WaitersConserved(g) && Phases(g)
    ensures WaitersConserved(MarkFinished(g, k, r, now))
  {
    if k in g.jobs {
      MarkFinishedLists(g, k, r, now);
      assert PhaseLists(g.jobs[k]);
      var outcome := if g.jobs[k].state.Queued? then Accepted(r) else Replayed(r);
      AnswerBothKeeps(g, MarkFinished(g, k, r, now), k, outcome, Completed(r));
    }
  }

  /** Rewriting the receipt of a record that stays in its phase. */
  lemma RewriteKeeps(c: Config, g: Registry, h: Registry, k: JobKey)
    requires RegistryInv(c, g) && k in g.jobs && k in h.jobs
    requires h == g.(jobs := g.jobs[k := h.jobs[k]])
    requires h.jobs[k].prepared == g.jobs[k].prepared
    requires h.jobs[k].terminal == g.jobs[k].terminal
    requires PhaseLists(h.jobs[k])
    ensures RegistryInv(c, h)
  {
    SameListsKeep(g, h);
  }

  lemma UpdateKeeps(c: Config, g: Registry, k: JobKey, r: Receipt, now: nat)
    requires RegistryInv(c, g)
    ensures RegistryInv(c, UpdateInProgress(g, k, r, now))
  {
    if k in g.jobs && g.jobs[k].state.Prepared? { RewriteKeeps(c, g, UpdateInProgress(g, k, r, now), k); }
  }

  lemma ReconcileKeeps(c: Config, g: Registry, k: JobKey, r: Receipt, now: nat)
    requires RegistryInv(c, g)
    ensures RegistryInv(c, ReconcileUncertain(g, k, r, now)) && RegistryInv(c, ReconcileOperation(g, k, r, now))
  {
    if k in g.jobs && g.jobs[k].state.Finished? { RewriteKeeps(c, g, Refresh(g, k, r, now), k); }
  }

  lemma {:induction false} RecoverFillLists(resumptions: map<JobKey, seq<Waiter>>, backlog: seq<Job>,
                                            pending: seq<JobKey>)
    ensures var m := RecoverFill(resumptions, backlog, pending).0;
            && (forall k :: k in resumptions ==> k in m && m[k] == resumptions[k])
            && (forall k :: k in m && k !in resumptions ==> m[k] == [])
    decreases |pending|
  {
    if pending != [] {
      if pending[0] in resumptions { RecoverFillLists(resumptions, backlog, pending[1..]); }
      else { RecoverFillLists(resumptions[pending[0] := []], backlog + [Resume(pending[0])], pending[1..]); }
    }
  }

  lemma RecoverFillKeeps(c: Config, g: Registry, backlog: seq<Job>, pending: seq<JobKey>)
    requires RegistryInv(c, g)
    ensures RegistryInv(c, g.(resumptions := RecoverFill(g.resumptions, backlog, pending).0))
  {
    RecoverFillLists(g.resumptions, backlog, pending);
    SameListsKeep(g, g.(resumptions := RecoverFill(g.resumptions, backlog, pending).0));
  }

  lemma DropReceiverKeeps(c: Config, g: Registry, w: Waiter)
    requires RegistryInv(c, g)
    ensures RegistryInv(c, g.(dropped := g.dropped + {w}))
  {
    var h := g.(dropped := g.dropped + {w});
    forall claim ensures ListMatches(h, claim) { assert ListMatches(g, claim); }
    forall v | v in h.claims ensures Accounted(h, v) { assert Accounted(g, v); }
  }

  // ------------------------------------------------------- one job per key

  /** The records of two registries are queued and unfinished for the same keys. */
  ghost predicate SamePhases(g: Registry, h: Registry) {
    && (forall k :: Unfinished(h.jobs, k) == Unfinished(g.jobs, k))
    && (forall k :: k in g.jobs && g.jobs[k].state.Queued? ==> k in h.jobs && h.jobs[k].state.Queued?)
    && h.resumptions.Keys == g.resumptions.Keys
  }

  lemma SamePhasesKeep(at: Places, g: Registry, h: Registry)
    requires JobsMatch(at, g) && SamePhases(g, h)
    ensures JobsMatch(at, h)
  {
  }

  /** Jobs only move on: from waiting to waiting, or from waiting to a task. */
  lemma MovedJobsKeep(at: Places, at': Places, g: Registry)
    requires JobsMatch(at, g)
    requires AllJobs(at') == AllJobs(at) && Waiting(at') <= Waiting(at)
    requires forall job :: job in at'.backlog ==> job in at.backlog
    ensures JobsMatch(at', g)
  {
  }

  lemma HeadOut(jobs: seq<Job>)
    requires jobs != []
    ensures multiset(jobs) == multiset{jobs[0]} + multiset(jobs[1..])
  {
    assert jobs == [jobs[0]] + jobs[1..];
  }

  lemma SweepJobs(c: Config, at: Places, g: Registry, now: nat)
    requires JobsMatch(at, g)
    ensures JobsMatch(at, Swept(c, g, now))
  {
    SamePhasesKeep(at, g, Swept(c, g, now));
  }

  lemma ExistingPhases(c: Config, g: Registry, k: JobKey, fp: string, rev: Option<string>, w: Waiter)
    ensures SamePhases(g, Existing(c, g, k, fp, rev, w).0)
  {
  }

  lemma ExistingJobs(c: Config, at: Places, g: Registry, k: JobKey, fp: string, rev: Option<string>, w: Waiter)
    requires JobsMatch(at, g)
    ensures JobsMatch(at, Existing(c, g, k, fp, rev, w).0)
  {
    ExistingPhases(c, g, k, fp, rev, w);
    SamePhasesKeep(at, g, Existing(c, g, k, fp, rev, w).0);
  }

  lemma WaitTerminalPhases(c: Config, g: Registry, k: JobKey, op: string, w: Waiter)
    ensures SamePhases(g, WaitTerminal(c, g, k, op, w).0)
  {
  }

  lemma WaitTerminalJobs(c: Config, at: Places, g: Registry, k: JobKey, op: string, w: Waiter)
    requires JobsMatch(at, g)
    ensures JobsMatch(at, WaitTerminal(c, g, k, op, w).0)
  {
    WaitTerminalPhases(c, g, k, op, w);
    SamePhasesKeep(at, g, WaitTerminal(c, g, k, op, w).0);
  }

  lemma SubmitPhases(c: Config, g: Registry, k: JobKey, fp: string, rev: Option<string>, base: string, now: nat,
                     w: Waiter)
    ensures var (h, result) := Submit(c, g, k, fp, rev, base, now, w);
            if result.Enqueue? then Begins(g, h, Apply(k)) else SamePhases(g, h)
  {
  }

  lemma SubmitJobs(c: Config, at: Places, g: Registry, k: JobKey, fp: string, rev: Option<string>, base: string,
                   now: nat, w: Waiter)
    requires JobsMatch(at, g)
    ensures var (h, result) := Submit(c, g, k, fp, rev, base, now, w);
            JobsMatch(if result.Enqueue? then at.(sending := at.sending + multiset{Apply(k)}) else at, h)
  {
    SubmitPhases(c, g, k, fp, rev, base, now, w);
    var (h, result) := Submit(c, g, k, fp, rev, base, now, w);
    if result.Enqueue? {
      AdmittedJob(at, g, h, Apply(k));
    } else {
      SamePhasesKeep(at, g, h);
    }
  }

  lemma AdmitJobs(c: Config, at: Places, g: Registry, k: JobKey, r: Receipt, w: Waiter)
    requires JobsMatch(at, g)
    ensures var (h, result) := Admit(c, g, k, r, w);
            JobsMatch(if result.Start? then at.(sending := at.sending + multiset{Resume(k)}) else at, h)
  {
    AdmitFrame(c, g, k, r, w);
    var (h, result) := Admit(c, g, k, r, w);
    if result.Start? {
      AdmittedJob(at, g, h, Resume(k));
    } else {
      SamePhasesKeep(at, g, h);
    }
  }

  lemma AdmitFrame(c: Config, g: Registry, k: JobKey, r: Receipt, w: Waiter)
    ensures var (h, result) := Admit(c, g, k, r, w);
            && h.jobs == g.jobs
            && (result.Start? ==> k !in g.resumptions && h.resumptions.Keys == g.resumptions.Keys + {k})
            && (!result.Start? ==> h.resumptions.Keys == g.resumptions.Keys)
  {
    UpdatedKeys(g.resumptions, k, [w]);
    if k in g.resumptions { UpdatedKeys(g.resumptions, k, Joined(c, g.resumptions[k], g.dropped, w)); }
  }

  lemma UpdatedKeys<V>(m: map<JobKey, V>, k: JobKey, v: V)
    ensures m[k := v].Keys == m.Keys + {k} && (k in m ==> m[k := v].Keys == m.Keys)
  {
  }

  lemma AdmittedJob(at: Places, g: Registry, h: Registry, job: Job)
    requires JobsMatch(at, g) && Begins(g, h, job)
    ensures JobsMatch(at.(sending := at.sending + multiset{job}), h)
  {
    var at' := at.(sending := at.sending + multiset{job});
    BegunCounts(AllJobs(at), Waiting(at), g, h, job);
    assert AllJobs(at') == AllJobs(at) + multiset{job};
    assert Waiting(at') == Waiting(at) + multiset{job};
  }

  /** The record of `job` appears and no other record changes. */
  ghost predicate Begins(g: Registry, h: Registry, job: Job) {
    && (job.Apply? ==> && job.key !in g.jobs && job.key in h.jobs && h.jobs[job.key].state.Queued?
                       && h.jobs == g.jobs[job.key := h.jobs[job.key]] && h.resumptions == g.resumptions)
    && (job.Resume? ==>
        h.jobs == g.jobs && job.key !in g.resumptions && h.resumptions.Keys == g.resumptions.Keys + {job.key})
  }

  lemma BegunCounts(all: multiset<Job>, waiting: multiset<Job>, g: Registry, h: Registry, job: Job)
    requires OneJobPerKey(all, g.jobs, g.resumptions.Keys) && WaitingIsQueued(waiting, g.jobs) && Begins(g, h, job)
    ensures OneJobPerKey(all + multiset{job}, h.jobs, h.resumptions.Keys)
    ensures WaitingIsQueued(waiting + multiset{job}, h.jobs)
  {
    AddedJob(all, g.jobs, h.jobs, g.resumptions.Keys, h.resumptions.Keys, job);
  }

  lemma TrySendJobs(c: Config, at: Places, closed: bool, g: Registry, job: Job)
    requires JobsMatch(at, g) && job in at.sending
    ensures JobsMatch(TrySend(c, at, closed, job), g)
  {
    TrySendMoves(c, at, closed, job);
    MovedJobsKeep(at, TrySend(c, at, closed, job), g);
  }

  lemma TrySendMoves(c: Config, at: Places, closed: bool, job: Job)
    requires job in at.sending
    ensures Waiting(TrySend(c, at, closed, job)) == Waiting(at)
  {
    assert at.sending == (at.sending - multiset{job}) + multiset{job};
    assert multiset(at.queue + [job]) == multiset(at.queue) + multiset{job};
  }

  /** The record of `job` ends and no other record changes. */
  ghost predicate Ends(g: Registry, h: Registry, job: Job) {
    && (forall k :: Apply(k) != job ==> (k in h.jobs <==> k in g.jobs) && (k in h.jobs ==> h.jobs[k] == g.jobs[k]))
    && (job.Apply? ==> !Unfinished(h.jobs, job.key) && h.resumptions == g.resumptions)
    && (job.Resume? ==> h.resumptions.Keys == g.resumptions.Keys - {job.key})
  }

  lemma FailEnds(g: Registry, job: Job)
    ensures Ends(g, Fail(g, job), job)
  {
  }

  lemma MarkFinishedEnds(g: Registry, k: JobKey, r: Receipt, now: nat)
    ensures Ends(g, MarkFinished(g, k, r, now), Apply(k))
  {
  }

  lemma EndResumptionEnds(g: Registry, k: JobKey, reply: Reply)
    ensures Ends(g, EndResumption(g, k, reply), Resume(k))
  {
  }

  /** A job leaves together with the record it stands for. */
  lemma EndedJob(at: Places, at': Places, g: Registry, h: Registry, job: Job)
    requires JobsMatch(at, g) && job in AllJobs(at)
    requires AllJobs(at') == AllJobs(at) - multiset{job} && Waiting(at') <= Waiting(at)
    requires at'.backlog == at.backlog && Ends(g, h, job)
    ensures JobsMatch(at', h)
  {
    EndedCounts(AllJobs(at), AllJobs(at'), Waiting(at), Waiting(at'), g, h, job);
  }

  lemma EndedCounts(all: multiset<Job>, all': multiset<Job>, waiting: multiset<Job>, waiting': multiset<Job>,
                    g: Registry, h: Registry, job: Job)
    requires OneJobPerKey(all, g.jobs, g.resumptions.Keys) && WaitingIsQueued(waiting, g.jobs)
    requires job in all && all' == all - multiset{job} && waiting' <= waiting && waiting' <= all' && Ends(g, h, job)
    ensures OneJobPerKey(all', h.jobs, h.resumptions.Keys) && WaitingIsQueued(waiting', h.jobs)
  {
    RemovedJob(all, g.jobs, h.jobs, g.resumptions.Keys, h.resumptions.Keys, job);
    forall k | Apply(k) in waiting' ensures k in h.jobs && h.jobs[k].state.Queued? {
      assert all'[Apply(k)] > 0;
      assert Apply(k) in waiting;
    }
  }

  lemma RunningIsNotWaiting(at: Places, g: Registry, k: JobKey)
    requires JobsMatch(at, g) && Apply(k) in at.running
    ensures Apply(k) !in Waiting(at) && Unfinished(g.jobs, k)
  {
    assert AllJobs(at)[Apply(k)] == Waiting(at)[Apply(k)] + at.running[Apply(k)];
  }

  lemma TaskEnds(at: Places, g: Registry, h: Registry, job: Job)
    requires JobsMatch(at, g) && job in at.running && Ends(g, h, job)
    ensures JobsMatch(at.(running := at.running - multiset{job}), h)
  {
    var at' := at.(running := at.running - multiset{job});
    assert AllJobs(at') == AllJobs(at) - multiset{job} && Waiting(at') == Waiting(at);
    EndedJob(at, at', g, h, job);
  }

  lemma MarkPreparedJobs(at: Places, g: Registry, k: JobKey, r: Receipt, now: nat)
    requires JobsMatch(at, g) && Apply(k) in at.running
    ensures JobsMatch(at, MarkPrepared(g, k, r, now))
  {
    RunningIsNotWaiting(at, g, k);
    var h := MarkPrepared(g, k, r, now);
    assert forall j :: Unfinished(h.jobs, j) == Unfinished(g.jobs, j);
  }

  lemma {:induction false} RecoverFillJobs(at: Places, g: Registry, pending: seq<JobKey>)
    requires JobsMatch(at, g)
    ensures var (m, b) := RecoverFill(g.resumptions, at.backlog, pending);
            JobsMatch(at.(backlog := b), g.(resumptions := m))
    decreases |pending|
  {
    if pending != [] {
      var k := pending[0];
      if k in g.resumptions {
        RecoverFillJobs(at, g, pending[1..]);
      } else {
        RecoveredJob(at, g, k);
        RecoverFillJobs(at.(backlog := at.backlog + [Resume(k)]), g.(resumptions := g.resumptions[k := []]),
            pending[1..]);
      }
    }
  }

  lemma RecoveredJob(at: Places, g: Registry, k: JobKey)
    requires JobsMatch(at, g) && k !in g.resumptions
    ensures JobsMatch(at.(backlog := at.backlog + [Resume(k)]), g.(resumptions := g.resumptions[k := []]))
  {
    var h, at' := g.(resumptions := g.resumptions[k := []]), at.(backlog := at.backlog + [Resume(k)]);
    BegunCounts(AllJobs(at), Waiting(at), g, h, Resume(k));
    BacklogGrows(at, Resume(k));
  }

  lemma BacklogGrows(at: Places, job: Job)
    ensures var at' := at.(backlog := at.backlog + [job]);
      AllJobs(at') == AllJobs(at) + multiset{job} && Waiting(at') == Waiting(at) + multiset{job}
  {
    assert multiset(at.backlog + [job]) == multiset(at.backlog) + multiset{job};
  }

  lemma PopBacklogJobs(at: Places, g: Registry)
    requires JobsMatch(at, g) && at.backlog != []
    ensures JobsMatch(at.(backlog := at.backlog[1..], running := at.running + multiset{at.backlog[0]}), g)
  {
    var at' := at.(backlog := at.backlog[1..], running := at.running + multiset{at.backlog[0]});
    HeadOut(at.backlog);
    assert AllJobs(at') == AllJobs(at);
    MovedJobsKeep(at, at', g);
  }

  lemma ReceiveJobs(at: Places, g: Registry)
    requires JobsMatch(at, g) && at.queue != []
    ensures JobsMatch(at.(queue := at.queue[1..], running := at.running + multiset{at.queue[0]}), g)
  {
    var at' := at.(queue := at.queue[1..], running := at.running + multiset{at.queue[0]});
    HeadOut(at.queue);
    assert AllJobs(at') == AllJobs(at);
    MovedJobsKeep(at, at', g);
  }

  /** Taking a job out of what waits. */
  lemma TakenOut(at: Places, at': Places, job: Job)
    requires Waiting(at) == Waiting(at') + multiset{job} && at'.running == at.running
    ensures AllJobs(at') == AllJobs(at) - multiset{job} && Waiting(at') <= Waiting(at) && job in AllJobs(at)
  {
    assert AllJobs(at) == AllJobs(at') + multiset{job};
  }

  lemma RefusedOut(at: Places, job: Job)
    requires job in at.refused
    ensures var at' := at.(refused := at.refused - multiset{job});
            AllJobs(at') == AllJobs(at) - multiset{job} && Waiting(at') <= Waiting(at) && job in AllJobs(at)
  {
    var at' := at.(refused := at.refused - multiset{job});
    assert at.refused == at'.refused + multiset{job};
    TakenOut(at, at', job);
  }

  lemma AnswerRefusedJobs(at: Places, g: Registry, job: Job)
    requires JobsMatch(at, g) && job in at.refused
    ensures JobsMatch(at.(refused := at.refused - multiset{job}), Fail(g, job))
  {
    var at' := at.(refused := at.refused - multiset{job});
    RefusedOut(at, job);
    FailEnds(g, job);
    EndedJob(at, at', g, Fail(g, job), job);
  }

  lemma FailDoomedJobs(at: Places, g: Registry)
    requires JobsMatch(at, g) && at.doomed != []
    ensures JobsMatch(at.(doomed := at.doomed[1..]), Fail(g, at.doomed[0]))
  {
    var at', job := at.(doomed := at.doomed[1..]), at.doomed[0];
    HeadOut(at.doomed);
    TakenOut(at, at', job);
    FailEnds(g, job);
    EndedJob(at, at', g, Fail(g, job), job);
  }

  lemma DoomJobs(at: Places, at': Places, g: Registry)
    requires JobsMatch(at, g) && at.doomed == []
    requires || (at.queue != [] && at' == at.(doomed := [at.queue[0]], queue := at.queue[1..]))
             || at' == at.(doomed := at.backlog, backlog := [])
    ensures JobsMatch(at', g)
  {
    if at.queue != [] { HeadOut(at.queue); }
    assert Waiting(at') == Waiting(at);
    MovedJobsKeep(at, at', g);
  }
}
