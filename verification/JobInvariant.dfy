/** What every step of the job supervisor keeps. */
module JobInvariant {
  import opened Receipts
  import opened JobProtocol

  ghost function One(b: bool): nat { if b then 1 else 0 }

  // ---------------------------------------------------------- one job per key

  /** Jobs that no task has picked up yet. */
  ghost function Waiting(at: Places): multiset<Job> {
    at.sending + at.refused + multiset(at.queue) + multiset(at.doomed) + multiset(at.backlog)
  }

  /** Every job there is, wherever it is. */
  ghost function AllJobs(at: Places): multiset<Job> {
    Waiting(at) + at.running
  }

  ghost predicate Unfinished(jobs: map<JobKey, JobRecord>, k: JobKey) {
    k in jobs && !jobs[k].state.Finished?
  }

  /** Exactly one job for a live key, none for any other. */
  ghost predicate OneJobPerKey(all: multiset<Job>, jobs: map<JobKey, JobRecord>, resumed: set<JobKey>) {
    && (forall k :: all[Apply(k)] == One(Unfinished(jobs, k)))
    && (forall k :: all[Resume(k)] == One(k in resumed))
  }

  /** A submission no task has picked up is still queued. */
  ghost predicate WaitingIsQueued(waiting: multiset<Job>, jobs: map<JobKey, JobRecord>) {
    forall k :: Apply(k) in waiting ==> k in jobs && jobs[k].state.Queued?
  }

  ghost predicate JobsMatch(at: Places, g: Registry) {
    && OneJobPerKey(AllJobs(at), g.jobs, g.resumptions.Keys)
    && WaitingIsQueued(Waiting(at), g.jobs)
    && (forall job :: job in at.backlog ==> job.Resume?)
  }

  // ------------------------------------------------------ waiter conservation

  /** The waiters registered under one claim and not yet answered or pruned. */
  ghost function List(g: Registry, claim: Claim): seq<Waiter> {
    match claim
    case Claim(k, Submission) => if k in g.jobs then g.jobs[k].prepared else []
    case Claim(k, Terminal) => if k in g.jobs then g.jobs[k].terminal else []
    case Claim(k, Resumption) => if k in g.resumptions then g.resumptions[k] else []
  }

  ghost predicate Held(g: Registry, w: Waiter)
    requires w in g.claims
  {
    w in List(g, g.claims[w])
  }

  /** A held waiter sits once, under its own key, in the list of its own kind. */
  ghost predicate ListMatches(g: Registry, claim: Claim) {
    && Distinct(List(g, claim))
    && forall w :: w in List(g, claim) ==> w in g.claims && g.claims[w] == claim
  }

  ghost predicate ReplyFits(kind: WaiterKind, reply: Reply) {
    reply.Refused? || if kind.Submission? then reply.Accepted? else reply.Completed?
  }

  /** Every registered waiter is held, pruned after its receiver closed, or answered exactly once. */
  ghost predicate Accounted(g: Registry, w: Waiter)
    requires w in g.claims
  {
    && g.delivered[w] == One(!Held(g, w) && w !in g.pruned)
    && (w in g.pruned ==> !Held(g, w) && w in g.dropped)
    && (w in g.replies <==> g.delivered[w] == 1)
    && (w in g.replies ==> ReplyFits(g.claims[w].kind, g.replies[w]))
  }

  ghost predicate WaitersConserved(g: Registry) {
    && (forall claim :: ListMatches(g, claim))
    && (forall w :: w in g.claims ==> Accounted(g, w))
    && (forall w :: w !in g.claims ==> w !in g.pruned && g.delivered[w] == 0 && w !in g.replies)
  }

  /** A phase holds only the waiters it can still answer. */
  ghost predicate PhaseLists(rec: JobRecord) {
    match rec.state
    case Queued => rec.terminal == []
    case Prepared(_) => rec.prepared == []
    case Finished(_) => rec.prepared == [] && rec.terminal == []
  }

  ghost predicate Phases(g: Registry) {
    forall k :: k in g.jobs ==> PhaseLists(g.jobs[k])
  }

  // --------------------------------------------------------- bounds, the loop

  ghost predicate RegistryBounded(c: Config, g: Registry) {
    && |g.jobs| <= c.maxJobs
    && (forall k :: k in g.jobs ==> |g.jobs[k].prepared| <= c.maxWaiters && |g.jobs[k].terminal| <= c.maxWaiters)
    && (forall k :: k in g.resumptions ==> |g.resumptions[k]| <= c.maxWaiters)
  }

  ghost predicate LoopConsistent(c: Config, s: State) {
    var p := s.loop.point;
    && |s.at.queue| <= c.queueCapacity
    && |s.at.running| <= c.concurrency
    && (p.NotStarted? ==> Tasks(s) == 0)
    && (p.NotStarted? || p.Serving? ==> s.at.doomed == [] && !s.loop.queueClosed)
    && (Stopping(p) || p.Returned? ==> s.loop.queueClosed && !s.loop.accepting)
    && (p.DrainBacklog? || p.CheckTasks? || p.Returned? ==> s.at.queue == [] && (s.at.backlog != [] ==> Tasks(s) > 0))
    && (p.CheckTasks? || p.Returned? ==> s.at.doomed == [])
    && (p.Returned? ==> Tasks(s) == 0)
  }

  ghost predicate Inv(c: Config, s: State) {
    && JobsMatch(s.at, s.reg)
    && WaitersConserved(s.reg)
    && Phases(s.reg)
    && RegistryBounded(c, s.reg)
    && LoopConsistent(c, s)
  }

  // ------------------------------------------------- how waiter lists change

  lemma SameListsKeep(g: Registry, h: Registry)
    requires WaitersConserved(g)
    requires h.claims == g.claims
    requires h.dropped == g.dropped
    requires h.pruned == g.pruned
    requires h.delivered == g.delivered
    requires h.replies == g.replies
    requires forall claim :: List(h, claim) == List(g, claim)
    ensures WaitersConserved(h)
  {
    forall claim ensures ListMatches(h, claim) { assert ListMatches(g, claim); }
    forall w | w in h.claims ensures Accounted(h, w) { assert Accounted(g, w); }
  }

  lemma {:induction false} DistinctCount(ws: seq<Waiter>, w: Waiter)
    requires Distinct(ws)
    ensures multiset(ws)[w] == One(w in ws)
  {
    if ws != [] {
      DistinctCount(ws[1..], w);
      assert ws == [ws[0]] + ws[1..];
    }
  }

  /** Answering and emptying one list. */
  lemma AnswerKeeps(g: Registry, h: Registry, claim: Claim, reply: Reply)
    requires WaitersConserved(g) && ReplyFits(claim.kind, reply)
    requires h.claims == g.claims && h.dropped == g.dropped && h.pruned == g.pruned
    requires List(h, claim) == [] && forall x :: x != claim ==> List(h, x) == List(g, x)
    requires h.delivered == g.delivered + multiset(List(g, claim))
    requires h.replies == g.replies + map w | w in List(g, claim) :: reply
    ensures WaitersConserved(h)
  {
    var ws := List(g, claim);
    assert ListMatches(g, claim);
    forall x ensures ListMatches(h, x) { assert ListMatches(g, x); }
    forall w ensures multiset(ws)[w] == One(w in ws) { DistinctCount(ws, w); }
    forall w | w in h.claims ensures Accounted(h, w) { assert Accounted(g, w); }
  }

  function WithoutSubmitters(g: Registry, k: JobKey, reply: Reply): Registry
    requires k in g.jobs
  {
    Deliver(g.(jobs := g.jobs[k := g.jobs[k].(prepared := [])]), g.jobs[k].prepared, reply)
  }

  lemma SubmittersLeave(g: Registry, k: JobKey, reply: Reply)
    requires k in g.jobs
    ensures var h := WithoutSubmitters(g, k, reply);
      && List(h, Claim(k, Submission)) == [] && forall x :: x != Claim(k, Submission) ==> List(h, x) == List(g, x)
  {
  }

  lemma NobodyAnswered(g: Registry, k: JobKey, reply: Reply)
    requires WaitersConserved(g) && k in g.jobs && g.jobs[k].prepared == []
    ensures WaitersConserved(WithoutSubmitters(g, k, reply))
  {
    var h := WithoutSubmitters(g, k, reply);
    SubmittersLeave(g, k, reply);
    assert h.delivered == g.delivered && h.replies == g.replies;
    SameListsKeep(g, h);
  }

  lemma AnswerSubmittersKeeps(g: Registry, k: JobKey, reply: Reply)
    requires WaitersConserved(g) && k in g.jobs && (g.jobs[k].prepared == [] || ReplyFits(Submission, reply))
    ensures WaitersConserved(WithoutSubmitters(g, k, reply))
  {
    if g.jobs[k].prepared == [] {
      NobodyAnswered(g, k, reply);
    } else {
      SubmittersLeave(g, k, reply);
      AnswerKeeps(g, WithoutSubmitters(g, k, reply), Claim(k, Submission), reply);
    }
  }

  /** Answering and emptying both lists of one record. */
  lemma AnswerBothKeeps(g: Registry, h: Registry, k: JobKey, first: Reply, second: Reply)
    requires WaitersConserved(g) && k in g.jobs
    requires h.claims == g.claims && h.dropped == g.dropped && h.pruned == g.pruned
    requires List(h, Claim(k, Submission)) == [] && List(h, Claim(k, Terminal)) == []
    requires forall x :: x != Claim(k, Submission) && x != Claim(k, Terminal) ==> List(h, x) == List(g, x)
    requires h.delivered == g.delivered + multiset(g.jobs[k].prepared) + multiset(g.jobs[k].terminal)
    requires h.replies ==
      g.replies + (map w | w in g.jobs[k].prepared :: first) + (map w | w in g.jobs[k].terminal :: second)
    requires g.jobs[k].prepared == [] || ReplyFits(Submission, first)
    requires ReplyFits(Terminal, second)
    ensures WaitersConserved(h)
  {
    var mid := WithoutSubmitters(g, k, first);
    AnswerSubmittersKeeps(g, k, first);
    SubmittersLeave(g, k, first);
    assert List(mid, Claim(k, Terminal)) == g.jobs[k].terminal;
    AnswerKeeps(mid, h, Claim(k, Terminal), second);
  }

  /** Dropping the closed waiters of one list, then registering a fresh one if there was room. */
  lemma JoinKeeps(c: Config, g: Registry, h: Registry, claim: Claim, w: Waiter)
    requires WaitersConserved(g) && w !in g.claims
    requires h.claims == Claimed(c, g, List(g, claim), w, claim)
    requires h.dropped == g.dropped && h.delivered == g.delivered && h.replies == g.replies
    requires List(h, claim) == Joined(c, List(g, claim), g.dropped, w)
    requires h.pruned == g.pruned + Closed(List(g, claim), g.dropped)
    requires forall x :: x != claim ==> List(h, x) == List(g, x)
    ensures WaitersConserved(h)
  {
    OpenKeepsLiveOnes(List(g, claim), g.dropped);
    assert ListMatches(g, claim);
    forall x ensures ListMatches(h, x) { assert ListMatches(g, x); }
    forall v | v in h.claims ensures Accounted(h, v) {
      if v in g.claims { assert Accounted(g, v); }
    }
  }

  // ---------------------------------------------------- how jobs and records move

  lemma AddedJob(all: multiset<Job>, jobs: map<JobKey, JobRecord>, jobs': map<JobKey, JobRecord>, keys: set<JobKey>,
                 keys': set<JobKey>, job: Job)
    requires OneJobPerKey(all, jobs, keys)
    requires forall k :: Unfinished(jobs', k) <==> Unfinished(jobs, k) || job == Apply(k)
    requires forall k :: k in keys' <==> k in keys || job == Resume(k)
    requires if job.Apply? then !Unfinished(jobs, job.key) else job.key !in keys
    ensures OneJobPerKey(all + multiset{job}, jobs', keys')
  {
  }

  lemma RemovedJob(all: multiset<Job>, jobs: map<JobKey, JobRecord>, jobs': map<JobKey, JobRecord>,
                   keys: set<JobKey>, keys': set<JobKey>, job: Job)
    requires OneJobPerKey(all, jobs, keys) && job in all
    requires forall k :: Unfinished(jobs', k) <==> Unfinished(jobs, k) && job != Apply(k)
    requires forall k :: k in keys' <==> k in keys && job != Resume(k)
    ensures OneJobPerKey(all - multiset{job}, jobs', keys')
    ensures (all - multiset{job})[job] == 0
  {
  }
}
