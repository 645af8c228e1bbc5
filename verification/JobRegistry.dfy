/** The registries as the source keeps them: maps and lists changed in place under a lock. */
module JobRegistry {
  import opened Common
  import opened Receipts
  import opened JobProtocol

  ghost function Told(replies: map<Waiter, Reply>, ws: seq<Waiter>, reply: Reply): map<Waiter, Reply> {
    replies + map w | w in ws :: reply
  }

  lemma ToldOneMore(replies: map<Waiter, Reply>, ws: seq<Waiter>, w: Waiter, reply: Reply)
    ensures Told(replies, ws, reply)[w := reply] == Told(replies, ws + [w], reply)
  {
    var a, b := Told(replies, ws, reply)[w := reply], Told(replies, ws + [w], reply);
    assert a.Keys == b.Keys;
    forall v | v in a.Keys ensures a[v] == b[v] {}
  }

  lemma {:induction false} OpenStep(ws: seq<Waiter>, dropped: set<Waiter>, i: nat)
    requires i < |ws|
    ensures Open(ws[..i + 1], dropped) == Open(ws[..i], dropped) + if ws[i] in dropped then [] else [ws[i]]
  {
    if i == 0 {
      assert ws[..1] == [ws[0]] && ws[..1][1..] == [] && ws[..0] == [];
    } else {
      OpenStep(ws[1..], dropped, i - 1);
      assert ws[..i + 1][1..] == ws[1..][..i] && ws[..i][1..] == ws[1..][..i - 1];
    }
  }

  lemma {:induction false} RecoverFillStep(resumptions: map<JobKey, seq<Waiter>>, backlog: seq<Job>,
                                           pending: seq<JobKey>, i: nat)
    requires i < |pending|
    ensures var (m, b) := RecoverFill(resumptions, backlog, pending[..i]);
            RecoverFill(resumptions, backlog, pending[..i + 1]) ==
            if pending[i] in m then (m, b) else (m[pending[i] := []], b + [Resume(pending[i])])
    decreases |pending|
  {
    if i == 0 {
      assert pending[..1] == [pending[0]] && pending[..1][1..] == [] && pending[..0] == [];
    } else {
      assert pending[..i + 1][1..] == pending[1..][..i] && pending[..i][1..] == pending[1..][..i - 1];
      if pending[0] in resumptions { RecoverFillStep(resumptions, backlog, pending[1..], i - 1); }
      else { RecoverFillStep(resumptions[pending[0] := []], backlog + [Resume(pending[0])], pending[1..], i - 1); }
    }
  }

  class Inner {
    const config: Config
    var jobs: map<JobKey, JobRecord>
    var resumptions: map<JobKey, seq<Waiter>>
    var backlog: seq<Job>
    var recovered: bool
    var dropped: set<Waiter>           // which receivers are closed is the environment's choice
    ghost var claims: map<Waiter, Claim>
    ghost var pruned: set<Waiter>
    ghost var delivered: multiset<Waiter>
    ghost var replies: map<Waiter, Reply>

    ghost function Reg(): Registry
      reads this
    {
      Registry(jobs, resumptions, claims, dropped, pruned, delivered, replies)
    }

    constructor (config: Config)
      ensures this.config == config && Reg() == EMPTY_REGISTRY && backlog == [] && !recovered
    {
      this.config := config;
      jobs, resumptions, backlog, recovered, dropped := map[], map[], [], false, {};
      claims, pruned, delivered, replies := map[], {}, multiset{}, map[];
    }

    /** Sends `reply` to each waiter in order; a waiter is consumed by its send. */
    method Answer(ws: seq<Waiter>, reply: Reply)
      modifies this`delivered, this`replies
      ensures Reg() == Deliver(old(Reg()), ws, reply)
    {
      var i := 0;
      assert ws[..0] == [];
      assert Told(replies, [], reply) == replies;
      while i < |ws|
        invariant 0 <= i <= |ws|
        invariant delivered == old(delivered) + multiset(ws[..i]) && replies == Told(old(replies), ws[..i], reply)
      {
        assert ws[..i + 1] == ws[..i] + [ws[i]];
        ToldOneMore(old(replies), ws[..i], ws[i], reply);
        delivered := delivered + multiset{ws[i]};
        replies := replies[ws[i] := reply];
        i := i + 1;
      }
      assert ws[..|ws|] == ws;
    }

    /** `cleanup_jobs` */
    method CleanupJobs(now: nat)
      modifies this`jobs
      ensures Reg() == Swept(config, old(Reg()), now)
    {
      var todo, before := jobs.Keys, jobs;
      while todo != {}
        invariant todo <= before.Keys && jobs.Keys <= before.Keys
        invariant forall k :: k in before ==> (k in jobs <==> k in todo || Kept(before[k], now, config.terminalTtl))
        invariant forall k :: k in jobs ==> jobs[k] == before[k]
        decreases todo
      {
        var k :| k in todo;
        if !Kept(jobs[k], now, config.terminalTtl) { jobs := jobs - {k}; }
        todo := todo - {k};
      }
      assert jobs == Swept(config, old(Reg()), now).jobs;
    }

    /** `retain(|waiter| !waiter.is_closed())` on one list */
    method Retain(ws: seq<Waiter>) returns (open: seq<Waiter>)
      modifies this`pruned
      ensures open == Open(ws, dropped)
      ensures pruned == old(pruned) + Closed(ws, dropped)
    {
      open := [];
      var i := 0;
      assert ws[..0] == [];
      while i < |ws|
        invariant 0 <= i <= |ws| && open == Open(ws[..i], dropped) && pruned == old(pruned)
      {
        OpenStep(ws, dropped, i);
        if ws[i] !in dropped { open := open + [ws[i]]; }
        i := i + 1;
      }
      assert ws[..|ws|] == ws;
      pruned := pruned + Closed(ws, dropped);
    }

    method JoinPrepared(k: JobKey, w: Waiter) returns (result: SubmitResult)
      requires k in jobs
      modifies this`jobs, this`claims, this`pruned
      ensures (Reg(), result) == JoinQueued(config, old(Reg()), k, w)
    {
      var open := Retain(jobs[k].prepared);
      if |open| >= config.maxWaiters {
        jobs := jobs[k := jobs[k].(prepared := open)];
        return WaitersFull;
      }
      jobs := jobs[k := jobs[k].(prepared := open + [w])];
      claims := claims[w := Claim(k, Submission)];
      return Wait;
    }

    /** `existing_submission` */
    method ExistingSubmission(k: JobKey, fingerprint: string, revision: Option<string>, now: nat, w: Waiter)
      returns (result: SubmitResult)
      modifies this`jobs, this`claims, this`pruned
      ensures (Reg(), result) == Existing(config, Swept(config, old(Reg()), now), k, fingerprint, revision, w)
    {
      CleanupJobs(now);
      if k !in jobs { return Absent; }
      var job := jobs[k];
      if job.fingerprint != fingerprint || (revision.Some? && revision.value != job.revision) { return Conflict; }
      match job.state {
        case Prepared(r) => return Replay(r);
        case Finished(r) => if r.persistence == DurabilityUncertain { return Reconcile; } return Replay(r);
        case Queued => result := JoinPrepared(k, w);
      }
    }

    /** The locked block of `submit_inner` */
    method SubmitSection(k: JobKey, fingerprint: string, revision: Option<string>, base: string, now: nat, w: Waiter)
      returns (result: SubmitResult)
      modifies this`jobs, this`claims, this`pruned
      ensures (Reg(), result) == Submit(config, Swept(config, old(Reg()), now), k, fingerprint, revision, base, now, w)
    {
      CleanupJobs(now);
      if k in jobs {
        var job := jobs[k];
        if job.fingerprint != fingerprint || (revision.Some? && revision.value != job.revision) { return Conflict; }
        match job.state {
          case Prepared(r) => return Replay(r);
          case Finished(r) => return Replay(r);
          case Queued => result := JoinPrepared(k, w);
        }
      } else if |jobs| >= config.maxJobs {
        return RegistryFull;
      } else {
        jobs := jobs[k := JobRecord(fingerprint, base, Queued, now, [w], [])];
        claims := claims[w := Claim(k, Submission)];
        return Enqueue;
      }
    }

    /** `fail_before_intent` */
    method FailBeforeIntent(k: JobKey)
      modifies this`jobs, this`delivered, this`replies
      ensures Reg() == JobProtocol.FailBeforeIntent(old(Reg()), k)
    {
      if k in jobs {
        var job := jobs[k];
        jobs := jobs - {k};
        Answer(job.prepared, Refused);
        Answer(job.terminal, Refused);
      }
    }

    /** `prepared` */
    method Prepared(k: JobKey, receipt: Receipt, now: nat)
      modifies this`jobs, this`delivered, this`replies
      ensures Reg() == MarkPrepared(old(Reg()), k, receipt, now)
    {
      if k !in jobs { return; }
      var waiters := jobs[k].prepared;
      jobs := jobs[k := jobs[k].(updated := now, state := JobState.Prepared(receipt), prepared := [])];
      Answer(waiters, Accepted(receipt));
    }

    /** `update_in_progress` */
    method UpdateInProgress(k: JobKey, receipt: Receipt, now: nat)
      modifies this`jobs
      ensures Reg() == JobProtocol.UpdateInProgress(old(Reg()), k, receipt, now)
    {
      if k in jobs && jobs[k].state.Prepared? {
        jobs := jobs[k := jobs[k].(updated := now, state := JobState.Prepared(receipt))];
      }
    }

    /** `finished` */
    method Finished(k: JobKey, receipt: Receipt, now: nat)
      modifies this`jobs, this`delivered, this`replies
      ensures Reg() == MarkFinished(old(Reg()), k, receipt, now)
    {
      if k !in jobs { return; }
      var job := jobs[k];
      jobs := jobs[k := job.(updated := now, state := JobState.Finished(receipt), prepared := [], terminal := [])];
      Answer(job.prepared, if job.state.Queued? then Accepted(receipt) else Replayed(receipt));
      Answer(job.terminal, Completed(receipt));
    }

    /** The locked block of `wait_terminal`: a scan for the operation, then a wait or an answer. */
    method WaitTerminalSection(actor: string, operationId: string, now: nat, w: Waiter) returns (result: TerminalResult)
      modifies this`jobs, this`claims, this`pruned
      ensures var g := Swept(config, old(Reg()), now);
              || (exists k :: k in g.jobs && k.actor == actor && Names(g.jobs[k], operationId)
                              && (Reg(), result) == WaitTerminal(config, g, k, operationId, w))
              || ((forall k :: k in g.jobs && k.actor == actor ==> !Names(g.jobs[k], operationId))
                  && Reg() == g && result == LookDurable)
    {
      CleanupJobs(now);
      ghost var g := Reg();
      var todo := jobs.Keys;
      while todo != {}
        invariant todo <= jobs.Keys && Reg() == g
        invariant forall k :: k in jobs && k.actor == actor && k !in todo ==> !Names(jobs[k], operationId)
        decreases todo
      {
        var k :| k in todo;
        if k.actor == actor && Names(jobs[k], operationId) {
          if jobs[k].state.Finished? {
            var receipt := jobs[k].state.receipt;
            result := if receipt.persistence == DurabilityUncertain then LookDurable else Done(receipt);
          } else {
            var open := Retain(jobs[k].terminal);
            if |open| >= config.maxWaiters {
              jobs := jobs[k := jobs[k].(terminal := open)];
              result := TerminalFull;
            } else {
              jobs := jobs[k := jobs[k].(terminal := open + [w])];
              claims := claims[w := Claim(k, Terminal)];
              result := TerminalWait;
            }
          }
          assert (Reg(), result) == WaitTerminal(config, g, k, operationId, w);
          return;
        }
        todo := todo - {k};
      }
      return LookDurable;
    }

    /** `admit_resumption` */
    method AdmitResumption(k: JobKey, receipt: Receipt, now: nat, w: Waiter) returns (result: AdmitResult)
      modifies this`jobs, this`resumptions, this`claims, this`pruned
      ensures (Reg(), result) == Admit(config, Swept(config, old(Reg()), now), k, receipt, w)
    {
      CleanupJobs(now);
      if k in jobs {
        var state := jobs[k].state;
        if state.Queued? || (state.Prepared? && state.receipt.operationId == receipt.operationId) { return Live; }
        if state.Finished? && state.receipt.operationId == receipt.operationId
           && !RequiresPostCommitCompletion(state.receipt)
        {
          return Current(state.receipt);
        }
      }
      if k in resumptions {
        var open := Retain(resumptions[k]);
        if |open| >= config.maxWaiters {
          resumptions := resumptions[k := open];
          return ResumptionFull;
        }
        resumptions := resumptions[k := open + [w]];
        claims := claims[w := Claim(k, Resumption)];
        return WaitResumption;
      }
      if |jobs| + |resumptions| >= config.maxJobs { return AdmitRegistryFull; }
      resumptions := resumptions[k := [w]];
      claims := claims[w := Claim(k, Resumption)];
      return Start;
    }

    /** The second half of `finish_resumption`, and `fail_resumption` */
    method EndResumption(k: JobKey, reply: Reply)
      modifies this`resumptions, this`delivered, this`replies
      ensures Reg() == JobProtocol.EndResumption(old(Reg()), k, reply)
    {
      if k in resumptions {
        var waiters := resumptions[k];
        resumptions := resumptions - {k};
        Answer(waiters, reply);
      }
    }

    /** `reconcile_uncertain` */
    method ReconcileUncertain(k: JobKey, receipt: Receipt, now: nat)
      modifies this`jobs
      ensures Reg() == JobProtocol.ReconcileUncertain(old(Reg()), k, receipt, now)
    {
      if k in jobs && jobs[k].state.Finished? && jobs[k].state.receipt.persistence == DurabilityUncertain {
        jobs := jobs[k := jobs[k].(updated := now, state := JobState.Finished(receipt))];
      }
    }

    /** `reconcile_operation`: at most the first finished record of the operation is refreshed. */
    method ReconcileOperation(receipt: Receipt, now: nat)
      modifies this`jobs
      ensures var g := old(Reg());
              || (exists k ::
                    && k in g.jobs
                    && g.jobs[k].state.Finished?
                    && g.jobs[k].state.receipt.operationId == receipt.operationId
                    && Reg() == JobProtocol.ReconcileOperation(g, k, receipt, now))
              || ((forall k :: k in g.jobs && g.jobs[k].state.Finished? ==>
                     g.jobs[k].state.receipt.operationId != receipt.operationId)
                  && Reg() == g)
    {
      var todo := jobs.Keys;
      while todo != {}
        invariant todo <= jobs.Keys && Reg() == old(Reg())
        invariant forall k :: k in jobs && k !in todo && jobs[k].state.Finished? ==>
          jobs[k].state.receipt.operationId != receipt.operationId
        decreases todo
      {
        var k :| k in todo;
        if jobs[k].state.Finished? && jobs[k].state.receipt.operationId == receipt.operationId {
          jobs := jobs[k := jobs[k].(updated := now, state := JobState.Finished(receipt))];
          assert Reg() == JobProtocol.ReconcileOperation(old(Reg()), k, receipt, now);
          return;
        }
        todo := todo - {k};
      }
    }

    /** The locked block of `recover_once` */
    method RecoverSection(pending: seq<JobKey>)
      modifies this`resumptions, this`backlog, this`recovered
      ensures (resumptions, backlog) == RecoverFill(old(resumptions), old(backlog), pending) && recovered
    {
      var i := 0;
      assert pending[..0] == [];
      while i < |pending|
        invariant 0 <= i <= |pending|
        invariant (resumptions, backlog) == RecoverFill(old(resumptions), old(backlog), pending[..i])
      {
        RecoverFillStep(old(resumptions), old(backlog), pending, i);
        if pending[i] !in resumptions {
          resumptions := resumptions[pending[i] := []];
          backlog := backlog + [Resume(pending[i])];
        }
        i := i + 1;
      }
      assert pending[..|pending|] == pending;
      recovered := true;
    }
  }
}
