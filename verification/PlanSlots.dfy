/**
 Prepared plans. A plan's slot is reserved before planning starts and is shared
 by the stored plan and every copy handed to a submission; it is free again when
 the last of them is gone.
 */
module PlanSlots {
  import opened Common

  type Permit = nat
  type PlanId = string
  type CopyId = nat

  datatype Plan = Plan(actor: string, created: nat, permit: Permit)

  /** Stored plans, reservations still planning, copies taken out by submissions. */
  datatype State = State(plans: map<PlanId, Plan>, planning: set<Permit>, copies: map<CopyId, Permit>)

  datatype Step =
    | Reserve(permit: Permit, now: nat)
    | GiveUp(permit: Permit)
    | Store(permit: Permit, id: PlanId, actor: string, now: nat)
    | Take(copy: CopyId, id: PlanId, actor: string, now: nat)
    | Drop(copy: CopyId)
    | Sweep(now: nat)            // all that a reservation, store or lookup that fails has done

  function Swept(s: State, now: nat, ttl: nat): State {
    s.(plans := map id | id in s.plans && Elapsed(now, s.plans[id].created) < ttl :: s.plans[id])
  }

  function Permits(plans: map<PlanId, Plan>): set<Permit> { set id | id in plans :: plans[id].permit }
  function Held(copies: map<CopyId, Permit>): set<Permit> { set c | c in copies :: copies[c] }

  /** The semaphore counts the permits something still holds. */
  function InUse(s: State): set<Permit> { Permits(s.plans) + s.planning + Held(s.copies) }

  /** A reservation succeeds only if the semaphore has one left, and gets one nobody holds. */
  predicate Enabled(s: State, step: Step, max: nat, ttl: nat) {
    match step
    case Reserve(p, now) => var s1 := Swept(s, now, ttl); |InUse(s1)| < max && p !in InUse(s1)
    case GiveUp(p) => p in s.planning
    case Store(p, id, _, now) => p in s.planning && id !in Swept(s, now, ttl).plans
    case Take(c, id, actor, now) => c !in s.copies && id in Swept(s, now, ttl).plans && s.plans[id].actor == actor
    case Drop(c) => c in s.copies
    case Sweep(_) => true
  }

  function Next(s: State, step: Step, max: nat, ttl: nat): State
    requires Enabled(s, step, max, ttl)
  {
    match step
    case Reserve(p, now) => var s1 := Swept(s, now, ttl); s1.(planning := s1.planning + {p})
    case GiveUp(p) => s.(planning := s.planning - {p})
    case Store(p, id, actor, now) =>
      var s1 := Swept(s, now, ttl);
      State(s1.plans[id := Plan(actor, now, p)], s1.planning - {p}, s1.copies)
    case Take(c, id, _, now) => var s1 := Swept(s, now, ttl); s1.(copies := s1.copies[c := s1.plans[id].permit])
    case Drop(c) => s.(copies := map d | d in s.copies && d != c :: s.copies[d])
    case Sweep(now) => Swept(s, now, ttl)
  }

  ghost predicate OwnPermits(plans: map<PlanId, Plan>) {
    forall a, b :: a in plans && b in plans && plans[a].permit == plans[b].permit ==> a == b
  }

  /** Each stored plan has a permit of its own, none of them still planning, and no more are in use than exist. */
  ghost predicate Inv(s: State, max: nat) {
    OwnPermits(s.plans) && Within(Permits(s.plans), s.planning, Held(s.copies), max)
  }

  ghost predicate Within(stored: set<Permit>, planning: set<Permit>, held: set<Permit>, max: nat) {
    stored !! planning && held !! planning && |stored + planning + held| <= max
  }

  lemma Moved(stored: set<Permit>, planning: set<Permit>, held: set<Permit>, p: Permit, max: nat)
    requires Within(stored, planning, held, max) && p in planning
    ensures Within(stored + {p}, planning - {p}, held, max) && p !in stored
  {
    assert stored + {p} + (planning - {p}) + held == stored + planning + held;
  }

  lemma Copied(stored: set<Permit>, planning: set<Permit>, held: set<Permit>, p: Permit, max: nat)
    requires Within(stored, planning, held, max) && p in stored
    ensures Within(stored, planning, held + {p}, max)
  {
    assert stored + planning + (held + {p}) == stored + planning + held;
  }

  lemma Reserved(stored: set<Permit>, planning: set<Permit>, held: set<Permit>, p: Permit, max: nat)
    requires Within(stored, planning, held, max) && p !in stored + planning + held && |stored + planning + held| < max
    ensures Within(stored, planning + {p}, held, max)
  {
    assert stored + (planning + {p}) + held == stored + planning + held + {p};
  }

  lemma Released(stored: set<Permit>, planning: set<Permit>, held: set<Permit>, max: nat, stored': set<Permit>,
                 planning': set<Permit>, held': set<Permit>)
    requires Within(stored, planning, held, max) && stored' <= stored && planning' <= planning && held' <= held
    ensures Within(stored', planning', held', max)
  {
    SubsetSize(stored' + planning' + held', stored + planning + held);
  }

  lemma PlanAdded(plans: map<PlanId, Plan>, id: PlanId, plan: Plan)
    requires id !in plans && OwnPermits(plans) && plan.permit !in Permits(plans)
    ensures Permits(plans[id := plan]) == Permits(plans) + {plan.permit} && OwnPermits(plans[id := plan])
  {
    var after := plans[id := plan];
    assert after[id].permit in Permits(after);
    forall a | a in plans ensures plans[a].permit in Permits(after) && plans[a].permit != plan.permit {
      assert after[a] == plans[a] && plans[a].permit in Permits(plans);
    }
  }

  lemma CopyAdded(copies: map<CopyId, Permit>, c: CopyId, p: Permit)
    requires c !in copies
    ensures Held(copies[c := p]) == Held(copies) + {p}
  {
    var after := copies[c := p];
    assert after[c] in Held(after);
    forall d | d in copies ensures copies[d] in Held(after) { assert after[d] == copies[d]; }
  }

  lemma SweepKeeps(s: State, now: nat, ttl: nat, max: nat)
    requires Inv(s, max)
    ensures Inv(Swept(s, now, ttl), max)
  {
    var held := Held(s.copies);
    Released(Permits(s.plans), s.planning, held, max, Permits(Swept(s, now, ttl).plans), s.planning, held);
  }

  lemma StoreKeeps(s: State, id: PlanId, plan: Plan, max: nat)
    requires Inv(s, max) && plan.permit in s.planning && id !in s.plans
    ensures Inv(State(s.plans[id := plan], s.planning - {plan.permit}, s.copies), max)
  {
    Moved(Permits(s.plans), s.planning, Held(s.copies), plan.permit, max);
    PlanAdded(s.plans, id, plan);
  }

  lemma TakeKeeps(s: State, c: CopyId, id: PlanId, max: nat)
    requires Inv(s, max) && c !in s.copies && id in s.plans
    ensures Inv(s.(copies := s.copies[c := s.plans[id].permit]), max)
  {
    CopyAdded(s.copies, c, s.plans[id].permit);
    Copied(Permits(s.plans), s.planning, Held(s.copies), s.plans[id].permit, max);
  }

  lemma ReleaseKeeps(s: State, s': State, max: nat)
    requires Inv(s, max) && s'.plans == s.plans && s'.planning <= s.planning && Held(s'.copies) <= Held(s.copies)
    ensures Inv(s', max)
  {
    Released(Permits(s.plans), s.planning, Held(s.copies), max, Permits(s'.plans), s'.planning, Held(s'.copies));
  }

  lemma StepKeepsInv(s: State, step: Step, max: nat, ttl: nat)
    requires Inv(s, max) && Enabled(s, step, max, ttl)
    ensures Inv(Next(s, step, max, ttl), max)
  {
    match step
    case Reserve(p, now) =>
      SweepKeeps(s, now, ttl, max);
      var s1 := Swept(s, now, ttl);
      Reserved(Permits(s1.plans), s1.planning, Held(s1.copies), p, max);
    case GiveUp(p) =>
      ReleaseKeeps(s, Next(s, step, max, ttl), max);
    case Store(p, id, actor, now) =>
      SweepKeeps(s, now, ttl, max);
      StoreKeeps(Swept(s, now, ttl), id, Plan(actor, now, p), max);
    case Take(c, id, _, now) =>
      SweepKeeps(s, now, ttl, max);
      TakeKeeps(Swept(s, now, ttl), c, id, max);
    case Drop(c) =>
      ReleaseKeeps(s, Next(s, step, max, ttl), max);
    case Sweep(now) =>
      SweepKeeps(s, now, ttl, max);
  }

  ghost predicate IsRun(run: seq<State>, steps: seq<Step>, max: nat, ttl: nat) {
    && |run| == |steps| + 1 && run[0] == State(map[], {}, map[])
    && forall i {:trigger Enabled(run[i], steps[i], max, ttl)} ::
         0 <= i < |steps| ==> Enabled(run[i], steps[i], max, ttl) && run[i + 1] == Next(run[i], steps[i], max, ttl)
  }

  lemma {:induction false} RunKeepsInv(run: seq<State>, steps: seq<Step>, max: nat, ttl: nat, n: nat)
    requires IsRun(run, steps, max, ttl) && n <= |steps|
    ensures Inv(run[n], max)
  {
    if n > 0 {
      RunKeepsInv(run, steps, max, ttl, n - 1);
      StepKeepsInv(run[n - 1], steps[n - 1], max, ttl);
    }
  }

  lemma {:induction false} PlansAsPermits(plans: map<PlanId, Plan>)
    requires OwnPermits(plans)
    ensures |Permits(plans)| == |plans|
    decreases |plans|
  {
    if plans != map[] {
      var x :| x in plans;
      var rest := map id | id in plans && id != x :: plans[id];
      assert rest.Keys == plans.Keys - {x};
      PlansAsPermits(rest);
      assert rest[x := plans[x]] == plans;
      PlanAdded(rest, x, plans[x]);
    }
  }

  /** In every interleaving stored plans and plans in the making together stay within the capacity. */
  lemma CapacityHolds(run: seq<State>, steps: seq<Step>, max: nat, ttl: nat, n: nat)
    requires IsRun(run, steps, max, ttl) && n <= |steps|
    ensures |run[n].plans| + |run[n].planning| <= |InUse(run[n])| <= max
  {
    RunKeepsInv(run, steps, max, ttl, n);
    var s := run[n];
    PlansAsPermits(s.plans);
    SubsetSize(Permits(s.plans) + s.planning, InUse(s));
  }

  /** A submission holding a copy keeps its slot taken even after the stored plan expired. */
  lemma CopyKeepsSlot(run: seq<State>, steps: seq<Step>, max: nat, ttl: nat, n: nat, c: CopyId)
    requires IsRun(run, steps, max, ttl) && n < |steps| && c in run[n].copies && steps[n].Reserve?
    ensures steps[n].permit != run[n].copies[c] && run[n].copies[c] in InUse(run[n + 1])
  {
    assert Enabled(run[n], steps[n], max, ttl);
    var s1 := Swept(run[n], steps[n].now, ttl);
    assert s1.copies[c] in Held(s1.copies);
    assert run[n + 1].copies[c] in Held(run[n + 1].copies);
  }

  /** A stored plan is as some planning stored it. */
  lemma {:induction false} StoredBy(run: seq<State>, steps: seq<Step>, max: nat, ttl: nat, n: nat, id: PlanId)
    returns (j: nat)
    requires IsRun(run, steps, max, ttl) && n <= |steps| && id in run[n].plans
    ensures j < n
    ensures var plan := run[n].plans[id]; steps[j] == Store(plan.permit, id, plan.actor, plan.created)
  {
    var k := n - 1;
    assert n > 0 && Enabled(run[k], steps[k], max, ttl);
    if steps[k].Store? && steps[k].id == id {
      j := k;
    } else {
      j := StoredBy(run, steps, max, ttl, k, id);
    }
  }

  /** A submission takes only a plan of its own actor, not yet expired, and its copy shares that plan's slot. */
  lemma TakenIsOwn(run: seq<State>, steps: seq<Step>, max: nat, ttl: nat, n: nat) returns (j: nat)
    requires IsRun(run, steps, max, ttl) && n < |steps| && steps[n].Take?
    ensures j < n && steps[j].Store? && steps[j].id == steps[n].id && steps[j].actor == steps[n].actor
    ensures steps[n].now < steps[j].now + ttl
    ensures steps[n].copy in run[n + 1].copies && run[n + 1].copies[steps[n].copy] == steps[j].permit
  {
    assert Enabled(run[n], steps[n], max, ttl);
    j := StoredBy(run, steps, max, ttl, n, steps[n].id);
  }
}
