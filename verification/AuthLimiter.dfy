/** Lockout after repeated authentication failures, over a table of bounded size. */
module AuthLimiter {
  import opened Common

  type Ip = nat

  const MAX_FAILURES := 10
  const LOCKOUT := 300 * SECOND
  const STALENESS := 4 * LOCKOUT
  const EVICTION_SAMPLE := 8
  const EVICTION_SCAN_LIMIT := EVICTION_SAMPLE * 4

  datatype Entry = Entry(count: nat, last: nat, until: Option<nat>)

  type Table = map<Ip, Entry>

  predicate Locked(e: Entry, now: nat) { e.until.Some? && now < e.until.value }

  // --------------------------------------------------------------------- eviction

  /** Some iteration order of the table. */
  predicate IsOrder(t: Table, order: seq<Ip>) {
    InTable(t, order) && Distinct(order) && forall ip :: ip in t ==> ip in order
  }

  predicate InTable(t: Table, order: seq<Ip>) { forall i :: 0 <= i < |order| ==> order[i] in t }

  predicate Distinct(order: seq<Ip>) { forall i, j :: 0 <= i < j < |order| ==> order[i] != order[j] }

  /** Where the scan stops that has visited `i` entries, `unlocked` of them unlocked. */
  function Stop(t: Table, order: seq<Ip>, now: nat, i: nat, unlocked: nat): (n: nat)
    requires InTable(t, order) && i <= |order|
    ensures i <= n <= |order|
    decreases |order| - i
  {
    if i == |order| || unlocked >= EVICTION_SAMPLE || i >= EVICTION_SCAN_LIMIT then i
    else Stop(t, order, now, i + 1, if Locked(t[order[i]], now) then unlocked else unlocked + 1)
  }

  /** The first of the oldest among the first `n` entries, or among the unlocked ones. */
  function Oldest(t: Table, order: seq<Ip>, n: nat, now: nat, unlockedOnly: bool): (r: Option<Ip>)
    requires InTable(t, order) && n <= |order|
    ensures r.Some? ==> r.value in t && r.value in order[..n]
  {
    if n == 0 then None
    else
      var o, ip := Oldest(t, order, n - 1, now, unlockedOnly), order[n - 1];
      if unlockedOnly && Locked(t[ip], now) then o
      else if o.None? || t[ip].last < t[o.value].last then Some(ip) else o
  }

  function Victim(t: Table, order: seq<Ip>, now: nat): Option<Ip>
    requires InTable(t, order)
  {
    var n := Stop(t, order, now, 0, 0);
    if Oldest(t, order, n, now, true).Some? then Oldest(t, order, n, now, true) else Oldest(t, order, n, now, false)
  }

  lemma {:induction false} OldestMeans(t: Table, order: seq<Ip>, n: nat, now: nat, unlockedOnly: bool)
    requires InTable(t, order) && n <= |order|
    ensures var r := Oldest(t, order, n, now, unlockedOnly);
      && (r.None? <==> forall i :: 0 <= i < n ==> unlockedOnly && Locked(t[order[i]], now))
      && (r.Some? && unlockedOnly ==> !Locked(t[r.value], now))
      && (r.Some? ==> forall i :: 0 <= i < n && !(unlockedOnly && Locked(t[order[i]], now)) ==>
          t[r.value].last <= t[order[i]].last)
  {
    if n > 0 { OldestMeans(t, order, n - 1, now, unlockedOnly); }
  }

  /** A scan that has seen no unlocked entry goes on to the limit or the end. */
  lemma {:induction false} LockedScanGoesOn(t: Table, order: seq<Ip>, now: nat, i: nat)
    requires InTable(t, order) && i <= |order|
    requires forall k :: i <= k < Stop(t, order, now, i, 0) ==> Locked(t[order[k]], now)
    ensures Stop(t, order, now, i, 0) >= Min(|order|, EVICTION_SCAN_LIMIT)
    decreases |order| - i
  {
    if i < |order| && i < EVICTION_SCAN_LIMIT {
      assert Stop(t, order, now, i, 0) > i;
      assert Locked(t[order[i]], now);
      LockedScanGoesOn(t, order, now, i + 1);
    }
  }

  lemma {:induction false} StopAtLimit(t: Table, order: seq<Ip>, now: nat, i: nat, unlocked: nat)
    requires InTable(t, order) && i <= |order| && i <= EVICTION_SCAN_LIMIT
    ensures Stop(t, order, now, i, unlocked) <= EVICTION_SCAN_LIMIT
    decreases |order| - i
  {
    if i < |order| && i < EVICTION_SCAN_LIMIT {
      StopAtLimit(t, order, now, i + 1, if Locked(t[order[i]], now) then unlocked else unlocked + 1);
    }
  }

  /** An active lockout is evicted exactly when the first min(size, 32) entries of the iteration are all locked. */
  lemma LockoutEvictedExactly(t: Table, order: seq<Ip>, now: nat)
    requires IsOrder(t, order) && t != map[]
    ensures Victim(t, order, now).Some? && Victim(t, order, now).value in t
    ensures Locked(t[Victim(t, order, now).value], now) <==>
      forall i :: 0 <= i < Min(|order|, 32) ==> Locked(t[order[i]], now)
  {
    var n, limit := Stop(t, order, now, 0, 0), Min(|order|, EVICTION_SCAN_LIMIT);
    var ip :| ip in t;
    assert ip in order;
    OldestMeans(t, order, n, now, true);
    OldestMeans(t, order, n, now, false);
    StopAtLimit(t, order, now, 0, 0);
    if forall k :: 0 <= k < n ==> Locked(t[order[k]], now) {
      LockedScanGoesOn(t, order, now, 0);
      var v := Victim(t, order, now).value;
      assert v in order[..n];
    }
  }

  /** How many of the first `k` entries are not locked. */
  function UnlockedBefore(t: Table, order: seq<Ip>, now: nat, k: nat): nat
    requires InTable(t, order) && k <= |order|
  {
    if k == 0 then 0
    else UnlockedBefore(t, order, now, k - 1) + if Locked(t[order[k - 1]], now) then 0 else 1
  }

  lemma {:induction false} ScanReaches(t: Table, order: seq<Ip>, now: nat, i: nat, k: nat)
    requires InTable(t, order) && i <= k < |order| && k < 32 && UnlockedBefore(t, order, now, k) < 8
    requires UnlockedBefore(t, order, now, i) <= UnlockedBefore(t, order, now, k)
    ensures k < Stop(t, order, now, i, UnlockedBefore(t, order, now, i))
    decreases k - i
  {
    if i < k {
      UnlockedGrows(t, order, now, i + 1, k);
      ScanReaches(t, order, now, i + 1, k);
    }
  }

  lemma {:induction false} UnlockedGrows(t: Table, order: seq<Ip>, now: nat, i: nat, k: nat)
    requires InTable(t, order) && i <= k <= |order|
    ensures UnlockedBefore(t, order, now, i) <= UnlockedBefore(t, order, now, k)
    decreases k
  {
    if i < k { UnlockedGrows(t, order, now, i, k - 1); }
  }

  /** The victim is unlocked and no younger than any of the first eight unlocked entries among the first 32. */
  lemma VictimIsOldest(t: Table, order: seq<Ip>, now: nat, k: nat)
    requires IsOrder(t, order) && k < |order| && k < 32
    requires !Locked(t[order[k]], now) && UnlockedBefore(t, order, now, k) < 8
    ensures var v := Victim(t, order, now);
      v.Some? && v.value in t && !Locked(t[v.value], now) && t[v.value].last <= t[order[k]].last
  {
    UnlockedGrows(t, order, now, 0, k);
    ScanReaches(t, order, now, 0, k);
    OldestMeans(t, order, Stop(t, order, now, 0, 0), now, true);
  }

  function LockedSet(t: Table, now: nat): set<Ip> { set ip | ip in t && Locked(t[ip], now) }

  /** The first `n` addresses of an order. */
  function Prefix(order: seq<Ip>, n: nat): (r: set<Ip>)
    requires n <= |order|
    ensures forall i :: 0 <= i < n ==> order[i] in r
  {
    if n == 0 then {} else Prefix(order, n - 1) + {order[n - 1]}
  }

  lemma {:induction false} InPrefix(order: seq<Ip>, n: nat, ip: Ip)
    requires n <= |order| && ip in Prefix(order, n)
    ensures exists i :: 0 <= i < n && order[i] == ip
  {
    if ip == order[n - 1] {
    } else {
      InPrefix(order, n - 1, ip);
    }
  }

  lemma {:induction false} DistinctPrefix(order: seq<Ip>, n: nat)
    requires n <= |order| && Distinct(order)
    ensures |Prefix(order, n)| == n
  {
    if n > 0 {
      DistinctPrefix(order, n - 1);
      if order[n - 1] in Prefix(order, n - 1) {
        InPrefix(order, n - 1, order[n - 1]);
      }
    }
  }

  lemma OrderCoversTable(t: Table, order: seq<Ip>)
    requires IsOrder(t, order)
    ensures |order| == |t|
  {
    DistinctPrefix(order, |order|);
    forall ip | ip in Prefix(order, |order|) ensures ip in t.Keys {
      InPrefix(order, |order|, ip);
    }
    assert Prefix(order, |order|) == t.Keys;
  }

  /** Whatever the iteration order, a lockout survives while fewer than min(size, 32) entries are locked. */
  lemma LockoutsSurvive(t: Table, order: seq<Ip>, now: nat)
    requires IsOrder(t, order) && t != map[] && |LockedSet(t, now)| < Min(|t|, 32)
    ensures Victim(t, order, now).Some? && Victim(t, order, now).value in t
    ensures !Locked(t[Victim(t, order, now).value], now)
  {
    LockoutEvictedExactly(t, order, now);
    OrderCoversTable(t, order);
    var m := Min(|order|, EVICTION_SCAN_LIMIT);
    if forall i :: 0 <= i < m ==> Locked(t[order[i]], now) {
      DistinctPrefix(order, m);
      forall ip | ip in Prefix(order, m) ensures ip in LockedSet(t, now) {
        InPrefix(order, m, ip);
      }
      SubsetSize(Prefix(order, m), LockedSet(t, now));
    }
  }

  // -------------------------------------------------------------------- operations

  function Evicted(t: Table, order: seq<Ip>, now: nat): Table
    requires InTable(t, order)
  {
    if Victim(t, order, now).Some? then t - {Victim(t, order, now).value} else t
  }

  function Room(t: Table, cap: nat, ip: Ip, now: nat, order: seq<Ip>): Table
    requires IsOrder(t, order)
  {
    if ip !in t && |t| >= cap then Evicted(t, order, now) else t
  }

  function Bumped(e: Option<Entry>, now: nat): Entry {
    var count := if e.Some? then e.value.count + 1 else 1;
    Entry(count, now, if count >= MAX_FAILURES then Some(now + LOCKOUT) else if e.Some? then e.value.until else None)
  }

  function Cleared(t: Table, ip: Ip, now: nat): Table {
    if ip in t && t[ip].until.Some? && now >= t[ip].until.value then t - {ip} else t
  }

  /** An active lockout, or a count last touched less than twenty minutes ago. */
  predicate Retained(e: Entry, now: nat) {
    Locked(e, now) || (e.count > 0 && (now < e.last || now - e.last < STALENESS))
  }

  function Swept(t: Table, now: nat): Table {
    map ip | ip in t && Retained(t[ip], now) :: t[ip]
  }

  class AuthRateLimiter {
    var failures: Table
    const cap: nat

    constructor (cap: nat)
      ensures this.cap == cap && failures == map[]
    {
      this.cap := cap;
      failures := map[];
    }

    method EvictOne(order: seq<Ip>, now: nat)
      requires InTable(failures, order)
      modifies this
      ensures failures == Evicted(old(failures), order, now)
    {
      var oldestUnlocked: Option<Ip>, oldestAny: Option<Ip> := None, None;
      var unlockedSeen, visited := 0, 0;
      while visited < |order| && unlockedSeen < EVICTION_SAMPLE && visited < EVICTION_SCAN_LIMIT
        invariant 0 <= visited <= |order|
        invariant oldestUnlocked == Oldest(failures, order, visited, now, true)
        invariant oldestAny == Oldest(failures, order, visited, now, false)
        invariant Stop(failures, order, now, visited, unlockedSeen) == Stop(failures, order, now, 0, 0)
      {
        var ip := order[visited];
        var entry := failures[ip];
        if !Locked(entry, now) {
          unlockedSeen := unlockedSeen + 1;
          if oldestUnlocked.None? || entry.last < failures[oldestUnlocked.value].last { oldestUnlocked := Some(ip); }
        }
        if oldestAny.None? || entry.last < failures[oldestAny.value].last { oldestAny := Some(ip); }
        visited := visited + 1;
      }
      var victim := if oldestUnlocked.Some? then oldestUnlocked else oldestAny;
      if victim.Some? { failures := failures - {victim.value}; }
    }

    method IsLockedOut(ip: Ip, now: nat) returns (locked: bool)
      modifies this
      ensures locked == (ip in old(failures) && Locked(old(failures)[ip], now))
      ensures failures == Cleared(old(failures), ip, now)
    {
      if ip in failures && failures[ip].until.Some? {
        if now < failures[ip].until.value { return true; }
        failures := failures - {ip};
      }
      return false;
    }

    method RecordFailure(ip: Ip, now: nat, order: seq<Ip>) returns (locked: bool)
      requires IsOrder(failures, order)
      modifies this
      ensures var room := Room(old(failures), cap, ip, now, order);
        failures == room[ip := Bumped(Lookup(room, ip), now)] && locked == (failures[ip].count >= MAX_FAILURES)
    {
      if ip !in failures && |failures| >= cap { EvictOne(order, now); }
      var entry := if ip in failures then failures[ip] else Entry(0, now, None);
      entry := Entry(entry.count + 1, now, entry.until);
      if entry.count >= MAX_FAILURES {
        failures := failures[ip := entry.(until := Some(now + LOCKOUT))];
        return true;
      }
      failures := failures[ip := entry];
      return false;
    }

    method RecordSuccess(ip: Ip)
      modifies this
      ensures failures == old(failures) - {ip}
    {
      failures := failures - {ip};
    }

    method Cleanup(now: nat)
      modifies this
      ensures failures == Swept(old(failures), now)
    {
      failures := map ip | ip in failures && Retained(failures[ip], now) :: failures[ip];
    }

    /** The order of calls in `auth_middleware`. */
    method Authenticate(ip: Ip, now: nat, token: Token, order: seq<Ip>) returns (r: Response)
      requires IsOrder(Cleared(failures, ip, now), order)
      modifies this
      ensures failures == Step(old(failures), cap, Attempt(ip, now, token, order))
      ensures r == Answer(old(failures), cap, Attempt(ip, now, token, order))
    {
      var locked := IsLockedOut(ip, now);
      if locked { return TooManyRequests; }
      match token {
        case Missing => return Unauthorized(false);
        case Invalid =>
          locked := RecordFailure(ip, now, order);
          return Unauthorized(locked);
        case Valid =>
          RecordSuccess(ip);
          return Accepted;
      }
    }
  }

  // ------------------------------------------------------------------------- runs

  datatype Token = Missing | Invalid | Valid
  datatype Response = TooManyRequests | Unauthorized(locked: bool) | Accepted

  datatype Event = Attempt(ip: Ip, now: nat, token: Token, order: seq<Ip>) | Sweep(now: nat)

  predicate Possible(t: Table, e: Event) {
    e.Attempt? ==> IsOrder(Cleared(t, e.ip, e.now), e.order)
  }

  predicate Refused(t: Table, e: Event) {
    e.Attempt? && e.ip in t && Locked(t[e.ip], e.now)
  }

  function Step(t: Table, cap: nat, e: Event): Table
    requires Possible(t, e)
  {
    match e
    case Sweep(now) => Swept(t, now)
    case Attempt(ip, now, token, order) =>
      if Refused(t, e) then t
      else
        var t1 := Cleared(t, ip, now);
        match token
        case Missing => t1
        case Valid => t1 - {ip}
        case Invalid => var room := Room(t1, cap, ip, now, order); room[ip := Bumped(Lookup(room, ip), now)]
  }

  function Answer(t: Table, cap: nat, e: Event): Response
    requires Possible(t, e) && e.Attempt?
  {
    if Refused(t, e) then TooManyRequests
    else
      match e.token
      case Missing => Unauthorized(false)
      case Valid => Accepted
      case Invalid => Unauthorized(Step(t, cap, e)[e.ip].count >= MAX_FAILURES)
  }

  predicate NotLater(d: Event, e: Event) { d.now <= e.now }

  ghost predicate IsRun(run: seq<Table>, events: seq<Event>, cap: nat) {
    && |run| == |events| + 1 && run[0] == map[]
    && (forall i, j {:trigger NotLater(events[i], events[j])} ::
          0 <= i <= j < |events| ==> NotLater(events[i], events[j]))
    && forall i {:trigger Possible(run[i], events[i])} ::
         0 <= i < |events| ==> Possible(run[i], events[i]) && run[i + 1] == Step(run[i], cap, events[i])
  }

  /** A counter never passes ten, and exactly a full counter carries a lockout. */
  ghost predicate Counted(t: Table) {
    forall ip :: ip in t ==> 0 < t[ip].count <= MAX_FAILURES && (t[ip].until.Some? <==> t[ip].count == MAX_FAILURES)
  }

  lemma Fewer(a: Table, b: Table)
    requires a.Keys <= b.Keys
    ensures |a| <= |b|
  {
    SubsetSize(a.Keys, b.Keys);
  }

  lemma RoomIsMade(t: Table, cap: nat, ip: Ip, now: nat, order: seq<Ip>)
    requires IsOrder(t, order)
    ensures Room(t, cap, ip, now, order).Keys <= t.Keys
    ensures forall q :: q in Room(t, cap, ip, now, order) ==> Room(t, cap, ip, now, order)[q] == t[q]
    ensures ip !in t && |t| >= cap && t != map[] ==> |Room(t, cap, ip, now, order)| == |t| - 1
    ensures ip in t ==> Room(t, cap, ip, now, order) == t
  {
    if ip !in t && |t| >= cap && t != map[] {
      LockoutEvictedExactly(t, order, now);
      var v := Victim(t, order, now).value;
      assert (t - {v}).Keys == t.Keys - {v};
    }
  }

  /** An insert at the cap trades exactly one entry, the chosen victim, for the newcomer. */
  lemma InsertAtCapEvictsOne(t: Table, cap: nat, ip: Ip, now: nat, order: seq<Ip>)
    requires IsOrder(t, order) && ip !in t && |t| >= cap && t != map[]
    ensures var t' := Step(t, cap, Attempt(ip, now, Invalid, order));
      && Victim(t, order, now).Some? && Victim(t, order, now).value in t
      && t' == (t - {Victim(t, order, now).value})[ip := Entry(1, now, None)] && |t'| == |t|
  {
    LockoutEvictedExactly(t, order, now);
    RoomIsMade(t, cap, ip, now, order);
    var t' := Step(t, cap, Attempt(ip, now, Invalid, order));
    assert t'.Keys == Room(t, cap, ip, now, order).Keys + {ip};
  }

  lemma SizeOfInsert(t: Table, ip: Ip, e: Entry)
    ensures |t[ip := e]| == if ip in t then |t| else |t| + 1
  {
    assert t[ip := e].Keys == t.Keys + {ip};
    if ip in t { assert t.Keys + {ip} == t.Keys; }
  }

  lemma InsertKeepsSize(t: Table, cap: nat, ip: Ip, now: nat, order: seq<Ip>, e: Entry)
    requires IsOrder(t, order) && |t| <= Max(cap, 1)
    ensures |Room(t, cap, ip, now, order)[ip := e]| <= Max(cap, 1)
  {
    var room := Room(t, cap, ip, now, order);
    RoomIsMade(t, cap, ip, now, order);
    Fewer(room, t);
    SizeOfInsert(room, ip, e);
  }

  lemma AttemptKeepsSize(t: Table, cap: nat, e: Event)
    requires e.Attempt? && Possible(t, e) && |t| <= Max(cap, 1) && !Refused(t, e)
    ensures |Step(t, cap, e)| <= Max(cap, 1)
  {
    var t1 := Cleared(t, e.ip, e.now);
    Fewer(t1, t);
    if e.token == Valid {
      Fewer(t1 - {e.ip}, t1);
    } else if e.token == Invalid {
      InsertKeepsSize(t1, cap, e.ip, e.now, e.order, Bumped(Lookup(Room(t1, cap, e.ip, e.now, e.order), e.ip), e.now));
    }
  }

  lemma StepKeepsSize(t: Table, cap: nat, e: Event)
    requires Possible(t, e) && |t| <= Max(cap, 1)
    ensures |Step(t, cap, e)| <= Max(cap, 1)
  {
    if e.Sweep? {
      Fewer(Swept(t, e.now), t);
    } else if !Refused(t, e) {
      AttemptKeepsSize(t, cap, e);
    }
  }

  lemma StepKeepsCounts(t: Table, cap: nat, e: Event)
    requires Possible(t, e) && Counted(t)
    ensures Counted(Step(t, cap, e))
  {
    if e.Attempt? && !Refused(t, e) && e.token == Invalid {
      RoomIsMade(Cleared(t, e.ip, e.now), cap, e.ip, e.now, e.order);
    }
  }

  /** In every one-at-a-time run the table stays within its cap, or one entry when the cap is zero. */
  lemma {:induction false} RunKeeps(run: seq<Table>, events: seq<Event>, cap: nat, n: nat)
    requires IsRun(run, events, cap) && n <= |events|
    ensures |run[n]| <= Max(cap, 1) && Counted(run[n])
  {
    if n > 0 {
      RunKeeps(run, events, cap, n - 1);
      StepKeepsSize(run[n - 1], cap, events[n - 1]);
      StepKeepsCounts(run[n - 1], cap, events[n - 1]);
    }
  }

  /** A cap of zero does hold one entry. */
  lemma CapZeroHoldsOne()
    ensures |Step(map[], 0, Attempt(3, 0, Invalid, []))| == 1
  {
    var t: Table := map[];
    assert Room(t, 0, 3, 0, []) == map[];
    assert Step(t, 0, Attempt(3, 0, Invalid, [])) == map[3 := Entry(1, 0, None)];
  }

  /** The cap is a bound on every run exactly when it is not zero. */
  lemma CapHoldsExactly(cap: nat)
    ensures cap >= 1 <==>
      forall run, events, n: nat :: IsRun(run, events, cap) && n <= |events| ==> |run[n]| <= cap
  {
    if cap >= 1 {
      forall run, events, n: nat | IsRun(run, events, cap) && n <= |events| ensures |run[n]| <= cap {
        RunKeeps(run, events, cap, n);
      }
    } else {
      CapZeroHoldsOne();
      var e := Attempt(3, 0, Invalid, []);
      var run: seq<Table> := [map[], Step(map[], 0, e)];
      assert NotLater(e, e) && IsRun(run, [e], 0);
      assert |run[1]| == 1;
    }
  }

  // ---------------------------------------------------------------- every answer

  /** The address is locked out at this moment. */
  predicate LockedOut(t: Table, ip: Ip, now: nat) {
    ip in t && t[ip].until.Some? && now < t[ip].until.value
  }

  /** Nobody but `ip` is touched. */
  ghost predicate OthersKept(t: Table, t': Table, ip: Ip) {
    forall q :: q != ip ==> (q in t' <==> q in t) && (q in t ==> t'[q] == t[q])
  }

  lemma AttemptAnswered(t: Table, cap: nat, e: Event)
    requires Possible(t, e) && e.Attempt?
    ensures var t', locked := Step(t, cap, e), LockedOut(t, e.ip, e.now);
      && (Answer(t, cap, e) == Accepted <==> e.token == Valid && !locked)
      && (Answer(t, cap, e) == TooManyRequests <==> locked)
      && (locked ==> t' == t)
      && (e.token == Valid && !locked ==> e.ip !in t' && OthersKept(t, t', e.ip))
      && (e.token == Missing && !locked ==>
            && Answer(t, cap, e) == Unauthorized(false)
            && OthersKept(t, t', e.ip)
            && (e.ip in t' <==> e.ip in t && t[e.ip].until.None?)
            && (e.ip in t' ==> t'[e.ip] == t[e.ip]))
      && (e.token == Invalid && !locked ==>
            && e.ip in t'
            && t'[e.ip].count == (if e.ip in t && t[e.ip].until.None? then t[e.ip].count + 1 else 1)
            && t'[e.ip].last == e.now
            && (Cleared(t, e.ip, e.now) == t && (e.ip in t || |t| < cap) ==> OthersKept(t, t', e.ip))
            && Answer(t, cap, e) == Unauthorized(t'[e.ip].count >= 10))
  {
    if e.token == Invalid && !LockedOut(t, e.ip, e.now) {
      RoomIsMade(Cleared(t, e.ip, e.now), cap, e.ip, e.now, e.order);
    }
  }

  /**
   In every run an attempt is accepted exactly if its token is valid and its address
   is not locked out, and then its entry is gone. A missing token is refused without
   counting against anybody or evicting anybody.
   */
  lemma AnswersExactly(run: seq<Table>, events: seq<Event>, cap: nat, n: nat)
    requires IsRun(run, events, cap) && n < |events| && events[n].Attempt?
    ensures var e, t, t', answer := events[n], run[n], run[n + 1], Answer(run[n], cap, events[n]);
      && (answer == Accepted <==> e.token == Valid && !LockedOut(t, e.ip, e.now))
      && (answer == TooManyRequests <==> LockedOut(t, e.ip, e.now))
      && (answer == TooManyRequests ==> t' == t)
      && (answer == Accepted ==> e.ip !in t' && OthersKept(t, t', e.ip))
      && (e.token == Missing ==>
            && (answer == TooManyRequests || answer == Unauthorized(false))
            && OthersKept(t, t', e.ip)
            && (e.ip in t' ==> e.ip in t && t'[e.ip] == t[e.ip])
            && (e.ip in t && e.ip !in t' ==> t[e.ip].until.Some? && t[e.ip].until.value <= e.now))
      && (e.token == Invalid && answer != TooManyRequests ==>
            && e.ip in t'
            && answer == Unauthorized(t'[e.ip].count >= 10)
            && (e.ip in t && t[e.ip].until.None? ==> OthersKept(t, t', e.ip))
            && (e.ip !in t && |t| < cap ==> OthersKept(t, t', e.ip)))
  {
    assert Possible(run[n], events[n]);
    AttemptAnswered(run[n], cap, events[n]);
  }

  /** A cleanup drops exactly what is neither locked out nor a failure of the last twenty minutes. */
  lemma CleanupDropsExactly(run: seq<Table>, events: seq<Event>, cap: nat, n: nat, ip: Ip)
    requires IsRun(run, events, cap) && n < |events| && events[n].Sweep?
    ensures ip in run[n + 1] <==>
      && ip in run[n]
      && (LockedOut(run[n], ip, events[n].now) || events[n].now < run[n][ip].last + 1200 * SECOND)
    ensures ip in run[n + 1] ==> run[n + 1][ip] == run[n][ip]
  {
    RunKeeps(run, events, cap, n);
    assert Possible(run[n], events[n]);
  }

  // ---------------------------------------------------------- ten failures lock out

  predicate Fails(e: Event, ip: Ip) { e.Attempt? && e.ip == ip && e.token == Invalid }

  /** Failures of `ip` among the events from `s` up to, not including, `n`. */
  function FailuresFrom(events: seq<Event>, s: nat, n: nat, ip: Ip): nat
    requires s <= n <= |events|
    decreases n
  {
    if n == s then 0 else FailuresFrom(events, s, n - 1, ip) + if Fails(events[n - 1], ip) then 1 else 0
  }

  function LastFrom(events: seq<Event>, s: nat, n: nat, ip: Ip): Option<nat>
    requires s <= n <= |events|
    decreases n
  {
    if n == s then None
    else if Fails(events[n - 1], ip) then Some(events[n - 1].now) else LastFrom(events, s, n - 1, ip)
  }

  /** Event `i` does not end the streak of `ip` that starts at event `s`. */
  ghost predicate GoesOn(run: seq<Table>, events: seq<Event>, ip: Ip, s: nat, i: nat)
    requires |run| == |events| + 1 && s <= i < |events|
  {
    var e, last := events[i], LastFrom(events, s, i, ip);
    && !(e.Attempt? && e.ip == ip && e.token == Valid)
    && (e.Attempt? && e.ip != ip && ip in run[i] ==> ip in run[i + 1])
    && (Fails(e, ip) && last.Some? ==> e.now - last.value < 1200 * SECOND)
  }

  /**
   A streak of `ip` from event `s` through its failure at event `m`: it starts without an
   entry, and meets no success, no eviction and no gap of twenty minutes between failures.
   */
  ghost predicate Streak(run: seq<Table>, events: seq<Event>, cap: nat, ip: Ip, s: nat, m: nat)
    requires IsRun(run, events, cap) && s <= m < |events|
  {
    && ip !in run[s]
    && Fails(events[m], ip)
    && forall i :: s <= i <= m ==> GoesOn(run, events, ip, s, i)
  }

  lemma {:induction false} FreshUntilNext(run: seq<Table>, events: seq<Event>, cap: nat, ip: Ip, s: nat, i: nat, m: nat)
    requires IsRun(run, events, cap) && s <= i <= m < |events| && Streak(run, events, cap, ip, s, m)
    requires LastFrom(events, s, i, ip).Some?
    ensures events[i].now - LastFrom(events, s, i, ip).value < STALENESS
    decreases m - i
  {
    if Fails(events[i], ip) {
      assert GoesOn(run, events, ip, s, i);
    } else {
      FreshUntilNext(run, events, cap, ip, s, i + 1, m);
      assert NotLater(events[i], events[i + 1]);
    }
  }

  lemma OtherAttemptKeeps(t: Table, cap: nat, e: Event, ip: Ip)
    requires Possible(t, e) && e.Attempt? && e.ip != ip
    ensures ip in Step(t, cap, e) ==> ip in t && Step(t, cap, e)[ip] == t[ip]
  {
    if !Refused(t, e) && e.token == Invalid {
      RoomIsMade(Cleared(t, e.ip, e.now), cap, e.ip, e.now, e.order);
    }
  }

  lemma OwnFailureCounts(t: Table, cap: nat, e: Event, ip: Ip)
    requires Possible(t, e) && Fails(e, ip) && (ip in t ==> t[ip].until.None?)
    ensures ip in Step(t, cap, e)
    ensures Step(t, cap, e)[ip] == Bumped(Lookup(t, ip), e.now)
  {
    RoomIsMade(Cleared(t, ip, e.now), cap, ip, e.now, e.order);
  }

  /** The entry of `ip` is its failure count so far, none of which has locked yet. */
  ghost predicate Counts(t: Table, ip: Ip, failures: nat, last: Option<nat>) {
    if failures == 0 then last.None? && ip !in t
    else last.Some? && ip in t && t[ip] == Entry(failures, last.value, None)
  }

  /** One event of a streak below ten failures. */
  lemma CountStep(t: Table, cap: nat, e: Event, ip: Ip, failures: nat, last: Option<nat>)
    requires Possible(t, e) && Counts(t, ip, failures, last)
    requires failures + (if Fails(e, ip) then 1 else 0) < MAX_FAILURES
    requires !(e.Attempt? && e.ip == ip && e.token == Valid)
    requires last.Some? ==> e.now - last.value < STALENESS
    requires e.Attempt? && e.ip != ip && ip in t ==> ip in Step(t, cap, e)
    ensures Fails(e, ip) ==> Counts(Step(t, cap, e), ip, failures + 1, Some(e.now))
    ensures !Fails(e, ip) ==> Counts(Step(t, cap, e), ip, failures, last)
  {
    if Fails(e, ip) {
      OwnFailureCounts(t, cap, e, ip);
    } else if e.Attempt? && e.ip != ip {
      OtherAttemptKeeps(t, cap, e, ip);
    }
  }

  lemma {:induction false} FailuresGrow(events: seq<Event>, s: nat, n: nat, m: nat, ip: Ip)
    requires s <= n <= m <= |events|
    ensures FailuresFrom(events, s, n, ip) <= FailuresFrom(events, s, m, ip)
    decreases m
  {
    if n < m { FailuresGrow(events, s, n, m - 1, ip); }
  }

  lemma CountNext(run: seq<Table>, events: seq<Event>, cap: nat, ip: Ip, s: nat, k: nat, m: nat, failures: nat,
                  last: Option<nat>)
    requires IsRun(run, events, cap) && s <= k < m < |events| && Streak(run, events, cap, ip, s, m)
    requires last == LastFrom(events, s, k, ip) && Counts(run[k], ip, failures, last)
    requires failures + (if Fails(events[k], ip) then 1 else 0) < MAX_FAILURES
    ensures Fails(events[k], ip) ==> Counts(run[k + 1], ip, failures + 1, Some(events[k].now))
    ensures !Fails(events[k], ip) ==> Counts(run[k + 1], ip, failures, last)
  {
    assert Possible(run[k], events[k]) && GoesOn(run, events, ip, s, k);
    if last.Some? { FreshUntilNext(run, events, cap, ip, s, k, m); }
    CountStep(run[k], cap, events[k], ip, failures, last);
  }

  /** Below ten failures the table holds their exact number. */
  lemma {:induction false} CountsExactly(run: seq<Table>, events: seq<Event>, cap: nat, ip: Ip, s: nat, n: nat, m: nat)
    requires IsRun(run, events, cap) && s <= n <= m < |events| && Streak(run, events, cap, ip, s, m)
    requires FailuresFrom(events, s, m, ip) < MAX_FAILURES
    ensures Counts(run[n], ip, FailuresFrom(events, s, n, ip), LastFrom(events, s, n, ip))
    decreases n
  {
    if n == s {
    } else {
      var k := n - 1;
      CountsExactly(run, events, cap, ip, s, k, m);
      FailuresGrow(events, s, n, m, ip);
      CountNext(run, events, cap, ip, s, k, m, FailuresFrom(events, s, k, ip), LastFrom(events, s, k, ip));
    }
  }

  /** The tenth failure of any streak locks, no earlier one does, however sweeps and other addresses interleave. */
  lemma TenthFailureLocks(run: seq<Table>, events: seq<Event>, cap: nat, ip: Ip, s: nat, m: nat)
    requires IsRun(run, events, cap) && s <= m < |events| && Streak(run, events, cap, ip, s, m)
    requires FailuresFrom(events, s, m, ip) < 10
    ensures Answer(run[m], cap, events[m]) == Unauthorized(FailuresFrom(events, s, m + 1, ip) == 10)
    ensures ip in run[m + 1]
    ensures run[m + 1][ip].until ==
      if FailuresFrom(events, s, m + 1, ip) == 10 then Some(events[m].now + 300 * SECOND) else None
  {
    var k := FailuresFrom(events, s, m, ip);
    CountsExactly(run, events, cap, ip, s, m, m);
    assert Counts(run[m], ip, k, LastFrom(events, s, m, ip));
    OwnFailureCounts(run[m], cap, events[m], ip);
    assert FailuresFrom(events, s, m + 1, ip) == k + 1;
    assert run[m + 1][ip].count == k + 1;
  }

  // ------------------------------------------------------------- a lockout holds

  /** This event is another address's failed attempt that trades the lockout of `ip` for its own entry. */
  ghost predicate EvictsLocked(t: Table, cap: nat, e: Event, ip: Ip)
    requires Possible(t, e)
  {
    && e.Attempt? && e.ip != ip && e.token == Invalid && !Refused(t, e)
    && var t1 := Cleared(t, e.ip, e.now);
       && e.ip !in t1 && |t1| >= cap
       && Victim(t1, e.order, e.now) == Some(ip)
       && forall i :: 0 <= i < Min(|e.order|, 32) ==> Locked(t1[e.order[i]], e.now)
  }

  /** An active lockout ends in exactly one way: such an eviction. */
  lemma LockoutHolds(t: Table, cap: nat, e: Event, ip: Ip)
    requires Possible(t, e) && ip in t && Locked(t[ip], e.now)
    ensures e.Attempt? && e.ip == ip ==> Answer(t, cap, e) == TooManyRequests && Step(t, cap, e) == t
    ensures ip in Step(t, cap, e) ==> Step(t, cap, e)[ip] == t[ip]
    ensures ip !in Step(t, cap, e) <==> EvictsLocked(t, cap, e, ip)
  {
    if e.Attempt? && e.ip != ip && !Refused(t, e) && e.token == Invalid {
      var t1 := Cleared(t, e.ip, e.now);
      assert ip in t1 && t1[ip] == t[ip];
      OtherAttemptKeeps(t, cap, e, ip);
      if e.ip !in t1 && |t1| >= cap {
        LockoutEvictedExactly(t1, e.order, e.now);
      }
    }
  }

  /**
   From the state that holds the lockout on, every attempt of the address is refused,
   exactly until the lockout expires, unless one of the events between evicted it.
   */
  lemma {:induction false} LockoutHoldsUntilExpiry(run: seq<Table>, events: seq<Event>, cap: nat, ip: Ip, s: nat,
                                                   n: nat)
    requires IsRun(run, events, cap) && s <= n < |events|
    requires ip in run[s] && run[s][ip].until.Some?
    requires forall i :: s <= i < n ==> events[i].now < run[s][ip].until.value
    requires forall i :: s <= i < n ==> !EvictsLocked(run[i], cap, events[i], ip)
    ensures ip in run[n] && run[n][ip] == run[s][ip]
    ensures events[n].Attempt? && events[n].ip == ip ==>
      (Answer(run[n], cap, events[n]) == TooManyRequests <==> events[n].now < run[s][ip].until.value)
    decreases n
  {
    if s < n {
      var k := n - 1;
      LockoutHoldsUntilExpiry(run, events, cap, ip, s, k);
      assert Locked(run[k][ip], events[k].now);
      LockoutHolds(run[k], cap, events[k], ip);
    }
  }

  /** Ten failures in a streak, then five minutes of refusals. */
  lemma TenthFailureRefuses(run: seq<Table>, events: seq<Event>, cap: nat, ip: Ip, s: nat, m: nat, n: nat)
    requires IsRun(run, events, cap) && s <= m < n < |events| && Streak(run, events, cap, ip, s, m)
    requires FailuresFrom(events, s, m, ip) == 9
    requires forall i :: m < i < n ==> events[i].now < events[m].now + 300 * SECOND
    requires forall i :: m < i < n ==> !EvictsLocked(run[i], cap, events[i], ip)
    requires events[n].Attempt? && events[n].ip == ip
    ensures Answer(run[n], cap, events[n]) == TooManyRequests <==> events[n].now < events[m].now + 300 * SECOND
  {
    TenthFailureLocks(run, events, cap, ip, s, m);
    var k := m + 1;
    assert FailuresFrom(events, s, k, ip) == 10;
    LockoutHoldsUntilExpiry(run, events, cap, ip, k, n);
  }
}
