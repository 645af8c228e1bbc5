/** A fixed-window request counter per address. Times are nanoseconds of one monotonic clock. */
module RateLimit {
  import opened Common

  type Ip = nat

  const WINDOW := 60 * SECOND
  const U32_MAX := 0xFFFF_FFFF

  datatype Window = Window(start: nat, count: nat, logged: bool)
  datatype Decision = Allowed | Limited(retryAfterSecs: nat)

  /** The window a request at `now` is charged to. */
  function Entered(w: Option<Window>, now: nat): Window {
    if w.None? || Elapsed(now, w.value.start) >= WINDOW then Window(now, 0, false) else w.value
  }

  function RetryAfter(start: nat, now: nat): nat {
    var remaining := if Elapsed(now, start) <= WINDOW then WINDOW - Elapsed(now, start) else 0;
    Min(remaining / SECOND + 1, 60)
  }

  function Visit(w: Option<Window>, now: nat, limit: nat): (Window, Decision) {
    var e := Entered(w, now);
    if e.count >= limit then (e.(logged := true), Limited(RetryAfter(e.start, now)))
    else (e.(count := Min(e.count + 1, U32_MAX)), Allowed)
  }

  function Swept(m: map<Ip, Window>, now: nat): map<Ip, Window> {
    map ip | ip in m && Elapsed(now, m[ip].start) < WINDOW :: m[ip]
  }

  class ApiRateLimiter {
    const limit: nat
    var windows: map<Ip, Window>

    /** A limit of zero disables the limiter. */
    constructor (limitPerMinute: nat)
      requires limitPerMinute <= U32_MAX
      ensures limit == limitPerMinute && windows == map[]
    {
      limit := limitPerMinute;
      windows := map[];
    }

    method Check(ip: Ip, now: nat) returns (d: Decision)
      modifies this
      ensures limit == 0 ==> d == Allowed && windows == old(windows)
      ensures limit > 0 ==>
        var v := Visit(Lookup(old(windows), ip), now, limit);
        d == v.1 && windows == old(windows)[ip := v.0]
    {
      if limit == 0 { return Allowed; }
      if ip !in windows { windows := windows[ip := Window(now, 0, false)]; }
      var entry := windows[ip];
      if Elapsed(now, entry.start) >= WINDOW {
        entry := Window(now, 0, false);
      }
      if entry.count >= limit {
        var elapsed := Elapsed(now, entry.start);
        var remaining := if elapsed <= WINDOW then WINDOW - elapsed else 0;
        windows := windows[ip := entry.(logged := true)];
        return Limited(Min(remaining / SECOND + 1, 60));
      }
      windows := windows[ip := entry.(count := Min(entry.count + 1, U32_MAX))];
      return Allowed;
    }

    method Cleanup(now: nat)
      modifies this
      ensures windows == Swept(old(windows), now)
      ensures forall ip :: ip in windows <==> ip in old(windows) && now < old(windows)[ip].start + 60 * SECOND
    {
      windows := map ip | ip in windows && Elapsed(now, windows[ip].start) < WINDOW :: windows[ip];
    }
  }

  // ------------------------------------------------------------------------- runs

  datatype Event = Request(ip: Ip, now: nat) | Sweep(now: nat)

  predicate Monotone(events: seq<Event>) {
    forall i, j :: 0 <= i <= j < |events| ==> events[i].now <= events[j].now
  }

  function After(events: seq<Event>, n: nat, limit: nat): map<Ip, Window>
    requires n <= |events|
  {
    if n == 0 then map[]
    else
      var m := After(events, n - 1, limit);
      match events[n - 1]
      case Request(ip, now) => m[ip := Visit(Lookup(m, ip), now, limit).0]
      case Sweep(now) => Swept(m, now)
  }

  function DecisionAt(events: seq<Event>, i: nat, limit: nat): Decision
    requires i < |events| && events[i].Request?
  {
    Visit(Lookup(After(events, i, limit), events[i].ip), events[i].now, limit).1
  }

  /** The window of one address as if no sweep ever ran. */
  function Unswept(events: seq<Event>, n: nat, ip: Ip, limit: nat): Option<Window>
    requires n <= |events|
  {
    if n == 0 then None
    else
      var w := Unswept(events, n - 1, ip, limit);
      if events[n - 1].Request? && events[n - 1].ip == ip then Some(Visit(w, events[n - 1].now, limit).0) else w
  }

  /** Sweeping removes a window only once it can no longer matter. */
  lemma {:induction false} SweptWindowIsOver(events: seq<Event>, n: nat, ip: Ip, limit: nat)
    requires n <= |events| && Monotone(events)
    ensures var w, w' := Lookup(After(events, n, limit), ip), Unswept(events, n, ip, limit);
      w == w' || (w == None && n > 0 && w'.value.start + WINDOW <= events[n - 1].now)
  {
    if n > 0 {
      SweptWindowIsOver(events, n - 1, ip, limit);
      if n > 1 { assert events[n - 2].now <= events[n - 1].now; }
    }
  }

  /** Sweeps, whenever they run, change no decision. */
  lemma SweepsChangeNothing(events: seq<Event>, i: nat, limit: nat)
    requires i < |events| && events[i].Request? && Monotone(events)
    ensures DecisionAt(events, i, limit) == Visit(Unswept(events, i, events[i].ip, limit), events[i].now, limit).1
  {
    SweptWindowIsOver(events, i, events[i].ip, limit);
    if i > 0 { assert events[i - 1].now <= events[i].now; }
  }

  predicate AdmittedAt(events: seq<Event>, i: nat, ip: Ip, from: nat, limit: nat)
    requires i < |events|
  {
    && events[i].Request?
    && events[i].ip == ip
    && from <= events[i].now < from + 60 * SECOND
    && DecisionAt(events, i, limit) == Allowed
  }

  /** Requests of `ip` admitted in the half-open minute from `from`, among the first `n` events. */
  function Admitted(events: seq<Event>, n: nat, ip: Ip, from: nat, limit: nat): nat
    requires n <= |events|
  {
    if n == 0 then 0
    else Admitted(events, n - 1, ip, from, limit) + if AdmittedAt(events, n - 1, ip, from, limit) then 1 else 0
  }

  lemma {:induction false} NoneAdmittedYet(events: seq<Event>, n: nat, ip: Ip, from: nat, limit: nat)
    requires n <= |events| && forall i :: 0 <= i < n ==> events[i].now < from
    ensures Admitted(events, n, ip, from, limit) == 0
  {
    if n > 0 { NoneAdmittedYet(events, n - 1, ip, from, limit); }
  }

  /** The bound the latest window of `ip` gives for the minute from `from`. */
  function Allowance(w: Option<Window>, from: nat, limit: nat): nat {
    if w.None? || w.value.count == 0 || limit == 0 then 0
    else if from > w.value.start then w.value.count - 1
    else if w.value.start < from + WINDOW then limit - 1 + w.value.count
    else 2 * limit - 1
  }

  lemma {:induction false} WithinAllowance(events: seq<Event>, n: nat, ip: Ip, from: nat, limit: nat)
    requires n <= |events| && Monotone(events) && 0 < limit <= U32_MAX
    ensures var w := Unswept(events, n, ip, limit);
      && Admitted(events, n, ip, from, limit) <= Allowance(w, from, limit)
      && (w.Some? ==> 0 < w.value.count <= limit && exists i :: 0 <= i < n && w.value.start == events[i].now)
  {
    if n > 0 {
      WithinAllowance(events, n - 1, ip, from, limit);
      var e := events[n - 1];
      if e.Request? && e.ip == ip {
        SweepsChangeNothing(events, n - 1, limit);
        if e.now < from { NoneAdmittedYet(events, n, ip, from, limit); }
        var w := Unswept(events, n - 1, ip, limit);
        if w.Some? {
          var i :| 0 <= i < n - 1 && w.value.start == events[i].now;
          assert events[i].now <= e.now;
        }
        assert Unswept(events, n, ip, limit).value.start ==
          (if w.Some? && Elapsed(e.now, w.value.start) < WINDOW then w.value.start else events[n - 1].now);
      }
    }
  }

  /** No half-open minute admits as much as twice the limit for one address. */
  lemma UnderTwiceTheLimit(events: seq<Event>, ip: Ip, from: nat, limit: nat)
    requires Monotone(events) && 0 < limit <= U32_MAX
    ensures Admitted(events, |events|, ip, from, limit) <= 2 * limit - 1
  {
    WithinAllowance(events, |events|, ip, from, limit);
  }

  /** The window of an address counts requests that were admitted in it. */
  lemma {:induction false} WindowIsEarned(events: seq<Event>, n: nat, ip: Ip, limit: nat)
    requires n <= |events| && Monotone(events) && 0 < limit <= U32_MAX
    ensures var w := Unswept(events, n, ip, limit);
      w.Some? ==> w.value.count <= Admitted(events, n, ip, w.value.start, limit)
  {
    if n > 0 {
      var k := n - 1;
      WindowIsEarned(events, k, ip, limit);
      if events[k].Request? && events[k].ip == ip {
        SweepsChangeNothing(events, k, limit);
        StartIsPast(events, k, ip, limit);
      }
    }
  }

  lemma StartIsPast(events: seq<Event>, k: nat, ip: Ip, limit: nat)
    requires k < |events| && Monotone(events) && 0 < limit <= U32_MAX
    ensures var w := Unswept(events, k, ip, limit); w.Some? ==> w.value.start <= events[k].now
  {
    WithinAllowance(events, k, ip, 0, limit);
    var w := Unswept(events, k, ip, limit);
    if w.Some? {
      var i :| 0 <= i < k && w.value.start == events[i].now;
      assert events[i].now <= events[k].now;
    }
  }

  /** Nobody is limited early: a refusal means the whole limit was admitted to the address in a minute not yet over. */
  lemma LimitedIsEarned(events: seq<Event>, i: nat, limit: nat) returns (from: nat)
    requires i < |events| && events[i].Request? && Monotone(events) && 0 < limit <= U32_MAX
    requires DecisionAt(events, i, limit).Limited?
    ensures from <= events[i].now < from + 60 * SECOND
    ensures Admitted(events, i, events[i].ip, from, limit) >= limit
  {
    var ip := events[i].ip;
    SweepsChangeNothing(events, i, limit);
    WindowIsEarned(events, i, ip, limit);
    StartIsPast(events, i, ip, limit);
    from := Unswept(events, i, ip, limit).value.start;
  }

  /** One request opens a window, its last instant takes the rest of the limit, the next instant a whole limit more. */
  function BurstTime(i: nat, limit: nat): nat {
    if i == 0 then 0 else if i < limit then WINDOW - 1 else WINDOW
  }

  function BurstWindow(n: nat, limit: nat): Option<Window> {
    if n == 0 then None
    else if n <= limit then Some(Window(0, n, false))
    else Some(Window(WINDOW, n - limit, false))
  }

  function Burst(limit: nat): seq<Event> { seq(2 * limit, i requires 0 <= i => Request(7, BurstTime(i, limit))) }

  lemma BurstVisit(n: nat, limit: nat)
    requires 0 < limit <= U32_MAX && n < 2 * limit
    ensures Visit(BurstWindow(n, limit), BurstTime(n, limit), limit) == (BurstWindow(n + 1, limit).value, Allowed)
  {
  }

  lemma {:induction false} BurstIsAdmitted(events: seq<Event>, limit: nat, n: nat)
    requires 0 < limit <= U32_MAX && n <= |events| && events == Burst(limit) && Monotone(events)
    ensures Unswept(events, n, 7, limit) == BurstWindow(n, limit)
    ensures Admitted(events, n, 7, 1, limit) == if n == 0 then 0 else n - 1
  {
    if n > 0 {
      var k := n - 1;
      BurstIsAdmitted(events, limit, k);
      BurstVisit(k, limit);
      assert events[k] == Request(7, BurstTime(k, limit));
      SweepsChangeNothing(events, k, limit);
      assert DecisionAt(events, k, limit) == Allowed;
    }
  }

  /** And for every limit that bound is reached. */
  lemma BoundIsReached(limit: nat)
    requires 0 < limit <= U32_MAX
    ensures exists events: seq<Event>, from ::
      Monotone(events) && Admitted(events, |events|, 7, from, limit) == 2 * limit - 1
  {
    var events := Burst(limit);
    assert Monotone(events);
    BurstIsAdmitted(events, limit, |events|);
    assert Admitted(events, |events|, 7, 1, limit) == 2 * limit - 1;
  }

  /** The returned wait is 1 to 60 whole seconds, reaches the window's end and never a full second beyond it. */
  lemma RetryReachesWindowEnd(w: Option<Window>, now: nat, limit: nat)
    requires Visit(w, now, limit).1.Limited? && (w.Some? ==> w.value.start <= now) && limit > 0
    ensures var (e, d) := Visit(w, now, limit);
      && 1 <= d.retryAfterSecs <= 60
      && e.start + WINDOW <= now + d.retryAfterSecs * SECOND
      && now + (d.retryAfterSecs - 1) * SECOND <= e.start + WINDOW
    ensures forall later :: now + Visit(w, now, limit).1.retryAfterSecs * SECOND <= later ==>
      Visit(Some(Visit(w, now, limit).0), later, limit).1 == Allowed
  {
  }

  lemma {:induction false} QuietKeepsWindow(events: seq<Event>, i: nat, j: nat, ip: Ip, limit: nat)
    requires i <= j <= |events|
    requires forall k :: i <= k < j ==> !(events[k].Request? && events[k].ip == ip)
    ensures Unswept(events, j, ip, limit) == Unswept(events, i, ip, limit)
  {
    if i < j { QuietKeepsWindow(events, i, j - 1, ip, limit); }
  }

  /** In every run, an address that waits out its Retry-After is admitted, however sweeps interleave. */
  lemma WaitingIsEnough(events: seq<Event>, i: nat, j: nat, limit: nat)
    requires Monotone(events) && 0 < limit <= U32_MAX && i < j < |events|
    requires events[i].Request? && events[j].Request? && events[i].ip == events[j].ip
    requires DecisionAt(events, i, limit).Limited?
    requires events[i].now + DecisionAt(events, i, limit).retryAfterSecs * SECOND <= events[j].now
    requires forall k :: i < k < j ==> !(events[k].Request? && events[k].ip == events[i].ip)
    ensures DecisionAt(events, j, limit) == Allowed
  {
    var ip := events[i].ip;
    SweepsChangeNothing(events, i, limit);
    SweepsChangeNothing(events, j, limit);
    QuietKeepsWindow(events, i + 1, j, ip, limit);
    WithinAllowance(events, i, ip, 0, limit);
    var w := Unswept(events, i, ip, limit);
    if w.Some? {
      var k :| 0 <= k < i && w.value.start == events[k].now;
      assert events[k].now <= events[i].now;
    }
    RetryReachesWindowEnd(w, events[i].now, limit);
  }
}
