/**
 The expected-peer roster is durable and shared by every handle that loads it;
 acknowledgements live in one handle's session only.
 */
module Acknowledgement {
  import opened Common

  type Ip = nat
  type HandleId = nat

  const MAX_PEERS := 64

  datatype Identity = Identity(
    lineage: string, epoch: nat, artifact: string, configRevision: string, policyHash: string)
  datatype ActiveAck = ActiveAck(artifact: Identity, localRevision: string, instance: string, generation: nat)
  datatype Observation = Observation(persisted: Option<Identity>, active: Option<ActiveAck>, lastAck: Option<nat>)
  datatype RosterFile = RosterFile(format: nat, peers: seq<Ip>)
  datatype Handle = Handle(peers: map<Ip, Observation>, available: bool)

  const UNSEEN := Observation(None, None, None)

  predicate ValidIdentity(i: Identity) {
    i.epoch > 0 && IsHash(i.lineage) && IsHash(i.artifact) && IsHash(i.configRevision) && IsHash(i.policyHash)
  }

  predicate ValidAck(a: ActiveAck) {
    ValidIdentity(a.artifact) && IsHash(a.localRevision) && 0 < |a.instance| <= 256 && a.generation > 0
  }

  // ------------------------------------------------------------------- the roster

  predicate Increasing(s: seq<Ip>) {
    forall i :: 0 < i < |s| ==> s[i - 1] < s[i]
  }

  function Decode(file: RosterFile): Option<seq<Ip>> {
    if file.format == 1 && |file.peers| <= MAX_PEERS && Increasing(file.peers) then Some(file.peers) else None
  }

  function Members(s: seq<Ip>): set<Ip> { set ip | ip in s }

  /** Ordered-set insertion of a new element. */
  function Insert(s: seq<Ip>, ip: Ip): (r: seq<Ip>)
    requires Increasing(s)
    ensures |r| == |s| + 1 && forall q :: q in r <==> q in s || q == ip
    ensures ip !in s ==> Increasing(r)
    ensures r[0] == ip || (|s| > 0 && r[0] == s[0])
  {
    if s == [] || ip <= s[0] then [ip] + s
    else
      var rest := Insert(s[1..], ip);
      assert s == [s[0]] + s[1..];
      assert forall i :: 0 < i < |s| ==> s[1..][i - 1] == s[i];
      [s[0]] + rest
  }

  // --------------------------------------------------------------------- the steps

  /** One `record` call; the flags say which parts of the outside world cooperate. */
  datatype Call = Call(
    ip: Ip, persisted: Option<Identity>, active: Option<ActiveAck>, now: nat, guardOk: bool, writeOk: bool,
    landed: bool)

  predicate ValidCall(c: Call) {
    (c.persisted.Some? ==> ValidIdentity(c.persisted.value)) && (c.active.Some? ==> ValidAck(c.active.value))
  }

  function Reported(c: Call): Observation {
    Observation(c.persisted, c.active, if c.active.Some? then Some(c.now) else None)
  }

  function Forgotten(h: Handle, ip: Ip): Handle {
    Handle(if ip in h.peers then h.peers[ip := UNSEEN] else h.peers, false)
  }

  function Filled(peers: map<Ip, Observation>, roster: set<Ip>): map<Ip, Observation> {
    map ip | ip in peers.Keys + roster :: if ip in peers then peers[ip] else UNSEEN
  }

  datatype Stored = Stored(file: Option<RosterFile>, handle: Handle, ok: bool)

  function Record(file: Option<RosterFile>, h: Handle, c: Call): Stored {
    var h1 := Forgotten(h, c.ip);
    if !c.guardOk || file.None? || Decode(file.value).None? then Stored(file, h1, false)
    else
      var expected := Decode(file.value).value;
      if !(h1.peers.Keys <= Members(expected)) then Stored(file, h1, false)
      else if c.ip !in expected && |expected| >= MAX_PEERS then Stored(file, h1, false)
      else
        var next := if c.ip in expected then expected else Insert(expected, c.ip);
        var file' := if c.ip in expected then file else Some(RosterFile(1, next));
        if c.ip !in expected && !c.writeOk then Stored(if c.landed then file' else file, h1, false)
        else
          var peers := Filled(h1.peers, Members(next));
          if !ValidCall(c) then Stored(file', Handle(peers, false), false)
          else Stored(file', Handle(peers[c.ip := Reported(c)], true), true)
  }

  /** One `load`; a first load creates the empty roster, and a failed creation may still have landed. */
  function Load(file: Option<RosterFile>, ioOk: bool, landed: bool): Stored {
    if file.None? then
      if ioOk then Stored(Some(RosterFile(1, [])), Handle(map[], true), true)
      else Stored(if landed then Some(RosterFile(1, [])) else None, Handle(map[], false), false)
    else if !ioOk || Decode(file.value).None? then Stored(file, Handle(map[], false), false)
    else Stored(file, Handle(Filled(map[], Members(Decode(file.value).value)), true), true)
  }

  predicate Fresh(at: Option<nat>, now: nat, stale: nat) {
    at.Some? && at.value <= now && now - at.value <= stale
  }

  predicate Acknowledges(o: Observation, desired: Identity, now: nat, stale: nat) {
    && Fresh(o.lastAck, now, stale) && o.persisted == Some(desired)
    && o.active.Some? && ValidAck(o.active.value) && o.active.value.artifact == desired
  }

  predicate Converged(h: Handle, desired: Identity, now: nat, stale: nat) {
    && h.available && h.peers != map[] && ValidIdentity(desired)
    && forall ip :: ip in h.peers ==> Acknowledges(h.peers[ip], desired, now, stale)
  }

  // ----------------------------------------------------------------------- the runs

  datatype Event = Loaded(id: HandleId, ioOk: bool, landed: bool) | Recorded(id: HandleId, call: Call)

  datatype World = World(file: Option<RosterFile>, handles: map<HandleId, Handle>)

  function Outcome(w: World, e: Event): Stored {
    match e
    case Loaded(_, ioOk, landed) => Load(w.file, ioOk, landed)
    case Recorded(id, c) =>
      if id in w.handles then Record(w.file, w.handles[id], c)
      else Stored(w.file, Handle(map[], false), false)
  }

  function Step(w: World, e: Event): World {
    var s := Outcome(w, e);
    match e
    case Loaded(id, _, _) => World(s.file, if s.ok then w.handles[id := s.handle] else w.handles)
    case Recorded(id, _) => World(s.file, if id in w.handles then w.handles[id := s.handle] else w.handles)
  }

  /** `run[i]` is the world after the first `i` events. */
  ghost predicate IsRun(run: seq<World>, events: seq<Event>) {
    && |run| == |events| + 1 && run[0] == World(None, map[])
    && forall i :: 0 <= i < |events| ==> run[i + 1] == Step(run[i], events[i])
  }

  function Roster(w: World): set<Ip> {
    if w.file.Some? then Members(w.file.value.peers) else {}
  }

  ghost predicate Inv(w: World) {
    && (w.file.Some? ==> Decode(w.file.value).Some?)
    && (w.handles != map[] ==> w.file.Some?)
    && forall id :: id in w.handles ==> w.handles[id].peers.Keys <= Roster(w)
  }

  /** One call only ever adds its own address, and only within the limit. */
  lemma RecordKeeps(file: Option<RosterFile>, h: Handle, c: Call)
    requires file.Some? && Decode(file.value).Some? && h.peers.Keys <= Members(file.value.peers)
    ensures var s := Record(file, h, c);
      && s.file.Some? && Decode(s.file.value).Some?
      && Members(file.value.peers) <= Members(s.file.value.peers) <= Members(file.value.peers) + {c.ip}
      && s.handle.peers.Keys <= Members(s.file.value.peers)
      && (s.ok ==> s.handle.peers.Keys == Members(s.file.value.peers) && c.ip in s.handle.peers)
  {
  }

  lemma StepKeeps(w: World, e: Event)
    requires Inv(w)
    ensures Inv(Step(w, e)) && Roster(w) <= Roster(Step(w, e))
  {
    match e
    case Loaded(_, _, _) =>
    case Recorded(id, c) => if id in w.handles { RecordKeeps(w.file, w.handles[id], c); }
  }

  /** In every run the roster is strictly ordered, at most 64 long and holds every handle's peers. */
  lemma {:induction false} RunKeeps(run: seq<World>, events: seq<Event>, i: nat)
    requires IsRun(run, events) && i <= |events|
    ensures Inv(run[i])
    ensures run[i].file.Some? ==> |run[i].file.value.peers| <= 64 && Increasing(run[i].file.value.peers)
  {
    if i > 0 {
      RunKeeps(run, events, i - 1);
      StepKeeps(run[i - 1], events[i - 1]);
    }
  }

  /** The durable roster only grows. */
  lemma {:induction false} RosterOnlyGrows(run: seq<World>, events: seq<Event>, i: nat, n: nat)
    requires IsRun(run, events) && i <= n <= |events|
    ensures Roster(run[i]) <= Roster(run[n])
  {
    if i < n {
      RosterOnlyGrows(run, events, i, n - 1);
      RunKeeps(run, events, n - 1);
      StepKeeps(run[n - 1], events[n - 1]);
    }
  }

  /** In a run a record fails only for an outside fault, a full roster or an invalid identity. */
  lemma RecordSucceedsExactly(run: seq<World>, events: seq<Event>, i: nat, id: HandleId, c: Call)
    requires IsRun(run, events) && i <= |events| && id in run[i].handles
    ensures Outcome(run[i], Recorded(id, c)).ok <==>
      c.guardOk && ValidCall(c) && (c.ip in Roster(run[i]) || (|Roster(run[i])| < 64 && c.writeOk))
  {
    RunKeeps(run, events, i);
    IncreasingCount(run[i].file.value.peers);
  }

  /** A load succeeds exactly if the store can be read or created, and then knows every peer of the roster. */
  lemma LoadSucceedsExactly(run: seq<World>, events: seq<Event>, i: nat, id: HandleId, ioOk: bool, landed: bool)
    requires IsRun(run, events) && i <= |events|
    ensures var s := Outcome(run[i], Loaded(id, ioOk, landed));
      && (s.ok <==> ioOk)
      && (s.ok ==> s.handle.available && s.handle.peers.Keys == Roster(run[i]))
      && (s.ok ==> forall ip :: ip in s.handle.peers ==> s.handle.peers[ip] == Observation(None, None, None))
  {
    RunKeeps(run, events, i);
  }

  /** A roster file of another format, too long or out of order is neither loaded nor written to. */
  lemma DamagedRosterIsRefused(file: RosterFile, ioOk: bool, landed: bool, h: Handle, c: Call)
    requires
      || file.format != 1
      || |file.peers| > 64
      || exists i :: 0 < i < |file.peers| && file.peers[i] <= file.peers[i - 1]
    ensures !Load(Some(file), ioOk, landed).ok && Load(Some(file), ioOk, landed).file == Some(file)
    ensures !Record(Some(file), h, c).ok && Record(Some(file), h, c).file == Some(file)
    ensures !Record(Some(file), h, c).handle.available
  {
  }

  lemma {:induction false} IncreasingCount(s: seq<Ip>)
    requires Increasing(s)
    ensures |Members(s)| == |s|
  {
    if s != [] {
      var n := |s| - 1;
      IncreasingCount(s[..n]);
      BelowLast(s, n);
      assert Members(s) == Members(s[..n]) + {s[n]};
    }
  }

  lemma {:induction false} BelowLast(s: seq<Ip>, n: nat)
    requires Increasing(s) && n < |s|
    ensures forall i :: 0 <= i < n ==> s[i] < s[n]
  {
    if n > 0 { BelowLast(s, n - 1); }
  }

  // -------------------------------------------------------- what a handle has seen

  /** What handle `id` holds about `ip`, unseen when it holds nothing. */
  function Holds(w: World, id: HandleId, ip: Ip): Observation {
    if id in w.handles && ip in w.handles[id].peers then w.handles[id].peers[ip] else UNSEEN
  }

  predicate Tells(e: Event, id: HandleId, ip: Ip) {
    e.Recorded? && e.id == id && e.call.ip == ip
  }

  function After(e: Event, ok: bool, id: HandleId, ip: Ip, o: Observation): Observation {
    if e.Loaded? && e.id == id && ok then UNSEEN
    else if Tells(e, id, ip) then (if ok then Reported(e.call) else UNSEEN)
    else o
  }

  /** The last thing handle `id` heard from `ip` since its load, read off the events and their outcomes alone. */
  ghost function Heard(run: seq<World>, events: seq<Event>, n: nat, id: HandleId, ip: Ip): Observation
    requires IsRun(run, events) && n <= |events|
  {
    if n == 0 then UNSEEN
    else After(events[n - 1], Succeeded(run, events, n - 1), id, ip, Heard(run, events, n - 1, id, ip))
  }

  lemma RecordHolds(file: Option<RosterFile>, h: Handle, c: Call, ip: Ip)
    ensures var s := Record(file, h, c);
      (if ip in s.handle.peers then s.handle.peers[ip] else UNSEEN)
        == if ip != c.ip then (if ip in h.peers then h.peers[ip] else UNSEEN) else if s.ok then Reported(c) else UNSEEN
    ensures Record(file, h, c).handle.available == Record(file, h, c).ok
  {
  }

  lemma StepHolds(w: World, e: Event, id: HandleId, ip: Ip)
    ensures Holds(Step(w, e), id, ip) == After(e, Outcome(w, e).ok, id, ip, Holds(w, id, ip))
  {
    if e.Recorded? && e.id in w.handles { RecordHolds(w.file, w.handles[e.id], e.call, ip); }
  }

  lemma {:induction false} HandleRemembersLast(run: seq<World>, events: seq<Event>, n: nat, id: HandleId, ip: Ip)
    requires IsRun(run, events) && n <= |events|
    ensures Holds(run[n], id, ip) == Heard(run, events, n, id, ip)
  {
    if n > 0 {
      HandleRemembersLast(run, events, n - 1, id, ip);
      StepHolds(run[n - 1], events[n - 1], id, ip);
    }
  }

  ghost predicate Succeeded(run: seq<World>, events: seq<Event>, i: nat)
    requires IsRun(run, events)
  {
    i < |events| && Outcome(run[i], events[i]).ok
  }

  /** Event `j` is the last word of `ip` to this session of handle `id`. */
  ghost predicate IsLatest(run: seq<World>, events: seq<Event>, n: nat, id: HandleId, ip: Ip, j: nat)
    requires IsRun(run, events) && n <= |events|
  {
    && j < n && Tells(events[j], id, ip) && Succeeded(run, events, j)
    && forall k :: j < k < n ==>
      !Tells(events[k], id, ip) && !(events[k].Loaded? && events[k].id == id && Succeeded(run, events, k))
  }

  lemma {:induction false} HeardFrom(run: seq<World>, events: seq<Event>, n: nat, id: HandleId, ip: Ip) returns (j: nat)
    requires IsRun(run, events) && n <= |events| && Heard(run, events, n, id, ip) != UNSEEN
    ensures IsLatest(run, events, n, id, ip, j) && Heard(run, events, n, id, ip) == Reported(events[j].call)
  {
    if Tells(events[n - 1], id, ip) {
      j := n - 1;
    } else {
      j := HeardFrom(run, events, n - 1, id, ip);
    }
  }

  lemma {:induction false} LatestIsHeard(run: seq<World>, events: seq<Event>, n: nat, id: HandleId, ip: Ip, j: nat)
    requires IsRun(run, events) && n <= |events| && IsLatest(run, events, n, id, ip, j)
    ensures Heard(run, events, n, id, ip) == Reported(events[j].call)
    decreases n
  {
    if j < n - 1 { LatestIsHeard(run, events, n - 1, id, ip, j); }
  }

  predicate Available(w: World, id: HandleId) { id in w.handles && w.handles[id].available }

  /** No event of handle `id` in `[i, n)` replaced or changed it. */
  ghost predicate Quiet(run: seq<World>, events: seq<Event>, i: nat, n: nat, id: HandleId)
    requires IsRun(run, events) && n <= |events|
  {
    forall k :: i <= k < n && events[k].id == id ==> events[k].Loaded? && !Succeeded(run, events, k)
  }

  lemma StepAvailable(w: World, e: Event, id: HandleId)
    requires Inv(w) && Available(Step(w, e), id)
    ensures e.id == id ==>
      if Outcome(w, e).ok then (e.Recorded? ==> Step(w, e).handles[id].peers.Keys == Roster(Step(w, e))) else e.Loaded?
    ensures e.id != id || !Outcome(w, e).ok ==> Available(w, id) && Step(w, e).handles[id] == w.handles[id]
  {
    if e.Recorded? && e.id in w.handles {
      RecordKeeps(w.file, w.handles[e.id], e.call);
      RecordHolds(w.file, w.handles[e.id], e.call, 0);
    }
  }

  /** Why a handle is available after `n` events: event `i` made it so. */
  ghost predicate MadeAvailable(run: seq<World>, events: seq<Event>, i: nat, n: nat, id: HandleId)
    requires IsRun(run, events) && n <= |events|
  {
    && i < n && events[i].id == id && Succeeded(run, events, i) && Quiet(run, events, i + 1, n, id)
    && (events[i].Recorded? ==> id in run[n].handles && run[n].handles[id].peers.Keys == Roster(run[i + 1]))
  }

  ghost predicate EffectiveAt(run: seq<World>, events: seq<Event>, n: nat, id: HandleId)
    requires IsRun(run, events) && n < |events|
  {
    events[n].id == id && Succeeded(run, events, n)
  }

  lemma MadeAvailableNow(run: seq<World>, events: seq<Event>, n: nat, id: HandleId)
    requires IsRun(run, events)
    requires n < |events|
    requires Inv(run[n])
    requires Available(run[n + 1], id)
    requires EffectiveAt(run, events, n, id)
    ensures MadeAvailable(run, events, n, n + 1, id)
  {
    StepAvailable(run[n], events[n], id);
  }

  lemma StillAvailable(run: seq<World>, events: seq<Event>, n: nat, id: HandleId)
    requires IsRun(run, events)
    requires n < |events|
    requires Inv(run[n])
    requires Available(run[n + 1], id)
    requires !EffectiveAt(run, events, n, id)
    ensures Available(run[n], id)
    ensures run[n + 1].handles[id] == run[n].handles[id]
    ensures (events[n].id == id ==> events[n].Loaded?)
  {
    StepAvailable(run[n], events[n], id);
  }

  lemma MadeAvailableStays(run: seq<World>, events: seq<Event>, i: nat, n: nat, id: HandleId)
    requires IsRun(run, events)
    requires n < |events|
    requires MadeAvailable(run, events, i, n, id)
    requires !EffectiveAt(run, events, n, id)
    requires events[n].id == id ==> events[n].Loaded?
    requires id in run[n + 1].handles && id in run[n].handles && run[n + 1].handles[id] == run[n].handles[id]
    ensures MadeAvailable(run, events, i, n + 1, id)
  {
  }

  /** A handle is available because its latest effective event succeeded. */
  lemma {:induction false} AvailableFrom(run: seq<World>, events: seq<Event>, n: nat, id: HandleId) returns (i: nat)
    requires IsRun(run, events) && n <= |events| && Available(run[n], id)
    ensures MadeAvailable(run, events, i, n, id)
  {
    RunKeeps(run, events, n - 1);
    if EffectiveAt(run, events, n - 1, id) {
      i := n - 1;
      MadeAvailableNow(run, events, n - 1, id);
    } else {
      StillAvailable(run, events, n - 1, id);
      i := AvailableFrom(run, events, n - 1, id);
      MadeAvailableStays(run, events, i, n - 1, id);
    }
  }

  /** What a convergence claim rests on: which call of each roster peer, and when. */
  ghost predicate Proven(run: seq<World>, events: seq<Event>, id: HandleId, ip: Ip, desired: Identity, now: nat,
                         stale: nat, j: nat)
    requires IsRun(run, events)
  {
    && IsLatest(run, events, |events|, id, ip, j)
    && events[j].call.persisted == Some(desired)
    && events[j].call.active.Some?
    && events[j].call.active.value.artifact == desired
    && events[j].call.now <= now <= events[j].call.now + stale
  }

  ghost predicate Earned(run: seq<World>, events: seq<Event>, id: HandleId, ip: Ip, desired: Identity, now: nat,
                         stale: nat)
    requires IsRun(run, events)
  {
    exists j :: Proven(run, events, id, ip, desired, now, stale, j)
  }

  lemma SuccessIsValid(run: seq<World>, events: seq<Event>, j: nat)
    requires IsRun(run, events) && Succeeded(run, events, j) && events[j].Recorded?
    ensures ValidCall(events[j].call)
  {
  }

  predicate WellFormed(i: Identity) {
    i.epoch > 0 && forall h | h in {i.lineage, i.artifact, i.configRevision, i.policyHash} :: IsHash(h)
  }

  /** Whatever a handle holds about a peer is well-formed: no other acknowledgement was ever taken. */
  lemma HeldIsWellFormed(run: seq<World>, events: seq<Event>, n: nat, id: HandleId, ip: Ip)
    requires IsRun(run, events) && n <= |events|
    ensures var o := Holds(run[n], id, ip);
      && (o.persisted.Some? ==> WellFormed(o.persisted.value))
      && (o.active.Some? ==>
            && WellFormed(o.active.value.artifact)
            && IsHash(o.active.value.localRevision)
            && 0 < |o.active.value.instance| <= 256
            && o.active.value.generation > 0)
  {
    HandleRemembersLast(run, events, n, id, ip);
    if Heard(run, events, n, id, ip) != UNSEEN {
      var j := HeardFrom(run, events, n, id, ip);
      SuccessIsValid(run, events, j);
    }
  }

  lemma AcknowledgesIffEarned(run: seq<World>, events: seq<Event>, id: HandleId, ip: Ip, desired: Identity, now: nat,
                              stale: nat)
    requires IsRun(run, events)
    ensures Acknowledges(Holds(run[|events|], id, ip), desired, now, stale) <==>
      Earned(run, events, id, ip, desired, now, stale)
  {
    var n := |events|;
    HandleRemembersLast(run, events, n, id, ip);
    if Acknowledges(Holds(run[n], id, ip), desired, now, stale) {
      var j := HeardFrom(run, events, n, id, ip);
      assert Proven(run, events, id, ip, desired, now, stale, j);
    }
    if Earned(run, events, id, ip, desired, now, stale) {
      var j :| Proven(run, events, id, ip, desired, now, stale, j);
      LatestIsHeard(run, events, n, id, ip, j);
      SuccessIsValid(run, events, j);
    }
  }

  /**
   A handle that claims convergence made its latest effective event a successful
   record, and every peer of the roster that record saw has in this session
   acknowledged the desired identity, as its last word, within the stale bound.
   */
  lemma ConvergedIsEarned(run: seq<World>, events: seq<Event>, id: HandleId, desired: Identity, now: nat, stale: nat)
    returns (i: nat)
    requires IsRun(run, events)
    requires id in run[|events|].handles
    requires Converged(run[|events|].handles[id], desired, now, stale)
    ensures i < |events|
    ensures events[i].Recorded?
    ensures events[i].id == id
    ensures Succeeded(run, events, i)
    ensures Quiet(run, events, i + 1, |events|, id)
    ensures Roster(run[i + 1]) != {}
    ensures forall ip :: ip in Roster(run[i + 1]) ==> Earned(run, events, id, ip, desired, now, stale)
  {
    var h := run[|events|].handles[id];
    i := AvailableFrom(run, events, |events|, id);
    var ip0 :| ip0 in h.peers;
    AcknowledgesIffEarned(run, events, id, ip0, desired, now, stale);
    var j0 :| Proven(run, events, id, ip0, desired, now, stale, j0);
    assert events[i].Recorded?;
    forall ip | ip in Roster(run[i + 1]) ensures Earned(run, events, id, ip, desired, now, stale) {
      AcknowledgesIffEarned(run, events, id, ip, desired, now, stale);
    }
  }

  /** Conversely, an available handle whose every peer has earned it does claim convergence. */
  lemma EarnedConverges(run: seq<World>, events: seq<Event>, id: HandleId, desired: Identity, now: nat, stale: nat)
    requires IsRun(run, events)
    requires Available(run[|events|], id)
    requires run[|events|].handles[id].peers != map[]
    requires ValidIdentity(desired)
    requires forall ip :: ip in run[|events|].handles[id].peers ==> Earned(run, events, id, ip, desired, now, stale)
    ensures Converged(run[|events|].handles[id], desired, now, stale)
  {
    forall ip | ip in run[|events|].handles[id].peers
      ensures Acknowledges(run[|events|].handles[id].peers[ip], desired, now, stale)
    {
      AcknowledgesIffEarned(run, events, id, ip, desired, now, stale);
    }
  }

  // --------------------------------------------------------------------- the view

  datatype PeerView = PeerView(
    persisted: Option<Identity>, active: Option<ActiveAck>, lastAckSecs: Option<nat>, isFresh: bool)

  /** `view`, by address. */
  function View(h: Handle, now: nat, stale: nat): map<Ip, PeerView> {
    map ip | ip in h.peers ::
      var o := h.peers[ip];
      PeerView(o.persisted, o.active,
               if o.lastAck.Some? && o.lastAck.value <= now then Some((now - o.lastAck.value) / SECOND) else None,
               h.available && Fresh(o.lastAck, now, stale))
  }

  /** Convergence can be read off the view: every row fresh, with the desired identity on disk and active. */
  lemma ConvergedIffViewed(h: Handle, desired: Identity, now: nat, stale: nat)
    ensures var v := View(h, now, stale);
      Converged(h, desired, now, stale) <==>
        && v != map[] && ValidIdentity(desired)
        && forall ip :: ip in v ==>
             && v[ip].isFresh && v[ip].persisted == Some(desired)
             && v[ip].active.Some? && ValidAck(v[ip].active.value) && v[ip].active.value.artifact == desired
  {
    var v := View(h, now, stale);
    assert v.Keys == h.peers.Keys;
    if v != map[] {
      var ip :| ip in v;
      assert ip in h.peers;
    }
    if h.peers != map[] {
      var ip :| ip in h.peers;
      assert ip in v;
    }
  }
}
