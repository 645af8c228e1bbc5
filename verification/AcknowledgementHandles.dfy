/** The objects behind the acknowledgement model, updated in place. */
module AcknowledgementHandles {
  import opened Common
  import opened Acknowledgement

  class RosterStore {
    var file: Option<RosterFile>

    constructor ()
      ensures file == None
    {
      file := None;
    }
  }

  class PeerAcknowledgements {
    var peers: map<Ip, Observation>
    var available: bool

    function View(): Handle
      reads this
    {
      Handle(peers, available)
    }

    /** `load`; on failure the handle is discarded by the caller. */
    constructor (files: RosterStore, ioOk: bool, landed: bool)
      modifies files
      ensures Load(old(files.file), ioOk, landed) == Stored(files.file, View(), available)
    {
      peers := map[];
      available := false;
      new;
      if files.file.None? {
        if ioOk || landed { files.file := Some(RosterFile(1, [])); }
        available := ioOk;
      } else if ioOk && Decode(files.file.value).Some? {
        FillFrom(Decode(files.file.value).value);
        available := true;
      }
    }

    /** Every roster member gets an entry; entries already there stay. */
    method FillFrom(roster: seq<Ip>)
      modifies this`peers
      ensures peers == Filled(old(peers), Members(roster))
    {
      var i := 0;
      while i < |roster|
        invariant 0 <= i <= |roster|
        invariant peers == Filled(old(peers), Members(roster[..i]))
      {
        if roster[i] !in peers { peers := peers[roster[i] := UNSEEN]; }
        i := i + 1;
        assert Members(roster[..i]) == Members(roster[..i - 1]) + {roster[i - 1]};
      }
      assert roster[..i] == roster;
    }

    method Record(files: RosterStore, c: Call) returns (ok: bool)
      modifies this, files
      ensures Stored(files.file, View(), ok) == Acknowledgement.Record(old(files.file), old(View()), c)
    {
      available := false;
      if c.ip in peers { peers := peers[c.ip := UNSEEN]; }
      if !c.guardOk || files.file.None? || Decode(files.file.value).None? { return false; }
      var expected := Decode(files.file.value).value;
      if exists ip :: ip in peers && ip !in expected { return false; }
      assert peers.Keys <= Members(expected);
      if c.ip !in expected {
        if |expected| >= MAX_PEERS { return false; }
        expected := Insert(expected, c.ip);
        if c.writeOk || c.landed { files.file := Some(RosterFile(1, expected)); }
        if !c.writeOk { return false; }
      }
      FillFrom(expected);
      if !ValidCall(c) { return false; }
      peers := peers[c.ip := Reported(c)];
      available := true;
      return true;
    }
  }

  // ------------------------------------------------------------ controlled members

  datatype NodeObservation = NodeObservation(
    seen: Observation, persistedCorpus: Option<string>, activeCorpus: Option<string>, endpoint: string)

  datatype MemberState = Pending | Active | Revoked

  datatype MemberView = MemberView(
    node: string, state: MemberState, endpoint: Option<string>, lastConfirmation: Option<nat>, sync: Option<string>)

  /** Saturating: a confirmation stamped after `now` counts as age zero. */
  predicate Confirmed(o: NodeObservation, now: nat, stale: nat) {
    o.seen.lastAck.Some? && Elapsed(now, o.seen.lastAck.value) <= stale
  }

  function Sync(m: MemberView, o: NodeObservation, desired: Option<Identity>, corpus: Option<string>, now: nat,
                stale: nat): string {
    if m.state == Revoked then "revoked"
    else if !Confirmed(o, now, stale) then "stale"
    else if desired.Some? && o.seen.active.Some? && o.seen.active.value.artifact == desired.value
            && corpus.Some? && o.activeCorpus == corpus
    then "current"
    else "pending"
  }

  function Enriched(obs: map<string, NodeObservation>, m: MemberView, desired: Option<Identity>,
                    corpus: Option<string>, now: nat, stale: nat): MemberView {
    if m.node !in obs then m
    else
      var o := obs[m.node];
      m.(endpoint := Some(o.endpoint),
         lastConfirmation := if o.seen.lastAck.Some? then Some(Elapsed(now, o.seen.lastAck.value) / SECOND) else None,
         sync := Some(Sync(m, o, desired, corpus, now, stale)))
  }

  predicate NodesConverged(obs: map<string, NodeObservation>, expected: seq<MemberView>, desired: Identity,
                           corpus: Option<string>, now: nat, stale: nat) {
    && ValidIdentity(desired) && corpus.Some?
    && forall m :: m in expected && m.state != Revoked ==>
         && m.state == Active && m.node in obs
         && var o := obs[m.node];
            && Confirmed(o, now, stale) && o.seen.persisted == Some(desired)
            && o.seen.active.Some? && ValidAck(o.seen.active.value) && o.seen.active.value.artifact == desired
            && o.persistedCorpus == corpus && o.activeCorpus == corpus
  }

  ghost predicate AllValid(obs: map<string, NodeObservation>) {
    forall node :: node in obs ==> obs[node].seen.active.Some? ==> ValidAck(obs[node].seen.active.value)
  }

  /**
   Convergence is exactly: every unrevoked member is active, shown current, and has the identity
   and corpus on disk.
   */
  lemma ConvergedIffShownCurrent(obs: map<string, NodeObservation>, expected: seq<MemberView>, desired: Identity,
                                 corpus: Option<string>, now: nat, stale: nat)
    requires AllValid(obs)
    ensures NodesConverged(obs, expected, desired, corpus, now, stale) <==>
      && ValidIdentity(desired) && corpus.Some?
      && forall m :: m in expected && m.state != Revoked ==>
           && m.state == Active && m.node in obs
           && Enriched(obs, m, Some(desired), corpus, now, stale).sync == Some("current")
           && obs[m.node].seen.persisted == Some(desired) && obs[m.node].persistedCorpus == corpus
  {
    assert |"current"| == 7 && |"pending"| == 7 && "current"[0] != "pending"[0] && |"stale"| == 5
      && "revoked"[0] == 'r';
    forall m | m in expected && m.state == Active && m.node in obs
      ensures Enriched(obs, m, Some(desired), corpus, now, stale).sync == Some("current") <==>
        (var o := obs[m.node];
         && Confirmed(o, now, stale)
         && o.seen.active.Some?
         && o.seen.active.value.artifact == desired
         && corpus.Some?
         && o.activeCorpus == corpus)
    {
    }
  }

  class NodeAcknowledgements {
    var observations: map<string, NodeObservation>

    constructor ()
      ensures observations == map[] && AllValid(observations)
    {
      observations := map[];
    }

    method Forget(node: string)
      requires AllValid(observations)
      modifies this
      ensures observations == old(observations) - {node} && AllValid(observations)
    {
      observations := observations - {node};
    }

    /** A rejected acknowledgement also forgets what the node said before. */
    method Record(node: string, endpoint: string, persisted: Option<Identity>, active: Option<ActiveAck>,
                  persistedCorpus: Option<string>, activeCorpus: Option<string>, now: nat) returns (ok: bool)
      requires AllValid(observations)
      modifies this
      ensures AllValid(observations)
      ensures ok <==>
        && (persisted.Some? ==> ValidIdentity(persisted.value)) && (active.Some? ==> ValidAck(active.value))
        && (persistedCorpus.Some? ==> IsHash(persistedCorpus.value))
        && (activeCorpus.Some? ==> IsHash(activeCorpus.value))
      ensures ok ==>
        observations == old(observations)[
          node := NodeObservation(Observation(persisted, active, Some(now)), persistedCorpus, activeCorpus, endpoint)]
      ensures !ok ==> observations == old(observations) - {node}
    {
      observations := observations - {node};
      if (persisted.Some? && !ValidIdentity(persisted.value)) || (active.Some? && !ValidAck(active.value)) {
        return false;
      }
      if (persistedCorpus.Some? && !IsHash(persistedCorpus.value))
         || (activeCorpus.Some? && !IsHash(activeCorpus.value))
      {
        return false;
      }
      observations := observations[
        node := NodeObservation(Observation(persisted, active, Some(now)), persistedCorpus, activeCorpus, endpoint)];
      return true;
    }

    method Enrich(roster: array<MemberView>, desired: Option<Identity>, corpus: Option<string>, now: nat, stale: nat)
      modifies roster
      ensures forall i :: 0 <= i < roster.Length ==>
        roster[i] == Enriched(observations, old(roster[i]), desired, corpus, now, stale)
    {
      var i := 0;
      while i < roster.Length
        invariant 0 <= i <= roster.Length
        invariant forall k :: 0 <= k < i ==>
          roster[k] == Enriched(observations, old(roster[k]), desired, corpus, now, stale)
        invariant forall k :: i <= k < roster.Length ==> roster[k] == old(roster[k])
      {
        roster[i] := Enriched(observations, roster[i], desired, corpus, now, stale);
        i := i + 1;
      }
    }
  }
}
