/** Controlled members over whole histories: a row shows the node's last word, and nothing else. */
module NodeRuns {
  import opened Common
  import opened Acknowledgement
  import opened AcknowledgementHandles

  datatype Word = Word(
    persisted: Option<Identity>, active: Option<ActiveAck>,
    persistedCorpus: Option<string>, activeCorpus: Option<string>, endpoint: string, at: nat)

  datatype NodeEvent = Said(node: string, word: Word) | Forgot(node: string)

  predicate Admissible(w: Word) {
    && (w.persisted.Some? ==> WellFormed(w.persisted.value))
    && (w.active.Some? ==>
          && WellFormed(w.active.value.artifact)
          && IsHash(w.active.value.localRevision)
          && 0 < |w.active.value.instance| <= 256
          && w.active.value.generation > 0)
    && (w.persistedCorpus.Some? ==> IsHash(w.persistedCorpus.value))
    && (w.activeCorpus.Some? ==> IsHash(w.activeCorpus.value))
  }

  /** The events carried out in order on one object. */
  method Replay(events: seq<NodeEvent>) returns (nodes: NodeAcknowledgements)
    ensures fresh(nodes) && AllValid(nodes.observations)
    ensures forall node :: Reflects(nodes.observations, node, LastWord(events, |events|, node))
  {
    nodes := new NodeAcknowledgements();
    var i := 0;
    while i < |events|
      invariant 0 <= i <= |events| && fresh(nodes) && AllValid(nodes.observations)
      invariant forall node :: Reflects(nodes.observations, node, LastWord(events, i, node))
    {
      match events[i] {
        case Said(node, w) =>
          var ok := nodes.Record(node, w.endpoint, w.persisted, w.active, w.persistedCorpus, w.activeCorpus, w.at);
        case Forgot(node) => nodes.Forget(node);
      }
      i := i + 1;
    }
  }

  /** The last word of a node among the first `n` events, unless it was refused or forgotten since. */
  function LastWord(events: seq<NodeEvent>, n: nat, node: string): Option<Word>
    requires n <= |events|
  {
    if n == 0 then None
    else if events[n - 1].node != node then LastWord(events, n - 1, node)
    else if events[n - 1].Said? && Admissible(events[n - 1].word) then Some(events[n - 1].word) else None
  }

  ghost predicate Reflects(obs: map<string, NodeObservation>, node: string, w: Option<Word>) {
    if w.None? then node !in obs
    else
      && node in obs
      && obs[node] == NodeObservation(Observation(w.value.persisted, w.value.active, Some(w.value.at)),
                                      w.value.persistedCorpus, w.value.activeCorpus, w.value.endpoint)
  }

  /** The row of a node whose last word is `w`. */
  predicate Shows(m: MemberView, w: Word, desired: Option<Identity>, corpus: Option<string>, now: nat, stale: nat,
                  row: MemberView) {
    var age := if now < w.at then 0 else now - w.at;
    && row.node == m.node && row.state == m.state
    && row.endpoint == Some(w.endpoint)
    && row.lastConfirmation == Some(age / SECOND)
    && (row.sync == Some("revoked") <==> m.state == Revoked)
    && (row.sync == Some("stale") <==> m.state != Revoked && age > stale)
    && (row.sync == Some("current") <==>
          && m.state != Revoked && age <= stale
          && desired.Some? && w.active.Some? && w.active.value.artifact == desired.value
          && corpus.Some? && w.activeCorpus == corpus)
    && (row.sync == Some("pending") <==>
          && m.state != Revoked && age <= stale
          && !(desired.Some? && w.active.Some? && w.active.value.artifact == desired.value
               && corpus.Some? && w.activeCorpus == corpus))
  }

  /** A member's row is left alone without a word of its node, and otherwise shows that word and its age. */
  lemma RowShowsLastWord(obs: map<string, NodeObservation>, events: seq<NodeEvent>, m: MemberView,
                         desired: Option<Identity>, corpus: Option<string>, now: nat, stale: nat)
    requires Reflects(obs, m.node, LastWord(events, |events|, m.node))
    ensures var w, row := LastWord(events, |events|, m.node), Enriched(obs, m, desired, corpus, now, stale);
      if w.None? then row == m else Shows(m, w.value, desired, corpus, now, stale, row)
  {
    assert |"revoked"| == 7 && |"current"| == 7 && |"pending"| == 7 && |"stale"| == 5;
    assert "revoked"[0] == 'r' && "current"[0] == 'c' && "pending"[0] == 'p';
  }
}
