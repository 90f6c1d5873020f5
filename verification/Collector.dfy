/**
 * The mission producer of the agent collector
 * (collectors/observatory_collectors/openclaw_agent/collector.py).
 */
module Collector {
  import opened Wrappers
  import opened Mission

  /** One item of the state file's `missions`; unusable when its id or state is not a string. */
  datatype Entry = Unusable | Report(payload: Payload)

  function IdOf(p: Payload): string {
    p.update.missionId
  }

  /** First sync of an in-flight mission is sent as an explicit backfill. */
  function Stamp(submitted: map<string, MissionState>, p: Payload): Payload {
    if IdOf(p) !in submitted && p.update.state != Created && !p.update.backfill
    then p.(update := p.update.(backfill := true))
    else p
  }

  /** The entry is not sent: its state is the one last submitted. */
  predicate Unchanged(submitted: map<string, MissionState>, p: Payload) {
    IdOf(p) in submitted && submitted[IdOf(p)] == p.update.state
  }

  /** Events produced by one poll, and the dedup map it leaves. */
  function Produce(submitted: map<string, MissionState>, doc: seq<Entry>)
    : (seq<Payload>, map<string, MissionState>)
  {
    if doc == [] then ([], submitted) else
      var (events, seen) := Produce(submitted, doc[..|doc| - 1]);
      match doc[|doc| - 1]
      case Unusable => (events, seen)
      case Report(p) =>
        if Unchanged(seen, p) then (events, seen)
        else (events + [Stamp(seen, p)], seen[IdOf(p) := p.update.state])
  }

  class AgentTelemetry {
    /** Mission id to the state last submitted; recorded when produced, before delivery. */
    var submittedStates: map<string, MissionState>

    constructor ()
      ensures submittedStates == map[]
    {
      submittedStates := map[];
    }

    method ProduceMissionUpdates(doc: seq<Entry>) returns (events: seq<Payload>)
      modifies this
      ensures (events, submittedStates) == Produce(old(submittedStates), doc)
    {
      events := [];
      for i := 0 to |doc|
        invariant (events, submittedStates) == Produce(old(submittedStates), doc[..i])
      {
        assert doc[..i + 1][..i] == doc[..i];
        if doc[i].Unusable? {
          continue;
        }
        var payload := doc[i].payload;
        var id, state := payload.update.missionId, payload.update.state;
        if id in submittedStates && submittedStates[id] == state {
          continue;
        }
        if id !in submittedStates && state != Created && !payload.update.backfill {
          payload := payload.(update := payload.update.(backfill := true));
        }
        events := events + [payload];
        submittedStates := submittedStates[id := state];
      }
      assert doc[..|doc|] == doc;
    }
  }

  /** No mission id occurs twice among the usable entries. */
  ghost predicate DistinctIds(doc: seq<Entry>) {
    forall i, j | 0 <= i < j < |doc| && doc[i].Report? && doc[j].Report? :: IdOf(doc[i].payload) != IdOf(doc[j].payload)
  }

  /** A poll that starts with map `submitted` sends entry `e`, as event `p`. */
  predicate Sends(submitted: map<string, MissionState>, e: Entry, p: Payload) {
    e.Report? && !Unchanged(submitted, e.payload) && p == Stamp(submitted, e.payload)
  }

  /** The entry reports mission `m`. */
  predicate About(e: Entry, m: string) {
    e.Report? && IdOf(e.payload) == m
  }

  /** The events are exactly those sent by the entries, at most one for a mission. */
  ghost predicate SendsExactly(submitted: map<string, MissionState>, doc: seq<Entry>, events: seq<Payload>) {
    && (forall k | 0 <= k < |doc| && doc[k].Report? && !Unchanged(submitted, doc[k].payload) ::
          Stamp(submitted, doc[k].payload) in events)
    && (forall p | p in events :: exists k | 0 <= k < |doc| :: Sends(submitted, doc[k], p))
    && (forall i, j | 0 <= i < j < |events| :: IdOf(events[i]) != IdOf(events[j]))
  }

  /** `seen` holds the state of every entry, and is `submitted` for all other missions. */
  ghost predicate Remembers(submitted: map<string, MissionState>, doc: seq<Entry>, seen: map<string, MissionState>) {
    && (forall k | 0 <= k < |doc| && doc[k].Report? ::
          IdOf(doc[k].payload) in seen && seen[IdOf(doc[k].payload)] == doc[k].payload.update.state)
    && (forall m | NoneAbout(doc, m) ::
          (m in seen <==> m in submitted) && (m in submitted ==> seen[m] == submitted[m]))
  }

  ghost predicate NoneAbout(doc: seq<Entry>, m: string) {
    forall k | 0 <= k < |doc| :: !About(doc[k], m)
  }

  lemma RemembersOneMore(
      submitted: map<string, MissionState>, front: seq<Entry>, last: Entry, seen: map<string, MissionState>)
    requires DistinctIds(front + [last]) && Remembers(submitted, front, seen)
    requires last.Report?
    ensures NoneAbout(front, IdOf(last.payload))
    ensures Remembers(submitted, front + [last], seen[IdOf(last.payload) := last.payload.update.state])
  {
    var doc := front + [last];
    forall k | 0 <= k < |front| ensures !About(front[k], IdOf(last.payload)) {
      assert doc[k] == front[k] && doc[|front|] == last;
    }
    forall m | NoneAbout(doc, m) ensures NoneAbout(front, m) && m != IdOf(last.payload) {
      assert !About(doc[|front|], m);
      assert forall k | 0 <= k < |front| :: doc[k] == front[k];
    }
  }

  lemma SendsOneMore(submitted: map<string, MissionState>, front: seq<Entry>, last: Entry, events: seq<Payload>)
    requires SendsExactly(submitted, front, events)
    requires last.Report? ==> NoneAbout(front, IdOf(last.payload))
    ensures var more := if last.Report? && !Unchanged(submitted, last.payload)
                        then [Stamp(submitted, last.payload)] else [];
            SendsExactly(submitted, front + [last], events + more)
  {
    var doc := front + [last];
    assert doc[|front|] == last && forall k | 0 <= k < |front| :: doc[k] == front[k];
    forall p | p in events
      ensures exists k | 0 <= k < |doc| :: Sends(submitted, doc[k], p)
      ensures last.Report? ==> IdOf(p) != IdOf(last.payload)
    {
      var k :| 0 <= k < |front| && Sends(submitted, front[k], p);
      assert Sends(submitted, doc[k], p);
      assert last.Report? ==> !About(front[k], IdOf(last.payload));
    }
    if last.Report? && !Unchanged(submitted, last.payload) {
      assert Sends(submitted, doc[|front|], Stamp(submitted, last.payload));
    }
  }

  lemma ProduceOneMore(submitted: map<string, MissionState>, front: seq<Entry>, last: Entry)
    ensures var (events, seen) := Produce(submitted, front);
            Produce(submitted, front + [last])
            == if last.Unusable? || Unchanged(seen, last.payload) then (events, seen)
               else (events + [Stamp(seen, last.payload)], seen[IdOf(last.payload) := last.payload.update.state])
  {
    assert (front + [last])[..|front|] == front;
  }

  lemma RemembersUnusable(submitted: map<string, MissionState>, front: seq<Entry>, seen: map<string, MissionState>)
    requires Remembers(submitted, front, seen)
    ensures Remembers(submitted, front + [Unusable], seen)
  {
    var doc := front + [Unusable];
    forall m | NoneAbout(doc, m) ensures NoneAbout(front, m) {
      assert forall k | 0 <= k < |front| :: doc[k] == front[k];
    }
  }

  /** The last entry is judged as the first poll's map would have judged it: no other entry is about its mission. */
  lemma LastEntryIsFresh(
      submitted: map<string, MissionState>, front: seq<Entry>, p: Payload, seen: map<string, MissionState>)
    requires Remembers(submitted, front, seen) && NoneAbout(front, IdOf(p))
    ensures Unchanged(seen, p) <==> Unchanged(submitted, p)
    ensures Stamp(seen, p) == Stamp(submitted, p)
    ensures Unchanged(seen, p) ==> seen[IdOf(p) := p.update.state] == seen
  {
  }

  /**
   * One poll of a document with distinct ids sends one event for each entry
   * whose state changed, stamped against the map the poll began with, and
   * nothing else; afterwards the map holds the state of every entry.
   */
  lemma {:induction false} PollForwardsChanges(submitted: map<string, MissionState>, doc: seq<Entry>)
    requires DistinctIds(doc)
    ensures SendsExactly(submitted, doc, Produce(submitted, doc).0)
    ensures Remembers(submitted, doc, Produce(submitted, doc).1)
  {
    if doc != [] {
      var front, last := doc[..|doc| - 1], doc[|doc| - 1];
      assert doc == front + [last];
      PollForwardsChanges(submitted, front);
      ProduceOneMore(submitted, front, last);
      var (events, seen) := Produce(submitted, front);
      if last.Report? {
        RemembersOneMore(submitted, front, last, seen);
        LastEntryIsFresh(submitted, front, last.payload, seen);
      } else {
        RemembersUnusable(submitted, front, seen);
      }
      SendsOneMore(submitted, front, last, events);
      assert events + [] == events;
    }
  }

  // ---------------------------------------------------------------- //
  // What the events carry
  // ---------------------------------------------------------------- //

  /** The entry's state is not the one last submitted for its mission. */
  predicate News(submitted: map<string, MissionState>, q: Payload) {
    q.update.missionId in submitted ==> submitted[q.update.missionId] != q.update.state
  }

  /** The entries with news, in the order of the file. */
  function NewsIn(submitted: map<string, MissionState>, doc: seq<Entry>): seq<Payload> {
    if doc == [] then [] else
      var e := doc[|doc| - 1];
      NewsIn(submitted, doc[..|doc| - 1]) + if e.Report? && News(submitted, e.payload) then [e.payload] else []
  }

  /**
   * Event `p` carries entry `q` whole. Only `backfill` may differ: it holds if
   * the entry asks for it, and on the first sync of a mission past Created.
   */
  ghost predicate CarriesEntry(submitted: map<string, MissionState>, q: Payload, p: Payload) {
    && p.wellFormed == q.wellFormed
    && p.update.missionId == q.update.missionId
    && p.update.title == q.update.title
    && p.update.state == q.update.state
    && p.update.assignedAgent == q.update.assignedAgent
    && p.update.prRef == q.update.prRef
    && p.update.commitSha == q.update.commitSha
    && (p.update.backfill <==>
          q.update.backfill || (q.update.missionId !in submitted && q.update.state != Created))
  }

  /** The events are the entries with news, one for each, in their order. */
  ghost predicate CarryNews(submitted: map<string, MissionState>, doc: seq<Entry>, events: seq<Payload>) {
    var news := NewsIn(submitted, doc);
    |events| == |news| && forall i | 0 <= i < |news| :: CarriesEntry(submitted, news[i], events[i])
  }

  lemma CarryNewsOneMore(submitted: map<string, MissionState>, front: seq<Entry>, p: Payload, events: seq<Payload>)
    requires CarryNews(submitted, front, events)
    ensures CarryNews(submitted, front + [Report(p)],
                      if News(submitted, p) then events + [Stamp(submitted, p)] else events)
  {
    assert (front + [Report(p)])[..|front|] == front;
  }

  /** One poll of a document with distinct ids sends each entry with news, whole and in order, and nothing else. */
  lemma {:induction false} PollCarriesEntries(submitted: map<string, MissionState>, doc: seq<Entry>)
    requires DistinctIds(doc)
    ensures CarryNews(submitted, doc, Produce(submitted, doc).0)
  {
    if doc != [] {
      var front, last := doc[..|doc| - 1], doc[|doc| - 1];
      assert doc == front + [last];
      PollCarriesEntries(submitted, front);
      PollForwardsChanges(submitted, front);
      ProduceOneMore(submitted, front, last);
      var (events, seen) := Produce(submitted, front);
      if last.Report? {
        RemembersOneMore(submitted, front, last, seen);
        LastEntryIsFresh(submitted, front, last.payload, seen);
        CarryNewsOneMore(submitted, front, last.payload, events);
      } else {
        assert NewsIn(submitted, doc) == NewsIn(submitted, front);
      }
    }
  }

  lemma {:induction false} NewsAreEntries(submitted: map<string, MissionState>, doc: seq<Entry>, q: Payload)
    ensures q in NewsIn(submitted, doc) <==> Report(q) in doc && News(submitted, q)
  {
    if doc != [] {
      var front, last := doc[..|doc| - 1], doc[|doc| - 1];
      assert doc == front + [last];
      NewsAreEntries(submitted, front, q);
    }
  }

  /** Every event is some entry with news, whole, and every entry with news has such an event. */
  lemma EventsAreEntries(submitted: map<string, MissionState>, doc: seq<Entry>)
    requires DistinctIds(doc)
    ensures var events := Produce(submitted, doc).0;
            && (forall p | p in events :: exists q ::
                  Report(q) in doc && News(submitted, q) && CarriesEntry(submitted, q, p))
            && (forall q | Report(q) in doc && News(submitted, q) :: exists p ::
                  p in events && CarriesEntry(submitted, q, p))
  {
    PollCarriesEntries(submitted, doc);
    var events, news := Produce(submitted, doc).0, NewsIn(submitted, doc);
    forall p | p in events
      ensures exists q :: Report(q) in doc && News(submitted, q) && CarriesEntry(submitted, q, p)
    {
      var i :| 0 <= i < |events| && events[i] == p;
      NewsAreEntries(submitted, doc, news[i]);
      assert CarriesEntry(submitted, news[i], events[i]);
    }
    forall q | Report(q) in doc && News(submitted, q)
      ensures exists p :: p in events && CarriesEntry(submitted, q, p)
    {
      NewsAreEntries(submitted, doc, q);
      var i :| 0 <= i < |news| && news[i] == q;
      assert events[i] in events && CarriesEntry(submitted, news[i], events[i]);
    }
  }
}
