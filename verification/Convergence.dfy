/**
 * Collector, client and backend together: what the projection says after the
 * events of a poll were delivered, each by any number of overlapping attempts.
 */
module Convergence {
  import opened Wrappers
  import opened Mission
  import opened Projection
  import opened Ingestion
  import opened Retries
  import opened Stragglers
  import opened Collector

  /** The client submits one body for each produced event. */
  ghost predicate Carries(bodies: seq<Body>, events: seq<Payload>) {
    |bodies| == |events| && forall i | 0 <= i < |bodies| :: bodies[i].payload == events[i]
  }

  ghost predicate ArrivalsFrom(steps: seq<Step>, bodies: seq<Body>) {
    forall i | 0 <= i < |steps| :: steps[i].Arrive? ==> steps[i].body in bodies
  }

  /** The client stopped with a definite answer: accepted, or refused. */
  ghost predicate Delivered(s: Backend, t: Backend, b: Body) {
    exists i, status :: Ended(s, t, b, i, status) && (status.Accepted? || Refused(status))
  }

  /**
   * One fully delivered poll: from backend `s`, with whatever attempts it still
   * has in flight, only `bodies` arrive, and each got a definite answer by the
   * end of the run.
   */
  ghost predicate DeliversPoll(s: Backend, events: seq<Payload>, bodies: seq<Body>, steps: seq<Step>) {
    && Inv(s)
    && Carries(bodies, events)
    && Runs(s, steps) && ArrivalsFrom(steps, bodies)
    && forall b | b in bodies :: Delivered(s, After(s, steps), b)
  }

  // ---------------------------------------------------------------- //
  // A delivered poll acts on each mission as one clean attempt
  // ---------------------------------------------------------------- //

  lemma {:induction false} MissionWithoutRequestsIsUntouched(s: Backend, steps: seq<Step>, m: string)
    requires IdleAt(s, m) && Runs(s, steps)
    requires forall i | 0 <= i < |steps| :: steps[i].Arrive? ==> MissionOf(steps[i].body) != m
    ensures Lookup(After(s, steps).missions, m) == Lookup(s.missions, m)
    decreases |steps|
  {
    if steps != [] {
      var t := Exec(s, steps[0]);
      assert Lookup(t.missions, m) == Lookup(s.missions, m);
      assert forall i | 0 <= i < |steps[1..]| :: steps[1..][i] == steps[i + 1];
      MissionWithoutRequestsIsUntouched(t, steps[1..], m);
    }
  }

  ghost predicate DistinctMissions(events: seq<Payload>) {
    forall i, j | 0 <= i < j < |events| :: IdOf(events[i]) != IdOf(events[j])
  }

  lemma OnlyBodyOfItsMission(events: seq<Payload>, bodies: seq<Body>, steps: seq<Step>, b: Body)
    requires Carries(bodies, events) && DistinctMissions(events) && ArrivalsFrom(steps, bodies) && b in bodies
    ensures ArrivalsAre(steps, MissionOf(b), b)
  {
    forall i | 0 <= i < |steps| && steps[i].Arrive? && MissionOf(steps[i].body) == MissionOf(b)
      ensures steps[i].body == b
    {
      var j :| 0 <= j < |bodies| && bodies[j] == steps[i].body;
      var k :| 0 <= k < |bodies| && bodies[k] == b;
      assert IdOf(events[j]) == IdOf(events[k]);
    }
  }

  /** With the mission idle, delivering an event projects it once if it is legal, and changes nothing otherwise. */
  lemma DeliveredEvent(s: Backend, events: seq<Payload>, bodies: seq<Body>, steps: seq<Step>, b: Body)
    requires DeliversPoll(s, events, bodies, steps) && DistinctMissions(events) && b in bodies
    requires IdleAt(s, MissionOf(b))
    ensures var t := After(s, steps);
            var base, stored := Lookup(s.missions, MissionOf(b)), Lookup(t.missions, MissionOf(b));
            && (if Accepts(base, b) then Settled(base, b, stored) else stored == base)
            && ((exists i, status :: Ended(s, t, b, i, status) && Refused(status)) <==> !Accepts(base, b))
  {
    OnlyBodyOfItsMission(events, bodies, steps, b);
    RetriesActAsOneAttempt(s, steps, b);
    var t := After(s, steps);
    assert Delivered(s, t, b);
    var i, status :| Ended(s, t, b, i, status) && (status.Accepted? || Refused(status));
  }

  ghost predicate SomeRefused(s: Backend, t: Backend, b: Body) {
    exists i, status :: Ended(s, t, b, i, status) && Refused(status)
  }

  /** With the mission merely quiet, the same holds of its state, and a legal event leaves it quiet. */
  lemma DeliveredState(s: Backend, events: seq<Payload>, bodies: seq<Body>, steps: seq<Step>, b: Body)
    requires DeliversPoll(s, events, bodies, steps) && DistinctMissions(events) && b in bodies
    requires Quiet(s, MissionOf(b))
    ensures var t, m := After(s, steps), MissionOf(b);
            var legal := Accepts(Lookup(s.missions, m), b);
            && StateAt(t, m) == (if legal then Some(StateOf(b)) else StateAt(s, m))
            && (legal ==> Quiet(t, m))
            && (SomeRefused(s, t, b) <==> !legal)
  {
    OnlyBodyOfItsMission(events, bodies, steps, b);
    ForwardsRun(s, b, s, steps);
    var t := After(s, steps);
    assert Delivered(s, t, b);
    var i, status :| Ended(s, t, b, i, status) && (status.Accepted? || Refused(status));
  }

  // ---------------------------------------------------------------- //
  // Convergence after a restart of the collector
  // ---------------------------------------------------------------- //

  /** The file's state for a mission can be imported: it is valid and not behind the projection. */
  predicate NotBehind(stored: Option<MissionRecord>, p: Payload) {
    && p.PassesSchema()
    && Index(p.update.state) >= 0
    && (stored.Some? ==> Index(p.update.state) >= Index(stored.value.state))
  }

  /** An event sent on first sync is legal exactly when its state is not behind the projection. */
  lemma FirstSyncIsLegal(s: Backend, submitted: map<string, MissionState>, p: Payload, b: Body)
    requires Inv(s) && IdOf(p) !in submitted && b.payload == Stamp(submitted, p)
    ensures Accepts(Lookup(s.missions, IdOf(p)), b) <==> NotBehind(Lookup(s.missions, IdOf(p)), p)
  {
    if IdOf(p) in s.missions {
      StoredIsConsistent(s, IdOf(p));
    }
  }

  lemma BodyOfEvent(events: seq<Payload>, bodies: seq<Body>, p: Payload) returns (b: Body)
    requires Carries(bodies, events) && p in events
    ensures b in bodies && b.payload == p
  {
    var i :| 0 <= i < |events| && events[i] == p;
    b := bodies[i];
  }

  lemma NoEventNoChange(s: Backend, events: seq<Payload>, bodies: seq<Body>, steps: seq<Step>, m: string)
    requires DeliversPoll(s, events, bodies, steps)
    requires forall p | p in events :: IdOf(p) != m
    ensures IdleAt(s, m) ==> Lookup(After(s, steps).missions, m) == Lookup(s.missions, m)
    ensures Quiet(s, m) ==> Quiet(After(s, steps), m) && StateAt(After(s, steps), m) == StateAt(s, m)
  {
    forall i | 0 <= i < |steps| && steps[i].Arrive? ensures MissionOf(steps[i].body) != m {
      var j :| 0 <= j < |bodies| && bodies[j] == steps[i].body;
      assert events[j] in events;
    }
    if IdleAt(s, m) {
      MissionWithoutRequestsIsUntouched(s, steps, m);
    }
    if Quiet(s, m) {
      QuietStays(s, steps, m);
    }
  }

  lemma UnmentionedIsUntouched(
      s: Backend, submitted: map<string, MissionState>, doc: seq<Entry>, bodies: seq<Body>, steps: seq<Step>,
      m: string)
    requires DistinctIds(doc) && NoneAbout(doc, m)
    requires DeliversPoll(s, Produce(submitted, doc).0, bodies, steps)
    ensures IdleAt(s, m) ==> Lookup(After(s, steps).missions, m) == Lookup(s.missions, m)
    ensures Quiet(s, m) ==> Quiet(After(s, steps), m) && StateAt(After(s, steps), m) == StateAt(s, m)
  {
    var events := Produce(submitted, doc).0;
    PollForwardsChanges(submitted, doc);
    forall p | p in events ensures IdOf(p) != m {
      var k :| 0 <= k < |doc| && Sends(submitted, doc[k], p);
      assert !About(doc[k], m);
    }
    NoEventNoChange(s, events, bodies, steps, m);
  }

  lemma SentEntry(
      s: Backend, submitted: map<string, MissionState>, doc: seq<Entry>, bodies: seq<Body>, steps: seq<Step>,
      p: Payload)
    returns (b: Body)
    requires DistinctIds(doc) && Report(p) in doc && !Unchanged(submitted, p)
    requires DeliversPoll(s, Produce(submitted, doc).0, bodies, steps)
    ensures b in bodies && b.payload == Stamp(submitted, p)
  {
    PollForwardsChanges(submitted, doc);
    var k :| 0 <= k < |doc| && doc[k] == Report(p);
    b := BodyOfEvent(Produce(submitted, doc).0, bodies, Stamp(submitted, p));
  }

  /** An entry that was sent decides the state of a quiet mission. */
  lemma SentEntryIsDelivered(
      s: Backend, submitted: map<string, MissionState>, doc: seq<Entry>, bodies: seq<Body>, steps: seq<Step>,
      p: Payload)
    returns (b: Body)
    requires DistinctIds(doc) && Report(p) in doc && !Unchanged(submitted, p)
    requires DeliversPoll(s, Produce(submitted, doc).0, bodies, steps) && Quiet(s, IdOf(p))
    ensures b in bodies && b.payload == Stamp(submitted, p)
    ensures var t, legal := After(s, steps), Accepts(Lookup(s.missions, IdOf(p)), b);
            && StateAt(t, IdOf(p)) == (if legal then Some(p.update.state) else StateAt(s, IdOf(p)))
            && (legal ==> Quiet(t, IdOf(p)))
            && (SomeRefused(s, t, b) <==> !legal)
  {
    b := SentEntry(s, submitted, doc, bodies, steps, p);
    PollForwardsChanges(submitted, doc);
    DeliveredState(s, Produce(submitted, doc).0, bodies, steps, b);
  }

  /** The mission's projected state is the file's. */
  predicate AtFile(s: Backend, p: Payload) {
    StateAt(s, IdOf(p)) == Some(p.update.state)
  }

  /** What a delivered poll of a restarted collector does to a mission that was idle. */
  ghost predicate Imports(s: Backend, t: Backend, p: Payload) {
    var before, after := Lookup(s.missions, IdOf(p)), Lookup(t.missions, IdOf(p));
    if NotBehind(before, p) then AtFile(t, p) && ShowsEntry(before, after.value, p) else after == before
  }

  /** The record shows the file's title, agent, PR and commit where it has any, and what it showed before where not. */
  ghost predicate ShowsEntry(before: Option<MissionRecord>, r: MissionRecord, p: Payload) {
    var u := p.update;
    && r.title == (if u.title != "" then u.title else if before.Some? then before.value.title else u.missionId)
    && (if u.assignedAgent.Some? && u.assignedAgent.value != "" then r.assignedAgent == u.assignedAgent
        else r.assignedAgent == if before.Some? then before.value.assignedAgent else None)
    && (if u.prRef.Some? && u.prRef.value != "" then r.prRef == u.prRef
        else r.prRef == if before.Some? then before.value.prRef else None)
    && (if u.commitSha.Some? && u.commitSha.value != "" then r.commitSha == u.commitSha
        else r.commitSha == if before.Some? then before.value.commitSha else None)
  }

  /** After the poll, only a valid file state that others have overtaken is not the projected one. */
  lemma NotBehindIsAtFile(s: Backend, doc: seq<Entry>, bodies: seq<Body>, steps: seq<Step>, p: Payload)
    requires DistinctIds(doc) && Report(p) in doc
    requires DeliversPoll(s, Produce(map[], doc).0, bodies, steps)
    requires NotBehind(Lookup(After(s, steps).missions, IdOf(p)), p)
    ensures AtFile(After(s, steps), p)
  {
    var t := After(s, steps);
    var b := SentEntry(s, map[], doc, bodies, steps, p);
    assert AnswersLast(|s.attempts|, b, s);
    AnswersLastRun(|s.attempts|, b, s, steps);
    assert Delivered(s, t, b);
    var i, status :| Ended(s, t, b, i, status) && (status.Accepted? || Refused(status));
    assert AnswerLasts(t, b, t.attempts[i].phase.status);
    assert Index(t.missions[IdOf(p)].state) == Index(p.update.state);
  }

  lemma IdleEntryIsImported(s: Backend, doc: seq<Entry>, bodies: seq<Body>, steps: seq<Step>, p: Payload)
    requires DistinctIds(doc) && Report(p) in doc && IdleAt(s, IdOf(p))
    requires DeliversPoll(s, Produce(map[], doc).0, bodies, steps)
    ensures Imports(s, After(s, steps), p)
  {
    var b := SentEntry(s, map[], doc, bodies, steps, p);
    PollForwardsChanges(map[], doc);
    DeliveredEvent(s, Produce(map[], doc).0, bodies, steps, b);
    FirstSyncIsLegal(s, map[], p, b);
  }

  /**
   * From any reachable backend -- after lost deliveries, refusals, events
   * stored but never projected, and with any attempts still in flight -- one
   * delivered poll by a restarted collector makes the projection agree with the
   * file on every mission whose file state is valid and not behind. A mission
   * that was idle is judged by where it stood before the poll, and is left as
   * it was if the file is behind or does not mention it.
   */
  lemma RestartConverges(past: seq<Step>, doc: seq<Entry>, bodies: seq<Body>, steps: seq<Step>)
    requires Runs(EMPTY, past) && DistinctIds(doc)
    requires DeliversPoll(After(EMPTY, past), Produce(map[], doc).0, bodies, steps)
    ensures var s := After(EMPTY, past);
            var t := After(s, steps);
            && (forall p | Report(p) in doc && NotBehind(Lookup(t.missions, IdOf(p)), p) :: AtFile(t, p))
            && (forall p | Report(p) in doc && IdleAt(s, IdOf(p)) :: Imports(s, t, p))
            && (forall m | NoneAbout(doc, m) && IdleAt(s, m) :: Lookup(t.missions, m) == Lookup(s.missions, m))
  {
    var s := After(EMPTY, past);
    var t := After(s, steps);
    forall p | Report(p) in doc && NotBehind(Lookup(t.missions, IdOf(p)), p) ensures AtFile(t, p) {
      NotBehindIsAtFile(s, doc, bodies, steps, p);
    }
    forall p | Report(p) in doc && IdleAt(s, IdOf(p)) ensures Imports(s, t, p) {
      IdleEntryIsImported(s, doc, bodies, steps, p);
    }
    forall m | NoneAbout(doc, m) && IdleAt(s, m) ensures Lookup(t.missions, m) == Lookup(s.missions, m) {
      UnmentionedIsUntouched(s, map[], doc, bodies, steps, m);
    }
  }

  // ---------------------------------------------------------------- //
  // Lockstep
  // ---------------------------------------------------------------- //

  /** Every mission in the dedup map is projected in the state last submitted. */
  ghost predicate Synced(s: Backend, submitted: map<string, MissionState>) {
    forall m | m in submitted :: m in s.missions && s.missions[m].state == submitted[m]
  }

  /**
   * The file moved a mission as the lifecycle allows: it stayed, it advanced
   * one step (or further under an explicit backfill), or it is a first sync
   * that is not behind.
   */
  predicate Steady(s: Backend, submitted: map<string, MissionState>, p: Payload) {
    if IdOf(p) !in submitted then NotBehind(Lookup(s.missions, IdOf(p)), p)
    else
      var delta := Index(p.update.state) - Index(submitted[IdOf(p)]);
      || submitted[IdOf(p)] == p.update.state
      || (p.PassesSchema() && Index(p.update.state) >= 0 && (delta == 1 || (p.update.backfill && delta >= 0)))
  }

  lemma SentIsLegalWhenSteady(s: Backend, submitted: map<string, MissionState>, p: Payload, b: Body)
    requires Inv(s) && Synced(s, submitted)
    requires !Unchanged(submitted, p) && b.payload == Stamp(submitted, p)
    ensures Accepts(Lookup(s.missions, IdOf(p)), b) <==> Steady(s, submitted, p)
  {
    if IdOf(p) !in submitted {
      FirstSyncIsLegal(s, submitted, p, b);
    } else {
      StoredIsConsistent(s, IdOf(p));
    }
  }

  /** What is in flight for a mission that the map or the file mentions carries the state the mission has. */
  ghost predicate QuietFor(s: Backend, submitted: map<string, MissionState>, doc: seq<Entry>) {
    forall m | m in submitted || !NoneAbout(doc, m) :: Quiet(s, m)
  }

  lemma ReportedIsQuiet(s: Backend, submitted: map<string, MissionState>, doc: seq<Entry>, p: Payload)
    requires QuietFor(s, submitted, doc) && Report(p) in doc
    ensures Quiet(s, IdOf(p))
  {
    var k :| 0 <= k < |doc| && doc[k] == Report(p);
    assert About(doc[k], IdOf(p));
  }

  ghost predicate NothingRefused(s: Backend, t: Backend, bodies: seq<Body>) {
    forall b, i, status | b in bodies && Ended(s, t, b, i, status) :: !Refused(status)
  }

  ghost predicate AllSteady(s: Backend, submitted: map<string, MissionState>, doc: seq<Entry>) {
    forall p | Report(p) in doc :: Steady(s, submitted, p)
  }

  /** Dedup map and projection both equal the file. */
  ghost predicate Agrees(t: Backend, seen: map<string, MissionState>, doc: seq<Entry>) {
    forall p | Report(p) in doc ::
      && IdOf(p) in seen && seen[IdOf(p)] == p.update.state
      && IdOf(p) in t.missions && t.missions[IdOf(p)].state == p.update.state
  }

  lemma SteadyEntryAgrees(
      s: Backend, submitted: map<string, MissionState>, doc: seq<Entry>, bodies: seq<Body>, steps: seq<Step>,
      p: Payload)
    requires DistinctIds(doc) && Synced(s, submitted) && Quiet(s, IdOf(p))
    requires DeliversPoll(s, Produce(submitted, doc).0, bodies, steps)
    requires Report(p) in doc && Steady(s, submitted, p)
    ensures AtFile(After(s, steps), p) && Quiet(After(s, steps), IdOf(p))
  {
    if Unchanged(submitted, p) {
      var events := Produce(submitted, doc).0;
      PollForwardsChanges(submitted, doc);
      var k :| 0 <= k < |doc| && doc[k] == Report(p);
      forall q | q in events ensures IdOf(q) != IdOf(p) {
        var j :| 0 <= j < |doc| && Sends(submitted, doc[j], q);
        assert j != k;
      }
      NoEventNoChange(s, events, bodies, steps, IdOf(p));
    } else {
      var b := SentEntryIsDelivered(s, submitted, doc, bodies, steps, p);
      SentIsLegalWhenSteady(s, submitted, p, b);
    }
  }

  lemma EventComesFromEntry(
      submitted: map<string, MissionState>, doc: seq<Entry>, bodies: seq<Body>, b: Body)
      returns (p: Payload)
    requires DistinctIds(doc) && Carries(bodies, Produce(submitted, doc).0) && b in bodies
    ensures Report(p) in doc && !Unchanged(submitted, p) && b.payload == Stamp(submitted, p)
  {
    PollForwardsChanges(submitted, doc);
    var j :| 0 <= j < |bodies| && bodies[j] == b;
    assert Produce(submitted, doc).0[j] in Produce(submitted, doc).0;
    var k :| 0 <= k < |doc| && Sends(submitted, doc[k], b.payload);
    p := doc[k].payload;
  }

  lemma NothingRefusedWhenSteady(
      s: Backend, submitted: map<string, MissionState>, doc: seq<Entry>, bodies: seq<Body>, steps: seq<Step>)
    requires DistinctIds(doc) && Synced(s, submitted) && QuietFor(s, submitted, doc) && AllSteady(s, submitted, doc)
    requires DeliversPoll(s, Produce(submitted, doc).0, bodies, steps)
    ensures NothingRefused(s, After(s, steps), bodies)
  {
    PollForwardsChanges(submitted, doc);
    forall b, i, status | b in bodies && Ended(s, After(s, steps), b, i, status) ensures !Refused(status) {
      var p := EventComesFromEntry(submitted, doc, bodies, b);
      ReportedIsQuiet(s, submitted, doc, p);
      SentIsLegalWhenSteady(s, submitted, p, b);
      DeliveredState(s, Produce(submitted, doc).0, bodies, steps, b);
    }
  }

  lemma RefusedIffUnsteady(
      s: Backend, submitted: map<string, MissionState>, doc: seq<Entry>, bodies: seq<Body>, steps: seq<Step>)
    requires DistinctIds(doc) && Synced(s, submitted) && QuietFor(s, submitted, doc)
    requires DeliversPoll(s, Produce(submitted, doc).0, bodies, steps)
    ensures NothingRefused(s, After(s, steps), bodies) <==> AllSteady(s, submitted, doc)
  {
    if AllSteady(s, submitted, doc) {
      NothingRefusedWhenSteady(s, submitted, doc, bodies, steps);
    } else {
      var p :| Report(p) in doc && !Steady(s, submitted, p);
      ReportedIsQuiet(s, submitted, doc, p);
      var b := SentEntryIsDelivered(s, submitted, doc, bodies, steps, p);
      SentIsLegalWhenSteady(s, submitted, p, b);
    }
  }

  /** After a steady round the map and the projection agree everywhere, and no straggler can disturb them. */
  lemma SteadyRoundKeepsSync(
      s: Backend, submitted: map<string, MissionState>, doc: seq<Entry>, bodies: seq<Body>, steps: seq<Step>,
      m: string)
    requires DistinctIds(doc) && Synced(s, submitted) && QuietFor(s, submitted, doc) && AllSteady(s, submitted, doc)
    requires DeliversPoll(s, Produce(submitted, doc).0, bodies, steps)
    ensures var t, seen := After(s, steps), Produce(submitted, doc).1;
            m in seen ==> Quiet(t, m) && StateAt(t, m) == Some(seen[m])
  {
    PollForwardsChanges(submitted, doc);
    if NoneAbout(doc, m) {
      UnmentionedIsUntouched(s, submitted, doc, bodies, steps, m);
    } else {
      var k :| 0 <= k < |doc| && About(doc[k], m);
      assert Report(doc[k].payload) in doc;
      SteadyEntryAgrees(s, submitted, doc, bodies, steps, doc[k].payload);
    }
  }

  /**
   * While dedup map and projection agree and stragglers of the missions in
   * question are harmless, a delivered poll is refused nothing exactly when
   * every entry moved as the lifecycle allows; then both equal the file
   * afterwards, still agree everywhere, and whatever is still in flight for a
   * mission in the map is harmless again.
   */
  lemma LockstepRound(
      s: Backend, submitted: map<string, MissionState>, doc: seq<Entry>, bodies: seq<Body>, steps: seq<Step>)
    requires DistinctIds(doc) && Synced(s, submitted) && QuietFor(s, submitted, doc)
    requires DeliversPoll(s, Produce(submitted, doc).0, bodies, steps)
    ensures var t, seen := After(s, steps), Produce(submitted, doc).1;
            && (NothingRefused(s, t, bodies) <==> AllSteady(s, submitted, doc))
            && (AllSteady(s, submitted, doc) ==> Agrees(t, seen, doc) && Synced(t, seen) && QuietFor(t, seen, []))
  {
    RefusedIffUnsteady(s, submitted, doc, bodies, steps);
    if AllSteady(s, submitted, doc) {
      var t, seen := After(s, steps), Produce(submitted, doc).1;
      forall m | m in seen ensures Quiet(t, m) && StateAt(t, m) == Some(seen[m]) {
        SteadyRoundKeepsSync(s, submitted, doc, bodies, steps, m);
      }
      SyncedFileAgrees(t, submitted, doc);
    }
  }

  lemma SyncedFileAgrees(t: Backend, submitted: map<string, MissionState>, doc: seq<Entry>)
    requires DistinctIds(doc)
    requires var seen := Produce(submitted, doc).1; forall m | m in seen :: StateAt(t, m) == Some(seen[m])
    ensures Agrees(t, Produce(submitted, doc).1, doc) && Synced(t, Produce(submitted, doc).1)
  {
    var seen := Produce(submitted, doc).1;
    forall p | Report(p) in doc ensures IdOf(p) in seen && seen[IdOf(p)] == p.update.state && AtFile(t, p) {
      PollRemembers(submitted, doc, p);
    }
    forall m | m in seen ensures m in t.missions && t.missions[m].state == seen[m] {
      assert StateAt(t, m) == Some(seen[m]);
    }
  }

  /** One poll interval: the file as read, the bodies sent for it, and the run that delivered them. */
  datatype Round = Round(doc: seq<Entry>, bodies: seq<Body>, steps: seq<Step>)

  /**
   * Every round is delivered and its file moved as the lifecycle allows. A
   * mission that a file is the first to mention is not disturbed by others.
   */
  ghost predicate SteadyRounds(s: Backend, submitted: map<string, MissionState>, rounds: seq<Round>)
    decreases |rounds|
  {
    rounds == [] ||
    (var r := rounds[0];
     && DistinctIds(r.doc)
     && DeliversPoll(s, Produce(submitted, r.doc).0, r.bodies, r.steps)
     && AllSteady(s, submitted, r.doc)
     && (forall m | m !in submitted && !NoneAbout(r.doc, m) :: Quiet(s, m))
     && SteadyRounds(After(s, r.steps), Produce(submitted, r.doc).1, rounds[1..]))
  }

  /** In every round nothing is refused, and map and projection end equal to that round's file. */
  ghost predicate InLockstep(s: Backend, submitted: map<string, MissionState>, rounds: seq<Round>)
    requires SteadyRounds(s, submitted, rounds)
    decreases |rounds|
  {
    rounds == [] ||
    (var r := rounds[0];
     var t, seen := After(s, r.steps), Produce(submitted, r.doc).1;
     && NothingRefused(s, t, r.bodies)
     && Agrees(t, seen, r.doc)
     && InLockstep(t, seen, rounds[1..]))
  }

  lemma {:induction false} LockstepHolds(s: Backend, submitted: map<string, MissionState>, rounds: seq<Round>)
    requires Synced(s, submitted) && QuietFor(s, submitted, []) && SteadyRounds(s, submitted, rounds)
    ensures InLockstep(s, submitted, rounds)
    decreases |rounds|
  {
    if rounds != [] {
      var r := rounds[0];
      LockstepRound(s, submitted, r.doc, r.bodies, r.steps);
      LockstepHolds(After(s, r.steps), Produce(submitted, r.doc).1, rounds[1..]);
    }
  }

  // ---------------------------------------------------------------- //
  // From a restart into lockstep
  // ---------------------------------------------------------------- //

  /** No file state was behind the projection by the end of the poll. */
  ghost predicate NoneBehind(t: Backend, doc: seq<Entry>) {
    forall p | Report(p) in doc :: NotBehind(Lookup(t.missions, IdOf(p)), p)
  }

  /** After a restart poll only its own, harmless attempts can still be in flight for a mission of the file. */
  lemma RestartedMissionIsQuiet(s: Backend, doc: seq<Entry>, bodies: seq<Body>, steps: seq<Step>, p: Payload)
    requires DistinctIds(doc) && Report(p) in doc
    requires DeliversPoll(s, Produce(map[], doc).0, bodies, steps)
    requires NotBehind(Lookup(After(s, steps).missions, IdOf(p)), p)
    ensures AtFile(After(s, steps), p) && Quiet(After(s, steps), IdOf(p))
  {
    var t, m := After(s, steps), IdOf(p);
    NotBehindIsAtFile(s, doc, bodies, steps, p);
    var b := SentEntry(s, map[], doc, bodies, steps, p);
    PollForwardsChanges(map[], doc);
    OnlyBodyOfItsMission(Produce(map[], doc).0, bodies, steps, b);
    NewcomerRemains(|s.attempts|, m, b, s, steps);
    assert Delivered(s, t, b);
    var i, status :| Ended(s, t, b, i, status) && (status.Accepted? || Refused(status));
    assert MissionOf(t.attempts[i].body) == m;
  }

  lemma RestartSyncs(s: Backend, doc: seq<Entry>, bodies: seq<Body>, steps: seq<Step>, m: string)
    requires DistinctIds(doc) && DeliversPoll(s, Produce(map[], doc).0, bodies, steps)
        && NoneBehind(After(s, steps), doc)
    requires m in Produce(map[], doc).1
    ensures Quiet(After(s, steps), m) && StateAt(After(s, steps), m) == Some(Produce(map[], doc).1[m])
  {
    PollForwardsChanges(map[], doc);
    assert !NoneAbout(doc, m);
    var k :| 0 <= k < |doc| && About(doc[k], m);
    assert Report(doc[k].payload) in doc;
    RestartedMissionIsQuiet(s, doc, bodies, steps, doc[k].payload);
  }

  /**
   * From any reachable backend, with anything in flight: if after a restart
   * poll no file state is behind the projection, map and projection agree on
   * the file, and every following run of steady polls stays in lockstep.
   */
  lemma LockstepAfterRestart(past: seq<Step>, doc: seq<Entry>, bodies: seq<Body>, steps: seq<Step>, rounds: seq<Round>)
    requires Runs(EMPTY, past) && DistinctIds(doc)
    requires DeliversPoll(After(EMPTY, past), Produce(map[], doc).0, bodies, steps)
    requires NoneBehind(After(After(EMPTY, past), steps), doc)
    requires SteadyRounds(After(After(EMPTY, past), steps), Produce(map[], doc).1, rounds)
    ensures var t, seen := After(After(EMPTY, past), steps), Produce(map[], doc).1;
            Agrees(t, seen, doc) && InLockstep(t, seen, rounds)
  {
    var s := After(EMPTY, past);
    var t, seen := After(s, steps), Produce(map[], doc).1;
    forall m | m in seen ensures Quiet(t, m) && StateAt(t, m) == Some(seen[m]) {
      RestartSyncs(s, doc, bodies, steps, m);
    }
    SyncedFileAgrees(t, map[], doc);
    LockstepHolds(t, seen, rounds);
  }

  // ---------------------------------------------------------------- //
  // A lost delivery
  // ---------------------------------------------------------------- //

  lemma {:induction false} UnchangedEntriesAreSilent(seen: map<string, MissionState>, doc: seq<Entry>)
    requires forall k | 0 <= k < |doc| && doc[k].Report? :: Unchanged(seen, doc[k].payload)
    ensures Produce(seen, doc) == ([], seen)
  {
    if doc != [] {
      UnchangedEntriesAreSilent(seen, doc[..|doc| - 1]);
    }
  }

  /** Polling an unchanged file again sends nothing, whether or not the first poll was delivered. */
  lemma RepeatedPollIsSilent(submitted: map<string, MissionState>, doc: seq<Entry>)
    requires DistinctIds(doc)
    ensures var seen := Produce(submitted, doc).1; Produce(seen, doc) == ([], seen)
  {
    PollForwardsChanges(submitted, doc);
    UnchangedEntriesAreSilent(Produce(submitted, doc).1, doc);
  }

  /** The projection is behind what the dedup map holds for mission `m`. */
  predicate Lags(s: Backend, seen: map<string, MissionState>, m: string) {
    && m in seen && Index(seen[m]) >= 0
    && (m in s.missions ==> Index(s.missions[m].state) < Index(seen[m]))
  }

  lemma NoUpsertNoChange(s: Backend, steps: seq<Step>, m: string)
    requires Inv(s) && Runs(s, steps) && Of(After(s, steps).upserts, m) == Of(s.upserts, m)
    ensures Lookup(After(s, steps).missions, m) == Lookup(s.missions, m)
  {
    RunKeepsInv(s, steps);
    assert MissionOk(s, m) && MissionOk(After(s, steps), m);
  }

  lemma PollRemembers(submitted: map<string, MissionState>, doc: seq<Entry>, p: Payload)
    requires DistinctIds(doc) && Report(p) in doc
    ensures var seen := Produce(submitted, doc).1; IdOf(p) in seen && seen[IdOf(p)] == p.update.state
  {
    PollForwardsChanges(submitted, doc);
    var k :| 0 <= k < |doc| && doc[k] == Report(p);
  }

  lemma SteadyNewsIsAhead(s: Backend, submitted: map<string, MissionState>, p: Payload)
    requires Inv(s) && Synced(s, submitted) && Steady(s, submitted, p) && !AtFile(s, p)
    ensures Index(p.update.state) >= 0
    ensures IdOf(p) in s.missions ==> Index(s.missions[IdOf(p)].state) < Index(p.update.state)
  {
    if IdOf(p) in s.missions {
      StoredIsConsistent(s, IdOf(p));
    }
  }

  /** If no upsert of a mission took effect, news about it that was polled leaves the projection behind. */
  lemma LostDeliveryLeavesALag(
      s: Backend, submitted: map<string, MissionState>, doc: seq<Entry>, steps: seq<Step>, p: Payload)
    requires Inv(s) && Synced(s, submitted) && DistinctIds(doc) && Runs(s, steps)
    requires Report(p) in doc && Steady(s, submitted, p) && !AtFile(s, p)
    requires Of(After(s, steps).upserts, IdOf(p)) == Of(s.upserts, IdOf(p))
    ensures Lags(After(s, steps), Produce(submitted, doc).1, IdOf(p))
  {
    NoUpsertNoChange(s, steps, IdOf(p));
    PollRemembers(submitted, doc, p);
    SteadyNewsIsAhead(s, submitted, p);
  }

  /**
   * While the projection lags, further progress of a running collector on that
   * mission is legal only if the file itself asks for a backfill. A restart
   * makes it legal again.
   */
  lemma AfterALossOnlyBackfillOrRestart(s: Backend, submitted: map<string, MissionState>, p: Payload, b: Body, c: Body)
    requires Inv(s) && Lags(s, submitted, IdOf(p)) && Index(submitted[IdOf(p)]) < Index(p.update.state)
    requires p.PassesSchema()
    requires b.payload == Stamp(submitted, p) && c.payload == Stamp(map[], p)
    ensures Accepts(Lookup(s.missions, IdOf(p)), b) <==> p.update.backfill
    ensures Accepts(Lookup(s.missions, IdOf(p)), c)
  {
    if IdOf(p) in s.missions {
      StoredIsConsistent(s, IdOf(p));
    }
    FirstSyncIsLegal(s, map[], p, c);
  }
}
