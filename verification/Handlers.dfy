/**
 * The ingestion route and the mission handler as the program runs them: objects
 * whose methods call the two stores step by step. Each method is tied to the
 * step machine of `Ingestion`.
 */
module Handlers {
  import opened Wrappers
  import opened Mission
  import opened Projection
  import opened Ingestion
  import opened Retries
  import opened MemoryStore

  /** The append-only event stream, with outages at any call. */
  class EventStream {
    var events: seq<StoredEvent>

    constructor ()
      ensures events == []
    {
      events := [];
    }

    method InsertEvent(e: StoredEvent) returns (write: Write)
      modifies this
      ensures events == if write.FailedBefore? then old(events) else old(events) + [e]
    {
      write := *;
      if !write.FailedBefore? {
        events := events + [e];
      }
    }
  }

  /** Outcome of pre-persistence validation. */
  datatype Verdict = Pass | Reject(status: Status) | Outage

  class MissionUpdateHandler {
    const store: MissionStore

    constructor (store: MissionStore)
      ensures this.store == store
    {
      this.store := store;
    }

    /** Reads only; an outage is possible exactly when the store is consulted. */
    method Validate(b: Body) returns (verdict: Verdict)
      ensures verdict.Outage? ==> b.payload.PassesSchema()
      ensures !verdict.Outage? ==>
                (verdict.Pass? <==> Accepts(Lookup(store.missions, MissionOf(b)), b))
      ensures verdict.Reject? ==> verdict.status == if b.payload.PassesSchema() then Conflict else Unprocessable
      ensures verdict == Reject(Unprocessable) <==> !b.payload.wellFormed || b.payload.update.missionId == ""
    {
      if !b.payload.PassesSchema() {
        return Reject(Unprocessable);
      }
      var update := b.payload.update;
      var found := store.GetMission(update.missionId);
      if found.StorageError? {
        return Outage;
      }
      var current := if found.value.Some? then Some(found.value.value.state) else None;
      if !IsValidTransition(current, update.state, update.backfill) {
        return Reject(Conflict);
      }
      return Pass;
    }

    method Apply(e: StoredEvent) returns (write: Write)
      modifies store
      ensures var m := MissionOf(e.body);
              store.missions == if write.FailedBefore? then old(store.missions)
                                else old(store.missions)[m := Project(Lookup(old(store.missions), m), e)]
    {
      var update := e.body.payload.update;
      var found := store.GetMission(update.missionId);
      if found.StorageError? {
        return FailedBefore;
      }
      var current := found.value;
      var createdAt, startedAt, completedAt := e.body.timestamp, None, None;
      var title, assignedAgent, prRef, commitSha := update.missionId, None, None, None;
      if current.Some? {
        var r := current.value;
        createdAt, startedAt, completedAt := r.createdAt, r.startedAt, r.completedAt;
        title, assignedAgent, prRef, commitSha := r.title, r.assignedAgent, r.prRef, r.commitSha;
      }

      var stateIndex := Index(update.state);
      if startedAt.None? && stateIndex >= RUNNING_INDEX {
        startedAt := Some(e.body.timestamp);
      }
      if update.state == Completed && completedAt.None? {
        completedAt := Some(e.body.timestamp);
      }

      if update.title != "" {
        title := update.title;
      }
      var record := MissionRecord(
        update.missionId, title, Or(update.assignedAgent, assignedAgent), update.state,
        createdAt, startedAt, completedAt,
        Or(update.prRef, prRef), Or(update.commitSha, commitSha), e.receivedAt);
      write := store.UpsertMission(record);
    }
  }

  /** Answer of the route to one POST. */
  datatype Response = IdentityMismatch | Answer(status: Status)

  /** Label of the ingestion-failure counter. */
  datatype Reason = IdentityMismatchReason | ValidationError | InvalidTransition | StorageFailure | ProjectionFailure

  /**
   * What one attempt of `b`, stamped at `at`, can do to backend `s` when
   * nothing interleaves with it, by the status it answers.
   */
  ghost predicate SoloOutcome(s: Backend, b: Body, at: Time, status: Status, t: Backend) {
    var m := MissionOf(b);
    var current, e := Lookup(s.missions, m), StoredEvent(b, at);
    var refused := s.(attempts := [Attempt(b, Finished(status))]);
    var inserted := refused.(stream := s.stream + [e]);
    var projected := inserted.(missions := s.missions[m := Project(current, e)], upserts := s.upserts + [e]);
    match status
    case Accepted => Accepts(current, b) && t == projected
    case Conflict => b.payload.PassesSchema() && !Accepts(current, b) && t == refused
    case Unprocessable => !b.payload.PassesSchema() && t == refused
    case ServerError => b.payload.PassesSchema() && t == refused
    case Unavailable => Accepts(current, b) && (t == refused || t == inserted || t == projected)
  }

  /** The steps one attempt takes when it runs alone, up to the first that ends it. */
  function SoloSteps(up: bool, at: Time, inserted: Option<Write>, upserted: Option<Write>): seq<Step> {
    if inserted.None? then [Ingestion.Validate(0, up)]
    else if upserted.None? then [Ingestion.Validate(0, up), Insert(0, at, inserted.value)]
    else [Ingestion.Validate(0, up), Insert(0, at, inserted.value), Load(0, true), Upsert(0, upserted.value)]
  }

  lemma RunsFrom(s: Backend, step: Step, rest: seq<Step>)
    requires Enabled(s, step) && Runs(Exec(s, step), rest)
    ensures Runs(s, [step] + rest) && After(s, [step] + rest) == After(Exec(s, step), rest)
  {
    assert ([step] + rest)[1..] == rest;
  }

  lemma SoloRefused(s: Backend, b: Body, up: bool, at: Time)
    requires s.attempts == [Attempt(b, Received)]
    ensures var steps := SoloSteps(up, at, None, None);
            Runs(s, steps) && After(s, steps) == s.(attempts := [Attempt(b, ValidatePhase(s.missions, b, up))])
  {
    var step := Ingestion.Validate(0, up);
    RunsFrom(s, step, []);
    assert [step] + [] == [step];
  }

  lemma SoloInserted(s: Backend, b: Body, at: Time, w: Write)
    requires s.attempts == [Attempt(b, Received)] && Accepts(Lookup(s.missions, MissionOf(b)), b)
    ensures var steps := SoloSteps(true, at, Some(w), None);
            && Runs(s, steps)
            && After(s, steps) == s.(stream := if w.FailedBefore? then s.stream else s.stream + [StoredEvent(b, at)],
                                     attempts := [Attempt(b, if w.Done? then Stored(at) else Finished(Unavailable))])
  {
    var validate, insert := Ingestion.Validate(0, true), Insert(0, at, w);
    var s1 := Exec(s, validate);
    RunsFrom(s1, insert, []);
    RunsFrom(s, validate, [insert] + []);
    assert [validate] + ([insert] + []) == SoloSteps(true, at, Some(w), None);
  }

  lemma SoloApplied(s: Backend, b: Body, at: Time, w: Write)
    requires s.attempts == [Attempt(b, Received)] && Accepts(Lookup(s.missions, MissionOf(b)), b)
    ensures var steps := SoloSteps(true, at, Some(Done), Some(w));
            var e := StoredEvent(b, at);
            var current := Lookup(s.missions, MissionOf(b));
            && Runs(s, steps)
            && After(s, steps) == Backend(
                 if w.FailedBefore? then s.missions else s.missions[MissionOf(b) := Project(current, e)],
                 s.stream + [e],
                 if w.FailedBefore? then s.upserts else s.upserts + [e],
                 [Attempt(b, Finished(if w.Done? then Accepted else Unavailable))])
  {
    var validate, insert, load, upsert := Ingestion.Validate(0, true), Insert(0, at, Done), Load(0, true), Upsert(0, w);
    var s1 := Exec(s, validate);
    var s2 := Exec(s1, insert);
    var s3 := Exec(s2, load);
    RunsFrom(s3, upsert, []);
    RunsFrom(s2, load, [upsert] + []);
    RunsFrom(s1, insert, [load] + ([upsert] + []));
    RunsFrom(s, validate, [insert] + ([load] + ([upsert] + [])));
    assert [validate] + ([insert] + ([load] + ([upsert] + []))) == SoloSteps(true, at, Some(Done), Some(w));
  }

  lemma SoloOutcomeHasRun(s: Backend, b: Body, at: Time, status: Status, t: Backend) returns (steps: seq<Step>)
    requires s.attempts == [Attempt(b, Received)] && SoloOutcome(s, b, at, status, t)
    ensures NoArrivals(steps) && Runs(s, steps) && After(s, steps) == t
  {
    if Refused(status) || status.ServerError? {
      SoloRefused(s, b, !status.ServerError?, at);
      steps := SoloSteps(!status.ServerError?, at, None, None);
    } else if t.stream == s.stream {
      SoloInserted(s, b, at, FailedBefore);
      steps := SoloSteps(true, at, Some(FailedBefore), None);
    } else {
      var w := if status.Accepted? then Done else if t.upserts == s.upserts then FailedBefore else FailedAfter;
      SoloApplied(s, b, at, w);
      steps := SoloSteps(true, at, Some(Done), Some(w));
    }
  }

  ghost predicate NoArrivals(steps: seq<Step>) {
    forall i | 0 <= i < |steps| :: !steps[i].Arrive?
  }

  /** Where a lone attempt of `b` can have brought backend `s`. */
  ghost predicate SoloState(s: Backend, b: Body, t: Backend) {
    && |t.attempts| == 1 && t.attempts[0].body == b
    && var current := Lookup(s.missions, MissionOf(b));
       match t.attempts[0].phase
       case Received => t == s.(attempts := t.attempts)
       case Validated => Accepts(current, b) && t == s.(attempts := t.attempts)
       case Stored(at) =>
         Accepts(current, b) && t == s.(attempts := t.attempts, stream := s.stream + [StoredEvent(b, at)])
       case Loaded(at, read) =>
         && Accepts(current, b) && read == current
         && t == s.(attempts := t.attempts, stream := s.stream + [StoredEvent(b, at)])
       case Finished(status) => exists at :: SoloOutcome(s, b, at, status, t)
  }

  lemma SoloStateStep(s: Backend, b: Body, t: Backend, step: Step)
    requires SoloState(s, b, t) && Enabled(t, step) && !step.Arrive?
    ensures SoloState(s, b, Exec(t, step))
  {
    var u := Exec(t, step);
    if u.attempts[0].phase.Finished? {
      var at := match step
        case Insert(_, at, _) => at
        case Load(_, _) => t.attempts[0].phase.receivedAt
        case Upsert(_, _) => t.attempts[0].phase.receivedAt
        case _ => 0.0;
      assert SoloOutcome(s, b, at, u.attempts[0].phase.status, u);
    }
  }

  lemma {:induction false} SoloRunReaches(s: Backend, b: Body, t: Backend, steps: seq<Step>)
    requires SoloState(s, b, t) && Runs(t, steps) && NoArrivals(steps)
    ensures SoloState(s, b, After(t, steps))
    decreases |steps|
  {
    if steps != [] {
      SoloStateStep(s, b, t, steps[0]);
      assert forall i | 0 <= i < |steps[1..]| :: steps[1..][i] == steps[i + 1];
      SoloRunReaches(s, b, Exec(t, steps[0]), steps[1..]);
    }
  }

  /** The outcomes of the route are exactly the completed solo runs of the step machine. */
  lemma SoloOutcomesAreSoloRuns(s: Backend, b: Body, status: Status, t: Backend)
    requires s.attempts == [Attempt(b, Received)] && t.attempts == [Attempt(b, Finished(status))]
    ensures (exists at :: SoloOutcome(s, b, at, status, t))
       <==> (exists steps :: NoArrivals(steps) && Runs(s, steps) && After(s, steps) == t)
  {
    if at :| SoloOutcome(s, b, at, status, t) {
      var steps := SoloOutcomeHasRun(s, b, at, status, t);
    }
    if steps :| NoArrivals(steps) && Runs(s, steps) && After(s, steps) == t {
      assert SoloState(s, b, s);
      SoloRunReaches(s, b, s, steps);
    }
  }

  class IngestRoute {
    const stream: EventStream
    const handler: MissionUpdateHandler
    var ingested: nat
    var failures: map<Reason, nat>
    /** Upserts of this backend, as the step machine records them. */
    ghost var upserts: seq<StoredEvent>

    constructor (stream: EventStream, handler: MissionUpdateHandler)
      ensures this.stream == stream && this.handler == handler
      ensures ingested == 0 && failures == map[] && upserts == []
    {
      this.stream, this.handler := stream, handler;
      ingested, failures, upserts := 0, map[], [];
    }

    ghost function Failures(r: Reason): nat
      reads this
    {
      if r in failures then failures[r] else 0
    }

    method Count(r: Reason)
      modifies this`failures
      ensures Failures(r) == old(Failures(r)) + 1
      ensures forall q | q != r :: Failures(q) == old(Failures(q))
    {
      failures := failures[r := (if r in failures then failures[r] else 0) + 1];
    }

    /** The backend as one attempt sees it. */
    ghost function View(attempt: Attempt): Backend
      reads this, stream, handler.store
    {
      Backend(handler.store.missions, stream.events, upserts, [attempt])
    }

    /** One request: its outcome is one the step machine allows, and at most one failure counter moves. */
    method IngestEvent(collectorId: string, subject: string, b: Body, at: Time)
      returns (response: Response, ghost counted: Option<Reason>)
      modifies this, stream, handler.store
      ensures response.IdentityMismatch? <==> collectorId != subject
      ensures response.IdentityMismatch? ==> View(Attempt(b, Received)) == old(View(Attempt(b, Received)))
      ensures response.Answer? ==>
                SoloOutcome(old(View(Attempt(b, Received))), b, at, response.status,
                             View(Attempt(b, Finished(response.status))))
      ensures response == Answer(Unprocessable)
         <==> collectorId == subject && (!b.payload.wellFormed || b.payload.update.missionId == "")
      ensures ingested == old(ingested) + if response == Answer(Accepted) then 1 else 0
      ensures match response
              case IdentityMismatch => counted == Some(IdentityMismatchReason)
              case Answer(Accepted) => counted == None
              case Answer(ServerError) => counted == None
              case Answer(Conflict) => counted == Some(InvalidTransition)
              case Answer(Unprocessable) => counted == Some(ValidationError)
              case Answer(Unavailable) =>
                || (counted == Some(StorageFailure) && handler.store.missions == old(handler.store.missions))
                || (counted == Some(ProjectionFailure) && stream.events == old(stream.events) + [StoredEvent(b, at)])
      ensures forall q :: Failures(q) == old(Failures(q)) + if counted == Some(q) then 1 else 0
    {
      counted := None;
      if collectorId != subject {
        Count(IdentityMismatchReason);
        return IdentityMismatch, Some(IdentityMismatchReason);
      }

      var verdict := handler.Validate(b);
      if verdict.Outage? {
        return Answer(ServerError), None;
      }
      if verdict.Reject? {
        var reason := if verdict.status.Conflict? then InvalidTransition else ValidationError;
        Count(reason);
        return Answer(verdict.status), Some(reason);
      }

      var e := StoredEvent(b, at);
      var inserted := stream.InsertEvent(e);
      if !inserted.Done? {
        Count(StorageFailure);
        return Answer(Unavailable), Some(StorageFailure);
      }

      var applied := handler.Apply(e);
      if !applied.FailedBefore? {
        upserts := upserts + [e];
      }
      if !applied.Done? {
        Count(ProjectionFailure);
        return Answer(Unavailable), Some(ProjectionFailure);
      }
      ingested := ingested + 1;
      return Answer(Accepted), None;
    }
  }
}
