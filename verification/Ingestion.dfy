/**
 * The ingestion route (`ingest_event` in backend/app/api/v1/events.py) as a
 * step machine. One attempt runs get, insert, get, upsert; attempts of
 * different requests interleave at every one of these storage steps, each of
 * which may fail, and a response may be lost without any step of its own.
 */
module Ingestion {
  import opened Wrappers
  import opened Mission
  import opened Projection

  datatype Status =
    | Accepted         // 202
    | Conflict         // 409: illegal transition
    | Unprocessable    // 422: payload refused by the schema
    | Unavailable      // 503: storage failed after validation
    | ServerError      // 500: storage failed inside validation, which nothing catches

  /** Where one attempt stands between two storage steps. */
  datatype Phase =
    | Received
    | Validated
    | Stored(receivedAt: Time)
    | Loaded(receivedAt: Time, current: Option<MissionRecord>)
    | Finished(status: Status)

  datatype Attempt = Attempt(body: Body, phase: Phase)

  /** `upserts` records the events whose upsert took effect, in that order. */
  datatype Backend = Backend(
    missions: map<string, MissionRecord>,
    stream: seq<StoredEvent>,
    upserts: seq<StoredEvent>,
    attempts: seq<Attempt>)

  const EMPTY := Backend(map[], [], [], [])

  datatype Step =
    | Arrive(body: Body)
    | Validate(i: nat, up: bool)
    | Insert(i: nat, at: Time, write: Write)
    | Load(i: nat, up: bool)
    | Upsert(i: nat, write: Write)

  /** Attempts of one mission that overlap carry the same body. */
  ghost predicate MayArrive(s: Backend, b: Body) {
    forall i | 0 <= i < |s.attempts| ::
      !s.attempts[i].phase.Finished? && MissionOf(s.attempts[i].body) == MissionOf(b) ==> s.attempts[i].body == b
  }

  /** What the program alone allows: any request may arrive, and an attempt takes its steps in order. */
  predicate Possible(s: Backend, step: Step) {
    match step
    case Arrive(_) => true
    case Validate(i, _) => i < |s.attempts| && s.attempts[i].phase.Received?
    case Insert(i, _, _) => i < |s.attempts| && s.attempts[i].phase.Validated?
    case Load(i, _) => i < |s.attempts| && s.attempts[i].phase.Stored?
    case Upsert(i, _) => i < |s.attempts| && s.attempts[i].phase.Loaded?
  }

  /** A possible step under the assumption on overlapping requests. */
  ghost predicate Enabled(s: Backend, step: Step) {
    Possible(s, step) && (step.Arrive? ==> MayArrive(s, step.body))
  }

  function ValidatePhase(missions: map<string, MissionRecord>, b: Body, up: bool): Phase {
    if !b.payload.PassesSchema() then Finished(Unprocessable)
    else if !up then Finished(ServerError)
    else if Accepts(Lookup(missions, MissionOf(b)), b) then Validated
    else Finished(Conflict)
  }

  function Move(s: Backend, i: nat, phase: Phase): Backend
    requires i < |s.attempts|
  {
    s.(attempts := s.attempts[i := s.attempts[i].(phase := phase)])
  }

  function Exec(s: Backend, step: Step): Backend
    requires Possible(s, step)
  {
    match step
    case Arrive(b) => s.(attempts := s.attempts + [Attempt(b, Received)])
    case Validate(i, up) => Move(s, i, ValidatePhase(s.missions, s.attempts[i].body, up))
    case Insert(i, at, write) =>
      var e := StoredEvent(s.attempts[i].body, at);
      Move(s, i, if write.Done? then Stored(at) else Finished(Unavailable))
        .(stream := if write.FailedBefore? then s.stream else s.stream + [e])
    case Load(i, up) =>
      var a := s.attempts[i];
      Move(s, i, if up then Loaded(a.phase.receivedAt, Lookup(s.missions, MissionOf(a.body)))
                 else Finished(Unavailable))
    case Upsert(i, write) =>
      var a := s.attempts[i];
      var e := StoredEvent(a.body, a.phase.receivedAt);
      var moved := Move(s, i, Finished(if write.Done? then Accepted else Unavailable));
      if write.FailedBefore? then moved
      else moved.(missions := s.missions[MissionOf(a.body) := Project(a.phase.current, e)], upserts := s.upserts + [e])
  }

  ghost predicate Runs(s: Backend, steps: seq<Step>)
    decreases |steps|
  {
    steps == [] || (Enabled(s, steps[0]) && Runs(Exec(s, steps[0]), steps[1..]))
  }

  ghost function After(s: Backend, steps: seq<Step>): Backend
    requires Runs(s, steps)
    decreases |steps|
  {
    if steps == [] then s else After(Exec(s, steps[0]), steps[1..])
  }

  // ---------------------------------------------------------------- //
  // Histories per mission
  // ---------------------------------------------------------------- //

  /** The events of mission `m`, in order. */
  ghost function Of(h: seq<StoredEvent>, m: string): (r: seq<StoredEvent>)
    ensures AllOf(r, m)
  {
    if h == [] then [] else
      var front := Of(h[..|h| - 1], m);
      if MissionOf(h[|h| - 1].body) == m then front + [h[|h| - 1]] else front
  }

  lemma OfExtends(h: seq<StoredEvent>, e: StoredEvent, m: string)
    ensures Of(h + [e], m) == if MissionOf(e.body) == m then Of(h, m) + [e] else Of(h, m)
  {
    assert (h + [e])[..|h|] == h;
  }

  lemma ReplayExtends(h: seq<StoredEvent>, e: StoredEvent)
    ensures Replay(h + [e]) == Some(Project(Replay(h), e))
    ensures LegalHistory(h) && Accepts(Replay(h), e.body) ==> LegalHistory(h + [e])
  {
    var g := h + [e];
    assert g[..|h|] == h;
    if LegalHistory(h) && Accepts(Replay(h), e.body) {
      forall i | 0 <= i < |g| ensures Accepts(Replay(g[..i]), g[i].body) {
        assert i < |h| ==> g[..i] == h[..i] && g[i] == h[i];
      }
    }
  }

  // ---------------------------------------------------------------- //
  // The invariant of every run
  // ---------------------------------------------------------------- //

  /**
   * A record read earlier may be stale, yet projecting onto it gives what
   * projecting onto the stored record would give.
   */
  ghost predicate AttemptOk(s: Backend, a: Attempt) {
    var stored := Lookup(s.missions, MissionOf(a.body));
    match a.phase
    case Received => true
    case Finished(_) => true
    case Validated => Accepts(stored, a.body)
    case Stored(_) => Accepts(stored, a.body)
    case Loaded(at, current) =>
      Accepts(stored, a.body) && Project(current, StoredEvent(a.body, at)) == Project(stored, StoredEvent(a.body, at))
  }

  ghost predicate MissionOk(s: Backend, m: string) {
    && LegalHistory(Of(s.upserts, m))
    && Lookup(s.missions, m) == Replay(Of(s.upserts, m))
  }

  ghost predicate Serialised(s: Backend) {
    forall i, j | 0 <= i < |s.attempts| && 0 <= j < |s.attempts| ::
      !s.attempts[i].phase.Finished? && !s.attempts[j].phase.Finished?
      && MissionOf(s.attempts[i].body) == MissionOf(s.attempts[j].body)
      ==> s.attempts[i].body == s.attempts[j].body
  }

  ghost predicate Inv(s: Backend) {
    && Serialised(s)
    && (forall i | 0 <= i < |s.attempts| :: AttemptOk(s, s.attempts[i]))
    && (forall m :: MissionOk(s, m))
  }

  /** An upsert that takes effect acts as if it re-read the store in the same step. */
  lemma UpsertActsAtomically(s: Backend, i: nat, write: Write)
    requires Inv(s) && Enabled(s, Upsert(i, write)) && !write.FailedBefore?
    ensures var e := StoredEvent(s.attempts[i].body, s.attempts[i].phase.receivedAt);
            var m := MissionOf(e.body);
            && Accepts(Lookup(s.missions, m), e.body)
            && Exec(s, Upsert(i, write)).missions == s.missions[m := Project(Lookup(s.missions, m), e)]
  {
    assert AttemptOk(s, s.attempts[i]);
  }

  lemma UpsertKeepsMissions(s: Backend, i: nat, write: Write)
    requires Inv(s) && Enabled(s, Upsert(i, write)) && !write.FailedBefore?
    ensures forall m :: MissionOk(Exec(s, Upsert(i, write)), m)
  {
    var t := Exec(s, Upsert(i, write));
    var e := StoredEvent(s.attempts[i].body, s.attempts[i].phase.receivedAt);
    UpsertActsAtomically(s, i, write);
    forall m ensures MissionOk(t, m) {
      assert MissionOk(s, m);
      OfExtends(s.upserts, e, m);
      ReplayExtends(Of(s.upserts, m), e);
    }
  }

  lemma UpsertKeepsAttempts(s: Backend, i: nat, write: Write)
    requires Inv(s) && Enabled(s, Upsert(i, write)) && !write.FailedBefore?
    ensures var t := Exec(s, Upsert(i, write)); forall j | 0 <= j < |t.attempts| :: AttemptOk(t, t.attempts[j])
  {
    var t := Exec(s, Upsert(i, write));
    var e := StoredEvent(s.attempts[i].body, s.attempts[i].phase.receivedAt);
    UpsertActsAtomically(s, i, write);
    forall j | 0 <= j < |t.attempts| ensures AttemptOk(t, t.attempts[j]) {
      var a := s.attempts[j];
      assert AttemptOk(s, a);
      if j != i && !a.phase.Finished? && MissionOf(a.body) == MissionOf(e.body) {
        var stored := Lookup(s.missions, MissionOf(e.body));
        assert a.body == e.body;
        ProjectIsIdempotent(stored, e, e);
        if a.phase.Loaded? {
          ProjectIsIdempotent(stored, e, StoredEvent(a.body, a.phase.receivedAt));
        }
      }
    }
  }

  /** A step never brings a second body into a mission's flight. */
  lemma StepKeepsSerialised(s: Backend, step: Step)
    requires Serialised(s) && Enabled(s, step)
    ensures Serialised(Exec(s, step))
  {
    var t := Exec(s, step);
    assert forall k | 0 <= k < |s.attempts| ::
        t.attempts[k].body == s.attempts[k].body && (!t.attempts[k].phase.Finished? ==> !s.attempts[k].phase.Finished?);
  }

  /** A step that writes no record keeps every attempt's knowledge of the store. */
  lemma QuietStepKeepsAttempts(s: Backend, step: Step, j: nat)
    requires Inv(s) && Enabled(s, step) && (step.Upsert? ==> step.write.FailedBefore?)
    requires j < |Exec(s, step).attempts|
    ensures AttemptOk(Exec(s, step), Exec(s, step).attempts[j])
  {
    assert j < |s.attempts| ==> AttemptOk(s, s.attempts[j]);
  }

  lemma QuietStepKeepsMission(s: Backend, step: Step, m: string)
    requires MissionOk(s, m) && Enabled(s, step) && (step.Upsert? ==> step.write.FailedBefore?)
    ensures MissionOk(Exec(s, step), m)
  {
  }

  lemma StepKeepsInv(s: Backend, step: Step)
    requires Inv(s) && Enabled(s, step)
    ensures Inv(Exec(s, step))
  {
    var t := Exec(s, step);
    StepKeepsSerialised(s, step);
    if step.Upsert? && !step.write.FailedBefore? {
      UpsertKeepsMissions(s, step.i, step.write);
      UpsertKeepsAttempts(s, step.i, step.write);
    } else {
      forall m ensures MissionOk(t, m) {
        QuietStepKeepsMission(s, step, m);
      }
      forall j | 0 <= j < |t.attempts| ensures AttemptOk(t, t.attempts[j]) {
        QuietStepKeepsAttempts(s, step, j);
      }
    }
  }

  lemma {:induction false} RunKeepsInv(s: Backend, steps: seq<Step>)
    requires Inv(s) && Runs(s, steps)
    ensures Inv(After(s, steps))
    decreases |steps|
  {
    if steps != [] {
      StepKeepsInv(s, steps[0]);
      RunKeepsInv(Exec(s, steps[0]), steps[1..]);
    }
  }

  /** Every run from the empty backend keeps the invariant. */
  lemma ReachableInv(steps: seq<Step>)
    requires Runs(EMPTY, steps)
    ensures Inv(After(EMPTY, steps))
  {
    forall m ensures MissionOk(EMPTY, m) {
    }
    RunKeepsInv(EMPTY, steps);
  }
}
