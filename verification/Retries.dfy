/**
 * What any interleaving of attempts adds up to: safety of the lifecycle over
 * every run, and retries of one body acting as a single attempt.
 */
module Retries {
  import opened Wrappers
  import opened Mission
  import opened Projection
  import opened Ingestion

  // ---------------------------------------------------------------- //
  // The projection over every run
  // ---------------------------------------------------------------- //

  /**
   * In every reachable backend the record of a mission is the summary of the
   * upserts that took effect, however the attempts interleaved and failed.
   */
  lemma RunsProjectTheirHistory(steps: seq<Step>, m: string)
    requires Runs(EMPTY, steps)
    ensures var t := After(EMPTY, steps);
            var h := Of(t.upserts, m);
            && LegalHistory(h)
            && (m in t.missions <==> h != [])
            && (m in t.missions ==> Summarises(t.missions[m], h) && Consistent(t.missions[m]))
  {
    ReachableInv(steps);
    var t := After(EMPTY, steps);
    assert MissionOk(t, m);
    var h := Of(t.upserts, m);
    if h != [] {
      ReplayIsSummary(h, m);
      HistoryIsSafe(h, m, |h|);
    }
  }

  lemma {:induction false} OfIsMonotone(g: seq<StoredEvent>, h: seq<StoredEvent>, m: string)
    requires g <= h
    ensures Of(g, m) <= Of(h, m)
    decreases |h|
  {
    if |g| < |h| {
      OfIsMonotone(g, h[..|h| - 1], m);
    } else {
      assert g == h;
    }
  }

  lemma {:induction false} RunsOnlyAppend(s: Backend, steps: seq<Step>)
    requires Runs(s, steps)
    ensures s.upserts <= After(s, steps).upserts && s.stream <= After(s, steps).stream
    decreases |steps|
  {
    if steps != [] {
      RunsOnlyAppend(Exec(s, steps[0]), steps[1..]);
    }
  }

  /**
   * No run regresses a mission: its state only advances, Completed is final,
   * and its creation, start and completion times never change once set.
   */
  lemma RunsNeverRegress(s: Backend, steps: seq<Step>, m: string)
    requires Inv(s) && Runs(s, steps)
    requires m in s.missions
    ensures m in After(s, steps).missions
    ensures Advances(s.missions[m], After(s, steps).missions[m])
  {
    var t := After(s, steps);
    RunKeepsInv(s, steps);
    RunsOnlyAppend(s, steps);
    OfIsMonotone(s.upserts, t.upserts, m);
    assert MissionOk(s, m) && MissionOk(t, m);
    var g, h := Of(s.upserts, m), Of(t.upserts, m);
    HistoryIsSafe(h, m, |g|);
    assert h[..|g|] == g;
  }

  // ---------------------------------------------------------------- //
  // One body, any number of overlapping attempts
  // ---------------------------------------------------------------- //

  /** No attempt of mission `m` is in flight. */
  ghost predicate IdleAt(s: Backend, m: string) {
    forall i | 0 <= i < |s.attempts| :: MissionOf(s.attempts[i].body) == m ==> s.attempts[i].phase.Finished?
  }

  /** When a body first arrives its mission is idle: what is in flight for the mission would have to carry that body. */
  lemma FirstArrivalFindsIdle(s: Backend, b: Body)
    requires Enabled(s, Arrive(b)) && forall i | 0 <= i < |s.attempts| :: s.attempts[i].body != b
    ensures IdleAt(s, MissionOf(b))
  {
  }

  /** Every request for mission `m` that arrives carries body `b`. */
  ghost predicate ArrivalsAre(steps: seq<Step>, m: string, b: Body) {
    forall i | 0 <= i < |steps| :: steps[i].Arrive? && MissionOf(steps[i].body) == m ==> steps[i].body == b
  }

  /** The record one clean attempt of `b` leaves, up to its `updatedAt`. */
  ghost predicate Settled(base: Option<MissionRecord>, b: Body, stored: Option<MissionRecord>) {
    stored.Some? && stored.value == Project(base, StoredEvent(b, stored.value.updatedAt))
  }

  predicate Refused(status: Status) {
    status.Conflict? || status.Unprocessable?
  }

  /** How far an attempt of `b` can have come, given whether any upsert of it took effect. */
  ghost predicate FreshOk(base: Option<MissionRecord>, b: Body, effective: bool, phase: Phase) {
    match phase
    case Received => true
    case Finished(status) =>
      if Accepts(base, b) then !Refused(status) && (status.Accepted? ==> effective) else !status.Accepted?
    case _ => Accepts(base, b)
  }

  /**
   * The state of a session: in `start` the mission of `b` was idle, and since
   * then only `b` has been submitted for it.
   */
  ghost predicate Session(start: Backend, b: Body, s: Backend) {
    var m := MissionOf(b);
    var base, stored := Lookup(start.missions, m), Lookup(s.missions, m);
    var before, now := |Of(start.upserts, m)|, |Of(s.upserts, m)|;
    && |start.attempts| <= |s.attempts|
    && (forall i | 0 <= i < |start.attempts| :: MissionOf(s.attempts[i].body) == m ==> s.attempts[i].phase.Finished?)
    && (forall i | |start.attempts| <= i < |s.attempts| :: MissionOf(s.attempts[i].body) == m ==>
          s.attempts[i].body == b && FreshOk(base, b, before < now, s.attempts[i].phase))
    && before <= now
    && (if before == now then stored == base else Accepts(base, b) && Settled(base, b, stored))
  }

  lemma SettlesAgain(base: Option<MissionRecord>, b: Body, stored: Option<MissionRecord>, e: StoredEvent)
    requires e.body == b && (stored == base || Settled(base, b, stored))
    ensures Project(stored, e) == Project(base, e) && Settled(base, b, Some(Project(stored, e)))
  {
    if stored != base {
      ProjectIsIdempotent(base, StoredEvent(b, stored.value.updatedAt), e);
    }
  }

  /** An upsert that takes effect leaves every attempt of the session where it may be. */
  lemma UpsertKeepsFresh(start: Backend, b: Body, s: Backend, i: nat, write: Write)
    requires Session(start, b, s)
    requires Enabled(s, Upsert(i, write)) && !write.FailedBefore? && s.attempts[i].body == b
    ensures var base, t := Lookup(start.missions, MissionOf(b)), Exec(s, Upsert(i, write));
            && Accepts(base, b)
            && (forall n | 0 <= n < |start.attempts| ::
                  MissionOf(t.attempts[n].body) == MissionOf(b) ==> t.attempts[n].phase.Finished?)
            && (forall n | |start.attempts| <= n < |t.attempts| && MissionOf(t.attempts[n].body) == MissionOf(b) ::
                  t.attempts[n].body == b && FreshOk(base, b, true, t.attempts[n].phase))
  {
    var m, t := MissionOf(b), Exec(s, Upsert(i, write));
    var base := Lookup(start.missions, m);
    assert FreshOk(base, b, |Of(start.upserts, m)| < |Of(s.upserts, m)|, s.attempts[i].phase);
    forall n | |start.attempts| <= n < |t.attempts| && MissionOf(t.attempts[n].body) == m
      ensures t.attempts[n].body == b && FreshOk(base, b, true, t.attempts[n].phase)
    {
      assert s.attempts[n].body == t.attempts[n].body;
    }
  }

  lemma SessionUpsert(start: Backend, b: Body, s: Backend, i: nat, write: Write)
    requires Inv(s) && Session(start, b, s)
    requires Enabled(s, Upsert(i, write)) && !write.FailedBefore? && s.attempts[i].body == b
    ensures Session(start, b, Exec(s, Upsert(i, write)))
  {
    var m := MissionOf(b);
    var e := StoredEvent(b, s.attempts[i].phase.receivedAt);
    var base, t := Lookup(start.missions, m), Exec(s, Upsert(i, write));
    UpsertActsAtomically(s, i, write);
    OfExtends(s.upserts, e, m);
    SettlesAgain(base, b, Lookup(s.missions, m), e);
    UpsertKeepsFresh(start, b, s, i, write);
  }

  /** Inside a session, validation decides as it would have decided at its start. */
  lemma SessionValidates(start: Backend, b: Body, s: Backend)
    requires Session(start, b, s)
    ensures Accepts(Lookup(s.missions, MissionOf(b)), b) == Accepts(Lookup(start.missions, MissionOf(b)), b)
  {
    var base, stored := Lookup(start.missions, MissionOf(b)), Lookup(s.missions, MissionOf(b));
    if stored != base {
      var e := StoredEvent(b, stored.value.updatedAt);
      ProjectIsIdempotent(base, e, e);
    }
  }

  lemma SessionQuietStep(start: Backend, b: Body, s: Backend, step: Step)
    requires Session(start, b, s) && Enabled(s, step)
    requires step.Arrive? && MissionOf(step.body) == MissionOf(b) ==> step.body == b
    requires step.Upsert? ==> step.write.FailedBefore?
    ensures Session(start, b, Exec(s, step))
  {
    var m := MissionOf(b);
    var base := Lookup(start.missions, m);
    var effective := |Of(start.upserts, m)| < |Of(s.upserts, m)|;
    var t := Exec(s, step);
    assert t.missions == s.missions && t.upserts == s.upserts;
    SessionValidates(start, b, s);
    forall i | |start.attempts| <= i < |t.attempts| && MissionOf(t.attempts[i].body) == m
      ensures t.attempts[i].body == b && FreshOk(base, b, effective, t.attempts[i].phase)
    {
      assert i < |s.attempts| ==> s.attempts[i].body == t.attempts[i].body;
    }
  }

  /** An upsert of another mission is none of the session's business. */
  lemma SessionUpsertElsewhere(start: Backend, b: Body, s: Backend, i: nat, write: Write)
    requires Session(start, b, s) && Enabled(s, Upsert(i, write)) && !write.FailedBefore?
    requires MissionOf(s.attempts[i].body) != MissionOf(b)
    ensures Session(start, b, Exec(s, Upsert(i, write)))
  {
    OfExtends(s.upserts, StoredEvent(s.attempts[i].body, s.attempts[i].phase.receivedAt), MissionOf(b));
  }

  lemma SessionStep(start: Backend, b: Body, s: Backend, step: Step)
    requires Inv(s) && Session(start, b, s) && Enabled(s, step)
    requires step.Arrive? && MissionOf(step.body) == MissionOf(b) ==> step.body == b
    ensures Session(start, b, Exec(s, step))
  {
    if step.Upsert? && !step.write.FailedBefore? {
      if MissionOf(s.attempts[step.i].body) == MissionOf(b) {
        assert s.attempts[step.i].body == b;
        SessionUpsert(start, b, s, step.i, step.write);
      } else {
        SessionUpsertElsewhere(start, b, s, step.i, step.write);
      }
    } else {
      SessionQuietStep(start, b, s, step);
    }
  }

  lemma {:induction false} SessionRun(start: Backend, b: Body, s: Backend, steps: seq<Step>)
    requires Inv(s) && Session(start, b, s) && Runs(s, steps)
    requires ArrivalsAre(steps, MissionOf(b), b)
    ensures Session(start, b, After(s, steps))
    decreases |steps|
  {
    if steps != [] {
      SessionStep(start, b, s, steps[0]);
      StepKeepsInv(s, steps[0]);
      assert forall i | 0 <= i < |steps[1..]| :: steps[1..][i] == steps[i + 1];
      SessionRun(start, b, Exec(s, steps[0]), steps[1..]);
    }
  }

  /** Attempt `i` of the run is a new attempt of `b` that ended with `status`. */
  ghost predicate Ended(start: Backend, t: Backend, b: Body, i: int, status: Status) {
    |start.attempts| <= i < |t.attempts| && t.attempts[i] == Attempt(b, Finished(status))
  }

  /**
   * However many attempts of one body overlap, fail and lose their answers:
   * if the body is legal, none is refused, and once an upsert took effect
   * (whether or not it was acknowledged) the record is the one a single clean
   * attempt leaves; if it is not legal, none is accepted and nothing changes.
   */
  lemma RetriesActAsOneAttempt(s: Backend, steps: seq<Step>, b: Body)
    requires Inv(s) && IdleAt(s, MissionOf(b)) && Runs(s, steps)
    requires ArrivalsAre(steps, MissionOf(b), b)
    ensures var t := After(s, steps);
            var m := MissionOf(b);
            var base, stored := Lookup(s.missions, m), Lookup(t.missions, m);
            var effects := |Of(t.upserts, m)| - |Of(s.upserts, m)|;
            && effects >= 0
            && (effects == 0 ==> stored == base)
            && (effects > 0 ==> Settled(base, b, stored))
            && (!Accepts(base, b) ==> effects == 0)
            && (forall i, status | Ended(s, t, b, i, status) ::
                  if Accepts(base, b) then !Refused(status) && (status.Accepted? ==> effects > 0)
                  else !status.Accepted?)
  {
    SessionRun(s, b, s, steps);
  }
}
