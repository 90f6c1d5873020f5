/**
 * Attempts of one mission that overlap with different bodies: exactly when the
 * projection still advances, and runs in which it does not.
 */
module Overlaps {
  import opened Wrappers
  import opened Mission
  import opened Projection
  import opened Ingestion
  import opened Retries

  // ---------------------------------------------------------------- //
  // Runs without the assumption on overlapping requests
  // ---------------------------------------------------------------- //

  /** A run of the program in which requests arrive as they please. */
  ghost predicate FreeRun(states: seq<Backend>, steps: seq<Step>) {
    && |states| == |steps| + 1
    && forall k | 0 <= k < |steps| :: Possible(states[k], steps[k]) && states[k + 1] == Exec(states[k], steps[k])
  }

  /** What such runs keep: records stand under their own id, and only listed states pass validation. */
  ghost predicate Kept(s: Backend) {
    && (forall m | m in s.missions :: s.missions[m].missionId == m)
    && (forall i | 0 <= i < |s.attempts| &&
          (s.attempts[i].phase.Validated? || s.attempts[i].phase.Stored? || s.attempts[i].phase.Loaded?) ::
          Index(StateOf(s.attempts[i].body)) >= 0)
  }

  lemma StepKeeps(s: Backend, step: Step)
    requires Kept(s) && Possible(s, step)
    ensures Kept(Exec(s, step))
  {
  }

  lemma {:induction false} FreeRunKeeps(states: seq<Backend>, steps: seq<Step>, k: nat)
    requires FreeRun(states, steps) && states[0] == EMPTY && k <= |steps|
    ensures Kept(states[k])
  {
    if k > 0 {
      FreeRunKeeps(states, steps, k - 1);
      assert Possible(states[k - 1], steps[k - 1]) && states[k - 1 + 1] == Exec(states[k - 1], steps[k - 1]);
      StepKeeps(states[k - 1], steps[k - 1]);
    }
  }

  // ---------------------------------------------------------------- //
  // Exactly when the projection advances
  // ---------------------------------------------------------------- //

  /**
   * Writing the projection of `b` onto a reading `read` over the record
   * `stored` loses nothing: the state is not behind, and each time that is
   * stored was either read or is set by `b` to the same value.
   */
  predicate WritesSafely(stored: MissionRecord, read: Option<MissionRecord>, b: Body) {
    && Index(StateOf(b)) >= Index(stored.state)
    && (if read.Some? then read.value.createdAt else b.timestamp) == stored.createdAt
    && (stored.startedAt.Some? ==>
          if read.Some? && read.value.startedAt.Some? then read.value.startedAt == stored.startedAt
          else Index(StateOf(b)) >= RUNNING_INDEX && b.timestamp == stored.startedAt.value)
    && (stored.completedAt.Some? ==>
          if read.Some? && read.value.completedAt.Some? then read.value.completedAt == stored.completedAt
          else StateOf(b) == Completed && b.timestamp == stored.completedAt.value)
  }

  lemma WriteAdvancesIff(stored: MissionRecord, read: Option<MissionRecord>, e: StoredEvent)
    requires stored.missionId == MissionOf(e.body) && Index(StateOf(e.body)) >= 0
    ensures Advances(stored, Project(read, e)) <==> WritesSafely(stored, read, e.body)
  {
  }

  /** Every record stays, and advances. */
  ghost predicate AllAdvance(s: Backend, t: Backend) {
    forall m | m in s.missions :: m in t.missions && Advances(s.missions[m], t.missions[m])
  }

  /** A step that takes effect on a record writes it safely. */
  predicate SafeStep(s: Backend, step: Step)
    requires Possible(s, step)
  {
    step.Upsert? && !step.write.FailedBefore? ==>
      var a := s.attempts[step.i];
      MissionOf(a.body) in s.missions ==> WritesSafely(s.missions[MissionOf(a.body)], a.phase.current, a.body)
  }

  /** A step advances the projection exactly when it is safe. */
  lemma StepAdvancesIff(s: Backend, step: Step)
    requires Kept(s) && Possible(s, step)
    ensures AllAdvance(s, Exec(s, step)) <==> SafeStep(s, step)
  {
    if step.Upsert? && !step.write.FailedBefore? {
      var a, t := s.attempts[step.i], Exec(s, step);
      var e, m := StoredEvent(a.body, a.phase.receivedAt), MissionOf(a.body);
      if m in s.missions {
        WriteAdvancesIff(s.missions[m], a.phase.current, e);
        assert t.missions[m] == Project(a.phase.current, e);
      }
      assert forall n | n in s.missions && n != m :: t.missions[n] == s.missions[n];
    }
  }

  /**
   * For every run of the program from the empty backend, overlapping requests
   * and all: every step advances the projection if and only if every upsert
   * that takes effect is safe.
   */
  lemma RunAdvancesIff(states: seq<Backend>, steps: seq<Step>)
    requires FreeRun(states, steps) && states[0] == EMPTY
    ensures (forall k | 0 <= k < |steps| :: AllAdvance(states[k], Exec(states[k], steps[k])))
       <==> (forall k | 0 <= k < |steps| :: SafeStep(states[k], steps[k]))
  {
    forall k | 0 <= k < |steps|
      ensures AllAdvance(states[k], Exec(states[k], steps[k])) <==> SafeStep(states[k], steps[k])
    {
      FreeRunKeeps(states, steps, k);
      StepAdvancesIff(states[k], steps[k]);
    }
  }

  /** In a run whose upserts are all safe, every record advances from any state to any later one. */
  lemma {:induction false} SafeRunsNeverRegress(states: seq<Backend>, steps: seq<Step>, i: nat, j: nat)
    requires FreeRun(states, steps) && states[0] == EMPTY && i <= j <= |steps|
    requires forall k | 0 <= k < |steps| :: SafeStep(states[k], steps[k])
    ensures AllAdvance(states[i], states[j])
    decreases j - i
  {
    if i < j {
      SafeRunsNeverRegress(states, steps, i, j - 1);
      FreeRunKeeps(states, steps, j - 1);
      StepAdvancesIff(states[j - 1], steps[j - 1]);
      assert states[j - 1 + 1] == Exec(states[j - 1], steps[j - 1]);
      forall m | m in states[i].missions
        ensures m in states[j].missions && Advances(states[i].missions[m], states[j].missions[m])
      {
        AdvancesIsTransitive(states[i].missions[m], states[j - 1].missions[m], states[j].missions[m]);
      }
    }
  }

  /** The assumption on overlapping requests makes every upsert safe. */
  lemma SerialisedStepsAreSafe(s: Backend, step: Step)
    requires Inv(s) && Kept(s) && Enabled(s, step)
    ensures SafeStep(s, step)
  {
    forall m | m in s.missions
      ensures m in Exec(s, step).missions && Advances(s.missions[m], Exec(s, step).missions[m])
    {
      assert [step][1..] == [];
      assert Runs(Exec(s, step), []) && After(Exec(s, step), []) == Exec(s, step);
      RunsNeverRegress(s, [step], m);
    }
    StepAdvancesIff(s, step);
  }

  /** Two attempts of one mission hold the same reading of the store and write one after the other. */
  ghost predicate WriteOnSameReading(s: Backend, i: nat, j: nat) {
    && Possible(s, Upsert(i, Write.Done)) && Possible(s, Upsert(j, Write.Done)) && i != j
    && MissionOf(s.attempts[i].body) == MissionOf(s.attempts[j].body)
    && s.attempts[i].phase.current == s.attempts[j].phase.current
  }

  /**
   * Writing `f` over `e`, both projected onto `current`, loses nothing: `f` is
   * not behind, and sets every time that `e` was first to set to the same value.
   */
  predicate OverwritesSafely(current: Option<MissionRecord>, e: Body, f: Body) {
    && Index(StateOf(f)) >= Index(StateOf(e))
    && (current.None? ==> f.timestamp == e.timestamp)
    && (current.Some? && current.value.startedAt.None? && Index(StateOf(e)) >= RUNNING_INDEX ==>
          f.timestamp == e.timestamp)
    && (current.Some? && current.value.completedAt.None? && StateOf(e) == Completed ==> f.timestamp == e.timestamp)
  }

  /**
   * Two updates to lifecycle states that read the store before either wrote:
   * the projection advances from the first write to the second exactly when
   * the second overwrites the first safely.
   */
  lemma OverlapAdvancesIff(s: Backend, i: nat, j: nat)
    requires WriteOnSameReading(s, i, j)
    requires Index(StateOf(s.attempts[i].body)) >= 0 && Index(StateOf(s.attempts[j].body)) >= 0
    ensures var t := Exec(s, Upsert(i, Write.Done));
            var u := Exec(t, Upsert(j, Write.Done));
            var m := MissionOf(s.attempts[i].body);
            Advances(t.missions[m], u.missions[m])
            <==> OverwritesSafely(s.attempts[i].phase.current, s.attempts[i].body, s.attempts[j].body)
  {
    var t := Exec(s, Upsert(i, Write.Done));
    assert t.attempts[j] == s.attempts[j];
  }

  // ---------------------------------------------------------------- //
  // Two ways to go backwards
  // ---------------------------------------------------------------- //

  /** One attempt taken from its arrival to its insertion at `at`. */
  ghost function UpToInsert(i: nat, b: Body, at: Time): seq<Step> {
    [Arrive(b), Validate(i, true), Insert(i, at, Write.Done)]
  }

  /** The states that these three steps lead through, from `s`. */
  lemma StoresFrom(s: Backend, b: Body, at: Time) returns (states: seq<Backend>)
    requires Accepts(Lookup(s.missions, MissionOf(b)), b)
    ensures FreeRun(states, UpToInsert(|s.attempts|, b, at)) && states[0] == s
    ensures states[3] == Backend(s.missions, s.stream + [StoredEvent(b, at)], s.upserts,
                            s.attempts + [Attempt(b, Stored(at))])
  {
    var i := |s.attempts|;
    var s1 := Exec(s, Arrive(b));
    var s2 := Exec(s1, Validate(i, true));
    var s3 := Exec(s2, Insert(i, at, Write.Done));
    states := [s, s1, s2, s3];
    assert s3.attempts == s.attempts + [Attempt(b, Stored(at))];
  }

  /** One attempt taken from its arrival at `at` to its reading of the store. */
  ghost function UpToLoad(i: nat, b: Body, at: Time): seq<Step> {
    [Arrive(b), Validate(i, true), Insert(i, at, Write.Done), Load(i, true)]
  }

  /** The states that these four steps lead through, from `s`. */
  lemma LoadsFrom(s: Backend, b: Body, at: Time) returns (states: seq<Backend>)
    requires Accepts(Lookup(s.missions, MissionOf(b)), b)
    ensures FreeRun(states, UpToLoad(|s.attempts|, b, at)) && states[0] == s
    ensures states[4] == Backend(s.missions, s.stream + [StoredEvent(b, at)], s.upserts,
                                 s.attempts + [Attempt(b, Loaded(at, Lookup(s.missions, MissionOf(b))))])
  {
    var i := |s.attempts|;
    var s1 := Exec(s, Arrive(b));
    var s2 := Exec(s1, Validate(i, true));
    var s3 := Exec(s2, Insert(i, at, Write.Done));
    var s4 := Exec(s3, Load(i, true));
    states := [s, s1, s2, s3, s4];
    assert s4.attempts == s.attempts + [Attempt(b, Loaded(at, Lookup(s.missions, MissionOf(b))))];
  }

  lemma FreeRunsJoin(states: seq<Backend>, steps: seq<Step>, more: seq<Backend>, rest: seq<Step>)
    requires FreeRun(states, steps) && FreeRun(more, rest) && states[|steps|] == more[0]
    ensures FreeRun(states + more[1..], steps + rest)
    ensures (states + more[1..])[|steps| + |rest|] == more[|rest|]
  {
    var all, run := states + more[1..], steps + rest;
    forall k | 0 <= k < |run| ensures Possible(all[k], run[k]) && all[k + 1] == Exec(all[k], run[k]) {
      if k >= |steps| {
        assert run[k] == rest[k - |steps|] && all[k] == more[k - |steps|] && all[k + 1] == more[k - |steps| + 1];
      }
    }
  }

  lemma FreeStep(states: seq<Backend>, steps: seq<Step>, step: Step)
    requires FreeRun(states, steps) && Possible(states[|steps|], step)
    ensures FreeRun(states + [Exec(states[|steps|], step)], steps + [step])
  {
  }

  /** A run from the empty backend in which the first update of a mission is accepted. */
  lemma AcceptedFirst(b: Body, at: Time) returns (states: seq<Backend>, steps: seq<Step>)
    requires Accepts(None, b)
    ensures FreeRun(states, steps) && states[0] == EMPTY
    ensures states[|steps|] == Backend(map[MissionOf(b) := Project(None, StoredEvent(b, at))], [StoredEvent(b, at)],
                                       [StoredEvent(b, at)], [Attempt(b, Finished(Accepted))])
  {
    states := LoadsFrom(EMPTY, b, at);
    steps := UpToLoad(0, b, at);
    FreeStep(states, steps, Upsert(0, Write.Done));
    states, steps := states + [Exec(states[4], Upsert(0, Write.Done))], steps + [Upsert(0, Write.Done)];
  }

  /** A run goes on with one more attempt, up to its reading of the store. */
  lemma GoesOn(states: seq<Backend>, steps: seq<Step>, b: Body, at: Time) returns (more: seq<Backend>, all: seq<Step>)
    requires FreeRun(states, steps) && Accepts(Lookup(states[|steps|].missions, MissionOf(b)), b)
    ensures FreeRun(more, all) && more[0] == states[0]
    ensures var s := states[|steps|];
            more[|all|] == Backend(s.missions, s.stream + [StoredEvent(b, at)], s.upserts,
                                   s.attempts + [Attempt(b, Loaded(at, Lookup(s.missions, MissionOf(b))))])
  {
    var s := states[|steps|];
    var rest := LoadsFrom(s, b, at);
    FreeRunsJoin(states, steps, rest, UpToLoad(|s.attempts|, b, at));
    more, all := states + rest[1..], steps + UpToLoad(|s.attempts|, b, at);
  }

  /** The late write of an old reading takes the mission back from `review` to `refresh`. */
  lemma LateWriteRegresses(s: Backend, r: MissionRecord, refresh: Body, review: Body)
    requires |s.attempts| == 3 && MissionOf(refresh) == MissionOf(review)
    requires s.attempts[1] == Attempt(refresh, Loaded(3.0, Some(r)))
             && s.attempts[2] == Attempt(review, Loaded(4.0, Some(r)))
    requires Index(StateOf(refresh)) < Index(StateOf(review))
    ensures Possible(s, Upsert(2, Write.Done))
    ensures var t := Exec(s, Upsert(2, Write.Done));
            && Possible(t, Upsert(1, Write.Done)) && MissionOf(review) in t.missions
            && !Advances(t.missions[MissionOf(review)], Exec(t, Upsert(1, Write.Done)).missions[MissionOf(review)])
  {
    var t := Exec(s, Upsert(2, Write.Done));
    assert t.attempts[1] == s.attempts[1];
  }

  /**
   * Without the assumption the projection of any mission can go backwards, in
   * a run of the program from the empty backend: a retry of an accepted update
   * has read the store when another update is accepted, and then writes its
   * old state back.
   */
  lemma DifferentBodiesCanRegress(m: string) returns (states: seq<Backend>, steps: seq<Step>)
    requires m != ""
    ensures FreeRun(states, steps) && |steps| > 0 && states[0] == EMPTY
    ensures var before, after := states[|steps| - 1], states[|steps|];
            && m in before.missions && m in after.missions
            && !Advances(before.missions[m], after.missions[m])
  {
    var update := MissionUpdate(m, "t", Running, None, None, None, true);
    var refresh := Body(0.0, Payload(update, true));
    var review := Body(1.0, Payload(update.(state := Review, backfill := false), true));
    var r := Project(None, StoredEvent(refresh, 2.0));
    states, steps := AcceptedFirst(refresh, 2.0);
    states, steps := GoesOn(states, steps, refresh, 3.0);
    states, steps := GoesOn(states, steps, review, 4.0);
    var s := states[|steps|];
    LateWriteRegresses(s, r, refresh, review);
    FreeStep(states, steps, Upsert(2, Write.Done));
    var t := Exec(s, Upsert(2, Write.Done));
    states, steps := states + [t], steps + [Upsert(2, Write.Done)];
    FreeStep(states, steps, Upsert(1, Write.Done));
    states, steps := states + [Exec(t, Upsert(1, Write.Done))], steps + [Upsert(1, Write.Done)];
  }

  /** A run goes on with one more attempt, up to its insertion. */
  lemma GoesOnToInsert(
      states: seq<Backend>, steps: seq<Step>, b: Body, at: Time)
      returns (more: seq<Backend>, all: seq<Step>)
    requires FreeRun(states, steps) && Accepts(Lookup(states[|steps|].missions, MissionOf(b)), b)
    ensures FreeRun(more, all) && more[0] == states[0]
    ensures var s := states[|steps|];
            more[|all|] == Backend(s.missions, s.stream + [StoredEvent(b, at)], s.upserts,
                                   s.attempts + [Attempt(b, Stored(at))])
  {
    var s := states[|steps|];
    var rest := StoresFrom(s, b, at);
    FreeRunsJoin(states, steps, rest, UpToInsert(|s.attempts|, b, at));
    more, all := states + rest[1..], steps + UpToInsert(|s.attempts|, b, at);
  }

  /** A run goes on with one more step. */
  lemma GoesOnWith(states: seq<Backend>, steps: seq<Step>, step: Step) returns (more: seq<Backend>, all: seq<Step>)
    requires FreeRun(states, steps) && Possible(states[|steps|], step)
    ensures FreeRun(more, all) && more[0] == states[0] && all == steps + [step]
    ensures more == states + [Exec(states[|steps|], step)]
  {
    FreeStep(states, steps, step);
    more, all := states + [Exec(states[|steps|], step)], steps + [step];
  }

  /** An attempt that was validated before another update took effect writes its old state, though it reads afresh. */
  lemma FreshReadingRegresses(s: Backend, stored: MissionRecord, b: Body)
    requires |s.attempts| == 3 && s.attempts[1] == Attempt(b, Stored(3.0))
    requires Lookup(s.missions, MissionOf(b)) == Some(stored) && Index(StateOf(b)) < Index(stored.state)
    ensures var t := Exec(s, Load(1, true));
            && t.missions == s.missions && Possible(t, Upsert(1, Write.Done))
            && t.attempts[1].phase.current == Some(stored)
            && !Advances(stored, Exec(t, Upsert(1, Write.Done)).missions[MissionOf(b)])
  {
  }

  /**
   * A stale reading is not needed: in another run from the empty backend, of
   * any mission, the last upsert projects onto the very record that is stored,
   * and takes it back, because its attempt was validated too long ago.
   */
  lemma StaleValidationRegresses(m: string) returns (states: seq<Backend>, steps: seq<Step>)
    requires m != ""
    ensures FreeRun(states, steps) && |steps| > 0 && states[0] == EMPTY
    ensures var before, after, step := states[|steps| - 1], states[|steps|], steps[|steps| - 1];
            && step.Upsert? && Possible(before, step)
            && before.attempts[step.i].phase.current == Lookup(before.missions, m)
            && m in before.missions && m in after.missions
            && !Advances(before.missions[m], after.missions[m])
  {
    var update := MissionUpdate(m, "t", Running, None, None, None, true);
    var refresh := Body(0.0, Payload(update, true));
    var review := Body(1.0, Payload(update.(state := Review, backfill := false), true));
    states, steps := AcceptedFirst(refresh, 2.0);
    states, steps := GoesOnToInsert(states, steps, refresh, 3.0);
    states, steps := GoesOn(states, steps, review, 4.0);
    states, steps := GoesOnWith(states, steps, Upsert(2, Write.Done));
    var s := states[|steps|];
    FreshReadingRegresses(s, s.missions[m], refresh);
    states, steps := GoesOnWith(states, steps, Load(1, true));
    states, steps := GoesOnWith(states, steps, Upsert(1, Write.Done));
  }
}
