/**
 * Attempts that are still in flight when something new begins: the state of a
 * mission under stragglers that lost their answers, and what an answer says
 * about a mission whatever else is in flight.
 */
module Stragglers {
  import opened Wrappers
  import opened Mission
  import opened Projection
  import opened Ingestion
  import opened Retries

  function StateAt(s: Backend, m: string): Option<MissionState> {
    if m in s.missions then Some(s.missions[m].state) else None
  }

  /**
   * The attempts of mission `m` still in flight could at most write the state
   * it already has: retries that lost their answers, for instance.
   */
  ghost predicate Quiet(s: Backend, m: string) {
    forall i | 0 <= i < |s.attempts| && !s.attempts[i].phase.Finished? && MissionOf(s.attempts[i].body) == m ::
      Some(StateOf(s.attempts[i].body)) == StateAt(s, m)
  }

  /** Every attempt of `m` in flight is one of `b`. */
  ghost predicate OnlyInFlight(s: Backend, m: string, b: Body) {
    forall i | 0 <= i < |s.attempts| && !s.attempts[i].phase.Finished? && MissionOf(s.attempts[i].body) == m ::
      s.attempts[i].body == b
  }

  /** The new attempts of the mission are all of `b`, and none ended with an answer that `b` does not deserve. */
  ghost predicate AnswersFit(n: nat, legal: bool, b: Body, s: Backend) {
    forall i | n <= i < |s.attempts| && MissionOf(s.attempts[i].body) == MissionOf(b) ::
      && s.attempts[i].body == b
      && (s.attempts[i].phase.Finished? ==>
            var status := s.attempts[i].phase.status;
            if legal then !Refused(status) && (status.Accepted? ==> StateAt(s, MissionOf(b)) == Some(StateOf(b)))
            else !status.Accepted?)
  }

  ghost predicate NoNewAttempts(n: nat, m: string, s: Backend) {
    forall i | n <= i < |s.attempts| :: MissionOf(s.attempts[i].body) != m
  }

  /** Since `start`, where the mission of `b` was quiet, only `b` has been submitted for it. */
  ghost predicate Forwards(start: Backend, b: Body, s: Backend) {
    var m, n := MissionOf(b), |start.attempts|;
    var from, legal := StateAt(start, m), Accepts(Lookup(start.missions, m), b);
    && n <= |s.attempts|
    && AnswersFit(n, legal, b, s)
    && if NoNewAttempts(n, m, s) then StateAt(s, m) == from && Quiet(s, m)
       else OnlyInFlight(s, m, b) && (StateAt(s, m) == from || (legal && StateAt(s, m) == Some(StateOf(b))))
  }

  /** An update judged legal from the state at the start, or from its own, is legal. */
  lemma ForwardsValidates(start: Backend, b: Body, s: Backend)
    requires Forwards(start, b, s) && !NoNewAttempts(|start.attempts|, MissionOf(b), s)
    ensures Accepts(Lookup(start.missions, MissionOf(b)), b) <==> Accepts(Lookup(s.missions, MissionOf(b)), b)
  {
  }

  /** Attempt `i` of the mission takes a step, from `s` to `t`. */
  ghost predicate Steps(s: Backend, t: Backend, i: nat) {
    && i < |s.attempts| == |t.attempts| && !s.attempts[i].phase.Finished?
    && t.attempts == s.attempts[i := s.attempts[i].(phase := t.attempts[i].phase)]
  }

  /** Before anything new arrived, the old attempts write the state that is there. */
  lemma StragglerSteps(start: Backend, b: Body, s: Backend, t: Backend, i: nat)
    requires Forwards(start, b, s) && NoNewAttempts(|start.attempts|, MissionOf(b), s)
    requires Steps(s, t, i) && MissionOf(s.attempts[i].body) == MissionOf(b)
    requires StateAt(t, MissionOf(b)) == StateAt(s, MissionOf(b))
             || StateAt(t, MissionOf(b)) == Some(StateOf(s.attempts[i].body))
    ensures Forwards(start, b, t)
  {
    var m := MissionOf(b);
    assert forall k | 0 <= k < |s.attempts| :: t.attempts[k].body == s.attempts[k].body;
    assert NoNewAttempts(|start.attempts|, m, t);
    assert Quiet(s, m) && StateAt(t, m) == StateAt(s, m);
  }

  /** Once `b` has arrived, its attempts do only what `b` allows. */
  lemma NewcomerSteps(start: Backend, b: Body, s: Backend, t: Backend, i: nat)
    requires Forwards(start, b, s) && !NoNewAttempts(|start.attempts|, MissionOf(b), s)
    requires Steps(s, t, i) && MissionOf(s.attempts[i].body) == MissionOf(b)
    requires var m, legal := MissionOf(b), Accepts(Lookup(start.missions, MissionOf(b)), b);
             && (StateAt(t, m) == StateAt(s, m) || (legal && StateAt(t, m) == Some(StateOf(b))))
             && (t.attempts[i].phase.Finished? ==>
                   var status := t.attempts[i].phase.status;
                   if legal then !Refused(status) && (status.Accepted? ==> StateAt(t, m) == Some(StateOf(b)))
                   else !status.Accepted?)
    ensures Forwards(start, b, t)
  {
    var m, n := MissionOf(b), |start.attempts|;
    assert forall k | 0 <= k < |s.attempts| :: t.attempts[k].body == s.attempts[k].body;
    var k :| n <= k < |s.attempts| && MissionOf(s.attempts[k].body) == m;
    assert MissionOf(t.attempts[k].body) == m;
    assert OnlyInFlight(t, m, b);
    assert AnswersFit(n, Accepts(Lookup(start.missions, m), b), b, t);
  }

  lemma ForwardsUpsert(start: Backend, b: Body, s: Backend, i: nat, write: Write)
    requires Inv(s) && Forwards(start, b, s) && Enabled(s, Upsert(i, write))
             && MissionOf(s.attempts[i].body) == MissionOf(b)
    ensures Forwards(start, b, Exec(s, Upsert(i, write)))
  {
    var t := Exec(s, Upsert(i, write));
    if NoNewAttempts(|start.attempts|, MissionOf(b), s) {
      StragglerSteps(start, b, s, t, i);
    } else {
      assert AttemptOk(s, s.attempts[i]) && s.attempts[i].body == b;
      ForwardsValidates(start, b, s);
      NewcomerSteps(start, b, s, t, i);
    }
  }

  lemma ForwardsArrive(start: Backend, b: Body, s: Backend)
    requires Forwards(start, b, s) && MayArrive(s, b)
    ensures Forwards(start, b, Exec(s, Arrive(b)))
  {
    var m, t := MissionOf(b), Exec(s, Arrive(b));
    assert MissionOf(t.attempts[|s.attempts|].body) == m;
    assert OnlyInFlight(t, m, b);
  }

  lemma ElsewhereKeepsMission(s: Backend, step: Step, m: string)
    requires Inv(s) && Enabled(s, step)
    requires MissionOf(if step.Arrive? then step.body else s.attempts[step.i].body) != m
    ensures var t := Exec(s, step);
            && |s.attempts| <= |t.attempts| && StateAt(t, m) == StateAt(s, m)
            && (forall k | 0 <= k < |s.attempts| && MissionOf(s.attempts[k].body) == m ::
                  t.attempts[k] == s.attempts[k])
            && (forall k | 0 <= k < |t.attempts| && MissionOf(t.attempts[k].body) == m ::
                  k < |s.attempts| && t.attempts[k] == s.attempts[k])
  {
  }

  /** A step that leaves the stored states and the mission's requests as they are. */
  lemma ForwardsElsewhere(start: Backend, b: Body, s: Backend, t: Backend)
    requires Forwards(start, b, s) && |s.attempts| <= |t.attempts|
    requires StateAt(t, MissionOf(b)) == StateAt(s, MissionOf(b))
    requires forall k | 0 <= k < |s.attempts| && MissionOf(s.attempts[k].body) == MissionOf(b) ::
               t.attempts[k] == s.attempts[k]
    requires forall k | 0 <= k < |t.attempts| && MissionOf(t.attempts[k].body) == MissionOf(b) ::
               k < |s.attempts| && t.attempts[k] == s.attempts[k]
    ensures Forwards(start, b, t)
  {
    var m, n := MissionOf(b), |start.attempts|;
    if !NoNewAttempts(n, m, s) {
      var k :| n <= k < |s.attempts| && MissionOf(s.attempts[k].body) == m;
      assert MissionOf(t.attempts[k].body) == m;
    }
  }

  /** A step of one attempt of the mission before its upsert. */
  lemma ForwardsMove(start: Backend, b: Body, s: Backend, step: Step)
    requires Forwards(start, b, s) && Enabled(s, step) && !step.Arrive? && !step.Upsert?
    requires MissionOf(s.attempts[step.i].body) == MissionOf(b)
    ensures Forwards(start, b, Exec(s, step))
  {
    if NoNewAttempts(|start.attempts|, MissionOf(b), s) {
      StragglerSteps(start, b, s, Exec(s, step), step.i);
    } else {
      assert s.attempts[step.i].body == b;
      ForwardsValidates(start, b, s);
      NewcomerSteps(start, b, s, Exec(s, step), step.i);
    }
  }

  lemma ForwardsStep(start: Backend, b: Body, s: Backend, step: Step)
    requires Inv(s) && Forwards(start, b, s) && Enabled(s, step)
    requires step.Arrive? && MissionOf(step.body) == MissionOf(b) ==> step.body == b
    ensures Forwards(start, b, Exec(s, step))
  {
    if MissionOf(if step.Arrive? then step.body else s.attempts[step.i].body) != MissionOf(b) {
      ElsewhereKeepsMission(s, step, MissionOf(b));
      ForwardsElsewhere(start, b, s, Exec(s, step));
    } else if step.Arrive? {
      ForwardsArrive(start, b, s);
    } else if step.Upsert? {
      ForwardsUpsert(start, b, s, step.i, step.write);
    } else {
      ForwardsMove(start, b, s, step);
    }
  }

  lemma {:induction false} ForwardsRun(start: Backend, b: Body, s: Backend, steps: seq<Step>)
    requires Inv(s) && Forwards(start, b, s) && Runs(s, steps)
    requires ArrivalsAre(steps, MissionOf(b), b)
    ensures Forwards(start, b, After(s, steps))
    decreases |steps|
  {
    if steps != [] {
      ForwardsStep(start, b, s, steps[0]);
      StepKeepsInv(s, steps[0]);
      assert forall i | 0 <= i < |steps[1..]| :: steps[1..][i] == steps[i + 1];
      ForwardsRun(start, b, Exec(s, steps[0]), steps[1..]);
    }
  }

  lemma {:induction false} QuietStays(s: Backend, steps: seq<Step>, m: string)
    requires Quiet(s, m) && Runs(s, steps) && Inv(s)
    requires forall i | 0 <= i < |steps| :: steps[i].Arrive? ==> MissionOf(steps[i].body) != m
    ensures Quiet(After(s, steps), m) && StateAt(After(s, steps), m) == StateAt(s, m)
    decreases |steps|
  {
    if steps != [] {
      var t := Exec(s, steps[0]);
      if steps[0].Upsert? {
        assert AttemptOk(s, s.attempts[steps[0].i]);
      }
      assert StateAt(t, m) == StateAt(s, m);
      assert Quiet(t, m);
      StepKeepsInv(s, steps[0]);
      assert forall i | 0 <= i < |steps[1..]| :: steps[1..][i] == steps[i + 1];
      QuietStays(t, steps[1..], m);
    }
  }

  /** Once a new body has arrived for a mission, nothing older is in flight for it. */
  lemma {:induction false} NewcomerRemains(n: nat, m: string, b: Body, s: Backend, steps: seq<Step>)
    requires Runs(s, steps) && ArrivalsAre(steps, m, b) && MissionOf(b) == m
    requires NoNewAttempts(n, m, s) || OnlyInFlight(s, m, b)
    ensures NoNewAttempts(n, m, After(s, steps)) || OnlyInFlight(After(s, steps), m, b)
    decreases |steps|
  {
    if steps != [] {
      NewcomerStep(n, m, b, s, steps[0]);
      assert forall i | 0 <= i < |steps[1..]| :: steps[1..][i] == steps[i + 1];
      NewcomerRemains(n, m, b, Exec(s, steps[0]), steps[1..]);
    }
  }

  lemma NewcomerStep(n: nat, m: string, b: Body, s: Backend, step: Step)
    requires Enabled(s, step) && (step.Arrive? && MissionOf(step.body) == m ==> step.body == b) && MissionOf(b) == m
    requires NoNewAttempts(n, m, s) || OnlyInFlight(s, m, b)
    ensures NoNewAttempts(n, m, Exec(s, step)) || OnlyInFlight(Exec(s, step), m, b)
  {
    var t := Exec(s, step);
    if step.Arrive? && MissionOf(step.body) == m {
      assert OnlyInFlight(t, m, b);
    } else if NoNewAttempts(n, m, s) {
      assert NoNewAttempts(n, m, t);
    } else {
      assert OnlyInFlight(t, m, b);
    }
  }

  // ---------------------------------------------------------------- //
  // Whatever is in flight
  // ---------------------------------------------------------------- //

  /** The update asks for a state that can be entered from anywhere before it. */
  predicate Enters(b: Body) {
    b.payload.PassesSchema() && Index(StateOf(b)) >= 0 && (b.payload.update.backfill || StateOf(b) == Created)
  }

  /** What an answer to such an update says about the mission from then on. */
  ghost predicate AnswerLasts(s: Backend, b: Body, status: Status) {
    var state := StateAt(s, MissionOf(b));
    && (status.Accepted? ==> state.Some? && Index(state.value) >= Index(StateOf(b)))
    && (Refused(status) && Enters(b) ==> state.Some? && Index(state.value) > Index(StateOf(b)))
  }

  ghost predicate AnswersLast(n: nat, b: Body, s: Backend) {
    forall i | n <= i < |s.attempts| && s.attempts[i].body == b && s.attempts[i].phase.Finished? ::
      AnswerLasts(s, b, s.attempts[i].phase.status)
  }

  lemma StatesAdvance(s: Backend, step: Step, m: string)
    requires Inv(s) && Enabled(s, step)
    ensures m in s.missions ==>
              m in Exec(s, step).missions && Index(s.missions[m].state) <= Index(Exec(s, step).missions[m].state)
  {
    if m in s.missions {
      RunsNeverRegress(s, [step], m);
      assert After(s, [step]) == Exec(s, step);
    }
  }

  lemma StoredIsConsistent(s: Backend, m: string)
    requires Inv(s) && m in s.missions
    ensures Consistent(s.missions[m])
  {
    assert MissionOk(s, m);
    var h := Of(s.upserts, m);
    HistoryIsSafe(h, m, |h|);
  }

  /** An attempt that ends in this step gets an answer that will last. */
  lemma AnswerIsDeserved(s: Backend, step: Step, i: nat)
    requires Inv(s) && Enabled(s, step) && !step.Arrive? && step.i == i
    ensures var a := Exec(s, step).attempts[i]; a.phase.Finished? ==> AnswerLasts(Exec(s, step), a.body, a.phase.status)
  {
    var m := MissionOf(s.attempts[i].body);
    if m in s.missions {
      StoredIsConsistent(s, m);
    }
  }

  lemma {:induction false} AnswersLastRun(n: nat, b: Body, s: Backend, steps: seq<Step>)
    requires Inv(s) && Runs(s, steps) && AnswersLast(n, b, s)
    ensures AnswersLast(n, b, After(s, steps))
    decreases |steps|
  {
    if steps != [] {
      var t := Exec(s, steps[0]);
      StatesAdvance(s, steps[0], MissionOf(b));
      forall i | n <= i < |t.attempts| && t.attempts[i].body == b && t.attempts[i].phase.Finished?
        ensures AnswerLasts(t, b, t.attempts[i].phase.status)
      {
        if !steps[0].Arrive? && steps[0].i == i {
          AnswerIsDeserved(s, steps[0], i);
        } else {
          assert t.attempts[i] == s.attempts[i];
        }
      }
      StepKeepsInv(s, steps[0]);
      AnswersLastRun(n, b, t, steps[1..]);
    }
  }
}
