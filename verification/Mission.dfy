/**
 * The mission lifecycle (backend/app/models/mission.py): its ordered states,
 * the legal transitions and the projected record.
 */
module Mission {
  import opened Wrappers

  /** Every string a payload may carry as its state; `Unlisted` is a string outside the lifecycle. */
  datatype MissionState = Created | Queued | Assigned | Running | Review | Completed | Unlisted(text: string)

  const MISSION_STATES: seq<MissionState> := [Created, Queued, Assigned, Running, Review, Completed]

  /** Position in the lifecycle, -1 for a string outside it. */
  function Index(s: MissionState): (i: int)
    ensures -1 <= i < |MISSION_STATES|
    ensures i == -1 <==> s !in MISSION_STATES
    ensures i >= 0 ==> MISSION_STATES[i] == s
  {
    match s
    case Created => 0
    case Queued => 1
    case Assigned => 2
    case Running => 3
    case Review => 4
    case Completed => 5
    case Unlisted(_) => -1
  }

  predicate IsValidTransition(current: Option<MissionState>, target: MissionState, backfill: bool) {
    if Index(target) < 0 then
      false
    else if current.None? then
      backfill || target == MISSION_STATES[0]
    else if Index(current.value) < 0 then
      false
    else
      var delta := Index(target) - Index(current.value);
      if backfill then delta >= 0 else delta == 0 || delta == 1
  }

  /** The normal moves, written out: a mission enters at Created, stays, or goes one state on. */
  lemma NormalMoves(current: Option<MissionState>, target: MissionState)
    ensures IsValidTransition(current, target, false) <==>
              (current, target) in {
                (None, Created), (Some(Created), Created), (Some(Created), Queued), (Some(Queued), Queued),
                (Some(Queued), Assigned), (Some(Assigned), Assigned), (Some(Assigned), Running),
                (Some(Running), Running), (Some(Running), Review), (Some(Review), Review),
                (Some(Review), Completed), (Some(Completed), Completed)}
  {
  }

  /** A non-empty walk whose every move is a normal (non-backfill) transition. */
  ghost predicate NormalWalk(walk: seq<MissionState>) {
    && |walk| > 0
    && forall i | 0 < i < |walk| :: IsValidTransition(Some(walk[i - 1]), walk[i], false)
  }

  /** The walk makes at least one move and leads from `current` to `target`. */
  ghost predicate LeadsTo(current: Option<MissionState>, walk: seq<MissionState>, target: MissionState) {
    && NormalWalk(walk)
    && walk[|walk| - 1] == target
    && match current
       case None => IsValidTransition(None, walk[0], false)
       case Some(s) => |walk| > 1 && walk[0] == s
  }

  lemma {:induction false} WalkNeverRegresses(walk: seq<MissionState>, i: nat, j: nat)
    requires NormalWalk(walk)
    requires i <= j < |walk|
    ensures Index(walk[i]) <= Index(walk[j])
    decreases j - i
  {
    if i < j {
      WalkNeverRegresses(walk, i, j - 1);
      assert IsValidTransition(Some(walk[j - 1]), walk[j], false);
    }
  }

  lemma {:induction false} WalkBetween(from: MissionState, to: MissionState) returns (walk: seq<MissionState>)
    requires 0 <= Index(from) <= Index(to)
    ensures NormalWalk(walk) && walk[0] == from && walk[|walk| - 1] == to
    decreases Index(to) - Index(from)
  {
    if Index(from) == Index(to) {
      walk := [from];
    } else {
      var next := MISSION_STATES[Index(from) + 1];
      var rest := WalkBetween(next, to);
      walk := [from] + rest;
      forall i | 0 < i < |walk| ensures IsValidTransition(Some(walk[i - 1]), walk[i], false) {
        assert i > 1 ==> walk[i - 1] == rest[i - 2] && walk[i] == rest[i - 1];
      }
    }
  }

  /**
   * A backfill may make exactly those jumps that some sequence of normal
   * moves could have made one step at a time.
   */
  lemma {:induction false} BackfillIsClosureOfNormalMoves(current: Option<MissionState>, target: MissionState)
    ensures IsValidTransition(current, target, true) <==> exists walk :: LeadsTo(current, walk, target)
  {
    if IsValidTransition(current, target, true) {
      var from := if current.Some? then current.value else Created;
      var walk := WalkBetween(from, target);
      if current.Some? && |walk| == 1 {
        assert LeadsTo(current, [from, from], target);
      } else {
        assert LeadsTo(current, walk, target);
      }
    }
    if walk :| LeadsTo(current, walk, target) {
      WalkNeverRegresses(walk, 0, |walk| - 1);
      if current.Some? {
        assert IsValidTransition(Some(walk[0]), walk[1], false);
      }
    }
  }

  datatype MissionRecord = MissionRecord(
    missionId: string,
    title: string,
    assignedAgent: Option<string>,
    state: MissionState,
    createdAt: Time,
    startedAt: Option<Time>,
    completedAt: Option<Time>,
    prRef: Option<string>,
    commitSha: Option<string>,
    updatedAt: Time)
  {
    /** Elapsed Running to Completed time, when both ends are known. */
    function DurationSeconds(): Option<Time> {
      if startedAt.None? || completedAt.None? then None else Some(completedAt.value - startedAt.value)
    }
  }

  /** A decoded `mission_update` payload (the free-text note is never projected). */
  datatype MissionUpdate = MissionUpdate(
    missionId: string,
    title: string,
    state: MissionState,
    assignedAgent: Option<string>,
    prRef: Option<string>,
    commitSha: Option<string>,
    backfill: bool)

  /** A payload as sent; `wellFormed` stands for the field constraints of the schema. */
  datatype Payload = Payload(update: MissionUpdate, wellFormed: bool)
  {
    /** The schema accepts the payload. A mission id is never empty. */
    predicate PassesSchema() {
      wellFormed && update.missionId != ""
    }
  }
}
