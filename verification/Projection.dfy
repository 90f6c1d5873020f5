/**
 * The mission projection (`MissionUpdateHandler.apply` in
 * backend/app/services/pipeline.py): one incremental step, its replay over a
 * history, and a declarative summary of the same history.
 */
module Projection {
  import opened Wrappers
  import opened Mission

  /** The fixed body of one submission: built once, posted on every attempt. */
  datatype Body = Body(timestamp: Time, payload: Payload)

  /** A body as stamped by one ingestion attempt. */
  datatype StoredEvent = StoredEvent(body: Body, receivedAt: Time)

  function MissionOf(b: Body): string {
    b.payload.update.missionId
  }

  function StateOf(b: Body): MissionState {
    b.payload.update.state
  }

  /** Python truthiness of an optional string. */
  predicate Truthy(s: Option<string>) {
    s.Some? && s.value != ""
  }

  /** Python's `value or fallback`. */
  function Or(value: Option<string>, fallback: Option<string>): Option<string> {
    if Truthy(value) then value else fallback
  }

  const RUNNING_INDEX := Index(Running)
  const COMPLETED_INDEX := Index(Completed)

  /** The record `apply` writes for event `e` when it has read `current`. */
  function Project(current: Option<MissionRecord>, e: StoredEvent): MissionRecord {
    var u := e.body.payload.update;
    var known := current.Some?;
    var startedAt := if known then current.value.startedAt else None;
    var completedAt := if known then current.value.completedAt else None;
    MissionRecord(
      u.missionId,
      if u.title != "" then u.title else if known then current.value.title else u.missionId,
      Or(u.assignedAgent, if known then current.value.assignedAgent else None),
      u.state,
      if known then current.value.createdAt else e.body.timestamp,
      if startedAt.None? && Index(u.state) >= RUNNING_INDEX then Some(e.body.timestamp) else startedAt,
      if completedAt.None? && u.state == Completed then Some(e.body.timestamp) else completedAt,
      Or(u.prRef, if known then current.value.prRef else None),
      Or(u.commitSha, if known then current.value.commitSha else None),
      e.receivedAt)
  }

  /** The update is legal from the projected state. */
  predicate Accepts(current: Option<MissionRecord>, b: Body) {
    && b.payload.PassesSchema()
    && IsValidTransition(if current.Some? then Some(current.value.state) else None,
                         StateOf(b), b.payload.update.backfill)
  }

  /**
   * Projecting a body onto its own result is projecting it once: only the
   * later attempt's `updatedAt` remains. The repeated update is always legal.
   */
  lemma ProjectIsIdempotent(c: Option<MissionRecord>, e: StoredEvent, f: StoredEvent)
    requires e.body == f.body
    ensures Project(Some(Project(c, e)), f) == Project(c, f)
    ensures Accepts(c, e.body) ==> Accepts(Some(Project(c, e)), e.body)
  {
  }

  // ---------------------------------------------------------------- //
  // Replaying a history of one mission
  // ---------------------------------------------------------------- //

  /** The record after applying `h` in order, starting from an unknown mission. */
  function Replay(h: seq<StoredEvent>): Option<MissionRecord> {
    if h == [] then None else Some(Project(Replay(h[..|h| - 1]), h[|h| - 1]))
  }

  /** All events of `h` belong to mission `m`. */
  ghost predicate AllOf(h: seq<StoredEvent>, m: string) {
    forall i | 0 <= i < |h| :: MissionOf(h[i].body) == m
  }

  /** Every event of `h` was legal when it was applied. */
  ghost predicate LegalHistory(h: seq<StoredEvent>) {
    forall i | 0 <= i < |h| :: Accepts(Replay(h[..i]), h[i].body)
  }

  /** Event `i` is the first of `h` whose state is at or past lifecycle position `k`. */
  ghost predicate FirstAtOrPast(h: seq<StoredEvent>, k: int, i: int) {
    && 0 <= i < |h|
    && Index(StateOf(h[i].body)) >= k
    && forall j | 0 <= j < i :: Index(StateOf(h[j].body)) < k
  }

  /** `t` is the source time of the first event at or past `k`, if there is one. */
  ghost predicate ReachedAt(h: seq<StoredEvent>, k: int, t: Option<Time>) {
    match t
    case Some(time) => exists i :: FirstAtOrPast(h, k, i) && h[i].body.timestamp == time
    case None => forall i | 0 <= i < |h| :: Index(StateOf(h[i].body)) < k
  }

  /** `v` is the last truthy value among `values`, or `fallback` when there is none. */
  ghost predicate LastTruthy(values: seq<Option<string>>, v: Option<string>, fallback: Option<string>) {
    || (exists i | 0 <= i < |values| :: Truthy(values[i]) && v == values[i] && NoneTruthy(values[i + 1..]))
    || (NoneTruthy(values) && v == fallback)
  }

  ghost predicate NoneTruthy(values: seq<Option<string>>) {
    forall i | 0 <= i < |values| :: !Truthy(values[i])
  }

  function Titles(h: seq<StoredEvent>): seq<Option<string>> {
    seq(|h|, i requires 0 <= i < |h| => Some(h[i].body.payload.update.title))
  }

  function Agents(h: seq<StoredEvent>): seq<Option<string>> {
    seq(|h|, i requires 0 <= i < |h| => h[i].body.payload.update.assignedAgent)
  }

  function PrRefs(h: seq<StoredEvent>): seq<Option<string>> {
    seq(|h|, i requires 0 <= i < |h| => h[i].body.payload.update.prRef)
  }

  function Commits(h: seq<StoredEvent>): seq<Option<string>> {
    seq(|h|, i requires 0 <= i < |h| => h[i].body.payload.update.commitSha)
  }

  /** What the record of a non-empty history says, without replaying it. */
  ghost predicate Summarises(r: MissionRecord, h: seq<StoredEvent>)
    requires h != []
  {
    var last := h[|h| - 1];
    && r.missionId == MissionOf(last.body)
    && r.state == StateOf(last.body)
    && r.updatedAt == last.receivedAt
    && r.createdAt == h[0].body.timestamp
    && ReachedAt(h, RUNNING_INDEX, r.startedAt)
    && ReachedAt(h, COMPLETED_INDEX, r.completedAt)
    && LastTruthy(Titles(h), Some(r.title), Some(MissionOf(h[0].body)))
    && LastTruthy(Agents(h), r.assignedAgent, None)
    && LastTruthy(PrRefs(h), r.prRef, None)
    && LastTruthy(Commits(h), r.commitSha, None)
  }

  lemma ReachedAtExtends(h: seq<StoredEvent>, e: StoredEvent, k: int, t: Option<Time>)
    requires ReachedAt(h, k, t)
    ensures ReachedAt(h + [e], k,
                      if t.None? && Index(StateOf(e.body)) >= k then Some(e.body.timestamp) else t)
  {
    var g := h + [e];
    if t.Some? {
      var i :| FirstAtOrPast(h, k, i) && h[i].body.timestamp == t.value;
      assert FirstAtOrPast(g, k, i) && g[i].body.timestamp == t.value;
    } else if Index(StateOf(e.body)) >= k {
      assert FirstAtOrPast(g, k, |h|);
    }
  }

  lemma LastTruthyExtends(vs: seq<Option<string>>, w: Option<string>, v: Option<string>, fallback: Option<string>)
    requires LastTruthy(vs, v, fallback)
    ensures LastTruthy(vs + [w], Or(w, v), fallback)
  {
    var ws := vs + [w];
    if Truthy(w) {
      assert ws[|vs|] == w && NoneTruthy(ws[|vs| + 1..]);
    } else if i :| 0 <= i < |vs| && Truthy(vs[i]) && v == vs[i] && NoneTruthy(vs[i + 1..]) {
      assert ws[i] == vs[i] && ws[i + 1..] == vs[i + 1..] + [w];
    }
  }

  lemma ColumnsExtend(h: seq<StoredEvent>, e: StoredEvent)
    ensures Titles(h + [e]) == Titles(h) + [Some(e.body.payload.update.title)]
    ensures Agents(h + [e]) == Agents(h) + [e.body.payload.update.assignedAgent]
    ensures PrRefs(h + [e]) == PrRefs(h) + [e.body.payload.update.prRef]
    ensures Commits(h + [e]) == Commits(h) + [e.body.payload.update.commitSha]
  {
  }

  lemma FirstEventSummary(e: StoredEvent)
    ensures Summarises(Project(None, e), [e])
  {
    var u := e.body.payload.update;
    assert [] + [e] == [e];
    ColumnsExtend([], e);
    ReachedAtExtends([], e, RUNNING_INDEX, None);
    ReachedAtExtends([], e, COMPLETED_INDEX, None);
    LastTruthyExtends([], Some(u.title), Some(u.missionId), Some(u.missionId));
    LastTruthyExtends([], u.assignedAgent, None, None);
    LastTruthyExtends([], u.prRef, None, None);
    LastTruthyExtends([], u.commitSha, None, None);
  }

  lemma NextEventSummary(h: seq<StoredEvent>, r: MissionRecord, e: StoredEvent)
    requires h != [] && Summarises(r, h)
    requires MissionOf(e.body) == MissionOf(h[0].body)
    ensures Summarises(Project(Some(r), e), h + [e])
  {
    var u := e.body.payload.update;
    ColumnsExtend(h, e);
    ReachedAtExtends(h, e, RUNNING_INDEX, r.startedAt);
    ReachedAtExtends(h, e, COMPLETED_INDEX, r.completedAt);
    LastTruthyExtends(Titles(h), Some(u.title), Some(r.title), Some(MissionOf(h[0].body)));
    LastTruthyExtends(Agents(h), u.assignedAgent, r.assignedAgent, None);
    LastTruthyExtends(PrRefs(h), u.prRef, r.prRef, None);
    LastTruthyExtends(Commits(h), u.commitSha, r.commitSha, None);
  }

  /** The incremental projection computes the declarative summary. */
  lemma {:induction false} ReplayIsSummary(h: seq<StoredEvent>, m: string)
    requires h != [] && AllOf(h, m)
    ensures Summarises(Replay(h).value, h)
  {
    var front, e := h[..|h| - 1], h[|h| - 1];
    assert h == front + [e];
    if front == [] {
      FirstEventSummary(e);
    } else {
      ReplayIsSummary(front, m);
      assert front[0] == h[0];
      NextEventSummary(front, Replay(front).value, e);
    }
  }

  lemma ReachedAtUnique(h: seq<StoredEvent>, k: int, s: Option<Time>, t: Option<Time>)
    requires ReachedAt(h, k, s) && ReachedAt(h, k, t)
    ensures s == t
  {
    if s.Some? && t.Some? {
      var i :| FirstAtOrPast(h, k, i) && h[i].body.timestamp == s.value;
      var j :| FirstAtOrPast(h, k, j) && h[j].body.timestamp == t.value;
      assert i == j;
    }
  }

  lemma NoneTruthyAfter(vs: seq<Option<string>>, i: nat)
    requires i < |vs| && NoneTruthy(vs[i + 1..])
    ensures forall j | i < j < |vs| :: !Truthy(vs[j])
  {
    forall j | i < j < |vs| ensures !Truthy(vs[j]) {
      assert vs[i + 1..][j - i - 1] == vs[j];
    }
  }

  lemma LastTruthyUnique(vs: seq<Option<string>>, v: Option<string>, w: Option<string>, fallback: Option<string>)
    requires LastTruthy(vs, v, fallback) && LastTruthy(vs, w, fallback)
    ensures v == w
  {
    if !NoneTruthy(vs) {
      var i :| 0 <= i < |vs| && Truthy(vs[i]) && v == vs[i] && NoneTruthy(vs[i + 1..]);
      var j :| 0 <= j < |vs| && Truthy(vs[j]) && w == vs[j] && NoneTruthy(vs[j + 1..]);
      NoneTruthyAfter(vs, i);
      NoneTruthyAfter(vs, j);
    }
  }

  /** The summary leaves no choice: exactly one record meets it, the replayed one. */
  lemma SummaryCharacterisesReplay(h: seq<StoredEvent>, m: string, r: MissionRecord)
    requires h != [] && AllOf(h, m)
    ensures Summarises(r, h) <==> Replay(h) == Some(r)
  {
    ReplayIsSummary(h, m);
    if Summarises(r, h) {
      var q := Replay(h).value;
      ReachedAtUnique(h, RUNNING_INDEX, q.startedAt, r.startedAt);
      ReachedAtUnique(h, COMPLETED_INDEX, q.completedAt, r.completedAt);
      LastTruthyUnique(Titles(h), Some(q.title), Some(r.title), Some(MissionOf(h[0].body)));
      LastTruthyUnique(Agents(h), q.assignedAgent, r.assignedAgent, None);
      LastTruthyUnique(PrRefs(h), q.prRef, r.prRef, None);
      LastTruthyUnique(Commits(h), q.commitSha, r.commitSha, None);
    }
  }

  // ---------------------------------------------------------------- //
  // Lifecycle safety of a legal history
  // ---------------------------------------------------------------- //

  /** `v` survives storage, where an absent value is written as an empty string. */
  predicate Encodable(v: Option<string>) {
    v != Some("")
  }

  /** What every projected record satisfies. */
  ghost predicate Consistent(r: MissionRecord) {
    && Index(r.state) >= 0
    && (r.startedAt.Some? <==> Index(r.state) >= RUNNING_INDEX)
    && (r.completedAt.Some? <==> r.state == Completed)
    && r.missionId != "" && r.title != ""
    && Encodable(r.assignedAgent) && Encodable(r.prRef) && Encodable(r.commitSha)
  }

  /** `later` may follow `earlier` in the life of one mission. */
  ghost predicate Advances(earlier: MissionRecord, later: MissionRecord) {
    && later.missionId == earlier.missionId
    && Index(later.state) >= Index(earlier.state)
    && later.createdAt == earlier.createdAt
    && (earlier.startedAt.Some? ==> later.startedAt == earlier.startedAt)
    && (earlier.completedAt.Some? ==> later.completedAt == earlier.completedAt)
    && (earlier.state == Completed ==> later.state == Completed)
  }

  lemma ProjectIsSafe(c: Option<MissionRecord>, e: StoredEvent)
    requires Accepts(c, e.body)
    requires c.Some? ==> Consistent(c.value) && c.value.missionId == MissionOf(e.body)
    ensures Consistent(Project(c, e))
    ensures c.Some? ==> Advances(c.value, Project(c, e))
  {
  }

  lemma {:induction false} HistoryIsConsistent(h: seq<StoredEvent>, m: string)
    requires h != [] && AllOf(h, m) && LegalHistory(h)
    ensures Consistent(Replay(h).value) && Replay(h).value.missionId == m
  {
    var n := |h| - 1;
    var front, e := h[..n], h[n];
    assert Accepts(Replay(front), e.body);
    if n > 0 {
      LegalPrefix(h, n);
      HistoryIsConsistent(front, m);
    }
    ProjectIsSafe(Replay(front), e);
  }

  /** The last event of a legal history advances the record. */
  lemma {:induction false} LastEventAdvances(h: seq<StoredEvent>, m: string)
    requires |h| > 1 && AllOf(h, m) && LegalHistory(h)
    ensures AdvancesBetween(h[..|h| - 1], h)
  {
    var n := |h| - 1;
    LegalPrefix(h, n);
    HistoryIsConsistent(h[..n], m);
    assert Accepts(Replay(h[..n]), h[n].body);
    ProjectIsSafe(Replay(h[..n]), h[n]);
  }

  /** The record after `h` may follow the record after `g`. */
  ghost predicate AdvancesBetween(g: seq<StoredEvent>, h: seq<StoredEvent>) {
    Replay(g).Some? && Replay(h).Some? && Advances(Replay(g).value, Replay(h).value)
  }

  lemma {:induction false} AdvancesOn(f: seq<StoredEvent>, g: seq<StoredEvent>, h: seq<StoredEvent>)
    requires AdvancesBetween(f, g) && AdvancesBetween(g, h)
    ensures AdvancesBetween(f, h)
  {
    AdvancesIsTransitive(Replay(f).value, Replay(g).value, Replay(h).value);
  }

  lemma {:induction false} HistoryAdvances(g: seq<StoredEvent>, h: seq<StoredEvent>, m: string)
    requires g != [] && g <= h && AllOf(h, m) && LegalHistory(h)
    ensures AdvancesBetween(g, h)
    decreases |h|
  {
    if |g| == |h| {
      assert g == h;
    } else {
      var front := h[..|h| - 1];
      LegalPrefix(h, |h| - 1);
      HistoryAdvances(g, front, m);
      LastEventAdvances(h, m);
      AdvancesOn(g, front, h);
    }
  }

  /** Every record along a legal history is consistent, and each advances from those before. */
  lemma {:induction false} HistoryIsSafe(h: seq<StoredEvent>, m: string, i: nat)
    requires AllOf(h, m) && LegalHistory(h)
    requires 0 < i <= |h|
    ensures Consistent(Replay(h).value) && Replay(h).value.missionId == m
    ensures Replay(h[..i]).Some? && Advances(Replay(h[..i]).value, Replay(h).value)
  {
    HistoryIsConsistent(h, m);
    HistoryAdvances(h[..i], h, m);
  }

  lemma AdvancesIsTransitive(a: MissionRecord, b: MissionRecord, c: MissionRecord)
    requires Advances(a, b) && Advances(b, c)
    ensures Advances(a, c)
  {
  }

  lemma LegalPrefix(h: seq<StoredEvent>, n: nat)
    requires n <= |h| && LegalHistory(h)
    ensures LegalHistory(h[..n])
  {
    forall i | 0 <= i < n ensures Accepts(Replay(h[..n][..i]), h[..n][i].body) {
      assert h[..n][..i] == h[..i];
    }
  }

  /** With source times that never go back, a known duration is non-negative. */
  lemma {:induction false} DurationIsNonNegative(h: seq<StoredEvent>, m: string)
    requires h != [] && AllOf(h, m)
    requires forall i, j | 0 <= i <= j < |h| :: h[i].body.timestamp <= h[j].body.timestamp
    ensures var d := Replay(h).value.DurationSeconds(); d.Some? ==> d.value >= 0.0
  {
    ReplayIsSummary(h, m);
    var r := Replay(h).value;
    if r.startedAt.Some? && r.completedAt.Some? {
      var i :| FirstAtOrPast(h, RUNNING_INDEX, i) && h[i].body.timestamp == r.startedAt.value;
      var j :| FirstAtOrPast(h, COMPLETED_INDEX, j) && h[j].body.timestamp == r.completedAt.value;
      assert i <= j;
    }
  }

  /**
   * The duration is known iff the mission reached Running and Completed, and is
   * then the time from the first event at or past Running to the first Completed.
   */
  lemma {:induction false} DurationIsRunningToCompleted(h: seq<StoredEvent>, m: string)
    requires h != [] && AllOf(h, m)
    ensures var d := Replay(h).value.DurationSeconds();
            && (d.None? <==> (forall i | 0 <= i < |h| :: Index(StateOf(h[i].body)) < Index(Running))
                             || (forall i | 0 <= i < |h| :: StateOf(h[i].body) != Completed))
            && (d.Some? ==>
                  forall i, j | FirstAtOrPast(h, Index(Running), i) && FirstAtOrPast(h, Index(Completed), j) ::
                    d.value == h[j].body.timestamp - h[i].body.timestamp)
  {
    ReplayIsSummary(h, m);
    var r := Replay(h).value;
    forall i | 0 <= i < |h| ensures Index(StateOf(h[i].body)) >= COMPLETED_INDEX <==> StateOf(h[i].body) == Completed {
    }
    assert r.startedAt.None? <==> forall i | 0 <= i < |h| :: Index(StateOf(h[i].body)) < Index(Running);
    assert r.completedAt.None? <==> forall i | 0 <= i < |h| :: StateOf(h[i].body) != Completed;
    forall i, j | FirstAtOrPast(h, RUNNING_INDEX, i) && FirstAtOrPast(h, COMPLETED_INDEX, j)
      ensures r.startedAt == Some(h[i].body.timestamp) && r.completedAt == Some(h[j].body.timestamp)
    {
      ReachedAtUnique(h, RUNNING_INDEX, r.startedAt, Some(h[i].body.timestamp));
      ReachedAtUnique(h, COMPLETED_INDEX, r.completedAt, Some(h[j].body.timestamp));
    }
  }
}
