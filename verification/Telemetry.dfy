/**
 * The event stream as its readers see it (backend/app/storage/memory.py and
 * backend/app/storage/base.py): filtered queries, newest first, and the
 * latest event of one type for one asset.
 */
module Telemetry {
  import opened Wrappers

  datatype Connectivity = Online | Offline | Unknown

  datatype EventType = Heartbeat | AssetOffline | AssetOnline | OtherType(name: string)

  /** Only the payload of transition events matters here. */
  datatype Payload =
    | Opaque
    | TransitionPayload(previous: Connectivity, current: Connectivity, lastHeartbeat: Option<Time>)

  datatype Event = Event(
    collectorId: string,
    timestamp: Time,
    eventType: EventType,
    payload: Payload,
    receivedAt: Time)

  predicate Matches(
      e: Event, collectorId: Option<string>, eventType: Option<EventType>, eventTypes: Option<seq<EventType>>)
  {
    && (collectorId.None? || e.collectorId == collectorId.value)
    && (eventType.None? || e.eventType == eventType.value)
    && (eventTypes.None? || e.eventType in eventTypes.value)
  }

  function Select(
      events: seq<Event>, collectorId: Option<string>, eventType: Option<EventType>,
      eventTypes: Option<seq<EventType>>): seq<Event>
  {
    if events == [] then [] else
      var e := events[|events| - 1];
      Select(events[..|events| - 1], collectorId, eventType, eventTypes)
      + if Matches(e, collectorId, eventType, eventTypes) then [e] else []
  }

  // ---------------------------------------------------------------- //
  // Newest first
  // ---------------------------------------------------------------- //

  /** Places `e` behind everything received no earlier. */
  function InsertNewestFirst(s: seq<Event>, e: Event): seq<Event> {
    if s == [] then [e]
    else if s[0].receivedAt >= e.receivedAt then [s[0]] + InsertNewestFirst(s[1..], e)
    else [e] + s
  }

  /** The stable descending sort by receipt time. */
  function NewestFirst(s: seq<Event>): seq<Event> {
    if s == [] then [] else InsertNewestFirst(NewestFirst(s[..|s| - 1]), s[|s| - 1])
  }

  ghost predicate Descending(s: seq<Event>) {
    forall i, j | 0 <= i < j < |s| :: s[i].receivedAt >= s[j].receivedAt
  }

  /** The events received at `t`, in their order in `s`. */
  ghost function ReceivedAt(s: seq<Event>, t: Time): seq<Event> {
    if s == [] then [] else (if s[0].receivedAt == t then [s[0]] else []) + ReceivedAt(s[1..], t)
  }

  lemma {:induction false} ReceivedAtConcat(a: seq<Event>, b: seq<Event>, t: Time)
    ensures ReceivedAt(a + b, t) == ReceivedAt(a, t) + ReceivedAt(b, t)
  {
    if a == [] {
      assert a + b == b;
    } else {
      ReceivedAtConcat(a[1..], b, t);
      assert (a + b)[0] == a[0] && (a + b)[1..] == a[1..] + b;
      var first := if a[0].receivedAt == t then [a[0]] else [];
      assert first + (ReceivedAt(a[1..], t) + ReceivedAt(b, t)) == first + ReceivedAt(a[1..], t) + ReceivedAt(b, t);
    }
  }

  lemma {:induction false} InsertKeepsEvents(s: seq<Event>, e: Event)
    ensures multiset(InsertNewestFirst(s, e)) == multiset(s) + multiset{e}
  {
    if s != [] {
      assert s == [s[0]] + s[1..];
      if s[0].receivedAt >= e.receivedAt {
        InsertKeepsEvents(s[1..], e);
      }
    }
  }

  lemma {:induction false} InsertIsSorted(s: seq<Event>, e: Event)
    requires Descending(s)
    ensures Descending(InsertNewestFirst(s, e))
    ensures forall x | x in InsertNewestFirst(s, e) :: x == e || x in s
  {
    if s != [] && s[0].receivedAt >= e.receivedAt {
      InsertIsSorted(s[1..], e);
      var rest := InsertNewestFirst(s[1..], e);
      forall x | x in rest ensures s[0].receivedAt >= x.receivedAt && (x == e || x in s) {
        if x != e {
          var i :| 0 <= i < |s[1..]| && s[1..][i] == x;
          assert s[i + 1] == x;
        }
      }
    }
  }

  lemma {:induction false} InsertIsStable(s: seq<Event>, e: Event, t: Time)
    requires Descending(s)
    ensures ReceivedAt(InsertNewestFirst(s, e), t) == ReceivedAt(s, t) + (if e.receivedAt == t then [e] else [])
  {
    if s != [] {
      if s[0].receivedAt >= e.receivedAt {
        InsertIsStable(s[1..], e, t);
        assert ([s[0]] + InsertNewestFirst(s[1..], e))[1..] == InsertNewestFirst(s[1..], e);
      } else {
        assert ([e] + s)[1..] == s;
        if e.receivedAt == t {
          OlderThan(s, t);
        }
      }
    }
  }

  lemma {:induction false} OlderThan(s: seq<Event>, t: Time)
    requires Descending(s) && (s != [] ==> s[0].receivedAt < t)
    ensures ReceivedAt(s, t) == []
  {
    if s != [] {
      OlderThan(s[1..], t);
    }
  }

  /** The sort is a permutation in descending order that keeps the order of ties. */
  lemma {:induction false} NewestFirstSorts(s: seq<Event>)
    ensures Descending(NewestFirst(s))
    ensures multiset(NewestFirst(s)) == multiset(s)
    ensures forall t :: ReceivedAt(NewestFirst(s), t) == ReceivedAt(s, t)
  {
    if s != [] {
      var front, e := s[..|s| - 1], s[|s| - 1];
      assert s == front + [e];
      NewestFirstSorts(front);
      InsertIsSorted(NewestFirst(front), e);
      InsertKeepsEvents(NewestFirst(front), e);
      forall t ensures ReceivedAt(NewestFirst(s), t) == ReceivedAt(s, t) {
        InsertIsStable(NewestFirst(front), e, t);
        ReceivedAtConcat(front, [e], t);
      }
    }
  }

  // ---------------------------------------------------------------- //
  // The latest event
  // ---------------------------------------------------------------- //

  predicate Is(e: Event, collectorId: string, eventType: EventType) {
    e.collectorId == collectorId && e.eventType == eventType
  }

  /** The latest event of one type for one asset, event by event. */
  function LatestEvent(events: seq<Event>, collectorId: string, eventType: EventType): Option<Event> {
    if events == [] then None else
      var before, e := LatestEvent(events[..|events| - 1], collectorId, eventType), events[|events| - 1];
      if Is(e, collectorId, eventType) && (before.None? || before.value.receivedAt < e.receivedAt)
      then Some(e) else before
  }

  /** One more event replaces the latest only if it matches and was received strictly later. */
  lemma LatestAfterOneMore(events: seq<Event>, e: Event, c: string, y: EventType)
    ensures var before := LatestEvent(events, c, y);
            LatestEvent(events + [e], c, y)
            == if Is(e, c, y) && (before.None? || before.value.receivedAt < e.receivedAt) then Some(e) else before
  {
    assert (events + [e])[..|events|] == events;
  }

  function First(s: seq<Event>): Option<Event> {
    if s == [] then None else Some(s[0])
  }

  lemma FirstAfterInsert(s: seq<Event>, e: Event)
    ensures First(InsertNewestFirst(s, e)) == if s == [] || s[0].receivedAt < e.receivedAt then Some(e) else First(s)
  {
  }

  /** The first row of a query for one asset and type. */
  function FirstRow(events: seq<Event>, c: string, y: EventType): Option<Event> {
    First(NewestFirst(Select(events, Some(c), Some(y), None)))
  }

  lemma {:induction false} FirstRowOneMore(events: seq<Event>, e: Event, c: string, y: EventType)
    ensures var before := FirstRow(events, c, y);
            FirstRow(events + [e], c, y)
            == if Is(e, c, y) && (before.None? || before.value.receivedAt < e.receivedAt) then Some(e) else before
  {
    var s := Select(events, Some(c), Some(y), None);
    assert (events + [e])[..|events|] == events;
    if Is(e, c, y) {
      assert (s + [e])[..|s|] == s;
      FirstAfterInsert(NewestFirst(s), e);
    } else {
      assert s + [] == s;
    }
  }

  /** It is the first row of a query for that asset and type, which is how it is read. */
  lemma {:induction false} LatestIsFirstRow(events: seq<Event>, c: string, y: EventType)
    ensures LatestEvent(events, c, y) == FirstRow(events, c, y)
  {
    if events != [] {
      var front, e := events[..|events| - 1], events[|events| - 1];
      assert events == front + [e];
      LatestIsFirstRow(front, c, y);
      LatestAfterOneMore(front, e, c, y);
      FirstRowOneMore(front, e, c, y);
    } else {
      assert Select(events, Some(c), Some(y), None) == [];
    }
  }

  /**
   * The latest event is the one received last, the earliest inserted among
   * several received at that time; there is none exactly when nothing matches.
   */
  lemma {:induction false} LatestIsReceivedLast(events: seq<Event>, c: string, y: EventType)
    ensures match LatestEvent(events, c, y)
            case None => forall i | 0 <= i < |events| :: !Is(events[i], c, y)
            case Some(e) => exists i | 0 <= i < |events| :: IsLatestAt(events, c, y, i) && events[i] == e
  {
    if events != [] {
      var front, e := events[..|events| - 1], events[|events| - 1];
      assert forall i | 0 <= i < |front| :: events[i] == front[i];
      LatestIsReceivedLast(front, c, y);
      var before := LatestEvent(front, c, y);
      if Is(e, c, y) && (before.None? || before.value.receivedAt < e.receivedAt) {
        assert IsLatestAt(events, c, y, |front|);
      } else if before.Some? {
        var i :| 0 <= i < |front| && IsLatestAt(front, c, y, i) && front[i] == before.value;
        assert IsLatestAt(events, c, y, i);
      }
    }
  }

  ghost predicate IsLatestAt(events: seq<Event>, c: string, y: EventType, i: int)
    requires 0 <= i < |events|
  {
    && Is(events[i], c, y)
    && forall j | 0 <= j < |events| && Is(events[j], c, y) ::
         events[j].receivedAt < events[i].receivedAt || (events[j].receivedAt == events[i].receivedAt && i <= j)
  }

  // ---------------------------------------------------------------- //
  // What a query answers
  // ---------------------------------------------------------------- //

  /** The event meets every filter that is given. */
  ghost predicate Wanted(
      e: Event, collectorId: Option<string>, eventType: Option<EventType>, eventTypes: Option<seq<EventType>>)
  {
    && (collectorId.Some? ==> e.collectorId == collectorId.value)
    && (eventType.Some? ==> e.eventType == eventType.value)
    && (eventTypes.Some? ==> exists i | 0 <= i < |eventTypes.value| :: eventTypes.value[i] == e.eventType)
  }

  /** How often `e` occurs in `s`. */
  ghost function Times(s: seq<Event>, e: Event): nat {
    multiset(s)[e]
  }

  lemma TimesOneMore(s: seq<Event>, x: Event, e: Event)
    ensures Times(s + [x], e) == Times(s, e) + if x == e then 1 else 0
  {
  }

  /** Every row is wanted, and stored at least as often as it is returned. */
  ghost predicate RowsAreWanted(
      events: seq<Event>, collectorId: Option<string>, eventType: Option<EventType>,
      eventTypes: Option<seq<EventType>>, rows: seq<Event>)
  {
    && (forall e | e in rows :: Wanted(e, collectorId, eventType, eventTypes))
    && (forall e :: Times(rows, e) <= Times(events, e))
  }

  /** Every wanted event is returned as often as it is stored. */
  ghost predicate NoneMissing(
      events: seq<Event>, collectorId: Option<string>, eventType: Option<EventType>,
      eventTypes: Option<seq<EventType>>, rows: seq<Event>)
  {
    forall e | Wanted(e, collectorId, eventType, eventTypes) :: Times(rows, e) == Times(events, e)
  }

  /** No wanted event that is missing was received later than a row. */
  ghost predicate NoneNewerMissing(
      events: seq<Event>, collectorId: Option<string>, eventType: Option<EventType>,
      eventTypes: Option<seq<EventType>>, rows: seq<Event>)
  {
    forall e, r | Wanted(e, collectorId, eventType, eventTypes) && Times(rows, e) < Times(events, e) && r in rows ::
      e.receivedAt <= r.receivedAt
  }

  /**
   * The rows are stored events that meet the filters, newest first and no more
   * than the limit. Below the limit none is missing, however often it was
   * stored; at the limit none that is missing was received later than a row.
   */
  ghost predicate Answers(
      events: seq<Event>, collectorId: Option<string>, eventType: Option<EventType>,
      eventTypes: Option<seq<EventType>>, limit: nat, rows: seq<Event>)
  {
    && |rows| <= limit && Descending(rows)
    && RowsAreWanted(events, collectorId, eventType, eventTypes, rows)
    && (|rows| < limit ==> NoneMissing(events, collectorId, eventType, eventTypes, rows))
    && NoneNewerMissing(events, collectorId, eventType, eventTypes, rows)
  }

  /** Each event occurs in `all` as often as it is stored if it is wanted, and not at all otherwise. */
  ghost predicate HoldsWanted(
      all: seq<Event>, events: seq<Event>, collectorId: Option<string>, eventType: Option<EventType>,
      eventTypes: Option<seq<EventType>>)
  {
    forall e ::
      Times(all, e) == if Wanted(e, collectorId, eventType, eventTypes) then Times(events, e) else 0
  }

  lemma SelectOneMore(
      events: seq<Event>, x: Event, collectorId: Option<string>, eventType: Option<EventType>,
      eventTypes: Option<seq<EventType>>)
    ensures Select(events + [x], collectorId, eventType, eventTypes)
         == Select(events, collectorId, eventType, eventTypes)
            + if Wanted(x, collectorId, eventType, eventTypes) then [x] else []
  {
    assert (events + [x])[..|events|] == events;
  }

  ghost predicate SelectsWanted(
      events: seq<Event>, collectorId: Option<string>, eventType: Option<EventType>,
      eventTypes: Option<seq<EventType>>, e: Event)
  {
    Times(Select(events, collectorId, eventType, eventTypes), e)
    == if Wanted(e, collectorId, eventType, eventTypes) then Times(events, e) else 0
  }

  lemma {:induction false} SelectsWantedOneMore(
      events: seq<Event>, x: Event, collectorId: Option<string>, eventType: Option<EventType>,
      eventTypes: Option<seq<EventType>>, e: Event)
    requires SelectsWanted(events, collectorId, eventType, eventTypes, e)
    ensures SelectsWanted(events + [x], collectorId, eventType, eventTypes, e)
  {
    var so := Select(events, collectorId, eventType, eventTypes);
    SelectOneMore(events, x, collectorId, eventType, eventTypes);
    TimesOneMore(events, x, e);
    TimesOneMore(so, x, e);
    assert so + [] == so;
  }

  lemma {:induction false} SelectKeepsWanted(
      events: seq<Event>, collectorId: Option<string>, eventType: Option<EventType>,
      eventTypes: Option<seq<EventType>>, e: Event)
    ensures SelectsWanted(events, collectorId, eventType, eventTypes, e)
  {
    if events != [] {
      var front, x := events[..|events| - 1], events[|events| - 1];
      assert events == front + [x];
      SelectKeepsWanted(front, collectorId, eventType, eventTypes, e);
      SelectsWantedOneMore(front, x, collectorId, eventType, eventTypes, e);
    }
  }

  lemma CutTimes(all: seq<Event>, n: nat, e: Event)
    requires n <= |all|
    ensures Times(all, e) == Times(all[..n], e) + Times(all[n..], e)
  {
    assert all == all[..n] + all[n..];
  }

  /** Cutting a descending sequence leaves nothing newer behind. */
  lemma CutKeepsNewest(all: seq<Event>, n: nat, e: Event, r: Event)
    requires Descending(all) && n <= |all| && r in all[..n] && Times(all[..n], e) < Times(all, e)
    ensures e.receivedAt <= r.receivedAt
  {
    CutTimes(all, n, e);
    assert e in multiset(all[n..]);
    var i :| n <= i < |all| && all[i] == e;
    var j :| 0 <= j < n && all[j] == r;
  }

  lemma CutIsWanted(
      all: seq<Event>, n: nat, events: seq<Event>, collectorId: Option<string>, eventType: Option<EventType>,
      eventTypes: Option<seq<EventType>>)
    requires n <= |all| && HoldsWanted(all, events, collectorId, eventType, eventTypes)
    ensures RowsAreWanted(events, collectorId, eventType, eventTypes, all[..n])
  {
    forall e ensures Times(all[..n], e) <= Times(events, e) {
      CutTimes(all, n, e);
    }
    forall e | e in all[..n] ensures Wanted(e, collectorId, eventType, eventTypes) {
      CutTimes(all, n, e);
      assert Times(all[..n], e) > 0;
    }
  }

  lemma CutMissesNothingNewer(
      all: seq<Event>, n: nat, events: seq<Event>, collectorId: Option<string>, eventType: Option<EventType>,
      eventTypes: Option<seq<EventType>>)
    requires n <= |all| && Descending(all) && HoldsWanted(all, events, collectorId, eventType, eventTypes)
    ensures NoneNewerMissing(events, collectorId, eventType, eventTypes, all[..n])
  {
    forall e, r
      | Wanted(e, collectorId, eventType, eventTypes) && Times(all[..n], e) < Times(events, e) && r in all[..n]
      ensures e.receivedAt <= r.receivedAt
    {
      CutKeepsNewest(all, n, e, r);
    }
  }

  lemma CutAnswers(
      all: seq<Event>, events: seq<Event>, collectorId: Option<string>, eventType: Option<EventType>,
      eventTypes: Option<seq<EventType>>, limit: nat)
    requires Descending(all) && HoldsWanted(all, events, collectorId, eventType, eventTypes)
    ensures Answers(events, collectorId, eventType, eventTypes, limit,
                    all[..if limit <= |all| then limit else |all|])
  {
    var n := if limit <= |all| then limit else |all|;
    CutIsWanted(all, n, events, collectorId, eventType, eventTypes);
    CutMissesNothingNewer(all, n, events, collectorId, eventType, eventTypes);
    assert n < limit ==> all[..n] == all;
  }

  lemma RowsAnswer(
      events: seq<Event>, collectorId: Option<string>, eventType: Option<EventType>,
      eventTypes: Option<seq<EventType>>, limit: nat)
    ensures var all := NewestFirst(Select(events, collectorId, eventType, eventTypes));
            Answers(events, collectorId, eventType, eventTypes, limit,
                    all[..if limit <= |all| then limit else |all|])
  {
    var s := Select(events, collectorId, eventType, eventTypes);
    NewestFirstSorts(s);
    forall e
      ensures Times(NewestFirst(s), e)
           == if Wanted(e, collectorId, eventType, eventTypes) then Times(events, e) else 0
    {
      SelectKeepsWanted(events, collectorId, eventType, eventTypes, e);
    }
    CutAnswers(NewestFirst(s), events, collectorId, eventType, eventTypes, limit);
  }

  /** The in-memory event store, with outages at any call. */
  class InMemoryEventStorage {
    var events: seq<Event>

    constructor ()
      ensures events == []
    {
      events := [];
    }

    method InsertEvent(e: Event) returns (write: Write)
      modifies this
      ensures events == if write.FailedBefore? then old(events) else old(events) + [e]
    {
      write := *;
      if !write.FailedBefore? {
        events := events + [e];
      }
    }

    /** What other tasks insert while this one waits for the store. */
    method OthersInsert() returns (ghost arrived: seq<Event>)
      modifies this
      ensures events == old(events) + arrived
    {
      var more: seq<Event> := *;
      arrived := more;
      events := events + more;
    }

    method QueryEvents(
        collectorId: Option<string>, eventType: Option<EventType>, eventTypes: Option<seq<EventType>>,
        limit: nat)
      returns (found: Fetched<seq<Event>>)
      ensures found.Ok? ==>
                var all := NewestFirst(Select(events, collectorId, eventType, eventTypes));
                found.value == all[..if limit <= |all| then limit else |all|]
      ensures found.Ok? ==> Answers(events, collectorId, eventType, eventTypes, limit, found.value)
    {
      var up: bool := *;
      if !up {
        return StorageError;
      }
      var selected := [];
      for i := 0 to |events|
        invariant selected == Select(events[..i], collectorId, eventType, eventTypes)
      {
        assert events[..i + 1][..i] == events[..i];
        if Matches(events[i], collectorId, eventType, eventTypes) {
          selected := selected + [events[i]];
        }
      }
      assert events[..|events|] == events;
      var sorted := [];
      for i := 0 to |selected|
        invariant sorted == NewestFirst(selected[..i])
      {
        assert selected[..i + 1][..i] == selected[..i];
        sorted := InsertNewestFirst(sorted, selected[i]);
      }
      assert selected[..|selected|] == selected;
      found := Ok(sorted[..if limit <= |sorted| then limit else |sorted|]);
      RowsAnswer(events, collectorId, eventType, eventTypes, limit);
    }

    method Latest(collectorId: string, eventType: EventType) returns (found: Fetched<Option<Event>>)
      ensures found.Ok? ==> found.value == LatestEvent(events, collectorId, eventType)
    {
      var rows := QueryEvents(Some(collectorId), Some(eventType), None, 1);
      if rows.StorageError? {
        return StorageError;
      }
      LatestIsFirstRow(events, collectorId, eventType);
      found := Ok(if rows.value == [] then None else Some(rows.value[0]));
    }
  }
}
