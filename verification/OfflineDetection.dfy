/** The offline detector and the backend heartbeat as the program runs them (backend/app/services/offline.py). */
module OfflineDetection {
  import opened Wrappers
  import opened Telemetry
  import opened Registry
  import opened Liveness

  // ---------------------------------------------------------------- //
  // A sweep as a run of ticks
  // ---------------------------------------------------------------- //

  /** The assets looked at, in order. */
  function Looked(ticks: seq<Tick>): seq<string> {
    if ticks == [] then [] else
      Looked(ticks[..|ticks| - 1]) + if ticks[|ticks| - 1].Look? then [ticks[|ticks| - 1].asset] else []
  }

  /** What each look judged, in order. */
  function Judged(d: Detector, ticks: seq<Tick>, timeout: Time): (states: seq<Connectivity>)
    ensures |states| == |Looked(ticks)|
  {
    if ticks == [] then [] else
      var front, tick := ticks[..|ticks| - 1], ticks[|ticks| - 1];
      Judged(d, front, timeout)
      + if tick.Look? then [Evaluate(ExecTicks(d, front, timeout).events, tick.asset, tick.now, timeout).0] else []
  }

  function CountOf(states: seq<Connectivity>, c: Connectivity): nat {
    if states == [] then 0 else
      CountOf(states[..|states| - 1], c) + if states[|states| - 1] == c then 1 else 0
  }

  /** All looks of a sweep judge at one time. */
  ghost predicate AtTime(ticks: seq<Tick>, now: Time) {
    forall i | 0 <= i < |ticks| && ticks[i].Look? :: ticks[i].now == now
  }

  /** No heartbeat of an asset arrives after the look at it. */
  ghost predicate Undisturbed(ticks: seq<Tick>) {
    ticks == [] ||
    (var front, tick := ticks[..|ticks| - 1], ticks[|ticks| - 1];
     && Undisturbed(front)
     && (tick.Arrive? && tick.event.eventType.Heartbeat? ==> tick.event.collectorId !in Looked(front)))
  }

  lemma OneMoreTick(d: Detector, ticks: seq<Tick>, tick: Tick, timeout: Time)
    ensures ExecTicks(d, ticks + [tick], timeout) == ExecTick(ExecTicks(d, ticks, timeout), tick, timeout)
    ensures Looked(ticks + [tick]) == Looked(ticks) + if tick.Look? then [tick.asset] else []
    ensures Judged(d, ticks + [tick], timeout)
         == Judged(d, ticks, timeout)
            + if tick.Look? then [Evaluate(ExecTicks(d, ticks, timeout).events, tick.asset, tick.now, timeout).0]
              else []
  {
    assert (ticks + [tick])[..|ticks|] == ticks;
  }

  lemma WritesOneMore(d: Detector, ticks: seq<Tick>, tick: Tick, timeout: Time)
    requires WritesAll(d, ticks, timeout)
    requires tick.Look? ==> ExecTicks(d, ticks, timeout).pending.None?
    requires tick.Emit? ==> tick.write.Done?
    ensures WritesAll(d, ticks + [tick], timeout)
  {
    var all := ticks + [tick];
    forall i | 0 <= i < |all|
      ensures all[i].Look? ==> ExecTicks(d, all[..i], timeout).pending.None?
      ensures all[i].Emit? ==> all[i].write.Done?
    {
      assert all[..i] == if i < |ticks| then ticks[..i] else ticks;
    }
  }

  lemma CountOneMore(states: seq<Connectivity>, state: Connectivity, c: Connectivity)
    ensures CountOf(states + [state], c) == CountOf(states, c) + if state == c then 1 else 0
  {
    assert (states + [state])[..|states|] == states;
  }

  lemma {:induction false} StatesAddUp(states: seq<Connectivity>)
    ensures CountOf(states, Online) + CountOf(states, Offline) + CountOf(states, Unknown) == |states|
  {
    if states != [] {
      StatesAddUp(states[..|states| - 1]);
    }
  }

  /** What a tick leaves of the judgements made before it. */
  lemma TickKeepsJudgement(d: Detector, tick: Tick, a: string, now: Time, timeout: Time)
    requires tick.Arrive? ==> !Is(tick.event, a, Heartbeat)
    ensures Evaluate(ExecTick(d, tick, timeout).events, a, now, timeout) == Evaluate(d.events, a, now, timeout)
  {
    if tick.Arrive? {
      OnlyHeartbeatsCount(d.events, tick.event, a, now, timeout);
    } else {
      DetectorKeepsHeartbeats(d, tick, timeout, a);
    }
  }

  /** In an undisturbed sweep every judgement still holds at its end. */
  lemma {:induction false} JudgementsStand(d: Detector, ticks: seq<Tick>, now: Time, timeout: Time, k: nat)
    requires AtTime(ticks, now) && Undisturbed(ticks) && k < |Looked(ticks)|
    ensures Judged(d, ticks, timeout)[k]
            == Evaluate(ExecTicks(d, ticks, timeout).events, Looked(ticks)[k], now, timeout).0
  {
    var front, tick := ticks[..|ticks| - 1], ticks[|ticks| - 1];
    TickKeepsJudgement(ExecTicks(d, front, timeout), tick, Looked(ticks)[k], now, timeout);
    if k < |Looked(front)| {
      JudgementsStand(d, front, now, timeout, k);
    }
  }

  lemma {:induction false} CountsAgree(states: seq<Connectivity>, views: seq<FleetView>, c: Connectivity)
    requires |states| == |views| && forall k | 0 <= k < |states| :: states[k] == views[k].connectivity
    ensures CountOf(states, c) == CountIn(views, c)
  {
    if states != [] {
      CountsAgree(states[..|states| - 1], views[..|views| - 1], c);
    }
  }

  /** After an undisturbed sweep the judgements add up to what the read model shows. */
  lemma UndisturbedSweepAgrees(d: Detector, ticks: seq<Tick>, now: Time, timeout: Time, c: Connectivity)
    requires AtTime(ticks, now) && Undisturbed(ticks)
    ensures CountOf(Judged(d, ticks, timeout), c)
         == CountIn(ListViews(ExecTicks(d, ticks, timeout).events, Looked(ticks), now, timeout), c)
  {
    var events, states := ExecTicks(d, ticks, timeout).events, Judged(d, ticks, timeout);
    var views := ListViews(events, Looked(ticks), now, timeout);
    forall k | 0 <= k < |states| ensures states[k] == views[k].connectivity {
      JudgementsStand(d, ticks, now, timeout, k);
      DetectorAndReadModelAgree(events, Looked(ticks)[k], now, timeout);
    }
    CountsAgree(states, views, c);
  }

  /**
   * A beat that arrives after the look at its asset leaves the judgement
   * standing exactly if it is not the newest or is judged alike.
   */
  lemma BeatKeepsJudgementIff(events: seq<Event>, e: Event, a: string, now: Time, timeout: Time)
    requires Is(e, a, Heartbeat)
    ensures var latest := LatestEvent(events, a, Heartbeat);
            Evaluate(events + [e], a, now, timeout).0 == Evaluate(events, a, now, timeout).0
            <==> latest.Some?
                 && (latest.value.receivedAt >= e.receivedAt
                     || (now - latest.value.timestamp > timeout <==> now - e.timestamp > timeout))
  {
    LatestAfterOneMore(events, e, a, Heartbeat);
  }

  /** A first beat that arrives behind the look at its asset leaves gauges that the read model contradicts. */
  lemma GaugesCanLag(a: string, b: string, now: Time, timeout: Time)
    requires a != b && timeout >= 0.0
    ensures var beat := Event(a, now, Heartbeat, Opaque, now);
            var ticks := [Look(a, now), Arrive(beat), Look(b, now)];
            && CountOf(Judged(Starting([]), ticks, timeout), Unknown) == 2
            && CountIn(ListViews(ExecTicks(Starting([]), ticks, timeout).events, Looked(ticks), now, timeout), Unknown)
               == 1
  {
    var beat := Event(a, now, Heartbeat, Opaque, now);
    var d := Starting([]);
    var one, two := [Look(a, now)], [Look(a, now), Arrive(beat)];
    OneMoreTick(d, [], Look(a, now), timeout);
    assert [] + [Look(a, now)] == one && one + [Arrive(beat)] == two;
    OneMoreTick(d, one, Arrive(beat), timeout);
    OneMoreTick(d, two, Look(b, now), timeout);
    assert two + [Look(b, now)] == [Look(a, now), Arrive(beat), Look(b, now)];
    var events := ExecTicks(d, two, timeout).events;
    assert events == [] + [beat];
    LatestAfterOneMore([], beat, a, Heartbeat);
    LatestAfterOneMore([], beat, b, Heartbeat);
    CountOneMore([], Unknown, Unknown);
    CountOneMore([Unknown], Unknown, Unknown);
    assert [] + [Unknown] == [Unknown] && [Unknown] + [Unknown] == [Unknown, Unknown];
    var views := ListViews(events, [a, b], now, timeout);
    assert views[0].connectivity == Online && views[1].connectivity == Unknown;
    assert CountIn(views[..1][..0], Unknown) == 0 && CountIn(views[..1], Unknown) == 0;
  }

  function Arriving(events: seq<Event>): seq<Tick> {
    seq(|events|, i requires 0 <= i < |events| => Arrive(events[i]))
  }

  /** `longer` goes on from `ticks` without another look; if `clean`, without a failed write. */
  ghost predicate NoMoreLooks(d: Detector, ticks: seq<Tick>, longer: seq<Tick>, timeout: Time, clean: bool) {
    && Looked(longer) == Looked(ticks) && Judged(d, longer, timeout) == Judged(d, ticks, timeout)
    && (forall now | AtTime(ticks, now) :: AtTime(longer, now))
    && (clean && WritesAll(d, ticks, timeout) ==> WritesAll(d, longer, timeout))
  }

  lemma NoLook(d: Detector, ticks: seq<Tick>, tick: Tick, timeout: Time)
    requires !tick.Look?
    ensures NoMoreLooks(d, ticks, ticks + [tick], timeout, tick.Emit? ==> tick.write.Done?)
  {
    OneMoreTick(d, ticks, tick, timeout);
    if WritesAll(d, ticks, timeout) && (tick.Emit? ==> tick.write.Done?) {
      WritesOneMore(d, ticks, tick, timeout);
    }
  }

  lemma {:induction false} NoLooksCompose(
    d: Detector, a: seq<Tick>, b: seq<Tick>, c: seq<Tick>, timeout: Time, clean: bool)
    requires NoMoreLooks(d, a, b, timeout, true) && NoMoreLooks(d, b, c, timeout, clean)
    ensures NoMoreLooks(d, a, c, timeout, clean)
  {
  }

  lemma {:induction false} ArrivalsRun(d: Detector, ticks: seq<Tick>, arrived: seq<Event>, timeout: Time)
    ensures var t := ExecTicks(d, ticks, timeout);
            ExecTicks(d, ticks + Arriving(arrived), timeout) == t.(events := t.events + arrived)
  {
    if arrived == [] {
      assert ticks + Arriving(arrived) == ticks;
    } else {
      var front, e := arrived[..|arrived| - 1], arrived[|arrived| - 1];
      ArrivalsRun(d, ticks, front, timeout);
      assert ticks + Arriving(arrived) == ticks + Arriving(front) + [Arrive(e)];
      OneMoreTick(d, ticks + Arriving(front), Arrive(e), timeout);
    }
  }

  lemma {:induction false} ArrivalsAreNoLooks(d: Detector, ticks: seq<Tick>, arrived: seq<Event>, timeout: Time)
    ensures NoMoreLooks(d, ticks, ticks + Arriving(arrived), timeout, true)
  {
    if arrived == [] {
      assert ticks + Arriving(arrived) == ticks;
    } else {
      var front, e := arrived[..|arrived| - 1], arrived[|arrived| - 1];
      var longer := ticks + Arriving(front);
      ArrivalsAreNoLooks(d, ticks, front, timeout);
      NoLook(d, longer, Arrive(e), timeout);
      NoLooksCompose(d, ticks, longer, longer + [Arrive(e)], timeout, true);
      assert ticks + Arriving(arrived) == longer + [Arrive(e)];
    }
  }

  // ---------------------------------------------------------------- //
  // The detector
  // ---------------------------------------------------------------- //

  /** The counters hold how often each state was judged. */
  ghost predicate Counted(states: seq<Connectivity>, counts: map<Connectivity, nat>) {
    forall c :: c in counts && counts[c] == CountOf(states, c)
  }

  lemma NothingCounted()
    ensures Counted([], map[Online := 0, Offline := 0, Unknown := 0])
  {
    forall c: Connectivity ensures c in map[Online := 0, Offline := 0, Unknown := 0] {
      assert c == Online || c == Offline || c == Unknown;
    }
  }

  lemma CountedOneMore(states: seq<Connectivity>, counts: map<Connectivity, nat>, state: Connectivity)
    requires Counted(states, counts)
    ensures state in counts && Counted(states + [state], counts[state := counts[state] + 1])
  {
    forall c ensures CountOf(states + [state], c) == CountOf(states, c) + if state == c then 1 else 0 {
      CountOneMore(states, state, c);
    }
  }

  class OfflineDetector {
    const store: InMemoryEventStorage
    const timeout: Time
    /** Last known connectivity per asset. */
    var known: map<string, Connectivity>
    var registered: nat
    var active: nat
    var offline: nat
    var unknown: nat
    /** The detector's history, as in `Liveness.Detector`. */
    ghost var baseline: map<string, Connectivity>
    ghost var changes: seq<Change>
    ghost var emitted: seq<int>
    ghost var pending: Option<Change>

    constructor (store: InMemoryEventStorage, timeout: Time)
      ensures this.store == store && this.timeout == timeout
      ensures View() == Starting(store.events)
    {
      this.store, this.timeout := store, timeout;
      known, baseline, changes, emitted, pending := map[], map[], [], [], None;
      registered, active, offline, unknown := 0, 0, 0, 0;
    }

    ghost function View(): Detector
      reads this, store
    {
      Detector(known, store.events, baseline, changes, emitted, pending)
    }

    /** These ticks led here from `before`, and no change is waiting to be written. */
    ghost predicate Ran(before: Detector, ticks: seq<Tick>)
      reads this, store
    {
      View() == ExecTicks(before, ticks, timeout) && pending.None?
    }

    method Judge(asset: string, now: Time) returns (judged: Fetched<(Connectivity, Option<Time>)>)
      ensures judged.Ok? ==> judged.value == Evaluate(store.events, asset, now, timeout)
    {
      var found := store.Latest(asset, Heartbeat);
      if found.StorageError? {
        return StorageError;
      }
      if found.value.None? {
        return Ok((Unknown, None));
      }
      var heartbeat := found.value.value;
      var age := now - heartbeat.timestamp;
      if age > timeout {
        return Ok((Offline, Some(heartbeat.timestamp)));
      }
      return Ok((Online, Some(heartbeat.timestamp)));
    }

    /** Waiting for the store lets others insert events. */
    method Await(ghost before: Detector, ghost ticks: seq<Tick>) returns (ghost longer: seq<Tick>)
      requires View() == ExecTicks(before, ticks, timeout)
      modifies store
      ensures View() == ExecTicks(before, longer, timeout) && NoMoreLooks(before, ticks, longer, timeout, true)
    {
      ghost var arrived := store.OthersInsert();
      ArrivalsRun(before, ticks, arrived, timeout);
      ArrivalsAreNoLooks(before, ticks, arrived, timeout);
      longer := ticks + Arriving(arrived);
    }

    /** Inserts the event of the change just noticed. */
    method InsertTransition(c: Change, ghost before: Detector, ghost ticks: seq<Tick>) returns (write: Write)
      requires View() == ExecTicks(before, ticks, timeout) && pending == Some(c)
      modifies this`emitted, this`pending, store
      ensures Ran(before, ticks + [Emit(write)])
    {
      write := store.InsertEvent(TransitionEvent(c));
      if !write.FailedBefore? {
        emitted := emitted + [|changes| - 1];
      }
      pending := None;
      OneMoreTick(before, ticks, Emit(write), timeout);
    }

    method EmitTransition(c: Change, ghost before: Detector, ghost ticks: seq<Tick>)
      returns (write: Write, ghost longer: seq<Tick>)
      requires View() == ExecTicks(before, ticks, timeout) && pending == Some(c)
      modifies this`emitted, this`pending, store
      ensures Ran(before, longer) && NoMoreLooks(before, ticks, longer, timeout, write.Done?)
    {
      ghost var waited := Await(before, ticks);
      write := InsertTransition(c, before, waited);
      longer := waited + [Emit(write)];
      NoLook(before, waited, Emit(write), timeout);
      NoLooksCompose(before, ticks, waited, longer, timeout, write.Done?);
    }

    /** Records the judged state of an asset, and the change if there is one. */
    method Record(
        asset: string, now: Time, judged: (Connectivity, Option<Time>), ghost before: Detector,
        ghost ticks: seq<Tick>)
      returns (change: Option<Change>, ghost longer: seq<Tick>)
      requires Ran(before, ticks) && judged == Evaluate(store.events, asset, now, timeout)
      modifies this`known, this`baseline, this`changes, this`pending
      ensures longer == ticks + [Look(asset, now)]
      ensures View() == ExecTicks(before, longer, timeout) && pending == change
      ensures Looked(longer) == Looked(ticks) + [asset]
      ensures Judged(before, longer, timeout) == Judged(before, ticks, timeout) + [judged.0]
      ensures WritesAll(before, ticks, timeout) ==> WritesAll(before, longer, timeout)
    {
      longer := ticks + [Look(asset, now)];
      OneMoreTick(before, ticks, Look(asset, now), timeout);
      if WritesAll(before, ticks, timeout) {
        WritesOneMore(before, ticks, Look(asset, now), timeout);
      }
      var (state, heartbeat) := judged;
      var previous := Lookup(known, asset);
      known := known[asset := state];
      change := None;
      if previous.None? {
        baseline := baseline[asset := state];
      } else if previous.value != state && !state.Unknown? {
        change := Some(Change(asset, previous.value, state, heartbeat, now));
        changes, pending := changes + [change.value], change;
      }
    }

    /** Judges one asset, records its state, and writes the transition if there is one. */
    method LookAt(asset: string, now: Time, ghost before: Detector, ghost ticks: seq<Tick>)
      returns (ok: bool, state: Connectivity, ghost longer: seq<Tick>)
      requires Ran(before, ticks) && AtTime(ticks, now)
      modifies this`known, this`baseline, this`changes, this`emitted, this`pending, store
      ensures Ran(before, longer) && AtTime(longer, now)
      ensures Looked(longer) == Looked(ticks) || Looked(longer) == Looked(ticks) + [asset]
      ensures ok ==>
                && Looked(longer) == Looked(ticks) + [asset]
                && Judged(before, longer, timeout) == Judged(before, ticks, timeout) + [state]
                && (WritesAll(before, ticks, timeout) ==> WritesAll(before, longer, timeout))
    {
      longer := Await(before, ticks);
      var judged := Judge(asset, now);
      if judged.StorageError? {
        ok, state := false, Unknown;
        return;
      }
      state := judged.value.0;
      var change;
      change, longer := Record(asset, now, judged.value, before, longer);
      ok := true;
      if change.Some? {
        var write;
        write, longer := EmitTransition(change.value, before, longer);
        ok := write.Done?;
      }
    }

    /** The sweep has judged the first `i` assets and counted their states. */
    ghost predicate SweptTo(
        before: Detector, ticks: seq<Tick>, list: seq<string>, i: nat, now: Time, counts: map<Connectivity, nat>)
      reads this, store
    {
      && i <= |list| && Ran(before, ticks) && AtTime(ticks, now)
      && Looked(ticks) == list[..i] && WritesAll(before, ticks, timeout)
      && Counted(Judged(before, ticks, timeout), counts)
    }

    /** Looks at asset `i` and counts its state; a storage error ends the sweep. */
    method LookAndCount(list: seq<string>, i: nat, now: Time, counts: map<Connectivity, nat>,
                        ghost before: Detector, ghost ticks: seq<Tick>)
      returns (ok: bool, counted: map<Connectivity, nat>, ghost longer: seq<Tick>)
      requires i < |list| && SweptTo(before, ticks, list, i, now, counts)
      modifies this`known, this`baseline, this`changes, this`emitted, this`pending, store
      ensures Ran(before, longer) && AtTime(longer, now) && Looked(longer) <= list
      ensures ok ==> SweptTo(before, longer, list, i + 1, now, counted)
    {
      var state;
      ok, state, longer := LookAt(list[i], now, before, ticks);
      assert list[..i + 1] == list[..i] + [list[i]];
      counted := counts;
      if ok {
        CountedOneMore(Judged(before, ticks, timeout), counts, state);
        counted := counts[state := counts[state] + 1];
      }
    }

    /**
     * One sweep, during which events may arrive at any time. A storage error
     * ends it after some of the assets. A completed one sets each gauge to the
     * number of looks that judged that state; if no heartbeat of an asset
     * arrived behind the look at it, that is the number of assets the read model
     * shows in the state on the store as it then is.
     */
    method RunOnce(assets: Fetched<seq<string>>, now: Time) returns (ok: bool, ghost ticks: seq<Tick>)
      requires pending.None?
      modifies this, store
      ensures View() == ExecTicks(old(View()), ticks, timeout) && pending.None?
      ensures AtTime(ticks, now) && (assets.Ok? ==> Looked(ticks) <= assets.value)
      ensures ok ==> assets.Ok? && Looked(ticks) == assets.value && WritesAll(old(View()), ticks, timeout)
      ensures ok ==>
                var states := Judged(old(View()), ticks, timeout);
                && active == CountOf(states, Online) && offline == CountOf(states, Offline)
                && unknown == CountOf(states, Unknown)
                && registered == |assets.value| == active + offline + unknown
      ensures ok && Undisturbed(ticks) ==>
                var views := ListViews(store.events, assets.value, now, timeout);
                active == CountIn(views, Online) && offline == CountIn(views, Offline)
                && unknown == CountIn(views, Unknown)
      ensures !ok ==>
                && registered == old(registered) && active == old(active)
                && offline == old(offline) && unknown == old(unknown)
    {
      ghost var before := View();
      ticks := [];
      if assets.StorageError? {
        return false, [];
      }
      var list := assets.value;
      var counts: map<Connectivity, nat> := map[Online := 0, Offline := 0, Unknown := 0];
      NothingCounted();
      for i := 0 to |list|
        invariant SweptTo(before, ticks, list, i, now, counts)
        invariant registered == old(registered) && active == old(active)
                  && offline == old(offline) && unknown == old(unknown)
      {
        ok, counts, ticks := LookAndCount(list, i, now, counts, before, ticks);
        if !ok {
          return false, ticks;
        }
      }
      assert list[..|list|] == list;
      registered, active, offline, unknown := |list|, counts[Online], counts[Offline], counts[Unknown];
      ok := true;
      StatesAddUp(Judged(before, ticks, timeout));
      if Undisturbed(ticks) {
        UndisturbedSweepAgrees(before, ticks, now, timeout, Online);
        UndisturbedSweepAgrees(before, ticks, now, timeout, Offline);
        UndisturbedSweepAgrees(before, ticks, now, timeout, Unknown);
      }
    }
  }

  class BackendHeartbeat {
    const store: InMemoryEventStorage
    const fleetId: string

    constructor (store: InMemoryEventStorage, fleetId: string)
      ensures this.store == store && this.fleetId == fleetId
    {
      this.store, this.fleetId := store, fleetId;
    }

    /**
     * A written beat is the latest heartbeat, stamped by one clock, unless one
     * received at that time or later is already there; then that one stays.
     */
    method BeatOnce(now: Time) returns (write: Write)
      modifies store
      ensures store.events == if write.FailedBefore? then old(store.events)
                              else old(store.events) + [Event(fleetId, now, Heartbeat, Opaque, now)]
      ensures !write.FailedBefore? ==>
                var before := LatestEvent(old(store.events), fleetId, Heartbeat);
                if before.Some? && before.value.receivedAt >= now
                then LatestEvent(store.events, fleetId, Heartbeat) == before
                else BeatIs(store.events, fleetId, Event(fleetId, now, Heartbeat, Opaque, now))
    {
      ghost var events := store.events;
      var e := Event(fleetId, now, Heartbeat, Opaque, now);
      write := store.InsertEvent(e);
      if !write.FailedBefore? {
        LatestAfterOneMore(events, e, fleetId, Heartbeat);
      }
    }
  }
}
