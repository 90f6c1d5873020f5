/**
 * The offline detector (backend/app/services/offline.py) as a step machine:
 * each sweep looks at one asset after the other and writes a transition event
 * for a change it noticed. Events from elsewhere may arrive between any two
 * storage steps, and every write may fail.
 */
module Liveness {
  import opened Wrappers
  import opened Telemetry
  import opened Registry
  import opened Schedule

  /** `_evaluate`: connectivity and the source time it was judged on. */
  function Evaluate(events: seq<Event>, asset: string, now: Time, timeout: Time): (Connectivity, Option<Time>) {
    var heartbeat := LatestEvent(events, asset, Heartbeat);
    if heartbeat.None? then (Unknown, None)
    else if now - heartbeat.value.timestamp > timeout then (Offline, Some(heartbeat.value.timestamp))
    else (Online, Some(heartbeat.value.timestamp))
  }

  /** Detector and read model judge every asset alike on the same store and clock. */
  lemma DetectorAndReadModelAgree(events: seq<Event>, asset: string, now: Time, timeout: Time)
    ensures var v := BuildView(events, asset, now, timeout);
            Evaluate(events, asset, now, timeout) == (v.connectivity, v.lastHeartbeat)
  {
  }

  /** A connectivity change the detector noticed. */
  datatype Change = Change(asset: string, previous: Connectivity,
    current: Connectivity, lastHeartbeat: Option<Time>, at: Time)

  function TransitionEvent(c: Change): Event {
    Event(c.asset, c.at, if c.current.Offline? then AssetOffline else AssetOnline,
          TransitionPayload(c.previous, c.current, c.lastHeartbeat), c.at)
  }

  /**
   * The detector with its history: the connectivity first seen per asset, all
   * changes it noticed, and which of them (by index) reached the stream. A
   * change it is about to write is pending.
   */
  datatype Detector = Detector(
    known: map<string, Connectivity>,
    events: seq<Event>,
    baseline: map<string, Connectivity>,
    changes: seq<Change>,
    emitted: seq<int>,
    pending: Option<Change>)

  /** An event from elsewhere, the detector judging one asset, or it writing the change it noticed. */
  datatype Tick = Arrive(event: Event) | Look(asset: string, now: Time) | Emit(write: Write)

  function Starting(events: seq<Event>): Detector {
    Detector(map[], events, map[], [], [], None)
  }

  /** The state is recorded first; only then is a transition written, once. */
  function ExecTick(d: Detector, tick: Tick, timeout: Time): Detector {
    match tick
    case Arrive(e) => d.(events := d.events + [e])
    case Look(asset, now) =>
      var (state, heartbeat) := Evaluate(d.events, asset, now, timeout);
      var previous := Lookup(d.known, asset);
      var seen := d.(known := d.known[asset := state]);
      if previous.None? then seen.(baseline := d.baseline[asset := state])
      else if previous.value == state || state.Unknown? then seen
      else
        var c := Change(asset, previous.value, state, heartbeat, now);
        seen.(changes := d.changes + [c], pending := Some(c))
    case Emit(write) =>
      var done := d.(pending := None);
      if d.pending.None? || write.FailedBefore? then done
      else done.(events := d.events + [TransitionEvent(d.pending.value)], emitted := d.emitted + [|d.changes| - 1])
  }

  function ExecTicks(d: Detector, ticks: seq<Tick>, timeout: Time): Detector {
    if ticks == [] then d else ExecTick(ExecTicks(d, ticks[..|ticks| - 1], timeout), ticks[|ticks| - 1], timeout)
  }

  // ---------------------------------------------------------------- //
  // The chain of changes of each asset
  // ---------------------------------------------------------------- //

  ghost function ChangesOf(cs: seq<Change>, asset: string): seq<Change> {
    if cs == [] then [] else
      ChangesOf(cs[..|cs| - 1], asset) + if cs[|cs| - 1].asset == asset then [cs[|cs| - 1]] else []
  }

  /** `cs` leads from `first` to `last`: every change starts where the one before ended. */
  ghost predicate Chain(first: Connectivity, cs: seq<Change>, last: Connectivity) {
    && (cs == [] ==> first == last)
    && (cs != [] ==> cs[0].previous == first && cs[|cs| - 1].current == last)
    && (forall i | 0 <= i < |cs| :: cs[i].current != cs[i].previous && !cs[i].current.Unknown?)
    && (forall i | 0 < i < |cs| :: cs[i].previous == cs[i - 1].current)
  }

  /**
   * What always holds for one asset with this known state, baseline and chain
   * of changes, of which a heartbeat was `heard` or not.
   */
  ghost predicate ChainOk(known: Option<Connectivity>, baseline: Option<Connectivity>, cs: seq<Change>, heard: bool) {
    && (known.Some? <==> baseline.Some?)
    && (known.None? ==> cs == [])
    && (known.Some? ==> Chain(baseline.value, cs, known.value))
    && (known.Some? && !known.value.Unknown? ==> heard)
  }

  ghost predicate AssetOk(d: Detector, a: string) {
    ChainOk(Lookup(d.known, a), Lookup(d.baseline, a), ChangesOf(d.changes, a),
            LatestEvent(d.events, a, Heartbeat).Some?)
  }

  /**
   * The changes that reached the stream, in the order they were noticed and
   * each at most once; a pending one is the last noticed and not among them.
   */
  ghost predicate AtMostOnce(d: Detector) {
    && (forall i | 0 <= i < |d.emitted| :: 0 <= d.emitted[i] < |d.changes|)
    && (forall i, j | 0 <= i < j < |d.emitted| :: d.emitted[i] < d.emitted[j])
    && (d.pending.Some? ==>
          && d.changes != [] && d.pending.value == d.changes[|d.changes| - 1]
          && (d.emitted == [] || d.emitted[|d.emitted| - 1] < |d.changes| - 1))
  }

  ghost predicate DetectorOk(d: Detector) {
    forall a :: AssetOk(d, a)
  }

  lemma ChangesOfOneMore(cs: seq<Change>, c: Change, a: string)
    ensures ChangesOf(cs + [c], a) == ChangesOf(cs, a) + if c.asset == a then [c] else []
  {
    assert (cs + [c])[..|cs|] == cs;
  }

  /** Changes of `a` that `t` has beyond `d`. */
  ghost predicate AddsChanges(d: Detector, t: Detector, a: string, more: seq<Change>) {
    ChangesOf(t.changes, a) == ChangesOf(d.changes, a) + more
  }

  /** The change one look notices, if any. */
  function Noticed(d: Detector, asset: string, now: Time, timeout: Time): seq<Change> {
    var (state, heartbeat) := Evaluate(d.events, asset, now, timeout);
    var previous := Lookup(d.known, asset);
    if previous.None? || previous.value == state || state.Unknown? then []
    else [Change(asset, previous.value, state, heartbeat, now)]
  }

  /** A look adds to the changes what it notices. */
  lemma LookNotices(d: Detector, tick: Tick, timeout: Time)
    requires tick.Look?
    ensures ExecTick(d, tick, timeout).changes == d.changes + Noticed(d, tick.asset, tick.now, timeout)
  {
  }

  lemma LookAddsChanges(d: Detector, tick: Tick, timeout: Time, a: string)
    requires tick.Look?
    ensures AddsChanges(d, ExecTick(d, tick, timeout), a,
                        if a == tick.asset then Noticed(d, a, tick.now, timeout) else [])
  {
    var cs := Noticed(d, tick.asset, tick.now, timeout);
    LookNotices(d, tick, timeout);
    if cs == [] {
      assert d.changes + cs == d.changes;
    } else {
      ChangesOfOneMore(d.changes, cs[0], a);
    }
  }

  /** What one tick appends to the stream. */
  function Appended(d: Detector, tick: Tick): (added: seq<Event>)
    ensures |added| <= 1
  {
    match tick
    case Arrive(e) => [e]
    case Look(_, _) => []
    case Emit(write) => if d.pending.None? || write.FailedBefore? then [] else [TransitionEvent(d.pending.value)]
  }

  lemma TickAppends(d: Detector, tick: Tick, timeout: Time)
    ensures ExecTick(d, tick, timeout).events == d.events + Appended(d, tick)
  {
  }

  /** The detector writes no heartbeats. */
  lemma DetectorKeepsHeartbeats(d: Detector, tick: Tick, timeout: Time, a: string)
    requires !tick.Arrive?
    ensures LatestEvent(ExecTick(d, tick, timeout).events, a, Heartbeat) == LatestEvent(d.events, a, Heartbeat)
  {
    if ExecTick(d, tick, timeout).events != d.events {
      LatestAfterOneMore(d.events, TransitionEvent(d.pending.value), a, Heartbeat);
    }
  }

  lemma ChainGrows(first: Connectivity, cs: seq<Change>, last: Connectivity, c: Change)
    requires Chain(first, cs, last) && c.previous == last && c.current != last && !c.current.Unknown?
    ensures Chain(first, cs + [c], c.current)
  {
  }

  /** A look at an asset whose judged state is `state` extends its chain by the change it notices. */
  lemma LookKeepsChain(
      known: Option<Connectivity>, baseline: Option<Connectivity>, cs: seq<Change>, heard: bool, c: Change)
    requires ChainOk(known, baseline, cs, heard) && (heard <==> !c.current.Unknown?)
    requires known.Some? ==> c.previous == known.value
    ensures ChainOk(Some(c.current), if known.None? then Some(c.current) else baseline,
                    cs + (if known.None? || known.value == c.current || c.current.Unknown? then [] else [c]), heard)
  {
    if known.Some? && known.value != c.current && heard {
      ChainGrows(baseline.value, cs, known.value, c);
    } else {
      assert cs + [] == cs;
    }
  }

  /** What a look does to the recorded states of any asset. */
  lemma LookRecords(d: Detector, tick: Tick, timeout: Time, a: string)
    requires tick.Look?
    ensures var t, state := ExecTick(d, tick, timeout), Evaluate(d.events, tick.asset, tick.now, timeout).0;
            && Lookup(t.known, a) == (if a == tick.asset then Some(state) else Lookup(d.known, a))
            && Lookup(t.baseline, a) == (if a == tick.asset && a !in d.known then Some(state)
                else Lookup(d.baseline, a))
  {
  }

  /** A look that changes the known state appends one link to the asset's chain. */
  lemma LookKeepsAsset(d: Detector, t: Detector, tick: Tick, timeout: Time, a: string)
    requires tick.Look? && AssetOk(d, a) && t == ExecTick(d, tick, timeout)
    ensures AssetOk(t, a)
  {
    LookRecords(d, tick, timeout, a);
    LookAddsChanges(d, tick, timeout, a);
    DetectorKeepsHeartbeats(d, tick, timeout, a);
    var known, baseline, cs := Lookup(d.known, a), Lookup(d.baseline, a), ChangesOf(d.changes, a);
    var heard := LatestEvent(d.events, a, Heartbeat).Some?;
    if tick.asset == a {
      var (state, heartbeat) := Evaluate(d.events, a, tick.now, timeout);
      LookKeepsChain(known, baseline, cs, heard,
                     Change(a, if known.Some? then known.value else state, state, heartbeat, tick.now));
    } else {
      assert cs + [] == cs;
    }
  }

  lemma TickKeepsDetector(d: Detector, tick: Tick, timeout: Time)
    requires DetectorOk(d)
    ensures DetectorOk(ExecTick(d, tick, timeout))
  {
    var t := ExecTick(d, tick, timeout);
    forall a ensures AssetOk(t, a) {
      assert AssetOk(d, a);
      match tick
      case Arrive(e) => LatestAfterOneMore(d.events, e, a, Heartbeat);
      case Look(_, _) => LookKeepsAsset(d, t, tick, timeout, a);
      case Emit(_) => DetectorKeepsHeartbeats(d, tick, timeout, a);
    }
  }

  /**
   * Over a process lifetime, with storage errors anywhere, the changes of each
   * asset form one chain from its baseline to its known state, and `Unknown` is
   * never re-entered.
   */
  lemma {:induction false} ChangesFormChains(events: seq<Event>, ticks: seq<Tick>, timeout: Time)
    ensures DetectorOk(ExecTicks(Starting(events), ticks, timeout))
  {
    if ticks != [] {
      ChangesFormChains(events, ticks[..|ticks| - 1], timeout);
      TickKeepsDetector(ExecTicks(Starting(events), ticks[..|ticks| - 1], timeout), ticks[|ticks| - 1], timeout);
    }
  }

  /** Offline and online events of one asset strictly alternate. */
  lemma TypesAlternate(events: seq<Event>, ticks: seq<Tick>, timeout: Time, a: string, i: nat)
    requires i + 1 < |ChangesOf(ExecTicks(Starting(events), ticks, timeout).changes, a)|
    ensures var cs := ChangesOf(ExecTicks(Starting(events), ticks, timeout).changes, a);
            {TransitionEvent(cs[i]).eventType, TransitionEvent(cs[i + 1]).eventType} == {AssetOffline, AssetOnline}
  {
    ChangesFormChains(events, ticks, timeout);
    var d := ExecTicks(Starting(events), ticks, timeout);
    assert AssetOk(d, a);
    var cs := ChangesOf(d.changes, a);
    assert cs[i + 1].previous == cs[i].current;
  }

  // ---------------------------------------------------------------- //
  // The stream
  // ---------------------------------------------------------------- //

  /** What the stream `after` has beyond `before`. */
  function Growth(before: seq<Event>, after: seq<Event>): seq<Event> {
    if |before| <= |after| then after[|before|..] else []
  }

  /** Everything that the detector, and not the arrivals, put on the stream. */
  function FromDetector(d: Detector, ticks: seq<Tick>, timeout: Time): seq<Event> {
    if ticks == [] then [] else
      var front, tick := ticks[..|ticks| - 1], ticks[|ticks| - 1];
      FromDetector(d, front, timeout)
      + if tick.Arrive? then [] else Growth(ExecTicks(d, front, timeout).events, ExecTicks(d, ticks, timeout).events)
  }

  /** Everything that arrived from elsewhere. */
  function Arrivals(ticks: seq<Tick>): seq<Event> {
    if ticks == [] then [] else
      Arrivals(ticks[..|ticks| - 1]) + if ticks[|ticks| - 1].Arrive? then [ticks[|ticks| - 1].event] else []
  }

  /** The transition events of the changes at these indices. */
  function Transitions(cs: seq<Change>, at: seq<int>): seq<Event>
    requires forall i | 0 <= i < |at| :: 0 <= at[i] < |cs|
  {
    seq(|at|, i requires 0 <= i < |at| => TransitionEvent(cs[at[i]]))
  }

  lemma TransitionsOfMoreChanges(cs: seq<Change>, more: seq<Change>, at: seq<int>)
    requires forall i | 0 <= i < |at| :: 0 <= at[i] < |cs|
    ensures Transitions(cs + more, at) == Transitions(cs, at)
  {
  }

  lemma LookWritesNothing(d: Detector, tick: Tick, timeout: Time)
    requires tick.Look? && AtMostOnce(d)
    ensures var t := ExecTick(d, tick, timeout);
            AtMostOnce(t) && Transitions(t.changes, t.emitted) == Transitions(d.changes, d.emitted)
  {
    LookNotices(d, tick, timeout);
    TransitionsOfMoreChanges(d.changes, Noticed(d, tick.asset, tick.now, timeout), d.emitted);
  }

  lemma EmitWritesPending(d: Detector, tick: Tick, timeout: Time)
    requires tick.Emit? && AtMostOnce(d)
    ensures var t := ExecTick(d, tick, timeout);
            && AtMostOnce(t)
            && Transitions(t.changes, t.emitted) == Transitions(d.changes, d.emitted) + Appended(d, tick)
  {
    var t := ExecTick(d, tick, timeout);
    assert t.changes == d.changes;
    if t.events == d.events {
      assert t.emitted == d.emitted;
    } else {
      assert t.emitted == d.emitted + [|d.changes| - 1];
    }
  }

  /** A look puts nothing on the stream; an emission writes the pending change. */
  lemma DetectorWritesItsChanges(d: Detector, tick: Tick, timeout: Time)
    requires !tick.Arrive? && AtMostOnce(d)
    ensures var t := ExecTick(d, tick, timeout);
            && AtMostOnce(t)
            && Transitions(t.changes, t.emitted) == Transitions(d.changes, d.emitted) + Appended(d, tick)
  {
    if tick.Look? {
      LookWritesNothing(d, tick, timeout);
    } else {
      EmitWritesPending(d, tick, timeout);
    }
  }

  lemma ArrivalWritesNothing(d: Detector, tick: Tick, timeout: Time)
    requires tick.Arrive? && AtMostOnce(d)
    ensures var t := ExecTick(d, tick, timeout);
            AtMostOnce(t) && Transitions(t.changes, t.emitted) == Transitions(d.changes, d.emitted)
  {
    var t := ExecTick(d, tick, timeout);
    assert t.changes == d.changes && t.emitted == d.emitted && t.pending == d.pending;
  }

  lemma FromDetectorOneMore(d: Detector, ticks: seq<Tick>, tick: Tick, timeout: Time)
    ensures FromDetector(d, ticks + [tick], timeout)
         == FromDetector(d, ticks, timeout) + if tick.Arrive? then [] else Appended(ExecTicks(d, ticks, timeout), tick)
    ensures ExecTicks(d, ticks + [tick], timeout) == ExecTick(ExecTicks(d, ticks, timeout), tick, timeout)
  {
    assert (ticks + [tick])[..|ticks|] == ticks;
    TickAppends(ExecTicks(d, ticks, timeout), tick, timeout);
  }

  /** What the detector wrote in these ticks is the transitions it counts as written. */
  ghost predicate WritesTransitions(d: Detector, ticks: seq<Tick>, timeout: Time) {
    var t := ExecTicks(d, ticks, timeout);
    AtMostOnce(t) && FromDetector(d, ticks, timeout) == Transitions(t.changes, t.emitted)
  }

  lemma {:induction false} WritesTransitionsOneMore(d: Detector, ticks: seq<Tick>, tick: Tick, timeout: Time)
    requires WritesTransitions(d, ticks, timeout)
    ensures WritesTransitions(d, ticks + [tick], timeout)
  {
    var t := ExecTicks(d, ticks, timeout);
    FromDetectorOneMore(d, ticks, tick, timeout);
    if tick.Arrive? {
      assert FromDetector(d, ticks, timeout) + [] == FromDetector(d, ticks, timeout);
      ArrivalWritesNothing(t, tick, timeout);
    } else {
      DetectorWritesItsChanges(t, tick, timeout);
    }
  }

  lemma {:induction false} OnlyTransitionsAreWritten(events: seq<Event>, ticks: seq<Tick>, timeout: Time)
    ensures WritesTransitions(Starting(events), ticks, timeout)
  {
    if ticks != [] {
      var front, tick := ticks[..|ticks| - 1], ticks[|ticks| - 1];
      OnlyTransitionsAreWritten(events, front, timeout);
      assert ticks == front + [tick];
      WritesTransitionsOneMore(Starting(events), front, tick, timeout);
    } else {
      assert ExecTicks(Starting(events), ticks, timeout) == Starting(events);
    }
  }

  lemma {:induction false} StreamOnlyGrows(d: Detector, ticks: seq<Tick>, timeout: Time)
    ensures var t := ExecTicks(d, ticks, timeout);
            d.events <= t.events && |t.events| == |d.events| + |Arrivals(ticks)| + |FromDetector(d, ticks, timeout)|
  {
    if ticks != [] {
      var front, tick := ticks[..|ticks| - 1], ticks[|ticks| - 1];
      StreamOnlyGrows(d, front, timeout);
      TickAppends(ExecTicks(d, front, timeout), tick, timeout);
    }
  }

  /**
   * Whatever failed: what the detector put on the stream is the transition
   * event of some of the changes it noticed, in order and each once, and
   * nothing else; all the rest of the stream arrived from elsewhere.
   */
  lemma ChangesAreWrittenAtMostOnce(events: seq<Event>, ticks: seq<Tick>, timeout: Time)
    ensures var start := Starting(events);
            var d := ExecTicks(start, ticks, timeout);
            && AtMostOnce(d)
            && FromDetector(start, ticks, timeout) == Transitions(d.changes, d.emitted)
            && |d.events| == |events| + |Arrivals(ticks)| + |d.emitted|
            && events <= d.events
  {
    OnlyTransitionsAreWritten(events, ticks, timeout);
    StreamOnlyGrows(Starting(events), ticks, timeout);
  }

  /** Each change is written before the next look, and no write fails. */
  ghost predicate WritesAll(d: Detector, ticks: seq<Tick>, timeout: Time) {
    forall i | 0 <= i < |ticks| ::
      && (ticks[i].Look? ==> ExecTicks(d, ticks[..i], timeout).pending.None?)
      && (ticks[i].Emit? ==> ticks[i].write.Done?)
  }

  lemma {:induction false} WritesAllPrefix(d: Detector, ticks: seq<Tick>, timeout: Time)
    requires ticks != [] && WritesAll(d, ticks, timeout)
    ensures WritesAll(d, ticks[..|ticks| - 1], timeout)
  {
    var front := ticks[..|ticks| - 1];
    forall i | 0 <= i < |front|
      ensures front[i].Look? ==> ExecTicks(d, front[..i], timeout).pending.None?
      ensures front[i].Emit? ==> front[i].write.Done?
    {
      assert front[..i] == ticks[..i] && front[i] == ticks[i];
    }
  }

  /** All changes but a pending one, which is the last. */
  function Settled(d: Detector): seq<Change> {
    if d.pending.Some? && d.changes != [] then d.changes[..|d.changes| - 1] else d.changes
  }

  function AsEvents(cs: seq<Change>): seq<Event> {
    seq(|cs|, k requires 0 <= k < |cs| => TransitionEvent(cs[k]))
  }

  /** A pending change is the last one noticed. */
  ghost predicate PendingIsLast(d: Detector) {
    d.pending.Some? ==> d.changes != [] && d.pending.value == d.changes[|d.changes| - 1]
  }

  lemma CleanTick(d: Detector, tick: Tick, timeout: Time)
    requires PendingIsLast(d) && (tick.Look? ==> d.pending.None?) && (tick.Emit? ==> tick.write.Done?)
    ensures var t := ExecTick(d, tick, timeout);
            && PendingIsLast(t)
            && d.changes <= t.changes && |Settled(d)| <= |Settled(t)|
            && AsEvents(Settled(t)) == AsEvents(Settled(d)) + if tick.Arrive? then [] else Appended(d, tick)
  {
    var t := ExecTick(d, tick, timeout);
    match tick
    case Arrive(_) => assert Settled(t) == Settled(d);
    case Look(_, _) =>
      LookNotices(d, tick, timeout);
      assert Settled(t) == Settled(d);
    case Emit(_) =>
      if d.pending.Some? {
        assert Settled(t) == Settled(d) + [d.pending.value];
      }
  }

  /** From an idle detector on, without storage errors, everything it writes is what it noticed since. */
  ghost predicate WroteAll(d: Detector, ticks: seq<Tick>, timeout: Time) {
    var t := ExecTicks(d, ticks, timeout);
    PendingIsLast(t) && AsEvents(d.changes) + FromDetector(d, ticks, timeout) == AsEvents(Settled(t))
  }

  lemma {:induction false} WroteAllOneMore(d: Detector, ticks: seq<Tick>, tick: Tick, timeout: Time)
    requires WroteAll(d, ticks, timeout)
    requires tick.Look? ==> ExecTicks(d, ticks, timeout).pending.None?
    requires tick.Emit? ==> tick.write.Done?
    ensures WroteAll(d, ticks + [tick], timeout)
  {
    var t := ExecTicks(d, ticks, timeout);
    FromDetectorOneMore(d, ticks, tick, timeout);
    CleanTick(t, tick, timeout);
    var more := if tick.Arrive? then [] else Appended(t, tick);
    assert AsEvents(d.changes) + (FromDetector(d, ticks, timeout) + more)
        == AsEvents(d.changes) + FromDetector(d, ticks, timeout) + more;
  }

  lemma {:induction false} EveryChangeIsWritten(d: Detector, ticks: seq<Tick>, timeout: Time)
    requires d.pending.None? && WritesAll(d, ticks, timeout)
    ensures WroteAll(d, ticks, timeout)
  {
    if ticks == [] {
      assert AsEvents(d.changes) + [] == AsEvents(d.changes);
    } else {
      var front, tick := ticks[..|ticks| - 1], ticks[|ticks| - 1];
      WritesAllPrefix(d, ticks, timeout);
      EveryChangeIsWritten(d, front, timeout);
      assert ticks == front + [tick];
      WroteAllOneMore(d, front, tick, timeout);
    }
  }

  /** Without storage errors the detector puts on the stream every change it noticed, in order. */
  lemma NothingIsLostWithoutErrors(events: seq<Event>, ticks: seq<Tick>, timeout: Time)
    requires WritesAll(Starting(events), ticks, timeout)
    ensures var start := Starting(events);
            FromDetector(start, ticks, timeout) == AsEvents(Settled(ExecTicks(start, ticks, timeout)))
  {
    var start := Starting(events);
    EveryChangeIsWritten(start, ticks, timeout);
    assert AsEvents(start.changes) + FromDetector(start, ticks, timeout) == FromDetector(start, ticks, timeout);
  }

  // ---------------------------------------------------------------- //
  // What a written change says
  // ---------------------------------------------------------------- //

  /** The event tells of change `c`: whose, which, when, and on what it was judged. */
  ghost predicate Tells(e: Event, c: Change) {
    && e.collectorId == c.asset
    && e.timestamp == c.at && e.receivedAt == c.at
    && e.payload == TransitionPayload(c.previous, c.current, c.lastHeartbeat)
    && (e.eventType == AssetOffline <==> c.current == Offline)
    && (e.eventType == AssetOnline <==> c.current == Online)
  }

  lemma TransitionTells(c: Change)
    requires !c.current.Unknown?
    ensures Tells(TransitionEvent(c), c)
  {
  }

  ghost predicate Definite(cs: seq<Change>) {
    forall i | 0 <= i < |cs| :: !cs[i].current.Unknown?
  }

  lemma {:induction false} ChangesAreDefinite(d: Detector, ticks: seq<Tick>, timeout: Time)
    requires Definite(d.changes)
    ensures Definite(ExecTicks(d, ticks, timeout).changes)
  {
    if ticks != [] {
      ChangesAreDefinite(d, ticks[..|ticks| - 1], timeout);
    }
  }

  /** Every event the detector ever writes tells of the change it stands for. */
  lemma {:induction false} EventsTellTheirChange(events: seq<Event>, ticks: seq<Tick>, timeout: Time, i: nat)
    requires i < |FromDetector(Starting(events), ticks, timeout)|
    ensures var d := ExecTicks(Starting(events), ticks, timeout);
            && i < |d.emitted| && 0 <= d.emitted[i] < |d.changes|
            && Tells(FromDetector(Starting(events), ticks, timeout)[i], d.changes[d.emitted[i]])
  {
    var d := ExecTicks(Starting(events), ticks, timeout);
    OnlyTransitionsAreWritten(events, ticks, timeout);
    ChangesAreDefinite(Starting(events), ticks, timeout);
    TransitionTells(d.changes[d.emitted[i]]);
  }

  // ---------------------------------------------------------------- //
  // Transition events and evaluation
  // ---------------------------------------------------------------- //

  /** An event that is no heartbeat of the asset changes no judgement of it. */
  lemma OnlyHeartbeatsCount(events: seq<Event>, e: Event, asset: string, now: Time, timeout: Time)
    requires !Is(e, asset, Heartbeat)
    ensures Evaluate(events + [e], asset, now, timeout) == Evaluate(events, asset, now, timeout)
  {
    LatestAfterOneMore(events, e, asset, Heartbeat);
  }

  // ---------------------------------------------------------------- //
  // Timing
  // ---------------------------------------------------------------- //

  predicate LooksAt(tick: Tick, a: string) {
    tick.Look? && tick.asset == a
  }

  /** The time of the last look at `a`, `start` if there was none. */
  function LastLook(ticks: seq<Tick>, a: string, start: Time): Time {
    if ticks == [] then start
    else if LooksAt(ticks[|ticks| - 1], a) then ticks[|ticks| - 1].now
    else LastLook(ticks[..|ticks| - 1], a, start)
  }

  /** Looks at `a` never go back in time and are at most `gap` apart, counting from `start`. */
  ghost predicate Spaced(ticks: seq<Tick>, a: string, start: Time, gap: Time) {
    ticks == [] ||
    (var front, tick := ticks[..|ticks| - 1], ticks[|ticks| - 1];
     && Spaced(front, a, start, gap)
     && (LooksAt(tick, a) ==> LastLook(front, a, start) <= tick.now <= LastLook(front, a, start) + gap))
  }

  ghost predicate Silent(ticks: seq<Tick>, a: string) {
    forall i | 0 <= i < |ticks| :: ticks[i].Arrive? ==> !Is(ticks[i].event, a, Heartbeat)
  }

  /** The report of an asset that fell silent after source time `h`. */
  ghost predicate ReportsSilence(c: Change, a: string, h: Time, timeout: Time, gap: Time) {
    && c.asset == a && c.previous.Online? && c.current.Offline? && c.lastHeartbeat == Some(h)
    && h + timeout < c.at <= h + timeout + gap
  }

  /**
   * An asset last seen online with newest source time `h` falls silent. As soon
   * as a look comes later than `h + timeout`, and not before, exactly one change
   * is noticed: offline, stamped in (h + timeout, h + timeout + gap].
   */
  lemma {:induction false} SilenceIsReportedInTime(
      d: Detector, ticks: seq<Tick>, timeout: Time, a: string, h: Time, start: Time, gap: Time)
    returns (more: seq<Change>)
    requires Lookup(d.known, a) == Some(Online) && NewestAt(d, a, h)
    requires start <= h + timeout
    requires Silent(ticks, a) && Spaced(ticks, a, start, gap)
    ensures var t := ExecTicks(d, ticks, timeout);
            NewestAt(t, a, h) && Waits(d, t, a, h, timeout, gap, LastLook(ticks, a, start), more)
  {
    if ticks == [] {
      more := [];
    } else {
      var front, tick := ticks[..|ticks| - 1], ticks[|ticks| - 1];
      assert forall i | 0 <= i < |front| :: front[i] == ticks[i];
      more := SilenceIsReportedInTime(d, front, timeout, a, h, start, gap);
      var t, last := ExecTicks(d, front, timeout), LastLook(front, a, start);
      if !LooksAt(tick, a) {
        SilentElsewhere(d, t, tick, timeout, a, h, last, gap, more);
      } else {
        SilentLook(d, t, tick, timeout, a, h, last, gap, more);
        more := more + Noticed(t, a, tick.now, timeout);
      }
    }
  }

  /** Where the detector stands with an asset silent since source time `h`, last looked at at `last`. */
  ghost predicate Waits(
      d: Detector, t: Detector, a: string, h: Time, timeout: Time, gap: Time, last: Time, more: seq<Change>)
  {
    && AddsChanges(d, t, a, more)
    && (if last > h + timeout
        then |more| == 1 && ReportsSilence(more[0], a, h, timeout, gap) && Lookup(t.known, a) == Some(Offline)
        else more == [] && Lookup(t.known, a) == Some(Online))
  }

  ghost predicate NewestAt(d: Detector, a: string, h: Time) {
    var latest := LatestEvent(d.events, a, Heartbeat);
    latest.Some? && latest.value.timestamp == h
  }

  /** Nothing that is no beat of the silent asset and no look at it changes where things stand. */
  lemma SilentElsewhere(d: Detector, t: Detector, tick: Tick, timeout: Time, a: string, h: Time, last: Time, gap: Time,
                        more: seq<Change>)
    requires NewestAt(t, a, h) && Waits(d, t, a, h, timeout, gap, last, more)
    requires !LooksAt(tick, a) && (tick.Arrive? ==> !Is(tick.event, a, Heartbeat))
    ensures var u := ExecTick(t, tick, timeout); NewestAt(u, a, h) && Waits(d, u, a, h, timeout, gap, last, more)
  {
    match tick
    case Arrive(e) => LatestAfterOneMore(t.events, e, a, Heartbeat);
    case Look(_, _) =>
      LookAddsChanges(t, tick, timeout, a);
      LookRecords(t, tick, timeout, a);
    case Emit(_) => DetectorKeepsHeartbeats(t, tick, timeout, a);
  }

  lemma SilenceIsNoticed(t: Detector, a: string, h: Time, timeout: Time, last: Time, now: Time)
    requires NewestAt(t, a, h) && last <= now
    requires Lookup(t.known, a) == Some(if last > h + timeout then Offline else Online)
    ensures Evaluate(t.events, a, now, timeout) == (if now > h + timeout then Offline else Online, Some(h))
    ensures Noticed(t, a, now, timeout)
         == if now > h + timeout && last <= h + timeout then [Change(a, Online, Offline, Some(h), now)] else []
  {
  }

  /** A look at the silent asset notices its silence exactly when it is the first one late enough. */
  lemma SilentLook(d: Detector, t: Detector, tick: Tick, timeout: Time, a: string, h: Time, last: Time, gap: Time,
                   more: seq<Change>)
    requires NewestAt(t, a, h) && Waits(d, t, a, h, timeout, gap, last, more)
    requires LooksAt(tick, a) && last <= tick.now <= last + gap
    ensures var u := ExecTick(t, tick, timeout);
            NewestAt(u, a, h) && Waits(d, u, a, h, timeout, gap, tick.now, more + Noticed(t, a, tick.now, timeout))
  {
    var cs := Noticed(t, a, tick.now, timeout);
    LookAddsChanges(t, tick, timeout, a);
    LookRecords(t, tick, timeout, a);
    SilenceIsNoticed(t, a, h, timeout, last, tick.now);
    assert ChangesOf(d.changes, a) + (more + cs) == ChangesOf(d.changes, a) + more + cs;
    assert more + cs == if more == [] then cs else more;
  }

  /** The events of asset `a`. */
  function About(events: seq<Event>, a: string): seq<Event> {
    if events == [] then [] else
      About(events[..|events| - 1], a) + if events[|events| - 1].collectorId == a then [events[|events| - 1]] else []
  }

  lemma {:induction false} AboutOfChanges(cs: seq<Change>, a: string)
    ensures About(AsEvents(cs), a) == AsEvents(ChangesOf(cs, a))
  {
    if cs != [] {
      var front := cs[..|cs| - 1];
      AboutOfChanges(front, a);
      assert AsEvents(cs)[..|cs| - 1] == AsEvents(front);
    }
  }

  lemma {:induction false} AboutConcat(x: seq<Event>, y: seq<Event>, a: string)
    ensures About(x + y, a) == About(x, a) + About(y, a)
  {
    if y == [] {
      assert x + y == x;
    } else {
      AboutConcat(x, y[..|y| - 1], a);
      assert (x + y)[..|x + y| - 1] == x + y[..|y| - 1];
    }
  }

  lemma SameTail<T>(x: seq<T>, y: seq<T>, z: seq<T>)
    requires x + y == x + z
    ensures y == z
  {
    assert |y| == |z|;
    forall i | 0 <= i < |y| ensures y[i] == z[i] {
      assert (x + y)[|x| + i] == (x + z)[|x| + i];
    }
  }

  lemma AsEventsConcat(x: seq<Change>, y: seq<Change>)
    ensures AsEvents(x + y) == AsEvents(x) + AsEvents(y)
  {
  }

  lemma TailAbout(cs: seq<Change>, all: seq<Change>, written: seq<Event>, a: string, more: seq<Change>)
    requires AsEvents(cs) + written == AsEvents(all) && ChangesOf(all, a) == ChangesOf(cs, a) + more
    ensures About(written, a) == AsEvents(more)
  {
    AboutConcat(AsEvents(cs), written, a);
    AboutOfChanges(cs, a);
    AboutOfChanges(all, a);
    AsEventsConcat(ChangesOf(cs, a), more);
    SameTail(AsEvents(ChangesOf(cs, a)), About(written, a), AsEvents(more));
  }

  /** Without errors, what the detector wrote about an asset is the changes of it noticed meanwhile. */
  lemma WrittenAbout(d: Detector, ticks: seq<Tick>, timeout: Time, a: string, more: seq<Change>)
    requires d.pending.None? && WritesAll(d, ticks, timeout)
    requires ExecTicks(d, ticks, timeout).pending.None? && AddsChanges(d, ExecTicks(d, ticks, timeout), a, more)
    ensures About(FromDetector(d, ticks, timeout), a) == AsEvents(more)
  {
    EveryChangeIsWritten(d, ticks, timeout);
    TailAbout(d.changes, ExecTicks(d, ticks, timeout).changes, FromDetector(d, ticks, timeout), a, more);
  }

  /**
   * On the stream: once a look came late enough and writes succeed, the silent
   * asset has left exactly one event of the detector, an `asset_offline` in its
   * name, sent and received in (h + timeout, h + timeout + gap], that says it
   * went from online to offline and was last heard at `h`.
   */
  lemma SilenceIsWrittenInTime(
      d: Detector, ticks: seq<Tick>, timeout: Time, a: string, h: Time, start: Time, gap: Time)
    requires Lookup(d.known, a) == Some(Online) && NewestAt(d, a, h)
    requires start <= h + timeout
    requires Silent(ticks, a) && Spaced(ticks, a, start, gap)
    requires d.pending.None? && WritesAll(d, ticks, timeout) && ExecTicks(d, ticks, timeout).pending.None?
    ensures var written := About(FromDetector(d, ticks, timeout), a);
            if LastLook(ticks, a, start) <= h + timeout then written == []
            else
              && |written| == 1
              && written[0].eventType == AssetOffline && written[0].collectorId == a
              && written[0].timestamp == written[0].receivedAt
              && h + timeout < written[0].receivedAt <= h + timeout + gap
              && written[0].payload == TransitionPayload(Online, Offline, Some(h))
  {
    var more := SilenceIsReportedInTime(d, ticks, timeout, a, h, start, gap);
    WrittenAbout(d, ticks, timeout, a, more);
  }

  // ---------------------------------------------------------------- //
  // Regular heartbeats
  // ---------------------------------------------------------------- //

  predicate IsBeat(tick: Tick, self: string) {
    tick.Arrive? && Is(tick.event, self, Heartbeat)
  }

  /** The last beat of `self` received in `ticks`, `first` if there was none. */
  function LastBeat(ticks: seq<Tick>, self: string, first: Event): Event {
    if ticks == [] then first
    else if IsBeat(ticks[|ticks| - 1], self) then ticks[|ticks| - 1].event
    else LastBeat(ticks[..|ticks| - 1], self, first)
  }

  /** Beat `e` follows beat `last`: sent no earlier, and received later unless it is as old. */
  predicate Follows(last: Event, e: Event) {
    && last.timestamp <= e.timestamp
    && (last.receivedAt < e.receivedAt || (last.receivedAt == e.receivedAt && last.timestamp == e.timestamp))
  }

  /** The beats of `self` come in the order they were sent. */
  ghost predicate InOrder(ticks: seq<Tick>, self: string, first: Event) {
    ticks == [] ||
    (var front, tick := ticks[..|ticks| - 1], ticks[|ticks| - 1];
     InOrder(front, self, first) && (IsBeat(tick, self) ==> Follows(LastBeat(front, self, first), tick.event)))
  }

  /** Every look at `self` comes at most `gap` after the last beat received was sent. */
  ghost predicate KeepsBeating(ticks: seq<Tick>, self: string, first: Event, gap: Time) {
    ticks == [] ||
    (var front, tick := ticks[..|ticks| - 1], ticks[|ticks| - 1];
     && KeepsBeating(front, self, first, gap)
     && (LooksAt(tick, self) ==> tick.now <= LastBeat(front, self, first).timestamp + gap))
  }

  ghost predicate NoneOffline(cs: seq<Change>) {
    forall i | 0 <= i < |cs| :: !cs[i].current.Offline?
  }

  /** `t` noticed no change of `self` to offline beyond those of `d`. */
  ghost predicate NeverGoesOffline(d: Detector, t: Detector, self: string) {
    && (self in t.known && t.known[self].Offline? ==> self in d.known && d.known[self].Offline?)
    && (exists more :: AddsChanges(d, t, self, more) && NoneOffline(more))
  }

  /** The latest heartbeat of `self` was sent and received when `last` was. */
  ghost predicate BeatIs(events: seq<Event>, self: string, last: Event) {
    var latest := LatestEvent(events, self, Heartbeat);
    latest.Some? && latest.value.timestamp == last.timestamp && latest.value.receivedAt == last.receivedAt
  }

  /** An asset whose beats are at most `timeout` old at every look is never reported offline. */
  lemma {:induction false} BeatingAssetStaysOnline(
    d: Detector, ticks: seq<Tick>, timeout: Time, self: string, first: Event, gap: Time)
    requires gap <= timeout
    requires BeatIs(d.events, self, first) && InOrder(ticks, self, first) && KeepsBeating(ticks, self, first, gap)
    ensures var t := ExecTicks(d, ticks, timeout);
            NeverGoesOffline(d, t, self) && BeatIs(t.events, self, LastBeat(ticks, self, first))
  {
    if ticks == [] {
      assert AddsChanges(d, d, self, []);
    } else {
      var front, tick := ticks[..|ticks| - 1], ticks[|ticks| - 1];
      BeatingAssetStaysOnline(d, front, timeout, self, first, gap);
      var t := ExecTicks(d, front, timeout);
      var now := BeatingTick(t, tick, timeout, self, LastBeat(front, self, first), gap);
      NeverOfflineThen(d, t, ExecTick(t, tick, timeout), self, now);
    }
  }

  lemma NeverOfflineThen(d: Detector, t: Detector, u: Detector, self: string, now: seq<Change>)
    requires NeverGoesOffline(d, t, self) && AddsChanges(t, u, self, now) && NoneOffline(now)
    requires self in u.known && u.known[self].Offline? ==> self in t.known && t.known[self].Offline?
    ensures NeverGoesOffline(d, u, self)
  {
    var more :| AddsChanges(d, t, self, more) && NoneOffline(more);
    assert AddsChanges(d, u, self, more + now);
  }

  lemma BeatingTick(d: Detector, tick: Tick, timeout: Time, self: string, last: Event, gap: Time)
    returns (more: seq<Change>)
    requires gap <= timeout && BeatIs(d.events, self, last)
    requires LooksAt(tick, self) ==> tick.now <= last.timestamp + gap
    requires IsBeat(tick, self) ==> Follows(last, tick.event)
    ensures var t := ExecTick(d, tick, timeout);
            && AddsChanges(d, t, self, more)
            && NoneOffline(more)
            && (self in t.known && t.known[self].Offline? ==> self in d.known && d.known[self].Offline?)
            && BeatIs(t.events, self, if IsBeat(tick, self) then tick.event else last)
  {
    more := [];
    match tick
    case Arrive(e) => LatestAfterOneMore(d.events, e, self, Heartbeat);
    case Look(asset, now) =>
      LookAddsChanges(d, tick, timeout, self);
      LookRecords(d, tick, timeout, self);
      more := if asset == self then Noticed(d, self, now, timeout) else [];
    case Emit(_) => DetectorKeepsHeartbeats(d, tick, timeout, self);
  }

  // The backend's own beats carry its clock as both source and receipt time.

  /**
   * While the backend beats at most `timeout` apart -- whatever look there is at
   * its asset comes within that time of its last beat -- it never reports itself
   * offline.
   */
  lemma BeatingBackendStaysOnline(
    d: Detector, ticks: seq<Tick>, timeout: Time, self: string, first: Event, gap: Time)
    requires gap <= timeout && BeatIs(d.events, self, first) && first.timestamp == first.receivedAt
    requires OneClock(ticks, self, first) && KeepsBeating(ticks, self, first, gap)
    ensures NeverGoesOffline(d, ExecTicks(d, ticks, timeout), self)
  {
    OneClockIsInOrder(ticks, self, first);
    BeatingAssetStaysOnline(d, ticks, timeout, self, first, gap);
  }

  /** Beats are sent and received at one time, and that clock does not run backwards from one to the next. */
  ghost predicate OneClock(ticks: seq<Tick>, self: string, first: Event) {
    ticks == [] ||
    (var front, tick := ticks[..|ticks| - 1], ticks[|ticks| - 1];
     && OneClock(front, self, first)
     && (IsBeat(tick, self) ==>
           tick.event.timestamp == tick.event.receivedAt
           && LastBeat(front, self, first).timestamp <= tick.event.timestamp))
  }

  lemma {:induction false} OneClockIsInOrder(ticks: seq<Tick>, self: string, first: Event)
    requires first.timestamp == first.receivedAt && OneClock(ticks, self, first)
    ensures InOrder(ticks, self, first)
    ensures LastBeat(ticks, self, first).timestamp == LastBeat(ticks, self, first).receivedAt
  {
    if ticks != [] {
      OneClockIsInOrder(ticks[..|ticks| - 1], self, first);
    }
  }

  /** The bound is exact: with any larger gap between beats a run of the detector reports the backend offline. */
  lemma LateBeatsAreReported(timeout: Time, gap: Time, self: string)
    requires 0.0 < timeout < gap
    ensures exists beat, ticks ::
              && Is(beat, self, Heartbeat) && beat.timestamp == beat.receivedAt
              && OneClock(ticks, self, beat) && KeepsBeating(ticks, self, beat, gap)
              && !NeverGoesOffline(Starting([beat]), ExecTicks(Starting([beat]), ticks, timeout), self)
  {
    var beat := Event(self, 0.0, Heartbeat, Opaque, 0.0);
    var d := Starting([beat]);
    var ticks := [Look(self, 0.0), Look(self, gap)];
    LatestAfterOneMore([], beat, self, Heartbeat);
    assert [] + [beat] == [beat];
    assert ticks[..1] == [Look(self, 0.0)] && ticks[..1][..0] == [];
    assert LastBeat(ticks[..1][..0], self, beat) == beat && LastBeat(ticks[..1], self, beat) == beat;
    assert OneClock(ticks[..1], self, beat) && OneClock(ticks, self, beat);
    assert KeepsBeating(ticks[..1][..0], self, beat, gap);
    assert KeepsBeating(ticks[..1], self, beat, gap) && KeepsBeating(ticks, self, beat, gap);
    var e := ExecTick(d, Look(self, 0.0), timeout);
    assert ExecTicks(d, ticks[..1][..0], timeout) == d && ExecTicks(d, ticks[..1], timeout) == e;
    assert e.known[self] == Online && e.events == [beat];
    var t := ExecTick(e, Look(self, gap), timeout);
    assert ExecTicks(d, ticks, timeout) == t && t.known[self] == Offline;
    assert !NeverGoesOffline(d, t, self);
  }

  // A collector's beats are sent when its heartbeat task starts, and take up to some delay to arrive.

  /** By a look at time `now`, the newest beat received is no older than any start a whole `delay` ago. */
  ghost predicate CaughtUp(last: Event, starts: seq<Time>, delay: Time, now: Time) {
    forall i | 0 <= i < |starts| && starts[i] + delay <= now :: starts[i] <= last.timestamp
  }

  /**
   * Every look at `self` comes while the collector is running (`from` to
   * `until`, plus the delay), and finds received what was sent a delay ago.
   */
  ghost predicate DeliversInTime(
    ticks: seq<Tick>, self: string, first: Event, starts: seq<Time>, delay: Time, from: Time, until: Time)
  {
    ticks == [] ||
    (var front, tick := ticks[..|ticks| - 1], ticks[|ticks| - 1];
     && DeliversInTime(front, self, first, starts, delay, from, until)
     && (LooksAt(tick, self) ==>
           && from + delay <= tick.now <= until + delay
           && CaughtUp(LastBeat(front, self, first), starts, delay, tick.now)))
  }

  lemma {:induction false} DeliveryKeepsBeating(
    ticks: seq<Tick>, self: string, first: Event, passes: seq<Time>, interval: Time, gap: Time, delay: Time)
    requires interval > 0.0 && passes != [] && Monotone(passes) && PassesWithin(passes, gap)
    requires DeliversInTime(ticks, self, first, Starts(passes, interval), delay, passes[0], passes[|passes| - 1] + gap)
    ensures KeepsBeating(ticks, self, first, interval + gap + delay)
  {
    if ticks != [] {
      var front, tick := ticks[..|ticks| - 1], ticks[|ticks| - 1];
      DeliveryKeepsBeating(front, self, first, passes, interval, gap, delay);
      if LooksAt(tick, self) {
        var i := LastStartBefore(passes, interval, gap, tick.now - delay);
        assert Starts(passes, interval)[i] <= LastBeat(front, self, first).timestamp;
      }
    }
  }

  /**
   * End to end: a collector that schedules its heartbeat every `interval`, in
   * passes at most `gap` apart, and whose beats arrive in order within `delay`,
   * is never reported offline while interval + gap + delay is within the timeout.
   */
  lemma ScheduledCollectorStaysOnline(
    d: Detector, ticks: seq<Tick>, timeout: Time, self: string, first: Event,
    passes: seq<Time>, interval: Time, gap: Time, delay: Time)
    requires interval + gap + delay <= timeout
    requires interval > 0.0 && passes != [] && Monotone(passes) && PassesWithin(passes, gap)
    requires BeatIs(d.events, self, first) && InOrder(ticks, self, first)
    requires DeliversInTime(ticks, self, first, Starts(passes, interval), delay, passes[0], passes[|passes| - 1] + gap)
    ensures NeverGoesOffline(d, ExecTicks(d, ticks, timeout), self)
  {
    DeliveryKeepsBeating(ticks, self, first, passes, interval, gap, delay);
    BeatingAssetStaysOnline(d, ticks, timeout, self, first, interval + gap + delay);
  }

  // ---------------------------------------------------------------- //
  // Heartbeats that arrive late
  // ---------------------------------------------------------------- //

  /**
   * A heartbeat whose source time is already older than the timeout never makes
   * an asset look online. It does make an online asset look offline, exactly
   * when it is received later than the newest one: the latest event is chosen
   * by receipt time, its age is judged by source time.
   */
  lemma StaleHeartbeat(events: seq<Event>, e: Event, asset: string, now: Time, timeout: Time)
    requires Is(e, asset, Heartbeat) && now - e.timestamp > timeout
    ensures var before, after := Evaluate(events, asset, now, timeout).0, Evaluate(events + [e], asset, now, timeout).0;
            && (after.Online? ==> before.Online?)
            && (before.Online? ==> (after.Offline?
               <==> LatestEvent(events, asset, Heartbeat).value.receivedAt < e.receivedAt))
            && !after.Unknown?
  {
    LatestAfterOneMore(events, e, asset, Heartbeat);
  }

  /** For instance, an asset that beat 1 s ago is judged offline (after 90 s) once a beat of 100 s ago comes in. */
  lemma OldHeartbeatFakesSilence(asset: string)
    ensures var recent, late := Event(asset, 99.0, Heartbeat, Opaque, 99.0),
                Event(asset, 0.0, Heartbeat, Opaque, 100.0);
            && Evaluate([recent], asset, 100.0, 90.0) == (Online, Some(99.0))
            && Evaluate([recent, late], asset, 100.0, 90.0) == (Offline, Some(0.0))
  {
    var recent, late := Event(asset, 99.0, Heartbeat, Opaque, 99.0), Event(asset, 0.0, Heartbeat, Opaque, 100.0);
    LatestAfterOneMore([], recent, asset, Heartbeat);
    assert [] + [recent] == [recent];
    assert LatestEvent([recent], asset, Heartbeat) == Some(recent);
    LatestAfterOneMore([recent], late, asset, Heartbeat);
    assert [recent] + [late] == [recent, late];
    assert LatestEvent([recent, late], asset, Heartbeat) == Some(late);
  }
}
