/** The collection loop (collectors/observatory_collectors/runner.py) and what it reports about itself. */
module Runner {
  import opened Wrappers
  import opened Client
  import opened Schedule

  /** An event a task produced; heartbeats carry a failure total. */
  datatype Produced = HeartbeatEvent(failuresTotal: nat) | Telemetry(eventType: string)

  /** What happened, in order: a task started, its producer crashed or returned events, an event was submitted. */
  datatype Entry =
    | Started(name: string, at: Time)
    | Crashed
    | Returned(events: seq<Produced>)
    | Submitted(event: Produced, accepted: bool)

  const HEARTBEAT := "heartbeat"

  // ---------------------------------------------------------------- //
  // What a log says
  // ---------------------------------------------------------------- //

  function Count(log: seq<Entry>, p: Entry -> bool): nat {
    if log == [] then 0 else Count(log[..|log| - 1], p) + if p(log[|log| - 1]) then 1 else 0
  }

  function Crashes(log: seq<Entry>): nat {
    Count(log, (e: Entry) => e.Crashed?)
  }

  function DeliveryFailures(log: seq<Entry>): nat {
    Count(log, (e: Entry) => e.Submitted? && !e.accepted)
  }

  function Deliveries(log: seq<Entry>): nat {
    Count(log, (e: Entry) => e.Submitted? && e.accepted)
  }

  /** Everything the producers returned, in order. */
  function EventsProduced(log: seq<Entry>): seq<Produced> {
    if log == [] then [] else
      EventsProduced(log[..|log| - 1]) + if log[|log| - 1].Returned? then log[|log| - 1].events else []
  }

  /** Everything handed to the client, in order. */
  function EventsSubmitted(log: seq<Entry>): seq<Produced> {
    if log == [] then [] else
      EventsSubmitted(log[..|log| - 1]) + if log[|log| - 1].Submitted? then [log[|log| - 1].event] else []
  }

  lemma CountOneMore(log: seq<Entry>, e: Entry, p: Entry -> bool)
    ensures Count(log + [e], p) == Count(log, p) + if p(e) then 1 else 0
  {
    assert (log + [e])[..|log|] == log;
  }

  lemma {:induction false} CountIsMonotone(log: seq<Entry>, i: nat, p: Entry -> bool)
    requires i <= |log|
    ensures Count(log[..i], p) <= Count(log, p)
  {
    if i < |log| {
      CountIsMonotone(log[..|log| - 1], i, p);
      assert log[..|log| - 1][..i] == log[..i];
    } else {
      assert log[..i] == log;
    }
  }

  // ---------------------------------------------------------------- //
  // Nothing produced is unaccounted for
  // ---------------------------------------------------------------- //

  /** Where the loop stands: between tasks, in a producer, with events yet to submit, or nowhere it could be. */
  datatype Stage = Ready | Producing(name: string) | Owing(rest: seq<Produced>) | Broken

  function Owe(rest: seq<Produced>): Stage {
    if rest == [] then Ready else Owing(rest)
  }

  /** The heartbeat task returns its one heartbeat; no other task returns one. */
  predicate Fits(name: string, events: seq<Produced>) {
    if name == HEARTBEAT then |events| == 1 && events[0].HeartbeatEvent? else forall e | e in events :: e.Telemetry?
  }

  function Next(stage: Stage, e: Entry): Stage {
    match (stage, e)
    case (Ready, Started(name, _)) => Producing(name)
    case (Producing(_), Crashed) => Ready
    case (Producing(name), Returned(events)) => if Fits(name, events) then Owe(events) else Broken
    case (Owing(rest), Submitted(event, _)) => if rest != [] && event == rest[0] then Owe(rest[1..]) else Broken
    case _ => Broken
  }

  /** Tasks run one after the other: each crashes, or has what it returned submitted in order. */
  function StageOf(log: seq<Entry>): Stage {
    if log == [] then Ready else Next(StageOf(log[..|log| - 1]), log[|log| - 1])
  }

  lemma StageOneMore(log: seq<Entry>, e: Entry)
    ensures StageOf(log + [e]) == Next(StageOf(log), e)
  {
    assert (log + [e])[..|log|] == log;
  }

  /** What was returned is what was submitted and what is still owed, event by event. */
  lemma {:induction false} ProducedIsSubmittedOrOwed(log: seq<Entry>)
    requires !StageOf(log).Broken?
    ensures EventsProduced(log) == EventsSubmitted(log) + if StageOf(log).Owing? then StageOf(log).rest else []
  {
    if log != [] {
      var front, e := log[..|log| - 1], log[|log| - 1];
      ProducedIsSubmittedOrOwed(front);
      if e.Submitted? {
        assert StageOf(front).rest == [e.event] + StageOf(front).rest[1..];
      }
    }
  }

  lemma {:induction false} SubmissionsAreCounted(log: seq<Entry>)
    ensures |EventsSubmitted(log)| == Deliveries(log) + DeliveryFailures(log)
  {
    if log != [] {
      SubmissionsAreCounted(log[..|log| - 1]);
    }
  }

  /**
   * Between tasks, the events submitted are exactly those the producers
   * returned, in that order, so as many were produced as were accepted or
   * failed to be delivered.
   */
  lemma EventsAreConserved(log: seq<Entry>)
    requires StageOf(log).Ready?
    ensures EventsSubmitted(log) == EventsProduced(log)
    ensures |EventsProduced(log)| == Deliveries(log) + DeliveryFailures(log)
  {
    ProducedIsSubmittedOrOwed(log);
    SubmissionsAreCounted(log);
  }

  // ---------------------------------------------------------------- //
  // Reported failures
  // ---------------------------------------------------------------- //

  /** Entry `i`, if it returned a heartbeat, reports all failures before it. */
  ghost predicate ReportsTruth(log: seq<Entry>, i: int)
    requires 0 <= i < |log|
  {
    log[i].Returned? ==> forall e | e in log[i].events && e.HeartbeatEvent? ::
      e.failuresTotal == DeliveryFailures(log[..i]) + Crashes(log[..i])
  }

  ghost predicate Truthful(log: seq<Entry>) {
    forall i | 0 <= i < |log| :: ReportsTruth(log, i)
  }

  lemma TruthfulOneMore(log: seq<Entry>, e: Entry)
    requires Truthful(log)
    requires e.Returned? ==> forall x | x in e.events && x.HeartbeatEvent? ::
               x.failuresTotal == DeliveryFailures(log) + Crashes(log)
    ensures Truthful(log + [e])
  {
    forall i | 0 <= i < |log + [e]| ensures ReportsTruth(log + [e], i) {
      if i < |log| {
        assert ReportsTruth(log, i) && (log + [e])[..i] == log[..i];
      } else {
        assert (log + [e])[..i] == log;
      }
    }
  }

  /** Reported totals never decrease. */
  lemma ReportsNeverDecrease(log: seq<Entry>, i: nat, j: nat, e: Produced, f: Produced)
    requires Truthful(log) && i <= j < |log| && log[i].Returned? && log[j].Returned?
    requires e in log[i].events && e.HeartbeatEvent? && f in log[j].events && f.HeartbeatEvent?
    ensures e.failuresTotal <= f.failuresTotal
  {
    assert ReportsTruth(log, i) && ReportsTruth(log, j);
    assert log[..j][..i] == log[..i];
    CountIsMonotone(log[..j], i, (e: Entry) => e.Crashed?);
    CountIsMonotone(log[..j], i, (e: Entry) => e.Submitted? && !e.accepted);
  }

  /** Adding one entry moves no counter, or the one counter it stands for. */
  lemma CountersOneMore(log: seq<Entry>, e: Entry)
    ensures DeliveryFailures(log + [e]) == DeliveryFailures(log) + if e.Submitted? && !e.accepted then 1 else 0
    ensures Deliveries(log + [e]) == Deliveries(log) + if e.Submitted? && e.accepted then 1 else 0
    ensures Crashes(log + [e]) == Crashes(log) + if e.Crashed? then 1 else 0
  {
    CountOneMore(log, e, (e: Entry) => e.Submitted? && !e.accepted);
    CountOneMore(log, e, (e: Entry) => e.Submitted? && e.accepted);
    CountOneMore(log, e, (e: Entry) => e.Crashed?);
  }

  // ---------------------------------------------------------------- //
  // Starts
  // ---------------------------------------------------------------- //

  /** The times at which task `name` was started. */
  function StartsIn(log: seq<Entry>, name: string): seq<Time> {
    if log == [] then [] else
      var e := log[|log| - 1];
      StartsIn(log[..|log| - 1], name) + if e.Started? && e.name == name then [e.at] else []
  }

  lemma StartsInOneMore(log: seq<Entry>, e: Entry, name: string)
    ensures StartsIn(log + [e], name) == StartsIn(log, name) + if e.Started? && e.name == name then [e.at] else []
  {
    assert (log + [e])[..|log|] == log;
  }

  datatype Task = Task(name: string, interval: Time)

  /** After these passes, task `t` was started exactly when the schedule says. */
  ghost predicate OnSchedule(t: Task, passes: seq<Time>, nextRun: map<string, Time>, log: seq<Entry>) {
    && t.name in nextRun && nextRun[t.name] == NextRun(passes, t.interval)
    && StartsIn(log, t.name) == Starts(passes, t.interval)
  }

  /** `log` goes on from `before` without another start. */
  ghost predicate SameStarts(before: seq<Entry>, log: seq<Entry>) {
    forall name :: StartsIn(log, name) == StartsIn(before, name)
  }

  /** `log` holds one more start than `before`: that of `task`. */
  ghost predicate OneStart(before: seq<Entry>, log: seq<Entry>, task: string, now: Time) {
    forall name :: StartsIn(log, name) == StartsIn(before, name) + if name == task then [now] else []
  }

  lemma StartsBook(log: seq<Entry>, e: Entry)
    ensures if e.Started? then OneStart(log, log + [e], e.name, e.at) else SameStarts(log, log + [e])
  {
    forall name ensures StartsIn(log + [e], name) == StartsIn(log, name)
        + if e.Started? && e.name == name then [e.at] else [] {
      StartsInOneMore(log, e, name);
    }
  }

  /** All that one more entry does to what a log says. */
  lemma BookedOneMore(log: seq<Entry>, e: Entry)
    requires Truthful(log)
    requires e.Returned? ==> forall x | x in e.events && x.HeartbeatEvent? ::
               x.failuresTotal == DeliveryFailures(log) + Crashes(log)
    ensures Truthful(log + [e])
    ensures DeliveryFailures(log + [e]) == DeliveryFailures(log) + if e.Submitted? && !e.accepted then 1 else 0
    ensures Deliveries(log + [e]) == Deliveries(log) + if e.Submitted? && e.accepted then 1 else 0
    ensures Crashes(log + [e]) == Crashes(log) + if e.Crashed? then 1 else 0
    ensures StageOf(log + [e]) == Next(StageOf(log), e)
    ensures if e.Started? then OneStart(log, log + [e], e.name, e.at) else SameStarts(log, log + [e])
  {
    TruthfulOneMore(log, e);
    CountersOneMore(log, e);
    StageOneMore(log, e);
    StartsBook(log, e);
  }

  // ---------------------------------------------------------------- //
  // The runner
  // ---------------------------------------------------------------- //

  class CollectorRunner {
    const client: ObservatoryClient
    const tasks: seq<Task>
    var nextRun: map<string, Time>
    var collectionFailures: nat
    /** What happened so far, and when passes began. */
    ghost var log: seq<Entry>
    ghost var passes: seq<Time>

    ghost predicate DistinctNames() {
      forall i, j | 0 <= i < j < |tasks| :: tasks[i].name != tasks[j].name
    }

    /** Counters agree with the log and its heartbeats told the truth. */
    ghost predicate Accounted()
      reads this, client
    {
      && client.failuresTotal == DeliveryFailures(log)
      && collectionFailures == Crashes(log)
      && Truthful(log)
    }

    /** Between passes every task is on schedule and nothing returned is left unsubmitted. */
    ghost predicate Valid()
      reads this, client
    {
      && DistinctNames() && Accounted() && StageOf(log).Ready?
      && forall i | 0 <= i < |tasks| :: OnSchedule(tasks[i], passes, nextRun, log)
    }

    constructor (client: ObservatoryClient, heartbeatInterval: Time, others: seq<Task>)
      requires client.failuresTotal == 0
      requires forall i | 0 <= i < |others| :: others[i].name != HEARTBEAT
      requires forall i, j | 0 <= i < j < |others| :: others[i].name != others[j].name
      ensures Valid() && this.client == client && tasks == [Task(HEARTBEAT, heartbeatInterval)] + others
      ensures log == [] && passes == []
    {
      this.client := client;
      tasks := [Task(HEARTBEAT, heartbeatInterval)] + others;
      var all := [Task(HEARTBEAT, heartbeatInterval)] + others;
      var names := set t | t in all :: t.name;
      nextRun := map n | n in names :: 0.0;
      collectionFailures := 0;
      log, passes := [], [];
      new;
      forall i | 0 <= i < |tasks| ensures OnSchedule(tasks[i], [], nextRun, []) {
        assert tasks[i] in all && tasks[i].name in names;
      }
    }

    /**
     * A producer crashes or returns events; the heartbeat's one event sums up
     * the failures so far. The log records what it did.
     */
    method Produce(t: Task) returns (events: Option<seq<Produced>>)
      requires Accounted() && StageOf(log) == Producing(t.name)
      modifies this`log
      ensures log == old(log) + [if events.Some? then Returned(events.value) else Crashed]
      ensures StageOf(log) == if events.Some? then Owe(events.value) else Ready
      ensures client.failuresTotal == DeliveryFailures(log) && Truthful(log)
      ensures collectionFailures + (if events.None? then 1 else 0) == Crashes(log)
      ensures Deliveries(log) == Deliveries(old(log)) && SameStarts(old(log), log)
    {
      var crash: bool := *;
      if crash {
        BookedOneMore(log, Crashed);
        log := log + [Crashed];
        return None;
      }
      if t.name == HEARTBEAT {
        events := Some([HeartbeatEvent(client.failuresTotal + collectionFailures)]);
      } else {
        var names: seq<string> := *;
        events := Some(seq(|names|, i requires 0 <= i < |names| => Telemetry(names[i])));
      }
      BookedOneMore(log, Returned(events.value));
      log := log + [Returned(events.value)];
    }

    /** Submits one event and books the result. */
    method Submit(e: Produced) returns (ok: bool)
      requires Accounted()
      modifies client, this`log
      ensures Accounted() && log == old(log) + [Submitted(e, ok)]
      ensures Deliveries(log) == Deliveries(old(log)) + if ok then 1 else 0
      ensures StageOf(log) == Next(StageOf(old(log)), Submitted(e, ok)) && SameStarts(old(log), log)
    {
      var outcomes: nat -> Outcome := *;
      var posts, slept;
      ok, posts, slept := client.SubmitEvent(outcomes);
      BookedOneMore(log, Submitted(e, ok));
      log := log + [Submitted(e, ok)];
    }

    /** Submits the events that are owed, in order, until none is. */
    method SubmitAll(events: seq<Produced>) returns (submitted: nat)
      requires Accounted() && StageOf(log) == Owe(events)
      modifies client, this`log
      ensures Accounted() && StageOf(log).Ready? && SameStarts(old(log), log) && old(log) <= log
      ensures submitted == Deliveries(log) - Deliveries(old(log))
    {
      submitted := 0;
      for i := 0 to |events|
        invariant Accounted() && StageOf(log) == Owe(events[i..]) && SameStarts(old(log), log) && old(log) <= log
        invariant submitted == Deliveries(log) - Deliveries(old(log))
      {
        assert events[i..][1..] == events[i + 1..];
        var ok := Submit(events[i]);
        if ok {
          submitted := submitted + 1;
        }
      }
    }

    /** Runs a due task: its producer crashes, or everything it returned is submitted. */
    method RunTask(t: Task, now: Time) returns (submitted: nat)
      requires Accounted() && StageOf(log).Ready?
      modifies client, this`log, this`collectionFailures
      ensures Accounted() && StageOf(log).Ready?
      ensures OneStart(old(log), log, t.name, now) && old(log) <= log
      ensures submitted == Deliveries(log) - Deliveries(old(log))
    {
      BookedOneMore(log, Started(t.name, now));
      log := log + [Started(t.name, now)];
      var events := Produce(t);
      if events.None? {
        submitted := 0;
        collectionFailures := collectionFailures + 1;
      } else {
        submitted := SubmitAll(events.value);
      }
    }

    /** In the pass at `now`, the first `n` tasks have had their turn. */
    ghost predicate PassedTo(n: nat, passes: seq<Time>, now: Time, nextRun: map<string, Time>, log: seq<Entry>) {
      forall j | 0 <= j < |tasks| :: OnSchedule(tasks[j], if j < n then passes + [now] else passes, nextRun, log)
    }

    lemma PassesOn(i: nat, passes: seq<Time>, now: Time, was: map<string, Time>, before: seq<Entry>,
                   nextRun: map<string, Time>, log: seq<Entry>)
      requires DistinctNames() && i < |tasks| && PassedTo(i, passes, now, was, before)
      requires var t := tasks[i];
               t.name in was
               && if was[t.name] <= now then nextRun == was[t.name := now + t.interval]
                     && OneStart(before, log, t.name, now)
                  else nextRun == was && log == before
      ensures PassedTo(i + 1, passes, now, nextRun, log)
    {
      var t, next := tasks[i], passes + [now];
      assert next[..|passes|] == passes;
      assert OnSchedule(t, passes, was, before);
      forall j | 0 <= j < |tasks| ensures OnSchedule(tasks[j], if j < i + 1 then next else passes, nextRun, log) {
        assert OnSchedule(tasks[j], if j < i then next else passes, was, before);
        assert j != i ==> tasks[j].name != t.name;
      }
    }

    /** Gives task `i` its turn in the pass at `now`. */
    method RunIfDue(i: nat, now: Time) returns (submitted: nat)
      requires i < |tasks| && DistinctNames() && Accounted() && StageOf(log).Ready?
      requires PassedTo(i, passes, now, nextRun, log)
      modifies this`nextRun, this`log, this`collectionFailures, client
      ensures Accounted() && StageOf(log).Ready? && PassedTo(i + 1, passes, now, nextRun, log) && old(log) <= log
      ensures submitted == Deliveries(log) - Deliveries(old(log))
    {
      var t := tasks[i];
      assert OnSchedule(t, passes, nextRun, log);
      submitted := 0;
      if nextRun[t.name] <= now {
        nextRun := nextRun[t.name := now + t.interval];
        submitted := RunTask(t, now);
      }
      PassesOn(i, passes, now, old(nextRun), old(log), nextRun, log);
    }

    /**
     * One pass at time `now`: every task whose time has come is started, once,
     * and no other; everything the producers returned has been submitted, and
     * is either accepted or counted as a delivery failure.
     */
    method RunPending(now: Time) returns (submitted: nat)
      requires Valid()
      modifies this, client
      ensures Valid() && passes == old(passes) + [now] && old(log) <= log
      ensures submitted == Deliveries(log) - Deliveries(old(log))
      ensures EventsSubmitted(log) == EventsProduced(log)
      ensures |EventsProduced(log)| == Deliveries(log) + client.failuresTotal
    {
      submitted := 0;
      for i := 0 to |tasks|
        invariant Accounted() && StageOf(log).Ready? && passes == old(passes) && old(log) <= log
        invariant submitted == Deliveries(log) - Deliveries(old(log))
        invariant PassedTo(i, passes, now, nextRun, log)
      {
        var n := RunIfDue(i, now);
        submitted := submitted + n;
      }
      EventsAreConserved(log);
      passes := passes + [now];
    }
  }
}
