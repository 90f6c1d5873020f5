/** When a task of the collection loop starts (collectors/observatory_collectors/runner.py). */
module Schedule {
  import opened Wrappers

  /** `_next_run` of a task after passes at these times. */
  function NextRun(passes: seq<Time>, interval: Time): Time {
    if passes == [] then 0.0 else
      var next, now := NextRun(passes[..|passes| - 1], interval), passes[|passes| - 1];
      if now < next then next else now + interval
  }

  /** The passes at which the task started. */
  function Starts(passes: seq<Time>, interval: Time): seq<Time> {
    if passes == [] then [] else
      var front, now := passes[..|passes| - 1], passes[|passes| - 1];
      Starts(front, interval) + if now < NextRun(front, interval) then [] else [now]
  }

  /** The clock is non-negative and never goes back. */
  ghost predicate Monotone(passes: seq<Time>) {
    && (passes != [] ==> passes[0] >= 0.0)
    && forall i | 0 < i < |passes| :: passes[i - 1] <= passes[i]
  }

  /** Consecutive passes are at most `gap` apart. */
  ghost predicate PassesWithin(passes: seq<Time>, gap: Time) {
    forall i | 0 < i < |passes| :: passes[i] <= passes[i - 1] + gap
  }

  /** Consecutive starts are at least `low` and less than `high` apart. */
  ghost predicate Apart(starts: seq<Time>, low: Time, high: Time) {
    forall i | 0 < i < |starts| :: starts[i - 1] + low <= starts[i] < starts[i - 1] + high
  }

  /** What holds of a task's starts after some passes. */
  ghost predicate WellSpaced(passes: seq<Time>, starts: seq<Time>, next: Time, interval: Time, gap: Time) {
    && Apart(starts, interval, interval + gap)
    && (passes != [] ==>
          && starts != [] && starts[0] == passes[0]
          && next == starts[|starts| - 1] + interval
          && passes[|passes| - 1] < next)
  }

  lemma FirstPassStarts(now: Time, interval: Time, gap: Time)
    requires interval > 0.0 && now >= 0.0
    ensures WellSpaced([now], Starts([now], interval), NextRun([now], interval), interval, gap)
  {
    assert [now][..0] == [];
    assert Starts([now], interval) == [now];
  }

  lemma PassKeepsSpacing(front: seq<Time>, now: Time, starts: seq<Time>, next: Time, interval: Time, gap: Time)
    requires interval > 0.0 && front != [] && front[|front| - 1] <= now <= front[|front| - 1] + gap
    requires WellSpaced(front, starts, next, interval, gap)
    ensures if now < next then WellSpaced(front + [now], starts, next, interval, gap)
            else WellSpaced(front + [now], starts + [now], now + interval, interval, gap)
  {
  }

  lemma StartsOneMore(front: seq<Time>, now: Time, interval: Time)
    ensures var next, starts := NextRun(front, interval), Starts(front, interval);
            && NextRun(front + [now], interval) == (if now < next then next else now + interval)
            && Starts(front + [now], interval) == (if now < next then starts else starts + [now])
  {
    assert (front + [now])[..|front|] == front;
  }

  lemma SpacedOneMore(front: seq<Time>, now: Time, interval: Time, gap: Time)
    requires interval > 0.0 && front != [] && front[|front| - 1] <= now <= front[|front| - 1] + gap
    requires WellSpaced(front, Starts(front, interval), NextRun(front, interval), interval, gap)
    ensures WellSpaced(front + [now], Starts(front + [now], interval), NextRun(front + [now], interval), interval, gap)
  {
    PassKeepsSpacing(front, now, Starts(front, interval), NextRun(front, interval), interval, gap);
    StartsOneMore(front, now, interval);
  }

  /**
   * A task starts on the first pass; later starts are at least `interval`
   * apart, less than `interval + gap` when passes are at most `gap` apart, and
   * the last pass finds no start overdue.
   */
  lemma {:induction false} StartsAreSpaced(passes: seq<Time>, interval: Time, gap: Time)
    requires interval > 0.0 && Monotone(passes) && PassesWithin(passes, gap)
    ensures WellSpaced(passes, Starts(passes, interval), NextRun(passes, interval), interval, gap)
  {
    if passes != [] {
      var front, now := passes[..|passes| - 1], passes[|passes| - 1];
      assert passes == front + [now];
      assert forall i | 0 <= i < |front| :: front[i] == passes[i];
      if front == [] {
        FirstPassStarts(now, interval, gap);
      } else {
        assert passes[|passes| - 2] == front[|front| - 1];
        StartsAreSpaced(front, interval, gap);
        SpacedOneMore(front, now, interval, gap);
      }
    }
  }

  /** `n` times `x`. */
  function Multiple(n: nat, x: Time): Time {
    if n == 0 then 0.0 else Multiple(n - 1, x) + x
  }

  lemma {:induction false} StartsSpread(starts: seq<Time>, low: Time, high: Time, i: nat, j: nat)
    requires Apart(starts, low, high) && i <= j < |starts|
    ensures starts[i] + Multiple(j - i, low) <= starts[j]
    decreases j - i
  {
    if i < j {
      StartsSpread(starts, low, high, i, j - 1);
    }
  }

  /** A time while the task is running lies less than `interval + gap` after some start. */
  lemma LastStartBefore(passes: seq<Time>, interval: Time, gap: Time, time: Time) returns (i: nat)
    requires interval > 0.0 && passes != [] && Monotone(passes) && PassesWithin(passes, gap)
    requires passes[0] <= time <= passes[|passes| - 1] + gap
    ensures i < |Starts(passes, interval)|
    ensures Starts(passes, interval)[i] <= time <= Starts(passes, interval)[i] + interval + gap
  {
    StartsAreSpaced(passes, interval, gap);
    i := LastUpTo(Starts(passes, interval), time);
  }

  lemma {:induction false} LastUpTo(starts: seq<Time>, time: Time) returns (i: nat)
    requires starts != [] && starts[0] <= time
    ensures i < |starts| && starts[i] <= time && (i + 1 < |starts| ==> time < starts[i + 1])
  {
    var n := |starts| - 1;
    if starts[n] <= time {
      i := n;
    } else {
      i := LastUpTo(starts[..n], time);
    }
  }

  lemma {:induction false} PassesNeverGoBack(passes: seq<Time>, i: nat, j: nat)
    requires Monotone(passes) && i <= j < |passes|
    ensures passes[i] <= passes[j]
    decreases j - i
  {
    if i < j {
      PassesNeverGoBack(passes, i, j - 1);
    }
  }

  /** Any clock's passes are some time apart at most. */
  lemma SomeGap(passes: seq<Time>) returns (gap: Time)
    requires passes != [] && Monotone(passes)
    ensures PassesWithin(passes, gap)
  {
    var last := |passes| - 1;
    gap := passes[last] - passes[0];
    forall i | 0 < i < |passes| ensures passes[i] <= passes[i - 1] + gap {
      PassesNeverGoBack(passes, 0, i - 1);
      PassesNeverGoBack(passes, i, last);
    }
  }

  lemma {:induction false} MultipleIsProduct(n: nat, x: Time)
    ensures Multiple(n, x) == n as real * x
  {
    if n > 0 {
      MultipleIsProduct(n - 1, x);
      assert n as real == (n - 1) as real + 1.0;
      assert n as real * x == (n - 1) as real * x + x;
    }
  }

  lemma ProductWithin(k: real, x: Time, window: Time)
    requires x > 0.0 && k * x <= window
    ensures k <= window / x
  {
    var q := window / x;
    assert q * x == window;
    if k > q {
      assert (k - q) * x > 0.0;
    }
  }

  lemma NoMoreThanFloor(n: int, q: real)
    requires n as real <= q
    ensures n <= q.Floor
  {
  }

  lemma FewWithin(n: nat, x: Time, window: Time)
    requires x > 0.0 && Multiple(n, x) <= window
    ensures n <= (window / x).Floor
  {
    MultipleIsProduct(n, x);
    ProductWithin(n as real, x, window);
    NoMoreThanFloor(n, window / x);
  }

  /**
   * A window of length `window` holds at most floor(window / interval) + 1
   * starts of one task: those from the `i`-th to the `j`-th leave `j - i` whole
   * intervals within it.
   */
  lemma WindowHoldsFewStarts(passes: seq<Time>, interval: Time, low: Time, window: Time, i: nat, j: nat)
    requires interval > 0.0 && Monotone(passes)
    requires i <= j < |Starts(passes, interval)|
    requires low <= Starts(passes, interval)[i] && Starts(passes, interval)[j] <= low + window
    ensures j - i + 1 <= (window / interval).Floor + 1
  {
    var gap := SomeGap(passes);
    StartsAreSpaced(passes, interval, gap);
    StartsSpread(Starts(passes, interval), interval, interval + gap, i, j);
    FewWithin(j - i, interval, window);
  }
}
