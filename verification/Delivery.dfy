/**
 * The retrying client against the interleaving backend: what the client's
 * verdict on a submission says about the projection.
 */
module Delivery {
  import opened Wrappers
  import opened Mission
  import opened Projection
  import opened Ingestion
  import opened Retries
  import opened Convergence
  import Client

  /** How the client sees an answer of the route. */
  function AsOutcome(status: Status): Client.Outcome {
    match status
    case Accepted => Client.Accepted
    case Conflict => Client.HttpError(409)
    case Unprocessable => Client.HttpError(422)
    case Unavailable => Client.HttpError(503)
    case ServerError => Client.HttpError(500)
  }

  /** A POST of `b` came back with the answer of one of its attempts, or with none at all. */
  ghost predicate Answers(s: Backend, t: Backend, b: Body, outcome: Client.Outcome) {
    outcome.ConnectionError? || exists i, status :: Ended(s, t, b, i, status) && outcome == AsOutcome(status)
  }

  /** `SubmitEvent` ended this way: `posts` answers, and its verdict. */
  ghost predicate ClientStopped(script: nat -> Client.Outcome, maxRetries: nat, posts: nat, ok: bool) {
    && 1 <= posts <= maxRetries + 1
    && (forall k | 0 <= k < posts - 1 :: Client.Retryable(script(k)))
    && (ok <==> script(posts - 1).Accepted?)
    && (Client.Retryable(script(posts - 1)) ==> posts == maxRetries + 1)
  }

  /** The method's promise is exactly this description of how it stops. */
  method Submit(client: Client.ObservatoryClient, script: nat -> Client.Outcome) returns (ok: bool, posts: nat)
    modifies client
    ensures ClientStopped(script, client.maxRetries, posts, ok)
    ensures client.failuresTotal == old(client.failuresTotal) + if ok then 0 else 1
  {
    var slept;
    ok, posts, slept := client.SubmitEvent(script);
  }

  /** A definite answer makes the submission a delivered one. */
  lemma DefiniteAnswerDelivers(s: Backend, t: Backend, b: Body, outcome: Client.Outcome)
    requires Answers(s, t, b, outcome) && !Client.Retryable(outcome)
    ensures Delivered(s, t, b)
    ensures outcome.Accepted? <==> exists i :: Ended(s, t, b, i, Accepted) && outcome == AsOutcome(Accepted)
  {
    var i, status :| Ended(s, t, b, i, status) && outcome == AsOutcome(status);
    assert status.Accepted? || Refused(status);
  }

  /**
   * Acceptance means the record is that of one clean attempt; a refusal means
   * the update was illegal and nothing changed; and giving up after the last
   * retry means either nothing changed or one clean attempt's worth did.
   */
  lemma VerdictIsTruthful(
      s: Backend, steps: seq<Step>, b: Body,
      script: nat -> Client.Outcome, maxRetries: nat, posts: nat, ok: bool)
    requires Inv(s) && IdleAt(s, MissionOf(b)) && Runs(s, steps) && ArrivalsAre(steps, MissionOf(b), b)
    requires ClientStopped(script, maxRetries, posts, ok)
    requires forall k | 0 <= k < posts :: Answers(s, After(s, steps), b, script(k))
    ensures var m := MissionOf(b);
            var base, stored := Lookup(s.missions, m), Lookup(After(s, steps).missions, m);
            && (ok ==> Accepts(base, b) && Settled(base, b, stored))
            && (!ok && posts <= maxRetries ==> !Accepts(base, b) && stored == base)
            && (!ok ==> stored == base || (Accepts(base, b) && Settled(base, b, stored)))
  {
    var t := After(s, steps);
    RetriesActAsOneAttempt(s, steps, b);
    var last := script(posts - 1);
    assert Answers(s, t, b, last);
    if !Client.Retryable(last) {
      DefiniteAnswerDelivers(s, t, b, last);
      var i, status :| Ended(s, t, b, i, status) && last == AsOutcome(status);
    }
  }

  /** Of the route's answers the client repeats exactly those that a failed storage call gave. */
  lemma OnlyOutagesAreRetried(status: Status)
    ensures Client.Retryable(AsOutcome(status)) <==> status in {Unavailable, ServerError}
    ensures AsOutcome(status).Accepted? <==> status == Accepted
    ensures status == Conflict ==> AsOutcome(status) == Client.HttpError(409)
    ensures status == Unprocessable ==> AsOutcome(status) == Client.HttpError(422)
  {
  }
}
