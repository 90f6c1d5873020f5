/** The delivery client's retry loop (collectors/observatory_collectors/client.py). */
module Client {
  import opened Wrappers

  /** What one POST came back with. */
  datatype Outcome = Accepted | HttpError(code: int) | ConnectionError

  predicate Retryable(o: Outcome) {
    match o
    case Accepted => false
    case HttpError(code) => code in {500, 502, 503, 504}
    case ConnectionError => true
  }

  /** The pause before retry `k + 1`: doubling from one second, capped at thirty. */
  function Delay(k: nat): Time {
    if k == 0 then 1.0
    else if 2.0 * Delay(k - 1) <= 30.0 then 2.0 * Delay(k - 1)
    else 30.0
  }

  function TotalDelay(retries: nat): Time {
    if retries == 0 then 0.0 else TotalDelay(retries - 1) + Delay(retries - 1)
  }

  function Pow2(n: nat): nat {
    if n == 0 then 1 else 2 * Pow2(n - 1)
  }

  /** Time slept in closed form: 2^n - 1 up to five retries, thirty seconds for each one more. */
  lemma {:induction false} TotalDelayClosedForm(n: nat)
    ensures TotalDelay(n) == if n <= 5 then (Pow2(n) - 1) as real else 31.0 + 30.0 * (n - 5) as real
    ensures Delay(n) == if n < 5 then Pow2(n) as real else 30.0
  {
    if n > 0 {
      TotalDelayClosedForm(n - 1);
      if n == 5 {
        assert Pow2(4) == 16 by {
          assert Pow2(3) == 8 by { assert Pow2(2) == 4; }
        }
      } else if n < 5 {
        assert Pow2(n) <= 16 by {
          assert Pow2(0) == 1 && Pow2(1) == 2 && Pow2(2) == 4;
          assert Pow2(3) == 8 && Pow2(4) == 16;
        }
      }
    }
  }

  class ObservatoryClient {
    const maxRetries: nat
    /** Deliveries given up on. */
    var failuresTotal: nat

    constructor (maxRetries: nat)
      ensures this.maxRetries == maxRetries && failuresTotal == 0
    {
      this.maxRetries := maxRetries;
      failuresTotal := 0;
    }

    /**
     * Posts one fixed body until it is accepted, refused for good, or the
     * attempts are used up; `script` says what each POST would come back with.
     */
    method SubmitEvent(script: nat -> Outcome) returns (ok: bool, posts: nat, slept: Time)
      modifies this
      ensures 1 <= posts <= maxRetries + 1
      ensures forall k | 0 <= k < posts - 1 :: Retryable(script(k))
      ensures ok <==> script(posts - 1).Accepted?
      ensures Retryable(script(posts - 1)) ==> posts == maxRetries + 1
      ensures forall k | 0 <= k < posts - 1 ::
                script(k).ConnectionError? || (script(k).HttpError? && script(k).code in {500, 502, 503, 504})
      ensures posts <= maxRetries ==>
                && !script(posts - 1).ConnectionError?
                && (script(posts - 1).HttpError? ==> script(posts - 1).code !in {500, 502, 503, 504})
      ensures failuresTotal == old(failuresTotal) + if ok then 0 else 1
      ensures slept == TotalDelay(posts - 1)
    {
      posts, slept := 0, 0.0;
      var delay := 1.0;
      var attempts := maxRetries + 1;
      for attempt := 1 to attempts + 1
        invariant posts == attempt - 1
        invariant forall k | 0 <= k < posts :: Retryable(script(k))
        invariant attempt > 1 ==> attempt <= attempts
        invariant failuresTotal == old(failuresTotal)
        invariant slept == TotalDelay(posts) && delay == Delay(posts)
      {
        var outcome := script(posts);
        posts := posts + 1;
        if outcome.Accepted? {
          return true, posts, slept;
        }
        if outcome.HttpError? {
          if !(outcome.code in {500, 502, 503, 504} && attempt < attempts) {
            failuresTotal := failuresTotal + 1;
            return false, posts, slept;
          }
        } else if attempt >= attempts {
          failuresTotal := failuresTotal + 1;
          return false, posts, slept;
        }
        slept := slept + delay;
        delay := if delay * 2.0 <= 30.0 then delay * 2.0 else 30.0;
      }
      assert false;
    }
  }
}
