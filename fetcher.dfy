/**
 The bounded retry loop of the price fetcher (`fetch_price`).

 One call of `session.get` followed by `raise_for_status`, the JSON parse and the
 lookup of `data.<SYMBOL>.quote.<CONVERT>.price` is collapsed into one `Outcome`,
 tagged by the `except` branch of the loop that would handle it. The outcome of
 the call made on attempt `k` is `respond(k)`; the random draw consumed by the
 backoff after a failed attempt `k` is `draws(k)`. What the loop does to the
 outside world is recorded in a `Trace`: the value returned, how many times
 `session.get` was called, and the arguments of the `time.sleep` calls in order.
 */
module Fetcher {
  import opened Backoff

  datatype Option<T> = None | Some(value: T)

  /** The retry-related fields of the frozen configuration record. */
  datatype Config = Config(maxRetries: int, backoffFactor: int, maxBackoff: int, jitterMode: string)

  /** The defaults of the configuration record. */
  const Defaults := Config(5, 2, 60, "random")

  /** What one attempt ends in, by the handler that would catch it. */
  datatype Outcome =
    | HttpError(status: int)  // raise_for_status rejected a 4xx or 5xx status
    | Network                 // Timeout or another RequestException
    | PriceMissing            // the lookup chain produced no price
    | BadValue                // a ValueError: `float` of a non-numeric price, or a body that `response.json()` rejects with a plain ValueError
    | Unexpected              // any other exception
    | Ok(price: real)         // a price was found

  /** The two handlers that back off and try again; all other outcomes end the call. */
  predicate Retryable(o: Outcome)
  {
    o.HttpError? || o.Network?
  }

  /** The observable effect of one call of `fetch_price`. */
  datatype Trace = Trace(result: Option<real>, calls: nat, waits: seq<real>)

  function Delay(cfg: Config, attempt: nat, r: real): real
  {
    ExponentialBackoff(attempt, cfg.backoffFactor, cfg.maxBackoff, cfg.jitterMode, r)
  }

  /** How many attempts remain from `attempt` on: the rest of `range(1, max_retries + 1)`. */
  function Budget(cfg: Config, attempt: nat): nat
  {
    if attempt <= cfg.maxRetries then cfg.maxRetries - attempt + 1 else 0
  }

  /** A trace whose first part has already happened. */
  function Prefixed(calls: nat, waits: seq<real>, rest: Trace): Trace
  {
    Trace(rest.result, calls + rest.calls, waits + rest.waits)
  }

  /** The loop of `fetch_price`, from the iteration numbered `attempt` on, as a recursive definition. */
  function Run(cfg: Config, respond: nat -> Outcome, draws: nat -> real, attempt: nat): Trace
    decreases Budget(cfg, attempt)
  {
    if attempt > cfg.maxRetries then
      Trace(None, 0, [])
    else
      var outcome := respond(attempt);
      if Retryable(outcome) then
        Prefixed(1, [Delay(cfg, attempt, draws(attempt))], Run(cfg, respond, draws, attempt + 1))
      else if outcome.Ok? then
        Trace(Some(outcome.price), 1, [])
      else
        Trace(None, 1, [])
  }

  /**
   `fetch_price`: at most `max_retries` calls, an early return on a price, a
   missing price, a ValueError or an unexpected exception, a backoff sleep after
   every HTTP or network error, and `None` once the range is used up.
   */
  method FetchPrice(cfg: Config, respond: nat -> Outcome, draws: nat -> real)
    returns (price: Option<real>, calls: nat, waits: seq<real>)
    ensures Trace(price, calls, waits) == Run(cfg, respond, draws, 1)
  {
    calls, waits := 0, [];
    var attempt: nat := 1;
    while attempt <= cfg.maxRetries
      invariant calls == attempt - 1
      invariant Run(cfg, respond, draws, 1) == Prefixed(calls, waits, Run(cfg, respond, draws, attempt))
      decreases cfg.maxRetries - attempt
    {
      ghost var before := waits;
      ghost var rest := Run(cfg, respond, draws, attempt + 1);
      var outcome := respond(attempt);
      calls := calls + 1;
      match outcome {
        case Ok(p) =>
          price := Some(p);
          assert before + [] == waits;
          return;
        case PriceMissing =>
          price := None;
          assert before + [] == waits;
          return;
        case HttpError(_) =>
          var wait := Delay(cfg, attempt, draws(attempt));
          waits := waits + [wait];
          assert before + ([wait] + rest.waits) == waits + rest.waits;
        case Network =>
          var wait := Delay(cfg, attempt, draws(attempt));
          waits := waits + [wait];
          assert before + ([wait] + rest.waits) == waits + rest.waits;
        case BadValue =>
          price := None;
          assert before + [] == waits;
          return;
        case Unexpected =>
          price := None;
          assert before + [] == waits;
          return;
      }
      attempt := attempt + 1;
    }
    price := None;
    assert waits + [] == waits;
  }

  /**
   The number of calls: never more than the remaining budget, none only when the
   budget is empty, every call but the last met a retryable outcome, and the loop
   stops before its budget is spent only on an outcome that is not retryable.
   */
  lemma {:induction false} RunCalls(cfg: Config, respond: nat -> Outcome, draws: nat -> real, a: nat)
    ensures var t := Run(cfg, respond, draws, a);
      && t.calls <= Budget(cfg, a)
      && (t.calls == 0 <==> Budget(cfg, a) == 0)
      && (forall i :: a <= i < a + t.calls - 1 ==> Retryable(respond(i)))
      && (t.calls < Budget(cfg, a) ==> !Retryable(respond(a + t.calls - 1)))
    decreases Budget(cfg, a)
  {
    if a <= cfg.maxRetries && Retryable(respond(a)) {
      RunCalls(cfg, respond, draws, a + 1);
    }
  }

  /**
   The sleeps: one after every call that met a retryable outcome (the last one
   included) and none otherwise; the i-th sleep is the backoff for attempt a + i.
   */
  lemma {:induction false} RunWaits(cfg: Config, respond: nat -> Outcome, draws: nat -> real, a: nat)
    ensures var t := Run(cfg, respond, draws, a);
      && |t.waits| <= t.calls
      && (t.calls > 0 ==> |t.waits| >= t.calls - 1)
      && (t.calls > 0 ==> (|t.waits| == t.calls <==> Retryable(respond(a + t.calls - 1))))
      && (forall i :: 0 <= i < |t.waits| ==> t.waits[i] == Delay(cfg, a + i, draws(a + i)))
    decreases Budget(cfg, a)
  {
    if a <= cfg.maxRetries && Retryable(respond(a)) {
      RunWaits(cfg, respond, draws, a + 1);
      var rest := Run(cfg, respond, draws, a + 1);
      var t := Run(cfg, respond, draws, a);
      assert t.waits == [Delay(cfg, a, draws(a))] + rest.waits;
      forall i | 0 <= i < |t.waits|
        ensures t.waits[i] == Delay(cfg, a + i, draws(a + i))
      {
        if i > 0 {
          assert t.waits[i] == rest.waits[i - 1];
        }
      }
    }
  }

  /** The result is a value exactly when the last call found a price, and then it is that price. */
  lemma {:induction false} RunResult(cfg: Config, respond: nat -> Outcome, draws: nat -> real, a: nat)
    ensures var t := Run(cfg, respond, draws, a);
      && (t.result.Some? <==> t.calls > 0 && respond(a + t.calls - 1).Ok?)
      && (t.result.Some? ==> t.result.value == respond(a + t.calls - 1).price)
    decreases Budget(cfg, a)
  {
    if a <= cfg.maxRetries && Retryable(respond(a)) {
      RunResult(cfg, respond, draws, a + 1);
    }
  }

  /**
   Nothing after the last call is consulted: two worlds that agree on the outcomes
   of the calls made and on the draws of the sleeps taken give the same trace.
   */
  lemma {:induction false} RunIgnoresLaterAttempts(cfg: Config, respond: nat -> Outcome, respond': nat -> Outcome,
                                                  draws: nat -> real, draws': nat -> real, a: nat)
    requires forall i :: a <= i < a + Run(cfg, respond, draws, a).calls ==> respond'(i) == respond(i)
    requires forall i :: a <= i < a + |Run(cfg, respond, draws, a).waits| ==> draws'(i) == draws(i)
    ensures Run(cfg, respond', draws', a) == Run(cfg, respond, draws, a)
    decreases Budget(cfg, a)
  {
    if a <= cfg.maxRetries {
      assert respond'(a) == respond(a);
      if Retryable(respond(a)) {
        assert draws'(a) == draws(a);
        RunIgnoresLaterAttempts(cfg, respond, respond', draws, draws', a + 1);
      }
    }
  }

  /**
   If attempts 1 .. k-1 meet retryable outcomes and attempt k (within the budget)
   does not, the call makes exactly k requests and k-1 sleeps, and returns the
   price of attempt k if it has one and None otherwise.
   */
  lemma FirstFinalOutcomeEndsFetch(cfg: Config, respond: nat -> Outcome, draws: nat -> real, k: nat)
    requires 1 <= k <= cfg.maxRetries
    requires forall i :: 1 <= i < k ==> Retryable(respond(i))
    requires !Retryable(respond(k))
    ensures var t := Run(cfg, respond, draws, 1);
      && t.calls == k && |t.waits| == k - 1
      && t.result == if respond(k).Ok? then Some(respond(k).price) else None
  {
    var t := Run(cfg, respond, draws, 1);
    RunCalls(cfg, respond, draws, 1);
    RunWaits(cfg, respond, draws, 1);
    RunResult(cfg, respond, draws, 1);
    if t.calls < k {
      assert false;
    } else if t.calls > k {
      assert false;
    }
  }

  /**
   If every attempt within the budget meets a retryable outcome, the call makes
   `max_retries` requests, sleeps after each of them (the last one included) and returns None.
   */
  lemma ExhaustedBudget(cfg: Config, respond: nat -> Outcome, draws: nat -> real)
    requires forall i :: 1 <= i <= cfg.maxRetries ==> Retryable(respond(i))
    ensures var t := Run(cfg, respond, draws, 1);
      && t.calls == Budget(cfg, 1) && |t.waits| == t.calls && t.result == None
  {
    var t := Run(cfg, respond, draws, 1);
    RunCalls(cfg, respond, draws, 1);
    RunWaits(cfg, respond, draws, 1);
    RunResult(cfg, respond, draws, 1);
    if t.calls > 0 {
      assert Retryable(respond(t.calls));
    }
  }

  /** With a factor of at least one and a non-negative cap, every sleep lies in [0, max_backoff]. */
  lemma WaitsWithinCap(cfg: Config, respond: nat -> Outcome, draws: nat -> real)
    requires cfg.backoffFactor >= 1 && cfg.maxBackoff >= 0
    requires forall k :: 0.0 <= draws(k) < 1.0
    ensures var t := Run(cfg, respond, draws, 1);
      forall i :: 0 <= i < |t.waits| ==> 0.0 <= t.waits[i] <= cfg.maxBackoff as real
  {
    var t := Run(cfg, respond, draws, 1);
    RunWaits(cfg, respond, draws, 1);
    forall i | 0 <= i < |t.waits|
      ensures 0.0 <= t.waits[i] <= cfg.maxBackoff as real
    {
      DelayWithinCap(1 + i, cfg.backoffFactor, cfg.maxBackoff, cfg.jitterMode, draws(1 + i));
    }
  }

  /** The time spent sleeping, in seconds. */
  function TotalWait(waits: seq<real>): real
  {
    if waits == [] then 0.0 else TotalWait(waits[..|waits| - 1]) + waits[|waits| - 1]
  }

  /** Sleeps bounded by 2^(i+1) + 1 add up to less than 2^(n+1) - 2 + n. */
  lemma {:induction false} DoublingWaits(waits: seq<real>)
    requires forall i :: 0 <= i < |waits| ==> waits[i] < Pow(2, i + 1) as real + 1.0
    ensures TotalWait(waits) <= (Pow(2, |waits| + 1) - 2 + |waits|) as real
    ensures waits != [] ==> TotalWait(waits) < (Pow(2, |waits| + 1) - 2 + |waits|) as real
  {
    if waits != [] {
      var n := |waits| - 1;
      DoublingWaits(waits[..n]);
      assert Pow(2, n + 2) == 2 * Pow(2, n + 1);
    }
  }

  /**
   With the default configuration (five attempts, factor 2, cap 60, additive
   jitter) one call of `fetch_price` sleeps less than 67 seconds in all.
   */
  lemma DefaultsTotalBackoff(respond: nat -> Outcome, draws: nat -> real)
    requires forall k :: 0.0 <= draws(k) < 1.0
    ensures TotalWait(Run(Defaults, respond, draws, 1).waits) < 67.0
  {
    var t := Run(Defaults, respond, draws, 1);
    RunCalls(Defaults, respond, draws, 1);
    RunWaits(Defaults, respond, draws, 1);
    forall i | 0 <= i < |t.waits|
      ensures t.waits[i] < Pow(2, i + 1) as real + 1.0
    {
      AdditiveJitterBounds(1 + i, 2, 60, "random", draws(1 + i));
    }
    DoublingWaits(t.waits);
    PowMonotone(2, |t.waits| + 1, 6);
    assert Pow(2, 6) == 64;
  }

  /**
   Two 503 responses and then a price, with three retries allowed: three
   requests, two sleeps of 2..3 s and 4..5 s (factor 2, additive jitter), and the price.
   */
  lemma RecoversOnThirdAttempt(draws: nat -> real)
    requires forall k :: 0.0 <= draws(k) < 1.0
    ensures var cfg := Config(3, 2, 60, "random");
      var t := Run(cfg, k => if k <= 2 then HttpError(503) else Ok(67000.0), draws, 1);
      && t.result == Some(67000.0) && t.calls == 3 && |t.waits| == 2
      && 2.0 <= t.waits[0] < 3.0 && 4.0 <= t.waits[1] < 5.0
  {
    var cfg := Config(3, 2, 60, "random");
    var respond: nat -> Outcome := k => if k <= 2 then HttpError(503) else Ok(67000.0);
    FirstFinalOutcomeEndsFetch(cfg, respond, draws, 3);
    RunWaits(cfg, respond, draws, 1);
    AdditiveJitterBounds(1, 2, 60, "random", draws(1));
    AdditiveJitterBounds(2, 2, 60, "random", draws(2));
  }

  /**
   Every rejected status is retried, 401 included: with the defaults, a server
   that always answers 401 costs five requests and five sleeps, and yields None.
   */
  lemma UnauthorizedIsRetried(draws: nat -> real)
    ensures var t := Run(Defaults, k => HttpError(401), draws, 1);
      t.calls == 5 && |t.waits| == 5 && t.result == None
  {
    ExhaustedBudget(Defaults, k => HttpError(401), draws);
  }

  /** A missing price after one network error ends the call at the second request, after one sleep. */
  lemma MissingPriceStopsAtOnce(draws: nat -> real)
    ensures var t := Run(Defaults, k => if k == 1 then Network else PriceMissing, draws, 1);
      t.calls == 2 && |t.waits| == 1 && t.result == None
  {
    FirstFinalOutcomeEndsFetch(Defaults, k => if k == 1 then Network else PriceMissing, draws, 2);
  }
}
