# Retry and backoff engine of the CoinMarketCap price tracker

This project models the retry/backoff core of `bitcoin_price_fetcher.py`, a
Python tracker that polls the CoinMarketCap quotes endpoint for one symbol and
logs the price, pausing a jittered fixed interval between polls. It models three pieces and proves
properties of each:

- `exponential_backoff`, modelled by the function `Backoff.ExponentialBackoff`
  (`backoff.dfy`), with the capped curve `Backoff.Base`. The delay before a
  retry is built on `base = min(factor ** attempt, max_backoff)`, computed on
  unbounded integers. In `"full"` jitter mode the delay is a uniform draw in `[0, base]`.
  In every other mode it is `min(base + random(), max_backoff)`. That includes
  `"random"`, any unknown string and a different capitalisation of `"full"`.
  The random number is an injected parameter `r`. CPython computes
  `uniform(0, base)` as `base * random()`, so one draw `r` in [0, 1) covers
  both modes. The full-mode lemmas also accept `r = 1`, the endpoint that
  floating-point rounding can reach.
- `fetch_price` (module `Fetcher`, `fetcher.dfy`). This is a `for attempt in
  range(1, max_retries + 1)` loop. The method `FetchPrice` is a `while` loop
  with the same branches. Each `session.get` call, together with
  `raise_for_status`, the JSON parse and the `data.SYM.quote.CUR.price`
  lookup, becomes one `Outcome`. The outcome is tagged by the `except` branch
  that would handle it:
  - `HttpError(status)`, for a 4xx or 5xx status, which `raise_for_status` rejects;
  - `Network`, for `Timeout` or another `RequestException`;
  - `PriceMissing`;
  - `BadValue`, for `ValueError`;
  - `Unexpected`, for any other exception;
  - `Ok(price)`.

  The outcome of attempt `k` is `respond(k)`, and the random draw of the
  backoff after attempt `k` is `draws(k)`. The method returns three things:
  the `Optional[float]` result, the number of `session.get` calls, and the
  list of `time.sleep` arguments in order. The recursive function `Run` is the
  specification of the loop. `FetchPrice` is proved equal to `Run`, and the
  lemmas characterise `Run` fully:
  - how many calls it makes;
  - which outcomes stop it early;
  - which outcomes cause a sleep, and how long each sleep is;
  - when the result is a price;
  - that later outcomes are never consulted.
- The inter-tick pause `max(1, interval + uniform(-0.5, 0.5))` of
  `track_prices` (module `Tick`, `tick.dfy`), with the jitter injected.

The model follows the code as written:

- Every HTTP error is retried, 401 and 404 included: `except HTTPError` backs
  off whatever the status (`UnauthorizedIsRetried`).
- After the last attempt fails with an HTTP or network error, the code still
  sleeps once more before it returns `None` (`ExhaustedBudget`).
- A malformed payload (`PriceMissing`, `BadValue`) or an unexpected exception
  returns `None` at once. It spends no further attempts and no sleep.
- The tracking loop keeps no deadline. It pauses for a jittered fixed
  interval after each tick, so fetch time adds to the period
  (`TotalSleepBounds`).
- Python integers do not overflow, so `factor ** attempt` is exact. The model
  keeps exact integers. The cap alone bounds the delay. The base saturates at
  `max_backoff` once `factor ** attempt` reaches it, and with additive jitter
  so does the delay (`AdditiveDelaySaturates`). In `"full"` mode a saturated
  delay is still a draw in `[0, max_backoff]`.
- `max_retries` is an unconstrained integer field. When it is 0 or negative
  the range is empty, and the call makes no request and returns `None`.

## Model

| member | source | states |
|---|---|---|
| `Backoff.Base` | bitcoin_price_fetcher.py:118 | the base never exceeds `max_backoff` or `factor ** attempt`, and equals one of them |
| `Backoff.PowMonotone` | bitcoin_price_fetcher.py:118 | with `factor >= 1`, `factor ** m <= factor ** n` whenever `m <= n` |
| `Backoff.BaseNonNegative` | bitcoin_price_fetcher.py:118 | with `factor >= 1` and `max_backoff >= 0`, the base lies in `[0, max_backoff]` |
| `Backoff.BaseMonotone` | bitcoin_price_fetcher.py:118 | with `factor >= 1`, the base is non-decreasing in the attempt number |
| `Backoff.BaseStaysSaturated` | bitcoin_price_fetcher.py:118 | once `factor ** a >= max_backoff`, the base equals `max_backoff` at attempt `a` and at every later attempt |
| `Backoff.BaseEventuallySaturates` | bitcoin_price_fetcher.py:118 | with `factor >= 2`, the base equals `max_backoff` from attempt `max_backoff` on |
| `Backoff.FullJitterBounds` | bitcoin_price_fetcher.py:119-120 | in `"full"` mode the delay lies in `[0, base]`, and so in `[0, max_backoff]` |
| `Backoff.AdditiveJitterBounds` | bitcoin_price_fetcher.py:121 | in every mode other than `"full"` the delay is `base + r` or the cap, lies in `[base, max_backoff]`, and is less than `base + 1` |
| `Backoff.DelayWithinCap` | bitcoin_price_fetcher.py:112-121 | in every mode, the delay lies in `[0, max_backoff]` |
| `Backoff.AdditiveDelayMonotone` | bitcoin_price_fetcher.py:118-121 | with additive jitter and the same draw, a later attempt never waits less |
| `Backoff.AdditiveDelaySaturates` | bitcoin_price_fetcher.py:118-121 | with additive jitter, once `factor ** a >= max_backoff` every later delay is exactly `max_backoff` |
| `Fetcher.FetchPrice` | bitcoin_price_fetcher.py:146-222 | the loop's result, its number of `session.get` calls and its sleeps are exactly those of the specification `Run` from attempt 1 |
| `Fetcher.RunCalls` | bitcoin_price_fetcher.py:159-222 | at most `max_retries` calls, none only when the budget is empty, every call but the last met an HTTP or network error, and a stop before the budget is spent happens only on a non-retryable outcome |
| `Fetcher.RunWaits` | bitcoin_price_fetcher.py:190-211 | exactly one sleep after each call that met an HTTP or network error, the last call included, and none after the others; the i-th sleep is `exponential_backoff(i + 1, ...)` with that attempt's draw |
| `Fetcher.RunResult` | bitcoin_price_fetcher.py:181-222 | the result is a price exactly when the last call found one, and it is that call's price; otherwise it is `None` |
| `Fetcher.RunIgnoresLaterAttempts` | bitcoin_price_fetcher.py:159-222 | outcomes and draws after the last call made do not affect the trace: no attempt follows a stopping outcome |
| `Fetcher.FirstFinalOutcomeEndsFetch` | bitcoin_price_fetcher.py:181-219 | if attempts `1..k-1` are retried and attempt `k <= max_retries` is not, the call makes exactly `k` requests and `k - 1` sleeps, and returns attempt `k`'s price or `None` |
| `Fetcher.ExhaustedBudget` | bitcoin_price_fetcher.py:190-222 | if every attempt in the budget is retried, the call makes `max_retries` requests and `max_retries` sleeps, and returns `None` |
| `Fetcher.WaitsWithinCap` | bitcoin_price_fetcher.py:194-211 | every sleep of a call lies in `[0, max_backoff]` |
| `Fetcher.DefaultsTotalBackoff` | bitcoin_price_fetcher.py:43-48 | with the default configuration, one call sleeps less than 67 seconds in all |
| `Fetcher.RecoversOnThirdAttempt` | bitcoin_price_fetcher.py:159-201 | with two 503 responses followed by a price and three retries allowed, the call returns the price after 3 requests and 2 sleeps of 2 to 3 s and 4 to 5 s |
| `Fetcher.UnauthorizedIsRetried` | bitcoin_price_fetcher.py:190-201 | a 401 on every attempt is retried under the defaults: 5 requests, 5 sleeps, `None` |
| `Fetcher.MissingPriceStopsAtOnce` | bitcoin_price_fetcher.py:181-183 | a missing price after one network error ends the call at the second request, after one sleep, with `None` |
| `Tick.TickSleep` | bitcoin_price_fetcher.py:261 | the pause is at least 1 second and at least `interval + j`, and equals one of them |
| `Tick.TickSleepNearInterval` | bitcoin_price_fetcher.py:261 | for `interval >= 2` and `j` in `[-0.5, 0.5]`, the pause is `interval + j`, within half a second of the interval |
| `Tick.TickSleepShortInterval` | bitcoin_price_fetcher.py:261 | a 1-second interval pauses between 1 and 1.5 s; a non-positive interval pauses exactly 1 s |
| `Tick.TotalSleepBounds` | bitcoin_price_fetcher.py:252-262 | over n ticks the loop pauses at least n seconds, and for `interval >= 2` between `n * (interval - 0.5)` and `n * (interval + 0.5)` seconds |

## Left out

- `create_session` and the `Retry`/`HTTPAdapter` it mounts are left out. Each
  `session.get` is one opaque call, and the adapter's hidden transport-level
  retries sit inside that call.
- The HTTP request, `raise_for_status`, `response.json()` and the `.get` chain
  are collapsed into the `Outcome` tag. Which handler a foreign exception
  reaches depends on the `requests` version. For example, a JSON decode error
  that subclasses `RequestException` is a `Network` outcome, not a
  `BadValue`; the caller of the model chooses the tag.
- `random.uniform`, `random.random`, `time.sleep` and `time.monotonic` are
  left out. The random values are parameters, the sleeps are recorded in the
  trace, and the timing log line is dropped.
- The `while running` loop of `track_prices`, its signal handlers and the
  session close are left out. `running` changes only from an asynchronous
  signal handler. Only the pause expression, and sums of it, are modelled.
- Logging (`ColorFormatter`, `setup_logging`), `load_config` with its
  `sys.exit`, `parse_arguments` and `main` are left out. They are I/O and
  library wrappers.
- Config fields unrelated to retries are left out: API key, URL, symbol
  defaults, request timeout and log settings.
- Python floats, `float(price)` and number formatting are left out. Prices and
  delays are exact reals.
- A negative `attempt` is not modelled; the attempt is a `nat`. The loop
  numbers attempts from 1, and in Python a negative exponent would give a
  float.
- Fetcher.FetchPrice: does not model a wait that Python rejects. There are
  two such cases. A negative wait, possible only with `max_backoff < 0` or
  `backoff_factor < 0`, makes `time.sleep` raise `ValueError`. A wait above
  about 9.2e9 s (2^63 ns) makes `time.sleep` raise `OverflowError`. So does a
  base beyond float range (about 1.8e308), because `base + random.random()` or
  `random.uniform(0, base)` cannot convert it. Each error is raised inside (or
  while computing the wait for) the `except` handler. No later handler
  catches it, so it propagates out of `fetch_price` and ends the process. The
  model (`FetchPrice` and `Run`) records the wait as an exact real and
  continues. Only the configuration defaults are ever built, and under them
  every wait lies in `[0, 60]` (`WaitsWithinCap`).
