/**
 The pause between two ticks of the tracking loop (`track_prices`).

 After each tick, whatever its outcome and however long it took, the loop
 sleeps `max(1, interval + j)` seconds, where `j` is the value of
 `random.uniform(-0.5, 0.5)`, injected here. There is no deadline: the pause
 does not depend on the duration of the fetch.
 */
module Tick {

  /** The argument of the inter-tick `time.sleep`. */
  function TickSleep(interval: int, jitter: real): (s: real)
    ensures s >= 1.0 && s >= interval as real + jitter
    ensures s == 1.0 || s == interval as real + jitter
  {
    if interval as real + jitter > 1.0 then interval as real + jitter else 1.0
  }

  /** From an interval of two seconds on, the floor never applies: the pause is the interval within half a second. */
  lemma TickSleepNearInterval(interval: int, jitter: real)
    requires interval >= 2 && -0.5 <= jitter <= 0.5
    ensures TickSleep(interval, jitter) == interval as real + jitter
    ensures interval as real - 0.5 <= TickSleep(interval, jitter) <= interval as real + 0.5
  {
  }

  /** With a one-second interval the pause lies in [1, 1.5]; a non-positive interval always gives one second. */
  lemma TickSleepShortInterval(interval: int, jitter: real)
    requires interval <= 1 && -0.5 <= jitter <= 0.5
    ensures interval == 1 ==> 1.0 <= TickSleep(interval, jitter) <= 1.5
    ensures interval <= 0 ==> TickSleep(interval, jitter) == 1.0
  {
  }

  /** The time spent pausing over a run of ticks that drew the jitters `js`. */
  function TotalSleep(interval: int, js: seq<real>): real
  {
    if js == [] then 0.0 else TotalSleep(interval, js[..|js| - 1]) + TickSleep(interval, js[|js| - 1])
  }

  /**
   Over n ticks the loop pauses at least n seconds, and for an interval of two
   seconds or more between n * (interval - 0.5) and n * (interval + 0.5):
   the fetch times come on top, so the schedule drifts.
   */
  lemma {:induction false} TotalSleepBounds(interval: int, js: seq<real>)
    requires forall k :: 0 <= k < |js| ==> -0.5 <= js[k] <= 0.5
    ensures TotalSleep(interval, js) >= |js| as real
    ensures interval >= 2 ==>
      |js| as real * (interval as real - 0.5) <= TotalSleep(interval, js) <= |js| as real * (interval as real + 0.5)
  {
    if js != [] {
      var n := |js| - 1;
      TotalSleepBounds(interval, js[..n]);
      var sum, pause := TotalSleep(interval, js[..n]), TickSleep(interval, js[n]);
      assert TotalSleep(interval, js) == sum + pause;
      var m, i := n as real, interval as real;
      assert |js| as real == m + 1.0;
      if interval >= 2 {
        TickSleepNearInterval(interval, js[n]);
        assert (m + 1.0) * (i - 0.5) == m * (i - 0.5) + (i - 0.5);
        assert (m + 1.0) * (i + 0.5) == m * (i + 0.5) + (i + 0.5);
      }
    }
  }
}
