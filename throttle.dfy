/** The adaptive back-pressure of the elasticsearch plugin's `queue()`: one shared
    `queue_sleep_time`, raised by a fixed step whenever an enqueue finds its queue over
    `max_queue_size` and lowered by the same step, never below zero, otherwise. */
module Throttle {

  /** The step, in milliseconds, by which `queue_sleep_time` moves. */
  const Step: nat := 10

  /** The new `queue_sleep_time` after one enqueue; `overloaded` says whether that enqueue
      found its queue holding more than `max_queue_size` entries. */
  function NextSleepTime(sleepTime: int, overloaded: bool): (r: int)
    ensures overloaded ==> r > sleepTime
    ensures sleepTime >= 0 ==> r >= 0
    ensures !overloaded && sleepTime > 0 ==> r < sleepTime
    ensures !overloaded && sleepTime <= Step ==> r == 0
  {
    if overloaded then sleepTime + Step
    else if sleepTime - Step < 0 then 0
    else sleepTime - Step
  }

  /** The delay, in milliseconds, that enqueue sleeps before appending: the raised
      `queue_sleep_time` when the queue is over its limit, and none otherwise. */
  function Delay(sleepTime: int, overloaded: bool): (d: int)
    ensures !overloaded ==> d == 0
    ensures overloaded ==> d == NextSleepTime(sleepTime, overloaded) && d > sleepTime
  {
    if overloaded then NextSleepTime(sleepTime, overloaded) else 0
  }

  /** `queue_sleep_time` after a run of enqueues; `overloaded[i]` says whether the i-th found
      its queue over the limit. */
  function SleepTimeAfter(sleepTime: int, overloaded: seq<bool>): int
    decreases |overloaded|
  {
    if |overloaded| == 0 then sleepTime
    else SleepTimeAfter(NextSleepTime(sleepTime, overloaded[0]), overloaded[1..])
  }

  /** `queue_sleep_time` never goes negative, whatever the sequence of enqueues. */
  lemma {:induction false} SleepTimeNeverNegative(sleepTime: int, overloaded: seq<bool>)
    requires sleepTime >= 0
    ensures SleepTimeAfter(sleepTime, overloaded) >= 0
    decreases |overloaded|
  {
    if |overloaded| > 0 {
      SleepTimeNeverNegative(NextSleepTime(sleepTime, overloaded[0]), overloaded[1..]);
    }
  }

  /** Sustained overload: k enqueues that all find their queue over the limit raise the
      sleep time by exactly k steps. */
  lemma {:induction false} SustainedOverload(sleepTime: int, k: nat)
    ensures SleepTimeAfter(sleepTime, seq(k, _ => true)) == sleepTime + k * Step
    decreases k
  {
    if k > 0 {
      var s := seq(k, _ => true);
      assert s[1..] == seq(k - 1, _ => true);
      SustainedOverload(sleepTime + Step, k - 1);
    }
  }

  /** Recovery: k enqueues under the limit lower the sleep time by k steps, floored at zero;
      so after at least sleepTime / 10 of them (rounded up) the added delay is gone. */
  lemma {:induction false} Recovery(sleepTime: int, k: nat)
    requires sleepTime >= 0
    ensures SleepTimeAfter(sleepTime, seq(k, _ => false)) == if sleepTime - k * Step < 0 then 0 else sleepTime - k * Step
    decreases k
  {
    if k > 0 {
      var s := seq(k, _ => false);
      assert s[1..] == seq(k - 1, _ => false);
      Recovery(NextSleepTime(sleepTime, false), k - 1);
    }
  }

  /** The sleep time is bounded by one step per overloaded enqueue. */
  lemma {:induction false} SleepTimeBound(sleepTime: int, overloaded: seq<bool>)
    requires sleepTime >= 0
    ensures SleepTimeAfter(sleepTime, overloaded) <= sleepTime + Step * multiset(overloaded)[true]
    decreases |overloaded|
  {
    if |overloaded| > 0 {
      var next := NextSleepTime(sleepTime, overloaded[0]);
      SleepTimeBound(next, overloaded[1..]);
      assert overloaded == [overloaded[0]] + overloaded[1..];
      assert multiset(overloaded) == multiset([overloaded[0]]) + multiset(overloaded[1..]);
    }
  }
}
