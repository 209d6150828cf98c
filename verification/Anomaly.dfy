/**
 The minute-bucket counter and the spike detector (anomaly/): buckets keyed by text against the log of
 events they summarise. Times are non-negative Unix times in nanoseconds; counts are unbounded.
 */
module Anomaly {
  import opened Common
  import opened Text

  const MINUTE := 60 * NANOS_PER_SECOND

  function MinuteOf(at: nat): nat {
    at / MINUTE
  }

  /** The bucket key of a metric and a minute. */
  function MinuteKey(metric: string, minute: nat): string {
    metric + ":" + Digits(minute)
  }

  datatype Event = Event(metric: string, at: nat, delta: int)

  /** The deltas of the metric's events whose minute lies in [a, b). */
  function Sum(log: seq<Event>, metric: string, a: int, b: int): (total: int) {
    if log == [] then 0 else
      var e := log[|log| - 1];
      Sum(log[..|log| - 1], metric, a, b) + if e.metric == metric && a <= MinuteOf(e.at) < b then e.delta else 0
  }

  function Bucket(buckets: map<string, int>, key: string): int {
    if key in buckets then buckets[key] else 0
  }

  /** Every bucket holds the sum of its metric's events in its minute. */
  ghost predicate Indexes(buckets: map<string, int>, log: seq<Event>) {
    forall metric: string, minute: nat ::
      Bucket(buckets, MinuteKey(metric, minute)) == Sum(log, metric, minute, minute + 1)
  }

  class MemoryCounter {
    var buckets: map<string, int>
    ghost var log: seq<Event>

    ghost predicate Valid()
      reads this
    {
      Indexes(buckets, log)
    }

    constructor ()
      ensures Valid() && log == []
    {
      buckets, log := map[], [];
    }

    method Increment(metric: string, at: nat, delta: int)
      requires Valid()
      modifies this
      ensures Valid() && log == old(log) + [Event(metric, at, delta)]
    {
      var key := MinuteKey(metric, MinuteOf(at - at % MINUTE));
      buckets := buckets[key := Bucket(buckets, key) + delta];
      log := log + [Event(metric, at, delta)];
      assert MinuteOf(at - at % MINUTE) == MinuteOf(at);
      IncrementKeepsIndex(old(buckets), old(log), metric, at, delta);
    }

    /** The sum over the metric's events whose minute starts in [floor(from), to). */
    method CountInWindow(metric: string, from: nat, to: int) returns (total: int)
      requires Valid()
      ensures total == Sum(log, metric, MinuteOf(from), FirstMinuteAt(to))
      ensures total == SumBetween(log, metric, from - from % MINUTE, RoundUp(to))
    {
      total := 0;
      var minute := MinuteOf(from);
      EmptyRange(log, metric, minute, minute);
      while minute * MINUTE < to
        invariant MinuteOf(from) <= minute
        invariant minute == MinuteOf(from) || minute <= FirstMinuteAt(to)
        invariant total == Sum(log, metric, MinuteOf(from), minute)
        decreases FirstMinuteAt(to) - minute
      {
        total := total + Bucket(buckets, MinuteKey(metric, minute));
        Adjacent(log, metric, MinuteOf(from), minute, minute + 1);
        minute := minute + 1;
      }
      if FirstMinuteAt(to) < minute {
        EmptyRange(log, metric, MinuteOf(from), FirstMinuteAt(to));
      }
      CountIsBetween(log, metric, from, to);
    }
  }

  /** The deltas of the metric's events from one time up to another. */
  function SumBetween(log: seq<Event>, metric: string, from: int, to: int): (total: int) {
    if log == [] then 0 else
      var e := log[|log| - 1];
      SumBetween(log[..|log| - 1], metric, from, to) + if e.metric == metric && from <= e.at < to then e.delta else 0
  }

  /** The end of the minute under way, or the time itself at a minute's start. */
  function RoundUp(to: int): int {
    if to % MINUTE == 0 then to else to - to % MINUTE + MINUTE
  }

  /** Minutes are stretches of sixty seconds. */
  lemma {:induction false} SumIsBetween(log: seq<Event>, metric: string, a: int, b: int)
    ensures Sum(log, metric, a, b) == SumBetween(log, metric, a * MINUTE, b * MINUTE)
  {
    if log != [] {
      SumIsBetween(log[..|log| - 1], metric, a, b);
    }
  }

  lemma RoundedMinutes(from: nat, to: int)
    ensures MinuteOf(from) * MINUTE == from - from % MINUTE && FirstMinuteAt(to) * MINUTE == RoundUp(to)
  {
  }

  lemma CountIsBetween(log: seq<Event>, metric: string, from: nat, to: int)
    ensures Sum(log, metric, MinuteOf(from), FirstMinuteAt(to))
            == SumBetween(log, metric, from - from % MINUTE, RoundUp(to))
  {
    RoundedMinutes(from, to);
    SumIsBetween(log, metric, MinuteOf(from), FirstMinuteAt(to));
  }

  /** The first minute that starts at or after a time. */
  function FirstMinuteAt(to: int): int {
    (to + MINUTE - 1) / MINUTE
  }

  lemma {:induction false} EmptyRange(log: seq<Event>, metric: string, a: int, b: int)
    requires b <= a
    ensures Sum(log, metric, a, b) == 0
  {
    if log != [] {
      EmptyRange(log[..|log| - 1], metric, a, b);
    }
  }

  /** Counting is additive at minute boundaries. */
  lemma {:induction false} Adjacent(log: seq<Event>, metric: string, a: int, b: int, c: int)
    requires a <= b <= c
    ensures Sum(log, metric, a, b) + Sum(log, metric, b, c) == Sum(log, metric, a, c)
  {
    if log != [] {
      Adjacent(log[..|log| - 1], metric, a, b, c);
    }
  }

  lemma LastSep(a: string, d: string)
    requires forall i :: 0 <= i < |d| ==> IsDigit(d[i])
    ensures var s := a + ":" + d;
            && s[|a|] == ':' && s[..|a|] == a && s[|a| + 1..] == d
            && forall i :: |a| < i < |s| ==> s[i] != ':'
  {
  }

  /** A bucket key gives back its metric and minute, whatever the metric's name. */
  lemma MinuteKeyInjective(a: string, m: nat, b: string, n: nat)
    requires MinuteKey(a, m) == MinuteKey(b, n)
    ensures a == b && m == n
  {
    LastSep(a, Digits(m));
    LastSep(b, Digits(n));
    assert |a| == |b|;
    DigitsReadBack(m);
    DigitsReadBack(n);
  }

  lemma IncrementKeepsIndex(buckets: map<string, int>, log: seq<Event>, metric: string, at: nat, delta: int)
    requires Indexes(buckets, log)
    ensures var key := MinuteKey(metric, MinuteOf(at));
            Indexes(buckets[key := Bucket(buckets, key) + delta], log + [Event(metric, at, delta)])
  {
    var key, log' := MinuteKey(metric, MinuteOf(at)), log + [Event(metric, at, delta)];
    var buckets' := buckets[key := Bucket(buckets, key) + delta];
    assert log'[..|log|] == log;
    forall q: string, minute: nat
      ensures Bucket(buckets', MinuteKey(q, minute)) == Sum(log', q, minute, minute + 1)
    {
      assert Bucket(buckets, MinuteKey(q, minute)) == Sum(log, q, minute, minute + 1);
      if MinuteKey(q, minute) == key {
        MinuteKeyInjective(q, minute, metric, MinuteOf(at));
      }
    }
  }

  // ---------------------------------------------------------------------------------------
  // Spike detection
  // ---------------------------------------------------------------------------------------

  datatype Error = MetricRequired

  datatype Reading = Reading(spike: bool, current: real, baseline: real)

  /** Minutes looked back on; anything below one means an hour. */
  function Lookback(minutes: int): (n: int)
    ensures n >= 1
  {
    if minutes < 1 then 60 else minutes
  }

  function Judge(current: int, past: int, n: int, multiplier: real): Reading
    requires n >= 1
  {
    var rate, baseline := current as real, past as real / n as real;
    Reading(if baseline <= 0.0 then rate >= multiplier else rate >= baseline * multiplier, rate, baseline)
  }

  /**
   The rates, and the decision without division: the current count times the minutes against the past
   count scaled.
   */
  ghost predicate Reads(r: Reading, current: int, past: int, n: int, multiplier: real)
    requires n >= 1
  {
    && r.current == current as real && r.baseline * n as real == past as real
    && (r.spike <==>
          if past <= 0 then current as real >= multiplier
          else current as real * n as real >= past as real * multiplier)
  }

  lemma SpikeRule(current: int, past: int, n: int, multiplier: real)
    requires n >= 1
    ensures Reads(Judge(current, past, n, multiplier), current, past, n, multiplier)
  {
    var rate, b, k := current as real, past as real / n as real, n as real;
    assert b * k == past as real;
    assert past <= 0 <==> b <= 0.0;
    assert b * multiplier * k == past as real * multiplier by {
      assert b * multiplier * k == b * k * multiplier;
    }
    assert rate >= b * multiplier <==> rate * k >= b * multiplier * k;
  }

  class Detector {
    const counter: MemoryCounter
    const multiplier: real

    constructor (counter: MemoryCounter, multiplier: real)
      ensures this.counter == counter && this.multiplier == if multiplier <= 0.0 then 5.0 else multiplier
    {
      this.counter := counter;
      this.multiplier := if multiplier <= 0.0 then 5.0 else multiplier;
    }

    /**
     The current minute against the average of the minutes before it: the two windows are adjacent
     and share no event, and the decision is taken on the exact sums of the log.
     */
    method DetectSpike(metric: string, minutes: int, now: nat) returns (r: Result<Reading, Error>)
      requires counter.Valid() && Lookback(minutes) * MINUTE <= now
      ensures metric == "" <==> r == Failure(MetricRequired)
      ensures metric != "" ==>
                var n, start := if minutes < 1 then 60 else minutes, now - now % MINUTE;
                var current := SumBetween(counter.log, metric, start, start + MINUTE);
                var past := SumBetween(counter.log, metric, start - n * MINUTE, start);
                && r.Success? && Reads(r.value, current, past, n, multiplier)
                && current + past == SumBetween(counter.log, metric, start - n * MINUTE, start + MINUTE)
    {
      if metric == "" {
        return Failure(MetricRequired);
      }
      var n := Lookback(minutes);
      var start := now - now % MINUTE;
      MinuteBounds(now, n);
      var current := counter.CountInWindow(metric, start, start + MINUTE);
      var from := start - n * MINUTE;
      var past := counter.CountInWindow(metric, from, start);
      SpikeSums(counter.log, metric, now, n);
      assert current == SumBetween(counter.log, metric, start, start + MINUTE);
      assert past == SumBetween(counter.log, metric, from, start);
      SpikeRule(current, past, n, multiplier);
      return Success(Judge(current, past, n, multiplier));
    }
  }

  /** The two windows of a detection, in minutes and in time, are adjacent. */
  lemma SpikeSums(log: seq<Event>, metric: string, now: nat, n: int)
    requires 1 <= n && n * MINUTE <= now
    ensures var m, start := MinuteOf(now), now - now % MINUTE;
            && Sum(log, metric, m, m + 1) == SumBetween(log, metric, start, start + MINUTE)
            && Sum(log, metric, m - n, m) == SumBetween(log, metric, start - n * MINUTE, start)
            && SumBetween(log, metric, start, start + MINUTE) + SumBetween(log, metric, start - n * MINUTE, start)
               == SumBetween(log, metric, start - n * MINUTE, start + MINUTE)
  {
    var m := MinuteOf(now);
    RoundedMinutes(now, 0);
    assert (m - n) * MINUTE == m * MINUTE - n * MINUTE && (m + 1) * MINUTE == m * MINUTE + MINUTE;
    SumIsBetween(log, metric, m, m + 1);
    SumIsBetween(log, metric, m - n, m);
    SumIsBetween(log, metric, m - n, m + 1);
    Adjacent(log, metric, m - n, m, m + 1);
  }

  lemma MinuteBounds(now: nat, n: int)
    requires 1 <= n && n * MINUTE <= now
    ensures var m, start := MinuteOf(now), now - now % MINUTE;
            && 0 <= start && MinuteOf(start) == m && FirstMinuteAt(start) == m && FirstMinuteAt(start + MINUTE) == m + 1
            && 0 <= start - n * MINUTE && MinuteOf(start - n * MINUTE) == m - n
  {
    var m := MinuteOf(now);
    assert now - now % MINUTE == m * MINUTE && n <= m;
    assert m * MINUTE - n * MINUTE == (m - n) * MINUTE;
  }
}
