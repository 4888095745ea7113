/**
  The four worker loops: pacing, throttling, sampling and counting.  Time is in whole microseconds;
  a worker runs against a trace of what each turn of its loop met.
*/
module Workers {

  const SECOND := 1_000_000

  // ----- When a worker stops

  datatype Duration = Count(target: nat) | Until(end: nat)

  /** The part of the continuation check that does not depend on signals; `end` and `now` are compared in seconds. */
  predicate Lasts(d: Duration, count: nat, now: nat) {
    match d
    case Count(target) => count < target
    case Until(end) => now / SECOND <= end / SECOND
  }

  lemma LastsMeans(d: Duration, count: nat, now: nat)
    ensures d.Count? ==> (Lasts(d, count, now) <==> count < d.target)
    ensures d.Until? ==> (Lasts(d, count, now) <==> now / 1_000_000 <= d.end / 1_000_000)
  {
  }

  /** The whole seconds between two times. */
  function Elapsed(from: nat, to: nat): int { (to - from) / SECOND }

  // ----- Throughput samples

  datatype Sample = Sample(from: nat, to: nat, count: nat)

  function Total(samples: seq<Sample>): nat {
    if samples == [] then 0 else Total(samples[..|samples| - 1]) + samples[|samples| - 1].count
  }

  /** The samples cover `start` to `last` without gap or overlap, each for at least `interval` seconds. */
  ghost predicate Tiles(samples: seq<Sample>, start: nat, last: nat, interval: nat) {
    && (samples == [] ==> last == start)
    && (samples != [] ==> samples[0].from == start && samples[|samples| - 1].to == last)
    && (forall i :: 0 <= i < |samples| ==> samples[i].from + interval * SECOND <= samples[i].to)
    && (forall i :: 0 < i < |samples| ==> samples[i - 1].to == samples[i].from)
  }

  /** The samples taken, the time of the last of them, and the count then. */
  datatype Sampler = Sampler(samples: seq<Sample>, lastTs: nat, lastCount: nat)

  /** A worker's samples tile its time, and account for all but the last `count - lastCount` messages. */
  ghost predicate Sampled(s: Sampler, start: nat, count: nat, interval: nat) {
    && Tiles(s.samples, start, s.lastTs, interval)
    && s.lastCount <= count && Total(s.samples) + (count - s.lastCount) == count
  }

  /** Every message was sampled or came less than `interval` seconds after the last sample. */
  ghost predicate Covered(times: seq<nat>, lastTs: nat, interval: nat) {
    forall k :: 0 <= k < |times| ==> times[k] < lastTs + interval * SECOND
  }

  /** A sample is taken if and only if one is due. */
  function Resample(s: Sampler, count: nat, now: nat, interval: nat): Sampler
    requires s.lastCount <= count
  {
    if Elapsed(s.lastTs, now) < interval then s
    else Sampler(s.samples + [Sample(s.lastTs, now, count - s.lastCount)], now, count)
  }

  /** All samples taken of messages at the given times. */
  function SampleAll(times: seq<nat>, start: nat, interval: nat): (s: Sampler)
    ensures s.lastCount <= |times|
  {
    if times == [] then Sampler([], start, 0) else
    var k := |times| - 1;
    Resample(SampleAll(times[..k], start, interval), k + 1, times[k], interval)
  }

  /** The sampler has seen messages at the given times, the last clock reading being `now`. */
  ghost predicate Tracks(s: Sampler, times: seq<nat>, start: nat, now: nat, interval: nat) {
    && Sampled(s, start, |times|, interval) && Covered(times, s.lastTs, interval) && start <= s.lastTs <= now
    && s == SampleAll(times, start, interval)
  }

  lemma SampleAllNext(times: seq<nat>, start: nat, interval: nat, now: nat)
    ensures SampleAll(times + [now], start, interval)
         == Resample(SampleAll(times, start, interval), |times| + 1, now, interval)
  {
    assert (times + [now])[..|times|] == times;
  }

  lemma SampleAdded(s: Sampler, start: nat, count: nat, interval: nat, now: nat)
    requires Sampled(s, start, count, interval) && s.lastTs <= now && Elapsed(s.lastTs, now) >= interval
    ensures Sampled(Resample(s, count, now, interval), start, count, interval)
  {
    assert Resample(s, count, now, interval).samples[..|s.samples|] == s.samples;
  }

  /** Takes a sample after a message if one is due; afterwards none is. */
  method TakeSample(s: Sampler, ghost times: seq<nat>, start: nat, ghost was: nat, count: nat, interval: nat, now: nat)
    returns (s': Sampler)
    requires Tracks(s, times, start, was, interval) && was <= now && interval > 0 && count == |times| + 1
    ensures Tracks(s', times + [now], start, now, interval)
    ensures s.lastCount <= count && s' == Resample(s, count, now, interval)
  {
    hide Tiles, Total, SampleAll;
    SampleAllNext(times, start, interval, now);
    s' := s;
    if Elapsed(s.lastTs, now) >= interval {
      SampleAdded(s, start, count, interval, now);
      s' := Sampler(s.samples + [Sample(s.lastTs, now, count - s.lastCount)], now, count);
    }
  }

  lemma NotSampled(start: nat, interval: nat)
    requires interval > 0
    ensures Tracks(Sampler([], start, 0), [], start, start, interval)
  {
  }

  /** What a sampler that is up to date, or one message behind, has sampled. */
  lemma Tracked(s: Sampler, times: seq<nat>, start: nat, now: nat, interval: nat)
    requires Tracks(s, times, start, now, interval)
    ensures Sampled(s, start, |times|, interval) && Sampled(s, start, |times| + 1, interval)
    ensures Covered(times, s.lastTs, interval) && s == SampleAll(times, start, interval)
  {
    hide SampleAll;
  }

  // ----- Senders

  /** `delay`: until the clock is read after the send; `over`: until the next turn, beyond any sleep. */
  datatype Turn = Turn(interrupted: bool, sendOk: bool, delay: nat, writeOk: bool, over: nat)

  /** Nothing interrupts the sender, and every send succeeds. */
  ghost predicate Unbroken(turns: seq<Turn>) {
    forall i :: 0 <= i < |turns| ==> !turns[i].interrupted && turns[i].sendOk
  }

  /** Neither does a report fail. */
  ghost predicate Smooth(turns: seq<Turn>) {
    Unbroken(turns) && forall i :: 0 <= i < |turns| ==> turns[i].writeOk
  }

  /** The report after the last of the turns failed. */
  ghost predicate Unwritten(turns: seq<Turn>, count: nat) {
    0 < count <= |turns| && !turns[count - 1].writeOk
  }

  lemma TurnUnwritten(turns: seq<Turn>, k: nat)
    requires k < |turns| && !turns[k].writeOk
    ensures Unwritten(turns, k + 1)
  {
  }

  /** Send `k` is made: nothing interrupts it, it succeeds, and the test still lasts by the last clock reading. */
  ghost predicate SendsAt(times: seq<nat>, start: nat, duration: Duration, turns: seq<Turn>, k: nat)
    requires k <= |times|
  {
    && k < |turns| && !turns[k].interrupted && turns[k].sendOk
    && Lasts(duration, k, if k == 0 then start else times[k - 1])
  }

  /** No report is due after send `k`, or it succeeds. */
  ghost predicate ReportsAt(times: seq<nat>, start: nat, turns: seq<Turn>, k: nat)
    requires k < |times| && k < |turns|
  {
    Elapsed(SampleAll(times[..k], start, 10).lastTs, times[k]) < 10 || turns[k].writeOk
  }

  /** The first `n` sends are made; with `reports`, none of their reports fails. */
  ghost predicate Sent(times: seq<nat>, start: nat, duration: Duration, turns: seq<Turn>, n: nat, reports: bool)
  {
    && n <= |times| && n <= |turns|
    && forall k :: 0 <= k < n ==>
      SendsAt(times, start, duration, turns, k) && (reports ==> ReportsAt(times, start, turns, k))
  }

  /** The sender ends where the next send is not made, or where a report fails. */
  ghost predicate SenderEnds(times: seq<nat>, start: nat, duration: Duration, turns: seq<Turn>, reports: bool)
  {
    var n := |times|;
    if Sent(times, start, duration, turns, n, reports) then !SendsAt(times, start, duration, turns, n)
    else
      && reports && 0 < n <= |turns| && !ReportsAt(times, start, turns, n - 1)
      && Sent(times, start, duration, turns, n - 1, reports) && SendsAt(times, start, duration, turns, n - 1)
  }

  /** The trace ran out while the sender would have gone on. */
  ghost predicate RanOut(times: seq<nat>, start: nat, duration: Duration, turns: seq<Turn>, reports: bool)
  {
    && |times| == |turns| && Sent(times, start, duration, turns, |times|, reports)
    && Lasts(duration, |times|, Reading(times, start))
  }

  /** The last clock reading. */
  function Reading(times: seq<nat>, start: nat): nat { if times == [] then start else times[|times| - 1] }

  lemma SentNothing(start: nat, duration: Duration, turns: seq<Turn>, reports: bool)
    ensures Sent([], start, duration, turns, 0, reports) && Reading([], start) == start
  {
  }

  lemma SendsNow(times: seq<nat>, start: nat, duration: Duration, turns: seq<Turn>)
    ensures SendsAt(times, start, duration, turns, |times|) <==>
      && |times| < |turns| && !turns[|times|].interrupted && turns[|times|].sendOk
      && Lasts(duration, |times|, Reading(times, start))
  {
    hide Lasts;
  }

  lemma SentNext(times: seq<nat>, start: nat, duration: Duration, turns: seq<Turn>, reports: bool, now: nat)
    requires Sent(times, start, duration, turns, |times|, reports) && SendsAt(times, start, duration, turns, |times|)
    ensures var all := times + [now];
      && |all| <= |turns| && Reading(all, start) == now
      && Sent(all, start, duration, turns, |times|, reports) && SendsAt(all, start, duration, turns, |times|)
      && (ReportsAt(all, start, turns, |times|) <==>
          Elapsed(SampleAll(times, start, 10).lastTs, now) < 10 || turns[|times|].writeOk)
      && (Sent(all, start, duration, turns, |all|, reports) <==> (reports ==> ReportsAt(all, start, turns, |times|)))
  {
    hide Lasts, Elapsed, SampleAll;
    var all := times + [now];
    forall k | 0 <= k < |times|
      ensures SendsAt(all, start, duration, turns, k) && (reports ==> ReportsAt(all, start, turns, k))
    {
      assert SendsAt(times, start, duration, turns, k) && (reports ==> ReportsAt(times, start, turns, k));
      assert all[..k] == times[..k];
    }
    assert all[..|times|] == times;
  }

  /** One send: when it began, when the clock was read after it, the new ETA, and the sleep that followed. */
  datatype Send = Send(begin: nat, now: nat, eta: nat, sleep: nat)

  function Interval(rate: nat): nat {
    if rate > 0 then SECOND / rate else 0
  }

  lemma IntervalTimesRate(rate: nat, k: nat)
    ensures k * Interval(rate) * rate <= k * SECOND && Interval(rate) <= SECOND
  {
    if rate > 0 {
      assert Interval(rate) * rate <= SECOND;
      assert k * Interval(rate) * rate == k * (Interval(rate) * rate);
      assert k * (Interval(rate) * rate) <= k * SECOND;
    }
  }

  /** The interval is the largest whole number of microseconds that does not exceed the rate. */
  lemma IntervalExact(rate: nat)
    ensures rate > 0 ==> Interval(rate) * rate <= 1_000_000 < (Interval(rate) + 1) * rate
    ensures rate == 0 ==> Interval(rate) == 0
  {
    if rate > 0 {
      var q, r := SECOND / rate, SECOND % rate;
      assert SECOND == q * rate + r && r < rate;
      assert (q + 1) * rate == q * rate + rate;
    }
  }

  /** After `k` intervals, the distance to the requested schedule is less than one microsecond per interval. */
  lemma IntervalsExact(rate: nat, k: nat)
    requires rate > 0
    ensures k * (1_000_000 - rate as int) <= k * Interval(rate) * rate <= k * 1_000_000
    ensures k > 0 ==> k * (1_000_000 - rate as int) < k * Interval(rate) * rate
  {
    IntervalExact(rate);
    var x := Interval(rate) * rate;
    assert (Interval(rate) + 1) * rate == x + rate;
    assert k * Interval(rate) * rate == k * x;
    Between(k, 1_000_000 - rate as int, x, 1_000_000);
  }

  lemma {:induction false} Between(k: nat, low: int, x: int, high: int)
    requires low < x <= high
    ensures k * low <= k * x <= k * high && (k > 0 ==> k * low < k * x)
  {
    if k > 0 {
      Between(k - 1, low, x, high);
      OneMore(k, low);
      OneMore(k, x);
      OneMore(k, high);
    }
  }

  lemma OneMore(k: nat, x: int)
    requires k > 0
    ensures k * x == (k - 1) * x + x
  {
  }

  /** The sleep before the ETA, in whole milliseconds and in 32-bit arithmetic. */
  function SleepFor(now: nat, eta: nat): nat {
    var diff := (eta - now) / 1000;
    if diff > 0 then diff % 0x1_0000_0000 * 1000 % 0x1_0000_0000 else 0
  }

  lemma SleepReachesEta(now: nat, eta: nat)
    requires eta <= now + SECOND + 999
    ensures SleepFor(now, eta) <= SECOND && eta <= now + SleepFor(now, eta) + 999
    ensures SleepFor(now, eta) == if eta > now then (eta - now) / 1000 * 1000 else 0
  {
  }

  /** The times in the log are those of the trace: delays, sleeps and the rest of every turn add up. */
  ghost predicate Follows(log: seq<Send>, start: nat, turns: seq<Turn>) {
    && |log| <= |turns|
    && forall k :: 0 <= k < |log| ==>
      && log[k].now == log[k].begin + turns[k].delay
      && log[k].begin == if k == 0 then start else log[k - 1].now + log[k - 1].sleep + turns[k - 1].over
  }

  function Times(log: seq<Send>): seq<nat> {
    seq(|log|, k requires 0 <= k < |log| => log[k].now)
  }

  /** The schedule of a paced run. */
  ghost predicate Paced(log: seq<Send>, start: nat, interval: nat) {
    forall k :: 0 <= k < |log| ==>
      && log[k].eta == start + (k + 1) * interval
      && log[k].begin + 999 >= start + k * interval
      && log[k].sleep <= SECOND
      && log[k].sleep == if log[k].eta > log[k].now then (log[k].eta - log[k].now) / 1000 * 1000 else 0
  }

  lemma FollowsNext(log: seq<Send>, start: nat, turns: seq<Turn>, send: Send)
    requires Follows(log, start, turns) && |log| < |turns|
    requires send.begin == ClockAfter(log, start, turns) && send.now == send.begin + turns[|log|].delay
    ensures Follows(log + [send], start, turns)
    ensures ClockAfter(log + [send], start, turns) == send.now + send.sleep + turns[|log|].over
    ensures Times(log + [send]) == Times(log) + [send.now]
  {
  }

  lemma PacedNext(log: seq<Send>, start: nat, interval: nat, send: Send)
    requires Paced(log, start, interval) && interval <= SECOND
    requires send.begin + 999 >= start + |log| * interval && send.begin <= send.now
    requires send.eta == start + |log| * interval + interval && send.sleep == SleepFor(send.now, send.eta)
    ensures Paced(log + [send], start, interval)
    ensures send.eta == start + (|log| + 1) * interval <= send.now + send.sleep + 999
  {
    assert (|log| + 1) * interval == |log| * interval + interval;
    SleepReachesEta(send.now, send.eta);
  }

  /** When the next turn begins. */
  function ClockAfter(log: seq<Send>, start: nat, turns: seq<Turn>): nat
    requires |log| <= |turns|
  {
    if log == [] then start else log[|log| - 1].now + log[|log| - 1].sleep + turns[|log| - 1].over
  }

  lemma EmptyRun(start: nat, interval: nat, turns: seq<Turn>)
    ensures Paced([], start, interval) && Times([]) == []
    ensures Follows([], start, turns) && ClockAfter([], start, turns) == start
  {
  }

  /**
    After k sends the ETA is exactly k intervals from the start, a send never begins more than 999
    microseconds before its time, and the sleep argument never wraps.
  */
  method RateSender(start: nat, rate: nat, duration: Duration, turns: seq<Turn>)
    returns (finished: bool, count: nat, log: seq<Send>, sampler: Sampler)
    ensures |log| == count && Follows(log, start, turns) && Paced(log, start, Interval(rate))
    ensures Covered(Times(log), sampler.lastTs, 1) && Sampled(sampler, start, count, 1)
    ensures sampler == SampleAll(Times(log), start, 1) && SenderEnds(Times(log), start, duration, turns, false)
    ensures finished <==> !RanOut(Times(log), start, duration, turns, false)
    ensures duration.Count? ==> count <= duration.target
    ensures duration.Count? && Unbroken(turns) && |turns| >= duration.target ==> finished && count == duration.target
  {
    hide Lasts, Tracks, Covered, Sampled, SampleAll, Resample, Elapsed;
    hide Paced, SleepFor, Interval, Follows, Times, ClockAfter, Sent, SendsAt, ReportsAt, Reading;
    finished, count, log, sampler := false, 0, [], Sampler([], start, 0);
    var now: nat, eta, clock := start, start, start;
    var interval := Interval(rate);
    IntervalTimesRate(rate, 1);
    EmptyRun(start, interval, turns);
    NotSampled(start, 1);
    SentNothing(start, duration, turns, false);
    while count < |turns| && Lasts(duration, count, now)
      invariant !finished && count <= |turns| && |log| == count && (duration.Count? ==> count <= duration.target)
      invariant eta == start + count * interval && clock + 999 >= eta && now <= clock
      invariant Follows(log, start, turns) && clock == ClockAfter(log, start, turns)
      invariant Paced(log, start, interval)
      invariant |Times(log)| == count && Tracks(sampler, Times(log), start, now, 1)
      invariant Sent(Times(log), start, duration, turns, count, false) && now == Reading(Times(log), start)
    {
      var turn := turns[count];
      LastsMeans(duration, count, now);
      SendsNow(Times(log), start, duration, turns);
      if turn.interrupted || !turn.sendOk {
        finished := true;
        break;
      }
      var begin := clock;
      ghost var was := now;
      count := count + 1;
      now := clock + turn.delay;
      SentNext(Times(log), start, duration, turns, false, now);
      sampler := TakeSample(sampler, Times(log), start, was, count, 1, now);

      eta := eta + interval;
      var sleep := SleepFor(now, eta);
      PacedNext(log, start, interval, Send(begin, now, eta, sleep));
      FollowsNext(log, start, turns, Send(begin, now, eta, sleep));
      log := log + [Send(begin, now, eta, sleep)];
      clock := now + sleep + turn.over;
    }
    LastsMeans(duration, count, now);
    SendsNow(Times(log), start, duration, turns);
    Tracked(sampler, Times(log), start, now, 1);
    finished := finished || !Lasts(duration, count, now);
  }

  /** The schedule is never slower than the requested rate. */
  lemma NeverSlower(log: seq<Send>, start: nat, rate: nat, k: nat)
    requires Paced(log, start, Interval(rate)) && k < |log|
    ensures (log[k].eta - start) * rate <= (k + 1) * SECOND
  {
    IntervalTimesRate(rate, k + 1);
  }

  /** Nor is it faster, but for less than a microsecond per send. */
  lemma HardlyFaster(log: seq<Send>, start: nat, rate: nat, k: nat)
    requires Paced(log, start, Interval(rate)) && k < |log| && rate > 0
    ensures (log[k].eta - start) * rate > (k + 1) * (1_000_000 - rate as int)
  {
    IntervalsExact(rate, k + 1);
  }

  // ----- The throttle

  /** How many of the times fall into the wall-clock second `s`. */
  function CountIn(times: seq<nat>, s: nat): nat {
    if times == [] then 0 else
    var last := |times| - 1;
    CountIn(times[..last], s) + (if times[last] / SECOND == s then 1 else 0)
  }

  /** The sends counted in a second are those whose time falls into it. */
  lemma {:induction false} CountInIs(times: seq<nat>, s: nat)
    ensures CountIn(times, s) == |InSecond(times, s, |times|)|
  {
    if times != [] {
      var last := |times| - 1;
      var most := times[..last];
      CountInIs(most, s);
      assert InSecond(most, s, last) == InSecond(times, s, last);
      OneSecondMore(times, s, last);
    }
  }

  function InSecond(times: seq<nat>, s: nat, n: nat): set<nat>
    requires n <= |times|
  {
    set k: nat | k < n && times[k] / 1_000_000 == s
  }

  lemma OneSecondMore(times: seq<nat>, s: nat, n: nat)
    requires n < |times|
    ensures |InSecond(times, s, n + 1)| == |InSecond(times, s, n)| + if times[n] / 1_000_000 == s then 1 else 0
  {
    var some := InSecond(times, s, n);
    assert InSecond(times, s, n + 1) == if times[n] / 1_000_000 == s then some + {n} else some;
  }

  lemma {:induction false} CountAfter(times: seq<nat>, s: nat)
    requires forall i :: 0 <= i < |times| ==> times[i] / SECOND < s
    ensures CountIn(times, s) == 0
  {
    if times != [] {
      CountAfter(times[..|times| - 1], s);
    }
  }

  lemma CountAppend(times: seq<nat>, t: nat)
    ensures forall s :: CountIn(times + [t], s) == CountIn(times, s) + (if t / SECOND == s then 1 else 0)
  {
    assert (times + [t])[..|times|] == times;
  }

  /** The throttle has held up to `now`, with `round` sends at most in any second since the burst may have begun. */
  ghost predicate Throttled(times: seq<nat>, throttle: nat, burst: nat, round: nat, now: nat) {
    && (forall s :: CountIn(times, s) <= throttle)
    && (forall s :: burst <= s ==> CountIn(times, s) <= round)
    && (forall i :: 0 <= i < |times| ==> times[i] <= now)
  }

  lemma ThrottleSend(times: seq<nat>, throttle: nat, burst: nat, round: nat, now: nat, t: nat)
    requires Throttled(times, throttle, burst, round, now) && round < throttle && now <= t && burst <= t / SECOND
    ensures Throttled(times + [t], throttle, burst, round + 1, t)
    ensures forall s :: CountIn(times + [t], s) <= throttle
  {
    hide CountIn;
    CountAppend(times, t);
  }

  lemma ThrottleWait(times: seq<nat>, throttle: nat, burst: nat, now: nat, clock: nat)
    requires Throttled(times, throttle, burst, throttle, now) && now / SECOND < clock / SECOND
    ensures Throttled(times, throttle, clock / SECOND, 0, now)
  {
    hide CountIn;
    forall s | clock / SECOND <= s
      ensures CountIn(times, s) == 0
    {
      forall i | 0 <= i < |times| ensures times[i] / SECOND < s { }
      CountAfter(times, s);
    }
  }

  function ToNextSecond(now: nat): (wait: nat)
    ensures wait > 0
  {
    SECOND - now % SECOND
  }

  /** The sends made in the current burst. */
  function Round(throttle: nat, k: nat): nat { if throttle == 0 then 0 else k % throttle }

  /** The wait after send number `k`: to the next second, after every burst. */
  function Wait(throttle: nat, k: nat, now: nat): nat {
    if throttle > 0 && Round(throttle, k) == 0 then ToNextSecond(now) else 0
  }

  ghost predicate Bursts(times: seq<nat>, start: nat, throttle: nat, turns: seq<Turn>) {
    && |times| <= |turns|
    && forall k :: 0 <= k < |times| ==>
      times[k] == BurstClock(times[..k], start, throttle, turns) + turns[k].delay
  }

  /** When the next turn begins. */
  function BurstClock(times: seq<nat>, start: nat, throttle: nat, turns: seq<Turn>): nat
    requires |times| <= |turns|
  {
    var k := |times|;
    if k == 0 then start else times[k - 1] + Wait(throttle, k, times[k - 1]) + turns[k - 1].over
  }

  /** A wait ends at the very beginning of the next second, and follows every burst and nothing else. */
  lemma WaitExact(throttle: nat, k: nat, now: nat)
    ensures var w := Wait(throttle, k, now);
      if throttle > 0 && k % throttle == 0
      then 0 < w <= 1_000_000 && (now + w) % 1_000_000 == 0
      else w == 0
  {
  }

  /** Counts one send, and waits at the end of a burst. */
  method Pause(throttle: nat, round: nat, count: nat, now: nat) returns (round': nat, clock: nat)
    requires count > 0 && (throttle > 0 ==> round == Round(throttle, count - 1))
    ensures throttle > 0 ==> round' == Round(throttle, count)
    ensures clock == now + Wait(throttle, count, now)
  {
    round', clock := round, now;
    if throttle > 0 {
      NextRound(round, count, throttle);
      round' := round + 1;
      if round' == throttle {
        clock := now + ToNextSecond(now);
        round' := 0;
      }
    }
  }

  /** The naive sender: its times are those of the trace, with a wait to the next second after every burst. */
  method NaiveSender(start: nat, throttle: nat, duration: Duration, turns: seq<Turn>)
    returns (finished: bool, count: nat, times: seq<nat>, sampler: Sampler)
    ensures |times| == count && Bursts(times, start, throttle, turns)
    ensures Covered(times, sampler.lastTs, 10) || Unwritten(turns, count)
    ensures Sampled(sampler, start, count, 10)
    ensures var seen := if Sent(times, start, duration, turns, count, true) then times else times[..count - 1];
      sampler == SampleAll(seen, start, 10)
    ensures SenderEnds(times, start, duration, turns, true)
    ensures finished <==> !RanOut(times, start, duration, turns, true)
    ensures duration.Count? ==> count <= duration.target
    ensures duration.Count? && Smooth(turns) && |turns| >= duration.target ==> finished && count == duration.target
  {
    hide Lasts, Unwritten, Tracks, Covered, Sampled, SampleAll, Resample, Elapsed;
    hide Bursts, BurstClock, Round, Wait, Sent, SendsAt, ReportsAt, Reading;
    finished, count, times, sampler := false, 0, [], Sampler([], start, 0);
    var now: nat, clock: nat := start, start;
    var round: nat := 0;
    NoBurst(start, throttle, turns);
    NotSampled(start, 10);
    SentNothing(start, duration, turns, true);
    ghost var seen, last: nat := times, now;
    while count < |turns| && Lasts(duration, count, now)
      invariant !finished && count <= |turns| && |times| == count && (duration.Count? ==> count <= duration.target)
      invariant now <= clock && (throttle > 0 ==> round == Round(throttle, count))
      invariant Bursts(times, start, throttle, turns) && clock == BurstClock(times, start, throttle, turns)
      invariant seen == times && last == now && Tracks(sampler, seen, start, last, 10)
      invariant Sent(times, start, duration, turns, count, true) && now == Reading(times, start)
    {
      var turn := turns[count];
      LastsMeans(duration, count, now);
      SendsNow(times, start, duration, turns);
      if turn.interrupted || !turn.sendOk {
        finished := true;
        break;
      }
      count := count + 1;
      now := clock + turn.delay;
      BurstNext(times, start, throttle, turns, now);
      SentNext(times, start, duration, turns, true, now);
      Tracked(sampler, seen, start, last, 10);
      times := times + [now];

      if Elapsed(sampler.lastTs, now) >= 10 && !turn.writeOk {
        TurnUnwritten(turns, count - 1);
        finished := true;
        break;
      }
      sampler := TakeSample(sampler, seen, start, last, count, 10, now);
      seen, last := times, now;

      round, clock := Pause(throttle, round, count, now);
      clock := clock + turn.over;
    }
    LastsMeans(duration, count, now);
    SendsNow(times, start, duration, turns);
    Tracked(sampler, seen, start, last, 10);
    finished := finished || !Lasts(duration, count, now);
  }

  lemma NextRound(round: nat, count: nat, throttle: nat)
    requires throttle > 0 && count > 0 && round == Round(throttle, count - 1)
    ensures Round(throttle, count) == if round + 1 == throttle then 0 else round + 1
  {
    var q := (count - 1) / throttle;
    assert count == q * throttle + (round + 1);
    if round + 1 == throttle {
      Remainder(count, q + 1, throttle, 0);
    } else {
      Remainder(count, q, throttle, round + 1);
    }
  }

  lemma Remainder(n: nat, q: nat, d: nat, r: nat)
    requires r < d && n == q * d + r
    ensures n % d == r
  {
    var k, m := n / d, n % d;
    assert n == k * d + m && 0 <= m < d;
    SameRemainder(q, r, k, m, d);
  }

  lemma SameRemainder(q: nat, r: nat, k: nat, m: nat, d: nat)
    requires r < d && m < d && q * d + r == k * d + m
    ensures r == m
  {
    if q < k {
      NextMultiple(q, k, d);
    } else if k < q {
      NextMultiple(k, q, d);
    }
  }

  lemma {:induction false} NextMultiple(q: nat, k: nat, d: nat)
    requires q < k
    ensures q * d + d <= k * d
  {
    if k > q + 1 {
      NextMultiple(q, k - 1, d);
    }
  }

  lemma BurstNext(times: seq<nat>, start: nat, throttle: nat, turns: seq<Turn>, now: nat)
    requires Bursts(times, start, throttle, turns) && |times| < |turns|
    requires now == BurstClock(times, start, throttle, turns) + turns[|times|].delay
    ensures Bursts(times + [now], start, throttle, turns)
    ensures BurstClock(times + [now], start, throttle, turns)
         == now + Wait(throttle, |times| + 1, now) + turns[|times|].over
  {
    hide Wait;
    var all := times + [now];
    forall k | 0 <= k < |all|
      ensures all[k] == turns[k].delay + BurstClock(all[..k], start, throttle, turns)
    {
      assert all[..k] == times[..k];
    }
  }

  lemma NothingSent(start: nat, throttle: nat)
    ensures Round(throttle, 0) == 0 && Throttled([], throttle, 0, 0, start)
  {
  }

  lemma NoBurst(start: nat, throttle: nat, turns: seq<Turn>)
    ensures Bursts([], start, throttle, turns) && BurstClock([], start, throttle, turns) == start
    ensures Round(throttle, 0) == 0
  {
  }

  lemma ShorterBursts(times: seq<nat>, start: nat, throttle: nat, turns: seq<Turn>)
    requires Bursts(times, start, throttle, turns) && times != []
    ensures var most := times[..|times| - 1];
      && Bursts(most, start, throttle, turns)
      && times[|times| - 1] == BurstClock(most, start, throttle, turns) + turns[|most|].delay
      && times == most + [times[|times| - 1]] && |times| <= |turns|
  {
    hide BurstClock;
    var most := times[..|times| - 1];
    assert forall k :: 0 <= k < |most| ==> most[..k] == times[..k];
  }

  /** The throttle holds throughout; `burst` is the second in which the current burst may have begun. */
  lemma {:induction false} BurstsThrottled(times: seq<nat>, start: nat, throttle: nat, turns: seq<Turn>)
    returns (burst: nat)
    requires throttle > 0 && Bursts(times, start, throttle, turns)
    ensures BurstClock(times, start, throttle, turns) >= if times == [] then start else times[|times| - 1]
    ensures burst <= BurstClock(times, start, throttle, turns) / SECOND && Round(throttle, |times|) < throttle
    ensures var last := if times == [] then start else times[|times| - 1];
      Throttled(times, throttle, burst, Round(throttle, |times|), last)
  {
    hide Throttled, CountIn, Bursts, Round;
    if times == [] {
      burst := 0;
      NothingSent(start, throttle);
    } else {
      var k := |times| - 1;
      var most, now := times[..k], times[k];
      ShorterBursts(times, start, throttle, turns);
      burst := BurstsThrottled(most, start, throttle, turns);
      var was := if most == [] then start else most[k - 1];
      ThrottleSend(most, throttle, burst, Round(throttle, k), was, now);
      NextRound(Round(throttle, k), k + 1, throttle);
      if Round(throttle, k + 1) == 0 {
        var clock := BurstClock(times, start, throttle, turns);
        NextSecond(now, clock);
        ThrottleWait(times, throttle, burst, now, clock);
        burst := clock / SECOND;
      }
    }
  }

  lemma NextSecond(now: nat, clock: nat)
    requires now + ToNextSecond(now) <= clock
    ensures now / SECOND < clock / SECOND
  {
  }

  /** With a throttle, no wall-clock second sees more sends complete than the throttle allows. */
  lemma ThrottleHolds(times: seq<nat>, start: nat, throttle: nat, turns: seq<Turn>, s: nat)
    requires throttle > 0 && Bursts(times, start, throttle, turns)
    ensures CountIn(times, s) <= throttle
  {
    hide Bursts, BurstClock;
    var burst := BurstsThrottled(times, start, throttle, turns);
  }

  // ----- Receivers

  datatype Arrival = Message | NoData | NoTimestamp | Broken

  datatype Poll = Poll(interrupted: bool, arrival: Arrival, delay: nat, latencyOk: bool, writeOk: bool)

  /** The messages among the first `n` polls. */
  function Messages(polls: seq<Poll>, n: nat): nat
    requires n <= |polls|
  {
    if n == 0 then 0 else Messages(polls, n - 1) + (if polls[n - 1].arrival.Message? then 1 else 0)
  }

  /** Counted are exactly the polls that brought a message. */
  lemma {:induction false} MessagesIs(polls: seq<Poll>, n: nat)
    requires n <= |polls|
    ensures Messages(polls, n) == |WithMessage(polls, n)|
  {
    if n > 0 {
      MessagesIs(polls, n - 1);
      var some := WithMessage(polls, n - 1);
      assert WithMessage(polls, n) == if polls[n - 1].arrival == Message then some + {n - 1} else some;
    }
  }

  function WithMessage(polls: seq<Poll>, n: nat): set<nat>
    requires n <= |polls|
  {
    set k: nat | k < n && polls[k].arrival == Message
  }

  /** The clock after the first `i` polls. */
  function ClockAt(start: nat, polls: seq<Poll>, i: nat): (c: nat)
    requires i <= |polls|
    ensures c >= start
  {
    if i == 0 then start else ClockAt(start, polls, i - 1) + polls[i - 1].delay
  }

  /** When the messages among the first `n` polls were received. */
  function Heard(start: nat, polls: seq<Poll>, n: nat): (times: seq<nat>)
    requires n <= |polls|
    ensures |times| == Messages(polls, n)
  {
    if n == 0 then []
    else if polls[n - 1].arrival.Message? then Heard(start, polls, n - 1) + [ClockAt(start, polls, n)]
    else Heard(start, polls, n - 1)
  }

  /** A report on the last of the polls failed. */
  ghost predicate Unreported(polls: seq<Poll>, taken: nat) {
    0 < taken <= |polls| && !(polls[taken - 1].latencyOk && polls[taken - 1].writeOk)
  }

  lemma PollUnreported(polls: seq<Poll>, k: nat)
    requires k < |polls| && !(polls[k].latencyOk && polls[k].writeOk)
    ensures Unreported(polls, k + 1)
  {
  }

  /** The last reading of the clock in the first `n` polls; failures and missing timestamps do not read it. */
  function LastReading(start: nat, polls: seq<Poll>, n: nat): nat
    requires n <= |polls|
  {
    if n == 0 then start
    else if polls[n - 1].arrival.Message? || polls[n - 1].arrival.NoData? then ClockAt(start, polls, n)
    else LastReading(start, polls, n - 1)
  }

  /** Poll `k` is made: nothing interrupts it, and the test still lasts by the last clock reading. */
  ghost predicate TakesAt(start: nat, duration: Duration, polls: seq<Poll>, k: nat)
    requires k <= |polls|
  {
    k < |polls| && !polls[k].interrupted && Lasts(duration, Messages(polls, k), LastReading(start, polls, k))
  }

  /** The receiver goes on after poll `k`; with `reports`, those that are due on a message must succeed. */
  ghost predicate GoesOn(start: nat, polls: seq<Poll>, k: nat, reports: bool)
    requires k < |polls|
  {
    && !polls[k].arrival.Broken?
    && (reports && polls[k].arrival.Message? ==>
        && polls[k].latencyOk
        && (polls[k].writeOk
            || Elapsed(SampleAll(Heard(start, polls, k), start, 10).lastTs, ClockAt(start, polls, k + 1)) < 10))
  }

  ghost predicate Taken(start: nat, duration: Duration, polls: seq<Poll>, n: nat, reports: bool)
  {
    && n <= |polls|
    && forall k :: 0 <= k < n ==> TakesAt(start, duration, polls, k) && GoesOn(start, polls, k, reports)
  }

  /** The receiver ends where the next poll is not made, or right after one after which it does not go on. */
  ghost predicate ReceiverEnds(start: nat, duration: Duration, polls: seq<Poll>, n: nat, reports: bool)
  {
    if Taken(start, duration, polls, n, reports) then !TakesAt(start, duration, polls, n)
    else
      && 0 < n <= |polls| && Taken(start, duration, polls, n - 1, reports)
      && TakesAt(start, duration, polls, n - 1) && !GoesOn(start, polls, n - 1, reports)
  }

  lemma TakenNothing(start: nat, duration: Duration, polls: seq<Poll>, reports: bool)
    ensures Taken(start, duration, polls, 0, reports) && LastReading(start, polls, 0) == start
  {
  }

  lemma TakenNext(start: nat, duration: Duration, polls: seq<Poll>, k: nat, reports: bool)
    requires k < |polls|
    ensures TakesAt(start, duration, polls, k) <==>
      !polls[k].interrupted && Lasts(duration, Messages(polls, k), LastReading(start, polls, k))
    ensures GoesOn(start, polls, k, reports) <==>
      && !polls[k].arrival.Broken?
      && (reports && polls[k].arrival.Message? ==>
          && polls[k].latencyOk
          && (polls[k].writeOk
              || Elapsed(SampleAll(Heard(start, polls, k), start, 10).lastTs, ClockAt(start, polls, k + 1)) < 10))
    ensures Taken(start, duration, polls, k, reports) ==>
      (Taken(start, duration, polls, k + 1, reports) <==>
       TakesAt(start, duration, polls, k) && GoesOn(start, polls, k, reports))
    ensures LastReading(start, polls, k + 1)
         == if polls[k].arrival.Message? || polls[k].arrival.NoData? then ClockAt(start, polls, k + 1)
            else LastReading(start, polls, k)
  {
    hide Lasts, Messages, Heard, ClockAt, Elapsed, SampleAll;
  }

  lemma TakesNone(start: nat, duration: Duration, polls: seq<Poll>)
    ensures !TakesAt(start, duration, polls, |polls|)
  {
  }

  /** So a receiver of a number of messages that nothing disturbs takes all polls or meets its target. */
  lemma UndisturbedReceiver(start: nat, duration: Duration, polls: seq<Poll>, n: nat, reports: bool)
    requires duration.Count? && n <= |polls| && ReceiverEnds(start, duration, polls, n, reports)
    requires forall k :: 0 <= k < |polls| ==>
      !polls[k].interrupted && !polls[k].arrival.Broken? && polls[k].latencyOk && polls[k].writeOk
    requires Messages(polls, n) <= duration.target
    ensures n == |polls| || Messages(polls, n) == duration.target
  {
    hide Messages, LastReading, Heard, ClockAt, Elapsed, SampleAll;
  }

  /** The receiver has counted and sampled the messages of the first `n` polls, the last of them by `last`. */
  ghost predicate Received(s: Sampler, start: nat, polls: seq<Poll>, n: nat, count: nat, last: nat, interval: nat) {
    && n <= |polls| && count == Messages(polls, n) && last <= ClockAt(start, polls, n)
    && Tracks(s, Heard(start, polls, n), start, last, interval)
  }

  lemma NothingReceived(start: nat, polls: seq<Poll>, interval: nat)
    requires interval > 0
    ensures Received(Sampler([], start, 0), start, polls, 0, 0, start, interval) && ClockAt(start, polls, 0) == start
  {
    NotSampled(start, interval);
  }

  lemma ClockNext(start: nat, polls: seq<Poll>, i: nat)
    requires i < |polls|
    ensures ClockAt(start, polls, i + 1) == ClockAt(start, polls, i) + polls[i].delay
  {
  }

  /** A poll without a message changes nothing. */
  lemma NotReceived(s: Sampler, start: nat, polls: seq<Poll>, n: nat, count: nat, last: nat, interval: nat)
    requires Received(s, start, polls, n, count, last, interval) && n < |polls| && !polls[n].arrival.Message?
    ensures Received(s, start, polls, n + 1, count, last, interval)
  {
    hide Tracks;
  }

  /** A message is counted, and a sample taken if one is due. */
  method CountMessage(s: Sampler, start: nat, ghost polls: seq<Poll>, ghost n: nat, count: nat, ghost last: nat,
                      interval: nat, now: nat) returns (s': Sampler)
    requires n < |polls| && polls[n].arrival.Message? && now == ClockAt(start, polls, n + 1) && interval > 0
    requires count > 0 && Received(s, start, polls, n, count - 1, last, interval)
    ensures Received(s', start, polls, n + 1, count, now, interval)
    ensures s.lastCount <= count && s' == Resample(s, count, now, interval)
  {
    hide Tracks, Resample;
    ClockNext(start, polls, n);
    s' := TakeSample(s, Heard(start, polls, n), start, last, count, interval, now);
  }

  /** What has been received, with one message more that may not have been sampled. */
  lemma ReceivedMeans(s: Sampler, start: nat, polls: seq<Poll>, n: nat, count: nat, last: nat, interval: nat)
    requires Received(s, start, polls, n, count, last, interval)
    ensures n <= |polls| && count == Messages(polls, n)
    ensures Sampled(s, start, count, interval) && Covered(Heard(start, polls, n), s.lastTs, interval)
    ensures Sampled(s, start, count + 1, interval)
    ensures n < |polls| && polls[n].arrival.Message? ==> count + 1 == Messages(polls, n + 1)
    ensures s == SampleAll(Heard(start, polls, n), start, interval)
  {
    hide Tracks, Sampled, Covered, SampleAll;
    Tracked(s, Heard(start, polls, n), start, last, interval);
  }

  /** Counts exactly the messages polled, and samples them; messages without timestamp do not move its clock. */
  method NaiveReceiver(start: nat, duration: Duration, polls: seq<Poll>)
    returns (taken: nat, count: nat, sampler: Sampler)
    ensures taken <= |polls| && count == Messages(polls, taken)
    ensures Covered(Heard(start, polls, taken), sampler.lastTs, 10) || Unreported(polls, taken)
    ensures Sampled(sampler, start, count, 10)
    ensures ReceiverEnds(start, duration, polls, taken, true)
    ensures Taken(start, duration, polls, taken, true) ==> sampler == SampleAll(Heard(start, polls, taken), start, 10)
    ensures !Taken(start, duration, polls, taken, true) ==>
      sampler == SampleAll(Heard(start, polls, taken - 1), start, 10)
    ensures duration.Count? ==> count <= duration.target
  {
    hide Tracks, Lasts, Unreported, Received, Covered, Sampled, Resample, Heard, ClockAt, Messages, Elapsed;
    hide LastReading, Taken, TakesAt, GoesOn, SampleAll;
    taken, count, sampler := 0, 0, Sampler([], start, 0);
    var now: nat, clock: nat := start, start;
    NothingReceived(start, polls, 10);
    TakenNothing(start, duration, polls, true);
    ghost var seen: nat, last: nat := 0, now;
    while taken < |polls| && Lasts(duration, count, now)
      invariant taken <= |polls| && (duration.Count? ==> count <= duration.target)
      invariant Taken(start, duration, polls, taken, true) && now == LastReading(start, polls, taken)
      invariant clock == ClockAt(start, polls, taken)
      invariant seen == taken && Received(sampler, start, polls, seen, count, last, 10)
    {
      var poll := polls[taken];
      LastsMeans(duration, count, now);
      ClockNext(start, polls, taken);
      TakenNext(start, duration, polls, taken, true);
      ReceivedMeans(sampler, start, polls, taken, count, last, 10);
      if poll.interrupted {
        break;
      }
      taken := taken + 1;
      clock := clock + poll.delay;
      if poll.arrival.Broken? {
        NotReceived(sampler, start, polls, seen, count, last, 10);
        seen := taken;
        break;
      }
      if poll.arrival.NoTimestamp? {
        NotReceived(sampler, start, polls, seen, count, last, 10);
        seen := taken;
        continue;
      }
      now := clock;
      if poll.arrival.NoData? {
        NotReceived(sampler, start, polls, seen, count, last, 10);
        seen := taken;
        continue;
      }
      count := count + 1;
      if !poll.latencyOk || (Elapsed(sampler.lastTs, now) >= 10 && !poll.writeOk) {
        PollUnreported(polls, taken - 1);
        break;
      }
      sampler := CountMessage(sampler, start, polls, seen, count, last, 10, now);
      seen, last := taken, now;
    }
    TakesNone(start, duration, polls);
    if taken < |polls| {
      TakenNext(start, duration, polls, taken, true);
    }
    ReceivedMeans(sampler, start, polls, seen, if seen == taken then count else count - 1, last, 10);
  }

  /** The time at which `count` messages are due. */
  function Eta(start: nat, rate: nat, count: nat): nat { start + count * Interval(rate) }

  lemma EtaStart(start: nat, rate: nat)
    ensures Eta(start, rate, 0) == start
  {
  }

  lemma EtaNext(start: nat, rate: nat, count: nat)
    requires count > 0
    ensures Eta(start, rate, count) == Eta(start, rate, count - 1) + Interval(rate)
  {
    assert count * Interval(rate) == (count - 1) * Interval(rate) + Interval(rate);
  }

  /** The receiver's ETA keeps to the requested rate in the same way. */
  lemma EtaExact(start: nat, rate: nat, count: nat)
    requires rate > 0
    ensures count * (1_000_000 - rate as int) <= (Eta(start, rate, count) - start) * rate <= count * 1_000_000
    ensures count > 0 ==> count * (1_000_000 - rate as int) < (Eta(start, rate, count) - start) * rate
  {
    IntervalsExact(rate, count);
  }

  /** As above, with one-second samples; the ETA is one interval per message received. */
  method RateReceiver(start: nat, rate: nat, duration: Duration, polls: seq<Poll>)
    returns (taken: nat, count: nat, eta: nat, sampler: Sampler)
    ensures taken <= |polls| && count == Messages(polls, taken)
    ensures eta == Eta(start, rate, count)
    ensures Covered(Heard(start, polls, taken), sampler.lastTs, 1) && Sampled(sampler, start, count, 1)
    ensures sampler == SampleAll(Heard(start, polls, taken), start, 1)
    ensures ReceiverEnds(start, duration, polls, taken, false)
    ensures duration.Count? ==> count <= duration.target
  {
    hide Tracks, Lasts, Received, Covered, Sampled, Resample, Heard, ClockAt, Messages, Interval, Eta, Elapsed;
    hide LastReading, Taken, TakesAt, GoesOn, SampleAll;
    taken, count, sampler := 0, 0, Sampler([], start, 0);
    eta := start;
    var now: nat, clock: nat := start, start;
    EtaStart(start, rate);
    NothingReceived(start, polls, 1);
    TakenNothing(start, duration, polls, false);
    ghost var last: nat := now;
    while taken < |polls| && Lasts(duration, count, now)
      invariant taken <= |polls| && (duration.Count? ==> count <= duration.target)
      invariant Taken(start, duration, polls, taken, false) && now == LastReading(start, polls, taken)
      invariant clock == ClockAt(start, polls, taken) && eta == Eta(start, rate, count)
      invariant Received(sampler, start, polls, taken, count, last, 1)
    {
      var poll := polls[taken];
      LastsMeans(duration, count, now);
      ClockNext(start, polls, taken);
      TakenNext(start, duration, polls, taken, false);
      ReceivedMeans(sampler, start, polls, taken, count, last, 1);
      if poll.interrupted {
        break;
      }
      taken := taken + 1;
      clock := clock + poll.delay;
      if poll.arrival.Broken? {
        NotReceived(sampler, start, polls, taken - 1, count, last, 1);
        break;
      }
      if poll.arrival.NoTimestamp? {
        NotReceived(sampler, start, polls, taken - 1, count, last, 1);
        continue;
      }
      now := clock;
      if poll.arrival.NoData? {
        NotReceived(sampler, start, polls, taken - 1, count, last, 1);
        continue;
      }
      count := count + 1;
      sampler := CountMessage(sampler, start, polls, taken - 1, count, last, 1, now);
      last := now;
      EtaNext(start, rate, count);
      eta := eta + Interval(rate);
    }
    TakesNone(start, duration, polls);
    if taken < |polls| {
      TakenNext(start, duration, polls, taken, false);
    }
    ReceivedMeans(sampler, start, polls, taken, count, last, 1);
  }
}
