/**
 The lazily refilled token bucket of `plugins/ratelimit`, and the numbers a
 configuration line may feed it.
 */
module RateBucket {
  import opened Wrappers
  import opened Arith

  // Durations and instants in nanoseconds, as Go's int64 counts them.
  const SECOND: int := 1_000_000_000
  const MINUTE: int := 60 * SECOND
  const INT64_MAX: int := 0x7FFF_FFFF_FFFF_FFFF

  const MAX_RATE: int := 1_000_000
  const MAX_BURST: int := 10_000_000
  const MAX_TRACKED: int := 0x10_0000
  const DEFAULT_MAX_KEYS: int := 65536

  datatype Limit = Limit(interval: int, capacity: int)

  // A usable limit: a full bucket pays for at least one request.
  predicate Usable(l: Limit) {
    1 <= l.interval <= l.capacity
  }

  datatype Bucket = Bucket(credit: int, last: int)

  predicate Sound(b: Bucket, l: Limit) {
    0 <= b.credit <= l.capacity
  }

  /** time.Time.Sub saturates instead of wrapping. */
  function Sub(a: int, b: int): int {
    if a - b > INT64_MAX then INT64_MAX
    else if a - b < -INT64_MAX - 1 then -INT64_MAX - 1
    else a - b
  }

  function Refill(b: Bucket, now: int, l: Limit): Bucket {
    var elapsed := Sub(now, b.last);
    var credit :=
      if elapsed >= l.capacity then l.capacity
      else if elapsed > 0 then (if b.credit + elapsed < l.capacity then b.credit + elapsed else l.capacity)
      else b.credit;
    Bucket(credit, now)
  }

  function Allow(b: Bucket, now: int, l: Limit): (Bucket, bool) {
    var r := Refill(b, now, l);
    if r.credit < l.interval then (r, false) else (r.(credit := r.credit - l.interval), true)
  }

  // ----- the rate bound --------------------------------------------------------------

  ghost predicate Monotone(times: seq<int>) {
    forall i, j :: 0 <= i < j < |times| ==> times[i] <= times[j]
  }

  /** The bucket after a list of requests, and how many of them passed. */
  function Serve(b: Bucket, times: seq<int>, l: Limit): (Bucket, nat) {
    if times == [] then (b, 0) else
    var (r, n) := Serve(b, times[..|times| - 1], l);
    var (s, ok) := Allow(r, times[|times| - 1], l);
    (s, if ok then n + 1 else n)
  }

  lemma RefillBound(b: Bucket, now: int, l: Limit)
    requires Usable(l) && Sound(b, l) && l.capacity <= INT64_MAX
    ensures Sound(Refill(b, now, l), l) && Refill(b, now, l).last == now
    ensures b.last <= now ==> b.credit <= Refill(b, now, l).credit <= b.credit + (now - b.last)
  {
  }

  /** What one request leaves and takes comes from what was banked and the time gone by, and from no more than a full bucket. */
  lemma AllowBound(b: Bucket, now: int, l: Limit)
    requires Usable(l) && Sound(b, l) && l.capacity <= INT64_MAX
    ensures var (r, ok) := Allow(b, now, l);
      var spent := if ok then l.interval else 0;
      && Sound(r, l) && r.last == now && r.credit + spent <= l.capacity
      && (b.last <= now ==> r.credit + spent <= b.credit + (now - b.last))
  {
    RefillBound(b, now, l);
  }

  lemma OneMore(n: nat, ok: bool, interval: int)
    ensures (if ok then n + 1 else n) * interval == n * interval + (if ok then interval else 0)
  {
  }

  /**
   What was banked and what was spent never exceed a full bucket plus the time that
   has gone by since the first request of the window.
   */
  lemma {:induction false} CreditBound(b: Bucket, times: seq<int>, l: Limit)
    requires Usable(l) && Sound(b, l) && l.capacity <= INT64_MAX
    requires times != [] && Monotone(times)
    ensures var (r, n) := Serve(b, times, l);
      && Sound(r, l) && r.last == times[|times| - 1]
      && r.credit + n * l.interval <= l.capacity + (times[|times| - 1] - times[0])
  {
    hide Allow;
    var m := |times| - 1;
    var init := times[..m];
    var before := Serve(b, init, l);
    OneMore(before.1, Allow(before.0, times[m], l).1, l.interval);
    if m == 0 {
      assert before == (b, 0);
      AllowBound(b, times[0], l);
    } else {
      CreditBound(b, init, l);
      assert times[m - 1] <= times[m];
      AllowBound(before.0, times[m], l);
    }
  }

  /** In any window of one key's requests, passed requests are bounded by burst plus rate. */
  lemma WindowBound(b: Bucket, before: seq<int>, window: seq<int>, l: Limit)
    requires Usable(l) && Sound(b, l) && l.capacity <= INT64_MAX
    requires window != [] && Monotone(before + window)
    ensures (Serve(b, before + window, l).1 - Serve(b, before, l).1) * l.interval
         <= l.capacity + (window[|window| - 1] - window[0])
  {
    var mid := Serve(b, before, l).0;
    ServeSplits(b, before, window, l);
    assert Monotone(window) by {
      forall i, j | 0 <= i < j < |window| ensures window[i] <= window[j] {
        assert (before + window)[|before| + i] <= (before + window)[|before| + j];
      }
    }
    if before != [] {
      assert Monotone(before) by {
        forall i, j | 0 <= i < j < |before| ensures before[i] <= before[j] {
          assert (before + window)[i] <= (before + window)[j];
        }
      }
      CreditBound(b, before, l);
    }
    CreditBound(mid, window, l);
  }

  lemma {:induction false} ServeSplits(b: Bucket, x: seq<int>, y: seq<int>, l: Limit)
    ensures Serve(b, x + y, l).0 == Serve(Serve(b, x, l).0, y, l).0
    ensures Serve(b, x + y, l).1 == Serve(b, x, l).1 + Serve(Serve(b, x, l).0, y, l).1
  {
    if y == [] {
      assert x + y == x;
    } else {
      assert (x + y)[..|x + y| - 1] == x + y[..|y| - 1];
      ServeSplits(b, x, y[..|y| - 1], l);
    }
  }

  /** A request at least one interval after the last is paid for, whatever was banked. */
  lemma SpacedRequestsPass(b: Bucket, now: int, l: Limit)
    requires Usable(l) && Sound(b, l) && l.capacity <= INT64_MAX && now - b.last >= l.interval
    ensures Allow(b, now, l).1
  {
  }

  // ----- configuration ------------------------------------------------------------------

  datatype Period = PerSecond | PerMinute
  datatype Rate = Rate(n: int, period: Period)

  // One plugin line: the counts as strconv.Atoi read them.
  datatype Line = Line(rate: Rate, burst: Option<int>, maxKeys: Option<int>, global: Option<Rate>)

  /** parseCount's bound. */
  predicate Counts(n: int, upper: int) {
    1 <= n <= upper
  }

  predicate Accepted(line: Line) {
    && Counts(line.rate.n, MAX_RATE)
    && (line.burst.Some? ==> Counts(line.burst.value, MAX_BURST))
    && (line.maxKeys.Some? ==> Counts(line.maxKeys.value, MAX_TRACKED))
    && (line.global.Some? ==> Counts(line.global.value.n, MAX_RATE))
  }

  function Interval(r: Rate): int
    requires r.n >= 1
  {
    if r.period.PerSecond? then SECOND / r.n else MINUTE / r.n
  }

  function WholePerSecond(r: Rate): int
    requires r.n >= 1
  {
    if r.period.PerSecond? then r.n else r.n / 60
  }

  function DefaultBurst(perSecond: int): int {
    if perSecond < 1 then 1 else 2 * perSecond
  }

  function PerKeyLimit(line: Line): Limit
    requires Accepted(line)
  {
    var burst := if line.burst.Some? then line.burst.value else DefaultBurst(WholePerSecond(line.rate));
    Limit(Interval(line.rate), Interval(line.rate) * burst)
  }

  function GlobalLimit(r: Rate): Limit
    requires r.n >= 1
  {
    Limit(Interval(r), Interval(r) * DefaultBurst(WholePerSecond(r)))
  }

  function MaxKeys(line: Line): int {
    if line.maxKeys.Some? then line.maxKeys.value else DEFAULT_MAX_KEYS
  }

  lemma IntervalRange(r: Rate)
    requires Counts(r.n, MAX_RATE)
    ensures 1000 <= Interval(r) <= MINUTE
  {
    var d := if r.period.PerSecond? then SECOND else MINUTE;
    assert d >= 1000 * MAX_RATE;
    QuotientRange(d, r.n, MAX_RATE, 1000);
  }

  /** The interval is the largest whole number of nanoseconds at which n requests fit a period. */
  lemma IntervalIs(r: Rate)
    requires r.n >= 1
    ensures var period := if r.period == PerSecond then 1_000_000_000 else 60_000_000_000;
      r.n * Interval(r) <= period < r.n * (Interval(r) + 1)
  {
    Quotient(if r.period == PerSecond then 1_000_000_000 else 60_000_000_000, r.n);
  }

  /**
   What a line's limits come to: a bucket holds the burst it names, or by default twice the
   whole requests per second of its rate, or one when there is not one a second.
   */
  lemma BurstIs(line: Line)
    requires Accepted(line)
    ensures var l, n := PerKeyLimit(line), line.rate.n;
      && l.interval == Interval(line.rate)
      && (line.burst.Some? ==> l.capacity == l.interval * line.burst.value)
      && (line.burst.None? && line.rate.period.PerSecond? ==> l.capacity == l.interval * (2 * n))
      && (line.burst.None? && line.rate.period.PerMinute? && n < 60 ==> l.capacity == l.interval)
      && (line.burst.None? && line.rate.period.PerMinute? && n >= 60 ==> l.capacity == l.interval * (2 * (n / 60)))
    ensures line.global.Some? ==>
      GlobalLimit(line.global.value) == PerKeyLimit(Line(line.global.value, None, line.maxKeys, None))
    ensures MaxKeys(line) == if line.maxKeys.Some? then line.maxKeys.value else 65536
  {
    hide Interval;
    if line.rate.period.PerMinute? {
      Quotient(line.rate.n, 60);
    }
  }

  /** The counts a line may carry. */
  lemma CountsExactly(line: Line)
    ensures Accepted(line) <==>
      && 1 <= line.rate.n <= 1_000_000 && (line.burst.Some? ==> 1 <= line.burst.value <= 10_000_000)
      && (line.maxKeys.Some? ==> 1 <= line.maxKeys.value <= 1_048_576)
      && (line.global.Some? ==> 1 <= line.global.value.n <= 1_000_000)
  {
  }

  lemma QuotientRange(d: int, n: int, top: int, low: int)
    requires 1 <= n <= top && low * top <= d && 0 <= low
    ensures low <= d / n <= d
  {
    var q := d / n;
    Quotient(d, n);
    Scaled(low, n, top);
    if q < low {
      Scaled(n, q + 1, low);
      assert false;
    }
    Scaled(q, 1, n);
  }

  lemma ProductRange(a: int, b: int, upA: int, upB: int)
    requires 1 <= a <= upA && 1 <= b <= upB
    ensures a <= a * b <= upA * upB
  {
    assert a * b <= upA * b <= upA * upB;
  }

  // The largest credit any accepted line can bank: one per minute, ten million deep.
  const MAX_CAPACITY: int := MINUTE * MAX_BURST

  /** Every accepted line gives usable limits whose arithmetic stays inside int64. */
  lemma AcceptedIsUsable(line: Line)
    requires Accepted(line)
    ensures Usable(PerKeyLimit(line)) && PerKeyLimit(line).capacity <= MAX_CAPACITY
    ensures line.global.Some? ==>
      Usable(GlobalLimit(line.global.value)) && GlobalLimit(line.global.value).capacity <= MAX_CAPACITY
    ensures 2 * MAX_CAPACITY <= INT64_MAX
    ensures 1 <= MaxKeys(line) <= MAX_TRACKED
  {
    IntervalRange(line.rate);
    var burst := if line.burst.Some? then line.burst.value else DefaultBurst(WholePerSecond(line.rate));
    assert 1 <= burst <= MAX_BURST;
    ProductRange(Interval(line.rate), burst, MINUTE, MAX_BURST);
    if line.global.Some? {
      var r := line.global.value;
      IntervalRange(r);
      assert 1 <= DefaultBurst(WholePerSecond(r)) <= MAX_BURST;
      ProductRange(Interval(r), DefaultBurst(WholePerSecond(r)), MINUTE, MAX_BURST);
    }
  }

  /** The only sum `allow` forms on the banking branch stays inside int64. */
  lemma BankingFits(b: Bucket, now: int, l: Limit)
    requires Sound(b, l) && l.capacity <= MAX_CAPACITY && 0 < Sub(now, b.last) < l.capacity
    ensures 0 <= b.credit + Sub(now, b.last) <= INT64_MAX
  {
  }
}
