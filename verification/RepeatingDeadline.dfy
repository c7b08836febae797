/** The deadline arithmetic of RepeatingTimer (system/common/repeating_timer.cc), in microseconds of
    boot time. Clock readings are parameters; unsigned and signed 64-bit conversions and the
    truncating remainder of C++ are written out. */
module RepeatingDeadline {
  import opened Arithmetic

  function ToU64(x: int): int {
    x % TWO_64
  }

  function ToS64(x: int): int {
    var u := x % TWO_64;
    if u < TWO_63 then u else u - TWO_64
  }

  /** The `%` of C++, whose result has the sign of the dividend. */
  function TruncMod(a: int, b: int): int
    requires b > 0
  {
    if a >= 0 then a % b else -((-a) % b)
  }

  /** What RunTask posts, given the advanced deadline and the time. */
  function RepostDelay(expected: int, now: int, period: int): int
    requires period > 0
  {
    var remaining := ToS64(ToU64(expected - now));
    if remaining < 0 then TruncMod(TruncMod(remaining, period) + period, period) else remaining
  }

  class RepeatingTimer {
    var expected: int
    var period: int

    constructor ()
      ensures expected == 0 && period == 0
    {
      expected, period := 0, 0;
    }

    /** SchedulePeriodic: `now` is read on entry and `nowAtPost` when the callback is posted; `thread`
        is whether the thread given is not null and `posted` whether it took the callback. A period
        below one microsecond or a null thread is refused without any effect, a failed post is undone. */
    method Schedule(newPeriod: int, thread: bool, posted: bool, now: int, nowAtPost: int)
      returns (accepted: bool, delay: int)
      modifies this
      ensures accepted <==> newPeriod >= 1 && thread && posted
      ensures accepted ==>
                && expected == ToU64(now + newPeriod) && period == newPeriod
                && delay == ToS64(ToU64(expected - nowAtPost))
                && expected == ExpectedAfter(now, newPeriod, 0)
      ensures newPeriod < 1 || !thread ==> expected == old(expected) && period == old(period)
      ensures newPeriod >= 1 && thread && !posted ==> expected == 0 && period == 0
    {
      if newPeriod < 1 {
        return false, 0;
      }
      var next := ToU64(now + newPeriod);
      if !thread {
        return false, 0;
      }
      expected := next;
      period := newPeriod;
      delay := ToS64(ToU64(next - nowAtPost));
      if !posted {
        expected := 0;
        period := 0;
        return false, 0;
      }
      accepted := true;
    }

    method RunTask(now: int) returns (delay: int)
      requires period > 0
      modifies this`expected
      ensures expected == ToU64(old(expected) + period)
      ensures delay == RepostDelay(expected, now, period)
      ensures forall start, n: nat :: old(expected) == ExpectedAfter(start, period, n) ==>
                expected == ExpectedAfter(start, period, n + 1)
    {
      expected := ToU64(expected + period);
      var remaining := ToS64(ToU64(expected - now));
      if remaining < 0 {
        remaining := TruncMod(TruncMod(remaining, period) + period, period);
      }
      delay := remaining;
    }
  }

  // ----- arithmetic

  lemma S64Exact(x: int)
    requires -TWO_63 <= x < TWO_63
    ensures ToS64(ToU64(x)) == x
  {
  }

  /** The double remainder repairs the sign: it is the distance up to the next multiple. */
  lemma TruncModRepaired(r: int, p: int)
    requires p > 0 && r < 0
    ensures TruncMod(TruncMod(r, p) + p, p) == r % p
  {
    var m, q := (-r) % p, (-r) / p;
    assert -r == q * p + m;
    if m == 0 {
      assert TruncMod(r, p) + p == p && p == 1 * p + 0;
      ModOf(1, p, 0);
      ModNegated(q, p, r);
    } else {
      ModSmall(p - m, p);
      ModNegatedRest(q, p, m, r);
    }
  }

  lemma ModSmall(m: int, p: int)
    requires 0 <= m < p
    ensures m % p == m
  {
  }

  lemma ModNegated(q: int, p: int, r: int)
    requires p > 0 && -r == q * p
    ensures r % p == 0
  {
    assert r == (-q) * p + 0;
    ModOf(-q, p, 0);
  }

  lemma ModNegatedRest(q: int, p: int, m: int, r: int)
    requires 0 < m < p && -r == q * p + m
    ensures r % p == p - m
  {
    assert r == (-q - 1) * p + (p - m);
    ModOf(-q - 1, p, p - m);
  }

  lemma ModOf(q: int, p: int, m: int)
    requires 0 <= m < p
    ensures (q * p + m) % p == m
  {
    var x := q * p + m;
    var d := x / p - q;
    assert x == (x / p) * p + x % p;
    assert d * p == m - x % p;
    MultipleInRange(d, p);
  }

  lemma MultipleInRange(d: int, p: int)
    requires p > 0 && -p < d * p < p
    ensures d == 0
  {
    if d > 0 {
      MulMono(1, d, p);
    } else if d < 0 {
      MulMono(d, -1, p);
    }
  }

  /** `t` is a whole number of periods after `start`. */
  ghost predicate IsTick(start: int, p: int, t: int) {
    exists k: int :: t == Tick(start, p, k)
  }

  function Tick(start: int, p: int, k: int): int {
    start + k * p
  }

  /** A re-posted delay lands on the deadline when that is still ahead, and otherwise on the first
      instant from now that is a whole number of periods from it. */
  lemma RepostLands(expected: int, now: int, p: int)
    requires p > 0 && -TWO_63 <= expected - now < TWO_63 && expected - now <= p
    ensures var d := RepostDelay(expected, now, p);
            && 0 <= d <= p
            && (expected >= now ==> now + d == expected)
            && (expected < now ==> d < p && now + d == expected - ((expected - now) / p) * p)
  {
    S64Exact(expected - now);
    if expected < now {
      TruncModRepaired(expected - now, p);
      assert expected - now == ((expected - now) / p) * p + (expected - now) % p;
    }
  }

  lemma TickShift(start: int, p: int, k: int, j: int)
    ensures Tick(start, p, k) + j * p == Tick(start, p, k + j)
  {
  }

  /** Two ticks less than a period apart are the same. */
  lemma TicksApart(start: int, p: int, j: int, k: int)
    requires p > 0 && Tick(start, p, j) < Tick(start, p, k)
    ensures Tick(start, p, j) + p <= Tick(start, p, k)
  {
    TickShift(start, p, j, k - j);
    if k - j <= 0 {
      MulMono(k - j, 0, p);
    } else {
      MulMono(1, k - j, p);
    }
  }

  lemma FirstTickFromNow(start: int, p: int, now: int, landing: int)
    requires p > 0 && IsTick(start, p, landing) && now <= landing < now + p
    ensures forall t :: IsTick(start, p, t) && t >= now ==> t >= landing
  {
    var k: int :| landing == Tick(start, p, k);
    forall t | IsTick(start, p, t) && t >= now ensures t >= landing {
      var j: int :| t == Tick(start, p, j);
      if t < landing {
        TicksApart(start, p, j, k);
      }
    }
  }

  // ----- runs

  /** expected_time_next_task_us_ after `n` runs of a timer scheduled at `start`. */
  function ExpectedAfter(start: int, p: int, n: nat): int {
    if n == 0 then ToU64(start + p) else ToU64(ExpectedAfter(start, p, n - 1) + p)
  }

  /** When run number `n` becomes due, for a timer scheduled at `start` whose callback was first
      posted at `posted`; a negative first delay is due at once. */
  function Due(start: int, p: int, posted: int, runs: seq<int>, n: nat): int
    requires p > 0 && n <= |runs|
  {
    if n == 0 then
      var d := ToS64(ToU64(ExpectedAfter(start, p, 0) - posted));
      posted + (if d > 0 then d else 0)
    else runs[n - 1] + RepostDelay(ExpectedAfter(start, p, n), runs[n - 1], p)
  }

  ghost predicate IsTime(t: int) {
    0 <= t < TWO_63
  }

  /** A run in which the loop never takes a callback before it is due. */
  ghost predicate NeverEarly(start: int, p: int, posted: int, runs: seq<int>) {
    && 1 <= p < TWO_63 && 0 <= start <= posted < TWO_63
    && forall n: nat :: n < |runs| ==> IsTime(runs[n]) && runs[n] >= Due(start, p, posted, runs, n)
  }

  lemma ExpectedStep(start: int, p: int, n: nat, now: int)
    requires 0 <= start && 1 <= p < TWO_63
    requires ExpectedAfter(start, p, n) == Tick(start, p, n + 1) <= now < TWO_63
    ensures ExpectedAfter(start, p, n + 1) == Tick(start, p, n + 2) == Tick(start, p, n + 1) + p
    ensures 0 <= Tick(start, p, n + 1)
  {
    hide Tick;
    TickShift(start, p, n + 1, 1);
    TickNotBefore(start, p, n + 1);
    U64Exact(Tick(start, p, n + 1) + p);
  }

  lemma TickNotBefore(start: int, p: int, k: nat)
    requires p > 0
    ensures start <= Tick(start, p, k)
  {
    MulMono(0, k, p);
  }

  lemma U64Exact(x: int)
    requires 0 <= x < TWO_64
    ensures ToU64(x) == x
  {
  }

  lemma FirstDue(start: int, p: int, posted: int, runs: seq<int>)
    requires 1 <= p < TWO_63 && 0 <= start <= posted < TWO_63
    ensures ExpectedAfter(start, p, 0) == Tick(start, p, 1) <= Due(start, p, posted, runs, 0)
  {
    S64Exact(start + p - posted);
  }

  /** The n-th run never happens before start + n * period, counting runs from one. */
  lemma {:induction false} RunNotBeforeTick(start: int, p: int, posted: int, runs: seq<int>, n: nat)
    requires NeverEarly(start, p, posted, runs) && n < |runs|
    ensures runs[n] >= Tick(start, p, n + 1) && ExpectedAfter(start, p, n) == Tick(start, p, n + 1)
  {
    hide Tick, RepostDelay, ExpectedAfter;
    assert runs[n] >= Due(start, p, posted, runs, n);
    if n == 0 {
      FirstDue(start, p, posted, runs);
    } else {
      var now := runs[n - 1];
      assert IsTime(now);
      RunNotBeforeTick(start, p, posted, runs, n - 1);
      ExpectedStep(start, p, n - 1, now);
      RepostLands(Tick(start, p, n + 1), now, p);
    }
  }

  lemma LateLanding(start: int, p: int, k: int, now: int)
    requires p > 0 && 0 <= now - Tick(start, p, k) < TWO_63
    requires Tick(start, p, k) < now
    ensures var d := RepostDelay(Tick(start, p, k), now, p);
            IsTick(start, p, now + d) && forall t :: IsTick(start, p, t) && t >= now ==> t >= now + d
  {
    hide RepostDelay;
    var e := Tick(start, p, k);
    var d := RepostDelay(e, now, p);
    RepostLands(e, now, p);
    var j := (e - now) / p;
    TickShift(start, p, k, -j);
    assert now + d == Tick(start, p, k - j);
    FirstTickFromNow(start, p, now, now + d);
  }

  /** Every re-posted delay is within [0, period] and lands on a whole number of periods after the
      start: on the next deadline when that is not past, else on the first such instant from now. */
  lemma RepostKeepsCadence(start: int, p: int, posted: int, runs: seq<int>, n: nat)
    requires NeverEarly(start, p, posted, runs) && n < |runs|
    ensures var now := runs[n];
            var d := RepostDelay(ExpectedAfter(start, p, n + 1), now, p);
            && 0 <= d <= p
            && IsTick(start, p, now + d)
            && (now <= Tick(start, p, n + 2) ==> now + d == Tick(start, p, n + 2))
            && (now > Tick(start, p, n + 2) ==> forall t :: IsTick(start, p, t) && t >= now ==> t >= now + d)
  {
    hide Tick, RepostDelay, ExpectedAfter, Due;
    var now := runs[n];
    assert IsTime(now);
    RunNotBeforeTick(start, p, posted, runs, n);
    ExpectedStep(start, p, n, now);
    var e := Tick(start, p, n + 2);
    RepostLands(e, now, p);
    if e < now {
      LateLanding(start, p, n + 2, now);
    }
  }
}
