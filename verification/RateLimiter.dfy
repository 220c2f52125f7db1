/** The remote profile's fixed-window rate limiter and its bearer-token comparison. */
module RateLimiter {

  /** One window lasts sixty seconds; times are in nanoseconds of a monotonic clock. */
  const WINDOW: nat := 60_000_000_000

  datatype Window = Window(startedAt: nat, count: nat)

  function Rolled(w: Window, now: nat): Window {
    if w.startedAt + WINDOW <= now then Window(now, 0) else w
  }

  function Consume(w: Window, limit: nat, now: nat): (Window, bool) {
    var r := Rolled(w, now);
    if r.count >= limit then (r, false) else (r.(count := r.count + 1), true)
  }

  class RemoteHttpSecurity {
    const requestsPerMinute: nat
    var startedAt: nat
    var count: nat

    ghost function View(): Window
      reads this
    {
      Window(startedAt, count)
    }

    constructor (requestsPerMinute: nat, now: nat)
      requires requestsPerMinute > 0
      ensures View() == Window(now, 0) && this.requestsPerMinute == requestsPerMinute
    {
      this.requestsPerMinute := requestsPerMinute;
      startedAt, count := now, 0;
    }

    method ConsumeRateLimit(now: nat) returns (admitted: bool)
      requires startedAt <= now
      modifies this
      ensures (View(), admitted) == Consume(old(View()), requestsPerMinute, now)
    {
      if now - startedAt >= WINDOW {
        startedAt := now;
        count := 0;
      }
      if count >= requestsPerMinute {
        return false;
      }
      count := count + 1;
      admitted := true;
    }
  }

  // ----- every sequence of request times -----

  ghost predicate Clock(start: nat, times: seq<nat>) {
    && (forall i | 0 <= i < |times| :: start <= times[i])
    && (forall i, j | 0 <= i < j < |times| :: times[i] <= times[j])
  }

  /** The window after the first `n` requests. */
  function After(start: nat, limit: nat, times: seq<nat>, n: nat): Window
    requires n <= |times|
  {
    if n == 0 then Window(start, 0) else Consume(After(start, limit, times, n - 1), limit, times[n - 1]).0
  }

  predicate Admitted(start: nat, limit: nat, times: seq<nat>, i: nat)
    requires i < |times|
  {
    Consume(After(start, limit, times, i), limit, times[i]).1
  }

  /** How many of the requests lo, ..., hi - 1 were admitted. */
  function AdmittedIn(start: nat, limit: nat, times: seq<nat>, lo: nat, hi: nat): nat
    requires lo <= hi <= |times|
  {
    if lo == hi then 0
    else AdmittedIn(start, limit, times, lo, hi - 1) + if Admitted(start, limit, times, hi - 1) then 1 else 0
  }

  /** Request `i` opened a new window. */
  predicate Rolls(start: nat, limit: nat, times: seq<nat>, i: nat)
    requires i < |times|
  {
    After(start, limit, times, i).startedAt + 60_000_000_000 <= times[i]
  }

  function Min(a: nat, b: nat): nat {
    if a <= b then a else b
  }

  /** What request `lo` finds left of the limit in the window it falls into, which it may itself have opened. */
  function Left(start: nat, limit: nat, times: seq<nat>, lo: nat): nat
    requires lo < |times|
  {
    var used := Rolled(After(start, limit, times, lo), times[lo]).count;
    if used <= limit then limit - used else 0
  }

  lemma {:induction false} CountStaysInLimit(start: nat, limit: nat, times: seq<nat>, n: nat)
    requires n <= |times|
    ensures After(start, limit, times, n).count <= limit
  {
    if n > 0 {
      CountStaysInLimit(start, limit, times, n - 1);
    }
  }

  /** The exact count inside one window: requests are admitted one by one until the rest of the limit is used up. */
  lemma {:induction false} WindowCount(start: nat, limit: nat, times: seq<nat>, lo: nat, hi: nat)
    requires lo < hi <= |times|
    requires forall i | lo < i < hi :: !Rolls(start, limit, times, i)
    ensures var left := Left(start, limit, times, lo);
      && AdmittedIn(start, limit, times, lo, hi) == Min(left, hi - lo)
      && After(start, limit, times, hi).count == limit - left + Min(left, hi - lo)
    decreases hi
  {
    CountStaysInLimit(start, limit, times, lo);
    assert AdmittedIn(start, limit, times, lo, hi)
        == AdmittedIn(start, limit, times, lo, hi - 1) + if Admitted(start, limit, times, hi - 1) then 1 else 0;
    if lo < hi - 1 {
      WindowCount(start, limit, times, lo, hi - 1);
      assert !Rolls(start, limit, times, hi - 1);
    }
  }

  /** The first request, or one that opened a new window, finds an unused limit. */
  predicate Opens(start: nat, limit: nat, times: seq<nat>, m: nat)
    requires m < |times|
  {
    m == 0 || Rolls(start, limit, times, m)
  }

  /**
   A request is admitted exactly when fewer than `limit` requests came before it
   in its window. So the one that opens a window, sixty seconds or more after
   the last one did, is always admitted.
   */
  lemma AdmittedExactly(start: nat, limit: nat, times: seq<nat>, m: nat, i: nat)
    requires m <= i < |times| && Opens(start, limit, times, m)
    requires forall j | m < j <= i :: !Rolls(start, limit, times, j)
    ensures Admitted(start, limit, times, i) <==> i - m < limit
    ensures AdmittedIn(start, limit, times, m, i + 1) == Min(limit, i + 1 - m)
  {
    WindowCount(start, limit, times, m, i + 1);
    if m < i {
      WindowCount(start, limit, times, m, i);
    }
  }

  /** A window, from the request that opened it to the next one that opens one, admits at most the limit. */
  lemma OneWindowAdmitsLimit(start: nat, limit: nat, times: seq<nat>, lo: nat, hi: nat)
    requires lo <= hi <= |times|
    requires forall i | lo < i < hi :: !Rolls(start, limit, times, i)
    ensures AdmittedIn(start, limit, times, lo, hi) <= limit
  {
    if lo < hi {
      WindowCount(start, limit, times, lo, hi);
    }
  }

  lemma {:induction false} AdmittedSplits(start: nat, limit: nat, times: seq<nat>, lo: nat, mid: nat, hi: nat)
    requires lo <= mid <= hi <= |times|
    ensures AdmittedIn(start, limit, times, lo, hi)
         == AdmittedIn(start, limit, times, lo, mid) + AdmittedIn(start, limit, times, mid, hi)
  {
    hide Admitted;
    if mid < hi {
      AdmittedSplits(start, limit, times, lo, mid, hi - 1);
    }
  }

  /** A window opened by request `m` stays open for every request within sixty seconds of it. */
  lemma {:induction false} StaysOpen(start: nat, limit: nat, times: seq<nat>, m: nat, i: nat)
    requires m < i < |times| && Clock(start, times)
    requires Rolls(start, limit, times, m) && times[i] < times[m] + 60_000_000_000
    ensures After(start, limit, times, i).startedAt == times[m] && !Rolls(start, limit, times, i)
    decreases i
  {
    if m + 1 < i {
      assert times[i - 1] <= times[i];
      StaysOpen(start, limit, times, m, i - 1);
    }
  }

  /** Any half-open sixty-second interval admits at most twice the limit, wherever it starts. */
  lemma IntervalBound(start: nat, limit: nat, times: seq<nat>, lo: nat, hi: nat, t: nat)
    requires Clock(start, times) && lo <= hi <= |times|
    requires forall i | lo <= i < hi :: t <= times[i] < t + 60_000_000_000
    ensures AdmittedIn(start, limit, times, lo, hi) <= 2 * limit
  {
    if forall i | lo < i < hi :: !Rolls(start, limit, times, i) {
      OneWindowAdmitsLimit(start, limit, times, lo, hi);
    } else {
      var m := FirstRoll(start, limit, times, lo, hi);
      OneWindowAdmitsLimit(start, limit, times, lo, m);
      forall i | m < i < hi ensures !Rolls(start, limit, times, i) {
        StaysOpen(start, limit, times, m, i);
      }
      OneWindowAdmitsLimit(start, limit, times, m, hi);
      AdmittedSplits(start, limit, times, lo, m, hi);
    }
  }

  lemma {:induction false} FirstRoll(start: nat, limit: nat, times: seq<nat>, lo: nat, hi: nat) returns (m: nat)
    requires lo <= hi <= |times|
    requires exists i | lo < i < hi :: Rolls(start, limit, times, i)
    ensures lo < m < hi && Rolls(start, limit, times, m)
    ensures forall i | lo < i < m :: !Rolls(start, limit, times, i)
    decreases hi
  {
    hide Rolls;
    if exists i | lo < i < hi - 1 :: Rolls(start, limit, times, i) {
      m := FirstRoll(start, limit, times, lo, hi - 1);
    } else {
      m := hi - 1;
    }
  }

  /**
   When a sixty-second interval stays within one limit. If none of its later
   requests opens a window it always does. If request `m` opens one, it is the
   only one, and the interval stays within the limit exactly when nothing was
   admitted before `m` or the requests from `m` on leave room for what was.
   */
  lemma IntervalIsExact(start: nat, limit: nat, times: seq<nat>, lo: nat, m: nat, hi: nat, t: nat)
    requires Clock(start, times) && lo < m < hi <= |times|
    requires forall i | lo <= i < hi :: t <= times[i] < t + 60_000_000_000
    requires Rolls(start, limit, times, m)
    ensures forall i | lo < i < hi && i != m :: !Rolls(start, limit, times, i)
    ensures var before := Min(Left(start, limit, times, lo), m - lo);
      && AdmittedIn(start, limit, times, lo, hi) == before + Min(limit, hi - m)
      && (AdmittedIn(start, limit, times, lo, hi) <= limit <==> before == 0 || before + (hi - m) <= limit)
  {
    forall i | lo < i < hi && i != m ensures !Rolls(start, limit, times, i) {
      if i < m && Rolls(start, limit, times, i) {
        StaysOpen(start, limit, times, i, m);
      } else if i > m {
        StaysOpen(start, limit, times, m, i);
      }
    }
    WindowCount(start, limit, times, lo, m);
    WindowCount(start, limit, times, m, hi);
    AdmittedSplits(start, limit, times, lo, m, hi);
  }

  /** `n` requests at the end of one window, then `n` at the start of the next. */
  function Burst(n: nat): seq<nat> {
    seq(2 * n, i => if i < n then WINDOW - 1 else WINDOW)
  }

  lemma {:induction false} BurstFills(limit: nat, n: nat)
    requires 0 < n <= 2 * limit
    ensures After(0, limit, Burst(limit), n) == if n <= limit then Window(0, n) else Window(WINDOW, n - limit)
    ensures AdmittedIn(0, limit, Burst(limit), 0, n) == n
  {
    var times := Burst(limit);
    if n > 1 {
      BurstFills(limit, n - 1);
    }
    assert times[n - 1] == if n <= limit then WINDOW - 1 else WINDOW;
    assert AdmittedIn(0, limit, times, 0, n) == AdmittedIn(0, limit, times, 0, n - 1)
      + if Admitted(0, limit, times, n - 1) then 1 else 0;
  }

  /**
   The bound is tight: for every limit, two nanoseconds can admit twice the limit,
   so no sixty-second bound below it holds.
   */
  lemma IntervalBoundIsTight(limit: nat)
    requires limit > 0
    ensures Clock(0, Burst(limit))
    ensures forall i | 0 <= i < 2 * limit :: WINDOW - 1 <= Burst(limit)[i] < WINDOW + 1
    ensures AdmittedIn(0, limit, Burst(limit), 0, 2 * limit) == 2 * limit
  {
    BurstFills(limit, 2 * limit);
  }

  // ----- bearer token -----

  lemma XorIsZero(d: bv8, a: bv8, b: bv8)
    ensures (d | (a ^ b)) == 0 <==> d == 0 && a == b
  {
  }

  /** Reads every byte whatever it finds, and answers equality exactly. */
  method ConstantTimeEq(left: seq<bv8>, right: seq<bv8>) returns (equal: bool)
    ensures equal <==> left == right
  {
    if |left| != |right| {
      return false;
    }
    var difference: bv8 := 0;
    for i := 0 to |left|
      invariant difference == 0 <==> left[..i] == right[..i]
    {
      XorIsZero(difference, left[i], right[i]);
      assert left[..i + 1] == left[..i] + [left[i]] && right[..i + 1] == right[..i] + [right[i]];
      difference := difference | (left[i] ^ right[i]);
    }
    assert left[..|left|] == left && right[..|right|] == right;
    equal := difference == 0;
  }
}
