/**
 The per-connection rate limiter: a fixed window opened by the first request after the
 previous window has run out, driven by a clock of whole seconds.
 */
module RateLimiters {

  datatype Limiter = Limiter(count: nat, start: int, max: nat, window: nat)

  /** One check at time `now`: the new limiter, and whether the request is let through. */
  function Checked(r: Limiter, now: int): (Limiter, bool) {
    if now - r.start >= r.window then (r.(count := 1, start := now), true)
    else if r.count >= r.max then (r, false)
    else (r.(count := r.count + 1), true)
  }

  class RateLimiter {
    var requestCount: nat
    var windowStart: int
    const maxRequests: nat
    const windowSeconds: nat

    ghost function View(): Limiter
      reads this
    {
      Limiter(requestCount, windowStart, maxRequests, windowSeconds)
    }

    constructor (max: nat, window: nat, now: int)
      ensures View() == Limiter(0, now, max, window)
    {
      requestCount := 0;
      windowStart := now;
      maxRequests := max;
      windowSeconds := window;
    }

    method Check(now: int) returns (allowed: bool)
      modifies this
      ensures (View(), allowed) == Checked(old(View()), now)
      ensures old(requestCount) <= maxRequests && maxRequests >= 1 ==> requestCount <= maxRequests
    {
      var elapsed := now - windowStart;
      if elapsed >= windowSeconds {
        requestCount := 1;
        windowStart := now;
        return true;
      }
      if requestCount >= maxRequests {
        return false;
      }
      requestCount := requestCount + 1;
      return true;
    }
  }

  /** Clock readings never go back, and start no earlier than `from`. */
  ghost predicate Clock(ts: seq<int>, from: int) {
    (ts != [] ==> from <= ts[0]) && forall i :: 0 < i < |ts| ==> ts[i - 1] <= ts[i]
  }

  /** How many of the requests at `ts` are let through at times in [a, b). */
  function Allowed(r: Limiter, ts: seq<int>, a: int, b: int): nat
    decreases |ts|
  {
    if ts == [] then 0
    else
      var (r', ok) := Checked(r, ts[0]);
      (if ok && a <= ts[0] < b then 1 else 0) + Allowed(r', ts[1..], a, b)
  }

  /** The limiter after requests at the readings `ts`. */
  function LimiterAfter(r: Limiter, ts: seq<int>): Limiter
    decreases |ts|
  {
    if ts == [] then r else LimiterAfter(Checked(r, ts[0]).0, ts[1..])
  }

  /** One more request. */
  lemma {:induction false} CheckedSnoc(r: Limiter, ts: seq<int>, t: int, a: int, b: int)
    ensures LimiterAfter(r, ts + [t]) == Checked(LimiterAfter(r, ts), t).0
    ensures Allowed(r, ts + [t], a, b)
            == Allowed(r, ts, a, b) + if Checked(LimiterAfter(r, ts), t).1 && a <= t < b then 1 else 0
    decreases |ts|
  {
    if ts == [] {
      assert ts + [t] == [t];
    } else {
      assert (ts + [t])[1..] == ts[1..] + [t];
      CheckedSnoc(Checked(r, ts[0]).0, ts[1..], t, a, b);
    }
  }

  /** How many windows of length `w` can start at or after `x` and before `b`. */
  function Starts(x: int, b: int, w: nat): nat
    requires w >= 1
    decreases b - x
  {
    if x >= b then 0 else 1 + Starts(x + w, b, w)
  }

  lemma {:induction false} StartsMonotone(x: int, y: int, b: int, w: nat)
    requires w >= 1 && x <= y
    ensures Starts(y, b, w) <= Starts(x, b, w)
    decreases b - x
  {
    if x < b {
      if y < b {
        StartsMonotone(x + w, y + w, b, w);
      }
    }
  }

  lemma {:induction false} StartsBound(x: int, b: int, w: nat, k: nat)
    requires w >= 1 && b - x <= k * w
    ensures Starts(x, b, w) <= k
    decreases k
  {
    if k == 0 {
    } else {
      assert (k - 1) * w == k * w - w;
      if x < b {
        StartsBound(x + w, b, w, k - 1);
      }
    }
  }

  function Max(x: int, y: int): int {
    if x < y then y else x
  }

  /** Requests the open window can still let through in [a, ...). */
  function Unused(r: Limiter, a: int): int {
    if r.start + r.window > a then r.max - r.count else 0
  }

  /** What the limiter can still let through in [a, b). */
  function Budget(r: Limiter, a: int, b: int): int
    requires r.window >= 1
  {
    Unused(r, a) + r.max * Starts(Max(r.start + r.window, a - r.window + 1), b, r.window)
  }

  lemma ClockTail(ts: seq<int>, from: int)
    requires ts != [] && Clock(ts, from)
    ensures from <= ts[0] && Clock(ts[1..], ts[0])
  {
    assert forall i :: 0 < i < |ts[1..]| ==> ts[1..][i] == ts[i + 1] && ts[1..][i - 1] == ts[i];
  }

  /** Opening a window at `t` in time for the interval uses one start. */
  lemma BudgetReset(r: Limiter, t: int, a: int, b: int)
    requires r.window >= 1 && r.max >= 1 && r.count <= r.max && t - r.start >= r.window && t < b
    ensures (if a <= t then 1 else 0) + Budget(r.(count := 1, start := t), a, b) <= Budget(r, a, b)
  {
    var w := r.window;
    var x, x' := Max(r.start + w, a - w + 1), Max(t + w, a - w + 1);
    if t + w > a {
      StartsMonotone(x, t, b, w);
      MulStep(r.max, Starts(t + w, b, w), Starts(x, b, w));
    } else {
      StartsMonotone(x, x', b, w);
      MulMonotone(r.max, Starts(x', b, w), Starts(x, b, w));
    }
  }

  lemma BudgetPositive(r: Limiter, a: int, b: int)
    requires r.window >= 1 && r.count <= r.max
    ensures Budget(r, a, b) >= 0
  {
  }

  /** From any limiter: what the open window has left, plus `max` for every window still to start. */
  lemma {:induction false} AllowedFrom(r: Limiter, ts: seq<int>, a: int, b: int)
    requires r.window >= 1 && r.max >= 1 && r.count <= r.max && Clock(ts, r.start)
    ensures Allowed(r, ts, a, b) <= Budget(r, a, b)
    decreases |ts|
  {
    BudgetPositive(r, a, b);
    if ts != [] {
      var t := ts[0];
      ClockTail(ts, r.start);
      if t >= b {
        NoneLater(r, ts, a, b);
      } else if t - r.start >= r.window {
        AllowedFrom(r.(count := 1, start := t), ts[1..], a, b);
        BudgetReset(r, t, a, b);
      } else {
        assert Clock(ts[1..], r.start);
        AllowedFrom(Checked(r, t).0, ts[1..], a, b);
      }
    }
  }

  lemma MulMonotone(m: nat, x: nat, y: nat)
    requires x <= y
    ensures m * x <= m * y
  {
  }

  lemma MulStep(m: nat, x: nat, y: nat)
    requires x + 1 <= y
    ensures m + m * x <= m * y
  {
    MulMonotone(m, x + 1, y);
    assert m * (x + 1) == m * x + m;
  }

  /** Once the clock is past the interval nothing more falls into it. */
  lemma {:induction false} NoneLater(r: Limiter, ts: seq<int>, a: int, b: int)
    requires Clock(ts, b)
    ensures Allowed(r, ts, a, b) == 0
    decreases |ts|
  {
    if ts != [] {
      ClockTail(ts, b);
      NoneLater(Checked(r, ts[0]).0, ts[1..], a, b);
    }
  }

  /**
   With a clock that does not go back, an interval of at most m windows and one second lets
   at most (m + 1) * max requests through, whatever was asked for.
   */
  lemma WindowBound(max: nat, w: nat, t0: int, ts: seq<int>, a: int, len: nat, m: nat)
    requires max >= 1 && w >= 1 && Clock(ts, t0) && len <= m * w + 1
    ensures Allowed(Limiter(0, t0, max, w), ts, a, a + len) <= (m + 1) * max
  {
    var r := Limiter(0, t0, max, w);
    AllowedFrom(r, ts, a, a + len);
    var x := Max(t0 + w, a - w + 1);
    if t0 + w > a {
      StartsBound(x, a + len, w, m);
      MulStep(max, Starts(x, a + len, w), m + 1);
    } else {
      assert (m + 1) * w == m * w + w;
      StartsBound(x, a + len, w, m + 1);
      MulMonotone(max, Starts(x, a + len, w), m + 1);
    }
  }

  /** The session's limiter: five requests and a window of one second. */
  lemma SessionBound(t0: int, ts: seq<int>, a: int)
    requires Clock(ts, t0)
    ensures Allowed(Limiter(0, t0, 5, 1), ts, a, a + 1) <= 5
    ensures Allowed(Limiter(0, t0, 5, 1), ts, a, a + 2) <= 10
  {
    WindowBound(5, 1, t0, ts, a, 1, 0);
    WindowBound(5, 1, t0, ts, a, 2, 1);
  }

  // A sliding window would never exceed `max` in any `window` seconds. Counted in whole-second
  // readings this one does, unless its window is a single tick of the clock; counted in real
  // time it does even then (further down).

  function Burst(t: int, n: nat): seq<int> {
    if n == 0 then [] else [t] + Burst(t, n - 1)
  }

  lemma BurstCons(t: int, n: nat, rest: seq<int>)
    requires n > 0
    ensures Burst(t, n) + rest == [t] + (Burst(t, n - 1) + rest)
  {
  }

  lemma {:induction false} BurstClock(t: int, n: nat, rest: seq<int>)
    requires Clock(rest, t)
    ensures Clock(Burst(t, n) + rest, t)
  {
    if n == 0 {
      assert Burst(t, n) + rest == rest;
    } else {
      BurstClock(t, n - 1, rest);
      BurstCons(t, n, rest);
      ClockCons(t, Burst(t, n - 1) + rest);
    }
  }

  lemma {:induction false} BurstAllowed(r: Limiter, t: int, n: nat, rest: seq<int>, a: int, b: int)
    requires r.start <= t < r.start + r.window && r.count + n <= r.max && a <= t < b
    ensures Allowed(r, Burst(t, n) + rest, a, b) == n + Allowed(r.(count := r.count + n), rest, a, b)
    decreases n
  {
    if n == 0 {
      assert Burst(t, n) + rest == rest;
    } else {
      var r' := r.(count := r.count + 1);
      var tail := Burst(t, n - 1) + rest;
      BurstCons(t, n, rest);
      assert ([t] + tail)[1..] == tail;
      assert Allowed(r, [t] + tail, a, b) == 1 + Allowed(r', tail, a, b);
      BurstAllowed(r', t, n - 1, rest, a, b);
    }
  }

  lemma ClockCons(t: int, ts: seq<int>)
    requires Clock(ts, t)
    ensures Clock([t] + ts, t)
  {
  }

  /** What a sliding window would promise at `a`. */
  predicate Slides(r: Limiter, ts: seq<int>, a: int) {
    Allowed(r, ts, a, a + r.window) <= r.max
  }

  /** No `window` readings of the clock ever see more than `max` requests exactly when the window is one. */
  lemma SlidingExactly(max: nat, w: nat, t0: int)
    requires max >= 1 && w >= 1
    ensures w == 1
       <==> forall ts, a :: Clock(ts, t0) ==> Slides(Limiter(0, t0, max, w), ts, a)
  {
    if w == 1 {
      forall ts, a | Clock(ts, t0)
        ensures Slides(Limiter(0, t0, max, w), ts, a)
      {
        WindowBound(max, w, t0, ts, a, w, 0);
      }
    } else {
      var r, a := Limiter(0, t0, max, w), t0 + w - 1;
      var ts := Burst(a, max) + [t0 + w];
      BurstClock(a, max, [t0 + w]);
      BurstAllowed(r, a, max, [t0 + w], a, a + w);
      var full := r.(count := max);
      assert Checked(full, t0 + w).1;
      assert [t0 + w][1..] == [];
      assert Allowed(full, [t0 + w], a, a + w) == 1 + Allowed(Checked(full, t0 + w).0, [], a, a + w);
      assert Clock(ts, t0) && !Slides(r, ts, a);
    }
  }

  // Clients that keep to the limit.

  /** Clock readings, in seconds, of arrivals in milliseconds. */
  function Seconds(ms: seq<nat>): (ts: seq<int>)
    ensures |ts| == |ms| && forall i :: 0 <= i < |ms| ==> ts[i] == ms[i] / 1000
  {
    if ms == [] then [] else [ms[0] / 1000] + Seconds(ms[1..])
  }

  /** Every request of the list is let through. */
  ghost predicate AllPass(r: Limiter, ts: seq<int>)
    decreases |ts|
  {
    ts == [] || (Checked(r, ts[0]).1 && AllPass(Checked(r, ts[0]).0, ts[1..]))
  }

  /** How many readings fall in [a, b). */
  function Within(ts: seq<int>, a: int, b: int): nat {
    if ts == [] then 0 else (if a <= ts[0] < b then 1 else 0) + Within(ts[1..], a, b)
  }

  /** At most `max` requests in any `w` seconds: what is asked of a well-behaved client. */
  ghost predicate Moderate(ts: seq<int>, max: nat, w: nat) {
    forall a :: InWindow(ts, a, w) <= max
  }

  function InWindow(ts: seq<int>, a: int, w: nat): nat {
    Within(ts, a, a + w)
  }

  lemma {:induction false} WithinAppend(ts: seq<int>, us: seq<int>, a: int, b: int)
    ensures Within(ts + us, a, b) == Within(ts, a, b) + Within(us, a, b)
  {
    if ts == [] {
      assert ts + us == us;
    } else {
      assert (ts + us)[1..] == ts[1..] + us;
      WithinAppend(ts[1..], us, a, b);
    }
  }

  lemma {:induction false} WithinBefore(ts: seq<int>, a: int, b: int)
    requires forall i :: 0 <= i < |ts| ==> ts[i] < a
    ensures Within(ts, a, b) == 0
  {
    if ts != [] {
      WithinBefore(ts[1..], a, b);
    }
  }

  /** After the requests `past`, the limiter's count is the number of them in its open window. */
  ghost predicate Counted(r: Limiter, past: seq<int>) {
    && r.count == Within(past, r.start, r.start + r.window)
    && forall i :: 0 <= i < |past| ==> past[i] < r.start + r.window
  }

  lemma {:induction false} ModeratePasses(r: Limiter, past: seq<int>, ts: seq<int>)
    requires r.window >= 1 && Clock(ts, r.start) && Counted(r, past)
    requires Moderate(past + ts, r.max, r.window)
    ensures AllPass(r, ts)
    decreases |ts|
  {
    if ts != [] {
      var t := ts[0];
      var (r', ok) := Checked(r, t);
      var past' := past + [t];
      assert past' + ts[1..] == past + ts;
      ClockTail(ts, r.start);
      WithinAppend(past', ts[1..], r'.start, r'.start + r'.window);
      WithinAppend(past, [t], r'.start, r'.start + r'.window);
      assert [t][1..] == [];
      if t - r.start >= r.window {
        WithinBefore(past, t, t + r.window);
        assert Counted(r', past');
        assert Clock(ts[1..], r'.start);
      } else {
        assert Within([t], r.start, r.start + r.window) == 1;
        assert InWindow(past + ts, r.start, r.window) <= r.max;
        assert Clock(ts[1..], r'.start);
      }
      ModeratePasses(r', past', ts[1..]);
    }
  }

  /** A client with at most `max` requests in every window-long interval is never refused. */
  lemma {:induction false} ModerateNeverRefused(max: nat, w: nat, t0: int, ts: seq<int>)
    requires w >= 1 && Clock(ts, t0) && Moderate(ts, max, w)
    ensures AllPass(Limiter(0, t0, max, w), ts)
  {
    assert [] + ts == ts;
    ModeratePasses(Limiter(0, t0, max, w), [], ts);
  }

  /** Arrivals at least `gap` milliseconds apart. */
  ghost predicate Paced(ms: seq<nat>, gap: nat) {
    forall i :: 0 < i < |ms| ==> ms[i - 1] + gap <= ms[i]
  }

  /** The open window's requests so far, the last at `last`, were `gap` apart. */
  ghost predicate Spread(r: Limiter, last: int, gap: nat) {
    r.count > 0 ==> last >= 1000 * r.start + (r.count - 1) * gap
  }

  lemma SpreadFull(r: Limiter, last: int, gap: nat, now: nat)
    requires r.count == r.max >= 1 && Spread(r, last, gap) && last + gap <= now
    requires r.max * gap >= 1000 * r.window
    ensures now / 1000 - r.start >= r.window
  {
    assert (r.max - 1) * gap + gap == r.max * gap;
  }

  lemma SpreadNext(r: Limiter, last: int, gap: nat, now: nat)
    requires Spread(r, last, gap) && r.start <= now / 1000 && (r.count > 0 ==> last + gap <= now)
    ensures Spread(r.(count := r.count + 1), now, gap)
  {
    if r.count > 0 {
      assert (r.count - 1) * gap + gap == r.count * gap;
    }
  }

  lemma {:induction false} PacedPasses(r: Limiter, ms: seq<nat>, last: int, gap: nat)
    requires r.window >= 1 && r.max >= 1 && r.max * gap >= 1000 * r.window && Paced(ms, gap)
    requires ms != [] ==> r.start <= ms[0] / 1000 && (r.count > 0 ==> last + gap <= ms[0])
    requires Spread(r, last, gap) && r.count <= r.max
    ensures AllPass(r, Seconds(ms))
    decreases |ms|
  {
    if ms != [] {
      var t := ms[0] / 1000;
      assert Seconds(ms)[1..] == Seconds(ms[1..]);
      assert Paced(ms[1..], gap) by {
        assert forall i :: 0 < i < |ms[1..]| ==> ms[1..][i] == ms[i + 1] && ms[1..][i - 1] == ms[i];
      }
      assert ms[1..] != [] ==> ms[0] + gap <= ms[1] == ms[1..][0];
      if t - r.start >= r.window {
        PacedPasses(r.(count := 1, start := t), ms[1..], ms[0], gap);
      } else {
        if r.count == r.max {
          SpreadFull(r, last, gap, ms[0]);
        }
        SpreadNext(r, last, gap, ms[0]);
        PacedPasses(r.(count := r.count + 1), ms[1..], ms[0], gap);
      }
    }
  }

  /**
   Arrivals 200 ms apart or more always pass the session's limiter of five a second, however
   the clock cuts them into seconds; so does the stress client's 250 ms.
   */
  lemma {:induction false} PacingNeverRefused(ms: seq<nat>, t0: nat, gap: nat)
    requires gap >= 200 && Paced(ms, gap) && (ms != [] ==> t0 <= ms[0] / 1000)
    ensures AllPass(Limiter(0, t0, 5, 1), Seconds(ms))
  {
    PacedPasses(Limiter(0, t0, 5, 1), ms, 0, gap);
  }

  lemma {:induction false} SecondsBurst(ms: seq<nat>, t: nat)
    requires forall i :: 0 <= i < |ms| ==> ms[i] / 1000 == t
    ensures Seconds(ms) == Burst(t, |ms|)
  {
    if ms != [] {
      SecondsBurst(ms[1..], t);
    }
  }

  lemma {:induction false} SecondsAppend(ms: seq<nat>, ns: seq<nat>)
    ensures Seconds(ms + ns) == Seconds(ms) + Seconds(ns)
  {
    if ms == [] {
      assert ms + ns == ns;
    } else {
      assert (ms + ns)[1..] == ms[1..] + ns;
      SecondsAppend(ms[1..], ns);
    }
  }

  // Real time: arrivals in milliseconds, of which the limiter only sees the second.

  /** How many of the arrivals are let through at times in [a, b) milliseconds. */
  function Passed(r: Limiter, ms: seq<nat>, a: int, b: int): nat
    decreases |ms|
  {
    if ms == [] then 0
    else
      var (r', ok) := Checked(r, ms[0] / 1000);
      (if ok && a <= ms[0] < b then 1 else 0) + Passed(r', ms[1..], a, b)
  }

  /** Arrivals in order, none before second `t0`. */
  ghost predicate Arrivals(ms: seq<nat>, t0: nat) {
    (ms != [] ==> 1000 * t0 <= ms[0]) && forall i :: 0 < i < |ms| ==> ms[i - 1] <= ms[i]
  }

  lemma {:induction false} ArrivalsClock(ms: seq<nat>, t0: nat)
    requires Arrivals(ms, t0)
    ensures Clock(Seconds(ms), t0)
  {
  }

  /** When an arrival's millisecond is counted exactly when its second is, the counts agree. */
  lemma {:induction false} PassedAllowed(r: Limiter, ms: seq<nat>, a: int, b: int, c: int, d: int)
    requires forall i :: 0 <= i < |ms| ==> (a <= ms[i] < b <==> c <= ms[i] / 1000 < d)
    ensures Passed(r, ms, a, b) == Allowed(r, Seconds(ms), c, d)
    decreases |ms|
  {
    if ms != [] {
      assert Seconds(ms)[1..] == Seconds(ms[1..]);
      assert forall i :: 0 <= i < |ms[1..]| ==> ms[1..][i] == ms[i + 1];
      PassedAllowed(Checked(r, ms[0] / 1000).0, ms[1..], a, b, c, d);
    }
  }

  function Repeat(m: nat, n: nat): (ms: seq<nat>)
    ensures |ms| == n && forall i :: 0 <= i < n ==> ms[i] == m
  {
    if n == 0 then [] else [m] + Repeat(m, n - 1)
  }

  /** `max` requests at reading `t`, in a window that opens then or is still empty, all pass. */
  lemma {:induction false} FullBurst(r: Limiter, t: int, rest: seq<int>, a: int, b: int)
    requires r.max >= 1 && r.window >= 1 && a <= t < b
    requires t >= r.start + r.window || (r.start <= t && r.count == 0)
    ensures var start := if t >= r.start + r.window then t else r.start;
            Allowed(r, Burst(t, r.max) + rest, a, b)
            == r.max + Allowed(r.(count := r.max, start := start), rest, a, b)
  {
    var n := r.max;
    if t < r.start + r.window {
      BurstAllowed(r, t, n, rest, a, b);
    } else {
      var tail := Burst(t, n - 1) + rest;
      BurstCons(t, n, rest);
      assert ([t] + tail)[1..] == tail;
      assert Allowed(r, [t] + tail, a, b) == 1 + Allowed(r.(count := 1, start := t), tail, a, b);
      BurstAllowed(r.(count := 1, start := t), t, n - 1, rest, a, b);
    }
  }

  /** The second in which the window that a first request at `a` falls into is over. */
  function WindowEnd(t0: nat, w: nat, a: nat): nat {
    if a / 1000 < t0 + w then t0 + w else a / 1000 + w
  }

  /** `max` arrivals at millisecond `a`, `max` more at second `b`. */
  function TwoBursts(a: nat, b: nat, max: nat): seq<nat> {
    Repeat(a, max) + Repeat(1000 * b, max)
  }

  lemma TwoBurstsArrive(a: nat, b: nat, max: nat, t0: nat)
    requires 1000 * t0 <= a <= 1000 * b
    ensures Arrivals(TwoBursts(a, b, max), t0)
    ensures forall m :: m in TwoBursts(a, b, max) ==> m == a || m == 1000 * b
  {
  }

  lemma {:induction false} TwoBurstsPass(max: nat, w: nat, t0: nat, a: nat)
    requires max >= 1 && w >= 1 && 1000 * t0 <= a
    ensures var b := WindowEnd(t0, w, a);
            Allowed(Limiter(0, t0, max, w), Burst(a / 1000, max) + Burst(b, max), a / 1000, b + 1) == 2 * max
  {
    var r, q, b := Limiter(0, t0, max, w), a / 1000, WindowEnd(t0, w, a);
    FullBurst(r, q, Burst(b, max), q, b + 1);
    assert Burst(b, max) + [] == Burst(b, max);
    FullBurst(r.(count := max, start := if q >= t0 + w then q else t0), b, [], q, b + 1);
  }

  /**
   Twice the limit can pass within one window's length from any moment inside the limiter's first
   window, its beginning apart, and later from any moment that is not a whole second.
   */
  lemma {:induction false} TwiceTheLimit(max: nat, w: nat, t0: nat, a: nat)
    requires max >= 1 && w >= 1 && 1000 * t0 < a && (a < 1000 * (t0 + w) || a % 1000 != 0)
    ensures var ms := TwoBursts(a, WindowEnd(t0, w, a), max);
            Arrivals(ms, t0) && Passed(Limiter(0, t0, max, w), ms, a, a + 1000 * w) == 2 * max
  {
    var r, q, b := Limiter(0, t0, max, w), a / 1000, WindowEnd(t0, w, a);
    TwoBurstsArrive(a, b, max, t0);
    PassedAllowed(r, TwoBursts(a, b, max), a, a + 1000 * w, q, b + 1);
    SecondsAppend(Repeat(a, max), Repeat(1000 * b, max));
    SecondsBurst(Repeat(a, max), q);
    SecondsBurst(Repeat(1000 * b, max), b);
    TwoBurstsPass(max, w, t0, a);
  }

  /** One arrival a second before `a`, which opens a window, and two bursts that fill it and the next. */
  function Straddling(a: nat, max: nat, w: nat): seq<nat>
    requires a >= 1000 && max >= 1 && w >= 1
  {
    [a - 1000] + (Repeat(a, max - 1) + Repeat(a + 1000 * (w - 1), max))
  }

  lemma StraddlingPasses(max: nat, w: nat, t0: nat, q: nat)
    requires max >= 1 && w >= 2 && q > t0 + w
    ensures Allowed(Limiter(0, t0, max, w), [q - 1] + (Burst(q, max - 1) + Burst(q + w - 1, max)), q, q + w)
            == 2 * max - 1
  {
    var r, tail := Limiter(0, t0, max, w), Burst(q, max - 1) + Burst(q + w - 1, max);
    var begun := r.(count := 1, start := q - 1);
    assert ([q - 1] + tail)[1..] == tail;
    BurstAllowed(begun, q, max - 1, Burst(q + w - 1, max), q, q + w);
    assert Burst(q + w - 1, max) + [] == Burst(q + w - 1, max);
    FullBurst(begun.(count := max), q + w - 1, [], q, q + w);
  }

  lemma {:induction false} StraddlingSeconds(q: nat, max: nat, w: nat)
    requires q >= 1 && max >= 1 && w >= 1
    ensures Seconds(Straddling(1000 * q, max, w)) == [q - 1] + (Burst(q, max - 1) + Burst(q + w - 1, max))
  {
    var first, second := Repeat(1000 * q, max - 1), Repeat(1000 * q + 1000 * (w - 1), max);
    SecondsRepeat(1000 * q, max - 1, q);
    SecondsRepeat(1000 * q + 1000 * (w - 1), max, q + w - 1);
    assert Seconds(first + second) == Burst(q, max - 1) + Burst(q + w - 1, max) by {
      SecondsAppend(first, second);
    }
    SecondsCons(1000 * (q - 1), first + second);
  }

  lemma {:induction false} SecondsRepeat(m: nat, n: nat, t: nat)
    requires 1000 * t <= m < 1000 * (t + 1)
    ensures Seconds(Repeat(m, n)) == Burst(t, n)
  {
    assert m / 1000 == t;
    SecondsBurst(Repeat(m, n), t);
  }

  lemma {:induction false} SecondsCons(m: nat, ms: seq<nat>)
    ensures Seconds([m] + ms) == [m / 1000] + Seconds(ms)
  {
    assert ([m] + ms)[1..] == ms;
  }

  lemma StraddlingArrives(a: nat, max: nat, w: nat, t0: nat)
    requires max >= 1 && w >= 2 && a >= 1000 * (t0 + 1)
    ensures Arrivals(Straddling(a, max, w), t0)
    ensures forall k :: 0 < k < |Straddling(a, max, w)| ==> a <= Straddling(a, max, w)[k] < a + 1000 * w
    ensures Straddling(a, max, w)[0] == a - 1000
  {
  }

  /** From a later whole second, with a window of two seconds or more, one less than twice the limit can. */
  lemma {:induction false} AlmostTwice(max: nat, w: nat, t0: nat, a: nat)
    requires max >= 1 && w >= 2 && a % 1000 == 0 && a > 1000 * (t0 + w)
    ensures var ms := Straddling(a, max, w);
            Arrivals(ms, t0) && Passed(Limiter(0, t0, max, w), ms, a, a + 1000 * w) == 2 * max - 1
  {
    var r, q := Limiter(0, t0, max, w), a / 1000;
    StraddlingArrives(a, max, w, t0);
    PassedAllowed(r, Straddling(a, max, w), a, a + 1000 * w, q, q + w);
    assert a == 1000 * q;
    StraddlingSeconds(q, max, w);
    StraddlingPasses(max, w, t0, q);
  }

  /** A full window lets nothing more through. */
  lemma {:induction false} NoneInWindow(r: Limiter, ts: seq<int>, a: int, b: int)
    requires r.count >= r.max && b <= r.start + r.window && Clock(ts, r.start)
    ensures Allowed(r, ts, a, b) == 0
    decreases |ts|
  {
    if ts != [] {
      ClockTail(ts, r.start);
      if ts[0] - r.start >= r.window {
        NoneLater(Checked(r, ts[0]).0, ts[1..], a, b);
      } else {
        assert Clock(ts[1..], r.start);
        NoneInWindow(r, ts[1..], a, b);
      }
    }
  }

  /** With a limit of one, a window's length that begins after the first window sees one request. */
  lemma {:induction false} OnlyOne(r: Limiter, ts: seq<int>, a: int)
    requires r.max == 1 && r.window >= 1 && Clock(ts, r.start) && (r.count >= 1 || r.start + r.window <= a)
    ensures Allowed(r, ts, a, a + r.window) <= 1
    decreases |ts|
  {
    if ts != [] {
      ClockTail(ts, r.start);
      var (r', ok) := Checked(r, ts[0]);
      assert Clock(ts[1..], r'.start);
      if ok && a <= ts[0] < a + r.window {
        NoneInWindow(r', ts[1..], a, a + r.window);
      } else {
        OnlyOne(r', ts[1..], a);
      }
    }
  }

  /** The moments from which no more than the limit ever pass within one window's length. */
  predicate SafeMoment(max: nat, w: nat, t0: nat, a: nat) {
    && a % 1000 == 0
    && (w == 1 || a == 1000 * t0 || a == 1000 * (t0 + w) || (max == 1 && a >= 1000 * (t0 + w)))
  }

  /** What a sliding window would promise at millisecond `a`. */
  predicate SlidesAt(r: Limiter, ms: seq<nat>, a: int) {
    Passed(r, ms, a, a + 1000 * r.window) <= r.max
  }

  lemma {:induction false} SafeReadings(max: nat, w: nat, t0: nat, q: nat, ts: seq<int>)
    requires max >= 1 && w >= 1 && t0 <= q && SafeMoment(max, w, t0, 1000 * q) && Clock(ts, t0)
    ensures Allowed(Limiter(0, t0, max, w), ts, q, q + w) <= max
  {
    var r := Limiter(0, t0, max, w);
    if w == 1 {
      WindowBound(max, 1, t0, ts, q, 1, 0);
    } else if max == 1 && q >= t0 + w {
      OnlyOne(r, ts, q);
    } else {
      AllowedFrom(r, ts, q, q + w);
      assert q == t0 ==> Starts(Max(t0 + w, q - w + 1), q + w, w) == 0;
      assert q == t0 + w ==> Starts(Max(t0 + w, q - w + 1), q + w, w) == 1;
    }
  }

  /**
   In real time, for every window and limit: no arrivals at all let more than `max` through in the
   window's length that begins at millisecond `a` exactly when `a` is a safe moment.
   */
  lemma RealTimeExactly(max: nat, w: nat, t0: nat, a: nat)
    requires max >= 1 && w >= 1 && 1000 * t0 <= a
    ensures (forall ms :: Arrivals(ms, t0) ==> SlidesAt(Limiter(0, t0, max, w), ms, a))
            <==> SafeMoment(max, w, t0, a)
  {
    var r, q := Limiter(0, t0, max, w), a / 1000;
    if SafeMoment(max, w, t0, a) {
      forall ms | Arrivals(ms, t0)
        ensures SlidesAt(r, ms, a)
      {
        ArrivalsClock(ms, t0);
        PassedAllowed(r, ms, a, a + 1000 * w, q, q + w);
        SafeReadings(max, w, t0, q, Seconds(ms));
      }
    } else if a < 1000 * (t0 + w) || a % 1000 != 0 {
      TwiceTheLimit(max, w, t0, a);
      assert !SlidesAt(r, TwoBursts(a, WindowEnd(t0, w, a), max), a);
    } else {
      AlmostTwice(max, w, t0, a);
      assert !SlidesAt(r, Straddling(a, max, w), a);
    }
  }

  /** Never more than twice the limit within one window's length of time. */
  lemma RealTimeBound(max: nat, w: nat, t0: nat, a: nat, ms: seq<nat>)
    requires max >= 1 && w >= 1 && Arrivals(ms, t0)
    ensures Passed(Limiter(0, t0, max, w), ms, a, a + 1000 * w) <= 2 * max
  {
    var r, q := Limiter(0, t0, max, w), a / 1000;
    ArrivalsClock(ms, t0);
    PassedWithin(r, ms, a, a + 1000 * w, q, q + w + 1);
    WindowBound(max, w, t0, Seconds(ms), q, w + 1, 1);
  }

  lemma {:induction false} PassedWithin(r: Limiter, ms: seq<nat>, a: int, b: int, c: int, d: int)
    requires forall i :: 0 <= i < |ms| && a <= ms[i] < b ==> c <= ms[i] / 1000 < d
    ensures Passed(r, ms, a, b) <= Allowed(r, Seconds(ms), c, d)
    decreases |ms|
  {
    if ms != [] {
      assert Seconds(ms)[1..] == Seconds(ms[1..]);
      assert forall i :: 0 <= i < |ms[1..]| ==> ms[1..][i] == ms[i + 1];
      PassedWithin(Checked(r, ms[0] / 1000).0, ms[1..], a, b, c, d);
    }
  }

  /** The session's limiter of five a second lets ten requests through within two milliseconds. */
  lemma TenInTwoMilliseconds()
    ensures Passed(Limiter(0, 0, 5, 1), TwoBursts(999, 1, 5), 999, 1999) == 10
    ensures forall m :: m in TwoBursts(999, 1, 5) ==> 999 <= m < 1001
  {
    TwiceTheLimit(5, 1, 0, 999);
    TwoBurstsArrive(999, 1, 5, 0);
  }
}
