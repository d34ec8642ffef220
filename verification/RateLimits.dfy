/** The spacing of rate limited requests.  backpack.tf counts requests in a sliding window;
    the limiter only spaces their starts, and requests arrive some time after they start.
    Times and windows are whole milliseconds. */
module RateLimits {
  import opened Collections

  datatype RateLimitConfig = RateLimitConfig(requests: nat, window: nat)

  datatype Options = Options(maxConcurrent: nat, reservoir: nat, reservoirIncreaseInterval: nat, minTime: nat)

  /** `Math.ceil(n / d)` */
  function CeilDiv(n: nat, d: nat): nat
    requires d > 0
  {
    (n + d - 1) / d
  }

  function LimiterOptions(config: RateLimitConfig): Options
    requires config.requests > 0
  {
    Options(1, config.requests, config.window, CeilDiv(config.window, config.requests) + 1000)
  }

  /** One request at a time, as many in reserve as the window allows, refilled once a window. */
  lemma OptionsOfLimit(config: RateLimitConfig)
    requires config.requests > 0
    ensures var options := LimiterOptions(config);
      && options.maxConcurrent == 1 && options.reservoir == config.requests
      && options.reservoirIncreaseInterval == config.window
      && options.minTime * config.requests >= config.window + 1000 * config.requests
      && (options.minTime - 1) * config.requests < config.window + 1000 * config.requests
  {
    CeilIsLeast(config.window, config.requests);
    var c := CeilDiv(config.window, config.requests);
    assert (c + 1000) * config.requests == c * config.requests + 1000 * config.requests;
    assert (c + 999) * config.requests == (c - 1) * config.requests + 1000 * config.requests;
  }

  lemma CeilIsLeast(n: nat, d: nat)
    requires d > 0
    ensures CeilDiv(n, d) * d >= n && (CeilDiv(n, d) - 1) * d < n
  {
    var c := CeilDiv(n, d);
    assert c * d + (n + d - 1) % d == n + d - 1;
    assert (c - 1) * d == c * d - d;
  }

  /** Each request starts at least `minTime` after the one before it. */
  predicate Spaced(starts: seq<int>, minTime: nat) {
    forall i :: 0 <= i < |starts| - 1 ==> starts[i + 1] - starts[i] >= minTime
  }

  /** Request `i` arrives `delays[i]` after its start, at most `most` later. */
  predicate DelayedBy(delays: seq<int>, most: int) {
    forall i :: 0 <= i < |delays| ==> 0 <= delays[i] <= most
  }

  /** The requests that arrive in the closed window that begins at `from`. */
  function Arrivals(starts: seq<int>, delays: seq<int>, from: int, window: nat): set<nat>
    requires |starts| == |delays|
  {
    set i: nat | i < |starts| && from <= starts[i] + delays[i] <= from + window
  }

  /** However the requests start and arrive, no window sees more than `requests` of them. */
  ghost predicate Safe(config: RateLimitConfig, minTime: nat, most: int) {
    forall starts: seq<int>, delays: seq<int>, from: int ::
      |starts| == |delays| && Spaced(starts, minTime) && DelayedBy(delays, most) ==>
        |Arrivals(starts, delays, from, config.window)| <= config.requests
  }

  lemma {:induction false} SpacedFar(starts: seq<int>, minTime: nat, i: nat, j: nat)
    requires Spaced(starts, minTime) && i <= j < |starts|
    ensures starts[j] - starts[i] >= (j - i) * minTime
  {
    if i < j {
      SpacedFar(starts, minTime, i, j - 1);
      assert (j - i) * minTime == (j - 1 - i) * minTime + minTime;
    }
  }

  /** `n` numbers from `from` on. */
  function Interval(from: nat, n: nat): set<nat> {
    if n == 0 then {} else Interval(from, n - 1) + {from + n - 1}
  }

  lemma {:induction false} IntervalHas(from: nat, n: nat)
    ensures |Interval(from, n)| == n
    ensures forall k: nat :: k in Interval(from, n) <==> from <= k < from + n
  {
    if n > 0 { IntervalHas(from, n - 1); }
  }

  lemma {:induction false} Least(s: set<nat>) returns (i: nat)
    requires s != {}
    ensures i in s && forall k :: k in s ==> i <= k
  {
    i :| i in s;
    var rest := s - {i};
    assert s == rest + {i};
    if rest != {} {
      var j := Least(rest);
      if j < i { i := j; }
    }
  }

  /** Among more than `n` numbers two are at least `n` apart. */
  lemma FarApart(s: set<nat>, n: nat) returns (i: nat, j: nat)
    requires |s| > n
    ensures i in s && j in s && j - i >= n
  {
    i := Least(s);
    IntervalHas(i, n);
    if s <= Interval(i, n) { SubsetSize(s, Interval(i, n)); }
    j :| j in s && j !in Interval(i, n);
  }

  /** Starts spaced by `minTime` keep every window, for exactly the delays below
      `requests * minTime - window`. */
  lemma SafeExactlyBelow(config: RateLimitConfig, minTime: nat, most: nat)
    requires config.requests > 0 && config.requests * minTime >= config.window
    ensures Safe(config, minTime, most) <==> most < config.requests * minTime - config.window
  {
    if most < config.requests * minTime - config.window {
      forall starts: seq<int>, delays: seq<int>, from: int
        | |starts| == |delays| && Spaced(starts, minTime) && DelayedBy(delays, most)
        ensures |Arrivals(starts, delays, from, config.window)| <= config.requests
      {
        WindowKept(config, minTime, most, starts, delays, from);
      }
    } else {
      var starts, delays := Worst(config, minTime, most);
      assert |Arrivals(starts, delays, most, config.window)| > config.requests;
    }
  }

  lemma WindowKept(config: RateLimitConfig, minTime: nat, most: nat, starts: seq<int>, delays: seq<int>, from: int)
    requires config.requests > 0 && most < config.requests * minTime - config.window
    requires |starts| == |delays| && Spaced(starts, minTime) && DelayedBy(delays, most)
    ensures |Arrivals(starts, delays, from, config.window)| <= config.requests
  {
    var s := Arrivals(starts, delays, from, config.window);
    if |s| > config.requests {
      var i, j := FarApart(s, config.requests);
      SpacedFar(starts, minTime, i, j);
      MoreTimes(config.requests, j - i, minTime);
      assert false;
    }
  }

  lemma MoreTimes(m: nat, n: nat, x: nat)
    requires m <= n
    ensures m * x <= n * x
  {
  }

  /** The earliest requests delayed until one more than allowed arrives in a window. */
  lemma Worst(config: RateLimitConfig, minTime: nat, most: nat) returns (starts: seq<int>, delays: seq<int>)
    requires config.requests * minTime >= config.window && most >= config.requests * minTime - config.window
    ensures |starts| == |delays| && Spaced(starts, minTime) && DelayedBy(delays, most)
    ensures |Arrivals(starts, delays, most, config.window)| == config.requests + 1
  {
    var n := config.requests + 1;
    starts := seq(n, i requires 0 <= i < n => i * minTime);
    delays := seq(n, i requires 0 <= i < n => if i * minTime < most then most - i * minTime else 0);
    forall i | 0 <= i < n - 1 ensures starts[i + 1] - starts[i] >= minTime {
      assert (i + 1) * minTime == i * minTime + minTime;
    }
    forall i | 0 <= i < n ensures most <= starts[i] + delays[i] <= most + config.window && 0 <= delays[i] <= most {
      MoreTimes(i, config.requests, minTime);
    }
    IntervalHas(0, n);
    assert Arrivals(starts, delays, most, config.window) == Interval(0, n);
  }

  lemma CeilDivTimes(n: nat, d: nat)
    requires d > 0
    ensures n <= d * CeilDiv(n, d) < n + d
  {
  }

  /** The limiter keeps every sliding window, even when requests arrive up to (not including)
      `1000 * requests` milliseconds after their start. */
  lemma LimiterKeepsWindow(config: RateLimitConfig, most: nat)
    requires config.requests > 0 && most < 1000 * config.requests
    ensures Safe(config, LimiterOptions(config).minTime, most)
  {
    CeilDivTimes(config.window, config.requests);
    var minTime := LimiterOptions(config).minTime;
    assert config.requests * minTime == config.requests * CeilDiv(config.window, config.requests) +
        config.requests * 1000;
    SafeExactlyBelow(config, minTime, most);
  }

  /** When the window divides evenly this is exact; without the extra second even requests
      that arrive at once can exceed the limit. */
  lemma ExtraSecondIsNeeded(config: RateLimitConfig, most: nat)
    requires config.requests > 0 && config.window % config.requests == 0
    ensures Safe(config, LimiterOptions(config).minTime, most) <==> most < 1000 * config.requests
    ensures !Safe(config, CeilDiv(config.window, config.requests), 0)
  {
    var d := config.window / config.requests;
    assert config.window == d * config.requests;
    CeilDivTimes(config.window, config.requests);
    ExactCeil(d, config.requests);
    var minTime := LimiterOptions(config).minTime;
    assert config.requests * minTime == config.requests * d + config.requests * 1000;
    SafeExactlyBelow(config, minTime, most);
    SafeExactlyBelow(config, d, 0);
  }

  lemma ExactCeil(q: nat, d: nat)
    requires d > 0
    ensures CeilDiv(q * d, d) == q
  {
    CeilDivTimes(q * d, d);
    var c := CeilDiv(q * d, d);
    if c > q { MoreTimes(q + 1, c, d); }
    if c < q { MoreTimes(c + 1, q, d); }
  }
}
