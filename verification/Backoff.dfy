/** Backing off after failed inventory requests: a local backoff in two variables, and one in
    two Redis keys that every bot on the same rate limit key shares.  Requests hold the one
    slot of their limiter from reading the remaining wait to updating the backoff.
    Times are milliseconds. */
module Backoff {
  import opened Wrappers

  // ----- how long to wait

  datatype Strategy = Exponential | Linear | Fixed

  function Exp2(n: int): real
    decreases if n < 0 then -n else n
  {
    if n == 0 then 1.0 else if n > 0 then 2.0 * Exp2(n - 1) else Exp2(n + 1) / 2.0
  }

  function Min(a: real, b: real): real {
    if a <= b then a else b
  }

  /** `Math.round` */
  function Round(x: real): int {
    (x + 0.5).Floor
  }

  function Wait(attempts: int, strategy: Strategy, delay: real): real {
    match strategy
    case Exponential => Exp2(attempts - 1) * delay
    case Linear => attempts as real * delay
    case Fixed => delay
  }

  function Scaled(x: real, factor: real): real {
    x * factor
  }

  /** `random` is what `Math.random()` returns. */
  function Jittered(wait: real, jitter: real, random: real): int {
    Round(Scaled(wait, 1.0 - Scaled(jitter, random)))
  }

  function CalculateBackoff(attempts: int, strategy: Strategy, delay: real, maxDelay: real, jitter: real,
                            random: real): int {
    Jittered(Min(Wait(attempts, strategy, delay), maxDelay), jitter, random)
  }

  function BackoffDelay(attempts: int): int {
    CalculateBackoff(attempts, Exponential, 30000.0, 180000.0, 0.0, 0.0)
  }

  lemma {:induction false} Exp2Grows(n: nat)
    ensures Exp2(n + 1) == 2.0 * Exp2(n) && Exp2(n) >= 1.0
  {
    if n > 0 { Exp2Grows(n - 1); }
  }

  lemma {:induction false} Exp2Doubles(n: int)
    ensures Exp2(0) == 1.0 && Exp2(n + 1) == 2.0 * Exp2(n)
    decreases if n < 0 then -n else n
  {
    if n < -1 { Exp2Doubles(n + 1); }
  }

  /** From one attempt to the next a wait doubles, grows by the delay, or stays the delay. */
  lemma StrategiesGrow(attempts: int, delay: real)
    ensures Wait(1, Exponential, delay) == Wait(1, Linear, delay) == Wait(attempts, Fixed, delay) == delay
    ensures var wait := Wait(attempts, Exponential, delay); Wait(attempts + 1, Exponential, delay) == wait + wait
    ensures Wait(attempts + 1, Linear, delay) == Wait(attempts, Linear, delay) + delay
  {
    Exp2Doubles(attempts - 1);
    Exp2Doubles(0);
    assert (2.0 * Exp2(attempts - 1)) * delay == Exp2(attempts - 1) * delay + Exp2(attempts - 1) * delay;
  }

  lemma RoundKeepsOrder(x: real, y: real)
    requires x <= y
    ensures Round(x) <= Round(y)
  {
  }

  lemma ScaledBetween(x: real, a: real, b: real)
    requires x >= 0.0 && a <= b
    ensures Scaled(x, a) <= Scaled(x, b)
  {
  }

  lemma ScaledByEnds(x: real)
    ensures Scaled(x, 0.0) == 0.0 == Scaled(0.0, x) && Scaled(x, 1.0) == x
  {
  }

  lemma JitteredBetween(m: real, jitter: real, random: real)
    requires m >= 0.0 && 0.0 <= jitter <= 1.0 && 0.0 <= random < 1.0
    ensures 0 <= Jittered(m, jitter, 1.0) <= Jittered(m, jitter, random) <= Jittered(m, 0.0, random)
    ensures Jittered(m, 0.0, random) == Round(m)
  {
    hide Scaled, Round;
    ScaledByEnds(m);
    ScaledByEnds(jitter);
    ScaledByEnds(random);
    ScaledBetween(jitter, 0.0, random);
    ScaledBetween(jitter, random, 1.0);
    var share := Scaled(jitter, random);
    ScaledBetween(m, 0.0, 1.0 - jitter);
    ScaledBetween(m, 1.0 - jitter, 1.0 - share);
    ScaledBetween(m, 1.0 - share, 1.0);
    RoundKeepsOrder(0.0, Scaled(m, 1.0 - jitter));
    RoundKeepsOrder(Scaled(m, 1.0 - jitter), Scaled(m, 1.0 - share));
    RoundKeepsOrder(Scaled(m, 1.0 - share), m);
    RoundZero();
  }

  lemma RoundZero()
    ensures Round(0.0) == 0
  {
  }

  lemma WaitIsPositive(attempts: int, strategy: Strategy, delay: real)
    requires attempts >= 1 && delay >= 0.0
    ensures Wait(attempts, strategy, delay) >= 0.0
  {
    Exp2Grows(attempts - 1);
  }

  /** Jitter only shortens a wait, by at most its share, and nothing waits longer than the cap. */
  lemma JitterOnlyShortens(attempts: int, strategy: Strategy, delay: real, maxDelay: real, jitter: real, random: real)
    requires attempts >= 1 && delay >= 0.0 && maxDelay >= 0.0 && 0.0 <= jitter <= 1.0 && 0.0 <= random < 1.0
    ensures 0 <= CalculateBackoff(attempts, strategy, delay, maxDelay, jitter, 1.0)
      <= CalculateBackoff(attempts, strategy, delay, maxDelay, jitter, random)
      <= CalculateBackoff(attempts, strategy, delay, maxDelay, 0.0, random) <= Round(maxDelay)
  {
    WaitIsPositive(attempts, strategy, delay);
    var m := Min(Wait(attempts, strategy, delay), maxDelay);
    assert 0.0 <= m <= maxDelay;
    JitteredBetween(m, jitter, random);
    RoundKeepsOrder(m, maxDelay);
    hide Jittered, Min, Wait, Round;
  }

  /** Exactly, the shorter of wait and cap loses the jitter's share of it times a random number, and
      what is left is rounded to the nearest number, halves up. */
  lemma JitterTakesItsShare(attempts: int, strategy: Strategy, delay: real, maxDelay: real, jitter: real, random: real)
    ensures var wait := Wait(attempts, strategy, delay);
      var left := (if wait < maxDelay then wait else maxDelay) * (1.0 - jitter * random);
      var rounded := CalculateBackoff(attempts, strategy, delay, maxDelay, jitter, random) as real;
      rounded - 0.5 <= left < rounded + 0.5
  {
    hide Wait;
  }

  lemma BackoffDelayIs(attempts: int)
    requires attempts >= 1
    ensures BackoffDelay(attempts) ==
      if attempts == 1 then 30000 else if attempts == 2 then 60000 else if attempts == 3 then 120000 else 180000
  {
    Exp2Grows(0);
    Exp2Grows(1);
    if attempts > 3 { Exp2AtLeast8(attempts - 1); }
  }

  lemma {:induction false} Exp2AtLeast8(n: nat)
    requires n >= 3
    ensures Exp2(n) >= 8.0
  {
    if n == 3 {
      Exp2Grows(0);
      Exp2Grows(1);
      Exp2Grows(2);
    } else {
      Exp2AtLeast8(n - 1);
      Exp2Grows(n - 1);
    }
  }

  /** Consecutive failures never shorten the wait, which is at most three minutes. */
  lemma WaitsGrow(attempts: int, more: int)
    requires 1 <= attempts <= more
    ensures 30000 <= BackoffDelay(attempts) <= BackoffDelay(more) <= 180000
    ensures attempts < more && BackoffDelay(attempts) < 180000 ==> BackoffDelay(attempts) < BackoffDelay(more)
  {
    BackoffDelayIs(attempts);
    BackoffDelayIs(more);
  }

  // ----- the local backoff

  datatype Local = Local(attempts: nat, attemptAt: int)

  const LOCAL := Local(0, 0)

  function LocalRemaining(l: Local, now: int): int {
    l.attemptAt - now
  }

  function LocalIncreased(l: Local, now: int): Local {
    Local(l.attempts + 1, now + BackoffDelay(l.attempts + 1))
  }

  function LocalDecreased(l: Local, now: int, gap: int): Local {
    Local(if l.attempts > 0 then l.attempts - 1 else 0, now + gap)
  }

  // ----- the Redis backoff

  datatype Counter = Counter(value: int, expiresAt: Option<int>)

  datatype Keys = Keys(attempts: Option<Counter>, blockedUntil: Option<int>)

  const NO_KEYS := Keys(None, None)

  const ATTEMPTS_TTL := 60 * 60 * 1000

  predicate Alive(c: Option<Counter>, now: int) {
    c.Some? && (c.value.expiresAt.Some? ==> now < c.value.expiresAt.value)
  }

  /** `incrby`; a counter that is gone starts at 0 without a time to live. */
  function IncrBy(c: Option<Counter>, now: int, amount: int): Counter {
    if Alive(c, now) then c.value.(value := c.value.value + amount) else Counter(amount, None)
  }

  function Expire(c: Counter, now: int, ttl: int): Counter {
    if Alive(Some(c), now) then c.(expiresAt := Some(now + ttl)) else c
  }

  function Pttl(until: Option<int>, now: int): int {
    if until.Some? && now < until.value then until.value - now else -2
  }

  function RedisRemaining(k: Keys, now: int): int {
    Pttl(k.blockedUntil, now)
  }

  /** Its three commands run at three times. */
  function RedisIncreased(k: Keys, t1: int, t2: int, t3: int): Keys {
    var c := IncrBy(k.attempts, t1, 1);
    Keys(Some(Expire(c, t2, ATTEMPTS_TTL)), Some(t3 + BackoffDelay(c.value)))
  }

  function RedisDecreased(k: Keys, t1: int, t3: int, gap: int): Keys {
    var c := IncrBy(k.attempts, t1, -1);
    Keys(if c.value <= 0 then None else Some(c), if gap > 0 then Some(t3 + gap) else k.blockedUntil)
  }

  function Level(k: Keys, now: int): int {
    if Alive(k.attempts, now) then k.attempts.value.value else 0
  }

  /** The counter outlives the block it set by far, if its commands run within 57 minutes, so the
      next failure counts on. */
  lemma CounterOutlivesBlock(k: Keys, t1: int, t2: int, t3: int, now: int)
    requires t1 <= t2 <= t3 < t2 + 57 * 60 * 1000 && Level(k, t1) >= 0
    requires k.attempts.Some? && Alive(k.attempts, t1) ==> Alive(k.attempts, t2)
    ensures var after := RedisIncreased(k, t1, t2, t3);
      RedisRemaining(after, now) > 0 && now >= t3 ==> Level(after, now) == Level(k, t1) + 1
  {
    BackoffDelayIs(IncrBy(k.attempts, t1, 1).value);
    hide BackoffDelay;
  }

  /** After an hour without a failure the counter is gone, and not before; it is gone at once if it
      expires while it is counted up. */
  lemma CounterLivesAnHour(k: Keys, t1: int, t2: int, t3: int, now: int)
    requires t1 <= t2 <= now && Level(k, t1) >= 0
    ensures Level(RedisIncreased(k, t1, t2, t3), now) ==
      if now - t2 < 3600000 && (Alive(k.attempts, t1) ==> Alive(k.attempts, t2)) then Level(k, t1) + 1 else 0
  {
    hide BackoffDelay;
  }

  /** A success takes one level off, if there is one, and blocks for a positive gap only; what was
      blocked before stays so otherwise. */
  lemma SuccessStepsDown(k: Keys, t1: int, t3: int, gap: int)
    requires Level(k, t1) >= 0
    ensures var after := RedisDecreased(k, t1, t3, gap);
      && Level(after, t1) == (if Level(k, t1) > 0 then Level(k, t1) - 1 else 0)
      && (gap <= 0 ==> after.blockedUntil == k.blockedUntil)
      && (gap > 0 ==> forall now :: now >= t3 ==> Positive(RedisRemaining(after, now)) == Positive(t3 + gap - now))
  {
  }

  // ----- one simulates the other

  function Positive(x: int): int {
    if x > 0 then x else 0
  }

  /** At `now` both are at the same level, and from now on both leave the same wait. */
  predicate Agree(l: Local, k: Keys, now: int) {
    && Level(k, now) == l.attempts
    && (k.attempts.Some? ==> Alive(k.attempts, now) && l.attempts > 0 && k.attempts.value.expiresAt.Some?)
    && (k.blockedUntil == Some(l.attemptAt) ||
        (l.attemptAt <= now && (k.blockedUntil.Some? ==> k.blockedUntil.value <= now)))
  }

  lemma AgreeOnWaits(l: Local, k: Keys, now: int, later: int)
    requires Agree(l, k, now) && now <= later
    ensures Positive(LocalRemaining(l, later)) == Positive(RedisRemaining(k, later))
  {
  }

  datatype Outcome = Failed | Worked(gap: int) | GaveUp

  /** A turn in the slot: when it reads the wait, when it sends its request, and the times at
      which it updates the backoff. */
  datatype Turn = Turn(start: int, sent: int, t1: int, t2: int, t3: int, outcome: Outcome)

  /** A turn waits out what is left of the backoff before it sends its request. */
  predicate Waits(turn: Turn, remaining: int) {
    && turn.start <= turn.sent <= turn.t1 <= turn.t2 <= turn.t3
    && (turn.outcome != GaveUp ==> turn.sent >= turn.start + Positive(remaining))
  }

  function LocalAfter(l: Local, turn: Turn): Local {
    match turn.outcome
    case Failed => LocalIncreased(l, turn.t3)
    case Worked(gap) => LocalDecreased(l, turn.t3, gap)
    case GaveUp => l
  }

  function RedisAfter(k: Keys, turn: Turn): Keys {
    match turn.outcome
    case Failed => RedisIncreased(k, turn.t1, turn.t2, turn.t3)
    case Worked(gap) => RedisDecreased(k, turn.t1, turn.t3, gap)
    case GaveUp => k
  }

  /** The counter lives until the turn is over: less than an hour since the last failure. */
  predicate InTime(k: Keys, turn: Turn) {
    && (k.attempts.Some? ==> Alive(k.attempts, turn.t3))
    && turn.t3 - turn.t2 < ATTEMPTS_TTL
  }

  lemma TurnsAgree(l: Local, k: Keys, now: int, turn: Turn)
    requires Agree(l, k, now) && now <= turn.start && Waits(turn, RedisRemaining(k, turn.start)) && InTime(k, turn)
    ensures Agree(LocalAfter(l, turn), RedisAfter(k, turn), turn.t3)
  {
    AgreeOnWaits(l, k, now, turn.start);
    hide BackoffDelay;
  }

  ghost predicate Schedule(l: Local, k: Keys, now: int, turns: seq<Turn>)
    decreases |turns|
  {
    turns == [] ||
    (now <= turns[0].start && Waits(turns[0], RedisRemaining(k, turns[0].start)) && InTime(k, turns[0])
     && Schedule(LocalAfter(l, turns[0]), RedisAfter(k, turns[0]), turns[0].t3, turns[1..]))
  }

  function LocalAfterAll(l: Local, turns: seq<Turn>): Local
    decreases |turns|
  {
    if turns == [] then l else LocalAfterAll(LocalAfter(l, turns[0]), turns[1..])
  }

  function RedisAfterAll(k: Keys, turns: seq<Turn>): Keys
    decreases |turns|
  {
    if turns == [] then k else RedisAfterAll(RedisAfter(k, turns[0]), turns[1..])
  }

  /** After any run of turns in the slot, the Redis backoff is at the level of a local one and
      leaves the same wait at every later time. */
  lemma {:induction false} RedisSimulatesLocal(l: Local, k: Keys, now: int, turns: seq<Turn>, later: int)
    requires Agree(l, k, now) && Schedule(l, k, now, turns)
    requires later >= if turns == [] then now else turns[|turns| - 1].t3
    ensures var l', k' := LocalAfterAll(l, turns), RedisAfterAll(k, turns);
      && Positive(LocalRemaining(l', later)) == Positive(RedisRemaining(k', later))
      && Agree(l', k', if turns == [] then now else turns[|turns| - 1].t3)
    decreases |turns|
  {
    if turns == [] {
      AgreeOnWaits(l, k, now, later);
    } else {
      TurnsAgree(l, k, now, turns[0]);
      RedisSimulatesLocal(LocalAfter(l, turns[0]), RedisAfter(k, turns[0]), turns[0].t3, turns[1..], later);
      assert turns[1..] != [] ==> turns[1..][|turns[1..]| - 1] == turns[|turns| - 1];
    }
  }

  /** Once the counter has expired they part: the next update brings them together again
      exactly if it is a success after a single failure. */
  lemma ExpiryParts(l: Local, k: Keys, now: int, turn: Turn)
    requires Agree(l, k, now) && k.attempts.Some? && now <= turn.start && Waits(turn, RedisRemaining(k, turn.start))
    requires k.attempts.value.expiresAt.value <= turn.t1 && turn.t3 - turn.t2 < ATTEMPTS_TTL && turn.outcome != GaveUp
    ensures Agree(LocalAfter(l, turn), RedisAfter(k, turn), turn.t3) <==> turn.outcome.Worked? && l.attempts == 1
  {
    AgreeOnWaits(l, k, now, turn.start);
    hide BackoffDelay;
  }

  // ----- the two objects

  class LocalBackoff {
    var attempts: nat
    var attemptAt: int

    ghost function Now(): Local
      reads this
    {
      Local(attempts, attemptAt)
    }

    constructor ()
      ensures Now() == LOCAL
    {
      attempts, attemptAt := 0, 0;
    }

    method Remaining(now: int) returns (r: int)
      ensures r == LocalRemaining(Now(), now)
    {
      r := attemptAt - now;
    }

    method Increase(now: int)
      modifies this
      ensures Now() == LocalIncreased(old(Now()), now)
    {
      attempts := attempts + 1;
      attemptAt := now + BackoffDelay(attempts);
    }

    method Decrease(now: int, gap: int)
      modifies this
      ensures Now() == LocalDecreased(old(Now()), now, gap)
    {
      attempts := if attempts > 0 then attempts - 1 else 0;
      attemptAt := now + gap;
    }
  }

  class RedisBackoff {
    var counter: Option<Counter>
    var blockedUntil: Option<int>

    ghost function Now(): Keys
      reads this
    {
      Keys(counter, blockedUntil)
    }

    constructor ()
      ensures Now() == NO_KEYS
    {
      counter, blockedUntil := None, None;
    }

    method Remaining(now: int) returns (r: int)
      ensures r == RedisRemaining(Now(), now)
    {
      r := Pttl(blockedUntil, now);
    }

    method Incr(now: int, amount: int) returns (attempts: int)
      modifies this`counter
      ensures counter == Some(IncrBy(old(counter), now, amount)) && attempts == counter.value.value
    {
      counter := Some(IncrBy(counter, now, amount));
      attempts := counter.value.value;
    }

    method Increase(t1: int, t2: int, t3: int)
      modifies this
      ensures Now() == RedisIncreased(old(Now()), t1, t2, t3)
    {
      var attempts := Incr(t1, 1);
      counter := Some(Expire(counter.value, t2, ATTEMPTS_TTL));
      blockedUntil := Some(t3 + BackoffDelay(attempts));
    }

    method Decrease(t1: int, t3: int, gap: int)
      modifies this
      ensures Now() == RedisDecreased(old(Now()), t1, t3, gap)
    {
      var attempts := Incr(t1, -1);
      if attempts <= 0 {
        counter := None;
      }
      if gap > 0 {
        blockedUntil := Some(t3 + gap);
      }
    }
  }

  /** Neither has failed yet when both are new, and so they agree from then on. */
  lemma NewOnesAgree(now: int, turns: seq<Turn>, later: int)
    requires now >= 0 && Schedule(LOCAL, NO_KEYS, now, turns)
    requires later >= if turns == [] then now else turns[|turns| - 1].t3
    ensures Positive(LocalRemaining(LOCAL, now)) == 0 == Positive(RedisRemaining(NO_KEYS, now))
    ensures Positive(LocalRemaining(LocalAfterAll(LOCAL, turns), later))
         == Positive(RedisRemaining(RedisAfterAll(NO_KEYS, turns), later))
    ensures LOCAL.attempts == 0 == Level(NO_KEYS, now)
  {
    RedisSimulatesLocal(LOCAL, NO_KEYS, now, turns, later);
  }
}
