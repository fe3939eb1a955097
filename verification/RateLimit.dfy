/** The token bucket and the circuit breaker, over a clock that never goes back.

    The bucket's critical section runs under a lock, so any interleaving of callers is a sequence of
    attempts at non-decreasing times; sleeping happens outside it. */
module RateLimit {
  import opened Options

  const JITTER_FRACTION := 0.1

  // ---- the bucket as a value --------------------------------------------------------------------------

  /** The two quotients the bucket computes with: rate / period and period / rate. */
  datatype Config = Config(capacity: real, perSecond: real, perToken: real) {
    ghost predicate Valid() {
      perSecond > 0.0 && perToken > 0.0 && perToken * perSecond == 1.0
    }
  }

  datatype Bucket = Bucket(tokens: real, updated: real)

  function Min(a: real, b: real): real {
    if a <= b then a else b
  }

  function Refilled(c: Config, b: Bucket, now: real): real {
    Min(c.capacity, b.tokens + (now - b.updated) * c.perSecond)
  }

  predicate Grants(c: Config, b: Bucket, now: real) {
    Refilled(c, b, now) >= 1.0
  }

  function Attempted(c: Config, b: Bucket, now: real): Bucket {
    var tokens := Refilled(c, b, now);
    Bucket(if tokens >= 1.0 then tokens - 1.0 else tokens, now)
  }

  /** The state after attempts at the given times. */
  function After(c: Config, b: Bucket, times: seq<real>): Bucket {
    if times == [] then b
    else Attempted(c, After(c, b, times[..|times| - 1]), times[|times| - 1])
  }

  /** How many of those attempts were granted. */
  function Granted(c: Config, b: Bucket, times: seq<real>): nat {
    if times == [] then 0
    else
      var front, last := times[..|times| - 1], times[|times| - 1];
      Granted(c, b, front) + if Grants(c, After(c, b, front), last) then 1 else 0
  }

  predicate Monotone(start: real, times: seq<real>) {
    && (forall i | 0 <= i < |times| :: start <= times[i])
    && (forall i, j | 0 <= i < j < |times| :: times[i] <= times[j])
  }

  lemma QuotientsInvert(rate: real, period: real)
    requires rate > 0.0 && period > 0.0
    ensures rate / period > 0.0 && period / rate > 0.0 && (period / rate) * (rate / period) == 1.0
  {
  }

  lemma Scale(a: real, b: real, k: real)
    requires a >= b && k >= 0.0
    ensures a * k >= b * k
  {
  }

  lemma Sum(a: real, b: real, k: real)
    ensures a * k + b * k == (a + b) * k
  {
  }

  function Slept(wait: real, jitter: real, oversleep: real): real {
    wait * (1.0 + jitter * JITTER_FRACTION) + oversleep
  }

  lemma SleptLongEnough(wait: real, jitter: real, oversleep: real)
    requires wait >= 0.0 && jitter >= 0.0 && oversleep >= 0.0
    ensures Slept(wait, jitter, oversleep) >= wait
    ensures Slept(wait, jitter, oversleep) == wait * (1.0 + jitter * 0.1) + oversleep
  {
    Scale(1.0 + jitter * JITTER_FRACTION, 1.0, wait);
  }

  // ---- the limiter ------------------------------------------------------------------------------------

  function BurstOr(burst: Option<int>, rate: int): int {
    match burst
    case None => rate
    case Some(b) => b
  }

  datatype Turn = Go | Wait(seconds: real)

  class RateLimiter {
    const config: Config
    var tokens: real
    var updated: real

    ghost function State(): Bucket
      reads this
    {
      Bucket(tokens, updated)
    }

    /** A rate or a period outside this range is refused with an error; the burst is not checked. */
    constructor (rate: int, period: real, burst: Option<int>, now: real)
      requires rate >= 1 && period > 0.0
      ensures config.Valid()
      ensures config.capacity == (if burst.Some? then burst.value else rate) as real
      ensures config.perSecond == rate as real / period && config.perToken == period / rate as real
      ensures State() == Bucket(config.capacity, now)
    {
      QuotientsInvert(rate as real, period);
      config := Config(BurstOr(burst, rate) as real, rate as real / period, period / rate as real);
      tokens := BurstOr(burst, rate) as real;
      updated := now;
    }

    /** One pass through the locked section. */
    method Attempt(now: real) returns (turn: Turn)
      modifies this
      ensures State() == Attempted(config, old(State()), now)
      ensures turn.Go? <==> Grants(config, old(State()), now)
      ensures turn.Wait? ==>
                turn.seconds == (1.0 - Refilled(config, old(State()), now)) * config.perToken
    {
      var elapsed := now - updated;
      updated := now;
      tokens := Min(config.capacity, tokens + elapsed * config.perSecond);
      if tokens >= 1.0 {
        tokens := tokens - 1.0;
        return Go;
      }
      var deficit := 1.0 - tokens;
      return Wait(deficit * config.perToken);
    }

    /** `acquire` for a caller nobody competes with.  `jitter` is what the generator answers and
        `oversleep` how late each wake-up is, by attempt. */
    method Acquire(now: real, jitter: nat -> real, oversleep: nat -> real) returns (at: real, attempts: nat)
      requires config.Valid() && config.capacity >= 1.0
      requires now >= updated
      requires forall i :: 0.0 <= jitter(i) <= 1.0 && oversleep(i) >= 0.0
      modifies this
      ensures attempts == (if Grants(config, old(State()), now) then 1 else 2)
      ensures attempts == 1 ==> at == now
      // A caller that is told to wait sleeps that long, up to a tenth longer by jitter, and what it oversleeps.
      ensures attempts == 2 ==>
        var wait := (1.0 - Refilled(config, old(State()), now)) * config.perToken;
        at == now + wait * (1.0 + jitter(0) * 0.1) + oversleep(0)
      ensures at >= now + (if attempts == 1 then 0.0
                           else (1.0 - Refilled(config, old(State()), now)) * config.perToken)
      ensures State() == if attempts == 1 then Attempted(config, old(State()), now)
                         else Attempted(config, Attempted(config, old(State()), now), at)
    {
      hide Slept, Attempted, Grants, Refilled;
      at, attempts := now, 0;
      ghost var first := State();
      ghost var wait := (1.0 - Refilled(config, first, now)) * config.perToken;
      while true
        invariant at >= now
        invariant attempts <= 1
        invariant attempts == 0 ==> at == now && State() == first
        invariant attempts == 1 ==>
                    && State() == Attempted(config, first, now)
                    && !Grants(config, first, now)
                    && at == now + Slept(wait, jitter(0), oversleep(0)) >= now + wait
        decreases 2 - attempts
      {
        if attempts == 1 {
          WaitIsEnough(config, first, now, at);
          WaitIsPositive(config, first, now);
          SleptLongEnough(wait, jitter(0), oversleep(0));
        }
        var turn := Attempt(at);
        attempts := attempts + 1;
        match turn
        case Go => return;
        case Wait(seconds) =>
          assert seconds == wait;
          WaitIsPositive(config, first, now);
          SleptLongEnough(seconds, jitter(attempts - 1), oversleep(attempts - 1));
          var slept := Slept(seconds, jitter(attempts - 1), oversleep(attempts - 1));
          at := at + slept;
      }
    }
  }

  // ---- progress ---------------------------------------------------------------------------------------

  lemma WaitIsPositive(c: Config, b: Bucket, now: real)
    requires c.Valid() && !Grants(c, b, now)
    ensures (1.0 - Refilled(c, b, now)) * c.perToken >= 0.0
  {
    Scale(1.0 - Refilled(c, b, now), 0.0, c.perToken);
  }

  /** A caller that sleeps the computed wait finds a token, if the bucket can hold one at all. */
  lemma WaitIsEnough(c: Config, b: Bucket, now: real, later: real)
    requires c.Valid() && c.capacity >= 1.0 && !Grants(c, b, now)
    requires later >= now + (1.0 - Refilled(c, b, now)) * c.perToken
    ensures Grants(c, Attempted(c, b, now), later)
  {
    var deficit := 1.0 - Refilled(c, b, now);
    Scale(later - now, deficit * c.perToken, c.perSecond);
    assert deficit * c.perToken * c.perSecond == deficit * (c.perToken * c.perSecond) == deficit;
  }

  /** A bucket that cannot hold a whole token never grants: the retry loop would not end. */
  lemma {:induction false} NothingIsEverGranted(c: Config, b: Bucket, times: seq<real>)
    requires c.Valid() && c.capacity < 1.0
    ensures Granted(c, b, times) == 0
  {
    if times != [] {
      NothingIsEverGranted(c, b, times[..|times| - 1]);
    }
  }

  /** From a full bucket, a caller that keeps retrying is served eventually exactly when the bucket can
      hold a whole token. */
  lemma ServedIffCapacity(c: Config, start: real)
    requires c.Valid()
    ensures c.capacity >= 1.0
       <==> exists times :: Monotone(start, times) && Granted(c, Bucket(c.capacity, start), times) > 0
  {
    var full := Bucket(c.capacity, start);
    if c.capacity >= 1.0 {
      var times := [start];
      assert times[..0] == [];
      ZeroRefill(c, full);
      assert Grants(c, full, start);
      assert Monotone(start, times) && Granted(c, full, times) > 0;
    } else {
      forall times ensures Granted(c, full, times) == 0 {
        NothingIsEverGranted(c, full, times);
      }
    }
  }

  // ---- the budget -------------------------------------------------------------------------------------

  lemma AttemptIsBounded(c: Config, b: Bucket, now: real)
    requires c.Valid() && b.updated <= now
    ensures Attempted(c, b, now).tokens <= c.capacity
    ensures 0.0 <= b.tokens && 0.0 <= c.capacity ==> 0.0 <= Attempted(c, b, now).tokens
  {
    var gained := (now - b.updated) * c.perSecond;
    Scale(now - b.updated, 0.0, c.perSecond);
    assert gained >= 0.0;
    assert Refilled(c, b, now) == Min(c.capacity, b.tokens + gained);
  }

  lemma {:induction false} AfterIsBounded(c: Config, b: Bucket, times: seq<real>)
    requires c.Valid() && b.tokens <= c.capacity && Monotone(b.updated, times)
    ensures After(c, b, times).tokens <= c.capacity
    ensures After(c, b, times).updated == if times == [] then b.updated else times[|times| - 1]
    ensures 0.0 <= b.tokens && 0.0 <= c.capacity ==> 0.0 <= After(c, b, times).tokens
  {
    if times != [] {
      var front, last := times[..|times| - 1], times[|times| - 1];
      AfterIsBounded(c, b, front);
      AttemptIsBounded(c, After(c, b, front), last);
    }
  }

  function Refill(c: Config, from: real, to: real): real {
    (to - from) * c.perSecond
  }

  lemma RefillAdds(c: Config, from: real, mid: real, to: real)
    ensures Refill(c, from, mid) + Refill(c, mid, to) == Refill(c, from, to)
  {
    Sum(mid - from, to - mid, c.perSecond);
  }

  lemma AttemptSpends(c: Config, b: Bucket, now: real)
    ensures Attempted(c, b, now).tokens + (if Grants(c, b, now) then 1.0 else 0.0)
         <= b.tokens + Refill(c, b.updated, now)
  {
  }

  /** Conservation: what was granted and what is left never exceed what was there plus the refill. */
  lemma {:induction false} Conservation(c: Config, b: Bucket, times: seq<real>)
    requires c.Valid()
    ensures
      var end := After(c, b, times);
      Granted(c, b, times) as real + end.tokens <= b.tokens + Refill(c, b.updated, end.updated)
  {
    if times == [] {
      RefillAdds(c, b.updated, b.updated, b.updated);
    } else {
      var front, last := times[..|times| - 1], times[|times| - 1];
      Conservation(c, b, front);
      AttemptSpends(c, After(c, b, front), last);
      RefillAdds(c, b.updated, After(c, b, front).updated, last);
    }
  }

  /** What an attempt finds beyond the capacity is lost. */
  function Overflow(c: Config, b: Bucket, now: real): real {
    var found := b.tokens + Refill(c, b.updated, now);
    if found > c.capacity then found - c.capacity else 0.0
  }

  lemma AttemptBalances(c: Config, b: Bucket, now: real)
    ensures Attempted(c, b, now).tokens + (if Grants(c, b, now) then 1.0 else 0.0) + Overflow(c, b, now)
         == b.tokens + Refill(c, b.updated, now)
    ensures Attempted(c, b, now).updated == now
  {
  }

  function Lost(c: Config, b: Bucket, times: seq<real>): real {
    if times == [] then 0.0
    else
      var front, last := times[..|times| - 1], times[|times| - 1];
      Lost(c, b, front) + Overflow(c, After(c, b, front), last)
  }

  /** Nothing else goes missing: what was there and the refill are exactly what was granted, what is left,
      and what the capacity cut off. */
  lemma {:induction false} ExactBalance(c: Config, b: Bucket, times: seq<real>)
    requires c.Valid()
    ensures
      var end := After(c, b, times);
      && b.tokens + Refill(c, b.updated, end.updated)
      == Granted(c, b, times) as real + end.tokens + Lost(c, b, times)
      && end.updated == if times == [] then b.updated else times[|times| - 1]
  {
    if times == [] {
      RefillAdds(c, b.updated, b.updated, b.updated);
    } else {
      var front, last := times[..|times| - 1], times[|times| - 1];
      hide Refill, Attempted, Grants, Overflow;
      ExactBalance(c, b, front);
      AttemptBalances(c, After(c, b, front), last);
      RefillAdds(c, b.updated, After(c, b, front).updated, last);
    }
  }

  function Times(n: nat, now: real): seq<real> {
    seq(n, i => now)
  }

  function Fewer(n: nat, m: nat): nat {
    if n <= m then n else m
  }

  /** A burst: attempts at one moment are granted exactly as many whole tokens as there are, and take no
      more than that. */
  lemma {:induction false} BurstTakesWholeTokens(c: Config, b: Bucket, n: nat)
    requires c.Valid() && 0.0 <= b.tokens <= c.capacity
    ensures
      var granted := Fewer(n, b.tokens.Floor);
      && Granted(c, b, Times(n, b.updated)) == granted
      && After(c, b, Times(n, b.updated)) == Bucket(b.tokens - granted as real, b.updated)
  {
    var times := Times(n, b.updated);
    if n > 0 {
      BurstTakesWholeTokens(c, b, n - 1);
      assert times[..n - 1] == Times(n - 1, b.updated);
      var before := After(c, b, times[..n - 1]);
      ZeroRefill(c, before);
      assert Grants(c, before, b.updated) <==> before.tokens >= 1.0;
    }
  }

  lemma {:induction false} RunsCompose(c: Config, b: Bucket, first: seq<real>, second: seq<real>)
    ensures After(c, b, first + second) == After(c, After(c, b, first), second)
    ensures Granted(c, b, first + second) == Granted(c, b, first) + Granted(c, After(c, b, first), second)
  {
    if second == [] {
      assert first + second == first;
    } else {
      var whole := first + second;
      assert whole[..|whole| - 1] == first + second[..|second| - 1];
      RunsCompose(c, b, first, second[..|second| - 1]);
    }
  }

  /** A window of attempts that starts from `b`. */
  lemma {:induction false} WindowFrom(c: Config, b: Bucket, window: seq<real>)
    requires c.Valid() && 0.0 <= b.tokens && 0.0 <= c.capacity
    requires window != [] && Monotone(b.updated, window)
    ensures Granted(c, b, window) as real <= c.capacity + Refill(c, window[0], window[|window| - 1])
  {
    // It behaves as if it started at its first attempt with a bucket already refilled.
    var refilled := Bucket(Refilled(c, b, window[0]), window[0]);
    RefilledIsBounded(c, b, window[0]);
    StartRefilled(c, b, window);
    WindowFromRefilled(c, refilled, window);
  }

  lemma RefilledIsBounded(c: Config, b: Bucket, now: real)
    requires c.Valid() && b.updated <= now && 0.0 <= b.tokens && 0.0 <= c.capacity
    ensures 0.0 <= Refilled(c, b, now) <= c.capacity
  {
    var gained := (now - b.updated) * c.perSecond;
    Scale(now - b.updated, 0.0, c.perSecond);
    assert gained >= 0.0;
    assert Refilled(c, b, now) == Min(c.capacity, b.tokens + gained);
  }

  lemma {:induction false} WindowFromRefilled(c: Config, b: Bucket, window: seq<real>)
    requires c.Valid() && 0.0 <= b.tokens <= c.capacity
    requires window != [] && Monotone(b.updated, window) && b.updated == window[0]
    ensures Granted(c, b, window) as real <= c.capacity + Refill(c, window[0], window[|window| - 1])
  {
    Conservation(c, b, window);
    AfterIsBounded(c, b, window);
  }

  /** The budget.  In any run, from whatever state the limiter can be in, the attempts `i..j` (any
      callers, any order) are granted at most the capacity plus the refill between the first of them
      and the last. */
  lemma {:induction false} WindowBudget(c: Config, b: Bucket, times: seq<real>, i: nat, j: nat)
    requires c.Valid() && 0.0 <= b.tokens <= c.capacity && Monotone(b.updated, times)
    requires i < j <= |times|
    ensures
      (Granted(c, b, times[..j]) - Granted(c, b, times[..i])) as real
      <= c.capacity + Refill(c, times[i], times[j - 1])
  {
    hide After, Granted, Refill, Monotone;
    var before, window := After(c, b, times[..i]), times[i..j];
    assert times[..j] == times[..i] + window;
    RunsCompose(c, b, times[..i], window);
    MonotoneParts(b.updated, times, i, j);
    AfterIsBounded(c, b, times[..i]);
    WindowFrom(c, before, window);
  }

  lemma MonotoneParts(start: real, times: seq<real>, i: nat, j: nat)
    requires Monotone(start, times) && i < j <= |times|
    ensures Monotone(start, times[..i])
    ensures Monotone(if i == 0 then start else times[i - 1], times[i..j])
  {
  }

  /** Refilling at the moment of the first attempt changes nothing. */
  lemma {:induction false} StartRefilled(c: Config, b: Bucket, times: seq<real>)
    requires c.Valid() && times != []
    ensures
      var refilled := Bucket(Refilled(c, b, times[0]), times[0]);
      After(c, refilled, times) == After(c, b, times) && Granted(c, refilled, times) == Granted(c, b, times)
  {
    var refilled := Bucket(Refilled(c, b, times[0]), times[0]);
    if |times| == 1 {
      assert times[..0] == [];
      ZeroRefill(c, refilled);
    } else {
      var front := times[..|times| - 1];
      assert front[0] == times[0];
      StartRefilled(c, b, front);
    }
  }

  lemma ZeroRefill(c: Config, b: Bucket)
    requires c.Valid() && b.tokens <= c.capacity
    ensures Refilled(c, b, b.updated) == b.tokens
  {
    var gained := (b.updated - b.updated) * c.perSecond;
    assert gained == 0.0;
    assert Refilled(c, b, b.updated) == Min(c.capacity, b.tokens + gained);
  }

  // ---- the circuit breaker ----------------------------------------------------------------------------

  datatype Outcome = Success | Failure(at: real)

  /** Failures since the last success. */
  function FailureRun(history: seq<Outcome>): nat {
    if history == [] || history[|history| - 1].Success? then 0
    else 1 + FailureRun(history[..|history| - 1])
  }

  class CircuitBreaker {
    const threshold: int
    const cooldown: real
    var failures: int
    var openedAt: real
    /** Every call the breaker was told about. */
    ghost var history: seq<Outcome>

    /** The state is a function of the history: the trailing failures, and the time of the last one
        once they reach the threshold. */
    ghost predicate Valid()
      reads this
    {
      && failures == FailureRun(history)
      && openedAt == if failures > 0 && failures >= threshold then history[|history| - 1].at else 0.0
    }

    constructor (threshold: int, cooldown: real)
      ensures Valid() && history == []
      ensures this.threshold == threshold && this.cooldown == cooldown
    {
      this.threshold, this.cooldown := threshold, cooldown;
      failures, openedAt, history := 0, 0.0, [];
    }

    /** Open exactly when the last `threshold` calls or more all failed and the latest failure is less
        than a cooldown ago: every further failure restarts the cooldown.  With no failure since the
        last success only a threshold below one is met, and its cooldown counts from time zero. */
    method IsOpen(now: real) returns (open: bool)
      requires Valid()
      ensures FailureRun(history) > 0 ==>
                (open <==> FailureRun(history) >= threshold && now - history[|history| - 1].at < cooldown)
      ensures FailureRun(history) == 0 ==> (open <==> threshold <= 0 && now < cooldown)
    {
      if failures < threshold {
        return false;
      }
      return now - openedAt < cooldown;
    }

    method RecordSuccess()
      requires Valid()
      modifies this
      ensures Valid() && history == old(history) + [Success]
    {
      failures, openedAt := 0, 0.0;
      history := history + [Success];
    }

    method RecordFailure(now: real)
      requires Valid()
      modifies this
      ensures Valid() && history == old(history) + [Failure(now)]
    {
      failures := failures + 1;
      assert (history + [Failure(now)])[..|history|] == history;
      history := history + [Failure(now)];
      if failures >= threshold {
        openedAt := now;
      }
    }
  }

  /** One success is enough to close a breaker with a real threshold, whatever came before it. */
  lemma {:induction false} OneSuccessCloses(history: seq<Outcome>, failures: seq<Outcome>)
    requires forall o | o in failures :: o.Failure?
    ensures FailureRun(history + [Success] + failures) == |failures|
  {
    if failures != [] {
      var whole, front := history + [Success] + failures, failures[..|failures| - 1];
      assert whole[..|whole| - 1] == history + [Success] + front;
      assert whole[|whole| - 1] == failures[|front|] && failures[|front|] in failures;
      OneSuccessCloses(history, front);
    } else {
      assert history + [Success] + failures == history + [Success];
    }
  }
}
