/** Token-bucket rate limiter (backend/rate_limiter.py). Time and tokens are
    reals; the clock is an argument and may be read at any moments. */
module RateLimiter {
  import opened Collections

  /** Bucket size and refill rate in tokens per second, with the two sums done
      with the rate named: the tokens it has produced by a moment (a refill is a
      difference of two levels), and the time it takes to cover a deficit. */
  datatype Limits = Limits(maxRequests: int, rate: real, level: real -> real, wait: real -> real)

  ghost predicate AtRate(c: Limits, t: real) {
    c.level(t) == c.rate * t && (c.rate != 0.0 ==> c.wait(t) == t / c.rate)
  }

  ghost predicate ValidLimits(c: Limits) {
    && c.maxRequests >= 0 && c.rate >= 0.0 && (c.rate == 0.0 <==> c.maxRequests == 0)
    && forall t {:trigger AtRate(c, t)} :: AtRate(c, t)
  }

  function LimitsOf(maxRequests: int, windowSeconds: int): (c: Limits)
    requires maxRequests >= 0 && windowSeconds > 0
    ensures ValidLimits(c) && c.maxRequests == maxRequests
    ensures c.rate * windowSeconds as real == maxRequests as real
  {
    var rate := maxRequests as real / windowSeconds as real;
    Limits(maxRequests, rate, t => rate * t, deficit => if rate == 0.0 then 0.0 else deficit / rate)
  }

  /** All the run lemmas need of the refill: it never drains. */
  ghost predicate Steady(c: Limits) {
    c.maxRequests >= 0 && forall a, b :: a <= b ==> c.level(a) <= c.level(b)
  }

  lemma RefillIsSteady(c: Limits)
    requires ValidLimits(c)
    ensures Steady(c)
  {
    forall a, b | a <= b ensures c.level(a) <= c.level(b) {
      assert AtRate(c, a) && AtRate(c, b);
      assert c.rate * (b - a) >= 0.0;
    }
  }

  /** Tokens gained from one moment to another. */
  function Refill(c: Limits, from: real, to: real): real {
    c.level(to) - c.level(from)
  }

  lemma RefillIsLinear(c: Limits, a: real, b: real)
    requires ValidLimits(c)
    ensures Refill(c, a, b) == c.rate * (b - a)
  {
    assert AtRate(c, a) && AtRate(c, b);
  }

  datatype Bucket = Bucket(tokens: real, lastRefill: real)

  /** `NoRefill` is the division by a zero refill rate in `check`. */
  datatype Outcome = Allowed | Denied(retryAfter: int) | NoRefill

  function Ceil(x: real): (n: int)
    ensures n as real - 1.0 < x <= n as real
  {
    -((-x).Floor)
  }

  // ---- One check of one client, on values ----

  function Refilled(c: Limits, b: Bucket, now: real): Bucket {
    if now > b.lastRefill then
      var filled := b.tokens + Refill(c, b.lastRefill, now);
      Bucket(if filled < c.maxRequests as real then filled else c.maxRequests as real, now)
    else b
  }

  /** The bucket the decision looks at; a new client starts full. */
  function Before(c: Limits, b: Option<Bucket>, now: real): Bucket {
    Refilled(c, if b.Some? then b.value else Bucket(c.maxRequests as real, now), now)
  }

  function After(c: Limits, b: Option<Bucket>, now: real): Bucket {
    var full := Before(c, b, now);
    if full.tokens >= 1.0 then full.(tokens := full.tokens - 1.0) else full
  }

  function Decision(c: Limits, b: Option<Bucket>, now: real): Outcome {
    var full := Before(c, b, now);
    if full.tokens >= 1.0 then Allowed
    else if c.rate == 0.0 then NoRefill
    else Denied(Ceil(c.wait(1.0 - full.tokens)))
  }

  // ---- The limiter object ----

  class TokenBucket {
    var tokens: real
    var lastRefill: real
    var maxTokens: int
    var refillRate: real

    constructor (tokens: real, lastRefill: real, maxTokens: int, refillRate: real)
      ensures this.tokens == tokens && this.lastRefill == lastRefill
      ensures this.maxTokens == maxTokens && this.refillRate == refillRate
    {
      this.tokens, this.lastRefill, this.maxTokens, this.refillRate := tokens, lastRefill, maxTokens, refillRate;
    }
  }

  class Limiter {
    var limits: Limits
    var buckets: map<string, TokenBucket>

    ghost predicate Valid()
      reads this, buckets.Values
    {
      && ValidLimits(limits)
      && (forall k :: k in buckets ==> buckets[k].maxTokens == limits.maxRequests)
      && (forall k, m :: k in buckets && m in buckets && k != m ==> buckets[k] != buckets[m])
    }

    /** The client's bucket as a value. */
    ghost function BucketOf(client: string): Option<Bucket>
      reads this, buckets.Values
    {
      if client in buckets then Some(Bucket(buckets[client].tokens, buckets[client].lastRefill)) else None
    }

    constructor (maxRequests: int, windowSeconds: int)
      requires maxRequests >= 0 && windowSeconds > 0
      ensures Valid() && limits == LimitsOf(maxRequests, windowSeconds)
      ensures forall k :: BucketOf(k) == None
    {
      limits := LimitsOf(maxRequests, windowSeconds);
      buckets := map[];
    }

    method Check(client: string, now: real) returns (outcome: Outcome)
      requires Valid()
      modifies this`buckets, buckets.Values
      ensures Valid() && fresh(buckets.Values - old(buckets.Values))
      ensures outcome == Decision(limits, old(BucketOf(client)), now)
      ensures BucketOf(client) == Some(After(limits, old(BucketOf(client)), now))
      ensures forall other :: other != client ==> BucketOf(other) == old(BucketOf(other))
    {
      if client !in buckets {
        var created := new TokenBucket(limits.maxRequests as real, now, limits.maxRequests, limits.rate);
        buckets := buckets[client := created];
      }
      var bucket := buckets[client];
      var elapsed := now - bucket.lastRefill;
      if elapsed > 0.0 {
        var gained := elapsed * limits.rate;
        assert gained == Refill(limits, bucket.lastRefill, now) by {
          RefillIsLinear(limits, bucket.lastRefill, now);
        }
        var filled := bucket.tokens + gained;
        bucket.tokens := if filled < bucket.maxTokens as real then filled else bucket.maxTokens as real;
        bucket.lastRefill := now;
      }
      ghost var full := Before(limits, old(BucketOf(client)), now);
      assert bucket.tokens == full.tokens && bucket.lastRefill == full.lastRefill;
      if bucket.tokens >= 1.0 {
        bucket.tokens := bucket.tokens - 1.0;
        return Allowed;
      }
      var deficit := 1.0 - bucket.tokens;
      if limits.rate == 0.0 {
        return NoRefill;
      }
      assert AtRate(limits, deficit);
      outcome := Denied(Ceil(deficit / limits.rate));
    }

    /** Takes effect at once: tokens are clamped to the new maximum. */
    method UpdateConfig(maxRequests: int, windowSeconds: int)
      requires Valid() && maxRequests >= 0 && windowSeconds > 0
      modifies this`limits, buckets.Values
      ensures Valid() && limits == LimitsOf(maxRequests, windowSeconds)
      ensures forall k :: BucketOf(k) == Clamped(maxRequests, old(BucketOf(k)))
      ensures forall k :: BucketOf(k).Some? ==>
                && (old(BucketOf(k)).value.tokens <= maxRequests as real ==> BucketOf(k) == old(BucketOf(k)))
                && (old(BucketOf(k)).value.tokens > maxRequests as real ==>
                      BucketOf(k).value == Bucket(maxRequests as real, old(BucketOf(k)).value.lastRefill))
    {
      limits := LimitsOf(maxRequests, windowSeconds);
      var rest := buckets.Keys;
      while rest != {}
        invariant rest <= buckets.Keys
        invariant limits == LimitsOf(maxRequests, windowSeconds)
        invariant forall k :: k in buckets ==> buckets[k].lastRefill == old(buckets[k].lastRefill)
        invariant forall k :: k in rest ==> buckets[k].tokens == old(buckets[k].tokens)
        invariant forall k :: k in buckets && k !in rest ==>
                    && buckets[k].maxTokens == maxRequests
                    && buckets[k].tokens == ClampedTokens(maxRequests, old(buckets[k].tokens))
        decreases rest
      {
        ghost var w := AnyMember(rest);
        var k :| k in rest;
        var bucket := buckets[k];
        bucket.maxTokens := maxRequests;
        bucket.refillRate := limits.rate;
        if bucket.tokens > maxRequests as real {
          bucket.tokens := maxRequests as real;
        }
        rest := rest - {k};
      }
    }
  }

  function ClampedTokens(max: int, tokens: real): real {
    if tokens > max as real then max as real else tokens
  }

  function Clamped(max: int, b: Option<Bucket>): Option<Bucket> {
    if b.Some? then Some(b.value.(tokens := ClampedTokens(max, b.value.tokens))) else b
  }

  // ---- Runs of checks by one client ----

  ghost function BucketAfter(c: Limits, times: seq<real>): Option<Bucket> {
    if times == [] then None
    else Some(After(c, BucketAfter(c, times[..|times| - 1]), times[|times| - 1]))
  }

  ghost function OutcomeAt(c: Limits, times: seq<real>, k: nat): Outcome
    requires k < |times|
  {
    Decision(c, BucketAfter(c, times[..k]), times[k])
  }

  ghost predicate Nondecreasing(times: seq<real>) {
    forall i, j :: 0 <= i < j < |times| ==> times[i] <= times[j]
  }

  /** Requests allowed from the i-th check to the last one. */
  ghost function AllowedSince(c: Limits, times: seq<real>, i: nat): nat
    decreases |times|
  {
    if |times| <= i then 0
    else
      AllowedSince(c, times[..|times| - 1], i) + if OutcomeAt(c, times, |times| - 1) == Allowed then 1 else 0
  }

  /** Tokens stay within 0..max, and the bucket remembers its last check. */
  lemma {:induction false} TokensInRange(c: Limits, times: seq<real>)
    requires Steady(c) && Nondecreasing(times) && times != []
    ensures BucketAfter(c, times).Some?
    ensures 0.0 <= BucketAfter(c, times).value.tokens <= c.maxRequests as real
    ensures BucketAfter(c, times).value.lastRefill == times[|times| - 1]
  {
    var n := |times| - 1;
    if n > 0 {
      var init := times[..n];
      TokensInRange(c, init);
      assert init[n - 1] == times[n - 1] <= times[n];
    }
  }

  /** What was allowed plus what is left never exceeds one full bucket plus the
      refill since the first check of the interval. */
  lemma {:induction false} AllowedPlusLeft(c: Limits, times: seq<real>, i: nat)
    requires Steady(c) && Nondecreasing(times) && i < |times|
    ensures BucketAfter(c, times).Some?
    ensures AllowedSince(c, times, i) as real + BucketAfter(c, times).value.tokens
            <= c.maxRequests as real + Refill(c, times[i], times[|times| - 1])
    decreases |times|
  {
    var n := |times| - 1;
    var init := times[..n];
    TokensInRange(c, times);
    assert c.level(times[i]) <= c.level(times[n]);
    if n > 0 {
      TokensInRange(c, init);
      assert init[n - 1] == times[n - 1] <= times[n];
    }
    if i == n {
      assert AllowedSince(c, init, i) == 0;
    } else {
      AllowedPlusLeft(c, init, i);
      assert c.level(times[n - 1]) <= c.level(times[n]);
    }
  }

  /** The refill of this check is not cut off by a full bucket. */
  ghost predicate Fits(c: Limits, b: Option<Bucket>, now: real) {
    b.Some? && b.value.lastRefill <= now && b.value.tokens + Refill(c, b.value.lastRefill, now) <= c.maxRequests as real
  }

  lemma CheckConserves(c: Limits, b: Option<Bucket>, now: real)
    requires Fits(c, b, now)
    ensures After(c, b, now).lastRefill == now
    ensures (if Decision(c, b, now) == Allowed then 1.0 else 0.0) + After(c, b, now).tokens
            == b.value.tokens + Refill(c, b.value.lastRefill, now)
  {
  }

  ghost predicate AllFit(c: Limits, times: seq<real>, i: nat) {
    forall k :: i <= k < |times| ==> Fits(c, BucketAfter(c, times[..k]), times[k])
  }

  /** Nothing is lost or made up: while the bucket does not overflow, what is
      allowed plus what is left is what was there plus the refill. */
  lemma {:induction false} TokensAreConserved(c: Limits, times: seq<real>, i: nat, b: Bucket, left: Bucket)
    requires i <= |times| && AllFit(c, times, i)
    requires BucketAfter(c, times[..i]) == Some(b) && BucketAfter(c, times) == Some(left)
    ensures AllowedSince(c, times, i) as real + left.tokens == b.tokens + Refill(c, b.lastRefill, left.lastRefill)
    decreases |times|
  {
    if i == |times| {
      PrefixEnds(times);
    } else {
      var n := |times| - 1;
      var init := times[..n];
      assert forall k :: 0 <= k <= n ==> init[..k] == times[..k];
      var before := BucketAfter(c, init);
      assert Fits(c, before, times[n]);
      CheckConserves(c, before, times[n]);
      TokensAreConserved(c, init, i, b, before.value);
      AllowedNext(c, times, i);
    }
  }

  lemma AllowedNext(c: Limits, times: seq<real>, i: nat)
    requires i < |times|
    ensures var n := |times| - 1;
            AllowedSince(c, times, i) ==
            AllowedSince(c, times[..n], i)
            + if Decision(c, BucketAfter(c, times[..n]), times[n]) == Allowed then 1 else 0
  {
  }

  // ---- A burst ----

  ghost function Burst(t: real, n: nat): seq<real> {
    seq(n, _ => t)
  }

  lemma {:induction false} BurstLeaves(c: Limits, t: real, n: nat)
    requires Steady(c) && n >= 1
    ensures BucketAfter(c, Burst(t, n)) ==
            Some(Bucket(if n < c.maxRequests then (c.maxRequests - n) as real else 0.0, t))
  {
    assert Burst(t, n)[..n - 1] == Burst(t, n - 1);
    if n > 1 {
      BurstLeaves(c, t, n - 1);
    }
  }

  /** A new client starts with a full bucket: of its first checks, all at one
      moment, exactly as many are allowed as the bucket holds. */
  lemma BurstIsExact(c: Limits, t: real, n: nat, k: nat)
    requires Steady(c) && k < n
    ensures OutcomeAt(c, Burst(t, n), k) == Allowed <==> k < c.maxRequests
  {
    assert Burst(t, n)[..k] == Burst(t, k);
    if k > 0 {
      BurstLeaves(c, t, k);
    }
  }

  lemma SlidingRefillBound(c: Limits, times: seq<real>, i: nat, j: nat)
    requires ValidLimits(c) && Nondecreasing(times) && i <= j < |times|
    ensures AllowedSince(c, times[..j + 1], i) as real <= c.maxRequests as real + Refill(c, times[i], times[j])
  {
    RefillIsSteady(c);
    AllowedPlusLeft(c, times[..j + 1], i);
    TokensInRange(c, times[..j + 1]);
  }

  lemma BoundIsLinear(c: Limits, from: real, to: real, allowed: real)
    requires ValidLimits(c) && allowed <= c.maxRequests as real + Refill(c, from, to)
    ensures allowed <= c.maxRequests as real + c.rate * (to - from)
  {
    RefillIsLinear(c, from, to);
  }

  /** The limiter's promise: between any two checks of a client, at most a full
      bucket plus the rate times the elapsed time is allowed. */
  lemma SlidingBound(c: Limits, times: seq<real>, i: nat, j: nat, from: real, to: real, allowed: real)
    requires ValidLimits(c) && Nondecreasing(times) && i <= j < |times| && from == times[i] && to == times[j]
    requires allowed == AllowedSince(c, times[..j + 1], i) as real
    ensures allowed <= c.maxRequests as real + c.rate * (to - from)
  {
    SlidingRefillBound(c, times, i, j);
    assert allowed <= c.maxRequests as real + Refill(c, from, to);
    BoundIsLinear(c, from, to, allowed);
  }

  /** A limit of zero requests is not a closed gate: every check divides by the
      zero rate. With a positive limit no check does. */
  lemma ZeroLimitNeverAnswers(c: Limits, times: seq<real>, t: real)
    requires ValidLimits(c) && Nondecreasing(times)
    ensures Decision(c, BucketAfter(c, times), t) == NoRefill <==> c.maxRequests == 0
  {
  }

  // ---- retry_after ----

  /** Checks at `more` after the last of `times`, every one of them denied. */
  ghost predicate AllDenied(c: Limits, times: seq<real>, more: seq<real>) {
    forall k :: |times| <= k < |times| + |more| ==> OutcomeAt(c, times + more, k).Denied?
  }

  /** Denials cost nothing: refills across denied checks add up. */
  lemma {:induction false} DeniedChecksAreFree(c: Limits, times: seq<real>, more: seq<real>)
    requires Steady(c) && c.maxRequests >= 1 && Nondecreasing(times + more) && times != []
    requires BucketAfter(c, times).Some? && BucketAfter(c, times).value.tokens < 1.0
    requires AllDenied(c, times, more)
    ensures var b, last := BucketAfter(c, times + more), (times + more)[|times + more| - 1];
            && b.Some? && b.value.tokens < 1.0 && b.value.lastRefill == last
            && b.value.tokens == BucketAfter(c, times).value.tokens + Refill(c, times[|times| - 1], last)
  {
    var all := times + more;
    TokensInRange(c, all);
    if more == [] {
      assert all == times;
    } else {
      var n := |more| - 1;
      var init := times + more[..n];
      assert all[..|all| - 1] == init;
      forall k | |times| <= k < |times| + n ensures OutcomeAt(c, init, k).Denied? {
        assert init[..k] == all[..k] && init[k] == all[k];
        assert OutcomeAt(c, all, k).Denied?;
      }
      assert forall i :: 0 <= i < |init| ==> init[i] == all[i];
      DeniedChecksAreFree(c, times, more[..n]);
      assert OutcomeAt(c, all, |all| - 1).Denied?;
      var last, now := init[|init| - 1], all[|all| - 1];
      assert last == all[|all| - 2] <= now;
    }
  }

  /** After a denial, and any further denied checks, a check is allowed exactly
      when the missing fraction of a token has been refilled since the denial. */
  lemma NextAllowedWhenRefilled(c: Limits, times: seq<real>, more: seq<real>, t: real)
    requires Steady(c) && c.maxRequests >= 1 && times != []
    requires Nondecreasing(times + more + [t])
    requires OutcomeAt(c, times, |times| - 1).Denied? && AllDenied(c, times, more)
    ensures BucketAfter(c, times).Some?
    ensures Decision(c, BucketAfter(c, times + more), t) == Allowed <==>
            BucketAfter(c, times).value.tokens + Refill(c, times[|times| - 1], t) >= 1.0
  {
    var all, later := times + more, times + more + [t];
    assert forall i :: 0 <= i < |all| ==> all[i] == later[i];
    assert forall i :: 0 <= i < |times| ==> times[i] == later[i];
    var last := all[|all| - 1];
    assert last == later[|all| - 1] <= later[|all|] == t;
    DeniedChecksAreFree(c, times, more);
  }

  lemma WaitIsExact(c: Limits, tokens: real, from: real, t: real, r: int)
    requires ValidLimits(c) && c.rate > 0.0 && tokens < 1.0 && r == Ceil(c.wait(1.0 - tokens))
    ensures r >= 1
    ensures t >= from + r as real ==> tokens + Refill(c, from, t) >= 1.0
    ensures t <= from + r as real - 1.0 ==> tokens + Refill(c, from, t) < 1.0
  {
    RefillIsLinear(c, from, t);
    assert AtRate(c, 1.0 - tokens);
    WaitArithmetic(c.rate, 1.0 - tokens, c.wait(1.0 - tokens), t - from, r);
  }

  lemma WaitArithmetic(rate: real, deficit: real, wait: real, waited: real, r: int)
    requires rate > 0.0 && deficit > 0.0 && wait == deficit / rate && r as real - 1.0 < wait <= r as real
    ensures r >= 1
    ensures waited >= r as real ==> rate * waited >= deficit
    ensures waited <= r as real - 1.0 ==> rate * waited < deficit
  {
    assert rate * wait == deficit;
    if waited >= r as real {
      assert rate * (waited - wait) >= 0.0;
    }
    if waited <= r as real - 1.0 {
      assert rate * (wait - waited) > 0.0;
    }
  }

  lemma DeniedWait(c: Limits, b: Option<Bucket>, now: real)
    requires Decision(c, b, now).Denied?
    ensures c.rate != 0.0 && After(c, b, now).tokens < 1.0
    ensures Decision(c, b, now).retryAfter == Ceil(c.wait(1.0 - After(c, b, now).tokens))
  {
  }

  lemma DenialTellsWait(c: Limits, times: seq<real>)
    requires times != [] && OutcomeAt(c, times, |times| - 1).Denied?
    ensures c.rate != 0.0 && BucketAfter(c, times).Some? && BucketAfter(c, times).value.tokens < 1.0
    ensures OutcomeAt(c, times, |times| - 1).retryAfter == Ceil(c.wait(1.0 - BucketAfter(c, times).value.tokens))
  {
    DeniedWait(c, BucketAfter(c, times[..|times| - 1]), times[|times| - 1]);
  }

  /** The advertised seconds are exact: a check at least `r` seconds after the
      denial is allowed, one made a second earlier is still denied. */
  lemma RetryAfterIsTight(c: Limits, times: seq<real>, more: seq<real>, t: real, r: int, next: Outcome)
    requires ValidLimits(c) && c.maxRequests >= 1 && times != []
    requires Nondecreasing(times + more + [t])
    requires OutcomeAt(c, times, |times| - 1) == Denied(r) && AllDenied(c, times, more)
    requires next == Decision(c, BucketAfter(c, times + more), t)
    ensures r >= 1
    ensures t >= times[|times| - 1] + r as real ==> next == Allowed
    ensures t <= times[|times| - 1] + r as real - 1.0 ==> next != Allowed
  {
    var later := times + more + [t];
    assert forall i :: 0 <= i < |times| ==> times[i] == later[i];
    RefillIsSteady(c);
    NextAllowedWhenRefilled(c, times, more, t);
    DenialTellsWait(c, times);
    WaitIsExact(c, BucketAfter(c, times).value.tokens, times[|times| - 1], t, r);
  }

  // ---- Runs over many clients ----

  datatype Request = Request(client: string, time: real)

  ghost function TimesOf(run: seq<Request>, client: string): seq<real> {
    if run == [] then []
    else
      var last := run[|run| - 1];
      TimesOf(run[..|run| - 1], client) + if last.client == client then [last.time] else []
  }

  ghost function StateAfter(c: Limits, run: seq<Request>): map<string, Bucket> {
    if run == [] then map[]
    else
      var state, last := StateAfter(c, run[..|run| - 1]), run[|run| - 1];
      state[last.client := After(c, Lookup(state, last.client), last.time)]
  }

  ghost function Lookup(state: map<string, Bucket>, client: string): Option<Bucket> {
    if client in state then Some(state[client]) else None
  }

  /** Other clients never matter: a client's bucket is the one its own checks
      alone produce. */
  lemma {:induction false} ClientsAreIsolated(c: Limits, run: seq<Request>, client: string)
    ensures Lookup(StateAfter(c, run), client) == BucketAfter(c, TimesOf(run, client))
  {
    if run != [] {
      var init, last := run[..|run| - 1], run[|run| - 1];
      ClientsAreIsolated(c, init, client);
      var state := StateAfter(c, init);
      assert StateAfter(c, run) == state[last.client := After(c, Lookup(state, last.client), last.time)];
      if last.client == client {
        var times := TimesOf(run, client);
        assert times == TimesOf(init, client) + [last.time];
        assert times[..|times| - 1] == TimesOf(init, client);
      } else {
        assert TimesOf(run, client) == TimesOf(init, client);
      }
    }
  }

  ghost predicate InTimeOrder(run: seq<Request>) {
    forall i, j :: 0 <= i < j < |run| ==> run[i].time <= run[j].time
  }

  /** Requests of one client allowed from the i-th request of a run to its last. */
  ghost function AllowedTo(c: Limits, run: seq<Request>, i: nat, client: string): nat
    decreases |run|
  {
    if |run| <= i then 0
    else
      var init, last := run[..|run| - 1], run[|run| - 1];
      AllowedTo(c, init, i, client) +
      if last.client == client && Decision(c, Lookup(StateAfter(c, init), client), last.time) == Allowed then 1 else 0
  }

  lemma {:induction false} TimesGrow(run: seq<Request>, i: nat, client: string)
    requires i <= |run|
    ensures |TimesOf(run[..i], client)| <= |TimesOf(run, client)|
  {
    if i == |run| {
      PrefixEnds(run);
    } else {
      TimesGrow(run[..|run| - 1], i, client);
      assert run[..|run| - 1][..i] == run[..i];
    }
  }

  lemma AllowedSinceNext(c: Limits, times: seq<real>, now: real, i: nat)
    requires i <= |times|
    ensures AllowedSince(c, times + [now], i) ==
            AllowedSince(c, times, i) + if Decision(c, BucketAfter(c, times), now) == Allowed then 1 else 0
  {
    assert (times + [now])[..|times|] == times;
  }

  lemma {:induction false} AllowedToIsOwn(c: Limits, run: seq<Request>, i: nat, client: string)
    requires i <= |run|
    ensures AllowedTo(c, run, i, client) == AllowedSince(c, TimesOf(run, client), |TimesOf(run[..i], client)|)
  {
    if i == |run| {
      PrefixEnds(run);
    } else {
      var init, last := run[..|run| - 1], run[|run| - 1];
      AllowedToIsOwn(c, init, i, client);
      assert init[..i] == run[..i];
      if last.client == client {
        ClientsAreIsolated(c, init, client);
        TimesGrow(init, i, client);
        AllowedSinceNext(c, TimesOf(init, client), last.time, |TimesOf(run[..i], client)|);
      } else {
        ConcatNil(TimesOf(init, client));
      }
    }
  }

  lemma {:induction false} TimesInOrder(run: seq<Request>, i: nat, client: string)
    requires InTimeOrder(run) && i < |run|
    ensures var times := TimesOf(run, client);
            && Nondecreasing(times)
            && (forall k :: 0 <= k < |times| ==> times[k] <= run[|run| - 1].time)
            && (forall k :: |TimesOf(run[..i], client)| <= k < |times| ==> run[i].time <= times[k])
  {
    var init, last := run[..|run| - 1], run[|run| - 1];
    if init == [] {
      assert TimesOf(init, client) == [];
    } else if i < |init| {
      TimesInOrder(init, i, client);
      assert init[..i] == run[..i] && init[|init| - 1].time <= last.time;
    } else {
      TimesInOrder(init, |init| - 1, client);
      assert init == run[..i] && init[|init| - 1].time <= last.time;
    }
  }

  lemma RefillGrows(c: Limits, from: real, first: real, last: real, to: real)
    requires ValidLimits(c) && from <= first && last <= to
    ensures Refill(c, first, last) <= Refill(c, from, to)
  {
    RefillIsSteady(c);
  }

  lemma OwnShare(c: Limits, times: seq<real>, m: nat, from: real, to: real)
    requires ValidLimits(c) && Nondecreasing(times) && m < |times|
    requires from <= times[m] && times[|times| - 1] <= to
    ensures AllowedSince(c, times, m) as real <= c.maxRequests as real + Refill(c, from, to)
  {
    var n := |times| - 1;
    SlidingRefillBound(c, times, m, n);
    assert times[..n + 1] == times;
    RefillGrows(c, from, times[m], times[n], to);
  }

  lemma ShareOfRefill(c: Limits, run: seq<Request>, i: nat, client: string)
    requires ValidLimits(c) && InTimeOrder(run) && i < |run|
    ensures AllowedTo(c, run, i, client) as real
            <= c.maxRequests as real + Refill(c, run[i].time, run[|run| - 1].time)
  {
    var times, m := TimesOf(run, client), |TimesOf(run[..i], client)|;
    var from, to := run[i].time, run[|run| - 1].time;
    AllowedToIsOwn(c, run, i, client);
    TimesInOrder(run, i, client);
    if m < |times| {
      OwnShare(c, times, m, from, to);
    } else {
      RefillGrows(c, from, to, to, to);
    }
  }

  /** The promise in a run of many clients: from any request of the run to its
      last, `from` to `to`, each client is allowed at most a full bucket plus the
      rate times the elapsed time, whatever the others do. */
  lemma ShareOfOneClient(c: Limits, run: seq<Request>, i: nat, client: string, from: real, to: real, allowed: real)
    requires ValidLimits(c) && InTimeOrder(run) && i < |run|
    requires from == run[i].time && to == run[|run| - 1].time && allowed == AllowedTo(c, run, i, client) as real
    ensures allowed <= c.maxRequests as real + c.rate * (to - from)
  {
    ShareOfRefill(c, run, i, client);
    assert allowed <= c.maxRequests as real + Refill(c, from, to);
    BoundIsLinear(c, from, to, allowed);
  }
}
