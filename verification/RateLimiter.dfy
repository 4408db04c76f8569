/** Token buckets and the rate limiter that keeps one per category and actor. */
module RateLimiter {
  import opened Options

  function Min(a: real, b: real): real {
    if a <= b then a else b
  }

  /** What is refilled between two times. */
  function Gain(rate: real, t: real, u: real): real {
    rate * (u - t)
  }

  // ----- a bucket as a value

  datatype Bucket = Bucket(capacity: nat, rate: real, tokens: real, last: real) {
    predicate Valid() {
      rate >= 0.0 && 0.0 <= tokens <= capacity as real
    }

    function Refilled(now: real): Bucket {
      this.(tokens := Min(capacity as real, tokens + Gain(rate, last, now)), last := now)
    }

    predicate Admits(now: real, n: nat) {
      Refilled(now).tokens >= n as real
    }

    /** The bucket after an attempt to take n tokens. */
    function After(now: real, n: nat): Bucket {
      var full := Refilled(now);
      if Admits(now, n) then full.(tokens := full.tokens - n as real) else full
    }

    /** Seconds until one token is there; None when nothing is ever refilled (a division by zero). */
    function WaitTime(): Option<real> {
      if tokens >= 1.0 then Some(0.0) else if rate == 0.0 then None else Some((1.0 - tokens) / rate)
    }

    function RetryAfter(): Option<int> {
      if WaitTime().None? then None else Some(WaitTime().value.Floor + 1)
    }
  }

  // ----- runs of requests

  /** Request times of a clock that never goes back. */
  predicate Clocked(b: Bucket, times: seq<real>) {
    && (times != [] ==> b.last <= times[0])
    && forall i, j :: 0 <= i < j < |times| ==> times[i] <= times[j]
  }

  /** The bucket before request number n, each request taking one token. */
  function Before(b: Bucket, times: seq<real>, n: nat): Bucket
    requires n <= |times|
  {
    if n == 0 then b else Before(b, times, n - 1).After(times[n - 1], 1)
  }

  predicate Admitted(b: Bucket, times: seq<real>, n: nat)
    requires n < |times|
  {
    Before(b, times, n).Admits(times[n], 1)
  }

  /** How many of the requests i..j-1 were admitted. */
  function Count(b: Bucket, times: seq<real>, i: nat, j: nat): nat
    requires i <= j <= |times|
    decreases j
  {
    if i == j then 0 else Count(b, times, i, j - 1) + if Admitted(b, times, j - 1) then 1 else 0
  }

  /** Tokens at hand for request number n. */
  function Level(b: Bucket, times: seq<real>, n: nat): real
    requires n < |times|
  {
    Before(b, times, n).Refilled(times[n]).tokens
  }

  lemma GainPositive(rate: real, t: real, u: real)
    requires rate >= 0.0 && t <= u
    ensures Gain(rate, t, u) >= 0.0
  {}

  lemma GainAddsUp(rate: real, t: real, u: real, v: real)
    ensures Gain(rate, t, u) + Gain(rate, u, v) == Gain(rate, t, v)
  {}

  lemma RefillStaysValid(b: Bucket, now: real)
    requires b.Valid() && b.last <= now
    ensures b.Refilled(now).Valid() && b.Refilled(now).tokens >= b.tokens && b.After(now, 1).Valid()
  {
    GainPositive(b.rate, b.last, now);
  }

  /** In every run the tokens stay between zero and the capacity. */
  lemma {:induction false} TokensStayInRange(b: Bucket, times: seq<real>, n: nat)
    requires b.Valid() && Clocked(b, times) && n <= |times|
    ensures var now := Before(b, times, n);
            now.Valid() && now.capacity == b.capacity && now.rate == b.rate
            && now.last == if n == 0 then b.last else times[n - 1]
  {
    if n > 0 {
      TokensStayInRange(b, times, n - 1);
      RefillStaysValid(Before(b, times, n - 1), times[n - 1]);
    }
  }

  /** What may be spent at request j since the bucket was full at request i. */
  function SinceFull(b: Bucket, times: seq<real>, i: nat, j: nat): real
    requires i <= j < |times|
  {
    b.capacity as real + Gain(b.rate, times[i], times[j]) - Count(b, times, i, j) as real
  }

  function SinceStart(b: Bucket, times: seq<real>, j: nat): real
    requires j < |times|
  {
    b.tokens + Gain(b.rate, b.last, times[j]) - Count(b, times, 0, j) as real
  }

  function Spent(b: Bucket, times: seq<real>, j: nat): nat
    requires j < |times|
  {
    if Admitted(b, times, j) then 1 else 0
  }

  lemma LevelOf(b: Bucket, times: seq<real>, j: nat, prev: Bucket)
    requires j < |times| && prev == Before(b, times, j) && prev.capacity == b.capacity && prev.rate == b.rate
    ensures Level(b, times, j) == Min(b.capacity as real, prev.tokens + Gain(b.rate, prev.last, times[j]))
  {}

  lemma TokensAfter(b: Bucket, times: seq<real>, j: nat)
    requires j < |times|
    ensures Before(b, times, j + 1).tokens == Level(b, times, j) - Spent(b, times, j) as real
    ensures Before(b, times, j + 1).last == times[j]
  {}

  /** One refill step: what is there for the next request. */
  lemma NextLevel(b: Bucket, times: seq<real>, j: nat)
    requires b.Valid() && Clocked(b, times) && j + 1 < |times|
    ensures Level(b, times, j + 1)
         == Min(b.capacity as real, Level(b, times, j) - Spent(b, times, j) as real + Gain(b.rate, times[j], times[j + 1]))
  {
    TokensStayInRange(b, times, j + 1);
    TokensAfter(b, times, j);
    LevelOf(b, times, j + 1, Before(b, times, j + 1));
  }

  /** The bounds move with the level while the bucket is not full. */
  lemma BoundsMove(b: Bucket, times: seq<real>, i: nat, j: nat)
    requires i <= j && j + 1 < |times|
    ensures SinceFull(b, times, i, j + 1)
         == SinceFull(b, times, i, j) - Spent(b, times, j) as real + Gain(b.rate, times[j], times[j + 1])
    ensures SinceStart(b, times, j + 1)
         == SinceStart(b, times, j) - Spent(b, times, j) as real + Gain(b.rate, times[j], times[j + 1])
  {
    GainAddsUp(b.rate, times[i], times[j], times[j + 1]);
    GainAddsUp(b.rate, b.last, times[j], times[j + 1]);
  }

  lemma {:induction false} LevelIsBounded(b: Bucket, times: seq<real>, i: nat, j: nat)
    requires b.Valid() && Clocked(b, times) && i <= j < |times|
    ensures Level(b, times, j) <= SinceFull(b, times, i, j)
    decreases j
  {
    if i < j {
      LevelIsBounded(b, times, i, j - 1);
      NextLevel(b, times, j - 1);
      BoundsMove(b, times, i, j - 1);
    } else {
      TokensStayInRange(b, times, j);
    }
  }

  lemma {:induction false} LevelIsBoundedFromStart(b: Bucket, times: seq<real>, j: nat)
    requires b.Valid() && Clocked(b, times) && j < |times|
    ensures Level(b, times, j) <= SinceStart(b, times, j)
    decreases j
  {
    if j > 0 {
      LevelIsBoundedFromStart(b, times, j - 1);
      NextLevel(b, times, j - 1);
      BoundsMove(b, times, 0, j - 1);
    }
  }

  /** One of the bounds is met exactly: the level is as high as it can be. */
  lemma {:induction false} LevelIsTight(b: Bucket, times: seq<real>, j: nat)
    requires b.Valid() && Clocked(b, times) && j < |times|
    ensures Level(b, times, j) == SinceStart(b, times, j)
            || exists i :: 0 <= i <= j && Level(b, times, j) == SinceFull(b, times, i, j)
    decreases j
  {
    TokensStayInRange(b, times, j);
    if Level(b, times, j) == b.capacity as real {
      assert Level(b, times, j) == SinceFull(b, times, j, j);
    } else if j > 0 {
      LevelIsTight(b, times, j - 1);
      NextLevel(b, times, j - 1);
      BoundsMove(b, times, 0, j - 1);
      if Level(b, times, j - 1) != SinceStart(b, times, j - 1) {
        var i :| 0 <= i <= j - 1 && Level(b, times, j - 1) == SinceFull(b, times, i, j - 1);
        BoundsMove(b, times, i, j - 1);
        assert Level(b, times, j) == SinceFull(b, times, i, j);
      }
    }
  }

  /** The exact admission rule: a request is admitted if and only if, counting it, neither the requests
      since the start nor those since any earlier request exceed what the bucket allows for that time. */
  lemma AdmittedIff(b: Bucket, times: seq<real>, j: nat)
    requires b.Valid() && Clocked(b, times) && j < |times|
    ensures Admitted(b, times, j) <==>
              SinceStart(b, times, j) >= 1.0 && forall i :: 0 <= i <= j ==> SinceFull(b, times, i, j) >= 1.0
  {
    LevelIsTight(b, times, j);
    LevelIsBoundedFromStart(b, times, j);
    forall i | 0 <= i <= j ensures Level(b, times, j) <= SinceFull(b, times, i, j) { LevelIsBounded(b, times, i, j); }
  }

  lemma CountsUp(b: Bucket, times: seq<real>, i: nat, j: nat)
    requires i <= j < |times|
    ensures Count(b, times, i, j + 1) == Count(b, times, i, j) + Spent(b, times, j)
  {}

  /** Any window of requests, from number i to number j, admits at most the capacity plus what is refilled
      between the two. */
  lemma {:induction false} WindowAdmitsAtMost(b: Bucket, times: seq<real>, i: nat, j: nat)
    requires b.Valid() && Clocked(b, times) && i <= j < |times|
    ensures Count(b, times, i, j + 1) as real <= b.capacity as real + Gain(b.rate, times[i], times[j])
    decreases j
  {
    CountsUp(b, times, i, j);
    if Admitted(b, times, j) {
      AdmittedIff(b, times, j);
      assert SinceFull(b, times, i, j) >= 1.0;
    } else if i < j {
      WindowAdmitsAtMost(b, times, i, j - 1);
      GainPositive(b.rate, times[j - 1], times[j]);
      GainAddsUp(b.rate, times[i], times[j - 1], times[j]);
    }
  }

  // ----- Retry-After

  lemma RefillTwice(b: Bucket, t: real, u: real)
    requires b.Valid() && b.last <= t <= u
    ensures b.Refilled(t).Refilled(u) == b.Refilled(u)
  {
    GainPositive(b.rate, t, u);
    GainAddsUp(b.rate, b.last, t, u);
  }

  /** Refused requests leave no trace: the level later is as if they had not been made. */
  lemma {:induction false} RefusalsLeaveNoTrace(b: Bucket, times: seq<real>, n: nat, now: real)
    requires b.Valid() && Clocked(b, times) && n <= |times|
    requires b.last <= now && (n > 0 ==> times[n - 1] <= now)
    requires forall k :: 0 <= k < n ==> !Admitted(b, times, k)
    ensures Before(b, times, n).Refilled(now) == b.Refilled(now)
    decreases n
  {
    if n > 0 {
      RefusalsLeaveNoTrace(b, times, n - 1, times[n - 1]);
      assert !Admitted(b, times, n - 1);
      assert Before(b, times, n) == b.Refilled(times[n - 1]);
      RefillTwice(b, times[n - 1], now);
    }
  }

  /** Waiting for the missing part of a token yields a whole one. */
  lemma WaitYieldsToken(tokens: real, rate: real, now: real, later: real)
    requires rate > 0.0 && later - now >= (1.0 - tokens) / rate
    ensures tokens + Gain(rate, now, later) >= 1.0
  {
    var due := now + (1.0 - tokens) / rate;
    assert Gain(rate, now, due) == 1.0 - tokens;
    GainPositive(rate, due, later);
    GainAddsUp(rate, now, due, later);
  }

  /** The state after a refusal, and requests made since that were all refused too, until the time given in
      Retry-After has passed. */
  ghost predicate WaitedFor(refused: Bucket, times: seq<real>, later: real) {
    && Clocked(refused, times) && refused.last <= later && (times != [] ==> times[|times| - 1] <= later)
    && (forall k :: 0 <= k < |times| ==> !Admitted(refused, times, k))
    && (refused.RetryAfter().Some? ==> later >= refused.last + refused.RetryAfter().value as real)
  }

  /** A refused request is told a number of seconds exactly when the bucket refills at all. Made at or after
      that time, with only refused requests in between, the next request is admitted if and only if the
      bucket can hold a token. */
  lemma RetryAfterIsEnough(b: Bucket, now: real, times: seq<real>, later: real)
    requires b.Valid() && b.last <= now && !b.Admits(now, 1) && WaitedFor(b.After(now, 1), times, later)
    ensures var refused := b.After(now, 1);
            && (refused.RetryAfter().Some? <==> b.rate > 0.0)
            && (b.rate > 0.0 ==>
                  (Before(refused, times, |times|).Admits(later, 1) <==> b.capacity >= 1))
  {
    RefillStaysValid(b, now);
    var refused := b.After(now, 1);
    RefusalsLeaveNoTrace(refused, times, |times|, later);
    if b.rate > 0.0 {
      WaitIsCovered(refused, later);
      WaitYieldsToken(refused.tokens, b.rate, now, later);
    }
  }

  lemma WaitIsCovered(refused: Bucket, later: real)
    requires refused.rate > 0.0 && refused.tokens < 1.0
    requires later >= refused.last + refused.RetryAfter().value as real
    ensures later - refused.last >= (1.0 - refused.tokens) / refused.rate
  {
    var wait := (1.0 - refused.tokens) / refused.rate;
    assert refused.WaitTime() == Some(wait) && wait < wait.Floor as real + 1.0;
  }

  /** The number is at most one second more than needed: a request made more than a second before that time
      is refused again. */
  lemma RetryAfterIsClose(b: Bucket, now: real, later: real)
    requires b.Valid() && b.last <= now <= later && !b.Admits(now, 1) && b.rate > 0.0
    ensures var refused := b.After(now, 1);
            && refused.RetryAfter().Some? && refused.RetryAfter().value >= 1
            && (later < now + refused.RetryAfter().value as real - 1.0 ==> !refused.Admits(later, 1))
  {
    RefillStaysValid(b, now);
    var refused := b.After(now, 1);
    var wait := (1.0 - refused.tokens) / refused.rate;
    assert wait * refused.rate == 1.0 - refused.tokens;
    assert wait >= 0.0;
    assert refused.RetryAfter() == Some(wait.Floor + 1) && wait.Floor as real <= wait;
    if later < now + wait { GainIsLess(refused.rate, now, later, wait); }
  }

  lemma GainIsLess(rate: real, now: real, later: real, wait: real)
    requires rate > 0.0 && later < now + wait
    ensures Gain(rate, now, later) < wait * rate
  {
    var gap := now + wait - later;
    assert gap * rate > 0.0;
    assert (later - now) * rate + gap * rate == wait * rate;
  }

  // ----- the bucket object

  class TokenBucket {
    const capacity: nat
    const rate: real
    var tokens: real
    var lastUpdate: real

    ghost function State(): Bucket
      reads this
    {
      Bucket(capacity, rate, tokens, lastUpdate)
    }

    /** An initial token count of zero means a full bucket. */
    constructor (capacity: nat, tokens: real, rate: real, now: real)
      ensures State() == Bucket(capacity, rate, if tokens == 0.0 then capacity as real else tokens, now)
    {
      this.capacity, this.rate, this.lastUpdate := capacity, rate, now;
      this.tokens := if tokens == 0.0 then capacity as real else tokens;
    }

    method Consume(now: real, n: nat) returns (ok: bool)
      modifies this
      ensures ok == old(State()).Admits(now, n)
      ensures State() == old(State()).After(now, n)
    {
      var elapsed := now - lastUpdate;
      assert rate * elapsed == Gain(rate, lastUpdate, now);
      tokens := Min(capacity as real, tokens + rate * elapsed);
      lastUpdate := now;
      if tokens >= n as real {
        tokens := tokens - n as real;
        return true;
      }
      return false;
    }
  }

  // ----- the limiter

  type Key = string

  /** Categories hold no colon, so different categories or actors have different keys. */
  function BucketKey(category: string, actor: string): Key {
    category + ":" + actor
  }

  lemma BucketKeyInjective(c: string, a: string, d: string, b: string)
    requires ':' !in c && ':' !in d && BucketKey(c, a) == BucketKey(d, b)
    ensures c == d && a == b
  {
    var k := BucketKey(c, a);
    assert k[|c|] == ':' && k[|d|] == ':';
    assert forall i :: 0 <= i < |c| ==> k[i] == c[i];
    assert forall i :: 0 <= i < |d| ==> k[i] == d[i];
    assert k[..|c|] == c && k[..|d|] == d;
    assert k[|c| + 1..] == a && k[|d| + 1..] == b;
  }

  class Limiter {
    const enabled: bool
    const burst: nat
    var buckets: map<Key, TokenBucket>

    /** No bucket serves two keys. */
    ghost predicate Valid()
      reads this
    {
      forall k, l :: k in buckets && l in buckets && k != l ==> buckets[k] != buckets[l]
    }

    constructor (enabled: bool, burst: nat)
      ensures Valid() && buckets == map[] && this.enabled == enabled && this.burst == burst
    {
      this.enabled, this.burst, buckets := enabled, burst, map[];
    }

    method GetBucket(key: Key, rpm: nat, now: real) returns (b: TokenBucket)
      requires Valid()
      modifies this
      ensures Valid() && key in buckets && b == buckets[key]
      ensures key in old(buckets) ==> buckets == old(buckets)
      ensures key !in old(buckets) ==>
        && fresh(b) && buckets == old(buckets)[key := b]
        && b.State() == Bucket(rpm + burst, rpm as real / 60.0, (rpm + burst) as real, now)
    {
      if key !in buckets {
        var created := new TokenBucket(rpm + burst, 0.0, rpm as real / 60.0, now);
        buckets := buckets[key := created];
      }
      b := buckets[key];
    }

    /** What the key's bucket holds when a request arrives: a first request finds a full bucket. */
    ghost function StateAt(key: Key, rpm: nat, now: real): Bucket
      reads this, buckets.Values
    {
      if key in buckets then buckets[key].State()
      else Bucket(rpm + burst, rpm as real / 60.0, (rpm + burst) as real, now)
    }

    /** Refuses with 429 exactly when the key's own bucket has no token; every other key's bucket is left
        alone. */
    method CheckRateLimit(category: string, actor: string, rpm: nat, now: real)
      returns (blocked: bool, retryAfter: Option<int>)
      requires Valid()
      modifies this, buckets.Values
      ensures Valid()
      ensures !enabled ==>
        && !blocked && buckets == old(buckets)
        && forall k :: k in buckets ==> buckets[k].State() == old(buckets[k].State())
      ensures enabled ==>
        var key, was := BucketKey(category, actor), old(StateAt(BucketKey(category, actor), rpm, now));
        && key in buckets && buckets[key].State() == was.After(now, 1)
        && blocked == !was.Admits(now, 1) && (blocked ==> retryAfter == was.After(now, 1).RetryAfter())
        && (forall k :: k in old(buckets) && k != key ==>
              k in buckets && buckets[k] == old(buckets[k]) && buckets[k].State() == old(buckets[k].State()))
    {
      if !enabled { return false, None; }
      var bucket := GetBucket(BucketKey(category, actor), rpm, now);
      var ok := bucket.Consume(now, 1);
      if ok { return false, None; }
      retryAfter := if bucket.tokens >= 1.0 then Some(1)
                    else if bucket.rate == 0.0 then None
                    else Some(((1.0 - bucket.tokens) / bucket.rate).Floor + 1);
      return true, retryAfter;
    }
  }
}
