/**
 The per-client token bucket. Clock readings are nanoseconds and may go backwards; token counts are exact
 reals.
 */
module TokenBucket {
  import opened Common
  import opened GoInts
  import opened GatewayPipeline

  datatype Policy = Policy(enabled: bool, capacity: int, refillRate: real, refillIntervalInSec: int)

  datatype Bucket = Bucket(tokens: real, lastRefill: int)

  datatype Decision = Decision(allowed: bool, bucket: Bucket)

  const SECOND := 1_000_000_000

  function RefillInterval(p: Policy): int {
    Wrap64(p.refillIntervalInSec * SECOND)
  }

  function MinReal(a: real, b: real): real {
    if a <= b then a else b
  }

  /** Tokens gained in one nanosecond. A policy that cannot refill gains none. */
  function PerNano(p: Policy): (r: real)
    ensures r >= 0.0
  {
    if RefillInterval(p) > 0 && p.refillRate > 0.0 then p.refillRate / RefillInterval(p) as real else 0.0
  }

  function Gain(p: Policy, elapsed: int): real {
    PerNano(p) * elapsed as real
  }

  lemma {:induction false} GainAdds(p: Policy, a: int, b: int)
    ensures Gain(p, a + b) == Gain(p, a) + Gain(p, b)
    ensures a >= 0 ==> Gain(p, a) >= 0.0
  {
  }

  function Capacity(p: Policy): real {
    p.capacity as real
  }

  function Full(p: Policy, now: int): Bucket {
    Bucket(Capacity(p), now)
  }

  function Refilled(p: Policy, b: Bucket, now: int): Bucket {
    if PerNano(p) > 0.0 && now > b.lastRefill
    then Bucket(MinReal(Capacity(p), b.tokens + Gain(p, now - b.lastRefill)), now)
    else b
  }

  function Tried(b: Bucket): Decision {
    if b.tokens >= 1.0 then Decision(true, b.(tokens := b.tokens - 1.0)) else Decision(false, b)
  }

  function Consumed(p: Policy, b: Bucket, now: int): Decision {
    Tried(Refilled(p, b, now))
  }

  /** A client's bucket, a full one when it has none. */
  function BucketFor(p: Policy, buckets: map<string, Bucket>, key: string, now: int): Bucket {
    if key in buckets then buckets[key] else Full(p, now)
  }

  class TokenBucketLimiter {
    const tokenBucket: Policy
    var buckets: map<string, Bucket>

    constructor (policy: Policy)
      ensures tokenBucket == policy && buckets == map[]
    {
      tokenBucket, buckets := policy, map[];
    }

    method Consume(key: string, now: int) returns (allowed: bool)
      modifies this
      ensures var decision := Consumed(tokenBucket, BucketFor(tokenBucket, old(buckets), key, now), now);
              allowed == decision.allowed && buckets == old(buckets)[key := decision.bucket]
    {
      if key !in buckets {
        buckets := buckets[key := Bucket(tokenBucket.capacity as real, now)];
      }
      var refillInterval := RefillInterval(tokenBucket);
      if refillInterval > 0 {
        var elapsed := now - buckets[key].lastRefill;
        if elapsed > 0 {
          var tokensToAdd := elapsed as real / refillInterval as real * tokenBucket.refillRate;
          GainComputed(tokenBucket, elapsed);
          if tokensToAdd > 0.0 {
            buckets := buckets[key :=
              Bucket(MinReal(tokenBucket.capacity as real, buckets[key].tokens + tokensToAdd), now)];
          }
        }
      }
      allowed := buckets[key].tokens >= 1.0;
      if allowed {
        buckets := buckets[key := buckets[key].(tokens := buckets[key].tokens - 1.0)];
      }
    }
  }

  /** The product the code forms is the gain, and is positive exactly when the policy refills. */
  lemma {:induction false} GainComputed(p: Policy, elapsed: int)
    requires RefillInterval(p) > 0 && elapsed > 0
    ensures var added := elapsed as real / RefillInterval(p) as real * p.refillRate;
            && (added > 0.0 <==> PerNano(p) > 0.0)
            && (added > 0.0 ==> added == Gain(p, elapsed))
  {
    var e, n, r := elapsed as real, RefillInterval(p) as real, p.refillRate;
    var q := e / n;
    assert q > 0.0;
    if r > 0.0 {
      assert q * r > 0.0;
      assert e / n * r == r / n * e;
      assert r / n > 0.0;
    } else {
      assert q * r <= 0.0;
    }
  }

  /** The middleware: no limiter at all unless the policy is enabled with a positive capacity. */
  class RateLimitMiddleware {
    const limiter: TokenBucketLimiter?

    constructor (policy: Option<Policy>)
      ensures limiter != null <==> policy.Some? && policy.value.enabled && policy.value.capacity > 0
      ensures limiter != null ==> fresh(limiter) && limiter.tokenBucket == policy.value && limiter.buckets == map[]
    {
      if policy.Some? && policy.value.enabled && policy.value.capacity > 0 {
        limiter := new TokenBucketLimiter(policy.value);
      } else {
        limiter := null;
      }
    }

    method Serve(key: string, now: int) returns (rate: RateDecision)
      modifies limiter
      ensures rate.RateDisabled? <==> limiter == null
      ensures limiter != null ==>
                var decision := Consumed(limiter.tokenBucket,
                                         BucketFor(limiter.tokenBucket, old(limiter.buckets), key, now), now);
                && (rate.RateAdmitted? <==> decision.allowed)
                && limiter.buckets == old(limiter.buckets)[key := decision.bucket]
    {
      if limiter == null {
        return RateDisabled;
      }
      var allowed := limiter.Consume(key, now);
      return if allowed then RateAdmitted else RateRejected;
    }
  }
}
