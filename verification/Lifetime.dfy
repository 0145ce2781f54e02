/** The lifetime of minted credentials, in int64 nanoseconds as the STS handler computes it. */
module Lifetime {
  import opened Primitives

  /** The largest number of seconds whose nanoseconds still fit an int64. */
  const MAX_SECONDS: int := 9_223_372_036

  function Min(a: int, b: int): int { if a <= b then a else b }

  /** `time.Duration(n) * time.Second`. */
  function Seconds(n: int): int { Wrap64(n * SECOND) }

  /** The effective TTL: min of the token's remaining life, max_duration and DurationSeconds
      (requested == 0 when the form did not ask), with the wrap-around of the code. */
  function Ttl(exp: int, now: int, maxDuration: int, requested: int): int {
    var capped := Min(Sub(exp, now), Seconds(maxDuration));
    if requested > 0 then Min(capped, Seconds(requested)) else capped
  }

  method EffectiveTtl(exp: int, now: int, maxDuration: int, requested: int) returns (ttl: int)
    ensures ttl == Ttl(exp, now, maxDuration, requested)
  {
    ttl := Sub(exp, now);
    var max := Seconds(maxDuration);
    if ttl > max {
      ttl := max;
    }
    if requested > 0 {
      var req := Seconds(requested);
      if ttl > req {
        ttl := req;
      }
    }
  }

  /** The expiry the documentation promises: the earliest of the three. */
  function PromisedExpiry(exp: int, now: int, maxDuration: int, requested: int): int {
    var capped := Min(exp, now + maxDuration * SECOND);
    if requested > 0 then Min(capped, now + requested * SECOND) else capped
  }

  /** Below the wrap-around the minted expiry is exactly the promised one. */
  lemma ExpiryIsMin(exp: int, now: int, maxDuration: int, requested: int)
    requires 0 < maxDuration <= MAX_SECONDS && requested <= MAX_SECONDS
    ensures Ttl(exp, now, maxDuration, requested) > 0 <==> PromisedExpiry(exp, now, maxDuration, requested) > now
    ensures Ttl(exp, now, maxDuration, requested) > 0 ==>
              now + Ttl(exp, now, maxDuration, requested) == PromisedExpiry(exp, now, maxDuration, requested)
  {
  }

  /** No minted credential outlives the token it was minted from, whatever the configuration. */
  lemma WithinToken(exp: int, now: int, maxDuration: int, requested: int)
    ensures Ttl(exp, now, maxDuration, requested) > 0 ==> now + Ttl(exp, now, maxDuration, requested) <= exp
  {
  }

  /** With any requested duration and any configured maximum, wrapped or not, a minted lifetime
      never outlives the token nor max_duration. */
  lemma MintedLifetimeBounded(exp: int, now: int, maxDuration: int, requested: int)
    requires 0 < maxDuration
    ensures var ttl := Ttl(exp, now, maxDuration, requested);
            ttl > 0 ==> ttl <= exp - now && ttl <= maxDuration * SECOND && (requested > 0 ==> ttl <= requested * SECOND)
  {
    WrapOnlyShortens(maxDuration * SECOND);
    if requested > 0 {
      WrapOnlyShortens(requested * SECOND);
    }
  }

  lemma WrapOnlyShortens(x: int)
    requires 0 <= x
    ensures Wrap64(x) <= x
  {
  }

  /** What the handler does with a TTL: mint until then, or refuse the token as expired. */
  function Granted(now: int, ttl: int): int { if ttl > 0 then now + ttl else now }

  function PromisedGrant(exp: int, now: int, maxDuration: int, requested: int): int {
    var e := PromisedExpiry(exp, now, maxDuration, requested);
    if e > now then e else now
  }

  /** Exactly when a request keeps the promise: no duration has wrapped to something shorter than
      the promised lifetime, or the token has no life left anyway. */
  lemma PromiseKeptExactlyWhen(exp: int, now: int, maxDuration: int, requested: int)
    requires 0 < maxDuration
    ensures Granted(now, Ttl(exp, now, maxDuration, requested)) == PromisedGrant(exp, now, maxDuration, requested)
       <==> var life := PromisedExpiry(exp, now, maxDuration, requested) - now;
            || exp <= now
            || (Seconds(maxDuration) >= life && (requested > 0 ==> Seconds(requested) >= life))
  {
    WrapOnlyShortens(maxDuration * SECOND);
    if requested > 0 {
      WrapOnlyShortens(requested * SECOND);
    }
  }

  /** One second past the bound wraps to a negative duration: the exchange is refused as expired
      although the token still has an hour. */
  lemma WrapRefusesLiveToken()
    ensures Seconds(MAX_SECONDS + 1) < 0
    ensures Ttl(3600 * SECOND, 0, 3600, MAX_SECONDS + 1) <= 0
    ensures PromisedExpiry(3600 * SECOND, 0, 3600, MAX_SECONDS + 1) == 3600 * SECOND
  {
    assert (MAX_SECONDS + 1) * SECOND == 9_223_372_037_000_000_000;
  }
}
