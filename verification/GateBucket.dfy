/** The lazily refilled token bucket of the request limiter (internal/api/gatelimiter.go).
    Time is in seconds since an arbitrary origin. */
module GateBucket {

  /** One nanosecond, as a number of seconds: the slack `RetryAfter` allows in its ceiling. */
  const TOLERANCE: real := 0.000000001

  datatype Bucket = Bucket(tokens: real, perMinute: real, last: real)

  ghost predicate ValidBucket(b: Bucket, perMinute: nat, clock: real) {
    1 <= perMinute && b.perMinute == perMinute as real && 0.0 <= b.tokens <= b.perMinute && b.last <= clock
  }

  function Min(a: real, b: real): real {
    if a <= b then a else b
  }

  function Rate(b: Bucket): real {
    b.perMinute / 60.0
  }

  function NewBucket(perMinute: nat, now: real): Bucket {
    Bucket(perMinute as real, perMinute as real, now)
  }

  function Refill(b: Bucket, now: real): Bucket {
    if now > b.last
    then b.(tokens := Min(b.perMinute, b.tokens + (now - b.last) * b.perMinute / 60.0), last := now)
    else b.(last := now)
  }

  function Ceil(x: real): int {
    -((-x).Floor)
  }

  function RetryAfter(b: Bucket): int
    requires b.perMinute > 0.0
  {
    var deficit := 1.0 - b.tokens;
    if deficit <= 0.0 then 1 else
    var secs := Ceil(deficit / Rate(b) - TOLERANCE);
    if secs < 1 then 1 else secs
  }

  /** What the bucket is worth at `t`: the tokens an eagerly refilled bucket would hold. */
  ghost function Level(b: Bucket, t: real): real {
    Min(b.perMinute, b.tokens + (t - b.last) * Rate(b))
  }

  /** The level after a whole number of untouched seconds. */
  ghost function LevelAfter(b: Bucket, secs: int): real {
    Level(b, b.last + secs as real)
  }

  lemma RefillIsLevel(b: Bucket, perMinute: nat, clock: real, now: real)
    requires ValidBucket(b, perMinute, clock) && clock <= now
    ensures ValidBucket(Refill(b, now), perMinute, now)
    ensures Refill(b, now).tokens == Level(b, now)
    ensures Refill(b, now).last == now
  {
    MulNonneg(now - b.last, Rate(b));
    assert (now - b.last) * b.perMinute / 60.0 == (now - b.last) * Rate(b);
  }

  lemma MulNonneg(x: real, y: real)
    requires 0.0 <= x && 0.0 <= y
    ensures 0.0 <= x * y
  {}

  lemma LevelBounds(b: Bucket, perMinute: nat, clock: real, t: real)
    requires ValidBucket(b, perMinute, clock) && clock <= t
    ensures b.tokens <= Level(b, t) <= b.perMinute
  {
    MulNonneg(t - b.last, Rate(b));
  }

  lemma NewBucketFull(perMinute: nat, now: real)
    requires 1 <= perMinute
    ensures ValidBucket(NewBucket(perMinute, now), perMinute, now)
    ensures Level(NewBucket(perMinute, now), now) == perMinute as real
  {}

  /** Refill, then take `d` tokens that are there. */
  lemma SpendFromRefilled(b: Bucket, perMinute: nat, now: real, d: real)
    requires ValidBucket(b, perMinute, now) && 0.0 <= d <= Level(b, now)
    ensures var r := Refill(b, now);
      && r.tokens == Level(b, now) && r.perMinute == perMinute as real
      && ValidBucket(r.(tokens := r.tokens - d), perMinute, now)
      && Level(r.(tokens := r.tokens - d), now) == Level(b, now) - d
  {
    RefillIsLevel(b, perMinute, now, now);
  }

  /** Level composes: looking at `u` in between, or not, gives the same level at `t`. */
  lemma LevelAdvances(b: Bucket, perMinute: nat, clock: real, u: real, t: real)
    requires ValidBucket(b, perMinute, clock) && clock <= u <= t
    ensures Level(b, t) == Min(b.perMinute, Level(b, u) + (t - u) * Rate(b))
  {
    MulNonneg(t - u, Rate(b));
    assert (t - b.last) * Rate(b) == (u - b.last) * Rate(b) + (t - u) * Rate(b);
  }

  /** Refilling at `u` and then at `t` is refilling at `t`: a refused look costs nothing. */
  lemma RefillComposes(b: Bucket, perMinute: nat, clock: real, u: real, t: real)
    requires ValidBucket(b, perMinute, clock) && clock <= u <= t
    ensures Refill(Refill(b, u), t) == Refill(b, t)
  {
    RefillIsLevel(b, perMinute, clock, u);
    RefillIsLevel(Refill(b, u), perMinute, u, t);
    RefillIsLevel(b, perMinute, clock, t);
    LevelAdvances(b, perMinute, clock, u, t);
  }

  /** Sixty idle seconds fill any bucket. */
  lemma IdleMinuteFills(b: Bucket, perMinute: nat, clock: real, t: real)
    requires ValidBucket(b, perMinute, clock) && clock <= t && b.last + 60.0 <= t
    ensures Level(b, t) == b.perMinute
  {
    MulNonneg(t - b.last - 60.0, Rate(b));
    assert (t - b.last) * Rate(b) == 60.0 * Rate(b) + (t - b.last - 60.0) * Rate(b);
  }

  lemma CeilBounds(x: real)
    ensures x <= Ceil(x) as real < x + 1.0
  {}

  /** The header of one bucket: long enough up to the tolerance, and no whole second too long. */
  lemma RetryAfterTight(b: Bucket, perMinute: nat)
    requires ValidBucket(b, perMinute, b.last) && b.tokens < 1.0
    ensures RetryAfter(b) >= 1
    ensures LevelAfter(b, RetryAfter(b)) >= 1.0 - TOLERANCE * Rate(b)
    ensures forall m: int :: 1 <= m < RetryAfter(b) ==> LevelAfter(b, m) < 1.0
  {
    var rate, deficit := Rate(b), 1.0 - b.tokens;
    var wait := deficit / rate;
    var n := RetryAfter(b);
    CeilBounds(wait - TOLERANCE);
    assert wait * rate == deficit;
    assert n as real >= wait - TOLERANCE;
    MulNonneg(n as real - (wait - TOLERANCE), rate);
    assert n as real * rate >= deficit - TOLERANCE * rate;
    MulNonneg(TOLERANCE, rate);
    forall m: int | 1 <= m < n
      ensures LevelAfter(b, m) < 1.0
    {
      assert m as real <= wait - TOLERANCE;
      MulNonneg(wait - TOLERANCE - m as real, rate);
      assert m as real * rate <= deficit - TOLERANCE * rate;
      assert TOLERANCE * rate > 0.0;
    }
  }

  /** The seconds until the bucket holds a whole token. */
  ghost function Wait(b: Bucket): real
    requires b.perMinute > 0.0
  {
    (1.0 - b.tokens) / Rate(b)
  }

  /** The wait exceeds a whole number of seconds by no more than the tolerance. */
  ghost predicate JustOverASecond(b: Bucket)
    requires b.perMinute > 0.0
  {
    exists k: int :: 1 <= k && BarelyAfter(k, Wait(b))
  }

  predicate BarelyAfter(k: int, wait: real) {
    k as real < wait <= k as real + TOLERANCE
  }

  /** Exactly when a caller that waits out its header finds the token there. */
  lemma RetryAfterSuffices(b: Bucket, perMinute: nat)
    requires ValidBucket(b, perMinute, b.last) && b.tokens < 1.0
    ensures LevelAfter(b, RetryAfter(b)) >= 1.0 <==> !JustOverASecond(b)
  {
    var rate, wait, n := Rate(b), Wait(b), RetryAfter(b);
    assert wait * rate == 1.0 - b.tokens;
    TokenThere(b, perMinute, n);
    assert wait > 0.0;
    hide Level;
    WaitOfHeader(wait, n);
  }

  lemma TokenThere(b: Bucket, perMinute: nat, n: int)
    requires ValidBucket(b, perMinute, b.last) && 0 <= n
    ensures LevelAfter(b, n) >= 1.0 <==> n as real >= Wait(b)
  {
    var rate, wait := Rate(b), Wait(b);
    assert wait * rate == 1.0 - b.tokens;
    if n as real >= wait {
      MulNonneg(n as real - wait, rate);
      assert n as real * rate >= wait * rate;
    } else {
      MulPositive(wait - n as real, rate);
      assert n as real * rate < wait * rate;
    }
    assert LevelAfter(b, n) == Min(b.perMinute, b.tokens + n as real * rate);
  }

  /** A header of `n` seconds falls short of the wait exactly when the tolerance swallowed the rest. */
  lemma WaitOfHeader(wait: real, n: int)
    requires n == var secs := Ceil(wait - TOLERANCE); if secs < 1 then 1 else secs
    ensures n as real >= wait <==> !(exists k: int :: 1 <= k && BarelyAfter(k, wait))
  {
    CeilBounds(wait - TOLERANCE);
    assert 1 <= n && n as real >= wait - TOLERANCE && (n == 1 || n as real < wait - TOLERANCE + 1.0);
    hide *;
    if n as real < wait {
      BarelyShort(wait, n);
    } else if k: int :| 1 <= k && BarelyAfter(k, wait) {
      ShortWhenBarely(wait, n, k);
    }
  }

  lemma BarelyShort(wait: real, n: int)
    requires wait - TOLERANCE <= n as real < wait
    ensures BarelyAfter(n, wait)
  {}

  lemma ShortWhenBarely(wait: real, n: int, k: int)
    requires 1 <= k && BarelyAfter(k, wait) && (n == 1 || n as real < wait - TOLERANCE + 1.0)
    ensures n as real < wait
  {
    if n != 1 {
      assert n as real < (k + 1) as real;
      assert n <= k;
    }
  }

  lemma MulPositive(x: real, y: real)
    requires 0.0 < x && 0.0 < y
    ensures 0.0 < x * y
  {}
}
