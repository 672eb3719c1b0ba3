/** Retry configuration (WithRetry, validateRetry) and the wait between attempts, in int64
    nanoseconds with the float64 conversion made explicit. */
module Backoff {
  import opened Basics
  import opened Errors

  datatype RetryConfig = RetryConfig(
    maxAttempts: int,
    minWait: int,
    maxWait: int,
    retryableStatus: seq<int>,
    honorRetryAfter: bool,
    jitter: bool
  )

  const DEFAULT_RETRY := RetryConfig(3, SECOND, 30 * SECOND, [429], true, true)

  datatype RetryOption = WithRetry(cfg: RetryConfig) | WithoutRetry

  /** WithRetry starts from the defaults and takes over the fields the caller set. */
  function Merge(cfg: RetryConfig): RetryConfig {
    DEFAULT_RETRY.(
      maxAttempts := if cfg.maxAttempts > 0 then cfg.maxAttempts else DEFAULT_RETRY.maxAttempts,
      minWait := if cfg.minWait > 0 then cfg.minWait else DEFAULT_RETRY.minWait,
      maxWait := if cfg.maxWait > 0 then cfg.maxWait else DEFAULT_RETRY.maxWait,
      retryableStatus := if |cfg.retryableStatus| > 0 then cfg.retryableStatus else DEFAULT_RETRY.retryableStatus)
  }

  /** The retry field of the client after NewClient applied opts in order. */
  function Configure(opts: seq<RetryOption>): Option<RetryConfig> {
    if opts == [] then Some(DEFAULT_RETRY)
    else match opts[|opts| - 1]
      case WithRetry(cfg) => Some(Merge(cfg))
      case WithoutRetry => None
  }

  predicate ValidRetry(retry: Option<RetryConfig>) {
    retry.Some? ==> retry.value.maxAttempts >= 1 && retry.value.minWait <= retry.value.maxWait
  }

  predicate IsInt64(x: int) {
    -TWO_63 <= x < TWO_63
  }

  /** What the Go types of the caller's fields already guarantee. */
  predicate Typed64(cfg: RetryConfig) {
    IsInt64(cfg.maxAttempts) && IsInt64(cfg.minWait) && IsInt64(cfg.maxWait)
  }

  /** What NewClient guarantees of a retry configuration it lets through. */
  predicate Accepted(cfg: RetryConfig) {
    && 1 <= cfg.maxAttempts < TWO_63
    && 1 <= cfg.minWait <= cfg.maxWait < TWO_63
    && cfg.retryableStatus != []
    && cfg.honorRetryAfter && cfg.jitter
  }

  /** NewClient(opts) succeeds and its client retries with cfg. */
  ghost predicate Yields(opts: seq<RetryOption>, cfg: RetryConfig) {
    && (forall i :: 0 <= i < |opts| && opts[i].WithRetry? ==> Typed64(opts[i].cfg))
    && Configure(opts) == Some(cfg) && ValidRetry(Some(cfg))
  }

  /** Accepted configurations are exactly the ones some option list yields. */
  lemma AcceptedMeans(cfg: RetryConfig)
    ensures Accepted(cfg) <==> exists opts: seq<RetryOption> :: Yields(opts, cfg)
  {
    if Accepted(cfg) {
      assert Yields([WithRetry(cfg)], cfg);
    }
  }

  /** WithRetry takes over exactly the fields that are set; a zero or negative one, and an empty status list,
      falls back to 3 attempts, 1s, 30s and {429}. Retry-After and jitter stay on. */
  lemma MergeMeans(cfg: RetryConfig)
    ensures var m := Merge(cfg);
      && m.maxAttempts == (if cfg.maxAttempts >= 1 then cfg.maxAttempts else 3)
      && m.minWait == (if cfg.minWait >= 1 then cfg.minWait else 1_000_000_000)
      && m.maxWait == (if cfg.maxWait >= 1 then cfg.maxWait else 30_000_000_000)
      && m.retryableStatus == (if cfg.retryableStatus != [] then cfg.retryableStatus else [429])
      && m.honorRetryAfter && m.jitter
  {
  }

  /** The last option decides, and without one a client retries with the defaults. */
  lemma LastOptionWins(opts: seq<RetryOption>, cfg: RetryConfig)
    ensures Configure(opts + [WithRetry(cfg)]) == Some(Merge(cfg))
    ensures Configure(opts + [WithoutRetry]) == None
    ensures Configure([]) == Some(RetryConfig(3, 1_000_000_000, 30_000_000_000, [429], true, true))
  {
  }

  // ---------------------------------------------------------------- float64

  /** The spacing of float64 values around x. */
  function Ulp(x: nat): (u: nat)
    ensures u >= 1
  {
    if x < 0x20_0000_0000_0000 then 1 else 2 * Ulp(x / 2)
  }

  /** float64(x): the nearest multiple of the spacing, ties to even. */
  function Float64(x: nat): nat {
    var u := Ulp(x);
    var q, r := x / u, x % u;
    if 2 * r < u || (2 * r == u && q % 2 == 0) then q * u else (q + 1) * u
  }

  /** The spacing leaves 53 significant bits: fewer than 2^53 steps below x, and at least 2^52 of them
      where the spacing is not 1. */
  lemma {:induction false} UlpMeans(x: nat)
    ensures x / Ulp(x) < 0x20_0000_0000_0000
    ensures Ulp(x) > 1 ==> x / Ulp(x) >= 0x10_0000_0000_0000
  {
    if x >= 0x20_0000_0000_0000 {
      UlpMeans(x / 2);
      HalfQuotient(x, Ulp(x / 2));
    }
  }

  lemma HalfQuotient(x: nat, u: nat)
    requires u >= 1
    ensures x / (2 * u) == x / 2 / u
  {
    var q := x / 2 / u;
    Quotient(x / 2, u, q);
    assert q * (2 * u) == 2 * (q * u);
    assert (q + 1) * (2 * u) == 2 * ((q + 1) * u);
    Quotient(x, 2 * u, q);
  }

  /** float64(x) is a multiple of the spacing, no more than half a step from x. */
  lemma Float64Nearest(x: nat) returns (m: nat)
    ensures Float64(x) == m * Ulp(x)
    ensures 2 * (Float64(x) - x) <= Ulp(x) && 2 * (x - Float64(x)) <= Ulp(x)
  {
    hide Ulp;
    var u := Ulp(x);
    var q, r := x / u, x % u;
    m := if 2 * r < u || (2 * r == u && q % 2 == 0) then q else q + 1;
    assert Float64(x) == m * u;
    assert (q + 1) * u == q * u + u;
    assert x == q * u + r;
  }

  lemma AtLeastOne(q: nat, u: nat)
    requires q >= 1 && u >= 1
    ensures q * u >= 1
  {
  }

  /** Below 2^53 the conversion is exact; a positive value never becomes zero. */
  lemma Float64Exact(x: nat)
    ensures x < 0x20_0000_0000_0000 ==> Float64(x) == x
    ensures x >= 1 ==> Float64(x) >= 1
  {
    if x >= 0x20_0000_0000_0000 {
      UlpBelow(x);
      QuotientPositive(x, Ulp(x));
      AtLeastOne(x / Ulp(x), Ulp(x));
      AtLeastOne(x / Ulp(x) + 1, Ulp(x));
    }
  }

  lemma QuotientPositive(x: nat, u: nat)
    requires 1 <= u <= x
    ensures x / u >= 1
  {
  }

  lemma {:induction false} UlpBelow(x: nat)
    requires x >= 1
    ensures Ulp(x) <= x
  {
    if x >= 0x20_0000_0000_0000 {
      UlpBelow(x / 2);
    }
  }

  ghost function Pow2(k: nat): nat {
    if k == 0 then 1 else 2 * Pow2(k - 1)
  }

  lemma Double(x: int, y: int)
    ensures 2 * (x * y) == 2 * x * y
  {
  }

  lemma {:induction false} Pow2Add(a: nat, b: nat)
    ensures Pow2(a + b) == Pow2(a) * Pow2(b)
  {
    if a > 0 {
      Pow2Add(a - 1, b);
      assert Pow2(a + b) == 2 * Pow2(a - 1 + b);
      Double(Pow2(a - 1), Pow2(b));
    }
  }

  /** x * 2^k by repeated doubling: float64 scaling by a power of two is exact. */
  function Scale(x: nat, k: nat): nat
    decreases k
  {
    if k == 0 then x else Scale(2 * x, k - 1)
  }

  lemma {:induction false} ScaleIsPower(x: nat, k: nat)
    ensures Scale(x, k) == x * Pow2(k)
    decreases k
  {
    if k > 0 {
      ScaleIsPower(2 * x, k - 1);
    }
  }

  lemma {:induction false} ScaleGrows(x: nat, j: nat, k: nat)
    requires j <= k
    ensures Scale(x, j) <= Scale(x, k)
    decreases j
  {
    if j > 0 {
      ScaleGrows(2 * x, j - 1, k - 1);
    } else {
      ScaleAtLeast(x, k);
    }
  }

  lemma {:induction false} ScaleAtLeast(x: nat, k: nat)
    ensures Scale(x, k) >= x
    decreases k
  {
    if k > 0 {
      ScaleAtLeast(2 * x, k - 1);
    }
  }

  // ---------------------------------------------------------------- the wait

  /** What the language and the machine leave open: the HTTP-date clock, what an out-of-range
      float64 to int64 conversion yields, and the random source (Int63n(n) is draw % n). */
  datatype Machine = Machine(until: string -> Option<int>, overflow: int, draw: nat -> nat)

  function ToInt64(x: nat, m: Machine): int {
    if x < TWO_63 then x else m.overflow
  }

  /** The wait before jitter when no Retry-After applies. */
  function PreJitter(cfg: RetryConfig, attempt: nat, m: Machine): int {
    var base := if cfg.minWait <= 0 then SECOND else cfg.minWait;
    var d := ToInt64(Scale(Float64(base), attempt), m);
    if cfg.maxWait > 0 && d > cfg.maxWait then cfg.maxWait else d
  }

  /** backoff(attempt, resp); ra is the Retry-After of resp, 0 without a response. */
  function Wait(cfg: RetryConfig, attempt: nat, ra: int, m: Machine): int {
    if cfg.honorRetryAfter && ra > 0 then
      if cfg.maxWait > 0 && ra > cfg.maxWait then cfg.maxWait else ra
    else
      var d := PreJitter(cfg, attempt, m);
      if cfg.jitter && d > 1 then d / 2 + m.draw(attempt) % (d - d / 2) else d
  }

  /** backoff as the source writes it. */
  method ComputeBackoff(cfg: RetryConfig, attempt: nat, ra: int, m: Machine) returns (d: int)
    ensures d == Wait(cfg, attempt, ra, m)
  {
    if cfg.honorRetryAfter && ra > 0 {
      if cfg.maxWait > 0 && ra > cfg.maxWait {
        return cfg.maxWait;
      }
      return ra;
    }
    var base := cfg.minWait;
    if base <= 0 {
      base := SECOND;
    }
    d := ToInt64(Scale(Float64(base), attempt), m);
    if cfg.maxWait > 0 && d > cfg.maxWait {
      d := cfg.maxWait;
    }
    if cfg.jitter && d > 1 {
      var half := d / 2;
      d := half + m.draw(attempt) % (d - half);
    }
  }

  /** The product MinWait * 2^attempt, as float64 computes it, still fits an int64. */
  predicate Representable(cfg: RetryConfig, attempt: nat)
    requires cfg.minWait >= 0
  {
    Scale(Float64(cfg.minWait), attempt) < TWO_63
  }

  /** With Retry-After, every accepted client waits min(Retry-After, MaxWait). */
  lemma RetryAfterWait(cfg: RetryConfig, attempt: nat, ra: int, m: Machine)
    requires Accepted(cfg) && ra > 0
    ensures Wait(cfg, attempt, ra, m) == Min(ra, cfg.maxWait)
    ensures 1 <= Wait(cfg, attempt, ra, m) <= cfg.maxWait
  {
  }

  /** Without Retry-After, equal jitter: the wait lies in [d/2, d) for d = min(MaxWait, MinWait * 2^attempt),
      so it never collapses to zero and never exceeds MaxWait. */
  lemma JitteredWait(cfg: RetryConfig, attempt: nat, m: Machine)
    requires Accepted(cfg) && Representable(cfg, attempt)
    ensures var d, w := PreJitter(cfg, attempt, m), Wait(cfg, attempt, 0, m);
      && d == Min(cfg.maxWait, Float64(cfg.minWait) * Pow2(attempt))
      && (if d == 1 then w == 1 else d / 2 <= w < d)
      && 1 <= w <= cfg.maxWait
  {
    Float64Exact(cfg.minWait);
    ScaleAtLeast(Float64(cfg.minWait), attempt);
    ScaleIsPower(Float64(cfg.minWait), attempt);
    var d := PreJitter(cfg, attempt, m);
    if d > 1 {
      assert 0 <= m.draw(attempt) % (d - d / 2) < d - d / 2;
    }
  }

  /** With Retry-After not honored it is ignored; without jitter the wait is the capped product itself; a
      MinWait that is not positive counts as 1s, and a MaxWait that is not positive is no cap. */
  lemma PlainWait(cfg: RetryConfig, attempt: nat, ra: int, m: Machine)
    requires IsInt64(cfg.minWait) && !cfg.jitter && (!cfg.honorRetryAfter || ra <= 0)
    requires var base: nat := if cfg.minWait >= 1 then cfg.minWait else 1_000_000_000;
      Float64(base) * Pow2(attempt) < TWO_63
    ensures var base: nat := if cfg.minWait >= 1 then cfg.minWait else 1_000_000_000;
      var product := Float64(base) * Pow2(attempt);
      Wait(cfg, attempt, ra, m) == if cfg.maxWait >= 1 then Min(product, cfg.maxWait) else product
  {
    ScaleIsPower(Float64(if cfg.minWait >= 1 then cfg.minWait else 1_000_000_000), attempt);
  }

  /** The wait before jitter never decreases while the product is representable. */
  lemma PreJitterGrows(cfg: RetryConfig, j: nat, k: nat, m: Machine)
    requires Accepted(cfg) && j <= k && Representable(cfg, k)
    ensures PreJitter(cfg, j, m) <= PreJitter(cfg, k, m)
  {
    ScaleGrows(Float64(cfg.minWait), j, k);
  }

  /** On every machine and for every random draw the wait is in [1ns, MaxWait], exactly when the
      product fits an int64. */
  lemma WaitInRangeMeans(cfg: RetryConfig, attempt: nat)
    requires Accepted(cfg)
    ensures Representable(cfg, attempt) <==>
      forall m: Machine :: IsInt64(m.overflow) ==> 1 <= Wait(cfg, attempt, 0, m) <= cfg.maxWait
  {
    if Representable(cfg, attempt) {
      forall m: Machine | IsInt64(m.overflow)
        ensures 1 <= Wait(cfg, attempt, 0, m) <= cfg.maxWait
      {
        JitteredWait(cfg, attempt, m);
      }
    } else {
      var m := Machine(_ => None, -TWO_63, _ => 0);
      assert Wait(cfg, attempt, 0, m) == -TWO_63;
    }
  }

  /** The wait before jitter in exact arithmetic: MinWait * 2^attempt, at most MaxWait. */
  ghost function Ceiling(cfg: RetryConfig, attempt: nat): int
    requires cfg.minWait >= 0
  {
    Min(cfg.maxWait, Float64(cfg.minWait) * Pow2(attempt))
  }

  /** The documented range of equal jitter, [d/2, d), holds on every machine and for every random draw
      exactly when the product fits an int64 and d is more than 1ns. */
  lemma JitterRangeMeans(cfg: RetryConfig, attempt: nat)
    requires Accepted(cfg)
    ensures var d := Ceiling(cfg, attempt);
      Representable(cfg, attempt) && d > 1 <==>
      forall m: Machine :: IsInt64(m.overflow) ==> d / 2 <= Wait(cfg, attempt, 0, m) < d
  {
    Float64Exact(cfg.minWait);
    ScaleAtLeast(Float64(cfg.minWait), attempt);
    ScaleIsPower(Float64(cfg.minWait), attempt);
    var d := Ceiling(cfg, attempt);
    assert d >= 1;
    var low := Machine(_ => None, -TWO_63, _ => 0);
    if !Representable(cfg, attempt) {
      assert Wait(cfg, attempt, 0, low) == -TWO_63;
    } else if d == 1 {
      JitteredWait(cfg, attempt, low);
    } else {
      forall m: Machine | IsInt64(m.overflow)
        ensures d / 2 <= Wait(cfg, attempt, 0, m) < d
      {
        JitteredWait(cfg, attempt, m);
      }
    }
  }

  /** No wait of an accepted client is longer than MaxWait, even where the product leaves int64. */
  lemma WaitAtMost(cfg: RetryConfig, attempt: nat, ra: int, m: Machine)
    requires Accepted(cfg)
    ensures Wait(cfg, attempt, ra, m) <= cfg.maxWait
  {
    var d := PreJitter(cfg, attempt, m);
    if d > 1 {
      assert 0 <= m.draw(attempt) % (d - d / 2) < d - d / 2;
    }
  }

  lemma Powers()
    ensures Pow2(33) == 8589934592 && Pow2(34) == 17179869184
  {
    assert Pow2(8) == 256;
    Pow2Add(8, 8);
    Pow2Add(16, 16);
  }

  /** The default 1s..30s backoff, with MaxAttempts raised to 36 or more, reaches attempt 34, whose
      product is past 2^63: where such a conversion yields the minimum int64, the wait is negative
      and the timer fires at once. */
  lemma DefaultBackoffOverflows(m: Machine)
    requires m.overflow == -TWO_63
    ensures var cfg := DEFAULT_RETRY.(maxAttempts := 36);
      Accepted(cfg) && Representable(cfg, 33) && !Representable(cfg, 34) && Wait(cfg, 34, 0, m) == -TWO_63
  {
    var x: nat := SECOND;
    Float64Exact(x);
    ScaleIsPower(x, 33);
    ScaleIsPower(x, 34);
    Powers();
  }
}
