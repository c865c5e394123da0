/**
 The reconnection loop's backoff, in the machine's arithmetic: every product and sum is rounded, by
 any rounding that keeps order and leaves the doubles as they are.
 */
module Backoff {
  const MAX_RECONNECT_DELAY_MS: int := 60_000
  const MAX_RECONNECT_BACKOFF_MULTIPLIER: real := 10.0

  const MANTISSA_BITS: nat := 53
  const MAX_EXPONENT: nat := 1074

  /** `rounded` is what the machine makes of an exact result. */
  datatype Settings = Settings(
    initialDelayMs: int, maxDelayMs: int, multiplier: real, jitterRatio: real, rounded: real -> real)

  function Power(n: nat): (p: int)
    ensures p >= 1
  {
    if n == 0 then 1 else 2 * Power(n - 1)
  }

  /** What the machine's random source yields. */
  type Draw = r: real | 0.0 <= r < 1.0

  // ----- Doubles ----------------------------------------------------------------------------------

  ghost predicate Represents(x: real, m: int, k: nat) {
    k <= MAX_EXPONENT && -Power(MANTISSA_BITS) <= m <= Power(MANTISSA_BITS) && x * Power(k) as real == m as real
  }

  /** The doubles of moderate size: a mantissa of 53 bits over a power of two. */
  ghost predicate Double(x: real) { exists m, k :: Represents(x, m, k) }

  function Rounded(s: Settings, x: real): real { s.rounded(x) }

  /** Rounding keeps order, leaves doubles alone, and is done once for all. */
  ghost predicate Rounding(s: Settings) {
    && (forall x, y :: x <= y ==> Rounded(s, x) <= Rounded(s, y))
    && (forall x :: Double(x) ==> Rounded(s, x) == x)
    && (forall x :: Rounded(s, Rounded(s, x)) == Rounded(s, x))
  }

  /** What the options are checked for before a connection is made; options are doubles. */
  ghost predicate Accepted(s: Settings) {
    && 1 <= s.initialDelayMs <= s.maxDelayMs <= MAX_RECONNECT_DELAY_MS
    && 1.0 <= s.multiplier <= MAX_RECONNECT_BACKOFF_MULTIPLIER && Double(s.multiplier)
    && 0.0 <= s.jitterRatio <= 1.0 && Double(s.jitterRatio)
    && Rounding(s)
  }

  function Ceil(x: real): int { -(-x).Floor }
  function Round(x: real): int { (x + 0.5).Floor }
  function Min(a: int, b: int): int { if a < b then a else b }
  function Max(a: int, b: int): int { if a < b then b else a }

  function Scaled(base: int, factor: real): real { base as real * factor }

  function NextBase(s: Settings, base: int): int {
    Min(s.maxDelayMs, Max(base, Ceil(Rounded(s, Scaled(base, s.multiplier)))))
  }

  /** The base delay of the n-th attempt, the first being attempt 1. */
  function Base(s: Settings, attempt: nat): int {
    if attempt <= 1 then s.initialDelayMs else NextBase(s, Base(s, attempt - 1))
  }

  /** A random number in [0, 1) spread over 1 - ratio to 1 + ratio, each operation rounded. */
  function Factor(s: Settings, random: real): real { Rounded(s, Least(s) + Spread(s, random)) }
  function Least(s: Settings): real { Rounded(s, 1.0 - s.jitterRatio) }
  function Spread(s: Settings, random: real): real { Rounded(s, Half(s, random) * 2.0) }
  function Half(s: Settings, random: real): real { Rounded(s, Product(random, s.jitterRatio)) }
  function Product(x: real, y: real): real { x * y }

  /** The delay waited. */
  function JitteredDelay(s: Settings, base: int, random: real): int {
    Max(1, Min(s.maxDelayMs, Round(Rounded(s, Scaled(base, Factor(s, random))))))
  }

  // ----- Growth -----------------------------------------------------------------------------------

  lemma {:induction false} PowersAdd(a: nat, b: nat)
    ensures Power(a + b) == Power(a) * Power(b)
  {
    if a > 0 { PowersAdd(a - 1, b); }
  }

  lemma {:induction false} PowersGrow(a: nat, b: nat)
    requires a <= b
    ensures Power(a) <= Power(b)
  {
    if a < b { PowersGrow(a, b - 1); }
  }

  lemma MantissaLimit()
    ensures Power(16) == 65_536 && Power(MANTISSA_BITS) >= 65_536
  {
    assert Power(4) == 16;
    PowersAdd(4, 4);
    PowersAdd(8, 8);
    PowersGrow(16, MANTISSA_BITS);
  }

  lemma IntegersAreDoubles(n: int)
    requires 0 <= n <= 65_536
    ensures Double(n as real)
  {
    MantissaLimit();
    assert Represents(n as real, n, 0);
  }

  /** The power of two just below an integer of at most 16 bits. */
  lemma {:induction false} Magnitude(n: int, bound: nat) returns (t: nat)
    requires 1 <= n < Power(bound)
    ensures t < bound && Power(t) <= n < 2 * Power(t)
  {
    if n >= Power(bound - 1) { t := bound - 1; } else { t := Magnitude(n, bound - 1); }
  }

  lemma FitsTheMantissa(base: int, t: nat, q: nat)
    requires 1 <= base < 2 * Power(t) && t + q <= 52
    ensures base * Power(q) + 1 <= Power(MANTISSA_BITS)
  {
    PowersAdd(t, q);
    PowersGrow(t + q, 52);
    hide Power;
    BelowDouble(base, Power(t), Power(q));
    DoubleOfPower(52);
  }

  lemma DoubleOfPower(n: nat)
    ensures Power(n + 1) == 2 * Power(n)
  {}

  /** The next double after an integer, on the grid of the multiplier's last bit. */
  lemma NextDouble(base: int, t: nat, q: nat)
    requires 1 <= base < 2 * Power(t) && t + q <= 52
    ensures Double(base as real + 1.0 / Power(q) as real)
  {
    hide Power;
    FitsTheMantissa(base, t, q);
    Gridded(base, Power(q), q);
  }

  lemma Gridded(base: int, p: int, q: nat)
    requires p == Power(q) && q <= MAX_EXPONENT && base >= 1 && base * p + 1 <= Power(MANTISSA_BITS)
    ensures Double(base as real + 1.0 / p as real)
  {
    hide Power;
    ProductAsReal(base, p);
    Distribute(base as real, p as real);
    NotNegative(base, p);
    assert Represents(base as real + 1.0 / p as real, base * p + 1, q);
  }

  lemma NotNegative(a: int, b: int)
    requires a >= 0 && b >= 0
    ensures a * b >= 0
  {}

  lemma ProductAsReal(a: int, b: int)
    ensures (a * b) as real == a as real * b as real
  {}

  lemma BelowDouble(n: int, a: int, p: int)
    requires n <= 2 * a - 1 && p >= 1 && n >= 0
    ensures n * p + 1 <= 2 * (a * p)
  {
    assert n * p <= (2 * a - 1) * p;
    assert (2 * a - 1) * p == 2 * (a * p) - p;
  }

  lemma Distribute(b: real, p: real)
    requires p > 0.0
    ensures (b + 1.0 / p) * p == b * p + 1.0
  {}

  /** A multiplier above 1 exceeds it by at least one part in a power of two no smaller than 2^-52. */
  lemma ExcessOverOne(multiplier: real) returns (k: nat)
    requires multiplier > 1.0 && Double(multiplier)
    ensures k <= 52 && multiplier >= 1.0 + 1.0 / Power(k) as real
  {
    hide Power;
    var m, j :| Represents(multiplier, m, j);
    k := j;
    if k > 52 { PowersGrow(MANTISSA_BITS, k); }
    Grows(multiplier, 1.0, Power(k) as real);
    assert m > Power(k);
    Divides(multiplier, Power(k) as real, m as real);
  }

  lemma Grows(x: real, y: real, p: real)
    requires x > y && p > 0.0
    ensures x * p > y * p
  {}

  lemma Divides(x: real, p: real, m: real)
    requires p > 0.0 && x * p == m && m >= p + 1.0
    ensures x >= 1.0 + 1.0 / p
  {
    assert (1.0 + 1.0 / p) * p == p + 1.0;
    if x < 1.0 + 1.0 / p { Grows(1.0 + 1.0 / p, x, p); }
  }

  /** Rounding does not swallow the growth: scaling by more than 1 reaches past the next double. */
  lemma RoundedGrowth(s: Settings, base: int)
    requires Accepted(s) && 1 <= base <= s.maxDelayMs
    ensures Rounded(s, Scaled(base, s.multiplier)) >= base as real
    ensures s.multiplier > 1.0 ==> Rounded(s, Scaled(base, s.multiplier)) > base as real
  {
    MantissaLimit();
    IntegersAreDoubles(base);
    ScalingKeepsOrder(base, 1.0, s.multiplier);
    if s.multiplier > 1.0 {
      var y := PastTheNextDouble(base, s.multiplier);
      assert Rounded(s, y) == y;
    }
  }

  lemma PastTheNextDouble(base: int, multiplier: real) returns (y: real)
    requires 1 <= base < 65_536 && multiplier > 1.0 && Double(multiplier)
    ensures Double(y) && base as real < y <= Scaled(base, multiplier)
  {
    hide Power, Double, Scaled;
    MantissaLimit();
    var t := Magnitude(base, 16);
    var k := ExcessOverOne(multiplier);
    ScalingKeepsOrder(base, 1.0 + 1.0 / Power(k) as real, multiplier);
    if k <= t {
      y := (base + 1) as real;
      IntegersAreDoubles(base + 1);
      PowersGrow(k, t);
      Excess(base, Power(k), 1);
      assert (Power(k) * 1) as real == Power(k) as real && 1.0 / 1 as real == 1.0;
    } else {
      var p := Power(k - t);
      y := base as real + 1.0 / p as real;
      NextDouble(base, t, k - t);
      PowersAdd(t, k - t);
      Excess(base, Power(t), p);
      Positive(p);
    }
  }

  lemma Positive(p: int)
    requires p >= 1
    ensures 1.0 / p as real > 0.0
  {}

  /** base * (1 + 1 / (a * p)) is at least base + 1 / p when base is at least a. */
  lemma Excess(base: int, a: int, p: int)
    requires base >= a >= 1 && p >= 1
    ensures Scaled(base, 1.0 + 1.0 / (a * p) as real) >= base as real + 1.0 / p as real
  {
    var b, q := base as real, (a * p) as real;
    assert b / q >= 1.0 / p as real by { Ratio(base, a, p); }
    assert Scaled(base, 1.0 + 1.0 / q) == b + b / q;
  }

  lemma Ratio(base: int, a: int, p: int)
    requires base >= a >= 1 && p >= 1
    ensures base as real / (a * p) as real >= 1.0 / p as real
  {
    var b, x, y := base as real, a as real, p as real;
    assert (a * p) as real == x * y;
    assert 1.0 / y == x / (x * y);
  }

  /**
   Bases stay between the initial delay and the cap and never fall; a multiplier above 1 makes them
   climb to it, however the products are rounded.
   */
  lemma {:induction false} BasesClimbToTheCap(s: Settings, attempt: nat)
    requires Accepted(s) && attempt >= 1
    ensures s.initialDelayMs <= Base(s, attempt) <= s.maxDelayMs
    ensures Base(s, attempt) <= Base(s, attempt + 1)
    ensures s.multiplier > 1.0 && Base(s, attempt) < s.maxDelayMs ==> Base(s, attempt) < Base(s, attempt + 1)
    ensures s.multiplier > 1.0 ==> Base(s, attempt) >= Min(s.maxDelayMs, s.initialDelayMs + attempt - 1)
  {
    hide Rounding, Double;
    if attempt > 1 { BasesClimbToTheCap(s, attempt - 1); }
    RoundedGrowth(s, Base(s, attempt));
    hide Scaled;
  }

  /** From the attempt numbered after the distance to the cap, every base is the cap. */
  lemma CapIsReached(s: Settings, attempt: nat)
    requires Accepted(s) && s.multiplier > 1.0 && attempt > s.maxDelayMs - s.initialDelayMs
    ensures Base(s, attempt) == s.maxDelayMs
  {
    hide Rounding, Double;
    BasesClimbToTheCap(s, attempt);
  }

  // ----- Jitter -----------------------------------------------------------------------------------

  lemma ScalingKeepsOrder(base: int, x: real, y: real)
    requires base >= 0 && x <= y
    ensures Scaled(base, x) <= Scaled(base, y)
  {}

  lemma HalvesGrow(s: Settings, r1: real, r2: real)
    requires Accepted(s) && r1 <= r2
    ensures Half(s, r1) <= Half(s, r2)
  {
    hide Rounding, Double, Rounded, Product;
    ProductsGrow(r1, r2, s.jitterRatio);
    RoundedKeepsOrder(s, Product(r1, s.jitterRatio), Product(r2, s.jitterRatio));
  }

  lemma FactorsGrow(s: Settings, r1: real, r2: real)
    requires Accepted(s) && r1 <= r2
    ensures Factor(s, r1) <= Factor(s, r2)
  {
    hide Rounding, Double, Rounded, Half;
    HalvesGrow(s, r1, r2);
    RoundedKeepsOrder(s, Half(s, r1) * 2.0, Half(s, r2) * 2.0);
    RoundedKeepsOrder(s, Least(s) + Spread(s, r1), Least(s) + Spread(s, r2));
  }

  lemma RoundedKeepsOrder(s: Settings, x: real, y: real)
    requires Accepted(s) && x <= y
    ensures Rounded(s, x) <= Rounded(s, y)
  {}

  lemma ProductsGrow(x: real, y: real, p: real)
    requires x <= y && p >= 0.0
    ensures Product(x, p) <= Product(y, p)
  {}

  /** The delay grows with the random draw. */
  lemma DelaysGrow(s: Settings, base: int, r1: real, r2: real)
    requires Accepted(s) && base >= 0 && r1 <= r2
    ensures JitteredDelay(s, base, r1) <= JitteredDelay(s, base, r2)
  {
    FactorsGrow(s, r1, r2);
    ScalingKeepsOrder(base, Factor(s, r1), Factor(s, r2));
    hide Factor, Scaled, Double;
  }

  /**
   Whatever the random number, the delay is a positive one within the cap, between those of the two
   ends of the spread; without jitter it is the base itself.
   */
  lemma DelaysStayInRange(s: Settings, base: int, random: real)
    requires Accepted(s) && 1 <= base <= s.maxDelayMs && 0.0 <= random < 1.0
    ensures 1 <= JitteredDelay(s, base, random) <= s.maxDelayMs
    ensures JitteredDelay(s, base, 0.0) <= JitteredDelay(s, base, random) <= JitteredDelay(s, base, 1.0)
    ensures JitteredDelay(s, base, 0.0) == Max(1, Min(s.maxDelayMs, Round(Rounded(s, Scaled(base, Least(s))))))
    ensures s.jitterRatio == 0.0 ==> JitteredDelay(s, base, random) == base
  {
    DelaysGrow(s, base, 0.0, random);
    DelaysGrow(s, base, random, 1.0);
    FactorAtZero(s, random);
    IntegersAreDoubles(base);
    ScalingByOne(base);
    hide Factor, Scaled, Double;
  }

  lemma FactorAtZero(s: Settings, random: real)
    requires Accepted(s)
    ensures Factor(s, 0.0) == Least(s)
    ensures s.jitterRatio == 0.0 ==> Factor(s, random) == 1.0
  {
    IntegersAreDoubles(0);
    IntegersAreDoubles(1);
  }

  lemma ScalingByOne(base: int)
    ensures Scaled(base, 1.0) == base as real
  {}

  /** Where nothing is rounded, the delay is within half a millisecond of the spread around its base. */
  lemma ExactDelaysStayInSpread(s: Settings, base: int, random: real)
    requires Accepted(s) && (forall x :: Rounded(s, x) == x) && 1 <= base <= s.maxDelayMs && 0.0 <= random < 1.0
    ensures
      var delay := JitteredDelay(s, base, random);
      && Scaled(base, 1.0 - s.jitterRatio) - 0.5 <= delay as real
      && (delay == 1 || delay as real <= Scaled(base, 1.0 + s.jitterRatio) + 0.5)
  {
    var r, factor := s.jitterRatio, Factor(s, random);
    assert factor == 1.0 - r + Product(random, r) * 2.0;
    ProductsGrow(0.0, random, r);
    ProductsGrow(random, 1.0, r);
    ScalingKeepsOrder(base, 1.0 - r, factor);
    ScalingKeepsOrder(base, factor, 1.0 + r);
    ScalingKeepsOrder(base, 1.0 - r, 1.0);
    ScalingByOne(base);
    hide Scaled, Factor, Double, Rounding, Round;
    Clamped(s.maxDelayMs, base, Scaled(base, factor), Scaled(base, 1.0 - r), Scaled(base, 1.0 + r));
  }

  lemma Clamped(cap: int, base: int, x: real, lo: real, hi: real)
    requires 1 <= base <= cap && lo <= x <= hi && lo <= base as real
    ensures
      var delay := Max(1, Min(cap, Round(x)));
      lo - 0.5 <= delay as real && (delay == 1 || delay as real <= hi + 0.5)
  {}

  /**
   Where nothing is rounded but to whole milliseconds, the delay is the whole number next to the base
   times a factor that runs evenly over the spread, unless that is below one or past the cap.
   */
  lemma ExactDelayIsNearest(s: Settings, base: int, random: real)
    requires s.maxDelayMs >= 1 && forall x :: Rounded(s, x) == x
    ensures
      var delay := JitteredDelay(s, base, random);
      var x := base as real * (1.0 - s.jitterRatio + random * s.jitterRatio * 2.0);
      && (1.0 <= x < s.maxDelayMs as real ==> delay as real - 0.5 <= x < delay as real + 0.5)
      && (x < 1.0 ==> delay == 1) && (x >= s.maxDelayMs as real ==> delay == s.maxDelayMs)
  {
    var factor := 1.0 - s.jitterRatio + random * s.jitterRatio * 2.0;
    ExactFactor(s, random);
    assert Scaled(base, factor) == base as real * factor;
    hide Factor, Scaled, Accepted, Round;
    Nearest(s.maxDelayMs, Scaled(base, factor));
  }

  lemma ExactFactor(s: Settings, random: real)
    requires forall x :: Rounded(s, x) == x
    ensures Factor(s, random) == 1.0 - s.jitterRatio + random * s.jitterRatio * 2.0
  {}

  lemma Nearest(cap: int, x: real)
    requires 1 <= cap
    ensures
      var delay := Max(1, Min(cap, Round(x)));
      && (1.0 <= x < cap as real ==> delay as real - 0.5 <= x < delay as real + 0.5)
      && (x < 1.0 ==> delay == 1) && (x >= cap as real ==> delay == cap)
  {}

  /** And the next base is the least whole number no smaller than the base times the multiplier, up to the cap. */
  lemma ExactBasesMultiply(s: Settings, base: int)
    requires Accepted(s) && (forall x :: Rounded(s, x) == x) && 1 <= base <= s.maxDelayMs
    ensures
      var next, x := NextBase(s, base), base as real * s.multiplier;
      if x >= s.maxDelayMs as real then next == s.maxDelayMs
      else x <= next as real < x + 1.0
  {
    ScalingKeepsOrder(base, 1.0, s.multiplier);
    ScalingByOne(base);
  }
}
