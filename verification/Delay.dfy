/** How long a failed attempt waits before it is retried (worker/internal/executor/executor.go, calcDelay). */
module Delay {
  import opened FloatingPoint
  import opened Wrappers

  // ---------- 64-bit arithmetic ----------

  const TWO_63: int := 0x8000_0000_0000_0000
  const TWO_64: int := 0x1_0000_0000_0000_0000

  /** Durations count nanoseconds. */
  const MILLISECOND: int := 1_000_000
  const SECOND: int := 1_000_000_000
  const FIVE_MINUTES: int := 300 * SECOND

  /** What an int64 holds of x. */
  function Wrap(x: int): (r: int)
    ensures -TWO_63 <= r < TWO_63 && (x - r) % TWO_64 == 0
    ensures -TWO_63 <= x < TWO_63 ==> r == x
  {
    (x + TWO_63) % TWO_64 - TWO_63
  }

  lemma InRange(x: int)
    requires -TWO_63 <= x < TWO_63
    ensures Wrap(x) == x
  {
  }

  function Pow2(n: nat): (p: int)
    ensures p >= 1
  {
    if n == 0 then 1 else 2 * Pow2(n - 1)
  }

  /** 1 << n on an int64. */
  function Shl(n: nat): int
  {
    if n >= 64 then 0 else Wrap(Pow2(n))
  }

  /** Go's division truncates toward zero. */
  function Quot(a: int, b: int): int
    requires b > 0
  {
    if a >= 0 then a / b else -((-a) / b)
  }

  function Trunc(x: real): int
  {
    if x >= 0.0 then x.Floor else -(-x).Floor
  }

  function Min(a: int, b: int): int
  {
    if a <= b then a else b
  }

  function MinReal(a: real, b: real): real
  {
    if a <= b then a else b
  }

  // ---------- Policies ----------

  datatype Strategy = Fixed | Linear | Exponential

  /** A row of retry_policies: the delays are 32-bit columns, the multiplier has five decimal digits. */
  datatype Policy = Policy(strategy: Strategy, initialMs: int, maxMs: int, multiplier: real)

  /** The policies the documentation speaks of, within the columns' range. */
  predicate Sane(p: Policy)
  {
    0 <= p.initialMs < 0x8000_0000 && 0 <= p.maxMs < 0x8000_0000 && 1.0 <= p.multiplier < 1000.0
  }

  function NoPolicyDelay(attempt: nat): int
    requires attempt >= 1
  {
    Min(Wrap(SECOND * Shl(attempt - 1)), FIVE_MINUTES)
  }

  function LinearDelay(p: Policy, attempt: nat): int
  {
    var d := Wrap(Wrap(p.initialMs * attempt) * MILLISECOND);
    if Quot(d, MILLISECOND) > p.maxMs then Wrap(p.maxMs * MILLISECOND) else d
  }

  /** initial * multiplier^(n-1), one rounded product after the other; the column's value is itself rounded when it is
      read into a float64. */
  function Grown(p: Policy, attempt: nat, round: Rounding): real
    requires attempt >= 1
  {
    if attempt == 1 then p.initialMs as real else round(Product(Grown(p, attempt - 1, round), round(p.multiplier)))
  }

  function ExponentialDelay(p: Policy, attempt: nat, round: Rounding): int
    requires attempt >= 1
  {
    var d := MinReal(Grown(p, attempt, round), p.maxMs as real);
    Wrap(Wrap(Trunc(d)) * MILLISECOND)
  }

  function DelayOf(policy: Option<Policy>, attempt: nat, round: Rounding): int
    requires attempt >= 1
  {
    match policy
    case None => NoPolicyDelay(attempt)
    case Some(rp) =>
      match rp.strategy
      case Fixed => Wrap(rp.initialMs * MILLISECOND)
      case Linear => LinearDelay(rp, attempt)
      case Exponential => ExponentialDelay(rp, attempt, round)
  }

  /** What is documented: doubling seconds up to five minutes, the initial delay, min(initial * n, max), or
      min(initial * multiplier^(n-1), max) cut to whole milliseconds, wherever 64 bits and the rounding allow it. */
  ghost predicate AsDocumented(policy: Option<Policy>, attempt: nat, round: Rounding, delay: int)
    requires attempt >= 1
  {
    match policy
    case None => attempt <= 34 ==> delay == Min(SECOND * Pow2(attempt - 1), FIVE_MINUTES)
    case Some(p) =>
      Sane(p) ==>
        && (p.strategy.Fixed? ==> delay == p.initialMs * MILLISECOND)
        && (p.strategy.Linear? && attempt < 0x8000_0000 && LinearFits(p, attempt) ==>
              delay == Min(p.initialMs * attempt, p.maxMs) * MILLISECOND)
        && (p.strategy.Exponential? && IsRounding(round) && Representable(p, attempt, round) ==>
              delay == Promised(p, attempt))
  }

  lemma DelayAsDocumented(policy: Option<Policy>, attempt: nat, round: Rounding)
    requires attempt >= 1
    ensures AsDocumented(policy, attempt, round, DelayOf(policy, attempt, round))
  {
    hide Wrap, Trunc, Shl, Grown, IsRounding, Representable, Promised, LinearDelay, ExponentialDelay, NoPolicyDelay,
      Quot, LinearFits, Pow2;
    match policy
    case None => NoPolicyExact(attempt);
    case Some(p) =>
      if Sane(p) && p.strategy.Fixed? {
        FixedExact(p, attempt, round);
      } else if Sane(p) && p.strategy.Linear? && attempt < 0x8000_0000 {
        LinearExact(p, attempt, round);
      } else if Sane(p) && p.strategy.Exponential? && IsRounding(round) && Representable(p, attempt, round) {
        ExponentialExact(p, attempt, round);
      }
  }

  /** calcDelay; `round` is what the processor does to a product. */
  method CalcDelay(policy: Option<Policy>, attempt: nat, round: Rounding) returns (delay: int)
    requires attempt >= 1
    ensures delay == DelayOf(policy, attempt, round) && AsDocumented(policy, attempt, round, delay)
  {
    DelayAsDocumented(policy, attempt, round);
    hide Wrap, Trunc, Shl, Grown, AsDocumented;
    if policy.None? {
      delay := Wrap(SECOND * Shl(attempt - 1));
      if delay > FIVE_MINUTES {
        delay := FIVE_MINUTES;
      }
      return;
    }
    var rp := policy.value;
    match rp.strategy
    case Fixed =>
      delay := Wrap(rp.initialMs * MILLISECOND);
    case Linear =>
      delay := Wrap(Wrap(rp.initialMs * attempt) * MILLISECOND);
      if Quot(delay, MILLISECOND) > rp.maxMs {
        delay := Wrap(rp.maxMs * MILLISECOND);
      }
    case Exponential =>
      var d := Grow(rp, attempt, round);
      if d > rp.maxMs as real {
        d := rp.maxMs as real;
      }
      delay := Wrap(Wrap(Trunc(d)) * MILLISECOND);
  }

  /** The loop of the exponential branch. */
  method Grow(p: Policy, attempt: nat, round: Rounding) returns (d: real)
    requires attempt >= 1
    ensures d == Grown(p, attempt, round)
  {
    d := p.initialMs as real;
    for i := 1 to attempt
      invariant d == Grown(p, i, round)
    {
      d := round(Product(d, round(p.multiplier)));
    }
  }

  // ---------- No policy: doubling seconds ----------

  lemma {:induction false} PowSplit(a: nat, b: nat)
    ensures Pow2(a + b) == Pow2(a) * Pow2(b)
  {
    if a > 0 {
      PowSplit(a - 1, b);
    }
  }

  lemma {:induction false} PowGrows(a: nat, b: nat)
    requires a <= b
    ensures Pow2(a) <= Pow2(b)
  {
    PowSplit(a, b - a);
    assert Pow2(a) * 1 <= Pow2(a) * Pow2(b - a);
  }

  lemma WrapUnique(x: int, r: int, q: int)
    requires x == r + q * TWO_64 && -TWO_63 <= r < TWO_63
    ensures Wrap(x) == r
  {
  }

  lemma WrapMultiple(q: int)
    ensures Wrap(q * TWO_64) == 0
  {
    WrapUnique(q * TWO_64, 0, q);
  }

  /** A wrapped factor does not change the wrapped product. */
  lemma WrapOfProduct(x: int, k: int)
    ensures Wrap(k * Wrap(x)) == Wrap(k * x)
  {
    var q := (x - Wrap(x)) / TWO_64;
    assert x == Wrap(x) + q * TWO_64;
    var p := k * Wrap(x);
    var t := (p - Wrap(p)) / TWO_64;
    assert p == Wrap(p) + t * TWO_64;
    assert k * x == p + (k * q) * TWO_64;
    WrapUnique(k * x, Wrap(p), t + k * q);
  }

  lemma PowValues()
    ensures Pow2(9) == 512 && Pow2(33) == 8589934592 && Pow2(55) == 0x80_0000_0000_0000 && Pow2(64) == TWO_64
  {
    assert Pow2(8) == 256;
    PowSplit(8, 1);
    PowSplit(8, 8);
    PowSplit(16, 16);
    PowSplit(32, 1);
    PowSplit(32, 32);
    PowSplit(16, 7);
    PowSplit(32, 23);
    assert Pow2(7) == 128;
  }

  lemma ShiftIsPower(n: nat)
    ensures Shl(n) == Wrap(Pow2(n))
  {
    if n >= 64 {
      PowValues();
      PowSplit(64, n - 64);
      WrapMultiple(Pow2(n - 64));
    }
  }

  /** The delay with no policy, without the shift: powers of two seconds, wrapped. */
  lemma NoPolicyWraps(attempt: nat)
    requires attempt >= 1
    ensures NoPolicyDelay(attempt) == Min(Wrap(SECOND * Pow2(attempt - 1)), FIVE_MINUTES)
  {
    ShiftIsPower(attempt - 1);
    WrapOfProduct(Pow2(attempt - 1), SECOND);
  }

  /** From the 56th attempt on, every bit has been shifted out. */
  lemma NoPolicyVanishes(attempt: nat)
    requires attempt >= 56
    ensures NoPolicyDelay(attempt) == 0
  {
    NoPolicyWraps(attempt);
    PowValues();
    PowSplit(55, attempt - 56);
    var k := Pow2(attempt - 56);
    assert SECOND * Pow2(attempt - 1) == (1953125 * k) * TWO_64;
    WrapMultiple(1953125 * k);
  }

  function Doubled(n: nat): int
  {
    Wrap(SECOND * Pow2(n))
  }

  /** A value and its double, brought back into range by `v`. */
  lemma NextDoubling(n: nat, u: int, v: int)
    requires Doubled(n) == u && -TWO_63 <= v < TWO_63 && (2 * u - v) % TWO_64 == 0
    ensures Doubled(n + 1) == v
  {
    WrapOfProduct(SECOND * Pow2(n), 2);
    assert Doubled(n + 1) == Wrap(2 * u);
    WrapUnique(2 * u, v, (2 * u - v) / TWO_64);
  }

  /** Past the 34th attempt these are the ones whose wrapped product is still above the cap. */
  const RECOVERS: set<nat> := {38, 42, 43, 46, 48, 51, 52, 54}

  predicate WrapsWell(n: nat)
  {
    if n + 1 in RECOVERS then Doubled(n) > FIVE_MINUTES else Doubled(n) <= 0
  }

  lemma DoubledAt33()
    ensures Doubled(33) == 8589934592000000000
  {
    PowValues();
  }

  lemma FirstDoublings()
    ensures forall n :: 34 <= n <= 44 ==> WrapsWell(n)
    ensures Doubled(44) == -6007801902912241664
  {
    hide Doubled;
    DoubledAt33();
    NextDoubling(33, 8589934592000000000, -1266874889709551616);
    NextDoubling(34, -1266874889709551616, -2533749779419103232);
    NextDoubling(35, -2533749779419103232, -5067499558838206464);
    NextDoubling(36, -5067499558838206464, 8311744956033138688);
    NextDoubling(37, 8311744956033138688, -1823254161643274240);
    NextDoubling(38, -1823254161643274240, -3646508323286548480);
    NextDoubling(39, -3646508323286548480, -7293016646573096960);
    NextDoubling(40, -7293016646573096960, 3860710780563357696);
    NextDoubling(41, 3860710780563357696, 7721421561126715392);
    NextDoubling(42, 7721421561126715392, -3003900951456120832);
    NextDoubling(43, -3003900951456120832, -6007801902912241664);
  }

  lemma LastDoublings()
    ensures forall n :: 45 <= n <= 54 ==> WrapsWell(n)
  {
    FirstDoublings();
    hide Doubled;
    NextDoubling(44, -6007801902912241664, 6431140267885068288);
    NextDoubling(45, 6431140267885068288, -5584463537939415040);
    NextDoubling(46, -5584463537939415040, 7277816997830721536);
    NextDoubling(47, 7277816997830721536, -3891110078048108544);
    NextDoubling(48, -3891110078048108544, -7782220156096217088);
    NextDoubling(49, -7782220156096217088, 2882303761517117440);
    NextDoubling(50, 2882303761517117440, 5764607523034234880);
    NextDoubling(51, 5764607523034234880, -6917529027641081856);
    NextDoubling(52, -6917529027641081856, 4611686018427387904);
    NextDoubling(53, 4611686018427387904, -9223372036854775808);
  }

  /** With no policy the delay is min(2^(n-1) s, 5 min) exactly for these attempts; for every other one the product has
      wrapped and the job is retried at once. */
  lemma NoPolicyExact(attempt: nat)
    requires attempt >= 1
    ensures NoPolicyDelay(attempt) == Min(SECOND * Pow2(attempt - 1), FIVE_MINUTES)
       <==> attempt <= 34 || attempt in RECOVERS
    ensures attempt > 34 && attempt !in RECOVERS ==> NoPolicyDelay(attempt) <= 0
    ensures NoPolicyDelay(attempt) <= FIVE_MINUTES
  {
    NoPolicyWraps(attempt);
    PowValues();
    hide NoPolicyDelay;
    if attempt <= 34 {
      PowGrows(attempt - 1, 33);
    } else {
      PowGrows(9, attempt - 1);
      if attempt <= 55 {
        FirstDoublings();
        LastDoublings();
        assert WrapsWell(attempt - 1);
      } else {
        NoPolicyVanishes(attempt);
      }
    }
  }

  /** In any case it is the cap, or the product up to a multiple of 2^64. */
  lemma NoPolicyModulo(attempt: nat)
    requires attempt >= 1
    ensures var delay := NoPolicyDelay(attempt);
      delay == FIVE_MINUTES || (SECOND * Pow2(attempt - 1) - delay) % TWO_64 == 0
  {
    NoPolicyWraps(attempt);
    hide NoPolicyDelay, Pow2;
  }

  /** Up to the 34th attempt the wait never shrinks; the 35th breaks it. */
  lemma NoPolicyGrows(a: nat, b: nat)
    requires 1 <= a <= b
    ensures b <= 34 ==> 0 < NoPolicyDelay(a) <= NoPolicyDelay(b)
    ensures NoPolicyDelay(35) < NoPolicyDelay(34)
  {
    hide NoPolicyDelay, Pow2;
    NoPolicyExact(34);
    NoPolicyExact(35);
    if b <= 34 {
      NoPolicyExact(a);
      NoPolicyExact(b);
      PowGrows(a - 1, b - 1);
    }
  }

  // ---------- Fixed ----------

  /** The fixed strategy waits for its initial delay, so it keeps to the cap only when that delay does. */
  lemma FixedExact(p: Policy, attempt: nat, round: Rounding)
    requires Sane(p) && p.strategy.Fixed? && attempt >= 1
    ensures DelayOf(Some(p), attempt, round) == p.initialMs * MILLISECOND
    ensures DelayOf(Some(p), attempt, round) <= p.maxMs * MILLISECOND <==> p.initialMs <= p.maxMs
  {
  }

  // ---------- Linear ----------

  /** The product in nanoseconds fits an int64. */
  predicate LinearFits(p: Policy, attempt: nat)
  {
    p.initialMs * attempt * MILLISECOND < TWO_63
  }

  lemma LinearProductGrows(x: int, a: int, b: int)
    requires 0 <= x && 0 <= a <= b
    ensures 0 <= x * a <= x * b
  {
    assert x * b == x * a + x * (b - a);
  }

  lemma LinearProduct(p: Policy, attempt: nat)
    requires Sane(p) && attempt < 0x8000_0000
    ensures 0 <= p.initialMs * attempt < TWO_63
    ensures Wrap(p.initialMs * attempt) == p.initialMs * attempt
  {
    hide Wrap;
    LinearProductGrows(p.initialMs, attempt, 0x8000_0000);
    InRange(p.initialMs * attempt);
  }

  /** The linear strategy waits min(initial * n, max) milliseconds exactly when the product fits, or when what it
      wraps to is the cap or a whole millisecond above it. In any case it waits the cap, or the product up to a
      multiple of 2^64. */
  lemma LinearExact(p: Policy, attempt: nat, round: Rounding)
    requires Sane(p) && p.strategy.Linear? && 1 <= attempt < 0x8000_0000
    ensures DelayOf(Some(p), attempt, round) == Min(p.initialMs * attempt, p.maxMs) * MILLISECOND <==>
      || LinearFits(p, attempt)
      || Wrap(p.initialMs * attempt * MILLISECOND) == p.maxMs * MILLISECOND
      || Wrap(p.initialMs * attempt * MILLISECOND) >= (p.maxMs + 1) * MILLISECOND
    ensures Quot(DelayOf(Some(p), attempt, round), MILLISECOND) <= p.maxMs
    ensures var delay := DelayOf(Some(p), attempt, round);
      delay == p.maxMs * MILLISECOND || (p.initialMs * attempt * MILLISECOND - delay) % TWO_64 == 0
  {
    LinearProduct(p, attempt);
    var product := p.initialMs * attempt;
    hide Power, Trunc;
    LinearCap(product, p.maxMs);
  }

  lemma LinearCap(product: int, max: int)
    requires 0 <= product < TWO_63 && 0 <= max < 0x8000_0000
    ensures var w := Wrap(product * MILLISECOND);
      var d := if Quot(w, MILLISECOND) > max then Wrap(max * MILLISECOND) else w;
      && (d == Min(product, max) * MILLISECOND <==>
          product * MILLISECOND < TWO_63 || w == max * MILLISECOND || w >= (max + 1) * MILLISECOND)
      && Quot(d, MILLISECOND) <= max
      && (d == max * MILLISECOND || (product * MILLISECOND - d) % TWO_64 == 0)
  {
  }

  /** While it fits, the linear wait is capped and never shrinks. */
  lemma LinearGrows(p: Policy, a: nat, b: nat, round: Rounding)
    requires Sane(p) && p.strategy.Linear? && 1 <= a <= b < 0x8000_0000 && LinearFits(p, b)
    ensures 0 <= DelayOf(Some(p), a, round) <= DelayOf(Some(p), b, round) <= p.maxMs * MILLISECOND
  {
    hide Wrap, LinearDelay, Quot;
    LinearProductGrows(p.initialMs, a, b);
    assert LinearFits(p, a);
    LinearExact(p, a, round);
    LinearExact(p, b, round);
  }

  /** A policy inside the columns' range whose 4612th attempt is retried at once. */
  lemma LinearWraps(round: Rounding)
    ensures var p := Policy(Linear, 2_000_000_000, 60_000, 2.0);
      && Sane(p) && DelayOf(Some(p), 4612, round) < 0 < Min(p.initialMs * 4612, p.maxMs)
  {
    var p := Policy(Linear, 2_000_000_000, 60_000, 2.0);
    assert p.initialMs * 4612 == 9_224_000_000_000;
    WrapUnique(9_224_000_000_000 * MILLISECOND, 9_224_000_000_000 * MILLISECOND - TWO_64, 1);
    assert LinearDelay(p, 4612) < 0;
  }

  // ---------- Exponential ----------

  lemma FloorGrows(x: real, y: real)
    requires x <= y
    ensures x.Floor <= y.Floor
  {
  }

  lemma CappedFloor(grown: real, max: int)
    requires grown >= 0.0 && 0 <= max < 0x8000_0000
    ensures var d := MinReal(grown, max as real);
      Wrap(Wrap(Trunc(d)) * MILLISECOND) == d.Floor * MILLISECOND && 0 <= d.Floor <= max
  {
    var d := MinReal(grown, max as real);
    FloorGrows(0.0, d);
    FloorGrows(d, max as real);
  }

  lemma ProductGrown(x: real, m: real)
    requires 0.0 <= x && m >= 1.0
    ensures x <= Product(x, m)
  {
    ProductGrows(x, 1.0, m);
  }

  lemma FactorAtLeastOne(p: Policy, round: Rounding)
    requires Sane(p) && IsRounding(round)
    ensures round(p.multiplier) >= 1.0
  {
    assert KeepsWhole(round, 1) && Nearer(round, 1.0, p.multiplier);
  }

  /** Every rounded product is representable and not negative, whatever the rounding. */
  lemma {:induction false} GrownRepresentable(p: Policy, n: nat, round: Rounding)
    requires Sane(p) && IsRounding(round) && n >= 1
    ensures round(Grown(p, n, round)) == Grown(p, n, round) >= 0.0
  {
    hide Product;
    if n == 1 {
      assert KeepsWhole(round, p.initialMs);
    } else {
      GrownRepresentable(p, n - 1, round);
      GrownOnce(p, n - 1, round);
    }
  }

  /** One more product never shrinks the delay. */
  lemma GrownOnce(p: Policy, n: nat, round: Rounding)
    requires Sane(p) && IsRounding(round) && n >= 1
    requires round(Grown(p, n, round)) == Grown(p, n, round) >= 0.0
    ensures Grown(p, n, round) <= Grown(p, n + 1, round)
  {
    hide Product;
    var before, m := Grown(p, n, round), round(p.multiplier);
    FactorAtLeastOne(p, round);
    ProductGrown(before, m);
    assert Nearer(round, before, Product(before, m));
  }

  /** No grown delay is smaller than an earlier one. */
  lemma {:induction false} GrownGrows(p: Policy, a: nat, b: nat, round: Rounding)
    requires Sane(p) && IsRounding(round) && 1 <= a <= b
    ensures 0.0 <= Grown(p, a, round) <= Grown(p, b, round)
    decreases b
  {
    hide Product, IsRounding, Grown;
    GrownRepresentable(p, a, round);
    if a < b {
      GrownGrows(p, a, b - 1, round);
      GrownRepresentable(p, b - 1, round);
      GrownOnce(p, b - 1, round);
    }
  }

  /** initial * multiplier^n. */
  function Ideal(p: Policy, n: nat): real
  {
    Product(p.initialMs as real, Power(p.multiplier, n))
  }

  /** What the documentation promises: min(initial * multiplier^(n-1), max) cut to whole milliseconds. */
  function Promised(p: Policy, attempt: nat): int
    requires attempt >= 1
  {
    MinReal(Ideal(p, attempt - 1), p.maxMs as real).Floor * MILLISECOND
  }

  lemma IdealOnce(p: Policy, n: nat)
    ensures Ideal(p, 0) == p.initialMs as real && Ideal(p, n + 1) == Product(Ideal(p, n), p.multiplier)
  {
    assert Product(p.initialMs as real, 1.0) == p.initialMs as real;
    hide Product;
    ProductOrder(p.initialMs as real, Power(p.multiplier, n), p.multiplier, 1.0);
  }

  lemma {:induction false} IdealGrows(p: Policy, n: nat)
    requires Sane(p)
    ensures 0.0 <= Ideal(p, n) <= Ideal(p, n + 1)
  {
    hide Product, Ideal;
    IdealOnce(p, n);
    if n > 0 {
      IdealGrows(p, n - 1);
    }
    ProductGrown(Ideal(p, n), p.multiplier);
  }

  lemma DelayOfGrown(p: Policy, attempt: nat, round: Rounding)
    requires Sane(p) && p.strategy.Exponential? && attempt >= 1 && Grown(p, attempt, round) >= 0.0
    ensures DelayOf(Some(p), attempt, round) ==
      MinReal(Grown(p, attempt, round), p.maxMs as real).Floor * MILLISECOND
    ensures 0 <= DelayOf(Some(p), attempt, round) <= p.maxMs * MILLISECOND
  {
    hide Grown, Wrap, Trunc;
    CappedFloor(Grown(p, attempt, round), p.maxMs);
  }

  /** Under any rounding the exponential strategy waits for the smaller of its grown delay and the cap, cut to a whole
      number of milliseconds, and for the cap itself once that is reached. */
  lemma ExponentialCapped(p: Policy, attempt: nat, round: Rounding)
    requires Sane(p) && p.strategy.Exponential? && IsRounding(round) && attempt >= 1
    ensures DelayOf(Some(p), attempt, round) ==
      MinReal(Grown(p, attempt, round), p.maxMs as real).Floor * MILLISECOND
    ensures 0 <= DelayOf(Some(p), attempt, round) <= p.maxMs * MILLISECOND
    ensures Grown(p, attempt, round) >= p.maxMs as real ==> DelayOf(Some(p), attempt, round) == p.maxMs * MILLISECOND
  {
    GrownRepresentable(p, attempt, round);
    hide Grown, ExponentialDelay, IsRounding;
    DelayOfGrown(p, attempt, round);
  }

  /** Under any rounding the wait never shrinks from one attempt to the next. */
  lemma ExponentialGrows(p: Policy, a: nat, b: nat, round: Rounding)
    requires Sane(p) && p.strategy.Exponential? && IsRounding(round) && 1 <= a <= b
    ensures DelayOf(Some(p), a, round) <= DelayOf(Some(p), b, round)
  {
    hide Grown, ExponentialDelay, IsRounding;
    ExponentialCapped(p, a, round);
    ExponentialCapped(p, b, round);
    GrownGrows(p, a, b, round);
    FloorGrows(MinReal(Grown(p, a, round), p.maxMs as real), MinReal(Grown(p, b, round), p.maxMs as real));
  }

  // ---------- Exponential: policies whose products are representable ----------

  /** The multiplier, and every exact product below the cap. */
  ghost predicate Representable(p: Policy, attempt: nat, round: Rounding)
  {
    && round(p.multiplier) == p.multiplier
    && forall k :: 0 < k < attempt && Ideal(p, k) < p.maxMs as real ==> round(Ideal(p, k)) == Ideal(p, k)
  }

  /** Then the loop computes initial * multiplier^(n-1) until it passes the cap. */
  lemma {:induction false} GrownExact(p: Policy, attempt: nat, round: Rounding)
    requires Sane(p) && IsRounding(round) && attempt >= 1 && Representable(p, attempt, round)
    ensures var cap := p.maxMs as real;
      || Grown(p, attempt, round) == Ideal(p, attempt - 1)
      || (Grown(p, attempt, round) >= cap && Ideal(p, attempt - 1) >= cap)
  {
    IdealOnce(p, 0);
    hide Product, Ideal;
    if attempt > 1 {
      GrownExact(p, attempt - 1, round);
      IdealOnce(p, attempt - 2);
      IdealGrows(p, attempt - 2);
      GrownRepresentable(p, attempt - 1, round);
      GrownOnce(p, attempt - 1, round);
      assert KeepsWhole(round, p.maxMs) && Nearer(round, p.maxMs as real, Ideal(p, attempt - 1));
    }
  }

  /** And the delay is the promised one. */
  lemma ExponentialExact(p: Policy, attempt: nat, round: Rounding)
    requires Sane(p) && p.strategy.Exponential? && IsRounding(round) && attempt >= 1 && Representable(p, attempt, round)
    ensures DelayOf(Some(p), attempt, round) == Promised(p, attempt)
  {
    GrownExact(p, attempt, round);
    hide Grown, IsRounding, ExponentialDelay, Ideal;
    ExponentialCapped(p, attempt, round);
  }

  lemma {:induction false} WholePowers(p: Policy, n: nat) returns (i: int)
    requires Sane(p) && p.multiplier == p.multiplier.Floor as real
    ensures Ideal(p, n) == i as real
  {
    IdealOnce(p, 0);
    if n == 0 {
      i := p.initialMs;
    } else {
      var before := WholePowers(p, n - 1);
      IdealOnce(p, n - 1);
      hide Ideal;
      i := before * p.multiplier.Floor;
    }
  }

  /** Whole multipliers, the default 2.0 among them, get what is promised at every attempt. */
  lemma WholeMultiplierExact(p: Policy, attempt: nat, round: Rounding)
    requires Sane(p) && p.strategy.Exponential? && IsRounding(round) && attempt >= 1
    requires p.multiplier == p.multiplier.Floor as real
    ensures DelayOf(Some(p), attempt, round) == Promised(p, attempt)
  {
    hide ExponentialDelay, Promised, Ideal, Grown;
    assert KeepsWhole(round, p.multiplier.Floor);
    forall k | 0 < k < attempt && Ideal(p, k) < p.maxMs as real
      ensures round(Ideal(p, k)) == Ideal(p, k)
    {
      IdealGrows(p, k);
      var i := WholePowers(p, k);
      assert KeepsWhole(round, i);
    }
    ExponentialExact(p, attempt, round);
  }

  // ---------- Exponential: any policy ----------

  /** What the n-th attempt grows to when every float64 operation is off by the factor f. */
  function Extreme(p: Policy, attempt: nat, f: real): real
    requires attempt >= 1
  {
    Product(Ideal(p, attempt - 1), Power(f, 2 * (attempt - 1)))
  }

  lemma TwoMore(i: real, w: real, m: real, f: real)
    ensures Product(Product(Product(i, w), Product(m, f)), f) == Product(Product(i, m), Product(Product(w, f), f))
  {
    assert ((i * w) * (m * f)) * f == (i * m) * ((w * f) * f);
  }

  lemma {:induction false} ExtremeIsGrown(p: Policy, attempt: nat, f: real)
    requires attempt >= 1
    ensures Grown(p, attempt, Scaling(f)) == Extreme(p, attempt, f)
  {
    IdealOnce(p, 0);
    assert Product(p.initialMs as real, 1.0) == p.initialMs as real;
    hide Product, Ideal;
    if attempt > 1 {
      ExtremeIsGrown(p, attempt - 1, f);
      IdealOnce(p, attempt - 2);
      var k := 2 * (attempt - 2);
      assert Power(f, k + 2) == Product(Product(Power(f, k), f), f);
      TwoMore(Ideal(p, attempt - 2), Power(f, k), p.multiplier, f);
    }
  }

  lemma {:induction false} GrownOrdered(p: Policy, attempt: nat, round: Rounding, u: real)
    requires Sane(p) && attempt >= 1 && 0.0 <= u < 1.0 && Within(round, u)
    ensures 0.0 <= Grown(p, attempt, Scaling(1.0 - u)) <= Grown(p, attempt, round)
    ensures Grown(p, attempt, round) <= Grown(p, attempt, Scaling(1.0 + u))
  {
    hide Product;
    if attempt > 1 {
      GrownOrdered(p, attempt - 1, round, u);
      OneMore(Grown(p, attempt - 1, Scaling(1.0 - u)), Grown(p, attempt - 1, round),
              Grown(p, attempt - 1, Scaling(1.0 + u)), p.multiplier, round, u);
    }
  }

  lemma OneMore(a: real, b: real, c: real, m: real, round: Rounding, u: real)
    requires 0.0 <= a <= b <= c && 0.0 <= m && 0.0 <= u < 1.0 && Within(round, u)
    ensures 0.0 <= Product(Product(a, Product(m, 1.0 - u)), 1.0 - u) <= round(Product(b, round(m)))
    ensures round(Product(b, round(m))) <= Product(Product(c, Product(m, 1.0 + u)), 1.0 + u)
  {
    hide Product;
    assert Close(round, u, m);
    ProductsGrow(0.0, m, 1.0 - u, 1.0 - u);
    ProductsGrow(m, m, 1.0 - u, 1.0 - u);
    var low, mid, high := Product(a, Product(m, 1.0 - u)), Product(b, round(m)), Product(c, Product(m, 1.0 + u));
    ProductsGrow(a, b, Product(m, 1.0 - u), round(m));
    ProductsGrow(b, c, round(m), Product(m, 1.0 + u));
    assert Close(round, u, mid);
    ProductsGrow(low, mid, 1.0 - u, 1.0 - u);
    ProductsGrow(mid, high, 1.0 + u, 1.0 + u);
  }

  /** With a relative error of at most u in each operation, the loop ends within a factor of (1-u)^(2(n-1)) and
      (1+u)^(2(n-1)) of initial * multiplier^(n-1). */
  lemma GrownBetween(p: Policy, attempt: nat, round: Rounding, u: real)
    requires Sane(p) && attempt >= 1 && 0.0 <= u < 1.0 && Within(round, u)
    ensures 0.0 <= Extreme(p, attempt, 1.0 - u) <= Grown(p, attempt, round) <= Extreme(p, attempt, 1.0 + u)
  {
    hide Grown, Extreme;
    GrownOrdered(p, attempt, round, u);
    ExtremeIsGrown(p, attempt, 1.0 - u);
    ExtremeIsGrown(p, attempt, 1.0 + u);
  }

  function Capped(p: Policy, grown: real): real
  {
    MinReal(grown, p.maxMs as real)
  }

  /** No whole millisecond up to the cap lies above the lower extreme and not above the upper one. */
  predicate Settles(p: Policy, attempt: nat, u: real)
    requires attempt >= 1
  {
    Capped(p, Extreme(p, attempt, 1.0 - u)).Floor == Capped(p, Extreme(p, attempt, 1.0 + u)).Floor
  }

  lemma DelayBetween(p: Policy, attempt: nat, round: Rounding, u: real)
    requires Sane(p) && p.strategy.Exponential? && attempt >= 1 && 0.0 <= u < 1.0 && Within(round, u)
    ensures Capped(p, Extreme(p, attempt, 1.0 - u)).Floor * MILLISECOND <= DelayOf(Some(p), attempt, round)
    ensures DelayOf(Some(p), attempt, round) <= Capped(p, Extreme(p, attempt, 1.0 + u)).Floor * MILLISECOND
  {
    GrownBetween(p, attempt, round, u);
    hide Grown, Extreme, ExponentialDelay, Within;
    DelayOfGrown(p, attempt, round);
    FloorGrows(Capped(p, Extreme(p, attempt, 1.0 - u)), Capped(p, Grown(p, attempt, round)));
    FloorGrows(Capped(p, Grown(p, attempt, round)), Capped(p, Extreme(p, attempt, 1.0 + u)));
  }

  lemma PromisedBetween(p: Policy, attempt: nat, u: real)
    requires Sane(p) && attempt >= 1 && 0.0 <= u < 1.0
    ensures Extreme(p, attempt, 1.0 - u) <= Ideal(p, attempt - 1) <= Extreme(p, attempt, 1.0 + u)
    ensures Capped(p, Extreme(p, attempt, 1.0 - u)).Floor * MILLISECOND <= Promised(p, attempt)
    ensures Promised(p, attempt) <= Capped(p, Extreme(p, attempt, 1.0 + u)).Floor * MILLISECOND
  {
    var ideal, k := Ideal(p, attempt - 1), 2 * (attempt - 1);
    IdealGrows(p, attempt - 1);
    PowerAround(u, k);
    assert Product(ideal, 1.0) == ideal;
    ProductGrows(ideal, Power(1.0 - u, k), 1.0);
    ProductGrows(ideal, 1.0, Power(1.0 + u, k));
    hide Ideal, Product, Power;
    FloorGrows(Capped(p, Extreme(p, attempt, 1.0 - u)), Capped(p, ideal));
    FloorGrows(Capped(p, ideal), Capped(p, Extreme(p, attempt, 1.0 + u)));
  }

  /** Whatever errors of at most u the processor makes, the wait is the promised one, if and only if the policy settles
      the attempt. */
  lemma ExponentialExactIff(p: Policy, attempt: nat, u: real)
    requires Sane(p) && p.strategy.Exponential? && attempt >= 1 && 0.0 <= u < 1.0
    ensures (forall round | Within(round, u) :: DelayOf(Some(p), attempt, round) == Promised(p, attempt))
       <==> Settles(p, attempt, u)
  {
    hide ExponentialDelay, Promised, Extreme, Within, Scaling;
    if Settles(p, attempt, u) {
      PromisedBetween(p, attempt, u);
      forall round | Within(round, u)
        ensures ExponentialDelay(p, attempt, round) == Promised(p, attempt)
      {
        DelayBetween(p, attempt, round, u);
      }
    } else {
      ExtremesAreWithin(u);
      ExtremeDelay(p, attempt, u, 1.0 - u);
      ExtremeDelay(p, attempt, u, 1.0 + u);
    }
  }

  lemma ExtremeDelay(p: Policy, attempt: nat, u: real, f: real)
    requires Sane(p) && p.strategy.Exponential? && attempt >= 1 && 0.0 <= u < 1.0 && (f == 1.0 - u || f == 1.0 + u)
    ensures ExponentialDelay(p, attempt, Scaling(f)) == Capped(p, Extreme(p, attempt, f)).Floor * MILLISECOND
  {
    hide Extreme, Grown, ExponentialDelay, Scaling;
    ExtremesAreWithin(u);
    GrownBetween(p, attempt, Scaling(f), u);
    ExtremeIsGrown(p, attempt, f);
    DelayOfGrown(p, attempt, Scaling(f));
  }

  /** It misses by at most a millisecond when the extremes below the cap are less than one apart. */
  lemma ExponentialNear(p: Policy, attempt: nat, round: Rounding, u: real)
    requires Sane(p) && p.strategy.Exponential? && attempt >= 1 && 0.0 <= u < 1.0 && Within(round, u)
    requires Capped(p, Extreme(p, attempt, 1.0 + u)) - Capped(p, Extreme(p, attempt, 1.0 - u)) < 1.0
    ensures Promised(p, attempt) - MILLISECOND <= DelayOf(Some(p), attempt, round)
    ensures DelayOf(Some(p), attempt, round) <= Promised(p, attempt) + MILLISECOND
  {
    hide ExponentialDelay, Promised, Extreme, Within;
    DelayBetween(p, attempt, round, u);
    PromisedBetween(p, attempt, u);
  }

  lemma SmallShare(x: real, e: real)
    requires 0.0 <= x && 0.0 <= e <= 1.0 / 9_000_000_000.0
    ensures x - x / 9_000_000_000.0 <= Product(x, 1.0 - e)
    ensures Product(x, 1.0 + 2.0 * e) <= x + x / 4_500_000_000.0
  {
    assert x * e <= x * (1.0 / 9_000_000_000.0);
  }

  lemma ExtremesMeet(p: Policy, attempt: nat)
    requires Sane(p) && 1 <= attempt <= 500_000
    ensures Capped(p, Extreme(p, attempt, 1.0 + HALF_ULP)) - Capped(p, Extreme(p, attempt, 1.0 - HALF_ULP)) < 1.0
  {
    var x, k := Ideal(p, attempt - 1), 2 * (attempt - 1);
    var e := k as real * HALF_ULP;
    IdealGrows(p, attempt - 1);
    hide Ideal, Product, Power;
    PowerNearOne(HALF_ULP, k);
    ProductGrows(x, 1.0 - e, Power(1.0 - HALF_ULP, k));
    ProductGrows(x, Power(1.0 + HALF_ULP, k), 1.0 + 2.0 * e);
    SmallShare(x, e);
  }

  /** Which in binary64 is so up to the 500000th attempt of every policy. */
  lemma Binary64Near(p: Policy, attempt: nat)
    requires Sane(p) && p.strategy.Exponential? && 1 <= attempt <= 500_000
    ensures Promised(p, attempt) - MILLISECOND <= DelayOf(Some(p), attempt, Binary64)
    ensures DelayOf(Some(p), attempt, Binary64) <= Promised(p, attempt) + MILLISECOND
  {
    hide Within, ExponentialDelay, Promised, Binary64;
    Binary64IsRounding();
    ExtremesMeet(p, attempt);
    ExponentialNear(p, attempt, Binary64, HALF_ULP);
  }

  lemma SecondAttempt(p: Policy, round: Rounding)
    requires Sane(p)
    ensures Grown(p, 2, round) == round(Product(p.initialMs as real, round(p.multiplier)))
    ensures Ideal(p, 1) == Product(p.initialMs as real, p.multiplier)
  {
    IdealOnce(p, 0);
    assert Grown(p, 1, round) == p.initialMs as real;
  }

  /** A column's 1.15 is stored a little below 1.15, and 100 ms times that ends below the 115 ms promised. */
  lemma StoredMultiplierFallsShort()
    ensures var p := Policy(Exponential, 100, 60_000, 1.15);
      && DelayOf(Some(p), 2, Binary64) == 114 * MILLISECOND
      && Promised(p, 2) == 115 * MILLISECOND
  {
    var p := Policy(Exponential, 100, 60_000, 1.15);
    SecondAttempt(p, Binary64);
    hide Grown, Binary64, Ideal, ExponentialDelay;
    SignificandRounds(1.15, 5179139571476070, 0.4);
    var x := 5179139571476070.0 / TWO_52 * 100.0 / 64.0;
    SignificandRounds(x, 8092405580431359, 0.375);
    Binary64Times16(x);
    Binary64OfDouble(16.0 * x, 32.0 * x);
    Binary64OfDouble(32.0 * x, 64.0 * x);
    assert 64.0 * x == Product(100.0, Binary64(1.15));
    DelayOfGrown(p, 2, Binary64);
  }

  /** Of the stored number itself, 20 ms times it is short of 23 ms by too little for a float64 to hold. */
  lemma RoundedProductOvershoots()
    ensures var p := Policy(Exponential, 20, 60_000, 5179139571476070.0 / TWO_52);
      && DelayOf(Some(p), 2, Binary64) == 23 * MILLISECOND
      && Promised(p, 2) == 22 * MILLISECOND
  {
    var p := Policy(Exponential, 20, 60_000, 5179139571476070.0 / TWO_52);
    SecondAttempt(p, Binary64);
    hide Grown, Binary64, Ideal, ExponentialDelay;
    SignificandRounds(p.multiplier, 5179139571476070, 0.0);
    var x := p.multiplier * 20.0 / 16.0;
    SignificandRounds(x, 6473924464345087, 0.5);
    Binary64Times16(x);
    assert 16.0 * x == Product(20.0, p.multiplier);
    DelayOfGrown(p, 2, Binary64);
  }
}
