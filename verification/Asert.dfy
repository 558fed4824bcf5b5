/**
 Integer ASERT difficulty: the Go form (int64 arithmetic, early exits at 256
 half-lives) against the unbounded reference formula (aserti3-2d cubic, section
 "Target computation" of the Bitcoin Cash 2020-11-15 ASERT specification).
 */
module Asert {
  import opened Arithmetic
  import opened Wrappers

  const TWO_63: int := 0x8000_0000_0000_0000
  const TWO_64: int := 0x1_0000_0000_0000_0000
  const TWO_256: int := 0x1_0000000000000000_0000000000000000_0000000000000000_0000000000000000
  const RADIX: int := 65536

  type Int64 = n: int | -TWO_63 <= n < TWO_63

  datatype Block = Block(height: Int64, timestamp: Int64)

  /** A nil big integer is None. */
  datatype Config = Config(
    targetSeconds: Int64,
    halfLife: Int64,
    anchorHeight: Int64,
    anchorTime: Int64,
    anchorTarget: Option<int>,
    minTarget: Option<int>,
    maxTarget: int)

  datatype AsertError = EmptyChain | StaleTimestamp | InvalidConfiguration

  // -------------------------------------------------------------------------
  // Machine arithmetic
  // -------------------------------------------------------------------------

  /** Go's int64 result of an exact value: two's complement wrap-around. */
  function Wrap(n: int): Int64 {
    var m := n % TWO_64;
    if m < TWO_63 then m else m - TWO_64
  }

  predicate Fits(n: int) {
    -TWO_63 <= n < TWO_63
  }

  function Abs(n: int): nat {
    if n < 0 then -n else n
  }

  /** Go's quotient truncates toward zero and its remainder has the dividend's sign. */
  function TruncDiv(n: int, d: int): int
    requires d != 0
  {
    var q := Abs(n) / Abs(d);
    if (n < 0) == (d < 0) then q else -q
  }

  function TruncMod(n: int, d: int): int
    requires d != 0
  {
    n - TruncDiv(n, d) * d
  }

  method FloorDiv(n: Int64, d: Int64) returns (q: Int64)
    requires d > 0
    ensures q == n / d
  {
    TruncRounds(n, d);
    q := TruncDiv(n, d);
    var r := TruncMod(n, d);
    if r != 0 && ((r < 0) != (d < 0)) {
      q := q - 1;
    }
  }

  /** Flooring below zero: the truncated quotient, one lower on a remainder. */
  lemma FloorOfNegative(a: int, d: int)
    requires a >= 0 && d > 0
    ensures (-a) / d == if a % d == 0 then -(a / d) else -(a / d) - 1
  {
    var q, r := a / d, a % d;
    var p := q * d;
    assert a == p + r;
    assert (-q) * d == -p;
    assert (-q - 1) * d == -p - d;
    if r == 0 {
      QuotientUnique(-a, d, -q);
    } else {
      QuotientUnique(-a, d, -q - 1);
    }
  }

  lemma NegateProduct(q: int, d: int)
    ensures (-q) * d == -(q * d)
  {
  }

  lemma TruncRounds(n: Int64, d: Int64)
    requires d > 0
    ensures Fits(TruncDiv(n, d)) && Fits(n / d)
    ensures n / d == TruncDiv(n, d) - (if TruncMod(n, d) < 0 then 1 else 0)
    ensures TruncMod(n, d) > 0 ==> n >= 0
  {
    var a: int := Abs(n);
    var q, r := a / d, a % d;
    QuotientBound(a, d);
    assert a == q * d + r;
    if n < 0 {
      FloorOfNegative(a, d);
      NegateProduct(q, d);
      assert TruncDiv(n, d) == -q;
      assert TruncMod(n, d) == -r;
    } else {
      assert TruncDiv(n, d) == q;
      assert TruncMod(n, d) == r;
    }
  }

  /** x shifted left by s, right (flooring) when s is negative. */
  function ShiftBy(x: nat, s: int): nat {
    if s < 0 then
      QuotientBound(x, Pow2(-s));
      x / Pow2(-s)
    else
      MulMonotone(0, x, Pow2(s));
      x * Pow2(s)
  }

  // -------------------------------------------------------------------------
  // The reference formula
  // -------------------------------------------------------------------------

  function Cubic(f: int, f2: int, f3: int): int {
    195766423245049 * f + 971821376 * f2 + 5127 * f3 + 0x8000_0000_0000
  }

  function Square(f: nat): nat {
    Product(f, f)
  }

  function Cube(f: nat): nat {
    Product(Square(f), f)
  }

  /** 2 to the fraction, in 1/65536ths: the rounded cubic of the specification. */
  function Factor(fraction: nat): int {
    RADIX + Cubic(fraction, Square(fraction), Cube(fraction)) / 0x1_0000_0000_0000
  }

  /** The target before clamping, from the exponent in 1/65536 half-lives. */
  function TargetAt(anchorTarget: int, exponent: int): nat
    requires anchorTarget >= 0
  {
    FactorBounds(exponent % RADIX);
    ShiftBy(anchorTarget * Factor(exponent % RADIX), exponent / RADIX - 16)
  }

  function Clamp(target: int, min: int, max: int): int {
    var raised := if target < min then min else target;
    if raised > max then max else raised
  }

  function ScheduleError(c: Config, height: int, timestamp: int): int {
    (timestamp - c.anchorTime) - c.targetSeconds * (height - c.anchorHeight)
  }

  function Exponent(scheduleError: int, halfLife: int): int
    requires halfLife > 0
  {
    scheduleError * RADIX / halfLife
  }

  /** calculate_target of the independent verifier, on unbounded integers. */
  function ReferenceTarget(c: Config, height: int, timestamp: int): int
    requires c.halfLife > 0 && c.anchorTarget.Some? && c.anchorTarget.value > 0 && c.minTarget.Some?
  {
    var exponent := Exponent(ScheduleError(c, height, timestamp), c.halfLife);
    Clamp(TargetAt(c.anchorTarget.value, exponent), c.minTarget.value, c.maxTarget)
  }

  // -------------------------------------------------------------------------
  // The Go method
  // -------------------------------------------------------------------------

  method ClampTarget(target: int, minTarget: Option<int>, maxTarget: int) returns (r: int)
    ensures minTarget.Some? && 1 <= minTarget.value <= maxTarget ==> r == Clamp(target, minTarget.value, maxTarget)
    ensures minTarget.None? ==> r == if target <= 0 then 1 else if target > maxTarget then maxTarget else target
  {
    if target <= 0 || (minTarget.Some? && target < minTarget.value) {
      if minTarget.Some? {
        return minTarget.value;
      }
      return 1;
    }
    if target > maxTarget {
      return maxTarget;
    }
    return target;
  }

  /**
   The schedule error fits, and so do the bounds of the early exits; between them
   the scaled error fits too. Height and time differences and their product may
   wrap: wrap-around is undone by the subtractions that follow.
   */
  predicate NoOverflow(c: Config, parent: Block, timestamp: Int64) {
    var e := ScheduleError(c, parent.height + 1, timestamp);
    Fits(e) && Fits(256 * c.halfLife) && (Abs(e) < 256 * c.halfLife ==> Fits(e * RADIX))
  }

  predicate ValidLimits(c: Config) {
    && c.minTarget.Some? && 1 <= c.minTarget.value <= c.maxTarget < TWO_256
    && c.anchorTarget.Some? && 1 <= c.anchorTarget.value < TWO_256
  }

  lemma WrapExact(n: int)
    ensures Wrap(n) == n <==> Fits(n)
  {
  }

  lemma WrapOffset(n: int) returns (k: int)
    ensures Wrap(n) == n + k * TWO_64
  {
    k := if n % TWO_64 < TWO_63 then -(n / TWO_64) else -(n / TWO_64) - 1;
  }

  lemma WrapShift(n: int, k: int)
    ensures Wrap(n + k * TWO_64) == Wrap(n)
  {
  }

  /** Wrapping the operands first changes no difference. */
  lemma WrapDifference(a: int, b: int)
    ensures Wrap(Wrap(a) - Wrap(b)) == Wrap(a - b)
  {
    hide Wrap;
    var k := WrapOffset(a);
    var l := WrapOffset(b);
    assert Wrap(a) - Wrap(b) == a - b + (k - l) * TWO_64;
    WrapShift(a - b, k - l);
  }

  lemma Distribute(t: int, h: int, k: int)
    ensures t * (h + k * TWO_64) == t * h + (t * k) * TWO_64
  {
    var p := k * TWO_64;
    assert t * (h + p) == t * h + t * p;
    assert t * p == (t * k) * TWO_64;
  }

  /** Nor a product. */
  lemma WrapProduct(t: int, h: int)
    ensures Wrap(t * Wrap(h)) == Wrap(t * h)
  {
    hide Wrap;
    var k := WrapOffset(h);
    Distribute(t, h, k);
    WrapShift(t * h, t * k);
  }

  /** The int64 steps give the wrapped schedule error, hence the exact one if and only if it fits. */
  method ScheduleErrorInt64(c: Config, parent: Block, candidateTimestamp: Int64) returns (e: Int64)
    ensures e == Wrap(ScheduleError(c, parent.height + 1, candidateTimestamp))
    ensures e == ScheduleError(c, parent.height + 1, candidateTimestamp)
            <==> Fits(ScheduleError(c, parent.height + 1, candidateTimestamp))
  {
    hide Wrap, Fits;
    var candidateHeight := Wrap(parent.height + 1);
    var heightDelta := Wrap(candidateHeight - c.anchorHeight);
    var timeDelta := Wrap(candidateTimestamp - c.anchorTime);
    e := Wrap(timeDelta - Wrap(c.targetSeconds * heightDelta));
    ghost var delta := parent.height + 1 - c.anchorHeight;
    Int64Wraps(c.anchorHeight);
    WrapDifference(parent.height + 1, c.anchorHeight);
    WrapProduct(c.targetSeconds, delta);
    WrapDifference(candidateTimestamp - c.anchorTime, c.targetSeconds * delta);
    WrapExact(ScheduleError(c, parent.height + 1, candidateTimestamp));
  }

  lemma Int64Wraps(n: Int64)
    ensures Wrap(n) == n
  {
  }

  /** The cubic on unbounded accumulators, updated in place. */
  method CubicFactor(frac: Int64) returns (factor: int)
    requires 0 <= frac < RADIX
    ensures factor == Factor(frac)
  {
    var f: int := frac;
    var f2: int := f * f;
    var f3: int := f2 * f;
    var poly: int := 195766423245049 * f;
    poly := poly + 971821376 * f2;
    poly := poly + 5127 * f3;
    poly := poly + 0x8000_0000_0000;
    poly := poly / 0x1_0000_0000_0000;
    factor := 65536 + poly;
    ProductIs(f, f);
    ProductIs(f2, f);
  }

  /** exponent, shifts and fraction in int64: the reference's exactly when the scaled error fits. */
  method SplitExponent(scheduleError: Int64, halfLife: Int64) returns (shifts: Int64, frac: Int64)
    requires halfLife > 0
    ensures 0 <= frac < RADIX
    ensures -TWO_63 / RADIX <= shifts < TWO_63 / RADIX
    ensures shifts * RADIX + frac == Wrap(scheduleError * RADIX) / halfLife
    ensures Fits(scheduleError * RADIX) ==>
              var exponent := Exponent(scheduleError, halfLife);
              shifts == exponent / RADIX && frac == exponent % RADIX
    ensures shifts * RADIX + frac == Exponent(scheduleError, halfLife) ==> Fits(scheduleError * RADIX)
  {
    WrapChangesQuotient(scheduleError * RADIX, halfLife);
    var exponent := FloorDiv(Wrap(scheduleError * 65536), halfLife);
    shifts := FloorDiv(exponent, 65536);
    LowBits(exponent);
    frac := Wrap(exponent - Wrap(shifts * 65536));
    if Fits(scheduleError * RADIX) {
      WrapExact(scheduleError * RADIX);
    }
  }

  /** A wrapped product is at least 2^64 off, more than any int64 divisor can hide. */
  lemma WrapChangesQuotient(n: int, d: Int64)
    requires d > 0
    ensures n / d == Wrap(n) / d <==> Fits(n)
  {
    WrapExact(n);
    if !Fits(n) {
      var w, q := Wrap(n), n / d;
      assert w <= n - TWO_64 || n + TWO_64 <= w;
      assert q * d <= n < q * d + d;
    }
  }

  lemma LowBits(n: Int64)
    ensures Wrap(n / RADIX * RADIX) == n / RADIX * RADIX
    ensures Wrap(n - n / RADIX * RADIX) == n % RADIX
    ensures -TWO_63 / RADIX <= n / RADIX < TWO_63 / RADIX
  {
  }

  /** The method's own comparisons for the early exits, on wrapped bounds. */
  predicate ExitsLate(c: Config, e: int) {
    e >= Wrap(256 * c.halfLife)
  }

  predicate ExitsEarly(c: Config, e: int) {
    !ExitsLate(c, e) && e <= Wrap(-256 * c.halfLife)
  }

  /** The exponent as the method computes it, from the wrapped scaled error. */
  function WrappedExponent(c: Config, e: int): int
    requires c.halfLife > 0
  {
    Wrap(e * RADIX) / c.halfLife
  }

  predicate Usable(c: Config) {
    c.halfLife > 0 && c.anchorTarget.Some? && c.anchorTarget.value > 0 && c.minTarget.Some?
  }

  /** The method on valid limits, wrap-around included. */
  function Int64Target(c: Config, height: int, timestamp: int): int
    requires Usable(c)
  {
    var e := Wrap(ScheduleError(c, height, timestamp));
    if ExitsLate(c, e) then c.maxTarget
    else if ExitsEarly(c, e) then c.minTarget.value
    else Clamp(TargetAt(c.anchorTarget.value, WrappedExponent(c, e)), c.minTarget.value, c.maxTarget)
  }

  method NextTarget(c: Config, chain: seq<Block>, candidateTimestamp: Int64) returns (r: Result<int, AsertError>)
    ensures chain == [] ==> r == Err(EmptyChain)
    ensures chain != [] && candidateTimestamp <= chain[|chain| - 1].timestamp ==> r == Err(StaleTimestamp)
    ensures chain != [] && candidateTimestamp > chain[|chain| - 1].timestamp ==>
              (r.Err? <==> c.targetSeconds <= 0 || c.halfLife <= 0 || c.anchorTarget.None? || c.anchorTarget.value <= 0)
    ensures r.Err? && chain != [] && candidateTimestamp > chain[|chain| - 1].timestamp ==> r.error == InvalidConfiguration
    ensures r.Ok? && ValidLimits(c) && NoOverflow(c, chain[|chain| - 1], candidateTimestamp) ==>
              r.value == ReferenceTarget(c, chain[|chain| - 1].height + 1, candidateTimestamp)
    ensures r.Ok? && ValidLimits(c) ==> r.value == Int64Target(c, chain[|chain| - 1].height + 1, candidateTimestamp)
  {
    if |chain| == 0 {
      return Err(EmptyChain);
    }
    var parent := chain[|chain| - 1];
    if candidateTimestamp <= parent.timestamp {
      return Err(StaleTimestamp);
    }
    if c.targetSeconds <= 0 || c.halfLife <= 0 || c.anchorTarget.None? || c.anchorTarget.value <= 0 {
      return Err(InvalidConfiguration);
    }
    ghost var height := parent.height + 1;
    var scheduleError := ScheduleErrorInt64(c, parent, candidateTimestamp);
    if ValidLimits(c) && NoOverflow(c, parent, candidateTimestamp) {
      ExitsAreExact(c, height, candidateTimestamp);
      WrapExact(scheduleError * RADIX);
    }
    if scheduleError >= Wrap(256 * c.halfLife) {
      return Ok(c.maxTarget);
    }
    if scheduleError <= Wrap(-256 * c.halfLife) {
      var least := ClampTarget(1, c.minTarget, c.maxTarget);
      return Ok(least);
    }
    var clamped := TargetFromError(c, scheduleError);
    return Ok(clamped);
  }

  lemma TargetAtIs(anchorTarget: int, exponent: int, shifts: int, frac: int)
    requires anchorTarget >= 0 && exponent == shifts * RADIX + frac && 0 <= frac < RADIX
    ensures anchorTarget * Factor(frac) >= 0
    ensures TargetAt(anchorTarget, exponent) == ShiftBy(anchorTarget * Factor(frac), shifts - 16)
  {
    hide Factor, ShiftBy;
    assert exponent / RADIX == shifts && exponent % RADIX == frac;
    FactorBounds(frac);
    MulMonotone(0, anchorTarget, Factor(frac));
  }

  /** The method from the exponent on. */
  method TargetFromError(c: Config, scheduleError: Int64) returns (r: int)
    requires c.halfLife > 0 && c.anchorTarget.Some? && c.anchorTarget.value > 0
    ensures ValidLimits(c) ==>
              r == Clamp(TargetAt(c.anchorTarget.value, WrappedExponent(c, scheduleError)), c.minTarget.value, c.maxTarget)
  {
    hide ShiftBy, Factor, Wrap, TargetAt;
    var shifts, frac := SplitExponent(scheduleError, c.halfLife);
    var factor := CubicFactor(frac);
    FactorBounds(frac);
    TargetAtIs(c.anchorTarget.value, WrappedExponent(c, scheduleError), shifts, frac);
    MulMonotone(0, c.anchorTarget.value, factor);
    var target := c.anchorTarget.value * factor;
    shifts := shifts - 16;
    target := ShiftBy(target, shifts);
    r := ClampTarget(target, c.minTarget, c.maxTarget);
  }

  /** Where the bounds fit, the early exits are taken exactly beyond 256 half-lives, and return the formula. */
  lemma ExitsAreExact(c: Config, height: int, timestamp: int)
    requires ValidLimits(c) && c.halfLife > 0
    requires Fits(ScheduleError(c, height, timestamp)) && Fits(256 * c.halfLife)
    ensures var e := ScheduleError(c, height, timestamp);
            && Wrap(e) == e
            && (ExitsLate(c, e) <==> e >= 256 * c.halfLife)
            && (ExitsLate(c, e) ==> ReferenceTarget(c, height, timestamp) == c.maxTarget)
            && (ExitsEarly(c, e) <==> e <= -256 * c.halfLife)
            && (ExitsEarly(c, e) ==> ReferenceTarget(c, height, timestamp) == c.minTarget.value)
  {
    hide Wrap, ReferenceTarget;
    var e := ScheduleError(c, height, timestamp);
    WrapExact(e);
    WrapExact(256 * c.halfLife);
    WrapExact(-256 * c.halfLife);
    if e >= 256 * c.halfLife {
      FarBehindSchedule(c, height, timestamp);
    }
    if e <= -256 * c.halfLife {
      FarAheadOfSchedule(c, height, timestamp);
    }
  }

  // -------------------------------------------------------------------------
  // The early exits agree with the formula
  // -------------------------------------------------------------------------

  /** The factor of a fraction stays between one and just under two, in 1/65536ths. */
  lemma FactorBounds(fraction: nat)
    requires fraction < RADIX
    ensures RADIX <= Factor(fraction) < 2 * RADIX
  {
    FactorEnds();
    FactorMonotone(fraction, RADIX - 1);
  }

  lemma FactorEnds()
    ensures Factor(0) == RADIX
    ensures Factor(RADIX - 1) == 2 * RADIX - 1
  {
    ProductIs(RADIX - 1, RADIX - 1);
    ProductIs(Square(RADIX - 1), RADIX - 1);
  }

  lemma FactorMonotone(f: nat, g: nat)
    requires f <= g
    ensures Factor(f) <= Factor(g)
  {
    ProductMonotone(f, f, g, g);
    ProductMonotone(Square(f), f, Square(g), g);
  }

  lemma Pow2Square(n: nat, v: nat)
    requires Pow2(n) == v
    ensures Pow2(2 * n) == v * v
  {
    Pow2Add(n, n);
  }

  lemma Pow2Values()
    ensures Pow2(16) == RADIX
    ensures Pow2(240) * RADIX == TWO_256
    ensures Pow2(272) == TWO_256 * RADIX
    ensures Pow2(273) == TWO_256 * (2 * RADIX)
  {
    assert Pow2(2) == 4;
    Pow2Square(2, 4);
    Pow2Square(4, 0x10);
    Pow2Square(8, 0x100);
    Pow2Square(16, 0x1_0000);
    Pow2Square(32, 0x1_0000_0000);
    Pow2Square(64, 0x1_0000_0000_0000_0000);
    Pow2Square(128, 0x1_0000_0000_0000_0000_0000_0000_0000_0000);
    Pow2Add(240, 16);
    Pow2Add(256, 16);
  }

  /** From 256 half-lives on, the formula is at least 2^256, whatever the anchor. */
  lemma LateTargetHuge(anchorTarget: int, exponent: int)
    requires anchorTarget >= 1 && exponent >= 256 * RADIX
    ensures TargetAt(anchorTarget, exponent) >= TWO_256
  {
    var s := exponent / RADIX - 16;
    var f := Factor(exponent % RADIX);
    FactorBounds(exponent % RADIX);
    MulMonotone(1, anchorTarget, f);
    Pow2Values();
    Pow2Grows(240, s);
    MulMonotone(RADIX, anchorTarget * f, Pow2(s));
  }

  lemma ShiftedOut(x: nat, k: nat)
    requires 0 < k && x < Pow2(k)
    ensures ShiftBy(x, -(k as int)) == 0
  {
    QuotientUnique(x, Pow2(k), 0);
  }

  lemma ProductBelow(a: int, f: int, limit: int, g: int)
    requires 0 <= a < limit && 0 <= f <= g && g > 0
    ensures 0 <= a * f < limit * g
  {
    MulMonotone(0, f, a);
    MulMonotone(f, g, a);
    MulMonotone(a + 1, limit, g);
  }

  /** Down to -256 half-lives and below, every bit of the product is shifted out. */
  lemma EarlyTargetZero(anchorTarget: int, exponent: int)
    requires 1 <= anchorTarget < TWO_256 && exponent <= -256 * RADIX
    ensures TargetAt(anchorTarget, exponent) == 0
  {
    var fraction, k := exponent % RADIX, 16 - exponent / RADIX;
    FactorBounds(fraction);
    Pow2Values();
    if fraction == 0 {
      FactorEnds();
      ProductBelow(anchorTarget, Factor(0), TWO_256, RADIX);
      Pow2Grows(272, k);
    } else {
      ProductBelow(anchorTarget, Factor(fraction), TWO_256, 2 * RADIX);
      Pow2Grows(273, k);
    }
    ShiftedOut(anchorTarget * Factor(fraction), k);
  }

  lemma FarBehindSchedule(c: Config, height: int, timestamp: int)
    requires ValidLimits(c) && c.halfLife > 0
    requires ScheduleError(c, height, timestamp) >= 256 * c.halfLife
    ensures ReferenceTarget(c, height, timestamp) == c.maxTarget
  {
    var error := ScheduleError(c, height, timestamp);
    DivBounds(error * RADIX, c.halfLife, 256 * RADIX);
    LateTargetHuge(c.anchorTarget.value, Exponent(error, c.halfLife));
  }

  lemma FarAheadOfSchedule(c: Config, height: int, timestamp: int)
    requires ValidLimits(c) && c.halfLife > 0
    requires ScheduleError(c, height, timestamp) <= -256 * c.halfLife
    ensures ReferenceTarget(c, height, timestamp) == c.minTarget.value
  {
    var error := ScheduleError(c, height, timestamp);
    DivBounds(error * RADIX, c.halfLife, -256 * RADIX);
    EarlyTargetZero(c.anchorTarget.value, Exponent(error, c.halfLife));
  }

  // -------------------------------------------------------------------------
  // Practical bounds, and what happens beyond them
  // -------------------------------------------------------------------------

  /** Heights below 2^32, Unix times below 2^40, spacing below 2^28 s and half-life up to 2^39 s. */
  lemma PracticalBoundsSuffice(c: Config, parent: Block, timestamp: Int64)
    requires 0 <= parent.height < 0x1_0000_0000 && 0 <= c.anchorHeight < 0x1_0000_0000
    requires 0 <= timestamp < 0x100_0000_0000 && 0 <= c.anchorTime < 0x100_0000_0000
    requires 0 < c.targetSeconds < 0x1000_0000 && 0 < c.halfLife <= 0x80_0000_0000
    ensures NoOverflow(c, parent, timestamp)
  {
    var delta := parent.height + 1 - c.anchorHeight;
    assert -0x1_0000_0000 <= delta <= 0x1_0000_0000;
    assert c.targetSeconds * delta <= 0x1000_0000 * 0x1_0000_0000;
    assert c.targetSeconds * delta >= -(0x1000_0000 * 0x1_0000_0000);
  }

  /**
   On schedule the method returns the formula's value exactly when 256 half-lives,
   wrapped, are positive, or the limits make the largest target the right one. A
   half-life of 2^55 s, for one, wraps to the least int64.
   */
  method OnScheduleAgreesIff(c: Config, chain: seq<Block>, t: Int64) returns (r: Result<int, AsertError>)
    requires ValidLimits(c) && c.targetSeconds > 0 && c.halfLife > 0
    requires chain != [] && t > chain[|chain| - 1].timestamp
    requires ScheduleError(c, chain[|chain| - 1].height + 1, t) == 0
    ensures r == Ok(ReferenceTarget(c, chain[|chain| - 1].height + 1, t))
            <==> Wrap(256 * c.halfLife) > 0 || c.anchorTarget.value >= c.maxTarget || c.minTarget.value == c.maxTarget
    ensures Wrap(256 * c.halfLife) <= 0 ==> r == Ok(c.maxTarget)
  {
    hide Wrap, ReferenceTarget, TargetAt;
    OnSchedule(c, chain[|chain| - 1].height + 1, t);
    r := NextTarget(c, chain, t);
    Int64Wraps(0);
    QuotientUnique(0, c.halfLife, 0);
    AnchorAtZero(c.anchorTarget.value);
    WrapNegates(256 * c.halfLife);
  }

  lemma WrapNegates(n: int)
    ensures Wrap(n) > 0 ==> Wrap(-n) == -Wrap(n)
  {
    var k := WrapOffset(n);
    var w := Wrap(n);
    if w > 0 {
      WrapShift(-w, k);
    }
  }

  /** With a half-life of 2^55 s the method and the formula differ on schedule. */
  method HugeHalfLifeDiverges(c: Config, chain: seq<Block>, t: Int64) returns (r: Result<int, AsertError>)
    requires ValidLimits(c) && c.targetSeconds > 0 && c.halfLife == 0x80_0000_0000_0000
    requires c.minTarget.value <= c.anchorTarget.value < c.maxTarget
    requires chain != [] && t > chain[|chain| - 1].timestamp
    requires ScheduleError(c, chain[|chain| - 1].height + 1, t) == 0
    ensures r == Ok(c.maxTarget)
    ensures ReferenceTarget(c, chain[|chain| - 1].height + 1, t) == c.anchorTarget.value < c.maxTarget
  {
    OnSchedule(c, chain[|chain| - 1].height + 1, t);
    r := OnScheduleAgreesIff(c, chain, t);
  }

  // -------------------------------------------------------------------------
  // Shape of the target curve
  // -------------------------------------------------------------------------

  /** Doubling the value is one more bit of left shift. */
  lemma ShiftDouble(x: nat, s: int)
    ensures ShiftBy(2 * x, s) == ShiftBy(x, s + 1)
  {
    if s < 0 {
      var half := Pow2(-s - 1);
      var q := x / half;
      var p := q * half;
      assert p <= x < p + half;
      assert q * (2 * half) == 2 * p;
      QuotientUnique(2 * x, 2 * half, q);
    } else {
      assert 2 * x * Pow2(s) == x * (2 * Pow2(s));
    }
  }

  lemma ShiftMonotone(x: nat, y: nat, s: int)
    requires x <= y
    ensures ShiftBy(x, s) <= ShiftBy(y, s)
  {
    if s < 0 {
      var d := Pow2(-s);
      var e := x / d;
      assert e * d <= x;
      DivBounds(y, d, e);
    } else {
      assert x * Pow2(s) <= y * Pow2(s);
    }
  }

  lemma HalfQuotient(x: nat, d: nat)
    requires d > 0
    ensures x / (2 * d) == x / d / 2
  {
    var q := x / d;
    var e := q / 2;
    var p := e * d;
    assert q * d <= x < q * d + d;
    assert e * (2 * d) == 2 * p;
    if q % 2 == 0 {
      assert q == e + e;
      assert q * d == 2 * p;
    } else {
      assert q == e + e + 1;
      assert q * d == 2 * p + d;
    }
    QuotientUnique(x, 2 * d, e);
  }

  /** One bit less of shift is half the value, rounded down. */
  lemma ShiftHalves(x: nat, s: int)
    ensures ShiftBy(x, s + 1) / 2 == ShiftBy(x, s)
  {
    if s >= 0 {
      var d := Pow2(s);
      var p := x * d;
      assert x * (2 * d) == 2 * p;
      assert ShiftBy(x, s) == p && ShiftBy(x, s + 1) == 2 * p;
    } else if s == -1 {
      assert Pow2(0) == 1 && Pow2(1) == 2;
    } else {
      HalfQuotient(x, Pow2(-s - 1));
    }
  }

  /** Within a half-life the next factor is at least as large. */
  lemma StepWithin(a: nat, fraction: nat, s: int)
    requires fraction + 1 < RADIX
    ensures Factor(fraction) >= 0 && Factor(fraction + 1) >= 0
    ensures a * Factor(fraction) >= 0 && a * Factor(fraction + 1) >= 0
    ensures ShiftBy(a * Factor(fraction), s) <= ShiftBy(a * Factor(fraction + 1), s)
  {
    FactorBounds(fraction);
    FactorBounds(fraction + 1);
    FactorMonotone(fraction, fraction + 1);
    MulMonotone(0, a, Factor(fraction));
    MulMonotone(Factor(fraction), Factor(fraction + 1), a);
    ShiftMonotone(a * Factor(fraction), a * Factor(fraction + 1), s);
  }

  /** Where the fraction rolls over, twice the unit factor is above the last one. */
  lemma StepOver(a: nat, s: int)
    ensures Factor(RADIX - 1) >= 0 && a * Factor(RADIX - 1) >= 0 && Factor(0) == RADIX
    ensures ShiftBy(a * Factor(RADIX - 1), s) <= ShiftBy(a * RADIX, s + 1)
  {
    FactorEnds();
    FactorBounds(RADIX - 1);
    MulMonotone(0, a, Factor(RADIX - 1));
    MulMonotone(Factor(RADIX - 1), 2 * RADIX, a);
    ShiftMonotone(a * Factor(RADIX - 1), 2 * (a * RADIX), s);
    ShiftDouble(a * RADIX, s);
  }

  /** One exponent step never lowers the target, the roll-over of the fraction included. */
  lemma TargetStep(a: nat, exponent: int)
    ensures TargetAt(a, exponent) <= TargetAt(a, exponent + 1)
  {
    var f, s := exponent % RADIX, exponent / RADIX - 16;
    if f + 1 < RADIX {
      assert (exponent + 1) / RADIX == exponent / RADIX && (exponent + 1) % RADIX == f + 1;
      StepWithin(a, f, s);
    } else {
      assert (exponent + 1) / RADIX == exponent / RADIX + 1 && (exponent + 1) % RADIX == 0;
      StepOver(a, s);
    }
  }

  lemma {:induction false} TargetMonotone(anchorTarget: nat, e: int, e': int)
    requires e <= e'
    ensures TargetAt(anchorTarget, e) <= TargetAt(anchorTarget, e')
    decreases e' - e
  {
    if e < e' {
      TargetMonotone(anchorTarget, e, e' - 1);
      TargetStep(anchorTarget, e' - 1);
    }
  }

  /** A later candidate at the same height never gets a harder target. */
  lemma LaterIsNeverHarder(c: Config, height: int, t: int, t': int)
    requires Usable(c) && c.minTarget.value <= c.maxTarget
    requires t <= t'
    ensures ReferenceTarget(c, height, t) <= ReferenceTarget(c, height, t')
  {
    var e, e' := ScheduleError(c, height, t), ScheduleError(c, height, t');
    ExponentMonotone(e, e', c.halfLife);
    TargetMonotone(c.anchorTarget.value, Exponent(e, c.halfLife), Exponent(e', c.halfLife));
  }

  lemma ExponentMonotone(e: int, e': int, halfLife: int)
    requires halfLife > 0 && e <= e'
    ensures Exponent(e, halfLife) <= Exponent(e', halfLife)
  {
    var k := Exponent(e, halfLife);
    assert k * halfLife <= e * RADIX;
    DivBounds(e' * RADIX, halfLife, k);
  }

  /** Exactly on schedule the target is the anchor target, clamped. */
  lemma OnSchedule(c: Config, height: int, t: int)
    requires Usable(c)
    requires ScheduleError(c, height, t) == 0
    ensures ReferenceTarget(c, height, t) == Clamp(c.anchorTarget.value, c.minTarget.value, c.maxTarget)
  {
    QuotientUnique(0, c.halfLife, 0);
    AnchorAtZero(c.anchorTarget.value);
  }

  lemma AnchorAtZero(a: nat)
    ensures TargetAt(a, 0) == a
  {
    FactorEnds();
    Pow2Values();
    QuotientUnique(a * RADIX, RADIX, a);
  }

  /** One more half-life of delay gives a target whose half, rounded down, is the old one. */
  lemma HalfLifeDoubles(c: Config, height: int, t: int)
    requires Usable(c)
    ensures var e := Exponent(ScheduleError(c, height, t), c.halfLife);
            var e' := Exponent(ScheduleError(c, height, t + c.halfLife), c.halfLife);
            TargetAt(c.anchorTarget.value, e') / 2 == TargetAt(c.anchorTarget.value, e)
  {
    var n := ScheduleError(c, height, t) * RADIX;
    var e := n / c.halfLife;
    var n' := ScheduleError(c, height, t + c.halfLife) * RADIX;
    assert n' == n + RADIX * c.halfLife;
    assert e * c.halfLife <= n < e * c.halfLife + c.halfLife;
    QuotientUnique(n', c.halfLife, e + RADIX);
    HalvesOneRadixBelow(c.anchorTarget.value, e);
  }

  lemma HalvesOneRadixBelow(a: nat, e: int)
    ensures TargetAt(a, e + RADIX) / 2 == TargetAt(a, e)
  {
    assert (e + RADIX) / RADIX == e / RADIX + 1 && (e + RADIX) % RADIX == e % RADIX;
    FactorBounds(e % RADIX);
    ShiftHalves(a * Factor(e % RADIX), e / RADIX - 16);
  }
}
