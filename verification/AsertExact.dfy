/**
 When the int64 method gives the value of the unbounded formula for every
 anchor target and every limits: an exact condition on the schedule error and
 the half-life alone.
 */
module AsertExact {
  import opened Arithmetic
  import opened Wrappers
  import opened Asert

  function WithTargets(c: Config, anchor: int, min: int, max: int): Config {
    c.(anchorTarget := Some(anchor), minTarget := Some(min), maxTarget := max)
  }

  ghost predicate AgreesForAll(c: Config, height: int, timestamp: int)
    requires c.halfLife > 0
  {
    forall a, min, max :: 1 <= a < TWO_256 && 1 <= min <= max < TWO_256 ==>
      Int64Target(WithTargets(c, a, min, max), height, timestamp)
      == ReferenceTarget(WithTargets(c, a, min, max), height, timestamp)
  }

  /** From 256 half-lives behind schedule on, and from 255 ahead of it, all exponents give the same clamped targets. */
  predicate Alike(x: int, y: int) {
    x == y || (x >= 256 * RADIX && y >= 256 * RADIX) || (x <= -255 * RADIX && y <= -255 * RADIX)
  }

  /** The exponent that the method in effect uses; an early exit stands for the end of the curve. */
  function Effective(c: Config, e: int): int
    requires c.halfLife > 0
  {
    if ExitsLate(c, e) then 256 * RADIX
    else if ExitsEarly(c, e) then -255 * RADIX
    else WrappedExponent(c, e)
  }

  // -------------------------------------------------------------------------
  // The ends of the curve
  // -------------------------------------------------------------------------

  /** At -255 half-lives and below the target is at most one. */
  lemma EarlyTargetLeast(a: int, x: int)
    requires 1 <= a < TWO_256 && x <= -255 * RADIX
    ensures TargetAt(a, x) <= 1
  {
    var p := Pow2(271);
    EndPowers();
    TargetMonotone(a, x, -255 * RADIX);
    FactorEnds();
    ProductBelow(a, RADIX, TWO_256, RADIX);
    DivBounds(a * RADIX, p, 2);
    if a * RADIX / p >= 2 {
      DivAtLeast(a * RADIX, p, 2);
    }
  }

  lemma DivAtLeast(n: int, d: int, k: int)
    requires d > 0 && n / d >= k
    ensures n >= k * d
  {
    MulMonotone(k, n / d, d);
  }

  lemma EndPowers()
    ensures 2 * Pow2(271) == TWO_256 * RADIX
    ensures 2 * Pow2(239) * RADIX == TWO_256
  {
    Pow2Values();
    assert Pow2(272) == 2 * Pow2(271);
    assert Pow2(240) == 2 * Pow2(239);
  }

  /** One step above, the largest anchor has a target of at least two. */
  lemma EarlyTargetAbove(x: int)
    requires x > -255 * RADIX
    ensures TargetAt(TWO_256 - 1, x) >= 2
  {
    var a, p, g := TWO_256 - 1, Pow2(271), Factor(1);
    EndPowers();
    assert Product(1, 1) == 1;
    assert g == RADIX + 1;
    TargetMonotone(a, -255 * RADIX + 1, x);
    DivBounds(a * g, p, 2);
  }

  /** One step below 256 half-lives, the least anchor has a target below 2^256 - 1. */
  lemma LateTargetBelow(x: int)
    requires x < 256 * RADIX
    ensures TargetAt(1, x) < TWO_256 - 1
  {
    EndPowers();
    FactorEnds();
    TargetMonotone(1, x, 256 * RADIX - 1);
  }

  /** Alike exponents give the same target for every anchor and limits. */
  lemma AlikeSame(x: int, y: int, a: int, min: int, max: int)
    requires Alike(x, y)
    requires 1 <= a < TWO_256 && 1 <= min <= max < TWO_256
    ensures Clamp(TargetAt(a, x), min, max) == Clamp(TargetAt(a, y), min, max)
  {
    hide TargetAt;
    if x != y {
      if x >= 256 * RADIX {
        LateTargetHuge(a, x);
        LateTargetHuge(a, y);
      } else {
        EarlyTargetLeast(a, x);
        EarlyTargetLeast(a, y);
      }
    }
  }

  // -------------------------------------------------------------------------
  // Between the ends: exponents two apart are told apart by some anchor
  // -------------------------------------------------------------------------

  lemma ProductsGrow(f: nat)
    ensures Square(f) <= Square(f + 2) && Cube(f) <= Cube(f + 2)
  {
    ProductMonotone(f, f, f + 2, f + 2);
    ProductMonotone(Square(f), f, Square(f + 2), f + 2);
  }

  /** Two steps of the fraction raise the factor. */
  lemma FactorGrows(f: nat)
    ensures Factor(f) < Factor(f + 2)
  {
    hide Square, Cube;
    ProductsGrow(f);
  }

  /** The factor two steps on, counted in the same half-life. */
  function SecondNext(x: int): int {
    var f := x % RADIX;
    if f + 2 < RADIX then Factor(f + 2) else 2 * Factor(f + 2 - RADIX)
  }

  lemma TargetTwoOn(a: nat, x: int)
    ensures Factor(x % RADIX) < SecondNext(x) < 4 * RADIX
    ensures a * SecondNext(x) >= 0
    ensures TargetAt(a, x + 2) == ShiftBy(a * SecondNext(x), x / RADIX - 16)
  {
    hide Factor, ShiftBy;
    var f, s := x % RADIX, x / RADIX - 16;
    FactorBounds(f);
    if f + 2 < RADIX {
      FactorGrows(f);
      FactorBounds(f + 2);
      assert (x + 2) / RADIX == x / RADIX && (x + 2) % RADIX == f + 2;
    } else {
      var g := Factor(f + 2 - RADIX);
      FactorBounds(f + 2 - RADIX);
      assert (x + 2) / RADIX == x / RADIX + 1 && (x + 2) % RADIX == f + 2 - RADIX;
      MulMonotone(0, a, g);
      ShiftDouble(a * g, s);
      assert 2 * (a * g) == a * (2 * g);
    }
    MulMonotone(0, a, SecondNext(x));
  }

  lemma SwapFactors(p: int, d: int, g: int)
    ensures p * d * g == p * g * d
  {
  }

  /** A power of two that is not shifted out only moves. */
  lemma ShiftPower(m: nat, g: nat, s: int)
    requires m + s >= 0
    ensures Pow2(m) * g >= 0
    ensures ShiftBy(Pow2(m) * g, s) == Pow2(m + s) * g
  {
    hide Pow2;
    MulMonotone(0, Pow2(m), g);
    if s >= 0 {
      Pow2Add(m, s);
      SwapFactors(Pow2(m), Pow2(s), g);
    } else {
      Pow2Add(m + s, -s);
      SwapFactors(Pow2(m + s), Pow2(-s), g);
      QuotientUnique(Pow2(m) * g, Pow2(-s), Pow2(m + s) * g);
    }
  }

  /** Different also after clamping to the widest limits. */
  predicate Differ(u: int, v: int) {
    Clamp(u, 1, TWO_256 - 1) != Clamp(v, 1, TWO_256 - 1)
  }

  predicate ToldApart(a: int, x: int, y: int) {
    && 1 <= a < TWO_256
    && Differ(TargetAt(a, x), TargetAt(a, y))
  }

  lemma ProductsDiffer(p: int, g: int, g': int)
    requires 1 <= p <= Pow2(239) && 1 <= g < 2 * RADIX && g < g'
    ensures Differ(p * g, p * g')
  {
    hide Pow2;
    EndPowers();
    MulMonotone(g, 2 * RADIX - 1, p);
    MulMonotone(p, Pow2(239), 2 * RADIX - 1);
    MulMonotone(g + 1, g', p);
    MulMonotone(1, p, g);
  }

  /** Down to -239 half-lives, a power of two keeps all bits of both factors. */
  lemma ByPower(x: int) returns (a: int)
    requires -239 <= x / RADIX < 256
    ensures ToldApart(a, x, x + 2)
  {
    hide Factor, ShiftBy, Pow2, Clamp;
    var n := x / RADIX;
    var m := if n >= 0 then 255 - n else 255;
    var g, g' := Factor(x % RADIX), SecondNext(x);
    a := Pow2(m);
    FactorBounds(x % RADIX);
    TargetTwoOn(a, x);
    ShiftPower(m, g, n - 16);
    ShiftPower(m, g', n - 16);
    Pow2Grows(m + n - 16, 239);
    Pow2Grows(m, 255);
    HalfOfAll();
    ProductsDiffer(Pow2(m + n - 16), g, g');
  }

  lemma HalfOfAll()
    ensures 2 * Pow2(255) == TWO_256
  {
    EndPowers();
    Pow2Add(239, 16);
    Pow2Values();
  }

  lemma Ceiling(n: int, d: int) returns (a: int)
    requires d > 0
    ensures n <= a * d < n + d
  {
    a := (n + d - 1) / d;
    assert a * d <= n + d - 1 < a * d + d;
  }

  lemma OneLess(a: int, g: int)
    ensures (g - 1) * a == g * a - a
  {
  }

  /** The least a with a * g' >= n; a * g stays below n as long as a is at least g'. */
  lemma CeilSeparates(n: int, g: int, g': int) returns (a: int)
    requires 0 <= g < g' && n >= g' * g'
    ensures a * g < n <= a * g' < n + g'
    ensures a >= g'
  {
    a := Ceiling(n, g');
    if a < g' {
      MulMonotone(a, g' - 1, g');
      OneLess(g', g');
    }
    MulMonotone(g, g' - 1, a);
    OneLess(a, g');
  }

  lemma QuotientsDiffer(u: int, v: int, p: int)
    requires p > 0 && u < 2 * p <= v
    ensures Differ(u / p, v / p)
  {
    DivBounds(v, p, 2);
    if u / p >= 2 {
      DivAtLeast(u, p, 2);
    }
  }

  lemma CeilingBelow(a: nat, g: int, n: int)
    requires g > RADIX && a * g < n + g && n <= TWO_256 * RADIX
    ensures a < TWO_256
  {
    if a >= TWO_256 {
      assert (a - 1) * g == a * g - g;
      MulMonotone(RADIX + 1, g, a - 1);
    }
  }

  lemma PowerRoom(k: nat)
    requires 256 <= k <= 271
    ensures TWO_256 <= Pow2(k) && 2 * Pow2(k) <= TWO_256 * RADIX
  {
    hide Pow2;
    Pow2Grows(256, k);
    Pow2Grows(k, 271);
    EndPowers();
    HalfOfAll();
    Pow2Add(1, 255);
    OneIsTwo();
  }

  lemma OneIsTwo()
    ensures Pow2(1) == 2
  {
  }

  /** Below -239 half-lives, an anchor whose target is at most one at the first exponent and two at the other. */
  lemma ByCeiling(x: int) returns (a: int)
    requires x / RADIX < -239 && -255 <= x / RADIX
    ensures ToldApart(a, x, x + 2)
  {
    hide Factor, Pow2, Clamp;
    var k := 16 - x / RADIX;
    var g, g', p := Factor(x % RADIX), SecondNext(x), Pow2(k);
    FactorBounds(x % RADIX);
    TargetTwoOn(0, x);
    PowerRoom(k);
    MulMonotone(g', 4 * RADIX, g');
    a := CeilSeparates(2 * p, g, g');
    CeilingBelow(a, g', 2 * p);
    TargetTwoOn(a, x);
    QuotientsDiffer(a * g, a * g', p);
  }

  /** Exponents that are not alike are told apart by some anchor under the widest limits. */
  lemma UnlikeDiffers(x: int, y: int) returns (a: int)
    requires x < y && !Alike(x, y)
    requires x + 2 <= y || x <= -255 * RADIX || y >= 256 * RADIX
    ensures ToldApart(a, x, y)
  {
    hide TargetAt;
    if y >= 256 * RADIX {
      a := 1;
      LateTargetBelow(x);
      LateTargetHuge(1, y);
    } else if x <= -255 * RADIX {
      a := TWO_256 - 1;
      EarlyTargetLeast(a, x);
      EarlyTargetAbove(y);
    } else {
      if x / RADIX >= -239 {
        a := ByPower(x);
      } else {
        a := ByCeiling(x);
      }
      TargetMonotone(a, x + 2, y);
      TargetMonotone(a, x, x + 2);
    }
  }

  // -------------------------------------------------------------------------
  // The exact condition
  // -------------------------------------------------------------------------

  lemma QuotientsApart(n: int, w: int, d: int)
    requires d > 0 && n + 2 * d <= w
    ensures n / d + 2 <= w / d
  {
    var q := n / d;
    assert q * d <= n;
    assert (q + 2) * d == q * d + 2 * d;
    DivBounds(w, d, q + 2);
  }

  /** A wrapped scaled error is off by at least two exponent steps, or not at all. */
  lemma WrapJumps(n: int, d: Int64)
    requires d > 0
    ensures var x, y := n / d, Wrap(n) / d; x == y || x + 2 <= y || y + 2 <= x
  {
    hide Wrap;
    var k := WrapOffset(n);
    if k >= 1 {
      QuotientsApart(n, Wrap(n), d);
    } else if k <= -1 {
      QuotientsApart(Wrap(n), n, d);
    }
  }

  lemma Int64TargetIs(c: Config, height: int, timestamp: int, a: int, min: int, max: int)
    requires c.halfLife > 0 && 1 <= a < TWO_256 && 1 <= min <= max < TWO_256
    ensures Int64Target(WithTargets(c, a, min, max), height, timestamp)
            == Clamp(TargetAt(a, Effective(c, Wrap(ScheduleError(c, height, timestamp)))), min, max)
    ensures ReferenceTarget(WithTargets(c, a, min, max), height, timestamp)
            == Clamp(TargetAt(a, Exponent(ScheduleError(c, height, timestamp), c.halfLife)), min, max)
  {
    hide TargetAt, Wrap;
    LateTargetHuge(a, 256 * RADIX);
    EarlyTargetLeast(a, -255 * RADIX);
  }

  /**
   The method agrees with the formula for every anchor and limits exactly when
   the exponent in effect, on wrapped quantities, is the exact one or both lie
   beyond the same end of the curve.
   */
  lemma AgreesForAllIff(c: Config, height: int, timestamp: int)
    requires c.halfLife > 0
    ensures var error := ScheduleError(c, height, timestamp);
            AgreesForAll(c, height, timestamp) <==>
            Alike(Exponent(error, c.halfLife), Effective(c, Wrap(error)))
  {
    hide TargetAt, Wrap, Int64Target, ReferenceTarget, Clamp;
    var error := ScheduleError(c, height, timestamp);
    var x, y := Exponent(error, c.halfLife), Effective(c, Wrap(error));
    if Alike(x, y) {
      forall a, min, max | 1 <= a < TWO_256 && 1 <= min <= max < TWO_256
        ensures Int64Target(WithTargets(c, a, min, max), height, timestamp)
                == ReferenceTarget(WithTargets(c, a, min, max), height, timestamp)
      {
        Int64TargetIs(c, height, timestamp, a, min, max);
        AlikeSame(x, y, a, min, max);
      }
    } else {
      WrapProduct(RADIX, error);
      assert Wrap(Wrap(error) * RADIX) == Wrap(error * RADIX);
      WrapJumps(error * RADIX, c.halfLife);
      var a: int;
      if x < y {
        a := UnlikeDiffers(x, y);
      } else {
        a := UnlikeDiffers(y, x);
      }
      Int64TargetIs(c, height, timestamp, a, 1, TWO_256 - 1);
    }
  }

  /** Where the early exits are not taken, a scaled error that wraps does not land beyond the same end. */
  lemma WrappedUnlike(e: int, d: Int64)
    requires d > 0 && -256 * d < e < 256 * d && !Fits(e * RADIX)
    ensures !Alike(e * RADIX / d, Wrap(e * RADIX) / d)
  {
    var n, x, y := e * RADIX, e * RADIX / d, Wrap(e * RADIX) / d;
    WrapChangesQuotient(n, d);
    BelowEnd(n, d);
    if y <= -255 * RADIX {
      AboveEnd(Wrap(n), d);
      if x <= -255 * RADIX {
        AboveEnd(n, d);
      }
    }
  }

  lemma BelowEnd(n: int, d: int)
    requires d > 0 && n < 256 * RADIX * d
    ensures n / d < 256 * RADIX
  {
    if n / d >= 256 * RADIX {
      DivAtLeast(n, d, 256 * RADIX);
    }
  }

  lemma AboveEnd(n: int, d: int)
    requires d > 0 && n / d <= -255 * RADIX
    ensures n < (-255 * RADIX + 1) * d
  {
    if n >= (-255 * RADIX + 1) * d {
      DivBounds(n, d, -255 * RADIX + 1);
    }
  }

  /** Where the schedule error and 256 half-lives fit, NoOverflow is exactly that condition. */
  lemma NoOverflowIsExact(c: Config, parent: Block, timestamp: Int64)
    requires c.halfLife > 0 && Fits(256 * c.halfLife)
    requires Fits(ScheduleError(c, parent.height + 1, timestamp))
    ensures AgreesForAll(c, parent.height + 1, timestamp) <==> NoOverflow(c, parent, timestamp)
  {
    hide AgreesForAll, Wrap;
    var e := ScheduleError(c, parent.height + 1, timestamp);
    AgreesForAllIff(c, parent.height + 1, timestamp);
    WrapExact(e);
    WrapExact(256 * c.halfLife);
    WrapExact(-256 * c.halfLife);
    if e >= 256 * c.halfLife {
      DivBounds(e * RADIX, c.halfLife, 256 * RADIX);
    } else if e <= -256 * c.halfLife {
      DivBounds(e * RADIX, c.halfLife, -256 * RADIX);
    } else {
      WrapExact(e * RADIX);
      if !Fits(e * RADIX) {
        WrappedUnlike(e, c.halfLife);
      }
    }
  }
}
