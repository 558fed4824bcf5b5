/**
 How closely the cubic of the target formula follows powers of two: at every
 sixteenth of a half-life within 0.02 %, and in between within 0.02 % of the two
 sixteenths around it.
 */
module AsertCurve {
  import opened Arithmetic
  import opened Asert

  const STEP: nat := 4096

  function Pow4(x: nat): nat {
    x * x * (x * x)
  }

  function Pow16(x: nat): nat {
    Pow4(Pow4(x))
  }

  lemma Pow4Monotone(x: nat, y: nat)
    requires x <= y
    ensures Pow4(x) <= Pow4(y)
  {
    MulMonotone(x, y, x);
    MulMonotone(x, y, y);
    var a, b := x * x, y * y;
    MulMonotone(a, b, a);
    MulMonotone(a, b, b);
  }

  lemma Pow16Monotone(x: nat, y: nat)
    requires x <= y
    ensures Pow16(x) <= Pow16(y)
  {
    hide Pow4;
    Pow4Monotone(x, y);
    Pow4Monotone(Pow4(x), Pow4(y));
  }

  /** The factor at k sixteenths of a half-life. */
  function Sixteenth(k: nat): nat
    requires k <= 16
  {
    [65536, 68444, 71475, 74637, 77938, 81384, 84984, 88745, 92674, 96779, 101068, 105547, 110225, 115109, 120207, 125525,
     131072][k]
  }

  lemma FactorIs(f: nat, f2: nat, f3: nat, factor: nat)
    requires f2 == f * f && f3 == f2 * f && RADIX + Cubic(f, f2, f3) / 0x1_0000_0000_0000 == factor
    ensures Factor(f) == factor
  {
    hide Cubic;
    ProductIs(f, f);
    ProductIs(f2, f);
  }

  lemma SixteenthIs(k: nat)
    requires k <= 16
    ensures Factor(k * STEP) == Sixteenth(k)
  {
    hide Factor;
    match k
    case 0 => FactorIs(0, 0, 0, 65536);
    case 1 => FactorIs(4096, 16777216, 68719476736, 68444);
    case 2 => FactorIs(8192, 67108864, 549755813888, 71475);
    case 3 => FactorIs(12288, 150994944, 1855425871872, 74637);
    case 4 => FactorIs(16384, 268435456, 4398046511104, 77938);
    case 5 => FactorIs(20480, 419430400, 8589934592000, 81384);
    case 6 => FactorIs(24576, 603979776, 14843406974976, 84984);
    case 7 => FactorIs(28672, 822083584, 23570780520448, 88745);
    case 8 => FactorIs(32768, 1073741824, 35184372088832, 92674);
    case 9 => FactorIs(36864, 1358954496, 50096498540544, 96779);
    case 10 => FactorIs(40960, 1677721600, 68719476736000, 101068);
    case 11 => FactorIs(45056, 2030043136, 91465623535616, 105547);
    case 12 => FactorIs(49152, 2415919104, 118747255799808, 110225);
    case 13 => FactorIs(53248, 2835349504, 150976690388992, 115109);
    case 14 => FactorIs(57344, 3288334336, 188566244163584, 120207);
    case 15 => FactorIs(61440, 3774873600, 231928233984000, 125525);
    case 16 => FactorIs(65536, 4294967296, 281474976710656, 131072);
    case _ =>
  }

  /** The factor is the 16th root of the power, in 1/65536ths, within 0.02 %. */
  predicate Near(power: nat, factor: nat) {
    power * Pow16(4999 * RADIX) <= Pow16(5000 * factor) <= power * Pow16(5001 * RADIX)
  }

  lemma NearFirstQuarter()
    ensures Near(1, 65536)
    ensures Near(2, 68444)
    ensures Near(4, 71475)
    ensures Near(8, 74637)
  {
  }

  lemma NearSecondQuarter()
    ensures Near(16, 77938)
    ensures Near(32, 81384)
    ensures Near(64, 84984)
    ensures Near(128, 88745)
  {
  }

  lemma NearThirdQuarter()
    ensures Near(256, 92674)
    ensures Near(512, 96779)
    ensures Near(1024, 101068)
    ensures Near(2048, 105547)
  {
  }

  lemma NearFourthQuarter()
    ensures Near(4096, 110225)
    ensures Near(8192, 115109)
    ensures Near(16384, 120207)
    ensures Near(32768, 125525)
    ensures Near(65536, 131072)
  {
  }

  lemma PowersTo16()
    ensures Pow2(0) == 1 && Pow2(1) == 2 && Pow2(2) == 4 && Pow2(3) == 8
    ensures Pow2(4) == 16 && Pow2(5) == 32 && Pow2(6) == 64 && Pow2(7) == 128
    ensures Pow2(8) == 256 && Pow2(9) == 512 && Pow2(10) == 1024 && Pow2(11) == 2048
    ensures Pow2(12) == 4096 && Pow2(13) == 8192 && Pow2(14) == 16384 && Pow2(15) == 32768 && Pow2(16) == 65536
  {
  }

  lemma SixteenthNear(k: nat)
    requires k <= 16
    ensures Near(Pow2(k), Sixteenth(k))
  {
    hide Near, Pow2;
    PowersTo16();
    NearFirstQuarter();
    NearSecondQuarter();
    NearThirdQuarter();
    NearFourthQuarter();
    match k
    case 0 => case 1 => case 2 => case 3 => case 4 => case 5 => case 6 => case 7 => case 8 =>
    case 9 => case 10 => case 11 => case 12 => case 13 => case 14 => case 15 => case 16 =>
  }

  /**
   The factor of any fraction lies, within 0.02 %, between 2 to the k and 2 to the
   k + 1 sixteenths, where k sixteenths is the fraction rounded down: as an
   exponent it is off by no more than that and a sixteenth of a half-life.
   */
  lemma FactorTracks(fraction: nat)
    requires fraction < RADIX
    ensures var k := fraction / STEP;
            Pow2(k) * Pow16(4999 * RADIX) <= Pow16(5000 * Factor(fraction)) <= Pow2(k + 1) * Pow16(5001 * RADIX)
  {
    hide Factor, Pow16, Sixteenth, Pow2;
    var k := fraction / STEP;
    SixteenthIs(k);
    SixteenthIs(k + 1);
    FactorMonotone(k * STEP, fraction);
    FactorMonotone(fraction, (k + 1) * STEP);
    SixteenthNear(k);
    SixteenthNear(k + 1);
    Pow16Monotone(5000 * Sixteenth(k), 5000 * Factor(fraction));
    Pow16Monotone(5000 * Factor(fraction), 5000 * Sixteenth(k + 1));
  }
}
