/** The BF16 offset-norm round trip (`scripts/audit_weight_quantization.py` lines 323-332) in exact arithmetic.
    Values are counted in units of 2^-149, the least FP32 subnormal; rounding is roundTiesToEven (section 4.3.1 of
    IEEE 754-2019). The two zeros are one value here, as they are for `torch.equal`. */
module Bf16 {

  function Pow2(n: nat): (r: nat)
    ensures r > n
  {
    if n == 0 then 1 else 2 * Pow2(n - 1)
  }

  lemma {:induction false} Pow2Sum(a: nat, b: nat)
    ensures Pow2(a + b) == Pow2(a) * Pow2(b)
  {
    if b > 0 {
      Pow2Sum(a, b - 1);
      assert Pow2(a + b) == 2 * Pow2(a + (b - 1)) == 2 * (Pow2(a) * Pow2(b - 1)) == Pow2(a) * (2 * Pow2(b - 1));
    }
  }

  lemma {:induction false} Pow2Grows(a: nat, b: nat)
    requires a <= b
    ensures Pow2(a) <= Pow2(b)
  {
    if a < b {
      Pow2Grows(a, b - 1);
    }
  }

  /** A binary format: significand bits, and the exponent of its least unit. */
  datatype Format = Format(precision: nat, least: nat)

  function BF16(): Format { Format(8, 16) }

  function FP32(): Format { Format(24, 0) }

  /** 1.0, that is 2^149 units. */
  const ONE: int := 0x20_0000_0000_0000_0000_0000_0000_0000_0000_0000

  function Abs(x: int): nat { if x < 0 then -x else x }

  /** The exponent of the unit in the last place of magnitude `a`, not below `e`. */
  function Exponent(a: nat, precision: nat, e: nat): (r: nat)
    ensures e <= r && a < Pow2(r + precision)
    ensures r == e || Pow2(r + precision - 1) <= a
    decreases a - e
  {
    if a < Pow2(e + precision) then e else Exponent(a, precision, e + 1)
  }

  function Ulp(x: int, f: Format): (u: nat)
    ensures u > 0
  {
    Pow2(Exponent(Abs(x), f.precision, f.least))
  }

  /** `a` rounded to a multiple of `u`, two units at a time: ties go to the even multiple. */
  function Nearest(a: nat, u: nat): (r: int)
    requires u > 0
    ensures r >= 0
  {
    if a >= 2 * u then Nearest(a - 2 * u, u) + 2 * u
    else if 2 * a <= u then 0
    else if 2 * a < 3 * u then u
    else 2 * u
  }

  function Round(x: int, f: Format): int {
    if x < 0 then -Nearest(-x, Ulp(x, f)) else Nearest(x, Ulp(x, f))
  }

  predicate Representable(x: int, f: Format) {
    Round(x, f) == x
  }

  /** `bf16(fp32(bf16(fp32(w) + 1)) - 1)`, every step rounded as the code does. */
  function Gain(w: int): int {
    Round(Round(w + ONE, FP32()), BF16())
  }

  function RoundTrip(w: int): int {
    Round(Round(Gain(w) - ONE, FP32()), BF16())
  }

  /** The offsets in question: BF16 values from -256 to 256. */
  predicate Offset(w: int) {
    Representable(w, BF16()) && Abs(w) <= 256 * ONE
  }

  /** Those whose gain is neither negative nor past 256. */
  predicate NearOffset(w: int) {
    Representable(w, BF16()) && -ONE <= w < 255 * ONE
  }

  // ----- rounding to multiples of a unit -----

  /** Rounding to a multiple is to the nearest one, and of two nearest ones to the even one. */
  lemma {:induction false} NearestIsNearestEven(a: nat, u: nat) returns (k: nat)
    requires u > 0
    ensures Nearest(a, u) == k * u
    ensures -(u as int) <= 2 * (Nearest(a, u) - a) <= u
    ensures Abs(2 * (Nearest(a, u) - a)) == u ==> k % 2 == 0
    decreases a
  {
    if a >= 2 * u {
      var less := NearestIsNearestEven(a - 2 * u, u);
      k := less + 2;
      Distribute(less, 2, u);
    } else {
      k := if 2 * a <= u then 0 else if 2 * a < 3 * u then 1 else 2;
    }
  }

  lemma {:induction false} Distribute(a: int, b: int, u: int)
    ensures (a + b) * u == a * u + b * u && (a - b) * u == a * u - b * u
  {
  }

  lemma {:induction false} MultipleIsNearest(m: nat, u: nat)
    requires u > 0
    ensures Nearest(m * u, u) == m * u
  {
    if m >= 2 {
      MultipleIsNearest(m - 2, u);
      assert m * u == (m - 2) * u + 2 * u;
    }
  }

  lemma {:induction false} NearestOrdered(a: nat, b: nat, u: nat)
    requires u > 0 && a <= b
    ensures Nearest(a, u) <= Nearest(b, u)
    decreases a
  {
    if a >= 2 * u {
      NearestOrdered(a - 2 * u, b - 2 * u, u);
    }
  }

  // ----- units -----

  lemma {:induction false} ExponentIs(a: nat, precision: nat, e: nat, j: nat)
    requires precision >= 1 && e <= j && a < Pow2(j + precision) && (j == e || Pow2(j + precision - 1) <= a)
    ensures Exponent(a, precision, e) == j
  {
    var r := Exponent(a, precision, e);
    if r < j {
      Pow2Grows(r + precision, j + precision - 1);
      assert false;
    } else if r > j {
      Pow2Grows(j + precision, r + precision - 1);
      assert false;
    }
  }

  lemma {:induction false} ExponentOrdered(a: nat, b: nat, precision: nat, e: nat)
    requires precision >= 1 && a <= b
    ensures Exponent(a, precision, e) <= Exponent(b, precision, e)
  {
    var r, s := Exponent(a, precision, e), Exponent(b, precision, e);
    if s < r {
      Pow2Grows(s + precision, r + precision - 1);
      assert false;
    }
  }

  /** A short multiple of a large enough power of two is a value of the format. */
  lemma {:induction false} ShortMultiple(x: int, k: nat, j: nat, f: Format)
    requires f.precision >= 1 && f.least <= j && Abs(x) == k * Pow2(j) && Abs(x) < Pow2(j + f.precision)
    ensures Representable(x, f)
  {
    var r := Exponent(Abs(x), f.precision, f.least);
    ExponentAtMost(Abs(x), f.precision, f.least, j);
    var m := InFinerUnits(Abs(x), k, j, r);
    MultipleOfUnit(x, m, r, f);
  }

  lemma {:induction false} InFinerUnits(a: nat, k: nat, j: nat, r: nat) returns (m: nat)
    requires r <= j && a == k * Pow2(j)
    ensures a == m * Pow2(r)
  {
    FinerMultiple(k, j, r);
    m := k * Pow2(j - r);
  }

  lemma {:induction false} MultipleOfUnit(x: int, m: nat, r: nat, f: Format)
    requires r == Exponent(Abs(x), f.precision, f.least) && Abs(x) == m * Pow2(r)
    ensures Representable(x, f)
  {
    MultipleIsNearest(m, Pow2(r));
  }

  lemma {:induction false} FinerMultiple(k: nat, j: nat, r: nat)
    requires r <= j
    ensures k * Pow2(j) == k * Pow2(j - r) * Pow2(r)
  {
    Pow2Sum(j - r, r);
    Reassociated(k, Pow2(j - r), Pow2(r));
  }

  lemma {:induction false} Reassociated(a: int, b: int, c: int)
    ensures a * (b * c) == a * b * c
  {
  }

  lemma {:induction false} ExponentAtMost(a: nat, precision: nat, e: nat, j: nat)
    requires precision >= 1 && e <= j && a < Pow2(j + precision)
    ensures Exponent(a, precision, e) <= j
  {
    var r := Exponent(a, precision, e);
    if r > j {
      Pow2Grows(j + precision, r + precision - 1);
      assert false;
    }
  }

  /** What rounding yields is a value of the format. */
  lemma {:induction false} RoundYieldsValue(x: int, f: Format)
    requires f.precision >= 1
    ensures Representable(Round(x, f), f)
  {
    var a := Abs(x);
    var r := Exponent(a, f.precision, f.least);
    var k := NearestIsNearestEven(a, Pow2(r));
    NearestBelowTop(a, r, f.precision);
    var y := Round(x, f);
    if k * Pow2(r) < Pow2(r + f.precision) {
      ShortMultiple(y, k, r, f);
    } else {
      TopIsShort(y, r, f);
    }
  }

  lemma {:induction false} TopIsShort(y: int, r: nat, f: Format)
    requires f.precision >= 1 && f.least <= r && Abs(y) == Pow2(r + f.precision)
    ensures Representable(y, f)
  {
    Pow2Sum(f.precision - 1, r + 1);
    ShortMultiple(y, Pow2(f.precision - 1), r + 1, f);
  }

  lemma {:induction false} NearestBelowTop(a: nat, r: nat, p: nat)
    requires a <= Pow2(r + p)
    ensures Nearest(a, Pow2(r)) <= Pow2(r + p)
  {
    Pow2Sum(p, r);
    MultipleIsNearest(Pow2(p), Pow2(r));
    NearestOrdered(a, Pow2(r + p), Pow2(r));
  }

  lemma {:induction false} NearestAboveBottom(a: nat, r: nat, p: nat)
    requires a >= Pow2(r + p)
    ensures Nearest(a, Pow2(r)) >= Pow2(r + p)
  {
    Pow2Sum(p, r);
    MultipleIsNearest(Pow2(p), Pow2(r));
    NearestOrdered(Pow2(r + p), a, Pow2(r));
  }

  /** Rounding keeps order. */
  lemma {:induction false} RoundOrdered(x: int, y: int, f: Format)
    requires f.precision >= 1 && x <= y
    ensures Round(x, f) <= Round(y, f)
  {
    if 0 <= x {
      MagnitudesOrdered(x, y, f);
    } else if y < 0 {
      MagnitudesOrdered(-y, -x, f);
    }
  }

  lemma {:induction false} MagnitudesOrdered(a: nat, b: nat, f: Format)
    requires f.precision >= 1 && a <= b
    ensures Nearest(a, Ulp(a, f)) <= Nearest(b, Ulp(b, f))
  {
    var r, s := Exponent(a, f.precision, f.least), Exponent(b, f.precision, f.least);
    ExponentOrdered(a, b, f.precision, f.least);
    InUnitsOrdered(a, b, f.precision, f.least, r, s);
  }

  lemma {:induction false} InUnitsOrdered(a: nat, b: nat, p: nat, e: nat, r: nat, s: nat)
    requires p >= 1 && a <= b && e <= r <= s && a < Pow2(r + p) && (s == e || Pow2(s + p - 1) <= b)
    ensures Nearest(a, Pow2(r)) <= Nearest(b, Pow2(s))
  {
    if r == s {
      NearestOrdered(a, b, Pow2(r));
    } else {
      UnitsApart(a, b, r, s, p);
    }
  }

  lemma {:induction false} UnitsApart(a: nat, b: nat, r: nat, s: nat, p: nat)
    requires p >= 1 && r < s && a <= Pow2(r + p) && Pow2(s + (p - 1)) <= b
    ensures Nearest(a, Pow2(r)) <= Nearest(b, Pow2(s))
  {
    NearestBelowTop(a, r, p);
    Pow2Grows(r + p, s + (p - 1));
    NearestAboveBottom(b, s, p - 1);
  }

  // ----- the numbers near one -----

  /** Everything near one is counted in `t` = 2^-24. */
  lemma {:induction false} Scale(n: nat) returns (t: nat)
    requires n == 125
    ensures t == Pow2(n) > 0 && Pow2(n + 1) == 2 * t && Pow2(n + 8) == 256 * t
    ensures Pow2(n + 15) == 32768 * t && Pow2(n + 16) == 65536 * t && Pow2(n + 17) == 131072 * t
    ensures Pow2(n + 23) == 8388608 * t && Pow2(n + 24) == 16777216 * t == ONE && Pow2(n + 25) == 33554432 * t
    ensures Pow2(n + 32) == 4294967296 * t
  {
    t := Pow2(n);
    Doublings(n, 1); Doublings(n, 8); Doublings(n, 15); Doublings(n, 16); Doublings(n, 17);
    Doublings(n, 23); Doublings(n, 24); Doublings(n, 25); Doublings(n, 32);
    SmallPowers();
    OneIsPower(n);
  }

  lemma {:induction false} Doublings(n: nat, d: nat)
    ensures Pow2(n + d) == Pow2(d) * Pow2(n)
  {
    Pow2Sum(n, d);
  }

  lemma {:induction false} SmallPowers()
    ensures Pow2(1) == 2 && Pow2(8) == 256 && Pow2(15) == 32768 && Pow2(16) == 65536 && Pow2(17) == 131072
    ensures Pow2(23) == 8388608 && Pow2(24) == 16777216 && Pow2(25) == 33554432 && Pow2(32) == 4294967296
  {
  }

  lemma {:induction false} OneIsPower(n: nat)
    requires n == 125
    ensures 16777216 * Pow2(n) == ONE
  {
    var m := n - 100;
    SmallPowers();
    Pow2Sum(m, m);
    Pow2Sum(2 * m, m);
    Pow2Sum(3 * m, m);
    Pow2Sum(4 * m, m);
    assert m == 25 && Pow2(m) == 33554432;
    assert n == 4 * m + m;
  }

  /** Which numbers round to a given multiple. */
  lemma {:induction false} NearestExactly(a: nat, u: nat, m: nat)
    requires u > 0
    ensures Nearest(a, u) == m * u
       <==> Abs(2 * (a - m * u)) < u || (Abs(2 * (a - m * u)) == u && m % 2 == 0)
    decreases a
  {
    NearestAt(a, u, m, m * u);
  }

  lemma {:induction false} NearestAt(a: nat, u: nat, m: nat, mu: nat)
    requires u > 0 && mu == m * u
    ensures Nearest(a, u) == mu <==> Abs(2 * (a - mu)) < u || (Abs(2 * (a - mu)) == u && m % 2 == 0)
    decreases a
  {
    if a >= 2 * u && m >= 2 {
      TwoLess(m, u, mu);
      NearestAt(a - 2 * u, u, m - 2, mu - 2 * u);
    } else if m >= 3 {
      TwoLess(m, u, mu);
      TwoLess(m - 1, u, mu - u);
    }
  }

  lemma {:induction false} TwoLess(m: nat, u: nat, mu: nat)
    requires m >= 2 && mu == m * u
    ensures mu - 2 * u == (m - 2) * u >= 0 && mu - u == (m - 1) * u
  {
    Distribute(m, 2, u);
    Distribute(m, 1, u);
  }

  /** Which numbers round to one: down to half a unit below, up to half a (twice as large) unit above. */
  lemma {:induction false} RoundsToOne(x: int)
    requires x >= 0
    ensures Round(x, BF16()) == ONE <==> ONE - ONE / 512 <= x <= ONE + ONE / 256
  {
    var n := 125;
    var t := Scale(n);
    if x < 8388608 * t {
      Half(t);
      RoundOrdered(x, 8388608 * t, BF16());
    } else if x < 16777216 * t {
      ExponentIs(x, 8, 16, n + 16);
      NearestExactly(x, 65536 * t, 256);
    } else if x < 33554432 * t {
      ExponentIs(x, 8, 16, n + 17);
      NearestExactly(x, 131072 * t, 128);
    } else {
      Double(t);
      RoundOrdered(33554432 * t, x, BF16());
    }
  }

  lemma {:induction false} Half(t: nat)
    requires t == Pow2(125)
    ensures Representable(8388608 * t, BF16())
  {
    var n := 125;
    var t' := Scale(n);
    ShortMultiple(8388608 * t, 128, n + 16, BF16());
  }

  lemma {:induction false} Double(t: nat)
    requires t == Pow2(125)
    ensures Representable(33554432 * t, BF16())
  {
    var n := 125;
    var t' := Scale(n);
    ShortMultiple(33554432 * t, 2, n + 24, BF16());
  }

  // ----- the steps of the round trip -----

  /** A value as a short multiple of its own unit. */
  lemma {:induction false} UnitOf(x: int, f: Format) returns (k: nat, j: nat)
    requires Representable(x, f) && f.precision >= 1
    ensures j == Exponent(Abs(x), f.precision, f.least) && Abs(x) == k * Pow2(j)
  {
    j := Exponent(Abs(x), f.precision, f.least);
    k := NearestIsNearestEven(Abs(x), Pow2(j));
  }

  /** An offset far from zero: its sum with one needs no rounding in FP32. */
  lemma {:induction false} WideSumExact(w: int, k: nat, j: nat, n: nat)
    requires n == 125 && n < j <= n + 24 && Abs(w) == k * Pow2(j) && Abs(w) < Pow2(j + 8) && w >= -ONE
    ensures Representable(w + ONE, FP32())
  {
    var t := Scale(n);
    var c := ShiftedMultiple(w, k, j, n);
    Pow2Grows(n + 24, j + 23);
    Pow2Grows(j + 8, j + 23);
    ShortMultiple(w + ONE, c, j, FP32());
  }

  /** One more is still a multiple. */
  lemma {:induction false} ShiftedMultiple(w: int, k: nat, j: nat, n: nat) returns (c: nat)
    requires n == 125 && j <= n + 24 && Abs(w) == k * Pow2(j) && w >= -ONE
    ensures w + ONE == c * Pow2(j)
  {
    var t := Scale(n);
    var u, m := Pow2(j), Pow2(n + 24 - j);
    Pow2Sum(n + 24 - j, j);
    assert ONE == m * u;
    Distribute(m, k, u);
    if w >= 0 {
      c := m + k;
    } else {
      MultiplesOrdered(k, m, u);
      c := m - k;
    }
  }

  lemma {:induction false} MultiplesOrdered(k: nat, m: nat, u: nat)
    requires u > 0 && k * u <= m * u
    ensures k <= m
  {
    if k > m {
      LessTimes(m, k, u);
    }
  }

  lemma {:induction false} LessTimes(m: nat, k: nat, u: nat)
    requires u > 0 && m < k
    ensures m * u < k * u
  {
    assert k * u == m * u + (k - m) * u && (k - m) * u > 0;
  }

  /** An offset near zero disappears, in FP32 and BF16 or in BF16 at once. */
  lemma {:induction false} NarrowSumIsOne(w: int, n: nat)
    requires n == 125 && Abs(w) < Pow2(n + 8)
    ensures Round(w + ONE, BF16()) == ONE == Gain(w)
  {
    var t := Scale(n);
    var lo, hi := ONE - 256 * t, ONE + 256 * t;
    ShortMultiple(lo, 16776960, n, FP32());
    ShortMultiple(hi, 8388736, n + 1, FP32());
    RoundOrdered(lo, w + ONE, FP32());
    RoundOrdered(w + ONE, hi, FP32());
    RoundsToOne(w + ONE);
    RoundsToOne(Round(w + ONE, FP32()));
  }

  lemma {:induction false} NearNoDoubleRounding(w: int)
    requires NearOffset(w)
    ensures Gain(w) == Round(w + ONE, BF16())
  {
    var n := 125;
    var k, j := NearUnit(w, n);
    if j <= n {
      Pow2Grows(j + 8, n + 8);
      NarrowSumIsOne(w, n);
    } else {
      WideSumExact(w, k, j, n);
      OneRounding(w);
    }
  }

  lemma {:induction false} NearUnit(w: int, n: nat) returns (k: nat, j: nat)
    requires n == 125 && NearOffset(w)
    ensures 16 <= j <= n + 24 && Abs(w) == k * Pow2(j) && Abs(w) < Pow2(j + 8)
  {
    var t := Scale(n);
    k, j := UnitOf(w, BF16());
    ExponentAtMost(Abs(w), 8, 16, n + 24);
  }

  lemma {:induction false} OneRounding(w: int)
    requires Representable(w + ONE, FP32())
    ensures Gain(w) == Round(w + ONE, BF16())
  {
  }

  lemma {:induction false} NearRestores(w: int)
    requires NearOffset(w)
    ensures Representable(Gain(w) - ONE, FP32()) && Representable(Gain(w) - ONE, BF16())
  {
    var n := 125;
    var t := Scale(n);
    NearNoDoubleRounding(w);
    if w + 8388608 * t <= 0 {
      LowOffset(w, n);
    } else {
      GainIsHigh(w, n);
      HighGain(Gain(w), n);
    }
  }

  lemma {:induction false} LowOffset(w: int, n: nat)
    requires n == 125 && NearOffset(w) && w <= -(Pow2(n + 23) as int)
    ensures Round(w + ONE, BF16()) == w + ONE && Representable(w, FP32()) && Representable(w, BF16())
  {
    var t := Scale(n);
    var k, j := UnitOf(w, BF16());
    ExponentAtMost(Abs(w), 8, 16, n + 24);
    if j < n + 16 {
      Pow2Grows(j + 8, n + 23);
      assert false;
    }
    LowOffsetAt(w, k, j, n);
  }

  lemma {:induction false} LowOffsetAt(w: int, k: nat, j: nat, n: nat)
    requires n == 125 && n + 16 <= j <= n + 24 && Abs(w) == k * Pow2(j) && Abs(w) < Pow2(j + 8)
    requires -ONE <= w <= -(Pow2(n + 23) as int)
    ensures Representable(w + ONE, BF16()) && Representable(w, FP32()) && Representable(w, BF16())
  {
    Pow2Grows(j + 8, j + 24);
    ShortMultiple(w, k, j, FP32());
    ShortMultiple(w, k, j, BF16());
    var c := ShiftedMultiple(w, k, j, n);
    BelowHalf(w, n);
    Pow2Grows(n + 24, j + 8);
    ShortMultiple(w + ONE, c, j, BF16());
  }

  lemma {:induction false} BelowHalf(w: int, n: nat)
    requires n == 125 && -ONE <= w <= -(Pow2(n + 23) as int)
    ensures 0 <= w + ONE <= Pow2(n + 23) < Pow2(n + 24)
  {
    var t := Scale(n);
  }

  lemma {:induction false} GainIsHigh(w: int, n: nat)
    requires n == 125 && NearOffset(w) && w > -(Pow2(n + 23) as int)
    ensures Pow2(n + 23) <= Round(w + ONE, BF16()) <= Pow2(n + 32)
    ensures Representable(Round(w + ONE, BF16()), BF16())
  {
    var t := Scale(n);
    Half(t);
    RoundOrdered(8388608 * t, w + ONE, BF16());
    ShortMultiple(4294967296 * t, 128, n + 25, BF16());
    RoundOrdered(w + ONE, 4294967296 * t, BF16());
    RoundYieldsValue(w + ONE, BF16());
  }

  lemma {:induction false} UnitIsLarge(a: nat, j: nat, e: nat)
    requires a < Pow2(j + 8) && a >= Pow2(e + 7)
    ensures e <= j
  {
    if j < e {
      Pow2Grows(j + 8, e + 7);
    }
  }

  lemma {:induction false} HighGain(g: int, n: nat)
    requires n == 125 && Pow2(n + 23) <= g <= Pow2(n + 32) && Representable(g, BF16())
    ensures Representable(g - ONE, FP32()) && Representable(g - ONE, BF16())
  {
    var t := Scale(n);
    if g == Pow2(n + 32) {
      Pow2Grows(n + 32, n + 48);
      ShortMultiple(g - ONE, 255, n + 24, FP32());
      ShortMultiple(g - ONE, 255, n + 24, BF16());
    } else {
      var k, j := UnitOf(g, BF16());
      ExponentAtMost(g, 8, 16, n + 24);
      UnitIsLarge(g, j, n + 16);
      InsideHighGain(g, k, j, n);
    }
  }

  lemma {:induction false} InsideHighGain(g: nat, k: nat, j: nat, n: nat)
    requires n == 125 && n + 16 <= j <= n + 24 && 0 < g == k * Pow2(j) && g < Pow2(j + 8)
    ensures Representable(g - ONE, FP32()) && Representable(g - ONE, BF16())
  {
    var c := LessOne(g, k, j, n);
    LessOneInRange(g, j, n);
    ShortMultiple(g - ONE, c, j, FP32());
    ShortMultiple(g - ONE, c, j, BF16());
  }

  lemma {:induction false} LessOneInRange(g: nat, j: nat, n: nat)
    requires n == 125 && n + 16 <= j && 0 < g < Pow2(j + 8)
    ensures Abs(g - ONE) < Pow2(j + 8) <= Pow2(j + 24)
  {
    var t := Scale(n);
    Pow2Grows(n + 24, j + 8);
    Pow2Grows(j + 8, j + 24);
  }

  lemma {:induction false} Difference(k: nat, m: nat, u: nat) returns (c: nat)
    ensures Abs(k * u - m * u) == c * u
  {
    if k >= m {
      c := k - m;
      Distribute(k, m, u);
    } else {
      c := m - k;
      Distribute(m, k, u);
    }
  }

  lemma {:induction false} LessOne(g: int, k: nat, j: nat, n: nat) returns (c: nat)
    requires n == 125 && j <= n + 24 && 0 <= g == k * Pow2(j)
    ensures Abs(g - ONE) == c * Pow2(j)
  {
    var t := Scale(n);
    var u, m := Pow2(j), Pow2(n + 24 - j);
    Pow2Sum(n + 24 - j, j);
    assert ONE == m * u;
    c := Difference(k, m, u);
  }

  // ----- the steps far from zero -----

  /** A BF16 value at least as large as a unit's 128-fold is a multiple of that unit. */
  lemma {:induction false} LargeIsMultiple(x: int, e: nat) returns (k: nat)
    requires Representable(x, BF16()) && e >= 16 && Abs(x) >= Pow2(e + 7)
    ensures Abs(x) == k * Pow2(e)
  {
    var m, j := OwnUnit(x);
    k := CoarserIsMultiple(Abs(x), m, j, e);
  }

  lemma {:induction false} OwnUnit(x: int) returns (m: nat, j: nat)
    requires Representable(x, BF16())
    ensures j >= 16 && Abs(x) == m * Pow2(j) && Abs(x) < Pow2(j + 8)
  {
    m, j := UnitOf(x, BF16());
  }

  lemma {:induction false} CoarserIsMultiple(a: nat, m: nat, j: nat, e: nat) returns (k: nat)
    requires a == m * Pow2(j) && Pow2(e + 7) <= a < Pow2(j + 8)
    ensures a == k * Pow2(e)
  {
    UnitIsLarge(a, j, e);
    FinerMultiple(m, j, e);
    k := m * Pow2(j - e);
  }

  lemma {:induction false} OneIsPow(n: nat)
    requires n == 149
    ensures ONE == Pow2(n) && Pow2(n + 1) == 2 * ONE && Pow2(n + 7) == 128 * ONE
    ensures Pow2(n + 8) == 256 * ONE && Pow2(n + 9) == 512 * ONE
  {
    var t := Scale(n - 24);
    assert n - 24 + 24 == n && n - 24 + 25 == n + 1 && n - 24 + 32 == n + 8;
    assert Pow2(n + 9) == 2 * Pow2(n + 8) && Pow2(n + 8) == 2 * Pow2(n + 7);
  }

  /** A small whole number is a value of both formats. */
  lemma {:induction false} SmallWhole(x: int, c: int, n: nat)
    requires n == 149 && x == c * ONE && -256 <= c <= 256
    ensures Representable(x, BF16()) && Representable(x, FP32())
  {
    OneIsPow(n);
    Pow2Grows(n + 8, n + 24);
    Pow2Grows(n + 9, n + 25);
    if Abs(c) == 256 {
      ShortMultiple(x, 128, n + 1, BF16());
      ShortMultiple(x, 128, n + 1, FP32());
    } else {
      ShortMultiple(x, Abs(c), n, BF16());
      ShortMultiple(x, Abs(c), n, FP32());
    }
  }

  /** Below -1 nothing is rounded. */
  lemma {:induction false} BelowMinusOne(w: int, n: nat)
    requires n == 149 && Offset(w) && w < -ONE
    ensures Representable(w, FP32()) && Representable(w + ONE, FP32()) && Representable(w + ONE, BF16())
  {
    if w == -256 * ONE {
      SmallWhole(w, -256, n);
      SmallWhole(w + ONE, -255, n);
    } else {
      OneIsPow(n);
      var k, j := UnitOf(w, BF16());
      ExponentAtMost(Abs(w), 8, 16, n);
      InsideMinus256(w, k, j, n);
    }
  }

  lemma {:induction false} InsideMinus256(w: int, k: nat, j: nat, n: nat)
    requires n == 149 && 16 <= j <= n && Abs(w) == k * Pow2(j) && Abs(w) < Pow2(j + 8) && w < -ONE
    ensures Representable(w, FP32()) && Representable(w + ONE, FP32()) && Representable(w + ONE, BF16())
  {
    Pow2Grows(j + 8, j + 24);
    ShortMultiple(w, k, j, FP32());
    var c := LessOneOf(Abs(w), k, j, n);
    ShortMultiple(w + ONE, c, j, FP32());
    ShortMultiple(w + ONE, c, j, BF16());
  }

  lemma {:induction false} LessOneOf(a: nat, k: nat, j: nat, n: nat) returns (c: nat)
    requires n == 149 && j <= n && a == k * Pow2(j) && a >= ONE
    ensures a - ONE == c * Pow2(j)
  {
    OneIsPow(n);
    Pow2Sum(n - j, j);
    MultiplesOrdered(Pow2(n - j), k, Pow2(j));
    Distribute(k, Pow2(n - j), Pow2(j));
    c := k - Pow2(n - j);
  }

  /** The two offsets from 255 to 256. */
  lemma {:induction false} TopOffsets(w: int, n: nat)
    requires n == 149 && Offset(w) && w >= 255 * ONE
    ensures Gain(w) == Round(w + ONE, BF16()) == 256 * ONE
  {
    TopIsWhole(w, n);
    if w == 256 * ONE {
      Above256(w + ONE, n);
    } else {
      SmallWhole(w + ONE, 256, n);
    }
  }

  lemma {:induction false} TopIsWhole(w: int, n: nat)
    requires n == 149 && Offset(w) && w >= 255 * ONE
    ensures w == 255 * ONE || w == 256 * ONE
  {
    OneIsPow(n);
    var k := LargeIsMultiple(w, n);
    WholeBetween(k, ONE, 255, 256);
  }

  /** 257 is half way between two values, and goes to the even one. */
  lemma {:induction false} Above256(x: int, n: nat)
    requires n == 149 && x == 257 * ONE
    ensures Representable(x, FP32()) && Round(x, BF16()) == 256 * ONE
  {
    OneIsPow(n);
    Pow2Grows(n + 9, n + 24);
    ShortMultiple(x, 257, n, FP32());
    TieAt128(x, Pow2(n + 1), n + 1);
  }

  lemma {:induction false} TieAt128(x: nat, u: nat, e: nat)
    requires e >= 16 && u == Pow2(e) && 2 * x == 257 * u
    ensures Round(x, BF16()) == 128 * u
  {
    Pow2Sum(e, 7);
    Pow2Sum(e, 8);
    SmallPowers();
    assert Pow2(7) == 128;
    ExponentIs(x, 8, 16, e);
    NearestExactly(x, u, 128);
  }

  lemma {:induction false} WholeBetween(k: nat, u: nat, lo: nat, hi: nat)
    requires u > 0 && lo * u <= k * u <= hi * u
    ensures lo <= k <= hi
  {
    if k < lo { LessTimes(k, lo, u); }
    if k > hi { LessTimes(hi, k, u); }
  }

  /** Rounding to FP32 before rounding to BF16 changes nothing. (`Bf16Far` has this for every BF16 value.) */
  lemma {:induction false} NoDoubleRounding(w: int)
    requires Offset(w)
    ensures Gain(w) == Round(w + ONE, BF16())
  {
    if w < -ONE {
      BelowMinusOne(w, 149);
    } else if w >= 255 * ONE {
      TopOffsets(w, 149);
    } else {
      NearNoDoubleRounding(w);
    }
  }

  /** The subtraction restores the gain exactly: it rounds neither in FP32 nor in BF16. */
  lemma {:induction false} Restores(w: int)
    requires Offset(w)
    ensures Representable(Gain(w) - ONE, FP32()) && Representable(Gain(w) - ONE, BF16())
    ensures RoundTrip(w) == Gain(w) - ONE
  {
    if w < -ONE {
      BelowMinusOne(w, 149);
    } else if w >= 255 * ONE {
      TopOffsets(w, 149);
      SmallWhole(255 * ONE, 255, 149);
    } else {
      NearRestores(w);
    }
  }

  /** Beyond 256 the gains have a spacing of at least two, so no two of them are one apart. */
  lemma {:induction false} NoNeighbours(g: int, h: int, n: nat)
    requires n == 149 && Representable(g, BF16()) && Representable(h, BF16())
    requires g <= -256 * ONE || g - ONE >= 256 * ONE
    ensures h != g - ONE
  {
    if h == g - ONE {
      OneIsPow(n);
      var k := LargeIsMultiple(g, n + 1);
      var l := LargeIsMultiple(h, n + 1);
      NotOneApart(Abs(g), Abs(h), k, l, ONE);
    }
  }

  lemma {:induction false} NotOneApart(a: nat, b: nat, k: nat, l: nat, u: nat)
    requires u > 0 && a == k * (2 * u) && b == l * (2 * u)
    ensures a != b + u && b != a + u
  {
    Distribute(k, l, 2 * u);
    NotATwofold(k - l, u);
    NotATwofold(l - k, u);
    assert (l - k) * (2 * u) == l * (2 * u) - k * (2 * u);
  }

  lemma {:induction false} NotATwofold(d: int, u: nat)
    requires u > 0
    ensures d * (2 * u) != u
  {
    if d >= 1 {
      assert d * (2 * u) == 2 * u + (d - 1) * (2 * u);
    } else {
      assert d * (2 * u) == -((-d) * (2 * u));
    }
  }

  lemma {:induction false} FarGain(w: int, n: nat)
    requires n == 149 && Representable(w, BF16()) && Abs(w) > 256 * ONE
    ensures Gain(w) <= -256 * ONE || Gain(w) - ONE >= 256 * ONE
  {
    FarIsPast258(w, n);
    if w > 0 {
      FarGainAbove(w, n);
    } else {
      FarGainBelow(w, n);
    }
  }

  lemma {:induction false} FarGainAbove(w: int, n: nat)
    requires n == 149 && w >= 258 * ONE
    ensures Gain(w) >= 258 * ONE
  {
    PastBound(258 * ONE, n);
    RoundsTwiceAbove(258 * ONE, w + ONE);
  }

  lemma {:induction false} FarGainBelow(w: int, n: nat)
    requires n == 149 && w <= -258 * ONE
    ensures Gain(w) <= -256 * ONE
  {
    SmallWhole(-256 * ONE, -256, n);
    RoundsTwiceBelow(w + ONE, -256 * ONE);
  }

  lemma {:induction false} FarIsPast258(w: int, n: nat)
    requires n == 149 && Representable(w, BF16()) && Abs(w) > 256 * ONE
    ensures Abs(w) >= 258 * ONE
  {
    OneIsPow(n);
    var k := LargeIsMultiple(w, n + 1);
    WholeAbove(k, 2 * ONE, 128);
  }

  lemma {:induction false} PastBound(bound: int, n: nat)
    requires n == 149 && bound == 258 * ONE
    ensures Representable(bound, BF16()) && Representable(bound, FP32())
  {
    OneIsPow(n);
    Pow2Grows(n + 9, n + 25);
    ShortMultiple(bound, 129, n + 1, BF16());
    ShortMultiple(bound, 129, n + 1, FP32());
  }

  lemma {:induction false} RoundsTwiceAbove(bound: int, x: int)
    requires Representable(bound, BF16()) && Representable(bound, FP32()) && bound <= x
    ensures bound <= Round(Round(x, FP32()), BF16())
  {
    RoundOrdered(bound, x, FP32());
    RoundOrdered(bound, Round(x, FP32()), BF16());
  }

  lemma {:induction false} RoundsTwiceBelow(x: int, bound: int)
    requires Representable(bound, BF16()) && Representable(bound, FP32()) && x <= bound
    ensures Round(Round(x, FP32()), BF16()) <= bound
  {
    RoundOrdered(x, bound, FP32());
    RoundOrdered(Round(x, FP32()), bound, BF16());
  }

  lemma {:induction false} GainIsValue(w: int)
    ensures Representable(Gain(w), BF16()) && Representable(RoundTrip(w), BF16())
  {
    RoundYieldsValue(Round(w + ONE, FP32()), BF16());
    RoundYieldsValue(Round(Gain(w) - ONE, FP32()), BF16());
  }

  lemma {:induction false} WholeAbove(k: nat, u: nat, lo: nat)
    requires u > 0 && lo * u < k * u
    ensures (lo + 1) * u <= k * u
  {
    if k <= lo {
      if k < lo { LessTimes(k, lo, u); }
      assert false;
    }
    if lo + 1 < k { LessTimes(lo + 1, k, u); }
  }

  // ----- the round trip -----

  /** MAIN: of all BF16 values, those from -256 to 256 are exactly the ones for which taking one off the gain again
      rounds nothing. */
  lemma {:induction false} ExactFrom256To256(w: int)
    requires Representable(w, BF16())
    ensures RoundTrip(w) == Gain(w) - ONE <==> Abs(w) <= 256 * ONE
  {
    if Abs(w) <= 256 * ONE {
      Restores(w);
    } else {
      FarGain(w, 149);
      GainIsValue(w);
      NoNeighbours(Gain(w), RoundTrip(w), 149);
    }
  }

  /** MAIN: the restored offset is the gain less one, so it is off by at most half a unit of the gain, and is
      the stored offset exactly if the gain needed no rounding. */
  lemma {:induction false} RoundTripError(w: int)
    requires Offset(w)
    ensures RoundTrip(w) == Gain(w) - ONE
    ensures 2 * Abs(RoundTrip(w) - w) <= Ulp(w + ONE, BF16())
    ensures RoundTrip(w) == w <==> Representable(w + ONE, BF16())
  {
    Restores(w);
    NoDoubleRounding(w);
    var k := NearestIsNearestEven(Abs(w + ONE), Ulp(w + ONE, BF16()));
  }

  /** A second round trip changes nothing. (`Bf16Far` has this for every BF16 value.) */
  lemma {:induction false} RoundTripIdempotent(w: int)
    requires Offset(w)
    ensures RoundTrip(RoundTrip(w)) == RoundTrip(w)
  {
    Restores(w);
    var g := Gain(w);
    RoundYieldsValue(Round(w + ONE, FP32()), BF16());
    var k, j := UnitOf(g, BF16());
    Pow2Grows(j + 8, j + 24);
    ShortMultiple(g, k, j, FP32());
    assert Gain(RoundTrip(w)) == g;
  }

  /** MAIN: the round trip keeps the order of offsets. */
  lemma {:induction false} RoundTripOrdered(w: int, w': int)
    requires w <= w'
    ensures RoundTrip(w) <= RoundTrip(w')
  {
    RoundOrdered(w + ONE, w' + ONE, FP32());
    RoundOrdered(Round(w + ONE, FP32()), Round(w' + ONE, FP32()), BF16());
    RoundOrdered(Gain(w) - ONE, Gain(w') - ONE, FP32());
    RoundOrdered(Round(Gain(w) - ONE, FP32()), Round(Gain(w') - ONE, FP32()), BF16());
  }

  /** MAIN: exactly the BF16 values from -2^-9 to 2^-8 are lost altogether. */
  lemma {:induction false} LostExactly(w: int)
    requires Representable(w, BF16())
    ensures RoundTrip(w) == 0 <==> -ONE / 512 <= w <= ONE / 256
  {
    if Abs(w) <= 256 * ONE {
      LostOffset(w);
    } else {
      FarIsNotLost(w);
    }
  }

  lemma {:induction false} FarIsNotLost(w: int)
    requires Abs(w) > 256 * ONE
    ensures RoundTrip(w) != 0
  {
    EdgesKept();
    if w > 0 {
      RoundTripOrdered(256 * ONE, w);
    } else {
      RoundTripOrdered(w, -256 * ONE);
    }
  }

  lemma {:induction false} EdgesKept()
    ensures RoundTrip(256 * ONE) == 255 * ONE && RoundTrip(-256 * ONE) == -256 * ONE
  {
    SmallWhole(256 * ONE, 256, 149);
    SmallWhole(-256 * ONE, -256, 149);
    TopOffsets(256 * ONE, 149);
    BelowMinusOne(-256 * ONE, 149);
    Restores(256 * ONE);
    Restores(-256 * ONE);
  }

  lemma {:induction false} LostOffset(w: int)
    requires Offset(w)
    ensures RoundTrip(w) == 0 <==> -ONE / 512 <= w <= ONE / 256
  {
    Restores(w);
    GainIsOne(w);
  }

  lemma {:induction false} GainIsOne(w: int)
    requires Offset(w)
    ensures Gain(w) == ONE <==> -ONE / 512 <= w <= ONE / 256
  {
    NoDoubleRounding(w);
    if w + ONE >= 0 {
      RoundsToOne(w + ONE);
    }
    assert ONE % 512 == 0;
  }
}
