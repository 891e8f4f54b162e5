/** The offset-norm round trip beyond 256, where adding or taking off one rounds, and what so holds of every BF16
    value. */
module Bf16Far {
  import opened Bf16

  /** Through FP32 to BF16, as every step of the code rounds. */
  function Twice(x: int): int {
    Round(Round(x, FP32()), BF16())
  }

  // ----- a quarter of a unit is too little -----

  /** A large BF16 value in its own units of `4 * v`. */
  predicate InUnits(a: nat, m: nat, v: nat, j: nat) {
    j >= 19 && v == Pow2(j - 2) && a == m * (4 * v) && 128 <= m <= 255
  }

  lemma {:induction false} FarUnit(x: int, n: nat) returns (m: nat, j: nat)
    requires n == 149 && Representable(x, BF16()) && Abs(x) >= 256 * ONE
    ensures j > n && InUnits(Abs(x), m, Pow2(j - 2), j)
  {
    OneIsPow(n);
    m, j := UnitOf(x, BF16());
    UnitIsLarge(Abs(x), j, n + 1);
    InQuarters(Abs(x), m, j);
  }

  lemma {:induction false} InQuarters(a: nat, m: nat, j: nat)
    requires j >= 19 && a == m * Pow2(j) && Pow2(j + 7) <= a < Pow2(j + 8)
    ensures InUnits(a, m, Pow2(j - 2), j)
  {
    var u := Pow2(j);
    Pow2Sum(7, j);
    Pow2Sum(8, j);
    SevenAndEight();
    CountOfUnits(a, m, u);
    assert u == 2 * Pow2(j - 1) && Pow2(j - 1) == 2 * Pow2(j - 2);
  }

  lemma {:induction false} SevenAndEight()
    ensures Pow2(6) == 64 && Pow2(7) == 128 && Pow2(8) == 256
  {
  }

  lemma {:induction false} CountOfUnits(a: nat, m: nat, u: nat)
    requires u > 0 && a == m * u && 128 * u <= a < 256 * u
    ensures 128 <= m <= 255
  {
    if m < 128 { LessTimes(m, 128, u); }
    if m > 255 { LessTimes(255, m, u); WholeAbove(m, u, 255); }
  }

  lemma {:induction false} Powers(v: nat, j: nat)
    requires j >= 19 && v == Pow2(j - 2)
    ensures v > 0 && Pow2(j - 1) == 2 * v && Pow2(j) == 4 * v
    ensures Pow2(j + 6) == 256 * v && Pow2(j + 7) == 512 * v && Pow2(j + 8) == 1024 * v
  {
    SevenAndEight();
    assert Pow2(j - 1) == 2 * Pow2(j - 2) && Pow2(j) == 2 * Pow2(j - 1);
    Pow2Sum(6, j);
    Pow2Sum(7, j);
    Pow2Sum(8, j);
  }

  lemma {:induction false} RoundsToMultiple(x: nat, e: nat, u: nat, m: nat, mu: nat)
    requires e >= 16 && u == Pow2(e) && mu == m * u && Pow2(e + 7) <= x < Pow2(e + 8)
    requires Abs(2 * (x - mu)) < u || (Abs(2 * (x - mu)) == u && m % 2 == 0)
    ensures Round(x, BF16()) == mu
  {
    ExponentIs(x, 8, 16, e);
    NearestExactly(x, u, m);
  }

  lemma {:induction false} QuarterBounds(a: nat, m: nat, v: nat)
    requires v > 0 && a == m * (4 * v) && 128 <= m <= 255
    ensures 512 * v <= a <= 1020 * v && (m > 128 ==> a >= 516 * v) && (m == 128 ==> a == 512 * v)
  {
    Distribute(m - 128, 128, 4 * v);
    Distribute(255 - m, m, 4 * v);
    if m > 128 {
      Distribute(m - 129, 129, 4 * v);
    }
  }

  /** A quarter of a unit more rounds back, ... */
  lemma {:induction false} QuarterMore(a: nat, m: nat, v: nat, j: nat)
    requires InUnits(a, m, v, j)
    ensures Round(a + v, BF16()) == a
  {
    Powers(v, j);
    QuarterBounds(a, m, v);
    RoundsToMultiple(a + v, j, 4 * v, m, a);
  }

  /** ... and so does a quarter of a unit less, also across a power of two. */
  lemma {:induction false} QuarterLess(a: nat, m: nat, v: nat, j: nat)
    requires InUnits(a, m, v, j)
    ensures a > v && Round(a - v, BF16()) == a
  {
    Powers(v, j);
    QuarterBounds(a, m, v);
    if m > 128 {
      RoundsToMultiple(a - v, j, 4 * v, m, a);
    } else {
      RoundsToMultiple(a - v, j - 1, 2 * v, 256, a);
    }
  }

  /** Rounding does not look at the sign. */
  lemma {:induction false} Signed(x: int, a: nat, f: Format)
    requires Abs(x) == a
    ensures Round(x, f) == if x == a then Round(a, f) else -Round(a, f)
  {
  }

  lemma {:induction false} FromMagnitude(x: int, y: int, a: nat, b: nat)
    requires (x == a && y == b) || (-x == a && -y == b)
    requires Representable(b, FP32()) && Round(b, BF16()) == a
    ensures Round(y, BF16()) == x == Twice(y)
  {
    Signed(y, b, BF16());
    Signed(y, b, FP32());
  }

  /** The quarters are FP32 values. */
  lemma {:induction false} QuarterIsFp32(x: int, c: nat, v: nat, j: nat)
    requires j >= 19 && v == Pow2(j - 2) && Abs(x) == c * v && c < 1024
    ensures Representable(x, FP32())
  {
    Powers(v, j);
    LessTimes(c, 1024, v);
    Pow2Grows(j + 8, j + 22);
    ShortMultiple(x, c, j - 2, FP32());
  }

  lemma {:induction false} QuartersAreFp32(x: int, m: nat, v: nat, j: nat)
    requires InUnits(Abs(x), m, v, j)
    ensures Representable(x + v, FP32()) && Representable(x - v, FP32())
  {
    var up, down := CountsOfQuarters(x, m, v);
    QuarterIsFp32(x + v, up, v, j);
    QuarterIsFp32(x - v, down, v, j);
  }

  lemma {:induction false} CountsOfQuarters(x: int, m: nat, v: nat) returns (up: nat, down: nat)
    requires Abs(x) == m * (4 * v) && 1 <= m <= 255
    ensures Abs(x + v) == up * v && Abs(x - v) == down * v && up < 1024 && down < 1024
  {
    MoreAndLess(Abs(x), m, v);
    if x >= 0 {
      up, down := 4 * m + 1, 4 * m - 1;
    } else {
      up, down := 4 * m - 1, 4 * m + 1;
    }
  }

  lemma {:induction false} MoreAndLess(a: nat, m: nat, v: nat)
    requires a == m * (4 * v) && m >= 1
    ensures a + v == (4 * m + 1) * v && a - v == (4 * m - 1) * v >= 0
  {
    assert (4 * m - 1) * v == (m - 1) * (4 * v) + 3 * v;
  }

  lemma {:induction false} QuarterUp(x: int, m: nat, v: nat, j: nat)
    requires InUnits(Abs(x), m, v, j)
    ensures Round(x + v, BF16()) == x
  {
    if x >= 0 {
      QuarterMore(x, m, v, j);
    } else {
      QuarterLess(-x, m, v, j);
      Signed(x + v, -x - v, BF16());
    }
  }

  lemma {:induction false} QuarterDown(x: int, m: nat, v: nat, j: nat)
    requires InUnits(Abs(x), m, v, j)
    ensures Round(x - v, BF16()) == x
  {
    if x >= 0 {
      QuarterLess(x, m, v, j);
    } else {
      QuarterMore(-x, m, v, j);
      Signed(x - v, -x + v, BF16());
    }
  }

  lemma {:induction false} Squeezed(lo: int, y: int, hi: int, x: int)
    requires lo <= y <= hi && Round(lo, BF16()) == x == Round(hi, BF16())
    ensures Round(y, BF16()) == x
  {
    RoundOrdered(lo, y, BF16());
    RoundOrdered(y, hi, BF16());
  }

  /** What lies between the quarters around a BF16 value rounds to it, ... */
  lemma {:induction false} StaysPut(x: int, y: int, m: nat, v: nat, j: nat)
    requires InUnits(Abs(x), m, v, j) && x - v <= y <= x + v
    ensures Round(y, BF16()) == x
  {
    QuarterUp(x, m, v, j);
    QuarterDown(x, m, v, j);
    Squeezed(x - v, y, x + v, x);
  }

  lemma {:induction false} BetweenFp32(lo: int, y: int, hi: int)
    requires lo <= y <= hi && Representable(lo, FP32()) && Representable(hi, FP32())
    ensures lo <= Round(y, FP32()) <= hi
  {
    RoundOrdered(lo, y, FP32());
    RoundOrdered(y, hi, FP32());
  }

  /** ... also through FP32, since the quarters are FP32 values. */
  lemma {:induction false} StaysPutTwice(x: int, y: int, m: nat, v: nat, j: nat)
    requires InUnits(Abs(x), m, v, j) && x - v <= y <= x + v
    ensures Twice(y) == x
  {
    QuartersAreFp32(x, m, v, j);
    BetweenFp32(x - v, y, x + v);
    StaysPut(x, Round(y, FP32()), m, v, j);
  }

  // ----- from 256 to 512 -----

  /** An odd whole number between 256 and 512 is half way between two values, and goes to the even one. */
  lemma {:induction false} OddRounds(x: int, c: nat, e: nat, n: nat)
    requires n == 149 && Abs(x) == c * ONE && 257 <= c <= 511 && e % 2 == 0 && (c == 2 * e + 1 || c == 2 * e - 1)
    ensures Round(x, BF16()) == Twice(x) == if x > 0 then 2 * e * ONE else -(2 * e * ONE)
  {
    OddMagnitude(Abs(x), c, e, n);
    FromMagnitude(if x > 0 then 2 * e * ONE else -(2 * e * ONE), x, 2 * e * ONE, Abs(x));
  }

  lemma {:induction false} OddMagnitude(a: nat, c: nat, e: nat, n: nat)
    requires n == 149 && a == c * ONE && 257 <= c <= 511 && e % 2 == 0 && (c == 2 * e + 1 || c == 2 * e - 1)
    ensures Representable(a, FP32()) && Round(a, BF16()) == 2 * e * ONE
  {
    OneIsPow(n);
    Pow2Grows(n + 9, n + 24);
    ShortMultiple(a, c, n, FP32());
    TieToEven(a, c, e, ONE, n + 1);
  }

  lemma {:induction false} TieToEven(a: nat, c: nat, e: nat, u: nat, j: nat)
    requires j >= 19 && u > 0 && Pow2(j) == 2 * u && Pow2(j + 7) == 256 * u && Pow2(j + 8) == 512 * u
    requires a == c * u && 257 <= c <= 511 && e % 2 == 0 && (c == 2 * e + 1 || c == 2 * e - 1)
    ensures Round(a, BF16()) == e * (2 * u)
  {
    TimesBounds(c, u);
    HalfApart(a, c, e, u);
    RoundsToMultiple(a, j, 2 * u, e, e * (2 * u));
  }

  lemma {:induction false} TimesBounds(c: nat, u: nat)
    requires u > 0 && 257 <= c <= 511
    ensures 256 * u <= c * u < 512 * u
  {
    LessTimes(256, c, u);
    LessTimes(c, 512, u);
  }

  lemma {:induction false} HalfApart(a: nat, c: nat, e: nat, u: nat)
    requires a == c * u && (c == 2 * e + 1 || c == 2 * e - 1)
    ensures a == e * (2 * u) + u || a + u == e * (2 * u)
  {
    if c == 2 * e + 1 {
      assert c * u == e * (2 * u) + u;
    } else {
      assert c * u == e * (2 * u) - u;
    }
  }

  /** One more or less than a far value is rounded alike in one step and in two. */
  lemma {:induction false} StepRoundsOnce(x: int, d: int, n: nat)
    requires n == 149 && Representable(x, BF16()) && Abs(x) >= 256 * ONE && (d == ONE || d == -ONE)
    ensures Twice(x + d) == Round(x + d, BF16())
  {
    OneIsPow(n);
    var m, j := FarUnit(x, n);
    if j > n + 1 {
      Pow2Grows(n, j - 2);
      StaysPut(x, x + d, m, Pow2(j - 2), j);
      StaysPutTwice(x, x + d, m, Pow2(j - 2), j);
    } else {
      BelowFiveTwelve(x, d, m, n);
    }
  }

  lemma {:induction false} BelowFiveTwelve(x: int, d: int, m: nat, n: nat)
    requires n == 149 && InUnits(Abs(x), m, Pow2(n - 1), n + 1) && (d == ONE || d == -ONE)
    ensures Representable(x + d, FP32())
  {
    OneIsPow(n);
    Powers(Pow2(n - 1), n + 1);
    var c := if (x > 0) == (d > 0) then 2 * m + 1 else 2 * m - 1;
    assert Abs(x + d) == c * ONE;
    Pow2Grows(n + 9, n + 24);
    ShortMultiple(x + d, c, n, FP32());
  }

  // ----- every BF16 value -----

  /** MAIN: for every BF16 value, rounding the sum to FP32 before rounding it to BF16 changes nothing. */
  lemma {:induction false} NoDoubleRounding(w: int)
    requires Representable(w, BF16())
    ensures Gain(w) == Round(w + ONE, BF16())
  {
    if Abs(w) <= 256 * ONE {
      Bf16.NoDoubleRounding(w);
    } else {
      StepRoundsOnce(w, ONE, 149);
    }
  }

  /** The even one of two neighbours. */
  function EvenOf(k: nat): nat {
    if k % 2 == 0 then k else k + 1
  }

  lemma {:induction false} GainInTwo(w: int)
    ensures Gain(w) == Twice(w + ONE)
  {
  }

  lemma {:induction false} InTwos(w: int)
    ensures Gain(w) == Twice(w + ONE) && RoundTrip(w) == Twice(Gain(w) - ONE)
  {
  }

  /** Between 256 and 512 the gain is an even count of units, and taking one off leads back to it. */
  lemma {:induction false} MiddleGain(w: int, m: nat, n: nat) returns (e: nat)
    requires n == 149 && Abs(w) == m * (2 * ONE) && 129 <= m <= 255
    ensures e % 2 == 0 && 128 <= e <= 256 && (w > 0 ==> e >= 130) && (w < 0 ==> e <= 254)
    ensures Gain(w) == if w > 0 then 2 * e * ONE else -(2 * e * ONE)
  {
    if w > 0 {
      e := EvenOf(m);
      EvenNeighbour(m, e);
      OneMore(w, m, e, n);
    } else {
      e := EvenOf(m - 1);
      EvenNeighbour(m - 1, e);
      OneMoreBelow(w, m, e, n);
    }
    GainInTwo(w);
  }

  lemma {:induction false} OddUp(x: int, c: nat, e: nat, n: nat)
    requires n == 149 && x == c * ONE && 257 <= c <= 511 && e % 2 == 0 && (c == 2 * e + 1 || c == 2 * e - 1)
    ensures Twice(x) == 2 * e * ONE
  {
    OddRounds(x, c, e, n);
  }

  lemma {:induction false} OddDown(x: int, c: nat, e: nat, n: nat)
    requires n == 149 && -x == c * ONE && 257 <= c <= 511 && e % 2 == 0 && (c == 2 * e + 1 || c == 2 * e - 1)
    ensures Twice(x) == -(2 * e * ONE)
  {
    OddRounds(x, c, e, n);
  }

  lemma {:induction false} OneMore(w: int, m: nat, e: nat, n: nat)
    requires n == 149 && w == m * (2 * ONE) && 128 <= m <= 255 && e % 2 == 0 && (e == m || e == m + 1)
    ensures Twice(w + ONE) == 2 * e * ONE
  {
    OddUp(w + ONE, 2 * m + 1, e, n);
  }

  lemma {:induction false} OneMoreBelow(w: int, m: nat, e: nat, n: nat)
    requires n == 149 && -w == m * (2 * ONE) && 129 <= m <= 255 && e % 2 == 0 && (e == m || e == m - 1)
    ensures Twice(w + ONE) == -(2 * e * ONE)
  {
    OddDown(w + ONE, 2 * m - 1, e, n);
  }

  lemma {:induction false} BackAgain(g: int)
    requires Twice(g + ONE) == g == Twice(g - ONE)
    ensures Gain(g) == g == RoundTrip(g)
  {
    InTwos(g);
  }

  lemma {:induction false} EvenNeighbour(k: nat, e: nat)
    requires e == EvenOf(k)
    ensures e % 2 == 0 && (e == k || e == k + 1) && (2 * k + 1 == 2 * e + 1 || 2 * k + 1 == 2 * e - 1)
  {
  }

  lemma {:induction false} MiddleReturns(g: int, e: nat, n: nat)
    requires n == 149 && e % 2 == 0 && 128 <= e <= 256
    requires (g == 2 * e * ONE && e >= 130) || (g == -(2 * e * ONE) && e <= 254)
    ensures Twice(g - ONE) == g
  {
    if g > 0 {
      OneLess(g, e, n);
    } else {
      OneLessBelow(g, e, n);
    }
  }

  lemma {:induction false} OneLess(g: int, e: nat, n: nat)
    requires n == 149 && e % 2 == 0 && 130 <= e <= 256 && g == 2 * e * ONE
    ensures Twice(g - ONE) == g
  {
    OddUp(g - ONE, 2 * e - 1, e, n);
  }

  lemma {:induction false} OneLessBelow(g: int, e: nat, n: nat)
    requires n == 149 && e % 2 == 0 && 128 <= e <= 254 && g == -(2 * e * ONE)
    ensures Twice(g - ONE) == g
  {
    OddDown(g - ONE, 2 * e + 1, e, n);
  }

  /** MAIN: beyond 256 the one is lost: what comes back is the gain itself. */
  lemma {:induction false} RoundTripBeyond(w: int)
    requires Representable(w, BF16()) && Abs(w) > 256 * ONE
    ensures RoundTrip(w) == Gain(w)
  {
    var n := 149;
    OneIsPow(n);
    var m, j := FarUnit(w, n);
    if j > n + 1 {
      FarGainStays(w, m, j, n);
    } else {
      MiddleUnits(w, m, n);
      var e := MiddleGain(w, m, n);
      MiddleReturns(Gain(w), e, n);
      InTwos(w);
    }
  }

  lemma {:induction false} MiddleUnits(w: int, m: nat, n: nat)
    requires n == 149 && InUnits(Abs(w), m, Pow2(n - 1), n + 1) && Abs(w) > 256 * ONE
    ensures Abs(w) == m * (2 * ONE) && 129 <= m <= 255
  {
    OneIsPow(n);
    Powers(Pow2(n - 1), n + 1);
  }

  /** From 512 on nothing moves. */
  lemma {:induction false} FarGainStays(w: int, m: nat, j: nat, n: nat)
    requires n == 149 && j > n + 1 && InUnits(Abs(w), m, Pow2(j - 2), j)
    ensures Gain(w) == w == RoundTrip(w)
  {
    OneIsPow(n);
    Pow2Grows(n, j - 2);
    StaysPutTwice(w, w + ONE, m, Pow2(j - 2), j);
    StaysPutTwice(w, w - ONE, m, Pow2(j - 2), j);
    BackAgain(w);
  }

  /** MAIN: for every BF16 value a second round trip changes nothing. */
  lemma {:induction false} RoundTripIdempotent(w: int)
    requires Representable(w, BF16())
    ensures RoundTrip(RoundTrip(w)) == RoundTrip(w)
  {
    var n := 149;
    if Abs(w) <= 256 * ONE {
      Bf16.RoundTripIdempotent(w);
    } else {
      OneIsPow(n);
      var m, j := FarUnit(w, n);
      if j > n + 1 {
        FarGainStays(w, m, j, n);
      } else {
        MiddleUnits(w, m, n);
        RoundTripBeyond(w);
        var e := MiddleGain(w, m, n);
        MiddleIsKept(Gain(w), e, n);
      }
    }
  }

  lemma {:induction false} MiddleIsKept(g: int, e: nat, n: nat)
    requires n == 149 && e % 2 == 0 && 128 <= e <= 256
    requires (g == 2 * e * ONE && e >= 130) || (g == -(2 * e * ONE) && e <= 254)
    ensures RoundTrip(g) == g
  {
    if e == 256 {
      FiveTwelve(g, n);
    } else if e == 128 {
      EdgesKept();
    } else {
      MiddleStays(g, e, n);
    }
  }

  lemma {:induction false} MiddleStays(g: int, e: nat, n: nat)
    requires n == 149 && e % 2 == 0 && 130 <= e <= 254 && (g == 2 * e * ONE || g == -(2 * e * ONE))
    ensures RoundTrip(g) == g
  {
    MiddleAdds(g, e, n);
    MiddleReturns(g, e, n);
    BackAgain(g);
  }

  lemma {:induction false} MiddleAdds(g: int, e: nat, n: nat)
    requires n == 149 && e % 2 == 0 && 130 <= e <= 254 && (g == 2 * e * ONE || g == -(2 * e * ONE))
    ensures Twice(g + ONE) == g
  {
    if g > 0 {
      OneMore(g, e, e, n);
    } else {
      OneMoreBelow(g, e, e, n);
    }
  }

  lemma {:induction false} FiveTwelve(g: int, n: nat)
    requires n == 149 && g == 512 * ONE
    ensures RoundTrip(g) == g
  {
    OneIsPow(n);
    Powers(ONE, n + 2);
    FarGainStays(g, 128, n + 2, n);
  }
}
