/** The K8V4 value cache (`scripts/turboquant_k8v4_unit.py` lines 92-109, 145-171, 195-199) over exact reals. */
module K8V4 {

  function Least(values: seq<real>): (m: real)
    requires values != []
  {
    if |values| == 1 then values[0] else
      var m := Least(values[1..]);
      if values[0] < m then values[0] else m
  }

  function Greatest(values: seq<real>): (m: real)
    requires values != []
  {
    if |values| == 1 then values[0] else
      var m := Greatest(values[1..]);
      if values[0] > m then values[0] else m
  }

  lemma {:induction false} Bounds(values: seq<real>, i: nat)
    requires i < |values|
    ensures Least(values) <= values[i] <= Greatest(values)
    decreases |values|
  {
    if |values| > 1 && i > 0 {
      Bounds(values[1..], i - 1);
    } else if |values| > 1 {
      Bounds(values[1..], 0);
    }
  }

  /** `clamp((max - min) / 15, min=1e-8)` */
  function Scale(values: seq<real>): (s: real)
    requires values != []
    ensures s > 0.0
  {
    var s := (Greatest(values) - Least(values)) / 15.0;
    if s < 0.00000001 then 0.00000001 else s
  }

  /** What is truncated to a code. */
  function Rounded(values: seq<real>, v: real): real
    requires values != []
  {
    (v - Least(values)) / Scale(values) + 0.5
  }

  /** Conversion to int32 drops the fraction. */
  function Truncate(x: real): int {
    if x >= 0.0 then x.Floor else -((-x).Floor)
  }

  function Clamp(code: int): (r: nat)
    ensures r <= 15
  {
    if code < 0 then 0 else if code > 15 then 15 else code
  }

  function Code(values: seq<real>, v: real): nat
    requires values != []
  {
    Clamp(Truncate(Rounded(values, v)))
  }

  function Abs(x: real): real { if x < 0.0 then -x else x }

  lemma {:induction false} DivideOrdered(a: real, b: real, s: real)
    requires s > 0.0 && a <= b * s
    ensures a / s <= b
  {
    var q := a / s;
    assert q * s == a;
    if q > b { TimesOrdered(b, q, s); }
  }

  lemma {:induction false} TimesOrdered(a: real, b: real, s: real)
    requires s > 0.0 && a < b
    ensures a * s < b * s
  {
    assert (b - a) * s > 0.0;
  }

  /** MAIN: the clamp to 0..15 never acts. */
  lemma {:induction false} ClampNeverActs(values: seq<real>, i: nat)
    requires i < |values|
    ensures 0 <= Truncate(Rounded(values, values[i])) <= 15
    ensures 0.5 <= Rounded(values, values[i]) <= 15.5
  {
    Bounds(values, i);
    var s, d := Scale(values), values[i] - Least(values);
    assert Greatest(values) - Least(values) <= 15.0 * s;
    DivideOrdered(d, 15.0, s);
    NonnegativeQuotient(d, s);
  }

  lemma {:induction false} NonnegativeQuotient(d: real, s: real)
    requires s > 0.0 && d >= 0.0
    ensures d / s >= 0.0
  {
  }

  /** MAIN: a value is restored to within half a step. */
  lemma {:induction false} RestoredWithinHalfStep(values: seq<real>, i: nat)
    requires i < |values|
    ensures Abs(Code(values, values[i]) as real * Scale(values) + Least(values) - values[i]) <= Scale(values) / 2.0
  {
    ClampNeverActs(values, i);
    var s, d := Scale(values), values[i] - Least(values);
    var q := d / s;
    var c := Code(values, values[i]) as real;
    assert c == (q + 0.5).Floor as real;
    assert q * s == d;
    assert -0.5 <= c - q <= 0.5;
    HalfStep(c - q, s);
    assert (c - q) * s == c * s - d;
  }

  lemma {:induction false} HalfStep(e: real, s: real)
    requires s > 0.0 && -0.5 <= e <= 0.5
    ensures Abs(e * s) <= s / 2.0
  {
    Product(0.5 - e, s);
    Product(0.5 + e, s);
    assert (0.5 - e) * s == 0.5 * s - e * s && (0.5 + e) * s == 0.5 * s + e * s;
  }

  lemma {:induction false} Product(a: real, b: real)
    requires a >= 0.0 && b >= 0.0
    ensures a * b >= 0.0
  {
  }

  // ----- nibbles -----

  function PackPair(low: bv8, high: bv8): bv8 {
    low | (high << 4)
  }

  /** `codes[0::2] | (codes[1::2] << 4)` */
  function Pack(codes: seq<bv8>): seq<bv8>
    requires |codes| % 2 == 0
  {
    if codes == [] then [] else [PackPair(codes[0], codes[1])] + Pack(codes[2..])
  }

  lemma {:induction false} PairUnpacks(low: bv8, high: bv8)
    requires low < 16 && high < 16
    ensures PackPair(low, high) & 0x0F == low && PackPair(low, high) >> 4 == high
  {
  }

  lemma {:induction false} PackedAt(codes: seq<bv8>, k: nat)
    requires |codes| % 2 == 0 && k < |codes| / 2
    ensures |Pack(codes)| == |codes| / 2 && Pack(codes)[k] == PackPair(codes[2 * k], codes[2 * k + 1])
    decreases |codes|
  {
    if k > 0 {
      PackedAt(codes[2..], k - 1);
    } else if |codes| > 2 {
      PackedAt(codes[2..], 0);
    }
  }

  /** The decoder's two strided writes undo the packing, for every even width. */
  method DecodeNibbles(packed: seq<bv8>, ghost codes: seq<bv8>) returns (decoded: array<bv8>)
    requires |codes| % 2 == 0 && packed == Pack(codes) && forall i | 0 <= i < |codes| :: codes[i] < 16
    ensures fresh(decoded) && decoded[..] == codes
  {
    if codes != [] { PackedAt(codes, 0); }
    var n := |packed|;
    decoded := new bv8[2 * n];
    for k := 0 to n
      invariant forall j | 0 <= j < k :: decoded[2 * j] == codes[2 * j]
    {
      PackedAt(codes, k);
      PairUnpacks(codes[2 * k], codes[2 * k + 1]);
      decoded[2 * k] := packed[k] & 0x0F;
    }
    for k := 0 to n
      invariant forall j | 0 <= j < n :: decoded[2 * j] == codes[2 * j]
      invariant forall j | 0 <= j < k :: decoded[2 * j + 1] == codes[2 * j + 1]
    {
      PackedAt(codes, k);
      PairUnpacks(codes[2 * k], codes[2 * k + 1]);
      decoded[2 * k + 1] := packed[k] >> 4;
    }
    forall i | 0 <= i < 2 * n ensures decoded[..][i] == codes[i] {
      if i % 2 == 0 { assert i == 2 * (i / 2); } else { assert i == 2 * (i / 2) + 1; }
    }
  }

  // ----- the boundary tolerance -----

  /** `(x - x.round()).abs()`: how far the nearest integer is. */
  function BoundaryDistance(x: real): real {
    var below := x - x.Floor as real;
    if below <= 0.5 then below else 1.0 - below
  }

  /** MAIN: two evaluations of the same expression that differ by at most epsilon give the same code where the
      unit demands it, and codes at most one step apart elsewhere: the unit accepts them. */
  lemma {:induction false} NearbyEvaluationsAccepted(x: real, y: real, epsilon: real)
    requires x >= 0.5 && 0.0 <= epsilon < 0.5 && Abs(x - y) <= epsilon
    ensures BoundaryDistance(x) > epsilon ==> Clamp(Truncate(y)) == Clamp(Truncate(x))
    ensures -1 <= Clamp(Truncate(y)) - Clamp(Truncate(x)) <= 1
    ensures Truncate(y) != Truncate(x) ==> BoundaryDistance(x) <= epsilon && -1 <= Truncate(y) - Truncate(x) <= 1
  {
    var f, g := x.Floor, y.Floor;
    assert f as real <= x < f as real + 1.0 && g as real <= y < g as real + 1.0;
    if g > f {
      assert f as real + 1.0 <= g as real;
    } else if g < f {
      assert g as real + 1.0 <= f as real;
    }
  }

  /** The tolerance is exact: where the nearest integer is within epsilon, some evaluation within epsilon has
      another integer part. */
  lemma {:induction false} ToleranceIsTight(x: real, epsilon: real) returns (y: real)
    requires 0.0 < epsilon < 0.5 && BoundaryDistance(x) < epsilon
    ensures Abs(x - y) <= epsilon && y.Floor != x.Floor
  {
    var below := x - x.Floor as real;
    y := if below <= 0.5 then x - epsilon else x + epsilon;
    if below <= 0.5 {
      assert y < x.Floor as real;
    } else {
      assert y >= x.Floor as real + 1.0;
    }
  }
}
