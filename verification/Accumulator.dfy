/** The error sums of the weight audit (`scripts/audit_weight_quantization.py` lines 185-231), in exact arithmetic. */
module Accumulator {

  /** What an accumulator holds. */
  datatype Sums = Sums(elements: nat, reference: real, approximation: real, error: real, dot: real,
                       absolute: real, maximum: real)

  function Zero(): Sums { Sums(0, 0.0, 0.0, 0.0, 0.0, 0.0, 0.0) }

  function Max(a: real, b: real): real { if a < b then b else a }

  function AbsReal(a: real): real { if a < 0.0 then -a else a }

  function Plus(a: Sums, b: Sums): Sums {
    Sums(a.elements + b.elements, a.reference + b.reference, a.approximation + b.approximation, a.error + b.error,
         a.dot + b.dot, a.absolute + b.absolute, Max(a.maximum, b.maximum))
  }

  /** What one element adds. */
  function Single(approximation: real, reference: real): Sums {
    var error := approximation - reference;
    Sums(1, reference * reference, approximation * approximation, error * error, approximation * reference,
         AbsReal(error), AbsReal(error))
  }

  /** What merging a list of sums into an empty accumulator gives. */
  function Total(parts: seq<Sums>): Sums {
    if parts == [] then Zero() else Plus(parts[0], Total(parts[1..]))
  }

  /** What each element of a pair of tensors, flattened, adds. */
  function Singles(approximation: seq<real>, reference: seq<real>): (singles: seq<Sums>)
    requires |approximation| == |reference|
    ensures |singles| == |reference|
  {
    seq(|reference|, i requires 0 <= i < |reference| => Single(approximation[i], reference[i]))
  }

  /** The sums over whole tensors. */
  function SumsOf(approximation: seq<real>, reference: seq<real>): Sums
    requires |approximation| == |reference|
  {
    Total(Singles(approximation, reference))
  }

  /** Element by element. */
  lemma {:induction false} SumsStep(a: seq<real>, r: seq<real>)
    requires |a| == |r| > 0
    ensures SumsOf(a, r) == Plus(Single(a[0], r[0]), SumsOf(a[1..], r[1..]))
  {
    var singles := Singles(a, r);
    assert singles[1..] == Singles(a[1..], r[1..]);
    assert singles[0] == Single(a[0], r[0]);
  }

  // ----- the sums that `update` takes -----

  function Dot(a: seq<real>, b: seq<real>): real
    requires |a| == |b|
  {
    if a == [] then 0.0 else a[0] * b[0] + Dot(a[1..], b[1..])
  }

  function Minus(a: seq<real>, b: seq<real>): (e: seq<real>)
    requires |a| == |b|
    ensures |e| == |a|
  {
    if a == [] then [] else [a[0] - b[0]] + Minus(a[1..], b[1..])
  }

  function AbsoluteSum(a: seq<real>): real {
    if a == [] then 0.0 else AbsReal(a[0]) + AbsoluteSum(a[1..])
  }

  function AbsoluteMax(a: seq<real>): (m: real)
    ensures m >= 0.0
  {
    if a == [] then 0.0 else Max(AbsReal(a[0]), AbsoluteMax(a[1..]))
  }

  lemma {:induction false} DotsAreSums(a: seq<real>, r: seq<real>)
    requires |a| == |r|
    ensures SumsOf(a, r).elements == |r| && SumsOf(a, r).dot == Dot(a, r)
    ensures SumsOf(a, r).reference == Dot(r, r) && SumsOf(a, r).approximation == Dot(a, a)
    decreases |a|
  {
    if a != [] {
      SumsStep(a, r);
      DotsAreSums(a[1..], r[1..]);
    }
  }

  lemma {:induction false} MinusStep(a: seq<real>, r: seq<real>)
    requires |a| == |r| > 0
    ensures Minus(a, r)[0] == a[0] - r[0] && Minus(a, r)[1..] == Minus(a[1..], r[1..])
  {
    assert Minus(a, r) == [a[0] - r[0]] + Minus(a[1..], r[1..]);
  }

  lemma {:induction false} NormsStep(e: seq<real>)
    requires e != []
    ensures Dot(e, e) == e[0] * e[0] + Dot(e[1..], e[1..])
    ensures AbsoluteSum(e) == AbsReal(e[0]) + AbsoluteSum(e[1..])
    ensures AbsoluteMax(e) == Max(AbsReal(e[0]), AbsoluteMax(e[1..]))
  {
  }

  lemma {:induction false} ErrorsAreSums(a: seq<real>, r: seq<real>, e: seq<real>, s: Sums)
    requires |a| == |r| && e == Minus(a, r) && s == SumsOf(a, r)
    ensures s.error == Dot(e, e) && s.absolute == AbsoluteSum(e) && s.maximum == AbsoluteMax(e)
    decreases |a|
  {
    if a != [] {
      var one, rest := FirstErrors(a, r, e, s);
      ErrorsAreSums(a[1..], r[1..], e[1..], rest);
      ErrorsStep(s, one, rest, e);
    }
  }

  lemma {:induction false} FirstErrors(a: seq<real>, r: seq<real>, e: seq<real>, s: Sums)
    returns (one: Sums, rest: Sums)
    requires |a| == |r| > 0 && e == Minus(a, r) && s == SumsOf(a, r)
    ensures s == Plus(one, rest) && rest == SumsOf(a[1..], r[1..]) && e[1..] == Minus(a[1..], r[1..])
    ensures one.error == e[0] * e[0] && one.absolute == AbsReal(e[0]) == one.maximum
  {
    MinusStep(a, r);
    SumsStep(a, r);
    one, rest := Single(a[0], r[0]), SumsOf(a[1..], r[1..]);
    SingleErrors(a[0], r[0], e[0]);
  }

  lemma {:induction false} SingleErrors(x: real, y: real, d: real)
    requires d == x - y
    ensures Single(x, y).error == d * d && Single(x, y).absolute == AbsReal(d) == Single(x, y).maximum
  {
  }

  lemma {:induction false} ErrorsStep(s: Sums, one: Sums, rest: Sums, e: seq<real>)
    requires e != [] && s == Plus(one, rest)
    requires one.error == e[0] * e[0] && one.absolute == AbsReal(e[0]) == one.maximum
    requires rest.error == Dot(e[1..], e[1..])
    requires rest.absolute == AbsoluteSum(e[1..]) && rest.maximum == AbsoluteMax(e[1..])
    ensures s.error == Dot(e, e) && s.absolute == AbsoluteSum(e) && s.maximum == AbsoluteMax(e)
  {
    NormsStep(e);
  }

  /** The sums of the products, errors and absolute errors of whole tensors. */
  lemma {:induction false} SumsAreDots(a: seq<real>, r: seq<real>)
    requires |a| == |r|
    ensures var e := Minus(a, r);
            SumsOf(a, r) == Sums(|r|, Dot(r, r), Dot(a, a), Dot(e, e), Dot(a, r), AbsoluteSum(e), AbsoluteMax(e))
  {
    DotsAreSums(a, r);
    ErrorsAreSums(a, r, Minus(a, r), SumsOf(a, r));
  }

  // ----- chunks -----

  predicate Proper(s: Sums) { s.maximum >= 0.0 }

  lemma {:induction false} TotalIsProper(parts: seq<Sums>)
    requires forall i | 0 <= i < |parts| :: Proper(parts[i])
    ensures Proper(Total(parts))
    decreases |parts|
  {
    if parts != [] {
      TotalIsProper(parts[1..]);
    }
  }

  lemma {:induction false} TotalConcat(a: seq<Sums>, b: seq<Sums>)
    requires forall i | 0 <= i < |b| :: Proper(b[i])
    ensures Total(a + b) == Plus(Total(a), Total(b))
    decreases |a|
  {
    if a == [] {
      assert a + b == b;
      TotalIsProper(b);
    } else {
      TotalConcat(a[1..], b);
      FirstThen(a, b);
      PlusRegroups(a[0], Total(a[1..]), Total(b));
    }
  }

  lemma {:induction false} FirstThen(a: seq<Sums>, b: seq<Sums>)
    requires a != []
    ensures Total(a + b) == Plus(a[0], Total(a[1..] + b)) && Total(a) == Plus(a[0], Total(a[1..]))
  {
    assert (a + b)[0] == a[0] && (a + b)[1..] == a[1..] + b;
  }

  lemma {:induction false} SinglesAreProper(a: seq<real>, r: seq<real>)
    requires |a| == |r|
    ensures forall i | 0 <= i < |r| :: Proper(Singles(a, r)[i])
  {
  }

  lemma {:induction false} SinglesConcat(a: seq<real>, a': seq<real>, r: seq<real>, r': seq<real>)
    requires |a| == |r| && |a'| == |r'|
    ensures Singles(a + a', r + r') == Singles(a, r) + Singles(a', r')
  {
  }

  /** MAIN: sums of two chunks merge to the sums of both together. */
  lemma {:induction false} ChunksMerge(a: seq<real>, a': seq<real>, r: seq<real>, r': seq<real>)
    requires |a| == |r| && |a'| == |r'|
    ensures SumsOf(a + a', r + r') == Plus(SumsOf(a, r), SumsOf(a', r'))
  {
    SinglesConcat(a, a', r, r');
    SinglesAreProper(a', r');
    TotalConcat(Singles(a, r), Singles(a', r'));
  }

  lemma {:induction false} PlusRegroups(a: Sums, b: Sums, c: Sums)
    ensures Plus(Plus(a, b), c) == Plus(a, Plus(b, c)) && Plus(a, b) == Plus(b, a)
  {
  }

  lemma {:induction false} TotalWithout(parts: seq<Sums>, i: nat)
    requires i < |parts|
    ensures Total(parts) == Plus(parts[i], Total(parts[..i] + parts[i + 1..]))
    decreases |parts|
  {
    if i == 0 {
      assert parts[..0] + parts[1..] == parts[1..];
    } else {
      TotalWithout(parts[1..], i - 1);
      var rest := parts[..i] + parts[i + 1..];
      assert rest[0] == parts[0] && rest[1..] == parts[1..][..i - 1] + parts[1..][i..];
      PlusRegroups(parts[0], parts[i], Total(rest[1..]));
      PlusRegroups(parts[i], parts[0], Total(rest[1..]));
    }
  }

  /** MAIN: the order in which accumulators are merged does not matter. */
  lemma {:induction false} MergeOrderIrrelevant(parts: seq<Sums>, others: seq<Sums>)
    requires multiset(parts) == multiset(others)
    ensures Total(parts) == Total(others)
    decreases |parts|
  {
    if parts == [] {
      assert |others| == |multiset(others)| == 0;
    } else {
      var i := PlaceOf(parts[0], parts, others);
      SameRest(parts, others, i);
      MergeOrderIrrelevant(parts[1..], others[..i] + others[i + 1..]);
      TotalWithout(others, i);
    }
  }

  lemma {:induction false} SameRest(parts: seq<Sums>, others: seq<Sums>, i: nat)
    requires parts != [] && multiset(parts) == multiset(others) && i < |others| && others[i] == parts[0]
    ensures multiset(parts[1..]) == multiset(others[..i] + others[i + 1..])
  {
    RestOf(parts, 0);
    RestOf(others, i);
    assert parts[..0] + parts[1..] == parts[1..];
  }

  lemma {:induction false} PlaceOf(part: Sums, parts: seq<Sums>, others: seq<Sums>) returns (i: nat)
    requires part in parts && multiset(parts) == multiset(others)
    ensures i < |others| && others[i] == part
  {
    assert part in multiset(others);
    i :| 0 <= i < |others| && others[i] == part;
  }

  lemma {:induction false} RestOf(parts: seq<Sums>, i: nat)
    requires i < |parts|
    ensures multiset(parts[..i] + parts[i + 1..]) == multiset(parts) - multiset{parts[i]}
  {
    assert parts == parts[..i] + ([parts[i]] + parts[i + 1..]);
  }

  // ----- what the sums say -----

  /** The error sum is determined by the other three. */
  ghost predicate Consistent(s: Sums) {
    s.error == s.reference + s.approximation - 2.0 * s.dot
  }

  /** The Cauchy-Schwarz bound: the cosine lies between -1 and 1. */
  ghost predicate Bounded(s: Sums) {
    s.reference >= 0.0 && s.approximation >= 0.0 && s.dot * s.dot <= s.reference * s.approximation
  }

  lemma {:induction false} SingleIsConsistent(x: real, y: real)
    ensures Consistent(Single(x, y)) && Bounded(Single(x, y))
  {
    assert (x - y) * (x - y) == y * y + x * x - 2.0 * (x * y);
    assert x * x >= 0.0 && y * y >= 0.0;
    assert (x * y) * (x * y) == (y * y) * (x * x);
  }

  /** MAIN: merging keeps the identity between the sums. */
  lemma {:induction false} MergeKeepsConsistent(parts: seq<Sums>)
    requires forall i | 0 <= i < |parts| :: Consistent(parts[i])
    ensures Consistent(Total(parts))
    decreases |parts|
  {
    if parts != [] {
      MergeKeepsConsistent(parts[1..]);
    }
  }

  /** MAIN: merging keeps the Cauchy-Schwarz bound. */
  lemma {:induction false} MergeKeepsBound(parts: seq<Sums>)
    requires forall i | 0 <= i < |parts| :: Bounded(parts[i])
    ensures Bounded(Total(parts))
    decreases |parts|
  {
    if parts != [] {
      assert forall i | 0 <= i < |parts| - 1 :: parts[1..][i] == parts[i + 1];
      MergeKeepsBound(parts[1..]);
      PlusKeepsBound(parts[0], Total(parts[1..]));
    }
  }

  lemma {:induction false} PlusKeepsBound(a: Sums, b: Sums)
    requires Bounded(a) && Bounded(b)
    ensures Bounded(Plus(a, b))
  {
    BoundAlgebra(a.reference, a.approximation, a.dot, b.reference, b.approximation, b.dot);
  }

  /** The mixed term is bounded by twice the product of the roots. */
  lemma {:induction false} BoundAlgebra(r: real, a: real, d: real, r': real, a': real, d': real)
    requires r >= 0.0 && a >= 0.0 && d * d <= r * a && r' >= 0.0 && a' >= 0.0 && d' * d' <= r' * a'
    ensures (d + d') * (d + d') <= (r + r') * (a + a')
  {
    var p, q := r * a', r' * a;
    Product(r, a');
    Product(r', a);
    MixedProduct(d * d, d' * d', r * a, r' * a');
    assert (d * d') * (d * d') == (d * d) * (d' * d') && (r * a) * (r' * a') == p * q;
    MeanBound(p, q, d * d');
    assert (d + d') * (d + d') == d * d + d' * d' + 2.0 * (d * d');
    assert (r + r') * (a + a') == r * a + r' * a' + p + q;
  }

  lemma {:induction false} MixedProduct(x: real, y: real, u: real, v: real)
    requires 0.0 <= x <= u && 0.0 <= y <= v
    ensures x * y <= u * v
  {
    Scaled(x, y, v);
    Scaled(v, x, u);
  }

  lemma {:induction false} MeanBound(p: real, q: real, m: real)
    requires p >= 0.0 && q >= 0.0 && m * m <= p * q
    ensures 2.0 * m <= p + q
  {
    assert (p - q) * (p - q) >= 0.0;
    assert (p + q) * (p + q) == (p - q) * (p - q) + 4.0 * (p * q);
    RootBound(m, p + q);
  }

  lemma {:induction false} Product(x: real, y: real)
    requires x >= 0.0 && y >= 0.0
    ensures x * y >= 0.0
  {
  }

  lemma {:induction false} Scaled(c: real, a: real, b: real)
    requires c >= 0.0 && a <= b
    ensures c * a <= c * b
  {
  }

  lemma {:induction false} RootBound(m: real, s: real)
    requires s >= 0.0 && 4.0 * (m * m) <= s * s
    ensures 2.0 * m <= s
  {
    if 2.0 * m > s {
      SquareGrows(s, 2.0 * m);
    }
  }

  lemma {:induction false} SquareGrows(s: real, w: real)
    requires 0.0 <= s < w
    ensures s * s < w * w
  {
    Positive(w - s, w + s);
    assert w * w - s * s == (w - s) * (w + s);
  }

  lemma {:induction false} Positive(x: real, y: real)
    requires x > 0.0 && y > 0.0
    ensures x * y > 0.0
  {
  }

  lemma {:induction false} SinglesAreConsistent(a: seq<real>, r: seq<real>)
    requires |a| == |r|
    ensures forall i | 0 <= i < |r| :: Consistent(Singles(a, r)[i]) && Bounded(Singles(a, r)[i])
  {
    forall i | 0 <= i < |r| ensures Consistent(Singles(a, r)[i]) && Bounded(Singles(a, r)[i]) {
      SingleIsConsistent(a[i], r[i]);
    }
  }

  /** MAIN: for all tensors the error sum is determined by the other three, and the cosine is bounded. */
  lemma {:induction false} SumsAreConsistent(a: seq<real>, r: seq<real>)
    requires |a| == |r|
    ensures Consistent(SumsOf(a, r)) && Bounded(SumsOf(a, r))
  {
    SinglesAreConsistent(a, r);
    MergeKeepsConsistent(Singles(a, r));
    MergeKeepsBound(Singles(a, r));
  }

  /** MAIN: the squared sine is at most the squared relative error, whatever the tensors are. */
  lemma {:induction false} SineBelowError(s: Sums)
    requires Consistent(s)
    ensures s.reference * s.approximation - s.dot * s.dot <= s.error * s.approximation
  {
    SineAlgebra(s.reference, s.approximation, s.dot, s.approximation - s.dot);
  }

  lemma {:induction false} SineAlgebra(r: real, a: real, d: real, f: real)
    requires f == a - d
    ensures r * a - d * d <= (r + a - 2.0 * d) * a
  {
    assert f * f >= 0.0;
    assert (r + a - 2.0 * d) * a - (r * a - d * d) == f * f;
  }

  // ----- the accumulator -----

  class ErrorAccumulator {
    var elements: nat
    var referenceSquareSum: real
    var approximationSquareSum: real
    var errorSquareSum: real
    var dotSum: real
    var absoluteErrorSum: real
    var maxAbsoluteError: real

    function State(): Sums
      reads this
    {
      Sums(elements, referenceSquareSum, approximationSquareSum, errorSquareSum, dotSum, absoluteErrorSum,
          maxAbsoluteError)
    }

    constructor ()
      ensures State() == Zero()
    {
      elements, referenceSquareSum, approximationSquareSum, errorSquareSum, dotSum := 0, 0.0, 0.0, 0.0, 0.0;
      absoluteErrorSum, maxAbsoluteError := 0.0, 0.0;
    }

    /** Adds one pair of tensors; a shape mismatch is refused and changes nothing. */
    method Update(approximation: seq<real>, reference: seq<real>) returns (ok: bool)
      modifies this
      ensures ok == (|approximation| == |reference|)
      ensures State() == if ok then Plus(old(State()), SumsOf(approximation, reference)) else old(State())
    {
      if |approximation| != |reference| { return false; }
      SumsAreDots(approximation, reference);
      var error := Minus(approximation, reference);
      elements := elements + |reference|;
      referenceSquareSum := referenceSquareSum + Dot(reference, reference);
      approximationSquareSum := approximationSquareSum + Dot(approximation, approximation);
      errorSquareSum := errorSquareSum + Dot(error, error);
      dotSum := dotSum + Dot(approximation, reference);
      absoluteErrorSum := absoluteErrorSum + AbsoluteSum(error);
      maxAbsoluteError := Max(maxAbsoluteError, AbsoluteMax(error));
      ok := true;
    }

    /** Adds another accumulator's sums. */
    method Merge(other: ErrorAccumulator)
      modifies this
      ensures State() == Plus(old(State()), old(other.State()))
      ensures other != this ==> other.State() == old(other.State())
    {
      elements := elements + other.elements;
      referenceSquareSum := referenceSquareSum + other.referenceSquareSum;
      approximationSquareSum := approximationSquareSum + other.approximationSquareSum;
      errorSquareSum := errorSquareSum + other.errorSquareSum;
      dotSum := dotSum + other.dotSum;
      absoluteErrorSum := absoluteErrorSum + other.absoluteErrorSum;
      maxAbsoluteError := Max(maxAbsoluteError, other.maxAbsoluteError);
    }
  }
}
