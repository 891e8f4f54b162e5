/** The gates of the weight audit (`scripts/audit_weight_quantization.py` lines 233-255, 652-696): which tensors
    pass, what the accumulators merged behind a gate satisfy, and when the total would pass it as well. */
module Gates {
  import opened Accumulator
  import opened Wrappers

  /** `relative_l2_error <= t`, without the root. */
  predicate Within(s: Sums, t: real) {
    s.error <= t * t * s.reference
  }

  /** `cosine_similarity >= c`, without the roots. */
  predicate Aligned(s: Sums, c: real) {
    s.dot >= 0.0 && s.dot * s.dot >= c * c * (s.reference * s.approximation)
  }

  /** What `report` does not refuse. */
  predicate Reportable(s: Sums) {
    s.elements != 0 && s.reference > 0.0 && s.reference * s.approximation > 0.0
  }

  predicate Passes(s: Sums, cosine: real, limit: real) {
    Reportable(s) && Aligned(s, cosine) && Within(s, limit)
  }

  /** Every one of the tensors passes. */
  predicate AllPass(states: seq<Sums>, cosine: real, limit: real) {
    states == [] || (AllPass(states[..|states| - 1], cosine, limit) && Passes(states[|states| - 1], cosine, limit))
  }

  lemma {:induction false} AllPassAt(states: seq<Sums>, i: nat, cosine: real, limit: real)
    requires i < |states|
    ensures AllPass(states, cosine, limit) ==> Passes(states[i], cosine, limit)
    decreases |states|
  {
    if i < |states| - 1 {
      AllPassAt(states[..|states| - 1], i, cosine, limit);
    }
  }

  // ----- the loops of `main` -----

  datatype Refusal = Unreportable | OutsideGate

  function States(parts: seq<ErrorAccumulator>): (states: seq<Sums>)
    reads parts
    ensures |states| == |parts|
    ensures forall i | 0 <= i < |parts| :: states[i] == parts[i].State()
  {
    if parts == [] then [] else [parts[0].State()] + States(parts[1..])
  }

  lemma {:induction false} TotalSnoc(parts: seq<Sums>, last: Sums)
    requires forall i | 0 <= i < |parts| :: Proper(parts[i])
    requires Proper(last)
    ensures Total(parts + [last]) == Plus(Total(parts), last)
    decreases |parts|
  {
    if parts == [] {
      assert [last][1..] == [] && parts + [last] == [last];
    } else {
      assert (parts + [last])[1..] == parts[1..] + [last];
      TotalSnoc(parts[1..], last);
      PlusRegroups(parts[0], Total(parts[1..]), last);
    }
  }

  /** The loops of `main` that merge the audited tensors of one format: each must pass the gate, and then the
      aggregate of what was merged is within it too. */
  method MergeBehindGate(parts: seq<ErrorAccumulator>, cosine: real, limit: real)
    returns (refusal: Option<Refusal>, total: ErrorAccumulator)
    ensures fresh(total)
    ensures refusal == None <==> AllPass(States(parts), cosine, limit)
    ensures refusal == None && (forall i | 0 <= i < |parts| :: Proper(States(parts)[i]))
        ==> total.State() == Total(States(parts))
  {
    total := new ErrorAccumulator();
    ghost var states := States(parts);
    ghost var proper := forall i | 0 <= i < |states| :: Proper(states[i]);
    for i := 0 to |parts|
      invariant fresh(total)
      invariant States(parts) == states
      invariant proper ==> total.State() == Total(states[..i])
      invariant AllPass(states[..i], cosine, limit)
    {
      refusal := GateNext(total, parts[i], states, i, proper, cosine, limit);
      if refusal.Some? { return; }
    }
    assert states[..|parts|] == states;
    refusal := None;
  }

  /** `report` and the gate on it. */
  method CheckGate(part: ErrorAccumulator, cosine: real, limit: real) returns (refusal: Option<Refusal>)
    ensures refusal == None <==> Passes(part.State(), cosine, limit)
  {
    var s := part.State();
    if !Reportable(s) { return Some(Unreportable); }
    if !Aligned(s, cosine) || !Within(s, limit) { return Some(OutsideGate); }
    refusal := None;
  }

  /** One tensor: merged, or the run refused. */
  method GateNext(total: ErrorAccumulator, part: ErrorAccumulator, ghost states: seq<Sums>, ghost i: nat,
                  ghost proper: bool,
                  cosine: real, limit: real)
    returns (refusal: Option<Refusal>)
    requires total != part && i < |states| && part.State() == states[i]
    requires proper ==> total.State() == Total(states[..i]) && forall j | 0 <= j < |states| :: Proper(states[j])
    requires AllPass(states[..i], cosine, limit)
    modifies total
    ensures refusal == None ==> 
              AllPass(states[..i + 1], cosine, limit) && (proper ==> total.State() == Total(states[..i + 1]))
    ensures refusal.Some? ==> !AllPass(states, cosine, limit)
  {
    refusal := CheckGate(part, cosine, limit);
    if refusal.Some? {
      AllPassAt(states, i, cosine, limit);
      return;
    }
    assert states[..i + 1][..i] == states[..i] && states[..i + 1] == states[..i] + [states[i]];
    total.Merge(part);
    if proper {
      TotalSnoc(states[..i], states[i]);
    }
  }

  // ----- the aggregate -----

  /** MAIN: if each of the merged tensors is within relative error `tt`, squared and below one, then so is the
      aggregate, and its squared cosine is at least 1 - tt. */
  lemma {:induction false} AggregateBounds(parts: seq<Sums>, tt: real)
    requires parts != [] && tt < 1.0
    requires forall i | 0 <= i < |parts| :: Consistent(parts[i])
    requires forall i | 0 <= i < |parts| :: Bounded(parts[i])
    requires forall i | 0 <= i < |parts| :: InLimit(parts[i], tt)
    ensures InLimit(Total(parts), tt) && AlignedFor(Total(parts), tt)
  {
    MergeKeepsConsistent(parts);
    MergeKeepsBound(parts);
    TotalWithin(parts, tt);
    LimitAligns(Total(parts), tt);
  }

  /** A positive reference, and a squared relative error of at most `tt`. */
  predicate InLimit(s: Sums, tt: real) {
    s.reference > 0.0 && s.error <= tt * s.reference
  }

  /** A positive dot product, and a squared cosine of at least 1 - tt. */
  predicate AlignedFor(s: Sums, tt: real) {
    s.dot > 0.0 && s.dot * s.dot >= (1.0 - tt) * (s.reference * s.approximation)
  }

  lemma {:induction false} LimitAligns(s: Sums, tt: real)
    requires Consistent(s) && Bounded(s) && InLimit(s, tt) && tt < 1.0
    ensures AlignedFor(s, tt)
  {
    SineBelowError(s);
    GateAlgebra(s.reference, s.approximation, s.error, s.dot, tt);
  }

  lemma {:induction false} SquareAtMostOne(t: real)
    requires 0.0 <= t <= 1.0
    ensures t * t <= 1.0
  {
    if t < 1.0 {
      SquareBelowOne(t);
    } else {
      assert t * t == t * 1.0;
    }
  }

  lemma {:induction false} SquareBelowOne(t: real)
    requires 0.0 <= t < 1.0
    ensures t * t < 1.0
  {
    Scaled(t, t, 1.0);
  }

  /** What relative error `tt`, a square, makes of the dot product. */
  lemma {:induction false} GateAlgebra(r: real, a: real, e: real, d: real, tt: real)
    requires a >= 0.0 && r > 0.0 && tt < 1.0 && e <= tt * r && r * a - d * d <= e * a && e == r + a - 2.0 * d
    ensures d > 0.0 && d * d >= (1.0 - tt) * (r * a)
  {
    Scaled(a, e, tt * r);
    Positive(1.0 - tt, r);
    assert (1.0 - tt) * r == r - tt * r;
    assert (1.0 - tt) * (r * a) == r * a - a * (tt * r);
  }

  lemma {:induction false} TotalWithin(parts: seq<Sums>, tt: real)
    requires parts != [] && forall i | 0 <= i < |parts| :: InLimit(parts[i], tt)
    ensures InLimit(Total(parts), tt)
    decreases |parts|
  {
    if |parts| == 1 {
      assert Total(parts[1..]) == Zero();
    } else {
      TotalWithin(parts[1..], tt);
      assert Total(parts) == Plus(parts[0], Total(parts[1..]));
    }
    if |parts| > 1 {
      PlusWithin(parts[0], Total(parts[1..]), tt);
    }
  }

  lemma {:induction false} PlusWithin(a: Sums, b: Sums, tt: real)
    requires InLimit(a, tt) && InLimit(b, tt)
    ensures InLimit(Plus(a, b), tt)
  {
    Distributed(tt, a.reference, b.reference);
  }

  lemma {:induction false} Distributed(c: real, a: real, b: real)
    ensures c * (a + b) == c * a + c * b
  {
  }

  // ----- when the cosine gate is inherited -----

  /** A tensor's approximation and its reference, flattened. */
  datatype Pair = Pair(approximation: seq<real>, reference: seq<real>)

  predicate Matched(pairs: seq<Pair>) {
    forall i | 0 <= i < |pairs| :: |pairs[i].approximation| == |pairs[i].reference|
  }

  /** What auditing each pair leaves in its accumulator. */
  function Audited(pairs: seq<Pair>): (states: seq<Sums>)
    requires Matched(pairs)
    ensures |states| == |pairs|
  {
    seq(|pairs|, i requires 0 <= i < |pairs| => SumsOf(pairs[i].approximation, pairs[i].reference))
  }

  /** MAIN: tensors that pass a gate merge to an aggregate within its limit, aligned to a cosine of at least the
      root of 1 - limit^2. */
  lemma {:induction false} PassedAggregate(pairs: seq<Pair>, cosine: real, limit: real)
    requires Matched(pairs) && pairs != [] && 0.0 <= limit < 1.0 && AllPass(Audited(pairs), cosine, limit)
    ensures InLimit(Total(Audited(pairs)), limit * limit) && AlignedFor(Total(Audited(pairs)), limit * limit)
  {
    var states := Audited(pairs);
    AuditedAreConsistent(pairs);
    forall i | 0 <= i < |states| ensures InLimit(states[i], limit * limit) {
      AllPassAt(states, i, cosine, limit);
      PassesInLimit(states[i], cosine, limit);
    }
    SquareBelowOne(limit);
    AggregateBounds(states, limit * limit);
  }

  lemma {:induction false} PassesInLimit(s: Sums, cosine: real, limit: real)
    requires Passes(s, cosine, limit)
    ensures InLimit(s, limit * limit)
  {
  }

  lemma {:induction false} AuditedAreConsistent(pairs: seq<Pair>)
    requires Matched(pairs)
    ensures forall i | 0 <= i < |pairs| :: Consistent(Audited(pairs)[i])
    ensures forall i | 0 <= i < |pairs| :: Bounded(Audited(pairs)[i])
  {
    forall i | 0 <= i < |pairs| ensures Consistent(Audited(pairs)[i]) && Bounded(Audited(pairs)[i]) {
      SumsAreConsistent(pairs[i].approximation, pairs[i].reference);
    }
  }

  /** Whatever passes tensor by tensor passes the cosine gate as a whole. */
  ghost predicate CosineInherited(cosine: real, limit: real) {
    forall pairs: seq<Pair> | Matched(pairs) && AllPass(Audited(pairs), cosine, limit) ::
      Aligned(Total(Audited(pairs)), cosine)
  }

  function Repeated(x: real, k: nat): (s: seq<real>)
    ensures |s| == k
  {
    seq(k, i => x)
  }

  /** `k` ones, approximated by `k` times `x`. */
  lemma {:induction false} RepeatedSums(x: real, k: nat)
    ensures var s := SumsOf(Repeated(x, k), Repeated(1.0, k)); s.elements == k && OfOnes(s, x, k as real)
  {
    var a, r := Repeated(x, k), Repeated(1.0, k);
    if k == 0 {
      assert Singles(a, r) == [];
    } else {
      RepeatedSums(x, k - 1);
      SumsStep(a, r);
      assert a[1..] == Repeated(x, k - 1) && r[1..] == Repeated(1.0, k - 1);
      OneMoreOne(SumsOf(a, r), SumsOf(a[1..], r[1..]), x, (k - 1) as real, k as real);
    }
  }

  lemma {:induction false} OneMoreOne(s: Sums, rest: Sums, x: real, m: real, n: real)
    requires n == m + 1.0 && s == Plus(Single(x, 1.0), rest) && OfOnes(rest, x, m)
    ensures OfOnes(s, x, n)
  {
    Distributed(x, m, 1.0);
    Distributed(x * x, m, 1.0);
    Distributed((x - 1.0) * (x - 1.0), m, 1.0);
  }

  /** Such a tensor has cosine one, and passes if its relative error does. */
  lemma {:induction false} RepeatedPasses(x: real, k: nat, cosine: real, limit: real)
    requires k > 0 && x > 0.0 && 0.0 <= cosine <= 1.0 && (x - 1.0) * (x - 1.0) <= limit * limit
    ensures Passes(SumsOf(Repeated(x, k), Repeated(1.0, k)), cosine, limit)
  {
    RepeatedSums(x, k);
    var s, n := SumsOf(Repeated(x, k), Repeated(1.0, k)), k as real;
    OnesAligned(s, x, n, cosine);
    OnesWithin(s, x, n, limit);
  }

  lemma {:induction false} OnesWithin(s: Sums, x: real, n: real, limit: real)
    requires OfOnes(s, x, n) && n > 0.0 && (x - 1.0) * (x - 1.0) <= limit * limit
    ensures Within(s, limit)
  {
    Scaled(n, (x - 1.0) * (x - 1.0), limit * limit);
  }

  lemma {:induction false} OnesAligned(s: Sums, x: real, n: real, cosine: real)
    requires OfOnes(s, x, n) && n > 0.0 && x > 0.0 && 0.0 <= cosine <= 1.0
    ensures s.reference * s.approximation > 0.0 && Aligned(s, cosine)
  {
    Positive(x, x);
    var y := x * x;
    Positive(n, y);
    Positive(n, n * y);
    Positive(n, x);
    assert (n * x) * (n * x) == n * (n * y);
    SquareAtMostOne(cosine);
    AlignedByOne(s, n * (n * y), cosine * cosine, cosine);
  }

  lemma {:induction false} AlignedByOne(s: Sums, p: real, cc: real, cosine: real)
    requires s.dot >= 0.0 && s.dot * s.dot == p == s.reference * s.approximation && p > 0.0
        && cc == cosine * cosine <= 1.0
    ensures Aligned(s, cosine)
  {
    Scaled(p, cc, 1.0);
  }

  /** Two tensors whose aggregate is as badly aligned as the limit `m / n` allows: one approximation too long, the
      other too short by that much. */
  function WorstPairs(m: nat, n: nat): (pairs: seq<Pair>)
    requires m < n
    ensures Matched(pairs)
  {
    var s := m as real / n as real;
    [Pair(Repeated(1.0 + s, n - m), Repeated(1.0, n - m)), Pair(Repeated(1.0 - s, n + m), Repeated(1.0, n + m))]
  }

  lemma {:induction false} WorstPairsPass(m: nat, n: nat, cosine: real, limit: real)
    requires m < n && 0.0 <= cosine <= 1.0 && m as real <= limit * n as real && limit >= 0.0
    ensures AllPass(Audited(WorstPairs(m, n)), cosine, limit)
  {
    var s := m as real / n as real;
    QuotientAtMost(m as real, n as real, limit);
    SquareOrdered(s, limit);
    BelowOne(m as real, n as real);
    RepeatedPasses(1.0 + s, n - m, cosine, limit);
    RepeatedPasses(1.0 - s, n + m, cosine, limit);
    var states := Audited(WorstPairs(m, n));
    assert states[..1] == [states[0]] && states[..1][..0] == [];
    assert AllPass(states[..1], cosine, limit);
  }

  lemma {:induction false} QuotientAtMost(m: real, n: real, limit: real)
    requires n > 0.0 && 0.0 <= m <= limit * n
    ensures 0.0 <= m / n <= limit
  {
    var s := m / n;
    assert s * n == m;
    if s > limit { TimesGrows(limit, s, n); }
    if s < 0.0 { TimesGrows(s, 0.0, n); }
  }

  lemma {:induction false} TimesGrows(a: real, b: real, n: real)
    requires n > 0.0 && a < b
    ensures a * n < b * n
  {
    Positive(b - a, n);
    assert (b - a) * n == b * n - a * n;
  }

  lemma {:induction false} BelowOne(m: real, n: real)
    requires 0.0 <= m < n
    ensures m / n < 1.0
  {
    var s := m / n;
    assert s * n == m;
    if s > 1.0 { TimesGrows(1.0, s, n); }
  }

  lemma {:induction false} SquareOrdered(s: real, t: real)
    requires 0.0 <= s <= t
    ensures s * s <= t * t
  {
    Scaled(s, s, t);
    Scaled(t, s, t);
  }

  /** Their aggregate has squared cosine exactly 1 - (m / n)^2. */
  lemma {:induction false} WorstAggregate(m: nat, n: nat)
    requires m < n
    ensures var s := m as real / n as real; var total := Total(Audited(WorstPairs(m, n)));
            && total.reference * total.approximation > 0.0
            && total.dot * total.dot == (1.0 - s * s) * (total.reference * total.approximation)
  {
    var s := m as real / n as real;
    WorstSums(m, n);
    BelowOne(m as real, n as real);
    QuotientAtMost(m as real, n as real, 1.0);
    SquareBelowOne(s);
    WorstCosine(Total(Audited(WorstPairs(m, n))), n as real, 1.0 - s * s);
  }

  lemma {:induction false} WorstSums(m: nat, n: nat)
    requires m < n
    ensures var s := m as real / n as real; var total := Total(Audited(WorstPairs(m, n)));
            total.reference == 2.0 * n as real && total.approximation == 2.0 * (n as real * (1.0 - s * s)) == total.dot
  {
    var s := m as real / n as real;
    WorstParts(m, n, s);
    QuotientTimes(m as real, n as real);
    WorstTotal(Audited(WorstPairs(m, n)), s, n as real, (n - m) as real, (n + m) as real);
  }

  lemma {:induction false} QuotientTimes(m: real, n: real)
    requires n > 0.0
    ensures (m / n) * n == m
  {
  }

  lemma {:induction false} WorstTotal(states: seq<Sums>, s: real, k: real, a: real, b: real)
    requires |states| == 2 && a == k - s * k && b == k + s * k
    requires OfOnes(states[0], 1.0 + s, a) && OfOnes(states[1], 1.0 - s, b)
    ensures var total := Total(states);
            total.reference == 2.0 * k && total.approximation == 2.0 * (k * (1.0 - s * s)) == total.dot
  {
    TotalOfTwo(states);
    OnesAddUp(Total(states), states[0], states[1], s, k, a, b);
  }

  lemma {:induction false} OnesAddUp(total: Sums, first: Sums, second: Sums, s: real, k: real, a: real, b: real)
    requires OfOnes(first, 1.0 + s, a) && OfOnes(second, 1.0 - s, b) && a == k - s * k && b == k + s * k
    requires total.reference == first.reference + second.reference && total.dot == first.dot + second.dot
    requires total.approximation == first.approximation + second.approximation
    ensures total.reference == 2.0 * k && total.approximation == 2.0 * (k * (1.0 - s * s)) == total.dot
  {
    WorstAlgebra(s, k, a, b);
  }

  lemma {:induction false} WorstParts(m: nat, n: nat, s: real)
    requires m < n && s == m as real / n as real
    ensures var states := Audited(WorstPairs(m, n));
            OfOnes(states[0], 1.0 + s, (n - m) as real) && OfOnes(states[1], 1.0 - s, (n + m) as real)
  {
    RepeatedSums(1.0 + s, n - m);
    RepeatedSums(1.0 - s, n + m);
    var states := Audited(WorstPairs(m, n));
    assert states[0] == SumsOf(Repeated(1.0 + s, n - m), Repeated(1.0, n - m));
    assert states[1] == SumsOf(Repeated(1.0 - s, n + m), Repeated(1.0, n + m));
  }

  /** The sums of `n` ones approximated by `n` times `x`. */
  predicate OfOnes(s: Sums, x: real, n: real) {
    && s.reference == n && s.approximation == n * (x * x)
    && s.error == n * ((x - 1.0) * (x - 1.0)) && s.dot == n * x
  }

  lemma {:induction false} TotalOfTwo(states: seq<Sums>)
    requires |states| == 2
    ensures var total := Total(states);
            && total.reference == states[0].reference + states[1].reference
                && total.dot == states[0].dot + states[1].dot
            && total.approximation == states[0].approximation + states[1].approximation
  {
    assert states[1..][1..] == [];
    assert Total(states[1..]) == Plus(states[1], Zero());
  }

  lemma {:induction false} WorstAlgebra(s: real, k: real, a: real, b: real)
    requires a == k - s * k && b == k + s * k
    ensures a + b == 2.0 * k && a * (1.0 + s) + b * (1.0 - s) == 2.0 * (k * (1.0 - s * s))
    ensures a * ((1.0 + s) * (1.0 + s)) + b * ((1.0 - s) * (1.0 - s)) == 2.0 * (k * (1.0 - s * s))
  {
    assert a == k * (1.0 - s) && b == k * (1.0 + s);
    assert (1.0 - s) * (1.0 + s) == 1.0 - s * s;
    assert a * (1.0 + s) == k * (1.0 - s * s) && b * (1.0 - s) == k * (1.0 - s * s);
    assert a * ((1.0 + s) * (1.0 + s)) == (a * (1.0 + s)) * (1.0 + s);
    assert b * ((1.0 - s) * (1.0 - s)) == (b * (1.0 - s)) * (1.0 - s);
  }

  lemma {:induction false} WorstCosine(total: Sums, k: real, u: real)
    requires k > 0.0 && u > 0.0
    requires total.reference == 2.0 * k && total.approximation == 2.0 * (k * u) == total.dot
    ensures total.reference * total.approximation > 0.0
    ensures total.dot * total.dot == u * (total.reference * total.approximation)
  {
    Positive(k, u);
    Positive(2.0 * k, 2.0 * (k * u));
    assert (2.0 * (k * u)) * (2.0 * (k * u)) == u * ((2.0 * k) * (2.0 * (k * u)));
  }

  /** A fraction below the limit that is still too coarse for the cosine. */
  lemma {:induction false} CoarseFraction(cosine: real, limit: real) returns (m: nat, n: nat)
    requires 0.0 < limit < 1.0 && cosine * cosine > 1.0 - limit * limit
    ensures m < n && m as real <= limit * n as real
    ensures var s := m as real / n as real; cosine * cosine > 1.0 - s * s
  {
    var gap := cosine * cosine - (1.0 - limit * limit);
    n := Above(2.0, gap);
    var k := n as real;
    TimesGrows(0.0, limit, k);
    TimesGrows(limit, 1.0, k);
    m := (limit * k).Floor;
    CoarseEnough(limit, gap, k, m as real, m as real / k);
  }

  lemma {:induction false} Above(x: real, gap: real) returns (n: nat)
    requires x > 0.0 && gap > 0.0
    ensures n > 0 && n as real > x / gap
  {
    var q := x / gap;
    assert q * gap == x;
    if q < 0.0 { TimesGrows(q, 0.0, gap); }
    n := q.Floor + 1;
  }

  lemma {:induction false} CoarseEnough(limit: real, gap: real, k: real, m: real, s: real)
    requires 0.0 < limit < 1.0 && gap > 0.0 && k > 2.0 / gap && k > 0.0 && m >= 0.0
    requires m <= limit * k < m + 1.0 && s == m / k
    ensures limit * limit - s * s < gap
  {
    QuotientAtMost(m, k, limit);
    QuotientTimes(m, k);
    QuotientTimes(2.0, gap);
    PastTwo(gap, k, 2.0 / gap, gap * k);
    DifferenceTimes(limit, s, k, limit * k, m);
    HalfAGap(limit - s, gap, k, (limit - s) * k, gap * k);
    SquaresApart(limit, s, limit - s);
  }

  lemma {:induction false} PastTwo(gap: real, k: real, q: real, gk: real)
    requires gap > 0.0 && q * gap == 2.0 && k > q && gk == gap * k
    ensures gk > 2.0
  {
    TimesGrows(q, k, gap);
    Commuted(gap, k);
  }

  lemma {:induction false} Commuted(a: real, b: real)
    ensures a * b == b * a
  {
  }

  lemma {:induction false} DifferenceTimes(a: real, b: real, k: real, ak: real, bk: real)
    requires ak == a * k && bk == b * k
    ensures (a - b) * k == ak - bk
  {
  }

  lemma {:induction false} HalfAGap(d: real, gap: real, k: real, dk: real, gk: real)
    requires k > 0.0 && dk == d * k && gk == gap * k && dk < 1.0 && gk > 2.0
    ensures 2.0 * d < gap
  {
    TwiceTimes(d, k, dk);
    Cancels(2.0 * d, gap, k);
  }

  lemma {:induction false} TwiceTimes(d: real, k: real, dk: real)
    requires dk == d * k
    ensures (2.0 * d) * k == 2.0 * dk
  {
  }

  lemma {:induction false} Cancels(a: real, b: real, k: real)
    requires k > 0.0 && a * k < b * k
    ensures a < b
  {
    if b < a {
      TimesGrows(b, a, k);
    }
  }

  lemma {:induction false} SquaresApart(limit: real, s: real, d: real)
    requires 0.0 <= s <= limit < 1.0 && d == limit - s
    ensures limit * limit - s * s <= 2.0 * d
  {
    Scaled(d, limit + s, 2.0);
    assert limit * limit - s * s == d * (limit + s);
  }

  /** MAIN: for gates between 0 and 1, what passes the cosine gate tensor by tensor passes it as a whole for all
      tensors if and only if the squared cosine is at most 1 - limit^2. */
  lemma {:induction false} CosineInheritedExactly(cosine: real, limit: real)
    requires 0.0 <= cosine <= 1.0 && 0.0 < limit < 1.0
    ensures CosineInherited(cosine, limit) <==> cosine * cosine <= 1.0 - limit * limit
  {
    if cosine * cosine <= 1.0 - limit * limit {
      forall pairs: seq<Pair> | Matched(pairs) && AllPass(Audited(pairs), cosine, limit)
        ensures Aligned(Total(Audited(pairs)), cosine)
      {
        InheritedBy(pairs, cosine, limit);
      }
    } else {
      var m, n := CoarseFraction(cosine, limit);
      NotInheritedBy(m, n, cosine, limit);
    }
  }

  lemma {:induction false} InheritedBy(pairs: seq<Pair>, cosine: real, limit: real)
    requires Matched(pairs) && AllPass(Audited(pairs), cosine, limit)
    requires 0.0 < limit < 1.0 && cosine * cosine <= 1.0 - limit * limit
    ensures Aligned(Total(Audited(pairs)), cosine)
  {
    if pairs == [] {
      assert Audited(pairs) == [];
    } else {
      PassedAggregate(pairs, cosine, limit);
      AuditedAreConsistent(pairs);
      MergeKeepsBound(Audited(pairs));
      AlignedEnough(Total(Audited(pairs)), cosine, limit * limit);
    }
  }

  lemma {:induction false} AlignedEnough(s: Sums, cosine: real, tt: real)
    requires AlignedFor(s, tt) && s.reference >= 0.0 && s.approximation >= 0.0 && cosine * cosine <= 1.0 - tt
    ensures Aligned(s, cosine)
  {
    Product(s.reference, s.approximation);
    Scaled(s.reference * s.approximation, cosine * cosine, 1.0 - tt);
  }

  lemma {:induction false} NotInheritedBy(m: nat, n: nat, cosine: real, limit: real)
    requires m < n && m as real <= limit * n as real && 0.0 <= cosine <= 1.0 && limit >= 0.0
    requires var s := m as real / n as real; cosine * cosine > 1.0 - s * s
    ensures !CosineInherited(cosine, limit)
    ensures AllPass(Audited(WorstPairs(m, n)), cosine, limit) && !Aligned(Total(Audited(WorstPairs(m, n))), cosine)
  {
    WorstPairsPass(m, n, cosine, limit);
    WorstMisaligned(m, n, cosine);
    FailsFor(WorstPairs(m, n), cosine, limit);
  }

  lemma {:induction false} WorstMisaligned(m: nat, n: nat, cosine: real)
    requires m < n
    requires var s := m as real / n as real; cosine * cosine > 1.0 - s * s
    ensures !Aligned(Total(Audited(WorstPairs(m, n))), cosine)
  {
    var s := m as real / n as real;
    WorstAggregate(m, n);
    Misaligned(Total(Audited(WorstPairs(m, n))), 1.0 - s * s, cosine);
  }

  lemma {:induction false} FailsFor(pairs: seq<Pair>, cosine: real, limit: real)
    requires Matched(pairs) && AllPass(Audited(pairs), cosine, limit) && !Aligned(Total(Audited(pairs)), cosine)
    ensures !CosineInherited(cosine, limit)
  {
  }

  lemma {:induction false} Misaligned(s: Sums, u: real, cosine: real)
    requires s.reference * s.approximation > 0.0 && s.dot * s.dot == u * (s.reference * s.approximation)
        && u < cosine * cosine
    ensures !Aligned(s, cosine)
  {
    TimesGrows(u, cosine * cosine, s.reference * s.approximation);
  }

  /** Neither gate in use is inherited: tensors that all pass the FP8 gate, or all pass the NVFP4 gate, merge to an
      aggregate below the cosine that each of them was held to. The approximations are 147/128, 109/128, 1.5 and 0.5:
      values of FP8 or FP4 times a BF16 scale. */
  lemma {:induction false} GatesInUseNotInherited()
    ensures AllPass(Audited(WorstPairs(19, 128)), 0.99, 0.15) && !Aligned(Total(Audited(WorstPairs(19, 128))), 0.99)
    ensures AllPass(Audited(WorstPairs(1, 2)), 0.90, 0.50) && !Aligned(Total(Audited(WorstPairs(1, 2))), 0.90)
  {
    assert 19 as real / 128 as real == 0.1484375 && 1 as real / 2 as real == 0.5;
    NotInheritedBy(19, 128, 0.99, 0.15);
    NotInheritedBy(1, 2, 0.90, 0.50);
  }
}
