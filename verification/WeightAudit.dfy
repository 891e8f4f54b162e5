/** The audit's loops (`scripts/audit_weight_quantization.py` lines 382-493, 652-696): row chunks into one
    accumulator, and accumulators behind a gate into one total. */
module WeightAudit {
  import opened Wrappers
  import opened Accumulator
  import opened Nvfp4

  function Concat<T>(rows: seq<seq<T>>): seq<T> {
    if rows == [] then [] else rows[0] + Concat(rows[1..])
  }

  lemma {:induction false} ConcatSplits<T>(a: seq<seq<T>>, b: seq<seq<T>>)
    ensures Concat(a + b) == Concat(a) + Concat(b)
    decreases |a|
  {
    if a == [] {
      assert a + b == b;
    } else {
      assert (a + b)[1..] == a[1..] + b;
      ConcatSplits(a[1..], b);
      assert a[0] + (Concat(a[1..]) + Concat(b)) == a[0] + Concat(a[1..]) + Concat(b);
    }
  }

  lemma {:induction false} ConcatOne<T>(rows: seq<seq<T>>, row: seq<T>)
    ensures Concat(rows + [row]) == Concat(rows) + row
  {
    ConcatSplits(rows, [row]);
    assert [row][1..] == [] && Concat([row]) == row + Concat([]) == row;
  }

  /** A tensor with two dimensions. */
  predicate Matrix<T>(rows: seq<seq<T>>, width: nat) {
    forall r | 0 <= r < |rows| :: |rows[r]| == width
  }

  lemma {:induction false} MatrixSize<T>(rows: seq<seq<T>>, width: nat)
    requires Matrix(rows, width)
    ensures |Concat(rows)| == |rows| * width
    decreases |rows|
  {
    if rows != [] {
      assert forall r | 0 <= r < |rows| - 1 :: rows[1..][r] == rows[r + 1];
      MatrixSize(rows[1..], width);
      assert |rows| * width == width + (|rows| - 1) * width;
    }
  }

  // ----- FP8 -----

  function TimesScale(row: seq<real>, scale: real): (r: seq<real>)
    ensures |r| == |row|
  {
    seq(|row|, c requires 0 <= c < |row| => row[c] * scale)
  }

  function Fp8Rows(quantized: seq<seq<real>>, scales: seq<real>): (rows: seq<seq<real>>)
    requires |scales| == |quantized|
    ensures |rows| == |quantized|
  {
    seq(|quantized|, r requires 0 <= r < |quantized| => TimesScale(quantized[r], scales[r]))
  }

  const FP8_MAX: real := 448.0

  function Saturated(values: seq<real>): nat {
    if values == [] then 0 else (if AbsReal(values[0]) == FP8_MAX then 1 else 0) + Saturated(values[1..])
  }

  lemma {:induction false} SaturatedConcat(a: seq<real>, b: seq<real>)
    ensures Saturated(a + b) == Saturated(a) + Saturated(b)
    decreases |a|
  {
    if a == [] {
      assert a + b == b;
    } else {
      assert (a + b)[1..] == a[1..] + b;
      SaturatedConcat(a[1..], b);
    }
  }

  datatype Refusal = BadShape | BadScale | BadDivisor

  predicate AllPositive(scales: seq<real>) {
    forall i | 0 <= i < |scales| :: scales[i] > 0.0
  }

  /** The sums of the first `n` rows. */
  ghost predicate SumsSoFar(sums: Sums, rows: seq<seq<real>>, official: seq<seq<real>>, n: nat) {
    && n <= |rows| == |official| && |Concat(rows[..n])| == |Concat(official[..n])|
    && sums == SumsOf(Concat(rows[..n]), Concat(official[..n]))
  }

  /** One chunk's update. */
  method AddChunk(accumulator: ErrorAccumulator, approximation: seq<real>, ghost rows: seq<seq<real>>,
                  official: seq<seq<real>>,
                  width: nat, start: nat, end: nat)
    requires start <= end <= |rows| == |official| && Matrix(rows, width) && Matrix(official, width)
    requires SumsSoFar(accumulator.State(), rows, official, start) && approximation == Concat(rows[start..end])
    modifies accumulator
    ensures SumsSoFar(accumulator.State(), rows, official, end)
  {
    ChunkSizes(rows, official, width, start, end);
    var ok := accumulator.Update(approximation, Concat(official[start..end]));
    ChunkStep(rows, official, start, end);
  }

  /** `audit_fp8_tensor`: the chunks' sums are the sums of the whole tensor, whatever the chunk size; the scales of
      every row are checked. */
  method AuditFp8(quantized: seq<seq<real>>, scales: seq<real>, official: seq<seq<real>>, width: nat,
                  officialWidth: nat,
                  chunkRows: nat)
    returns (refusal: Option<Refusal>, accumulator: ErrorAccumulator, saturation: nat)
    requires Matrix(quantized, width) && Matrix(official, officialWidth) && chunkRows > 0
    ensures fresh(accumulator)
    ensures refusal == None <==>
              |official| == |quantized| && officialWidth == width && |scales| == |quantized| && AllPositive(scales)
    ensures refusal == None ==>
              && |Concat(Fp8Rows(quantized, scales))| == |Concat(official)|
              && accumulator.State() == SumsOf(Concat(Fp8Rows(quantized, scales)), Concat(official))
              && saturation == Saturated(Concat(quantized))
  {
    accumulator := new ErrorAccumulator();
    saturation := 0;
    if |official| != |quantized| || officialWidth != width { return Some(BadShape), accumulator, 0; }
    if |scales| != |quantized| { return Some(BadShape), accumulator, 0; }
    ghost var rows := Fp8Rows(quantized, scales);
    Fp8Sized(quantized, scales, width);
    MatrixSize(rows, width);
    MatrixSize(official, width);
    var start := 0;
    PrefixStart(rows, official, quantized, width);
    while start < |quantized|
      invariant 0 <= start <= |quantized|
      invariant AllPositive(scales[..start])
      invariant SumsSoFar(accumulator.State(), rows, official, start)
      invariant saturation == Saturated(Concat(quantized[..start]))
    {
      var end := if start + chunkRows < |quantized| then start + chunkRows else |quantized|;
      if !AllPositive(scales[start..end]) {
        NotAllPositive(scales, start, end);
        return Some(BadScale), accumulator, 0;
      }
      AllPositiveSoFar(scales, start, end);
      var approximation := Concat(Fp8Rows(quantized[start..end], scales[start..end]));
      Fp8Slice(quantized, scales, start, end);
      AddChunk(accumulator, approximation, rows, official, width, start, end);
      ChunkSaturation(quantized, start, end);
      saturation := saturation + Saturated(Concat(quantized[start..end]));
      start := end;
    }
    assert rows[..start] == rows && official[..start] == official && quantized[..start] == quantized
        && scales[..start] == scales;
    refusal := None;
  }

  lemma {:induction false} Fp8Slice(quantized: seq<seq<real>>, scales: seq<real>, start: nat, end: nat)
    requires |scales| == |quantized| && start <= end <= |quantized|
    ensures Fp8Rows(quantized[start..end], scales[start..end]) == Fp8Rows(quantized, scales)[start..end]
  {
  }

  lemma {:induction false} Fp8Sized(quantized: seq<seq<real>>, scales: seq<real>, width: nat)
    requires |scales| == |quantized| && Matrix(quantized, width)
    ensures Matrix(Fp8Rows(quantized, scales), width)
  {
  }

  lemma {:induction false} PrefixStart(rows: seq<seq<real>>, official: seq<seq<real>>, quantized: seq<seq<real>>,
                                       width: nat)
    ensures Concat(rows[..0]) == Concat(official[..0]) == Concat(quantized[..0]) == []
    ensures SumsOf(Concat(rows[..0]), Concat(official[..0])) == Zero()
    ensures |rows| == |official| ==> SumsSoFar(Zero(), rows, official, 0)
  {
    assert Singles([], []) == [];
  }

  lemma {:induction false} NotAllPositive(scales: seq<real>, start: nat, end: nat)
    requires start <= end <= |scales| && !AllPositive(scales[start..end])
    ensures !AllPositive(scales)
  {
    var i :| 0 <= i < end - start && scales[start..end][i] <= 0.0;
    assert scales[start + i] <= 0.0;
  }

  lemma {:induction false} AllPositiveSoFar(scales: seq<real>, start: nat, end: nat)
    requires start <= end <= |scales| && AllPositive(scales[..start]) && AllPositive(scales[start..end])
    ensures AllPositive(scales[..end])
  {
    forall i | 0 <= i < end ensures scales[..end][i] > 0.0 {
      if i < start { assert scales[..start][i] > 0.0; } else { assert scales[start..end][i - start] > 0.0; }
    }
  }

  lemma {:induction false} ChunkSizes(rows: seq<seq<real>>, official: seq<seq<real>>, width: nat, start: nat, end: nat)
    requires start <= end <= |rows| == |official| && Matrix(rows, width) && Matrix(official, width)
    ensures |Concat(rows[start..end])| == |Concat(official[start..end])|
  {
    MatrixSize(rows[start..end], width);
    MatrixSize(official[start..end], width);
  }

  /** One more chunk. */
  lemma {:induction false} ChunkStep(rows: seq<seq<real>>, official: seq<seq<real>>, start: nat, end: nat)
    requires start <= end <= |rows| == |official|
    requires |Concat(rows[..start])| == |Concat(official[..start])|
        && |Concat(rows[start..end])| == |Concat(official[start..end])|
    ensures |Concat(rows[..end])| == |Concat(official[..end])|
    ensures SumsOf(Concat(rows[..end]), Concat(official[..end]))
         == Plus(SumsOf(Concat(rows[..start]), Concat(official[..start])),
                 SumsOf(Concat(rows[start..end]), Concat(official[start..end])))
  {
    assert rows[..end] == rows[..start] + rows[start..end]
        && official[..end] == official[..start] + official[start..end];
    ConcatSplits(rows[..start], rows[start..end]);
    ConcatSplits(official[..start], official[start..end]);
    ChunksMerge(Concat(rows[..start]), Concat(rows[start..end]), Concat(official[..start]),
        Concat(official[start..end]));
  }

  lemma {:induction false} ChunkSaturation(rows: seq<seq<real>>, start: nat, end: nat)
    requires start <= end <= |rows|
    ensures Saturated(Concat(rows[..end])) == Saturated(Concat(rows[..start])) + Saturated(Concat(rows[start..end]))
  {
    assert rows[..end] == rows[..start] + rows[start..end];
    ConcatSplits(rows[..start], rows[start..end]);
    SaturatedConcat(Concat(rows[..start]), Concat(rows[start..end]));
  }

  // ----- NVFP4 -----

  function Lows(packed: seq<Byte>): seq<nat> {
    if packed == [] then [] else [packed[0] % 16] + Lows(packed[1..])
  }

  function Highs(packed: seq<Byte>): seq<nat> {
    if packed == [] then [] else [packed[0] / 16] + Highs(packed[1..])
  }

  function Occurrences(codes: seq<nat>, k: nat): nat {
    if codes == [] then 0 else (if codes[0] == k then 1 else 0) + Occurrences(codes[1..], k)
  }

  /** `count_nonzero((codes & 7) == 7)` */
  function Largest(codes: seq<nat>): nat {
    if codes == [] then 0 else (if codes[0] % 8 == 7 then 1 else 0) + Largest(codes[1..])
  }

  lemma {:induction false} OccurrencesConcat(a: seq<nat>, b: seq<nat>, k: nat)
    ensures Occurrences(a + b, k) == Occurrences(a, k) + Occurrences(b, k)
    decreases |a|
  {
    if a == [] {
      assert a + b == b;
    } else {
      assert (a + b)[1..] == a[1..] + b;
      OccurrencesConcat(a[1..], b, k);
    }
  }

  /** Low and high nibbles together are the codes. */
  lemma {:induction false} NibblesAreCodes(packed: seq<Byte>, k: nat)
    ensures Occurrences(Codes(packed), k) == Occurrences(Lows(packed), k) + Occurrences(Highs(packed), k)
    decreases |packed|
  {
    if packed != [] {
      NibblesAreCodes(packed[1..], k);
      OccurrencesConcat([packed[0] % 16 as nat, packed[0] / 16], Codes(packed[1..]), k);
      var two := [packed[0] % 16 as nat, packed[0] / 16];
      assert two[1..] == [packed[0] / 16] && two[1..][1..] == [];
      assert Occurrences(two[1..], k) == (if packed[0] / 16 == k then 1 else 0) + Occurrences([], k);
      assert Lows(packed)[1..] == Lows(packed[1..]) && Highs(packed)[1..] == Highs(packed[1..]);
    }
  }

  predicate Nibbles(codes: seq<nat>) {
    forall i | 0 <= i < |codes| :: codes[i] < 16
  }

  lemma {:induction false} LowsHighsNibbles(packed: seq<Byte>)
    ensures Nibbles(Lows(packed)) && Nibbles(Highs(packed))
  {
    if packed != [] { LowsHighsNibbles(packed[1..]); }
  }

  /** The largest magnitude has two codes. */
  lemma {:induction false} LargestIsTwoCodes(codes: seq<nat>)
    requires Nibbles(codes)
    ensures Largest(codes) == Occurrences(codes, 7) + Occurrences(codes, 15)
    decreases |codes|
  {
    if codes != [] {
      LargestIsTwoCodes(codes[1..]);
    }
  }

  function BinSum(histogram: seq<nat>, n: nat): nat
    requires n <= |histogram|
  {
    if n == 0 then 0 else BinSum(histogram, n - 1) + histogram[n - 1]
  }

  /** How many of the codes are below `n`, counted code by code. */
  function CountBelow(codes: seq<nat>, n: nat): nat {
    if n == 0 then 0 else CountBelow(codes, n - 1) + Occurrences(codes, n - 1)
  }

  lemma {:induction false} CountBelowStep(codes: seq<nat>, n: nat)
    requires codes != []
    ensures CountBelow(codes, n) == CountBelow(codes[1..], n) + (if codes[0] < n then 1 else 0)
  {
    if n > 0 { CountBelowStep(codes, n - 1); }
  }

  lemma {:induction false} CountNone(n: nat)
    ensures CountBelow([], n) == 0
  {
    if n > 0 { CountNone(n - 1); }
  }

  lemma {:induction false} CountBelowAll(codes: seq<nat>, n: nat)
    requires forall i | 0 <= i < |codes| :: codes[i] < n
    ensures CountBelow(codes, n) == |codes|
    decreases |codes|
  {
    if codes == [] {
      CountNone(n);
    } else {
      CountBelowAll(codes[1..], n);
      CountBelowStep(codes, n);
    }
  }

  /** `histogram += bincount(codes, minlength=16)` */
  method AddBins(histogram: array<nat>, codes: seq<nat>)
    requires histogram.Length == 16 && Nibbles(codes)
    modifies histogram
    ensures forall k | 0 <= k < 16 :: histogram[k] == old(histogram[k]) + Occurrences(codes, k)
  {
    for i := 0 to |codes|
      invariant forall k | 0 <= k < 16 ::
          histogram[k] + Occurrences(codes[i..], k) == old(histogram[k]) + Occurrences(codes, k)
    {
      assert codes[i..][0] == codes[i] && codes[i..][1..] == codes[i + 1..];
      histogram[codes[i]] := histogram[codes[i]] + 1;
    }
    assert codes[|codes|..] == [];
  }

  function CodeRows(packed: seq<seq<Byte>>): (rows: seq<seq<nat>>)
    ensures |rows| == |packed|
  {
    seq(|packed|, r requires 0 <= r < |packed| => Codes(packed[r]))
  }

  /** One row's nibbles into the histogram and the saturation count. */
  method CountRow(packed: seq<Byte>, histogram: array<nat>) returns (saturated: nat)
    requires histogram.Length == 16
    modifies histogram
    ensures forall k | 0 <= k < 16 :: histogram[k] == old(histogram[k]) + Occurrences(Codes(packed), k)
    ensures saturated == Occurrences(Codes(packed), 7) + Occurrences(Codes(packed), 15)
  {
    LowsHighsNibbles(packed);
    AddBins(histogram, Lows(packed));
    AddBins(histogram, Highs(packed));
    forall k | 0 <= k < 16
      ensures Occurrences(Codes(packed), k) == Occurrences(Lows(packed), k) + Occurrences(Highs(packed), k)
    {
      NibblesAreCodes(packed, k);
    }
    LargestIsTwoCodes(Lows(packed));
    LargestIsTwoCodes(Highs(packed));
    saturated := Largest(Lows(packed)) + Largest(Highs(packed));
  }

  /** What the shape checks and the grouping by sixteen demand; `width` counts packed bytes. */
  predicate Nvfp4Shapes(packed: seq<seq<Byte>>, scales: seq<seq<real>>, official: seq<seq<real>>, width: nat) {
    && |scales| == |packed| == |official|
    && (packed == [] || 2 * width % 16 == 0)
    && Matrix(packed, width) && Matrix(scales, 2 * width / 16) && Matrix(official, 2 * width)
  }

  predicate AllRowsPositive(scales: seq<seq<real>>) {
    forall r | 0 <= r < |scales| :: AllPositive(scales[r])
  }

  function Nvfp4Rows(packed: seq<seq<Byte>>, scales: seq<seq<real>>, divisor: real): (rows: seq<seq<real>>)
    requires |scales| == |packed| && divisor != 0.0
    requires forall r | 0 <= r < |packed| :: |packed[r]| <= 8 * |scales[r]|
    ensures |rows| == |packed|
  {
    seq(|packed|, r requires 0 <= r < |packed| => DequantizeRow(packed[r], scales[r], divisor))
  }

  lemma {:induction false} ShapesFit(packed: seq<seq<Byte>>, scales: seq<seq<real>>, official: seq<seq<real>>,
                                     width: nat)
    requires Nvfp4Shapes(packed, scales, official, width)
    ensures forall r | 0 <= r < |packed| :: |packed[r]| <= 8 * |scales[r]|
  {
  }

  lemma {:induction false} RowsSized(packed: seq<seq<Byte>>, scales: seq<seq<real>>, official: seq<seq<real>>,
                                     width: nat, divisor: real)
    requires Nvfp4Shapes(packed, scales, official, width) && divisor != 0.0
    requires forall r | 0 <= r < |packed| :: |packed[r]| <= 8 * |scales[r]|
    ensures Matrix(Nvfp4Rows(packed, scales, divisor), 2 * width)
  {
  }

  /** A row's pieces of the running totals. */
  lemma {:induction false} CountsStep(packed: seq<seq<Byte>>, row: nat, k: nat)
    requires row < |packed|
    ensures Occurrences(Concat(CodeRows(packed[..row + 1])), k)
         == Occurrences(Concat(CodeRows(packed[..row])), k) + Occurrences(Codes(packed[row]), k)
  {
    assert CodeRows(packed[..row + 1]) == CodeRows(packed[..row]) + [Codes(packed[row])];
    ConcatOne(CodeRows(packed[..row]), Codes(packed[row]));
    OccurrencesConcat(Concat(CodeRows(packed[..row])), Codes(packed[row]), k);
  }

  predicate Counted(histogram: seq<nat>, codes: seq<nat>) {
    |histogram| == 16 && forall k | 0 <= k < 16 :: histogram[k] == Occurrences(codes, k)
  }

  /** One more row in the running totals. */
  method CountNext(packed: seq<seq<Byte>>, row: nat, histogram: array<nat>, before: nat) returns (saturated: nat)
    requires row < |packed| && histogram.Length == 16
    requires Counted(histogram[..], Concat(CodeRows(packed[..row]))) && before == histogram[7] + histogram[15]
    modifies histogram
    ensures Counted(histogram[..], Concat(CodeRows(packed[..row + 1]))) && saturated == histogram[7] + histogram[15]
  {
    ghost var was := histogram[..];
    var more := CountRow(packed[row], histogram);
    saturated := before + more;
    forall k | 0 <= k < 16 ensures histogram[..][k] == Occurrences(Concat(CodeRows(packed[..row + 1])), k) {
      CountsStep(packed, row, k);
      assert histogram[k] == was[k] + Occurrences(Codes(packed[row]), k);
    }
  }

  method ScaledRow(packed: seq<Byte>, scales: seq<real>, divisor: real) returns (values: seq<real>)
    requires |packed| <= 8 * |scales| && divisor != 0.0
    ensures values == DequantizeRow(packed, scales, divisor)
  {
    var decoded := DecodeStrided(packed);
    CodesLength(packed);
    values := ScaleRow(decoded[..], scales, divisor);
  }

  /** The nibble counts of one chunk. */
  method CountChunk(packed: seq<seq<Byte>>, start: nat, end: nat, histogram: array<nat>, before: nat)
    returns (saturated: nat)
    requires start <= end <= |packed| && histogram.Length == 16
    requires Counted(histogram[..], Concat(CodeRows(packed[..start]))) && before == histogram[7] + histogram[15]
    modifies histogram
    ensures Counted(histogram[..], Concat(CodeRows(packed[..end]))) && saturated == histogram[7] + histogram[15]
  {
    saturated := before;
    for row := start to end
      invariant Counted(histogram[..], Concat(CodeRows(packed[..row]))) && saturated == histogram[7] + histogram[15]
    {
      saturated := CountNext(packed, row, histogram, saturated);
    }
  }

  /** The decoded and scaled values of one chunk. */
  method DecodeChunk(packed: seq<seq<Byte>>, scales: seq<seq<real>>, divisor: real, start: nat, end: nat,
                     ghost rows: seq<seq<real>>)
    returns (approximation: seq<real>)
    requires |scales| == |packed| == |rows| && divisor != 0.0 && start <= end <= |packed|
    requires forall r | 0 <= r < |packed| :: |packed[r]| <= 8 * |scales[r]|
    requires forall r | 0 <= r < |packed| :: rows[r] == DequantizeRow(packed[r], scales[r], divisor)
    ensures approximation == Concat(rows[start..end])
  {
    approximation := [];
    for row := start to end
      invariant approximation == Concat(rows[start..row])
    {
      var values := ScaledRow(packed[row], scales[row], divisor);
      approximation := approximation + values;
      assert rows[start..row + 1] == rows[start..row] + [rows[row]];
      ConcatOne(rows[start..row], rows[row]);
    }
  }

  /** `audit_nvfp4_tensor`: sums of the whole tensor, a histogram of all its codes, and saturation counts that the
      histogram confirms, whatever the chunk size. */
  method AuditNvfp4(packed: seq<seq<Byte>>, scales: seq<seq<real>>, official: seq<seq<real>>, width: nat,
                    divisor: real, inputDivisor: real, chunkRows: nat)
    returns (refusal: Option<Refusal>, accumulator: ErrorAccumulator, histogram: array<nat>, saturated: nat,
        scaleSaturated: nat)
    requires chunkRows > 0
    ensures fresh(accumulator) && histogram.Length == 16
    ensures refusal == None <==>
              Nvfp4Shapes(packed, scales, official, width) && divisor > 0.0 && inputDivisor > 0.0
                  && AllRowsPositive(scales)
    ensures refusal == None ==>
              && (forall r | 0 <= r < |packed| :: |packed[r]| <= 8 * |scales[r]|)
              && |Concat(Nvfp4Rows(packed, scales, divisor))| == |Concat(official)|
              && accumulator.State() == SumsOf(Concat(Nvfp4Rows(packed, scales, divisor)), Concat(official))
    ensures refusal == None ==>
              && Counted(histogram[..], Concat(CodeRows(packed)))
              && saturated == histogram[7] + histogram[15] && scaleSaturated == Saturated(Concat(scales))
  {
    accumulator := new ErrorAccumulator();
    histogram := new nat[16](i => 0);
    saturated, scaleSaturated := 0, 0;
    if !Nvfp4Shapes(packed, scales, official, width) { refusal := Some(BadShape); return; }
    if divisor <= 0.0 || inputDivisor <= 0.0 { refusal := Some(BadDivisor); return; }
    ShapesFit(packed, scales, official, width);
    ghost var rows := Nvfp4Rows(packed, scales, divisor);
    RowsSized(packed, scales, official, width, divisor);
    MatrixSize(rows, 2 * width);
    MatrixSize(official, 2 * width);
    var start := 0;
    PrefixStart(rows, official, scales, width);
    assert CodeRows(packed[..0]) == [];
    while start < |packed|
      invariant 0 <= start <= |packed|
      invariant AllRowsPositive(scales[..start])
      invariant SumsSoFar(accumulator.State(), rows, official, start)
      invariant Counted(histogram[..], Concat(CodeRows(packed[..start]))) && saturated == histogram[7] + histogram[15]
      invariant scaleSaturated == Saturated(Concat(scales[..start]))
    {
      var end := if start + chunkRows < |packed| then start + chunkRows else |packed|;
      saturated := CountChunk(packed, start, end, histogram, saturated);
      var approximation := DecodeChunk(packed, scales, divisor, start, end, rows);
      if !AllRowsPositive(scales[start..end]) {
        RowNotPositive(scales, start, end);
        refusal := Some(BadScale);
        return;
      }
      RowsPositiveSoFar(scales, start, end);
      scaleSaturated := scaleSaturated + Saturated(Concat(scales[start..end]));
      AddChunk(accumulator, approximation, rows, official, 2 * width, start, end);
      ChunkSaturation(scales, start, end);
      start := end;
    }
    assert rows[..start] == rows && official[..start] == official && packed[..start] == packed
        && scales[..start] == scales;
    refusal := None;
  }

  lemma {:induction false} RowNotPositive(scales: seq<seq<real>>, start: nat, end: nat)
    requires start <= end <= |scales| && !AllRowsPositive(scales[start..end])
    ensures !AllRowsPositive(scales)
  {
    var i :| 0 <= i < end - start && !AllPositive(scales[start..end][i]);
    assert !AllPositive(scales[start + i]);
  }

  lemma {:induction false} RowsPositiveSoFar(scales: seq<seq<real>>, start: nat, end: nat)
    requires start <= end <= |scales| && AllRowsPositive(scales[..start]) && AllRowsPositive(scales[start..end])
    ensures AllRowsPositive(scales[..end])
  {
    forall i | 0 <= i < end ensures AllPositive(scales[..end][i]) {
      if i < start {
        assert AllPositive(scales[..start][i]);
      } else {
        assert AllPositive(scales[start..end][i - start]);
      }
    }
  }

  /** MAIN: a complete histogram's bins add up to the elements of the tensor, so its saturation fraction is over the
      right total. */
  lemma {:induction false} HistogramIsComplete(histogram: seq<nat>, packed: seq<seq<Byte>>, width: nat)
    requires Matrix(packed, width) && Counted(histogram, Concat(CodeRows(packed)))
    ensures BinSum(histogram, 16) == |packed| * (2 * width)
  {
    var codes := Concat(CodeRows(packed));
    CodeRowsSized(packed, width);
    MatrixSize(CodeRows(packed), 2 * width);
    AllNibbles(packed);
    CountBelowAll(codes, 16);
    BinsAreCounts(histogram, codes, 16);
  }

  lemma {:induction false} BinsAreCounts(histogram: seq<nat>, codes: seq<nat>, n: nat)
    requires Counted(histogram, codes) && n <= 16
    ensures BinSum(histogram, n) == CountBelow(codes, n)
  {
    if n > 0 { BinsAreCounts(histogram, codes, n - 1); }
  }

  lemma {:induction false} CodeRowsSized(packed: seq<seq<Byte>>, width: nat)
    requires Matrix(packed, width)
    ensures Matrix(CodeRows(packed), 2 * width)
  {
    forall r | 0 <= r < |packed| ensures |CodeRows(packed)[r]| == 2 * width { CodesLength(packed[r]); }
  }

  lemma {:induction false} AllNibbles(packed: seq<seq<Byte>>)
    ensures Nibbles(Concat(CodeRows(packed)))
    decreases |packed|
  {
    if packed != [] {
      RowNibbles(packed[0]);
      AllNibbles(packed[1..]);
      assert CodeRows(packed) == [Codes(packed[0])] + CodeRows(packed[1..]);
    }
  }

  lemma {:induction false} RowNibbles(packed: seq<Byte>)
    ensures Nibbles(Codes(packed))
  {
    if packed != [] { RowNibbles(packed[1..]); }
  }
}
