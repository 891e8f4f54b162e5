/** The NVFP4 layouts (`scripts/nvfp4_kernel_unit.py` lines 32-83, `scripts/audit_weight_quantization.py` lines
    460-483): row-major views and axis permutations, the swizzled scale buffer, and the two decoders. */
module Nvfp4 {
  import opened Division
  import opened Wrappers

  // ----- row-major views -----

  function Size(dims: seq<nat>): nat {
    if dims == [] then 1 else dims[0] * Size(dims[1..])
  }

  predicate InBounds(dims: seq<nat>, index: seq<nat>) {
    |index| == |dims| && forall i | 0 <= i < |dims| :: index[i] < dims[i]
  }

  /** Where an element of a view lies in the flat buffer. */
  function Offset(dims: seq<nat>, index: seq<nat>): nat
    requires |index| == |dims|
  {
    if dims == [] then 0 else index[0] * Size(dims[1..]) + Offset(dims[1..], index[1..])
  }

  /** Which element of a view a flat offset is. */
  function Coordinates(dims: seq<nat>, flat: nat): (index: seq<nat>)
    ensures |index| == |dims|
  {
    if dims == [] then []
    else if Size(dims[1..]) == 0 then [0] + Coordinates(dims[1..], 0)
    else [flat / Size(dims[1..])] + Coordinates(dims[1..], flat % Size(dims[1..]))
  }

  lemma {:induction false} TailInBounds(dims: seq<nat>, index: seq<nat>)
    requires dims != []
    ensures InBounds(dims, index) <==> |index| == |dims| && index[0] < dims[0] && InBounds(dims[1..], index[1..])
  {
    if |index| == |dims| && index[0] < dims[0] && InBounds(dims[1..], index[1..]) {
      forall i | 0 <= i < |dims| ensures index[i] < dims[i] {
        if i > 0 { assert index[1..][i - 1] < dims[1..][i - 1]; }
      }
    }
  }

  lemma {:induction false} OffsetInRange(dims: seq<nat>, index: seq<nat>)
    requires InBounds(dims, index)
    ensures Offset(dims, index) < Size(dims)
    decreases |dims|
  {
    if dims != [] {
      TailInBounds(dims, index);
      OffsetInRange(dims[1..], index[1..]);
      DigitBound(index[0], dims[0], Offset(dims[1..], index[1..]), Size(dims[1..]));
    }
  }

  /** Coordinates and offsets invert each other. */
  lemma {:induction false} OffsetOfCoordinates(dims: seq<nat>, flat: nat)
    requires flat < Size(dims)
    ensures InBounds(dims, Coordinates(dims, flat)) && Offset(dims, Coordinates(dims, flat)) == flat
    decreases |dims|
  {
    if dims != [] {
      var size := Size(dims[1..]);
      QuotientBelow(flat, dims[0], size);
      OffsetOfCoordinates(dims[1..], flat % size);
      var index := Coordinates(dims, flat);
      assert index[1..] == Coordinates(dims[1..], flat % size);
      TailInBounds(dims, index);
    }
  }

  lemma {:induction false} CoordinatesOfOffset(dims: seq<nat>, index: seq<nat>)
    requires InBounds(dims, index)
    ensures Coordinates(dims, Offset(dims, index)) == index
    decreases |dims|
  {
    if dims != [] {
      TailInBounds(dims, index);
      OffsetInRange(dims[1..], index[1..]);
      CoordinatesOfOffset(dims[1..], index[1..]);
      DigitBound(index[0], dims[0], Offset(dims[1..], index[1..]), Size(dims[1..]));
      assert index == [index[0]] + index[1..];
    }
  }

  // ----- the swizzled scales -----

  /** `permute(0, 1, 4, 3, 2, 5)`, on the sizes of a view as on its indices. */
  function Permute(x: seq<nat>): (y: seq<nat>)
    requires |x| == 6
    ensures |y| == 6
  {
    [x[0], x[1], x[4], x[3], x[2], x[5]]
  }

  lemma {:induction false} PermuteTwice(x: seq<nat>)
    requires |x| == 6
    ensures Permute(Permute(x)) == x
  {
  }

  function Tiled(rowTiles: nat, columnTiles: nat): (dims: seq<nat>)
    ensures |dims| == 6
  {
    [1, rowTiles, columnTiles, 32, 4, 4]
  }

  function Grid(rowTiles: nat, columnTiles: nat): seq<nat> {
    [rowTiles * 128, columnTiles * 4]
  }

  /** The offset in the swizzled buffer that becomes cell (`row`, `column`) of the padded grid. */
  function SwizzledAt(rowTiles: nat, columnTiles: nat, row: nat, column: nat): nat {
    var tiled := Tiled(rowTiles, columnTiles);
    var flat := Offset(Grid(rowTiles, columnTiles), [row, column]);
    Offset(tiled, Permute(Coordinates(Permute(tiled), flat)))
  }

  /** The cell that offset `s` becomes. */
  function CellOf(rowTiles: nat, columnTiles: nat, s: nat): (cell: seq<nat>)
    ensures |cell| == 2
  {
    var tiled := Tiled(rowTiles, columnTiles);
    Coordinates(Grid(rowTiles, columnTiles), Offset(Permute(tiled), Permute(Coordinates(tiled, s))))
  }

  lemma {:induction false} SixSizes(a: nat, b: nat, c: nat, d: nat, e: nat, f: nat)
    ensures Size([a, b, c, d, e, f]) == a * (b * (c * (d * (e * f))))
  {
    SizeStep(f, []);
    SizeStep(e, [f]);
    SizeStep(d, [e, f]);
    SizeStep(c, [d, e, f]);
    SizeStep(b, [c, d, e, f]);
    SizeStep(a, [b, c, d, e, f]);
  }

  lemma {:induction false} SizeStep(x: nat, rest: seq<nat>)
    ensures Size([x] + rest) == x * Size(rest)
    ensures |rest| == 0 ==> Size([x]) == x
  {
    assert ([x] + rest)[1..] == rest;
    if rest == [] { assert [x] + rest == [x]; }
  }

  lemma {:induction false} SameSize(rowTiles: nat, columnTiles: nat)
    ensures Size(Tiled(rowTiles, columnTiles)) == Size(Permute(Tiled(rowTiles, columnTiles)))
        == Size(Grid(rowTiles, columnTiles))
         == 512 * (rowTiles * columnTiles)
  {
    SixSizes(1, rowTiles, columnTiles, 32, 4, 4);
    SixSizes(1, rowTiles, 4, 32, columnTiles, 4);
    assert Grid(rowTiles, columnTiles)[1..] == [columnTiles * 4] && [columnTiles * 4][1..] == [];
    assert Size([columnTiles * 4]) == columnTiles * 4 * Size([]);
    Commute(rowTiles, columnTiles);
  }

  lemma {:induction false} Commute(r: nat, c: nat)
    ensures r * (c * 512) == 512 * (r * c) && r * (4 * (32 * (c * 4))) == 512 * (r * c)
        && r * 128 * (c * 4) == 512 * (r * c)
  {
  }

  lemma {:induction false} PermuteInBounds(dims: seq<nat>, index: seq<nat>)
    requires |dims| == 6 && InBounds(dims, index)
    ensures InBounds(Permute(dims), Permute(index))
  {
  }

  /** MAIN: unswizzling is a bijection between the padded grid and the buffer, for all sizes: every cell reads
      inside the buffer, and cells and offsets determine each other. */
  lemma {:induction false} CellReadsItsOffset(rowTiles: nat, columnTiles: nat, row: nat, column: nat)
    requires row < rowTiles * 128 && column < columnTiles * 4
    ensures SwizzledAt(rowTiles, columnTiles, row, column) < 512 * (rowTiles * columnTiles)
    ensures CellOf(rowTiles, columnTiles, SwizzledAt(rowTiles, columnTiles, row, column)) == [row, column]
  {
    var tiled, grid := Tiled(rowTiles, columnTiles), Grid(rowTiles, columnTiles);
    SameSize(rowTiles, columnTiles);
    assert InBounds(grid, [row, column]);
    OffsetInRange(grid, [row, column]);
    var flat := Offset(grid, [row, column]);
    OffsetOfCoordinates(Permute(tiled), flat);
    var index := Coordinates(Permute(tiled), flat);
    PermuteInBounds(Permute(tiled), index);
    PermuteTwice(tiled);
    PermuteTwice(index);
    OffsetInRange(tiled, Permute(index));
    CoordinatesOfOffset(tiled, Permute(index));
    CoordinatesOfOffset(grid, [row, column]);
  }

  lemma {:induction false} OffsetHasItsCell(rowTiles: nat, columnTiles: nat, s: nat)
    requires s < 512 * (rowTiles * columnTiles)
    ensures var cell := CellOf(rowTiles, columnTiles, s);
            && cell[0] < rowTiles * 128 && cell[1] < columnTiles * 4
            && SwizzledAt(rowTiles, columnTiles, cell[0], cell[1]) == s
  {
    var tiled, grid := Tiled(rowTiles, columnTiles), Grid(rowTiles, columnTiles);
    SameSize(rowTiles, columnTiles);
    OffsetOfCoordinates(tiled, s);
    var index := Coordinates(tiled, s);
    PermuteInBounds(tiled, index);
    PermuteTwice(index);
    OffsetInRange(Permute(tiled), Permute(index));
    CoordinatesOfOffset(Permute(tiled), Permute(index));
    var flat := Offset(Permute(tiled), Permute(index));
    OffsetOfCoordinates(grid, flat);
    var cell := Coordinates(grid, flat);
    assert [cell[0], cell[1]] == cell;
  }

  lemma {:induction false} OffsetStep(size: nat, dims: seq<nat>, i: nat, index: seq<nat>)
    requires |dims| == |index|
    ensures Offset([size] + dims, [i] + index) == i * Size(dims) + Offset(dims, index)
    ensures dims == [] ==> Offset([size], [i]) == i
  {
    assert ([size] + dims)[1..] == dims && ([i] + index)[1..] == index;
    if dims == [] { assert [size] + dims == [size] && [i] + index == [i]; }
  }

  lemma {:induction false} SixOffset(b: nat, c: nat, d: nat, e: nat, f: nat, j: nat, k: nat, l: nat, m: nat, n: nat)
    ensures Offset([1, b, c, d, e, f], [0, j, k, l, m, n])
         == j * (c * (d * (e * f))) + (k * (d * (e * f)) + (l * (e * f) + (m * f + n)))
  {
    SizeStep(f, []); SizeStep(e, [f]); SizeStep(d, [e, f]); SizeStep(c, [d, e, f]);
    OffsetStep(f, [], n, []);
    OffsetStep(e, [f], m, [n]);
    OffsetStep(d, [e, f], l, [m, n]);
    OffsetStep(c, [d, e, f], k, [l, m, n]);
    OffsetStep(b, [c, d, e, f], j, [k, l, m, n]);
    OffsetStep(1, [b, c, d, e, f], 0, [j, k, l, m, n]);
  }

  lemma {:induction false} GridOffset(rowTiles: nat, columnTiles: nat, row: nat, column: nat)
    ensures Offset(Grid(rowTiles, columnTiles), [row, column]) == row * (columnTiles * 4) + column
  {
    SizeStep(columnTiles * 4, []);
    OffsetStep(columnTiles * 4, [], column, []);
    OffsetStep(rowTiles * 128, [columnTiles * 4], row, [column]);
  }

  /** MAIN: where a cell is read, in numbers: the buffer holds tiles of 128 rows and 4 columns, each tile 32 lines
      of four rows that are 32 apart. */
  lemma {:induction false} SwizzleFormula(rowTiles: nat, columnTiles: nat, row: nat, column: nat)
    requires row < rowTiles * 128 && column < columnTiles * 4
    ensures SwizzledAt(rowTiles, columnTiles, row, column)
         == 512 * (row / 128 * columnTiles + column / 4) + 16 * (row % 32) + 4 * (row % 128 / 32) + column % 4
  {
    var rt, q, a, ct, k := row / 128, row % 128 / 32, row % 32, column / 4, column % 4;
    SplitCell(row, column);
    var tiled, index := Tiled(rowTiles, columnTiles), [0, rt, q, a, ct, k];
    CellIndex(rowTiles, columnTiles, row, column, rt, q, a, ct, k);
    CoordinatesOfOffset(Permute(tiled), index);
    SwizzledIndex(rowTiles, columnTiles, row, column, rt, q, a, ct, k);
    TilesAddUp(rt, columnTiles, ct);
  }

  lemma {:induction false} SplitCell(row: nat, column: nat)
    ensures row == row / 128 * 128 + row % 128 / 32 * 32 + row % 32 && row % 128 / 32 < 4
    ensures column == column / 4 * 4 + column % 4
  {
    var b, r := row / 128, row % 128;
    SplitRow(row, b, r, r / 32, r % 32);
  }

  lemma {:induction false} SplitRow(row: nat, b: nat, r: nat, q: nat, a: nat)
    requires row == 128 * b + r && r == 32 * q + a && a < 32
    ensures row % 32 == a
  {
    assert row == (4 * b + q) * 32 + a;
    QuotientIs(4 * b + q, a, 32);
  }

  /** The six coordinates of a cell in the permuted view. */
  lemma {:induction false} CellIndex(rowTiles: nat, columnTiles: nat, row: nat, column: nat,
                                     rt: nat, q: nat, a: nat, ct: nat, k: nat)
    requires row == rt * 128 + q * 32 + a && column == ct * 4 + k
    requires rt < rowTiles && q < 4 && a < 32 && ct < columnTiles && k < 4
    ensures InBounds(Permute(Tiled(rowTiles, columnTiles)), [0, rt, q, a, ct, k])
    ensures Offset(Permute(Tiled(rowTiles, columnTiles)), [0, rt, q, a, ct, k])
         == Offset(Grid(rowTiles, columnTiles), [row, column])
  {
    GridOffset(rowTiles, columnTiles, row, column);
    SixOffset(rowTiles, 4, 32, columnTiles, 4, rt, q, a, ct, k);
    LinesAddUp(rt, q, a, row, columnTiles * 4);
  }

  lemma {:induction false} SwizzledIndex(rowTiles: nat, columnTiles: nat, row: nat, column: nat,
                                         rt: nat, q: nat, a: nat, ct: nat, k: nat)
    requires Coordinates(Permute(Tiled(rowTiles, columnTiles)), Offset(Grid(rowTiles, columnTiles), [row, column]))
          == [0, rt, q, a, ct, k]
    ensures SwizzledAt(rowTiles, columnTiles, row, column)
         == rt * (columnTiles * 512) + (ct * 512 + (a * 16 + (q * 4 + k)))
  {
    SixOffset(rowTiles, columnTiles, 32, 4, 4, rt, ct, a, q, k);
  }

  lemma {:induction false} LinesAddUp(rt: nat, q: nat, a: nat, row: nat, width: nat)
    requires row == rt * 128 + q * 32 + a
    ensures row * width == rt * (4 * (32 * width)) + q * (32 * width) + a * width
  {
  }

  lemma {:induction false} TilesAddUp(rt: nat, columnTiles: nat, ct: nat)
    ensures rt * (columnTiles * 512) + ct * 512 == 512 * (rt * columnTiles + ct)
  {
  }

  function CeilDiv(a: nat, b: nat): nat
    requires b > 0
  {
    (a + b - 1) / b
  }

  lemma {:induction false} CroppedInGrid(rows: nat, elements: nat, row: nat, group: nat)
    requires row < rows && group < elements / 16
    ensures row < CeilDiv(rows, 128) * 128 && group < CeilDiv(elements, 64) * 4
  {
  }

  /** `unswizzle_128x4` with the default block size: refused if the buffer does not fill whole tiles, else the
      grid cropped to the scales in use. */
  function Unswizzle(buffer: seq<real>, rows: nat, elements: nat): Option<seq<seq<real>>> {
    var rowTiles, columnTiles := CeilDiv(rows, 128), CeilDiv(elements, 64);
    if |buffer| != 512 * (rowTiles * columnTiles) then None
    else Some(seq(rows, r requires 0 <= r < rows =>
                seq(elements / 16, g requires 0 <= g < elements / 16 => CellOfBuffer(buffer, rows, elements, r, g))))
  }

  function CellOfBuffer(buffer: seq<real>, rows: nat, elements: nat, r: nat, g: nat): real
    requires r < rows && g < elements / 16
    requires |buffer| == 512 * (CeilDiv(rows, 128) * CeilDiv(elements, 64))
  {
    CroppedInGrid(rows, elements, r, g);
    CellReadsItsOffset(CeilDiv(rows, 128), CeilDiv(elements, 64), r, g);
    buffer[SwizzledAt(CeilDiv(rows, 128), CeilDiv(elements, 64), r, g)]
  }

  /** A buffer in the swizzled layout: every scale at its offset, padding elsewhere. */
  function Swizzle(scales: seq<seq<real>>, rows: nat, elements: nat): (buffer: seq<real>)
    requires |scales| == rows && forall r | 0 <= r < rows :: |scales[r]| == elements / 16
    ensures |buffer| == 512 * (CeilDiv(rows, 128) * CeilDiv(elements, 64))
  {
    seq(512 * (CeilDiv(rows, 128) * CeilDiv(elements, 64)), s requires s >= 0 =>
      var cell := CellOf(CeilDiv(rows, 128), CeilDiv(elements, 64), s);
      if cell[0] < rows && cell[1] < elements / 16 then scales[cell[0]][cell[1]] else 0.0)
  }

  /** MAIN: unswizzling gives back any scales that were laid out swizzled. */
  lemma {:induction false} UnswizzleInverts(scales: seq<seq<real>>, rows: nat, elements: nat)
    requires |scales| == rows && forall r | 0 <= r < rows :: |scales[r]| == elements / 16
    ensures Unswizzle(Swizzle(scales, rows, elements), rows, elements) == Some(scales)
  {
    var buffer := Swizzle(scales, rows, elements);
    var result := Unswizzle(buffer, rows, elements).value;
    forall r | 0 <= r < rows ensures result[r] == scales[r] {
      forall g | 0 <= g < elements / 16 ensures result[r][g] == scales[r][g] {
        CroppedInGrid(rows, elements, r, g);
        CellReadsItsOffset(CeilDiv(rows, 128), CeilDiv(elements, 64), r, g);
      }
    }
    assert result == scales;
  }

  // ----- E2M1 -----

  type Byte = b: int | 0 <= b < 256

  /** The audit's table of all sixteen codes. */
  function SignedTable(): (t: seq<real>)
    ensures |t| == 16
  {
    [0.0, 0.5, 1.0, 1.5, 2.0, 3.0, 4.0, 6.0, -0.0, -0.5, -1.0, -1.5, -2.0, -3.0, -4.0, -6.0]
  }

  /** The kernel unit's table of magnitudes. */
  function Magnitudes(): (t: seq<real>)
    ensures |t| == 8
  {
    [0.0, 0.5, 1.0, 1.5, 2.0, 3.0, 4.0, 6.0]
  }

  /** `stack((low, high), dim=-1).reshape(...)`: the codes of a packed row, low nibble first. */
  function Codes(packed: seq<Byte>): seq<nat> {
    if packed == [] then [] else [packed[0] % 16, packed[0] / 16] + Codes(packed[1..])
  }

  function KernelValue(code: nat): real {
    (if code / 8 % 2 != 0 then -1.0 else 1.0) * Magnitudes()[code % 8]
  }

  function Values(codes: seq<nat>): (v: seq<real>)
    ensures |v| == |codes|
  {
    if codes == [] then [] else [KernelValue(codes[0])] + Values(codes[1..])
  }

  /** `unpack_e2m1` on one row. */
  function Unpack(packed: seq<Byte>): seq<real> {
    Values(Codes(packed))
  }

  /** Sign times magnitude is the signed table. */
  lemma {:induction false} TablesAgree(code: nat)
    requires code < 16
    ensures KernelValue(code) == SignedTable()[code]
  {
  }

  /** MAIN: what stands where after unpacking: the table's value for the low nibble at even positions, for the high
      nibble at odd ones. */
  lemma {:induction false} UnpackedAt(packed: seq<Byte>, i: nat)
    requires i < |packed|
    ensures |Codes(packed)| == 2 * |packed|
    ensures Unpack(packed)[2 * i] == SignedTable()[packed[i] % 16]
    ensures Unpack(packed)[2 * i + 1] == SignedTable()[packed[i] / 16]
    decreases |packed|
  {
    CodesLength(packed);
    var first, rest := [packed[0] % 16 as nat, packed[0] / 16], Codes(packed[1..]);
    ValuesSplit(first[0], first[1], rest);
    assert first + rest == [first[0]] + ([first[1]] + rest);
    TablesAgree(packed[0] % 16);
    TablesAgree(packed[0] / 16);
    if i > 0 {
      UnpackedAt(packed[1..], i - 1);
      assert Unpack(packed)[2 * i] == Values(rest)[2 * (i - 1)];
    }
  }

  lemma {:induction false} ValuesSplit(a: nat, b: nat, rest: seq<nat>)
    ensures Values([a] + ([b] + rest)) == [KernelValue(a), KernelValue(b)] + Values(rest)
  {
    assert ([a] + ([b] + rest))[1..] == [b] + rest && ([b] + rest)[1..] == rest;
  }

  lemma {:induction false} CodesLength(packed: seq<Byte>)
    ensures |Codes(packed)| == 2 * |packed|
  {
    if packed != [] { CodesLength(packed[1..]); }
  }

  /** The audit's decoder: two strided writes into a fresh row. It agrees with the kernel unit's. */
  method DecodeStrided(packed: seq<Byte>) returns (decoded: array<real>)
    ensures fresh(decoded) && decoded[..] == Unpack(packed)
  {
    var n := |packed|;
    decoded := new real[2 * n];
    for i := 0 to n
      invariant forall k | 0 <= k < i :: decoded[2 * k] == SignedTable()[packed[k] % 16]
    {
      decoded[2 * i] := SignedTable()[packed[i] % 16];
    }
    for i := 0 to n
      invariant forall k | 0 <= k < n :: decoded[2 * k] == SignedTable()[packed[k] % 16]
      invariant forall k | 0 <= k < i :: decoded[2 * k + 1] == SignedTable()[packed[k] / 16]
    {
      decoded[2 * i + 1] := SignedTable()[packed[i] / 16];
    }
    CodesLength(packed);
    forall c | 0 <= c < 2 * n ensures decoded[..][c] == Unpack(packed)[c] {
      UnpackedEither(packed, c);
      if c % 2 == 0 { assert c == 2 * (c / 2); } else { assert c == 2 * (c / 2) + 1; }
    }
  }

  // ----- dequantizing -----

  /** Groups of sixteen values times their block scale over the global divisor. */
  function ScaleRow(values: seq<real>, scales: seq<real>, divisor: real): (row: seq<real>)
    requires |values| <= 16 * |scales| && divisor != 0.0
    ensures |row| == |values|
  {
    seq(|values|, c requires 0 <= c < |values| => values[c] * (scales[c / 16] / divisor))
  }

  predicate LinearShapes(packed: seq<seq<Byte>>, scales: seq<seq<real>>, width: nat) {
    && 2 * width % 16 == 0 && |scales| == |packed|
    && forall r | 0 <= r < |packed| :: |packed[r]| == width && |scales[r]| == 2 * width / 16
  }

  function DequantizeRow(packed: seq<Byte>, scales: seq<real>, divisor: real): (row: seq<real>)
    requires |packed| <= 8 * |scales| && divisor != 0.0
    ensures |row| == 2 * |packed|
  {
    CodesLength(packed);
    ScaleRow(Unpack(packed), scales, divisor)
  }

  /** `dequantize_linear_nvfp4` up to the final rounding to BF16; `width` is the packed width. */
  function DequantizeLinear(packed: seq<seq<Byte>>, scales: seq<seq<real>>, width: nat,
                            divisor: real): Option<seq<seq<real>>>
    requires divisor != 0.0
  {
    if !LinearShapes(packed, scales, width) then None
    else Some(seq(|packed|, r requires 0 <= r < |packed| => DequantizeRow(packed[r], scales[r], divisor)))
  }

  function DequantizeSwizzled(packed: seq<seq<Byte>>, buffer: seq<real>, width: nat,
                              divisor: real): Option<seq<seq<real>>>
    requires divisor != 0.0
  {
    match Unswizzle(buffer, |packed|, 2 * width)
    case None => None
    case Some(scales) => DequantizeLinear(packed, scales, width, divisor)
  }

  /** MAIN: laying the scales out swizzled changes nothing in what is dequantized. */
  lemma {:induction false} SwizzledDequantizesAlike(packed: seq<seq<Byte>>, scales: seq<seq<real>>, width: nat,
                                                    divisor: real)
    requires LinearShapes(packed, scales, width) && divisor != 0.0
    ensures DequantizeSwizzled(packed, Swizzle(scales, |packed|, 2 * width), width, divisor)
         == DequantizeLinear(packed, scales, width, divisor)
  {
    UnswizzleInverts(scales, |packed|, 2 * width);
  }

  /** MAIN: every element is its table value times the scale of its group of sixteen. */
  lemma {:induction false} DequantizedAt(packed: seq<seq<Byte>>, scales: seq<seq<real>>, width: nat, divisor: real,
                                         r: nat, c: nat)
    requires LinearShapes(packed, scales, width) && divisor != 0.0 && r < |packed| && c < 2 * width
    ensures DequantizeLinear(packed, scales, width, divisor).value[r][c]
         == SignedTable()[if c % 2 == 0 then packed[r][c / 2] % 16 else packed[r][c / 2] / 16]
            * (scales[r][c / 16] / divisor)
  {
    ElementAt(packed[r], scales[r], divisor, c);
  }

  lemma {:induction false} ElementAt(packed: seq<Byte>, scales: seq<real>, divisor: real, c: nat)
    requires |packed| <= 8 * |scales| && divisor != 0.0 && c < 2 * |packed|
    ensures DequantizeRow(packed, scales, divisor)[c]
         == SignedTable()[if c % 2 == 0 then packed[c / 2] % 16 else packed[c / 2] / 16] * (scales[c / 16] / divisor)
  {
    UnpackedEither(packed, c);
    RowElement(packed, scales, divisor, c);
  }

  lemma {:induction false} RowElement(packed: seq<Byte>, scales: seq<real>, divisor: real, c: nat)
    requires |packed| <= 8 * |scales| && divisor != 0.0 && c < 2 * |packed| == |Unpack(packed)|
    ensures DequantizeRow(packed, scales, divisor)[c] == Unpack(packed)[c] * (scales[c / 16] / divisor)
  {
    CodesLength(packed);
  }

  lemma {:induction false} UnpackedEither(packed: seq<Byte>, c: nat)
    requires c < 2 * |packed|
    ensures |Unpack(packed)| == 2 * |packed|
    ensures Unpack(packed)[c] == SignedTable()[if c % 2 == 0 then packed[c / 2] % 16 else packed[c / 2] / 16]
  {
    CodesLength(packed);
    UnpackedAt(packed, c / 2);
    if c % 2 == 0 { assert c == 2 * (c / 2); } else { assert c == 2 * (c / 2) + 1; }
  }
}
