/** Restoring norm tensors inside a checkpoint file: `repair-offset-norms.py` lines 151-377. One mechanism
    overwrites byte ranges in place, in tensor-name order; the other feeds a digest the same substitution in
    file order. */
module Repair {
  import opened Wrappers

  type Bytes = seq<bv8>

  datatype Fault =
    | Absent(name: string)
    | BadMetadata(name: string)
    | BadOffsets(name: string)
    | BeyondFile(name: string)
    | BadShape(name: string)
    | ByteCountMismatch(name: string)
    | Unmapped(name: string)
    | PairMismatch(name: string)
    | ShortRead(at: nat)
    | ShortWrite(at: nat)
    | Overlap(name: string)

  /** One tensor's entry of a safetensors header. */
  datatype Metadata = Metadata(dtype: string, shape: seq<int>, offsets: seq<int>)

  /** An opened safetensors file: where its data starts, its header, and its bytes. */
  datatype TensorFile = TensorFile(base: nat, header: map<string, Metadata>, bytes: Bytes)

  datatype Region = Region(start: nat, end: nat, shape: seq<int>, dtype: string)

  /** The product of positive dimensions. */
  function Elements(shape: seq<int>): Option<nat> {
    if shape == [] then Some(1)
    else
      match Elements(shape[..|shape| - 1])
      case None => None
      case Some(n) => if shape[|shape| - 1] <= 0 then None else Some(n * shape[|shape| - 1])
  }

  /** `tensor_region`: the absolute byte range of a BF16 tensor. */
  function TensorRegion(base: nat, header: map<string, Metadata>, size: nat, name: string): (r: Result<Region, Fault>)
    ensures r.Ok? ==> base <= r.value.start < r.value.end <= size
    ensures r.Ok? ==> Elements(r.value.shape).Some? && r.value.end - r.value.start == 2 * Elements(r.value.shape).value
  {
    if name !in header then Err(Absent(name))
    else
      var m := header[name];
      if m.dtype != "BF16" then Err(BadMetadata(name))
      else if |m.offsets| != 2 || m.offsets[0] < 0 || m.offsets[1] <= m.offsets[0] then Err(BadOffsets(name))
      else if base + m.offsets[1] > size then Err(BeyondFile(name))
      else
        match Elements(m.shape)
        case None => Err(BadShape(name))
        case Some(n) =>
          if m.offsets[1] - m.offsets[0] != n * 2 then Err(ByteCountMismatch(name))
          else Ok(Region(base + m.offsets[0], base + m.offsets[1], m.shape, m.dtype))
  }

  method ElementsOf(shape: seq<int>) returns (elements: Option<nat>)
    ensures elements == Elements(shape)
  {
    var n := 1;
    for i := 0 to |shape|
      invariant Elements(shape[..i]) == Some(n)
    {
      assert shape[..i + 1][..i] == shape[..i];
      if shape[i] <= 0 {
        NoElements(shape, i + 1);
        return None;
      }
      n := n * shape[i];
    }
    assert shape[..|shape|] == shape;
    return Some(n);
  }

  lemma {:induction false} NoElements(shape: seq<int>, k: nat)
    requires k <= |shape| && Elements(shape[..k]) == None
    ensures Elements(shape) == None
    decreases |shape| - k
  {
    if k < |shape| {
      assert shape[..k + 1][..k] == shape[..k];
      NoElements(shape, k + 1);
    } else {
      assert shape[..k] == shape;
    }
  }

  /** `tensor_region` as it runs, with its loop over the dimensions. */
  method FindRegion(base: nat, header: map<string, Metadata>, size: nat, name: string)
    returns (r: Result<Region, Fault>)
    ensures r == TensorRegion(base, header, size, name)
  {
    if name !in header { return Err(Absent(name)); }
    var m := header[name];
    if m.dtype != "BF16" { return Err(BadMetadata(name)); }
    if |m.offsets| != 2 || m.offsets[0] < 0 || m.offsets[1] <= m.offsets[0] { return Err(BadOffsets(name)); }
    var start, end := base + m.offsets[0], base + m.offsets[1];
    if end > size { return Err(BeyondFile(name)); }
    var elements := ElementsOf(m.shape);
    if elements == None { return Err(BadShape(name)); }
    if end - start != elements.value * 2 { return Err(ByteCountMismatch(name)); }
    r := Ok(Region(start, end, m.shape, m.dtype));
  }

  // ----- byte ranges -----

  /** `file` with `bytes` written at `at`. */
  function Overwritten(file: Bytes, at: nat, bytes: Bytes): Bytes
    requires at + |bytes| <= |file|
  {
    file[..at] + bytes + file[at + |bytes|..]
  }

  /** `os.pread`: at most `request` bytes from `at`, possibly fewer. */
  method Pread(file: Bytes, request: nat, at: nat) returns (block: Bytes)
    ensures |block| <= request
    ensures block != [] ==> at + |block| <= |file| && block == file[at..at + |block|]
  {
    var available := if at >= |file| then 0 else if at + request <= |file| then request else |file| - at;
    var count :| 0 <= count <= available;
    block := if count == 0 then [] else file[at..at + count];
  }

  /** `os.pwrite`: some prefix of the block is written, and its length returned. */
  method Pwrite(file: array<bv8>, block: Bytes, at: nat) returns (count: nat)
    requires at + |block| <= file.Length
    modifies file
    ensures count <= |block|
    ensures file[..] == Overwritten(old(file[..]), at, block[..count])
  {
    var chosen: nat :| chosen <= |block|;
    count := chosen;
    for i := 0 to count
      invariant file[..] == Overwritten(old(file[..]), at, block[..i])
    {
      file[at + i] := block[i];
    }
  }

  const MIB: nat := 1024 * 1024

  /** Two files of one length that differ at most in `[lo, hi)`. */
  ghost predicate SameOutside(a: Bytes, b: Bytes, lo: nat, hi: nat) {
    |a| == |b| && forall i | 0 <= i < |a| && !(lo <= i < hi) :: a[i] == b[i]
  }

  lemma {:induction false} SameOutsideWidens(a: Bytes, b: Bytes, c: Bytes, lo: nat, hi: nat, from: nat, to: nat)
    requires SameOutside(a, b, lo, from) && SameOutside(b, c, from, to) && lo <= from <= to <= hi
    ensures SameOutside(a, c, lo, hi)
  {
  }

  /** A file after the first `written` bytes of a block. */
  function Partly(file: Bytes, at: nat, block: Bytes, written: nat): Bytes
    requires written <= |block| && at + |block| <= |file|
  {
    Overwritten(file, at, block[..written])
  }

  lemma {:induction false} PartlyEnds(file: Bytes, at: nat, block: Bytes)
    requires at + |block| <= |file|
    ensures Partly(file, at, block, 0) == file && Partly(file, at, block, |block|) == Overwritten(file, at, block)
  {
    assert block[..0] == [] && block[..|block|] == block;
    NothingOverwritten(file, at);
  }

  lemma {:induction false} PartlyOutside(file: Bytes, at: nat, block: Bytes, written: nat)
    requires written <= |block| && at + |block| <= |file|
    ensures SameOutside(file, Partly(file, at, block, written), at, at + |block|)
  {
    OverwrittenOutside(file, at, block[..written], |block|);
  }

  /** One partial write of what is left of a block. */
  method WriteSome(target: array<bv8>, block: Bytes, at: nat, written: nat, ghost was: Bytes) returns (count: nat)
    requires written <= |block| && at + |block| <= target.Length == |was|
    requires target[..] == Partly(was, at, block, written)
    modifies target
    ensures written + count <= |block| && target[..] == Partly(was, at, block, written + count)
  {
    count := Pwrite(target, block[written..], at + written);
    WriteExtends(was, at, block, written, count);
  }

  /** The inner loop of the copy: a block goes out in as many partial writes as it takes. */
  method WriteBlock(target: array<bv8>, block: Bytes, at: nat) returns (r: Result<(), Fault>)
    requires at + |block| <= target.Length
    modifies target
    ensures r.Ok? ==> target[..] == Overwritten(old(target[..]), at, block)
    ensures SameOutside(old(target[..]), target[..], at, at + |block|)
  {
    var written := 0;
    ghost var was := target[..];
    PartlyEnds(was, at, block);
    while written < |block|
      invariant 0 <= written <= |block|
      invariant target[..] == Partly(was, at, block, written)
      decreases |block| - written
    {
      var count := WriteSome(target, block, at, written, was);
      if count == 0 {
        PartlyOutside(was, at, block, written);
        return Err(ShortWrite(at));
      }
      written := written + count;
    }
    PartlyOutside(was, at, block, |block|);
    return Ok(());
  }

  lemma {:induction false} NothingOverwritten(file: Bytes, at: nat)
    requires at <= |file|
    ensures Overwritten(file, at, []) == file
  {
  }

  lemma {:induction false} OverwrittenOutside(file: Bytes, at: nat, bytes: Bytes, size: nat)
    requires |bytes| <= size && at + size <= |file|
    ensures SameOutside(file, Overwritten(file, at, bytes), at, at + size)
  {
  }

  lemma {:induction false} WriteExtends(file: Bytes, at: nat, block: Bytes, written: nat, count: nat)
    requires at + |block| <= |file| && written + count <= |block|
    ensures Overwritten(Overwritten(file, at, block[..written]), at + written, block[written..][..count])
         == Overwritten(file, at, block[..written + count])
  {
    OverwriteExtends(file, at, block[..written], block[written..][..count]);
    assert block[..written] + block[written..][..count] == block[..written + count];
  }

  /** One round of the copy: a whole block is read, or nothing is written. */
  method CopyBlock(source: Bytes, target: array<bv8>, sourceAt: nat, targetAt: nat, request: nat)
    returns (r: Result<(), Fault>)
    requires request > 0 && targetAt + request <= target.Length
    modifies target
    ensures r.Ok? ==>
              sourceAt + request <= |source|
              && target[..] == Overwritten(old(target[..]), targetAt, source[sourceAt..sourceAt + request])
    ensures SameOutside(old(target[..]), target[..], targetAt, targetAt + request)
  {
    var block := Pread(source, request, sourceAt);
    if |block| != request {
      return Err(ShortRead(sourceAt));
    }
    r := WriteBlock(target, block, targetAt);
  }

  /** A file after the first `count` bytes of a range copy. */
  function Copied(file: Bytes, source: Bytes, sourceStart: nat, targetStart: nat, count: nat): Bytes
    requires count > 0 ==> sourceStart + count <= |source|
    requires targetStart + count <= |file|
  {
    if count == 0 then file else Overwritten(file, targetStart, source[sourceStart..sourceStart + count])
  }

  lemma {:induction false} CopyRefused(was: Bytes, before: Bytes, after: Bytes, source: Bytes, sourceStart: nat,
                                       targetStart: nat, count: nat, request: nat, size: nat)
    requires count > 0 ==> sourceStart + count <= |source|
    requires targetStart + size <= |was| && count + request <= size
    requires before == Copied(was, source, sourceStart, targetStart, count)
    requires SameOutside(before, after, targetStart + count, targetStart + count + request)
    ensures SameOutside(was, after, targetStart, targetStart + size)
  {
    CopiedOutside(was, source, sourceStart, targetStart, count);
    SameOutsideWidens(was, before, after, targetStart, targetStart + size,
                      targetStart + count, targetStart + count + request);
  }

  /** `copy_exact_range`: tolerates short writes, refuses short reads, and changes nothing outside its range. */
  method CopyExactRange(source: Bytes, target: array<bv8>, sourceStart: nat, targetStart: nat, size: nat)
    returns (r: Result<(), Fault>)
    requires targetStart + size <= target.Length
    modifies target
    ensures r.Ok? && size > 0 ==> sourceStart + size <= |source|
    ensures r.Ok? ==> target[..] == Copied(old(target[..]), source, sourceStart, targetStart, size)
    ensures SameOutside(old(target[..]), target[..], targetStart, targetStart + size)
  {
    ghost var was := target[..];
    ghost var count := 0;
    var remaining, sourceAt, targetAt := size, sourceStart, targetStart;
    while remaining != 0
      invariant remaining == size - count && sourceAt == sourceStart + count && targetAt == targetStart + count
      invariant 0 <= count <= size && (count > 0 ==> sourceStart + count <= |source|)
      invariant target[..] == Copied(was, source, sourceStart, targetStart, count)
      decreases remaining
    {
      var request := if remaining < MIB then remaining else MIB;
      ghost var before := target[..];
      var done := CopyBlock(source, target, sourceAt, targetAt, request);
      if done.Err? {
        CopyRefused(was, before, target[..], source, sourceStart, targetStart, count, request, size);
        return done;
      }
      CopyStep(was, before, target[..], source, sourceStart, targetStart, count, request, sourceAt, targetAt);
      sourceAt, targetAt, remaining := sourceAt + request, targetAt + request, remaining - request;
      count := count + request;
    }
    CopiedOutside(was, source, sourceStart, targetStart, size);
    return Ok(());
  }

  lemma {:induction false} CopiedOutside(file: Bytes, source: Bytes, sourceStart: nat, targetStart: nat, count: nat)
    requires count > 0 ==> sourceStart + count <= |source|
    requires targetStart + count <= |file|
    ensures SameOutside(file, Copied(file, source, sourceStart, targetStart, count), targetStart, targetStart + count)
  {
  }

  /** Writing the next block behind what was copied so far is copying so much more. */
  lemma {:induction false} CopyStep(was: Bytes, before: Bytes, after: Bytes, source: Bytes, sourceStart: nat,
                                    targetStart: nat,
                 count: nat, request: nat, sourceAt: nat, targetAt: nat)
    requires request > 0 && sourceAt == sourceStart + count && targetAt == targetStart + count
    requires sourceAt + request <= |source| && targetAt + request <= |was| == |before|
    requires before == Copied(was, source, sourceStart, targetStart, count)
    requires after == Overwritten(before, targetAt, source[sourceAt..sourceAt + request])
    ensures after == Copied(was, source, sourceStart, targetStart, count + request)
  {
    var block := source[sourceAt..sourceAt + request];
    OverwriteExtends(was, targetStart, source[sourceStart..sourceStart + count], block);
    assert source[sourceStart..sourceStart + count] + block == source[sourceStart..sourceStart + count + request];
    if count == 0 {
      assert Overwritten(was, targetStart, []) == was;
    }
  }

  lemma {:induction false} OverwriteExtends(file: Bytes, at: nat, a: Bytes, b: Bytes)
    requires at + |a| + |b| <= |file|
    ensures Overwritten(Overwritten(file, at, a), at + |a|, b) == Overwritten(file, at, a + b)
  {
  }

  /** `read_exact_range`. */
  method ReadExactRange(source: Bytes, sourceStart: nat, size: nat) returns (r: Result<Bytes, Fault>)
    ensures r.Ok? && size > 0 ==> sourceStart + size <= |source| && r.value == source[sourceStart..sourceStart + size]
    ensures r.Ok? && size == 0 ==> r.value == []
  {
    var bytes: Bytes := [];
    var remaining, sourceAt := size, sourceStart;
    while remaining != 0
      invariant 0 <= remaining <= size && sourceAt == sourceStart + (size - remaining)
      invariant remaining < size ==> sourceAt <= |source| && bytes == source[sourceStart..sourceAt]
      invariant remaining == size ==> bytes == []
      decreases remaining
    {
      var request := if remaining < MIB then remaining else MIB;
      var block := Pread(source, request, sourceAt);
      if |block| != request {
        return Err(ShortRead(sourceAt));
      }
      bytes := bytes + block;
      sourceAt, remaining := sourceAt + request, remaining - request;
    }
    return Ok(bytes);
  }
}
