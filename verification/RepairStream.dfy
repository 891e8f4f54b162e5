/** The two ways `repair-offset-norms.py` substitutes the official norms -- in place and as a stream
    (lines 219-297 and 324-377) -- and the proof that they make the same file. */
module RepairStream {
  import opened Wrappers
  import opened Repair

  /** One tensor's replacement: where its range starts in the model file, and the official bytes. */
  datatype Replacement = Replacement(start: nat, bytes: Bytes, name: string) {
    function End(): nat { start + |bytes| }
  }

  /** What both mechanisms read: the model file's header, and the official files with their index. */
  datatype Checkpoint = Checkpoint(
    base: nat,
    header: map<string, Metadata>,
    size: nat,
    officialIndex: map<string, string>,
    official: map<string, TensorFile>)

  /** The per-tensor checks, and the replacement they admit. */
  function ReplacementOf(c: Checkpoint, name: string): (r: Result<Replacement, Fault>)
    ensures r.Ok? ==> r.value.bytes != [] && r.value.End() <= c.size && r.value.name == name
  {
    if name !in c.officialIndex || c.officialIndex[name] !in c.official then Err(Unmapped(name))
    else
      var file := c.official[c.officialIndex[name]];
      var from :- TensorRegion(file.base, file.header, |file.bytes|, name);
      var to :- TensorRegion(c.base, c.header, c.size, name);
      if from.shape != to.shape || from.dtype != to.dtype then Err(PairMismatch(name))
      else if from.end - from.start != to.end - to.start then Err(ByteCountMismatch(name))
      else Ok(Replacement(to.start, file.bytes[from.start..from.end], name))
  }

  /** All replacements, in the order of the names. */
  function Replacements(c: Checkpoint, names: seq<string>): (r: Result<seq<Replacement>, Fault>)
    ensures r.Ok? ==> |r.value| == |names| && AllFit(r.value, c.size)
    ensures r.Ok? ==> forall i | 0 <= i < |names| :: r.value[i].name == names[i]
  {
    if names == [] then Ok([])
    else
      var init :- Replacements(c, names[..|names| - 1]);
      var last :- ReplacementOf(c, names[|names| - 1]);
      Ok(init + [last])
  }

  predicate AllFit(reps: seq<Replacement>, size: nat) {
    forall r | r in reps :: r.bytes != [] && r.End() <= size
  }

  // ----- in place -----

  /** The file after overwriting the ranges in the given order. */
  function Overlaid(file: Bytes, reps: seq<Replacement>): (r: Bytes)
    requires AllFit(reps, |file|)
    ensures |r| == |file|
  {
    if reps == [] then file
    else
      var last := reps[|reps| - 1];
      Overwritten(Overlaid(file, reps[..|reps| - 1]), last.start, last.bytes)
  }

  /** One tensor of `patch_norms`: checked, and its range overwritten. */
  method PatchNorm(c: Checkpoint, name: string, target: array<bv8>) returns (r: Result<(), Fault>)
    requires target.Length == c.size
    modifies target
    ensures r.Ok? ==>
              ReplacementOf(c, name).Ok?
              && target[..] == Overwritten(old(target[..]), ReplacementOf(c, name).value.start,
                                           ReplacementOf(c, name).value.bytes)
  {
    if name !in c.officialIndex || c.officialIndex[name] !in c.official {
      return Err(Unmapped(name));
    }
    var file := c.official[c.officialIndex[name]];
    var from := FindRegion(file.base, file.header, |file.bytes|, name);
    if from.Err? {
      return Err(from.error);
    }
    var to := FindRegion(c.base, c.header, c.size, name);
    if to.Err? {
      return Err(to.error);
    }
    if from.value.shape != to.value.shape || from.value.dtype != to.value.dtype {
      return Err(PairMismatch(name));
    }
    var size := from.value.end - from.value.start;
    if size != to.value.end - to.value.start {
      return Err(ByteCountMismatch(name));
    }
    r := CopyExactRange(file.bytes, target, from.value.start, to.value.start, size);
  }

  /** `patch_norms`: each tensor's range is overwritten in turn, in name order. */
  method PatchNorms(c: Checkpoint, names: seq<string>, target: array<bv8>) returns (r: Result<(), Fault>)
    requires target.Length == c.size
    modifies target
    ensures r.Ok? ==>
              Replacements(c, names).Ok? && target[..] == Overlaid(old(target[..]), Replacements(c, names).value)
  {
    ghost var was := target[..];
    ghost var reps: seq<Replacement> := [];
    assert names[..0] == [];
    for i := 0 to |names|
      invariant Replacements(c, names[..i]) == Ok(reps)
      invariant target[..] == Overlaid(was, reps)
    {
      var patched := PatchNorm(c, names[i], target);
      if patched.Err? {
        return patched;
      }
      assert names[..i + 1][..i] == names[..i];
      ghost var rep := ReplacementOf(c, names[i]).value;
      OverlaidStep(was, reps, rep);
      reps := reps + [rep];
    }
    assert names[..|names|] == names;
    return Ok(());
  }

  lemma {:induction false} OverlaidStep(file: Bytes, reps: seq<Replacement>, rep: Replacement)
    requires AllFit(reps, |file|) && rep.bytes != [] && rep.End() <= |file|
    ensures AllFit(reps + [rep], |file|)
    ensures Overlaid(file, reps + [rep]) == Overwritten(Overlaid(file, reps), rep.start, rep.bytes)
  {
    assert (reps + [rep])[..|reps|] == reps;
  }

  // ----- as a stream -----

  function Insert(rep: Replacement, sorted: seq<Replacement>): seq<Replacement> {
    if sorted == [] || rep.start <= sorted[0].start then [rep] + sorted
    else [sorted[0]] + Insert(rep, sorted[1..])
  }

  /** `replacements.sort()`. Ranges with equal starts overlap, so their order cannot matter. */
  function Sorted(reps: seq<Replacement>): seq<Replacement> {
    if reps == [] then [] else Insert(reps[0], Sorted(reps[1..]))
  }

  /** What the digest is fed from offset `previousEnd` on. */
  function Streamed(file: Bytes, reps: seq<Replacement>, previousEnd: nat): Result<Bytes, Fault>
    requires AllFit(reps, |file|) && previousEnd <= |file|
    decreases |reps|
  {
    if reps == [] then Ok(file[previousEnd..])
    else if reps[0].start < previousEnd then Err(Overlap(reps[0].name))
    else
      var rest :- Streamed(file, reps[1..], reps[0].End());
      Ok(file[previousEnd..reps[0].start] + reps[0].bytes + rest)
  }

  const CHUNK: nat := 16 * 1024 * 1024

  /** The chunked feeding of one unchanged stretch. */
  method FeedSource(file: Bytes, start: nat, end: nat, fed: Bytes) returns (r: Result<Bytes, Fault>)
    requires start <= end <= |file|
    ensures r.Ok? ==> r.value == fed + file[start..end]
  {
    var sourceAt, remaining, now := start, end - start, fed;
    while remaining != 0
      invariant start <= sourceAt <= end && remaining == end - sourceAt
      invariant now == fed + file[start..sourceAt]
      decreases remaining
    {
      var request := if remaining < CHUNK then remaining else CHUNK;
      var block := ReadExactRange(file, sourceAt, request);
      if block.Err? {
        return block;
      }
      assert file[start..sourceAt] + file[sourceAt..sourceAt + request] == file[start..sourceAt + request];
      now := now + block.value;
      sourceAt, remaining := sourceAt + request, remaining - request;
    }
    assert file[start..sourceAt] == file[start..end];
    return Ok(now);
  }

  /** The digest loop of `expected_corrected_model_sha256`; the digest is what it has been fed. */
  method FeedDigest(file: Bytes, reps: seq<Replacement>) returns (r: Result<Bytes, Fault>)
    requires AllFit(reps, |file|)
    ensures r.Ok? ==> Streamed(file, reps, 0) == r
    ensures r.Err? && r.error.Overlap? ==> Streamed(file, reps, 0) == r
  {
    var previousEnd: nat, fed: Bytes := 0, [];
    assert reps[0..] == reps && forall rest: Bytes :: [] + rest == rest;
    for i := 0 to |reps|
      invariant previousEnd <= |file|
      invariant Streamed(file, reps, 0) == Behind(fed, Streamed(file, reps[i..], previousEnd))
    {
      var rep := reps[i];
      assert reps[i..][1..] == reps[i + 1..];
      if rep.start < previousEnd {
        return Err(Overlap(rep.name));
      }
      var stretch := FeedSource(file, previousEnd, rep.start, fed);
      if stretch.Err? {
        // A short read; the ranges themselves were fine so far.
        return Err(ShortRead(previousEnd));
      }
      BehindStep(fed, file[previousEnd..rep.start], rep.bytes, Streamed(file, reps[i + 1..], rep.End()));
      fed := stretch.value + rep.bytes;
      previousEnd := rep.End();
    }
    var tail := FeedSource(file, previousEnd, |file|, fed);
    if tail.Err? {
      return Err(ShortRead(previousEnd));
    }
    assert reps[|reps|..] == [] && file[previousEnd..|file|] == file[previousEnd..];
    return tail;
  }

  function Behind(fed: Bytes, rest: Result<Bytes, Fault>): Result<Bytes, Fault> {
    if rest.Ok? then Ok(fed + rest.value) else rest
  }

  lemma {:induction false} BehindStep(fed: Bytes, a: Bytes, b: Bytes, rest: Result<Bytes, Fault>)
    ensures Behind(fed, if rest.Ok? then Ok(a + b + rest.value) else rest) == Behind(fed + a + b, rest)
  {
    if rest.Ok? {
      assert fed + (a + b + rest.value) == fed + a + b + rest.value;
    }
  }

  // ----- the two agree -----

  predicate Apart(a: Replacement, b: Replacement) {
    a.End() <= b.start || b.End() <= a.start
  }

  /** No two ranges share a byte. */
  predicate Disjoint(reps: seq<Replacement>) {
    forall i, j | 0 <= i < j < |reps| :: Apart(reps[i], reps[j])
  }

  /** What disjoint substitution means byte by byte: inside a range its official byte, elsewhere the file's. */
  ghost predicate Substitutes(result: Bytes, file: Bytes, reps: seq<Replacement>)
    requires AllFit(reps, |file|)
  {
    && |result| == |file|
    && (forall r, k | r in reps && 0 <= k < |r.bytes| :: result[r.start + k] == r.bytes[k])
    && (forall i | 0 <= i < |file| && (forall r | r in reps :: !(r.start <= i < r.End())) :: result[i] == file[i])
  }

  lemma {:induction false} SubstitutionIsUnique(a: Bytes, b: Bytes, file: Bytes, reps: seq<Replacement>,
                                                others: seq<Replacement>)
    requires AllFit(reps, |file|) && AllFit(others, |file|)
    requires forall r :: r in reps <==> r in others
    requires Substitutes(a, file, reps) && Substitutes(b, file, others)
    ensures a == b
  {
    forall i | 0 <= i < |file| ensures a[i] == b[i] {
      if r :| r in reps && r.start <= i < r.End() {
        assert a[r.start + (i - r.start)] == r.bytes[i - r.start] == b[r.start + (i - r.start)];
      } else {
        assert forall r | r in others :: r in reps;
      }
    }
  }

  /** Overwriting one more range, apart from all substituted so far, substitutes it too. */
  lemma {:induction false} OneMoreRange(result: Bytes, file: Bytes, others: seq<Replacement>, rep: Replacement,
                                        all: seq<Replacement>)
    requires AllFit(others, |file|) && AllFit(all, |file|) && Substitutes(result, file, others)
    requires forall r | r in others :: Apart(r, rep)
    requires forall r :: r in all <==> r in others || r == rep
    ensures Substitutes(Overwritten(result, rep.start, rep.bytes), file, all)
  {
    var next := Overwritten(result, rep.start, rep.bytes);
    forall r, k | r in all && 0 <= k < |r.bytes| ensures next[r.start + k] == r.bytes[k] {
      if r != rep {
        assert r in others;
        assert result[r.start + k] == r.bytes[k];
      }
    }
    forall i | 0 <= i < |file| && (forall r | r in all :: !(r.start <= i < r.End())) ensures next[i] == file[i] {
      assert rep in all && forall r | r in others :: r in all;
      assert result[i] == file[i];
    }
  }

  lemma {:induction false} OverlaySubstitutes(file: Bytes, reps: seq<Replacement>)
    requires AllFit(reps, |file|) && Disjoint(reps)
    ensures Substitutes(Overlaid(file, reps), file, reps)
  {
    if reps != [] {
      var init := reps[..|reps| - 1];
      OverlaySubstitutes(file, init);
      forall r | r in init ensures Apart(r, reps[|reps| - 1]) {
        var i :| 0 <= i < |init| && init[i] == r;
        assert Apart(reps[i], reps[|reps| - 1]);
      }
      OneMoreRange(Overlaid(file, init), file, init, reps[|reps| - 1], reps);
    }
  }

  lemma {:induction false} StreamSubstitutes(file: Bytes, reps: seq<Replacement>, previousEnd: nat)
    requires AllFit(reps, |file|) && previousEnd <= |file| && Streamed(file, reps, previousEnd).Ok?
    ensures Substitutes(file[..previousEnd] + Streamed(file, reps, previousEnd).value, file, reps)
    ensures forall r | r in reps :: previousEnd <= r.start
    ensures Disjoint(reps)
    decreases |reps|
  {
    if reps == [] {
      assert file[..previousEnd] + file[previousEnd..] == file;
    } else {
      var first := reps[0];
      var rest := Streamed(file, reps[1..], first.End()).value;
      StreamSubstitutes(file, reps[1..], first.End());
      OneMoreRange(file[..first.End()] + rest, file, reps[1..], first, reps);
      StreamUnfolds(file, previousEnd, first, rest);
      forall i, j | 0 <= i < j < |reps| ensures Apart(reps[i], reps[j]) {
        assert reps[j] == reps[1..][j - 1];
        if i > 0 {
          assert reps[i] == reps[1..][i - 1];
        }
      }
    }
  }

  lemma {:induction false} StreamUnfolds(file: Bytes, previousEnd: nat, first: Replacement, rest: Bytes)
    requires previousEnd <= first.start && first.End() <= |file| && |rest| == |file| - first.End()
    ensures Overwritten(file[..first.End()] + rest, first.start, first.bytes)
         == file[..previousEnd] + (file[previousEnd..first.start] + first.bytes + rest)
  {
  }

  // ----- the order of the ranges -----

  predicate Ascending(reps: seq<Replacement>) {
    forall i, j | 0 <= i < j < |reps| :: reps[i].start <= reps[j].start
  }

  lemma {:induction false} InsertAdds(rep: Replacement, sorted: seq<Replacement>)
    ensures multiset(Insert(rep, sorted)) == multiset(sorted) + multiset{rep}
    decreases |sorted|
  {
    if sorted != [] && rep.start > sorted[0].start {
      InsertAdds(rep, sorted[1..]);
      assert sorted == [sorted[0]] + sorted[1..];
    }
  }

  lemma {:induction false} InsertKeepsOrder(rep: Replacement, sorted: seq<Replacement>)
    requires Ascending(sorted)
    ensures Ascending(Insert(rep, sorted))
    decreases |sorted|
  {
    if sorted != [] && rep.start > sorted[0].start {
      InsertKeepsOrder(rep, sorted[1..]);
      InsertAdds(rep, sorted[1..]);
      var rest := Insert(rep, sorted[1..]);
      forall i | 0 <= i < |rest| ensures sorted[0].start <= rest[i].start {
        assert rest[i] in multiset(rest);
        assert rest[i] == rep || rest[i] in sorted[1..];
      }
    }
  }

  lemma {:induction false} SortedSorts(reps: seq<Replacement>)
    ensures Ascending(Sorted(reps)) && multiset(Sorted(reps)) == multiset(reps)
    decreases |reps|
  {
    if reps != [] {
      SortedSorts(reps[1..]);
      InsertAdds(reps[0], Sorted(reps[1..]));
      InsertKeepsOrder(reps[0], Sorted(reps[1..]));
      assert reps == [reps[0]] + reps[1..];
    }
  }

  /** Disjointness does not depend on the order the ranges are listed in. */
  lemma {:induction false} DisjointIsUnordered(a: seq<Replacement>, b: seq<Replacement>)
    requires multiset(a) == multiset(b) && Disjoint(a) && (forall r | r in b :: r.bytes != [])
    ensures Disjoint(b)
  {
    forall i, j | 0 <= i < j < |b| ensures Apart(b[i], b[j]) {
      assert b[i] in multiset(b) && b[j] in multiset(b);
      if b[i] != b[j] {
        assert b[i] in a && b[j] in a;
        var k :| 0 <= k < |a| && a[k] == b[i];
        var l :| 0 <= l < |a| && a[l] == b[j];
        assert if k < l then Apart(a[k], a[l]) else Apart(a[l], a[k]);
      } else {
        TwiceMeansTwo(b, i, j);
        OnceIfDisjoint(a, b[i]);
      }
    }
  }

  lemma {:induction false} TwiceMeansTwo(b: seq<Replacement>, i: nat, j: nat)
    requires i < j < |b| && b[i] == b[j]
    ensures multiset(b)[b[i]] >= 2
  {
    assert b == b[..j] + [b[j]] + b[j + 1..];
    assert b[i] == b[..j][i];
    assert b[i] in multiset(b[..j]);
  }

  lemma {:induction false} OnceIfDisjoint(a: seq<Replacement>, r: Replacement)
    requires Disjoint(a) && r.bytes != []
    ensures multiset(a)[r] <= 1
    decreases |a|
  {
    if a != [] {
      assert a == [a[0]] + a[1..];
      OnceIfDisjoint(a[1..], r);
      forall k | 0 <= k < |a[1..]| && a[0] == r ensures a[1..][k] != r {
        assert Apart(a[0], a[k + 1]);
      }
    }
  }

  /** In file order, disjoint nonempty ranges are accepted by the stream. */
  lemma {:induction false} DisjointStreams(file: Bytes, reps: seq<Replacement>, previousEnd: nat)
    requires AllFit(reps, |file|) && previousEnd <= |file| && Ascending(reps) && Disjoint(reps)
    requires reps != [] ==> previousEnd <= reps[0].start
    ensures Streamed(file, reps, previousEnd).Ok?
    decreases |reps|
  {
    if |reps| > 1 {
      assert Apart(reps[0], reps[1]);
    }
    if reps != [] {
      assert forall i, j | 0 <= i < j < |reps[1..]| :: Apart(reps[1..][i], reps[1..][j]) by {
        forall i, j | 0 <= i < j < |reps[1..]| ensures Apart(reps[1..][i], reps[1..][j]) {
          assert Apart(reps[i + 1], reps[j + 1]);
        }
      }
      DisjointStreams(file, reps[1..], reps[0].End());
    }
  }

  /** MAIN: the stream refuses exactly overlapping ranges, and otherwise feeds the digest the very bytes that
      the in-place writes, in any order of the names, leave in the file; every other byte is the source's. */
  lemma {:induction false} InPlaceEqualsStream(file: Bytes, reps: seq<Replacement>)
    requires AllFit(reps, |file|)
    ensures AllFit(Sorted(reps), |file|)
    ensures Streamed(file, Sorted(reps), 0).Ok? <==> Disjoint(reps)
    ensures Streamed(file, Sorted(reps), 0).Ok? ==>
              Streamed(file, Sorted(reps), 0).value == Overlaid(file, reps)
                  && Substitutes(Overlaid(file, reps), file, reps)
  {
    var sorted := Sorted(reps);
    SortedSorts(reps);
    SameMembers(reps, sorted);
    if Streamed(file, sorted, 0).Ok? {
      StreamSubstitutes(file, sorted, 0);
      DisjointIsUnordered(sorted, reps);
      OverlaySubstitutes(file, reps);
      assert file[..0] + Streamed(file, sorted, 0).value == Streamed(file, sorted, 0).value;
      SubstitutionIsUnique(Overlaid(file, reps), Streamed(file, sorted, 0).value, file, reps, sorted);
    } else if Disjoint(reps) {
      DisjointIsUnordered(reps, sorted);
      DisjointStreams(file, sorted, 0);
    }
  }

  lemma {:induction false} SameMembers(a: seq<Replacement>, b: seq<Replacement>)
    requires multiset(a) == multiset(b)
    ensures forall r :: r in a <==> r in b
  {
    forall r ensures r in a <==> r in b {
      assert r in a <==> r in multiset(a);
      assert r in b <==> r in multiset(b);
    }
  }
}
