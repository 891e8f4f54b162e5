/** Multimodal rotary positions (`scripts/qwen38_context_unit.py` lines 50-102, 181-194, 225-241). */
module Mrope {
  import opened Division
  import opened Wrappers

  datatype Placement = Placement(offset: int, gridH: nat, gridW: nat, tokens: nat)

  /** The temporal, height and width coordinate of one token. */
  datatype Column = Column(t: nat, h: nat, w: nat)

  datatype Refusal = Overlapping | PastPrompt | NothingToPlace | LengthMismatch

  function Max(a: nat, b: nat): nat { if a < b then b else a }

  /** One more than the largest coordinate; 0 if there is none. */
  function Top(columns: seq<Column>): nat {
    if columns == [] then 0
    else
      var last := columns[|columns| - 1];
      Max(Top(columns[..|columns| - 1]), Max(last.t, Max(last.h, last.w)) + 1)
  }

  function TextRun(n: nat, position: nat): (run: seq<Column>)
    ensures |run| == n
  {
    seq(n, i requires i >= 0 => Column(position + i, position + i, position + i))
  }

  /** Row by row over the grid, all at one time. */
  function ImageRun(h: nat, w: nat, position: nat): (run: seq<Column>)
    ensures |run| == h * w
  {
    seq(h * w, i requires 0 <= i < h * w => ImageColumn(w, position, i))
  }

  function ImageColumn(w: nat, position: nat, i: nat): Column {
    if w == 0 then Column(position, position, position) else Column(position, position + i / w, position + i % w)
  }

  // ----- sorting -----

  function Insert(p: Placement, sorted: seq<Placement>): seq<Placement> {
    if sorted == [] || p.offset < sorted[0].offset then [p] + sorted else [sorted[0]] + Insert(p, sorted[1..])
  }

  /** `sorted(placements, key=offset)` */
  function Sort(placements: seq<Placement>): seq<Placement> {
    if placements == [] then [] else Insert(placements[|placements| - 1], Sort(placements[..|placements| - 1]))
  }

  ghost predicate Ordered(s: seq<Placement>) {
    forall i, j | 0 <= i < j < |s| :: s[i].offset <= s[j].offset
  }

  lemma {:induction false} InsertIsPermutation(p: Placement, sorted: seq<Placement>)
    ensures multiset(Insert(p, sorted)) == multiset(sorted) + multiset{p}
    decreases |sorted|
  {
    if !(sorted == [] || p.offset < sorted[0].offset) {
      InsertIsPermutation(p, sorted[1..]);
      assert sorted == [sorted[0]] + sorted[1..];
    }
  }

  lemma {:induction false} InsertAbove(p: Placement, sorted: seq<Placement>, bound: int)
    requires p.offset >= bound && forall j | 0 <= j < |sorted| :: sorted[j].offset >= bound
    ensures forall j | 0 <= j < |Insert(p, sorted)| :: Insert(p, sorted)[j].offset >= bound
    decreases |sorted|
  {
    if !(sorted == [] || p.offset < sorted[0].offset) {
      InsertAbove(p, sorted[1..], bound);
    }
  }

  lemma {:induction false} InsertOrdered(p: Placement, sorted: seq<Placement>)
    requires Ordered(sorted)
    ensures Ordered(Insert(p, sorted))
    decreases |sorted|
  {
    if !(sorted == [] || p.offset < sorted[0].offset) {
      var rest := sorted[1..];
      assert Ordered(rest);
      InsertOrdered(p, rest);
      InsertAbove(p, rest, sorted[0].offset);
      FirstOrdered(sorted[0], Insert(p, rest));
    } else {
      FirstOrdered(p, sorted);
    }
  }

  lemma {:induction false} FirstOrdered(p: Placement, rest: seq<Placement>)
    requires Ordered(rest) && forall j | 0 <= j < |rest| :: rest[j].offset >= p.offset
    ensures Ordered([p] + rest)
  {
  }

  lemma {:induction false} SortSorts(placements: seq<Placement>)
    ensures Ordered(Sort(placements)) && multiset(Sort(placements)) == multiset(placements)
    decreases |placements|
  {
    if placements != [] {
      var n := |placements| - 1;
      SortSorts(placements[..n]);
      InsertOrdered(placements[n], Sort(placements[..n]));
      InsertIsPermutation(placements[n], Sort(placements[..n]));
      assert placements == placements[..n] + [placements[n]];
    }
  }

  ghost predicate DistinctOffsets(s: seq<Placement>) {
    forall p, q | p in s && q in s && p.offset == q.offset :: p == q
  }

  lemma {:induction false} OrderedListsAgree(a: seq<Placement>, b: seq<Placement>)
    requires Ordered(a) && Ordered(b) && multiset(a) == multiset(b) && DistinctOffsets(a)
    ensures a == b
    decreases |a|
  {
    SameLength(a, b);
    if a != [] {
      SameFirst(a, b);
      FirstAway(a);
      FirstAway(b);
      TailDistinct(a);
      OrderedListsAgree(a[1..], b[1..]);
      Rejoined(a, b);
    }
  }

  lemma {:induction false} SameLength(a: seq<Placement>, b: seq<Placement>)
    requires multiset(a) == multiset(b)
    ensures |a| == |b|
  {
    assert |a| == |multiset(a)| == |multiset(b)| == |b|;
  }

  lemma {:induction false} Rejoined(a: seq<Placement>, b: seq<Placement>)
    requires a != [] && b != [] && a[0] == b[0] && a[1..] == b[1..]
    ensures a == b
  {
    assert a == [a[0]] + a[1..] && b == [b[0]] + b[1..];
  }

  lemma {:induction false} TailDistinct(a: seq<Placement>)
    requires a != [] && DistinctOffsets(a)
    ensures DistinctOffsets(a[1..])
  {
    assert forall p | p in a[1..] :: p in a;
  }

  lemma {:induction false} FirstAway(a: seq<Placement>)
    requires a != []
    ensures multiset(a[1..]) == multiset(a) - multiset{a[0]}
    ensures Ordered(a) ==> Ordered(a[1..])
  {
    assert a == [a[0]] + a[1..];
  }

  lemma {:induction false} SameFirst(a: seq<Placement>, b: seq<Placement>)
    requires a != [] && b != [] && Ordered(a) && Ordered(b) && multiset(a) == multiset(b) && DistinctOffsets(a)
    ensures a[0] == b[0]
  {
    assert a[0] in multiset(b) && b[0] in multiset(a);
    assert a[0] in b && b[0] in a;
    assert a[0].offset <= b[0].offset <= a[0].offset;
  }

  // ----- the algorithm -----

  /** The loop from a cursor and a position on: the columns it adds, and where it ends. */
  function Walk(sorted: seq<Placement>, cursor: int, position: nat): Result<(seq<Column>, int, nat), Refusal>
    decreases |sorted|
  {
    if sorted == [] then Ok(([], cursor, position))
    else
      var p := sorted[0];
      var text := p.offset - cursor;
      if text < 0 then Err(Overlapping)
      else
        var start := position + text;
        var rest :- Walk(sorted[1..], p.offset + p.tokens, start + Max(p.gridH, p.gridW));
        Ok((TextRun(text, position) + ImageRun(p.gridH, p.gridW, start) + rest.0, rest.1, rest.2))
  }

  function Reference(length: nat, placements: seq<Placement>): Result<(seq<Column>, int), Refusal> {
    var walked :- Walk(Sort(placements), 0, 0);
    var trailing := length - walked.1;
    if trailing < 0 then Err(PastPrompt)
    else
      var columns := walked.0 + TextRun(trailing, walked.2);
      if columns == [] && length == 0 then Err(NothingToPlace)
      else if |columns| != length then Err(LengthMismatch)
      else Ok((columns, Top(columns) - length))
  }

  /** The loop over the placements in order. */
  method WalkImages(sorted: seq<Placement>) returns (r: Result<(seq<Column>, int, nat), Refusal>)
    ensures r == Walk(sorted, 0, 0)
  {
    var chunks: seq<Column>, cursor: int, position: nat := [], 0, 0;
    assert sorted[0..] == sorted;
    NothingBefore(Walk(sorted, cursor, position));
    for i := 0 to |sorted|
      invariant Walk(sorted, 0, 0) == After(chunks, Walk(sorted[i..], cursor, position))
    {
      var p := sorted[i];
      assert sorted[i..][0] == p && sorted[i..][1..] == sorted[i + 1..];
      var text := p.offset - cursor;
      if text < 0 { return Err(Overlapping); }
      AfterStep(chunks, TextRun(text, position), ImageRun(p.gridH, p.gridW, position + text),
                Walk(sorted[i + 1..], p.offset + p.tokens, position + text + Max(p.gridH, p.gridW)));
      if text != 0 {
        chunks := chunks + TextRun(text, position);
        position := position + text;
      }
      chunks := chunks + ImageRun(p.gridH, p.gridW, position);
      position := position + Max(p.gridH, p.gridW);
      cursor := p.offset + p.tokens;
    }
    assert sorted[|sorted|..] == [];
    assert chunks + [] == chunks;
    r := Ok((chunks, cursor, position));
  }

  /** `official_image_reference` */
  method OfficialImageReference(length: nat, placements: seq<Placement>)
    returns (r: Result<(seq<Column>, int), Refusal>)
    ensures r == Reference(length, placements)
  {
    var walked := WalkImages(Sort(placements));
    if walked.Err? { return Err(walked.error); }
    var (chunks, cursor, position) := walked.value;
    var trailing := length - cursor;
    if trailing < 0 { return Err(PastPrompt); }
    if trailing != 0 { chunks := chunks + TextRun(trailing, position); }
    assert trailing == 0 ==> chunks + TextRun(trailing, position) == chunks;
    if chunks == [] && length == 0 { return Err(NothingToPlace); }
    if |chunks| != length { return Err(LengthMismatch); }
    r := Ok((chunks, Top(chunks) - length));
  }

  function After(columns: seq<Column>, rest: Result<(seq<Column>, int, nat), Refusal>)
    : Result<(seq<Column>, int, nat), Refusal>
  {
    match rest
    case Ok(r) => Ok((columns + r.0, r.1, r.2))
    case Err(e) => Err(e)
  }

  lemma {:induction false} NothingBefore(rest: Result<(seq<Column>, int, nat), Refusal>)
    ensures After([], rest) == rest
  {
    if rest.Ok? { assert [] + rest.value.0 == rest.value.0; }
  }

  lemma {:induction false} AfterStep(before: seq<Column>, text: seq<Column>, image: seq<Column>,
                                     rest: Result<(seq<Column>, int, nat), Refusal>)
    ensures rest.Ok? ==> before + (text + image + rest.value.0) == before + text + image + rest.value.0
    ensures text == [] ==> before + text + image == before + image
  {
  }

  // ----- what it assigns -----

  /** An image's tokens are its grid. */
  predicate Proper(p: Placement) {
    p.tokens == p.gridH * p.gridW && p.tokens >= 1
  }

  predicate AllProper(s: seq<Placement>) {
    forall i | 0 <= i < |s| :: Proper(s[i])
  }

  lemma {:induction false} TopConcat(a: seq<Column>, b: seq<Column>)
    ensures Top(a + b) == Max(Top(a), Top(b))
    decreases |b|
  {
    if b == [] {
      assert a + b == a;
    } else {
      var n := |b| - 1;
      assert (a + b)[..|a + b| - 1] == a + b[..n];
      TopConcat(a, b[..n]);
    }
  }

  lemma {:induction false} TopOfText(n: nat, position: nat)
    ensures Top(TextRun(n, position)) == if n == 0 then 0 else position + n
  {
    if n > 0 {
      TopOfText(n - 1, position);
      assert TextRun(n, position)[..n - 1] == TextRun(n - 1, position);
    }
  }

  /** The coordinates of an image stay below its top, and reach it. */
  lemma {:induction false} TopOfImage(h: nat, w: nat, position: nat)
    requires h * w >= 1
    ensures Top(ImageRun(h, w, position)) == position + Max(h, w)
  {
    var run := ImageRun(h, w, position);
    forall i | 0 <= i < h * w ensures run[i].t < position + Max(h, w) && run[i].h < position + h
        && run[i].w < position + w {
      RowInGrid(h, w, i);
    }
    TopAtMost(run, position + Max(h, w));
    LastOfImage(h, w, position);
    TopAtLeast(run, h * w - 1);
    assert run[h * w - 1].h == position + h - 1;
    TopAtLeast(run, w - 1);
    assert run[w - 1].w == position + w - 1;
  }

  lemma {:induction false} RowInGrid(h: nat, w: nat, i: nat)
    requires i < h * w
    ensures w > 0 && i / w < h
  {
    QuotientBelow(i, h, w);
  }

  lemma {:induction false} LastOfImage(h: nat, w: nat, position: nat)
    requires h * w >= 1
    ensures w >= 1 && w <= h * w
    ensures ImageColumn(w, position, h * w - 1).h == position + h - 1
    ensures ImageColumn(w, position, w - 1).w == position + w - 1
  {
    assert h * w - 1 == (h - 1) * w + (w - 1);
    MulOrdered(0, h - 1, w);
    QuotientIs(h - 1, w - 1, w);
    QuotientIs(0, w - 1, w);
  }

  lemma {:induction false} TopAtMost(columns: seq<Column>, bound: nat)
    requires forall i | 0 <= i < |columns| :: columns[i].t < bound && columns[i].h < bound && columns[i].w < bound
    ensures Top(columns) <= bound
    decreases |columns|
  {
    if columns != [] { TopAtMost(columns[..|columns| - 1], bound); }
  }

  lemma {:induction false} TopAtLeast(columns: seq<Column>, i: nat)
    requires i < |columns|
    ensures columns[i].t < Top(columns) && columns[i].h < Top(columns) && columns[i].w < Top(columns)
    decreases |columns|
  {
    if i < |columns| - 1 { TopAtLeast(columns[..|columns| - 1], i); }
  }

  /** Sequence index `k` belongs to no image. */
  predicate IsText(placements: seq<Placement>, k: int) {
    forall i | 0 <= i < |placements| :: !(placements[i].offset <= k < placements[i].offset + placements[i].tokens)
  }

  /** Text continues right above everything before it, with all three coordinates. */
  predicate TextAbove(columns: seq<Column>, k: nat)
    requires k < |columns|
  {
    columns[k] == Column(Top(columns[..k]), Top(columns[..k]), Top(columns[..k]))
  }

  /** An image starts right above everything before it and counts rows and columns from there. */
  predicate ImageAbove(columns: seq<Column>, p: Placement, i: nat)
    requires 0 <= p.offset && p.offset + i < |columns|
  {
    columns[p.offset + i] == ImageColumn(p.gridW, Top(columns[..p.offset]), i)
  }

  /** The list up to and with one image, on top of what is there. */
  function Extended(pre: seq<Column>, p: Placement): seq<Column>
    requires p.offset >= |pre|
  {
    pre + TextRun(p.offset - |pre|, Top(pre)) + ImageRun(p.gridH, p.gridW, Top(pre) + (p.offset - |pre|))
  }

  /** Text on top of a list ends on top of it. */
  lemma {:induction false} TextOnTop(pre: seq<Column>, n: nat)
    ensures Top(pre + TextRun(n, Top(pre))) == Top(pre) + n
  {
    TopConcat(pre, TextRun(n, Top(pre)));
    TopOfText(n, Top(pre));
  }

  /** One round: the next one starts at the end of the list so far, on top of it. */
  lemma {:induction false} ExtendedEnds(pre: seq<Column>, p: Placement)
    requires Proper(p) && p.offset >= |pre|
    ensures |Extended(pre, p)| == p.offset + p.tokens
    ensures Top(Extended(pre, p)) == Top(pre) + (p.offset - |pre|) + Max(p.gridH, p.gridW)
  {
    var n := p.offset - |pre|;
    var list := pre + TextRun(n, Top(pre));
    TextOnTop(pre, n);
    ExtendedIs(pre, p, n, list);
    ImageOnTop(list, p.gridH, p.gridW);
  }

  lemma {:induction false} ExtendedIs(pre: seq<Column>, p: Placement, n: nat, list: seq<Column>)
    requires Proper(p) && n == p.offset - |pre| && list == pre + TextRun(n, Top(pre)) && Top(list) == Top(pre) + n
    ensures Extended(pre, p) == list + ImageRun(p.gridH, p.gridW, Top(list))
    ensures |Extended(pre, p)| == p.offset + p.tokens
  {
  }

  /** An image on top of a list ends above it by its longer side. */
  lemma {:induction false} ImageOnTop(list: seq<Column>, h: nat, w: nat)
    requires h * w >= 1
    ensures Top(list + ImageRun(h, w, Top(list))) == Top(list) + Max(h, w)
  {
    TopConcat(list, ImageRun(h, w, Top(list)));
    TopOfImage(h, w, Top(list));
  }

  lemma {:induction false} WalkUnfolds(sorted: seq<Placement>, cursor: int, position: nat)
    requires sorted != [] && Walk(sorted, cursor, position).Ok?
    ensures var p := sorted[0];
            && p.offset >= cursor
            && var start := position + (p.offset - cursor);
               && var rest := Walk(sorted[1..], p.offset + p.tokens, start + Max(p.gridH, p.gridW));
                  && rest.Ok?
                  && Walk(sorted, cursor, position).value
                     == (TextRun(p.offset - cursor, position) + ImageRun(p.gridH, p.gridW, start) + rest.value.0,
                         rest.value.1, rest.value.2)
  {
  }

  /** `full` is what the walk over `sorted` makes of the list `pre`; it ends behind its last image. */
  ghost predicate Places(sorted: seq<Placement>, pre: seq<Column>, full: seq<Column>) {
    exists added :: Walk(sorted, |pre|, Top(pre)) == Ok((added, |full|, Top(full))) && full == pre + added
  }

  lemma {:induction false} PlacesStep(sorted: seq<Placement>, pre: seq<Column>, full: seq<Column>)
    requires sorted != [] && Proper(sorted[0]) && Places(sorted, pre, full)
    ensures sorted[0].offset >= |pre| && Places(sorted[1..], Extended(pre, sorted[0]), full)
    ensures Extended(pre, sorted[0]) <= full
  {
    WalkUnfolds(sorted, |pre|, Top(pre));
    ExtendedEnds(pre, sorted[0]);
    var mid := Extended(pre, sorted[0]);
    ExtendedThen(pre, sorted[0], Walk(sorted[1..], |mid|, Top(mid)).value.0);
  }

  lemma {:induction false} ExtendedThen(pre: seq<Column>, p: Placement, added: seq<Column>)
    requires p.offset >= |pre|
    ensures var n := p.offset - |pre|;
            pre + (TextRun(n, Top(pre)) + ImageRun(p.gridH, p.gridW, Top(pre) + n) + added) == Extended(pre, p) + added
  {
    Regroup(pre, TextRun(p.offset - |pre|, Top(pre)), ImageRun(p.gridH, p.gridW, Top(pre) + (p.offset - |pre|)), added);
  }

  lemma {:induction false} Regroup(pre: seq<Column>, text: seq<Column>, image: seq<Column>, added: seq<Column>)
    ensures pre + (text + image + added) == pre + text + image + added
  {
  }

  lemma {:induction false} PlacesNothing(pre: seq<Column>, full: seq<Column>)
    requires Places([], pre, full)
    ensures full == pre
  {
    assert pre + [] == pre;
  }

  /** The cursor is the length of the list, the position its top. */
  lemma {:induction false} WalkPlaces(sorted: seq<Placement>, pre: seq<Column>)
    requires AllProper(sorted) && Walk(sorted, |pre|, Top(pre)).Ok?
    ensures Places(sorted, pre, pre + Walk(sorted, |pre|, Top(pre)).value.0)
    decreases |sorted|
  {
    if sorted == [] {
      assert pre + [] == pre;
    } else {
      var p := sorted[0];
      assert Proper(p) && AllProper(sorted[1..]);
      WalkUnfolds(sorted, |pre|, Top(pre));
      ExtendedEnds(pre, p);
      var mid := Extended(pre, p);
      WalkPlaces(sorted[1..], mid);
      ExtendedThen(pre, p, Walk(sorted[1..], |mid|, Top(mid)).value.0);
    }
  }

  /** A text token of the walk. */
  lemma {:induction false} WalkTextAbove(sorted: seq<Placement>, pre: seq<Column>, full: seq<Column>, k: nat)
    requires AllProper(sorted) && Places(sorted, pre, full) && |pre| <= k < |full| && IsText(sorted, k)
    ensures TextAbove(full, k)
    decreases |sorted|
  {
    if sorted == [] {
      PlacesNothing(pre, full);
      assert false;
    } else {
      var p := sorted[0];
      assert Proper(p);
      PlacesStep(sorted, pre, full);
      var mid := Extended(pre, p);
      ExtendedEnds(pre, p);
      assert !(p.offset <= k < p.offset + p.tokens);
      if k < |mid| {
        RunAbove(pre, p.offset - |pre|, ImageRun(p.gridH, p.gridW, Top(pre) + (p.offset - |pre|)), k);
        PrefixAbove(mid, full, k);
      } else {
        TailsAlike(sorted, k);
        WalkTextAbove(sorted[1..], mid, full, k);
      }
    }
  }

  lemma {:induction false} TailsAlike(sorted: seq<Placement>, k: nat)
    requires sorted != []
    ensures IsText(sorted, k) ==> IsText(sorted[1..], k)
    ensures AllProper(sorted) ==> AllProper(sorted[1..])
  {
    assert forall i | 0 <= i < |sorted| - 1 :: sorted[1..][i] == sorted[i + 1];
  }

  lemma {:induction false} RunAbove(pre: seq<Column>, n: nat, behind: seq<Column>, k: nat)
    requires |pre| <= k < |pre| + n
    ensures TextAbove(pre + TextRun(n, Top(pre)) + behind, k)
  {
    var full := pre + TextRun(n, Top(pre)) + behind;
    var m := k - |pre|;
    assert full[..k] == pre + TextRun(m, Top(pre));
    TextOnTop(pre, m);
  }

  /** A token of an image of the walk. */
  lemma {:induction false} WalkImageAbove(sorted: seq<Placement>, pre: seq<Column>, full: seq<Column>, j: nat, i: nat)
    requires AllProper(sorted) && Places(sorted, pre, full) && j < |sorted| && i < sorted[j].tokens
    ensures 0 <= sorted[j].offset && sorted[j].offset + sorted[j].tokens <= |full|
    ensures ImageAbove(full, sorted[j], i)
    decreases |sorted|
  {
    var p := sorted[0];
    assert Proper(p);
    PlacesStep(sorted, pre, full);
    var mid := Extended(pre, p);
    ExtendedEnds(pre, p);
    if j == 0 {
      GridAbove(pre, p, i);
      ImagePrefix(mid, full, p, i);
    } else {
      WalkImageAbove(sorted[1..], mid, full, j - 1, i);
    }
  }

  lemma {:induction false} ImagePrefix(mid: seq<Column>, full: seq<Column>, p: Placement, i: nat)
    requires mid <= full && 0 <= p.offset && p.offset + i < |mid| && ImageAbove(mid, p, i)
    ensures ImageAbove(full, p, i)
  {
    assert full[..p.offset] == mid[..p.offset];
  }

  lemma {:induction false} GridAbove(pre: seq<Column>, p: Placement, i: nat)
    requires Proper(p) && p.offset >= |pre| && i < p.tokens
    ensures |Extended(pre, p)| == p.offset + p.tokens && ImageAbove(Extended(pre, p), p, i)
  {
    var n := p.offset - |pre|;
    var text := TextRun(n, Top(pre));
    assert Extended(pre, p)[..p.offset] == pre + text;
    TextOnTop(pre, n);
  }

  // ----- the result -----

  lemma {:induction false} ReferenceParts(length: nat, placements: seq<Placement>) returns (placed: seq<Column>)
    requires AllProper(placements) && Reference(length, placements).Ok?
    ensures AllProper(Sort(placements)) && Places(Sort(placements), [], placed)
    ensures |placed| <= length == |Reference(length, placements).value.0|
    ensures Reference(length, placements).value.0 == placed + TextRun(length - |placed|, Top(placed))
    ensures Reference(length, placements).value.1 == Top(Reference(length, placements).value.0) - length
  {
    SortKeepsProper(placements);
    placed := Walk(Sort(placements), 0, 0).value.0;
    WalkPlaces(Sort(placements), []);
    assert [] + placed == placed;
    EndsAt(Sort(placements), placed);
  }

  lemma {:induction false} EndsAt(sorted: seq<Placement>, placed: seq<Column>)
    requires Places(sorted, [], placed)
    ensures Walk(sorted, 0, 0) == Ok((placed, |placed|, Top(placed)))
  {
    var none: seq<Column> := [];
    var added :| Walk(sorted, |none|, Top(none)) == Ok((added, |placed|, Top(placed))) && placed == none + added;
    assert [] + added == added;
  }

  lemma {:induction false} SortKeepsProper(placements: seq<Placement>)
    requires AllProper(placements)
    ensures AllProper(Sort(placements))
  {
    SortSorts(placements);
    forall i | 0 <= i < |Sort(placements)| ensures Proper(Sort(placements)[i]) {
      assert Sort(placements)[i] in multiset(placements);
      assert Sort(placements)[i] in placements;
    }
  }

  /** MAIN: one column for each token; every text token comes right above all columns before it, with three equal
      coordinates. */
  lemma {:induction false} TextContinuesAbove(length: nat, placements: seq<Placement>, k: nat)
    requires AllProper(placements) && Reference(length, placements).Ok? && k < length && IsText(placements, k)
    ensures |Reference(length, placements).value.0| == length
    ensures TextAbove(Reference(length, placements).value.0, k)
  {
    var placed := ReferenceParts(length, placements);
    SortedIsText(placements, k);
    TextAboveIn(Sort(placements), placed, length - |placed|, k);
  }

  lemma {:induction false} TextAboveIn(sorted: seq<Placement>, placed: seq<Column>, n: nat, k: nat)
    requires AllProper(sorted) && Places(sorted, [], placed) && IsText(sorted, k) && k < |placed| + n
    ensures TextAbove(placed + TextRun(n, Top(placed)), k)
  {
    var full := placed + TextRun(n, Top(placed));
    if k < |placed| {
      WalkTextAbove(sorted, [], placed, k);
      PrefixAbove(placed, full, k);
    } else {
      RunAbove(placed, n, [], k);
      assert full + [] == full;
    }
  }

  lemma {:induction false} PrefixAbove(placed: seq<Column>, full: seq<Column>, k: nat)
    requires placed <= full && k < |placed| && TextAbove(placed, k)
    ensures TextAbove(full, k)
  {
    assert full[..k] == placed[..k];
  }

  lemma {:induction false} SortedIsText(placements: seq<Placement>, k: int)
    ensures IsText(placements, k) ==> IsText(Sort(placements), k)
  {
    SortSorts(placements);
    if IsText(placements, k) {
      forall i | 0 <= i < |Sort(placements)|
        ensures !(Sort(placements)[i].offset <= k < Sort(placements)[i].offset + Sort(placements)[i].tokens)
      {
        assert Sort(placements)[i] in multiset(placements);
        var j :| 0 <= j < |placements| && placements[j] == Sort(placements)[i];
      }
    }
  }

  /** MAIN: each image stands at its offset, starts right above all columns before it, and counts its rows and
      columns from there. */
  lemma {:induction false} ImageStartsAbove(length: nat, placements: seq<Placement>, j: nat, i: nat)
    requires AllProper(placements) && Reference(length, placements).Ok? && j < |placements| && i < placements[j].tokens
    ensures 0 <= placements[j].offset
        && placements[j].offset + placements[j].tokens <= |Reference(length, placements).value.0| == length
    ensures ImageAbove(Reference(length, placements).value.0, placements[j], i)
  {
    var placed := ReferenceParts(length, placements);
    var l := InSorted(placements, j);
    WalkImageAbove(Sort(placements), [], placed, l, i);
    ImagePrefix(placed, Reference(length, placements).value.0, placements[j], i);
  }

  lemma {:induction false} InSorted(placements: seq<Placement>, j: nat) returns (l: nat)
    requires j < |placements|
    ensures l < |Sort(placements)| && Sort(placements)[l] == placements[j]
  {
    SortSorts(placements);
    assert placements[j] in multiset(Sort(placements));
    l :| 0 <= l < |Sort(placements)| && Sort(placements)[l] == placements[j];
  }

  // ----- the delta -----

  /** How far the images fall behind their token counts: never ahead. */
  function Saved(placements: seq<Placement>): int {
    if placements == [] then 0
    else
      var p := placements[0];
      Saved(placements[1..]) + Max(p.gridH, p.gridW) - p.gridH * p.gridW
  }

  lemma {:induction false} NeverAhead(placements: seq<Placement>)
    requires AllProper(placements)
    ensures Saved(placements) <= 0
    decreases |placements|
  {
    if placements != [] {
      var p := placements[0];
      assert Proper(p);
      assert forall i | 0 <= i < |placements| - 1 :: placements[1..][i] == placements[i + 1];
      NeverAhead(placements[1..]);
      SideBelowArea(p.gridH, p.gridW);
    }
  }

  lemma {:induction false} SideBelowArea(h: nat, w: nat)
    requires h * w >= 1
    ensures Max(h, w) <= h * w
  {
    MulOrdered(1, h, w);
    MulOrdered(1, w, h);
  }

  lemma {:induction false} PlacesDelta(sorted: seq<Placement>, pre: seq<Column>, full: seq<Column>)
    requires AllProper(sorted) && Places(sorted, pre, full)
    ensures Top(full) - |full| == Top(pre) - |pre| + Saved(sorted)
    decreases |sorted|
  {
    if sorted == [] {
      assert pre + [] == pre;
    } else {
      var p := sorted[0];
      assert Proper(p);
      assert forall i | 0 <= i < |sorted| - 1 :: sorted[1..][i] == sorted[i + 1];
      PlacesStep(sorted, pre, full);
      ExtendedEnds(pre, p);
      PlacesDelta(sorted[1..], Extended(pre, p), full);
    }
  }

  /** MAIN: the delta is what the images' longer sides fall short of their areas, never positive; so text generated
      behind the prompt, placed at its own index plus the delta, starts right above every column of the prompt. */
  lemma {:induction false} DeltaContinues(length: nat, placements: seq<Placement>)
    requires AllProper(placements) && Reference(length, placements).Ok?
    ensures Reference(length, placements).value.1 == Saved(Sort(placements)) <= 0
    ensures length + Reference(length, placements).value.1 == Top(Reference(length, placements).value.0)
  {
    var placed := ReferenceParts(length, placements);
    PlacesDelta(Sort(placements), [], placed);
    NeverAhead(Sort(placements));
    TopConcat(placed, TextRun(length - |placed|, Top(placed)));
    TopOfText(length - |placed|, Top(placed));
  }

  /** Images in order, each behind the end of the one before. */
  ghost predicate Apart(sorted: seq<Placement>, cursor: int) {
    && (forall i | 0 <= i < |sorted| :: sorted[i].offset >= cursor)
    && (forall i, j | 0 <= i < j < |sorted| :: sorted[i].offset + sorted[i].tokens <= sorted[j].offset)
  }

  function EndOf(sorted: seq<Placement>, cursor: int): int {
    if sorted == [] then cursor else sorted[|sorted| - 1].offset + sorted[|sorted| - 1].tokens
  }

  lemma {:induction false} WalkAcceptsExactly(sorted: seq<Placement>, cursor: int, position: nat)
    ensures Walk(sorted, cursor, position).Ok? <==> Apart(sorted, cursor)
    ensures Walk(sorted, cursor, position).Ok? ==> Walk(sorted, cursor, position).value.1 == EndOf(sorted, cursor)
    decreases |sorted|
  {
    if sorted != [] && sorted[0].offset >= cursor {
      var p, rest := sorted[0], sorted[1..];
      WalkAcceptsExactly(rest, p.offset + p.tokens, position + (p.offset - cursor) + Max(p.gridH, p.gridW));
      ApartSplits(sorted, cursor);
    }
  }

  lemma {:induction false} ApartSplits(sorted: seq<Placement>, cursor: int)
    requires sorted != [] && sorted[0].offset >= cursor
    ensures Apart(sorted, cursor) <==> Apart(sorted[1..], sorted[0].offset + sorted[0].tokens)
  {
    var rest, end := sorted[1..], sorted[0].offset + sorted[0].tokens;
    if Apart(rest, end) {
      forall i, j | 0 <= i < j < |sorted| ensures sorted[i].offset + sorted[i].tokens <= sorted[j].offset {
        assert sorted[j] == rest[j - 1];
        if i > 0 { assert rest[i - 1].offset + rest[i - 1].tokens <= rest[j - 1].offset; }
      }
      forall i | 0 <= i < |sorted| ensures sorted[i].offset >= cursor {
        if i > 0 { assert rest[i - 1].offset >= end; }
      }
    }
    if Apart(sorted, cursor) {
      forall i | 0 <= i < |rest| ensures rest[i].offset >= end {
        assert sorted[0].offset + sorted[0].tokens <= sorted[i + 1].offset;
      }
      forall i, j | 0 <= i < j < |rest| ensures rest[i].offset + rest[i].tokens <= rest[j].offset {
        assert sorted[i + 1].offset + sorted[i + 1].tokens <= sorted[j + 1].offset;
      }
    }
  }

  /** MAIN: which requests are placed: images that are apart and end within a prompt that is not empty. */
  lemma {:induction false} AcceptsExactly(length: nat, placements: seq<Placement>)
    requires AllProper(placements)
    ensures Reference(length, placements).Ok? <==>
              length > 0 && Apart(Sort(placements), 0) && EndOf(Sort(placements), 0) <= length
  {
    WalkAcceptsExactly(Sort(placements), 0, 0);
    SortKeepsProper(placements);
    if Walk(Sort(placements), 0, 0).Ok? {
      WalkFills(Sort(placements));
    }
  }

  lemma {:induction false} WalkFills(sorted: seq<Placement>)
    requires AllProper(sorted) && Walk(sorted, 0, 0).Ok?
    ensures |Walk(sorted, 0, 0).value.0| == Walk(sorted, 0, 0).value.1
  {
    var placed := Walk(sorted, 0, 0).value.0;
    WalkPlaces(sorted, []);
    assert [] + placed == placed;
    EndsAt(sorted, placed);
  }

  /** MAIN: the order in which a request lists its images does not matter. Images that start at one place are refused
      in any order. */
  lemma {:induction false} ListOrderIrrelevant(length: nat, placements: seq<Placement>, others: seq<Placement>)
    requires multiset(placements) == multiset(others) && (AllProper(placements) || DistinctOffsets(placements))
    ensures Reference(length, placements) == Reference(length, others)
  {
    SameMembers(placements, others);
    if DistinctOffsets(placements) {
      SortSorts(placements);
      SortSorts(others);
      SortedDistinct(placements);
      OrderedListsAgree(Sort(placements), Sort(others));
    } else {
      EqualOffsetsRefused(placements);
      EqualOffsetsRefused(others);
    }
  }

  lemma {:induction false} SameMembers(a: seq<Placement>, b: seq<Placement>)
    requires multiset(a) == multiset(b)
    ensures forall p :: p in a <==> p in b
  {
    forall p ensures p in a <==> p in b {
      assert p in multiset(a) <==> p in multiset(b);
    }
  }

  lemma {:induction false} EqualOffsetsRefused(placements: seq<Placement>)
    requires (forall p | p in placements :: Proper(p)) && !DistinctOffsets(placements)
    ensures Walk(Sort(placements), 0, 0) == Err(Overlapping)
  {
    var p, q :| p in placements && q in placements && p.offset == q.offset && p != q;
    var sorted := Sort(placements);
    SortSorts(placements);
    SameMembers(sorted, placements);
    assert p in sorted && q in sorted;
    var i :| 0 <= i < |sorted| && sorted[i] == p;
    var j :| 0 <= j < |sorted| && sorted[j] == q;
    NotApart(sorted, if i < j then i else j, if i < j then j else i);
    WalkAcceptsExactly(sorted, 0, 0);
    WalkRefusal(sorted, 0, 0);
  }

  lemma {:induction false} NotApart(sorted: seq<Placement>, i: nat, j: nat)
    requires i < j < |sorted| && Proper(sorted[i]) && sorted[i].offset == sorted[j].offset
    ensures !Apart(sorted, 0)
  {
    assert sorted[i].offset + sorted[i].tokens > sorted[j].offset;
  }

  lemma {:induction false} WalkRefusal(sorted: seq<Placement>, cursor: int, position: nat)
    ensures Walk(sorted, cursor, position).Err? ==> Walk(sorted, cursor, position).error == Overlapping
    decreases |sorted|
  {
    if sorted != [] && sorted[0].offset >= cursor {
      var p := sorted[0];
      WalkRefusal(sorted[1..], p.offset + p.tokens, position + (p.offset - cursor) + Max(p.gridH, p.gridW));
    }
  }

  lemma {:induction false} SortedDistinct(placements: seq<Placement>)
    requires DistinctOffsets(placements)
    ensures DistinctOffsets(Sort(placements))
  {
    SortSorts(placements);
    forall p | p in Sort(placements) ensures p in placements {
      assert p in multiset(placements);
    }
  }

  // ----- the interleaved axes -----

  function AxisOf(index: nat, heightSection: nat, widthSection: nat): nat {
    if index % 3 == 1 && index <= 3 * heightSection then 1
    else if index % 3 == 2 && index <= 3 * widthSection then 2
    else 0
  }

  /** `for index in range(start, limit, 3): axes[index] = axis` */
  method Overwrite(axes: array<nat>, start: nat, limit: nat, axis: nat)
    requires start < 3 && limit <= axes.Length + 2 - start && limit % 3 == 0
    requires start > 0
    modifies axes
    ensures forall i | 0 <= i < axes.Length :: axes[i] == if i % 3 == start && i < limit then axis else old(axes[i])
  {
    var index := start;
    while index < limit
      invariant index % 3 == start && index <= limit + start
      invariant forall i | 0 <= i < axes.Length :: axes[i] == if i % 3 == start && i < index then axis else old(axes[i])
    {
      axes[index] := axis;
      index := index + 3;
    }
  }

  /** The slots overwritten with height and width are exactly those the predicates describe, for all sections that
      fit. */
  method OfficialAxes(slots: nat, heightSection: nat, widthSection: nat) returns (axes: array<nat>)
    requires 3 * heightSection <= slots + 1 && 3 * widthSection <= slots
    ensures fresh(axes) && axes.Length == slots
    ensures forall i | 0 <= i < slots :: axes[i] == AxisOf(i, heightSection, widthSection)
  {
    axes := new nat[slots](i => 0);
    Overwrite(axes, 1, 3 * heightSection, 1);
    Overwrite(axes, 2, 3 * widthSection, 2);
  }
}
