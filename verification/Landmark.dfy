/** Growing a review hunk into a landmark: `compile_review_diff.py` lines 70-154 and
    `after_outside_landmark` of the transaction framework. */
module Landmark {
  import opened PyText
  import opened Wrappers

  datatype Reason =
    | NotTheCompleteFile
    | NewFileHasSource
    | LineOutsideFile
    | BlockNotAtItsLine
    | CouldNotExpand

  datatype Block = Block(before: string, after: string)

  /** `line_offset`: where the one-based line starts. */
  function LineOffset(text: string, line: int): Result<nat, Reason> {
    var lines := SplitLines(text);
    if 1 <= line <= |lines| + 1 then Ok(TotalLength(lines[..line - 1])) else Err(LineOutsideFile)
  }

  /** What `occurrence_offsets` returns. */
  function Offsets(text: string, needle: string): seq<nat> {
    if needle == "" then (if text == "" then [0] else []) else OffsetsFrom(text, needle, 0)
  }

  lemma {:induction false} Regroup(listed: seq<nat>, next: nat, rest: seq<nat>)
    ensures listed + ([next] + rest) == (listed + [next]) + rest
  {
  }

  method OccurrenceOffsets(text: string, needle: string) returns (offsets: seq<nat>)
    ensures offsets == Offsets(text, needle)
  {
    if needle == "" {
      return if text == "" then [0] else [];
    }
    offsets := [];
    var start := 0;
    while true
      invariant start <= |text|
      invariant OffsetsFrom(text, needle, 0) == offsets + OffsetsFrom(text, needle, start)
      decreases |text| - start
    {
      var found := Find(text, needle, start);
      if found < 0 {
        OffsetsStep(text, needle, start, found);
        return;
      }
      OffsetsStep(text, needle, start, found);
      Regroup(offsets, found, OffsetsFrom(text, needle, found + 1));
      offsets := offsets + [found];
      start := found + 1;
    }
  }

  /** Occurrences of `after` from `from` on that do not lie wholly inside `[lo, hi)`. */
  function OutsideFrom(text: string, after: string, lo: nat, hi: nat, from: nat): nat
    decreases |text| + 1 - from
  {
    var p := Find(text, after, from);
    if p < 0 then 0
    else (if p < lo || p + |after| > hi then 1 else 0) + OutsideFrom(text, after, lo, hi, p + 1)
  }

  lemma {:induction false} OutsideStep(text: string, after: string, lo: nat, hi: nat, from: nat, p: int)
    requires p == Find(text, after, from)
    ensures OutsideFrom(text, after, lo, hi, from)
         == if p < 0 then 0
            else (if p < lo || p + |after| > hi then 1 else 0) + OutsideFrom(text, after, lo, hi, p + 1)
  {
  }

  /** If none are counted outside, every occurrence lies inside. */
  lemma {:induction false} AllInside(text: string, after: string, lo: nat, hi: nat, from: nat, q: nat)
    requires OutsideFrom(text, after, lo, hi, from) == 0 && from <= q && OccursAt(text, after, q)
    ensures lo <= q && q + |after| <= hi
    decreases |text| + 1 - from
  {
    FindIsFirst(text, after, from, q);
    var p := Find(text, after, from);
    if p < q {
      AllInside(text, after, lo, hi, p + 1, q);
    }
  }

  /** If every occurrence lies inside, none are counted outside. */
  lemma {:induction false} NoneOutside(text: string, after: string, lo: nat, hi: nat, from: nat)
    requires forall p | from <= p && OccursAt(text, after, p) :: lo <= p && p + |after| <= hi
    ensures OutsideFrom(text, after, lo, hi, from) == 0
    decreases |text| + 1 - from
  {
    var p := Find(text, after, from);
    if p >= 0 {
      NoneOutside(text, after, lo, hi, p + 1);
    }
  }

  /** `after_outside_landmark`: how often `after` occurs other than wholly inside the first `before`. */
  function AfterOutside(current: string, before: string, after: string): nat
    requires Find(current, before, 0) >= 0
  {
    var start := Find(current, before, 0);
    OutsideFrom(current, after, start, start + |before|, 0)
  }

  method AfterOutsideLandmark(current: string, before: string, after: string) returns (outside: nat)
    requires Find(current, before, 0) >= 0
    ensures outside == AfterOutside(current, before, after)
  {
    var start := Find(current, before, 0);
    outside := CountOutside(current, after, start, start + |before|);
  }

  method CountOutside(current: string, after: string, start: nat, end: nat) returns (outside: nat)
    ensures outside == OutsideFrom(current, after, start, end, 0)
  {
    outside := 0;
    var position := Find(current, after, 0);
    ghost var from := 0;
    while position != -1
      invariant from <= |current| + 1 && position == Find(current, after, from)
      invariant OutsideFrom(current, after, start, end, 0) == outside + OutsideFrom(current, after, start, end, from)
      decreases |current| + 1 - from
    {
      OutsideStep(current, after, start, end, from, position);
      if position < start || position + |after| > end {
        outside := outside + 1;
      }
      from := position + 1;
      position := Find(current, after, position + 1);
    }
    OutsideStep(current, after, start, end, from, position);
  }

  /** Python's `s[a:b]` for non-negative bounds. */
  function Slice<T>(s: seq<T>, a: nat, b: nat): seq<T> {
    var hi := if b <= |s| then b else |s|;
    if a <= hi then s[a..hi] else []
  }

  /** The surroundings a radius gives the block that starts at `selected`. */
  function Prefix(current: string, selected: nat, radius: nat): string
    requires selected <= |current|
  {
    var startLine := Newlines(current[..selected]);
    Join(Slice(SplitLines(current), if radius <= startLine then startLine - radius else 0, startLine))
  }

  function Suffix(current: string, selected: nat, size: nat, radius: nat): string
    requires 0 < size && selected + size <= |current|
  {
    var endLine := Newlines(current[..selected + size - 1]);
    var lines := SplitLines(current);
    Slice(current, selected + size, TotalLength(Slice(lines, 0, endLine + radius + 1)))
  }

  function Widened(current: string, block: Block, selected: nat, radius: nat): Block
    requires 0 < |block.before| && selected + |block.before| <= |current|
  {
    var prefix := Prefix(current, selected, radius);
    var suffix := Suffix(current, selected, |block.before|, radius);
    Block(prefix + block.before + suffix, prefix + block.after + suffix)
  }

  /** The condition both the radius search and the stage loop put on a landmark. */
  predicate Unambiguous(current: string, block: Block) {
    Count(current, block.before) == 1
    && (CountOneMeansOverlapping(current, block.before);
        AfterOutside(current, block.before, block.after) == 0)
  }

  function RadiusLimit(current: string): nat {
    if |SplitLines(current)| > 2 then |SplitLines(current)| else 2
  }

  function ExpandFrom(current: string, block: Block, selected: nat, radius: nat): Result<Block, Reason>
    requires 0 < |block.before| && selected + |block.before| <= |current|
    decreases RadiusLimit(current) - radius
  {
    if radius >= RadiusLimit(current) then Err(CouldNotExpand)
    else
      var widened := Widened(current, block, selected, radius);
      if Unambiguous(current, widened) then Ok(widened) else ExpandFrom(current, block, selected, radius + 1)
  }

  /** What `expand_to_unique_landmark` returns. */
  function Expand(current: string, block: Block, newStart: int): Result<Block, Reason> {
    if block.after == "" then
      if block.before == current then Ok(block) else Err(NotTheCompleteFile)
    else if block.before == "" then
      if current == "" then Ok(block) else Err(NewFileHasSource)
    else
      var selected :- LineOffset(current, newStart);
      if selected !in Offsets(current, block.before) then Err(BlockNotAtItsLine)
      else
        OffsetsAreOccurrences(current, block.before, 0);
        if |Offsets(current, block.before)| == 1 && AfterOutside(current, block.before, block.after) == 0 then Ok(block)
        else ExpandFrom(current, block, selected, 1)
  }

  /** `starts` lists where lines begin, counting only newlines. */
  ghost predicate AreLineStarts(text: string, starts: seq<nat>) {
    && |starts| == Newlines(text) + 1 && starts[0] == 0
    && forall i, o | 0 <= i < |starts| && 0 <= o <= |text| :: starts[i] <= o <==> i <= Newlines(text[..o])
  }

  method LineStarts(current: string) returns (starts: seq<nat>)
    ensures AreLineStarts(current, starts)
  {
    starts := [0];
    for at := 0 to |current|
      invariant |starts| == Newlines(current[..at]) + 1 && starts[0] == 0
      invariant forall i | 0 <= i < |starts| :: starts[i] <= at
      invariant forall i, o | 0 <= i < |starts| && 0 <= o <= at ::
                  starts[i] <= o <==> i <= Newlines(current[..o])
    {
      NewlinesConcat(current[..at], [current[at]]);
      assert current[..at + 1] == current[..at] + [current[at]];
      assert Newlines([current[at]]) == if current[at] == '\n' then 1 else 0;
      if current[at] == '\n' {
        forall o | 0 <= o <= at ensures Newlines(current[..o]) <= Newlines(current[..at]) {
          assert current[..at] == current[..o] + current[o..at];
          NewlinesConcat(current[..o], current[o..at]);
        }
        starts := starts + [at + 1];
      }
    }
    assert current[..|current|] == current;
  }

  /** `max(i for i, offset in enumerate(starts) if offset <= at)`: the line that holds offset `at`. */
  method LineAt(current: string, starts: seq<nat>, at: nat) returns (line: nat)
    requires AreLineStarts(current, starts) && at <= |current|
    ensures line == Newlines(current[..at])
  {
    line := 0;
    for i := 0 to |starts|
      invariant line < |starts| && starts[line] <= at
      invariant forall j | line < j < i :: starts[j] > at
    {
      if starts[i] <= at {
        line := i;
      }
    }
    assert current == current[..at] + current[at..];
    NewlinesConcat(current[..at], current[at..]);
    assert starts[Newlines(current[..at])] <= at;
  }

  method IsUnambiguous(current: string, block: Block) returns (unambiguous: bool)
    ensures unambiguous == Unambiguous(current, block)
  {
    if Count(current, block.before) != 1 {
      return false;
    }
    CountOneMeansOverlapping(current, block.before);
    var outside := AfterOutsideLandmark(current, block.before, block.after);
    return outside == 0;
  }

  /** One round of the radius search: the block with `radius` further lines on either side. */
  method Widen(current: string, lines: seq<string>, block: Block, selected: nat, startLine: nat, endLine: nat,
               radius: nat)
    returns (expanded: Block)
    requires 0 < |block.before| && selected + |block.before| <= |current|
    requires lines == SplitLines(current)
    requires startLine == Newlines(current[..selected])
    requires endLine == Newlines(current[..selected + |block.before| - 1])
    ensures expanded == Widened(current, block, selected, radius)
  {
    var expandedStart := if radius <= startLine then startLine - radius else 0;
    var prefix := Join(Slice(lines, expandedStart, startLine));
    var suffixEnd := TotalLength(Slice(lines, 0, endLine + radius + 1));
    var suffix := Slice(current, selected + |block.before|, suffixEnd);
    ContextIs(current, block, selected, lines, startLine, endLine, radius, prefix, suffix);
    expanded := Block(prefix + block.before + suffix, prefix + block.after + suffix);
  }

  lemma {:induction false} ContextIs(current: string, block: Block, selected: nat, lines: seq<string>, startLine: nat,
                                     endLine: nat, radius: nat, prefix: string, suffix: string)
    requires 0 < |block.before| && selected + |block.before| <= |current| && lines == SplitLines(current)
    requires startLine == Newlines(current[..selected])
    requires endLine == Newlines(current[..selected + |block.before| - 1])
    requires prefix == Join(Slice(lines, if radius <= startLine then startLine - radius else 0, startLine))
    requires suffix == Slice(current, selected + |block.before|, TotalLength(Slice(lines, 0, endLine + radius + 1)))
    ensures Widened(current, block, selected, radius)
         == Block(prefix + block.before + suffix, prefix + block.after + suffix)
  {
  }

  /** One round of the search. */
  lemma {:induction false} SearchStep(current: string, block: Block, selected: nat, radius: nat, widened: Block)
    requires 0 < |block.before| && selected + |block.before| <= |current|
    requires widened == Widened(current, block, selected, radius)
    ensures radius >= RadiusLimit(current) ==> ExpandFrom(current, block, selected, radius) == Err(CouldNotExpand)
    ensures radius < RadiusLimit(current) ==>
              ExpandFrom(current, block, selected, radius)
              == if Unambiguous(current, widened) then Ok(widened) else ExpandFrom(current, block, selected, radius + 1)
  {
  }

  /** The lines that hold the block's first and last character. */
  method EndLines(current: string, selected: nat, size: nat) returns (startLine: nat, endLine: nat)
    requires 0 < size && selected + size <= |current|
    ensures startLine == Newlines(current[..selected]) && endLine == Newlines(current[..selected + size - 1])
  {
    var starts := LineStarts(current);
    startLine := LineAt(current, starts, selected);
    endLine := LineAt(current, starts, selected + size - 1);
  }

  /** The radius search: the first radius at which the widened block is unambiguous. */
  method WidenUntilUnique(current: string, block: Block, selected: nat) returns (r: Result<Block, Reason>)
    requires 0 < |block.before| && selected + |block.before| <= |current|
    ensures r == ExpandFrom(current, block, selected, 1)
  {
    var startLine, endLine := EndLines(current, selected, |block.before|);
    var limit := RadiusLimit(current);
    for radius := 1 to limit
      invariant ExpandFrom(current, block, selected, 1) == ExpandFrom(current, block, selected, radius)
    {
      var expanded := Widen(current, SplitLines(current), block, selected, startLine, endLine, radius);
      var unambiguous := IsUnambiguous(current, expanded);
      SearchStep(current, block, selected, radius, expanded);
      if unambiguous {
        return Ok(expanded);
      }
    }
    SearchStep(current, block, selected, limit, Widened(current, block, selected, limit));
    r := Err(CouldNotExpand);
  }

  method ExpandToUniqueLandmark(current: string, block: Block, newStart: int) returns (r: Result<Block, Reason>)
    ensures r == Expand(current, block, newStart)
  {
    var offsets := OccurrenceOffsets(current, block.before);
    if block.after == "" {
      return if block.before == current then Ok(block) else Err(NotTheCompleteFile);
    }
    if block.before == "" {
      return if current == "" then Ok(block) else Err(NewFileHasSource);
    }
    var offset := LineOffset(current, newStart);
    if offset.Err? {
      return Err(offset.error);
    }
    var selected := offset.value;
    if selected !in offsets {
      return Err(BlockNotAtItsLine);
    }
    OffsetsAreOccurrences(current, block.before, 0);
    if |offsets| == 1 {
      var outside := AfterOutsideLandmark(current, block.before, block.after);
      if outside == 0 {
        return Ok(block);
      }
    }
    r := WidenUntilUnique(current, block, selected);
  }
}
