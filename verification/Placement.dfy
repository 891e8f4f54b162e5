/** Where a landmark edit lands, against the reference meaning of a hunk: its block stands at the line
    its header names, and is replaced there. */
module Placement {
  import opened PyText
  import opened Wrappers
  import opened Landmark

  /** The offset a hunk's header places it at; whole-file hunks have no line to look up. */
  function HeaderOffset(text: string, block: Block, newStart: int): Option<nat> {
    if block.before == "" || block.after == "" then
      if block.before == text then Some(0) else None
    else
      match LineOffset(text, newStart)
      case Ok(offset) => Some(offset)
      case Err(_) => None
  }

  /** Applying a hunk by line number, the way its author meant it. */
  function ApplyAtLine(text: string, block: Block, newStart: int): Option<string> {
    match HeaderOffset(text, block, newStart)
    case None => None
    case Some(at) =>
      if OccursAt(text, block.before, at) then Some(Splice(text, at, |block.before|, block.after)) else None
  }

  /** `landmark` is `block` in a common context. */
  predicate Surrounds(landmark: Block, block: Block, prefix: string, suffix: string) {
    landmark.before == prefix + block.before + suffix && landmark.after == prefix + block.after + suffix
  }

  /** A radius cuts its prefix from the lines right before the block. */
  lemma {:induction false} PrefixInPlace(current: string, line: nat, radius: nat)
    requires NewlineOnly(current) && line <= |SplitLines(current)|
    requires TotalLength(SplitLines(current)[..line]) < |current|
    ensures
      var selected := TotalLength(SplitLines(current)[..line]);
      var prefix := Prefix(current, selected, radius);
      && |prefix| <= selected && prefix == current[selected - |prefix|..selected]
      && (radius >= line ==> |prefix| == selected)
  {
    var lines := SplitLines(current);
    NewlinesBeforeLine(current, line);
    var first := if radius <= line then line - radius else 0;
    LinesSlice(current, first, line);
    assert Slice(lines, first, line) == lines[first..line];
    assert lines[..0] == [];
  }

  /** Where `count` lines end: behind every character of an included line, and never behind the text. */
  lemma {:induction false} LinesEnd(current: string, o: nat, count: nat)
    requires NewlineOnly(current) && o < |current| && count > Newlines(current[..o])
    ensures o < TotalLength(Slice(SplitLines(current), 0, count)) <= |current|
    ensures count >= |SplitLines(current)| ==> TotalLength(Slice(SplitLines(current), 0, count)) == |current|
  {
    var lines := SplitLines(current);
    LineHolding(current, o);
    var stop := if count <= |lines| then count else |lines|;
    assert Slice(lines, 0, count) == lines[..stop];
    LinesSlice(current, Newlines(current[..o]) + 1, stop);
    AllLines(current);
  }

  /** A radius cuts its suffix from the text right behind the block. */
  lemma {:induction false} SuffixInPlace(current: string, selected: nat, size: nat, radius: nat)
    requires NewlineOnly(current) && 0 < size && selected + size <= |current|
    ensures
      var suffix := Suffix(current, selected, size, radius);
      && selected + size + |suffix| <= |current|
      && suffix == current[selected + size..selected + size + |suffix|]
      && (radius + 1 >= |SplitLines(current)| ==> selected + size + |suffix| == |current|)
  {
    LinesEnd(current, selected + size - 1, Newlines(current[..selected + size - 1]) + radius + 1);
  }

  /** A radius cuts its context from the very lines around the block. */
  lemma {:induction false} WidenedIsInPlace(current: string, block: Block, line: nat, selected: nat, radius: nat)
    returns (prefix: string, suffix: string)
    requires NewlineOnly(current) && block.before != ""
    requires line <= |SplitLines(current)| && selected == TotalLength(SplitLines(current)[..line])
    requires OccursAt(current, block.before, selected)
    ensures Widened(current, block, selected, radius)
        == Block(prefix + block.before + suffix, prefix + block.after + suffix)
    ensures |prefix| <= selected && OccursAt(current, prefix + block.before + suffix, selected - |prefix|)
    ensures radius + 1 >= |SplitLines(current)| ==> prefix + block.before + suffix == current
  {
    PrefixInPlace(current, line, radius);
    SuffixInPlace(current, selected, |block.before|, radius);
    LineWithinText(current, line);
    prefix := Prefix(current, selected, radius);
    suffix := Suffix(current, selected, |block.before|, radius);
    ContextFits(current, prefix, block.before, suffix, selected);
  }

  lemma {:induction false} LineWithinText(current: string, line: nat)
    requires NewlineOnly(current) && line <= |SplitLines(current)|
    requires TotalLength(SplitLines(current)[..line]) < |current|
    ensures line < |SplitLines(current)|
  {
    AllLines(current);
  }

  lemma {:induction false} ContextFits(text: string, prefix: string, block: string, suffix: string, at: nat)
    requires OccursAt(text, block, at) && |prefix| <= at && at + |block| + |suffix| <= |text|
    requires prefix == text[at - |prefix|..at]
    requires suffix == text[at + |block|..at + |block| + |suffix|]
    ensures OccursAt(text, prefix + block + suffix, at - |prefix|)
    ensures |prefix| == at && at + |block| + |suffix| == |text| ==> prefix + block + suffix == text
  {
    WindowInThree(text, at - |prefix|, at, at + |block|, at + |block| + |suffix|);
  }

  lemma {:induction false} WindowInThree(text: string, a: nat, b: nat, c: nat, d: nat)
    requires a <= b <= c <= d <= |text|
    ensures text[a..b] + text[b..c] + text[c..d] == text[a..d]
  {
  }

  /** The block's unexpanded self is the empty context. */
  lemma {:induction false} UnexpandedSurrounds(block: Block)
    ensures Surrounds(block, block, "", "")
  {
    assert "" + block.before + "" == block.before && "" + block.after + "" == block.after;
  }

  /** What the radius search finds is the block in its own surroundings, at its own place. */
  lemma {:induction false} SearchStaysInPlace(current: string, block: Block, line: nat, selected: nat, radius: nat)
    returns (prefix: string, suffix: string)
    requires NewlineOnly(current) && block.before != ""
    requires line <= |SplitLines(current)| && selected == TotalLength(SplitLines(current)[..line])
    requires OccursAt(current, block.before, selected) && ExpandFrom(current, block, selected, radius).Ok?
    ensures
      var landmark := ExpandFrom(current, block, selected, radius).value;
      && Surrounds(landmark, block, prefix, suffix) && Unambiguous(current, landmark)
      && |prefix| <= selected && OccursAt(current, landmark.before, selected - |prefix|)
    decreases RadiusLimit(current) - radius
  {
    var widened := Widened(current, block, selected, radius);
    SearchStep(current, block, selected, radius, widened);
    if Unambiguous(current, widened) {
      prefix, suffix := WidenedIsInPlace(current, block, line, selected, radius);
    } else {
      prefix, suffix := SearchStaysInPlace(current, block, line, selected, radius + 1);
    }
  }

  /** The search cannot run out: its last radius takes in the whole file. */
  lemma {:induction false} SearchSucceeds(current: string, block: Block, line: nat, selected: nat, radius: nat)
    requires NewlineOnly(current) && block.before != ""
    requires line <= |SplitLines(current)| && selected == TotalLength(SplitLines(current)[..line])
    requires OccursAt(current, block.before, selected) && radius < RadiusLimit(current)
    ensures ExpandFrom(current, block, selected, radius).Ok?
    decreases RadiusLimit(current) - radius
  {
    var widened := Widened(current, block, selected, radius);
    SearchStep(current, block, selected, radius, widened);
    if radius + 1 < RadiusLimit(current) {
      SearchSucceeds(current, block, line, selected, radius + 1);
    } else {
      var prefix, suffix := WidenedIsInPlace(current, block, line, selected, radius);
      WholeIsUnambiguous(current, widened);
    }
  }

  lemma {:induction false} WholeIsUnambiguous(current: string, block: Block)
    requires block.before == current
    ensures Unambiguous(current, block)
  {
    WholeCountsOnce(current);
    NoneOutside(current, block.after, 0, |current|, 0);
  }

  /** MAIN: expansion accepts a hunk exactly when its block stands where its header places it -- so its
      last `raise` is never reached -- and what it returns is the block in its own surroundings. */
  lemma {:induction false} ExpandAcceptsExactlyAtItsLine(current: string, block: Block, newStart: int)
    requires NewlineOnly(current)
    ensures Expand(current, block, newStart).Ok? <==> ApplyAtLine(current, block, newStart).Some?
    ensures Expand(current, block, newStart) != Err(CouldNotExpand)
  {
    if block.before != "" && block.after != "" && LineOffset(current, newStart).Ok? {
      var selected := LineOffset(current, newStart).value;
      OffsetsAreOccurrences(current, block.before, 0);
      assert selected in Offsets(current, block.before) <==> OccursAt(current, block.before, selected);
      if OccursAt(current, block.before, selected) {
        SearchSucceeds(current, block, newStart - 1, selected, 1);
      }
    } else if block.before == current {
      assert OccursAt(current, block.before, 0);
    }
  }

  /** Everything known about a landmark: its context, its place, and its uniqueness up to overlaps. */
  lemma {:induction false} ExpandStaysInPlace(current: string, block: Block, newStart: int)
    returns (prefix: string, suffix: string, at: nat)
    requires NewlineOnly(current) && Expand(current, block, newStart).Ok?
    ensures Some(at) == HeaderOffset(current, block, newStart)
    ensures Surrounds(Expand(current, block, newStart).value, block, prefix, suffix)
    ensures OccursAt(current, block.before, at) && |prefix| <= at
    ensures OccursAt(current, Expand(current, block, newStart).value.before, at - |prefix|)
    ensures block.before == "" || block.after == "" ==> prefix == ""
  {
    ExpandAcceptsExactlyAtItsLine(current, block, newStart);
    at := HeaderOffset(current, block, newStart).value;
    prefix, suffix := ExpandedInPlace(current, block, newStart, at, Expand(current, block, newStart).value);
  }

  lemma {:induction false} SearchedInPlace(current: string, block: Block, line: nat, at: nat, landmark: Block)
    returns (prefix: string, suffix: string)
    requires NewlineOnly(current) && block.before != "" && OccursAt(current, block.before, at)
    requires line <= |SplitLines(current)| && at == TotalLength(SplitLines(current)[..line])
    requires ExpandFrom(current, block, at, 1) == Ok(landmark)
    ensures Surrounds(landmark, block, prefix, suffix) && |prefix| <= at
    ensures OccursAt(current, landmark.before, at - |prefix|)
  {
    prefix, suffix := SearchStaysInPlace(current, block, line, at, 1);
  }

  lemma {:induction false} ExpandedInPlace(current: string, block: Block, newStart: int, at: nat, landmark: Block)
    returns (prefix: string, suffix: string)
    requires NewlineOnly(current) && Expand(current, block, newStart) == Ok(landmark)
    requires Some(at) == HeaderOffset(current, block, newStart) && OccursAt(current, block.before, at)
    ensures Surrounds(landmark, block, prefix, suffix) && |prefix| <= at
    ensures OccursAt(current, landmark.before, at - |prefix|)
    ensures block.before == "" || block.after == "" ==> prefix == ""
  {
    if block.before != "" && block.after != "" && landmark != block {
      ExpandSearches(current, block, newStart, at);
      prefix, suffix := SearchedInPlace(current, block, newStart - 1, at, landmark);
    } else {
      PlainExpansion(current, block, newStart, landmark);
      UnexpandedSurrounds(block);
      prefix, suffix := "", "";
    }
  }

  lemma {:induction false} PlainExpansion(current: string, block: Block, newStart: int, landmark: Block)
    requires Expand(current, block, newStart) == Ok(landmark)
        && (block.before == "" || block.after == "" || landmark == block)
    ensures landmark == block
  {
  }

  /** A block that does not do as it is is searched for from its header's line. */
  lemma {:induction false} ExpandSearches(current: string, block: Block, newStart: int, at: nat)
    requires block.before != "" && block.after != "" && Some(at) == HeaderOffset(current, block, newStart)
    requires OccursAt(current, block.before, at)
    requires Expand(current, block, newStart).Ok? && Expand(current, block, newStart).value != block
    ensures 0 < newStart <= |SplitLines(current)| + 1 && at == TotalLength(SplitLines(current)[..newStart - 1])
    ensures Expand(current, block, newStart) == ExpandFrom(current, block, at, 1)
  {
  }

  /** A header's line starts the text or stands just behind a newline. */
  lemma {:induction false} HeaderOffsetStartsLine(text: string, block: Block, newStart: int)
    requires NewlineOnly(text) && HeaderOffset(text, block, newStart).Some?
    requires HeaderOffset(text, block, newStart).value < |text|
    ensures
      var at := HeaderOffset(text, block, newStart).value;
      && (at == 0 || text[at - 1] == '\n')
      && (block.before != "" && block.after != "" ==> Newlines(text[..at]) == newStart - 1)
  {
    if block.before != "" && block.after != "" {
      NewlinesBeforeLine(text, newStart - 1);
      if newStart > 1 {
        LineStartsBehindNewline(text, newStart - 1);
      } else {
        assert SplitLines(text)[..0] == [];
      }
    }
  }

  /** Replacing a landmark at its block's place is replacing the block there. */
  lemma {:induction false} SpliceInContext(text: string, landmark: Block, block: Block, prefix: string,
                                           suffix: string, at: nat)
    requires Surrounds(landmark, block, prefix, suffix) && |prefix| <= at
    requires OccursAt(text, landmark.before, at - |prefix|) && OccursAt(text, block.before, at)
    ensures Splice(text, at - |prefix|, |landmark.before|, landmark.after)
        == Splice(text, at, |block.before|, block.after)
  {
    var window := text[at - |prefix|..at - |prefix| + |landmark.before|];
    assert window == landmark.before;
    assert text[at - |prefix|..at] == window[..|prefix|] == prefix;
    assert text[at + |block.before|..at + |block.before| + |suffix|] == window[|prefix| + |block.before|..] == suffix;
    assert text[..at] == text[..at - |prefix|] + prefix;
    assert text[at + |block.before|..] == suffix + text[at - |prefix| + |landmark.before|..];
  }

  /** MAIN: a landmark with one occurrence, overlaps counted, is replaced where its header places the hunk. */
  lemma {:induction false} UniqueLandmarkLandsAtItsLine(current: string, block: Block, newStart: int)
    requires NewlineOnly(current) && Expand(current, block, newStart).Ok?
    requires forall i, j | OccursAt(current, Expand(current, block, newStart).value.before, i)
                           && OccursAt(current, Expand(current, block, newStart).value.before, j) :: i == j
    ensures
      var landmark := Expand(current, block, newStart).value;
      Some(ReplaceFirst(current, landmark.before, landmark.after)) == ApplyAtLine(current, block, newStart)
  {
    var landmark := Expand(current, block, newStart).value;
    var prefix, suffix, at := ExpandStaysInPlace(current, block, newStart);
    UniqueIsFirst(current, landmark.before, at - |prefix|);
    SpliceInContext(current, landmark, block, prefix, suffix, at);
  }

  lemma {:induction false} UniqueIsFirst(text: string, needle: string, at: nat)
    requires OccursAt(text, needle, at)
    requires forall i, j | OccursAt(text, needle, i) && OccursAt(text, needle, j) :: i == j
    ensures Find(text, needle, 0) == at
  {
    FindIsFirst(text, needle, 0, at);
  }

  // ----- the count trap -----

  /** Every line of the text is "x\n". */
  predicate AllX(text: string) {
    |text| % 2 == 0 && forall i | 0 <= i < |text| :: text[i] == if i % 2 == 0 then 'x' else '\n'
  }

  lemma {:induction false} AllXLines(text: string)
    requires AllX(text)
    ensures |SplitLines(text)| == |text| / 2
    ensures forall k | 0 <= k <= |text| / 2 :: TotalLength(SplitLines(text)[..k]) == 2 * k
  {
    var lines := SplitLines(text);
    if text != "" {
      assert !BreaksAfter(text, 0) && BreaksAfter(text, 1);
      assert LineLength(text, 0) == LineLength(text, 1) == 2;
      AllXLines(text[2..]);
      forall k | 0 <= k <= |text| / 2 ensures TotalLength(lines[..k]) == 2 * k {
        if k > 0 {
          assert lines[..k][1..] == SplitLines(text[2..])[..k - 1];
        }
      }
    }
  }

  lemma {:induction false} AllXNewlines(text: string, o: nat)
    requires AllX(text) && o <= |text|
    ensures Newlines(text[..o]) == o / 2
  {
    if o > 0 {
      AllXNewlines(text, o - 1);
      assert text[..o] == text[..o - 1] + [text[o - 1]];
      NewlinesConcat(text[..o - 1], [text[o - 1]]);
      assert Newlines([text[o - 1]]) == if text[o - 1] == '\n' then 1 else 0;
    }
  }

  lemma {:induction false} TwoOffsets(text: string, needle: string, a: nat, b: nat)
    requires needle != "" && a != b && OccursAt(text, needle, a) && OccursAt(text, needle, b)
    ensures |Offsets(text, needle)| != 1
  {
    OffsetsAreOccurrences(text, needle, 0);
    assert a in Offsets(text, needle) && b in Offsets(text, needle);
  }

  /** The trap: in a file of four equal lines the hunk on line 3 grows to three lines, `str.count` sees
      that landmark once although two copies overlap, and the accepted edit changes line 2. */
  lemma {:induction false} CountTrap(text: string)
    requires AllX(text) && |text| == 8
    ensures
      var block := Block("x\n", "y\n");
      && ApplyAtLine(text, block, 3) == Some("x\nx\ny\nx\n")
      && Expand(text, block, 3).Ok?
      && ReplaceFirst(text, Expand(text, block, 3).value.before, Expand(text, block, 3).value.after) == "x\ny\nx\nx\n"
  {
    var block := Block("x\n", "y\n");
    AllXLines(text);
    assert LineOffset(text, 3) == Ok(4) && OccursAt(text, block.before, 4);
    OffsetsAreOccurrences(text, block.before, 0);
    TwoOffsets(text, block.before, 0, 4);
    TrapWidens(text, block);
  }

  lemma {:induction false} TrapWidens(text: string, block: Block)
    requires AllX(text) && |text| == 8 && block == Block("x\n", "y\n")
    ensures ExpandFrom(text, block, 4, 1) == Ok(Block(text[..6], text[..2] + "y\n" + text[6..]))
    ensures Splice(text, 4, 2, "y\n") == "x\nx\ny\nx\n"
    ensures ReplaceFirst(text, text[..6], text[..2] + "y\n" + text[6..]) == "x\ny\nx\nx\n"
  {
    var expanded := Block(text[..6], text[..2] + "y\n" + text[6..]);
    TrapWidened(text, block);
    TrapCounts(text, expanded.before);
    TrapAfter(text, expanded);
    SearchStep(text, block, 4, 1, expanded);
  }

  lemma {:induction false} TrapWidened(text: string, block: Block)
    requires AllX(text) && |text| == 8 && block == Block("x\n", "y\n")
    ensures 1 < RadiusLimit(text) && Widened(text, block, 4, 1) == Block(text[..6], text[..2] + "y\n" + text[6..])
  {
    AllXLines(text);
    AllXNewlines(text, 4);
    AllXNewlines(text, 5);
    var lines := SplitLines(text);
    LinesSlice(text, 1, 2);
    assert Slice(lines, 1, 2) == lines[1..2];
    assert Slice(lines, 0, 4) == lines[..4];
    assert Prefix(text, 4, 1) == text[2..4] == text[..2];
    assert Suffix(text, 4, 2, 1) == text[6..];
    assert text[..2] + "x\n" + text[6..] == text[..6];
  }

  lemma {:induction false} TrapCounts(text: string, before: string)
    requires AllX(text) && |text| == 8 && before == text[..6]
    ensures Count(text, before) == 1 && Find(text, before, 0) == 0
  {
    assert OccursAt(text, before, 0);
    FindIsFirst(text, before, 0, 0);
    assert CountFrom(text, before, 0) == 1 + CountFrom(text, before, 6);
  }

  lemma {:induction false} TrapAfter(text: string, expanded: Block)
    requires AllX(text) && |text| == 8 && expanded == Block(text[..6], text[..2] + "y\n" + text[6..])
    requires Count(text, expanded.before) == 1 && Find(text, expanded.before, 0) == 0
    ensures Unambiguous(text, expanded)
  {
    assert |expanded.after| == 6 && expanded.after[2] == 'y';
    forall p ensures !OccursAt(text, expanded.after, p) {
      if 0 <= p && p + 6 <= |text| {
        assert text[p..p + 6][2] == text[p + 2];
      }
    }
    NoneOutside(text, expanded.after, 0, 6, 0);
  }
}
