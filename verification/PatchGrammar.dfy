/** What the transaction makes of any patch data that keeps to the grammar of landmark edits (lines 116-159 of the
    framework) and of review diffs, whoever wrote it and whatever tree it was written for. */
module PatchGrammar {
  import opened PyText
  import opened Wrappers
  import opened Landmark
  import opened Placement
  import opened PatchData
  import opened Positional
  import opened Transaction
  import opened PlanProofs

  // ----- the grammar -----

  /** Both blocks stand in the landmark, the old one once, in one and the same context. */
  predicate SharesContext(landmark: Block, review: Block) {
    var b, a := Find(landmark.before, review.before, 0), Find(landmark.after, review.after, 0);
    && b >= 0 && a >= 0
    && (review.before == "" || Count(landmark.before, review.before) == 1)
    && (if review.before == "" then landmark.before == "" && review.after == landmark.after
        else if review.after == "" then landmark.after == "" && review.before == landmark.before
        else
          && landmark.before[..b] == landmark.after[..a]
          && landmark.before[b + |review.before|..] == landmark.after[a + |review.after|..])
  }

  /** `LandmarkEdit.__post_init__` */
  predicate WellFormed(edit: Edit) {
    && edit.landmark.before != edit.landmark.after && edit.review.before != edit.review.after
    && '\r' !in edit.landmark.before && '\r' !in edit.landmark.after
    && SharesContext(edit.landmark, edit.review)
  }

  /** A hunk's blocks are whole lines, and its header counts them. */
  predicate WholeLines(hunk: Hunk) {
    WellCounted(hunk) && (hunk.block.before != "" ==> '\n' in hunk.block.before)
  }

  /** No file is both created and deleted by one stage: a review diff's section says one or the other. */
  predicate CreatesOrDeletes(data: StageData) {
    forall f | f in data.files :: f.before != None || f.after != None
  }

  ghost predicate GrammarKept(data: StageData, review: Review) {
    && CreatesOrDeletes(data)
    && (forall e | e in data.edits :: WellFormed(e) && NewlineOnly(e.landmark.after))
    && (forall h | h in review.hunks :: WholeLines(h))
  }

  // ----- one edit -----

  predicate StartsLine(text: string, o: nat)
    requires o <= |text|
  {
    o == 0 || text[o - 1] == '\n'
  }

  lemma {:induction false} ContextOf(edit: Edit) returns (prefix: string, suffix: string)
    requires WellFormed(edit) && edit.review.before != "" && edit.review.after != ""
    ensures Surrounds(edit.landmark, edit.review, prefix, suffix)
    ensures |prefix| == LeadIn(edit.landmark.before, edit.review.before)
  {
    var b, a := Find(edit.landmark.before, edit.review.before, 0), Find(edit.landmark.after, edit.review.after, 0);
    prefix, suffix := edit.landmark.before[..b], edit.landmark.before[b + |edit.review.before|..];
    Cut(edit.landmark.before, b, edit.review.before);
    Cut(edit.landmark.after, a, edit.review.after);
  }

  lemma {:induction false} Cut(text: string, at: nat, needle: string)
    requires OccursAt(text, needle, at)
    ensures text == text[..at] + needle + text[at + |needle|..]
  {
  }

  /** The line an offset is on, looked up the way the compiler looks it up. */
  lemma {:induction false} LineOf(text: string, o: nat) returns (start: nat)
    requires NewlineOnly(text) && o < |text|
    ensures LineOffset(text, Newlines(text[..o]) + 1) == Ok(start) && start <= o
    ensures Newlines(text[..start]) == Newlines(text[..o]) && StartsLine(text, start)
    ensures start == o <==> StartsLine(text, o)
  {
    var k := Newlines(text[..o]);
    LineHolding(text, o);
    start := TotalLength(SplitLines(text)[..k]);
    NewlinesBeforeLine(text, k);
    if k > 0 {
      LineStartsBehindNewline(text, k);
    } else {
      assert SplitLines(text)[..0] == [];
    }
    if start < o && StartsLine(text, o) {
      NewlinesGrowToLineStart(text, start, o);
    }
  }

  /** Whole lines that stand behind a line's start do not stand at its start as well. */
  lemma {:induction false} OncePerLine(text: string, block: string, start: nat, o: nat)
    requires start < o && OccursAt(text, block, o) && '\n' in block
    requires Newlines(text[..start]) == Newlines(text[..o])
    ensures !OccursAt(text, block, start)
  {
    if OccursAt(text, block, start) {
      var i := FirstNewline(block);
      WithinBlock(text, block, start, i);
      if start + i < o {
        NewlinesGrowPast(text, start, start + i, o);
      } else {
        WithinBlock(text, block, o, start + i - o);
      }
    }
  }

  lemma {:induction false} WithinBlock(text: string, block: string, o: nat, i: nat)
    requires OccursAt(text, block, o) && i < |block|
    ensures text[o + i] == block[i]
  {
    assert text[o + i] == text[o..o + |block|][i];
  }

  lemma {:induction false} FirstNewline(block: string) returns (i: nat)
    requires '\n' in block
    ensures i < |block| && block[i] == '\n' && forall j | 0 <= j < i :: block[j] != '\n'
  {
    i := 0;
    while block[i] != '\n'
      invariant i < |block| && '\n' in block[i..] && forall j | 0 <= j < i :: block[j] != '\n'
      decreases |block| - i
    {
      i := i + 1;
    }
  }

  lemma {:induction false} NewlinesGrowPast(text: string, lo: nat, at: nat, hi: nat)
    requires lo <= at < hi <= |text| && text[at] == '\n'
    ensures Newlines(text[..lo]) < Newlines(text[..hi])
  {
    NewlinesGrowToLineStart(text, lo, at + 1);
    assert text[..hi] == text[..at + 1] + text[at + 1..hi];
    NewlinesConcat(text[..at + 1], text[at + 1..hi]);
  }

  /** What an accepted edit puts in place of the text it meets. */
  function EditedText(current: string, edit: Edit): string {
    if edit.landmark.after == "" then "" else ReplaceFirst(current, edit.landmark.before, edit.landmark.after)
  }

  /** Its effect is that of its review block at the place it lands. */
  lemma {:induction false} LandedEdit(current: string, edit: Edit, landed: nat)
    requires WellFormed(edit) && edit.review.before != "" && edit.review.after != ""
    requires Landing(current, edit) == Some(landed)
    ensures OccursAt(current, edit.review.before, landed) && landed < |current|
    ensures EditedText(current, edit) == Splice(current, landed, |edit.review.before|, edit.review.after)
  {
    var prefix, suffix := ContextOf(edit);
    var at := FoundLandmark(current, edit, landed);
    LandedSplice(current, edit.landmark, edit.review, prefix, suffix, at, landed);
  }

  lemma {:induction false} LandedSplice(current: string, landmark: Block, block: Block, prefix: string, suffix: string,
                                        at: nat, landed: nat)
    requires Surrounds(landmark, block, prefix, suffix) && landed == at + |prefix| && block.before != ""
    requires OccursAt(current, landmark.before, at) && at == Find(current, landmark.before, 0)
    ensures OccursAt(current, block.before, landed) && landed < |current|
    ensures ReplaceFirst(current, landmark.before, landmark.after)
        == Splice(current, landed, |block.before|, block.after)
  {
    InContext(current, landmark, block, prefix, suffix, at);
    SpliceInContext(current, landmark, block, prefix, suffix, landed);
  }

  lemma {:induction false} FoundLandmark(current: string, edit: Edit, landed: nat) returns (at: nat)
    requires WellFormed(edit) && edit.review.before != "" && edit.review.after != ""
    requires Landing(current, edit) == Some(landed)
    ensures edit.landmark.after != "" && OccursAt(current, edit.landmark.before, at)
    ensures at == Find(current, edit.landmark.before, 0)
    ensures landed == at + LeadIn(edit.landmark.before, edit.review.before)
  {
    CountOneMeansOverlapping(current, edit.landmark.before);
    at := Find(current, edit.landmark.before, 0);
  }

  lemma {:induction false} InContext(text: string, landmark: Block, block: Block, prefix: string, suffix: string,
                                     at: nat)
    requires Surrounds(landmark, block, prefix, suffix) && OccursAt(text, landmark.before, at)
    ensures OccursAt(text, block.before, at + |prefix|)
  {
    var window, n := text[at..at + |landmark.before|], |prefix| + |block.before|;
    assert window == prefix + block.before + suffix;
    assert window[|prefix|..n] == block.before;
    SliceOfSlice(text, at, at + |landmark.before|, |prefix|, n);
  }

  lemma {:induction false} SliceOfSlice(text: string, a: nat, b: nat, i: nat, j: nat)
    requires a <= b <= |text| && i <= j <= b - a
    ensures text[a..b][i..j] == text[a + i..a + j]
  {
    forall k | 0 <= k < j - i ensures text[a..b][i..j][k] == text[a + i..a + j][k] {
      assert text[a..b][i..j][k] == text[a..b][i + k] == text[a + i + k];
    }
  }

  lemma {:induction false} InsideEdit(current: string, edit: Edit, line: int, landed: nat)
    requires WellFormed(edit) && edit.review.before != "" && edit.review.after != "" && '\n' in edit.review.before
    requires NewlineOnly(current) && Landing(current, edit) == Some(landed)
    requires line == Newlines(current[..landed]) + 1
    ensures ApplyAtLine(current, edit.review, line)
         == if StartsLine(current, landed) then Some(EditedText(current, edit)) else None
  {
    LandedEdit(current, edit, landed);
    var start := LineOf(current, landed);
    if start < landed {
      OncePerLine(current, edit.review.before, start, landed);
    }
  }

  lemma {:induction false} WholeFileEdit(current: string, edit: Edit, line: int, landed: nat)
    requires WellFormed(edit) && (edit.review.before == "" || edit.review.after == "")
    requires Landing(current, edit) == Some(landed)
    ensures landed == 0
    ensures ApplyAtLine(current, edit.review, line) == Some(EditedText(current, edit))
  {
    assert current == edit.review.before;
    assert OccursAt(current, current, 0);
    assert Splice(current, 0, |current|, edit.review.after) == edit.review.after;
  }

  /** MAIN: an accepted edit is its hunk applied at its header's line if and only if it lands where a line starts.
      The header's line check alone does not see to that. */
  lemma {:induction false} AcceptedEditExactly(at: Progress, edit: Edit, hunk: Hunk)
    requires WellFormed(edit) && WholeLines(hunk) && edit.path == hunk.path && edit.review == hunk.block
    requires NewlineOnly(TextIn(at.tree, edit.path)) && PlanEdit(at, edit, hunk).Ok?
    ensures ApplyHunk(at.tree, hunk)
         == if LandsAtLineStart(at, edit) then Some(PlanEdit(at, edit, hunk).value.tree) else None
  {
    var current := TextIn(at.tree, edit.path);
    var landed := Landing(current, edit).value;
    if edit.review.before == "" || edit.review.after == "" {
      WholeFileEdit(current, edit, hunk.newStart, landed);
    } else {
      InsideEdit(current, edit, hunk.newStart, landed);
    }
  }

  predicate LandsAtLineStart(at: Progress, edit: Edit) {
    var landed := Landing(TextIn(at.tree, edit.path), edit);
    landed.Some? && StartsLine(TextIn(at.tree, edit.path), landed.value)
  }

  /** A landmark the line check lets through although it lands inside line 1: "x\n" before "b\n" in "ax\nb\n". */
  lemma {:induction false} MidLineLanding() returns (at: Progress, edit: Edit, hunk: Hunk)
    ensures WellFormed(edit) && WholeLines(hunk) && edit.path == hunk.path && edit.review == hunk.block
    ensures PlanEdit(at, edit, hunk).Ok? && TextIn(PlanEdit(at, edit, hunk).value.tree, edit.path) == "ay\nb\n"
    ensures ApplyHunk(at.tree, hunk) == None
  {
    var block, text := Block("x\n", "y\n"), "ax\nb\n";
    at := Progress(map["p" := text], map[], map[]);
    edit, hunk := Edit("p", block, block), Hunk("p", block, 1, 1, 1, 1);
    MidLineText(text);
    BareEdit(edit);
    MidLineLands(text, edit);
    InsideEdit(text, edit, 1, 1);
    MidLinePlanned(text, at, edit, hunk);
  }

  lemma {:induction false} MidLinePlanned(text: string, at: Progress, edit: Edit, hunk: Hunk)
    requires at == Progress(map["p" := text], map[], map[]) && edit.path == "p"
    requires Landing(text, edit) == Some(1) && |text| > 0 && Newlines(text[..1]) == 0
    requires hunk.oldStart == hunk.newStart == 1 && hunk.oldCount == hunk.newCount == 1
    ensures PlanEdit(at, edit, hunk).Ok?
    ensures TextIn(PlanEdit(at, edit, hunk).value.tree, "p")
         == ReplaceFirst(text, edit.landmark.before, edit.landmark.after)
  {
    PlannedText(at, edit, hunk);
  }

  /** An edit whose landmark is its review block alone. */
  lemma {:induction false} BareEdit(edit: Edit)
    requires edit.landmark == edit.review && edit.review.before != edit.review.after
    requires edit.review.before != "" && edit.review.after != ""
    requires '\r' !in edit.review.before && '\r' !in edit.review.after
    ensures WellFormed(edit) && LeadIn(edit.landmark.before, edit.review.before) == 0
  {
    WholeCountsOnce(edit.review.before);
    WholeCountsOnce(edit.review.after);
  }

  lemma {:induction false} MidLineLands(text: string, edit: Edit)
    requires text == "ax\nb\n" && edit.landmark == edit.review == Block("x\n", "y\n")
    requires LeadIn(edit.landmark.before, edit.review.before) == 0
    ensures Landing(text, edit) == Some(1) && Newlines(text[..1]) == 0 && !StartsLine(text, 1)
  {
    MidLineText(text);
    assert text[..1] == "a";
    NoNewline(text[..1]);
  }

  lemma {:induction false} MidLineText(text: string)
    requires text == "ax\nb\n"
    ensures NewlineOnly(text) && Find(text, "x\n", 0) == 1 && Count(text, "x\n") == 1
    ensures Unambiguous(text, Block("x\n", "y\n")) && ReplaceFirst(text, "x\n", "y\n") == "ay\nb\n"
  {
    var needle, after := "x\n", "y\n";
    assert OccursAt(text, needle, 1) && forall p: int | p != 1 :: !OccursAt(text, needle, p) by {
      assert text[1..3] == needle;
      forall p: int | p != 1 ensures !OccursAt(text, needle, p) {
        if 0 <= p && p + 2 <= |text| { assert text[p..p + 2][0] == text[p]; }
      }
    }
    FindIsFirst(text, needle, 0, 1);
    assert CountFrom(text, needle, 0) == 1 + CountFrom(text, needle, 3);
    forall p: int ensures !OccursAt(text, after, p) {
      if 0 <= p && p + 2 <= |text| { assert text[p..p + 2][0] == text[p]; }
    }
    NoneOutside(text, after, 1, 3, 0);
  }

  // ----- whole plans -----

  /** Every edit of a stage lands where a line starts, in the text the earlier ones left. */
  ghost predicate EditsStartLines(at: Progress, edits: seq<Edit>, hunks: seq<Hunk>)
    requires |edits| == |hunks|
    decreases |edits|
  {
    edits == [] || (
      && LandsAtLineStart(at, edits[0])
      && PlanEdit(at, edits[0], hunks[0]).Ok?
      && EditsStartLines(PlanEdit(at, edits[0], hunks[0]).value, edits[1..], hunks[1..]))
  }

  lemma {:induction false} EditStaysClean(at: Progress, edit: Edit, hunk: Hunk)
    requires CleanTree(at.tree) && NewlineOnly(edit.landmark.after) && PlanEdit(at, edit, hunk).Ok?
    ensures CleanTree(PlanEdit(at, edit, hunk).value.tree)
  {
    CleanReplacement(TextIn(at.tree, edit.path), edit.landmark);
  }

  lemma {:induction false} AcceptedEditsExactly(at: Progress, edits: seq<Edit>, hunks: seq<Hunk>)
    requires CleanTree(at.tree) && |edits| == |hunks| && PlanEdits(at, edits, hunks).Ok?
    requires forall i | 0 <= i < |edits| :: edits[i].path == hunks[i].path && edits[i].review == hunks[i].block
    requires forall e | e in edits :: WellFormed(e) && NewlineOnly(e.landmark.after)
    requires forall h | h in hunks :: WholeLines(h)
    ensures CleanTree(PlanEdits(at, edits, hunks).value.tree)
    ensures ApplyHunks(at.tree, hunks)
         == if EditsStartLines(at, edits, hunks) then Some(PlanEdits(at, edits, hunks).value.tree) else None
    decreases |edits|
  {
    if edits != [] {
      assert edits[0] in edits && hunks[0] in hunks;
      AcceptedEditExactly(at, edits[0], hunks[0]);
      EditStaysClean(at, edits[0], hunks[0]);
      var next := PlanEdit(at, edits[0], hunks[0]).value;
      forall i | 0 <= i < |edits[1..]|
        ensures edits[1..][i].path == hunks[1..][i].path && edits[1..][i].review == hunks[1..][i].block
      {
        assert edits[i + 1].path == hunks[i + 1].path;
      }
      AcceptedEditsExactly(next, edits[1..], hunks[1..]);
    }
  }

  ghost predicate StageStartsLines(tree: Tree, data: StageData, review: Review)
    requires ReviewAgrees(data, review)
  {
    EditsStartLines(Progress(tree, map[], map[]), data.edits, review.hunks)
  }

  /** What a stage deletes was there before it. */
  lemma {:induction false} DeletedWasThere(tree: Tree, data: StageData, review: Review)
    requires ReviewAgrees(data, review) && CreatesOrDeletes(data) && CheckBefore(tree, data.files).Ok?
    ensures forall p | p in review.deleted :: p in tree
  {
    BeforesAgree(tree, data.files);
    var recorded := set f | f in data.files && f.after == None :: f.path;
    var reviewed := set p | p in review.deleted;
    forall p | p in review.deleted ensures p in tree {
      assert p in reviewed && p in recorded;
    }
  }

  lemma {:induction false} AcceptedStageExactly(tree: Tree, data: StageData, review: Review)
    requires CleanTree(tree) && ReviewAgrees(data, review) && GrammarKept(data, review)
        && PlanStage(tree, data, review).Ok?
    ensures CleanTree(PlanStage(tree, data, review).value)
    ensures ApplyReview(tree, review)
         == if StageStartsLines(tree, data, review) then Some(PlanStage(tree, data, review).value) else None
  {
    var at := Progress(tree, map[], map[]);
    AcceptedEditsExactly(at, data.edits, review.hunks);
    var edited := PlanEdits(at, data.edits, review.hunks).value.tree;
    AftersDrop(edited, data.files);
    DeletionsAreRecorded(data, review, edited);
    DeletedWasThere(tree, data, review);
  }

  ghost predicate StagesStartLines(tree: Tree, stages: seq<StageData>, reviews: seq<Review>)
    requires |stages| == |reviews| && forall i | 0 <= i < |stages| :: ReviewAgrees(stages[i], reviews[i])
    decreases |stages|
  {
    stages == [] || (
      && StageStartsLines(tree, stages[0], reviews[0])
      && PlanStage(tree, stages[0], reviews[0]).Ok?
      && StagesStartLines(PlanStage(tree, stages[0], reviews[0]).value, stages[1..], reviews[1..]))
  }

  lemma {:induction false} AcceptedStagesExactly(tree: Tree, stages: seq<StageData>, reviews: seq<Review>)
    requires |stages| == |reviews|
    requires forall i | 0 <= i < |stages| :: ReviewAgrees(stages[i], reviews[i])
    requires forall i | 0 <= i < |stages| :: GrammarKept(stages[i], reviews[i])
    requires CleanTree(tree) && PlanStages(tree, stages, reviews).Ok?
    ensures ApplyReviews(tree, reviews)
         == if StagesStartLines(tree, stages, reviews) then Some(PlanStages(tree, stages, reviews).value) else None
    decreases |stages|
  {
    if stages != [] {
      AcceptedStageExactly(tree, stages[0], reviews[0]);
      ReviewsAgreeBehind(stages, reviews);
      forall i | 0 <= i < |stages[1..]| ensures GrammarKept(stages[1..][i], reviews[1..][i]) {
        assert GrammarKept(stages[i + 1], reviews[i + 1]);
      }
      AcceptedStagesExactly(PlanStage(tree, stages[0], reviews[0]).value, stages[1..], reviews[1..]);
    }
  }

  /** MAIN: for every patch that keeps to the grammar, an accepted plan is the reviewed diffs applied line by line to
      the tree it read -- if and only if each of its edits lands where a line starts. */
  lemma {:induction false} AnyAcceptedPlanExactly(disk: Tree, patch: Generated, reviews: seq<Review>)
    requires CleanTree(disk) && Plan(disk, patch, reviews).Ok? && Plan(disk, patch, reviews).value.Planned?
    requires forall i | 0 <= i < |patch.stages| && i < |reviews| :: GrammarKept(patch.stages[i], reviews[i])
    ensures |patch.stages| == |reviews|
        && forall i | 0 <= i < |patch.stages| :: ReviewAgrees(patch.stages[i], reviews[i])
    ensures ApplyReviews(Restricted(disk, AllPaths(patch)), reviews) == Some(Plan(disk, patch, reviews).value.tree)
       <==> StagesStartLines(Restricted(disk, AllPaths(patch)), patch.stages, reviews)
  {
    PlannedIsReplayed(disk, patch, reviews);
    AcceptedStagesExactly(Restricted(disk, AllPaths(patch)), patch.stages, reviews);
  }
}
