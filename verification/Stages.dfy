/** The derivation as a change of text (`scripts/derive-chat-template.py` lines 119-127, 286-290): named stages, each
    anchored on a landmark that must appear exactly once, applied in order. */
module Stages {
  import opened Wrappers
  import opened PyText

  datatype Stage = Stage(before: string, after: string)

  /** `apply_stage`: a landmark that does not count once is a refusal, not a no-op. */
  function ApplyStage(text: string, stage: Stage): Result<string, nat> {
    var occurrences := Count(text, stage.before);
    if occurrences != 1 then Err(occurrences) else Ok(ReplaceFirst(text, stage.before, stage.after))
  }

  function Derived(text: string, stages: seq<Stage>): Result<string, nat>
    decreases |stages|
  {
    if stages == [] then Ok(text)
    else
      var next :- ApplyStage(text, stages[0]);
      Derived(next, stages[1..])
  }

  /** `derive` */
  method Derive(source: string, stages: seq<Stage>) returns (r: Result<string, nat>)
    ensures r == Derived(source, stages)
  {
    var text := source;
    assert stages[0..] == stages;
    for i := 0 to |stages|
      invariant Derived(source, stages) == Derived(text, stages[i..])
    {
      assert stages[i..][0] == stages[i] && stages[i..][1..] == stages[i + 1..];
      var next := ApplyStage(text, stages[i]);
      if next.Err? { return next; }
      text := next.value;
    }
    r := Ok(text);
  }

  /** The landmark occurs at one offset only, overlaps counted. */
  predicate Sole(text: string, landmark: string) {
    |OffsetsFrom(text, landmark, 0)| == 1
  }

  lemma {:induction false} SoleCountsOnce(text: string, landmark: string)
    requires landmark != "" && Sole(text, landmark)
    ensures Count(text, landmark) == 1
  {
    OffsetsAreOccurrences(text, landmark, 0);
    var at := OffsetsFrom(text, landmark, 0)[0];
    assert at in OffsetsFrom(text, landmark, 0);
    SoleOffset(text, landmark, at);
    assert CountFrom(text, landmark, 0) == 1 + CountFrom(text, landmark, at + |landmark|);
    assert Find(text, landmark, at + |landmark|) == -1;
    assert CountFrom(text, landmark, at + |landmark|) == 0;
  }

  function Back(stage: Stage): Stage {
    Stage(stage.after, stage.before)
  }

  /** The stages that would undo these, last one first. */
  function Reversed(stages: seq<Stage>): seq<Stage> {
    if stages == [] then [] else Reversed(stages[1..]) + [Back(stages[0])]
  }

  /** The block a stage leaves is counted once, and its first occurrence is the one the stage put there. */
  predicate IsUndoable(text: string, stage: Stage) {
    ApplyStage(text, stage).Ok?
    && Count(ApplyStage(text, stage).value, stage.after) == 1
    && Find(ApplyStage(text, stage).value, stage.after, 0) == Find(text, stage.before, 0)
  }

  /** MAIN: the reverse stage gives the text back if and only if the block is counted once, where the stage put it. */
  lemma {:induction false} StageUndoneExactly(text: string, stage: Stage)
    requires ApplyStage(text, stage).Ok?
    ensures ApplyStage(ApplyStage(text, stage).value, Back(stage)) == Ok(text) <==> IsUndoable(text, stage)
  {
    CountOneMeansOverlapping(text, stage.before);
    var at := Find(text, stage.before, 0);
    var next := ApplyStage(text, stage).value;
    SpliceBack(text, at, stage.before, stage.after);
    if Count(next, stage.after) == 1 {
      CountOneMeansOverlapping(next, stage.after);
      FindIsFirst(next, stage.after, 0, at);
      if ReplaceFirst(next, stage.after, stage.before) == text {
        PutBackAtFirst(text, next, stage, at, Find(next, stage.after, 0));
      }
    }
  }

  /** Putting the old block back in front of its place makes an earlier occurrence of it. */
  lemma {:induction false} PutBackAtFirst(text: string, next: string, stage: Stage, at: nat, first: nat)
    requires at == Find(text, stage.before, 0) && first <= at && OccursAt(next, stage.after, first)
    requires Splice(next, first, |stage.after|, stage.before) == text
    ensures first == at
  {
    Inserted(next, first, |stage.after|, stage.before);
    FindIsFirst(text, stage.before, 0, first);
  }

  lemma {:induction false} Inserted(text: string, at: nat, size: nat, block: string)
    requires at + size <= |text|
    ensures OccursAt(Splice(text, at, size, block), block, at)
  {
    var next := Splice(text, at, size, block);
    assert next[at..at + |block|] == block;
  }

  /** A block at one place only, overlaps counted, is such a block. */
  lemma {:induction false} StageUndone(text: string, stage: Stage)
    requires stage.before != "" && stage.after != "" && ApplyStage(text, stage).Ok?
    requires Sole(ApplyStage(text, stage).value, stage.after)
    ensures IsUndoable(text, stage)
    ensures ApplyStage(ApplyStage(text, stage).value, Back(stage)) == Ok(text)
  {
    StageUndoneExactly(text, stage);
    CountOneMeansOverlapping(text, stage.before);
    var at := Find(text, stage.before, 0);
    var next := ApplyStage(text, stage).value;
    SpliceBack(text, at, stage.before, stage.after);
    SoleOffset(next, stage.after, at);
    SoleCountsOnce(next, stage.after);
  }

  /** Not every accepted stage is: "a" replaced by "b" in "ab" leaves two "b". */
  lemma {:induction false} StageNotUndone() returns (text: string, stage: Stage)
    ensures ApplyStage(text, stage) == Ok("bb")
    ensures ApplyStage("bb", Back(stage)) == Err(2)
  {
    text, stage := "ab", Stage("a", "b");
    CharacterFound(text, "a", 0);
    CharacterAbsent(text, "a", 1);
    assert CountFrom(text, "a", 0) == 1 + CountFrom(text, "a", 1);
    assert Splice(text, 0, 1, "b") == "bb";
    TwoCharacters("bb", "b");
  }

  lemma {:induction false} TwoCharacters(text: string, needle: string)
    requires |text| == 2 && |needle| == 1 && text[0] == text[1] == needle[0]
    ensures Count(text, needle) == 2
  {
    CharacterFound(text, needle, 0);
    CharacterFound(text, needle, 1);
    CharacterAbsent(text, needle, 2);
    assert CountFrom(text, needle, 1) == 1 + CountFrom(text, needle, 2);
  }

  lemma {:induction false} CharacterFound(text: string, needle: string, at: nat)
    requires at < |text| && |needle| == 1 && text[at] == needle[0]
    ensures Find(text, needle, at) == at
  {
    assert text[at..at + 1] == needle;
    FindIsFirst(text, needle, at, at);
  }

  lemma {:induction false} CharacterAbsent(text: string, needle: string, from: nat)
    requires |needle| == 1 && forall i | from <= i < |text| :: text[i] != needle[0]
    ensures Find(text, needle, from) < 0
  {
    forall p: int | from <= p ensures !OccursAt(text, needle, p) {
      if p < |text| {
        assert text[p..p + 1][0] == text[p];
      }
    }
  }

  lemma {:induction false} SpliceBack(text: string, at: nat, before: string, after: string)
    requires OccursAt(text, before, at)
    ensures var next := Splice(text, at, |before|, after);
            OccursAt(next, after, at) && Splice(next, at, |after|, before) == text
  {
    var next := Splice(text, at, |before|, after);
    assert next[at..at + |after|] == after && next[..at] == text[..at] && next[at + |after|..] == text[at + |before|..];
    assert text == text[..at] + text[at..at + |before|] + text[at + |before|..];
  }

  lemma {:induction false} DerivedConcat(text: string, a: seq<Stage>, b: seq<Stage>)
    ensures Derived(text, a + b) == (match Derived(text, a) case Ok(next) => Derived(next, b) case Err(e) => Err(e))
    decreases |a|
  {
    if a == [] {
      assert a + b == b;
    } else {
      assert (a + b)[0] == a[0] && (a + b)[1..] == a[1..] + b;
      if ApplyStage(text, a[0]).Ok? {
        DerivedConcat(ApplyStage(text, a[0]).value, a[1..], b);
      }
    }
  }

  /** Every stage of the derivation can be undone where it was applied. */
  predicate AllUndoable(text: string, stages: seq<Stage>)
    decreases |stages|
  {
    stages == []
    || (IsUndoable(text, stages[0]) && AllUndoable(ApplyStage(text, stages[0]).value, stages[1..]))
  }

  /** MAIN: such stages, undone last one first, give the source back. */
  lemma {:induction false} DerivationUndone(source: string, stages: seq<Stage>)
    requires AllUndoable(source, stages)
    ensures Derived(source, stages).Ok?
    ensures Derived(Derived(source, stages).value, Reversed(stages)) == Ok(source)
    decreases |stages|
  {
    if stages != [] {
      DerivationUndone(ApplyStage(source, stages[0]).value, stages[1..]);
      UndoneFirst(source, stages);
      StageUndoneExactly(source, stages[0]);
    }
  }

  /** Undoing all stages is undoing all but the first, and then that one. */
  lemma {:induction false} UndoneFirst(source: string, stages: seq<Stage>)
    requires stages != [] && Derived(source, stages).Ok?
    ensures Derived(Derived(source, stages).value, Reversed(stages))
         == match Derived(Derived(source, stages).value, Reversed(stages[1..]))
            case Ok(text) => ApplyStage(text, Back(stages[0]))
            case Err(e) => Err(e)
  {
    var final := Derived(source, stages).value;
    DerivedConcat(final, Reversed(stages[1..]), [Back(stages[0])]);
    assert [Back(stages[0])][1..] == [];
  }

  /** Undoing the last stages, one after the other, passes every text of the derivation on its way to the source. */
  predicate RetracesAll(source: string, stages: seq<Stage>)
    requires Derived(source, stages).Ok?
    decreases |stages|
  {
    stages == []
    || (Derived(Derived(source, stages).value, Reversed(stages)) == Ok(source)
        && RetracesAll(ApplyStage(source, stages[0]).value, stages[1..]))
  }

  /** MAIN: undoing a derivation retraces all its texts if and only if each stage left its block counted once, where it
      put it. */
  lemma {:induction false} RetracedExactly(source: string, stages: seq<Stage>)
    requires Derived(source, stages).Ok?
    ensures RetracesAll(source, stages) <==> AllUndoable(source, stages)
    decreases |stages|
  {
    if stages != [] {
      var next := ApplyStage(source, stages[0]).value;
      RetracedExactly(next, stages[1..]);
      UndoneFirst(source, stages);
      StageUndoneExactly(source, stages[0]);
      if RetracesAll(next, stages[1..]) {
        RetracedFirst(next, stages[1..]);
      }
    }
  }

  lemma {:induction false} RetracedFirst(source: string, stages: seq<Stage>)
    requires Derived(source, stages).Ok? && RetracesAll(source, stages)
    ensures Derived(Derived(source, stages).value, Reversed(stages)) == Ok(source)
  {
  }
}
