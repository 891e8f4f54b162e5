/** The replay loops of `plan` as they run, proved to compute `Transaction.PlanStages`. */
module PlanRun {
  import opened PyText
  import opened Wrappers
  import opened Landmark
  import opened PatchData
  import opened Transaction

  /** Where the edit lands, or None if its landmark is not there just once. */
  method FindLanding(current: string, edit: Edit) returns (landed: Option<nat>)
    ensures landed == Landing(current, edit)
  {
    if edit.landmark.after == "" {
      return if current == edit.landmark.before then Some(0) else None;
    }
    if Count(current, edit.landmark.before) != 1 {
      return None;
    }
    CountOneMeansOverlapping(current, edit.landmark.before);
    var afterCount := AfterOutsideLandmark(current, edit.landmark.before, edit.landmark.after);
    if afterCount != 0 {
      return None;
    }
    if edit.review.before == "" {
      return Some(0);
    }
    landed := Some(Find(current, edit.landmark.before, 0) + LeadIn(edit.landmark.before, edit.review.before));
  }

  method ReplayEdit(at: Progress, edit: Edit, hunk: Hunk) returns (r: Result<Progress, Refusal>)
    ensures r == PlanEdit(at, edit, hunk)
  {
    var current := TextIn(at.tree, edit.path);
    var landed := FindLanding(current, edit);
    if landed == None {
      return Err(LandmarkDrift(edit.path));
    }
    var line := Newlines(current[..landed.value]) + 1;
    if line < Get(at.end, edit.path, 1) {
      return Err(HunksOutOfOrder(edit.path));
    }
    if hunk.newStart != RangeStart(line, hunk.newCount) {
      return Err(NewLineWrong(edit.path));
    }
    if hunk.oldStart != RangeStart(line - Get(at.shift, edit.path, 0), hunk.oldCount) {
      return Err(OldLineWrong(edit.path));
    }
    var text := if edit.landmark.after == "" then ""
        else ReplaceFirst(current, edit.landmark.before, edit.landmark.after);
    return Ok(Progress(at.tree[edit.path := text],
                       at.shift[edit.path := Get(at.shift, edit.path, 0) + hunk.newCount - hunk.oldCount],
                       at.end[edit.path := line + hunk.newCount]));
  }

  method ReplayEdits(tree: Tree, edits: seq<Edit>, hunks: seq<Hunk>) returns (r: Result<Progress, Refusal>)
    requires |edits| == |hunks|
    ensures r == PlanEdits(Progress(tree, map[], map[]), edits, hunks)
  {
    var planned, shift, end := tree, map[], map[];
    for i := 0 to |edits|
      invariant PlanEdits(Progress(tree, map[], map[]), edits, hunks)
             == PlanEdits(Progress(planned, shift, end), edits[i..], hunks[i..])
    {
      assert edits[i..][1..] == edits[i + 1..] && hunks[i..][1..] == hunks[i + 1..];
      var next := ReplayEdit(Progress(planned, shift, end), edits[i], hunks[i]);
      if next.Err? {
        return Err(next.error);
      }
      planned, shift, end := next.value.tree, next.value.shift, next.value.end;
    }
    return Ok(Progress(planned, shift, end));
  }

  method ReplayStage(tree: Tree, data: StageData, review: Review) returns (r: Result<Tree, Refusal>)
    requires ReviewAgrees(data, review)
    ensures r == PlanStage(tree, data, review)
  {
    for i := 0 to |data.files|
      invariant CheckBefore(tree, data.files) == CheckBefore(tree, data.files[i..])
    {
      if DigestIn(tree, data.files[i].path) != data.files[i].before {
        return Err(BeforeDrift(data.files[i].path));
      }
    }
    var edited := ReplayEdits(tree, data.edits, review.hunks);
    if edited.Err? {
      return Err(edited.error);
    }
    var planned := edited.value.tree;
    for i := 0 to |data.files|
      invariant CheckAfter(edited.value.tree, data.files) == CheckAfter(planned, data.files[i..])
    {
      var file := data.files[i];
      assert data.files[i..][1..] == data.files[i + 1..];
      if file.after == None {
        if file.path !in planned || planned[file.path] != "" {
          return Err(ResidualDeletion(file.path));
        }
        planned := planned - {file.path};
      } else if DigestIn(planned, file.path) != file.after {
        return Err(AfterDrift(file.path));
      }
    }
    return Ok(planned);
  }

  method ReplayStages(tree: Tree, stages: seq<StageData>, reviews: seq<Review>) returns (r: Result<Tree, Refusal>)
    requires |stages| == |reviews|
    requires forall i | 0 <= i < |stages| :: ReviewAgrees(stages[i], reviews[i])
    ensures r == PlanStages(tree, stages, reviews)
  {
    var planned := tree;
    for i := 0 to |stages|
      invariant PlanStages(tree, stages, reviews) == PlanStages(planned, stages[i..], reviews[i..])
    {
      assert stages[i..][1..] == stages[i + 1..] && reviews[i..][1..] == reviews[i + 1..];
      var next := ReplayStage(planned, stages[i], reviews[i]);
      if next.Err? {
        return Err(next.error);
      }
      planned := next.value;
    }
    return Ok(planned);
  }
}
