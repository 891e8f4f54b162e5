/** `compile_review_diff.py`'s `main` as it runs: dictionaries updated stage by stage, proved to compute
    `Compiler.Compile`. */
module CompilerMain {
  import opened PyText
  import opened Wrappers
  import opened Landmark
  import opened PatchData
  import opened Compiler

  /** Puts `done` before what is still to come. */
  function Before<T, E>(done: seq<T>, rest: Result<(Files, seq<T>), E>): Result<(Files, seq<T>), E> {
    match rest
    case Ok(r) => Ok((r.0, done + r.1))
    case Err(e) => Err(e)
  }

  lemma {:induction false} BeforeStep<T, E>(done: seq<T>, item: T, rest: Result<(Files, seq<T>), E>)
    ensures Before(done, Before([item], rest)) == Before(done + [item], rest)
  {
    if rest.Ok? {
      assert done + ([item] + rest.value.1) == done + [item] + rest.value.1;
    }
  }

  lemma {:induction false} BeforeNothing<T, E>(rest: Result<(Files, seq<T>), E>)
    ensures Before([], rest) == rest
  {
    if rest.Ok? {
      assert [] + rest.value.1 == rest.value.1;
    }
  }

  method LoadTouched(files: Files, disk: Tree, touched: seq<string>) returns (r: Result<Files, Refusal>)
    ensures r == Load(files, disk, touched)
  {
    var state, present := files.texts, files.present;
    for i := 0 to |touched|
      invariant Load(files, disk, touched) == Load(Files(state, present), disk, touched[i..])
    {
      var relative := touched[i];
      if relative !in state {
        if relative in disk {
          var text := ReadText(disk, relative);
          if text.Err? {
            return Err(text.error);
          }
          present, state := present[relative := true], state[relative := text.value];
        } else {
          present, state := present[relative := false], state[relative := ""];
        }
      }
    }
    return Ok(Files(state, present));
  }

  method RefuseBadDeletions(files: Files, review: Review) returns (r: Result<(), Refusal>)
    ensures r == CheckDeletions(files, review, review.deleted)
  {
    for i := 0 to |review.deleted|
      invariant CheckDeletions(files, review, review.deleted) == CheckDeletions(files, review, review.deleted[i..])
    {
      var relative := review.deleted[i];
      if Identity(files, relative) == None {
        return Err(DeletesNothing(relative));
      }
      if Identity(files, relative) == Some(EmptyFileSha256()) && relative in PathsOf(review.hunks) {
        return Err(EmptyFileNeedsNoHunk(relative));
      }
    }
    return Ok(());
  }

  /** One round of the edit loop: the landmark, its counts, and the refusals. */
  method CompileOne(current: string, hunk: Hunk) returns (r: Result<Edit, Refusal>)
    ensures r == CompileHunk(current, hunk)
  {
    var expanded := ExpandToUniqueLandmark(current, hunk.block, hunk.newStart);
    if expanded.Err? {
      return Err(NoLandmark(hunk.path, expanded.error));
    }
    var landmark := expanded.value;
    var beforeCount := Count(current, landmark.before);
    if landmark.after == "" {
      if landmark.before != current {
        return Err(NoLandmark(hunk.path, NotTheCompleteFile));
      }
      return if beforeCount != 1 then Err(Ambiguous(hunk.path)) else Ok(Edit(hunk.path, landmark, hunk.block));
    }
    if beforeCount != 1 {
      return Err(Ambiguous(hunk.path));
    }
    CountOneMeansOverlapping(current, landmark.before);
    var afterCount := AfterOutsideLandmark(current, landmark.before, landmark.after);
    return if afterCount != 0 then Err(Ambiguous(hunk.path)) else Ok(Edit(hunk.path, landmark, hunk.block));
  }

  lemma {:induction false} HunksFromStep(files: Files, hunks: seq<Hunk>, i: nat)
    requires i < |hunks| && forall h | h in hunks :: h.path in files.texts
    ensures
      var edit := CompileHunk(files.texts[hunks[i].path], hunks[i]);
      CompileHunks(files, hunks[i..]) ==
        if edit.Err? then Err(edit.error)
        else Before([edit.value], CompileHunks(Edited(files, edit.value), hunks[i + 1..]))
  {
    assert hunks[i..][1..] == hunks[i + 1..];
  }

  method CompileEdits(files: Files, hunks: seq<Hunk>) returns (r: Result<(Files, seq<Edit>), Refusal>)
    requires forall h | h in hunks :: h.path in files.texts
    ensures r == CompileHunks(files, hunks)
  {
    var now := files;
    var edits := [];
    BeforeNothing(CompileHunks(files, hunks));
    for i := 0 to |hunks|
      invariant now.texts.Keys == files.texts.Keys
      invariant CompileHunks(files, hunks) == Before(edits, CompileHunks(now, hunks[i..]))
    {
      HunksFromStep(now, hunks, i);
      var edit := CompileOne(now.texts[hunks[i].path], hunks[i]);
      if edit.Err? {
        return Err(edit.error);
      }
      var next := Edited(now, edit.value);
      BeforeStep(edits, edit.value, CompileHunks(next, hunks[i + 1..]));
      now, edits := next, edits + [edit.value];
    }
    assert edits + [] == edits;
    return Ok((now, edits));
  }

  /** Closing one path: the state it leaves, and its record. */
  function ClosedOne(files: Files, before: Files, deleted: seq<string>, path: string)
    : Result<(Files, FileIdentity), Refusal>
    requires path in files.texts
  {
    if path !in deleted then
      Ok((files, FileIdentity(path, Identity(before, path), Some(Sha256(files.texts[path])))))
    else if files.texts[path] != "" then Err(ResidualContent(path))
    else
      Ok((Files(files.texts - {path}, files.present[path := false]), FileIdentity(path, Identity(before, path), None)))
  }

  lemma {:induction false} CloseStep(files: Files, before: Files, deleted: seq<string>, paths: seq<string>)
    requires paths != [] && forall p | p in paths :: p in files.texts
    requires forall i, j | 0 <= i < j < |paths| :: paths[i] != paths[j]
    ensures
      match ClosedOne(files, before, deleted, paths[0])
      case Err(e) => Close(files, before, deleted, paths) == Err(e)
      case Ok(one) =>
        (forall p | p in paths[1..] :: p in one.0.texts)
        && Close(files, before, deleted, paths) == Before([one.1], Close(one.0, before, deleted, paths[1..]))
  {
  }

  method CloseOne(files: Files, before: Files, deleted: seq<string>, relative: string)
    returns (r: Result<(Files, FileIdentity), Refusal>)
    requires relative in files.texts
    ensures r == ClosedOne(files, before, deleted, relative)
  {
    var state, present := files.texts, files.present;
    if relative in deleted {
      if state[relative] != "" {
        return Err(ResidualContent(relative));
      }
      state, present := state - {relative}, present[relative := false];
      return Ok((Files(state, present), FileIdentity(relative, Identity(before, relative), None)));
    }
    r := Ok((files, FileIdentity(relative, Identity(before, relative), Some(Sha256(state[relative])))));
  }

  method CloseStage(files: Files, before: Files, deleted: seq<string>, touched: seq<string>)
    returns (r: Result<(Files, seq<FileIdentity>), Refusal>)
    requires forall p | p in touched :: p in files.texts
    requires forall i, j | 0 <= i < j < |touched| :: touched[i] != touched[j]
    ensures r == Close(files, before, deleted, touched)
  {
    var state := files;
    var records := [];
    BeforeNothing(Close(files, before, deleted, touched));
    for i := 0 to |touched|
      invariant forall p | p in touched[i..] :: p in state.texts
      invariant Close(files, before, deleted, touched) == Before(records, Close(state, before, deleted, touched[i..]))
    {
      CloseStep(state, before, deleted, touched[i..]);
      assert touched[i..][0] == touched[i] && touched[i..][1..] == touched[i + 1..];
      var one := CloseOne(state, before, deleted, touched[i]);
      if one.Err? {
        return Err(one.error);
      }
      BeforeStep(records, one.value.1, Close(one.value.0, before, deleted, touched[i + 1..]));
      state, records := one.value.0, records + [one.value.1];
    }
    assert touched[|touched|..] == [] && records + [] == records;
    return Ok((state, records));
  }

  method RunStage(files: Files, disk: Tree, review: Review) returns (r: Result<(Files, StageData), Refusal>)
    ensures r == CompileStage(files, disk, review)
  {
    var touched := Touched(review);
    var loaded := LoadTouched(files, disk, touched);
    if loaded.Err? {
      return Err(loaded.error);
    }
    LoadHasAll(files, disk, touched);
    var checked := RefuseBadDeletions(loaded.value, review);
    if checked.Err? {
      return Err(checked.error);
    }
    forall h | h in review.hunks ensures h.path in loaded.value.texts {
      assert h.path in PathsOf(review.hunks);
    }
    var edited := CompileEdits(loaded.value, review.hunks);
    if edited.Err? {
      return Err(edited.error);
    }
    var closed := CloseStage(edited.value.0, loaded.value, review.deleted, touched);
    if closed.Err? {
      return Err(closed.error);
    }
    return Ok((closed.value.0, StageData(closed.value.1, edited.value.1)));
  }

  lemma {:induction false} StagesFromStep(files: Files, disk: Tree, reviews: seq<Review>, i: nat)
    requires i < |reviews|
    ensures
      var stage := CompileStage(files, disk, reviews[i]);
      CompileStages(files, disk, reviews[i..]) ==
        if stage.Err? then Err(stage.error)
        else Before([stage.value.1], CompileStages(stage.value.0, disk, reviews[i + 1..]))
  {
    assert reviews[i..][1..] == reviews[i + 1..];
  }

  method RunStages(start: Files, disk: Tree, reviews: seq<Review>)
    returns (r: Result<(Files, seq<StageData>), Refusal>)
    ensures r == CompileStages(start, disk, reviews)
  {
    var files := start;
    var stages := [];
    BeforeNothing(CompileStages(start, disk, reviews));
    for i := 0 to |reviews|
      invariant CompileStages(start, disk, reviews) == Before(stages, CompileStages(files, disk, reviews[i..]))
    {
      StagesFromStep(files, disk, reviews, i);
      var stage := RunStage(files, disk, reviews[i]);
      if stage.Err? {
        return Err(stage.error);
      }
      BeforeStep(stages, stage.value.1, CompileStages(stage.value.0, disk, reviews[i + 1..]));
      files, stages := stage.value.0, stages + [stage.value.1];
    }
    assert stages + [] == stages;
    return Ok((files, stages));
  }

  /** The whole of `main`, between reading its arguments and writing its output. */
  method CompileReviewDiffs(disk: Tree, identity: seq<string>, reviews: seq<Review>)
    returns (r: Result<Generated, Refusal>)
    ensures r == Compile(disk, identity, reviews)
  {
    var files := Files(map[], map[]);
    for i := 0 to |identity|
      invariant LoadIdentity(Files(map[], map[]), disk, identity) == LoadIdentity(files, disk, identity[i..])
    {
      var text := ReadText(disk, identity[i]);
      if text.Err? {
        return Err(text.error);
      }
      files := Files(files.texts[identity[i] := text.value], files.present[identity[i] := true]);
    }
    var run := RunStages(files, disk, reviews);
    if run.Err? {
      return Err(run.error);
    }
    var finals := map p | p in TouchedByAny(reviews) && p in run.value.0.texts :: Sha256(run.value.0.texts[p]);
    return Ok(Generated(map p | p in files.texts :: Sha256(files.texts[p]), run.value.1, finals));
  }
}
