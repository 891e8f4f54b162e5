/** The stage loop of `compile_review_diff.py` (lines 51-63 and 157-293): reviewed hunks in, landmark
    edits and the identity of every touched file out. */
module Compiler {
  import opened PyText
  import opened Wrappers
  import opened Landmark
  import opened PatchData

  datatype Refusal =
    | Unreadable(path: string)
    | DeletesNothing(path: string)
    | EmptyFileNeedsNoHunk(path: string)
    | NoLandmark(path: string, why: Reason)
    | Ambiguous(path: string)
    | ResidualContent(path: string)

  /** `state` and `exists_state`: the text of every loaded path, and what is known of its existence. */
  datatype Files = Files(texts: map<string, string>, present: map<string, bool>)

  /** `read_text`: an empty file, or newline-terminated text without carriage returns. */
  function ReadText(tree: Tree, path: string): Result<string, Refusal> {
    if path !in tree then Err(Unreadable(path))
    else if tree[path] == "" then Ok("")
    else if '\r' in tree[path] || tree[path][|tree[path]| - 1] != '\n' then Err(Unreadable(path))
    else Ok(tree[path])
  }

  /** The files named as identities are loaded before any stage. */
  function LoadIdentity(files: Files, disk: Tree, paths: seq<string>): Result<Files, Refusal>
    decreases |paths|
  {
    if paths == [] then Ok(files)
    else
      var text :- ReadText(disk, paths[0]);
      LoadIdentity(Files(files.texts[paths[0] := text], files.present[paths[0] := true]), disk, paths[1..])
  }

  /** A touched path that is not loaded is read from the disk -- also when an earlier stage deleted it. */
  function LoadOne(files: Files, disk: Tree, path: string): Result<Files, Refusal> {
    if path in files.texts then Ok(files)
    else if path in disk then
      var text :- ReadText(disk, path);
      Ok(Files(files.texts[path := text], files.present[path := true]))
    else Ok(Files(files.texts[path := ""], files.present[path := false]))
  }

  function Load(files: Files, disk: Tree, paths: seq<string>): Result<Files, Refusal>
    decreases |paths|
  {
    if paths == [] then Ok(files)
    else
      var loaded :- LoadOne(files, disk, paths[0]);
      Load(loaded, disk, paths[1..])
  }

  /** The identity a loaded path has. */
  function Identity(files: Files, path: string): Option<Digest> {
    if path in files.texts && path in files.present && files.present[path] then Some(Sha256(files.texts[path]))
    else None
  }

  /** A deletion needs a file, and a hunk unless that file is empty. */
  function CheckDeletions(files: Files, review: Review, paths: seq<string>): Result<(), Refusal> {
    if paths == [] then Ok(())
    else if Identity(files, paths[0]) == None then Err(DeletesNothing(paths[0]))
    else if Identity(files, paths[0]) == Some(EmptyFileSha256()) && paths[0] in PathsOf(review.hunks) then
      Err(EmptyFileNeedsNoHunk(paths[0]))
    else CheckDeletions(files, review, paths[1..])
  }

  /** One hunk becomes one landmark edit of the text it meets. */
  function CompileHunk(current: string, hunk: Hunk): Result<Edit, Refusal> {
    match Expand(current, hunk.block, hunk.newStart)
    case Err(why) => Err(NoLandmark(hunk.path, why))
    case Ok(landmark) =>
      if landmark.after == "" && landmark.before != current then Err(NoLandmark(hunk.path, NotTheCompleteFile))
      else if Count(current, landmark.before) != 1 then Err(Ambiguous(hunk.path))
      else if landmark.after != "" && !Unambiguous(current, landmark) then Err(Ambiguous(hunk.path))
      else Ok(Edit(hunk.path, landmark, hunk.block))
  }

  function Edited(files: Files, edit: Edit): Files
    requires edit.path in files.texts
  {
    Files(files.texts[edit.path := ReplaceFirst(files.texts[edit.path], edit.landmark.before, edit.landmark.after)],
          files.present[edit.path := true])
  }

  /** A stage's hunks in order, each against the text the earlier ones left. */
  function CompileHunks(files: Files, hunks: seq<Hunk>): (r: Result<(Files, seq<Edit>), Refusal>)
    requires forall h | h in hunks :: h.path in files.texts
    ensures r.Ok? ==> r.value.0.texts.Keys == files.texts.Keys && |r.value.1| == |hunks|
    decreases |hunks|
  {
    if hunks == [] then Ok((files, []))
    else
      var edit :- CompileHunk(files.texts[hunks[0].path], hunks[0]);
      var rest :- CompileHunks(Edited(files, edit), hunks[1..]);
      Ok((rest.0, [edit] + rest.1))
  }

  /** Closing a stage: deleted files must have become empty and are dropped, the others are hashed. */
  function Close(files: Files, before: Files, deleted: seq<string>, paths: seq<string>)
    : Result<(Files, seq<FileIdentity>), Refusal>
    requires forall p | p in paths :: p in files.texts
    requires forall i, j | 0 <= i < j < |paths| :: paths[i] != paths[j]
    decreases |paths|
  {
    if paths == [] then Ok((files, []))
    else
      var path := paths[0];
      if path in deleted then
        if files.texts[path] != "" then Err(ResidualContent(path))
        else
          var rest :- Close(Files(files.texts - {path}, files.present[path := false]), before, deleted, paths[1..]);
          Ok((rest.0, [FileIdentity(path, Identity(before, path), None)] + rest.1))
      else
        var rest :- Close(files, before, deleted, paths[1..]);
        Ok((rest.0, [FileIdentity(path, Identity(before, path), Some(Sha256(files.texts[path])))] + rest.1))
  }

  function CompileStage(files: Files, disk: Tree, review: Review): Result<(Files, StageData), Refusal> {
    var loaded :- Load(files, disk, Touched(review));
    LoadHasAll(files, disk, Touched(review));
    assert forall h | h in review.hunks :: h.path in PathsOf(review.hunks);
    var _ :- CheckDeletions(loaded, review, review.deleted);
    var edited :- CompileHunks(loaded, review.hunks);
    var closed :- Close(edited.0, loaded, review.deleted, Touched(review));
    Ok((closed.0, StageData(closed.1, edited.1)))
  }

  lemma {:induction false} LoadHasAll(files: Files, disk: Tree, paths: seq<string>)
    requires Load(files, disk, paths).Ok?
    ensures files.texts.Keys <= Load(files, disk, paths).value.texts.Keys
    ensures forall p | p in paths :: p in Load(files, disk, paths).value.texts
    decreases |paths|
  {
    if paths != [] {
      LoadHasAll(LoadOne(files, disk, paths[0]).value, disk, paths[1..]);
    }
  }

  function CompileStages(files: Files, disk: Tree, reviews: seq<Review>): (r: Result<(Files, seq<StageData>), Refusal>)
    ensures r.Ok? ==> |r.value.1| == |reviews|
    decreases |reviews|
  {
    if reviews == [] then Ok((files, []))
    else
      var first :- CompileStage(files, disk, reviews[0]);
      var rest :- CompileStages(first.0, disk, reviews[1..]);
      Ok((rest.0, [first.1] + rest.1))
  }

  /** The paths any review touches. */
  function TouchedByAny(reviews: seq<Review>): set<string> {
    set r, p | r in reviews && p in Touched(r) :: p
  }

  /** The whole run: loaded identities, the stages, and the identity of every surviving touched path. */
  function Compile(disk: Tree, identity: seq<string>, reviews: seq<Review>): Result<Generated, Refusal> {
    var start :- LoadIdentity(Files(map[], map[]), disk, identity);
    var run :- CompileStages(start, disk, reviews);
    Ok(Generated(
         map p | p in start.texts :: Sha256(start.texts[p]),
         run.1,
         map p | p in TouchedByAny(reviews) && p in run.0.texts :: Sha256(run.0.texts[p])))
  }
}
