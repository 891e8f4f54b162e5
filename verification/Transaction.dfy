/** Planning a source transaction: `SourcePatchTransaction.plan` of the framework (lines 690-1040). It
    replays committed landmark edits over a pristine tree and proves each one against its review hunk. */
module Transaction {
  import opened PyText
  import opened Wrappers
  import opened Landmark
  import opened PatchData

  datatype Refusal =
    | BadSource(path: string)
    | IdentityDrift
    | ReviewMismatch
    | NotPristine
    | BeforeDrift(path: string)
    | LandmarkDrift(path: string)
    | HunksOutOfOrder(path: string)
    | NewLineWrong(path: string)
    | OldLineWrong(path: string)
    | ResidualDeletion(path: string)
    | AfterDrift(path: string)
    | FinalMismatch
    | Resurrected

  datatype Outcome = AlreadyApplied(tree: Tree) | Planned(tree: Tree, changed: set<string>)

  function DeletedPaths(patch: Generated): set<string> {
    set f | f in Records(patch.stages) && f.after == None :: f.path
  }

  function AllPaths(patch: Generated): set<string> {
    patch.identity.Keys + patch.finals.Keys + set f | f in Records(patch.stages) :: f.path
  }

  /** `_read_text`: no NUL, no carriage return, newline terminated unless empty. */
  predicate Readable(text: string) {
    text == "" || ('\0' !in text && '\r' !in text && text[|text| - 1] == '\n')
  }

  predicate MayBeAbsent(patch: Generated, path: string) {
    exists f | f in Records(patch.stages) :: f.path == path && (f.before == None || f.after == None)
  }

  /** `_read_state`: every path the patch set names. */
  function ReadState(disk: Tree, patch: Generated): Option<Tree> {
    if forall p | p in AllPaths(patch) :: if p in disk then Readable(disk[p]) else MayBeAbsent(patch, p)
    then Some(Restricted(disk, AllPaths(patch))) else None
  }

  function Restricted(tree: Tree, paths: set<string>): Tree {
    map p | p in tree && p in paths :: tree[p]
  }

  /** `_matches`. */
  predicate Matches(tree: Tree, expected: map<string, Digest>) {
    forall p | p in expected :: p in tree && Sha256(tree[p]) == expected[p]
  }

  /** The stage data and the review diff say the same edits and the same deletions. */
  predicate ReviewAgrees(data: StageData, review: Review) {
    && |data.edits| == |review.hunks|
    && (forall i | 0 <= i < |data.edits| ::
          data.edits[i].path == review.hunks[i].path && data.edits[i].review == review.hunks[i].block)
    && (set p | p in review.deleted) == (set f | f in data.files && f.after == None :: f.path)
  }

  /** `_overall_pristine`: the first identity any stage requires of a path. */
  function FirstBefore(records: seq<FileIdentity>, path: string): Option<Option<Digest>> {
    if records == [] then None
    else if records[0].path == path then Some(records[0].before)
    else FirstBefore(records[1..], path)
  }

  predicate IsPristine(tree: Tree, patch: Generated) {
    forall f | f in Records(patch.stages) :: FirstBefore(Records(patch.stages), f.path) == Some(DigestIn(tree, f.path))
  }

  /** `git_range_start`. */
  function RangeStart(line: int, count: nat): int {
    if count != 0 then line else line - 1
  }

  /** The length of `before.split(review_before, 1)[0]`. */
  function LeadIn(before: string, reviewBefore: string): nat {
    if Find(before, reviewBefore, 0) < 0 then |before| else Find(before, reviewBefore, 0)
  }

  /** The planned tree inside a stage; per file, how far earlier hunks moved later lines, and the line
      behind the last hunk's new block. */
  datatype Progress = Progress(tree: Tree, shift: map<string, int>, end: map<string, int>)

  function Get(m: map<string, int>, path: string, default: int): int {
    if path in m then m[path] else default
  }

  /** Where an edit lands in the text it meets, or None if its landmark is not there just once. */
  function Landing(current: string, edit: Edit): (landed: Option<nat>)
    ensures landed.Some? ==> landed.value <= |current|
  {
    var before := edit.landmark.before;
    if edit.landmark.after == "" then
      if current == before then Some(0) else None
    else if !Unambiguous(current, edit.landmark) then None
    else if edit.review.before == "" then Some(0)
    else
      CountOneMeansOverlapping(current, before);
      Some(Find(current, before, 0) + LeadIn(before, edit.review.before))
  }

  function PlanEdit(at: Progress, edit: Edit, hunk: Hunk): Result<Progress, Refusal> {
    var current := TextIn(at.tree, edit.path);
    match Landing(current, edit)
    case None => Err(LandmarkDrift(edit.path))
    case Some(landed) =>
      var line := Newlines(current[..landed]) + 1;
      if line < Get(at.end, edit.path, 1) then Err(HunksOutOfOrder(edit.path))
      else if hunk.newStart != RangeStart(line, hunk.newCount) then Err(NewLineWrong(edit.path))
      else if hunk.oldStart != RangeStart(line - Get(at.shift, edit.path, 0), hunk.oldCount) then
        Err(OldLineWrong(edit.path))
      else
        var text := if edit.landmark.after == "" then ""
                    else ReplaceFirst(current, edit.landmark.before, edit.landmark.after);
        Ok(Progress(
             at.tree[edit.path := text],
             at.shift[edit.path := Get(at.shift, edit.path, 0) + hunk.newCount - hunk.oldCount],
             at.end[edit.path := line + hunk.newCount]))
  }

  function PlanEdits(at: Progress, edits: seq<Edit>, hunks: seq<Hunk>): Result<Progress, Refusal>
    requires |edits| == |hunks|
    decreases |edits|
  {
    if edits == [] then Ok(at)
    else
      var next :- PlanEdit(at, edits[0], hunks[0]);
      PlanEdits(next, edits[1..], hunks[1..])
  }

  function CheckBefore(tree: Tree, files: seq<FileIdentity>): Result<(), Refusal>
    decreases |files|
  {
    if files == [] then Ok(())
    else if DigestIn(tree, files[0].path) != files[0].before then Err(BeforeDrift(files[0].path))
    else CheckBefore(tree, files[1..])
  }

  /** Closing a stage: deletions must have left nothing, everything else its recorded result. */
  function CheckAfter(tree: Tree, files: seq<FileIdentity>): Result<Tree, Refusal>
    decreases |files|
  {
    if files == [] then Ok(tree)
    else
      var file := files[0];
      if file.after == None then
        if file.path !in tree || tree[file.path] != "" then Err(ResidualDeletion(file.path))
        else CheckAfter(tree - {file.path}, files[1..])
      else if DigestIn(tree, file.path) != file.after then Err(AfterDrift(file.path))
      else CheckAfter(tree, files[1..])
  }

  function PlanStage(tree: Tree, data: StageData, review: Review): Result<Tree, Refusal>
    requires ReviewAgrees(data, review)
  {
    var _ :- CheckBefore(tree, data.files);
    var edited :- PlanEdits(Progress(tree, map[], map[]), data.edits, review.hunks);
    CheckAfter(edited.tree, data.files)
  }

  function PlanStages(tree: Tree, stages: seq<StageData>, reviews: seq<Review>): Result<Tree, Refusal>
    requires |stages| == |reviews|
    requires forall i | 0 <= i < |stages| :: ReviewAgrees(stages[i], reviews[i])
    decreases |stages|
  {
    if stages == [] then Ok(tree)
    else
      var next :- PlanStage(tree, stages[0], reviews[0]);
      PlanStages(next, stages[1..], reviews[1..])
  }

  /** Every edited or deleted path. */
  function Changed(stages: seq<StageData>): set<string> {
    (set s, e | s in stages && e in s.edits :: e.path) + set f | f in Records(stages) && f.after == None :: f.path
  }

  function Plan(disk: Tree, patch: Generated, reviews: seq<Review>): Result<Outcome, Refusal> {
    match ReadState(disk, patch)
    case None => Err(BadSource(""))
    case Some(state) =>
      if !Matches(state, patch.identity) then Err(IdentityDrift)
      else if |reviews| != |patch.stages|
              || exists i | 0 <= i < |patch.stages| :: !ReviewAgrees(patch.stages[i], reviews[i]) then
        Err(ReviewMismatch)
      else if Matches(state, patch.finals) && DeletedPaths(patch) !! state.Keys then Ok(AlreadyApplied(state))
      else if !IsPristine(state, patch) then Err(NotPristine)
      else
        var planned :- PlanStages(state, patch.stages, reviews);
        if !Matches(planned, patch.finals) then Err(FinalMismatch)
        else if !(DeletedPaths(patch) !! planned.Keys) then Err(Resurrected)
        else Ok(Planned(planned, Changed(patch.stages)))
  }
}
