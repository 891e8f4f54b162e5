/** What an accepted plan proves about the compiler's output: every hunk was applied where its header says,
    whatever the compiler's counting let through. */
module PlanProofs {
  import opened PyText
  import opened Wrappers
  import opened Landmark
  import opened Placement
  import opened PatchData
  import C = Compiler
  import opened Positional
  import opened CompilerRuns
  import opened Transaction

  lemma {:induction false} StandsInside(landmark: string, before: string, prefix: string, suffix: string)
    requires landmark == prefix + before + suffix
    ensures OccursAt(landmark, before, |prefix|) && 0 <= Find(landmark, before, 0) <= |prefix|
  {
    assert landmark[|prefix|..|prefix| + |before|] == before;
    FindIsFirst(landmark, before, 0, |prefix|);
  }

  /** An edit never lands behind the place its header names. */
  lemma {:induction false} LandsNoLater(current: string, hunk: Hunk) returns (prefix: string, suffix: string, at: nat)
    requires NewlineOnly(current) && C.CompileHunk(current, hunk).Ok?
    requires hunk.block.before != "" && hunk.block.after != ""
    ensures Some(at) == HeaderOffset(current, hunk.block, hunk.newStart)
    ensures
      var edit := C.CompileHunk(current, hunk).value;
      && Surrounds(edit.landmark, hunk.block, prefix, suffix) && |prefix| <= at
      && OccursAt(current, edit.landmark.before, at - |prefix|) && OccursAt(current, hunk.block.before, at)
      && 0 <= Find(current, edit.landmark.before, 0) <= at - |prefix|
      && LeadIn(edit.landmark.before, hunk.block.before) <= |prefix|
  {
    CompiledLandmark(current, hunk);
    prefix, suffix, at := ExpandStaysInPlace(current, hunk.block, hunk.newStart);
    StandsAround(current, C.CompileHunk(current, hunk).value.landmark, hunk.block, prefix, suffix, at);
  }

  lemma {:induction false} CompiledLandmark(current: string, hunk: Hunk)
    requires C.CompileHunk(current, hunk).Ok?
    ensures Expand(current, hunk.block, hunk.newStart) == Ok(C.CompileHunk(current, hunk).value.landmark)
  {
  }

  lemma {:induction false} StandsAround(current: string, landmark: Block, block: Block, prefix: string,
                                        suffix: string, at: nat)
    requires Surrounds(landmark, block, prefix, suffix) && |prefix| <= at
        && OccursAt(current, landmark.before, at - |prefix|)
    ensures 0 <= Find(current, landmark.before, 0) <= at - |prefix| && LeadIn(landmark.before, block.before) <= |prefix|
  {
    StandsInside(landmark.before, block.before, prefix, suffix);
    FindIsFirst(current, landmark.before, 0, at - |prefix|);
  }

  /** An edit that lands on its hunk's own place is the hunk applied by line. */
  lemma {:induction false} LandedIsPositional(current: string, hunk: Hunk)
    requires NewlineOnly(current) && C.CompileHunk(current, hunk).Ok?
    requires hunk.block.before != "" && hunk.block.after != ""
    requires
      var landmark := C.CompileHunk(current, hunk).value.landmark;
      && Find(current, landmark.before, 0) >= 0
      && Some(Find(current, landmark.before, 0) + LeadIn(landmark.before, hunk.block.before))
         == HeaderOffset(current, hunk.block, hunk.newStart)
    ensures
      var landmark := C.CompileHunk(current, hunk).value.landmark;
      Some(ReplaceFirst(current, landmark.before, landmark.after)) == ApplyAtLine(current, hunk.block, hunk.newStart)
  {
    var landmark := C.CompileHunk(current, hunk).value.landmark;
    var prefix, suffix, at := LandsNoLater(current, hunk);
    LandedSplices(current, landmark, hunk.block, prefix, suffix, at);
  }

  lemma {:induction false} LandedSplices(current: string, landmark: Block, block: Block, prefix: string,
                                         suffix: string, at: nat)
    requires Surrounds(landmark, block, prefix, suffix) && |prefix| <= at
    requires OccursAt(current, landmark.before, at - |prefix|) && OccursAt(current, block.before, at)
    requires 0 <= Find(current, landmark.before, 0) <= at - |prefix|
    requires LeadIn(landmark.before, block.before) <= |prefix|
    requires Find(current, landmark.before, 0) + LeadIn(landmark.before, block.before) == at
    ensures ReplaceFirst(current, landmark.before, landmark.after) == Splice(current, at, |block.before|, block.after)
  {
    assert Find(current, landmark.before, 0) == at - |prefix|;
    SpliceInContext(current, landmark, block, prefix, suffix, at);
  }

  /** MAIN: the header-line check accepts an edit exactly when the leftmost landmark is the one around the
      hunk's own line -- so it refuses every misplacement `str.count` lets through. */
  lemma {:induction false} HeaderLineIsPlacement(current: string, hunk: Hunk) returns (landed: nat)
    requires NewlineOnly(current) && C.CompileHunk(current, hunk).Ok?
    requires hunk.block.before != "" && hunk.block.after != ""
    ensures Landing(current, C.CompileHunk(current, hunk).value) == Some(landed)
    ensures
      var landmark := C.CompileHunk(current, hunk).value.landmark;
      landed == Find(current, landmark.before, 0) + LeadIn(landmark.before, hunk.block.before)
    ensures Newlines(current[..landed]) + 1 == hunk.newStart
       <==> Some(landed) == HeaderOffset(current, hunk.block, hunk.newStart)
  {
    var edit := C.CompileHunk(current, hunk).value;
    var prefix, suffix, at := LandsNoLater(current, hunk);
    landed := LandingOf(current, edit, hunk, prefix, suffix, at);
    OnlyItsOwnLine(current, hunk, at, landed);
  }

  lemma {:induction false} LandingOf(current: string, edit: Edit, hunk: Hunk, prefix: string, suffix: string, at: nat)
    returns (landed: nat)
    requires hunk.block.before != "" && hunk.block.after != "" && edit.review == hunk.block
    requires Surrounds(edit.landmark, hunk.block, prefix, suffix) && Unambiguous(current, edit.landmark)
    requires |prefix| <= at && OccursAt(current, hunk.block.before, at)
    requires 0 <= Find(current, edit.landmark.before, 0) <= at - |prefix|
    requires LeadIn(edit.landmark.before, hunk.block.before) <= |prefix|
    ensures Landing(current, edit) == Some(landed) && landed <= at < |current|
    ensures landed == Find(current, edit.landmark.before, 0) + LeadIn(edit.landmark.before, hunk.block.before)
  {
    landed := Find(current, edit.landmark.before, 0) + LeadIn(edit.landmark.before, hunk.block.before);
  }

  /** Of all the places not behind a header's line start, only that start is on the header's line. */
  lemma {:induction false} OnlyItsOwnLine(current: string, hunk: Hunk, at: nat, landed: nat)
    requires NewlineOnly(current) && hunk.block.before != "" && hunk.block.after != ""
    requires Some(at) == HeaderOffset(current, hunk.block, hunk.newStart)
    requires landed <= at < |current|
    ensures Newlines(current[..landed]) + 1 == hunk.newStart <==> landed == at
  {
    HeaderOffsetStartsLine(current, hunk.block, hunk.newStart);
    if landed < at {
      NewlinesGrowToLineStart(current, landed, at);
    }
  }

  /** What the diff grammar guarantees: a hunk with a new block counts new lines. */
  predicate WellCounted(hunk: Hunk) {
    hunk.block.after != "" ==> hunk.newCount > 0
  }

  lemma {:induction false} PlannedEditIsPositional(at: Progress, current: string, hunk: Hunk)
    requires NewlineOnly(current) && C.CompileHunk(current, hunk).Ok? && WellCounted(hunk)
    requires TextIn(at.tree, hunk.path) == current
    requires PlanEdit(at, C.CompileHunk(current, hunk).value, hunk).Ok?
    ensures
      var edit := C.CompileHunk(current, hunk).value;
      var text := ReplaceFirst(current, edit.landmark.before, edit.landmark.after);
      && ApplyAtLine(current, hunk.block, hunk.newStart) == Some(text)
      && PlanEdit(at, edit, hunk).value.tree == at.tree[hunk.path := text]
  {
    var edit := C.CompileHunk(current, hunk).value;
    if hunk.block.after == "" || hunk.block.before == "" {
      WholeFileHunk(current, hunk);
    } else {
      var landed := HeaderLineIsPlacement(current, hunk);
      LandedIsPositional(current, hunk);
    }
    PlannedText(at, edit, hunk);
  }

  lemma {:induction false} WholeFileHunk(current: string, hunk: Hunk)
    requires C.CompileHunk(current, hunk).Ok? && (hunk.block.after == "" || hunk.block.before == "")
    ensures
      var landmark := C.CompileHunk(current, hunk).value.landmark;
      Some(ReplaceFirst(current, landmark.before, landmark.after)) == ApplyAtLine(current, hunk.block, hunk.newStart)
  {
    CompiledLandmark(current, hunk);
    assert C.CompileHunk(current, hunk).value.landmark == hunk.block && current == hunk.block.before;
    WholeReplaced(current, hunk.block.after);
  }

  lemma {:induction false} WholeReplaced(text: string, after: string)
    ensures OccursAt(text, text, 0)
    ensures Splice(text, 0, |text|, after) == after == ReplaceFirst(text, text, after)
  {
    assert OccursAt(text, text, 0);
    FindIsFirst(text, text, 0, 0);
  }

  /** What an accepted edit puts in the tree. */
  lemma {:induction false} PlannedText(at: Progress, edit: Edit, hunk: Hunk)
    requires PlanEdit(at, edit, hunk).Ok?
    ensures
      var text := ReplaceFirst(TextIn(at.tree, edit.path), edit.landmark.before, edit.landmark.after);
      PlanEdit(at, edit, hunk).value.tree == at.tree[edit.path := text]
  {
    if edit.landmark.after == "" {
      WholeReplaced(TextIn(at.tree, edit.path), "");
    }
  }

  lemma {:induction false} AgreeAfterEdit(tree: Tree, files: C.Files, edit: Edit, paths: seq<string>)
    requires Agree(tree, files, paths) && edit.path in files.texts
    ensures Agree(tree[edit.path := C.Edited(files, edit).texts[edit.path]], C.Edited(files, edit), paths)
  {
  }

  /** An accepted replay of a stage's edits is its hunks applied by line. */
  lemma {:induction false} PlannedEditsArePositional(at: Progress, files: C.Files, hunks: seq<Hunk>, paths: seq<string>)
    requires CleanFiles(files) && CleanHunks(hunks) && Agree(at.tree, files, paths)
    requires forall h | h in hunks :: h.path in files.texts && h.path in paths && WellCounted(h)
    requires C.CompileHunks(files, hunks).Ok?
    requires PlanEdits(at, C.CompileHunks(files, hunks).value.1, hunks).Ok?
    ensures ApplyHunks(at.tree, hunks) == Some(PlanEdits(at, C.CompileHunks(files, hunks).value.1, hunks).value.tree)
    decreases |hunks|
  {
    if hunks != [] {
      var hunk := hunks[0];
      assert hunk in hunks;
      var edit := C.CompileHunk(files.texts[hunk.path], hunk).value;
      var edited := C.Edited(files, edit);
      PlannedEditIsPositional(at, files.texts[hunk.path], hunk);
      var next := PlanEdit(at, edit, hunk).value;
      EditKeepsClean(files, hunk);
      AgreeAfterEdit(at.tree, files, edit, paths);
      PlannedEditsArePositional(next, edited, hunks[1..], paths);
    }
  }

  lemma {:induction false} LoadKeepsClean(files: C.Files, disk: Tree, paths: seq<string>)
    requires CleanFiles(files) && CleanTree(disk) && C.Load(files, disk, paths).Ok?
    ensures CleanFiles(C.Load(files, disk, paths).value)
    decreases |paths|
  {
    if paths != [] {
      LoadKeepsClean(C.LoadOne(files, disk, paths[0]).value, disk, paths[1..]);
    }
  }

  lemma {:induction false} HunksKeepClean(files: C.Files, hunks: seq<Hunk>)
    requires CleanFiles(files) && CleanHunks(hunks)
    requires forall h | h in hunks :: h.path in files.texts
    requires C.CompileHunks(files, hunks).Ok?
    ensures CleanFiles(C.CompileHunks(files, hunks).value.0)
    decreases |hunks|
  {
    if hunks != [] {
      assert hunks[0] in hunks;
      EditKeepsClean(files, hunks[0]);
      HunksKeepClean(C.Edited(files, C.CompileHunk(files.texts[hunks[0].path], hunks[0]).value), hunks[1..]);
    }
  }

  /** Accepted identities pin the planned tree to what the compiler had loaded. */
  lemma {:induction false} BeforesAgree(tree: Tree, files: seq<FileIdentity>)
    requires CheckBefore(tree, files).Ok?
    ensures forall f | f in files :: DigestIn(tree, f.path) == f.before
    decreases |files|
  {
    if files != [] {
      BeforesAgree(tree, files[1..]);
    }
  }

  lemma {:induction false} AftersDrop(tree: Tree, files: seq<FileIdentity>)
    requires CheckAfter(tree, files).Ok?
    ensures CheckAfter(tree, files).value == tree - set f | f in files && f.after == None :: f.path
    ensures forall f | f in files && f.after == None :: f.path in tree && tree[f.path] == ""
    decreases |files|
  {
    if files != [] {
      var next := if files[0].after == None then tree - {files[0].path} else tree;
      AftersDrop(next, files[1..]);
      var rest := set f | f in files[1..] && f.after == None :: f.path;
      assert (set f | f in files && f.after == None :: f.path)
          == (if files[0].after == None then {files[0].path} else {}) + rest;
    }
  }

  /** The tree and the loaded dictionaries agree on every touched path once the identities match. */
  lemma {:induction false} MatchedIdentitiesAgree(tree: Tree, files: C.Files, disk: Tree, review: Review)
    requires CleanFiles(files) && CleanTree(disk) && C.CompileStage(files, disk, review).Ok?
    requires CheckBefore(tree, C.CompileStage(files, disk, review).value.1.files).Ok?
    ensures
      var loaded := C.Load(files, disk, Touched(review)).value;
      CleanFiles(loaded) && Agree(tree, loaded, Touched(review))
  {
    var touched := Touched(review);
    var loaded := C.Load(files, disk, touched).value;
    LoadKeepsClean(files, disk, touched);
    C.LoadHasAll(files, disk, touched);
    TouchedCovers(review);
    var data := C.CompileStage(files, disk, review).value.1;
    CloseRecords(C.CompileHunks(loaded, review.hunks).value.0, loaded, review.deleted, touched);
    RecordedAgree(tree, loaded, data.files, touched);
  }

  lemma {:induction false} RecordedAgree(tree: Tree, loaded: C.Files, files: seq<FileIdentity>, touched: seq<string>)
    requires CleanFiles(loaded) && CheckBefore(tree, files).Ok?
    requires |files| == |touched| && forall p | p in touched :: p in loaded.texts
    requires forall i | 0 <= i < |touched| ::
               files[i].path == touched[i] && files[i].before == C.Identity(loaded, touched[i])
    ensures Agree(tree, loaded, touched)
  {
    BeforesAgree(tree, files);
    forall p | p in touched
      ensures p in loaded.present && TextIn(tree, p) == loaded.texts[p] && (p in tree <==> loaded.present[p])
    {
      var i :| 0 <= i < |touched| && touched[i] == p;
      assert files[i] in files && files[i].path == p;
    }
  }

  /** What a stage's records say is deleted is what its review deletes. */
  lemma {:induction false} RecordedDeletions(files: C.Files, disk: Tree, review: Review)
    requires C.CompileStage(files, disk, review).Ok?
    ensures
      var data := C.CompileStage(files, disk, review).value.1;
      (set f | f in data.files && f.after == None :: f.path) == (set p | p in review.deleted)
  {
    var touched := Touched(review);
    var loaded := C.Load(files, disk, touched).value;
    C.LoadHasAll(files, disk, touched);
    TouchedCovers(review);
    CloseRecords(C.CompileHunks(loaded, review.hunks).value.0, loaded, review.deleted, touched);
    var data := C.CompileStage(files, disk, review).value.1;
    forall p | p in review.deleted ensures exists f :: f in data.files && f.after == None && f.path == p {
      var i :| 0 <= i < |touched| && touched[i] == p;
      assert data.files[i] in data.files;
    }
  }

  /** An accepted stage of an accepted plan is its review applied by line. */
  lemma {:induction false} PlannedStageIsPositional(tree: Tree, files: C.Files, disk: Tree, review: Review)
    requires CleanFiles(files) && CleanTree(disk) && CleanHunks(review.hunks)
    requires forall h | h in review.hunks :: WellCounted(h)
    requires C.CompileStage(files, disk, review).Ok?
    requires ReviewAgrees(C.CompileStage(files, disk, review).value.1, review)
    requires PlanStage(tree, C.CompileStage(files, disk, review).value.1, review).Ok?
    ensures ApplyReview(tree, review)
        == Some(PlanStage(tree, C.CompileStage(files, disk, review).value.1, review).value)
    ensures CleanFiles(C.CompileStage(files, disk, review).value.0)
  {
    var touched := Touched(review);
    var loaded := C.Load(files, disk, touched).value;
    var data := C.CompileStage(files, disk, review).value.1;
    MatchedIdentitiesAgree(tree, files, disk, review);
    TouchedCovers(review);
    C.LoadHasAll(files, disk, touched);
    PlannedEditsArePositional(Progress(tree, map[], map[]), loaded, review.hunks, touched);
    var edited := PlanEdits(Progress(tree, map[], map[]), data.edits, review.hunks).value.tree;
    AftersDrop(edited, data.files);
    RecordedDeletions(files, disk, review);
    DeletionsExist(loaded, review, review.deleted);
    DeletionsAreRecorded(data, review, edited);
    HunksKeepClean(loaded, review.hunks);
    var dropped := C.CompileHunks(loaded, review.hunks).value.0;
    CloseDropsDeleted(dropped, loaded, disk, review.deleted, touched);
  }

  lemma {:induction false} DeletionsAreRecorded(data: StageData, review: Review, edited: Tree)
    requires (set f | f in data.files && f.after == None :: f.path) == (set p | p in review.deleted)
    requires forall f | f in data.files && f.after == None :: f.path in edited && edited[f.path] == ""
    ensures forall p | p in review.deleted :: TextIn(edited, p) == ""
  {
    var recorded := set f | f in data.files && f.after == None :: f.path;
    var reviewed := set p | p in review.deleted;
    forall p | p in review.deleted ensures TextIn(edited, p) == "" {
      assert p in reviewed && p in recorded;
    }
  }

  lemma {:induction false} PlannedStagesArePositional(tree: Tree, files: C.Files, disk: Tree, reviews: seq<Review>)
    requires CleanFiles(files) && CleanTree(disk) && CleanReviews(reviews)
    requires forall r, h | r in reviews && h in r.hunks :: WellCounted(h)
    requires C.CompileStages(files, disk, reviews).Ok?
    requires
      var stages := C.CompileStages(files, disk, reviews).value.1;
      && (forall i | 0 <= i < |stages| :: ReviewAgrees(stages[i], reviews[i]))
      && PlanStages(tree, stages, reviews).Ok?
    ensures ApplyReviews(tree, reviews)
         == Some(PlanStages(tree, C.CompileStages(files, disk, reviews).value.1, reviews).value)
    decreases |reviews|
  {
    if reviews != [] {
      assert reviews[0] in reviews;
      var (after, data) := C.CompileStage(files, disk, reviews[0]).value;
      var stages := C.CompileStages(files, disk, reviews).value.1;
      assert stages == [data] + C.CompileStages(after, disk, reviews[1..]).value.1;
      ReviewsAgreeBehind(stages, reviews);
      PlannedStageIsPositional(tree, files, disk, reviews[0]);
      PlannedStagesArePositional(PlanStage(tree, data, reviews[0]).value, after, disk, reviews[1..]);
    }
  }

  lemma {:induction false} ReviewsAgreeBehind(stages: seq<StageData>, reviews: seq<Review>)
    requires |stages| == |reviews| > 0
    requires forall i | 0 <= i < |stages| :: ReviewAgrees(stages[i], reviews[i])
    ensures ReviewAgrees(stages[0], reviews[0])
    ensures forall i | 0 <= i < |stages[1..]| :: ReviewAgrees(stages[1..][i], reviews[1..][i])
  {
    forall i | 0 <= i < |stages[1..]| ensures ReviewAgrees(stages[1..][i], reviews[1..][i]) {
      assert ReviewAgrees(stages[i + 1], reviews[i + 1]);
    }
  }

  lemma {:induction false} PlannedIsReplayed(disk: Tree, patch: Generated, reviews: seq<Review>)
    requires Plan(disk, patch, reviews).Ok? && Plan(disk, patch, reviews).value.Planned?
    ensures |patch.stages| == |reviews|
    ensures forall i | 0 <= i < |patch.stages| :: ReviewAgrees(patch.stages[i], reviews[i])
    ensures PlanStages(Restricted(disk, AllPaths(patch)), patch.stages, reviews)
        == Ok(Plan(disk, patch, reviews).value.tree)
  {
  }

  /** MAIN: whenever the transaction plans what the compiler generated -- overlapping landmarks, re-read files
      and all -- the planned tree is the reviewed diffs applied line by line to the tree it read. */
  lemma {:induction false} AcceptedPlanIsPositional(disk: Tree, identity: seq<string>, reviews: seq<Review>)
    requires CleanTree(disk) && CleanReviews(reviews)
    requires forall r, h | r in reviews && h in r.hunks :: WellCounted(h)
    requires C.Compile(disk, identity, reviews).Ok?
    requires Plan(disk, C.Compile(disk, identity, reviews).value, reviews).Ok?
    requires Plan(disk, C.Compile(disk, identity, reviews).value, reviews).value.Planned?
    ensures
      var patch := C.Compile(disk, identity, reviews).value;
      ApplyReviews(Restricted(disk, AllPaths(patch)), reviews) == Some(Plan(disk, patch, reviews).value.tree)
  {
    var patch := C.Compile(disk, identity, reviews).value;
    IdentityLoadsTheDisk(C.Files(map[], map[]), disk, identity);
    var start := C.LoadIdentity(C.Files(map[], map[]), disk, identity).value;
    PlannedIsReplayed(disk, patch, reviews);
    PlannedStagesArePositional(Restricted(disk, AllPaths(patch)), start, disk, reviews);
  }

  // ----- identities -----

  /** The planned tree holds, for every path, the identity last recorded for it. */
  ghost predicate Recorded(tree: Tree, history: seq<FileIdentity>, start: Tree) {
    forall p :: DigestIn(tree, p) == LastAfter(history, p, start)
  }

  lemma {:induction false} EditsKeepOthers(at: Progress, edits: seq<Edit>, hunks: seq<Hunk>, path: string)
    requires |edits| == |hunks| && PlanEdits(at, edits, hunks).Ok?
    requires forall e | e in edits :: e.path != path
    ensures DigestIn(PlanEdits(at, edits, hunks).value.tree, path) == DigestIn(at.tree, path)
    decreases |edits|
  {
    if edits != [] {
      assert edits[0] in edits;
      EditsKeepOthers(PlanEdit(at, edits[0], hunks[0]).value, edits[1..], hunks[1..], path);
    }
  }

  /** A stage names each file once and edits only files it names. */
  predicate StageIsKeyed(data: StageData) {
    && (forall i, j | 0 <= i < j < |data.files| :: data.files[i].path != data.files[j].path)
    && (forall e | e in data.edits :: exists f | f in data.files :: f.path == e.path)
  }

  lemma {:induction false} PlannedStageRecords(tree: Tree, data: StageData, review: Review,
                                               history: seq<FileIdentity>, start: Tree)
    requires ReviewAgrees(data, review) && StageIsKeyed(data) && PlanStage(tree, data, review).Ok?
    requires Recorded(tree, history, start)
    ensures Recorded(PlanStage(tree, data, review).value, history + data.files, start)
    ensures forall f | f in data.files :: f.before == LastAfter(history, f.path, start)
  {
    BeforesAgree(tree, data.files);
    forall p ensures DigestIn(PlanStage(tree, data, review).value, p) == LastAfter(history + data.files, p, start) {
      PlannedPathRecords(tree, data, review, p);
      LastAfterConcat(history, data.files, p, start);
    }
  }

  lemma {:induction false} PlannedPathRecords(tree: Tree, data: StageData, review: Review, path: string)
    requires ReviewAgrees(data, review) && StageIsKeyed(data) && PlanStage(tree, data, review).Ok?
    ensures forall i | 0 <= i < |data.files| && data.files[i].path == path ::
              DigestIn(PlanStage(tree, data, review).value, path) == data.files[i].after
    ensures (forall f | f in data.files :: f.path != path) ==>
              DigestIn(PlanStage(tree, data, review).value, path) == DigestIn(tree, path)
  {
    var edited := PlanEdits(Progress(tree, map[], map[]), data.edits, review.hunks).value.tree;
    AfterOf(edited, data.files, path);
    if forall f | f in data.files :: f.path != path {
      EditsKeepOthers(Progress(tree, map[], map[]), data.edits, review.hunks, path);
    }
  }

  lemma {:induction false} AfterOf(tree: Tree, files: seq<FileIdentity>, path: string)
    requires CheckAfter(tree, files).Ok?
    requires forall i, j | 0 <= i < j < |files| :: files[i].path != files[j].path
    ensures forall i | 0 <= i < |files| && files[i].path == path ::
              DigestIn(CheckAfter(tree, files).value, path) == files[i].after
    ensures (forall f | f in files :: f.path != path) ==>
              DigestIn(CheckAfter(tree, files).value, path) == DigestIn(tree, path)
    decreases |files|
  {
    if files != [] {
      var next := if files[0].after == None then tree - {files[0].path} else tree;
      AfterOf(next, files[1..], path);
      assert forall i | 0 <= i < |files[1..]| :: files[1..][i] == files[i + 1];
      if files[0].path == path {
        assert forall f | f in files[1..] :: f.path != path;
      }
    }
  }

  /** MAIN: an accepted plan's identities form one unbroken chain per path from the tree it read. */
  lemma {:induction false} AcceptedPlanChains(tree: Tree, stages: seq<StageData>, reviews: seq<Review>,
                                              history: seq<FileIdentity>, start: Tree, k: nat)
    requires |stages| == |reviews| && k < |stages|
    requires forall i | 0 <= i < |stages| :: ReviewAgrees(stages[i], reviews[i]) && StageIsKeyed(stages[i])
    requires PlanStages(tree, stages, reviews).Ok? && Recorded(tree, history, start)
    ensures forall f | f in stages[k].files ::
              f.before == LastAfter(history + Records(stages[..k]), f.path, start)
    decreases k
  {
    PlannedStageRecords(tree, stages[0], reviews[0], history, start);
    if k == 0 {
      assert history + Records(stages[..0]) == history;
    } else {
      assert forall i | 0 <= i < |stages[1..]| :: stages[1..][i] == stages[i + 1] && reviews[1..][i] == reviews[i + 1];
      AcceptedPlanChains(PlanStage(tree, stages[0], reviews[0]).value, stages[1..], reviews[1..],
                         history + stages[0].files, start, k - 1);
      HistoryStep(history, stages, k);
    }
  }

  /** What the compiler generates is keyed. */
  lemma {:induction false} CompiledStageIsKeyed(files: C.Files, disk: Tree, review: Review)
    requires C.CompileStage(files, disk, review).Ok?
    ensures StageIsKeyed(C.CompileStage(files, disk, review).value.1)
  {
    var touched := Touched(review);
    var loaded := C.Load(files, disk, touched).value;
    C.LoadHasAll(files, disk, touched);
    TouchedCovers(review);
    CloseRecords(C.CompileHunks(loaded, review.hunks).value.0, loaded, review.deleted, touched);
    var data := C.CompileStage(files, disk, review).value.1;
    EditsFollowHunks(loaded, review.hunks);
    forall e | e in data.edits ensures exists f | f in data.files :: f.path == e.path {
      var i :| 0 <= i < |touched| && touched[i] == e.path;
      assert data.files[i] in data.files;
    }
  }

  lemma {:induction false} EditsFollowHunks(files: C.Files, hunks: seq<Hunk>)
    requires forall h | h in hunks :: h.path in files.texts
    requires C.CompileHunks(files, hunks).Ok?
    ensures forall e | e in C.CompileHunks(files, hunks).value.1 :: e.path in PathsOf(hunks)
    decreases |hunks|
  {
    if hunks != [] {
      assert hunks[0] in hunks;
      EditsFollowHunks(C.Edited(files, C.CompileHunk(files.texts[hunks[0].path], hunks[0]).value), hunks[1..]);
    }
  }

  lemma {:induction false} CompiledStagesAreKeyed(files: C.Files, disk: Tree, reviews: seq<Review>)
    requires C.CompileStages(files, disk, reviews).Ok?
    ensures forall data | data in C.CompileStages(files, disk, reviews).value.1 :: StageIsKeyed(data)
    decreases |reviews|
  {
    if reviews != [] {
      var after, data, rest := FirstStage(files, disk, reviews);
      CompiledStageIsKeyed(files, disk, reviews[0]);
      CompiledStagesAreKeyed(after, disk, reviews[1..]);
    }
  }

  /** MAIN: of what the compiler generated, the transaction accepts nothing with a re-read in it: each touched file
      was met as it was last left, so never again after a deletion of what the disk still has. */
  lemma {:induction false} NoRereadIsAccepted(disk: Tree, identity: seq<string>, reviews: seq<Review>, k: nat)
    requires C.Compile(disk, identity, reviews).Ok? && k < |reviews|
    requires Plan(disk, C.Compile(disk, identity, reviews).value, reviews).Ok?
    ensures
      var stages := C.Compile(disk, identity, reviews).value.stages;
      forall f | f in stages[k].files ::
        var last := LastAfter(Records(stages[..k]), f.path, disk);
        f.before == last && !(last == None && f.path in disk)
  {
    var patch := C.Compile(disk, identity, reviews).value;
    var start := C.LoadIdentity(C.Files(map[], map[]), disk, identity).value;
    var history := Records(patch.stages[..k]);
    StartIsSettled(disk, identity);
    IdentitiesChain(start, disk, reviews, [], k);
    assert [] + history == history;
    CompiledStagesAreKeyed(start, disk, reviews);
    forall f | f in patch.stages[k].files
      ensures !(LastAfter(history, f.path, disk) == None && f.path in disk)
    {
      RecordedIn(patch.stages, k, f);
      MetAsLeft(disk, patch, reviews, k, f);
    }
  }

  lemma {:induction false} RecordedIn(stages: seq<StageData>, k: nat, f: FileIdentity)
    requires k < |stages| && f in stages[k].files
    ensures f in Records(stages)
  {
    if k > 0 {
      assert stages[k] == stages[1..][k - 1];
      RecordedIn(stages[1..], k - 1, f);
    }
  }

  lemma {:induction false} RecordedBehind(stages: seq<StageData>, k: nat, f: FileIdentity)
    requires k <= |stages| && f in Records(stages[..k])
    ensures f in Records(stages)
    decreases k
  {
    if k > 0 {
      assert stages[..k][0] == stages[0] && stages[..k][1..] == stages[1..][..k - 1];
      if f !in stages[0].files {
        RecordedBehind(stages[1..], k - 1, f);
      }
    }
  }

  /** What was last left deleted has a record of that. */
  lemma {:induction false} DeletionIsRecorded(history: seq<FileIdentity>, path: string, disk: Tree)
    returns (f: FileIdentity)
    requires LastAfter(history, path, disk) == None && path in disk
    ensures f in history && f.path == path && f.after == None
    decreases |history|
  {
    var n := |history| - 1;
    f := history[n];
    if f.path != path {
      f := DeletionIsRecorded(history[..n], path, disk);
    }
  }

  /** The tree the transaction reads has the same files at every path that is recorded. */
  lemma {:induction false} LastAfterRestricted(history: seq<FileIdentity>, path: string, disk: Tree, paths: set<string>)
    requires path in paths
    ensures LastAfter(history, path, Restricted(disk, paths)) == LastAfter(history, path, disk)
    decreases |history|
  {
    if history != [] {
      LastAfterRestricted(history[..|history| - 1], path, disk, paths);
    }
  }

  lemma {:induction false} DeletedIsGone(disk: Tree, patch: Generated, f: FileIdentity)
    requires f in Records(patch.stages) && f.after == None
        && DeletedPaths(patch) !! Restricted(disk, AllPaths(patch)).Keys
    ensures f.path !in disk
  {
    assert f.path in DeletedPaths(patch) && f.path in AllPaths(patch);
  }

  lemma {:induction false} MetAsLeft(disk: Tree, patch: Generated, reviews: seq<Review>, k: nat, f: FileIdentity)
    requires Plan(disk, patch, reviews).Ok? && k < |patch.stages| && f in patch.stages[k].files
        && f in Records(patch.stages)
    requires forall data | data in patch.stages :: StageIsKeyed(data)
    requires var last := LastAfter(Records(patch.stages[..k]), f.path, disk);
             f.before == last <==> !(last == None && f.path in disk)
    ensures !(LastAfter(Records(patch.stages[..k]), f.path, disk) == None && f.path in disk)
  {
    if Plan(disk, patch, reviews).value.Planned? {
      PlannedIsReplayed(disk, patch, reviews);
      MetInPlan(disk, patch, reviews, k, f);
    } else {
      AppliedHasNone(disk, patch, reviews);
      DeletedBehind(disk, patch, k, f.path);
    }
  }

  lemma {:induction false} MetInPlan(disk: Tree, patch: Generated, reviews: seq<Review>, k: nat, f: FileIdentity)
    requires |patch.stages| == |reviews| && k < |reviews| && f in patch.stages[k].files && f in Records(patch.stages)
    requires forall i | 0 <= i < |reviews| :: ReviewAgrees(patch.stages[i], reviews[i]) && StageIsKeyed(patch.stages[i])
    requires PlanStages(Restricted(disk, AllPaths(patch)), patch.stages, reviews).Ok?
    ensures f.before == LastAfter(Records(patch.stages[..k]), f.path, disk)
  {
    var state, history := Restricted(disk, AllPaths(patch)), Records(patch.stages[..k]);
    AcceptedPlanChains(state, patch.stages, reviews, [], state, k);
    assert [] + history == history && f.path in AllPaths(patch);
    LastAfterRestricted(history, f.path, disk, AllPaths(patch));
  }

  lemma {:induction false} AppliedHasNone(disk: Tree, patch: Generated, reviews: seq<Review>)
    requires Plan(disk, patch, reviews).Ok? && Plan(disk, patch, reviews).value.AlreadyApplied?
    ensures DeletedPaths(patch) !! Restricted(disk, AllPaths(patch)).Keys
  {
  }

  lemma {:induction false} DeletedBehind(disk: Tree, patch: Generated, k: nat, path: string)
    requires k <= |patch.stages| && DeletedPaths(patch) !! Restricted(disk, AllPaths(patch)).Keys
    ensures !(LastAfter(Records(patch.stages[..k]), path, disk) == None && path in disk)
  {
    if LastAfter(Records(patch.stages[..k]), path, disk) == None && path in disk {
      var g := DeletionIsRecorded(Records(patch.stages[..k]), path, disk);
      RecordedBehind(patch.stages, k, g);
      DeletedIsGone(disk, patch, g);
    }
  }
}
