/** Whole runs of the patch compiler: what its stages do to the tree, and how their identities chain. */
module CompilerRuns {
  import opened Wrappers
  import opened PatchData
  import opened Compiler
  import opened Positional

  /** What the compiler's dictionaries say a path holds: a loaded file, or the disk if never loaded. */
  function Shown(files: Files, disk: Tree, path: string): Option<string> {
    if path in files.present then
      if files.present[path] && path in files.texts then Some(files.texts[path]) else None
    else Lookup(disk, path)
  }

  function Lookup(tree: Tree, path: string): Option<string> {
    if path in tree then Some(tree[path]) else None
  }

  /** The tree the compiler's dictionaries stand for. */
  function View(files: Files, disk: Tree): (tree: Tree)
    ensures forall p :: Lookup(tree, p) == Shown(files, disk, p)
  {
    map p | p in disk.Keys + files.texts.Keys && Shown(files, disk, p).Some? :: Shown(files, disk, p).value
  }

  lemma {:induction false} SameTree(a: Tree, b: Tree)
    requires forall p :: Lookup(a, p) == Lookup(b, p)
    ensures a == b
  {
    forall p ensures p in a <==> p in b {
      assert Lookup(a, p) == Lookup(b, p);
    }
    forall p | p in a ensures a[p] == b[p] {
      assert Lookup(a, p) == Lookup(b, p);
    }
  }

  /** The one case the compiler reads wrongly: a path it dropped as deleted, which the disk still has. */
  predicate Rereads(files: Files, disk: Tree, path: string) {
    path !in files.texts && path in files.present && path in disk
  }

  lemma {:induction false} LoadOneKeepsView(files: Files, disk: Tree, path: string)
    requires CleanFiles(files) && CleanTree(disk) && LoadOne(files, disk, path).Ok? && !Rereads(files, disk, path)
    ensures View(LoadOne(files, disk, path).value, disk) == View(files, disk)
    ensures CleanFiles(LoadOne(files, disk, path).value)
    ensures forall p | Rereads(LoadOne(files, disk, path).value, disk, p) :: Rereads(files, disk, p)
  {
    var loaded := LoadOne(files, disk, path).value;
    forall p ensures Shown(loaded, disk, p) == Shown(files, disk, p) {}
    SameTree(View(loaded, disk), View(files, disk));
  }

  lemma {:induction false} EditChangesView(files: Files, disk: Tree, edit: Edit)
    requires CleanFiles(files) && edit.path in files.texts
    ensures View(Edited(files, edit), disk) == View(files, disk)[edit.path := Edited(files, edit).texts[edit.path]]
    ensures TextIn(View(files, disk), edit.path) == files.texts[edit.path]
  {
    var text := Edited(files, edit).texts[edit.path];
    var updated := View(files, disk)[edit.path := text];
    forall p ensures Lookup(View(Edited(files, edit), disk), p) == Lookup(updated, p) {
      EditShows(files, disk, edit, p);
      assert Lookup(View(files, disk), p) == Shown(files, disk, p);
    }
    SameTree(View(Edited(files, edit), disk), updated);
    assert Lookup(View(files, disk), edit.path) == Shown(files, disk, edit.path);
  }

  lemma {:induction false} EditShows(files: Files, disk: Tree, edit: Edit, p: string)
    requires edit.path in files.texts
    ensures Shown(Edited(files, edit), disk, p)
         == if p == edit.path then Some(Edited(files, edit).texts[p]) else Shown(files, disk, p)
  {
  }

  function Dropped(files: Files, path: string): Files {
    Files(files.texts - {path}, files.present[path := false])
  }

  lemma {:induction false} DropChangesView(files: Files, disk: Tree, path: string)
    requires CleanFiles(files) && path in files.texts
    ensures View(Dropped(files, path), disk) == View(files, disk) - {path}
    ensures CleanFiles(Dropped(files, path))
  {
    forall p ensures Shown(Dropped(files, path), disk, p) == Lookup(View(files, disk) - {path}, p) {
      assert Lookup(View(files, disk), p) == Shown(files, disk, p);
    }
    SameTree(View(Dropped(files, path), disk), View(files, disk) - {path});
  }

  function DeletedAmong(paths: seq<string>, deleted: seq<string>): set<string> {
    set p | p in paths && p in deleted
  }

  lemma {:induction false} DeletedAmongStep(paths: seq<string>, deleted: seq<string>)
    requires paths != []
    ensures DeletedAmong(paths, deleted)
         == (if paths[0] in deleted then {paths[0]} else {}) + DeletedAmong(paths[1..], deleted)
  {
  }

  lemma {:induction false} LoadKeepsView(files: Files, disk: Tree, paths: seq<string>)
    requires CleanFiles(files) && CleanTree(disk) && Load(files, disk, paths).Ok?
    requires forall p | p in paths :: !Rereads(files, disk, p)
    ensures View(Load(files, disk, paths).value, disk) == View(files, disk)
    ensures CleanFiles(Load(files, disk, paths).value)
    decreases |paths|
  {
    if paths != [] {
      LoadOneKeepsView(files, disk, paths[0]);
      LoadKeepsView(LoadOne(files, disk, paths[0]).value, disk, paths[1..]);
    }
  }

  lemma {:induction false} LandingKeepsView(files: Files, disk: Tree, hunks: seq<Hunk>)
    requires CleanFiles(files) && CleanHunks(hunks) && AllLand(files, hunks)
    requires forall h | h in hunks :: h.path in files.texts
    requires CompileHunks(files, hunks).Ok?
    ensures ApplyHunks(View(files, disk), hunks) == Some(View(CompileHunks(files, hunks).value.0, disk))
    ensures CleanFiles(CompileHunks(files, hunks).value.0)
    decreases |hunks|
  {
    if hunks != [] {
      var hunk := hunks[0];
      assert hunk in hunks;
      var edit := CompileHunk(files.texts[hunk.path], hunk).value;
      EditChangesView(files, disk, edit);
      EditKeepsClean(files, hunk);
      LandingKeepsView(Edited(files, edit), disk, hunks[1..]);
    }
  }

  lemma {:induction false} TreeMinus(tree: Tree, a: set<string>, b: set<string>)
    ensures tree - a - b == tree - (a + b)
  {
  }

  lemma {:induction false} CloseDropsDeleted(files: Files, before: Files, disk: Tree, deleted: seq<string>,
                                             paths: seq<string>)
    requires CleanFiles(files)
    requires forall p | p in paths :: p in files.texts
    requires forall i, j | 0 <= i < j < |paths| :: paths[i] != paths[j]
    requires Close(files, before, deleted, paths).Ok?
    ensures forall p | p in paths && p in deleted :: files.texts[p] == ""
    ensures View(Close(files, before, deleted, paths).value.0, disk)
         == View(files, disk) - DeletedAmong(paths, deleted)
    ensures CleanFiles(Close(files, before, deleted, paths).value.0)
    decreases |paths|
  {
    if paths != [] {
      var path := paths[0];
      DeletedAmongStep(paths, deleted);
      if path in deleted {
        DropChangesView(files, disk, path);
        CloseDropsDeleted(Dropped(files, path), before, disk, deleted, paths[1..]);
        TreeMinus(View(files, disk), {path}, DeletedAmong(paths[1..], deleted));
      } else {
        CloseDropsDeleted(files, before, disk, deleted, paths[1..]);
        assert DeletedAmong(paths, deleted) == DeletedAmong(paths[1..], deleted);
      }
    }
  }

  lemma {:induction false} DeletionsExist(files: Files, review: Review, paths: seq<string>)
    requires CheckDeletions(files, review, paths).Ok?
    ensures forall p | p in paths :: p in files.texts && p in files.present && files.present[p]
    decreases |paths|
  {
    if paths != [] {
      DeletionsExist(files, review, paths[1..]);
    }
  }

  lemma {:induction false} TouchedCovers(review: Review)
    ensures forall h | h in review.hunks :: h.path in Touched(review)
    ensures forall p | p in review.deleted :: p in Touched(review)
    ensures forall p | p in Touched(review) :: p in PathsOf(review.hunks) || p in review.deleted
    ensures forall p | p in PathsOf(review.hunks) :: p in Touched(review)
  {
    forall h | h in review.hunks ensures h.path in Touched(review) {
      var i :| 0 <= i < |review.hunks| && review.hunks[i] == h;
      assert PathsOf(review.hunks)[i] == h.path;
    }
  }

  /** The guard under which one stage is faithful: nothing re-read, every landmark without overlaps. */
  ghost predicate StageIsPlain(files: Files, disk: Tree, review: Review) {
    && (forall p | p in Touched(review) :: !Rereads(files, disk, p))
    && Load(files, disk, Touched(review)).Ok?
    && AllSole(Load(files, disk, Touched(review)).value, review.hunks)
  }

  lemma {:induction false} ReviewApplies(tree: Tree, edited: Tree, review: Review)
    requires ApplyHunks(tree, review.hunks) == Some(edited)
    requires forall p | p in review.deleted :: p in tree && TextIn(edited, p) == ""
    ensures ApplyReview(tree, review) == Some(edited - DeletedAmong(Touched(review), review.deleted))
  {
    TouchedCovers(review);
    assert DeletedAmong(Touched(review), review.deleted) == (set p | p in review.deleted);
  }

  lemma {:induction false} PresentInView(files: Files, disk: Tree, path: string)
    requires path in files.texts && path in files.present && files.present[path]
    ensures path in View(files, disk) && TextIn(View(files, disk), path) == files.texts[path]
  {
    assert Lookup(View(files, disk), path) == Shown(files, disk, path);
  }

  /** The edits of a stage, applied by line to what the compiler had loaded. */
  lemma {:induction false} EditsArePositional(loaded: Files, disk: Tree, review: Review)
    requires CleanFiles(loaded) && CleanHunks(review.hunks)
    requires forall h | h in review.hunks :: h.path in loaded.texts
    requires forall p | p in Touched(review) :: p in loaded.texts
    requires CheckDeletions(loaded, review, review.deleted).Ok? && AllSole(loaded, review.hunks)
    requires CompileHunks(loaded, review.hunks).Ok?
    requires Close(CompileHunks(loaded, review.hunks).value.0, loaded, review.deleted, Touched(review)).Ok?
    ensures
      var edited := CompileHunks(loaded, review.hunks).value.0;
      var closed := Close(edited, loaded, review.deleted, Touched(review)).value.0;
      ApplyReview(View(loaded, disk), review) == Some(View(closed, disk)) && CleanFiles(closed)
  {
    SoleEditsLand(loaded, review.hunks);
    LandingKeepsView(loaded, disk, review.hunks);
    var edited := CompileHunks(loaded, review.hunks).value.0;
    CloseDropsDeleted(edited, loaded, disk, review.deleted, Touched(review));
    DeletionsExist(loaded, review, review.deleted);
    HunksTouchOnlyTheirPaths(loaded, review.hunks);
    TouchedCovers(review);
    forall p | p in review.deleted ensures p in View(loaded, disk) && TextIn(View(edited, disk), p) == "" {
      PresentInView(loaded, disk, p);
      PresentInView(edited, disk, p);
    }
    ReviewApplies(View(loaded, disk), View(edited, disk), review);
  }

  /** One accepted stage does to the tree what its review says, line by line. */
  lemma {:induction false} StageIsPositional(files: Files, disk: Tree, review: Review)
    requires CleanFiles(files) && CleanTree(disk) && CleanHunks(review.hunks)
    requires CompileStage(files, disk, review).Ok? && StageIsPlain(files, disk, review)
    ensures ApplyReview(View(files, disk), review) == Some(View(CompileStage(files, disk, review).value.0, disk))
    ensures CleanFiles(CompileStage(files, disk, review).value.0)
  {
    TouchedCovers(review);
    LoadHasAll(files, disk, Touched(review));
    LoadKeepsView(files, disk, Touched(review));
    EditsArePositional(Load(files, disk, Touched(review)).value, disk, review);
  }

  ghost predicate RunIsPlain(files: Files, disk: Tree, reviews: seq<Review>)
    decreases |reviews|
  {
    reviews == [] ||
    (StageIsPlain(files, disk, reviews[0])
     && (CompileStage(files, disk, reviews[0]).Ok? ==>
           RunIsPlain(CompileStage(files, disk, reviews[0]).value.0, disk, reviews[1..])))
  }

  lemma {:induction false} StagesArePositional(files: Files, disk: Tree, reviews: seq<Review>)
    requires CleanFiles(files) && CleanTree(disk) && CleanReviews(reviews)
    requires CompileStages(files, disk, reviews).Ok? && RunIsPlain(files, disk, reviews)
    ensures ApplyReviews(View(files, disk), reviews) == Some(View(CompileStages(files, disk, reviews).value.0, disk))
    decreases |reviews|
  {
    if reviews != [] {
      assert reviews[0] in reviews;
      StageIsPositional(files, disk, reviews[0]);
      StagesArePositional(CompileStage(files, disk, reviews[0]).value.0, disk, reviews[1..]);
    }
  }

  /** The files named as identities are read as the disk has them. */
  lemma {:induction false} IdentityReads(files: Files, disk: Tree, paths: seq<string>)
    requires LoadIdentity(files, disk, paths).Ok? && files.texts.Keys == files.present.Keys
    requires forall p | p in files.texts :: files.present[p] && p in disk && files.texts[p] == disk[p]
    ensures
      var start := LoadIdentity(files, disk, paths).value;
      && start.texts.Keys == start.present.Keys
      && forall p | p in start.texts :: start.present[p] && p in disk && start.texts[p] == disk[p]
    decreases |paths|
  {
    if paths != [] {
      var text := ReadText(disk, paths[0]).value;
      IdentityReads(Files(files.texts[paths[0] := text], files.present[paths[0] := true]), disk, paths[1..]);
    }
  }

  /** Where a run starts, nothing has been recorded. */
  lemma {:induction false} StartIsSettled(disk: Tree, identity: seq<string>)
    requires LoadIdentity(Files(map[], map[]), disk, identity).Ok?
    ensures Settled(LoadIdentity(Files(map[], map[]), disk, identity).value, disk, [])
  {
    IdentityReads(Files(map[], map[]), disk, identity);
  }

  lemma {:induction false} IdentityLoadsTheDisk(files: Files, disk: Tree, paths: seq<string>)
    requires LoadIdentity(files, disk, paths).Ok? && CleanTree(disk)
    requires files.texts.Keys == files.present.Keys
    requires forall p | p in files.texts :: files.present[p] && p in disk && files.texts[p] == disk[p]
    ensures
      var start := LoadIdentity(files, disk, paths).value;
      && start.texts.Keys == start.present.Keys
      && (forall p | p in start.texts :: start.present[p] && p in disk && start.texts[p] == disk[p])
      && CleanFiles(start) && View(start, disk) == disk
      && start.texts.Keys == files.texts.Keys + set p | p in paths
    decreases |paths|
  {
    if paths != [] {
      var text := ReadText(disk, paths[0]).value;
      IdentityLoadsTheDisk(Files(files.texts[paths[0] := text], files.present[paths[0] := true]), disk, paths[1..]);
    }
  }

  /** MAIN: an accepted run in which no landmark overlaps itself and no deleted path is re-read leaves
      exactly the tree that the reviewed diffs describe line by line. */
  lemma {:induction false} CompiledRunIsPositional(disk: Tree, identity: seq<string>, reviews: seq<Review>)
    requires CleanTree(disk) && CleanReviews(reviews) && Compile(disk, identity, reviews).Ok?
    requires RunIsPlain(LoadIdentity(Files(map[], map[]), disk, identity).value, disk, reviews)
    ensures
      var start := LoadIdentity(Files(map[], map[]), disk, identity).value;
      ApplyReviews(disk, reviews) == Some(View(CompileStages(start, disk, reviews).value.0, disk))
  {
    IdentityLoadsTheDisk(Files(map[], map[]), disk, identity);
    StagesArePositional(LoadIdentity(Files(map[], map[]), disk, identity).value, disk, reviews);
  }

  // ----- the identity chain -----

  /** What the last record of a path says it became, or what it was on the disk. */
  function LastAfter(history: seq<FileIdentity>, path: string, disk: Tree): Option<Digest> {
    if history == [] then DigestIn(disk, path)
    else if history[|history| - 1].path == path then history[|history| - 1].after
    else LastAfter(history[..|history| - 1], path, disk)
  }

  /** What the compiler records as a touched path's identity before a stage. */
  function RecordedBefore(history: seq<FileIdentity>, path: string, disk: Tree): Option<Digest> {
    if LastAfter(history, path, disk) == None then DigestIn(disk, path) else LastAfter(history, path, disk)
  }

  /** Between stages the dictionaries hold each path's last recorded identity. */
  ghost predicate Settled(files: Files, disk: Tree, history: seq<FileIdentity>) {
    && (forall p | p in files.texts :: p in files.present && files.present[p])
    && (forall p | p in files.texts :: LastAfter(history, p, disk) == Some(Sha256(files.texts[p])))
    && (forall p | p !in files.texts :: LastAfter(history, p, disk) == None || Unrecorded(history, p))
  }

  predicate Unrecorded(history: seq<FileIdentity>, path: string) {
    forall f | f in history :: f.path != path
  }

  lemma {:induction false} UnrecordedIsOnDisk(history: seq<FileIdentity>, path: string, disk: Tree)
    requires Unrecorded(history, path)
    ensures LastAfter(history, path, disk) == DigestIn(disk, path)
  {
    LastAfterConcat([], history, path, disk);
    assert [] + history == history;
  }

  lemma {:induction false} LastAfterStep(a: seq<FileIdentity>, b: seq<FileIdentity>, path: string, disk: Tree)
    requires b != []
    ensures LastAfter(a + b, path, disk)
         == if b[|b| - 1].path == path then b[|b| - 1].after else LastAfter(a + b[..|b| - 1], path, disk)
  {
    assert (a + b)[..|a + b| - 1] == a + b[..|b| - 1];
  }

  /** Records of other paths do not matter, ... */
  lemma {:induction false} LastAfterSkips(a: seq<FileIdentity>, b: seq<FileIdentity>, path: string, disk: Tree)
    requires Unrecorded(b, path)
    ensures LastAfter(a + b, path, disk) == LastAfter(a, path, disk)
    decreases |b|
  {
    if b == [] {
      assert a + b == a;
    } else {
      assert b[|b| - 1] in b;
      LastAfterStep(a, b, path, disk);
      LastAfterSkips(a, b[..|b| - 1], path, disk);
    }
  }

  /** ... and the last one of a path does. */
  lemma {:induction false} LastAfterAt(a: seq<FileIdentity>, b: seq<FileIdentity>, path: string, disk: Tree, i: nat)
    requires i < |b| && b[i].path == path && forall j | i < j < |b| :: b[j].path != path
    ensures LastAfter(a + b, path, disk) == b[i].after
    decreases |b|
  {
    LastAfterStep(a, b, path, disk);
    if i < |b| - 1 {
      LastAfterAt(a, b[..|b| - 1], path, disk, i);
    }
  }

  lemma {:induction false} LastAfterConcat(a: seq<FileIdentity>, b: seq<FileIdentity>, path: string, disk: Tree)
    ensures (forall f | f in b :: f.path != path) ==> LastAfter(a + b, path, disk) == LastAfter(a, path, disk)
    ensures forall i | 0 <= i < |b| && b[i].path == path && (forall j | i < j < |b| :: b[j].path != path) ::
              LastAfter(a + b, path, disk) == b[i].after
  {
    if Unrecorded(b, path) {
      LastAfterSkips(a, b, path, disk);
    }
    forall i | 0 <= i < |b| && b[i].path == path && (forall j | i < j < |b| :: b[j].path != path)
      ensures LastAfter(a + b, path, disk) == b[i].after
    {
      LastAfterAt(a, b, path, disk, i);
    }
  }

  lemma {:induction false} LoadIdentifies(files: Files, disk: Tree, paths: seq<string>)
    requires Load(files, disk, paths).Ok?
    requires forall p | p in files.texts :: p in files.present
    ensures
      var loaded := Load(files, disk, paths).value;
      && (forall p | p in loaded.texts :: p in loaded.present)
      && (forall p | p in files.texts ::
                p in loaded.texts && loaded.texts[p] == files.texts[p] && loaded.present[p] == files.present[p])
      && (forall p | p in paths && p !in files.texts :: Identity(loaded, p) == DigestIn(disk, p))
      && (forall p | p in loaded.texts :: p in files.texts || p in paths)
    decreases |paths|
  {
    if paths != [] {
      LoadIdentifies(LoadOne(files, disk, paths[0]).value, disk, paths[1..]);
    }
  }

  lemma {:induction false} HunksTouchOnlyTheirPaths(files: Files, hunks: seq<Hunk>)
    requires forall h | h in hunks :: h.path in files.texts
    requires CompileHunks(files, hunks).Ok?
    requires forall p | p in files.texts :: p in files.present
    ensures
      var edited := CompileHunks(files, hunks).value.0;
      && (forall p | p in files.texts :: p in edited.present)
      && (forall p | p in PathsOf(hunks) :: edited.present[p])
      && (forall p | p in files.texts && p !in PathsOf(hunks) ::
            edited.texts[p] == files.texts[p] && edited.present[p] == files.present[p])
      && (forall p | p in files.present && p !in files.texts ::
                p in edited.present && edited.present[p] == files.present[p])
      && (forall p | p in files.texts && files.present[p] :: edited.present[p])
    decreases |hunks|
  {
    if hunks != [] {
      assert hunks[0] in hunks;
      var edited := Edited(files, CompileHunk(files.texts[hunks[0].path], hunks[0]).value);
      HunksTouchOnlyTheirPaths(edited, hunks[1..]);
      assert PathsOf(hunks) == [hunks[0].path] + PathsOf(hunks[1..]);
    }
  }

  lemma {:induction false} CloseRecords(files: Files, before: Files, deleted: seq<string>, paths: seq<string>)
    requires forall p | p in paths :: p in files.texts
    requires forall i, j | 0 <= i < j < |paths| :: paths[i] != paths[j]
    requires Close(files, before, deleted, paths).Ok?
    ensures
      var (after, records) := Close(files, before, deleted, paths).value;
      && |records| == |paths|
      && (forall i | 0 <= i < |paths| ::
            && records[i].path == paths[i] && records[i].before == Identity(before, paths[i])
            && records[i].after == if paths[i] in deleted then None else Some(Sha256(files.texts[paths[i]])))
      && (forall p | p in files.texts && !(p in paths && p in deleted) ::
            p in after.texts && after.texts[p] == files.texts[p]
            && (p in files.present ==> p in after.present && after.present[p] == files.present[p]))
      && after.texts.Keys == files.texts.Keys - DeletedAmong(paths, deleted)
  {
    CloseLists(files, before, deleted, paths);
    CloseKeeps(files, before, deleted, paths);
  }

  lemma {:induction false} CloseLists(files: Files, before: Files, deleted: seq<string>, paths: seq<string>)
    requires forall p | p in paths :: p in files.texts
    requires forall i, j | 0 <= i < j < |paths| :: paths[i] != paths[j]
    requires Close(files, before, deleted, paths).Ok?
    ensures
      var records := Close(files, before, deleted, paths).value.1;
      && |records| == |paths|
      && forall i | 0 <= i < |paths| ::
           && records[i].path == paths[i] && records[i].before == Identity(before, paths[i])
           && records[i].after == if paths[i] in deleted then None else Some(Sha256(files.texts[paths[i]]))
    decreases |paths|
  {
    if paths != [] {
      CloseLists(if paths[0] in deleted then Dropped(files, paths[0]) else files, before, deleted, paths[1..]);
    }
  }

  lemma {:induction false} CloseKeeps(files: Files, before: Files, deleted: seq<string>, paths: seq<string>)
    requires forall p | p in paths :: p in files.texts
    requires forall i, j | 0 <= i < j < |paths| :: paths[i] != paths[j]
    requires Close(files, before, deleted, paths).Ok?
    ensures
      var after := Close(files, before, deleted, paths).value.0;
      && (forall p | p in files.texts && !(p in paths && p in deleted) ::
            p in after.texts && after.texts[p] == files.texts[p]
            && (p in files.present ==> p in after.present && after.present[p] == files.present[p]))
      && after.texts.Keys == files.texts.Keys - DeletedAmong(paths, deleted)
    decreases |paths|
  {
    if paths != [] {
      CloseKeeps(if paths[0] in deleted then Dropped(files, paths[0]) else files, before, deleted, paths[1..]);
      DeletedAmongStep(paths, deleted);
    }
  }

  /** The records of a stage, one for each touched path, in the order the paths were touched. */
  lemma {:induction false} StageRecords(files: Files, disk: Tree, review: Review)
    requires CompileStage(files, disk, review).Ok?
    requires forall p | p in files.texts :: p in files.present && files.present[p]
    ensures
      var (after, data) := CompileStage(files, disk, review).value;
      var touched := Touched(review);
      && |data.files| == |touched|
      && (forall i | 0 <= i < |touched| ::
            && data.files[i].path == touched[i]
            && data.files[i].before == (if touched[i] in files.texts then Some(Sha256(files.texts[touched[i]]))
                else DigestIn(disk, touched[i]))
            && data.files[i].after == (if touched[i] in review.deleted then None
                else DigestIn(after.texts, touched[i])))
      && (forall p | p in touched :: p in after.texts <==> p !in review.deleted)
      && (forall p | p !in touched ::
                (p in after.texts <==> p in files.texts) && TextIn(after.texts, p) == TextIn(files.texts, p))
      && (forall p | p in after.texts :: p in after.present && after.present[p])
  {
    TouchedCovers(review);
    var touched := Touched(review);
    var loaded := Load(files, disk, touched).value;
    LoadHasAll(files, disk, touched);
    var edited := CompileHunks(loaded, review.hunks).value.0;
    RecordsOfParts(files, disk, review, touched, loaded, edited);
  }

  /** A stage's records, from its parts. */
  lemma {:induction false} RecordsOfParts(files: Files, disk: Tree, review: Review, touched: seq<string>, loaded: Files,
                                          edited: Files)
    requires forall p | p in files.texts :: p in files.present && files.present[p]
    requires (forall h | h in review.hunks :: h.path in touched) && forall p | p in review.deleted :: p in touched
    requires forall p | p in touched :: p in PathsOf(review.hunks) || p in review.deleted
    requires forall i, j | 0 <= i < j < |touched| :: touched[i] != touched[j]
    requires Load(files, disk, touched) == Ok(loaded) && forall p | p in touched :: p in loaded.texts
    requires CompileHunks(loaded, review.hunks).Ok? && CompileHunks(loaded, review.hunks).value.0 == edited
    requires Close(edited, loaded, review.deleted, touched).Ok?
    ensures
      var (after, records) := Close(edited, loaded, review.deleted, touched).value;
      && |records| == |touched|
      && (forall i | 0 <= i < |touched| ::
            && records[i].path == touched[i]
            && records[i].before == (if touched[i] in files.texts then Some(Sha256(files.texts[touched[i]]))
                else DigestIn(disk, touched[i]))
            && records[i].after == (if touched[i] in review.deleted then None else DigestIn(after.texts, touched[i])))
      && (forall p | p in touched :: p in after.texts <==> p !in review.deleted)
      && (forall p | p !in touched ::
                (p in after.texts <==> p in files.texts) && TextIn(after.texts, p) == TextIn(files.texts, p))
      && (forall p | p in after.texts :: p in after.present && after.present[p])
  {
    LoadIdentifies(files, disk, touched);
    HunksTouchOnlyTheirPaths(loaded, review.hunks);
    CloseRecords(edited, loaded, review.deleted, touched);
    ClosedRecords(files, disk, loaded, edited, review, touched);
  }

  /** From what loading, editing and closing each do, to the stage's records. */
  lemma {:induction false} ClosedRecords(files: Files, disk: Tree, loaded: Files, edited: Files, review: Review,
                                         touched: seq<string>)
    requires forall p | p in files.texts :: p in files.present && files.present[p]
    requires forall p | p in touched :: p in edited.texts
    requires forall i, j | 0 <= i < j < |touched| :: touched[i] != touched[j]
    requires Close(edited, loaded, review.deleted, touched).Ok?
    requires
      var (after, records) := Close(edited, loaded, review.deleted, touched).value;
      && |records| == |touched|
      && (forall i | 0 <= i < |touched| ::
            && records[i].path == touched[i] && records[i].before == Identity(loaded, touched[i])
            && records[i].after == if touched[i] in review.deleted then None
                else Some(Sha256(edited.texts[touched[i]])))
      && (forall p | p in edited.texts && !(p in touched && p in review.deleted) ::
                p in after.texts && after.texts[p] == edited.texts[p])
    requires forall p | p in touched && p !in files.texts :: Identity(loaded, p) == DigestIn(disk, p)
    requires forall p | p in loaded.texts :: p in loaded.present
    requires forall p | p in files.texts ::
               p in loaded.texts && loaded.texts[p] == files.texts[p] && loaded.present[p] == files.present[p]
    ensures
      var (after, records) := Close(edited, loaded, review.deleted, touched).value;
      forall i | 0 <= i < |touched| ::
        && records[i].before == (if touched[i] in files.texts then Some(Sha256(files.texts[touched[i]]))
            else DigestIn(disk, touched[i]))
        && records[i].after == (if touched[i] in review.deleted then None else DigestIn(after.texts, touched[i]))
  {
  }

  lemma {:induction false} StageSettles(files: Files, disk: Tree, review: Review, history: seq<FileIdentity>)
    requires Settled(files, disk, history) && CompileStage(files, disk, review).Ok?
    ensures
      var (after, data) := CompileStage(files, disk, review).value;
      && Settled(after, disk, history + data.files)
      && (forall f | f in data.files :: f.before == RecordedBefore(history, f.path, disk))
  {
    var (after, data) := CompileStage(files, disk, review).value;
    StageRecords(files, disk, review);
    forall p
      ensures p in after.texts ==> LastAfter(history + data.files, p, disk) == Some(Sha256(after.texts[p]))
      ensures p !in after.texts ==>
                LastAfter(history + data.files, p, disk) == None || Unrecorded(history + data.files, p)
    {
      StageSettlesAt(files, disk, review, history, p);
    }
    StageBefores(files, disk, review, history);
  }

  lemma {:induction false} StageSettlesAt(files: Files, disk: Tree, review: Review, history: seq<FileIdentity>,
                                          p: string)
    requires Settled(files, disk, history) && CompileStage(files, disk, review).Ok?
    ensures
      var (after, data) := CompileStage(files, disk, review).value;
      && (p in after.texts ==> LastAfter(history + data.files, p, disk) == Some(Sha256(after.texts[p])))
      && (p !in after.texts ==>
            LastAfter(history + data.files, p, disk) == None || Unrecorded(history + data.files, p))
  {
    var (after, data) := CompileStage(files, disk, review).value;
    if p in Touched(review) {
      var i := RecordOf(files, disk, review, p);
      LastAfterAt(history, data.files, p, disk, i);
    } else {
      NoRecordOf(files, disk, review, p);
      LastAfterSkips(history, data.files, p, disk);
    }
  }

  /** The one record of a touched path. */
  lemma {:induction false} RecordOf(files: Files, disk: Tree, review: Review, p: string) returns (i: nat)
    requires CompileStage(files, disk, review).Ok? && p in Touched(review)
    requires forall p | p in files.texts :: p in files.present && files.present[p]
    ensures
      var (after, data) := CompileStage(files, disk, review).value;
      && i < |data.files| && data.files[i].path == p && (forall j | i < j < |data.files| :: data.files[j].path != p)
      && data.files[i].after == DigestIn(after.texts, p)
  {
    StageRecords(files, disk, review);
    var touched := Touched(review);
    i :| 0 <= i < |touched| && touched[i] == p;
    assert touched[i] in touched;
  }

  lemma {:induction false} NoRecordOf(files: Files, disk: Tree, review: Review, p: string)
    requires CompileStage(files, disk, review).Ok? && p !in Touched(review)
    requires forall p | p in files.texts :: p in files.present && files.present[p]
    ensures
      var (after, data) := CompileStage(files, disk, review).value;
      && Unrecorded(data.files, p) && (p in after.texts <==> p in files.texts)
      && TextIn(after.texts, p) == TextIn(files.texts, p)
  {
    StageRecords(files, disk, review);
    var data := CompileStage(files, disk, review).value.1;
    forall f | f in data.files ensures f.path != p {
      var i :| 0 <= i < |data.files| && data.files[i] == f;
      assert Touched(review)[i] in Touched(review);
    }
  }

  lemma {:induction false} StageBefores(files: Files, disk: Tree, review: Review, history: seq<FileIdentity>)
    requires Settled(files, disk, history) && CompileStage(files, disk, review).Ok?
    ensures forall f | f in CompileStage(files, disk, review).value.1.files ::
        f.before == RecordedBefore(history, f.path, disk)
  {
    StageRecords(files, disk, review);
    forall f | f in CompileStage(files, disk, review).value.1.files
      ensures f.before == RecordedBefore(history, f.path, disk)
    {
      if Unrecorded(history, f.path) {
        UnrecordedIsOnDisk(history, f.path, disk);
      }
    }
  }

  /** MAIN: at every stage of every accepted run, a touched file's recorded identity is the one it was last
      left with -- except where that was "deleted" and the disk still has the file, which is re-read. */
  lemma {:induction false} IdentitiesChain(files: Files, disk: Tree, reviews: seq<Review>,
                                           history: seq<FileIdentity>, k: nat)
    requires Settled(files, disk, history) && CompileStages(files, disk, reviews).Ok? && k < |reviews|
    ensures
      var stages := CompileStages(files, disk, reviews).value.1;
      forall f | f in stages[k].files ::
        var last := LastAfter(history + Records(stages[..k]), f.path, disk);
        && f.before == RecordedBefore(history + Records(stages[..k]), f.path, disk)
        && (f.before == last <==> !(last == None && f.path in disk))
    decreases k
  {
    StageSettles(files, disk, reviews[0], history);
    var (after, data) := CompileStage(files, disk, reviews[0]).value;
    var stages := CompileStages(files, disk, reviews).value.1;
    assert stages == [data] + CompileStages(after, disk, reviews[1..]).value.1;
    if k == 0 {
      assert history + Records(stages[..0]) == history;
    } else {
      IdentitiesChain(after, disk, reviews[1..], history + data.files, k - 1);
      HistoryStep(history, stages, k);
    }
  }

  /** The exception happens: an empty file deleted twice, without a hunk, is read back from the disk the second time. */
  lemma {:induction false} RereadDeletion() returns (disk: Tree, reviews: seq<Review>)
    ensures CleanTree(disk) && Compile(disk, [], reviews).Ok? && |reviews| == 2
    ensures
      var stages := Compile(disk, [], reviews).value.stages;
      exists f :: f in stages[1].files && LastAfter(Records(stages[..1]), f.path, disk) == None && f.before != None
  {
    disk, reviews := map["p" := ""], [Review([], ["p"]), Review([], ["p"])];
    var none := Files(map[], map[]);
    var deleted := Files(map[], map["p" := false]);
    DeletionOfEmpty(none, disk);
    DeletionOfEmpty(deleted, disk);
    var data := StageData([FileIdentity("p", Some(EmptyFileSha256()), None)], []);
    assert reviews[1..] == [reviews[1]] && reviews[1..][1..] == [];
    assert CompileStages(deleted, disk, reviews[1..][1..]) == Ok((deleted, []));
    assert [data] + [] == [data] && [data] + [data] == [data, data];
    assert CompileStages(deleted, disk, reviews[1..]) == Ok((deleted, [data]));
    assert CompileStages(none, disk, reviews) == Ok((deleted, [data, data]));
    var stages := Compile(disk, [], reviews).value.stages;
    assert stages == [data, data] && stages[..1] == [data] && [data][1..] == [];
    assert Records(stages[..1]) == data.files + [];
    assert data.files[0] in stages[1].files;
  }

  /** Deleting the empty file `p` of a disk that has nothing else, whatever is known of its existence. */
  lemma {:induction false} DeletionOfEmpty(files: Files, disk: Tree)
    requires files.texts == map[] && files.present.Keys <= {"p"} && disk == map["p" := ""]
    ensures CompileStage(files, disk, Review([], ["p"]))
         == Ok((Files(map[], map["p" := false]), StageData([FileIdentity("p", Some(EmptyFileSha256()), None)], [])))
  {
    var review := Review([], ["p"]);
    var loaded := Files(map["p" := ""], map["p" := true]);
    assert PathsOf(review.hunks) + review.deleted == ["p"];
    TouchedOne("p");
    assert files.texts["p" := ""] == loaded.texts && files.present["p" := true] == loaded.present;
    assert Load(files, disk, ["p"]) == Load(loaded, disk, ["p"][1..]) == Ok(loaded);
    assert CheckDeletions(loaded, review, ["p"]) == CheckDeletions(loaded, review, ["p"][1..]) == Ok(());
    assert loaded.texts - {"p"} == map[] && loaded.present["p" := false] == map["p" := false];
    assert Close(Files(map[], map["p" := false]), loaded, review.deleted, ["p"][1..])
        == Ok((Files(map[], map["p" := false]), []));
    assert [FileIdentity("p", Identity(loaded, "p"), None)] + [] == [FileIdentity("p", Some(EmptyFileSha256()), None)];
  }

  lemma {:induction false} TouchedOne(path: string)
    ensures Touched(Review([], [path])) == [path]
  {
    assert PathsOf([]) + [path] == [path];
    assert [path][..0] == [];
    assert PatchData.Distinct([]) == [];
  }

  lemma {:induction false} HistoryStep(history: seq<FileIdentity>, stages: seq<StageData>, k: nat)
    requires 0 < k <= |stages|
    ensures history + Records(stages[..k]) == (history + stages[0].files) + Records(stages[1..][..k - 1])
  {
    assert stages[..k][1..] == stages[1..][..k - 1];
  }

  lemma {:induction false} RunSettles(files: Files, disk: Tree, reviews: seq<Review>, history: seq<FileIdentity>)
    requires Settled(files, disk, history) && CompileStages(files, disk, reviews).Ok?
    ensures
      var (after, stages) := CompileStages(files, disk, reviews).value;
      Settled(after, disk, history + Records(stages))
    decreases |reviews|
  {
    if reviews == [] {
      assert history + [] == history;
    } else {
      StageSettles(files, disk, reviews[0], history);
      var after, data, rest := FirstStage(files, disk, reviews);
      RunSettles(after, disk, reviews[1..], history + data.files);
      FirstRecords(history, data, rest);
    }
  }

  lemma {:induction false} FirstStage(files: Files, disk: Tree, reviews: seq<Review>)
    returns (after: Files, data: StageData, rest: seq<StageData>)
    requires reviews != [] && CompileStages(files, disk, reviews).Ok?
    ensures CompileStage(files, disk, reviews[0]) == Ok((after, data))
    ensures CompileStages(after, disk, reviews[1..]).Ok? && rest == CompileStages(after, disk, reviews[1..]).value.1
    ensures CompileStages(files, disk, reviews) == Ok((CompileStages(after, disk, reviews[1..]).value.0, [data] + rest))
  {
    after, data := CompileStage(files, disk, reviews[0]).value.0, CompileStage(files, disk, reviews[0]).value.1;
    rest := CompileStages(after, disk, reviews[1..]).value.1;
  }

  lemma {:induction false} FirstRecords(history: seq<FileIdentity>, data: StageData, rest: seq<StageData>)
    ensures history + Records([data] + rest) == history + data.files + Records(rest)
  {
    assert ([data] + rest)[1..] == rest;
  }

  lemma {:induction false} TouchedHasRecord(files: Files, disk: Tree, reviews: seq<Review>, path: string)
    requires CompileStages(files, disk, reviews).Ok?
    requires forall p | p in files.texts :: p in files.present && files.present[p]
    requires path in TouchedByAny(reviews)
    ensures !Unrecorded(Records(CompileStages(files, disk, reviews).value.1), path)
    decreases |reviews|
  {
    var (after, data) := CompileStage(files, disk, reviews[0]).value;
    StageRecords(files, disk, reviews[0]);
    var touched := Touched(reviews[0]);
    if path in touched {
      var i :| 0 <= i < |touched| && touched[i] == path;
      assert data.files[i] in Records(CompileStages(files, disk, reviews).value.1) && data.files[i].path == path;
    } else {
      assert path in TouchedByAny(reviews[1..]);
      TouchedHasRecord(after, disk, reviews[1..], path);
    }
  }

  /** MAIN: `FINAL_FILES` lists exactly the touched paths that survive, each with its last recorded identity. */
  lemma {:induction false} FinalsAreTheSurvivors(disk: Tree, identity: seq<string>, reviews: seq<Review>, path: string)
    requires Compile(disk, identity, reviews).Ok?
    ensures
      var generated := Compile(disk, identity, reviews).value;
      && (path in generated.finals <==>
            path in TouchedByAny(reviews) && LastAfter(Records(generated.stages), path, disk) != None)
      && (path in generated.finals ==>
            Some(generated.finals[path]) == LastAfter(Records(generated.stages), path, disk))
  {
    StartIsSettled(disk, identity);
    var start := LoadIdentity(Files(map[], map[]), disk, identity).value;
    RunSettles(start, disk, reviews, []);
    var stages := CompileStages(start, disk, reviews).value.1;
    assert [] + Records(stages) == Records(stages);
    if path in TouchedByAny(reviews) {
      TouchedHasRecord(start, disk, reviews, path);
    }
  }
}
