/** The reference meaning of reviewed diffs -- every hunk replaced at the line its header names -- and the
    proof that the compiler's landmark edits have it. */
module Positional {
  import opened PyText
  import opened Wrappers
  import opened Landmark
  import opened Placement
  import opened PatchData
  import opened Compiler

  function ApplyHunk(tree: Tree, hunk: Hunk): Option<Tree> {
    match ApplyAtLine(TextIn(tree, hunk.path), hunk.block, hunk.newStart)
    case None => None
    case Some(text) => Some(tree[hunk.path := text])
  }

  function ApplyHunks(tree: Tree, hunks: seq<Hunk>): Option<Tree>
    decreases |hunks|
  {
    if hunks == [] then Some(tree)
    else
      match ApplyHunk(tree, hunks[0])
      case None => None
      case Some(next) => ApplyHunks(next, hunks[1..])
  }

  /** One reviewed diff: its hunks, then its deletions, which must find the files emptied. */
  function ApplyReview(tree: Tree, review: Review): Option<Tree> {
    match ApplyHunks(tree, review.hunks)
    case None => None
    case Some(edited) =>
      if forall p | p in review.deleted :: p in tree && TextIn(edited, p) == ""
      then Some(edited - set p | p in review.deleted) else None
  }

  function ApplyReviews(tree: Tree, reviews: seq<Review>): Option<Tree>
    decreases |reviews|
  {
    if reviews == [] then Some(tree)
    else
      match ApplyReview(tree, reviews[0])
      case None => None
      case Some(next) => ApplyReviews(next, reviews[1..])
  }

  // ----- text hygiene -----

  ghost predicate CleanHunks(hunks: seq<Hunk>) {
    forall h | h in hunks :: NewlineOnly(h.block.before) && NewlineOnly(h.block.after)
  }

  ghost predicate CleanReviews(reviews: seq<Review>) {
    forall r | r in reviews :: CleanHunks(r.hunks)
  }

  ghost predicate CleanTree(tree: Tree) {
    forall p | p in tree :: NewlineOnly(tree[p])
  }

  ghost predicate CleanFiles(files: Files) {
    && files.texts.Keys <= files.present.Keys
    && (forall p | p in files.texts :: NewlineOnly(files.texts[p]))
    && (forall p | p in files.present && !files.present[p] && p in files.texts :: files.texts[p] == "")
    && (forall p | p in files.present && files.present[p] :: p in files.texts)
  }

  /** A landmark is cut from the text and the hunk, so its result brings in no new separator. */
  lemma {:induction false} LandmarkResultIsClean(current: string, hunk: Hunk)
    requires NewlineOnly(current) && NewlineOnly(hunk.block.after) && CompileHunk(current, hunk).Ok?
    ensures
      var landmark := CompileHunk(current, hunk).value.landmark;
      NewlineOnly(ReplaceFirst(current, landmark.before, landmark.after))
  {
    var landmark := CompileHunk(current, hunk).value.landmark;
    var prefix, suffix, at := ExpandStaysInPlace(current, hunk.block, hunk.newStart);
    CleanSlice(current, at - |prefix|, at - |prefix| + |landmark.before|);
    CleanJoin(prefix, hunk.block.before, suffix);
    CleanJoin(prefix, hunk.block.after, suffix);
    CleanReplacement(current, landmark);
  }

  lemma {:induction false} CleanSlice(text: string, a: nat, b: nat)
    requires NewlineOnly(text) && a <= b <= |text|
    ensures NewlineOnly(text[a..b])
  {
  }

  lemma {:induction false} CleanPair(a: string, b: string)
    ensures NewlineOnly(a + b) <==> NewlineOnly(a) && NewlineOnly(b)
  {
    if NewlineOnly(a + b) {
      forall i | 0 <= i < |a| && IsSeparator(a[i]) ensures a[i] == '\n' { assert (a + b)[i] == a[i]; }
      forall i | 0 <= i < |b| && IsSeparator(b[i]) ensures b[i] == '\n' { assert (a + b)[|a| + i] == b[i]; }
    }
  }

  lemma {:induction false} CleanJoin(a: string, b: string, c: string)
    ensures NewlineOnly(a + b + c) <==> NewlineOnly(a) && NewlineOnly(b) && NewlineOnly(c)
  {
    CleanPair(a, b);
    CleanPair(a + b, c);
  }

  lemma {:induction false} CleanReplacement(current: string, landmark: Block)
    requires NewlineOnly(current) && NewlineOnly(landmark.after)
    ensures NewlineOnly(ReplaceFirst(current, landmark.before, landmark.after))
  {
    var at := Find(current, landmark.before, 0);
    if at >= 0 {
      CleanSlice(current, 0, at);
      CleanSlice(current, at + |landmark.before|, |current|);
      CleanJoin(current[..at], landmark.after, current[at + |landmark.before|..]);
    }
  }

  // ----- the edits of one stage -----

  /** Every edit, in the text it meets, has the effect of its hunk applied by line. */
  ghost predicate AllLand(files: Files, hunks: seq<Hunk>)
    decreases |hunks|
  {
    hunks == [] ||
    (var hunk := hunks[0];
     && hunk.path in files.texts
     && CompileHunk(files.texts[hunk.path], hunk).Ok?
     && var edited := Edited(files, CompileHunk(files.texts[hunk.path], hunk).value);
        && ApplyAtLine(files.texts[hunk.path], hunk.block, hunk.newStart) == Some(edited.texts[hunk.path])
        && AllLand(edited, hunks[1..]))
  }

  /** Every landmark, in the text it meets, has one occurrence, overlapping ones counted. */
  ghost predicate AllSole(files: Files, hunks: seq<Hunk>)
    decreases |hunks|
  {
    hunks == [] ||
    (var hunk := hunks[0];
     && hunk.path in files.texts
     && CompileHunk(files.texts[hunk.path], hunk).Ok?
     && var edit := CompileHunk(files.texts[hunk.path], hunk).value;
        && |Offsets(files.texts[hunk.path], edit.landmark.before)| == 1
        && AllSole(Edited(files, edit), hunks[1..]))
  }

  lemma {:induction false} EditKeepsClean(files: Files, hunk: Hunk)
    requires CleanFiles(files) && hunk.path in files.texts && NewlineOnly(hunk.block.after)
    requires CompileHunk(files.texts[hunk.path], hunk).Ok?
    ensures CleanFiles(Edited(files, CompileHunk(files.texts[hunk.path], hunk).value))
  {
    LandmarkResultIsClean(files.texts[hunk.path], hunk);
  }

  lemma {:induction false} SoleMeansUnique(text: string, needle: string)
    requires |Offsets(text, needle)| == 1
    ensures forall i, j | OccursAt(text, needle, i) && OccursAt(text, needle, j) :: i == j
  {
    OffsetsAreOccurrences(text, needle, 0);
    if needle != "" && Find(text, needle, 0) >= 0 {
      SoleOffset(text, needle, Find(text, needle, 0));
    }
  }

  lemma {:induction false} SoleEditLands(current: string, hunk: Hunk)
    requires NewlineOnly(current) && CompileHunk(current, hunk).Ok?
    requires |Offsets(current, CompileHunk(current, hunk).value.landmark.before)| == 1
    ensures
      var landmark := CompileHunk(current, hunk).value.landmark;
      Some(ReplaceFirst(current, landmark.before, landmark.after)) == ApplyAtLine(current, hunk.block, hunk.newStart)
  {
    SoleMeansUnique(current, CompileHunk(current, hunk).value.landmark.before);
    UniqueLandmarkLandsAtItsLine(current, hunk.block, hunk.newStart);
  }

  lemma {:induction false} SoleEditsLand(files: Files, hunks: seq<Hunk>)
    requires CleanFiles(files) && CleanHunks(hunks) && AllSole(files, hunks)
    ensures AllLand(files, hunks)
    decreases |hunks|
  {
    if hunks != [] {
      var hunk := hunks[0];
      var current := files.texts[hunk.path];
      var edit := CompileHunk(current, hunk).value;
      assert hunk in hunks;
      SoleEditLands(current, hunk);
      EditKeepsClean(files, hunk);
      SoleEditsLand(Edited(files, edit), hunks[1..]);
    }
  }

  /** A tree holds what the compiler holds about these paths. */
  ghost predicate Agree(tree: Tree, files: Files, paths: seq<string>) {
    forall p | p in paths ::
      p in files.texts && p in files.present && TextIn(tree, p) == files.texts[p] && (p in tree <==> files.present[p])
  }

  /** If every edit lands, compiling the hunks and applying them by line go hand in hand. */
  lemma {:induction false} LandingIsPositional(tree: Tree, files: Files, hunks: seq<Hunk>, paths: seq<string>)
    requires forall h | h in hunks :: h.path in files.texts && h.path in paths
    requires CompileHunks(files, hunks).Ok? && AllLand(files, hunks) && Agree(tree, files, paths)
    ensures ApplyHunks(tree, hunks).Some?
    ensures Agree(ApplyHunks(tree, hunks).value, CompileHunks(files, hunks).value.0, paths)
    ensures forall p | p !in PathsOf(hunks) ::
              && (p in ApplyHunks(tree, hunks).value <==> p in tree)
              && TextIn(ApplyHunks(tree, hunks).value, p) == TextIn(tree, p)
    decreases |hunks|
  {
    if hunks != [] {
      var hunk := hunks[0];
      assert hunk in hunks;
      var edited := Edited(files, CompileHunk(files.texts[hunk.path], hunk).value);
      HunkIsPositional(tree, files, hunk, edited, edited.texts[hunk.path], paths);
      LandingIsPositional(ApplyHunk(tree, hunk).value, edited, hunks[1..], paths);
      assert PathsOf(hunks) == [hunk.path] + PathsOf(hunks[1..]);
    }
  }

  lemma {:induction false} HunkIsPositional(tree: Tree, files: Files, hunk: Hunk, edited: Files, text: string,
                                            paths: seq<string>)
    requires hunk.path in files.texts && hunk.path in paths && Agree(tree, files, paths)
    requires ApplyAtLine(files.texts[hunk.path], hunk.block, hunk.newStart) == Some(text)
    requires edited == Files(files.texts[hunk.path := text], files.present[hunk.path := true])
    ensures ApplyHunk(tree, hunk).Some?
    ensures Agree(ApplyHunk(tree, hunk).value, edited, paths)
    ensures forall p | p != hunk.path ::
              && (p in ApplyHunk(tree, hunk).value <==> p in tree)
              && TextIn(ApplyHunk(tree, hunk).value, p) == TextIn(tree, p)
  {
  }
}
