/** Committing a plan: `SourcePatchTransaction.commit` of the framework (lines 1055-1192). Files are replaced
    one by one; a failure puts every recorded replacement back. */
module Commit {
  import opened Wrappers
  import opened PatchData

  /** A regular file: its text and its permission bits. */
  datatype Stored = Stored(text: string, mode: nat)

  /** How a commit ends. Cut short: an interrupt left the rollback, and nothing is reported. */
  datatype Ending = Applied | Failed(rollbackErrors: seq<string>) | CutShort

  /** How one round of the commit loop goes. An interrupt strikes between the replacement and its record; a directory
      that cannot be synchronised fails behind the record; another writer acts before the captured file is compared. */
  datatype Step = Done | Refused | Interrupted | NotSynced | WrittenBy(content: Option<Stored>)

  /** How putting one file back goes: it may fail without effect, or only behind the replacement. */
  datatype Undo = Undone | Stuck | UndoneThenFailed

  /** What the world does to a commit: each round, the read-back, each restoration if one is made, and after how many
      restorations, if ever, an interrupt strikes between them. */
  datatype Schedule = Schedule(steps: seq<Step>, verified: bool, undo: seq<Undo>, cut: Option<nat>)

  const DEFAULT_MODE: nat := 0x1A4 // 0o644

  /** `mode or 0o644`. */
  function ModeOr(mode: nat): nat {
    if mode == 0 then DEFAULT_MODE else mode
  }

  function At(files: map<string, Stored>, path: string): Option<Stored> {
    if path in files then Some(files[path]) else None
  }

  /** What the commit puts at a changed path: the planned text under the file's own mode, or nothing. */
  function InstalledAt(files: map<string, Stored>, planned: Tree, path: string): Option<Stored> {
    if path in planned then
      Some(Stored(planned[path], if path in files then ModeOr(files[path].mode) else DEFAULT_MODE))
    else None
  }

  /** What a rollback puts back. */
  function RestoredAt(files: map<string, Stored>, path: string): Option<Stored> {
    if path in files then Some(files[path].(mode := ModeOr(files[path].mode))) else None
  }

  /** Restoring is exact unless a file's permission bits were all clear. */
  lemma {:induction false} RestoredIsExact(files: map<string, Stored>, path: string)
    ensures RestoredAt(files, path) == At(files, path) <==> !(path in files && files[path].mode == 0)
  {
  }

  // ----- what a schedule leads to -----

  predicate Fits(changed: seq<string>, s: Schedule) {
    |s.steps| == |s.undo| == |changed|
  }

  predicate AllDistinct(paths: seq<string>) {
    forall i, j | 0 <= i < j < |paths| :: paths[i] != paths[j]
  }

  predicate Stops(step: Step, captured: Option<Stored>) {
    if step.WrittenBy? then step.content != captured else step != Done
  }

  /** The round the commit loop does not get past. */
  function FirstStop(files: map<string, Stored>, changed: seq<string>, steps: seq<Step>, from: nat): (k: nat)
    requires from <= |changed| == |steps|
    ensures from <= k <= |changed| && (k < |changed| ==> Stops(steps[k], At(files, changed[k])))
    ensures forall j | from <= j < k :: !Stops(steps[j], At(files, changed[j]))
    decreases |changed| - from
  {
    if from == |changed| || Stops(steps[from], At(files, changed[from])) then from
    else FirstStop(files, changed, steps, from + 1)
  }

  /** How many replacements are recorded, and so put back. */
  function Recorded(files: map<string, Stored>, changed: seq<string>, s: Schedule): (n: nat)
    requires Fits(changed, s)
    ensures n <= |changed|
  {
    var k := FirstStop(files, changed, s.steps, 0);
    if k < |changed| && s.steps[k].NotSynced? then k + 1 else k
  }

  predicate Succeeds(files: map<string, Stored>, changed: seq<string>, s: Schedule)
    requires Fits(changed, s)
  {
    FirstStop(files, changed, s.steps, 0) == |changed| && s.verified
  }

  /** Whether a rollback of `n` replacements is interrupted between two restorations. */
  predicate IsCut(cut: Option<nat>, n: nat) {
    cut.Some? && cut.value <= n
  }

  /** The first of `n` replacements that the rollback reaches, coming from the last. */
  function LeastReached(cut: Option<nat>, n: nat): (k: nat)
    ensures k <= n
  {
    if IsCut(cut, n) then n - cut.value else 0
  }

  /** Whether the recorded replacement `i` is put back. */
  predicate IsUndone(files: map<string, Stored>, changed: seq<string>, s: Schedule, i: nat)
    requires Fits(changed, s) && i < |changed|
  {
    LeastReached(s.cut, Recorded(files, changed, s)) <= i && !s.undo[i].Stuck?
  }

  /** What a failed commit leaves at the changed path `i`. */
  function LeftAt(files: map<string, Stored>, planned: Tree, changed: seq<string>, s: Schedule, i: nat): Option<Stored>
    requires Fits(changed, s) && i < |changed|
  {
    if i < Recorded(files, changed, s) then
      if IsUndone(files, changed, s, i) then RestoredAt(files, changed[i])
      else InstalledAt(files, planned, changed[i])
    else if i == FirstStop(files, changed, s.steps, 0) then
      match s.steps[i]
      case Interrupted => InstalledAt(files, planned, changed[i])
      case WrittenBy(content) => content
      case _ => At(files, changed[i])
    else At(files, changed[i])
  }

  /** The paths a rollback of the first `n` replacements reports, last replacement first. */
  function Reported(changed: seq<string>, undo: seq<Undo>, n: nat): seq<string>
    requires n <= |changed| && n <= |undo|
  {
    if n == 0 then []
    else (if undo[n - 1].Undone? then [] else [changed[n - 1]]) + Reported(changed, undo, n - 1)
  }

  /** The reports behind those listed so far. */
  lemma {:induction false} ReportedStep(replaced: seq<string>, undo: seq<Undo>, k: nat, listed: seq<string>)
    requires k < |replaced| && k < |undo|
    ensures listed + Reported(replaced, undo, k + 1)
         == (if undo[k].Undone? then listed else listed + [replaced[k]]) + Reported(replaced, undo, k)
  {
    var rest := Reported(replaced, undo, k);
    if undo[k].Undone? {
      assert [] + rest == rest;
    } else {
      assert listed + ([replaced[k]] + rest) == listed + [replaced[k]] + rest;
    }
  }

  lemma {:induction false} NoneListed(rest: seq<string>)
    ensures [] + rest == rest && rest + [] == rest
  {
  }

  /** Putting path `i` back works: it does happen, and no permission bits were lost -- or nothing was to be changed. */
  predicate PutsBack(files: map<string, Stored>, planned: Tree, changed: seq<string>, s: Schedule, i: nat)
    requires Fits(changed, s) && i < |changed|
  {
    if IsUndone(files, changed, s, i) then !(changed[i] in files && files[changed[i]].mode == 0)
    else InstalledAt(files, planned, changed[i]) == At(files, changed[i])
  }

  /** The schedules under which a failed commit leaves the tree it found. */
  predicate Restores(files: map<string, Stored>, planned: Tree, changed: seq<string>, s: Schedule)
    requires Fits(changed, s)
  {
    var k := FirstStop(files, changed, s.steps, 0);
    && (k < |changed| ==> !s.steps[k].WrittenBy?)
    && (k < |changed| && s.steps[k].Interrupted? ==> InstalledAt(files, planned, changed[k]) == At(files, changed[k]))
    && forall i | 0 <= i < Recorded(files, changed, s) :: PutsBack(files, planned, changed, s, i)
  }

  /** MAIN: a failed commit leaves every path as it was exactly under those schedules. */
  lemma {:induction false} RestoredExactly(files: map<string, Stored>, planned: Tree, changed: seq<string>, s: Schedule)
    requires Fits(changed, s)
    ensures (forall i | 0 <= i < |changed| :: LeftAt(files, planned, changed, s, i) == At(files, changed[i]))
       <==> Restores(files, planned, changed, s)
  {
    var k := FirstStop(files, changed, s.steps, 0);
    forall i | 0 <= i < Recorded(files, changed, s)
      ensures LeftAt(files, planned, changed, s, i) == At(files, changed[i])
          <==> PutsBack(files, planned, changed, s, i)
    {
      RestoredIsExact(files, changed[i]);
    }
    if forall i | 0 <= i < |changed| :: LeftAt(files, planned, changed, s, i) == At(files, changed[i]) {
      if k < |changed| {
        assert LeftAt(files, planned, changed, s, k) == At(files, changed[k]);
      }
      forall i | 0 <= i < Recorded(files, changed, s) ensures PutsBack(files, planned, changed, s, i) {
        assert LeftAt(files, planned, changed, s, i) == At(files, changed[i]);
      }
    }
  }

  /** MAIN: no report of a failed restoration does not mean that the tree was restored. Whichever change an interrupt
      follows, with everything else in order, that change stays and nothing is reported. */
  lemma {:induction false} InterruptIsNotUndone(files: map<string, Stored>, planned: Tree, changed: seq<string>, i: nat)
    returns (s: Schedule)
    requires i < |changed| && InstalledAt(files, planned, changed[i]) != At(files, changed[i])
    ensures Fits(changed, s) && !Succeeds(files, changed, s) && !Restores(files, planned, changed, s)
    ensures !IsCut(s.cut, Recorded(files, changed, s)) && Reported(changed, s.undo, Recorded(files, changed, s)) == []
    ensures LeftAt(files, planned, changed, s, i) == InstalledAt(files, planned, changed[i])
  {
    var n := |changed|;
    s := Schedule(seq(n, j => if j == i then Interrupted else Done), true, seq(n, j => Undone), None);
    assert Stops(s.steps[i], At(files, changed[i]));
    assert FirstStop(files, changed, s.steps, 0) == i;
    NothingReported(changed, s.undo, i);
  }

  lemma {:induction false} NothingReported(changed: seq<string>, undo: seq<Undo>, n: nat)
    requires n <= |changed| && n <= |undo| && forall i | 0 <= i < n :: undo[i].Undone?
    ensures Reported(changed, undo, n) == []
  {
    if n > 0 {
      NothingReported(changed, undo, n - 1);
    }
  }

  /** An interrupt before the first restoration leaves all of them: a commit whose read-back failed keeps every new
      file. */
  lemma {:induction false} CutRollbackKeepsAll(files: map<string, Stored>, planned: Tree, changed: seq<string>)
    returns (s: Schedule)
    ensures Fits(changed, s) && !Succeeds(files, changed, s) && IsCut(s.cut, Recorded(files, changed, s))
    ensures forall i | 0 <= i < |changed| ::
              LeftAt(files, planned, changed, s, i) == InstalledAt(files, planned, changed[i])
  {
    var n := |changed|;
    s := Schedule(seq(n, j => Done), false, seq(n, j => Undone), Some(0));
    assert FirstStop(files, changed, s.steps, 0) == n;
  }

  /** Nor does a report mean that it was not: a directory that cannot be synchronised behind the last restoration is
      reported although the file is back. */
  lemma {:induction false} ReportedButRestored(files: map<string, Stored>, planned: Tree, path: string)
    returns (s: Schedule)
    requires path !in files || files[path].mode != 0
    ensures Fits([path], s) && !Succeeds(files, [path], s) && Restores(files, planned, [path], s)
    ensures !IsCut(s.cut, Recorded(files, [path], s))
    ensures Reported([path], s.undo, Recorded(files, [path], s)) == [path]
  {
    s := Schedule([NotSynced], true, [UndoneThenFailed], None);
    assert Stops(s.steps[0], At(files, path)) && Recorded(files, [path], s) == 1;
    assert Reported([path], s.undo, 1) == [path] + Reported([path], s.undo, 0);
  }

  /** What a round leaves at its path. */
  function RoundLeaves(files: map<string, Stored>, planned: Tree, path: string, step: Step): Option<Stored> {
    match step
    case Refused => At(files, path)
    case WrittenBy(content) => if content != At(files, path) then content else InstalledAt(files, planned, path)
    case _ => InstalledAt(files, planned, path)
  }

  /** What stands at the changed path `j` when the loop is at `i`. */
  function ReachedAt(files: map<string, Stored>, planned: Tree, changed: seq<string>, steps: seq<Step>,
                     i: nat, failed: bool, j: nat): Option<Stored>
    requires i <= |changed| == |steps| && j < |changed|
  {
    if j < i then InstalledAt(files, planned, changed[j])
    else if j == i && failed then RoundLeaves(files, planned, changed[j], steps[j])
    else At(files, changed[j])
  }

  /** What a round of the rollback leaves at its path. */
  function BackAt(reached: map<string, Stored>, backups: map<string, Stored>, path: string,
                  undo: Undo): Option<Stored> {
    if undo.Stuck? then At(reached, path) else RestoredAt(backups, path)
  }

  /** The rollback has come down to the replacement `k`. */
  ghost predicate RolledTo(files: map<string, Stored>, reached: map<string, Stored>, backups: map<string, Stored>,
                           replaced: seq<string>, undo: seq<Undo>, k: nat)
    requires k <= |replaced| <= |undo|
  {
    && (forall i | k <= i < |replaced| :: At(files, replaced[i]) == BackAt(reached, backups, replaced[i], undo[i]))
    && forall p | p !in replaced[k..] :: At(files, p) == At(reached, p)
  }

  lemma {:induction false} RolledStep(was: map<string, Stored>, files: map<string, Stored>,
                                      reached: map<string, Stored>,
                                      backups: map<string, Stored>, replaced: seq<string>, undo: seq<Undo>, k: nat)
    requires AllDistinct(replaced) && k < |replaced| <= |undo| && RolledTo(was, reached, backups, replaced, undo, k + 1)
    requires At(files, replaced[k]) == BackAt(was, backups, replaced[k], undo[k])
    requires forall p | p != replaced[k] :: At(files, p) == At(was, p)
    ensures RolledTo(files, reached, backups, replaced, undo, k)
  {
    TailWithout(replaced, k);
  }

  lemma {:induction false} TailWithout(paths: seq<string>, k: nat)
    requires AllDistinct(paths) && k < |paths|
    ensures paths[k..] == [paths[k]] + paths[k + 1..] && paths[k] !in paths[k + 1..]
  {
  }

  lemma {:induction false} RolledEnds(files: map<string, Stored>, reached: map<string, Stored>,
                                      backups: map<string, Stored>, replaced: seq<string>, undo: seq<Undo>, k: nat)
    requires AllDistinct(replaced) && k <= |replaced| <= |undo| && RolledTo(files, reached, backups, replaced, undo, k)
    ensures forall i | 0 <= i < |replaced| ::
              At(files, replaced[i])
              == if i < k then At(reached, replaced[i]) else BackAt(reached, backups, replaced[i], undo[i])
    ensures forall p | p !in replaced :: At(files, p) == At(reached, p)
  {
    forall i | 0 <= i < k ensures replaced[i] !in replaced[k..] {}
  }

  /** The commit loop has come to the path `i`. */
  ghost predicate ReplacedTo(files: map<string, Stored>, backups: map<string, Stored>, planned: Tree,
                             changed: seq<string>, steps: seq<Step>, i: nat, failed: bool)
    requires i <= |changed| == |steps|
  {
    && (forall j | 0 <= j < |changed| ::
          At(files, changed[j]) == ReachedAt(backups, planned, changed, steps, i, failed, j))
    && forall p | p !in changed :: At(files, p) == At(backups, p)
  }

  lemma {:induction false} ReplacedStep(was: map<string, Stored>, files: map<string, Stored>,
                                        backups: map<string, Stored>, planned: Tree, changed: seq<string>,
                                        steps: seq<Step>, i: nat, failed: bool)
    requires AllDistinct(changed) && i < |changed| == |steps|
    requires ReplacedTo(was, backups, planned, changed, steps, i, false)
    requires failed <==> Stops(steps[i], At(backups, changed[i]))
    requires At(files, changed[i]) == RoundLeaves(backups, planned, changed[i], steps[i])
    requires forall p | p != changed[i] :: At(files, p) == At(was, p)
    ensures ReplacedTo(files, backups, planned, changed, steps, if failed then i else i + 1, failed)
  {
  }

  class SourceTree {
    var files: map<string, Stored>

    constructor (files: map<string, Stored>)
      ensures this.files == files
    {
      this.files := files;
    }

    /** `os.replace` of a staged file, or `os.unlink`. */
    method Put(path: string, content: Option<Stored>)
      modifies this
      ensures At(files, path) == content
      ensures forall p | p != path :: At(files, p) == At(old(files), p)
    {
      files := if content.Some? then files[path := content.value] else files - {path};
    }

    /** One round of the commit loop: whether the replacement was recorded, and whether the round failed. */
    method Round(planned: Tree, backups: map<string, Stored>, relative: string, step: Step)
      returns (recorded: bool, failed: bool)
      requires At(files, relative) == At(backups, relative)
      modifies this
      ensures failed <==> Stops(step, At(backups, relative))
      ensures recorded <==> !failed || step.NotSynced?
      ensures At(files, relative) == RoundLeaves(backups, planned, relative, step)
      ensures forall p | p != relative :: At(files, p) == At(old(files), p)
    {
      if step.WrittenBy? {
        Put(relative, step.content);
      }
      // The destination is still what was captured, or the commit stops here.
      if step.Refused? || At(files, relative) != At(backups, relative) {
        return false, true;
      }
      Put(relative, InstalledAt(backups, planned, relative));
      recorded, failed := !step.Interrupted?, step.Interrupted? || step.NotSynced?;
    }

    /** The commit loop: what was recorded as replaced, and whether a round failed. */
    method ReplaceAll(planned: Tree, changed: seq<string>, s: Schedule) returns (replaced: seq<string>, failed: bool)
      requires AllDistinct(changed) && Fits(changed, s)
      modifies this
      ensures failed <==> FirstStop(old(files), changed, s.steps, 0) < |changed|
      ensures replaced == changed[..Recorded(old(files), changed, s)]
      ensures forall j | 0 <= j < |changed| ::
                At(files, changed[j])
                == ReachedAt(old(files), planned, changed, s.steps,
                             FirstStop(old(files), changed, s.steps, 0), failed, j)
      ensures forall p | p !in changed :: At(files, p) == At(old(files), p)
    {
      var backups := files;
      replaced, failed := [], false;
      var i := 0;
      while i < |changed| && !failed
        invariant i <= |changed| && FirstStop(backups, changed, s.steps, 0) == FirstStop(backups, changed, s.steps, i)
        invariant failed ==> i < |changed| && Stops(s.steps[i], At(backups, changed[i]))
        invariant replaced == changed[..if failed && s.steps[i].NotSynced? then i + 1 else i]
        invariant ReplacedTo(files, backups, planned, changed, s.steps, i, failed)
        decreases |changed| - i, !failed
      {
        ghost var was := files;
        var recorded;
        recorded, failed := Round(planned, backups, changed[i], s.steps[i]);
        ReplacedStep(was, files, backups, planned, changed, s.steps, i, failed);
        if recorded { replaced := replaced + [changed[i]]; }
        if !failed { i := i + 1; }
      }
    }

    /** The commit loop, the read-back, and the rollback, under any schedule. */
    method Commit(planned: Tree, changed: seq<string>, s: Schedule) returns (ending: Ending)
      requires AllDistinct(changed) && Fits(changed, s)
      modifies this
      ensures ending.Applied? <==> Succeeds(old(files), changed, s)
      ensures ending.Applied? ==> forall p | p in changed :: At(files, p) == InstalledAt(old(files), planned, p)
      ensures ending.CutShort? <==>
                !Succeeds(old(files), changed, s) && IsCut(s.cut, Recorded(old(files), changed, s))
      ensures !ending.Applied? ==>
                forall i | 0 <= i < |changed| :: At(files, changed[i]) == LeftAt(old(files), planned, changed, s, i)
      ensures ending.Failed? ==> ending.rollbackErrors == Reported(changed, s.undo, Recorded(old(files), changed, s))
      ensures forall p | p !in changed :: At(files, p) == At(old(files), p)
      ensures !ending.Applied? ==> (files == old(files) <==> Restores(old(files), planned, changed, s))
    {
      // Every original is captured before anything is written.
      var backups := files;
      var replaced, failed := ReplaceAll(planned, changed, s);
      if !failed && s.verified {
        return Applied;
      }
      ghost var reached := files;
      var errors, cut := RollBack(replaced, backups, s.undo, s.cut);
      RolledBack(files, reached, backups, planned, changed, s, failed);
      ReportedPrefix(changed, s.undo, |replaced|);
      Outcome(files, backups, planned, changed, s);
      ending := if cut then CutShort else Failed(errors);
    }

    /** One round of the rollback: whether it is reported. */
    method PutBack(relative: string, prior: Option<Stored>, undo: Undo) returns (reported: bool)
      modifies this
      ensures reported <==> !undo.Undone?
      ensures At(files, relative) == if undo.Stuck? then At(old(files), relative) else prior
      ensures forall p | p != relative :: At(files, p) == At(old(files), p)
    {
      if !undo.Stuck? {
        Put(relative, prior);
      }
      reported := !undo.Undone?;
    }

    /** The rollback comes down by one replacement. */
    method UndoOne(replaced: seq<string>, backups: map<string, Stored>, undo: seq<Undo>, k: nat,
                   ghost reached: map<string, Stored>)
      returns (reported: bool)
      requires AllDistinct(replaced) && k < |replaced| <= |undo|
      requires RolledTo(files, reached, backups, replaced, undo, k + 1)
      modifies this
      ensures reported <==> !undo[k].Undone?
      ensures RolledTo(files, reached, backups, replaced, undo, k)
    {
      ghost var was := files;
      reported := PutBack(replaced[k], RestoredAt(backups, replaced[k]), undo[k]);
      RolledStep(was, files, reached, backups, replaced, undo, k);
    }

    /** The rollback loop, last replacement first, unless an interrupt leaves it between two restorations. */
    method RollBack(replaced: seq<string>, backups: map<string, Stored>, undo: seq<Undo>, cut: Option<nat>)
      returns (errors: seq<string>, isCut: bool)
      requires AllDistinct(replaced) && |replaced| <= |undo|
      modifies this
      ensures isCut <==> IsCut(cut, |replaced|)
      ensures !isCut ==> errors == Reported(replaced, undo, |replaced|)
      ensures forall i | 0 <= i < |replaced| ::
                At(files, replaced[i])
                == if i < LeastReached(cut, |replaced|) then At(old(files), replaced[i])
                   else BackAt(old(files), backups, replaced[i], undo[i])
      ensures forall p | p !in replaced :: At(files, p) == At(old(files), p)
    {
      errors := [];
      var k := |replaced|;
      ghost var reached := files;
      NoneListed(Reported(replaced, undo, |replaced|));
      while k > LeastReached(cut, |replaced|)
        invariant LeastReached(cut, |replaced|) <= k <= |replaced|
        invariant Reported(replaced, undo, |replaced|) == errors + Reported(replaced, undo, k)
        invariant RolledTo(files, reached, backups, replaced, undo, k)
      {
        k := k - 1;
        var reported := UndoOne(replaced, backups, undo, k, reached);
        ReportedStep(replaced, undo, k, errors);
        if reported {
          errors := errors + [replaced[k]];
        }
      }
      isCut := IsCut(cut, |replaced|);
      NoneListed(errors);
      RolledEnds(files, reached, backups, replaced, undo, k);
    }
  }

  /** The rollback takes what the loop reached to what a failed commit leaves. */
  lemma {:induction false} RolledBack(after: map<string, Stored>, reached: map<string, Stored>,
                                      before: map<string, Stored>,
                                      planned: Tree, changed: seq<string>, s: Schedule, failed: bool)
    requires Fits(changed, s) && AllDistinct(changed)
    requires failed <==> FirstStop(before, changed, s.steps, 0) < |changed|
    requires forall j | 0 <= j < |changed| ::
               At(reached, changed[j])
               == ReachedAt(before, planned, changed, s.steps, FirstStop(before, changed, s.steps, 0), failed, j)
    requires var replaced := changed[..Recorded(before, changed, s)];
             && (forall i | 0 <= i < |replaced| ::
                   At(after, replaced[i])
                   == if i < LeastReached(s.cut, |replaced|) then At(reached, replaced[i])
                      else BackAt(reached, before, replaced[i], s.undo[i]))
             && forall p | p !in replaced :: At(after, p) == At(reached, p)
    ensures forall i | 0 <= i < |changed| :: At(after, changed[i]) == LeftAt(before, planned, changed, s, i)
  {
    var n := Recorded(before, changed, s);
    var replaced := changed[..n];
    forall i | 0 <= i < |changed| ensures At(after, changed[i]) == LeftAt(before, planned, changed, s, i) {
      assert At(reached, changed[i])
          == ReachedAt(before, planned, changed, s.steps, FirstStop(before, changed, s.steps, 0), failed, i);
      if i < n {
        assert replaced[i] == changed[i];
      } else {
        assert changed[i] !in replaced;
      }
    }
  }

  lemma {:induction false} ReportedPrefix(changed: seq<string>, undo: seq<Undo>, n: nat)
    requires n <= |changed| && n <= |undo|
    ensures Reported(changed[..n], undo, n) == Reported(changed, undo, n)
  {
    ReportedPrefixFrom(changed, changed[..n], undo, n);
  }

  lemma {:induction false} ReportedPrefixFrom(changed: seq<string>, other: seq<string>, undo: seq<Undo>, n: nat)
    requires n <= |changed| && n <= |other| && n <= |undo| && forall i | 0 <= i < n :: changed[i] == other[i]
    ensures Reported(other, undo, n) == Reported(changed, undo, n)
  {
    if n > 0 {
      ReportedPrefixFrom(changed, other, undo, n - 1);
    }
  }

  /** The tree is as it was if and only if every changed path is. */
  lemma {:induction false} Outcome(after: map<string, Stored>, before: map<string, Stored>, planned: Tree,
                                   changed: seq<string>, s: Schedule)
    requires Fits(changed, s)
    requires forall i | 0 <= i < |changed| :: At(after, changed[i]) == LeftAt(before, planned, changed, s, i)
    requires forall p | p !in changed :: At(after, p) == At(before, p)
    ensures after == before <==> Restores(before, planned, changed, s)
  {
    RestoredExactly(before, planned, changed, s);
    if forall i | 0 <= i < |changed| :: LeftAt(before, planned, changed, s, i) == At(before, changed[i]) {
      SameFiles(after, before);
    }
  }

  lemma {:induction false} SameFiles(a: map<string, Stored>, b: map<string, Stored>)
    requires forall p :: At(a, p) == At(b, p)
    ensures a == b
  {
    forall p ensures p in a <==> p in b { assert At(a, p) == At(b, p); }
    forall p | p in a ensures a[p] == b[p] { assert At(a, p) == At(b, p); }
  }
}
