/** The publish protocol of `repair-offset-norms.py`'s `main` (lines 380-402 and 441-516) as a state machine:
    any number of processes, one file-system operation a step, with a crash or an exception between any two. */
module Publish {
  import opened Wrappers
  import opened Repair
  import opened RepairStream

  /** SHA-256, taken to be collision free. */
  datatype Digest = Sha256(bytes: Bytes)

  type Dir = map<string, Bytes>
  type Manifest = seq<(Digest, string)>

  /** What no run may change: the source snapshot, the manifest's paths in order, and the replacements that
      the official checkpoint and the source's own header determine. */
  datatype World = World(source: Dir, entries: seq<string>, model: string, reps: seq<Replacement>)

  datatype Pc =
    | Begin
    | Unclaimed                      // the target was seen absent
    | Copying(next: nat)
    | Patching
    | Summing
    | Deciding(generated: Manifest)
    | Writing(generated: Manifest)   // the manifest was seen absent; its temporary file is being written
    | Verifying
    | Publishing
    | CleaningUp

  datatype Proc = Proc(bootstrap: bool, pc: Pc)

  /** The file system below the project directory, and the live processes by pid. */
  datatype State = State(
    source: Dir,
    manifest: Option<Manifest>,
    target: Option<Dir>,
    temps: map<nat, Dir>,
    notes: map<nat, Manifest>,
    procs: map<nat, Proc>)

  ghost predicate ValidWorld(w: World) {
    && w.model in w.entries && w.model in w.source
    && (forall p | p in w.entries :: p in w.source)
    && (forall i, j | 0 <= i < j < |w.entries| :: w.entries[i] != w.entries[j])
    && AllFit(w.reps, |w.source[w.model]|)
  }

  /** The snapshot the script is for: the source with the official norms in the model file. */
  function Corrected(w: World): Dir
    requires ValidWorld(w)
  {
    map p | p in w.entries :: if p == w.model then Overlaid(w.source[p], w.reps) else w.source[p]
  }

  /** `manifest_text`. */
  function ManifestOf(dir: Dir, entries: seq<string>): Manifest
    requires forall p | p in entries :: p in dir
  {
    if entries == [] then [] else [(Sha256(dir[entries[0]]), entries[0])] + ManifestOf(dir, entries[1..])
  }

  function PathsIn(m: Manifest): (paths: seq<string>)
    ensures |paths| == |m| && forall i | 0 <= i < |m| :: paths[i] == m[i].1
  {
    if m == [] then [] else [m[0].1] + PathsIn(m[1..])
  }

  /** `verify_entries`. */
  predicate Verifies(dir: Dir, m: Manifest) {
    forall e | e in m :: e.1 in dir && Sha256(dir[e.1]) == e.0
  }

  /** `expected_corrected_model_sha256`: what the streamed substitution feeds the digest. */
  function ExpectedModel(w: World): Result<Bytes, Fault>
    requires ValidWorld(w)
  {
    InPlaceEqualsStream(w.source[w.model], w.reps);
    Streamed(w.source[w.model], Sorted(w.reps), 0)
  }

  /** `verify_semantic_correction`: the manifest's model digest is that of the streamed substitution. */
  predicate SemanticallyCorrect(w: World, m: Manifest)
    requires ValidWorld(w)
  {
    ExpectedModel(w).Ok? && exists e | e in m :: e.1 == w.model && e.0 == Sha256(ExpectedModel(w).value)
  }

  function At(s: State, pid: nat, pc: Pc): State
    requires pid in s.procs
  {
    s.(procs := s.procs[pid := s.procs[pid].(pc := pc)])
  }

  function Gone(s: State, pid: nat): State {
    s.(procs := s.procs - {pid})
  }

  datatype Action =
    | Spawn(bootstrap: bool)
    | Crash
    | Raise                              // an exception: the handler takes over, or the process ends
    | Scribble(path: string, bytes: Bytes) // a write of the file being copied or patched, not finished yet
    | RemoveOne(path: string)            // `rmtree` removes one file
    | Advance

  /** The next operation of `main`, with its checks; a failing check raises. */
  ghost predicate Advances(w: World, s: State, pid: nat, s': State)
    requires ValidWorld(w) && pid in s.procs
  {
    var me := s.procs[pid];
    match me.pc
    case Begin =>
      // Lines 452-474: both snapshots verify; the manifest's existence must fit the kind of run. A run that
      // finds the target verifies it and ends without writing anything.
      if s.manifest.Some? then
        if me.bootstrap || PathsIn(s.manifest.value) != w.entries || s.target.Some? then s' == Gone(s, pid)
        else s' == At(s, pid, Unclaimed)
      else if !me.bootstrap then s' == Gone(s, pid)
      else if s.target.Some? then s' == Gone(s, pid)
      else s' == At(s, pid, Unclaimed)
    case Unclaimed =>
      // Lines 478-483: the temporary directory must be new.
      if pid in s.temps then s' == Gone(s, pid)
      else s' == At(s.(temps := s.temps[pid := map[]]), pid, Copying(0))
    case Copying(next) =>
      if pid !in s.temps then s' == At(s, pid, CleaningUp)
      else if next >= |w.entries| then s' == At(s, pid, Patching)
      else
        var path := w.entries[next];
        s' == At(s.(temps := s.temps[pid := s.temps[pid][path := w.source[path]]]), pid, Copying(next + 1))
    case Patching =>
      if pid !in s.temps then s' == At(s, pid, CleaningUp)
      else s' == At(s.(temps := s.temps[pid := s.temps[pid][w.model := Overlaid(w.source[w.model], w.reps)]]), pid,
          Summing)
    case Summing =>
      if pid !in s.temps || exists p :: p in w.entries && p !in s.temps[pid] then s' == At(s, pid, CleaningUp)
      else s' == At(s, pid, Deciding(ManifestOf(s.temps[pid], w.entries)))
    case Deciding(generated) =>
      if s.manifest.Some? then
        s' == At(s, pid, if s.manifest.value == generated then Verifying else CleaningUp)
      else if pid in s.notes then s' == At(s, pid, CleaningUp)
      else s' == At(s.(notes := s.notes[pid := []]), pid, Writing(generated))
    case Writing(generated) =>
      // `os.replace` of the finished temporary file onto the manifest.
      s' == At(s.(manifest := Some(generated), notes := s.notes - {pid}), pid, Verifying)
    case Verifying =>
      if pid in s.temps && s.manifest.Some? && Verifies(s.temps[pid], s.manifest.value)
         && SemanticallyCorrect(w, s.manifest.value)
      then s' == At(s, pid, Publishing) else s' == At(s, pid, CleaningUp)
    case Publishing =>
      // A directory is not renamed over a directory that holds files.
      if s.target.Some? || pid !in s.temps then s' == At(s, pid, CleaningUp)
      else s' == Gone(s.(target := Some(s.temps[pid]), temps := s.temps - {pid}), pid)
    case CleaningUp =>
      s' == Gone(s.(temps := s.temps - {pid}), pid)
  }

  ghost predicate Step(w: World, s: State, pid: nat, action: Action, s': State)
    requires ValidWorld(w)
  {
    match action
    case Spawn(bootstrap) => pid !in s.procs && s' == s.(procs := s.procs[pid := Proc(bootstrap, Begin)])
    case Crash => pid in s.procs && s' == Gone(s, pid)
    case Raise =>
      pid in s.procs
      && (match s.procs[pid].pc
          case Begin => s' == Gone(s, pid)
          case Unclaimed => s' == Gone(s, pid)
          case CleaningUp => s' == Gone(s, pid)
          case Writing(_) => s' == At(s.(notes := s.notes - {pid}), pid, CleaningUp)
          case _ => s' == At(s, pid, CleaningUp))
    case Scribble(path, bytes) =>
      && pid in s.procs && pid in s.temps
      && ((s.procs[pid].pc.Copying? && s.procs[pid].pc.next < |w.entries| && path == w.entries[s.procs[pid].pc.next])
          || (s.procs[pid].pc.Patching? && path == w.model))
      && s' == s.(temps := s.temps[pid := s.temps[pid][path := bytes]])
    case RemoveOne(path) =>
      && pid in s.procs && pid in s.temps && s.procs[pid].pc.CleaningUp?
      && s' == s.(temps := s.temps[pid := s.temps[pid] - {path}])
    case Advance => pid in s.procs && Advances(w, s, pid, s')
  }

  ghost predicate Next(w: World, s: State, s': State)
    requires ValidWorld(w)
  {
    exists pid, action :: Step(w, s, pid, action, s')
  }

  /** Consecutive states of a run. */
  ghost predicate Run(w: World, run: seq<State>)
    requires ValidWorld(w)
  {
    run != [] && forall i | 0 <= i < |run| - 1 :: Next(w, run[i], run[i + 1])
  }

  ghost predicate Initial(w: World, s: State) {
    s.source == w.source && s.target == None && s.procs == map[]
  }

  // ----- the invariant -----

  function Generated(w: World): Manifest
    requires ValidWorld(w)
  {
    ManifestOf(Corrected(w), w.entries)
  }

  /** What a live process's private directory holds at each point. */
  ghost predicate ProcOk(w: World, s: State, pid: nat)
    requires ValidWorld(w) && pid in s.procs
  {
    var me := s.procs[pid];
    && (!me.bootstrap && Claims(me) ==> s.manifest.Some?)
    && match me.pc
       case Begin => true
       case Unclaimed => true
       case Copying(next) =>
         && pid in s.temps && next <= |w.entries|
         && (forall p | p in s.temps[pid] :: p in w.entries)
         && (forall i | 0 <= i < next ::
                   w.entries[i] in s.temps[pid] && s.temps[pid][w.entries[i]] == w.source[w.entries[i]])
       case Patching =>
         && pid in s.temps && s.temps[pid].Keys == (set p | p in w.entries)
         && (forall p | p in w.entries && p != w.model :: s.temps[pid][p] == w.source[p])
       case Summing => pid in s.temps && s.temps[pid] == Corrected(w)
       case Deciding(generated) => pid in s.temps && s.temps[pid] == Corrected(w) && generated == Generated(w)
       case Writing(generated) =>
         pid in s.temps && s.temps[pid] == Corrected(w) && generated == Generated(w) && me.bootstrap
       case Verifying => pid in s.temps && s.temps[pid] == Corrected(w) && s.manifest == Some(Generated(w))
       case Publishing =>
         && pid in s.temps && s.temps[pid] == Corrected(w) && s.manifest == Some(Generated(w))
         && SemanticallyCorrect(w, Generated(w))
       case CleaningUp => true
  }

  /** `first` is the manifest the run started with. */
  ghost predicate Inv(w: World, first: Option<Manifest>, s: State)
    requires ValidWorld(w)
  {
    && s.source == w.source
    && (s.manifest == first || (first == None && s.manifest == Some(Generated(w))))
    && (s.target.Some? ==>
          s.target.value == Corrected(w) && s.manifest == Some(Generated(w)) && SemanticallyCorrect(w, Generated(w)))
    && (forall pid | pid in s.procs ::
              ProcOk(w, s, pid) && (Claims(s.procs[pid]) && s.procs[pid].bootstrap ==> first == None))
  }

  /** The process is past its initial checks. */
  predicate Claims(p: Proc) {
    !p.pc.Begin? && !p.pc.CleaningUp?
  }

  /** A process does not care what the others do, as long as its own directory and the manifest stay. */
  lemma {:induction false} ProcUndisturbed(w: World, s: State, s': State, pid: nat)
    requires ValidWorld(w) && pid in s.procs && pid in s'.procs && s'.procs[pid] == s.procs[pid]
    requires ProcOk(w, s, pid)
    requires pid in s.temps ==> pid in s'.temps && s'.temps[pid] == s.temps[pid]
    requires s.manifest.Some? ==> s'.manifest == s.manifest
    ensures ProcOk(w, s', pid)
  {
  }

  lemma {:induction false} CopiedEverything(w: World, dir: Dir)
    requires ValidWorld(w)
    requires forall p | p in dir :: p in w.entries
    requires forall i | 0 <= i < |w.entries| :: w.entries[i] in dir && dir[w.entries[i]] == w.source[w.entries[i]]
    ensures dir.Keys == (set p | p in w.entries)
    ensures forall p | p in w.entries :: dir[p] == w.source[p]
  {
  }

  lemma {:induction false} PatchedIsCorrected(w: World, dir: Dir)
    requires ValidWorld(w) && dir.Keys == (set p | p in w.entries)
    requires forall p | p in w.entries && p != w.model :: dir[p] == w.source[p]
    ensures dir[w.model := Overlaid(w.source[w.model], w.reps)] == Corrected(w)
  {
    var patched := dir[w.model := Overlaid(w.source[w.model], w.reps)];
    assert patched.Keys == Corrected(w).Keys;
  }

  /** What one step of a process may do to the shared state, and must do to its own line of the invariant. */
  ghost predicate SafeStep(w: World, first: Option<Manifest>, s: State, pid: nat, s': State)
    requires ValidWorld(w)
  {
    && (s.manifest.Some? ==> s'.manifest == s.manifest)
    && (s.target.Some? ==> s'.target == s.target)
    && s'.source == s.source
    && (s'.manifest != s.manifest ==>
          pid in s.procs && s.procs[pid].bootstrap && s'.manifest == Some(Generated(w)) && first == None)
    && (s'.target != s.target ==>
          s'.target == Some(Corrected(w)) && s'.manifest == Some(Generated(w)) && SemanticallyCorrect(w, Generated(w)))
    && (pid in s'.procs ==>
          ProcOk(w, s', pid) && (Claims(s'.procs[pid]) && s'.procs[pid].bootstrap ==> first == None))
  }

  /** No step touches another process or its directory. */
  lemma {:induction false} StepLeavesOthers(w: World, s: State, pid: nat, action: Action, s': State, q: nat)
    requires ValidWorld(w) && Step(w, s, pid, action, s') && q != pid
    ensures q in s'.procs <==> q in s.procs
    ensures q in s.procs ==> s'.procs[q] == s.procs[q]
    ensures q in s.temps ==> q in s'.temps && s'.temps[q] == s.temps[q]
  {
    if action.Advance? {
      AdvanceLeavesOthers(w, s, pid, s', q);
    }
  }

  lemma {:induction false} AdvanceLeavesOthers(w: World, s: State, pid: nat, s': State, q: nat)
    requires ValidWorld(w) && pid in s.procs && Advances(w, s, pid, s') && q != pid
    ensures q in s'.procs <==> q in s.procs
    ensures q in s.procs ==> s'.procs[q] == s.procs[q]
    ensures q in s.temps ==> q in s'.temps && s'.temps[q] == s.temps[q]
  {
    var pc := s.procs[pid].pc;
    if pc.Begin? || pc.Unclaimed? || pc.Copying? || pc.Patching? || pc.Summing? {
      EarlyAdvanceLeavesOthers(w, s, pid, s', q);
    }
  }

  lemma {:induction false} EarlyAdvanceLeavesOthers(w: World, s: State, pid: nat, s': State, q: nat)
    requires ValidWorld(w) && pid in s.procs && Advances(w, s, pid, s') && q != pid
    requires var pc := s.procs[pid].pc; pc.Begin? || pc.Unclaimed? || pc.Copying? || pc.Patching? || pc.Summing?
    ensures q in s'.procs <==> q in s.procs
    ensures q in s.procs ==> s'.procs[q] == s.procs[q]
    ensures q in s.temps ==> q in s'.temps && s'.temps[q] == s.temps[q]
  {
    match s.procs[pid].pc
    case Copying(_) =>
    case Patching =>
    case _ =>
  }

  lemma {:induction false} ChecksAreSafe(w: World, first: Option<Manifest>, s: State, pid: nat, s': State)
    requires ValidWorld(w) && Inv(w, first, s) && pid in s.procs && Advances(w, s, pid, s')
    requires s.procs[pid].pc.Begin? || s.procs[pid].pc.Unclaimed?
    ensures SafeStep(w, first, s, pid, s')
  {
    assert ProcOk(w, s, pid);
  }

  lemma {:induction false} CopyIsSafe(w: World, first: Option<Manifest>, s: State, pid: nat, s': State)
    requires ValidWorld(w) && Inv(w, first, s) && pid in s.procs && Advances(w, s, pid, s')
    requires s.procs[pid].pc.Copying?
    ensures SafeStep(w, first, s, pid, s')
  {
    assert ProcOk(w, s, pid);
    var next := s.procs[pid].pc.next;
    if next >= |w.entries| {
      CopiedAllIsSafe(w, first, s, pid, s');
    } else {
      CopiedOneIsSafe(w, first, s, pid, next, s');
    }
  }

  lemma {:induction false} CopiedAllIsSafe(w: World, first: Option<Manifest>, s: State, pid: nat, s': State)
    requires ValidWorld(w) && Inv(w, first, s) && pid in s.procs && ProcOk(w, s, pid)
    requires s.procs[pid].pc.Copying? && s.procs[pid].pc.next >= |w.entries| && s' == At(s, pid, Patching)
    ensures SafeStep(w, first, s, pid, s')
  {
    CopiedEverything(w, s.temps[pid]);
  }

  lemma {:induction false} CopiedOneIsSafe(w: World, first: Option<Manifest>, s: State, pid: nat, next: nat, s': State)
    requires ValidWorld(w) && Inv(w, first, s) && pid in s.procs && ProcOk(w, s, pid)
    requires s.procs[pid].pc == Copying(next) && next < |w.entries|
    requires var path := w.entries[next];
             s' == At(s.(temps := s.temps[pid := s.temps[pid][path := w.source[path]]]), pid, Copying(next + 1))
    ensures SafeStep(w, first, s, pid, s')
  {
  }

  lemma {:induction false} PatchIsSafe(w: World, first: Option<Manifest>, s: State, pid: nat, s': State)
    requires ValidWorld(w) && Inv(w, first, s) && pid in s.procs && Advances(w, s, pid, s')
    requires s.procs[pid].pc.Patching? || s.procs[pid].pc.Summing?
    ensures SafeStep(w, first, s, pid, s')
  {
    assert ProcOk(w, s, pid);
    if s.procs[pid].pc.Patching? {
      PatchedIsCorrected(w, s.temps[pid]);
    }
  }

  lemma {:induction false} DecideIsSafe(w: World, first: Option<Manifest>, s: State, pid: nat, s': State)
    requires ValidWorld(w) && Inv(w, first, s) && pid in s.procs && Advances(w, s, pid, s')
    requires s.procs[pid].pc.Deciding? || s.procs[pid].pc.Writing?
    ensures SafeStep(w, first, s, pid, s')
  {
    assert ProcOk(w, s, pid);
  }

  lemma {:induction false} PublishIsSafe(w: World, first: Option<Manifest>, s: State, pid: nat, s': State)
    requires ValidWorld(w) && Inv(w, first, s) && pid in s.procs && Advances(w, s, pid, s')
    requires s.procs[pid].pc.Verifying? || s.procs[pid].pc.Publishing? || s.procs[pid].pc.CleaningUp?
    ensures SafeStep(w, first, s, pid, s')
  {
    assert ProcOk(w, s, pid);
  }

  lemma {:induction false} StepIsSafe(w: World, first: Option<Manifest>, s: State, pid: nat, action: Action, s': State)
    requires ValidWorld(w) && Inv(w, first, s) && Step(w, s, pid, action, s')
    ensures SafeStep(w, first, s, pid, s')
  {
    if action.Advance? {
      match s.procs[pid].pc
      case Begin => ChecksAreSafe(w, first, s, pid, s');
      case Unclaimed => ChecksAreSafe(w, first, s, pid, s');
      case Copying(_) => CopyIsSafe(w, first, s, pid, s');
      case Patching => PatchIsSafe(w, first, s, pid, s');
      case Summing => PatchIsSafe(w, first, s, pid, s');
      case Deciding(_) => DecideIsSafe(w, first, s, pid, s');
      case Writing(_) => DecideIsSafe(w, first, s, pid, s');
      case _ => PublishIsSafe(w, first, s, pid, s');
    } else {
      InterruptionIsSafe(w, first, s, pid, action, s');
    }
  }

  lemma {:induction false} InterruptionIsSafe(w: World, first: Option<Manifest>, s: State, pid: nat, action: Action,
                                              s': State)
    requires ValidWorld(w) && Inv(w, first, s) && Step(w, s, pid, action, s') && !action.Advance?
    ensures SafeStep(w, first, s, pid, s')
  {
    if pid in s.procs {
      assert ProcOk(w, s, pid);
    }
  }

  lemma {:induction false} StepKeepsInv(w: World, first: Option<Manifest>, s: State, pid: nat, action: Action,
                                        s': State)
    requires ValidWorld(w) && Inv(w, first, s) && Step(w, s, pid, action, s')
    ensures Inv(w, first, s')
  {
    StepIsSafe(w, first, s, pid, action, s');
    forall q | q in s'.procs && q != pid
      ensures ProcOk(w, s', q) && (Claims(s'.procs[q]) && s'.procs[q].bootstrap ==> first == None)
    {
      StepLeavesOthers(w, s, pid, action, s', q);
      ProcUndisturbed(w, s, s', q);
    }
  }

  lemma {:induction false} RunKeepsInv(w: World, first: Option<Manifest>, run: seq<State>)
    requires ValidWorld(w) && Run(w, run) && Inv(w, first, run[0])
    ensures forall i | 0 <= i < |run| :: Inv(w, first, run[i])
    decreases |run|
  {
    if |run| > 1 {
      var init := run[..|run| - 1];
      assert forall i | 0 <= i < |init| - 1 :: Next(w, init[i], init[i + 1]) by {
        forall i | 0 <= i < |init| - 1 ensures Next(w, init[i], init[i + 1]) {
          assert Next(w, run[i], run[i + 1]);
        }
      }
      RunKeepsInv(w, first, init);
      var i := |run| - 2;
      assert Next(w, run[i], run[i + 1]) && Inv(w, first, init[i]);
      var pid, action :| Step(w, run[i], pid, action, run[i + 1]);
      StepKeepsInv(w, first, run[i], pid, action, run[i + 1]);
    }
  }

  // ----- safety over whole runs -----

  lemma {:induction false} ManifestVerifies(dir: Dir, entries: seq<string>)
    requires forall p | p in entries :: p in dir
    ensures Verifies(dir, ManifestOf(dir, entries)) && PathsIn(ManifestOf(dir, entries)) == entries
    decreases |entries|
  {
    if entries != [] {
      ManifestVerifies(dir, entries[1..]);
    }
  }

  /** MAIN: in every run from no target -- crashes, exceptions and rival processes included -- the source is
      never written, and a target that exists is the fully verified corrected snapshot: each path as in the
      source, the model with exactly the official bytes substituted. */
  lemma {:induction false} PublishedIsCorrected(w: World, run: seq<State>, i: nat)
    requires ValidWorld(w) && Run(w, run) && Initial(w, run[0]) && i < |run|
    ensures run[i].source == w.source
    ensures run[i].target.Some? ==>
              && run[i].manifest.Some?
              && Verifies(run[i].target.value, run[i].manifest.value)
              && SemanticallyCorrect(w, run[i].manifest.value)
              && PathsIn(run[i].manifest.value) == w.entries
              && (forall p | p in w.entries && p != w.model ::
                        p in run[i].target.value && run[i].target.value[p] == w.source[p])
              && w.model in run[i].target.value && Disjoint(w.reps)
              && Substitutes(run[i].target.value[w.model], w.source[w.model], w.reps)
  {
    RunKeepsInv(w, run[0].manifest, run);
    assert Inv(w, run[0].manifest, run[i]);
    if run[i].target.Some? {
      ManifestVerifies(Corrected(w), w.entries);
      InPlaceEqualsStream(w.source[w.model], w.reps);
    }
  }

  /** What is published in one state is published unchanged in the other. */
  predicate Keeps(s: State, s': State) {
    (s.manifest.Some? ==> s'.manifest == s.manifest) && (s.target.Some? ==> s'.target == s.target)
  }

  lemma {:induction false} NextKeeps(w: World, first: Option<Manifest>, s: State, s': State)
    requires ValidWorld(w) && Inv(w, first, s) && Next(w, s, s')
    ensures Keeps(s, s')
  {
    var pid, action :| Step(w, s, pid, action, s');
    StepIsSafe(w, first, s, pid, action, s');
  }

  lemma {:induction false} KeepsAlong(run: seq<State>, i: nat, j: nat)
    requires i <= j < |run| && forall k | 0 <= k < |run| - 1 :: Keeps(run[k], run[k + 1])
    ensures Keeps(run[i], run[j])
    decreases j - i
  {
    if i < j {
      KeepsAlong(run, i, j - 1);
      var k := j - 1;
      assert Keeps(run[k], run[k + 1]);
    }
  }

  lemma {:induction false} PublishedPersists(w: World, first: Option<Manifest>, run: seq<State>, i: nat, j: nat)
    requires ValidWorld(w) && Run(w, run) && Inv(w, first, run[0]) && i <= j < |run|
    ensures Keeps(run[i], run[j])
  {
    RunKeepsInv(w, first, run);
    forall k | 0 <= k < |run| - 1 ensures Keeps(run[k], run[k + 1]) {
      assert Next(w, run[k], run[k + 1]);
      NextKeeps(w, first, run[k], run[k + 1]);
    }
    KeepsAlong(run, i, j);
  }

  /** MAIN: neither a manifest nor a target, once there, ever changes. */
  lemma {:induction false} NothingPublishedChanges(w: World, run: seq<State>, i: nat, j: nat)
    requires ValidWorld(w) && Run(w, run) && Initial(w, run[0]) && i <= j < |run|
    ensures Keeps(run[i], run[j])
  {
    PublishedPersists(w, run[0].manifest, run, i, j);
  }

  /** MAIN: only a run that was started to bootstrap ever writes the manifest. */
  lemma {:induction false} OnlyBootstrapWritesManifest(w: World, run: seq<State>, j: nat, pid: nat, action: Action)
    requires ValidWorld(w) && Run(w, run) && Initial(w, run[0]) && j + 1 < |run|
    requires Step(w, run[j], pid, action, run[j + 1]) && run[j + 1].manifest != run[j].manifest
    ensures pid in run[j].procs && run[j].procs[pid].bootstrap
    ensures run[0].manifest == None && run[j].manifest == None && run[j + 1].manifest == Some(Generated(w))
  {
    RunKeepsInv(w, run[0].manifest, run);
    assert Inv(w, run[0].manifest, run[j]);
    StepIsSafe(w, run[0].manifest, run[j], pid, action, run[j + 1]);
  }

  // ----- a fresh process can always publish -----

  /** One more step at the end of a run. */
  lemma {:induction false} Extend(w: World, run: seq<State>, pid: nat, action: Action, s': State)
    returns (longer: seq<State>)
    requires ValidWorld(w) && Run(w, run) && Step(w, run[|run| - 1], pid, action, s')
    ensures Run(w, longer) && longer[0] == run[0] && longer[|longer| - 1] == s'
  {
    longer := run + [s'];
    forall i | 0 <= i < |longer| - 1 ensures Next(w, longer[i], longer[i + 1]) {
      if i < |run| - 1 {
        assert Next(w, run[i], run[i + 1]);
      }
    }
  }

  function Last(run: seq<State>): State
    requires run != []
  {
    run[|run| - 1]
  }

  /** The copy loop, run to its end without interruption. */
  lemma {:induction false} CopyAll(w: World, run: seq<State>, pid: nat, next: nat) returns (longer: seq<State>)
    requires ValidWorld(w) && Run(w, run) && pid in Last(run).procs && pid in Last(run).temps && next <= |w.entries|
    requires Last(run).procs[pid].pc == Copying(next)
    requires forall p | p in Last(run).temps[pid] :: p in w.entries
    requires forall i | 0 <= i < next ::
               w.entries[i] in Last(run).temps[pid] && Last(run).temps[pid][w.entries[i]] == w.source[w.entries[i]]
    ensures Run(w, longer) && longer[0] == run[0] && pid in Last(longer).procs && pid in Last(longer).temps
    ensures Last(longer).procs[pid] == Last(run).procs[pid].(pc := Patching)
    ensures Last(longer).manifest == Last(run).manifest && Last(longer).target == Last(run).target
    ensures Last(longer).notes == Last(run).notes
    ensures Last(longer).temps[pid].Keys == (set p | p in w.entries)
    ensures forall p | p in w.entries :: Last(longer).temps[pid][p] == w.source[p]
    decreases |w.entries| - next
  {
    var s := Last(run);
    if next == |w.entries| {
      CopiedEverything(w, s.temps[pid]);
      longer := Extend(w, run, pid, Advance, At(s, pid, Patching));
    } else {
      var path := w.entries[next];
      var s' := At(s.(temps := s.temps[pid := s.temps[pid][path := w.source[path]]]), pid, Copying(next + 1));
      var one := Extend(w, run, pid, Advance, s');
      longer := CopyAll(w, one, pid, next + 1);
    }
  }

  lemma {:induction false} Go(w: World, run: seq<State>, pid: nat, s': State) returns (longer: seq<State>)
    requires ValidWorld(w) && Run(w, run) && pid in Last(run).procs && Advances(w, Last(run), pid, s')
    ensures Run(w, longer) && longer[0] == run[0] && Last(longer) == s'
  {
    longer := Extend(w, run, pid, Advance, s');
  }

  /** The manifest is written, or found to be the generated one. */
  lemma {:induction false} Decide(w: World, run: seq<State>, pid: nat) returns (longer: seq<State>)
    requires ValidWorld(w) && Run(w, run) && pid in Last(run).procs && pid !in Last(run).notes
    requires Last(run).procs[pid].pc == Deciding(Generated(w))
    requires Last(run).manifest == None || Last(run).manifest == Some(Generated(w))
    ensures Run(w, longer) && longer[0] == run[0] && pid in Last(longer).procs
        && Last(longer).procs[pid].pc == Verifying
    ensures Last(longer).manifest == Some(Generated(w)) && Last(longer).target == Last(run).target
    ensures Last(longer).temps == Last(run).temps
  {
    var s := Last(run);
    if s.manifest == None {
      var s1 := At(s.(notes := s.notes[pid := []]), pid, Writing(Generated(w)));
      longer := Go(w, run, pid, s1);
      longer := Go(w, longer, pid, At(s1.(manifest := Some(Generated(w)), notes := s1.notes - {pid}), pid, Verifying));
    } else {
      longer := Go(w, run, pid, At(s, pid, Verifying));
    }
  }

  /** The snapshot verifies and is renamed into place. */
  lemma {:induction false} VerifyAndRename(w: World, run: seq<State>, pid: nat) returns (longer: seq<State>)
    requires ValidWorld(w) && Run(w, run) && pid in Last(run).procs && pid in Last(run).temps
    requires Last(run).procs[pid].pc == Verifying && Last(run).temps[pid] == Corrected(w)
    requires Last(run).target == None && Last(run).manifest == Some(Generated(w))
    requires SemanticallyCorrect(w, Generated(w))
    ensures Run(w, longer) && longer[0] == run[0] && Last(longer).target == Some(Corrected(w))
  {
    ManifestVerifies(Corrected(w), w.entries);
    var s := At(Last(run), pid, Publishing);
    longer := Go(w, run, pid, s);
    longer := Go(w, longer, pid, Gone(s.(target := Some(s.temps[pid]), temps := s.temps - {pid}), pid));
  }

  lemma {:induction false} ManifestNames(dir: Dir, entries: seq<string>, path: string)
    requires (forall p | p in entries :: p in dir) && path in entries
    ensures (Sha256(dir[path]), path) in ManifestOf(dir, entries)
    decreases |entries|
  {
    if path != entries[0] {
      ManifestNames(dir, entries[1..], path);
    }
  }

  /** The corrected snapshot's own manifest passes the semantic check exactly for disjoint ranges. */
  lemma {:induction false} GeneratedIsCorrect(w: World)
    requires ValidWorld(w)
    ensures SemanticallyCorrect(w, Generated(w)) <==> Disjoint(w.reps)
  {
    InPlaceEqualsStream(w.source[w.model], w.reps);
    ManifestNames(Corrected(w), w.entries, w.model);
  }

  /** A fresh process starts, finds no target, and makes its directory. */
  lemma {:induction false} Claim(w: World, s: State, pid: nat) returns (run: seq<State>)
    requires ValidWorld(w) && s.target == None && pid !in s.procs && pid !in s.temps
    requires s.manifest == None || PathsIn(s.manifest.value) == w.entries
    ensures Run(w, run) && run[0] == s && pid in Last(run).procs && pid in Last(run).temps
    ensures Last(run).procs[pid].pc == Copying(0) && Last(run).temps[pid] == map[]
    ensures Last(run).manifest == s.manifest && Last(run).target == None && Last(run).notes == s.notes
  {
    run := [s];
    var s1 := s.(procs := s.procs[pid := Proc(s.manifest == None, Begin)]);
    run := Extend(w, run, pid, Spawn(s.manifest == None), s1);
    var s2 := At(s1, pid, Unclaimed);
    run := Go(w, run, pid, s2);
    run := Go(w, run, pid, At(s2.(temps := s2.temps[pid := map[]]), pid, Copying(0)));
  }

  /** The copied snapshot is patched and summed. */
  lemma {:induction false} PatchAndSum(w: World, run: seq<State>, pid: nat) returns (longer: seq<State>)
    requires ValidWorld(w) && Run(w, run) && pid in Last(run).procs && pid in Last(run).temps
    requires Last(run).procs[pid].pc == Patching
    requires Last(run).temps[pid].Keys == (set p | p in w.entries)
    requires forall p | p in w.entries :: Last(run).temps[pid][p] == w.source[p]
    ensures Run(w, longer) && longer[0] == run[0] && pid in Last(longer).procs && pid in Last(longer).temps
    ensures Last(longer).procs[pid].pc == Deciding(Generated(w)) && Last(longer).temps[pid] == Corrected(w)
    ensures Last(longer).manifest == Last(run).manifest && Last(longer).target == Last(run).target
    ensures Last(longer).notes == Last(run).notes
  {
    var s := Last(run);
    PatchedIsCorrected(w, s.temps[pid]);
    var s1 := At(s.(temps := s.temps[pid := s.temps[pid][w.model := Overlaid(w.source[w.model], w.reps)]]), pid,
        Summing);
    longer := Go(w, run, pid, s1);
    assert forall p | p in w.entries :: p in s1.temps[pid];
    longer := Go(w, longer, pid, At(s1, pid, Deciding(Generated(w))));
  }

  /** A fresh process, left alone, takes the protocol from any reachable state to a published target. */
  lemma {:induction false} FreshRunPublishes(w: World, s: State, pid: nat) returns (run: seq<State>)
    requires ValidWorld(w) && s.target == None && Disjoint(w.reps)
    requires s.manifest == None || s.manifest == Some(Generated(w))
    requires pid !in s.procs && pid !in s.temps && pid !in s.notes
    ensures Run(w, run) && run[0] == s && Last(run).target == Some(Corrected(w))
  {
    ManifestVerifies(Corrected(w), w.entries);
    GeneratedIsCorrect(w);
    run := Claim(w, s, pid);
    run := CopyAll(w, run, pid, 0);
    run := PatchAndSum(w, run, pid);
    run := Decide(w, run, pid);
    run := VerifyAndRename(w, run, pid);
  }

  /** MAIN: from any reachable state without a target -- whatever crashed runs left behind -- the snapshot can
      still be published exactly when the ranges are disjoint and no foreign manifest is pinned. */
  lemma {:induction false} PublishableExactly(w: World, first: Option<Manifest>, s: State, pid: nat)
    requires ValidWorld(w) && Inv(w, first, s) && s.target == None
    requires pid !in s.procs && pid !in s.temps && pid !in s.notes
    ensures (exists run :: Run(w, run) && run[0] == s && Last(run).target.Some?)
       <==> (Disjoint(w.reps) && (s.manifest == None || s.manifest == Some(Generated(w))))
  {
    if Disjoint(w.reps) && (s.manifest == None || s.manifest == Some(Generated(w))) {
      var run := FreshRunPublishes(w, s, pid);
      assert Last(run).target.Some?;
    }
    if run :| Run(w, run) && run[0] == s && Last(run).target.Some? {
      RunKeepsInv(w, first, run);
      assert Inv(w, first, run[|run| - 1]);
      GeneratedIsCorrect(w);
      PublishedPersists(w, first, run, 0, |run| - 1);
    }
  }
}
