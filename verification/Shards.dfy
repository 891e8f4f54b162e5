/** The reviewed-test runner (`scripts/reviewed_tests_plugin.py`): shares of the reviewed files, the fork test, each
    shard's accounting, and the merged verdict. */
module Shards {
  import opened Wrappers

  // ----- shares -----

  /** `every[index - 1 :: count]` */
  function Share<T>(every: seq<T>, index: nat, count: nat): seq<T>
    requires 0 < index <= count
    decreases |every|
  {
    if index > |every| then []
    else [every[index - 1]] + (if count > |every| then [] else Share(every[count..], index, count))
  }

  /** The elements of the shares from the first to share `upTo`. */
  function Shares<T>(every: seq<T>, upTo: nat, count: nat): multiset<T>
    requires upTo <= count
  {
    if upTo == 0 then multiset{} else Shares(every, upTo - 1, count) + multiset(Share(every, upTo, count))
  }

  lemma {:induction false} OneMore<T>(every: seq<T>, n: nat)
    requires 0 < n <= |every|
    ensures multiset(every[..n]) == multiset(every[..n - 1]) + multiset{every[n - 1]}
  {
    assert every[..n] == every[..n - 1] + [every[n - 1]];
  }

  lemma {:induction false} ShareOfFew<T>(every: seq<T>, index: nat, count: nat)
    requires 0 < index <= count && |every| < count
    ensures multiset(Share(every, index, count)) == if index <= |every| then multiset{every[index - 1]} else multiset{}
  {
  }

  lemma {:induction false} ShareOfMany<T>(every: seq<T>, index: nat, count: nat)
    requires 0 < index <= count <= |every|
    ensures multiset(Share(every, index, count))
        == multiset{every[index - 1]} + multiset(Share(every[count..], index, count))
  {
    if count == |every| {
      assert every[count..] == [];
    }
  }

  /** One round: the shares take one element each, then share what is left. */
  lemma {:induction false} SharesStep<T>(every: seq<T>, upTo: nat, count: nat)
    requires 0 < count <= |every| && upTo <= count
    ensures Shares(every, upTo, count) == multiset(every[..upTo]) + Shares(every[count..], upTo, count)
    decreases upTo
  {
    if upTo > 0 {
      SharesStep(every, upTo - 1, count);
      OneMore(every, upTo);
      ShareOfMany(every, upTo, count);
      Regroup(multiset(every[..upTo - 1]), Shares(every[count..], upTo - 1, count), multiset{every[upTo - 1]},
              multiset(Share(every[count..], upTo, count)));
    }
  }

  lemma {:induction false} Regroup<T>(a: multiset<T>, b: multiset<T>, c: multiset<T>, d: multiset<T>)
    ensures (a + b) + (c + d) == (a + c) + (b + d)
  {
  }

  lemma {:induction false} SharesOfFew<T>(every: seq<T>, upTo: nat, count: nat)
    requires |every| < count && upTo <= count
    ensures Shares(every, upTo, count) == multiset(every[..if upTo < |every| then upTo else |every|])
    decreases upTo
  {
    if upTo > 0 {
      SharesOfFew(every, upTo - 1, count);
      ShareOfFew(every, upTo, count);
      if upTo <= |every| {
        OneMore(every, upTo);
      }
    }
  }

  /** MAIN: for every number of shares, the shares together are the files, each exactly once. */
  lemma {:induction false} SharesPartition<T>(every: seq<T>, count: nat)
    requires count > 0
    ensures Shares(every, count, count) == multiset(every)
    decreases |every|
  {
    if |every| < count {
      SharesOfFew(every, count, count);
      assert every[..|every|] == every;
    } else {
      SharesStep(every, count, count);
      SharesPartition(every[count..], count);
      assert every == every[..count] + every[count..];
    }
  }

  function Elements(s: seq<string>): set<string> {
    set x | x in s
  }

  /** Whatever is shared out is in one of the shares. */
  lemma {:induction false} InSomeShare<T>(every: seq<T>, count: nat, x: T) returns (index: nat)
    requires count > 0 && x in every
    ensures 0 < index <= count && x in Share(every, index, count)
  {
    SharesPartition(every, count);
    assert x in multiset(every);
    index := count;
    assert Shares(every, 0, count) == multiset{};
    while x !in multiset(Share(every, index, count))
      invariant 0 < index <= count && x in Shares(every, index, count)
      decreases index
    {
      index := index - 1;
    }
  }

  // ----- the fork test -----

  /** A function object: whether its code is the fork wrapper's, and what it wraps. */
  datatype Function = Function(isForkWrapper: bool, wrapped: Option<nat>)

  /** Function objects by identity; each wraps an object that exists. */
  type Objects = map<nat, Function>

  ghost predicate ClosedObjects(objects: Objects) {
    forall id | id in objects && objects[id].wrapped.Some? :: objects[id].wrapped.value in objects
  }

  /** The function itself, what it wraps, what that wraps, and so on. */
  function Unwrapped(objects: Objects, function': Option<nat>, n: nat): Option<nat> {
    if n == 0 then function'
    else
      match Unwrapped(objects, function', n - 1)
      case None => None
      case Some(id) => if id in objects then objects[id].wrapped else None
  }

  ghost predicate WrapsAFork(objects: Objects, function': Option<nat>) {
    exists n :: ForksAt(objects, Unwrapped(objects, function', n))
  }

  predicate ForksAt(objects: Objects, id: Option<nat>) {
    id.Some? && id.value in objects && objects[id.value].isForkWrapper
  }

  /** A set without fork wrappers that unwrapping does not leave. */
  ghost predicate Harmless(objects: Objects, seen: set<nat>, current: Option<nat>) {
    forall id | id in seen ::
      && id in objects && !objects[id].isForkWrapper
      && (objects[id].wrapped == None || objects[id].wrapped.value in seen || objects[id].wrapped == current)
  }

  lemma {:induction false} NeverLeaves(objects: Objects, seen: set<nat>, function': Option<nat>,
                                       current: Option<nat>, n: nat)
    requires Harmless(objects, seen, current) && (current == None || current.value in seen)
    requires function' == None || function'.value in seen
    ensures Unwrapped(objects, function', n) == None || Unwrapped(objects, function', n).value in seen
    ensures !ForksAt(objects, Unwrapped(objects, function', n))
  {
    if n > 0 { NeverLeaves(objects, seen, function', current, n - 1); }
  }

  /** `_runs_in_a_fork`: right for every chain of wrappers, and finished even on a cyclic one. */
  method RunsInAFork(objects: Objects, function': Option<nat>) returns (r: bool)
    requires ClosedObjects(objects) && (function'.Some? ==> function'.value in objects)
    ensures r <==> WrapsAFork(objects, function')
  {
    var seen: set<nat>, current := {}, function';
    ghost var n := 0;
    while current.Some? && current.value !in seen
      invariant current == Unwrapped(objects, function', n) && (current.Some? ==> current.value in objects)
      invariant Harmless(objects, seen, current) && seen <= objects.Keys
      invariant function' == None || function'.value in seen || current == function'
      decreases objects.Keys - seen
    {
      var id := current.value;
      seen := seen + {id};
      if objects[id].isForkWrapper {
        assert ForksAt(objects, Unwrapped(objects, function', n));
        return true;
      }
      current := objects[id].wrapped;
      n := n + 1;
    }
    forall k: nat ensures !ForksAt(objects, Unwrapped(objects, function', k)) {
      NeverLeaves(objects, seen, function', current, k);
    }
    r := false;
  }

  // ----- one shard's run -----

  datatype ReviewedSet = Offline | Release | Collection

  /** A collected test: its file, whether it is marked with a need, whether such a mark has arguments, and whether
      its function runs in a fork. */
  datatype Item = Item(nodeid: string, file: string, needs: bool, markArguments: bool, forks: bool)

  /** What a shard reports. */
  datatype Report = Report(
    reviewedSet: ReviewedSet,
    collected: set<string>,
    declared: set<string>,
    errors: set<string>,
    unaccounted: set<string>,
    forking: seq<string>,
    bad: nat)

  function FilesOf(items: seq<Item>): set<string> {
    set item | item in items :: item.file
  }

  function ForkingOf(items: seq<Item>): seq<string> {
    if items == [] then []
    else ForkingOf(items[..|items| - 1]) + (if items[|items| - 1].forks then [items[|items| - 1].nodeid] else [])
  }

  /** The tests left to run. */
  function Kept(items: seq<Item>, reviewedSet: ReviewedSet): seq<Item> {
    if items == [] then []
    else
      var last := items[|items| - 1];
      Kept(items[..|items| - 1], reviewedSet)
      + (if last.forks || (reviewedSet == Offline && last.needs) then [] else [last])
  }

  /** Tests of a file that name a need themselves. */
  function DeclaredTests(items: seq<Item>, file: string): nat {
    if items == [] then 0
    else
      var last := items[|items| - 1];
      DeclaredTests(items[..|items| - 1], file) + (if !last.forks && last.needs && last.file == file then 1 else 0)
  }

  class Run {
    const reviewedSet: ReviewedSet
    const reviewed: set<string>
    const support: set<string>
    var declaredModules: set<string>
    var declaredTests: map<string, nat>
    var collectedFiles: set<string>
    var collectedTests: nat
    var forking: seq<string>
    var collectionErrors: set<string>
    var unaccounted: set<string>

    constructor (reviewedSet: ReviewedSet, every: seq<string>, support: set<string>, index: nat, count: nat)
      requires every != [] && 0 < index <= count
      ensures this.reviewedSet == reviewedSet && this.support == support
      ensures reviewed == Elements(Share(every, index, count))
      ensures declaredModules == {} && declaredTests == map[] && collectedFiles == {} && collectedTests == 0
          && forking == []
      ensures collectionErrors == {} && unaccounted == {}
    {
      this.reviewedSet, this.support := reviewedSet, support;
      reviewed := Elements(Share(every, index, count));
      declaredModules, declaredTests, collectedFiles, collectedTests, forking := {}, map[], {}, 0, [];
      collectionErrors, unaccounted := {}, {};
    }

    /** `pytest_ignore_collect` on a test file: whether it is left uncollected. */
    method IgnoreCollect(file: string, needs: bool) returns (ignored: bool)
      modifies `declaredModules
      ensures ignored <==> file !in reviewed || (reviewedSet == Offline && needs)
      ensures declaredModules == old(declaredModules) + (if file in reviewed && ignored then {file} else {})
    {
      if file !in reviewed { return true; }
      if reviewedSet == Offline && needs {
        declaredModules := declaredModules + {file};
        return true;
      }
      ignored := false;
    }

    /** `pytest_collection_modifyitems`: no forking test is kept in any set, and offline none that declares a need. */
    method ModifyItems(items: seq<Item>) returns (ok: bool, kept: seq<Item>)
      modifies `declaredTests, `collectedFiles, `collectedTests, `forking
      ensures ok <==> forall i | 0 <= i < |items| :: !items[i].markArguments
      ensures ok ==>
                && collectedFiles == FilesOf(items) && collectedTests == |items|
                && kept == Kept(items, reviewedSet)
                && forking == (if ForkingOf(items) == [] then old(forking) else ForkingOf(items))
      ensures ok && reviewedSet == Offline ==>
                forall f :: Tests(declaredTests, f) == Tests(old(declaredTests), f) + DeclaredTests(items, f)
      ensures ok && reviewedSet != Offline ==> declaredTests == old(declaredTests)
    {
      if exists i | 0 <= i < |items| :: items[i].markArguments { return false, items; }
      collectedFiles, collectedTests := FilesOf(items), |items|;
      var found: seq<string> := [];
      kept := [];
      for i := 0 to |items|
        invariant collectedFiles == FilesOf(items) && collectedTests == |items| && forking == old(forking)
        invariant found == ForkingOf(items[..i]) && kept == Kept(items[..i], reviewedSet)
        invariant reviewedSet != Offline ==> declaredTests == old(declaredTests)
        invariant reviewedSet == Offline ==>
                    forall f :: Tests(declaredTests, f) == Tests(old(declaredTests), f) + DeclaredTests(items[..i], f)
      {
        var item := items[i];
        assert items[..i + 1][..i] == items[..i];
        if item.forks {
          found := found + [item.nodeid];
        } else if reviewedSet == Offline && item.needs {
          declaredTests := declaredTests[item.file := Tests(declaredTests, item.file) + 1];
        } else {
          kept := kept + [item];
        }
      }
      assert items[..|items|] == items;
      if found != [] { forking := found; }
      ok := true;
    }

    /** `pytest_sessionfinish`: the files with collection errors, the reviewed ones that nothing accounts for, and an
        exit status that is OK only if there are none of either and no forking test. */
    method FinishSession(uncollected: set<string>, skipping: set<string>, unbound: set<string>, exitOk: bool)
      returns (ok: bool)
      modifies `collectionErrors, `unaccounted
      ensures (reviewedSet != Offline ==> declaredModules == {})
          ==> forall bad: nat :: Accounts(Reported(bad), reviewed)
      ensures collectionErrors == uncollected + skipping
                                  + (if reviewedSet == Collection then unbound * (reviewed + support) else {})
      ensures unaccounted == reviewed - (collectedFiles + declaredModules + collectionErrors)
      ensures reviewedSet == Collection ==> (ok <==> collectionErrors == {} && unaccounted == {} && forking == [])
      ensures reviewedSet != Collection ==>
                (ok <==> exitOk && collectionErrors == {} && unaccounted == {} && forking == [])
    {
      var errors := uncollected + skipping;
      if reviewedSet == Collection {
        errors := errors + unbound * (reviewed + support);
      }
      collectionErrors := errors;
      var accounted := collectedFiles + declaredModules + collectionErrors;
      unaccounted := reviewed - accounted;
      var failed := collectionErrors != {} || unaccounted != {} || forking != [];
      ok := if reviewedSet == Collection then !failed else exitOk && !failed;
    }

    /** The report line; `bad` tests failed, errored or passed against a strict xfail. */
    function Reported(bad: nat): Report
      reads this
    {
      Report(reviewedSet, collectedFiles, declaredModules, collectionErrors, unaccounted, forking, bad)
    }
  }

  /** `_Run.__init__` on a shard option I/N: refused unless 1 <= I <= N and there is a reviewed file. */
  method Configure(reviewedSet: ReviewedSet, every: seq<string>, support: set<string>, index: int, count: int)
    returns (run: Run?)
    ensures run != null <==> every != [] && 0 < index <= count
    ensures run != null ==>
              fresh(run) && run.reviewed == Elements(Share(every, index, count)) && run.declaredModules == {}
  {
    if !(0 < index <= count) || every == [] { return null; }
    run := new Run(reviewedSet, every, support, index, count);
  }

  function Tests(counter: map<string, nat>, file: string): nat {
    if file in counter then counter[file] else 0
  }

  /** MAIN: what is kept to run never forks, and everything collected is kept, forks, or declares a need. */
  lemma {:induction false} KeptExactly(items: seq<Item>, reviewedSet: ReviewedSet, item: Item)
    ensures item in Kept(items, reviewedSet) <==>
              item in items && !item.forks && !(reviewedSet == Offline && item.needs)
    decreases |items|
  {
    if items != [] {
      var n := |items| - 1;
      KeptExactly(items[..n], reviewedSet, item);
      assert items == items[..n] + [items[n]];
    }
  }

  // ----- the merge -----

  /** A shard's report as `FinishSession` leaves it for its share. */
  ghost predicate Accounts(report: Report, mine: set<string>) {
    && report.unaccounted == mine - (report.collected + report.declared + report.errors)
    && (report.reviewedSet != Offline ==> report.declared == {})
  }

  datatype Verdict = Code(code: nat) | Crash

  /** What each shard's reports add to the verdict. */
  predicate Clean(report: Report) {
    && report.unaccounted == {} && report.errors == {} && report.forking == []
    && (report.reviewedSet != Collection ==> report.bad == 0)
  }

  /** One clean report in each log, all of one set. */
  ghost predicate AllClean(logs: seq<seq<Report>>) {
    && logs != [] && (forall i | 0 <= i < |logs| :: |logs[i]| == 1)
    && (forall i | 0 <= i < |logs| :: logs[i][0].reviewedSet == logs[0][0].reviewedSet)
    && forall i | 0 <= i < |logs| :: Clean(logs[i][0])
  }

  /** `_merge` on the report lines of each log. It crashes on shards of different sets. */
  method Merge(logs: seq<seq<Report>>) returns (v: Verdict)
    ensures v == Code(0) <==> AllClean(logs)
  {
    var reports: seq<Report> := [];
    for i := 0 to |logs|
      invariant |reports| == i && forall j | 0 <= j < i :: |logs[j]| == 1 && reports[j] == logs[j][0]
    {
      if |logs[i]| != 1 { return Code(1); }
      reports := reports + [logs[i][0]];
    }
    if reports == [] { return Crash; }
    var reviewedSet := reports[0].reviewedSet;
    if exists i | 0 <= i < |reports| :: reports[i].reviewedSet != reviewedSet { return Crash; }
    var unaccounted: set<string>, errors: set<string>, forking: seq<string>, bad: nat := {}, {}, [], 0;
    for i := 0 to |reports|
      invariant unaccounted == {} && errors == {} && forking == [] <==>
                  forall j | 0 <= j < i :: reports[j].unaccounted == {} && reports[j].errors == {}
                      && reports[j].forking == []
      invariant bad == 0 <==> forall j | 0 <= j < i :: reports[j].bad == 0
    {
      var r := reports[i];
      errors := errors + r.errors;
      forking := forking + r.forking;
      unaccounted := unaccounted + r.unaccounted;
      bad := bad + r.bad;
    }
    var broken := unaccounted != {} || errors != {} || forking != [];
    ghost var clean := forall i | 0 <= i < |reports| :: Clean(reports[i]);
    if reviewedSet == Collection {
      assert clean <==> !broken;
      return Code(if broken then 1 else 0);
    }
    assert clean <==> !broken && bad == 0;
    v := Code(if broken || bad != 0 then 1 else 0);
  }

  // ----- what a zero verdict says -----

  /** Log `i` holds the report of share `shares[i]` of `count`, which names no file outside that share. */
  ghost predicate FromShares(logs: seq<seq<Report>>, shares: seq<nat>, every: seq<string>, count: nat) {
    && |shares| == |logs|
    && forall i | 0 <= i < |logs| :: |logs[i]| == 1 && FromShare(logs[i][0], shares[i], every, count)
  }

  ghost predicate FromShare(report: Report, index: nat, every: seq<string>, count: nat) {
    && 0 < index <= count
    && Accounts(report, Elements(Share(every, index, count)))
    && report.collected + report.declared <= Elements(Share(every, index, count))
  }

  /** Some report says the file was collected, or -- offline only -- that its module declared a need. */
  ghost predicate Accounted(logs: seq<seq<Report>>, f: string) {
    exists i :: 0 <= i < |logs| && |logs[i]| == 1 && Names(logs[i][0], f)
  }

  predicate Names(report: Report, f: string) {
    f in report.collected || (report.reviewedSet == Offline && f in report.declared)
  }

  ghost predicate InReportedShare(every: seq<string>, shares: seq<nat>, count: nat, f: string) {
    exists index :: 0 < index <= count && index in shares && f in Share(every, index, count)
  }

  /** MAIN: behind a zero verdict a file is accounted for if and only if the share of some merged report has it. */
  lemma {:induction false} AccountedIsShared(every: seq<string>, logs: seq<seq<Report>>, shares: seq<nat>,
                                             count: nat, f: string)
    requires AllClean(logs) && FromShares(logs, shares, every, count)
    ensures Accounted(logs, f) <==> InReportedShare(every, shares, count, f)
  {
    if Accounted(logs, f) {
      var i :| 0 <= i < |logs| && |logs[i]| == 1 && Names(logs[i][0], f);
      NamedExactly(logs[i][0], shares[i], every, count, f);
      assert shares[i] in shares;
    }
    if InReportedShare(every, shares, count, f) {
      var index :| 0 < index <= count && index in shares && f in Share(every, index, count);
      var i :| 0 <= i < |shares| && shares[i] == index;
      NamedExactly(logs[i][0], index, every, count, f);
    }
  }

  /** A clean report names exactly the files of its share. */
  lemma {:induction false} NamedExactly(report: Report, index: nat, every: seq<string>, count: nat, f: string)
    requires Clean(report) && FromShare(report, index, every, count)
    ensures Names(report, f) <==> f in Share(every, index, count)
  {
    if f in Share(every, index, count) {
      assert f !in report.unaccounted;
    }
  }

  ghost predicate Distinct<T>(s: seq<T>) {
    forall i, j :: 0 <= i < j < |s| ==> s[i] != s[j]
  }

  lemma {:induction false} DistinctCount<T>(s: seq<T>, x: T)
    requires Distinct(s)
    ensures multiset(s)[x] <= 1
  {
    if s != [] {
      DistinctCount(s[1..], x);
      assert s == [s[0]] + s[1..];
      assert multiset(s) == multiset{s[0]} + multiset(s[1..]);
    }
  }

  /** How often the shares up to `upTo` have the element. */
  lemma {:induction false} OneMoreShare<T>(every: seq<T>, upTo: nat, count: nat, x: T)
    requires 0 < upTo <= count
    ensures Shares(every, upTo, count)[x] == Shares(every, upTo - 1, count)[x] + multiset(Share(every, upTo, count))[x]
  {
    Added(Shares(every, upTo - 1, count), multiset(Share(every, upTo, count)), x);
  }

  lemma {:induction false} Added<T>(a: multiset<T>, b: multiset<T>, x: T)
    ensures (a + b)[x] == a[x] + b[x]
  {
  }

  lemma {:induction false} SharesGrow<T>(every: seq<T>, few: nat, many: nat, count: nat, x: T, atFew: nat, atMany: nat)
    requires few <= many <= count
    requires atFew == Shares(every, few, count)[x] && atMany == Shares(every, many, count)[x]
    ensures atFew <= atMany
    decreases many
  {
    if few < many {
      OneMoreShare(every, many, count, x);
      SharesGrow(every, few, many - 1, count, x, atFew, Shares(every, many - 1, count)[x]);
    }
  }

  lemma {:induction false} ShareTimes<T>(every: seq<T>, index: nat, count: nat, x: T)
    requires 0 < index <= count
    ensures multiset(Share(every, index, count))[x] > 0 <==> x in Share(every, index, count)
  {
    Occurs(Share(every, index, count), x);
  }

  lemma {:induction false} Occurs<T>(s: seq<T>, x: T)
    ensures multiset(s)[x] > 0 <==> x in s
  {
    assert x in multiset(s) <==> x in s;
  }

  /** A file listed once is in one share only. */
  lemma {:induction false} InOneShare<T>(every: seq<T>, a: nat, b: nat, count: nat, x: T)
    requires Distinct(every) && 0 < a < b <= count && x in Share(every, a, count)
    ensures x !in Share(every, b, count)
  {
    var upToA, beforeB := Shares(every, a, count)[x], Shares(every, b - 1, count)[x];
    var upToB, all := Shares(every, b, count)[x], Shares(every, count, count)[x];
    ShareTimes(every, a, count, x);
    OneMoreShare(every, a, count, x);
    SharesGrow(every, a, b - 1, count, x, upToA, beforeB);
    OneMoreShare(every, b, count, x);
    SharesGrow(every, b, count, count, x, upToB, all);
    AllOnce(every, count, x, all);
    ShareTimes(every, b, count, x);
  }

  lemma {:induction false} AllOnce<T>(every: seq<T>, count: nat, x: T, all: nat)
    requires Distinct(every) && 0 < count && all == Shares(every, count, count)[x]
    ensures all <= 1
  {
    SharesPartition(every, count);
    DistinctCount(every, x);
  }

  /** MAIN: a zero verdict accounts for every reviewed file if and only if the reports of all nonempty shares were
      merged, when no file is listed twice. */
  lemma {:induction false} ZeroAccountsExactly(every: seq<string>, logs: seq<seq<Report>>, shares: seq<nat>, count: nat)
    requires count > 0 && Distinct(every) && AllClean(logs) && FromShares(logs, shares, every, count)
    ensures (forall f | f in every :: Accounted(logs, f))
        <==> (forall index: nat | 0 < index <= count && Share(every, index, count) != [] :: index in shares)
  {
    if forall f | f in every :: Accounted(logs, f) {
      forall index: nat | 0 < index <= count && Share(every, index, count) != [] ensures index in shares {
        MissingShare(every, logs, shares, count, index);
      }
    }
    if forall index: nat | 0 < index <= count && Share(every, index, count) != [] :: index in shares {
      forall f | f in every ensures Accounted(logs, f) {
        var index := InSomeShare(every, count, f);
        AccountedIsShared(every, logs, shares, count, f);
      }
    }
  }

  lemma {:induction false} ShareOfEvery<T>(every: seq<T>, index: nat, count: nat)
    requires 0 < index <= count && Share(every, index, count) != []
    ensures Share(every, index, count)[0] in every
  {
  }

  lemma {:induction false} MissingShare(every: seq<string>, logs: seq<seq<Report>>, shares: seq<nat>, count: nat,
                                        index: nat)
    requires Distinct(every) && AllClean(logs) && FromShares(logs, shares, every, count)
    requires forall f | f in every :: Accounted(logs, f)
    requires 0 < index <= count && Share(every, index, count) != []
    ensures index in shares
  {
    ShareOfEvery(every, index, count);
    var f := Share(every, index, count)[0];
    AccountedIsShared(every, logs, shares, count, f);
    var other :| 0 < other <= count && other in shares && f in Share(every, other, count);
    if other < index {
      InOneShare(every, other, index, count, f);
    } else if index < other {
      InOneShare(every, index, other, count, f);
    }
  }

  /** So the reports of all the shares are enough, whether or not a file is listed twice. */
  lemma {:induction false} ZeroAccountsForAll(every: seq<string>, logs: seq<seq<Report>>, f: string)
    requires f in every && AllClean(logs)
    requires forall i | 0 <= i < |logs| :: Accounts(logs[i][0], Elements(Share(every, i + 1, |logs|)))
    ensures exists i :: 0 <= i < |logs| && f in Share(every, i + 1, |logs|) && Names(logs[i][0], f)
  {
    var index := InSomeShare(every, |logs|, f);
    var i := index - 1;
    assert Accounts(logs[i][0], Elements(Share(every, i + 1, |logs|)));
    assert f in Share(every, i + 1, |logs|);
    assert f !in logs[i][0].unaccounted;
  }

  /** But the merge does not know how many shares there are: one of two shards reported, the verdict is zero, and the
      other's file is in no report. */
  lemma {:induction false} ZeroWithoutAShare() returns (every: seq<string>, logs: seq<seq<Report>>, f: string)
    ensures Distinct(every) && AllClean(logs) && FromShares(logs, [1], every, 2)
    ensures f in every && !Accounted(logs, f)
  {
    every, f := ["a", "b"], "b";
    var report := Report(Release, {"a"}, {}, {}, {}, [], 0);
    logs := [[report]];
    assert Share(every, 1, 2) == ["a"];
    assert f == every[1];
  }
}
