/** The refusal family (`scripts/served_refusal_types.py`): which declared classes are members of
    ToolCallRefusedError, and under which wire types they are served. */
module Refusals {
  import opened Wrappers

  function Base(): string { "ToolCallRefusedError" }

  /** A class that declares a wire_type. `wire` is None where the declaration is not one name. */
  datatype Declaration = Declaration(name: string, bases: seq<string>, wire: Option<string>)

  /** The dictionary of declared classes: bases and wire type. */
  type Declared = map<string, (seq<string>, string)>

  datatype Refusal = BadWire | DefinedTwice | NotAMember | NoMember | SameWire

  // ----- membership -----

  /** A chain of declared bases from `chain[0]` up to the base class. */
  ghost predicate Chain(declared: Declared, chain: seq<string>) {
    && chain != []
    && (forall i | 0 <= i < |chain| :: chain[i] in declared)
    && (forall i | 0 <= i < |chain| - 1 :: chain[i + 1] in declared[chain[i]].0)
    && Base() in declared[chain[|chain| - 1]].0
  }

  ghost predicate IsMember(declared: Declared, name: string) {
    exists chain :: Chain(declared, chain) && chain[0] == name
  }

  predicate Joins(declared: Declared, name: string, found: set<string>)
    requires name in declared
  {
    exists b | b in declared[name].0 :: b == Base() || b in found
  }

  /** What is found after `n` rounds. */
  function FoundAfter(declared: Declared, n: nat): set<string> {
    if n == 0 then {}
    else FoundAfter(declared, n - 1) + set name | name in declared && Joins(declared, name, FoundAfter(declared, n - 1))
  }

  lemma {:induction false} ChainTail(declared: Declared, chain: seq<string>)
    requires |chain| > 1
    ensures Chain(declared, chain) <==>
              Chain(declared, chain[1..]) && chain[0] in declared && chain[1] in declared[chain[0]].0
  {
    var rest := chain[1..];
    assert forall i | 0 <= i < |rest| :: rest[i] == chain[i + 1];
    if Chain(declared, rest) && chain[0] in declared && chain[1] in declared[chain[0]].0 {
      forall i | 0 <= i < |chain| ensures chain[i] in declared {
        if i > 0 { assert rest[i - 1] in declared; }
      }
      forall i | 0 <= i < |chain| - 1 ensures chain[i + 1] in declared[chain[i]].0 {
        if i > 0 { assert rest[i - 1 + 1] in declared[rest[i - 1]].0; }
      }
    }
    if Chain(declared, chain) {
      forall i | 0 <= i < |rest| - 1 ensures rest[i + 1] in declared[rest[i]].0 {
        assert chain[i + 1 + 1] in declared[chain[i + 1]].0;
      }
    }
  }

  /** A chain of `n` classes is found within `n` rounds. */
  lemma {:induction false} ChainsAreFound(declared: Declared, chain: seq<string>)
    requires Chain(declared, chain)
    ensures chain[0] in FoundAfter(declared, |chain|)
    decreases |chain|
  {
    if |chain| == 1 {
      assert Joins(declared, chain[0], {});
      assert FoundAfter(declared, 0) == {};
    } else {
      ChainTail(declared, chain);
      ChainsAreFound(declared, chain[1..]);
      assert chain[1] in FoundAfter(declared, |chain| - 1);
      assert Joins(declared, chain[0], FoundAfter(declared, |chain| - 1));
    }
  }

  /** What is found has a chain. */
  lemma {:induction false} FoundHaveChains(declared: Declared, n: nat, name: string) returns (chain: seq<string>)
    requires name in FoundAfter(declared, n)
    ensures Chain(declared, chain) && chain[0] == name && |chain| <= n
  {
    if name in FoundAfter(declared, n - 1) {
      chain := FoundHaveChains(declared, n - 1, name);
    } else {
      var b :| b in declared[name].0 && (b == Base() || b in FoundAfter(declared, n - 1));
      if b == Base() {
        chain := [name];
      } else {
        var rest := FoundHaveChains(declared, n - 1, b);
        chain := [name] + rest;
        assert chain[1..] == rest;
        ChainTail(declared, chain);
      }
    }
  }

  /** Once a round finds nothing new, no later one does. */
  lemma {:induction false} StableForever(declared: Declared, n: nat, m: nat)
    requires n <= m && FoundAfter(declared, n + 1) == FoundAfter(declared, n)
    ensures FoundAfter(declared, m) == FoundAfter(declared, n)
    decreases m
  {
    if n < m {
      StableForever(declared, n, m - 1);
      if m - 1 > n {
        assert FoundAfter(declared, m) == FoundAfter(declared, n + 1);
      }
    }
  }

  /** MAIN: a stable round has found exactly the members. */
  lemma {:induction false} StableIsMembership(declared: Declared, n: nat, name: string)
    requires FoundAfter(declared, n + 1) == FoundAfter(declared, n)
    ensures name in FoundAfter(declared, n) <==> IsMember(declared, name)
  {
    if name in FoundAfter(declared, n) {
      var chain := FoundHaveChains(declared, n, name);
    }
    if IsMember(declared, name) {
      var chain :| Chain(declared, chain) && chain[0] == name;
      ChainsAreFound(declared, chain);
      if n <= |chain| {
        StableForever(declared, n, |chain|);
      } else {
        FoundGrows(declared, |chain|, n);
      }
    }
  }

  lemma {:induction false} FoundGrows(declared: Declared, a: nat, b: nat)
    requires a <= b
    ensures FoundAfter(declared, a) <= FoundAfter(declared, b)
    decreases b
  {
    if a < b { FoundGrows(declared, a, b - 1); }
  }

  /** MAIN: classes that only derive from one another, in a cycle or not, are no members. */
  lemma {:induction false} ClosedGroupsAreRefused(declared: Declared, group: set<string>, name: string)
    requires forall c | c in group :: c in declared && Base() !in declared[c].0
    requires forall c, b | c in group && b in declared[c].0 && b in declared :: b in group
    requires name in group
    ensures !IsMember(declared, name)
  {
    forall chain | Chain(declared, chain) ensures chain[0] != name {
      NoChainLeaves(declared, group, chain);
    }
  }

  lemma {:induction false} NoChainLeaves(declared: Declared, group: set<string>, chain: seq<string>)
    requires forall c | c in group :: c in declared && Base() !in declared[c].0
    requires forall c, b | c in group && b in declared[c].0 && b in declared :: b in group
    requires Chain(declared, chain)
    ensures chain[0] !in group
    decreases |chain|
  {
    if |chain| > 1 {
      ChainTail(declared, chain);
      NoChainLeaves(declared, group, chain[1..]);
      assert chain[1] in declared;
    }
  }

  // ----- the script -----

  /** What the tree's declarations must be: one name each, and each class once. */
  predicate WellDeclared(declarations: seq<Declaration>) {
    && (forall i | 0 <= i < |declarations| :: declarations[i].wire.Some?)
    && (forall i, j | 0 <= i < j < |declarations| :: declarations[i].name != declarations[j].name)
  }

  /** The dictionary the first loop fills. */
  function DeclaredOf(declarations: seq<Declaration>): Declared {
    if declarations == [] then map[]
    else
      var last := declarations[|declarations| - 1];
      DeclaredOf(declarations[..|declarations| - 1])[
        last.name := (last.bases, if last.wire.Some? then last.wire.value else "")]
  }

  lemma {:induction false} DeclaredNames(declarations: seq<Declaration>, name: string)
    ensures name in DeclaredOf(declarations) <==> exists i :: 0 <= i < |declarations| && declarations[i].name == name
    decreases |declarations|
  {
    if declarations != [] {
      var n := |declarations| - 1;
      DeclaredNames(declarations[..n], name);
      if i :| 0 <= i < n && declarations[i].name == name {
        assert declarations[..n][i].name == name;
      }
    }
  }

  /** What is recorded of a declared class. */
  lemma {:induction false} DeclaredEntry(declarations: seq<Declaration>, i: nat)
    requires WellDeclared(declarations) && i < |declarations|
    ensures declarations[i].name in DeclaredOf(declarations)
    ensures DeclaredOf(declarations)[declarations[i].name] == (declarations[i].bases, declarations[i].wire.value)
    decreases |declarations|
  {
    var n := |declarations| - 1;
    if i < n {
      assert forall k | 0 <= k < n :: declarations[..n][k] == declarations[k];
      DeclaredEntry(declarations[..n], i);
    }
  }

  /** MAIN: the order in which classes are read does not matter. */
  lemma {:induction false} OrderIrrelevant(declarations: seq<Declaration>, others: seq<Declaration>)
    requires WellDeclared(declarations) && WellDeclared(others)
    requires forall d :: d in declarations <==> d in others
    ensures DeclaredOf(declarations) == DeclaredOf(others)
  {
    var a, b := DeclaredOf(declarations), DeclaredOf(others);
    forall name ensures (name in a <==> name in b) && (name in a ==> a[name] == b[name]) {
      DeclaredNames(declarations, name);
      DeclaredNames(others, name);
      if name in a {
        SameEntry(declarations, others, name);
      } else if name in b {
        SameEntry(others, declarations, name);
      }
    }
  }

  lemma {:induction false} SameEntry(declarations: seq<Declaration>, others: seq<Declaration>, name: string)
    requires WellDeclared(declarations) && WellDeclared(others) && name in DeclaredOf(declarations)
    requires forall d :: d in declarations <==> d in others
    ensures name in DeclaredOf(others) && DeclaredOf(others)[name] == DeclaredOf(declarations)[name]
  {
    DeclaredNames(declarations, name);
    var i :| 0 <= i < |declarations| && declarations[i].name == name;
    assert declarations[i] in others;
    var j :| 0 <= j < |others| && others[j] == declarations[i];
    DeclaredEntry(declarations, i);
    DeclaredEntry(others, j);
  }

  /** The first loop of `members`. */
  method ReadDeclarations(declarations: seq<Declaration>) returns (r: Result<Declared, Refusal>)
    ensures r.Ok? <==> WellDeclared(declarations)
    ensures r.Ok? ==> r.value == DeclaredOf(declarations)
  {
    var declared: Declared := map[];
    for i := 0 to |declarations|
      invariant WellDeclared(declarations[..i]) && declared == DeclaredOf(declarations[..i])
    {
      var d := declarations[i];
      if d.wire == None { return Err(BadWire); }
      DeclaredNames(declarations[..i], d.name);
      if d.name in declared {
        var j :| 0 <= j < |declarations[..i]| && declarations[..i][j].name == d.name;
        assert declarations[j].name == declarations[i].name;
        return Err(DefinedTwice);
      }
      DeclaredStep(declarations, i);
      declared := declared[d.name := (d.bases, d.wire.value)];
    }
    assert declarations[..|declarations|] == declarations;
    r := Ok(declared);
  }

  lemma {:induction false} DeclaredStep(declarations: seq<Declaration>, i: nat)
    requires i < |declarations| && WellDeclared(declarations[..i])
    requires declarations[i].wire.Some? && forall j | 0 <= j < i :: declarations[..i][j].name != declarations[i].name
    ensures WellDeclared(declarations[..i + 1])
    ensures DeclaredOf(declarations[..i + 1])
         == DeclaredOf(declarations[..i])[declarations[i].name := (declarations[i].bases, declarations[i].wire.value)]
  {
    assert declarations[..i + 1][..i] == declarations[..i];
    assert forall j | 0 <= j < i :: declarations[..i + 1][j] == declarations[..i][j];
  }

  /** The second loop of `members`: rounds until one finds nothing. It finds exactly the members, in no more
      productive rounds than there are classes. */
  method FindMembers(declared: Declared) returns (found: set<string>, rounds: nat)
    ensures forall name :: name in found <==> IsMember(declared, name)
    ensures found <= declared.Keys && rounds <= |declared|
  {
    found, rounds := RunRounds(declared);
    AllStable(declared, rounds);
    SizeOrdered(found, declared.Keys);
    assert |declared| == |declared.Keys|;
  }

  /** The rounds themselves. */
  method RunRounds(declared: Declared) returns (found: set<string>, rounds: nat)
    ensures found == FoundAfter(declared, rounds) == FoundAfter(declared, rounds + 1)
    ensures found <= declared.Keys && rounds <= |found|
  {
    found, rounds := {}, 0;
    var joined := Joining(declared, found);
    while joined != {}
      invariant found == FoundAfter(declared, rounds) <= declared.Keys
      invariant joined == Joining(declared, found) && rounds <= |found|
      decreases declared.Keys - found
    {
      RoundFinds(declared, rounds, found, joined);
      found := found + joined;
      rounds := rounds + 1;
      joined := Joining(declared, found);
    }
    RoundFinds(declared, rounds, found, joined);
  }

  lemma {:induction false} AllStable(declared: Declared, n: nat)
    requires FoundAfter(declared, n + 1) == FoundAfter(declared, n)
    ensures forall name :: name in FoundAfter(declared, n) <==> IsMember(declared, name)
  {
    forall name ensures name in FoundAfter(declared, n) <==> IsMember(declared, name) {
      StableIsMembership(declared, n, name);
    }
  }

  /** What one round finds. */
  function Joining(declared: Declared, found: set<string>): set<string> {
    set name | name in declared && name !in found && Joins(declared, name, found)
  }

  lemma {:induction false} RoundFinds(declared: Declared, rounds: nat, found: set<string>, joined: set<string>)
    requires found == FoundAfter(declared, rounds) <= declared.Keys && joined == Joining(declared, found)
    ensures FoundAfter(declared, rounds + 1) == found + joined <= declared.Keys
    ensures joined == {} ==> FoundAfter(declared, rounds + 1) == found
    ensures joined != {} ==> |found + joined| > |found| && declared.Keys - (found + joined) < declared.Keys - found
  {
    if joined != {} {
      var one :| one in joined;
      SizeOrdered(found + {one}, found + joined);
    }
  }

  lemma {:induction false} SizeOrdered(a: set<string>, b: set<string>)
    requires a <= b
    ensures |a| <= |b|
  {
    assert b == a + (b - a);
  }

  ghost predicate DistinctWires(declared: Declared) {
    forall a, b | a in declared && b in declared && a != b :: declared[a].1 != declared[b].1
  }

  ghost predicate AllMembers(declared: Declared) {
    forall name | name in declared :: IsMember(declared, name)
  }

  /** The loop of `main`; the classes may be visited in any order. */
  method CollectTypes(classes: Declared) returns (r: Option<set<string>>)
    ensures r.Some? <==> DistinctWires(classes)
    ensures r.Some? ==> r.value == (set name | name in classes :: classes[name].1) && |r.value| == |classes|
  {
    var types, left := {}, classes.Keys;
    while left != {}
      invariant left <= classes.Keys
      invariant types == set name | name in classes.Keys - left :: classes[name].1
      invariant forall a, b | a in classes.Keys - left && b in classes.Keys - left
          && a != b :: classes[a].1 != classes[b].1
      invariant |types| + |left| == |classes.Keys|
      decreases left
    {
      var name :| name in left;
      if classes[name].1 in types { return None; }
      types := types + {classes[name].1};
      left := left - {name};
    }
    assert classes.Keys - left == classes.Keys;
    r := Some(types);
  }

  /** `main`: the run succeeds exactly when at least one class is declared, all are members, and no two are served
      as one type; then it serves one type for each. */
  method ServedTypes(declarations: seq<Declaration>) returns (r: Result<set<string>, Refusal>)
    ensures r.Ok? <==>
              && WellDeclared(declarations) && declarations != []
              && AllMembers(DeclaredOf(declarations)) && DistinctWires(DeclaredOf(declarations))
    ensures r.Ok? ==>
              && r.value == (set name | name in DeclaredOf(declarations) :: DeclaredOf(declarations)[name].1)
              && |r.value| == |DeclaredOf(declarations)|
  {
    var read := ReadDeclarations(declarations);
    if read.Err? { return Err(read.error); }
    var classes := read.value;
    var found, rounds := FindMembers(classes);
    if found != classes.Keys {
      assert exists name :: name in classes && name !in found;
      return Err(NotAMember);
    }
    if declarations != [] { SomeDeclared(declarations); }
    if found == {} { return Err(NoMember); }
    assert declarations != [];
    var types := CollectTypes(classes);
    if types == None { return Err(SameWire); }
    r := Ok(types.value);
  }

  lemma {:induction false} SomeDeclared(declarations: seq<Declaration>)
    requires declarations != []
    ensures DeclaredOf(declarations).Keys != {}
  {
    assert declarations[|declarations| - 1].name in DeclaredOf(declarations);
  }
}
