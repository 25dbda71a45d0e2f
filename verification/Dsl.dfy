/** Workflow definitions: validation, defaults, and the steps a run is created from. */
module Dsl {
  import opened Rows
  import opened Dags
  import opened Cycles

  datatype StepSpec = StepSpec(
    name: Name,
    taskType: string,
    dependsOn: seq<Name>,
    input: Payload,
    signalName: string,
    maxAttempts: int,
    initialBackoffMS: int,
    backoffMultiplier: real,
    maxBackoffMS: int,
    timeoutSeconds: int)

  datatype Problem =
    | NameRequired
    | NoSteps
    | StepNameMissing(index: nat)
    | DuplicateName(step: Name)
    | TypeMissing(step: Name)
    | UnknownDependency(step: Name, dep: Name)
    | SelfDependency(step: Name)
    | NoRoot
    | CycleThrough(step: Name)

  /** The white space that strings.TrimSpace removes. */
  predicate IsSpace(c: char) {
    var u := c as int;
    || 9 <= u <= 13 || u == 32 || u == 0x85 || u == 0xA0 || u == 0x1680 || 0x2000 <= u <= 0x200A
    || u == 0x2028 || u == 0x2029 || u == 0x202F || u == 0x205F || u == 0x3000
  }

  predicate Blank(s: string) {
    forall i :: 0 <= i < |s| ==> IsSpace(s[i])
  }

  function TrimLeft(s: string): string {
    if s != "" && IsSpace(s[0]) then TrimLeft(s[1..]) else s
  }

  function TrimRight(s: string): string {
    if s != "" && IsSpace(s[|s| - 1]) then TrimRight(s[..|s| - 1]) else s
  }

  lemma {:induction false} BlankTrimsLeft(s: string)
    ensures Blank(s) <==> TrimLeft(s) == ""
    decreases |s|
  {
    if s != "" && IsSpace(s[0]) {
      BlankTrimsLeft(s[1..]);
      assert Blank(s) <==> Blank(s[1..]) by {
        assert forall i :: 1 <= i < |s| ==> s[i] == s[1..][i - 1];
      }
    }
  }

  lemma {:induction false} TrimRightEmpty(s: string)
    ensures TrimRight(s) == "" <==> Blank(s)
    decreases |s|
  {
    if s != "" && IsSpace(s[|s| - 1]) {
      TrimRightEmpty(s[..|s| - 1]);
      assert Blank(s) <==> Blank(s[..|s| - 1]);
    }
  }

  /** A string is blank exactly if trimming white space at both ends leaves nothing. */
  lemma BlankIffTrimsAway(s: string)
    ensures Blank(s) <==> TrimRight(TrimLeft(s)) == ""
  {
    BlankTrimsLeft(s);
    TrimRightEmpty(TrimLeft(s));
    if TrimLeft(s) != "" {
      TrimLeftStops(s);
    }
  }

  lemma {:induction false} TrimLeftStops(s: string)
    ensures TrimLeft(s) != "" ==> !IsSpace(TrimLeft(s)[0])
    decreases |s|
  {
    if s != "" && IsSpace(s[0]) {
      TrimLeftStops(s[1..]);
    }
  }

  function Positive(x: int, default: int): int {
    if x <= 0 then default else x
  }

  function WithDefaults(s: StepSpec): StepSpec {
    s.(maxAttempts := Positive(s.maxAttempts, 1),
       initialBackoffMS := Positive(s.initialBackoffMS, 1000),
       backoffMultiplier := if s.backoffMultiplier <= 0.0 then 2.0 else s.backoffMultiplier,
       maxBackoffMS := Positive(s.maxBackoffMS, 60_000),
       timeoutSeconds := Positive(s.timeoutSeconds, 30),
       input := if s.input == "" then "{}" else s.input)
  }

  function Defaulted(steps: seq<StepSpec>): (r: seq<StepSpec>)
    ensures |r| == |steps| && forall i :: 0 <= i < |r| ==> r[i] == WithDefaults(steps[i])
  {
    seq(|steps|, i requires 0 <= i < |steps| => WithDefaults(steps[i]))
  }

  // ------------------------------------------------------- what is well formed

  predicate UniqueNames(steps: seq<StepSpec>) {
    forall i, j :: 0 <= i < j < |steps| ==> steps[i].name != steps[j].name
  }

  predicate Named(steps: seq<StepSpec>, n: Name) {
    exists i :: 0 <= i < |steps| && steps[i].name == n
  }

  predicate KnownDeps(steps: seq<StepSpec>) {
    forall i, k :: 0 <= i < |steps| && 0 <= k < |steps[i].dependsOn| ==> Named(steps, steps[i].dependsOn[k])
  }

  /** The dependency graph, as the search sees it: a later step of the same name wins. */
  function GraphOf(steps: seq<StepSpec>): Graph {
    if steps == [] then map[]
    else
      var last := steps[|steps| - 1];
      GraphOf(steps[..|steps| - 1])[last.name := last.dependsOn]
  }

  /** The definitions that validation is meant to accept. */
  ghost predicate WellFormed(name: string, steps: seq<StepSpec>) {
    && !Blank(name) && steps != []
    && (forall i :: 0 <= i < |steps| ==> !Blank(steps[i].name) && !Blank(steps[i].taskType))
    && UniqueNames(steps) && KnownDeps(steps) && Acyclic(GraphOf(steps))
  }

  lemma {:induction false} GraphAt(steps: seq<StepSpec>, i: nat)
    requires i < |steps| && UniqueNames(steps)
    ensures steps[i].name in GraphOf(steps) && GraphOf(steps)[steps[i].name] == steps[i].dependsOn
    decreases |steps|
  {
    if i < |steps| - 1 {
      GraphAt(steps[..|steps| - 1], i);
    }
  }

  lemma {:induction false} GraphNames(steps: seq<StepSpec>, n: Name)
    ensures n in GraphOf(steps) <==> Named(steps, n)
    decreases |steps|
  {
    if steps != [] {
      var front := steps[..|steps| - 1];
      GraphNames(front, n);
      if Named(front, n) {
        var i :| 0 <= i < |front| && front[i].name == n;
        assert steps[i].name == n;
      }
      if Named(steps, n) && steps[|steps| - 1].name != n {
        var i :| 0 <= i < |steps| && steps[i].name == n;
        assert front[i].name == n;
      }
    }
  }

  lemma GraphResolves(steps: seq<StepSpec>)
    requires UniqueNames(steps) && KnownDeps(steps)
    ensures Resolvable(GraphOf(steps))
  {
    var g := GraphOf(steps);
    forall n, dep | n in g && dep in g[n] ensures dep in g {
      GraphNames(steps, n);
      var i :| 0 <= i < |steps| && steps[i].name == n;
      GraphAt(steps, i);
      var k :| 0 <= k < |steps[i].dependsOn| && steps[i].dependsOn[k] == dep;
      GraphNames(steps, dep);
    }
  }

  lemma {:induction false} DefaultsKeepGraph(steps: seq<StepSpec>)
    ensures GraphOf(Defaulted(steps)) == GraphOf(steps)
    decreases |steps|
  {
    if steps != [] {
      var front := steps[..|steps| - 1];
      DefaultsKeepGraph(front);
      assert Defaulted(steps)[..|steps| - 1] == Defaulted(front);
    }
  }

  // ------------------------------------------------------------- steps of a run

  function ToNewStep(s: StepSpec): NewStep {
    NewStep(s.taskType, s.dependsOn, s.input, s.signalName, s.maxAttempts, s.initialBackoffMS, s.backoffMultiplier,
            s.maxBackoffMS, s.timeoutSeconds)
  }

  /** The step rows, by name. */
  function DagOf(steps: seq<StepSpec>): Dag {
    if steps == [] then map[]
    else
      var last := steps[|steps| - 1];
      DagOf(steps[..|steps| - 1])[last.name := ToNewStep(last)]
  }

  lemma {:induction false} DagEdges(steps: seq<StepSpec>)
    ensures Edges(DagOf(steps)) == GraphOf(steps)
    decreases |steps|
  {
    if steps != [] {
      DagEdges(steps[..|steps| - 1]);
    }
  }

  lemma {:induction false} DagRows(steps: seq<StepSpec>, n: Name)
    requires n in DagOf(steps)
    ensures exists i :: 0 <= i < |steps| && steps[i].name == n && DagOf(steps)[n] == ToNewStep(steps[i])
    decreases |steps|
  {
    var last := |steps| - 1;
    if steps[last].name == n {
      assert steps[last].name == n && DagOf(steps)[n] == ToNewStep(steps[last]);
    } else {
      DagRows(steps[..last], n);
      var i :| 0 <= i < last && steps[..last][i].name == n && DagOf(steps[..last])[n] == ToNewStep(steps[..last][i]);
      assert steps[i].name == n;
    }
  }

  lemma {:induction false} DagAt(steps: seq<StepSpec>, i: nat)
    requires i < |steps| && UniqueNames(steps)
    ensures steps[i].name in DagOf(steps) && DagOf(steps)[steps[i].name] == ToNewStep(steps[i])
    decreases |steps|
  {
    if i < |steps| - 1 {
      DagAt(steps[..|steps| - 1], i);
    }
  }

  /** The row says in every column what the definition sets, and the default where it sets nothing. */
  predicate Declares(s: StepSpec, row: NewStep) {
    && row.taskType == s.taskType && row.dependsOn == s.dependsOn && row.signalName == s.signalName
    && row.input == (if s.input == "" then "{}" else s.input)
    && row.maxAttempts == (if s.maxAttempts > 0 then s.maxAttempts else 1)
    && row.initialBackoffMS == (if s.initialBackoffMS > 0 then s.initialBackoffMS else 1000)
    && row.backoffMultiplier == (if s.backoffMultiplier > 0.0 then s.backoffMultiplier else 2.0)
    && row.maxBackoffMS == (if s.maxBackoffMS > 0 then s.maxBackoffMS else 60_000)
    && row.timeoutSeconds == (if s.timeoutSeconds > 0 then s.timeoutSeconds else 30)
  }

  /** One row for every step of the definition, no other, and each as its step declares. */
  ghost predicate RowsDeclared(steps: seq<StepSpec>, d: Dag) {
    && (forall n :: n in d <==> exists i :: 0 <= i < |steps| && steps[i].name == n)
    && (forall i :: 0 <= i < |steps| ==> steps[i].name in d && Declares(steps[i], d[steps[i].name]))
  }

  /** The rows of a run are what the definition declares. */
  lemma DagDeclared(steps: seq<StepSpec>)
    requires UniqueNames(steps)
    ensures RowsDeclared(steps, DagOf(Defaulted(steps)))
  {
    var defaulted := Defaulted(steps);
    var d := DagOf(defaulted);
    forall i | 0 <= i < |steps| ensures steps[i].name in d && Declares(steps[i], d[steps[i].name]) {
      assert defaulted[i] == WithDefaults(steps[i]);
      DagAt(defaulted, i);
    }
    forall n | n in d ensures exists i :: 0 <= i < |steps| && steps[i].name == n {
      DagRows(defaulted, n);
      var i :| 0 <= i < |defaulted| && defaulted[i].name == n && d[n] == ToNewStep(defaulted[i]);
      assert steps[i].name == n;
    }
  }

  /** Filling in defaults a second time changes nothing. */
  lemma DefaultedTwice(steps: seq<StepSpec>)
    ensures Defaulted(Defaulted(steps)) == Defaulted(steps)
  {
    var once := Defaulted(steps);
    forall i | 0 <= i < |steps| ensures Defaulted(once)[i] == once[i] {
      assert once[i] == WithDefaults(steps[i]);
    }
  }

  /** Runs of a validated definition satisfy what the engine relies on, and their rows are
      those the definition declares. */
  lemma ValidatedDag(name: string, steps: seq<StepSpec>, rank: map<Name, nat>)
    requires WellFormed(name, steps) && Ranked(GraphOf(steps), rank)
    ensures ValidDag(DagOf(Defaulted(steps)))
    ensures RowsDeclared(steps, DagOf(Defaulted(steps)))
  {
    hide RowsDeclared, DagOf, Defaulted, ValidDag;
    DagDeclared(steps);
    DefaultedDagValid(name, steps, rank);
  }

  lemma DefaultedDagValid(name: string, steps: seq<StepSpec>, rank: map<Name, nat>)
    requires WellFormed(name, steps) && Ranked(GraphOf(steps), rank)
    ensures ValidDag(DagOf(Defaulted(steps)))
  {
    hide Blank, Acyclic, KnownDeps;
    var defaulted := Defaulted(steps);
    var d := DagOf(defaulted);
    DagEdges(defaulted);
    DefaultsKeepGraph(steps);
    GraphResolves(steps);
    assert Edges(d).Keys == d.Keys;
    GraphNames(steps, steps[0].name);
    forall n | n in d ensures d[n].maxAttempts >= 1 {
      DagRows(defaulted, n);
    }
    forall n, dep | n in d && dep in d[n].dependsOn ensures dep in d {
      assert Edges(d)[n] == d[n].dependsOn;
    }
  }

  // ---------------------------------------------------------------- validation

  predicate StepsNamedAndTyped(steps: seq<StepSpec>) {
    forall i :: 0 <= i < |steps| ==> !Blank(steps[i].name) && !Blank(steps[i].taskType)
  }

  /** The first i steps pass the first loop. */
  predicate Entered(steps: seq<StepSpec>, i: nat) {
    i <= |steps| && StepsNamedAndTyped(steps[..i]) && UniqueNames(steps[..i])
  }

  predicate DepOk(steps: seq<StepSpec>, i: nat, k: nat)
    requires i < |steps| && k < |steps[i].dependsOn|
  {
    Named(steps, steps[i].dependsOn[k]) && steps[i].dependsOn[k] != steps[i].name
  }

  /** Every dependency of the first i steps, and the first k of step i, pass the second loop. */
  predicate DepsOkTo(steps: seq<StepSpec>, i: nat, k: nat) {
    && (forall j, l :: 0 <= j < i && j < |steps| && 0 <= l < |steps[j].dependsOn| ==> DepOk(steps, j, l))
    && (i < |steps| ==> forall l :: 0 <= l < k && l < |steps[i].dependsOn| ==> DepOk(steps, i, l))
  }

  /** A problem says of the definition what it names, and that it is the first: every
      check made before passes. */
  ghost predicate Explains(name: string, steps: seq<StepSpec>, p: Problem) {
    match p
    case NameRequired => Blank(name)
    case NoSteps => !Blank(name) && steps == []
    case StepNameMissing(i) => !Blank(name) && i < |steps| && Entered(steps, i) && Blank(steps[i].name)
    case DuplicateName(n) =>
      !Blank(name) && exists i :: 0 <= i < |steps| && steps[i].name == n && Entered(steps, i) && Named(steps[..i], n)
    case TypeMissing(n) =>
      !Blank(name) && exists i :: 0 <= i < |steps| && steps[i].name == n && Entered(steps, i)
                                  && !Blank(n) && !Named(steps[..i], n) && Blank(steps[i].taskType)
    case UnknownDependency(n, dep) =>
      && !Blank(name) && Entered(steps, |steps|) && !Named(steps, dep)
      && exists i, k :: 0 <= i < |steps| && 0 <= k < |steps[i].dependsOn|
                        && steps[i].name == n && steps[i].dependsOn[k] == dep && DepsOkTo(steps, i, k)
    case SelfDependency(n) =>
      && !Blank(name) && Entered(steps, |steps|)
      && exists i, k :: 0 <= i < |steps| && 0 <= k < |steps[i].dependsOn|
                        && steps[i].name == n && steps[i].dependsOn[k] == n && DepsOkTo(steps, i, k)
    case NoRoot =>
      && !Blank(name) && Entered(steps, |steps|) && DepsOkTo(steps, |steps|, 0)
      && steps != [] && forall i :: 0 <= i < |steps| ==> steps[i].dependsOn != []
    case CycleThrough(n) =>
      && !Blank(name) && Entered(steps, |steps|) && DepsOkTo(steps, |steps|, 0)
      && (exists i :: 0 <= i < |steps| && steps[i].dependsOn == []) && OnCycle(GraphOf(steps), n)
  }

  /** Every reported problem is one that a well-formed definition cannot have. */
  lemma ExplainedIsIllFormed(name: string, steps: seq<StepSpec>, p: Problem)
    requires Explains(name, steps, p)
    ensures !WellFormed(name, steps)
  {
    if WellFormed(name, steps) {
      match p
      case SelfDependency(n) =>
        var i, k :| 0 <= i < |steps| && 0 <= k < |steps[i].dependsOn|
                    && steps[i].name == n && steps[i].dependsOn[k] == n && DepsOkTo(steps, i, k);
        GraphAt(steps, i);
        SelfDependencyIsCycle(GraphOf(steps), n);
        assert false;
      case NoRoot =>
        GraphResolves(steps);
        GraphAt(steps, 0);
        AcyclicHasRoot(GraphOf(steps));
        var n :| n in GraphOf(steps) && GraphOf(steps)[n] == [];
        GraphNames(steps, n);
        var i :| 0 <= i < |steps| && steps[i].name == n;
        GraphAt(steps, i);
        assert false;
      case _ => assert false;
    }
  }

  /** Defaults have been filled in up to, and not including, step k. */
  predicate FilledTo(before: seq<StepSpec>, steps: seq<StepSpec>, k: nat) {
    && |steps| == |before| && k <= |steps|
    && forall i :: 0 <= i < |steps| ==> steps[i] == if i < k then WithDefaults(before[i]) else before[i]
  }

  class Definition {
    var name: string
    var version: int
    var steps: seq<StepSpec>

    constructor (n: string, v: int, s: seq<StepSpec>)
      ensures name == n && version == v && steps == s
    {
      name, version, steps := n, v, s;
    }

    /** Accepts exactly the well-formed definitions, filling in their defaults. */
    method Validate() returns (problem: Option<Problem>, ghost rank: map<Name, nat>)
      modifies this
      ensures name == old(name)
      ensures problem.None? <==> WellFormed(name, old(steps))
      ensures problem.Some? ==> Explains(name, old(steps), problem.value) && exists k: nat :: FilledTo(old(steps), steps, k)
      ensures version == if Blank(name) then old(version) else Positive(old(version), 1)
      ensures problem.None? ==>
        && steps == Defaulted(old(steps))
        && Ranked(GraphOf(old(steps)), rank) && ValidDag(DagOf(steps)) && RowsDeclared(old(steps), DagOf(steps))
    {
      hide Blank, Entered, DepsOkTo, Named, OnCycle, Ranked, ValidDag, GraphOf, WellFormed, Defaulted, RowsDeclared;
      rank := map[];
      assert FilledTo(steps, steps, 0);
      if Blank(name) {
        ExplainedIsIllFormed(name, steps, NameRequired);
        return Some(NameRequired), rank;
      }
      if version <= 0 {
        version := 1;
      }
      if |steps| == 0 {
        ExplainedIsIllFormed(name, steps, NoSteps);
        return Some(NoSteps), rank;
      }
      var seen;
      problem, seen := FillDefaults();
      if problem.None? {
        assert FilledTo(old(steps), steps, |steps|);
        problem := CheckDependencies(seen, old(steps));
      }
      if problem.None? {
        problem, rank := CheckCycles(old(steps));
      }
      if problem.Some? {
        ExplainedIsIllFormed(name, old(steps), problem.value);
      } else {
        PassedIsWellFormed(name, old(steps));
        ValidatedDag(name, old(steps), rank);
      }
    }

    /** The first loop: names and types, and the defaults, in place. */
    method FillDefaults() returns (problem: Option<Problem>, seen: set<Name>)
      requires !Blank(name)
      modifies this`steps
      ensures problem.Some? ==> Explains(name, old(steps), problem.value) && exists k: nat :: FilledTo(old(steps), steps, k)
      ensures problem.None? ==>
        && steps == Defaulted(old(steps)) && Entered(old(steps), |old(steps)|)
        && forall n :: n in seen <==> Named(old(steps), n)
    {
      hide Blank, WithDefaults;
      seen := {};
      ghost var before := steps;
      for i := 0 to |steps|
        invariant FilledTo(before, steps, i)
        invariant Entered(before, i)
        invariant forall n :: n in seen <==> Named(before[..i], n)
      {
        var s := steps[i];
        if Blank(s.name) {
          return Some(StepNameMissing(i)), seen;
        }
        if s.name in seen {
          assert before[i] == s;
          return Some(DuplicateName(s.name)), seen;
        }
        seen := seen + {s.name};
        if Blank(s.taskType) {
          assert before[i] == s;
          return Some(TypeMissing(s.name)), seen;
        }
        NamedSnoc(before, i);
        EnteredNext(before, i);
        var filled := Filled(s);
        steps := steps[i := filled];
      }
      assert before[..|before|] == before;
      problem := None;
    }

    /** The second loop: every dependency is known and is not the step itself, and some
        step has none. */
    method CheckDependencies(seen: set<Name>, ghost before: seq<StepSpec>) returns (problem: Option<Problem>)
      requires steps == Defaulted(before) && before != [] && !Blank(name) && Entered(before, |before|)
      requires forall n :: n in seen <==> Named(before, n)
      ensures problem.Some? ==> Explains(name, before, problem.value)
      ensures problem.None? ==>
        DepsOkTo(before, |before|, 0) && exists i :: 0 <= i < |before| && before[i].dependsOn == []
    {
      hide Named, WithDefaults, Entered, DepOk;
      DefaultsKeepNames(before);
      var hasRoot := false;
      for i := 0 to |steps|
        invariant DepsOkTo(before, i, 0)
        invariant hasRoot <==> exists j :: 0 <= j < i && before[j].dependsOn == []
      {
        var s := steps[i];
        assert s.name == before[i].name && s.dependsOn == before[i].dependsOn;
        for k := 0 to |s.dependsOn|
          invariant DepsOkTo(before, i, k)
        {
          var dep := s.dependsOn[k];
          assert before[i].dependsOn[k] == dep;
          DepOkMeans(before, i, k);
          if dep !in seen {
            return Some(UnknownDependency(s.name, dep));
          }
          if dep == s.name {
            return Some(SelfDependency(s.name));
          }
        }
        if |s.dependsOn| == 0 {
          hasRoot := true;
        }
      }
      if !hasRoot {
        return Some(NoRoot);
      }
      return None;
    }

    method CheckCycles(ghost before: seq<StepSpec>) returns (problem: Option<Problem>, ghost rank: map<Name, nat>)
      requires steps == Defaulted(before) && !Blank(name) && Entered(before, |before|) && DepsOkTo(before, |before|, 0)
      requires exists i :: 0 <= i < |before| && before[i].dependsOn == []
      ensures problem.Some? ==> Explains(name, before, problem.value)
      ensures problem.None? ==> Acyclic(GraphOf(before)) && Ranked(GraphOf(before), rank)
    {
      hide WithDefaults, OnCycle, Ranked, Entered, DepsOkTo;
      ChecksPassed(before);
      DefaultsKeepNames(before);
      DefaultsKeepGraph(before);
      GraphResolves(before);
      var specs := steps;
      var names := seq(|specs|, i requires 0 <= i < |specs| => specs[i].name);
      NamesOfGraph(before, names);
      var cyc;
      cyc, rank := FindCycle(names, GraphOf(steps));
      if cyc != "" {
        return Some(CycleThrough(cyc)), rank;
      }
      return None, rank;
    }
  }

  lemma EnteredNext(steps: seq<StepSpec>, i: nat)
    requires i < |steps| && Entered(steps, i) && !Named(steps[..i], steps[i].name)
    requires !Blank(steps[i].name) && !Blank(steps[i].taskType)
    ensures Entered(steps, i + 1)
  {
    var more, fewer := steps[..i + 1], steps[..i];
    assert forall j :: 0 <= j < i ==> more[j] == fewer[j];
    assert more[i] == steps[i];
  }

  lemma DepOkMeans(steps: seq<StepSpec>, i: nat, k: nat)
    requires i < |steps| && k < |steps[i].dependsOn|
    ensures DepOk(steps, i, k) <==> Named(steps, steps[i].dependsOn[k]) && steps[i].dependsOn[k] != steps[i].name
  {
  }

  lemma ChecksPassed(steps: seq<StepSpec>)
    requires Entered(steps, |steps|) && DepsOkTo(steps, |steps|, 0)
    ensures StepsNamedAndTyped(steps) && UniqueNames(steps) && KnownDeps(steps)
  {
    assert steps[..|steps|] == steps;
    forall i, k | 0 <= i < |steps| && 0 <= k < |steps[i].dependsOn| ensures Named(steps, steps[i].dependsOn[k]) {
      assert DepOk(steps, i, k);
    }
  }

  lemma PassedIsWellFormed(name: string, steps: seq<StepSpec>)
    requires !Blank(name) && steps != [] && Entered(steps, |steps|) && DepsOkTo(steps, |steps|, 0) && Acyclic(GraphOf(steps))
    ensures WellFormed(name, steps)
  {
    hide Entered, DepsOkTo, OnCycle;
    ChecksPassed(steps);
  }

  /** The defaults, one field after the other. */
  method Filled(spec: StepSpec) returns (s: StepSpec)
    ensures s == WithDefaults(spec)
    ensures s.name == spec.name && Declares(spec, ToNewStep(s))
  {
    s := spec;
    if s.maxAttempts <= 0 {
      s := s.(maxAttempts := 1);
    }
    if s.initialBackoffMS <= 0 {
      s := s.(initialBackoffMS := 1000);
    }
    if s.backoffMultiplier <= 0.0 {
      s := s.(backoffMultiplier := 2.0);
    }
    if s.maxBackoffMS <= 0 {
      s := s.(maxBackoffMS := 60_000);
    }
    if s.timeoutSeconds <= 0 {
      s := s.(timeoutSeconds := 30);
    }
    if |s.input| == 0 {
      s := s.(input := "{}");
    }
  }

  lemma DefaultsKeepNames(steps: seq<StepSpec>)
    ensures forall i :: 0 <= i < |steps| ==>
      Defaulted(steps)[i].name == steps[i].name && Defaulted(steps)[i].dependsOn == steps[i].dependsOn
  {
  }

  lemma NamedSnoc(steps: seq<StepSpec>, i: nat)
    requires i < |steps|
    ensures forall n :: Named(steps[..i + 1], n) <==> Named(steps[..i], n) || n == steps[i].name
  {
    var more, fewer := steps[..i + 1], steps[..i];
    assert more == fewer + [steps[i]];
    forall n ensures Named(more, n) <==> Named(fewer, n) || n == steps[i].name {
      if Named(fewer, n) {
        var j :| 0 <= j < |fewer| && fewer[j].name == n;
        assert more[j].name == n;
      }
      if Named(more, n) && n != steps[i].name {
        var j :| 0 <= j < |more| && more[j].name == n;
        assert fewer[j].name == n;
      }
      assert more[i].name == steps[i].name;
    }
  }

  lemma NamesOfGraph(steps: seq<StepSpec>, names: seq<Name>)
    requires |names| == |steps| && forall i :: 0 <= i < |steps| ==> names[i] == steps[i].name
    requires StepsNamedAndTyped(steps)
    ensures "" !in GraphOf(steps) && forall n :: n in names <==> n in GraphOf(steps)
  {
    forall n ensures n in names <==> n in GraphOf(steps) {
      GraphNames(steps, n);
    }
    GraphNames(steps, "");
  }
}
