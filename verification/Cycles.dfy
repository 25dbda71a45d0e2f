/** Cycle detection by depth-first search with white, grey and black steps. */
module Cycles {
  import opened Rows
  import opened Dags

  datatype Color = Gray | Black

  /** Every step named as a dependency is a step of the graph. */
  ghost predicate Resolvable(g: Graph) {
    forall n, dep :: n in g && dep in g[n] ==> dep in g
  }

  // -------------------------------------------------------------------- cycles

  /** A stretch of a path from a name back to itself is a cycle. */
  lemma RepeatIsCycle(g: Graph, p: seq<Name>, i: nat, j: nat)
    requires Path(g, p) && i < j < |p| && p[i] == p[j]
    ensures OnCycle(g, p[i])
  {
    var c := p[i..j + 1];
    forall k | 0 <= k < |c| - 1 ensures c[k + 1] in Deps(g, c[k]) {
      assert p[(i + k) + 1] in Deps(g, p[i + k]);
    }
    assert c[0] == p[i] && c[|c| - 1] == p[j];
  }

  /** Without roots one can walk along dependencies for ever. */
  lemma {:induction false} EndlessPath(g: Graph, n: Name, k: nat) returns (p: seq<Name>)
    requires Resolvable(g) && n in g && forall m :: m in g ==> g[m] != []
    ensures Path(g, p) && |p| == k + 1 && p[0] == n && forall i :: 0 <= i < |p| ==> p[i] in g
    decreases k
  {
    if k == 0 {
      p := [n];
    } else {
      var dep := g[n][0];
      var q := EndlessPath(g, dep, k - 1);
      PathCons(g, n, q);
      p := [n] + q;
    }
  }

  /** A sequence longer than the set it draws from repeats itself. */
  lemma {:induction false} Pigeonhole(p: seq<Name>, keys: set<Name>) returns (i: nat, j: nat)
    requires |p| > |keys| && forall k :: 0 <= k < |p| ==> p[k] in keys
    ensures i < j < |p| && p[i] == p[j]
    decreases |p|
  {
    var last := |p| - 1;
    if k :| 0 <= k < last && p[k] == p[last] {
      i, j := k, last;
    } else {
      i, j := Pigeonhole(p[..last], keys - {p[last]});
    }
  }

  /** An acyclic graph with any steps has a step without dependencies, so the separate
      check for a root never rejects a graph that the cycle check would accept. */
  lemma AcyclicHasRoot(g: Graph)
    requires Resolvable(g) && g.Keys != {} && Acyclic(g)
    ensures exists n :: n in g && g[n] == []
  {
    if forall n :: n in g ==> g[n] != [] {
      var n :| n in g;
      var p := EndlessPath(g, n, |g.Keys|);
      var i, j := Pigeonhole(p, g.Keys);
      RepeatIsCycle(g, p, i, j);
      assert false;
    }
  }

  lemma SelfDependencyIsCycle(g: Graph, n: Name)
    requires n in g && n in g[n]
    ensures OnCycle(g, n)
  {
    assert Path(g, [n, n]);
  }

  // -------------------------------------------------------------------- search

  lemma FewerUncolored(keys: set<Name>, color: map<Name, Color>, color': map<Name, Color>, name: Name)
    requires name in keys && name !in color && Keeps(color[name := Gray], color')
    ensures keys - color'.Keys < keys - color.Keys
  {
    assert name in color[name := Gray];
    assert name in keys - color.Keys && name !in keys - color'.Keys;
    forall n | n in keys - color'.Keys ensures n in keys - color.Keys {
      assert n in color ==> n in color[name := Gray];
    }
  }

  class CycleFinder {
    const byName: Graph
    var color: map<Name, Color>
    var stack: seq<Name>
    /** The order in which steps turned black. */
    ghost var finished: seq<Name>

    constructor (g: Graph)
      ensures byName == g && color == map[] && stack == [] && finished == []
    {
      byName := g;
      color, stack, finished := map[], [], [];
    }

    ghost predicate Searching()
      reads this
    {
      SearchOk(byName, color, stack, finished)
    }

    /** Explores an unvisited step.  Either everything below it turns black, or the
        answer lies on a cycle. */
    method Visit(name: Name) returns (r: Name)
      requires Searching() && Resolvable(byName) && "" !in byName
      requires name in byName && name !in color
      requires stack != [] ==> name in Deps(byName, stack[|stack| - 1])
      modifies this
      ensures r != "" ==> OnCycle(byName, r)
      ensures r == "" ==> Searching() && stack == old(stack) && Blackened(old(color), color, name)
      decreases byName.Keys - color.Keys
    {
      hide SearchOk, OnCycle;
      Uncolored(byName, color, stack, finished, name);
      Enter(byName, color, stack, finished, name);
      color := color[name := Gray];
      stack := stack + [name];
      var deps := byName[name];
      for i := 0 to |deps|
        invariant Searching() && stack == old(stack) + [name]
        invariant Keeps(old(color)[name := Gray], color)
        invariant forall j :: 0 <= j < i ==> deps[j] in color && color[deps[j]] == Black
      {
        var dep := deps[i];
        if dep !in color {
          FewerUncolored(byName.Keys, old(color), color, name);
          var found := Visit(dep);
          if found != "" {
            return found;
          }
        } else if color[dep] == Gray {
          GrayCloses(byName, color, stack, finished, dep);
          return dep;
        }
      }
      Leave(byName, color, old(stack), finished, name);
      color := color[name := Black];
      finished := finished + [name];
      stack := stack[..|stack| - 1];
      assert stack == old(stack);
      return "";
    }
  }

  /** Nothing that had a colour has lost or changed it. */
  predicate Keeps(color: map<Name, Color>, color': map<Name, Color>) {
    forall n :: n in color ==> n in color' && color'[n] == color[n]
  }

  predicate Blackened(color: map<Name, Color>, color': map<Name, Color>, name: Name) {
    Keeps(color, color') && name in color' && color'[name] == Black
  }

  /** Grey steps are those on the stack, which is a path; black ones are finished,
      each after its dependencies. */
  ghost predicate SearchOk(g: Graph, color: map<Name, Color>, stack: seq<Name>, finished: seq<Name>) {
    && (forall n :: n in color ==> n in g)
    && (forall n :: n in stack <==> n in color && color[n] == Gray)
    && (forall n :: n in finished <==> n in color && color[n] == Black)
    && (stack != [] ==> Path(g, stack))
    && Sorted(g, finished)
  }

  lemma Enter(g: Graph, color: map<Name, Color>, stack: seq<Name>, finished: seq<Name>, name: Name)
    requires SearchOk(g, color, stack, finished) && name in g && name !in color
    requires stack != [] ==> name in Deps(g, stack[|stack| - 1])
    ensures SearchOk(g, color[name := Gray], stack + [name], finished)
  {
    PathSnoc(g, stack, name);
  }

  lemma Leave(g: Graph, color: map<Name, Color>, stack: seq<Name>, finished: seq<Name>, name: Name)
    requires SearchOk(g, color, stack + [name], finished) && name !in stack
    requires forall dep :: dep in Deps(g, name) ==> dep in color && color[dep] == Black
    ensures SearchOk(g, color[name := Black], stack, finished + [name])
  {
    assert name in stack + [name];
    SortedSnoc(g, finished, name);
    if stack != [] {
      PathFront(g, stack, name);
    }
  }

  lemma GrayCloses(g: Graph, color: map<Name, Color>, stack: seq<Name>, finished: seq<Name>, dep: Name)
    requires SearchOk(g, color, stack, finished) && stack != [] && dep in Deps(g, stack[|stack| - 1])
    requires dep in color && color[dep] == Gray
    ensures OnCycle(g, dep)
  {
    StackCloses(g, stack, dep);
  }

  lemma Uncolored(g: Graph, color: map<Name, Color>, stack: seq<Name>, finished: seq<Name>, name: Name)
    requires SearchOk(g, color, stack, finished) && name !in color
    ensures name !in stack
  {
  }

  /** Every name comes after all its dependencies. */
  ghost predicate Sorted(g: Graph, order: seq<Name>) {
    && (forall i, j :: 0 <= i < j < |order| ==> order[i] != order[j])
    && forall i, dep :: 0 <= i < |order| && dep in Deps(g, order[i]) ==> dep in order[..i]
  }

  lemma SortedSnoc(g: Graph, order: seq<Name>, n: Name)
    requires Sorted(g, order) && n !in order && forall dep :: dep in Deps(g, n) ==> dep in order
    ensures Sorted(g, order + [n])
  {
    var order' := order + [n];
    forall i, dep | 0 <= i < |order'| && dep in Deps(g, order'[i]) ensures dep in order'[..i] {
      if i < |order| {
        assert order'[..i] == order[..i];
      } else {
        assert order'[..i] == order;
      }
    }
  }

  lemma PathSnoc(g: Graph, p: seq<Name>, n: Name)
    requires p != [] ==> Path(g, p) && n in Deps(g, p[|p| - 1])
    ensures Path(g, p + [n])
  {
  }

  lemma PathFront(g: Graph, p: seq<Name>, n: Name)
    requires p != [] && Path(g, p + [n])
    ensures Path(g, p)
  {
    var q := p + [n];
    forall i | 0 <= i < |p| - 1 ensures p[i + 1] in Deps(g, p[i]) {
      assert q[i + 1] in Deps(g, q[i]);
    }
  }

  /** A dependency of the top of the stack that is itself on the stack closes a cycle. */
  lemma StackCloses(g: Graph, stack: seq<Name>, dep: Name)
    requires stack != [] && Path(g, stack) && dep in stack && dep in Deps(g, stack[|stack| - 1])
    ensures OnCycle(g, dep)
  {
    var i :| 0 <= i < |stack| && stack[i] == dep;
    PathSnoc(g, stack, dep);
    RepeatIsCycle(g, stack + [dep], i, |stack|);
  }

  // -------------------------------------------------------------------- answer

  ghost function RankOf(order: seq<Name>): map<Name, nat> {
    map n | n in order :: var i :| 0 <= i < |order| && order[i] == n; i
  }

  lemma RankOfAt(order: seq<Name>, n: Name)
    requires n in order
    ensures n in RankOf(order) && RankOf(order)[n] < |order| && order[RankOf(order)[n]] == n
  {
  }

  lemma SortedIsRanked(g: Graph, order: seq<Name>)
    requires Sorted(g, order) && forall n :: n in g ==> n in order
    ensures Ranked(g, RankOf(order))
  {
    var rank := RankOf(order);
    forall n, dep | n in g && dep in g[n] ensures RanksBelow(rank, dep, n) {
      RankOfAt(order, n);
      var i := rank[n];
      assert dep in Deps(g, order[i]);
      assert dep in order[..i];
      var j :| 0 <= j < i && order[..i][j] == dep;
      assert order[j] == dep;
      RankOfAt(order, dep);
    }
  }

  /** Answers "" exactly for acyclic graphs; any other answer lies on a cycle. */
  method FindCycle(names: seq<Name>, g: Graph) returns (r: Name, ghost rank: map<Name, nat>)
    requires Resolvable(g) && "" !in g && forall n :: n in names <==> n in g
    ensures r == "" <==> Acyclic(g)
    ensures r != "" ==> OnCycle(g, r)
    ensures r == "" ==> Ranked(g, rank)
  {
    rank := map[];
    hide OnCycle, Path;
    var finder := new CycleFinder(g);
    for i := 0 to |names|
      invariant fresh(finder) && finder.byName == g && finder.Searching() && finder.stack == []
      invariant forall j :: 0 <= j < i ==> names[j] in finder.color && finder.color[names[j]] == Black
    {
      if names[i] !in finder.color {
        r := finder.Visit(names[i]);
        if r != "" {
          return;
        }
      }
    }
    SortedIsRanked(g, finder.finished);
    rank := RankOf(finder.finished);
    RankedIsAcyclic(g, rank);
    r := "";
  }
}
