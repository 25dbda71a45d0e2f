/** Dependency graphs: paths, cycles and rankings. */
module Dags {
  import opened Rows

  /** A step name and the names it depends on; a name without an entry has no dependencies. */
  type Graph = map<Name, seq<Name>>

  function Deps(g: Graph, n: Name): seq<Name> {
    if n in g then g[n] else []
  }

  /** Each element of p depends on the next one. */
  ghost predicate Path(g: Graph, p: seq<Name>) {
    |p| > 0 && forall i :: 0 <= i < |p| - 1 ==> p[i + 1] in Deps(g, p[i])
  }

  ghost predicate OnCycle(g: Graph, n: Name) {
    exists p :: Path(g, p) && |p| > 1 && p[0] == n && p[|p| - 1] == n
  }

  ghost predicate Acyclic(g: Graph) {
    forall n :: !OnCycle(g, n)
  }

  /** Every step ranks above all its dependencies. */
  ghost predicate Ranked(g: Graph, rank: map<Name, nat>) {
    forall n, dep :: n in g && dep in g[n] ==> RanksBelow(rank, dep, n)
  }

  predicate RanksBelow(rank: map<Name, nat>, dep: Name, n: Name) {
    n in rank && dep in rank && rank[dep] < rank[n]
  }

  lemma {:induction false} RankFallsAlongPath(g: Graph, rank: map<Name, nat>, p: seq<Name>)
    requires Ranked(g, rank) && Path(g, p) && |p| > 1
    ensures p[0] in rank && p[|p| - 1] in rank && rank[p[|p| - 1]] < rank[p[0]]
  {
    var k := |p| - 1;
    var n, dep := p[k - 1], p[k];
    assert dep == p[(k - 1) + 1];
    assert n in g && dep in g[n];
    assert rank[dep] < rank[n];
    if k > 1 {
      var q := p[..k];
      RankFallsAlongPath(g, rank, q);
      assert q[0] == p[0] && q[|q| - 1] == n;
    }
  }

  lemma PathCons(g: Graph, n: Name, p: seq<Name>)
    requires Path(g, p) && p[0] in Deps(g, n)
    ensures Path(g, [n] + p)
  {
    var q := [n] + p;
    forall i | 0 <= i < |q| - 1 ensures q[i + 1] in Deps(g, q[i]) {
      assert i > 0 ==> p[(i - 1) + 1] in Deps(g, p[i - 1]);
    }
  }

  lemma PathTail(g: Graph, p: seq<Name>)
    requires Path(g, p) && |p| > 1
    ensures p[1] in Deps(g, p[0]) && Path(g, p[1..])
  {
    assert p[0 + 1] in Deps(g, p[0]);
    var q := p[1..];
    forall i | 0 <= i < |q| - 1 ensures q[i + 1] in Deps(g, q[i]) {
      assert p[(i + 1) + 1] in Deps(g, p[i + 1]);
    }
  }

  lemma RankedIsAcyclic(g: Graph, rank: map<Name, nat>)
    requires Ranked(g, rank)
    ensures Acyclic(g)
  {
    forall n ensures !OnCycle(g, n) {
      if OnCycle(g, n) {
        var p :| Path(g, p) && |p| > 1 && p[0] == n && p[|p| - 1] == n;
        RankFallsAlongPath(g, rank, p);
        assert false;
      }
    }
  }

  function Edges(d: Dag): Graph {
    map n | n in d :: d[n].dependsOn
  }

  ghost predicate Closed(d: Dag) {
    forall n, dep :: n in d && dep in d[n].dependsOn ==> dep in d
  }

  /** What validation establishes of the steps a run is created from. */
  ghost predicate ValidDag(d: Dag) {
    && d.Keys != {}
    && Closed(d)
    && (forall n :: n in d ==> d[n].maxAttempts >= 1)
    && exists rank :: Ranked(Edges(d), rank)
  }

  lemma RankFollowsEdges(d: Dag, rank: map<Name, nat>)
    requires Ranked(Edges(d), rank)
    ensures forall n, dep :: n in d && dep in d[n].dependsOn ==> RanksBelow(rank, dep, n)
  {
    forall n, dep | n in d && dep in d[n].dependsOn ensures RanksBelow(rank, dep, n) {
      assert n in Edges(d) && dep in Edges(d)[n];
    }
  }

  ghost function SomeRank(d: Dag): (rank: map<Name, nat>)
    requires ValidDag(d)
    ensures forall n, dep :: n in d && dep in d[n].dependsOn ==> RanksBelow(rank, dep, n)
  {
    var rank :| Ranked(Edges(d), rank);
    RankFollowsEdges(d, rank);
    rank
  }

  /** A total height: above all dependencies. */
  ghost function Height(d: Dag, n: Name): nat
    requires ValidDag(d)
  {
    var rank := SomeRank(d);
    if n in rank then rank[n] else 0
  }
}
