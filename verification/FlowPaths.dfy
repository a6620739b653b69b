/** Paths, reachability and cycles in the graph of an automation flow. */
module FlowPaths {

  type Graph = map<string, seq<string>>

  /** Every link leads to a step of the flow. */
  ghost predicate Closed(g: Graph)
  {
    forall n, t :: n in g && t in g[n] ==> t in g
  }

  ghost predicate Edge(g: Graph, a: string, b: string) { a in g && b in g[a] }

  ghost predicate Path(g: Graph, p: seq<string>)
  {
    && p != []
    && (forall i :: 0 <= i < |p| ==> p[i] in g)
    && (forall i :: 0 <= i < |p| - 1 ==> Edge(g, p[i], p[i + 1]))
  }

  ghost predicate PathFromTo(g: Graph, p: seq<string>, a: string, b: string)
  {
    Path(g, p) && p[0] == a && p[|p| - 1] == b
  }

  ghost predicate Reaches(g: Graph, a: string, b: string)
  {
    exists p :: PathFromTo(g, p, a, b)
  }

  ghost predicate Cycle(g: Graph, p: seq<string>)
  {
    Path(g, p) && |p| >= 2 && p[0] == p[|p| - 1]
  }

  ghost predicate CyclicFrom(g: Graph, start: string)
  {
    exists p :: Cycle(g, p) && Reaches(g, start, p[0])
  }

  /** Ranks that fall along every link rule out cycles. */
  ghost predicate Ranked(g: Graph, rank: map<string, nat>)
  {
    forall n :: n in rank ==> n in g && forall t :: t in g[n] ==> t in rank && rank[t] < rank[n]
  }

  lemma ReachesSelf(g: Graph, a: string)
    requires a in g
    ensures Reaches(g, a, a)
  {
    assert PathFromTo(g, [a], a, a);
  }

  lemma ReachesStep(g: Graph, a: string, b: string, c: string)
    requires Edge(g, a, b) && Reaches(g, b, c)
    ensures Reaches(g, a, c)
  {
    var p :| PathFromTo(g, p, b, c);
    var q := [a] + p;
    forall i | 0 <= i < |q| - 1 ensures Edge(g, q[i], q[i + 1]) {
      if i > 0 { assert Edge(g, p[i - 1], p[i]); }
    }
    assert PathFromTo(g, q, a, c);
  }

  lemma PathSuffix(g: Graph, p: seq<string>, i: nat)
    requires Path(g, p) && i < |p|
    ensures Path(g, p[i..])
  {
    forall k | 0 <= k < |p[i..]| - 1 ensures Edge(g, p[i..][k], p[i..][k + 1]) {
      assert Edge(g, p[i + k], p[i + k + 1]);
    }
  }

  lemma PathExtend(g: Graph, p: seq<string>, n: string)
    requires Path(g, p) && n in g && Edge(g, p[|p| - 1], n)
    ensures Path(g, p + [n])
  {
    var q := p + [n];
    forall i | 0 <= i < |q| - 1 ensures Edge(g, q[i], q[i + 1]) {
      if i < |p| - 1 { assert Edge(g, p[i], p[i + 1]); }
    }
  }

  lemma {:induction false} RankFallsAlong(g: Graph, rank: map<string, nat>, p: seq<string>)
    requires Ranked(g, rank) && Path(g, p) && p[0] in rank
    ensures p[|p| - 1] in rank && rank[p[|p| - 1]] + |p| - 1 <= rank[p[0]]
  {
    if |p| > 1 {
      assert Edge(g, p[0], p[1]);
      PathSuffix(g, p, 1);
      RankFallsAlong(g, rank, p[1..]);
    }
  }

  lemma RankedIsAcyclic(g: Graph, rank: map<string, nat>, start: string)
    requires Ranked(g, rank) && start in rank
    ensures !CyclicFrom(g, start)
  {
    if CyclicFrom(g, start) {
      var c :| Cycle(g, c) && Reaches(g, start, c[0]);
      var p :| PathFromTo(g, p, start, c[0]);
      RankFallsAlong(g, rank, p);
      RankFallsAlong(g, rank, c);
    }
  }

  lemma RankedHoldsReachable(g: Graph, rank: map<string, nat>, start: string, n: string)
    requires Ranked(g, rank) && start in rank && Reaches(g, start, n)
    ensures n in rank
  {
    var p :| PathFromTo(g, p, start, n);
    RankFallsAlong(g, rank, p);
  }

  lemma {:induction false} Pigeonhole(p: seq<string>, s: set<string>)
    requires forall i :: 0 <= i < |p| ==> p[i] in s
    requires forall i, j :: 0 <= i < j < |p| ==> p[i] != p[j]
    ensures |p| <= |s|
  {
    if p != [] {
      var n := |p| - 1;
      Pigeonhole(p[..n], s - {p[n]});
    }
  }

  lemma RepeatIsCycle(g: Graph, p: seq<string>, i: nat, j: nat)
    requires Path(g, p) && i < j < |p| && p[i] == p[j]
    ensures CyclicFrom(g, p[0])
  {
    PathSuffix(g, p, i);
    PathPrefix(g, p[i..], j - i + 1);
    PathPrefix(g, p, i + 1);
    assert PathFromTo(g, p[..i + 1], p[0], p[i]);
    assert Cycle(g, p[i..][..j - i + 1]);
  }

  /** In a flow without cycles below its start, a path from the start visits no step twice. */
  lemma PathsAreShort(g: Graph, p: seq<string>)
    requires Path(g, p) && !CyclicFrom(g, p[0])
    ensures |p| <= |g| && forall i, j :: 0 <= i < j < |p| ==> p[i] != p[j]
  {
    forall i, j | 0 <= i < j < |p| ensures p[i] != p[j] {
      if p[i] == p[j] { RepeatIsCycle(g, p, i, j); }
    }
    Pigeonhole(p, g.Keys);
    assert |g.Keys| == |g|;
  }

  lemma PathPrefix(g: Graph, p: seq<string>, n: nat)
    requires Path(g, p) && 0 < n <= |p|
    ensures Path(g, p[..n])
  {
    forall k | 0 <= k < n - 1 ensures Edge(g, p[..n][k], p[..n][k + 1]) {
      assert Edge(g, p[k], p[k + 1]);
    }
  }
}
