/** The whole-flow checks of app/schemas.py: unique ids, known targets, no cycle, every step reachable, some end. */
module FlowGraph {
  import opened Common
  import opened FlowNodes
  import opened FlowPaths

  datatype FlowDefinition = FlowDefinition(startNodeId: string, nodes: seq<FlowNode>)

  datatype GraphError =
    | DuplicateIds
    | StartNotFound
    | UnknownTarget(node: string, target: string)
    | CycleFound
    | Unreachable(node: string)
    | NoTerminal

  function OptionTargets(options: seq<FlowChoice>): seq<string>
  {
    Map((c: FlowChoice) => c.nextNodeId, options)
  }

  function Targets(n: FlowNode): seq<string>
  {
    (if Truthy(n.nextNodeId) then [n.nextNodeId.value] else []) + OptionTargets(n.options)
  }

  /** A step links to its next step and to those of its options, and to nothing else, the next step first. */
  lemma TargetsMean(n: FlowNode)
    ensures forall t :: t in Targets(n) <==>
              (n.nextNodeId == Some(t) && t != "") || exists o :: o in n.options && o.nextNodeId == t
    ensures n.nextNodeId.Some? && n.nextNodeId.value != "" ==> Targets(n)[0] == n.nextNodeId.value
    ensures forall i :: 0 <= i < |n.options| ==>
              Targets(n)[|Targets(n)| - |n.options| + i] == n.options[i].nextNodeId
  {
    var rest := OptionTargets(n.options);
    forall t ensures t in rest <==> exists o :: o in n.options && o.nextNodeId == t {
      if o :| o in n.options && o.nextNodeId == t {
        var i :| 0 <= i < |n.options| && n.options[i] == o;
        assert rest[i] == t;
      }
    }
  }

  function Ids(nodes: seq<FlowNode>): set<string> { set n | n in nodes :: n.id }

  ghost predicate UniqueIds(nodes: seq<FlowNode>)
  {
    forall i, j :: 0 <= i < j < |nodes| ==> nodes[i].id != nodes[j].id
  }

  /** The links of the flow, step by step; with unique ids this is the whole graph. */
  function References(nodes: seq<FlowNode>): Graph
  {
    if nodes == [] then map[] else
      var last := nodes[|nodes| - 1];
      References(nodes[..|nodes| - 1])[last.id := Targets(last)]
  }

  predicate TargetsKnown(n: FlowNode, ids: set<string>)
  {
    forall t :: t in Targets(n) ==> t in ids
  }

  predicate KnownTargets(def: FlowDefinition)
  {
    forall n :: n in def.nodes ==> TargetsKnown(n, Ids(def.nodes))
  }

  predicate SomeTerminal(nodes: seq<FlowNode>) { exists n :: n in nodes && IsTerminal(n) }

  /** Text order of ids, as `sorted` compares them. */
  predicate TextLe(a: string, b: string)
  {
    a == [] || (b != [] && (a[0] < b[0] || (a[0] == b[0] && TextLe(a[1..], b[1..]))))
  }

  /** Why a flow is refused, in the order the checks are made. */
  ghost predicate Explains(def: FlowDefinition, r: Result<(), GraphError>)
  {
    var ids, g := Ids(def.nodes), References(def.nodes);
    if !UniqueIds(def.nodes) then r == Err(DuplicateIds)
    else if def.startNodeId !in ids then r == Err(StartNotFound)
    else if !KnownTargets(def) then
      exists k, j :: 0 <= k < |def.nodes| && 0 <= j < |Targets(def.nodes[k])|
        && r == Err(UnknownTarget(def.nodes[k].id, Targets(def.nodes[k])[j]))
        && Targets(def.nodes[k])[j] !in ids
        && (forall i :: 0 <= i < j ==> Targets(def.nodes[k])[i] in ids)
        && (forall i :: 0 <= i < k ==> TargetsKnown(def.nodes[i], ids))
    else if CyclicFrom(g, def.startNodeId) then r == Err(CycleFound)
    else if exists id :: id in ids && !Reaches(g, def.startNodeId, id) then
      && r.Err? && r.error.Unreachable? && r.error.node in ids
      && !Reaches(g, def.startNodeId, r.error.node)
      && (forall id :: id in ids && !Reaches(g, def.startNodeId, id) ==> TextLe(r.error.node, id))
    else if !SomeTerminal(def.nodes) then r == Err(NoTerminal)
    else r == Ok(())
  }

  /** What an accepted flow looks like, said without reference to any search. */
  ghost predicate WellFormed(def: FlowDefinition)
  {
    var g := References(def.nodes);
    && UniqueIds(def.nodes)
    && def.startNodeId in Ids(def.nodes)
    && KnownTargets(def)
    && (forall p :: !Cycle(g, p))
    && (forall id :: id in Ids(def.nodes) ==> Reaches(g, def.startNodeId, id))
    && SomeTerminal(def.nodes)
  }

  lemma IdsGrow(nodes: seq<FlowNode>)
    requires nodes != []
    ensures var k := |nodes| - 1; Ids(nodes) == Ids(nodes[..k]) + {nodes[k].id}
    ensures var k := |nodes| - 1; UniqueIds(nodes) <==> UniqueIds(nodes[..k]) && nodes[k].id !in Ids(nodes[..k])
  {
    var k := |nodes| - 1;
    var init, last := nodes[..k], nodes[k];
    assert nodes == init + [last];
    if UniqueIds(init) && last.id !in Ids(init) {
      forall i, j | 0 <= i < j < |nodes| ensures nodes[i].id != nodes[j].id {
        assert init[i] == nodes[i] && init[i].id in Ids(init);
        if j < k { assert init[j] == nodes[j]; }
      }
    }
    if UniqueIds(nodes) {
      forall n | n in init ensures n.id != last.id {
        var i :| 0 <= i < k && init[i] == n;
        assert nodes[i] == n;
      }
      assert forall i :: 0 <= i < k ==> init[i] == nodes[i];
    }
  }

  lemma {:induction false} CountIds(nodes: seq<FlowNode>)
    ensures UniqueIds(nodes) <==> |Ids(nodes)| == |nodes|
    ensures |Ids(nodes)| <= |nodes|
  {
    if nodes != [] {
      CountIds(nodes[..|nodes| - 1]);
      IdsGrow(nodes);
    }
  }

  lemma {:induction false} ReferencesFacts(nodes: seq<FlowNode>)
    ensures References(nodes).Keys == Ids(nodes)
    ensures UniqueIds(nodes) ==> forall n :: n in nodes ==> References(nodes)[n.id] == Targets(n)
  {
    if nodes != [] {
      var k := |nodes| - 1;
      var init, last := nodes[..k], nodes[k];
      ReferencesFacts(init);
      IdsGrow(nodes);
      if UniqueIds(nodes) {
        forall n | n in nodes ensures References(nodes)[n.id] == Targets(n) {
          MemberSplit(nodes, n);
          if n in init { assert n.id in Ids(init) && n.id != last.id; }
        }
      }
    }
  }

  lemma MemberSplit(nodes: seq<FlowNode>, n: FlowNode)
    requires n in nodes
    ensures n in nodes[..|nodes| - 1] || n == nodes[|nodes| - 1]
  {
  }

  lemma KnownTargetsIsClosed(def: FlowDefinition)
    requires UniqueIds(def.nodes)
    ensures KnownTargets(def) <==> Closed(References(def.nodes))
  {
    var g := References(def.nodes);
    ReferencesFacts(def.nodes);
    if Closed(g) {
      forall n | n in def.nodes ensures TargetsKnown(n, Ids(def.nodes)) {
        assert n.id in g;
      }
    }
  }

  /** The flow is accepted exactly when it is well formed: the cycle search from the start misses no cycle,
      because a flow with an unreachable step is refused anyway. */
  lemma AcceptedIffWellFormed(def: FlowDefinition, r: Result<(), GraphError>)
    requires Explains(def, r)
    ensures r.Ok? <==> WellFormed(def)
  {
    var g := References(def.nodes);
    ReferencesFacts(def.nodes);
    if r.Ok? {
      forall p ensures !Cycle(g, p) {
        if Cycle(g, p) {
          CycleIsFound(g, def.startNodeId, p);
        }
      }
    }
  }

  lemma CycleIsFound(g: Graph, start: string, p: seq<string>)
    requires Cycle(g, p) && forall n :: n in g ==> Reaches(g, start, n)
    ensures CyclicFrom(g, start)
  {
  }

  // ----- the depth-first search

  /** What a walk adds to the finished steps lies below the step it started from. */
  ghost predicate OnlyBelow(g: Graph, from: string, before: set<string>, after: set<string>)
  {
    before <= after && forall n :: n in after - before ==> Reaches(g, from, n)
  }

  lemma OnlyBelowStep(g: Graph, from: string, target: string, before: set<string>, after: set<string>)
    requires Edge(g, from, target) && OnlyBelow(g, target, before, after)
    ensures OnlyBelow(g, from, before, after)
  {
    forall n | n in after - before ensures Reaches(g, from, n) {
      ReachesStep(g, from, target, n);
    }
  }

  lemma OnlyBelowJoins(g: Graph, from: string, start: set<string>, before: set<string>, after: set<string>)
    requires OnlyBelow(g, from, start, before) && OnlyBelow(g, from, before, after)
    ensures OnlyBelow(g, from, start, after)
  {
    forall n | n in after - start ensures Reaches(g, from, n) {
      assert n in after - before || n in before - start;
    }
  }

  /** The first i targets are finished. */
  ghost predicate FirstIn(targets: seq<string>, i: nat, visited: set<string>)
    requires i <= |targets|
  {
    forall k :: 0 <= k < i ==> targets[k] in visited
  }

  lemma OneMoreIn(targets: seq<string>, i: nat, before: set<string>, after: set<string>)
    requires i < |targets| && FirstIn(targets, i, before) && before <= after && targets[i] in after
    ensures FirstIn(targets, i + 1, after)
  {
  }

  /** Finished steps are ranked by finishing time, and every step expanded so far was expanded once. */
  ghost predicate Searching(g: Graph, visiting: set<string>, visited: set<string>, rank: map<string, nat>,
                            expanded: seq<string>)
  {
    && Closed(g)
    && visiting !! visited
    && visiting <= g.Keys
    && rank.Keys == visited
    && Ranked(g, rank)
    && (forall n :: n in rank ==> rank[n] < |visited|)
    && Distinct(expanded)
    && (forall n :: n in expanded <==> n in visiting || n in visited)
  }

  lemma OpenKeeps(g: Graph, visiting: set<string>, visited: set<string>, rank: map<string, nat>, expanded: seq<string>,
                  n: string)
    requires Searching(g, visiting, visited, rank, expanded) && n in g && n !in visiting && n !in visited
    ensures Searching(g, visiting + {n}, visited, rank, expanded + [n])
  {
    assert n !in expanded;
  }

  lemma RankOneMore(g: Graph, visited: set<string>, rank: map<string, nat>, n: string)
    requires rank.Keys == visited && Ranked(g, rank) && n in g && n !in visited
    requires (forall m :: m in rank ==> rank[m] < |visited|) && forall t :: t in g[n] ==> t in visited
    ensures var next := rank[n := |visited|];
            Ranked(g, next) && forall m :: m in next ==> next[m] < |visited + {n}|
  {
    var next := rank[n := |visited|];
    assert |visited + {n}| == |visited| + 1;
    forall m | m in next ensures m in g && forall t :: t in g[m] ==> t in next && next[t] < next[m] {
      if m != n {
        assert forall t :: t in g[m] ==> t in rank && rank[t] < rank[m];
      }
    }
  }

  lemma CloseKeeps(g: Graph, visiting: set<string>, visited: set<string>, rank: map<string, nat>,
                   expanded: seq<string>, n: string)
    requires Searching(g, visiting, visited, rank, expanded) && n in visiting && forall t :: t in g[n] ==> t in visited
    ensures Searching(g, visiting - {n}, visited + {n}, rank[n := |visited|], expanded)
  {
    RankOneMore(g, visited, rank, n);
  }

  class Walker {
    const references: Graph
    var visiting: set<string>
    var visited: set<string>
    ghost var rank: map<string, nat>
    ghost var expanded: seq<string>

    ghost predicate Valid()
      reads this
    {
      Searching(references, visiting, visited, rank, expanded)
    }

    /** The open steps are the path that led to the step being entered. */
    ghost predicate OpenPath(stack: seq<string>, nodeId: string)
      reads this
    {
      Path(references, stack + [nodeId]) && visiting == set n | n in stack
    }

    constructor (references: Graph)
      requires Closed(references)
      ensures Valid() && visiting == {} && visited == {} && this.references == references
    {
      this.references := references;
      visiting, visited, rank, expanded := {}, {}, map[], [];
    }

    method Open(nodeId: string)
      requires Valid() && nodeId in references && nodeId !in visiting && nodeId !in visited
      modifies this
      ensures Valid() && visiting == old(visiting) + {nodeId} && visited == old(visited)
    {
      OpenKeeps(references, visiting, visited, rank, expanded, nodeId);
      visiting := visiting + {nodeId};
      expanded := expanded + [nodeId];
    }

    method Close(nodeId: string)
      requires Valid() && nodeId in visiting && forall t :: t in references[nodeId] ==> t in visited
      modifies this
      ensures Valid() && visiting == old(visiting) - {nodeId} && visited == old(visited) + {nodeId}
    {
      CloseKeeps(references, visiting, visited, rank, expanded, nodeId);
      visiting := visiting - {nodeId};
      rank := rank[nodeId := |visited|];
      visited := visited + {nodeId};
    }

    /** Walks everything below a step; false means a step was met again while still open. */
    method Walk(nodeId: string, ghost stack: seq<string>) returns (ok: bool)
      requires Valid() && nodeId in references && OpenPath(stack, nodeId)
      modifies this
      ensures ok ==> Valid() && visiting == old(visiting) && nodeId in visited
      ensures ok ==> OnlyBelow(references, nodeId, old(visited), visited)
      ensures !ok ==> CyclicFrom(references, nodeId)
      ensures Distinct(expanded)
      decreases references.Keys - visiting, 1
    {
      if nodeId in visiting {
        OpenStepClosesCycle(references, stack, nodeId);
        return false;
      }
      if nodeId in visited {
        return true;
      }
      Open(nodeId);
      ok := WalkTargets(nodeId, stack + [nodeId]);
      if ok {
        Close(nodeId);
        ReachesSelf(references, nodeId);
        assert visiting == old(visiting);
      }
    }

    /** The loop over an open step's links. */
    method WalkTargets(nodeId: string, ghost stack: seq<string>) returns (ok: bool)
      requires Valid() && nodeId in visiting
      requires Path(references, stack) && stack[|stack| - 1] == nodeId && visiting == set n | n in stack
      modifies this
      ensures ok ==> Valid() && visiting == old(visiting) && OnlyBelow(references, nodeId, old(visited), visited)
      ensures ok ==> forall t :: t in references[nodeId] ==> t in visited
      ensures !ok ==> CyclicFrom(references, nodeId)
      ensures Distinct(expanded)
      decreases references.Keys - visiting, 3
    {
      var targets := references[nodeId];
      ghost var start := visited;
      for i := 0 to |targets|
        invariant Valid() && visiting == old(visiting)
        invariant FirstIn(targets, i, visited)
        invariant OnlyBelow(references, nodeId, start, visited)
      {
        ghost var before := visited;
        var below := Visit(nodeId, targets[i], stack);
        if !below {
          return false;
        }
        OnlyBelowJoins(references, nodeId, start, before, visited);
        OneMoreIn(targets, i, before, visited);
      }
      return true;
    }

    /** One link of an open step. */
    method Visit(nodeId: string, target: string, ghost stack: seq<string>) returns (ok: bool)
      requires Valid() && nodeId in visiting && target in references[nodeId]
      requires Path(references, stack) && stack[|stack| - 1] == nodeId && visiting == set n | n in stack
      modifies this
      ensures ok ==> Valid() && visiting == old(visiting) && target in visited
      ensures ok ==> OnlyBelow(references, nodeId, old(visited), visited)
      ensures !ok ==> CyclicFrom(references, nodeId)
      ensures Distinct(expanded)
      decreases references.Keys - visiting, 2
    {
      assert Edge(references, nodeId, target);
      PathExtend(references, stack, target);
      ok := Walk(target, stack);
      if ok {
        OnlyBelowStep(references, nodeId, target, old(visited), visited);
      } else {
        CycleBelow(references, nodeId, target);
      }
    }
  }

  lemma OpenStepClosesCycle(g: Graph, stack: seq<string>, nodeId: string)
    requires Path(g, stack + [nodeId]) && nodeId in stack
    ensures CyclicFrom(g, nodeId)
  {
    var i :| 0 <= i < |stack| && stack[i] == nodeId;
    PathSuffix(g, stack + [nodeId], i);
    assert Cycle(g, (stack + [nodeId])[i..]);
    ReachesSelf(g, nodeId);
  }

  lemma CycleBelow(g: Graph, a: string, b: string)
    requires Edge(g, a, b) && CyclicFrom(g, b)
    ensures CyclicFrom(g, a)
  {
    var p :| Cycle(g, p) && Reaches(g, b, p[0]);
    ReachesStep(g, a, b, p[0]);
  }

  // ----- the validator

  /** One text comes before another exactly when it is a start of it or has the lower character at the first
      difference. */
  lemma {:induction false} TextLeMeans(a: string, b: string)
    ensures TextLe(a, b) <==> a <= b || exists k :: FirstDifference(a, b, k) && a[k] < b[k]
  {
    if a != [] && b != [] && a[0] == b[0] {
      TextLeMeans(a[1..], b[1..]);
      assert a <= b <==> a[1..] <= b[1..] by {
        HeadAndTail(a);
        HeadAndTail(b);
      }
      if k :| FirstDifference(a, b, k) && a[k] < b[k] {
        assert k > 0 && FirstDifference(a[1..], b[1..], k - 1);
      }
      if k :| FirstDifference(a[1..], b[1..], k) && a[1..][k] < b[1..][k] {
        FirstDifferenceShifts(a, b, k);
      }
    } else if a != [] && b != [] {
      assert FirstDifference(a, b, 0);
    }
  }

  ghost predicate FirstDifference(a: string, b: string, k: int)
  {
    0 <= k < |a| && k < |b| && a[..k] == b[..k] && a[k] != b[k]
  }

  lemma FirstDifferenceShifts(a: string, b: string, k: nat)
    requires a != [] && b != [] && a[0] == b[0] && FirstDifference(a[1..], b[1..], k)
    ensures FirstDifference(a, b, k + 1)
  {
    assert a[..k + 1] == [a[0]] + a[1..][..k] && b[..k + 1] == [b[0]] + b[1..][..k];
  }

  lemma {:induction false} TextLeTotal(a: string, b: string)
    ensures TextLe(a, b) || TextLe(b, a)
  {
    if a != [] && b != [] { TextLeTotal(a[1..], b[1..]); }
  }

  lemma {:induction false} TextLeTransitive(a: string, b: string, c: string)
    requires TextLe(a, b) && TextLe(b, c)
    ensures TextLe(a, c)
  {
    if a != [] && b != [] && c != [] && a[0] == b[0] == c[0] { TextLeTransitive(a[1..], b[1..], c[1..]); }
  }

  lemma TextLeOrders()
    ensures TotalPreorder(TextLe)
  {
    forall a, b ensures TextLe(a, b) || TextLe(b, a) { TextLeTotal(a, b); }
    forall a, b, c | TextLe(a, b) && TextLe(b, c) ensures TextLe(a, c) { TextLeTransitive(a, b, c); }
  }

  /** The ids of the steps that were not visited, in step order. */
  function Unvisited(nodes: seq<FlowNode>, visited: set<string>): seq<string>
  {
    if nodes == [] then []
    else (if nodes[0].id in visited then [] else [nodes[0].id]) + Unvisited(nodes[1..], visited)
  }

  lemma {:induction false} UnvisitedMembers(nodes: seq<FlowNode>, visited: set<string>)
    ensures forall id :: id in Unvisited(nodes, visited) <==> id in Ids(nodes) && id !in visited
  {
    if nodes != [] {
      UnvisitedMembers(nodes[1..], visited);
      assert nodes == [nodes[0]] + nodes[1..];
      assert Ids(nodes) == {nodes[0].id} + Ids(nodes[1..]);
    }
  }

  method FirstUnknown(n: FlowNode, ids: set<string>) returns (r: Option<string>)
    ensures r.None? <==> TargetsKnown(n, ids)
    ensures r.Some? ==> exists j :: 0 <= j < |Targets(n)| && Targets(n)[j] == r.value && r.value !in ids
                                    && forall i :: 0 <= i < j ==> Targets(n)[i] in ids
  {
    var targets := Targets(n);
    for j := 0 to |targets|
      invariant forall i :: 0 <= i < j ==> targets[i] in ids
    {
      if targets[j] !in ids { return Some(targets[j]); }
    }
    return None;
  }

  /** The first unknown link, step by step, or the link table. */
  method CollectReferences(def: FlowDefinition) returns (r: Result<Graph, GraphError>)
    requires UniqueIds(def.nodes) && def.startNodeId in Ids(def.nodes)
    ensures r.Ok? ==> r.value == References(def.nodes) && KnownTargets(def)
    ensures r.Err? ==> !KnownTargets(def) && Explains(def, Err(r.error))
  {
    var byId := Ids(def.nodes);
    var references: Graph := map[];
    for k := 0 to |def.nodes|
      invariant references == References(def.nodes[..k])
      invariant forall i :: 0 <= i < k ==> TargetsKnown(def.nodes[i], byId)
    {
      var unknown := FirstUnknown(def.nodes[k], byId);
      if unknown.Some? {
        assert def.nodes[k] in def.nodes;
        return Err(UnknownTarget(def.nodes[k].id, unknown.value));
      }
      assert def.nodes[..k + 1][..k] == def.nodes[..k];
      references := references[def.nodes[k].id := Targets(def.nodes[k])];
    }
    assert def.nodes[..|def.nodes|] == def.nodes;
    return Ok(references);
  }

  /** The search from the start: either a cycle below it, or exactly the steps it reaches. */
  method WalkFrom(references: Graph, start: string) returns (r: Option<set<string>>)
    requires Closed(references) && start in references
    ensures r.None? <==> CyclicFrom(references, start)
    ensures r.Some? ==> forall id :: id in r.value <==> Reaches(references, start, id)
  {
    var walker := new Walker(references);
    assert Path(references, [] + [start]);
    var acyclic := walker.Walk(start, []);
    if !acyclic { return None; }
    RankedIsAcyclic(references, walker.rank, start);
    forall id ensures id in walker.visited <==> Reaches(references, start, id) {
      if Reaches(references, start, id) {
        RankedHoldsReachable(references, walker.rank, start, id);
      }
      assert walker.visited - {} == walker.visited;
    }
    return Some(walker.visited);
  }

  /** The unvisited steps in text order. */
  method SortedUnvisited(nodes: seq<FlowNode>, visited: set<string>) returns (r: seq<string>)
    ensures forall id :: id in r <==> id in Ids(nodes) && id !in visited
    ensures r != [] ==> forall id :: id in r ==> TextLe(r[0], id)
  {
    var listed := Unvisited(nodes, visited);
    UnvisitedMembers(nodes, visited);
    r := Sort(TextLe, listed);
    SortPermutes(TextLe, listed);
    forall id ensures id in r <==> id in listed {
      assert id in r <==> id in multiset(r);
    }
    TextLeOrders();
    SortSorted(TextLe, listed);
    if r != [] { LeastFirst(r); }
  }

  method ValidateGraph(def: FlowDefinition) returns (r: Result<(), GraphError>)
    ensures Explains(def, r)
  {
    var byId := Ids(def.nodes);
    CountIds(def.nodes);
    ReferencesFacts(def.nodes);
    if |byId| != |def.nodes| { return Err(DuplicateIds); }
    if def.startNodeId !in byId { return Err(StartNotFound); }
    var references := CollectReferences(def);
    if references.Err? { return Err(references.error); }
    KnownTargetsIsClosed(def);
    var visited := WalkFrom(references.value, def.startNodeId);
    if visited.None? { return Err(CycleFound); }
    var unreachable := SortedUnvisited(def.nodes, visited.value);
    if unreachable != [] {
      assert unreachable[0] in unreachable;
      return Err(Unreachable(unreachable[0]));
    }
    if !SomeTerminal(def.nodes) { return Err(NoTerminal); }
    return Ok(());
  }

  lemma LeastFirst(s: seq<string>)
    requires Sorted(TextLe, s) && s != [] && TotalPreorder(TextLe)
    ensures forall x :: x in s ==> TextLe(s[0], x)
  {
    assert TextLe(s[0], s[0]);
  }
}
