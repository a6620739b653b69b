/** What the two validators give a conversation: every script ends, at a terminal step, in fewer links than steps. */
module FlowScripts {
  import opened Common
  import opened FlowNodes
  import opened FlowPaths
  import opened FlowGraph

  ghost predicate NodesOk(norm: string -> string, def: FlowDefinition)
  {
    forall n :: n in def.nodes ==> NodeOk(norm, n)
  }

  function NodeById(nodes: seq<FlowNode>, id: string): (n: FlowNode)
    requires id in Ids(nodes)
    ensures n in nodes && n.id == id
  {
    if nodes[|nodes| - 1].id == id then nodes[|nodes| - 1]
    else
      assert nodes == nodes[..|nodes| - 1] + [nodes[|nodes| - 1]];
      NodeById(nodes[..|nodes| - 1], id)
  }

  lemma LinksOf(def: FlowDefinition, id: string)
    requires UniqueIds(def.nodes) && id in Ids(def.nodes)
    ensures id in References(def.nodes) && References(def.nodes)[id] == Targets(NodeById(def.nodes, id))
    ensures |References(def.nodes)| == |def.nodes|
  {
    ReferencesFacts(def.nodes);
    CountIds(def.nodes);
    assert |References(def.nodes).Keys| == |References(def.nodes)|;
  }

  lemma NonTerminalLinks(norm: string -> string, n: FlowNode)
    requires NodeOk(norm, n)
    ensures IsTerminal(n) <==> Targets(n) == []
    ensures n.kind in {Message, Question} ==> Targets(n) == [n.nextNodeId.value]
  {
    if n.kind == Choice {
      assert |OptionTargets(n.options)| >= 2;
    }
  }

  /** Whatever the answers, a script through an accepted flow passes each step at most once, so it takes fewer
      links than there are steps; and it can stop only at a handoff or end step, where it must stop. */
  lemma EveryScriptEnds(norm: string -> string, def: FlowDefinition, p: seq<string>)
    requires WellFormed(def) && NodesOk(norm, def)
    requires Path(References(def.nodes), p)
    ensures |p| <= |def.nodes| && forall i, j :: 0 <= i < j < |p| ==> p[i] != p[j]
    ensures p[|p| - 1] in Ids(def.nodes)
    ensures (forall t :: !Path(References(def.nodes), p + [t])) <==> IsTerminal(NodeById(def.nodes, p[|p| - 1]))
  {
    var g := References(def.nodes);
    var last := p[|p| - 1];
    ReferencesFacts(def.nodes);
    assert !CyclicFrom(g, p[0]);
    PathsAreShort(g, p);
    LinksOf(def, last);
    var node := NodeById(def.nodes, last);
    NonTerminalLinks(norm, node);
    KnownTargetsIsClosed(def);
    if !IsTerminal(node) {
      assert Edge(g, last, Targets(node)[0]);
      PathExtend(g, p, Targets(node)[0]);
    } else {
      forall t ensures !Path(g, p + [t]) {
        NoLinkOut(g, p, t);
      }
    }
  }

  lemma NoLinkOut(g: Graph, p: seq<string>, t: string)
    requires Path(g, p) && g[p[|p| - 1]] == []
    ensures !Path(g, p + [t])
  {
    var q := p + [t];
    assert !Edge(g, q[|p| - 1], q[|p|]);
  }

  /** A script that has not ended can be carried on to a terminal step. */
  lemma {:induction false} SomeScriptEnds(norm: string -> string, def: FlowDefinition, p: seq<string>)
    requires UniqueIds(def.nodes) && KnownTargets(def) && NodesOk(norm, def)
    requires Path(References(def.nodes), p) && !CyclicFrom(References(def.nodes), p[0])
    ensures SomeTerminal(def.nodes)
    decreases |def.nodes| - |p|
  {
    var g := References(def.nodes);
    var last := p[|p| - 1];
    ReferencesFacts(def.nodes);
    LinksOf(def, last);
    PathsAreShort(g, p);
    var node := NodeById(def.nodes, last);
    NonTerminalLinks(norm, node);
    KnownTargetsIsClosed(def);
    if !IsTerminal(node) {
      var t := Targets(node)[0];
      assert Edge(g, last, t);
      PathExtend(g, p, t);
      PathsAreShort(g, p + [t]);
      SomeScriptEnds(norm, def, p + [t]);
    }
  }

  /** On steps that passed their own checks the final "some terminal step" check never fires: acyclicity implies it. */
  lemma TerminalCheckIsRedundant(norm: string -> string, def: FlowDefinition, r: Result<(), GraphError>)
    requires NodesOk(norm, def) && Explains(def, r)
    ensures r != Err(NoTerminal)
  {
    var g := References(def.nodes);
    if UniqueIds(def.nodes) && def.startNodeId in Ids(def.nodes) && KnownTargets(def)
        && !CyclicFrom(g, def.startNodeId) {
      ReferencesFacts(def.nodes);
      assert Path(g, [def.startNodeId]);
      SomeScriptEnds(norm, def, [def.startNodeId]);
    }
  }

  // ----- a conversation of several messages

  /** Every trail starts where the one before it ended. */
  ghost predicate Successive(g: Graph, trails: seq<seq<string>>)
  {
    && trails != []
    && (forall i :: 0 <= i < |trails| ==> Path(g, trails[i]))
    && (forall i :: 0 <= i < |trails| - 1 ==> trails[i + 1][0] == trails[i][|trails[i]| - 1])
  }

  lemma SuccessiveAppend(g: Graph, trails: seq<seq<string>>, p: seq<string>)
    requires Path(g, p)
    requires (trails == [] || (Successive(g, trails) && p[0] == trails[|trails| - 1][|trails[|trails| - 1]| - 1]))
    ensures Successive(g, trails + [p])
  {
  }

  function Glue(trails: seq<seq<string>>): seq<string>
  {
    if trails == [] then [] else if |trails| == 1 then trails[0]
    else Glue(trails[..|trails| - 1]) + Tail(trails[|trails| - 1])
  }

  lemma PathGlue(g: Graph, p: seq<string>, q: seq<string>)
    requires Path(g, p) && Path(g, q) && q[0] == p[|p| - 1]
    ensures Path(g, p + Tail(q)) && (p + Tail(q))[|p + Tail(q)| - 1] == q[|q| - 1]
  {
    var r := p + Tail(q);
    forall i | 0 <= i < |r| - 1 ensures Edge(g, r[i], r[i + 1]) {
      if i < |p| - 1 {
        assert Edge(g, p[i], p[i + 1]);
      } else {
        assert Edge(g, q[i - |p| + 1], q[i - |p| + 2]);
      }
    }
  }

  /** The trails glued so far are one path that ends where the last trail ends. */
  ghost predicate Glued(g: Graph, trails: seq<seq<string>>, p: seq<string>)
  {
    trails != [] && Path(g, p) && Path(g, trails[|trails| - 1])
        && p[|p| - 1] == trails[|trails| - 1][|trails[|trails| - 1]| - 1]
  }

  lemma SuccessivePrefix(g: Graph, trails: seq<seq<string>>)
    requires Successive(g, trails) && |trails| > 1
    ensures Successive(g, trails[..|trails| - 1])
  {
  }

  lemma GlueStep(g: Graph, trails: seq<seq<string>>, p: seq<string>)
    requires Successive(g, trails) && |trails| > 1 && Glued(g, trails[..|trails| - 1], p)
    ensures Glued(g, trails, p + Tail(trails[|trails| - 1]))
  {
    PathGlue(g, p, trails[|trails| - 1]);
  }

  lemma {:induction false} GlueIsPath(g: Graph, trails: seq<seq<string>>)
    requires Successive(g, trails)
    ensures Glued(g, trails, Glue(trails))
  {
    if |trails| > 1 {
      SuccessivePrefix(g, trails);
      GlueIsPath(g, trails[..|trails| - 1]);
      GlueStep(g, trails, Glue(trails[..|trails| - 1]));
    }
  }

  /** However many messages a conversation takes, together they follow one script of the flow: no step is passed
      twice, and fewer links are followed than the flow has steps. */
  lemma ConversationIsOneScript(norm: string -> string, def: FlowDefinition, trails: seq<seq<string>>)
    requires WellFormed(def) && NodesOk(norm, def) && Successive(References(def.nodes), trails)
    ensures |Glue(trails)| <= |def.nodes|
    ensures forall i, j :: 0 <= i < j < |Glue(trails)| ==> Glue(trails)[i] != Glue(trails)[j]
  {
    GlueIsPath(References(def.nodes), trails);
    EveryScriptEnds(norm, def, Glue(trails));
  }

  // ----- the whole definition

  datatype FlowError = BadNode(nodeError: NodeError) | BadGraph(graphError: GraphError)

  function NormalizedNode(norm: string -> string, n: FlowNode): FlowNode
  {
    n.(options := NormalizedChoices(norm, n.options))
  }

  function NormalizedFlow(norm: string -> string, def: FlowDefinition): FlowDefinition
  {
    def.(nodes := Map(n => NormalizedNode(norm, n), def.nodes))
  }

  /** The step is the same but for the aliases of its options. */
  ghost predicate OnlyAliasesChanged(before: FlowNode, after: FlowNode)
  {
    && after == before.(options := after.options) && |after.options| == |before.options|
    && forall i :: 0 <= i < |before.options| ==>
         after.options[i] == before.options[i].(aliases := after.options[i].aliases)
  }

  /** Parses a definition as the schema does: normalise the options, check each step, then check the graph. */
  method ParseFlow(norm: string -> string, def: FlowDefinition) returns (r: Result<FlowDefinition, FlowError>)
    ensures r.Ok? <==> NodesOk(norm, NormalizedFlow(norm, def)) && WellFormed(NormalizedFlow(norm, def))
    ensures r.Ok? ==> r.value == NormalizedFlow(norm, def)
    ensures r.Ok? ==> r.value.startNodeId == def.startNodeId && |r.value.nodes| == |def.nodes|
                      && forall i :: 0 <= i < |def.nodes| ==> OnlyAliasesChanged(def.nodes[i], r.value.nodes[i])
    ensures r != Err(BadGraph(NoTerminal))
  {
    var nodes: seq<FlowNode> := [];
    for i := 0 to |def.nodes|
      invariant |nodes| == i
      invariant forall k :: 0 <= k < i ==> nodes[k] == NormalizedFlow(norm, def).nodes[k] && NodeOk(norm, nodes[k])
    {
      var node := NormalizedNode(norm, def.nodes[i]);
      var checked := ValidateNode(norm, node);
      if checked.Err? {
        assert NormalizedFlow(norm, def).nodes[i] in NormalizedFlow(norm, def).nodes;
        return Err(BadNode(checked.error));
      }
      nodes := nodes + [node];
    }
    var parsed := def.(nodes := nodes);
    assert parsed == NormalizedFlow(norm, def);
    var graph := ValidateGraph(parsed);
    AcceptedIffWellFormed(parsed, graph);
    TerminalCheckIsRedundant(norm, parsed, graph);
    if graph.Err? { return Err(BadGraph(graph.error)); }
    return Ok(parsed);
  }
}
