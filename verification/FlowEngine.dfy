/** The conversation engine of app/services/flows.py, run on flows that the validators accepted. */
module FlowEngine {
  import opened Common
  import opened FlowNodes
  import opened FlowPaths
  import opened FlowGraph
  import opened FlowScripts

  /** The engine's hard limit on the steps one message may pass. */
  const STEP_LIMIT := 60

  /** The candidate's collected answers by field. */
  type Candidate = map<string, string>

  /** What storing a value as the answer to a step makes of the candidate, or None where the value is refused. */
  type Storing = (FlowNode, string, Candidate) -> Option<Candidate>

  /** The conversation's place in the flow; `position` is meaningful only for the same flow revision. */
  datatype Conversation = Conversation(
    position: Option<string>, awaiting: Option<string>, candidate: Candidate, completed: bool)

  /** Ignored stands for a message the engine does not handle. */
  datatype Reply =
    | Asked(node: string) | Rejected(node: string) | Completed(node: string, kind: NodeKind) | TerminalError | Ignored

  predicate HasName(norm: string -> string, o: FlowChoice, name: string)
  {
    name in NormalizeAll(norm, [o.labelText] + o.aliases)
  }

  /** The option an answer names: the first whose names contain its normal form. */
  function SelectedOption(norm: string -> string, options: seq<FlowChoice>, answer: string): Option<FlowChoice>
  {
    if options == [] then None
    else if HasName(norm, options[0], norm(answer)) then Some(options[0])
    else SelectedOption(norm, options[1..], answer)
  }

  function NextId(node: FlowNode): string { if node.nextNodeId.Some? then node.nextNodeId.value else "" }

  /** Stores an answer, or refuses it; a choice stores its label and leads to its own target. */
  function Capture(norm: string -> string, store: Storing, node: FlowNode, c: Candidate,
                   answer: string): Option<(Candidate, string)>
  {
    if node.kind == Choice then
      var selected := SelectedOption(norm, node.options, answer);
      if selected.None? then None else
        var stored := store(node, selected.value.labelText, c);
        if stored.None? then None else Some((stored.value, selected.value.nextNodeId))
    else
      var stored := store(node, answer, c);
      if stored.None? then None else Some((stored.value, NextId(node)))
  }

  /** Telephone numbers and addresses are kept encrypted, so a filled field can be seen but not read. */
  const ENCRYPTED_FIELDS: set<string> := {"phone", "email"}

  function ReadField(c: Candidate, field: Option<string>): string
  {
    if field.Some? && field.value in c && field.value !in ENCRYPTED_FIELDS then c[field.value] else ""
  }

  /** Where a question whose field is already filled leads, if that can be told. */
  function NextAfterExisting(norm: string -> string, node: FlowNode, c: Candidate): Option<string>
  {
    if node.kind != Choice then Some(NextId(node)) else
      var selected := SelectedOption(norm, node.options, ReadField(c, node.field));
      if selected.None? then None else Some(selected.value.nextNodeId)
  }

  predicate FieldIsPresent(c: Candidate, field: Option<string>)
  {
    field.Some? && field.value in c && c[field.value] != ""
  }

  lemma {:induction false} SelectedIsAnOption(norm: string -> string, options: seq<FlowChoice>, answer: string)
    ensures var s := SelectedOption(norm, options, answer);
            s.Some? ==> s.value in options && HasName(norm, s.value, norm(answer))
    ensures SelectedOption(norm, options, answer).None? ==>
            forall o :: o in options ==> !HasName(norm, o, norm(answer))
  {
    if options != [] {
      SelectedIsAnOption(norm, options[1..], answer);
    }
  }

  lemma {:induction false} NameIsListed(norm: string -> string, options: seq<FlowChoice>, i: nat, name: string)
    requires i < |options| && HasName(norm, options[i], name)
    ensures name in AllNames(norm, options)
  {
    var n := |options| - 1;
    if i < n {
      NameIsListed(norm, options[..n], i, name);
    }
  }

  /** In a checked choice step an answer names at most one option. */
  lemma {:induction false} AnswerNamesOneOption(norm: string -> string, options: seq<FlowChoice>, i: nat, j: nat,
                                                answer: string)
    requires Distinct(AllNames(norm, options)) && i < j < |options|
    requires HasName(norm, options[i], norm(answer))
    ensures !HasName(norm, options[j], norm(answer))
  {
    var n := |options| - 1;
    var before, last := AllNames(norm, options[..n]), NormalizeAll(norm, [options[n].labelText] + options[n].aliases);
    assert AllNames(norm, options) == before + last;
    DistinctConcat(before, last);
    if j < n {
      AnswerNamesOneOption(norm, options[..n], i, j, answer);
    } else {
      NameIsListed(norm, options[..n], i, norm(answer));
    }
  }

  ghost predicate InFlow(def: FlowDefinition, id: string) { id in Ids(def.nodes) }

  lemma LinkIsEdge(norm: string -> string, def: FlowDefinition, id: string, next: string)
    requires WellFormed(def) && InFlow(def, id) && next in Targets(NodeById(def.nodes, id))
    ensures Edge(References(def.nodes), id, next) && InFlow(def, next) && next in References(def.nodes)
  {
    LinksOf(def, id);
    ReferencesFacts(def.nodes);
    KnownTargetsIsClosed(def);
  }

  lemma CaptureFollowsALink(norm: string -> string, store: Storing, node: FlowNode, c: Candidate, answer: string)
    requires NodeOk(norm, node) && node.kind in {Question, Choice}
    ensures var r := Capture(norm, store, node, c, answer); r.Some? ==> r.value.1 in Targets(node)
    ensures var r := NextAfterExisting(norm, node, c); r.Some? ==> r.value in Targets(node)
  {
    SelectedIsAnOption(norm, node.options, answer);
    SelectedIsAnOption(norm, node.options, ReadField(c, node.field));
    forall o | o in node.options ensures o.nextNodeId in Targets(node) {
      var i :| 0 <= i < |node.options| && node.options[i] == o;
      assert OptionTargets(node.options)[i] == o.nextNodeId;
    }
  }

  /** What one pass of the engine's loop decides at a step. */
  datatype Move =
    | Follow(next: string, awaiting: Option<string>, canConsume: bool, candidate: Candidate)
    | Stop(reply: Reply, awaiting: Option<string>, candidate: Candidate)

  function Decide(norm: string -> string, store: Storing, node: FlowNode, awaiting: Option<string>, canConsume: bool,
                  candidate: Candidate, message: string): Move
  {
    match node.kind
    case Message => Follow(NextId(node), awaiting, canConsume, candidate)
    case Question => DecideQuestion(norm, store, node, awaiting, canConsume, candidate, message)
    case Choice => DecideQuestion(norm, store, node, awaiting, canConsume, candidate, message)
    case Handoff => Stop(Completed(node.id, Handoff), None, candidate)
    case End => Stop(Completed(node.id, End), None, candidate)
  }

  function DecideQuestion(norm: string -> string, store: Storing, node: FlowNode, awaiting: Option<string>,
                          canConsume: bool, candidate: Candidate, message: string): Move
  {
    var existing := if node.skipIfPresent && FieldIsPresent(candidate, node.field)
                    then NextAfterExisting(norm, node, candidate) else None;
    if existing.Some? then Follow(existing.value, None, canConsume, candidate)
    else if awaiting == Some(node.id) && canConsume then
      var captured := Capture(norm, store, node, candidate, message);
      if captured.None? then Stop(Rejected(node.id), awaiting, candidate)
      else Follow(captured.value.1, None, false, captured.value.0)
    else Stop(Asked(node.id), Some(node.id), candidate)
  }

  /** A stop at a step is a completed terminal, a question asked, or an awaited answer refused with nothing changed. */
  ghost predicate Settled(node: FlowNode, awaiting: Option<string>, canConsume: bool, candidate: Candidate, move: Move)
    requires move.Stop?
  {
    match move.reply
    case Completed(id, kind) => id == node.id && kind == node.kind && IsTerminal(node) && move.awaiting.None?
    case Asked(id) => id == node.id && node.kind in {Question, Choice} && move.awaiting == Some(id)
    case Rejected(id) =>
      && id == node.id && node.kind in {Question, Choice} && canConsume
      && move.awaiting == awaiting == Some(id) && move.candidate == candidate
    case _ => false
  }

  lemma DecideFollowsALink(norm: string -> string, store: Storing, node: FlowNode, awaiting: Option<string>,
                           canConsume: bool, candidate: Candidate, message: string)
    requires NodeOk(norm, node)
    ensures var move := Decide(norm, store, node, awaiting, canConsume, candidate, message);
            && (move.Follow? ==>
                 move.next in Targets(node) && !(move.canConsume && move.awaiting.Some? && node.kind != Message))
            && (move.Stop? ==> Settled(node, awaiting, canConsume, candidate, move))
  {
    NonTerminalLinks(norm, node);
    if node.kind in {Question, Choice} {
      CaptureFollowsALink(norm, store, node, candidate, message);
    }
  }

  /** One pass of the loop, seen from the script so far. */
  lemma MoveFacts(norm: string -> string, store: Storing, def: FlowDefinition, trail: seq<string>,
                  awaiting: Option<string>, canConsume: bool, candidate: Candidate, message: string)
    requires WellFormed(def) && NodesOk(norm, def) && Path(References(def.nodes), trail)
    ensures |trail| <= |def.nodes| && InFlow(def, trail[|trail| - 1])
    ensures |trail| > 1 ==> trail[0] != trail[|trail| - 1]
    ensures var node := NodeById(def.nodes, trail[|trail| - 1]);
            var move := Decide(norm, store, node, awaiting, canConsume, candidate, message);
            && (move.Follow? ==> Path(References(def.nodes), trail + [move.next])
                                 && !(move.canConsume && move.awaiting.Some? && node.kind != Message)
                                 && (node.kind == Message ==> move.awaiting == awaiting)
                                 && (move.canConsume ==> canConsume))
            && (move.Stop? ==> Settled(node, awaiting, canConsume, candidate, move))
  {
    var last := trail[|trail| - 1];
    EveryScriptEnds(norm, def, trail);
    var node := NodeById(def.nodes, last);
    DecideFollowsALink(norm, store, node, awaiting, canConsume, candidate, message);
    var move := Decide(norm, store, node, awaiting, canConsume, candidate, message);
    if move.Follow? {
      LinkIsEdge(norm, def, last, move.next);
      PathExtend(References(def.nodes), trail, move.next);
    }
  }

  // ----- what a message does, in terms of names and links alone

  /** The option's label or one of its aliases has that normal form. */
  ghost predicate Named(norm: string -> string, o: FlowChoice, name: string)
  {
    name == norm(o.labelText) || exists a :: a in o.aliases && norm(a) == name
  }

  /** An option of the step is named, and leads to the target. */
  ghost predicate Chosen(norm: string -> string, node: FlowNode, name: string, o: FlowChoice, target: string)
  {
    o in node.options && Named(norm, o, name) && o.nextNodeId == target
  }

  /** The step needs no answer: its field is filled, and if it is a choice, with the name of an option. Telephone and
      address are filled without being readable. */
  ghost predicate Skips(norm: string -> string, node: FlowNode, c: Candidate, target: string)
  {
    && node.skipIfPresent && node.field.Some? && node.field.value in c && c[node.field.value] != ""
    && if node.kind != Choice then node.nextNodeId == Some(target)
       else var value := if node.field.value in {"phone", "email"} then "" else c[node.field.value];
            exists o :: Chosen(norm, node, norm(value), o, target)
  }

  ghost predicate CanSkip(norm: string -> string, node: FlowNode, c: Candidate)
  {
    exists target :: Skips(norm, node, c, target)
  }

  /** The message answers the step: a choice stores the label of the option named and goes where that option leads. */
  ghost predicate Accepts(norm: string -> string, store: Storing, node: FlowNode, before: Candidate, message: string,
                          after: Candidate, target: string)
  {
    if node.kind == Choice then
      exists o :: Chosen(norm, node, norm(message), o, target) && store(node, o.labelText, before) == Some(after)
    else node.nextNodeId == Some(target) && store(node, message, before) == Some(after)
  }

  ghost predicate Refuses(norm: string -> string, store: Storing, node: FlowNode, c: Candidate, message: string)
  {
    forall after, target :: !Accepts(norm, store, node, c, message, after, target)
  }

  /** One link followed, by a step that found one candidate and left another. */
  ghost predicate Hop(norm: string -> string, store: Storing, node: FlowNode, before: Candidate, after: Candidate,
                      consumes: bool, message: string, target: string)
  {
    match node.kind
    case Message => node.nextNodeId == Some(target)
    case Handoff => false
    case End => false
    case _ =>
      || Skips(norm, node, before, target)
      || (consumes && !CanSkip(norm, node, before) && Accepts(norm, store, node, before, message, after, target))
  }

  /** The message answers the step where the conversation stands. */
  predicate Consumes(def: FlowDefinition, c: Conversation, sameRevision: bool, consumeInput: bool)
  {
    sameRevision && consumeInput && c.position.Some? && c.position.value in Ids(def.nodes) && c.awaiting == c.position
  }

  ghost predicate HopAt(norm: string -> string, store: Storing, def: FlowDefinition, c: Conversation, consumes: bool,
                        message: string, trail: seq<string>, candidate: Candidate, i: nat)
    requires i < |trail| - 1
  {
    InFlow(def, trail[i]) && Hop(norm, store, NodeById(def.nodes, trail[i]), if i == 0 then c.candidate else candidate,
                                 candidate, i == 0 && consumes, message, trail[i + 1])
  }

  /** Every link followed is that of a message step, of a step already answered, or of the answer that the first step
      was waiting for; that answer alone changes the candidate. */
  ghost predicate Route(norm: string -> string, store: Storing, def: FlowDefinition, c: Conversation, consumes: bool,
                        message: string, trail: seq<string>, candidate: Candidate)
  {
    && (forall i :: 0 <= i < |trail| - 1 ==> HopAt(norm, store, def, c, consumes, message, trail, candidate, i))
    && (candidate == c.candidate ||
        (|trail| > 1 && InFlow(def, trail[0]) && NodeById(def.nodes, trail[0]).kind in {Question, Choice}
         && !CanSkip(norm, NodeById(def.nodes, trail[0]), c.candidate)))
  }

  /** Where it stops: at a terminal step, or at a step that cannot be skipped, whose answer was refused or is asked. */
  ghost predicate Finishes(norm: string -> string, store: Storing, node: FlowNode, before: Candidate, consumes: bool,
                           message: string, reply: Reply, next: Conversation)
  {
    match node.kind
    case Message => false
    case Handoff => reply == Completed(node.id, Handoff) && next.completed && next.awaiting == None
    case End => reply == Completed(node.id, End) && next.completed && next.awaiting == None
    case _ =>
      && !CanSkip(norm, node, before) && !next.completed && next.awaiting == Some(node.id)
      && if consumes then reply == Rejected(node.id) && Refuses(norm, store, node, before, message)
         else reply == Asked(node.id)
  }

  lemma HasNameIffNamed(norm: string -> string, o: FlowChoice, name: string)
    ensures HasName(norm, o, name) <==> Named(norm, o, name)
  {
    var values := [o.labelText] + o.aliases;
    var names := NormalizeAll(norm, values);
    assert values[0] == o.labelText && names[0] == norm(o.labelText);
    forall i | 0 <= i < |o.aliases| ensures values[i + 1] == o.aliases[i] && names[i + 1] == norm(o.aliases[i]) {
    }
  }

  /** The option found is the one option of a checked step that bears the name. */
  lemma SelectedIsTheOne(norm: string -> string, node: FlowNode, answer: string)
    requires NodeOk(norm, node) && node.kind == Choice
    ensures var s := SelectedOption(norm, node.options, answer);
            forall o :: (o in node.options && Named(norm, o, norm(answer))) <==> s == Some(o)
  {
    var s := SelectedOption(norm, node.options, answer);
    SelectedIsAnOption(norm, node.options, answer);
    forall o ensures (o in node.options && Named(norm, o, norm(answer))) <==> s == Some(o) {
      HasNameIffNamed(norm, o, norm(answer));
      if o in node.options && HasName(norm, o, norm(answer)) {
        var i :| 0 <= i < |node.options| && node.options[i] == o;
        var j :| 0 <= j < |node.options| && node.options[j] == s.value;
        if i < j { AnswerNamesOneOption(norm, node.options, i, j, answer); }
        if j < i { AnswerNamesOneOption(norm, node.options, j, i, answer); }
      }
    }
  }

  lemma SkipMeans(norm: string -> string, node: FlowNode, c: Candidate)
    requires NodeOk(norm, node) && node.kind in {Question, Choice}
    ensures var existing := if node.skipIfPresent && FieldIsPresent(c, node.field)
              then NextAfterExisting(norm, node, c) else None;
            && (existing.Some? <==> CanSkip(norm, node, c))
            && (existing.Some? ==> Skips(norm, node, c, existing.value))
  {
    if node.skipIfPresent && FieldIsPresent(c, node.field) {
      var value := ReadField(c, node.field);
      if node.kind == Choice {
        SelectedIsTheOne(norm, node, value);
        var s := SelectedOption(norm, node.options, value);
        if s.Some? {
          assert Chosen(norm, node, norm(value), s.value, s.value.nextNodeId);
          assert Skips(norm, node, c, s.value.nextNodeId);
        }
      } else {
        assert Skips(norm, node, c, NextId(node));
      }
    }
  }

  lemma CaptureMeans(norm: string -> string, store: Storing, node: FlowNode, c: Candidate, answer: string)
    requires NodeOk(norm, node) && node.kind in {Question, Choice}
    ensures var r := Capture(norm, store, node, c, answer);
            && (r.Some? ==> Accepts(norm, store, node, c, answer, r.value.0, r.value.1))
            && (r.None? ==> Refuses(norm, store, node, c, answer))
  {
    if node.kind == Choice {
      SelectedIsTheOne(norm, node, answer);
      var s := SelectedOption(norm, node.options, answer);
      if s.Some? { assert Chosen(norm, node, norm(answer), s.value, s.value.nextNodeId); }
    }
  }

  lemma DecideMeans(norm: string -> string, store: Storing, node: FlowNode, awaiting: Option<string>, canConsume: bool,
                    c: Candidate, message: string)
    requires NodeOk(norm, node)
    ensures var move := Decide(norm, store, node, awaiting, canConsume, c, message);
            var consumes := canConsume && awaiting == Some(node.id);
            && (move.Follow? ==>
                 && Hop(norm, store, node, c, move.candidate, consumes, message, move.next)
                 && (move.candidate == c || (consumes && node.kind in {Question, Choice} && !CanSkip(norm, node, c))))
            && (move.Stop? ==>
                 && move.candidate == c
                 && Finishes(norm, store, node, c, consumes, message, move.reply, Stopped(node.id, move)))
  {
    if node.kind in {Question, Choice} {
      SkipMeans(norm, node, c);
      CaptureMeans(norm, store, node, c, message);
    }
  }

  /** The engine awaits an answer only where it stands. */
  predicate AwaitsWhereItStands(c: Conversation) { c.awaiting.None? || c.awaiting == c.position }

  predicate Resumed(def: FlowDefinition, c: Conversation, sameRevision: bool)
  {
    sameRevision && c.position.Some? && c.position.value in Ids(def.nodes)
  }

  function StartOf(def: FlowDefinition, c: Conversation, sameRevision: bool): string
  {
    if Resumed(def, c, sameRevision) then c.position.value else def.startNodeId
  }

  /** What one message may do: follow links from where the conversation stood, passing no step twice, and stop at a
      question, a refused answer that changed nothing, or a terminal step. */
  ghost predicate Proper(def: FlowDefinition, c: Conversation, sameRevision: bool, reply: Reply, next: Conversation,
                         trail: seq<string>)
  {
    && Path(References(def.nodes), trail) && |trail| <= |def.nodes| && trail[0] == StartOf(def, c, sameRevision)
    && var last := trail[|trail| - 1];
       && InFlow(def, last) && next.position == Some(last) && AwaitsWhereItStands(next)
            && (next.completed <==> reply.Completed?)
       && match reply
          case Completed(id, kind) =>
            id == last && kind == NodeById(def.nodes, last).kind && IsTerminal(NodeById(def.nodes, last))
          case Asked(id) =>
            id == last && NodeById(def.nodes, last).kind in {Question, Choice} && next.awaiting == Some(id)
          case Rejected(id) =>
            trail == [id] && NodeById(def.nodes, last).kind in {Question, Choice} && sameRevision && next == c
          case _ => false
  }

  /** Where the loop stands after some passes. */
  ghost predicate Walking(def: FlowDefinition, c: Conversation, sameRevision: bool, trail: seq<string>,
                          awaiting: Option<string>, canConsume: bool, candidate: Candidate)
  {
    && Path(References(def.nodes), trail) && trail[0] == StartOf(def, c, sameRevision)
    && (|trail| == 1 ==> candidate == c.candidate && (Resumed(def, c, sameRevision) ==> awaiting == c.awaiting))
    && (canConsume ==> Resumed(def, c, sameRevision))
    && (|trail| > 1 && canConsume && awaiting.Some? ==> awaiting == Some(trail[0]))
  }

  /** The conversation as the engine leaves it at a step. */
  function Stopped(nodeId: string, move: Move): Conversation
    requires move.Stop?
  {
    Conversation(Some(nodeId), move.awaiting, move.candidate, move.reply.Completed?)
  }

  /** Everything one message does: the links it follows and where it stops. */
  ghost predicate Handled(norm: string -> string, store: Storing, def: FlowDefinition, c: Conversation, consumes: bool,
                          message: string, trail: seq<string>, reply: Reply, next: Conversation)
  {
    && trail != [] && InFlow(def, Last(trail))
    && Route(norm, store, def, c, consumes, message, trail, next.candidate)
    && Finishes(norm, store, NodeById(def.nodes, Last(trail)), if |trail| == 1 then c.candidate else next.candidate,
                |trail| == 1 && consumes, message, reply, next)
  }

  /** The loop's variables after some passes: only the first step can still be waiting for this message. */
  ghost predicate Tracked(norm: string -> string, store: Storing, def: FlowDefinition, c: Conversation, consumes: bool,
                          message: string, trail: seq<string>, awaiting: Option<string>, canConsume: bool,
                          candidate: Candidate)
  {
    && trail != [] && Route(norm, store, def, c, consumes, message, trail, candidate)
    && (|trail| == 1 ==> (canConsume && awaiting == Some(trail[0]) <==> consumes))
  }

  lemma RouteGrows(norm: string -> string, store: Storing, def: FlowDefinition, c: Conversation, consumes: bool,
                   message: string, trail: seq<string>, before: Candidate, after: Candidate, target: string)
    requires trail != [] && InFlow(def, Last(trail)) && (|trail| == 1 ==> before == c.candidate)
    requires Route(norm, store, def, c, consumes, message, trail, before)
    requires var node := NodeById(def.nodes, Last(trail));
             && Hop(norm, store, node, before, after, |trail| == 1 && consumes, message, target)
             && (after == before
                 || (|trail| == 1 && node.kind in {Question, Choice} && !CanSkip(norm, node, before)))
    ensures Route(norm, store, def, c, consumes, message, trail + [target], after)
  {
    forall i | 0 <= i < |trail| ensures HopAt(norm, store, def, c, consumes, message, trail + [target], after, i) {
      if i < |trail| - 1 { assert HopAt(norm, store, def, c, consumes, message, trail, before, i); }
    }
  }

  lemma MoveTracks(norm: string -> string, store: Storing, def: FlowDefinition, c: Conversation, sameRevision: bool,
                   consumes: bool, message: string, trail: seq<string>, awaiting: Option<string>, canConsume: bool,
                   candidate: Candidate)
    requires WellFormed(def) && NodesOk(norm, def)
    requires Walking(def, c, sameRevision, trail, awaiting, canConsume, candidate)
    requires Tracked(norm, store, def, c, consumes, message, trail, awaiting, canConsume, candidate)
    ensures InFlow(def, Last(trail))
    ensures var move := Decide(norm, store, NodeById(def.nodes, Last(trail)), awaiting, canConsume, candidate, message);
            && (move.Follow? ==> Tracked(norm, store, def, c, consumes, message, trail + [move.next], move.awaiting,
                                         move.canConsume, move.candidate))
            && (move.Stop? ==>
                 Handled(norm, store, def, c, consumes, message, trail, move.reply, Stopped(Last(trail), move)))
  {
    MoveFacts(norm, store, def, trail, awaiting, canConsume, candidate, message);
    var node := NodeById(def.nodes, Last(trail));
    DecideMeans(norm, store, node, awaiting, canConsume, candidate, message);
    var move := Decide(norm, store, node, awaiting, canConsume, candidate, message);
    if move.Follow? {
      RouteGrows(norm, store, def, c, consumes, message, trail, candidate, move.candidate, move.next);
    }
  }

  lemma MoveWalks(norm: string -> string, store: Storing, def: FlowDefinition, c: Conversation, sameRevision: bool,
                  trail: seq<string>, awaiting: Option<string>, canConsume: bool, candidate: Candidate, message: string)
    requires WellFormed(def) && NodesOk(norm, def) && AwaitsWhereItStands(c) && !c.completed
    requires Walking(def, c, sameRevision, trail, awaiting, canConsume, candidate) && InFlow(def, Last(trail))
    ensures var move := Decide(norm, store, NodeById(def.nodes, Last(trail)), awaiting, canConsume, candidate, message);
            && (move.Follow? ==>
                 Walking(def, c, sameRevision, trail + [move.next], move.awaiting, move.canConsume, move.candidate))
            && (move.Stop? ==> Proper(def, c, sameRevision, move.reply, Stopped(Last(trail), move), trail))
  {
    MoveFacts(norm, store, def, trail, awaiting, canConsume, candidate, message);
  }

  /** One pass of the loop keeps what is known of it, or ends it as promised. */
  lemma OnePass(norm: string -> string, store: Storing, def: FlowDefinition, c: Conversation, sameRevision: bool,
                consumes: bool, message: string, trail: seq<string>, awaiting: Option<string>, canConsume: bool,
                candidate: Candidate)
    requires WellFormed(def) && NodesOk(norm, def) && AwaitsWhereItStands(c) && !c.completed
    requires Walking(def, c, sameRevision, trail, awaiting, canConsume, candidate)
    requires Tracked(norm, store, def, c, consumes, message, trail, awaiting, canConsume, candidate)
    ensures InFlow(def, Last(trail))
    ensures var move := Decide(norm, store, NodeById(def.nodes, Last(trail)), awaiting, canConsume, candidate, message);
            && (move.Follow? ==>
                 && Walking(def, c, sameRevision, trail + [move.next], move.awaiting, move.canConsume, move.candidate)
                 && Tracked(norm, store, def, c, consumes, message, trail + [move.next], move.awaiting,
                            move.canConsume, move.candidate))
            && (move.Stop? ==>
                 && Proper(def, c, sameRevision, move.reply, Stopped(Last(trail), move), trail)
                 && Handled(norm, store, def, c, consumes, message, trail, move.reply, Stopped(Last(trail), move)))
  {
    MoveTracks(norm, store, def, c, sameRevision, consumes, message, trail, awaiting, canConsume, candidate);
    MoveWalks(norm, store, def, c, sameRevision, trail, awaiting, canConsume, candidate, message);
  }

  /** One inbound message. An inactive flow and a completed conversation are left alone. On an accepted flow of at most
      fifty steps the engine never reaches its error exit. */
  method Process(norm: string -> string, store: Storing, def: FlowDefinition, active: bool, conversation: Conversation,
                 sameRevision: bool, message: string, consumeInput: bool)
    returns (reply: Reply, next: Conversation, ghost trail: seq<string>)
    requires WellFormed(def) && NodesOk(norm, def) && |def.nodes| <= 50
    requires AwaitsWhereItStands(conversation)
    ensures reply != TerminalError
    ensures !active || conversation.completed ==> reply == Ignored && next == conversation && trail == []
    ensures active && !conversation.completed ==> Proper(def, conversation, sameRevision, reply, next, trail)
    ensures active && !conversation.completed ==>
              var position := conversation.position;
              trail[0] == if sameRevision && position.Some? && position.value in Ids(def.nodes) then position.value
                else def.startNodeId
    ensures active && !conversation.completed ==>
              Handled(norm, store, def, conversation, Consumes(def, conversation, sameRevision, consumeInput), message,
                      trail, reply, next)
  {
    if !active || conversation.completed {
      return Ignored, conversation, [];
    }
    ReferencesFacts(def.nodes);
    var resumed := Resumed(def, conversation, sameRevision);
    var nodeId := StartOf(def, conversation, sameRevision);
    var canConsume := resumed && consumeInput;
    var awaiting := if resumed then conversation.awaiting else None;
    var candidate := conversation.candidate;
    ghost var consumes := Consumes(def, conversation, sameRevision, consumeInput);
    trail := [nodeId];
    for i := 0 to STEP_LIMIT
      invariant |trail| == i + 1 && trail[i] == nodeId
      invariant Walking(def, conversation, sameRevision, trail, awaiting, canConsume, candidate)
      invariant Tracked(norm, store, def, conversation, consumes, message, trail, awaiting, canConsume, candidate)
    {
      OnePass(norm, store, def, conversation, sameRevision, consumes, message, trail, awaiting, canConsume, candidate);
      var move := Decide(norm, store, NodeById(def.nodes, nodeId), awaiting, canConsume, candidate, message);
      if move.Stop? {
        return move.reply, Stopped(nodeId, move), trail;
      }
      trail := trail + [move.next];
      nodeId, awaiting, canConsume, candidate := move.next, move.awaiting, move.canConsume, move.candidate;
    }
    PathsAreBounded(norm, def, trail);
    assert false;
    reply, next := TerminalError, conversation;
  }

  lemma PathsAreBounded(norm: string -> string, def: FlowDefinition, trail: seq<string>)
    requires WellFormed(def) && NodesOk(norm, def) && Path(References(def.nodes), trail)
    ensures |trail| <= |def.nodes|
  {
    EveryScriptEnds(norm, def, trail);
  }

  // ----- a whole conversation

  datatype Inbound = Inbound(text: string, consumeInput: bool)

  function Last(s: seq<string>): string requires s != [] { s[|s| - 1] }

  /** The trails so far follow one another from the start step, and the conversation stands where they end; it is
      completed exactly when that is a terminal step. */
  ghost predicate Followed(def: FlowDefinition, trails: seq<seq<string>>, c: Conversation)
  {
    && Successive(References(def.nodes), trails) && trails[0][0] == def.startNodeId
    && var last := Last(trails[|trails| - 1]);
       InFlow(def, last) && c.position == Some(last) && (c.completed <==> IsTerminal(NodeById(def.nodes, last)))
  }

  lemma FollowOneMore(def: FlowDefinition, trails: seq<seq<string>>, c: Conversation, reply: Reply, next: Conversation,
                      trail: seq<string>)
    requires !c.completed && (trails == [] || Followed(def, trails, c))
    requires Proper(def, c, trails != [], reply, next, trail)
    ensures Followed(def, trails + [trail], next)
  {
    SuccessiveAppend(References(def.nodes), trails, trail);
  }

  ghost predicate SomeCompleted(replies: seq<Reply>, n: nat)
  {
    exists i :: 0 <= i < n && i < |replies| && replies[i].Completed?
  }

  /** After a completing reply the engine is silent, and only then; it never reports an error. */
  ghost predicate SilentAfterEnd(replies: seq<Reply>)
  {
    && TerminalError !in replies
    && forall j :: 0 <= j < |replies| ==> (replies[j] == Ignored <==> SomeCompleted(replies, j))
  }

  lemma SilentAppend(replies: seq<Reply>, reply: Reply)
    requires SilentAfterEnd(replies) && reply != TerminalError
    requires (reply == Ignored <==> SomeCompleted(replies, |replies|))
    ensures SilentAfterEnd(replies + [reply])
    ensures SomeCompleted(replies + [reply], |replies| + 1) <==> SomeCompleted(replies, |replies|) || reply.Completed?
  {
    var next := replies + [reply];
    forall j | 0 <= j <= |replies| ensures SomeCompleted(next, j) <==> SomeCompleted(replies, j) {
      assert forall i :: 0 <= i < j ==> next[i] == replies[i];
    }
    assert next[|replies|] == reply;
  }

  /** A conversation from its first message on, under one revision of an accepted flow: together its messages walk one
      script of the flow from the start step, passing no step twice; it is completed exactly when that script has
      reached a terminal step, and from then on messages are not handled. */
  method Converse(norm: string -> string, store: Storing, def: FlowDefinition, start: Conversation,
                  messages: seq<Inbound>)
    returns (replies: seq<Reply>, end: Conversation, ghost trails: seq<seq<string>>)
    requires WellFormed(def) && NodesOk(norm, def) && |def.nodes| <= 50
    requires AwaitsWhereItStands(start) && !start.completed && messages != []
    ensures |replies| == |messages| && SilentAfterEnd(replies)
    ensures Followed(def, trails, end)
    ensures |Glue(trails)| <= |def.nodes| && Distinct(Glue(trails))
    ensures Path(References(def.nodes), Glue(trails)) && end.position == Some(Last(Glue(trails)))
  {
    replies, end, trails := [], start, [];
    for i := 0 to |messages|
      invariant |replies| == i && SilentAfterEnd(replies) && AwaitsWhereItStands(end)
      invariant if i == 0 then end == start && trails == [] else Followed(def, trails, end)
      invariant end.completed <==> SomeCompleted(replies, i)
    {
      var reply, next, trail := Process(norm, store, def, true, end, i > 0, messages[i].text, messages[i].consumeInput);
      if !end.completed {
        FollowOneMore(def, trails, end, reply, next, trail);
        trails := trails + [trail];
      }
      SilentAppend(replies, reply);
      replies, end := replies + [reply], next;
    }
    ConversationIsOneScript(norm, def, trails);
    GlueIsPath(References(def.nodes), trails);
  }
}
