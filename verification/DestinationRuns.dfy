/** The life of the destination table under imports, creation, edits, deletion and re-validation, one by one or in
    batches. */
module DestinationRuns {
  import opened Common
  import opened DestinationImport
  import opened DestinationStore
  import opened BatchValidation

  datatype Action =
    | ImportRows(env: Environment, rows: seq<ParsedRow>, dryRun: bool)
    | Create(connectionId: string, payload: Payload, answer: Result<Resolved, GatewayError>)
    | Patch(index: nat, title: string, enabled: bool, permissionConfirmed: bool)
    | Delete(index: nat, linked: bool)
    | Validate(index: nat, answer: Result<Resolved, GatewayError>)
    | ValidateMany(caller: Caller, ids: seq<nat>, order: seq<nat>)

  /** A batch that names an id twice is refused; so is one whose flush meets the constraint. */
  predicate Commits(t: Table, c: Caller, ids: seq<nat>, order: seq<nat>)
  {
    var session := Loop(c, t.store, ids).store;
    Distinct(ids) && Covers(order, t.store, session) && Flush(t.store, session, order).Some?
  }

  function Step(t: Table, a: Action): Table
  {
    match a
    case ImportRows(env, rows, dryRun) =>
      var p := Import(env, dryRun, t.store, t.nextId, rows);
      Table(p.store, p.nextId)
    case Create(connectionId, payload, answer) =>
      var r := AfterCreate(t, connectionId, payload, answer);
      if r.Ok? then r.value else t
    case Patch(i, title, enabled, confirmed) => AfterPatch(t, i, title, enabled, confirmed)
    case Delete(i, linked) => AfterDelete(t, i, linked)
    case Validate(i, answer) => AfterValidate(t, i, answer)
    case ValidateMany(c, ids, order) =>
      if Commits(t, c, ids, order) then t.(store := Flush(t.store, Loop(c, t.store, ids).store, order).value) else t
  }

  function Run(t: Table, actions: seq<Action>): Table
    decreases |actions|
  {
    if actions == [] then t else Run(Step(t, actions[0]), actions[1..])
  }

  /** An edit changes the label and the two switches of its own destination; a deletion takes away its own destination,
      unless a campaign uses it. */
  lemma EditsAndDeletions(t: Table, i: nat, title: string, enabled: bool, confirmed: bool, linked: bool)
    requires i < |t.store|
    ensures var edited, left := Step(t, Patch(i, title, enabled, confirmed)), Step(t, Delete(i, linked));
            && edited == t.(store := t.store[i := edited.store[i]])
            && edited.store[i] == t.store[i].(title := title, enabled := enabled, permissionConfirmed := confirmed)
            && (linked ==> left == t)
            && (!linked ==> left.nextId == t.nextId && |left.store| == |t.store| - 1
                            && forall k :: 0 <= k < |left.store| ==>
                                 left.store[k] == t.store[if k < i then k else k + 1])
  {
  }

  /** Re-validation keeps topic-less destinations apart. */
  predicate Allowed(t: Table, a: Action)
  {
    && (a.Validate? && a.answer.Ok? && a.index < |t.store| ==>
         SafeToRevalidate(t.store, a.index, a.answer.value.chatId))
    && (a.ValidateMany? && Commits(t, a.caller, a.ids, a.order) ==> TopiclessApart(a.caller, t.store, a.ids))
  }

  predicate AllAllowed(t: Table, actions: seq<Action>)
    decreases |actions|
  {
    actions != [] ==> Allowed(t, actions[0]) && AllAllowed(Step(t, actions[0]), actions[1..])
  }

  /** Ids are handed out once. */
  ghost predicate Numbered(store: seq<Destination>, nextId: nat)
  {
    UniqueRowIds(store) && forall i :: 0 <= i < |store| ==> store[i].id < nextId
  }

  lemma {:induction false} ImportKeepsNumbered(env: Environment, dryRun: bool, t: Table, rows: seq<ParsedRow>)
    requires Numbered(t.store, t.nextId)
    ensures var p := Import(env, dryRun, t.store, t.nextId, rows); Numbered(p.store, p.nextId)
  {
    if rows != [] {
      ImportKeepsNumbered(env, dryRun, t, rows[..|rows| - 1]);
    }
  }

  lemma SameIdsNumbered(before: seq<Destination>, after: seq<Destination>, nextId: nat)
    requires Numbered(before, nextId) && |after| == |before| && forall i :: 0 <= i < |after| ==>
               after[i].id == before[i].id
    ensures Numbered(after, nextId)
  {
  }

  lemma {:induction false} BatchKeepsIds(t: Table, c: Caller, ids: seq<nat>, order: seq<nat>)
    requires UniqueKeys(t.store) && UniqueRowIds(t.store) && Commits(t, c, ids, order)
    ensures var after := Step(t, ValidateMany(c, ids, order)).store;
            |after| == |t.store| && forall i :: 0 <= i < |after| ==> after[i].id == t.store[i].id
  {
    var session := Loop(c, t.store, ids).store;
    BatchIsRowByRow(c, t.store, ids);
    CommittedIsSession(t.store, session, order);
  }

  lemma DeleteKeepsNumbered(t: Table, i: nat)
    requires Numbered(t.store, t.nextId) && i < |t.store|
    ensures Numbered(Others(t.store, i), t.nextId)
  {
    var r := Others(t.store, i);
    assert forall k :: 0 <= k < |r| ==> r[k] == t.store[if k < i then k else k + 1];
  }

  lemma StepKeepsNumbered(t: Table, a: Action)
    requires UniqueKeys(t.store) && Numbered(t.store, t.nextId)
    ensures Numbered(Step(t, a).store, Step(t, a).nextId)
  {
    match a
    case ImportRows(env, rows, dryRun) => ImportKeepsNumbered(env, dryRun, t, rows);
    case Create(_, _, _) =>
    case Patch(_, _, _, _) => SameIdsNumbered(t.store, Step(t, a).store, t.nextId);
    case Delete(i, linked) => if i < |t.store| { DeleteKeepsNumbered(t, i); }
    case Validate(_, _) => SameIdsNumbered(t.store, Step(t, a).store, t.nextId);
    case ValidateMany(c, ids, order) =>
      if Commits(t, c, ids, order) {
        BatchKeepsIds(t, c, ids, order);
        SameIdsNumbered(t.store, Step(t, a).store, t.nextId);
      }
  }

  lemma StepKeepsUnique(t: Table, a: Action)
    requires UniqueKeys(t.store) && UniqueRowIds(t.store) && Allowed(t, a)
    ensures UniqueKeys(Step(t, a).store)
  {
    match a
    case ImportRows(env, rows, dryRun) => ImportKeepsUnique(env, dryRun, t, rows);
    case Create(connectionId, payload, answer) =>
      var r := AfterCreate(t, connectionId, payload, answer);
      if r.Ok? {
        AppendKeepsUnique(t.store, r.value.store[|t.store|]);
      }
    case Patch(i, _, _, _) => if i < |t.store| { RelabelKeepsUnique(t.store, i, Step(t, a).store[i]); }
    case Delete(i, linked) => if i < |t.store| { DeleteKeepsUnique(t.store, i); }
    case Validate(i, answer) =>
      if i < |t.store| {
        if answer.Ok? { RevalidationKeepsUniqueIff(t, i, answer.value); }
            else { RelabelKeepsUnique(t.store, i, Checked(t.store[i], answer)); }
      }
    case ValidateMany(c, ids, order) => if Commits(t, c, ids, order) { BatchKeepsUniqueIff(c, t.store, ids, order); }
  }

  /** Over any sequence of imports, creations, edits, deletions, safe re-validations and safe batches no two
      destinations of one connection share chat and topic, although the table's constraint does not cover null
      topics. */
  lemma {:induction false} EveryRunKeepsKeysUnique(t: Table, actions: seq<Action>)
    requires UniqueKeys(t.store) && Numbered(t.store, t.nextId) && AllAllowed(t, actions)
    ensures UniqueKeys(Run(t, actions).store) && Numbered(Run(t, actions).store, Run(t, actions).nextId)
    decreases |actions|
  {
    if actions != [] {
      StepKeepsUnique(t, actions[0]);
      StepKeepsNumbered(t, actions[0]);
      EveryRunKeepsKeysUnique(Step(t, actions[0]), actions[1..]);
    }
  }
}
