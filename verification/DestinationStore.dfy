/** The life of the destination table under imports, creation, edits, deletion and re-validation
    (app/api/destinations.py). */
module DestinationStore {
  import opened Common
  import opened DestinationImport

  /** No two destinations of one connection share chat and topic, a null topic counting as a topic. */
  ghost predicate UniqueKeys(store: seq<Destination>)
  {
    forall i, j :: 0 <= i < j < |store| ==> !SameKey(store[i], store[j])
  }

  predicate SameKey(a: Destination, b: Destination)
  {
    a.connectionId == b.connectionId && a.chatId.Some? && a.chatId == b.chatId && a.topicId == b.topicId
  }

  datatype Table = Table(store: seq<Destination>, nextId: nat)

  datatype CreateError = GatewayRefused | AlreadyExists

  /** Creating one destination from what the gateway answered. */
  function AfterCreate(t: Table, connectionId: string, payload: Payload,
                       answer: Result<Resolved, GatewayError>): Result<Table, CreateError>
  {
    if answer.Err? then Err(GatewayRefused) else
      var look := Found(payload, answer.value);
      if InStore(t.store, connectionId, KeyOf(look)) then Err(AlreadyExists) else
        var d := Destination(t.nextId, connectionId, Some(answer.value.chatId), payload.topicId, answer.value.username,
                             TitleOf(look), answer.value.canSend, payload.permissionConfirmed);
        Ok(Table(t.store + [d], t.nextId + 1))
  }

  /** An edit cannot reach the connection, the chat or the topic. */
  function AfterPatch(t: Table, i: nat, title: string, enabled: bool, permissionConfirmed: bool): Table
  {
    if i < |t.store| then
      t.(store := t.store[i := t.store[i].(title := title, enabled := enabled,
                                           permissionConfirmed := permissionConfirmed)])
    else t
  }

  /** A destination used by a campaign is not deleted. */
  function AfterDelete(t: Table, i: nat, linked: bool): Table
  {
    if i < |t.store| && !linked then t.(store := Others(t.store, i)) else t
  }

  function Revalidated(d: Destination, r: Resolved): Destination
  {
    d.(chatId := Some(r.chatId), username := r.username, title := r.title, enabled := d.enabled && r.canSend)
  }

  const FORBIDDEN_CODES: set<string> := {"CHAT_WRITE_FORBIDDEN", "WRITE_PERMISSION_MISSING"}

  /** The row after a check: a gateway that forbids writing disables it, any other failure leaves it as it is. */
  function Checked(d: Destination, answer: Result<Resolved, GatewayError>): Destination
  {
    match answer
    case Ok(r) => Revalidated(d, r)
    case Err(e) => if e.code in FORBIDDEN_CODES then d.(enabled := false) else d
  }

  function Others(store: seq<Destination>, i: nat): seq<Destination>
    requires i < |store|
  {
    store[..i] + store[i + 1..]
  }

  /** Re-validation stores the chat the gateway resolved now; the table's constraint may still refuse that update. */
  function AfterValidate(t: Table, i: nat, answer: Result<Resolved, GatewayError>): Table
  {
    if i >= |t.store| then t else
      var d := Checked(t.store[i], answer);
      if answer.Ok? && ViolatesConstraint(Others(t.store, i), d) then t else t.(store := t.store[i := d])
  }

  /** Another destination of the connection has that chat and the same topic, which is not null. */
  ghost predicate Collides(store: seq<Destination>, i: nat, chatId: int)
    requires i < |store|
  {
    var key := Key(chatId, store[i].topicId);
    key.topicId.Some? && exists j :: 0 <= j < |store| && j != i && HasKey(store[j], store[i].connectionId, key)
  }

  // ----- the handlers, on the table itself

  /** The loop, on the table itself; the results come back, the table changes only when applying. */
  class DestinationTable {
    var store: seq<Destination>
    var nextId: nat

    constructor ()
      ensures store == [] && nextId == 0
    {
      store, nextId := [], 0;
    }

    method BulkDestinationResult(env: Environment, rows: seq<ParsedRow>, dryRun: bool)
      returns (results: seq<ResultRow>, created: nat)
      modifies this
      ensures var p := Import(env, dryRun, old(store), old(nextId), rows);
              results == p.results && created == p.created && store == p.store && nextId == p.nextId
      ensures Accounted(env, dryRun, old(store), rows, results, store)
      ensures created == |store| - |old(store)|
    {
      results, created := [], 0;
      var seen: set<Key>, deferred: Option<int> := {}, None;
      for i := 0 to |rows|
        invariant Import(env, dryRun, old(store), old(nextId), rows[..i]) ==
                    Progress(results, seen, deferred, store, nextId, created)
      {
        var row := rows[i];
        assert rows[..i + 1][..i] == rows[..i];
        if deferred.Some? {
          results := results + [Plain(row, Deferred)];
          continue;
        }
        var look := LookAt(env, row);
        if look.Unusable? {
          results := results + [Plain(row, Error)];
          continue;
        }
        if look.Throttled? {
          results := results + [Plain(row, Error)];
          deferred := Some(look.retryAfter);
          continue;
        }
        var key := KeyOf(look);
        if key in seen || InStore(store, env.connectionId, key) {
          results := results + [Reported(row, look, Duplicate, None)];
          continue;
        }
        seen := seen + {key};
        if dryRun {
          results := results + [Reported(row, look, Ready, None)];
          continue;
        }
        var d := NewDestination(env, row, look, nextId);
        if ViolatesConstraint(store, d) {
          results := results + [Reported(row, look, Duplicate, None)];
          continue;
        }
        store, nextId, created := store + [d], nextId + 1, created + 1;
        results := results + [Reported(row, look, Created, Some(d.id))];
      }
      assert rows[..|rows|] == rows;
      ImportMeans(env, dryRun, old(store), old(nextId), rows);
      CountsAddUp(env, dryRun, old(store), old(nextId), rows);
    }

    method CreateDestination(connectionId: string, payload: Payload, answer: Result<Resolved, GatewayError>)
      returns (r: Result<Destination, CreateError>)
      modifies this
      ensures var after := AfterCreate(old(Snapshot()), connectionId, payload, answer);
              Snapshot() == if after.Ok? then after.value else old(Snapshot())
      ensures r.Ok? <==> answer.Ok? && !InStore(old(store), connectionId, Key(answer.value.chatId, payload.topicId))
      ensures r.Ok? ==>
                var d := r.value;
                && store == old(store) + [d] && nextId == old(nextId) + 1 && d.id == old(nextId)
                && HasKey(d, connectionId, Key(answer.value.chatId, payload.topicId))
                && d.username == answer.value.username && Names(payload, answer.value, d.title)
                && d.enabled == answer.value.canSend && d.permissionConfirmed == payload.permissionConfirmed
      ensures r.Err? ==> store == old(store) && nextId == old(nextId) && (r.error.GatewayRefused? <==> answer.Err?)
    {
      if answer.Err? { return Err(GatewayRefused); }
      var look := Found(payload, answer.value);
      if InStore(store, connectionId, KeyOf(look)) { return Err(AlreadyExists); }
      var d := Destination(nextId, connectionId, Some(answer.value.chatId), payload.topicId, answer.value.username,
                           TitleOf(look), answer.value.canSend, payload.permissionConfirmed);
      store, nextId := store + [d], nextId + 1;
      return Ok(d);
    }

    method RevalidateDestination(i: nat, answer: Result<Resolved, GatewayError>) returns (ok: bool)
      modifies this`store
      ensures Snapshot() == AfterValidate(old(Snapshot()), i, answer)
      ensures ok <==> i < |old(store)| && answer.Ok? && !Collides(old(store), i, answer.value.chatId)
      ensures ok ==> store == old(store)[i := old(store)[i].(chatId := Some(answer.value.chatId),
                                username := answer.value.username, title := answer.value.title,
                                enabled := if answer.value.canSend then old(store)[i].enabled else false)]
      ensures !ok ==>
                if i < |old(store)| && answer.Err? && answer.error.code in {"CHAT_WRITE_FORBIDDEN",
                                                                           "WRITE_PERMISSION_MISSING"}
                then store == old(store)[i := old(store)[i].(enabled := false)] else store == old(store)
    {
      if i >= |store| { return false; }
      if answer.Err? {
        if answer.error.code in FORBIDDEN_CODES { store := store[i := store[i].(enabled := false)]; }
        return false;
      }
      var d := Revalidated(store[i], answer.value);
      ConstraintMeaning(store, i, d);
      if ViolatesConstraint(Others(store, i), d) { return false; }
      store := store[i := d];
      return true;
    }

    function Snapshot(): Table
      reads this
    {
      Table(store, nextId)
    }
  }

  /** The resolved chat is not one that another topic-less destination of the same connection already has. */
  predicate SafeToRevalidate(store: seq<Destination>, i: nat, chatId: int)
    requires i < |store|
  {
    store[i].topicId.Some? ||
    forall j :: 0 <= j < |store| && j != i ==> !HasKey(store[j], store[i].connectionId, Key(chatId, None))
  }

  lemma AppendKeepsUnique(store: seq<Destination>, d: Destination)
    requires UniqueKeys(store)
    requires d.chatId.Some? && !InStore(store, d.connectionId, Key(d.chatId.value, d.topicId))
    ensures UniqueKeys(store + [d])
  {
    assert forall i :: 0 <= i < |store| ==> store[i] in store;
  }

  lemma {:induction false} ImportKeepsUnique(env: Environment, dryRun: bool, t: Table, rows: seq<ParsedRow>)
    requires UniqueKeys(t.store)
    ensures UniqueKeys(Import(env, dryRun, t.store, t.nextId, rows).store)
  {
    if rows != [] {
      var n := |rows| - 1;
      ImportKeepsUnique(env, dryRun, t, rows[..n]);
      var p := Import(env, dryRun, t.store, t.nextId, rows[..n]);
      var look := LookAt(env, rows[n]);
      if look.Found? && !InStore(p.store, env.connectionId, KeyOf(look)) {
        AppendKeepsUnique(p.store, NewDestination(env, rows[n], look, p.nextId));
      }
    }
  }

  lemma DeleteKeepsUnique(store: seq<Destination>, i: nat)
    requires UniqueKeys(store) && i < |store|
    ensures UniqueKeys(Others(store, i))
  {
    var r := Others(store, i);
    assert forall k :: 0 <= k < |r| ==> r[k] == store[if k < i then k else k + 1];
  }

  lemma ConstraintMeaning(store: seq<Destination>, i: nat, d: Destination)
    requires i < |store|
    ensures ViolatesConstraint(Others(store, i), d) <==>
            d.topicId.Some? && exists j :: 0 <= j < |store| && j != i && SameKey(store[j], d)
  {
    var others := Others(store, i);
    assert forall k :: 0 <= k < |others| ==> others[k] == store[if k < i then k else k + 1];
    if d.topicId.Some? {
      if j :| 0 <= j < |store| && j != i && SameKey(store[j], d) {
        assert others[if j < i then j else j - 1] == store[j];
        assert store[j] in others;
      }
    }
  }

  lemma UpdateUniqueIff(store: seq<Destination>, i: nat, d: Destination)
    requires UniqueKeys(store) && i < |store|
    ensures UniqueKeys(store[i := d]) <==> forall j :: 0 <= j < |store| && j != i ==> !SameKey(store[j], d)
  {
    var next := store[i := d];
    if UniqueKeys(next) {
      forall j | 0 <= j < |store| && j != i ensures !SameKey(store[j], d) {
        assert next[j] == store[j] && next[i] == d;
        if j < i { assert !SameKey(next[j], next[i]); } else { assert !SameKey(next[i], next[j]); }
      }
    }
  }

  /** A row that keeps its connection, chat and topic can be written back freely. */
  lemma RelabelKeepsUnique(store: seq<Destination>, i: nat, d: Destination)
    requires UniqueKeys(store) && i < |store|
    requires d.connectionId == store[i].connectionId && d.chatId == store[i].chatId && d.topicId == store[i].topicId
    ensures UniqueKeys(store[i := d])
  {
    UpdateUniqueIff(store, i, d);
    UpdateUniqueIff(store, i, store[i]);
    assert store[i := store[i]] == store;
  }

  /** Re-validation is the one action that can break uniqueness, and it does so exactly when it stores, for a
      destination without a topic, a chat that another topic-less destination of the connection already has. */
  lemma RevalidationKeepsUniqueIff(t: Table, i: nat, r: Resolved)
    requires UniqueKeys(t.store) && i < |t.store|
    ensures UniqueKeys(AfterValidate(t, i, Ok(r)).store) <==> SafeToRevalidate(t.store, i, r.chatId)
  {
    var d := Revalidated(t.store[i], r);
    ConstraintMeaning(t.store, i, d);
    UpdateUniqueIff(t.store, i, d);
    if d.topicId.None? {
      forall j | 0 <= j < |t.store| && j != i
        ensures SameKey(t.store[j], d) <==> HasKey(t.store[j], t.store[i].connectionId, Key(r.chatId, None))
      {
      }
    }
  }

  /** Two groups merged by Telegram: the second destination, validated again, now names the first one's chat. */
  lemma RevalidationCanDuplicate()
    ensures var a, b := Destination(0, "bot", Some(-100), None, None, "A", true, true),
              Destination(1, "bot", Some(-200), None, None, "B", true, true);
            var t := Table([a, b], 2);
            UniqueKeys(t.store) && !UniqueKeys(AfterValidate(t, 1, Ok(Resolved(-100, None, "A", true))).store)
  {
    var a, b := Destination(0, "bot", Some(-100), None, None, "A", true, true),
        Destination(1, "bot", Some(-200), None, None, "B", true, true);
    var t := Table([a, b], 2);
    assert UniqueKeys(t.store);
    RevalidationKeepsUniqueIff(t, 1, Resolved(-100, None, "A", true));
    assert HasKey(t.store[0], t.store[1].connectionId, Key(-100, None));
  }

  /** Creating succeeds exactly when the gateway answers and the pair is new, and the constraint never gets in the
      way. */
  lemma CreateIffNew(t: Table, connectionId: string, payload: Payload, r: Resolved)
    requires UniqueKeys(t.store)
    ensures var key, result := Key(r.chatId, payload.topicId), AfterCreate(t, connectionId, payload, Ok(r));
            && (result.Ok? <==> !InStore(t.store, connectionId, key))
            && (result.Ok? ==> InStore(result.value.store, connectionId, key)
                               && !ViolatesConstraint(t.store, result.value.store[|t.store|])
                               && AfterCreate(result.value, connectionId, payload, Ok(r)) == Err(AlreadyExists))
  {
    var key, result := Key(r.chatId, payload.topicId), AfterCreate(t, connectionId, payload, Ok(r));
    if result.Ok? {
      var d := result.value.store[|t.store|];
      InStoreAppend(t.store, d, connectionId, key);
      forall o | o in t.store && o.connectionId == connectionId ensures !HasKey(o, connectionId, key) {
      }
    }
  }
}
