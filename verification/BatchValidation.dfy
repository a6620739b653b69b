/** Re-validating a batch of destinations in one session (validate_destinations_batch in app/api/destinations.py). */
module BatchValidation {
  import opened Common
  import opened DestinationImport
  import opened DestinationStore

  datatype ItemStatus = ItemPassed | ItemFailed | ItemForbidden | ItemDeferred

  datatype Item = Item(id: nat, status: ItemStatus)

  /** The caller's connections and what the gateway answers for a stored destination. */
  datatype Caller = Caller(connections: set<string>, resolve: Destination -> Result<Resolved, GatewayError>)

  predicate Matches(c: Caller, d: Destination, id: nat) { d.id == id && d.connectionId in c.connections }

  /** The caller's destination with this id; |store| if there is none. */
  function Find(c: Caller, store: seq<Destination>, id: nat): (k: nat)
    ensures k <= |store|
    ensures k < |store| ==> Matches(c, store[k], id)
    ensures forall i :: 0 <= i < k ==> !Matches(c, store[i], id)
  {
    if store == [] || Matches(c, store[0], id) then 0 else
      var k := Find(c, store[1..], id);
      assert forall i :: 1 <= i < k + 1 ==> store[i] == store[1..][i - 1];
      k + 1
  }

  function StatusOf(answer: Result<Resolved, GatewayError>): ItemStatus
  {
    match answer
    case Ok(r) => if r.canSend then ItemPassed else ItemForbidden
    case Err(e) => if e.code in FORBIDDEN_CODES then ItemForbidden else ItemFailed
  }

  predicate Throttles(answer: Result<Resolved, GatewayError>) { answer.Err? && answer.error.retryAfter != 0 }

  /** The loop's variables; `store` is the session's view, nothing of which is written before the end. */
  datatype Batch = Batch(items: seq<Item>, deferred: bool, store: seq<Destination>)

  function StepId(c: Caller, b: Batch, id: nat): (r: Batch)
    ensures |r.store| == |b.store|
  {
    if b.deferred then b.(items := b.items + [Item(id, ItemDeferred)]) else
      var k := Find(c, b.store, id);
      if k == |b.store| then b.(items := b.items + [Item(id, ItemFailed)]) else
        var answer := c.resolve(b.store[k]);
        Batch(b.items + [Item(id, StatusOf(answer))], Throttles(answer), b.store[k := Checked(b.store[k], answer)])
  }

  function Loop(c: Caller, store: seq<Destination>, ids: seq<nat>): (b: Batch)
    ensures |b.items| == |ids| && |b.store| == |store|
  {
    if ids == [] then Batch([], false, store) else
      StepId(c, Loop(c, store, ids[..|ids| - 1]), ids[|ids| - 1])
  }

  predicate Indexes(order: seq<nat>, n: nat) { forall i :: 0 <= i < |order| ==> order[i] < n }

  /** Writing the session's rows in some order; the table's constraint is looked at after each of them. */
  function Flush(before: seq<Destination>, session: seq<Destination>, order: seq<nat>): (r: Option<seq<Destination>>)
    requires |before| == |session| && Indexes(order, |session|)
    ensures r.Some? ==> |r.value| == |session|
  {
    if order == [] then Some(before) else
      WriteRow(Flush(before, session, order[..|order| - 1]), session, order[|order| - 1])
  }

  function WriteRow(written: Option<seq<Destination>>, session: seq<Destination>, k: nat): (r: Option<seq<Destination>>)
    requires (written.Some? ==> |written.value| == |session|) && k < |session|
    ensures r.Some? ==> |r.value| == |session|
  {
    if written.None? || ViolatesConstraint(Others(written.value, k), session[k]) then None
    else Some(written.value[k := session[k]])
  }

  /** The order lists at least the rows the session changed. */
  predicate Covers(order: seq<nat>, before: seq<Destination>, session: seq<Destination>)
    requires |before| == |session|
  {
    && Indexes(order, |session|)
    && (forall k :: 0 <= k < |session| && session[k] != before[k] ==> k in order)
  }

  // ----- the handler

  /** One request; a refused flush rolls everything back. `order` is the order in which the session writes its rows. */
  method ValidateBatch(table: DestinationTable, c: Caller, ids: seq<nat>, order: seq<nat>)
    returns (r: Option<seq<Item>>)
    requires Covers(order, table.store, Loop(c, table.store, ids).store)
    modifies table`store
    ensures var b := Loop(c, old(table.store), ids);
            var written := Flush(old(table.store), b.store, order);
            && r == (if written.Some? then Some(b.items) else None)
            && table.store == (if written.Some? then written.value else old(table.store))
    ensures r.Some? && UniqueRowIds(old(table.store)) && Distinct(ids) ==>
              |r.value| == |ids| && forall j :: 0 <= j < |ids| ==> ItemTells(c, old(table.store), ids, j, r.value[j])
    ensures r.Some? && UniqueRowIds(old(table.store)) && Distinct(ids) && ConstraintHolds(old(table.store)) ==>
              |table.store| == |old(table.store)| && forall k :: 0 <= k < |table.store| ==>
                RowBecomes(c, old(table.store), ids, old(table.store)[k], table.store[k])
  {
    var before := table.store;
    var session, items, deferred := before, [], false;
    for i := 0 to |ids|
      invariant Loop(c, before, ids[..i]) == Batch(items, deferred, session) && |session| == |before|
    {
      assert ids[..i + 1][..i] == ids[..i];
      if deferred {
        items := items + [Item(ids[i], ItemDeferred)];
        continue;
      }
      var k := Find(c, session, ids[i]);
      if k == |session| {
        items := items + [Item(ids[i], ItemFailed)];
        continue;
      }
      var answer := c.resolve(session[k]);
      session := session[k := Checked(session[k], answer)];
      items := items + [Item(ids[i], StatusOf(answer))];
      deferred := Throttles(answer);
    }
    assert ids[..|ids|] == ids;
    var written := before;
    for i := 0 to |order|
      invariant |written| == |session| && Flush(before, session, order[..i]) == Some(written)
    {
      assert order[..i + 1][..i] == order[..i];
      if ViolatesConstraint(Others(written, order[i]), session[order[i]]) {
        FlushStaysRefused(before, session, order, i + 1);
        return None;
      }
      written := written[order[i] := session[order[i]]];
    }
    assert order[..|order|] == order;
    if UniqueRowIds(before) && Distinct(ids) { BatchMeans(c, before, ids); }
    if ConstraintHolds(before) { CommittedIsSession(before, session, order); }
    table.store := written;
    return Some(items);
  }

  lemma {:induction false} FlushStaysRefused(before: seq<Destination>, session: seq<Destination>, order: seq<nat>,
                                             n: nat)
    requires |before| == |session| && Indexes(order, |session|) && n <= |order|
    requires Flush(before, session, order[..n]).None?
    ensures Flush(before, session, order).None?
  {
    if n < |order| {
      var front := order[..|order| - 1];
      assert front[..n] == order[..n];
      FlushStaysRefused(before, session, front, n);
    } else {
      assert order[..n] == order;
    }
  }

  // ----- what one batch reports and changes

  ghost predicate UniqueRowIds(store: seq<Destination>)
  {
    forall i, j :: 0 <= i < j < |store| ==> store[i].id != store[j].id
  }

  /** What the j-th id would be answered if it were asked: by the stored row alone. */
  function AnswerTo(c: Caller, store: seq<Destination>, id: nat): Option<Result<Resolved, GatewayError>>
  {
    var k := Find(c, store, id);
    if k < |store| then Some(c.resolve(store[k])) else None
  }

  /** No id before the n-th made Telegram ask for a pause. */
  predicate Reached(c: Caller, store: seq<Destination>, ids: seq<nat>, n: nat)
  {
    forall j :: 0 <= j < n && j < |ids| ==>
        AnswerTo(c, store, ids[j]).None? || !Throttles(AnswerTo(c, store, ids[j]).value)
  }

  /** The row is one of the caller's and was asked for before the pause. */
  predicate Asked(c: Caller, store: seq<Destination>, ids: seq<nat>, d: Destination)
  {
    exists j :: 0 <= j < |ids| && Matches(c, d, ids[j]) && Reached(c, store, ids, j)
  }

  function Expected(c: Caller, store: seq<Destination>, ids: seq<nat>, d: Destination): Destination
  {
    if Asked(c, store, ids, d) then Checked(d, c.resolve(d)) else d
  }

  function ExpectedStatus(c: Caller, store: seq<Destination>, ids: seq<nat>, j: nat): ItemStatus
    requires j < |ids|
  {
    if !Reached(c, store, ids, j) then ItemDeferred
    else if AnswerTo(c, store, ids[j]).None? then ItemFailed
    else StatusOf(AnswerTo(c, store, ids[j]).value)
  }

  /** The session holds the rows of the table, perhaps checked, but with their ids and connections. */
  ghost predicate SameRows(store: seq<Destination>, session: seq<Destination>)
  {
    && |session| == |store|
    && forall k :: 0 <= k < |store| ==> session[k].id == store[k].id && session[k].connectionId == store[k].connectionId
  }

  lemma {:induction false} ReachedPrefix(c: Caller, store: seq<Destination>, ids: seq<nat>, n: nat, j: nat)
    requires j <= n <= |ids|
    ensures Reached(c, store, ids[..n], j) == Reached(c, store, ids, j)
  {
    assert forall m :: 0 <= m < n ==> ids[..n][m] == ids[m];
  }

  lemma {:induction false} ReachedAlike(c: Caller, store: seq<Destination>, ids: seq<nat>, n: nat)
    requires n <= |ids|
    ensures forall j :: 0 <= j <= n ==> (Reached(c, store, ids[..n], j) <==> Reached(c, store, ids, j))
  {
    forall j | 0 <= j <= n ensures Reached(c, store, ids[..n], j) <==> Reached(c, store, ids, j) {
      ReachedPrefix(c, store, ids, n, j);
    }
  }

  lemma {:induction false} AskedGrows(c: Caller, store: seq<Destination>, ids: seq<nat>, d: Destination)
    requires ids != []
    ensures var n := |ids| - 1;
            Asked(c, store, ids, d) <==>
                Asked(c, store, ids[..n], d) || (Matches(c, d, ids[n]) && Reached(c, store, ids, n))
  {
    var n := |ids| - 1;
    if j :| 0 <= j < |ids| && Matches(c, d, ids[j]) && Reached(c, store, ids, j) {
      if j < n {
        ReachedPrefix(c, store, ids, n, j);
        assert Matches(c, d, ids[..n][j]);
      }
    }
    if j :| 0 <= j < n && Matches(c, d, ids[..n][j]) && Reached(c, store, ids[..n], j) {
      ReachedPrefix(c, store, ids, n, j);
      assert Matches(c, d, ids[j]);
    }
  }

  /** The loop, row by row and item by item. */
  ghost predicate LoopMeans(c: Caller, store: seq<Destination>, ids: seq<nat>, b: Batch)
  {
    && SameRows(store, b.store) && |b.items| == |ids|
    && (b.deferred <==> !Reached(c, store, ids, |ids|))
    && (forall k :: 0 <= k < |store| ==> b.store[k] == Expected(c, store, ids, store[k]))
    && (forall j :: 0 <= j < |ids| ==> b.items[j] == Item(ids[j], ExpectedStatus(c, store, ids, j)))
  }

  /** When an id's turn comes its row is still as stored. */
  lemma {:induction false} RowAtTurn(c: Caller, store: seq<Destination>, ids: seq<nat>, b: Batch)
    requires UniqueRowIds(store) && Distinct(ids) && ids != [] && LoopMeans(c, store, ids[..|ids| - 1], b)
    ensures var k := Find(c, store, ids[|ids| - 1]);
            Find(c, b.store, ids[|ids| - 1]) == k && (k < |store| ==> b.store[k] == store[k])
  {
  }

  lemma {:induction false} DeferredStep(c: Caller, store: seq<Destination>, ids: seq<nat>, b: Batch)
    requires UniqueRowIds(store) && Distinct(ids) && ids != [] && LoopMeans(c, store, ids[..|ids| - 1], b)
    ensures StepId(c, b, ids[|ids| - 1]).deferred <==> !Reached(c, store, ids, |ids|)
  {
    RowAtTurn(c, store, ids, b);
    ReachedPrefix(c, store, ids, |ids| - 1, |ids| - 1);
    var last := AnswerTo(c, store, ids[|ids| - 1]);
    assert Reached(c, store, ids, |ids|) <==>
      (Reached(c, store, ids, |ids| - 1) && (last.None? || !Throttles(last.value)));
  }

  lemma {:induction false} ItemStep(c: Caller, store: seq<Destination>, ids: seq<nat>, b: Batch, j: nat)
    requires UniqueRowIds(store) && Distinct(ids) && j < |ids| && LoopMeans(c, store, ids[..|ids| - 1], b)
    ensures |StepId(c, b, ids[|ids| - 1]).items| == |ids|
    ensures StepId(c, b, ids[|ids| - 1]).items[j] == Item(ids[j], ExpectedStatus(c, store, ids, j))
  {
    var n := |ids| - 1;
    ReachedPrefix(c, store, ids, n, j);
    if j == n {
      RowAtTurn(c, store, ids, b);
    } else {
      assert b.items[j] == Item(ids[..n][j], ExpectedStatus(c, store, ids[..n], j));
    }
  }

  lemma {:induction false} StepKeepsRows(c: Caller, store: seq<Destination>, b: Batch, id: nat)
    requires SameRows(store, b.store)
    ensures SameRows(store, StepId(c, b, id).store)
  {
  }

  lemma {:induction false} RowStep(c: Caller, store: seq<Destination>, ids: seq<nat>, b: Batch, k: nat)
    requires UniqueRowIds(store) && Distinct(ids) && ids != [] && LoopMeans(c, store, ids[..|ids| - 1], b)
    requires k < |store|
    ensures StepId(c, b, ids[|ids| - 1]).store[k] == Expected(c, store, ids, store[k])
  {
    var n := |ids| - 1;
    ReachedPrefix(c, store, ids, n, n);
    AskedGrows(c, store, ids, store[k]);
    RowAtTurn(c, store, ids, b);
    if Matches(c, store[k], ids[n]) {
      var f := Find(c, store, ids[n]);
      assert f == k;
    }
  }

  /** Every id is reported once and in order, as the stored row alone decides or as deferred after the first pause;
      exactly the caller's rows asked for before that pause are checked, and no other row changes. */
  lemma {:induction false} BatchIsRowByRow(c: Caller, store: seq<Destination>, ids: seq<nat>)
    requires UniqueRowIds(store) && Distinct(ids)
    ensures LoopMeans(c, store, ids, Loop(c, store, ids))
  {
    if ids != [] {
      var front := ids[..|ids| - 1];
      BatchIsRowByRow(c, store, front);
      LoopStep(c, store, ids, Loop(c, store, front));
    }
  }

  lemma {:induction false} LoopStep(c: Caller, store: seq<Destination>, ids: seq<nat>, b: Batch)
    requires UniqueRowIds(store) && Distinct(ids) && ids != [] && LoopMeans(c, store, ids[..|ids| - 1], b)
    ensures LoopMeans(c, store, ids, StepId(c, b, ids[|ids| - 1]))
  {
    var after := StepId(c, b, ids[|ids| - 1]);
    DeferredStep(c, store, ids, b);
    ItemStep(c, store, ids, b, 0);
    StepKeepsRows(c, store, b, ids[|ids| - 1]);
    forall k | 0 <= k < |store| ensures after.store[k] == Expected(c, store, ids, store[k]) {
      RowStep(c, store, ids, b, k);
    }
    forall j | 0 <= j < |ids| ensures after.items[j] == Item(ids[j], ExpectedStatus(c, store, ids, j)) {
      ItemStep(c, store, ids, b, j);
    }
  }

  // ----- the answers, from what the gateway says of the stored rows alone

  ghost predicate IsOwn(c: Caller, d: Destination, id: nat) { d.id == id && d.connectionId in c.connections }

  /** One of the caller's destinations with this id makes Telegram ask for a pause. */
  ghost predicate Interrupts(c: Caller, store: seq<Destination>, id: nat)
  {
    exists d :: d in store && IsOwn(c, d, id) && c.resolve(d).Err? && c.resolve(d).error.retryAfter != 0
  }

  ghost predicate InterruptedBefore(c: Caller, store: seq<Destination>, ids: seq<nat>, n: nat)
  {
    exists j :: 0 <= j < n && j < |ids| && Interrupts(c, store, ids[j])
  }

  ghost predicate WriteForbidden(answer: Result<Resolved, GatewayError>)
  {
    match answer
    case Ok(r) => !r.canSend
    case Err(e) => e.code == "CHAT_WRITE_FORBIDDEN" || e.code == "WRITE_PERMISSION_MISSING"
  }

  /** An item tells of its id: deferred after a pause, failed if the caller has no such destination, and otherwise what
      the gateway answers for it. */
  ghost predicate ItemTells(c: Caller, store: seq<Destination>, ids: seq<nat>, j: nat, item: Item)
    requires j < |ids|
  {
    && item.id == ids[j]
    && if InterruptedBefore(c, store, ids, j) then item.status == ItemDeferred
       else if forall d :: d in store ==> !IsOwn(c, d, ids[j]) then item.status == ItemFailed
       else exists d :: d in store && IsOwn(c, d, ids[j])
              && item.status == if WriteForbidden(c.resolve(d)) then ItemForbidden
                                else if c.resolve(d).Ok? then ItemPassed else ItemFailed
  }

  /** The row after the batch: as the gateway described it, if it is the caller's and was asked for before a pause; a
      chat that cannot be written to is disabled, and any other failure changes nothing. */
  ghost predicate RowBecomes(c: Caller, store: seq<Destination>, ids: seq<nat>, d: Destination, after: Destination)
  {
    if exists j :: 0 <= j < |ids| && IsOwn(c, d, ids[j]) && !InterruptedBefore(c, store, ids, j) then
      match c.resolve(d)
      case Ok(r) =>
        after == d.(chatId := Some(r.chatId), username := r.username, title := r.title,
                    enabled := if r.canSend then d.enabled else false)
      case Err(_) => if WriteForbidden(c.resolve(d)) then after == d.(enabled := false) else after == d
    else after == d
  }

  lemma {:induction false} ReachedMeans(c: Caller, store: seq<Destination>, ids: seq<nat>, n: nat)
    requires UniqueRowIds(store)
    ensures Reached(c, store, ids, n) <==> !InterruptedBefore(c, store, ids, n)
  {
    forall j | 0 <= j < |ids|
      ensures Interrupts(c, store, ids[j]) <==>
                AnswerTo(c, store, ids[j]).Some? && Throttles(AnswerTo(c, store, ids[j]).value)
    {
      OwnIsFound(c, store, ids[j]);
    }
  }

  lemma {:induction false} OwnIsFound(c: Caller, store: seq<Destination>, id: nat)
    requires UniqueRowIds(store)
    ensures var k := Find(c, store, id); forall d :: (d in store && IsOwn(c, d, id)) <==> k < |store| && d == store[k]
  {
    var k := Find(c, store, id);
    forall d | d in store && IsOwn(c, d, id) ensures k < |store| && d == store[k] {
      var i :| 0 <= i < |store| && store[i] == d;
      assert Matches(c, store[i], id);
    }
  }

  lemma {:induction false} ExpectedItem(c: Caller, store: seq<Destination>, ids: seq<nat>, j: nat)
    requires UniqueRowIds(store) && j < |ids|
    ensures ItemTells(c, store, ids, j, Item(ids[j], ExpectedStatus(c, store, ids, j)))
  {
    ReachedMeans(c, store, ids, j);
    OwnIsFound(c, store, ids[j]);
    var k := Find(c, store, ids[j]);
    if k < |store| { assert store[k] in store && IsOwn(c, store[k], ids[j]); }
  }

  lemma {:induction false} ExpectedRow(c: Caller, store: seq<Destination>, ids: seq<nat>, d: Destination)
    requires UniqueRowIds(store)
    ensures RowBecomes(c, store, ids, d, Expected(c, store, ids, d))
  {
    AskedMeans(c, store, ids, d);
  }

  /** A batch, id by id and row by row. */
  lemma {:induction false} BatchMeans(c: Caller, store: seq<Destination>, ids: seq<nat>)
    requires UniqueRowIds(store) && Distinct(ids)
    ensures var b := Loop(c, store, ids);
            && (forall j :: 0 <= j < |ids| ==> ItemTells(c, store, ids, j, b.items[j]))
            && (forall k :: 0 <= k < |store| ==> RowBecomes(c, store, ids, store[k], b.store[k]))
  {
    BatchIsRowByRow(c, store, ids);
    forall j | 0 <= j < |ids| ensures ItemTells(c, store, ids, j, Loop(c, store, ids).items[j]) {
      ExpectedItem(c, store, ids, j);
    }
    forall k | 0 <= k < |store| ensures RowBecomes(c, store, ids, store[k], Loop(c, store, ids).store[k]) {
      ExpectedRow(c, store, ids, store[k]);
    }
  }

  lemma {:induction false} AskedMeans(c: Caller, store: seq<Destination>, ids: seq<nat>, d: Destination)
    requires UniqueRowIds(store)
    ensures Asked(c, store, ids, d) <==>
            exists j :: 0 <= j < |ids| && IsOwn(c, d, ids[j]) && !InterruptedBefore(c, store, ids, j)
  {
    forall j | 0 <= j < |ids|
      ensures Matches(c, d, ids[j]) && Reached(c, store, ids, j) <==>
                IsOwn(c, d, ids[j]) && !InterruptedBefore(c, store, ids, j)
    {
      ReachedMeans(c, store, ids, j);
    }
  }

  function CountOfItems(items: seq<Item>, s: ItemStatus): nat
  {
    if items == [] then 0 else CountOfItems(items[1..], s) + if items[0].status == s then 1 else 0
  }

  lemma {:induction false} ItemCountsAddUp(items: seq<Item>, n: nat)
    requires n <= |items| && forall j :: 0 <= j < |items| ==> (items[j].status == ItemDeferred <==> n <= j)
    ensures CountOfItems(items, ItemPassed) + CountOfItems(items, ItemFailed) + CountOfItems(items, ItemForbidden) == n
    ensures CountOfItems(items, ItemDeferred) == |items| - n
  {
    if items != [] {
      assert forall j :: 0 <= j < |items[1..]| ==> items[1..][j] == items[j + 1];
      ItemCountsAddUp(items[1..], if n == 0 then 0 else n - 1);
    }
  }

  /** How many ids come before the first pause, the one that asks for it included. */
  function AskedCount(c: Caller, store: seq<Destination>, ids: seq<nat>): (n: nat)
    ensures n <= |ids| && forall j :: 0 <= j < |ids| ==> (Reached(c, store, ids, j) <==> j < n)
  {
    if ids == [] then 0 else
      var m := |ids| - 1;
      var n := AskedCount(c, store, ids[..m]);
      ReachedAlike(c, store, ids, m);
      if Reached(c, store, ids, m) then m + 1 else n
  }

  /** The summary of a batch: the ids asked for are those up to the first pause, they passed, failed or were forbidden,
      and the rest of the list is deferred. */
  lemma {:induction false} BatchSummary(c: Caller, store: seq<Destination>, ids: seq<nat>)
    requires UniqueRowIds(store) && Distinct(ids)
    ensures var items := Loop(c, store, ids).items;
            && CountOfItems(items, ItemPassed) + CountOfItems(items, ItemFailed) + CountOfItems(items, ItemForbidden)
               == AskedCount(c, store, ids)
            && CountOfItems(items, ItemDeferred) == |ids| - AskedCount(c, store, ids)
  {
    BatchIsRowByRow(c, store, ids);
    var items := Loop(c, store, ids).items;
    forall j | 0 <= j < |items| ensures items[j].status == ItemDeferred <==> AskedCount(c, store, ids) <= j {
      assert items[j] == Item(ids[j], ExpectedStatus(c, store, ids, j));
    }
    ItemCountsAddUp(items, AskedCount(c, store, ids));
  }

  lemma {:induction false} OwnItem(c: Caller, store: seq<Destination>, ids: seq<nat>, k: nat, s: ItemStatus)
    requires UniqueRowIds(store) && Distinct(ids) && k < |store| && store[k].connectionId in c.connections
    requires s != ItemDeferred
    ensures Item(store[k].id, s) in Loop(c, store, ids).items <==>
              Asked(c, store, ids, store[k]) && StatusOf(c.resolve(store[k])) == s
  {
    BatchIsRowByRow(c, store, ids);
    var items := Loop(c, store, ids).items;
    forall j | 0 <= j < |ids| && ids[j] == store[k].id
      ensures Reached(c, store, ids, j) ==> items[j].status == StatusOf(c.resolve(store[k]))
      ensures !Reached(c, store, ids, j) ==> items[j].status == ItemDeferred
    {
      assert Matches(c, store[k], ids[j]) && Find(c, store, ids[j]) == k;
    }
    if Asked(c, store, ids, store[k]) {
      var j :| 0 <= j < |ids| && Matches(c, store[k], ids[j]) && Reached(c, store, ids, j);
      assert items[j].id == store[k].id && items[j] in items;
    }
    if Item(store[k].id, s) in items {
      var j :| 0 <= j < |ids| && items[j] == Item(store[k].id, s);
      assert Matches(c, store[k], ids[j]);
    }
  }

  /** A batch never enables a destination, disables one exactly with a write-forbidden item, and leaves the rows of
      other organisations and unnamed rows alone. */
  lemma {:induction false} BatchOnlyDisables(c: Caller, store: seq<Destination>, ids: seq<nat>, k: nat)
    requires UniqueRowIds(store) && Distinct(ids) && k < |store|
    ensures var b := Loop(c, store, ids);
            && (b.store[k].enabled <==>
                  (store[k].enabled
                   && !(store[k].connectionId in c.connections && Item(store[k].id, ItemForbidden) in b.items)))
            && (store[k].id !in ids || store[k].connectionId !in c.connections ==> b.store[k] == store[k])
  {
    BatchIsRowByRow(c, store, ids);
    if store[k].connectionId in c.connections {
      OwnItem(c, store, ids, k, ItemForbidden);
    }
  }

  // ----- what committing keeps

  /** The table's constraint: rows with a topic are unique. */
  ghost predicate ConstraintHolds(store: seq<Destination>)
  {
    forall i, j :: 0 <= i < j < |store| && store[i].topicId.Some? ==> !SameKey(store[i], store[j])
  }

  /** Writing a row back unchanged stores nothing new and is never what refuses a flush. */
  lemma UnchangedIsFree(store: seq<Destination>, session: seq<Destination>, k: nat)
    requires ConstraintHolds(store) && |session| == |store| && k < |store| && session[k] == store[k]
    ensures WriteRow(Some(store), session, k) == Some(store)
  {
    ConstraintMeaning(store, k, store[k]);
    assert store[k := store[k]] == store;
  }

  lemma FlushAppend(before: seq<Destination>, session: seq<Destination>, order: seq<nat>, k: nat)
    requires |before| == |session| && Indexes(order, |session|) && k < |session|
    ensures Flush(before, session, order + [k]) == WriteRow(Flush(before, session, order), session, k)
  {
    assert (order + [k])[..|order|] == order;
  }

  /** The rows of the order that the session changed. */
  function ChangedRows(before: seq<Destination>, session: seq<Destination>, order: seq<nat>): (r: seq<nat>)
    requires |before| == |session| && Indexes(order, |session|)
    ensures Indexes(r, |session|)
  {
    if order == [] then [] else
      var k, earlier := order[|order| - 1], ChangedRows(before, session, order[..|order| - 1]);
      if session[k] == before[k] then earlier else earlier + [k]
  }

  /** Whether a session also writes rows it did not change makes no difference to what is stored or refused. */
  lemma {:induction false} UnchangedRowsDoNotMatter(before: seq<Destination>, session: seq<Destination>,
                                                    order: seq<nat>)
    requires |before| == |session| && Indexes(order, |session|) && ConstraintHolds(before)
    ensures Flush(before, session, order) == Flush(before, session, ChangedRows(before, session, order))
  {
    if order != [] {
      var init, k := order[..|order| - 1], order[|order| - 1];
      UnchangedRowsDoNotMatter(before, session, init);
      if session[k] != before[k] {
        FlushAppend(before, session, ChangedRows(before, session, init), k);
      } else if Flush(before, session, init).Some? {
        FlushKeepsConstraint(before, session, init);
        UnchangedIsFree(Flush(before, session, init).value, session, k);
      }
    }
  }

  lemma WriteKeepsConstraint(store: seq<Destination>, k: nat, d: Destination)
    requires ConstraintHolds(store) && k < |store| && !ViolatesConstraint(Others(store, k), d)
    ensures ConstraintHolds(store[k := d])
  {
    ConstraintMeaning(store, k, d);
  }

  lemma {:induction false} FlushKeepsConstraint(before: seq<Destination>, session: seq<Destination>, order: seq<nat>)
    requires |before| == |session| && Indexes(order, |session|)
    requires ConstraintHolds(before) && Flush(before, session, order).Some?
    ensures var written := Flush(before, session, order).value;
            && ConstraintHolds(written)
            && forall k :: 0 <= k < |session| ==> written[k] == if k in order then session[k] else before[k]
  {
    if order != [] {
      var n := |order| - 1;
      FlushKeepsConstraint(before, session, order[..n]);
      WriteKeepsConstraint(Flush(before, session, order[..n]).value, order[n], session[order[n]]);
      assert order == order[..n] + [order[n]];
    }
  }

  /** The row as it stands after the first n writes. */
  function RowAfter(before: seq<Destination>, session: seq<Destination>, order: seq<nat>, n: nat, k: nat): Destination
    requires |before| == |session| && n <= |order| && k < |session|
  {
    if k in order[..n] then session[k] else before[k]
  }

  /** The n-th write would give a row the connection, chat and topic, none of them null, of another row. */
  ghost predicate Clashes(before: seq<Destination>, session: seq<Destination>, order: seq<nat>, n: nat)
    requires |before| == |session| && Indexes(order, |session|) && n < |order|
  {
    var i := order[n];
    session[i].topicId.Some?
    && exists k: nat :: k < |session| && k != i && SameKey(RowAfter(before, session, order, n, k), session[i])
  }

  lemma WriteMeans(before: seq<Destination>, session: seq<Destination>, order: seq<nat>, n: nat,
                   written: seq<Destination>)
    requires |before| == |session| == |written| && Indexes(order, |session|) && n < |order|
    requires forall k :: 0 <= k < |session| ==> written[k] == RowAfter(before, session, order, n, k)
    ensures WriteRow(Some(written), session, order[n]).None? <==> Clashes(before, session, order, n)
    ensures !Clashes(before, session, order, n) ==>
              forall k :: 0 <= k < |session| ==>
                WriteRow(Some(written), session, order[n]).value[k] == RowAfter(before, session, order, n + 1, k)
  {
    var i := order[n];
    ConstraintMeaning(written, i, session[i]);
    forall k: nat | k < |session|
      ensures SameKey(written[k], session[i]) <==> SameKey(RowAfter(before, session, order, n, k), session[i])
    {
    }
    TakeOneMore(order, n);
    forall k: nat | k < |session| ensures k in order[..n + 1] <==> k in order[..n] || k == i {
    }
  }

  lemma {:induction false} FlushWrites(before: seq<Destination>, session: seq<Destination>, order: seq<nat>, n: nat)
    requires |before| == |session| && Indexes(order, |session|) && n <= |order|
    ensures var written := Flush(before, session, order[..n]);
            && (written.Some? <==> forall m :: 0 <= m < n ==> !Clashes(before, session, order, m))
            && (written.Some? ==>
                 forall k :: 0 <= k < |session| ==> written.value[k] == RowAfter(before, session, order, n, k))
  {
    if n > 0 {
      FlushWrites(before, session, order, n - 1);
      assert order[..n][..n - 1] == order[..n - 1];
      var written := Flush(before, session, order[..n - 1]);
      if written.Some? { WriteMeans(before, session, order, n - 1, written.value); }
    }
  }

  /** A flush is refused exactly when one of its writes clashes with the rows as they stand by then. */
  lemma RefusedIffClash(before: seq<Destination>, session: seq<Destination>, order: seq<nat>)
    requires |before| == |session| && Indexes(order, |session|)
    ensures Flush(before, session, order).None? <==>
            exists n :: 0 <= n < |order| && Clashes(before, session, order, n)
  {
    FlushWrites(before, session, order, |order|);
    assert order[..|order|] == order;
  }

  /** Whatever order the session writes in, a committed batch stores exactly the session's rows, so a batch whose rows
      clash under the constraint is refused in every order. */
  lemma CommittedIsSession(before: seq<Destination>, session: seq<Destination>, order: seq<nat>)
    requires |before| == |session| && Covers(order, before, session) && ConstraintHolds(before)
    ensures var r := Flush(before, session, order);
            && (r.Some? ==> r.value == session)
            && (!ConstraintHolds(session) ==> r.None?)
  {
    if Flush(before, session, order).Some? {
      FlushKeepsConstraint(before, session, order);
      assert Flush(before, session, order).value == session;
    }
  }

  /** The chat a destination has once the batch is over. */
  function ChatAfter(c: Caller, store: seq<Destination>, ids: seq<nat>, d: Destination): Option<int>
  {
    if Asked(c, store, ids, d) && c.resolve(d).Ok? then Some(c.resolve(d).value.chatId) else d.chatId
  }

  /** No two topic-less destinations of a connection are resolved to, or left at, one chat. */
  predicate TopiclessApart(c: Caller, store: seq<Destination>, ids: seq<nat>)
  {
    forall i, j :: 0 <= i < j < |store| ==> PairApart(c, store, ids, i, j)
  }

  predicate PairApart(c: Caller, store: seq<Destination>, ids: seq<nat>, i: nat, j: nat)
    requires i < |store| && j < |store|
  {
    var sharing := store[i].connectionId == store[j].connectionId && store[i].topicId.None? && store[j].topicId.None?;
    sharing && ChatAfter(c, store, ids, store[i]).Some? ==>
      ChatAfter(c, store, ids, store[i]) != ChatAfter(c, store, ids, store[j])
  }

  lemma {:induction false} SessionKeys(c: Caller, store: seq<Destination>, ids: seq<nat>, k: nat)
    requires UniqueRowIds(store) && Distinct(ids) && k < |store|
    ensures var d := Loop(c, store, ids).store[k];
            && d.chatId == ChatAfter(c, store, ids, store[k])
            && d.topicId == store[k].topicId && d.connectionId == store[k].connectionId
  {
    BatchIsRowByRow(c, store, ids);
  }

  /** Two session rows clash exactly when their connections, chats afterwards and topics do. */
  lemma {:induction false} SessionClash(c: Caller, store: seq<Destination>, ids: seq<nat>, i: nat, j: nat)
    requires UniqueRowIds(store) && Distinct(ids) && i < |store| && j < |store|
    ensures SameKey(Loop(c, store, ids).store[i], Loop(c, store, ids).store[j]) <==>
            store[i].connectionId == store[j].connectionId && store[i].topicId == store[j].topicId
            && ChatAfter(c, store, ids, store[i]).Some?
                 && ChatAfter(c, store, ids, store[i]) == ChatAfter(c, store, ids, store[j])
  {
    SessionKeys(c, store, ids, i);
    SessionKeys(c, store, ids, j);
  }

  /** Under the constraint two session rows clash exactly when they are topic-less and brought to one chat. */
  lemma {:induction false} ClashIffNotApart(c: Caller, store: seq<Destination>, ids: seq<nat>, i: nat, j: nat)
    requires UniqueRowIds(store) && Distinct(ids) && i < j < |store| && ConstraintHolds(Loop(c, store, ids).store)
    ensures SameKey(Loop(c, store, ids).store[i], Loop(c, store, ids).store[j]) <==> !PairApart(c, store, ids, i, j)
  {
    SessionClash(c, store, ids, i, j);
    SessionKeys(c, store, ids, i);
  }

  lemma {:induction false} SessionUniqueIff(c: Caller, store: seq<Destination>, ids: seq<nat>)
    requires UniqueRowIds(store) && Distinct(ids) && ConstraintHolds(Loop(c, store, ids).store)
    ensures UniqueKeys(Loop(c, store, ids).store) <==> TopiclessApart(c, store, ids)
  {
    var session := Loop(c, store, ids).store;
    forall i, j | 0 <= i < j < |store| ensures SameKey(session[i], session[j]) <==> !PairApart(c, store, ids, i, j) {
      ClashIffNotApart(c, store, ids, i, j);
    }
  }

  /** A committed batch keeps chat and topic unique exactly when it keeps topic-less destinations apart. */
  lemma {:induction false} BatchKeepsUniqueIff(c: Caller, store: seq<Destination>, ids: seq<nat>, order: seq<nat>)
    requires UniqueRowIds(store) && Distinct(ids) && UniqueKeys(store)
    requires Covers(order, store, Loop(c, store, ids).store)
    requires Flush(store, Loop(c, store, ids).store, order).Some?
    ensures UniqueKeys(Flush(store, Loop(c, store, ids).store, order).value) <==> TopiclessApart(c, store, ids)
  {
    CommittedIsSession(store, Loop(c, store, ids).store, order);
    SessionUniqueIff(c, store, ids);
  }
}
