/** The bulk destination import of app/api/destinations.py: one loop that either previews or applies. */
module DestinationImport {
  import opened Common

  datatype Key = Key(chatId: int, topicId: Option<int>)

  datatype Destination = Destination(
    id: nat, connectionId: string, chatId: Option<int>, topicId: Option<int>, username: Option<string>,
    title: string, enabled: bool, permissionConfirmed: bool)

  datatype ParsedRow = ParsedRow(
    rowNumber: nat, source: string, username: Option<string>, chatId: Option<int>, topicId: Option<int>,
    title: Option<string>, permissionConfirmed: bool, enabled: bool, error: Option<string>)

  datatype Payload = Payload(
    chatId: Option<int>, username: Option<string>, topicId: Option<int>, title: Option<string>,
    permissionConfirmed: bool)

  datatype Resolved = Resolved(chatId: int, username: Option<string>, title: string, canSend: bool)

  datatype GatewayError = GatewayError(code: string, message: string, retryAfter: int)

  /** The connection, the row validation and a gateway that answers the same question the same way. */
  datatype Environment = Environment(
    connectionId: string,
    validate: ParsedRow -> Result<Payload, string>,
    resolve: Payload -> Result<Resolved, GatewayError>)

  datatype Status = Ready | Created | Duplicate | Error | Deferred

  datatype ResultRow = ResultRow(
    rowNumber: nat, source: string, status: Status, username: Option<string>, chatId: Option<int>,
    topicId: Option<int>, title: Option<string>, permissionConfirmed: bool, destinationId: Option<nat>)

  /** What a row turns out to be before the table is consulted. */
  datatype Look = Unusable | Throttled(retryAfter: int) | Found(payload: Payload, resolved: Resolved)

  function LookAt(env: Environment, row: ParsedRow): Look
  {
    if row.error.Some? && row.error.value != "" then Unusable else
      var payload := env.validate(row);
      if payload.Err? then Unusable else
        var resolved := env.resolve(payload.value);
        if resolved.Ok? then Found(payload.value, resolved.value)
        else if resolved.error.retryAfter != 0 then Throttled(resolved.error.retryAfter)
        else Unusable
  }

  function KeyOf(look: Look): Key
    requires look.Found?
  {
    Key(look.resolved.chatId, look.payload.topicId)
  }

  predicate HasKey(d: Destination, connectionId: string, key: Key)
  {
    d.connectionId == connectionId && d.chatId == Some(key.chatId) && d.topicId == key.topicId
  }

  /** The duplicate query; a null topic is compared with `IS NULL`. */
  predicate InStore(store: seq<Destination>, connectionId: string, key: Key)
  {
    exists d :: d in store && HasKey(d, connectionId, key)
  }

  /** The table's unique constraint, which says nothing about rows with a null in it. */
  predicate ViolatesConstraint(store: seq<Destination>, d: Destination)
  {
    exists o :: o in store && o.connectionId == d.connectionId
                && o.chatId.Some? && o.chatId == d.chatId && o.topicId.Some? && o.topicId == d.topicId
  }

  function Plain(row: ParsedRow, status: Status): ResultRow
  {
    ResultRow(row.rowNumber, row.source, status, row.username, row.chatId, row.topicId, row.title,
              row.permissionConfirmed, None)
  }

  function TitleOf(look: Look): string
    requires look.Found?
  {
    if look.payload.title.Some? && look.payload.title.value != "" then look.payload.title.value else look.resolved.title
  }

  function Reported(row: ParsedRow, look: Look, status: Status, id: Option<nat>): ResultRow
    requires look.Found?
  {
    ResultRow(row.rowNumber, row.source, status, look.resolved.username, Some(look.resolved.chatId),
              look.payload.topicId,
              Some(TitleOf(look)), look.payload.permissionConfirmed, id)
  }

  function NewDestination(env: Environment, row: ParsedRow, look: Look, id: nat): Destination
    requires look.Found?
  {
    Destination(id, env.connectionId, Some(look.resolved.chatId), look.payload.topicId, look.resolved.username,
                TitleOf(look),
                row.enabled && look.resolved.canSend, look.payload.permissionConfirmed)
  }

  /** Everything the loop carries from row to row. */
  datatype Progress = Progress(
    results: seq<ResultRow>, seen: set<Key>, deferred: Option<int>, store: seq<Destination>, nextId: nat, created: nat)

  function StepRow(env: Environment, dryRun: bool, p: Progress, row: ParsedRow): Progress
  {
    if p.deferred.Some? then p.(results := p.results + [Plain(row, Deferred)]) else
      var look := LookAt(env, row);
      match look
      case Unusable => p.(results := p.results + [Plain(row, Error)])
      case Throttled(retryAfter) => p.(results := p.results + [Plain(row, Error)], deferred := Some(retryAfter))
      case Found(_, _) =>
        var key := KeyOf(look);
        if key in p.seen || InStore(p.store, env.connectionId, key) then
          p.(results := p.results + [Reported(row, look, Duplicate, None)])
        else if dryRun then
          p.(results := p.results + [Reported(row, look, Ready, None)], seen := p.seen + {key})
        else
          var d := NewDestination(env, row, look, p.nextId);
          if ViolatesConstraint(p.store, d) then
            p.(results := p.results + [Reported(row, look, Duplicate, None)], seen := p.seen + {key})
          else
            p.(results := p.results + [Reported(row, look, Created, Some(p.nextId))], seen := p.seen + {key},
               store := p.store + [d], nextId := p.nextId + 1, created := p.created + 1)
  }

  function Start(store: seq<Destination>, nextId: nat): Progress { Progress([], {}, None, store, nextId, 0) }

  function Import(env: Environment, dryRun: bool, store: seq<Destination>, nextId: nat,
                  rows: seq<ParsedRow>): (p: Progress)
    ensures |p.results| == |rows|
  {
    if rows == [] then Start(store, nextId) else
      var n := |rows| - 1;
      StepRow(env, dryRun, Import(env, dryRun, store, nextId, rows[..n]), rows[n])
  }

  // ----- preview predicts apply

  function AsApplied(r: ResultRow): ResultRow
  {
    if r.status == Ready then r.(status := Created) else r
  }

  lemma InStoreAppend(store: seq<Destination>, d: Destination, connectionId: string, key: Key)
    ensures InStore(store + [d], connectionId, key) <==>
              InStore(store, connectionId, key) || HasKey(d, connectionId, key)
  {
    assert d in store + [d];
    assert forall o :: o in store ==> o in store + [d];
  }

  /** The applying table holds what the previewed one holds plus what the preview has seen. */
  ghost predicate Simulates(env: Environment, preview: Progress, apply: Progress)
  {
    && apply.seen == preview.seen && apply.deferred == preview.deferred
    && |apply.results| == |preview.results|
    && (forall i :: 0 <= i < |apply.results| ==>
         apply.results[i].(destinationId := None) == AsApplied(preview.results[i]))
    && (forall key :: InStore(apply.store, env.connectionId, key) <==>
         InStore(preview.store, env.connectionId, key) || key in preview.seen)
  }

  lemma {:induction false} StepSimulates(env: Environment, preview: Progress, apply: Progress, row: ParsedRow)
    requires Simulates(env, preview, apply)
    ensures Simulates(env, StepRow(env, true, preview, row), StepRow(env, false, apply, row))
    ensures StepRow(env, true, preview, row).store == preview.store
  {
    var look := LookAt(env, row);
    if preview.deferred.None? && look.Found? && !InStore(apply.store, env.connectionId, KeyOf(look)) {
      var d := NewDestination(env, row, look, apply.nextId);
      forall key
        ensures InStore(apply.store + [d], env.connectionId, key) <==>
                  InStore(apply.store, env.connectionId, key) || key == KeyOf(look)
      {
        InStoreAppend(apply.store, d, env.connectionId, key);
      }
    }
  }

  lemma {:induction false} Simulation(env: Environment, store: seq<Destination>, nextId: nat, rows: seq<ParsedRow>)
    ensures Simulates(env, Import(env, true, store, nextId, rows), Import(env, false, store, nextId, rows))
    ensures Import(env, true, store, nextId, rows).store == store
  {
    if rows != [] {
      var n := |rows| - 1;
      Simulation(env, store, nextId, rows[..n]);
      StepSimulates(env, Import(env, true, store, nextId, rows[..n]), Import(env, false, store, nextId, rows[..n]),
                    rows[n]);
    }
  }

  /** A preview changes nothing, and applying the same rows to the same table reports row by row what the preview
      reported, with `ready` turned into `created`. */
  lemma {:induction false} PreviewPredictsApply(env: Environment, store: seq<Destination>, nextId: nat,
                                                rows: seq<ParsedRow>)
    ensures var preview, apply := Import(env, true, store, nextId, rows), Import(env, false, store, nextId, rows);
            && preview.store == store && preview.nextId == nextId && preview.created == 0
            && |apply.results| == |preview.results| == |rows|
            && (forall i :: 0 <= i < |rows| ==>
                 apply.results[i].(destinationId := None) == AsApplied(preview.results[i]))
  {
    Simulation(env, store, nextId, rows);
    PreviewIsReadOnly(env, store, nextId, rows);
  }

  lemma {:induction false} PreviewIsReadOnly(env: Environment, store: seq<Destination>, nextId: nat,
                                             rows: seq<ParsedRow>)
    ensures var p := Import(env, true, store, nextId, rows); p.store == store && p.nextId == nextId && p.created == 0
  {
    if rows != [] {
      PreviewIsReadOnly(env, store, nextId, rows[..|rows| - 1]);
    }
  }

  // ----- applying again

  lemma {:induction false} StepGrows(env: Environment, p: Progress, row: ParsedRow, base: seq<Destination>)
    requires base <= p.store
    ensures base <= StepRow(env, false, p, row).store
  {
  }

  lemma {:induction false} ImportGrows(env: Environment, store: seq<Destination>, nextId: nat, rows: seq<ParsedRow>,
                                       n: nat)
    requires n <= |rows|
    ensures Import(env, false, store, nextId, rows[..n]).store <= Import(env, false, store, nextId, rows).store
  {
    if n < |rows| {
      var m := |rows| - 1;
      ImportGrows(env, store, nextId, rows[..m], n);
      assert rows[..m][..n] == rows[..n];
      StepGrows(env, Import(env, false, store, nextId, rows[..m]), rows[m],
                Import(env, false, store, nextId, rows[..n]).store);
    } else {
      assert rows[..n] == rows;
    }
  }

  function AsReapplied(s: Status): Status { if s == Created then Duplicate else s }

  /** A run over a table that already holds every key an earlier run of these rows met adds nothing. */
  ghost predicate Repeats(first: Progress, second: Progress, store: seq<Destination>, nextId: nat)
  {
    && second.store == store && second.nextId == nextId && second.created == 0 && second.seen == {}
    && second.deferred == first.deferred
    && |second.results| == |first.results|
    && (forall i :: 0 <= i < |first.results| ==> second.results[i].status == AsReapplied(first.results[i].status))
  }

  ghost predicate SeenStored(env: Environment, p: Progress)
  {
    forall key :: key in p.seen ==> InStore(p.store, env.connectionId, key)
  }

  lemma {:induction false} StepMeetsKey(env: Environment, p: Progress, row: ParsedRow)
    requires p.deferred.None? && LookAt(env, row).Found?
    requires SeenStored(env, p)
    ensures InStore(StepRow(env, false, p, row).store, env.connectionId, KeyOf(LookAt(env, row)))
    ensures StepRow(env, false, p, row).results[|p.results|].status in {Created, Duplicate}
    ensures SeenStored(env, StepRow(env, false, p, row))
  {
    var look := LookAt(env, row);
    if !InStore(p.store, env.connectionId, KeyOf(look)) {
      var d := NewDestination(env, row, look, p.nextId);
      forall key
        ensures InStore(p.store + [d], env.connectionId, key) <==>
                  InStore(p.store, env.connectionId, key) || key == KeyOf(look)
      {
        InStoreAppend(p.store, d, env.connectionId, key);
      }
    }
  }

  lemma {:induction false} SeenIsStored(env: Environment, store: seq<Destination>, nextId: nat, rows: seq<ParsedRow>)
    ensures SeenStored(env, Import(env, false, store, nextId, rows))
  {
    if rows != [] {
      var n := |rows| - 1;
      SeenIsStored(env, store, nextId, rows[..n]);
      var p := Import(env, false, store, nextId, rows[..n]);
      if p.deferred.None? && LookAt(env, rows[n]).Found? {
        StepMeetsKey(env, p, rows[n]);
      }
    }
  }

  lemma {:induction false} ImportOneMore(env: Environment, dryRun: bool, store: seq<Destination>, nextId: nat,
                                         rows: seq<ParsedRow>, n: nat)
    requires n < |rows|
    ensures Import(env, dryRun, store, nextId, rows[..n + 1]) ==
            StepRow(env, dryRun, Import(env, dryRun, store, nextId, rows[..n]), rows[n])
  {
    assert rows[..n + 1][..n] == rows[..n];
  }

  /** One row of the second run, when the key it meets is already stored. */
  lemma {:induction false} RepeatStep(env: Environment, first: Progress, second: Progress, row: ParsedRow,
                                      store: seq<Destination>, nextId: nat)
    requires Repeats(first, second, store, nextId)
    requires first.deferred.None? && LookAt(env, row).Found? ==>
               && InStore(store, env.connectionId, KeyOf(LookAt(env, row)))
               && StepRow(env, false, first, row).results[|first.results|].status in {Created, Duplicate}
    ensures Repeats(StepRow(env, false, first, row), StepRow(env, false, second, row), store, nextId)
  {
    StepReports(env, false, first, row);
    StepReports(env, false, second, row);
    var f, s := StepRow(env, false, first, row).results, StepRow(env, false, second, row).results;
    assert forall i :: 0 <= i < |first.results| ==> f[i] == first.results[i] && s[i] == second.results[i];
  }

  /** A key that a row met is in the table in the end. */
  lemma {:induction false} MetKeyIsStored(env: Environment, store: seq<Destination>, nextId: nat, rows: seq<ParsedRow>,
                                          k: nat)
    requires k < |rows|
    ensures var first, look := Import(env, false, store, nextId, rows[..k]), LookAt(env, rows[k]);
            first.deferred.None? && look.Found? ==>
              && InStore(Import(env, false, store, nextId, rows).store, env.connectionId, KeyOf(look))
              && StepRow(env, false, first, rows[k]).results[|first.results|].status in {Created, Duplicate}
  {
    var first, look := Import(env, false, store, nextId, rows[..k]), LookAt(env, rows[k]);
    if first.deferred.None? && look.Found? {
      SeenIsStored(env, store, nextId, rows[..k]);
      StepMeetsKey(env, first, rows[k]);
      ImportOneMore(env, false, store, nextId, rows, k);
      ImportGrows(env, store, nextId, rows, k + 1);
      StillStored(Import(env, false, store, nextId, rows[..k + 1]).store,
                  Import(env, false, store, nextId, rows).store, env.connectionId, KeyOf(look));
    }
  }

  lemma {:induction false} ReimportPrefix(env: Environment, store: seq<Destination>, nextId: nat, rows: seq<ParsedRow>,
                                          n: nat)
    requires n <= |rows|
    ensures var done := Import(env, false, store, nextId, rows);
            Repeats(Import(env, false, store, nextId, rows[..n]),
                    Import(env, false, done.store, done.nextId, rows[..n]),
                    done.store, done.nextId)
    decreases n
  {
    if n > 0 {
      var done := Import(env, false, store, nextId, rows);
      var first := Import(env, false, store, nextId, rows[..n - 1]);
      var second := Import(env, false, done.store, done.nextId, rows[..n - 1]);
      var row := rows[n - 1];
      ReimportPrefix(env, store, nextId, rows, n - 1);
      ImportOneMore(env, false, store, nextId, rows, n - 1);
      ImportOneMore(env, false, done.store, done.nextId, rows, n - 1);
      MetKeyIsStored(env, store, nextId, rows, n - 1);
      RepeatStep(env, first, second, row, done.store, done.nextId);
    }
  }

  lemma StillStored(before: seq<Destination>, after: seq<Destination>, connectionId: string, key: Key)
    requires before <= after && InStore(before, connectionId, key)
    ensures InStore(after, connectionId, key)
  {
    var d :| d in before && HasKey(d, connectionId, key);
    assert d in after;
  }

  /** Applying the same rows again creates nothing: every row created the first time is reported as a duplicate,
      every other row as it was. */
  lemma {:induction false} ReapplyCreatesNothing(env: Environment, store: seq<Destination>, nextId: nat,
                                                 rows: seq<ParsedRow>)
    ensures var first := Import(env, false, store, nextId, rows);
            var second := Import(env, false, first.store, first.nextId, rows);
            && second.store == first.store && second.created == 0
            && (forall i :: 0 <= i < |rows| ==> second.results[i].status == AsReapplied(first.results[i].status))
  {
    ReimportPrefix(env, store, nextId, rows, |rows|);
    assert rows[..|rows|] == rows;
  }

  // ----- interrupted imports

  lemma {:induction false} DeferredStops(env: Environment, store: seq<Destination>, nextId: nat, rows: seq<ParsedRow>,
                                         n: nat)
    requires n <= |rows| && Import(env, false, store, nextId, rows[..n]).deferred.Some?
    ensures Import(env, false, store, nextId, rows).store == Import(env, false, store, nextId, rows[..n]).store
    ensures Import(env, false, store, nextId, rows).nextId == Import(env, false, store, nextId, rows[..n]).nextId
    ensures Import(env, false, store, nextId, rows).deferred.Some?
  {
    if n < |rows| {
      var m := |rows| - 1;
      assert rows[..m][..n] == rows[..n];
      DeferredStops(env, store, nextId, rows[..m], n);
    } else {
      assert rows[..n] == rows;
    }
  }

  lemma {:induction false} SameLooksSameImport(a: Environment, b: Environment, store: seq<Destination>, nextId: nat,
                                               rows: seq<ParsedRow>)
    requires a.connectionId == b.connectionId
    requires forall i :: 0 <= i < |rows| ==> LookAt(a, rows[i]) == LookAt(b, rows[i])
    ensures Import(a, false, store, nextId, rows) == Import(b, false, store, nextId, rows)
  {
    if rows != [] {
      SameLooksSameImport(a, b, store, nextId, rows[..|rows| - 1]);
    }
  }

  /** From a table that already holds an import of some leading rows, importing all rows ends with the same keys. */
  lemma {:induction false} PrefixThenAll(env: Environment, store: seq<Destination>, nextId: nat, k: nat,
                                         rows: seq<ParsedRow>, n: nat, key: Key)
    requires k <= |rows| && n <= |rows|
    ensures var part := Import(env, false, store, nextId, rows[..k]);
            var direct, resumed := Import(env, false, store, nextId, rows[..n]),
                Import(env, false, part.store, part.nextId, rows[..n]);
            && resumed.deferred == direct.deferred
            && (InStore(resumed.store, env.connectionId, key) <==>
                InStore(direct.store, env.connectionId, key) || InStore(part.store, env.connectionId, key))
    decreases n
  {
    var part := Import(env, false, store, nextId, rows[..k]);
    if n == 0 {
      ImportGrows(env, store, nextId, rows[..k], 0);
      if InStore(store, env.connectionId, key) { StillStored(store, part.store, env.connectionId, key); }
    } else {
      var row := rows[n - 1];
      assert rows[..n][..n - 1] == rows[..n - 1] && rows[..n][n - 1] == row;
      PrefixThenAll(env, store, nextId, k, rows, n - 1, key);
      var direct, resumed := Import(env, false, store, nextId, rows[..n - 1]),
          Import(env, false, part.store, part.nextId, rows[..n - 1]);
      StepAddsKey(env, direct, store, nextId, rows[..n - 1], row, key);
      StepAddsKey(env, resumed, part.store, part.nextId, rows[..n - 1], row, key);
    }
  }

  lemma {:induction false} StepAddsKey(env: Environment, p: Progress, store: seq<Destination>, nextId: nat,
                                       rows: seq<ParsedRow>, row: ParsedRow, key: Key)
    requires p == Import(env, false, store, nextId, rows)
    ensures var q := StepRow(env, false, p, row);
            InStore(q.store, env.connectionId, key) <==>
            InStore(p.store, env.connectionId, key)
                || (p.deferred.None? && LookAt(env, row).Found? && KeyOf(LookAt(env, row)) == key)
  {
    SeenIsStored(env, store, nextId, rows);
    if p.deferred.None? && LookAt(env, row).Found? {
      StepMeetsKey(env, p, row);
      var d := NewDestination(env, row, LookAt(env, row), p.nextId);
      InStoreAppend(p.store, d, env.connectionId, key);
    }
  }

  /** An import that Telegram interrupted loses nothing: repeating it, once the gateway answers, ends with the keys that
      one uninterrupted import would have stored. */
  lemma {:induction false} ResumedImportIsComplete(busy: Environment, free: Environment, store: seq<Destination>,
                                                   nextId: nat, rows: seq<ParsedRow>, k: nat, key: Key)
    requires busy.connectionId == free.connectionId && k < |rows|
    requires forall i :: 0 <= i < k ==> LookAt(busy, rows[i]) == LookAt(free, rows[i])
    requires LookAt(busy, rows[k]).Throttled? && Import(busy, false, store, nextId, rows[..k]).deferred.None?
    ensures var interrupted := Import(busy, false, store, nextId, rows);
            var repeated := Import(free, false, interrupted.store, interrupted.nextId, rows);
            InStore(repeated.store, free.connectionId, key) <==>
            InStore(Import(free, false, store, nextId, rows).store, free.connectionId, key)
  {
    var part := Import(busy, false, store, nextId, rows[..k]);
    assert rows[..k + 1][..k] == rows[..k];
    DeferredStops(busy, store, nextId, rows, k + 1);
    SameLooksSameImport(busy, free, store, nextId, rows[..k]);
    PrefixThenAll(free, store, nextId, k, rows, |rows|, key);
    assert rows[..|rows|] == rows;
    ImportGrows(free, store, nextId, rows, k);
    if InStore(part.store, free.connectionId, key) {
      StillStored(part.store, Import(free, false, store, nextId, rows).store, free.connectionId, key);
    }
  }

  // ----- the report

  function CountOf(results: seq<ResultRow>, s: Status): nat
  {
    if results == [] then 0
        else CountOf(results[..|results| - 1], s) + (if results[|results| - 1].status == s then 1 else 0)
  }

  ghost predicate ThrottledBefore(env: Environment, rows: seq<ParsedRow>, n: nat)
  {
    exists k :: 0 <= k < n && k < |rows| && LookAt(env, rows[k]).Throttled?
  }

  lemma {:induction false} ThrottledStep(env: Environment, rows: seq<ParsedRow>, n: nat)
    requires n < |rows|
    ensures ThrottledBefore(env, rows, n + 1) <==> ThrottledBefore(env, rows, n) || LookAt(env, rows[n]).Throttled?
  {
  }

  lemma {:induction false} ThrottledPrefix(env: Environment, rows: seq<ParsedRow>, m: nat, n: nat)
    requires n <= m <= |rows|
    ensures ThrottledBefore(env, rows[..m], n) <==> ThrottledBefore(env, rows, n)
  {
    assert forall k :: 0 <= k < m ==> rows[..m][k] == rows[k];
  }

  lemma {:induction false} DeferredIffThrottled(env: Environment, dryRun: bool, store: seq<Destination>, nextId: nat,
                                                rows: seq<ParsedRow>)
    ensures Import(env, dryRun, store, nextId, rows).deferred.Some? <==> ThrottledBefore(env, rows, |rows|)
  {
    if rows != [] {
      var n := |rows| - 1;
      DeferredIffThrottled(env, dryRun, store, nextId, rows[..n]);
      ThrottledPrefix(env, rows, n, n);
      ThrottledStep(env, rows, n);
    }
  }

  /** One pass of the loop reports its row and keeps the reports before it. */
  lemma {:induction false} StepReports(env: Environment, dryRun: bool, p: Progress, row: ParsedRow)
    ensures var q := StepRow(env, dryRun, p, row);
            && |q.results| == |p.results| + 1 && q.results[..|p.results|] == p.results
            && var r := q.results[|p.results|];
               && r.rowNumber == row.rowNumber && r.source == row.source
               && (r.status == Deferred <==> p.deferred.Some?)
               && r.status != (if dryRun then Created else Ready)
               && q.created - p.created == |q.store| - |p.store| == (if r.status == Created then 1 else 0)
  {
  }

  /** Every row is reported once, in order, and the deferred rows are exactly those after the first throttled one. */
  lemma {:induction false} EveryRowReported(env: Environment, dryRun: bool, store: seq<Destination>, nextId: nat,
                                            rows: seq<ParsedRow>, i: nat)
    requires i < |rows|
    ensures var r := Import(env, dryRun, store, nextId, rows).results[i];
            && r.rowNumber == rows[i].rowNumber && r.source == rows[i].source
            && (r.status == Deferred <==> ThrottledBefore(env, rows, i))
  {
    var n := |rows| - 1;
    var p := Import(env, dryRun, store, nextId, rows[..n]);
    StepReports(env, dryRun, p, rows[n]);
    ThrottledPrefix(env, rows, n, i);
    if i < n {
      EveryRowReported(env, dryRun, store, nextId, rows[..n], i);
      assert StepRow(env, dryRun, p, rows[n]).results[..n][i] == p.results[i];
    } else {
      DeferredIffThrottled(env, dryRun, store, nextId, rows[..n]);
    }
  }

  // ----- the verdict on each row, from the validation and the gateway alone

  /** The row has no parse error and passes validation, so the gateway is asked. */
  ghost predicate IsAsked(env: Environment, row: ParsedRow)
  {
    (row.error == None || row.error == Some("")) && env.validate(row).Ok?
  }

  /** The gateway asks for a pause. */
  ghost predicate Pauses(env: Environment, row: ParsedRow)
  {
    && IsAsked(env, row)
    && env.resolve(env.validate(row).value).Err? && env.resolve(env.validate(row).value).error.retryAfter != 0
  }

  /** The gateway names the chat. */
  ghost predicate Resolves(env: Environment, row: ParsedRow, payload: Payload, resolved: Resolved)
  {
    IsAsked(env, row) && env.validate(row) == Ok(payload) && env.resolve(payload) == Ok(resolved)
  }

  ghost predicate ResolvesTo(env: Environment, row: ParsedRow, key: Key)
  {
    exists payload, resolved ::
      Resolves(env, row, payload, resolved) && key == Key(resolved.chatId, payload.topicId)
  }

  ghost predicate PausedBefore(env: Environment, rows: seq<ParsedRow>, n: nat)
  {
    exists k :: 0 <= k < n && k < |rows| && Pauses(env, rows[k])
  }

  ghost predicate MetBefore(env: Environment, rows: seq<ParsedRow>, n: nat, key: Key)
  {
    exists k :: 0 <= k < n && k < |rows| && ResolvesTo(env, rows[k], key)
  }

  ghost predicate Names(payload: Payload, resolved: Resolved, title: string)
  {
    title == if payload.title == None || payload.title == Some("") then resolved.title else payload.title.value
  }

  /** What the report says of a row that the gateway did not resolve. */
  ghost predicate Echoes(row: ParsedRow, r: ResultRow)
  {
    && r.username == row.username && r.chatId == row.chatId && r.topicId == row.topicId && r.title == row.title
    && r.permissionConfirmed == row.permissionConfirmed && r.destinationId == None
  }

  ghost predicate Describes(payload: Payload, resolved: Resolved, r: ResultRow)
  {
    && r.username == resolved.username && r.chatId == Some(resolved.chatId) && r.topicId == payload.topicId
    && r.title.Some? && Names(payload, resolved, r.title.value)
    && r.permissionConfirmed == payload.permissionConfirmed && (r.destinationId.Some? <==> r.status == Created)
  }

  /** The verdict on row i: deferred after a pause; else an error unless the gateway resolves it; else a duplicate if
      the pair was stored at the start or met in an earlier row; else new. */
  ghost predicate Judged(env: Environment, dryRun: bool, store: seq<Destination>, rows: seq<ParsedRow>, i: nat,
                         r: ResultRow)
    requires i < |rows|
  {
    var row := rows[i];
    && r.rowNumber == row.rowNumber && r.source == row.source
    && if PausedBefore(env, rows, i) then r.status == Deferred && Echoes(row, r)
       else if forall payload, resolved :: !Resolves(env, row, payload, resolved) then
         r.status == Error && Echoes(row, r)
       else
         exists payload, resolved :: Resolves(env, row, payload, resolved) && Describes(payload, resolved, r)
           && var key := Key(resolved.chatId, payload.topicId);
              r.status == if InStore(store, env.connectionId, key) || MetBefore(env, rows, i, key) then Duplicate
                          else if dryRun then Ready else Created
  }

  /** The destination that a row created. */
  ghost predicate CreatedBy(env: Environment, row: ParsedRow, r: ResultRow, d: Destination)
  {
    && r.status == Created && r.destinationId == Some(d.id)
    && exists payload, resolved :: Resolves(env, row, payload, resolved)
         && d.connectionId == env.connectionId && d.chatId == Some(resolved.chatId) && d.topicId == payload.topicId
         && d.username == resolved.username && Names(payload, resolved, d.title)
         && d.enabled == (row.enabled && resolved.canSend) && d.permissionConfirmed == payload.permissionConfirmed
  }

  ghost predicate CreatedBySome(env: Environment, rows: seq<ParsedRow>, results: seq<ResultRow>, d: Destination)
  {
    exists i :: 0 <= i < |rows| && i < |results| && CreatedBy(env, rows[i], results[i], d)
  }

  ghost predicate SomeCreated(env: Environment, row: ParsedRow, r: ResultRow, created: seq<Destination>)
  {
    exists d :: d in created && CreatedBy(env, row, r, d)
  }

  ghost predicate AllJudged(env: Environment, dryRun: bool, store: seq<Destination>, rows: seq<ParsedRow>,
                            results: seq<ResultRow>)
  {
    |results| == |rows| && forall i :: 0 <= i < |rows| ==> Judged(env, dryRun, store, rows, i, results[i])
  }

  /** The table gained the destination of every created row and no other. */
  ghost predicate Gained(env: Environment, rows: seq<ParsedRow>, results: seq<ResultRow>, gained: seq<Destination>)
  {
    && (forall i :: 0 <= i < |rows| && i < |results| && results[i].status == Created ==>
         SomeCreated(env, rows[i], results[i], gained))
    && (forall d :: d in gained ==> CreatedBySome(env, rows, results, d))
  }

  /** The report and the table after the rows. */
  ghost predicate Accounted(env: Environment, dryRun: bool, store: seq<Destination>, rows: seq<ParsedRow>,
                            results: seq<ResultRow>, after: seq<Destination>)
  {
    AllJudged(env, dryRun, store, rows, results) && store <= after && Gained(env, rows, results, after[|store|..])
  }

  /** What the loop knows after the rows so far. */
  ghost predicate Known(env: Environment, store: seq<Destination>, rows: seq<ParsedRow>, p: Progress)
  {
    && (p.deferred.Some? <==> PausedBefore(env, rows, |rows|))
    && (p.deferred.None? ==> forall key :: key in p.seen || InStore(p.store, env.connectionId, key) <==>
         InStore(store, env.connectionId, key) || MetBefore(env, rows, |rows|, key))
  }

  lemma {:induction false} LookMeans(env: Environment, row: ParsedRow)
    ensures LookAt(env, row).Throttled? <==> Pauses(env, row)
    ensures forall payload, resolved ::
              LookAt(env, row) == Found(payload, resolved) <==> Resolves(env, row, payload, resolved)
    ensures forall key ::
              ResolvesTo(env, row, key) <==> LookAt(env, row).Found? && KeyOf(LookAt(env, row)) == key
  {
    forall key ensures ResolvesTo(env, row, key) <==> LookAt(env, row).Found? && KeyOf(LookAt(env, row)) == key {
      if LookAt(env, row).Found? {
        assert Resolves(env, row, LookAt(env, row).payload, LookAt(env, row).resolved);
      }
    }
  }

  lemma {:induction false} MetOneMore(env: Environment, rows: seq<ParsedRow>, row: ParsedRow)
    ensures PausedBefore(env, rows + [row], |rows|) <==> PausedBefore(env, rows, |rows|)
    ensures PausedBefore(env, rows + [row], |rows| + 1) <==> PausedBefore(env, rows, |rows|) || Pauses(env, row)
    ensures forall key :: MetBefore(env, rows + [row], |rows|, key) <==> MetBefore(env, rows, |rows|, key)
    ensures forall key :: MetBefore(env, rows + [row], |rows| + 1, key) <==>
              MetBefore(env, rows, |rows|, key) || ResolvesTo(env, row, key)
  {
    var all := rows + [row];
    assert all[|rows|] == row && forall k :: 0 <= k < |rows| ==> all[k] == rows[k];
  }

  lemma {:induction false} JudgedLonger(env: Environment, dryRun: bool, store: seq<Destination>, rows: seq<ParsedRow>,
                                        row: ParsedRow, i: nat, r: ResultRow)
    requires i < |rows| && Judged(env, dryRun, store, rows, i, r)
    ensures Judged(env, dryRun, store, rows + [row], i, r)
  {
    var all := rows + [row];
    assert forall k :: 0 <= k < |rows| ==> all[k] == rows[k];
    assert PausedBefore(env, all, i) <==> PausedBefore(env, rows, i);
    assert forall key :: MetBefore(env, all, i, key) <==> MetBefore(env, rows, i, key);
  }

  lemma {:induction false} StepKnows(env: Environment, dryRun: bool, store: seq<Destination>, rows: seq<ParsedRow>,
                                     p: Progress, row: ParsedRow)
    requires Known(env, store, rows, p)
    ensures Known(env, store, rows + [row], StepRow(env, dryRun, p, row))
  {
    LookMeans(env, row);
    MetOneMore(env, rows, row);
    var look := LookAt(env, row);
    if p.deferred.None? && look.Found? {
      var d := NewDestination(env, row, look, p.nextId);
      forall key
        ensures InStore(p.store + [d], env.connectionId, key) <==>
                  InStore(p.store, env.connectionId, key) || key == KeyOf(look)
      {
        InStoreAppend(p.store, d, env.connectionId, key);
      }
    }
  }

  /** The constraint never refuses what the duplicate query let through. */
  lemma QueryCoversConstraint(store: seq<Destination>, d: Destination)
    requires d.chatId.Some? && !InStore(store, d.connectionId, Key(d.chatId.value, d.topicId))
    ensures !ViolatesConstraint(store, d)
  {
    if o :| o in store && o.connectionId == d.connectionId && o.chatId.Some? && o.chatId == d.chatId
            && o.topicId.Some? && o.topicId == d.topicId {
      assert HasKey(o, d.connectionId, Key(d.chatId.value, d.topicId));
    }
  }

  /** One pass of the loop judges its row. */
  lemma {:induction false} StepJudges(env: Environment, dryRun: bool, store: seq<Destination>, rows: seq<ParsedRow>,
                                      p: Progress, row: ParsedRow)
    requires Known(env, store, rows, p) && |p.results| == |rows|
    ensures var q := StepRow(env, dryRun, p, row);
            && |q.results| == |rows| + 1 && q.results == p.results + [q.results[|rows|]]
            && Judged(env, dryRun, store, rows + [row], |rows|, q.results[|rows|])
            && if q.results[|rows|].status == Created
               then exists d :: q.store == p.store + [d] && CreatedBy(env, row, q.results[|rows|], d)
               else q.store == p.store
  {
    LookMeans(env, row);
    MetOneMore(env, rows, row);
    var look := LookAt(env, row);
    if p.deferred.None? && look.Found? {
      assert Resolves(env, row, look.payload, look.resolved);
      if !InStore(p.store, env.connectionId, KeyOf(look)) {
        var d := NewDestination(env, row, look, p.nextId);
        QueryCoversConstraint(p.store, d);
        assert Names(look.payload, look.resolved, d.title);
      }
    }
  }

  lemma {:induction false} JudgedGrows(env: Environment, dryRun: bool, store: seq<Destination>, rows: seq<ParsedRow>,
                                       results: seq<ResultRow>, row: ParsedRow, r: ResultRow)
    requires AllJudged(env, dryRun, store, rows, results) && Judged(env, dryRun, store, rows + [row], |rows|, r)
    ensures AllJudged(env, dryRun, store, rows + [row], results + [r])
  {
    forall i | 0 <= i <= |rows| ensures Judged(env, dryRun, store, rows + [row], i, (results + [r])[i]) {
      if i < |rows| { JudgedLonger(env, dryRun, store, rows, row, i, results[i]); }
    }
  }

  lemma {:induction false} GainedNothing(env: Environment, rows: seq<ParsedRow>, results: seq<ResultRow>,
                                         gained: seq<Destination>, row: ParsedRow, r: ResultRow)
    requires |results| == |rows| && Gained(env, rows, results, gained) && r.status != Created
    ensures Gained(env, rows + [row], results + [r], gained)
  {
    forall d | d in gained ensures CreatedBySome(env, rows + [row], results + [r], d) {
      CreatedLonger(env, rows, results, row, r, d);
    }
  }

  lemma {:induction false} GainedOne(env: Environment, rows: seq<ParsedRow>, results: seq<ResultRow>,
                                     gained: seq<Destination>, row: ParsedRow, r: ResultRow, d: Destination)
    requires |results| == |rows| && Gained(env, rows, results, gained) && CreatedBy(env, row, r, d)
    ensures Gained(env, rows + [row], results + [r], gained + [d])
  {
    var all, reports, now := rows + [row], results + [r], gained + [d];
    forall e | e in now ensures CreatedBySome(env, all, reports, e) {
      if e in gained {
        CreatedLonger(env, rows, results, row, r, e);
      } else {
        assert CreatedBy(env, all[|rows|], reports[|rows|], e);
      }
    }
    forall i | 0 <= i < |all| && reports[i].status == Created ensures SomeCreated(env, all[i], reports[i], now) {
      if i < |rows| {
        assert SomeCreated(env, rows[i], results[i], gained);
      } else {
        assert d in now;
      }
    }
  }

  lemma {:induction false} CreatedLonger(env: Environment, rows: seq<ParsedRow>, results: seq<ResultRow>,
                                         row: ParsedRow, r: ResultRow, d: Destination)
    requires |results| == |rows| && CreatedBySome(env, rows, results, d)
    ensures CreatedBySome(env, rows + [row], results + [r], d)
  {
    var i :| 0 <= i < |rows| && i < |results| && CreatedBy(env, rows[i], results[i], d);
    assert (rows + [row])[i] == rows[i] && (results + [r])[i] == results[i];
  }

  lemma {:induction false} AccountedGrows(env: Environment, dryRun: bool, store: seq<Destination>, rows: seq<ParsedRow>,
                                          results: seq<ResultRow>, after: seq<Destination>, row: ParsedRow,
                                          r: ResultRow, grown: seq<Destination>)
    requires Accounted(env, dryRun, store, rows, results, after)
    requires Judged(env, dryRun, store, rows + [row], |rows|, r)
    requires if r.status == Created then exists d :: grown == after + [d] && CreatedBy(env, row, r, d)
             else grown == after
    ensures Accounted(env, dryRun, store, rows + [row], results + [r], grown)
  {
    var gained := after[|store|..];
    JudgedGrows(env, dryRun, store, rows, results, row, r);
    if r.status == Created {
      var d :| grown == after + [d] && CreatedBy(env, row, r, d);
      GainedOne(env, rows, results, gained, row, r, d);
      CutInside(after, [d], |store|);
    } else {
      GainedNothing(env, rows, results, gained, row, r);
    }
  }

  lemma {:induction false} StepAccounts(env: Environment, dryRun: bool, store: seq<Destination>, rows: seq<ParsedRow>,
                                        p: Progress, row: ParsedRow, q: Progress)
    requires Known(env, store, rows, p) && Accounted(env, dryRun, store, rows, p.results, p.store)
    requires q == StepRow(env, dryRun, p, row)
    ensures Accounted(env, dryRun, store, rows + [row], q.results, q.store)
  {
    StepJudges(env, dryRun, store, rows, p, row);
    AccountedGrows(env, dryRun, store, rows, p.results, p.store, row, q.results[|rows|], q.store);
  }

  /** An import, row by row: what the validation and the gateway say of each row decides its report and what the table
      gains, as the previous definitions spell out. */
  lemma {:induction false} ImportMeans(env: Environment, dryRun: bool, store: seq<Destination>, nextId: nat,
                                       rows: seq<ParsedRow>)
    ensures var p := Import(env, dryRun, store, nextId, rows);
            Known(env, store, rows, p) && Accounted(env, dryRun, store, rows, p.results, p.store)
  {
    if rows != [] {
      var n := |rows| - 1;
      var p := Import(env, dryRun, store, nextId, rows[..n]);
      ImportMeans(env, dryRun, store, nextId, rows[..n]);
      TakeOneMore(rows, n);
      StepKnows(env, dryRun, store, rows[..n], p, rows[n]);
      StepAccounts(env, dryRun, store, rows[..n], p, rows[n], Import(env, dryRun, store, nextId, rows));
      assert rows[..n] + [rows[n]] == rows;
    }
  }

  lemma CountAppend(results: seq<ResultRow>, r: ResultRow, s: Status)
    ensures CountOf(results + [r], s) == CountOf(results, s) + if r.status == s then 1 else 0
  {
    assert (results + [r])[..|results|] == results;
  }

  lemma {:induction false} StepCounts(env: Environment, dryRun: bool, p: Progress, row: ParsedRow, s: Status)
    ensures var q := StepRow(env, dryRun, p, row);
            && |q.results| == |p.results| + 1
            && CountOf(q.results, s) == CountOf(p.results, s) + if q.results[|p.results|].status == s then 1 else 0
  {
    var q := StepRow(env, dryRun, p, row);
    StepReports(env, dryRun, p, row);
    CountAppend(p.results, q.results[|p.results|], s);
    assert q.results == q.results[..|p.results|] + [q.results[|p.results|]];
  }

  /** The status counts add up to the rows, what was created is what the table gained, and only applying creates. */
  lemma {:induction false} CountsAddUp(env: Environment, dryRun: bool, store: seq<Destination>, nextId: nat,
                                       rows: seq<ParsedRow>)
    ensures var p := Import(env, dryRun, store, nextId, rows);
            && CountOf(p.results, Ready) + CountOf(p.results, Created) + CountOf(p.results, Duplicate)
               + CountOf(p.results, Error) + CountOf(p.results, Deferred) == |rows|
            && p.created == CountOf(p.results, Created) && |p.store| == |store| + p.created
            && CountOf(p.results, if dryRun then Created else Ready) == 0
  {
    if rows != [] {
      var n := |rows| - 1;
      CountsAddUp(env, dryRun, store, nextId, rows[..n]);
      var p := Import(env, dryRun, store, nextId, rows[..n]);
      StepReports(env, dryRun, p, rows[n]);
      StepCounts(env, dryRun, p, rows[n], Ready);
      StepCounts(env, dryRun, p, rows[n], Created);
      StepCounts(env, dryRun, p, rows[n], Duplicate);
      StepCounts(env, dryRun, p, rows[n], Error);
      StepCounts(env, dryRun, p, rows[n], Deferred);
    }
  }
}
