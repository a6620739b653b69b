/** Runs of writes and rebuilds, of any organisations in any order: every chain they touch stays verifiable. */
module AuditRuns {
  import opened Common
  import opened Redaction
  import opened AuditChain
  import opened AuditTheorems
  import opened AuditRebuild

  datatype Operation = Write(request: AuditRequest, id: nat, now: int) | Rebuild(organizationId: Option<string>)

  /** Organisation ids are neither empty nor the reserved key. */
  predicate ProperOrganization(org: Option<string>)
  {
    org.None? || (org.value != "" && org.value != SYSTEM_CHAIN_KEY)
  }

  function TargetOf(op: Operation): Option<string>
  {
    match op
    case Write(request, _, _) => ResolveOrganization(request)
    case Rebuild(org) => org
  }

  function Step(h: Hashing, db: Database, op: Operation): Database
  {
    match op
    case Write(request, id, now) => AfterWrite(h, db, EventOf(request, id, now))
    case Rebuild(org) => AfterBackfill(h, db, org)
  }

  function Run(h: Hashing, db: Database, ops: seq<Operation>): Database
    decreases |ops|
  {
    if ops == [] then db else Run(h, Step(h, db, ops[0]), ops[1..])
  }

  /** New rows get fresh primary keys. */
  ghost predicate Admissible(h: Hashing, db: Database, ops: seq<Operation>)
    decreases |ops|
  {
    ops != [] ==>
      && ProperOrganization(TargetOf(ops[0]))
      && (ops[0].Write? ==> forall r :: r in db.logs ==> r.event.id != ops[0].id)
      && Admissible(h, Step(h, db, ops[0]), ops[1..])
  }

  /** Every opened chain verifies, and an unopened chain has no rows. */
  ghost predicate Sound(h: Hashing, db: Database)
  {
    && UniqueIds(db.logs)
    && forall org :: ProperOrganization(org) ==>
         if ChainKey(org) in db.states then Valid(h, db, org) else OrgRows(db.logs, org) == []
  }

  lemma {:induction false} StepKeepsSound(h: Hashing, db: Database, op: Operation)
    requires Sound(h, db) && ProperOrganization(TargetOf(op))
    requires op.Write? ==> forall r :: r in db.logs ==> r.event.id != op.id
    ensures Sound(h, Step(h, db, op))
    ensures Step(h, db, op).states.Keys == db.states.Keys + {ChainKey(TargetOf(op))}
  {
    var target, next := TargetOf(op), Step(h, db, op);
    assert UniqueIds(next.logs) by {
      if op.Rebuild? {
        BackfillTouchesOnlyMetadata(h, db, target);
      }
    }
    forall org | ProperOrganization(org)
      ensures if ChainKey(org) in next.states then Valid(h, next, org) else OrgRows(next.logs, org) == []
    {
      match op
      case Write(request, id, now) =>
        var event := EventOf(request, id, now);
        if org == target {
          StoredDetailsAreHashedDetails(request.details);
          WriteKeepsChain(h, db, event);
        } else {
          WriteElsewhere(h, db, event, org);
          OrgRowsAppend(db.logs, NextRow(h, LockedState(db, target), event), org);
        }
      case Rebuild(_) =>
        if org == target {
          BackfillIsValid(h, db, org);
        } else {
          BackfillElsewhere(h, db, target, org);
        }
    }
  }

  lemma {:induction false} RunKeepsSound(h: Hashing, db: Database, ops: seq<Operation>)
    requires Sound(h, db) && Admissible(h, db, ops)
    ensures Sound(h, Run(h, db, ops))
    decreases |ops|
  {
    if ops != [] {
      StepKeepsSound(h, db, ops[0]);
      RunKeepsSound(h, Step(h, db, ops[0]), ops[1..]);
    }
  }

  lemma {:induction false} RunOpensChains(h: Hashing, db: Database, ops: seq<Operation>, i: nat)
    requires Sound(h, db) && Admissible(h, db, ops) && i < |ops|
    ensures ProperOrganization(TargetOf(ops[i])) && ChainKey(TargetOf(ops[i])) in Run(h, db, ops).states
    decreases |ops|
  {
    StepKeepsSound(h, db, ops[0]);
    if i == 0 {
      RunKeepsOpened(h, Step(h, db, ops[0]), ops[1..], ChainKey(TargetOf(ops[0])));
    } else {
      RunOpensChains(h, Step(h, db, ops[0]), ops[1..], i - 1);
    }
  }

  lemma {:induction false} RunKeepsOpened(h: Hashing, db: Database, ops: seq<Operation>, key: string)
    requires Sound(h, db) && Admissible(h, db, ops) && key in db.states
    ensures key in Run(h, db, ops).states
    decreases |ops|
  {
    if ops != [] {
      StepKeepsSound(h, db, ops[0]);
      RunKeepsOpened(h, Step(h, db, ops[0]), ops[1..], key);
    }
  }

  /** Any interleaving of writes and rebuilds, for any organisations and the system chain and whatever the
      clock says, leaves every chain it touched verifiable. */
  lemma {:induction false} EveryRunKeepsEveryChain(h: Hashing, db: Database, ops: seq<Operation>, i: nat)
    requires Sound(h, db) && Admissible(h, db, ops) && i < |ops|
    ensures Valid(h, Run(h, db, ops), TargetOf(ops[i]))
  {
    RunKeepsSound(h, db, ops);
    RunOpensChains(h, db, ops, i);
  }

  lemma {:induction false} EmptyDatabaseIsSound(h: Hashing)
    ensures Sound(h, Database([], map[]))
  {
  }

  /** So from an empty database on, every chain ever written or rebuilt verifies, and a chain never touched has no
      rows. */
  lemma {:induction false} EveryRunFromEmpty(h: Hashing, ops: seq<Operation>, org: Option<string>)
    requires Admissible(h, Database([], map[]), ops) && ProperOrganization(org)
    ensures Touched(ops, org) ==> Valid(h, Run(h, Database([], map[]), ops), org)
    ensures !Touched(ops, org) ==> OrgRows(Run(h, Database([], map[]), ops).logs, org) == []
  {
    EmptyDatabaseIsSound(h);
    RunKeepsSound(h, Database([], map[]), ops);
    if Touched(ops, org) {
      var i :| 0 <= i < |ops| && TargetOf(ops[i]) == org;
      EveryRunKeepsEveryChain(h, Database([], map[]), ops, i);
    } else {
      UntouchedStaysClosed(h, Database([], map[]), ops, org);
    }
  }

  ghost predicate AllClean(logs: seq<Row>) { forall i :: 0 <= i < |logs| ==> Clean(logs[i].event.details) }

  /** Whatever is written and rebuilt, the events already stored stay as they are, and if all their details are clean
      so are all details stored later. */
  lemma {:induction false} RunKeepsEvents(h: Hashing, db: Database, ops: seq<Operation>)
    requires Sound(h, db) && Admissible(h, db, ops)
    ensures var logs := Run(h, db, ops).logs;
            && |db.logs| <= |logs| && (forall i :: 0 <= i < |db.logs| ==> logs[i].event == db.logs[i].event)
            && (AllClean(db.logs) ==> AllClean(logs))
    decreases |ops|
  {
    if ops != [] {
      StepKeepsSound(h, db, ops[0]);
      StepKeepsEvents(h, db, ops[0]);
      RunKeepsEvents(h, Step(h, db, ops[0]), ops[1..]);
    }
  }

  lemma {:induction false} StepKeepsEvents(h: Hashing, db: Database, op: Operation)
    requires UniqueIds(db.logs)
    ensures var logs := Step(h, db, op).logs;
            && |db.logs| <= |logs| && (forall i :: 0 <= i < |db.logs| ==> logs[i].event == db.logs[i].event)
            && (AllClean(db.logs) ==> AllClean(logs))
  {
    match op
    case Write(request, id, now) => RedactCleans(OrEmpty(request.details));
    case Rebuild(org) => BackfillTouchesOnlyMetadata(h, db, org);
  }

  /** So from an empty database on, no stored row ever carries a secret value. */
  lemma {:induction false} EveryRunIsClean(h: Hashing, ops: seq<Operation>)
    requires Admissible(h, Database([], map[]), ops)
    ensures forall row :: row in Run(h, Database([], map[]), ops).logs ==> Clean(row.event.details)
  {
    EmptyDatabaseIsSound(h);
    RunKeepsEvents(h, Database([], map[]), ops);
  }

  predicate Touched(ops: seq<Operation>, org: Option<string>)
  {
    exists i :: 0 <= i < |ops| && TargetOf(ops[i]) == org
  }

  lemma {:induction false} UntouchedStaysClosed(h: Hashing, db: Database, ops: seq<Operation>, org: Option<string>)
    requires Sound(h, db) && Admissible(h, db, ops) && ProperOrganization(org) && ChainKey(org) !in db.states
    requires !Touched(ops, org)
    ensures ChainKey(org) !in Run(h, db, ops).states
    decreases |ops|
  {
    if ops != [] {
      StepKeepsSound(h, db, ops[0]);
      assert forall i :: 0 <= i < |ops[1..]| ==> ops[1..][i] == ops[i + 1];
      UntouchedStaysClosed(h, Step(h, db, ops[0]), ops[1..], org);
    }
  }

  function Rebuilds(orgs: seq<Option<string>>): seq<Operation>
  {
    Map(org => Rebuild(org), orgs)
  }

  lemma {:induction false} RebuildKeepsValid(h: Hashing, db: Database, rebuilt: Option<string>, org: Option<string>)
    requires UniqueIds(db.logs) && ProperOrganization(rebuilt) && ProperOrganization(org)
    requires org == rebuilt || Valid(h, db, org)
    ensures Valid(h, AfterBackfill(h, db, rebuilt), org)
  {
    if org == rebuilt {
      BackfillIsValid(h, db, org);
    } else {
      BackfillElsewhere(h, db, rebuilt, org);
    }
  }

  lemma {:induction false} RunRebuilds(h: Hashing, db: Database, orgs: seq<Option<string>>)
    requires orgs != []
    ensures Run(h, db, Rebuilds(orgs)) == Run(h, AfterBackfill(h, db, orgs[0]), Rebuilds(orgs[1..]))
  {
    assert Rebuilds(orgs)[1..] == Rebuilds(orgs[1..]);
  }

  /** Rebuilding a list of chains one after another, from any rows at all, leaves each of them valid, and
      every chain that was valid before still is. */
  lemma {:induction false} RebuildingEveryChain(h: Hashing, db: Database, orgs: seq<Option<string>>,
                                                org: Option<string>)
    requires UniqueIds(db.logs) && forall o :: o in orgs ==> ProperOrganization(o)
    requires ProperOrganization(org) && (org in orgs || Valid(h, db, org))
    ensures Valid(h, Run(h, db, Rebuilds(orgs)), org)
    decreases |orgs|
  {
    if orgs != [] {
      var next := AfterBackfill(h, db, orgs[0]);
      BackfillTouchesOnlyMetadata(h, db, orgs[0]);
      if org == orgs[0] || Valid(h, db, org) {
        RebuildKeepsValid(h, db, orgs[0], org);
      }
      RunRebuilds(h, db, orgs);
      RebuildingEveryChain(h, next, orgs[1..], org);
    }
  }
}
