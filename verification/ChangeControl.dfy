/** Change requests and maintenance mode (app/api/changes.py): four eyes, the interlock, and final outcomes. */
module ChangeControl {
  import opened Common

  datatype ChangeType = Upgrade | Configuration | DatabaseMigration | Infrastructure

  datatype ChangeStatus = Draft | Approved | InProgress | Completed | Failed | Cancelled

  datatype Change = Change(
    organizationId: string, kind: ChangeType, status: ChangeStatus, createdBy: string, approvedBy: Option<string>)

  datatype State = State(changes: map<string, Change>, maintenance: map<string, bool>)

  /** A request by a user of an organisation; the flags are what the fingerprint and the verification report say. */
  datatype Action =
    | CreateChange(id: string, kind: ChangeType)
    | ApproveChange(id: string, fingerprintMatches: bool)
    | StartChange(id: string, verificationBlocked: bool)
    | CompleteChange(id: string, verificationBlocked: bool)
    | FailChange(id: string)
    | CancelChange(id: string)
    | StartMaintenance
    | StopMaintenance

  datatype Request = Request(userId: string, organizationId: string, action: Action)

  predicate NeedsMaintenance(kind: ChangeType) { kind in {Upgrade, DatabaseMigration, Infrastructure} }

  predicate InMaintenance(s: State, org: string) { org in s.maintenance && s.maintenance[org] }

  predicate Own(s: State, org: string, id: string) { id in s.changes && s.changes[id].organizationId == org }

  predicate SomethingInProgress(s: State, org: string)
  {
    exists id :: id in s.changes && s.changes[id].organizationId == org && s.changes[id].status == InProgress
  }

  predicate Permitted(s: State, r: Request)
  {
    var org := r.organizationId;
    match r.action
    case CreateChange(id, _) => id !in s.changes
    case ApproveChange(id, matches) =>
      Own(s, org, id) && s.changes[id].status == Draft && s.changes[id].createdBy != r.userId && matches
    case StartChange(id, blocked) =>
      && Own(s, org, id) && s.changes[id].status == Approved
      && (NeedsMaintenance(s.changes[id].kind) ==> InMaintenance(s, org)) && !blocked
    case CompleteChange(id, blocked) => Own(s, org, id) && s.changes[id].status == InProgress && !blocked
    case FailChange(id) => Own(s, org, id) && s.changes[id].status == InProgress
    case CancelChange(id) => Own(s, org, id) && s.changes[id].status in {Draft, Approved}
    case StartMaintenance => true
    case StopMaintenance => !SomethingInProgress(s, org)
  }

  function WithStatus(s: State, id: string, status: ChangeStatus): State
    requires id in s.changes
  {
    s.(changes := s.changes[id := s.changes[id].(status := status)])
  }

  function Step(s: State, r: Request): State
  {
    if !Permitted(s, r) then s else
      match r.action
      case CreateChange(id, kind) =>
        s.(changes := s.changes[id := Change(r.organizationId, kind, Draft, r.userId, None)])
      case ApproveChange(id, _) =>
        s.(changes := s.changes[id := s.changes[id].(status := Approved, approvedBy := Some(r.userId))])
      case StartChange(id, _) => WithStatus(s, id, InProgress)
      case CompleteChange(id, _) => WithStatus(s, id, Completed)
      case FailChange(id) => WithStatus(s, id, Failed)
      case CancelChange(id) => WithStatus(s, id, Cancelled)
      case StartMaintenance => s.(maintenance := s.maintenance[r.organizationId := true])
      case StopMaintenance => s.(maintenance := s.maintenance[r.organizationId := false])
  }

  function Run(s: State, requests: seq<Request>): State
    decreases |requests|
  {
    if requests == [] then s else Run(Step(s, requests[0]), requests[1..])
  }

  /** Maintenance is on wherever an upgrade, migration or infrastructure change is under way, and whatever was started,
      finished or merely approved was approved by somebody other than its author. */
  ghost predicate Safe(s: State)
  {
    forall id :: id in s.changes ==> SafeChange(s, s.changes[id])
  }

  ghost predicate SafeChange(s: State, c: Change)
  {
    && (c.status == InProgress && NeedsMaintenance(c.kind) ==> InMaintenance(s, c.organizationId))
    && (c.status in {Approved, InProgress, Completed, Failed} ==>
         c.approvedBy.Some? && c.approvedBy.value != c.createdBy)
  }

  /** The order in which a change's status may move; completed, failed and cancelled are final. */
  predicate Moves(from: ChangeStatus, to: ChangeStatus)
  {
    || from == to
    || (from == Draft && to in {Approved, Cancelled})
    || (from == Approved && to in {InProgress, Cancelled})
    || (from == InProgress && to in {Completed, Failed})
  }

  /** A change after a request of the given organisation: same author and kind, a permitted move, and nothing across
      organisations. */
  ghost predicate Follows(before: Change, after: Change, org: string)
  {
    && Moves(before.status, after.status)
    && after.createdBy == before.createdBy && after.kind == before.kind && after.organizationId == before.organizationId
    && (before.organizationId != org ==> after == before)
  }

  lemma StepFollows(s: State, r: Request, id: string)
    requires id in s.changes
    ensures id in Step(s, r).changes && Follows(s.changes[id], Step(s, r).changes[id], r.organizationId)
  {
  }

  lemma StepIsSafe(s: State, r: Request)
    requires Safe(s)
    ensures Safe(Step(s, r))
  {
    var next := Step(s, r);
    forall id | id in next.changes ensures SafeChange(next, next.changes[id]) {
      if id in s.changes { assert SafeChange(s, s.changes[id]); }
    }
  }

  predicate Final(c: Change) { c.status in {Completed, Failed, Cancelled} }

  /** A status can be reached from another by permitted moves. */
  ghost predicate Leads(from: ChangeStatus, to: ChangeStatus)
  {
    exists path: seq<ChangeStatus> :: IsCourse(path, from, to)
  }

  ghost predicate IsCourse(path: seq<ChangeStatus>, from: ChangeStatus, to: ChangeStatus)
  {
    && path != [] && path[0] == from && path[|path| - 1] == to
    && forall i :: 0 <= i < |path| - 1 ==> Moves(path[i], path[i + 1])
  }

  lemma LeadsStep(from: ChangeStatus, via: ChangeStatus, to: ChangeStatus)
    requires Moves(from, via) && Leads(via, to)
    ensures Leads(from, to)
  {
    var path :| IsCourse(path, via, to);
    assert IsCourse([from] + path, from, to);
  }

  /** Permitted moves only lead forward: never out of a final status, never back to a draft or an approval. */
  lemma LeadsForward(from: ChangeStatus, to: ChangeStatus)
    ensures Leads(from, to) <==>
            || from == to || from == Draft
            || (from == Approved && to in {InProgress, Completed, Failed, Cancelled})
            || (from == InProgress && to in {Completed, Failed})
  {
    if Leads(from, to) {
      var path :| IsCourse(path, from, to);
      CourseGoesForward(path, from, to);
    } else {
      assert !IsCourse([from], from, to) && !IsCourse([from, to], from, to);
      assert !IsCourse([from, InProgress, to], from, to);
      assert !IsCourse([from, Approved, to], from, to);
      assert !IsCourse([from, Approved, InProgress, to], from, to);
    }
  }

  lemma {:induction false} CourseGoesForward(path: seq<ChangeStatus>, from: ChangeStatus, to: ChangeStatus)
    requires IsCourse(path, from, to)
    ensures || from == to || from == Draft
            || (from == Approved && to in {InProgress, Completed, Failed, Cancelled})
            || (from == InProgress && to in {Completed, Failed})
  {
    if |path| > 1 {
      assert Moves(path[0], path[1]);
      assert IsCourse(path[1..], path[1], to);
      CourseGoesForward(path[1..], path[1], to);
    }
  }

  /** Along any run a change keeps its author, kind and organisation, and its status goes only where permitted moves
      lead. */
  lemma {:induction false} EveryRunMovesForward(s: State, requests: seq<Request>, id: string)
    requires id in s.changes
    ensures id in Run(s, requests).changes
    ensures var before, after := s.changes[id], Run(s, requests).changes[id];
            && after.createdBy == before.createdBy && after.kind == before.kind
            && after.organizationId == before.organizationId && Leads(before.status, after.status)
    decreases |requests|
  {
    if requests == [] {
      assert IsCourse([s.changes[id].status], s.changes[id].status, s.changes[id].status);
    } else {
      var next := Step(s, requests[0]);
      StepFollows(s, requests[0], id);
      EveryRunMovesForward(next, requests[1..], id);
      LeadsStep(s.changes[id].status, next.changes[id].status, Run(s, requests).changes[id].status);
    }
  }

  /** In every reachable state the interlock and the four-eyes rule hold, for every organisation. */
  lemma {:induction false} EveryRunIsSafe(s: State, requests: seq<Request>)
    requires Safe(s)
    ensures Safe(Run(s, requests))
    decreases |requests|
  {
    if requests != [] {
      StepIsSafe(s, requests[0]);
      EveryRunIsSafe(Step(s, requests[0]), requests[1..]);
    }
  }

  lemma FinalStep(s: State, r: Request, id: string)
    requires id in s.changes && Final(s.changes[id])
    ensures id in Step(s, r).changes && Step(s, r).changes[id] == s.changes[id]
  {
  }

  /** A completed, failed or cancelled change never changes again. */
  lemma {:induction false} FinalIsFinal(s: State, requests: seq<Request>, id: string)
    requires id in s.changes && Final(s.changes[id])
    ensures id in Run(s, requests).changes && Run(s, requests).changes[id] == s.changes[id]
    decreases |requests|
  {
    if requests != [] {
      FinalStep(s, requests[0], id);
      FinalIsFinal(Step(s, requests[0]), requests[1..], id);
    }
  }

  /** Nobody can carry a change through alone: with one user acting, no change of an initially empty system starts. */
  lemma {:induction false} OneUserCannotStart(s: State, requests: seq<Request>, user: string)
    requires forall i :: 0 <= i < |requests| ==> requests[i].userId == user
    requires forall id :: id in s.changes ==>
               s.changes[id].createdBy == user && s.changes[id].status in {Draft, Cancelled}
    ensures forall id :: id in Run(s, requests).changes ==> Run(s, requests).changes[id].status in {Draft, Cancelled}
    decreases |requests|
  {
    if requests != [] {
      assert requests[0].userId == user;
      assert forall i :: 1 <= i < |requests| ==> requests[i] == requests[1..][i - 1];
      OneUserCannotStart(Step(s, requests[0]), requests[1..], user);
    }
  }

  // ----- the handlers on the tables themselves

  /** The organisation's change is in one of these states. */
  ghost predicate InStatus(changes: map<string, Change>, org: string, id: string, statuses: set<ChangeStatus>)
  {
    id in changes && changes[id].organizationId == org && changes[id].status in statuses
  }

  class ChangeDesk {
    var changes: map<string, Change>
    var maintenance: map<string, bool>

    constructor ()
      ensures Snapshot() == State(map[], map[])
    {
      changes, maintenance := map[], map[];
    }

    function Snapshot(): State
      reads this
    {
      State(changes, maintenance)
    }

    method Approve(user: string, org: string, id: string, fingerprintMatches: bool) returns (ok: bool)
      modifies this
      ensures ok <==> Permitted(old(Snapshot()), Request(user, org, ApproveChange(id, fingerprintMatches)))
      ensures Snapshot() == Step(old(Snapshot()), Request(user, org, ApproveChange(id, fingerprintMatches)))
      ensures ok <==> InStatus(old(changes), org, id, {Draft}) && old(changes)[id].createdBy != user
                        && fingerprintMatches
      ensures maintenance == old(maintenance)
      ensures changes == if ok
                then old(changes)[id := old(changes)[id].(status := Approved, approvedBy := Some(user))]
                else old(changes)
    {
      if id !in changes || changes[id].organizationId != org { return false; }
      if changes[id].status != Draft { return false; }
      if changes[id].createdBy == user { return false; }
      if !fingerprintMatches { return false; }
      changes := changes[id := changes[id].(status := Approved, approvedBy := Some(user))];
      return true;
    }

    method Start(user: string, org: string, id: string, verificationBlocked: bool) returns (ok: bool)
      modifies this
      ensures ok <==> Permitted(old(Snapshot()), Request(user, org, StartChange(id, verificationBlocked)))
      ensures Snapshot() == Step(old(Snapshot()), Request(user, org, StartChange(id, verificationBlocked)))
      ensures ok <==> InStatus(old(changes), org, id, {Approved}) && !verificationBlocked
                        && (old(changes)[id].kind == Configuration
                            || (org in old(maintenance) && old(maintenance)[org]))
      ensures maintenance == old(maintenance)
      ensures changes == if ok then old(changes)[id := old(changes)[id].(status := InProgress)] else old(changes)
    {
      if id !in changes || changes[id].organizationId != org { return false; }
      if changes[id].status != Approved { return false; }
      if NeedsMaintenance(changes[id].kind) && !(org in maintenance && maintenance[org]) { return false; }
      if verificationBlocked { return false; }
      changes := changes[id := changes[id].(status := InProgress)];
      return true;
    }

    method StopMaintenanceMode(user: string, org: string) returns (ok: bool)
      modifies this
      ensures ok <==> Permitted(old(Snapshot()), Request(user, org, StopMaintenance))
      ensures Snapshot() == Step(old(Snapshot()), Request(user, org, StopMaintenance))
      ensures ok <==> forall id :: id in old(changes) && old(changes)[id].organizationId == org ==>
                                     old(changes)[id].status != InProgress
      ensures changes == old(changes) && maintenance == if ok then old(maintenance)[org := false] else old(maintenance)
    {
      if SomethingInProgress(Snapshot(), org) { return false; }
      maintenance := maintenance[org := false];
      return true;
    }

    method Complete(user: string, org: string, id: string, verificationBlocked: bool) returns (ok: bool)
      modifies this
      ensures ok <==> Permitted(old(Snapshot()), Request(user, org, CompleteChange(id, verificationBlocked)))
      ensures Snapshot() == Step(old(Snapshot()), Request(user, org, CompleteChange(id, verificationBlocked)))
      ensures ok <==> InStatus(old(changes), org, id, {InProgress}) && !verificationBlocked
      ensures maintenance == old(maintenance)
      ensures changes == if ok then old(changes)[id := old(changes)[id].(status := Completed)] else old(changes)
    {
      if id !in changes || changes[id].organizationId != org { return false; }
      if changes[id].status != InProgress { return false; }
      if verificationBlocked { return false; }
      changes := changes[id := changes[id].(status := Completed)];
      return true;
    }

    method Create(user: string, org: string, id: string, kind: ChangeType) returns (ok: bool)
      modifies this
      ensures ok <==> Permitted(old(Snapshot()), Request(user, org, CreateChange(id, kind)))
      ensures Snapshot() == Step(old(Snapshot()), Request(user, org, CreateChange(id, kind)))
      ensures ok <==> id !in old(changes)
      ensures maintenance == old(maintenance)
      ensures changes == if ok then old(changes)[id := Change(org, kind, Draft, user, None)] else old(changes)
    {
      if id in changes { return false; }
      changes := changes[id := Change(org, kind, Draft, user, None)];
      return true;
    }

    method Fail(user: string, org: string, id: string) returns (ok: bool)
      modifies this
      ensures ok <==> Permitted(old(Snapshot()), Request(user, org, FailChange(id)))
      ensures Snapshot() == Step(old(Snapshot()), Request(user, org, FailChange(id)))
      ensures ok <==> InStatus(old(changes), org, id, {InProgress})
      ensures maintenance == old(maintenance)
      ensures changes == if ok then old(changes)[id := old(changes)[id].(status := Failed)] else old(changes)
    {
      if id !in changes || changes[id].organizationId != org { return false; }
      if changes[id].status != InProgress { return false; }
      changes := changes[id := changes[id].(status := Failed)];
      return true;
    }

    method StartMaintenanceMode(user: string, org: string)
      modifies this
      ensures Snapshot() == Step(old(Snapshot()), Request(user, org, StartMaintenance))
      ensures changes == old(changes) && maintenance == old(maintenance)[org := true]
    {
      maintenance := maintenance[org := true];
    }

    method Cancel(user: string, org: string, id: string) returns (ok: bool)
      modifies this
      ensures ok <==> Permitted(old(Snapshot()), Request(user, org, CancelChange(id)))
      ensures Snapshot() == Step(old(Snapshot()), Request(user, org, CancelChange(id)))
      ensures ok <==> InStatus(old(changes), org, id, {Draft, Approved})
      ensures maintenance == old(maintenance)
      ensures changes == if ok then old(changes)[id := old(changes)[id].(status := Cancelled)] else old(changes)
    {
      if id !in changes || changes[id].organizationId != org { return false; }
      if changes[id].status !in {Draft, Approved} { return false; }
      changes := changes[id := changes[id].(status := Cancelled)];
      return true;
    }
  }
}
