/**
 What sequences of operator requests, by users of any organisations, can and cannot do to deliveries: the exact request
 that moves a settled job, wakes a cancelled or edited campaign, or lets a job of a revoked connection go out.
 */
module OperatorRuns {
  import opened Common
  import opened JobTables
  import opened Rollout
  import opened OperatorActions
  import opened OperatorSteps

  // ----- settled jobs

  /** The i-th job is no longer what it was. */
  ghost function Differs(i: nat, was: Job): Database -> bool { (db: Database) => i < |db.jobs| && db.jobs[i] != was }

  ghost function TargetsJob(i: nat): (Database, string, Action) -> bool
  {
    (db: Database, org: string, a: Action) => i < |db.jobs| && Targets(db, org, a, i)
  }

  /** Over any sequence of requests a job that is finished, being sent, or of unknown result ever changes exactly when
      some request retries it or records the verdict of a manual check on it. */
  lemma {:induction false} FixedChangesIffTargeted(db: Database, requests: seq<Request>, i: nat)
    requires i < |db.jobs| && Fixed(db.jobs[i])
    ensures Ever(Differs(i, db.jobs[i]), db, requests) <==> EverStep(TargetsJob(i), db, requests)
    decreases |requests|
  {
    if requests != [] {
      var next := Step(db, requests[0].0, requests[0].1);
      StepMoves(db, requests[0].0, requests[0].1, i);
      if next.jobs[i] == db.jobs[i] {
        FixedChangesIffTargeted(next, requests[1..], i);
      } else {
        EverNow(Differs(i, db.jobs[i]), next, requests[1..]);
      }
    }
  }

  lemma EverNow(holds: Database -> bool, db: Database, requests: seq<Request>)
    requires holds(db)
    ensures Ever(holds, db, requests)
  {
  }

  /** A job whose change needs a request that is never let through. */
  predicate Final(j: Job)
  {
    j.status in {Sent, Cancelled, Processing} || (j.status in {Failed, Skipped} && j.reviewed)
  }

  /** So a sent or cancelled job, one being sent, and one that a person has given up on never change. */
  lemma {:induction false} FinalNeverChanges(db: Database, requests: seq<Request>, i: nat)
    requires i < |db.jobs| && Final(db.jobs[i])
    ensures |Run(db, requests).jobs| == |db.jobs| && Run(db, requests).jobs[i] == db.jobs[i]
    decreases |requests|
  {
    if requests != [] {
      StepMoves(db, requests[0].0, requests[0].1, i);
      FinalNeverChanges(Step(db, requests[0].0, requests[0].1), requests[1..], i);
    }
  }

  /** Requests of other organisations never touch a job. */
  lemma {:induction false} OthersLeaveJobsAlone(db: Database, requests: seq<Request>, i: nat)
    requires Consistent(db) && i < |db.jobs|
    requires forall k :: 0 <= k < |requests| ==> requests[k].0 != db.jobs[i].organizationId
    ensures |Run(db, requests).jobs| == |db.jobs| && Run(db, requests).jobs[i] == db.jobs[i]
    decreases |requests|
  {
    if requests != [] {
      StepCounts(db, requests[0].0, requests[0].1);
      StepKeepsConsistent(db, requests[0].0, requests[0].1);
      OtherOrganizationStep(db, requests[0].0, requests[0].1, i);
      assert forall k :: 0 <= k < |requests[1..]| ==> requests[1..][k] == requests[k + 1];
      OthersLeaveJobsAlone(Step(db, requests[0].0, requests[0].1), requests[1..], i);
    }
  }

  lemma OtherOrganizationStep(db: Database, org: string, a: Action, i: nat)
    requires Consistent(db) && i < |db.jobs| && db.jobs[i].organizationId != org
    ensures |Step(db, org, a).jobs| == |db.jobs| && Step(db, org, a).jobs[i] == db.jobs[i]
  {
    StepCounts(db, org, a);
    StepJobs(db, org, a);
    if Permitted(db, org, a) {
      if a.ContinueRun? {
        var r := db.runs[FindRun(db.runs, org, a.campaignId, a.runId)];
        ReleaseMeans(db.jobs, r, SpacingOf(db.campaigns, r), a.now, i);
      } else if SettlesJob(a) {
        OtherOrganizationSettles(db, org, a, i);
      } else {
        OtherOrganizationUpdates(db, org, a, i);
      }
    }
  }

  lemma OtherOrganizationUpdates(db: Database, org: string, a: Action, i: nat)
    requires i < |db.jobs| && db.jobs[i].organizationId != org && Permitted(db, org, a) && !a.ContinueRun?
    requires !SettlesJob(a)
    ensures |JobsAfter(db, org, a)| == |db.jobs| && JobsAfter(db, org, a)[i] == db.jobs[i]
  {
  }

  lemma OtherOrganizationSettles(db: Database, org: string, a: Action, i: nat)
    requires Consistent(db) && i < |db.jobs| && db.jobs[i].organizationId != org && Permitted(db, org, a)
    requires SettlesJob(a)
    ensures |AfterJob(db, org, a).jobs| == |db.jobs| && AfterJob(db, org, a).jobs[i] == db.jobs[i]
  {
    SettlingJobKept(db, org, a);
    OtherOrganizationKept(db, FindJob(db.jobs, org, a.jobId), SettlingJob(db, org, a), a.capacity, a.now, i);
  }

  lemma SettlingJobKept(db: Database, org: string, a: Action)
    requires Permitted(db, org, a) && SettlesJob(a)
    ensures var k, j := FindJob(db.jobs, org, a.jobId), SettlingJob(db, org, a);
            SameIdentity(db.jobs[k], j) && j.organizationId == org && j.status != Held
  {
  }

  lemma OtherOrganizationKept(db: Database, k: nat, j: Job, capacity: bool, now: int, i: nat)
    requires Consistent(db) && i < |db.jobs| && k < |db.jobs| && SameIdentity(db.jobs[k], j) && j.status != Held
    requires db.jobs[i].organizationId != j.organizationId
    ensures var after := JobSettled(db, k, j, capacity, now).jobs;
            |after| == |db.jobs| && after[i] == db.jobs[i]
  {
    SettlingJobs(db, k, j, capacity, now, i);
    RunOfJob(db, k);
  }

  lemma RunOfJob(db: Database, k: nat)
    requires Consistent(db) && k < |db.jobs|
    ensures var r := RunById(db.runs, db.jobs[k].runId);
            r < |db.runs| ==> db.runs[r].organizationId == db.jobs[k].organizationId
                              && db.runs[r].campaignId == db.jobs[k].campaignId
  {
    assert db.jobs[k] in db.jobs;
    var r := RunById(db.runs, db.jobs[k].runId);
    if r < |db.runs| { assert db.runs[r] in db.runs; }
  }

  /** A cancelled run is never resurrected. */
  lemma {:induction false} CancelledRunStays(db: Database, requests: seq<Request>, k: nat)
    requires k < |db.runs| && db.runs[k].status == RunCancelled
    ensures |Run(db, requests).runs| == |db.runs| && Run(db, requests).runs[k].status == RunCancelled
    decreases |requests|
  {
    if requests != [] {
      StepRuns(db, requests[0].0, requests[0].1, k);
      CancelledRunStays(Step(db, requests[0].0, requests[0].1), requests[1..], k);
    }
  }

  // ----- cancelled and edited campaigns

  /** The campaign's jobs have a result or are being sent, and none of its runs is active. */
  ghost predicate Dormant(db: Database, org: string, id: string)
  {
    && (forall i :: 0 <= i < |db.jobs| && OfCampaign(db.jobs[i], org, id) ==>
          Finished(db.jobs[i]) || db.jobs[i].status == Processing)
    && (forall k :: 0 <= k < |db.runs| && RunOfCampaign(db.runs[k], org, id) ==> !ActiveRun(db.runs[k]))
  }

  /** The campaign's jobs and runs are row by row the same, and so are the tables' lengths. */
  ghost predicate SameRows(b: Database, a: Database, org: string, id: string)
  {
    && |a.jobs| == |b.jobs| && |a.runs| == |b.runs|
    && (forall i :: 0 <= i < |b.jobs| && OfCampaign(b.jobs[i], org, id) ==> a.jobs[i] == b.jobs[i])
    && (forall k :: 0 <= k < |b.runs| && RunOfCampaign(b.runs[k], org, id) ==> a.runs[k] == b.runs[k])
    && (forall i :: 0 <= i < |b.jobs| ==> SameIdentity(b.jobs[i], a.jobs[i]))
    && (forall k :: 0 <= k < |b.runs| ==> SameRun(b.runs[k], a.runs[k]))
  }

  /** Some job of the campaign is retried. */
  predicate RetriesOf(db: Database, who: string, a: Action, org: string, id: string)
  {
    Permitted(db, who, a) && a.RetryJob? && OfCampaign(db.jobs[FindJob(db.jobs, who, a.jobId)], org, id)
  }

  ghost function Retries(org: string, id: string): (Database, string, Action) -> bool
  {
    (db: Database, who: string, a: Action) => RetriesOf(db, who, a, org, id)
  }

  ghost function RowsDiffer(was: Database, org: string, id: string): Database -> bool
  {
    (db: Database) => !SameRows(was, db, org, id)
  }

  /** After a campaign is cancelled or edited its jobs have a result or are being sent, and none of its runs is
      active. */
  lemma LeavesDormant(db: Database, org: string, a: Action)
    requires (a.CancelCampaign? || a.PatchCampaign?) && Permitted(db, org, a)
    ensures Dormant(Step(db, org, a), org, a.campaignId)
  {
    var next := Step(db, org, a);
    forall i | 0 <= i < |next.jobs| && OfCampaign(next.jobs[i], org, a.campaignId)
      ensures Finished(next.jobs[i]) || next.jobs[i].status == Processing
    {
      StepMoves(db, org, a, i);
    }
  }

  lemma DormantJob(db: Database, who: string, a: Action, org: string, id: string, i: nat)
    requires Dormant(db, org, id) && i < |db.jobs| && OfCampaign(db.jobs[i], org, id)
    ensures |Step(db, who, a).jobs| == |db.jobs| && SameIdentity(db.jobs[i], Step(db, who, a).jobs[i])
    ensures !RetriesOf(db, who, a, org, id) ==> Step(db, who, a).jobs[i] == db.jobs[i]
  {
    StepMoves(db, who, a, i);
  }

  lemma DormantRun(db: Database, who: string, a: Action, org: string, id: string, k: nat)
    requires Consistent(db) && Dormant(db, org, id) && k < |db.runs| && RunOfCampaign(db.runs[k], org, id)
    ensures |Step(db, who, a).runs| == |db.runs| && Step(db, who, a).runs[k] == db.runs[k]
  {
    if Permitted(db, who, a) && SettlesJob(a) {
      DormantSettledRun(db, who, a, org, id, k);
    } else if Permitted(db, who, a) {
      DormantOtherRun(db, who, a, org, id, k);
    }
  }

  lemma DormantSettledRun(db: Database, who: string, a: Action, org: string, id: string, k: nat)
    requires Consistent(db) && Dormant(db, org, id) && k < |db.runs| && RunOfCampaign(db.runs[k], org, id)
    requires Permitted(db, who, a) && SettlesJob(a)
    ensures |AfterJob(db, who, a).runs| == |db.runs| && AfterJob(db, who, a).runs[k] == db.runs[k]
  {
    var i, j := FindJob(db.jobs, who, a.jobId), SettlingJob(db, who, a);
    SettlingJobKept(db, who, a);
    SettlingRuns(db, i, j, a.capacity, a.now, k);
    if k == RunById(db.runs, j.runId) { RunOfJob(db, i); }
  }

  lemma DormantOtherRun(db: Database, who: string, a: Action, org: string, id: string, k: nat)
    requires Dormant(db, org, id) && k < |db.runs| && RunOfCampaign(db.runs[k], org, id)
    requires Permitted(db, who, a) && !SettlesJob(a)
    ensures |RunsAfter(db, who, a)| == |db.runs| && RunsAfter(db, who, a)[k] == db.runs[k]
  {
  }

  /** One request leaves a dormant campaign's jobs and runs exactly as they are, unless it retries one of the jobs. */
  lemma DormantStep(db: Database, who: string, a: Action, org: string, id: string)
    requires Consistent(db) && Dormant(db, org, id)
    ensures SameRows(db, Step(db, who, a), org, id) <==> !RetriesOf(db, who, a, org, id)
  {
    var next := Step(db, who, a);
    StepCounts(db, who, a);
    forall i | 0 <= i < |db.jobs|
      ensures SameIdentity(db.jobs[i], next.jobs[i])
      ensures OfCampaign(db.jobs[i], org, id) && !RetriesOf(db, who, a, org, id) ==> next.jobs[i] == db.jobs[i]
    {
      StepMoves(db, who, a, i);
      if OfCampaign(db.jobs[i], org, id) { DormantJob(db, who, a, org, id, i); }
    }
    forall k | 0 <= k < |db.runs|
      ensures SameRun(db.runs[k], next.runs[k])
      ensures RunOfCampaign(db.runs[k], org, id) ==> next.runs[k] == db.runs[k]
    {
      StepRuns(db, who, a, k);
      if RunOfCampaign(db.runs[k], org, id) { DormantRun(db, who, a, org, id, k); }
    }
    if RetriesOf(db, who, a, org, id) {
      var i := FindJob(db.jobs, who, a.jobId);
      StepMoves(db, who, a, i);
      assert next.jobs[i] != db.jobs[i];
    }
  }

  lemma SameRowsStayDormant(b: Database, a: Database, org: string, id: string)
    requires Dormant(b, org, id) && SameRows(b, a, org, id)
    ensures Dormant(a, org, id)
  {
  }

  lemma SameRowsChain(b: Database, m: Database, a: Database, org: string, id: string)
    requires SameRows(b, m, org, id)
    ensures SameRows(m, a, org, id) <==> SameRows(b, a, org, id)
  {
  }

  /** Whatever is requested later, a dormant campaign's jobs and runs ever change exactly when one of its failed or
      skipped jobs is retried. */
  lemma {:induction false} DormantUntilRetried(was: Database, db: Database, requests: seq<Request>, org: string,
                                               id: string)
    requires Consistent(db) && Dormant(db, org, id) && SameRows(was, db, org, id)
    ensures Ever(RowsDiffer(was, org, id), db, requests) <==> EverStep(Retries(org, id), db, requests)
    decreases |requests|
  {
    if requests != [] {
      var who, a := requests[0].0, requests[0].1;
      var next := Step(db, who, a);
      DormantStep(db, who, a, org, id);
      SameRowsChain(was, db, next, org, id);
      if RetriesOf(db, who, a, org, id) {
        EverNow(RowsDiffer(was, org, id), next, requests[1..]);
      } else {
        StepKeepsConsistent(db, who, a);
        SameRowsStayDormant(db, next, org, id);
        DormantUntilRetried(was, next, requests[1..], org, id);
      }
    }
  }

  /** Once a campaign is edited or cancelled its jobs have a result or are being sent and its runs are idle, and over
      any later requests by anybody they ever change exactly when one of its failed or skipped jobs is retried. */
  lemma CampaignQuietUntilRetried(db: Database, org: string, a: Action, later: seq<Request>)
    requires Consistent(db) && (a.CancelCampaign? || a.PatchCampaign?) && Permitted(db, org, a)
    ensures var next := Step(db, org, a);
            && Dormant(next, org, a.campaignId)
            && (Ever(RowsDiffer(next, org, a.campaignId), next, later) <==>
                 EverStep(Retries(org, a.campaignId), next, later))
  {
    LeavesDormant(db, org, a);
    StepKeepsConsistent(db, org, a);
    DormantUntilRetried(Step(db, org, a), Step(db, org, a), later, org, a.campaignId);
  }

  /** The campaign is cancelled, without an approval or a request for one, and dormant. */
  ghost predicate Sealed(db: Database, id: string)
  {
    && id in db.campaigns && db.campaigns[id].status == CampaignCancelled
    && !db.campaigns[id].approved && !db.campaigns[id].pending
    && Dormant(db, db.campaigns[id].organizationId, id)
  }

  lemma SealedCampaignStays(db: Database, who: string, a: Action, id: string)
    requires Sealed(db, id)
    ensures id in Step(db, who, a).campaigns && Step(db, who, a).campaigns[id] == db.campaigns[id]
    ensures !RetriesOf(db, who, a, db.campaigns[id].organizationId, id)
  {
    if Permitted(db, who, a) { SealedAgainst(db, who, a, id); }
  }

  lemma SealedAgainst(db: Database, who: string, a: Action, id: string)
    requires Sealed(db, id) && Permitted(db, who, a)
    ensures id in CampaignsAfter(db, who, a) && CampaignsAfter(db, who, a)[id] == db.campaigns[id]
    ensures !RetriesOf(db, who, a, db.campaigns[id].organizationId, id)
  {
  }

  /** A cancelled campaign is final: over any later requests by anybody the campaign itself, its jobs and its runs stay
      exactly as the cancellation left them. */
  lemma {:induction false} SealedForEver(db: Database, requests: seq<Request>, id: string)
    requires Consistent(db) && Sealed(db, id)
    ensures var end := Run(db, requests);
            && id in end.campaigns && end.campaigns[id] == db.campaigns[id]
            && SameRows(db, end, db.campaigns[id].organizationId, id)
    decreases |requests|
  {
    if requests != [] {
      var who, a := requests[0].0, requests[0].1;
      var org, next := db.campaigns[id].organizationId, Step(db, who, a);
      SealedCampaignStays(db, who, a, id);
      DormantStep(db, who, a, org, id);
      SameRowsStayDormant(db, next, org, id);
      StepKeepsConsistent(db, who, a);
      SealedForEver(next, requests[1..], id);
      SameRowsChain(db, next, Run(next, requests[1..]), org, id);
    }
  }

  lemma CancelledIsFinal(db: Database, org: string, id: string, now: int, later: seq<Request>)
    requires Consistent(db) && Permitted(db, org, CancelCampaign(id, now))
    ensures var next := Step(db, org, CancelCampaign(id, now));
            var end := Run(next, later);
            && id in end.campaigns && end.campaigns[id] == next.campaigns[id]
                 && end.campaigns[id].status == CampaignCancelled
            && SameRows(next, end, org, id) && Dormant(end, org, id)
  {
    var a := CancelCampaign(id, now);
    var next := Step(db, org, a);
    LeavesDormant(db, org, a);
    StepKeepsConsistent(db, org, a);
    SealedForEver(next, later, id);
    SameRowsStayDormant(next, Run(next, later), org, id);
  }

  // ----- revoked connections

  ghost function StatusIsNotRevoked(id: string): Database -> bool
  {
    (db: Database) => id !in db.connections || db.connections[id].status != ConnRevoked
  }

  /** An authorisation started for the connection comes to an end. */
  predicate EndsAuth(db: Database, org: string, a: Action, id: string)
  {
    Permitted(db, org, a) && a.CompleteAuth? && a.connectionId == id && a.outcome != AuthOpen
  }

  ghost function AuthEnds(id: string): (Database, string, Action) -> bool
  {
    (db: Database, org: string, a: Action) => EndsAuth(db, org, a, id)
  }

  lemma RevokedStep(db: Database, org: string, a: Action, id: string)
    requires id in db.connections && db.connections[id].status == ConnRevoked
    ensures id in Step(db, org, a).connections
    ensures Step(db, org, a).connections[id].status != ConnRevoked <==> EndsAuth(db, org, a, id)
    ensures !EndsAuth(db, org, a, id) ==> Step(db, org, a).connections[id] == db.connections[id]
  {
    if Permitted(db, org, a) { RevokedAgainst(db, org, a, id); }
  }

  lemma RevokedAgainst(db: Database, org: string, a: Action, id: string)
    requires id in db.connections && db.connections[id].status == ConnRevoked && Permitted(db, org, a)
    ensures id in ConnectionsAfter(db, org, a)
    ensures ConnectionsAfter(db, org, a)[id].status != ConnRevoked <==> EndsAuth(db, org, a, id)
    ensures !EndsAuth(db, org, a, id) ==> ConnectionsAfter(db, org, a)[id] == db.connections[id]
  {
  }

  /** A revoked connection ever leaves that status exactly when an authorisation that was still open for it comes to
      an end. */
  lemma {:induction false} RevokedUntilAuthEnds(db: Database, requests: seq<Request>, id: string)
    requires id in db.connections && db.connections[id].status == ConnRevoked
    ensures Ever(StatusIsNotRevoked(id), db, requests) <==> EverStep(AuthEnds(id), db, requests)
    decreases |requests|
  {
    if requests != [] {
      var next := Step(db, requests[0].0, requests[0].1);
      RevokedStep(db, requests[0].0, requests[0].1, id);
      if EndsAuth(db, requests[0].0, requests[0].1, id) {
        EverNow(StatusIsNotRevoked(id), next, requests[1..]);
      } else {
        RevokedUntilAuthEnds(next, requests[1..], id);
      }
    }
  }

  /** Work a worker would pick up. */
  predicate Ready(j: Job) { j.status in {Pending, Retry} }

  /** Not ready, and not parked where resuming the publishing would make it ready. */
  predicate Idle(j: Job)
  {
    !Ready(j) && (j.status == WaitingReview ==> Uncertain(j) || j.errorCode == Some(STAGE_CODE))
  }

  ghost function IsReady(i: nat): Database -> bool { (db: Database) => i < |db.jobs| && Ready(db.jobs[i]) }

  ghost function ReleasesJob(i: nat): (Database, string, Action) -> bool
  {
    (db: Database, org: string, a: Action) => Releases(db, org, a, i)
  }

  /** The connection is revoked and has no open authorisation. */
  predicate Shut(db: Database, id: string)
  {
    id in db.connections && db.connections[id].status == ConnRevoked && !db.connections[id].challenged
  }

  lemma ShutJob(db: Database, org: string, a: Action, i: nat, after: Job)
    requires i < |db.jobs| && Idle(db.jobs[i]) && Shut(db, db.jobs[i].connectionId) && Explained(db, org, a, i, after)
    ensures after.connectionId == db.jobs[i].connectionId
    ensures if Releases(db, org, a, i) then Ready(after) else Idle(after)
  {
  }

  /** On a shut connection only a release makes an idle job ready. */
  lemma ShutStep(db: Database, org: string, a: Action, i: nat)
    requires i < |db.jobs| && Idle(db.jobs[i]) && Shut(db, db.jobs[i].connectionId)
    ensures |Step(db, org, a).jobs| == |db.jobs|
    ensures Step(db, org, a).jobs[i].connectionId == db.jobs[i].connectionId
    ensures Shut(Step(db, org, a), db.jobs[i].connectionId)
    ensures if Releases(db, org, a, i) then Ready(Step(db, org, a).jobs[i]) else Idle(Step(db, org, a).jobs[i])
  {
    StepMoves(db, org, a, i);
    RevokedStep(db, org, a, db.jobs[i].connectionId);
    ShutJob(db, org, a, i, Step(db, org, a).jobs[i]);
  }

  /** Over any later requests a job of a shut connection that is idle ever becomes ready exactly when its batch is
      released. */
  lemma {:induction false} ShutUntilReleased(db: Database, requests: seq<Request>, i: nat)
    requires i < |db.jobs| && Idle(db.jobs[i]) && Shut(db, db.jobs[i].connectionId)
    ensures Ever(IsReady(i), db, requests) <==> EverStep(ReleasesJob(i), db, requests)
    decreases |requests|
  {
    if requests != [] {
      var next := Step(db, requests[0].0, requests[0].1);
      ShutStep(db, requests[0].0, requests[0].1, i);
      if Releases(db, requests[0].0, requests[0].1, i) {
        EverNow(IsReady(i), next, requests[1..]);
      } else {
        ShutUntilReleased(next, requests[1..], i);
      }
    }
  }

  /** Revoking a connection leaves none of its jobs ready. If no authorisation was open for it, then over any later
      requests by anybody one of its jobs ever becomes ready exactly when it was held for a later batch and some request
      releases that batch: continuing its run, or settling the last open job of the batch before it. */
  lemma RevokedUntilReleased(db: Database, org: string, id: string, now: int, later: seq<Request>, i: nat)
    requires Permitted(db, org, RevokeConnection(id, now)) && !db.connections[id].challenged
    requires i < |db.jobs| && db.jobs[i].connectionId == id && db.jobs[i].organizationId == org
    ensures var next := Step(db, org, RevokeConnection(id, now));
            && |next.jobs| == |db.jobs| && (Fixed(next.jobs[i]) || next.jobs[i].status == Held)
            && (Ever(IsReady(i), next, later) <==> EverStep(ReleasesJob(i), next, later))
            && (next.jobs[i].status != Held ==> !Ever(IsReady(i), next, later))
  {
    var a := RevokeConnection(id, now);
    var next := Step(db, org, a);
    StepMoves(db, org, a, i);
    RevokedLeaves(db, org, id, now, i);
    ShutUntilReleased(next, later, i);
    if next.jobs[i].status != Held { NeverReleased(next, later, i); }
  }

  lemma RevokedLeaves(db: Database, org: string, id: string, now: int, i: nat)
    requires Permitted(db, org, RevokeConnection(id, now)) && i < |db.jobs|
    requires db.jobs[i].connectionId == id && db.jobs[i].organizationId == org
    ensures var next := Step(db, org, RevokeConnection(id, now));
            && |next.jobs| == |db.jobs| && next.jobs[i].connectionId == id
            && (Fixed(next.jobs[i]) || next.jobs[i].status == Held)
            && id in next.connections && next.connections[id] == db.connections[id].(status := ConnRevoked)
  {
    ConditionsMean(db.jobs[i]);
  }

  /** A fixed job of a shut connection is never held again, so it is never released. */
  lemma {:induction false} NeverReleased(db: Database, requests: seq<Request>, i: nat)
    requires i < |db.jobs| && Fixed(db.jobs[i]) && Shut(db, db.jobs[i].connectionId)
    ensures !EverStep(ReleasesJob(i), db, requests)
    decreases |requests|
  {
    if requests != [] {
      StepMoves(db, requests[0].0, requests[0].1, i);
      ShutStep(db, requests[0].0, requests[0].1, i);
      NeverReleased(Step(db, requests[0].0, requests[0].1), requests[1..], i);
    }
  }

  // ----- what the requests do allow, on small tables

  function SmallCampaign(status: CampaignStatus, approved: bool): Campaign
  {
    Campaign("org", status, None, 0, 60, approved, false)
  }

  function SmallJob(status: JobStatus, batch: int): Job
  {
    Job(1, "org", "camp", "conn", "run", batch, status, None, None, 0, 0, None, None, false)
  }

  function SmallRun(status: RunStatus): CampaignRun
  {
    CampaignRun("run", "org", "camp", status, true, 2, 1, 0, true, 0, 1, 0, 0, None)
  }

  function SmallTables(job: Job, run: CampaignRun, campaign: Campaign, connection: Connection): Database
  {
    Database([job], [run], map["camp" := campaign], map["conn" := connection], {})
  }

  function HeldTables(): Database
  {
    SmallTables(SmallJob(Held, 2), SmallRun(RunAwaitingCheckpoint), SmallCampaign(CampaignPaused, true),
                Connection("org", ConnActive, None, None, false))
  }

  /** A job held for the second batch of a run at its checkpoint: its connection is revoked, the run is continued, and
      the job is pending on the revoked connection. */
  lemma HeldJobOutlivesRevocation()
    ensures var revoked := Step(HeldTables(), "org", RevokeConnection("conn", 5));
            var end := Step(revoked, "org", ContinueRun("camp", "run", true, 6));
            && |revoked.jobs| == |end.jobs| == 1 && revoked.jobs[0].status == Held && end.jobs[0].status == Pending
            && "conn" in end.connections && end.connections["conn"].status == ConnRevoked
  {
    var revoked := Step(HeldTables(), "org", RevokeConnection("conn", 5));
    RevokeSmall();
    ContinueSmall(revoked, SmallJob(Held, 2), SmallRun(RunAwaitingCheckpoint));
  }

  lemma RevokeSmall()
    ensures var db := HeldTables();
            Step(db, "org", RevokeConnection("conn", 5)) ==
            db.(connections := map["conn" := Connection("org", ConnRevoked, None, None, false)])
  {
    var db := HeldTables();
    var next := Step(db, "org", RevokeConnection("conn", 5));
    assert OwnConnection(db, "org", "conn");
    assert next.jobs[0] == db.jobs[0];
    assert next.jobs == db.jobs;
    assert next.connections == map["conn" := Connection("org", ConnRevoked, None, None, false)];
  }

  lemma ContinueSmall(db: Database, job: Job, run: CampaignRun)
    requires job == SmallJob(Held, 2) && run == SmallRun(RunAwaitingCheckpoint) && db.jobs == [job] && db.runs == [run]
    requires "camp" in db.campaigns && db.campaigns["camp"] == SmallCampaign(CampaignPaused, true) && db.paused == {}
    ensures var next := Step(db, "org", ContinueRun("camp", "run", true, 6));
            |next.jobs| == 1 && next.jobs[0].status == Pending && next.connections == db.connections
  {
    var a := ContinueRun("camp", "run", true, 6);
    WaitingMembers([job], run, 0);
    assert AwaitsAt([job], run, 0);
    CountOne(job, InActiveBatch(run, {WaitingReview}));
    assert FindRun(db.runs, "org", "camp", "run") == 0;
    assert Permitted(db, "org", a);
    ReleaseMeans([job], run, SpacingOf(db.campaigns, run), 6, 0);
  }

  lemma CountOne(j: Job, p: Job -> bool)
    ensures CountWhere([j], p) == if p(j) then 1 else 0
  {
    assert [j][..0] == [];
  }

  /** Any connection revoked while an authorisation was open: completing the authorisation makes it active again. */
  lemma AuthReopensRevoked(db: Database, org: string, id: string, now: int)
    requires OwnConnection(db, org, id) && db.connections[id].challenged
    ensures var revoked := Step(db, org, RevokeConnection(id, now));
            var end := Step(revoked, org, CompleteAuth(id, AuthDone));
            && id in revoked.connections && revoked.connections[id].status == ConnRevoked
            && id in end.connections && end.connections[id].status == ConnActive
  {
    RevokeOne(db, org, id, now);
    AuthoriseOne(Step(db, org, RevokeConnection(id, now)), org, id);
  }

  lemma RevokeOne(db: Database, org: string, id: string, now: int)
    requires OwnConnection(db, org, id)
    ensures Step(db, org, RevokeConnection(id, now)).connections ==
              db.connections[id := db.connections[id].(status := ConnRevoked)]
  {
  }

  lemma AuthoriseOne(db: Database, org: string, id: string)
    requires OwnConnection(db, org, id) && db.connections[id].challenged
    ensures var end := Step(db, org, CompleteAuth(id, AuthDone));
            id in end.connections && end.connections[id].status == ConnActive
  {
  }

  function FailedTables(): Database
  {
    SmallTables(SmallJob(Failed, 1), SmallRun(RunFailed), SmallCampaign(CampaignPaused, false),
                Connection("org", ConnActive, None, None, false))
  }

  /** A failed job of an edited campaign: once the campaign is approved again the job can be retried. */
  lemma RetryOutlivesEdit()
    ensures var edited := Step(FailedTables(), "org", PatchCampaign("camp", true, 0, 5));
            var approved := Step(Step(edited, "org", SubmitApproval("camp", true)), "org",
                                 DecideApproval("camp", Approved, true, 6));
            var end := Step(approved, "org", RetryJob(1, true, 7));
            |edited.jobs| == |end.jobs| == 1 && edited.jobs[0].status == Failed && end.jobs[0].status == Retry
  {
    var edited := Step(FailedTables(), "org", PatchCampaign("camp", true, 0, 5));
    EditSmall();
    ApproveSmall(edited);
    RetrySmall(Step(Step(edited, "org", SubmitApproval("camp", true)), "org",
                    DecideApproval("camp", Approved, true, 6)));
  }

  lemma EditSmall()
    ensures var db := FailedTables();
            var next := Step(db, "org", PatchCampaign("camp", true, 0, 5));
            next.jobs == db.jobs && next.connections == db.connections
                && next.campaigns["camp"] == SmallCampaign(CampaignDraft, false)
  {
    var db := FailedTables();
    assert db.jobs[0] == SmallJob(Failed, 1);
    assert !HasUncertain(db.jobs, "org", "camp", None);
    assert MayPatch(db, "org", "camp");
    var next := Step(db, "org", PatchCampaign("camp", true, 0, 5));
    assert next.jobs[0] == db.jobs[0];
  }

  lemma ApproveSmall(db: Database)
    requires "camp" in db.campaigns && db.campaigns["camp"] == SmallCampaign(CampaignDraft, false)
    ensures var next := Step(Step(db, "org", SubmitApproval("camp", true)), "org",
                             DecideApproval("camp", Approved, true, 6));
            && next.jobs == db.jobs && next.connections == db.connections && "camp" in next.campaigns
            && next.campaigns["camp"].status == CampaignScheduled && next.campaigns["camp"].approved
  {
    var submitted := Step(db, "org", SubmitApproval("camp", true));
    assert submitted.campaigns["camp"].pending && submitted.campaigns["camp"].organizationId == "org";
  }

  lemma RetrySmall(db: Database)
    requires db.jobs == [SmallJob(Failed, 1)] && "camp" in db.campaigns && "conn" in db.connections
    requires db.campaigns["camp"].status == CampaignScheduled && db.campaigns["camp"].approved
    requires db.connections["conn"].status == ConnActive
    ensures var next := Step(db, "org", RetryJob(1, true, 7)); |next.jobs| == 1 && next.jobs[0].status == Retry
  {
    assert FindJob(db.jobs, "org", 1) == 0;
    assert CanGoOut(db, db.jobs[0]);
    assert MayRetry(db, "org", 1);
  }
}
