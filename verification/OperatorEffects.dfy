/** Each operator request in plain terms: when it is let through, and everything it leaves. */
module OperatorEffects {
  import opened Common
  import opened JobTables
  import opened Rollout
  import opened OperatorActions

  // ----- when

  /** Nobody knows whether the message reached its chat. */
  ghost predicate UnknownResult(j: Job)
  {
    && j.status == WaitingReview
    && (j.errorCode == Some("DELIVERY_RESULT_UNCERTAIN") || j.errorCode == Some("WORKER_CRASH_DURING_SEND"))
  }

  ghost predicate OfOrg(db: Database, org: string, id: string)
  {
    id in db.campaigns && db.campaigns[id].organizationId == org
  }

  /** No delivery of the campaign has an unknown result. */
  ghost predicate Clear(db: Database, org: string, id: string)
  {
    forall j :: j in db.jobs && UnknownResult(j) ==> j.organizationId != org || j.campaignId != id
  }

  /** The first run of the campaign with this id. */
  ghost predicate RunAt(db: Database, org: string, id: string, runId: string, k: int)
  {
    && 0 <= k < |db.runs| && db.runs[k].organizationId == org && db.runs[k].campaignId == id && db.runs[k].id == runId
    && forall i :: 0 <= i < k ==>
         !(db.runs[i].organizationId == org && db.runs[i].campaignId == id && db.runs[i].id == runId)
  }

  ghost predicate JobAt(db: Database, org: string, id: nat, k: int)
  {
    && 0 <= k < |db.jobs| && db.jobs[k].organizationId == org && db.jobs[k].id == id
    && forall i :: 0 <= i < k ==> !(db.jobs[i].organizationId == org && db.jobs[i].id == id)
  }

  ghost predicate UnderWay(r: CampaignRun)
  {
    r.status == RunQueued || r.status == RunRunning || r.status == RunAwaitingCheckpoint
  }

  /** The connection is active and the campaign approved and on its way. */
  ghost predicate Sendable(db: Database, j: Job)
  {
    && j.connectionId in db.connections && db.connections[j.connectionId].status == ConnActive
    && j.campaignId in db.campaigns && db.campaigns[j.campaignId].approved
    && (db.campaigns[j.campaignId].status == CampaignScheduled || db.campaigns[j.campaignId].status == CampaignRunning)
  }

  ghost predicate MayTouchCampaign(db: Database, org: string, a: Action)
    requires a.PatchCampaign? || a.ReplaceDestinations? || a.SubmitApproval? || a.DecideApproval? || a.RunNow?
             || a.PauseCampaign? || a.ResumeCampaign? || a.CancelCampaign?
  {
    && OfOrg(db, org, a.campaignId)
    && var c := db.campaigns[a.campaignId];
       match a
       case PatchCampaign(id, fieldsValid, _, _) =>
         fieldsValid && (c.status == CampaignDraft || c.status == CampaignPaused) && Clear(db, org, id)
       case ReplaceDestinations(_, fieldsValid) => fieldsValid && c.status == CampaignDraft
       case SubmitApproval(_, gatesOpen) => gatesOpen && (c.status == CampaignDraft || c.status == CampaignPaused)
       case DecideApproval(_, _, gatesOpen, _) => gatesOpen && c.pending
       case RunNow(id, gatesOpen, _) =>
         && gatesOpen && c.approved && org !in db.paused
         && c.status != CampaignCancelled && c.status != CampaignCompleted && c.status != CampaignFailed
         && forall r :: r in db.runs && r.organizationId == org && r.campaignId == id ==> !UnderWay(r)
       case PauseCampaign(_) => c.status == CampaignScheduled || c.status == CampaignRunning
       case ResumeCampaign(id, gatesOpen, _) =>
         gatesOpen && c.status == CampaignPaused && c.approved && org !in db.paused && Clear(db, org, id)
       case CancelCampaign(id, _) =>
         c.status != CampaignCompleted && c.status != CampaignCancelled && Clear(db, org, id)
  }

  lemma ClearMeans(db: Database, org: string, id: string)
    ensures HasUncertain(db.jobs, org, id, None) <==> !Clear(db, org, id)
  {
    forall j | j in db.jobs ensures UncertainCondition(j) == True <==> UnknownResult(j) { ConditionsMean(j); }
  }

  /** Requests about a campaign. */
  lemma CampaignGuards(db: Database, org: string, a: Action)
    requires a.PatchCampaign? || a.ReplaceDestinations? || a.SubmitApproval? || a.DecideApproval? || a.RunNow?
             || a.PauseCampaign? || a.ResumeCampaign? || a.CancelCampaign?
    ensures Permitted(db, org, a) <==> MayTouchCampaign(db, org, a)
  {
    ClearMeans(db, org, a.campaignId);
  }

  ghost predicate MayTouchRun(db: Database, org: string, a: Action)
    requires a.ContinueRun? || a.AbortRun?
  {
    && OfOrg(db, org, a.campaignId)
    && exists k :: RunAt(db, org, a.campaignId, a.runId, k)
         && var r := db.runs[k];
            if a.ContinueRun? then
              && a.gatesOpen && db.campaigns[a.campaignId].approved && org !in db.paused
              && r.status == RunAwaitingCheckpoint && r.staged && r.activeBatch < r.totalBatches
              && PlacesInBatch(db.jobs, r, r.activeBatch, {WaitingReview}) == {}
              && PlacesInBatch(db.jobs, r, r.activeBatch + 1, {Held}) != {}
            else
              && UnderWay(r)
              && forall j :: j in db.jobs && j.organizationId == org && j.runId == a.runId ==>
                   j.status != Processing && (UnknownResult(j) ==> j.campaignId != a.campaignId)
  }

  /** Requests about a run. */
  lemma RunGuards(db: Database, org: string, a: Action)
    requires a.ContinueRun? || a.AbortRun?
    ensures Permitted(db, org, a) <==> MayTouchRun(db, org, a)
  {
    var k := FindRun(db.runs, org, a.campaignId, a.runId);
    assert forall i :: RunAt(db, org, a.campaignId, a.runId, i) <==> i == k < |db.runs|;
    forall j | j in db.jobs ensures UncertainCondition(j) == True <==> UnknownResult(j) { ConditionsMean(j); }
    if k < |db.runs| && a.ContinueRun? {
      BatchCountMeans(db.jobs, db.runs[k], {WaitingReview});
      NoneInside(PlacesInBatch(db.jobs, db.runs[k], db.runs[k].activeBatch, {WaitingReview}));
      SomeWaiting(db.jobs, db.runs[k]);
    }
  }

  ghost predicate MayTouchJob(db: Database, org: string, a: Action)
    requires a.RetryJob? || a.CancelJob? || a.ResolveDelivery?
  {
    exists k :: JobAt(db, org, a.jobId, k)
      && var j := db.jobs[k];
         match a
         case RetryJob(_, gatesOpen, _) =>
           gatesOpen && (j.status == Failed || j.status == Skipped) && !j.reviewed && Sendable(db, j)
         case CancelJob(_, _, _) =>
           && (j.status == Held || j.status == Pending || j.status == Retry || j.status == WaitingReview)
           && !UnknownResult(j)
         case ResolveDelivery(_, resolution, _, gatesOpen, _, _) =>
           UnknownResult(j) && (resolution == ConfirmedNotSent ==> gatesOpen && Sendable(db, j))
  }

  /** Requests about one delivery. */
  lemma JobGuards(db: Database, org: string, a: Action)
    requires a.RetryJob? || a.CancelJob? || a.ResolveDelivery?
    ensures Permitted(db, org, a) <==> MayTouchJob(db, org, a)
  {
    var k := FindJob(db.jobs, org, a.jobId);
    assert forall i :: JobAt(db, org, a.jobId, i) <==> i == k < |db.jobs|;
  }

  ghost predicate MayTouchConnection(db: Database, org: string, a: Action)
    requires a.PauseConnection? || a.ResumeConnection? || a.CheckConnection? || a.ProbeConnection?
             || a.CompleteAuth? || a.RevokeConnection?
  {
    && a.connectionId in db.connections && db.connections[a.connectionId].organizationId == org
    && var c := db.connections[a.connectionId];
       match a
       case PauseConnection(_) => c.status != ConnRevoked
       case ResumeConnection(_, acknowledged, now) =>
         && c.status != ConnRevoked && (c.floodBlockedUntil.None? || c.floodBlockedUntil.value <= now)
         && (acknowledged || c.lastErrorCode.None? ||
             c.lastErrorCode.value !in {"ANTI_SPAM_RESTRICTION", "TELEGRAM_AUTH_INVALID", "DELIVERY_RESULT_UNCERTAIN",
                                        "WORKER_CRASH_DURING_SEND"})
       case CheckConnection(_, _) => c.status != ConnRevoked
       case ProbeConnection(_, stopped, _, _) =>
         c.status == ConnActive && (stopped == ConnPaused || stopped == ConnError)
       case CompleteAuth(_, _) => c.challenged
       case RevokeConnection(_, _) => true
  }

  /** Requests about a connection. */
  lemma ConnectionGuards(db: Database, org: string, a: Action)
    requires a.PauseConnection? || a.ResumeConnection? || a.CheckConnection? || a.ProbeConnection?
             || a.CompleteAuth? || a.RevokeConnection?
    ensures Permitted(db, org, a) <==> MayTouchConnection(db, org, a)
  {
  }

  // ----- what it leaves

  /** The job is cancelled with this code. */
  ghost predicate IsCancelled(before: Job, after: Job, now: int, code: string)
  {
    after == before.(status := Cancelled, finishedAt := Some(now), errorCode := Some(code))
  }

  ghost predicate IsCancelledAndUnlocked(before: Job, after: Job, now: int, code: string, message: string)
  {
    after == before.(status := Cancelled, finishedAt := Some(now), errorCode := Some(code),
                     errorMessage := Some(message), lockedBy := None)
  }

  /** The campaign loses its approval and its next start. */
  ghost predicate IsStopped(before: Campaign, after: Campaign, status: CampaignStatus, scheduleAt: int)
  {
    after == before.(status := status, approved := false, pending := false, nextRunAt := None,
                     scheduleAt := scheduleAt)
  }

  ghost predicate OnlyCampaign(db: Database, next: Database, id: string)
  {
    next.campaigns.Keys == db.campaigns.Keys && forall i :: i in db.campaigns && i != id ==>
      next.campaigns[i] == db.campaigns[i]
  }

  ghost predicate OnlyConnection(db: Database, next: Database, id: string)
  {
    next.connections.Keys == db.connections.Keys && forall i :: i in db.connections && i != id ==>
      next.connections[i] == db.connections[i]
  }

  /** An edit or cancellation cancels the campaign's unsent work and its runs under way, and nothing else. */
  ghost predicate CampaignStopped(db: Database, org: string, a: Action, next: Database)
    requires a.PatchCampaign? || a.CancelCampaign?
  {
    && OnlyCampaign(db, next, a.campaignId) && next.connections == db.connections && next.paused == db.paused
    && |next.jobs| == |db.jobs| && |next.runs| == |db.runs|
    && (forall k :: 0 <= k < |db.jobs| ==>
         var j, after := db.jobs[k], next.jobs[k];
         if j.organizationId == org && j.campaignId == a.campaignId
            && (j.status == Held || j.status == Pending || j.status == Retry || j.status == WaitingReview)
         then if a.CancelCampaign? then IsCancelled(j, after, a.now, "CAMPAIGN_CANCELLED")
              else IsCancelledAndUnlocked(j, after, a.now, "CAMPAIGN_EDITED", "campaign changed")
         else after == j)
    && (forall k :: 0 <= k < |db.runs| ==>
         var r, after := db.runs[k], next.runs[k];
         after == if r.organizationId == org && r.campaignId == a.campaignId && UnderWay(r)
           then r.(status := RunCancelled, finishedAt := Some(a.now)) else r)
  }

  lemma StoppedCampaign(db: Database, org: string, a: Action)
    requires a.PatchCampaign? || a.CancelCampaign?
    requires Permitted(db, org, a)
    ensures var next := Step(db, org, a);
            && CampaignStopped(db, org, a, next) && a.campaignId in next.campaigns
            && var before := db.campaigns[a.campaignId];
               if a.CancelCampaign?
               then IsStopped(before, next.campaigns[a.campaignId], CampaignCancelled, before.scheduleAt)
               else IsStopped(before, next.campaigns[a.campaignId], CampaignDraft, a.scheduleAt)
  {
  }

  /** Aborting a run cancels its unsent work, unknown results apart, and pauses its campaign. */
  lemma AbortedRun(db: Database, org: string, id: string, runId: string, reason: string, now: int, k: nat)
    requires Permitted(db, org, AbortRun(id, runId, reason, now)) && RunAt(db, org, id, runId, k)
    ensures var next := Step(db, org, AbortRun(id, runId, reason, now));
            && OnlyCampaign(db, next, id) && id in next.campaigns
            && IsStopped(db.campaigns[id], next.campaigns[id], CampaignPaused, db.campaigns[id].scheduleAt)
            && next.connections == db.connections && next.paused == db.paused
            && next.runs == db.runs[k := db.runs[k].(status := RunCancelled, finishedAt := Some(now))]
            && |next.jobs| == |db.jobs|
            && forall i :: 0 <= i < |db.jobs| ==>
                 var j := db.jobs[i];
                 if j.organizationId == org && j.runId == runId && !UnknownResult(j)
                    && (j.status == Held || j.status == Pending || j.status == Retry || j.status == WaitingReview)
                 then IsCancelledAndUnlocked(j, next.jobs[i], now, "ROLLOUT_ABORTED",
                                             if |reason| <= 2000 then reason else reason[..2000])
                 else next.jobs[i] == j
  {
    assert FindRun(db.runs, org, id, runId) == k;
    forall j: Job ensures AbortedJobsCondition(j, org, runId) == True <==>
        j.organizationId == org && j.runId == runId && !UnknownResult(j)
        && j.status in {Held, Pending, Retry, WaitingReview}
    {
      ConditionsMean(j);
    }
  }

  /** Continuing a run releases its next batch and sets its campaign running. */
  lemma ContinuedRun(db: Database, org: string, id: string, runId: string, gatesOpen: bool, now: int, k: nat)
    requires Permitted(db, org, ContinueRun(id, runId, gatesOpen, now)) && RunAt(db, org, id, runId, k)
    ensures var next := Step(db, org, ContinueRun(id, runId, gatesOpen, now));
            && OnlyCampaign(db, next, id) && id in next.campaigns
            && next.campaigns[id] == db.campaigns[id].(status := CampaignRunning)
            && next.connections == db.connections && next.paused == db.paused
            && next.runs == db.runs[k := db.runs[k].(activeBatch := db.runs[k].activeBatch + 1, status := RunRunning)]
            && next.jobs == AfterRelease(db.jobs, db.runs[k], db.campaigns[id].spacingSeconds, now)
  {
    assert FindRun(db.runs, org, id, runId) == k;
  }

  /** A retried job goes back to the queue, due now and without its error. */
  lemma RetriedOne(db: Database, org: string, id: nat, gatesOpen: bool, now: int, k: nat)
    requires Permitted(db, org, RetryJob(id, gatesOpen, now)) && JobAt(db, org, id, k)
    ensures Step(db, org, RetryJob(id, gatesOpen, now)) ==
            db.(jobs := db.jobs[k := db.jobs[k].(status := Retry, dueAt := now, errorCode := None,
                                                 errorMessage := None, finishedAt := None, lockedBy := None)])
  {
    assert FindJob(db.jobs, org, id) == k;
  }

  /** The job as a cancellation or a manual verdict leaves it. */
  ghost predicate HasResult(before: Job, a: Action, after: Job)
    requires a.CancelJob? || a.ResolveDelivery?
  {
    match a
    case CancelJob(_, _, now) => IsCancelled(before, after, now, "MANUAL_CANCEL")
    case ResolveDelivery(_, resolution, note, _, _, now) =>
      match resolution
      case ConfirmedSent =>
        after == before.(status := Sent, finishedAt := Some(now), errorCode := None, errorMessage := None,
                         reviewed := true, lockedBy := None)
      case ConfirmedNotSent =>
        after == before.(status := Retry, dueAt := now, finishedAt := None, errorCode := None, errorMessage := None,
                         reviewed := true, lockedBy := None)
      case ResolvedSkipped =>
        after == before.(status := Skipped, finishedAt := Some(now), errorCode := Some("MANUAL_REVIEW_SKIPPED"),
                         errorMessage := Some(note), reviewed := true, lockedBy := None)
  }

  lemma SettlingJobHasResult(db: Database, org: string, a: Action, k: nat)
    requires (a.CancelJob? || a.ResolveDelivery?) && Permitted(db, org, a) && JobAt(db, org, a.jobId, k)
    ensures FindJob(db.jobs, org, a.jobId) == k && HasResult(db.jobs[k], a, SettlingJob(db, org, a))
  {
    assert FindJob(db.jobs, org, a.jobId) == k;
  }

  lemma StepSettles(db: Database, org: string, a: Action)
    requires (a.CancelJob? || a.ResolveDelivery?) && Permitted(db, org, a)
    ensures Step(db, org, a) ==
            JobSettled(db, FindJob(db.jobs, org, a.jobId), SettlingJob(db, org, a), a.capacity, a.now)
  {
  }

  lemma JobSettledMeans(db: Database, k: nat, j: Job, capacity: bool, now: int)
    requires k < |db.jobs|
    ensures var settled, next := db.(jobs := db.jobs[k := j]), JobSettled(db, k, j, capacity, now);
            var r := RunById(db.runs, j.runId);
            if r == |db.runs| then next == settled else RunSettled(settled, r, capacity, now, next)
  {
    var r := RunById(db.runs, j.runId);
    if r < |db.runs| { SettledMeans(db.(jobs := db.jobs[k := j]), r, capacity, now); }
  }

  /** Cancelling a job or settling an unknown result gives that job its result and then settles its run. */
  lemma SettledOne(db: Database, org: string, a: Action, k: nat) returns (j: Job)
    requires (a.CancelJob? || a.ResolveDelivery?) && Permitted(db, org, a) && JobAt(db, org, a.jobId, k)
    ensures HasResult(db.jobs[k], a, j)
    ensures var settled, next := db.(jobs := db.jobs[k := j]), Step(db, org, a);
            var r := RunById(db.runs, j.runId);
            if r == |db.runs| then next == settled else RunSettled(settled, r, a.capacity, a.now, next)
  {
    SettlingJobHasResult(db, org, a, k);
    StepSettles(db, org, a);
    j := SettlingJob(db, org, a);
    JobSettledMeans(db, k, j, a.capacity, a.now);
  }

  // ----- stopping and restarting publication

  ghost predicate IsParked(before: Job, after: Job, code: string)
  {
    after.errorMessage.Some? && after == before.(status := WaitingReview, errorCode := Some(code), lockedBy := None,
                                                 errorMessage := after.errorMessage)
  }

  /** Stopping publication parks the organisation's pending and retrying jobs. */
  lemma PublishingPaused(db: Database, org: string)
    ensures Permitted(db, org, PausePublishing)
    ensures var next := Step(db, org, PausePublishing);
            && next == db.(jobs := next.jobs, paused := next.paused)
            && (forall o :: o in next.paused <==> o in db.paused || o == org)
            && |next.jobs| == |db.jobs|
            && forall i :: 0 <= i < |db.jobs| ==>
                 var j := db.jobs[i];
                 if j.organizationId == org && (j.status == Pending || j.status == Retry)
                 then IsParked(j, next.jobs[i], "ORG_EMERGENCY_STOP") else next.jobs[i] == j
  {
  }

  /** Restarting it makes exactly the jobs that the stop parked pending again. */
  lemma PublishingResumed(db: Database, org: string, now: int)
    ensures Permitted(db, org, ResumePublishing(now)) <==> org in db.paused
    ensures Permitted(db, org, ResumePublishing(now)) ==>
              var next := Step(db, org, ResumePublishing(now));
              && next == db.(jobs := next.jobs, paused := next.paused)
              && (forall o :: o in next.paused <==> o in db.paused && o != org)
              && |next.jobs| == |db.jobs|
              && forall i :: 0 <= i < |db.jobs| ==>
                   var j := db.jobs[i];
                   next.jobs[i] ==
                     if j.organizationId == org && j.status == WaitingReview
                        && j.errorCode == Some("ORG_EMERGENCY_STOP")
                     then j.(status := Pending, dueAt := now, errorCode := None, errorMessage := None, lockedBy := None)
                     else j
  {
  }

  /** The campaign is one that the lowered stage no longer admits, and on its way. */
  ghost predicate Demoted(db: Database, org: string, above: set<string>, id: string)
  {
    id in above && OfOrg(db, org, id)
    && (db.campaigns[id].status == CampaignScheduled || db.campaigns[id].status == CampaignRunning)
  }

  /** Lowering the pilot stage pauses the campaigns above it and parks their unsent work. */
  lemma StageLowered(db: Database, org: string, above: set<string>, stageIsLower: bool)
    ensures Permitted(db, org, LowerStage(above, stageIsLower)) <==> stageIsLower
    ensures stageIsLower ==>
              var next := Step(db, org, LowerStage(above, stageIsLower));
              && next == db.(jobs := next.jobs, campaigns := next.campaigns) && |next.jobs| == |db.jobs|
              && next.campaigns.Keys == db.campaigns.Keys
              && (forall id :: id in db.campaigns ==>
                   var c := db.campaigns[id];
                   next.campaigns[id] == if Demoted(db, org, above, id)
                     then c.(status := CampaignPaused, nextRunAt := None) else c)
              && forall i :: 0 <= i < |db.jobs| ==>
                   var j := db.jobs[i];
                   if j.organizationId == org && Demoted(db, org, above, j.campaignId)
                      && (j.status == Pending || j.status == Retry || j.status == Held)
                   then IsParked(j, next.jobs[i], "PILOT_STAGE_LIMIT_REDUCED") else next.jobs[i] == j
  {
  }

  // ----- campaigns and connections

  /** The campaign after a request that leaves its jobs and runs alone. */
  ghost predicate CampaignBecomes(db: Database, org: string, a: Action, c: Campaign, after: Campaign)
  {
    match a
    case ReplaceDestinations(_, _) => IsStopped(c, after, c.status, c.scheduleAt)
    case SubmitApproval(_, _) => IsStopped(c, after.(pending := false), CampaignDraft, c.scheduleAt) && after.pending
    case DecideApproval(_, verdict, _, now) =>
      (match verdict
       case Approved =>
         after == c.(status := CampaignScheduled, approved := true, pending := false,
                     nextRunAt := Some(if c.scheduleAt < now then now else c.scheduleAt))
       case Recorded => after == c
       case Rejected => IsStopped(c, after, CampaignDraft, c.scheduleAt))
    case RunNow(_, _, now) => after == c.(status := CampaignScheduled, nextRunAt := Some(now))
    case PauseCampaign(_) => after == c.(status := CampaignPaused)
    case ResumeCampaign(id, _, now) =>
      if exists j :: j in db.jobs && j.organizationId == org && j.campaignId == id
           && (j.status == Held || j.status == Pending || j.status == Retry || j.status == WaitingReview)
      then after == c.(status := CampaignRunning)
      else after == c.(status := CampaignScheduled, nextRunAt := after.nextRunAt)
           && after.nextRunAt == if c.nextRunAt.None? then Some(now) else c.nextRunAt
    case _ => false
  }

  lemma ChangedCampaign(db: Database, org: string, a: Action)
    requires a.ReplaceDestinations? || a.SubmitApproval? || a.DecideApproval? || a.RunNow? || a.PauseCampaign?
             || a.ResumeCampaign?
    requires Permitted(db, org, a)
    ensures var next := Step(db, org, a);
            && next == db.(campaigns := next.campaigns) && OnlyCampaign(db, next, a.campaignId)
            && a.campaignId in next.campaigns
            && CampaignBecomes(db, org, a, db.campaigns[a.campaignId], next.campaigns[a.campaignId])
  {
  }

  /** The connection after a request about it. */
  ghost predicate ConnectionBecomes(a: Action, c: Connection, after: Connection)
  {
    match a
    case PauseConnection(_) => after == c.(status := ConnPaused)
    case ResumeConnection(_, _, _) =>
      after == c.(status := ConnActive, floodBlockedUntil := None, lastErrorCode := None)
    case CheckConnection(_, Healthy) =>
      after == c.(status := after.status, lastErrorCode := None)
      && after.status == if c.status == ConnError then ConnPaused else c.status
    case CheckConnection(_, Unhealthy(code, requiresReview)) =>
      after == c.(status := if requiresReview then ConnError else c.status, lastErrorCode := Some(code))
    case ProbeConnection(_, stopped, code, blockedUntil) =>
      after == c.(status := stopped, lastErrorCode := Some(code), floodBlockedUntil := after.floodBlockedUntil)
      && after.floodBlockedUntil == if blockedUntil.None? then c.floodBlockedUntil else blockedUntil
    case CompleteAuth(_, AuthDone) => after == c.(status := ConnActive, challenged := false)
    case CompleteAuth(_, AuthGone(code)) =>
      after == c.(status := ConnError, lastErrorCode := Some(code), challenged := false)
    case CompleteAuth(_, AuthOpen) => after == c
    case RevokeConnection(_, _) => after == c.(status := ConnRevoked)
    case _ => false
  }

  /** The job after a request about its connection: resuming retries the reviewed jobs and revoking cancels what is not
      on its way, unknown results apart in both cases. */
  ghost predicate ConnectionJobBecomes(org: string, a: Action, j: Job, after: Job)
  {
    match a
    case ResumeConnection(id, _, now) =>
      after == if j.organizationId == org && j.connectionId == id && j.status == WaitingReview && !UnknownResult(j)
        then j.(status := Retry, dueAt := now, errorCode := None, errorMessage := None) else j
    case RevokeConnection(id, now) =>
      if j.organizationId == org && j.connectionId == id && !UnknownResult(j)
         && (j.status == Pending || j.status == Retry || j.status == WaitingReview)
      then IsCancelled(j, after, now, "CONNECTION_REVOKED") else after == j
    case _ => after == j
  }

  lemma ChangedConnection(db: Database, org: string, a: Action)
    requires a.PauseConnection? || a.ResumeConnection? || a.CheckConnection? || a.ProbeConnection?
             || a.CompleteAuth? || a.RevokeConnection?
    requires Permitted(db, org, a)
    ensures var next := Step(db, org, a);
            && next == db.(jobs := next.jobs, connections := next.connections)
            && OnlyConnection(db, next, a.connectionId) && a.connectionId in next.connections
            && ConnectionBecomes(a, db.connections[a.connectionId], next.connections[a.connectionId])
            && |next.jobs| == |db.jobs|
            && forall i :: 0 <= i < |db.jobs| ==> ConnectionJobBecomes(org, a, db.jobs[i], next.jobs[i])
  {
    var next := Step(db, org, a);
    forall i | 0 <= i < |db.jobs|
      ensures |next.jobs| == |db.jobs| && ConnectionJobBecomes(org, a, db.jobs[i], next.jobs[i])
    {
      ConnectionJob(db, org, a, i);
    }
    assert |next.jobs| == |db.jobs|;
  }

  lemma ConnectionJob(db: Database, org: string, a: Action, i: nat)
    requires a.PauseConnection? || a.ResumeConnection? || a.CheckConnection? || a.ProbeConnection?
             || a.CompleteAuth? || a.RevokeConnection?
    requires Permitted(db, org, a) && i < |db.jobs|
    ensures var next := Step(db, org, a);
            |next.jobs| == |db.jobs| && ConnectionJobBecomes(org, a, db.jobs[i], next.jobs[i])
  {
    ConditionsMean(db.jobs[i]);
  }
}
