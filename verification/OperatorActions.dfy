/**
 The operator's requests that set the status of a job, a run, a campaign or a connection (app/api/campaigns.py,
 app/api/jobs.py, app/api/connections.py, app/api/organization.py, app/api/pilot.py): when each is let through and
 what it leaves. A flag called `gatesOpen` stands for the checks a request asks of other services.
 */
module OperatorActions {
  import opened Common
  import opened JobTables
  import opened Rollout

  datatype Verdict = Approved | Recorded | Rejected

  datatype Resolution = ConfirmedSent | ConfirmedNotSent | ResolvedSkipped

  /** How an authorisation attempt ends: completed, expired or tried too often, or still open. */
  datatype AuthResult = AuthDone | AuthGone(code: string) | AuthOpen

  datatype HealthResult = Healthy | Unhealthy(code: string, requiresReview: bool)

  datatype Action =
    | PatchCampaign(campaignId: string, fieldsValid: bool, scheduleAt: int, now: int)
    | ReplaceDestinations(campaignId: string, fieldsValid: bool)
    | SubmitApproval(campaignId: string, gatesOpen: bool)
    | DecideApproval(campaignId: string, verdict: Verdict, gatesOpen: bool, now: int)
    | RunNow(campaignId: string, gatesOpen: bool, now: int)
    | PauseCampaign(campaignId: string)
    | ResumeCampaign(campaignId: string, gatesOpen: bool, now: int)
    | CancelCampaign(campaignId: string, now: int)
    | ContinueRun(campaignId: string, runId: string, gatesOpen: bool, now: int)
    | AbortRun(campaignId: string, runId: string, reason: string, now: int)
    | RetryJob(jobId: nat, gatesOpen: bool, now: int)
    | CancelJob(jobId: nat, capacity: bool, now: int)
    | ResolveDelivery(jobId: nat, resolution: Resolution, note: string, gatesOpen: bool, capacity: bool, now: int)
    | PausePublishing
    | ResumePublishing(now: int)
    | LowerStage(above: set<string>, stageIsLower: bool)
    | PauseConnection(connectionId: string)
    | ResumeConnection(connectionId: string, acknowledged: bool, now: int)
    | CheckConnection(connectionId: string, result: HealthResult)
    | ProbeConnection(connectionId: string, stopped: ConnectionStatus, code: string, blockedUntil: Option<int>)
    | CompleteAuth(connectionId: string, outcome: AuthResult)
    | RevokeConnection(connectionId: string, now: int)

  // ----- when a request is let through

  predicate OwnCampaign(db: Database, org: string, id: string)
  {
    id in db.campaigns && db.campaigns[id].organizationId == org
  }

  predicate OwnConnection(db: Database, org: string, id: string)
  {
    id in db.connections && db.connections[id].organizationId == org
  }

  /** The job's connection is active, and its campaign is under way and approved. */
  predicate CanGoOut(db: Database, j: Job)
  {
    && j.connectionId in db.connections && db.connections[j.connectionId].status == ConnActive
    && j.campaignId in db.campaigns && db.campaigns[j.campaignId].status in {CampaignScheduled, CampaignRunning}
    && db.campaigns[j.campaignId].approved
  }

  predicate MayPatch(db: Database, org: string, id: string)
  {
    OwnCampaign(db, org, id) && db.campaigns[id].status in {CampaignDraft, CampaignPaused}
        && !HasUncertain(db.jobs, org, id, None)
  }

  predicate MayCancel(db: Database, org: string, id: string)
  {
    && OwnCampaign(db, org, id) && db.campaigns[id].status !in {CampaignCompleted, CampaignCancelled}
    && !HasUncertain(db.jobs, org, id, None)
  }

  predicate MayResume(db: Database, org: string, id: string)
  {
    && OwnCampaign(db, org, id) && db.campaigns[id].status == CampaignPaused && db.campaigns[id].approved
    && org !in db.paused && !HasUncertain(db.jobs, org, id, None)
  }

  predicate MayRun(db: Database, org: string, id: string)
  {
    && OwnCampaign(db, org, id) && db.campaigns[id].status !in {CampaignCancelled, CampaignCompleted, CampaignFailed}
    && db.campaigns[id].approved && org !in db.paused
    && !exists r :: r in db.runs && RunOfCampaign(r, org, id) && ActiveRun(r)
  }

  predicate MayContinue(db: Database, org: string, id: string, runId: string)
  {
    && OwnCampaign(db, org, id)
    && var k := FindRun(db.runs, org, id, runId);
       && k < |db.runs| && db.runs[k].status == RunAwaitingCheckpoint && MoreBatches(db.runs[k])
       && db.campaigns[id].approved && org !in db.paused
       && BatchCount(db.jobs, db.runs[k], {WaitingReview}) == 0 && Waiting(db.jobs, db.runs[k]) != []
  }

  predicate MayAbort(db: Database, org: string, id: string, runId: string)
  {
    && OwnCampaign(db, org, id)
    && var k := FindRun(db.runs, org, id, runId);
       && k < |db.runs| && ActiveRun(db.runs[k]) && !HasUncertain(db.jobs, org, id, Some(runId))
       && !exists j :: j in db.jobs && j.organizationId == org && j.runId == runId && j.status == Processing
  }

  predicate MayRetry(db: Database, org: string, id: nat)
  {
    var k := FindJob(db.jobs, org, id);
    k < |db.jobs| && db.jobs[k].status in {Failed, Skipped} && !db.jobs[k].reviewed && CanGoOut(db, db.jobs[k])
  }

  predicate MayCancelJob(db: Database, org: string, id: nat)
  {
    var k := FindJob(db.jobs, org, id);
    k < |db.jobs| && db.jobs[k].status in {Held, Pending, Retry, WaitingReview} && !Uncertain(db.jobs[k])
  }

  predicate MayResolve(db: Database, org: string, id: nat, resolution: Resolution)
  {
    var k := FindJob(db.jobs, org, id);
    k < |db.jobs| && Uncertain(db.jobs[k]) && (resolution == ConfirmedNotSent ==> CanGoOut(db, db.jobs[k]))
  }

  predicate MayResumeConnection(db: Database, org: string, id: string, acknowledged: bool, now: int)
  {
    && OwnConnection(db, org, id)
    && var c := db.connections[id];
       && c.status != ConnRevoked
       && !(c.floodBlockedUntil.Some? && c.floodBlockedUntil.value > now)
       && (c.lastErrorCode.Some? && c.lastErrorCode.value in REVIEW_CODES ==> acknowledged)
  }

  /** Whether the request is let through; a refused request changes nothing. */
  predicate Permitted(db: Database, org: string, a: Action)
  {
    match a
    case PatchCampaign(id, fieldsValid, _, _) => fieldsValid && MayPatch(db, org, id)
    case ReplaceDestinations(id, fieldsValid) =>
      fieldsValid && OwnCampaign(db, org, id) && db.campaigns[id].status == CampaignDraft
    case SubmitApproval(id, gatesOpen) =>
      gatesOpen && OwnCampaign(db, org, id) && db.campaigns[id].status in {CampaignDraft, CampaignPaused}
    case DecideApproval(id, _, gatesOpen, _) => gatesOpen && OwnCampaign(db, org, id) && db.campaigns[id].pending
    case RunNow(id, gatesOpen, _) => gatesOpen && MayRun(db, org, id)
    case PauseCampaign(id) =>
      OwnCampaign(db, org, id) && db.campaigns[id].status in {CampaignScheduled, CampaignRunning}
    case ResumeCampaign(id, gatesOpen, _) => gatesOpen && MayResume(db, org, id)
    case CancelCampaign(id, _) => MayCancel(db, org, id)
    case ContinueRun(id, runId, gatesOpen, _) => gatesOpen && MayContinue(db, org, id, runId)
    case AbortRun(id, runId, _, _) => MayAbort(db, org, id, runId)
    case RetryJob(id, gatesOpen, _) => gatesOpen && MayRetry(db, org, id)
    case CancelJob(id, _, _) => MayCancelJob(db, org, id)
    case ResolveDelivery(id, resolution, _, gatesOpen, _, _) =>
      MayResolve(db, org, id, resolution) && (resolution == ConfirmedNotSent ==> gatesOpen)
    case PausePublishing => true
    case ResumePublishing(_) => org in db.paused
    case LowerStage(_, stageIsLower) => stageIsLower
    case PauseConnection(id) => OwnConnection(db, org, id) && db.connections[id].status != ConnRevoked
    case ResumeConnection(id, acknowledged, now) => MayResumeConnection(db, org, id, acknowledged, now)
    case CheckConnection(id, _) => OwnConnection(db, org, id) && db.connections[id].status != ConnRevoked
    case ProbeConnection(id, stopped, _, _) =>
      OwnConnection(db, org, id) && db.connections[id].status == ConnActive && stopped in {ConnPaused, ConnError}
    case CompleteAuth(id, _) => OwnConnection(db, org, id) && db.connections[id].challenged
    case RevokeConnection(id, _) => OwnConnection(db, org, id)
  }

  // ----- what a request leaves

  function RetriedJob(j: Job, now: int): Job
  {
    j.(status := Retry, dueAt := now, errorCode := None, errorMessage := None, finishedAt := None, lockedBy := None)
  }

  function ResolvedJob(j: Job, resolution: Resolution, note: string, now: int): Job
  {
    var r := j.(reviewed := true, lockedBy := None);
    match resolution
    case ConfirmedSent => r.(status := Sent, finishedAt := Some(now), errorCode := None, errorMessage := None)
    case ConfirmedNotSent =>
      r.(status := Retry, dueAt := now, finishedAt := None, errorCode := None, errorMessage := None)
    case ResolvedSkipped =>
      r.(status := Skipped, finishedAt := Some(now), errorCode := Some("MANUAL_REVIEW_SKIPPED"),
         errorMessage := Some(note))
  }

  /** The tables after one job was settled and its run with it. */
  function JobSettled(db: Database, k: nat, j: Job, capacity: bool, now: int): Database
    requires k < |db.jobs|
  {
    var next := db.(jobs := db.jobs[k := j]);
    var r := RunById(db.runs, j.runId);
    if r < |db.runs| then Settled(next, r, capacity, now) else next
  }

  /** The campaigns a lowered pilot stage pauses. */
  function Lowered(db: Database, org: string, above: set<string>): set<string>
  {
    set id | id in above && OwnCampaign(db, org, id) && db.campaigns[id].status in {CampaignScheduled, CampaignRunning}
  }

  function Unapproved(c: Campaign): Campaign { c.(approved := false, pending := false, nextRunAt := None) }

  function Shortened(reason: string): string { if |reason| > 2000 then reason[..2000] else reason }

  function JobsAfter(db: Database, org: string, a: Action): seq<Job>
    requires Permitted(db, org, a)
  {
    match a
    case PatchCampaign(id, _, _, now) =>
      Update(db.jobs, j => CampaignJobsCondition(j, org, id),
             j => CancelledAndUnlocked(j, now, "CAMPAIGN_EDITED", "campaign changed"))
    case CancelCampaign(id, now) =>
      Update(db.jobs, j => CampaignJobsCondition(j, org, id), j => CancelledJob(j, now, "CAMPAIGN_CANCELLED"))
    case ContinueRun(id, runId, _, now) =>
      var r := db.runs[FindRun(db.runs, org, id, runId)];
      AfterRelease(db.jobs, r, SpacingOf(db.campaigns, r), now)
    case AbortRun(id, runId, reason, now) =>
      Update(db.jobs, j => AbortedJobsCondition(j, org, runId),
             j => CancelledAndUnlocked(j, now, "ROLLOUT_ABORTED", Shortened(reason)))
    case RetryJob(id, _, now) => var k := FindJob(db.jobs, org, id); db.jobs[k := RetriedJob(db.jobs[k], now)]
    case CancelJob(_, _, _) => AfterJob(db, org, a).jobs
    case ResolveDelivery(_, _, _, _, _, _) => AfterJob(db, org, a).jobs
    case PausePublishing =>
      Update(db.jobs, j => StoppedJobsCondition(j, org), j => ParkedJob(j, EMERGENCY_CODE, "publishing is stopped"))
    case ResumePublishing(now) => Update(db.jobs, j => RestartedJobsCondition(j, org), j => RestartedJob(j, now))
    case LowerStage(above, _) =>
      Update(db.jobs, j => LoweredJobsCondition(j, org, Lowered(db, org, above)),
             j => ParkedJob(j, STAGE_CODE, "the pilot stage was lowered"))
    case ResumeConnection(id, _, now) => Update(db.jobs, j => ResumedJobsCondition(j, org, id), j => ResumedJob(j, now))
    case RevokeConnection(id, now) =>
      Update(db.jobs, j => RevokedJobsCondition(j, org, id), j => CancelledJob(j, now, "CONNECTION_REVOKED"))
    case _ => db.jobs
  }

  /** The requests that give one job a result and then settle its run. */
  predicate SettlesJob(a: Action) { a.CancelJob? || a.ResolveDelivery? }

  /** The job a request is about, after the request. */
  function SettlingJob(db: Database, org: string, a: Action): Job
    requires Permitted(db, org, a) && SettlesJob(a)
  {
    var j := db.jobs[FindJob(db.jobs, org, a.jobId)];
    if a.CancelJob? then CancelledJob(j, a.now, "MANUAL_CANCEL") else ResolvedJob(j, a.resolution, a.note, a.now)
  }

  /** The tables after a request about one job, with its run settled. */
  function AfterJob(db: Database, org: string, a: Action): Database
    requires Permitted(db, org, a) && SettlesJob(a)
  {
    JobSettled(db, FindJob(db.jobs, org, a.jobId), SettlingJob(db, org, a), a.capacity, a.now)
  }

  function RestartedJob(j: Job, now: int): Job
  {
    j.(status := Pending, dueAt := now, errorCode := None, errorMessage := None, lockedBy := None)
  }

  function ResumedJob(j: Job, now: int): Job
  {
    j.(status := Retry, dueAt := now, errorCode := None, errorMessage := None)
  }

  function RunsAfter(db: Database, org: string, a: Action): seq<CampaignRun>
    requires Permitted(db, org, a)
  {
    match a
    case PatchCampaign(id, _, _, now) => CancelRuns(db.runs, org, id, now)
    case CancelCampaign(id, now) => CancelRuns(db.runs, org, id, now)
    case ContinueRun(id, runId, _, _) =>
      var k := FindRun(db.runs, org, id, runId); db.runs[k := NextBatch(db.runs[k])]
    case AbortRun(id, runId, _, now) =>
      var k := FindRun(db.runs, org, id, runId);
      db.runs[k := db.runs[k].(status := RunCancelled, finishedAt := Some(now))]
    case CancelJob(_, _, _) => AfterJob(db, org, a).runs
    case ResolveDelivery(_, _, _, _, _, _) => AfterJob(db, org, a).runs
    case _ => db.runs
  }

  function WithCampaign(db: Database, id: string, c: Campaign): map<string, Campaign> { db.campaigns[id := c] }

  function CampaignsAfter(db: Database, org: string, a: Action): map<string, Campaign>
    requires Permitted(db, org, a)
  {
    match a
    case PatchCampaign(id, _, scheduleAt, _) =>
      WithCampaign(db, id, Unapproved(db.campaigns[id]).(status := CampaignDraft, scheduleAt := scheduleAt))
    case ReplaceDestinations(id, _) => WithCampaign(db, id, Unapproved(db.campaigns[id]))
    case SubmitApproval(id, _) =>
      WithCampaign(db, id, Unapproved(db.campaigns[id]).(status := CampaignDraft, pending := true))
    case DecideApproval(id, verdict, _, now) => WithCampaign(db, id, Decided(db.campaigns[id], verdict, now))
    case RunNow(id, _, now) =>
      WithCampaign(db, id, db.campaigns[id].(status := CampaignScheduled, nextRunAt := Some(now)))
    case PauseCampaign(id) => WithCampaign(db, id, db.campaigns[id].(status := CampaignPaused))
    case ResumeCampaign(id, _, now) => WithCampaign(db, id, ResumedCampaign(db, org, id, now))
    case CancelCampaign(id, _) => WithCampaign(db, id, Unapproved(db.campaigns[id]).(status := CampaignCancelled))
    case ContinueRun(id, _, _, _) => WithCampaign(db, id, db.campaigns[id].(status := CampaignRunning))
    case AbortRun(id, _, _, _) => WithCampaign(db, id, Unapproved(db.campaigns[id]).(status := CampaignPaused))
    case CancelJob(_, _, _) => AfterJob(db, org, a).campaigns
    case ResolveDelivery(_, _, _, _, _, _) => AfterJob(db, org, a).campaigns
    case LowerStage(above, _) =>
      map id | id in db.campaigns ::
        if id in Lowered(db, org, above) then db.campaigns[id].(status := CampaignPaused, nextRunAt := None)
            else db.campaigns[id]
    case _ => db.campaigns
  }

  function Decided(c: Campaign, verdict: Verdict, now: int): Campaign
  {
    match verdict
    case Approved =>
      c.(status := CampaignScheduled, approved := true, pending := false, nextRunAt := Some(AtLeast(now, c.scheduleAt)))
    case Recorded => c
    case Rejected => Unapproved(c).(status := CampaignDraft)
  }

  function ResumedCampaign(db: Database, org: string, id: string, now: int): Campaign
    requires id in db.campaigns
  {
    var c := db.campaigns[id];
    if exists j :: j in db.jobs && CampaignJobsCondition(j, org, id) == True then c.(status := CampaignRunning)
    else c.(status := CampaignScheduled, nextRunAt := if c.nextRunAt.Some? then c.nextRunAt else Some(now))
  }

  function WithConnection(db: Database, id: string, c: Connection): map<string, Connection> { db.connections[id := c] }

  function ConnectionsAfter(db: Database, org: string, a: Action): map<string, Connection>
    requires Permitted(db, org, a)
  {
    match a
    case PauseConnection(id) => WithConnection(db, id, db.connections[id].(status := ConnPaused))
    case ResumeConnection(id, _, _) =>
      WithConnection(db, id,
                     db.connections[id].(status := ConnActive, floodBlockedUntil := None, lastErrorCode := None))
    case CheckConnection(id, result) => WithConnection(db, id, CheckedConnection(db.connections[id], result))
    case ProbeConnection(id, stopped, code, blockedUntil) =>
      WithConnection(db, id, db.connections[id].(
        status := stopped, lastErrorCode := Some(code),
        floodBlockedUntil := if blockedUntil.Some? then blockedUntil else db.connections[id].floodBlockedUntil))
    case CompleteAuth(id, result) => WithConnection(db, id, AuthorisedConnection(db.connections[id], result))
    case RevokeConnection(id, _) => WithConnection(db, id, db.connections[id].(status := ConnRevoked))
    case _ => db.connections
  }

  function CheckedConnection(c: Connection, result: HealthResult): Connection
  {
    match result
    case Healthy => c.(status := if c.status == ConnError then ConnPaused else c.status, lastErrorCode := None)
    case Unhealthy(code, requiresReview) =>
      c.(status := if requiresReview then ConnError else c.status, lastErrorCode := Some(code))
  }

  function AuthorisedConnection(c: Connection, result: AuthResult): Connection
  {
    match result
    case AuthDone => c.(status := ConnActive, challenged := false)
    case AuthGone(code) => c.(status := ConnError, lastErrorCode := Some(code), challenged := false)
    case AuthOpen => c
  }

  function PausedAfter(db: Database, org: string, a: Action): set<string>
  {
    if a.PausePublishing? then db.paused + {org} else if a.ResumePublishing? then db.paused - {org} else db.paused
  }

  function Step(db: Database, org: string, a: Action): Database
  {
    if !Permitted(db, org, a) then db else
      Database(JobsAfter(db, org, a), RunsAfter(db, org, a), CampaignsAfter(db, org, a), ConnectionsAfter(db, org, a),
               PausedAfter(db, org, a))
  }

  // ----- runs

  /** A request and the organisation of the user who makes it. */
  type Request = (string, Action)

  /** Requests of any organisations, one after another. */
  function Run(db: Database, requests: seq<Request>): Database
    decreases |requests|
  {
    if requests == [] then db else Run(Step(db, requests[0].0, requests[0].1), requests[1..])
  }

  /** In some state along the run the condition holds. */
  ghost predicate Ever(holds: Database -> bool, db: Database, requests: seq<Request>)
    decreases |requests|
  {
    holds(db) || (requests != [] && Ever(holds, Step(db, requests[0].0, requests[0].1), requests[1..]))
  }

  /** Some request of the run is, in the state it meets, of the given kind. */
  ghost predicate EverStep(kind: (Database, string, Action) -> bool, db: Database, requests: seq<Request>)
    decreases |requests|
  {
    && requests != []
    && (kind(db, requests[0].0, requests[0].1) || EverStep(kind, Step(db, requests[0].0, requests[0].1), requests[1..]))
  }
}
