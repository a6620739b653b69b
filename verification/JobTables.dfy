/**
 Delivery jobs, runs, campaigns and connections, and the conditions under which bulk SQL updates select jobs
 (app/api/campaigns.py, app/api/connections.py, app/api/organization.py, app/services/rollouts.py).
 */
module JobTables {
  import opened Common

  // ----- SQL's three-valued conditions

  datatype Truth = True | False | Unknown

  function And(a: Truth, b: Truth): Truth
  {
    if a == False || b == False then False else if a == True && b == True then True else Unknown
  }

  function Or(a: Truth, b: Truth): Truth
  {
    if a == True || b == True then True else if a == False && b == False then False else Unknown
  }

  function Not(a: Truth): Truth
  {
    match a case True => False case False => True case Unknown => Unknown
  }

  function Known(b: bool): Truth { if b then True else False }

  function IsNull(x: Option<string>): Truth { Known(x.None?) }

  function In(x: Option<string>, values: set<string>): Truth
  {
    if x.None? then Unknown else Known(x.value in values)
  }

  // ----- tables

  datatype JobStatus = Held | Pending | Processing | Retry | WaitingReview | Sent | Failed | Cancelled | Skipped

  datatype RunStatus =
    | RunQueued | RunRunning | RunAwaitingCheckpoint | RunCompleted | RunPartial | RunFailed | RunCancelled

  datatype CampaignStatus =
    | CampaignDraft | CampaignScheduled | CampaignRunning | CampaignPaused | CampaignCompleted | CampaignCancelled
    | CampaignFailed

  datatype ConnectionStatus = ConnDraft | ConnAuthPending | ConnActive | ConnPaused | ConnError | ConnRevoked

  /** A delivery; `reviewed` says that a person has settled its result. Ids are ordered like their fixed-length text. */
  datatype Job = Job(
    id: nat, organizationId: string, campaignId: string, connectionId: string, runId: string, batch: int,
    status: JobStatus, errorCode: Option<string>, errorMessage: Option<string>, dueAt: int, createdAt: int,
    finishedAt: Option<int>, lockedBy: Option<string>, reviewed: bool)

  datatype CampaignRun = CampaignRun(
    id: string, organizationId: string, campaignId: string, status: RunStatus, staged: bool, totalBatches: int,
    activeBatch: int, pauseSeconds: int, checkpointRequired: bool, failureThreshold: int, totalJobs: int,
    sentJobs: int, failedJobs: int, finishedAt: Option<int>)

  /** `approved` stands for a recorded approval, `pending` for an open approval request. */
  datatype Campaign = Campaign(
    organizationId: string, status: CampaignStatus, nextRunAt: Option<int>, scheduleAt: int, spacingSeconds: int,
    approved: bool, pending: bool)

  /** `challenged` says that an authorisation was started and is still open. */
  datatype Connection = Connection(
    organizationId: string, status: ConnectionStatus, floodBlockedUntil: Option<int>, lastErrorCode: Option<string>,
    challenged: bool)

  /** `paused` holds the organisations whose publishing is stopped. */
  datatype Database = Database(
    jobs: seq<Job>, runs: seq<CampaignRun>, campaigns: map<string, Campaign>, connections: map<string, Connection>,
    paused: set<string>)

  const UNCERTAIN_CODES: set<string> := {"DELIVERY_RESULT_UNCERTAIN", "WORKER_CRASH_DURING_SEND"}
  const REVIEW_CODES: set<string> :=
    {"ANTI_SPAM_RESTRICTION", "TELEGRAM_AUTH_INVALID", "DELIVERY_RESULT_UNCERTAIN", "WORKER_CRASH_DURING_SEND"}

  /** Whether the message reached its chat is unknown until somebody looks. */
  predicate Uncertain(j: Job)
  {
    j.status == WaitingReview && j.errorCode.Some? && j.errorCode.value in UNCERTAIN_CODES
  }

  predicate Finished(j: Job) { j.status in {Sent, Failed, Cancelled, Skipped} }

  predicate ActiveRun(r: CampaignRun) { r.status in {RunQueued, RunRunning, RunAwaitingCheckpoint} }

  predicate OfCampaign(j: Job, organizationId: string, campaignId: string)
  {
    j.organizationId == organizationId && j.campaignId == campaignId
  }

  predicate RunOfCampaign(r: CampaignRun, organizationId: string, campaignId: string)
  {
    r.organizationId == organizationId && r.campaignId == campaignId
  }

  // ----- the conditions of the bulk updates

  /** `WAITING_REVIEW AND error_code IN (...)`, as the guards count it. */
  function UncertainCondition(j: Job): Truth
  {
    And(Known(j.status == WaitingReview), In(j.errorCode, UNCERTAIN_CODES))
  }

  /** `WAITING_REVIEW AND (error_code IS NULL OR NOT error_code IN (...))`. */
  function ReviewableCondition(j: Job): Truth
  {
    And(Known(j.status == WaitingReview), Or(IsNull(j.errorCode), Not(In(j.errorCode, UNCERTAIN_CODES))))
  }

  function CampaignJobsCondition(j: Job, organizationId: string, campaignId: string): Truth
  {
    And(Known(OfCampaign(j, organizationId, campaignId)), Known(j.status in {Held, Pending, Retry, WaitingReview}))
  }

  function ResumedJobsCondition(j: Job, organizationId: string, connectionId: string): Truth
  {
    And(Known(j.connectionId == connectionId && j.organizationId == organizationId), ReviewableCondition(j))
  }

  function RevokedJobsCondition(j: Job, organizationId: string, connectionId: string): Truth
  {
    And(Known(j.connectionId == connectionId && j.organizationId == organizationId),
        Or(Known(j.status in {Pending, Retry}), ReviewableCondition(j)))
  }

  function AbortedJobsCondition(j: Job, organizationId: string, runId: string): Truth
  {
    And(Known(j.organizationId == organizationId && j.runId == runId),
        Or(Known(j.status in {Held, Pending, Retry}), ReviewableCondition(j)))
  }

  /** The three-valued conditions say what they are meant to say, nulls included. */
  lemma ConditionsMean(j: Job)
    ensures UncertainCondition(j) == True <==> Uncertain(j)
    ensures ReviewableCondition(j) == True <==> j.status == WaitingReview && !Uncertain(j)
    ensures And(Known(j.status == WaitingReview), Not(In(j.errorCode, UNCERTAIN_CODES))) == True <==>
            j.status == WaitingReview && !Uncertain(j) && j.errorCode.Some?
  {
  }

  const EMERGENCY_CODE := "ORG_EMERGENCY_STOP"
  const STAGE_CODE := "PILOT_STAGE_LIMIT_REDUCED"

  /** Unsent work of an organisation, as the emergency stop parks it. */
  function StoppedJobsCondition(j: Job, organizationId: string): Truth
  {
    And(Known(j.organizationId == organizationId), Known(j.status in {Pending, Retry}))
  }

  /** Work the emergency stop parked. */
  function RestartedJobsCondition(j: Job, organizationId: string): Truth
  {
    And(Known(j.organizationId == organizationId && j.status == WaitingReview), In(j.errorCode, {EMERGENCY_CODE}))
  }

  /** Unsent work of the campaigns that a lowered pilot stage no longer admits. */
  function LoweredJobsCondition(j: Job, organizationId: string, campaignIds: set<string>): Truth
  {
    And(Known(j.organizationId == organizationId && j.campaignId in campaignIds),
        Known(j.status in {Pending, Retry, Held}))
  }

  /** An UPDATE changes the rows whose condition is true, and only those. */
  function Update(jobs: seq<Job>, condition: Job -> Truth, change: Job -> Job): (r: seq<Job>)
    ensures |r| == |jobs|
    ensures forall i :: 0 <= i < |r| ==> r[i] == if condition(jobs[i]) == True then change(jobs[i]) else jobs[i]
  {
    Map(j => if condition(j) == True then change(j) else j, jobs)
  }

  /** Parked for an operator. */
  function ParkedJob(j: Job, code: string, message: string): Job
  {
    j.(status := WaitingReview, errorCode := Some(code), errorMessage := Some(message), lockedBy := None)
  }

  function CancelledJob(j: Job, now: int, code: string): Job
  {
    j.(status := Cancelled, finishedAt := Some(now), errorCode := Some(code))
  }

  function CancelledAndUnlocked(j: Job, now: int, code: string, message: string): Job
  {
    CancelledJob(j, now, code).(errorMessage := Some(message), lockedBy := None)
  }

  predicate HasUncertain(jobs: seq<Job>, organizationId: string, campaignId: string, runId: Option<string>)
  {
    exists j :: j in jobs && OfCampaign(j, organizationId, campaignId) && UncertainCondition(j) == True
                && (runId.None? || j.runId == runId.value)
  }

  function CancelRuns(runs: seq<CampaignRun>, organizationId: string, campaignId: string,
                      now: int): (r: seq<CampaignRun>)
    ensures |r| == |runs|
    ensures forall i :: 0 <= i < |r| ==> r[i] == CancelRunOf(runs[i], organizationId, campaignId, now)
  {
    Map(r => CancelRunOf(r, organizationId, campaignId, now), runs)
  }

  function CancelRunOf(r: CampaignRun, organizationId: string, campaignId: string, now: int): CampaignRun
  {
    if RunOfCampaign(r, organizationId, campaignId) && ActiveRun(r)
    then r.(status := RunCancelled, finishedAt := Some(now)) else r
  }

  // ----- looking rows up

  /** The organisation's job with this id: its index, or the table's length. */
  function FindJob(jobs: seq<Job>, organizationId: string, id: nat): (k: nat)
    ensures k <= |jobs|
    ensures k < |jobs| ==> jobs[k].id == id && jobs[k].organizationId == organizationId
    ensures forall i :: 0 <= i < k ==> !(jobs[i].id == id && jobs[i].organizationId == organizationId)
  {
    if jobs == [] || (jobs[0].id == id && jobs[0].organizationId == organizationId) then 0 else
      var k := FindJob(jobs[1..], organizationId, id);
      assert forall i :: 1 <= i < k + 1 ==> jobs[i] == jobs[1..][i - 1];
      k + 1
  }

  /** The campaign's run with this id: its index, or the table's length. */
  function FindRun(runs: seq<CampaignRun>, organizationId: string, campaignId: string, id: string): (k: nat)
    ensures k <= |runs|
    ensures k < |runs| ==> runs[k].id == id && RunOfCampaign(runs[k], organizationId, campaignId)
    ensures forall i :: 0 <= i < k ==> !(runs[i].id == id && RunOfCampaign(runs[i], organizationId, campaignId))
  {
    if runs == [] || (runs[0].id == id && RunOfCampaign(runs[0], organizationId, campaignId)) then 0 else
      var k := FindRun(runs[1..], organizationId, campaignId, id);
      assert forall i :: 1 <= i < k + 1 ==> runs[i] == runs[1..][i - 1];
      k + 1
  }

  /** The run a job belongs to. */
  function RunById(runs: seq<CampaignRun>, id: string): (k: nat)
    ensures k <= |runs|
    ensures k < |runs| ==> runs[k].id == id
    ensures forall i :: 0 <= i < k ==> runs[i].id != id
  {
    if runs == [] || runs[0].id == id then 0 else
      var k := RunById(runs[1..], id);
      assert forall i :: 1 <= i < k + 1 ==> runs[i] == runs[1..][i - 1];
      k + 1
  }
}
