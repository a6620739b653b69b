/** The handlers that act on jobs and runs, statement by statement on the tables. */
module OperatorDesk {
  import opened Common
  import opened JobTables
  import opened Rollout
  import opened OperatorActions

  class Desk {
    var jobs: seq<Job>
    var runs: seq<CampaignRun>
    var campaigns: map<string, Campaign>
    var connections: map<string, Connection>
    var paused: set<string>

    constructor (db: Database)
      ensures Snapshot() == db
    {
      jobs, runs, campaigns, connections, paused := db.jobs, db.runs, db.campaigns, db.connections, db.paused;
    }

    function Snapshot(): Database
      reads this
    {
      Database(jobs, runs, campaigns, connections, paused)
    }

    method CancelActiveRuns(organizationId: string, campaignId: string, now: int)
      modifies this`runs
      ensures runs == CancelRuns(old(runs), organizationId, campaignId, now)
    {
      ghost var before := runs;
      for i := 0 to |runs|
        invariant |runs| == |before|
        invariant forall k :: 0 <= k < i ==> runs[k] == CancelRuns(before, organizationId, campaignId, now)[k]
        invariant forall k :: i <= k < |runs| ==> runs[k] == before[k]
      {
        if RunOfCampaign(runs[i], organizationId, campaignId) && ActiveRun(runs[i]) {
          runs := runs[i := runs[i].(status := RunCancelled, finishedAt := Some(now))];
        }
      }
    }

    method Cancel(org: string, campaignId: string, now: int) returns (ok: bool)
      modifies this
      ensures ok <==> Permitted(old(Snapshot()), org, CancelCampaign(campaignId, now))
      ensures Snapshot() == Step(old(Snapshot()), org, CancelCampaign(campaignId, now))
    {
      if campaignId !in campaigns || campaigns[campaignId].organizationId != org { return false; }
      var c := campaigns[campaignId];
      if c.status in {CampaignCompleted, CampaignCancelled} { return false; }
      if HasUncertain(jobs, org, campaignId, None) { return false; }
      campaigns := campaigns[campaignId := Unapproved(c).(status := CampaignCancelled)];
      jobs := Update(jobs, j => CampaignJobsCondition(j, org, campaignId),
                     j => CancelledJob(j, now, "CAMPAIGN_CANCELLED"));
      CancelActiveRuns(org, campaignId, now);
      return true;
    }

    method Patch(org: string, campaignId: string, fieldsValid: bool, scheduleAt: int, now: int) returns (ok: bool)
      modifies this
      ensures ok <==> Permitted(old(Snapshot()), org, PatchCampaign(campaignId, fieldsValid, scheduleAt, now))
      ensures Snapshot() == Step(old(Snapshot()), org, PatchCampaign(campaignId, fieldsValid, scheduleAt, now))
    {
      if campaignId !in campaigns || campaigns[campaignId].organizationId != org { return false; }
      var c := campaigns[campaignId];
      if c.status !in {CampaignDraft, CampaignPaused} || !fieldsValid { return false; }
      if HasUncertain(jobs, org, campaignId, None) { return false; }
      jobs := Update(jobs, j => CampaignJobsCondition(j, org, campaignId),
                     j => CancelledAndUnlocked(j, now, "CAMPAIGN_EDITED", "campaign changed"));
      CancelActiveRuns(org, campaignId, now);
      campaigns := campaigns[campaignId := Unapproved(c).(status := CampaignDraft, scheduleAt := scheduleAt)];
      return true;
    }

    method Pause(org: string, campaignId: string) returns (ok: bool)
      modifies this
      ensures ok <==> Permitted(old(Snapshot()), org, PauseCampaign(campaignId))
      ensures Snapshot() == Step(old(Snapshot()), org, PauseCampaign(campaignId))
    {
      if campaignId !in campaigns || campaigns[campaignId].organizationId != org { return false; }
      if campaigns[campaignId].status !in {CampaignScheduled, CampaignRunning} { return false; }
      campaigns := campaigns[campaignId := campaigns[campaignId].(status := CampaignPaused)];
      return true;
    }

    /** Releases the jobs of the order one after another. */
    method ReleaseJobs(order: seq<nat>, base: int, spacing: int)
      requires forall p :: 0 <= p < |order| ==> order[p] < |jobs|
      modifies this`jobs
      ensures jobs == ReleaseInOrder(old(jobs), order, base, spacing)
    {
      for position := 0 to |order|
        invariant |jobs| == |old(jobs)| && jobs == ReleaseInOrder(old(jobs), order[..position], base, spacing)
      {
        assert order[..position + 1][..position] == order[..position];
        var i := order[position];
        jobs := jobs[i := ReleasedJob(jobs[i], base + position * spacing)];
      }
      assert order[..|order|] == order;
    }

    /** Releases the run's next batch. */
    method ReleaseNextBatch(k: nat, now: int) returns (released: nat)
      requires k < |runs|
      modifies this`jobs, this`runs
      ensures jobs == AfterRelease(old(jobs), old(runs)[k], SpacingOf(campaigns, old(runs)[k]), now)
      ensures runs == old(runs)[k := NextBatch(old(runs)[k])]
      ensures released == |Waiting(old(jobs), old(runs)[k])|
    {
      var r := runs[k];
      var order := ReleaseOrder(jobs, r);
      OrderIsWaiting(jobs, r);
      ReleaseJobs(order, now + AtLeast(0, r.pauseSeconds), AtLeast(1, SpacingOf(campaigns, r)));
      runs := runs[k := NextBatch(r)];
      return |order|;
    }

    /** Settles a run: counts its results, releases its next batch or asks for a checkpoint, or ends it. */
    method FinalizeRun(k: nat, capacity: bool, now: int)
      requires k < |runs|
      modifies this`jobs, this`runs, this`campaigns
      ensures Snapshot() == Settled(old(Snapshot()), k, capacity, now)
      ensures RunSettled(old(Snapshot()), k, capacity, now, Snapshot())
    {
      SettledMeans(Snapshot(), k, capacity, now);
      var sent, failed := SentCount(jobs, runs[k]), FailedCount(jobs, runs[k]);
      runs := runs[k := runs[k].(sentJobs := sent, failedJobs := failed)];
      if runs[k].status == RunCancelled { return; }
      if runs[k].staged && runs[k].activeBatch < runs[k].totalBatches {
        AdvanceRun(k, capacity, now);
        return;
      }
      if CountWhere(jobs, InRunWith(runs[k], UNFINISHED)) != 0 { return; }
      EndRun(k, now);
    }

    /** Takes a counted run with further batches on, once its batch is done: to a checkpoint or to the next batch. */
    method AdvanceRun(k: nat, capacity: bool, now: int)
      requires k < |runs| && runs[k].status != RunCancelled && MoreBatches(runs[k])
      modifies this`jobs, this`runs
      ensures runs == old(runs)[k := SettledRun(old(jobs), old(runs)[k], capacity, now)]
      ensures jobs == if AutoReleases(old(jobs), old(runs)[k], capacity)
                then AfterRelease(old(jobs), old(runs)[k], SpacingOf(campaigns, old(runs)[k]), now) else old(jobs)
    {
      var r := runs[k];
      if r.status == RunAwaitingCheckpoint { return; }
      if BatchCount(jobs, r, UNFINISHED) != 0 { return; }
      if r.checkpointRequired || ThresholdExceeded(jobs, r) {
        runs := runs[k := r.(status := RunAwaitingCheckpoint)];
        return;
      }
      if Waiting(jobs, r) != [] && !capacity {
        runs := runs[k := r.(status := RunAwaitingCheckpoint)];
        return;
      }
      var _ := ReleaseNextBatch(k, now);
    }

    /** Ends a counted run, and its campaign with it unless that is scheduled again, cancelled or failed. */
    method EndRun(k: nat, now: int)
      requires k < |runs| && Ends(jobs, runs[k])
      modifies this`runs, this`campaigns
      ensures runs == old(runs)[k := SettledRun(jobs, old(runs)[k], true, now)]
      ensures campaigns == SettledCampaigns(old(campaigns), jobs, old(runs)[k])
    {
      var r := runs[k];
      runs := runs[k := r.(finishedAt := Some(now),
                           status := if r.sentJobs == r.totalJobs then RunCompleted
                                     else if r.sentJobs > 0 then RunPartial else RunFailed)];
      if r.campaignId in campaigns && campaigns[r.campaignId].nextRunAt.None?
         && campaigns[r.campaignId].status !in {CampaignCancelled, CampaignFailed} {
        campaigns := campaigns[r.campaignId := campaigns[r.campaignId].(
                                 status := if r.sentJobs > 0 then CampaignCompleted else CampaignFailed)];
      }
    }

    method Continue(org: string, campaignId: string, runId: string, gatesOpen: bool, now: int) returns (ok: bool)
      modifies this
      ensures ok <==> Permitted(old(Snapshot()), org, ContinueRun(campaignId, runId, gatesOpen, now))
      ensures Snapshot() == Step(old(Snapshot()), org, ContinueRun(campaignId, runId, gatesOpen, now))
    {
      if campaignId !in campaigns || campaigns[campaignId].organizationId != org { return false; }
      var k := FindRun(runs, org, campaignId, runId);
      if k == |runs| || !runs[k].staged || runs[k].status != RunAwaitingCheckpoint { return false; }
      if runs[k].activeBatch >= runs[k].totalBatches { return false; }
      if !campaigns[campaignId].approved || org in paused || !gatesOpen { return false; }
      if BatchCount(jobs, runs[k], {WaitingReview}) != 0 { return false; }
      if Waiting(jobs, runs[k]) == [] { return false; }
      var _ := ReleaseNextBatch(k, now);
      campaigns := campaigns[campaignId := campaigns[campaignId].(status := CampaignRunning)];
      return true;
    }

    method Abort(org: string, campaignId: string, runId: string, reason: string, now: int) returns (ok: bool)
      modifies this
      ensures ok <==> Permitted(old(Snapshot()), org, AbortRun(campaignId, runId, reason, now))
      ensures Snapshot() == Step(old(Snapshot()), org, AbortRun(campaignId, runId, reason, now))
    {
      if campaignId !in campaigns || campaigns[campaignId].organizationId != org { return false; }
      var k := FindRun(runs, org, campaignId, runId);
      if k == |runs| || !ActiveRun(runs[k]) { return false; }
      if HasUncertain(jobs, org, campaignId, Some(runId)) { return false; }
      if exists j :: j in jobs && j.organizationId == org && j.runId == runId
          && j.status == Processing { return false; }
      jobs := Update(jobs, j => AbortedJobsCondition(j, org, runId),
                     j => CancelledAndUnlocked(j, now, "ROLLOUT_ABORTED", Shortened(reason)));
      runs := runs[k := runs[k].(status := RunCancelled, finishedAt := Some(now))];
      campaigns := campaigns[campaignId := Unapproved(campaigns[campaignId]).(status := CampaignPaused)];
      return true;
    }

    method RetryOneJob(org: string, jobId: nat, gatesOpen: bool, now: int) returns (ok: bool)
      modifies this
      ensures ok <==> Permitted(old(Snapshot()), org, RetryJob(jobId, gatesOpen, now))
      ensures Snapshot() == Step(old(Snapshot()), org, RetryJob(jobId, gatesOpen, now))
    {
      var k := FindJob(jobs, org, jobId);
      if k == |jobs| || jobs[k].status !in {Failed, Skipped} { return false; }
      if jobs[k].reviewed { return false; }
      if !CanGoOut(Snapshot(), jobs[k]) || !gatesOpen { return false; }
      jobs := jobs[k := RetriedJob(jobs[k], now)];
      return true;
    }

    /** Gives one job its result and settles its run. */
    method SettleJob(k: nat, j: Job, capacity: bool, now: int)
      requires k < |jobs|
      modifies this`jobs, this`runs, this`campaigns
      ensures Snapshot() == JobSettled(old(Snapshot()), k, j, capacity, now)
    {
      jobs := jobs[k := j];
      var r := RunById(runs, j.runId);
      if r < |runs| { FinalizeRun(r, capacity, now); }
    }

    method CancelOneJob(org: string, jobId: nat, capacity: bool, now: int) returns (ok: bool)
      modifies this
      ensures ok <==> Permitted(old(Snapshot()), org, CancelJob(jobId, capacity, now))
      ensures Snapshot() == Step(old(Snapshot()), org, CancelJob(jobId, capacity, now))
    {
      var k := FindJob(jobs, org, jobId);
      if k == |jobs| || jobs[k].status !in {Held, Pending, Retry, WaitingReview} { return false; }
      if Uncertain(jobs[k]) { return false; }
      SettleJob(k, CancelledJob(jobs[k], now, "MANUAL_CANCEL"), capacity, now);
      return true;
    }

    method ResolveOneJob(org: string, jobId: nat, resolution: Resolution, note: string, gatesOpen: bool,
                         capacity: bool, now: int)
      returns (ok: bool)
      modifies this
      ensures ok <==> Permitted(old(Snapshot()), org,
                                ResolveDelivery(jobId, resolution, note, gatesOpen, capacity, now))
      ensures Snapshot() ==
                Step(old(Snapshot()), org, ResolveDelivery(jobId, resolution, note, gatesOpen, capacity, now))
    {
      var k := FindJob(jobs, org, jobId);
      if k == |jobs| || !Uncertain(jobs[k]) { return false; }
      if resolution == ConfirmedNotSent && !(gatesOpen && CanGoOut(Snapshot(), jobs[k])) { return false; }
      SettleJob(k, ResolvedJob(jobs[k], resolution, note, now), capacity, now);
      return true;
    }

    method ResumeTelegram(org: string, connectionId: string, acknowledged: bool, now: int) returns (ok: bool)
      modifies this
      ensures ok <==> Permitted(old(Snapshot()), org, ResumeConnection(connectionId, acknowledged, now))
      ensures Snapshot() == Step(old(Snapshot()), org, ResumeConnection(connectionId, acknowledged, now))
    {
      if connectionId !in connections || connections[connectionId].organizationId != org { return false; }
      var c := connections[connectionId];
      if c.status == ConnRevoked { return false; }
      if c.floodBlockedUntil.Some? && c.floodBlockedUntil.value > now { return false; }
      if c.lastErrorCode.Some? && c.lastErrorCode.value in REVIEW_CODES && !acknowledged { return false; }
      connections := connections[connectionId := c.(status := ConnActive, floodBlockedUntil := None,
                                                    lastErrorCode := None)];
      jobs := Update(jobs, j => ResumedJobsCondition(j, org, connectionId), j => ResumedJob(j, now));
      return true;
    }

    method Revoke(org: string, connectionId: string, now: int) returns (ok: bool)
      modifies this
      ensures ok <==> Permitted(old(Snapshot()), org, RevokeConnection(connectionId, now))
      ensures Snapshot() == Step(old(Snapshot()), org, RevokeConnection(connectionId, now))
    {
      if connectionId !in connections || connections[connectionId].organizationId != org { return false; }
      connections := connections[connectionId := connections[connectionId].(status := ConnRevoked)];
      jobs := Update(jobs, j => RevokedJobsCondition(j, org, connectionId),
                     j => CancelledJob(j, now, "CONNECTION_REVOKED"));
      return true;
    }
  }
}
