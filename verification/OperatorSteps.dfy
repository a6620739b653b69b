/** What one operator request can do to a job, a run, a campaign and a connection. */
module OperatorSteps {
  import opened Common
  import opened JobTables
  import opened Rollout
  import opened OperatorActions

  /** A job whose result is in, or unknown, or on its way: nothing but a decision about this very job may touch it. */
  predicate Fixed(j: Job) { Finished(j) || j.status == Processing || Uncertain(j) }

  /** The request is let through and is about this very job's result: a retry, or the verdict of a manual check. */
  predicate Targets(db: Database, org: string, a: Action, i: nat)
  {
    Permitted(db, org, a) && (a.RetryJob? || a.ResolveDelivery?) && FindJob(db.jobs, org, a.jobId) == i
  }

  /** The request is let through and releases the batch the i-th job is held for. */
  predicate Releases(db: Database, org: string, a: Action, i: nat)
  {
    && i < |db.jobs| && Permitted(db, org, a)
    && match a
       case ContinueRun(id, runId, _, _) => Awaits(db.jobs[i], db.runs[FindRun(db.runs, org, id, runId)])
       case CancelJob(id, _, _) => ReleasesBySettling(db, org, a, i)
       case ResolveDelivery(id, _, _, _, _, _) => ReleasesBySettling(db, org, a, i)
       case _ => false
  }

  /** Settling another job of the run ends the active batch and so releases the next one. */
  predicate ReleasesBySettling(db: Database, org: string, a: Action, i: nat)
    requires i < |db.jobs| && Permitted(db, org, a) && SettlesJob(a)
  {
    var k, j := FindJob(db.jobs, org, a.jobId), SettlingJob(db, org, a);
    var r, jobs := RunById(db.runs, j.runId), db.jobs[k := j];
    i != k && r < |db.runs| && AutoReleases(jobs, Counted(jobs, db.runs[r]), a.capacity)
        && Awaits(db.jobs[i], db.runs[r])
  }

  predicate SameIdentity(b: Job, a: Job)
  {
    && a.id == b.id && a.organizationId == b.organizationId && a.campaignId == b.campaignId
    && a.connectionId == b.connectionId && a.runId == b.runId && a.batch == b.batch
  }

  /** The ways a request changes a job. */
  ghost predicate Moves(b: Job, a: Job)
  {
    && SameIdentity(b, a)
    && (|| a == b
        || (b.status in {Held, Pending, Retry, WaitingReview} && !Uncertain(b) && a.status == Cancelled)
        || (b.status in {Pending, Retry} && a.status == WaitingReview && a.errorCode == Some(EMERGENCY_CODE))
        || (b.status in {Pending, Retry, Held} && a.status == WaitingReview && a.errorCode == Some(STAGE_CODE))
        || (b.status == WaitingReview && b.errorCode == Some(EMERGENCY_CODE) && a.status == Pending)
        || (b.status == WaitingReview && !Uncertain(b) && a.status == Retry)
        || (b.status == Held && a.status == Pending)
        || (b.status in {Failed, Skipped} && !b.reviewed && a.status == Retry)
        || (Uncertain(b) && a.status in {Sent, Retry, Skipped} && a.reviewed))
  }

  /** A change of the i-th job, with the request that alone can bring it about: a fixed job changes exactly when the
      request is about it, and goes out again only through an active connection and a running campaign; a held job
      becomes pending exactly when its batch is released, and reviewed work is retried only by resuming its
      connection. */
  ghost predicate Explained(db: Database, org: string, a: Action, i: nat, after: Job)
    requires i < |db.jobs|
  {
    var before := db.jobs[i];
    && Moves(before, after)
    && (Fixed(before) ==> (after != before <==> Targets(db, org, a, i)))
    && (Targets(db, org, a, i) ==> Targeted(a, before))
    && (Fixed(before) && after.status == Retry ==> CanGoOut(db, before))
    && (Releases(db, org, a, i) ==> before.status == Held)
    && (before.status == Held ==> (after.status == Pending <==> Releases(db, org, a, i)))
    && (before.status == WaitingReview && !Uncertain(before) && after.status == Retry ==> Resumes(db, org, a, before))
  }

  /** Only unreviewed failures are retried, and only unknown results are settled by hand. */
  predicate Targeted(a: Action, j: Job)
  {
    (a.RetryJob? && j.status in {Failed, Skipped} && !j.reviewed) || (a.ResolveDelivery? && Uncertain(j))
  }

  predicate Resumes(db: Database, org: string, a: Action, j: Job)
  {
    Permitted(db, org, a) && a.ResumeConnection? && a.connectionId == j.connectionId
  }

  // ----- one kind of request at a time

  lemma NoneUncertain(db: Database, org: string, id: string, i: nat)
    requires !HasUncertain(db.jobs, org, id, None) && i < |db.jobs| && OfCampaign(db.jobs[i], org, id)
    ensures !Uncertain(db.jobs[i])
  {
    assert db.jobs[i] in db.jobs;
    ConditionsMean(db.jobs[i]);
  }

  lemma CancellingMoves(db: Database, org: string, a: Action, i: nat)
    requires Permitted(db, org, a) && (a.PatchCampaign? || a.CancelCampaign?) && i < |db.jobs|
    ensures |JobsAfter(db, org, a)| == |db.jobs| && Explained(db, org, a, i, JobsAfter(db, org, a)[i])
  {
    ConditionsMean(db.jobs[i]);
    if OfCampaign(db.jobs[i], org, a.campaignId) { NoneUncertain(db, org, a.campaignId, i); }
  }

  lemma AbortMoves(db: Database, org: string, a: Action, i: nat)
    requires Permitted(db, org, a) && a.AbortRun? && i < |db.jobs|
    ensures |JobsAfter(db, org, a)| == |db.jobs| && Explained(db, org, a, i, JobsAfter(db, org, a)[i])
  {
    ConditionsMean(db.jobs[i]);
  }

  lemma ParkingMoves(db: Database, org: string, a: Action, i: nat)
    requires Permitted(db, org, a) && (a.PausePublishing? || a.ResumePublishing? || a.LowerStage?) && i < |db.jobs|
    ensures |JobsAfter(db, org, a)| == |db.jobs| && Explained(db, org, a, i, JobsAfter(db, org, a)[i])
  {
  }

  lemma ConnectionMoves(db: Database, org: string, a: Action, i: nat)
    requires Permitted(db, org, a) && (a.ResumeConnection? || a.RevokeConnection?) && i < |db.jobs|
    ensures |JobsAfter(db, org, a)| == |db.jobs| && Explained(db, org, a, i, JobsAfter(db, org, a)[i])
  {
    ConditionsMean(db.jobs[i]);
  }

  lemma ContinueMoves(db: Database, org: string, a: Action, i: nat)
    requires Permitted(db, org, a) && a.ContinueRun? && i < |db.jobs|
    ensures |JobsAfter(db, org, a)| == |db.jobs| && Explained(db, org, a, i, JobsAfter(db, org, a)[i])
  {
    var r := db.runs[FindRun(db.runs, org, a.campaignId, a.runId)];
    ReleaseMeans(db.jobs, r, SpacingOf(db.campaigns, r), a.now, i);
  }

  lemma RetryMoves(db: Database, org: string, a: Action, i: nat)
    requires Permitted(db, org, a) && a.RetryJob? && i < |db.jobs|
    ensures |JobsAfter(db, org, a)| == |db.jobs| && Explained(db, org, a, i, JobsAfter(db, org, a)[i])
  {
  }

  /** The job a request is about becomes what the request makes of it; of the others, those released become pending. */
  lemma SettlingJobs(db: Database, k: nat, j: Job, capacity: bool, now: int, i: nat)
    requires k < |db.jobs| && i < |db.jobs| && j.status != Held
    ensures var r, jobs := RunById(db.runs, j.runId), db.jobs[k := j];
            var after := JobSettled(db, k, j, capacity, now).jobs;
            && |after| == |db.jobs|
            && if i == k then after[i] == j
               else if r < |db.runs| && AutoReleases(jobs, Counted(jobs, db.runs[r]), capacity)
                   && Awaits(db.jobs[i], db.runs[r])
               then after[i] == ReleasedJob(db.jobs[i], after[i].dueAt)
               else after[i] == db.jobs[i]
  {
    var r, jobs := RunById(db.runs, j.runId), db.jobs[k := j];
    if r < |db.runs| && AutoReleases(jobs, Counted(jobs, db.runs[r]), capacity) {
      ReleaseMeans(jobs, Counted(jobs, db.runs[r]), SpacingOf(db.campaigns, db.runs[r]), now, i);
    }
  }

  lemma SettledSelf(db: Database, org: string, a: Action, i: nat)
    requires Permitted(db, org, a) && SettlesJob(a) && i == FindJob(db.jobs, org, a.jobId)
    ensures Explained(db, org, a, i, SettlingJob(db, org, a))
  {
  }

  lemma SettledOther(db: Database, org: string, a: Action, i: nat, after: Job)
    requires Permitted(db, org, a) && SettlesJob(a) && i != FindJob(db.jobs, org, a.jobId) && i < |db.jobs|
    requires if ReleasesBySettling(db, org, a, i) then after == ReleasedJob(db.jobs[i], after.dueAt)
               else after == db.jobs[i]
    ensures Explained(db, org, a, i, after)
  {
  }

  lemma SettlingMoves(db: Database, org: string, a: Action, i: nat)
    requires Permitted(db, org, a) && SettlesJob(a) && i < |db.jobs|
    ensures |AfterJob(db, org, a).jobs| == |db.jobs| && Explained(db, org, a, i, AfterJob(db, org, a).jobs[i])
  {
    var k := FindJob(db.jobs, org, a.jobId);
    SettlingJobs(db, k, SettlingJob(db, org, a), a.capacity, a.now, i);
    if i == k {
      SettledSelf(db, org, a, i);
    } else {
      SettledOther(db, org, a, i, AfterJob(db, org, a).jobs[i]);
    }
  }

  // ----- any request

  /** Every request that is let through changes jobs only in the listed ways and for the listed reasons. */
  lemma PermittedMoves(db: Database, org: string, a: Action, i: nat)
    requires i < |db.jobs| && Permitted(db, org, a)
    ensures |JobsAfter(db, org, a)| == |db.jobs| && Explained(db, org, a, i, JobsAfter(db, org, a)[i])
  {
    if a.PatchCampaign? || a.CancelCampaign? { CancellingMoves(db, org, a, i); }
    else if a.AbortRun? { AbortMoves(db, org, a, i); }
    else if a.PausePublishing? || a.ResumePublishing? || a.LowerStage? { ParkingMoves(db, org, a, i); }
    else if a.ResumeConnection? || a.RevokeConnection? { ConnectionMoves(db, org, a, i); }
    else if a.ContinueRun? { ContinueMoves(db, org, a, i); }
    else if a.RetryJob? { RetryMoves(db, org, a, i); }
    else if SettlesJob(a) { SettlingMoves(db, org, a, i); }
    else { OtherMoves(db, org, a, i); }
  }

  /** A refused request changes nothing. */
  lemma StepJobs(db: Database, org: string, a: Action)
    ensures Step(db, org, a).jobs == if Permitted(db, org, a) then JobsAfter(db, org, a) else db.jobs
  {
  }

  lemma RefusedMoves(db: Database, org: string, a: Action, i: nat)
    requires i < |db.jobs| && !Permitted(db, org, a)
    ensures Explained(db, org, a, i, db.jobs[i])
  {
  }

  lemma StepMoves(db: Database, org: string, a: Action, i: nat)
    requires i < |db.jobs|
    ensures |Step(db, org, a).jobs| == |db.jobs| && Explained(db, org, a, i, Step(db, org, a).jobs[i])
  {
    StepJobs(db, org, a);
    if Permitted(db, org, a) { PermittedMoves(db, org, a, i); } else { RefusedMoves(db, org, a, i); }
  }

  lemma OtherMoves(db: Database, org: string, a: Action, i: nat)
    requires i < |db.jobs| && Permitted(db, org, a) && LeavesJobs(a)
    ensures JobsAfter(db, org, a) == db.jobs && Explained(db, org, a, i, db.jobs[i])
  {
  }

  predicate LeavesJobs(a: Action)
  {
    || a.ReplaceDestinations? || a.SubmitApproval? || a.DecideApproval? || a.RunNow? || a.PauseCampaign?
         || a.ResumeCampaign?
    || a.PauseConnection? || a.CheckConnection? || a.ProbeConnection? || a.CompleteAuth?
  }

  /** Resuming a connection retries exactly its reviewed jobs, those without an error code included. */
  lemma ResumeRetriesExactly(db: Database, org: string, id: string, acknowledged: bool, now: int, i: nat)
    requires Permitted(db, org, ResumeConnection(id, acknowledged, now)) && i < |db.jobs|
    ensures var b, after := db.jobs[i], Step(db, org, ResumeConnection(id, acknowledged, now)).jobs;
            && |after| == |db.jobs|
            && (after[i] != b <==>
                  b.connectionId == id && b.organizationId == org && b.status == WaitingReview && !Uncertain(b))
  {
    ConditionsMean(db.jobs[i]);
  }

  // ----- runs, campaigns and connections

  /** Every job belongs to its run's campaign and organisation. */
  ghost predicate Consistent(db: Database)
  {
    forall j, r :: j in db.jobs && r in db.runs && r.id == j.runId ==>
      r.organizationId == j.organizationId && r.campaignId == j.campaignId
  }

  predicate SameRun(b: CampaignRun, a: CampaignRun)
  {
    a.id == b.id && a.organizationId == b.organizationId && a.campaignId == b.campaignId
  }

  /** A request keeps every run's identity, and a cancelled run stays cancelled. */
  lemma StepRuns(db: Database, org: string, a: Action, k: nat)
    requires k < |db.runs|
    ensures |Step(db, org, a).runs| == |db.runs| && RunMoves(db.runs[k], Step(db, org, a).runs[k])
  {
    if Permitted(db, org, a) && SettlesJob(a) {
      SettlingRuns(db, FindJob(db.jobs, org, a.jobId), SettlingJob(db, org, a), a.capacity, a.now, k);
    } else if Permitted(db, org, a) {
      OtherRuns(db, org, a, k);
    }
  }

  predicate RunMoves(b: CampaignRun, a: CampaignRun)
  {
    SameRun(b, a) && (b.status == RunCancelled ==> a.status == RunCancelled)
  }

  lemma OtherRuns(db: Database, org: string, a: Action, k: nat)
    requires k < |db.runs| && Permitted(db, org, a) && !SettlesJob(a)
    ensures |RunsAfter(db, org, a)| == |db.runs| && RunMoves(db.runs[k], RunsAfter(db, org, a)[k])
  {
  }

  lemma SettlingRuns(db: Database, k: nat, j: Job, capacity: bool, now: int, i: nat)
    requires k < |db.jobs| && i < |db.runs|
    ensures var after := JobSettled(db, k, j, capacity, now).runs;
            |after| == |db.runs| && RunMoves(db.runs[i], after[i])
                && (i != RunById(db.runs, j.runId) ==> after[i] == db.runs[i])
  {
  }

  lemma StepKeepsConsistent(db: Database, org: string, a: Action)
    requires Consistent(db)
    ensures Consistent(Step(db, org, a))
  {
    var next := Step(db, org, a);
    forall j, r | j in next.jobs && r in next.runs && r.id == j.runId
      ensures r.organizationId == j.organizationId && r.campaignId == j.campaignId
    {
      var i, k := JobAt(next.jobs, j), RunAt(next.runs, r);
      StepCounts(db, org, a);
      StepMoves(db, org, a, i);
      StepRuns(db, org, a, k);
      assert db.jobs[i] in db.jobs && db.runs[k] in db.runs;
    }
  }

  ghost function JobAt(jobs: seq<Job>, j: Job): (i: nat)
    requires j in jobs
    ensures i < |jobs| && jobs[i] == j
  {
    var i :| 0 <= i < |jobs| && jobs[i] == j; i
  }

  ghost function RunAt(runs: seq<CampaignRun>, r: CampaignRun): (k: nat)
    requires r in runs
    ensures k < |runs| && runs[k] == r
  {
    var k :| 0 <= k < |runs| && runs[k] == r; k
  }

  lemma StepCounts(db: Database, org: string, a: Action)
    ensures |Step(db, org, a).jobs| == |db.jobs| && |Step(db, org, a).runs| == |db.runs|
  {
    StepJobs(db, org, a);
    if Permitted(db, org, a) { PermittedCounts(db, org, a); }
  }

  lemma PermittedCounts(db: Database, org: string, a: Action)
    requires Permitted(db, org, a)
    ensures |JobsAfter(db, org, a)| == |db.jobs| && |RunsAfter(db, org, a)| == |db.runs|
  {
  }
}
