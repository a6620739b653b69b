/**
 Staged runs: the health of a batch, the release of the next one (app/services/rollouts.py) and what happens to a run
 when one of its jobs is settled (finalize_run in app/services/delivery.py).
 */
module Rollout {
  import opened Common
  import opened JobTables

  predicate InRun(j: Job, r: CampaignRun) { j.organizationId == r.organizationId && j.runId == r.id }

  predicate InBatch(j: Job, r: CampaignRun, batch: int) { InRun(j, r) && j.batch == batch }

  const UNFINISHED: set<JobStatus> := {Held, Pending, Processing, Retry, WaitingReview}

  // ----- the health of a batch

  function InActiveBatch(r: CampaignRun, statuses: set<JobStatus>): Job -> bool
  {
    (j: Job) => InBatch(j, r, r.activeBatch) && j.status in statuses
  }

  function InRunWith(r: CampaignRun, statuses: set<JobStatus>): Job -> bool
  {
    (j: Job) => InRun(j, r) && j.status in statuses
  }

  function BatchCount(jobs: seq<Job>, r: CampaignRun, statuses: set<JobStatus>): nat
  {
    CountWhere(jobs, InActiveBatch(r, statuses))
  }

  /** Whether the active batch's share of unsuccessful results, in per cent rounded to two places, is above the run's
      limit. */
  predicate ThresholdExceeded(jobs: seq<Job>, r: CampaignRun)
  {
    var bad := BatchCount(jobs, r, {Failed, Skipped, Cancelled});
    var settled := bad + BatchCount(jobs, r, {Sent});
    if settled == 0 then 0 > r.failureThreshold else 20000 * bad > settled * (200 * r.failureThreshold + 1)
  }

  // ----- releasing a batch

  /** The job is held for the run's next batch. */
  predicate Awaits(j: Job, r: CampaignRun) { InBatch(j, r, r.activeBatch + 1) && j.status == Held }

  /** The places of the jobs that await release. */
  function Waiting(jobs: seq<Job>, r: CampaignRun): seq<nat>
  {
    if jobs == [] then [] else
      var n := |jobs| - 1;
      if Awaits(jobs[n], r) then Waiting(jobs[..n], r) + [n] else Waiting(jobs[..n], r)
  }

  predicate DueBefore(a: Job, b: Job)
  {
    || a.dueAt < b.dueAt
    || (a.dueAt == b.dueAt && (a.createdAt < b.createdAt || (a.createdAt == b.createdAt && a.id <= b.id)))
  }

  /** Places compared by the jobs they hold. */
  function DueOrder(jobs: seq<Job>): (nat, nat) -> bool
  {
    (a: nat, b: nat) => b >= |jobs| || (a < |jobs| && DueBefore(jobs[a], jobs[b]))
  }

  function ReleaseOrder(jobs: seq<Job>, r: CampaignRun): seq<nat>
  {
    Sort(DueOrder(jobs), Waiting(jobs, r))
  }

  function ReleasedJob(j: Job, due: int): Job
  {
    j.(status := Pending, dueAt := due, errorCode := None, errorMessage := None, finishedAt := None, lockedBy := None)
  }

  function AtLeast(lowest: int, n: int): int { if n < lowest then lowest else n }

  /** The jobs of the order, released one after another. */
  function ReleaseInOrder(jobs: seq<Job>, order: seq<nat>, base: int, spacing: int): (r: seq<Job>)
    requires forall p :: 0 <= p < |order| ==> order[p] < |jobs|
    ensures |r| == |jobs|
  {
    if order == [] then jobs else
      var n := |order| - 1;
      var before := ReleaseInOrder(jobs, order[..n], base, spacing);
      before[order[n] := ReleasedJob(before[order[n]], base + n * spacing)]
  }

  function AfterRelease(jobs: seq<Job>, r: CampaignRun, spacingSeconds: int, now: int): seq<Job>
  {
    OrderIsWaiting(jobs, r);
    ReleaseInOrder(jobs, ReleaseOrder(jobs, r), now + AtLeast(0, r.pauseSeconds), AtLeast(1, spacingSeconds))
  }

  predicate AwaitsAt(jobs: seq<Job>, r: CampaignRun, k: nat) { k < |jobs| && Awaits(jobs[k], r) }

  lemma {:induction false} WaitingMembers(jobs: seq<Job>, r: CampaignRun, k: nat)
    ensures k in Waiting(jobs, r) <==> AwaitsAt(jobs, r, k)
  {
    if jobs != [] {
      WaitingMembers(jobs[..|jobs| - 1], r, k);
    }
  }

  lemma {:induction false} WaitingDistinct(jobs: seq<Job>, r: CampaignRun)
    ensures Distinct(Waiting(jobs, r))
  {
    if jobs != [] {
      var n := |jobs| - 1;
      WaitingDistinct(jobs[..n], r);
      WaitingMembers(jobs[..n], r, n);
      DistinctConcat(Waiting(jobs[..n], r), [n]);
    }
  }

  /** The order lists every awaiting job once and no other. */
  lemma OrderIsWaiting(jobs: seq<Job>, r: CampaignRun)
    ensures Distinct(ReleaseOrder(jobs, r)) && |ReleaseOrder(jobs, r)| == |Waiting(jobs, r)|
    ensures forall k: nat :: k in ReleaseOrder(jobs, r) <==> AwaitsAt(jobs, r, k)
    ensures forall p :: 0 <= p < |ReleaseOrder(jobs, r)| ==> ReleaseOrder(jobs, r)[p] < |jobs|
  {
    var order, waiting := ReleaseOrder(jobs, r), Waiting(jobs, r);
    WaitingDistinct(jobs, r);
    SortPermutes(DueOrder(jobs), waiting);
    DistinctPermutes(waiting, order);
    forall k: nat ensures k in order <==> AwaitsAt(jobs, r, k) { WaitingMembers(jobs, r, k); }
    forall p | 0 <= p < |order| ensures order[p] < |jobs| { assert order[p] in order; }
  }

  /** The p-th released job is pending and due in its turn. */
  lemma {:induction false} ReleasedAt(jobs: seq<Job>, order: seq<nat>, base: int, spacing: int, p: nat)
    requires Distinct(order) && (forall q :: 0 <= q < |order| ==> order[q] < |jobs|) && p < |order|
    ensures ReleaseInOrder(jobs, order, base, spacing)[order[p]] == ReleasedJob(jobs[order[p]], base + p * spacing)
  {
    var n := |order| - 1;
    if p < n {
      ReleasedAt(jobs, order[..n], base, spacing, p);
    } else {
      UntouchedAt(jobs, order[..n], base, spacing, order[n]);
    }
  }

  lemma {:induction false} UntouchedAt(jobs: seq<Job>, order: seq<nat>, base: int, spacing: int, k: nat)
    requires (forall q :: 0 <= q < |order| ==> order[q] < |jobs|) && k < |jobs| && k !in order
    ensures ReleaseInOrder(jobs, order, base, spacing)[k] == jobs[k]
  {
    if order != [] {
      var n := |order| - 1;
      UntouchedAt(jobs, order[..n], base, spacing, k);
      assert order[n] in order;
    }
  }

  /** A release makes exactly the awaiting jobs pending, none of them due before the pause is over, and changes no
      other. */
  lemma ReleaseMeans(jobs: seq<Job>, r: CampaignRun, spacingSeconds: int, now: int, k: nat)
    requires k < |jobs|
    ensures var after := AfterRelease(jobs, r, spacingSeconds, now);
            && |after| == |jobs|
            && if Awaits(jobs[k], r)
               then after[k] == jobs[k].(status := Pending, dueAt := after[k].dueAt, errorCode := None,
                                         errorMessage := None, finishedAt := None, lockedBy := None)
                   && after[k].dueAt >= now + AtLeast(0, r.pauseSeconds)
               else after[k] == jobs[k]
  {
    var order := ReleaseOrder(jobs, r);
    var base, spacing := now + AtLeast(0, r.pauseSeconds), AtLeast(1, spacingSeconds);
    OrderIsWaiting(jobs, r);
    assert AwaitsAt(jobs, r, k) <==> k in order;
    if k in order {
      var p := PlaceIn(order, k);
      ReleasedAt(jobs, order, base, spacing, p);
      assert p * spacing >= 0;
    } else {
      UntouchedAt(jobs, order, base, spacing, k);
    }
  }

  /** Any two released jobs are due at least the campaign's spacing apart. */
  lemma ReleasedAreSpaced(jobs: seq<Job>, r: CampaignRun, spacingSeconds: int, now: int, i: nat, k: nat)
    requires i < |jobs| && k < |jobs| && i != k && Awaits(jobs[i], r) && Awaits(jobs[k], r)
    ensures var after := AfterRelease(jobs, r, spacingSeconds, now);
            || after[k].dueAt - after[i].dueAt >= AtLeast(1, spacingSeconds)
            || after[i].dueAt - after[k].dueAt >= AtLeast(1, spacingSeconds)
  {
    var order := ReleaseOrder(jobs, r);
    var base, spacing := now + AtLeast(0, r.pauseSeconds), AtLeast(1, spacingSeconds);
    OrderIsWaiting(jobs, r);
    assert AwaitsAt(jobs, r, i) && AwaitsAt(jobs, r, k);
    var p := PlaceIn(order, i);
    var q := PlaceIn(order, k);
    ReleasedAt(jobs, order, base, spacing, p);
    ReleasedAt(jobs, order, base, spacing, q);
    Spaced(p, q, spacing);
  }

  lemma PlaceIn(order: seq<nat>, k: nat) returns (p: nat)
    requires k in order
    ensures p < |order| && order[p] == k
  {
    p :| p < |order| && order[p] == k;
  }

  lemma {:induction false} TimesAtLeast(n: nat, spacing: int)
    requires n >= 1 && spacing >= 1
    ensures n * spacing >= spacing
  {
    if n > 1 {
      TimesAtLeast(n - 1, spacing);
      assert n * spacing == (n - 1) * spacing + spacing;
    }
  }

  lemma Spaced(p: nat, q: nat, spacing: int)
    requires p != q && spacing >= 1
    ensures q * spacing - p * spacing >= spacing || p * spacing - q * spacing >= spacing
  {
    if q > p {
      TimesAtLeast(q - p, spacing);
      assert (q - p) * spacing == q * spacing - p * spacing;
    } else {
      TimesAtLeast(p - q, spacing);
      assert (p - q) * spacing == p * spacing - q * spacing;
    }
  }

  /** One job comes before another by due time, then creation time, then id. */
  ghost predicate Earlier(a: Job, b: Job)
  {
    || a.dueAt < b.dueAt
    || (a.dueAt == b.dueAt && (a.createdAt < b.createdAt || (a.createdAt == b.createdAt && a.id < b.id)))
  }

  /** The jobs of the next batch that are held and come before the k-th. */
  ghost function HeldBefore(jobs: seq<Job>, r: CampaignRun, k: nat): set<nat>
    requires k < |jobs|
  {
    set i: nat | i < |jobs| && jobs[i].organizationId == r.organizationId && jobs[i].runId == r.id
            && jobs[i].batch == r.activeBatch + 1 && jobs[i].status == Held && Earlier(jobs[i], jobs[k])
  }

  lemma {:induction false} SizeOfDistinct(order: seq<nat>, places: set<nat>)
    requires Distinct(order) && forall k :: k in places <==> k in order
    ensures |places| == |order|
  {
    if order != [] {
      var n := |order| - 1;
      assert order == order[..n] + [order[n]];
      SizeOfDistinct(order[..n], places - {order[n]});
    }
  }

  lemma DueOrderIsTotal(jobs: seq<Job>)
    ensures TotalPreorder(DueOrder(jobs))
  {
  }

  lemma SortedPlaces(jobs: seq<Job>, order: seq<nat>, p: nat, q: nat)
    requires Sorted(DueOrder(jobs), order) && p < |order| && q < |order| && order[p] < |jobs| && order[q] < |jobs|
    requires Earlier(jobs[order[q]], jobs[order[p]])
    ensures q < p
  {
  }

  lemma HeldBeforeAre(jobs: seq<Job>, r: CampaignRun, p: nat)
    requires forall i, j :: 0 <= i < j < |jobs| ==> jobs[i].id != jobs[j].id
    requires p < |ReleaseOrder(jobs, r)| && ReleaseOrder(jobs, r)[p] < |jobs|
    ensures forall i :: i in HeldBefore(jobs, r, ReleaseOrder(jobs, r)[p]) <==> i in ReleaseOrder(jobs, r)[..p]
  {
    var order := ReleaseOrder(jobs, r);
    OrderIsWaiting(jobs, r);
    DueOrderIsTotal(jobs);
    SortSorted(DueOrder(jobs), Waiting(jobs, r));
    forall i | i in HeldBefore(jobs, r, order[p]) ensures i in order[..p] {
      assert AwaitsAt(jobs, r, i);
      var q := PlaceIn(order, i);
      SortedPlaces(jobs, order, p, q);
    }
    forall q: nat | q < p ensures order[q] in HeldBefore(jobs, r, order[p]) {
      assert order[q] in order && AwaitsAt(jobs, r, order[q]);
      assert DueOrder(jobs)(order[q], order[p]) && order[q] != order[p];
    }
  }

  /** The held jobs are released in order of due time, creation time and id, the first when the pause is over and each
      one spacing after the one before it. */
  lemma ReleasedInTurn(jobs: seq<Job>, r: CampaignRun, spacingSeconds: int, now: int, k: nat)
    requires forall i, j :: 0 <= i < j < |jobs| ==> jobs[i].id != jobs[j].id
    requires k < |jobs| && Awaits(jobs[k], r)
    ensures AfterRelease(jobs, r, spacingSeconds, now)[k].dueAt ==
            now + (if r.pauseSeconds < 0 then 0 else r.pauseSeconds)
            + |HeldBefore(jobs, r, k)| * (if spacingSeconds < 1 then 1 else spacingSeconds)
  {
    var order := ReleaseOrder(jobs, r);
    OrderIsWaiting(jobs, r);
    assert AwaitsAt(jobs, r, k);
    var p := PlaceIn(order, k);
    HeldBeforeAre(jobs, r, p);
    SizeOfDistinct(order[..p], HeldBefore(jobs, r, k));
    ReleasedAt(jobs, order, now + AtLeast(0, r.pauseSeconds), AtLeast(1, spacingSeconds), p);
  }

  // ----- settling a run

  predicate MoreBatches(r: CampaignRun) { r.staged && r.activeBatch < r.totalBatches }

  /** The active batch is done and nothing asks for a checkpoint. */
  predicate BatchIsClear(jobs: seq<Job>, r: CampaignRun)
  {
    && BatchCount(jobs, r, UNFINISHED) == 0
    && !r.checkpointRequired && !ThresholdExceeded(jobs, r)
  }

  /** Whether settling the run releases its next batch; `capacity` is what the queue's capacity check says. */
  predicate AutoReleases(jobs: seq<Job>, r: CampaignRun, capacity: bool)
  {
    && r.status !in {RunCancelled, RunAwaitingCheckpoint} && MoreBatches(r) && BatchIsClear(jobs, r)
    && (Waiting(jobs, r) != [] ==> capacity)
  }

  /** Whether the run ends. */
  predicate Ends(jobs: seq<Job>, r: CampaignRun)
  {
    r.status != RunCancelled && !MoreBatches(r) && CountWhere(jobs, InRunWith(r, UNFINISHED)) == 0
  }

  function SentCount(jobs: seq<Job>, r: CampaignRun): nat { CountWhere(jobs, InRunWith(r, {Sent})) }

  function FailedCount(jobs: seq<Job>, r: CampaignRun): nat
  {
    CountWhere(jobs, InRunWith(r, {Failed, Skipped}))
  }

  function NextBatch(r: CampaignRun): CampaignRun { r.(activeBatch := r.activeBatch + 1, status := RunRunning) }

  /** The run with its counters brought up to date. */
  function Counted(jobs: seq<Job>, r: CampaignRun): CampaignRun
  {
    r.(sentJobs := SentCount(jobs, r), failedJobs := FailedCount(jobs, r))
  }

  /** A counted run after it was settled. */
  function SettledRun(jobs: seq<Job>, r: CampaignRun, capacity: bool, now: int): CampaignRun
  {
    if r.status == RunCancelled then r
    else if MoreBatches(r) then
      if r.status == RunAwaitingCheckpoint then r
      else if BatchCount(jobs, r, UNFINISHED) != 0 then r
      else if r.checkpointRequired || ThresholdExceeded(jobs, r) || (Waiting(jobs, r) != [] && !capacity) then
        r.(status := RunAwaitingCheckpoint)
      else NextBatch(r)
    else if CountWhere(jobs, InRunWith(r, UNFINISHED)) != 0 then r
    else r.(finishedAt := Some(now),
            status := if r.sentJobs == r.totalJobs then RunCompleted else if r.sentJobs > 0 then RunPartial
                else RunFailed)
  }

  function SpacingOf(campaigns: map<string, Campaign>, r: CampaignRun): int
  {
    if r.campaignId in campaigns then campaigns[r.campaignId].spacingSeconds else 1
  }

  /** The campaign of a run that ended, unless it is scheduled again, cancelled or failed. */
  function SettledCampaigns(campaigns: map<string, Campaign>, jobs: seq<Job>, r: CampaignRun): map<string, Campaign>
  {
    if r.campaignId in campaigns && Ends(jobs, r) && campaigns[r.campaignId].nextRunAt.None?
       && campaigns[r.campaignId].status !in {CampaignCancelled, CampaignFailed}
    then campaigns[r.campaignId := campaigns[r.campaignId].(
                     status := if r.sentJobs > 0 then CampaignCompleted else CampaignFailed)]
    else campaigns
  }

  /** The tables after the k-th run was settled. */
  function Settled(db: Database, k: nat, capacity: bool, now: int): Database
    requires k < |db.runs|
  {
    var r := Counted(db.jobs, db.runs[k]);
    db.(jobs := if AutoReleases(db.jobs, r, capacity) then AfterRelease(db.jobs, r, SpacingOf(db.campaigns, r), now)
        else db.jobs,
        runs := db.runs[k := SettledRun(db.jobs, r, capacity, now)],
        campaigns := SettledCampaigns(db.campaigns, db.jobs, r))
  }

  // ----- what settling comes to, from the jobs alone

  /** The places of the run's jobs with one of these statuses. */
  ghost function PlacesInRun(jobs: seq<Job>, r: CampaignRun, statuses: set<JobStatus>): set<int>
  {
    set k | 0 <= k < |jobs| && jobs[k].organizationId == r.organizationId && jobs[k].runId == r.id
            && jobs[k].status in statuses
  }

  /** The places of the jobs with one of these statuses in one of the run's batches. */
  ghost function PlacesInBatch(jobs: seq<Job>, r: CampaignRun, batch: int, statuses: set<JobStatus>): set<int>
  {
    set k | 0 <= k < |jobs| && jobs[k].organizationId == r.organizationId && jobs[k].runId == r.id
            && jobs[k].batch == batch && jobs[k].status in statuses
  }

  /** The statuses that are no result. */
  const OPEN: set<JobStatus> := set s: JobStatus | s !in {Sent, Failed, Skipped, Cancelled}

  /** n/d rounded to the nearest whole number, a half to the even one. */
  ghost predicate RoundsTo(n: int, d: int, q: int)
  {
    && -d <= 2 * (n - q * d) <= d
    && (2 * (n - q * d) == d || 2 * (n - q * d) == -d ==> q % 2 == 0)
  }

  lemma RoundedAbove(n: int, d: int, q: int, even: int)
    requires d > 0 && RoundsTo(n, d, q) && even % 2 == 0
    ensures q > even <==> 2 * n > d * (2 * even + 1)
  {
    assert 2 * (n - q * d) == 2 * n - 2 * (q * d);
    assert d * (2 * even + 1) == 2 * (even * d) + d;
    if q > even {
      if q == even + 1 {
        assert q * d == even * d + d;
      } else {
        TimesAtLeastTwo(q - even, d);
        assert (q - even) * d == q * d - even * d;
      }
    } else {
      NotNegative(even - q, d);
      assert (even - q) * d == even * d - q * d;
    }
  }

  lemma TimesAtLeastTwo(n: int, d: int)
    requires n >= 2 && d > 0
    ensures n * d >= 2 * d
  {
    NotNegative(n - 2, d);
    assert (n - 2) * d == n * d - 2 * d;
  }

  lemma NotNegative(n: int, d: int)
    requires n >= 0 && d > 0
    ensures n * d >= 0
  {
  }

  /** The limit is exceeded exactly when the share of results other than sent, in hundredths of a per cent and rounded,
      is above it; without results the share is nil. */
  lemma ThresholdMeans(jobs: seq<Job>, r: CampaignRun, share: int)
    requires var bad := |PlacesInBatch(jobs, r, r.activeBatch, {Failed, Skipped, Cancelled})|;
             var settled := |PlacesInBatch(jobs, r, r.activeBatch, {Failed, Skipped, Cancelled, Sent})|;
             if settled == 0 then share == 0 else RoundsTo(10000 * bad, settled, share)
    ensures ThresholdExceeded(jobs, r) <==> share > 100 * r.failureThreshold
  {
    BatchCountMeans(jobs, r, {Failed, Skipped, Cancelled});
    BatchCountMeans(jobs, r, {Sent});
    SettledPlaces(jobs, r);
    var bad := |PlacesInBatch(jobs, r, r.activeBatch, {Failed, Skipped, Cancelled})|;
    var settled := |PlacesInBatch(jobs, r, r.activeBatch, {Failed, Skipped, Cancelled, Sent})|;
    if settled != 0 {
      RoundedAbove(10000 * bad, settled, share, 100 * r.failureThreshold);
    }
  }

  lemma SettledPlaces(jobs: seq<Job>, r: CampaignRun)
    ensures |PlacesInBatch(jobs, r, r.activeBatch, {Failed, Skipped, Cancelled, Sent})| ==
            |PlacesInBatch(jobs, r, r.activeBatch, {Failed, Skipped, Cancelled})|
            + |PlacesInBatch(jobs, r, r.activeBatch, {Sent})|
  {
    var bad := PlacesInBatch(jobs, r, r.activeBatch, {Failed, Skipped, Cancelled});
    var sent := PlacesInBatch(jobs, r, r.activeBatch, {Sent});
    assert PlacesInBatch(jobs, r, r.activeBatch, {Failed, Skipped, Cancelled, Sent}) == bad + sent && bad !! sent;
  }

  lemma BatchCountMeans(jobs: seq<Job>, r: CampaignRun, statuses: set<JobStatus>)
    ensures BatchCount(jobs, r, statuses) == |PlacesInBatch(jobs, r, r.activeBatch, statuses)|
  {
    CountIsSizeOf(jobs, InActiveBatch(r, statuses), PlacesInBatch(jobs, r, r.activeBatch, statuses));
  }

  lemma RunCountMeans(jobs: seq<Job>, r: CampaignRun, statuses: set<JobStatus>)
    ensures CountWhere(jobs, InRunWith(r, statuses)) == |PlacesInRun(jobs, r, statuses)|
  {
    CountIsSizeOf(jobs, InRunWith(r, statuses), PlacesInRun(jobs, r, statuses));
  }

  lemma NoneInside(places: set<int>)
    ensures |places| == 0 <==> places == {}
  {
  }

  /** A run that has further batches, after it was settled: while its batch has open jobs nothing moves; then it asks
      for a checkpoint, if one is due or the queue has no room for the jobs held, or goes on to the next batch. */
  ghost predicate StagedRunSettled(jobs: seq<Job>, r: CampaignRun, capacity: bool, after: CampaignRun,
                                   jobsAfter: seq<Job>, spacing: int, now: int)
  {
    var released := jobsAfter == AfterRelease(jobs, r, spacing, now);
    && after.finishedAt == r.finishedAt
    && if r.status == RunAwaitingCheckpoint || PlacesInBatch(jobs, r, r.activeBatch, OPEN) != {} then
         after.status == r.status && after.activeBatch == r.activeBatch && jobsAfter == jobs
       else if r.checkpointRequired || ThresholdExceeded(jobs, r)
               || (PlacesInBatch(jobs, r, r.activeBatch + 1, {Held}) != {} && !capacity) then
         after.status == RunAwaitingCheckpoint && after.activeBatch == r.activeBatch && jobsAfter == jobs
       else after.status == RunRunning && after.activeBatch == r.activeBatch + 1 && released
  }

  /** A run without further batches, after it was settled: with open jobs nothing moves; otherwise it ends, completed
      if as many jobs were sent as it has, partial if fewer but some, else failed. */
  ghost predicate LastBatchSettled(jobs: seq<Job>, r: CampaignRun, after: CampaignRun, now: int)
  {
    var sent := |PlacesInRun(jobs, r, {Sent})|;
    && after.activeBatch == r.activeBatch
    && if PlacesInRun(jobs, r, OPEN) != {} then after.status == r.status && after.finishedAt == r.finishedAt
       else
         && after.finishedAt == Some(now)
         && (after.status == RunCompleted <==> sent == r.totalJobs)
         && (after.status == RunPartial <==> sent != r.totalJobs && sent > 0)
         && (after.status == RunFailed <==> sent != r.totalJobs && sent == 0)
  }

  /** The campaign, after its run was settled: it ends with the run, unless scheduled again, cancelled or failed,
      completed if any job was sent. */
  ghost predicate CampaignSettled(jobs: seq<Job>, r: CampaignRun, campaigns: map<string, Campaign>,
                                  after: map<string, Campaign>)
  {
    && after.Keys == campaigns.Keys
    && (forall id :: id in campaigns && id != r.campaignId ==> after[id] == campaigns[id])
    && (r.campaignId in campaigns ==>
         var c, d := campaigns[r.campaignId], after[r.campaignId];
         if r.status == RunCancelled || (r.staged && r.activeBatch < r.totalBatches)
            || PlacesInRun(jobs, r, OPEN) != {} || c.nextRunAt.Some?
            || c.status == CampaignCancelled || c.status == CampaignFailed
         then d == c
         else d.(status := c.status) == c
              && d.status == if PlacesInRun(jobs, r, {Sent}) != {} then CampaignCompleted else CampaignFailed)
  }

  /** Everything that settling a run does. */
  ghost predicate RunSettled(db: Database, k: nat, capacity: bool, now: int, after: Database)
    requires k < |db.runs|
  {
    && |after.runs| == |db.runs| && after.connections == db.connections && after.paused == db.paused
    && (forall i :: 0 <= i < |db.runs| && i != k ==> after.runs[i] == db.runs[i])
    && var r, s := db.runs[k], after.runs[k];
       && s.sentJobs == |PlacesInRun(db.jobs, r, {Sent})|
       && s.failedJobs == |PlacesInRun(db.jobs, r, {Failed, Skipped})|
       && s == r.(status := s.status, activeBatch := s.activeBatch, finishedAt := s.finishedAt,
                  sentJobs := s.sentJobs, failedJobs := s.failedJobs)
       && CampaignSettled(db.jobs, r, db.campaigns, after.campaigns)
       && if r.status == RunCancelled then
            after.jobs == db.jobs && s.status == RunCancelled && s.activeBatch == r.activeBatch
            && s.finishedAt == r.finishedAt
          else if r.staged && r.activeBatch < r.totalBatches then
            StagedRunSettled(db.jobs, r, capacity, s, after.jobs, SpacingOf(db.campaigns, r), now)
          else after.jobs == db.jobs && LastBatchSettled(db.jobs, r, s, now)
  }

  /** The counters play no part in which jobs belong to the run. */
  lemma CountedIsSameRun(jobs: seq<Job>, r: CampaignRun, statuses: set<JobStatus>, batch: int, spacing: int, now: int)
    ensures PlacesInRun(jobs, Counted(jobs, r), statuses) == PlacesInRun(jobs, r, statuses)
    ensures PlacesInBatch(jobs, Counted(jobs, r), batch, statuses) == PlacesInBatch(jobs, r, batch, statuses)
    ensures ThresholdExceeded(jobs, Counted(jobs, r)) <==> ThresholdExceeded(jobs, r)
    ensures Waiting(jobs, Counted(jobs, r)) == Waiting(jobs, r)
    ensures AfterRelease(jobs, Counted(jobs, r), spacing, now) == AfterRelease(jobs, r, spacing, now)
  {
    var counted := Counted(jobs, r);
    BatchCountMeans(jobs, r, {Failed, Skipped, Cancelled});
    BatchCountMeans(jobs, r, {Sent});
    BatchCountMeans(jobs, counted, {Failed, Skipped, Cancelled});
    BatchCountMeans(jobs, counted, {Sent});
    SameWaiting(jobs, counted, r);
  }

  lemma {:induction false} SameWaiting(jobs: seq<Job>, a: CampaignRun, b: CampaignRun)
    requires a.organizationId == b.organizationId && a.id == b.id && a.activeBatch == b.activeBatch
    ensures Waiting(jobs, a) == Waiting(jobs, b)
  {
    if jobs != [] { SameWaiting(jobs[..|jobs| - 1], a, b); }
  }

  lemma SomeWaiting(jobs: seq<Job>, r: CampaignRun)
    ensures Waiting(jobs, r) != [] <==> PlacesInBatch(jobs, r, r.activeBatch + 1, {Held}) != {}
  {
    var places := PlacesInBatch(jobs, r, r.activeBatch + 1, {Held});
    if Waiting(jobs, r) != [] {
      var k := Waiting(jobs, r)[0];
      WaitingMembers(jobs, r, k);
      assert k in places;
    }
    if k :| k in places {
      WaitingMembers(jobs, r, k);
    }
  }

  lemma OpenIsUnfinished()
    ensures OPEN == UNFINISHED
  {
    forall s: JobStatus ensures s in OPEN <==> s in UNFINISHED {
      assert s.Held? || s.Pending? || s.Processing? || s.Retry? || s.WaitingReview?
        || s.Sent? || s.Failed? || s.Cancelled? || s.Skipped?;
    }
  }

  lemma LastBatchMeans(jobs: seq<Job>, r: CampaignRun, capacity: bool, now: int)
    requires r.status != RunCancelled && !MoreBatches(r)
    ensures LastBatchSettled(jobs, r, SettledRun(jobs, Counted(jobs, r), capacity, now), now)
  {
    RunCountMeans(jobs, r, {Sent});
    OpenIsUnfinished();
    RunCountMeans(jobs, Counted(jobs, r), OPEN);
    CountedIsSameRun(jobs, r, OPEN, 0, 1, now);
    NoneInside(PlacesInRun(jobs, r, OPEN));
  }

  lemma StagedRunMeans(jobs: seq<Job>, r: CampaignRun, capacity: bool, spacing: int, now: int)
    requires r.status != RunCancelled && MoreBatches(r)
    ensures var counted := Counted(jobs, r);
            StagedRunSettled(jobs, r, capacity, SettledRun(jobs, counted, capacity, now),
                             if AutoReleases(jobs, counted, capacity) then AfterRelease(jobs, counted, spacing, now)
                             else jobs, spacing, now)
  {
    var counted := Counted(jobs, r);
    CountedIsSameRun(jobs, r, OPEN, r.activeBatch, spacing, now);
    OpenIsUnfinished();
    BatchCountMeans(jobs, counted, OPEN);
    NoneInside(PlacesInBatch(jobs, r, r.activeBatch, OPEN));
    SomeWaiting(jobs, r);
  }

  lemma CampaignMeans(campaigns: map<string, Campaign>, jobs: seq<Job>, r: CampaignRun)
    ensures CampaignSettled(jobs, r, campaigns, SettledCampaigns(campaigns, jobs, Counted(jobs, r)))
  {
    RunCountMeans(jobs, r, {Sent});
    OpenIsUnfinished();
    RunCountMeans(jobs, Counted(jobs, r), OPEN);
    CountedIsSameRun(jobs, r, OPEN, 0, 1, 0);
    NoneInside(PlacesInRun(jobs, r, OPEN));
    NoneInside(PlacesInRun(jobs, r, {Sent}));
  }

  lemma SettledMeans(db: Database, k: nat, capacity: bool, now: int)
    requires k < |db.runs|
    ensures RunSettled(db, k, capacity, now, Settled(db, k, capacity, now))
  {
    var r := db.runs[k];
    RunCountMeans(db.jobs, r, {Sent});
    RunCountMeans(db.jobs, r, {Failed, Skipped});
    CampaignMeans(db.campaigns, db.jobs, r);
    if r.status != RunCancelled {
      if MoreBatches(r) {
        StagedRunMeans(db.jobs, r, capacity, SpacingOf(db.campaigns, r), now);
      } else {
        LastBatchMeans(db.jobs, r, capacity, now);
      }
    }
  }
}
