/** The counting and daily bucketing of app/api/analytics.py, and the totals that have to agree. */
module Analytics {
  import opened Common

  datatype Entry = Entry(key: string, count: nat)

  /** A counter in insertion order, as a Python dictionary keeps it. */
  type Counter = seq<Entry>

  datatype JobRow = JobRow(status: string, campaignId: string, createdAt: int)

  const SENT := "sent"
  const FAILED := "failed"
  const WAITING_REVIEW := "waiting_review"

  function Get(c: Counter, key: string): nat
  {
    if c == [] then 0 else if c[0].key == key then c[0].count else Get(c[1..], key)
  }

  function Bump(c: Counter, key: string): Counter
  {
    if c == [] then [Entry(key, 1)]
    else if c[0].key == key then [Entry(key, c[0].count + 1)] + c[1..]
    else [c[0]] + Bump(c[1..], key)
  }

  function Total(c: Counter): nat { if c == [] then 0 else c[0].count + Total(c[1..]) }

  predicate HasKey(c: Counter, key: string) { exists e :: e in c && e.key == key }

  ghost predicate DistinctKeys(c: Counter)
  {
    forall i, j :: 0 <= i < j < |c| ==> c[i].key != c[j].key
  }

  lemma {:induction false} BumpCounts(c: Counter, key: string)
    ensures Total(Bump(c, key)) == Total(c) + 1
    ensures forall k :: Get(Bump(c, key), k) == Get(c, k) + (if k == key then 1 else 0)
    ensures forall k :: HasKey(Bump(c, key), k) <==> HasKey(c, k) || k == key
  {
    var r := Bump(c, key);
    if c != [] && c[0].key != key {
      BumpCounts(c[1..], key);
      assert r[1..] == Bump(c[1..], key);
      forall k ensures HasKey(r, k) <==> HasKey(c, k) || k == key {
        HasKeySplit(c, k);
        HasKeySplit(r, k);
      }
    } else if c != [] {
      assert r[1..] == c[1..];
      forall k ensures HasKey(r, k) <==> HasKey(c, k) || k == key {
        HasKeySplit(c, k);
        HasKeySplit(r, k);
      }
    } else {
      forall k ensures HasKey(r, k) <==> k == key { HasKeySplit(r, k); }
    }
  }

  lemma HasKeySplit(c: Counter, key: string)
    requires c != []
    ensures HasKey(c, key) <==> c[0].key == key || HasKey(c[1..], key)
  {
    HasKeyCons(c[0], c[1..], key);
    HeadAndTail(c);
  }

  lemma DistinctCons(c: Counter)
    requires c != []
    ensures DistinctKeys(c) <==> DistinctKeys(c[1..]) && !HasKey(c[1..], c[0].key)
  {
    var rest := c[1..];
    assert forall i :: 0 <= i < |rest| ==> rest[i] == c[i + 1];
    if DistinctKeys(c) {
      forall e | e in rest ensures e.key != c[0].key {
        var i :| 0 <= i < |rest| && rest[i] == e;
      }
    }
    if DistinctKeys(rest) && !HasKey(rest, c[0].key) {
      forall i, j | 0 <= i < j < |c| ensures c[i].key != c[j].key {
        assert rest[j - 1] in rest;
      }
    }
  }

  lemma {:induction false} BumpFacts(c: Counter, key: string)
    requires DistinctKeys(c)
    ensures DistinctKeys(Bump(c, key)) && Total(Bump(c, key)) == Total(c) + 1
    ensures forall k :: Get(Bump(c, key), k) == Get(c, k) + (if k == key then 1 else 0)
  {
    BumpCounts(c, key);
    var r := Bump(c, key);
    if c != [] {
      DistinctCons(c);
      DistinctCons(r);
      if c[0].key != key {
        BumpFacts(c[1..], key);
        BumpCounts(c[1..], key);
        assert r[1..] == Bump(c[1..], key);
      } else {
        assert r[1..] == c[1..];
      }
    }
  }

  lemma HasKeyCons(e: Entry, c: Counter, key: string)
    ensures HasKey([e] + c, key) <==> e.key == key || HasKey(c, key)
  {
    assert e in [e] + c;
    if HasKey(c, key) {
      var x :| x in c && x.key == key;
      assert x in [e] + c;
    }
  }

  // ----- status rows

  /** The keys a report lists: the labelled ones in order, then the others sorted. */
  function ReportKeys(c: Counter, labels: seq<string>, le: (string, string) -> bool): seq<string>
  {
    labels + Sort(le, Unlabelled(c, labels))
  }

  function Unlabelled(c: Counter, labels: seq<string>): seq<string>
  {
    if c == [] then [] else (if c[0].key in labels then [] else [c[0].key]) + Unlabelled(c[1..], labels)
  }

  function RowsFor(keys: seq<string>, c: Counter): Counter
  {
    if keys == [] then [] else
      (if Get(c, keys[0]) != 0 then [Entry(keys[0], Get(c, keys[0]))] else []) + RowsFor(keys[1..], c)
  }

  function StatusRows(c: Counter, labels: seq<string>, le: (string, string) -> bool): Counter
  {
    RowsFor(ReportKeys(c, labels, le), c)
  }

  function SumGet(keys: seq<string>, c: Counter): nat
  {
    if keys == [] then 0 else Get(c, keys[0]) + SumGet(keys[1..], c)
  }

  lemma {:induction false} RowsForTotal(keys: seq<string>, c: Counter)
    ensures Total(RowsFor(keys, c)) == SumGet(keys, c)
  {
    if keys != [] {
      RowsForTotal(keys[1..], c);
      var rest := RowsFor(keys[1..], c);
      if Get(c, keys[0]) != 0 {
        assert RowsFor(keys, c)[1..] == rest;
      } else {
        assert RowsFor(keys, c) == rest;
      }
    }
  }

  lemma {:induction false} SumGetCons(keys: seq<string>, c: Counter)
    requires c != [] && DistinctKeys(c) && Distinct(keys)
    ensures SumGet(keys, c) == SumGet(keys, c[1..]) + if c[0].key in keys then c[0].count else 0
  {
    if keys != [] {
      SumGetCons(keys[1..], c);
      if keys[0] == c[0].key {
        AbsentKey(c[1..], keys[0]);
        assert keys[0] !in keys[1..];
      }
    }
  }

  lemma {:induction false} AbsentKey(c: Counter, key: string)
    requires forall i :: 0 <= i < |c| ==> c[i].key != key
    ensures Get(c, key) == 0
  {
    if c != [] { AbsentKey(c[1..], key); }
  }

  lemma {:induction false} SumGetIsTotal(keys: seq<string>, c: Counter)
    requires DistinctKeys(c) && Distinct(keys) && forall e :: e in c ==> e.key in keys
    ensures SumGet(keys, c) == Total(c)
  {
    if c == [] {
      SumGetEmpty(keys);
    } else {
      SumGetCons(keys, c);
      SumGetIsTotal(keys, c[1..]);
      assert c[0] in c;
    }
  }

  lemma {:induction false} SumGetEmpty(keys: seq<string>)
    ensures SumGet(keys, []) == 0
  {
    if keys != [] { SumGetEmpty(keys[1..]); }
  }

  lemma {:induction false} UnlabelledFacts(c: Counter, labels: seq<string>)
    requires DistinctKeys(c)
    ensures Distinct(Unlabelled(c, labels))
    ensures forall k :: k in Unlabelled(c, labels) <==> k !in labels && HasKey(c, k)
  {
    if c != [] {
      var rest := Unlabelled(c[1..], labels);
      UnlabelledFacts(c[1..], labels);
      assert c == [c[0]] + c[1..];
      forall k ensures HasKey(c, k) <==> c[0].key == k || HasKey(c[1..], k) { HasKeyCons(c[0], c[1..], k); }
      forall e | e in c[1..] ensures e.key != c[0].key {
        var i :| 0 <= i < |c[1..]| && c[1..][i] == e;
        assert c[i + 1] == e;
      }
    }
  }

  /** The status rows of a report add up to the counter they come from, unknown statuses included. */
  lemma StatusRowsAddUp(c: Counter, labels: seq<string>, le: (string, string) -> bool)
    requires DistinctKeys(c) && Distinct(labels)
    ensures Total(StatusRows(c, labels, le)) == Total(c)
  {
    var extra := Unlabelled(c, labels);
    UnlabelledFacts(c, labels);
    SortPermutes(le, extra);
    DistinctPermutes(extra, Sort(le, extra));
    DistinctConcat(labels, Sort(le, extra));
    forall e | e in c ensures e.key in ReportKeys(c, labels, le) {
      assert HasKey(c, e.key);
    }
    RowsForTotal(ReportKeys(c, labels, le), c);
    SumGetIsTotal(ReportKeys(c, labels, le), c);
  }

  /** In a listing of keys, the first comes before the second: labelled keys in the order of the labels, then the
      others as they are sorted. */
  ghost predicate ListedFirst(labels: seq<string>, le: (string, string) -> bool, a: string, b: string)
  {
    if a in labels && b in labels then exists i, j :: 0 <= i < j < |labels| && labels[i] == a && labels[j] == b
    else a in labels || (b !in labels && le(a, b))
  }

  lemma {:induction false} RowsForMembers(keys: seq<string>, c: Counter)
    ensures forall e :: e in RowsFor(keys, c) <==> e.key in keys && e.count == Get(c, e.key) != 0
  {
    if keys != [] {
      RowsForMembers(keys[1..], c);
      HeadAndTail(keys);
    }
  }

  ghost predicate Ordered(keys: seq<string>, listed: Counter)
  {
    forall i, j :: 0 <= i < j < |listed| ==>
      exists p, q :: 0 <= p < q < |keys| && keys[p] == listed[i].key && keys[q] == listed[j].key
  }

  lemma {:induction false} RowsForOrder(keys: seq<string>, c: Counter)
    ensures Ordered(keys, RowsFor(keys, c))
  {
    if keys != [] {
      var rest, all := RowsFor(keys[1..], c), RowsFor(keys, c);
      RowsForOrder(keys[1..], c);
      RowsForMembers(keys[1..], c);
      var shift := |all| - |rest|;
      forall i, j | 0 <= i < j < |all|
        ensures exists p, q :: 0 <= p < q < |keys| && keys[p] == all[i].key && keys[q] == all[j].key
      {
        assert all[j] == rest[j - shift];
        if i < shift {
          assert rest[j - shift].key in keys[1..];
          var q :| 0 <= q < |keys[1..]| && keys[1..][q] == all[j].key;
          assert keys[0] == all[i].key && keys[q + 1] == all[j].key;
        } else {
          assert all[i] == rest[i - shift];
          var p, q :| 0 <= p < q < |keys[1..]| && keys[1..][p] == all[i].key && keys[1..][q] == all[j].key;
          assert keys[p + 1] == all[i].key && keys[q + 1] == all[j].key;
        }
      }
    }
  }

  /** The status rows list every status that occurs, once and with its count: the labelled ones in the order of the
      labels, then the others in their sorted order. */
  lemma StatusRowsMean(c: Counter, labels: seq<string>, le: (string, string) -> bool)
    requires DistinctKeys(c) && Distinct(labels) && TotalPreorder(le)
    ensures var listed := StatusRows(c, labels, le);
            && (forall e :: e in listed <==> e.count == Get(c, e.key) != 0)
            && (forall i, j :: 0 <= i < j < |listed| ==>
                 listed[i].key != listed[j].key && ListedFirst(labels, le, listed[i].key, listed[j].key))
  {
    var extra := Unlabelled(c, labels);
    var sorted := Sort(le, extra);
    var keys, listed := labels + sorted, StatusRows(c, labels, le);
    UnlabelledFacts(c, labels);
    SortPermutes(le, extra);
    DistinctPermutes(extra, sorted);
    SortSorted(le, extra);
    DistinctConcat(labels, sorted);
    RowsForMembers(keys, c);
    RowsForOrder(keys, c);
    forall e: Entry | e.count == Get(c, e.key) != 0 ensures e in listed {
      if !HasKey(c, e.key) { AbsentKey(c, e.key); }
    }
    forall i, j | 0 <= i < j < |listed|
      ensures listed[i].key != listed[j].key && ListedFirst(labels, le, listed[i].key, listed[j].key)
    {
      var p, q :| 0 <= p < q < |keys| && keys[p] == listed[i].key && keys[q] == listed[j].key;
      KeysInOrder(labels, sorted, le, p, q);
    }
  }

  lemma KeysInOrder(labels: seq<string>, sorted: seq<string>, le: (string, string) -> bool, p: nat, q: nat)
    requires p < q < |labels + sorted| && Distinct(labels + sorted) && Sorted(le, sorted)
    ensures (labels + sorted)[p] != (labels + sorted)[q]
    ensures ListedFirst(labels, le, (labels + sorted)[p], (labels + sorted)[q])
  {
    DistinctConcat(labels, sorted);
    var keys := labels + sorted;
    if q < |labels| {
      assert labels[p] == keys[p] && labels[q] == keys[q];
    } else {
      assert keys[q] == sorted[q - |labels|] && keys[q] in sorted;
      if p >= |labels| { assert keys[p] == sorted[p - |labels|] && keys[p] in sorted; }
    }
  }

  // ----- counting rows

  function OfStatus(status: string): JobRow -> bool { (r: JobRow) => r.status == status }

  ghost function WithStatus(rows: seq<JobRow>, status: string): set<int>
  {
    set k | 0 <= k < |rows| && rows[k].status == status
  }

  method CountStatuses(rows: seq<JobRow>) returns (c: Counter)
    ensures DistinctKeys(c) && Total(c) == |rows|
    ensures forall status :: Get(c, status) == |WithStatus(rows, status)|
  {
    c := [];
    for i := 0 to |rows|
      invariant DistinctKeys(c) && Total(c) == i
      invariant forall status :: Get(c, status) == CountWhere(rows[..i], OfStatus(status))
    {
      BumpFacts(c, rows[i].status);
      c := Bump(c, rows[i].status);
      assert rows[..i + 1][..i] == rows[..i];
    }
    assert rows[..|rows|] == rows;
    forall status ensures Get(c, status) == |WithStatus(rows, status)| {
      CountIsSizeOf(rows, OfStatus(status), WithStatus(rows, status));
    }
  }

  datatype CampaignCounts = CampaignCounts(campaignId: string, statuses: Counter)

  function BumpCampaign(groups: seq<CampaignCounts>, row: JobRow): seq<CampaignCounts>
  {
    if groups == [] then [CampaignCounts(row.campaignId, Bump([], row.status))]
    else if groups[0].campaignId == row.campaignId then
      [groups[0].(statuses := Bump(groups[0].statuses, row.status))] + groups[1..]
    else [groups[0]] + BumpCampaign(groups[1..], row)
  }

  ghost predicate WellCounted(groups: seq<CampaignCounts>) { forall g :: g in groups ==> DistinctKeys(g.statuses) }

  function SumTotals(groups: seq<CampaignCounts>): nat
  {
    if groups == [] then 0 else Total(groups[0].statuses) + SumTotals(groups[1..])
  }

  function SumStatus(groups: seq<CampaignCounts>, status: string): nat
  {
    if groups == [] then 0 else Get(groups[0].statuses, status) + SumStatus(groups[1..], status)
  }

  lemma {:induction false} BumpCampaignFacts(groups: seq<CampaignCounts>, row: JobRow, status: string)
    requires WellCounted(groups)
    ensures var r := BumpCampaign(groups, row);
            && WellCounted(r) && SumTotals(r) == SumTotals(groups) + 1
            && SumStatus(r, status) == SumStatus(groups, status) + (if row.status == status then 1 else 0)
  {
    if groups == [] {
      BumpFacts([], row.status);
    } else if groups[0].campaignId == row.campaignId {
      assert groups[0] in groups;
      BumpFacts(groups[0].statuses, row.status);
      assert BumpCampaign(groups, row)[1..] == groups[1..];
    } else {
      BumpCampaignFacts(groups[1..], row, status);
      assert BumpCampaign(groups, row)[1..] == BumpCampaign(groups[1..], row);
    }
  }

  predicate ReportLe(a: CampaignCounts, b: CampaignCounts)
  {
    Total(a.statuses) > Total(b.statuses)
    || (Total(a.statuses) == Total(b.statuses) && Get(a.statuses, SENT) >= Get(b.statuses, SENT))
  }

  lemma {:induction false} SumsSurviveInsert(x: CampaignCounts, groups: seq<CampaignCounts>, status: string)
    ensures SumTotals(Insert(ReportLe, x, groups)) == Total(x.statuses) + SumTotals(groups)
    ensures SumStatus(Insert(ReportLe, x, groups), status) == Get(x.statuses, status) + SumStatus(groups, status)
  {
    var r := Insert(ReportLe, x, groups);
    if groups == [] || ReportLe(x, groups[0]) {
      assert r[1..] == groups;
    } else {
      SumsSurviveInsert(x, groups[1..], status);
      assert r[1..] == Insert(ReportLe, x, groups[1..]);
    }
  }

  lemma {:induction false} SumsSurviveSort(groups: seq<CampaignCounts>, status: string)
    ensures SumTotals(Sort(ReportLe, groups)) == SumTotals(groups)
    ensures SumStatus(Sort(ReportLe, groups), status) == SumStatus(groups, status)
  {
    if groups != [] {
      SumsSurviveSort(groups[1..], status);
      SumsSurviveInsert(groups[0], Sort(ReportLe, groups[1..]), status);
    }
  }

  function OfCampaign(campaignId: string, status: string): JobRow -> bool
  {
    (r: JobRow) => r.campaignId == campaignId && r.status == status
  }

  function InCampaign(campaignId: string): JobRow -> bool { (r: JobRow) => r.campaignId == campaignId }

  /** The group counts exactly its campaign's rows. */
  ghost predicate Counts(g: CampaignCounts, rows: seq<JobRow>)
  {
    && (forall status :: Get(g.statuses, status) == CountWhere(rows, OfCampaign(g.campaignId, status)))
    && Total(g.statuses) == CountWhere(rows, InCampaign(g.campaignId))
  }

  /** Every group counts exactly its campaign's rows, no campaign has two groups, and none is missing. */
  ghost predicate Exact(groups: seq<CampaignCounts>, rows: seq<JobRow>)
  {
    && (forall i, j :: 0 <= i < j < |groups| ==> groups[i].campaignId != groups[j].campaignId)
    && (forall i :: 0 <= i < |groups| ==> Counts(groups[i], rows))
    && (forall r :: r in rows ==> exists i :: 0 <= i < |groups| && groups[i].campaignId == r.campaignId)
  }

  lemma {:induction false} BumpCampaignShape(groups: seq<CampaignCounts>, row: JobRow) returns (k: nat)
    ensures k <= |groups| && forall i :: 0 <= i < k ==> groups[i].campaignId != row.campaignId
    ensures k < |groups| ==> groups[k].campaignId == row.campaignId
                             && BumpCampaign(groups, row) ==
                                  groups[k := groups[k].(statuses := Bump(groups[k].statuses, row.status))]
    ensures k == |groups| ==>
              BumpCampaign(groups, row) == groups + [CampaignCounts(row.campaignId, Bump([], row.status))]
  {
    if groups == [] || groups[0].campaignId == row.campaignId {
      k := 0;
    } else {
      var n := BumpCampaignShape(groups[1..], row);
      k := n + 1;
    }
  }

  lemma CountAppend<T>(rows: seq<T>, row: T, p: T -> bool)
    ensures CountWhere(rows + [row], p) == CountWhere(rows, p) + if p(row) then 1 else 0
  {
    assert (rows + [row])[..|rows|] == rows;
  }

  lemma OtherGroupCounts(g: CampaignCounts, rows: seq<JobRow>, row: JobRow)
    requires Counts(g, rows) && g.campaignId != row.campaignId
    ensures Counts(g, rows + [row])
  {
    forall status { CountAppend(rows, row, OfCampaign(g.campaignId, status)); }
    CountAppend(rows, row, InCampaign(g.campaignId));
  }

  lemma BumpedGroupCounts(g: CampaignCounts, rows: seq<JobRow>, row: JobRow)
    requires Counts(g, rows) && DistinctKeys(g.statuses) && g.campaignId == row.campaignId
    ensures Counts(g.(statuses := Bump(g.statuses, row.status)), rows + [row])
  {
    BumpFacts(g.statuses, row.status);
    forall status { CountAppend(rows, row, OfCampaign(g.campaignId, status)); }
    CountAppend(rows, row, InCampaign(g.campaignId));
  }

  lemma NothingCounted(rows: seq<JobRow>, campaignId: string)
    requires forall r :: r in rows ==> r.campaignId != campaignId
    ensures Counts(CampaignCounts(campaignId, []), rows)
  {
    forall status { CountNone(rows, OfCampaign(campaignId, status)); }
    CountNone(rows, InCampaign(campaignId));
  }

  lemma BumpKeepsExact(groups: seq<CampaignCounts>, rows: seq<JobRow>, row: JobRow)
    requires WellCounted(groups) && Exact(groups, rows)
    ensures Exact(BumpCampaign(groups, row), rows + [row])
  {
    var k := BumpCampaignShape(groups, row);
    var next := BumpCampaign(groups, row);
    forall i | 0 <= i < |next| ensures Counts(next[i], rows + [row]) {
      if i != k {
        OtherGroupCounts(groups[i], rows, row);
      } else if k < |groups| {
        assert groups[k] in groups;
        BumpedGroupCounts(groups[k], rows, row);
      } else {
        NothingCounted(rows, row.campaignId);
        BumpedGroupCounts(CampaignCounts(row.campaignId, []), rows, row);
      }
    }
    forall r | r in rows + [row] ensures exists i :: 0 <= i < |next| && next[i].campaignId == r.campaignId {
      if r in rows {
        var i :| 0 <= i < |groups| && groups[i].campaignId == r.campaignId;
        assert next[i].campaignId == r.campaignId;
      } else {
        assert next[k].campaignId == r.campaignId;
      }
    }
  }

  lemma {:induction false} CountNone<T>(rows: seq<T>, p: T -> bool)
    requires forall r :: r in rows ==> !p(r)
    ensures CountWhere(rows, p) == 0
  {
    if rows != [] { CountNone(rows[..|rows| - 1], p); }
  }

  /** The groups of the report's first loop, one per campaign in order of appearance. */
  class CampaignTable {
    var groups: seq<CampaignCounts>

    constructor ()
      ensures groups == []
    {
      groups := [];
    }

    method CountJobs(rows: seq<JobRow>)
      requires groups == []
      modifies this
      ensures WellCounted(groups) && SumTotals(groups) == |rows| && Exact(groups, rows)
      ensures forall status :: SumStatus(groups, status) == CountWhere(rows, OfStatus(status))
    {
      for i := 0 to |rows|
        invariant WellCounted(groups) && SumTotals(groups) == i && Exact(groups, rows[..i])
        invariant forall status :: SumStatus(groups, status) == CountWhere(rows[..i], OfStatus(status))
      {
        TakeOneMore(rows, i);
        BumpKeepsExact(groups, rows[..i], rows[i]);
        BumpKeepsSums(groups, rows[..i], rows[i]);
        groups := BumpCampaign(groups, rows[i]);
      }
      assert rows[..|rows|] == rows;
    }
  }

  lemma BumpKeepsSums(groups: seq<CampaignCounts>, rows: seq<JobRow>, row: JobRow)
    requires WellCounted(groups) && forall status :: SumStatus(groups, status) == CountWhere(rows, OfStatus(status))
    ensures var next := BumpCampaign(groups, row);
            && WellCounted(next) && SumTotals(next) == SumTotals(groups) + 1
            && forall status :: SumStatus(next, status) == CountWhere(rows + [row], OfStatus(status))
  {
    BumpCampaignFacts(groups, row, SENT);
    forall status ensures SumStatus(BumpCampaign(groups, row), status) == CountWhere(rows + [row], OfStatus(status)) {
      BumpCampaignFacts(groups, row, status);
      CountAppend(rows, row, OfStatus(status));
    }
  }

  ghost function DeliveriesOf(rows: seq<JobRow>, campaignId: string): set<int>
  {
    set k | 0 <= k < |rows| && rows[k].campaignId == campaignId
  }

  ghost function DeliveriesWith(rows: seq<JobRow>, campaignId: string, status: string): set<int>
  {
    set k | 0 <= k < |rows| && rows[k].campaignId == campaignId && rows[k].status == status
  }

  /** The first campaign has more deliveries than the second, or as many and at least as many sent. */
  ghost predicate Busier(rows: seq<JobRow>, a: string, b: string)
  {
    || |DeliveriesOf(rows, a)| > |DeliveriesOf(rows, b)|
    || (|DeliveriesOf(rows, a)| == |DeliveriesOf(rows, b)|
        && |DeliveriesWith(rows, a, "sent")| >= |DeliveriesWith(rows, b, "sent")|)
  }

  /** The campaigns with deliveries, each once, with its deliveries counted status by status, the busiest first. */
  ghost predicate Reports(report: seq<CampaignCounts>, rows: seq<JobRow>)
  {
    && (forall i, status :: 0 <= i < |report| ==>
          Get(report[i].statuses, status) == |DeliveriesWith(rows, report[i].campaignId, status)|)
    && (forall r :: r in rows ==> exists i :: 0 <= i < |report| && report[i].campaignId == r.campaignId)
    && (forall i, j :: 0 <= i < j < |report| ==>
          report[i].campaignId != report[j].campaignId
          && Busier(rows, report[i].campaignId, report[j].campaignId))
  }

  /** The campaign report before it is cut to twenty rows. Its rows add up to all deliveries, in total and by
      status. */
  method CampaignReport(rows: seq<JobRow>) returns (report: seq<CampaignCounts>)
    ensures Reports(report, rows)
    ensures SumTotals(report) == |rows|
    ensures forall status :: SumStatus(report, status) == |WithStatus(rows, status)|
  {
    var table := new CampaignTable();
    table.CountJobs(rows);
    report := Sort(ReportLe, table.groups);
    SortedReport(table.groups, rows);
    forall status ensures SumStatus(report, status) == |WithStatus(rows, status)| {
      SumsSurviveSort(table.groups, status);
      CountIsSizeOf(rows, OfStatus(status), WithStatus(rows, status));
    }
    SumsSurviveSort(table.groups, SENT);
  }

  lemma GroupCounts(g: CampaignCounts, rows: seq<JobRow>)
    requires Counts(g, rows)
    ensures forall status :: Get(g.statuses, status) == |DeliveriesWith(rows, g.campaignId, status)|
    ensures Total(g.statuses) == |DeliveriesOf(rows, g.campaignId)|
  {
    forall status ensures Get(g.statuses, status) == |DeliveriesWith(rows, g.campaignId, status)| {
      CountIsSizeOf(rows, OfCampaign(g.campaignId, status), DeliveriesWith(rows, g.campaignId, status));
    }
    CountIsSizeOf(rows, InCampaign(g.campaignId), DeliveriesOf(rows, g.campaignId));
  }

  ghost predicate BusiestFirst(report: seq<CampaignCounts>)
  {
    forall i, j :: 0 <= i < j < |report| ==>
      report[i].campaignId != report[j].campaignId && ReportLe(report[i], report[j])
  }

  lemma SortedGroups(groups: seq<CampaignCounts>)
    requires forall i, j :: 0 <= i < j < |groups| ==> groups[i].campaignId != groups[j].campaignId
    ensures BusiestFirst(Sort(ReportLe, groups)) && forall g :: g in Sort(ReportLe, groups) <==> g in groups
  {
    var report := Sort(ReportLe, groups);
    SortPermutes(ReportLe, groups);
    assert Distinct(groups);
    DistinctPermutes(groups, report);
    SortSorted(ReportLe, groups);
    forall i, j | 0 <= i < j < |report| ensures report[i].campaignId != report[j].campaignId {
      assert report[i] in groups && report[j] in groups && report[i] != report[j];
    }
  }

  lemma MemberCounts(groups: seq<CampaignCounts>, rows: seq<JobRow>, g: CampaignCounts)
    requires Exact(groups, rows) && g in groups
    ensures forall status :: Get(g.statuses, status) == |DeliveriesWith(rows, g.campaignId, status)|
    ensures Total(g.statuses) == |DeliveriesOf(rows, g.campaignId)|
  {
    var k :| 0 <= k < |groups| && groups[k] == g;
    GroupCounts(groups[k], rows);
  }

  lemma SortedReport(groups: seq<CampaignCounts>, rows: seq<JobRow>)
    requires Exact(groups, rows)
    ensures Reports(Sort(ReportLe, groups), rows)
  {
    SortedGroups(groups);
    ReportOfGroups(groups, rows, Sort(ReportLe, groups));
  }

  lemma ReportOfGroups(groups: seq<CampaignCounts>, rows: seq<JobRow>, report: seq<CampaignCounts>)
    requires Exact(groups, rows) && forall g :: g in report <==> g in groups
    requires BusiestFirst(report)
    ensures Reports(report, rows)
  {
    forall i | 0 <= i < |report|
      ensures Total(report[i].statuses) == |DeliveriesOf(rows, report[i].campaignId)|
      ensures forall status ::
                Get(report[i].statuses, status) == |DeliveriesWith(rows, report[i].campaignId, status)|
    {
      assert report[i] in report;
      MemberCounts(groups, rows, report[i]);
    }
    forall i, j | 0 <= i < j < |report| ensures Busier(rows, report[i].campaignId, report[j].campaignId) {
      assert ReportLe(report[i], report[j]);
    }
    forall r | r in rows ensures exists i :: 0 <= i < |report| && report[i].campaignId == r.campaignId {
      var k :| 0 <= k < |groups| && groups[k].campaignId == r.campaignId;
      assert groups[k] in report;
    }
  }

  // ----- daily buckets

  datatype CandidateRow = CandidateRow(status: string, createdAt: int)

  const READY_STATUSES: set<string> := {"ready_for_review", "contacted"}

  datatype Point = Point(sent: nat, failed: nat, conversations: nat, messages: nat, candidates: nat, ready: nat)

  const EMPTY_POINT := Point(0, 0, 0, 0, 0, 0)

  /** What the daily report is made from: deliveries, creation times of conversations and inbound messages,
      candidates. */
  datatype Inputs = Inputs(jobs: seq<JobRow>, conversations: seq<int>, messages: seq<int>,
                           candidates: seq<CandidateRow>)

  /** The number of points the daily list has, from the first local day to the last. */
  function Days(first: int, last: int): nat { if last < first then 0 else last - first + 1 }

  function OnDay<T>(dayOf: T -> int, day: int, p: T -> bool): T -> bool
  {
    (r: T) => p(r) && dayOf(r) == day
  }

  predicate FailedOrWaiting(r: JobRow) { r.status == FAILED || r.status == WAITING_REVIEW }

  predicate IsReady(r: CandidateRow) { r.status in READY_STATUSES }

  predicate Always<T>(r: T) { true }

  function JobDay(localDay: int -> int): JobRow -> int { (r: JobRow) => localDay(r.createdAt) }

  function CandidateDay(localDay: int -> int): CandidateRow -> int { (r: CandidateRow) => localDay(r.createdAt) }

  function CountDay<T>(rows: seq<T>, dayOf: T -> int, day: int, p: T -> bool): nat
  {
    CountWhere(rows, OnDay(dayOf, day, p))
  }

  lemma CountDayAppend<T>(rows: seq<T>, row: T, dayOf: T -> int, day: int, p: T -> bool)
    ensures CountDay(rows + [row], dayOf, day, p) == CountDay(rows, dayOf, day, p) + if p(row) && dayOf(row) == day
              then 1 else 0
  {
    CountAppend(rows, row, OnDay(dayOf, day, p));
  }

  /** A point with a day's deliveries in it. */
  function WithJobs(point: Point, jobs: seq<JobRow>, localDay: int -> int, day: int): Point
  {
    point.(sent := CountDay(jobs, JobDay(localDay), day, OfStatus(SENT)),
           failed := CountDay(jobs, JobDay(localDay), day, FailedOrWaiting))
  }

  function WithConversations(point: Point, times: seq<int>, localDay: int -> int, day: int): Point
  {
    point.(conversations := CountDay(times, localDay, day, Always))
  }

  function WithMessages(point: Point, times: seq<int>, localDay: int -> int, day: int): Point
  {
    point.(messages := CountDay(times, localDay, day, Always))
  }

  function WithCandidates(point: Point, rows: seq<CandidateRow>, localDay: int -> int, day: int): Point
  {
    point.(candidates := CountDay(rows, CandidateDay(localDay), day, Always),
           ready := CountDay(rows, CandidateDay(localDay), day, IsReady))
  }

  lemma JobsAfter(rows: seq<JobRow>, row: JobRow, localDay: int -> int, day: int)
    ensures var before, after := WithJobs(EMPTY_POINT, rows, localDay, day),
              WithJobs(EMPTY_POINT, rows + [row], localDay, day);
            && after.sent == before.sent + (if row.status == SENT && localDay(row.createdAt) == day then 1 else 0)
            && after.failed == before.failed + (if FailedOrWaiting(row) && localDay(row.createdAt) == day then 1 else 0)
  {
    CountDayAppend(rows, row, JobDay(localDay), day, OfStatus(SENT));
    CountDayAppend(rows, row, JobDay(localDay), day, FailedOrWaiting);
  }

  lemma CandidatesAfter(rows: seq<CandidateRow>, row: CandidateRow, localDay: int -> int, day: int)
    ensures var before, after := WithCandidates(EMPTY_POINT, rows, localDay, day),
              WithCandidates(EMPTY_POINT, rows + [row], localDay, day);
            && after.candidates == before.candidates + (if localDay(row.createdAt) == day then 1 else 0)
            && after.ready == before.ready + (if IsReady(row) && localDay(row.createdAt) == day then 1 else 0)
  {
    CountDayAppend(rows, row, CandidateDay(localDay), day, Always);
    CountDayAppend(rows, row, CandidateDay(localDay), day, IsReady);
  }

  /** What the bucket of a day holds in the end. */
  function PointOf(inputs: Inputs, localDay: int -> int, day: int): Point
  {
    WithCandidates(WithMessages(WithConversations(WithJobs(EMPTY_POINT, inputs.jobs, localDay, day),
                                                  inputs.conversations, localDay, day),
                                inputs.messages, localDay, day),
                   inputs.candidates, localDay, day)
  }

  /** The deliveries of a local day with one of these statuses. */
  ghost function JobsOn(jobs: seq<JobRow>, localDay: int -> int, day: int, statuses: set<string>): set<int>
  {
    set k | 0 <= k < |jobs| && localDay(jobs[k].createdAt) == day && jobs[k].status in statuses
  }

  ghost function TimesOn(times: seq<int>, localDay: int -> int, day: int): set<int>
  {
    set k | 0 <= k < |times| && localDay(times[k]) == day
  }

  ghost function CandidatesOn(rows: seq<CandidateRow>, localDay: int -> int, day: int): set<int>
  {
    set k | 0 <= k < |rows| && localDay(rows[k].createdAt) == day
  }

  ghost function ReadyOn(rows: seq<CandidateRow>, localDay: int -> int, day: int): set<int>
  {
    set k | 0 <= k < |rows| && localDay(rows[k].createdAt) == day
            && (rows[k].status == "ready_for_review" || rows[k].status == "contacted")
  }

  /** The point of a day counts what happened on that day. */
  ghost predicate PointCounts(inputs: Inputs, localDay: int -> int, day: int, p: Point)
  {
    && p.sent == |JobsOn(inputs.jobs, localDay, day, {"sent"})|
    && p.failed == |JobsOn(inputs.jobs, localDay, day, {"failed", "waiting_review"})|
    && p.conversations == |TimesOn(inputs.conversations, localDay, day)|
    && p.messages == |TimesOn(inputs.messages, localDay, day)|
    && p.candidates == |CandidatesOn(inputs.candidates, localDay, day)|
    && p.ready == |ReadyOn(inputs.candidates, localDay, day)|
  }

  lemma JobsMean(jobs: seq<JobRow>, localDay: int -> int, day: int)
    ensures CountDay(jobs, JobDay(localDay), day, OfStatus(SENT)) == |JobsOn(jobs, localDay, day, {"sent"})|
    ensures CountDay(jobs, JobDay(localDay), day, FailedOrWaiting) ==
            |JobsOn(jobs, localDay, day, {"failed", "waiting_review"})|
  {
    CountIsSizeOf(jobs, OnDay(JobDay(localDay), day, OfStatus(SENT)), JobsOn(jobs, localDay, day, {"sent"}));
    CountIsSizeOf(jobs, OnDay(JobDay(localDay), day, FailedOrWaiting),
                  JobsOn(jobs, localDay, day, {"failed", "waiting_review"}));
  }

  lemma TimesMean(times: seq<int>, localDay: int -> int, day: int)
    ensures CountDay(times, localDay, day, Always) == |TimesOn(times, localDay, day)|
  {
    CountIsSizeOf(times, OnDay(localDay, day, Always), TimesOn(times, localDay, day));
  }

  lemma CandidatesMean(rows: seq<CandidateRow>, localDay: int -> int, day: int)
    ensures CountDay(rows, CandidateDay(localDay), day, Always) == |CandidatesOn(rows, localDay, day)|
    ensures CountDay(rows, CandidateDay(localDay), day, IsReady) == |ReadyOn(rows, localDay, day)|
  {
    CountIsSizeOf(rows, OnDay(CandidateDay(localDay), day, Always), CandidatesOn(rows, localDay, day));
    CountIsSizeOf(rows, OnDay(CandidateDay(localDay), day, IsReady), ReadyOn(rows, localDay, day));
  }

  lemma PointMeans(inputs: Inputs, localDay: int -> int, day: int)
    ensures PointCounts(inputs, localDay, day, PointOf(inputs, localDay, day))
  {
    JobsMean(inputs.jobs, localDay, day);
    TimesMean(inputs.conversations, localDay, day);
    TimesMean(inputs.messages, localDay, day);
    CandidatesMean(inputs.candidates, localDay, day);
  }

  /** The points by local day, as the report's loops fill them; a row whose day has no point is skipped. */
  class DailyTable {
    var daily: map<int, Point>

    /** An empty point for every local day from the first to the last. */
    constructor (first: int, last: int)
      ensures forall day :: day in daily <==> first <= day <= last
      ensures forall day :: day in daily ==> daily[day] == EMPTY_POINT
    {
      var points: map<int, Point> := map[];
      var cursor := first;
      while cursor <= last
        invariant first <= cursor && (cursor <= last + 1 || cursor == first)
        invariant forall day :: day in points <==> first <= day < cursor
        invariant forall day :: day in points ==> points[day] == EMPTY_POINT
      {
        points := points[cursor := EMPTY_POINT];
        cursor := cursor + 1;
      }
      daily := points;
    }

    method AddJobs(rows: seq<JobRow>, localDay: int -> int)
      requires forall day :: day in daily ==> daily[day].sent == 0 && daily[day].failed == 0
      modifies this
      ensures daily.Keys == old(daily.Keys)
      ensures forall day :: day in daily ==> daily[day] == WithJobs(old(daily)[day], rows, localDay, day)
    {
      for i := 0 to |rows|
        invariant daily.Keys == old(daily.Keys)
        invariant forall day :: day in daily ==> daily[day] == WithJobs(old(daily)[day], rows[..i], localDay, day)
      {
        TakeOneMore(rows, i);
        forall day { JobsAfter(rows[..i], rows[i], localDay, day); }
        var key := localDay(rows[i].createdAt);
        if key in daily {
          if rows[i].status == SENT {
            daily := daily[key := daily[key].(sent := daily[key].sent + 1)];
          } else if rows[i].status in {FAILED, WAITING_REVIEW} {
            daily := daily[key := daily[key].(failed := daily[key].failed + 1)];
          }
        }
      }
      assert rows[..|rows|] == rows;
    }

    method AddConversations(times: seq<int>, localDay: int -> int)
      requires forall day :: day in daily ==> daily[day].conversations == 0
      modifies this
      ensures daily.Keys == old(daily.Keys)
      ensures forall day :: day in daily ==> daily[day] == WithConversations(old(daily)[day], times, localDay, day)
    {
      for i := 0 to |times|
        invariant daily.Keys == old(daily.Keys)
        invariant forall day :: day in daily ==>
                    daily[day] == WithConversations(old(daily)[day], times[..i], localDay, day)
      {
        TakeOneMore(times, i);
        forall day { CountDayAppend(times[..i], times[i], localDay, day, Always); }
        var key := localDay(times[i]);
        if key in daily {
          daily := daily[key := daily[key].(conversations := daily[key].conversations + 1)];
        }
      }
      assert times[..|times|] == times;
    }

    method AddMessages(times: seq<int>, localDay: int -> int)
      requires forall day :: day in daily ==> daily[day].messages == 0
      modifies this
      ensures daily.Keys == old(daily.Keys)
      ensures forall day :: day in daily ==> daily[day] == WithMessages(old(daily)[day], times, localDay, day)
    {
      for i := 0 to |times|
        invariant daily.Keys == old(daily.Keys)
        invariant forall day :: day in daily ==> daily[day] == WithMessages(old(daily)[day], times[..i], localDay, day)
      {
        TakeOneMore(times, i);
        forall day { CountDayAppend(times[..i], times[i], localDay, day, Always); }
        var key := localDay(times[i]);
        if key in daily {
          daily := daily[key := daily[key].(messages := daily[key].messages + 1)];
        }
      }
      assert times[..|times|] == times;
    }

    method AddCandidates(rows: seq<CandidateRow>, localDay: int -> int)
      requires forall day :: day in daily ==> daily[day].candidates == 0 && daily[day].ready == 0
      modifies this
      ensures daily.Keys == old(daily.Keys)
      ensures forall day :: day in daily ==> daily[day] == WithCandidates(old(daily)[day], rows, localDay, day)
    {
      for i := 0 to |rows|
        invariant daily.Keys == old(daily.Keys)
        invariant forall day :: day in daily ==> daily[day] == WithCandidates(old(daily)[day], rows[..i], localDay, day)
      {
        TakeOneMore(rows, i);
        forall day { CandidatesAfter(rows[..i], rows[i], localDay, day); }
        var key := localDay(rows[i].createdAt);
        if key in daily {
          daily := daily[key := daily[key].(candidates := daily[key].candidates + 1)];
          if rows[i].status in READY_STATUSES {
            daily := daily[key := daily[key].(ready := daily[key].ready + 1)];
          }
        }
      }
      assert rows[..|rows|] == rows;
    }
  }

  /** The daily report: one point per local day of the range, each counting that day's rows of every kind. */
  method DailyReport(inputs: Inputs, localDay: int -> int, start: int, end: int) returns (daily: map<int, Point>)
    ensures forall day :: day in daily <==> localDay(start) <= day <= localDay(end - 1)
    ensures forall day :: day in daily ==> PointCounts(inputs, localDay, day, daily[day])
  {
    var table := new DailyTable(localDay(start), localDay(end - 1));
    table.AddJobs(inputs.jobs, localDay);
    table.AddConversations(inputs.conversations, localDay);
    table.AddMessages(inputs.messages, localDay);
    table.AddCandidates(inputs.candidates, localDay);
    daily := table.daily;
    forall day | day in daily ensures PointCounts(inputs, localDay, day, daily[day]) {
      assert daily[day] == PointOf(inputs, localDay, day);
      PointMeans(inputs, localDay, day);
    }
  }

  // ----- the daily figures and the totals

  /** The sum over n days of the rows on each day. */
  function SumDays<T>(rows: seq<T>, dayOf: T -> int, first: int, n: nat, p: T -> bool): nat
  {
    if n == 0 then 0 else SumDays(rows, dayOf, first, n - 1, p) + CountDay(rows, dayOf, first + n - 1, p)
  }

  function InDays<T>(dayOf: T -> int, first: int, n: nat, p: T -> bool): T -> bool
  {
    (r: T) => p(r) && first <= dayOf(r) < first + n
  }

  lemma {:induction false} CountSplits<T>(rows: seq<T>, dayOf: T -> int, first: int, n: nat, p: T -> bool)
    ensures CountWhere(rows, InDays(dayOf, first, n + 1, p)) ==
            CountWhere(rows, InDays(dayOf, first, n, p)) + CountDay(rows, dayOf, first + n, p)
  {
    if rows != [] { CountSplits(rows[..|rows| - 1], dayOf, first, n, p); }
  }

  lemma {:induction false} SumDaysCounts<T>(rows: seq<T>, dayOf: T -> int, first: int, n: nat, p: T -> bool)
    ensures SumDays(rows, dayOf, first, n, p) == CountWhere(rows, InDays(dayOf, first, n, p))
    decreases n
  {
    if n > 0 {
      SumDaysCounts(rows, dayOf, first, n - 1, p);
      CountSplits(rows, dayOf, first, n - 1, p);
    } else {
      CountNone(rows, InDays(dayOf, first, 0, p));
    }
  }

  lemma {:induction false} CountEqualIff<T>(rows: seq<T>, dayOf: T -> int, first: int, n: nat, p: T -> bool)
    ensures CountWhere(rows, InDays(dayOf, first, n, p)) <= CountWhere(rows, p)
    ensures CountWhere(rows, InDays(dayOf, first, n, p)) == CountWhere(rows, p) <==>
            forall r :: r in rows && p(r) ==> first <= dayOf(r) < first + n
  {
    if rows != [] {
      var init, last := rows[..|rows| - 1], rows[|rows| - 1];
      CountEqualIff(init, dayOf, first, n, p);
      assert rows == init + [last];
    }
  }

  /** For rows of any kind: the daily figures add up to the total exactly when no counted row falls on a local day
      outside the list. */
  lemma DailyAddsUpIff<T>(rows: seq<T>, dayOf: T -> int, first: int, last: int, p: T -> bool)
    ensures SumDays(rows, dayOf, first, Days(first, last), p) == CountWhere(rows, p) <==>
            forall r :: r in rows && p(r) ==> first <= dayOf(r) <= last
  {
    SumDaysCounts(rows, dayOf, first, Days(first, last), p);
    CountEqualIff(rows, dayOf, first, Days(first, last), p);
  }

  /** A zone whose date goes back for a moment: a delivery sent then is in the total and on no day of the report. */
  lemma DateGoingBackLosesDelivery()
    ensures var localDay := (t: int) => if t == 1 then -1 else 0;
            var rows := [JobRow(SENT, "c", 1)];
            var first, last := localDay(0), localDay(2);
            SumDays(rows, JobDay(localDay), first, Days(first, last), OfStatus(SENT)) !=
              CountWhere(rows, OfStatus(SENT))
  {
    var localDay := (t: int) => if t == 1 then -1 else 0;
    var rows := [JobRow(SENT, "c", 1)];
    DailyAddsUpIff(rows, JobDay(localDay), localDay(0), localDay(2), OfStatus(SENT));
    assert rows[0] in rows && JobDay(localDay)(rows[0]) == -1;
  }

  /** The rows lie in the range, and the zone's date never goes back within it. */
  ghost predicate InRange<T>(rows: seq<T>, timeOf: T -> int, localDay: int -> int, start: int, end: int)
  {
    && (forall i :: 0 <= i < |rows| ==> start <= timeOf(rows[i]) < end)
    && (forall t, u :: start <= t <= u < end ==> localDay(t) <= localDay(u))
  }

  /** In such a zone nothing is lost between a total and its daily figures, whatever is counted. */
  lemma SeriesConserves<T>(rows: seq<T>, timeOf: T -> int, localDay: int -> int, dayOf: T -> int, start: int, end: int,
                           p: T -> bool)
    requires InRange(rows, timeOf, localDay, start, end) && forall r :: dayOf(r) == localDay(timeOf(r))
    ensures SumDays(rows, dayOf, localDay(start), Days(localDay(start), localDay(end - 1)), p) == CountWhere(rows, p)
  {
    DailyAddsUpIff(rows, dayOf, localDay(start), localDay(end - 1), p);
  }

  /** So every series of the daily report adds up to its total: sent days to the sent deliveries, failed days to the
      failed and waiting ones together, and the other days to all conversations, inbound messages and candidates of
      the range. */
  lemma DailyConserves(inputs: Inputs, localDay: int -> int, start: int, end: int)
    requires InRange(inputs.jobs, (r: JobRow) => r.createdAt, localDay, start, end)
    requires InRange(inputs.conversations, (t: int) => t, localDay, start, end)
    requires InRange(inputs.messages, (t: int) => t, localDay, start, end)
    requires InRange(inputs.candidates, (r: CandidateRow) => r.createdAt, localDay, start, end)
    ensures var first := localDay(start);
            var n := Days(first, localDay(end - 1));
            && SumDays(inputs.jobs, JobDay(localDay), first, n, OfStatus(SENT)) ==
                 CountWhere(inputs.jobs, OfStatus(SENT))
            && SumDays(inputs.jobs, JobDay(localDay), first, n, FailedOrWaiting) ==
               CountWhere(inputs.jobs, OfStatus(FAILED)) + CountWhere(inputs.jobs, OfStatus(WAITING_REVIEW))
            && SumDays(inputs.conversations, localDay, first, n, Always) == |inputs.conversations|
            && SumDays(inputs.messages, localDay, first, n, Always) == |inputs.messages|
            && SumDays(inputs.candidates, CandidateDay(localDay), first, n, Always) == |inputs.candidates|
            && SumDays(inputs.candidates, CandidateDay(localDay), first, n, IsReady) ==
                 CountWhere(inputs.candidates, IsReady)
  {
    SeriesConserves(inputs.jobs, (r: JobRow) => r.createdAt, localDay, JobDay(localDay), start, end, OfStatus(SENT));
    SeriesConserves(inputs.jobs, (r: JobRow) => r.createdAt, localDay, JobDay(localDay), start, end, FailedOrWaiting);
    FailedAndWaiting(inputs.jobs);
    SeriesConserves(inputs.conversations, (t: int) => t, localDay, localDay, start, end, Always);
    SeriesConserves(inputs.messages, (t: int) => t, localDay, localDay, start, end, Always);
    SeriesConserves(inputs.candidates, (r: CandidateRow) => r.createdAt, localDay, CandidateDay(localDay), start,
                    end, Always);
    SeriesConserves(inputs.candidates, (r: CandidateRow) => r.createdAt, localDay, CandidateDay(localDay), start,
                    end, IsReady);
    CountAll(inputs.conversations);
    CountAll(inputs.messages);
    CountAll(inputs.candidates);
  }

  lemma {:induction false} CountAll<T>(rows: seq<T>)
    ensures CountWhere(rows, Always) == |rows|
  {
    if rows != [] { CountAll(rows[..|rows| - 1]); }
  }

  lemma {:induction false} FailedAndWaiting(rows: seq<JobRow>)
    ensures CountWhere(rows, FailedOrWaiting) ==
              CountWhere(rows, OfStatus(FAILED)) + CountWhere(rows, OfStatus(WAITING_REVIEW))
  {
    if rows != [] { FailedAndWaiting(rows[..|rows| - 1]); }
  }
}
