/** Rebuilding a chain: it ends valid, touches metadata only, is idempotent, and is the identity exactly on chains
    that were right. */
module AuditRebuild {
  import opened Common
  import opened AuditChain
  import opened AuditTheorems

  lemma {:induction false} RelinkLinks(h: Hashing, rows: seq<Row>)
    ensures IsChain(h, Relink(h, rows))
    ensures forall k :: 0 <= k < |rows| ==>
              Relink(h, rows)[k].event == rows[k].event && Relink(h, rows)[k].chainVersion == Some(CHAIN_VERSION)
  {
    if rows != [] {
      var n := |rows| - 1;
      RelinkLinks(h, rows[..n]);
      var before, all := Relink(h, rows[..n]), Relink(h, rows);
      forall k | 0 <= k < |all| ensures EntrySound(h, all, k) {
        assert HashBefore(all, k) == HashBefore(before, k);
        if k < n {
          assert EntrySound(h, before, k);
        }
      }
    }
  }

  /** A chain of current-version entries is already what relinking its rows would write. */
  lemma {:induction false} RelinkFixed(h: Hashing, rows: seq<Row>)
    requires IsChain(h, rows) && forall k :: 0 <= k < |rows| ==> rows[k].chainVersion == Some(CHAIN_VERSION)
    ensures Relink(h, rows) == rows
  {
    if rows != [] {
      var n := |rows| - 1;
      ChainPrefix(h, rows, n);
      RelinkFixed(h, rows[..n]);
      RelinkLast(h, rows);
    }
  }

  lemma {:induction false} ChainPrefix(h: Hashing, rows: seq<Row>, n: nat)
    requires IsChain(h, rows) && n <= |rows|
    ensures IsChain(h, rows[..n])
  {
    forall k | 0 <= k < n ensures EntrySound(h, rows[..n], k) {
      assert EntrySound(h, rows, k);
    }
  }

  lemma {:induction false} RelinkOneFixed(h: Hashing, row: Row, sequence: int, prev: string)
    requires row.sequence == Some(sequence) && row.prevHash == Some(prev) && row.chainVersion == Some(CHAIN_VERSION)
    requires row.entryHash.Some? && HashExistingLog(h, row) == row.entryHash
    ensures RelinkOne(h, row, sequence, prev) == row
  {
    assert ExistingPayload(row.(entryHash := None)) == ExistingPayload(row);
  }

  lemma {:induction false} RelinkLast(h: Hashing, rows: seq<Row>)
    requires rows != [] && Relink(h, rows[..|rows| - 1]) == rows[..|rows| - 1]
    requires EntrySound(h, rows, |rows| - 1) && rows[|rows| - 1].chainVersion == Some(CHAIN_VERSION)
    ensures Relink(h, rows) == rows
  {
    var n := |rows| - 1;
    RelinkOneFixed(h, rows[n], n + 1, HashBefore(rows, n));
    assert HashBefore(rows[..n], n) == HashBefore(rows, n);
    TakeOneMore(rows, n);
    assert rows[..n + 1] == rows;
  }

  lemma {:induction false} PatchedAt(row: Row, updates: seq<Row>, k: nat)
    requires UniqueIds(updates) && k < |updates| && updates[k].event.id == row.event.id
    ensures Patched(row, updates) == WithMetadata(row, updates[k])
  {
    if k < |updates| - 1 {
      PatchedAt(row, updates[..|updates| - 1], k);
    }
  }

  lemma {:induction false} PatchedNowhere(row: Row, updates: seq<Row>)
    requires forall u :: u in updates ==> u.event.id != row.event.id
    ensures Patched(row, updates) == row
  {
    if updates != [] {
      PatchedNowhere(row, updates[..|updates| - 1]);
    }
  }

  lemma {:induction false} OrgRowsPatched(logs: seq<Row>, updates: seq<Row>, org: Option<string>)
    ensures OrgRows(PatchAll(logs, updates), org) == PatchAll(OrgRows(logs, org), updates)
  {
    if logs != [] {
      OrgRowsPatched(logs[1..], updates, org);
      assert PatchAll(logs, updates)[1..] == PatchAll(logs[1..], updates);
    }
  }

  /** The rows an organisation lists by time: its own rows, each once, in order. */
  lemma RowsByTimeFacts(logs: seq<Row>, org: Option<string>)
    requires UniqueIds(logs)
    ensures multiset(RowsByTime(logs, org)) == multiset(OrgRows(logs, org))
    ensures UniqueIds(RowsByTime(logs, org))
    ensures forall r :: r in RowsByTime(logs, org) <==> r in logs && r.event.organizationId == org
  {
    OrgRowsSelects(logs, org);
    SortPermutes(TimeLe, OrgRows(logs, org));
    SameMembers(OrgRows(logs, org), RowsByTime(logs, org));
    UniqueIdsPermute(OrgRows(logs, org), RowsByTime(logs, org));
  }

  /** After a rebuild the organisation's rows, by time, are the relinked rows. */
  lemma {:induction false} RebuiltRows(h: Hashing, db: Database, org: Option<string>)
    requires UniqueIds(db.logs)
    ensures RowsByTime(AfterBackfill(h, db, org).logs, org) == Relink(h, RowsByTime(db.logs, org))
  {
    var order := RowsByTime(db.logs, org);
    var rebuilt := Relink(h, order);
    RowsByTimeFacts(db.logs, org);
    RelinkLinks(h, order);
    OrgRowsPatched(db.logs, rebuilt, org);
    SortMap(TimeLe, row => Patched(row, rebuilt), OrgRows(db.logs, org));
    PatchedInOrder(order, rebuilt);
  }

  lemma PatchedInOrder(rows: seq<Row>, updates: seq<Row>)
    requires |rows| == |updates| && UniqueIds(rows) && forall k :: 0 <= k < |rows| ==> updates[k].event == rows[k].event
    ensures PatchAll(rows, updates) == updates
  {
    forall k | 0 <= k < |rows| ensures Patched(rows[k], updates) == updates[k] {
      PatchedAt(rows[k], updates, k);
    }
  }

  lemma PatchKeepsIds(logs: seq<Row>, updates: seq<Row>)
    requires UniqueIds(logs)
    ensures UniqueIds(PatchAll(logs, updates))
  {
    var next := PatchAll(logs, updates);
    assert forall i :: 0 <= i < |logs| ==> next[i].event == logs[i].event;
  }

  /** A rebuild ends in a valid verdict whatever mix of legacy, broken and chained rows it started from. */
  lemma {:induction false} BackfillIsValid(h: Hashing, db: Database, org: Option<string>)
    requires UniqueIds(db.logs)
    ensures Valid(h, AfterBackfill(h, db, org), org)
  {
    var next := AfterBackfill(h, db, org);
    var rebuilt := Relink(h, RowsByTime(db.logs, org));
    RebuiltRows(h, db, org);
    RelinkLinks(h, RowsByTime(db.logs, org));
    PatchKeepsIds(db.logs, rebuilt);
    RowsByTimeFacts(next.logs, org);
    ValidFromOrder(h, next, org, rebuilt);
  }

  /** A rebuild rewrites nothing but the chain metadata of the organisation's own rows and its own chain state. */
  lemma {:induction false} BackfillTouchesOnlyMetadata(h: Hashing, db: Database, org: Option<string>)
    requires UniqueIds(db.logs)
    ensures var next := AfterBackfill(h, db, org);
            && |next.logs| == |db.logs|
            && UniqueIds(next.logs)
            && (forall i :: 0 <= i < |db.logs| ==> next.logs[i].event == db.logs[i].event)
            && (forall i :: 0 <= i < |db.logs| && db.logs[i].event.organizationId != org ==> next.logs[i] == db.logs[i])
            && (forall key :: key != ChainKey(org) ==> (key in next.states <==> key in db.states)
                                                       && (key in db.states ==> next.states[key] == db.states[key]))
  {
    var order := RowsByTime(db.logs, org);
    var rebuilt := Relink(h, order);
    RowsByTimeFacts(db.logs, org);
    RelinkLinks(h, order);
    PatchKeepsIds(db.logs, rebuilt);
    forall i | 0 <= i < |db.logs| && db.logs[i].event.organizationId != org
      ensures Patched(db.logs[i], rebuilt) == db.logs[i]
    {
      forall u | u in rebuilt ensures u.event.id != db.logs[i].event.id {
        var k :| 0 <= k < |rebuilt| && rebuilt[k] == u;
        assert order[k] in db.logs;
        var j :| 0 <= j < |db.logs| && db.logs[j] == order[k];
      }
      PatchedNowhere(db.logs[i], rebuilt);
    }
  }

  /** Every row of the organisation gets a number, lower the earlier the event and, at one time, the lower its id. */
  lemma {:induction false} RebuildNumbersByTime(h: Hashing, db: Database, org: Option<string>, i: nat, j: nat)
    requires UniqueIds(db.logs) && i < |db.logs| && j < |db.logs|
    requires db.logs[i].event.organizationId == db.logs[j].event.organizationId == org
    requires var a, b := db.logs[i].event, db.logs[j].event;
             a.createdAt < b.createdAt || (a.createdAt == b.createdAt && a.id < b.id)
    ensures var logs := AfterBackfill(h, db, org).logs;
            && logs[i].sequence.Some? && logs[j].sequence.Some? && logs[i].sequence.value < logs[j].sequence.value
            && 1 <= logs[i].sequence.value && logs[j].sequence.value <= |OrgRows(db.logs, org)|
  {
    var order := RowsByTime(db.logs, org);
    RowsByTimeFacts(db.logs, org);
    SameSize(order, OrgRows(db.logs, org));
    SortingLaws();
    SortSorted(TimeLe, OrgRows(db.logs, org));
    assert db.logs[i] in order && db.logs[j] in order;
    var p := NumberedAt(h, order, db.logs[i]);
    var q := NumberedAt(h, order, db.logs[j]);
    if p >= q { assert TimeLe(order[q], order[p]); }
  }

  lemma {:induction false} NumberedAt(h: Hashing, order: seq<Row>, row: Row) returns (p: nat)
    requires UniqueIds(order) && row in order
    ensures p < |order| && order[p] == row && Patched(row, Relink(h, order)).sequence == Some(p + 1)
  {
    p :| 0 <= p < |order| && order[p] == row;
    RelinkLinks(h, order);
    assert EntrySound(h, Relink(h, order), p);
    PatchedAt(row, Relink(h, order), p);
  }

  lemma {:induction false} OrgRowsAgree(a: seq<Row>, b: seq<Row>, org: Option<string>)
    requires |a| == |b|
    requires forall i :: 0 <= i < |a| ==> a[i].event == b[i].event
    requires forall i :: 0 <= i < |a| && a[i].event.organizationId == org ==> a[i] == b[i]
    ensures OrgRows(a, org) == OrgRows(b, org)
  {
    if a != [] {
      OrgRowsAgree(a[1..], b[1..], org);
    }
  }

  /** A rebuild of one chain never changes another chain's verdict. */
  lemma {:induction false} BackfillElsewhere(h: Hashing, db: Database, rebuilt: Option<string>, org: Option<string>)
    requires UniqueIds(db.logs) && ChainKey(rebuilt) != ChainKey(org)
    ensures Verdict(h, AfterBackfill(h, db, rebuilt), org) == Verdict(h, db, org)
    ensures OrgRows(AfterBackfill(h, db, rebuilt).logs, org) == OrgRows(db.logs, org)
  {
    var next := AfterBackfill(h, db, rebuilt);
    BackfillTouchesOnlyMetadata(h, db, rebuilt);
    OrgRowsAgree(next.logs, db.logs, org);
    VerdictReadsOwnRows(h, next, db, org);
  }

  lemma PatchWithOwnRows(logs: seq<Row>, updates: seq<Row>)
    requires UniqueIds(logs) && UniqueIds(updates) && forall u :: u in updates ==> u in logs
    ensures PatchAll(logs, updates) == logs
  {
    forall i | 0 <= i < |logs| ensures Patched(logs[i], updates) == logs[i] {
      if k :| 0 <= k < |updates| && updates[k].event.id == logs[i].event.id {
        assert updates[k] in logs;
        var j :| 0 <= j < |logs| && logs[j] == updates[k];
        assert i == j;
        PatchedAt(logs[i], updates, k);
      } else {
        PatchedNowhere(logs[i], updates);
      }
    }
  }

  lemma {:induction false} BackfillFixesRebuilt(h: Hashing, db: Database, org: Option<string>)
    requires UniqueIds(db.logs) && AfterBackfill(h, db, org) == db
    ensures Valid(h, db, org)
    ensures forall r :: r in OrgRows(db.logs, org) ==> r.chainVersion == Some(CHAIN_VERSION)
    ensures RowsBySequence(db.logs, org) == RowsByTime(db.logs, org)
  {
    var order := RowsByTime(db.logs, org);
    RowsByTimeFacts(db.logs, org);
    SameMembers(order, OrgRows(db.logs, org));
    BackfillIsValid(h, db, org);
    RebuiltRows(h, db, org);
    RelinkLinks(h, order);
    ChainOrderIsCanonical(h, db.logs, org, order);
    forall r | r in OrgRows(db.logs, org) ensures r.chainVersion == Some(CHAIN_VERSION) {
      var k :| 0 <= k < |order| && order[k] == r;
    }
  }

  lemma {:induction false} BackfillFixesSound(h: Hashing, db: Database, org: Option<string>)
    requires UniqueIds(db.logs) && Valid(h, db, org)
    requires forall r :: r in OrgRows(db.logs, org) ==> r.chainVersion == Some(CHAIN_VERSION)
    requires RowsBySequence(db.logs, org) == RowsByTime(db.logs, org)
    ensures AfterBackfill(h, db, org) == db
  {
    var order := RowsByTime(db.logs, org);
    RowsByTimeFacts(db.logs, org);
    SameMembers(order, OrgRows(db.logs, org));
    ValidIffChain(h, db, org);
    assert forall k :: 0 <= k < |order| ==> order[k] in order;
    RelinkFixed(h, order);
    PatchWithOwnRows(db.logs, order);
    RewritingTheHead(db, org, order);
  }

  lemma RewritingTheHead(db: Database, org: Option<string>, rows: seq<Row>)
    requires HeadMatches(StateOf(db, org), rows)
    ensures db.states[ChainKey(org) := LockedState(db, org).(lastSequence := |rows|,
                                                             lastHash := HashBefore(rows, |rows|))]
            == db.states
  {
  }

  /** A rebuild is the identity exactly on valid chains of current-version entries whose sequence order
      is their time order. */
  lemma {:induction false} BackfillIsIdentityIff(h: Hashing, db: Database, org: Option<string>)
    requires UniqueIds(db.logs)
    ensures AfterBackfill(h, db, org) == db <==>
            && Valid(h, db, org)
            && (forall r :: r in OrgRows(db.logs, org) ==> r.chainVersion == Some(CHAIN_VERSION))
            && RowsBySequence(db.logs, org) == RowsByTime(db.logs, org)
  {
    if AfterBackfill(h, db, org) == db {
      BackfillFixesRebuilt(h, db, org);
    } else if Valid(h, db, org) && (forall r :: r in OrgRows(db.logs, org) ==> r.chainVersion == Some(CHAIN_VERSION))
              && RowsBySequence(db.logs, org) == RowsByTime(db.logs, org) {
      BackfillFixesSound(h, db, org);
    }
  }

  /** Rebuilding twice is rebuilding once. */
  lemma {:induction false} BackfillIsIdempotent(h: Hashing, db: Database, org: Option<string>)
    requires UniqueIds(db.logs)
    ensures AfterBackfill(h, AfterBackfill(h, db, org), org) == AfterBackfill(h, db, org)
  {
    var next := AfterBackfill(h, db, org);
    var order := RowsByTime(db.logs, org);
    BackfillIsValid(h, db, org);
    BackfillTouchesOnlyMetadata(h, db, org);
    RebuiltRows(h, db, org);
    RelinkLinks(h, order);
    RowsByTimeFacts(next.logs, org);
    OrgRowsSelects(next.logs, org);
    var rebuilt := Relink(h, order);
    forall r | r in OrgRows(next.logs, org) ensures r.chainVersion == Some(CHAIN_VERSION) {
      assert r in rebuilt;
      var k :| 0 <= k < |rebuilt| && rebuilt[k] == r;
    }
    ChainOrderIsCanonical(h, next.logs, org, rebuilt);
    BackfillFixesSound(h, next, org);
  }
}
