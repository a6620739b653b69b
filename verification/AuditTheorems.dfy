/**
 What the audit chain promises of one state and one write: the verifier decides the declarative chain predicate, a
 stored head pins every entry, and a write keeps its own chain verifiable and leaves the others alone.
 */
module AuditTheorems {
  import opened Common
  import opened Redaction
  import opened AuditChain

  ghost predicate UniqueIds(rows: seq<Row>)
  {
    forall i, j :: 0 <= i < |rows| && 0 <= j < |rows| && rows[i].event.id == rows[j].event.id ==> i == j
  }

  // ----- selecting rows

  lemma {:induction false} OrgRowsSelects(logs: seq<Row>, org: Option<string>)
    ensures forall r :: r in OrgRows(logs, org) <==> r in logs && r.event.organizationId == org
    ensures UniqueIds(logs) ==> UniqueIds(OrgRows(logs, org))
  {
    if logs != [] {
      var rest := logs[1..];
      OrgRowsSelects(rest, org);
      assert logs == [logs[0]] + rest;
      if UniqueIds(logs) {
        assert UniqueIds(rest) by {
          assert forall i :: 0 <= i < |rest| ==> rest[i] == logs[i + 1];
        }
        var s := OrgRows(rest, org);
        forall k | 0 <= k < |s| ensures s[k].event.id != logs[0].event.id {
          assert s[k] in rest;
          var i :| 0 <= i < |rest| && rest[i] == s[k];
          assert logs[i + 1] == s[k];
        }
      }
    }
  }

  lemma {:induction false} OrgRowsAppend(a: seq<Row>, row: Row, org: Option<string>)
    ensures OrgRows(a + [row], org) ==
            if row.event.organizationId == org then OrgRows(a, org) + [row] else OrgRows(a, org)
  {
    if a != [] {
      assert (a + [row])[1..] == a[1..] + [row];
      OrgRowsAppend(a[1..], row, org);
    } else {
      assert [row][1..] == [];
    }
  }

  lemma {:induction false} ChainedIdentity(rows: seq<Row>)
    requires forall r :: r in rows ==> IsChained(r)
    ensures Chained(rows) == rows
  {
    if rows != [] {
      ChainedIdentity(rows[1..]);
    }
  }

  lemma SortingLaws()
    ensures TotalPreorder(TimeLe) && TotalPreorder(SequenceLe)
  {
  }

  lemma SameMembers(a: seq<Row>, b: seq<Row>)
    requires multiset(a) == multiset(b)
    ensures |a| == |b|
    ensures forall r :: r in a <==> r in b
  {
    assert |multiset(a)| == |a| && |multiset(b)| == |b|;
    forall r ensures r in a <==> r in b {
      assert r in a <==> r in multiset(a);
      assert r in b <==> r in multiset(b);
    }
  }

  lemma CountedOnce(rows: seq<Row>, p: nat)
    requires UniqueIds(rows) && p < |rows|
    ensures multiset(rows)[rows[p]] == 1
  {
    assert rows == rows[..p] + [rows[p]] + rows[p + 1..];
    assert rows[p] !in rows[..p] && rows[p] !in rows[p + 1..];
  }

  lemma UniqueIdsPermute(a: seq<Row>, b: seq<Row>)
    requires multiset(a) == multiset(b) && UniqueIds(a)
    ensures UniqueIds(b)
  {
    SameMembers(a, b);
    forall i, j | 0 <= i < j < |b| ensures b[i].event.id != b[j].event.id {
      assert b[i] in a && b[j] in a;
      var p :| 0 <= p < |a| && a[p] == b[i];
      if b[i] == b[j] {
        CountedOnce(a, p);
        CountedTwice(b, i, j);
      }
    }
  }

  lemma AntisymmetricByIds(rows: seq<Row>)
    requires UniqueIds(rows)
    ensures AntisymmetricOn(SequenceLe, rows) && AntisymmetricOn(TimeLe, rows)
  {
  }

  // ----- the verifier decides the chain predicate

  /** The verifier answers valid exactly when no row is legacy, the rows in sequence order form a
      chain, and the stored head is the chain's head. */
  lemma {:induction false} ValidIffChain(h: Hashing, db: Database, org: Option<string>)
    ensures Valid(h, db, org) <==>
            var rows := RowsBySequence(db.logs, org);
            && (forall r :: r in OrgRows(db.logs, org) ==> IsChained(r))
            && IsChain(h, rows)
            && HeadMatches(StateOf(db, org), rows)
  {
    var all := RowsByTime(db.logs, org);
    var rows := RowsBySequence(db.logs, org);
    SortPermutes(TimeLe, OrgRows(db.logs, org));
    SameMembers(OrgRows(db.logs, org), all);
    ChainedCount(all);
    var n := SoundLength(h, rows);
    assert (forall r :: r in all ==> IsChained(r)) <==> (forall i :: 0 <= i < |all| ==> IsChained(all[i]));
    if n < |rows| {
      assert !EntrySound(h, rows, n);
    }
  }

  lemma {:induction false} ChainIsSorted(h: Hashing, order: seq<Row>)
    requires IsChain(h, order)
    ensures Sorted(SequenceLe, order)
  {
    forall i, j | 0 <= i < j < |order| ensures SequenceLe(order[i], order[j]) {
      assert EntrySound(h, order, i) && EntrySound(h, order, j);
    }
  }

  /** Whatever the timestamps, a listing of an organisation's rows that is a chain is the listing the verifier walks. */
  lemma {:induction false} ChainOrderIsCanonical(h: Hashing, logs: seq<Row>, org: Option<string>, order: seq<Row>)
    requires UniqueIds(logs)
    requires multiset(order) == multiset(OrgRows(logs, org)) && IsChain(h, order)
    ensures RowsBySequence(logs, org) == order
    ensures forall r :: r in OrgRows(logs, org) ==> IsChained(r)
  {
    var all := OrgRows(logs, org);
    var byTime := RowsByTime(logs, org);
    SameMembers(order, all);
    forall r | r in order ensures IsChained(r) {
      var k :| 0 <= k < |order| && order[k] == r;
      assert EntrySound(h, order, k);
    }
    SortPermutes(TimeLe, all);
    SameMembers(all, byTime);
    ChainedIdentity(byTime);
    SortPermutes(SequenceLe, byTime);
    SortingLaws();
    SortSorted(SequenceLe, byTime);
    ChainIsSorted(h, order);
    OrgRowsSelects(logs, org);
    UniqueIdsPermute(all, order);
    AntisymmetricByIds(order);
    SortedUnique(SequenceLe, order, RowsBySequence(logs, org));
  }

  /** The verdict does not depend on how rows are stored or ordered: valid means that SOME listing of
      the organisation's rows is a chain ending at the stored head. */
  lemma {:induction false} ValidIffSomeOrderIsChain(h: Hashing, db: Database, org: Option<string>)
    requires UniqueIds(db.logs)
    ensures Valid(h, db, org) <==>
            exists order :: multiset(order) == multiset(OrgRows(db.logs, org)) && IsChain(h, order)
                            && HeadMatches(StateOf(db, org), order)
  {
    ValidIffChain(h, db, org);
    var all := OrgRows(db.logs, org);
    if Valid(h, db, org) {
      var byTime := RowsByTime(db.logs, org);
      SortPermutes(TimeLe, all);
      SameMembers(all, byTime);
      ChainedIdentity(byTime);
      SortPermutes(SequenceLe, byTime);
      assert multiset(RowsBySequence(db.logs, org)) == multiset(all);
    }
    if order :| multiset(order) == multiset(all) && IsChain(h, order) && HeadMatches(StateOf(db, org), order) {
      ChainOrderIsCanonical(h, db.logs, org, order);
    }
  }

  lemma {:induction false} ValidFromOrder(h: Hashing, db: Database, org: Option<string>, order: seq<Row>)
    requires UniqueIds(db.logs)
    requires multiset(order) == multiset(OrgRows(db.logs, org)) && IsChain(h, order)
    requires HeadMatches(StateOf(db, org), order)
    ensures Valid(h, db, org)
  {
    ValidIffSomeOrderIsChain(h, db, org);
  }

  /** When the walk stops early, the reported entry is the first unsound one: everything before it is
      sound, it is not, and the reported head is the hash of the last sound entry. */
  lemma {:induction false} FirstErrorIsFirstUnsound(h: Hashing, db: Database, org: Option<string>)
    ensures var rows := RowsBySequence(db.logs, org);
            var verdict := Verdict(h, db, org);
            var stop := if verdict.Err? then Some(verdict.error) else verdict.value.firstErrorEntryId;
            && (stop.None? <==> IsChain(h, rows))
            && (stop.Some? ==>
                  exists k :: 0 <= k < |rows| && PrefixSound(h, rows, k) && !EntrySound(h, rows, k)
                              && stop.value == rows[k].event.id
                              && (verdict.Ok? ==>
                                   !verdict.value.valid && verdict.value.computedHeadHash == HashBefore(rows, k)))
  {
    var rows := RowsBySequence(db.logs, org);
    var n := SoundLength(h, rows);
    if n < |rows| {
      assert !EntrySound(h, rows, n) && PrefixSound(h, rows, n);
    }
  }

  /** The verifier raises instead of answering exactly when the first unsound entry is numbered and
      linked correctly but has lost its chain version. */
  lemma {:induction false} RaisesIffVersionLost(h: Hashing, db: Database, org: Option<string>)
    ensures var rows := RowsBySequence(db.logs, org);
            Verdict(h, db, org).Err? <==>
            exists k :: 0 <= k < |rows| && PrefixSound(h, rows, k)
                        && rows[k].sequence == Some(k + 1) && rows[k].prevHash == Some(HashBefore(rows, k))
                        && rows[k].chainVersion.None?
  {
    var rows := RowsBySequence(db.logs, org);
    if k :| 0 <= k < |rows| && PrefixSound(h, rows, k) && rows[k].sequence == Some(k + 1)
            && rows[k].prevHash == Some(HashBefore(rows, k)) && rows[k].chainVersion.None? {
      SoundLengthIs(h, rows, k);
    }
  }

  /** One first entry, numbered and linked as it should be, that lost its version: the verifier raises on it. */
  lemma {:induction false} LostVersionRaises(h: Hashing, event: Event, digest: string, states: map<string, ChainState>)
    ensures var row := Row(event, Some(1), Some(ZERO_HASH), Some(digest), None);
            Verdict(h, Database([row], states), event.organizationId) == Err(event.id)
  {
    var row := Row(event, Some(1), Some(ZERO_HASH), Some(digest), None);
    var db := Database([row], states);
    assert OrgRows([row], event.organizationId) == [row];
    SortOne(TimeLe, row);
    SortOne(SequenceLe, row);
    ChainedIdentity([row]);
    assert RowsBySequence(db.logs, event.organizationId) == [row];
    SoundLengthIs(h, [row], 0);
  }

  lemma SortOne(le: (Row, Row) -> bool, row: Row)
    ensures Sort(le, [row]) == [row]
  {
    assert [row][1..] == [];
    AppendNothing([row]);
  }

  lemma {:induction false} SoundLengthIs(h: Hashing, rows: seq<Row>, k: nat)
    requires k < |rows| && PrefixSound(h, rows, k) && !EntrySound(h, rows, k)
    ensures SoundLength(h, rows) == k
  {
    assert PrefixSound(h, rows, SoundLength(h, rows));
  }

  lemma {:induction false} ChainedSelects(rows: seq<Row>)
    ensures forall r :: r in Chained(rows) <==> r in rows && r.sequence.Some? && r.entryHash.Some?
    ensures UniqueIds(rows) ==> UniqueIds(Chained(rows))
  {
    if rows != [] {
      var rest := rows[1..];
      ChainedSelects(rest);
      HeadAndTail(rows);
      if UniqueIds(rows) {
        assert forall i :: 0 <= i < |rest| ==> rest[i] == rows[i + 1];
        forall r | r in Chained(rest) ensures r.event.id != rows[0].event.id {
          var i :| 0 <= i < |rest| && rest[i] == r;
        }
      }
    }
  }

  /** By number, then time, then id. */
  ghost predicate ListedBefore(a: Row, b: Row)
    requires a.sequence.Some? && b.sequence.Some?
  {
    || a.sequence.value < b.sequence.value
    || (a.sequence == b.sequence && (a.event.createdAt < b.event.createdAt
                                     || (a.event.createdAt == b.event.createdAt && a.event.id < b.event.id)))
  }

  /** The verifier walks the organisation's numbered and hashed rows, each once, by number, then time, then id. */
  lemma RowsWalked(logs: seq<Row>, org: Option<string>)
    requires UniqueIds(logs)
    ensures var rows := RowsBySequence(logs, org);
            && UniqueIds(rows)
            && (forall r :: r in rows <==>
                 r in logs && r.event.organizationId == org && r.sequence.Some? && r.entryHash.Some?)
            && forall i, j :: 0 <= i < j < |rows| ==>
                 rows[i].sequence.Some? && rows[j].sequence.Some? && ListedBefore(rows[i], rows[j])
  {
    var all := OrgRows(logs, org);
    var byTime := RowsByTime(logs, org);
    OrgRowsSelects(logs, org);
    SortPermutes(TimeLe, all);
    SameMembers(all, byTime);
    UniqueIdsPermute(all, byTime);
    ChainedSelects(byTime);
    var rows := RowsBySequence(logs, org);
    SortPermutes(SequenceLe, Chained(byTime));
    SameMembers(Chained(byTime), rows);
    UniqueIdsPermute(Chained(byTime), rows);
    SortingLaws();
    SortSorted(SequenceLe, Chained(byTime));
    forall i, j | 0 <= i < j < |rows|
      ensures rows[i].sequence.Some? && rows[j].sequence.Some? && ListedBefore(rows[i], rows[j])
    {
      assert rows[i] in rows && rows[j] in rows;
      assert SequenceLe(rows[i], rows[j]);
    }
  }

  /** Entry k is the first that is not sound. */
  ghost predicate FirstUnsound(h: Hashing, rows: seq<Row>, k: int)
  {
    0 <= k < |rows| && PrefixSound(h, rows, k) && !EntrySound(h, rows, k)
  }

  /** What each answer says of the rows walked and the stored head. */
  ghost predicate FaultSays(h: Hashing, rows: seq<Row>, state: Option<ChainState>, fault: Option<Fault>)
  {
    match fault
    case Some(SequenceBroken(expected, found)) =>
      FirstUnsound(h, rows, expected - 1) && found == rows[expected - 1].sequence != Some(expected)
    case Some(PreviousHashMismatch) =>
      exists k :: FirstUnsound(h, rows, k) && rows[k].sequence == Some(k + 1)
                  && rows[k].prevHash != Some(HashBefore(rows, k))
    case Some(ContentMismatch) =>
      exists k :: FirstUnsound(h, rows, k) && rows[k].sequence == Some(k + 1)
                  && rows[k].prevHash == Some(HashBefore(rows, k)) && rows[k].chainVersion.Some?
                  && HashExistingLog(h, rows[k]) != rows[k].entryHash
    case Some(StateMissing) => IsChain(h, rows) && state.None?
    case Some(StateSequenceWrong) => IsChain(h, rows) && state.Some? && state.value.lastSequence != |rows|
    case Some(StateHeadWrong) =>
      IsChain(h, rows) && state.Some? && state.value.lastSequence == |rows|
      && state.value.lastHash != HashBefore(rows, |rows|)
    case None => IsChain(h, rows) && HeadMatches(state, rows)
  }

  /** The whole answer: the counts, the stored head, and the first fault found, each meaning what it says. */
  lemma {:induction false} VerdictSays(h: Hashing, db: Database, org: Option<string>)
    requires Verdict(h, db, org).Ok?
    ensures var rows, key, r := RowsBySequence(db.logs, org), ChainKey(org), Verdict(h, db, org).value;
            var state := if key in db.states then Some(db.states[key]) else None;
            && r.organizationId == org && r.checkedEntries == r.headSequence == |rows|
            && r.legacyEntries == |OrgRows(db.logs, org)| - |rows|
            && r.storedHeadHash == (if state.Some? then Some(state.value.lastHash) else None)
            && (r.valid <==> r.firstError.None? && r.legacyEntries == 0)
            && FaultSays(h, rows, state, r.firstError)
  {
    SortPermutes(TimeLe, OrgRows(db.logs, org));
    SortPermutes(SequenceLe, Chained(RowsByTime(db.logs, org)));
    VerdictFault(h, db, org);
  }

  lemma {:induction false} VerdictFault(h: Hashing, db: Database, org: Option<string>)
    requires Verdict(h, db, org).Ok?
    ensures FaultSays(h, RowsBySequence(db.logs, org), StateOf(db, org), Verdict(h, db, org).value.firstError)
  {
    var rows := RowsBySequence(db.logs, org);
    var n := SoundLength(h, rows);
    if n < |rows| {
      SoundRowsHaveHashes(db.logs, org, rows[n]);
      FirstUnsoundFault(h, rows, StateOf(db, org), n);
    }
  }

  lemma SoundRowsHaveHashes(logs: seq<Row>, org: Option<string>, row: Row)
    requires row in RowsBySequence(logs, org)
    ensures row.sequence.Some? && row.entryHash.Some?
  {
    var byTime := RowsByTime(logs, org);
    ChainedSelects(byTime);
    SortPermutes(SequenceLe, Chained(byTime));
    SameMembers(Chained(byTime), RowsBySequence(logs, org));
  }

  lemma {:induction false} FirstUnsoundFault(h: Hashing, rows: seq<Row>, state: Option<ChainState>, k: nat)
    requires FirstUnsound(h, rows, k) && FaultAt(h, rows, k).Some? && rows[k].entryHash.Some?
    ensures FaultSays(h, rows, state, FaultAt(h, rows, k))
  {
  }

  // ----- tamper evidence

  /** Two rows exhibit a collision: different texts with one digest, or different records with one text. */
  ghost predicate Collide(h: Hashing, a: Row, b: Row)
  {
    var p, q := ExistingPayload(a), ExistingPayload(b);
    && p.Some? && q.Some?
    && var x, y := Preimage(h, p.value.prevHash, p.value), Preimage(h, q.value.prevHash, q.value);
    (x != y && h.sha256(x) == h.sha256(y)) || (p != q && h.encode(p.value) == h.encode(q.value))
  }

  lemma {:induction false} HashBeforeIsDigest(h: Hashing, rows: seq<Row>, k: nat)
    requires k <= |rows| && PrefixSound(h, rows, k)
    ensures |HashBefore(rows, k)| == 64
  {
    if k > 0 {
      assert EntrySound(h, rows, k - 1);
    }
  }

  lemma {:induction false} SameHashSameEntry(h: Hashing, a: seq<Row>, b: seq<Row>, k: nat)
    requires k < |a| && k < |b| && PrefixSound(h, a, k + 1) && PrefixSound(h, b, k + 1)
    requires a[k].entryHash == b[k].entryHash
    ensures Collide(h, a[k], b[k])
         || (ExistingPayload(a[k]) == ExistingPayload(b[k]) && HashBefore(a, k) == HashBefore(b, k))
  {
    assert EntrySound(h, a, k) && EntrySound(h, b, k);
    var p, q := ExistingPayload(a[k]).value, ExistingPayload(b[k]).value;
    var x, y := Preimage(h, p.prevHash, p), Preimage(h, q.prevHash, q);
    if x == y {
      HashBeforeIsDigest(h, a, k);
      HashBeforeIsDigest(h, b, k);
      assert x[..64] == p.prevHash && y[..64] == q.prevHash;
      assert x[65..] == h.encode(p) && y[65..] == h.encode(q);
    }
  }

  /** The same event, details read back as empty where they are null, under the same chain metadata. */
  ghost predicate SameRecord(a: Row, b: Row)
  {
    && a.event.(details := b.event.details) == b.event
    && (a.event.details == b.event.details
        || {a.event.details, b.event.details} == {Null, Object(NoFields)})
    && a.sequence == b.sequence && a.prevHash == b.prevHash && a.chainVersion == b.chainVersion
    && a.entryHash == b.entryHash
  }

  lemma SamePayloadSameRecord(a: Row, b: Row)
    requires ExistingPayload(a).Some? && ExistingPayload(a) == ExistingPayload(b) && a.entryHash == b.entryHash
    ensures SameRecord(a, b)
  {
    var p, q := a.event.(details := OrEmpty(a.event.details)), b.event.(details := OrEmpty(b.event.details));
    assert p == q;
    assert a.event == p.(details := a.event.details) && b.event == q.(details := b.event.details);
  }

  /** Two sound chains that share the hash of entry n agree on every hashed field of their first n
      entries, or some pair of entries at one position exhibits a collision. So a head noted earlier
      keeps pinning the entries below it while the chain grows. */
  lemma {:induction false} SharedHashPinsPrefix(h: Hashing, a: seq<Row>, b: seq<Row>, n: nat)
    requires n <= |a| && n <= |b| && PrefixSound(h, a, n) && PrefixSound(h, b, n)
    requires HashBefore(a, n) == HashBefore(b, n)
    ensures (forall k :: 0 <= k < n ==> SameRecord(a[k], b[k]))
         || (exists k :: 0 <= k < n && Collide(h, a[k], b[k]))
  {
    if n > 0 {
      assert EntrySound(h, a, n - 1) && EntrySound(h, b, n - 1);
      SameHashSameEntry(h, a, b, n - 1);
      if !Collide(h, a[n - 1], b[n - 1]) {
        SamePayloadSameRecord(a[n - 1], b[n - 1]);
        SharedHashPinsPrefix(h, a, b, n - 1);
      }
    }
  }

  /** Tamper evidence: two row sets that both verify against one stored head list the same hashed
      records in the same order, or exhibit a collision between their entries at one position. */
  lemma {:induction false} TamperEvidence(h: Hashing, before: Database, after: Database, org: Option<string>)
    requires Valid(h, before, org) && Valid(h, after, org)
    requires StateOf(before, org) == StateOf(after, org)
    ensures var a, b := RowsBySequence(before.logs, org), RowsBySequence(after.logs, org);
            && |a| == |b|
            && ((forall k :: 0 <= k < |a| ==> SameRecord(a[k], b[k]))
                || (exists k :: 0 <= k < |a| && Collide(h, a[k], b[k])))
  {
    ValidIffChain(h, before, org);
    ValidIffChain(h, after, org);
    var a, b := RowsBySequence(before.logs, org), RowsBySequence(after.logs, org);
    SharedHashPinsPrefix(h, a, b, |a|);
  }

  lemma {:induction false} VerdictReadsOwnRows(h: Hashing, a: Database, b: Database, org: Option<string>)
    requires OrgRows(a.logs, org) == OrgRows(b.logs, org) && StateOf(a, org) == StateOf(b, org)
    ensures Verdict(h, a, org) == Verdict(h, b, org)
  {
  }

  // ----- writes

  /** What another organisation's write leaves alone. */
  lemma {:induction false} WriteElsewhere(h: Hashing, db: Database, event: Event, org: Option<string>)
    requires event.organizationId != org && ChainKey(event.organizationId) != ChainKey(org)
    ensures Verdict(h, AfterWrite(h, db, event), org) == Verdict(h, db, org)
  {
    var row := NextRow(h, LockedState(db, event.organizationId), event);
    OrgRowsAppend(db.logs, row, org);
    VerdictReadsOwnRows(h, AfterWrite(h, db, event), db, org);
  }

  /** A write to another organisation leaves a valid chain valid exactly when the two organisations do not
      share a chain key; they share one only if an id is empty or equal to the reserved key. */
  lemma {:induction false} WriteDisturbsIffKeysClash(h: Hashing, db: Database, event: Event, org: Option<string>)
    requires Valid(h, db, org) && event.organizationId != org
    ensures Valid(h, AfterWrite(h, db, event), org) <==> ChainKey(event.organizationId) != ChainKey(org)
  {
    if ChainKey(event.organizationId) != ChainKey(org) {
      WriteElsewhere(h, db, event, org);
    } else {
      var row := NextRow(h, LockedState(db, event.organizationId), event);
      OrgRowsAppend(db.logs, row, org);
      ValidIffChain(h, db, org);
      ValidIffChain(h, AfterWrite(h, db, event), org);
    }
  }

  /** An id that the chain key takes for the system's own chain. */
  predicate KeyedAsSystem(org: Option<string>)
  {
    org.None? || org.value in {"", SYSTEM_CHAIN_KEY}
  }

  /** Two organisations share a chain key exactly when each is the system itself, has an empty id, or bears the
      reserved key. */
  lemma KeysClashIff(a: Option<string>, b: Option<string>)
    requires a != b
    ensures ChainKey(a) == ChainKey(b) <==> KeyedAsSystem(a) && KeyedAsSystem(b)
  {
  }

  /** An organisation whose id is empty or the reserved key breaks the system's chain with its first entry. */
  lemma {:induction false} ReservedIdBreaksSystemChain(h: Hashing, first: Event, second: Event)
    requires first.organizationId == None && OrEmpty(first.details) == first.details
    requires second.organizationId == Some("") || second.organizationId == Some(SYSTEM_CHAIN_KEY)
    ensures var db := AfterWrite(h, Database([], map[]), first);
            Valid(h, db, None) && !Valid(h, AfterWrite(h, db, second), None)
  {
    WriteKeepsChain(h, Database([], map[]), first);
    KeysClashIff(second.organizationId, None);
    WriteDisturbsIffKeysClash(h, AfterWrite(h, Database([], map[]), first), second, None);
  }

  lemma {:induction false} ChainGrows(h: Hashing, order: seq<Row>, state: ChainState, event: Event)
    requires IsChain(h, order) && HeadMatches(Some(state), order)
    requires OrEmpty(event.details) == event.details
    ensures var row := NextRow(h, state, event);
            IsChain(h, order + [row]) && HashBefore(order + [row], |order| + 1) == row.entryHash.value
  {
    var row := NextRow(h, state, event);
    var grown := order + [row];
    HashBeforeIsDigest(h, order, |order|);
    forall k | 0 <= k < |grown| ensures EntrySound(h, grown, k) {
      assert HashBefore(grown, k) == HashBefore(order, k);
      if k < |order| {
        assert EntrySound(h, order, k);
      }
    }
  }

  /** Appending to a chain whose head the writer locked. */
  lemma {:induction false} WriteGrowsOrder(h: Hashing, db: Database, event: Event, order: seq<Row>)
    requires UniqueIds(db.logs) && (forall r :: r in db.logs ==> r.event.id != event.id)
    requires OrEmpty(event.details) == event.details
    requires multiset(order) == multiset(OrgRows(db.logs, event.organizationId))
    requires IsChain(h, order) && HeadMatches(Some(LockedState(db, event.organizationId)), order)
    ensures Valid(h, AfterWrite(h, db, event), event.organizationId)
  {
    var org := event.organizationId;
    var state := LockedState(db, org);
    var row := NextRow(h, state, event);
    var next := AfterWrite(h, db, event);
    OrgRowsAppend(db.logs, row, org);
    ChainGrows(h, order, state, event);
    assert UniqueIds(next.logs);
    ValidFromOrder(h, next, org, order + [row]);
  }

  /** Appending to a verifiable chain, or opening a chain for an organisation without rows, leaves it verifiable. */
  lemma {:induction false} WriteKeepsChain(h: Hashing, db: Database, event: Event)
    requires UniqueIds(db.logs) && (forall r :: r in db.logs ==> r.event.id != event.id)
    requires OrEmpty(event.details) == event.details
    requires var org := event.organizationId;
             if ChainKey(org) in db.states then Valid(h, db, org) else OrgRows(db.logs, org) == []
    ensures Valid(h, AfterWrite(h, db, event), event.organizationId)
  {
    var org := event.organizationId;
    if ChainKey(org) in db.states {
      ValidIffSomeOrderIsChain(h, db, org);
      var order :| multiset(order) == multiset(OrgRows(db.logs, org)) && IsChain(h, order)
          && HeadMatches(StateOf(db, org), order);
      WriteGrowsOrder(h, db, event, order);
    } else {
      WriteGrowsOrder(h, db, event, []);
    }
  }
}
