/** The audit tables and the three operations on them, as app/audit.py performs them step by step. */
module AuditStore {
  import opened Common
  import opened Redaction
  import opened AuditChain
  import opened AuditTheorems
  import opened AuditRebuild

  /** What is recorded of a request: its own words, the actor's id, the client, and the details redacted; the
      organisation is the one named, else the actor's, else the one the request was made for. */
  ghost predicate Records(request: AuditRequest, id: nat, now: int, event: Event)
  {
    && event.id == id && event.createdAt == now && event.action == request.action
    && event.severity == request.severity
    && event.entityType == request.entityType && event.entityId == request.entityId
    && (request.actor.None? ==> event.actorUserId == None)
    && (request.actor.Some? ==> event.actorUserId == Some(request.actor.value.id))
    && (request.request.None? ==> event.ipAddress == event.userAgent == event.requestId == None)
    && (request.request.Some? ==>
         && event.ipAddress == request.request.value.clientIp && event.requestId == request.request.value.requestId
         && (request.request.value.userAgent == "" <==> event.userAgent == None)
         && (event.userAgent.Some? ==>
              && event.userAgent.value <= request.request.value.userAgent && |event.userAgent.value| <= 500
              && (|event.userAgent.value| < 500 ==> event.userAgent.value == request.request.value.userAgent)))
    && RecordsOrganization(request, event.organizationId)
    && Clean(event.details)
    && event.details == Redact(if request.details.Null? then Object(NoFields) else request.details)
    && (Harmless(request.details) && !request.details.Null? ==> event.details == request.details)
  }

  ghost predicate RecordsOrganization(request: AuditRequest, org: Option<string>)
  {
    if request.organizationId.Some? && request.organizationId.value != "" then org == request.organizationId
    else if request.actor.Some? && request.actor.value.organizationId.Some? then
      org == request.actor.value.organizationId
    else org == if request.request.Some? then request.request.value.organizationId else None
  }

  /** The row's place in its chain: the next number after the head, linked to the head's hash. */
  ghost predicate Continues(h: Hashing, head: ChainState, row: Row)
  {
    && row.sequence == Some(head.lastSequence + 1) && row.chainVersion == Some(1) && row.prevHash.Some?
    && row.prevHash.value == (if head.lastHash == "" then ZERO_HASH else head.lastHash)
    && row.entryHash == Some(h.sha256(row.prevHash.value + "\n" +
                                      h.encode(Payload(row.event, row.sequence.value, row.prevHash.value, 1))))
  }

  lemma EventRecords(request: AuditRequest, id: nat, now: int)
    ensures Records(request, id, now, EventOf(request, id, now))
  {
    RedactCleans(OrEmpty(request.details));
    if Harmless(request.details) { HarmlessIsKept(request.details); }
  }

  class AuditTables {
    const hashing: Hashing
    var logs: seq<Row>
    var states: map<string, ChainState>

    constructor (hashing: Hashing)
      ensures this.hashing == hashing && Snapshot() == Database([], map[])
    {
      this.hashing := hashing;
      logs, states := [], map[];
    }

    function Snapshot(): Database
      reads this
    {
      Database(logs, states)
    }

    method LockChainState(organizationId: Option<string>) returns (state: ChainState)
      modifies this`states
      ensures state == LockedState(old(Snapshot()), organizationId)
      ensures states == old(states)[ChainKey(organizationId) := state]
    {
      var key := ChainKey(organizationId);
      if key !in states {
        states := states[key := ChainState(organizationId, 0, ZERO_HASH)];
      }
      state := states[key];
    }

    method WriteAudit(request: AuditRequest, id: nat, now: int) returns (row: Row)
      modifies this`logs, this`states
      ensures Snapshot() == AfterWrite(hashing, old(Snapshot()), EventOf(request, id, now))
      ensures logs == old(logs) + [row] && Records(request, id, now, row.event)
      ensures var org := row.event.organizationId;
              var key := if org.None? || org.value == "" then "__system__" else org.value;
              var head := if key in old(states) then old(states)[key] else ChainState(org, 0, ZERO_HASH);
              && Continues(hashing, head, row)
              && states == old(states)[key := ChainState(head.organizationId, row.sequence.value, row.entryHash.value)]
    {
      var event := EventOf(request, id, now);
      EventRecords(request, id, now);
      var state := LockChainState(event.organizationId);
      var sequence := state.lastSequence + 1;
      var prev := if state.lastHash == "" then ZERO_HASH else state.lastHash;
      var payload := Payload(event, sequence, prev, CHAIN_VERSION);
      var entryHash := EntryHash(hashing, prev, payload);
      row := Row(event, Some(sequence), Some(prev), Some(entryHash), Some(CHAIN_VERSION));
      logs := logs + [row];
      states := states[ChainKey(event.organizationId) := state.(lastSequence := sequence, lastHash := entryHash)];
    }

    /** Replays a chain; an error stands for the exception that the rehash of the named row raises. */
    method VerifyAuditChain(organizationId: Option<string>) returns (r: Result<Verification, nat>)
      ensures r == Verdict(hashing, Snapshot(), organizationId)
    {
      var all := RowsByTime(logs, organizationId);
      var chained := RowsBySequence(logs, organizationId);
      var legacy := |all| - |Chained(all)|;
      ChainedCount(all);
      var expectedSequence, expectedPrev, computedHead := 1, ZERO_HASH, ZERO_HASH;
      var firstError, firstErrorEntryId := None, None;
      var k := 0;
      while k < |chained|
        invariant 0 <= k <= |chained| && PrefixSound(hashing, chained, k)
        invariant expectedSequence == k + 1
        invariant expectedPrev == computedHead == HashBefore(chained, k)
        invariant firstError == None && firstErrorEntryId == None
      {
        var item := chained[k];
        if item.sequence != Some(expectedSequence) {
          firstError, firstErrorEntryId := Some(SequenceBroken(expectedSequence, item.sequence)), Some(item.event.id);
          break;
        }
        if item.prevHash != Some(expectedPrev) {
          firstError, firstErrorEntryId := Some(PreviousHashMismatch), Some(item.event.id);
          break;
        }
        var calculated := HashExistingLog(hashing, item);
        if calculated.None? {
          SoundLengthIs(hashing, chained, k);
          return Err(item.event.id);
        }
        if item.entryHash != calculated {
          firstError, firstErrorEntryId := Some(ContentMismatch), Some(item.event.id);
          break;
        }
        computedHead, expectedPrev := calculated.value, calculated.value;
        expectedSequence := expectedSequence + 1;
        k := k + 1;
      }
      if k < |chained| {
        SoundLengthIs(hashing, chained, k);
      }
      var state := StateOf(Snapshot(), organizationId);
      if firstError == None {
        if state.None? {
          firstError := Some(StateMissing);
        } else if state.value.lastSequence != |chained| {
          firstError := Some(StateSequenceWrong);
        } else if state.value.lastHash != computedHead {
          firstError := Some(StateHeadWrong);
        }
      }
      r := Ok(Verification(firstError == None && legacy == 0, organizationId, |chained|, legacy, firstError,
                           firstErrorEntryId, |chained|, computedHead, StoredHead(state)));
    }

    /** Rebuilds a chain row by row and verifies it. */
    method BackfillAuditChain(organizationId: Option<string>) returns (r: Result<Verification, nat>)
      requires UniqueIds(logs)
      modifies this`logs, this`states
      ensures Snapshot() == AfterBackfill(hashing, old(Snapshot()), organizationId)
      ensures r == Verdict(hashing, Snapshot(), organizationId) && r.Ok? && r.value.valid
    {
      var rows := RowsByTime(logs, organizationId);
      var state := LockChainState(organizationId);
      states := states[ChainKey(organizationId) := state.(lastSequence := 0, lastHash := ZERO_HASH)];
      var expectedPrev := RelinkRows(rows);
      states := states[ChainKey(organizationId) := state.(lastSequence := |rows|, lastHash := expectedPrev)];
      RebuiltVerdict(hashing, old(Snapshot()), organizationId, Snapshot());
      r := VerifyAuditChain(organizationId);
    }

    /** The rebuild's loop: gives each listed row its number, link and hash, and writes it back. */
    method RelinkRows(rows: seq<Row>) returns (expectedPrev: string)
      modifies this`logs
      ensures logs == PatchAll(old(logs), Relink(hashing, rows))
      ensures expectedPrev == HashBefore(Relink(hashing, rows), |rows|)
    {
      expectedPrev := ZERO_HASH;
      NothingPatched(logs);
      for k := 0 to |rows|
        invariant logs == PatchAll(old(logs), Relink(hashing, rows[..k]))
        invariant expectedPrev == HashBefore(Relink(hashing, rows[..k]), k)
      {
        var item := RelinkOne(hashing, rows[k], k + 1, expectedPrev);
        RelinkOneMore(hashing, rows, k);
        PatchOneMore(old(logs), Relink(hashing, rows[..k]), item);
        logs := PatchAll(logs, [item]);
        expectedPrev := item.entryHash.value;
      }
      assert rows[..|rows|] == rows;
    }
  }

  lemma {:induction false} RebuiltVerdict(h: Hashing, before: Database, org: Option<string>, next: Database)
    requires UniqueIds(before.logs)
    requires next.logs == PatchAll(before.logs, Relink(h, RowsByTime(before.logs, org)))
    requires var rebuilt := Relink(h, RowsByTime(before.logs, org));
             next.states == before.states[ChainKey(org) :=
               LockedState(before, org).(lastSequence := |rebuilt|, lastHash := HashBefore(rebuilt, |rebuilt|))]
    ensures next == AfterBackfill(h, before, org)
    ensures var verdict := Verdict(h, next, org); verdict.Ok? && verdict.value.valid
  {
    BackfillIsValid(h, before, org);
  }

  lemma NothingPatched(logs: seq<Row>)
    ensures PatchAll(logs, []) == logs
  {
  }

  lemma PatchOneMore(logs: seq<Row>, updates: seq<Row>, item: Row)
    ensures PatchAll(PatchAll(logs, updates), [item]) == PatchAll(logs, updates + [item])
  {
    assert (updates + [item])[..|updates|] == updates;
    assert [item][..0] == [];
    forall i | 0 <= i < |logs|
      ensures Patched(Patched(logs[i], updates), [item]) == Patched(logs[i], updates + [item])
    {
    }
  }

  lemma {:induction false} RelinkOneMore(h: Hashing, rows: seq<Row>, k: nat)
    requires k < |rows|
    ensures var before := Relink(h, rows[..k]);
            var item := RelinkOne(h, rows[k], k + 1, HashBefore(before, k));
            Relink(h, rows[..k + 1]) == before + [item]
            && HashBefore(Relink(h, rows[..k + 1]), k + 1) == item.entryHash.value
  {
    assert rows[..k + 1][..k] == rows[..k];
  }
}
