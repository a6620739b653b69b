/**
 The audit hash chain of app/audit.py as functions on values: what an appended entry contains,
 when a chain is sound, what the verifier answers and what the rebuild writes.
 SHA-256 and the canonical JSON text are parameters; nothing is assumed about either.
 */
module AuditChain {
  import opened Common
  import opened Redaction

  type Digest = s: string | |s| == 64 witness ZeroDigest()

  function ZeroDigest(): string { seq(64, _ => '0') }

  const ZERO_HASH: Digest := ZeroDigest()
  const SYSTEM_CHAIN_KEY := "__system__"
  const CHAIN_VERSION := 1

  /** The columns of an audit row that describe the event itself. Ids are ordered like their fixed-length text. */
  datatype Event = Event(
    id: nat, organizationId: Option<string>, actorUserId: Option<string>, action: string,
    entityType: Option<string>, entityId: Option<string>, severity: string, ipAddress: Option<string>,
    userAgent: Option<string>, requestId: Option<string>, details: Json, createdAt: int)

  /** An audit row: the event and its nullable chain metadata. */
  datatype Row = Row(
    event: Event, sequence: Option<int>, prevHash: Option<string>, entryHash: Option<string>,
    chainVersion: Option<int>)

  datatype ChainState = ChainState(organizationId: Option<string>, lastSequence: int, lastHash: string)

  datatype Database = Database(logs: seq<Row>, states: map<string, ChainState>)

  /** The record that is serialised and hashed. */
  datatype Payload = Payload(event: Event, sequence: int, prevHash: string, chainVersion: int)

  datatype Hashing = Hashing(encode: Payload -> string, sha256: string -> Digest)

  function ChainKey(organizationId: Option<string>): string
  {
    if organizationId.None? || organizationId.value == "" then SYSTEM_CHAIN_KEY else organizationId.value
  }

  function Preimage(h: Hashing, prev: string, payload: Payload): string
  {
    prev + "\n" + h.encode(payload)
  }

  function EntryHash(h: Hashing, prev: string, payload: Payload): Digest
  {
    h.sha256(Preimage(h, prev, payload))
  }

  /** The record an existing row is rehashed from, or None where the source raises. */
  function ExistingPayload(row: Row): Option<Payload>
  {
    if row.sequence.None? || row.prevHash.None? || row.chainVersion.None? then None
    else Some(Payload(row.event.(details := OrEmpty(row.event.details)),
                      row.sequence.value, row.prevHash.value, row.chainVersion.value))
  }

  function HashExistingLog(h: Hashing, row: Row): Option<Digest>
  {
    var payload := ExistingPayload(row);
    if payload.None? then None else Some(EntryHash(h, row.prevHash.value, payload.value))
  }

  // ----- selecting and ordering the rows of one chain

  function OrgRows(logs: seq<Row>, organizationId: Option<string>): seq<Row>
  {
    if logs == [] then []
    else if logs[0].event.organizationId == organizationId then [logs[0]] + OrgRows(logs[1..], organizationId)
    else OrgRows(logs[1..], organizationId)
  }

  predicate IsChained(row: Row) { row.sequence.Some? && row.entryHash.Some? }

  function Chained(rows: seq<Row>): seq<Row>
  {
    if rows == [] then []
    else if IsChained(rows[0]) then [rows[0]] + Chained(rows[1..])
    else Chained(rows[1..])
  }

  predicate TimeLe(a: Row, b: Row)
  {
    a.event.createdAt < b.event.createdAt
    || (a.event.createdAt == b.event.createdAt && a.event.id <= b.event.id)
  }

  function SequenceKey(row: Row): int { if row.sequence.Some? then row.sequence.value else 0 }

  predicate SequenceLe(a: Row, b: Row)
  {
    SequenceKey(a) < SequenceKey(b) || (SequenceKey(a) == SequenceKey(b) && TimeLe(a, b))
  }

  function RowsByTime(logs: seq<Row>, organizationId: Option<string>): seq<Row>
  {
    Sort(TimeLe, OrgRows(logs, organizationId))
  }

  function RowsBySequence(logs: seq<Row>, organizationId: Option<string>): seq<Row>
  {
    Sort(SequenceLe, Chained(RowsByTime(logs, organizationId)))
  }

  // ----- what a sound chain is

  function HashBefore(rows: seq<Row>, k: nat): string
    requires k <= |rows|
  {
    if k == 0 || rows[k - 1].entryHash.None? then ZERO_HASH else rows[k - 1].entryHash.value
  }

  /** Entry k carries number k+1, links to entry k-1 and rehashes to its stored hash. */
  predicate EntrySound(h: Hashing, rows: seq<Row>, k: nat)
    requires k < |rows|
  {
    && rows[k].sequence == Some(k + 1)
    && rows[k].prevHash == Some(HashBefore(rows, k))
    && rows[k].entryHash.Some?
    && HashExistingLog(h, rows[k]) == rows[k].entryHash
  }

  ghost predicate PrefixSound(h: Hashing, rows: seq<Row>, n: nat)
    requires n <= |rows|
  {
    forall k :: 0 <= k < n ==> EntrySound(h, rows, k)
  }

  ghost predicate IsChain(h: Hashing, rows: seq<Row>)
  {
    PrefixSound(h, rows, |rows|)
  }

  predicate HeadMatches(state: Option<ChainState>, rows: seq<Row>)
  {
    state.Some? && state.value.lastSequence == |rows| && state.value.lastHash == HashBefore(rows, |rows|)
  }

  // ----- what the verifier answers

  datatype Fault =
    | SequenceBroken(expected: int, found: Option<int>)
    | PreviousHashMismatch
    | ContentMismatch
    | StateMissing
    | StateSequenceWrong
    | StateHeadWrong

  datatype Verification = Verification(
    valid: bool, organizationId: Option<string>, checkedEntries: nat, legacyEntries: nat,
    firstError: Option<Fault>, firstErrorEntryId: Option<nat>, headSequence: nat,
    computedHeadHash: string, storedHeadHash: Option<string>)

  /** The length of the longest sound prefix. */
  function SoundLength(h: Hashing, rows: seq<Row>): (n: nat)
    ensures n <= |rows| && PrefixSound(h, rows, n)
    ensures n < |rows| ==> !EntrySound(h, rows, n)
  {
    SoundLengthFrom(h, rows, 0)
  }

  function SoundLengthFrom(h: Hashing, rows: seq<Row>, k: nat): (n: nat)
    requires k <= |rows| && PrefixSound(h, rows, k)
    ensures n <= |rows| && PrefixSound(h, rows, n)
    ensures n < |rows| ==> !EntrySound(h, rows, n)
    decreases |rows| - k
  {
    if k < |rows| && EntrySound(h, rows, k) then SoundLengthFrom(h, rows, k + 1) else k
  }

  /** Why entry k is unsound; None where the rehash raises instead of answering. */
  function FaultAt(h: Hashing, rows: seq<Row>, k: nat): Option<Fault>
    requires k < |rows|
  {
    if rows[k].sequence != Some(k + 1) then Some(SequenceBroken(k + 1, rows[k].sequence))
    else if rows[k].prevHash != Some(HashBefore(rows, k)) then Some(PreviousHashMismatch)
    else if rows[k].chainVersion.None? then None
    else Some(ContentMismatch)
  }

  function HeadFault(state: Option<ChainState>, rows: seq<Row>): Option<Fault>
  {
    if state.None? then Some(StateMissing)
    else if state.value.lastSequence != |rows| then Some(StateSequenceWrong)
    else if state.value.lastHash != HashBefore(rows, |rows|) then Some(StateHeadWrong)
    else None
  }

  function StateOf(db: Database, organizationId: Option<string>): Option<ChainState>
  {
    var key := ChainKey(organizationId);
    if key in db.states then Some(db.states[key]) else None
  }

  function StoredHead(state: Option<ChainState>): Option<string>
  {
    if state.Some? then Some(state.value.lastHash) else None
  }

  /** The verifier's answer; an error names the row whose rehash raised. */
  function Verdict(h: Hashing, db: Database, organizationId: Option<string>): Result<Verification, nat>
  {
    var all := RowsByTime(db.logs, organizationId);
    var rows := RowsBySequence(db.logs, organizationId);
    var legacy := |all| - |Chained(all)|;
    ChainedCount(all);
    var state := StateOf(db, organizationId);
    var n := SoundLength(h, rows);
    if n < |rows| then
      match FaultAt(h, rows, n)
      case None => Err(rows[n].event.id)
      case Some(fault) =>
        Ok(Verification(false, organizationId, |rows|, legacy, Some(fault), Some(rows[n].event.id),
                        |rows|, HashBefore(rows, n), StoredHead(state)))
    else
      var fault := HeadFault(state, rows);
      Ok(Verification(fault.None? && legacy == 0, organizationId, |rows|, legacy, fault, None,
                      |rows|, HashBefore(rows, n), StoredHead(state)))
  }

  predicate Valid(h: Hashing, db: Database, organizationId: Option<string>)
  {
    var verdict := Verdict(h, db, organizationId);
    verdict.Ok? && verdict.value.valid
  }

  // ----- appending an entry

  datatype Actor = Actor(id: string, organizationId: Option<string>)

  datatype HttpRequest = HttpRequest(
    organizationId: Option<string>, clientIp: Option<string>, userAgent: string, requestId: Option<string>)

  datatype AuditRequest = AuditRequest(
    action: string, actor: Option<Actor>, organizationId: Option<string>, entityType: Option<string>,
    entityId: Option<string>, severity: string, details: Json, request: Option<HttpRequest>)

  predicate Truthy(s: Option<string>) { s.Some? && s.value != "" }

  function ResolveOrganization(r: AuditRequest): Option<string>
  {
    var resolved :=
      if Truthy(r.organizationId) then r.organizationId
      else if r.actor.Some? then r.actor.value.organizationId else None;
    if resolved.None? && r.request.Some? then r.request.value.organizationId else resolved
  }

  function UserAgent(request: HttpRequest): Option<string>
  {
    var text := if |request.userAgent| > 500 then request.userAgent[..500] else request.userAgent;
    if text == "" then None else Some(text)
  }

  function EventOf(r: AuditRequest, id: nat, now: int): Event
  {
    Event(id, ResolveOrganization(r), if r.actor.Some? then Some(r.actor.value.id) else None, r.action,
          r.entityType, r.entityId, r.severity,
          if r.request.Some? then r.request.value.clientIp else None,
          if r.request.Some? then UserAgent(r.request.value) else None,
          if r.request.Some? then r.request.value.requestId else None,
          Redact(OrEmpty(r.details)), now)
  }

  /** The head a writer continues from, creating the chain on first use. */
  function LockedState(db: Database, organizationId: Option<string>): ChainState
  {
    var state := StateOf(db, organizationId);
    if state.Some? then state.value else ChainState(organizationId, 0, ZERO_HASH)
  }

  function NextRow(h: Hashing, state: ChainState, event: Event): Row
  {
    var sequence := state.lastSequence + 1;
    var prev := if state.lastHash == "" then ZERO_HASH else state.lastHash;
    Row(event, Some(sequence), Some(prev),
        Some(EntryHash(h, prev, Payload(event, sequence, prev, CHAIN_VERSION))), Some(CHAIN_VERSION))
  }

  function AfterWrite(h: Hashing, db: Database, event: Event): Database
  {
    var state := LockedState(db, event.organizationId);
    var row := NextRow(h, state, event);
    Database(db.logs + [row],
             db.states[ChainKey(event.organizationId) :=
               state.(lastSequence := row.sequence.value, lastHash := row.entryHash.value)])
  }

  // ----- rebuilding a chain

  /** The rows with fresh chain metadata, numbered and linked in the given order. */
  function Relink(h: Hashing, rows: seq<Row>): (r: seq<Row>)
    ensures |r| == |rows|
  {
    if rows == [] then [] else
      var before := Relink(h, rows[..|rows| - 1]);
      before + [RelinkOne(h, rows[|rows| - 1], |rows|, HashBefore(before, |before|))]
  }

  function RelinkOne(h: Hashing, row: Row, sequence: int, prev: string): (r: Row)
    ensures HashExistingLog(h, r) == r.entryHash && r.entryHash.Some?
  {
    var linked := Row(row.event, Some(sequence), Some(prev), None, Some(CHAIN_VERSION));
    linked.(entryHash := Some(HashExistingLog(h, linked).value))
  }

  /** Writing chain metadata to a row leaves its event columns alone. */
  function WithMetadata(row: Row, update: Row): Row
  {
    update.(event := row.event)
  }

  /** The stored row after the metadata of every row of `updates` was written back by primary key. */
  function Patched(row: Row, updates: seq<Row>): (r: Row)
    ensures r.event == row.event
  {
    if updates == [] then row
    else
      var last := updates[|updates| - 1];
      if last.event.id == row.event.id then WithMetadata(row, last) else Patched(row, updates[..|updates| - 1])
  }

  function PatchAll(logs: seq<Row>, updates: seq<Row>): seq<Row>
  {
    Map(row => Patched(row, updates), logs)
  }

  function AfterBackfill(h: Hashing, db: Database, organizationId: Option<string>): Database
  {
    var rebuilt := Relink(h, RowsByTime(db.logs, organizationId));
    Database(PatchAll(db.logs, rebuilt),
             db.states[ChainKey(organizationId) :=
               LockedState(db, organizationId).(lastSequence := |rebuilt|,
                                               lastHash := HashBefore(rebuilt, |rebuilt|))])
  }

  lemma {:induction false} ChainedCount(rows: seq<Row>)
    ensures |Chained(rows)| <= |rows|
    ensures |Chained(rows)| == |rows| <==> forall i :: 0 <= i < |rows| ==> IsChained(rows[i])
    ensures |Chained(rows)| == |rows| ==> Chained(rows) == rows
  {
    if rows != [] {
      ChainedCount(rows[1..]);
      assert forall i :: 1 <= i < |rows| ==> rows[i] == rows[1..][i - 1];
    }
  }
}
