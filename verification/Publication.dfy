/** The catalog transactions of `maais/db/repositories/artifacts.py` and
    `maais/db/repositories/scheduled_operations.py`.  Each transaction is one atomic step, and
    transactions run one after another: rows that are read without a lock do not change before the end. */
module Publication {
  import opened Results
  import opened ArtifactModels
  import opened Catalog
  import opened CatalogRuns
  import Sorting

  // ------------------------------------------------------------------ reading the catalog

  /** The rows of a stream in the order the query asks for. */
  function Rows(t: Tables, key: StreamKey): seq<Record> { Sorting.Sort(BySequence, Stream(t.records, key)) }

  ghost predicate Verifiable(h: Rules, rows: seq<Record>) {
    Chained(rows) && RecordsValid(h, rows)
  }

  /** The verification loop: all rows pass `valid` and form a chain, or the walk stops with an error. */
  method VerifyRows(valid: Record -> bool, rows: seq<Record>) returns (r: Result<seq<Record>, string>)
    ensures r.Ok? <==> Chained(rows) && forall i :: 0 <= i < |rows| ==> valid(rows[i])
    ensures r.Ok? ==> r.value == rows
  {
    var records: seq<Record> := [];
    var previous := GENESIS_EVIDENCE_HASH;
    for i := 0 to |rows|
      invariant records == rows[..i]
      invariant previous == if i == 0 then GENESIS_EVIDENCE_HASH else rows[i - 1].contentHash
      invariant forall j :: 0 <= j < i ==> Follows(rows, j)
      invariant forall j :: 0 <= j < i ==> valid(rows[j])
    {
      var row := rows[i];
      if !valid(row) {
        return Err("artifact catalog row failed content validation");
      }
      assert Follows(rows, i) <==> row.payload.sequence == i + 1 && row.payload.previousHash == previous;
      if row.payload.sequence != i + 1 || row.payload.previousHash != previous {
        return Err("artifact catalog chain is discontinuous");
      }
      Sorting.PrefixSnoc(rows, i);
      records := records + [row];
      previous := row.contentHash;
    }
    return Ok(records);
  }

  /** `list_stream` returns the rows exactly when the whole chain checks out. */
  method ListStream(h: Rules, t: Tables, key: StreamKey) returns (r: Result<seq<Record>, string>)
    ensures r.Ok? <==> Verifiable(h, Rows(t, key))
    ensures r.Ok? ==> r.value == Rows(t, key)
  {
    r := VerifyRows(h.valid, Rows(t, key));
  }

  /** In a consistent database every stream can be listed, in insertion order. */
  lemma {:induction false} StreamListable(h: Rules, t: Tables, key: StreamKey)
    requires Consistent(h, t)
    ensures Rows(t, key) == Stream(t.records, key) && Verifiable(h, Rows(t, key))
  {
    SequenceOrder(t.records, key);
    var s := Stream(t.records, key);
    forall i | 0 <= i < |s| ensures h.valid(s[i]) {
      StreamMember(t.records, key, i);
    }
  }

  /** `found` is the catalog's record for the report, if it has one. */
  ghost predicate Finds(t: Tables, report: ReportKey, found: Option<Record>) {
    match found
    case Some(r) => r in t.records && r.payload.report == report
    case None => forall i :: 0 <= i < |t.records| ==> t.records[i].payload.report != report
  }

  /** The first record of the given type and report ID. */
  method FirstMatch(records: seq<Record>, artifactType: string, reportId: string) returns (r: Option<Record>)
    ensures r.Some? ==> r.value in records && r.value.payload.report.artifactType == artifactType
                        && r.value.payload.report.reportId == reportId
    ensures r.None? ==> forall i :: 0 <= i < |records| ==>
                          records[i].payload.report.artifactType != artifactType
                          || records[i].payload.report.reportId != reportId
  {
    for i := 0 to |records|
      invariant forall j :: 0 <= j < i ==>
                              records[j].payload.report.artifactType != artifactType
                              || records[j].payload.report.reportId != reportId
    {
      var report := records[i].payload.report;
      if report.artifactType == artifactType && report.reportId == reportId {
        return Some(records[i]);
      }
    }
    return None;
  }

  /** `find_report` raises exactly when the stream does not check out, and else finds the report's record or
      that there is none. */
  method FindReport(h: Rules, t: Tables, report: ReportKey) returns (r: Result<Option<Record>, string>)
    ensures r.Ok? <==> Verifiable(h, Rows(t, report.stream))
    ensures r.Ok? ==> Finds(t, report, r.value)
  {
    var listed := ListStream(h, t, report.stream);
    if listed.Err? {
      return Err(listed.error);
    }
    var found := FirstMatch(listed.value, report.artifactType, report.reportId);
    MatchFinds(t, report, found);
    return Ok(found);
  }

  lemma {:induction false} MatchFinds(t: Tables, report: ReportKey, found: Option<Record>)
    requires found.Some? ==> found.value in Rows(t, report.stream)
                             && found.value.payload.report.artifactType == report.artifactType
                             && found.value.payload.report.reportId == report.reportId
    requires found.None? ==> var s := Rows(t, report.stream);
                             forall i :: 0 <= i < |s| ==>
                               s[i].payload.report.artifactType != report.artifactType
                               || s[i].payload.report.reportId != report.reportId
    ensures Finds(t, report, found)
  {
    Sorting.SortKeepsElements(BySequence, Stream(t.records, report.stream));
    if found.None? {
      forall i | 0 <= i < |t.records| ensures t.records[i].payload.report != report {
        assert Belongs(report.stream, t.records[i]) ==> t.records[i] in Rows(t, report.stream);
      }
    }
  }

  /** A report is found at most once. */
  lemma {:induction false} FindsOne(h: Rules, t: Tables, report: ReportKey, a: Option<Record>, b: Option<Record>)
    requires Consistent(h, t) && Finds(t, report, a) && Finds(t, report, b)
    ensures a == b
  {
    if a.Some? && b.Some? {
      var i :| 0 <= i < |t.records| && t.records[i] == a.value;
      var j :| 0 <= j < |t.records| && t.records[j] == b.value;
    }
  }

  function NextPosition(t: Tables, key: StreamKey): (int, Digest) {
    var rows := Rows(t, key);
    if rows == [] then (1, GENESIS_EVIDENCE_HASH)
    else (rows[|rows| - 1].payload.sequence + 1, rows[|rows| - 1].contentHash)
  }

  lemma {:induction false} NextPositionIsEnd(h: Rules, t: Tables, key: StreamKey)
    requires Consistent(h, t)
    ensures NextPosition(t, key) == (|Stream(t.records, key)| + 1, TipHash(Stream(t.records, key)))
  {
    StreamListable(h, t, key);
    Dense(Stream(t.records, key));
  }

  // ------------------------------------------------------------------ transactions

  /** Why a transaction rolls back. */
  datatype Refusal =
    | InvalidValue
    | RecordImmutable
    | AttemptMissing
    | AttemptMismatch
    | AuthorityInconsistent
    | SequenceNotContiguous
    | PreviousHashNotHead
    | CatalogConflict
    | FailureImmutable
    | AlreadySucceeded
    | TriggerRaised


  predicate Published(t: Tables, report: ReportKey) {
    exists i :: 0 <= i < |t.records| && t.records[i].payload.report == report
  }

  /** The transaction that catalogs a record and completes its attempt. */
  function RecordPublication(h: Rules, t: Tables, r: Record): Result<Tables, Refusal> {
    var p := r.payload;
    var next := NextPosition(t, p.report.stream);
    if Published(t, p.report) then
      if r in t.records then Ok(t) else Err(RecordImmutable)
    else if p.attemptId !in t.attempts then Err(AttemptMissing)
    else
      var a := t.attempts[p.attemptId];
      if !(a.status.Started? && a.operationId == p.operationId && a.bundleHash == p.bundleHash)
      then Err(AttemptMismatch)
      else if !Authorised(t, p) then Err(AuthorityInconsistent)
      else if p.sequence != next.0 then Err(SequenceNotContiguous)
      else if p.previousHash != next.1 then Err(PreviousHashNotHead)
      else if !Unclashing(t.records, p) then Err(CatalogConflict)
      else if !Admitted(h, t, InsertRecord(r)) then Err(TriggerRaised)
      else
        var recorded := Applied(h, t, InsertRecord(r));
        var done := CompleteAttempt(a, p.recordedAt);
        if done.Err? then Err(InvalidValue)
        else if !Admitted(h, recorded, UpdateAttempt(done.value)) then Err(TriggerRaised)
        else Ok(Applied(h, recorded, UpdateAttempt(done.value)))
  }

  lemma {:induction false} VersionsKept(p: Payload)
    requires InventoriesAgree(p)
    ensures forall i :: 0 <= i < |p.canonical| ==> VersionKept(p.canonical[i])
  {
    forall i | 0 <= i < |p.canonical| ensures VersionKept(p.canonical[i]) {
      assert Paired(p.replica[i], p.canonical[i]);
    }
  }

  lemma {:induction false} GenuineRecord(h: Rules, r: Record)
    requires Genuine(h) && h.valid(r)
    ensures InventoriesAgree(r.payload) && 1 <= r.payload.sequence
  {
  }

  lemma {:induction false} InsertAdmitted(h: Rules, t: Tables, r: Record)
    requires Consistent(h, t) && h.valid(r) && InventoriesAgree(r.payload) && 1 <= r.payload.sequence
    requires Authorised(t, r.payload) && Unclashing(t.records, r.payload)
    requires (r.payload.sequence, r.payload.previousHash) == NextPosition(t, r.payload.report.stream)
    ensures Admitted(h, t, InsertRecord(r))
  {
    NextPositionIsEnd(h, t, r.payload.report.stream);
    VersionsKept(r.payload);
    NextIsPositioned(t.records, r.payload);
  }

  lemma {:induction false} CompletionAdmitted(h: Rules, t: Tables, r: Record, a: Attempt, done: Attempt)
    requires r.payload.attemptId in t.attempts && t.attempts[r.payload.attemptId] == a && a.id == r.payload.attemptId
    requires CompleteAttempt(a, r.payload.recordedAt) == Ok(done)
    ensures Admitted(h, t.(records := t.records + [r]), UpdateAttempt(done))
  {
    var recorded := t.(records := t.records + [r]);
    assert recorded.records[|t.records|] == r;
    assert Cataloged(recorded, a.id);
  }

  /** The transaction's own checks are enough: once they pass, no trigger raises. */
  lemma {:induction false} TriggersNeverRaise(h: Rules, t: Tables, r: Record)
    requires Genuine(h) && Consistent(h, t) && h.valid(r)
    ensures RecordPublication(h, t, r) != Err(TriggerRaised)
  {
    var p := r.payload;
    if Authorised(t, p) && Unclashing(t.records, p)
       && (p.sequence, p.previousHash) == NextPosition(t, p.report.stream) {
      GenuineRecord(h, r);
      InsertAdmitted(h, t, r);
      var a := t.attempts[p.attemptId];
      var done := CompleteAttempt(a, p.recordedAt);
      if done.Ok? {
        CompletionAdmitted(h, t, r, a, done.value);
      }
    }
  }

  /** A record at the next position is never refused for its position. */
  lemma {:induction false} NextPositionFits(h: Rules, t: Tables, r: Record)
    requires (r.payload.sequence, r.payload.previousHash) == NextPosition(t, r.payload.report.stream)
    ensures RecordPublication(h, t, r) != Err(SequenceNotContiguous)
    ensures RecordPublication(h, t, r) != Err(PreviousHashNotHead)
  {
  }

  /** No record carries this identifier. */
  predicate FreshRecordId(t: Tables, id: Id) {
    forall i :: 0 <= i < |t.records| ==> t.records[i].payload.id != id
  }

  lemma {:induction false} UnclashingIff(h: Rules, t: Tables, p: Payload)
    requires Consistent(h, t) && !Published(t, p.report)
    requires (p.sequence, p.previousHash) == NextPosition(t, p.report.stream)
    ensures Unclashing(t.records, p) <==> FreshRecordId(t, p.id) && !Cataloged(t, p.attemptId)
  {
    NextPositionIsEnd(h, t, p.report.stream);
    NextIsPositioned(t.records, p);
    if FreshRecordId(t, p.id) && !Cataloged(t, p.attemptId) {
      forall i | 0 <= i < |t.records| ensures !Clash(t.records[i].payload, p) {
        assert t.records[i].payload.report != p.report;
      }
    }
  }

  /** A record of a new report at the next position is committed exactly when its authority is consistent, its
      identifier and its attempt are not in the catalog, and it is not recorded before its attempt began. */
  lemma {:induction false} PublicationAcceptedIff(h: Rules, t: Tables, r: Record)
    requires Genuine(h) && Consistent(h, t) && h.valid(r) && !Published(t, r.payload.report)
    requires (r.payload.sequence, r.payload.previousHash) == NextPosition(t, r.payload.report.stream)
    ensures var p := r.payload;
            RecordPublication(h, t, r).Ok? <==>
            && Authorised(t, p) && FreshRecordId(t, p.id) && !Cataloged(t, p.attemptId)
            && t.attempts[p.attemptId].startedAt <= p.recordedAt
  {
    var p := r.payload;
    UnclashingIff(h, t, p);
    TriggersNeverRaise(h, t, r);
    if Authorised(t, p) { AttemptTransitionsIff(t.attempts[p.attemptId], p.recordedAt, ""); }
  }

  /** A report that is already in the catalog is accepted again exactly as the very record that is there, and nothing
      is written. */
  lemma {:induction false} RepublishedIff(h: Rules, t: Tables, r: Record)
    requires Published(t, r.payload.report)
    ensures RecordPublication(h, t, r) == if r in t.records then Ok(t) else Err(RecordImmutable)
  {
  }

  /** A new report is refused for its attempt exactly when the attempt is missing, or is not an open one of the
      record's operation and bundle. */
  lemma {:induction false} AttemptRefusedIff(h: Rules, t: Tables, r: Record)
    requires !Published(t, r.payload.report)
    ensures RecordPublication(h, t, r) == Err(AttemptMissing) <==> r.payload.attemptId !in t.attempts
    ensures RecordPublication(h, t, r) == Err(AttemptMismatch) <==>
            r.payload.attemptId in t.attempts && !OpenAttempt(t, r.payload)
  {
  }

  /** What a committed publication does: the record joins the end of the catalog and its attempt, until
      then open, is complete; nothing else changes. */
  lemma {:induction false} PublicationEffect(h: Rules, t: Tables, r: Record)
    requires Consistent(h, t) && h.valid(r) && RecordPublication(h, t, r).Ok? && r !in t.records
    ensures var t' := RecordPublication(h, t, r).value;
            && t'.records == t.records + [r] && !Published(t, r.payload.report)
            && r.payload.attemptId in t.attempts && t.attempts[r.payload.attemptId].status.Started?
            && r.payload.attemptId in t'.attempts && t'.attempts[r.payload.attemptId].status.Completed?
            && t'.attempts.Keys == t.attempts.Keys && t'.operations == t.operations
            && t'.services == t.services && t'.runs == t.runs
            && forall k :: k in t.attempts && k != r.payload.attemptId ==> t'.attempts[k] == t.attempts[k]
  {
    assert t.attempts[r.payload.attemptId].id == r.payload.attemptId;
  }

  /** A publication that adds a record is two admitted writes. */
  lemma {:induction false} PublicationWrites(h: Rules, t: Tables, r: Record) returns (done: Attempt)
    requires RecordPublication(h, t, r).Ok? && !Published(t, r.payload.report)
    ensures Admitted(h, t, InsertRecord(r))
    ensures var recorded := Applied(h, t, InsertRecord(r));
            && Admitted(h, recorded, UpdateAttempt(done))
            && RecordPublication(h, t, r).value == Applied(h, recorded, UpdateAttempt(done))
  {
    done := CompleteAttempt(t.attempts[r.payload.attemptId], r.payload.recordedAt).value;
  }

  lemma {:induction false} PublicationGrows(h: Rules, t: Tables, r: Record)
    requires RecordPublication(h, t, r).Ok?
    ensures t.records <= RecordPublication(h, t, r).value.records
    ensures r in RecordPublication(h, t, r).value.records
  {
    if !Published(t, r.payload.report) {
      var done := PublicationWrites(h, t, r);
      assert RecordPublication(h, t, r).value.records == t.records + [r];
      assert (t.records + [r])[|t.records|] == r;
    }
  }

  lemma {:induction false} PublicationKeeps(h: Rules, t: Tables, r: Record)
    requires Consistent(h, t) && RecordPublication(h, t, r).Ok?
    ensures Consistent(h, RecordPublication(h, t, r).value)
    ensures t.records <= RecordPublication(h, t, r).value.records
    ensures r in RecordPublication(h, t, r).value.records
  {
    PublicationGrows(h, t, r);
    if !Published(t, r.payload.report) {
      var done := PublicationWrites(h, t, r);
      WriteKeeps(h, t, InsertRecord(r));
      WriteKeeps(h, Applied(h, t, InsertRecord(r)), UpdateAttempt(done));
    }
  }

  /** `number` is the highest attempt number the operation has used, zero if none. */
  ghost predicate LastAttempt(t: Tables, operationId: Id, number: nat) {
    && (forall k :: k in t.attempts && t.attempts[k].operationId == operationId ==> t.attempts[k].number <= number)
    && (0 < number ==> exists k :: k in t.attempts && t.attempts[k].operationId == operationId
                                   && t.attempts[k].number == number)
  }

  /** The transaction that opens an attempt commits with `a`. */
  ghost predicate BeginsAttempt(t: Tables, operationId: Id, bundleHash: Digest, a: Attempt) {
    && 0 < a.number && LastAttempt(t, operationId, a.number - 1)
    && StartAttempt(a.id, operationId, a.number, bundleHash, a.startedAt) == Ok(a)
    && a.id !in t.attempts && operationId in t.operations
    && t.operations[operationId].status.Running? && t.operations[operationId].startedAt <= a.startedAt
  }

  lemma {:induction false} BeginAdmitted(h: Rules, t: Tables, operationId: Id, bundleHash: Digest, a: Attempt)
    requires BeginsAttempt(t, operationId, bundleHash, a)
    ensures Admitted(h, t, InsertAttempt(a))
  {
  }

  /** The transaction that records a failure. */
  function FailAttempt(h: Rules, t: Tables, id: Id, reason: string, at: Time): Result<Tables, Refusal> {
    if id !in t.attempts then Err(AttemptMissing)
    else
      var a := t.attempts[id];
      if a.status.Abandoned? then
        if a.reason == Some(reason) && a.completedAt == Some(at) then Ok(t) else Err(FailureImmutable)
      else if a.status.Completed? then Err(AlreadySucceeded)
      else
        var failed := AbandonAttempt(a, reason, at);
        if failed.Err? then Err(InvalidValue)
        else if !Admitted(h, t, UpdateAttempt(failed.value)) then Err(TriggerRaised)
        else Ok(Applied(h, t, UpdateAttempt(failed.value)))
  }

  /** Exactly when a failure can be recorded, and what it changes: an open attempt without a record, with a
      trimmed reason and not before its start, becomes failed with that reason and time; a repetition of a
      recorded failure changes nothing. */
  lemma {:induction false} FailureRecordedIff(h: Rules, t: Tables, id: Id, reason: string, at: Time)
    requires Consistent(h, t)
    ensures var out := FailAttempt(h, t, id, reason, at);
            && (out.Ok? <==>
                  && id in t.attempts
                  && var a := t.attempts[id];
                     || (a.status == Abandoned && a.reason == Some(reason) && a.completedAt == Some(at))
                     || (a.status == Started && !Cataloged(t, id) && Trimmed(reason) && a.startedAt <= at))
            && (out.Ok? ==>
                  && id in out.value.attempts && out.value == t.(attempts := t.attempts[id := out.value.attempts[id]])
                  && out.value.attempts[id] ==
                     t.attempts[id].(status := Abandoned, reason := Some(reason), completedAt := Some(at)))
  {
    if id in t.attempts {
      AttemptEndingIff(t, t.attempts[id], reason, at);
      assert t.attempts == t.attempts[id := t.attempts[id]];
    }
  }

  lemma {:induction false} FailureKeeps(h: Rules, t: Tables, id: Id, reason: string, at: Time)
    requires Consistent(h, t) && FailAttempt(h, t, id, reason, at).Ok?
    ensures Consistent(h, FailAttempt(h, t, id, reason, at).value)
    ensures FailAttempt(h, t, id, reason, at).value.records == t.records
  {
    if t.attempts[id].status.Started? {
      WriteKeeps(h, t, UpdateAttempt(AbandonAttempt(t.attempts[id], reason, at).value));
    }
  }

  /** A failure report for a cataloged attempt is refused, whatever the attempt's status. */
  lemma {:induction false} CatalogedCannotFail(h: Rules, t: Tables, id: Id, reason: string, at: Time)
    requires Consistent(h, t) && Cataloged(t, id)
    ensures FailAttempt(h, t, id, reason, at).Err?
  {
    var i :| 0 <= i < |t.records| && t.records[i].payload.attemptId == id;
    assert Backed(t, t.records[i].payload);
  }

  // ------------------------------------------------------------------ operation ownership

  predicate EligibleOwner(t: Tables, c: Operation) {
    && c.owner in t.services && c.runId in t.runs
    && var owner := t.services[c.owner];
    && owner.runId == Some(c.runId) && owner.role == "operations" && owner.stoppedAt.None?
    && owner.firstSeenAt <= c.startedAt && t.runs[c.runId].experimentId == c.experimentId
  }

  /** `acquire` for a new running candidate when `current` already holds its slot: the operation as it
      is, or the takeover to be written. */
  function Reacquire(t: Tables, current: Operation, c: Operation): Result<Operation, string> {
    if current.experimentId != c.experimentId then Err("operation key belongs to another experiment")
    else if current.status.Succeeded? then Ok(current)
    else if current.status.Running? && current.owner == c.owner then Ok(current)
    else if current.owner != c.owner && !(current.owner in t.services && t.services[current.owner].stoppedAt.Some?)
    then Err("scheduled operation has an active owner and cannot be taken over")
    else if current.owner != c.owner && c.startedAt < t.services[current.owner].stoppedAt.value
    then Err("operation takeover cannot precede the previous owner's terminal time")
    else Takeover(current, c.owner, c.startedAt)
  }

  /** Exactly when an operation that is already there is given out, and as what: one that has succeeded or that
      the asking boot is running, as it is; else, if the boot failed it itself or its owner stopped before the
      new start, restarted under the asking boot. */
  lemma {:induction false} ReacquireIff(t: Tables, current: Operation, c: Operation)
    requires ValidOperation(current)
    ensures var mine, out := current.owner == c.owner, Reacquire(t, current, c);
            && (out.Ok? <==>
                  && current.experimentId == c.experimentId
                  && (current.status == Succeeded || (current.status == Running && mine)
                      || ((mine || StoppedBy(t, current.owner, c.startedAt))
                          && c.owner != 0 && current.generatedAt <= c.startedAt)))
            && (out.Ok? ==>
                  if current.status == Succeeded || (current.status == Running && mine) then out.value == current
                  else
                    && SameOperation(current, out.value) && out.value.status == Running
                    && out.value.owner == c.owner && out.value.startedAt == c.startedAt
                    && out.value.attempt == current.attempt + 1 && out.value.results == current.results)
  {
    OperationTransitionsIff(current, c.owner, c.startedAt, "", []);
  }

  /** `held` is what the table holds in the slot of `c`. */
  ghost predicate HeldSlot(t: Tables, c: Operation, held: Option<Operation>) {
    match held
    case None => forall k :: k in t.operations ==> !SameSlot(t.operations[k], c)
    case Some(o) => o.id in t.operations && t.operations[o.id] == o && SameSlot(o, c)
  }

  /** The statement `acquire` sends, if it sends one: a new running candidate of an eligible owner into a free
      slot, a takeover into a held one. */
  function AcquireWrite(t: Tables, c: Operation, held: Option<Operation>): Result<Option<Write>, string> {
    if !c.status.Running? || c.attempt != 1 then Err("operation acquisition requires a new running candidate")
    else if !EligibleOwner(t, c) then Err("operation owner must be an active operations service for the run")
    else if held.None? then Ok(Some(InsertOperation(c)))
    else
      var got := Reacquire(t, held.value, c);
      if got.Err? then Err(got.error)
      else if got.value == held.value then Ok(None)
      else Ok(Some(UpdateOperation(got.value)))
  }

  lemma {:induction false} ReacquireAdmitted(h: Rules, t: Tables, current: Operation, c: Operation)
    requires current.id in t.operations && t.operations[current.id] == current
    requires SameSlot(current, c) && EligibleOwner(t, c) && Reacquire(t, current, c).Ok?
    ensures Reacquire(t, current, c).value == current
            || Admitted(h, t, UpdateOperation(Reacquire(t, current, c).value))
  {
  }

  lemma {:induction false} FreshAcquireAdmitted(h: Rules, t: Tables, c: Operation)
    requires ValidOperation(c) && c.status.Running? && c.attempt == 1 && c.results == []
    requires EligibleOwner(t, c) && c.id !in t.operations && HeldSlot(t, c, None)
    ensures Admitted(h, t, InsertOperation(c))
  {
  }

  /** Acquiring never asks the database for a statement its constraints or triggers would refuse, whether
      the slot is free or held. */
  lemma {:induction false} AcquireAdmitted(h: Rules, t: Tables, c: Operation, held: Option<Operation>, w: Write)
    requires ValidOperation(c) && c.results == [] && c.id !in t.operations && HeldSlot(t, c, held)
    requires AcquireWrite(t, c, held) == Ok(Some(w))
    ensures Admitted(h, t, w)
  {
    if held.None? { FreshAcquireAdmitted(h, t, c); } else { ReacquireAdmitted(h, t, held.value, c); }
  }

  /** Exactly who may acquire: a new running candidate whose owner is an operations service of the run that is up and
      was seen before the start, in the run's own experiment; and a held slot has to be given out. */
  lemma {:induction false} AcquireIff(t: Tables, c: Operation, held: Option<Operation>)
    ensures AcquireWrite(t, c, held).Ok? <==>
            && c.status == Running && c.attempt == 1
            && c.owner in t.services && t.services[c.owner].runId == Some(c.runId)
            && t.services[c.owner].role == "operations" && t.services[c.owner].stoppedAt == None
            && t.services[c.owner].firstSeenAt <= c.startedAt
            && c.runId in t.runs && t.runs[c.runId].experimentId == c.experimentId
            && (held.Some? ==> Reacquire(t, held.value, c).Ok?)
    ensures AcquireWrite(t, c, held).Ok? && held.None? ==> AcquireWrite(t, c, held).value == Some(InsertOperation(c))
  {
  }

  /** While its owner is up, an unfinished operation belongs to it alone: any other boot is refused, and
      the owner itself gets the running operation back as it is. */
  lemma {:induction false} ActiveOwnerKeeps(t: Tables, current: Operation, c: Operation)
    requires current.owner in t.services && t.services[current.owner].stoppedAt.None?
    requires current.experimentId == c.experimentId && !current.status.Succeeded?
    ensures c.owner != current.owner ==> Reacquire(t, current, c).Err?
    ensures c.owner == current.owner && current.status.Running? ==> Reacquire(t, current, c) == Ok(current)
  {
  }
}
