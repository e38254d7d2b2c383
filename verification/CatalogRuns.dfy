/** What every sequence of admitted writes keeps: the catalog's consistency, the evidence chains, and
    the life of an operation. */
module CatalogRuns {
  import opened Results
  import opened ArtifactModels
  import opened Catalog

  ghost predicate RowsValid(t: Tables) {
    && (forall k :: k in t.operations ==> t.operations[k].id == k && ValidOperation(t.operations[k]))
    && (forall k :: k in t.attempts ==>
          t.attempts[k].id == k && ValidAttempt(t.attempts[k]) && t.attempts[k].operationId in t.operations)
  }

  ghost predicate SlotsUnique(t: Tables) {
    forall j, k :: j in t.operations && k in t.operations && j != k ==>
                     !SameSlot(t.operations[j], t.operations[k])
  }

  ghost predicate RecordsUnique(rs: seq<Record>) {
    forall i, j :: 0 <= i < j < |rs| ==> !Clash(rs[i].payload, rs[j].payload)
  }

  ghost predicate StreamsChained(rs: seq<Record>) {
    forall key :: Chained(Stream(rs, key))
  }

  /** The record's attempt, operation and run agree with it, and its attempt has not failed. */
  ghost predicate Backed(t: Tables, p: Payload) {
    && p.attemptId in t.attempts && p.operationId in t.operations && p.runId in t.runs
    && var a, o, run := t.attempts[p.attemptId], t.operations[p.operationId], t.runs[p.runId];
    && !a.status.Abandoned? && a.operationId == p.operationId && a.bundleHash == p.bundleHash
    && o.runId == p.runId && o.experimentId == p.report.stream.experimentId && o.generatedAt == p.generatedAt
    && run.experimentId == p.report.stream.experimentId && run.candidateHash == p.report.stream.candidateHash
  }

  ghost predicate RecordsBacked(t: Tables) {
    forall i :: 0 <= i < |t.records| ==> Backed(t, t.records[i].payload)
  }

  ghost predicate RecordsValid(h: Rules, rs: seq<Record>) {
    forall i :: 0 <= i < |rs| ==> h.valid(rs[i])
  }

  ghost predicate CompletedCataloged(t: Tables) {
    forall k :: k in t.attempts && t.attempts[k].status.Completed? ==> Cataloged(t, k)
  }

  ghost predicate Consistent(h: Rules, t: Tables) {
    && RowsValid(t) && SlotsUnique(t) && RecordsUnique(t.records) && StreamsChained(t.records)
    && RecordsBacked(t) && RecordsValid(h, t.records) && CompletedCataloged(t)
  }

  const EMPTY: Tables := Tables(map[], map[], [], map[], map[])

  lemma {:induction false} EmptyConsistent(h: Rules)
    ensures Consistent(h, EMPTY)
  {
  }

  /** Operations may change as long as each keeps its identity. */
  ghost predicate OperationsKept(t: Tables, t': Tables) {
    && t'.attempts == t.attempts && t'.records == t.records && t'.services == t.services && t'.runs == t.runs
    && forall k :: k in t.operations ==> k in t'.operations && SameOperation(t.operations[k], t'.operations[k])
  }

  lemma {:induction false} OperationsKeptBacked(t: Tables, t': Tables)
    requires OperationsKept(t, t') && RecordsBacked(t) && CompletedCataloged(t)
    ensures RecordsBacked(t') && CompletedCataloged(t')
  {
    forall i | 0 <= i < |t'.records| ensures Backed(t', t'.records[i].payload) {
      assert Backed(t, t.records[i].payload);
    }
    forall k | k in t'.attempts && t'.attempts[k].status.Completed? ensures Cataloged(t', k) {
      assert Cataloged(t, k);
    }
  }

  lemma {:induction false} OperationWriteKeeps(h: Rules, t: Tables, w: Write)
    requires Consistent(h, t) && Admitted(h, t, w) && (w.InsertOperation? || w.UpdateOperation?)
    ensures Consistent(h, Applied(h, t, w))
  {
    OperationsKeptBacked(t, Applied(h, t, w));
  }

  lemma {:induction false} AttemptWriteKeeps(h: Rules, t: Tables, w: Write)
    requires Consistent(h, t) && Admitted(h, t, w) && (w.InsertAttempt? || w.UpdateAttempt?)
    ensures Consistent(h, Applied(h, t, w))
  {
    var t' := Applied(h, t, w);
    forall i | 0 <= i < |t'.records| ensures Backed(t', t'.records[i].payload) {
      assert Backed(t, t.records[i].payload);
    }
    forall k | k in t'.attempts && t'.attempts[k].status.Completed? ensures Cataloged(t', k) {
      assert Cataloged(t, k);
    }
  }

  lemma {:induction false} PlatformWriteKeeps(h: Rules, t: Tables, w: Write)
    requires Consistent(h, t) && Admitted(h, t, w) && (w.AddRun? || w.AddService? || w.StopService?)
    ensures Consistent(h, Applied(h, t, w))
  {
    var t' := Applied(h, t, w);
    forall i | 0 <= i < |t'.records| ensures Backed(t', t'.records[i].payload) {
      assert Backed(t, t.records[i].payload);
    }
    forall k | k in t'.attempts && t'.attempts[k].status.Completed? ensures Cataloged(t', k) {
      assert Cataloged(t, k);
    }
  }

  lemma {:induction false} RecordWriteChains(rs: seq<Record>, r: Record)
    requires StreamsChained(rs) && Positioned(rs, r.payload) && Unclashing(rs, r.payload) && 1 <= r.payload.sequence
    ensures StreamsChained(rs + [r])
  {
    forall key ensures Chained(Stream(rs + [r], key)) {
      StreamSnoc(rs, r, key);
      if Belongs(key, r) {
        PositionedIsNext(rs, r.payload);
        ChainedSnoc(Stream(rs, key), r);
      }
    }
  }

  lemma {:induction false} RecordWriteRows(h: Rules, rs: seq<Record>, r: Record)
    requires RecordsUnique(rs) && RecordsValid(h, rs) && Unclashing(rs, r.payload) && h.valid(r)
    ensures RecordsUnique(rs + [r]) && RecordsValid(h, rs + [r])
  {
  }

  lemma {:induction false} RecordWriteBacked(t: Tables, r: Record)
    requires RecordsBacked(t) && Authorised(t, r.payload)
    ensures RecordsBacked(t.(records := t.records + [r]))
  {
    var t' := t.(records := t.records + [r]);
    forall i | 0 <= i < |t'.records| ensures Backed(t', t'.records[i].payload) {
      assert i < |t.records| ==> Backed(t, t.records[i].payload);
    }
  }

  lemma {:induction false} RecordWriteCataloged(t: Tables, r: Record)
    requires CompletedCataloged(t)
    ensures CompletedCataloged(t.(records := t.records + [r]))
  {
    var t' := t.(records := t.records + [r]);
    forall k | k in t'.attempts && t'.attempts[k].status.Completed? ensures Cataloged(t', k) {
      var i :| 0 <= i < |t.records| && t.records[i].payload.attemptId == k;
      assert t'.records[i] == t.records[i];
    }
  }

  lemma {:induction false} RecordWriteKeeps(h: Rules, t: Tables, r: Record)
    requires Consistent(h, t) && Admitted(h, t, InsertRecord(r))
    ensures Consistent(h, Applied(h, t, InsertRecord(r)))
  {
    RecordWriteChains(t.records, r);
    RecordWriteRows(h, t.records, r);
    RecordWriteBacked(t, r);
    RecordWriteCataloged(t, r);
  }

  lemma {:induction false} WriteKeeps(h: Rules, t: Tables, w: Write)
    requires Consistent(h, t) && Admitted(h, t, w)
    ensures Consistent(h, Applied(h, t, w))
  {
    if w.InsertRecord? {
      RecordWriteKeeps(h, t, w.record);
    } else if w.InsertAttempt? || w.UpdateAttempt? {
      AttemptWriteKeeps(h, t, w);
    } else if w.InsertOperation? || w.UpdateOperation? {
      OperationWriteKeeps(h, t, w);
    } else {
      PlatformWriteKeeps(h, t, w);
    }
  }

  /** Records are only ever added, at the end. */
  lemma {:induction false} WriteGrows(h: Rules, t: Tables, w: Write)
    requires Admitted(h, t, w)
    ensures t.records <= Applied(h, t, w).records
  {
  }

  /** All rows but that of `id` are the same in both tables. */
  ghost predicate OnlyAt<T>(m: map<Id, T>, n: map<Id, T>, id: Id) {
    forall k :: k != id ==> (k in m <==> k in n) && (k in m ==> n[k] == m[k])
  }

  /** An admitted write leaves the row it writes, and no other row, as it says. */
  lemma {:induction false} WriteEffect(h: Rules, t: Tables, w: Write)
    requires Admitted(h, t, w)
    ensures var n := Applied(h, t, w);
            && (w.AddRun? ==> w.runId in n.runs && n.runs[w.runId] == w.run && OnlyAt(t.runs, n.runs, w.runId))
            && (!w.AddRun? ==> n.runs == t.runs)
            && (w.AddService? ==> w.bootId in n.services && n.services[w.bootId] == w.service)
            && (w.AddService? || w.StopService? ==> OnlyAt(t.services, n.services, w.bootId))
            && (!w.AddService? && !w.StopService? ==> n.services == t.services)
            && (w.InsertOperation? || w.UpdateOperation? ==>
                  && w.operation.id in n.operations && n.operations[w.operation.id] == w.operation
                  && OnlyAt(t.operations, n.operations, w.operation.id))
            && (!w.InsertOperation? && !w.UpdateOperation? ==> n.operations == t.operations)
            && (w.InsertAttempt? || w.UpdateAttempt? ==>
                  && w.attempt.id in n.attempts && n.attempts[w.attempt.id] == w.attempt
                  && OnlyAt(t.attempts, n.attempts, w.attempt.id))
            && (!w.InsertAttempt? && !w.UpdateAttempt? ==> n.attempts == t.attempts)
            && n.records == (if w.InsertRecord? then t.records + [w.record] else t.records)
  {
  }

  // ------------------------------------------------------------------ the database as mutable state

  class Database {
    const hash: Rules
    var tables: Tables

    constructor (h: Rules)
      ensures hash == h && tables == EMPTY && Consistent(hash, tables)
    {
      hash, tables := h, EMPTY;
      EmptyConsistent(h);
    }

    /** A statement either takes effect and keeps the database consistent, or raises and changes
        nothing; it takes effect exactly when the constraints and triggers admit it. */
    method Execute(w: Write) returns (raised: Option<string>)
      requires Consistent(hash, tables)
      modifies this
      ensures raised.None? <==> Admitted(hash, old(tables), w)
      ensures tables == if Admitted(hash, old(tables), w) then Applied(hash, old(tables), w) else old(tables)
      ensures Consistent(hash, tables)
    {
      raised := None;
      match w {
        case UpdateOperation(o) =>
          if o.id in tables.operations {
            raised := GuardOperation(tables, tables.operations[o.id], o);
          }
        case UpdateAttempt(a) =>
          if a.id in tables.attempts {
            raised := GuardAttempt(tables, tables.attempts[a.id], a);
          }
        case InsertRecord(r) => raised := GuardRecord(tables, r.payload);
        case DeleteOperation(_) => raised := Some("scheduled operations cannot be deleted");
        case DeleteAttempt(_) => raised := Some("artifact publication attempts are append-only");
        case UpdateRecord(_, _) => raised := Some("artifact records are append-only");
        case DeleteRecord(_) => raised := Some("artifact records are append-only");
        case _ =>
      }
      if raised.Some? {
        return;
      }
      if !Admitted(hash, tables, w) {
        return Some("constraint violation");
      }
      WriteKeeps(hash, tables, w);
      tables := Applied(hash, tables, w);
    }
  }

  // ------------------------------------------------------------------ every run of writes

  ghost predicate StepAt(h: Rules, ts: seq<Tables>, ws: seq<Write>, i: nat)
    requires i < |ws| && |ts| == |ws| + 1
  {
    Admitted(h, ts[i], ws[i]) && ts[i + 1] == Applied(h, ts[i], ws[i])
  }

  ghost predicate Trace(h: Rules, ts: seq<Tables>, ws: seq<Write>) {
    && |ts| == |ws| + 1 && ts[0] == EMPTY
    && forall i :: 0 <= i < |ws| ==> StepAt(h, ts, ws, i)
  }

  lemma {:induction false} ReachableConsistent(h: Rules, ts: seq<Tables>, ws: seq<Write>, i: nat)
    requires Trace(h, ts, ws) && i <= |ws|
    ensures Consistent(h, ts[i])
  {
    if i == 0 {
      EmptyConsistent(h);
    } else {
      ReachableConsistent(h, ts, ws, i - 1);
      assert StepAt(h, ts, ws, i - 1);
      WriteKeeps(h, ts[i - 1], ws[i - 1]);
    }
  }

  function RecordsOf(rs: seq<Record>, attemptId: Id): nat {
    if rs == [] then 0
    else RecordsOf(rs[..|rs| - 1], attemptId) + if rs[|rs| - 1].payload.attemptId == attemptId then 1 else 0
  }

  lemma {:induction false} RecordsCounted(rs: seq<Record>, attemptId: Id)
    requires RecordsUnique(rs)
    ensures RecordsOf(rs, attemptId) ==
            if exists i :: 0 <= i < |rs| && rs[i].payload.attemptId == attemptId then 1 else 0
  {
    if rs != [] {
      RecordsCounted(rs[..|rs| - 1], attemptId);
    }
  }

  /** A succeeded attempt has exactly one record, a failed one none, any other at most one. */
  lemma {:induction false} RecordsPerAttempt(h: Rules, t: Tables, k: Id)
    requires Consistent(h, t) && k in t.attempts
    ensures t.attempts[k].status.Completed? ==> RecordsOf(t.records, k) == 1
    ensures t.attempts[k].status.Abandoned? ==> RecordsOf(t.records, k) == 0
    ensures RecordsOf(t.records, k) <= 1
  {
    RecordsCounted(t.records, k);
    if t.attempts[k].status.Completed? { assert Cataloged(t, k); }
  }

  lemma {:induction false} StreamHashed(h: Rules, rs: seq<Record>, key: StreamKey)
    requires Genuine(h) && RecordsValid(h, rs)
    ensures Hashed(h.digest, Stream(rs, key))
  {
    var s := Stream(rs, key);
    forall i | 0 <= i < |s| ensures s[i].contentHash == h.digest(s[i].payload) {
      StreamMember(rs, key, i);
    }
  }

  /** Two consistent catalogs that show the same tip hash hold the same stream, record by record. */
  lemma {:induction false} EqualTipsEqualStreams(
      h: Rules, t: Tables, key: StreamKey, t': Tables, key': StreamKey)
    requires Genuine(h) && Injective(h.digest) && Consistent(h, t) && Consistent(h, t')
    requires Stream(t.records, key) != [] && Stream(t'.records, key') != []
    requires TipHash(Stream(t.records, key)) == TipHash(Stream(t'.records, key'))
    ensures Stream(t.records, key) == Stream(t'.records, key') && key == key'
  {
    StreamHashed(h, t.records, key);
    StreamHashed(h, t'.records, key');
    TipDeterminesStream(h.digest, Stream(t.records, key), Stream(t'.records, key'));
    StreamMember(t.records, key, 0);
    StreamMember(t'.records, key', 0);
  }

  lemma {:induction false} RecordsGrow(h: Rules, ts: seq<Tables>, ws: seq<Write>, i: nat, j: nat)
    requires Trace(h, ts, ws) && i <= j <= |ws|
    ensures ts[i].records <= ts[j].records
    decreases j
  {
    if i < j {
      RecordsGrow(h, ts, ws, i, j - 1);
      assert StepAt(h, ts, ws, j - 1);
    }
  }

  /** Once in the catalog, a record stays where it is, and its attempt is never failed. */
  lemma {:induction false} RecordedForGood(
      h: Rules, ts: seq<Tables>, ws: seq<Write>, i: nat, j: nat, n: nat)
    requires Trace(h, ts, ws) && i <= j <= |ws| && n < |ts[i].records|
    ensures n < |ts[j].records| && ts[j].records[n] == ts[i].records[n]
    ensures Backed(ts[j], ts[i].records[n].payload)
  {
    RecordsGrow(h, ts, ws, i, j);
    ReachableConsistent(h, ts, ws, j);
    assert Backed(ts[j], ts[j].records[n].payload);
  }

  // ------------------------------------------------------------------ who may record

  /** Identifier, attempt and report of the record are not in the catalog. */
  predicate Unrecorded(rs: seq<Record>, p: Payload) {
    forall i :: 0 <= i < |rs| ==>
      rs[i].payload.id != p.id && rs[i].payload.attemptId != p.attemptId && rs[i].payload.report != p.report
  }

  /** The record stands at the end of its stream. */
  predicate AtEnd(rs: seq<Record>, p: Payload) {
    && p.sequence == |Stream(rs, p.report.stream)| + 1
    && p.previousHash == TipHash(Stream(rs, p.report.stream))
  }

  lemma {:induction false} PlaceIff(rs: seq<Record>, p: Payload)
    requires Chained(Stream(rs, p.report.stream))
    ensures 1 <= p.sequence && Positioned(rs, p) && Unclashing(rs, p) <==> AtEnd(rs, p) && Unrecorded(rs, p)
  {
    if 1 <= p.sequence && Positioned(rs, p) && Unclashing(rs, p) { PositionedIsNext(rs, p); }
    if AtEnd(rs, p) { NextIsPositioned(rs, p); }
  }

  /** Exactly which records the database takes in: valid ones with versions, of an open attempt of an operation
      that is running under an active producer, at the end of their stream, with identifier, attempt and report
      not yet recorded. */
  lemma {:induction false} RecordAdmittedIff(h: Rules, t: Tables, r: Record)
    requires Consistent(h, t)
    ensures Admitted(h, t, InsertRecord(r)) <==>
            var p := r.payload;
            && h.valid(r) && (forall i :: 0 <= i < |p.canonical| ==> VersionKept(p.canonical[i]))
            && OpenAttempt(t, p) && RunningFor(t, p) && RunOf(t, p) && ActiveProducer(t, p)
            && AtEnd(t.records, p) && Unrecorded(t.records, p)
  {
    AuthorityIff(t, r.payload);
    PlaceIff(t.records, r.payload);
  }

  /** Over every run, a record is written only while its operation runs under a boot that is up, belongs to the
      record's run and candidate and has its deployment and service identifiers. */
  lemma {:induction false} RecordedByProducer(h: Rules, ts: seq<Tables>, ws: seq<Write>, i: nat)
    requires Trace(h, ts, ws) && i < |ws| && ws[i].InsertRecord?
    ensures var p := ws[i].record.payload;
            OpenAttempt(ts[i], p) && RunningFor(ts[i], p) && RunOf(ts[i], p) && ActiveProducer(ts[i], p)
    ensures ts[i + 1] == ts[i].(records := ts[i].records + [ws[i].record])
  {
    assert StepAt(h, ts, ws, i);
    ReachableConsistent(h, ts, ws, i);
    RecordAdmittedIff(h, ts[i], ws[i].record);
  }

  lemma {:induction false} ProducerStays(h: Rules, t: Tables, w: Write, boot: Id, p: Payload)
    requires Admitted(h, t, w) && Produces(t, boot, p)
    ensures Produces(Applied(h, t, w), boot, p)
  {
  }

  /** Every record's deployment and service identifiers are, for good, those of a service row of its run. */
  lemma {:induction false} ProducedForGood(h: Rules, ts: seq<Tables>, ws: seq<Write>, j: nat, n: nat)
    requires Trace(h, ts, ws) && j <= |ws| && n < |ts[j].records|
    ensures exists boot :: Produces(ts[j], boot, ts[j].records[n].payload)
    decreases j
  {
    var i, p := j - 1, ts[j].records[n].payload;
    assert StepAt(h, ts, ws, i);
    if n < |ts[i].records| {
      assert ts[i].records <= ts[j].records by { WriteGrows(h, ts[i], ws[i]); }
      ProducedForGood(h, ts, ws, i, n);
      var boot :| Produces(ts[i], boot, p);
      ProducerStays(h, ts[i], ws[i], boot, p);
    } else {
      RecordedByProducer(h, ts, ws, i);
      assert Produces(ts[j], ts[i].operations[p.operationId].owner, p);
    }
  }

  /** The operation's owner has stopped. */
  predicate OwnerStopped(t: Tables, id: Id) {
    && id in t.operations && t.operations[id].owner in t.services
    && t.services[t.operations[id].owner].stoppedAt.Some?
  }

  /** While its owner is stopped, no record is added for an operation. */
  lemma {:induction false} StoppedRecordsNothing(
      h: Rules, ts: seq<Tables>, ws: seq<Write>, id: Id, i: nat, j: nat, n: nat)
    requires Trace(h, ts, ws) && i <= j <= |ws| && forall k :: i <= k < j ==> OwnerStopped(ts[k], id)
    requires |ts[i].records| <= n < |ts[j].records|
    ensures ts[j].records[n].payload.operationId != id
    decreases j
  {
    assert StepAt(h, ts, ws, j - 1);
    WriteGrows(h, ts[j - 1], ws[j - 1]);
    if n < |ts[j - 1].records| {
      StoppedRecordsNothing(h, ts, ws, id, i, j - 1, n);
    } else {
      assert OwnerStopped(ts[j - 1], id);
      RecordedByProducer(h, ts, ws, j - 1);
    }
  }

  // ------------------------------------------------------------------ services, slots and sound records

  /** What a write can do to a service row: nothing, or stop it once. */
  lemma {:induction false} WriteServes(h: Rules, t: Tables, w: Write, boot: Id)
    requires Admitted(h, t, w) && boot in t.services
    ensures boot in Applied(h, t, w).services
    ensures var s, n := t.services[boot], Applied(h, t, w).services[boot];
            && n == s.(stoppedAt := n.stoppedAt) && (s.stoppedAt.Some? ==> n == s)
            && (n.stoppedAt != s.stoppedAt ==> n.stoppedAt.Some? && w == StopService(boot, n.stoppedAt.value))
            && (w.StopService? && w.bootId == boot ==> n.stoppedAt == Some(w.stoppedAt))
  {
  }

  /** Over every run a service row stays what it is; once it has stopped, its stop time is final. */
  lemma {:induction false} ServiceLife(h: Rules, ts: seq<Tables>, ws: seq<Write>, boot: Id, i: nat, j: nat)
    requires Trace(h, ts, ws) && i <= j <= |ws| && boot in ts[i].services
    ensures boot in ts[j].services
    ensures var s, n := ts[i].services[boot], ts[j].services[boot];
            && n == s.(stoppedAt := n.stoppedAt) && (s.stoppedAt.Some? ==> n == s)
            && (n.stoppedAt.Some? && s.stoppedAt.None? ==>
                  exists k :: i <= k < j && ws[k] == StopService(boot, n.stoppedAt.value))
    decreases j
  {
    if i < j {
      var m := j - 1;
      ServiceLife(h, ts, ws, boot, i, m);
      assert StepAt(h, ts, ws, m);
      WriteServes(h, ts[m], ws[m], boot);
    }
  }

  /** Exactly which operations can be inserted: new valid ones of an owner in their run, into a slot of run, kind
      and date that no other operation holds. */
  lemma {:induction false} OperationAdmittedIff(h: Rules, t: Tables, o: Operation)
    ensures Admitted(h, t, InsertOperation(o)) <==>
            && ValidOperation(o) && o.status == Running && o.attempt == 1 && o.results == []
            && o.id !in t.operations && o.runId in t.runs
            && o.owner in t.services && t.services[o.owner].runId == Some(o.runId)
            && forall k :: k in t.operations ==>
                 var other := t.operations[k];
                 other.runId != o.runId || other.kind != o.kind || other.berlinDate != o.berlinDate
  {
  }

  /** Over every run an operation belongs to a run that is there and to a service of that run. */
  lemma {:induction false} OwnersKnown(h: Rules, ts: seq<Tables>, ws: seq<Write>, j: nat, id: Id)
    requires Trace(h, ts, ws) && j <= |ws| && id in ts[j].operations
    ensures var t, o := ts[j], ts[j].operations[id];
            o.runId in t.runs && o.owner in t.services && t.services[o.owner].runId == Some(o.runId)
  {
    if 0 < j {
      assert StepAt(h, ts, ws, j - 1);
      if id in ts[j - 1].operations { OwnersKnown(h, ts, ws, j - 1, id); }
    }
  }

  /** Over every run the attempts of an operation have different numbers. */
  lemma {:induction false} AttemptsNumbered(h: Rules, ts: seq<Tables>, ws: seq<Write>, j: nat, a: Id, b: Id)
    requires Trace(h, ts, ws) && j <= |ws| && a in ts[j].attempts && b in ts[j].attempts && a != b
    requires ts[j].attempts[a].operationId == ts[j].attempts[b].operationId
    ensures ts[j].attempts[a].number != ts[j].attempts[b].number
  {
    if 0 < j {
      assert StepAt(h, ts, ws, j - 1);
      if a in ts[j - 1].attempts && b in ts[j - 1].attempts { AttemptsNumbered(h, ts, ws, j - 1, a, b); }
    }
  }

  /** The record's identity is complete: no nil identifier, a known environment, hashes that are hashes, an allowed
      media type, and named producers. */
  predicate Identified(p: Payload) {
    && p.id != 0 && p.operationId != 0 && p.attemptId != 0 && p.runId != 0 && p.report.stream.experimentId != 0
    && (p.report.stream.environment == "qualification" || p.report.stream.environment == "production")
    && Sha256(p.report.stream.candidateHash) && Sha256(p.bundleHash) && Sha256(p.previousHash)
    && IdentitySegment(p.report.reportId) && p.mediaType in ALLOWED_CONTENT_TYPES
    && Trimmed(p.deploymentId) && Trimmed(p.serviceId)
  }

  /** One file of a bundle, as the two stores confirmed it: the same object in two stores, stored between
      generation and recording, and retained beyond it. */
  predicate StoredTwice(p: Payload, replica: StoredArtifact, canonical: StoredArtifact) {
    && replica.storeName != canonical.storeName && replica.key == canonical.key
    && replica.sha256 == canonical.sha256 && replica.sizeBytes == canonical.sizeBytes
    && replica.contentType == canonical.contentType && replica.retention == canonical.retention
    && canonical.versionId.Some? && p.generatedAt <= replica.storedAt && replica.storedAt <= p.recordedAt
    && p.generatedAt <= canonical.storedAt && canonical.storedAt <= p.recordedAt
    && p.recordedAt < canonical.retention.retainUntil
  }

  /** In every run every cataloged record is sound: its files lie in both stores, their sizes add up to the
      bundle's, and its hash is that of its content. */
  lemma {:induction false} RecordsSound(h: Rules, ts: seq<Tables>, ws: seq<Write>, j: nat, n: nat)
    requires Genuine(h) && Trace(h, ts, ws) && j <= |ws| && n < |ts[j].records|
    ensures var r := ts[j].records[n];
            && r.contentHash == h.digest(r.payload) && r.payload.generatedAt <= r.payload.recordedAt
            && r.payload.replica != [] && |r.payload.replica| == |r.payload.canonical|
            && TotalSize(r.payload.replica) == r.payload.sizeBytes && Identified(r.payload)
            && forall i :: 0 <= i < |r.payload.replica| ==>
                 StoredTwice(r.payload, r.payload.replica[i], r.payload.canonical[i])
  {
    ReachableConsistent(h, ts, ws, j);
    var r := ts[j].records[n];
    assert h.valid(r);
    var p := r.payload;
    forall i | 0 <= i < |p.replica| ensures StoredTwice(p, p.replica[i], p.canonical[i]) {
      assert Paired(p.replica[i], p.canonical[i]);
      assert Timely(p.replica[i], p.canonical[i], p.generatedAt, p.recordedAt);
    }
  }

  // ------------------------------------------------------------------ the life of an operation

  predicate RestartOf(w: Write, id: Id) { w.UpdateOperation? && w.operation.id == id && w.operation.status.Running? }

  predicate SettlementOf(w: Write, id: Id) {
    w.UpdateOperation? && w.operation.id == id && !w.operation.status.Running?
  }

  function Restarted(ws: seq<Write>, id: Id, i: nat, j: nat): nat
    requires i <= j <= |ws|
    decreases j
  {
    if i == j then 0 else Restarted(ws, id, i, j - 1) + if RestartOf(ws[j - 1], id) then 1 else 0
  }

  /** Between states `i` and `j` the operation passed from `owner` to another boot, at a moment when
      `owner` had stopped no later than the new start. */
  ghost predicate HandedOver(ts: seq<Tables>, id: Id, owner: Id, i: nat, j: nat)
    requires i <= j < |ts|
  {
    exists k {:trigger ts[k]} :: i <= k < j && id in ts[k].operations && id in ts[k + 1].operations
      && ts[k].operations[id].owner == owner && ts[k + 1].operations[id].owner != owner
      && StoppedBy(ts[k], owner, ts[k + 1].operations[id].startedAt)
  }

  /** What one write can do to an operation. */
  ghost predicate Lives(t: Tables, w: Write, o: Operation, n: Operation) {
    && SameOperation(o, n) && n.attempt == o.attempt + (if RestartOf(w, o.id) then 1 else 0)
    && (o.status.Succeeded? ==> n == o) && (n.owner != o.owner ==> StoppedBy(t, o.owner, n.startedAt))
    && (!SettlementOf(w, o.id) ==> n.results == o.results)
  }

  lemma {:induction false} WriteLives(h: Rules, t: Tables, w: Write, id: Id)
    requires RowsValid(t) && Admitted(h, t, w) && id in t.operations
    ensures id in Applied(h, t, w).operations && Lives(t, w, t.operations[id], Applied(h, t, w).operations[id])
  {
  }

  lemma {:induction false} StepLives(h: Rules, ts: seq<Tables>, ws: seq<Write>, id: Id, i: nat)
    requires Trace(h, ts, ws) && i < |ws| && id in ts[i].operations
    ensures id in ts[i + 1].operations && ts[i].operations[id].id == id
    ensures Lives(ts[i], ws[i], ts[i].operations[id], ts[i + 1].operations[id])
  {
    ReachableConsistent(h, ts, ws, i);
    assert StepAt(h, ts, ws, i);
    WriteLives(h, ts[i], ws[i], id);
  }

  /** Identity is constant, success is final, the attempt number counts restarts, and ownership
      leaves a boot only after it stopped. */
  lemma {:induction false} OperationLife(h: Rules, ts: seq<Tables>, ws: seq<Write>, id: Id, i: nat, j: nat)
    requires Trace(h, ts, ws) && i <= j <= |ws| && id in ts[i].operations
    ensures id in ts[j].operations
    ensures var o, n := ts[i].operations[id], ts[j].operations[id];
            && SameOperation(o, n) && n.attempt == o.attempt + Restarted(ws, id, i, j)
            && (o.status.Succeeded? ==> n == o)
            && (n.owner != o.owner ==> HandedOver(ts, id, o.owner, i, j))
    decreases j
  {
    if i < j {
      OperationLife(h, ts, ws, id, i, j - 1);
      StepLives(h, ts, ws, id, j - 1);
      var owner, m, n := ts[i].operations[id].owner, ts[j - 1].operations[id], ts[j].operations[id];
      if n.owner != owner {
        if m.owner != owner {
          HandoverStays(ts, id, owner, i, j - 1);
        } else {
          assert ts[j - 1].operations[id].owner == owner;
        }
      }
    }
  }

  lemma {:induction false} HandoverStays(ts: seq<Tables>, id: Id, owner: Id, i: nat, j: nat)
    requires i <= j && j + 1 < |ts| && HandedOver(ts, id, owner, i, j)
    ensures HandedOver(ts, id, owner, i, j + 1)
  {
    var k :| i <= k < j && id in ts[k].operations && id in ts[k + 1].operations
      && ts[k].operations[id].owner == owner && ts[k + 1].operations[id].owner != owner
      && StoppedBy(ts[k], owner, ts[k + 1].operations[id].startedAt);
  }

  /** Verified results survive any number of restarts: only a settlement can change them. */
  lemma {:induction false} ResultsSurviveRetries(
      h: Rules, ts: seq<Tables>, ws: seq<Write>, id: Id, i: nat, j: nat)
    requires Trace(h, ts, ws) && i <= j <= |ws| && id in ts[i].operations
    requires forall k :: i <= k < j ==> !SettlementOf(ws[k], id)
    ensures id in ts[j].operations && ts[j].operations[id].results == ts[i].operations[id].results
    decreases j
  {
    if i < j {
      ResultsSurviveRetries(h, ts, ws, id, i, j - 1);
      StepLives(h, ts, ws, id, j - 1);
    }
  }
}
