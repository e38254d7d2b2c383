/** The artifact catalog's tables with their constraints and triggers
    (`alembic/versions/0020_artifact_catalog.py`): which writes the database admits, what they
    change, and what holds after every sequence of admitted writes, whoever issues them.
    Rows are written from domain values, so the domain constructors' checks hold of every new row. */
module Catalog {
  import opened Results
  import opened ArtifactModels
  import Sorting

  // ------------------------------------------------------------------ tables and writes

  datatype Service = Service(
    runId: Option<Id>, role: string, candidateHash: Digest, deploymentId: string, serviceId: string,
    firstSeenAt: Time, stoppedAt: Option<Time>)

  datatype Run = Run(experimentId: Id, candidateHash: Digest)

  datatype Tables = Tables(
    operations: map<Id, Operation>, attempts: map<Id, Attempt>, records: seq<Record>,
    services: map<Id, Service>, runs: map<Id, Run>)

  datatype Write =
    | AddRun(runId: Id, run: Run)
    | AddService(bootId: Id, service: Service)
    | StopService(bootId: Id, stoppedAt: Time)
    | InsertOperation(operation: Operation)
    | UpdateOperation(operation: Operation)
    | DeleteOperation(id: Id)
    | InsertAttempt(attempt: Attempt)
    | UpdateAttempt(attempt: Attempt)
    | DeleteAttempt(id: Id)
    | InsertRecord(record: Record)
    | UpdateRecord(index: nat, record: Record)
    | DeleteRecord(index: nat)

  predicate Cataloged(t: Tables, attemptId: Id) {
    exists i :: 0 <= i < |t.records| && t.records[i].payload.attemptId == attemptId
  }

  /** The owner's row has been closed no later than `at`. */
  predicate StoppedBy(t: Tables, bootId: Id, at: Time) {
    bootId in t.services && t.services[bootId].stoppedAt.Some? && t.services[bootId].stoppedAt.value <= at
  }

  predicate OwnedByRun(t: Tables, o: Operation) {
    && o.runId in t.runs && o.owner in t.services && t.services[o.owner].runId == Some(o.runId)
  }

  // ------------------------------------------------------------------ scheduled operations

  predicate SameOperation(o: Operation, n: Operation) {
    && n.id == o.id && n.runId == o.runId && n.experimentId == o.experimentId
    && n.kind == o.kind && n.berlinDate == o.berlinDate && n.generatedAt == o.generatedAt
  }

  /** A running operation ends under the owner, attempt and start time it ran with. */
  predicate Settles(o: Operation, n: Operation) {
    && o.status.Running? && !n.status.Running?
    && n.owner == o.owner && n.attempt == o.attempt && n.startedAt == o.startedAt
  }

  /** An unfinished operation runs again: after a failure under the same owner, or under another
      owner once the previous one has stopped. */
  predicate Restarts(t: Tables, o: Operation, n: Operation) {
    && n.status.Running? && n.attempt == o.attempt + 1 && n.results == o.results
    && if n.owner == o.owner then o.status.Failed? else StoppedBy(t, o.owner, n.startedAt)
  }

  predicate OperationStep(t: Tables, o: Operation, n: Operation) {
    SameOperation(o, n) && !o.status.Succeeded? && (Settles(o, n) || Restarts(t, o, n))
  }

  /** The operation trigger, in its own order of checks. */
  method GuardOperation(t: Tables, o: Operation, n: Operation) returns (raised: Option<string>)
    ensures raised.None? <==> OperationStep(t, o, n)
  {
    if n.id != o.id || n.runId != o.runId || n.experimentId != o.experimentId || n.kind != o.kind
       || n.berlinDate != o.berlinDate || n.generatedAt != o.generatedAt || o.status.Succeeded? {
      return Some("scheduled operation immutable evidence changed");
    }
    if o.status.Running? && (n.status.Succeeded? || n.status.Failed?) {
      if n.owner != o.owner || n.attempt != o.attempt || n.startedAt != o.startedAt {
        return Some("scheduled operation terminal transition changed ownership");
      }
      return None;
    }
    if n.status.Running? && n.attempt == o.attempt + 1 {
      if n.results != o.results {
        return Some("scheduled operation retry changed verified results");
      }
      if n.owner == o.owner {
        if !o.status.Failed? {
          return Some("active scheduled operation cannot be restarted");
        }
      } else if !StoppedBy(t, o.owner, n.startedAt) {
        return Some("scheduled operation takeover requires a stopped owner");
      }
      return None;
    }
    return Some("scheduled operation transition is not allowed");
  }

  /** When an operation can fail or succeed through its own transitions: exactly while it runs, with a
      trimmed reason or with distinct results, and not before it started.  The trigger then always agrees. */
  lemma {:induction false} EndingAdmittedIff(t: Tables, o: Operation, reason: string, results: seq<Id>, at: Time)
    requires ValidOperation(o)
    ensures FailOperation(o, reason, at).Ok? <==> o.status.Running? && Trimmed(reason) && o.startedAt <= at
    ensures FailOperation(o, reason, at).Ok? ==> OperationStep(t, o, FailOperation(o, reason, at).value)
    ensures SucceedOperation(o, results, at).Ok? <==> o.status.Running? && ResultIds(results) && o.startedAt <= at
    ensures SucceedOperation(o, results, at).Ok? ==> OperationStep(t, o, SucceedOperation(o, results, at).value)
  {
    OperationTransitionsIff(o, o.owner, at, reason, results);
  }

  /** When an operation can be taken over, by its own transition and by the trigger: exactly while it has not
      succeeded, not before it was generated, and by an owner that failed it or after its owner stopped. */
  lemma {:induction false} TakeoverAdmittedIff(t: Tables, o: Operation, owner: Id, at: Time)
    requires ValidOperation(o)
    ensures Takeover(o, owner, at).Ok? && OperationStep(t, o, Takeover(o, owner, at).value) <==>
            && !o.status.Succeeded? && owner != 0 && o.generatedAt <= at
            && if owner == o.owner then o.status.Failed? else StoppedBy(t, o.owner, at)
  {
    OperationTransitionsIff(o, owner, at, "", []);
  }

  // ------------------------------------------------------------------ attempts

  predicate AttemptStep(t: Tables, a: Attempt, n: Attempt) {
    && a.status.Started? && !n.status.Started?
    && n.id == a.id && n.operationId == a.operationId && n.number == a.number
    && n.bundleHash == a.bundleHash && n.startedAt == a.startedAt
    && (n.status.Completed? <==> Cataloged(t, n.id))
  }

  method GuardAttempt(t: Tables, a: Attempt, n: Attempt) returns (raised: Option<string>)
    ensures raised.None? <==> AttemptStep(t, a, n)
  {
    if !a.status.Started? || !(n.status.Completed? || n.status.Abandoned?) || n.id != a.id
       || n.operationId != a.operationId || n.number != a.number || n.bundleHash != a.bundleHash
       || n.startedAt != a.startedAt {
      return Some("artifact publication attempt mutation is not allowed");
    }
    if n.status.Completed? && !Cataloged(t, n.id) {
      return Some("successful publication attempt requires a catalog record");
    }
    if n.status.Abandoned? && Cataloged(t, n.id) {
      return Some("cataloged publication attempt cannot fail");
    }
    return None;
  }

  /** When an attempt can end, by its own transition and by the trigger: exactly once, not before it started,
      in success if it has a record and in failure, with a trimmed reason, if it has none. */
  lemma {:induction false} AttemptEndingIff(t: Tables, a: Attempt, reason: string, at: Time)
    requires ValidAttempt(a)
    ensures CompleteAttempt(a, at).Ok? && AttemptStep(t, a, CompleteAttempt(a, at).value) <==>
            a.status.Started? && a.startedAt <= at && Cataloged(t, a.id)
    ensures AbandonAttempt(a, reason, at).Ok? && AttemptStep(t, a, AbandonAttempt(a, reason, at).value) <==>
            a.status.Started? && a.startedAt <= at && Trimmed(reason) && !Cataloged(t, a.id)
  {
    AttemptTransitionsIff(a, at, reason);
  }

  // ------------------------------------------------------------------ records

  predicate VersionKept(s: StoredArtifact) { s.versionId.Some? && s.versionId.value != "" }

  predicate Authorised(t: Tables, p: Payload) {
    && p.attemptId in t.attempts && p.operationId in t.operations && p.runId in t.runs
    && var a, o, run := t.attempts[p.attemptId], t.operations[p.operationId], t.runs[p.runId];
    && a.status.Started? && a.operationId == p.operationId && a.bundleHash == p.bundleHash
    && o.status.Running? && o.runId == p.runId && o.experimentId == p.report.stream.experimentId
    && o.generatedAt == p.generatedAt
    && run.experimentId == p.report.stream.experimentId && run.candidateHash == p.report.stream.candidateHash
    && o.owner in t.services
    && var producer := t.services[o.owner];
    && producer.runId == Some(p.runId) && producer.candidateHash == p.report.stream.candidateHash
    && producer.deploymentId == p.deploymentId && producer.serviceId == p.serviceId
    && producer.stoppedAt.None?
  }

  /** The attempt is open, for the operation and the bundle the record names. */
  predicate OpenAttempt(t: Tables, p: Payload) {
    && p.attemptId in t.attempts && t.attempts[p.attemptId].status == Started
    && t.attempts[p.attemptId].operationId == p.operationId && t.attempts[p.attemptId].bundleHash == p.bundleHash
  }

  /** The operation is running, in the record's run and experiment, for its generation time. */
  predicate RunningFor(t: Tables, p: Payload) {
    && p.operationId in t.operations && t.operations[p.operationId].status == Running
    && t.operations[p.operationId].runId == p.runId
    && t.operations[p.operationId].experimentId == p.report.stream.experimentId
    && t.operations[p.operationId].generatedAt == p.generatedAt
  }

  predicate RunOf(t: Tables, p: Payload) {
    && p.runId in t.runs && t.runs[p.runId].experimentId == p.report.stream.experimentId
    && t.runs[p.runId].candidateHash == p.report.stream.candidateHash
  }

  /** The boot belongs to the record's run and candidate, and is the deployment and service it names. */
  predicate Produces(t: Tables, boot: Id, p: Payload) {
    && boot in t.services && t.services[boot].runId == Some(p.runId)
    && t.services[boot].candidateHash == p.report.stream.candidateHash
    && t.services[boot].deploymentId == p.deploymentId && t.services[boot].serviceId == p.serviceId
  }

  /** The operation's owner produces the record and has not stopped. */
  predicate ActiveProducer(t: Tables, p: Payload) {
    && p.operationId in t.operations && Produces(t, t.operations[p.operationId].owner, p)
    && t.services[t.operations[p.operationId].owner].stoppedAt == None
  }

  lemma {:induction false} AuthorityIff(t: Tables, p: Payload)
    ensures Authorised(t, p) <==> OpenAttempt(t, p) && RunningFor(t, p) && RunOf(t, p) && ActiveProducer(t, p)
  {
  }

  predicate Precedes(r: Record, p: Payload) {
    && r.payload.report.stream == p.report.stream && r.payload.sequence == p.sequence - 1
    && r.contentHash == p.previousHash
  }

  predicate Positioned(rs: seq<Record>, p: Payload) {
    if p.sequence == 1
    then p.previousHash == GENESIS_EVIDENCE_HASH
         && forall i :: 0 <= i < |rs| ==> rs[i].payload.report.stream != p.report.stream
    else exists i :: 0 <= i < |rs| && Precedes(rs[i], p)
  }

  /** The four uniqueness constraints on records. */
  predicate Clash(p: Payload, q: Payload) {
    || p.id == q.id || p.attemptId == q.attemptId || p.report == q.report
    || (p.report.stream == q.report.stream && p.sequence == q.sequence)
  }

  predicate Unclashing(rs: seq<Record>, p: Payload) {
    forall i :: 0 <= i < |rs| ==> !Clash(rs[i].payload, p)
  }

  predicate RecordStep(t: Tables, p: Payload) {
    && (forall i :: 0 <= i < |p.canonical| ==> VersionKept(p.canonical[i]))
    && Authorised(t, p) && Positioned(t.records, p)
  }

  method GuardRecord(t: Tables, p: Payload) returns (raised: Option<string>)
    ensures raised.None? <==> RecordStep(t, p)
  {
    if exists i :: 0 <= i < |p.canonical| && !VersionKept(p.canonical[i]) {
      return Some("canonical artifact inventory lacks version or retention evidence");
    }
    if !Authorised(t, p) {
      return Some("artifact record authority identity is inconsistent");
    }
    if p.sequence == 1 {
      if p.previousHash != GENESIS_EVIDENCE_HASH
         || exists i :: 0 <= i < |t.records| && t.records[i].payload.report.stream == p.report.stream {
        return Some("artifact record genesis is invalid");
      }
    } else if !exists i :: 0 <= i < |t.records| && Precedes(t.records[i], p) {
      return Some("artifact record previous evidence hash is invalid");
    }
    return None;
  }

  // ------------------------------------------------------------------ one write

  predicate Admitted(h: Rules, t: Tables, w: Write) {
    match w
    case AddRun(id, _) => id !in t.runs
    case AddService(id, _) => id !in t.services
    case StopService(id, at) => id in t.services && t.services[id].stoppedAt.None?
    case InsertOperation(o) =>
      && StartOperation(o.id, o.runId, o.experimentId, o.kind, o.berlinDate, o.owner, o.generatedAt, o.startedAt)
         == Ok(o)
      && o.id !in t.operations && OwnedByRun(t, o)
      && forall k :: k in t.operations ==> !SameSlot(t.operations[k], o)
    case UpdateOperation(o) =>
      && ValidOperation(o) && o.id in t.operations && OwnedByRun(t, o)
      && OperationStep(t, t.operations[o.id], o)
    case InsertAttempt(a) =>
      && StartAttempt(a.id, a.operationId, a.number, a.bundleHash, a.startedAt) == Ok(a)
      && a.id !in t.attempts && a.operationId in t.operations
      && forall k :: k in t.attempts ==>
                       !(t.attempts[k].operationId == a.operationId && t.attempts[k].number == a.number)
    case UpdateAttempt(a) => ValidAttempt(a) && a.id in t.attempts && AttemptStep(t, t.attempts[a.id], a)
    case InsertRecord(r) =>
      h.valid(r) && 1 <= r.payload.sequence && RecordStep(t, r.payload) && Unclashing(t.records, r.payload)
    case DeleteOperation(_) => false
    case DeleteAttempt(_) => false
    case UpdateRecord(_, _) => false
    case DeleteRecord(_) => false
  }

  predicate SameSlot(o: Operation, n: Operation) {
    o.runId == n.runId && o.kind == n.kind && o.berlinDate == n.berlinDate
  }

  function Applied(h: Rules, t: Tables, w: Write): Tables
    requires Admitted(h, t, w)
  {
    match w
    case AddRun(id, run) => t.(runs := t.runs[id := run])
    case AddService(id, service) => t.(services := t.services[id := service])
    case StopService(id, at) => t.(services := t.services[id := t.services[id].(stoppedAt := Some(at))])
    case InsertOperation(o) => t.(operations := t.operations[o.id := o])
    case UpdateOperation(o) => t.(operations := t.operations[o.id := o])
    case InsertAttempt(a) => t.(attempts := t.attempts[a.id := a])
    case UpdateAttempt(a) => t.(attempts := t.attempts[a.id := a])
    case InsertRecord(r) => t.(records := t.records + [r])
  }

  // ------------------------------------------------------------------ streams

  predicate Belongs(key: StreamKey, r: Record) { r.payload.report.stream == key }

  function InStream(key: StreamKey): Record -> bool { r => Belongs(key, r) }

  function Stream(rs: seq<Record>, key: StreamKey): seq<Record> { Sorting.Filter(InStream(key), rs) }

  function TipHash(s: seq<Record>): Digest {
    if s == [] then GENESIS_EVIDENCE_HASH else s[|s| - 1].contentHash
  }

  /** Sequences are exactly 1..n and every record carries the hash of the one before it. */
  ghost predicate Chained(s: seq<Record>) {
    forall i :: 0 <= i < |s| ==> Follows(s, i)
  }

  predicate Follows(s: seq<Record>, i: nat)
    requires i < |s|
  {
    && s[i].payload.sequence == i + 1
    && s[i].payload.previousHash == if i == 0 then GENESIS_EVIDENCE_HASH else s[i - 1].contentHash
  }

  lemma {:induction false} Dense(s: seq<Record>)
    requires Chained(s)
    ensures forall i :: 0 <= i < |s| ==> s[i].payload.sequence == i + 1
  {
    forall i | 0 <= i < |s| ensures s[i].payload.sequence == i + 1 {
      assert Follows(s, i);
    }
  }

  lemma {:induction false} StreamSnoc(rs: seq<Record>, r: Record, key: StreamKey)
    ensures Stream(rs + [r], key) == if Belongs(key, r) then Stream(rs, key) + [r] else Stream(rs, key)
  {
    Sorting.FilterConcat(InStream(key), rs, [r]);
  }

  lemma {:induction false} ChainedSnoc(s: seq<Record>, r: Record)
    requires Chained(s) && r.payload.sequence == |s| + 1 && r.payload.previousHash == TipHash(s)
    ensures Chained(s + [r])
  {
    forall i | 0 <= i <= |s| ensures Follows(s + [r], i) {
      assert i < |s| ==> Follows(s, i);
    }
  }

  lemma {:induction false} StreamMember(rs: seq<Record>, key: StreamKey, j: nat)
    requires j < |Stream(rs, key)|
    ensures exists i :: 0 <= i < |rs| && rs[i] == Stream(rs, key)[j] && Belongs(key, rs[i])
  {
    assert Stream(rs, key)[j] in rs;
  }

  /** A record the trigger and the uniqueness constraints let in continues its stream. */
  lemma {:induction false} PositionedIsNext(rs: seq<Record>, p: Payload)
    requires Chained(Stream(rs, p.report.stream)) && 1 <= p.sequence
    requires Positioned(rs, p) && Unclashing(rs, p)
    ensures p.sequence == |Stream(rs, p.report.stream)| + 1
    ensures p.previousHash == TipHash(Stream(rs, p.report.stream))
  {
    var s := Stream(rs, p.report.stream);
    Dense(s);
    if p.sequence == 1 {
      if s != [] { StreamMember(rs, p.report.stream, 0); }
    } else {
      var i :| 0 <= i < |rs| && Precedes(rs[i], p);
      assert rs[i] in s;
      var j :| 0 <= j < |s| && s[j] == rs[i];
      if j + 1 < |s| {
        StreamMember(rs, p.report.stream, j + 1);
      }
    }
  }

  /** The position `next_stream_position` reads is one the trigger admits. */
  lemma {:induction false} NextIsPositioned(rs: seq<Record>, p: Payload)
    requires Chained(Stream(rs, p.report.stream))
    requires p.sequence == |Stream(rs, p.report.stream)| + 1
    requires p.previousHash == TipHash(Stream(rs, p.report.stream))
    ensures Positioned(rs, p)
    ensures forall i :: 0 <= i < |rs| && rs[i].payload.report.stream == p.report.stream ==>
                          rs[i].payload.sequence != p.sequence
  {
    var s := Stream(rs, p.report.stream);
    Dense(s);
    forall i | 0 <= i < |rs| && rs[i].payload.report.stream == p.report.stream
      ensures s != [] && rs[i].payload.sequence < p.sequence
    {
      assert Belongs(p.report.stream, rs[i]);
      assert rs[i] in s;
    }
    if s != [] {
      var last := s[|s| - 1];
      assert last in rs;
      var i :| 0 <= i < |rs| && rs[i] == last;
      assert Precedes(rs[i], p);
    }
  }

  predicate BySequence(a: Record, b: Record) { a.payload.sequence <= b.payload.sequence }

  /** Reading a chained stream in sequence order is reading it in insertion order. */
  lemma {:induction false} SequenceOrder(rs: seq<Record>, key: StreamKey)
    requires Chained(Stream(rs, key))
    ensures Sorting.Sort(BySequence, Stream(rs, key)) == Stream(rs, key)
  {
    Dense(Stream(rs, key));
    Sorting.SortOfSorted(BySequence, Stream(rs, key));
  }

  ghost predicate Injective(h: Payload -> Digest) {
    forall p, q :: h(p) == h(q) ==> p == q
  }

  ghost predicate Hashed(h: Payload -> Digest, s: seq<Record>) {
    forall i :: 0 <= i < |s| ==> s[i].contentHash == h(s[i].payload)
  }

  lemma {:induction false} SameRecord(h: Payload -> Digest, r: Record, q: Record)
    requires Injective(h) && r.contentHash == h(r.payload) && q.contentHash == h(q.payload)
    requires r.contentHash == q.contentHash
    ensures r == q
  {
  }

  lemma {:induction false} SameUpTo(h: Payload -> Digest, s: seq<Record>, t: seq<Record>, n: nat)
    requires Injective(h) && Chained(s) && Chained(t) && Hashed(h, s) && Hashed(h, t)
    requires n < |s| && n < |t| && s[n].contentHash == t[n].contentHash
    ensures forall i :: 0 <= i <= n ==> s[i] == t[i]
  {
    SameRecord(h, s[n], t[n]);
    if 0 < n {
      assert Follows(s, n) && Follows(t, n);
      SameUpTo(h, s, t, n - 1);
    }
  }

  /** The tip hash of a valid stream determines the whole stream. */
  lemma {:induction false} TipDeterminesStream(h: Payload -> Digest, s: seq<Record>, t: seq<Record>)
    requires Injective(h) && Chained(s) && Chained(t) && Hashed(h, s) && Hashed(h, t)
    requires s != [] && t != [] && TipHash(s) == TipHash(t)
    ensures s == t
  {
    var n, m := |s| - 1, |t| - 1;
    SameRecord(h, s[n], t[m]);
    assert Follows(s, n) && Follows(t, m);
    SameUpTo(h, s, t, n);
  }
}
