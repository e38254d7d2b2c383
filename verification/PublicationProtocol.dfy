/** `ArtifactPublisher.publish` as a protocol: what any interleaving of publishers, crashes, failing
    stores, aborted or unacknowledged transactions and other database writers can lead to. */
module PublicationProtocol {
  import opened Results
  import opened ArtifactModels
  import opened Catalog
  import opened CatalogRuns
  import opened Publication

  /** A request together with the verified bundle it names. */
  datatype Request = Request(
    report: ReportKey, runId: Id, operationId: Id, generatedAt: Time, deploymentId: string, serviceId: string,
    bundleHash: Digest, sizeBytes: nat, mediaType: string)

  datatype Phase =
    | Looking
    | Verifying(existing: Record)
    | Beginning
    | Storing(attemptId: Id)
    | Recording(attemptId: Id, replica: seq<StoredArtifact>, canonical: seq<StoredArtifact>)
    | Failing(attemptId: Id, reason: string)
    | Closing(record: Record)
    | Returned(record: Record)
    | Raised(reason: string)
    | Crashed

  datatype Publisher = Publisher(request: Request, phase: Phase)

  datatype State = State(tables: Tables, publishers: map<nat, Publisher>)

  /** `committed` says whether the transaction took effect, `seen` whether the publisher learnt it. */
  datatype Event =
    | Submit(pid: nat, request: Request)
    | Look(pid: nat, found: Option<Record>)
    | Verify(pid: nat, replica: seq<StoredArtifact>, canonical: seq<StoredArtifact>)
    | Begin(pid: nat, attempt: Attempt, committed: bool, seen: bool)
    | Store(pid: nat, replica: seq<StoredArtifact>, canonical: seq<StoredArtifact>)
    | StoreFails(pid: nat, reason: string)
    | Catalog(pid: nat, recordId: Id, recordedAt: Time, committed: bool, seen: bool)
    | ReportFailure(pid: nat, at: Time, committed: bool)
    | Close(pid: nat, clean: bool)
    | Abort(pid: nat, reason: string)
    | Crash(pid: nat)
    | OtherWrite(write: Write)

  /** The record agrees with the request in every field `publish` compares; the size and media type of the
      bundle are not among them. */
  predicate Answers(r: Record, q: Request) {
    && r.payload.report == q.report && r.payload.runId == q.runId && r.payload.operationId == q.operationId
    && r.payload.generatedAt == q.generatedAt && r.payload.deploymentId == q.deploymentId
    && r.payload.serviceId == q.serviceId && r.payload.bundleHash == q.bundleHash
  }

  /** The payload says what was requested, under which attempt, what the two stores confirmed, and when it was
      recorded. */
  predicate Carries(
      p: Payload, q: Request, attemptId: Id, replica: seq<StoredArtifact>, canonical: seq<StoredArtifact>,
      recordId: Id, recordedAt: Time)
  {
    && p.id == recordId && p.report == q.report && p.operationId == q.operationId && p.attemptId == attemptId
    && p.runId == q.runId && p.bundleHash == q.bundleHash && p.sizeBytes == q.sizeBytes
    && p.mediaType == q.mediaType && p.generatedAt == q.generatedAt && p.recordedAt == recordedAt
    && p.deploymentId == q.deploymentId && p.serviceId == q.serviceId
    && p.replica == replica && p.canonical == canonical
  }

  /** What a publisher in phase `Recording` puts into the catalog transaction. */
  function NewPayload(t: Tables, q: Request, f: Phase, recordId: Id, recordedAt: Time): Payload
    requires f.Recording?
  {
    var next := NextPosition(t, q.report.stream);
    Payload(recordId, q.report, q.operationId, f.attemptId, q.runId, q.bundleHash, q.sizeBytes, q.mediaType,
            q.generatedAt, recordedAt, q.deploymentId, q.serviceId, next.0, f.replica, f.canonical, next.1)
  }

  function CatalogTransaction(h: Rules, t: Tables, q: Request, f: Phase, recordId: Id, recordedAt: Time)
    : Result<(Record, Tables), Refusal>
    requires f.Recording?
  {
    var created := CreateRecord(h, NewPayload(t, q, f, recordId, recordedAt));
    if created.Err? then Err(InvalidValue)
    else
      var out := RecordPublication(h, t, created.value);
      if out.Err? then Err(out.error) else Ok((created.value, out.value))
  }

  predicate At(s: State, pid: nat) { pid in s.publishers }

  function PhaseOf(s: State, pid: nat): Phase
    requires At(s, pid)
  {
    s.publishers[pid].phase
  }

  predicate Finished(f: Phase) { f.Returned? || f.Raised? || f.Crashed? }

  ghost predicate Enabled(h: Rules, s: State, e: Event) {
    match e
    case Submit(pid, _) => !At(s, pid)
    case Look(pid, found) =>
      At(s, pid) && PhaseOf(s, pid).Looking? && Finds(s.tables, s.publishers[pid].request.report, found)
    case Verify(pid, _, _) => At(s, pid) && PhaseOf(s, pid).Verifying?
    case Begin(pid, a, committed, seen) =>
      && At(s, pid) && PhaseOf(s, pid).Beginning? && (seen ==> committed)
      && var q := s.publishers[pid].request;
      (committed ==> BeginsAttempt(s.tables, q.operationId, q.bundleHash, a))
    case Store(pid, _, _) => At(s, pid) && PhaseOf(s, pid).Storing?
    case StoreFails(pid, _) => At(s, pid) && PhaseOf(s, pid).Storing?
    case Catalog(pid, recordId, recordedAt, committed, seen) =>
      && At(s, pid) && PhaseOf(s, pid).Recording? && (seen ==> committed)
      && (committed ==>
            CatalogTransaction(h, s.tables, s.publishers[pid].request, PhaseOf(s, pid), recordId, recordedAt).Ok?)
    case ReportFailure(pid, at, committed) =>
      && At(s, pid) && PhaseOf(s, pid).Failing?
      && (committed ==> FailAttempt(h, s.tables, PhaseOf(s, pid).attemptId, PhaseOf(s, pid).reason, at).Ok?)
    case Close(pid, _) => At(s, pid) && PhaseOf(s, pid).Closing?
    case Abort(pid, _) =>
      At(s, pid) && (PhaseOf(s, pid).Looking? || PhaseOf(s, pid).Verifying? || PhaseOf(s, pid).Beginning?)
    case Crash(pid) => At(s, pid) && !Finished(PhaseOf(s, pid))
    case OtherWrite(w) => Admitted(h, s.tables, w)
  }

  function Moved(s: State, pid: nat, f: Phase): State
    requires At(s, pid)
  {
    s.(publishers := s.publishers[pid := s.publishers[pid].(phase := f)])
  }

  ghost function Next(h: Rules, s: State, e: Event): State
    requires Enabled(h, s, e)
  {
    match e
    case Submit(pid, q) => s.(publishers := s.publishers[pid := Publisher(q, Looking)])
    case Look(pid, found) =>
      Moved(s, pid, match found
                    case None => Beginning
                    case Some(r) => if Answers(r, s.publishers[pid].request) then Verifying(r)
                                    else Raised("publication_conflict"))
    case Verify(pid, replica, canonical) =>
      var r := PhaseOf(s, pid).existing;
      Moved(s, pid, if replica == r.payload.replica && canonical == r.payload.canonical then Closing(r)
                    else Raised("publication_conflict"))
    case Begin(pid, a, committed, seen) =>
      AttemptAdmitted(h, s, e);
      var s' := if committed then s.(tables := Applied(h, s.tables, InsertAttempt(a))) else s;
      Moved(s', pid, if seen then Storing(a.id) else Raised("attempt_start_failed"))
    case Store(pid, replica, canonical) => Moved(s, pid, Recording(PhaseOf(s, pid).attemptId, replica, canonical))
    case StoreFails(pid, reason) => Moved(s, pid, Failing(PhaseOf(s, pid).attemptId, reason))
    case Catalog(pid, recordId, recordedAt, committed, seen) =>
      var f := PhaseOf(s, pid);
      if !committed then Moved(s, pid, Failing(f.attemptId, "catalog_write_failed"))
      else
        var done := CatalogTransaction(h, s.tables, s.publishers[pid].request, f, recordId, recordedAt).value;
        Moved(s.(tables := done.1), pid, if seen then Closing(done.0) else Failing(f.attemptId, "catalog_write_failed"))
    case ReportFailure(pid, at, committed) =>
      var f := PhaseOf(s, pid);
      var s' := if committed then s.(tables := FailAttempt(h, s.tables, f.attemptId, f.reason, at).value) else s;
      Moved(s', pid, Raised(f.reason))
    case Close(pid, clean) =>
      Moved(s, pid, if clean then Returned(PhaseOf(s, pid).record) else Raised("bundle_cleanup_failed"))
    case Abort(pid, reason) => Moved(s, pid, Raised(reason))
    case Crash(pid) => Moved(s, pid, Crashed)
    case OtherWrite(w) => s.(tables := Applied(h, s.tables, w))
  }

  lemma {:induction false} AttemptAdmitted(h: Rules, s: State, e: Event)
    requires Enabled(h, s, e) && e.Begin?
    ensures e.committed ==> Admitted(h, s.tables, InsertAttempt(e.attempt))
  {
    var q := s.publishers[e.pid].request;
    if e.committed { BeginAdmitted(h, s.tables, q.operationId, q.bundleHash, e.attempt); }
  }

  // ------------------------------------------------------------------ what every step keeps

  /** A record a publisher holds is in the catalog and answers its request. */
  predicate Holds(rs: seq<Record>, p: Publisher) {
    match p.phase
    case Verifying(r) => r in rs && Answers(r, p.request)
    case Closing(r) => r in rs && Answers(r, p.request)
    case Returned(r) => r in rs && Answers(r, p.request)
    case _ => true
  }

  ghost predicate Safe(h: Rules, s: State) {
    Consistent(h, s.tables) && forall pid :: pid in s.publishers ==> Holds(s.tables.records, s.publishers[pid])
  }

  const INITIAL: State := State(EMPTY, map[])

  lemma {:induction false} HoldsLater(rs: seq<Record>, rs': seq<Record>, p: Publisher)
    requires Holds(rs, p) && rs <= rs'
    ensures Holds(rs', p)
  {
  }

  /** What a step does to the tables: they stay consistent and the catalog only grows. */
  ghost predicate Extends(h: Rules, t: Tables, t': Tables) {
    Consistent(h, t') && t.records <= t'.records
  }

  lemma {:induction false} BeginStep(h: Rules, s: State, e: Event)
    requires Safe(h, s) && Enabled(h, s, e) && e.Begin?
    ensures Extends(h, s.tables, Next(h, s, e).tables)
  {
    AttemptAdmitted(h, s, e);
    if e.committed { WriteKeeps(h, s.tables, InsertAttempt(e.attempt)); }
  }

  lemma {:induction false} CatalogStep(h: Rules, s: State, e: Event)
    requires Safe(h, s) && Enabled(h, s, e) && e.Catalog?
    ensures Extends(h, s.tables, Next(h, s, e).tables)
  {
    if e.committed {
      var q, f := s.publishers[e.pid].request, PhaseOf(s, e.pid);
      PublicationKeeps(h, s.tables, CatalogTransaction(h, s.tables, q, f, e.recordId, e.recordedAt).value.0);
    }
  }

  lemma {:induction false} FailureStep(h: Rules, s: State, e: Event)
    requires Safe(h, s) && Enabled(h, s, e) && e.ReportFailure?
    ensures Extends(h, s.tables, Next(h, s, e).tables)
  {
    if e.committed {
      FailureKeeps(h, s.tables, PhaseOf(s, e.pid).attemptId, PhaseOf(s, e.pid).reason, e.at);
    }
  }

  lemma {:induction false} OtherStep(h: Rules, s: State, e: Event)
    requires Safe(h, s) && Enabled(h, s, e) && e.OtherWrite?
    ensures Extends(h, s.tables, Next(h, s, e).tables)
  {
    WriteKeeps(h, s.tables, e.write);
    WriteGrows(h, s.tables, e.write);
  }

  lemma {:induction false} QuietStep(h: Rules, s: State, e: Event)
    requires Enabled(h, s, e) && !e.Begin? && !e.Catalog? && !e.ReportFailure? && !e.OtherWrite?
    ensures Next(h, s, e).tables == s.tables
  {
  }

  lemma {:induction false} TablesStep(h: Rules, s: State, e: Event)
    requires Safe(h, s) && Enabled(h, s, e)
    ensures Extends(h, s.tables, Next(h, s, e).tables)
  {
    match e {
      case Begin(_, _, _, _) => BeginStep(h, s, e);
      case Catalog(_, _, _, _, _) => CatalogStep(h, s, e);
      case ReportFailure(_, _, _) => FailureStep(h, s, e);
      case OtherWrite(_) => OtherStep(h, s, e);
      case _ => QuietStep(h, s, e);
    }
  }

  /** The publisher that moves holds a cataloged record that answers its request, or none. */
  lemma {:induction false} MoverHolds(h: Rules, s: State, e: Event)
    requires Safe(h, s) && Enabled(h, s, e) && !e.OtherWrite?
    ensures e.pid in Next(h, s, e).publishers
    ensures Holds(Next(h, s, e).tables.records, Next(h, s, e).publishers[e.pid])
  {
    if e.Catalog? && e.committed {
      var q, f := s.publishers[e.pid].request, PhaseOf(s, e.pid);
      var done := CatalogTransaction(h, s.tables, q, f, e.recordId, e.recordedAt).value;
      PublicationKeeps(h, s.tables, done.0);
    } else if !e.Submit? {
      assert Holds(s.tables.records, s.publishers[e.pid]);
    }
  }

  lemma {:induction false} OthersStay(h: Rules, s: State, e: Event, pid: nat)
    requires Enabled(h, s, e) && pid in s.publishers && (e.OtherWrite? || e.pid != pid)
    ensures pid in Next(h, s, e).publishers && Next(h, s, e).publishers[pid] == s.publishers[pid]
  {
  }

  lemma {:induction false} NoNewPublishers(h: Rules, s: State, e: Event, pid: nat)
    requires Enabled(h, s, e) && pid in Next(h, s, e).publishers
    ensures pid in s.publishers || (!e.OtherWrite? && e.pid == pid)
  {
  }

  lemma {:induction false} StepSafe(h: Rules, s: State, e: Event)
    requires Safe(h, s) && Enabled(h, s, e)
    ensures Safe(h, Next(h, s, e))
  {
    var s' := Next(h, s, e);
    TablesStep(h, s, e);
    forall pid | pid in s'.publishers ensures Holds(s'.tables.records, s'.publishers[pid]) {
      if !e.OtherWrite? && e.pid == pid {
        MoverHolds(h, s, e);
      } else {
        NoNewPublishers(h, s, e, pid);
        OthersStay(h, s, e, pid);
        HoldsLater(s.tables.records, s'.tables.records, s.publishers[pid]);
      }
    }
  }

  // ------------------------------------------------------------------ every run

  ghost predicate StepAt(h: Rules, ss: seq<State>, es: seq<Event>, i: nat)
    requires i < |es| && |ss| == |es| + 1
  {
    Enabled(h, ss[i], es[i]) && ss[i + 1] == Next(h, ss[i], es[i])
  }

  ghost predicate Run(h: Rules, ss: seq<State>, es: seq<Event>) {
    && |ss| == |es| + 1 && ss[0] == INITIAL
    && forall i :: 0 <= i < |es| ==> StepAt(h, ss, es, i)
  }

  lemma {:induction false} RunSafe(h: Rules, ss: seq<State>, es: seq<Event>, i: nat)
    requires Run(h, ss, es) && i <= |es|
    ensures Safe(h, ss[i])
  {
    if i == 0 {
      EmptyConsistent(h);
    } else {
      RunSafe(h, ss, es, i - 1);
      assert StepAt(h, ss, es, i - 1);
      StepSafe(h, ss[i - 1], es[i - 1]);
    }
  }

  lemma {:induction false} CatalogGrows(h: Rules, ss: seq<State>, es: seq<Event>, i: nat, j: nat)
    requires Run(h, ss, es) && i <= j <= |es|
    ensures ss[i].tables.records <= ss[j].tables.records
    decreases j
  {
    if i < j {
      CatalogGrows(h, ss, es, i, j - 1);
      RunSafe(h, ss, es, j - 1);
      assert StepAt(h, ss, es, j - 1);
      TablesStep(h, ss[j - 1], es[j - 1]);
    }
  }

  /** A publication that returned stays returned, with the same record. */
  lemma {:induction false} ReturnIsFinal(h: Rules, ss: seq<State>, es: seq<Event>, i: nat, j: nat, pid: nat)
    requires Run(h, ss, es) && i <= j <= |es| && pid in ss[i].publishers && ss[i].publishers[pid].phase.Returned?
    ensures pid in ss[j].publishers && ss[j].publishers[pid] == ss[i].publishers[pid]
    decreases j
  {
    if i < j {
      ReturnIsFinal(h, ss, es, i, j - 1, pid);
      assert StepAt(h, ss, es, j - 1);
    }
  }

  /** Exactly once: at any two moments of any run, two publications of one report that returned have
      returned the same record; it answers both requests, and it is the catalog's only record for the
      report, in every later state too. */
  lemma {:induction false} PublishedOnce(
      h: Rules, ss: seq<State>, es: seq<Event>, i: nat, p: nat, j: nat, q: nat)
    requires Run(h, ss, es) && i <= j <= |es|
    requires p in ss[i].publishers && ss[i].publishers[p].phase.Returned?
    requires q in ss[j].publishers && ss[j].publishers[q].phase.Returned?
    requires ss[i].publishers[p].request.report == ss[j].publishers[q].request.report
    ensures ss[i].publishers[p].phase.record == ss[j].publishers[q].phase.record
    ensures Answers(ss[i].publishers[p].phase.record, ss[i].publishers[p].request)
    ensures Answers(ss[i].publishers[p].phase.record, ss[j].publishers[q].request)
    ensures forall n :: 0 <= n < |ss[j].tables.records| ==>
              (ss[j].tables.records[n].payload.report == ss[i].publishers[p].request.report <==>
               ss[j].tables.records[n] == ss[i].publishers[p].phase.record)
  {
    ReturnIsFinal(h, ss, es, i, j, p);
    RunSafe(h, ss, es, j);
    var t, report := ss[j].tables, ss[i].publishers[p].request.report;
    var r := ss[i].publishers[p].phase.record;
    assert Holds(t.records, ss[j].publishers[p]) && Holds(t.records, ss[j].publishers[q]);
    FindsOne(h, t, report, Some(r), Some(ss[j].publishers[q].phase.record));
    forall n | 0 <= n < |t.records| && t.records[n].payload.report == report ensures t.records[n] == r {
      FindsOne(h, t, report, Some(r), Some(t.records[n]));
    }
  }

  /** A committed record is never lost, and its attempt never turns into a failed one, whether or not
      the publisher saw the commit. */
  lemma {:induction false} CommittedForGood(
      h: Rules, ss: seq<State>, es: seq<Event>, i: nat, j: nat, n: nat)
    requires Run(h, ss, es) && i <= j <= |es| && n < |ss[i].tables.records|
    ensures n < |ss[j].tables.records| && ss[j].tables.records[n] == ss[i].tables.records[n]
    ensures Backed(ss[j].tables, ss[i].tables.records[n].payload)
  {
    CatalogGrows(h, ss, es, i, j);
    RunSafe(h, ss, es, j);
    assert Backed(ss[j].tables, ss[j].tables.records[n].payload);
  }

  /** A publisher whose catalog commit went unseen can only raise: its failure report is refused. */
  lemma {:induction false} UnseenCommitNotFailed(h: Rules, s: State, e: Event)
    requires Safe(h, s) && e.ReportFailure? && Enabled(h, s, e)
    requires Cataloged(s.tables, PhaseOf(s, e.pid).attemptId)
    ensures !e.committed && Next(h, s, e).tables == s.tables
  {
    CatalogedCannotFail(h, s.tables, PhaseOf(s, e.pid).attemptId, PhaseOf(s, e.pid).reason, e.at);
  }

  /** Once the report is in the catalog, looking it up finds that record, so no publication that looks
      afterwards opens a new attempt. */
  lemma {:induction false} LookFindsRecord(h: Rules, s: State, e: Event, r: Record)
    requires Safe(h, s) && e.Look? && Enabled(h, s, e)
    requires r in s.tables.records && r.payload.report == s.publishers[e.pid].request.report
    ensures e.found == Some(r)
    ensures Next(h, s, e).publishers[e.pid].phase ==
            if Answers(r, s.publishers[e.pid].request) then Verifying(r) else Raised("publication_conflict")
  {
    FindsOne(h, s.tables, r.payload.report, e.found, Some(r));
  }

  /** The same over runs: in every state after the one that held the record, a lookup of its report finds it. */
  lemma {:induction false} LookFindsRecordLater(
      h: Rules, ss: seq<State>, es: seq<Event>, i: nat, j: nat, r: Record)
    requires Run(h, ss, es) && i <= j < |es| && r in ss[i].tables.records && es[j].Look?
    requires StepAt(h, ss, es, j) && r.payload.report == ss[j].publishers[es[j].pid].request.report
    ensures es[j].found == Some(r) && !ss[j + 1].publishers[es[j].pid].phase.Beginning?
  {
    RunSafe(h, ss, es, j);
    CatalogGrows(h, ss, es, i, j);
    LookFindsRecord(h, ss[j], es[j], r);
  }

  /** A lost acknowledgement is recovered by publishing again: when the stores confirm the inventories
      the record names, the retry returns that very record and writes nothing. */
  lemma {:induction false} RetryReturnsRecord(h: Rules, s: State, pid: nat, q: Request, r: Record)
    requires Safe(h, s) && pid !in s.publishers && r in s.tables.records && Answers(r, q)
    ensures var e1, e2 := Submit(pid, q), Look(pid, Some(r));
            var e3, e4 := Verify(pid, r.payload.replica, r.payload.canonical), Close(pid, true);
            && Enabled(h, s, e1)
            && var s1 := Next(h, s, e1);
            && Enabled(h, s1, e2)
            && var s2 := Next(h, s1, e2);
            && Enabled(h, s2, e3)
            && var s3 := Next(h, s2, e3);
            && Enabled(h, s3, e4)
            && Next(h, s3, e4) == State(s.tables, s.publishers[pid := Publisher(q, Returned(r))])
  {
    var s1 := Next(h, s, Submit(pid, q));
    var s2 := Next(h, s1, Look(pid, Some(r)));
    var s3 := Next(h, s2, Verify(pid, r.payload.replica, r.payload.canonical));
    assert Next(h, s3, Close(pid, true)).publishers == s.publishers[pid := Publisher(q, Returned(r))];
  }

  /** The position read inside the catalog transaction is always the one its checks expect. */
  lemma {:induction false} PositionAccepted(
      h: Rules, t: Tables, q: Request, f: Phase, recordId: Id, recordedAt: Time)
    requires Genuine(h) && Consistent(h, t) && f.Recording?
    ensures var out := CatalogTransaction(h, t, q, f, recordId, recordedAt);
            out.Err? ==> out.error !in {SequenceNotContiguous, PreviousHashNotHead, TriggerRaised}
  {
    var p := NewPayload(t, q, f, recordId, recordedAt);
    var r := Record(p, h.digest(p));
    if h.valid(r) {
      NextPositionFits(h, t, r);
      TriggersNeverRaise(h, t, r);
    }
  }

  // ------------------------------------------------------------------ what a committed record says

  /** A record at the next position of its stream is not in the catalog yet. */
  lemma {:induction false} NextIsNew(h: Rules, t: Tables, r: Record)
    requires Consistent(h, t) && r.payload.sequence == NextPosition(t, r.payload.report.stream).0
    ensures r !in t.records
  {
    var key := r.payload.report.stream;
    NextPositionIsEnd(h, t, key);
    Dense(Stream(t.records, key));
    forall i | 0 <= i < |t.records| && Belongs(key, t.records[i])
      ensures t.records[i].payload.sequence < r.payload.sequence
    {
      assert t.records[i] in Stream(t.records, key);
    }
  }

  lemma {:induction false} TransactionAdds(
      h: Rules, t: Tables, q: Request, f: Phase, recordId: Id, recordedAt: Time)
    requires Consistent(h, t) && f.Recording? && CatalogTransaction(h, t, q, f, recordId, recordedAt).Ok?
    ensures var done := CatalogTransaction(h, t, q, f, recordId, recordedAt).value;
            && done.1.records == t.records + [done.0] && done.0.contentHash == h.digest(done.0.payload)
            && Carries(done.0.payload, q, f.attemptId, f.replica, f.canonical, recordId, recordedAt)
  {
    var done := CatalogTransaction(h, t, q, f, recordId, recordedAt).value;
    NextIsNew(h, t, done.0);
    PublicationEffect(h, t, done.0);
  }

  /** This publisher began the attempt. */
  predicate BeganWith(es: seq<Event>, pid: nat, attemptId: Id) {
    exists i :: 0 <= i < |es| && es[i].Begin? && es[i].pid == pid && es[i].seen && es[i].attempt.id == attemptId
  }

  /** This publisher committed the record. */
  predicate CommittedBy(es: seq<Event>, pid: nat, r: Record) {
    && Store(pid, r.payload.replica, r.payload.canonical) in es && BeganWith(es, pid, r.payload.attemptId)
    && Catalog(pid, r.payload.id, r.payload.recordedAt, true, true) in es
  }

  /** Where a publisher's phase comes from, among the events so far. */
  predicate Traced(es: seq<Event>, pid: nat, p: Publisher) {
    && Submit(pid, p.request) in es
    && match p.phase
       case Storing(a) => BeganWith(es, pid, a)
       case Recording(a, replica, canonical) => BeganWith(es, pid, a) && Store(pid, replica, canonical) in es
       case Closing(r) => CommittedBy(es, pid, r) || Verify(pid, r.payload.replica, r.payload.canonical) in es
       case Returned(r) =>
         && Close(pid, true) in es
         && (CommittedBy(es, pid, r) || Verify(pid, r.payload.replica, r.payload.canonical) in es)
       case _ => true
  }

  lemma {:induction false} BeganLater(es: seq<Event>, e: Event, pid: nat, attemptId: Id)
    requires BeganWith(es, pid, attemptId)
    ensures BeganWith(es + [e], pid, attemptId)
  {
    var i :| 0 <= i < |es| && es[i].Begin? && es[i].pid == pid && es[i].seen && es[i].attempt.id == attemptId;
    assert (es + [e])[i] == es[i];
  }

  lemma {:induction false} TracedLater(es: seq<Event>, e: Event, pid: nat, p: Publisher)
    requires Traced(es, pid, p)
    ensures Traced(es + [e], pid, p)
  {
    match p.phase {
      case Storing(a) => BeganLater(es, e, pid, a);
      case Recording(a, _, _) => BeganLater(es, e, pid, a);
      case Closing(r) => if CommittedBy(es, pid, r) { BeganLater(es, e, pid, r.payload.attemptId); }
      case Returned(r) => if CommittedBy(es, pid, r) { BeganLater(es, e, pid, r.payload.attemptId); }
      case _ =>
    }
  }

  lemma {:induction false} MoverTraced(h: Rules, s: State, e: Event, es: seq<Event>)
    requires Safe(h, s) && Enabled(h, s, e) && !e.OtherWrite?
    requires e.pid in s.publishers ==> Traced(es, e.pid, s.publishers[e.pid])
    ensures Traced(es + [e], e.pid, Next(h, s, e).publishers[e.pid])
  {
    var all := es + [e];
    assert all[|es|] == e;
    if e.pid in s.publishers { TracedLater(es, e, e.pid, s.publishers[e.pid]); }
    if e.Catalog? && e.committed {
      TransactionAdds(h, s.tables, s.publishers[e.pid].request, PhaseOf(s, e.pid), e.recordId, e.recordedAt);
    }
  }

  lemma {:induction false} RunTraced(h: Rules, ss: seq<State>, es: seq<Event>, i: nat, pid: nat)
    requires Run(h, ss, es) && i <= |es| && pid in ss[i].publishers
    ensures Traced(es[..i], pid, ss[i].publishers[pid])
  {
    if 0 < i {
      var n := i - 1;
      var s, e := ss[n], es[n];
      assert StepAt(h, ss, es, n);
      assert es[..i] == es[..n] + [e];
      RunSafe(h, ss, es, n);
      if pid in s.publishers { RunTraced(h, ss, es, n, pid); }
      if !e.OtherWrite? && e.pid == pid {
        MoverTraced(h, s, e, es[..n]);
      } else {
        NoNewPublishers(h, s, e, pid);
        OthersStay(h, s, e, pid);
        TracedLater(es[..n], e, pid, s.publishers[pid]);
      }
    }
  }

  /** How far a publication has come. */
  function Progress(f: Phase): nat {
    match f
    case Looking => 0
    case Verifying(_) => 1
    case Beginning => 1
    case Storing(_) => 2
    case Recording(_, _, _) => 3
    case Failing(_, _) => 4
    case Closing(_) => 4
    case _ => 5
  }

  /** After a publisher's one store event, its phase is past storing for good. */
  lemma {:induction false} StoredOnce(h: Rules, ss: seq<State>, es: seq<Event>, j: nat, i: nat, pid: nat)
    requires Run(h, ss, es) && j < i <= |es| && es[j].Store? && es[j].pid == pid
    ensures pid in ss[i].publishers && 3 <= Progress(ss[i].publishers[pid].phase)
  {
    assert StepAt(h, ss, es, i - 1);
    if j < i - 1 {
      StoredOnce(h, ss, es, j, i - 1, pid);
      if es[i - 1].OtherWrite? || es[i - 1].pid != pid { OthersStay(h, ss[i - 1], es[i - 1], pid); }
    }
  }

  /** In every run, a catalog transaction that commits adds one record, at the end.  The record says what this
      publisher was asked for, the attempt it began, the inventories its stores confirmed, replica and
      canonical, and the transaction's identifier and time.  A publisher stores once. */
  lemma {:induction false} CommittedRecordSays(h: Rules, ss: seq<State>, es: seq<Event>, k: nat)
    requires Run(h, ss, es) && k < |es| && es[k].Catalog? && es[k].committed
    ensures |ss[k + 1].tables.records| == |ss[k].tables.records| + 1
    ensures var rs, e := ss[k + 1].tables.records, es[k];
            var p := rs[|rs| - 1].payload;
            && rs[..|rs| - 1] == ss[k].tables.records && rs[|rs| - 1].contentHash == h.digest(p)
            && Store(e.pid, p.replica, p.canonical) in es[..k] && BeganWith(es[..k], e.pid, p.attemptId)
            && (forall j :: 0 <= j < k && es[j].Store? && es[j].pid == e.pid ==>
                              es[j] == Store(e.pid, p.replica, p.canonical))
            && e.pid in ss[k].publishers && Submit(e.pid, ss[k].publishers[e.pid].request) in es[..k]
            && Carries(p, ss[k].publishers[e.pid].request, p.attemptId, p.replica, p.canonical,
                       e.recordId, e.recordedAt)
  {
    var s, e := ss[k], es[k];
    assert StepAt(h, ss, es, k);
    RunSafe(h, ss, es, k);
    RunTraced(h, ss, es, k, e.pid);
    var q, f := s.publishers[e.pid].request, PhaseOf(s, e.pid);
    TransactionAdds(h, s.tables, q, f, e.recordId, e.recordedAt);
    forall j | 0 <= j < k && es[j].Store? && es[j].pid == e.pid
      ensures es[j] == Store(e.pid, f.replica, f.canonical)
    {
      StoreStays(h, ss, es, j, k, e.pid);
    }
  }

  lemma {:induction false} StoreStays(h: Rules, ss: seq<State>, es: seq<Event>, j: nat, i: nat, pid: nat)
    requires Run(h, ss, es) && j < i <= |es| && es[j].Store? && es[j].pid == pid
    requires pid in ss[i].publishers && ss[i].publishers[pid].phase.Recording?
    ensures var f := ss[i].publishers[pid].phase; es[j] == Store(pid, f.replica, f.canonical)
  {
    assert StepAt(h, ss, es, i - 1);
    if j < i - 1 {
      StoredOnce(h, ss, es, j, i - 1, pid);
      assert ss[i - 1].publishers[pid].phase == ss[i].publishers[pid].phase;
      StoreStays(h, ss, es, j, i - 1, pid);
    }
  }

  /** In every run, a publication that returned got the inventories of its record confirmed by the stores
      itself: it stored and committed the record, or verified exactly these inventories. */
  lemma {:induction false} ReturnedConfirmed(h: Rules, ss: seq<State>, es: seq<Event>, i: nat, pid: nat)
    requires Run(h, ss, es) && i <= |es| && pid in ss[i].publishers && ss[i].publishers[pid].phase.Returned?
    ensures var p := ss[i].publishers[pid];
            && Submit(pid, p.request) in es[..i] && Close(pid, true) in es[..i] && Answers(p.phase.record, p.request)
            && (CommittedBy(es[..i], pid, p.phase.record)
                || Verify(pid, p.phase.record.payload.replica, p.phase.record.payload.canonical) in es[..i])
  {
    RunTraced(h, ss, es, i, pid);
    RunSafe(h, ss, es, i);
    assert Holds(ss[i].tables.records, ss[i].publishers[pid]);
  }

  // ------------------------------------------------------------------ failures

  /** The publisher knows an attempt of its own. */
  predicate Began(es: seq<Event>, pid: nat) {
    exists i :: 0 <= i < |es| && es[i].Begin? && es[i].pid == pid && es[i].seen
  }

  /** It tried to report a failure, or its record was in the catalog and only the clean-up failed. */
  predicate Reported(es: seq<Event>, pid: nat) {
    Close(pid, false) in es || exists i :: 0 <= i < |es| && es[i].ReportFailure? && es[i].pid == pid
  }

  /** Who knows an attempt is past beginning, and raises only after reporting. */
  predicate Accounts(es: seq<Event>, pid: nat, f: Phase) {
    Began(es, pid) ==> 2 <= Progress(f) && (f.Raised? ==> Reported(es, pid))
  }

  lemma {:induction false} AccountsLater(es: seq<Event>, e: Event, pid: nat, f: Phase)
    requires Accounts(es, pid, f) && (e.OtherWrite? || e.pid != pid)
    ensures Accounts(es + [e], pid, f)
  {
    var all := es + [e];
    if Began(all, pid) {
      var i :| 0 <= i < |all| && all[i].Begin? && all[i].pid == pid && all[i].seen;
      assert i < |es| && es[i] == all[i];
      if f.Raised? { ReportedLater(es, e, pid); }
    }
  }

  lemma {:induction false} ReportedLater(es: seq<Event>, e: Event, pid: nat)
    requires Reported(es, pid)
    ensures Reported(es + [e], pid)
  {
    if Close(pid, false) !in es {
      var i :| 0 <= i < |es| && es[i].ReportFailure? && es[i].pid == pid;
      assert (es + [e])[i] == es[i];
    }
  }

  lemma {:induction false} BeganBefore(es: seq<Event>, e: Event, pid: nat)
    requires Began(es + [e], pid) && !(e.Begin? && e.pid == pid)
    ensures Began(es, pid)
  {
    var i :| 0 <= i < |es + [e]| && (es + [e])[i].Begin? && (es + [e])[i].pid == pid && (es + [e])[i].seen;
    assert i < |es| && es[i] == (es + [e])[i];
  }

  lemma {:induction false} MoverAccounts(h: Rules, s: State, e: Event, es: seq<Event>)
    requires Enabled(h, s, e) && !e.OtherWrite?
    requires e.pid in s.publishers ==> Accounts(es, e.pid, PhaseOf(s, e.pid))
    requires e.pid !in s.publishers ==> !Began(es, e.pid)
    ensures Accounts(es + [e], e.pid, Next(h, s, e).publishers[e.pid].phase)
  {
    var all := es + [e];
    assert all[|es|] == e;
    if Began(all, e.pid) && !e.Begin? { BeganBefore(es, e, e.pid); }
  }

  lemma {:induction false} RunAccounts(h: Rules, ss: seq<State>, es: seq<Event>, i: nat, pid: nat)
    requires Run(h, ss, es) && i <= |es|
    ensures if pid in ss[i].publishers then Accounts(es[..i], pid, ss[i].publishers[pid].phase)
            else !Began(es[..i], pid)
  {
    if 0 < i {
      var n := i - 1;
      var s, e := ss[n], es[n];
      assert StepAt(h, ss, es, n);
      assert es[..i] == es[..n] + [e];
      RunAccounts(h, ss, es, n, pid);
      if !e.OtherWrite? && e.pid == pid {
        MoverAccounts(h, s, e, es[..n]);
      } else if pid in s.publishers {
        OthersStay(h, s, e, pid);
        AccountsLater(es[..n], e, pid, s.publishers[pid].phase);
      } else {
        if pid in ss[i].publishers { NoNewPublishers(h, s, e, pid); }
        if Began(es[..i], pid) { BeganBefore(es[..n], e, pid); }
      }
    }
  }

  /** In every run, a publisher that knows its attempt and raised has tried to report the failure first, unless its
      record was already in the catalog and only the clean-up failed. */
  lemma {:induction false} RaisedReported(h: Rules, ss: seq<State>, es: seq<Event>, i: nat, pid: nat)
    requires Run(h, ss, es) && i <= |es| && pid in ss[i].publishers && ss[i].publishers[pid].phase.Raised?
    requires Began(es[..i], pid)
    ensures Reported(es[..i], pid)
  {
    RunAccounts(h, ss, es, i, pid);
  }

  lemma {:induction false} EndedStays(h: Rules, t: Tables, w: Write, id: Id)
    requires RowsValid(t) && Admitted(h, t, w) && id in t.attempts && !t.attempts[id].status.Started?
    ensures id in Applied(h, t, w).attempts && Applied(h, t, w).attempts[id] == t.attempts[id]
  {
  }

  /** The attempt is there and has ended. */
  predicate Ended(t: Tables, id: Id) { id in t.attempts && !t.attempts[id].status.Started? }

  predicate SameAttempt(t: Tables, t': Tables, id: Id) {
    id in t.attempts && id in t'.attempts && t'.attempts[id] == t.attempts[id]
  }

  lemma {:induction false} EndedByBegin(h: Rules, s: State, e: Event, id: Id)
    requires Safe(h, s) && Enabled(h, s, e) && e.Begin? && Ended(s.tables, id)
    ensures SameAttempt(s.tables, Next(h, s, e).tables, id)
  {
    AttemptAdmitted(h, s, e);
    if e.committed { EndedStays(h, s.tables, InsertAttempt(e.attempt), id); }
  }

  lemma {:induction false} EndedByCatalog(h: Rules, s: State, e: Event, id: Id)
    requires Safe(h, s) && Enabled(h, s, e) && e.Catalog? && Ended(s.tables, id)
    ensures SameAttempt(s.tables, Next(h, s, e).tables, id)
  {
    if e.committed {
      TransactionKeepsOthers(
        h, s.tables, s.publishers[e.pid].request, PhaseOf(s, e.pid), e.recordId, e.recordedAt, id);
    }
  }

  lemma {:induction false} EndedByReport(h: Rules, s: State, e: Event, id: Id)
    requires Safe(h, s) && Enabled(h, s, e) && e.ReportFailure? && Ended(s.tables, id)
    ensures SameAttempt(s.tables, Next(h, s, e).tables, id)
  {
    if e.committed {
      FailureRecordedIff(h, s.tables, PhaseOf(s, e.pid).attemptId, PhaseOf(s, e.pid).reason, e.at);
    }
  }

  lemma {:induction false} EndedStep(h: Rules, s: State, e: Event, id: Id)
    requires Safe(h, s) && Enabled(h, s, e) && Ended(s.tables, id)
    ensures SameAttempt(s.tables, Next(h, s, e).tables, id)
  {
    match e {
      case Begin(_, _, _, _) => EndedByBegin(h, s, e, id);
      case Catalog(_, _, _, _, _) => EndedByCatalog(h, s, e, id);
      case ReportFailure(_, _, _) => EndedByReport(h, s, e, id);
      case OtherWrite(w) => EndedStays(h, s.tables, w, id);
      case _ => QuietStep(h, s, e);
    }
  }

  lemma {:induction false} TransactionKeepsOthers(
      h: Rules, t: Tables, q: Request, f: Phase, recordId: Id, recordedAt: Time, id: Id)
    requires Consistent(h, t) && f.Recording? && CatalogTransaction(h, t, q, f, recordId, recordedAt).Ok?
    requires id in t.attempts && !t.attempts[id].status.Started?
    ensures var done := CatalogTransaction(h, t, q, f, recordId, recordedAt).value;
            id in done.1.attempts && done.1.attempts[id] == t.attempts[id]
  {
    var done := CatalogTransaction(h, t, q, f, recordId, recordedAt).value;
    NextIsNew(h, t, done.0);
    PublicationEffect(h, t, done.0);
  }

  /** In every run, a failure report that commits leaves the publisher's attempt failed with its reason and time, for
      good. */
  lemma {:induction false} FailedForGood(h: Rules, ss: seq<State>, es: seq<Event>, k: nat, j: nat)
    requires Run(h, ss, es) && k < j <= |es| && es[k].ReportFailure? && es[k].committed && StepAt(h, ss, es, k)
    ensures var f := ss[k].publishers[es[k].pid].phase;
            f.Failing? && FailedWith(ss[j].tables, f.attemptId, f.reason, es[k].at)
    decreases j
  {
    var f := ss[k].publishers[es[k].pid].phase;
    if k < j - 1 {
      FailedForGood(h, ss, es, k, j - 1);
      RunSafe(h, ss, es, j - 1);
      assert StepAt(h, ss, es, j - 1);
      EndedStep(h, ss[j - 1], es[j - 1], f.attemptId);
    } else {
      RunSafe(h, ss, es, k);
      FailureNow(h, ss[k], es[k]);
    }
  }

  /** The attempt has failed for this reason, at this time. */
  predicate FailedWith(t: Tables, id: Id, reason: string, at: Time) {
    && id in t.attempts && t.attempts[id].status == Abandoned
    && t.attempts[id].reason == Some(reason) && t.attempts[id].completedAt == Some(at)
  }

  lemma {:induction false} FailureNow(h: Rules, s: State, e: Event)
    requires Safe(h, s) && Enabled(h, s, e) && e.ReportFailure? && e.committed
    ensures FailedWith(Next(h, s, e).tables, PhaseOf(s, e.pid).attemptId, PhaseOf(s, e.pid).reason, e.at)
  {
    FailureRecordedIff(h, s.tables, PhaseOf(s, e.pid).attemptId, PhaseOf(s, e.pid).reason, e.at);
  }

  /** In every run, an attempt begins only while its operation runs, not before the operation's start, under a number
      above all earlier ones of the operation, and open, for the operation and bundle of the request. */
  lemma {:induction false} AttemptBegins(h: Rules, ss: seq<State>, es: seq<Event>, k: nat)
    requires Run(h, ss, es) && k < |es| && es[k].Begin? && es[k].committed && StepAt(h, ss, es, k)
    ensures var t, a, q := ss[k].tables, es[k].attempt, ss[k].publishers[es[k].pid].request;
            && ss[k + 1].tables == t.(attempts := t.attempts[a.id := a]) && a.id !in t.attempts
            && a.status == Started && a.operationId == q.operationId && a.bundleHash == q.bundleHash
            && q.operationId in t.operations && t.operations[q.operationId].status == Running
            && t.operations[q.operationId].startedAt <= a.startedAt
            && forall id :: id in t.attempts && t.attempts[id].operationId == q.operationId ==>
                 t.attempts[id].number < a.number
  {
    AttemptAdmitted(h, ss[k], es[k]);
  }

  /** The event ends the publication. */
  predicate Ends(e: Event) { e.Crash? || e.Abort? || e.ReportFailure? || e.Close? }

  /** In every run, a publication that has ended does nothing any more. */
  lemma {:induction false} EndedIsSilent(h: Rules, ss: seq<State>, es: seq<Event>, k: nat, j: nat)
    requires Run(h, ss, es) && k < j <= |es| && Ends(es[k])
    ensures es[k].pid in ss[j].publishers && Finished(ss[j].publishers[es[k].pid].phase)
    ensures j < |es| ==> es[j].OtherWrite? || es[j].pid != es[k].pid
    ensures es[k].Crash? ==> ss[j].publishers[es[k].pid].phase == Crashed
    ensures es[k].Abort? ==> ss[j].publishers[es[k].pid].phase == Raised(es[k].reason)
    decreases j
  {
    var pid := es[k].pid;
    assert StepAt(h, ss, es, j - 1);
    if j < |es| { assert StepAt(h, ss, es, j); }
    if k < j - 1 {
      EndedIsSilent(h, ss, es, k, j - 1);
      OthersStay(h, ss[j - 1], es[j - 1], pid);
    }
  }

  // ------------------------------------------------------------------ a publication can always succeed

  /** The events are enabled one after the other and end in `s'`. */
  ghost predicate Leads(h: Rules, s: State, es: seq<Event>, s': State)
    decreases |es|
  {
    if es == [] then s' == s else Enabled(h, s, es[0]) && Leads(h, Next(h, s, es[0]), es[1..], s')
  }

  ghost predicate Goes(h: Rules, s: State, e: Event, s': State) { Enabled(h, s, e) && Next(h, s, e) == s' }

  lemma {:induction false} LeadsStep(h: Rules, s: State, e: Event, s1: State, es: seq<Event>, s': State)
    requires Goes(h, s, e, s1) && Leads(h, s1, es, s')
    ensures Leads(h, s, [e] + es, s')
  {
    assert ([e] + es)[1..] == es;
  }

  function Begun(t: Tables, a: Attempt): Tables { t.(attempts := t.attempts[a.id := a]) }

  function With(t: Tables, s: State, pid: nat, q: Request, f: Phase): State {
    State(t, s.publishers[pid := Publisher(q, f)])
  }

  lemma {:induction false} LookGoes(h: Rules, s: State, pid: nat, q: Request)
    requires pid !in s.publishers && Finds(s.tables, q.report, None)
    ensures Goes(h, s, Submit(pid, q), With(s.tables, s, pid, q, Looking))
    ensures Goes(h, With(s.tables, s, pid, q, Looking), Look(pid, None), With(s.tables, s, pid, q, Beginning))
  {
  }

  lemma {:induction false} BeginGoes(h: Rules, s: State, pid: nat, q: Request, a: Attempt)
    requires BeginsAttempt(s.tables, q.operationId, q.bundleHash, a)
    ensures Goes(h, With(s.tables, s, pid, q, Beginning), Begin(pid, a, true, true),
                 With(Begun(s.tables, a), s, pid, q, Storing(a.id)))
  {
    AttemptAdmitted(h, With(s.tables, s, pid, q, Beginning), Begin(pid, a, true, true));
  }

  lemma {:induction false} StoreGoes(h: Rules, t: Tables, s: State, pid: nat, q: Request, f: Phase)
    requires f.Recording?
    ensures Goes(h, With(t, s, pid, q, Storing(f.attemptId)), Store(pid, f.replica, f.canonical), With(t, s, pid, q, f))
  {
  }

  /** From the lookup that finds nothing to the uploaded bundle. */
  lemma {:induction false} UploadLeads(
      h: Rules, s: State, pid: nat, q: Request, a: Attempt, f: Phase, es: seq<Event>, s': State)
    requires pid !in s.publishers && Finds(s.tables, q.report, None) && f.Recording? && f.attemptId == a.id
    requires BeginsAttempt(s.tables, q.operationId, q.bundleHash, a)
    requires Leads(h, With(Begun(s.tables, a), s, pid, q, f), es, s')
    ensures Leads(h, s, [Submit(pid, q)] + ([Look(pid, None)] + ([Begin(pid, a, true, true)]
                        + ([Store(pid, f.replica, f.canonical)] + es))), s')
  {
    var s1, s2 := With(s.tables, s, pid, q, Looking), With(s.tables, s, pid, q, Beginning);
    var s3, s4 := With(Begun(s.tables, a), s, pid, q, Storing(a.id)), With(Begun(s.tables, a), s, pid, q, f);
    LookGoes(h, s, pid, q);
    BeginGoes(h, s, pid, q, a);
    StoreGoes(h, Begun(s.tables, a), s, pid, q, f);
    FourSteps(h, s, Submit(pid, q), s1, Look(pid, None), s2, Begin(pid, a, true, true), s3,
              Store(pid, f.replica, f.canonical), s4, es, s');
  }

  lemma {:induction false} FourSteps(
      h: Rules, s: State, e1: Event, s1: State, e2: Event, s2: State, e3: Event, s3: State, e4: Event, s4: State,
      es: seq<Event>, s': State)
    requires Goes(h, s, e1, s1) && Goes(h, s1, e2, s2) && Goes(h, s2, e3, s3) && Goes(h, s3, e4, s4)
    requires Leads(h, s4, es, s')
    ensures Leads(h, s, [e1] + ([e2] + ([e3] + ([e4] + es))), s')
  {
    LeadsStep(h, s3, e4, s4, es, s');
    LeadsStep(h, s2, e3, s3, [e4] + es, s');
    LeadsStep(h, s1, e2, s2, [e3] + ([e4] + es), s');
    LeadsStep(h, s, e1, s1, [e2] + ([e3] + ([e4] + es)), s');
  }

  lemma {:induction false} NewAttemptUncataloged(h: Rules, t: Tables, id: Id)
    requires Consistent(h, t) && id !in t.attempts
    ensures !Cataloged(t, id)
  {
    forall i | 0 <= i < |t.records| ensures t.records[i].payload.attemptId != id {
      assert Backed(t, t.records[i].payload);
    }
  }

  lemma {:induction false} BegunConsistent(h: Rules, t: Tables, operationId: Id, bundleHash: Digest, a: Attempt)
    requires Consistent(h, t) && BeginsAttempt(t, operationId, bundleHash, a)
    ensures Consistent(h, Begun(t, a)) && !Cataloged(Begun(t, a), a.id)
  {
    BeginAdmitted(h, t, operationId, bundleHash, a);
    WriteKeeps(h, t, InsertAttempt(a));
    NewAttemptUncataloged(h, t, a.id);
  }

  /** The transaction of a valid new record with consistent authority adds it to the catalog. */
  lemma {:induction false} CatalogAdds(h: Rules, t: Tables, q: Request, f: Phase, recordId: Id, recordedAt: Time)
    requires Genuine(h) && Consistent(h, t) && f.Recording? && Finds(t, q.report, None)
    requires FreshRecordId(t, recordId) && !Cataloged(t, f.attemptId)
    requires var p := NewPayload(t, q, f, recordId, recordedAt);
             && Authorised(t, p) && t.attempts[f.attemptId].startedAt <= recordedAt
             && h.valid(Record(p, h.digest(p)))
    ensures var p := NewPayload(t, q, f, recordId, recordedAt);
            var r, out := Record(p, h.digest(p)), CatalogTransaction(h, t, q, f, recordId, recordedAt);
            out.Ok? && out.value.0 == r && out.value.1.records == t.records + [r]
  {
    var p := NewPayload(t, q, f, recordId, recordedAt);
    var r := Record(p, h.digest(p));
    assert !Published(t, q.report);
    PublicationAcceptedIff(h, t, r);
    var write := PublicationWrites(h, t, r);
  }

  lemma {:induction false} CatalogGoes(
      h: Rules, t: Tables, s: State, pid: nat, q: Request, f: Phase, recordId: Id, recordedAt: Time,
      done: (Record, Tables))
    requires f.Recording? && CatalogTransaction(h, t, q, f, recordId, recordedAt) == Ok(done)
    ensures Goes(h, With(t, s, pid, q, f), Catalog(pid, recordId, recordedAt, true, true),
                 With(done.1, s, pid, q, Closing(done.0)))
  {
  }

  lemma {:induction false} CloseGoes(h: Rules, t: Tables, s: State, pid: nat, q: Request, r: Record)
    ensures Goes(h, With(t, s, pid, q, Closing(r)), Close(pid, true), With(t, s, pid, q, Returned(r)))
  {
  }

  /** From the uploaded bundle to the return. */
  lemma {:induction false} RecordLeads(
      h: Rules, t: Tables, s: State, pid: nat, q: Request, f: Phase, recordId: Id, recordedAt: Time)
    requires f.Recording? && CatalogTransaction(h, t, q, f, recordId, recordedAt).Ok?
    ensures var done := CatalogTransaction(h, t, q, f, recordId, recordedAt).value;
            Leads(h, With(t, s, pid, q, f),
                  [Catalog(pid, recordId, recordedAt, true, true)] + ([Close(pid, true)] + []),
                  With(done.1, s, pid, q, Returned(done.0)))
  {
    var done := CatalogTransaction(h, t, q, f, recordId, recordedAt).value;
    var s4, s5, s6 := With(t, s, pid, q, f), With(done.1, s, pid, q, Closing(done.0)),
                      With(done.1, s, pid, q, Returned(done.0));
    var e5, e6 := Catalog(pid, recordId, recordedAt, true, true), Close(pid, true);
    CloseGoes(h, done.1, s, pid, q, done.0);
    CatalogGoes(h, t, s, pid, q, f, recordId, recordedAt, done);
    LeadsStep(h, s5, e6, s6, [], s6);
    LeadsStep(h, s4, e5, s5, [e6] + [], s6);
  }

  /** The events of a publication that meets no failure. */
  function Publishing(pid: nat, q: Request, a: Attempt, f: Phase, recordId: Id, recordedAt: Time): seq<Event>
    requires f.Recording?
  {
    [Submit(pid, q)] + ([Look(pid, None)] + ([Begin(pid, a, true, true)] + ([Store(pid, f.replica, f.canonical)]
    + ([Catalog(pid, recordId, recordedAt, true, true)] + ([Close(pid, true)] + [])))))
  }

  /** From any safe state, a publication of a report that is not in the catalog can still return: what it
      needs is an attempt its operation can begin, a fresh record identifier, consistent authority and a
      valid record.  It then returns the record it added to the catalog. */
  lemma {:induction false} FreshPublicationReturns(
      h: Rules, s: State, pid: nat, q: Request, a: Attempt, f: Phase, recordId: Id, recordedAt: Time)
    requires Genuine(h) && Safe(h, s) && pid !in s.publishers && f.Recording? && f.attemptId == a.id
    requires Finds(s.tables, q.report, None) && BeginsAttempt(s.tables, q.operationId, q.bundleHash, a)
    requires FreshRecordId(s.tables, recordId) && a.startedAt <= recordedAt
    requires var p := NewPayload(Begun(s.tables, a), q, f, recordId, recordedAt);
             Authorised(Begun(s.tables, a), p) && h.valid(Record(p, h.digest(p)))
    ensures var out := CatalogTransaction(h, Begun(s.tables, a), q, f, recordId, recordedAt);
            && out.Ok? && out.value.1.records == s.tables.records + [out.value.0]
            && Carries(out.value.0.payload, q, a.id, f.replica, f.canonical, recordId, recordedAt)
            && Leads(h, s, Publishing(pid, q, a, f, recordId, recordedAt),
                     With(out.value.1, s, pid, q, Returned(out.value.0)))
  {
    var t := Begun(s.tables, a);
    BegunConsistent(h, s.tables, q.operationId, q.bundleHash, a);
    CatalogAdds(h, t, q, f, recordId, recordedAt);
    RecordLeads(h, t, s, pid, q, f, recordId, recordedAt);
    var done := CatalogTransaction(h, t, q, f, recordId, recordedAt).value;
    UploadLeads(h, s, pid, q, a, f, [Catalog(pid, recordId, recordedAt, true, true)] + ([Close(pid, true)] + []),
                With(done.1, s, pid, q, Returned(done.0)));
  }

  // ------------------------------------------------------------------ records and succeeded attempts

  ghost predicate Settled(t: Tables) {
    forall i :: 0 <= i < |t.records| ==> IsCompleted(t, t.records[i].payload.attemptId)
  }

  ghost predicate IsCompleted(t: Tables, attemptId: Id) {
    attemptId in t.attempts && t.attempts[attemptId].status.Completed?
  }

  lemma {:induction false} SettledWrite(h: Rules, t: Tables, w: Write)
    requires Settled(t) && Admitted(h, t, w) && !w.InsertRecord?
    ensures Settled(Applied(h, t, w))
  {
    var t' := Applied(h, t, w);
    forall i | 0 <= i < |t'.records| ensures IsCompleted(t', t'.records[i].payload.attemptId) {
      assert IsCompleted(t, t.records[i].payload.attemptId);
    }
  }

  lemma {:induction false} SettledPublication(h: Rules, t: Tables, r: Record)
    requires Consistent(h, t) && Settled(t) && h.valid(r) && RecordPublication(h, t, r).Ok?
    ensures Settled(RecordPublication(h, t, r).value)
  {
    if r !in t.records {
      PublicationEffect(h, t, r);
      var t' := RecordPublication(h, t, r).value;
      forall i | 0 <= i < |t'.records| ensures IsCompleted(t', t'.records[i].payload.attemptId) {
        assert i < |t.records| ==> IsCompleted(t, t.records[i].payload.attemptId);
      }
    }
  }

  lemma {:induction false} SettledFailure(h: Rules, t: Tables, id: Id, reason: string, at: Time)
    requires Settled(t) && FailAttempt(h, t, id, reason, at).Ok?
    ensures Settled(FailAttempt(h, t, id, reason, at).value)
  {
    if !t.attempts[id].status.Abandoned? {
      SettledWrite(h, t, UpdateAttempt(AbandonAttempt(t.attempts[id], reason, at).value));
    }
  }

  predicate ForeignRecord(e: Event) { e.OtherWrite? && e.write.InsertRecord? }

  lemma {:induction false} SettledStep(h: Rules, s: State, e: Event)
    requires Safe(h, s) && Enabled(h, s, e) && Settled(s.tables) && !ForeignRecord(e)
    ensures Settled(Next(h, s, e).tables)
  {
    match e {
      case Begin(_, a, committed, _) =>
        AttemptAdmitted(h, s, e);
        if committed { SettledWrite(h, s.tables, InsertAttempt(a)); }
      case Catalog(pid, recordId, recordedAt, committed, _) =>
        if committed {
          var q, f := s.publishers[pid].request, PhaseOf(s, pid);
          SettledPublication(h, s.tables, CatalogTransaction(h, s.tables, q, f, recordId, recordedAt).value.0);
        }
      case ReportFailure(pid, at, committed) =>
        if committed { SettledFailure(h, s.tables, PhaseOf(s, pid).attemptId, PhaseOf(s, pid).reason, at); }
      case OtherWrite(w) => SettledWrite(h, s.tables, w);
      case _ => QuietStep(h, s, e);
    }
  }

  lemma {:induction false} RunSettled(h: Rules, ss: seq<State>, es: seq<Event>, i: nat)
    requires Run(h, ss, es) && i <= |es| && forall j :: 0 <= j < |es| ==> !ForeignRecord(es[j])
    ensures Settled(ss[i].tables)
  {
    if 0 < i {
      RunSettled(h, ss, es, i - 1);
      RunSafe(h, ss, es, i - 1);
      assert StepAt(h, ss, es, i - 1);
      SettledStep(h, ss[i - 1], es[i - 1]);
    }
  }

  /** While publishers are the only ones that catalog records, an attempt has succeeded exactly when it
      has its one record, and has none otherwise. */
  lemma {:induction false} SucceededIffRecorded(h: Rules, ss: seq<State>, es: seq<Event>, i: nat, k: Id)
    requires Run(h, ss, es) && i <= |es| && forall j :: 0 <= j < |es| ==> !ForeignRecord(es[j])
    requires k in ss[i].tables.attempts
    ensures RecordsOf(ss[i].tables.records, k) == if ss[i].tables.attempts[k].status.Completed? then 1 else 0
  {
    var t := ss[i].tables;
    RunSafe(h, ss, es, i);
    RunSettled(h, ss, es, i);
    RecordsPerAttempt(h, t, k);
    RecordsCounted(t.records, k);
    if exists n :: 0 <= n < |t.records| && t.records[n].payload.attemptId == k {
      var n :| 0 <= n < |t.records| && t.records[n].payload.attemptId == k;
      assert IsCompleted(t, t.records[n].payload.attemptId);
    }
  }
}
