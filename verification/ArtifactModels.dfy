/** The frozen values of the artifact domain and their transitions (`maais/artifacts/models.py`).
    Identifiers are numbers with zero as the nil UUID; timestamps are points on one UTC time line. */
module ArtifactModels {
  import opened Results

  type Id = nat
  type Time = int
  type Digest = string

  function Zeros(n: nat): (r: string)
    ensures |r| == n
  {
    seq(n, _ => '0')
  }

  const GENESIS_EVIDENCE_HASH: Digest := Zeros(64)

  predicate LowerHex(c: char) { '0' <= c <= '9' || 'a' <= c <= 'f' }

  predicate Sha256(s: string) { |s| == 64 && forall i :: 0 <= i < |s| ==> LowerHex(s[i]) }

  /** The characters that stripping a text removes from its ends. */
  predicate Blank(c: char) {
    var n := c as int;
    || 0x09 <= n <= 0x0D || 0x1C <= n <= 0x20 || n == 0x85 || n == 0xA0 || n == 0x1680 || 0x2000 <= n <= 0x200A
    || n == 0x2028 || n == 0x2029 || n == 0x202F || n == 0x205F || n == 0x3000
  }

  predicate Trimmed(s: string) { s != "" && !Blank(s[0]) && !Blank(s[|s| - 1]) }

  // ------------------------------------------------------------------ stored objects

  datatype RetentionMode = Governance | Compliance

  datatype Retention = Retention(mode: RetentionMode, retainUntil: Time)

  datatype StoredFields = StoredArtifact(
    storeName: string, key: string, etag: string, versionId: Option<string>,
    sha256: Digest, sizeBytes: nat, contentType: string, retention: Retention, storedAt: Time)

  predicate NonBlank(s: string) { s != "" && (!Blank(s[0]) || NonBlank(s[1..])) }

  predicate ValidStored(s: StoredFields) {
    && NonBlank(s.storeName) && NonBlank(s.etag) && (s.versionId.Some? ==> NonBlank(s.versionId.value))
    && Sha256(s.sha256) && s.contentType in ALLOWED_CONTENT_TYPES
  }

  const SAMPLE_STORED: StoredFields :=
    StoredFields.StoredArtifact("s", "k", "e", None, GENESIS_EVIDENCE_HASH, 0, "text/csv", Retention(Governance, 0), 0)

  type StoredArtifact = s: StoredFields | ValidStored(s) witness SAMPLE_STORED

  datatype WriteRequest = WriteRequest(
    key: string, sha256: Digest, sizeBytes: nat, contentType: string, retention: Retention)

  predicate ValidRequest(q: WriteRequest) { Sha256(q.sha256) && q.contentType in ALLOWED_CONTENT_TYPES }

  function StripLeft(s: string): string { if s != "" && Blank(s[0]) then StripLeft(s[1..]) else s }

  function StripRight(s: string): string {
    if s != "" && Blank(s[|s| - 1]) then StripRight(s[..|s| - 1]) else s
  }

  lemma {:induction false} StripShorter(s: string)
    ensures |StripLeft(s)| <= |s| && (|StripLeft(s)| == |s| <==> s == "" || !Blank(s[0]))
    ensures |StripRight(s)| <= |s| && (|StripRight(s)| == |s| <==> s == "" || !Blank(s[|s| - 1]))
  {
    if s != "" {
      StripShorter(s[1..]);
      StripShorter(s[..|s| - 1]);
    }
  }

  /** A text is trimmed exactly when it is not empty and stripping its ends leaves it as it is. */
  lemma {:induction false} TrimmedIff(s: string)
    ensures Trimmed(s) <==> s != "" && StripRight(StripLeft(s)) == s
  {
    StripShorter(s);
    StripShorter(StripLeft(s));
  }

  /** A text is not blank exactly when stripping leaves something. */
  lemma {:induction false} NonBlankIff(s: string)
    ensures NonBlank(s) <==> StripLeft(s) != ""
  {
    if s != "" && Blank(s[0]) { NonBlankIff(s[1..]); }
  }

  // ------------------------------------------------------------------ scheduled operations

  datatype OperationStatus = Running | Succeeded | Failed

  datatype Operation = Operation(
    id: Id, runId: Id, experimentId: Id, kind: string, berlinDate: int, generatedAt: Time,
    status: OperationStatus, owner: Id, attempt: int, results: seq<Id>,
    reason: Option<string>, startedAt: Time, completedAt: Option<Time>)

  predicate Distinct(ids: seq<Id>) { forall i, j :: 0 <= i < j < |ids| ==> ids[i] != ids[j] }

  /** The constructor's checks. */
  predicate ValidOperation(o: Operation) {
    && o.id != 0 && o.runId != 0 && o.experimentId != 0 && o.owner != 0
    && o.generatedAt <= o.startedAt && 1 <= o.attempt
    && (forall i :: 0 <= i < |o.results| ==> o.results[i] != 0) && Distinct(o.results)
    && (o.completedAt.Some? ==> o.startedAt <= o.completedAt.value)
    && match o.status
       case Running => o.completedAt.None? && o.reason.None?
       case Failed => o.completedAt.Some? && o.reason.Some? && Trimmed(o.reason.value)
       case Succeeded => o.completedAt.Some? && o.reason.None? && o.results != []
  }

  function BuildOperation(o: Operation): Result<Operation, string> {
    if ValidOperation(o) then Ok(o) else Err("invalid scheduled operation")
  }

  function StartOperation(
      id: Id, runId: Id, experimentId: Id, kind: string, berlinDate: int,
      owner: Id, generatedAt: Time, startedAt: Time): Result<Operation, string> {
    BuildOperation(Operation(id, runId, experimentId, kind, berlinDate, generatedAt,
                             Running, owner, 1, [], None, startedAt, None))
  }

  function Takeover(o: Operation, owner: Id, startedAt: Time): Result<Operation, string> {
    if o.status.Succeeded? then Err("succeeded operation cannot be taken over")
    else BuildOperation(o.(status := Running, owner := owner, attempt := o.attempt + 1,
                           reason := None, startedAt := startedAt, completedAt := None))
  }

  function FailOperation(o: Operation, reason: string, failedAt: Time): Result<Operation, string> {
    if !o.status.Running? then Err("only a running operation can fail")
    else BuildOperation(o.(status := Failed, reason := Some(reason), completedAt := Some(failedAt)))
  }

  function SucceedOperation(o: Operation, results: seq<Id>, completedAt: Time): Result<Operation, string> {
    if !o.status.Running? then Err("only a running operation can succeed")
    else BuildOperation(o.(status := Succeeded, results := results, reason := None, completedAt := Some(completedAt)))
  }

  predicate ResultIds(ids: seq<Id>) {
    ids != [] && (forall i :: 0 <= i < |ids| ==> ids[i] != 0) && Distinct(ids)
  }

  /** Exactly when each transition of a valid operation succeeds, and what it leaves as it was. */
  lemma {:induction false} OperationTransitionsIff(
      o: Operation, owner: Id, at: Time, reason: string, results: seq<Id>)
    requires ValidOperation(o)
    ensures Takeover(o, owner, at).Ok? <==> !o.status.Succeeded? && owner != 0 && o.generatedAt <= at
    ensures Takeover(o, owner, at).Ok? ==>
              var n := Takeover(o, owner, at).value;
              n.owner == owner && n.startedAt == at && n.attempt == o.attempt + 1 && n.results == o.results
    ensures FailOperation(o, reason, at).Ok? <==> o.status.Running? && Trimmed(reason) && o.startedAt <= at
    ensures FailOperation(o, reason, at).Ok? ==>
              var n := FailOperation(o, reason, at).value;
              n.status.Failed? && n.reason == Some(reason) && n.completedAt == Some(at) && n.results == o.results
    ensures SucceedOperation(o, results, at).Ok? <==> o.status.Running? && ResultIds(results) && o.startedAt <= at
    ensures SucceedOperation(o, results, at).Ok? ==>
              var n := SucceedOperation(o, results, at).value;
              n.status.Succeeded? && n.results == results && n.completedAt == Some(at) && n.reason.None?
  {
  }

  // ------------------------------------------------------------------ publication attempts

  datatype AttemptStatus = Started | Completed | Abandoned

  /** `Completed` is the source's succeeded and `Abandoned` its failed. */
  datatype Attempt = Attempt(
    id: Id, operationId: Id, number: int, bundleHash: Digest, startedAt: Time,
    status: AttemptStatus, completedAt: Option<Time>, reason: Option<string>)

  predicate ValidAttempt(a: Attempt) {
    && a.id != 0 && a.operationId != 0 && 1 <= a.number && Sha256(a.bundleHash)
    && (a.completedAt.Some? ==> a.startedAt <= a.completedAt.value)
    && match a.status
       case Started => a.completedAt.None? && a.reason.None?
       case Abandoned => a.completedAt.Some? && a.reason.Some? && Trimmed(a.reason.value)
       case Completed => a.completedAt.Some? && a.reason.None?
  }

  function BuildAttempt(a: Attempt): Result<Attempt, string> {
    if ValidAttempt(a) then Ok(a) else Err("invalid publication attempt")
  }

  function StartAttempt(id: Id, operationId: Id, number: int, bundleHash: Digest, startedAt: Time)
    : Result<Attempt, string>
  {
    BuildAttempt(Attempt(id, operationId, number, bundleHash, startedAt, Started, None, None))
  }

  function AbandonAttempt(a: Attempt, reason: string, failedAt: Time): Result<Attempt, string> {
    if !a.status.Started? then Err("only a started publication attempt can fail")
    else BuildAttempt(a.(status := Abandoned, completedAt := Some(failedAt), reason := Some(reason)))
  }

  function CompleteAttempt(a: Attempt, completedAt: Time): Result<Attempt, string> {
    if !a.status.Started? then Err("only a started publication attempt can succeed")
    else BuildAttempt(a.(status := Completed, completedAt := Some(completedAt), reason := None))
  }

  /** The same for attempts. */
  lemma {:induction false} AttemptTransitionsIff(a: Attempt, at: Time, reason: string)
    requires ValidAttempt(a)
    ensures AbandonAttempt(a, reason, at).Ok? <==> a.status.Started? && Trimmed(reason) && a.startedAt <= at
    ensures CompleteAttempt(a, at).Ok? <==> a.status.Started? && a.startedAt <= at
  {
  }

  // ------------------------------------------------------------------ catalog records

  /** One hash-linked stream of the catalog. */
  datatype StreamKey = StreamKey(environment: string, candidateHash: Digest, experimentId: Id)

  /** What a report is published under. */
  datatype ReportKey = ReportKey(stream: StreamKey, artifactType: string, reportId: string)

  /** Everything a record's content hash covers. */
  datatype Payload = Payload(
    id: Id, report: ReportKey, operationId: Id, attemptId: Id, runId: Id,
    bundleHash: Digest, sizeBytes: nat, mediaType: string, generatedAt: Time, recordedAt: Time,
    deploymentId: string, serviceId: string, sequence: int,
    replica: seq<StoredArtifact>, canonical: seq<StoredArtifact>, previousHash: Digest)

  datatype Record = Record(payload: Payload, contentHash: Digest)

  const ALLOWED_CONTENT_TYPES: set<string> := {
    "application/gzip", "application/json", "application/octet-stream",
    "application/vnd.apache.parquet", "application/x-ndjson", "application/zip",
    "application/zstd", "text/csv", "text/markdown", "text/plain"}

  predicate SegmentStart(c: char) { 'a' <= c <= 'z' || '0' <= c <= '9' }

  predicate SegmentChar(c: char) { SegmentStart(c) || c == '.' || c == '_' || c == '-' }

  predicate IdentitySegment(s: string) {
    && 1 <= |s| <= 128 && SegmentStart(s[0]) && s != "latest"
    && forall i :: 0 <= i < |s| ==> SegmentChar(s[i])
  }

  function TotalSize(items: seq<StoredArtifact>): nat {
    if items == [] then 0 else TotalSize(items[..|items| - 1]) + items[|items| - 1].sizeBytes
  }

  predicate SameContent(a: StoredArtifact, b: StoredArtifact) {
    && a.key == b.key && a.sha256 == b.sha256 && a.sizeBytes == b.sizeBytes
    && a.contentType == b.contentType && a.retention == b.retention
  }

  /** The checks on one replica/canonical pair that do not depend on clocks. */
  predicate Paired(replica: StoredArtifact, canonical: StoredArtifact) {
    canonical.versionId.Some? && replica.storeName != canonical.storeName && SameContent(replica, canonical)
  }

  predicate Timely(replica: StoredArtifact, canonical: StoredArtifact, generatedAt: Time, recordedAt: Time) {
    && generatedAt <= replica.storedAt <= recordedAt && generatedAt <= canonical.storedAt <= recordedAt
    && recordedAt < canonical.retention.retainUntil
  }

  predicate InventoriesAgree(p: Payload) {
    && p.replica != [] && |p.replica| == |p.canonical|
    && (forall i :: 0 <= i < |p.replica| ==> Paired(p.replica[i], p.canonical[i]))
    && TotalSize(p.replica) == p.sizeBytes
  }

  predicate InventoriesTimely(p: Payload) {
    forall i :: 0 <= i < |p.replica| && i < |p.canonical| ==>
                  Timely(p.replica[i], p.canonical[i], p.generatedAt, p.recordedAt)
  }

  predicate IdentityFields(p: Payload) {
    && p.id != 0 && p.operationId != 0 && p.attemptId != 0 && p.report.stream.experimentId != 0 && p.runId != 0
    && p.report.stream.environment in {"qualification", "production"}
    && Sha256(p.report.stream.candidateHash) && IdentitySegment(p.report.reportId)
    && Sha256(p.bundleHash) && p.mediaType in ALLOWED_CONTENT_TYPES && p.generatedAt <= p.recordedAt
    && Trimmed(p.deploymentId) && Trimmed(p.serviceId) && 1 <= p.sequence && Sha256(p.previousHash)
  }

  predicate ValidPayload(p: Payload) { IdentityFields(p) && InventoriesAgree(p) && InventoriesTimely(p) }

  /** The constructor's checks on a whole record, for the content hash function `h`. */
  predicate ValidRecord(h: Payload -> Digest, r: Record) {
    ValidPayload(r.payload) && Sha256(r.contentHash) && r.contentHash == h(r.payload)
  }

  /** The content hash function, and which records the constructor lets through. */
  datatype Rules = Rules(digest: Payload -> Digest, valid: Record -> bool)

  /** The rules are those of the record constructor. */
  ghost predicate Genuine(h: Rules) { forall r :: h.valid(r) <==> ValidRecord(h.digest, r) }

  function CreateRecord(h: Rules, p: Payload): Result<Record, string> {
    var r := Record(p, h.digest(p));
    if h.valid(r) then Ok(r) else Err("invalid artifact record")
  }
}
