/** The hash of an audit row (`alembic/versions/0022_health_audit_events.py`): a digest of the canonical
    text of the row's state, and what an equal tip hash therefore proves about two logs. */
module AuditChain {
  import opened Results
  import opened CanonicalJson
  import opened AuditLog

  /** How the database prints identifiers and timestamps. */
  datatype Printing = Printing(idText: nat -> string, timeText: int -> string)

  function Text(s: Option<string>): Json { if s.Some? then Str(s.value) else Null }

  function IdJson(t: Printing, id: Option<nat>): Json { if id.Some? then Str(t.idText(id.value)) else Null }

  function Decimal(n: nat): string {
    if n < 10 then [HexDigit(n)] else Decimal(n / 10) + [HexDigit(n % 10)]
  }

  /** The members of the document a row's hash is taken over. */
  function StateMembers(t: Printing, e: AuditEvent): map<string, Json> {
    map[
      "actor_reference" := Str(e.actor), "event_code" := Str(e.code), "event_id" := Str(t.idText(e.eventId)),
      "evidence" := e.evidence, "occurred_at" := Str(t.timeText(e.occurredAt)),
      "previous_hash" := Text(e.previousHash), "reason_code" := Text(e.reason),
      "run_id" := IdJson(t, e.runId), "sequence" := Num(Decimal(e.sequence)),
      "service_boot_id" := IdJson(t, e.bootId), "session_reference" := Text(e.session),
      "source_role" := Str(e.role)]
  }

  function EventHash(digest: string -> Digest, t: Printing): AuditEvent -> Digest {
    e => digest(Render(Obj(StateMembers(t, e))))
  }

  ghost predicate Injective(digest: string -> Digest) {
    forall a, b :: digest(a) == digest(b) ==> a == b
  }

  ghost predicate Faithful(t: Printing) {
    && (forall a, b :: t.idText(a) == t.idText(b) ==> a == b)
    && (forall a, b :: t.timeText(a) == t.timeText(b) ==> a == b)
  }

  lemma {:induction false} DigitIsNumber(n: nat)
    requires n < 10
    ensures NumChar(HexDigit(n))
  {
  }

  lemma {:induction false} NumSnoc(s: string, c: char)
    requires NumText(s) && NumChar(c)
    ensures NumText(s + [c])
  {
  }

  lemma {:induction false} DecimalShape(n: nat)
    ensures NumText(Decimal(n))
  {
    if n < 10 {
      DigitIsNumber(n);
    } else {
      DigitIsNumber(n % 10);
      DecimalShape(n / 10);
      NumSnoc(Decimal(n / 10), HexDigit(n % 10));
    }
  }

  /** A printed number reads as itself. */
  lemma {:induction false} DecimalReads(n: nat)
    ensures Digits(Decimal(n)) == n
  {
    if n < 10 {
      DigitsSnoc("", HexDigit(n));
      assert "" + [HexDigit(n)] == [HexDigit(n)];
    } else {
      DecimalReads(n / 10);
      DigitsSnoc(Decimal(n / 10), HexDigit(n % 10));
    }
  }

  lemma {:induction false} DecimalInjective(m: nat, n: nat)
    requires Decimal(m) == Decimal(n)
    ensures m == n
  {
    DecimalReads(m);
    DecimalReads(n);
  }

  lemma {:induction false} StateValid(t: Printing, e: AuditEvent)
    requires Valid(e.evidence)
    ensures Valid(Obj(StateMembers(t, e)))
  {
    DecimalShape(e.sequence);
    var m := StateMembers(t, e);
    forall k | k in m ensures Valid(m[k]) {
      if k == "evidence" {
        assert m[k] == e.evidence;
      } else if k == "sequence" {
        assert m[k] == Num(Decimal(e.sequence));
      } else {
        assert m[k].Str? || m[k].Null?;
      }
    }
  }

  lemma {:induction false} TextInjective(a: Option<string>, b: Option<string>)
    requires Text(a) == Text(b)
    ensures a == b
  {
  }

  lemma {:induction false} IdInjective(t: Printing, a: Option<nat>, b: Option<nat>)
    requires Faithful(t) && IdJson(t, a) == IdJson(t, b)
    ensures a == b
  {
  }

  /** The state document determines the row. */
  lemma {:induction false} StateInjective(t: Printing, e: AuditEvent, f: AuditEvent)
    requires Faithful(t) && StateMembers(t, e) == StateMembers(t, f) && e.contentHash == f.contentHash
    ensures e == f
  {
    var m, n := StateMembers(t, e), StateMembers(t, f);
    assert m["actor_reference"] == n["actor_reference"] && m["event_code"] == n["event_code"];
    assert m["event_id"] == n["event_id"] && m["evidence"] == n["evidence"];
    assert m["occurred_at"] == n["occurred_at"] && m["source_role"] == n["source_role"];
    assert m["sequence"] == n["sequence"];
    assert m["previous_hash"] == n["previous_hash"] && m["reason_code"] == n["reason_code"];
    assert m["run_id"] == n["run_id"] && m["service_boot_id"] == n["service_boot_id"];
    assert m["session_reference"] == n["session_reference"];
    DecimalInjective(e.sequence, f.sequence);
    TextInjective(e.previousHash, f.previousHash);
    TextInjective(e.reason, f.reason);
    TextInjective(e.session, f.session);
    IdInjective(t, e.runId, f.runId);
    IdInjective(t, e.bootId, f.bootId);
  }

  /** With a collision-free digest, rows with equal hashes are equal. */
  lemma {:induction false} EventHashInjective(digest: string -> Digest, t: Printing, e: AuditEvent, f: AuditEvent)
    requires Injective(digest) && Faithful(t) && Valid(e.evidence) && Valid(f.evidence)
    requires e.contentHash == f.contentHash && EventHash(digest, t)(e) == EventHash(digest, t)(f)
    ensures e == f
  {
    StateValid(t, e);
    StateValid(t, f);
    CanonicalInjective(Obj(StateMembers(t, e)), Obj(StateMembers(t, f)));
    StateInjective(t, e, f);
  }

  ghost predicate ValidEvidence(log: seq<AuditEvent>) {
    forall i :: 0 <= i < |log| ==> Valid(log[i].evidence)
  }

  lemma {:induction false} SameRow(digest: string -> Digest, t: Printing, p: Platform, e: AuditEvent, f: AuditEvent)
    requires Injective(digest) && Faithful(t) && p.hash == EventHash(digest, t)
    requires Valid(e.evidence) && Valid(f.evidence) && e.contentHash == f.contentHash
    requires e.contentHash == p.hash(e.(contentHash := "")) && f.contentHash == p.hash(f.(contentHash := ""))
    ensures e == f
  {
    EventHashInjective(digest, t, e.(contentHash := ""), f.(contentHash := ""));
    assert e == e.(contentHash := "").(contentHash := e.contentHash);
    assert f == f.(contentHash := "").(contentHash := f.contentHash);
  }

  /** In these logs a hash belongs to one row only. */
  ghost predicate HashesName(a: seq<AuditEvent>, b: seq<AuditEvent>) {
    forall i, j :: 0 <= i < |a| && 0 <= j < |b| && a[i].contentHash == b[j].contentHash ==> a[i] == b[j]
  }

  lemma {:induction false} RowsNamed(
      digest: string -> Digest, t: Printing, p: Platform, a: seq<AuditEvent>, b: seq<AuditEvent>)
    requires Injective(digest) && Faithful(t) && p.hash == EventHash(digest, t)
    requires Hashed(p, a) && Hashed(p, b) && ValidEvidence(a) && ValidEvidence(b)
    ensures HashesName(a, b)
  {
    forall i, j | 0 <= i < |a| && 0 <= j < |b| && a[i].contentHash == b[j].contentHash ensures a[i] == b[j] {
      SameRow(digest, t, p, a[i], b[j]);
    }
  }

  lemma {:induction false} SameUpTo(a: seq<AuditEvent>, b: seq<AuditEvent>, n: nat)
    requires HashesName(a, b) && Linked(a) && Linked(b)
    requires n < |a| && n < |b| && a[n].contentHash == b[n].contentHash
    ensures a[..n + 1] == b[..n + 1]
  {
    if 0 < n {
      assert LinkAt(a, n) && LinkAt(b, n);
      SameUpTo(a, b, n - 1);
    }
    assert a[..n + 1] == a[..n] + [a[n]] && b[..n + 1] == b[..n] + [b[n]];
  }

  /** Two logs with the same tip hash are the same log. */
  lemma {:induction false} TipDeterminesLog(
      digest: string -> Digest, t: Printing, p: Platform, a: seq<AuditEvent>, b: seq<AuditEvent>)
    requires Injective(digest) && Faithful(t) && p.hash == EventHash(digest, t)
    requires Chain(p, a) && Chain(p, b) && ValidEvidence(a) && ValidEvidence(b)
    requires TipHash(a) == TipHash(b)
    ensures a == b
  {
    RowsNamed(digest, t, p, a, b);
    SameTip(a, b);
  }

  lemma {:induction false} SameTip(a: seq<AuditEvent>, b: seq<AuditEvent>)
    requires HashesName(a, b) && Linked(a) && Linked(b) && Dense(a) && Dense(b) && TipHash(a) == TipHash(b)
    ensures a == b
  {
    if a != [] {
      assert a[|a| - 1] == b[|b| - 1];
      SameUpTo(a, b, |a| - 1);
      assert a[..|a|] == a && b[..|b|] == b;
    }
  }

  // ------------------------------------------------------------------ what the hash is taken over

  const DOCUMENT_KEYS: set<string> := {
    "actor_reference", "event_code", "event_id", "evidence", "occurred_at", "previous_hash", "reason_code",
    "run_id", "sequence", "service_boot_id", "session_reference", "source_role"}

  /** The document has exactly the keys it should have. */
  predicate Complete(doc: map<string, Json>) { doc.Keys == DOCUMENT_KEYS }

  /** The document says who recorded what, and when. */
  predicate SaysWhat(t: Printing, e: AuditEvent, doc: map<string, Json>)
    requires Complete(doc)
  {
    && doc["event_id"] == Str(t.idText(e.eventId)) && doc["source_role"] == Str(e.role)
    && doc["actor_reference"] == Str(e.actor) && doc["event_code"] == Str(e.code) && doc["evidence"] == e.evidence
    && doc["occurred_at"] == Str(t.timeText(e.occurredAt))
  }

  /** The document says why, and in which session, run and boot, with nulls where the row has none. */
  predicate SaysWhere(t: Printing, e: AuditEvent, doc: map<string, Json>)
    requires Complete(doc)
  {
    && doc["session_reference"] == (match e.session case Some(s) => Str(s) case None => Null)
    && doc["reason_code"] == (match e.reason case Some(s) => Str(s) case None => Null)
    && doc["run_id"] == (match e.runId case Some(id) => Str(t.idText(id)) case None => Null)
    && doc["service_boot_id"] == (match e.bootId case Some(id) => Str(t.idText(id)) case None => Null)
  }

  /** The document gives the row's place: its number, and the hash of the row before it. */
  predicate SaysPlace(sequence: nat, previous: Option<Digest>, doc: map<string, Json>)
    requires Complete(doc)
  {
    && doc["sequence"] == Num(Decimal(sequence))
    && doc["previous_hash"] == (match previous case Some(hash) => Str(hash) case None => Null)
  }

  lemma {:induction false} StateComplete(t: Printing, e: AuditEvent)
    ensures Complete(StateMembers(t, e))
  {
  }

  lemma {:induction false} StateSaysWhat(t: Printing, e: AuditEvent)
    requires Complete(StateMembers(t, e))
    ensures SaysWhat(t, e, StateMembers(t, e))
  {
  }

  lemma {:induction false} StateSaysWhere(t: Printing, e: AuditEvent)
    requires Complete(StateMembers(t, e))
    ensures SaysWhere(t, e, StateMembers(t, e))
  {
  }

  lemma {:induction false} StateSaysPlace(t: Printing, e: AuditEvent)
    requires Complete(StateMembers(t, e))
    ensures SaysPlace(e.sequence, e.previousHash, StateMembers(t, e))
  {
  }

  /** The document says everything about row `i` of the log. */
  predicate Documents(t: Printing, log: seq<AuditEvent>, i: nat, doc: map<string, Json>)
    requires i < |log|
  {
    && Complete(doc) && SaysWhat(t, log[i], doc) && SaysWhere(t, log[i], doc)
    && SaysPlace(i + 1, if i == 0 then None else Some(log[i - 1].contentHash), doc)
  }

  /** In every run, the hash of every row is the digest of the canonical text of the document that says everything
      about it. */
  lemma {:induction false} HashesDocument(
      digest: string -> Digest, t: Printing, p: Platform, logs: seq<seq<AuditEvent>>, qs: seq<Request>,
      rs: seq<Result<nat, Refusal>>, n: nat, i: nat)
    requires p.hash == EventHash(digest, t) && Run(p, logs, qs, rs) && n <= |qs| && i < |logs[n]|
    ensures exists doc: map<string, Json> ::
              Documents(t, logs[n], i, doc) && logs[n][i].contentHash == digest(Render(Obj(doc)))
  {
    LogIsFirsts(p, logs, qs, rs, n);
    RowHashes(digest, t, p, logs[n], i);
  }

  lemma {:induction false} RowHashes(
      digest: string -> Digest, t: Printing, p: Platform, log: seq<AuditEvent>, i: nat)
    requires p.hash == EventHash(digest, t) && Chain(p, log) && i < |log|
    ensures exists doc: map<string, Json> ::
              Documents(t, log, i, doc) && log[i].contentHash == digest(Render(Obj(doc)))
  {
    assert LinkAt(log, i);
    var bare := log[i].(contentHash := "");
    StateComplete(t, bare);
    StateSaysWhat(t, bare);
    StateSaysWhere(t, bare);
    StateSaysPlace(t, bare);
    RowDocuments(t, log, i, bare, StateMembers(t, bare));
  }

  lemma {:induction false} RowDocuments(
      t: Printing, log: seq<AuditEvent>, i: nat, e: AuditEvent, doc: map<string, Json>)
    requires i < |log| && e == log[i].(contentHash := "") && e.sequence == i + 1 && LinkAt(log, i)
    requires Complete(doc) && SaysWhat(t, e, doc) && SaysWhere(t, e, doc)
    requires SaysPlace(e.sequence, e.previousHash, doc)
    ensures Documents(t, log, i, doc)
  {
  }
}
