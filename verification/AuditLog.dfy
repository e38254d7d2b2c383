/** The append gateway of the audit log (`alembic/versions/0022_health_audit_events.py`).  Any argument
    may be null, and a comparison with null is neither true nor false: the gateway's checks raise only on
    what is true. */
module AuditLog {
  import opened Results
  import opened CanonicalJson

  datatype Refusal =
    | NotAuthorised | CodeNotApproved | InvalidArguments | IdentityChanged | NullViolation | ValueTooLong
    | UnknownReference

  type Digest = string

  /** What the gateway takes from the database: the hash of a row, the stored size of a document, and
      which keys evidence must not use. */
  datatype Platform = Platform(hash: AuditEvent -> Digest, size: Json -> nat, forbidden: string -> bool)

  /** One call, with the database user that makes it; `known` says whether the run and the boot it refers
      to exist. */
  datatype Request = Request(
    user: string, eventId: Option<nat>, actor: Option<string>, session: Option<string>, code: Option<string>,
    reason: Option<string>, evidence: Option<Json>, runId: Option<nat>, bootId: Option<nat>,
    occurredAt: Option<int>, known: bool)

  datatype AuditEvent = AuditEvent(
    sequence: nat, eventId: nat, previousHash: Option<Digest>, role: string, actor: string,
    session: Option<string>, code: string, reason: Option<string>, evidence: Json,
    runId: Option<nat>, bootId: Option<nat>, occurredAt: int, contentHash: Digest)

  // ------------------------------------------------------------------ argument checks

  function RoleOf(user: string): Option<string> {
    match user
    case "maais_migrator" => Some("migrator")
    case "maais_web" => Some("web")
    case "maais_worker" => Some("worker")
    case "maais_ops" => Some("operations")
    case "maais_verifier" => Some("verifier")
    case _ => None
  }

  const LIFECYCLE: set<string> := {"service.booted", "service.stopped"}

  function Approved(role: string): set<string> {
    match role
    case "web" => LIFECYCLE + {
      "auth.csrf.rejected", "auth.login.locked", "auth.login.rejected", "auth.login.succeeded", "auth.logout",
      "auth.session.expired", "auth.session.revoked", "operator.command.enqueued"}
    case "worker" => LIFECYCLE + {
      "operator.command.accepted", "operator.command.completed", "operator.command.rejected",
      "run.completed", "run.invalidated", "run.started"}
    case "operations" => LIFECYCLE + {
      "artifact.publication_failed", "artifact.published", "backup.failed", "backup.succeeded",
      "daily_close.failed", "daily_close.succeeded", "health.evaluated", "readiness.verdict",
      "restore.failed", "restore.succeeded"}
    case "migrator" => LIFECYCLE + {"migration.completed", "migration.started"}
    case _ => LIFECYCLE
  }

  predicate Letter(c: char) { 'a' <= c <= 'z' }

  predicate NameChar(c: char) { Letter(c) || '0' <= c <= '9' || c == '_' }

  predicate Hex32(s: string) {
    |s| == 32 && forall i :: 0 <= i < |s| ==> '0' <= s[i] <= '9' || 'a' <= s[i] <= 'f'
  }

  predicate ActorReference(s: string) {
    && 35 <= |s| <= 65 && s[|s| - 33] == ':' && Letter(s[0]) && Hex32(s[|s| - 32..])
    && forall i :: 0 <= i < |s| - 33 ==> NameChar(s[i])
  }

  predicate SessionReference(s: string) { |s| == 40 && s[..8] == "session:" && Hex32(s[8..]) }

  /** A character of a name, or a dot before the letter that begins the next one. */
  predicate DottedAt(s: string, i: nat)
    requires i < |s|
  {
    NameChar(s[i]) || (s[i] == '.' && i + 1 < |s| && Letter(s[i + 1]))
  }

  /** Names of letters, digits and underscores, each beginning with a letter, joined by dots. */
  predicate Dotted(s: string) { s != "" && Letter(s[0]) && forall i :: 0 <= i < |s| ==> DottedAt(s, i) }

  predicate EventCode(s: string) { Dotted(s) && '.' in s }

  predicate Safe(forbidden: string -> bool, v: Json) {
    match v
    case Obj(members) => forall k :: k in members ==> !forbidden(k) && Safe(forbidden, members[k])
    case Arr(items) => forall i :: 0 <= i < |items| ==> Safe(forbidden, items[i])
    case _ => true
  }

  predicate ValidArguments(p: Platform, q: Request) {
    && q.eventId.Some? && q.eventId.value != 0
    && (q.actor.Some? ==> ActorReference(q.actor.value))
    && (q.session.Some? ==> SessionReference(q.session.value))
    && (q.code.Some? ==> EventCode(q.code.value))
    && (q.reason.Some? ==> Dotted(q.reason.value))
    && q.evidence.Some? && q.evidence.value.Obj? && p.size(q.evidence.value) <= 65536
    && Safe(p.forbidden, q.evidence.value) && q.occurredAt.Some?
  }

  predicate ApprovedCall(q: Request) {
    RoleOf(q.user).Some? && (q.code.Some? ==> q.code.value in Approved(RoleOf(q.user).value))
  }

  /** The call passes the gateway's checks on its arguments. */
  predicate Admissible(p: Platform, q: Request) { ApprovedCall(q) && ValidArguments(p, q) }

  /** The texts fit their columns; the other columns are wide enough for every admissible text. */
  predicate Fits(q: Request) {
    && (q.actor.Some? ==> |q.actor.value| <= 64) && (q.code.Some? ==> |q.code.value| <= 128)
    && (q.reason.Some? ==> |q.reason.value| <= 128)
  }

  /** The call can become a row: nothing the table needs is null, every text fits its column and what the
      call refers to exists. */
  predicate Appendable(p: Platform, q: Request) {
    Admissible(p, q) && q.actor.Some? && q.code.Some? && Fits(q) && q.known
  }

  // ------------------------------------------------------------------ rows

  function TipHash(log: seq<AuditEvent>): Option<Digest> {
    if log == [] then None else Some(log[|log| - 1].contentHash)
  }

  /** The row an appendable call adds to the log. */
  function RowFor(p: Platform, log: seq<AuditEvent>, q: Request): AuditEvent
    requires Appendable(p, q)
  {
    var bare := AuditEvent(|log| + 1, q.eventId.value, TipHash(log), RoleOf(q.user).value, q.actor.value,
                           q.session, q.code.value, q.reason, q.evidence.value, q.runId, q.bootId,
                           q.occurredAt.value, "");
    bare.(contentHash := p.hash(bare))
  }

  /** The recorded event is what the call says, as far as SQL can tell: a null actor or code differs from
      nothing, and evidence is compared by value. */
  predicate Repeats(e: AuditEvent, q: Request) {
    && Some(e.role) == RoleOf(q.user) && e.session == q.session && e.reason == q.reason
    && q.evidence.Some? && SameValue(e.evidence, q.evidence.value)
    && e.runId == q.runId && e.bootId == q.bootId && Some(e.occurredAt) == q.occurredAt
    && (q.actor.Some? ==> e.actor == q.actor.value) && (q.code.Some? ==> e.code == q.code.value)
  }

  /** Really the same event. */
  predicate Identical(e: AuditEvent, q: Request) {
    && Some(e.role) == RoleOf(q.user) && e.session == q.session && e.reason == q.reason
    && Some(e.evidence) == q.evidence && e.runId == q.runId && e.bootId == q.bootId
    && Some(e.occurredAt) == q.occurredAt && q.actor == Some(e.actor) && q.code == Some(e.code)
  }

  /** Nothing in the call escapes the comparison: actor and code are named, and numbers of equal value are
      printed as the recorded event prints them. */
  predicate Comparable(e: AuditEvent, q: Request) {
    q.actor.Some? && q.code.Some? && (q.evidence.Some? ==> PrintedAlike(e.evidence, q.evidence.value))
  }

  predicate Holds(log: seq<AuditEvent>, id: nat) { exists i :: 0 <= i < |log| && log[i].eventId == id }

  /** What one call may answer, and the log after it. */
  ghost predicate Appends(
      p: Platform, log: seq<AuditEvent>, q: Request, r: Result<nat, Refusal>, log': seq<AuditEvent>)
  {
    if !Admissible(p, q) then r.Err? && log' == log
    else if Holds(log, q.eventId.value) then
      && log' == log
      && exists i :: 0 <= i < |log| && log[i].eventId == q.eventId.value
           && r == if Repeats(log[i], q) then Ok(log[i].sequence) else Err(IdentityChanged)
    else if !Appendable(p, q) then r.Err? && log' == log
    else log' == log + [RowFor(p, log, q)] && r == Ok(|log| + 1)
  }

  method FindEvent(log: seq<AuditEvent>, id: nat) returns (n: nat)
    ensures n <= |log| && (n < |log| ==> log[n].eventId == id)
    ensures n == |log| <==> !Holds(log, id)
  {
    n := 0;
    while n < |log| && log[n].eventId != id
      invariant 0 <= n <= |log| && forall i :: 0 <= i < n ==> log[i].eventId != id
    {
      n := n + 1;
    }
  }

  /** The table, changed only through the gateway: updates and deletes raise. */
  class AuditTable {
    var log: seq<AuditEvent>

    constructor ()
      ensures log == []
    {
      log := [];
    }

    method Append(p: Platform, q: Request) returns (r: Result<nat, Refusal>)
      requires Dense(log)
      modifies this
      ensures Appends(p, old(log), q, r, log)
      ensures old(log) <= log && Dense(log)
    {
      var role := RoleOf(q.user);
      if role.None? { return Err(NotAuthorised); }
      if q.code.Some? && q.code.value !in Approved(role.value) { return Err(CodeNotApproved); }
      if !ValidArguments(p, q) { return Err(InvalidArguments); }
      var n := FindEvent(log, q.eventId.value);
      if n < |log| {
        if !Repeats(log[n], q) { return Err(IdentityChanged); }
        return Ok(log[n].sequence);
      }
      if q.actor.None? || q.code.None? { return Err(NullViolation); }
      if !Fits(q) { return Err(ValueTooLong); }
      if !q.known { return Err(UnknownReference); }
      var next := if log == [] then 1 else log[|log| - 1].sequence + 1;
      var row := AuditEvent(next, q.eventId.value, TipHash(log), role.value, q.actor.value, q.session, q.code.value,
                            q.reason, q.evidence.value, q.runId, q.bootId, q.occurredAt.value, "");
      log := log + [row.(contentHash := p.hash(row))];
      return Ok(next);
    }
  }

  /** Sequences are exactly 1..n. */
  ghost predicate Dense(log: seq<AuditEvent>) {
    forall i :: 0 <= i < |log| ==> log[i].sequence == i + 1
  }

  ghost predicate Linked(log: seq<AuditEvent>) {
    forall i :: 0 <= i < |log| ==> LinkAt(log, i)
  }

  predicate LinkAt(log: seq<AuditEvent>, i: nat)
    requires i < |log|
  {
    log[i].previousHash == if i == 0 then None else Some(log[i - 1].contentHash)
  }

  ghost predicate Hashed(p: Platform, log: seq<AuditEvent>) {
    forall i :: 0 <= i < |log| ==> log[i].contentHash == p.hash(log[i].(contentHash := ""))
  }

  // ------------------------------------------------------------------ every run of calls

  function AppendableBy(p: Platform): Request -> bool { q => Appendable(p, q) }

  /** The calls that are the first with their event ID to be `ok`. */
  function Firsts(ok: Request -> bool, qs: seq<Request>): seq<Request> {
    if qs == [] then []
    else
      var before, q := Firsts(ok, qs[..|qs| - 1]), qs[|qs| - 1];
      if ok(q) && forall i :: 0 <= i < |before| ==> before[i].eventId != q.eventId
      then before + [q] else before
  }

  ghost predicate Run(p: Platform, logs: seq<seq<AuditEvent>>, qs: seq<Request>, rs: seq<Result<nat, Refusal>>) {
    && |logs| == |qs| + 1 && |rs| == |qs| && logs[0] == []
    && forall i :: 0 <= i < |qs| ==> Appends(p, logs[i], qs[i], rs[i], logs[i + 1])
  }

  ghost predicate Chain(p: Platform, log: seq<AuditEvent>) { Dense(log) && Linked(log) && Hashed(p, log) }

  /** The log records exactly these calls. */
  ghost predicate Records(log: seq<AuditEvent>, qs: seq<Request>) {
    && |log| == |qs|
    && forall i :: 0 <= i < |qs| ==> qs[i].eventId == Some(log[i].eventId) && Identical(log[i], qs[i])
  }

  lemma {:induction false} RowShape(p: Platform, log: seq<AuditEvent>, q: Request)
    requires Appendable(p, q)
    ensures var e := RowFor(p, log, q);
            && e.sequence == |log| + 1 && e.previousHash == TipHash(log)
            && e.contentHash == p.hash(e.(contentHash := ""))
            && q.eventId == Some(e.eventId) && Identical(e, q)
  {
  }

  lemma {:induction false} ChainSnoc(p: Platform, log: seq<AuditEvent>, e: AuditEvent)
    requires Chain(p, log) && e.sequence == |log| + 1 && e.previousHash == TipHash(log)
    requires e.contentHash == p.hash(e.(contentHash := ""))
    ensures Chain(p, log + [e])
  {
    var longer := log + [e];
    forall i | 0 <= i < |longer| ensures LinkAt(longer, i) {
      assert i < |log| ==> LinkAt(log, i);
    }
  }

  lemma {:induction false} RecordsSnoc(log: seq<AuditEvent>, qs: seq<Request>, e: AuditEvent, q: Request)
    requires Records(log, qs) && q.eventId == Some(e.eventId) && Identical(e, q)
    ensures Records(log + [e], qs + [q])
  {
  }

  /** A log holds an event ID exactly when one of its calls carries it. */
  lemma {:induction false} HoldsIff(log: seq<AuditEvent>, qs: seq<Request>, id: nat)
    requires Records(log, qs)
    ensures Holds(log, id) <==> exists i :: 0 <= i < |qs| && qs[i].eventId == Some(id)
  {
    if Holds(log, id) {
      var i :| 0 <= i < |log| && log[i].eventId == id;
      assert qs[i].eventId == Some(id);
    }
    if exists i :: 0 <= i < |qs| && qs[i].eventId == Some(id) {
      var i :| 0 <= i < |qs| && qs[i].eventId == Some(id);
      assert log[i].eventId == id;
    }
  }

  /** One call takes a log of first calls to the log of first calls. */
  lemma {:induction false} StepRefines(
      p: Platform, log: seq<AuditEvent>, qs: seq<Request>, q: Request, r: Result<nat, Refusal>, log': seq<AuditEvent>)
    requires Chain(p, log) && Records(log, Firsts(AppendableBy(p), qs)) && Appends(p, log, q, r, log')
    ensures Chain(p, log') && Records(log', Firsts(AppendableBy(p), qs + [q])) && log <= log'
  {
    var firsts := Firsts(AppendableBy(p), qs);
    assert (qs + [q])[..|qs|] == qs;
    if Admissible(p, q) { HoldsIff(log, firsts, q.eventId.value); }
    if Appendable(p, q) && !Holds(log, q.eventId.value) {
      RowShape(p, log, q);
      ChainSnoc(p, log, RowFor(p, log, q));
      RecordsSnoc(log, firsts, RowFor(p, log, q), q);
    }
  }

  /** After any run of calls the log is the first appendable call of each event ID, in order, in rows
      numbered from 1, each carrying the hash of the one before it and its own. */
  lemma {:induction false} LogIsFirsts(
      p: Platform, logs: seq<seq<AuditEvent>>, qs: seq<Request>, rs: seq<Result<nat, Refusal>>, n: nat)
    requires Run(p, logs, qs, rs) && n <= |qs|
    ensures Chain(p, logs[n]) && Records(logs[n], Firsts(AppendableBy(p), qs[..n]))
  {
    if 0 < n {
      LogIsFirsts(p, logs, qs, rs, n - 1);
      assert qs[..n] == qs[..n - 1] + [qs[n - 1]];
      StepRefines(p, logs[n - 1], qs[..n - 1], qs[n - 1], rs[n - 1], logs[n]);
    }
  }

  /** Between two moments of a run the log only grows at its end. */
  lemma {:induction false} LogGrows(
      p: Platform, logs: seq<seq<AuditEvent>>, qs: seq<Request>, rs: seq<Result<nat, Refusal>>, m: nat, n: nat)
    requires Run(p, logs, qs, rs) && m <= n <= |qs|
    ensures logs[m] <= logs[n]
    decreases n
  {
    if m < n {
      LogGrows(p, logs, qs, rs, m, n - 1);
      assert Appends(p, logs[n - 1], qs[n - 1], rs[n - 1], logs[n]);
    }
  }

  predicate IsFirst(ok: Request -> bool, qs: seq<Request>, i: nat)
    requires i < |qs|
  {
    ok(qs[i]) && forall j :: 0 <= j < i && qs[j].eventId == qs[i].eventId ==> !ok(qs[j])
  }

  lemma {:induction false} FirstsCover(ok: Request -> bool, qs: seq<Request>, id: Option<nat>)
    ensures (exists i :: 0 <= i < |Firsts(ok, qs)| && Firsts(ok, qs)[i].eventId == id) <==>
            exists i :: 0 <= i < |qs| && ok(qs[i]) && qs[i].eventId == id
  {
    if qs != [] {
      var n := |qs| - 1;
      FirstsCover(ok, qs[..n], id);
      FirstsCover(ok, qs[..n], qs[n].eventId);
      var before, all := Firsts(ok, qs[..n]), Firsts(ok, qs);
      assert forall i :: 0 <= i < n ==> qs[..n][i] == qs[i];
      assert forall i :: 0 <= i < |before| ==> all[i] == before[i];
      if ok(qs[n]) && all != before { assert all[|before|] == qs[n]; }
    }
  }

  lemma {:induction false} FirstsStep(ok: Request -> bool, qs: seq<Request>, n: nat)
    requires |qs| == n + 1
    ensures Firsts(ok, qs) == Firsts(ok, qs[..n]) + if IsFirst(ok, qs, n) then [qs[n]] else []
  {
    FirstsCover(ok, qs[..n], qs[n].eventId);
    assert forall i :: 0 <= i < n ==> qs[..n][i] == qs[i];
  }

  lemma {:induction false} FirstBefore(ok: Request -> bool, qs: seq<Request>, n: nat, i: nat)
    requires i < n <= |qs|
    ensures IsFirst(ok, qs[..n], i) <==> IsFirst(ok, qs, i)
  {
    assert forall j :: 0 <= j < n ==> qs[..n][j] == qs[j];
  }

  /** What `Firsts` picks: the calls that are appendable and have no appendable one with their event ID
      before them. */
  lemma {:induction false} FirstsExact(ok: Request -> bool, qs: seq<Request>, q: Request)
    ensures q in Firsts(ok, qs) <==> exists i :: 0 <= i < |qs| && qs[i] == q && IsFirst(ok, qs, i)
  {
    if qs != [] {
      var n := |qs| - 1;
      FirstsExact(ok, qs[..n], q);
      FirstsStep(ok, qs, n);
      if q in Firsts(ok, qs[..n]) {
        var i :| 0 <= i < n && qs[..n][i] == q && IsFirst(ok, qs[..n], i);
        FirstBefore(ok, qs, n, i);
        assert qs[i] == q;
      }
      if exists i :: 0 <= i < n && qs[i] == q && IsFirst(ok, qs, i) {
        var i :| 0 <= i < n && qs[i] == q && IsFirst(ok, qs, i);
        FirstBefore(ok, qs, n, i);
        assert qs[..n][i] == q;
      }
    }
  }

  // ------------------------------------------------------------------ who recorded what

  /** The database user speaks for the role. */
  predicate SpeaksFor(user: string, role: string) {
    || (user == "maais_migrator" && role == "migrator") || (user == "maais_web" && role == "web")
    || (user == "maais_worker" && role == "worker") || (user == "maais_ops" && role == "operations")
    || (user == "maais_verifier" && role == "verifier")
  }

  /** The users who may record an event, by what it is about: services announce themselves, the web front end
      signs people in and takes their commands, the worker carries commands out and runs experiments, the
      migrator migrates, and everything else is operations. */
  function Authors(code: string): set<string> {
    if "service." <= code then {"maais_migrator", "maais_web", "maais_worker", "maais_ops", "maais_verifier"}
    else if "auth." <= code || code == "operator.command.enqueued" then {"maais_web"}
    else if "operator." <= code || "run." <= code then {"maais_worker"}
    else if "migration." <= code then {"maais_migrator"}
    else {"maais_ops"}
  }

  lemma {:induction false} RoleIff(user: string, role: string)
    ensures RoleOf(user) == Some(role) <==> SpeaksFor(user, role)
  {
  }

  lemma {:induction false} WebCodes(code: string)
    requires code in Approved("web")
    ensures "maais_web" in Authors(code)
  {
    Families(code);
  }

  lemma {:induction false} WorkerBegins(code: string)
    requires code in Approved("worker")
    ensures "service." <= code || "run." <= code || ("operator." <= code && code[17] != 'e')
  {
  }

  lemma {:induction false} WorkerCodes(code: string)
    requires code in Approved("worker")
    ensures "maais_worker" in Authors(code)
  {
    WorkerBegins(code);
    Families(code);
    assert "operator.command.enqueued"[17] == 'e' && "operator.command.enqueued"[0] == 'o';
  }

  lemma {:induction false} OperationsBegin(code: string)
    requires code in Approved("operations")
    ensures code in LIFECYCLE || (2 <= |code| && code[0] !in {'s', 'o', 'm'} && code[1] != 'u')
  {
  }

  lemma {:induction false} OperationsCodes(code: string)
    requires code in Approved("operations")
    ensures "maais_ops" in Authors(code)
  {
    OperationsBegin(code);
    Families(code);
    assert code in LIFECYCLE ==> "service." <= code;
    assert "operator.command.enqueued"[0] == 'o';
  }

  lemma {:induction false} MigratorCodes(code: string)
    requires code in Approved("migrator")
    ensures "maais_migrator" in Authors(code)
  {
    Families(code);
  }

  /** The families of codes begin differently. */
  lemma {:induction false} Families(code: string)
    ensures "service." <= code ==> code[0] == 's'
    ensures "auth." <= code ==> code[0] == 'a' && code[1] == 'u'
    ensures "operator." <= code ==> code[0] == 'o'
    ensures "run." <= code ==> code[0] == 'r' && code[1] == 'u'
    ensures "migration." <= code ==> code[0] == 'm'
  {
  }

  lemma {:induction false} ApprovedAuthor(q: Request, role: string)
    requires RoleOf(q.user) == Some(role) && q.code.Some? && q.code.value in Approved(role)
    ensures q.user in Authors(q.code.value)
  {
    RoleIff(q.user, role);
    if role == "web" { WebCodes(q.code.value); }
    if role == "worker" { WorkerCodes(q.code.value); }
    if role == "operations" { OperationsCodes(q.code.value); }
    if role == "migrator" { MigratorCodes(q.code.value); }
  }

  /** Over every run, a row was recorded by an earlier call that says the same, made by the user who speaks for the
      row's role and may record its kind of event. */
  lemma {:induction false} WhoRecordedWhat(
      p: Platform, logs: seq<seq<AuditEvent>>, qs: seq<Request>, rs: seq<Result<nat, Refusal>>, n: nat, i: nat)
    requires Run(p, logs, qs, rs) && n <= |qs| && i < |logs[n]|
    ensures exists j :: 0 <= j < n && qs[j].eventId == Some(logs[n][i].eventId) && Identical(logs[n][i], qs[j])
                        && SpeaksFor(qs[j].user, logs[n][i].role) && qs[j].user in Authors(logs[n][i].code)
  {
    LogIsFirsts(p, logs, qs, rs, n);
    var firsts, e := Firsts(AppendableBy(p), qs[..n]), logs[n][i];
    var q := firsts[i];
    FirstsExact(AppendableBy(p), qs[..n], q);
    assert q in firsts;
    var j :| 0 <= j < n && qs[..n][j] == q && IsFirst(AppendableBy(p), qs[..n], j);
    RoleIff(q.user, e.role);
    ApprovedAuthor(q, e.role);
    assert qs[j] == q;
  }

  // ------------------------------------------------------------------ replays

  /** A call with a recorded event ID changes nothing; it is answered with the original sequence exactly
      when no comparison with the recorded event is true. */
  lemma {:induction false} ReplayIff(
      p: Platform, log: seq<AuditEvent>, qs: seq<Request>, q: Request, r: Result<nat, Refusal>, log': seq<AuditEvent>,
      i: nat)
    requires Chain(p, log) && Records(log, qs) && DistinctIds(qs) && i < |log| && Admissible(p, q)
    requires q.eventId == Some(log[i].eventId) && Appends(p, log, q, r, log')
    ensures log' == log && r == if Repeats(log[i], q) then Ok(i + 1) else Err(IdentityChanged)
  {
    assert Holds(log, q.eventId.value);
    var j :| 0 <= j < |log| && log[j].eventId == q.eventId.value
      && r == if Repeats(log[j], q) then Ok(log[j].sequence) else Err(IdentityChanged);
    OneRow(log, qs, i, j);
  }

  /** An event ID names one row. */
  lemma {:induction false} OneRow(log: seq<AuditEvent>, qs: seq<Request>, i: nat, j: nat)
    requires Records(log, qs) && DistinctIds(qs) && i < |log| && j < |log| && log[i].eventId == log[j].eventId
    ensures i == j
  {
    assert qs[i].eventId == qs[j].eventId;
  }

  ghost predicate DistinctIds(qs: seq<Request>) {
    forall i, j :: 0 <= i < j < |qs| ==> qs[i].eventId != qs[j].eventId
  }

  lemma {:induction false} FirstsDistinct(ok: Request -> bool, qs: seq<Request>)
    ensures DistinctIds(Firsts(ok, qs))
  {
    if qs != [] { FirstsDistinct(ok, qs[..|qs| - 1]); }
  }

  lemma {:induction false} IdenticalIff(e: AuditEvent, q: Request)
    ensures Identical(e, q) <==> Repeats(e, q) && Comparable(e, q)
  {
    if q.evidence.Some? { SameTextIff(e.evidence, q.evidence.value); }
  }

  /** The promise that an identical replay returns the original sequence and a changed one is rejected
      holds of a call exactly when nothing in it escapes the comparison, or some comparison is true. */
  lemma {:induction false} ReplayPromiseIff(
      p: Platform, logs: seq<seq<AuditEvent>>, qs: seq<Request>, rs: seq<Result<nat, Refusal>>, n: nat, i: nat)
    requires Run(p, logs, qs, rs) && n < |qs| && i < |logs[n]| && Admissible(p, qs[n])
    requires qs[n].eventId == Some(logs[n][i].eventId)
    ensures logs[n + 1] == logs[n]
    ensures rs[n] == (if Identical(logs[n][i], qs[n]) then Ok(i + 1) else Err(IdentityChanged)) <==>
            Comparable(logs[n][i], qs[n]) || !Repeats(logs[n][i], qs[n])
  {
    LogIsFirsts(p, logs, qs, rs, n);
    FirstsDistinct(AppendableBy(p), qs[..n]);
    ReplayIff(p, logs[n], Firsts(AppendableBy(p), qs[..n]), qs[n], rs[n], logs[n + 1], i);
    IdenticalIff(logs[n][i], qs[n]);
  }

  /** A log of one call, asked again. */
  lemma {:induction false} SecondCall(
      p: Platform, log: seq<AuditEvent>, first: Request, q: Request, r: Result<nat, Refusal>, log': seq<AuditEvent>)
    requires Appendable(p, first) && log == [RowFor(p, [], first)] && Admissible(p, q) && q.eventId == first.eventId
    requires Appends(p, log, q, r, log')
    ensures Identical(log[0], first)
    ensures log' == log && r == if Repeats(log[0], q) then Ok(1) else Err(IdentityChanged)
  {
    RowShape(p, [], first);
    ChainSnoc(p, [], log[0]);
    RecordsSnoc([], [], log[0], first);
    assert [] + [log[0]] == log && [] + [first] == [first];
    ReplayIff(p, log, [first], q, r, log', 0);
  }

  /** A replay that leaves the actor out is accepted as the recorded event. */
  lemma {:induction false} NullActorReplays(
      p: Platform, log: seq<AuditEvent>, first: Request, r: Result<nat, Refusal>, log': seq<AuditEvent>)
    requires Appendable(p, first) && log == [RowFor(p, [], first)]
    requires Appends(p, log, first.(actor := None), r, log')
    ensures r == Ok(1) && log' == log && !Identical(log[0], first.(actor := None))
  {
    SecondCall(p, log, first, first.(actor := None), r, log');
    IdenticalIff(log[0], first);
  }

  /** So is one that names actor and code but prints a number of its evidence with another scale. */
  lemma {:induction false} RescaledNumberReplays(
      p: Platform, log: seq<AuditEvent>, first: Request, q: Request, r: Result<nat, Refusal>, log': seq<AuditEvent>)
    requires Appendable(p, first) && first.evidence == Some(Obj(map["n" := Num("1")]))
    requires q == first.(evidence := Some(Obj(map["n" := Num("1.0")]))) && Admissible(p, q)
    requires log == [RowFor(p, [], first)] && Appends(p, log, q, r, log')
    ensures r == Ok(1) && log' == log && !Identical(log[0], q) && q.actor.Some? && q.code.Some?
  {
    SecondCall(p, log, first, q, r, log');
    OneInTwoTexts();
    var a, b := map["n" := Num("1")], map["n" := Num("1.0")];
    assert a.Keys == b.Keys && a["n"] != b["n"];
    assert SameValue(Obj(a), Obj(b));
  }
}
