/** What every row of the audit log looks like (`alembic/versions/0022_health_audit_events.py`): its references and
    codes have the form their patterns demand, and its evidence names nothing that must not be named. */
module AuditRows {
  import opened Results
  import opened CanonicalJson
  import opened AuditLog

  // ------------------------------------------------------------------ patterns

  predicate HexChar(c: char) { c in "0123456789abcdef" }

  predicate Hex(s: string) { |s| == 32 && forall c :: c in s ==> HexChar(c) }

  /** A lower-case name: a letter, then letters, digits and underscores. */
  predicate Name(s: string) { s != "" && 'a' <= s[0] <= 'z' && forall c :: c in s ==> NameChar(c) }

  /** A kind of 2 to 32 characters, a colon, and 32 hexadecimal digits. */
  predicate ActorParts(s: string, kind: string, hex: string) {
    s == kind + (":" + hex) && 2 <= |kind| <= 32 && Name(kind) && Hex(hex)
  }

  function Dots(names: seq<string>): string
    requires names != []
  {
    if |names| == 1 then names[0] else names[0] + ("." + Dots(names[1..]))
  }

  /** Names joined by dots. */
  predicate DottedParts(s: string, names: seq<string>) {
    names != [] && (forall i :: 0 <= i < |names| ==> Name(names[i])) && s == Dots(names)
  }

  lemma {:induction false} HexIff(s: string)
    ensures Hex32(s) <==> Hex(s)
  {
    assert forall c: char :: HexChar(c) <==> '0' <= c <= '9' || 'a' <= c <= 'f' by {
      forall c: char ensures HexChar(c) <==> '0' <= c <= '9' || 'a' <= c <= 'f' {
        HexCharIff(c);
      }
    }
    assert forall i :: 0 <= i < |s| ==> s[i] in s;
  }

  lemma {:induction false} HexCharIff(c: char)
    ensures HexChar(c) <==> '0' <= c <= '9' || 'a' <= c <= 'f'
  {
    var digits := "0123456789abcdef";
    if '0' <= c <= '9' { assert digits[c as int - '0' as int] == c; }
    if 'a' <= c <= 'f' { assert digits[c as int - 'a' as int + 10] == c; }
  }

  lemma {:induction false} ActorSplits(s: string)
    requires ActorReference(s)
    ensures ActorParts(s, s[..|s| - 33], s[|s| - 32..])
  {
    var n := |s| - 33;
    HexIff(s[n + 1..]);
    assert s == s[..n] + (":" + s[n + 1..]);
  }

  lemma {:induction false} ActorJoins(s: string, kind: string, hex: string)
    requires ActorParts(s, kind, hex)
    ensures ActorReference(s)
  {
    HexIff(hex);
    assert s[|s| - 32..] == hex && s[|s| - 33] == ':';
    assert forall i :: 0 <= i < |kind| ==> s[i] == kind[i] && kind[i] in kind;
  }

  /** An actor reference is exactly a kind, a colon and 32 hexadecimal digits. */
  lemma {:induction false} ActorIff(s: string)
    ensures ActorReference(s) <==> exists kind: string, hex: string :: ActorParts(s, kind, hex)
  {
    if ActorReference(s) { ActorSplits(s); }
    if exists kind: string, hex: string :: ActorParts(s, kind, hex) {
      var kind: string, hex: string :| ActorParts(s, kind, hex);
      ActorJoins(s, kind, hex);
    }
  }

  /** A session reference is exactly the word, a colon and 32 hexadecimal digits. */
  lemma {:induction false} SessionIff(s: string)
    ensures SessionReference(s) <==> exists hex: string :: Hex(hex) && s == "session:" + hex
  {
    if SessionReference(s) {
      HexIff(s[8..]);
      assert s == "session:" + s[8..];
    }
    if exists hex: string :: Hex(hex) && s == "session:" + hex {
      var hex: string :| Hex(hex) && s == "session:" + hex;
      HexIff(hex);
      assert s[8..] == hex && s[..8] == "session:";
    }
  }

  /** Where the first dot is, or the length of the text. */
  function FirstDot(s: string): (i: nat)
    ensures i <= |s| && (forall j :: 0 <= j < i ==> s[j] != '.') && (i < |s| ==> s[i] == '.')
  {
    if s == "" || s[0] == '.' then 0 else 1 + FirstDot(s[1..])
  }

  function Names(s: string): (r: seq<string>)
    ensures r != []
  {
    var i := FirstDot(s);
    if i == |s| then [s] else [s[..i]] + Names(s[i + 1..])
  }

  lemma {:induction false} DottedFront(s: string, i: nat)
    requires Dotted(s) && i == FirstDot(s)
    ensures Name(s[..i]) && (i < |s| ==> i + 1 < |s| && Dotted(s[i + 1..]))
  {
    assert s[0] != '.';
    forall c | c in s[..i] ensures NameChar(c) {
      var j :| 0 <= j < i && s[..i][j] == c;
      assert s[j] != '.' && s[j] == c && DottedAt(s, j);
    }
    if i < |s| {
      var rest := s[i + 1..];
      assert DottedAt(s, i);
      forall j | 0 <= j < |rest| ensures DottedAt(rest, j) {
        var k := i + 1 + j;
        assert rest[j] == s[k] && (j + 1 < |rest| ==> rest[j + 1] == s[k + 1]);
        assert DottedAt(s, k);
      }
    }
  }

  lemma {:induction false} DottedSplits(s: string)
    requires Dotted(s)
    ensures DottedParts(s, Names(s)) && ('.' in s <==> 2 <= |Names(s)|)
  {
    var i := FirstDot(s);
    DottedFront(s, i);
    if i == |s| {
      assert s[..i] == s;
    } else {
      DottedSplits(s[i + 1..]);
      assert s == s[..i] + ("." + s[i + 1..]);
      assert Names(s)[1..] == Names(s[i + 1..]);
    }
  }

  lemma {:induction false} DottedJoins(s: string, names: seq<string>)
    requires DottedParts(s, names)
    ensures Dotted(s) && (2 <= |names| ==> '.' in s)
    decreases |names|
  {
    var first := names[0];
    assert Name(first);
    assert forall i :: 0 <= i < |first| ==> first[i] in first;
    if 1 < |names| {
      var rest := Dots(names[1..]);
      DottedJoins(rest, names[1..]);
      assert s[|first|] == '.';
      forall i | 0 <= i < |s| ensures DottedAt(s, i) {
        if i < |first| {
          assert s[i] == first[i];
        } else if i == |first| {
          assert s[i + 1] == rest[0];
        } else {
          var j := i - |first| - 1;
          assert s[i] == rest[j] && (j + 1 < |rest| ==> s[i + 1] == rest[j + 1]);
          assert DottedAt(rest, j);
        }
      }
    }
  }

  /** A reason is exactly one or more names joined by dots, and an event code two or more. */
  lemma {:induction false} DottedIff(s: string)
    ensures Dotted(s) <==> exists names: seq<string> :: DottedParts(s, names)
    ensures EventCode(s) <==> exists names: seq<string> :: DottedParts(s, names) && 2 <= |names|
  {
    if Dotted(s) { DottedSplits(s); }
    if exists names: seq<string> :: DottedParts(s, names) {
      var names: seq<string> :| DottedParts(s, names);
      DottedJoins(s, names);
    }
    if exists names: seq<string> :: DottedParts(s, names) && 2 <= |names| {
      var names: seq<string> :| DottedParts(s, names) && 2 <= |names|;
      DottedJoins(s, names);
    }
  }

  // ------------------------------------------------------------------ evidence

  /** The key occurs in the document, at any depth. */
  ghost predicate Occurs(key: string, v: Json) {
    match v
    case Obj(members) => key in members || exists k :: k in members && Occurs(key, members[k])
    case Arr(items) => exists i :: 0 <= i < |items| && Occurs(key, items[i])
    case _ => false
  }

  /** Evidence is safe exactly when no forbidden key occurs in it. */
  lemma {:induction false} SafeIff(forbidden: string -> bool, v: Json)
    ensures Safe(forbidden, v) <==> forall key: string :: Occurs(key, v) ==> !forbidden(key)
    decreases v
  {
    match v
    case Obj(members) =>
      forall k | k in members
        ensures Safe(forbidden, members[k]) <==> forall key: string :: Occurs(key, members[k]) ==> !forbidden(key)
      {
        SafeIff(forbidden, members[k]);
      }
    case Arr(items) =>
      forall i | 0 <= i < |items|
        ensures Safe(forbidden, items[i]) <==> forall key: string :: Occurs(key, items[i]) ==> !forbidden(key)
      {
        SafeIff(forbidden, items[i]);
      }
    case _ =>
  }

  // ------------------------------------------------------------------ every row

  ghost predicate IsActor(s: string) { |s| <= 64 && exists kind: string, hex: string :: ActorParts(s, kind, hex) }

  ghost predicate IsSession(s: string) { exists hex: string :: Hex(hex) && s == "session:" + hex }

  ghost predicate IsReason(s: string) { |s| <= 128 && exists names: seq<string> :: DottedParts(s, names) }

  ghost predicate IsCode(s: string) {
    |s| <= 128 && exists names: seq<string> :: DottedParts(s, names) && 2 <= |names|
  }

  /** The evidence is an object of bounded size in which no forbidden key occurs. */
  ghost predicate Harmless(p: Platform, v: Json) {
    v.Obj? && p.size(v) <= 65536 && forall key: string :: Occurs(key, v) ==> !p.forbidden(key)
  }

  /** Exactly which calls can become a row. */
  lemma {:induction false} AppendableIff(p: Platform, q: Request)
    ensures Appendable(p, q) <==>
            && RoleOf(q.user).Some? && q.code.Some? && q.code.value in Approved(RoleOf(q.user).value)
            && q.eventId.Some? && q.eventId.value != 0 && q.occurredAt.Some? && q.known
            && q.actor.Some? && IsActor(q.actor.value) && IsCode(q.code.value)
            && (q.session.Some? ==> IsSession(q.session.value)) && (q.reason.Some? ==> IsReason(q.reason.value))
            && q.evidence.Some? && Harmless(p, q.evidence.value)
  {
    if q.actor.Some? { ActorIff(q.actor.value); }
    if q.session.Some? { SessionIff(q.session.value); }
    if q.code.Some? { DottedIff(q.code.value); }
    if q.reason.Some? { DottedIff(q.reason.value); }
    if q.evidence.Some? { SafeIff(p.forbidden, q.evidence.value); }
  }

  /** The row's texts have their forms and fit their columns. */
  ghost predicate WellFormed(e: AuditEvent) {
    && IsActor(e.actor) && IsCode(e.code)
    && (e.session.Some? ==> IsSession(e.session.value)) && (e.reason.Some? ==> IsReason(e.reason.value))
  }

  /** In every run every row of the log is well-formed, has an identifier, and carries harmless evidence. */
  lemma {:induction false} RowsWellFormed(
      p: Platform, logs: seq<seq<AuditEvent>>, qs: seq<Request>, rs: seq<Result<nat, Refusal>>, n: nat, i: nat)
    requires Run(p, logs, qs, rs) && n <= |qs| && i < |logs[n]|
    ensures WellFormed(logs[n][i]) && logs[n][i].eventId != 0 && Harmless(p, logs[n][i].evidence)
  {
    LogIsFirsts(p, logs, qs, rs, n);
    var firsts := Firsts(AppendableBy(p), qs[..n]);
    FirstsExact(AppendableBy(p), qs[..n], firsts[i]);
    assert firsts[i] in firsts;
    AppendableIff(p, firsts[i]);
  }
}
