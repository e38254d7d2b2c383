/** Object keys (`maais/artifacts/models.py`).  Case folding is a parameter: the library function that
    folds a path component. */
module ArtifactKeys {
  import opened Results
  import opened ArtifactModels

  /** The components between forward slashes. */
  function Split(s: string): (r: seq<string>)
    ensures r != []
  {
    if s == "" then [""]
    else
      var rest := Split(s[1..]);
      if s[0] == '/' then [""] + rest else [[s[0]] + rest[0]] + rest[1..]
  }

  function Join(parts: seq<string>): string
    requires parts != []
  {
    if |parts| == 1 then parts[0] else parts[0] + ("/" + Join(parts[1..]))
  }

  predicate Printable(c: char) { ' ' <= c && c != 127 as char }

  predicate ValidPart(fold: string -> string, part: string) {
    part != "" && part != "." && part != ".." && fold(part) != "latest"
  }

  /** `validate_object_key` accepts the key. */
  predicate ValidObjectKey(fold: string -> string, key: string) {
    && 1 <= |key| <= 1024 && key[0] != '/' && key[|key| - 1] != '/' && '\\' !in key && '%' !in key
    && (forall i :: 0 <= i < |key| ==> Printable(key[i]))
    && (forall part :: part in Split(key) ==> ValidPart(fold, part))
  }

  /** A text that ends with a slash has an empty last component. */
  lemma {:induction false} EndsEmpty(s: string)
    requires s != "" && s[|s| - 1] == '/'
    ensures 2 <= |Split(s)| && Split(s)[|Split(s)| - 1] == ""
  {
    if |s| == 1 {
      assert s[1..] == "";
    } else {
      EndsEmpty(s[1..]);
    }
  }

  /** What an accepted key looks like: printable text of at most 1024 characters without backslash or percent sign,
      whose components name places below the root and never a moving alias. */
  lemma {:induction false} AcceptedIff(fold: string -> string, key: string)
    ensures ValidObjectKey(fold, key) <==>
            && 1 <= |key| <= 1024
            && (forall c :: c in key ==> 32 <= c as int && c as int != 127 && c != '\\' && c != '%')
            && (forall part :: part in Split(key) ==> part !in {"", ".", ".."} && fold(part) != "latest")
  {
    assert (forall c :: c in key ==> Printable(c)) <==> forall i :: 0 <= i < |key| ==> Printable(key[i]) by {
      assert forall i :: 0 <= i < |key| ==> key[i] in key;
    }
    if key != "" && key[0] == '/' { assert Split(key)[0] in Split(key); }
    if key != "" && key[|key| - 1] == '/' {
      EndsEmpty(key);
      assert Split(key)[|Split(key)| - 1] in Split(key);
    }
  }

  /** The canonical text of a UUID. */
  predicate UuidText(s: string) { |s| == 36 && forall i :: 0 <= i < |s| ==> LowerHex(s[i]) || s[i] == '-' }

  datatype KeyParts = KeyParts(
    environment: string, candidateHash: string, experimentId: string,
    artifactType: string, reportId: string, relativePath: string)

  function Segments(k: KeyParts): seq<string> {
    ["maais", k.environment, k.candidateHash, k.experimentId, k.artifactType, k.reportId, k.relativePath]
  }

  /** The checks `artifact_key` makes before it joins. */
  predicate ValidParts(fold: string -> string, k: KeyParts) {
    && IdentitySegment(k.environment) && Sha256(k.candidateHash) && IdentitySegment(k.artifactType)
    && IdentitySegment(k.reportId) && ValidObjectKey(fold, k.relativePath)
  }

  function ArtifactKey(fold: string -> string, k: KeyParts): Result<string, string> {
    if !ValidParts(fold, k) then Err("artifact key part is not valid")
    else
      var key := Join(Segments(k));
      if ValidObjectKey(fold, key) then Ok(key) else Err("artifact object key is not valid")
  }

  // ------------------------------------------------------------------ one key, one identity

  lemma {:induction false} SplitHead(a: string, x: string)
    requires '/' !in a
    ensures Split(a + ("/" + x)) == [a] + Split(x)
  {
    var s := a + ("/" + x);
    if a == "" {
      assert s[1..] == x;
    } else {
      assert s[1..] == a[1..] + ("/" + x);
      SplitHead(a[1..], x);
      assert a == [a[0]] + a[1..];
    }
  }

  /** All components but the last are free of slashes. */
  predicate Plain(parts: seq<string>) { forall i :: 0 <= i < |parts| - 1 ==> '/' !in parts[i] }

  lemma {:induction false} SplitJoin(parts: seq<string>)
    requires parts != [] && Plain(parts)
    ensures Split(Join(parts)) == parts[..|parts| - 1] + Split(parts[|parts| - 1])
  {
    if 1 < |parts| {
      var rest := parts[1..];
      SplitJoin(rest);
      SplitHead(parts[0], Join(rest));
      assert parts[..|parts| - 1] == [parts[0]] + rest[..|rest| - 1];
    }
  }

  lemma {:induction false} HeadInjective(a: string, x: string, b: string, y: string)
    requires '/' !in a && '/' !in b && a + ("/" + x) == b + ("/" + y)
    ensures a == b && x == y
  {
    SplitHead(a, x);
    SplitHead(b, y);
    assert ([a] + Split(x))[0] == ([b] + Split(y))[0];
    var s := a + ("/" + x);
    assert s[|a| + 1..] == x && (b + ("/" + y))[|a| + 1..] == y;
  }

  lemma {:induction false} JoinInjective(a: seq<string>, b: seq<string>)
    requires |a| == |b| && a != [] && Plain(a) && Plain(b) && Join(a) == Join(b)
    ensures a == b
  {
    if 1 < |a| {
      HeadInjective(a[0], Join(a[1..]), b[0], Join(b[1..]));
      JoinInjective(a[1..], b[1..]);
      assert a == [a[0]] + a[1..] && b == [b[0]] + b[1..];
    }
  }

  lemma {:induction false} SegmentsPlain(fold: string -> string, k: KeyParts)
    requires ValidParts(fold, k) && UuidText(k.experimentId)
    ensures Plain(Segments(k))
  {
  }

  /** Two identities never share an object key. */
  lemma {:induction false} ArtifactKeyInjective(fold: string -> string, k: KeyParts, m: KeyParts)
    requires UuidText(k.experimentId) && UuidText(m.experimentId)
    requires ArtifactKey(fold, k).Ok? && ArtifactKey(fold, k) == ArtifactKey(fold, m)
    ensures k == m
  {
    SegmentsPlain(fold, k);
    SegmentsPlain(fold, m);
    JoinInjective(Segments(k), Segments(m));
    var s, t := Segments(k), Segments(m);
    assert s[1] == t[1] && s[2] == t[2] && s[3] == t[3] && s[4] == t[4] && s[5] == t[5] && s[6] == t[6];
  }

  // ------------------------------------------------------------------ when a key is accepted

  predicate Harmless(s: string) {
    s != "" && forall i :: 0 <= i < |s| ==> Printable(s[i]) && s[i] != '\\' && s[i] != '%'
  }

  lemma {:induction false} JoinHarmless(parts: seq<string>)
    requires parts != [] && forall i :: 0 <= i < |parts| ==> Harmless(parts[i])
    ensures Harmless(Join(parts)) && Harmless(parts[0]) && Harmless(parts[|parts| - 1])
    ensures Join(parts)[0] == parts[0][0]
    ensures var last := parts[|parts| - 1]; Join(parts)[|Join(parts)| - 1] == last[|last| - 1]
  {
    if 1 < |parts| {
      JoinHarmless(parts[1..]);
      var rest := Join(parts[1..]);
      var s := parts[0] + ("/" + rest);
      forall i | 0 <= i < |s| ensures Printable(s[i]) && s[i] != '\\' && s[i] != '%' {
        assert s[i] == if i < |parts[0]| then parts[0][i]
                       else if i == |parts[0]| then '/' else rest[i - |parts[0]| - 1];
      }
      assert s[|s| - 1] == rest[|rest| - 1];
    }
  }

  /** Folding leaves components of lower-case letters, digits and `.`, `_`, `-` alone. */
  ghost predicate FoldsCase(fold: string -> string) {
    forall s: string :: (forall i :: 0 <= i < |s| ==> SegmentChar(s[i])) ==> fold(s) == s
  }

  lemma {:induction false} SegmentAccepted(fold: string -> string, s: string)
    requires FoldsCase(fold) && (IdentitySegment(s) || Sha256(s) || UuidText(s))
    ensures Harmless(s) && ValidPart(fold, s)
  {
    assert Harmless(s);
    assert forall i :: 0 <= i < |s| ==> SegmentChar(s[i]);
    assert fold(s) == s;
    if Sha256(s) || UuidText(s) { assert |s| != |"latest"| && |s| != |"."| && |s| != |".."|; }
  }

  lemma {:induction false} SegmentsAccepted(fold: string -> string, k: KeyParts)
    requires FoldsCase(fold) && UuidText(k.experimentId) && ValidParts(fold, k)
    ensures forall i :: 0 <= i < 6 ==> Harmless(Segments(k)[i]) && ValidPart(fold, Segments(k)[i])
  {
    assert IdentitySegment("maais");
    SegmentAccepted(fold, "maais");
    SegmentAccepted(fold, k.environment);
    SegmentAccepted(fold, k.candidateHash);
    SegmentAccepted(fold, k.experimentId);
    SegmentAccepted(fold, k.artifactType);
    SegmentAccepted(fold, k.reportId);
  }

  lemma {:induction false} PartsAccepted(fold: string -> string, k: KeyParts)
    requires FoldsCase(fold) && UuidText(k.experimentId) && ValidParts(fold, k)
    ensures forall part :: part in Split(Join(Segments(k))) ==> ValidPart(fold, part)
  {
    SegmentsPlain(fold, k);
    SegmentsAccepted(fold, k);
    var parts := Segments(k);
    SplitJoin(parts);
    forall part | part in Split(Join(parts)) ensures ValidPart(fold, part) {
      if part in parts[..6] {
        var i :| 0 <= i < 6 && parts[i] == part;
      } else {
        assert part in Split(k.relativePath);
      }
    }
  }

  lemma {:induction false} PathHarmless(fold: string -> string, path: string)
    requires ValidObjectKey(fold, path)
    ensures Harmless(path) && path[|path| - 1] != '/'
  {
  }

  lemma {:induction false} SegmentsHarmless(fold: string -> string, k: KeyParts)
    requires FoldsCase(fold) && UuidText(k.experimentId) && ValidParts(fold, k)
    ensures forall i :: 0 <= i < |Segments(k)| ==> Harmless(Segments(k)[i])
  {
    SegmentsAccepted(fold, k);
    PathHarmless(fold, k.relativePath);
    var parts := Segments(k);
    forall i | 0 <= i < |parts| ensures Harmless(parts[i]) {
      assert i == 6 ==> parts[i] == k.relativePath;
    }
  }

  lemma {:induction false} KeyHarmless(fold: string -> string, k: KeyParts)
    requires FoldsCase(fold) && UuidText(k.experimentId) && ValidParts(fold, k)
    ensures var key := Join(Segments(k)); Harmless(key) && key[0] != '/' && key[|key| - 1] != '/'
  {
    SegmentsHarmless(fold, k);
    PathHarmless(fold, k.relativePath);
    JoinHarmless(Segments(k));
    assert Segments(k)[0] == "maais" && Segments(k)[6] == k.relativePath;
  }

  /** For valid parts only the overall length can still make `artifact_key` fail. */
  lemma {:induction false} ArtifactKeyAcceptedIff(fold: string -> string, k: KeyParts)
    requires FoldsCase(fold) && UuidText(k.experimentId)
    ensures ArtifactKey(fold, k).Ok? <==> ValidParts(fold, k) && |Join(Segments(k))| <= 1024
  {
    if ValidParts(fold, k) {
      PartsAccepted(fold, k);
      KeyHarmless(fold, k);
    }
  }
}
