/** The development store on a local file system (`maais/artifacts/filesystem.py`): one put as the steps
    that create, fill, read back and remove files, with failures and crashes between any two of them. */
module FilesystemStore {
  import opened Results
  import opened ArtifactModels
  import opened ArtifactKeys

  type Bytes = seq<bv8>
  type Path = seq<string>
  type Files = map<Path, Bytes>

  /** A metadata file: missing, unreadable because it was cut off while it was written, or complete. */
  datatype Metadata = Absent | Torn | Present(stored: StoredArtifact)

  /** The two files of one key. */
  datatype Slot = Slot(content: Option<Bytes>, metadata: Metadata)

  const EMPTY_SLOT := Slot(None, Absent)

  /** How far writing a metadata file got. */
  datatype MetadataFate = Written | NotCreated | LeftTorn | WrittenThenStopped

  /** The surroundings of one put.  A step that stops short of its end stands for an I/O error as well
      as for a crash: `cleanup` says whether the handler then still removed the object it had created,
      `copied` and `cut` how much of an object or of a metadata file was written. */
  datatype Env = Env(
    checked: Bytes, source: Bytes, pathOk: bool, openOk: bool, copyOk: bool, copied: nat, cleanup: bool,
    readOk: bool, fate: MetadataFate, cut: nat, now: Time, modified: Time)

  /** The store's name, the digest of a file, and the text of a metadata file with its reading. */
  datatype Store = Store(
    name: string, sha: Bytes -> Digest, encode: StoredArtifact -> Bytes, decode: Bytes -> Option<StoredArtifact>)

  predicate ValidStore(store: Store) { NonBlank(store.name) }

  /** A whole metadata file reads as what was written, a cut one not at all. */
  ghost predicate Readable(store: Store) {
    forall s: StoredArtifact ::
      var text := store.encode(s);
      && text != [] && store.decode(text) == Some(s)
      && forall n :: 0 <= n < |text| ==> store.decode(text[..n]) == None
  }

  predicate Matches(store: Store, q: WriteRequest, bytes: Bytes) {
    store.sha(bytes) == q.sha256 && |bytes| == q.sizeBytes
  }

  predicate SameRequest(q: WriteRequest, s: StoredArtifact) {
    && s.sha256 == q.sha256 && s.sizeBytes == q.sizeBytes
    && s.contentType == q.contentType && s.retention == q.retention
  }

  function StoredFor(store: Store, q: WriteRequest, at: Time): StoredArtifact
    requires ValidStore(store) && ValidRequest(q)
  {
    StoredFields.StoredArtifact(store.name, q.key, q.sha256, Some(q.sha256), q.sha256, q.sizeBytes,
                                q.contentType, q.retention, at)
  }

  /** The metadata file after an attempt to create it, and whether the writer got to its end. */
  function Metadated(fate: MetadataFate, s: StoredArtifact): Metadata {
    match fate
    case NotCreated => Absent
    case LeftTorn => Torn
    case _ => Present(s)
  }

  /** `_verify_existing` on a key whose object is present: the stored object, if it is confirmed, and the
      files afterwards. */
  function VerifyExisting(store: Store, q: WriteRequest, slot: Slot, env: Env): (Option<StoredArtifact>, Slot)
    requires ValidStore(store) && ValidRequest(q) && slot.content.Some?
  {
    if !env.readOk then (None, slot)
    else match slot.metadata
      case Torn => (None, slot)
      case Absent =>
        if !Matches(store, q, slot.content.value) then (None, slot)
        else
          var s := StoredFor(store, q, env.modified);
          (if env.fate.Written? then Some(s) else None, slot.(metadata := Metadated(env.fate, s)))
      case Present(s) =>
        if s.key == q.key && s.storeName == store.name && SameRequest(q, s) && Matches(store, q, slot.content.value)
        then (Some(s), slot) else (None, slot)
  }

  /** The object file after a put gave up on it. */
  function Abandoned(env: Env, bytes: Bytes): Option<Bytes> { if env.cleanup then None else Some(bytes) }

  function Partial(bytes: Bytes, n: nat): Bytes { if n <= |bytes| then bytes[..n] else bytes }

  /** A put on a key without an object. */
  function PutFresh(store: Store, q: WriteRequest, slot: Slot, env: Env): (Option<StoredArtifact>, Slot)
    requires ValidStore(store) && ValidRequest(q) && slot.content.None?
  {
    if !env.openOk then (None, slot)
    else if !env.copyOk then (None, slot.(content := Abandoned(env, Partial(env.source, env.copied))))
    else if !Matches(store, q, env.source) then (None, slot.(content := Abandoned(env, env.source)))
    else if slot.metadata.Absent? then
      var s := StoredFor(store, q, env.now);
      if env.fate.Written? then (Some(s), Slot(Some(env.source), Present(s)))
      else (None, Slot(Abandoned(env, env.source), Metadated(env.fate, s)))
    else if env.fate.NotCreated? then (None, slot.(content := Abandoned(env, env.source)))
    else
      var full := slot.(content := Some(env.source));
      var out := VerifyExisting(store, q, full, env);
      if out.0.Some? || !env.readOk then out
      else (None, slot.(content := Abandoned(env, env.source)))
  }

  function Put(store: Store, q: WriteRequest, slot: Slot, env: Env): (Option<StoredArtifact>, Slot)
    requires ValidStore(store) && ValidRequest(q)
  {
    if !Matches(store, q, env.checked) || !env.pathOk then (None, slot)
    else if slot.content.Some? then VerifyExisting(store, q, slot, env)
    else PutFresh(store, q, slot, env)
  }

  /** `_head_blocking`. */
  function Head(store: Store, key: string, versionId: Option<string>, slot: Slot): Option<StoredArtifact> {
    if !slot.metadata.Present? then None
    else
      var s := slot.metadata.stored;
      if s.key != key || s.storeName != store.name then None
      else if versionId.Some? && s.versionId != versionId then None
      else if slot.content.None? || |slot.content.value| != s.sizeBytes then None
      else Some(s)
  }

  // ------------------------------------------------------------------ the files of a key

  const METADATA_DIRECTORY := ".maais-metadata"
  const METADATA_SUFFIX := ".metadata.json"

  /** `_object_path`, below the store's root. */
  function ObjectPath(key: string): Path { Split(key) }

  /** `_metadata_path`, below the store's root. */
  function MetadataPath(key: string): Path {
    [METADATA_DIRECTORY] + Extended(Split(key), METADATA_SUFFIX)
  }

  function Paths(key: string): set<Path> { {ObjectPath(key), MetadataPath(key)} }

  function Read(files: Files, path: Path): Option<Bytes> { if path in files then Some(files[path]) else None }

  function MetadataIn(store: Store, content: Option<Bytes>): Metadata {
    if content.None? then Absent
    else
      var s := store.decode(content.value);
      if s.None? then Torn else Present(s.value)
  }

  function SlotIn(store: Store, files: Files, key: string): Slot {
    Slot(Read(files, ObjectPath(key)), MetadataIn(store, Read(files, MetadataPath(key))))
  }

  /** The two keys share no file. */
  predicate Apart(a: string, b: string) { Paths(a) !! Paths(b) }

  /** The key whose object is the metadata file of `key`. */
  function Shadow(key: string): string { METADATA_DIRECTORY + ("/" + (key + METADATA_SUFFIX)) }

  /** The key lies outside the metadata directory. */
  predicate Ordinary(key: string) { !(METADATA_DIRECTORY + "/" <= key) }

  lemma {:induction false} SplitInjective(a: string, b: string)
    requires Split(a) == Split(b)
    ensures a == b
  {
    JoinSplit(a);
    JoinSplit(b);
  }

  lemma {:induction false} JoinSplit(s: string)
    ensures Join(Split(s)) == s
  {
    if s != "" {
      var rest := Split(s[1..]);
      JoinSplit(s[1..]);
      assert s == [s[0]] + s[1..];
      if s[0] == '/' {
        assert ([""] + rest)[1..] == rest;
      } else if |rest| > 1 {
        var parts := [[s[0]] + rest[0]] + rest[1..];
        assert parts[1..] == rest[1..];
        assert [s[0]] + (rest[0] + ("/" + Join(rest[1..]))) == [s[0]] + rest[0] + ("/" + Join(rest[1..]));
      }
    }
  }

  /** The components with the last one extended. */
  function Extended(parts: seq<string>, suffix: string): seq<string>
    requires parts != []
  {
    parts[..|parts| - 1] + [parts[|parts| - 1] + suffix]
  }

  lemma {:induction false} ExtendedCons(part: string, parts: seq<string>, suffix: string)
    requires parts != []
    ensures Extended([part] + parts, suffix) == [part] + Extended(parts, suffix)
  {
    assert ([part] + parts)[..|parts|] == [part] + parts[..|parts| - 1];
  }

  lemma {:induction false} ExtendedHead(c: char, parts: seq<string>, suffix: string)
    requires parts != []
    ensures var longer := Extended(parts, suffix);
            Extended([[c] + parts[0]] + parts[1..], suffix) == [[c] + longer[0]] + longer[1..]
  {
    var rest := parts[1..];
    if rest == [] {
      assert [c] + (parts[0] + suffix) == [c] + parts[0] + suffix;
    } else {
      ExtendedCons([c] + parts[0], rest, suffix);
      ExtendedCons(parts[0], rest, suffix);
      assert parts == [parts[0]] + rest;
    }
  }

  lemma {:induction false} SplitSuffix(s: string, suffix: string)
    requires '/' !in suffix
    ensures Split(s + suffix) == Extended(Split(s), suffix)
  {
    if s == "" {
      SplitPlain(suffix);
      assert s + suffix == suffix;
    } else {
      var rest := Split(s[1..]);
      SplitSuffix(s[1..], suffix);
      assert (s + suffix)[1..] == s[1..] + suffix && (s + suffix)[0] == s[0];
      if s[0] == '/' { ExtendedCons("", rest, suffix); } else { ExtendedHead(s[0], rest, suffix); }
    }
  }

  lemma {:induction false} SplitPlain(s: string)
    requires '/' !in s
    ensures Split(s) == [s]
  {
    if s != "" {
      SplitPlain(s[1..]);
      assert s == [s[0]] + s[1..];
    }
  }

  lemma {:induction false} ShadowPath(key: string)
    ensures MetadataPath(key) == ObjectPath(Shadow(key))
  {
    SplitSuffix(key, METADATA_SUFFIX);
    SplitHead(METADATA_DIRECTORY, key + METADATA_SUFFIX);
  }

  lemma {:induction false} ShadowInjective(a: string, b: string)
    requires Shadow(a) == Shadow(b)
    ensures a == b
  {
    var n := |METADATA_DIRECTORY| + 1;
    assert Shadow(a)[n..|Shadow(a)| - |METADATA_SUFFIX|] == a;
    assert Shadow(b)[n..|Shadow(b)| - |METADATA_SUFFIX|] == b;
  }

  /** Two keys share a file exactly when one names the other's metadata file. */
  lemma {:induction false} ApartIff(a: string, b: string)
    requires a != b
    ensures Apart(a, b) <==> a != Shadow(b) && b != Shadow(a)
  {
    ShadowPath(a);
    ShadowPath(b);
    if ObjectPath(a) == ObjectPath(b) { SplitInjective(a, b); }
    if MetadataPath(a) == MetadataPath(b) {
      SplitInjective(Shadow(a), Shadow(b));
      ShadowInjective(a, b);
    }
    if ObjectPath(a) == MetadataPath(b) { SplitInjective(a, Shadow(b)); }
    if MetadataPath(a) == ObjectPath(b) { SplitInjective(Shadow(a), b); }
    assert ObjectPath(a) in Paths(a) && ObjectPath(b) in Paths(b);
    assert MetadataPath(a) in Paths(a) && MetadataPath(b) in Paths(b);
  }

  lemma {:induction false} OrdinaryApart(a: string, b: string)
    requires a != b && Ordinary(a) && Ordinary(b)
    ensures Apart(a, b)
  {
    var directory := METADATA_DIRECTORY + "/";
    assert Shadow(a) == directory + (a + METADATA_SUFFIX) && Shadow(b) == directory + (b + METADATA_SUFFIX);
    ApartIff(a, b);
  }

  /** Every key `artifact_key` makes lies outside the metadata directory. */
  lemma {:induction false} ArtifactKeyOrdinary(fold: string -> string, k: KeyParts)
    requires ArtifactKey(fold, k).Ok?
    ensures Ordinary(ArtifactKey(fold, k).value)
  {
    assert Segments(k)[0] == "maais";
    assert Join(Segments(k))[0] == 'm';
  }

  /** Folding goes character by character. */
  ghost predicate FoldsEach(fold: string -> string) {
    forall a: string, b: string :: fold(a + b) == fold(a) + fold(b)
  }

  lemma {:induction false} ShadowShares(key: string)
    ensures !Apart(Shadow(key), key)
  {
    ShadowPath(key);
    assert MetadataPath(key) in Paths(key) && ObjectPath(Shadow(key)) in Paths(Shadow(key));
  }

  /** The key that names an accepted key's metadata file is accepted as well, unless it is too long. */
  lemma {:induction false} ShadowAcceptedIff(fold: string -> string, key: string)
    requires FoldsCase(fold) && FoldsEach(fold) && ValidObjectKey(fold, key)
    ensures !Apart(Shadow(key), key)
    ensures ValidObjectKey(fold, Shadow(key)) <==> |Shadow(key)| <= 1024
  {
    var parts := Split(key);
    ShadowShares(key);
    FoldsPair(fold, parts[|parts| - 1], METADATA_SUFFIX);
    ShortShadowAccepted(fold, key, parts[|parts| - 1]);
  }

  lemma {:induction false} ShortShadowAccepted(fold: string -> string, key: string, last: string)
    requires FoldsCase(fold) && ValidObjectKey(fold, key) && last == Split(key)[|Split(key)| - 1]
    requires fold(last + METADATA_SUFFIX) == fold(last) + fold(METADATA_SUFFIX)
    ensures ValidObjectKey(fold, Shadow(key)) <==> |Shadow(key)| <= 1024
  {
    SuffixedValid(fold, last);
    ShadowParts(fold, key, last);
    ShadowHarmless(fold, key);
    if |Shadow(key)| <= 1024 { HarmlessAccepted(fold, Shadow(key)); }
  }

  lemma {:induction false} HarmlessAccepted(fold: string -> string, key: string)
    requires Harmless(key) && |key| <= 1024 && key[0] != '/' && key[|key| - 1] != '/'
    requires forall part :: part in Split(key) ==> ValidPart(fold, part)
    ensures ValidObjectKey(fold, key)
  {
  }

  lemma {:induction false} ShadowParts(fold: string -> string, key: string, last: string)
    requires FoldsCase(fold) && ValidObjectKey(fold, key) && last == Split(key)[|Split(key)| - 1]
    requires ValidPart(fold, last + METADATA_SUFFIX)
    ensures forall part :: part in Split(Shadow(key)) ==> ValidPart(fold, part)
  {
    ShadowPath(key);
    DirectoryValid(fold);
    PartsExtended(fold, Split(key), METADATA_DIRECTORY, last + METADATA_SUFFIX);
  }

  lemma {:induction false} PartsExtended(fold: string -> string, parts: seq<string>, first: string, last: string)
    requires parts != [] && forall part :: part in parts ==> ValidPart(fold, part)
    requires ValidPart(fold, first) && ValidPart(fold, last)
    ensures forall part :: part in [first] + (parts[..|parts| - 1] + [last]) ==> ValidPart(fold, part)
  {
  }

  lemma {:induction false} DirectoryValid(fold: string -> string)
    requires FoldsCase(fold)
    ensures ValidPart(fold, METADATA_DIRECTORY)
  {
    assert fold(METADATA_DIRECTORY) == METADATA_DIRECTORY;
    assert |METADATA_DIRECTORY| == 15 && |"latest"| == 6;
  }

  lemma {:induction false} SuffixedValid(fold: string -> string, part: string)
    requires FoldsCase(fold) && fold(part + METADATA_SUFFIX) == fold(part) + fold(METADATA_SUFFIX)
    ensures ValidPart(fold, part + METADATA_SUFFIX)
  {
    SuffixFolds(fold);
    assert |METADATA_SUFFIX| == 14 && |"latest"| == 6;
  }

  lemma {:induction false} SuffixFolds(fold: string -> string)
    requires FoldsCase(fold)
    ensures fold(METADATA_SUFFIX) == METADATA_SUFFIX
  {
  }

  lemma {:induction false} FoldsPair(fold: string -> string, a: string, b: string)
    requires FoldsEach(fold)
    ensures fold(a + b) == fold(a) + fold(b)
  {
  }

  lemma {:induction false} ShadowHarmless(fold: string -> string, key: string)
    requires ValidObjectKey(fold, key)
    ensures Harmless(Shadow(key)) && Shadow(key)[0] != '/' && Shadow(key)[|Shadow(key)| - 1] != '/'
  {
    var parts := [METADATA_DIRECTORY, key + METADATA_SUFFIX];
    PathHarmless(fold, key);
    assert Harmless(METADATA_DIRECTORY) && Harmless(METADATA_SUFFIX);
    assert Harmless(key + METADATA_SUFFIX);
    assert forall i :: 0 <= i < |parts| ==> Harmless(parts[i]);
    JoinHarmless(parts);
    assert parts[1..] == [key + METADATA_SUFFIX];
    assert Join(parts) == Shadow(key);
  }

  // ------------------------------------------------------------------ the store as mutable files

  /** Every file that was there is still there, with the same content. */
  ghost predicate Kept(files: Files, files': Files) {
    forall p :: p in files ==> p in files' && files'[p] == files[p]
  }

  lemma {:induction false} SlotApart(store: Store, files: Files, files': Files, a: string, b: string)
    requires Apart(a, b) && files' - Paths(a) == files - Paths(a)
    ensures SlotIn(store, files', b) == SlotIn(store, files, b)
  {
    ReadKept(files, files', Paths(a), ObjectPath(b));
    ReadKept(files, files', Paths(a), MetadataPath(b));
  }

  lemma {:induction false} ReadKept(files: Files, files': Files, paths: set<Path>, path: Path)
    requires files' - paths == files - paths && path !in paths
    ensures Read(files', path) == Read(files, path)
  {
    assert path in files <==> path in files - paths;
    assert path in files' <==> path in files' - paths;
    assert path in files ==> (files - paths)[path] == files[path];
    assert path in files' ==> (files' - paths)[path] == files'[path];
  }

  lemma {:induction false} Beside(files: Files, files': Files, path: Path, paths: set<Path>)
    requires files' - {path} == files - {path} && path in paths
    ensures files' - paths == files - paths
  {
    assert (files' - {path}) - paths == files' - paths && (files - {path}) - paths == files - paths;
  }

  class FilesystemArtifactStore {
    const store: Store
    var files: Files

    function SlotOf(key: string): Slot
      reads this
    {
      SlotIn(store, files, key)
    }

    ghost predicate Valid() { ValidStore(store) && Readable(store) }

    constructor (s: Store)
      requires ValidStore(s) && Readable(s)
      ensures Valid() && store == s && files == map[]
    {
      store, files := s, map[];
    }

    /** A store is refused exactly when its name is blank. */
    static method Create(s: Store) returns (r: Result<FilesystemArtifactStore, string>)
      requires Readable(s)
      ensures r.Ok? <==> ValidStore(s)
      ensures r.Ok? ==> fresh(r.value) && r.value.Valid() && r.value.store == s
      ensures r.Ok? ==> forall k: string :: r.value.SlotOf(k) == EMPTY_SLOT
    {
      if !NonBlank(s.name) {
        return Err("artifact store name must not be empty");
      }
      var store := new FilesystemArtifactStore(s);
      return Ok(store);
    }

    method WriteMetadata(key: string, s: StoredArtifact, env: Env) returns (written: bool)
      requires Valid() && MetadataPath(key) !in files
      modifies this
      ensures written == env.fate.Written?
      ensures SlotOf(key) == old(SlotOf(key)).(metadata := Metadated(env.fate, s))
      ensures files - Paths(key) == old(files) - Paths(key) && Kept(old(files), files)
    {
      var path, text := MetadataPath(key), store.encode(s);
      match env.fate {
        case NotCreated =>
        case LeftTorn => files := files[path := text[..if env.cut < |text| then env.cut else |text| - 1]];
        case Written => files := files[path := text];
        case WrittenThenStopped => files := files[path := text];
      }
      Beside(old(files), files, path, Paths(key));
      written := env.fate.Written?;
    }

    method CheckExisting(q: WriteRequest, env: Env) returns (r: Option<StoredArtifact>)
      requires Valid() && ValidRequest(q) && ObjectPath(q.key) in files
      modifies this
      ensures (r, SlotOf(q.key)) == VerifyExisting(store, q, old(SlotOf(q.key)), env)
      ensures files - Paths(q.key) == old(files) - Paths(q.key) && Kept(old(files), files)
    {
      if !env.readOk { return None; }
      var bytes, path := files[ObjectPath(q.key)], MetadataPath(q.key);
      var s;
      if path !in files {
        if !Matches(store, q, bytes) { return None; }
        s := StoredFor(store, q, env.modified);
        var written := WriteMetadata(q.key, s, env);
        if !written { return None; }
      } else {
        var read := store.decode(files[path]);
        if read.None? { return None; }
        s := read.value;
        if s.key != q.key || s.storeName != store.name { return None; }
      }
      if !SameRequest(q, s) { return None; }
      if !Matches(store, q, bytes) { return None; }
      return Some(s);
    }

    /** The handler that removes the object this put created. */
    method Discard(key: string, env: Env)
      modifies this
      ensures SlotOf(key) == if env.cleanup then old(SlotOf(key)).(content := None) else old(SlotOf(key))
      ensures files - Paths(key) == old(files) - Paths(key) && Kept(old(files) - {ObjectPath(key)}, files)
    {
      if env.cleanup { files := files - {ObjectPath(key)}; }
      Beside(old(files), files, ObjectPath(key), Paths(key));
    }

    method PutVerified(q: WriteRequest, env: Env) returns (r: Option<StoredArtifact>)
      requires Valid() && ValidRequest(q)
      modifies this
      ensures (r, SlotOf(q.key)) == Put(store, q, old(SlotOf(q.key)), env)
      ensures files - Paths(q.key) == old(files) - Paths(q.key) && Kept(old(files), files)
      ensures forall k :: Apart(q.key, k) ==> SlotOf(k) == old(SlotOf(k))
    {
      r := PutFiles(q, env);
      forall k | Apart(q.key, k) ensures SlotOf(k) == old(SlotOf(k)) {
        SlotApart(store, old(files), files, q.key, k);
      }
    }

    method PutFiles(q: WriteRequest, env: Env) returns (r: Option<StoredArtifact>)
      requires Valid() && ValidRequest(q)
      modifies this
      ensures (r, SlotOf(q.key)) == Put(store, q, old(SlotOf(q.key)), env)
      ensures files - Paths(q.key) == old(files) - Paths(q.key) && Kept(old(files), files)
    {
      if !Matches(store, q, env.checked) || !env.pathOk { return None; }
      var path := ObjectPath(q.key);
      if path in files {
        r := CheckExisting(q, env);
        return;
      }
      if !env.openOk { return None; }
      files := files[path := if env.copyOk then env.source else Partial(env.source, env.copied)];
      Beside(old(files), files, path, Paths(q.key));
      if !env.copyOk || !Matches(store, q, env.source) {
        Discard(q.key, env);
        return None;
      }
      if MetadataPath(q.key) !in files {
        var s := StoredFor(store, q, env.now);
        var written := WriteMetadata(q.key, s, env);
        if written { return Some(s); }
        Discard(q.key, env);
        return None;
      }
      if env.fate.NotCreated? {
        Discard(q.key, env);
        return None;
      }
      r := CheckExisting(q, env);
      if r.None? && env.readOk { Discard(q.key, env); }
    }
  }

  // ------------------------------------------------------------------ safety

  /** The key durably holds `s`: complete metadata and the bytes it describes. */
  ghost predicate Committed(store: Store, key: string, slot: Slot, s: StoredArtifact) {
    && slot.metadata == Present(s) && s.key == key && s.storeName == store.name
    && slot.content.Some? && store.sha(slot.content.value) == s.sha256 && |slot.content.value| == s.sizeBytes
  }

  /** A put that returns has committed what it returns, and it is what was asked for. */
  lemma {:induction false} PutCommits(store: Store, q: WriteRequest, slot: Slot, env: Env)
    requires ValidStore(store) && ValidRequest(q) && Put(store, q, slot, env).0.Some?
    ensures var out := Put(store, q, slot, env);
            && Committed(store, q.key, out.1, out.0.value) && SameRequest(q, out.0.value)
            && (slot.content.Some? ==> out.1.content == slot.content)
            && (slot.metadata.Present? ==> out.1.metadata == slot.metadata)
  {
  }

  /** Nothing a later put does, asked for anything and stopped anywhere, changes a committed key. */
  lemma {:induction false} CommittedStays(store: Store, q: WriteRequest, slot: Slot, env: Env, s: StoredArtifact)
    requires ValidStore(store) && ValidRequest(q) && Committed(store, q.key, slot, s)
    ensures var out := Put(store, q, slot, env);
            && out.1 == slot && (out.0.Some? ==> out.0.value == s && SameRequest(q, s))
  {
  }

  /** A put on a committed key that runs to its end returns the stored object exactly when the request
      asks for the same content, and raises otherwise. */
  lemma {:induction false} CommittedPutIff(store: Store, q: WriteRequest, slot: Slot, env: Env, s: StoredArtifact)
    requires ValidStore(store) && ValidRequest(q) && Committed(store, q.key, slot, s)
    requires Matches(store, q, env.checked) && env.pathOk && env.readOk
    ensures Put(store, q, slot, env).0 == if SameRequest(q, s) then Some(s) else None
  {
  }

  /** Reading a committed key returns the stored object, under its own version or none in particular. */
  lemma {:induction false} CommittedHead(
      store: Store, key: string, slot: Slot, s: StoredArtifact, versionId: Option<string>)
    requires Committed(store, key, slot, s)
    ensures Head(store, key, versionId, slot) == if versionId.None? || versionId == s.versionId then Some(s) else None
  {
  }

  /** Exactly what head finds: complete metadata for this key and store, of the version asked for, beside an object of
      the size it names. */
  lemma {:induction false} HeadIff(
      store: Store, key: string, versionId: Option<string>, slot: Slot, s: StoredArtifact)
    ensures Head(store, key, versionId, slot) == Some(s) <==>
            && slot.metadata == Present(s) && s.key == key && s.storeName == store.name
            && (versionId == None || versionId == s.versionId)
            && slot.content.Some? && |slot.content.value| == s.sizeBytes
  {
  }

  /** What an undisturbed put on an empty key stores and returns: the bytes of its source, and an object of this store
      and key under the digest of its content, with the request's size, type and retention. */
  lemma {:induction false} FreshPutSays(store: Store, q: WriteRequest, env: Env)
    requires ValidStore(store) && ValidRequest(q) && Undisturbed(store, q, env)
    ensures var out := Put(store, q, EMPTY_SLOT, env);
            && out.0.Some? && out.1 == Slot(Some(env.source), Present(out.0.value))
            && var s := out.0.value;
               && s.storeName == store.name && s.key == q.key && s.etag == q.sha256 && s.sha256 == q.sha256
               && s.versionId == Some(q.sha256) && s.sizeBytes == q.sizeBytes && s.contentType == q.contentType
               && s.retention == q.retention && s.storedAt == env.now
  {
  }

  /** A put that is stopped while it copies leaves a beginning of its source behind, or nothing. */
  lemma {:induction false} StoppedCopyLeaves(store: Store, q: WriteRequest, env: Env)
    requires ValidStore(store) && ValidRequest(q) && Matches(store, q, env.checked) && env.pathOk && env.openOk
    requires !env.copyOk && env.copied <= |env.source|
    ensures Put(store, q, EMPTY_SLOT, env) ==
            (None, Slot(if env.cleanup then None else Some(env.source[..env.copied]), Absent))
  {
  }

  // ------------------------------------------------------------------ runs

  datatype Call = Call(request: WriteRequest, env: Env)

  /** A run of puts on any keys: the files before each call and after the last. */
  ghost predicate Run(store: Store, files: seq<Files>, calls: seq<Call>) {
    && ValidStore(store) && |files| == |calls| + 1
    && (forall i :: 0 <= i < |calls| ==> ValidRequest(calls[i].request))
    && (forall i :: 0 <= i < |calls| ==> Step(store, files[i], files[i + 1], calls[i]))
  }

  ghost predicate Step(store: Store, files: Files, files': Files, c: Call)
    requires ValidStore(store) && ValidRequest(c.request)
  {
    var key := c.request.key;
    && SlotIn(store, files', key) == Put(store, c.request, SlotIn(store, files, key), c.env).1
    && files' - Paths(key) == files - Paths(key) && Kept(files, files')
  }

  function Return(store: Store, files: Files, c: Call): Option<StoredArtifact>
    requires ValidStore(store) && ValidRequest(c.request)
  {
    Put(store, c.request, SlotIn(store, files, c.request.key), c.env).0
  }

  /** No put of a run, on whatever key, changes or removes a file that was there when it began. */
  lemma {:induction false} KeptThrough(store: Store, files: seq<Files>, calls: seq<Call>, i: nat, j: nat)
    requires Run(store, files, calls) && i <= j <= |calls|
    ensures Kept(files[i], files[j])
    decreases j
  {
    if i < j {
      KeptThrough(store, files, calls, i, j - 1);
      assert Step(store, files[j - 1], files[j - 1 + 1], calls[j - 1]);
    }
  }

  lemma {:induction false} CommittedKept(store: Store, files: Files, files': Files, key: string, s: StoredArtifact)
    requires Kept(files, files') && Committed(store, key, SlotIn(store, files, key), s)
    ensures SlotIn(store, files', key) == SlotIn(store, files, key)
  {
  }

  /** The call gets to read what the key holds. */
  predicate Reads(store: Store, c: Call) { Matches(store, c.request, c.env.checked) && c.env.pathOk && c.env.readOk }

  /** A put on a committed key returns the stored object or raises, one that gets to read the key returning
      it exactly for the same content, and leaves the key as it is; head finds the object. */
  lemma {:induction false} CommittedAnswers(store: Store, slot: Slot, c: Call, s: StoredArtifact)
    requires ValidStore(store) && ValidRequest(c.request) && Committed(store, c.request.key, slot, s)
    ensures var key, out := c.request.key, Put(store, c.request, slot, c.env);
            && out.1 == slot && (out.0.Some? ==> out.0 == Some(s))
            && (Reads(store, c) ==> out.0 == if SameRequest(c.request, s) then Some(s) else None)
            && Head(store, key, None, slot) == Some(s) && Head(store, key, s.versionId, slot) == Some(s)
  {
    CommittedStays(store, c.request, slot, c.env, s);
    CommittedHead(store, c.request.key, slot, s, None);
    CommittedHead(store, c.request.key, slot, s, s.versionId);
    if Reads(store, c) { CommittedPutIff(store, c.request, slot, c.env, s); }
  }

  /** Once a put returned for a key, its bytes and metadata never change again, whatever is put on any key;
      every later put for the key returns the same stored object or raises, one that gets to read the key
      returning it exactly for the same content; and head finds that object. */
  lemma {:induction false} ReturnedForGood(
      store: Store, files: seq<Files>, calls: seq<Call>, i: nat, j: nat)
    requires Run(store, files, calls) && i < j < |calls| && calls[i].request.key == calls[j].request.key
    requires Return(store, files[i], calls[i]).Some?
    ensures var key, s := calls[i].request.key, Return(store, files[i], calls[i]).value;
            && SameRequest(calls[i].request, s)
            && SlotIn(store, files[j], key) == SlotIn(store, files[i + 1], key) == SlotIn(store, files[j + 1], key)
            && (Return(store, files[j], calls[j]).Some? ==> Return(store, files[j], calls[j]) == Some(s))
            && (Reads(store, calls[j]) ==>
                  Return(store, files[j], calls[j]) == if SameRequest(calls[j].request, s) then Some(s) else None)
            && Head(store, key, None, SlotIn(store, files[j], key)) == Some(s)
            && Head(store, key, s.versionId, SlotIn(store, files[j], key)) == Some(s)
  {
    var q, s := calls[i].request, Return(store, files[i], calls[i]).value;
    assert Step(store, files[i], files[i + 1], calls[i]) && Step(store, files[j], files[j + 1], calls[j]);
    PutCommits(store, q, SlotIn(store, files[i], q.key), calls[i].env);
    KeptThrough(store, files, calls, i + 1, j);
    CommittedKept(store, files[i + 1], files[j], q.key, s);
    CommittedAnswers(store, SlotIn(store, files[j], q.key), calls[j], s);
  }

  /** A put on a key that names another key's metadata file leaves that file alone where it exists; where it
      does not, a put that returns has created it, and unless it happens to hold metadata, no request for the
      other key is ever answered. */
  lemma {:induction false} ShadowSpoils(store: Store, files: Files, files': Files, c: Call, key: string)
    requires ValidStore(store) && ValidRequest(c.request) && c.request.key == Shadow(key)
    requires Step(store, files, files', c)
    ensures var before, after := SlotIn(store, files, key), SlotIn(store, files', key);
            && (!before.metadata.Absent? ==> after.metadata == before.metadata)
            && (Return(store, files, c).Some? ==> !after.metadata.Absent?)
            && (after.metadata.Torn? ==> forall q: WriteRequest :: q.key == key ==> !Recoverable(store, q, after))
  {
    ShadowPath(key);
    if Return(store, files, c).Some? {
      PutCommits(store, c.request, SlotIn(store, files, c.request.key), c.env);
    }
  }

  // ------------------------------------------------------------------ recovery

  /** Neither file of the key stands in the way of the request. */
  predicate Recoverable(store: Store, q: WriteRequest, slot: Slot) {
    && (slot.content.Some? ==> Matches(store, q, slot.content.value))
    && match slot.metadata
       case Absent => true
       case Torn => false
       case Present(s) => s.key == q.key && s.storeName == store.name && SameRequest(q, s)
  }

  /** A put that nothing disturbs and whose source holds the requested bytes. */
  predicate Undisturbed(store: Store, q: WriteRequest, env: Env) {
    && Matches(store, q, env.checked) && Matches(store, q, env.source)
    && env.pathOk && env.openOk && env.copyOk && env.readOk && env.fate.Written?
  }

  /** An undisturbed put returns exactly when the key is recoverable for it. */
  lemma {:induction false} RetryReturnsIff(store: Store, q: WriteRequest, slot: Slot, env: Env)
    requires ValidStore(store) && ValidRequest(q) && Undisturbed(store, q, env)
    ensures Put(store, q, slot, env).0.Some? <==> Recoverable(store, q, slot)
  {
  }

  lemma {:induction false} NotAnswered(store: Store, q: WriteRequest, slot: Slot, env: Env)
    requires ValidStore(store) && ValidRequest(q) && !Recoverable(store, q, slot)
    ensures Put(store, q, slot, env).0.None?
  {
  }

  lemma {:induction false} UnrecoverableKept(store: Store, files: Files, files': Files, q: WriteRequest)
    requires Kept(files, files') && !Recoverable(store, q, SlotIn(store, files, q.key))
    ensures !Recoverable(store, q, SlotIn(store, files', q.key))
  {
  }

  /** Once a key is not recoverable for a request, no later put of that request returns, whatever is put on
      any key in between. */
  lemma {:induction false} Unrecoverable(
      store: Store, files: seq<Files>, calls: seq<Call>, i: nat, j: nat)
    requires Run(store, files, calls) && i <= j < |calls|
    requires !Recoverable(store, calls[j].request, SlotIn(store, files[i], calls[j].request.key))
    ensures Return(store, files[j], calls[j]).None?
  {
    var q := calls[j].request;
    KeptThrough(store, files, calls, i, j);
    UnrecoverableKept(store, files[i], files[j], q);
    NotAnswered(store, q, SlotIn(store, files[j], q.key), calls[j].env);
  }

  /** A crash after the object was written and before its metadata existed is repaired by an identical
      put, which then describes the bytes already there. */
  lemma {:induction false} CrashBeforeMetadataRepaired(store: Store, q: WriteRequest, first: Env, again: Env)
    requires ValidStore(store) && ValidRequest(q)
    requires Undisturbed(store, q, first.(fate := Written)) && first.fate.NotCreated? && !first.cleanup
    requires Undisturbed(store, q, again)
    ensures var crashed := Put(store, q, EMPTY_SLOT, first);
            && crashed == (None, Slot(Some(first.source), Absent))
            && var out := Put(store, q, crashed.1, again);
            && out.0 == Some(StoredFor(store, q, again.modified))
            && out.1 == Slot(Some(first.source), Present(out.0.value))
  {
  }

  /** The put gets as far as creating the key's metadata file. */
  predicate ReachesMetadata(store: Store, q: WriteRequest, slot: Slot, env: Env) {
    && Matches(store, q, env.checked) && env.pathOk && slot.metadata.Absent?
    && if slot.content.Some? then env.readOk
       else env.openOk && env.copyOk && Matches(store, q, env.source)
  }

  /** The put leaves an object behind that is not the requested one. */
  predicate LeavesDebris(store: Store, q: WriteRequest, slot: Slot, env: Env) {
    && Matches(store, q, env.checked) && env.pathOk && slot.content.None? && env.openOk && !env.cleanup
    && !Matches(store, q, if env.copyOk then env.source else Partial(env.source, env.copied))
  }

  /** A put on a recoverable key makes it unrecoverable exactly when it is stopped while writing the
      metadata, or leaves partial or wrong bytes that it does not remove. */
  lemma {:induction false} RecoverabilityLostIff(store: Store, q: WriteRequest, slot: Slot, env: Env)
    requires ValidStore(store) && ValidRequest(q) && Recoverable(store, q, slot)
    ensures !Recoverable(store, q, Put(store, q, slot, env).1) <==>
            || (ReachesMetadata(store, q, slot, env) && env.fate.LeftTorn?)
            || LeavesDebris(store, q, slot, env)
  {
  }

  /** Both requests ask for the same stored object. */
  predicate SameContent(q: WriteRequest, other: WriteRequest) {
    && q.sha256 == other.sha256 && q.sizeBytes == other.sizeBytes
    && q.contentType == other.contentType && q.retention == other.retention
  }

  /** The bytes a put that gets to create the object writes to it. */
  function Copied(env: Env): Bytes { if env.copyOk then env.source else Partial(env.source, env.copied) }

  /** A put of `other` on a key without an object leaves one behind: it is stopped before it can clean up, or
      it sees no reason to. */
  predicate LeavesObject(store: Store, other: WriteRequest, slot: Slot, env: Env) {
    && Matches(store, other, env.checked) && env.pathOk && slot.content.None? && env.openOk
    && (!env.cleanup
        || (env.copyOk && Matches(store, other, env.source)
            && match slot.metadata
               case Absent => env.fate.Written?
               case Torn => !env.fate.NotCreated? && !env.readOk
               case Present(s) =>
                 && !env.fate.NotCreated?
                 && (!env.readOk || (s.key == other.key && s.storeName == store.name && SameRequest(other, s)))))
  }

  /** A put of `other` writes metadata that does not answer `q`. */
  predicate WritesForeignMetadata(store: Store, q: WriteRequest, other: WriteRequest, slot: Slot, env: Env) {
    && ReachesMetadata(store, other, slot, env) && !env.fate.NotCreated?
    && (slot.content.Some? ==> Matches(store, other, slot.content.value))
    && (env.fate.LeftTorn? || !SameContent(q, other))
  }

  /** A put of any request on a key that is recoverable for `q` makes it unrecoverable for `q` exactly when it
      writes metadata that is cut off or answers something else, or leaves bytes that `q` did not ask for. */
  lemma {:induction false} RecoverabilityLostToIff(
      store: Store, q: WriteRequest, other: WriteRequest, slot: Slot, env: Env)
    requires ValidStore(store) && ValidRequest(q) && ValidRequest(other) && other.key == q.key
    requires Recoverable(store, q, slot)
    ensures !Recoverable(store, q, Put(store, other, slot, env).1) <==>
            || WritesForeignMetadata(store, q, other, slot, env)
            || (LeavesObject(store, other, slot, env) && !Matches(store, q, Copied(env)))
  {
  }
}
