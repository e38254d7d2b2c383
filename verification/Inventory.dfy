/** Writing a bundle to one store and to both (`maais/artifacts/publisher.py`).  What a store answers
    for a file is arbitrary; the publisher accepts an answer only after checking it. */
module Inventory {
  import opened Results
  import opened ArtifactModels
  import opened ArtifactKeys

  datatype BundleFile = BundleFile(relativePath: string, sha256: Digest, sizeBytes: nat, contentType: string)

  datatype Capabilities = Capabilities(
    storeName: string, immutableCreate: bool, exactVersionReads: bool, versioningEnabled: bool,
    objectLockEnabled: bool, complianceRetentionSupported: bool)

  /** The answer to a put: the stored object, a verification or capability error, or any other. */
  datatype PutReply = Stored(artifact: StoredArtifact) | Unverified | Broken

  /** Everything a store answers while one file is published; `None` stands for an exception. */
  datatype Reply = Reply(put: PutReply, head: Option<StoredArtifact>, readBack: Option<(Digest, nat)>)

  datatype Failure = PutFailed | VerificationFailed | PublicationFailed

  /** Where a publication goes: what its object keys and retention are made of. */
  datatype Destination = Destination(
    environment: string, candidateHash: string, experimentId: string, artifactType: string, reportId: string,
    retention: Retention)

  function KeyFor(fold: string -> string, d: Destination, f: BundleFile): Result<string, string> {
    ArtifactKey(fold, KeyParts(d.environment, d.candidateHash, d.experimentId, d.artifactType, d.reportId,
                               f.relativePath))
  }

  predicate MetadataMatches(q: WriteRequest, s: StoredArtifact, c: Capabilities, canonical: bool) {
    && s.storeName == c.storeName && s.key == q.key && s.sha256 == q.sha256 && s.sizeBytes == q.sizeBytes
    && s.contentType == q.contentType && s.retention == q.retention
    && (canonical ==> s.versionId.Some? && s.versionId.value != "")
  }

  /** One turn of the loop: the object the store confirmed for the file, or the failure. */
  function FileAnswer(
      fold: string -> string, c: Capabilities, d: Destination, canonical: bool, f: BundleFile, reply: Reply)
    : Result<StoredArtifact, Failure>
  {
    var key := KeyFor(fold, d, f);
    if key.Err? then Err(PublicationFailed)
    else
      var q := WriteRequest(key.value, f.sha256, f.sizeBytes, f.contentType, d.retention);
      match reply.put
      case Unverified => Err(VerificationFailed)
      case Broken => Err(PutFailed)
      case Stored(put) =>
        if !MetadataMatches(q, put, c, canonical) then Err(VerificationFailed)
        else
          var exact := if c.exactVersionReads then put.versionId else None;
          if reply.head.None? then Err(VerificationFailed)
          else if exact.Some? && reply.head.value.versionId != exact then Err(VerificationFailed)
          else if !MetadataMatches(q, reply.head.value, c, canonical) then Err(VerificationFailed)
          else if reply.readBack != Some((q.sha256, q.sizeBytes)) then Err(VerificationFailed)
          else Ok(reply.head.value)
  }

  /** The object describes the file at its key, in the named store. */
  predicate Describes(fold: string -> string, c: Capabilities, d: Destination, f: BundleFile, s: StoredArtifact) {
    && KeyFor(fold, d, f).Ok?
    && s.key == Join(["maais", d.environment, d.candidateHash, d.experimentId, d.artifactType, d.reportId,
                      f.relativePath])
    && s.storeName == c.storeName && s.sha256 == f.sha256
    && s.sizeBytes == f.sizeBytes && s.contentType == f.contentType && s.retention == d.retention
  }

  /** What the store answered proves the file stored: put and head describe it, under a version where the store
      is the canonical one and under the same version where the store reads exact ones, and the bytes that were
      read back have its digest and size. */
  predicate Proves(
      fold: string -> string, c: Capabilities, d: Destination, canonical: bool, f: BundleFile, reply: Reply)
  {
    && reply.put.Stored? && Describes(fold, c, d, f, reply.put.artifact)
    && reply.head.Some? && Describes(fold, c, d, f, reply.head.value)
    && (canonical ==> reply.put.artifact.versionId.Some? && reply.head.value.versionId.Some?)
    && (c.exactVersionReads && reply.put.artifact.versionId.Some? ==>
          reply.head.value.versionId == reply.put.artifact.versionId)
    && reply.readBack == Some((f.sha256, f.sizeBytes))
  }

  lemma {:induction false} AnswerIff(
      fold: string -> string, c: Capabilities, d: Destination, canonical: bool, f: BundleFile, reply: Reply)
    ensures var answer := FileAnswer(fold, c, d, canonical, f, reply);
            && (answer.Ok? <==> Proves(fold, c, d, canonical, f, reply))
            && (answer.Ok? ==> reply.head == Some(answer.value))
            && (answer == Err(PublicationFailed) <==> KeyFor(fold, d, f).Err?)
            && (answer == Err(PutFailed) <==> KeyFor(fold, d, f).Ok? && reply.put.Broken?)
  {
    var k := KeyParts(d.environment, d.candidateHash, d.experimentId, d.artifactType, d.reportId, f.relativePath);
    assert Segments(k) == ["maais", d.environment, d.candidateHash, d.experimentId, d.artifactType, d.reportId,
                           f.relativePath];
  }

  /** The first file the answers do not prove stored, and why the publication failed there. */
  ghost predicate FailsAt(
      fold: string -> string, c: Capabilities, d: Destination, canonical: bool,
      files: seq<BundleFile>, replies: seq<Reply>, i: nat, failure: Failure)
    requires |replies| == |files|
  {
    && i < |files| && !Proves(fold, c, d, canonical, files[i], replies[i])
    && (forall j :: 0 <= j < i ==> Proves(fold, c, d, canonical, files[j], replies[j]))
    && failure == if KeyFor(fold, d, files[i]).Err? then PublicationFailed
                  else if replies[i].put.Broken? then PutFailed else VerificationFailed
  }

  /** `_publish_store`: the confirmed object of every file in order, or the first failure. */
  method PublishStore(
      fold: string -> string, c: Capabilities, d: Destination, canonical: bool,
      files: seq<BundleFile>, replies: seq<Reply>)
    returns (r: Result<seq<StoredArtifact>, Failure>)
    requires |replies| == |files|
    ensures r.Ok? <==> forall i :: 0 <= i < |files| ==> Proves(fold, c, d, canonical, files[i], replies[i])
    ensures r.Ok? ==> |r.value| == |files| && forall i :: 0 <= i < |files| ==> replies[i].head == Some(r.value[i])
    ensures r.Ok? ==> Confirms(fold, c, d, canonical, files, replies, r.value)
    ensures r.Err? ==> exists i: nat :: FailsAt(fold, c, d, canonical, files, replies, i, r.error)
  {
    var inventory: seq<StoredArtifact> := [];
    for i := 0 to |files|
      invariant |inventory| == i
      invariant forall j :: 0 <= j < i ==>
                  && FileAnswer(fold, c, d, canonical, files[j], replies[j]) == Ok(inventory[j])
                  && Proves(fold, c, d, canonical, files[j], replies[j]) && replies[j].head == Some(inventory[j])
    {
      AnswerIff(fold, c, d, canonical, files[i], replies[i]);
      var answer := FileAnswer(fold, c, d, canonical, files[i], replies[i]);
      if answer.Err? {
        assert FailsAt(fold, c, d, canonical, files, replies, i, answer.error);
        return Err(answer.error);
      }
      inventory := inventory + [answer.value];
    }
    return Ok(inventory);
  }

  // ------------------------------------------------------------------ both stores

  /** The capability requirements on the pair of stores. */
  predicate Capable(replica: Capabilities, canonical: Capabilities) {
    && replica.storeName != canonical.storeName && replica.immutableCreate
    && canonical.immutableCreate && canonical.exactVersionReads && canonical.versioningEnabled
    && canonical.objectLockEnabled && canonical.complianceRetentionSupported
  }

  function TotalFileSize(files: seq<BundleFile>): nat {
    if files == [] then 0 else TotalFileSize(files[..|files| - 1]) + files[|files| - 1].sizeBytes
  }

  /** An inventory that a store confirmed for the files, as `PublishStore` returns it. */
  ghost predicate Confirms(
      fold: string -> string, c: Capabilities, d: Destination, canonical: bool,
      files: seq<BundleFile>, replies: seq<Reply>, inventory: seq<StoredArtifact>)
  {
    && |replies| == |files| && |inventory| == |files|
    && forall i :: 0 <= i < |files| ==> FileAnswer(fold, c, d, canonical, files[i], replies[i]) == Ok(inventory[i])
  }

  lemma {:induction false} ConfirmedDescribes(
      fold: string -> string, c: Capabilities, d: Destination, canonical: bool, f: BundleFile, reply: Reply,
      s: StoredArtifact)
    requires FileAnswer(fold, c, d, canonical, f, reply) == Ok(s)
    ensures Describes(fold, c, d, f, s) && KeyFor(fold, d, f) == Ok(s.key) && (canonical ==> s.versionId.Some?)
  {
    AnswerIff(fold, c, d, canonical, f, reply);
  }

  lemma {:induction false} SizesAgree(files: seq<BundleFile>, inventory: seq<StoredArtifact>)
    requires |inventory| == |files|
    requires forall i :: 0 <= i < |files| ==> inventory[i].sizeBytes == files[i].sizeBytes
    ensures TotalSize(inventory) == TotalFileSize(files)
  {
    if files != [] {
      var n := |files| - 1;
      SizesAgree(files[..n], inventory[..n]);
    }
  }

  /** When both stores confirmed the bundle, the record built from the inventories passes every
      inventory check of its constructor except those on clocks. */
  lemma {:induction false} InventoriesPair(
      fold: string -> string, rc: Capabilities, cc: Capabilities, d: Destination, files: seq<BundleFile>,
      rr: seq<Reply>, cr: seq<Reply>, p: Payload)
    requires Capable(rc, cc) && files != [] && p.sizeBytes == TotalFileSize(files)
    requires Confirms(fold, rc, d, false, files, rr, p.replica)
    requires Confirms(fold, cc, d, true, files, cr, p.canonical)
    ensures InventoriesAgree(p)
    ensures ValidPayload(p) <==> IdentityFields(p) && InventoriesTimely(p)
  {
    forall i | 0 <= i < |files|
      ensures Paired(p.replica[i], p.canonical[i]) && p.replica[i].sizeBytes == files[i].sizeBytes
    {
      ConfirmedDescribes(fold, rc, d, false, files[i], rr[i], p.replica[i]);
      ConfirmedDescribes(fold, cc, d, true, files[i], cr[i], p.canonical[i]);
    }
    SizesAgree(files, p.replica);
  }

  /** Files with different paths are confirmed under different keys. */
  lemma {:induction false} KeysDistinct(
      fold: string -> string, c: Capabilities, d: Destination, canonical: bool,
      files: seq<BundleFile>, replies: seq<Reply>, inventory: seq<StoredArtifact>, i: nat, j: nat)
    requires UuidText(d.experimentId) && Confirms(fold, c, d, canonical, files, replies, inventory)
    requires i < |files| && j < |files| && files[i].relativePath != files[j].relativePath
    ensures inventory[i].key != inventory[j].key
  {
    ConfirmedDescribes(fold, c, d, canonical, files[i], replies[i], inventory[i]);
    ConfirmedDescribes(fold, c, d, canonical, files[j], replies[j], inventory[j]);
    var path := files[i].relativePath;
    var k := KeyParts(d.environment, d.candidateHash, d.experimentId, d.artifactType, d.reportId, path);
    if inventory[i].key == inventory[j].key {
      ArtifactKeyInjective(fold, k, k.(relativePath := files[j].relativePath));
    }
  }
}
