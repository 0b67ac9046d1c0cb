/**
 * The storage factory: picks the backend for an attachment from its
 * `storage` option, fetching a cached client for the network backends.
 */
module StorageFactory {
  import opened Results
  import opened Attachments
  import opened Objects
  import Validator
  import Stapler
  import AzureBlobStorage

  /**
   * The backends. The filesystem and S3 backends are opaque here: only the
   * arguments they are constructed with are recorded.
   */
  datatype Backend =
    | FilesystemBackend(attachedFile: Attachment)
    | S3Backend(attachedFile: Attachment, s3Client: Obj)
    | AzureBlobBackend(blob: AzureBlobStorage.AzureBlob)

  /** A backend, or the exception `create` would propagate, with the registry after the call. */
  datatype Created = Created(reg: Stapler.Registry, result: Result<Backend, Stapler.StaplerError>)

  /** The client a network backend holds. */
  function ClientOf(b: Backend): Option<Obj> {
    match b
    case FilesystemBackend(_) => None
    case S3Backend(_, client) => Some(client)
    case AzureBlobBackend(blob) => Some(blob.blobClient)
  }

  /**
   * Builds the backend for an attachment. Only `s3` and `azure_blob` consult
   * the client cache; every other kind, recognised or not, gets a filesystem
   * backend and leaves the registry as it was.
   */
  function Create(reg: Stapler.Registry, a: Attachment): (r: Created)
    // create never throws
    ensures r.result.Ok?
    ensures KindOf(a.config.storage) == FilesystemKind || KindOf(a.config.storage) == OtherKind ==>
              r == Created(reg, Ok(FilesystemBackend(a)))
    ensures KindOf(a.config.storage) == S3Kind ==>
              var fetched := Stapler.GetStorageClientInstance(reg, a);
              && fetched.result.Ok?
              && r == Created(fetched.reg, Ok(S3Backend(a, fetched.result.value)))
    ensures KindOf(a.config.storage) == AzureBlobKind ==>
              var fetched := Stapler.GetStorageClientInstance(reg, a);
              && fetched.result.Ok?
              && r == Created(fetched.reg, Ok(AzureBlobBackend(AzureBlobStorage.New(a, fetched.result.value))))
    // a network backend holds exactly the client now cached under the attachment's key
    ensures ClientOf(r.result.value).Some? ==>
              && Stapler.CacheKey(a) in r.reg.storageClients
              && ClientOf(r.result.value).value == r.reg.storageClients[Stapler.CacheKey(a)]
  {
    match KindOf(a.config.storage)
    case FilesystemKind => Created(reg, Ok(FilesystemBackend(a)))
    case S3Kind =>
      var fetched := Stapler.GetStorageClientInstance(reg, a);
      (match fetched.result
       case Ok(client) => Created(fetched.reg, Ok(S3Backend(a, client)))
       case Err(e) => Created(fetched.reg, Err(e)))
    case AzureBlobKind =>
      var fetched := Stapler.GetStorageClientInstance(reg, a);
      (match fetched.result
       case Ok(client) => Created(fetched.reg, Ok(AzureBlobBackend(AzureBlobStorage.New(a, client))))
       case Err(e) => Created(fetched.reg, Err(e)))
    case OtherKind => Created(reg, Ok(FilesystemBackend(a)))
  }

  /** Two creates for one attachment definition share a single client, built at most once. */
  lemma SameDefinitionSharesClient(reg: Stapler.Registry, a1: Attachment, a2: Attachment)
    requires a1.config.storage == a2.config.storage
    requires a1.instanceClass == a2.instanceClass && a1.config.name == a2.config.name
    requires KindOf(a1.config.storage) == S3Kind || KindOf(a1.config.storage) == AzureBlobKind
    ensures var first := Create(reg, a1);
            var second := Create(first.reg, a2);
            && ClientOf(first.result.value).Some?
            && ClientOf(second.result.value) == ClientOf(first.result.value)
            && second.reg == first.reg
            && |first.reg.log| <= |reg.log| + 1
  {
    assert Stapler.CacheKey(a1) == Stapler.CacheKey(a2);
  }

  /** An unset or mistyped kind is never checked and silently becomes a filesystem backend. */
  lemma UnknownKindSkipsValidation(reg: Stapler.Registry, a: Attachment)
    requires KindOf(a.config.storage) == OtherKind
    ensures Validator.ValidateOptions(a.config) == Pass
    ensures Create(reg, a) == Created(reg, Ok(FilesystemBackend(a)))
  {
  }

  /** A url with no ':' has no interpolation token at all. */
  lemma NoColonNoToken(url: string)
    requires forall i :: 0 <= i < |url| ==> url[i] != ':'
    ensures !Validator.HasIdentifyingToken(url)
  {
    forall token | token in [":id", ":id_partition", ":hash", ":secure_hash"]
      ensures !Validator.OccursDelimited(url, token)
    {
      if i :| Validator.DelimitedAt(url, token, i) {
        Validator.DelimitedStartsWith(url, token, i);
      }
    }
  }

  /**
   * So a typo in the storage kind yields a working filesystem backend whose
   * url the filesystem check would have rejected.
   */
  lemma MistypedKindEscapesUrlCheck(o: Options)
    requires o.storage == "filesytem" && o.url == "/system/avatars/original.png"
    ensures !Validator.HasIdentifyingToken(o.url)
    ensures Validator.ValidateFilesystemOptions(o).Fail?
    ensures Validator.ValidateOptions(o) == Pass
    ensures Create(Stapler.Initial(), Attachment("User", o)).result == Ok(FilesystemBackend(Attachment("User", o)))
  {
    NoColonNoToken(o.url);
  }
}
