/**
 * The attachment-options validator: a pure check, run when an attachment is
 * defined, whose only observable effect is whether it throws.
 */
module Validator {
  import opened Results
  import opened Attachments

  /** The exception every failed check throws, with its message. */
  datatype ValidationError = InvalidUrlOption(message: string)

  const FilesystemUrlMessage := "Invalid Url: an id, id_partition, hash, or secure_hash interpolation is required."
  const S3BucketMessage := "Invalid Path: a bucket is required for s3 storage."
  const S3SecretMessage := "Invalid Path: a secret is required for s3 storage."
  const S3KeyMessage := "Invalid Path: a key is required for s3 storage."
  const AzureContainerMessage := "Invalid Path: a container is required for Azure storage."
  const AzureUrlMessage := "Invalid Path: a url is required for Azure storage."
  const AzureNameMessage := "Invalid Path: a name is required for Azure storage."
  const AzureKeyMessage := "Invalid Path: a key is required for Azure storage."

  // ---------------------------------------------------------------------
  // Interpolation tokens followed by a word boundary
  // ---------------------------------------------------------------------

  /** A character of the regex class `\w`: ASCII letters, digits and `_`. */
  predicate IsWordChar(c: char) {
    ('a' <= c <= 'z') || ('A' <= c <= 'Z') || ('0' <= c <= '9') || c == '_'
  }

  /**
   * `token` occurs in `url` at index `i` and is followed by the end of the
   * string or by a non-word character. Every token below ends in a word
   * character, so this is exactly where the pattern `token\b` matches.
   */
  predicate DelimitedAt(url: string, token: string, i: int) {
    && 0 <= i
    && i + |token| <= |url|
    && url[i..i + |token|] == token
    && (i + |token| == |url| || !IsWordChar(url[i + |token|]))
  }

  /** Reference meaning of `preg_match("/token\b/", url) === 1`. */
  ghost predicate OccursDelimited(url: string, token: string) {
    exists i :: DelimitedAt(url, token, i)
  }

  /** The url names a record-unique interpolation: `:id`, `:id_partition`, `:hash` or `:secure_hash`. */
  ghost predicate HasIdentifyingToken(url: string) {
    || OccursDelimited(url, ":id")
    || OccursDelimited(url, ":id_partition")
    || OccursDelimited(url, ":hash")
    || OccursDelimited(url, ":secure_hash")
  }

  /** Left-to-right search for a delimited occurrence of `token` at or after index `from`. */
  function ScanFrom(url: string, token: string, from: nat): (found: bool)
    ensures found <==> exists j :: from <= j && DelimitedAt(url, token, j)
    decreases |url| - from
  {
    if |url| < from + |token| then false
    else DelimitedAt(url, token, from) || ScanFrom(url, token, from + 1)
  }

  /** Executable form of `preg_match("/token\b/", url) === 1`. */
  function Matches(url: string, token: string): (found: bool)
    ensures found <==> OccursDelimited(url, token)
  {
    ScanFrom(url, token, 0)
  }

  // ---------------------------------------------------------------------
  // Required fields, checked in order
  // ---------------------------------------------------------------------

  /** A field that must be truthy, and the message thrown when it is not. */
  datatype Requirement = Requirement(fields: map<string, string>, field: string, message: string)

  predicate Met(q: Requirement) {
    !Falsy(q.fields, q.field)
  }

  /**
   * Reference for a sequence of `if (!field) throw` statements: the first
   * unmet requirement decides the exception; if all are met nothing is thrown.
   */
  function FirstUnmet(reqs: seq<Requirement>): (r: Outcome<ValidationError>)
    ensures r.Pass? <==> forall i :: 0 <= i < |reqs| ==> Met(reqs[i])
    ensures r.Fail? ==> exists i :: && 0 <= i < |reqs|
                                    && !Met(reqs[i])
                                    && (forall j :: 0 <= j < i ==> Met(reqs[j]))
                                    && r.error == InvalidUrlOption(reqs[i].message)
  {
    if reqs == [] then Pass
    else if !Met(reqs[0]) then Fail(InvalidUrlOption(reqs[0].message))
    else
      var rest := FirstUnmet(reqs[1..]);
      assert forall i :: 1 <= i < |reqs| ==> reqs[i] == reqs[1..][i - 1];
      rest
  }

  function S3Requirements(o: Options): seq<Requirement> {
    [ Requirement(o.s3ObjectConfig, "Bucket", S3BucketMessage),
      Requirement(o.s3ClientConfig, "secret", S3SecretMessage),
      Requirement(o.s3ClientConfig, "key", S3KeyMessage) ]
  }

  function AzureBlobRequirements(o: Options): seq<Requirement> {
    [ Requirement(o.azureBlobConfig, "container", AzureContainerMessage),
      Requirement(o.azureBlobConfig, "url", AzureUrlMessage),
      Requirement(o.azureBlobConfig, "name", AzureNameMessage),
      Requirement(o.azureBlobConfig, "key", AzureKeyMessage) ]
  }

  // ---------------------------------------------------------------------
  // The validator
  // ---------------------------------------------------------------------

  /** A filesystem url must carry an identifying interpolation token. */
  function ValidateFilesystemOptions(o: Options): (r: Outcome<ValidationError>)
    ensures r.Pass? <==> HasIdentifyingToken(o.url)
    ensures r.Fail? ==> r.error == InvalidUrlOption(FilesystemUrlMessage)
  {
    if && !Matches(o.url, ":id")
       && !Matches(o.url, ":id_partition")
       && !(Matches(o.url, ":hash") || Matches(o.url, ":secure_hash"))
    then Fail(InvalidUrlOption(FilesystemUrlMessage))
    else Pass
  }

  /** s3 needs a bucket, a secret and a key, checked in that order. */
  function ValidateS3Options(o: Options): (r: Outcome<ValidationError>)
    ensures r.Pass? <==> && !Falsy(o.s3ObjectConfig, "Bucket")
                         && !Falsy(o.s3ClientConfig, "secret")
                         && !Falsy(o.s3ClientConfig, "key")
  {
    if Falsy(o.s3ObjectConfig, "Bucket") then Fail(InvalidUrlOption(S3BucketMessage))
    else if Falsy(o.s3ClientConfig, "secret") then Fail(InvalidUrlOption(S3SecretMessage))
    else if Falsy(o.s3ClientConfig, "key") then Fail(InvalidUrlOption(S3KeyMessage))
    else Pass
  }

  /** azure_blob needs a container, a url, an account name and a key, checked in that order. */
  function ValidateAzureBlobOptions(o: Options): (r: Outcome<ValidationError>)
    ensures r.Pass? <==> && !Falsy(o.azureBlobConfig, "container")
                         && !Falsy(o.azureBlobConfig, "url")
                         && !Falsy(o.azureBlobConfig, "name")
                         && !Falsy(o.azureBlobConfig, "key")
  {
    if Falsy(o.azureBlobConfig, "container") then Fail(InvalidUrlOption(AzureContainerMessage))
    else if Falsy(o.azureBlobConfig, "url") then Fail(InvalidUrlOption(AzureUrlMessage))
    else if Falsy(o.azureBlobConfig, "name") then Fail(InvalidUrlOption(AzureNameMessage))
    else if Falsy(o.azureBlobConfig, "key") then Fail(InvalidUrlOption(AzureKeyMessage))
    else Pass
  }

  /** Dispatch on the storage kind; a kind the switch does not list is not checked. */
  function ValidateOptions(o: Options): (r: Outcome<ValidationError>)
    ensures KindOf(o.storage) == FilesystemKind ==> r == ValidateFilesystemOptions(o)
    ensures KindOf(o.storage) == S3Kind ==> r == ValidateS3Options(o)
    ensures KindOf(o.storage) == AzureBlobKind ==> r == ValidateAzureBlobOptions(o)
    ensures KindOf(o.storage) == OtherKind ==> r == Pass
  {
    match KindOf(o.storage)
    case FilesystemKind => ValidateFilesystemOptions(o)
    case S3Kind => ValidateS3Options(o)
    case AzureBlobKind => ValidateAzureBlobOptions(o)
    case OtherKind => Pass
  }

  // ---------------------------------------------------------------------
  // Properties
  // ---------------------------------------------------------------------

  /** The s3 check throws for the first falsy field among Bucket, secret, key. */
  lemma {:induction false} S3ChecksInOrder(o: Options)
    ensures ValidateS3Options(o) == FirstUnmet(S3Requirements(o))
  {
    var reqs := S3Requirements(o);
    var tail1, tail2 := reqs[1..], reqs[1..][1..];
    assert tail1[0] == reqs[1] && tail2[0] == reqs[2] && tail2[1..] == [];
    assert FirstUnmet(tail2) == if Met(reqs[2]) then Pass else Fail(InvalidUrlOption(S3KeyMessage));
    assert FirstUnmet(tail1) == if Met(reqs[1]) then FirstUnmet(tail2) else Fail(InvalidUrlOption(S3SecretMessage));
  }

  /** The azure_blob check throws for the first falsy field among container, url, name, key. */
  lemma {:induction false} AzureBlobChecksInOrder(o: Options)
    ensures ValidateAzureBlobOptions(o) == FirstUnmet(AzureBlobRequirements(o))
  {
    var reqs := AzureBlobRequirements(o);
    var tail1, tail2, tail3 := reqs[1..], reqs[1..][1..], reqs[1..][1..][1..];
    assert tail1[0] == reqs[1] && tail2[0] == reqs[2] && tail3[0] == reqs[3] && tail3[1..] == [];
    assert FirstUnmet(tail3) == if Met(reqs[3]) then Pass else Fail(InvalidUrlOption(AzureKeyMessage));
    assert FirstUnmet(tail2) == if Met(reqs[2]) then FirstUnmet(tail3) else Fail(InvalidUrlOption(AzureNameMessage));
    assert FirstUnmet(tail1) == if Met(reqs[1]) then FirstUnmet(tail2) else Fail(InvalidUrlOption(AzureUrlMessage));
  }

  /** The fields a kind's check reads agree between two option sets. */
  predicate SameCheckedFields(o: Options, o': Options) {
    && o.storage == o'.storage
    && match KindOf(o.storage)
       case FilesystemKind => o.url == o'.url
       case S3Kind =>
         && Falsy(o.s3ObjectConfig, "Bucket") == Falsy(o'.s3ObjectConfig, "Bucket")
         && Falsy(o.s3ClientConfig, "secret") == Falsy(o'.s3ClientConfig, "secret")
         && Falsy(o.s3ClientConfig, "key") == Falsy(o'.s3ClientConfig, "key")
       case AzureBlobKind =>
         && Falsy(o.azureBlobConfig, "container") == Falsy(o'.azureBlobConfig, "container")
         && Falsy(o.azureBlobConfig, "url") == Falsy(o'.azureBlobConfig, "url")
         && Falsy(o.azureBlobConfig, "name") == Falsy(o'.azureBlobConfig, "name")
         && Falsy(o.azureBlobConfig, "key") == Falsy(o'.azureBlobConfig, "key")
       case OtherKind => true
  }

  /** Each kind inspects only its own fields: everything else can change freely. */
  lemma ValidationReadsOnlyOwnFields(o: Options, o': Options)
    requires SameCheckedFields(o, o')
    ensures ValidateOptions(o) == ValidateOptions(o')
  {
  }

  /** A delimited occurrence is preceded by the token's first character. */
  lemma DelimitedStartsWith(url: string, token: string, i: int)
    requires DelimitedAt(url, token, i) && |token| > 0
    ensures url[i] == token[0]
  {
    assert url[i..i + |token|][0] == url[i];
  }

  /** A token that starts with ':' cannot match a url whose only ':' is at index `k`, unless it matches at `k`. */
  lemma OnlyColonAt(url: string, token: string, k: int)
    requires |token| > 0 && token[0] == ':'
    requires forall i :: 0 <= i < |url| && i != k ==> url[i] != ':'
    requires !DelimitedAt(url, token, k)
    ensures !OccursDelimited(url, token)
  {
    if i :| DelimitedAt(url, token, i) {
      DelimitedStartsWith(url, token, i);
    }
  }

  /**
   * Word-boundary strictness: `:identity`, `:idx` and `:hashes` do not count
   * as identifying tokens, while `:id` before a `/` or at the end does.
   */
  lemma WordBoundaryExamples()
    ensures !HasIdentifyingToken(":identity")
    ensures !HasIdentifyingToken(":idx")
    ensures !HasIdentifyingToken(":hashes")
    ensures HasIdentifyingToken(":id/")
    ensures HasIdentifyingToken("/system/:id")
  {
    forall token | token in [":id", ":id_partition", ":hash", ":secure_hash"]
      ensures !OccursDelimited(":identity", token)
      ensures !OccursDelimited(":idx", token)
      ensures !OccursDelimited(":hashes", token)
    {
      OnlyColonAt(":identity", token, 0);
      OnlyColonAt(":idx", token, 0);
      OnlyColonAt(":hashes", token, 0);
    }
    assert DelimitedAt(":id/", ":id", 0);
    assert DelimitedAt("/system/:id", ":id", 8);
  }
}
