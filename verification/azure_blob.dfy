/**
 * The Azure blob storage backend. It borrows a blob client from the client
 * cache and keeps one piece of state, `containerExists`, which starts false
 * and latches true once the container has been confirmed. The client is
 * opaque: every call made on it (and the deletion of the uploaded local
 * file) is appended to `calls`, and the answer the service would give to
 * the container-exists query is a parameter of `Move`.
 */
module AzureBlobStorage {
  import opened Attachments
  import opened Objects

  /** A call on the blob client, or the deletion of the local upload. */
  datatype BlobEvent =
    | ContainerExistsQuery(container: string, answer: bool)
    | CreateContainer(container: string)
    | PutBlob(container: string, blobPath: string, file: string)
    | DeleteBlob(container: string, blobPath: string)
    | UnlinkLocal(file: string)

  datatype AzureBlob = AzureBlob(
    attachedFile: Attachment,
    blobClient: Obj,
    containerExists: bool,
    calls: seq<BlobEvent>)

  /** The attachment's interpolator: a template, the attachment and a style name to a resolved string. */
  type Interpolator = (string, Attachment, string) -> string

  /** A key entry of the kind S3 batch requests take. */
  datatype KeyEntry = KeyEntry(key: string)

  /** A freshly constructed backend: container not yet confirmed, no client call made. */
  function New(attachedFile: Attachment, blobClient: Obj): (b: AzureBlob)
    ensures !b.containerExists && b.calls == []
    ensures b.attachedFile == attachedFile && b.blobClient == blobClient
  {
    AzureBlob(attachedFile, blobClient, false, [])
  }

  /** The configured container name (`azure_blob_config['container']`). */
  function Container(b: AzureBlob): string {
    Lookup(b.attachedFile.config.azureBlobConfig, "container")
  }

  // ---------------------------------------------------------------------
  // Addressing
  // ---------------------------------------------------------------------

  /**
   * The blob key of a style: the interpolator applied to the attachment's
   * path template (not its url template), the attachment and the style.
   */
  function Path(b: AzureBlob, interpolate: Interpolator, styleName: string): (key: string)
    ensures key == interpolate(b.attachedFile.config.path, b.attachedFile, styleName)
  {
    interpolate(b.attachedFile.config.path, b.attachedFile, styleName)
  }

  /** The public url of a style, given the base url the client reports. */
  function Url(b: AzureBlob, baseUrl: string, interpolate: Interpolator, styleName: string): (u: string)
    ensures var key := Path(b, interpolate, styleName);
            && |u| == |baseUrl| + 1 + |Container(b)| + |key|
            && u[..|baseUrl|] == baseUrl
            && u[|baseUrl|] == '/'
            && u[|baseUrl| + 1..|baseUrl| + 1 + |Container(b)|] == Container(b)
            && u[|u| - |key|..] == key
  {
    baseUrl + "/" + Container(b) + Path(b, interpolate, styleName)
  }

  // ---------------------------------------------------------------------
  // Operations on the client
  // ---------------------------------------------------------------------

  /** One `deleteBlob` per path, in the order given; the container flag is untouched. */
  function Remove(b: AzureBlob, filePaths: seq<string>): (b': AzureBlob)
    ensures b'.attachedFile == b.attachedFile && b'.blobClient == b.blobClient
    ensures b'.containerExists == b.containerExists
    ensures |b'.calls| == |b.calls| + |filePaths|
    ensures b'.calls[..|b.calls|] == b.calls
    ensures forall i :: 0 <= i < |filePaths| ==>
              b'.calls[|b.calls| + i] == DeleteBlob(Container(b), filePaths[i])
    decreases |filePaths|
  {
    if filePaths == [] then b
    else
      var b1 := b.(calls := b.calls + [DeleteBlob(Container(b), filePaths[0])]);
      var b' := Remove(b1, filePaths[1..]);
      assert forall i :: 1 <= i < |filePaths| ==> filePaths[i] == filePaths[1..][i - 1];
      assert b'.calls[..|b.calls|] == b1.calls[..|b.calls|];
      b'
  }

  /** Asks whether the container exists, creates it if the client says it does not, and latches the flag. */
  function BuildContainer(b: AzureBlob, containerName: string, present: bool): (b': AzureBlob)
    ensures b'.containerExists
    ensures b'.attachedFile == b.attachedFile && b'.blobClient == b.blobClient
    ensures b'.calls == b.calls + [ContainerExistsQuery(containerName, present)]
                                + (if present then [] else [CreateContainer(containerName)])
  {
    var asked := b.(calls := b.calls + [ContainerExistsQuery(containerName, present)]);
    var created := if present then asked else asked.(calls := asked.calls + [CreateContainer(containerName)]);
    created.(containerExists := true)
  }

  /** Builds the container only while it has not been confirmed on this instance. */
  function EnsureContainerExists(b: AzureBlob, containerName: string, present: bool): (b': AzureBlob)
    ensures b'.containerExists
    ensures b'.attachedFile == b.attachedFile && b'.blobClient == b.blobClient
    ensures b.containerExists ==> b' == b
    ensures !b.containerExists ==>
              b'.calls == b.calls + [ContainerExistsQuery(containerName, present)]
                                  + (if present then [] else [CreateContainer(containerName)])
  {
    if !b.containerExists then BuildContainer(b, containerName, present) else b
  }

  /**
   * Uploads `file` as blob `filePath`: the ensure step, then `putBlob`, then the
   * local file is deleted. `present` is the client's answer to the
   * container-exists query, used only if that query is made.
   */
  function Move(b: AzureBlob, file: string, filePath: string, present: bool): (b': AzureBlob)
    ensures b'.containerExists
    ensures b'.attachedFile == b.attachedFile && b'.blobClient == b.blobClient
    ensures b.calls <= b'.calls
    ensures |b'.calls| >= |b.calls| + 2
    ensures b'.calls[|b'.calls| - 2..] == [PutBlob(Container(b), filePath, file), UnlinkLocal(file)]
    // once confirmed, the container is neither queried nor created again
    ensures b.containerExists ==> |b'.calls| == |b.calls| + 2
    // otherwise the query comes first, and a create follows only a negative answer
    ensures !b.containerExists ==>
              && b'.calls[|b.calls|] == ContainerExistsQuery(Container(b), present)
              && |b'.calls| == |b.calls| + (if present then 3 else 4)
              && (!present ==> b'.calls[|b.calls| + 1] == CreateContainer(Container(b)))
  {
    var ensured := EnsureContainerExists(b, Container(b), present);
    var uploaded := ensured.(calls := ensured.calls + [PutBlob(Container(b), filePath, file)]);
    uploaded.(calls := uploaded.calls + [UnlinkLocal(file)])
  }

  /** Wraps each path as a key entry, keeping length and order. */
  function GetKeys(filePaths: seq<string>): (keys: seq<KeyEntry>)
    ensures |keys| == |filePaths|
    ensures forall i :: 0 <= i < |filePaths| ==> keys[i] == KeyEntry(filePaths[i])
  {
    if filePaths == [] then []
    else [KeyEntry(filePaths[0])] + GetKeys(filePaths[1..])
  }

  /** The paths the key entries name. */
  function KeyPaths(keys: seq<KeyEntry>): seq<string> {
    seq(|keys|, i requires 0 <= i < |keys| => keys[i].key)
  }

  /** Wrapping loses nothing: the paths can be read back from the key entries. */
  lemma GetKeysRoundTrip(filePaths: seq<string>)
    ensures KeyPaths(GetKeys(filePaths)) == filePaths
  {
  }

  /** Wrapping commutes with concatenation, so the order of the paths is kept. */
  lemma {:induction false} GetKeysConcat(p: seq<string>, q: seq<string>)
    ensures GetKeys(p + q) == GetKeys(p) + GetKeys(q)
  {
    var lhs, rhs := GetKeys(p + q), GetKeys(p) + GetKeys(q);
    assert |lhs| == |rhs|;
    forall i | 0 <= i < |lhs|
      ensures lhs[i] == rhs[i]
    {
      if i < |p| {
        assert (p + q)[i] == p[i];
      } else {
        assert (p + q)[i] == q[i - |p|];
      }
    }
  }

  // ---------------------------------------------------------------------
  // The container-confirmation protocol
  // ---------------------------------------------------------------------

  /** Number of container-exists queries in a call log. */
  function Queries(calls: seq<BlobEvent>): nat {
    if calls == [] then 0
    else Queries(calls[..|calls| - 1]) + (if calls[|calls| - 1].ContainerExistsQuery? then 1 else 0)
  }

  /** Number of container creations in a call log. */
  function Creates(calls: seq<BlobEvent>): nat {
    if calls == [] then 0
    else Creates(calls[..|calls| - 1]) + (if calls[|calls| - 1].CreateContainer? then 1 else 0)
  }

  lemma CountsAppend(calls: seq<BlobEvent>, e: BlobEvent)
    ensures Queries(calls + [e]) == Queries(calls) + (if e.ContainerExistsQuery? then 1 else 0)
    ensures Creates(calls + [e]) == Creates(calls) + (if e.CreateContainer? then 1 else 0)
  {
    assert (calls + [e])[..|calls|] == calls;
  }

  /**
   * The protocol invariant of one instance: the container was queried once
   * if the flag is set and never otherwise; a create only ever directly
   * follows a query that reported the container absent; every upload came
   * after the container was confirmed.
   */
  ghost predicate Valid(b: AzureBlob) {
    && Queries(b.calls) == (if b.containerExists then 1 else 0)
    && Creates(b.calls) <= Queries(b.calls)
    && (forall i :: 0 <= i < |b.calls| && b.calls[i].CreateContainer? ==>
          0 < i && b.calls[i - 1] == ContainerExistsQuery(b.calls[i].container, false))
    && (forall i :: 0 <= i < |b.calls| && b.calls[i].PutBlob? ==> Queries(b.calls[..i]) == 1)
  }

  lemma NewIsValid(attachedFile: Attachment, blobClient: Obj)
    ensures Valid(New(attachedFile, blobClient))
  {
  }

  /** Appending one event to the log keeps the earlier events and their prefixes. */
  lemma AppendKeepsPrefixes(calls: seq<BlobEvent>, e: BlobEvent)
    ensures forall i :: 0 <= i < |calls| ==> (calls + [e])[i] == calls[i]
    ensures forall i :: 0 <= i <= |calls| ==> (calls + [e])[..i] == calls[..i]
  {
  }

  /** Appending an event that is neither a query, a create nor an upload keeps the invariant. */
  lemma AppendNeutralKeepsValid(b: AzureBlob, e: BlobEvent)
    requires Valid(b)
    requires e.DeleteBlob? || e.UnlinkLocal?
    ensures Valid(b.(calls := b.calls + [e]))
  {
    CountsAppend(b.calls, e);
    AppendKeepsPrefixes(b.calls, e);
  }

  lemma {:induction false} RemoveKeepsValid(b: AzureBlob, filePaths: seq<string>)
    requires Valid(b)
    ensures Valid(Remove(b, filePaths))
    decreases |filePaths|
  {
    if filePaths != [] {
      var b1 := b.(calls := b.calls + [DeleteBlob(Container(b), filePaths[0])]);
      AppendNeutralKeepsValid(b, DeleteBlob(Container(b), filePaths[0]));
      RemoveKeepsValid(b1, filePaths[1..]);
    }
  }

  /** Appending a create that directly follows a negative query keeps the invariant. */
  lemma AppendCreateKeepsValid(b: AzureBlob, c: string)
    requires Valid(b)
    requires Creates(b.calls) < Queries(b.calls)
    requires |b.calls| > 0 && b.calls[|b.calls| - 1] == ContainerExistsQuery(c, false)
    ensures Valid(b.(calls := b.calls + [CreateContainer(c)]))
  {
    CountsAppend(b.calls, CreateContainer(c));
    AppendKeepsPrefixes(b.calls, CreateContainer(c));
  }

  /** Appending the first query and setting the flag keeps the invariant. */
  lemma AppendQueryKeepsValid(b: AzureBlob, c: string, present: bool)
    requires Valid(b) && !b.containerExists
    ensures Valid(b.(calls := b.calls + [ContainerExistsQuery(c, present)], containerExists := true))
  {
    CountsAppend(b.calls, ContainerExistsQuery(c, present));
    AppendKeepsPrefixes(b.calls, ContainerExistsQuery(c, present));
  }

  /** The first confirmation queries once, creates at most once, and sets the flag. */
  lemma BuildContainerKeepsValid(b: AzureBlob, c: string, present: bool)
    requires Valid(b) && !b.containerExists
    ensures Valid(BuildContainer(b, c, present))
  {
    var asked := b.(calls := b.calls + [ContainerExistsQuery(c, present)], containerExists := true);
    AppendQueryKeepsValid(b, c, present);
    CountsAppend(b.calls, ContainerExistsQuery(c, present));
    if !present {
      AppendCreateKeepsValid(asked, c);
      assert BuildContainer(b, c, present) == asked.(calls := asked.calls + [CreateContainer(c)]);
    }
  }

  /** Appending an upload once the container is confirmed keeps the invariant. */
  lemma AppendPutKeepsValid(b: AzureBlob, e: BlobEvent)
    requires Valid(b) && b.containerExists && e.PutBlob?
    ensures Valid(b.(calls := b.calls + [e]))
  {
    CountsAppend(b.calls, e);
    AppendKeepsPrefixes(b.calls, e);
    assert (b.calls + [e])[..|b.calls|] == b.calls;
  }

  lemma MoveKeepsValid(b: AzureBlob, file: string, filePath: string, present: bool)
    requires Valid(b)
    ensures Valid(Move(b, file, filePath, present))
  {
    var ensured := EnsureContainerExists(b, Container(b), present);
    if !b.containerExists {
      BuildContainerKeepsValid(b, Container(b), present);
    }
    var uploaded := ensured.(calls := ensured.calls + [PutBlob(Container(b), filePath, file)]);
    AppendPutKeepsValid(ensured, PutBlob(Container(b), filePath, file));
    AppendNeutralKeepsValid(uploaded, UnlinkLocal(file));
  }

  /** One operation a caller performs on the backend. */
  datatype Op =
    | MoveOp(file: string, filePath: string, containerPresent: bool)
    | RemoveOp(filePaths: seq<string>)

  function Apply(b: AzureBlob, op: Op): AzureBlob {
    match op
    case MoveOp(file, filePath, present) => Move(b, file, filePath, present)
    case RemoveOp(filePaths) => Remove(b, filePaths)
  }

  function Run(b: AzureBlob, ops: seq<Op>): AzureBlob
    decreases |ops|
  {
    if ops == [] then b else Run(Apply(b, ops[0]), ops[1..])
  }

  lemma {:induction false} RunKeepsValid(b: AzureBlob, ops: seq<Op>)
    requires Valid(b)
    ensures Valid(Run(b, ops))
    decreases |ops|
  {
    if ops != [] {
      match ops[0] {
        case MoveOp(file, filePath, present) => MoveKeepsValid(b, file, filePath, present);
        case RemoveOp(filePaths) => RemoveKeepsValid(b, filePaths);
      }
      RunKeepsValid(Apply(b, ops[0]), ops[1..]);
    }
  }

  /**
   * However many moves and removes follow construction, the client is asked
   * whether the container exists at most once and asked to create it at most
   * once; a create only follows a negative answer and every upload follows
   * the confirmation.
   */
  lemma ContainerConfirmedAtMostOnce(attachedFile: Attachment, blobClient: Obj, ops: seq<Op>)
    ensures var b := Run(New(attachedFile, blobClient), ops);
            && Queries(b.calls) <= 1
            && Creates(b.calls) <= 1
            && (forall i :: 0 <= i < |b.calls| && b.calls[i].CreateContainer? ==>
                  0 < i && b.calls[i - 1] == ContainerExistsQuery(b.calls[i].container, false))
            && (forall i :: 0 <= i < |b.calls| && b.calls[i].PutBlob? ==> Queries(b.calls[..i]) == 1)
  {
    NewIsValid(attachedFile, blobClient);
    RunKeepsValid(New(attachedFile, blobClient), ops);
  }

  /** The flag is set after a run exactly when it was set before or the run contains a move: it latches. */
  lemma {:induction false} FlagLatches(b: AzureBlob, ops: seq<Op>)
    ensures Run(b, ops).containerExists <==>
              b.containerExists || exists i :: 0 <= i < |ops| && ops[i].MoveOp?
    decreases |ops|
  {
    if ops != [] {
      FlagLatches(Apply(b, ops[0]), ops[1..]);
      assert forall i :: 1 <= i < |ops| ==> ops[i] == ops[1..][i - 1];
      if exists i :: 0 <= i < |ops[1..]| && ops[1..][i].MoveOp? {
        var i :| 0 <= i < |ops[1..]| && ops[1..][i].MoveOp?;
        assert ops[i + 1].MoveOp?;
      }
    }
  }

  /** Once the container is confirmed, the service's answer no longer matters. */
  lemma AnswerIgnoredOnceConfirmed(b: AzureBlob, file: string, filePath: string)
    requires b.containerExists
    ensures Move(b, file, filePath, true) == Move(b, file, filePath, false)
  {
  }

  /** Operations never change the attachment or client, so urls and paths are the same before and after. */
  lemma {:induction false} AddressingIsStateless(b: AzureBlob, ops: seq<Op>, baseUrl: string,
                                                 interpolate: Interpolator, styleName: string)
    ensures Path(Run(b, ops), interpolate, styleName) == Path(b, interpolate, styleName)
    ensures Url(Run(b, ops), baseUrl, interpolate, styleName) == Url(b, baseUrl, interpolate, styleName)
    decreases |ops|
  {
    if ops != [] {
      AddressingIsStateless(Apply(b, ops[0]), ops[1..], baseUrl, interpolate, styleName);
    }
  }
}
