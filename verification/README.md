# Stapler storage-backend selection, modelled in Dafny

Stapler attaches files to records and keeps them behind one of three storage
backends: the local filesystem, Amazon S3 or Azure blob storage. This project
models the layer that chooses and feeds those backends:

- the **validator**, which checks an attachment definition's options once, when
  the attachment is defined (`Validator`, `validator.dfy`);
- the **static caches of the `Stapler` class**: the storage-client cache keyed by
  `storage.modelClass.attachmentName`, the per-type Imagine memo, and the
  interpolator, validator and config singletons (`Stapler`, `stapler.dfy`);
- the **storage factory**, which dispatches on the `storage` option
  (`StorageFactory`, `storage_factory.dfy`);
- the **Azure blob backend**, whose `containerExists` flag makes the container
  check happen at most once per instance (`AzureBlobStorage`, `azure_blob.dfy`).

Shared types live in `results.dfy` (Option, Result, Outcome), `attachments.dfy`
(the options record, the storage kind, PHP falsiness) and `objects.dfy` (opaque
constructed objects).

Modelling choices:

- PHP's static properties are reframed as an explicit `Stapler.Registry` value
  that each call takes and returns. Each constructor call is appended to the
  registry's `log`. The object it produces has identity `id`, the position of
  that call in the log. So "the same handle" means equal `Obj` values, and a
  fresh build never equals an object the registry issued earlier or an
  application-made `SuppliedConfig`. `setConfigInstance` accepts any object:
  one the application makes itself (made by `SuppliedConfig`, so it never
  equals a registry build) or one a registry call returned earlier, such as
  the native config `getConfigInstance` built.
- Exceptions are `Result`/`Outcome` values. The validator returns `Pass` or
  `Fail(InvalidUrlOption(message))`, with the messages the PHP code throws.
- The regex `token\b` is modelled directly: the token occurs and is followed by
  the end of the string or by a character outside `[A-Za-z0-9_]`. The reference
  meaning is `Validator.OccursDelimited`. The executable scan is
  `Validator.ScanFrom`.
- A field is falsy when it is absent, `""` or `"0"`. A missing array entry reads
  as `""` (`Attachments.Lookup`).
- Foreign collaborators are parameters. The interpolator is a function
  `(template, attachment, style) -> string`. `getBaseUrl()` is a `baseUrl`
  string. The blob service's reply to the container-exists query is the
  `present` argument of `Move`. For `getInterpolatorInstance` and
  `getValidatorInstance`, the class bound in the config is the `boundClass`
  argument.
- The Azure backend records each client call that `move` and `remove` make,
  and the unlink of the local file, in its `calls` log. The filesystem and S3 backends appear only as the
  constructor arguments the factory passes them.
- The factory reads `$attachment->storage` and the cache reads
  `getConfig()->storage`. Both are modelled as the one `storage` option.

The cache key is a plain string concatenation. `Stapler.CacheKeyCollides` shows
that two different definitions can share a key when the kind or the model class
contains a dot. They then share one client. A dot in the attachment name alone
never causes a collision: the key is injective whenever the kind and class
contain no dot (`Stapler.CacheKeyInjectiveWithoutDots`). The class comes from
`getInstanceClass()`, and a named PHP class cannot contain a dot.

## Model

| member | source | states |
|---|---|---|
| `Validator.ValidateOptions` | src/Validator.php:15-28 | The kinds `filesystem`, `s3` and `azure_blob` run their own check. Any other kind passes, because the switch has no default. The result is only pass or throw. |
| `Validator.ValidateFilesystemOptions` | src/Validator.php:38-43 | A filesystem url passes if and only if it contains `:id`, `:id_partition`, `:hash` or `:secure_hash` at a word boundary. A failure carries the "Invalid Url" message. |
| `Validator.Matches` | src/Validator.php:40 | The executable match on `token\b` agrees in both directions with the reference "occurs, then end or a non-word character". |
| `Validator.ScanFrom` | src/Validator.php:40 | A left-to-right scan from index `from` finds a match exactly when some delimited occurrence starts at or after `from`. |
| `Validator.WordBoundaryExamples` | src/Validator.php:40 | `:identity`, `:idx` and `:hashes` are not identifying tokens. `:id` before `/` and `:id` at the end of the url are. |
| `Validator.ValidateS3Options` | src/Validator.php:53-66 | The s3 check passes exactly when `Bucket`, `secret` and `key` are all truthy. |
| `Validator.S3ChecksInOrder` | src/Validator.php:53-66 | The s3 exception is the one for the first falsy field in the order `Bucket`, `secret`, `key`. |
| `Validator.ValidateAzureBlobOptions` | src/Validator.php:76-93 | The azure_blob check passes exactly when `container`, `url`, `name` and `key` are all truthy. |
| `Validator.AzureBlobChecksInOrder` | src/Validator.php:76-93 | The azure_blob exception is the one for the first falsy field in the order `container`, `url`, `name`, `key`. |
| `Validator.ValidationReadsOnlyOwnFields` | src/Validator.php:17-27 | Two option sets with the same kind, and the same values in the fields that kind checks, validate alike. Every other field can differ. |
| `Stapler.BuildStorageClient` | src/Stapler.php:264-278 | The build succeeds only for `s3` and `azure_blob`. `s3` uses `s3_client_config`. `azure_blob` uses `url`, `name` and `key` of `azure_blob_config`. Any other kind gives "Unknown storage client: kind". |
| `Stapler.GetStorageClientInstance` | src/Stapler.php:214-228 | A hit returns the stored handle and builds nothing. A miss builds the client `buildStorageClient` describes, returns that new instance, and adds exactly that one entry holding it. A failed build leaves the registry untouched. A returned handle is the one now cached under the key. |
| `Stapler.GetS3ClientInstance` | src/Stapler.php:188-191 | Behaves exactly as the storage-client accessor. |
| `Stapler.GetAzureBlobClientInstance` | src/Stapler.php:200-203 | Behaves exactly as the storage-client accessor. |
| `Stapler.CacheKey` | src/Stapler.php:216-219 | The key reads, in order, the storage kind, a dot, the model class, a dot and the attachment name. Each part can be read back from its position. |
| `Stapler.CacheKeyInjectiveWithoutDots` | src/Stapler.php:216-219 | When kind and class contain no dot, two attachments share a key exactly when kind, class and name all agree. |
| `Stapler.CacheKeyCollides` | src/Stapler.php:216-219 | Class `A` with name `b.c`, and class `A.b` with name `c`, get the same key. The second lookup returns the first one's client. |
| `Stapler.StorageClientIdempotent` | src/Stapler.php:214-228 | A second call for the same attachment returns the first call's handle and leaves the registry unchanged. A failed first call changes nothing. The pair of calls builds at most once. |
| `Stapler.DistinctKeysDistinctClients` | src/Stapler.php:221-227 | Calls under different keys return different client instances. |
| `Stapler.CachedClientsPersist` | src/Stapler.php:221-227 | No later registry call evicts or replaces a cached client. |
| `Stapler.GetImagineInstance` | src/Stapler.php:158-165 | A type already memoised returns its driver without building. Otherwise one driver of that type is built and stored. |
| `Stapler.GetInterpolatorInstance` | src/Stapler.php:103-111 | A set singleton is returned as is. An unset one is built once from the bound class. Building it while no config object is set is an error. |
| `Stapler.GetValidatorInstance` | src/Stapler.php:120-128 | Same as the interpolator singleton, for the validator binding. |
| `Stapler.GetConfigInstance` | src/Stapler.php:237-244 | A native config is built only when no config is set. An existing one is returned without building. |
| `Stapler.SetConfigInstance` | src/Stapler.php:251-254 | Installs any given config object, including one the registry built earlier, and builds nothing. |
| `Stapler.SetConfigOverrides` | src/Stapler.php:237-254 | After `setConfigInstance`, `getConfigInstance` returns that object and builds nothing. |
| `Stapler.ReinstallBuiltConfig` | src/Stapler.php:237-254 | `setConfigInstance(getConfigInstance())` on an unset registry installs the native config just built. Later gets return that object and build nothing. |
| `Stapler.InstalledConfigNeverRebuilt` | src/Stapler.php:251-254 | A config object that exists when it is installed, whether the registry built it or the application made it, is never the instance a constructor call returns, after any number of further registry calls. |
| `Stapler.EachSlotBuiltAtMostOnce` | src/Stapler.php:103-244 | Over any sequence of registry calls from process start, each cache entry and singleton is built at most once. Every cached client was built for the key it is stored under. |
| `StorageFactory.Create` | src/Factories/Storage.php:20-43 | `create` never raises the unknown-kind exception, because it asks the cache only for kinds the client builder accepts. `filesystem` and unrecognised kinds give a filesystem backend and leave the cache alone. `s3` and `azure_blob` give their backend holding the client now cached for the attachment. |
| `StorageFactory.SameDefinitionSharesClient` | src/Factories/Storage.php:27-36 | Two creates with the same kind, class and name produce backends holding one client. The second create builds nothing. |
| `StorageFactory.UnknownKindSkipsValidation` | src/Factories/Storage.php:39-40 | An unrecognised kind passes validation unchecked and becomes a filesystem backend. |
| `StorageFactory.MistypedKindEscapesUrlCheck` | src/Factories/Storage.php:39-40 | The kind `filesytem` with a token-free url passes validation and gets a filesystem backend. The filesystem check would have rejected that url. |
| `AzureBlobStorage.New` | src/Storage/AzureBlob.php:31-43 | A new backend has not confirmed its container and has made no client call. |
| `AzureBlobStorage.Url` | src/Storage/AzureBlob.php:52-55 | A url splits into the client's base url, `/`, the container name, and the blob key `path` gives. |
| `AzureBlobStorage.Path` | src/Storage/AzureBlob.php:64-68 | The blob key of a style is the interpolator applied to the attachment's path template (not its url template), the attachment and the style. |
| `AzureBlobStorage.AddressingIsStateless` | src/Storage/AzureBlob.php:52-68 | No sequence of moves and removes changes any style's url or path. |
| `AzureBlobStorage.Remove` | src/Storage/AzureBlob.php:75-80 | Issues exactly one `deleteBlob(container, p)` per path, in input order. Nothing else is called, and the container flag is unchanged. |
| `AzureBlobStorage.Move` | src/Storage/AzureBlob.php:88-94 | The ensure step runs first: a query, plus a create after a negative answer, and only while unconfirmed. Then `putBlob(container, filePath, file)`, then the local file is deleted. Afterwards the container is confirmed. |
| `AzureBlobStorage.EnsureContainerExists` | src/Storage/AzureBlob.php:120-125 | While the container is unconfirmed, the ensure step issues the container-exists query, plus `createContainer` after a negative answer. Once the flag is set, it makes no call. Afterwards the flag is set, and the attachment and client are unchanged. |
| `AzureBlobStorage.BuildContainer` | src/Storage/AzureBlob.php:132-139 | Exactly one container-exists query is issued. `createContainer` is issued only if the client reported the container absent. Then the flag latches. |
| `AzureBlobStorage.AnswerIgnoredOnceConfirmed` | src/Storage/AzureBlob.php:120-125 | Once the container is confirmed, the service's answer no longer affects a move. |
| `AzureBlobStorage.ContainerConfirmedAtMostOnce` | src/Storage/AzureBlob.php:120-139 | Over any sequence of moves and removes on one instance, in runs where no client call throws: at most one container query and at most one create. Every create directly follows a negative answer. Every upload comes after the confirmation. |
| `AzureBlobStorage.FlagLatches` | src/Storage/AzureBlob.php:120-139 | After a run, the flag is set exactly when it was set before or the run contained a move. It never resets. |
| `AzureBlobStorage.GetKeys` | src/Storage/AzureBlob.php:104-113 | Keeps length and order, and wraps each path as `{Key: path}`. |
| `AzureBlobStorage.GetKeysRoundTrip` | src/Storage/AzureBlob.php:104-113 | The paths can be read back from the key entries unchanged. |
| `AzureBlobStorage.GetKeysConcat` | src/Storage/AzureBlob.php:104-113 | Wrapping a concatenation gives the concatenation of the wrappings. |

## Left out

- `boot`: it stores `sha1(time())` and defines a constant. That depends on the clock and on hashing, and holds no logic.
- `getResizerInstance`: image handling. It re-points a shared resizer at an Imagine driver with `setImagine`, which is foreign. The Imagine memo it uses is modelled.
- `createStorageClientKey`: an empty, unused stub with no behaviour.
- Foreign client behaviour (`S3Client::factory`, `BlobClient` and its network calls) is not modelled. Clients are opaque objects, and a failure inside them is not modelled.
- StorageFactory.Create: "never throws" covers only the unknown-kind exception. In PHP, `S3Client::factory` or `new BlobClient` can still throw (src/Stapler.php:269, 274). A client that fails to build is not modelled.
- AzureBlobStorage.ContainerConfirmedAtMostOnce: the bound holds only for runs where no client call throws. In PHP, a `containerExists()` or `createContainer()` that throws leaves the flag false (src/Storage/AzureBlob.php:134-138), and the next `move` queries again. Throwing client calls are not modelled.
- The exception code `1`, passed with every `InvalidUrlOptionException`, is not modelled. It is the same on every path, so it tells no failure apart from another. The exception's message is modelled.
- A failure of `new $className()` in the memoised constructors is foreign to this code and is not modelled.
- The filesystem and S3 backend bodies are not part of this model. The factory only records the constructor arguments it passes.
- Concurrency is not modelled. The caches are unsynchronised static arrays, and calls are modelled one after another.
- PHP loose comparison in `switch` and `==` is not modelled separately. Every kind compared is a non-numeric string, so it acts as string equality.
- PHP falsiness beyond absent, `""` and `"0"` (false, null, 0, empty arrays) is not modelled. Neither are undefined-index notices.
- The `@` in `@unlink` and its suppressed error are not modelled. The unlink is recorded as the `UnlinkLocal` event.
- The regex engine is not modelled. The `token\b` match is stated directly on strings.
- `AzureBlobStorage.Url`: the base url is a parameter, because `getBaseUrl()` belongs to the foreign client.
- `AzureBlobStorage.AddressingIsStateless`: the interpolator is a parameter, because its token grammar is out of scope. Path resolution is stated only as "the interpolator applied to the path template".
