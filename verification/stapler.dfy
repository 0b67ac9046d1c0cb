/**
 * The process-wide static caches of the `Stapler` class, reframed as an
 * explicit registry value threaded through each call: the storage-client
 * cache, the per-type Imagine memo, and the interpolator, validator and
 * config singletons. Every constructor call is appended to `log`, and a
 * constructed object's identity is its position in that log.
 */
module Stapler {
  import opened Results
  import opened Attachments
  import opened Objects

  /** Exceptions and errors surfaced by the registry. */
  datatype StaplerError =
    | InvalidAttachmentConfiguration(message: string)
      // the configured-class singletons dereference an unset config object
    | ConfigNotSet

  datatype Registry = Registry(
    storageClients: map<string, Obj>,
    imageProcessors: map<string, Obj>,
    interpolator: Option<Obj>,
    validator: Option<Obj>,
    config: Option<Obj>,
    log: seq<Construction>)

  /** A registry call that may throw, with the registry after it. */
  datatype Fetch = Fetch(reg: Registry, result: Result<Obj, StaplerError>)

  /** A registry call that cannot throw, with the registry after it. */
  datatype Got = Got(reg: Registry, obj: Obj)

  /** Every static property unset, nothing constructed yet. */
  function Initial(): Registry {
    Registry(map[], map[], None, None, None, [])
  }

  /** The object a constructor call made now would produce. */
  function NextObj(reg: Registry, c: Construction): Obj {
    Obj(|reg.log|, c)
  }

  // ---------------------------------------------------------------------
  // Storage clients
  // ---------------------------------------------------------------------

  /** The cache key of an attachment: storage kind, model class and attachment name, joined by dots. */
  function CacheKey(a: Attachment): (key: string)
    ensures var kind, model, name := a.config.storage, a.instanceClass, a.config.name;
            && |key| == |kind| + 1 + |model| + 1 + |name|
            && key[..|kind|] == kind
            && key[|kind|] == '.'
            && key[|kind| + 1..|kind| + 1 + |model|] == model
            && key[|kind| + 1 + |model|] == '.'
            && key[|key| - |name|..] == name
  {
    a.config.storage + "." + a.instanceClass + "." + a.config.name
  }

  /** Constructor arguments of the client for an attachment, or the exception for an unknown kind. */
  function BuildStorageClient(a: Attachment): (r: Result<ClientSpec, StaplerError>)
    ensures r.Ok? <==> KindOf(a.config.storage) == S3Kind || KindOf(a.config.storage) == AzureBlobKind
    ensures KindOf(a.config.storage) == S3Kind ==> r.value == S3ClientSpec(a.config.s3ClientConfig)
    ensures KindOf(a.config.storage) == AzureBlobKind ==>
              var az := a.config.azureBlobConfig;
              r.value == BlobClientSpec(Lookup(az, "url"), Lookup(az, "name"), Lookup(az, "key"))
    ensures r.Err? ==> r.error == InvalidAttachmentConfiguration("Unknown storage client: " + a.config.storage)
  {
    var storage := a.config.storage;
    if storage == "s3" then Ok(S3ClientSpec(a.config.s3ClientConfig))
    else if storage == "azure_blob" then
      var az := a.config.azureBlobConfig;
      Ok(BlobClientSpec(Lookup(az, "url"), Lookup(az, "name"), Lookup(az, "key")))
    else Err(InvalidAttachmentConfiguration("Unknown storage client: " + storage))
  }

  /** Get-or-build: the cached client for the attachment's key, built and cached on a miss. */
  function GetStorageClientInstance(reg: Registry, a: Attachment): (r: Fetch)
    // a hit returns the stored handle and builds nothing
    ensures CacheKey(a) in reg.storageClients ==>
              r == Fetch(reg, Ok(reg.storageClients[CacheKey(a)]))
    // a failed build leaves the registry untouched
    ensures CacheKey(a) !in reg.storageClients && BuildStorageClient(a).Err? ==>
              r == Fetch(reg, Err(BuildStorageClient(a).error))
    // a miss builds once, and adds exactly one entry holding the new handle
    ensures CacheKey(a) !in reg.storageClients && BuildStorageClient(a).Ok? ==>
              && r.result == Ok(NextObj(reg, BuiltStorageClient(CacheKey(a), BuildStorageClient(a).value)))
              && r.reg.log == reg.log + [BuiltStorageClient(CacheKey(a), BuildStorageClient(a).value)]
              && r.reg.storageClients == reg.storageClients[CacheKey(a) := r.result.value]
              && r.reg == reg.(storageClients := r.reg.storageClients, log := r.reg.log)
    // whatever was returned is what the cache now holds
    ensures r.result.Ok? ==>
              CacheKey(a) in r.reg.storageClients && r.reg.storageClients[CacheKey(a)] == r.result.value
  {
    var key := CacheKey(a);
    if key in reg.storageClients then Fetch(reg, Ok(reg.storageClients[key]))
    else match BuildStorageClient(a)
      case Err(e) => Fetch(reg, Err(e))
      case Ok(spec) =>
        var client := NextObj(reg, BuiltStorageClient(key, spec));
        Fetch(reg.(storageClients := reg.storageClients[key := client], log := reg.log + [client.made]),
              Ok(client))
  }

  /** The S3 accessor is the storage-client accessor under another name. */
  function GetS3ClientInstance(reg: Registry, a: Attachment): (r: Fetch)
    ensures r == GetStorageClientInstance(reg, a)
  {
    GetStorageClientInstance(reg, a)
  }

  /** The blob accessor is the storage-client accessor under another name. */
  function GetAzureBlobClientInstance(reg: Registry, a: Attachment): (r: Fetch)
    ensures r == GetStorageClientInstance(reg, a)
  {
    GetStorageClientInstance(reg, a)
  }

  // ---------------------------------------------------------------------
  // Memoised constructors and singletons
  // ---------------------------------------------------------------------

  /** The Imagine driver of class `imagineClass`, built on first request. */
  function GetImagineInstance(reg: Registry, imagineClass: string): (r: Got)
    ensures imagineClass in reg.imageProcessors ==> r == Got(reg, reg.imageProcessors[imagineClass])
    ensures imagineClass !in reg.imageProcessors ==>
              && r.obj == Obj(|reg.log|, BuiltImagine(imagineClass))
              && r.reg == reg.(imageProcessors := reg.imageProcessors[imagineClass := r.obj],
                               log := reg.log + [r.obj.made])
  {
    if imagineClass in reg.imageProcessors then Got(reg, reg.imageProcessors[imagineClass])
    else
      var driver := NextObj(reg, BuiltImagine(imagineClass));
      Got(reg.(imageProcessors := reg.imageProcessors[imagineClass := driver], log := reg.log + [driver.made]),
          driver)
  }

  /**
   * The interpolator singleton. `boundClass` is what the config object
   * answers for `bindings.interpolator`; asking requires a config object.
   */
  function GetInterpolatorInstance(reg: Registry, boundClass: string): (r: Fetch)
    ensures reg.interpolator.Some? ==> r == Fetch(reg, Ok(reg.interpolator.value))
    ensures reg.interpolator.None? && reg.config.None? ==> r == Fetch(reg, Err(ConfigNotSet))
    ensures reg.interpolator.None? && reg.config.Some? ==>
              && r.result == Ok(Obj(|reg.log|, BuiltInterpolator(boundClass)))
              && r.reg == reg.(interpolator := Some(r.result.value), log := reg.log + [r.result.value.made])
  {
    if reg.interpolator.Some? then Fetch(reg, Ok(reg.interpolator.value))
    else if reg.config.None? then Fetch(reg, Err(ConfigNotSet))
    else
      var interpolator := NextObj(reg, BuiltInterpolator(boundClass));
      Fetch(reg.(interpolator := Some(interpolator), log := reg.log + [interpolator.made]), Ok(interpolator))
  }

  /** The validator singleton, bound through `bindings.validator` like the interpolator. */
  function GetValidatorInstance(reg: Registry, boundClass: string): (r: Fetch)
    ensures reg.validator.Some? ==> r == Fetch(reg, Ok(reg.validator.value))
    ensures reg.validator.None? && reg.config.None? ==> r == Fetch(reg, Err(ConfigNotSet))
    ensures reg.validator.None? && reg.config.Some? ==>
              && r.result == Ok(Obj(|reg.log|, BuiltValidator(boundClass)))
              && r.reg == reg.(validator := Some(r.result.value), log := reg.log + [r.result.value.made])
  {
    if reg.validator.Some? then Fetch(reg, Ok(reg.validator.value))
    else if reg.config.None? then Fetch(reg, Err(ConfigNotSet))
    else
      var validator := NextObj(reg, BuiltValidator(boundClass));
      Fetch(reg.(validator := Some(validator), log := reg.log + [validator.made]), Ok(validator))
  }

  /** The config object; a native config is built only when none is set. */
  function GetConfigInstance(reg: Registry): (r: Got)
    ensures reg.config.Some? ==> r == Got(reg, reg.config.value)
    ensures reg.config.None? ==>
              && r.obj == Obj(|reg.log|, BuiltNativeConfig)
              && r.reg == reg.(config := Some(r.obj), log := reg.log + [BuiltNativeConfig])
  {
    if reg.config.Some? then Got(reg, reg.config.value)
    else
      var native := NextObj(reg, BuiltNativeConfig);
      Got(reg.(config := Some(native), log := reg.log + [native.made]), native)
  }

  /**
   * Installs `cfg` as the config object, replacing any other. It may be an
   * object the application made itself or one a registry call returned
   * earlier, such as the native config `getConfigInstance` built.
   */
  function SetConfigInstance(reg: Registry, cfg: Obj): (r: Registry)
    ensures r.config == Some(cfg)
    ensures r.log == reg.log
    ensures r == reg.(config := r.config)
  {
    reg.(config := Some(cfg))
  }

  /** After `setConfigInstance`, `getConfigInstance` returns that object and builds nothing. */
  lemma SetConfigOverrides(reg: Registry, cfg: Obj)
    ensures GetConfigInstance(SetConfigInstance(reg, cfg)) == Got(SetConfigInstance(reg, cfg), cfg)
  {
  }

  /**
   * `setConfigInstance(getConfigInstance())` on an unset registry installs the
   * native config just built; later gets return it and build nothing more.
   */
  lemma ReinstallBuiltConfig(reg: Registry)
    requires reg.config.None?
    ensures var got := GetConfigInstance(reg);
            var reg' := SetConfigInstance(got.reg, got.obj);
            && got.obj == NextObj(reg, BuiltNativeConfig)
            && reg' == got.reg
            && GetConfigInstance(reg') == Got(reg', got.obj)
  {
  }

  // ---------------------------------------------------------------------
  // Cache keys
  // ---------------------------------------------------------------------

  /** In `s + "." + t` with no dot in `s`, the first dot is at index `|s|`. */
  lemma FirstDot(s: string, t: string)
    requires '.' !in s
    ensures (s + "." + t)[|s|] == '.'
    ensures forall i :: 0 <= i < |s| ==> (s + "." + t)[i] != '.'
  {
    forall i | 0 <= i < |s|
      ensures (s + "." + t)[i] != '.'
    {
      assert (s + "." + t)[i] == s[i];
    }
  }

  /** Joining two parts with a dot is injective when the first part has no dot. */
  lemma DotJoinInjective(s1: string, t1: string, s2: string, t2: string)
    requires '.' !in s1 && '.' !in s2
    requires s1 + "." + t1 == s2 + "." + t2
    ensures s1 == s2 && t1 == t2
  {
    var u := s1 + "." + t1;
    FirstDot(s1, t1);
    FirstDot(s2, t2);
    assert |s1| == |s2|;
    assert s1 == u[..|s1|] == s2;
    assert t1 == u[|s1| + 1..] == t2;
  }

  /** Two attachments share a cache key exactly when kind, class and name agree, provided none contains a dot. */
  lemma CacheKeyInjectiveWithoutDots(a1: Attachment, a2: Attachment)
    requires '.' !in a1.config.storage && '.' !in a1.instanceClass
    requires '.' !in a2.config.storage && '.' !in a2.instanceClass
    ensures CacheKey(a1) == CacheKey(a2) <==>
              && a1.config.storage == a2.config.storage
              && a1.instanceClass == a2.instanceClass
              && a1.config.name == a2.config.name
  {
    if CacheKey(a1) == CacheKey(a2) {
      var rest1 := a1.instanceClass + "." + a1.config.name;
      var rest2 := a2.instanceClass + "." + a2.config.name;
      assert CacheKey(a1) == a1.config.storage + "." + rest1;
      assert CacheKey(a2) == a2.config.storage + "." + rest2;
      DotJoinInjective(a1.config.storage, rest1, a2.config.storage, rest2);
      DotJoinInjective(a1.instanceClass, a1.config.name, a2.instanceClass, a2.config.name);
    }
  }

  /** Without that proviso keys collide: a dot inside the kind or the model class aliases another definition. */
  lemma CacheKeyCollides(o: Options)
    requires o.storage == "s3" && o.name == "b.c"
    ensures var a1 := Attachment("A", o);
            var a2 := Attachment("A.b", o.(name := "c"));
            && a1 != a2
            && CacheKey(a1) == CacheKey(a2)
            && GetStorageClientInstance(GetStorageClientInstance(Initial(), a1).reg, a2).result
               == GetStorageClientInstance(Initial(), a1).result
  {
    var a1 := Attachment("A", o);
    var a2 := Attachment("A.b", o.(name := "c"));
    assert CacheKey(a1) == "s3.A.b.c" == CacheKey(a2);
  }

  // ---------------------------------------------------------------------
  // Get-or-build
  // ---------------------------------------------------------------------

  /** Two calls for one attachment return the same handle, and the pair builds at most once. */
  lemma StorageClientIdempotent(reg: Registry, a: Attachment)
    ensures var first := GetStorageClientInstance(reg, a);
            var second := GetStorageClientInstance(first.reg, a);
            && (first.result.Ok? ==> second == Fetch(first.reg, first.result))
            && (first.result.Err? ==> first.reg == reg && second == first)
            && |second.reg.log| <= |reg.log| + 1
  {
  }

  // ---------------------------------------------------------------------
  // Memoisation across any sequence of calls
  // ---------------------------------------------------------------------

  /** A static property or cache entry that holds one memoised object. */
  datatype Slot =
    | StorageSlot(key: string)
    | ImagineSlot(imagineClass: string)
    | InterpolatorSlot
    | ValidatorSlot
    | ConfigSlot

  /** The slot a constructor call fills. */
  function SlotOf(c: Construction): Slot {
    match c
    case BuiltStorageClient(key, _) => StorageSlot(key)
    case BuiltImagine(imagineClass) => ImagineSlot(imagineClass)
    case BuiltInterpolator(_) => InterpolatorSlot
    case BuiltValidator(_) => ValidatorSlot
    case BuiltNativeConfig => ConfigSlot
    case SuppliedConfig(_) => ConfigSlot
  }

  predicate Filled(reg: Registry, s: Slot) {
    match s
    case StorageSlot(key) => key in reg.storageClients
    case ImagineSlot(imagineClass) => imagineClass in reg.imageProcessors
    case InterpolatorSlot => reg.interpolator.Some?
    case ValidatorSlot => reg.validator.Some?
    case ConfigSlot => reg.config.Some?
  }

  /** How many constructor calls in `log` filled slot `s`. */
  function Builds(log: seq<Construction>, s: Slot): nat {
    if log == [] then 0
    else Builds(log[..|log| - 1], s) + (if SlotOf(log[|log| - 1]) == s then 1 else 0)
  }

  lemma BuildsAppend(log: seq<Construction>, c: Construction, s: Slot)
    ensures Builds(log + [c], s) == Builds(log, s) + (if SlotOf(c) == s then 1 else 0)
  {
    assert (log + [c])[..|log|] == log;
  }

  /** `o` was constructed by this registry: its identity is the index of its constructor call. */
  predicate Issued(reg: Registry, o: Obj) {
    o.id < |reg.log| && reg.log[o.id] == o.made
  }

  /** Each slot was built at most once, and a slot that was built is still filled. */
  ghost predicate BuiltAtMostOnce(reg: Registry) {
    forall s :: Builds(reg.log, s) <= 1 && (Builds(reg.log, s) == 1 ==> Filled(reg, s))
  }

  /** Every cached client was constructed by this registry, for the key it is cached under. */
  ghost predicate ClientsProvenant(reg: Registry) {
    forall key :: key in reg.storageClients ==>
      && Issued(reg, reg.storageClients[key])
      && reg.storageClients[key].made.BuiltStorageClient?
      && reg.storageClients[key].made.key == key
  }

  ghost predicate Memoised(reg: Registry) {
    BuiltAtMostOnce(reg) && ClientsProvenant(reg)
  }

  lemma InitialMemoised()
    ensures Memoised(Initial())
  {
  }

  /** One call into the `Stapler` class, as a step of a longer run. */
  datatype Call =
    | StorageClientCall(attachment: Attachment)
    | ImagineCall(imagineClass: string)
    | InterpolatorCall(boundInterpolator: string)
    | ValidatorCall(boundValidator: string)
    | GetConfigCall
    | SetConfigCall(cfg: Obj)

  function Apply(reg: Registry, call: Call): Registry {
    match call
    case StorageClientCall(a) => GetStorageClientInstance(reg, a).reg
    case ImagineCall(imagineClass) => GetImagineInstance(reg, imagineClass).reg
    case InterpolatorCall(boundClass) => GetInterpolatorInstance(reg, boundClass).reg
    case ValidatorCall(boundClass) => GetValidatorInstance(reg, boundClass).reg
    case GetConfigCall => GetConfigInstance(reg).reg
    case SetConfigCall(cfg) => SetConfigInstance(reg, cfg)
  }

  function Run(reg: Registry, calls: seq<Call>): Registry
    decreases |calls|
  {
    if calls == [] then reg else Run(Apply(reg, calls[0]), calls[1..])
  }

  /** Registry calls only ever append to the construction log. */
  lemma {:induction false} RunExtendsLog(reg: Registry, calls: seq<Call>)
    ensures reg.log <= Run(reg, calls).log
    decreases |calls|
  {
    if calls != [] {
      RunExtendsLog(Apply(reg, calls[0]), calls[1..]);
    }
  }

  /**
   * A config object that already exists when it is installed (built by this
   * registry or made by the application) is never the instance a constructor
   * call returns, however many registry calls follow the install.
   */
  lemma InstalledConfigNeverRebuilt(reg: Registry, cfg: Obj, calls: seq<Call>, c: Construction)
    requires Issued(reg, cfg) || cfg.made.SuppliedConfig?
    requires !c.SuppliedConfig?
    ensures NextObj(Run(SetConfigInstance(reg, cfg), calls), c) != cfg
  {
    RunExtendsLog(SetConfigInstance(reg, cfg), calls);
  }

  /** A constructor call that fills an empty slot, and empties none, keeps every slot built at most once. */
  lemma BuildStepKeepsAtMostOnce(reg: Registry, reg': Registry, c: Construction)
    requires BuiltAtMostOnce(reg)
    requires reg'.log == reg.log + [c]
    requires !Filled(reg, SlotOf(c)) && Filled(reg', SlotOf(c))
    requires forall s :: Filled(reg, s) ==> Filled(reg', s)
    ensures BuiltAtMostOnce(reg')
  {
    forall s
      ensures Builds(reg'.log, s) <= 1 && (Builds(reg'.log, s) == 1 ==> Filled(reg', s))
    {
      BuildsAppend(reg.log, c, s);
      if s == SlotOf(c) {
        assert Builds(reg.log, s) == 0;
      }
    }
  }

  /** Issued objects stay issued when the log grows. */
  lemma ProvenancePersists(reg: Registry, reg': Registry)
    requires ClientsProvenant(reg)
    requires reg.log <= reg'.log
    requires reg'.storageClients == reg.storageClients
    ensures ClientsProvenant(reg')
  {
    forall key | key in reg'.storageClients
      ensures Issued(reg', reg'.storageClients[key])
    {
      var o := reg.storageClients[key];
      assert reg'.log[o.id] == reg.log[o.id];
    }
  }

  /** A storage-client call caches only handles it constructed itself, under their own key. */
  lemma StorageCallKeepsProvenance(reg: Registry, a: Attachment)
    requires ClientsProvenant(reg)
    ensures ClientsProvenant(GetStorageClientInstance(reg, a).reg)
  {
    var reg' := GetStorageClientInstance(reg, a).reg;
    forall k | k in reg'.storageClients
      ensures Issued(reg', reg'.storageClients[k])
    {
      if k != CacheKey(a) {
        var o := reg.storageClients[k];
        assert reg'.log[o.id] == reg.log[o.id];
      }
    }
  }

  lemma ApplyKeepsMemoised(reg: Registry, call: Call)
    requires Memoised(reg)
    ensures Memoised(Apply(reg, call))
  {
    var reg' := Apply(reg, call);
    match call {
      case StorageClientCall(a) =>
        var key := CacheKey(a);
        if key !in reg.storageClients && BuildStorageClient(a).Ok? {
          var c := BuiltStorageClient(key, BuildStorageClient(a).value);
          BuildStepKeepsAtMostOnce(reg, reg', c);
        }
        StorageCallKeepsProvenance(reg, a);
      case ImagineCall(imagineClass) =>
        if imagineClass !in reg.imageProcessors {
          BuildStepKeepsAtMostOnce(reg, reg', BuiltImagine(imagineClass));
          ProvenancePersists(reg, reg');
        }
      case InterpolatorCall(boundClass) =>
        if reg.interpolator.None? && reg.config.Some? {
          BuildStepKeepsAtMostOnce(reg, reg', BuiltInterpolator(boundClass));
          ProvenancePersists(reg, reg');
        }
      case ValidatorCall(boundClass) =>
        if reg.validator.None? && reg.config.Some? {
          BuildStepKeepsAtMostOnce(reg, reg', BuiltValidator(boundClass));
          ProvenancePersists(reg, reg');
        }
      case GetConfigCall =>
        if reg.config.None? {
          BuildStepKeepsAtMostOnce(reg, reg', BuiltNativeConfig);
          ProvenancePersists(reg, reg');
        }
      case SetConfigCall(cfg) =>
        assert forall s :: Builds(reg'.log, s) == Builds(reg.log, s);
    }
  }

  lemma {:induction false} RunKeepsMemoised(reg: Registry, calls: seq<Call>)
    requires Memoised(reg)
    ensures Memoised(Run(reg, calls))
    decreases |calls|
  {
    if calls != [] {
      ApplyKeepsMemoised(reg, calls[0]);
      RunKeepsMemoised(Apply(reg, calls[0]), calls[1..]);
    }
  }

  /**
   * Whatever the sequence of registry calls since process start, each cache
   * entry and each singleton was constructed at most once, and every cached
   * storage client was built for the key it is cached under.
   */
  lemma EachSlotBuiltAtMostOnce(calls: seq<Call>)
    ensures forall s :: Builds(Run(Initial(), calls).log, s) <= 1
    ensures ClientsProvenant(Run(Initial(), calls))
  {
    InitialMemoised();
    RunKeepsMemoised(Initial(), calls);
  }

  /** Clients fetched under different keys are different instances. */
  lemma DistinctKeysDistinctClients(reg: Registry, a1: Attachment, a2: Attachment)
    requires ClientsProvenant(reg)
    requires CacheKey(a1) != CacheKey(a2)
    ensures var first := GetStorageClientInstance(reg, a1);
            var second := GetStorageClientInstance(first.reg, a2);
            first.result.Ok? && second.result.Ok? ==> first.result.value != second.result.value
  {
    StorageCallKeepsProvenance(reg, a1);
  }

  /** Cached entries are never evicted or replaced by any later call. */
  lemma {:induction false} CachedClientsPersist(reg: Registry, calls: seq<Call>, key: string)
    requires key in reg.storageClients
    ensures key in Run(reg, calls).storageClients
    ensures Run(reg, calls).storageClients[key] == reg.storageClients[key]
    decreases |calls|
  {
    if calls != [] {
      CachedClientsPersist(Apply(reg, calls[0]), calls[1..], key);
    }
  }
}
