/**
 * Objects the storage layer constructs. Foreign classes (the S3 and blob
 * clients, Imagine drivers, the configured interpolator and validator classes)
 * are opaque: an object is known only by its identity and by the construction
 * that produced it.
 */
module Objects {

  /** The arguments a storage client was constructed from. */
  datatype ClientSpec =
    | S3ClientSpec(clientConfig: map<string, string>)
    | BlobClientSpec(url: string, accountName: string, accountKey: string)

  /** One constructor call, as recorded in the registry's construction log. */
  datatype Construction =
    | BuiltStorageClient(key: string, spec: ClientSpec)
    | BuiltImagine(imagineClass: string)
    | BuiltInterpolator(interpolatorClass: string)
    | BuiltValidator(validatorClass: string)
    | BuiltNativeConfig
      // a config object the application constructed itself and handed over
    | SuppliedConfig(tag: nat)

  /**
   * An object: two objects are the same instance exactly when they are equal
   * as values. For an object the registry built, `id` is the position of its
   * constructor call in the registry log; a config object the application
   * makes itself is `SuppliedConfig`-made, so it never equals a registry build.
   */
  datatype Obj = Obj(id: nat, made: Construction)
}
