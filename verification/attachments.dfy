/**
 * The attachment configuration as the storage layer sees it: the options
 * array of one attachment definition and the record class that owns it.
 */
module Attachments {

  /**
   * The options of one attachment definition. The nested configuration
   * arrays are string-keyed maps; a key that is absent is absent from the map.
   */
  datatype Options = Options(
    storage: string,
    name: string,
    url: string,
    path: string,
    s3ObjectConfig: map<string, string>,
    s3ClientConfig: map<string, string>,
    azureBlobConfig: map<string, string>)

  /** An attachment bound to a record of class `instanceClass`. */
  datatype Attachment = Attachment(instanceClass: string, config: Options)

  /** The storage kinds the `switch` statements of the PHP code recognise. */
  datatype StorageKind = FilesystemKind | S3Kind | AzureBlobKind | OtherKind

  /** Classifies the `storage` option; anything but the three names is unrecognised. */
  function KindOf(storage: string): (k: StorageKind)
    ensures k == FilesystemKind <==> storage == "filesystem"
    ensures k == S3Kind <==> storage == "s3"
    ensures k == AzureBlobKind <==> storage == "azure_blob"
  {
    if storage == "filesystem" then FilesystemKind
    else if storage == "s3" then S3Kind
    else if storage == "azure_blob" then AzureBlobKind
    else OtherKind
  }

  /** PHP falsiness of `$fields[$field]`: missing, the empty string, or "0". */
  predicate Falsy(fields: map<string, string>, field: string) {
    field !in fields || fields[field] == "" || fields[field] == "0"
  }

  /** Reading `$fields[$field]` into a string; a missing entry reads as "". */
  function Lookup(fields: map<string, string>, field: string): string {
    if field in fields then fields[field] else ""
  }
}
