/**
 * Naming of snapshots (src/core.js): the object key a snapshot is stored under,
 * the bucket/key pair handed to the object store, and the prefix every path
 * carries inside a snapshot archive.
 *
 * `path.join` is taken as plain concatenation with the separator `/`.
 */
module Keys {
  import opened Wrappers
  import opened Text

  /** The directory every file is stored under inside a snapshot archive. */
  const TarPrefix: string := "artifacts"

  /** The path separator. */
  const Sep: string := "/"

  /** The storage options a policy carries (`policy.storage.options`). */
  datatype StorageOptions = StorageOptions(bucket: string, region: Option<string>, prefix: Option<string>)

  /** The `{ Bucket, Key }` parameter object of the object-store calls. */
  datatype BaseObject = BaseObject(bucket: string, key: string)

  /** JavaScript truthiness of an optional string: present and non-empty. */
  predicate Truthy(v: Option<string>) {
    v.Some? && v.value != ""
  }

  /** The file name of the snapshot of `baseCommit`. */
  function ArchiveName(baseCommit: string): string {
    "groundskeeper-artifacts-" + baseCommit + ".tar.gz"
  }

  /** `maybePrefix`: joins `path` under `prefix` only when the prefix is truthy. */
  function MaybePrefix(prefix: Option<string>, path: string): string {
    if Truthy(prefix) then prefix.value + Sep + path else path
  }

  /**
   * `getKey`: the object key of the snapshot of `baseCommit`. It always ends
   * with the snapshot's file name, and carries the prefix exactly when the
   * prefix is truthy.
   */
  function GetKey(options: StorageOptions, baseCommit: string): (key: string)
    ensures EndsWith(key, ArchiveName(baseCommit))
    ensures Truthy(options.prefix) ==> StartsWith(key, options.prefix.value + Sep)
    ensures Truthy(options.prefix) ==> |key| == |options.prefix.value| + 1 + |ArchiveName(baseCommit)|
    ensures !Truthy(options.prefix) ==> key == ArchiveName(baseCommit)
  {
    MaybePrefix(options.prefix, ArchiveName(baseCommit))
  }

  /** The key depends on the prefix and the commit only: bucket and region play no part. */
  lemma GetKeyDependsOnPrefixOnly(o1: StorageOptions, o2: StorageOptions, baseCommit: string)
    requires o1.prefix == o2.prefix
    ensures GetKey(o1, baseCommit) == GetKey(o2, baseCommit)
  {
  }

  /** Under one prefix, distinct commits never share a key: each commit has its own snapshot. */
  lemma GetKeyInjective(options: StorageOptions, c1: string, c2: string)
    requires GetKey(options, c1) == GetKey(options, c2)
    ensures c1 == c2
  {
    var head := MaybePrefix(options.prefix, "") + "groundskeeper-artifacts-";
    var tail := ".tar.gz";
    KeyParts(options, c1);
    KeyParts(options, c2);
    Middle(head, c1, tail);
    Middle(head, c2, tail);
  }

  /** The key of a commit is the commit between a fixed head and a fixed tail. */
  lemma KeyParts(options: StorageOptions, c: string)
    ensures GetKey(options, c) == MaybePrefix(options.prefix, "") + "groundskeeper-artifacts-" + c + ".tar.gz"
  {
  }

  lemma Middle(a: string, b: string, c: string)
    ensures (a + b + c)[|a|..|a + b + c| - |c|] == b
  {
    assert (a + b + c)[|a|..|a| + |b|] == b;
  }

  /** `getBaseObject`: the bucket of the options and the key of the commit. */
  function GetBaseObject(options: StorageOptions, baseCommit: string): (obj: BaseObject)
    ensures obj.bucket == options.bucket
    ensures EndsWith(obj.key, ArchiveName(baseCommit))
    ensures obj.key == GetKey(options, baseCommit)
  {
    BaseObject(options.bucket, GetKey(options, baseCommit))
  }

  /** The `s3://bucket/key` URI of an object. */
  function ObjectUri(obj: BaseObject): string {
    "s3://" + obj.bucket + "/" + obj.key
  }

  /**
   * `stripPrefix`: drops `prefix + "/"` from the front of an archive path that
   * starts with it and leaves every other path alone.
   */
  function StripPrefix(filePath: string, prefix: string): (r: string)
    ensures StartsWith(filePath, prefix + Sep) ==> filePath == prefix + Sep + r
    ensures !StartsWith(filePath, prefix + Sep) ==> r == filePath
  {
    if StartsWith(filePath, prefix + Sep) then filePath[|prefix| + |Sep|..] else filePath
  }

  /** Stripping undoes the prefixing done when a snapshot is packed. */
  lemma StripPrefixRoundTrip(path: string, prefix: string)
    ensures StripPrefix(prefix + Sep + path, prefix) == path
  {
    assert StartsWith(prefix + Sep + path, prefix + Sep);
  }
}
