/** The blob store the image actions use: buckets with their upload limits
    and the objects stored in them, the bootstrap `ensurePhotosBucket`, and
    the upload and remove calls. Whether the service answers at all is an
    input to each call. */
module Storage {
  import opened Common

  const PhotosBucket := "photos"

  /** A bucket's settings; a bucket made elsewhere may set no limits. */
  datatype BucketConfig = BucketConfig(isPublic: bool, fileSizeLimit: Option<nat>, allowedMimeTypes: Option<seq<string>>)

  /** The settings `ensurePhotosBucket` creates the bucket with. */
  const PhotosBucketConfig := BucketConfig(
    true,
    Some(5 * 1024 * 1024),
    Some(["image/jpeg", "image/png", "image/gif", "image/webp", "image/svg+xml"]))

  /** What a call that can throw gives back. */
  datatype Outcome<+T> = Returned(value: T) | Threw(message: string)

  /** The bucket's limits admit an object of this type and size. */
  predicate Admits(config: BucketConfig, mimeType: string, size: nat) {
    && (config.fileSizeLimit.Some? ==> size <= config.fileSizeLimit.value)
    && (config.allowedMimeTypes.Some? ==> mimeType in config.allowedMimeTypes.value)
  }

  class BlobStore {
    var buckets: map<string, BucketConfig>
    /** (bucket, path) of every stored object. */
    var objects: set<(string, string)>

    constructor ()
      ensures buckets == map[] && objects == {}
    {
      buckets, objects := map[], {};
    }

    /** `upload(path, file, { upsert: false })`: refused when the service
        fails, the bucket is missing, the path is taken or the bucket's
        limits refuse the file. */
    method Upload(bucket: string, path: string, mimeType: string, size: nat, serviceUp: bool) returns (ok: bool)
      modifies this`objects
      ensures ok <==> serviceUp && bucket in buckets && (bucket, path) !in old(objects)
                      && Admits(buckets[bucket], mimeType, size)
      ensures ok ==> objects == old(objects) + {(bucket, path)}
      ensures !ok ==> objects == old(objects)
    {
      ok := serviceUp && bucket in buckets && (bucket, path) !in objects && Admits(buckets[bucket], mimeType, size);
      if ok {
        objects := objects + {(bucket, path)};
      }
    }

    /** `remove([path])`: removing a path that holds nothing is not an
        error; when the service fails nothing is removed. */
    method Remove(bucket: string, path: string, serviceUp: bool) returns (ok: bool)
      modifies this`objects
      ensures ok == serviceUp
      ensures ok ==> objects == old(objects) - {(bucket, path)}
      ensures !ok ==> objects == old(objects)
    {
      ok := serviceUp;
      if ok {
        objects := objects - {(bucket, path)};
      }
    }
  }

  /** `getPhotosBucketName()` */
  function GetPhotosBucketName(): (name: string)
    ensures name == PhotosBucket
  {
    PhotosBucket
  }

  /** `ensurePhotosBucket()`: list the buckets, create "photos" only when it
      is absent, and return its name. `listFails` and `createFails` are the
      service's answers. */
  method EnsurePhotosBucket(store: BlobStore, listFails: bool, createFails: bool) returns (r: Outcome<string>)
    modifies store`buckets
    ensures listFails ==> r == Threw("Failed to check storage buckets")
    ensures !listFails && PhotosBucket in old(store.buckets) ==> r == Returned(GetPhotosBucketName())
    ensures !listFails && PhotosBucket !in old(store.buckets) && createFails ==>
      r == Threw("Failed to create storage bucket")
    ensures !listFails && PhotosBucket !in old(store.buckets) && !createFails ==>
      r == Returned(GetPhotosBucketName()) && store.buckets == old(store.buckets)[PhotosBucket := PhotosBucketConfig]
    ensures !(!listFails && PhotosBucket !in old(store.buckets) && !createFails) ==> store.buckets == old(store.buckets)
    ensures r.Returned? ==> PhotosBucket in store.buckets
  {
    if listFails {
      return Threw("Failed to check storage buckets");
    }
    var bucketExists := PhotosBucket in store.buckets;
    if !bucketExists {
      if createFails {
        return Threw("Failed to create storage bucket");
      }
      store.buckets := store.buckets[PhotosBucket := PhotosBucketConfig];
    }
    return Returned(PhotosBucket);
  }

  /** A second `ensurePhotosBucket` after a successful one creates nothing:
      the bucket it checks for is there. */
  method EnsureTwice(store: BlobStore, list1: bool, create1: bool, list2: bool, create2: bool)
    returns (first: Outcome<string>, second: Outcome<string>)
    modifies store`buckets
    ensures first.Returned? && !list2 ==> second == first
    ensures first.Returned? ==> store.buckets == old(store.buckets)[PhotosBucket := if PhotosBucket in old(store.buckets) then old(store.buckets)[PhotosBucket] else PhotosBucketConfig]
  {
    first := EnsurePhotosBucket(store, list1, create1);
    second := EnsurePhotosBucket(store, list2, create2);
  }

  /** A file the photos bucket admits is at most 5 MiB and one of the five
      listed image types. */
  lemma PhotosBucketLimits(mimeType: string, size: nat)
    requires Admits(PhotosBucketConfig, mimeType, size)
    ensures size <= 5 * 1024 * 1024
    ensures mimeType in {"image/jpeg", "image/png", "image/gif", "image/webp", "image/svg+xml"}
  {
  }
}
