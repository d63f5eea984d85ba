/** What the photo and food-photo actions share: the upload checks and
    their order, the storage key layout, the search-and-sort listing, and
    the link between image rows and the objects in the "photos" bucket. */
module Images {
  import opened Common
  import opened Text
  import opened Zod
  import opened Ordering
  import opened DbSchema
  import opened Queries
  import opened Storage

  /** The `File` of the upload form: its name, `type` and `size`. */
  datatype UploadFile = UploadFile(name: string, mimeType: string, size: nat)

  /** `5 * 1024 * 1024` */
  const MaxUploadSize: nat := 5 * 1024 * 1024

  const NameRequired := "Name is required"
  const NameTooLong := "Name is too long"

  /** The `name` key of the create and update schemas. */
  function NameIssues(name: string): (issues: seq<Issue>)
    ensures issues == [] <==> 1 <= Utf16Length(name) <= 255
    ensures name == "" ==> issues == [Issue("name", NameRequired)]
    ensures Utf16Length(name) > 255 ==> issues == [Issue("name", NameTooLong)]
  {
    LengthIssues("name", name, 1, NameRequired, 255, NameTooLong)
  }

  const InvalidPhotoId := "Invalid photo ID"
  const PhotoNotFound := "Photo not found"

  /** `updatePhotoSchema.safeParse({ id, ...data })`: the id first. */
  function RenameIssues(id: string, name: string): (issues: seq<Issue>)
    ensures issues == [] <==> IsUuid(id) && 1 <= Utf16Length(name) <= 255
    ensures !IsUuid(id) ==> issues[0] == Issue("id", InvalidPhotoId)
    ensures IsUuid(id) ==> issues == NameIssues(name)
  {
    UuidIssues("id", id, InvalidPhotoId) + NameIssues(name)
  }

  /** The row after `set({ name, updatedAt })`: the object it points at
      stays. */
  function Renamed(row: Image, name: string, now: Timestamp): (r: Image)
    ensures r.id == row.id && r.userId == row.userId && r.createdAt == row.createdAt && r.updatedAt == now
    ensures r.fields.name == name
    ensures r.fields.storagePath == row.fields.storagePath && r.fields.url == row.fields.url
    ensures r.fields.size == row.fields.size && r.fields.mimeType == row.fields.mimeType
  {
    Touched(row, row.fields.(name := name), now)
  }

  /** `name || file.name`: a missing or empty name falls back to the file's. */
  function UploadName(name: Option<string>, file: UploadFile): (n: string)
    ensures name.None? || name == Some("") ==> n == file.name
    ensures name.Some? && name.value != "" ==> n == name.value
  {
    if name.None? || name.value == "" then file.name else name.value
  }

  /** The checks an upload passes before the store is touched, in order:
      a file, an image type, at most 5 MiB, then the name. */
  function UploadRejection(file: Option<UploadFile>, name: Option<string>): (e: Option<string>)
    ensures e.None? <==>
      && file.Some?
      && StartsWith(file.value.mimeType, "image/")
      && file.value.size <= MaxUploadSize
      && 1 <= Utf16Length(UploadName(name, file.value)) <= 255
    ensures file.None? ==> e == Some("No file provided")
    ensures file.Some? && !StartsWith(file.value.mimeType, "image/") ==> e == Some("Only image files are allowed")
    ensures file.Some? && StartsWith(file.value.mimeType, "image/") && file.value.size > MaxUploadSize ==>
      e == Some("File size must be less than 5MB")
    ensures file.Some? && StartsWith(file.value.mimeType, "image/") && file.value.size <= MaxUploadSize && e.Some? ==>
      e == Some(FirstIssueMessage(NameIssues(UploadName(name, file.value))))
  {
    if file.None? then Some("No file provided")
    else if !StartsWith(file.value.mimeType, "image/") then Some("Only image files are allowed")
    else if file.value.size > MaxUploadSize then Some("File size must be less than 5MB")
    else
      var issues := NameIssues(UploadName(name, file.value));
      if issues == [] then None else Some(FirstIssueMessage(issues))
  }

  /** A file of exactly 5 MiB is accepted; one byte more is not. */
  lemma SizeLimitIsInclusive(file: UploadFile, name: Option<string>)
    requires StartsWith(file.mimeType, "image/") && 1 <= Utf16Length(UploadName(name, file)) <= 255
    ensures file.size == MaxUploadSize ==> UploadRejection(Some(file), name).None?
    ensures file.size == MaxUploadSize + 1 ==> UploadRejection(Some(file), name) == Some("File size must be less than 5MB")
  {
  }

  /** `{userId}/{folder}{Date.now()}-{random}.{ext}` where `ext` is
      `file.name.split(".").pop()`; the clock and the random text are
      inputs. */
  function StorageKey(uid: Id, folder: string, stamp: nat, random: string, fileName: string): string {
    uid + "/" + folder + NatToString(stamp) + "-" + random + "." + LastPiece(fileName, '.')
  }

  /** The key lies under the owner's prefix, its first path segment is the
      owner's id, and its extension is the file name's. */
  lemma StorageKeyLayout(uid: Id, folder: string, stamp: nat, random: string, fileName: string)
    ensures StartsWith(StorageKey(uid, folder, stamp, random, fileName), uid + "/")
    ensures '/' !in uid ==> Split(StorageKey(uid, folder, stamp, random, fileName), '/')[0] == uid
    ensures LastPiece(StorageKey(uid, folder, stamp, random, fileName), '.') == LastPiece(fileName, '.')
  {
    var key := StorageKey(uid, folder, stamp, random, fileName);
    var ext := LastPiece(fileName, '.');
    var body := folder + NatToString(stamp) + "-" + random;
    assert key == uid + ['/'] + (body + "." + ext);
    assert key[..|uid + "/"|] == uid + "/";
    if '/' !in uid {
      SplitFirst(uid, body + "." + ext, '/');
    }
    assert key == (uid + "/" + body) + ['.'] + ext;
    LastPieceAfter(uid + "/" + body, ext, '.');
  }

  /** Keys made at different times differ: the stamp can be read back
      from the key. */
  lemma StorageKeyStamp(uid: Id, folder: string, stamp1: nat, stamp2: nat, random: string, fileName: string)
    ensures StorageKey(uid, folder, stamp1, random, fileName) == StorageKey(uid, folder, stamp2, random, fileName) ==>
      stamp1 == stamp2
  {
    var prefix := uid + "/" + folder;
    var d1, d2 := NatToString(stamp1), NatToString(stamp2);
    var tail := "-" + random + "." + LastPiece(fileName, '.');
    assert StorageKey(uid, folder, stamp1, random, fileName) == prefix + (d1 + tail);
    assert StorageKey(uid, folder, stamp2, random, fileName) == prefix + (d2 + tail);
    PrefixCancels(prefix, d1 + tail, d2 + tail);
    DigitsBeforeDash(d1, d2, tail);
    DecimalRoundTrip(stamp1);
    DecimalRoundTrip(stamp2);
  }

  lemma PrefixCancels(prefix: string, x: string, y: string)
    ensures prefix + x == prefix + y ==> x == y
  {
    assert (prefix + x)[|prefix|..] == x;
    assert (prefix + y)[|prefix|..] == y;
  }

  /** Digit strings followed by the same text starting with '-' are equal. */
  lemma DigitsBeforeDash(d1: string, d2: string, tail: string)
    requires forall i :: 0 <= i < |d1| ==> '0' <= d1[i] <= '9'
    requires forall i :: 0 <= i < |d2| ==> '0' <= d2[i] <= '9'
    requires tail != [] && tail[0] == '-'
    ensures d1 + tail == d2 + tail ==> d1 == d2
  {
    if d1 + tail == d2 + tail {
      var m := if |d1| < |d2| then |d1| else |d2|;
      assert (d1 + tail)[m] == (d2 + tail)[m];
      assert |d1| == |d2|;
      assert d1 == (d1 + tail)[..|d1|];
      assert d2 == (d2 + tail)[..|d2|];
    }
  }

  /** The name column of an image row. */
  function ImageName(f: ImageFields): string {
    f.name
  }

  /** Every image row's object is in the photos bucket. */
  ghost predicate StoredIn(t: Table<ImageFields>, objects: set<(string, string)>) {
    forall k :: k in t ==> (PhotosBucket, t[k].fields.storagePath) in objects
  }

  /** No two image rows, in either table, share a storage path. */
  ghost predicate PathsDistinct(a: Table<ImageFields>, b: Table<ImageFields>) {
    && (forall k1, k2 :: k1 in a && k2 in a && a[k1].fields.storagePath == a[k2].fields.storagePath ==> k1 == k2)
    && (forall k1, k2 :: k1 in b && k2 in b && b[k1].fields.storagePath == b[k2].fields.storagePath ==> k1 == k2)
    && (forall k1, k2 :: k1 in a && k2 in b ==> a[k1].fields.storagePath != b[k2].fields.storagePath)
  }

  /** The rows of both image tables point at stored objects, each at its own. */
  ghost predicate Linked(db: Database, store: BlobStore)
    reads db, store
  {
    && StoredIn(db.photos, store.objects)
    && StoredIn(db.foodPhotos, store.objects)
    && PathsDistinct(db.photos, db.foodPhotos)
  }

  /** A row for a path that was just uploaded keeps both tables linked. */
  lemma FreshPathKeepsLinked(a: Table<ImageFields>, b: Table<ImageFields>, objects: set<(string, string)>,
                             row: Image)
    requires StoredIn(a, objects) && StoredIn(b, objects) && PathsDistinct(a, b)
    requires (PhotosBucket, row.fields.storagePath) !in objects && row.id !in a
    ensures var objects' := objects + {(PhotosBucket, row.fields.storagePath)};
      StoredIn(a[row.id := row], objects') && StoredIn(b, objects') && PathsDistinct(a[row.id := row], b)
      && PathsDistinct(b, a[row.id := row])
  {
  }

  /** Dropping a row and, at best, its object keeps the other rows linked. */
  lemma RemovedPathKeepsLinked(a: Table<ImageFields>, b: Table<ImageFields>, objects: set<(string, string)>,
                               id: Id, removed: bool)
    requires StoredIn(a, objects) && StoredIn(b, objects) && PathsDistinct(a, b) && id in a
    ensures var objects' := if removed then objects - {(PhotosBucket, a[id].fields.storagePath)} else objects;
      StoredIn(a - {id}, objects') && StoredIn(b, objects') && PathsDistinct(a - {id}, b)
      && PathsDistinct(b, a - {id})
  {
  }

  /** Renaming a row keeps its path. */
  lemma RenameKeepsLinked(a: Table<ImageFields>, b: Table<ImageFields>, objects: set<(string, string)>, row: Image)
    requires StoredIn(a, objects) && StoredIn(b, objects) && PathsDistinct(a, b)
    requires row.id in a && row.fields.storagePath == a[row.id].fields.storagePath
    ensures StoredIn(a[row.id := row], objects) && PathsDistinct(a[row.id := row], b) && PathsDistinct(b, a[row.id := row])
  {
  }

  /** The cascade of an account deletion only drops image rows. */
  lemma CascadeKeepsLinked(a: Table<ImageFields>, b: Table<ImageFields>, objects: set<(string, string)>, uid: Id)
    requires StoredIn(a, objects) && StoredIn(b, objects) && PathsDistinct(a, b)
    ensures StoredIn(WithoutOwner(a, uid), objects) && StoredIn(WithoutOwner(b, uid), objects)
    ensures PathsDistinct(WithoutOwner(a, uid), WithoutOwner(b, uid))
  {
  }

  /** The external answers an upload gets: from `listBuckets`,
      `createBucket` and `upload`, the clock, the random text, and the
      public URL of a path. */
  datatype UploadEnv = UploadEnv(listFails: bool, createFails: bool, uploadUp: bool,
                                 stamp: nat, random: string, publicUrl: string -> string)

  /** `ensurePhotosBucket()` returns rather than throws. */
  predicate BucketReady(buckets: map<string, BucketConfig>, env: UploadEnv) {
    !env.listFails && (PhotosBucket in buckets || !env.createFails)
  }

  /** The buckets after a successful `ensurePhotosBucket()`. */
  function ReadyBuckets(buckets: map<string, BucketConfig>): (r: map<string, BucketConfig>)
    ensures PhotosBucket in r
    ensures PhotosBucket in buckets ==> r == buckets
    ensures PhotosBucket !in buckets ==> r[PhotosBucket] == PhotosBucketConfig
    ensures forall b :: b != PhotosBucket ==> (b in r <==> b in buckets) && (b in r ==> r[b] == buckets[b])
  {
    if PhotosBucket in buckets then buckets else buckets[PhotosBucket := PhotosBucketConfig]
  }

  /** The upload call accepts the file under its key once the bucket is
      ready: the service answers, the key is free and the bucket's limits
      admit the file. */
  predicate StoreAccepts(buckets: map<string, BucketConfig>, objects: set<(string, string)>,
                         key: string, file: UploadFile, env: UploadEnv) {
    && env.uploadUp
    && (PhotosBucket, key) !in objects
    && Admits(ReadyBuckets(buckets)[PhotosBucket], file.mimeType, file.size)
  }

  /** The outcome of the storage half of an upload. */
  datatype StoreResult = Stored(key: string) | BucketFailed | UploadFailed

  /** The storage half of `uploadPhoto` and `uploadFoodPhoto`: make sure
      the bucket exists, build the key, upload. */
  method StoreFile(store: BlobStore, uid: Id, folder: string, file: UploadFile, env: UploadEnv)
    returns (s: StoreResult)
    modifies store`buckets, store`objects
    ensures var key := StorageKey(uid, folder, env.stamp, env.random, file.name);
      && (!BucketReady(old(store.buckets), env) ==> s == BucketFailed && store.buckets == old(store.buckets))
      && (BucketReady(old(store.buckets), env) ==> store.buckets == ReadyBuckets(old(store.buckets)))
      && (BucketReady(old(store.buckets), env) && StoreAccepts(old(store.buckets), old(store.objects), key, file, env) ==>
            s == Stored(key))
      && (BucketReady(old(store.buckets), env) && !StoreAccepts(old(store.buckets), old(store.objects), key, file, env) ==>
            s == UploadFailed)
      && (s.Stored? ==> store.objects == old(store.objects) + {(PhotosBucket, key)})
      && (!s.Stored? ==> store.objects == old(store.objects))
  {
    var bucket := EnsurePhotosBucket(store, env.listFails, env.createFails);
    if bucket.Threw? {
      return BucketFailed;
    }
    var key := StorageKey(uid, folder, env.stamp, env.random, file.name);
    var ok := store.Upload(bucket.value, key, file.mimeType, file.size, env.uploadUp);
    if !ok {
      return UploadFailed;
    }
    return Stored(key);
  }

  /** The row an upload inserts: the name, the public URL, the key, the
      size as a decimal string and the MIME type. */
  function UploadedFields(name: string, file: UploadFile, key: string, env: UploadEnv): (f: ImageFields)
    ensures f.name == name && f.url == env.publicUrl(key)
    ensures f.storagePath == key && f.mimeType == Some(file.mimeType) && f.size.Some?
    ensures (forall i :: 0 <= i < |f.size.value| ==> '0' <= f.size.value[i] <= '9') && DecimalValue(f.size.value) == file.size
  {
    DecimalRoundTrip(file.size);
    ImageFields(name, env.publicUrl(key), key, Some(NatToString(file.size)), Some(file.mimeType))
  }

  /** An image file the action accepts can still be refused by the bucket
      this code creates: the action admits every "image/" type, the bucket
      only five. */
  lemma BucketRefusesBmp()
    ensures UploadRejection(Some(UploadFile("a.bmp", "image/bmp", 1)), None).None?
    ensures !Admits(PhotosBucketConfig, "image/bmp", 1)
  {
    assert StartsWith("image/bmp", "image/");
  }
}
