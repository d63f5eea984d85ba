/** The photo actions of the drive (getPhotos, getPhotoById, uploadPhoto,
    updatePhoto, deletePhoto), over the photos table and the "photos"
    bucket. */
module PhotoActions {
  import opened Common
  import opened Zod
  import opened Ordering
  import opened DbSchema
  import opened Queries
  import opened Storage
  import opened Images
  import opened Gallery

  /** getPhotos: the caller's photos, filtered by the search and ordered
      as the options say. */
  method GetPhotos(db: Database, caller: Option<Id>, options: ListOptions) returns (r: ListResult<Image>)
    requires db.Valid()
    ensures caller.None? ==> r == ListFailure(NotAuthenticated)
    ensures caller.Some? ==> r.Listed?
    ensures r.Listed? ==> Selects(r.rows, db.photos, SearchFilter(caller.value, options.search, ImageName))
    ensures r.Listed? ==> SortedBy(r.rows, SortColumn(options.sortBy, ImageName), Ascending(options.sortOrder))
  {
    if caller.None? {
      return ListFailure(NotAuthenticated);
    }
    var rows := ListSearchable(db.photos, caller.value, options, ImageName);
    return Listed(rows);
  }

  /** getPhotoById: the photo only when both its id and its owner match. */
  method GetPhotoById(db: Database, caller: Option<Id>, id: string) returns (r: FindResult<Image>)
    requires db.Valid()
    ensures caller.None? ==> r == FindFailure(NotAuthenticated)
    ensures caller.Some? && !IsUuidText(id) ==> r == FindFailure("Failed to fetch photo")
    ensures caller.Some? && IsUuidText(id) && !Owns(db.photos, id, caller.value) ==> r == FindFailure(PhotoNotFound)
    ensures r.Found? <==> caller.Some? && IsUuidText(id) && Owns(db.photos, id, caller.value)
    ensures r.Found? ==> r.row == db.photos[id] && r.row.userId == caller.value
  {
    if caller.None? {
      return FindFailure(NotAuthenticated);
    }
    if !IsUuidText(id) {
      return FindFailure("Failed to fetch photo");
    }
    var photo := FindOwned(db.photos, id, caller.value);
    if photo.None? {
      return FindFailure(PhotoNotFound);
    }
    return Found(photo.value);
  }

  /** uploadPhoto: the checks, then the bucket, the object under the
      caller's prefix, and the row. An object uploaded before a failed
      insert stays in the bucket. */
  method UploadPhoto(db: Database, store: BlobStore, caller: Option<Id>, file: Option<UploadFile>,
                     name: Option<string>, env: UploadEnv, newId: Id, now: Timestamp)
    returns (r: ActionResult)
    requires db.Valid() && Linked(db, store)
    modifies db`photos, store`buckets, store`objects
    ensures db.Valid() && Linked(db, store)
    ensures caller.None? ==> r == Failure(NotAuthenticated)
    ensures caller.Some? && UploadRejection(file, name).Some? ==> r == Failure(UploadRejection(file, name).value)
    ensures caller.None? || UploadRejection(file, name).Some? ==>
      store.buckets == old(store.buckets) && store.objects == old(store.objects)
    ensures caller.Some? && UploadRejection(file, name).None? ==>
      var key := StorageKey(caller.value, "", env.stamp, env.random, file.value.name);
      && (!BucketReady(old(store.buckets), env) ==>
            r == Failure("Failed to create photo") && store.buckets == old(store.buckets))
      && (BucketReady(old(store.buckets), env) ==> store.buckets == ReadyBuckets(old(store.buckets)))
      && (BucketReady(old(store.buckets), env) && !StoreAccepts(old(store.buckets), old(store.objects), key, file.value, env) ==>
            r == Failure("Failed to upload file"))
      && (!(BucketReady(old(store.buckets), env) && StoreAccepts(old(store.buckets), old(store.objects), key, file.value, env)) ==>
            store.objects == old(store.objects))
      && (BucketReady(old(store.buckets), env) && StoreAccepts(old(store.buckets), old(store.objects), key, file.value, env) ==>
            && store.objects == old(store.objects) + {(PhotosBucket, key)}
            && (r.Success? <==> caller.value in old(db.users) && newId !in old(db.photos))
            && (r.Failure? ==> r == Failure("Failed to create photo"))
            && (r.Success? ==> db.photos == old(db.photos)[newId := Row(newId, caller.value,
                  UploadedFields(UploadName(name, file.value), file.value, key, env), now, now)]))
    ensures r.Failure? ==> db.photos == old(db.photos)
    ensures caller.Some? ==> OnlyOwnRowsChanged(old(db.photos), db.photos, caller.value)
  {
    if caller.None? {
      return Failure(NotAuthenticated);
    }
    var rejection := UploadRejection(file, name);
    if rejection.Some? {
      return Failure(rejection.value);
    }
    r := StorePhoto(db, store, caller.value, file.value, UploadName(name, file.value), env, newId, now);
  }

  /** The part of uploadPhoto after the checks: the bucket, the object, the row. */
  method StorePhoto(db: Database, store: BlobStore, uid: Id, f: UploadFile, name: string, env: UploadEnv,
                    newId: Id, now: Timestamp) returns (r: ActionResult)
    requires db.Valid() && Linked(db, store)
    modifies db`photos, store`buckets, store`objects
    ensures db.Valid() && Linked(db, store)
    ensures var key := StorageKey(uid, "", env.stamp, env.random, f.name);
      && (!BucketReady(old(store.buckets), env) ==>
            r == Failure("Failed to create photo") && store.buckets == old(store.buckets))
      && (BucketReady(old(store.buckets), env) ==> store.buckets == ReadyBuckets(old(store.buckets)))
      && (BucketReady(old(store.buckets), env) && !StoreAccepts(old(store.buckets), old(store.objects), key, f, env) ==>
            r == Failure("Failed to upload file"))
      && (!(BucketReady(old(store.buckets), env) && StoreAccepts(old(store.buckets), old(store.objects), key, f, env)) ==>
            store.objects == old(store.objects))
      && (BucketReady(old(store.buckets), env) && StoreAccepts(old(store.buckets), old(store.objects), key, f, env) ==>
            && store.objects == old(store.objects) + {(PhotosBucket, key)}
            && (r.Success? <==> uid in old(db.users) && newId !in old(db.photos))
            && (r.Failure? ==> r == Failure("Failed to create photo"))
            && (r.Success? ==> db.photos == old(db.photos)[newId := Row(newId, uid, UploadedFields(name, f, key, env), now, now)]))
    ensures r.Failure? ==> db.photos == old(db.photos)
    ensures OnlyOwnRowsChanged(old(db.photos), db.photos, uid)
  {
    var stored := StoreFile(store, uid, "", f, env);
    if stored == BucketFailed {
      return Failure("Failed to create photo");
    }
    if stored == UploadFailed {
      return Failure("Failed to upload file");
    }
    var row := Row(newId, uid, UploadedFields(name, f, stored.key, env), now, now);
    r := InsertPhotoRow(db, store, row, old(store.objects));
  }

  /** The insert that follows a stored upload: it fails when the owner is
      gone or the id is taken, and leaves the object in the bucket then. */
  method InsertPhotoRow(db: Database, store: BlobStore, row: Image, ghost objects: set<(string, string)>)
    returns (r: ActionResult)
    requires db.Valid() && StoredIn(db.photos, objects) && StoredIn(db.foodPhotos, objects)
    requires PathsDistinct(db.photos, db.foodPhotos)
    requires (PhotosBucket, row.fields.storagePath) !in objects
    requires store.objects == objects + {(PhotosBucket, row.fields.storagePath)}
    modifies db`photos
    ensures db.Valid() && Linked(db, store)
    ensures r.Success? <==> row.userId in old(db.users) && row.id !in old(db.photos)
    ensures r.Success? ==> db.photos == old(db.photos)[row.id := row]
    ensures r.Failure? ==> r == Failure("Failed to create photo") && db.photos == old(db.photos)
  {
    if row.userId !in db.users || row.id in db.photos {
      return Failure("Failed to create photo");
    }
    InsertKeepsValid(db.photos, db.users, row);
    FreshPathKeepsLinked(db.photos, db.foodPhotos, objects, row);
    db.photos := db.photos[row.id := row];
    return Success;
  }

  /** updatePhoto: renames the caller's photo. */
  method UpdatePhoto(db: Database, store: BlobStore, caller: Option<Id>, id: string, name: string, now: Timestamp)
    returns (r: ActionResult)
    requires db.Valid() && Linked(db, store)
    modifies db`photos
    ensures db.Valid() && Linked(db, store)
    ensures caller.None? ==> r == Failure(NotAuthenticated)
    ensures caller.Some? && RenameIssues(id, name) != [] ==> r == Failure(FirstIssueMessage(RenameIssues(id, name)))
    ensures caller.Some? && !IsUuid(id) ==> r == Failure(InvalidPhotoId)
    ensures caller.Some? && RenameIssues(id, name) == [] && !Owns(old(db.photos), id, caller.value) ==>
      r == Failure(PhotoNotFound)
    ensures r.Success? <==> caller.Some? && RenameIssues(id, name) == [] && Owns(old(db.photos), id, caller.value)
    ensures r.Success? ==> db.photos == old(db.photos)[id := Renamed(old(db.photos)[id], name, now)]
    ensures r.Failure? ==> db.photos == old(db.photos)
    ensures caller.Some? ==> OnlyOwnRowsChanged(old(db.photos), db.photos, caller.value)
  {
    if caller.None? {
      return Failure(NotAuthenticated);
    }
    var issues := RenameIssues(id, name);
    if issues != [] {
      return Failure(FirstIssueMessage(issues));
    }
    var existing := FindOwned(db.photos, id, caller.value);
    if existing.None? {
      return Failure(PhotoNotFound);
    }
    var row := Renamed(existing.value, name, now);
    ReplaceKeepsValid(db.photos, db.users, row);
    RenameKeepsLinked(db.photos, db.foodPhotos, store.objects, row);
    db.photos := db.photos[id := row];
    return Success;
  }

  /** deletePhoto: removes the object, ignoring a failure to do so, then
      the row. */
  method DeletePhoto(db: Database, store: BlobStore, caller: Option<Id>, id: string, removeUp: bool)
    returns (r: ActionResult)
    requires db.Valid() && Linked(db, store)
    modifies db`photos, store`objects
    ensures db.Valid() && Linked(db, store)
    ensures caller.None? ==> r == Failure(NotAuthenticated)
    ensures caller.Some? && !IsUuidText(id) ==> r == Failure("Failed to delete photo")
    ensures caller.Some? && IsUuidText(id) && !Owns(old(db.photos), id, caller.value) ==> r == Failure(PhotoNotFound)
    ensures r.Success? <==> caller.Some? && IsUuidText(id) && Owns(old(db.photos), id, caller.value)
    ensures r.Success? ==> db.photos == old(db.photos) - {id}
    ensures r.Success? && removeUp ==> store.objects == old(store.objects) - {(PhotosBucket, old(db.photos)[id].fields.storagePath)}
    ensures !(r.Success? && removeUp) ==> store.objects == old(store.objects)
    ensures r.Failure? ==> db.photos == old(db.photos)
    ensures caller.Some? ==> OnlyOwnRowsChanged(old(db.photos), db.photos, caller.value)
  {
    if caller.None? {
      return Failure(NotAuthenticated);
    }
    if !IsUuidText(id) {
      return Failure("Failed to delete photo");
    }
    var existing := FindOwned(db.photos, id, caller.value);
    if existing.None? {
      return Failure(PhotoNotFound);
    }
    RemovedPathKeepsLinked(db.photos, db.foodPhotos, store.objects, id, removeUp);
    var removed := store.Remove(GetPhotosBucketName(), existing.value.fields.storagePath, removeUp);
    db.photos := db.photos - {id};
    return Success;
  }
}
