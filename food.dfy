/** The food journal's actions: its photos (getFoodPhotos,
    getFoodPhotoById, uploadFoodPhoto, updateFoodPhoto, deleteFoodPhoto),
    kept in the "photos" bucket under the owner's "food/" folder, and the
    reviews of a photo (getFoodReviews, createFoodReview,
    updateFoodReview, deleteFoodReview). */
module FoodActions {
  import opened Common
  import opened Zod
  import opened Ordering
  import opened DbSchema
  import opened Queries
  import opened Storage
  import opened Images
  import opened Gallery
  import opened Reviews

  /** The folder of food photos under the owner's prefix. */
  const FoodFolder := "food/"

  /** getFoodPhotos */
  method GetFoodPhotos(db: Database, caller: Option<Id>, options: ListOptions) returns (r: ListResult<Image>)
    requires db.Valid()
    ensures caller.None? ==> r == ListFailure(NotAuthenticated)
    ensures caller.Some? ==> r.Listed?
    ensures r.Listed? ==> Selects(r.rows, db.foodPhotos, SearchFilter(caller.value, options.search, ImageName))
    ensures r.Listed? ==> SortedBy(r.rows, SortColumn(options.sortBy, ImageName), Ascending(options.sortOrder))
  {
    if caller.None? {
      return ListFailure(NotAuthenticated);
    }
    var rows := ListSearchable(db.foodPhotos, caller.value, options, ImageName);
    return Listed(rows);
  }

  /** getFoodPhotoById */
  method GetFoodPhotoById(db: Database, caller: Option<Id>, id: string) returns (r: FindResult<Image>)
    requires db.Valid()
    ensures caller.None? ==> r == FindFailure(NotAuthenticated)
    ensures caller.Some? && !IsUuidText(id) ==> r == FindFailure("Failed to fetch photo")
    ensures caller.Some? && IsUuidText(id) && !Owns(db.foodPhotos, id, caller.value) ==> r == FindFailure(PhotoNotFound)
    ensures r.Found? <==> caller.Some? && IsUuidText(id) && Owns(db.foodPhotos, id, caller.value)
    ensures r.Found? ==> r.row == db.foodPhotos[id] && r.row.userId == caller.value
  {
    if caller.None? {
      return FindFailure(NotAuthenticated);
    }
    if !IsUuidText(id) {
      return FindFailure("Failed to fetch photo");
    }
    var photo := FindOwned(db.foodPhotos, id, caller.value);
    if photo.None? {
      return FindFailure(PhotoNotFound);
    }
    return Found(photo.value);
  }

  /** uploadFoodPhoto: as uploadPhoto, under the "food/" folder. */
  method UploadFoodPhoto(db: Database, store: BlobStore, caller: Option<Id>, file: Option<UploadFile>,
                         name: Option<string>, env: UploadEnv, newId: Id, now: Timestamp)
    returns (r: ActionResult)
    requires db.Valid() && Linked(db, store)
    modifies db`foodPhotos, store`buckets, store`objects
    ensures db.Valid() && Linked(db, store)
    ensures caller.None? ==> r == Failure(NotAuthenticated)
    ensures caller.Some? && UploadRejection(file, name).Some? ==> r == Failure(UploadRejection(file, name).value)
    ensures caller.None? || UploadRejection(file, name).Some? ==>
      store.buckets == old(store.buckets) && store.objects == old(store.objects)
    ensures caller.Some? && UploadRejection(file, name).None? ==>
      var key := StorageKey(caller.value, FoodFolder, env.stamp, env.random, file.value.name);
      && (!BucketReady(old(store.buckets), env) ==>
            r == Failure("Failed to create food photo") && store.buckets == old(store.buckets))
      && (BucketReady(old(store.buckets), env) ==> store.buckets == ReadyBuckets(old(store.buckets)))
      && (BucketReady(old(store.buckets), env) && !StoreAccepts(old(store.buckets), old(store.objects), key, file.value, env) ==>
            r == Failure("Failed to upload file"))
      && (!(BucketReady(old(store.buckets), env) && StoreAccepts(old(store.buckets), old(store.objects), key, file.value, env)) ==>
            store.objects == old(store.objects))
      && (BucketReady(old(store.buckets), env) && StoreAccepts(old(store.buckets), old(store.objects), key, file.value, env) ==>
            && store.objects == old(store.objects) + {(PhotosBucket, key)}
            && (r.Success? <==> caller.value in old(db.users) && newId !in old(db.foodPhotos))
            && (r.Failure? ==> r == Failure("Failed to create food photo"))
            && (r.Success? ==> db.foodPhotos == old(db.foodPhotos)[newId := Row(newId, caller.value,
                  UploadedFields(UploadName(name, file.value), file.value, key, env), now, now)]))
    ensures r.Failure? ==> db.foodPhotos == old(db.foodPhotos)
    ensures caller.Some? ==> OnlyOwnRowsChanged(old(db.foodPhotos), db.foodPhotos, caller.value)
  {
    if caller.None? {
      return Failure(NotAuthenticated);
    }
    var rejection := UploadRejection(file, name);
    if rejection.Some? {
      return Failure(rejection.value);
    }
    r := StoreFoodPhoto(db, store, caller.value, file.value, UploadName(name, file.value), env, newId, now);
  }

  /** The part of uploadFoodPhoto after the checks: the bucket, the object, the row. */
  method StoreFoodPhoto(db: Database, store: BlobStore, uid: Id, f: UploadFile, name: string, env: UploadEnv,
                        newId: Id, now: Timestamp) returns (r: ActionResult)
    requires db.Valid() && Linked(db, store)
    modifies db`foodPhotos, store`buckets, store`objects
    ensures db.Valid() && Linked(db, store)
    ensures var key := StorageKey(uid, FoodFolder, env.stamp, env.random, f.name);
      && (!BucketReady(old(store.buckets), env) ==>
            r == Failure("Failed to create food photo") && store.buckets == old(store.buckets))
      && (BucketReady(old(store.buckets), env) ==> store.buckets == ReadyBuckets(old(store.buckets)))
      && (BucketReady(old(store.buckets), env) && !StoreAccepts(old(store.buckets), old(store.objects), key, f, env) ==>
            r == Failure("Failed to upload file"))
      && (!(BucketReady(old(store.buckets), env) && StoreAccepts(old(store.buckets), old(store.objects), key, f, env)) ==>
            store.objects == old(store.objects))
      && (BucketReady(old(store.buckets), env) && StoreAccepts(old(store.buckets), old(store.objects), key, f, env) ==>
            && store.objects == old(store.objects) + {(PhotosBucket, key)}
            && (r.Success? <==> uid in old(db.users) && newId !in old(db.foodPhotos))
            && (r.Failure? ==> r == Failure("Failed to create food photo"))
            && (r.Success? ==> db.foodPhotos == old(db.foodPhotos)[newId := Row(newId, uid, UploadedFields(name, f, key, env), now, now)]))
    ensures r.Failure? ==> db.foodPhotos == old(db.foodPhotos)
    ensures OnlyOwnRowsChanged(old(db.foodPhotos), db.foodPhotos, uid)
  {
    var stored := StoreFile(store, uid, FoodFolder, f, env);
    if stored == BucketFailed {
      return Failure("Failed to create food photo");
    }
    if stored == UploadFailed {
      return Failure("Failed to upload file");
    }
    var row := Row(newId, uid, UploadedFields(name, f, stored.key, env), now, now);
    r := InsertFoodPhotoRow(db, store, row, old(store.objects));
  }

  /** The insert that follows a stored upload: it fails when the owner is
      gone or the id is taken, and leaves the object in the bucket then. */
  method InsertFoodPhotoRow(db: Database, store: BlobStore, row: Image, ghost objects: set<(string, string)>)
    returns (r: ActionResult)
    requires db.Valid() && StoredIn(db.photos, objects) && StoredIn(db.foodPhotos, objects)
    requires PathsDistinct(db.photos, db.foodPhotos)
    requires (PhotosBucket, row.fields.storagePath) !in objects
    requires store.objects == objects + {(PhotosBucket, row.fields.storagePath)}
    modifies db`foodPhotos
    ensures db.Valid() && Linked(db, store)
    ensures r.Success? <==> row.userId in old(db.users) && row.id !in old(db.foodPhotos)
    ensures r.Success? ==> db.foodPhotos == old(db.foodPhotos)[row.id := row]
    ensures r.Failure? ==> r == Failure("Failed to create food photo") && db.foodPhotos == old(db.foodPhotos)
  {
    if row.userId !in db.users || row.id in db.foodPhotos {
      return Failure("Failed to create food photo");
    }
    InsertKeepsValid(db.foodPhotos, db.users, row);
    FreshPathKeepsLinked(db.foodPhotos, db.photos, objects, row);
    db.foodPhotos := db.foodPhotos[row.id := row];
    return Success;
  }

  /** updateFoodPhoto: renames the caller's food photo. */
  method UpdateFoodPhoto(db: Database, store: BlobStore, caller: Option<Id>, id: string, name: string, now: Timestamp)
    returns (r: ActionResult)
    requires db.Valid() && Linked(db, store)
    modifies db`foodPhotos
    ensures db.Valid() && Linked(db, store)
    ensures caller.None? ==> r == Failure(NotAuthenticated)
    ensures caller.Some? && RenameIssues(id, name) != [] ==> r == Failure(FirstIssueMessage(RenameIssues(id, name)))
    ensures caller.Some? && !IsUuid(id) ==> r == Failure(InvalidPhotoId)
    ensures caller.Some? && RenameIssues(id, name) == [] && !Owns(old(db.foodPhotos), id, caller.value) ==>
      r == Failure(PhotoNotFound)
    ensures r.Success? <==> caller.Some? && RenameIssues(id, name) == [] && Owns(old(db.foodPhotos), id, caller.value)
    ensures r.Success? ==> db.foodPhotos == old(db.foodPhotos)[id := Renamed(old(db.foodPhotos)[id], name, now)]
    ensures r.Failure? ==> db.foodPhotos == old(db.foodPhotos)
    ensures caller.Some? ==> OnlyOwnRowsChanged(old(db.foodPhotos), db.foodPhotos, caller.value)
  {
    if caller.None? {
      return Failure(NotAuthenticated);
    }
    var issues := RenameIssues(id, name);
    if issues != [] {
      return Failure(FirstIssueMessage(issues));
    }
    var existing := FindOwned(db.foodPhotos, id, caller.value);
    if existing.None? {
      return Failure(PhotoNotFound);
    }
    var row := Renamed(existing.value, name, now);
    ReplaceKeepsValid(db.foodPhotos, db.users, row);
    RenameKeepsLinked(db.foodPhotos, db.photos, store.objects, row);
    db.foodPhotos := db.foodPhotos[id := row];
    return Success;
  }

  /** deleteFoodPhoto: removes the object, ignoring a failure to do so,
      then the row; its reviews go with it. */
  method DeleteFoodPhoto(db: Database, store: BlobStore, caller: Option<Id>, id: string, removeUp: bool)
    returns (r: ActionResult)
    requires db.Valid() && Linked(db, store)
    modifies db`foodPhotos, db`foodReviews, store`objects
    ensures db.Valid() && Linked(db, store)
    ensures caller.None? ==> r == Failure(NotAuthenticated)
    ensures caller.Some? && !IsUuidText(id) ==> r == Failure("Failed to delete photo")
    ensures caller.Some? && IsUuidText(id) && !Owns(old(db.foodPhotos), id, caller.value) ==> r == Failure(PhotoNotFound)
    ensures r.Success? <==> caller.Some? && IsUuidText(id) && Owns(old(db.foodPhotos), id, caller.value)
    ensures r.Success? ==> db.foodPhotos == old(db.foodPhotos) - {id}
    ensures r.Success? ==>
      forall k :: k in db.foodReviews <==> k in old(db.foodReviews) && old(db.foodReviews)[k].fields.parentId != id
    ensures r.Success? ==> forall k :: k in db.foodReviews ==> db.foodReviews[k] == old(db.foodReviews)[k]
    ensures r.Success? && removeUp ==>
      store.objects == old(store.objects) - {(PhotosBucket, old(db.foodPhotos)[id].fields.storagePath)}
    ensures !(r.Success? && removeUp) ==> store.objects == old(store.objects)
    ensures r.Failure? ==> db.foodPhotos == old(db.foodPhotos) && db.foodReviews == old(db.foodReviews)
    ensures caller.Some? ==> OnlyOwnRowsChanged(old(db.foodPhotos), db.foodPhotos, caller.value)
    ensures caller.Some? ==> OnlyOwnRowsChanged(old(db.foodReviews), db.foodReviews, caller.value)
  {
    if caller.None? {
      return Failure(NotAuthenticated);
    }
    if !IsUuidText(id) {
      return Failure("Failed to delete photo");
    }
    var existing := FindOwned(db.foodPhotos, id, caller.value);
    if existing.None? {
      return Failure(PhotoNotFound);
    }
    RemovedPathKeepsLinked(db.foodPhotos, db.photos, store.objects, id, removeUp);
    var removed := store.Remove(GetPhotosBucketName(), existing.value.fields.storagePath, removeUp);
    DeleteFoodPhotoRow(db, id);
    return Success;
  }

  /** The row delete of deleteFoodPhoto, with the reviews that cascade
      from it. */
  method DeleteFoodPhotoRow(db: Database, id: Id)
    requires db.Valid() && id in db.foodPhotos
    modifies db`foodPhotos, db`foodReviews
    ensures db.Valid()
    ensures db.foodPhotos == old(db.foodPhotos) - {id}
    ensures forall k :: k in db.foodReviews <==> k in old(db.foodReviews) && old(db.foodReviews)[k].fields.parentId != id
    ensures forall k :: k in db.foodReviews ==> db.foodReviews[k] == old(db.foodReviews)[k]
    ensures OnlyOwnRowsChanged(old(db.foodReviews), db.foodReviews, old(db.foodPhotos)[id].userId)
  {
    ParentRemovalKeepsReviews(db.foodReviews, db.foodPhotos, db.users, id);
    db.foodReviews := WithParentIn(db.foodReviews, db.foodPhotos - {id});
    db.foodPhotos := db.foodPhotos - {id};
  }

  /** getFoodReviews: every review of a photo the caller owns, newest
      first. */
  method GetFoodReviews(db: Database, caller: Option<Id>, photoId: string) returns (r: ListResult<Review>)
    requires db.Valid()
    ensures caller.None? ==> r == ListFailure(NotAuthenticated)
    ensures caller.Some? && !IsUuidText(photoId) ==> r == ListFailure("Failed to fetch reviews")
    ensures caller.Some? && IsUuidText(photoId) && !Owns(db.foodPhotos, photoId, caller.value) ==>
      r == ListFailure(PhotoNotFound)
    ensures r.Listed? <==> caller.Some? && IsUuidText(photoId) && Owns(db.foodPhotos, photoId, caller.value)
    ensures r.Listed? ==> Selects(r.rows, db.foodReviews, ParentIs(photoId))
    ensures r.Listed? ==> SortedBy(r.rows, CreatedKey, false)
    ensures r.Listed? ==> forall i :: 0 <= i < |r.rows| ==> r.rows[i].userId == caller.value
  {
    if caller.None? {
      return ListFailure(NotAuthenticated);
    }
    if !IsUuidText(photoId) {
      return ListFailure("Failed to fetch reviews");
    }
    var photo := FindOwned(db.foodPhotos, photoId, caller.value);
    if photo.None? {
      return ListFailure(PhotoNotFound);
    }
    var rows := ListWhere(db.foodReviews, ParentIs(photoId), CreatedKey, false);
    ListedReviewsAreOwn(rows, db.foodReviews, db.foodPhotos, photoId, caller.value);
    return Listed(rows);
  }

  /** createFoodReview: a review of a photo the caller owns. */
  method CreateFoodReview(db: Database, caller: Option<Id>, photoId: string, input: ReviewInput,
                          newId: Id, now: Timestamp)
    returns (r: ActionResult)
    requires db.Valid()
    modifies db`foodReviews
    ensures db.Valid()
    ensures caller.None? ==> r == Failure(NotAuthenticated)
    ensures caller.Some? && CreateReviewIssues("foodPhotoId", InvalidPhotoId, photoId, input) != [] ==>
      r == Failure(FirstIssueMessage(CreateReviewIssues("foodPhotoId", InvalidPhotoId, photoId, input)))
    ensures (caller.Some? && CreateReviewIssues("foodPhotoId", InvalidPhotoId, photoId, input) == []
             && !Owns(db.foodPhotos, photoId, caller.value)) ==> r == Failure(PhotoNotFound)
    ensures (caller.Some? && CreateReviewIssues("foodPhotoId", InvalidPhotoId, photoId, input) == []
             && Owns(db.foodPhotos, photoId, caller.value)
             && (caller.value !in db.users || newId in old(db.foodReviews))) ==>
      r == Failure("Failed to create review")
    ensures r.Success? <==>
      && caller.Some? && CreateReviewIssues("foodPhotoId", InvalidPhotoId, photoId, input) == []
      && Owns(db.foodPhotos, photoId, caller.value) && caller.value in db.users && newId !in old(db.foodReviews)
    ensures r.Success? ==> db.foodReviews == old(db.foodReviews)[newId :=
      Row(newId, caller.value, ReviewFields(photoId, input.content, input.rating), now, now)]
    ensures r.Failure? ==> db.foodReviews == old(db.foodReviews)
    ensures caller.Some? ==> OnlyOwnRowsChanged(old(db.foodReviews), db.foodReviews, caller.value)
  {
    if caller.None? {
      return Failure(NotAuthenticated);
    }
    var issues := CreateReviewIssues("foodPhotoId", InvalidPhotoId, photoId, input);
    if issues != [] {
      return Failure(FirstIssueMessage(issues));
    }
    var photo := FindOwned(db.foodPhotos, photoId, caller.value);
    if photo.None? {
      return Failure(PhotoNotFound);
    }
    if caller.value !in db.users || newId in db.foodReviews {
      return Failure("Failed to create review");
    }
    var row := Row(newId, caller.value, ReviewFields(photoId, input.content, input.rating), now, now);
    InsertKeepsValid(db.foodReviews, db.users, row);
    ReviewWriteKeepsParents(db.foodReviews, db.foodPhotos, row);
    db.foodReviews := db.foodReviews[newId := row];
    return Success;
  }

  /** updateFoodReview: rewrites the caller's own review. */
  method UpdateFoodReview(db: Database, caller: Option<Id>, id: string, input: ReviewInput, now: Timestamp)
    returns (r: ActionResult)
    requires db.Valid()
    modifies db`foodReviews
    ensures db.Valid()
    ensures caller.None? ==> r == Failure(NotAuthenticated)
    ensures caller.Some? && UpdateReviewIssues(id, input) != [] ==>
      r == Failure(FirstIssueMessage(UpdateReviewIssues(id, input)))
    ensures caller.Some? && UpdateReviewIssues(id, input) == [] && !Owns(old(db.foodReviews), id, caller.value) ==>
      r == Failure(ReviewNotFound)
    ensures r.Success? <==>
      caller.Some? && UpdateReviewIssues(id, input) == [] && Owns(old(db.foodReviews), id, caller.value)
    ensures r.Success? ==> db.foodReviews == old(db.foodReviews)[id := Revised(old(db.foodReviews)[id], input, now)]
    ensures r.Failure? ==> db.foodReviews == old(db.foodReviews)
    ensures caller.Some? ==> OnlyOwnRowsChanged(old(db.foodReviews), db.foodReviews, caller.value)
  {
    if caller.None? {
      return Failure(NotAuthenticated);
    }
    var issues := UpdateReviewIssues(id, input);
    if issues != [] {
      return Failure(FirstIssueMessage(issues));
    }
    var existing := FindOwned(db.foodReviews, id, caller.value);
    if existing.None? {
      return Failure(ReviewNotFound);
    }
    var row := Revised(existing.value, input, now);
    ReplaceKeepsValid(db.foodReviews, db.users, row);
    ReviewWriteKeepsParents(db.foodReviews, db.foodPhotos, row);
    db.foodReviews := db.foodReviews[id := row];
    return Success;
  }

  /** deleteFoodReview: deletes the caller's own review. */
  method DeleteFoodReview(db: Database, caller: Option<Id>, id: string) returns (r: ActionResult)
    requires db.Valid()
    modifies db`foodReviews
    ensures db.Valid()
    ensures caller.None? ==> r == Failure(NotAuthenticated)
    ensures caller.Some? && !IsUuidText(id) ==> r == Failure("Failed to delete review")
    ensures caller.Some? && IsUuidText(id) && !Owns(old(db.foodReviews), id, caller.value) ==> r == Failure(ReviewNotFound)
    ensures r.Success? <==> caller.Some? && IsUuidText(id) && Owns(old(db.foodReviews), id, caller.value)
    ensures r.Success? ==> db.foodReviews == old(db.foodReviews) - {id}
    ensures r.Failure? ==> db.foodReviews == old(db.foodReviews)
    ensures caller.Some? ==> OnlyOwnRowsChanged(old(db.foodReviews), db.foodReviews, caller.value)
  {
    if caller.None? {
      return Failure(NotAuthenticated);
    }
    if !IsUuidText(id) {
      return Failure("Failed to delete review");
    }
    if !Owns(db.foodReviews, id, caller.value) {
      return Failure(ReviewNotFound);
    }
    ReviewRemovalKeepsParents(db.foodReviews, db.foodPhotos, id);
    db.foodReviews := db.foodReviews - {id};
    return Success;
  }
}
