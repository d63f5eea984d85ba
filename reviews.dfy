/** What the food-photo reviews and the Pokemon reviews share: the schema
    of a review's content and rating, the parent filter of the review
    listing, and the row an edit writes. The two review tables differ only
    in the name of the parent key and its message. */
module Reviews {
  import opened Common
  import opened Text
  import opened Zod
  import opened DbSchema
  import opened Queries

  const ContentRequired := "Review content is required"
  const ContentTooLong := "Review is too long"
  const RatingMessage := "Rating must be between 1 and 5"
  const InvalidReviewId := "Invalid review ID"
  const ReviewNotFound := "Review not found"

  /** The `content` and `rating` a review form sends. */
  datatype ReviewInput = ReviewInput(content: string, rating: string)

  /** The `content` and `rating` keys of both review schemas, in order. */
  function ReviewBodyIssues(input: ReviewInput): (issues: seq<Issue>)
    ensures issues == [] <==> 1 <= Utf16Length(input.content) <= 1000 && IsRating(input.rating)
    ensures input.content == "" ==> issues[0] == Issue("content", ContentRequired)
    ensures Utf16Length(input.content) > 1000 ==> issues[0] == Issue("content", ContentTooLong)
    ensures 1 <= Utf16Length(input.content) <= 1000 && !IsRating(input.rating) ==> issues == [Issue("rating", RatingMessage)]
  {
    LengthIssues("content", input.content, 1, ContentRequired, 1000, ContentTooLong)
      + (if IsRating(input.rating) then [] else [Issue("rating", RatingMessage)])
  }

  /** `createReviewSchema`: the parent id under `parentKey`, checked first. */
  function CreateReviewIssues(parentKey: string, parentMessage: string, parentId: string, input: ReviewInput)
    : (issues: seq<Issue>)
    ensures issues == [] <==> IsUuid(parentId) && 1 <= Utf16Length(input.content) <= 1000 && IsRating(input.rating)
    ensures !IsUuid(parentId) ==> issues[0] == Issue(parentKey, parentMessage)
    ensures IsUuid(parentId) ==> issues == ReviewBodyIssues(input)
  {
    UuidIssues(parentKey, parentId, parentMessage) + ReviewBodyIssues(input)
  }

  /** `updateReviewSchema`: the review's own id, checked first. */
  function UpdateReviewIssues(id: string, input: ReviewInput): (issues: seq<Issue>)
    ensures issues == [] <==> IsUuid(id) && 1 <= Utf16Length(input.content) <= 1000 && IsRating(input.rating)
    ensures !IsUuid(id) ==> issues[0] == Issue("id", InvalidReviewId)
    ensures IsUuid(id) ==> issues == ReviewBodyIssues(input)
  {
    UuidIssues("id", id, InvalidReviewId) + ReviewBodyIssues(input)
  }

  /** A review the schemas accept carries a rating from 1 to 5. */
  lemma AcceptedRatingInRange(input: ReviewInput)
    requires ReviewBodyIssues(input) == []
    ensures 1 <= RatingValue(input.rating) <= 5
    ensures input.rating in {"1", "2", "3", "4", "5"}
  {
    var c := input.rating[0];
    assert input.rating == [c];
    assert c == '1' || c == '2' || c == '3' || c == '4' || c == '5';
  }

  /** `where(eq(reviews.parentKey, parentId))` */
  function ParentIs(parentId: Id): Review -> bool {
    (x: Review) => x.fields.parentId == parentId
  }

  /** The row after `set({ content, rating, updatedAt })`: the parent,
      author and creation time stay. */
  function Revised(row: Review, input: ReviewInput, now: Timestamp): (r: Review)
    ensures r.id == row.id && r.userId == row.userId && r.createdAt == row.createdAt
    ensures r.fields.parentId == row.fields.parentId
    ensures r.fields.content == input.content && r.fields.rating == input.rating && r.updatedAt == now
  {
    Touched(row, ReviewFields(row.fields.parentId, input.content, input.rating), now)
  }

  /** Revising a review twice with the same input at the same time is
      revising it once. */
  lemma ReviseIdempotent(row: Review, input: ReviewInput, now: Timestamp)
    ensures Revised(Revised(row, input, now), input, now) == Revised(row, input, now)
  {
  }

  /** A review written by the parent's owner keeps every review's parent
      present and written by that parent's owner. */
  lemma ReviewWriteKeepsParents<D>(reviews: Table<ReviewFields>, parents: Table<D>, row: Review)
    requires ParentsExist(reviews, parents) && ReviewedByOwner(reviews, parents)
    requires row.fields.parentId in parents && parents[row.fields.parentId].userId == row.userId
    ensures ParentsExist(reviews[row.id := row], parents) && ReviewedByOwner(reviews[row.id := row], parents)
  {
  }

  /** Removing a review keeps the others' parents. */
  lemma ReviewRemovalKeepsParents<D>(reviews: Table<ReviewFields>, parents: Table<D>, id: Id)
    requires ParentsExist(reviews, parents) && ReviewedByOwner(reviews, parents)
    ensures ParentsExist(reviews - {id}, parents) && ReviewedByOwner(reviews - {id}, parents)
  {
  }

  /** Removing a parent and its reviews keeps the others' parents. */
  lemma ParentRemovalKeepsReviews<D>(reviews: Table<ReviewFields>, parents: Table<D>, users: map<Id, User>, id: Id)
    requires TableValid(reviews, users) && ParentsExist(reviews, parents) && ReviewedByOwner(reviews, parents)
    ensures TableValid(WithParentIn(reviews, parents - {id}), users)
    ensures ParentsExist(WithParentIn(reviews, parents - {id}), parents - {id})
    ensures ReviewedByOwner(WithParentIn(reviews, parents - {id}), parents - {id})
    ensures forall k :: k in WithParentIn(reviews, parents - {id}) <==> k in reviews && reviews[k].fields.parentId != id
  {
  }

  /** The reviews listed under a parent the caller owns are all the
      caller's own: the listing filters only by parent, and the
      invariant does the rest. */
  lemma ListedReviewsAreOwn<D>(rows: seq<Review>, reviews: Table<ReviewFields>, parents: Table<D>,
                               parentId: Id, uid: Id)
    requires Selects(rows, reviews, ParentIs(parentId))
    requires ReviewedByOwner(reviews, parents) && Owns(parents, parentId, uid)
    ensures forall i :: 0 <= i < |rows| ==> rows[i].userId == uid && rows[i].fields.parentId == parentId
  {
    forall i | 0 <= i < |rows|
      ensures rows[i].userId == uid && rows[i].fields.parentId == parentId
    {
      assert rows[i].id in reviews && reviews[rows[i].id] == rows[i] && ParentIs(parentId)(rows[i]);
    }
  }
}
