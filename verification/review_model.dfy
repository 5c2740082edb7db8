/**
 * The `reviews` table and the `Review` model: the rating and text
 * constraints, and the two queries the rating recompute runs over the table
 * (all reviews of a trainer, and those whose text is not empty).
 *
 * The table is a sequence of rows in insertion order. SQL's
 * `review_text <> ''` is not true for a NULL text, so a review without text
 * is not counted by the second query.
 */
module ReviewModel {
  import opened Js

  datatype ReviewRow = ReviewRow(
    id: int,
    trainerId: int,
    clientId: int,
    rating: Option<int>,
    reviewText: Option<string>,
    isVerified: bool,
    isReported: bool)

  /** `rating`: not NULL, an integer from 1 to 5; `reviewText`: NULL or 10 to
      100 characters. */
  predicate ValidReview(r: ReviewRow) {
    && r.rating.Some? && 1 <= r.rating.value <= 5
    && (r.reviewText.None? || 10 <= |r.reviewText.value| <= 100)
  }

  /** The row `Review.create` builds: both flags default to false. */
  function NewReview(id: int, trainerId: int, clientId: int, rating: Option<int>,
                     reviewText: Option<string>): (r: ReviewRow)
    ensures r.id == id && r.trainerId == trainerId && r.clientId == clientId
    ensures r.rating == rating && r.reviewText == reviewText
    ensures !r.isVerified && !r.isReported
  {
    ReviewRow(id, trainerId, clientId, rating, reviewText, false, false)
  }

  /** `Review.findAll({ where: { trainerId } })` */
  function ReviewsOf(reviews: seq<ReviewRow>, trainerId: int): (r: seq<ReviewRow>)
    ensures |r| <= |reviews|
    ensures forall x :: x in r <==> x in reviews && x.trainerId == trainerId
  {
    if reviews == [] then []
    else
      var rest := ReviewsOf(reviews[1..], trainerId);
      assert reviews == [reviews[0]] + reviews[1..];
      if reviews[0].trainerId == trainerId then [reviews[0]] + rest else rest
  }

  /** `reviewText <> ''` under SQL semantics: NULL is not counted. */
  predicate HasText(r: ReviewRow) {
    r.reviewText.Some? && r.reviewText.value != ""
  }

  /** `Review.findAll({ where: { trainerId, reviewText: { [Op.ne]: "" } } })` */
  function TextReviewsOf(reviews: seq<ReviewRow>, trainerId: int): (r: seq<ReviewRow>)
    ensures forall x :: x in r <==> x in reviews && x.trainerId == trainerId && HasText(x)
  {
    if reviews == [] then []
    else
      var rest := TextReviewsOf(reviews[1..], trainerId);
      assert reviews == [reviews[0]] + reviews[1..];
      if reviews[0].trainerId == trainerId && HasText(reviews[0]) then [reviews[0]] + rest else rest
  }

  /** The reviews with text are among all the reviews of the trainer, so the
      recomputed `totalRating` never exceeds `reviewCount`. */
  lemma {:induction false} TextReviewsAtMostAll(reviews: seq<ReviewRow>, trainerId: int)
    ensures |TextReviewsOf(reviews, trainerId)| <= |ReviewsOf(reviews, trainerId)|
  {
    if reviews != [] {
      TextReviewsAtMostAll(reviews[1..], trainerId);
    }
  }

  /** When every stored review passes the validators, a stored text is never
      empty, so the reviews counted are exactly those that have a text. */
  lemma TextReviewsOfValid(reviews: seq<ReviewRow>, trainerId: int)
    requires forall k :: 0 <= k < |reviews| ==> ValidReview(reviews[k])
    ensures forall x :: x in TextReviewsOf(reviews, trainerId) <==>
                        x in ReviewsOf(reviews, trainerId) && x.reviewText.Some?
  {
    forall x | x in reviews && x.reviewText.Some? ensures HasText(x) {
      var k :| 0 <= k < |reviews| && reviews[k] == x;
      assert ValidReview(reviews[k]);
    }
  }

  /** Adding a review extends the trainer's list by that review and leaves
      every other trainer's list as it was. */
  lemma {:induction false} ReviewsOfAppend(reviews: seq<ReviewRow>, r: ReviewRow, trainerId: int)
    ensures ReviewsOf(reviews + [r], trainerId) ==
            ReviewsOf(reviews, trainerId) + (if r.trainerId == trainerId then [r] else [])
  {
    if reviews != [] {
      assert (reviews + [r])[1..] == reviews[1..] + [r];
      ReviewsOfAppend(reviews[1..], r, trainerId);
    }
  }

  /** `Review.findOne({ where: { clientId, trainerId } })` finds a row. */
  predicate HasReviewBy(reviews: seq<ReviewRow>, clientId: int, trainerId: int) {
    exists k :: 0 <= k < |reviews| && reviews[k].clientId == clientId && reviews[k].trainerId == trainerId
  }

  /** At most one review per (client, trainer). */
  predicate OnePerClientAndTrainer(reviews: seq<ReviewRow>) {
    forall i, j :: 0 <= i < j < |reviews| ==>
      !(reviews[i].clientId == reviews[j].clientId && reviews[i].trainerId == reviews[j].trainerId)
  }

  /** Appending a review for a pair that has none keeps the pairs unique. */
  lemma AppendKeepsOnePer(reviews: seq<ReviewRow>, r: ReviewRow)
    requires OnePerClientAndTrainer(reviews)
    requires !HasReviewBy(reviews, r.clientId, r.trainerId)
    ensures OnePerClientAndTrainer(reviews + [r])
  {
    var rs := reviews + [r];
    forall i, j | 0 <= i < j < |rs|
      ensures !(rs[i].clientId == rs[j].clientId && rs[i].trainerId == rs[j].trainerId)
    {
      if j == |reviews| {
        assert rs[i] == reviews[i];
      }
    }
  }
}
