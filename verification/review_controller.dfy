/**
 * `POST /review/:trainerId`: an authenticated client reviews a trainer.
 * The handler runs its checks in a fixed order, answers with the first one
 * that fails and stores nothing in that case; otherwise it inserts one
 * review, whose after-create hook recounts the trainer's rating.
 */
module ReviewController {
  import opened Js
  import opened UserModel
  import opened ReviewModel
  import opened Database

  /** The reply of `createReview`, decided by the first check that fails, or
      `None` when every check passes and the review is inserted. */
  function ReviewRefusal(d: Tables, callerId: int, trainerIdParam: string,
                         rating: Option<int>, reviewText: Option<string>): Option<Reply>
  {
    var parsed := ParseInt(trainerIdParam);
    if parsed.None? then Some(Reply(400, "Trainer doesnt exist"))
    else if parsed.value !in d.trainers then Some(Reply(400, "Trainer doesnt exist"))
    else if parsed.value == callerId then Some(Reply(400, "Trainers cant review themself"))
    else if HasReviewBy(d.reviews, callerId, parsed.value) then
      Some(Reply(400, "You already left a review for this trainer"))
    else if !ValidReview(NewReview(d.nextReviewId, parsed.value, callerId, rating, reviewText)) then
      Some(Reply(400, "Validation failed"))
    else None
  }

  /** The checks `createReview` makes, and the only way past them: the path
      parameter parses to an integer naming an existing trainer, that id is
      not the caller's own user id (trainer ids and user ids are compared as
      written), the caller has no review of that trainer yet, and the rating
      and text pass the validators. */
  lemma ReviewAccepted(d: Tables, callerId: int, trainerIdParam: string,
                       rating: Option<int>, reviewText: Option<string>)
    ensures ReviewRefusal(d, callerId, trainerIdParam, rating, reviewText).None? <==>
      && ParseInt(trainerIdParam).Some?
      && ParseInt(trainerIdParam).value in d.trainers
      && ParseInt(trainerIdParam).value != callerId
      && !HasReviewBy(d.reviews, callerId, ParseInt(trainerIdParam).value)
      && rating.Some? && 1 <= rating.value <= 5
      && (reviewText.None? || 10 <= |reviewText.value| <= 100)
    ensures ReviewRefusal(d, callerId, trainerIdParam, rating, reviewText).Some? ==>
      ReviewRefusal(d, callerId, trainerIdParam, rating, reviewText).value.status == 400
  {
  }

  /** A second review of the same trainer by the same client is always
      refused, whatever it says. */
  lemma SecondReviewRefused(d: Tables, callerId: int, trainerIdParam: string,
                            rating: Option<int>, reviewText: Option<string>,
                            rating2: Option<int>, reviewText2: Option<string>)
    requires ValidTables(d)
    requires ReviewRefusal(d, callerId, trainerIdParam, rating, reviewText).None?
    ensures var t := ParseInt(trainerIdParam).value;
            var after := WithReview(d, NewReview(d.nextReviewId, t, callerId, rating, reviewText));
            ReviewRefusal(after, callerId, trainerIdParam, rating2, reviewText2) ==
              Some(Reply(400, "You already left a review for this trainer"))
  {
    var t := ParseInt(trainerIdParam).value;
    var row := NewReview(d.nextReviewId, t, callerId, rating, reviewText);
    var after := WithReview(d, row);
    assert after.reviews[|d.reviews|] == row;
    assert t in after.trainers;
  }

  /** `createReview(req, res)` for the authenticated `caller`. */
  method CreateReview(db: Store, caller: PublicUser, trainerIdParam: string,
                      rating: Option<int>, reviewText: Option<string>) returns (reply: Reply)
    requires db.Valid()
    modifies db
    ensures var refusal := ReviewRefusal(old(db.State()), caller.id, trainerIdParam, rating, reviewText);
            refusal.Some? ==> reply == refusal.value && db.State() == old(db.State())
    ensures var refusal := ReviewRefusal(old(db.State()), caller.id, trainerIdParam, rating, reviewText);
            refusal.None? ==>
              && reply == Reply(201, "Complete review")
              && db.State() == WithReview(old(db.State()),
                   NewReview(old(db.nextReviewId), ParseInt(trainerIdParam).value, caller.id, rating, reviewText))
    ensures db.Valid()
    ensures OnePerClientAndTrainer(old(db.reviews)) ==> OnePerClientAndTrainer(db.reviews)
  {
    var trainerId := ParseInt(trainerIdParam);
    if trainerId.None? {
      return Reply(400, "Trainer doesnt exist");
    }
    if trainerId.value !in db.trainers {
      return Reply(400, "Trainer doesnt exist");
    }
    if trainerId.value == caller.id {
      return Reply(400, "Trainers cant review themself");
    }
    if HasReviewBy(db.reviews, caller.id, trainerId.value) {
      return Reply(400, "You already left a review for this trainer");
    }
    ghost var before := db.reviews;
    var created := db.CreateReview(trainerId.value, caller.id, rating, reviewText);
    if !created {
      return Reply(400, "Validation failed");
    }
    if OnePerClientAndTrainer(before) {
      AppendKeepsOnePer(before, NewReview(old(db.nextReviewId), trainerId.value, caller.id, rating, reviewText));
    }
    return Reply(201, "Complete review");
  }
}
