/**
 * The server's database: the tables the handlers read and write, kept in one
 * `Store` object, and the table operations with the side effects the models
 * attach to them (the review hooks that recount a trainer's rating).
 *
 * Auto-increment ids are the counters `nextTrainerId` and `nextReviewId`.
 * A failed INSERT or UPDATE writes nothing; the handlers turn a validation
 * failure into a reply of their own.
 */
module Database {
  import opened Js
  import opened UserModel
  import opened TrainerModel
  import opened ReviewModel
  import opened SpecializationModel

  /** What `sendError` / `sendSuccess` / `res.json` answer: a status and a message. */
  datatype Reply = Reply(status: int, message: string)

  /** A snapshot of every table. */
  datatype Tables = Tables(
    users: map<int, UserRow>,
    trainers: map<int, TrainerRow>,
    reviews: seq<ReviewRow>,
    catalogue: map<int, SpecializationRow>,
    links: seq<LinkRow>,
    nextTrainerId: int,
    nextReviewId: int)

  /** The rating columns of a trainer row hold what the table accepts:
      `totalRating` fits DECIMAL(3,2) and never exceeds `reviewCount`. */
  predicate RatingBound(t: TrainerRow) {
    0 <= t.totalRating <= t.reviewCount && t.totalRating < TOTAL_RATING_LIMIT
  }

  /** The consistency every stored state keeps: rows sit under their own id,
      ids are below the next auto-increment value, and every row passes its
      model's validators. */
  predicate ValidTables(d: Tables) {
    && (forall k :: k in d.users ==> d.users[k].id == k)
    && (forall k :: k in d.trainers ==>
          d.trainers[k].id == k && k < d.nextTrainerId
          && ValidTrainer(d.trainers[k]) && RatingBound(d.trainers[k]))
    && (forall i :: 0 <= i < |d.reviews| ==>
          ValidReview(d.reviews[i]) && d.reviews[i].id < d.nextReviewId)
    && (forall k :: k in d.catalogue ==> d.catalogue[k].id == k)
  }

  /** At most one trainer profile per user. */
  predicate OneProfilePerUser(trainers: map<int, TrainerRow>) {
    forall a, b :: a in trainers && b in trainers && trainers[a].userId == trainers[b].userId ==> a == b
  }

  /** `Trainer.findOne({ where: { userId } })` finds a row. */
  predicate HasProfile(trainers: map<int, TrainerRow>, userId: int) {
    exists k :: k in trainers && trainers[k].userId == userId
  }

  // ---------------------------------------------------------------------
  // The rating recompute

  /** The trainer table after `Review.updateTrainerRating(trainerId)` over the
      given reviews. Only that trainer's row can change: `reviewCount` becomes
      the number of its reviews and `totalRating` the number of those with a
      non-empty text. A count of 10 or more does not fit DECIMAL(3,2), the
      save fails, the empty `catch` swallows the error and nothing is written. */
  function Recounted(trainers: map<int, TrainerRow>, reviews: seq<ReviewRow>, trainerId: int): (r: map<int, TrainerRow>)
    ensures r.Keys == trainers.Keys
    ensures forall k :: k in trainers && k != trainerId ==> r[k] == trainers[k]
    ensures trainerId in trainers && |TextReviewsOf(reviews, trainerId)| < TOTAL_RATING_LIMIT ==>
      r[trainerId].reviewCount == |ReviewsOf(reviews, trainerId)| &&
      r[trainerId].totalRating == |TextReviewsOf(reviews, trainerId)| &&
      r[trainerId].(reviewCount := trainers[trainerId].reviewCount,
                    totalRating := trainers[trainerId].totalRating) == trainers[trainerId]
    ensures trainerId !in trainers || |TextReviewsOf(reviews, trainerId)| >= TOTAL_RATING_LIMIT ==>
      r == trainers
  {
    if trainerId in trainers && |TextReviewsOf(reviews, trainerId)| < TOTAL_RATING_LIMIT then
      trainers[trainerId := trainers[trainerId].(reviewCount := |ReviewsOf(reviews, trainerId)|,
                                                 totalRating := |TextReviewsOf(reviews, trainerId)|)]
    else trainers
  }

  /** Whatever the reviews, a recount keeps every trainer row valid and within
      the rating bound: a written `totalRating` counts a subset of the reviews
      `reviewCount` counts, and one that would not fit is never written. */
  lemma RecountedKeepsBound(trainers: map<int, TrainerRow>, reviews: seq<ReviewRow>, trainerId: int)
    requires forall k :: k in trainers ==> ValidTrainer(trainers[k]) && RatingBound(trainers[k])
    ensures var r := Recounted(trainers, reviews, trainerId);
            forall k :: k in r ==> ValidTrainer(r[k]) && RatingBound(r[k])
  {
    TextReviewsAtMostAll(reviews, trainerId);
  }

  /** A recount is a function of the trainer's reviews alone: running it
      twice over the same reviews gives the table of running it once. */
  lemma RecountedIdempotent(trainers: map<int, TrainerRow>, reviews: seq<ReviewRow>, trainerId: int)
    ensures Recounted(Recounted(trainers, reviews, trainerId), reviews, trainerId) ==
            Recounted(trainers, reviews, trainerId)
  {
  }

  /** The tables after a valid review is inserted and its after-create hook
      has run. */
  function WithReview(d: Tables, row: ReviewRow): (r: Tables)
    ensures r.reviews == d.reviews + [row] && r.nextReviewId == d.nextReviewId + 1
    ensures r.trainers == Recounted(d.trainers, d.reviews + [row], row.trainerId)
    ensures r.(reviews := d.reviews, nextReviewId := d.nextReviewId, trainers := d.trainers) == d
  {
    d.(reviews := d.reviews + [row], nextReviewId := d.nextReviewId + 1,
       trainers := Recounted(d.trainers, d.reviews + [row], row.trainerId))
  }

  /** Inserting a valid review under the next id keeps the tables consistent. */
  lemma WithReviewValid(d: Tables, row: ReviewRow)
    requires ValidTables(d) && ValidReview(row) && row.id == d.nextReviewId
    ensures ValidTables(WithReview(d, row))
  {
    RecountedKeepsBound(d.trainers, d.reviews + [row], row.trainerId);
    var rs := d.reviews + [row];
    forall i | 0 <= i < |rs| ensures ValidReview(rs[i]) && rs[i].id < d.nextReviewId + 1 {
      if i < |d.reviews| { assert rs[i] == d.reviews[i]; }
    }
  }

  // ---------------------------------------------------------------------
  // The store

  class Store {
    var users: map<int, UserRow>
    var trainers: map<int, TrainerRow>
    var reviews: seq<ReviewRow>
    var catalogue: map<int, SpecializationRow>
    var links: seq<LinkRow>
    var nextTrainerId: int
    var nextReviewId: int

    function State(): Tables
      reads this
    {
      Tables(users, trainers, reviews, catalogue, links, nextTrainerId, nextReviewId)
    }

    predicate Valid()
      reads this
    {
      ValidTables(State())
    }

    /** A database holding the given users and specializations and nothing else. */
    constructor (users: map<int, UserRow>, catalogue: map<int, SpecializationRow>)
      requires forall k :: k in users ==> users[k].id == k
      requires forall k :: k in catalogue ==> catalogue[k].id == k
      ensures State() == Tables(users, map[], [], catalogue, [], 1, 1)
      ensures Valid()
    {
      this.users := users;
      this.catalogue := catalogue;
      trainers, reviews, links := map[], [], [];
      nextTrainerId, nextReviewId := 1, 1;
    }

    /** `save()` of a loaded user: its row replaces the stored one. */
    method SaveUser(u: User)
      requires u.id in users
      modifies this
      ensures State() == old(State()).(users := old(users)[u.id := u.Row()])
      ensures old(Valid()) ==> Valid()
    {
      users := users[u.id := u.Row()];
    }

    /** `Review.updateTrainerRating(trainerId)`: `Some(false)` for the explicit
        `return false` when the trainer does not exist, `None` for the
        `undefined` of every other path. */
    method UpdateTrainerRating(trainerId: int) returns (result: Option<bool>)
      modifies this
      ensures State() == old(State()).(trainers := Recounted(old(trainers), reviews, trainerId))
      ensures result == (if trainerId in old(trainers) then None else Some(false))
    {
      if trainerId !in trainers {
        return Some(false);
      }
      var trainer := new Trainer.Load(trainers[trainerId]);
      var withText := TextReviewsOf(reviews, trainerId);
      var all := ReviewsOf(reviews, trainerId);
      trainer.reviewCount := |all|;
      trainer.totalRating := |withText|;
      // `save()`: a value of 10 or more overflows the DECIMAL(3,2) column
      if trainer.totalRating < TOTAL_RATING_LIMIT {
        trainers := trainers[trainerId := trainer.Row()];
      }
      return None;
    }

    /** `Review.create(...)` followed by its after-create hook. A review the
        validators refuse is not stored and `created` is false. */
    method CreateReview(trainerId: int, clientId: int, rating: Option<int>, reviewText: Option<string>)
      returns (created: bool)
      requires Valid()
      modifies this
      ensures created <==> ValidReview(NewReview(old(nextReviewId), trainerId, clientId, rating, reviewText))
      ensures created ==> State() == WithReview(old(State()), NewReview(old(nextReviewId), trainerId, clientId, rating, reviewText))
      ensures !created ==> State() == old(State())
      ensures Valid()
    {
      var row := NewReview(nextReviewId, trainerId, clientId, rating, reviewText);
      if !ValidReview(row) {
        return false;
      }
      ghost var before := State();
      reviews := reviews + [row];
      nextReviewId := nextReviewId + 1;
      var _ := UpdateTrainerRating(trainerId);
      WithReviewValid(before, row);
      return true;
    }

    /** `review.update(...)` followed by its after-update hook, which recounts
        the trainer the review names after the update (only that one). */
    method UpdateReview(k: int, newRow: ReviewRow) returns (saved: bool)
      requires Valid() && 0 <= k < |reviews| && newRow.id == reviews[k].id
      modifies this
      ensures saved <==> ValidReview(newRow)
      ensures saved ==> State() == old(State()).(reviews := old(reviews)[k := newRow],
                                                trainers := Recounted(old(trainers), old(reviews)[k := newRow], newRow.trainerId))
      ensures !saved ==> State() == old(State())
      ensures Valid()
    {
      if !ValidReview(newRow) {
        return false;
      }
      reviews := reviews[k := newRow];
      RecountedKeepsBound(trainers, reviews, newRow.trainerId);
      var _ := UpdateTrainerRating(newRow.trainerId);
      return true;
    }

    /** `review.destroy()` followed by its after-destroy hook. */
    method DestroyReview(k: int)
      requires Valid() && 0 <= k < |reviews|
      modifies this
      ensures State() == old(State()).(reviews := old(reviews)[..k] + old(reviews)[k + 1..],
                                       trainers := Recounted(old(trainers), old(reviews)[..k] + old(reviews)[k + 1..], old(reviews)[k].trainerId))
      ensures Valid()
    {
      var trainerId := reviews[k].trainerId;
      ghost var rs := reviews;
      reviews := reviews[..k] + reviews[k + 1..];
      forall i | 0 <= i < |reviews| ensures ValidReview(reviews[i]) && reviews[i].id < nextReviewId {
        if i < k { assert reviews[i] == rs[i]; } else { assert reviews[i] == rs[i + 1]; }
      }
      RecountedKeepsBound(trainers, reviews, trainerId);
      var _ := UpdateTrainerRating(trainerId);
    }

    /** `Trainer.create(...)`: a profile the validators accept is stored under
        the next id with the column defaults. */
    method CreateTrainer(userId: int, profile: Profile) returns (created: bool)
      requires Valid()
      modifies this
      ensures created <==> ValidProfile(profile)
      ensures created ==> State() == old(State()).(
        trainers := old(trainers)[old(nextTrainerId) := NewTrainer(old(nextTrainerId), userId, profile)],
        nextTrainerId := old(nextTrainerId) + 1)
      ensures !created ==> State() == old(State())
      ensures Valid()
    {
      if !ValidProfile(profile) {
        return false;
      }
      trainers := trainers[nextTrainerId := NewTrainer(nextTrainerId, userId, profile)];
      nextTrainerId := nextTrainerId + 1;
      return true;
    }

    /** `trainer.destroy()`. */
    method DestroyTrainer(id: int)
      requires Valid()
      modifies this
      ensures State() == old(State()).(trainers := old(trainers) - {id})
      ensures Valid()
    {
      trainers := trainers - {id};
    }

    /** `TrainerSpecialization.bulkCreate(rows)`. */
    method InsertLinks(rows: seq<LinkRow>)
      requires Valid()
      modifies this
      ensures State() == old(State()).(links := old(links) + rows)
      ensures Valid()
    {
      links := links + rows;
    }
  }
}
