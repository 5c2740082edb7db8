/**
 * The `trainer_profiles` table and the `Trainer` model: the profile fields a
 * trainer supplies with their range and length constraints, the defaults of
 * a new profile, the view counter, and the two getters `averageRating` and
 * `isComplete`.
 *
 * DECIMAL columns are exact numbers (`real`). `totalRating` is declared
 * DECIMAL(3,2) but only ever receives a count of reviews, so it is an `int`
 * here; the width of that column is `TOTAL_RATING_LIMIT`.
 */
module TrainerModel {
  import opened Js

  /** A DECIMAL(3,2) holds values of absolute value below 10. */
  const TOTAL_RATING_LIMIT: int := 10

  /** The fields a trainer supplies for a profile. */
  datatype Profile = Profile(
    bio: Option<string>,
    experienceYears: Option<int>,
    hourlyRate: Option<real>,
    sessionRate: Option<real>,
    locationCity: Option<string>,
    locationState: Option<string>,
    locationCountry: Option<string>,
    latitude: Option<real>,
    longitude: Option<real>)

  /** One row of `trainer_profiles`. */
  datatype TrainerRow = TrainerRow(
    id: int,
    userId: int,
    profile: Profile,
    isActive: bool,
    isFeatured: bool,
    isAvailable: bool,
    profileViews: int,
    totalRating: int,
    reviewCount: int)

  predicate IntIn(x: Option<int>, lo: int, hi: int) {
    x.None? || lo <= x.value <= hi
  }

  predicate RealIn(x: Option<real>, lo: real, hi: real) {
    x.None? || lo <= x.value <= hi
  }

  predicate LengthIn(s: Option<string>, lo: nat, hi: nat) {
    s.None? || lo <= |s.value| <= hi
  }

  /** The `@Validate` ranges and lengths; NULL passes every validator. */
  predicate ValidProfile(p: Profile) {
    && IntIn(p.experienceYears, 0, 50)
    && RealIn(p.hourlyRate, 0.0, 999.99)
    && RealIn(p.sessionRate, 0.0, 999.99)
    && LengthIn(p.locationCity, 2, 100)
    && LengthIn(p.locationState, 2, 50)
    && LengthIn(p.locationCountry, 2, 50)
    && RealIn(p.latitude, -90.0, 90.0)
    && RealIn(p.longitude, -180.0, 180.0)
  }

  predicate ValidTrainer(t: TrainerRow) {
    ValidProfile(t.profile)
  }

  /** The row `Trainer.create` stores: the given profile and the column
      defaults (active, not featured, available, no views, no reviews). */
  function NewTrainer(id: int, userId: int, p: Profile): (t: TrainerRow)
    ensures t.id == id && t.userId == userId && t.profile == p
    ensures t.isActive && !t.isFeatured && t.isAvailable
    ensures t.profileViews == 0 && t.totalRating == 0 && t.reviewCount == 0
    ensures ValidTrainer(t) <==> ValidProfile(p)
  {
    TrainerRow(id, userId, p, true, false, true, 0, 0, 0)
  }

  /** The `averageRating` getter: 0 for a trainer without reviews, otherwise
      the stored `totalRating`. */
  function AverageRating(t: TrainerRow): (r: int)
    ensures t.reviewCount <= 0 ==> r == 0
    ensures t.reviewCount > 0 ==> r == t.totalRating
  {
    if t.reviewCount > 0 then t.totalRating else 0
  }

  /** A rate is truthy when it is present and not zero. */
  predicate NonZero(rate: Option<real>) {
    rate.Some? && rate.value != 0.0
  }

  /** The `isComplete` getter. */
  predicate IsComplete(t: TrainerRow) {
    && Truthy(t.profile.bio)
    && t.profile.experienceYears.Some?
    && (NonZero(t.profile.hourlyRate) || NonZero(t.profile.sessionRate))
    && Truthy(t.profile.locationCity)
    && Truthy(t.profile.locationState)
  }

  /** The parts of a profile `isComplete` asks for. */
  datatype Requirement = Bio | Experience | Rate | City | State

  /** Which requirements a profile does not meet, checked one by one. */
  function Missing(p: Profile): set<Requirement> {
    (if Truthy(p.bio) then {} else {Bio})
    + (if p.experienceYears.Some? then {} else {Experience})
    + (if NonZero(p.hourlyRate) || NonZero(p.sessionRate) then {} else {Rate})
    + (if Truthy(p.locationCity) then {} else {City})
    + (if Truthy(p.locationState) then {} else {State})
  }

  /** A profile is complete exactly when no requirement is missing; the
      country, the coordinates and the counters play no part. */
  lemma IsCompleteIffNothingMissing(t: TrainerRow)
    ensures IsComplete(t) <==> Missing(t.profile) == {}
  {
    if !IsComplete(t) {
      if !Truthy(t.profile.bio) { assert Bio in Missing(t.profile); }
      else if t.profile.experienceYears.None? { assert Experience in Missing(t.profile); }
      else if !(NonZero(t.profile.hourlyRate) || NonZero(t.profile.sessionRate)) { assert Rate in Missing(t.profile); }
      else if !Truthy(t.profile.locationCity) { assert City in Missing(t.profile); }
      else { assert State in Missing(t.profile); }
    }
  }

  /** A loaded `Trainer` instance; `save()` writes `Row()` back. */
  class Trainer {
    var id: int
    var userId: int
    var profile: Profile
    var isActive: bool
    var isFeatured: bool
    var isAvailable: bool
    var profileViews: int
    var totalRating: int
    var reviewCount: int

    function Row(): TrainerRow
      reads this
    {
      TrainerRow(id, userId, profile, isActive, isFeatured, isAvailable, profileViews, totalRating, reviewCount)
    }

    constructor Load(r: TrainerRow)
      ensures Row() == r
    {
      id, userId, profile := r.id, r.userId, r.profile;
      isActive, isFeatured, isAvailable := r.isActive, r.isFeatured, r.isAvailable;
      profileViews, totalRating, reviewCount := r.profileViews, r.totalRating, r.reviewCount;
    }

    /** `incrementViews()`: one more view, nothing else changes. */
    method IncrementViews()
      modifies this
      ensures Row() == old(Row()).(profileViews := old(profileViews) + 1)
    {
      profileViews := profileViews + 1;
    }
  }
}
