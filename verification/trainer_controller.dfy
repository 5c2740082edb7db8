/**
 * The trainer-profile handlers: `createTrainer` turns the caller into a
 * trainer and stores a profile, `getTrainer` reads one by id, and
 * `deleteTrainer` removes the caller's profile and makes them a client again.
 *
 * `Trainer.findOne({ where: { userId } })` has no ORDER BY, so when several
 * rows match, any of them may come back; the model picks one with `:|`.
 */
module TrainerController {
  import opened Js
  import opened UserModel
  import opened TrainerModel
  import opened SpecializationModel
  import opened Database

  /** The reply of `createTrainer` when one of the checks before any write
      fails, or `None` when the handler goes on to write. */
  function CreateTrainerRefusal(d: Tables, caller: PublicUser, specializationIds: Option<seq<int>>): Option<Reply> {
    if caller.role == TrainerRole then Some(Reply(400, "You are a trainer already"))
    else if HasProfile(d.trainers, caller.id) then Some(Reply(400, "A trainer profile already exists"))
    else if specializationIds.Some? && |specializationIds.value| > 0
            && |specializationIds.value| != |ActiveMatches(d.catalogue, specializationIds.value)| then
      Some(Reply(400, "One or more specializations are invalid"))
    else if caller.id !in d.users then Some(Reply(404, "User not found"))
    else None
  }

  /** Past the checks exactly when the caller is not a trainer yet, has no
      profile, exists, and every given specialization id is distinct, known
      and active (an empty or missing list is not checked). */
  lemma CreateTrainerPasses(d: Tables, caller: PublicUser, specializationIds: Option<seq<int>>)
    ensures CreateTrainerRefusal(d, caller, specializationIds).None? <==>
      && caller.role != TrainerRole
      && !HasProfile(d.trainers, caller.id)
      && (specializationIds.Some? ==>
            Distinct(specializationIds.value) &&
            forall i :: i in specializationIds.value ==> i in d.catalogue && d.catalogue[i].isActive)
      && caller.id in d.users
  {
    if specializationIds.Some? {
      CountCheckAccepts(d.catalogue, specializationIds.value);
    }
  }

  /** `createTrainer(req, res)`. Once past the checks the user's role is set to
      trainer and saved before the profile is created, so a profile the
      validators refuse leaves the user a trainer without a profile. The
      specialization ids are checked but not linked. */
  method CreateTrainer(db: Store, caller: PublicUser, specializationIds: Option<seq<int>>, profile: Profile)
    returns (reply: Reply)
    requires db.Valid()
    modifies db
    ensures var refusal := CreateTrainerRefusal(old(db.State()), caller, specializationIds);
            refusal.Some? ==> reply == refusal.value && db.State() == old(db.State())
    ensures CreateTrainerRefusal(old(db.State()), caller, specializationIds).None? ==> caller.id in old(db.users)
    ensures CreateTrainerRefusal(old(db.State()), caller, specializationIds).None? && !ValidProfile(profile) ==>
              var promoted := old(db.users)[caller.id := old(db.users)[caller.id].(role := TrainerRole)];
              reply == Reply(400, "Validation trainer error ") &&
              db.State() == old(db.State()).(users := promoted)
    ensures CreateTrainerRefusal(old(db.State()), caller, specializationIds).None? && ValidProfile(profile) ==>
              var promoted := old(db.users)[caller.id := old(db.users)[caller.id].(role := TrainerRole)];
              var id := old(db.nextTrainerId);
              reply == Reply(200, "Trainer profile created succesfully") &&
              db.State() == old(db.State()).(users := promoted,
                                             trainers := old(db.trainers)[id := NewTrainer(id, caller.id, profile)],
                                             nextTrainerId := id + 1)
    ensures db.Valid()
    ensures OneProfilePerUser(old(db.trainers)) ==> OneProfilePerUser(db.trainers)
  {
    if caller.role == TrainerRole {
      return Reply(400, "You are a trainer already");
    }
    if HasProfile(db.trainers, caller.id) {
      return Reply(400, "A trainer profile already exists");
    }
    if specializationIds.Some? && |specializationIds.value| > 0 {
      var valid := ActiveMatches(db.catalogue, specializationIds.value);
      if |specializationIds.value| != |valid| {
        return Reply(400, "One or more specializations are invalid");
      }
    }
    if caller.id !in db.users {
      return Reply(404, "User not found");
    }
    var user := new User.Load(db.users[caller.id]);
    user.role := TrainerRole;
    db.SaveUser(user);
    var created := db.CreateTrainer(caller.id, profile);
    if !created {
      return Reply(400, "Validation trainer error ");
    }
    return Reply(200, "Trainer profile created succesfully");
  }

  /** `getTrainer(req, res)`: the answer and, on success, the row sent as JSON. */
  method GetTrainer(db: Store, trainerIdParam: string) returns (reply: Reply, body: Option<TrainerRow>)
    ensures ParseInt(trainerIdParam) in {None, Some(0)} ==>
              reply == Reply(400, "The trainer id is invalid") && body.None?
    ensures ParseInt(trainerIdParam) !in {None, Some(0)} && ParseInt(trainerIdParam).value !in db.trainers ==>
              reply == Reply(404, "Trainer not found ") && body.None?
    ensures body.Some? <==> reply.status == 200
    ensures body.Some? <==>
              ParseInt(trainerIdParam) !in {None, Some(0)} && ParseInt(trainerIdParam).value in db.trainers
    ensures body.Some? ==> body.value == db.trainers[ParseInt(trainerIdParam).value]
  {
    var trainerId := ParseInt(trainerIdParam);
    if trainerId.None? || trainerId.value == 0 {
      return Reply(400, "The trainer id is invalid"), None;
    }
    if trainerId.value !in db.trainers {
      return Reply(404, "Trainer not found "), None;
    }
    return Reply(200, ""), Some(db.trainers[trainerId.value]);
  }

  /** `deleteTrainer(req, res)`: the profile is looked up before the user, but
      a missing user is reported first. */
  method DeleteTrainer(db: Store, caller: PublicUser) returns (reply: Reply)
    requires db.Valid()
    modifies db
    ensures caller.id !in old(db.users) ==>
              reply == Reply(404, "User nmot found") && db.State() == old(db.State())
    ensures caller.id in old(db.users) && !HasProfile(old(db.trainers), caller.id) ==>
              reply == Reply(404, "No trainer found") && db.State() == old(db.State())
    ensures caller.id in old(db.users) && HasProfile(old(db.trainers), caller.id) ==>
              && reply == Reply(200, "Trainer deleted succesfully")
              && exists k :: k in old(db.trainers) && old(db.trainers)[k].userId == caller.id &&
                   db.State() == old(db.State()).(
                     trainers := old(db.trainers) - {k},
                     users := old(db.users)[caller.id := old(db.users)[caller.id].(role := ClientRole)])
    ensures reply.status == 200 && OneProfilePerUser(old(db.trainers)) ==>
              !HasProfile(db.trainers, caller.id) && db.users[caller.id].role == ClientRole
    ensures OneProfilePerUser(old(db.trainers)) ==> OneProfilePerUser(db.trainers)
    ensures db.Valid()
  {
    var found := HasProfile(db.trainers, caller.id);
    if caller.id !in db.users {
      return Reply(404, "User nmot found");
    }
    if !found {
      return Reply(404, "No trainer found");
    }
    var k :| k in db.trainers && db.trainers[k].userId == caller.id;
    var user := new User.Load(db.users[caller.id]);
    db.DestroyTrainer(k);
    user.role := ClientRole;
    db.SaveUser(user);
    return Reply(200, "Trainer deleted succesfully");
  }

  /** A client who creates a profile and then deletes it ends with no profile
      and the client role; once the create has succeeded the delete cannot
      fail. A delete is only attempted after a successful create. */
  method CreateThenDelete(db: Store, caller: PublicUser, specializationIds: Option<seq<int>>, profile: Profile)
    returns (created: Reply, deleted: Option<Reply>)
    requires db.Valid() && OneProfilePerUser(db.trainers)
    modifies db
    ensures deleted.Some? <==> created.status == 200
    ensures deleted.Some? ==> deleted.value.status == 200
    ensures created.status == 200 ==>
              !HasProfile(db.trainers, caller.id) && caller.id in db.users && db.users[caller.id].role == ClientRole
    ensures created.status == 200 ==>
              db.State() == old(db.State()).(users := db.users, nextTrainerId := old(db.nextTrainerId) + 1)
  {
    created := CreateTrainer(db, caller, specializationIds, profile);
    if created.status != 200 {
      return created, None;
    }
    ghost var mid := db.State();
    var again := ToJson(db.users[caller.id]);
    var answer := DeleteTrainer(db, again);
    deleted := Some(answer);
    assert old(db.nextTrainerId) !in old(db.trainers);
    assert HasProfile(mid.trainers, caller.id) by {
      assert mid.trainers[old(db.nextTrainerId)].userId == caller.id;
    }
    ghost var k :| k in mid.trainers && mid.trainers[k].userId == caller.id &&
             db.trainers == mid.trainers - {k};
    assert k == old(db.nextTrainerId);
    assert db.trainers == old(db.trainers);
  }
}
