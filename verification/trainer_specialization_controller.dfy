/**
 * The trainer-specialization handlers: `createTrainerSpecialization` links
 * the caller's profile to the requested specializations it does not have
 * yet, and `getAllTrainerSpecializations` lists every link, newest first.
 */
module TrainerSpecializationController {
  import opened Js
  import opened UserModel
  import opened SpecializationModel
  import opened Database

  /** The rows `createTrainerSpecialization` inserts for the profile
      `trainerId`: one per requested specialization the profile is not yet
      linked to, in request order. */
  function LinksToCreate(links: seq<LinkRow>, trainerId: int, requests: seq<SpecRequest>, now: int): (r: seq<LinkRow>)
    ensures forall l :: l in r ==> l.trainerId == trainerId && l.createdAt == now
    ensures forall l :: l in r ==> l.specializationId !in LinkedIds(links, trainerId)
    ensures forall l :: l in r ==>
              exists s :: s in requests && l.specializationId == s.specializationId &&
                          l.experienceLevel == s.experienceLevel && l.certification == s.certification
  {
    var added := ToAdd(requests, ExistingIds(links, trainerId, RequestedIds(requests)));
    var r := NewLinks(trainerId, added, now);
    assert forall l :: l in r ==> exists k :: 0 <= k < |added| && l == r[k];
    r
  }

  /** A request whose ids are all linked already adds nothing, so repeating a
      request that succeeded is answered 409. */
  lemma RepeatAddsNothing(links: seq<LinkRow>, trainerId: int, requests: seq<SpecRequest>, now: int, later: int)
    ensures LinksToCreate(links + LinksToCreate(links, trainerId, requests, now), trainerId, requests, later) == []
  {
    var after := links + LinksToCreate(links, trainerId, requests, now);
    var existing := ExistingIds(after, trainerId, RequestedIds(requests));
    AllRequestedLinked(links, trainerId, requests, now);
    forall s | s in requests ensures s.specializationId in existing {
      var k :| 0 <= k < |requests| && requests[k] == s;
      assert s.specializationId == RequestedIds(requests)[k];
    }
  }

  /** `createTrainerSpecialization(req, res)`. `specializations` is `None`
      when the body field is not an array. */
  method CreateTrainerSpecialization(db: Store, caller: PublicUser, specializations: Option<seq<SpecRequest>>, now: int)
    returns (reply: Reply)
    requires db.Valid()
    modifies db
    ensures !HasProfile(old(db.trainers), caller.id) ==>
              reply == Reply(403, "Trainer doesnt exist for this user") && db.State() == old(db.State())
    ensures HasProfile(old(db.trainers), caller.id) && (specializations.None? || specializations.value == []) ==>
              reply == Reply(400, "Specializztions must be a non empty array") && db.State() == old(db.State())
    ensures HasProfile(old(db.trainers), caller.id) && specializations.Some? && specializations.value != [] &&
            |specializations.value| != |ActiveMatches(old(db.catalogue), RequestedIds(specializations.value))| ==>
              reply == Reply(400, "One or more specialization ids are invalid or inactive") && db.State() == old(db.State())
    ensures HasProfile(old(db.trainers), caller.id) && specializations.Some? && specializations.value != [] &&
            |specializations.value| == |ActiveMatches(old(db.catalogue), RequestedIds(specializations.value))| ==>
              exists k :: k in old(db.trainers) && old(db.trainers)[k].userId == caller.id &&
                (LinksToCreate(old(db.links), k, specializations.value, now) == [] ==>
                   reply == Reply(409, "You already have all the specs")) &&
                (LinksToCreate(old(db.links), k, specializations.value, now) != [] ==>
                   reply == Reply(201, "Specializations added succesfully"))
    ensures reply.status == 409 ==>
              reply.message == "You already have all the specs" && db.State() == old(db.State())
    ensures reply.status in {201, 400, 403, 409}
    ensures reply.status != 201 ==> db.State() == old(db.State())
    ensures reply.status == 201 ==>
              && reply.message == "Specializations added succesfully"
              && specializations.Some?
              && Distinct(RequestedIds(specializations.value))
              && exists k :: k in old(db.trainers) && old(db.trainers)[k].userId == caller.id &&
                   var rows := LinksToCreate(old(db.links), k, specializations.value, now);
                   rows != [] &&
                   db.State() == old(db.State()).(links := old(db.links) + rows) &&
                   forall s :: s in specializations.value ==> s.specializationId in LinkedIds(db.links, k)
    ensures db.Valid()
  {
    if !HasProfile(db.trainers, caller.id) {
      return Reply(403, "Trainer doesnt exist for this user");
    }
    var k :| k in db.trainers && db.trainers[k].userId == caller.id;
    if specializations.None? || |specializations.value| == 0 {
      return Reply(400, "Specializztions must be a non empty array");
    }
    var requests := specializations.value;
    var ids := RequestedIds(requests);
    var valid := ActiveMatches(db.catalogue, ids);
    if |ids| != |valid| {
      return Reply(400, "One or more specialization ids are invalid or inactive");
    }
    CountCheckAccepts(db.catalogue, ids);
    var existing := ExistingIds(db.links, k, ids);
    var toAdd := ToAdd(requests, existing);
    if |toAdd| == 0 {
      return Reply(409, "You already have all the specs");
    }
    AllRequestedLinked(db.links, k, requests, now);
    db.InsertLinks(NewLinks(k, toAdd, now));
    return Reply(201, "Specializations added succesfully");
  }

  /** `getAllTrainerSpecializations(req, res)`: every link, newest first. */
  method GetAllTrainerSpecializations(db: Store) returns (reply: Reply, rows: seq<LinkRow>)
    ensures reply == Reply(200, "Trainer specializations retrieved successfully")
    ensures NewestFirst(rows)
    ensures multiset(rows) == multiset(db.links)
  {
    rows := SortNewestFirst(db.links);
    reply := Reply(200, "Trainer specializations retrieved successfully");
  }
}
