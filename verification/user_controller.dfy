/**
 * `PUT /user/profile`: the caller updates their own name, phone and picture.
 * Each field takes the request's value when that value is truthy and keeps
 * the stored one otherwise. `user.update` saves only the fields whose value
 * changes, and validates only those.
 */
module UserController {
  import opened Js
  import opened UserModel
  import opened Database

  /** The four body fields; `None` for a field the body leaves out. */
  datatype ProfileRequest = ProfileRequest(
    firstName: Option<string>,
    lastName: Option<string>,
    phone: Option<string>,
    profileImageUrl: Option<string>)

  /** `value || stored` for a required string column. */
  function OrKeep(value: Option<string>, stored: string): string {
    if Truthy(value) then value.value else stored
  }

  /** `value || stored` for a nullable string column. */
  function OrKeepNullable(value: Option<string>, stored: Option<string>): Option<string> {
    if Truthy(value) then value else stored
  }

  /** The row `user.update({ firstName: firstName || user.firstName, ... })`
      asks to store: each of the four fields takes the request value exactly
      when it is truthy, and no other column changes. */
  function MergeProfile(u: UserRow, req: ProfileRequest): (r: UserRow)
    ensures r.firstName == (if Truthy(req.firstName) then req.firstName.value else u.firstName)
    ensures r.lastName == (if Truthy(req.lastName) then req.lastName.value else u.lastName)
    ensures r.phone == (if Truthy(req.phone) then req.phone else u.phone)
    ensures r.profileImageUrl == (if Truthy(req.profileImageUrl) then req.profileImageUrl else u.profileImageUrl)
    ensures r.(firstName := u.firstName, lastName := u.lastName, phone := u.phone,
               profileImageUrl := u.profileImageUrl) == u
  {
    u.(firstName := OrKeep(req.firstName, u.firstName),
       lastName := OrKeep(req.lastName, u.lastName),
       phone := OrKeepNullable(req.phone, u.phone),
       profileImageUrl := OrKeepNullable(req.profileImageUrl, u.profileImageUrl))
  }

  /** Applying the same request twice gives the row of applying it once. */
  lemma MergeProfileIdempotent(u: UserRow, req: ProfileRequest)
    ensures MergeProfile(MergeProfile(u, req), req) == MergeProfile(u, req)
  {
  }

  /** A request with no truthy field (each one absent, null or empty)
      changes nothing. */
  lemma EmptyRequestKeepsRow(u: UserRow, req: ProfileRequest)
    requires !Truthy(req.firstName) && !Truthy(req.lastName) && !Truthy(req.phone) && !Truthy(req.profileImageUrl)
    ensures MergeProfile(u, req) == u
  {
  }

  /** The validators of the fields whose value changes (what `save` checks
      for an update). */
  predicate ChangedFieldsValid(before: UserRow, after: UserRow) {
    && (after.firstName != before.firstName ==> LengthIn(after.firstName, 2, 50))
    && (after.lastName != before.lastName ==> LengthIn(after.lastName, 2, 50))
    && (after.phone != before.phone ==> ValidPhone(after.phone))
    && (after.profileImageUrl != before.profileImageUrl ==> ValidImageUrl(after.profileImageUrl))
  }

  /** A valid row stays valid under an update the validators accept. */
  lemma AcceptedUpdateKeepsValid(u: UserRow, req: ProfileRequest)
    requires ValidUser(u) && ChangedFieldsValid(u, MergeProfile(u, req))
    ensures ValidUser(MergeProfile(u, req))
  {
  }

  /** `updateProfile(req, res)` for the authenticated `caller`. */
  method UpdateProfile(db: Store, caller: PublicUser, req: ProfileRequest) returns (reply: Reply)
    requires db.Valid()
    modifies db
    ensures caller.id !in old(db.users) ==>
              reply == Reply(404, "User not found") && db.State() == old(db.State())
    ensures caller.id in old(db.users) && !ChangedFieldsValid(old(db.users)[caller.id], MergeProfile(old(db.users)[caller.id], req)) ==>
              reply == Reply(400, "Validation failed") && db.State() == old(db.State())
    ensures caller.id in old(db.users) && ChangedFieldsValid(old(db.users)[caller.id], MergeProfile(old(db.users)[caller.id], req)) ==>
              reply == Reply(200, "Profile updated succesfully!") &&
              db.State() == old(db.State()).(users := old(db.users)[caller.id := MergeProfile(old(db.users)[caller.id], req)])
    ensures db.Valid()
  {
    if caller.id !in db.users {
      return Reply(404, "User not found");
    }
    var user := new User.Load(db.users[caller.id]);
    var merged := MergeProfile(user.Row(), req);
    if !ChangedFieldsValid(user.Row(), merged) {
      return Reply(400, "Validation failed");
    }
    user.firstName, user.lastName := merged.firstName, merged.lastName;
    user.phone, user.profileImageUrl := merged.phone, merged.profileImageUrl;
    db.SaveUser(user);
    return Reply(200, "Profile updated succesfully!");
  }
}
