/**
 * The e-mail verification handlers: `verifyEmail` checks a token sent by
 * mail, `resendVerifyEmail` issues a fresh one, `checkVerificationStatus`
 * reports the caller's state.
 *
 * `User.findOne({ where: { email } })` has no ORDER BY and e-mail addresses
 * are not unique in the table, so any user with that address may come back.
 * Sending mail is the `mailerOk` parameter: whether the mailer call returned
 * without throwing.
 */
module EmailController {
  import opened Js
  import opened UserModel
  import opened Database

  /** Some user has this e-mail address. */
  predicate HasEmail(users: map<int, UserRow>, email: string) {
    exists k :: k in users && users[k].email == email
  }

  /** The answer of `verifyEmail` once the user `u` has been found. */
  function VerifyReply(u: UserRow, token: string, now: int): (r: Reply)
    ensures r.status == 200 <==> u.emailVerifiedAt.None? && VerifyToken(u, token, now).0
  {
    if u.emailVerifiedAt.Some? then Reply(400, "Email is already verified")
    else if !VerifyToken(u, token, now).0 then Reply(400, "Invalid or expired token")
    else Reply(200, "Email verified succesfully")
  }

  /** The row `verifyEmail` saves for the user `u` it found: the verified row
      after a good token, and the row unchanged otherwise. */
  function VerifiedRow(u: UserRow, token: string, now: int): (r: UserRow)
    ensures VerifyReply(u, token, now).status != 200 ==> r == u
    ensures VerifyReply(u, token, now).status == 200 ==>
              r.isVerified && r.emailVerifiedAt == Some(now) && r.emailVerificationToken.None?
    ensures VerifyReply(u, token, now).status == 200 ==> r == VerifyToken(u, token, now).1
  {
    if u.emailVerifiedAt.Some? then u else VerifyToken(u, token, now).1
  }

  /** Once an address is verified, every further `verifyEmail` for that user
      answers "Email is already verified" and writes nothing, whatever token
      it carries. */
  lemma VerifyOnlyOnce(u: UserRow, token: string, now: int, token2: string, now2: int)
    requires VerifyReply(u, token, now).status == 200
    ensures VerifyReply(VerifiedRow(u, token, now), token2, now2) == Reply(400, "Email is already verified")
    ensures VerifiedRow(VerifiedRow(u, token, now), token2, now2) == VerifiedRow(u, token, now)
  {
  }

  /** `verifyEmail(req, res)` with the query parameters `email` and `token`. */
  method VerifyEmail(db: Store, email: Option<string>, token: Option<string>, now: int) returns (reply: Reply)
    requires db.Valid()
    modifies db
    ensures !Truthy(token) || !Truthy(email) ==>
              reply == Reply(400, "Token and email invalid") && db.State() == old(db.State())
    ensures Truthy(token) && Truthy(email) && !HasEmail(old(db.users), email.value) ==>
              reply == Reply(404, "User not found") && db.State() == old(db.State())
    ensures Truthy(token) && Truthy(email) && HasEmail(old(db.users), email.value) ==>
              exists k :: k in old(db.users) && old(db.users)[k].email == email.value &&
                reply == VerifyReply(old(db.users)[k], token.value, now) &&
                db.State() == old(db.State()).(users := old(db.users)[k := VerifiedRow(old(db.users)[k], token.value, now)])
    ensures reply.status != 200 ==> db.State() == old(db.State())
    ensures db.Valid()
  {
    if !Truthy(token) || !Truthy(email) {
      return Reply(400, "Token and email invalid");
    }
    if !HasEmail(db.users, email.value) {
      return Reply(404, "User not found");
    }
    var k :| k in db.users && db.users[k].email == email.value;
    var user := new User.Load(db.users[k]);
    if user.emailVerifiedAt.Some? {
      return Reply(400, "Email is already verified");
    }
    var isValid := user.VerifyEmailToken(token.value, now);
    db.SaveUser(user);
    if !isValid {
      return Reply(400, "Invalid or expired token");
    }
    return Reply(200, "Email verified succesfully");
  }

  /** `resendVerifyEmail(req, res)`: the replies the handler tries to send, in
      order. When no user has the address the handler answers 200 but does not
      return; reading the token of the missing user then throws and the
      `catch` tries a second reply, 500. A missing address makes the lookup
      itself throw. */
  method ResendVerifyEmail(db: Store, email: Option<string>, random: seq<bv8>, now: int, mailerOk: bool)
    returns (replies: seq<Reply>)
    requires db.Valid() && |random| == 32
    modifies db
    ensures email.None? ==> replies == [Reply(500, "Resending failed")] && db.State() == old(db.State())
    ensures email.Some? && !HasEmail(old(db.users), email.value) ==>
              replies == [Reply(200, "If an account with this email exists, a verification email has been sent"),
                          Reply(500, "Resending failed")] &&
              db.State() == old(db.State())
    ensures email.Some? && HasEmail(old(db.users), email.value) ==>
              && replies == (if mailerOk then [Reply(200, "Verification email sent successfully")]
                             else [Reply(500, "Resending failed")])
              && exists k :: k in old(db.users) && old(db.users)[k].email == email.value &&
                   db.State() == old(db.State()).(users := old(db.users)[k := WithNewToken(old(db.users)[k], HexEncode(random), now)])
    ensures db.Valid()
  {
    if email.None? {
      return [Reply(500, "Resending failed")];
    }
    if !HasEmail(db.users, email.value) {
      return [Reply(200, "If an account with this email exists, a verification email has been sent"),
              Reply(500, "Resending failed")];
    }
    var k :| k in db.users && db.users[k].email == email.value;
    var user := new User.Load(db.users[k]);
    var token := user.GenerateEmailVerificationToken(random, now);
    db.SaveUser(user);
    if !mailerOk {
      return [Reply(500, "Resending failed")];
    }
    return [Reply(200, "Verification email sent successfully")];
  }

  /** The data `checkVerificationStatus` sends. */
  datatype VerificationStatus = VerificationStatus(isVerified: bool, email: string, emailVerifiedAt: Option<int>)

  /** `checkVerificationStatus(req, res)` for the authenticated `caller`. */
  method CheckVerificationStatus(caller: PublicUser) returns (reply: Reply, body: VerificationStatus)
    ensures reply == Reply(200, "Verification status retrieved")
    ensures body.isVerified <==> caller.emailVerifiedAt.Some?
    ensures body.email == caller.email && body.emailVerifiedAt == caller.emailVerifiedAt
  {
    reply := Reply(200, "Verification status retrieved");
    body := VerificationStatus(caller.emailVerifiedAt.Some?, caller.email, caller.emailVerifiedAt);
  }

  /** A fresh token sent by `resendVerifyEmail` and presented to `verifyEmail`
      by the same user before it expires verifies the address, after which the
      status reports it verified. */
  lemma ResentTokenVerifies(u: UserRow, random: seq<bv8>, now: int, later: int)
    requires |random| == 32 && u.emailVerifiedAt.None? && later <= now + TOKEN_LIFETIME_MS
    ensures var sent := WithNewToken(u, HexEncode(random), now);
            VerifyReply(sent, HexEncode(random), later) == Reply(200, "Email verified succesfully") &&
            VerifiedRow(sent, HexEncode(random), later).emailVerifiedAt.Some?
  {
    GeneratedTokenVerifies(u, random, now, HexEncode(random), later);
  }
}
