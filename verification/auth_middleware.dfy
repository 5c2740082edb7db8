/**
 * The `authenticate` middleware: it reads a bearer token from the
 * `Authorization` header, verifies it, loads the user it names and either
 * passes the password-less user on to the next handler or answers with an
 * error.
 *
 * `jwt.verify` is the `verify` parameter: it either decodes the token to a
 * user id or throws an error with a name.
 */
module AuthMiddleware {
  import opened Js
  import opened UserModel
  import opened Database

  datatype JwtVerdict = Decoded(userId: int) | Thrown(name: string)

  /** What the middleware does: call `next()` with `req.user` set, or answer. */
  datatype AuthOutcome = Next(user: PublicUser) | Answer(reply: Reply)

  /** `req.header("Authorization")?.replace("Bearer ", "")`: `None` when the
      header is absent. */
  function TokenOf(header: Option<string>): (t: Option<string>)
    ensures header.None? <==> t.None?
    ensures header.Some? && IndexOf(header.value, "Bearer ") < 0 ==> t == header
  {
    if header.None? then None else Some(ReplaceFirst(header.value, "Bearer ", ""))
  }

  /** A header of the form "Bearer <t>" yields exactly `t`. */
  lemma BearerToken(t: string)
    ensures TokenOf(Some("Bearer " + t)) == Some(t)
  {
    var h := "Bearer " + t;
    assert OccursAt(h, "Bearer ", 0);
    assert IndexOf(h, "Bearer ") == 0;
    assert ReplaceFirst(h, "Bearer ", "") == h[..0] + "" + h[7..];
    assert h[..0] + "" + h[7..] == t;
  }

  /** Only the first "Bearer " goes, wherever it stands: the header loses
      those seven characters, nothing before them is a "Bearer ", and every
      later occurrence stays in the token. */
  lemma OnlyFirstBearerRemoved(h: string)
    requires IndexOf(h, "Bearer ") >= 0
    ensures var i := IndexOf(h, "Bearer ");
      && TokenOf(Some(h)) == Some(h[..i] + h[i + 7..])
      && (forall j :: 0 <= j < i ==> !OccursAt(h, "Bearer ", j))
      && (forall j :: i + 7 <= j && OccursAt(h, "Bearer ", j) ==> OccursAt(TokenOf(Some(h)).value, "Bearer ", j - 7))
  {
    var i := IndexOf(h, "Bearer ");
    var t := h[..i] + h[i + 7..];
    assert ReplaceFirst(h, "Bearer ", "") == h[..i] + "" + h[i + 7..];
    assert h[..i] + "" + h[i + 7..] == t;
    forall j | i + 7 <= j && OccursAt(h, "Bearer ", j)
      ensures OccursAt(t, "Bearer ", j - 7)
    {
      assert t[j - 7..j] == h[j..j + 7] by {
        forall k | j - 7 <= k < j ensures t[k] == h[k + 7] {
          assert t[k] == h[i + 7..][k - i];
        }
      }
    }
  }

  /** A token that itself contains the text keeps it. */
  lemma InnerBearerKept()
    ensures TokenOf(Some("Bearer Bearer x")) == Some("Bearer x")
  {
    BearerToken("Bearer x");
  }

  /** The error answers of the `catch` block, by error name. */
  function ErrorReply(name: string): (r: Reply)
    ensures name == "JsonWebTokenError" ==> r == Reply(401, "Invalid token.")
    ensures name == "TokenExpiredError" ==> r == Reply(401, "Token expired.")
    ensures name != "JsonWebTokenError" && name != "TokenExpiredError" ==>
              r == Reply(500, "Token verification failed.")
  {
    if name == "JsonWebTokenError" then Reply(401, "Invalid token.")
    else if name == "TokenExpiredError" then Reply(401, "Token expired.")
    else Reply(500, "Token verification failed.")
  }

  /** `authenticate(req, res, next)`. It reads the user table and writes
      nothing. */
  method Authenticate(db: Store, header: Option<string>, verify: string -> JwtVerdict) returns (outcome: AuthOutcome)
    ensures !Truthy(TokenOf(header)) ==> outcome == Answer(Reply(401, "User is not authenticated"))
    ensures Truthy(TokenOf(header)) && verify(TokenOf(header).value).Thrown? ==>
              outcome == Answer(ErrorReply(verify(TokenOf(header).value).name))
    ensures Truthy(TokenOf(header)) && verify(TokenOf(header).value).Decoded? ==>
              var id := verify(TokenOf(header).value).userId;
              outcome == (if id in db.users && db.users[id].isActive then Next(ToJson(db.users[id]))
                          else Answer(Reply(401, "User not authenticated")))
    ensures outcome.Next? <==>
              Truthy(TokenOf(header)) && verify(TokenOf(header).value).Decoded? &&
              verify(TokenOf(header).value).userId in db.users &&
              db.users[verify(TokenOf(header).value).userId].isActive
    ensures outcome.Answer? ==> outcome.reply.status in {401, 500}
  {
    var token := TokenOf(header);
    if !Truthy(token) {
      return Answer(Reply(401, "User is not authenticated"));
    }
    var decoded := verify(token.value);
    if decoded.Thrown? {
      return Answer(ErrorReply(decoded.name));
    }
    var userId := decoded.userId;
    if userId !in db.users || !db.users[userId].isActive {
      return Answer(Reply(401, "User not authenticated"));
    }
    var user := new User.Load(db.users[userId]);
    return Next(ToJson(user.Row()));
  }
}
