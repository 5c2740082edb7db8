/**
 * The `users` table and the `User` model: column constraints and defaults,
 * the e-mail verification token kept on the row, and the password-less JSON
 * view handed to request handlers.
 *
 * Times are integers of milliseconds since the epoch; `crypto.randomBytes`
 * is the `random` parameter.
 */
module UserModel {
  import opened Js

  datatype Role = ClientRole | TrainerRole | AdminRole

  /** How long a verification token stays valid: 24 h in milliseconds. */
  const TOKEN_LIFETIME_MS: int := 24 * 60 * 60 * 1000

  /** One row of `users`. `None` stands for SQL NULL. */
  datatype UserRow = UserRow(
    id: int,
    email: string,
    password: string,
    firstName: string,
    lastName: string,
    phone: Option<string>,
    role: Role,
    profileImageUrl: Option<string>,
    isVerified: bool,
    isActive: bool,
    lastLoginAt: Option<int>,
    emailVerificationToken: Option<string>,
    emailVerificationExpires: Option<int>,
    emailVerifiedAt: Option<int>)

  /** Sequelize `len: [lo, hi]`. */
  predicate LengthIn(s: string, lo: nat, hi: nat) {
    lo <= |s| <= hi
  }

  predicate ValidPhone(phone: Option<string>) {
    phone.None? || LengthIn(phone.value, 10, 15)
  }

  predicate ValidImageUrl(url: Option<string>) {
    url != Some("")
  }

  /** The column validators of the model (URL and e-mail syntax aside). */
  predicate ValidUser(u: UserRow) {
    && LengthIn(u.password, 6, 100)
    && LengthIn(u.firstName, 2, 50)
    && LengthIn(u.lastName, 2, 50)
    && ValidPhone(u.phone)
    && ValidImageUrl(u.profileImageUrl)
  }

  /** A row as `User.create` stores it: the role defaults to client, a new
      user is unverified and active and has no verification token. */
  function NewUser(id: int, email: string, password: string, firstName: string,
                   lastName: string, phone: Option<string>, role: Option<Role>): (u: UserRow)
    ensures u.role == (if role.Some? then role.value else ClientRole)
    ensures !u.isVerified && u.isActive
    ensures u.emailVerificationToken.None? && u.emailVerificationExpires.None? && u.emailVerifiedAt.None?
    ensures ValidUser(u) <==>
      LengthIn(password, 6, 100) && LengthIn(firstName, 2, 50) && LengthIn(lastName, 2, 50) && ValidPhone(phone)
  {
    UserRow(id, email, password, firstName, lastName, phone,
            if role.Some? then role.value else ClientRole,
            None, false, true, None, None, None, None)
  }

  // ---------------------------------------------------------------------
  // Verification token

  function HexDigit(d: nat): (c: char)
    requires d < 16
    ensures IsRadixDigit(c, 16) && DigitValue(c) == d
  {
    if d < 10 then DigitChar(d) else ('a' as int + d - 10) as char
  }

  /** `buffer.toString("hex")`: two lower-case hex digits per byte. */
  function HexEncode(bytes: seq<bv8>): (s: string)
    ensures |s| == 2 * |bytes|
    ensures forall k :: 0 <= k < |s| ==> IsRadixDigit(s[k], 16)
  {
    if bytes == [] then ""
    else
      var b := bytes[0] as int;
      [HexDigit(b / 16), HexDigit(b % 16)] + HexEncode(bytes[1..])
  }

  /** Each byte can be read back from its two hex digits, so distinct random
      inputs give distinct tokens. */
  lemma {:induction false} HexEncodeDecodes(bytes: seq<bv8>, k: nat)
    requires k < |bytes|
    ensures 16 * DigitValue(HexEncode(bytes)[2 * k]) + DigitValue(HexEncode(bytes)[2 * k + 1]) == bytes[k] as int
  {
    if k > 0 {
      HexEncodeDecodes(bytes[1..], k - 1);
      assert HexEncode(bytes)[2 * k] == HexEncode(bytes[1..])[2 * (k - 1)];
      assert HexEncode(bytes)[2 * k + 1] == HexEncode(bytes[1..])[2 * (k - 1) + 1];
    }
  }

  /** The state `generateEmailVerificationToken` leaves: the token stored,
      expiring one day after `now`. */
  function WithNewToken(u: UserRow, token: string, now: int): (r: UserRow)
    ensures r.emailVerificationToken == Some(token)
    ensures r.emailVerificationExpires == Some(now + TOKEN_LIFETIME_MS)
    ensures r.(emailVerificationToken := u.emailVerificationToken,
               emailVerificationExpires := u.emailVerificationExpires) == u
  {
    u.(emailVerificationToken := Some(token), emailVerificationExpires := Some(now + TOKEN_LIFETIME_MS))
  }

  /** The stored token is usable: present, non-empty (truthy), with an expiry. */
  predicate HasPendingToken(u: UserRow) {
    Truthy(u.emailVerificationToken) && u.emailVerificationExpires.Some?
  }

  /** The outcome of `verfiyEmailToken(token)` at time `now`: whether it
      succeeded, and the row afterwards. */
  function VerifyToken(u: UserRow, token: string, now: int): (out: (bool, UserRow))
    ensures out.0 <==>
      HasPendingToken(u) && u.emailVerificationToken.value == token && now <= u.emailVerificationExpires.value
    ensures !out.0 ==> out.1 == u
    ensures out.0 ==> out.1 == u.(isVerified := true, emailVerificationToken := None,
                                  emailVerificationExpires := None, emailVerifiedAt := Some(now))
  {
    if !Truthy(u.emailVerificationToken) || u.emailVerificationExpires.None? then (false, u)
    else if u.emailVerificationToken.value != token then (false, u)
    else if u.emailVerificationExpires.value < now then (false, u)
    else (true, u.(isVerified := true, emailVerificationToken := None,
                   emailVerificationExpires := None, emailVerifiedAt := Some(now)))
  }

  /** A token works at most once: after a success the stored token is gone,
      so every later attempt fails, whatever token and time it uses. */
  lemma VerifyAtMostOnce(u: UserRow, token: string, now: int, token2: string, now2: int)
    requires VerifyToken(u, token, now).0
    ensures !VerifyToken(VerifyToken(u, token, now).1, token2, now2).0
    ensures VerifyToken(VerifyToken(u, token, now).1, token2, now2).1 == VerifyToken(u, token, now).1
  {
  }

  /** Generating a token and then presenting it succeeds exactly up to and
      including the expiry instant, one day later; any other string fails. */
  lemma GeneratedTokenVerifies(u: UserRow, random: seq<bv8>, now: int, presented: string, later: int)
    requires |random| == 32
    ensures VerifyToken(WithNewToken(u, HexEncode(random), now), presented, later).0 <==>
      presented == HexEncode(random) && later <= now + TOKEN_LIFETIME_MS
  {
    assert |HexEncode(random)| == 64;
  }

  // ---------------------------------------------------------------------
  // The model instance

  /** A loaded `User` instance: its fields are the row's columns, changed in
      place by the instance methods and written back by `save()`. */
  class User {
    var id: int
    var email: string
    var password: string
    var firstName: string
    var lastName: string
    var phone: Option<string>
    var role: Role
    var profileImageUrl: Option<string>
    var isVerified: bool
    var isActive: bool
    var lastLoginAt: Option<int>
    var emailVerificationToken: Option<string>
    var emailVerificationExpires: Option<int>
    var emailVerifiedAt: Option<int>

    /** What `save()` writes back. */
    function Row(): UserRow
      reads this
    {
      UserRow(id, email, password, firstName, lastName, phone, role, profileImageUrl,
              isVerified, isActive, lastLoginAt, emailVerificationToken,
              emailVerificationExpires, emailVerifiedAt)
    }

    /** `User.findByPk` / `User.findOne` handing back an instance. */
    constructor Load(r: UserRow)
      ensures Row() == r
    {
      id, email, password, firstName, lastName := r.id, r.email, r.password, r.firstName, r.lastName;
      phone, role, profileImageUrl := r.phone, r.role, r.profileImageUrl;
      isVerified, isActive, lastLoginAt := r.isVerified, r.isActive, r.lastLoginAt;
      emailVerificationToken := r.emailVerificationToken;
      emailVerificationExpires := r.emailVerificationExpires;
      emailVerifiedAt := r.emailVerifiedAt;
    }

    /** `generateEmailVerificationToken()`: 32 random bytes as 64 hex
        characters, stored with an expiry one day after `now`. */
    method GenerateEmailVerificationToken(random: seq<bv8>, now: int) returns (token: string)
      requires |random| == 32
      modifies this
      ensures token == HexEncode(random) && |token| == 64
      ensures Row() == WithNewToken(old(Row()), token, now)
    {
      token := HexEncode(random);
      emailVerificationToken := Some(token);
      emailVerificationExpires := Some(now + TOKEN_LIFETIME_MS);
    }

    /** `verfiyEmailToken(token)` at time `now`. */
    method VerifyEmailToken(token: string, now: int) returns (ok: bool)
      modifies this
      ensures (ok, Row()) == VerifyToken(old(Row()), token, now)
    {
      if emailVerificationToken.None? || emailVerificationToken.value == "" || emailVerificationExpires.None? {
        return false;
      }
      if emailVerificationToken.value != token {
        return false;
      }
      if emailVerificationExpires.value < now {
        return false;
      }
      isVerified := true;
      emailVerificationToken := None;
      emailVerificationExpires := None;
      emailVerifiedAt := Some(now);
      return true;
    }
  }

  // ---------------------------------------------------------------------
  // JSON view

  /** `Omit<UserAttributes, "password">`: every column but the password. */
  datatype PublicUser = PublicUser(
    id: int,
    email: string,
    firstName: string,
    lastName: string,
    phone: Option<string>,
    role: Role,
    profileImageUrl: Option<string>,
    isVerified: bool,
    isActive: bool,
    lastLoginAt: Option<int>,
    emailVerificationToken: Option<string>,
    emailVerificationExpires: Option<int>,
    emailVerifiedAt: Option<int>)

  /** Puts a password back into a JSON view. */
  function WithPassword(p: PublicUser, password: string): UserRow {
    UserRow(p.id, p.email, password, p.firstName, p.lastName, p.phone, p.role,
            p.profileImageUrl, p.isVerified, p.isActive, p.lastLoginAt,
            p.emailVerificationToken, p.emailVerificationExpires, p.emailVerifiedAt)
  }

  /** `toJSON()`: all attributes except the password, which is the only thing
      lost: adding the row's password back gives the row. */
  function ToJson(u: UserRow): (p: PublicUser)
    ensures WithPassword(p, u.password) == u
  {
    PublicUser(u.id, u.email, u.firstName, u.lastName, u.phone, u.role,
               u.profileImageUrl, u.isVerified, u.isActive, u.lastLoginAt,
               u.emailVerificationToken, u.emailVerificationExpires, u.emailVerifiedAt)
  }

  /** The JSON view does not depend on the password, and two rows with the
      same view differ at most in their password. */
  lemma ToJsonForgetsOnlyPassword(u: UserRow, v: UserRow)
    ensures ToJson(u) == ToJson(v) <==> u.(password := v.password) == v
  {
    if ToJson(u) == ToJson(v) {
      assert WithPassword(ToJson(u), v.password) == v;
    }
  }
}
