/**
 * The sign-in screen: the e-mail pattern, the two independent field
 * checks of `handleLogin`, and what happens once the login request is
 * made. What awaiting the login mutation gives is a parameter.
 */
module LoginScreen {
  import opened Js
  import opened UserModel
  import opened AuthSlice

  /** A run of the pattern class `[^\s@]+`: non-empty, no white space and no
      `@`. */
  predicate Part(s: string) {
    |s| > 0 && forall k :: 0 <= k < |s| ==> !IsWhitespace(s[k]) && s[k] != '@'
  }

  /** The whole-string pattern `^[^\s@]+@[^\s@]+\.[^\s@]+$`: the text splits
      as local part, `@`, domain start, `.`, domain end. */
  predicate MatchesEmailPattern(e: string) {
    exists i, j :: 0 < i < j < |e| && e[i] == '@' && e[j] == '.' && Part(e[..i]) && Part(e[i + 1..j]) && Part(e[j + 1..])
  }

  predicate NoWhitespace(s: string) {
    forall k :: 0 <= k < |s| ==> !IsWhitespace(s[k])
  }

  /** `validateEmail(email)`, stated directly: no white space, exactly one
      `@` with something before it, and after it a `.` that is neither the
      first nor the last character. */
  predicate ValidEmail(e: string) {
    var at := FirstIndex(e, '@');
    && NoWhitespace(e)
    && at > 0
    && '@' !in e[at + 1..]
    && at + 4 <= |e|
    && '.' in e[at + 2..|e| - 1]
  }

  /** The direct statement and the pattern accept the same e-mails. */
  lemma ValidEmailIffPattern(e: string)
    ensures ValidEmail(e) <==> MatchesEmailPattern(e)
  {
    if ValidEmail(e) {
      var at := FirstIndex(e, '@');
      var m :| 0 <= m < |e[at + 2..|e| - 1]| && e[at + 2..|e| - 1][m] == '.';
      var j := at + 2 + m;
      assert e[j] == '.';
      forall k | at + 1 <= k < |e| ensures e[k] != '@' {
        assert e[k] == e[at + 1..][k - at - 1];
      }
      assert Part(e[..at]);
      assert Part(e[at + 1..j]);
      assert Part(e[j + 1..]);
    }
    if MatchesEmailPattern(e) {
      var i, j :| 0 < i < j < |e| && e[i] == '@' && e[j] == '.' && Part(e[..i]) && Part(e[i + 1..j]) && Part(e[j + 1..]);
      PatternParts(e, i, j);
    }
  }

  lemma PatternParts(e: string, i: int, j: int)
    requires 0 < i < j < |e| && e[i] == '@' && e[j] == '.'
    requires Part(e[..i]) && Part(e[i + 1..j]) && Part(e[j + 1..])
    ensures ValidEmail(e)
  {
    forall k | 0 <= k < |e| ensures !IsWhitespace(e[k]) && (k != i ==> e[k] != '@') {
      if k < i {
        assert e[k] == e[..i][k];
      } else if i < k < j {
        assert e[k] == e[i + 1..j][k - i - 1];
      } else if k > j {
        assert e[k] == e[j + 1..][k - j - 1];
      }
    }
    var at := FirstIndex(e, '@');
    assert at == i;
    assert e[at + 2..|e| - 1][j - at - 2] == '.';
  }

  /** The messages `handleLogin` leaves under the two fields. */
  function EmailError(email: string): (m: string)
    ensures m == "" <==> email != "" && ValidEmail(email)
  {
    if email == "" then "Email is required"
    else if !ValidEmail(email) then "Please enter a valid email"
    else ""
  }

  function PasswordError(password: string): (m: string)
    ensures m == "" <==> |password| >= 6
  {
    if password == "" then "Password is required"
    else if |password| < 6 then "Password must be at least 6 characters"
    else ""
  }

  /** The two checks are independent: each field's message depends on that
      field alone, so both can be shown at once. */
  lemma BothErrorsAtOnce()
    ensures EmailError("") == "Email is required" && PasswordError("abc") == "Password must be at least 6 characters"
    ensures EmailError("a@b") == "Please enter a valid email"
  {
    assert !ValidEmail("a@b") by {
      assert FirstIndex("a@b", '@') == 1;
    }
  }

  /** What awaiting the login mutation gives: the user and token of the
      response, or an error with an optional server message. */
  datatype LoginOutcome = LoggedIn(user: Option<PublicUser>, token: Option<string>) | Failed(message: Option<string>)

  /** What the screen does after the request. */
  datatype AfterLogin = NotSent | NavigatedHome | AlertShown(title: string, message: string)

  /** The screen's state values. */
  class LoginState {
    var email: string
    var password: string
    var emailError: string
    var passwordError: string

    constructor ()
      ensures email == "" && password == "" && emailError == "" && passwordError == ""
    {
      email, password, emailError, passwordError := "", "", "", "";
    }

    /** `handleLogin()`: both messages are reset, each field is checked on
        its own, and the login request is made (with the e-mail and password
        as typed) only when neither check set a message. */
    method HandleLogin(outcome: LoginOutcome, auth: AuthDraft) returns (request: Option<(string, string)>, after: AfterLogin)
      modifies this, auth
      ensures email == old(email) && password == old(password)
      ensures emailError == EmailError(email) && passwordError == PasswordError(password)
      ensures request.Some? <==> emailError == "" && passwordError == ""
      ensures request.Some? ==> request.value == (email, password)
      ensures request.None? ==> after == NotSent && auth.State() == old(auth.State())
      ensures request.Some? && outcome.LoggedIn? ==>
                after == NavigatedHome &&
                auth.State() == Reduce(old(auth.State()), SetCredentials(outcome.user, outcome.token))
      ensures request.Some? && outcome.Failed? ==>
                after == AlertShown("Login Failed",
                                    if Truthy(outcome.message) then outcome.message.value
                                    else "Login failed. Please try again.") &&
                auth.State() == old(auth.State())
    {
      emailError := "";
      passwordError := "";
      var hasError := false;
      if email == "" {
        emailError := "Email is required";
        hasError := true;
      } else if !ValidEmail(email) {
        emailError := "Please enter a valid email";
        hasError := true;
      }
      if password == "" {
        passwordError := "Password is required";
        hasError := true;
      } else if |password| < 6 {
        passwordError := "Password must be at least 6 characters";
        hasError := true;
      }
      if hasError {
        return None, NotSent;
      }
      request := Some((email, password));
      match outcome {
        case LoggedIn(user, token) =>
          auth.SetCredentials(user, token);
          after := NavigatedHome;
        case Failed(message) =>
          var errorMessage := if Truthy(message) then message.value else "Login failed. Please try again.";
          after := AlertShown("Login Failed", errorMessage);
      }
    }
  }
}
