/**
 * The "create trainer profile" form: its ordered validation, the payload
 * it sends and the error message it shows when the request fails.
 *
 * `parseFloat` is a parameter, and so is what awaiting the create
 * mutation gives: the `{ data }` or `{ error }` it resolves with, or an
 * exception raised inside the `try` block.
 */
module CreateTrainerScreen {
  import opened Js
  import opened TrainerModel
  import opened AuthSlice

  /** The text inputs of the form. */
  datatype TrainerForm = TrainerForm(
    bio: string,
    exp: string,
    hourlyRate: string,
    sessionRate: string,
    city: string,
    county: string,
    country: string,
    latitude: string,
    longitude: string)

  /** The inputs of a freshly mounted form. */
  const EmptyForm: TrainerForm := TrainerForm("", "", "", "", "", "", "", "0", "0")

  /** `!input.trim()`: nothing but white space (see `TrimEmptyIff`). */
  predicate Blank(input: string) {
    AllWhitespace(input)
  }

  /** A field that is not blank trims to a non-empty text that is its own
      trim. */
  lemma TrimmedNotBlank(input: string)
    requires !Blank(input)
    ensures Trim(input) != "" && Trim(Trim(input)) == Trim(input)
  {
    TrimEmptyIff(input);
    TrimIdempotent(input);
  }

  /** The message of the first check `validateForm` fails, or `None` when
      it returns true. */
  function FormError(f: TrainerForm, parseFloat: string -> JsNumber): (e: Option<string>)
    ensures e.None? <==>
              && !Blank(f.bio) && !Blank(f.exp) && !Blank(f.hourlyRate) && !Blank(f.sessionRate)
              && !Blank(f.city) && !Blank(f.county) && !Blank(f.country)
              && IsPositive(parseFloat(f.hourlyRate)) && IsPositive(parseFloat(f.sessionRate))
  {
    if Blank(f.bio) then Some("Bio is required")
    else if Blank(f.exp) then Some("Experience is required")
    else if Blank(f.hourlyRate) then Some("Hourly rate is required")
    else if Blank(f.sessionRate) then Some("Session rate is required")
    else if Blank(f.city) then Some("City is required")
    else if Blank(f.county) then Some("County is required")
    else if Blank(f.country) then Some("Country is required")
    else if !IsPositive(parseFloat(f.hourlyRate)) then Some("Please enter a valid hourly rate")
    else if !IsPositive(parseFloat(f.sessionRate)) then Some("Please enter a valid session rate")
    else None
  }

  /** The checks run in a fixed order: the presence checks come before the
      rate checks, so a missing field is reported even when a rate does not
      parse, and an earlier missing field hides a later one. */
  lemma FormErrorOrder(f: TrainerForm, parseFloat: string -> JsNumber)
    ensures Blank(f.bio) ==> FormError(f, parseFloat) == Some("Bio is required")
    ensures !Blank(f.bio) && Blank(f.exp) ==> FormError(f, parseFloat) == Some("Experience is required")
    ensures Blank(f.country) && FormError(f, parseFloat) != Some("Country is required") ==>
              FormError(f, parseFloat).Some? && FormError(f, parseFloat).value in
                {"Bio is required", "Experience is required", "Hourly rate is required",
                 "Session rate is required", "City is required", "County is required"}
    ensures FormError(f, parseFloat) == Some("Please enter a valid session rate") ==>
              IsPositive(parseFloat(f.hourlyRate)) && !IsPositive(parseFloat(f.sessionRate))
  {
  }

  /** The body of the create request. */
  datatype TrainerPayload = TrainerPayload(
    bio: string,
    experience: string,
    hourlyRate: JsNumber,
    sessionRate: JsNumber,
    city: string,
    county: string,
    country: string,
    latitude: JsNumber,
    longitude: JsNumber)

  /** `trainerData`: the text inputs trimmed, the numbers parsed. */
  function PayloadOf(f: TrainerForm, parseFloat: string -> JsNumber): TrainerPayload {
    TrainerPayload(Trim(f.bio), Trim(f.exp), parseFloat(f.hourlyRate), parseFloat(f.sessionRate),
                   Trim(f.city), Trim(f.county), Trim(f.country), parseFloat(f.latitude), parseFloat(f.longitude))
  }

  /** A payload sent from a form that passed validation has no blank and
      no untrimmed text field, and positive rates. */
  lemma ValidFormPayload(f: TrainerForm, parseFloat: string -> JsNumber)
    requires FormError(f, parseFloat).None?
    ensures var p := PayloadOf(f, parseFloat);
      && p.bio != "" && p.experience != "" && p.city != "" && p.county != "" && p.country != ""
      && Trim(p.bio) == p.bio && Trim(p.experience) == p.experience && Trim(p.city) == p.city
      && Trim(p.county) == p.county && Trim(p.country) == p.country
      && IsPositive(p.hourlyRate) && IsPositive(p.sessionRate)
  {
    TrimmedNotBlank(f.bio);
    TrimmedNotBlank(f.exp);
    TrimmedNotBlank(f.city);
    TrimmedNotBlank(f.county);
    TrimmedNotBlank(f.country);
  }

  /** The error the `catch` block receives. */
  datatype CaughtError = CaughtError(originalStatus: Option<int>, responseStatus: Option<int>)

  /** The message the `catch` block shows. `originalStatus` is tested for
      truthiness, so a status 0 counts as no response. */
  function ErrorMessage(e: CaughtError): (m: string)
    ensures (e.originalStatus.None? || e.originalStatus == Some(0)) <==>
              m == "No server response. Please check your connection."
    ensures m == "Invalid data provided. Please check your inputs." <==>
              e.originalStatus.Some? && e.originalStatus.value != 0 && e.responseStatus == Some(400)
    ensures m == "Unauthorized. Please log in again." <==>
              e.originalStatus.Some? && e.originalStatus.value != 0 && e.responseStatus == Some(401)
  {
    if e.originalStatus.None? || e.originalStatus.value == 0 then "No server response. Please check your connection."
    else if e.responseStatus == Some(400) then "Invalid data provided. Please check your inputs."
    else if e.responseStatus == Some(401) then "Unauthorized. Please log in again."
    else "Failed to create profile. Please try again."
  }

  /** Every failure shows one of the four messages, and the generic one
      exactly when the error has a status other than 400 and 401. */
  lemma ErrorMessageShown(e: CaughtError)
    ensures ErrorMessage(e) in {"No server response. Please check your connection.",
                                "Invalid data provided. Please check your inputs.",
                                "Unauthorized. Please log in again.",
                                "Failed to create profile. Please try again."}
    ensures ErrorMessage(e) == "Failed to create profile. Please try again." <==>
              e.originalStatus.Some? && e.originalStatus.value != 0 &&
              e.responseStatus != Some(400) && e.responseStatus != Some(401)
  {
  }

  /** The JSON body of a successful create: `sendSuccess` is called without
      data, so the body is `{ success, message }` and carries no profile. */
  datatype CreateBody = CreateBody(success: bool, message: string)

  /** What the create trigger resolves with when it is awaited without
      `.unwrap()`: `{ data }` for a 2xx answer and `{ error }` otherwise. It
      does not reject on an HTTP error. */
  datatype MutationResult = Data(body: CreateBody) | Error(status: int)

  /** What awaiting the create mutation gives. The trigger resolves in every
      case, so `Threw` is an exception raised inside the `try` block itself,
      the only way the `catch` is reached. */
  datatype MutationOutcome = Resolved(result: MutationResult) | Threw(error: CaughtError)

  /** `const { data } = result`, as passed to `setTrainerProfile`: the reply
      body for a 2xx answer, `undefined` for an error. */
  function ResultData(r: MutationResult): (t: Option<TrainerValue>)
    ensures t.None? <==> r.Error?
    ensures t.Some? ==> t.value.ReplyBody? && t.value.success == r.body.success && t.value.message == r.body.message
  {
    match r
    case Data(body) => Some(ReplyBody(body.success, body.message))
    case Error(_) => None
  }

  /** The form's state values. */
  class CreateTrainerState {
    var form: TrainerForm
    var errMsg: string

    constructor ()
      ensures form == EmptyForm && errMsg == ""
    {
      form := EmptyForm;
      errMsg := "";
    }

    /** `validateForm()`: true when every check passes; otherwise the first
        failing check's message is shown and the result is false. */
    method ValidateForm(parseFloat: string -> JsNumber) returns (ok: bool)
      modifies this
      ensures ok <==> FormError(form, parseFloat).None?
      ensures form == old(form)
      ensures errMsg == (if ok then old(errMsg) else FormError(form, parseFloat).value)
    {
      if Blank(form.bio) {
        errMsg := "Bio is required";
        return false;
      }
      if Blank(form.exp) {
        errMsg := "Experience is required";
        return false;
      }
      if Blank(form.hourlyRate) {
        errMsg := "Hourly rate is required";
        return false;
      }
      if Blank(form.sessionRate) {
        errMsg := "Session rate is required";
        return false;
      }
      if Blank(form.city) {
        errMsg := "City is required";
        return false;
      }
      if Blank(form.county) {
        errMsg := "County is required";
        return false;
      }
      if Blank(form.country) {
        errMsg := "Country is required";
        return false;
      }
      var hourly := parseFloat(form.hourlyRate);
      if hourly.NaN? || hourly.hundredths <= 0 {
        errMsg := "Please enter a valid hourly rate";
        return false;
      }
      var session := parseFloat(form.sessionRate);
      if session.NaN? || session.hundredths <= 0 {
        errMsg := "Please enter a valid session rate";
        return false;
      }
      return true;
    }

    /** `handleSubmit()`. `request` is the payload the create mutation is
        called with, `None` when it is not called; `successAlert` tells
        whether the success alert is shown. Whatever the trigger resolves
        with is stored as the trainer profile and the success alert follows,
        an HTTP error included. */
    method HandleSubmit(parseFloat: string -> JsNumber, outcome: MutationOutcome, auth: AuthDraft)
      returns (request: Option<TrainerPayload>, successAlert: bool)
      modifies this, auth
      ensures form == old(form)
      ensures request.Some? <==> FormError(form, parseFloat).None?
      ensures request.None? ==>
                errMsg == FormError(form, parseFloat).value && auth.State() == old(auth.State())
      ensures request.Some? ==> request.value == PayloadOf(form, parseFloat)
      ensures successAlert <==> request.Some? && outcome.Resolved?
      ensures request.Some? && outcome.Resolved? ==>
                errMsg == "" && auth.State() == Reduce(old(auth.State()), SetTrainerProfile(ResultData(outcome.result)))
      ensures request.Some? && outcome.Resolved? && outcome.result.Error? ==>
                errMsg == "" && auth.State() == old(auth.State()).(trainer := None)
      ensures request.Some? && outcome.Resolved? ==>
                auth.State().trainer.None? || auth.State().trainer.value.ReplyBody?
      ensures request.Some? && outcome.Threw? ==>
                errMsg == ErrorMessage(outcome.error) && auth.State() == old(auth.State())
    {
      var valid := ValidateForm(parseFloat);
      if !valid {
        return None, false;
      }
      errMsg := "";
      var trainerData := PayloadOf(form, parseFloat);
      request := Some(trainerData);
      match outcome {
        case Resolved(result) =>
          var data := ResultData(result);
          auth.SetTrainerProfile(data);
          successAlert := true;
        case Threw(error) =>
          errMsg := ErrorMessage(error);
          successAlert := false;
      }
    }
  }
}
