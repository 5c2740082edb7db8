# Trainee: a verified model of the marketplace core

Trainee is a marketplace where clients find fitness trainers. This project models its core in Dafny and proves properties of the model. The core has two halves.

- **The Express/Sequelize server.** This covers:
  - the `User`, `Trainer` and `Review` models, with their column constraints, defaults, instance methods and hooks;
  - the `authenticate` middleware;
  - the review, trainer, trainer-specialization, e-mail-verification and user-profile controllers.
- **The React Native client.** This covers:
  - the auth slice, with its reducer and selectors;
  - the `RequireAuth` redirect;
  - the trainer endpoints of the API slice, including the search query string;
  - the search screen, the create-trainer form and the login screen.

## How the model is organised

Each source file is one module. The JavaScript semantics the code relies on live in module `Js`:

- truthiness;
- `String.prototype.trim`;
- `parseInt`;
- `String(number)`;
- plain objects as ordered key/value lists;
- `indexOf`, `replace`, `split` and `join`.

Module `FormUrlEncoded` models `URLSearchParams` serialisation (`application/x-www-form-urlencoded`, in UTF-8). The proof that a query string reads back as the pairs appended to it is there.

**The database.** It is the class `Database.Store`. Its fields are the tables: users, trainers, reviews, the specialization catalogue, and the trainer-specialization links. The methods on it are:

- the inserts, updates and deletes that the controllers and model hooks perform;
- the `afterCreate`/`afterUpdate`/`afterDestroy` hooks of `Review`, which recount the trainer's totals.

Every method keeps `Valid()`. That predicate holds the column constraints of each table.

**Controllers.** Each one is a method on a `Store` that returns the `Reply` (HTTP status and message) the handler sends. Its contract is stated against a pure function of the tables before the call. The lemmas are proved about that function.

**Sequelize instances.** `User` and `Trainer` are classes that are loaded from a row, mutated by their instance methods, and written back.

**Client state.** Each screen's `useState` values are the fields of a class. Each handler is a method whose contract gives the new state as a function of the old one.

**What comes from outside.** These are parameters:

- what an awaited request resolves or rejects with;
- `parseFloat`;
- the clock;
- the random bytes;
- the JWT verifier;
- whether the mailer succeeded.

## Model

| member | source | states |
|---|---|---|
| UserModel.NewUser | server/src/models/user.ts:62-139 | a new user gets role `client` unless one is given, is unverified and active, has no token; the row is valid exactly when the password has 6-100 characters, both names 2-50 and the phone, when present, 10-15 |
| UserModel.HexEncode | server/src/models/user.ts:184 | the hex form of the random bytes has two lower-case hex digits per byte |
| UserModel.HexEncodeDecodes | server/src/models/user.ts:184 | each pair of hex digits reads back as the byte it encodes, so distinct byte strings give distinct tokens |
| UserModel.WithNewToken | server/src/models/user.ts:183-190 | generating a token stores it with an expiry 24 hours after now and changes nothing else |
| UserModel.VerifyToken | server/src/models/user.ts:192-211 | verification succeeds iff a token and expiry are stored, the token matches and the expiry is not before now; success marks the user verified, clears token and expiry and stamps the time; failure changes nothing |
| UserModel.VerifyAtMostOnce | server/src/models/user.ts:192-211 | a token that verified once can never verify again, and a second attempt leaves the row as the first left it |
| UserModel.GeneratedTokenVerifies | server/src/models/user.ts:183-211 | a freshly generated token verifies exactly when the presented token equals it and the expiry has not passed |
| UserModel.User.GenerateEmailVerificationToken | server/src/models/user.ts:183-190 | returns the 64-character hex token and leaves the instance as `WithNewToken` describes |
| UserModel.User.VerifyEmailToken | server/src/models/user.ts:192-211 | the answer and the new instance are exactly those of `VerifyToken` |
| UserModel.ToJson | server/src/models/user.ts:219-223 | the public form is the row without its password: putting the password back gives the row |
| UserModel.ToJsonForgetsOnlyPassword | server/src/models/user.ts:219-223 | two rows have the same public form iff they differ at most in the password |
| TrainerModel.NewTrainer | server/src/models/trainer.ts:43-118 | a new trainer is active, available, not featured, with zero views, rating and reviews; it is valid iff its profile meets the range constraints |
| TrainerModel.AverageRating | server/src/models/trainer.ts:140-142 | the average rating is the stored total when there are reviews and 0 otherwise |
| TrainerModel.IsCompleteIffNothingMissing | server/src/models/trainer.ts:144-152 | a profile is complete iff none of bio, experience, a non-zero rate, city and state is missing |
| TrainerModel.Trainer.IncrementViews | server/src/models/trainer.ts:135-138 | the view count goes up by one and nothing else changes |
| ReviewModel.NewReview | server/src/models/review.ts:37-44 | a new review carries the given trainer, client, rating and text, unverified and unreported |
| ReviewModel.ReviewsOf | server/src/models/review.ts:92-94 | the reviews of a trainer are exactly the stored reviews with that trainer id |
| ReviewModel.TextReviewsOf | server/src/models/review.ts:86-91 | the counted reviews are exactly that trainer's reviews whose text is present and non-empty |
| ReviewModel.TextReviewsAtMostAll | server/src/models/review.ts:86-99 | the stored `totalRating` count never exceeds the `reviewCount` |
| ReviewModel.TextReviewsOfValid | server/src/models/review.ts:86-91 | over valid reviews the text filter selects the same reviews as "has text" |
| ReviewModel.ReviewsOfAppend | server/src/models/review.ts:68-71 | appending a review adds it to its own trainer's list only |
| ReviewModel.AppendKeepsOnePer | server/src/controllers/review.ts:38-45 | inserting a review for a pair that has none keeps at most one review per client and trainer |
| SpecializationModel.ElementsCard | server/src/controllers/trainerSpecialization.ts:40-55 | the set of requested ids has as many elements as the list iff the list has no repeats |
| SpecializationModel.ActiveMatches | server/src/controllers/trainerSpecialization.ts:40-50 | the matched ids are exactly the requested ids present and active in the catalogue |
| SpecializationModel.CountCheckAccepts | server/src/controllers/trainerSpecialization.ts:40-55 | the count check passes iff the ids are distinct and each one is an active specialization |
| SpecializationModel.RequestedIds | server/src/controllers/trainerSpecialization.ts:40-44 | the ids are the requests' ids, in order |
| SpecializationModel.LinkedIds | server/src/controllers/trainerSpecialization.ts:57-63 | the linked ids are exactly those with a link row for the trainer |
| SpecializationModel.ExistingIds | server/src/controllers/trainerSpecialization.ts:57-66 | the existing ids are the requested ids already linked to the trainer |
| SpecializationModel.ToAdd | server/src/controllers/trainerSpecialization.ts:68-70 | the requests to add are exactly those whose id is not already linked, and none when all are |
| SpecializationModel.NewLinks | server/src/controllers/trainerSpecialization.ts:76-86 | one link per request, carrying the trainer, specialization, details and timestamp |
| SpecializationModel.AllRequestedLinked | server/src/controllers/trainerSpecialization.ts:57-86 | after the insert every requested specialization is linked to the trainer |
| SpecializationModel.InsertByDate | server/src/controllers/trainerSpecialization.ts:106-116 | inserting a link into a newest-first list keeps it newest-first and adds exactly that link |
| SpecializationModel.SortNewestFirst | server/src/controllers/trainerSpecialization.ts:106-116 | the listing is ordered by `createdAt` descending and is a permutation of the stored links |
| Database.Recounted | server/src/models/review.ts:83-104 | the recount sets that trainer's `reviewCount` to its reviews and `totalRating` to its text reviews, unless the trainer is missing or the count does not fit DECIMAL(3,2), in which case nothing changes; other trainers are untouched |
| Database.RecountedKeepsBound | server/src/models/review.ts:83-104 | a recount keeps every trainer valid and within the rating column's bound |
| Database.RecountedIdempotent | server/src/models/review.ts:83-104 | recounting twice is recounting once |
| Database.WithReview | server/src/models/review.ts:68-71 | an insert appends the row, advances the id and runs the recount for its trainer, changing nothing else |
| Database.WithReviewValid | server/src/models/review.ts:37-44 | inserting a valid review keeps every table valid |
| Database.Store.SaveUser | server/src/models/user.ts:183-211 | saving writes the instance's row under its id and nothing else |
| Database.Store.UpdateTrainerRating | server/src/models/review.ts:83-104 | the trainers table becomes `Recounted`; the result is `false` when the trainer is missing and undefined otherwise |
| Database.Store.CreateReview | server/src/models/review.ts:37-81 | the insert happens iff the new row meets the constraints, and then the tables are `WithReview`; otherwise nothing changes |
| Database.Store.UpdateReview | server/src/models/review.ts:73-76 | a valid update replaces the row and recounts its trainer; an invalid one changes nothing |
| Database.Store.DestroyReview | server/src/models/review.ts:78-81 | the row is removed and its trainer recounted |
| Database.Store.CreateTrainer | server/src/models/trainer.ts:43-118 | a trainer row is inserted with the defaults iff the profile meets the constraints |
| Database.Store.DestroyTrainer | server/src/controllers/trainer.ts:113-116 | the trainer row is removed and nothing else changes |
| Database.Store.InsertLinks | server/src/controllers/trainerSpecialization.ts:76-86 | the link rows are appended |
| ReviewController.ReviewAccepted | server/src/controllers/review.ts:15-45 | a review is accepted iff the trainer id parses to an existing trainer other than the caller's own id, the caller has no review of it, the rating is 1-5 and the text, when present, has 10-100 characters; every refusal is a 400 |
| ReviewController.SecondReviewRefused | server/src/controllers/review.ts:38-45 | once a review is accepted and stored, the same client's second review of that trainer is refused with 400 |
| ReviewController.CreateReview | server/src/controllers/review.ts:9-77 | a refusal is sent and changes nothing; otherwise the review is inserted, its trainer recounted and 201 sent; at most one review per client and trainer is kept |
| TrainerController.CreateTrainerPasses | server/src/controllers/trainer.ts:18-41 | creation passes the checks iff the caller is not a trainer yet, has no profile, exists, and the specialization ids given are distinct, known and active |
| TrainerController.CreateTrainer | server/src/controllers/trainer.ts:10-75 | a refusal changes nothing; past the checks the user becomes a trainer, and a valid profile is inserted with 200 while an invalid one gets 400 and leaves the user a trainer without a profile; one profile per user is kept |
| TrainerController.GetTrainer | server/src/controllers/trainer.ts:77-94 | an id that does not parse or is 0 gives 400, an unknown id 404, and otherwise 200 with the stored row |
| TrainerController.DeleteTrainer | server/src/controllers/trainer.ts:96-131 | an unknown user and a user without a profile get 404 and nothing changes; otherwise the profile is removed, the user becomes a client again and 200 is sent |
| TrainerController.CreateThenDelete | server/src/controllers/trainer.ts:10-131 | once a create succeeds the owner's delete succeeds too, leaving the owner a client without a profile |
| TrainerSpecializationController.LinksToCreate | server/src/controllers/trainerSpecialization.ts:57-86 | only links for requested, not yet linked specializations are created, all for the caller's trainer at the current time |
| TrainerSpecializationController.RepeatAddsNothing | server/src/controllers/trainerSpecialization.ts:57-74 | repeating a request adds no links |
| TrainerSpecializationController.CreateTrainerSpecialization | server/src/controllers/trainerSpecialization.ts:23-98 | no profile gives 403, no specializations 400, a failed count check 400; past the checks, 409 when every requested id is already linked and 201 when one is new; only 201 changes the tables, by appending the new links |
| TrainerSpecializationController.GetAllTrainerSpecializations | server/src/controllers/trainerSpecialization.ts:100-156 | the listing is every link, newest first |
| EmailController.VerifyReply | server/src/controllers/email.ts:31-54 | the answer is 200 iff the user is not yet verified and the token verifies |
| EmailController.VerifiedRow | server/src/controllers/email.ts:36-54 | the row is changed only on a 200, and then it is exactly `VerifyToken`'s row: verified, token and expiry cleared, the time stamped, every other field kept |
| EmailController.VerifyOnlyOnce | server/src/controllers/email.ts:31-54 | after a successful verification the next attempt is refused as already verified and changes nothing |
| EmailController.VerifyEmail | server/src/controllers/email.ts:16-59 | a missing token or e-mail gives 400, an unknown e-mail 404, otherwise the reply and row of `VerifyReply`/`VerifiedRow`; only 200 changes the tables |
| EmailController.ResendVerifyEmail | server/src/controllers/email.ts:61-89 | a missing e-mail gives 500; an unknown one gives 200 and then a second reply, 500, with no change; otherwise a fresh token is stored and the mailer result decides between 200 and 500 |
| EmailController.CheckVerificationStatus | server/src/controllers/email.ts:91-105 | the body reports verified iff a verification time is stored, with the caller's e-mail |
| EmailController.ResentTokenVerifies | server/src/controllers/email.ts:61-84 | the token sent by a resend verifies the e-mail until it expires |
| UserController.MergeProfile | server/src/controllers/user.ts:14-25 | each field takes the request's value when it is truthy and keeps the stored one otherwise; nothing else changes |
| UserController.MergeProfileIdempotent | server/src/controllers/user.ts:14-25 | applying the same update twice is applying it once |
| UserController.EmptyRequestKeepsRow | server/src/controllers/user.ts:14-25 | any request whose four fields are all absent, null or empty leaves the row unchanged |
| UserController.AcceptedUpdateKeepsValid | server/src/controllers/user.ts:14-27 | an update whose changed fields meet the constraints keeps the user valid |
| UserController.UpdateProfile | server/src/controllers/user.ts:6-40 | an unknown caller gets 404, a change that breaks a constraint gets 400 without effect, otherwise the merged row is saved with 200 |
| AuthMiddleware.TokenOf | server/src/middleware/auth.ts:13 | there is a token iff there is a header; a header without `Bearer ` is taken as it stands |
| AuthMiddleware.BearerToken | server/src/middleware/auth.ts:13 | `Bearer t` gives `t` |
| AuthMiddleware.OnlyFirstBearerRemoved | server/src/middleware/auth.ts:13 | for any header containing `Bearer `, the token is the header without its first occurrence; every later occurrence stays in the token |
| AuthMiddleware.InnerBearerKept | server/src/middleware/auth.ts:13 | `Bearer Bearer x` gives the token `Bearer x` |
| AuthMiddleware.ErrorReply | server/src/middleware/auth.ts:35-45 | a malformed token and an expired one get their own 401 messages; any other error is a 500 |
| AuthMiddleware.Authenticate | server/src/middleware/auth.ts:7-46 | no token gives 401; a verifier error gives `ErrorReply`; the request goes on iff the decoded user exists and is active, with the user's public form; every refusal is 401 or 500 |
| AuthSlice.Reduce | frontend/features/auth/authSlice.ts:59-73 | `setCredentials` replaces user and token, `setTrainerProfile` replaces the trainer, `logOut` clears user and token but keeps the trainer; other actions change nothing |
| AuthSlice.LogOutIdempotent | frontend/features/auth/authSlice.ts:69-72 | logging out twice is logging out once |
| AuthSlice.LogOutForgetsCredentials | frontend/features/auth/authSlice.ts:60-72 | logging out after logging in leaves no trace of the credentials |
| AuthSlice.SettersCommute | frontend/features/auth/authSlice.ts:60-68 | setting credentials and setting the trainer profile commute |
| AuthSlice.SelectorsAfterActions | frontend/features/auth/authSlice.ts:46-83 | the selectors read back what the actions stored, and nothing after a log-out or initially |
| AuthSlice.AuthDraft.constructor | frontend/features/auth/authSlice.ts:46-50 | the draft starts from the given state |
| AuthSlice.AuthDraft.SetCredentials | frontend/features/auth/authSlice.ts:60-64 | the state becomes the reducer's result for `setCredentials` |
| AuthSlice.AuthDraft.SetTrainerProfile | frontend/features/auth/authSlice.ts:65-68 | the state becomes the reducer's result for `setTrainerProfile` |
| AuthSlice.AuthDraft.LogOut | frontend/features/auth/authSlice.ts:69-72 | the state becomes the reducer's result for `logOut` |
| RequireAuth.Navigation | frontend/features/auth/RequireAuth.tsx:12-22 | it goes to `/login` iff there is no token outside the auth group, to `/` iff there is a token inside it, and stays otherwise |
| RequireAuth.SignOutFlipsDecision | frontend/features/auth/RequireAuth.tsx:16-22 | dropping the token flips whether a redirect happens, and an empty token counts as none |
| TrainerApi.RequestOf | frontend/features/trainer/trainerApiSlice.ts:90-111 | both profile endpoints address `/trainer`; the query is a GET and the mutation a DELETE |
| TrainerApi.KeptPairs | frontend/features/trainer/trainerApiSlice.ts:117-121 | a pair is appended iff its value is neither undefined, null nor the empty string, under its key with the value's string form |
| TrainerApi.KeptPairsAppend | frontend/features/trainer/trainerApiSlice.ts:117-121 | entries are appended in the object's key order |
| TrainerApi.FalsyButKept | frontend/features/trainer/trainerApiSlice.ts:118 | `0` and `false` are sent as "0" and "false"; "" and null are dropped |
| TrainerApi.SearchUrl | frontend/features/trainer/trainerApiSlice.ts:113-124 | no parameters or nothing kept give `/trainer/search`; otherwise the path, `?` and the serialised kept pairs |
| TrainerApi.SearchQueryReadsBack | frontend/features/trainer/trainerApiSlice.ts:116-123 | the query string is non-empty and parses back to exactly the kept pairs, in order |
| FormUrlEncoded.Utf8 | frontend/features/trainer/trainerApiSlice.ts:122 | a character takes one to four bytes, and one byte equal to it exactly when it is ASCII |
| FormUrlEncoded.Utf8RoundTrip | frontend/features/trainer/trainerApiSlice.ts:122 | UTF-8 decoding undoes UTF-8 encoding |
| FormUrlEncoded.Encode | frontend/features/trainer/trainerApiSlice.ts:122 | an encoded component holds only unreserved characters, `+` and `%` |
| FormUrlEncoded.PercentRoundTrip | frontend/features/trainer/trainerApiSlice.ts:122 | percent-decoding an encoded component gives its UTF-8 bytes |
| FormUrlEncoded.ComponentRoundTrip | frontend/features/trainer/trainerApiSlice.ts:122 | decoding an encoded component gives it back |
| FormUrlEncoded.SerializeRoundTrip | frontend/features/trainer/trainerApiSlice.ts:116-122 | parsing a serialised list of pairs gives back the same pairs in the same order |
| FormUrlEncoded.SerializeEmptyIff | frontend/features/trainer/trainerApiSlice.ts:122-123 | the query string is empty iff no pair was appended |
| SearchScreen.Without | frontend/app/search.tsx:102 | filtering out an id keeps exactly the other elements, and changes nothing when the id is absent |
| SearchScreen.WithoutKeepsDistinct | frontend/app/search.tsx:102 | filtering keeps the selection free of repeats |
| SearchScreen.Toggled | frontend/app/search.tsx:99-104 | toggling flips the id's membership, appending it when absent, and keeps every other id's membership |
| SearchScreen.ToggledKeepsDistinct | frontend/app/search.tsx:99-104 | toggling keeps the selection free of repeats |
| SearchScreen.ToggleTwice | frontend/app/search.tsx:99-104 | toggling twice restores the selection when the id was absent and moves it to the end when present; the elements are the same either way |
| SearchScreen.ToObj | frontend/app/search.tsx:70-84 | the parameter object is empty iff no parameter is set |
| SearchScreen.SearchParamsOf | frontend/app/search.tsx:70-84 | text filters are sent trimmed iff they are not blank; each rate, as `parseFloat` of its input, iff that input is non-empty; the selected ids joined by commas iff some are selected; the sort key iff it is non-empty; the sort order, page 1 and limit 20 always |
| SearchScreen.QuerySent | frontend/app/search.tsx:70-84 | a search's query string is non-empty, reads back as its pairs, and carries `page=1`, `limit=20`, every set text filter, the specializations and the sort key and order when non-empty |
| SearchScreen.SearchQuerySent | frontend/app/search.tsx:70-84 | the query string of a search carries the trimmed text filters that are not blank, the comma-joined selected ids, the sort key and order, page 1 and limit 20 |
| SearchScreen.SpecializationChipCount | frontend/app/search.tsx:338-342 | the chip counts as many specializations as were joined, for ids without commas |
| SearchScreen.QueryArgument | frontend/app/search.tsx:63-65 | the query gets no argument iff the committed parameters are empty |
| SearchScreen.ChipRemoved | frontend/app/search.tsx:329-343 | removing a chip clears its input(s) and deletes its key(s) from the committed parameters; the rate chip clears both rates |
| SearchScreen.ChipRemovalCommutes | frontend/app/search.tsx:329-343 | removing a chip twice is removing it once, and removals commute |
| SearchScreen.SearchScreenState.constructor | frontend/app/search.tsx:49-61 | the screen starts empty, sorted by rating descending, on page 1, with no committed parameters |
| SearchScreen.SearchScreenState.HandleSearch | frontend/app/search.tsx:70-84 | the committed parameters become `SearchParamsOf` the inputs and the page 1; nothing else changes |
| SearchScreen.SearchScreenState.HandleClear | frontend/app/search.tsx:86-97 | every input returns to its initial value except the filter panel, and the query is sent without parameters |
| SearchScreen.SearchScreenState.ToggleSpec | frontend/app/search.tsx:99-104 | the selection becomes `Toggled` and nothing else changes |
| SearchScreen.SearchScreenState.ToggleFilters | frontend/app/search.tsx:106-109 | the filter panel flips and nothing else changes |
| SearchScreen.SearchScreenState.LoadMore | frontend/app/search.tsx:371-375 | the page and the committed parameters' page both become the next page |
| SearchScreen.SearchScreenState.RemoveChip | frontend/app/search.tsx:329-343 | the state becomes `ChipRemoved` |
| SearchScreen.SearchScreenState.SearchRequestUrl | frontend/app/search.tsx:63-65 | with no committed parameters the search path is requested, otherwise the path with their query string |
| CreateTrainerScreen.FormError | frontend/features/users/CreateTrainer.tsx:36-77 | the form passes iff no text field is blank and both rates parse to positive numbers |
| CreateTrainerScreen.FormErrorOrder | frontend/features/users/CreateTrainer.tsx:36-77 | checks run in order: a blank bio is always reported first, a missing field hides the rate checks, and the session-rate message means the hourly rate was fine |
| CreateTrainerScreen.ValidFormPayload | frontend/features/users/CreateTrainer.tsx:89-99 | a validated form sends non-empty, already trimmed text fields and positive rates |
| CreateTrainerScreen.ErrorMessage | frontend/features/users/CreateTrainer.tsx:119-128 | "no server response" iff the original status is absent or 0; the invalid-data and unauthorized messages iff there is a status and the response status is 400 or 401 |
| CreateTrainerScreen.ErrorMessageShown | frontend/features/users/CreateTrainer.tsx:119-128 | a failure shows one of four messages, the generic one iff there is a status other than 400 and 401 |
| CreateTrainerScreen.CreateTrainerState.constructor | frontend/features/users/CreateTrainer.tsx:20-31 | the form starts empty with coordinates "0" and no message |
| CreateTrainerScreen.CreateTrainerState.ValidateForm | frontend/features/users/CreateTrainer.tsx:36-77 | the answer is true iff `FormError` finds nothing; otherwise its message is shown |
| CreateTrainerScreen.CreateTrainerState.HandleSubmit | frontend/features/users/CreateTrainer.tsx:79-131 | the request is made iff the form is valid, with the trimmed and parsed payload; whatever the trigger resolves with, an HTTP error included, is stored as the trainer (`ResultData`), the message is cleared and the success alert shows, so the stored value is never a trainer row; only an exception inside the `try` block shows `ErrorMessage` |
| CreateTrainerScreen.ResultData | frontend/features/users/CreateTrainer.tsx:102-107 | the value passed to `setTrainerProfile` is the reply body `{ success, message }` after a 2xx answer and undefined after an error |
| LoginScreen.ValidEmailIffPattern | frontend/src/screens/Login.tsx:31-34 | the direct statement of a valid e-mail accepts exactly what the pattern `^[^\s@]+@[^\s@]+\.[^\s@]+$` accepts |
| LoginScreen.EmailError | frontend/src/screens/Login.tsx:44-50 | no e-mail message iff the e-mail is non-empty and valid |
| LoginScreen.PasswordError | frontend/src/screens/Login.tsx:52-58 | no password message iff the password has at least 6 characters |
| LoginScreen.BothErrorsAtOnce | frontend/src/screens/Login.tsx:36-60 | both messages can be shown together, and `a@b` is refused |
| LoginScreen.LoginState.constructor | frontend/src/screens/Login.tsx:25-27 | the screen starts with empty inputs and no messages |
| LoginScreen.LoginState.HandleLogin | frontend/src/screens/Login.tsx:36-81 | both messages are recomputed; the request is made with the inputs iff neither is set; success stores the credentials and goes home, failure alerts with the server's message or the default |

## Left out

- Image upload, S3 storage and the trainer-image model: not part of the core.
- Sending e-mail: whether the mailer succeeded is a parameter of `ResendVerifyEmail`.
- Password hashing and comparison (bcrypt) are not modelled. The stored password is an opaque string.
- JWT signing and verification: the verifier is a function parameter of `Authenticate`.
- `crypto.randomBytes`: the 32 random bytes are a parameter.
- The clock: `Date.now()` and `new Date()` are an integer parameter in milliseconds.
- Request-body validation middleware (express-validator) is not part of this model. Controllers receive their inputs as given.
- Token refresh and request retry in the client's base API slice are not part of this model.
- Rendering is not modelled:
  - layout, animations, labels, which chips are visible, the star display, the result list and its loading states;
  - the text-input setters, which only store what is typed.
- Alerts and navigation are modelled only as their outcome: `AfterLogin` for login, and for the create form whether the success alert shows. Where the alert's "Continue" button navigates is left out.
- `parseFloat` is a parameter. Numbers sent by the client are exact two-decimal values (`JsNumber`), so floating-point rounding is not modelled. `String(x)` is always written in positional notation; the exponent form JavaScript uses when the absolute value is at least 1e21 (such as `1e+21`) is not modelled.
- DECIMAL columns are modelled as exact reals or integers, not as the strings the database driver returns.
- LoginScreen.PasswordError: `password.length` counts UTF-16 code units; the model counts characters. The two differ only outside the Basic Multilingual Plane.
- UserModel.NewUser: the `isEmail` and `isUrl` validators and the e-mail uniqueness constraint are not modelled; an image URL only has to be non-empty.
- Integer columns are unbounded. 32-bit overflow of ids and counters is not modelled.
- Foreign-key cascades are left out. `DestroyTrainer` removes the trainer row; the cascade to its reviews, links and images is not modelled.
- Database failures (the 500 replies of each controller's `catch`) are not modelled. `CreateReview` and `CreateTrainer` model a constraint violation as a refusal without effect.
- The trainer listing's per-trainer enrichment (`Promise.all`) and the `include` payloads of `findByPk` are left out. Replies carry the stored rows.
- TrainerSpecializationController.CreateTrainerSpecialization: the link rows' own ids are not modelled. The certification length limit and experience levels outside the enum are not checked.
- The create form sends `city`/`county` while the server reads `locationCity`/`locationState`. The two halves are modelled separately and this mismatch is not connected.
- EmailController.ResendVerifyEmail: when an unknown e-mail's 200 is followed by the handler's second reply, the headers are already sent. The model records both replies in order and does not model the resulting runtime error.
- What an awaited request resolves with is a parameter. The create trigger is awaited without `.unwrap()`, so it resolves with `{ data }` or `{ error }` and does not reject. The `catch` block of the create form is reached only through the `Threw` outcome, which no call in its `try` block produces.
- CreateTrainerScreen.CreateTrainerState.HandleSubmit: the create reply carries no profile, so what the screen stores as the trainer is the reply body, or undefined after an HTTP error. `null` and `undefined` are both `None`.
- FormUrlEncoded.Utf8RoundTrip: the decoder refuses malformed UTF-8 instead of substituting U+FFFD. Only well-formed input, which is all the serialiser produces, is covered.
- SearchScreen.ToObj: the keys of the committed parameters are listed in one fixed order. On every path the screen takes, this is the order in which `handleSearch` inserts them.
- `findOne` without an ordering (lookup by e-mail, the trainer of a user) picks any matching row. When several rows match, the model does not pin which.
