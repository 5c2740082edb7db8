/**
 * The client's `auth` slice: the signed-in user, their access token and
 * their trainer profile, the three reducers that change them and the
 * selectors that read them.
 *
 * A reducer assigns fields of an Immer draft of the state; `AuthDraft` is
 * that draft and `Reduce` the state the store holds after an action.
 * `null` and a missing payload field are both `None`.
 */
module AuthSlice {
  import opened Js
  import opened UserModel
  import opened TrainerModel

  /** What `setTrainerProfile` stores as `trainer`. The reducer does not look
      at its payload, so this is whatever a screen passes: a trainer row, or
      the body of a reply that carries no profile. */
  datatype TrainerValue = TrainerRecord(row: TrainerRow) | ReplyBody(success: bool, message: string)

  datatype AuthState = AuthState(user: Option<PublicUser>, token: Option<string>, trainer: Option<TrainerValue>)

  /** `initialState`: nobody is signed in. */
  const InitialState: AuthState := AuthState(None, None, None)

  datatype Action =
    | SetCredentials(user: Option<PublicUser>, token: Option<string>)
    | SetTrainerProfile(trainer: Option<TrainerValue>)
    | LogOut
    | Unrelated   // an action of another slice: this slice's state is kept

  /** The slice's reducer. */
  function Reduce(s: AuthState, a: Action): (r: AuthState)
    ensures a.SetCredentials? ==> r.user == a.user && r.token == a.token && r.trainer == s.trainer
    ensures a.SetTrainerProfile? ==> r.trainer == a.trainer && r.user == s.user && r.token == s.token
    ensures a.LogOut? ==> r.user.None? && r.token.None? && r.trainer == s.trainer
    ensures a.Unrelated? ==> r == s
  {
    match a
    case SetCredentials(u, t) => s.(user := u, token := t)
    case SetTrainerProfile(p) => s.(trainer := p)
    case LogOut => s.(user := None, token := None)
    case Unrelated => s
  }

  /** Signing out twice is signing out once. */
  lemma LogOutIdempotent(s: AuthState)
    ensures Reduce(Reduce(s, LogOut), LogOut) == Reduce(s, LogOut)
  {
  }

  /** Signing out after signing in leaves exactly the state of signing out
      directly: the credentials leave no trace, the trainer profile stays. */
  lemma LogOutForgetsCredentials(s: AuthState, u: Option<PublicUser>, t: Option<string>)
    ensures Reduce(Reduce(s, SetCredentials(u, t)), LogOut) == Reduce(s, LogOut)
  {
  }

  /** Credentials and trainer profile are independent: the two setters
      commute. */
  lemma SettersCommute(s: AuthState, u: Option<PublicUser>, t: Option<string>, p: Option<TrainerValue>)
    ensures Reduce(Reduce(s, SetCredentials(u, t)), SetTrainerProfile(p)) ==
            Reduce(Reduce(s, SetTrainerProfile(p)), SetCredentials(u, t))
  {
  }

  /** The store's root state, `{ auth: AuthState }`. */
  datatype RootState = RootState(auth: AuthState)

  function SelectCurrentUser(root: RootState): Option<PublicUser> { root.auth.user }
  function SelectCurrentToken(root: RootState): Option<string> { root.auth.token }
  function SelectCurrentTrainer(root: RootState): Option<TrainerValue> { root.auth.trainer }

  /** What each selector reads back after each reducer. */
  lemma SelectorsAfterActions(s: AuthState, u: Option<PublicUser>, t: Option<string>, p: Option<TrainerValue>)
    ensures SelectCurrentUser(RootState(Reduce(s, SetCredentials(u, t)))) == u
    ensures SelectCurrentToken(RootState(Reduce(s, SetCredentials(u, t)))) == t
    ensures SelectCurrentTrainer(RootState(Reduce(s, SetCredentials(u, t)))) == s.trainer
    ensures SelectCurrentTrainer(RootState(Reduce(s, SetTrainerProfile(p)))) == p
    ensures SelectCurrentToken(RootState(Reduce(s, LogOut))).None?
    ensures SelectCurrentUser(RootState(Reduce(s, LogOut))).None?
    ensures SelectCurrentToken(RootState(InitialState)).None?
  {
  }

  /** The draft a reducer writes to. */
  class AuthDraft {
    var user: Option<PublicUser>
    var token: Option<string>
    var trainer: Option<TrainerValue>

    function State(): AuthState
      reads this
    {
      AuthState(user, token, trainer)
    }

    constructor (s: AuthState)
      ensures State() == s
    {
      user, token, trainer := s.user, s.token, s.trainer;
    }

    /** `setCredentials(state, action)` */
    method SetCredentials(u: Option<PublicUser>, t: Option<string>)
      modifies this
      ensures State() == Reduce(old(State()), Action.SetCredentials(u, t))
    {
      user := u;
      token := t;
    }

    /** `setTrainerProfile(state, action)` */
    method SetTrainerProfile(p: Option<TrainerValue>)
      modifies this
      ensures State() == Reduce(old(State()), Action.SetTrainerProfile(p))
    {
      trainer := p;
    }

    /** `logOut(state)` */
    method LogOut()
      modifies this
      ensures State() == Reduce(old(State()), Action.LogOut)
    {
      user := None;
      token := None;
    }
  }
}
