/** The authentication context of the second front end (`edumanage/src/contexts/AuthContext.jsx`):
    a pure reducer over the authentication state, and a provider that keeps the stored token,
    restores the session at start-up, logs out once the token's `exp` claim has passed, and
    signs users in and up through the mock service. */
module EdumanageAuth {
  import opened Wrappers
  import opened MockAuthService

  datatype AuthState = AuthState(user: Option<PublicUser>, token: Option<StoredToken>,
                                 isAuthenticated: bool, isLoading: bool, error: Option<string>)

  datatype Action =
    | AuthStart
    | AuthSuccess(user: PublicUser, token: StoredToken)
    | AuthFailure(message: string)
    | LogoutAction
    | SetLoading(loading: bool)
    | UpdateUser(updated: PublicUser)
    | UnknownAction(kind: string)

  /** `initialState`: nobody signed in yet, loading, with whatever token the browser holds. */
  function InitialState(stored: Option<StoredToken>): (s: AuthState)
    ensures !s.isAuthenticated && s.isLoading && s.user.None? && s.error.None? && s.token == stored
  {
    AuthState(None, stored, false, true, None)
  }

  /** `authReducer`. */
  function Reduce(s: AuthState, a: Action): (t: AuthState)
    ensures a.AuthStart? ==> t == s.(isLoading := true, error := None)
    ensures a.AuthSuccess? ==> t.user == Some(a.user) && t.token == Some(a.token) &&
                               t.isAuthenticated && !t.isLoading && t.error.None?
    ensures a.AuthFailure? ==> t.user.None? && t.token.None? && !t.isAuthenticated && !t.isLoading &&
                               t.error == Some(a.message)
    ensures a.LogoutAction? ==> t.user.None? && t.token.None? && !t.isAuthenticated && !t.isLoading &&
                                t.error.None?
    ensures a.SetLoading? ==> t == s.(isLoading := a.loading)
    ensures a.UpdateUser? ==> t == s.(user := Some(a.updated))
    ensures a.UnknownAction? ==> t == s
  {
    match a
    case AuthStart => s.(isLoading := true, error := None)
    case AuthSuccess(u, tok) => s.(user := Some(u), token := Some(tok), isAuthenticated := true,
                                   isLoading := false, error := None)
    case AuthFailure(msg) => s.(user := None, token := None, isAuthenticated := false,
                                isLoading := false, error := Some(msg))
    case LogoutAction => s.(user := None, token := None, isAuthenticated := false,
                            isLoading := false, error := None)
    case SetLoading(b) => s.(isLoading := b)
    case UpdateUser(u) => s.(user := Some(u))
    case UnknownAction(_) => s
  }

  /** Authenticated states always have a user and a token. */
  predicate Consistent(s: AuthState) {
    s.isAuthenticated ==> s.user.Some? && s.token.Some?
  }

  /** The reducer keeps states consistent, whatever sequence of actions is dispatched. */
  lemma {:induction false} ReduceAllConsistent(s: AuthState, actions: seq<Action>)
    requires Consistent(s)
    ensures Consistent(ReduceAll(s, actions))
    decreases |actions|
  {
    if actions != [] {
      ReduceAllConsistent(Reduce(s, actions[0]), actions[1..]);
    }
  }

  /** Dispatching the actions in order. */
  function ReduceAll(s: AuthState, actions: seq<Action>): AuthState
    decreases |actions|
  {
    if actions == [] then s else ReduceAll(Reduce(s, actions[0]), actions[1..])
  }

  /** A failure and a logout leave the same state except for the recorded error. */
  lemma FailureIsLogoutWithError(s: AuthState, msg: string)
    ensures Reduce(s, AuthFailure(msg)) == Reduce(s, LogoutAction).(error := Some(msg))
  {
  }

  /** The check that runs every minute: the token is expired when `exp` seconds lie before `now`
      milliseconds. */
  const ExpiryCheckIntervalMs: int := 60000

  predicate Expired(p: TokenPayload, nowMs: int) {
    p.exp * 1000 < nowMs
  }

  /** What the periodic check does with the stored token. */
  datatype ExpiryDecision = NoToken | KeepSession | ForceLogout

  function CheckTokenExpiry(stored: Option<StoredToken>, nowMs: int): (d: ExpiryDecision)
    ensures d.NoToken? <==> stored.None?
    ensures d.ForceLogout? <==> stored.Some? && (stored.value.Undecodable? || Expired(stored.value.payload, nowMs))
    ensures d.KeepSession? <==> stored.Some? && stored.value.Jwt? && stored.value.payload.exp * 1000 >= nowMs
  {
    match stored
    case None => NoToken
    case Some(Undecodable) => ForceLogout
    case Some(Jwt(p)) => if p.exp * 1000 < nowMs then ForceLogout else KeepSession
  }

  /** A minted token survives every check made within 86399001 ms of its minting and is logged out
      by any check made more than 86400000 ms after it. */
  lemma MintedTokenLifetime(u: User, mintedMs: nat, nowMs: int)
    ensures nowMs <= mintedMs + 86399001 ==> CheckTokenExpiry(Some(MintToken(u, mintedMs)), nowMs) == KeepSession
    ensures nowMs > mintedMs + 86400000 ==> CheckTokenExpiry(Some(MintToken(u, mintedMs)), nowMs) == ForceLogout
  {
    var p := MintToken(u, mintedMs).payload;
    assert p.exp == mintedMs / 1000 + 86400;
    assert mintedMs / 1000 * 1000 <= mintedMs < mintedMs / 1000 * 1000 + 1000;
  }

  /** The provider: the stored token, the reducer state, and the service it calls. */
  class AuthProvider {
    var storedToken: Option<StoredToken>   // localStorage 'token'
    var state: AuthState
    const service: MockDirectory

    constructor (stored: Option<StoredToken>, svc: MockDirectory)
      ensures storedToken == stored && state == InitialState(stored) && service == svc
    {
      storedToken := stored;
      state := InitialState(stored);
      service := svc;
    }

    /** `initAuth`: without a token only loading ends; a token whose user cannot be found is
        removed and the session reported expired. */
    method InitAuth()
      modifies this
      ensures old(storedToken).None? ==> storedToken.None? && state == Reduce(old(state), SetLoading(false))
      ensures old(storedToken).Some? ==>
                match service.GetCurrentUser(old(storedToken))
                case Ok(u) => storedToken == old(storedToken) &&
                              state == Reduce(old(state), AuthSuccess(u, old(storedToken).value))
                case Err(_) => storedToken.None? && state == Reduce(old(state), AuthFailure("Session expired"))
    {
      if storedToken.None? {
        state := Reduce(state, SetLoading(false));
      } else {
        var r := service.GetCurrentUser(storedToken);
        if r.Ok? {
          state := Reduce(state, AuthSuccess(r.value, storedToken.value));
        } else {
          storedToken := None;
          state := Reduce(state, AuthFailure("Session expired"));
        }
      }
    }

    /** One run of `checkTokenExpiry`. */
    method CheckExpiry(nowMs: int)
      modifies this
      ensures match CheckTokenExpiry(old(storedToken), nowMs)
              case ForceLogout => storedToken.None? && state == Reduce(old(state), LogoutAction)
              case _ => storedToken == old(storedToken) && state == old(state)
    {
      if CheckTokenExpiry(storedToken, nowMs) == ForceLogout {
        Logout();
      }
    }

    /** `login`: the token is stored and the session set on success; the failure is recorded. */
    method Login(email: string, password: string, nowMs: nat) returns (r: Result<Session, string>)
      modifies this
      ensures r == service.Login(email, password, nowMs)
      ensures r.Ok? ==> storedToken == Some(r.value.token) &&
                        state == Reduce(Reduce(old(state), AuthStart), AuthSuccess(r.value.user, r.value.token))
      ensures r.Err? ==> storedToken == old(storedToken) &&
                         state == Reduce(Reduce(old(state), AuthStart), AuthFailure(r.error))
    {
      state := Reduce(state, AuthStart);
      r := service.Login(email, password, nowMs);
      if r.Ok? {
        storedToken := Some(r.value.token);
        state := Reduce(state, AuthSuccess(r.value.user, r.value.token));
      } else {
        state := Reduce(state, AuthFailure(r.error));
      }
    }

    /** `register`: as `login`, with the service appending the new user. */
    method Register(form: Registration, nowMs: nat) returns (r: Result<Session, string>)
      requires service.Valid()
      modifies this, service
      ensures service.Valid()
      ensures r.Ok? <==> forall j :: 0 <= j < |old(service.users)| ==> old(service.users)[j].email != form.email
      ensures r.Err? ==> r.error == "Email already exists"
      ensures r.Ok? ==> var u := User(|old(service.users)| + 1, form.email, form.password, form.name, form.role);
                        r.value == Session(WithoutPassword(u), MintToken(u, nowMs))
      ensures r.Ok? ==> storedToken == Some(r.value.token) &&
                        state == Reduce(Reduce(old(state), AuthStart), AuthSuccess(r.value.user, r.value.token)) &&
                        service.users == old(service.users) + [User(|old(service.users)| + 1, form.email,
                                                                    form.password, form.name, form.role)]
      ensures r.Err? ==> storedToken == old(storedToken) && service.users == old(service.users) &&
                         state == Reduce(Reduce(old(state), AuthStart), AuthFailure(r.error))
    {
      state := Reduce(state, AuthStart);
      r := service.Register(form, nowMs);
      if r.Ok? {
        storedToken := Some(r.value.token);
        state := Reduce(state, AuthSuccess(r.value.user, r.value.token));
      } else {
        state := Reduce(state, AuthFailure(r.error));
      }
    }

    /** `logout`. */
    method Logout()
      modifies this
      ensures storedToken.None? && state == Reduce(old(state), LogoutAction)
    {
      storedToken := None;
      state := Reduce(state, LogoutAction);
    }

    /** `updateUser`. */
    method UpdateUser(u: PublicUser)
      modifies this
      ensures storedToken == old(storedToken) && state == Reduce(old(state), Action.UpdateUser(u))
    {
      state := Reduce(state, Action.UpdateUser(u));
    }
  }

  /** A session that `login` just started survives start-up: the minted token leads back to the
      user who signed in. */
  lemma LoginSessionIsRestored(d: MockDirectory, email: string, password: string, nowMs: nat)
    requires d.Valid()
    requires d.Login(email, password, nowMs).Ok?
    ensures var s := d.Login(email, password, nowMs).value;
            d.GetCurrentUser(Some(s.token)) == Ok(s.user)
  {
    var s := d.Login(email, password, nowMs).value;
    var j :| 0 <= j < |d.users| && d.users[j].email == email && d.users[j].password == password &&
             s == Session(WithoutPassword(d.users[j]), MintToken(d.users[j], nowMs));
    MintedTokenFindsItsUser(d.users, j, nowMs);
  }
}
