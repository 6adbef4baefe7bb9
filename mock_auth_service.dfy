/** The mock fallbacks of the second front end's authentication service
    (`edumanage/src/services/authService.js`): an in-memory directory of users, the minting of a
    token whose payload carries a 24-hour `exp` claim (seconds since the epoch, as the `exp` claim
    of section 4.1.4 of RFC 7519), and login, registration, current-user lookup, profile update and
    password change over that directory. The attempt to reach the real HTTP API first is not
    modelled: each operation here is the branch taken when that call fails. */
module MockAuthService {
  import opened Wrappers

  /** One entry of `MOCK_USERS` (the avatar, subjects, classes and children fields are not modelled). */
  datatype User = User(id: int, email: string, password: string, name: string, role: string)

  /** A user as handed out by the service: every field except the password. */
  datatype PublicUser = PublicUser(id: int, email: string, name: string, role: string)

  /** The claims of a minted token. */
  datatype TokenPayload = TokenPayload(id: int, email: string, role: string, exp: int)

  /** A stored token: one whose middle segment decodes to a payload, or text that does not decode. */
  datatype StoredToken = Jwt(payload: TokenPayload) | Undecodable

  /** What `login` and `register` resolve with. */
  datatype Session = Session(user: PublicUser, token: StoredToken)

  /** The registration form. */
  datatype Registration = Registration(email: string, password: string, name: string, role: string)

  /** The fields a profile update may carry; absent ones keep their value. */
  datatype ProfileUpdate = ProfileUpdate(email: Option<string>, password: Option<string>,
                                         name: Option<string>, role: Option<string>)

  /** A rejection with the service's own message, or a runtime error thrown while decoding the
      stored token (a missing token or a malformed one). */
  datatype ServiceError = Rejected(message: string) | Thrown

  const TokenLifetimeSeconds: int := 24 * 60 * 60

  const MockUsers: seq<User> := [
    User(1, "admin@edumanage.com", "admin123", "John Administrator", "admin"),
    User(2, "teacher@edumanage.com", "teacher123", "Sarah Teacher", "teacher"),
    User(3, "student@edumanage.com", "student123", "Mike Student", "student"),
    User(4, "parent@edumanage.com", "parent123", "Emily Parent", "parent")
  ]

  function WithoutPassword(u: User): (p: PublicUser)
    ensures p.id == u.id && p.email == u.email && p.name == u.name && p.role == u.role
  {
    PublicUser(u.id, u.email, u.name, u.role)
  }

  /** `generateMockToken`: the payload holds the id, the e-mail and the role, and expires
      86400 seconds after the current second. */
  function MintToken(u: User, nowMs: nat): (t: StoredToken)
    ensures t.Jwt? && t.payload.id == u.id && t.payload.email == u.email && t.payload.role == u.role
    ensures t.payload.exp * 1000 <= nowMs + TokenLifetimeSeconds * 1000 < t.payload.exp * 1000 + 1000
  {
    Jwt(TokenPayload(u.id, u.email, u.role, nowMs / 1000 + TokenLifetimeSeconds))
  }

  /** `JSON.parse(atob(token.split('.')[1]))`, failing for a missing or malformed token. */
  function Decode(token: Option<StoredToken>): (p: Option<TokenPayload>)
    ensures p.Some? <==> token.Some? && token.value.Jwt?
    ensures p.Some? ==> p.value == token.value.payload
  {
    if token.Some? && token.value.Jwt? then Some(token.value.payload) else None
  }

  /** The first user with exactly these credentials. */
  function FindByCredentials(users: seq<User>, email: string, password: string): (k: nat)
    ensures k <= |users|
    ensures k < |users| ==> users[k].email == email && users[k].password == password
    ensures forall j :: 0 <= j < k ==> !(users[j].email == email && users[j].password == password)
  {
    if users == [] then 0
    else if users[0].email == email && users[0].password == password then 0
    else 1 + FindByCredentials(users[1..], email, password)
  }

  /** `findIndex(u => u.id === id)`: the first position with that id, or -1. */
  function FindIndexById(users: seq<User>, id: int): (k: int)
    ensures -1 <= k < |users|
    ensures k == -1 <==> forall j :: 0 <= j < |users| ==> users[j].id != id
    ensures k >= 0 ==> users[k].id == id && forall j :: 0 <= j < k ==> users[j].id != id
  {
    if users == [] then -1
    else if users[0].id == id then 0
    else
      var k := FindIndexById(users[1..], id);
      if k == -1 then -1 else k + 1
  }

  /** Ids follow positions: the i-th user (from 0) has id i + 1. */
  ghost predicate IdsArePositions(users: seq<User>) {
    forall i :: 0 <= i < |users| ==> users[i].id == i + 1
  }

  /** In a directory whose ids follow positions, the user with id n sits at position n - 1. */
  lemma IndexOfIdIsPosition(users: seq<User>, id: int)
    requires IdsArePositions(users)
    ensures FindIndexById(users, id) == if 1 <= id <= |users| then id - 1 else -1
  {
    var k := FindIndexById(users, id);
    if 1 <= id <= |users| {
      assert users[id - 1].id == id;
    }
  }

  /** `{...user, ...userData}` for the modelled fields. */
  function Merge(u: User, upd: ProfileUpdate): (v: User)
    ensures v.id == u.id
    ensures v.email == upd.email.GetOr(u.email) && v.password == upd.password.GetOr(u.password)
    ensures v.name == upd.name.GetOr(u.name) && v.role == upd.role.GetOr(u.role)
  {
    User(u.id, upd.email.GetOr(u.email), upd.password.GetOr(u.password),
         upd.name.GetOr(u.name), upd.role.GetOr(u.role))
  }

  /** The module-level `MOCK_USERS` array and the operations over it. */
  class MockDirectory {
    var users: seq<User>

    ghost predicate Valid()
      reads this
    {
      IdsArePositions(users)
    }

    constructor ()
      ensures users == MockUsers && Valid()
    {
      users := MockUsers;
    }

    /** Mock `login`: both the e-mail and the password must match exactly. */
    function Login(email: string, password: string, nowMs: nat): (r: Result<Session, string>)
      reads this
      ensures r.Err? <==> forall j :: 0 <= j < |users| ==> !(users[j].email == email && users[j].password == password)
      ensures r.Err? ==> r.error == "Invalid email or password"
      ensures r.Ok? ==> exists j :: 0 <= j < |users| && users[j].email == email && users[j].password == password &&
                                    (forall i :: 0 <= i < j ==> !(users[i].email == email && users[i].password == password)) &&
                                    r.value == Session(WithoutPassword(users[j]), MintToken(users[j], nowMs))
    {
      var k := FindByCredentials(users, email, password);
      if k == |users| then Err("Invalid email or password")
      else Ok(Session(WithoutPassword(users[k]), MintToken(users[k], nowMs)))
    }

    /** Mock `register`: an e-mail already present (exact comparison) is refused; otherwise the
        user is appended with the next id. */
    method Register(form: Registration, nowMs: nat) returns (r: Result<Session, string>)
      requires Valid()
      modifies this
      ensures Valid()
      ensures (exists j :: 0 <= j < |old(users)| && old(users)[j].email == form.email) ==>
                r == Err("Email already exists") && users == old(users)
      ensures (forall j :: 0 <= j < |old(users)| ==> old(users)[j].email != form.email) ==>
                var u := User(|old(users)| + 1, form.email, form.password, form.name, form.role);
                users == old(users) + [u] && r == Ok(Session(WithoutPassword(u), MintToken(u, nowMs)))
    {
      if exists j :: 0 <= j < |users| && users[j].email == form.email {
        return Err("Email already exists");
      }
      var u := User(|users| + 1, form.email, form.password, form.name, form.role);
      users := users + [u];
      r := Ok(Session(WithoutPassword(u), MintToken(u, nowMs)));
    }

    /** Mock `getCurrentUser`: no token, a token that does not decode, and a payload id that
        matches no user are the three ways to fail. */
    function GetCurrentUser(token: Option<StoredToken>): (r: Result<PublicUser, string>)
      reads this
      ensures token.None? ==> r == Err("No token found")
      ensures token.Some? && Decode(token).None? ==> r == Err("Invalid token")
      ensures r.Ok? <==> Decode(token).Some? && FindIndexById(users, Decode(token).value.id) >= 0
      ensures r.Ok? ==> r.value == WithoutPassword(users[FindIndexById(users, Decode(token).value.id)]) &&
                        r.value.id == token.value.payload.id
      ensures r.Err? && token.Some? ==> r == Err("Invalid token")
    {
      if token.None? then Err("No token found")
      else
        var payload := Decode(token);
        if payload.None? then Err("Invalid token")
        else
          var k := FindIndexById(users, payload.value.id);
          if k == -1 then Err("Invalid token") else Ok(WithoutPassword(users[k]))
    }

    /** Mock `updateProfile`: merges the update into the token's user and nobody else. */
    method UpdateProfile(token: Option<StoredToken>, upd: ProfileUpdate) returns (r: Result<PublicUser, ServiceError>)
      requires Valid()
      modifies this
      ensures Valid()
      ensures Decode(token).None? ==> r == Err(Thrown) && users == old(users)
      ensures Decode(token).Some? && FindIndexById(old(users), token.value.payload.id) == -1 ==>
                r == Err(Rejected("User not found")) && users == old(users)
      ensures Decode(token).Some? && FindIndexById(old(users), token.value.payload.id) >= 0 ==>
                var k := FindIndexById(old(users), token.value.payload.id);
                users == old(users)[k := Merge(old(users)[k], upd)] && r == Ok(WithoutPassword(users[k]))
    {
      var payload := Decode(token);
      if payload.None? {
        return Err(Thrown);
      }
      var k := FindIndexById(users, payload.value.id);
      if k == -1 {
        return Err(Rejected("User not found"));
      }
      users := users[k := Merge(users[k], upd)];
      r := Ok(WithoutPassword(users[k]));
    }

    /** Mock `changePassword`: the current password must match; then only that user's password
        changes. */
    method ChangePassword(token: Option<StoredToken>, currentPassword: string, newPassword: string)
      returns (r: Result<string, ServiceError>)
      requires Valid()
      modifies this
      ensures Valid()
      ensures Decode(token).None? ==> r == Err(Thrown) && users == old(users)
      ensures Decode(token).Some? && FindIndexById(old(users), token.value.payload.id) == -1 ==>
                r == Err(Rejected("User not found")) && users == old(users)
      ensures Decode(token).Some? && FindIndexById(old(users), token.value.payload.id) >= 0 ==>
                var k := FindIndexById(old(users), token.value.payload.id);
                if old(users)[k].password != currentPassword then
                  r == Err(Rejected("Current password is incorrect")) && users == old(users)
                else
                  r == Ok("Password changed successfully") &&
                  users == old(users)[k := old(users)[k].(password := newPassword)]
    {
      var payload := Decode(token);
      if payload.None? {
        return Err(Thrown);
      }
      var k := FindIndexById(users, payload.value.id);
      if k == -1 {
        return Err(Rejected("User not found"));
      }
      if users[k].password != currentPassword {
        return Err(Rejected("Current password is incorrect"));
      }
      users := users[k := users[k].(password := newPassword)];
      r := Ok("Password changed successfully");
    }
  }

  /** A token minted for a directory entry leads `getCurrentUser` back to that entry. */
  lemma MintedTokenFindsItsUser(users: seq<User>, k: nat, nowMs: nat)
    requires IdsArePositions(users) && k < |users|
    ensures var t := MintToken(users[k], nowMs);
            FindIndexById(users, Decode(Some(t)).value.id) == k
  {
    IndexOfIdIsPosition(users, users[k].id);
  }

  /** Every directory entry can sign in with its own credentials. */
  lemma EntryCanLogIn(d: MockDirectory, k: nat, nowMs: nat)
    requires k < |d.users|
    ensures d.Login(d.users[k].email, d.users[k].password, nowMs).Ok?
  {
  }
}
