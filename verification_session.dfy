/** The e-mail verification-code session of the first front end (`src/contexts/AuthContext.jsx`).
    The browser keeps four storage slots (`token`, `user`, `verification_pending`, `verifiedUsers`)
    and the provider keeps three pieces of React state (`user`, `pendingVerification`, `loading`).
    A single pending request holds a 6-digit one-time code that expires 15 minutes after it is
    stored; login and registration share that one slot.

    Every operation is a transition on a `Snapshot` of the slots and the state; the class
    `AuthProvider` carries the same fields and performs each transition step by step. The clock
    (`Date.now()`), `Math.random()` and the ISO time stamp are parameters. */
module VerificationSession {
  import opened Wrappers
  import opened Text

  /** 15 minutes in milliseconds. */
  const CodeLifetimeMs: int := 15 * 60 * 1000

  const NoAccountMsg := "No account found with this email address"
  const AccountExistsMsg := "An account with this email already exists. Try signing in instead."
  const NoLoginRequestMsg := "No verification in progress. Please request a new code."
  const NoRegistrationRequestMsg := "No verification in progress. Please start registration again."
  const LoginExpiredMsg := "Verification code has expired. Please request a new one."
  const RegistrationExpiredMsg := "Verification code has expired. Please register again."
  const WrongCodeMsg := "Invalid verification code. Please check and try again."
  const NoResendMsg := "No verification in progress"

  /** A user record as kept in the user database and in the session. Default users have no
      password and no creation time; registered users carry what the form gave them. */
  datatype Account = Account(id: nat, email: string, role: string, name: string, emailVerified: bool,
                             password: Option<string>, createdAt: Option<string>)

  /** The fields of the registration form. */
  datatype Profile = Profile(email: string, name: string, role: string, password: Option<string>)

  /** The content of the `verification_pending` slot. */
  datatype Pending = Pending(email: string, code: string, timestamp: int, expiresAt: int, userData: Account)

  /** The `user` slot: empty, a readable account, or text whose parse (or whose `emailVerified`
      lookup) throws. */
  datatype UserSlot = NoUser | Saved(account: Account) | Unreadable

  datatype Snapshot = Snapshot(
    token: Option<string>,          // localStorage 'token'
    userSlot: UserSlot,             // localStorage 'user'
    pendingSlot: Option<Pending>,   // localStorage 'verification_pending'
    verifiedUsers: seq<Account>,    // localStorage 'verifiedUsers'
    user: Option<Account>,          // state user
    pending: Option<Pending>,       // state pendingVerification
    loading: bool)                  // state loading

  datatype Outcome = Success | Failure(error: string)

  /** The state after an operation, what it reports, and where it navigates (if anywhere). */
  datatype Step = Step(next: Snapshot, outcome: Outcome, navigate: Option<string>)

  /** A stored string is truthy when present and non-empty. */
  predicate Truthy(slot: Option<string>) {
    slot.Some? && slot.value != ""
  }

  /** `Math.floor(100000 + Math.random() * 900000).toString()`, with the random draw as `r`. */
  function GenerateCode(r: real): (code: string)
    requires 0.0 <= r < 1.0
    ensures |code| == 6 && AllDigits(code) && code[0] != '0'
    ensures 100000 <= DecToNat(code) <= 999999
  {
    var n := (100000.0 + r * 900000.0).Floor;
    assert 100000 <= n <= 999999;
    SixDigitBounds();
    DecRoundTrip(n);
    DecLength(n, 6);
    NatToDec(n)
  }

  lemma SixDigitBounds()
    ensures Pow10(5) == 100000 && Pow10(6) == 1000000
  {
    assert Pow10(1) == 10;
    assert Pow10(2) == 100;
    assert Pow10(3) == 1000;
    assert Pow10(4) == 10000;
  }

  const DefaultUsers: seq<Account> := [
    Account(1, "admin@school.com", "admin", "John Admin", true, None, None),
    Account(2, "teacher@school.com", "teacher", "Sarah Teacher", true, None, None),
    Account(3, "student@school.com", "student", "Mike Student", true, None, None),
    Account(4, "parent@school.com", "parent", "Lisa Parent", true, None, None)
  ]

  /** The built-in users followed by the registered ones. */
  function UserDatabase(s: Snapshot): seq<Account> {
    DefaultUsers + s.verifiedUsers
  }

  predicate SameEmail(a: string, b: string) {
    Lower(a) == Lower(b)
  }

  /** The position of the first user whose e-mail matches, ignoring case; `|users|` when none does. */
  function FirstWithEmail(users: seq<Account>, email: string): (i: nat)
    ensures i <= |users|
    ensures i < |users| ==> SameEmail(users[i].email, email)
    ensures forall j :: 0 <= j < i ==> !SameEmail(users[j].email, email)
  {
    if users == [] then 0
    else if SameEmail(users[0].email, email) then 0
    else 1 + FirstWithEmail(users[1..], email)
  }

  /** The user at position i is the first whose e-mail matches, ignoring case. */
  predicate FirstMatchAt(users: seq<Account>, email: string, i: int) {
    0 <= i < |users| && SameEmail(users[i].email, email) &&
    forall j :: 0 <= j < i ==> !SameEmail(users[j].email, email)
  }

  /** `users.find(u => u.email.toLowerCase() === email.toLowerCase())`. */
  function FindByEmail(users: seq<Account>, email: string): (r: Option<Account>)
    ensures r.Some? ==> r.value in users && SameEmail(r.value.email, email)
    ensures r.Some? ==> exists i :: FirstMatchAt(users, email, i) && users[i] == r.value
    ensures r.None? <==> forall j :: 0 <= j < |users| ==> !SameEmail(users[j].email, email)
  {
    var i := FirstWithEmail(users, email);
    if i < |users| then Some(users[i]) else None
  }

  /** A search that finds nothing in `a` continues into `b`. */
  lemma {:induction false} FirstWithEmailAppend(a: seq<Account>, b: seq<Account>, email: string)
    requires FirstWithEmail(a, email) == |a|
    ensures FirstWithEmail(a + b, email) == |a| + FirstWithEmail(b, email)
  {
    if a == [] {
      assert a + b == b;
    } else {
      assert !SameEmail(a[0].email, email);
      assert (a + b)[0] == a[0];
      assert (a + b)[1..] == a[1..] + b;
      FirstWithEmailAppend(a[1..], b, email);
    }
  }

  lemma FindByEmailAppend(a: seq<Account>, b: seq<Account>, email: string)
    requires FindByEmail(a, email).None?
    ensures FindByEmail(a + b, email) == FindByEmail(b, email)
  {
    FirstWithEmailAppend(a, b, email);
    assert forall k :: 0 <= k < |b| ==> (a + b)[|a| + k] == b[k];
  }

  /** `storeVerificationCode`: one write to the single pending slot and to the pending state. */
  function Store(s: Snapshot, email: string, code: string, now: int, userData: Account): (t: Snapshot)
    ensures t.pendingSlot == t.pending == Some(Pending(email, code, now, now + CodeLifetimeMs, userData))
    ensures t.pendingSlot.value.expiresAt - t.pendingSlot.value.timestamp == 900000
    ensures t == s.(pendingSlot := t.pendingSlot, pending := t.pending)
  {
    var p := Pending(email, code, now, now + CodeLifetimeMs, userData);
    s.(pendingSlot := Some(p), pending := Some(p))
  }

  /** The dashboard each role is sent to after a successful verification. */
  function DashboardPath(role: string): (path: string)
    ensures role !in {"admin", "teacher", "student", "parent"} ==> path == "/"
    ensures role in {"admin", "teacher", "student", "parent"} ==> path == "/" + role
  {
    match role
    case "admin" => "/admin"
    case "teacher" => "/teacher"
    case "student" => "/student"
    case "parent" => "/parent"
    case _ => "/"
  }

  /** `sendLoginCode`: issues a code only for a known e-mail; stores the e-mail as typed. */
  function SendLoginCodeStep(s: Snapshot, email: string, r: real, now: int): (st: Step)
    requires 0.0 <= r < 1.0
    ensures st.outcome.Success? <==> exists u :: u in UserDatabase(s) && SameEmail(u.email, email)
    ensures st.outcome.Failure? ==> st.outcome.error == NoAccountMsg && st.next == s.(loading := false)
    ensures st.outcome.Success? ==> (st.next.pendingSlot.Some? &&
      var p := st.next.pendingSlot.value;
      p.email == email && p.timestamp == now &&
      p.expiresAt == now + CodeLifetimeMs && |p.code| == 6 && AllDigits(p.code) &&
      p.userData in UserDatabase(s) && SameEmail(p.userData.email, email) &&
      (exists i :: FirstMatchAt(UserDatabase(s), email, i) && UserDatabase(s)[i] == p.userData) &&
      st.next.pending == st.next.pendingSlot)
    ensures st.next.token == s.token && st.next.userSlot == s.userSlot &&
            st.next.verifiedUsers == s.verifiedUsers && st.next.user == s.user && !st.next.loading
    ensures st.navigate == None
  {
    var found := FindByEmail(UserDatabase(s), email);
    if found.None? then
      Step(s.(loading := false), Failure(NoAccountMsg), None)
    else
      Step(Store(s, email, GenerateCode(r), now, found.value).(loading := false), Success, None)
  }

  /** The ordered checks of both verify operations. */
  datatype Check = NoRequest | Expired | WrongCode | Accepted(request: Pending)

  /** No request first, then expiry (strict: accepted when `now == expiresAt`), then the code. */
  function CheckCode(slot: Option<Pending>, code: string, now: int): (c: Check)
    ensures c.NoRequest? <==> slot.None? || slot.value.code == ""
    ensures c.Expired? <==> slot.Some? && slot.value.code != "" && now > slot.value.expiresAt
    ensures c.WrongCode? <==> slot.Some? && slot.value.code != "" && now <= slot.value.expiresAt &&
                              code != slot.value.code
    ensures c.Accepted? <==> slot.Some? && slot.value.code != "" && now <= slot.value.expiresAt &&
                             code == slot.value.code
    ensures c.Accepted? ==> c.request == slot.value
  {
    if slot.None? || slot.value.code == "" then NoRequest
    else if now > slot.value.expiresAt then Expired
    else if code != slot.value.code then WrongCode
    else Accepted(slot.value)
  }

  /** `'verified-token-' + id + '-' + Date.now()`. */
  function SessionToken(id: nat, now: nat): (t: string)
    ensures StartsWith(t, "verified-token-") && t != ""
  {
    "verified-token-" + NatToDec(id) + "-" + NatToDec(now)
  }

  /** The common failure transitions of both verify operations. */
  function Reject(s: Snapshot, check: Check, noRequestMsg: string, expiredMsg: string): (st: Step)
    requires !check.Accepted?
    ensures st.outcome.Failure? && st.navigate == None
    ensures check.Expired? ==> st.next == s.(pendingSlot := None, pending := None, loading := false) &&
                               st.outcome.error == expiredMsg
    ensures check.NoRequest? ==> st.next == s.(loading := false) && st.outcome.error == noRequestMsg
    ensures check.WrongCode? ==> st.next == s.(loading := false) && st.outcome.error == WrongCodeMsg
  {
    match check
    case NoRequest => Step(s.(loading := false), Failure(noRequestMsg), None)
    case Expired => Step(s.(pendingSlot := None, pending := None, loading := false), Failure(expiredMsg), None)
    case WrongCode => Step(s.(loading := false), Failure(WrongCodeMsg), None)
  }

  /** `verifyLoginCode`: on success the stored account (as found, password included) becomes the
      session user and the pending request is consumed. */
  function VerifyLoginCodeStep(s: Snapshot, code: string, now: nat): (st: Step)
    ensures var c := CheckCode(s.pendingSlot, code, now);
      (st.outcome.Success? <==> c.Accepted?) &&
      (c.NoRequest? ==> st.next == s.(loading := false) && st.outcome == Failure(NoLoginRequestMsg)) &&
      (c.Expired? ==> st.next == s.(pendingSlot := None, pending := None, loading := false) &&
                      st.outcome == Failure(LoginExpiredMsg)) &&
      (c.WrongCode? ==> st.next == s.(loading := false) && st.outcome == Failure(WrongCodeMsg))
    ensures st.outcome.Success? ==>
      var u := s.pendingSlot.value.userData;
      st.next == s.(token := Some(SessionToken(u.id, now)), userSlot := Saved(u), pendingSlot := None,
                    pending := None, user := Some(u), loading := false) &&
      st.navigate == Some(DashboardPath(u.role))
    ensures st.next.verifiedUsers == s.verifiedUsers && !st.next.loading
  {
    var c := CheckCode(s.pendingSlot, code, now);
    if !c.Accepted? then Reject(s, c, NoLoginRequestMsg, LoginExpiredMsg)
    else
      var u := c.request.userData;
      Step(s.(token := Some(SessionToken(u.id, now)), userSlot := Saved(u), pendingSlot := None,
              pending := None, user := Some(u), loading := false),
           Success, Some(DashboardPath(u.role)))
  }

  /** `{id: Date.now(), ...userData, emailVerified: false, createdAt}`. */
  function NewAccount(p: Profile, now: nat, createdAt: string): Account {
    Account(now, p.email, p.role, p.name, false, p.password, Some(createdAt))
  }

  /** `sendRegistrationCode`: refuses an e-mail already known (ignoring case). */
  function SendRegistrationCodeStep(s: Snapshot, profile: Profile, r: real, now: nat, createdAt: string): (st: Step)
    requires 0.0 <= r < 1.0
    ensures st.outcome.Failure? <==> exists u :: u in UserDatabase(s) && SameEmail(u.email, profile.email)
    ensures st.outcome.Failure? ==> st.outcome.error == AccountExistsMsg && st.next == s.(loading := false)
    ensures st.outcome.Success? ==> (st.next.pendingSlot.Some? &&
      var p := st.next.pendingSlot.value;
      p.email == profile.email && p.expiresAt == now + CodeLifetimeMs &&
      |p.code| == 6 && AllDigits(p.code) &&
      p.timestamp == now && p.code == GenerateCode(r) &&
      p.userData == Account(now, profile.email, profile.role, profile.name, false, profile.password, Some(createdAt)) &&
      st.next.pending == st.next.pendingSlot)
    ensures st.next.token == s.token && st.next.userSlot == s.userSlot &&
            st.next.verifiedUsers == s.verifiedUsers && st.next.user == s.user && !st.next.loading
    ensures st.navigate == None
  {
    if FindByEmail(UserDatabase(s), profile.email).Some? then
      Step(s.(loading := false), Failure(AccountExistsMsg), None)
    else
      var account := NewAccount(profile, now, createdAt);
      Step(Store(s, profile.email, GenerateCode(r), now, account).(loading := false), Success, None)
  }

  /** `delete sessionUser.password`. */
  function WithoutPassword(u: Account): (v: Account)
    ensures v.password.None? && v == u.(password := None)
  {
    u.(password := None)
  }

  /** `verifyRegistrationCode`: on success the account is appended, verified, to `verifiedUsers`
      and its copy without the password becomes the session user. */
  function VerifyRegistrationCodeStep(s: Snapshot, code: string, now: nat): (st: Step)
    ensures var c := CheckCode(s.pendingSlot, code, now);
      (st.outcome.Success? <==> c.Accepted?) &&
      (c.NoRequest? ==> st.next == s.(loading := false) && st.outcome == Failure(NoRegistrationRequestMsg)) &&
      (c.Expired? ==> st.next == s.(pendingSlot := None, pending := None, loading := false) &&
                      st.outcome == Failure(RegistrationExpiredMsg)) &&
      (c.WrongCode? ==> st.next == s.(loading := false) && st.outcome == Failure(WrongCodeMsg))
    ensures st.outcome.Success? ==>
      var u := s.pendingSlot.value.userData.(emailVerified := true);
      st.next == s.(token := Some(SessionToken(u.id, now)), userSlot := Saved(WithoutPassword(u)),
                    pendingSlot := None, pending := None, verifiedUsers := s.verifiedUsers + [u],
                    user := Some(WithoutPassword(u)), loading := false) &&
      st.navigate == Some(DashboardPath(u.role))
    ensures st.outcome.Failure? ==> st.next.verifiedUsers == s.verifiedUsers
    ensures !st.next.loading
  {
    var c := CheckCode(s.pendingSlot, code, now);
    if !c.Accepted? then Reject(s, c, NoRegistrationRequestMsg, RegistrationExpiredMsg)
    else
      var u := c.request.userData.(emailVerified := true);
      var session := WithoutPassword(u);
      Step(s.(token := Some(SessionToken(u.id, now)), userSlot := Saved(session), pendingSlot := None,
              pending := None, verifiedUsers := s.verifiedUsers + [u], user := Some(session),
              loading := false),
           Success, Some(DashboardPath(u.role)))
  }

  /** `resendCode`: a fresh code and a fresh 15 minutes for the same e-mail and account.
      It does not touch `loading`. */
  function ResendCodeStep(s: Snapshot, r: real, now: int): (st: Step)
    requires 0.0 <= r < 1.0
    ensures st.outcome.Failure? <==> s.pendingSlot.None? || s.pendingSlot.value.email == ""
    ensures st.outcome.Failure? ==> st.next == s && st.outcome.error == NoResendMsg
    ensures st.outcome.Success? ==> (st.next.pendingSlot.Some? &&
      var old_ := s.pendingSlot.value;
      var p := st.next.pendingSlot.value;
      p.email == old_.email && p.userData == old_.userData &&
      p.timestamp == now && p.expiresAt == now + CodeLifetimeMs && |p.code| == 6 && AllDigits(p.code) &&
      st.next == s.(pendingSlot := st.next.pendingSlot, pending := st.next.pendingSlot))
    ensures st.navigate == None
  {
    if s.pendingSlot.None? || s.pendingSlot.value.email == "" then
      Step(s, Failure(NoResendMsg), None)
    else
      var p := s.pendingSlot.value.(code := GenerateCode(r), timestamp := now, expiresAt := now + CodeLifetimeMs);
      Step(s.(pendingSlot := Some(p), pending := Some(p)), Success, None)
  }

  /** `logout`: forgets the session and any pending request; registered users stay. */
  function LoggedOut(s: Snapshot): (t: Snapshot)
    ensures t.token.None? && t.userSlot.NoUser? && t.pendingSlot.None? && t.user.None? && t.pending.None?
    ensures t.verifiedUsers == s.verifiedUsers && t.loading == s.loading
  {
    s.(token := None, userSlot := NoUser, pendingSlot := None, user := None, pending := None)
  }

  /** `clearAllData`: `logout` that also forgets every registered user. */
  function Cleared(s: Snapshot): (t: Snapshot)
    ensures t == LoggedOut(s).(verifiedUsers := [])
  {
    s.(token := None, userSlot := NoUser, pendingSlot := None, verifiedUsers := [], user := None, pending := None)
  }

  /** The start-up effect, run once when the provider mounts (no user yet): a session survives
      only when both slots are truthy, the user slot parses and its account is verified; a present
      but unusable session is wiped. */
  function Restored(s: Snapshot): (t: Snapshot)
    requires s.user.None?
    ensures !t.loading
    ensures t.user.Some? <==> Truthy(s.token) && s.userSlot.Saved? && s.userSlot.account.emailVerified
    ensures t.user.Some? ==> t.user == Some(s.userSlot.account) && t == s.(user := t.user, loading := false)
    ensures Truthy(s.token) && !s.userSlot.NoUser? && t.user.None? ==>
              t == s.(token := None, userSlot := NoUser, loading := false)
    ensures !(Truthy(s.token) && !s.userSlot.NoUser?) ==> t == s.(loading := false)
  {
    if Truthy(s.token) && !s.userSlot.NoUser? then
      if s.userSlot.Saved? && s.userSlot.account.emailVerified then
        s.(user := Some(s.userSlot.account), loading := false)
      else
        s.(token := None, userSlot := NoUser, loading := false)
    else
      s.(loading := false)
  }

  // ---------------------------------------------------------------------------------------------
  // Properties of runs of several operations

  /** A successful verification consumes the request: replaying any code then finds none. */
  lemma LoginCodeIsSingleUse(s: Snapshot, code: string, again: string, now: nat, later: nat)
    requires VerifyLoginCodeStep(s, code, now).outcome.Success?
    ensures VerifyLoginCodeStep(VerifyLoginCodeStep(s, code, now).next, again, later).outcome ==
            Failure(NoLoginRequestMsg)
    ensures VerifyRegistrationCodeStep(VerifyLoginCodeStep(s, code, now).next, again, later).outcome ==
            Failure(NoRegistrationRequestMsg)
  {
  }

  lemma RegistrationCodeIsSingleUse(s: Snapshot, code: string, again: string, now: nat, later: nat)
    requires VerifyRegistrationCodeStep(s, code, now).outcome.Success?
    ensures VerifyRegistrationCodeStep(VerifyRegistrationCodeStep(s, code, now).next, again, later).outcome ==
            Failure(NoRegistrationRequestMsg)
  {
  }

  /** Expiry is checked before the code: even the right code fails once the time is past, and the
      request is then gone for good. */
  lemma ExpiryBeforeMismatch(s: Snapshot, now: nat, later: nat, guess: string)
    requires s.pendingSlot.Some? && s.pendingSlot.value.code != "" && now > s.pendingSlot.value.expiresAt
    ensures VerifyLoginCodeStep(s, s.pendingSlot.value.code, now).outcome == Failure(LoginExpiredMsg)
    ensures VerifyLoginCodeStep(VerifyLoginCodeStep(s, guess, now).next, s.pendingSlot.value.code, later).outcome ==
            Failure(NoLoginRequestMsg)
  {
  }

  /** A code issued at `now` is still accepted at exactly `now + 900000` and refused one
      millisecond later. */
  lemma ExpiryIsStrict(s: Snapshot, email: string, r: real, now: nat)
    requires 0.0 <= r < 1.0
    requires SendLoginCodeStep(s, email, r, now).outcome.Success?
    ensures var t := SendLoginCodeStep(s, email, r, now).next;
            VerifyLoginCodeStep(t, t.pendingSlot.value.code, now + CodeLifetimeMs).outcome.Success? &&
            VerifyLoginCodeStep(t, t.pendingSlot.value.code, now + CodeLifetimeMs + 1).outcome ==
              Failure(LoginExpiredMsg)
  {
  }

  /** Wrong guesses leave the request as it was, so any number of them may precede the right one. */
  lemma {:induction false} WrongGuessesKeepRequest(s: Snapshot, guesses: seq<string>, now: nat)
    requires s.pendingSlot.Some? && s.pendingSlot.value.code != "" && now <= s.pendingSlot.value.expiresAt
    requires forall i :: 0 <= i < |guesses| ==> guesses[i] != s.pendingSlot.value.code
    ensures AfterGuesses(s, guesses, now).pendingSlot == s.pendingSlot
    ensures VerifyLoginCodeStep(AfterGuesses(s, guesses, now), s.pendingSlot.value.code, now).outcome.Success?
    decreases |guesses|
  {
    if guesses != [] {
      var t := VerifyLoginCodeStep(s, guesses[0], now).next;
      assert t.pendingSlot == s.pendingSlot;
      WrongGuessesKeepRequest(t, guesses[1..], now);
    }
  }

  /** The state after trying each guess in turn with `verifyLoginCode`. */
  function AfterGuesses(s: Snapshot, guesses: seq<string>, now: nat): Snapshot
    decreases |guesses|
  {
    if guesses == [] then s else AfterGuesses(VerifyLoginCodeStep(s, guesses[0], now).next, guesses[1..], now)
  }

  /** A resent code supersedes the old one and restarts the 15 minutes. */
  lemma ResendSupersedes(s: Snapshot, r: real, now: nat)
    requires 0.0 <= r < 1.0
    requires ResendCodeStep(s, r, now).outcome.Success? && s.pendingSlot.value.code != ""
    ensures var t := ResendCodeStep(s, r, now).next;
            var fresh_ := t.pendingSlot.value.code;
            (fresh_ != s.pendingSlot.value.code ==>
               VerifyLoginCodeStep(t, s.pendingSlot.value.code, now).outcome == Failure(WrongCodeMsg)) &&
            VerifyLoginCodeStep(t, fresh_, now + CodeLifetimeMs).outcome.Success? &&
            VerifyLoginCodeStep(t, fresh_, now + CodeLifetimeMs).next.user == Some(s.pendingSlot.value.userData)
  {
  }

  /** After a completed registration the same e-mail, in any letter case, can sign in with a code,
      and the account it signs in with is the verified one that was registered. */
  lemma RegisteredUserCanSignIn(s: Snapshot, profile: Profile, r1: real, now: nat, createdAt: string,
                                 t: Snapshot, code: string, later: nat, v: Snapshot, email: string, r2: real)
    requires 0.0 <= r1 < 1.0 && 0.0 <= r2 < 1.0
    requires SendRegistrationCodeStep(s, profile, r1, now, createdAt) == Step(t, Success, None)
    requires VerifyRegistrationCodeStep(t, code, later).outcome.Success?
    requires v == VerifyRegistrationCodeStep(t, code, later).next
    requires SameEmail(email, profile.email)
    ensures SendLoginCodeStep(v, email, r2, later).outcome.Success?
    ensures SendLoginCodeStep(v, email, r2, later).next.pendingSlot ==
            Some(Pending(email, GenerateCode(r2), later, later + CodeLifetimeMs,
                         NewAccount(profile, now, createdAt).(emailVerified := true)))
  {
    var u := NewAccount(profile, now, createdAt).(emailVerified := true);
    assert t.pendingSlot.value.userData == NewAccount(profile, now, createdAt);
    assert v.verifiedUsers == s.verifiedUsers + [u];
    FirstNewEmailSignsIn(DefaultUsers, s.verifiedUsers, u, profile.email, email);
    assert SendLoginCodeStep(v, email, r2, later) ==
           Step(Store(v, email, GenerateCode(r2), later, u).(loading := false), Success, None);
  }

  /** Appending an account whose e-mail no earlier account has makes the search find it. */
  lemma FirstNewEmailSignsIn(builtIn: seq<Account>, registered: seq<Account>, u: Account,
                              newEmail: string, email: string)
    requires FindByEmail(builtIn + registered, newEmail).None?
    requires u.email == newEmail && SameEmail(email, newEmail)
    ensures FindByEmail(builtIn + (registered + [u]), email) == Some(u)
  {
    assert builtIn + (registered + [u]) == (builtIn + registered) + [u];
    assert FindByEmail(builtIn + registered, email).None?;
    FindByEmailAppend(builtIn + registered, [u], email);
  }

  /** Once registered, the same e-mail cannot be registered again (in any letter case). */
  lemma RegistrationIsOncePerEmail(s: Snapshot, profile: Profile, r1: real, now: nat, createdAt: string,
                                   t: Snapshot, code: string, later: nat, v: Snapshot,
                                   again: Profile, r2: real, now2: nat, createdAt2: string)
    requires 0.0 <= r1 < 1.0 && 0.0 <= r2 < 1.0
    requires SendRegistrationCodeStep(s, profile, r1, now, createdAt) == Step(t, Success, None)
    requires VerifyRegistrationCodeStep(t, code, later).outcome.Success?
    requires v == VerifyRegistrationCodeStep(t, code, later).next
    requires SameEmail(again.email, profile.email)
    ensures SendRegistrationCodeStep(v, again, r2, now2, createdAt2).outcome == Failure(AccountExistsMsg)
  {
    var u := NewAccount(profile, now, createdAt).(emailVerified := true);
    assert t.pendingSlot.value.userData == NewAccount(profile, now, createdAt);
    assert v.verifiedUsers == s.verifiedUsers + [u];
    assert u in UserDatabase(v) && SameEmail(u.email, again.email);
    assert FindByEmail(UserDatabase(v), again.email).Some?;
  }

  /** The login path stores the account exactly as found; for a registered user that includes the
      password, which only the registration path strips from the session copy. */
  lemma LoginKeepsRegisteredPassword(s: Snapshot, email: string, r: real, now: nat, later: nat)
    requires 0.0 <= r < 1.0
    requires SendLoginCodeStep(s, email, r, now).outcome.Success?
    requires later <= now + CodeLifetimeMs
    ensures var t := SendLoginCodeStep(s, email, r, now).next;
            var v := VerifyLoginCodeStep(t, t.pendingSlot.value.code, later).next;
            v.userSlot == Saved(t.pendingSlot.value.userData) &&
            v.user.value.password == t.pendingSlot.value.userData.password
  {
  }

  /** A session restored after `logout` (or after wiping all data) has no user. */
  lemma LogoutThenRestore(s: Snapshot)
    ensures Restored(LoggedOut(s)).user.None? && Restored(Cleared(s)).user.None?
  {
  }

  /** A page reload keeps the storage slots and starts the React state afresh. */
  function Reloaded(s: Snapshot): Snapshot {
    s.(user := None, pending := None, loading := true)
  }

  /** A session written by a completed registration survives a reload. */
  lemma RegistrationSessionIsRestored(s: Snapshot, code: string, now: nat)
    requires VerifyRegistrationCodeStep(s, code, now).outcome.Success?
    ensures var t := VerifyRegistrationCodeStep(s, code, now).next;
            Restored(Reloaded(t)).user == t.user
  {
    var t := VerifyRegistrationCodeStep(s, code, now).next;
    assert t.token == Some(SessionToken(s.pendingSlot.value.userData.id, now));
    assert Truthy(t.token);
  }

  /** The provider: the storage slots and the React state, updated in place by each operation. */
  class AuthProvider {
    var token: Option<string>
    var userSlot: UserSlot
    var pendingSlot: Option<Pending>
    var verifiedUsers: seq<Account>
    var user: Option<Account>
    var pending: Option<Pending>
    var loading: bool

    function Snap(): Snapshot
      reads this
    {
      Snapshot(token, userSlot, pendingSlot, verifiedUsers, user, pending, loading)
    }

    /** Mounting the provider over whatever the browser already stores, then running the
        start-up effect. */
    constructor (storedToken: Option<string>, storedUser: UserSlot, storedPending: Option<Pending>,
                 storedUsers: seq<Account>)
      ensures Snap() == Restored(Snapshot(storedToken, storedUser, storedPending, storedUsers, None, None, true))
    {
      token, userSlot, pendingSlot, verifiedUsers := storedToken, storedUser, storedPending, storedUsers;
      user, pending, loading := None, None, true;
      new;
      if Truthy(token) && !userSlot.NoUser? {
        if userSlot.Saved? && userSlot.account.emailVerified {
          user := Some(userSlot.account);
        } else {
          token := None;
          userSlot := NoUser;
        }
      }
      loading := false;
    }

    method StoreVerificationCode(email: string, code: string, now: int, userData: Account)
      modifies this
      ensures Snap() == Store(old(Snap()), email, code, now, userData)
    {
      var p := Pending(email, code, now, now + CodeLifetimeMs, userData);
      pendingSlot := Some(p);
      pending := Some(p);
    }

    method SendLoginCode(email: string, r: real, now: int) returns (outcome: Outcome)
      requires 0.0 <= r < 1.0
      modifies this
      ensures var st := SendLoginCodeStep(old(Snap()), email, r, now);
              Snap() == st.next && outcome == st.outcome
    {
      loading := true;
      var found := FindByEmail(DefaultUsers + verifiedUsers, email);
      if found.None? {
        outcome := Failure(NoAccountMsg);
      } else {
        var code := GenerateCode(r);
        StoreVerificationCode(email, code, now, found.value);
        outcome := Success;
      }
      loading := false;
    }

    method VerifyLoginCode(code: string, now: nat) returns (outcome: Outcome, navigate: Option<string>)
      modifies this
      ensures var st := VerifyLoginCodeStep(old(Snap()), code, now);
              Snap() == st.next && outcome == st.outcome && navigate == st.navigate
    {
      loading := true;
      navigate := None;
      if pendingSlot.None? || pendingSlot.value.code == "" {
        outcome := Failure(NoLoginRequestMsg);
      } else if now > pendingSlot.value.expiresAt {
        pendingSlot := None;
        pending := None;
        outcome := Failure(LoginExpiredMsg);
      } else if code != pendingSlot.value.code {
        outcome := Failure(WrongCodeMsg);
      } else {
        var u := pendingSlot.value.userData;
        token := Some(SessionToken(u.id, now));
        userSlot := Saved(u);
        pendingSlot := None;
        pending := None;
        user := Some(u);
        outcome := Success;
        navigate := Some(DashboardPath(u.role));
      }
      loading := false;
    }

    method SendRegistrationCode(profile: Profile, r: real, now: nat, createdAt: string) returns (outcome: Outcome)
      requires 0.0 <= r < 1.0
      modifies this
      ensures var st := SendRegistrationCodeStep(old(Snap()), profile, r, now, createdAt);
              Snap() == st.next && outcome == st.outcome
    {
      loading := true;
      var existing := FindByEmail(DefaultUsers + verifiedUsers, profile.email);
      if existing.Some? {
        outcome := Failure(AccountExistsMsg);
      } else {
        var code := GenerateCode(r);
        StoreVerificationCode(profile.email, code, now, NewAccount(profile, now, createdAt));
        outcome := Success;
      }
      loading := false;
    }

    method VerifyRegistrationCode(code: string, now: nat) returns (outcome: Outcome, navigate: Option<string>)
      modifies this
      ensures var st := VerifyRegistrationCodeStep(old(Snap()), code, now);
              Snap() == st.next && outcome == st.outcome && navigate == st.navigate
    {
      loading := true;
      navigate := None;
      if pendingSlot.None? || pendingSlot.value.code == "" {
        outcome := Failure(NoRegistrationRequestMsg);
      } else if now > pendingSlot.value.expiresAt {
        pendingSlot := None;
        pending := None;
        outcome := Failure(RegistrationExpiredMsg);
      } else if code != pendingSlot.value.code {
        outcome := Failure(WrongCodeMsg);
      } else {
        var u := pendingSlot.value.userData.(emailVerified := true);
        verifiedUsers := verifiedUsers + [u];
        var session := WithoutPassword(u);
        token := Some(SessionToken(u.id, now));
        userSlot := Saved(session);
        pendingSlot := None;
        pending := None;
        user := Some(session);
        outcome := Success;
        navigate := Some(DashboardPath(u.role));
      }
      loading := false;
    }

    method ResendCode(r: real, now: int) returns (outcome: Outcome)
      requires 0.0 <= r < 1.0
      modifies this
      ensures var st := ResendCodeStep(old(Snap()), r, now);
              Snap() == st.next && outcome == st.outcome
    {
      if pendingSlot.None? || pendingSlot.value.email == "" {
        outcome := Failure(NoResendMsg);
      } else {
        var p := pendingSlot.value.(code := GenerateCode(r), timestamp := now, expiresAt := now + CodeLifetimeMs);
        pendingSlot := Some(p);
        pending := Some(p);
        outcome := Success;
      }
    }

    method Logout() returns (navigate: string)
      modifies this
      ensures Snap() == LoggedOut(old(Snap())) && navigate == "/"
    {
      token := None;
      userSlot := NoUser;
      pendingSlot := None;
      user := None;
      pending := None;
      navigate := "/";
    }

    method ClearAllData()
      modifies this
      ensures Snap() == Cleared(old(Snap()))
    {
      verifiedUsers := [];
      pendingSlot := None;
      token := None;
      userSlot := NoUser;
      user := None;
      pending := None;
    }

    /** `isAuthenticated: !!user`. */
    function IsAuthenticated(): (b: bool)
      reads this
      ensures b <==> user.Some?
    {
      user.Some?
    }
  }
}
