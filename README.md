# EduManage school management — a verified model of its core logic

EduManage is a school-management application for administrators, teachers, students and parents. It has two
React front ends and two Flask back ends:

- the first front end (`src/`) signs users in with six-digit e-mail verification codes kept in browser storage
  and shows a sortable, filterable data table;
- the second front end (`edumanage/src/`) keeps its session in a reducer and a stored token, guards its routes
  by role, and falls back to mock users and a mock student list when there is no API;
- the application back end (`app/`) holds the role checks, input validators and helpers, the fee, message,
  grade and report-card models, and the controllers for attendance, notifications, classes and administration;
- the single-file back end (`backend/app.py`) holds registration and login guards, QR attendance, fee creation
  and payment, and letter grades.

This project models that logic in Dafny, one module per source file, and proves what the code promises of it.
The shared module `Wrappers` defines `Option` and `Result`. The shared module `Text` defines ASCII case mapping,
decimal numerals, substring search, splitting and trimming.

The model uses these conventions:

- Browser storage, database tables and the mock arrays are fields of type `map`, `seq` or `set` of classes whose
  methods update them in place. Each method's new state is tied to a specification function, and the properties
  are proved about that function.
- Database rows and request bodies are datatype values. Every error answer of a route is a `Result` error
  carrying the source's status code and message.
- The clock, random draws and the user records behind a database lookup are parameters.
- Money is an integer number of cents. Percentages and grades are exact `real`s.

## Model

| member | source | states |
|---|---|---|
| VerificationSession.GenerateCode | src/contexts/AuthContext.jsx:62-64 | the code is six decimal digits with no leading zero, its value is in [100000, 999999] |
| VerificationSession.FirstWithEmail | src/contexts/AuthContext.jsx:95 | the position found is the first user whose e-mail equals the given one ignoring case, or the length when none does |
| VerificationSession.FindByEmail | src/contexts/AuthContext.jsx:95 | a found user is in the list with a matching e-mail; nothing is found exactly when no user matches |
| VerificationSession.FirstWithEmailAppend | src/contexts/AuthContext.jsx:86-87 | a search that fails among the built-in users continues at the same e-mail among the registered ones |
| VerificationSession.FindByEmailAppend | src/contexts/AuthContext.jsx:86-87 | when no built-in user matches, searching the whole database gives the result of searching the registered users |
| VerificationSession.Store | src/contexts/AuthContext.jsx:66-76 | the single pending slot and the pending state both hold the new request, expiring 900000 ms after it was made; nothing else changes |
| VerificationSession.DashboardPath | src/contexts/AuthContext.jsx:160-175 | the four roles navigate to "/" followed by the role, every other role to "/" |
| VerificationSession.SendLoginCodeStep | src/contexts/AuthContext.jsx:90-122 | a code is issued iff some user's e-mail matches ignoring case; otherwise the "no account" error and nothing stored; on success the pending request holds the e-mail, a six-digit code, the 15-minute expiry and the first account in the list whose e-mail matches; the session slots are untouched and nothing navigates |
| VerificationSession.CheckCode | src/contexts/AuthContext.jsx:128-142 | the four outcomes partition the inputs in the source's order: no request, expired (now strictly after expiry), wrong code, accepted |
| VerificationSession.SessionToken | src/contexts/AuthContext.jsx:146 | the token starts with "verified-token-" |
| VerificationSession.Reject | src/contexts/AuthContext.jsx:130-142 | an expired request is removed, a missing request or a wrong code leaves the state as it was; each reports its own message and nothing navigates |
| VerificationSession.VerifyLoginCodeStep | src/contexts/AuthContext.jsx:124-188 | success iff the check accepts; then token and user slots hold the pending account, the pending slot is gone and the role's dashboard is the navigation target; failures follow Reject; registered users never change |
| VerificationSession.SendRegistrationCodeStep | src/contexts/AuthContext.jsx:190-230 | refused iff some user already has the e-mail ignoring case, with the "account exists" error and nothing stored; otherwise the pending request holds the e-mail, the drawn code, the current time and the 15-minute expiry, and its account has the current time as id, the form's e-mail, role, name and password, emailVerified false and the creation time |
| VerificationSession.WithoutPassword | src/contexts/AuthContext.jsx:262-263 | the copy equals the account except that it has no password |
| VerificationSession.VerifyRegistrationCodeStep | src/contexts/AuthContext.jsx:232-305 | success iff the check accepts; then the verified account is appended to the registered users and the session holds it without its password; a failure leaves the registered users unchanged |
| VerificationSession.ResendCodeStep | src/contexts/AuthContext.jsx:307-342 | fails with no pending e-mail and changes nothing; otherwise a new code and a new 15-minute window for the same e-mail and account |
| VerificationSession.LoggedOut | src/contexts/AuthContext.jsx:344-355 | token, user and pending slots and the user and pending state are all cleared; registered users are kept |
| VerificationSession.Cleared | src/contexts/AuthContext.jsx:357-368 | as logout, and the registered users are forgotten too |
| VerificationSession.Restored | src/contexts/AuthContext.jsx:40-60 | a user is restored iff both slots are present and the stored account is verified; a present but unreadable or unverified user clears both slots; loading ends in every case |
| VerificationSession.LoginCodeIsSingleUse | src/contexts/AuthContext.jsx:148-151 | after a successful login verification, any further verification fails with "no verification in progress" |
| VerificationSession.RegistrationCodeIsSingleUse | src/contexts/AuthContext.jsx:265-268 | after a successful registration verification, verifying again fails with "no verification in progress" |
| VerificationSession.ExpiryBeforeMismatch | src/contexts/AuthContext.jsx:134-142 | after the expiry even the right code fails as expired, and a later retry finds no request at all |
| VerificationSession.ExpiryIsStrict | src/contexts/AuthContext.jsx:134-138 | a freshly issued code is accepted at exactly its expiry instant and refused one millisecond later |
| VerificationSession.WrongGuessesKeepRequest | src/contexts/AuthContext.jsx:140-142 | any number of wrong guesses before the expiry leave the request as it was, and the right code then succeeds |
| VerificationSession.ResendSupersedes | src/contexts/AuthContext.jsx:315-324 | after a resend a different old code is refused, and the new code is accepted until 900000 ms after the resend |
| VerificationSession.RegisteredUserCanSignIn | src/contexts/AuthContext.jsx:253-258 | once registration is verified, the same e-mail in any letter case can request a login code, which carries the registered account |
| VerificationSession.FirstNewEmailSignsIn | src/contexts/AuthContext.jsx:86-95 | an account appended with an e-mail no earlier account has is the one the case-insensitive search finds |
| VerificationSession.RegistrationIsOncePerEmail | src/contexts/AuthContext.jsx:195-200 | after a verified registration, registering the same e-mail again in any letter case is refused |
| VerificationSession.LoginKeepsRegisteredPassword | src/contexts/AuthContext.jsx:145-149 | the login path writes the account exactly as found into the user slot, password included |
| VerificationSession.LogoutThenRestore | src/contexts/AuthContext.jsx:344-368 | after logout or clearing all data, start-up restores no user |
| VerificationSession.RegistrationSessionIsRestored | src/contexts/AuthContext.jsx:262-266 | the session written by a verified registration survives a page reload |
| VerificationSession.AuthProvider.constructor | src/contexts/AuthContext.jsx:34-60 | the provider starts in the state that the start-up effect gives for the stored slots |
| VerificationSession.AuthProvider.StoreVerificationCode | src/contexts/AuthContext.jsx:66-76 | the new state is Store of the old one |
| VerificationSession.AuthProvider.SendLoginCode | src/contexts/AuthContext.jsx:90-122 | the new state and the outcome are those of SendLoginCodeStep |
| VerificationSession.AuthProvider.VerifyLoginCode | src/contexts/AuthContext.jsx:124-188 | the new state, outcome and navigation are those of VerifyLoginCodeStep |
| VerificationSession.AuthProvider.SendRegistrationCode | src/contexts/AuthContext.jsx:190-230 | the new state and the outcome are those of SendRegistrationCodeStep |
| VerificationSession.AuthProvider.VerifyRegistrationCode | src/contexts/AuthContext.jsx:232-305 | the new state, outcome and navigation are those of VerifyRegistrationCodeStep, with the account appended to the registered users in place |
| VerificationSession.AuthProvider.ResendCode | src/contexts/AuthContext.jsx:307-342 | the new state and the outcome are those of ResendCodeStep |
| VerificationSession.AuthProvider.Logout | src/contexts/AuthContext.jsx:344-355 | the new state is LoggedOut of the old one and the navigation goes to "/" |
| VerificationSession.AuthProvider.ClearAllData | src/contexts/AuthContext.jsx:357-368 | the new state is Cleared of the old one |
| VerificationSession.AuthProvider.IsAuthenticated | src/contexts/AuthContext.jsx:373 | authenticated iff a user is set |
| EdumanageAuth.InitialState | edumanage/src/contexts/AuthContext.jsx:7-13 | the start state is not authenticated, loading, without user or error, holding the stored token |
| EdumanageAuth.Reduce | edumanage/src/contexts/AuthContext.jsx:15-63 | AUTH_START only sets loading and clears the error; AUTH_SUCCESS sets user and token and authenticates; AUTH_FAILURE and LOGOUT clear user and token, and only a failure records an error; SET_LOADING and UPDATE_USER change one field; any other action changes nothing |
| EdumanageAuth.ReduceAllConsistent | edumanage/src/contexts/AuthContext.jsx:15-63 | whatever actions are dispatched, an authenticated state always has a user and a token |
| EdumanageAuth.FailureIsLogoutWithError | edumanage/src/contexts/AuthContext.jsx:32-49 | a failure gives the logout state with the error recorded |
| EdumanageAuth.CheckTokenExpiry | edumanage/src/contexts/AuthContext.jsx:93-106 | no decision without a token; a forced logout iff the token cannot be decoded or exp*1000 < now; the session is kept iff exp*1000 >= now |
| EdumanageAuth.MintedTokenLifetime | edumanage/src/services/authService.js:55-60 | a token minted by the mock service survives every check within 86399001 ms and is logged out after 86400000 ms |
| EdumanageAuth.AuthProvider.constructor | edumanage/src/contexts/AuthContext.jsx:7-13 | the provider starts from the initial state over the stored token |
| EdumanageAuth.AuthProvider.InitAuth | edumanage/src/contexts/AuthContext.jsx:70-86 | without a token only loading ends; with one, a found user signs in, otherwise the token is removed and "Session expired" recorded |
| EdumanageAuth.AuthProvider.CheckExpiry | edumanage/src/contexts/AuthContext.jsx:93-106 | a forced logout removes the token and dispatches LOGOUT; otherwise nothing changes |
| EdumanageAuth.AuthProvider.Login | edumanage/src/contexts/AuthContext.jsx:112-133 | the result is the service's; success stores the token and dispatches AUTH_START then AUTH_SUCCESS; failure keeps the token and dispatches AUTH_START then AUTH_FAILURE |
| EdumanageAuth.AuthProvider.Register | edumanage/src/contexts/AuthContext.jsx:135-156 | succeeds iff no stored user has the form's e-mail, and otherwise fails with "Email already exists" and leaves the list unchanged; on success the service has appended the user with the next id, and the session is that user without password and a token minted for them |
| EdumanageAuth.AuthProvider.Logout | edumanage/src/contexts/AuthContext.jsx:158-162 | the token is removed and LOGOUT dispatched |
| EdumanageAuth.AuthProvider.UpdateUser | edumanage/src/contexts/AuthContext.jsx:164-166 | only the reducer's user changes, through UPDATE_USER |
| EdumanageAuth.LoginSessionIsRestored | edumanage/src/services/authService.js:130-141 | the token a successful login mints leads the current-user lookup back to the user who signed in |
| MockAuthService.WithoutPassword | edumanage/src/services/authService.js:83 | the handed-out user keeps id, e-mail, name and role and has no password field |
| MockAuthService.MintToken | edumanage/src/services/authService.js:53-63 | the payload carries the user's id, e-mail and role, and exp is floor(now/1000) + 86400 seconds |
| MockAuthService.Decode | edumanage/src/services/authService.js:136 | a payload is read iff a token is stored and its middle segment decodes, and it is that token's payload |
| MockAuthService.FindByCredentials | edumanage/src/services/authService.js:75-77 | the position is the first user whose e-mail and password both match exactly, or the length when none does |
| MockAuthService.FindIndexById | edumanage/src/services/authService.js:161 | -1 iff no user has the id; otherwise the first position holding it |
| MockAuthService.Merge | edumanage/src/services/authService.js:167 | the id is kept and every field the update carries replaces the stored one; absent fields are kept |
| MockAuthService.MockDirectory.constructor | edumanage/src/services/authService.js:4-50 | the directory starts as the four mock users |
| MockAuthService.MockDirectory.Login | edumanage/src/services/authService.js:75-89 | fails with "Invalid email or password" iff no user matches both e-mail and password exactly; otherwise returns the first user in the list matching both, without password, and a token minted for that user |
| MockAuthService.MockDirectory.Register | edumanage/src/services/authService.js:101-120 | an e-mail already present is refused and nothing changes; otherwise the user is appended with id length + 1 and signed in |
| MockAuthService.MockDirectory.GetCurrentUser | edumanage/src/services/authService.js:130-147 | "No token found" without a token; "Invalid token" when it does not decode or no user has its id; otherwise the user with the payload's id, without password |
| MockAuthService.MockDirectory.UpdateProfile | edumanage/src/services/authService.js:159-170 | a token that does not decode throws, an unknown id is "User not found"; otherwise only that user's entry is merged with the update |
| MockAuthService.MockDirectory.ChangePassword | edumanage/src/services/authService.js:182-196 | a wrong current password is refused and nothing changes; otherwise only that user's password is replaced |
| MockAuthService.MintedTokenFindsItsUser | edumanage/src/services/authService.js:137 | while ids follow positions, the lookup of a minted token's id finds the entry it was minted for |
| MockAuthService.EntryCanLogIn | edumanage/src/services/authService.js:75-81 | every directory entry signs in with its own e-mail and password |
| RouteGuard.ProtectedRoute | edumanage/src/App.jsx:48-64 | loading shows the spinner; an unauthenticated caller goes to /login; with a role list a role outside it goes to /unauthorized; otherwise the children are shown |
| RouteGuard.DashboardRedirect | edumanage/src/App.jsx:67-82 | each of the four roles goes to its own dashboard, anything else to /login |
| RouteGuard.LookupPage | edumanage/src/App.jsx:140-303 | a page is found iff some route has the given key, and then it is that route's role and page |
| RouteGuard.StripTrailingSlashes | edumanage/src/App.jsx:111-135 | the result is a prefix of the location that does not end in a slash, and only slashes were dropped |
| RouteGuard.MatchesRoute | edumanage/src/App.jsx:111-135 | a location has a lower-case route's key iff, up to trailing slashes, it spells the route in any case, as React Router's matching without `caseSensitive` does |
| RouteGuard.RouteKeyOfRoute | edumanage/src/App.jsx:111-135 | a lower-case route path without a trailing slash is its own key |
| RouteGuard.RouteKeyIdempotent | edumanage/src/App.jsx:111-135 | taking the key of a key changes nothing |
| RouteGuard.LoadingNeverRedirects | edumanage/src/App.jsx:106-108 | while loading every path shows the spinner |
| RouteGuard.Resolve | edumanage/src/App.jsx:103-310 | the spinner shows iff the session is loading; a signed-in user whose location has the key /login, /register or / goes to their dashboard; every route is matched through the location's key, so case and trailing slashes do not matter |
| RouteGuard.ResolveUsesKey | edumanage/src/App.jsx:103-310 | a location resolves exactly as its key does |
| RouteGuard.UnauthenticatedGoesToLogin | edumanage/src/App.jsx:113-138 | without a session, a location whose key is /login or /register shows that form, and every other location goes to /login |
| RouteGuard.FormsIgnoreCaseAndSlash | edumanage/src/App.jsx:113-124 | without a session "/Login/" shows the login form and "/REGISTER" the registration form |
| RouteGuard.RolePageAccess | edumanage/src/App.jsx:142-302 | a location whose key is a role page's path shows that page to its own role and sends every other signed-in user to /unauthorized, which is always shown |
| RouteGuard.DashboardIsReachable | edumanage/src/App.jsx:127-149 | a signed-in user of one of the four roles is sent from "/" to their dashboard, and that dashboard shows a page |
| RouteGuard.DashboardShown | edumanage/src/App.jsx:140-303 | a signed-in user sees the page of a route open to their role when no earlier route shadows its path |
| RouteGuard.UnknownRoleLoops | edumanage/src/App.jsx:79-81 | a signed-in user with any other role is sent from /login back to /login |
| RoleGuard.IntToStr | app/utils/auth.py:55 | the text of an integer is non-empty, all digits for a non-negative one, and starts with '-' exactly for a negative one |
| RoleGuard.IntToStrInjective | app/utils/auth.py:55 | equal texts come from equal integers, so comparing ids as text is comparing them as numbers for integers |
| RoleGuard.RequireRole | app/utils/auth.py:15-37 | a missing user gets 404, then an inactive one 403 "Account is deactivated"; the handler runs iff the user is active and the role is allowed; otherwise 403 "Access denied" |
| RoleGuard.RequestedId | app/utils/auth.py:54 | a truthy route id is used; otherwise the body's `user_id`; without a JSON body the read fails |
| RoleGuard.RequireSameUserOrRole | app/utils/auth.py:39-67 | 404 and the inactive 403 come first; then a failing body read ends the request whatever the role; the handler runs iff the id is read, and it is truthy and textually the caller's own, or the role is allowed; otherwise 403 "Access denied" |
| RoleGuard.OwnIdAdmits | app/utils/auth.py:54-56 | an active caller requesting their own non-zero id is admitted whatever their role |
| RoleGuard.PaddedIdIsNotOwn | app/utils/auth.py:55 | the text comparison does not treat a zero-padded id as the caller's own |
| RoleGuard.RoleGuardIsStricter | app/utils/auth.py:15-67 | whoever passes the role check also passes the corrected same-user-or-role check, and the decorator as written whenever the requested id can be read |
| RoleGuard.BodilessGetAdmitsNobody | app/utils/auth.py:53-58 | as written, a GET without a JSON body on a route whose parameter is not `user_id` ends in the failed body read even for an active caller whose role is allowed and who passes the role check |
| RoleGuard.RequireSameUserOrRoleSilent | app/utils/auth.py:39-67 | the corrected guard never fails on the body; 404 and the inactive 403 first; the handler runs iff the caller is active and the id read (none without a body) is their own or the role is allowed; otherwise 403 |
| RoleGuard.SilentAgreesWithBody | app/utils/auth.py:54 | with a JSON body the corrected guard decides exactly as the decorator does |
| Validators.ValidatePassword | app/utils/validators.py:13-30 | valid iff at least 8 characters with an upper-case letter, a lower-case letter, a digit and a special character; the first broken rule in that order names the message |
| Validators.ValidatePhone | app/utils/validators.py:32-43 | a missing or empty number is valid; otherwise valid iff it holds 10 to 15 digits, whatever separators it has |
| Validators.PhoneIgnoresSeparators | app/utils/validators.py:38 | inserting non-digit characters anywhere never changes the verdict |
| Validators.ValidateGradeValue | app/utils/validators.py:53-62 | valid iff the value converts to a number between 0 and 100 inclusive, with one message for each failure |
| Validators.MissingFields | app/utils/validators.py:66-70 | a field is listed iff it is required and absent, null or whitespace-only |
| Validators.CollectMissing | app/utils/validators.py:66-70 | the loop collects exactly the missing fields, in the order asked for |
| Validators.ValidateRequiredFields | app/utils/validators.py:64-75 | valid iff no required field is missing; otherwise the message lists every missing field in order, comma-separated |
| Validators.NoneMissingIff | app/utils/validators.py:72-75 | the list of missing fields is empty exactly when every required field is present |
| Validators.MissingFieldsAppend | app/utils/validators.py:68-70 | one more required field adds itself at the end exactly when it is missing |
| Validators.ValidateEnumValue | app/utils/validators.py:77-81 | valid iff the value is allowed; the message lists the allowed values |
| Validators.ValidateIdAsWritten | app/utils/validators.py:83-94 | with Python's `$`, valid iff non-empty, matching the pattern up to one trailing newline, and 6 to 20 characters long |
| Validators.MatchesIdPatternAsWritten | app/utils/validators.py:88 | every non-empty string of upper-case letters and digits matches; a match that is not such a string is one followed by a single final newline |
| Validators.TrailingNewlineIdAccepted | app/utils/validators.py:88 | "ST24001" followed by a newline passes although the newline is not an upper-case letter or digit |
| Validators.ValidateId | app/utils/validators.py:83-107 | valid iff 6 to 20 characters, all upper-case letters and digits; empty, bad character and bad length each give their own message |
| Validators.ValidateStudentId | app/utils/validators.py:83-94 | with the corrected pattern (anchored at the very end), valid iff 6 to 20 upper-case letters and digits |
| Validators.ValidateEmployeeId | app/utils/validators.py:96-107 | with the corrected pattern (anchored at the very end), valid iff 6 to 20 upper-case letters and digits |
| Validators.IdCheckDiffersOnlyByNewline | app/utils/validators.py:88-91 | the written check accepts exactly what the intended one does, plus ids of valid length that end in one newline after valid characters |
| Helpers.AcademicYearStart | app/utils/helpers.py:106-118 | from August on the academic year starts this year, before August it started last year |
| Helpers.AcademicYear | app/utils/helpers.py:106-118 | the label splits at its dash into the start year's numeral and the next year's |
| Helpers.AcademicYearParses | app/utils/helpers.py:118 | the label splits at its dash into the start year and the year after it, each reading back as that number |
| Helpers.AcademicYearSpan | app/utils/helpers.py:111-116 | the date lies on or after August 1 of the start year and before August 1 of the next year |
| Helpers.CalculateAge | app/utils/helpers.py:120-137 | no age without a birth date; otherwise the difference of the years, one less while this year's birthday is ahead |
| Helpers.AgeCountsBirthdays | app/utils/helpers.py:131-135 | the birthday of the computed age is on or before today and the next one is after today |
| Helpers.SanitizeFilename | app/utils/helpers.py:139-149 | nothing for a missing or empty name; otherwise at most 255 characters, all letters, digits, '.', '-' or '_', being the safe characters of the name in order |
| Helpers.SanitizeIdempotent | app/utils/helpers.py:139-149 | sanitising a non-empty sanitised name changes nothing |
| Helpers.SanitizeCanVanish | app/utils/helpers.py:141-146 | a name without safe characters sanitises to "", and sanitising that gives nothing, so sanitising twice can differ from once |
| Helpers.CapPerPage | app/utils/helpers.py:51 | the page size is at most the cap and at most the request, and is one of the two |
| Helpers.PerPageHasNoLowerBound | app/utils/helpers.py:51 | a zero or negative page size passes through the cap unchanged |
| Helpers.YearCode | app/utils/helpers.py:11 | the year code is the year's last two digits: two characters from year 10 on, and its value is the year modulo 100 |
| Helpers.FirstFree | app/utils/helpers.py:20-22 | the first draw whose number is not taken, every earlier one being taken |
| Helpers.FormatId | app/utils/helpers.py:18 | the number starts with the prefix, ends with the draw, and has the year code between them |
| Helpers.FormatIdInjective | app/utils/helpers.py:18-22 | distinct four-digit draws give distinct numbers for the same prefix and year |
| Helpers.GenerateId | app/utils/helpers.py:8-42 | the retry loop yields a number iff some draw gives a free one, and then the first such, which is not taken |
| Helpers.GeneratedIdsAreValid | app/utils/helpers.py:8-42 | in a four-digit year a student number is 8 characters and passes the student-id check, an employee number 9 characters and passes the employee-id check |
| Fees.TotalAmount | app/models/fee.py:60-63 | the total plus the discount equals the amount plus the late fee |
| Fees.BalanceDue | app/models/fee.py:65-68 | the balance is never negative; it is zero iff the paid amount reaches the total, and otherwise paid plus balance is the total |
| Fees.StatusFor | app/models/fee.py:47-58 | paid iff paid >= total; partial iff short but something paid; overdue iff nothing paid and past due; pending otherwise |
| Fees.DaysOverdue | app/models/fee.py:75-80 | positive exactly when the fee is overdue, and then the days since the due date; zero otherwise |
| Fees.WithStatus | app/models/fee.py:47-58 | only the status changes, to the one the fee's own columns give |
| Fees.Pay | app/models/fee.py:82-92 | the amount is added to the paid amount, the payment details replaced, a paid date set only when there was none and something is paid, and the status recomputed; the fee's identity and amounts are unchanged |
| Fees.PaidIsNeverOverdue | app/models/fee.py:70-80 | a fee whose status is paid is not overdue and has no days overdue |
| Fees.StatusMatchesBalance | app/models/fee.py:47-68 | the recomputed status is paid exactly when the balance is zero |
| Fees.PayingBalanceSettles | app/models/fee.py:82-92 | paying exactly the balance leaves the fee paid with nothing due |
| Fees.UpdateStatusAsWritten | app/models/fee.py:35-58 | the status computation succeeds iff paid amount, late fee and discount are all set; otherwise it raises |
| Fees.FeeConstructionRaises | app/models/fee.py:35-45 | as written, constructing a fee always raises, since those columns are still unset when the constructor computes the status |
| Fees.NewFee | app/models/fee.py:35-58 | with the column defaults applied first, a new fee has nothing paid, no late fee or discount, and is overdue or pending by its due date (paid when its amount is not positive) |
| Fees.Fee.constructor | app/models/fee.py:35-45 | the corrected construction: the new row is NewFee, with the column defaults applied before the status is computed |
| Fees.Fee.UpdateStatus | app/models/fee.py:47-58 | the row becomes WithStatus of the old one |
| Fees.Fee.MakePayment | app/models/fee.py:82-92 | the row becomes Pay of the old one |
| Fees.CreateFeeCheck | app/controllers/fee_controller.py:109-123 | accepted iff no required field is missing, the student is active and the type is one of the seven; each failure has its status and message, in that order |
| Fees.PaymentCheck | app/controllers/fee_controller.py:195-208 | accepted iff an amount is given and 0 < amount <= balance due; every refusal is a 400 |
| Fees.AcceptedPaymentKeepsBound | app/controllers/fee_controller.py:201-216 | an accepted payment raises the paid amount without passing the total, leaves the fee paid or partial, and lowers the balance by the amount |
| Fees.ProcessPayment | app/controllers/fee_controller.py:186-230 | the corrected endpoint: a refused payment reports the guard's error and leaves the fee unchanged; an accepted one applies Pay and reports the remaining balance |
| Fees.ProcessPaymentAsWritten | app/models/fee.py:82-84 | as written, a payment the guard refuses gets the guard's error; an accepted payment on a fee with a paid amount fails with the 500 of the Decimal plus float sum; on an unpaid fee it leaves the balance less the amount |
| Fees.PartPaidFeeCannotBeSettled | app/controllers/fee_controller.py:201-213 | as written, the payment of a part-paid fee's exact balance passes every check and still ends in a 500, while the corrected payment settles the fee |
| Fees.DeleteFeeCheck | app/controllers/fee_controller.py:332-335 | deletion is allowed iff nothing has been paid |
| Fees.OverdueFees | app/controllers/fee_controller.py:266 | exactly the overdue fees, in order |
| Fees.SumBalance | app/controllers/fee_controller.py:283 | the sum of balances is never negative |
| Fees.StudentFeeStats | app/controllers/fee_controller.py:262-285 | the count is the number of fees; balance due is the summed amounts minus the summed payments; the overdue count and amount are those of the overdue fees |
| Fees.StatsBalanceIgnoresLateFees | app/controllers/fee_controller.py:263-265 | the statistic's balance leaves out late fees: one fee with a 15.00 late fee shows 200.00 due while its own balance is 215.00 |
| Fees.ForStudents | app/controllers/fee_controller.py:20-22 | exactly the fees of the given students, in order |
| Fees.ParentWithoutProfileSeesAll | app/controllers/fee_controller.py:20-22 | as written, a parent account without a parent profile is shown every fee |
| Fees.VisibleFeesAsWritten | app/controllers/fee_controller.py:19-22 | as written, only stored fees are listed; anyone but a parent with a profile sees them all; wherever the corrected rule answers, it lists the same fees |
| Fees.VisibleFees | app/controllers/fee_controller.py:240-245 | a parent without a profile is refused with 404; a parent with one sees exactly the children's fees; other roles see all |
| Messages.ReadMarked | app/models/message.py:50-54 | the result is read; an unread message gets the read time, a read one is unchanged |
| Messages.MarkReadIdempotent | app/models/message.py:50-54 | marking read twice is marking once: the first read time stays |
| Messages.Message.constructor | app/models/message.py:34-48 | the stored row: a reply exactly when it has a parent, sent at the current time (the column default fills `sent_at` for a draft too), and every flag false |
| Messages.Message.MarkAsRead | app/models/message.py:50-54 | the row becomes ReadMarked of the old one |
| Messages.Message.MarkAsUnread | app/models/message.py:56-59 | only the read flag and the read time change, both cleared |
| Messages.Message.Archive | app/models/message.py:61-63 | only the archive flag changes, to true |
| Messages.Message.Unarchive | app/models/message.py:65-67 | only the archive flag changes, to false |
| Messages.Message.Star | app/models/message.py:69-71 | only the star flag changes, to true |
| Messages.Message.Unstar | app/models/message.py:73-75 | only the star flag changes, to false |
| Messages.Message.DeleteForSender | app/models/message.py:77-79 | only the sender's delete flag changes, to true |
| Messages.Message.DeleteForRecipient | app/models/message.py:81-83 | only the recipient's delete flag changes, to true |
| Messages.Message.RestoreForSender | app/models/message.py:85-87 | only the sender's delete flag changes, to false |
| Messages.Message.RestoreForRecipient | app/models/message.py:89-91 | only the recipient's delete flag changes, to false |
| Messages.ViewMessage | app/controllers/message_controller.py:104-127 | outsiders get 403 and a message deleted on the caller's side 404; it is shown iff neither applies, marked read when the caller is its recipient |
| Messages.CanAccess | app/controllers/message_controller.py:113-115 | an admin may access every message, a caller who deleted their side is a party to it, and otherwise only sender and recipient may |
| Messages.ViewChangesOnlyReadState | app/controllers/message_controller.py:123-126 | viewing changes nothing but the read state, and a non-recipient's view changes nothing |
| Messages.StringIdSkipsSelfCheck | app/controllers/message_controller.py:181-187 | as written, a caller giving their own id as a string of digits passes every check and sends to themselves |
| Messages.CreateCheck | app/controllers/message_controller.py:174-187 | accepted iff no field is missing and an active recipient other than the caller is found; a missing recipient is 404, the caller as recipient 400 |
| Messages.CreateCheckAsWritten | app/controllers/message_controller.py:174-187 | as written, accepted iff no field is missing, the recipient is found and the raw JSON id is not the caller's number; refusals are 400 or 404; with a numeric id it agrees with the corrected check |
| Messages.ReplySubject | app/controllers/message_controller.py:232-235 | the subject always starts with "Re: "; a given subject keeps an existing prefix and gains one otherwise; without one it is "Re: " and the original subject |
| Messages.ReplySubjectIdempotent | app/controllers/message_controller.py:233-235 | giving a reply's own subject as the next reply's subject adds no second prefix |
| Messages.ReplyToReplyStacksPrefix | app/controllers/message_controller.py:233 | without a subject, a reply to "Re: X" is "Re: Re: X" |
| Messages.Reply | app/controllers/message_controller.py:212-248 | only the recipient or an admin may reply, with a non-blank body; a `null` subject then fails at `startswith` with a 500; otherwise the reply has the given id and body, goes from the caller to the original sender, points at the original, is a reply with the computed subject, is sent now, and has no read, archive, star or delete mark |
| Messages.EditDraft | app/controllers/message_controller.py:260-303 | only the sender or an admin, only a draft, and only an active new recipient; given fields replace the stored ones and `send` makes it sent now, otherwise the send time is kept; every other field is unchanged |
| Messages.SentIsFinal | app/controllers/message_controller.py:273-275 | once an edit sends the draft, every further edit is refused |
| Messages.MarkMessageRead | app/controllers/message_controller.py:313-332 | anyone but the recipient or an admin gets 403 and nothing changes; otherwise the message is marked read |
| Messages.ToggleStar | app/controllers/message_controller.py:334-361 | outsiders get 403 and nothing changes; otherwise only the star flag flips and its new value is reported |
| Messages.ToggleArchive | app/controllers/message_controller.py:363-390 | outsiders get 403 and nothing changes; otherwise only the archive flag flips and its new value is reported |
| Messages.DeletedBy | app/controllers/message_controller.py:406-410 | the sender's flag when the caller is the sender, else the recipient's flag when the caller is the recipient, else nothing changes |
| Messages.BothSidesRemove | app/controllers/message_controller.py:406-414 | the sender's delete alone keeps the row; both parties deleting, in either order, removes it |
| Messages.SelfMessageNeverRemoved | app/controllers/message_controller.py:406-414 | a message from a user to themselves only ever gets its sender flag, so it is never removed |
| Messages.DeleteMessage | app/controllers/message_controller.py:392-418 | outsiders get 403 and nothing changes; otherwise the caller's side is deleted and the result says whether the row is removed |
| Grades.LetterFor | app/models/grade.py:50-59 | A iff at least 90, B iff in [80, 90), C iff in [70, 80), D iff in [60, 70), F iff below 60 |
| Grades.GradeLetter | app/models/grade.py:45-59 | no letter iff no value; otherwise the letter of the value |
| Grades.LetterMonotone | app/models/grade.py:50-59 | a higher grade never earns a worse letter |
| Grades.NewGrade | app/models/grade.py:25-43 | with earned points and a positive maximum the value is earned/max*100 and the letter is set; otherwise the value is kept as given and there is no letter |
| Grades.Percentage | app/models/grade.py:61-66 | earned/max*100 when earned points exist and the maximum is positive, else the stored value |
| Grades.NewGradePercentageIsValue | app/models/grade.py:40-66 | a freshly built grade reports its own value as its percentage |
| Grades.DirectValueHasNoLetter | app/models/grade.py:40-43 | a grade built without earned points keeps the value it was given and carries no letter |
| Grades.Grade.constructor | app/models/grade.py:25-43 | the new row is NewGrade |
| Grades.Gpa | app/models/report_card.py:57-61 | 0 when the credits total at most 0; otherwise the GPA times the total credits is the credit-weighted points of the graded entries |
| Grades.UncountedGradesGiveNoPoints | app/models/report_card.py:58 | grades without a value or with a zero value add no points, whatever their credits |
| Grades.PointsBounded | app/models/report_card.py:58-59 | with grades in [0, 100] and non-negative credits, the points lie between 0 and 100 per credit |
| Grades.GpaBounded | app/models/report_card.py:57-61 | the GPA of valid grades is between 0 and 100 |
| Grades.UngradedLowersGpa | app/models/report_card.py:58-59 | an entry without a value still adds its credits and can only lower the GPA |
| Grades.UngradedAppend | app/models/report_card.py:58-59 | an entry without a value adds nothing to the points and its credits to the total |
| Grades.AcademicStatus | app/models/report_card.py:107-119 | Excellent iff at least 85, Good iff in [75, 85), Satisfactory iff in [65, 75), Needs Improvement iff in [50, 65), Unsatisfactory below 50 |
| Grades.Metrics | app/models/report_card.py:46-69 | with grades the GPA and its letter are recomputed, else kept; with attendance the days recorded, present (present or late) and absent are recomputed and add up, else kept; nothing else changes |
| Grades.MetricsDaysSplit | app/models/report_card.py:64-69 | the days present and absent are non-negative and the percentage lies in [0, 100] |
| Grades.RankOf | app/models/report_card.py:95-98 | no rank iff no card has the id; otherwise the 1-based position of the first card holding it |
| Grades.RankFollowsGpa | app/models/report_card.py:88-98 | in the GPA-descending list, every card ranked ahead has at least the same GPA and every card behind at most |
| Grades.WithRank | app/models/report_card.py:84-98 | nothing changes for a student without a class; otherwise the class total is the number of cards and the rank is the card's position, kept when the card is absent |
| Grades.Published | app/models/report_card.py:100-105 | the card is published today; apart from the two publishing fields it is the card with its metrics and then its rank recomputed; in a class it holds the class size and the card's position in the GPA order, or its old rank when it is not listed |
| Grades.PublishIdempotent | app/models/report_card.py:100-105 | publishing again with the same inputs gives the same card |
| Grades.ReportCard.CalculateMetrics | app/models/report_card.py:46-69 | the card becomes Metrics of the old one |
| Grades.ReportCard.CalculateRank | app/models/report_card.py:84-98 | the loop leaves the card as WithRank of the old one |
| Grades.ReportCard.Publish | app/models/report_card.py:100-105 | the card becomes Published of the old one |
| Grades.RankAt | app/models/report_card.py:95-98 | the first position holding the id gives the rank |
| Attendance.RecordMissing | app/controllers/attendance_controller.py:94-97 | no field is reported missing iff the student id is given and the date and status are given and not blank |
| Attendance.RecordError | app/controllers/attendance_controller.py:93-102 | a record is rejected iff it is not acceptable (missing field or unknown status), always with status 400 |
| Attendance.MarkAttendance | app/controllers/attendance_controller.py:73-145 | no record list gives the 400 for the missing field; otherwise the loop's outcome is the batch of MarkFrom over all records |
| Attendance.MarkFrom | app/controllers/attendance_controller.py:92-134 | the batch from a position on: a refusal is always a 400; a success never lowers the counts and loses no key of the table |
| Attendance.MarkFromStep | app/controllers/attendance_controller.py:92-134 | one step of the batch: a bad record ends it with its error, a good one upserts its key and counts a creation or an update |
| Attendance.BatchCountsEveryRecord | app/controllers/attendance_controller.py:138 | after a successful batch, created plus updated is the number of records sent |
| Attendance.CreatedIsNewKeys | app/controllers/attendance_controller.py:104-134 | the number created is exactly the growth of the table, and no key is lost |
| Attendance.UntouchedRowsKept | app/controllers/attendance_controller.py:104-134 | a row whose key no record carries is left unchanged |
| Attendance.LastRecordWins | app/controllers/attendance_controller.py:112-132 | the last record's key holds that record afterwards, marked by the caller |
| Attendance.BadRecordRejects | app/controllers/attendance_controller.py:95-102 | one invalid record anywhere rejects the whole batch |
| Attendance.CountWhere | app/controllers/attendance_controller.py:191-193 | a count of days with one status is at most the number of days |
| Attendance.CountPresent | app/controllers/attendance_controller.py:190 | the count of present-or-late days is at most the number of days |
| Attendance.Percentage | app/controllers/attendance_controller.py:195 | 0 with no days; otherwise the percentage times the days is 100 times the part |
| Attendance.PercentageBounds | app/controllers/attendance_controller.py:195 | a part of the days gives a percentage in [0, 100] |
| Attendance.StudentAttendanceStats | app/controllers/attendance_controller.py:189-195 | the statistics are the day count, the present-or-late count, the per-status counts and their percentage |
| Attendance.CountsPartitionDays | app/controllers/attendance_controller.py:189-193 | with valid statuses, present, absent and excused days add up to all days, and late days are among the present |
| Attendance.StatsPartitionDays | app/controllers/attendance_controller.py:189-195 | the student's statistics split the days and the percentage lies in [0, 100] |
| Attendance.OverallStatus | app/controllers/attendance_controller.py:263-274 | present iff any record is present; late iff none is present and one is late; excused iff neither and one is excused; absent otherwise |
| Attendance.NoRecordIsAbsent | app/controllers/attendance_controller.py:263 | a student without a record that day is absent |
| Attendance.CountAttending | app/controllers/attendance_controller.py:280 | the students attending are at most all students |
| Attendance.ClassAttendanceStats | app/controllers/attendance_controller.py:279-291 | the totals count every active student, present plus absent is that total, and the attendance rate is the present share in percent, between 0 and 100 |
| Attendance.UpdatePermission | app/controllers/attendance_controller.py:310-318 | anyone but a teacher passes; a teacher without a profile gets 404; a teacher with one passes iff they marked the record or teach its subject |
| Attendance.UpdateRow | app/controllers/attendance_controller.py:320-337 | an unknown status is refused with 400 iff one is given; otherwise each given field is set, the rest kept, and the caller becomes the marker |
| Attendance.UpdaterMayUpdateAgain | app/controllers/attendance_controller.py:316-337 | after a teacher's update, the same teacher may update the record again |
| Notifications.ParseAudience | app/controllers/notification_controller.py:138-141 | a known audience name gives the audience of that name; anything else names no audience |
| Notifications.AudienceRoundTrip | app/models/notification.py:15-17 | naming an audience and parsing the name gives it back |
| Notifications.AudienceNeverNamesRole | app/controllers/notification_controller.py:23-28 | no audience name equals a role name, so the comparison with the role never holds |
| Notifications.AsWrittenIgnoresGroups | app/controllers/notification_controller.py:23-101 | as written, a notification is viewable iff it is for everyone, the caller is an admin, or it is for the class of the student caller, and listed iff it is active and for everyone or the non-zero class of the student caller: the group test never holds |
| Notifications.StudentNotificationUnreachable | app/controllers/notification_controller.py:92-103 | a notification for the students is neither listed for nor viewable by a student, as written |
| Notifications.AudienceOf | app/models/notification.py:74-83 | a role's group is the role's name with an s, never everyone or a class |
| Notifications.MatchedAudienceRules | app/models/notification.py:74-83 | with the audience matched to the group: only active notifications are listed, every active one for everyone or the caller's group is, a class notification only for a student of that class; an admin may view every notification, a teacher or parent only those for everyone or their group |
| Notifications.ListedIsViewable | app/controllers/notification_controller.py:92-103 | every notification listed for the caller can be opened by the caller |
| Notifications.GroupNotificationReachesRole | app/models/notification.py:74-83 | with the audience matched to the group, an active notification for a role's group is listed for that role |
| Notifications.ListingAgreesOutsideGroups | app/controllers/notification_controller.py:23-38 | for everyone and for a class, the corrected listing and the code list the same notifications |
| Notifications.ReadIds | app/controllers/notification_controller.py:254-256 | the ids read are exactly those with a receipt of the user |
| Notifications.Unread | app/controllers/notification_controller.py:40-47 | the unread ids are exactly the listed ones without a receipt, never more than listed |
| Notifications.UnreadCount | app/controllers/notification_controller.py:68 | the unread count is at most the number listed |
| Notifications.NoneUnreadIff | app/controllers/notification_controller.py:62-68 | the unread count is zero iff every listed notification has a receipt of the user |
| Notifications.ReceiptsFor | app/controllers/notification_controller.py:262-265 | the new receipts belong to the user and cover exactly the given ids |
| Notifications.DistinctCard | app/controllers/notification_controller.py:251 | distinct ids form a set of the same size |
| Notifications.UnreadDistinct | app/controllers/notification_controller.py:260-261 | the unread ids of distinct ids are distinct |
| Notifications.UnreadSnoc | app/controllers/notification_controller.py:260-266 | one step of the loop: the next id is appended to the unread ones iff it has no receipt |
| Notifications.ReceiptStore.constructor | app/models/notification.py:15 | a new store holds no receipt |
| Notifications.ReceiptStore.MarkRead | app/controllers/notification_controller.py:196-224 | an unknown notification gives the handler's 500 and changes nothing; otherwise it reports whether a receipt existed and the receipt is present afterwards |
| Notifications.ReceiptStore.MarkAllRead | app/controllers/notification_controller.py:228-274 | adds a receipt for every listed notification not read before, and returns their number |
| Notifications.MarkAllLeavesNothingUnread | app/controllers/notification_controller.py:254-269 | after mark-all, nothing listed is unread, so a second call marks none |
| Notifications.MarkedCountIsReceiptsAdded | app/controllers/notification_controller.py:259-272 | the reported count equals the number of new receipts, none of which existed before |
| Notifications.ReceiptsCard | app/controllers/notification_controller.py:262-267 | one receipt per distinct id |
| Notifications.CreateCheck | app/controllers/notification_controller.py:137-163 | accepted iff the audience (all when absent) is known, a class audience names an active class, and a teacher addresses everyone, students, parents or a class they teach; a null or unknown audience is a 400, a class audience without a class id a 400, with a null id or no active class a 404; every refusal is 400, 403 or 404 |
| Notifications.RequestedAudience | app/controllers/notification_controller.py:139-141 | an absent audience means everyone, a JSON null names no audience, and a given one is parsed |
| Notifications.NullAudienceRefused | app/controllers/notification_controller.py:139-141 | a null audience gets the 400 of an unknown one, while an admin leaving it out addresses everyone |
| Notifications.TeacherCannotTargetStaff | app/controllers/notification_controller.py:155-157 | a teacher addressing the teachers or the admins gets the 403 |
| Classes.Create | app/controllers/class_controller.py:86-118 | accepted iff the name, grade level and academic year are given and no class (active or not) has the same three; then the new row is stored under the fresh id; a clash is the 409 |
| Classes.Update | app/controllers/class_controller.py:126-150 | an unknown class is a 500; accepted iff a new capacity is not below the active students; only that class changes, its name, grade level, academic year and description are the given ones or kept, its capacity becomes the new one and its active flag is kept |
| Classes.Delete | app/controllers/class_controller.py:156-170 | accepted iff the class exists and has no active student, which deactivates it and keeps its row; active students give the 400 |
| Classes.Add | app/controllers/class_controller.py:220-250 | accepted iff the class and the student exist, the class has a free place and the student has no class; then only that student's class changes; a full class is the 400 |
| Classes.Remove | app/controllers/class_controller.py:256-282 | accepted iff the class and the student exist and the student is in that class; then only that student loses the class |
| Classes.MoveEnrolled | app/models/class_model.py:29-30 | assigning a student to a class adds them to its active roster when active, and takes them out of every other |
| Classes.DetachEnrolled | app/models/class_model.py:29-30 | detaching a student takes them out of every roster |
| Classes.CreateStartsEmpty | app/models/class_model.py:29-30 | a class under a fresh id has no active student |
| Classes.CreateKeepsUnique | app/controllers/class_controller.py:97-105 | creation keeps the (name, grade level, academic year) triples unique |
| Classes.CreateCapacity | app/controllers/class_controller.py:107-113 | creation keeps every class within capacity iff the stored capacity is not negative |
| Classes.DefaultCapacityIsSafe | app/controllers/class_controller.py:112 | creation with the default capacity of 30 keeps every class within capacity |
| Classes.UpdateKeepsCapacity | app/controllers/class_controller.py:141-145 | an accepted update keeps every class within capacity |
| Classes.RenameCanDuplicate | app/controllers/class_controller.py:132-139 | an update may rename a class into the identity of another: uniqueness is not kept |
| Classes.DeleteIdempotent | app/controllers/class_controller.py:156-170 | a deleted class is inactive and deleting it again changes nothing |
| Classes.AddKeepsCapacity | app/controllers/class_controller.py:234-242 | an accepted add keeps every class within capacity |
| Classes.AddCountsOne | app/controllers/class_controller.py:242 | adding an active student without a class raises the class count by one |
| Classes.AddThenRemove | app/controllers/class_controller.py:242-274 | removing a student just added gives back the original table |
| Classes.RemoveKeepsCapacity | app/controllers/class_controller.py:270-274 | an accepted removal keeps every class within capacity |
| Classes.School.constructor | app/models/class_model.py:29-30 | the school starts with the given tables |
| Classes.School.CreateClass | app/controllers/class_controller.py:86-118 | the tables become those of Create, or are unchanged with its error |
| Classes.School.UpdateClass | app/controllers/class_controller.py:126-150 | the classes become those of Update and the updated row is returned, or are unchanged with its error |
| Classes.School.DeleteClass | app/controllers/class_controller.py:156-170 | the classes become those of Delete, or are unchanged with its error |
| Classes.School.AddStudent | app/controllers/class_controller.py:220-250 | the students become those of Add, or are unchanged with its error |
| Classes.School.RemoveStudent | app/controllers/class_controller.py:256-282 | the students become those of Remove, or are unchanged with its error |
| Admin.ToggleStatus | app/controllers/admin_controller.py:94-112 | an unknown user is a 500, the caller's own account the 400; accepted iff the user exists and is not the caller, and then only that user's active flag is negated |
| Admin.ToggleMessage | app/controllers/admin_controller.py:107 | the message says activated iff the account is now active, deactivated iff it is not |
| Admin.ToggleTwice | app/controllers/admin_controller.py:104 | toggling the same user twice gives back the original accounts |
| Admin.AssignRole | app/controllers/admin_controller.py:116-146 | an unknown user is a 500; accepted iff the role is given, is one of admin, teacher, student, parent, and the target is not the caller; then only the target's role changes; an unknown role is the 400 |
| Admin.CallerAccountUntouched | app/controllers/admin_controller.py:100-140 | neither route changes the calling administrator's own account |
| Admin.RolesStayAllowed | app/controllers/admin_controller.py:129-140 | if every stored role is allowed, it stays so after a role assignment |
| Admin.Directory.constructor | app/controllers/admin_controller.py:94-97 | the directory starts with the given accounts |
| Admin.Directory.Toggle | app/controllers/admin_controller.py:94-112 | the accounts become those of ToggleStatus and the message names the new status, or are unchanged with its error |
| Admin.Directory.Assign | app/controllers/admin_controller.py:116-146 | the accounts become those of AssignRole and the message names the old and the new role, or are unchanged with its error |
| Admin.Assignable | app/controllers/admin_controller.py:213-217 | the counted ids are exactly the listed ones naming an existing active student, never more than listed |
| Admin.AssignAll | app/controllers/admin_controller.py:213-217 | the loop keeps the set of students and their active flags |
| Admin.AssignAllMeans | app/controllers/admin_controller.py:213-217 | after the loop every listed active student is in the class and every other student is as before |
| Admin.AssignCheck | app/controllers/admin_controller.py:193-209 | the loop runs iff the class exists, the ids are a list and the active count plus the listed ids fits the capacity; otherwise the capacity message gives the free places |
| Admin.AssignStep | app/controllers/admin_controller.py:213-217 | one step of the loop moves and counts the current id iff it names an active student |
| Admin.AssignStudents | app/controllers/admin_controller.py:190-228 | a failed check changes nothing and returns its error; otherwise the students become AssignAll and the count is the number of assignable ids; the classes never change |
| Admin.MoveListed | app/controllers/admin_controller.py:211-217 | the loop's table is AssignAll and its count the number of assignable ids |
| Admin.ElementsCard | app/controllers/admin_controller.py:208 | the listed ids name at most as many students as the list is long |
| Admin.AssignEnrolled | app/controllers/admin_controller.py:213-217 | the class's roster gains exactly the listed active students; every other roster only loses |
| Admin.AssignKeepsCapacity | app/controllers/admin_controller.py:206-217 | an assignment the capacity check lets through keeps every class within capacity |
| Admin.SubsetCard | app/models/class_model.py:29-30 | a sub-roster is no larger |
| Admin.AssignIdempotent | app/controllers/admin_controller.py:213-217 | repeating the assignment changes nothing more and counts the same ids again |
| Admin.AssignableSame | app/controllers/admin_controller.py:215 | which ids count depends only on which students exist and are active |
| Admin.FeeTargets | app/controllers/admin_controller.py:238-255 | accepted iff the fields are given and the target is all students, a class with an id, or a list of ids; the billed students are then exactly the active ones of that target. As written each `Fee(...)` then raises (Fees.FeeConstructionRaises), so any non-empty selection ends in a 500 and only an empty one in 201 |
| Admin.TargetsWithinAll | app/controllers/admin_controller.py:247-254 | every accepted target lies within the all-students target |
| Admin.Selected | app/controllers/admin_controller.py:299-310 | the report keeps exactly the fees whose academic year and due date pass the filters given |
| Admin.ReportSummary | app/controllers/admin_controller.py:311-339 | the totals are the count, the summed amounts and paid amounts, pending is their difference, and the collection rate is paid over total in percent, 0 when the total is not positive |
| Admin.Rate | app/controllers/admin_controller.py:339 | the rate times the total is 100 times the paid amount |
| Admin.PendingCanBeNegative | app/controllers/admin_controller.py:312-314 | a fee paid in full with its late fee has nothing due but a negative pending amount in the report |
| Admin.StatusCount | app/controllers/admin_controller.py:318-321 | a status count is at most the number of fees |
| Admin.StatusBreakdownPartitions | app/controllers/admin_controller.py:317-323 | the four status entries count every fee once and their amounts add up to the total amount |
| Admin.TypeCount | app/controllers/admin_controller.py:326-331 | a type's count is positive iff some fee has that type |
| Admin.TypeBreakdown | app/controllers/admin_controller.py:326-331 | the loop gives an entry for exactly the types present, each with the count and summed amount of its fees |
| Admin.TypeStep | app/controllers/admin_controller.py:327-331 | one step of the loop adds the fee to its type's entry only |
| Admin.TypeAbsent | app/controllers/admin_controller.py:328-329 | a type not yet seen has count and amount zero |
| Backend.GradeLetter | backend/app.py:205-221 | A+ iff at least 90, A iff in [85, 90), B+ iff in [80, 85), B iff in [75, 80), C+ iff in [70, 75), C iff in [65, 70), D iff in [60, 65), F iff below 60 |
| Backend.LetterMonotone | backend/app.py:205-221 | a higher percentage never gets a worse letter |
| Backend.ProfileCode | backend/app.py:246 | the code is the prefix followed only by digits, padded to at least six |
| Backend.StudentCode | backend/app.py:247 | a student number is "STU" followed by at least six digits |
| Backend.TeacherCode | backend/app.py:261 | an employee number is "TCH" followed by at least six digits |
| Backend.PadDigits | backend/app.py:246 | zero padding keeps a numeral all digits |
| Backend.StudentCodeShape | backend/app.py:246 | for ids below a million the student code has nine characters and its digits read back as the id |
| Backend.LengthBelowMillion | backend/app.py:246 | an id below a million has at most six digits |
| Backend.Zeros | backend/app.py:246 | the padding is that many zeros |
| Backend.LeadingZeros | backend/app.py:246 | leading zeros keep a numeral all digits and do not change its value |
| Backend.AllZeros | backend/app.py:246 | a string of zeros reads as 0 |
| Backend.ParseQr | backend/app.py:722-729 | accepted iff there are exactly three ':'-separated parts, the first is "student" and the second an integer; the result names that user id and the third part; every refusal is a 400 |
| Backend.QrPayload | backend/app.py:248 | the payload is "student:", the id's numeral, ':' and the code, and its length is the sum of theirs |
| Backend.ParseInt | backend/app.py:728 | accepted text is non-empty, a negative result comes from a leading '-', and text starting with a digit is accepted iff it is all digits |
| Backend.ParseIntRoundTrip | backend/app.py:728 | every integer's numeral parses back to it |
| Backend.QrRoundTrip | backend/app.py:247-248 | a payload built from a user id and a code without ':' parses back to them |
| Backend.RegisteredQrScans | backend/app.py:246-248 | the payload stored at registration parses back to the new student's id and code |
| Backend.MalformedPayloads | backend/app.py:722-766 | "student:12" gives "Invalid QR code" and "student:x:STU000001" "Invalid QR code format" |
| Backend.TwoPartPayload | backend/app.py:724-726 | any payload of two ':'-separated parts is refused with 400 "Invalid QR code" |
| Backend.NonNumericPayload | backend/app.py:724-766 | a three-part student payload whose id does not parse is refused with 400 "Invalid QR code format" |
| Backend.ProfileFor | backend/app.py:243-272 | a student gets a student profile with its code and the QR payload built from it; a teacher gets a teacher profile, a guardian a guardian profile, and any other role none |
| Backend.Register | backend/app.py:227-291 | refused with the 400 iff the e-mail is already stored; otherwise the active user is stored with the profile of its role |
| Backend.Login | backend/app.py:294-315 | succeeds iff the account exists, the password matches and it is active; the 403 is given iff the password matches a disabled account; every other refusal is the 401 |
| Backend.WrongPasswordRevealsNothing | backend/app.py:298-315 | a wrong password or an unknown e-mail gives the same 401, disabled or not |
| Backend.RegisterThenLogin | backend/app.py:227-300 | a user just registered logs in with the same password |
| Backend.Mark | backend/app.py:611-640 | accepted iff the caller is admin or teacher; the row under (student, class, day) is then replaced or created with the caller as marker, and no other key appears |
| Backend.RemarkKeepsSize | backend/app.py:621-636 | marking the same key again only replaces its status and adds no row |
| Backend.Scan | backend/app.py:712-767 | accepted iff the caller is staff, the payload parses, the student with that code has that user id, is not yet marked that day and has a class; then a present row is added under the student's class |
| Backend.OneScanPerDay | backend/app.py:737-744 | a second scan the same day is refused as already marked |
| Backend.ScanAfterMark | backend/app.py:737-744 | a scan after a manual mark that day is refused as already marked |
| Backend.CreateFee | backend/app.py:828-860 | accepted iff the caller is admin; the new fee belongs to the given student, term and due day, its final amount plus its discount (0 by default) is the amount, nothing is paid, it is pending, the year defaults to 2024-25, and every other fee is unchanged |
| Backend.CreatedFeeSettles | backend/app.py:828-892 | a fee just created is paid by one payment iff it covers its final amount, and that payment is what is recorded as paid |
| Backend.StatusAfterPayment | backend/app.py:884-887 | paid once the final amount is reached, partial while something but not all is paid, otherwise unchanged |
| Backend.Pay | backend/app.py:868-887 | accepted iff the caller is admin, or a guardian of the fee's student, and the fee exists; the payment is added, today recorded and the status follows StatusAfterPayment; an unknown fee is the 404 |
| Backend.PayingBalanceSettles | backend/app.py:880-885 | paying the whole remaining final amount marks the fee paid |
| Backend.OverpaymentRecorded | backend/app.py:880-885 | a payment beyond the final amount is recorded in full |
| Backend.PayRoute | backend/app.py:862-892 | with the view taking its path parameter, an administrator's payment of a stored fee is added |
| Backend.PayRouteAsWritten | backend/app.py:862-864 | the route as declared answers every authenticated request with a 500 |
| Backend.PayRouteAlwaysFails | backend/app.py:862-864 | the route as declared refuses even a payment the handler body accepts |
| Backend.Database.constructor | backend/app.py:1133-1149 | the database starts with the given tables |
| Backend.Database.RegisterUser | backend/app.py:227-291 | the users become those of Register and the profile is returned, or are unchanged with its error |
| Backend.Database.MarkAttendance | backend/app.py:611-651 | the attendance becomes that of Mark, or is unchanged with its error |
| Backend.Database.ScanQr | backend/app.py:712-767 | the attendance becomes that of Scan, or is unchanged with its error |
| Backend.Database.NewFee | backend/app.py:828-860 | the fees become those of CreateFee and the new id is returned, or are unchanged with its error |
| Backend.Database.PayFee | backend/app.py:864-892 | the fees become those of Pay, or are unchanged with its error |
| Formatters.CapitalizeFirst | edumanage/src/utils/formatters.js:80-83 | the length is kept, the first character is upper-cased and every other lower-cased; empty input gives empty output |
| Formatters.UpperLowerChar | edumanage/src/utils/formatters.js:82 | upper-casing is idempotent and either case mapping after the other gives the same as that one alone |
| Formatters.CapitalizeFirstIdempotent | edumanage/src/utils/formatters.js:80-83 | capitalising twice is capitalising once |
| Formatters.CapitalizeFirstCase | edumanage/src/utils/formatters.js:80-83 | capitalising changes only the case of letters |
| Formatters.CapitalizeFirstSpaces | edumanage/src/utils/formatters.js:80-83 | capitalising neither creates nor removes a character that is not a letter |
| Formatters.CapitalizeAll | edumanage/src/utils/formatters.js:87 | each piece is capitalised in place |
| Formatters.LowerAppend | edumanage/src/utils/formatters.js:87 | lower-casing distributes over concatenation |
| Formatters.LowerJoinCapitalized | edumanage/src/utils/formatters.js:87 | joining the capitalised pieces differs from joining the pieces only in case |
| Formatters.JoinSplitFrom | edumanage/src/utils/formatters.js:87 | joining the pieces of a split with the separator gives the string back |
| Formatters.SplitJoin | edumanage/src/utils/formatters.js:87 | splitting a join of separator-free pieces gives the pieces back |
| Formatters.CapitalizeWordsCase | edumanage/src/utils/formatters.js:85-88 | capitalizeWords keeps the length and changes only the case of letters |
| Formatters.CapitalizeWordsWords | edumanage/src/utils/formatters.js:85-88 | the words of the result are the capitalised words of the input |
| Formatters.CapitalizeWordsIdempotent | edumanage/src/utils/formatters.js:85-88 | capitalising the words twice is capitalising them once |
| Formatters.Truncate | edumanage/src/utils/formatters.js:90-93 | an empty text or one within the limit comes back unchanged; a longer one becomes its first maxLength characters with the surrounding whitespace dropped, starting and ending with a visible character, followed by the suffix |
| Formatters.TruncateText | edumanage/src/utils/formatters.js:90-93 | with the defaults the result has at most 103 characters, a text of at most 100 is unchanged, and a longer one is its first 100 characters with the surrounding whitespace dropped, followed by "..." |
| Formatters.GradeTone | edumanage/src/utils/formatters.js:96-118 | green, blue, yellow, orange or red iff the upper-cased first letter is A, B, C, D or F; gray iff the grade is empty or starts with anything else |
| Formatters.GradeColor | edumanage/src/utils/formatters.js:96-118 | grades starting with A, B, C, D or F in either case get the green, blue, yellow, orange or red classes, every other grade the gray ones |
| Formatters.GradeColorFirstLetter | edumanage/src/utils/formatters.js:96-118 | two grades with the same first letter up to case get the same colour |
| Formatters.GradeColorCaseInsensitive | edumanage/src/utils/formatters.js:99 | upper- or lower-casing a grade does not change its colour |
| Formatters.AttendanceStatus | edumanage/src/utils/formatters.js:120-126 | Excellent iff at least 95, Good iff in [90, 95), Average iff in [85, 90), Below Average iff in [75, 85), Poor below 75 |
| Formatters.AttendanceMonotone | edumanage/src/utils/formatters.js:120-126 | a higher percentage never earns a lower badge |
| Formatters.TenDigitForm | edumanage/src/utils/formatters.js:145-147 | the layout "(AAA) BBB-CCCC" has 14 characters and exactly the given digits |
| Formatters.ElevenDigitForm | edumanage/src/utils/formatters.js:149-151 | the layout "+1 (AAA) BBB-CCCC" has 17 characters and exactly the given digits |
| Formatters.FormatPhone | edumanage/src/utils/formatters.js:140-154 | the digits are always kept; ten digits give the ten-digit layout, eleven led by 1 the eleven-digit layout, anything else comes back unchanged |
| Formatters.PhoneDigits | edumanage/src/utils/formatters.js:143-151 | the digits of the layout are those of its digit groups |
| Formatters.PunctuationDigits | edumanage/src/utils/formatters.js:146-150 | the inserted punctuation holds no digit except the leading 1 of "+1 (" |
| Formatters.FormatPhoneIdempotent | edumanage/src/utils/formatters.js:140-154 | formatting a formatted number changes nothing |
| Formatters.FormatStudentId | edumanage/src/utils/formatters.js:157-160 | the id keeps its length, has no lower-case letter and differs from the input only in case |
| Formatters.FormatStudentIdIdempotent | edumanage/src/utils/formatters.js:157-160 | formatting a formatted id changes nothing |
| StudentStore.Merge | edumanage/src/services/studentService.js:213 | the merged record keeps the id and the admission date, every field the patch carries replaces the stored one, and the fields it leaves out are kept |
| StudentStore.MergeIdempotent | edumanage/src/services/studentService.js:213 | merging the same patch again changes nothing |
| StudentStore.MergeNothing | edumanage/src/services/studentService.js:213 | an empty patch leaves the record as it is |
| StudentStore.Where | edumanage/src/services/studentService.js:133-149 | a filter pass keeps exactly the entries that pass it, in their order and without repeats (a subsequence of the store) |
| StudentStore.IsSubseqTransitive | edumanage/src/services/studentService.js:128-151 | a subsequence of a subsequence is a subsequence, so the three passes in a row keep the store order |
| StudentStore.WhereAll | edumanage/src/services/studentService.js:133-149 | a pass every entry survives keeps the array as it is |
| StudentStore.Query | edumanage/src/services/studentService.js:128-157 | the listed students are exactly those matching the search (name, code or e-mail, ignoring case), the class and the status, the latter two skipped when absent or 'all', in store order (a subsequence of the store); the total is their number, page and limit default to 1 and 10 |
| StudentStore.Selected | edumanage/src/services/studentService.js:128-151 | with no filter every student is kept; a class or status filter in force keeps only students with that class or status |
| StudentStore.QueryNoFilter | edumanage/src/services/studentService.js:128-151 | with no filter the whole store is listed, in order |
| StudentStore.QueryIdempotent | edumanage/src/services/studentService.js:128-151 | searching a search result with the same filters gives it back unchanged |
| StudentStore.IndexOf | edumanage/src/services/studentService.js:208 | no index iff no entry has the id; otherwise the first position holding it |
| StudentStore.Find | edumanage/src/services/studentService.js:168-172 | "Student not found" iff no entry has the id; otherwise a stored student with that id |
| StudentStore.MaxId | edumanage/src/services/studentService.js:185 | the largest id of a non-empty store is an id of it and at least every other |
| StudentStore.NextId | edumanage/src/services/studentService.js:185 | the new id is one more than the largest stored id, so greater than every one, and 1 in an empty store |
| StudentStore.IdsOf | edumanage/src/services/studentService.js:185 | the ids as numbers, one per entry, in order |
| StudentStore.EmptyStoreIdAsWritten | edumanage/src/services/studentService.js:185 | as written, the id created in an empty store is -Infinity, and so is every later one |
| StudentStore.JsMax | edumanage/src/services/studentService.js:185 | `Math.max` is -Infinity iff no argument is finite, and otherwise one of the arguments at least as large as each finite one |
| StudentStore.NextIdAsWritten | edumanage/src/services/studentService.js:185 | as written, the next id is -Infinity on an empty store, and when finite it exceeds every finite id |
| StudentStore.NextIdAgrees | edumanage/src/services/studentService.js:185 | on a non-empty store the written rule gives NextId |
| StudentStore.MaxAgrees | edumanage/src/services/studentService.js:185 | Math.max of the ids is the largest id |
| StudentStore.CodeFor | edumanage/src/services/studentService.js:186 | the code is "STU2024" followed by at least three digits |
| StudentStore.OpeningBalance | edumanage/src/services/studentService.js:191 | the balance is the total fees when given and not zero, else 5000 |
| StudentStore.NewStudent | edumanage/src/services/studentService.js:184-193 | the new record gets NextId; its code is the given one or the next code; name, e-mail, class, gender and total fees are those given (empty when not given); it is active, has paid nothing, was admitted today and owes its opening balance |
| StudentStore.CreateKeepsUnique | edumanage/src/services/studentService.js:184-195 | appending the created student keeps the ids distinct |
| StudentStore.Update | edumanage/src/services/studentService.js:208-214 | "Student not found" iff no entry has the id; otherwise the array keeps its length and its ids |
| StudentStore.UpdateTouchesOne | edumanage/src/services/studentService.js:208-214 | with distinct ids, only the entry with that id is merged and all others are unchanged |
| StudentStore.Delete | edumanage/src/services/studentService.js:226-232 | "Student not found" iff no entry has the id; otherwise the array is one shorter |
| StudentStore.DeleteRemovesOne | edumanage/src/services/studentService.js:226-232 | with distinct ids, exactly the entry with that id is removed |
| StudentStore.BulkUpdate | edumanage/src/services/studentService.js:306-311 | visiting the ids keeps the array's length and ids |
| StudentStore.BulkUpdateMeans | edumanage/src/services/studentService.js:306-311 | with distinct ids, exactly the listed students are merged with the patch |
| StudentStore.BulkUpdateUnknownIds | edumanage/src/services/studentService.js:306-313 | ids naming no student change nothing, though all are reported as updated |
| StudentStore.CountWhere | edumanage/src/services/studentService.js:342 | a filtered count is at most the number of students |
| StudentStore.ActiveSplit | edumanage/src/services/studentService.js:341-356 | the active and the other students add up to the total |
| StudentStore.CountClass | edumanage/src/services/studentService.js:348-351 | a class count is at most the number of students |
| StudentStore.ClassCounts | edumanage/src/services/studentService.js:348-351 | the per-class table has an entry for exactly the classes present |
| StudentStore.ClassCountsCount | edumanage/src/services/studentService.js:348-351 | each class's entry is the number of its students |
| StudentStore.CountClassNone | edumanage/src/services/studentService.js:348-351 | a class without an entry has no student |
| StudentStore.Stats | edumanage/src/services/studentService.js:341-362 | the total is the number of students, inactive are those not active, active plus inactive is the total, and the class table covers exactly the classes present |
| StudentStore.Store.constructor | edumanage/src/services/studentService.js:3-117 | the store holds exactly the records it is seeded with |
| StudentStore.Store.CreateStudent | edumanage/src/services/studentService.js:184-196 | appends exactly NewStudent and returns it, keeping the ids distinct |
| StudentStore.Store.UpdateStudent | edumanage/src/services/studentService.js:208-214 | the store becomes Update's and the merged record with that id is returned, or is unchanged with "Student not found"; distinct ids stay distinct |
| StudentStore.Store.DeleteStudent | edumanage/src/services/studentService.js:226-232 | the store becomes Delete's, or is unchanged with "Student not found"; distinct ids stay distinct |
| StudentStore.Store.BulkUpdateStudents | edumanage/src/services/studentService.js:306-313 | the store becomes BulkUpdate's and the count reported is the number of ids given |
| StudentStore.MergeListed | edumanage/src/services/studentService.js:306-311 | the forEach loop leaves the array BulkUpdate describes |
| DataTable.HandleSortAsWritten | src/components/DataTable.jsx:26-29 | as written, a click leaves one sort entry, for the clicked column |
| DataTable.ClicksAlwaysDescend | src/components/DataTable.jsx:26-29 | as written, every sequence of clicks from no sorting leaves a descending sort, so the ascending order is never reached |
| DataTable.HandleSort | src/components/DataTable.jsx:26-29 | one sort entry for the clicked column, descending iff that column was sorted ascending |
| DataTable.HandleSortToggles | src/components/DataTable.jsx:26-29 | repeated clicks on one column alternate between ascending and descending |
| DataTable.Insert | src/components/DataTable.jsx:35-39 | inserting adds exactly that row to the rows |
| DataTable.Sort | src/components/DataTable.jsx:35-39 | sorting a copy keeps exactly the same rows |
| DataTable.InsertSorted | src/components/DataTable.jsx:36-39 | inserting a row with a cell in the column into sorted rows keeps them sorted |
| DataTable.SortSorted | src/components/DataTable.jsx:35-39 | when every row has the column, no row is placed after one the comparator puts after it |
| DataTable.SortedData | src/components/DataTable.jsx:31-40 | the shown rows are a reordering of the data, and the data itself when nothing is sorted |
| DataTable.SortedDataOrdered | src/components/DataTable.jsx:31-40 | with a sort entry and the column present in every row, the shown rows are ordered by that column in the chosen direction |
| DataTable.KeepMatching | src/components/DataTable.jsx:44-49 | a row is kept iff it matches every filter, its text containing the value ignoring case |
| DataTable.FilteredData | src/components/DataTable.jsx:42-50 | without filters the sorted rows are shown, otherwise exactly those matching all filters |
| DataTable.KeepMatchingSorted | src/components/DataTable.jsx:42-50 | filtering keeps the sorted order |
| DataTable.MissingCellMatchesUndefined | src/components/DataTable.jsx:46-47 | a row without the column reads as "undefined" and matches a filter that word contains |
| DataTable.FilterValue | src/components/DataTable.jsx:57 | a non-empty shown value is the value of a filter for that column |
| DataTable.OtherColumns | src/components/DataTable.jsx:59 | exactly the filters of the other columns remain |
| DataTable.OnFilterInput | src/components/DataTable.jsx:58-64 | the other columns' filters are untouched; an empty value drops the column's filter, a non-empty one leaves only filters with that value for the column |
| DataTable.FilterInputShowsValue | src/components/DataTable.jsx:57-63 | after typing, the input shows exactly the typed text |
| DataTable.NoValueWithout | src/components/DataTable.jsx:57 | filters of other columns in front do not change the shown value |
| DataTable.FilterInputSingleEntry | src/components/DataTable.jsx:58-63 | typing leaves at most one filter for the column |

## Left out

- Password hashing, JWT signing and decoding, e-mail syntax checking by `email_validator`, and date parsing by `strptime` are library calls. Their outcomes are parameters.
- Python's `int()` and `float()` accept surrounding whitespace and underscores. `ParseInt` reads plain optionally signed decimal digits only.
- Floating-point rounding is not modelled. Amounts are integer cents and ratios are exact reals, so `round(x, 2)` and NaN percentages do not arise.
- Answers raised as uncaught exceptions (`KeyError` on a missing JSON field, database errors) are one 500 error. Werkzeug's 404 page text is shortened to its status.
- ORM queries are modelled by their meaning, as filters over rows. Ordering by creation time and pagination metadata other than the `per_page` cap are not modelled.
- SMS and e-mail delivery (`send_sms`, `sendVerificationEmail`), toasts, `navigate` calls and the QR image are side effects outside the model. Only the QR payload text is modelled.
- `setInterval` timing is not modelled. The expiry check is modelled as one tick.
- Case mapping is ASCII only. `Trim` removes space, tab, line feed, carriage return, vertical tab and form feed. JavaScript `trim` also removes the no-break space and the other Unicode spaces. Python's `strip` also removes `\x1c`-`\x1f`, `\x85` and the Unicode spaces.
- JavaScript `toString` of non-string grades and ids is not modelled. Grades and ids are numbers, and formatters take their text forms.
- `update_class` parses `max_students` with `int()`. The model takes the parsed integer.
- `bulk_create_fees` builds a fee per selected student in a loop. The model states which students are billed, not the rows constructed. As written the first `Fee(...)` raises (see the findings), so the route answers 500 for any non-empty selection and 201 only for an empty one.
- `update_fee` is not modelled. Only the status rule it calls is.
- `delete_attendance`, the filters of `get_attendance_records`, `update_notification`, `delete_notification`, the admin notification listing, the admin dashboard statistics, `get_all_users` and the admin `create_class` are not modelled. The last repeats the logic of `Classes.Create`.
- The remaining routes of `backend/app.py` are not modelled: profile, dashboard, student, class, subject, grade and announcement listings, profile update, and the teacher listing.
- `mark_attendance` takes its records as a typed sequence, so its "attendance_records must be a list" answer is not modelled. The "student_ids must be a list" answer of `assign_students_to_class` is modelled as an input variant, `NotAList`.
- The audience `specific_users` is declared in the column type of app/models/notification.py, but `create_notification` never accepts it, so the model has no case for it.
- Notifications.CanViewAsWritten: a student without a profile and a student whose profile has no class are merged into one case, as both see no class notification.
- The `formatDate`, `formatCurrency`, `formatFileSize`, `formatPercentage`, `formatNumber`, `formatClassName`, `timeAgo` and `exportToCSV` formatters depend on `Intl`, dates or the DOM and are not part of this model.
- In `createStudent`, the record's own `id` and `studentId` can be replaced by fields of the same names in the request, through the object spread. The model takes the request's code and never its id. Fields the request leaves out are empty strings. `newThisMonth` in `getStudentStats` depends on the current date and is not modelled.
- A student code can repeat after a delete, since `createStudent` numbers codes by the array length. The model states the code format only.
- The data table's cells are modelled as integers. JavaScript's comparison of strings and of mixed types is not modelled, and sortedness is proved only when every row has the sort column. Column visibility and row selection are not modelled.
- The axios calls of the front-end services are not modelled. Only their mock fallbacks are.
- The "Payment amount cannot exceed balance due" message of `make_payment` ends with the balance in parentheses. The model leaves that number out. It reads the amount as cents, not as a float.
- MockAuthService.Merge: the update type has no `id` field, so the model keeps it. In the code the object spread replaces it when the update carries one.
- Validators.ValidatePassword: the digit rule counts ASCII digits only. Python's `\d` also matches the other Unicode decimal digits.
- Validators.ValidatePhone: separators are removed and digits counted in ASCII only. Python's `\D` and `\d` treat every Unicode decimal digit as a digit.
- StudentStore.Query: a student created without a name has an undefined name in the code, and a later search then throws at `toLowerCase`. The model stores the empty string, which every search passes over.
- RouteGuard.Resolve: locations are decoded pathnames. Only the static routes of the table are matched, by their key; percent-decoding and route ranking beyond these routes are not modelled.
- StudentStore.Stats: the per-gender counts are returned but not stated in the contract.
- StudentStore.Merge: the patch type has no `id` or `admissionDate` field, so the model keeps both. In the code the object spread replaces them when the request carries them. That id uniqueness and `IdsArePositions` are preserved by updates therefore holds only for requests without these fields.
- The code accepts a verification code at `now == expiresAt`, since its test is `now > expiresAt`, and draws codes from 100000 to 999999. The model follows the code.

## Findings

| source | as written | input that shows it | evidently intended | confidence | as-written member | corrected member |
|---|---|---|---|---|---|---|
| app/utils/validators.py:88 | `re.match(r'^[A-Z0-9]+$', ...)` lets `$` match before a final newline | "ST24001\n" is accepted as a student ID | only A–Z and 0–9, as the error message says | not executed | Validators.TrailingNewlineIdAccepted | Validators.ValidateId |
| app/models/fee.py:35-63 | `__init__` calls `update_status` while `paid_amount`, `late_fee` and `discount` are still `None`, since column defaults apply on insert | any new fee: `None >= amount + None - None` raises `TypeError` | the column defaults (0) apply before the status is computed | not executed | Fees.FeeConstructionRaises | Fees.NewFee |
| app/controllers/fee_controller.py:20-22 | the children filter applies only when the parent has a profile | a parent account without a profile lists every fee in the school | a parent without a profile sees no fees, as `get_student_fees` refuses them | not executed | Fees.ParentWithoutProfileSeesAll | Fees.VisibleFees |
| app/controllers/message_controller.py:185-187 | the self-send test compares the raw JSON `recipient_id` with the caller's integer id | `recipient_id: "7"` from user 7 finds user 7 and sends to themselves | the ban applies to the recipient found | not executed | Messages.StringIdSkipsSelfCheck | Messages.CreateCheck |
| app/controllers/notification_controller.py:92-105 | the audience (`students`, `teachers`, ...) is compared with the singular role name | a notification for `students` is neither listed nor viewable for any student | each group audience reaches its role | not executed | Notifications.StudentNotificationUnreachable | Notifications.GroupNotificationReachesRole |
| backend/app.py:862-864 | the route declares `<int:fee_id>` but `pay_fee` takes no parameter | every POST to `/api/fees/1/pay` ends in a `TypeError` and a 500 answer | the view takes `fee_id` and the payment is recorded | not executed | Backend.PayRouteAlwaysFails | Backend.PayRoute |
| src/components/DataTable.jsx:26-29 | `desc: !isAsc` | from no sorting, every click on a header sorts descending | the first click sorts ascending and the next one toggles | not executed | DataTable.ClicksAlwaysDescend | DataTable.HandleSort |
| edumanage/src/services/studentService.js:185 | `Math.max(...mockStudents.map(s => s.id)) + 1` | on an empty store the new id is `-Infinity`, and so is every later one | the first id is 1 | not executed | StudentStore.EmptyStoreIdAsWritten | StudentStore.NextId |
| app/utils/auth.py:53-58 | the guard reads `kwargs.get('user_id') or request.json.get('user_id')` before the role test, and every guarded route outside `user_controller.py` names its parameter `student_id`, `teacher_id`, `grade_id` and so on | an administrator's GET `/api/students/5` without a JSON body fails on the body read and never reaches the view | the body is read only when there is one, and the allowed role decides | not executed | RoleGuard.BodilessGetAdmitsNobody | RoleGuard.RequireSameUserOrRoleSilent |
| app/models/fee.py:84 | `make_payment` adds the request's `float` to the stored `Decimal` paid amount | a second payment on a part-paid fee raises `TypeError`, and the endpoint answers 500 | the amounts are added in one numeric type and the fee can be settled | not executed | Fees.PartPaidFeeCannotBeSettled | Fees.ProcessPayment |
