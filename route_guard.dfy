/** Client-side routing of the second front end (`edumanage/src/App.jsx`): the protected-route
    guard, the redirect to each role's dashboard, and the resolution of a path for the current
    authentication state. */
module RouteGuard {
  import opened Wrappers
  import opened Text

  /** What the guards read from the authentication context. */
  datatype AuthView = AuthView(isLoading: bool, isAuthenticated: bool, role: Option<string>)

  /** What a route renders. */
  datatype View = Spinner | RedirectTo(path: string) | Page(name: string) | EmptyLayout

  /** `ProtectedRoute`: loading first, then authentication, then the role list when one is given. */
  function ProtectedRoute(auth: AuthView, allowedRoles: Option<seq<string>>, children: View): (v: View)
    ensures auth.isLoading ==> v == Spinner
    ensures !auth.isLoading && !auth.isAuthenticated ==> v == RedirectTo("/login")
    ensures !auth.isLoading && auth.isAuthenticated && allowedRoles.None? ==> v == children
    ensures !auth.isLoading && auth.isAuthenticated && allowedRoles.Some? ==>
              v == if auth.role.Some? && auth.role.value in allowedRoles.value then children
                   else RedirectTo("/unauthorized")
  {
    if auth.isLoading then Spinner
    else if !auth.isAuthenticated then RedirectTo("/login")
    else if allowedRoles.Some? && !(auth.role.Some? && auth.role.value in allowedRoles.value) then
      RedirectTo("/unauthorized")
    else children
  }

  const Roles: set<string> := {"admin", "teacher", "student", "parent"}

  /** The dashboard path of a role. */
  function DashboardPath(role: string): string {
    "/" + role + "/dashboard"
  }

  /** `DashboardRedirect`: each of the four roles to its own dashboard, anything else to the login. */
  function DashboardRedirect(role: Option<string>): (v: View)
    ensures role.Some? && role.value in Roles ==> v == RedirectTo(DashboardPath(role.value))
    ensures !(role.Some? && role.value in Roles) ==> v == RedirectTo("/login")
  {
    assert "/" + "admin" + "/dashboard" == "/admin/dashboard";
    assert "/" + "teacher" + "/dashboard" == "/teacher/dashboard";
    assert "/" + "student" + "/dashboard" == "/student/dashboard";
    assert "/" + "parent" + "/dashboard" == "/parent/dashboard";
    match role
    case Some("admin") => RedirectTo("/admin/dashboard")
    case Some("teacher") => RedirectTo("/teacher/dashboard")
    case Some("student") => RedirectTo("/student/dashboard")
    case Some("parent") => RedirectTo("/parent/dashboard")
    case _ => RedirectTo("/login")
  }

  // ---------------------------------------------------------------- matching a location

  /** The location with its trailing slashes dropped. */
  function StripTrailingSlashes(p: string): (r: string)
    ensures |r| <= |p| && r == p[..|r|]
    ensures r == [] || r[|r| - 1] != '/'
    ensures forall i :: |r| <= i < |p| ==> p[i] == '/'
  {
    if p != [] && p[|p| - 1] == '/' then StripTrailingSlashes(p[..|p| - 1]) else p
  }

  /** What React Router compares with a route path without parameters: no route sets
      `caseSensitive`, so letters match ignoring case, and trailing slashes are ignored. */
  function RouteKey(path: string): string {
    var s := StripTrailingSlashes(path);
    if s == [] then "/" else Lower(s)
  }

  /** A route path as the routes table writes them: lower case, not ending in a slash. */
  predicate RouteShaped(route: string) {
    route != [] && route[|route| - 1] != '/' && forall i :: 0 <= i < |route| ==> !IsUpper(route[i])
  }

  /** A location selects a route exactly when, up to trailing slashes, it spells the route in
      any case. */
  lemma MatchesRoute(path: string, route: string)
    requires RouteShaped(route)
    ensures RouteKey(path) == route <==>
            exists n :: 0 <= n <= |path| && Lower(path[..n]) == route && forall i :: n <= i < |path| ==> path[i] == '/'
  {
    var s := StripTrailingSlashes(path);
    if RouteKey(path) == route {
      assert s != [];
      assert path[..|s|] == s;
    }
    if exists n :: 0 <= n <= |path| && Lower(path[..n]) == route && forall i :: n <= i < |path| ==> path[i] == '/' {
      var n :| 0 <= n <= |path| && Lower(path[..n]) == route && forall i :: n <= i < |path| ==> path[i] == '/';
      assert n > 0 && path[n - 1] != '/' by {
        assert |path[..n]| == |route|;
        assert LowerChar(path[..n][n - 1]) == route[n - 1];
      }
      StripUpTo(path, n);
    }
  }

  /** Dropping trailing slashes stops at the last character that is not one. */
  lemma {:induction false} StripUpTo(p: string, n: nat)
    requires 0 < n <= |p| && p[n - 1] != '/' && forall i :: n <= i < |p| ==> p[i] == '/'
    ensures StripTrailingSlashes(p) == p[..n]
    decreases |p|
  {
    if |p| > n {
      StripUpTo(p[..|p| - 1], n);
      assert p[..|p| - 1][..n] == p[..n];
    }
  }

  /** A route path is its own key. */
  lemma RouteKeyOfRoute(route: string)
    requires RouteShaped(route)
    ensures RouteKey(route) == route
  {
    StripUpTo(route, |route|);
    assert route[..|route|] == route;
  }

  /** Taking the key again changes nothing: resolving a location and resolving its key agree. */
  lemma RouteKeyIdempotent(path: string)
    ensures RouteKey(RouteKey(path)) == RouteKey(path)
  {
    var s := StripTrailingSlashes(path);
    if s != [] {
      var k := Lower(s);
      assert k[|k| - 1] != '/';
      StripUpTo(k, |k|);
      assert k[..|k|] == k;
      LowerIdempotent(s);
    }
  }

  /** The pages behind the layout, each open to one role: (path, role, page). */
  const RolePages: seq<(string, string, string)> := [
    ("/admin/dashboard", "admin", "AdminDashboard"),
    ("/admin/students", "admin", "StudentsManagement"),
    ("/admin/teachers", "admin", "TeachersManagement"),
    ("/admin/classes", "admin", "ClassesManagement"),
    ("/admin/fees", "admin", "FeesManagement"),
    ("/teacher/dashboard", "teacher", "TeacherDashboard"),
    ("/teacher/classes", "teacher", "MyClasses"),
    ("/teacher/attendance", "teacher", "Attendance"),
    ("/teacher/grades", "teacher", "Grades"),
    ("/student/dashboard", "student", "StudentDashboard"),
    ("/student/profile", "student", "MyProfile"),
    ("/student/grades", "student", "MyGrades"),
    ("/student/attendance", "student", "MyAttendance"),
    ("/student/announcements", "student", "Announcements"),
    ("/parent/dashboard", "parent", "ParentDashboard"),
    ("/parent/child-info", "parent", "ChildInfo"),
    ("/parent/child-grades", "parent", "ChildGrades"),
    ("/parent/child-attendance", "parent", "ChildAttendance"),
    ("/parent/fees", "parent", "FeePayments")
  ]

  /** The role page registered at `path`, if any. */
  function LookupPage(pages: seq<(string, string, string)>, path: string): (r: Option<(string, string)>)
    ensures r.Some? <==> exists i :: 0 <= i < |pages| && pages[i].0 == path
    ensures r.Some? ==> exists i :: 0 <= i < |pages| && pages[i] == (path, r.value.0, r.value.1)
  {
    if pages == [] then None
    else if pages[0].0 == path then Some((pages[0].1, pages[0].2))
    else
      var r := LookupPage(pages[1..], path);
      assert r.Some? ==> exists i :: 0 <= i < |pages| - 1 && pages[1..][i] == (path, r.value.0, r.value.1);
      assert forall i :: 0 <= i < |pages| - 1 ==> pages[1..][i] == pages[i + 1];
      r
  }

  /** The nested routes inside the layout, given the key of the location. */
  function InnerRoute(auth: AuthView, key: string): View {
    if key == "/unauthorized" then Page("UnauthorizedPage")
    else match LookupPage(RolePages, key)
      case Some((role, page)) => ProtectedRoute(auth, Some([role]), Page(page))
      case None => EmptyLayout
  }

  /** The routes of `AppRoutes` over the key of a location. */
  function ResolveKey(auth: AuthView, key: string): View {
    if auth.isLoading then Spinner
    else if key == "/login" then (if auth.isAuthenticated then DashboardRedirect(auth.role) else Page("LoginPage"))
    else if key == "/register" then (if auth.isAuthenticated then DashboardRedirect(auth.role) else Page("RegisterPage"))
    else if key == "/" then (if auth.isAuthenticated then DashboardRedirect(auth.role) else RedirectTo("/login"))
    else ProtectedRoute(auth, None, InnerRoute(auth, key))
  }

  /** `AppRoutes`: the public routes, the root redirect, and everything else behind an
      authenticated (any role) guard; every route is matched through the location's key. */
  function Resolve(auth: AuthView, path: string): (v: View)
    ensures auth.isLoading <==> v == Spinner
    ensures !auth.isLoading && auth.isAuthenticated && RouteKey(path) in {"/login", "/register", "/"} ==>
              v == DashboardRedirect(auth.role)
  {
    ResolveKey(auth, RouteKey(path))
  }

  /** While loading nothing redirects. */
  lemma LoadingNeverRedirects(auth: AuthView, path: string)
    requires auth.isLoading
    ensures Resolve(auth, path) == Spinner
  {
  }

  /** A location resolves as its key does. */
  lemma ResolveUsesKey(auth: AuthView, path: string)
    ensures Resolve(auth, path) == Resolve(auth, RouteKey(path))
  {
    RouteKeyIdempotent(path);
  }

  /** Without a session every location except those of the two public forms leads to the login
      page. */
  lemma UnauthenticatedGoesToLogin(auth: AuthView, path: string)
    requires !auth.isLoading && !auth.isAuthenticated
    ensures RouteKey(path) == "/login" ==> Resolve(auth, path) == Page("LoginPage")
    ensures RouteKey(path) == "/register" ==> Resolve(auth, path) == Page("RegisterPage")
    ensures RouteKey(path) != "/login" && RouteKey(path) != "/register" ==> Resolve(auth, path) == RedirectTo("/login")
  {
  }

  /** The forms answer to their paths in any case and with a trailing slash. */
  lemma FormsIgnoreCaseAndSlash(auth: AuthView)
    requires !auth.isLoading && !auth.isAuthenticated
    ensures Resolve(auth, "/Login/") == Page("LoginPage")
    ensures Resolve(auth, "/REGISTER") == Page("RegisterPage")
  {
    var a := "/Login/";
    StripUpTo(a, 6);
    assert a[..6] == "/Login";
    LowerLogin();
    StripUpTo("/REGISTER", 9);
    assert "/REGISTER"[..9] == "/REGISTER";
    LowerRegister();
  }

  lemma LowerLogin()
    ensures Lower("/Login") == "/login"
  {
    var l := Lower("/Login");
    assert l[0] == '/' && l[1] == 'l' && l[2] == 'o' && l[3] == 'g' && l[4] == 'i' && l[5] == 'n';
  }

  lemma LowerRegister()
    ensures Lower("/REGISTER") == "/register"
  {
    var r := Lower("/REGISTER");
    assert r[0] == '/' && r[1] == 'r' && r[2] == 'e' && r[3] == 'g' && r[4] == 'i' && r[5] == 's' &&
           r[6] == 't' && r[7] == 'e' && r[8] == 'r';
  }

  /** The top-level paths are their own keys. */
  lemma TopLevelKeys()
    ensures RouteKey("/login") == "/login" && RouteKey("/unauthorized") == "/unauthorized"
  {
    assert RouteShaped("/login") && RouteShaped("/unauthorized");
    RouteKeyOfRoute("/login");
    RouteKeyOfRoute("/unauthorized");
  }

  /** A role page is shown exactly to its own role; every other signed-in user is sent to
      `/unauthorized`, which itself is open to every signed-in user. */
  lemma RolePageAccess(auth: AuthView, path: string, role: string, page: string)
    requires !auth.isLoading && auth.isAuthenticated
    requires LookupPage(RolePages, RouteKey(path)) == Some((role, page))
    ensures Resolve(auth, path) == if auth.role == Some(role) then Page(page) else RedirectTo("/unauthorized")
    ensures Resolve(auth, "/unauthorized") == Page("UnauthorizedPage")
  {
    RolePageByKey(auth, RouteKey(path), role, page);
    TopLevelKeys();
  }

  lemma RolePageByKey(auth: AuthView, key: string, role: string, page: string)
    requires !auth.isLoading && auth.isAuthenticated
    requires LookupPage(RolePages, key) == Some((role, page))
    ensures ResolveKey(auth, key) == if auth.role == Some(role) then Page(page) else RedirectTo("/unauthorized")
    ensures ResolveKey(auth, "/unauthorized") == Page("UnauthorizedPage")
  {
    RolePathLengths();
    var i :| 0 <= i < |RolePages| && RolePages[i] == (key, role, page);
    assert |key| >= 11 && |key| != 13;
    assert key != "/login" && key != "/register" && key != "/" && key != "/unauthorized";
  }

  /** Every role path is longer than each top-level path and differs in length from `/unauthorized`. */
  lemma RolePathLengths()
    ensures forall i :: 0 <= i < |RolePages| ==> |RolePages[i].0| >= 11 && |RolePages[i].0| != 13
  {
  }

  /** Each of the four roles, once signed in, is sent from the public routes to a dashboard that
      it is allowed to see. */
  lemma DashboardIsReachable(auth: AuthView)
    requires !auth.isLoading && auth.isAuthenticated && auth.role.Some? && auth.role.value in Roles
    ensures Resolve(auth, "/") == RedirectTo(DashboardPath(auth.role.value))
    ensures Resolve(auth, DashboardPath(auth.role.value)).Page?
  {
    var r := auth.role.value;
    var i: nat;
    if r == "admin" {
      i := 0;
      AdminDashboardRow();
    } else if r == "teacher" {
      i := 5;
      TeacherDashboardRow();
    } else if r == "student" {
      i := 9;
      StudentDashboardRow();
    } else {
      i := 14;
      ParentDashboardRow();
    }
    DashboardShown(auth, i);
  }

  /** A signed-in user sees the page of entry i when it is open to their role and no earlier
      entry has its path. */
  lemma DashboardShown(auth: AuthView, i: nat)
    requires !auth.isLoading && auth.isAuthenticated && auth.role.Some?
    requires i < |RolePages| && RolePages[i].1 == auth.role.value && |RolePages[i].0| >= 2
    requires forall j :: 0 <= j < i ==> |RolePages[j].0| >= 2 && RolePages[j].0[1] != RolePages[i].0[1]
    requires RouteShaped(RolePages[i].0)
    ensures Resolve(auth, RolePages[i].0) == Page(RolePages[i].2)
  {
    RouteKeyOfRoute(RolePages[i].0);
    LookupFirst(RolePages, i);
    RolePageAccess(auth, RolePages[i].0, RolePages[i].1, RolePages[i].2);
  }

  // The dashboard row of each role, and the rows before it that start with another letter.

  lemma AdminDashboardRow()
    ensures RolePages[0].0 == DashboardPath("admin") && RolePages[0].1 == "admin"
    ensures |RolePages[0].0| >= 2 && RouteShaped(RolePages[0].0)
  {
  }

  lemma TeacherDashboardRow()
    ensures RolePages[5].0 == DashboardPath("teacher") && RolePages[5].1 == "teacher"
    ensures |RolePages[5].0| >= 2 && RouteShaped(RolePages[5].0)
    ensures forall j :: 0 <= j < 5 ==> |RolePages[j].0| >= 2 && RolePages[j].0[1] != RolePages[5].0[1]
  {
  }

  lemma StudentDashboardRow()
    ensures RolePages[9].0 == DashboardPath("student") && RolePages[9].1 == "student"
    ensures |RolePages[9].0| >= 2 && RouteShaped(RolePages[9].0)
    ensures forall j :: 0 <= j < 9 ==> |RolePages[j].0| >= 2 && RolePages[j].0[1] != RolePages[9].0[1]
  {
  }

  lemma ParentDashboardRow()
    ensures RolePages[14].0 == DashboardPath("parent") && RolePages[14].1 == "parent"
    ensures |RolePages[14].0| >= 2 && RouteShaped(RolePages[14].0)
    ensures forall j :: 0 <= j < 14 ==> |RolePages[j].0| >= 2 && RolePages[j].0[1] != RolePages[14].0[1]
  {
  }

  /** The lookup finds an entry whose path no earlier entry has. */
  lemma {:induction false} LookupFirst(pages: seq<(string, string, string)>, i: nat)
    requires i < |pages| && |pages[i].0| >= 2
    requires forall j :: 0 <= j < i ==> |pages[j].0| >= 2 && pages[j].0[1] != pages[i].0[1]
    ensures LookupPage(pages, pages[i].0) == Some((pages[i].1, pages[i].2))
  {
    if i > 0 {
      assert pages[0].0 != pages[i].0;
      assert pages[1..][i - 1] == pages[i];
      LookupFirst(pages[1..], i - 1);
    }
  }

  /** A signed-in user whose role is none of the four is sent from `/login` back to `/login`:
      the public routes redirect such a user in a loop. */
  lemma UnknownRoleLoops(auth: AuthView)
    requires !auth.isLoading && auth.isAuthenticated && !(auth.role.Some? && auth.role.value in Roles)
    ensures Resolve(auth, "/login") == RedirectTo("/login")
  {
    TopLevelKeys();
  }
}
