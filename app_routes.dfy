/** The route table (`App.jsx`). */
module AppRoutes {
  import opened Wrappers
  import opened AuthContext
  import opened ProtectedRoute

  datatype Page =
    | LoginPage | SignupPage | AboutPage
    | EmployeeDashboardPage | EmployeeProfilePage | EmployeeLeaveRequestPage | EmployeePolicyPage
    | HRDashboardPage | HREmployeesPage | HRLeaveRequestsPage | HRPolicyPage

  /** What a path is bound to: an open page, a page behind the guard with a role, or a
      redirect. */
  datatype Route = Open(page: Page) | Guarded(role: string, page: Page) | Goto(to: string)

  const EMPLOYEE_ROLE := "employee"
  const HR_ROLE := "hr"

  /** The eleven paths the table lists. */
  const ROUTED_PATHS := ["/login", "/signup", "/about",
                         "/employee", "/employee/profile", "/employee/leave-request", "/employee/policy",
                         "/hr", "/hr/employees", "/hr/leave-requests", "/hr/policy"]

  /** The route a path matches. `/` and every path not listed go to the login page. */
  function RouteFor(path: string): (r: Route)
    ensures r.Goto? ==> r.to == LOGIN_PATH
  {
    if path == "/login" then Open(LoginPage)
    else if path == "/signup" then Open(SignupPage)
    else if path == "/about" then Open(AboutPage)
    else if path == "/employee" then Guarded(EMPLOYEE_ROLE, EmployeeDashboardPage)
    else if path == "/employee/profile" then Guarded(EMPLOYEE_ROLE, EmployeeProfilePage)
    else if path == "/employee/leave-request" then Guarded(EMPLOYEE_ROLE, EmployeeLeaveRequestPage)
    else if path == "/employee/policy" then Guarded(EMPLOYEE_ROLE, EmployeePolicyPage)
    else if path == "/hr" then Guarded(HR_ROLE, HRDashboardPage)
    else if path == "/hr/employees" then Guarded(HR_ROLE, HREmployeesPage)
    else if path == "/hr/leave-requests" then Guarded(HR_ROLE, HRLeaveRequestsPage)
    else if path == "/hr/policy" then Guarded(HR_ROLE, HRPolicyPage)
    else Goto(LOGIN_PATH)
  }

  /** What the browser ends up with for a path. */
  datatype View = Showing(page: Page) | Loading | RedirectedTo(to: string)

  function Visit(path: string, auth: AuthValue): View {
    match RouteFor(path)
    case Open(p) => Showing(p)
    case Goto(to) => RedirectedTo(to)
    case Guarded(role, p) =>
      match Guard(auth, Some(role))
      case ShowLoading => Loading
      case Redirect(to) => RedirectedTo(to)
      case RenderChildren => Showing(p)
  }

  predicate IsEmployeePage(p: Page) {
    p.EmployeeDashboardPage? || p.EmployeeProfilePage? || p.EmployeeLeaveRequestPage? || p.EmployeePolicyPage?
  }

  predicate IsHRPage(p: Page) {
    p.HRDashboardPage? || p.HREmployeesPage? || p.HRLeaveRequestsPage? || p.HRPolicyPage?
  }

  /** Employee pages are shown only to a restored session whose role is `employee` and HR
      pages only to one whose role is `hr`; the open pages are shown to anyone. Every path
      lands on one of these or is sent to the login page. */
  lemma {:induction false} VisitSpec(path: string, auth: AuthValue)
    ensures Visit(path, auth).Showing? && IsEmployeePage(Visit(path, auth).page) ==>
              !auth.isLoading && auth.user.Some? && auth.user.value.role == EMPLOYEE_ROLE
    ensures Visit(path, auth).Showing? && IsHRPage(Visit(path, auth).page) ==>
              !auth.isLoading && auth.user.Some? && auth.user.value.role == HR_ROLE
    ensures Visit(path, auth).RedirectedTo? ==> Visit(path, auth).to == LOGIN_PATH
    ensures RouteFor(path).Open? ==> Visit(path, auth) == Showing(RouteFor(path).page)
    ensures path !in ROUTED_PATHS ==> Visit(path, auth) == RedirectedTo(LOGIN_PATH)
  {
    FallThrough(path);
    match RouteFor(path)
    case Open(p) =>
    case Goto(to) =>
    case Guarded(role, p) =>
      GuardSpec(auth, Some(role));
  }

  /** A path is sent to the login page exactly when the table does not list it: `/` and the
      catch-all route both redirect there. */
  lemma FallThrough(path: string)
    ensures RouteFor(path).Goto? <==> path !in ROUTED_PATHS
    ensures RouteFor(path).Goto? ==> RouteFor(path) == Goto(LOGIN_PATH)
  {
  }

  /** Three paths the application itself links to or lands on have no route: the root, the
      administrator's landing page `/admin` and the HR dashboard's service-requests button. */
  lemma UnroutedTargets()
    ensures RouteFor("/") == Goto(LOGIN_PATH)
    ensures RouteFor("/admin") == Goto(LOGIN_PATH)
    ensures RouteFor("/hr/service-requests") == Goto(LOGIN_PATH)
  {
    FallThrough("/");
    FallThrough("/admin");
    FallThrough("/hr/service-requests");
  }

  /** The administrator's role guards no route, and the administrator's own landing page
      `/admin` has no route, so that session sees only the open pages. */
  lemma {:induction false} AdminSeesOnlyOpenPages(path: string, account: Account)
    ensures var v := Visit(path, AuthValue(Some(SessionUser(account, "admin")), false));
            v.Showing? ==> v.page == LoginPage || v.page == SignupPage || v.page == AboutPage
    ensures RouteFor("/admin") == Goto(LOGIN_PATH)
  {
    VisitSpec(path, AuthValue(Some(SessionUser(account, "admin")), false));
  }

  /** Each guarded route asks for `employee` under `/employee` and `hr` under `/hr`. */
  lemma GuardedRolesSpec(path: string)
    ensures RouteFor(path).Guarded? ==> RouteFor(path).role in {EMPLOYEE_ROLE, HR_ROLE}
    ensures RouteFor(path).Guarded? ==> (RouteFor(path).role == EMPLOYEE_ROLE <==> IsEmployeePage(RouteFor(path).page))
  {
  }
}
