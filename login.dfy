/** The login screen (`Login.jsx`): which identity a submission signs in, and the screen's
    state around it. */
module Login {
  import opened Wrappers
  import opened Records
  import opened Store
  import opened EmployeesApi
  import opened AuthContext

  /** The branch a submission takes. */
  datatype Branch = AdminLogin | HRLogin | EmployeeLookup(email: string)

  /** The fixed credentials are checked first, whatever role is selected; then the role
      radio; otherwise the username is taken as an email address. */
  function Dispatch(username: string, password: string, role: string): Branch {
    if username == "admin" && password == "admin" then AdminLogin
    else if role == "hr" then HRLogin
    else EmployeeLookup(username)
  }

  const ADMIN_ACCOUNT := Account(0, "Administrator", "admin@company.com", None)
  const HR_ACCOUNT := Account(0, "HR Admin", "hr@company.com", None)

  const NOT_FOUND := "Employee not found. Please check your username or sign up."
  const LOGIN_FAILED := "Login failed. Please try again."

  /** The password decides only whether the admin branch is taken: two submissions that
      differ only in the password and are both outside it take the same branch. The HR
      branch asks for no credential at all, and the admin credentials win over the radio. */
  lemma DispatchSpec(username: string, p1: string, p2: string, role: string)
    ensures Dispatch(username, p1, role) != AdminLogin && Dispatch(username, p2, role) != AdminLogin ==>
              Dispatch(username, p1, role) == Dispatch(username, p2, role)
    ensures Dispatch(username, p1, role) == AdminLogin <==> username == "admin" && p1 == "admin"
    ensures role == "hr" && !(username == "admin" && p1 == "admin") ==> Dispatch(username, p1, role) == HRLogin
    ensures role != "hr" && !(username == "admin" && p1 == "admin") ==> Dispatch(username, p1, role) == EmployeeLookup(username)
  {
  }

  class LoginScreen {
    var username: string
    var password: string
    var role: string
    var error: string
    var isLoading: bool
    var showSuccess: bool

    constructor ()
      ensures username == "" && password == "" && role == "employee"
      ensures error == "" && !isLoading && !showSuccess
    {
      username := "";
      password := "";
      role := "employee";
      error := "";
      isLoading := false;
      showSuccess := false;
    }

    /** `handleSubmit`. `navigateTo` is the page the delayed redirect goes to. On a sign-in
        the screen keeps showing its spinner until then; when no one is signed in, the
        spinner stops and the session is left as it was. */
    method HandleSubmit(auth: AuthProvider, employees: EmployeeStore) returns (navigateTo: Option<string>)
      modifies this`error, this`isLoading, this`showSuccess, auth`user, auth.storage
      ensures var b := Dispatch(username, password, role);
        match b
        case AdminLogin =>
          auth.user == Some(SessionUser(ADMIN_ACCOUNT, "admin"))
          && auth.storage.items == old(auth.storage.items)[STORAGE_KEY := auth.user.value]
          && error == "" && isLoading && showSuccess && navigateTo == Some("/admin")
        case HRLogin =>
          auth.user == Some(SessionUser(HR_ACCOUNT, "hr"))
          && auth.storage.items == old(auth.storage.items)[STORAGE_KEY := auth.user.value]
          && error == "" && isLoading && showSuccess && navigateTo == Some("/hr")
        case EmployeeLookup(email) =>
          if !employees.available then
            auth.user == old(auth.user) && auth.storage.items == old(auth.storage.items)
            && error == LOGIN_FAILED && !isLoading && showSuccess == old(showSuccess) && navigateTo == None
          else
            match FirstWithEmail(employees.records, email)
            case None =>
              auth.user == old(auth.user) && auth.storage.items == old(auth.storage.items)
              && error == NOT_FOUND && !isLoading && showSuccess == old(showSuccess) && navigateTo == None
            case Some(k) =>
              auth.user == Some(SessionUser(EmployeeAccount(employees.records[k]), "employee"))
              && auth.storage.items == old(auth.storage.items)[STORAGE_KEY := auth.user.value]
              && error == "" && isLoading && showSuccess && navigateTo == Some("/employee")
    {
      error := "";
      isLoading := true;
      if username == "admin" && password == "admin" {
        auth.Login(ADMIN_ACCOUNT, "admin");
        showSuccess := true;
        navigateTo := Some("/admin");
      } else if role == "hr" {
        auth.Login(HR_ACCOUNT, "hr");
        showSuccess := true;
        navigateTo := Some("/hr");
      } else {
        var found := GetEmployeeByEmail(employees, username);
        LookupFindsFirst(employees.records, username);
        match found
        case Failed =>
          error := LOGIN_FAILED;
          isLoading := false;
          navigateTo := None;
        case Done(None) =>
          error := NOT_FOUND;
          isLoading := false;
          navigateTo := None;
        case Done(Some(employee)) =>
          auth.Login(EmployeeAccount(employee), "employee");
          showSuccess := true;
          navigateTo := Some("/employee");
      }
    }
  }
}
