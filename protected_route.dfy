/** The route guard (`ProtectedRoute.jsx`). */
module ProtectedRoute {
  import opened Wrappers
  import opened AuthContext

  const LOGIN_PATH := "/login"

  /** What the guard renders. */
  datatype Outcome = ShowLoading | Redirect(to: string) | RenderChildren

  /** An `allowedRole` that is absent or empty restricts nothing. */
  predicate Restricts(allowedRole: Option<string>) {
    allowedRole.Some? && allowedRole.value != ""
  }

  function Guard(auth: AuthValue, allowedRole: Option<string>): (r: Outcome)
    ensures r.Redirect? ==> r.to == LOGIN_PATH
  {
    if auth.isLoading then ShowLoading
    else if !auth.IsAuthenticated() then Redirect(LOGIN_PATH)
    else if Restricts(allowedRole) && auth.user.value.role != allowedRole.value then Redirect(LOGIN_PATH)
    else RenderChildren
  }

  /** The children are shown exactly when the session has been restored, there is a user,
      and any required role is that user's role; every other outcome except the loading
      placeholder is a redirect to the login page. */
  lemma GuardSpec(auth: AuthValue, allowedRole: Option<string>)
    ensures Guard(auth, allowedRole) == ShowLoading <==> auth.isLoading
    ensures Guard(auth, allowedRole) == RenderChildren <==>
              !auth.isLoading && auth.user.Some?
              && (!Restricts(allowedRole) || auth.user.value.role == allowedRole.value)
    ensures Guard(auth, allowedRole).Redirect? ==> Guard(auth, allowedRole).to == LOGIN_PATH
  {
  }

  /** A guard with a role never lets through a user with another role, whatever else holds. */
  lemma GuardKeepsRolesApart(user: SessionUser, role: string)
    requires role != "" && user.role != role
    ensures Guard(AuthValue(Some(user), false), Some(role)) == Redirect(LOGIN_PATH)
  {
  }
}
