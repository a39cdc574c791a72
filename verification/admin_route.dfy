/** The guard in front of every admin page. */
module AdminRoute {
  import opened Wrappers
  import opened Schema
  import Auth

  datatype View = Spinner | RedirectTo(path: string) | AccessDenied(redirect: string) | Render

  /** The admin guard: a spinner while the session loads, the sign-in page
      without a user, a denial and the dashboard for any other role, and the
      page itself for an admin. */
  function AdminGuard(isLoading: bool, user: Option<User>): (v: View)
    ensures v == Spinner <==> isLoading
    ensures v == Render <==> !isLoading && user.Some? && user.value.role == Admin
    ensures v.RedirectTo? ==> v.path == "/auth"
    ensures v.AccessDenied? ==> v.redirect == "/dashboard"
  {
    if isLoading then Spinner
    else if user.None? then RedirectTo("/auth")
    else if user.value.role != Admin then AccessDenied("/dashboard")
    else Render
  }

  /** The four outcomes split the cases: once loaded, a missing user goes to
      sign-in and a non-admin is denied. */
  lemma AdminGuardCases(user: Option<User>)
    ensures user.None? <==> AdminGuard(false, user) == RedirectTo("/auth")
    ensures (user.Some? && user.value.role != Admin) <==> AdminGuard(false, user) == AccessDenied("/dashboard")
  {
  }

  /** An account made through the registration form never passes the admin
      guard. */
  lemma SelfRegisteredNotAdmin(v: Auth.RegisterValues, isEmail: string -> bool, id: int)
    requires Auth.RegisterAccepts(v, isEmail)
    ensures AdminGuard(false, Some(User(id, ParseRole(v.role).value))).AccessDenied?
  {
  }
}
