/** The `admin` route middleware: only an authenticated administrator reaches
    the wrapped handler. */
module IsAdmin {
  import opened Request
  import opened Responses
  import opened AdminAuth

  datatype GateOutcome = ToLogin | ToHome | PassToNext

  /** The middleware's decision for the signed-in user, if any. */
  function Gate(current: Option<User>): (g: GateOutcome)
    ensures g == ToLogin <==> current.None?
    ensures g == ToHome <==> current.Some? && !current.value.isAdmin
    ensures g == PassToNext <==> current.Some? && current.value.isAdmin
  {
    if current.None? then ToLogin
    else if !current.value.isAdmin then ToHome
    else PassToNext
  }

  const LoginFirst := "Please login to access the admin panel."
  const NoPermission := "You do not have permission to access this area."

  /** handle: a guest is sent to the login form, a signed-in non-admin to the
      home page, each with an error flash; an admin gets the downstream response. */
  function Handle(current: Option<User>, downstream: WebResponse): (r: WebResponse)
    ensures current.None? ==> r == RedirectFlashing(Route("admin.login"), "error", LoginFirst)
    ensures current.Some? && !current.value.isAdmin ==> r == RedirectFlashing(Path("/"), "error", NoPermission)
    ensures r == downstream <== current.Some? && current.value.isAdmin
  {
    match Gate(current)
    case ToLogin => RedirectFlashing(Route("admin.login"), "error", LoginFirst)
    case ToHome => RedirectFlashing(Path("/"), "error", NoPermission)
    case PassToNext => downstream
  }

  /** A refused request never sees the protected handler: its response does
      not depend on what the handler would have answered. */
  lemma RefusalIgnoresHandler(current: Option<User>, downstream1: WebResponse, downstream2: WebResponse)
    requires !(current.Some? && current.value.isAdmin)
    ensures Handle(current, downstream1) == Handle(current, downstream2)
    ensures Handle(current, downstream1).Redirect? && "error" in Handle(current, downstream1).flash
  {
  }
}
