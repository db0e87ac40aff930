/**
 * The two route guards of server.js: `auth` (lines 65-68) and `authAdmin`
 * (lines 71-79), as decisions over the session's user.
 */
module Guards {
  import opened Schema
  import opened Http

  /** A guard either passes the request on (`next()`) or answers it itself. */
  datatype Decision = Next | Deny(response: Response)

  const LoginPath: string := "/login"

  /** `auth`: a request without a session user is redirected to the login page. */
  function Auth(session: Option<User>): (d: Decision)
    ensures d.Deny? <==> session.None?
    ensures d.Deny? ==> d.response == Redirect(LoginPath)
  {
    if session.None? then Deny(Redirect(LoginPath)) else Next
  }

  /**
   * `authAdmin`: 401 without a session user, 403 for a session user whose
   * role is not the admin role, and through otherwise. The no-session test
   * comes first, so 401 is answered exactly where `auth` would redirect.
   */
  function AuthAdmin(session: Option<User>): (d: Decision)
    ensures d == Deny(Status(401, LoginRequired)) <==> session.None?
    ensures d == Deny(Status(403, AdminOnly)) <==> session.Some? && session.value.tipo != AdminRole
    ensures d == Next <==> session.Some? && session.value.tipo == AdminRole
    ensures d.Deny? ==> d.response.Status? && (d.response.code == 401 <==> Auth(session).Deny?)
    ensures d == Next ==> Auth(session) == Next
  {
    if session.None? then Deny(Status(401, LoginRequired))
    else if session.value.tipo != AdminRole then Deny(Status(403, AdminOnly))
    else Next
  }
}
