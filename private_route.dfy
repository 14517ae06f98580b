/**
 * The route guard (src/PrivateRoute.tsx): what a private route renders for the current
 * session.
 */
module PrivateRoute {
  import opened Js

  /** A guard sends the visitor to /login, sends them to /, or renders the page. */
  datatype Decision = RedirectToLogin | RedirectHome | RenderChild

  /** A truthy nullable string: present and not empty. */
  predicate Present(s: Option<string>) {
    s.Some? && s.value != ""
  }

  /** Without a token the visitor goes to /login; with one, a route that names a role sends
      every other role (no role included) to /; otherwise the page renders. */
  function Guard(token: Option<string>, role: Option<string>, requiredRole: Option<string>): (d: Decision)
    ensures d == RedirectToLogin <==> !Present(token)
    ensures d == RedirectHome <==> Present(token) && Present(requiredRole) && role != requiredRole
    ensures d == RenderChild <==> Present(token) && (!Present(requiredRole) || role == requiredRole)
  {
    if !Present(token) then RedirectToLogin
    else if Present(requiredRole) && role != requiredRole then RedirectHome
    else RenderChild
  }
}
