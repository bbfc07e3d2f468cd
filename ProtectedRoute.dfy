/** The route guard: what a protected page shows, from the session's loading flag, whether someone is
    signed in, their roles and the role the route requires. */
module ProtectedRoute {
  import opened Wrappers
  import opened Domain

  datatype Decision = Spinner | RedirectToAuth | RedirectToHome | RenderChildren

  function Decide(isLoading: bool, isAuthenticated: bool, roles: set<AppRole>, requiredRole: Option<AppRole>)
    : (d: Decision)
    ensures isLoading ==> d == Spinner
    ensures !isLoading && !isAuthenticated ==> d == RedirectToAuth
    ensures d == RenderChildren ==> isAuthenticated && !isLoading
  {
    if isLoading then Spinner
    else if !isAuthenticated then RedirectToAuth
    else if requiredRole.Some? && !HasRole(roles, requiredRole.value) && !HasRole(roles, SuperAdmin) then RedirectToHome
    else RenderChildren
  }

  /** Once loaded and signed in, the page renders exactly when no role is required, the role is held,
      or the user is a super admin; otherwise the user is sent home. */
  lemma DecideSignedIn(roles: set<AppRole>, requiredRole: Option<AppRole>)
    ensures var d := Decide(false, true, roles, requiredRole);
      && (d == RenderChildren || d == RedirectToHome)
      && (d == RenderChildren <==>
            requiredRole.None? || requiredRole.value in roles || SuperAdmin in roles)
  {
  }

  /** A super admin passes every guard; the guard for students lets in every signed-in student. */
  lemma SuperAdminPasses(roles: set<AppRole>, requiredRole: Option<AppRole>)
    requires SuperAdmin in roles
    ensures Decide(false, true, roles, requiredRole) == RenderChildren
  {
  }
}
