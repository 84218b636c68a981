/**
 * The route gate of learnhub/components/auth/protected-route.tsx: what the wrapper renders
 * from the authentication context's loading flag, authentication flag and user role.
 */
module ProtectedRoute {
  import opened Wrappers
  import Auth

  /** A React node supplied by the caller; `None` stands for a missing or falsy `fallback`. */
  type Node = string

  /** What the wrapper renders. */
  datatype View =
    | Spinner
    | Fallback(node: Node)
    | AccessDenied
    | InsufficientPermissions
    | Children

  /** The role requirement is absent, or the user is present and holds exactly that role. */
  predicate RoleMet(requiredRole: Option<Auth.Role>, userRole: Option<Auth.Role>) {
    requiredRole.None? || userRole == Some(requiredRole.value)
  }

  /**
   * The ordered if-chain of `ProtectedRoute`: loading first, then authentication (with the
   * caller's fallback or the "Access Denied" panel), then the role requirement.
   */
  function Gate(isLoading: bool, isAuthenticated: bool, userRole: Option<Auth.Role>,
                requiredRole: Option<Auth.Role>, fallback: Option<Node>): (v: View)
    ensures v == Spinner <==> isLoading
    ensures v.Fallback? <==> !isLoading && !isAuthenticated && fallback.Some?
    ensures v.Fallback? ==> v.node == fallback.value
    ensures v == AccessDenied <==> !isLoading && !isAuthenticated && fallback.None?
    ensures v == InsufficientPermissions <==>
      !isLoading && isAuthenticated && requiredRole.Some? && userRole != Some(requiredRole.value)
    ensures v == Children <==> !isLoading && isAuthenticated && RoleMet(requiredRole, userRole)
  {
    if isLoading then Spinner
    else if !isAuthenticated then (if fallback.Some? then Fallback(fallback.value) else AccessDenied)
    else if requiredRole.Some? && userRole != Some(requiredRole.value) then InsufficientPermissions
    else Children
  }

  /** Without a role requirement, any signed-in user sees the children, whatever the role. */
  lemma NoRequirementAdmitsEveryRole(userRole: Option<Auth.Role>, fallback: Option<Node>)
    ensures Gate(false, true, userRole, None, fallback) == Children
  {
  }

  /** An administrator page turns away a signed-in student, and only the administrator passes. */
  lemma AdministratorOnly(userRole: Auth.Role, fallback: Option<Node>)
    ensures Gate(false, true, Some(userRole), Some(Auth.Administrator), fallback) == Children
      <==> userRole == Auth.Administrator
  {
  }
}
