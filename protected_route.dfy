/** The `ProtectedRoute` wrapper: given the session read from the user context, it
    either renders the wrapped element or navigates away with history replacement. */
module ProtectedRoute {
  import opened Http

  /** The signed-in user as far as the guard looks at it. */
  datatype User = User(role: string)

  /** What the wrapper gives React: `<Navigate to=... replace/>`, the wrapped element,
      or a `TypeError` thrown while rendering (reading `role` of a missing user). */
  datatype Decision = Navigate(to: string, replace: bool) | Render | Throw

  /** The one role that may see a protected element. */
  const AdminRole := "Admin"

  /** The guard. Authentication is tested first; `user.role` is read only for an
      authenticated session, and there a context without a user makes it throw. */
  function Guard(authenticated: bool, user: Option<User>): (d: Decision)
    ensures d == Render <==> authenticated && user.Some? && user.value.role == AdminRole
    ensures d == Navigate("/login", true) <==> !authenticated
    ensures d == Navigate("/", true) <==> authenticated && user.Some? && user.value.role != AdminRole
    ensures d == Throw <==> authenticated && user.None?
  {
    if !authenticated then Navigate("/login", true)
    else if user.None? then Throw
    else if user.value.role != AdminRole then Navigate("/", true)
    else Render
  }
}
