/** The two route guards: a signed-in session user, and a signed-in user whose role is owner. */
module Auth {
  import opened Base

  /** The two roles a user document may carry. */
  datatype Role = Student | Owner

  /** The identity stored in the session after signing in. */
  datatype SessionUser = SessionUser(id: Id, name: string, email: string, role: Role)

  /** The isAuthenticated guard lets a request through iff the session holds a user. */
  predicate IsAuthenticated(user: Option<SessionUser>)
  {
    user.Some?
  }

  /** The isOwner guard lets a request through iff the session holds a user whose role is owner. */
  predicate IsOwner(user: Option<SessionUser>)
  {
    user.Some? && user.value.role == Owner
  }

  /**
   * The status of a request after the guards of an owner-only route, run in route order
   * (isAuthenticated first, then isOwner); None means both let it through.
   */
  function OwnerGate(user: Option<SessionUser>): (r: Option<Status>)
    ensures r == None <==> user.Some? && user.value.role == Owner
    ensures user == None ==> r == Some(ToLogin)
    ensures user.Some? && user.value.role == Student ==> r == Some(Forbidden)
  {
    if !IsAuthenticated(user) then Some(ToLogin)
    else if !IsOwner(user) then Some(Forbidden)
    else None
  }
}
