/**
 * The role middleware: no authenticated user gets 401; a user whose role
 * equals one of the roles the route lists goes through; anyone else gets 403.
 */
module CheckRole {
  import opened Wrappers

  datatype Outcome = Unauthorized | Forbidden | PassThrough

  /** The status of the answer the middleware itself builds. */
  function StatusCode(o: Outcome): int
    requires o != PassThrough
  {
    if o == Unauthorized then 401 else 403
  }

  /** The foreach over the listed roles, returning at the first exact match. */
  function RoleListed(role: string, roles: seq<string>): (r: bool)
    ensures r <==> exists i :: 0 <= i < |roles| && roles[i] == role
  {
    if roles == [] then false
    else if roles[0] == role then true
    else
      var rest := RoleListed(role, roles[1..]);
      assert rest <==> exists i :: 1 <= i < |roles| && roles[i] == role by {
        forall i | 1 <= i < |roles| ensures roles[i] == roles[1..][i - 1] { }
      }
      rest
  }

  /** handle(request, next, ...roles), where `userRole` is the role of the authenticated user, if any. */
  function Handle(userRole: Option<string>, roles: seq<string>): (r: Outcome)
    ensures r == Unauthorized <==> userRole.None?
    ensures r == PassThrough <==> userRole.Some? && userRole.value in roles
    ensures r == Forbidden <==> userRole.Some? && userRole.value !in roles
    ensures r != PassThrough ==> StatusCode(r) == if userRole.None? then 401 else 403
  {
    match userRole
    case None => Unauthorized
    case Some(role) => if RoleListed(role, roles) then PassThrough else Forbidden
  }

  /** With no listed role, every authenticated user is refused. */
  lemma EmptyRoleListForbids(role: string)
    ensures Handle(Some(role), []) == Forbidden
  {
  }

  /** Only which roles are listed matters, not their order or repetition. */
  lemma HandleIgnoresOrder(userRole: Option<string>, roles: seq<string>, others: seq<string>)
    requires forall x :: x in roles <==> x in others
    ensures Handle(userRole, roles) == Handle(userRole, others)
  {
  }
}
