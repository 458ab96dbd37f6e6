/**
 The route guard: given the optional role list and permission list a route
 declares, the session user and the session-loading flag, it renders nothing,
 redirects to the login page, redirects to the unauthorized page, or renders
 the nested routes.
 */
module RoleRoute {
  import opened Values
  import opened Session

  datatype Decision = RenderNothing | RedirectLogin | RedirectUnauthorized | RenderOutlet

  /** No role list, or the user's role is literally one of its entries. */
  predicate RoleAdmitted(roles: Option<seq<string>>, u: User) {
    roles.None? || u.rol in roles.value
  }

  /** No permission list, or the user holds at least one of its entries. */
  predicate PermissionAdmitted(permisos: Option<seq<string>>, u: User) {
    permisos.None? || HoldsAny(Some(u), permisos.value)
  }

  /** Loading suspends the decision; then a missing user goes to login; then a
      failed role check or a failed permission check goes to unauthorized; every
      other case renders the protected routes. */
  function Guard(roles: Option<seq<string>>, permisos: Option<seq<string>>,
                 user: Option<User>, loading: bool): (d: Decision)
    ensures d == RenderNothing <==> loading
    ensures d == RedirectLogin <==> !loading && user.None?
    ensures d == RenderOutlet <==>
              && !loading && user.Some?
              && RoleAdmitted(roles, user.value) && PermissionAdmitted(permisos, user.value)
    ensures d == RedirectUnauthorized <==>
              && !loading && user.Some?
              && !(RoleAdmitted(roles, user.value) && PermissionAdmitted(permisos, user.value))
  {
    if loading then RenderNothing
    else if user.None? then RedirectLogin
    else if roles.Some? && user.value.rol !in roles.value then RedirectUnauthorized
    else if permisos.Some? && !(exists p :: p in permisos.value && p in user.value.permisos) then
      RedirectUnauthorized
    else RenderOutlet
  }

  /** An empty role list, or an empty permission list, turns every signed-in
      user away. */
  lemma EmptyListsDeny(u: User, other: Option<seq<string>>)
    ensures Guard(Some([]), other, Some(u), false) == RedirectUnauthorized
    ensures Guard(other, Some([]), Some(u), false) == RedirectUnauthorized
  {
  }

  /** The role comparison is exact and case-sensitive. */
  lemma RoleCheckIsCaseSensitive()
    ensures Guard(Some(["admin"]), None, Some(User("Admin", [])), false) == RedirectUnauthorized
  {
    assert "Admin"[0] != "admin"[0];
  }

  /** Two permission lists: `["ver_mesas"]` turns away a
      user holding only `ver_pedidos`, and `["a", "b"]` admits a user holding
      only `b`. */
  lemma PermissionExamples()
    ensures Guard(None, Some(["ver_mesas"]), Some(User("mesero", ["ver_pedidos"])), false)
            == RedirectUnauthorized
    ensures Guard(None, Some(["a", "b"]), Some(User("cajero", ["b"])), false) == RenderOutlet
  {
    assert "ver_mesas"[4] != "ver_pedidos"[4];
    assert HoldsAny(Some(User("cajero", ["b"])), ["a", "b"]) by {
      assert Holds(Some(User("cajero", ["b"])), ["a", "b"][1]);
    }
  }

  /** More permissions never lose access: a user admitted by a route is still
      admitted after gaining permissions, with the same role. */
  lemma GuardMonotoneInPermissions(roles: Option<seq<string>>, permisos: Option<seq<string>>,
                                   u: User, more: seq<string>)
    requires Guard(roles, permisos, Some(u), false) == RenderOutlet
    ensures Guard(roles, permisos, Some(User(u.rol, u.permisos + more)), false) == RenderOutlet
  {
    var u' := User(u.rol, u.permisos + more);
    if permisos.Some? {
      var i :| 0 <= i < |permisos.value| && Holds(Some(u), permisos.value[i]);
      assert Holds(Some(u'), permisos.value[i]);
    }
  }

  /** Both lists must pass when both are given: a user whose role is listed
      but who holds none of the permissions is turned away, and so is a user
      holding a permission whose role is not listed. */
  lemma BothChecksApply(roles: seq<string>, permisos: seq<string>, u: User)
    requires (u.rol in roles) != HoldsAny(Some(u), permisos)
    ensures Guard(Some(roles), Some(permisos), Some(u), false) == RedirectUnauthorized
  {
  }
}
