/**
 The signed-in user as the pages and the route guard see it, and the two ways
 the console tests it: permission-list membership and a lower-cased role name.
 */
module Session {
  import opened Values

  /** `rol` is the role name; `permisos` the permission strings the user holds. */
  datatype User = User(rol: string, permisos: seq<string>)

  /** `user?.permisos.includes(p)`: false when nobody is signed in. */
  predicate Holds(user: Option<User>, p: string) {
    user.Some? && p in user.value.permisos
  }

  /** The user holds at least one of `ps`. */
  predicate HoldsAny(user: Option<User>, ps: seq<string>) {
    exists i :: 0 <= i < |ps| && Holds(user, ps[i])
  }

  /** `user?.rol.toLowerCase() === w`: false when nobody is signed in. */
  predicate RoleIs(user: Option<User>, w: string) {
    user.Some? && Lower(user.value.rol) == w
  }
}
