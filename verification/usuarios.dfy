/**
 The users page: the create and edit field lists, the page's own payload
 cleanup (stricter than the modal's, it spares no id-like key), the submit and
 delete handlers and the actions column.
 */
module Usuarios {
  import opened Values
  import opened Session
  import opened Entities
  import opened Calls
  import CrudModal

  const ActionPermissions: seq<string> := ["gestionar_usuarios"]

  /** `mostrarAcciones`: the single master permission `gestionar_usuarios`;
      nobody signed in sees no actions. */
  function MostrarAcciones(user: Option<User>): (r: bool)
    ensures r <==> HoldsAny(user, ActionPermissions)
    ensures user.None? ==> !r
  {
    var r := Holds(user, "gestionar_usuarios");
    assert r ==> Holds(user, ActionPermissions[0]);
    r
  }

  /** The fields of the create form. */
  const CreateFields: seq<CrudModal.Field> := [
    CrudModal.Field("nombre", "Nombre", true, CrudModal.Text, [], false, None),
    CrudModal.Field("apellido", "Apellido", true, CrudModal.Text, [], false, None),
    CrudModal.Field("correo", "Correo", true, CrudModal.Text, [], false, None),
    CrudModal.Field("telefono", "Teléfono", false, CrudModal.Text, [], false, None),
    CrudModal.Field("direccion", "Dirección", false, CrudModal.Text, [], false, None),
    CrudModal.Field("contrasena", "Contraseña", true, CrudModal.Password, [], false, None)]

  function RoleOptions(roles: seq<Rol>): seq<CrudModal.SelectOption> {
    seq(|roles|, i requires 0 <= i < |roles| => CrudModal.SelectOption(roles[i].nombre, Str(roles[i].id_rol)))
  }

  /** The fields of the edit form, the role options built from the fetched roles. */
  function EditFields(roles: seq<Rol>): seq<CrudModal.Field> {
    [ CrudModal.Field("nombre", "Nombre", true, CrudModal.Text, [], false, None),
      CrudModal.Field("apellido", "Apellido", true, CrudModal.Text, [], false, None),
      CrudModal.Field("correo", "Correo", true, CrudModal.Text, [], false, None),
      CrudModal.Field("telefono", "Teléfono", false, CrudModal.Text, [], false, None),
      CrudModal.Field("direccion", "Dirección", false, CrudModal.Text, [], false, None),
      CrudModal.Field("rol_id", "Rol", true, CrudModal.Select, RoleOptions(roles), false, None),
      CrudModal.Field("contrasena", "Contraseña", false, CrudModal.Password, [], false, None) ]
  }

  /** `selected ? editFields : createFields` */
  function FieldsFor(selected: Option<Form>, roles: seq<Rol>): (fs: seq<CrudModal.Field>)
    ensures CrudModal.Names(fs) ==
              ["nombre", "apellido", "correo", "telefono", "direccion"]
              + (if selected.Some? then ["rol_id"] else []) + ["contrasena"]
    ensures CrudModal.DistinctNames(fs)
    ensures (exists i :: 0 <= i < |fs| && fs[i].name == "rol_id") <==> selected.Some?
    ensures forall i :: 0 <= i < |fs| && fs[i].name == "rol_id" ==>
              fs[i].kind == CrudModal.Select && fs[i].options == RoleOptions(roles)
    ensures forall i :: 0 <= i < |fs| ==> fs[i].kind != CrudModal.NumberInput && !fs[i].disabled
    ensures forall i :: 0 <= i < |fs| && fs[i].name == "contrasena" ==>
              fs[i].kind == CrudModal.Password && (fs[i].required <==> selected.None?)
  {
    var fs := if selected.Some? then EditFields(roles) else CreateFields;
    assert selected.Some? ==> fs[5].name == "rol_id";
    fs
  }

  /** No user form can be blocked by the modal: it has no number field. */
  lemma UserFormNeverBlocked(selected: Option<Form>, roles: seq<Rol>, form: Form,
                             parse: string -> JsNumber)
    ensures CrudModal.Submit(FieldsFor(selected, roles), form, parse).Submitted?
  {
  }

  /** `cleanPayload`: only the entries whose value is not undefined, null or `''`. */
  function CleanPayload(payload: Form): (r: Form)
    ensures forall k :: k in r <==> k in payload && !IsBlank(payload[k])
    ensures forall k :: k in r ==> r[k] == payload[k]
  {
    map k | k in payload && !IsBlank(payload[k]) :: payload[k]
  }

  /** The page's cleanup is idempotent, applying it after the modal's cleanup is
      the same as applying it alone, and it keeps a subset of what the modal's
      cleanup keeps. */
  lemma CleanPayloadAbsorbsModalCleanup(f: Form)
    ensures CleanPayload(CleanPayload(f)) == CleanPayload(f)
    ensures CleanPayload(CrudModal.Cleaned(f)) == CleanPayload(f)
    ensures CleanPayload(f).Keys <= CrudModal.Cleaned(f).Keys
  {
  }

  /** The two cleanups differ on an empty id-like key: the modal keeps `_id: ''`,
      the page drops it. */
  lemma EmptyIdDroppedOnlyByPage()
    ensures var f := map["_id" := Str("")];
            CrudModal.Cleaned(f) == f && CleanPayload(f) == map[]
  {
  }

  /** `onSubmit`. With a selection, `updateItem(selected._id, …)` receives the
      cleaned form without `_id` and `rol` (so `rol_id` is what is sent); without
      one, `createItem` receives the cleaned form. The modal closes and the
      selection stays. */
  function Submit(form: Form, selected: Option<Form>): (e: Effect)
    ensures e.closeModal && !e.clearSelection && |e.calls| == 1
    ensures selected.Some? ==>
              && e.calls[0].Update? && e.calls[0].id == Get(selected.value, "_id")
              && e.calls[0].payload == CleanPayload(form - {"_id", "rol"})
    ensures selected.None? ==> e.calls[0] == Create(CleanPayload(form))
    ensures forall k :: k in e.calls[0].payload ==>
              k in form && !IsBlank(form[k]) && e.calls[0].payload[k] == form[k]
  {
    Effect([Save(selected, "_id", CleanPayload(Without(form, {"_id", "rol"})), CleanPayload(form))],
           true, false)
  }

  /** Editing a user and leaving the password empty sends no password, so the
      stored one is kept; `_id` and `rol` are never part of an update. */
  lemma EmptyPasswordNotSent(form: Form, selected: Form)
    requires "contrasena" in form && form["contrasena"] == Str("")
    ensures var p := Submit(form, Some(selected)).calls[0].payload;
            "contrasena" !in p && "_id" !in p && "rol" !in p
  {
  }

  /** The delete confirmation: `deleteItem(selected._id)` when a user is
      selected; the dialog closes, the selection stays. */
  function ConfirmDelete(selected: Option<Form>): (e: Effect)
    ensures e.closeModal && !e.clearSelection
    ensures selected.None? <==> e.calls == []
    ensures selected.Some? ==> e.calls == [Delete(Get(selected.value, "_id"))]
  {
    Effect(DeleteSelected(selected, "_id"), true, false)
  }

  /** The delete confirmation and the edit form of one selection act on the
      same user. */
  lemma DeleteTargetsEditedUser(form: Form, selected: Form)
    ensures ConfirmDelete(Some(selected)).calls[0].id == Submit(form, Some(selected)).calls[0].id
  {
  }
}
