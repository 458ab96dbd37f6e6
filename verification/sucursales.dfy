/**
 The branches page: its three text fields, the submit payload (which never
 carries the branch's id or its tables), the delete confirmation and the
 actions column.
 */
module Sucursales {
  import opened Values
  import opened Session
  import opened Calls
  import CrudModal

  const Fields: seq<CrudModal.Field> := [
    CrudModal.Field("nombre", "Nombre de Sucursal", true, CrudModal.Text, [], false, None),
    CrudModal.Field("direccion", "Dirección", true, CrudModal.Text, [], false, None),
    CrudModal.Field("telefono", "Teléfono", true, CrudModal.Text, [], false, None)]

  /** The branch form has no number field, so the modal never blocks it, and
      what it passes on is exactly the cleaned buffer. */
  lemma BranchFormNeverBlocked(form: Form, parse: string -> JsNumber)
    ensures CrudModal.Submit(Fields, form, parse) == CrudModal.Submitted(CrudModal.Cleaned(form))
  {
    assert !CrudModal.AnyViolation(Fields, form, parse);
  }

  /** `onSubmit`: the form minus `id_sucursal` and `mesas`, to
      `updateItem(selected.id_sucursal, …)` with a selection and to `createItem`
      without one; the modal closes, the selection stays. */
  function Submit(form: Form, selected: Option<Form>): (e: Effect)
    ensures e.closeModal && !e.clearSelection && |e.calls| == 1
    ensures selected.Some? <==> e.calls[0].Update?
    ensures selected.Some? ==> e.calls[0].id == Get(selected.value, "id_sucursal")
    ensures selected.None? ==> e.calls[0].Create?
    ensures "id_sucursal" !in e.calls[0].payload && "mesas" !in e.calls[0].payload
    ensures forall k :: k in form && k != "id_sucursal" && k != "mesas" ==>
              k in e.calls[0].payload && e.calls[0].payload[k] == form[k]
    ensures e.calls[0].payload.Keys <= form.Keys
  {
    var payload := Without(form, {"id_sucursal", "mesas"});
    Effect([Save(selected, "id_sucursal", payload, payload)], true, false)
  }

  /** An update and a create send the same payload, and neither depends on
      the `id_sucursal` or the nested `mesas` the form holds: only the target
      of an update comes from the selection. */
  lemma PayloadIgnoresIdAndTables(form: Form, selected: Form, k: string, v: Value)
    requires k == "id_sucursal" || k == "mesas"
    ensures Submit(form, Some(selected)).calls[0].payload == Submit(form, None).calls[0].payload
    ensures Submit(form[k := v], Some(selected)) == Submit(form, Some(selected))
    ensures Submit(form[k := v], None) == Submit(form, None)
  {
    assert form[k := v] - {"id_sucursal", "mesas"} == form - {"id_sucursal", "mesas"};
  }

  /** The delete confirmation and the edit form of one selection act on the
      same branch. */
  lemma DeleteTargetsEditedBranch(form: Form, selected: Form)
    ensures ConfirmDelete(Some(selected)).calls[0].id == Submit(form, Some(selected)).calls[0].id
  {
  }

  /** The delete confirmation: `deleteItem(selected.id_sucursal)` when a branch
      is selected; the dialog closes, the selection stays. */
  function ConfirmDelete(selected: Option<Form>): (e: Effect)
    ensures e.closeModal && !e.clearSelection
    ensures selected.None? <==> e.calls == []
    ensures selected.Some? ==> e.calls == [Delete(Get(selected.value, "id_sucursal"))]
  {
    Effect(DeleteSelected(selected, "id_sucursal"), true, false)
  }

  const ActionPermissions: seq<string> := ["editar_sucursales", "eliminar_sucursales"]

  /** `mostrarAcciones` */
  function MostrarAcciones(user: Option<User>): (r: bool)
    ensures r <==> HoldsAny(user, ActionPermissions)
  {
    var r := Holds(user, "editar_sucursales") || Holds(user, "eliminar_sucursales");
    assert r ==> HoldsAny(user, ActionPermissions) by {
      if Holds(user, "editar_sucursales") { assert Holds(user, ActionPermissions[0]); }
      else if Holds(user, "eliminar_sucursales") { assert Holds(user, ActionPermissions[1]); }
    }
    r
  }
}
