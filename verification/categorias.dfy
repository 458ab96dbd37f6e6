/**
 The categories page: its two text fields, the submit payload (an update drops
 the id, a create sends the form as it is), the delete confirmation and the
 actions column.
 */
module Categorias {
  import opened Values
  import opened Session
  import opened Calls
  import CrudModal

  const Fields: seq<CrudModal.Field> := [
    CrudModal.Field("nombre", "Nombre", true, CrudModal.Text, [], false, None),
    CrudModal.Field("descripcion", "Descripción", true, CrudModal.Text, [], false, None)]

  /** Both fields are required text fields, so the modal never blocks the
      category form: what it passes on is exactly the cleaned buffer, and an
      empty name or description is dropped rather than refused. */
  lemma CategoryFormNeverBlocked(form: Form, parse: string -> JsNumber)
    ensures forall i :: 0 <= i < |Fields| ==> Fields[i].required && Fields[i].kind == CrudModal.Text
    ensures CrudModal.Names(Fields) == ["nombre", "descripcion"]
    ensures CrudModal.Submit(Fields, form, parse) == CrudModal.Submitted(CrudModal.Cleaned(form))
  {
    assert !CrudModal.AnyViolation(Fields, form, parse);
  }

  /** `onSubmit`: with a selection, `updateItem(selected.id_categoria, …)` with
      the form minus `id_categoria`; without one, `createItem(form)` with the
      form untouched. The modal closes, the selection stays. */
  function Submit(form: Form, selected: Option<Form>): (e: Effect)
    ensures e.closeModal && !e.clearSelection && |e.calls| == 1
    ensures selected.Some? ==>
              && e.calls[0].Update? && e.calls[0].id == Get(selected.value, "id_categoria")
              && e.calls[0].payload.Keys == form.Keys - {"id_categoria"}
              && forall k :: k in e.calls[0].payload ==> e.calls[0].payload[k] == form[k]
    ensures selected.None? ==> e.calls[0] == Create(form)
  {
    Effect([Save(selected, "id_categoria", Without(form, {"id_categoria"}), form)], true, false)
  }

  /** Editing a category and creating one send the same thing apart from the
      id: adding `id_categoria` to the form changes nothing in an update, and
      an update's payload is a create's payload with the id removed. */
  lemma UpdateIgnoresFormId(form: Form, selected: Form, id: Value)
    ensures Submit(form["id_categoria" := id], Some(selected)) == Submit(form, Some(selected))
    ensures Submit(form, Some(selected)).calls[0].payload
            == Submit(form, None).calls[0].payload - {"id_categoria"}
  {
    assert form["id_categoria" := id] - {"id_categoria"} == form - {"id_categoria"};
  }

  /** The delete confirmation and the edit form of one selection act on the
      same category. */
  lemma DeleteTargetsEditedCategory(form: Form, selected: Form)
    ensures ConfirmDelete(Some(selected)).calls[0].id == Submit(form, Some(selected)).calls[0].id
  {
  }

  /** The delete confirmation: `deleteItem(selected.id_categoria)` when a
      category is selected; the dialog closes, the selection stays. */
  function ConfirmDelete(selected: Option<Form>): (e: Effect)
    ensures e.closeModal && !e.clearSelection
    ensures selected.None? <==> e.calls == []
    ensures selected.Some? ==> e.calls == [Delete(Get(selected.value, "id_categoria"))]
  {
    Effect(DeleteSelected(selected, "id_categoria"), true, false)
  }

  const ActionPermissions: seq<string> := ["editar_categorias", "eliminar_categorias"]

  /** `mostrarColumnaAcciones` */
  function MostrarAcciones(user: Option<User>): (r: bool)
    ensures r <==> HoldsAny(user, ActionPermissions)
  {
    var r := Holds(user, "editar_categorias") || Holds(user, "eliminar_categorias");
    assert r ==> HoldsAny(user, ActionPermissions) by {
      if Holds(user, "editar_categorias") { assert Holds(user, ActionPermissions[0]); }
      else if Holds(user, "eliminar_categorias") { assert Holds(user, ActionPermissions[1]); }
    }
    r
  }
}
