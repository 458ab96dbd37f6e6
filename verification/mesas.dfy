/**
 The tables page: the modal's fields (with their minimums and the fixed
 `estado` options), the submit payload, and the actions column.
 */
module Mesas {
  import opened Values
  import opened Session
  import opened Entities
  import opened Calls
  import CrudModal

  /** The fixed table states, shown and stored under the same word. */
  const EstadoOptions: seq<CrudModal.SelectOption> := [
    CrudModal.SelectOption("Libre", Str("Libre")),
    CrudModal.SelectOption("Ocupada", Str("Ocupada")),
    CrudModal.SelectOption("Reservada", Str("Reservada"))]

  function SucursalOptions(sucursales: seq<Sucursal>): seq<CrudModal.SelectOption> {
    seq(|sucursales|, i requires 0 <= i < |sucursales| =>
      CrudModal.SelectOption(sucursales[i].nombre, Str(sucursales[i].id_sucursal)))
  }

  /** The modal's fields, the branch options built from the fetched branches. */
  function Fields(sucursales: seq<Sucursal>): (fs: seq<CrudModal.Field>)
    ensures CrudModal.Names(fs) == ["numero", "capacidad", "estado", "id_sucursal"]
    ensures CrudModal.DistinctNames(fs)
    ensures forall i :: 0 <= i < |fs| ==> !fs[i].disabled
    ensures forall i :: 0 <= i < |fs| && fs[i].name in {"numero", "capacidad"} ==>
              fs[i].kind == CrudModal.NumberInput && CrudModal.MinOf(fs[i]) == 1.0
    ensures forall i :: 0 <= i < |fs| && fs[i].name == "estado" ==>
              fs[i].kind == CrudModal.Select && fs[i].options == EstadoOptions
    ensures forall i :: 0 <= i < |fs| && fs[i].name == "id_sucursal" ==>
              fs[i].kind == CrudModal.Select && fs[i].options == SucursalOptions(sucursales)
  {
    [ CrudModal.Field("numero", "Número de Mesa", true, CrudModal.NumberInput, [], false, Some(1.0)),
      CrudModal.Field("capacidad", "Capacidad (Personas)", true, CrudModal.NumberInput, [], false, Some(1.0)),
      CrudModal.Field("estado", "Estado de la Mesa", true, CrudModal.Select, EstadoOptions, false, None),
      CrudModal.Field("id_sucursal", "Asignar a Sucursal", true, CrudModal.Select,
                      SucursalOptions(sucursales), false, None) ]
  }

  /** A table number or capacity of 0 is below the minimum of 1 and blocks the
      submit. */
  lemma ZeroNumberOrCapacityBlocked(sucursales: seq<Sucursal>, form: Form, key: string,
                                    parse: string -> JsNumber)
    requires key == "numero" || key == "capacidad"
    ensures CrudModal.Submit(Fields(sucursales), form[key := Num(Finite(0.0))], parse).Blocked?
  {
    var i := if key == "numero" then 0 else 1;
    assert CrudModal.Violates(Fields(sucursales)[i], form[key := Num(Finite(0.0))], parse);
  }

  /** `onSubmit`: the form minus `id_mesa` and `sucursal` (so `id_sucursal` is
      sent), to `updateItem(selected.id_mesa, …)` with a selection and to
      `createItem` without one; the modal closes, the selection stays. */
  function Submit(form: Form, selected: Option<Form>): (e: Effect)
    ensures e.closeModal && !e.clearSelection && |e.calls| == 1
    ensures selected.Some? <==> e.calls[0].Update?
    ensures selected.Some? ==> e.calls[0].id == Get(selected.value, "id_mesa")
    ensures selected.None? ==> e.calls[0].Create?
    ensures e.calls[0].payload.Keys == form.Keys - {"id_mesa", "sucursal"}
    ensures forall k :: k in e.calls[0].payload ==> e.calls[0].payload[k] == form[k]
  {
    var payload := Without(form, {"id_mesa", "sucursal"});
    Effect([Save(selected, "id_mesa", payload, payload)], true, false)
  }

  /** The buffer of a new 4-seat table in branch `s1` whose number is
      `n`. */
  function ExampleBuffer(n: real): Form {
    map["numero" := Num(Finite(n)), "capacidad" := Num(Finite(4.0)),
        "estado" := Str("Libre"), "id_sucursal" := Str("s1")]
  }

  /** Creating table number 0 is blocked and issues nothing. */
  lemma CreateTableZeroBlocked(sucursales: seq<Sucursal>, parse: string -> JsNumber)
    ensures CrudModal.Submit(Fields(sucursales), ExampleBuffer(0.0), parse).Blocked?
  {
    assert CrudModal.Violates(Fields(sucursales)[0], ExampleBuffer(0.0), parse);
  }

  /** Creating table 0 and then typing 1 into the number input turns the
      buffer into the one with table number 1, which passes the check, survives
      the cleanup whole and is sent as the create call. */
  lemma CreateTableOneSubmits(sucursales: seq<Sucursal>, parse: string -> JsNumber)
    requires parse("1") == Finite(1.0)
    ensures CrudModal.OnFieldInput(ExampleBuffer(0.0), Fields(sucursales)[0], "1", parse)
            == ExampleBuffer(1.0)
    ensures CrudModal.Submit(Fields(sucursales), ExampleBuffer(1.0), parse)
            == CrudModal.Submitted(ExampleBuffer(1.0))
    ensures Submit(ExampleBuffer(1.0), None).calls == [Create(ExampleBuffer(1.0))]
  {
    var fs := Fields(sucursales);
    var b := ExampleBuffer(1.0);
    assert !Below(Finite(1.0), 1.0);
    assert CrudModal.HandleChange(ExampleBuffer(0.0), "numero", "1", Some(fs[0]), parse) == b;
    assert !CrudModal.Violates(fs[0], b, parse);
    assert !CrudModal.Violates(fs[1], b, parse);
    assert !CrudModal.AnyViolation(fs, b, parse);
    assert CrudModal.Cleaned(b) == b;
    assert Without(b, {"id_mesa", "sucursal"}) == b;
  }

  /** An update and a create send the same payload, and neither depends on
      the `id_mesa` or the nested `sucursal` the form holds: only the target of
      an update comes from the selection. */
  lemma PayloadIgnoresIdAndBranch(form: Form, selected: Form, k: string, v: Value)
    requires k == "id_mesa" || k == "sucursal"
    ensures Submit(form, Some(selected)).calls[0].payload == Submit(form, None).calls[0].payload
    ensures Submit(form[k := v], Some(selected)) == Submit(form, Some(selected))
    ensures Submit(form[k := v], None) == Submit(form, None)
  {
    assert form[k := v] - {"id_mesa", "sucursal"} == form - {"id_mesa", "sucursal"};
  }

  /** The delete confirmation and the edit form of one selection act on the
      same table. */
  lemma DeleteTargetsEditedTable(form: Form, selected: Form)
    ensures ConfirmDelete(Some(selected)).calls[0].id == Submit(form, Some(selected)).calls[0].id
  {
  }

  /** The delete confirmation: `deleteItem(selected.id_mesa)` when a table is
      selected; the dialog closes, the selection stays. */
  function ConfirmDelete(selected: Option<Form>): (e: Effect)
    ensures e.closeModal && !e.clearSelection
    ensures selected.None? <==> e.calls == []
    ensures selected.Some? ==> e.calls == [Delete(Get(selected.value, "id_mesa"))]
  {
    Effect(DeleteSelected(selected, "id_mesa"), true, false)
  }

  const ActionPermissions: seq<string> := ["editar_mesas", "eliminar_mesas"]

  /** `mostrarAcciones` */
  function MostrarAcciones(user: Option<User>): (r: bool)
    ensures r <==> HoldsAny(user, ActionPermissions)
  {
    var r := Holds(user, "editar_mesas") || Holds(user, "eliminar_mesas");
    assert r ==> HoldsAny(user, ActionPermissions) by {
      if Holds(user, "editar_mesas") { assert Holds(user, ActionPermissions[0]); }
      else if Holds(user, "eliminar_mesas") { assert Holds(user, ActionPermissions[1]); }
    }
    r
  }
}
