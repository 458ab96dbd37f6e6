/**
 The dishes page: who may edit a dish fully, which modal fields are locked,
 and how the submitted form becomes a create or update call.
 */
module Platos {
  import opened Values
  import opened Session
  import opened Entities
  import opened Calls
  import CrudModal

  /** `puedeEditarTodo`: `editar_platos` held by someone whose role is not `empleado`. */
  predicate PuedeEditarTodo(user: Option<User>) {
    Holds(user, "editar_platos") && !RoleIs(user, "empleado")
  }

  /** `esEmpleado` */
  predicate EsEmpleado(user: Option<User>) {
    RoleIs(user, "empleado")
  }

  /** An employee, whatever the letter case of the role name, is never a full
      editor, even holding `editar_platos`; anyone else holding it is one. */
  lemma EmployeeNeverEditsAll(u: User)
    ensures SpellsIgnoringCase(u.rol, "empleado") ==> EsEmpleado(Some(u)) && !PuedeEditarTodo(Some(u))
    ensures !SpellsIgnoringCase(u.rol, "empleado") ==>
              (PuedeEditarTodo(Some(u)) <==> "editar_platos" in u.permisos)
  {
    LowerMatchesLiteral(u.rol, "empleado");
  }

  /** The names of the fields only a full editor may change once a dish exists. */
  const MenuFields: set<string> := {"nombre", "descripcion", "precio", "id_categoria"}

  function CategoryOptions(categorias: seq<Categoria>): seq<CrudModal.SelectOption> {
    seq(|categorias|, i requires 0 <= i < |categorias| =>
      CrudModal.SelectOption(categorias[i].nombre, Str(categorias[i].id_categoria)))
  }

  /** The modal's fields; `editing` is whether a dish is selected. */
  function Fields(editing: bool, puedeEditarTodo: bool, categorias: seq<Categoria>): (fs: seq<CrudModal.Field>)
    ensures CrudModal.Names(fs) == ["nombre", "descripcion", "precio", "disponible", "id_categoria"]
    ensures CrudModal.DistinctNames(fs)
    ensures forall i :: 0 <= i < |fs| ==> (fs[i].name in MenuFields || fs[i].name == "disponible")
    ensures forall i :: 0 <= i < |fs| && fs[i].name == "precio" ==>
              fs[i].kind == CrudModal.NumberInput && fs[i].min == Some(0.01)
    ensures forall i :: 0 <= i < |fs| && fs[i].name == "disponible" ==>
              fs[i].kind == CrudModal.Select
              && |fs[i].options| == 2 && fs[i].options[0].value == Bool(true)
              && fs[i].options[1].value == Bool(false)
    ensures forall i :: 0 <= i < |fs| && fs[i].name in MenuFields ==>
              fs[i].disabled == (editing && !puedeEditarTodo)
    ensures forall i :: 0 <= i < |fs| && fs[i].name == "disponible" ==> !fs[i].disabled
  {
    var locked := editing && !puedeEditarTodo;
    [ CrudModal.Field("nombre", "Nombre del Plato", true, CrudModal.Text, [], locked, None),
      CrudModal.Field("descripcion", "Descripción", true, CrudModal.Text, [], locked, None),
      CrudModal.Field("precio", "Precio", true, CrudModal.NumberInput, [], locked, Some(0.01)),
      CrudModal.Field("disponible", "¿Está Disponible?", false, CrudModal.Select,
                      [CrudModal.SelectOption("Sí (Disponible)", Bool(true)),
                       CrudModal.SelectOption("No (Agotado)", Bool(false))], false, None),
      CrudModal.Field("id_categoria", "Categoría", true, CrudModal.Select,
                      CategoryOptions(categorias), locked, None) ]
  }

  /** When creating nothing is locked; when editing without full rights every
      menu field ignores input, so it keeps the value the dish was opened with. */
  lemma LockedFieldsKeepSeededValues(puedeEditarTodo: bool, categorias: seq<Categoria>,
                                     form: Form, f: CrudModal.Field, input: string,
                                     parse: string -> JsNumber)
    requires f in Fields(true, puedeEditarTodo, categorias) && f.name in MenuFields
    ensures !puedeEditarTodo ==> CrudModal.OnFieldInput(form, f, input, parse) == form
    ensures forall g :: g in Fields(false, puedeEditarTodo, categorias) ==> !g.disabled
  {
  }

  /** A price of 0 (below the 0.01 minimum) blocks the submit; 0.01 passes. */
  lemma ZeroPriceBlocked(editing: bool, puedeEditarTodo: bool, categorias: seq<Categoria>,
                         form: Form, parse: string -> JsNumber)
    ensures CrudModal.Submit(Fields(editing, puedeEditarTodo, categorias),
                             form["precio" := Num(Finite(0.0))], parse).Blocked?
    ensures !CrudModal.Violates(Fields(editing, puedeEditarTodo, categorias)[2],
                                form["precio" := Num(Finite(0.01))], parse)
  {
    assert CrudModal.Violates(Fields(editing, puedeEditarTodo, categorias)[2],
                              form["precio" := Num(Finite(0.0))], parse);
  }

  /** `onSubmit`. An employee's payload is only the availability flag; anyone
      else's is the form without `id_plato`, `categoria` and `recetas`, with
      `precio` converted to a number and `disponible` to a boolean. With a
      selection the call updates the selected dish, else it creates one; the
      modal closes and the selection clears either way. */
  function Submit(form: Form, user: Option<User>, selected: Option<Form>,
                  parse: string -> JsNumber): (e: Effect)
    ensures e.closeModal && e.clearSelection && |e.calls| == 1
    ensures selected.Some? ==> e.calls[0].Update? && e.calls[0].id == Get(selected.value, "id_plato")
    ensures selected.None? ==> e.calls[0].Create?
    ensures var p := e.calls[0].payload;
            var disponible := Bool(StringIsTrue(Get(form, "disponible")));
            && (EsEmpleado(user) ==> p == map["disponible" := disponible])
            && (!EsEmpleado(user) ==>
                  && p.Keys == form.Keys - {"id_plato", "categoria", "recetas"} + {"precio", "disponible"}
                  && p["precio"] == Num(ToNumber(Get(form, "precio"), parse))
                  && p["disponible"] == disponible
                  && forall k :: k in p && k != "precio" && k != "disponible" ==> p[k] == form[k])
  {
    var rest := Without(form, {"id_plato", "categoria", "recetas"});
    var disponible := Bool(StringIsTrue(Get(rest, "disponible")));
    var payload :=
      if EsEmpleado(user) then map["disponible" := disponible]
      else rest["precio" := Num(ToNumber(Get(rest, "precio"), parse))]["disponible" := disponible];
    Effect([Save(selected, "id_plato", payload, payload)], true, true)
  }

  /** The delete confirmation: `deleteItem(selected.id_plato)` when a dish is
      selected; the dialog closes, the selection stays. */
  function ConfirmDelete(selected: Option<Form>): (e: Effect)
    ensures e.closeModal && !e.clearSelection
    ensures selected.None? <==> e.calls == []
    ensures selected.Some? ==> e.calls == [Delete(Get(selected.value, "id_plato"))]
  {
    Effect(DeleteSelected(selected, "id_plato"), true, false)
  }

  /** An employee can change nothing but availability: every menu field is
      locked when editing, and the payload carries no other key. */
  lemma EmployeeOnlyChangesAvailability(form: Form, u: User, selected: Form,
                                        categorias: seq<Categoria>, parse: string -> JsNumber)
    requires EsEmpleado(Some(u))
    ensures var fs := Fields(true, PuedeEditarTodo(Some(u)), categorias);
            forall i :: 0 <= i < |fs| && fs[i].name in MenuFields ==> fs[i].disabled
    ensures Submit(form, Some(u), Some(selected), parse).calls[0].payload.Keys == {"disponible"}
  {
  }

  /** The row's edit button, shown to everyone: `Disponibilidad` for an
      employee, `Editar` for anyone else. */
  function EditCaption(user: Option<User>): (c: string)
    ensures c == "Disponibilidad" <==> EsEmpleado(user)
    ensures c == "Editar" <==> !EsEmpleado(user)
  {
    if EsEmpleado(user) then "Disponibilidad" else "Editar"
  }

  /** The modal's title: `Actualizar Disponibilidad` for an employee, whether
      or not a dish is selected; otherwise `Editar Plato` with a selection and
      `Crear Plato` without one. */
  function ModalTitle(user: Option<User>, selected: Option<Form>): (t: string)
    ensures t == "Actualizar Disponibilidad" <==> EsEmpleado(user)
    ensures t == "Editar Plato" <==> !EsEmpleado(user) && selected.Some?
    ensures t == "Crear Plato" <==> !EsEmpleado(user) && selected.None?
  {
    if EsEmpleado(user) then "Actualizar Disponibilidad"
    else if selected.Some? then "Editar Plato" else "Crear Plato"
  }

  /** The captions tell what saving will send: the button reads
      `Disponibilidad`, and the title `Actualizar Disponibilidad`, exactly when
      the payload is the availability flag alone. */
  lemma CaptionsMatchPayload(form: Form, user: Option<User>, selected: Option<Form>,
                             parse: string -> JsNumber)
    ensures EditCaption(user) == "Disponibilidad" <==>
            Submit(form, user, selected, parse).calls[0].payload.Keys == {"disponible"}
    ensures ModalTitle(user, selected) == "Actualizar Disponibilidad" <==>
            Submit(form, user, selected, parse).calls[0].payload.Keys == {"disponible"}
  {
    var p := Submit(form, user, selected, parse).calls[0].payload;
    if !EsEmpleado(user) {
      assert "precio" in p;
    }
  }

  /** The delete confirmation and the edit form of one selection act on the
      same dish. */
  lemma DeleteTargetsEditedDish(form: Form, user: Option<User>, selected: Form,
                                parse: string -> JsNumber)
    ensures ConfirmDelete(Some(selected)).calls[0].id == Submit(form, user, Some(selected), parse).calls[0].id
  {
  }
}
