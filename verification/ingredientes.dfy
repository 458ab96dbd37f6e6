/**
 The ingredients page: permission flags, the actions column and edit button,
 which fields are locked, the low-stock marker, and the three ways a submitted
 form is sent (stock-only update, full update, create), awaited in order.
 */
module Ingredientes {
  import opened Values
  import opened Session
  import opened Calls
  import CrudModal

  predicate PuedeEditarTodo(user: Option<User>) {
    Holds(user, "editar_ingredientes")
  }

  predicate PuedeEditarStock(user: Option<User>) {
    Holds(user, "editar_stock_ingredientes")
  }

  predicate PuedeEliminar(user: Option<User>) {
    Holds(user, "eliminar_ingredientes")
  }

  const ActionPermissions: seq<string> :=
    ["editar_ingredientes", "editar_stock_ingredientes", "eliminar_ingredientes"]

  /** `mostrarAcciones` */
  function MostrarAcciones(user: Option<User>): (r: bool)
    ensures r <==> HoldsAny(user, ActionPermissions)
  {
    var r := PuedeEditarTodo(user) || PuedeEditarStock(user) || PuedeEliminar(user);
    assert r ==> HoldsAny(user, ActionPermissions) by {
      if PuedeEditarTodo(user) { assert Holds(user, ActionPermissions[0]); }
      else if PuedeEditarStock(user) { assert Holds(user, ActionPermissions[1]); }
      else if PuedeEliminar(user) { assert Holds(user, ActionPermissions[2]); }
    }
    r
  }

  /** The row's edit button and its caption: shown to full and stock-only
      editors, captioned for what they may do. */
  function EditButton(user: Option<User>): (r: Option<string>)
    ensures r.Some? <==> PuedeEditarTodo(user) || PuedeEditarStock(user)
    ensures r.Some? && !PuedeEditarTodo(user) ==> r.value == "Actualizar Stock"
    ensures r.Some? && PuedeEditarTodo(user) ==> r.value == "Editar"
  {
    if PuedeEditarTodo(user) then Some("Editar")
    else if PuedeEditarStock(user) then Some("Actualizar Stock")
    else None
  }

  /** The modal's fields; `editing` is whether an ingredient is selected. */
  function Fields(editing: bool, puedeEditarTodo: bool): (fs: seq<CrudModal.Field>)
    ensures CrudModal.Names(fs) == ["nombre", "unidad_medida", "stock"]
    ensures CrudModal.DistinctNames(fs)
    ensures forall i :: 0 <= i < |fs| && fs[i].name in {"nombre", "unidad_medida"} ==>
              fs[i].disabled == (editing && !puedeEditarTodo)
    ensures forall i :: 0 <= i < |fs| && fs[i].name == "stock" ==>
              !fs[i].disabled && fs[i].kind == CrudModal.NumberInput
  {
    var locked := editing && !puedeEditarTodo;
    [ CrudModal.Field("nombre", "Nombre Ingrediente", true, CrudModal.Text, [], locked, None),
      CrudModal.Field("unidad_medida", "Unidad (kg, l, unidad)", true, CrudModal.Text, [], locked, None),
      CrudModal.Field("stock", "Cantidad en Stock", true, CrudModal.NumberInput, [], false, None) ]
  }

  /** `item.stock <= 5`, the red marker in the stock column. */
  predicate StockIsLow(stock: Value, parse: string -> JsNumber) {
    AtMost(ToNumber(stock, parse), 5.0)
  }

  /** The marker reads the stock as a number: a finite stock is low exactly when
      it is at most 5, NaN and +Infinity never are, and a numeric string is low
      exactly when its parse is. */
  lemma StockIsLowMeansAtMostFive(x: real, t: string, parse: string -> JsNumber)
    ensures StockIsLow(Num(Finite(x)), parse) <==> x <= 5.0
    ensures !StockIsLow(Num(NaN), parse) && !StockIsLow(Num(PosInfinity), parse)
    ensures StockIsLow(Str(t), parse) <==> StockIsLow(Num(parse(t)), parse)
  {
  }

  /** Five is low and anything above is not; a null stock reads as 0 and is
      low, a missing one reads as NaN and is not. */
  lemma StockIsLowExamples(parse: string -> JsNumber)
    ensures StockIsLow(Num(Finite(5.0)), parse) && !StockIsLow(Num(Finite(5.5)), parse)
    ensures StockIsLow(Null, parse) && !StockIsLow(Undefined, parse)
  {
  }

  /** The stock the handler sends: `Number(form.stock)`. */
  function StockOf(form: Form, parse: string -> JsNumber): JsNumber {
    ToNumber(Get(form, "stock"), parse)
  }

  /** The calls the handler means to await, in order. */
  function Planned(form: Form, user: Option<User>, selected: Option<Form>,
                   parse: string -> JsNumber): seq<Call>
  {
    var stock := StockOf(form, parse);
    if selected.Some? then
      var id := Get(selected.value, "id_ingrediente");
      if !PuedeEditarTodo(user) && PuedeEditarStock(user) then [UpdateStock(id, stock), Refresh]
      else [Update(id, Without(form, {"id_ingrediente", "recetas"})["stock" := Num(stock)])]
    else [Create(form["stock" := Num(stock)])]
  }

  /** `onSubmit`. A stock-only editor's edit awaits `updateStock(id, Number(stock))`
      then `refresh()`, and never `updateItem`; any other edit awaits one
      `updateItem` with the form minus `id_ingrediente` and `recetas`; a create
      awaits one `createItem` with the whole form. `stock` is numeric in both
      payloads. A rejected call ends the chain, and the modal closes only when
      no call was rejected. */
  function Submit(form: Form, user: Option<User>, selected: Option<Form>,
                  parse: string -> JsNumber, rejects: Call -> bool): (e: Effect)
    ensures !e.clearSelection
    ensures e.closeModal <==> forall i :: 0 <= i < |e.calls| ==> !rejects(e.calls[i])
    ensures e.calls != []
    ensures selected.Some? && !PuedeEditarTodo(user) && PuedeEditarStock(user) ==>
              var us := UpdateStock(Get(selected.value, "id_ingrediente"), StockOf(form, parse));
              e.calls == (if rejects(us) then [us] else [us, Refresh])
    ensures selected.Some? && (PuedeEditarTodo(user) || !PuedeEditarStock(user)) ==>
              && |e.calls| == 1 && e.calls[0].Update?
              && e.calls[0].id == Get(selected.value, "id_ingrediente")
              && e.calls[0].payload.Keys == form.Keys - {"id_ingrediente", "recetas"} + {"stock"}
    ensures selected.None? ==>
              |e.calls| == 1 && e.calls[0].Create? && e.calls[0].payload.Keys == form.Keys + {"stock"}
    ensures forall i :: 0 <= i < |e.calls| && (e.calls[i].Create? || e.calls[i].Update?) ==>
              && e.calls[i].payload["stock"] == Num(StockOf(form, parse))
              && forall k :: k in e.calls[i].payload && k != "stock" ==> e.calls[i].payload[k] == form[k]
  {
    var run := Execute(Planned(form, user, selected, parse), rejects);
    Effect(run.issued, run.completed, false)
  }

  /** The delete confirmation: `deleteItem(selected.id_ingrediente)` when an ingredient is
      selected; the dialog closes, the selection stays. */
  function ConfirmDelete(selected: Option<Form>): (e: Effect)
    ensures e.closeModal && !e.clearSelection
    ensures selected.None? <==> e.calls == []
    ensures selected.Some? ==> e.calls == [Delete(Get(selected.value, "id_ingrediente"))]
  {
    Effect(DeleteSelected(selected, "id_ingrediente"), true, false)
  }

  /** Clearing the stock of an ingredient and saving as a stock-only editor
      passes the modal's check (an empty number field is not below its
      minimum), the cleanup then drops the empty value, and `Number(undefined)`
      sends NaN as the new stock. */
  lemma ClearedStockSendsNaN(buffer: Form, u: User, selected: Form, parse: string -> JsNumber,
                             rejects: Call -> bool)
    requires !PuedeEditarTodo(Some(u)) && PuedeEditarStock(Some(u))
    requires "stock" in buffer && buffer["stock"] == Str("")
    ensures var s := CrudModal.Submit(Fields(true, false), buffer, parse);
            && s.Submitted?
            && Submit(s.payload, Some(u), Some(selected), parse, rejects).calls[0]
               == UpdateStock(Get(selected, "id_ingrediente"), NaN)
  {
    var s := CrudModal.Submit(Fields(true, false), buffer, parse);
    assert !CrudModal.IsIdKey("stock") by { assert "stock"[0] != "id_"[0]; }
    assert s.Submitted?;
    assert "stock" !in s.payload;
  }

  /** The caption on the edit button tells what saving will do: `Actualizar
      Stock` exactly when saving an edit issues `updateStock` rather than
      `updateItem`. */
  lemma StockCaptionIffStockUpdate(form: Form, user: Option<User>, selected: Form,
                                   parse: string -> JsNumber, rejects: Call -> bool)
    ensures EditButton(user) == Some("Actualizar Stock") <==>
            Submit(form, user, Some(selected), parse, rejects).calls[0].UpdateStock?
  {
  }

  /** The delete confirmation and the edit form of one selection act on the
      same ingredient. */
  lemma DeleteTargetsEditedIngredient(form: Form, user: Option<User>, selected: Form,
                                      parse: string -> JsNumber, rejects: Call -> bool)
    ensures ConfirmDelete(Some(selected)).calls[0].id
            == Submit(form, user, Some(selected), parse, rejects).calls[0].id
  {
  }

  /** The modal's title: `Nuevo Ingrediente` without a selection; with one,
      `Editar Ingrediente` for a full editor and `Actualizar Stock` for anyone
      else. */
  function ModalTitle(user: Option<User>, selected: Option<Form>): (t: string)
    ensures t == "Nuevo Ingrediente" <==> selected.None?
    ensures t == "Editar Ingrediente" <==> selected.Some? && PuedeEditarTodo(user)
    ensures t == "Actualizar Stock" <==> selected.Some? && !PuedeEditarTodo(user)
  {
    if selected.None? then "Nuevo Ingrediente"
    else if PuedeEditarTodo(user) then "Editar Ingrediente" else "Actualizar Stock"
  }

  /** For anyone shown the edit button, the modal's title agrees with the
      button's caption, and reads `Actualizar Stock` exactly when saving
      issues `updateStock`. Someone holding neither editing permission is
      shown no button; were the modal opened for them anyway, its title would
      announce a stock update while saving issues `updateItem`. */
  lemma TitleMatchesSubmit(form: Form, user: Option<User>, selected: Form,
                           parse: string -> JsNumber, rejects: Call -> bool)
    ensures EditButton(user).Some? ==>
              && ModalTitle(user, Some(selected)) != "Nuevo Ingrediente"
              && (ModalTitle(user, Some(selected)) == "Actualizar Stock" <==> EditButton(user) == Some("Actualizar Stock"))
              && (ModalTitle(user, Some(selected)) == "Actualizar Stock" <==>
                    Submit(form, user, Some(selected), parse, rejects).calls[0].UpdateStock?)
    ensures EditButton(user).None? ==>
              && ModalTitle(user, Some(selected)) == "Actualizar Stock"
              && Submit(form, user, Some(selected), parse, rejects).calls[0].Update?
  {
  }
}
