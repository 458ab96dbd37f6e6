/**
 The orders page: its permission flags, whether the actions column exists,
 which buttons each order row shows given its `estado`, and the cancel
 confirmation.
 */
module Pedidos {
  import opened Values
  import opened Session
  import opened Entities
  import opened Calls

  /** The permissions that give the table its actions column. */
  const ActionPermissions: seq<string> :=
    ["editar_pedidos", "cancelar_pedidos", "ver_facturas", "ver_detalles_pedidos"]

  /** `esCliente` */
  predicate EsCliente(user: Option<User>) {
    RoleIs(user, "cliente")
  }

  /** `mostrarAcciones`: the four permission flags or-ed together. */
  function MostrarAcciones(user: Option<User>): (r: bool)
    ensures r <==> HoldsAny(user, ActionPermissions)
  {
    var r := Holds(user, "editar_pedidos") || Holds(user, "cancelar_pedidos")
             || Holds(user, "ver_facturas") || Holds(user, "ver_detalles_pedidos");
    assert r ==> HoldsAny(user, ActionPermissions) by {
      if Holds(user, "editar_pedidos") { assert Holds(user, ActionPermissions[0]); }
      else if Holds(user, "cancelar_pedidos") { assert Holds(user, ActionPermissions[1]); }
      else if Holds(user, "ver_facturas") { assert Holds(user, ActionPermissions[2]); }
      else if Holds(user, "ver_detalles_pedidos") { assert Holds(user, ActionPermissions[3]); }
    }
    r
  }

  /** The controls of one order row: the consumption link's target, if shown,
      and whether delete, edit and charge are shown. */
  datatype RowActions = RowActions(consumo: Option<string>, showDelete: bool, showEdit: bool,
                                   showCobrar: bool)

  /** `/pedidos/{id}/detalle` */
  function DetallePath(id_pedido: string): string {
    "/pedidos/" + id_pedido + "/detalle"
  }

  /** The row's actions, or none when the table has no actions column. */
  function ActionsFor(user: Option<User>, pedido: Pedido): (r: Option<RowActions>)
    ensures r.None? <==> !HoldsAny(user, ActionPermissions)
    ensures r.Some? ==>
              && (r.value.consumo.Some? <==> Holds(user, "ver_detalles_pedidos"))
              && (r.value.consumo.Some? ==> r.value.consumo.value == DetallePath(pedido.id_pedido))
              && (r.value.showDelete <==> Holds(user, "cancelar_pedidos") && pedido.estado == "PENDIENTE")
              && (r.value.showEdit <==>
                    Holds(user, "editar_pedidos") && !EsCliente(user) && pedido.estado != "PAGADO")
              && (r.value.showCobrar <==> Holds(user, "ver_facturas") && pedido.estado == "ENTREGADO")
  {
    if !MostrarAcciones(user) then None
    else
      Some(RowActions(
        if Holds(user, "ver_detalles_pedidos") then Some(DetallePath(pedido.id_pedido)) else None,
        Holds(user, "cancelar_pedidos") && pedido.estado == "PENDIENTE",
        Holds(user, "editar_pedidos") && !EsCliente(user) && pedido.estado != "PAGADO",
        Holds(user, "ver_facturas") && pedido.estado == "ENTREGADO"))
  }

  /** A paid order offers nothing that changes it: no delete, no edit, no
      charge; at most the consumption link. */
  lemma PaidOrderIsReadOnly(user: Option<User>, pedido: Pedido)
    requires pedido.estado == "PAGADO"
    ensures var r := ActionsFor(user, pedido);
            r.Some? ==> !r.value.showDelete && !r.value.showEdit && !r.value.showCobrar
  {
  }

  /** No row ever offers both cancelling and charging: the first needs a
      pending order, the second a delivered one. */
  lemma CancelAndChargeExclusive(user: Option<User>, pedido: Pedido)
    ensures var r := ActionsFor(user, pedido);
            r.Some? ==> !(r.value.showDelete && r.value.showCobrar)
  {
  }

  /** A client never sees the edit button, whatever their permissions, and the
      role test ignores letter case. */
  lemma ClientNeverEdits(u: User, pedido: Pedido)
    requires SpellsIgnoringCase(u.rol, "cliente")
    ensures var r := ActionsFor(Some(u), pedido);
            r.Some? ==> !r.value.showEdit
  {
    LowerMatchesLiteral(u.rol, "cliente");
  }

  /** The cancel confirmation: with a selection, one `deleteItem(id_pedido)`;
      in every case the dialog closes and the selection clears. */
  function ConfirmAnular(selected: Option<Pedido>): (e: Effect)
    ensures e.closeModal && e.clearSelection
    ensures selected.None? <==> e.calls == []
    ensures selected.Some? ==> e.calls == [Delete(Str(selected.value.id_pedido))]
  {
    var calls := if selected.Some? then [Delete(Str(selected.value.id_pedido))] else [];
    Effect(calls, true, true)
  }

  /** The selection a handler leaves behind. */
  function SelectionAfter(e: Effect, selected: Option<Pedido>): Option<Pedido> {
    if e.clearSelection then None else selected
  }

  /** Confirming twice cancels once: the first confirmation clears the
      selection, so a second one issues nothing. And a cancel that a row
      offered targets that row's order, which is still pending. */
  lemma CancelIssuedOnce(user: Option<User>, pedido: Pedido, selected: Option<Pedido>)
    ensures ConfirmAnular(SelectionAfter(ConfirmAnular(selected), selected)).calls == []
    ensures var r := ActionsFor(user, pedido);
            r.Some? && r.value.showDelete ==>
              pedido.estado == "PENDIENTE" && ConfirmAnular(Some(pedido)).calls == [Delete(Str(pedido.id_pedido))]
  {
  }
}
