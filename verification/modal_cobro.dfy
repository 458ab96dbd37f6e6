/**
 The charge dialog of an order: which payment methods need a reference, when
 a confirmation emits an invoice request and what it carries, the reset of the
 reference on a method change, the submitting flag, and the confirm button's
 enable rule. The payment-method list is an input (it is fetched on mount).
 */
module ModalCobro {
  import opened Values
  import opened Entities

  /** The dialog's state: the fetched methods, the selected method id (`''` for
      none), the typed reference and whether a confirmation is in flight. */
  datatype CobroState = CobroState(
    metodos: seq<MetodoPago>,
    seleccionado: string,
    referencia: string,
    enviando: bool)

  /** The invoice request handed to `onConfirm`. */
  datatype FacturaDto = FacturaDto(id_pedido: string, id_metodo: string, total: JsNumber,
                                   referencia_pago: string)

  datatype ConfirmResult =
    | AlertNoMethod
    | AlertNoReference
    | Emitted(dto: FacturaDto, next: CobroState)

  /** `metodos.find(m => m.id_metodo === id)`: the first method with that id. */
  function FindMetodo(metodos: seq<MetodoPago>, id: string): (r: Option<MetodoPago>)
    ensures r.None? <==> forall i :: 0 <= i < |metodos| ==> metodos[i].id_metodo != id
    ensures r.Some? ==> exists i :: 0 <= i < |metodos| && metodos[i] == r.value
                          && r.value.id_metodo == id
                          && forall j :: 0 <= j < i ==> metodos[j].id_metodo != id
  {
    if metodos == [] then None
    else if metodos[0].id_metodo == id then Some(metodos[0])
    else
      var r := FindMetodo(metodos[1..], id);
      assert r.Some? ==> exists i :: 1 <= i < |metodos| && metodos[i] == r.value
                           && r.value.id_metodo == id
                           && forall j :: 1 <= j < i ==> metodos[j].id_metodo != id;
      r
  }

  /** `String(infoMetodo?.tipo || '').toLowerCase()` */
  function TipoNormalizado(metodos: seq<MetodoPago>, seleccionado: string): string {
    match FindMetodo(metodos, seleccionado)
    case None => ""
    case Some(m) => Lower(m.tipo)
  }

  /** `requiereReferencia` */
  predicate RequiereReferencia(metodos: seq<MetodoPago>, seleccionado: string) {
    var t := TipoNormalizado(metodos, seleccionado);
    t == "tarjeta" || t == "transferencia"
  }

  /** A reference is required exactly when the selected id names a method whose
      type is `tarjeta` or `transferencia` in any letter case; an id no method
      has (in particular `''`, when no method has an empty id) needs none. */
  lemma RequiereReferenciaSpec(metodos: seq<MetodoPago>, seleccionado: string)
    ensures RequiereReferencia(metodos, seleccionado) <==>
              exists i :: 0 <= i < |metodos| && metodos[i].id_metodo == seleccionado
                && (forall j :: 0 <= j < i ==> metodos[j].id_metodo != seleccionado)
                && (SpellsIgnoringCase(metodos[i].tipo, "tarjeta")
                    || SpellsIgnoringCase(metodos[i].tipo, "transferencia"))
  {
    var found := FindMetodo(metodos, seleccionado);
    if found.Some? {
      var t := found.value.tipo;
      LowerMatchesLiteral(t, "tarjeta");
      LowerMatchesLiteral(t, "transferencia");
      var i :| 0 <= i < |metodos| && metodos[i] == found.value
                 && forall j :: 0 <= j < i ==> metodos[j].id_metodo != seleccionado;
      forall i' | 0 <= i' < |metodos| && metodos[i'].id_metodo == seleccionado
                  && (forall j :: 0 <= j < i' ==> metodos[j].id_metodo != seleccionado)
        ensures i' == i
      {
      }
    }
  }

  /** `handleConfirm`: without a method, an alert; with a required reference
      that is empty after trimming, an alert; otherwise `onConfirm` receives
      the order id, the selected method, `Number(pedido.total)` and either the
      reference or `'EFECTIVO'`, and the dialog is submitting. */
  function Confirm(s: CobroState, pedido: Pedido, parse: string -> JsNumber): (r: ConfirmResult)
    ensures r.AlertNoMethod? <==> s.seleccionado == ""
    ensures r.AlertNoReference? <==>
              s.seleccionado != "" && RequiereReferencia(s.metodos, s.seleccionado)
              && AllWhitespace(s.referencia)
    ensures r.Emitted? ==>
              && r.dto.id_pedido == pedido.id_pedido
              && r.dto.id_metodo == s.seleccionado
              && r.dto.total == ToNumber(pedido.total, parse)
              && (RequiereReferencia(s.metodos, s.seleccionado) ==> r.dto.referencia_pago == s.referencia)
              && (!RequiereReferencia(s.metodos, s.seleccionado) ==> r.dto.referencia_pago == "EFECTIVO")
              && r.next == s.(enviando := true)
  {
    TrimEmptyIffWhitespace(s.referencia);
    if s.seleccionado == "" then AlertNoMethod
    else
      var requiere := RequiereReferencia(s.metodos, s.seleccionado);
      if requiere && Trim(s.referencia) == "" then AlertNoReference
      else
        var dto := FacturaDto(pedido.id_pedido, s.seleccionado, ToNumber(pedido.total, parse),
                              if requiere then s.referencia else "EFECTIVO");
        Emitted(dto, s.(enviando := true))
  }

  /** The `finally` after `onConfirm` settles. It runs the same way whether
      the confirmation resolved or threw, so the outcome is not a parameter. */
  function Settle(s: CobroState): (r: CobroState)
    ensures !r.enviando
    ensures r.(enviando := s.enviando) == s
  {
    s.(enviando := false)
  }

  /** The method select's change handler: stores the id and clears the reference. */
  function SelectMetodo(s: CobroState, id: string): (r: CobroState)
    ensures r.seleccionado == id && r.referencia == ""
    ensures r.metodos == s.metodos && r.enviando == s.enviando
  {
    s.(seleccionado := id, referencia := "")
  }

  /** The reference input's change handler. */
  function TypeReferencia(s: CobroState, text: string): (r: CobroState)
    ensures r.referencia == text
    ensures r.(referencia := s.referencia) == s
  {
    s.(referencia := text)
  }

  /** Only the last text typed counts, and choosing a method throws away
      whatever reference was typed before. */
  lemma TypedReferenceDiscardedBySelect(s: CobroState, a: string, b: string, id: string)
    ensures TypeReferencia(TypeReferencia(s, a), b) == TypeReferencia(s, b)
    ensures SelectMetodo(TypeReferencia(s, a), id) == SelectMetodo(s, id)
  {
  }

  /** The confirm button is disabled without a method, while a required
      reference is empty (untrimmed), and while submitting. */
  predicate ConfirmDisabled(s: CobroState) {
    s.seleccionado == "" || (RequiereReferencia(s.metodos, s.seleccionado) && s.referencia == "")
    || s.enviando
  }

  /** Whatever the method, a confirmation that got past the checks leaves the
      dialog not submitting once it settles, on success and on failure. */
  lemma SubmittingEndsAfterConfirm(s: CobroState, pedido: Pedido, parse: string -> JsNumber)
    requires Confirm(s, pedido, parse).Emitted?
    ensures Confirm(s, pedido, parse).next.enviando
    ensures !Settle(Confirm(s, pedido, parse).next).enviando
    ensures Settle(Confirm(s, pedido, parse).next) == s.(enviando := false)
  {
  }

  /** Changing the method always asks for the reference again: right after a
      change to a method that needs one, the button is disabled and a
      confirmation alerts. */
  lemma MethodChangeRequiresNewReference(s: CobroState, id: string, pedido: Pedido,
                                         parse: string -> JsNumber)
    requires id != "" && RequiereReferencia(s.metodos, id)
    ensures ConfirmDisabled(SelectMetodo(s, id))
    ensures Confirm(SelectMetodo(s, id), pedido, parse) == AlertNoReference
  {
  }

  /** An enabled button emits unless the reference is whitespace only: then the
      button is enabled yet the confirmation alerts. */
  lemma EnabledButtonEmits(s: CobroState, pedido: Pedido, parse: string -> JsNumber)
    requires !ConfirmDisabled(s)
    ensures Confirm(s, pedido, parse).Emitted? <==>
              !(RequiereReferencia(s.metodos, s.seleccionado) && AllWhitespace(s.referencia))
  {
  }

  /** The whitespace-only reference case on concrete data. */
  lemma WhitespaceReferenceGap(parse: string -> JsNumber)
    ensures var s := CobroState([MetodoPago("m1", "Tarjeta")], "m1", " ", false);
            && !ConfirmDisabled(s)
            && Confirm(s, Pedido("p1", "ENTREGADO", Num(Finite(10.0))), parse) == AlertNoReference
  {
    var s := CobroState([MetodoPago("m1", "Tarjeta")], "m1", " ", false);
    assert Lower("Tarjeta") == "tarjeta";
    assert RequiereReferencia(s.metodos, s.seleccionado);
    assert AllWhitespace(" ");
  }
}
