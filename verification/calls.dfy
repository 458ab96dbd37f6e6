/**
 The calls a page hands to its resource binder (`createItem`, `updateItem`,
 `deleteItem`, `refresh`) or to a resource client (`updateStock`). They are
 recorded as values, not performed: what the binder then does with its list is
 not part of this model.
 */
module Calls {
  import opened Values

  datatype Call =
    | Create(payload: Form)
    | Update(id: Value, payload: Form)
    | UpdateStock(id: Value, quantity: JsNumber)
    | Delete(id: Value)
    | Refresh

  /** What one handler does: the calls it issues, in order, and whether it
      closes its modal and clears the page's selection. */
  datatype Effect = Effect(calls: seq<Call>, closeModal: bool, clearSelection: bool)

  /** The result of awaiting planned calls one after another. */
  datatype Run = Run(issued: seq<Call>, completed: bool)

  /** Awaits `planned` in order; `rejects(c)` says whether the server rejects `c`.
      The first rejection is thrown out of the chain, so the calls after it are
      never issued and `completed` is false. */
  function Execute(planned: seq<Call>, rejects: Call -> bool): (r: Run)
    ensures r.issued <= planned
    ensures r.completed <==> forall i :: 0 <= i < |planned| ==> !rejects(planned[i])
    ensures r.completed ==> r.issued == planned
    ensures !r.completed ==> r.issued != [] && rejects(r.issued[|r.issued| - 1])
    ensures forall i :: 0 <= i < |r.issued| - 1 ==> !rejects(r.issued[i])
  {
    if planned == [] then Run([], true)
    else if rejects(planned[0]) then Run([planned[0]], false)
    else
      var rest := Execute(planned[1..], rejects);
      Run([planned[0]] + rest.issued, rest.completed)
  }

  /** `selected ? updateItem(selected[idKey], forUpdate) : createItem(forCreate)` */
  function Save(selected: Option<Form>, idKey: string, forUpdate: Form, forCreate: Form): Call {
    if selected.Some? then Update(Get(selected.value, idKey), forUpdate) else Create(forCreate)
  }

  /** `if (selected) deleteItem(selected[idKey])` */
  function DeleteSelected(selected: Option<Form>, idKey: string): seq<Call> {
    if selected.Some? then [Delete(Get(selected.value, idKey))] else []
  }

  /** Object rest after destructuring: `const { k1, k2, ...rest } = form`. */
  function Without(form: Form, keys: set<string>): Form {
    form - keys
  }
}
