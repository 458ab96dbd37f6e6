# Restaurant POS admin console: decision logic in Dafny

This project models the decision logic of a React admin console for a
restaurant point of sale. The components compute a handful of small things
before any request leaves the browser:

- whether a route may be entered (`RoleRoute`);
- what the generic create/edit modal keeps in its edit buffer, when it
  refuses to submit, and what payload it hands on (`CrudModal`);
- when the charge dialog of an order may emit an invoice request, and what
  that request carries (`ModalCobro`);
- for each page (orders, dishes, ingredients, tables, users, branches,
  categories, recipes): which actions a user sees, which form fields are
  locked, and how a submitted form becomes a create, update, stock-update or
  delete call. On the recipes page this also covers how recipe lines are
  grouped under their dish.

Each of these is a pure Dafny function over immutable data. Its contract
states what the component promises, and lemmas relate the operations to one
another and to concrete cases.

How the model is laid out:

- `Values`: the JavaScript values a form holds and the coercions the
  decisions use.
  - `Number(v)` takes the string-to-number conversion as a parameter `parse`.
  - NaN and the infinities are explicit, so `<` and `<=` are false for NaN,
    as in JavaScript.
  - Also here: `String(v) === 'true'`, `toLowerCase()` and `trim()` with the
    ECMAScript whitespace set.
- `Session`: the signed-in user and the permission and role tests.
- `Entities`: the typed records some pages read.
- `Calls`: the requests a handler issues, recorded as values.
  - A handler's result is an `Effect`: the calls issued, and whether it
    closes its dialog and clears the selection.
  - Handlers that await their calls one after another run through
    `Calls.Execute`, which is given a `rejects` oracle saying which calls the
    server rejects.
- One module per component: `CrudModal`, `RoleRoute`, `ModalCobro`,
  `Pedidos`, `Platos`, `Ingredientes`, `Mesas`, `Usuarios`, `Sucursales`,
  `Categorias`, `Recetas`.

Two details of the modal that are easy to misread:

- `required` only decorates the label and the input. A missing required
  field is not rejected: an empty required field is submitted, and the
  cleanup then drops it (`CrudModal.RequiredIsNotEnforced`).
- The cleanup spares empty identifier keys, and an identifier key is exactly
  `_id` or a key that starts with `id_`. Keys such as `rol_id` are ordinary
  keys.

## Model

| member | source | states |
|---|---|---|
| CrudModal.BufferAfterOpen | src/components/modal/CrudModal.tsx:35-39 | when the open effect runs (only after `open` or `initialData` changed) on an open modal the buffer becomes `initialData`, or the empty map when none is given; on a closed modal it leaves the buffer alone |
| CrudModal.TypedEditsSurviveRerender | src/components/modal/CrudModal.tsx:35-39 | a re-render with the same `open` and `initialData` keeps typed edits; reopening discards them and seeds the buffer again, whatever it held |
| CrudModal.HandleChange | src/components/modal/CrudModal.tsx:43-56 | for a number field `''` is stored as `''`, a parsed value below `min ?? 0` leaves the buffer unchanged, any other parsed value is stored as a number; without a number config the raw string is stored; no other key changes |
| CrudModal.OnFieldInput | src/components/modal/CrudModal.tsx:112-130 | a select passes no field config, so its value is stored as the raw string and never coerced; any other enabled control runs `handleChange` with its own descriptor; a disabled control changes nothing; other keys are untouched |
| CrudModal.Submit | src/components/modal/CrudModal.tsx:58-83 | submission is blocked exactly when some number field holds a non-`''` value below its minimum; otherwise the payload keeps a key iff it is `_id`, starts with `id_`, or holds something other than undefined, null or `''`, and every kept value is unchanged |
| CrudModal.CleanedIdempotent | src/components/modal/CrudModal.tsx:73-80 | cleaning twice equals cleaning once, and the kept keys are a subset of the buffer's, whether or not a field describes them |
| CrudModal.CleanupKeepsFalsyValues | src/components/modal/CrudModal.tsx:73-80 | `0` and `false` survive the cleanup, and so does an empty `id_x` or a null `_id`; an empty or null ordinary key is dropped |
| CrudModal.CleanupExample | src/components/modal/CrudModal.tsx:73-82 | `{id_x: "123", nombre: "", precio: 10}` is handed on as `{id_x: "123", precio: 10}` |
| CrudModal.KeystrokeKeepsBufferValid | src/components/modal/CrudModal.tsx:43-66 | a keystroke in any rendered field never makes a valid buffer fail the pre-submit check |
| CrudModal.BlockedUntilOffenderChanges | src/components/modal/CrudModal.tsx:59-71 | a blocked submit stays blocked after any change to another field, and after a rejected keystroke in the offending field, so resubmitting without a fix still rejects |
| CrudModal.RequiredIsNotEnforced | src/components/modal/CrudModal.tsx:58-83 | an empty required text field does not block the submit; it is dropped from the payload |
| CrudModal.Render | src/components/modal/CrudModal.tsx:41-161 | nothing is rendered while closed; the close control is always there; with custom children there are no field controls, no Cancel and no Save, so submit is unreachable; otherwise one control per field, in order, with its disabled flag and select-or-input kind |
| CrudModal.RenderAgreesWithInput | src/components/modal/CrudModal.tsx:112-130 | a control rendered disabled ignores all input, and an enabled select stores the chosen value under its field's name |
| RoleRoute.Guard | src/auth/RoleRoute.tsx:9-30 | loading renders nothing whatever else holds; then no user redirects to login; then a role list that lacks the exact role, or a permission list none of whose entries the user holds, redirects to unauthorized; every other case renders the outlet |
| RoleRoute.EmptyListsDeny | src/auth/RoleRoute.tsx:19-27 | an empty role list or an empty permission list turns every signed-in user away |
| RoleRoute.RoleCheckIsCaseSensitive | src/auth/RoleRoute.tsx:19-21 | role `Admin` is refused by a route for `admin` |
| RoleRoute.PermissionExamples | src/auth/RoleRoute.tsx:25-27 | `["ver_mesas"]` refuses a user holding only `ver_pedidos`; `["a","b"]` admits a user holding only `b` |
| RoleRoute.GuardMonotoneInPermissions | src/auth/RoleRoute.tsx:25-29 | gaining permissions never takes away access to a route the user could enter |
| RoleRoute.BothChecksApply | src/auth/RoleRoute.tsx:19-27 | with both lists given, passing only one of the two checks is refused |
| Values.LowerMatchesLiteral | src/pages/Pedidos.tsx:29 | comparing the lower-cased role with a lower-case literal is spelling the literal in any letter case |
| Values.TrimEmptyIffWhitespace | src/components/modal/ModalCobro.tsx:41 | a trimmed string is empty exactly when every character is whitespace |
| ModalCobro.FindMetodo | src/components/modal/ModalCobro.tsx:33 | the result is the first method with the selected id, and is absent exactly when no method has it |
| ModalCobro.RequiereReferenciaSpec | src/components/modal/ModalCobro.tsx:33-36 | a reference is required exactly when the first method with the selected id has type `tarjeta` or `transferencia` in any letter case; an id no method has requires none, and so does the empty selection unless some method has the id `''` |
| ModalCobro.Confirm | src/components/modal/ModalCobro.tsx:38-53 | no method alerts; a required reference that trims to empty alerts; otherwise the request carries the order id, the selected method, `Number(total)` and the reference when required or `EFECTIVO` otherwise, and the dialog becomes submitting |
| ModalCobro.Settle | src/components/modal/ModalCobro.tsx:54-58 | after the confirmation settles, resolved or thrown, the dialog is not submitting and nothing else changed |
| ModalCobro.SelectMetodo | src/components/modal/ModalCobro.tsx:86-89 | choosing a method stores it and resets the reference to `''` |
| ModalCobro.TypeReferencia | src/components/modal/ModalCobro.tsx:111 | typing changes the reference and nothing else |
| ModalCobro.TypedReferenceDiscardedBySelect | src/components/modal/ModalCobro.tsx:86-111 | only the last text typed counts, and choosing a method discards any reference typed before |
| ModalCobro.SubmittingEndsAfterConfirm | src/components/modal/ModalCobro.tsx:45-58 | a confirmation that emitted is submitting until it settles, and afterwards the dialog is back to its state before with submitting off |
| ModalCobro.MethodChangeRequiresNewReference | src/components/modal/ModalCobro.tsx:86-121 | right after switching to a method that needs a reference, the confirm button is disabled and a confirmation alerts |
| ModalCobro.EnabledButtonEmits | src/components/modal/ModalCobro.tsx:38-121 | when the confirm button is enabled, the request is emitted unless a required reference is whitespace only |
| ModalCobro.WhitespaceReferenceGap | src/components/modal/ModalCobro.tsx:41-43 | a card payment with reference `" "` has the button enabled, yet confirming alerts |
| Pedidos.MostrarAcciones | src/pages/Pedidos.tsx:30-35 | the actions column exists iff the user holds one of `editar_pedidos`, `cancelar_pedidos`, `ver_facturas`, `ver_detalles_pedidos` |
| Pedidos.ActionsFor | src/pages/Pedidos.tsx:117-148 | delete iff `cancelar_pedidos` and PENDIENTE; edit iff `editar_pedidos`, not a client and not PAGADO; charge iff `ver_facturas` and ENTREGADO; consumption iff `ver_detalles_pedidos`, targeting `/pedidos/{id}/detalle`; no actions at all without the column |
| Pedidos.PaidOrderIsReadOnly | src/pages/Pedidos.tsx:133-136 | a paid order shows no delete, edit or charge |
| Pedidos.CancelAndChargeExclusive | src/pages/Pedidos.tsx:133-136 | no row shows both cancel and charge |
| Pedidos.ClientNeverEdits | src/pages/Pedidos.tsx:134 | a user whose role spells `cliente` in any case never sees edit |
| Pedidos.ConfirmAnular | src/pages/Pedidos.tsx:178-182 | `deleteItem(id_pedido)` only with a selection; the dialog always closes and the selection is always cleared |
| Pedidos.CancelIssuedOnce | src/pages/Pedidos.tsx:133-182 | a second confirmation issues nothing, and a cancel a row offered targets that row's pending order |
| Platos.EmployeeNeverEditsAll | src/pages/Platos.tsx:20-21 | an employee role in any letter case is never a full editor; any other role is one iff it holds `editar_platos` |
| Platos.Fields | src/pages/Platos.tsx:42-84 | the fields are `nombre`, `descripcion`, `precio`, `disponible`, `id_categoria` in that order; when editing without full rights all but `disponible` are disabled, when creating none is; `precio` is a number field with minimum 0.01; `disponible` is a select of `true` and `false` that is never disabled |
| Platos.LockedFieldsKeepSeededValues | src/pages/Platos.tsx:42-84 | input to a locked menu field leaves the buffer as the dish was opened with, and nothing is locked when creating |
| Platos.ZeroPriceBlocked | src/pages/Platos.tsx:59-64 | price 0 blocks the submit, price 0.01 passes the price check |
| Platos.Submit | src/pages/Platos.tsx:192-211 | an employee sends exactly `{disponible: String(disponible) === 'true'}`; anyone else sends the form minus `id_plato`, `categoria`, `recetas` with numeric `precio` and boolean `disponible`; update of `selected.id_plato` or create; the modal closes and the selection clears |
| Platos.EmployeeOnlyChangesAvailability | src/pages/Platos.tsx:192-205 | an employee editing a dish has every menu field locked and sends only `disponible` |
| Platos.ConfirmDelete | src/pages/Platos.tsx:220-223 | `deleteItem(id_plato)` only with a selection; the dialog closes |
| Platos.DeleteTargetsEditedDish | src/pages/Platos.tsx:206-223 | the delete confirmation and the edit form of one selection target the same `id_plato` |
| Platos.EditCaption | src/pages/Platos.tsx:166 | the edit button reads `Disponibilidad` exactly for an employee and `Editar` for anyone else |
| Platos.ModalTitle | src/pages/Platos.tsx:189 | the title is `Actualizar Disponibilidad` exactly for an employee; otherwise `Editar Plato` with a selection and `Crear Plato` without |
| Platos.CaptionsMatchPayload | src/pages/Platos.tsx:166-205 | the button caption and the title announce availability exactly when the payload is `{disponible}` alone |
| Ingredientes.MostrarAcciones | src/pages/Ingredientes.tsx:29-32 | the actions column exists iff the user holds one of `editar_ingredientes`, `editar_stock_ingredientes`, `eliminar_ingredientes` |
| Ingredientes.EditButton | src/pages/Ingredientes.tsx:95-100 | the edit button is shown to full and stock-only editors, captioned `Editar` for full editors and `Actualizar Stock` otherwise |
| Ingredientes.StockCaptionIffStockUpdate | src/pages/Ingredientes.tsx:95-141 | the button reads `Actualizar Stock` exactly when saving an edit issues `updateStock` rather than `updateItem` |
| Ingredientes.Fields | src/pages/Ingredientes.tsx:34-53 | the fields are `nombre`, `unidad_medida`, `stock` in that order; editing without `editar_ingredientes` disables the first two; `stock` is a number field never disabled |
| Ingredientes.StockIsLowMeansAtMostFive | src/pages/Ingredientes.tsx:85 | a finite stock is marked low exactly when it is at most 5; NaN and +Infinity never are; a string is low exactly when its parse is |
| Ingredientes.StockIsLowExamples | src/pages/Ingredientes.tsx:85 | 5 is flagged low and 5.5 is not; a null stock counts as 0 and is low, a missing one is NaN and is not |
| Calls.Execute | src/pages/Ingredientes.tsx:122-156 | awaited calls run in order; the first rejection ends the chain after issuing the rejected call; the chain completes, with every planned call issued, exactly when none is rejected |
| Ingredientes.Submit | src/pages/Ingredientes.tsx:122-156 | a stock-only edit issues exactly `updateStock(id, Number(stock))` and, unless that is rejected, `refresh`, never `updateItem`; other edits issue one `updateItem` with the form minus `id_ingrediente` and `recetas`; create issues one `createItem` of the form; `stock` is numeric in both payloads; the modal closes only when no call was rejected |
| Ingredientes.ClearedStockSendsNaN | src/pages/Ingredientes.tsx:134-138 | a stock-only editor who clears the stock passes the modal's check, and `updateStock` is sent NaN |
| Ingredientes.ModalTitle | src/pages/Ingredientes.tsx:118 | the title is `Nuevo Ingrediente` exactly without a selection; with one, `Editar Ingrediente` for a full editor and `Actualizar Stock` for anyone else |
| Ingredientes.TitleMatchesSubmit | src/pages/Ingredientes.tsx:95-141 | for a user shown the edit button the title agrees with the button and reads `Actualizar Stock` exactly when saving issues `updateStock`; a user with neither editing permission would see that title over an `updateItem` save, but is shown no button |
| Ingredientes.ConfirmDelete | src/pages/Ingredientes.tsx:166-169 | `deleteItem(id_ingrediente)` only with a selection; the dialog closes |
| Ingredientes.DeleteTargetsEditedIngredient | src/pages/Ingredientes.tsx:122-169 | the delete confirmation and either edit path of one selection target the same `id_ingrediente` |
| Mesas.Fields | src/pages/Mesas.tsx:39-63 | the fields are `numero`, `capacidad`, `estado`, `id_sucursal` in that order, none disabled; `numero` and `capacidad` are number fields with minimum 1; the `estado` options are exactly Libre, Ocupada and Reservada; the branch options come from the fetched branches |
| Mesas.ZeroNumberOrCapacityBlocked | src/pages/Mesas.tsx:40-41 | a table number or capacity of 0 blocks the submit |
| Mesas.Submit | src/pages/Mesas.tsx:138-149 | the payload is the form minus `id_mesa` and `sucursal` (so `id_sucursal` is kept); update of `selected.id_mesa` or create; the modal closes |
| Mesas.PayloadIgnoresIdAndBranch | src/pages/Mesas.tsx:138-149 | update and create send the same payload, which does not depend on the form's `id_mesa` or `sucursal` |
| Mesas.DeleteTargetsEditedTable | src/pages/Mesas.tsx:138-161 | the delete confirmation and the edit form of one selection target the same `id_mesa` |
| Mesas.CreateTableZeroBlocked | src/pages/Mesas.tsx:40-41 | creating `{numero: 0, capacidad: 4, estado: "Libre", id_sucursal: "s1"}` is blocked and issues no call |
| Mesas.CreateTableOneSubmits | src/pages/Mesas.tsx:138-149 | after typing 1 into `numero`, that form passes, survives cleanup whole and is sent as the create call `{numero: 1, capacidad: 4, estado: "Libre", id_sucursal: "s1"}` |
| Mesas.ConfirmDelete | src/pages/Mesas.tsx:158-161 | `deleteItem(id_mesa)` only with a selection; the dialog closes |
| Mesas.MostrarAcciones | src/pages/Mesas.tsx:23-25 | the actions column exists iff the user holds `editar_mesas` or `eliminar_mesas` |
| Usuarios.MostrarAcciones | src/pages/Usuarios.tsx:24 | the actions column exists iff the user holds `gestionar_usuarios`; not when nobody is signed in |
| Usuarios.FieldsFor | src/pages/Usuarios.tsx:38-61 | both forms list `nombre`, `apellido`, `correo`, `telefono`, `direccion` and `contrasena`; the edit form also has a `rol_id` select over the fetched roles before the password, which is optional there and required on create; no field is numeric or disabled |
| Usuarios.UserFormNeverBlocked | src/pages/Usuarios.tsx:38-61 | neither user form can be blocked by the modal's numeric check |
| Usuarios.CleanPayload | src/pages/Usuarios.tsx:63-71 | exactly the entries whose value is not undefined, null or `''` are kept, unchanged, with no id exemption |
| Usuarios.CleanPayloadAbsorbsModalCleanup | src/pages/Usuarios.tsx:63-71 | the page cleanup is idempotent, absorbs the modal's cleanup, and keeps a subset of what the modal keeps |
| Usuarios.EmptyIdDroppedOnlyByPage | src/pages/Usuarios.tsx:63-71 | `_id: ''` survives the modal's cleanup but not the page's |
| Usuarios.Submit | src/pages/Usuarios.tsx:131-139 | an update targets `selected._id` with the cleaned form minus `_id` and `rol`; a create sends the cleaned form; every sent value is a non-empty form value; the modal closes |
| Usuarios.EmptyPasswordNotSent | src/pages/Usuarios.tsx:131-139 | an edit with an empty password sends no password, no `_id` and no `rol` |
| Usuarios.ConfirmDelete | src/pages/Usuarios.tsx:148-151 | `deleteItem(_id)` only with a selection; the dialog closes |
| Usuarios.DeleteTargetsEditedUser | src/pages/Usuarios.tsx:131-151 | the delete confirmation and the edit form of one selection target the same `_id` |
| Recetas.Filter | src/pages/Recetas.tsx:27-29 | a line is kept iff its dish id equals the given id |
| Recetas.FilterMultiplicity | src/pages/Recetas.tsx:27-29 | each linked line is kept as many times as it occurs |
| Recetas.FilterAppend | src/pages/Recetas.tsx:27-29 | the filter keeps recipe order |
| Recetas.FilterCons | src/pages/Recetas.tsx:27-29 | a linked line in front stays in front, an unlinked one is dropped |
| Recetas.SummaryOf | src/pages/Recetas.tsx:33-38 | a missing ingredient or an empty ingredient name gives `Insumo`; a missing ingredient gives unit `''`; id and quantity are carried over |
| Recetas.RowOfAppend | src/pages/Recetas.tsx:27-38 | a dish's summary over two runs of lines is the summary over the first followed by the second |
| Recetas.SummaryExamples | src/pages/Recetas.tsx:33-38 | a dish with no linked line has an empty summary, and a line without an ingredient is listed as `Insumo` with no unit |
| Recetas.Insert | src/pages/Recetas.tsx:40 | inserting into a name-ordered list keeps it ordered and adds exactly that row |
| Recetas.Sort | src/pages/Recetas.tsx:40 | the rows come out ordered by the collation of the dish names, as a permutation of the input |
| Recetas.TableData | src/pages/Recetas.tsx:25-41 | the table is ordered by dish name and is a permutation of the per-dish rows |
| Recetas.TableDataRows | src/pages/Recetas.tsx:26-39 | there is exactly one row per dish, every row belongs to a dish, and a row's summary lists its dish's linked lines in recipe order |
| Recetas.DeleteAll | src/pages/Recetas.tsx:43-54 | nothing happens without a selected dish; otherwise the dish's lines are deleted in recipe order, then a refresh follows and the dialog closes; the first rejected delete ends the handler with the dialog open and no refresh, every delete before it having succeeded |
| Recetas.DeleteAllOnlyTouchesDish | src/pages/Recetas.tsx:45-51 | every delete names a line of the selected dish, and when nothing is rejected every such line is deleted |
| Recetas.EditCaption | src/pages/Recetas.tsx:115 | the always-present edit button reads `EDITAR / GESTIONAR` for an admin and `VER INGREDIENTES` for anyone else |
| Recetas.AdminCaptionImpliesRole | src/pages/Recetas.tsx:57-115 | whoever is offered management passes the lower-casing `admin` test too, and only a role spelt in other letter cases passes that test without being offered it |
| Recetas.AdminCaptionIsCaseSensitive | src/pages/Recetas.tsx:57 | role `Admin` is not an admin here, although the lower-casing role tests of the other pages would accept it |
| Sucursales.BranchFormNeverBlocked | src/pages/Sucursales.tsx:26-30 | the three required text fields never block, and the modal hands on the cleaned buffer |
| Sucursales.Submit | src/pages/Sucursales.tsx:90-101 | the payload is the form minus `id_sucursal` and `mesas`; update of `selected.id_sucursal` or create; the modal closes |
| Sucursales.PayloadIgnoresIdAndTables | src/pages/Sucursales.tsx:90-101 | update and create send the same payload, which does not depend on the form's `id_sucursal` or `mesas` |
| Sucursales.DeleteTargetsEditedBranch | src/pages/Sucursales.tsx:90-113 | the delete confirmation and the edit form of one selection target the same `id_sucursal` |
| Sucursales.ConfirmDelete | src/pages/Sucursales.tsx:110-113 | `deleteItem(id_sucursal)` only with a selection; the dialog closes |
| Sucursales.MostrarAcciones | src/pages/Sucursales.tsx:22-24 | the actions column exists iff the user holds `editar_sucursales` or `eliminar_sucursales` |
| Categorias.CategoryFormNeverBlocked | src/pages/Categorias.tsx:25-28 | the two fields, `nombre` and `descripcion`, are required text fields; the modal never blocks them and hands on the cleaned buffer |
| Categorias.Submit | src/pages/Categorias.tsx:84-92 | an update sends the form minus `id_categoria` to `selected.id_categoria`; a create sends the form unchanged; the modal closes |
| Categorias.UpdateIgnoresFormId | src/pages/Categorias.tsx:85-89 | an update payload is the create payload without the id, whatever id the form holds |
| Categorias.DeleteTargetsEditedCategory | src/pages/Categorias.tsx:84-104 | the delete confirmation and the edit form of one selection target the same `id_categoria` |
| Categorias.ConfirmDelete | src/pages/Categorias.tsx:101-104 | `deleteItem(id_categoria)` only with a selection; the dialog closes |
| Categorias.MostrarAcciones | src/pages/Categorias.tsx:21-23 | the actions column exists iff the user holds `editar_categorias` or `eliminar_categorias` |

## Left out

- The `useCrud` resource binder and `ProtectedButton` are not part of this
  model. `createItem`, `updateItem`, `deleteItem`, `refresh` and
  `updateStock` are recorded as `Calls.Call` values. What the binder then
  does with its local list (append, replace, remove, error string) is not
  modelled.
- Network and storage I/O is not modelled:
  - the axios instance and its token interceptor;
  - the fetches of categories, branches, roles, dishes and payment methods,
    whose results are inputs here;
  - `alert`, `console.error` and `window.location.reload`.
  An alert is a result value (`ModalCobro.AlertNoMethod`,
  `CrudModal.Blocked`).
- Concurrency is not modelled: requests in flight at the same time and their
  interleavings. Awaited chains are sequential, and the server's verdict on
  each call is the `rejects` parameter.
- The orders page's invoice handler (`facturasApi.create` followed by a page
  reload) and its create/edit form (`PedidoForm`, whose source is not part of
  this model) are left out. The dialogs' open/close and cancel handlers are
  left out too. They only toggle flags.
- Facturas, Home, Sidebar, AppRoutes and AdminLayout are left out: display
  formatting, links and router configuration.
- JSX markup, CSS classes, captions and placeholders are left out, except
  the captions that tell which save path or which rights apply:
  `Ingredientes.EditButton`, `Ingredientes.ModalTitle`, `Platos.EditCaption`,
  `Platos.ModalTitle` and `Recetas.EditCaption`. The other conditional
  captions are left out: the client wording of the orders page's heading,
  subtitle and new-order button, and the create/edit titles of the other
  pages' modals. They change wording only.
- The number inputs' suppression of the `-` key is left out. It prevents
  typing, and the model covers what reaches the change handler.
- Values.Lower: lower-casing is ASCII only. Non-ASCII letters are left as
  they are. The roles compared are ASCII words.
- Values.JsNumber: a finite JavaScript number is an exact `real`, and so is
  a field's `min`. IEEE-754 rounding is not modelled. The decisions here are
  comparisons with small literals (0, 0.01, 1, 5) and copies of parsed values.
- CrudModal.AfterRender: React compares the effect's dependencies by
  reference; the model compares them by value. The pages pass the same
  selected record between renders, so the two agree there.
- Values.ToNumber: the string-to-number conversion is a parameter. Arrays
  are folded into `Obj`, which converts to NaN. In JavaScript an empty array
  converts to 0 and an array of one number to that number.
- Session.User: the permission list is always present. `RoleRoute` reads
  it through `?.`. A user object without a list would be refused by a route
  that declares permissions, and crash the pages. This case is not modelled.
- Recetas.Sort: `localeCompare` is a collation key (`string -> real`). The
  model proves order and permutation. It does not prove stability among
  dishes with equal names. The insertion sort used does keep their order.
- ModalCobro.Confirm: the method select's `disabled` state while the
  methods load is left out. Its list of methods is an input.
