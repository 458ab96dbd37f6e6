/**
 The generic create/edit modal: its field descriptors, the edit buffer seeded
 when it opens, the per-keystroke handler, the pre-submit check of numeric
 minimums, the cleanup of the submitted payload, and which controls it renders.
 */
module CrudModal {
  import opened Values

  datatype FieldKind = Text | Password | Select | NumberInput | Email

  datatype SelectOption = SelectOption(caption: string, value: Value)

  /** A field descriptor. A descriptor without `type` renders as a text input and
      is written with `Text`; a missing `required` or `disabled` is false. */
  datatype Field = Field(
    name: string,
    caption: string,
    required: bool,
    kind: FieldKind,
    options: seq<SelectOption>,
    disabled: bool,
    min: Option<real>)

  /** `field.min ?? 0` */
  function MinOf(f: Field): real {
    f.min.GetOr(0.0)
  }

  /** Every page gives its fields distinct names (they are also the React keys). */
  predicate DistinctNames(fields: seq<Field>) {
    forall i, j :: 0 <= i < j < |fields| ==> fields[i].name != fields[j].name
  }

  /** The field names, in the order the fields are rendered. */
  function Names(fields: seq<Field>): seq<string> {
    seq(|fields|, i requires 0 <= i < |fields| => fields[i].name)
  }

  // ---------------------------------------------------------------------------
  // Opening

  /** The buffer after the open effect has run. The effect runs only when
      `open` or `initialData` changed since the previous render (see
      `AfterRender`); when it runs on an open modal it seeds the buffer with
      `initialData`, or the empty object when none is given, and on a closed
      modal it leaves the buffer alone (a closed modal renders nothing, see
      `Render`). */
  function BufferAfterOpen(open: bool, initialData: Option<Form>, buffer: Form): (r: Form)
    ensures open && initialData.Some? ==> r == initialData.value
    ensures open && initialData.None? ==> r == map[]
    ensures !open ==> r == buffer
  {
    if open then initialData.GetOr(map[]) else buffer
  }

  /** One render: the effect depends on `[open, initialData]`, so it runs only
      when either differs from the previous render's. */
  function AfterRender(prevOpen: bool, prevInitial: Option<Form>, open: bool,
                       initialData: Option<Form>, buffer: Form): Form
  {
    if open == prevOpen && initialData == prevInitial then buffer
    else BufferAfterOpen(open, initialData, buffer)
  }

  // ---------------------------------------------------------------------------
  // Keystrokes

  predicate IsNumberConfig(config: Option<Field>) {
    config.Some? && config.value.kind == NumberInput
  }

  /** `handleChange(key, value, fieldConfig)`. With a number configuration an
      empty input is stored as `''`, a parsed value below the minimum is ignored
      and any other parsed value is stored as a number; without one the raw
      string is stored. No other key is touched. */
  function HandleChange(form: Form, key: string, input: string, config: Option<Field>,
                        parse: string -> JsNumber): (r: Form)
    ensures forall k :: k != key ==> (k in r <==> k in form) && Get(r, k) == Get(form, k)
    ensures !IsNumberConfig(config) ==> key in r && r[key] == Str(input)
    ensures IsNumberConfig(config) && input == "" ==> key in r && r[key] == Str("")
    ensures IsNumberConfig(config) && input != "" ==>
              if Below(parse(input), MinOf(config.value)) then r == form
              else key in r && r[key] == Num(parse(input))
  {
    if IsNumberConfig(config) then
      if input == "" then form[key := Str("")]
      else
        var n := parse(input);
        if Below(n, MinOf(config.value)) then form else form[key := Num(n)]
    else form[key := Str(input)]
  }

  /** A change event from the control rendered for `field`. A disabled control
      fires none; a select passes no configuration, so its value is stored as
      the raw string; every other input passes its own descriptor. */
  function OnFieldInput(form: Form, field: Field, input: string, parse: string -> JsNumber): (r: Form)
    ensures field.disabled ==> r == form
    ensures !field.disabled && field.kind == Select ==> Get(r, field.name) == Str(input)
    ensures !field.disabled && field.kind != Select ==>
              r == HandleChange(form, field.name, input, Some(field), parse)
    ensures forall k :: k != field.name ==> (k in r <==> k in form) && Get(r, k) == Get(form, k)
  {
    if field.disabled then form
    else if field.kind == Select then HandleChange(form, field.name, input, None, parse)
    else HandleChange(form, field.name, input, Some(field), parse)
  }

  // ---------------------------------------------------------------------------
  // Submitting

  /** A number field holding something other than `''` that compares below its
      minimum (`val !== '' && val < min`). */
  predicate Violates(f: Field, form: Form, parse: string -> JsNumber) {
    var v := Get(form, f.name);
    f.kind == NumberInput && v != Str("") && Below(ToNumber(v, parse), MinOf(f))
  }

  /** `fields.some(...)` over the numeric check. */
  function AnyViolation(fields: seq<Field>, form: Form, parse: string -> JsNumber): (r: bool)
    ensures r <==> exists i :: 0 <= i < |fields| && Violates(fields[i], form, parse)
  {
    if fields == [] then false
    else
      var rest := AnyViolation(fields[1..], form, parse);
      assert rest ==> exists i :: 1 <= i < |fields| && Violates(fields[i], form, parse);
      Violates(fields[0], form, parse) || rest
  }

  /** `_id`, or any key starting with `id_`. */
  predicate IsIdKey(k: string) {
    k == "_id" || "id_" <= k
  }

  predicate KeptByCleanup(k: string, v: Value) {
    IsIdKey(k) || !IsBlank(v)
  }

  /** The payload cleanup applied before `onSubmit`. */
  function Cleaned(form: Form): Form {
    map k | k in form && KeptByCleanup(k, form[k]) :: form[k]
  }

  datatype SubmitResult = Blocked | Submitted(payload: Form)

  /** `handleSubmit`: blocked (with an alert) exactly when some number field
      violates its minimum; otherwise `onSubmit` receives the buffer with
      every key kept that is id-like or holds a value other than undefined,
      null or `''`, each kept value unchanged. */
  function Submit(fields: seq<Field>, form: Form, parse: string -> JsNumber): (r: SubmitResult)
    ensures r.Blocked? <==> exists i :: 0 <= i < |fields| && Violates(fields[i], form, parse)
    ensures r.Submitted? ==> forall k :: k in r.payload <==> k in form && KeptByCleanup(k, form[k])
    ensures r.Submitted? ==> forall k :: k in r.payload ==> r.payload[k] == form[k]
  {
    if AnyViolation(fields, form, parse) then Blocked else Submitted(Cleaned(form))
  }

  /** Cleaning a cleaned payload changes nothing, and the keys kept are always
      a subset of the buffer's, whether or not a field describes them. */
  lemma CleanedIdempotent(form: Form)
    ensures Cleaned(Cleaned(form)) == Cleaned(form)
    ensures Cleaned(form).Keys <= form.Keys
  {
  }

  /** Only undefined, null and `''` are dropped: `0` and `false` survive, and an
      id-like key survives even when empty. */
  lemma CleanupKeepsFalsyValues()
    ensures var f := map["stock" := Num(Finite(0.0)), "disponible" := Bool(false),
                         "id_x" := Str(""), "_id" := Null, "nombre" := Str(""), "telefono" := Null];
            Cleaned(f) == map["stock" := Num(Finite(0.0)), "disponible" := Bool(false),
                              "id_x" := Str(""), "_id" := Null]
  {
    var f := map["stock" := Num(Finite(0.0)), "disponible" := Bool(false),
                 "id_x" := Str(""), "_id" := Null, "nombre" := Str(""), "telefono" := Null];
    assert "id_" <= "id_x";
    assert !("id_" <= "nombre") by { assert "nombre"[0] != "id_"[0]; }
    assert !("id_" <= "telefono") by { assert "telefono"[0] != "id_"[0]; }
    assert !("id_" <= "stock") by { assert "stock"[0] != "id_"[0]; }
  }

  /** The cleanup of `{id_x: "123", nombre: "", precio: 10}`: the empty name is
      dropped and `{id_x: "123", precio: 10}` is submitted. */
  lemma CleanupExample(parse: string -> JsNumber)
    ensures Submit([], map["id_x" := Str("123"), "nombre" := Str(""), "precio" := Num(Finite(10.0))], parse)
            == Submitted(map["id_x" := Str("123"), "precio" := Num(Finite(10.0))])
  {
    assert !("id_" <= "nombre") by { assert "nombre"[0] != "id_"[0]; }
  }

  /** A keystroke in any rendered field never creates a minimum violation: if
      the buffer passes the pre-submit check, it still passes afterwards. */
  lemma KeystrokeKeepsBufferValid(fields: seq<Field>, form: Form, g: Field, input: string,
                                  parse: string -> JsNumber)
    requires DistinctNames(fields)
    requires g in fields
    requires !AnyViolation(fields, form, parse)
    ensures !AnyViolation(fields, OnFieldInput(form, g, input, parse), parse)
  {
    var r := OnFieldInput(form, g, input, parse);
    forall i | 0 <= i < |fields|
      ensures !Violates(fields[i], r, parse)
    {
      var f := fields[i];
      assert !Violates(f, form, parse);
      if f.name == g.name && !g.disabled && f.kind == NumberInput {
        var j :| 0 <= j < |fields| && fields[j] == g;
        assert i == j;
        assert IsNumberConfig(Some(g));
      }
    }
  }

  /** A blocked submit stays blocked until the offending field itself changes:
      a change to any other field leaves it blocked, and so does a keystroke in
      the offending field whose value the handler rejects. */
  lemma BlockedUntilOffenderChanges(fields: seq<Field>, form: Form, f: Field, g: Field,
                                    input: string, parse: string -> JsNumber)
    requires f in fields && Violates(f, form, parse)
    requires g.name != f.name || (g == f && input != "" && Below(parse(input), MinOf(f)))
    ensures Submit(fields, OnFieldInput(form, g, input, parse), parse).Blocked?
  {
    var r := OnFieldInput(form, g, input, parse);
    assert Violates(f, r, parse);
  }

  /** `required` only decorates the label and the input: an empty required text
      field does not stop the submit. */
  lemma RequiredIsNotEnforced(parse: string -> JsNumber)
    ensures var f := Field("nombre", "Nombre", true, Text, [], false, None);
            Submit([f], map["nombre" := Str("")], parse) == Submitted(map[])
  {
    assert !("id_" <= "nombre") by { assert "nombre"[0] != "id_"[0]; }
  }

  // ---------------------------------------------------------------------------
  // Rendering

  /** One rendered control: a `<select>` or an `<input>` with its attributes. */
  datatype Control = Control(name: string, isSelect: bool, disabled: bool, required: bool,
                             minAttribute: Option<real>)

  /** What an open modal shows. */
  datatype View = View(title: string, closeButton: bool, controls: seq<Control>,
                       cancelButton: bool, saveButton: bool)

  function ControlFor(f: Field): Control {
    if f.kind == Select then Control(f.name, true, f.disabled, f.required, None)
    else
      var minAttribute := if f.min.Some? then f.min else if f.kind == NumberInput then Some(0.0) else None;
      Control(f.name, false, f.disabled, f.required, minAttribute)
  }

  /** Nothing is rendered while closed. The header close button is always
      there. Given custom children, the modal is only a container: no field
      controls, no Cancel and no Save, so `handleSubmit` cannot be reached.
      Otherwise there is one control per field, in order, and both buttons. */
  function Render(open: bool, title: string, fields: seq<Field>, hasChildren: bool): (r: Option<View>)
    ensures r.None? <==> !open
    ensures r.Some? ==> r.value.closeButton
    ensures r.Some? && hasChildren ==> r.value.controls == [] && !r.value.saveButton && !r.value.cancelButton
    ensures r.Some? && !hasChildren ==> r.value.saveButton && r.value.cancelButton
    ensures r.Some? && !hasChildren ==>
              |r.value.controls| == |fields|
              && forall i :: 0 <= i < |fields| ==>
                   && r.value.controls[i].name == fields[i].name
                   && r.value.controls[i].disabled == fields[i].disabled
                   && (r.value.controls[i].isSelect <==> fields[i].kind == Select)
  {
    if !open then None
    else if hasChildren then Some(View(title, true, [], false, false))
    else Some(View(title, true, seq(|fields|, i requires 0 <= i < |fields| => ControlFor(fields[i])), true, true))
  }

  /** What is rendered agrees with what input does: a control rendered
      disabled ignores every input, and an enabled select stores the chosen
      value as a string under its field's name. */
  lemma RenderAgreesWithInput(open: bool, title: string, fields: seq<Field>, i: nat,
                              form: Form, input: string, parse: string -> JsNumber)
    requires open && i < |fields|
    ensures var c := Render(open, title, fields, false).value.controls[i];
            && (c.disabled ==> OnFieldInput(form, fields[i], input, parse) == form)
            && (!c.disabled && c.isSelect ==>
                  Get(OnFieldInput(form, fields[i], input, parse), c.name) == Str(input))
  {
  }

  /** Edits typed into an open modal survive every re-render that keeps `open`
      and `initialData`, whatever they were; closing and reopening discards
      them and seeds the buffer again. */
  lemma TypedEditsSurviveRerender(initialData: Option<Form>, stale: Form, f: Field, input: string,
                                  parse: string -> JsNumber)
    ensures var typed := OnFieldInput(BufferAfterOpen(true, initialData, stale), f, input, parse);
            && AfterRender(true, initialData, true, initialData, typed) == typed
            && AfterRender(false, initialData, true, initialData, typed) == initialData.GetOr(map[])
    ensures forall b1, b2 :: BufferAfterOpen(true, initialData, b1) == BufferAfterOpen(true, initialData, b2)
  {
  }
}
