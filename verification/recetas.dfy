/**
 The recipes page: the table of dishes, each with the recipe lines linked to
 it, ordered by dish name; the "delete all" confirmation, which removes every
 line of the selected dish one awaited call at a time; and the caption of the
 edit button. `localeCompare` is given as a collation key: a dish sorts before
 another when its name's key is smaller.
 */
module Recetas {
  import opened Values
  import opened Session
  import opened Entities
  import opened Calls

  /** `r.plato?.id_plato === id` */
  predicate Linked(r: Receta, id: string) {
    r.plato == Some(id)
  }

  /** `recetas.filter(r => r.plato?.id_plato === id)`: the linked lines and no
      others. */
  function Filter(recetas: seq<Receta>, id: string): (r: seq<Receta>)
    ensures |r| <= |recetas|
    ensures forall x :: x in r <==> x in recetas && Linked(x, id)
  {
    if recetas == [] then []
    else
      var rest := Filter(recetas[1..], id);
      assert forall x :: x in recetas <==> x == recetas[0] || x in recetas[1..];
      if Linked(recetas[0], id) then [recetas[0]] + rest else rest
  }

  /** Each linked line is kept as often as it occurs. */
  lemma {:induction false} FilterMultiplicity(recetas: seq<Receta>, id: string, x: Receta)
    ensures multiset(Filter(recetas, id))[x] == if Linked(x, id) then multiset(recetas)[x] else 0
  {
    if recetas != [] {
      FilterMultiplicity(recetas[1..], id, x);
      assert recetas == [recetas[0]] + recetas[1..];
    }
  }

  /** Filtering keeps recipe order: the lines of a concatenation are the lines
      of the first part followed by those of the second. */
  lemma {:induction false} FilterAppend(a: seq<Receta>, b: seq<Receta>, id: string)
    ensures Filter(a + b, id) == Filter(a, id) + Filter(b, id)
  {
    if a == [] {
      assert a + b == b;
    } else {
      assert (a + b)[1..] == a[1..] + b;
      FilterAppend(a[1..], b, id);
    }
  }

  /** A filter keeps a line exactly where it stands: a linked line in front is
      kept in front, an unlinked one is dropped. */
  lemma FilterCons(x: Receta, rest: seq<Receta>, id: string)
    ensures Linked(x, id) ==> Filter([x] + rest, id) == [x] + Filter(rest, id)
    ensures !Linked(x, id) ==> Filter([x] + rest, id) == Filter(rest, id)
  {
    assert ([x] + rest)[1..] == rest;
  }

  /** One entry of a row's `resumen`. */
  datatype Summary = Summary(id_receta: string, nombre: string, cantidad: Value, unidad: string)

  /** `i.ingrediente?.nombre || 'Insumo'` and `i.ingrediente?.unidad_medida || ''`. */
  function SummaryOf(r: Receta): (s: Summary)
    ensures s.id_receta == r.id_receta && s.cantidad == r.cantidad
    ensures s.nombre == "Insumo" <==> r.ingrediente.None? || r.ingrediente.value.nombre in {"", "Insumo"}
    ensures s.nombre != "Insumo" ==> s.nombre == r.ingrediente.value.nombre
    ensures s.unidad == if r.ingrediente.None? then "" else r.ingrediente.value.unidad_medida
  {
    match r.ingrediente
    case None => Summary(r.id_receta, "Insumo", r.cantidad, "")
    case Some(ing) =>
      Summary(r.id_receta, if ing.nombre == "" then "Insumo" else ing.nombre, r.cantidad, ing.unidad_medida)
  }

  function Summaries(rs: seq<Receta>): (ss: seq<Summary>)
    ensures |ss| == |rs| && forall i :: 0 <= i < |rs| ==> ss[i] == SummaryOf(rs[i])
  {
    seq(|rs|, i requires 0 <= i < |rs| => SummaryOf(rs[i]))
  }

  /** One table row: the dish with its summarised recipe lines. */
  datatype Row = Row(plato: Plato, resumen: seq<Summary>)

  /** The row of one dish. */
  function RowOf(recetas: seq<Receta>, p: Plato): Row {
    Row(p, Summaries(Filter(recetas, p.id_plato)))
  }

  /** `platos.map(...)`, before sorting. */
  function Rows(platos: seq<Plato>, recetas: seq<Receta>): (rows: seq<Row>)
    ensures |rows| == |platos| && forall i :: 0 <= i < |platos| ==> rows[i] == RowOf(recetas, platos[i])
  {
    seq(|platos|, i requires 0 <= i < |platos| => RowOf(recetas, platos[i]))
  }

  /** Ordered by the collation key of the dish names. */
  predicate Sorted(rows: seq<Row>, key: string -> real) {
    forall i, j :: 0 <= i < j < |rows| ==> key(rows[i].plato.nombre) <= key(rows[j].plato.nombre)
  }

  /** A row that collates no later than every row of a sorted list may head it. */
  lemma SortedCons(a: Row, rows: seq<Row>, key: string -> real)
    requires Sorted(rows, key)
    requires forall y :: y in rows ==> key(a.plato.nombre) <= key(y.plato.nombre)
    ensures Sorted([a] + rows, key)
  {
    var s := [a] + rows;
    forall i, j | 0 <= i < j < |s|
      ensures key(s[i].plato.nombre) <= key(s[j].plato.nombre)
    {
      assert s[j] == rows[j - 1];
      if i > 0 {
        assert s[i] == rows[i - 1];
      }
    }
  }

  /** The head of a sorted list collates no later than any of its rows, and
      its tail is sorted. */
  lemma SortedSplit(rows: seq<Row>, key: string -> real)
    requires Sorted(rows, key) && rows != []
    ensures forall y :: y in rows ==> key(rows[0].plato.nombre) <= key(y.plato.nombre)
    ensures Sorted(rows[1..], key)
  {
    var tail := rows[1..];
    forall i, j | 0 <= i < j < |tail|
      ensures key(tail[i].plato.nombre) <= key(tail[j].plato.nombre)
    {
      assert tail[i] == rows[i + 1] && tail[j] == rows[j + 1];
    }
  }

  /** Where `x` goes when it does not head the list: after the head, whose key
      is then below every row of the rest. */
  lemma InsertAfterHead(x: Row, rows: seq<Row>, rest: seq<Row>, key: string -> real)
    requires Sorted(rows, key) && rows != []
    requires key(rows[0].plato.nombre) < key(x.plato.nombre)
    requires Sorted(rest, key) && multiset(rest) == multiset(rows[1..]) + multiset{x}
    ensures Sorted([rows[0]] + rest, key)
  {
    SortedSplit(rows, key);
    forall y | y in rest ensures key(rows[0].plato.nombre) <= key(y.plato.nombre) {
      assert y in multiset(rest);
      assert y == x || y in multiset(rows[1..]);
    }
    SortedCons(rows[0], rest, key);
  }

  /** Puts `x` before the first row whose name does not collate before it. */
  function Insert(x: Row, rows: seq<Row>, key: string -> real): (r: seq<Row>)
    requires Sorted(rows, key)
    ensures Sorted(r, key)
    ensures multiset(r) == multiset(rows) + multiset{x}
  {
    if rows == [] then [x]
    else if key(x.plato.nombre) <= key(rows[0].plato.nombre) then
      SortedSplit(rows, key);
      SortedCons(x, rows, key);
      [x] + rows
    else
      SortedSplit(rows, key);
      var rest := Insert(x, rows[1..], key);
      InsertAfterHead(x, rows, rest, key);
      assert rows == [rows[0]] + rows[1..];
      [rows[0]] + rest
  }

  /** `.sort((a, b) => a.nombre.localeCompare(b.nombre))` */
  function Sort(rows: seq<Row>, key: string -> real): (r: seq<Row>)
    ensures Sorted(r, key)
    ensures multiset(r) == multiset(rows)
  {
    if rows == [] then []
    else
      assert rows == [rows[0]] + rows[1..];
      Insert(rows[0], Sort(rows[1..], key), key)
  }

  /** `tableData`: one row per dish, ordered by name, a dish's row listing its
      linked recipe lines. */
  function TableData(platos: seq<Plato>, recetas: seq<Receta>, key: string -> real): (rows: seq<Row>)
    ensures Sorted(rows, key)
    ensures multiset(rows) == multiset(Rows(platos, recetas))
  {
    Sort(Rows(platos, recetas), key)
  }

  /** Every dish has exactly one row (as many as it occurs in the dish list),
      every row belongs to a dish, and a row's summary lists that dish's linked
      recipe lines in recipe order. */
  lemma TableDataRows(platos: seq<Plato>, recetas: seq<Receta>, key: string -> real)
    ensures |TableData(platos, recetas, key)| == |platos|
    ensures forall row :: row in TableData(platos, recetas, key) <==>
              exists i :: 0 <= i < |platos| && row == RowOf(recetas, platos[i])
    ensures forall row :: row in TableData(platos, recetas, key) ==>
              row.resumen == Summaries(Filter(recetas, row.plato.id_plato))
  {
    var rows := TableData(platos, recetas, key);
    var unsorted := Rows(platos, recetas);
    assert |rows| == |multiset(rows)| == |multiset(unsorted)| == |unsorted|;
    forall row ensures row in rows <==> row in unsorted {
      assert row in rows <==> row in multiset(rows);
    }
  }

  /** A dish with no linked line gets an empty summary ("Sin ingredientes"); a
      line without an ingredient is listed as `Insumo` with no unit. */
  lemma SummaryExamples(p: Plato, other: string, key: string -> real)
    requires other != p.id_plato
    ensures RowOf([Receta("r1", Some(other), None, Num(Finite(1.0)))], p).resumen == []
    ensures RowOf([Receta("r2", Some(p.id_plato), None, Num(Finite(2.0)))], p).resumen
            == [Summary("r2", "Insumo", Num(Finite(2.0)), "")]
  {
    FilterCons(Receta("r1", Some(other), None, Num(Finite(1.0))), [], p.id_plato);
    FilterCons(Receta("r2", Some(p.id_plato), None, Num(Finite(2.0))), [], p.id_plato);
  }

  /** Summarising keeps recipe order: the summary of a dish over two runs of
      lines is the summary over the first followed by that over the second. */
  lemma {:induction false} RowOfAppend(a: seq<Receta>, b: seq<Receta>, p: Plato)
    ensures RowOf(a + b, p).resumen == RowOf(a, p).resumen + RowOf(b, p).resumen
  {
    FilterAppend(a, b, p.id_plato);
  }

  /** One `deleteItem(id_receta)` per line, in order. */
  function Deletes(rs: seq<Receta>): (cs: seq<Call>)
    ensures |cs| == |rs| && forall i :: 0 <= i < |rs| ==> cs[i] == Delete(Str(rs[i].id_receta))
  {
    seq(|rs|, i requires 0 <= i < |rs| => Delete(Str(rs[i].id_receta)))
  }

  predicate NoneRejected(calls: seq<Call>, rejects: Call -> bool) {
    forall i :: 0 <= i < |calls| ==> !rejects(calls[i])
  }

  /** `handleDeleteAll`. Without a selected dish nothing happens. Otherwise the
      linked lines are deleted one awaited call at a time, in recipe order; when
      all succeed the confirmation closes and the list is refreshed, and a
      rejected delete ends the handler there, with the dialog still open. */
  function DeleteAll(selected: Option<Plato>, recetas: seq<Receta>, rejects: Call -> bool): (e: Effect)
    ensures !e.clearSelection
    ensures selected.None? ==> e.calls == [] && !e.closeModal
    ensures selected.Some? ==>
              var planned := Deletes(Filter(recetas, selected.value.id_plato));
              && (e.closeModal <==> NoneRejected(planned, rejects))
              && (e.closeModal ==> e.calls == planned + [Refresh])
              && (!e.closeModal ==> e.calls <= planned && e.calls != [] && rejects(e.calls[|e.calls| - 1]))
              && (!e.closeModal ==> forall i :: 0 <= i < |e.calls| - 1 ==> !rejects(e.calls[i]))
  {
    if selected.None? then Effect([], false, false)
    else
      var planned := Deletes(Filter(recetas, selected.value.id_plato));
      var run := Execute(planned, rejects);
      assert run.completed <==> NoneRejected(planned, rejects);
      if run.completed then Effect(run.issued + [Refresh], true, false)
      else Effect(run.issued, false, false)
  }

  /** Delete-all touches nothing but the selected dish's lines: every delete it
      issues names a line linked to that dish, and when no call is rejected
      every such line is deleted. */
  lemma DeleteAllOnlyTouchesDish(p: Plato, recetas: seq<Receta>, rejects: Call -> bool)
    ensures var e := DeleteAll(Some(p), recetas, rejects);
            forall i :: 0 <= i < |e.calls| && e.calls[i].Delete? ==>
              exists r :: r in recetas && Linked(r, p.id_plato) && e.calls[i] == Delete(Str(r.id_receta))
    ensures var e := DeleteAll(Some(p), recetas, rejects);
            e.closeModal ==>
              forall r :: r in recetas && Linked(r, p.id_plato) ==> Delete(Str(r.id_receta)) in e.calls
  {
    var e := DeleteAll(Some(p), recetas, rejects);
    var linked := Filter(recetas, p.id_plato);
    var planned := Deletes(linked);
    forall i | 0 <= i < |e.calls| && e.calls[i].Delete?
      ensures exists r :: r in recetas && Linked(r, p.id_plato) && e.calls[i] == Delete(Str(r.id_receta))
    {
      assert i < |planned|;
      assert e.calls[i] == planned[i];
      assert linked[i] in linked;
    }
    if e.closeModal {
      forall r | r in recetas && Linked(r, p.id_plato)
        ensures Delete(Str(r.id_receta)) in e.calls
      {
        var j :| 0 <= j < |linked| && linked[j] == r;
        assert e.calls[j] == planned[j];
      }
    }
  }

  /** `esAdmin`: the role is exactly `admin`. */
  predicate EsAdmin(user: Option<User>) {
    user.Some? && user.value.rol == "admin"
  }

  /** The row's edit button, shown to everyone: captioned for management for an
      administrator and for viewing otherwise. */
  function EditCaption(user: Option<User>): (c: string)
    ensures c == "EDITAR / GESTIONAR" <==> EsAdmin(user)
    ensures c == "VER INGREDIENTES" <==> !EsAdmin(user)
  {
    if EsAdmin(user) then "EDITAR / GESTIONAR" else "VER INGREDIENTES"
  }

  /** Unlike the role tests elsewhere, this one is case-sensitive: `Admin` is
      offered only viewing. */
  lemma AdminCaptionIsCaseSensitive(permisos: seq<string>)
    ensures EditCaption(Some(User("Admin", permisos))) == "VER INGREDIENTES"
    ensures EditCaption(Some(User("admin", permisos))) == "EDITAR / GESTIONAR"
    ensures RoleIs(Some(User("Admin", permisos)), "admin")
  {
    assert Lower("Admin") == "admin";
  }

  /** The exact test accepts only users the lower-casing role test would also
      accept: whoever is offered management has role `admin` in any letter
      case, and the converse fails only for a role spelt in other cases. */
  lemma AdminCaptionImpliesRole(user: Option<User>)
    ensures EditCaption(user) == "EDITAR / GESTIONAR" ==> RoleIs(user, "admin")
    ensures RoleIs(user, "admin") && EditCaption(user) != "EDITAR / GESTIONAR" ==> user.value.rol != "admin"
  {
    if EsAdmin(user) {
      assert Lower("admin") == "admin";
    }
  }
}
