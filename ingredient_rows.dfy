/**
  The ingredient list of the recipe form, as values: one row per ingredient,
  the transforms each handler applies to the list (filter, map), the
  readiness scan and the projection sent on submit.
 */
module IngredientRows {

  /** One ingredient row: a stable row id, the reference of the chosen
      ingredient (the row's `_id`, empty until one is chosen) and the
      quantity text. */
  datatype Row = Row(id: string, ingredientId: string, quantity: string)

  /** One element of the submitted `ingredients` array. */
  datatype Entry = Entry(id: string, measure: string)

  /** No two rows share a row id. */
  ghost predicate UniqueIds(rows: seq<Row>) {
    forall i, j :: 0 <= i < j < |rows| ==> rows[i].id != rows[j].id
  }

  /** No row carries the row id `id`. */
  ghost predicate IdAbsent(rows: seq<Row>, id: string) {
    forall i :: 0 <= i < |rows| ==> rows[i].id != id
  }

  /** The row the "+" handler appends: a fresh id, no ingredient, no quantity.
      The handler itself writes the reference under the key `ingredient`
      rather than `_id`; this model gives the row an empty reference, which
      is what the readiness scan is meant to see (see AsWrittenReadiness). */
  function EmptyRow(id: string): Row {
    Row(id, "", "")
  }

  /** A row is complete when both its ingredient reference and its quantity
      are non-empty. */
  predicate RowReady(row: Row) {
    |row.ingredientId| != 0 && |row.quantity| != 0
  }

  // ---------------------------------------------------------------------
  // Removal by id (the `filter` of the delete handler)
  // ---------------------------------------------------------------------

  /** The rows whose id differs from `target`, in their original order. */
  function Without(rows: seq<Row>, target: string): (r: seq<Row>)
    ensures |r| <= |rows|
  {
    if rows == [] then []
    else if rows[0].id != target then [rows[0]] + Without(rows[1..], target)
    else Without(rows[1..], target)
  }

  /** A row survives the filter iff it was in the list and its id differs
      from the target. */
  lemma {:induction false} WithoutMembers(rows: seq<Row>, target: string, x: Row)
    ensures x in Without(rows, target) <==> x in rows && x.id != target
  {
    if rows != [] {
      WithoutMembers(rows[1..], target, x);
      assert rows == [rows[0]] + rows[1..];
    }
  }

  /** Filtering distributes over concatenation, so relative order is kept. */
  lemma {:induction false} WithoutConcat(a: seq<Row>, b: seq<Row>, target: string)
    ensures Without(a + b, target) == Without(a, target) + Without(b, target)
  {
    if a == [] {
      assert a + b == b;
    } else {
      assert (a + b)[1..] == a[1..] + b;
      WithoutConcat(a[1..], b, target);
    }
  }

  /** Removing an id no row carries leaves the list as it was. */
  lemma {:induction false} WithoutAbsent(rows: seq<Row>, target: string)
    requires IdAbsent(rows, target)
    ensures Without(rows, target) == rows
  {
    if rows != [] {
      WithoutAbsent(rows[1..], target);
    }
  }

  /** No row other than row `k` carries row `k`'s id. */
  ghost predicate OnlyRowWithId(rows: seq<Row>, k: nat)
    requires k < |rows|
  {
    forall i :: 0 <= i < |rows| && i != k ==> rows[i].id != rows[k].id
  }

  /** A list is the rows before `k`, row `k`, and the rows after it. */
  lemma SliceAround(rows: seq<Row>, k: nat)
    requires k < |rows|
    ensures rows == rows[..k] + [rows[k]] + rows[k + 1..]
  {
  }

  /** When no other row shares row `k`'s id, that id occurs neither before
      nor after row `k`. */
  lemma OnlyRowSplit(rows: seq<Row>, k: nat)
    requires k < |rows| && OnlyRowWithId(rows, k)
    ensures IdAbsent(rows[..k], rows[k].id) && IdAbsent(rows[k + 1..], rows[k].id)
  {
    var before, after := rows[..k], rows[k + 1..];
    forall i | 0 <= i < |before| ensures before[i].id != rows[k].id { assert before[i] == rows[i]; }
    forall i | 0 <= i < |after| ensures after[i].id != rows[k].id { assert after[i] == rows[k + 1 + i]; }
  }

  /** Removing the id of a row that occurs nowhere else drops exactly that row. */
  lemma {:induction false} WithoutSplice(before: seq<Row>, x: Row, after: seq<Row>)
    requires IdAbsent(before, x.id) && IdAbsent(after, x.id)
    ensures Without(before + [x] + after, x.id) == before + after
  {
    var whole := before + [x] + after;
    if before == [] {
      assert whole == [x] + after && whole[1..] == after;
      WithoutAbsent(after, x.id);
    } else {
      assert whole[0] == before[0] && whole[1..] == before[1..] + [x] + after;
      WithoutSplice(before[1..], x, after);
      assert before + after == [before[0]] + (before[1..] + after);
    }
  }

  /** When no other row shares row `k`'s id, removing that id splices out
      exactly row `k`. */
  lemma WithoutAt(rows: seq<Row>, k: nat)
    requires k < |rows| && OnlyRowWithId(rows, k)
    ensures Without(rows, rows[k].id) == rows[..k] + rows[k + 1..]
  {
    SliceAround(rows, k);
    OnlyRowSplit(rows, k);
    WithoutSplice(rows[..k], rows[k], rows[k + 1..]);
  }

  /** Splicing one row out of a list with unique ids keeps the ids unique. */
  lemma SpliceKeepsUnique(rows: seq<Row>, k: nat)
    requires UniqueIds(rows) && k < |rows|
    ensures UniqueIds(rows[..k] + rows[k + 1..])
  {
    var r := rows[..k] + rows[k + 1..];
    forall i, j | 0 <= i < j < |r| ensures r[i].id != r[j].id {
      var i' := if i < k then i else i + 1;
      var j' := if j < k then j else j + 1;
      assert r[i] == rows[i'] && r[j] == rows[j'];
    }
  }

  /** With unique ids, removal by id drops at most one row (exactly one when
      the id is present), keeps ids unique, and so never empties a list of
      two rows or more. */
  lemma WithoutKeepsOne(rows: seq<Row>, target: string)
    requires UniqueIds(rows)
    ensures UniqueIds(Without(rows, target))
    ensures IdAbsent(rows, target) ==> Without(rows, target) == rows
    ensures !IdAbsent(rows, target) ==> |Without(rows, target)| == |rows| - 1
    ensures |rows| > 1 ==> |Without(rows, target)| >= 1
  {
    if IdAbsent(rows, target) {
      WithoutAbsent(rows, target);
    } else {
      var k :| 0 <= k < |rows| && rows[k].id == target;
      assert OnlyRowWithId(rows, k) by {
        forall i | 0 <= i < |rows| && i != k ensures rows[i].id != rows[k].id {
          if i < k { assert rows[i].id != rows[k].id; } else { assert rows[k].id != rows[i].id; }
        }
      }
      WithoutAt(rows, k);
      SpliceKeepsUnique(rows, k);
    }
  }

  // ---------------------------------------------------------------------
  // Per-row edits (the `map` of the two change handlers)
  // ---------------------------------------------------------------------

  /** Sets the ingredient reference of every row whose id is `target`. */
  function WithIngredient(rows: seq<Row>, target: string, ingredientId: string): (r: seq<Row>)
    ensures |r| == |rows|
    ensures forall i :: 0 <= i < |rows| ==> r[i].id == rows[i].id && r[i].quantity == rows[i].quantity
    ensures forall i :: 0 <= i < |rows| && rows[i].id == target ==> r[i].ingredientId == ingredientId
    ensures forall i :: 0 <= i < |rows| && rows[i].id != target ==> r[i] == rows[i]
  {
    if rows == [] then []
    else
      var head := if rows[0].id == target then rows[0].(ingredientId := ingredientId) else rows[0];
      [head] + WithIngredient(rows[1..], target, ingredientId)
  }

  /** Sets the quantity text of every row whose id is `target`. */
  function WithQuantity(rows: seq<Row>, target: string, quantity: string): (r: seq<Row>)
    ensures |r| == |rows|
    ensures forall i :: 0 <= i < |rows| ==> r[i].id == rows[i].id && r[i].ingredientId == rows[i].ingredientId
    ensures forall i :: 0 <= i < |rows| && rows[i].id == target ==> r[i].quantity == quantity
    ensures forall i :: 0 <= i < |rows| && rows[i].id != target ==> r[i] == rows[i]
  {
    if rows == [] then []
    else
      var head := if rows[0].id == target then rows[0].(quantity := quantity) else rows[0];
      [head] + WithQuantity(rows[1..], target, quantity)
  }

  // ---------------------------------------------------------------------
  // Readiness (the two `every` scans)
  // ---------------------------------------------------------------------

  /** The first scan: every row has an ingredient reference. */
  function AllIngredientsChosen(rows: seq<Row>): (b: bool)
    ensures b <==> forall i :: 0 <= i < |rows| ==> |rows[i].ingredientId| != 0
  {
    rows == [] || (|rows[0].ingredientId| != 0 && AllIngredientsChosen(rows[1..]))
  }

  /** The second scan: every row has a quantity. */
  function AllQuantitiesFilled(rows: seq<Row>): (b: bool)
    ensures b <==> forall i :: 0 <= i < |rows| ==> |rows[i].quantity| != 0
  {
    rows == [] || (|rows[0].quantity| != 0 && AllQuantitiesFilled(rows[1..]))
  }

  /** The ingredient list is ready exactly when every row is complete. */
  function IngredientsReady(rows: seq<Row>): (b: bool)
    ensures b <==> forall i :: 0 <= i < |rows| ==> RowReady(rows[i])
  {
    AllIngredientsChosen(rows) && AllQuantitiesFilled(rows)
  }

  /** The readiness scans accept a list whose rows are all complete. */
  lemma EveryRowReady(rows: seq<Row>)
    requires forall i :: 0 <= i < |rows| ==> RowReady(rows[i])
    ensures IngredientsReady(rows)
  {
  }

  /** Filtering rows out of a ready list leaves it ready. */
  lemma {:induction false} WithoutKeepsReady(rows: seq<Row>, target: string)
    requires IngredientsReady(rows)
    ensures IngredientsReady(Without(rows, target))
  {
    if rows != [] {
      assert RowReady(rows[0]);
      WithoutKeepsReady(rows[1..], target);
      var r := Without(rows, target);
      if rows[0].id != target {
        forall i | 0 <= i < |r| ensures RowReady(r[i]) {
          if i > 0 { assert r[i] == Without(rows[1..], target)[i - 1]; }
        }
      }
      EveryRowReady(r);
    }
  }

  /** A freshly appended row is incomplete, so the list is no longer ready. */
  lemma AppendedRowNotReady(rows: seq<Row>, id: string)
    ensures !IngredientsReady(rows + [EmptyRow(id)])
  {
    assert !RowReady((rows + [EmptyRow(id)])[|rows|]);
  }

  /** Clearing the ingredient reference of any existing row makes the list
      not ready. */
  lemma ClearingIngredientUnreadies(rows: seq<Row>, k: nat)
    requires k < |rows|
    ensures !IngredientsReady(WithIngredient(rows, rows[k].id, ""))
  {
    assert !RowReady(WithIngredient(rows, rows[k].id, "")[k]);
  }

  /** Clearing the quantity of any existing row makes the list not ready. */
  lemma ClearingQuantityUnreadies(rows: seq<Row>, k: nat)
    requires k < |rows|
    ensures !IngredientsReady(WithQuantity(rows, rows[k].id, ""))
  {
    assert !RowReady(WithQuantity(rows, rows[k].id, "")[k]);
  }

  /** When row `k` lacks only its quantity and no other row shares its id,
      entering a quantity for it makes the whole list ready. */
  lemma MeasuringLastGapReadies(rows: seq<Row>, k: nat, quantity: string)
    requires k < |rows| && |rows[k].ingredientId| != 0 && |quantity| != 0
    requires forall i :: 0 <= i < |rows| && i != k ==> rows[i].id != rows[k].id && RowReady(rows[i])
    ensures IngredientsReady(WithQuantity(rows, rows[k].id, quantity))
  {
    var r := WithQuantity(rows, rows[k].id, quantity);
    forall i | 0 <= i < |r| ensures RowReady(r[i]) {
      if i != k {
        assert r[i] == rows[i];
      }
    }
    EveryRowReady(r);
  }

  /** When row `k` is the only incomplete row and no other row shares its
      id, choosing its ingredient and entering its quantity makes the whole
      list ready. */
  lemma FillingLastGapReadies(rows: seq<Row>, k: nat, ingredientId: string, quantity: string)
    requires k < |rows|
    requires forall i :: 0 <= i < |rows| && i != k ==> rows[i].id != rows[k].id && RowReady(rows[i])
    requires |ingredientId| != 0 && |quantity| != 0
    ensures IngredientsReady(WithQuantity(WithIngredient(rows, rows[k].id, ingredientId), rows[k].id, quantity))
  {
    var mid := WithIngredient(rows, rows[k].id, ingredientId);
    assert mid[k].id == rows[k].id && |mid[k].ingredientId| != 0;
    forall i | 0 <= i < |mid| && i != k ensures mid[i].id != mid[k].id && RowReady(mid[i]) {
      assert mid[i] == rows[i];
    }
    MeasuringLastGapReadies(mid, k, quantity);
  }

  // ---------------------------------------------------------------------
  // Payload projection (the `map` in the submit handler)
  // ---------------------------------------------------------------------

  /** Each row becomes `{id: _id, measure: quantity}`, in the same order. */
  function Project(rows: seq<Row>): (p: seq<Entry>)
    ensures |p| == |rows|
    ensures forall i :: 0 <= i < |rows| ==> p[i].id == rows[i].ingredientId && p[i].measure == rows[i].quantity
  {
    if rows == [] then [] else [Entry(rows[0].ingredientId, rows[0].quantity)] + Project(rows[1..])
  }

  /** Every entry of a payload names an ingredient and a measure. */
  ghost predicate EntriesComplete(p: seq<Entry>) {
    forall i :: 0 <= i < |p| ==> |p[i].id| != 0 && |p[i].measure| != 0
  }

  /** A list is ready exactly when its projection has no empty id and no
      empty measure. */
  lemma ReadyIffPayloadComplete(rows: seq<Row>)
    ensures IngredientsReady(rows) <==> EntriesComplete(Project(rows))
  {
    var p := Project(rows);
    if !IngredientsReady(rows) {
      var k :| 0 <= k < |rows| && !RowReady(rows[k]);
      assert !(|p[k].id| != 0 && |p[k].measure| != 0);
    }
  }
}
