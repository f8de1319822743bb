/**
  The readiness scan as the component runs it on the rows the "+" handler
  really appends. That handler stores the new row's reference under the key
  `ingredient`, so the row has no `_id` at all; the scan reads
  `item._id.length`, which throws on a missing property. The scan runs in a
  deferred callback, so the throw only abandons the callback and the
  readiness flag keeps whatever value it had before.
 */
module AsWrittenReadiness {
  import opened Wrappers
  import IngredientRows

  /** A row as the component stores it: `ingredientId` is None when the
      row has no `_id` property. */
  datatype RawRow = RawRow(id: string, ingredientId: Option<string>, quantity: string)

  /** The "+" handler as written: the old rows stay in front and the new
      row carries the fresh id, an empty quantity and no `_id`. */
  function AppendAsWritten(rows: seq<RawRow>, freshId: string): (r: seq<RawRow>)
    ensures |r| == |rows| + 1 && r[..|rows|] == rows
    ensures r[|rows|].id == freshId && r[|rows|].ingredientId.None? && r[|rows|].quantity == ""
  {
    rows + [RawRow(freshId, None, "")]
  }

  /** Every row has a non-empty `_id`. */
  ghost predicate AllIdsChosen(rows: seq<RawRow>) {
    forall i :: 0 <= i < |rows| ==> rows[i].ingredientId.Some? && |rows[i].ingredientId.value| != 0
  }

  /** The first `every` scan, short-circuiting on the first empty `_id`;
      None when it reaches a row without `_id` and throws. */
  function ScanIds(rows: seq<RawRow>): (r: Option<bool>)
    ensures r == Some(true) <==> AllIdsChosen(rows)
  {
    if rows == [] then Some(true)
    else match rows[0].ingredientId
      case None => None
      case Some(s) => if |s| == 0 then Some(false) else ScanIds(rows[1..])
  }

  /** The stored rows seen by the quantity scan, which never reads `_id`:
      ids and quantities are kept and a missing `_id` reads as empty. */
  function QuantityView(rows: seq<RawRow>): (r: seq<IngredientRows.Row>)
    ensures |r| == |rows|
    ensures forall i :: 0 <= i < |rows| ==> r[i].id == rows[i].id && r[i].quantity == rows[i].quantity
  {
    if rows == [] then []
    else
      var ingredientId := match rows[0].ingredientId case Some(s) => s case None => "";
      [IngredientRows.Row(rows[0].id, ingredientId, rows[0].quantity)] + QuantityView(rows[1..])
  }

  /** The readiness callback as written: when the first scan throws, the
      flag is not set and keeps its previous value; otherwise it becomes
      the conjunction of the two scans (the second one, over quantities,
      is the same scan the corrected model uses). */
  function RecheckAsWritten(previous: bool, rows: seq<RawRow>): (ready: bool)
    ensures ScanIds(rows).None? ==> ready == previous
    ensures ScanIds(rows).Some? ==>
              (ready <==> AllIdsChosen(rows) && forall i :: 0 <= i < |rows| ==> |rows[i].quantity| != 0)
  {
    match ScanIds(rows)
    case None => previous
    case Some(chosen) => chosen && IngredientRows.AllQuantitiesFilled(QuantityView(rows))
  }

  /** When every existing row has an ingredient, the scan over the list with
      an appended row reaches that row and throws. */
  lemma {:induction false} AppendAbortsScan(rows: seq<RawRow>, freshId: string)
    requires AllIdsChosen(rows)
    ensures ScanIds(AppendAsWritten(rows, freshId)) == None
  {
    if rows != [] {
      assert AppendAsWritten(rows, freshId)[1..] == AppendAsWritten(rows[1..], freshId);
      AppendAbortsScan(rows[1..], freshId);
    }
  }

  /** So after an append the readiness flag is stale: it keeps its previous
      value, whatever the new row holds. */
  lemma StaleReadinessAfterAppend(rows: seq<RawRow>, freshId: string, previous: bool)
    requires AllIdsChosen(rows)
    ensures RecheckAsWritten(previous, AppendAsWritten(rows, freshId)) == previous
  {
    AppendAbortsScan(rows, freshId);
  }

  /** A concrete run: one complete row makes the list ready; after "+" the
      list holds an empty row, and readiness still says true. */
  lemma StaleReadinessExample()
    ensures var seed := [RawRow("1", Some("640c2dd963a319ea671e3772"), "200 g")];
            var ready := RecheckAsWritten(false, seed);
            var grown := AppendAsWritten(seed, "2");
            ready && |grown| == 2 && grown[1].ingredientId.None? && grown[1].quantity == "" &&
            RecheckAsWritten(ready, grown)
  {
    var seed := [RawRow("1", Some("640c2dd963a319ea671e3772"), "200 g")];
    assert RecheckAsWritten(false, seed);
    StaleReadinessAfterAppend(seed, "2", true);
  }
}
