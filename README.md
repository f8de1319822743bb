# Recipe form bookkeeping, in Dafny

This project models the in-memory bookkeeping of the "add recipe" form
component (`AddRecipeForm`). The form keeps four pieces of state:

- the description fields (title, description, category, time);
- an ordered list of ingredient rows, each with a row id, the chosen
  ingredient's reference (`_id`) and a quantity text;
- the preparation steps, which are the text area's content split on newlines;
- three readiness flags and the derived `isValid` flag that enables submission.

Modules:

- `IngredientRows` (`ingredient_rows.dfy`) covers the pure row transforms.
  These are the `filter` of the delete handler, the `map` of the two change
  handlers, the two `every` readiness scans, and the `{id, measure}`
  projection used on submit. Each comes with lemmas.
- `PreparationSteps` (`preparation_steps.dfy`) holds `Split` on `'\n'` and its
  inverse `Join`, proved to round-trip both ways.
- `AddRecipeForm` (`add_recipe_form.dfy`) holds the class `Form`. Its fields
  are the component's state and its methods are the handlers. The invariant
  `Valid()` says four things:
  - there is at least one row;
  - row ids are unique;
  - the ingredient flag equals the readiness scan of the current rows;
  - `isValid` is the conjunction of the three flags.
- `AsWrittenReadiness` (`as_written_readiness.dfy`) models the readiness scan
  as the code actually runs it on rows appended by the "+" handler (see
  Findings).
- `Wrappers` (`wrappers.dfy`) holds `Option`.

Modelling choices:

- Row ids are strings. The delete handler compares `id.toString()` values and
  the change handlers use `===`. For string ids these agree.
- The DOM lookup of the clicked row (`closest('li').id`) becomes an explicit
  `target` argument.
- `nanoid()` becomes a `freshId` argument that must not already be a row id.
- The failure toast of the two removal handlers becomes a returned
  `Some(MinOneIngredient)`, carrying the literal message.
- The seed rows and seed fields come from a helper file that is not part of
  this model. They are constructor arguments. The seed rows must be non-empty
  and have unique ids.
- Unique ids are part of the invariant. Without them the delete filter could
  remove several rows at once and empty the list.
- The readiness effect runs in a `setTimeout(…, 1)` callback. Here it is
  recomputed in the same step as the change that triggers it.

## Model

| member | source | states |
|---|---|---|
| `IngredientRows.Without` | src/components/AddRecipe/AddRecipeForm/AddRecipeForm.jsx:124-126 | the filtered list is never longer than the input |
| `IngredientRows.WithoutMembers` | src/components/AddRecipe/AddRecipeForm/AddRecipeForm.jsx:124-126 | a row is in the filtered list iff it was in the input and its id differs from the target |
| `IngredientRows.WithoutConcat` | src/components/AddRecipe/AddRecipeForm/AddRecipeForm.jsx:124-126 | filtering distributes over concatenation, so the surviving rows keep their relative order |
| `IngredientRows.WithoutAbsent` | src/components/AddRecipe/AddRecipeForm/AddRecipeForm.jsx:124-126 | deleting an id no row carries leaves the list unchanged |
| `IngredientRows.WithoutSplice` | src/components/AddRecipe/AddRecipeForm/AddRecipeForm.jsx:122-128 | deleting the id of a row whose id occurs nowhere else removes exactly that row and keeps the rows on either side in order |
| `IngredientRows.OnlyRowSplit` | src/components/AddRecipe/AddRecipeForm/AddRecipeForm.jsx:122-128 | if no other row shares row k's id, that id occurs neither before nor after row k |
| `IngredientRows.WithoutAt` | src/components/AddRecipe/AddRecipeForm/AddRecipeForm.jsx:122-128 | if no other row shares row k's id, deleting that id yields exactly `rows[..k] + rows[k+1..]` |
| `IngredientRows.WithoutKeepsOne` | src/components/AddRecipe/AddRecipeForm/AddRecipeForm.jsx:122-133 | with unique ids, deletion keeps ids unique; it drops exactly one row when the id is present and none otherwise; so a list of two or more rows keeps at least one |
| `IngredientRows.WithoutKeepsReady` | src/components/AddRecipe/AddRecipeForm/AddRecipeForm.jsx:122-128 | filtering rows out of a ready list leaves it ready |
| `IngredientRows.SpliceKeepsUnique` | src/components/AddRecipe/AddRecipeForm/AddRecipeForm.jsx:113-118 | splicing one row out of a list with unique ids keeps them unique |
| `IngredientRows.WithIngredient` | src/components/AddRecipe/AddRecipeForm/AddRecipeForm.jsx:135-145 | length, row ids and quantities are preserved; rows with the target id get the new reference; every other row is unchanged |
| `IngredientRows.WithQuantity` | src/components/AddRecipe/AddRecipeForm/AddRecipeForm.jsx:147-157 | length, row ids and references are preserved; rows with the target id get the new quantity; every other row is unchanged |
| `IngredientRows.AllIngredientsChosen` | src/components/AddRecipe/AddRecipeForm/AddRecipeForm.jsx:38-40 | the short-circuit scan is true iff every row's reference has non-zero length |
| `IngredientRows.AllQuantitiesFilled` | src/components/AddRecipe/AddRecipeForm/AddRecipeForm.jsx:42-44 | the short-circuit scan is true iff every row's quantity has non-zero length |
| `IngredientRows.IngredientsReady` | src/components/AddRecipe/AddRecipeForm/AddRecipeForm.jsx:36-49 | the list is ready iff every row has both a non-empty reference and a non-empty quantity |
| `IngredientRows.AppendedRowNotReady` | src/components/AddRecipe/AddRecipeForm/AddRecipeForm.jsx:101-109 | after a fresh empty row is appended the list is not ready |
| `IngredientRows.ClearingIngredientUnreadies` | src/components/AddRecipe/AddRecipeForm/AddRecipeForm.jsx:135-145 | emptying the reference of any existing row makes the list not ready |
| `IngredientRows.ClearingQuantityUnreadies` | src/components/AddRecipe/AddRecipeForm/AddRecipeForm.jsx:147-157 | emptying the quantity of any existing row makes the list not ready |
| `IngredientRows.MeasuringLastGapReadies` | src/components/AddRecipe/AddRecipeForm/AddRecipeForm.jsx:147-157 | if row k lacks only its quantity and no other row shares its id, entering a non-empty quantity makes the list ready |
| `IngredientRows.FillingLastGapReadies` | src/components/AddRecipe/AddRecipeForm/AddRecipeForm.jsx:135-157 | if row k is the only incomplete row and no other row shares its id, choosing its ingredient and entering its quantity makes the list ready |
| `IngredientRows.Project` | src/components/AddRecipe/AddRecipeForm/AddRecipeForm.jsx:64-67 | the projection has the rows' length and order; entry i is `{id: rows[i]._id, measure: rows[i].quantity}` |
| `IngredientRows.ReadyIffPayloadComplete` | src/components/AddRecipe/AddRecipeForm/AddRecipeForm.jsx:64-67 | the rows are ready iff no projected entry has an empty id or measure |
| `PreparationSteps.Split` | src/components/AddRecipe/AddRecipeForm/AddRecipeForm.jsx:160 | there is at least one piece and no piece contains a newline |
| `PreparationSteps.SplitCount` | src/components/AddRecipe/AddRecipeForm/AddRecipeForm.jsx:160 | the number of pieces is the number of newlines in the text plus one |
| `PreparationSteps.JoinSplit` | src/components/AddRecipe/AddRecipeForm/AddRecipeForm.jsx:159-161 | joining the pieces with newlines gives back the original text |
| `PreparationSteps.SplitPrefix` | src/components/AddRecipe/AddRecipeForm/AddRecipeForm.jsx:160 | a newline-free prefix is glued onto the first piece of the rest |
| `PreparationSteps.SplitNewline` | src/components/AddRecipe/AddRecipeForm/AddRecipeForm.jsx:160 | a leading newline starts a new, empty first piece |
| `PreparationSteps.SplitJoin` | src/components/AddRecipe/AddRecipeForm/AddRecipeForm.jsx:160 | splitting newline-free pieces joined with newlines gives back the pieces |
| `PreparationSteps.JoinCons` | src/components/AddRecipe/AddRecipeForm/AddRecipeForm.jsx:160 | joining two or more pieces puts a newline after the first piece |
| `PreparationSteps.JoinConsFirst` | src/components/AddRecipe/AddRecipeForm/AddRecipeForm.jsx:160 | prefixing a character to the first piece prefixes it to the joined text |
| `PreparationSteps.SplitExamples` | src/components/AddRecipe/AddRecipeForm/AddRecipeForm.jsx:160 | `"a\nb\nc"` splits into `["a","b","c"]` and the empty text into `[""]` |
| `AddRecipeForm.WithField` | src/components/AddRecipe/AddRecipeForm/AddRecipeForm.jsx:94-99 | the named field gets the new value and every other field keeps its value |
| `AddRecipeForm.Form.constructor` | src/components/AddRecipe/AddRecipeForm/AddRecipeForm.jsx:18-27 | the form starts from the seed fields and rows, with no steps, the description and preparation flags false and submission disabled |
| `AddRecipeForm.Form.RecheckSubmitGate` | src/components/AddRecipe/AddRecipeForm/AddRecipeForm.jsx:51-57 | `isValid` becomes the conjunction of the three readiness flags, and nothing else changes |
| `AddRecipeForm.Form.RecheckIngredients` | src/components/AddRecipe/AddRecipeForm/AddRecipeForm.jsx:36-49 | the ingredient flag is recomputed from the current rows and the gate follows, restoring `Valid()` |
| `AddRecipeForm.Form.SetDescriptionReady` | src/components/AddRecipe/AddRecipeForm/AddRecipeForm.jsx:165-170 | the description flag takes the reported value and the gate is recomputed |
| `AddRecipeForm.Form.SetStepsReady` | src/components/AddRecipe/AddRecipeForm/AddRecipeForm.jsx:179-184 | the preparation flag takes the reported value and the gate is recomputed |
| `AddRecipeForm.Form.ChangeDescriptionField` | src/components/AddRecipe/AddRecipeForm/AddRecipeForm.jsx:94-99 | only the named description field changes |
| `AddRecipeForm.Form.Increment` | src/components/AddRecipe/AddRecipeForm/AddRecipeForm.jsx:101-110 | the old rows stay as a prefix and one row with the fresh id, an empty reference and an empty quantity (`IngredientRows.EmptyRow`, the row built at :104-108 with its reference stored as `_id`) is appended; the ingredient flag and the gate become false; the invariant is kept |
| `AddRecipeForm.Form.Decrement` | src/components/AddRecipe/AddRecipeForm/AddRecipeForm.jsx:112-120 | on one row nothing changes and the notification is returned; otherwise exactly the last row is removed; readiness is never lost; at least one row always remains |
| `AddRecipeForm.Form.Delete` | src/components/AddRecipe/AddRecipeForm/AddRecipeForm.jsx:122-133 | on one row nothing changes and the notification is returned; otherwise the rows become the filter by id; length drops by at most one; at least one row always remains |
| `AddRecipeForm.Form.ChangeIngredient` | src/components/AddRecipe/AddRecipeForm/AddRecipeForm.jsx:135-145 | the rows become `WithIngredient` of the old rows; ids stay unique and the flags are recomputed |
| `AddRecipeForm.Form.ChangeMeasure` | src/components/AddRecipe/AddRecipeForm/AddRecipeForm.jsx:147-157 | the rows become `WithQuantity` of the old rows; ids stay unique and the flags are recomputed |
| `AddRecipeForm.Form.ChangeText` | src/components/AddRecipe/AddRecipeForm/AddRecipeForm.jsx:159-161 | the steps become the newline split of the text, and joining them gives the text back |
| `AddRecipeForm.Form.Submit` | src/components/AddRecipe/AddRecipeForm/AddRecipeForm.jsx:59-79 | the payload carries the four description fields, the projected rows and the steps; when submission is enabled every entry has an id and a measure |
| `AsWrittenReadiness.ScanIds` | src/components/AddRecipe/AddRecipeForm/AddRecipeForm.jsx:38-40 | the scan over rows that may lack `_id` yields true iff every row has a non-empty `_id` |
| `AsWrittenReadiness.AppendAsWritten` | src/components/AddRecipe/AddRecipeForm/AddRecipeForm.jsx:101-110 | the old rows stay as a prefix; the appended row has the fresh id, an empty quantity and no `_id` at all |
| `AsWrittenReadiness.QuantityView` | src/components/AddRecipe/AddRecipeForm/AddRecipeForm.jsx:42-44 | the rows the quantity scan sees keep their order, ids and quantities |
| `AsWrittenReadiness.RecheckAsWritten` | src/components/AddRecipe/AddRecipeForm/AddRecipeForm.jsx:37-48 | when the `_id` scan throws the flag keeps its previous value; otherwise it is true iff every row has a non-empty `_id` and a non-empty quantity |
| `AsWrittenReadiness.AppendAbortsScan` | src/components/AddRecipe/AddRecipeForm/AddRecipeForm.jsx:101-110 | if every existing row has a non-empty `_id`, the scan over the list after "+" reaches the new row and throws |
| `AsWrittenReadiness.StaleReadinessAfterAppend` | src/components/AddRecipe/AddRecipeForm/AddRecipeForm.jsx:36-49 | in that case the readiness flag keeps its previous value |
| `AsWrittenReadiness.StaleReadinessExample` | src/components/AddRecipe/AddRecipeForm/AddRecipeForm.jsx:101-110 | one complete row gives readiness true; after "+" the list holds an empty row and readiness is still true |

## Left out

- React scheduling is not modelled. This covers `useState`/`useEffect`, the re-render cycle and the one-tick `setTimeout` deferral of the readiness scan. Readiness is recomputed synchronously from the post-change rows.
- The remote write is not modelled. This covers `dispatch(addMyRecipes(…))`, the shared error selector, the `Promise.resolve(…).then` that navigates to `/my` when no error was read, and the error toast effect. They are asynchronous and external, and the `then` reads a stale `error` from the closure.
- `FormData` and the `JSON.stringify` encoding of `ingredients` and `instructions` are not modelled. `Submit` returns the structured payload those are built from.
- The photo file reference (`recipeImage`) is a browser file object and is not part of the payload datatype.
- `nanoid`, the DOM lookup of the clicked row and the `Notify` toasts are foreign calls. They appear only as the `freshId` argument, the `target` argument and the returned notice.
- The JSX and the three child field components are not part of this model. The description and preparation readiness rules live in those children, so their flags enter as reported booleans through `SetDescriptionReady` and `SetStepsReady`.
- AddRecipeForm.Form.ChangeDescriptionField: keys are limited to the four fields the submit handler reads. The source's `[name]: value` would also accept an arbitrary new key.
- AddRecipeForm.Form.constructor: the seed file is not part of this model. It requires a non-empty seed with unique row ids, which the invariant needs.

## Findings

| source | as written | input that shows it | evidently intended | confidence | as-written member | corrected member |
|---|---|---|---|---|---|---|
| src/components/AddRecipe/AddRecipeForm/AddRecipeForm.jsx:101-110 | the "+" handler stores the new row's reference under `ingredient`, so the row has no `_id`; the readiness scan at :38-40 then reads `undefined.length` and throws inside the deferred callback, and the readiness flag keeps its old value | one row `{id: "1", _id: "640c…", quantity: "200 g"}` (ready), then "+": the list holds an empty row and readiness stays true, so `isValid` can stay true | the appended row has an empty `_id`, so the list becomes not ready | not executed; medium (the child components, whose source is not part of this model, might write `_id` before the scan runs) | `AsWrittenReadiness.StaleReadinessExample` | `IngredientRows.AppendedRowNotReady` |
