/**
  The recipe form's coordinator: the state the component keeps (description
  fields, ingredient rows, preparation steps and the three readiness flags)
  and the handlers that replace it. Readiness is recomputed in the same step
  as the change that triggers it.
 */
module AddRecipeForm {
  import opened Wrappers
  import opened IngredientRows
  import opened PreparationSteps

  /** The notification raised when a removal would leave no ingredient row. */
  const MinOneIngredient: string := "Sorry, you need to add at least one ingredient"

  /** The four text fields of the description section. */
  datatype Description = Description(title: string, description: string, category: string, time: string)

  /** The keys the description section updates. */
  datatype FieldName = Title | DescriptionText | Category | Time

  /** The value stored under a key. */
  function Field(d: Description, name: FieldName): string {
    match name
    case Title => d.title
    case DescriptionText => d.description
    case Category => d.category
    case Time => d.time
  }

  /** `{...prevState, [name]: value}`: the named field gets `value`, every
      other field keeps its value. */
  function WithField(d: Description, name: FieldName, value: string): (r: Description)
    ensures Field(r, name) == value
    ensures forall other :: other != name ==> Field(r, other) == Field(d, other)
  {
    match name
    case Title => d.(title := value)
    case DescriptionText => d.(description := value)
    case Category => d.(category := value)
    case Time => d.(time := value)
  }

  /** What the submit handler hands to the remote write: the description
      fields, the projected ingredients and the preparation steps. */
  datatype Payload = Payload(
    title: string,
    description: string,
    category: string,
    time: string,
    ingredients: seq<Entry>,
    instructions: seq<string>)

  class Form {
    var fields: Description
    var descriptionReady: bool
    var rows: seq<Row>
    var ingredientsReady: bool
    var steps: seq<string>
    var stepsReady: bool
    var isValid: bool

    /** The ingredient list holds at least one row and its ids are unique. */
    ghost predicate RowsValid()
      reads this
    {
      |rows| >= 1 && UniqueIds(rows)
    }

    /** The form's invariant: besides RowsValid, the ingredient flag reflects
        the current rows and submission is enabled exactly when all three
        readiness flags are set. */
    ghost predicate Valid()
      reads this
    {
      RowsValid() &&
      ingredientsReady == IngredientsReady(rows) &&
      isValid == (descriptionReady && ingredientsReady && stepsReady)
    }

    /** Mounting the form with its seed fields and seed ingredient rows. */
    constructor (seedFields: Description, seedRows: seq<Row>)
      requires |seedRows| >= 1 && UniqueIds(seedRows)
      ensures Valid()
      ensures fields == seedFields && rows == seedRows && steps == []
      ensures !descriptionReady && !stepsReady && !isValid
    {
      fields := seedFields;
      descriptionReady := false;
      rows := seedRows;
      ingredientsReady := IngredientsReady(seedRows);
      steps := [];
      stepsReady := false;
      isValid := false;
    }

    /** The submit-gate effect: enabled exactly when all three flags are set. */
    method RecheckSubmitGate()
      modifies this`isValid
      ensures isValid == (descriptionReady && ingredientsReady && stepsReady)
    {
      if descriptionReady && ingredientsReady && stepsReady {
        isValid := true;
      } else {
        isValid := false;
      }
    }

    /** The readiness effect that follows every change to the rows, and the
        submit-gate effect that follows it. */
    method RecheckIngredients()
      requires RowsValid()
      modifies this`ingredientsReady, this`isValid
      ensures Valid()
    {
      ingredientsReady := IngredientsReady(rows);
      RecheckSubmitGate();
    }

    /** The description section reports its readiness. */
    method SetDescriptionReady(ready: bool)
      requires Valid()
      modifies this`descriptionReady, this`isValid
      ensures Valid() && descriptionReady == ready
      ensures isValid == (ready && ingredientsReady && stepsReady)
    {
      descriptionReady := ready;
      RecheckSubmitGate();
    }

    /** The preparation section reports its readiness. */
    method SetStepsReady(ready: bool)
      requires Valid()
      modifies this`stepsReady, this`isValid
      ensures Valid() && stepsReady == ready
      ensures isValid == (descriptionReady && ingredientsReady && ready)
    {
      stepsReady := ready;
      RecheckSubmitGate();
    }

    /** A keyed update of one description field. */
    method ChangeDescriptionField(name: FieldName, value: string)
      requires Valid()
      modifies this`fields
      ensures Valid()
      ensures Field(fields, name) == value
      ensures forall other :: other != name ==> Field(fields, other) == Field(old(fields), other)
    {
      fields := WithField(fields, name, value);
    }

    /** The "+" button: a fresh empty row is appended after the existing
        ones, which leaves the list, and so the form, not ready. */
    method Increment(freshId: string)
      requires Valid() && IdAbsent(rows, freshId)
      modifies this`rows, this`ingredientsReady, this`isValid
      ensures Valid()
      ensures rows == old(rows) + [EmptyRow(freshId)]
      ensures !ingredientsReady && !isValid
    {
      AppendedRowNotReady(rows, freshId);
      rows := rows + [EmptyRow(freshId)];
      RecheckIngredients();
    }

    /** The "-" button: the last row is removed, unless it is the only one,
        in which case nothing changes and the notification is returned. */
    method Decrement() returns (notice: Option<string>)
      requires Valid()
      modifies this`rows, this`ingredientsReady, this`isValid
      ensures Valid()
      ensures |old(rows)| == 1 ==> notice == Some(MinOneIngredient) && rows == old(rows)
      ensures |old(rows)| > 1 ==> notice == None && rows == old(rows)[..|old(rows)| - 1]
      ensures old(ingredientsReady) ==> ingredientsReady
    {
      if |rows| == 1 {
        notice := Some(MinOneIngredient);
        return;
      }
      SpliceKeepsUnique(rows, |rows| - 1);
      assert rows[..|rows| - 1] + rows[|rows|..] == rows[..|rows| - 1];
      rows := rows[..|rows| - 1];
      notice := None;
      RecheckIngredients();
    }

    /** The delete button of row `target`: with more than one row, every row
        with that id is filtered out; with one row, nothing changes and the
        notification is returned. */
    method Delete(target: string) returns (notice: Option<string>)
      requires Valid()
      modifies this`rows, this`ingredientsReady, this`isValid
      ensures Valid()
      ensures |old(rows)| == 1 ==> notice == Some(MinOneIngredient) && rows == old(rows)
      ensures |old(rows)| > 1 ==> notice == None && rows == Without(old(rows), target)
      ensures |old(rows)| - 1 <= |rows| <= |old(rows)|
      ensures old(ingredientsReady) ==> ingredientsReady
    {
      if |rows| > 1 {
        WithoutKeepsOne(rows, target);
        if ingredientsReady { WithoutKeepsReady(rows, target); }
        rows := Without(rows, target);
        notice := None;
        RecheckIngredients();
      } else {
        notice := Some(MinOneIngredient);
      }
    }

    /** An ingredient is chosen for row `target`. */
    method ChangeIngredient(target: string, ingredientId: string)
      requires Valid()
      modifies this`rows, this`ingredientsReady, this`isValid
      ensures Valid()
      ensures rows == WithIngredient(old(rows), target, ingredientId)
    {
      rows := WithIngredient(rows, target, ingredientId);
      RecheckIngredients();
    }

    /** A quantity is typed into row `target`. */
    method ChangeMeasure(target: string, quantity: string)
      requires Valid()
      modifies this`rows, this`ingredientsReady, this`isValid
      ensures Valid()
      ensures rows == WithQuantity(old(rows), target, quantity)
    {
      rows := WithQuantity(rows, target, quantity);
      RecheckIngredients();
    }

    /** The preparation text changes: it is kept as its newline-separated
        lines, from which the text can be rebuilt. */
    method ChangeText(text: string)
      requires Valid()
      modifies this`steps
      ensures Valid()
      ensures steps == Split(text) && Join(steps) == text
    {
      steps := Split(text);
      JoinSplit(text);
    }

    /** The payload assembled on submit. Once submission is enabled, every
        ingredient entry names an ingredient and a measure. */
    method Submit() returns (payload: Payload)
      requires Valid()
      ensures payload.title == fields.title && payload.description == fields.description
      ensures payload.category == fields.category && payload.time == fields.time
      ensures payload.ingredients == Project(rows) && payload.instructions == steps
      ensures isValid ==> EntriesComplete(payload.ingredients)
    {
      var ingredients := Project(rows);
      ReadyIffPayloadComplete(rows);
      payload := Payload(fields.title, fields.description, fields.category, fields.time, ingredients, steps);
    }
  }
}
