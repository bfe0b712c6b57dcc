/**
  The add/edit item form: the draft it holds while the user types, the
  normalisation its submit handler applies before handing the fields to
  `onSave`, and the draft it starts from.
*/
module ItemForm {
  import opened Wrappers
  import opened Text
  import opened Inventory

  /** A numeric field of the form: a number, or something `Number(...)` turns into NaN. */
  datatype NumInput = Num(value: real) | NotANumber

  /** What the form holds while it is open. */
  datatype Draft = Draft(name: string, stock: NumInput, unit: string, threshold: NumInput, cost: NumInput)

  const DefaultUnit: string := "units"
  const DefaultThreshold: real := 5.0

  /** `Number(x) || 0`: NaN becomes 0; a number stays (a falsy 0 is replaced by 0, which is itself). */
  function NumberOrZero(x: NumInput): real {
    match x
    case NotANumber => 0.0
    case Num(v) => v
  }

  /** `unit.trim() || 'units'`. */
  function UnitOrDefault(unit: string): string {
    var u := Trim(unit);
    if u != "" then u else DefaultUnit
  }

  /**
    `handleSubmit`: a name that is blank once trimmed is refused (the handler
    just returns); otherwise the fields passed to `onSave` are the trimmed
    name, the numbers with NaN turned into 0 and the trimmed unit with
    "units" for a blank one.
  */
  function Normalize(d: Draft): Option<ItemData> {
    if Trim(d.name) == "" then None
    else Some(ItemData(Trim(d.name), NumberOrZero(d.stock), UnitOrDefault(d.unit),
                       NumberOrZero(d.threshold), NumberOrZero(d.cost)))
  }

  /** The shape of a saved item: name and unit trimmed and not empty. */
  predicate WellFormedData(d: ItemData) {
    d.name != "" && IsTrimmed(d.name) && d.unit != "" && IsTrimmed(d.unit)
  }

  /**
    What a submit does: it is refused exactly when the name is blank; an
    accepted one carries the trimmed name, the trimmed unit or "units" when
    the unit is blank, each number as typed or 0 for NaN, and is well formed.
  */
  lemma NormalizeSpec(d: Draft)
    ensures Normalize(d).None? <==> IsBlank(d.name)
    ensures Normalize(d).Some? ==>
      var r := Normalize(d).value;
      && WellFormedData(r)
      && r.name == Trim(d.name)
      && (IsBlank(d.unit) ==> r.unit == DefaultUnit)
      && (!IsBlank(d.unit) ==> r.unit == Trim(d.unit))
      && (d.stock.Num? ==> r.stock == d.stock.value) && (d.stock.NotANumber? ==> r.stock == 0.0)
      && (d.threshold.Num? ==> r.threshold == d.threshold.value) && (d.threshold.NotANumber? ==> r.threshold == 0.0)
      && (d.cost.Num? ==> r.cost == d.cost.value) && (d.cost.NotANumber? ==> r.cost == 0.0)
  {
    TrimSpec(d.name);
    TrimSpec(d.unit);
  }

  /** The draft that shows the saved fields `r` unchanged. */
  function DraftOf(r: ItemData): Draft {
    Draft(r.name, Num(r.stock), r.unit, Num(r.threshold), Num(r.cost))
  }

  /** Submitting a draft that shows well-formed saved fields gives back exactly those fields. */
  lemma NormalizeDraftOf(r: ItemData)
    requires WellFormedData(r)
    ensures Normalize(DraftOf(r)) == Some(r)
  {
    TrimmedIsFixed(r.name);
    TrimmedIsFixed(r.unit);
  }

  /** Normalising is idempotent: submitting what a submit produced reproduces it. */
  lemma NormalizeIdempotent(d: Draft)
    requires Normalize(d).Some?
    ensures Normalize(DraftOf(Normalize(d).value)) == Normalize(d)
  {
    NormalizeSpec(d);
    NormalizeDraftOf(Normalize(d).value);
  }

  // ---------------------------------------------------------------- initial draft

  /**
    The form's initial state as written: `itemToEdit?.name || ''`,
    `itemToEdit?.stock || 0`, `itemToEdit?.unit || 'units'`,
    `itemToEdit?.threshold || 5`, `itemToEdit?.cost || 0`. Each `||` also
    replaces a stored value that is falsy (0 or the empty string); for stock
    and cost the replacement is 0 again, so only the unit and the threshold
    can change.
  */
  function InitialDraftAsWritten(itemToEdit: Option<Item>): Draft {
    match itemToEdit
    case None => Draft("", Num(0.0), DefaultUnit, Num(DefaultThreshold), Num(0.0))
    case Some(it) =>
      Draft(it.name,
            Num(it.stock),
            if it.unit != "" then it.unit else DefaultUnit,
            Num(if it.threshold != 0.0 then it.threshold else DefaultThreshold),
            Num(it.cost))
  }

  /** The initial state with the defaults applied only when there is no item to edit (`??` instead of `||`). */
  function InitialDraft(itemToEdit: Option<Item>): Draft {
    match itemToEdit
    case None => Draft("", Num(0.0), DefaultUnit, Num(DefaultThreshold), Num(0.0))
    case Some(it) => DraftOf(DataOf(it))
  }

  /** A fresh add form cannot be submitted as it stands: its name is empty. */
  lemma NewFormRefusedUntilNamed()
    ensures Normalize(InitialDraftAsWritten(None)) == None
    ensures Normalize(InitialDraft(None)) == None
  {
    assert IsBlank("");
  }

  /**
    As written, opening a well-formed item for editing and saving it untouched
    gives back the item's own fields exactly when its threshold is not 0.
  */
  lemma EditRoundTripAsWritten(item: Item)
    requires WellFormedData(DataOf(item))
    ensures Normalize(InitialDraftAsWritten(Some(item))) == Some(DataOf(item)) <==> item.threshold != 0.0
  {
    var d := InitialDraftAsWritten(Some(item));
    TrimmedIsFixed(item.name);
    TrimmedIsFixed(item.unit);
    if item.threshold == 0.0 {
      assert Normalize(d).value.threshold == DefaultThreshold;
    } else {
      assert d == DraftOf(DataOf(item));
      NormalizeDraftOf(DataOf(item));
    }
  }

  /** The input that shows it: an item stored with threshold 0 comes back from an untouched edit with threshold 5. */
  lemma ZeroThresholdComesBackAsFive()
    ensures var item := Item("9", "Basil", 1.0, "kg", 0.0, 2.0);
      Normalize(InitialDraftAsWritten(Some(item))) == Some(ItemData("Basil", 1.0, "kg", 5.0, 2.0))
  {
    var item := Item("9", "Basil", 1.0, "kg", 0.0, 2.0);
    TrimmedIsFixed(item.name);
    TrimmedIsFixed(item.unit);
  }

  /** With the corrected initial state, opening a well-formed item and saving it untouched gives back its own fields. */
  lemma EditRoundTrip(item: Item)
    requires WellFormedData(DataOf(item))
    ensures Normalize(InitialDraft(Some(item))) == Some(DataOf(item))
  {
    NormalizeDraftOf(DataOf(item));
  }
}
