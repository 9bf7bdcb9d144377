/** components/EntryForm.tsx: the form state (a FuelRecord), its
    single-field updates, the automatic total-cost effect and the
    submission guard. Each state update replaces the record, so each is a
    function returning the next record. */
module EntryForm {
  import opened Seqs
  import opened Text
  import opened Calendar
  import opened Types
  import opened Constants

  /** The form inputs, by their name attribute. totalCost appears in the
      handler's list of numeric fields but has no input of its own. */
  datatype Field = DateField | OdometerField | GallonsField | PriceField | NotesField

  predicate IsNumeric(f: Field)
  {
    f == OdometerField || f == GallonsField || f == PriceField
  }

  /** The value one field holds, for stating what a change touches. */
  datatype FieldValue = TextValue(text: string) | NumberValue(number: real) | NotesValue(notes: Option<string>)

  function Get(r: FuelRecord, f: Field): FieldValue
  {
    match f
    case DateField => TextValue(r.date)
    case OdometerField => NumberValue(r.odometer)
    case GallonsField => NumberValue(r.gallons)
    case PriceField => NumberValue(r.pricePerGallon)
    case NotesField => NotesValue(r.notes)
  }

  /** parseFloat(value) || 0: NaN (and zero) become 0. */
  function NumberOrZero(value: string): (x: real)
    ensures ParseFloat(value).None? ==> x == 0.0
    ensures ParseFloat(value).Some? ==> x == ParseFloat(value).value
  {
    match ParseFloat(value)
    case None => 0.0
    case Some(v) => v
  }

  /** handleChange: the named field takes the input's value, parsed for a
      numeric field and verbatim otherwise; notes become present. */
  function HandleChange(form: FuelRecord, f: Field, value: string): (next: FuelRecord)
    ensures next.id == form.id && next.totalCost == form.totalCost
    ensures Get(next, f) == match f
      case DateField => TextValue(value)
      case NotesField => NotesValue(Some(value))
      case _ => NumberValue(NumberOrZero(value))
    ensures forall g :: g != f ==> Get(next, g) == Get(form, g)
  {
    match f
    case DateField => form.(date := value)
    case OdometerField => form.(odometer := NumberOrZero(value))
    case GallonsField => form.(gallons := NumberOrZero(value))
    case PriceField => form.(pricePerGallon := NumberOrZero(value))
    case NotesField => form.(notes := Some(value))
  }

  /** A numeric input holding a decimal natural stores that number, and an
      emptied input stores 0. */
  lemma NumericInput(form: FuelRecord, f: Field, n: nat)
    requires IsNumeric(f)
    ensures Get(HandleChange(form, f, NatText(n)), f) == NumberValue(n as real)
    ensures Get(HandleChange(form, f, ""), f) == NumberValue(0.0)
  {
    ParseFloatNatText(n);
    ParseFloatEmpty();
  }

  /** The effect on gallons and pricePerGallon: when both are positive the
      total cost becomes their product; otherwise the form is left
      as it is. Nothing but totalCost changes. */
  function AutoCost(form: FuelRecord): (next: FuelRecord)
    ensures next.(totalCost := form.totalCost) == form
    ensures form.gallons > 0.0 && form.pricePerGallon > 0.0 ==>
      next.totalCost == form.gallons * form.pricePerGallon
    ensures !(form.gallons > 0.0 && form.pricePerGallon > 0.0) ==> next == form
  {
    if form.gallons > 0.0 && form.pricePerGallon > 0.0 then
      form.(totalCost := form.gallons * form.pricePerGallon)
    else form
  }

  /** Running the effect again changes nothing (it depends only on fields
      it does not write). */
  lemma AutoCostIdempotent(form: FuelRecord)
    ensures AutoCost(AutoCost(form)) == AutoCost(form)
  {
    var once := AutoCost(form);
    assert once.gallons == form.gallons && once.pricePerGallon == form.pricePerGallon;
  }

  /** The effect writes no input field. */
  lemma AutoCostKeepsInputs(form: FuelRecord)
    ensures forall g :: Get(AutoCost(form), g) == Get(form, g)
  {
    var next := AutoCost(form);
    assert next.date == form.date && next.odometer == form.odometer && next.gallons == form.gallons
      && next.pricePerGallon == form.pricePerGallon && next.notes == form.notes;
  }

  /** One edit of an input: the change, then the effect when gallons or
      pricePerGallon took a new value (its dependency list). */
  function Edit(form: FuelRecord, f: Field, value: string): FuelRecord
  {
    var next := HandleChange(form, f, value);
    if next.gallons != form.gallons || next.pricePerGallon != form.pricePerGallon then AutoCost(next)
    else next
  }

  /** After an edit leaves both gallons and price positive and one of them
      changed, the total cost is their product; an edit of another
      field keeps the total cost, including one typed in earlier. */
  lemma EditTotalCost(form: FuelRecord, f: Field, value: string)
    ensures f != GallonsField && f != PriceField ==> Edit(form, f, value).totalCost == form.totalCost
    ensures (f == GallonsField || f == PriceField) && Get(HandleChange(form, f, value), f) != Get(form, f)
            && Edit(form, f, value).gallons > 0.0 && Edit(form, f, value).pricePerGallon > 0.0
            ==> Edit(form, f, value).totalCost == Edit(form, f, value).gallons * Edit(form, f, value).pricePerGallon
    ensures forall g :: g != f ==> Get(Edit(form, f, value), g) == Get(form, g)
  {
    var next := HandleChange(form, f, value);
    var e := Edit(form, f, value);
    if f == DateField || f == OdometerField || f == NotesField {
      assert Get(next, GallonsField) == Get(form, GallonsField);
      assert Get(next, PriceField) == Get(form, PriceField);
      assert e == next;
    } else if next.gallons != form.gallons || next.pricePerGallon != form.pricePerGallon {
      assert e == AutoCost(next);
      AutoCostKeepsInputs(next);
    } else {
      assert e == next;
      assert Get(next, f) == Get(form, f);
    }
  }

  /** handleSubmit's guard: a date, and a positive odometer, volume and price. */
  predicate CanSubmit(form: FuelRecord)
  {
    form.date != "" && form.odometer > 0.0 && form.gallons > 0.0 && form.pricePerGallon > 0.0
  }

  /** handleSubmit: onSave receives the form unchanged, or nothing is saved. */
  function Submit(form: FuelRecord): (saved: Option<FuelRecord>)
    ensures saved.None? <==> form.date == "" || form.odometer <= 0.0 || form.gallons <= 0.0 || form.pricePerGallon <= 0.0
    ensures saved.Some? ==> saved.value == form
  {
    if !CanSubmit(form) then None else Some(form)
  }

  /** The state the form starts from: the record being edited, or
      INITIAL_RECORD with a fresh id (freshId stands for
      crypto.randomUUID()); the effect then runs once on mount. */
  function InitialForm(initialData: Option<FuelRecord>, freshId: string, loadDate: Date): FuelRecord
  {
    var start := match initialData
      case Some(r) => r
      case None => InitialRecord(loadDate).(id := freshId);
    AutoCost(start)
  }

  /** A new form is INITIAL_RECORD with the fresh id and cannot be
      submitted until odometer, gallons and price are filled in; an edit
      form is the edited record, its total cost recomputed when gallons and
      price are positive. */
  lemma InitialFormSpec(initialData: Option<FuelRecord>, freshId: string, loadDate: Date)
    ensures initialData.None? ==> InitialForm(initialData, freshId, loadDate) == InitialRecord(loadDate).(id := freshId)
    ensures initialData.None? ==> Submit(InitialForm(initialData, freshId, loadDate)).None?
    ensures initialData.Some? ==> InitialForm(initialData, freshId, loadDate).(totalCost := initialData.value.totalCost) == initialData.value
    ensures Submit(InitialRecord(loadDate)).None?
  {
  }
}
