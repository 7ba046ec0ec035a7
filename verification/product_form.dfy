/**
 * The product form: its default draft, the validator (as written, and with
 * the stock rule its own message describes), field edits that clear only
 * their own error, the numeric parse fallback, and the submit gate.
 */
module ProductForm {
  import opened Common

  datatype Draft = Draft(
    name: string,
    description: string,
    price: real,
    imageUrl: string,
    category: string,
    stock: int,
    prescriptionRequired: bool)

  const DefaultDraft := Draft("", "", 0.0, "", "", 0, false)

  datatype Field = NameField | DescriptionField | PriceField | ImageField | CategoryField | StockField | PrescriptionField

  /** The fields the validator can flag. */
  predicate Checked(f: Field) {
    f == NameField || f == PriceField || f == StockField
  }

  type Errors = map<Field, string>

  const NameRequired := "Name is required"
  const PriceMessage := "Price must be greater than 0"
  const StockMessage := "Stock quantity must be 0 or greater"

  /** The error map for three verdicts, each flagged field carrying its message. */
  function Flags(nameMissing: bool, priceBad: bool, stockBad: bool): (e: Errors)
    ensures NameField in e <==> nameMissing
    ensures PriceField in e <==> priceBad
    ensures StockField in e <==> stockBad
    ensures forall f :: f in e ==> Checked(f)
    ensures NameField in e ==> e[NameField] == NameRequired
    ensures PriceField in e ==> e[PriceField] == PriceMessage
    ensures StockField in e ==> e[StockField] == StockMessage
  {
    var n: Errors := if nameMissing then map[NameField := NameRequired] else map[];
    var p: Errors := if priceBad then map[PriceField := PriceMessage] else map[];
    var s: Errors := if stockBad then map[StockField := StockMessage] else map[];
    n + p + s
  }

  /** `validateForm` as written: `!stock || stock < 0` flags stock 0 as well. */
  function ValidateAsWritten(d: Draft): (e: Errors)
    ensures NameField in e <==> AllSpace(d.name)
    ensures PriceField in e <==> d.price <= 0.0
    ensures StockField in e <==> d.stock <= 0
    ensures forall f :: f in e ==> Checked(f)
    ensures NameField in e ==> e[NameField] == NameRequired
    ensures PriceField in e ==> e[PriceField] == PriceMessage
    ensures StockField in e ==> e[StockField] == StockMessage
  {
    Flags(Trim(d.name) == "", d.price <= 0.0, d.stock <= 0)
  }

  /** A well-formed product with no stock is refused, with a message that says 0 is allowed. */
  lemma StockZeroRejectedAsWritten()
    ensures var d := DefaultDraft.(name := "Aspirin", price := 1.0);
      d.stock == 0 && StockField in ValidateAsWritten(d) && ValidateAsWritten(d)[StockField] == StockMessage &&
      ValidateAsWritten(d).Keys == {StockField}
  {
    var d := DefaultDraft.(name := "Aspirin", price := 1.0);
    assert !IsSpace(d.name[0]);
  }

  /** The validator with the stock rule the message states: only a negative stock is refused. */
  function Validate(d: Draft): (e: Errors)
    ensures NameField in e <==> AllSpace(d.name)
    ensures PriceField in e <==> d.price <= 0.0
    ensures StockField in e <==> d.stock < 0
    ensures forall f :: f in e ==> Checked(f)
    ensures NameField in e ==> e[NameField] == NameRequired
    ensures PriceField in e ==> e[PriceField] == PriceMessage
    ensures StockField in e ==> e[StockField] == StockMessage
  {
    Flags(Trim(d.name) == "", d.price <= 0.0, d.stock < 0)
  }

  /** The two validators differ exactly on a stock of 0. */
  lemma ValidatorsDifferOnlyAtZeroStock(d: Draft)
    ensures d.stock != 0 ==> Validate(d) == ValidateAsWritten(d)
    ensures d.stock == 0 ==> ValidateAsWritten(d) == Validate(d)[StockField := StockMessage]
  {
  }

  predicate Valid(e: Errors) {
    e == map[]
  }

  /** A fresh form cannot be saved: its name is empty and its price is 0. */
  lemma DefaultDraftIsInvalid()
    ensures NameField in Validate(DefaultDraft) && PriceField in Validate(DefaultDraft)
    ensures StockField !in Validate(DefaultDraft)
    ensures StockField in ValidateAsWritten(DefaultDraft)
    ensures !Valid(Validate(DefaultDraft)) && !Valid(ValidateAsWritten(DefaultDraft))
  {
    assert AllSpace(DefaultDraft.name);
  }

  // ---------------------------------------------------------------------
  // Editing
  // ---------------------------------------------------------------------

  /** The value an input hands over; a numeric input's text may not parse (None). */
  datatype Edit =
    | SetName(text: string)
    | SetDescription(text: string)
    | SetPrice(parsedPrice: Option<real>)
    | SetImage(text: string)
    | SetCategory(text: string)
    | SetStock(parsedStock: Option<int>)
    | SetPrescription(flag: bool)

  function EditField(e: Edit): Field {
    match e
    case SetName(_) => NameField
    case SetDescription(_) => DescriptionField
    case SetPrice(_) => PriceField
    case SetImage(_) => ImageField
    case SetCategory(_) => CategoryField
    case SetStock(_) => StockField
    case SetPrescription(_) => PrescriptionField
  }

  datatype Value = Text(text: string) | Decimal(decimal: real) | Whole(whole: int) | Flag(flag: bool)

  function FieldValue(d: Draft, f: Field): Value {
    match f
    case NameField => Text(d.name)
    case DescriptionField => Text(d.description)
    case PriceField => Decimal(d.price)
    case ImageField => Text(d.imageUrl)
    case CategoryField => Text(d.category)
    case StockField => Whole(d.stock)
    case PrescriptionField => Flag(d.prescriptionRequired)
  }

  datatype FormState = FormState(draft: Draft, errors: Errors)

  const InitialForm := FormState(DefaultDraft, map[])

  /** `handleInputChange`: unparsable numbers become 0. */
  function ApplyEdit(s: FormState, e: Edit): (r: FormState)
    ensures forall f :: f != EditField(e) ==> FieldValue(r.draft, f) == FieldValue(s.draft, f)
    ensures r.errors == s.errors - {EditField(e)}
    ensures e.SetPrice? ==> r.draft.price == (if e.parsedPrice.Some? then e.parsedPrice.value else 0.0)
    ensures e.SetStock? ==> r.draft.stock == (if e.parsedStock.Some? then e.parsedStock.value else 0)
    ensures e.SetName? ==> r.draft.name == e.text
  {
    var d := s.draft;
    var d' := match e
      case SetName(t) => d.(name := t)
      case SetDescription(t) => d.(description := t)
      case SetPrice(p) => d.(price := if p.Some? then p.value else 0.0)
      case SetImage(t) => d.(imageUrl := t)
      case SetCategory(t) => d.(category := t)
      case SetStock(n) => d.(stock := if n.Some? then n.value else 0)
      case SetPrescription(b) => d.(prescriptionRequired := b);
    FormState(d', s.errors - {EditField(e)})
  }

  /** An unparsable price leaves the form with a price error at the next validation. */
  lemma UnparsablePriceIsRejected(s: FormState)
    ensures PriceField in Validate(ApplyEdit(s, SetPrice(None)).draft)
  {
  }

  datatype SubmitResult = SubmitResult(state: FormState, closed: bool)

  /** Replaces the form's errors by `e`; the form is saved and closed exactly when `e` is empty. */
  function SubmitWith(s: FormState, e: Errors): (r: SubmitResult)
    ensures r.state.draft == s.draft && r.state.errors == e
    ensures r.closed <==> e == map[]
  {
    SubmitResult(FormState(s.draft, e), Valid(e))
  }

  /** Under either validator, the form closes exactly when no field is flagged. */
  lemma ClosedIffNoFieldFlagged(e: Errors)
    requires forall f :: f in e ==> Checked(f)
    ensures Valid(e) <==> NameField !in e && PriceField !in e && StockField !in e
  {
    if !Valid(e) {
      assert exists f :: f in e;
    }
  }

  /**
   * `handleSubmit` as written: the errors are replaced by `validateForm`'s,
   * so a stock of 0 keeps the form open.
   */
  function Submit(s: FormState): (r: SubmitResult)
    ensures r.state.draft == s.draft && r.state.errors == ValidateAsWritten(s.draft)
    ensures r.closed <==> !AllSpace(s.draft.name) && s.draft.price > 0.0 && s.draft.stock > 0
  {
    var e := ValidateAsWritten(s.draft);
    ClosedIffNoFieldFlagged(e);
    SubmitWith(s, e)
  }

  /** `handleSubmit` with the corrected validator: a stock of 0 is saved. */
  function SubmitIntended(s: FormState): (r: SubmitResult)
    ensures r.state.draft == s.draft && r.state.errors == Validate(s.draft)
    ensures r.closed <==> !AllSpace(s.draft.name) && s.draft.price > 0.0 && s.draft.stock >= 0
  {
    var e := Validate(s.draft);
    ClosedIffNoFieldFlagged(e);
    SubmitWith(s, e)
  }

  /**
   * The two submits close the same forms except a well-formed one with no
   * stock, which only the corrected one saves.
   */
  lemma SubmitsDifferOnlyAtZeroStock(s: FormState)
    ensures s.draft.stock != 0 ==> Submit(s) == SubmitIntended(s)
    ensures Submit(s).closed ==> SubmitIntended(s).closed
    ensures SubmitIntended(s).closed && !Submit(s).closed <==> SubmitIntended(s).closed && s.draft.stock == 0
  {
    ValidatorsDifferOnlyAtZeroStock(s.draft);
  }

  /** The draft named "Aspirin" at price 1 and stock 0 stays open as written and is saved as intended. */
  lemma ZeroStockDraftSavedOnlyAsIntended(errors: Errors)
    ensures var s := FormState(DefaultDraft.(name := "Aspirin", price := 1.0), errors);
      !Submit(s).closed && SubmitIntended(s).closed
  {
    var d := DefaultDraft.(name := "Aspirin", price := 1.0);
    assert !IsSpace(d.name[0]);
  }
}
