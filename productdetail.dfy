/** The logic of the product detail page (src/pages/ProductDetail.tsx): the
    validation of the edit form, the edits that clear a field's error, the
    guards of the stock-movement form and its reset after a recorded movement,
    and the stock-level label. Rendering, dialogs, toasts and navigation are not
    part of this model. */
module ProductDetail {
  import opened Wrappers
  import opened Text
  import opened Inventory
  import opened Forms

  // ---------------------------------------------------------------------------
  // The edit form

  /** `editForm`. Quantity and price are JavaScript numbers. */
  datatype EditForm = EditForm(
    name: string, category: string, quantity: real, price: real, location: string, sku: string)

  /** The error messages `validateForm` stores, one per field key. */
  const NameRequired: string := "El nombre del producto es obligatorio"
  const CategoryRequired: string := "La categoría es obligatoria"
  const QuantityNotNegative: string := "La cantidad no puede ser negativa"
  const PricePositive: string := "El precio debe ser mayor a cero"
  const LocationRequired: string := "La ubicación es obligatoria"
  const SkuRequired: string := "El SKU es obligatorio"

  /** The keys of `errors`: the names of the form's fields. */
  datatype Field = NameField | CategoryField | QuantityField | PriceField | LocationField | SkuField

  /** The form passes every check of `validateForm`. */
  predicate FormIsValid(f: EditForm) {
    && !IsBlank(f.name) && f.category != "" && f.quantity >= 0.0 && f.price > 0.0
    && f.location != "" && !IsBlank(f.sku)
  }

  /** The six entries of `validateForm`'s result for form `f`. */
  predicate ReportsAll(errors: map<Field, string>, f: EditForm) {
    && Reported(errors, NameField, IsBlank(f.name), NameRequired)
    && Reported(errors, CategoryField, f.category == "", CategoryRequired)
    && Reported(errors, QuantityField, f.quantity < 0.0, QuantityNotNegative)
    && Reported(errors, PriceField, f.price <= 0.0, PricePositive)
    && Reported(errors, LocationField, f.location == "", LocationRequired)
    && Reported(errors, SkuField, IsBlank(f.sku), SkuRequired)
  }

  /** With every check reported, no error is left exactly when the form is valid. */
  lemma NoErrorsIffValid(errors: map<Field, string>, f: EditForm)
    requires ReportsAll(errors, f)
    ensures |errors| == 0 <==> errors == map[]
    ensures errors == map[] <==> FormIsValid(f)
  {
    if |errors| == 0 {
      assert errors.Keys == {};
    }
    if FormIsValid(f) {
      forall k ensures k !in errors {
        match k
        case NameField =>
        case CategoryField =>
        case QuantityField =>
        case PriceField =>
        case LocationField =>
        case SkuField =>
      }
    }
  }

  /** `validateForm()`: every check is made, each failure adds its own message
      under its own key, and the form is valid exactly when no key was added. */
  method ValidateForm(f: EditForm) returns (valid: bool, errors: map<Field, string>)
    ensures ReportsAll(errors, f)
    ensures valid <==> errors == map[]
    ensures valid <==> FormIsValid(f)
  {
    errors := map[];
    if IsBlank(f.name) {
      errors := errors[NameField := NameRequired];
    }
    if f.category == "" {
      errors := errors[CategoryField := CategoryRequired];
    }
    if f.quantity < 0.0 {
      errors := errors[QuantityField := QuantityNotNegative];
    }
    if f.price <= 0.0 {
      errors := errors[PriceField := PricePositive];
    }
    if f.location == "" {
      errors := errors[LocationField := LocationRequired];
    }
    if IsBlank(f.sku) {
      errors := errors[SkuField := SkuRequired];
    }
    NoErrorsIffValid(errors, f);
    valid := |errors| == 0;
  }

  /** A field an input or a select edits as text. */
  datatype TextField = NameText | CategoryText | LocationText | SkuText

  /** A field edited through the number inputs. */
  datatype NumberField = QuantityNumber | PriceNumber

  function TextKey(t: TextField): Field {
    match t
    case NameText => NameField
    case CategoryText => CategoryField
    case LocationText => LocationField
    case SkuText => SkuField
  }

  function NumberKey(n: NumberField): Field {
    match n
    case QuantityNumber => QuantityField
    case PriceNumber => PriceField
  }

  function TextOf(f: EditForm, t: TextField): string {
    match t
    case NameText => f.name
    case CategoryText => f.category
    case LocationText => f.location
    case SkuText => f.sku
  }

  function NumberOf(f: EditForm, n: NumberField): real {
    match n
    case QuantityNumber => f.quantity
    case PriceNumber => f.price
  }

  /** `{ ...editForm, [name]: value }` for a text field. */
  function WithText(f: EditForm, t: TextField, value: string): EditForm {
    match t
    case NameText => f.(name := value)
    case CategoryText => f.(category := value)
    case LocationText => f.(location := value)
    case SkuText => f.(sku := value)
  }

  /** `{ ...editForm, [name]: value }` for a number field. */
  function WithNumber(f: EditForm, n: NumberField, value: real): EditForm {
    match n
    case QuantityNumber => f.(quantity := value)
    case PriceNumber => f.(price := value)
  }

  /** The value `handleNumberChange` stores: 0 for an emptied input, otherwise
      `Number(value)`, whose parsing is the parameter `number`. */
  function NumberInput(value: string, number: string -> real): real {
    if value == "" then 0.0 else number(value)
  }

  /** The page state an edit acts on. */
  datatype EditState = EditState(form: EditForm, errors: map<Field, string>)

  /** `handleInputChange` / `handleSelectChange` on a text field. */
  function OnTextChange(s: EditState, t: TextField, value: string): EditState {
    EditState(WithText(s.form, t, value), ClearError(s.errors, TextKey(t)))
  }

  /** `handleNumberChange` on a number field. */
  function OnNumberChange(s: EditState, n: NumberField, value: string, number: string -> real): EditState {
    EditState(WithNumber(s.form, n, NumberInput(value, number)), ClearError(s.errors, NumberKey(n)))
  }

  /** A text edit sets exactly that field, and clears the message of that field only. */
  lemma TextChangeIsLocal(s: EditState, t: TextField, value: string)
    ensures var r := OnTextChange(s, t, value);
            && TextOf(r.form, t) == value
            && (forall u :: u != t ==> TextOf(r.form, u) == TextOf(s.form, u))
            && (forall n :: NumberOf(r.form, n) == NumberOf(s.form, n))
            && r.errors.Keys == s.errors.Keys
            && (forall k :: k in r.errors && k != TextKey(t) ==> r.errors[k] == s.errors[k])
            && (TextKey(t) in r.errors ==> r.errors[TextKey(t)] == "")
  {
    var r := OnTextChange(s, t, value);
    forall u | u != t ensures TextOf(r.form, u) == TextOf(s.form, u) {
      match t
      case NameText =>
      case CategoryText =>
      case LocationText =>
      case SkuText =>
    }
  }

  /** A number edit sets exactly that field, and clears the message of that field only. */
  lemma NumberChangeIsLocal(s: EditState, n: NumberField, value: string, number: string -> real)
    ensures var r := OnNumberChange(s, n, value, number);
            && NumberOf(r.form, n) == NumberInput(value, number)
            && (forall m :: m != n ==> NumberOf(r.form, m) == NumberOf(s.form, m))
            && (forall t :: TextOf(r.form, t) == TextOf(s.form, t))
            && r.errors.Keys == s.errors.Keys
            && (forall k :: k in r.errors && k != NumberKey(n) ==> r.errors[k] == s.errors[k])
            && (NumberKey(n) in r.errors ==> r.errors[NumberKey(n)] == "")
  {
  }

  // ---------------------------------------------------------------------------
  // The stock-movement form

  /** `movementForm`. */
  datatype MovementForm = MovementForm(kind: MovementType, quantity: int, notes: string)

  /** The state the movement form starts in and is reset to after a movement is
      recorded. */
  const InitialMovementForm: MovementForm := MovementForm(In, 1, "")

  const QuantityMustBePositive: string := "La cantidad debe ser mayor a cero"
  const NotEnoughStock: string := "No hay suficiente stock disponible"

  /** What `handleMovementSubmit` decides: nothing without a route id; a rejection
      with the message that replaces all errors; or the draft passed to
      `addStockMovement`. */
  datatype Submission =
    | NoProductId
    | Rejected(errors: map<Field, string>)
    | Accepted(draft: MovementDraft)

  /** The guards of `handleMovementSubmit`. `shown` is the product the page
      loaded; `date` is the submission instant. */
  function CheckMovement(id: string, shown: Option<Product>, form: MovementForm, date: int): (r: Submission)
    ensures r.Accepted? ==> r.draft.quantity > 0
    ensures r.Accepted? && r.draft.kind == Out && shown.Some? ==> r.draft.quantity <= shown.value.quantity
    ensures r.Accepted? ==> r.draft == MovementDraft(id, form.kind, form.quantity, date, form.notes)
    ensures r.Rejected? ==> r.errors.Keys == {QuantityField}
    ensures r.NoProductId? <==> id == ""
    ensures (id != "" && form.quantity > 0 && !(form.kind == Out && shown.Some? && form.quantity > shown.value.quantity)) ==> r.Accepted?
  {
    if id == "" then NoProductId
    else if form.quantity <= 0 then Rejected(map[QuantityField := QuantityMustBePositive])
    else if form.kind == Out && shown.Some? && form.quantity > shown.value.quantity then
      Rejected(map[QuantityField := NotEnoughStock])
    else Accepted(MovementDraft(id, form.kind, form.quantity, date, form.notes))
  }

  /** A quantity of zero or less is rejected before anything is recorded. */
  lemma NonPositiveRejected(id: string, shown: Option<Product>, form: MovementForm, date: int)
    requires id != "" && form.quantity <= 0
    ensures CheckMovement(id, shown, form, date) == Rejected(map[QuantityField := QuantityMustBePositive])
  {
  }

  /** An outgoing quantity above the loaded product's stock is rejected. */
  lemma OutBeyondStockRejected(id: string, p: Product, form: MovementForm, date: int)
    requires id != "" && form.kind == Out && form.quantity > p.quantity && form.quantity > 0
    ensures CheckMovement(id, Some(p), form, date) == Rejected(map[QuantityField := NotEnoughStock])
  {
  }

  /** An incoming positive quantity is accepted whatever the stock: there is no
      upper bound. */
  lemma IncomingUnbounded(id: string, shown: Option<Product>, form: MovementForm, date: int)
    requires id != "" && form.kind == In && form.quantity > 0
    ensures CheckMovement(id, shown, form, date).Accepted?
  {
  }

  /** With the guards in front of `addStockMovement`, a product whose stock is not
      negative, shown as the page loaded it, keeps a non-negative stock. */
  lemma AcceptedKeepsStockNonNegative(ps: seq<Product>, id: string, form: MovementForm, date: int, now: string)
    requires FindProduct(ps, id).Some? && FindProduct(ps, id).value.quantity >= 0
    requires CheckMovement(id, FindProduct(ps, id), form, date).Accepted?
    ensures var r := ApplyMovement(ps, CheckMovement(id, FindProduct(ps, id), form, date).draft, now);
            && FindProduct(r, id).Some? && FindProduct(r, id).value.quantity >= 0
            && forall i :: 0 <= i < |r| && r[i].id == id ==> r[i].quantity >= 0
  {
    var d := CheckMovement(id, FindProduct(ps, id), form, date).draft;
    ApplyMovementTarget(ps, d, now);
  }

  /** `handleMovementSubmit` against the store: a rejected or id-less submission
      records nothing and leaves the form as it was; an accepted one is recorded
      through `addStockMovement` and the form is reset. */
  method SubmitMovement(store: Store, id: string, shown: Option<Product>, form: MovementForm, date: int, now: string)
    returns (outcome: Submission, next: MovementForm)
    modifies store
    ensures outcome == CheckMovement(id, shown, form, date)
    ensures outcome.Accepted? ==> store.State() == Step(old(store.State()), outcome.draft, now)
    ensures outcome.Accepted? ==> next == InitialMovementForm
    ensures !outcome.Accepted? ==> store.State() == old(store.State()) && next == form
  {
    outcome := CheckMovement(id, shown, form, date);
    next := form;
    if outcome.Accepted? {
      var _ := store.AddStockMovement(outcome.draft, now);
      next := InitialMovementForm;
    }
  }

  // ---------------------------------------------------------------------------
  // The stock-level label

  datatype StockLevel = Bajo | Medio | Alto

  /** The label beside the quantity: fewer than 10 units is low, fewer than 30
      is medium, the rest is high. */
  function LevelOf(q: int): StockLevel {
    if q < 10 then Bajo else if q < 30 then Medio else Alto
  }

  function LevelRank(l: StockLevel): nat {
    match l
    case Bajo => 0
    case Medio => 1
    case Alto => 2
  }

  /** Each label covers exactly its range of quantities. */
  lemma LevelRanges(q: int)
    ensures LevelOf(q) == Bajo <==> q < 10
    ensures LevelOf(q) == Medio <==> 10 <= q < 30
    ensures LevelOf(q) == Alto <==> 30 <= q
  {
  }

  /** More stock never gives a lower label. */
  lemma LevelMonotone(a: int, b: int)
    requires a <= b
    ensures LevelRank(LevelOf(a)) <= LevelRank(LevelOf(b))
  {
  }
}
