/** The logic of the add-product page (src/pages/AddProduct.tsx): the split of
    the categories between raw materials ("Insumos") and finished products, the
    effect of changing the product type on the offered categories and on the
    selected one, the form edits, the validation and the data handed to
    `addProduct`. JavaScript's `Number()` is the parameter `number`, which
    yields `None` for NaN. The client-company list is not part of this model. */
module AddProduct {
  import opened Wrappers
  import opened Seqs
  import opened Text
  import opened Forms
  import opened Inventory

  datatype ProductType = Insumos | ProductoTerminado

  /** `formData`: every input is held as text. */
  datatype AddForm = AddForm(
    name: string, category: string, kind: ProductType, quantity: string, price: string,
    description: string, sku: string, clientId: string)

  /** The form the page starts with: all text empty, type "Producto Terminado". */
  const InitialForm: AddForm := AddForm("", "", ProductoTerminado, "", "", "", "", "")

  /** The categories that belong to raw materials. */
  const InsumoCategories: seq<string> := ["Telas", "Botones", "Cremalleras", "Caucho", "Lonas"]

  predicate IsInsumo(c: string) {
    c in InsumoCategories
  }

  predicate IsProductCategory(c: string) {
    c !in InsumoCategories
  }

  /** The categories the select lists for a type (`filteredCategories`), given
      the catalog's `categories`. The select also always lists "Otros". */
  function OfferedCategories(kind: ProductType, catalog: seq<string>): (r: seq<string>)
    ensures kind == Insumos ==> r == InsumoCategories
    ensures kind == ProductoTerminado ==> IsSubsequence(r, catalog)
  {
    if kind == Insumos then InsumoCategories else Filter(catalog, IsProductCategory)
  }

  /** The two offers split the categories: raw materials get exactly the five
      fixed categories, finished products exactly the other catalog categories,
      and no category is offered for both. */
  lemma OfferedPartition(catalog: seq<string>, c: string)
    ensures c in OfferedCategories(Insumos, catalog) <==> IsInsumo(c)
    ensures c in OfferedCategories(ProductoTerminado, catalog) <==> c in catalog && !IsInsumo(c)
    ensures !(c in OfferedCategories(Insumos, catalog) && c in OfferedCategories(ProductoTerminado, catalog))
  {
  }

  /** A catalog without raw-material categories is offered whole to finished
      products. */
  lemma CatalogWithoutInsumosOffered(catalog: seq<string>)
    requires forall c :: c in catalog ==> !IsInsumo(c)
    ensures OfferedCategories(ProductoTerminado, catalog) == catalog
  {
    FilterKeepsAll(catalog, IsProductCategory);
  }

  /** No seed product has a raw-material category, so the seed catalog is
      offered whole to finished products. */
  lemma SeedCatalogOffered()
    ensures OfferedCategories(ProductoTerminado, Categories) == Categories
  {
    forall p | p in SeedProducts ensures !IsInsumo(p.category) {
    }
    CatalogWithoutInsumosOffered(Categories);
  }

  /** The effect that runs when the type changes: the offer is replaced and a
      selected category that does not belong to the new type is cleared. */
  function TypeEffect(f: AddForm, catalog: seq<string>): (r: (AddForm, seq<string>))
    ensures r.1 == OfferedCategories(f.kind, catalog)
    ensures r.0 == f.(category := r.0.category)
    ensures f.kind == Insumos ==> r.0.category == "" || IsInsumo(r.0.category)
    ensures f.kind == ProductoTerminado ==> !IsInsumo(r.0.category)
    ensures (f.kind == Insumos <==> IsInsumo(f.category)) ==> r.0.category == f.category
  {
    if f.kind == Insumos then
      (if IsInsumo(f.category) then f else f.(category := ""), InsumoCategories)
    else
      (if IsInsumo(f.category) then f.(category := "") else f, Filter(catalog, IsProductCategory))
  }

  // ---------------------------------------------------------------------------
  // Edits

  /** The text inputs and selects of the form, by their `name`. */
  datatype Input = NameInput | CategoryInput | QuantityInput | PriceInput | DescriptionInput | SkuInput | ClientInput

  /** The keys of `errors`: the inputs, and the type radio group. */
  datatype ErrorKey = InputKey(input: Input) | TypeKey

  function ValueOf(f: AddForm, i: Input): string {
    match i
    case NameInput => f.name
    case CategoryInput => f.category
    case QuantityInput => f.quantity
    case PriceInput => f.price
    case DescriptionInput => f.description
    case SkuInput => f.sku
    case ClientInput => f.clientId
  }

  /** `{ ...formData, [name]: value }`. */
  function WithValue(f: AddForm, i: Input, value: string): AddForm {
    match i
    case NameInput => f.(name := value)
    case CategoryInput => f.(category := value)
    case QuantityInput => f.(quantity := value)
    case PriceInput => f.(price := value)
    case DescriptionInput => f.(description := value)
    case SkuInput => f.(sku := value)
    case ClientInput => f.(clientId := value)
  }

  datatype AddState = AddState(form: AddForm, errors: map<ErrorKey, string>)

  /** `handleInputChange` and `handleSelectChange`. */
  function OnInputChange(s: AddState, i: Input, value: string): AddState {
    AddState(WithValue(s.form, i, value), ClearError(s.errors, InputKey(i)))
  }

  /** `handleTypeChange`; the type effect then runs on the new form. */
  function OnTypeChange(s: AddState, kind: ProductType): AddState {
    AddState(s.form.(kind := kind), ClearError(s.errors, TypeKey))
  }

  /** An edit sets exactly that input, keeps the type, and blanks the message of
      that input only. */
  lemma InputChangeIsLocal(s: AddState, i: Input, value: string)
    ensures var r := OnInputChange(s, i, value);
            && ValueOf(r.form, i) == value
            && (forall j :: j != i ==> ValueOf(r.form, j) == ValueOf(s.form, j))
            && r.form.kind == s.form.kind
            && r.errors.Keys == s.errors.Keys
            && (forall k :: k in r.errors && k != InputKey(i) ==> r.errors[k] == s.errors[k])
            && (InputKey(i) in r.errors ==> r.errors[InputKey(i)] == "")
  {
    var r := OnInputChange(s, i, value);
    forall j | j != i ensures ValueOf(r.form, j) == ValueOf(s.form, j) {
      match i
      case NameInput =>
      case CategoryInput =>
      case QuantityInput =>
      case PriceInput =>
      case DescriptionInput =>
      case SkuInput =>
      case ClientInput =>
    }
  }

  // ---------------------------------------------------------------------------
  // Validation and submission

  const NameRequired: string := "El nombre del producto es obligatorio"
  const CategoryRequired: string := "La categoría es obligatoria"
  const QuantityNotNumber: string := "La cantidad debe ser un número positivo"
  const PricePositive: string := "El precio debe ser mayor a cero"
  const SkuRequired: string := "El SKU es obligatorio"

  /** `isNaN(Number(text)) || Number(text) < 0`. */
  predicate BadQuantity(text: string, number: string -> Option<real>) {
    number(text).None? || number(text).value < 0.0
  }

  /** `isNaN(Number(text)) || Number(text) <= 0`. */
  predicate BadPrice(text: string, number: string -> Option<real>) {
    number(text).None? || number(text).value <= 0.0
  }

  predicate AddFormIsValid(f: AddForm, number: string -> Option<real>) {
    && !IsBlank(f.name) && f.category != "" && !BadQuantity(f.quantity, number)
    && !BadPrice(f.price, number) && !IsBlank(f.sku)
  }

  predicate ReportsAll(errors: map<ErrorKey, string>, f: AddForm, number: string -> Option<real>) {
    && Reported(errors, InputKey(NameInput), IsBlank(f.name), NameRequired)
    && Reported(errors, InputKey(CategoryInput), f.category == "", CategoryRequired)
    && Reported(errors, InputKey(QuantityInput), BadQuantity(f.quantity, number), QuantityNotNumber)
    && Reported(errors, InputKey(PriceInput), BadPrice(f.price, number), PricePositive)
    && Reported(errors, InputKey(SkuInput), IsBlank(f.sku), SkuRequired)
  }

  /** With every check reported and nothing else, no error is left exactly when
      the form is valid. */
  lemma NoErrorsIffValid(errors: map<ErrorKey, string>, f: AddForm, number: string -> Option<real>)
    requires ReportsAll(errors, f, number)
    requires forall k :: k in errors ==> k.InputKey? && k.input in {NameInput, CategoryInput, QuantityInput, PriceInput, SkuInput}
    ensures |errors| == 0 <==> errors == map[]
    ensures errors == map[] <==> AddFormIsValid(f, number)
  {
    if |errors| == 0 {
      assert errors.Keys == {};
    }
  }

  /** `validateForm()`: every check is made, each failure stores its own message
      under its own key, and the form is valid exactly when no key was stored. */
  method ValidateForm(f: AddForm, number: string -> Option<real>) returns (valid: bool, errors: map<ErrorKey, string>)
    ensures ReportsAll(errors, f, number)
    ensures valid <==> errors == map[]
    ensures valid <==> AddFormIsValid(f, number)
  {
    errors := map[];
    if IsBlank(f.name) {
      errors := errors[InputKey(NameInput) := NameRequired];
    }
    if f.category == "" {
      errors := errors[InputKey(CategoryInput) := CategoryRequired];
    }
    if BadQuantity(f.quantity, number) {
      errors := errors[InputKey(QuantityInput) := QuantityNotNumber];
    }
    if BadPrice(f.price, number) {
      errors := errors[InputKey(PriceInput) := PricePositive];
    }
    if IsBlank(f.sku) {
      errors := errors[InputKey(SkuInput) := SkuRequired];
    }
    NoErrorsIffValid(errors, f, number);
    valid := |errors| == 0;
  }

  /** `productData` in `handleSubmit`: the form with quantity and price as numbers. */
  datatype ProductData = ProductData(
    name: string, category: string, kind: ProductType, quantity: real, price: real,
    description: string, sku: string, clientId: string)

  /** What `handleSubmit` hands to `addProduct`: nothing when the form is invalid;
      otherwise every text field as typed and the two numbers converted, which
      are then a non-negative quantity and a positive price. */
  function Submitted(f: AddForm, number: string -> Option<real>): (r: Option<ProductData>)
    ensures r.Some? <==> AddFormIsValid(f, number)
    ensures r.Some? ==>
              && r.value.name == f.name && r.value.category == f.category && r.value.kind == f.kind
              && r.value.description == f.description && r.value.sku == f.sku
              && r.value.clientId == f.clientId
              && number(f.quantity) == Some(r.value.quantity) && r.value.quantity >= 0.0
              && number(f.price) == Some(r.value.price) && r.value.price > 0.0
  {
    if !AddFormIsValid(f, number) then None
    else
      Some(ProductData(f.name, f.category, f.kind, number(f.quantity).value, number(f.price).value,
                       f.description, f.sku, f.clientId))
  }

  /** The untouched form is not submitted: name, category and SKU are missing. */
  lemma InitialFormInvalid(number: string -> Option<real>)
    ensures Submitted(InitialForm, number).None?
  {
  }
}
