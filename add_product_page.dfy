/**
 * The add-product form: its nested form state and the dotted-name change
 * handler, the automatic status effect, the form's stock badge, the
 * required-field gate, the submit normalisation, the three-step wizard and
 * the subcategory choices for the selected category.
 *
 * Number inputs deliver their value as a string, so once the user has typed
 * into both stock fields, `quantity <= minStock` compares two strings.
 *
 * The form has no `noValidate`: the browser checks the step-2 inputs'
 * `required`, `min` and `step` constraints before it lets `handleSubmit` run.
 */
module AddProductPage {
  import opened Wrappers
  import opened JsText
  import opened JsValues
  import opened CategoryModel
  import PP = ProductsPage
  import NumberInput

  /** A top-level entry of `formData`: a plain value, or a nested object such as `stock`. */
  datatype FormEntry = Field(value: JsValue) | Group(fields: map<string, JsValue>)

  type Form = map<string, FormEntry>

  /** `steps`: Basic Information, Specifications, Pricing & Inventory. */
  const StepCount := 3

  const RequiredMessage := "Please fill in all required fields"

  const SaveFailedMessage := "Failed to save product"

  /** The state the form starts in (and `resetForm` restores). */
  function InitialForm(): Form {
    map[
      "name" := Field(JsStr("")),
      "sku" := Field(JsStr("")),
      "category" := Field(JsStr("")),
      "subCategory" := Field(JsStr("")),
      "description" := Field(JsStr("")),
      "specifications" := Group(map[
        "size" := JsStr(""), "rating" := JsStr(""), "material" := JsStr(""),
        "pressure" := JsStr(""), "temperature" := JsStr(""), "IBR_approved" := JsBool(false)]),
      "stock" := Group(map["quantity" := JsNum(0), "minStock" := JsNum(10), "unit" := JsStr("pcs")]),
      "pricing" := Group(map["cost" := JsStr(""), "sellingPrice" := JsStr(""), "currency" := JsStr("INR")]),
      "supplier" := Group(map["name" := JsStr(""), "contact" := JsStr("")]),
      "status" := Field(JsStr("active"))]
  }

  /** `formData[key]`, undefined when absent or nested. */
  function Scalar(form: Form, key: string): JsValue {
    if key in form && form[key].Field? then form[key].value else JsUndefined
  }

  /** `formData[parent][child]`, undefined when absent. */
  function Nested(form: Form, parent: string, child: string): JsValue {
    if parent in form && form[parent].Group? && child in form[parent].fields then form[parent].fields[child]
    else JsUndefined
  }

  function Quantity(form: Form): JsValue {
    Nested(form, "stock", "quantity")
  }

  function MinStock(form: Form): JsValue {
    Nested(form, "stock", "minStock")
  }

  // ---- handleChange ----

  /**
   * `handleChange` for the input `name` delivering `v`: a name with a dot
   * writes `child` (the second `split('.')` piece) inside `parent`, keeping
   * the parent's other children; any other name writes the top-level entry.
   */
  function ChangeField(form: Form, name: string, v: JsValue): Form {
    if IndexOf(name, '.') < |name| then
      var (parent, child) := SplitFirstTwo(name, '.');
      var siblings := if parent in form && form[parent].Group? then form[parent].fields else map[];
      form[parent := Group(siblings[child := v])]
    else
      form[name := Field(v)]
  }

  /** A change writes exactly its target: every other entry and every sibling child stays as it was. */
  lemma {:induction false} ChangeFieldOnlyTarget(form: Form, name: string, v: JsValue)
    ensures IndexOf(name, '.') == |name| ==>
      var r := ChangeField(form, name, v);
      && r.Keys == form.Keys + {name}
      && Scalar(r, name) == v
      && forall k :: k in form && k != name ==> r[k] == form[k]
    ensures IndexOf(name, '.') < |name| ==>
      var r := ChangeField(form, name, v);
      var (parent, child) := SplitFirstTwo(name, '.');
      && r.Keys == form.Keys + {parent}
      && Nested(r, parent, child) == v
      && (forall k :: k in form && k != parent ==> r[k] == form[k])
      && (forall c :: c != child ==> Nested(r, parent, c) == Nested(form, parent, c))
  {
    if IndexOf(name, '.') < |name| {
      var (parent, child) := SplitFirstTwo(name, '.');
      var r := ChangeField(form, name, v);
      assert r == form[parent := Group((if parent in form && form[parent].Group? then form[parent].fields else map[])[child := v])];
    }
  }

  /**
   * For an input named `parent.child` (neither part containing a dot, as
   * with `stock.quantity`), the change lands on that child of that parent.
   */
  lemma ChildChange(form: Form, parent: string, child: string, v: JsValue)
    requires forall i :: 0 <= i < |parent| ==> parent[i] != '.'
    requires forall i :: 0 <= i < |child| ==> child[i] != '.'
    ensures var r := ChangeField(form, parent + "." + child, v);
      && Nested(r, parent, child) == v
      && (forall c :: c != child ==> Nested(r, parent, c) == Nested(form, parent, c))
      && (forall k :: k in form && k != parent ==> k in r && r[k] == form[k])
  {
    assert parent + "." + child == parent + ['.'] + child;
    SplitFirstTwoOf(parent, '.', child);
  }

  // ---- the auto-status effect ----

  /**
   * The effect on `[stock.quantity, stock.minStock]`: `quantity <= 0` forces
   * 'out_of_stock'; `quantity <= minStock` turns 'out_of_stock' into
   * 'active' and keeps any other status; otherwise the status is left alone.
   */
  function AutoStatus(quantity: JsValue, minStock: JsValue, status: JsValue): JsValue {
    if LooseLessEq(quantity, JsNum(0)) then JsStr("out_of_stock")
    else if LooseLessEq(quantity, minStock) then
      (if status == JsStr("out_of_stock") then JsStr("active") else status)
    else status
  }

  /** On numbers the effect is the three-way rule on integers. */
  lemma AutoStatusOnNumbers(q: int, m: int, status: JsValue)
    ensures q <= 0 ==> AutoStatus(JsNum(q), JsNum(m), status) == JsStr("out_of_stock")
    ensures 0 < q <= m ==>
      AutoStatus(JsNum(q), JsNum(m), status) == (if status == JsStr("out_of_stock") then JsStr("active") else status)
    ensures q > 0 && q > m ==> AutoStatus(JsNum(q), JsNum(m), status) == status
  {
  }

  /** Running the effect a second time with the same stock values changes nothing. */
  lemma AutoStatusIdempotent(quantity: JsValue, minStock: JsValue, status: JsValue)
    ensures AutoStatus(quantity, minStock, AutoStatus(quantity, minStock, status)) == AutoStatus(quantity, minStock, status)
  {
  }

  /** The effect never produces 'out_of_stock' for a positive quantity. */
  lemma AutoStatusPositive(quantity: JsValue, minStock: JsValue, status: JsValue)
    requires !LooseLessEq(quantity, JsNum(0)) && LooseLessEq(quantity, minStock)
    ensures AutoStatus(quantity, minStock, status) != JsStr("out_of_stock")
  {
  }

  /** The form with the effect applied to its current stock values. */
  function WithAutoStatus(form: Form): Form {
    form["status" := Field(AutoStatus(Quantity(form), MinStock(form), Scalar(form, "status")))]
  }

  /**
   * A new state after the effect has had its turn: React re-runs it only
   * when one of its two dependencies differs from the previous render.
   */
  function Settle(before: Form, after: Form): Form {
    if Quantity(after) != Quantity(before) || MinStock(after) != MinStock(before) then WithAutoStatus(after) else after
  }

  // ---- getStockStatus on the form ----

  /** The form's badge: `<= 0` first, then `<= minStock`, with JavaScript's `<=`. */
  function FormClassify(quantity: JsValue, minStock: JsValue): PP.StockLevel {
    if LooseLessEq(quantity, JsNum(0)) then PP.OutOfStock
    else if LooseLessEq(quantity, minStock) then PP.LowStock
    else PP.InStock
  }

  /** On integers the form's badge agrees with the product list's for every quantity >= 0. */
  lemma FormAgreesWithListWhenNonNegative(q: int, m: int)
    requires q >= 0
    ensures FormClassify(JsNum(q), JsNum(m)) == PP.Classify(q, m)
  {
  }

  /** For a negative quantity the form says Out of Stock where the product list says Low or In Stock. */
  lemma FormDiffersFromListWhenNegative(q: int, m: int)
    requires q < 0
    ensures FormClassify(JsNum(q), JsNum(m)) == PP.OutOfStock
    ensures PP.Classify(q, m) != PP.OutOfStock
  {
  }

  /**
   * With both stock fields typed in, the comparison is textual: quantity "5"
   * against minimum "10" reads In Stock and leaves the status alone, where
   * the integers 5 and 10 read Low Stock.
   */
  lemma TypedValuesCompareAsText()
    ensures FormClassify(JsStr("5"), JsStr("10")) == PP.InStock
    ensures PP.Classify(5, 10) == PP.LowStock
    ensures AutoStatus(JsStr("5"), JsStr("10"), JsStr("out_of_stock")) == JsStr("out_of_stock")
  {
    assert StringToNumber("5") == Some(5) by { NumberOfDecimal(5); }
    assert !StrLess("10", "5") == false;
  }

  /** With only the quantity typed in, the comparison is numeric and agrees with the integers. */
  lemma TypedQuantityAgainstDefaultMinimum()
    ensures FormClassify(JsStr("5"), JsNum(10)) == PP.LowStock
  {
    assert StringToNumber("5") == Some(5) by { NumberOfDecimal(5); }
  }

  // ---- validation and submit normalisation ----

  /** `formData.name && formData.sku && formData.category && formData.subCategory`. */
  predicate RequiredFilled(form: Form) {
    Truthy(Scalar(form, "name")) && Truthy(Scalar(form, "sku"))
    && Truthy(Scalar(form, "category")) && Truthy(Scalar(form, "subCategory"))
  }

  /** For text fields the gate is non-emptiness of the four fields; the description is not checked. */
  lemma RequiredFilledText(form: Form, name: string, sku: string, category: string, subCategory: string, description: string)
    requires Scalar(form, "name") == JsStr(name) && Scalar(form, "sku") == JsStr(sku)
    requires Scalar(form, "category") == JsStr(category) && Scalar(form, "subCategory") == JsStr(subCategory)
    requires Scalar(form, "description") == JsStr(description)
    ensures RequiredFilled(form) <==> name != "" && sku != "" && category != "" && subCategory != ""
  {
  }

  /** A fresh form never passes the gate. */
  lemma InitialFormBlocked()
    ensures !RequiredFilled(InitialForm())
  {
    assert Scalar(InitialForm(), "name") == JsStr("");
  }

  /** The children of `formData[parent]`, or none when it is absent or not an object (`...formData[parent]`). */
  function Children(form: Form, parent: string): map<string, JsValue> {
    if parent in form && form[parent].Group? then form[parent].fields else map[]
  }

  /**
   * `parseFloat(v) || d` on the integer values of this model. On integer
   * text `parseFloat` reads the same sign-and-digits prefix as `parseInt`.
   */
  function ParseFloatOr(v: JsValue, d: int): int {
    ParseIntOr(v, d)
  }

  /** `{...form, [parent]: {...form[parent], [k1]: v1, [k2]: v2}}` */
  function WithChildren(form: Form, parent: string, k1: string, v1: JsValue, k2: string, v2: JsValue): Form {
    form[parent := Group(Children(form, parent)[k1 := v1][k2 := v2])]
  }

  /** Reading a child after two children of one object were set: those two read back, everything else reads as before. */
  lemma NestedWithChildren(form: Form, parent: string, k1: string, v1: JsValue, k2: string, v2: JsValue, other: string, c: string)
    requires k1 != k2
    ensures Nested(WithChildren(form, parent, k1, v1, k2, v2), other, c) ==
      if other != parent then Nested(form, other, c)
      else if c == k1 then v1
      else if c == k2 then v2
      else Nested(form, parent, c)
  {
  }

  /**
   * The body `handleSubmit` sends: the form with `pricing.cost` and
   * `pricing.sellingPrice` replaced by `parseFloat(..) || 0`, and
   * `stock.quantity` and `stock.minStock` by `parseInt(..) || 0` and
   * `parseInt(..) || 10`; every other child of the two objects is spread in
   * unchanged. Its properties are the three lemmas below.
   */
  function SubmitPayload(form: Form): Form {
    var priced := WithChildren(form, "pricing",
      "cost", JsNum(ParseFloatOr(Nested(form, "pricing", "cost"), 0)),
      "sellingPrice", JsNum(ParseFloatOr(Nested(form, "pricing", "sellingPrice"), 0)));
    WithChildren(priced, "stock",
      "quantity", JsNum(ParseIntOr(Quantity(form), 0)), "minStock", JsNum(ParseIntOr(MinStock(form), 10)))
  }

  /** Two objects updated one after the other: the four new children read back, every other child and entry reads as before. */
  lemma TwoGroupsUpdated(form: Form, g1: string, a1: string, u1: JsValue, b1: string, w1: JsValue,
                         g2: string, a2: string, u2: JsValue, b2: string, w2: JsValue)
    requires g1 != g2 && a1 != b1 && a2 != b2
    ensures var p := WithChildren(WithChildren(form, g1, a1, u1, b1, w1), g2, a2, u2, b2, w2);
      && Nested(p, g1, a1) == u1 && Nested(p, g1, b1) == w1
      && Nested(p, g2, a2) == u2 && Nested(p, g2, b2) == w2
      && (forall c :: c != a1 && c != b1 ==> Nested(p, g1, c) == Nested(form, g1, c))
      && (forall c :: c != a2 && c != b2 ==> Nested(p, g2, c) == Nested(form, g2, c))
      && p.Keys == form.Keys + {g1, g2}
      && (forall k :: k in form && k != g1 && k != g2 ==> p[k] == form[k])
  {
    var mid := WithChildren(form, g1, a1, u1, b1, w1);
    var p := WithChildren(mid, g2, a2, u2, b2, w2);
    forall c
      ensures Nested(p, g1, c) == if c == a1 then u1 else if c == b1 then w1 else Nested(form, g1, c)
      ensures Nested(p, g2, c) == if c == a2 then u2 else if c == b2 then w2 else Nested(form, g2, c)
    {
      NestedWithChildren(form, g1, a1, u1, b1, w1, g1, c);
      NestedWithChildren(mid, g2, a2, u2, b2, w2, g1, c);
      NestedWithChildren(form, g1, a1, u1, b1, w1, g2, c);
      NestedWithChildren(mid, g2, a2, u2, b2, w2, g2, c);
    }
  }

  /** `stock.quantity` and `stock.minStock` are sent through `parseInt(..) || 0` and `parseInt(..) || 10`; `unit` and any other stock child is sent as it was. */
  lemma SubmitNormalisesStock(form: Form)
    ensures Quantity(SubmitPayload(form)) == JsNum(ParseIntOr(Quantity(form), 0))
    ensures MinStock(SubmitPayload(form)) == JsNum(ParseIntOr(MinStock(form), 10))
    ensures forall c :: c != "quantity" && c != "minStock" ==> Nested(SubmitPayload(form), "stock", c) == Nested(form, "stock", c)
  {
    SubmitPayloadShape(form);
  }

  /** `pricing.cost` and `pricing.sellingPrice` are sent through `parseFloat(..) || 0`; `currency` and any other pricing child is sent as it was. */
  lemma SubmitNormalisesPricing(form: Form)
    ensures Nested(SubmitPayload(form), "pricing", "cost") == JsNum(ParseFloatOr(Nested(form, "pricing", "cost"), 0))
    ensures Nested(SubmitPayload(form), "pricing", "sellingPrice") == JsNum(ParseFloatOr(Nested(form, "pricing", "sellingPrice"), 0))
    ensures forall c :: c != "cost" && c != "sellingPrice" ==> Nested(SubmitPayload(form), "pricing", c) == Nested(form, "pricing", c)
  {
    SubmitPayloadShape(form);
  }

  /** `TwoGroupsUpdated` for the body `handleSubmit` builds. */
  lemma SubmitPayloadShape(form: Form)
    ensures var p := SubmitPayload(form);
      var cost := JsNum(ParseFloatOr(Nested(form, "pricing", "cost"), 0));
      var price := JsNum(ParseFloatOr(Nested(form, "pricing", "sellingPrice"), 0));
      var q := JsNum(ParseIntOr(Quantity(form), 0));
      var m := JsNum(ParseIntOr(MinStock(form), 10));
      && Nested(p, "pricing", "cost") == cost && Nested(p, "pricing", "sellingPrice") == price
      && Nested(p, "stock", "quantity") == q && Nested(p, "stock", "minStock") == m
      && (forall c :: c != "cost" && c != "sellingPrice" ==> Nested(p, "pricing", c) == Nested(form, "pricing", c))
      && (forall c :: c != "quantity" && c != "minStock" ==> Nested(p, "stock", c) == Nested(form, "stock", c))
      && p.Keys == form.Keys + {"pricing", "stock"}
      && (forall k :: k in form && k != "pricing" && k != "stock" ==> p[k] == form[k])
  {
    assert "quantity" != "minStock" by { assert "quantity"[0] != "minStock"[0]; }
    assert "stock" != "pricing" by { assert "stock"[0] != "pricing"[0]; }
    assert "cost" != "sellingPrice" by { assert "cost"[0] != "sellingPrice"[0]; }
    TwoGroupsUpdated(form, "pricing",
      "cost", JsNum(ParseFloatOr(Nested(form, "pricing", "cost"), 0)),
      "sellingPrice", JsNum(ParseFloatOr(Nested(form, "pricing", "sellingPrice"), 0)),
      "stock", "quantity", JsNum(ParseIntOr(Quantity(form), 0)), "minStock", JsNum(ParseIntOr(MinStock(form), 10)));
  }

  /** Every top-level entry other than `stock` and `pricing` is sent as it was, and the body has exactly the form's entries plus those two. */
  lemma SubmitKeepsOtherEntries(form: Form)
    ensures SubmitPayload(form).Keys == form.Keys + {"stock", "pricing"}
    ensures forall k :: k in form && k != "stock" && k != "pricing" ==> SubmitPayload(form)[k] == form[k]
  {
    SubmitPayloadShape(form);
  }

  /** The stock and pricing children of a fresh form. */
  lemma InitialFormValues()
    ensures Quantity(InitialForm()) == JsNum(0) && MinStock(InitialForm()) == JsNum(10)
    ensures Nested(InitialForm(), "stock", "unit") == JsStr("pcs")
    ensures Nested(InitialForm(), "pricing", "cost") == JsStr("")
    ensures Nested(InitialForm(), "pricing", "sellingPrice") == JsStr("")
    ensures Nested(InitialForm(), "pricing", "currency") == JsStr("INR")
  {
  }

  /** The body built from an untouched form: quantity 0, minimum 10, unit "pcs", and 0 for both prices, whose fields are empty. */
  lemma SubmitInitialForm()
    ensures var p := SubmitPayload(InitialForm());
      && Quantity(p) == JsNum(0) && MinStock(p) == JsNum(10)
      && Nested(p, "stock", "unit") == JsStr("pcs")
      && Nested(p, "pricing", "cost") == JsNum(0) && Nested(p, "pricing", "sellingPrice") == JsNum(0)
      && Nested(p, "pricing", "currency") == JsStr("INR")
  {
    InitialFormValues();
    SubmitUntouchedStockAndPricing(InitialForm());
  }

  /** The body built from any form whose stock and pricing children are those of a fresh one. */
  lemma SubmitUntouchedStockAndPricing(f: Form)
    requires Quantity(f) == JsNum(0) && MinStock(f) == JsNum(10)
    requires Nested(f, "stock", "unit") == JsStr("pcs")
    requires Nested(f, "pricing", "cost") == JsStr("") && Nested(f, "pricing", "sellingPrice") == JsStr("")
    requires Nested(f, "pricing", "currency") == JsStr("INR")
    ensures var p := SubmitPayload(f);
      && Quantity(p) == JsNum(0) && MinStock(p) == JsNum(10)
      && Nested(p, "stock", "unit") == JsStr("pcs")
      && Nested(p, "pricing", "cost") == JsNum(0) && Nested(p, "pricing", "sellingPrice") == JsNum(0)
      && Nested(p, "pricing", "currency") == JsStr("INR")
  {
    SubmitNormalisesStock(f);
    SubmitNormalisesPricing(f);
    ParseIntOfNumber(0);
    ParseIntOfNumber(10);
    ParseIntFalsyTexts(0);
    assert "unit" != "quantity" && "unit" != "minStock" by { assert "unit"[0] != "quantity"[0] && "unit"[0] != "minStock"[0]; }
    assert "currency" != "cost" && "currency" != "sellingPrice" by { assert "currency"[1] != "cost"[1] && "currency"[0] != "sellingPrice"[0]; }
  }

  /** The payload function turns an entered minimum of 0, or an emptied one, into 10, and an emptied quantity into 0. */
  lemma SubmitFalsyDefaults(form: Form)
    ensures MinStock(form) == JsStr("0") ==> MinStock(SubmitPayload(form)) == JsNum(10)
    ensures MinStock(form) == JsStr("") ==> MinStock(SubmitPayload(form)) == JsNum(10)
    ensures Quantity(form) == JsStr("") ==> Quantity(SubmitPayload(form)) == JsNum(0)
  {
    SubmitNormalisesStock(form);
    ParseIntFalsyTexts(0);
    ParseIntFalsyTexts(10);
  }

  /** A typed decimal integer other than 0 is sent as that integer. */
  lemma SubmitKeepsTypedNumber(form: Form, n: int)
    requires n != 0
    requires Quantity(form) == JsStr(IntToString(n))
    ensures Quantity(SubmitPayload(form)) == JsNum(n)
  {
    SubmitNormalisesStock(form);
    ParseIntOfNumber(n);
  }

  // ---- the browser's check of the step-2 inputs ----

  /**
   * The constraints of the inputs rendered on step 2: quantity and minimum
   * are required whole numbers of at least 0, the two prices required
   * numbers of at least 0 in steps of 0.01, and the unit select is required.
   */
  predicate StepTwoValid(form: Form) {
    && NumberInput.Accepts(Quantity(form), 0)
    && NumberInput.Accepts(MinStock(form), 0)
    && NumberInput.ValueText(Nested(form, "stock", "unit")) != ""
    && NumberInput.Accepts(Nested(form, "pricing", "cost"), 2)
    && NumberInput.Accepts(Nested(form, "pricing", "sellingPrice"), 2)
  }

  /** An untouched form is held back by the browser: its stock values pass, but both prices are empty. */
  lemma InitialFormHeldBack()
    ensures NumberInput.Accepts(Quantity(InitialForm()), 0) && NumberInput.Accepts(MinStock(InitialForm()), 0)
    ensures !NumberInput.Accepts(Nested(InitialForm(), "pricing", "cost"), 2)
    ensures !StepTwoValid(InitialForm())
  {
    InitialFormValues();
    assert NumberInput.Accepts(JsNum(0), 0) by { NumberInput.AcceptsIntegers(0, 0); }
    assert NumberInput.Accepts(JsNum(10), 0) by { NumberInput.AcceptsIntegers(10, 0); }
    EmptyPriceHeldBack(InitialForm());
  }

  /** A form whose cost field is empty never gets past the browser. */
  lemma EmptyPriceHeldBack(f: Form)
    requires Nested(f, "pricing", "cost") == JsStr("")
    ensures !NumberInput.Accepts(Nested(f, "pricing", "cost"), 2) && !StepTwoValid(f)
  {
    NumberInput.AcceptsDigits("0", 2);
  }

  /** A minimum typed as 0 gets past the browser and is sent as 10; an emptied minimum or quantity never gets past it. */
  lemma TypedZeroMinimumSentAsTen(form: Form)
    ensures NumberInput.Accepts(JsStr("0"), 0)
    ensures MinStock(form) == JsStr("0") ==> MinStock(SubmitPayload(form)) == JsNum(10)
    ensures MinStock(form) == JsStr("") || Quantity(form) == JsStr("") ==> !StepTwoValid(form)
  {
    NumberInput.AcceptsDigits("0", 0);
    SubmitFalsyDefaults(form);
  }

  /** A body the browser lets through carries a quantity of at least 0, a minimum of at least 1 and prices of at least 0. */
  lemma SentStockAndPricesNonNegative(form: Form)
    requires StepTwoValid(form)
    ensures Quantity(SubmitPayload(form)).JsNum? && Quantity(SubmitPayload(form)).n >= 0
    ensures MinStock(SubmitPayload(form)).JsNum? && MinStock(SubmitPayload(form)).n >= 1
    ensures var cost := Nested(SubmitPayload(form), "pricing", "cost"); cost.JsNum? && cost.n >= 0
    ensures var price := Nested(SubmitPayload(form), "pricing", "sellingPrice"); price.JsNum? && price.n >= 0
  {
    SubmitNormalisesStock(form);
    SubmitNormalisesPricing(form);
    NumberInput.AcceptedParsesNonNegative(Quantity(form), 0);
    NumberInput.AcceptedParsesNonNegative(MinStock(form), 0);
    NumberInput.AcceptedParsesNonNegative(Nested(form, "pricing", "cost"), 2);
    NumberInput.AcceptedParsesNonNegative(Nested(form, "pricing", "sellingPrice"), 2);
  }

  // ---- getSubCategories ----

  /** The subcategories of the first category whose name equals the selection exactly, or []. */
  function SubCategoriesFor(categories: seq<Category>, selected: string): (r: seq<Subcategory>)
    ensures (exists i :: 0 <= i < |categories| && categories[i].name == selected) ||  r == []
  {
    if categories == [] then []
    else if categories[0].name == selected then categories[0].subCategories
    else SubCategoriesFor(categories[1..], selected)
  }

  /** The choices come from the first category with that exact name. */
  lemma {:induction false} SubCategoriesForFirst(categories: seq<Category>, selected: string, i: nat)
    requires i < |categories| && categories[i].name == selected
    requires forall j :: 0 <= j < i ==> categories[j].name != selected
    ensures SubCategoriesFor(categories, selected) == categories[i].subCategories
  {
    if i > 0 {
      SubCategoriesForFirst(categories[1..], selected, i - 1);
    }
  }

  // ---- the page ----

  class AddProductForm {
    var formData: Form
    var activeStep: int
    var error: string
    var success: string

    ghost predicate Valid()
      reads this
    {
      0 <= activeStep < StepCount
    }

    /** The submit button, rather than Next, is shown only on the last step. */
    predicate ShowsSubmit()
      reads this
    {
      activeStep == StepCount - 1
    }

    /** The first render: the effect runs once on mount, and quantity 0 makes the status 'out_of_stock'. */
    constructor ()
      ensures Valid()
      ensures formData == InitialForm()["status" := Field(JsStr("out_of_stock"))]
      ensures activeStep == 0 && error == "" && success == ""
    {
      formData := WithAutoStatus(InitialForm());
      activeStep := 0;
      error := "";
      success := "";
    }

    /** `handleChange`: the checkbox delivers `checked`, every other input its text. */
    method HandleChange(name: string, value: string, isCheckbox: bool, checked: bool)
      modifies this
      ensures formData == Settle(old(formData), ChangeField(old(formData), name, if isCheckbox then JsBool(checked) else JsStr(value)))
      ensures activeStep == old(activeStep) && error == old(error) && success == old(success)
    {
      var v := if isCheckbox then JsBool(checked) else JsStr(value);
      var changed := ChangeField(formData, name, v);
      if Quantity(changed) != Quantity(formData) || MinStock(changed) != MinStock(formData) {
        changed := WithAutoStatus(changed);
      }
      formData := changed;
    }

    /** `handleNext`: from step 0 only with the required fields filled. */
    method Next()
      requires Valid() && !ShowsSubmit()
      modifies this
      ensures Valid()
      ensures formData == old(formData) && success == old(success)
      ensures if old(activeStep) == 0 && !RequiredFilled(formData) then
          activeStep == old(activeStep) && error == RequiredMessage
        else
          activeStep == old(activeStep) + 1 && error == ""
    {
      if activeStep == 0 && !RequiredFilled(formData) {
        error := RequiredMessage;
        return;
      }
      error := "";
      activeStep := activeStep + 1;
    }

    /** `handleBack`; the Back button is disabled on step 0. */
    method Back()
      requires Valid() && activeStep != 0
      modifies this
      ensures Valid()
      ensures activeStep == old(activeStep) - 1
      ensures formData == old(formData) && error == old(error) && success == old(success)
    {
      activeStep := activeStep - 1;
    }

    /**
     * `handleSubmit` up to the request: with a required field empty it sets
     * the error and sends nothing; otherwise it sends the normalised body.
     */
    method HandleSubmit() returns (request: Option<Form>)
      requires Valid() && ShowsSubmit()
      modifies this
      ensures Valid()
      ensures formData == old(formData) && activeStep == old(activeStep) && success == ""
      ensures RequiredFilled(formData) <==> request.Some?
      ensures request.Some? ==> request.value == SubmitPayload(formData) && error == ""
      ensures request.None? ==> error == RequiredMessage
    {
      error := "";
      success := "";
      if !RequiredFilled(formData) {
        error := RequiredMessage;
        return None;
      }
      request := Some(SubmitPayload(formData));
    }

    /**
     * The submit button: while a step-2 input breaks its constraints the
     * browser refuses the submission and nothing changes; otherwise it runs
     * `handleSubmit`.
     */
    method Submit() returns (request: Option<Form>)
      requires Valid() && ShowsSubmit()
      modifies this
      ensures Valid()
      ensures formData == old(formData) && activeStep == old(activeStep)
      ensures request.Some? <==> StepTwoValid(formData) && RequiredFilled(formData)
      ensures !StepTwoValid(formData) ==> error == old(error) && success == old(success)
      ensures StepTwoValid(formData) ==> success == ""
      ensures request.Some? ==> request.value == SubmitPayload(formData) && error == ""
      ensures StepTwoValid(formData) && request.None? ==> error == RequiredMessage
    {
      if !StepTwoValid(formData) {
        return None;
      }
      request := HandleSubmit();
    }

    /** A successful create: the message, `resetForm()` (after which the effect sees the stock values change) and step 0. */
    method Created()
      modifies this
      ensures Valid()
      ensures success == "Product created successfully!"
      ensures formData == Settle(old(formData), InitialForm())
      ensures activeStep == 0 && error == old(error)
    {
      success := "Product created successfully!";
      var reset := InitialForm();
      if Quantity(reset) != Quantity(formData) || MinStock(reset) != MinStock(formData) {
        reset := WithAutoStatus(reset);
      }
      formData := reset;
      activeStep := 0;
    }

    /** A failed request shows the server's message, or the fixed fallback when the response carries none. */
    method Failed(message: Option<string>)
      modifies this
      ensures error == MessageOr(message, SaveFailedMessage) && error != ""
      ensures formData == old(formData) && activeStep == old(activeStep) && success == old(success)
    {
      error := MessageOr(message, SaveFailedMessage);
    }
  }

  /** Walking the wizard: two Nexts from step 0 with the required fields filled reach the submit step. */
  method WizardReachesSubmit(f: AddProductForm)
    requires f.Valid() && f.activeStep == 0 && RequiredFilled(f.formData)
    modifies f
    ensures f.ShowsSubmit() && f.error == ""
  {
    f.Next();
    f.Next();
  }
}
