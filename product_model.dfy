/**
 * The Product schema: its fields, the required / unique / default / enum
 * rules Mongoose applies when a document is created, and the collection-wide
 * uniqueness of `sku`.
 */
module ProductModel {
  import opened Wrappers
  import opened JsText
  import Sequences

  /** A document id (`_id`), assigned by the database. */
  type ProductId = string

  /** The `status` enum. */
  datatype ProductStatus = Active | Discontinued | OutOfStock

  function StatusName(s: ProductStatus): string {
    match s
    case Active => "active"
    case Discontinued => "discontinued"
    case OutOfStock => "out_of_stock"
  }

  /** The enum validator: the status a string names, if any. */
  function ParseStatus(s: string): Option<ProductStatus> {
    if s == "active" then Some(Active)
    else if s == "discontinued" then Some(Discontinued)
    else if s == "out_of_stock" then Some(OutOfStock)
    else None
  }

  /** The enum admits exactly the three status names. */
  lemma ParseStatusExact(s: string, st: ProductStatus)
    ensures ParseStatus(s) == Some(st) <==> s == StatusName(st)
  {
  }

  datatype Specifications = Specifications(
    size: Option<string>,
    rating: Option<string>,
    material: Option<string>,
    pressure: Option<string>,
    temperature: Option<string>,
    ibrApproved: Option<bool>)

  /** `stock`; no bound is placed on quantity or minStock. */
  datatype Stock = Stock(quantity: int, minStock: int, unit: string)

  /** `pricing`; the two amounts are carried, never computed on. */
  datatype Pricing = Pricing(cost: Option<real>, sellingPrice: Option<real>, currency: string)

  datatype Supplier = Supplier(name: Option<string>, contact: Option<string>)

  /** A stored, validated product document. */
  datatype Product = Product(
    id: ProductId,
    name: string,
    sku: string,
    category: string,
    subCategory: string,
    description: string,
    specifications: Specifications,
    stock: Stock,
    pricing: Pricing,
    supplier: Supplier,
    images: seq<string>,
    documents: seq<string>,
    status: ProductStatus)

  /** A request body for a new product: every field may be absent. */
  datatype ProductInput = ProductInput(
    name: Option<string>,
    sku: Option<string>,
    category: Option<string>,
    subCategory: Option<string>,
    description: Option<string>,
    specifications: Specifications,
    quantity: Option<int>,
    minStock: Option<int>,
    unit: Option<string>,
    cost: Option<real>,
    sellingPrice: Option<real>,
    currency: Option<string>,
    supplier: Supplier,
    images: seq<string>,
    documents: seq<string>,
    status: Option<string>)

  /** Mongoose's `required` on a String path: present and not the empty string. */
  predicate Present(v: Option<string>) {
    v.Some? && v.value != ""
  }

  /** The `trim: true` setter, applied before validation. */
  function TrimmedField(v: Option<string>): Option<string> {
    match v
    case Some(s) => Some(Trim(s))
    case None => None
  }

  predicate StatusAccepted(v: Option<string>) {
    v.None? || ParseStatus(v.value).Some?
  }

  /** `[path]` when the check fails, else nothing. */
  function Failing(ok: bool, path: string): seq<string> {
    if ok then [] else [path]
  }

  /** The paths that fail validation, in schema order. */
  function FailedPaths(input: ProductInput): seq<string> {
    Failing(Present(TrimmedField(input.name)), "name")
    + Failing(Present(input.sku), "sku")
    + Failing(Present(input.category), "category")
    + Failing(Present(input.subCategory), "subCategory")
    + Failing(Present(input.description), "description")
    + Failing(StatusAccepted(input.status), "status")
  }

  /** Casting and validating a body into a document with id `id`, defaults filled in. */
  function ValidateProduct(id: ProductId, input: ProductInput): Result<Product, seq<string>> {
    if FailedPaths(input) != [] then Err(FailedPaths(input))
    else
      Ok(Product(
        id,
        Trim(input.name.value),
        input.sku.value,
        input.category.value,
        input.subCategory.value,
        input.description.value,
        input.specifications,
        Stock(input.quantity.GetOr(0), input.minStock.GetOr(10), input.unit.GetOr("pcs")),
        Pricing(input.cost, input.sellingPrice, input.currency.GetOr("INR")),
        input.supplier,
        input.images,
        input.documents,
        match input.status case Some(s) => ParseStatus(s).value case None => Active))
  }

  /** A body is accepted iff the five required strings are present (name after trimming) and status is in the enum. */
  lemma ValidateAcceptsIff(id: ProductId, input: ProductInput)
    ensures ValidateProduct(id, input).Ok? <==>
      && Present(TrimmedField(input.name))
      && Present(input.sku)
      && Present(input.category)
      && Present(input.subCategory)
      && Present(input.description)
      && StatusAccepted(input.status)
  {
  }

  /** A rejection names exactly the fields that break a rule. */
  lemma ValidateReportsFailures(id: ProductId, input: ProductInput)
    requires ValidateProduct(id, input).Err?
    ensures var paths := ValidateProduct(id, input).error;
      && ("name" in paths <==> !Present(TrimmedField(input.name)))
      && ("sku" in paths <==> !Present(input.sku))
      && ("category" in paths <==> !Present(input.category))
      && ("subCategory" in paths <==> !Present(input.subCategory))
      && ("description" in paths <==> !Present(input.description))
      && ("status" in paths <==> !StatusAccepted(input.status))
  {
    assert |"subCategory"| == |"description"| && "subCategory"[0] != "description"[0];
    ReportedPath(input, "name");
    ReportedPath(input, "sku");
    ReportedPath(input, "category");
    ReportedPath(input, "subCategory");
    ReportedPath(input, "description");
    ReportedPath(input, "status");
  }

  /** A path is reported exactly when it is the path of a rule that fails. */
  lemma ReportedPath(input: ProductInput, x: string)
    ensures x in FailedPaths(input) <==>
      || (x == "name" && !Present(TrimmedField(input.name)))
      || (x == "sku" && !Present(input.sku))
      || (x == "category" && !Present(input.category))
      || (x == "subCategory" && !Present(input.subCategory))
      || (x == "description" && !Present(input.description))
      || (x == "status" && !StatusAccepted(input.status))
  {
    var a := Failing(Present(TrimmedField(input.name)), "name");
    var b := Failing(Present(input.sku), "sku");
    var c := Failing(Present(input.category), "category");
    var d := Failing(Present(input.subCategory), "subCategory");
    var e := Failing(Present(input.description), "description");
    var f := Failing(StatusAccepted(input.status), "status");
    assert FailedPaths(input) == a + b + c + d + e + f;
  }

  /** The defaults: quantity 0, minStock 10, unit "pcs", currency "INR", status active; given values are kept as they are. */
  lemma ValidateDefaults(id: ProductId, input: ProductInput)
    requires ValidateProduct(id, input).Ok?
    ensures var p := ValidateProduct(id, input).value;
      && p.id == id
      && p.name == Trim(input.name.value) && p.sku == input.sku.value
      && p.category == input.category.value && p.subCategory == input.subCategory.value
      && p.stock.quantity == (if input.quantity.Some? then input.quantity.value else 0)
      && p.stock.minStock == (if input.minStock.Some? then input.minStock.value else 10)
      && p.stock.unit == (if input.unit.Some? then input.unit.value else "pcs")
      && p.pricing.currency == (if input.currency.Some? then input.currency.value else "INR")
      && (input.status.None? ==> p.status == Active)
      && (input.status.Some? ==> StatusName(p.status) == input.status.value)
  {
    if input.status.Some? {
      ParseStatusExact(input.status.value, ValidateProduct(id, input).value.status);
    }
  }

  /** The schema sets no lower bound: negative stock figures pass validation unchanged. */
  lemma NegativeStockAccepted(id: ProductId, input: ProductInput, q: int, m: int)
    requires FailedPaths(input) == []
    requires q < 0 && m < 0
    ensures var r := ValidateProduct(id, input.(quantity := Some(q), minStock := Some(m)));
      r.Ok? && r.value.stock.quantity == q && r.value.stock.minStock == m
  {
    assert FailedPaths(input.(quantity := Some(q), minStock := Some(m))) == FailedPaths(input);
  }

  /** The unique index on `sku`. */
  predicate UniqueSkus(ps: seq<Product>) {
    forall i, j :: 0 <= i < j < |ps| ==> ps[i].sku != ps[j].sku
  }

  /** Distinct `_id`s. */
  predicate UniqueIds(ps: seq<Product>) {
    forall i, j :: 0 <= i < j < |ps| ==> ps[i].id != ps[j].id
  }

  predicate SkuTaken(ps: seq<Product>, sku: string) {
    exists i :: 0 <= i < |ps| && ps[i].sku == sku
  }

  /** Position of the product with id `id`, or |ps| when there is none (`findById`). */
  function IndexOfProduct(ps: seq<Product>, id: ProductId): (k: nat)
    ensures k <= |ps|
    ensures k < |ps| ==> ps[k].id == id
    ensures forall i :: 0 <= i < k ==> ps[i].id != id
  {
    Sequences.FirstIndex(ps, (p: Product) => p.id == id)
  }

  /** Appending a product whose sku is not taken keeps skus unique. */
  lemma AppendKeepsUniqueSkus(ps: seq<Product>, p: Product)
    requires UniqueSkus(ps)
    requires !SkuTaken(ps, p.sku)
    ensures UniqueSkus(ps + [p])
  {
    var qs := ps + [p];
    forall i, j | 0 <= i < j < |qs| ensures qs[i].sku != qs[j].sku {
      if j == |ps| {
        assert qs[i] == ps[i];
      }
    }
  }

  /** The number of products that satisfy f (`countDocuments(filter)`). */
  function CountWhere(ps: seq<Product>, f: Product -> bool): nat {
    if ps == [] then 0 else (if f(ps[0]) then 1 else 0) + CountWhere(ps[1..], f)
  }

  /** A collection of one product counts 1 or 0. */
  lemma CountWhereSingle(p: Product, f: Product -> bool)
    ensures CountWhere([p], f) == if f(p) then 1 else 0
  {
    assert [p][1..] == [];
  }

  /** A count never exceeds the collection size. */
  lemma {:induction false} CountWhereBound(ps: seq<Product>, f: Product -> bool)
    ensures CountWhere(ps, f) <= |ps|
  {
    if ps != [] {
      CountWhereBound(ps[1..], f);
    }
  }

  /** Counting under a weaker condition never gives less. */
  lemma {:induction false} CountWhereMono(ps: seq<Product>, f: Product -> bool, g: Product -> bool)
    requires forall p :: p in ps && f(p) ==> g(p)
    ensures CountWhere(ps, f) <= CountWhere(ps, g)
  {
    if ps != [] {
      assert forall p :: p in ps[1..] ==> p in ps;
      CountWhereMono(ps[1..], f, g);
    }
  }

  /** A positive count has a witness, and a witness makes the count positive. */
  lemma {:induction false} CountWherePositive(ps: seq<Product>, f: Product -> bool)
    ensures CountWhere(ps, f) > 0 <==> exists i :: 0 <= i < |ps| && f(ps[i])
  {
    if ps != [] {
      CountWherePositive(ps[1..], f);
      if exists i :: 0 <= i < |ps| && f(ps[i]) {
        var i :| 0 <= i < |ps| && f(ps[i]);
        if i > 0 {
          assert ps[1..][i - 1] == ps[i];
        }
      }
      if exists i :: 0 <= i < |ps| - 1 && f(ps[1..][i]) {
        var i :| 0 <= i < |ps| - 1 && f(ps[1..][i]);
        assert ps[i + 1] == ps[1..][i];
      }
    }
  }
}
