/**
 * The product routes: listing with filters and pagination, lookup, creation,
 * deletion, and the stock operation `PATCH /:id/stock`.
 */
module ProductRoutes {
  import opened Wrappers
  import opened ProductModel
  import opened Db
  import opened Http
  import opened Sequences

  // ---- PATCH /:id/stock ----

  /**
   * The stock switch on a quantity: `add` adds, `subtract` subtracts with a
   * floor at zero, `set` stores the amount as given; any other token is
   * rejected (None).
   */
  function ApplyStockOperation(current: int, operation: string, amount: int): Option<int> {
    if operation == "add" then Some(current + amount)
    else if operation == "subtract" then Some(if current - amount > 0 then current - amount else 0)
    else if operation == "set" then Some(amount)
    else None
  }

  /** `add` has no upper bound: the new quantity is old + amount. */
  lemma AddIsSum(current: int, amount: int)
    ensures ApplyStockOperation(current, "add", amount) == Some(current + amount)
  {
  }

  /** `subtract` is max(0, old - amount): never negative, exact when enough stock is on hand. */
  lemma SubtractFloorsAtZero(current: int, amount: int)
    ensures ApplyStockOperation(current, "subtract", amount).Some?
    ensures var q := ApplyStockOperation(current, "subtract", amount).value;
      && q >= 0
      && q >= current - amount
      && (q == 0 || q == current - amount)
      && (amount <= current ==> q == current - amount)
  {
  }

  /** `set` stores the amount verbatim, a negative one included. */
  lemma SetIsVerbatim(current: int, amount: int)
    ensures ApplyStockOperation(current, "set", amount) == Some(amount)
  {
  }

  /** Exactly the three tokens are accepted. */
  lemma OperationAcceptedIff(current: int, operation: string, amount: int)
    ensures ApplyStockOperation(current, operation, amount).Some? <==>
      operation == "add" || operation == "subtract" || operation == "set"
  {
  }

  /** The only cases in which the stored quantity can become negative: it was, or `add`/`set` made it so. */
  lemma NegativeOnlyThroughAddOrSet(current: int, operation: string, amount: int)
    requires ApplyStockOperation(current, operation, amount).Some?
    requires ApplyStockOperation(current, operation, amount).value < 0
    ensures (operation == "set" && amount < 0) || (operation == "add" && current + amount < 0)
  {
  }

  /** A product with its quantity replaced and nothing else touched. */
  function WithQuantity(p: Product, q: int): (r: Product)
    ensures r.stock.quantity == q
    ensures r.(stock := r.stock.(quantity := p.stock.quantity)) == p
  {
    p.(stock := p.stock.(quantity := q))
  }

  /**
   * `PATCH /:id/stock`. A missing id answers 404 and an unknown operation 400
   * "Invalid operation", both before the save, so nothing changes; otherwise
   * the one product's quantity is replaced by the switch's result.
   */
  method UpdateStock(db: Database, id: ProductId, quantity: int, operation: string) returns (r: Reply<Product>)
    requires db.Valid()
    modifies db
    ensures db.Valid()
    ensures db.categories == old(db.categories)
    ensures var k := IndexOfProduct(old(db.products), id);
      if k == |old(db.products)| then
        r == Fail(404, Message("Product not found")) && db.products == old(db.products)
      else
        match ApplyStockOperation(old(db.products)[k].stock.quantity, operation, quantity)
        case None =>
          r == Fail(400, Message("Invalid operation")) && db.products == old(db.products)
        case Some(q) =>
          r == Sent(WithQuantity(old(db.products)[k], q)) && db.products == old(db.products)[k := r.body]
  {
    var k := IndexOfProduct(db.products, id);
    if k == |db.products| {
      return Fail(404, Message("Product not found"));
    }
    var product := db.products[k];
    if operation == "add" {
      product := WithQuantity(product, product.stock.quantity + quantity);
    } else if operation == "subtract" {
      var lowered := product.stock.quantity - quantity;
      product := WithQuantity(product, if lowered > 0 then lowered else 0);
    } else if operation == "set" {
      product := WithQuantity(product, quantity);
    } else {
      return Fail(400, Message("Invalid operation"));
    }
    ReplaceKeepsUnique(db.products, k, product);
    db.products := db.products[k := product];
    r := Sent(product);
  }

  /** Replacing a product by one with the same id and sku keeps both indexes unique. */
  lemma ReplaceKeepsUnique(ps: seq<Product>, k: nat, p: Product)
    requires k < |ps| && p.id == ps[k].id && p.sku == ps[k].sku
    requires UniqueIds(ps) && UniqueSkus(ps)
    ensures UniqueIds(ps[k := p]) && UniqueSkus(ps[k := p])
  {
    var qs := ps[k := p];
    assert forall i :: 0 <= i < |qs| ==> qs[i].id == ps[i].id && qs[i].sku == ps[i].sku;
  }

  // ---- GET /:id, POST /, DELETE /:id ----

  /** `GET /:id`: the product with that id, or 404. */
  method GetProduct(db: Database, id: ProductId) returns (r: Reply<Product>)
    requires db.Valid()
    ensures r.Sent? <==> exists i :: 0 <= i < |db.products| && db.products[i].id == id
    ensures r.Sent? ==> r.body in db.products && r.body.id == id
    ensures r.Fail? ==> r == Fail(404, Message("Product not found"))
  {
    var k := IndexOfProduct(db.products, id);
    if k == |db.products| {
      return Fail(404, Message("Product not found"));
    }
    r := Sent(db.products[k]);
  }

  /**
   * `POST /`: validation failures and unique-index clashes (sku, or the
   * generated id) answer 400 and store nothing; otherwise the validated
   * product is appended and returned.
   */
  method CreateProduct(db: Database, input: ProductInput, newId: ProductId) returns (r: Reply<Product>)
    requires db.Valid()
    modifies db
    ensures db.Valid()
    ensures db.categories == old(db.categories)
    ensures match ValidateProduct(newId, input)
      case Err(paths) => r == Fail(400, ValidationFailed(paths)) && db.products == old(db.products)
      case Ok(p) =>
        if SkuTaken(old(db.products), p.sku) || IndexOfProduct(old(db.products), newId) < |old(db.products)| then
          r == Fail(400, DuplicateKey) && db.products == old(db.products)
        else
          r == Sent(p) && db.products == old(db.products) + [p]
  {
    var v := ValidateProduct(newId, input);
    if v.Err? {
      return Fail(400, ValidationFailed(v.error));
    }
    var p := v.value;
    if SkuTaken(db.products, p.sku) || IndexOfProduct(db.products, newId) < |db.products| {
      return Fail(400, DuplicateKey);
    }
    AppendKeepsUniqueSkus(db.products, p);
    AppendKeepsUniqueIds(db.products, p);
    db.products := db.products + [p];
    r := Sent(p);
  }

  lemma AppendKeepsUniqueIds(ps: seq<Product>, p: Product)
    requires UniqueIds(ps)
    requires IndexOfProduct(ps, p.id) == |ps|
    ensures UniqueIds(ps + [p])
  {
    var qs := ps + [p];
    forall i, j | 0 <= i < j < |qs| ensures qs[i].id != qs[j].id {
      if j == |ps| {
        assert qs[i] == ps[i];
      }
    }
  }

  /** `DELETE /:id`: a hard delete of the product with that id, or 404 and nothing removed. */
  method DeleteProduct(db: Database, id: ProductId) returns (r: Reply<string>)
    requires db.Valid()
    modifies db
    ensures db.Valid()
    ensures db.categories == old(db.categories)
    ensures var k := IndexOfProduct(old(db.products), id);
      if k == |old(db.products)| then
        r == Fail(404, Message("Product not found")) && db.products == old(db.products)
      else
        r == Sent("Product deleted successfully") && db.products == old(db.products)[..k] + old(db.products)[k + 1..]
  {
    var k := IndexOfProduct(db.products, id);
    if k == |db.products| {
      return Fail(404, Message("Product not found"));
    }
    RemoveKeepsUnique(db.products, k);
    db.products := db.products[..k] + db.products[k + 1..];
    r := Sent("Product deleted successfully");
  }

  lemma RemoveKeepsUnique(ps: seq<Product>, k: nat)
    requires k < |ps|
    requires UniqueIds(ps) && UniqueSkus(ps)
    ensures UniqueIds(ps[..k] + ps[k + 1..]) && UniqueSkus(ps[..k] + ps[k + 1..])
  {
    var qs := ps[..k] + ps[k + 1..];
    assert forall i :: 0 <= i < |qs| ==> qs[i] == ps[if i < k then i else i + 1];
  }

  // ---- GET / ----

  /** The query string; an empty string stands for a parameter that is absent. */
  datatype ListQuery = ListQuery(
    category: string,
    search: string,
    status: string,
    page: Option<int>,
    limit: Option<int>,
    lowStock: string)

  /** The MongoDB filter the handler assembles. */
  datatype Filter = Filter(
    category: Option<string>,
    status: Option<string>,
    text: Option<string>,
    lowStock: bool)

  /** What a filter selects; `$text` is an opaque relation `textMatch(search, product)`. */
  predicate Matches(f: Filter, p: Product, textMatch: (string, Product) -> bool) {
    && (f.category.Some? ==> p.category == f.category.value)
    && (f.status.Some? ==> StatusName(p.status) == f.status.value)
    && (f.text.Some? ==> textMatch(f.text.value, p))
    && (f.lowStock ==> p.stock.quantity < p.stock.minStock)
  }

  /**
   * The listing's intended selection: each non-empty parameter constrains
   * the product, and `lowStock` constrains it only for the literal "true".
   */
  predicate Selected(q: ListQuery, p: Product, textMatch: (string, Product) -> bool) {
    && (q.category != "" ==> p.category == q.category)
    && (q.status != "" ==> StatusName(p.status) == q.status)
    && (q.search != "" ==> textMatch(q.search, p))
    && (q.lowStock == "true" ==> p.stock.quantity < p.stock.minStock)
  }

  /** Builds the filter field by field, as the handler does. */
  method BuildFilter(q: ListQuery) returns (f: Filter)
    ensures forall p, t :: Matches(f, p, t) <==> Selected(q, p, t)
  {
    f := Filter(None, None, None, false);
    if q.category != "" {
      f := f.(category := Some(q.category));
    }
    if q.status != "" {
      f := f.(status := Some(q.status));
    }
    if q.search != "" {
      f := f.(text := Some(q.search));
    }
    if q.lowStock == "true" {
      f := f.(lowStock := true);
    }
  }

  /** `lowStock=true` is strict: a product exactly at its minimum is not listed. */
  lemma LowStockExcludesBoundary(q: ListQuery, p: Product, t: (string, Product) -> bool)
    requires q.lowStock == "true"
    requires p.stock.quantity == p.stock.minStock
    ensures !Selected(q, p, t)
  {
  }

  /** An empty query selects every product the text relation does not need to judge. */
  lemma EmptyQuerySelectsAll(p: Product, t: (string, Product) -> bool, lowStock: string)
    requires lowStock != "true"
    ensures Selected(ListQuery("", "", "", None, None, lowStock), p, t)
  {
  }

  /** The documents that match, in collection order. */
  function FilterProducts(ps: seq<Product>, f: Filter, t: (string, Product) -> bool): seq<Product> {
    if ps == [] then []
    else (if Matches(f, ps[0], t) then [ps[0]] else []) + FilterProducts(ps[1..], f, t)
  }

  /** The filtered list holds exactly the matching documents. */
  lemma {:induction false} FilterProductsContents(ps: seq<Product>, f: Filter, t: (string, Product) -> bool)
    ensures forall p :: p in FilterProducts(ps, f, t) <==> p in ps && Matches(f, p, t)
    ensures |FilterProducts(ps, f, t)| <= |ps|
  {
    if ps != [] {
      FilterProductsContents(ps[1..], f, t);
      assert ps == [ps[0]] + ps[1..];
    }
  }

  /** The products the query means to select, in collection order. */
  function SelectedProducts(ps: seq<Product>, q: ListQuery, t: (string, Product) -> bool): seq<Product> {
    if ps == [] then []
    else (if Selected(q, ps[0], t) then [ps[0]] else []) + SelectedProducts(ps[1..], q, t)
  }

  /** Running any filter that agrees with the query on every product yields the intended selection. */
  lemma {:induction false} FilterAgrees(ps: seq<Product>, f: Filter, q: ListQuery, t: (string, Product) -> bool)
    requires forall p :: Matches(f, p, t) <==> Selected(q, p, t)
    ensures FilterProducts(ps, f, t) == SelectedProducts(ps, q, t)
  {
    if ps != [] {
      FilterAgrees(ps[1..], f, q, t);
    }
  }

  /** `totalPages: Math.ceil(total / limit)`; None stands for the non-finite result of a zero limit. */
  function TotalPages(total: nat, limit: int): Option<int> {
    if limit > 0 then Some((total + limit - 1) / limit)
    else if limit < 0 then Some(-(total / -limit))
    else None
  }

  /** For a positive limit, totalPages is the least page count that holds every record. */
  lemma TotalPagesIsCeiling(total: nat, limit: int)
    requires limit > 0
    ensures TotalPages(total, limit).Some?
    ensures var tp := TotalPages(total, limit).value;
      && tp >= 0
      && tp * limit >= total
      && (tp - 1) * limit < total + (if total == 0 then limit else 0)
      && (tp == 0 <==> total == 0)
  {
    var tp := (total + limit - 1) / limit;
    var r := (total + limit - 1) % limit;
    assert total + limit - 1 == tp * limit + r;
  }

  /**
   * `.skip(skip).limit(limit)` on the matching documents: None when skip is
   * negative (the server refuses it); a zero limit means no limit and a
   * negative one is taken by its absolute value.
   */
  function Window(xs: seq<Product>, skip: int, limit: int): Option<seq<Product>> {
    if skip < 0 then None
    else
      var from := if skip <= |xs| then skip else |xs|;
      var rest := xs[from..];
      var n := if limit == 0 then |rest| else if limit > 0 then limit else -limit;
      Some(if n <= |rest| then rest[..n] else rest)
  }

  /** With a positive limit a page returns at most `limit` records, each taken in order from position skip on. */
  lemma WindowBounds(xs: seq<Product>, skip: int, limit: int)
    requires skip >= 0 && limit > 0
    ensures Window(xs, skip, limit).Some?
    ensures var w := Window(xs, skip, limit).value;
      && |w| <= limit
      && (forall i :: 0 <= i < |w| ==> skip + i < |xs| && w[i] == xs[skip + i])
      && (skip + limit <= |xs| ==> |w| == limit)
  {
  }

  /** Pages tile the matching list: record i is on page i / limit + 1, which is within totalPages. */
  lemma EveryRecordHasAPage(xs: seq<Product>, limit: int, i: nat)
    requires limit > 0 && i < |xs|
    ensures var page := i / limit + 1;
      && 1 <= page <= TotalPages(|xs|, limit).value
      && Window(xs, (page - 1) * limit, limit).Some?
      && i - (page - 1) * limit < |Window(xs, (page - 1) * limit, limit).value|
      && Window(xs, (page - 1) * limit, limit).value[i - (page - 1) * limit] == xs[i]
  {
    var q := i / limit;
    assert (q + 1) - 1 == q;
    var skip := q * limit;
    QuotientBounds(i, limit);
    TotalPagesIsCeiling(|xs|, limit);
    QuotientBelow(i, limit, TotalPages(|xs|, limit).value);
    WindowBounds(xs, skip, limit);
  }

  /** `i / limit` is the row of `limit`-wide rows that holds i. */
  lemma QuotientBounds(i: nat, limit: int)
    requires limit > 0
    ensures i / limit >= 0 && (i / limit) * limit <= i < (i / limit) * limit + limit
  {
    assert i == (i / limit) * limit + i % limit;
  }

  /** An index below `tp` rows of `limit` lies in a row before `tp`. */
  lemma QuotientBelow(i: nat, limit: int, tp: int)
    requires limit > 0 && i < tp * limit
    ensures i / limit < tp
  {
    QuotientBounds(i, limit);
    if i / limit >= tp {
      MulMono(tp, i / limit, limit);
    }
  }

  lemma MulMono(a: int, b: int, c: nat)
    requires a <= b
    ensures a * c <= b * c
  {
  }

  datatype ProductPage = ProductPage(products: seq<Product>, totalPages: Option<int>, currentPage: int, total: nat)

  /**
   * `.sort({ createdAt: -1 })` on the selection. The collection holds the
   * documents in the order they were inserted, and creation timestamps grow
   * with that order, so newest first is the reverse of collection order.
   */
  function NewestFirst(matching: seq<Product>): seq<Product> {
    Reverse(matching)
  }

  /**
   * `GET /`: page defaults to 1 and limit to 10; the records are the window,
   * at (page - 1) * limit, of the selected documents newest first, and
   * `total` counts every selected document.
   */
  method ListProducts(db: Database, q: ListQuery, textMatch: (string, Product) -> bool) returns (r: Reply<ProductPage>)
    ensures var page := q.page.GetOr(1);
      var limit := q.limit.GetOr(10);
      var matching := SelectedProducts(db.products, q, textMatch);
      match Window(NewestFirst(matching), (page - 1) * limit, limit)
      case None => r == Fail(500, NegativeSkip)
      case Some(w) => r == Sent(ProductPage(w, TotalPages(|matching|, limit), page, |matching|))
  {
    var page := q.page.GetOr(1);
    var limit := q.limit.GetOr(10);
    var filter := BuildFilter(q);
    var matching := FilterProducts(db.products, filter, textMatch);
    FilterAgrees(db.products, filter, q, textMatch);
    var w := Window(NewestFirst(matching), (page - 1) * limit, limit);
    if w.None? {
      return Fail(500, NegativeSkip);
    }
    r := Sent(ProductPage(w.value, TotalPages(|matching|, limit), page, |matching|));
  }

  /** With no page or limit given, the ten newest selected records are returned, newest first. */
  lemma DefaultPaging(ps: seq<Product>, q: ListQuery, t: (string, Product) -> bool)
    requires q.page.None? && q.limit.None?
    ensures var sorted := NewestFirst(SelectedProducts(ps, q, t));
      && Window(sorted, (q.page.GetOr(1) - 1) * q.limit.GetOr(10), q.limit.GetOr(10)) ==
        Some(if 10 <= |sorted| then sorted[..10] else sorted)
      && forall i :: 0 <= i < |sorted| ==> sorted[i] == SelectedProducts(ps, q, t)[|sorted| - 1 - i]
  {
    var sorted := NewestFirst(SelectedProducts(ps, q, t));
    assert q.page.GetOr(1) == 1 && q.limit.GetOr(10) == 10;
    assert (1 - 1) * 10 == 0;
    assert sorted[0..] == sorted;
    assert Window(sorted, 0, 10) == Some(if 10 <= |sorted| then sorted[..10] else sorted);
  }

  /** Inserting a document extends the selection at its end when the query selects it, and leaves it alone otherwise. */
  lemma {:induction false} SelectedAppend(ps: seq<Product>, p: Product, q: ListQuery, t: (string, Product) -> bool)
    ensures SelectedProducts(ps + [p], q, t) == SelectedProducts(ps, q, t) + (if Selected(q, p, t) then [p] else [])
  {
    if ps == [] {
      assert [p][1..] == [];
    } else {
      assert (ps + [p])[1..] == ps[1..] + [p];
      SelectedAppend(ps[1..], p, q, t);
    }
  }

  /** A product just created that the query selects heads the first page. */
  lemma CreatedProductListedFirst(ps: seq<Product>, p: Product, q: ListQuery, t: (string, Product) -> bool)
    requires Selected(q, p, t)
    ensures var sorted := NewestFirst(SelectedProducts(ps + [p], q, t));
      |sorted| > 0 && sorted[0] == p
  {
    SelectedAppend(ps, p, q, t);
  }
}
