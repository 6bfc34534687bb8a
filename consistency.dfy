/**
 * Where the server and the pages meet: the low-stock boundary, the delete
 * button against the delete guard, the edit dialog's request after its
 * parent select changed, the status filter against the active-only listing,
 * and the dialogs' submit gates against the server's validators.
 */
module Consistency {
  import opened Wrappers
  import opened JsText
  import opened ProductModel
  import opened CategoryModel
  import opened Sequences
  import opened Http
  import opened Db
  import opened CategoryRoutes
  import PR = ProductRoutes
  import PP = ProductsPage
  import CP = CategoriesPage
  import AS = AddSubcategoryDialog
  import ES = EditSubcategoryDialog

  // ---- the low-stock boundary ----

  /**
   * At quantity == minStock > 0 the product list's badge says Low Stock, while
   * the server's `lowStock=true` listing and the statistics both leave the
   * product out.
   */
  lemma BoundaryLowOnlyOnClient(c: Category, p: Product, q: PR.ListQuery, t: (string, Product) -> bool)
    requires p.category == c.name && p.status == Active
    requires 0 < p.stock.quantity == p.stock.minStock
    requires q.lowStock == "true"
    ensures PP.Classify(p.stock.quantity, p.stock.minStock) == PP.LowStock
    ensures !PR.Selected(q, p, t)
    ensures StatOf(c, [p]).lowStockProducts == 0
  {
    CountWhereSingle(p, q => LowIn(c, q));
  }

  /** Away from the boundary and from zero, the client's Low Stock and the server's low-stock test agree. */
  lemma LowAgreesOffBoundary(quantity: int, minStock: int)
    requires quantity > 0 && quantity != minStock
    ensures PP.Classify(quantity, minStock) == PP.LowStock <==> quantity < minStock
  {
  }

  // ---- the delete button and the delete guard ----

  /** The card's record for a name, when the page holds the server's summary, is the stats of an active category of that name. */
  lemma SummaryRecordFor(cs: seq<Category>, ps: seq<Product>, name: string)
    requires CP.CategoryStatsFor(Stats(cs, ps), name).Some?
    ensures exists c :: (c in cs && c.isActive && c.name == name
      && CP.CategoryStatsFor(Stats(cs, ps), name).value == StatOf(c, ps))
  {
    StatsOnePerActive(cs, ps);
    var s := CP.CategoryStatsFor(Stats(cs, ps), name).value;
    var i :| 0 <= i < |Stats(cs, ps)| && Stats(cs, ps)[i] == s;
    var c :| c in cs && c.isActive && Stats(cs, ps)[i] == StatOf(c, ps);
    StatBounds(c, ps);
  }

  /** A disabled delete button means the server would refuse the delete too. */
  lemma DisabledDeleteIsRefused(cs: seq<Category>, ps: seq<Product>, target: Category)
    requires !CP.DeleteEnabled(Stats(cs, ps), target.name)
    ensures ProductCount(target, ps) > 0
  {
    SummaryRecordFor(cs, ps, target.name);
    var c :| c in cs && c.isActive && c.name == target.name
      && CP.CategoryStatsFor(Stats(cs, ps), target.name).value == StatOf(c, ps);
    StatBounds(c, ps);
  }

  /**
   * The converse fails: with one discontinued product in the category the
   * button is enabled, and the server answers 400.
   */
  lemma EnabledDeleteCanBeRefused(c: Category, p: Product)
    requires c.isActive
    requires p.category == c.name && p.status == Discontinued
    ensures CP.DeleteEnabled(Stats([c], [p]), c.name)
    ensures ProductCount(c, [p]) > 0
  {
    CountWhereSingle(p, q => ActiveIn(c, q));
    CountWhereSingle(p, (q: Product) => q.category == c.name);
    KeepAll([c], (d: Category) => d.isActive);
    assert Stats([c], [p]) == [StatOf(c, [p])];
  }

  // ---- the edit dialog after a change of parent ----

  /** Subcategory `_id`s are ObjectIds: no two entries of two categories share one. */
  predicate SubIdsDistinct(cs: seq<Category>) {
    forall i, j, a, b :: 0 <= i < |cs| && 0 <= j < |cs| && i != j
      && 0 <= a < |cs[i].subCategories| && 0 <= b < |cs[j].subCategories|
      ==> cs[i].subCategories[a].id != cs[j].subCategories[b].id
  }

  /**
   * The dialog's submit followed by the server's update: when the parent
   * select names another existing category than the one holding the entry,
   * the request targets the new parent with the old entry id and the server
   * answers 404 "Subcategory not found" without changing anything.
   */
  method SubmitAfterParentChange(db: Database, role: string, dialog: ES.Dialog, from: nat, a: nat)
    returns (r: Reply<Category>)
    requires db.Valid() && SubIdsDistinct(db.categories)
    requires CanManage(role) && dialog.SubmitEnabled()
    requires from < |db.categories| && a < |db.categories[from].subCategories|
    requires db.categories[from].subCategories[a].id == dialog.subId
    requires IndexOfCategory(db.categories, dialog.categoryId) < |db.categories|
    requires IndexOfCategory(db.categories, dialog.categoryId) != from
    modifies db, dialog
    ensures r == Fail(404, Message("Subcategory not found"))
    ensures db.categories == old(db.categories) && db.products == old(db.products)
  {
    var k := IndexOfCategory(db.categories, dialog.categoryId);
    var target := db.categories[k];
    forall b | 0 <= b < |target.subCategories| ensures target.subCategories[b].id != dialog.subId {
    }
    NoSubId(target.subCategories, dialog.subId);
    var categoryTarget, subTarget, body := dialog.Submit();
    r := UpdateSubcategory(db, role, categoryTarget, subTarget, AS.AsPatch(body));
  }

  /** With no entry of that id, the lookup reports the end of the list. */
  lemma {:induction false} NoSubId(subs: seq<Subcategory>, id: SubcategoryId)
    requires forall b :: 0 <= b < |subs| ==> subs[b].id != id
    ensures IndexOfSub(subs, id) == |subs|
  {
    if subs != [] {
      NoSubId(subs[1..], id);
    }
  }

  // ---- the status filter and the listing ----

  /** What the categories page receives: the categories of the server's listing. */
  function Received(cs: seq<Category>, ps: seq<Product>): (r: seq<Category>)
    ensures |r| == |ListCategories(cs, ps)|
    ensures forall i :: 0 <= i < |r| ==> r[i] == ListCategories(cs, ps)[i].category
  {
    var l := ListCategories(cs, ps);
    seq(|l|, i requires 0 <= i < |l| => l[i].category)
  }

  /** The page receives exactly the active categories, so any status other than 'active' shows nothing. */
  lemma InactiveFilterShowsNothing(cs: seq<Category>, ps: seq<Product>, f: CP.Filters)
    requires f.status != "" && f.status != "active"
    ensures CP.VisibleCategories(Received(cs, ps), f) == []
  {
    ListedCategoriesSelect(cs);
    var fetched := Received(cs, ps);
    assert Received(cs, ps) == ListedCategories(cs);
    forall c | c in fetched ensures !CP.Visible(c, f) {
    }
    KeepNone(fetched, (c: Category) => CP.Visible(c, f));
  }

  /** A filter that rejects every element keeps nothing. */
  lemma {:induction false} KeepNone<T>(xs: seq<T>, f: T -> bool)
    requires forall x :: x in xs ==> !f(x)
    ensures Keep(xs, f) == []
  {
    if xs != [] {
      assert forall x :: x in xs[1..] ==> x in xs;
      KeepNone(xs[1..], f);
    }
  }

  /** A category toggled to inactive leaves the page under every filter. */
  lemma DeactivatedLeavesPage(cs: seq<Category>, ps: seq<Product>, f: CP.Filters, c: Category)
    requires !c.isActive
    ensures c !in CP.VisibleCategories(Received(cs, ps), f)
  {
    ListedCategoriesSelect(cs);
    assert Received(cs, ps) == ListedCategories(cs);
    CP.VisibleSelect(Received(cs, ps), f);
  }

  // ---- the dialogs' gate and the server's validators ----

  /** A body the edit dialog lets through merges into any stored entry without a validation error. */
  lemma GatedPatchIsAccepted(s: Subcategory, body: AS.SubcategoryBody, categoryId: string)
    requires AS.SubmitGate(false, body.name, body.description, categoryId)
    ensures MergeSubcategory(s, AS.AsPatch(body)) == Ok(Subcategory(s.id, Trim(body.name), Some(body.description), body.specifications))
  {
  }
}
