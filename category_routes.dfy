/**
 * The category routes: the role gates, creation and update with the unique
 * name index, the soft delete and its product guard, the three subcategory
 * routes that edit the embedded list, the active-only listing and the
 * per-category statistics.
 */
module CategoryRoutes {
  import opened Wrappers
  import opened JsText
  import opened ProductModel
  import opened CategoryModel
  import opened Sequences
  import opened Db
  import opened Http
  import JsValues

  // ---- Role gates ----

  /** `['admin', 'manager'].includes(role)`: the gate on every mutating route but delete. */
  predicate CanManage(role: string) {
    role == "admin" || role == "manager"
  }

  /** `role !== 'admin'` rejects: the gate on the soft delete. */
  predicate CanDelete(role: string) {
    role == "admin"
  }

  /** The delete gate is strictly narrower than the manage gate: a manager may edit but not delete. */
  lemma DeleteGateNarrower(role: string)
    ensures CanDelete(role) ==> CanManage(role)
    ensures CanManage("manager") && !CanDelete("manager")
  {
  }

  const ManageDenied := Fail(403, Message("Access denied. Admin or Manager role required."))
  const DeleteDenied := Fail(403, Message("Access denied. Admin role required."))
  const CategoryNotFound := Message("Category not found")
  const NameExists := Message("Category name already exists")

  /** Replacing a category by one with the same id and a name no other category uses keeps both indexes unique. */
  lemma ReplaceKeepsUnique(cs: seq<Category>, k: nat, c: Category)
    requires k < |cs| && c.id == cs[k].id
    requires !NameTakenBy(cs, c.name, k)
    requires UniqueCategoryIds(cs) && UniqueNames(cs)
    ensures UniqueCategoryIds(cs[k := c]) && UniqueNames(cs[k := c])
  {
    var ds := cs[k := c];
    forall i, j | 0 <= i < j < |ds| ensures ds[i].name != ds[j].name {
      if i == k {
        assert !(0 <= j < |cs| && j != k && cs[j].name == c.name);
      } else if j == k {
        assert !(0 <= i < |cs| && i != k && cs[i].name == c.name);
      }
    }
  }

  /** Replacing a category by one with the same id and name keeps both indexes unique. */
  lemma ReplaceSameName(cs: seq<Category>, k: nat, c: Category)
    requires k < |cs| && c.id == cs[k].id && c.name == cs[k].name
    requires UniqueCategoryIds(cs) && UniqueNames(cs)
    ensures UniqueCategoryIds(cs[k := c]) && UniqueNames(cs[k := c])
  {
    var ds := cs[k := c];
    assert forall i :: 0 <= i < |ds| ==> ds[i].id == cs[i].id && ds[i].name == cs[i].name;
  }

  // ---- POST / ----

  /**
   * `POST /`: 403 for other roles; the body with `createdBy` replaced by the
   * caller is validated (400 with the failing paths) and then inserted, where
   * a clash on the unique name (or the generated id) answers 400 "Category
   * name already exists". Nothing is stored unless it answers the category.
   */
  method CreateCategory(db: Database, role: string, userId: UserId, input: CategoryInput, newId: CategoryId)
    returns (r: Reply<Category>)
    requires db.Valid()
    modifies db
    ensures db.Valid()
    ensures db.products == old(db.products)
    ensures !CanManage(role) ==> r == ManageDenied && db.categories == old(db.categories)
    ensures CanManage(role) ==>
      match ValidateCategory(newId, input.(createdBy := Some(userId)))
      case Err(paths) => r == Fail(400, ValidationFailed(paths)) && db.categories == old(db.categories)
      case Ok(c) =>
        if NameTakenBy(old(db.categories), c.name, -1) || IndexOfCategory(old(db.categories), newId) < |old(db.categories)| then
          r == Fail(400, NameExists) && db.categories == old(db.categories)
        else
          r == Sent(c) && db.categories == old(db.categories) + [c]
  {
    if !CanManage(role) {
      return ManageDenied;
    }
    var v := ValidateCategory(newId, input.(createdBy := Some(userId)));
    if v.Err? {
      return Fail(400, ValidationFailed(v.error));
    }
    var c := v.value;
    if NameTakenBy(db.categories, c.name, -1) || IndexOfCategory(db.categories, newId) < |db.categories| {
      return Fail(400, NameExists);
    }
    AppendKeepsUnique(db.categories, c);
    db.categories := db.categories + [c];
    r := Sent(c);
  }

  lemma AppendKeepsUnique(cs: seq<Category>, c: Category)
    requires UniqueCategoryIds(cs) && UniqueNames(cs)
    requires !NameTakenBy(cs, c.name, -1) && IndexOfCategory(cs, c.id) == |cs|
    ensures UniqueCategoryIds(cs + [c]) && UniqueNames(cs + [c])
  {
    var ds := cs + [c];
    forall i, j | 0 <= i < j < |ds| ensures ds[i].name != ds[j].name && ds[i].id != ds[j].id {
      if j == |cs| {
        assert ds[i] == cs[i];
        assert !(0 <= i < |cs| && i != -1 && cs[i].name == c.name);
      }
    }
  }

  // ---- PUT /:id ----

  /**
   * The update validators (`runValidators: true`): they check only the paths
   * the update sets: a name that trims to "", an empty description, and any
   * unnamed subcategory entry fail. On success, the cast subcategory list
   * (when the update carries one).
   */
  function ValidatePatch(patch: CategoryPatch): Result<Option<seq<Subcategory>>, seq<string>> {
    var subs := if patch.subCategories.Some? then ValidateSubcategories(patch.subCategories.value, 0) else Ok([]);
    var paths :=
      Failing(patch.name.None? || Trim(patch.name.value) != "", "name")
      + Failing(patch.description.None? || patch.description.value != "", "description")
      + (match subs case Ok(_) => [] case Err(p) => p);
    match subs
    case Err(_) => Err(paths)
    case Ok(list) =>
      if paths != [] then Err(paths)
      else Ok(if patch.subCategories.Some? then Some(list) else None)
  }

  /** The update accepts exactly the patches whose set paths are valid. */
  lemma ValidatePatchIff(patch: CategoryPatch)
    ensures ValidatePatch(patch).Ok? <==>
      && (patch.name.Some? ==> Trim(patch.name.value) != "")
      && (patch.description.Some? ==> patch.description.value != "")
      && (patch.subCategories.Some? ==>
            forall i :: 0 <= i < |patch.subCategories.value| ==> Present(TrimmedField(patch.subCategories.value[i].name)))
    ensures ValidatePatch(patch).Ok? ==> (ValidatePatch(patch).value.Some? <==> patch.subCategories.Some?)
  {
    if patch.subCategories.Some? {
      ValidateSubcategoriesIff(patch.subCategories.value, 0);
      ValidateSubcategoriesNonEmpty(patch.subCategories.value, 0);
    }
  }

  /** `$set` of the patch's fields onto the stored document; a name is stored trimmed. */
  function ApplyPatch(c: Category, patch: CategoryPatch, subs: Option<seq<Subcategory>>): (r: Category)
    ensures r.id == c.id
    ensures patch.createdBy.None? ==> r.createdBy == c.createdBy
    ensures patch.createdBy.Some? ==> r.createdBy == patch.createdBy.value
    ensures patch.name.None? ==> r.name == c.name
    ensures patch.description.None? ==> r.description == c.description
    ensures subs.None? ==> r.subCategories == c.subCategories
    ensures patch.image.None? ==> r.image == c.image
    ensures patch.isActive.None? ==> r.isActive == c.isActive
  {
    c.(name := if patch.name.Some? then Trim(patch.name.value) else c.name,
       description := if patch.description.Some? then patch.description.value else c.description,
       subCategories := if subs.Some? then subs.value else c.subCategories,
       image := if patch.image.Some? then patch.image.value else c.image,
       isActive := if patch.isActive.Some? then patch.isActive.value else c.isActive,
       createdBy := if patch.createdBy.Some? then patch.createdBy.value else c.createdBy)
  }

  /** The empty patch leaves a document as it is. */
  lemma EmptyPatchIsIdentity(c: Category)
    ensures ApplyPatch(c, CategoryPatch(None, None, None, None, None, None), None) == c
  {
  }

  /** A body carrying only `createdBy` passes the update validators and hands the category to that user, name and all else kept. */
  lemma PatchReassignsCreator(c: Category, u: UserId)
    ensures ValidatePatch(CategoryPatch(None, None, None, None, None, Some(u))) == Ok(None)
    ensures ApplyPatch(c, CategoryPatch(None, None, None, None, None, Some(u)), None) == c.(createdBy := u)
  {
  }

  /**
   * `PUT /:id`: 403 for other roles; the update validators run before the
   * lookup, so an invalid body answers 400 even for a missing id; then a
   * missing id answers 404 and a name clash 400. Only an accepted update
   * changes the one document.
   */
  method UpdateCategory(db: Database, role: string, id: CategoryId, patch: CategoryPatch) returns (r: Reply<Category>)
    requires db.Valid()
    modifies db
    ensures db.Valid()
    ensures db.products == old(db.products)
    ensures !CanManage(role) ==> r == ManageDenied && db.categories == old(db.categories)
    ensures CanManage(role) ==>
      var k := IndexOfCategory(old(db.categories), id);
      match ValidatePatch(patch)
      case Err(paths) => r == Fail(400, ValidationFailed(paths)) && db.categories == old(db.categories)
      case Ok(subs) =>
        if k == |old(db.categories)| then
          r == Fail(404, CategoryNotFound) && db.categories == old(db.categories)
        else
          var c := ApplyPatch(old(db.categories)[k], patch, subs);
          if NameTakenBy(old(db.categories), c.name, k) then
            r == Fail(400, NameExists) && db.categories == old(db.categories)
          else
            r == Sent(c) && db.categories == old(db.categories)[k := c]
  {
    if !CanManage(role) {
      return ManageDenied;
    }
    var v := ValidatePatch(patch);
    if v.Err? {
      return Fail(400, ValidationFailed(v.error));
    }
    var k := IndexOfCategory(db.categories, id);
    if k == |db.categories| {
      return Fail(404, CategoryNotFound);
    }
    var c := ApplyPatch(db.categories[k], patch, v.value);
    if NameTakenBy(db.categories, c.name, k) {
      return Fail(400, NameExists);
    }
    ReplaceKeepsUnique(db.categories, k, c);
    db.categories := db.categories[k := c];
    r := Sent(c);
  }

  // ---- DELETE /:id ----

  /**
   * `DELETE /:id` as written: 403 unless admin; the guard reads the name of
   * the looked-up document, so a missing id throws before the 404 branch and
   * answers 500; a category that any product of any status names answers
   * 400; otherwise only `isActive` is cleared.
   */
  method DeleteCategory(db: Database, role: string, id: CategoryId) returns (r: Reply<string>)
    requires db.Valid()
    modifies db
    ensures db.Valid()
    ensures db.products == old(db.products)
    ensures !CanDelete(role) ==> r == DeleteDenied && db.categories == old(db.categories)
    ensures CanDelete(role) ==>
      var k := IndexOfCategory(old(db.categories), id);
      if k == |old(db.categories)| then
        r == Fail(500, NullDereference) && db.categories == old(db.categories)
      else if ProductCount(old(db.categories)[k], db.products) > 0 then
        r == Fail(400, Message("Cannot delete category with existing products. Please reassign products first."))
        && db.categories == old(db.categories)
      else
        r == Sent("Category deleted successfully")
        && db.categories == old(db.categories)[k := old(db.categories)[k].(isActive := false)]
    ensures r != Fail(404, CategoryNotFound)
  {
    if !CanDelete(role) {
      return DeleteDenied;
    }
    var k := IndexOfCategory(db.categories, id);
    if k == |db.categories| {
      return Fail(500, NullDereference);
    }
    var productCount := ProductCount(db.categories[k], db.products);
    if productCount > 0 {
      return Fail(400, Message("Cannot delete category with existing products. Please reassign products first."));
    }
    var c := db.categories[k].(isActive := false);
    ReplaceSameName(db.categories, k, c);
    db.categories := db.categories[k := c];
    r := Sent("Category deleted successfully");
  }

  /** The guard refuses exactly when some product, whatever its status, carries the category's name. */
  lemma DeleteGuardIff(c: Category, ps: seq<Product>)
    ensures ProductCount(c, ps) > 0 <==> exists i :: 0 <= i < |ps| && ps[i].category == c.name
  {
    CountWherePositive(ps, (p: Product) => p.category == c.name);
  }

  // ---- Subcategory routes ----

  /** The path Mongoose reports for an unnamed entry at index n. */
  function EntryPath(n: nat): string {
    "subCategories." + NatToString(n) + ".name"
  }

  /**
   * `POST /:id/subcategories`: 403, 404 for a missing category, 400 when the
   * pushed entry has no name (the save validates it at its index); otherwise
   * the entry is appended at the end and the earlier entries stay as they were.
   */
  method AddSubcategory(db: Database, role: string, id: CategoryId, input: SubcategoryInput) returns (r: Reply<Category>)
    requires db.Valid()
    modifies db
    ensures db.Valid()
    ensures db.products == old(db.products)
    ensures !CanManage(role) ==> r == ManageDenied && db.categories == old(db.categories)
    ensures CanManage(role) ==>
      var k := IndexOfCategory(old(db.categories), id);
      if k == |old(db.categories)| then
        r == Fail(404, CategoryNotFound) && db.categories == old(db.categories)
      else
        var c := old(db.categories)[k];
        match ValidateSubcategory(input)
        case Err(_) =>
          r == Fail(400, ValidationFailed([EntryPath(|c.subCategories|)])) && db.categories == old(db.categories)
        case Ok(s) =>
          && r.Sent?
          && r.body == c.(subCategories := c.subCategories + [s])
          && db.categories == old(db.categories)[k := r.body]
  {
    if !CanManage(role) {
      return ManageDenied;
    }
    var k := IndexOfCategory(db.categories, id);
    if k == |db.categories| {
      return Fail(404, CategoryNotFound);
    }
    var c := db.categories[k];
    var entry := ValidateSubcategory(input);
    if entry.Err? {
      return Fail(400, ValidationFailed([EntryPath(|c.subCategories|)]));
    }
    c := c.(subCategories := c.subCategories + [entry.value]);
    ReplaceSameName(db.categories, k, c);
    db.categories := db.categories[k := c];
    r := Sent(c);
  }

  /**
   * `PUT /:id/subcategories/:subId`: 403; 404 "Category not found"; 404
   * "Subcategory not found" when no entry has the id; 400 when the merged
   * entry is unnamed; otherwise that entry is replaced by the merge and its
   * siblings stay as they were.
   */
  method UpdateSubcategory(db: Database, role: string, id: CategoryId, subId: SubcategoryId, patch: SubcategoryPatch)
    returns (r: Reply<Category>)
    requires db.Valid()
    modifies db
    ensures db.Valid()
    ensures db.products == old(db.products)
    ensures !CanManage(role) ==> r == ManageDenied && db.categories == old(db.categories)
    ensures CanManage(role) ==>
      var k := IndexOfCategory(old(db.categories), id);
      if k == |old(db.categories)| then
        r == Fail(404, CategoryNotFound) && db.categories == old(db.categories)
      else
        var c := old(db.categories)[k];
        var j := IndexOfSub(c.subCategories, subId);
        if j == |c.subCategories| then
          r == Fail(404, Message("Subcategory not found")) && db.categories == old(db.categories)
        else
          match MergeSubcategory(c.subCategories[j], patch)
          case Err(_) => r == Fail(400, ValidationFailed([EntryPath(j)])) && db.categories == old(db.categories)
          case Ok(s) =>
            && r.Sent?
            && r.body == c.(subCategories := c.subCategories[j := s])
            && db.categories == old(db.categories)[k := r.body]
  {
    if !CanManage(role) {
      return ManageDenied;
    }
    var k := IndexOfCategory(db.categories, id);
    if k == |db.categories| {
      return Fail(404, CategoryNotFound);
    }
    var c := db.categories[k];
    var j := IndexOfSub(c.subCategories, subId);
    if j == |c.subCategories| {
      return Fail(404, Message("Subcategory not found"));
    }
    var merged := MergeSubcategory(c.subCategories[j], patch);
    if merged.Err? {
      return Fail(400, ValidationFailed([EntryPath(j)]));
    }
    c := c.(subCategories := c.subCategories[j := merged.value]);
    ReplaceSameName(db.categories, k, c);
    db.categories := db.categories[k := c];
    r := Sent(c);
  }

  /**
   * `DELETE /:id/subcategories/:subId`: 403; 404 for a missing category;
   * otherwise every entry with the id is pulled, and an id that is absent is
   * no error.
   */
  method RemoveSubcategory(db: Database, role: string, id: CategoryId, subId: SubcategoryId) returns (r: Reply<Category>)
    requires db.Valid()
    modifies db
    ensures db.Valid()
    ensures db.products == old(db.products)
    ensures !CanManage(role) ==> r == ManageDenied && db.categories == old(db.categories)
    ensures CanManage(role) ==>
      var k := IndexOfCategory(old(db.categories), id);
      if k == |old(db.categories)| then
        r == Fail(404, CategoryNotFound) && db.categories == old(db.categories)
      else
        var c := old(db.categories)[k];
        && r == Sent(c.(subCategories := PullSubcategory(c.subCategories, subId)))
        && db.categories == old(db.categories)[k := r.body]
  {
    if !CanManage(role) {
      return ManageDenied;
    }
    var k := IndexOfCategory(db.categories, id);
    if k == |db.categories| {
      return Fail(404, CategoryNotFound);
    }
    var c := db.categories[k];
    c := c.(subCategories := PullSubcategory(c.subCategories, subId));
    ReplaceSameName(db.categories, k, c);
    db.categories := db.categories[k := c];
    r := Sent(c);
  }

  // ---- GET / and GET /stats/summary ----

  /** `Category.find({ isActive: true })`, in collection order. */
  function ActiveCategories(cs: seq<Category>): seq<Category> {
    Keep(cs, (c: Category) => c.isActive)
  }

  /** The listing holds exactly the active categories, in their stored order. */
  lemma ActiveCategoriesSelect(cs: seq<Category>)
    ensures forall c :: c in ActiveCategories(cs) <==> c in cs && c.isActive
    ensures IsSubsequence(ActiveCategories(cs), cs)
  {
    KeepContents(cs, (c: Category) => c.isActive);
    KeepKeepsOrder(cs, (c: Category) => c.isActive);
  }

  /** Products of the category with status 'active'. */
  function ActiveCount(c: Category, ps: seq<Product>): nat {
    CountWhere(ps, (p: Product) => p.category == c.name && p.status == Active)
  }

  /**
   * a sorts no later than b under `.sort({ name: 1 })`. MongoDB's default
   * order compares strings by their UTF-8 bytes, which orders them as their
   * code points do.
   */
  predicate NameNotAfter(a: Category, b: Category) {
    !JsValues.StrLess(b.name, a.name)
  }

  predicate SortedByName(s: seq<Category>) {
    forall i :: 0 <= i < |s| - 1 ==> NameNotAfter(s[i], s[i + 1])
  }

  /** c inserted before the first entry it does not sort after. */
  function InsertByName(c: Category, s: seq<Category>): seq<Category> {
    if s == [] then [c]
    else if NameNotAfter(c, s[0]) then [c] + s
    else [s[0]] + InsertByName(c, s[1..])
  }

  /** The categories in ascending name order. */
  function SortByName(cs: seq<Category>): seq<Category> {
    if cs == [] then [] else InsertByName(cs[0], SortByName(cs[1..]))
  }

  /** Insertion adds c once and keeps every other entry; the result starts with c or with the old first entry. */
  lemma {:induction false} InsertByNameContents(c: Category, s: seq<Category>)
    ensures multiset(InsertByName(c, s)) == multiset(s) + multiset{c}
    ensures InsertByName(c, s)[0] == c || (s != [] && InsertByName(c, s)[0] == s[0])
  {
    if s != [] && !NameNotAfter(c, s[0]) {
      InsertByNameContents(c, s[1..]);
      assert s == [s[0]] + s[1..];
    }
  }

  /** Insertion into a sorted list keeps it sorted. */
  lemma {:induction false} InsertByNameSorted(c: Category, s: seq<Category>)
    requires SortedByName(s)
    ensures SortedByName(InsertByName(c, s))
  {
    if s != [] && !NameNotAfter(c, s[0]) {
      var rest := s[1..];
      assert SortedByName(rest) by {
        forall i | 0 <= i < |rest| - 1 ensures NameNotAfter(rest[i], rest[i + 1]) {
          assert rest[i] == s[i + 1] && rest[i + 1] == s[i + 2];
        }
      }
      InsertByNameSorted(c, rest);
      InsertByNameContents(c, rest);
      JsValues.StrLessAsymmetric(s[0].name, c.name);
      var t := InsertByName(c, rest);
      assert NameNotAfter(s[0], t[0]) by {
        if rest != [] && t[0] == rest[0] {
          assert rest[0] == s[1];
        }
      }
      var r := [s[0]] + t;
      forall i | 0 <= i < |r| - 1 ensures NameNotAfter(r[i], r[i + 1]) {
        if i > 0 {
          assert r[i] == t[i - 1] && r[i + 1] == t[i];
        }
      }
    }
  }

  /** Sorting by name orders the list and keeps exactly its entries. */
  lemma {:induction false} SortByNameSortsAndPermutes(cs: seq<Category>)
    ensures SortedByName(SortByName(cs))
    ensures multiset(SortByName(cs)) == multiset(cs)
  {
    if cs != [] {
      SortByNameSortsAndPermutes(cs[1..]);
      InsertByNameSorted(cs[0], SortByName(cs[1..]));
      InsertByNameContents(cs[0], SortByName(cs[1..]));
      assert cs == [cs[0]] + cs[1..];
    }
  }

  /** The categories `GET /` lists: the active ones, by name. */
  function ListedCategories(cs: seq<Category>): seq<Category> {
    SortByName(ActiveCategories(cs))
  }

  /** The listing holds exactly the active categories, each as often as it is stored, in ascending name order. */
  lemma ListedCategoriesSelect(cs: seq<Category>)
    ensures forall c :: c in ListedCategories(cs) <==> c in cs && c.isActive
    ensures multiset(ListedCategories(cs)) == multiset(ActiveCategories(cs))
    ensures SortedByName(ListedCategories(cs))
  {
    ActiveCategoriesSelect(cs);
    SortByNameSortsAndPermutes(ActiveCategories(cs));
    forall c ensures c in ListedCategories(cs) <==> c in ActiveCategories(cs) {
      assert c in ListedCategories(cs) <==> c in multiset(ListedCategories(cs));
      assert c in ActiveCategories(cs) <==> c in multiset(ActiveCategories(cs));
    }
  }

  datatype CategoryListing = CategoryListing(category: Category, productCount: nat)

  /** `GET /`: every active category, by name, with the number of its active products. */
  function ListCategories(cs: seq<Category>, ps: seq<Product>): seq<CategoryListing> {
    var listed := ListedCategories(cs);
    seq(|listed|, i requires 0 <= i < |listed| => CategoryListing(listed[i], ActiveCount(listed[i], ps)))
  }

  /**
   * The count in the listing is at most the `productCount` virtual of the
   * schema, which counts every status; the two agree iff no product of the
   * category has another status.
   */
  lemma ListingCountAtMostVirtual(cs: seq<Category>, ps: seq<Product>, i: nat)
    requires i < |ListCategories(cs, ps)|
    ensures var l := ListCategories(cs, ps)[i];
      && l.category.isActive
      && l.category in cs
      && l.productCount <= ProductCount(l.category, ps)
  {
    var l := ListCategories(cs, ps)[i];
    ListedCategoriesSelect(cs);
    assert l.category in ListedCategories(cs);
    CountWhereMono(ps, (p: Product) => p.category == l.category.name && p.status == Active,
      (p: Product) => p.category == l.category.name);
  }

  /** A discontinued product is counted by the virtual but not by the listing. */
  lemma ListingIgnoresDiscontinued(c: Category, p: Product)
    requires p.category == c.name && p.status == Discontinued
    ensures ActiveCount(c, [p]) == 0 && ProductCount(c, [p]) == 1
  {
    CountWhereSingle(p, (p: Product) => p.category == c.name && p.status == Active);
    CountWhereSingle(p, (p: Product) => p.category == c.name);
  }

  /** One entry of `GET /stats/summary`. */
  datatype CategoryStat = CategoryStat(
    category: string,
    totalProducts: nat,
    activeProducts: nat,
    lowStockProducts: nat,
    outOfStockProducts: nat,
    subCategories: nat)

  predicate ActiveIn(c: Category, p: Product) {
    p.category == c.name && p.status == Active
  }

  /** `$expr: { $lt: ['$stock.quantity', '$stock.minStock'] }` on active products. */
  predicate LowIn(c: Category, p: Product) {
    ActiveIn(c, p) && p.stock.quantity < p.stock.minStock
  }

  /** `'stock.quantity': 0` on active products. */
  predicate OutIn(c: Category, p: Product) {
    ActiveIn(c, p) && p.stock.quantity == 0
  }

  function StatOf(c: Category, ps: seq<Product>): CategoryStat {
    CategoryStat(
      c.name,
      ProductCount(c, ps),
      CountWhere(ps, p => ActiveIn(c, p)),
      CountWhere(ps, p => LowIn(c, p)),
      CountWhere(ps, p => OutIn(c, p)),
      |c.subCategories|)
  }

  /** `GET /stats/summary`: one record per active category. */
  function Stats(cs: seq<Category>, ps: seq<Product>): seq<CategoryStat> {
    var active := ActiveCategories(cs);
    seq(|active|, i requires 0 <= i < |active| => StatOf(active[i], ps))
  }

  /** The counts nest: low and out are among the active products, which are among all the category's products. */
  lemma StatBounds(c: Category, ps: seq<Product>)
    ensures var s := StatOf(c, ps);
      && s.category == c.name
      && s.subCategories == |c.subCategories|
      && s.totalProducts == ProductCount(c, ps)
      && s.totalProducts <= |ps|
      && s.activeProducts <= s.totalProducts
      && s.lowStockProducts <= s.activeProducts
      && s.outOfStockProducts <= s.activeProducts
  {
    CountWhereBound(ps, (p: Product) => p.category == c.name);
    CountWhereMono(ps, p => ActiveIn(c, p), (p: Product) => p.category == c.name);
    CountWhereMono(ps, p => LowIn(c, p), p => ActiveIn(c, p));
    CountWhereMono(ps, p => OutIn(c, p), p => ActiveIn(c, p));
  }

  /** Every record of the summary is the stats of an active category, and every active category has a record. */
  lemma StatsOnePerActive(cs: seq<Category>, ps: seq<Product>)
    ensures |Stats(cs, ps)| == |ActiveCategories(cs)|
    ensures forall i :: 0 <= i < |Stats(cs, ps)| ==>
      exists c :: c in cs && c.isActive && Stats(cs, ps)[i] == StatOf(c, ps)
    ensures forall c :: c in cs && c.isActive ==> StatOf(c, ps) in Stats(cs, ps)
  {
    var active := ActiveCategories(cs);
    ActiveCategoriesSelect(cs);
    forall i | 0 <= i < |Stats(cs, ps)|
      ensures exists c :: c in cs && c.isActive && Stats(cs, ps)[i] == StatOf(c, ps)
    {
      assert active[i] in active;
    }
    forall c | c in cs && c.isActive ensures StatOf(c, ps) in Stats(cs, ps) {
      var i :| 0 <= i < |active| && active[i] == c;
      assert Stats(cs, ps)[i] == StatOf(c, ps);
    }
  }

  /** An active product with no stock and a positive minimum is counted as both low and out of stock. */
  lemma ZeroStockCountedTwice(c: Category, p: Product)
    requires p.category == c.name && p.status == Active
    requires p.stock.quantity == 0 < p.stock.minStock
    ensures var s := StatOf(c, [p]);
      s.activeProducts == 1 && s.lowStockProducts == 1 && s.outOfStockProducts == 1
      && s.lowStockProducts + s.outOfStockProducts > s.activeProducts
  {
    CountWhereSingle(p, q => ActiveIn(c, q));
    CountWhereSingle(p, q => LowIn(c, q));
    CountWhereSingle(p, q => OutIn(c, q));
  }

  /** A product in the Valves category with the given quantity, a minimum of 10 and the given status. */
  function ValvesProduct(id: string, quantity: int, status: ProductStatus): Product {
    Product(id, "Valve " + id, "VLV-" + id, "Valves", "Ball", "",
      Specifications(None, None, None, None, None, None),
      Stock(quantity, 10, "pcs"),
      Pricing(None, None, "INR"),
      Supplier(None, None),
      [], [], status)
  }

  /**
   * Three Valves products: active with quantity 0, active with 5, and
   * discontinued with 20, all with minimum 10. The strict `<` counts both
   * active products as low, including the one that is out of stock.
   */
  lemma ValvesSummary(c: Category)
    requires c.name == "Valves"
    ensures var ps := [ValvesProduct("1", 0, Active), ValvesProduct("2", 5, Active), ValvesProduct("3", 20, Discontinued)];
      var s := StatOf(c, ps);
      s.totalProducts == 3 && s.activeProducts == 2 && s.lowStockProducts == 2 && s.outOfStockProducts == 1
  {
    var ps := [ValvesProduct("1", 0, Active), ValvesProduct("2", 5, Active), ValvesProduct("3", 20, Discontinued)];
    assert ps[1..] == [ps[1], ps[2]];
    assert ps[1..][1..] == [ps[2]];
    assert ps[1..][1..][1..] == [];
  }
}
