/**
 * The categories page: the search and status filters applied to the fetched
 * list, the lookup of a card's statistics, the shown counts, the delete
 * button's enable rule, the status toggle's request and the subcategory
 * chips on a card.
 */
module CategoriesPage {
  import opened Wrappers
  import opened JsText
  import opened Sequences
  import opened CategoryModel
  import opened CategoryRoutes

  datatype Filters = Filters(search: string, status: string)

  /** The page starts with no search and the status 'active' (its select is not rendered). */
  const InitialFilters := Filters("", "active")

  /** The search test: the lower-cased query occurs in the name, the description or some subcategory name. */
  predicate SearchKeeps(c: Category, search: string) {
    var q := ToLower(search);
    || Includes(ToLower(c.name), q)
    || Includes(ToLower(c.description), q)
    || exists i :: 0 <= i < |c.subCategories| && Includes(ToLower(c.subCategories[i].name), q)
  }

  /** `category.isActive === (status === 'active')`. */
  predicate StatusKeeps(c: Category, status: string) {
    c.isActive == (status == "active")
  }

  /** A category the page shows: each filter applies only when it is non-empty. */
  predicate Visible(c: Category, f: Filters) {
    (f.search != "" ==> SearchKeeps(c, f.search)) && (f.status != "" ==> StatusKeeps(c, f.status))
  }

  function VisibleCategories(fetched: seq<Category>, f: Filters): seq<Category> {
    Keep(fetched, (c: Category) => Visible(c, f))
  }

  /** The page shows exactly the fetched categories that pass both filters, in the fetched order. */
  lemma VisibleSelect(fetched: seq<Category>, f: Filters)
    ensures forall c :: c in VisibleCategories(fetched, f) <==> c in fetched && Visible(c, f)
    ensures IsSubsequence(VisibleCategories(fetched, f), fetched)
  {
    KeepContents(fetched, (c: Category) => Visible(c, f));
    KeepKeepsOrder(fetched, (c: Category) => Visible(c, f));
  }

  /** The search ignores the case of the query. */
  lemma SearchIgnoresQueryCase(c: Category, search: string)
    ensures SearchKeeps(c, search) <==> SearchKeeps(c, ToLower(search))
  {
    ToLowerIdempotent(search);
  }

  /** A category whose name or description contains the query verbatim is kept. */
  lemma VerbatimMatchKept(c: Category, search: string)
    requires Includes(c.name, search) || Includes(c.description, search)
    ensures SearchKeeps(c, search)
  {
    if Includes(c.name, search) {
      IncludesLower(c.name, search);
    } else {
      IncludesLower(c.description, search);
    }
  }

  /** A match on a subcategory's name alone is enough. */
  lemma SubcategoryMatchKept(c: Category, search: string, i: nat)
    requires i < |c.subCategories| && Includes(c.subCategories[i].name, search)
    ensures SearchKeeps(c, search)
  {
    IncludesLower(c.subCategories[i].name, search);
  }

  /** An empty query would keep every category, so skipping the filter for it changes nothing. */
  lemma EmptySearchKeepsAll(c: Category)
    ensures SearchKeeps(c, "")
  {
    IncludesEmpty(ToLower(c.name));
  }

  /** Under the initial filters the page shows only active categories, and all of them. */
  lemma InitialFiltersShowActive(fetched: seq<Category>)
    ensures forall c :: c in VisibleCategories(fetched, InitialFilters) <==> c in fetched && c.isActive
  {
    VisibleSelect(fetched, InitialFilters);
  }

  // ---- getCategoryStats and the card ----

  /** `stats.find(stat => stat.category === name) || {}`; None stands for the empty record. */
  function CategoryStatsFor(stats: seq<CategoryStat>, name: string): (r: Option<CategoryStat>)
    ensures r.Some? ==> r.value in stats && r.value.category == name
    ensures r.None? <==> forall i :: 0 <= i < |stats| ==> stats[i].category != name
  {
    if stats == [] then None
    else if stats[0].category == name then Some(stats[0])
    else
      var r := CategoryStatsFor(stats[1..], name);
      assert forall i :: 1 <= i < |stats| ==> stats[i] == stats[1..][i - 1];
      r
  }

  /** The lookup returns the first record with that name. */
  lemma {:induction false} CategoryStatsForFirst(stats: seq<CategoryStat>, name: string, i: nat)
    requires i < |stats| && stats[i].category == name
    requires forall j :: 0 <= j < i ==> stats[j].category != name
    ensures CategoryStatsFor(stats, name) == Some(stats[i])
  {
    if i > 0 {
      CategoryStatsForFirst(stats[1..], name, i - 1);
    }
  }

  /** The three counts a card shows; `|| 0` turns a missing count into 0. */
  datatype ShownCounts = ShownCounts(products: nat, lowStock: nat, outOfStock: nat)

  function Shown(stat: Option<CategoryStat>): ShownCounts {
    match stat
    case None => ShownCounts(0, 0, 0)
    case Some(s) => ShownCounts(s.activeProducts, s.lowStockProducts, s.outOfStockProducts)
  }

  /** A name without a record shows 0 for each count; a record shows its own counts. */
  lemma ShownCountsDefault(stats: seq<CategoryStat>, name: string)
    ensures (forall i :: 0 <= i < |stats| ==> stats[i].category != name) ==>
      Shown(CategoryStatsFor(stats, name)) == ShownCounts(0, 0, 0)
    ensures CategoryStatsFor(stats, name).Some? ==>
      var s := CategoryStatsFor(stats, name).value;
      Shown(CategoryStatsFor(stats, name)) == ShownCounts(s.activeProducts, s.lowStockProducts, s.outOfStockProducts)
  {
  }

  /** The card's delete button: `disabled={categoryStats.activeProducts > 0}`; a missing record leaves it enabled. */
  predicate DeleteEnabled(stats: seq<CategoryStat>, name: string) {
    Shown(CategoryStatsFor(stats, name)).products == 0
  }

  /** Delete is enabled iff no record exists for the name or the first one counts no active product. */
  lemma DeleteEnabledIff(stats: seq<CategoryStat>, name: string)
    ensures DeleteEnabled(stats, name) <==>
      (forall i :: 0 <= i < |stats| ==> stats[i].category != name)
      || (exists i :: 0 <= i < |stats| && stats[i].category == name && stats[i].activeProducts == 0
            && forall j :: 0 <= j < i ==> stats[j].category != name)
  {
    var r := CategoryStatsFor(stats, name);
    if r.Some? {
      var i :| 0 <= i < |stats| && stats[i] == r.value;
      var k := FirstStat(stats, name);
      CategoryStatsForFirst(stats, name, k);
      if exists i :: 0 <= i < |stats| && stats[i].category == name && stats[i].activeProducts == 0
            && forall j :: 0 <= j < i ==> stats[j].category != name {
        var i :| 0 <= i < |stats| && stats[i].category == name && stats[i].activeProducts == 0
            && forall j :: 0 <= j < i ==> stats[j].category != name;
        CategoryStatsForFirst(stats, name, i);
      }
    }
  }

  /** The position of the first record with that name. */
  function FirstStat(stats: seq<CategoryStat>, name: string): (k: nat)
    requires exists i :: 0 <= i < |stats| && stats[i].category == name
    ensures k < |stats| && stats[k].category == name
    ensures forall j :: 0 <= j < k ==> stats[j].category != name
  {
    if stats[0].category == name then 0
    else
      assert exists i :: 0 <= i < |stats[1..]| && stats[1..][i].category == name by {
        var i :| 0 <= i < |stats| && stats[i].category == name;
        assert stats[1..][i - 1] == stats[i];
      }
      1 + FirstStat(stats[1..], name)
  }

  /** The status chip's click: the category as displayed, with `isActive` negated, sent to `PUT /:id`. */
  function TogglePayload(c: Category): CategoryPatch {
    CategoryPatch(Some(c.name), Some(c.description), Some(AsInputs(c.subCategories)), Some(c.image), Some(!c.isActive), Some(c.createdBy))
  }

  /** Stored subcategories sent back as request entries. */
  function AsInputs(subs: seq<Subcategory>): (r: seq<SubcategoryInput>)
    ensures |r| == |subs|
    ensures forall i :: 0 <= i < |subs| ==> r[i] == SubcategoryInput(subs[i].id, Some(subs[i].name), subs[i].description, subs[i].specifications)
  {
    seq(|subs|, i requires 0 <= i < |subs| => SubcategoryInput(subs[i].id, Some(subs[i].name), subs[i].description, subs[i].specifications))
  }

  /** A stored category document: its name and every subcategory name are trimmed and non-empty, its description non-empty. */
  predicate Stored(c: Category) {
    && c.name != "" && IsTrimmed(c.name) && c.description != ""
    && forall i :: 0 <= i < |c.subCategories| ==> c.subCategories[i].name != "" && IsTrimmed(c.subCategories[i].name)
  }

  /** Stored entries sent back validate to themselves. */
  lemma {:induction false} StoredEntriesRoundTrip(subs: seq<Subcategory>, from: nat)
    requires forall i :: 0 <= i < |subs| ==> subs[i].name != "" && IsTrimmed(subs[i].name)
    ensures ValidateSubcategories(AsInputs(subs), from) == Ok(subs)
    decreases |subs|
  {
    if subs != [] {
      assert AsInputs(subs)[1..] == AsInputs(subs[1..]);
      StoredEntriesRoundTrip(subs[1..], from + 1);
      TrimOfTrimmed(subs[0].name);
      assert ValidateSubcategory(AsInputs(subs)[0]) == Ok(subs[0]);
      assert [subs[0]] + subs[1..] == subs;
    }
  }

  /** The toggle's request passes the update validators, and the update changes only `isActive`. */
  lemma ToggleFlipsOnlyActive(c: Category)
    requires Stored(c)
    ensures ValidatePatch(TogglePayload(c)) == Ok(Some(c.subCategories))
    ensures ApplyPatch(c, TogglePayload(c), Some(c.subCategories)) == c.(isActive := !c.isActive)
  {
    StoredEntriesRoundTrip(c.subCategories, 0);
    TrimOfTrimmed(c.name);
  }

  /** The subcategory chips of a card: the first four, and a "+k more" chip for the rest. */
  datatype ChipRow = ChipRow(chips: seq<Subcategory>, more: Option<string>)

  function Chips(subs: seq<Subcategory>): ChipRow {
    ChipRow(
      if |subs| <= 4 then subs else subs[..4],
      if |subs| > 4 then Some("+" + NatToString(|subs| - 4) + " more") else None)
  }

  /** min(4, n) chips in order, plus the extra chip iff n > 4, which names the number left out. */
  lemma ChipsCover(subs: seq<Subcategory>)
    ensures var row := Chips(subs);
      && |row.chips| == (if |subs| < 4 then |subs| else 4)
      && row.chips == subs[..|row.chips|]
      && (row.more.Some? <==> |subs| > 4)
      && (row.more.Some? ==> row.more.value == "+" + NatToString(|subs| - |row.chips|) + " more")
  {
  }

  // ---- the page state ----

  class Page {
    var categories: seq<Category>
    var stats: seq<CategoryStat>
    var filters: Filters
    var error: string

    constructor ()
      ensures categories == [] && stats == [] && filters == InitialFilters && error == ""
    {
      categories := [];
      stats := [];
      filters := InitialFilters;
      error := "";
    }

    /** `loadCategories` once the response has arrived: the search filter, then the status filter, each re-binding the list. */
    method LoadCategories(fetched: seq<Category>)
      modifies this
      ensures categories == VisibleCategories(fetched, filters)
      ensures filters == old(filters) && stats == old(stats) && error == old(error)
    {
      var f := filters;
      var search := f.search;
      var status := f.status;
      var filtered := fetched;
      if search != "" {
        filtered := Keep(filtered, (c: Category) => SearchKeeps(c, search));
      }
      if status != "" {
        filtered := Keep(filtered, (c: Category) => StatusKeeps(c, status));
      }
      if search != "" && status != "" {
        KeepKeep(fetched, (c: Category) => SearchKeeps(c, search), (c: Category) => StatusKeeps(c, status),
          (c: Category) => Visible(c, f));
      } else if search != "" {
        SameFilter(fetched, (c: Category) => SearchKeeps(c, search), (c: Category) => Visible(c, f));
      } else if status != "" {
        SameFilter(fetched, (c: Category) => StatusKeeps(c, status), (c: Category) => Visible(c, f));
      } else {
        KeepAll(fetched, (c: Category) => Visible(c, f));
      }
      categories := filtered;
    }

    /** `loadStats`: the records as fetched. */
    method LoadStats(fetched: seq<CategoryStat>)
      modifies this
      ensures stats == fetched
      ensures categories == old(categories) && filters == old(filters) && error == old(error)
    {
      stats := fetched;
    }

    /** A failed request for the list sets the page's error and keeps what is shown. */
    method LoadFailed()
      modifies this
      ensures error == "Failed to load categories"
      ensures categories == old(categories) && stats == old(stats) && filters == old(filters)
    {
      error := "Failed to load categories";
    }

    /** `handleFilterChange('search', value)`; the effect reloads afterwards. */
    method ChangeSearch(value: string)
      modifies this
      ensures filters == old(filters).(search := value)
      ensures categories == old(categories) && stats == old(stats) && error == old(error)
    {
      filters := filters.(search := value);
    }
  }

  /** Filters that agree on every element select the same list. */
  lemma {:induction false} SameFilter<T>(xs: seq<T>, f: T -> bool, g: T -> bool)
    requires forall x :: f(x) == g(x)
    ensures Keep(xs, f) == Keep(xs, g)
  {
    if xs != [] {
      SameFilter(xs[1..], f, g);
    }
  }
}
