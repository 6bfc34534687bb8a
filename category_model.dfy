/**
 * The Category schema with its embedded subcategories: required, unique and
 * trimmed name, required description, default image and active flag, the
 * required creator, and the `productCount` virtual that joins products on
 * the category's name. Also the operations on the embedded list that the
 * subcategory routes perform.
 */
module CategoryModel {
  import opened Wrappers
  import opened JsText
  import opened ProductModel
  import opened Sequences

  type CategoryId = string
  type SubcategoryId = string
  type UserId = string

  /** `specifications` of a subcategory; the array paths default to []. */
  datatype SubSpecs = SubSpecs(
    commonSizes: seq<string>,
    commonMaterials: seq<string>,
    pressureRatings: seq<string>,
    temperatureRange: Option<string>)

  datatype Subcategory = Subcategory(
    id: SubcategoryId,
    name: string,
    description: Option<string>,
    specifications: SubSpecs)

  /** A stored, validated category document. */
  datatype Category = Category(
    id: CategoryId,
    name: string,
    description: string,
    subCategories: seq<Subcategory>,
    image: string,
    isActive: bool,
    createdBy: UserId)

  /** A subcategory as sent; `id` is the `_id` Mongoose assigns when it casts the entry. */
  datatype SubcategoryInput = SubcategoryInput(
    id: SubcategoryId,
    name: Option<string>,
    description: Option<string>,
    specifications: SubSpecs)

  datatype CategoryInput = CategoryInput(
    name: Option<string>,
    description: Option<string>,
    subCategories: seq<SubcategoryInput>,
    image: Option<string>,
    isActive: Option<bool>,
    createdBy: Option<UserId>)

  /** The fields an update (`Object.assign` or `findByIdAndUpdate`) may carry for a subcategory. */
  datatype SubcategoryPatch = SubcategoryPatch(
    name: Option<string>,
    description: Option<string>,
    specifications: Option<SubSpecs>)

  /** The schema fields an update may carry for a category; the route passes the body as it came, `createdBy` included. */
  datatype CategoryPatch = CategoryPatch(
    name: Option<string>,
    description: Option<string>,
    subCategories: Option<seq<SubcategoryInput>>,
    image: Option<string>,
    isActive: Option<bool>,
    createdBy: Option<UserId>)

  /** A subcategory entry: the trimmed name is required. */
  function ValidateSubcategory(input: SubcategoryInput): Result<Subcategory, string> {
    if Present(TrimmedField(input.name)) then
      Ok(Subcategory(input.id, Trim(input.name.value), input.description, input.specifications))
    else Err("name")
  }

  /** Validates the entries from position `from` on; returns the stored list or the failing paths. */
  function ValidateSubcategories(subs: seq<SubcategoryInput>, from: nat): Result<seq<Subcategory>, seq<string>>
    decreases |subs|
  {
    if subs == [] then Ok([])
    else
      var head := ValidateSubcategory(subs[0]);
      var tail := ValidateSubcategories(subs[1..], from + 1);
      var here := if head.Err? then ["subCategories." + NatToString(from) + ".name"] else [];
      match tail
      case Ok(rest) => if head.Ok? then Ok([head.value] + rest) else Err(here)
      case Err(paths) => Err(here + paths)
  }

  /** The entry list is accepted iff every entry has a non-blank name, and each entry keeps its id and trimmed name. */
  lemma {:induction false} ValidateSubcategoriesIff(subs: seq<SubcategoryInput>, from: nat)
    ensures ValidateSubcategories(subs, from).Ok? <==> forall i :: 0 <= i < |subs| ==> Present(TrimmedField(subs[i].name))
    ensures ValidateSubcategories(subs, from).Ok? ==>
      var out := ValidateSubcategories(subs, from).value;
      |out| == |subs| && forall i :: 0 <= i < |subs| ==> out[i].id == subs[i].id && out[i].name == Trim(subs[i].name.value)
    decreases |subs|
  {
    if subs != [] {
      ValidateSubcategoriesIff(subs[1..], from + 1);
      assert forall i :: 1 <= i < |subs| ==> subs[i] == subs[1..][i - 1];
    }
  }

  function FailedCategoryPaths(input: CategoryInput): seq<string> {
    Failing(Present(TrimmedField(input.name)), "name")
    + Failing(Present(input.description), "description")
    + (match ValidateSubcategories(input.subCategories, 0) case Ok(_) => [] case Err(p) => p)
    + Failing(input.createdBy.Some?, "createdBy")
  }

  /** Casting and validating a category body into a document with id `id`. */
  function ValidateCategory(id: CategoryId, input: CategoryInput): Result<Category, seq<string>> {
    match ValidateSubcategories(input.subCategories, 0)
    case Err(_) => Err(FailedCategoryPaths(input))
    case Ok(subs) =>
      if FailedCategoryPaths(input) != [] then Err(FailedCategoryPaths(input))
      else
        Ok(Category(
          id,
          Trim(input.name.value),
          input.description.value,
          subs,
          input.image.GetOr(""),
          input.isActive.GetOr(true),
          input.createdBy.value))
  }

  /** A category body is accepted iff name (trimmed), description and creator are present and every entry is named. */
  lemma ValidateCategoryIff(id: CategoryId, input: CategoryInput)
    ensures ValidateCategory(id, input).Ok? <==>
      && Present(TrimmedField(input.name))
      && Present(input.description)
      && (forall i :: 0 <= i < |input.subCategories| ==> Present(TrimmedField(input.subCategories[i].name)))
      && input.createdBy.Some?
  {
    ValidateSubcategoriesIff(input.subCategories, 0);
    var r := ValidateSubcategories(input.subCategories, 0);
    if r.Err? {
      assert r.error != [] by { ValidateSubcategoriesNonEmpty(input.subCategories, 0); }
    }
  }

  lemma {:induction false} ValidateSubcategoriesNonEmpty(subs: seq<SubcategoryInput>, from: nat)
    ensures ValidateSubcategories(subs, from).Err? ==> ValidateSubcategories(subs, from).error != []
    decreases |subs|
  {
    if subs != [] {
      ValidateSubcategoriesNonEmpty(subs[1..], from + 1);
    }
  }

  /** Defaults: image "" and isActive true; the name is stored trimmed. */
  lemma ValidateCategoryDefaults(id: CategoryId, input: CategoryInput)
    requires ValidateCategory(id, input).Ok?
    ensures var c := ValidateCategory(id, input).value;
      && c.id == id
      && c.name == Trim(input.name.value)
      && IsTrimmed(c.name) && c.name != ""
      && c.description == input.description.value
      && c.image == (if input.image.Some? then input.image.value else "")
      && c.isActive == (if input.isActive.Some? then input.isActive.value else true)
      && c.createdBy == input.createdBy.value
      && |c.subCategories| == |input.subCategories|
  {
    var c := ValidateCategory(id, input).value;
    assert c.name == Trim(input.name.value);
    TrimShape(input.name.value);
    ValidateSubcategoriesIff(input.subCategories, 0);
    assert c.subCategories == ValidateSubcategories(input.subCategories, 0).value;
  }

  /** The unique index on `name`. */
  predicate UniqueNames(cs: seq<Category>) {
    forall i, j :: 0 <= i < j < |cs| ==> cs[i].name != cs[j].name
  }

  predicate UniqueCategoryIds(cs: seq<Category>) {
    forall i, j :: 0 <= i < j < |cs| ==> cs[i].id != cs[j].id
  }

  /** Some category other than the one at `except` already uses `name`. */
  predicate NameTakenBy(cs: seq<Category>, name: string, except: int) {
    exists i :: 0 <= i < |cs| && i != except && cs[i].name == name
  }

  /** Position of the category with id `id`, or |cs| (`findById`). */
  function IndexOfCategory(cs: seq<Category>, id: CategoryId): (k: nat)
    ensures k <= |cs|
    ensures k < |cs| ==> cs[k].id == id
    ensures forall i :: 0 <= i < k ==> cs[i].id != id
  {
    FirstIndex(cs, (c: Category) => c.id == id)
  }

  /** The `productCount` virtual: products whose `category` string equals the name, of every status. */
  function ProductCount(c: Category, ps: seq<Product>): nat {
    CountWhere(ps, (p: Product) => p.category == c.name)
  }

  /** Renaming a category orphans its products: none of them is counted under the new name unless it already used that name. */
  lemma RenameOrphans(c: Category, ps: seq<Product>, newName: string)
    requires newName != c.name
    requires forall i :: 0 <= i < |ps| ==> ps[i].category == c.name
    ensures ProductCount(c.(name := newName), ps) == 0
  {
    CountWherePositive(ps, (p: Product) => p.category == newName);
  }

  // ---- Subcategory list edits of the subcategory routes ----

  /** Position of the first entry with id `id`, or |subs| (`subCategories.id(subId)`). */
  function IndexOfSub(subs: seq<Subcategory>, id: SubcategoryId): (k: nat)
    ensures k <= |subs|
    ensures k < |subs| ==> subs[k].id == id
    ensures forall i :: 0 <= i < k ==> subs[i].id != id
  {
    FirstIndex(subs, (s: Subcategory) => s.id == id)
  }

  /** `Object.assign(subCategory, body)` followed by validation of the entry on save. */
  function MergeSubcategory(s: Subcategory, patch: SubcategoryPatch): Result<Subcategory, string> {
    var name := if patch.name.Some? then Trim(patch.name.value) else s.name;
    if name == "" then Err("name")
    else
      Ok(s.(name := name,
            description := if patch.description.Some? then patch.description else s.description,
            specifications := if patch.specifications.Some? then patch.specifications.value else s.specifications))
  }

  /** A merge keeps the id, overwrites exactly the fields the patch carries, and fails only on a blank name. */
  lemma MergeSubcategoryFields(s: Subcategory, patch: SubcategoryPatch)
    requires s.name != ""
    ensures MergeSubcategory(s, patch).Err? <==> patch.name.Some? && Trim(patch.name.value) == ""
    ensures MergeSubcategory(s, patch).Ok? ==>
      var m := MergeSubcategory(s, patch).value;
      && m.id == s.id
      && m.name == (if patch.name.Some? then Trim(patch.name.value) else s.name)
      && m.description == (if patch.description.Some? then patch.description else s.description)
      && m.specifications == (if patch.specifications.Some? then patch.specifications.value else s.specifications)
  {
  }

  /** `subCategories.pull({ _id: id })`: every entry with that id is dropped. */
  function PullSubcategory(subs: seq<Subcategory>, id: SubcategoryId): seq<Subcategory> {
    if subs == [] then []
    else (if subs[0].id == id then [] else [subs[0]]) + PullSubcategory(subs[1..], id)
  }

  /** After a pull no entry has the id, and an entry survives iff it is an original entry with another id. */
  lemma {:induction false} PullSubcategoryContents(subs: seq<Subcategory>, id: SubcategoryId)
    ensures forall s :: s in PullSubcategory(subs, id) <==> s in subs && s.id != id
  {
    if subs != [] {
      PullSubcategoryContents(subs[1..], id);
      assert subs == [subs[0]] + subs[1..];
    }
  }

  /** A pull of an id that is absent changes nothing. */
  lemma {:induction false} PullAbsent(subs: seq<Subcategory>, id: SubcategoryId)
    requires forall i :: 0 <= i < |subs| ==> subs[i].id != id
    ensures PullSubcategory(subs, id) == subs
  {
    if subs != [] {
      assert forall i :: 0 <= i < |subs| - 1 ==> subs[1..][i] == subs[i + 1];
      PullAbsent(subs[1..], id);
    }
  }

  /** Pulling twice is pulling once. */
  lemma PullIdempotent(subs: seq<Subcategory>, id: SubcategoryId)
    ensures PullSubcategory(PullSubcategory(subs, id), id) == PullSubcategory(subs, id)
  {
    var once := PullSubcategory(subs, id);
    PullSubcategoryContents(subs, id);
    assert forall i :: 0 <= i < |once| ==> once[i] in once;
    PullAbsent(once, id);
  }

  /** The entries a pull keeps stay in their original order. */
  lemma {:induction false} PullKeepsOrder(subs: seq<Subcategory>, id: SubcategoryId)
    ensures IsSubsequence(PullSubcategory(subs, id), subs)
  {
    if subs != [] {
      PullKeepsOrder(subs[1..], id);
      var rest := PullSubcategory(subs[1..], id);
      if subs[0].id != id {
        assert PullSubcategory(subs, id) == [subs[0]] + rest;
        assert ([subs[0]] + rest)[1..] == rest;
      } else {
        assert PullSubcategory(subs, id) == rest;
        SubsequenceDropHead(rest, subs);
      }
    }
  }

}
