/**
 * The edit-subcategory dialog: loading the chosen subcategory into the
 * form, the size, material and pressure-rating chip lists, the Enter key,
 * the submit gate, the request target and the reset on close. Lists loaded
 * from the server are taken as they are; only new additions are checked.
 */
module EditSubcategoryDialog {
  import opened Wrappers
  import opened JsText
  import opened CategoryModel
  import opened Sequences
  import opened TagList
  import opened AddSubcategoryDialog

  /** Which chip list an add or remove works on. */
  datatype ListKind = Sizes | Materials | Pressures

  function ListOf(specs: SubSpecs, kind: ListKind): seq<string> {
    match kind
    case Sizes => specs.commonSizes
    case Materials => specs.commonMaterials
    case Pressures => specs.pressureRatings
  }

  function WithList(specs: SubSpecs, kind: ListKind, list: seq<string>): (r: SubSpecs)
    ensures ListOf(r, kind) == list
    ensures forall other :: other != kind ==> ListOf(r, other) == ListOf(specs, other)
    ensures r.temperatureRange == specs.temperatureRange
  {
    match kind
    case Sizes => specs.(commonSizes := list)
    case Materials => specs.(commonMaterials := list)
    case Pressures => specs.(pressureRatings := list)
  }

  /** The form's specifications for a loaded subcategory: the lists as stored and '' for a missing range. */
  function LoadedSpecs(sub: Subcategory): SubSpecs {
    sub.specifications.(temperatureRange := Some(sub.specifications.temperatureRange.GetOr("")))
  }

  class Dialog {
    var subId: SubcategoryId
    var name: string
    var description: string
    var categoryId: string
    var specifications: SubSpecs
    var sizeInput: string
    var materialInput: string
    var pressureInput: string
    var error: string
    var loading: bool

    /** The form's empty state, which `handleClose` restores. */
    predicate IsReset()
      reads this
    {
      && name == "" && description == "" && categoryId == ""
      && specifications == EmptySpecs
      && sizeInput == "" && materialInput == "" && pressureInput == "" && error == ""
    }

    predicate SubmitEnabled()
      reads this
    {
      SubmitGate(loading, name, description, categoryId)
    }

    function InputOf(kind: ListKind): string
      reads this
    {
      match kind
      case Sizes => sizeInput
      case Materials => materialInput
      case Pressures => pressureInput
    }

    constructor ()
      ensures IsReset() && !loading && subId == ""
    {
      subId := "";
      name, description, categoryId := "", "", "";
      specifications := EmptySpecs;
      sizeInput, materialInput, pressureInput, error := "", "", "", "";
      loading := false;
    }

    /**
     * The effect on the `subcategory` prop: the fields are copied, a missing
     * description or range becomes '', and the category is the one the
     * subcategory was opened from.
     */
    method Load(sub: Subcategory, parentCategoryId: CategoryId)
      modifies this
      ensures subId == sub.id && name == sub.name && categoryId == parentCategoryId
      ensures description == (if sub.description.Some? then sub.description.value else "")
      ensures specifications == LoadedSpecs(sub)
      ensures forall kind :: ListOf(specifications, kind) == ListOf(sub.specifications, kind)
      ensures sizeInput == old(sizeInput) && materialInput == old(materialInput) && pressureInput == old(pressureInput)
      ensures error == old(error) && loading == old(loading)
    {
      subId := sub.id;
      name := sub.name;
      description := sub.description.GetOr("");
      categoryId := parentCategoryId;
      specifications := LoadedSpecs(sub);
    }

    /** `handleChange` for the name, description, category select and range. */
    method Change(input: TextInput, value: string)
      modifies this
      ensures input == NameInput ==> name == value && description == old(description) && categoryId == old(categoryId) && specifications == old(specifications)
      ensures input == DescriptionInput ==> description == value && name == old(name) && categoryId == old(categoryId) && specifications == old(specifications)
      ensures input == CategoryIdInput ==> categoryId == value && name == old(name) && description == old(description) && specifications == old(specifications)
      ensures input == TemperatureInput ==>
        specifications == old(specifications).(temperatureRange := Some(value))
        && name == old(name) && description == old(description) && categoryId == old(categoryId)
      ensures subId == old(subId) && error == old(error) && loading == old(loading)
      ensures sizeInput == old(sizeInput) && materialInput == old(materialInput) && pressureInput == old(pressureInput)
    {
      match input
      case NameInput => name := value;
      case DescriptionInput => description := value;
      case CategoryIdInput => categoryId := value;
      case TemperatureInput => specifications := specifications.(temperatureRange := Some(value));
    }

    /** Typing into one of the three chip inputs. */
    method SetInput(kind: ListKind, value: string)
      modifies this
      ensures InputOf(kind) == value
      ensures forall other :: other != kind ==> InputOf(other) == old(InputOf(other))
      ensures subId == old(subId) && name == old(name) && description == old(description) && categoryId == old(categoryId)
      ensures specifications == old(specifications) && error == old(error) && loading == old(loading)
    {
      match kind
      case Sizes => sizeInput := value;
      case Materials => materialInput := value;
      case Pressures => pressureInput := value;
    }

    /** `handleAddSize`, `handleAddMaterial` and `handleAddPressure`. */
    method Add(kind: ListKind)
      modifies this
      ensures var r := AddTag(ListOf(old(specifications), kind), old(InputOf(kind)));
        && specifications == WithList(old(specifications), kind, r.list)
        && InputOf(kind) == r.input
      ensures forall other :: other != kind ==> InputOf(other) == old(InputOf(other))
      ensures subId == old(subId) && name == old(name) && description == old(description) && categoryId == old(categoryId)
      ensures error == old(error) && loading == old(loading)
    {
      var r := AddTag(ListOf(specifications, kind), InputOf(kind));
      specifications := WithList(specifications, kind, r.list);
      match kind
      case Sizes => sizeInput := r.input;
      case Materials => materialInput := r.input;
      case Pressures => pressureInput := r.input;
    }

    /** `handleRemoveSize`, `handleRemoveMaterial` and `handleRemovePressure`. */
    method Remove(kind: ListKind, tag: string)
      modifies this
      ensures specifications == WithList(old(specifications), kind, RemoveTag(ListOf(old(specifications), kind), tag))
      ensures sizeInput == old(sizeInput) && materialInput == old(materialInput) && pressureInput == old(pressureInput)
      ensures subId == old(subId) && name == old(name) && description == old(description) && categoryId == old(categoryId)
      ensures error == old(error) && loading == old(loading)
    {
      specifications := WithList(specifications, kind, RemoveTag(ListOf(specifications, kind), tag));
    }

    /** `handleKeyPress`: Enter adds to the size, material or pressure list; anything else does nothing. */
    method KeyPress(key: string, kind: string)
      modifies this
      ensures key == "Enter" && kind == "size" ==>
        specifications == WithList(old(specifications), Sizes, AddTag(old(specifications.commonSizes), old(sizeInput)).list)
      ensures key == "Enter" && kind == "material" ==>
        specifications == WithList(old(specifications), Materials, AddTag(old(specifications.commonMaterials), old(materialInput)).list)
      ensures key == "Enter" && kind == "pressure" ==>
        specifications == WithList(old(specifications), Pressures, AddTag(old(specifications.pressureRatings), old(pressureInput)).list)
      ensures !(key == "Enter" && (kind == "size" || kind == "material" || kind == "pressure")) ==>
        && specifications == old(specifications)
        && sizeInput == old(sizeInput) && materialInput == old(materialInput) && pressureInput == old(pressureInput)
      ensures subId == old(subId) && name == old(name) && description == old(description) && categoryId == old(categoryId)
      ensures error == old(error) && loading == old(loading)
    {
      if key == "Enter" {
        if kind == "size" {
          Add(Sizes);
        } else if kind == "material" {
          Add(Materials);
        } else if kind == "pressure" {
          Add(Pressures);
        }
      }
    }

    /**
     * `handleSubmit` up to the request: it targets the category currently in
     * the form (which the select may have changed) and the id of the
     * subcategory that was loaded.
     */
    method Submit() returns (categoryTarget: CategoryId, subTarget: SubcategoryId, body: SubcategoryBody)
      requires SubmitEnabled()
      modifies this
      ensures loading && error == ""
      ensures categoryTarget == old(categoryId) && subTarget == old(subId)
      ensures body == SubcategoryBody(old(name), old(description), old(specifications))
      ensures subId == old(subId) && name == old(name) && description == old(description) && categoryId == old(categoryId)
      ensures specifications == old(specifications)
      ensures sizeInput == old(sizeInput) && materialInput == old(materialInput) && pressureInput == old(pressureInput)
    {
      loading := true;
      error := "";
      categoryTarget := categoryId;
      subTarget := subId;
      body := SubcategoryBody(name, description, specifications);
    }

    /** `handleClose`: the form and the three inputs back to empty, and the error cleared. */
    method Close()
      modifies this
      ensures IsReset()
      ensures subId == old(subId) && loading == old(loading)
    {
      name, description, categoryId := "", "", "";
      specifications := EmptySpecs;
      sizeInput, materialInput, pressureInput, error := "", "", "", "";
    }

    /**
     * The request came back: on success the dialog closes; on failure it
     * shows the server's message, or the fixed fallback when there is none;
     * `finally` clears loading.
     */
    method Settled(ok: bool, message: Option<string>)
      modifies this
      ensures !loading && subId == old(subId)
      ensures ok ==> IsReset()
      ensures !ok ==>
        && error == MessageOr(message, "Failed to update subcategory") && error != ""
        && name == old(name) && description == old(description)
        && categoryId == old(categoryId) && specifications == old(specifications)
        && sizeInput == old(sizeInput) && materialInput == old(materialInput) && pressureInput == old(pressureInput)
    {
      if ok {
        Close();
      } else {
        error := MessageOr(message, "Failed to update subcategory");
      }
      loading := false;
    }
  }

  /** An add to one list never touches the other two lists. */
  lemma AddTouchesOneList(specs: SubSpecs, kind: ListKind, input: string, other: ListKind)
    requires other != kind
    ensures ListOf(WithList(specs, kind, AddTag(ListOf(specs, kind), input).list), other) == ListOf(specs, other)
  {
  }

  /** A loaded list with a duplicate keeps it through any add: only the new entry is checked. */
  lemma LoadedDuplicatesSurvive(sub: Subcategory, kind: ListKind, input: string, i: nat, j: nat)
    requires i < j < |ListOf(sub.specifications, kind)|
    requires ListOf(sub.specifications, kind)[i] == ListOf(sub.specifications, kind)[j]
    ensures var after := AddTag(ListOf(LoadedSpecs(sub), kind), input).list;
      j < |after| && after[i] == after[j] && !NoDuplicates(after)
  {
    assert ListOf(LoadedSpecs(sub), kind) == ListOf(sub.specifications, kind) by {
      match kind
      case Sizes =>
      case Materials =>
      case Pressures =>
    }
    AddTagKeepsDuplicates(ListOf(LoadedSpecs(sub), kind), input, i, j);
  }
}
