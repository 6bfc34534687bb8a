/**
 * The add-subcategory dialog: its form fields, the size and pressure-rating
 * chip lists with their inputs, the Enter key, the submit gate, the request
 * it sends and the reset on close. The dialog has no material input.
 */
module AddSubcategoryDialog {
  import opened Wrappers
  import opened JsText
  import opened CategoryModel
  import opened TagList

  /** The body both subcategory dialogs send. */
  datatype SubcategoryBody = SubcategoryBody(name: string, description: string, specifications: SubSpecs)

  /** What the server casts the body of `POST /:id/subcategories` into, given the `_id` it assigns. */
  function AsInput(body: SubcategoryBody, id: SubcategoryId): SubcategoryInput {
    SubcategoryInput(id, Some(body.name), Some(body.description), body.specifications)
  }

  /** What `Object.assign` merges for `PUT /:id/subcategories/:subId`. */
  function AsPatch(body: SubcategoryBody): SubcategoryPatch {
    SubcategoryPatch(Some(body.name), Some(body.description), Some(body.specifications))
  }

  /** `!loading && name.trim() && description.trim() && categoryId`, shared by both dialogs. */
  predicate SubmitGate(loading: bool, name: string, description: string, categoryId: string) {
    !loading && Trim(name) != "" && Trim(description) != "" && categoryId != ""
  }

  /** A body the gate lets through passes the server's name check, and the entry is stored with the trimmed name. */
  lemma GatedBodyIsAccepted(body: SubcategoryBody, id: SubcategoryId, categoryId: string)
    requires SubmitGate(false, body.name, body.description, categoryId)
    ensures ValidateSubcategory(AsInput(body, id)) == Ok(Subcategory(id, Trim(body.name), Some(body.description), body.specifications))
  {
  }

  /** The inputs whose `handleChange` writes a text field of the form. */
  datatype TextInput = NameInput | DescriptionInput | CategoryIdInput | TemperatureInput

  const EmptySpecs := SubSpecs([], [], [], Some(""))

  class Dialog {
    var name: string
    var description: string
    var categoryId: string
    var specifications: SubSpecs
    var sizeInput: string
    var pressureInput: string
    var error: string
    var loading: bool

    /** Starting from empty lists, sizes and pressures stay clean, and no material is ever added. */
    ghost predicate Valid()
      reads this
    {
      && Clean(specifications.commonSizes)
      && Clean(specifications.pressureRatings)
      && specifications.commonMaterials == []
    }

    /** The form's initial state, which `handleClose` also restores. */
    predicate IsReset()
      reads this
    {
      && name == "" && description == "" && categoryId == ""
      && specifications == EmptySpecs
      && sizeInput == "" && pressureInput == "" && error == ""
    }

    predicate SubmitEnabled()
      reads this
    {
      SubmitGate(loading, name, description, categoryId)
    }

    constructor ()
      ensures Valid() && IsReset() && !loading
    {
      name, description, categoryId := "", "", "";
      specifications := EmptySpecs;
      sizeInput, pressureInput, error := "", "", "";
      loading := false;
    }

    /** `handleChange` for `name`, `description`, `categoryId` and `specifications.temperatureRange`. */
    method Change(input: TextInput, value: string)
      modifies this
      ensures input == NameInput ==> name == value && description == old(description) && categoryId == old(categoryId) && specifications == old(specifications)
      ensures input == DescriptionInput ==> description == value && name == old(name) && categoryId == old(categoryId) && specifications == old(specifications)
      ensures input == CategoryIdInput ==> categoryId == value && name == old(name) && description == old(description) && specifications == old(specifications)
      ensures input == TemperatureInput ==>
        specifications == old(specifications).(temperatureRange := Some(value))
        && name == old(name) && description == old(description) && categoryId == old(categoryId)
      ensures sizeInput == old(sizeInput) && pressureInput == old(pressureInput)
      ensures error == old(error) && loading == old(loading)
      ensures old(Valid()) ==> Valid()
    {
      match input
      case NameInput => name := value;
      case DescriptionInput => description := value;
      case CategoryIdInput => categoryId := value;
      case TemperatureInput => specifications := specifications.(temperatureRange := Some(value));
    }

    method SetSizeInput(value: string)
      modifies this
      ensures sizeInput == value
      ensures name == old(name) && description == old(description) && categoryId == old(categoryId)
      ensures specifications == old(specifications) && pressureInput == old(pressureInput)
      ensures error == old(error) && loading == old(loading)
    {
      sizeInput := value;
    }

    method SetPressureInput(value: string)
      modifies this
      ensures pressureInput == value
      ensures name == old(name) && description == old(description) && categoryId == old(categoryId)
      ensures specifications == old(specifications) && sizeInput == old(sizeInput)
      ensures error == old(error) && loading == old(loading)
    {
      pressureInput := value;
    }

    /** `handleAddSize`. */
    method AddSize()
      requires Valid()
      modifies this
      ensures Valid()
      ensures var r := AddTag(old(specifications.commonSizes), old(sizeInput));
        specifications == old(specifications).(commonSizes := r.list) && sizeInput == r.input
      ensures name == old(name) && description == old(description) && categoryId == old(categoryId)
      ensures pressureInput == old(pressureInput) && error == old(error) && loading == old(loading)
    {
      AddTagKeepsClean(specifications.commonSizes, sizeInput);
      var r := AddTag(specifications.commonSizes, sizeInput);
      specifications := specifications.(commonSizes := r.list);
      sizeInput := r.input;
    }

    /** `handleRemoveSize`. */
    method RemoveSize(size: string)
      requires Valid()
      modifies this
      ensures Valid()
      ensures specifications == old(specifications).(commonSizes := RemoveTag(old(specifications.commonSizes), size))
      ensures name == old(name) && description == old(description) && categoryId == old(categoryId)
      ensures sizeInput == old(sizeInput) && pressureInput == old(pressureInput)
      ensures error == old(error) && loading == old(loading)
    {
      RemoveTagKeepsClean(specifications.commonSizes, size);
      specifications := specifications.(commonSizes := RemoveTag(specifications.commonSizes, size));
    }

    /** `handleAddPressure`. */
    method AddPressure()
      requires Valid()
      modifies this
      ensures Valid()
      ensures var r := AddTag(old(specifications.pressureRatings), old(pressureInput));
        specifications == old(specifications).(pressureRatings := r.list) && pressureInput == r.input
      ensures name == old(name) && description == old(description) && categoryId == old(categoryId)
      ensures sizeInput == old(sizeInput) && error == old(error) && loading == old(loading)
    {
      AddTagKeepsClean(specifications.pressureRatings, pressureInput);
      var r := AddTag(specifications.pressureRatings, pressureInput);
      specifications := specifications.(pressureRatings := r.list);
      pressureInput := r.input;
    }

    /** `handleRemovePressure`. */
    method RemovePressure(pressure: string)
      requires Valid()
      modifies this
      ensures Valid()
      ensures specifications == old(specifications).(pressureRatings := RemoveTag(old(specifications.pressureRatings), pressure))
      ensures name == old(name) && description == old(description) && categoryId == old(categoryId)
      ensures sizeInput == old(sizeInput) && pressureInput == old(pressureInput)
      ensures error == old(error) && loading == old(loading)
    {
      RemoveTagKeepsClean(specifications.pressureRatings, pressure);
      specifications := specifications.(pressureRatings := RemoveTag(specifications.pressureRatings, pressure));
    }

    /** `handleKeyPress`: Enter adds for the size and pressure fields; any other key or field does nothing. */
    method KeyPress(key: string, kind: string)
      requires Valid()
      modifies this
      ensures Valid()
      ensures key == "Enter" && kind == "size" ==>
        var r := AddTag(old(specifications.commonSizes), old(sizeInput));
        specifications == old(specifications).(commonSizes := r.list) && sizeInput == r.input && pressureInput == old(pressureInput)
      ensures key == "Enter" && kind == "pressure" ==>
        var r := AddTag(old(specifications.pressureRatings), old(pressureInput));
        specifications == old(specifications).(pressureRatings := r.list) && pressureInput == r.input && sizeInput == old(sizeInput)
      ensures !(key == "Enter" && (kind == "size" || kind == "pressure")) ==>
        specifications == old(specifications) && sizeInput == old(sizeInput) && pressureInput == old(pressureInput)
      ensures name == old(name) && description == old(description) && categoryId == old(categoryId)
      ensures error == old(error) && loading == old(loading)
    {
      if key == "Enter" {
        if kind == "size" {
          AddSize();
        } else if kind == "pressure" {
          AddPressure();
        }
      }
    }

    /** `handleSubmit` up to the request: the target category and the body, sent as typed. */
    method Submit() returns (categoryTarget: CategoryId, body: SubcategoryBody)
      requires Valid() && SubmitEnabled()
      modifies this
      ensures Valid() && loading && error == ""
      ensures categoryTarget == old(categoryId) && categoryTarget != ""
      ensures body == SubcategoryBody(old(name), old(description), old(specifications))
      ensures Trim(body.name) != "" && Trim(body.description) != ""
      ensures name == old(name) && description == old(description) && categoryId == old(categoryId)
      ensures specifications == old(specifications) && sizeInput == old(sizeInput) && pressureInput == old(pressureInput)
    {
      loading := true;
      error := "";
      categoryTarget := categoryId;
      body := SubcategoryBody(name, description, specifications);
    }

    /** `handleClose`: every field and input back to its initial value, and the error cleared. */
    method Close()
      modifies this
      ensures Valid() && IsReset()
      ensures loading == old(loading)
    {
      name, description, categoryId := "", "", "";
      specifications := EmptySpecs;
      sizeInput, pressureInput, error := "", "", "";
    }

    /**
     * The request came back: on success the dialog closes; on failure it
     * shows the server's message, or the fixed fallback when there is none;
     * `finally` clears loading.
     */
    method Settled(ok: bool, message: Option<string>)
      requires Valid()
      modifies this
      ensures Valid() && !loading
      ensures ok ==> IsReset()
      ensures !ok ==>
        && error == MessageOr(message, "Failed to create subcategory") && error != ""
        && name == old(name) && description == old(description)
        && categoryId == old(categoryId) && specifications == old(specifications)
        && sizeInput == old(sizeInput) && pressureInput == old(pressureInput)
    {
      if ok {
        Close();
      } else {
        error := MessageOr(message, "Failed to create subcategory");
      }
      loading := false;
    }
  }
}
