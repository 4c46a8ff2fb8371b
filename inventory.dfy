/**
 * The inventory form: a photo selection of at most five files and six text
 * fields. Submitting needs at least one photo; a successful submission
 * records the form and then clears every field. Enter in a text field
 * submits.
 */
module Inventory {
  import opened Wrappers

  /** A selected photo; only its name is ever shown. */
  datatype PhotoFile = PhotoFile(name: string)

  /** The largest photo selection the form accepts. */
  const MaxPhotos: nat := 5

  /** The six text inputs of the form. */
  datatype Field = ItemType | BrandName | Capacity | Color | SpecialFeatures | Price

  /** A snapshot of the form's state: the photos and the six text values. */
  datatype Form = Form(
    files: seq<PhotoFile>,
    itemType: string,
    brandName: string,
    capacity: string,
    color: string,
    specialFeatures: string,
    price: string)
  {
    /** The current text of one input. */
    function Get(field: Field): string {
      match field
      case ItemType => itemType
      case BrandName => brandName
      case Capacity => capacity
      case Color => color
      case SpecialFeatures => specialFeatures
      case Price => price
    }

    /** The form after an input's `onChange` stored `v`. */
    function With(field: Field, v: string): (r: Form)
      ensures r.files == files
      ensures r.Get(field) == v
      ensures forall other: Field :: other != field ==> r.Get(other) == Get(other)
    {
      match field
      case ItemType => this.(itemType := v)
      case BrandName => this.(brandName := v)
      case Capacity => this.(capacity := v)
      case Color => this.(color := v)
      case SpecialFeatures => this.(specialFeatures := v)
      case Price => this.(price := v)
    }
  }

  /** The state when the form first shows, and after every successful submission. */
  const EmptyForm: Form := Form([], "", "", "", "", "", "")

  /** A form whose photo selection is within the limit. */
  predicate WithinLimit(f: Form) {
    |f.files| <= MaxPhotos
  }

  /**
   * `handleFileChange`: a selection of more than five files is refused and
   * leaves the form as it was; any other selection, the empty one included,
   * replaces the photos and touches nothing else.
   */
  function SelectFiles(f: Form, selected: seq<PhotoFile>): (r: Form)
    ensures WithinLimit(r) <==> WithinLimit(f) || |selected| <= MaxPhotos
    ensures |selected| > MaxPhotos ==> r == f
    ensures |selected| <= MaxPhotos ==> r.files == selected
    ensures forall field: Field :: r.Get(field) == f.Get(field)
  {
    if |selected| > MaxPhotos then f else f.(files := selected)
  }

  /**
   * `handleUpdate`: the new form and the record it logs. With no photo
   * nothing is logged and nothing changes; otherwise the whole form is
   * logged and every field is cleared.
   */
  function Submit(f: Form): (r: (Form, Option<Form>))
    ensures r.1.None? <==> |f.files| == 0
    ensures r.1.None? ==> r.0 == f
    ensures r.1.Some? ==> r.1.value == f
    ensures r.1.Some? ==> r.0.files == [] && forall field: Field :: r.0.Get(field) == ""
  {
    if |f.files| == 0 then (f, None) else (EmptyForm, Some(f))
  }

  /** `handleKeyDown`: Enter submits; any other key leaves the form and the log alone. */
  function KeyDown(f: Form, key: string): (r: (Form, Option<Form>))
    ensures key == "Enter" ==> r == Submit(f)
    ensures key != "Enter" ==> r == (f, None)
  {
    if key == "Enter" then Submit(f) else (f, None)
  }

  /** A second submission straight after the first logs nothing and changes nothing. */
  lemma SubmitTwice(f: Form)
    ensures Submit(Submit(f).0) == (Submit(f).0, None)
    ensures |f.files| > 0 ==> Submit(Submit(f).0) == (EmptyForm, None)
  {
  }

  /** No transition takes the form past the photo limit. */
  lemma TransitionsKeepLimit(f: Form, selected: seq<PhotoFile>, key: string, field: Field, v: string)
    requires WithinLimit(f)
    ensures WithinLimit(SelectFiles(f, selected))
    ensures WithinLimit(Submit(f).0) && WithinLimit(KeyDown(f, key).0)
    ensures WithinLimit(f.With(field, v))
  {
  }

  /** A selection of one to five photos, then a submission, logs the filled-in form with that selection. */
  lemma SelectThenSubmit(f: Form, selected: seq<PhotoFile>)
    requires 0 < |selected| <= MaxPhotos
    ensures Submit(SelectFiles(f, selected)) == (EmptyForm, Some(f.(files := selected)))
  {
  }

  /** The form component: seven state fields, each replaced by its setter. */
  class InventoryManagement {
    var files: seq<PhotoFile>
    var itemType: string
    var brandName: string
    var capacity: string
    var color: string
    var specialFeatures: string
    var price: string

    ghost predicate Valid()
      reads this
    {
      WithinLimit(Snapshot())
    }

    /** The state fields as one value. */
    function Snapshot(): Form
      reads this
    {
      Form(files, itemType, brandName, capacity, color, specialFeatures, price)
    }

    constructor ()
      ensures Valid() && Snapshot() == EmptyForm
    {
      files := [];
      itemType := "";
      brandName := "";
      capacity := "";
      color := "";
      specialFeatures := "";
      price := "";
    }

    /** An input's `onChange`: one text field takes the typed value. */
    method SetField(field: Field, v: string)
      requires Valid()
      modifies this
      ensures Valid()
      ensures Snapshot() == old(Snapshot()).With(field, v)
    {
      match field
      case ItemType => itemType := v;
      case BrandName => brandName := v;
      case Capacity => capacity := v;
      case Color => color := v;
      case SpecialFeatures => specialFeatures := v;
      case Price => price := v;
    }

    /** `handleFileChange`; `rejected` is the alert about the five-photo limit. */
    method HandleFileChange(selected: seq<PhotoFile>) returns (rejected: bool)
      requires Valid()
      modifies this
      ensures Valid()
      ensures rejected <==> |selected| > MaxPhotos
      ensures Snapshot() == SelectFiles(old(Snapshot()), selected)
    {
      if |selected| > MaxPhotos {
        rejected := true;
        return;
      }
      files := selected;
      rejected := false;
    }

    /** `handleUpdate`; `logged` is the record written to the console, `None` when the alert is raised instead. */
    method HandleUpdate() returns (logged: Option<Form>)
      requires Valid()
      modifies this
      ensures Valid()
      ensures (Snapshot(), logged) == Submit(old(Snapshot()))
    {
      if |files| == 0 {
        logged := None;
        return;
      }
      logged := Some(Form(files, itemType, brandName, capacity, color, specialFeatures, price));
      itemType := "";
      brandName := "";
      capacity := "";
      color := "";
      specialFeatures := "";
      price := "";
      files := [];
    }

    /** `handleKeyDown`: Enter runs `handleUpdate`, every other key does nothing. */
    method HandleKeyDown(key: string) returns (logged: Option<Form>)
      requires Valid()
      modifies this
      ensures Valid()
      ensures (Snapshot(), logged) == KeyDown(old(Snapshot()), key)
    {
      if key == "Enter" {
        logged := HandleUpdate();
      } else {
        logged := None;
      }
    }
  }

  /**
   * A session on the form: an over-long selection is refused, two photos are
   * chosen, a field is filled in, Tab does nothing, and Enter logs the form
   * with those two photos and clears it.
   */
  method Session(photos: seq<PhotoFile>, itemType: string) returns (tooMany: bool, logged: Option<Form>, after: Form)
    requires |photos| == 6
    ensures tooMany
    ensures logged == Some(EmptyForm.(files := photos[..2]).(itemType := itemType))
    ensures after == EmptyForm
  {
    var form := new InventoryManagement();
    tooMany := form.HandleFileChange(photos);
    var ignored := form.HandleFileChange(photos[..2]);
    form.SetField(ItemType, itemType);
    logged := form.HandleKeyDown("Tab");
    logged := form.HandleKeyDown("Enter");
    after := form.Snapshot();
  }
}
