/** The add/edit product form: the ordered validator, the create-or-update
    dispatch of "save", and the tag-list editor behind the size and color
    fields. Prices and stock are integers, the numeric inputs already
    parsed. */
module ProductForm {
  import opened Common
  import opened Text
  import opened Models

  /** The empty form a new product starts from. */
  const InitialForm: ProductFormData := ProductFormData("", "", 0, "", "", [], [], 0)

  /** The reasons the validator reports, in the order it checks them. */
  datatype FormError = MissingRequired | NonPositivePrice | NegativeStock | NoSizes | NoColors

  predicate RequiredFilled(f: ProductFormData) {
    f.name != "" && f.description != "" && f.category != "" && f.imageUrl != ""
  }

  /** Every check holds. */
  predicate FormValid(f: ProductFormData) {
    RequiredFilled(f) && f.price > 0 && f.stock >= 0 && |f.sizes| > 0 && |f.colors| > 0
  }

  /** `validateForm`: the first failing check, or `None` when all pass. */
  function ValidateForm(f: ProductFormData): (r: Option<FormError>)
    ensures r.None? <==> FormValid(f)
    ensures r == Some(MissingRequired) <==> !RequiredFilled(f)
    ensures r == Some(NonPositivePrice) <==> RequiredFilled(f) && f.price <= 0
    ensures r == Some(NegativeStock) <==> RequiredFilled(f) && f.price > 0 && f.stock < 0
    ensures r == Some(NoSizes) <==> RequiredFilled(f) && f.price > 0 && f.stock >= 0 && f.sizes == []
    ensures r == Some(NoColors) <==>
      RequiredFilled(f) && f.price > 0 && f.stock >= 0 && f.sizes != [] && f.colors == []
  {
    if f.name == "" || f.description == "" || f.category == "" || f.imageUrl == "" then Some(MissingRequired)
    else if f.price <= 0 then Some(NonPositivePrice)
    else if f.stock < 0 then Some(NegativeStock)
    else if |f.sizes| == 0 then Some(NoSizes)
    else if |f.colors| == 0 then Some(NoColors)
    else None
  }

  /** The empty form is rejected for its missing fields first. */
  lemma InitialFormRejected()
    ensures ValidateForm(InitialForm) == Some(MissingRequired)
  {
  }

  /** The product service request "save" sends. */
  datatype ServiceCall = UpdateProduct(productId: string, data: ProductFormData) | CreateProduct(data: ProductFormData)

  /** An id is present when the route carried one that is not empty. */
  predicate HasId(productId: Option<string>) {
    productId.Some? && productId.value != ""
  }

  /** What `handleSubmit` sends: no request for an invalid form, an update
      for an edit, a creation otherwise. */
  function SubmitRequest(productId: Option<string>, f: ProductFormData): (r: Option<ServiceCall>)
    ensures r.None? <==> !FormValid(f)
    ensures r.Some? ==> r.value.data == f
    ensures r.Some? ==> (r.value.UpdateProduct? <==> HasId(productId))
    ensures r.Some? && r.value.UpdateProduct? ==> r.value.productId == productId.value
  {
    if ValidateForm(f).Some? then None
    else if HasId(productId) then Some(UpdateProduct(productId.value, f))
    else Some(CreateProduct(f))
  }

  // ---------------------------------------------------------------------
  // Tag lists.

  /** Not blank, and no white space at either end: what `trim` returns for
      a value that is not blank. */
  predicate Trimmed(s: string) {
    s != [] && !IsWhitespace(s[0]) && !IsWhitespace(s[|s| - 1])
  }

  /** A list kept by the tag editor: no repeats, and every entry trimmed and
      not blank. */
  predicate CleanTags(tags: seq<string>) {
    NoDuplicates(tags) && forall i :: 0 <= i < |tags| ==> Trimmed(tags[i])
  }

  /** The editor appends a value when, trimmed, it is neither blank nor
      already listed. */
  predicate Appends(tags: seq<string>, value: string) {
    Trim(value) != "" && Trim(value) !in tags
  }

  /** The list after `updateListField`: the trimmed value is appended unless
      it is blank or already present. */
  function AddTag(tags: seq<string>, value: string): (r: seq<string>)
    ensures Appends(tags, value) ==> r == tags + [Trim(value)]
    ensures !Appends(tags, value) ==> r == tags
  {
    var t := Trim(value);
    if t == "" then tags
    else if t in tags then tags
    else tags + [t]
  }

  /** The editor's invariant is kept by adding. */
  lemma AddTagClean(tags: seq<string>, value: string)
    ensures CleanTags(tags) ==> CleanTags(AddTag(tags, value))
  {
    var r := AddTag(tags, value);
    var t := Trim(value);
    if CleanTags(tags) && t != "" && t !in tags {
      assert r == tags + [t];
      assert Trimmed(t);
      forall i | 0 <= i < |r| ensures Trimmed(r[i]) {
        if i < |tags| {
          assert r[i] == tags[i];
        }
      }
      forall i, j | 0 <= i < j < |r| ensures r[i] != r[j] {
        if j == |tags| {
          assert r[i] == tags[i] && tags[i] in tags;
        } else {
          assert r[i] == tags[i] && r[j] == tags[j];
        }
      }
    }
  }

  /** Submitting the same input twice adds it once. */
  lemma AddTagIdempotent(tags: seq<string>, value: string)
    ensures AddTag(AddTag(tags, value), value) == AddTag(tags, value)
  {
  }

  /** Trimming a trimmed value padded with one space on each side gives the
      value back. */
  lemma TrimPadding(x: string)
    requires Trimmed(x)
    ensures Trim(" " + x + " ") == x
    ensures Trim(x) == x
  {
    var s := " " + x + " ";
    assert s[0] == ' ' && s[1..] == x + " ";
    assert TrimStart(s) == TrimStart(x + " ");
    assert (x + " ")[0] == x[0];
    TrimStartFixed(x + " ");
    TrimStartFixed(x);
    assert (x + " ")[..|x|] == x;
    assert TrimEnd(x + " ") == TrimEnd(x);
    TrimEndFixed(x);
  }

  /** Surrounding spaces do not make a new tag: a padded value is added, or
      not, exactly as the bare value is. */
  lemma AddTagIgnoresPadding(tags: seq<string>, x: string)
    requires Trimmed(x)
    ensures AddTag(tags, " " + x + " ") == AddTag(tags, x)
    ensures x in tags ==> AddTag(tags, " " + x + " ") == tags
  {
    TrimPadding(x);
  }

  /** `list.filter((_, i) => i !== index)`, built from the right. */
  function RemoveAt(tags: seq<string>, index: int): (r: seq<string>)
    ensures 0 <= index < |tags| ==> r == tags[..index] + tags[index + 1..]
    ensures !(0 <= index < |tags|) ==> r == tags
    decreases |tags|
  {
    if tags == [] then []
    else
      var n := |tags| - 1;
      var rest := RemoveAt(tags[..n], index);
      if n == index then
        assert tags[..index] == tags[..n] && tags[index + 1..] == [];
        rest
      else
        assert 0 <= index < n ==> tags[..n][index + 1..] + [tags[n]] == tags[index + 1..];
        rest + [tags[n]]
  }

  /** Removing a tag keeps the editor's invariant. */
  lemma RemoveAtClean(tags: seq<string>, index: int)
    requires CleanTags(tags)
    ensures CleanTags(RemoveAt(tags, index))
  {
    var r := RemoveAt(tags, index);
    if 0 <= index < |tags| {
      assert forall i :: 0 <= i < |r| ==> r[i] == (if i < index then tags[i] else tags[i + 1]);
    }
  }

  /** Which of the two tag lists an editor action addresses. */
  datatype ListField = Sizes | Colors

  function ListOf(f: ProductFormData, field: ListField): seq<string> {
    match field
    case Sizes => f.sizes
    case Colors => f.colors
  }

  function WithList(f: ProductFormData, field: ListField, tags: seq<string>): (g: ProductFormData)
    ensures ListOf(g, field) == tags
    ensures field.Sizes? ==> g.colors == f.colors
    ensures field.Colors? ==> g.sizes == f.sizes
    ensures g.name == f.name && g.description == f.description && g.price == f.price
    ensures g.category == f.category && g.imageUrl == f.imageUrl && g.stock == f.stock
  {
    match field
    case Sizes => f.(sizes := tags)
    case Colors => f.(colors := tags)
  }

  /** A record of one request to the product service: what was sent and the
      loading flag while it was in flight. */
  datatype SentRequest = SentRequest(call: ServiceCall, loadingWhileSent: bool)

  /** The outcome `handleSubmit` reports. */
  datatype SubmitOutcome = Rejected(reason: FormError) | Saved | SaveFailed

  /** The screen's state. `requests` records the calls made to the product
      service, whose answer is the `succeeds` parameter of `HandleSubmit`. */
  class FormScreen {
    const productId: Option<string>
    var formData: ProductFormData
    var sizeInput: string
    var colorInput: string
    var loading: bool
    var requests: seq<SentRequest>

    constructor (productId: Option<string>)
      ensures this.productId == productId
      ensures formData == InitialForm && sizeInput == "" && colorInput == ""
      ensures !loading && requests == []
    {
      this.productId := productId;
      formData := InitialForm;
      sizeInput := "";
      colorInput := "";
      loading := false;
      requests := [];
    }

    /** `updateListField`: appends the trimmed value to the addressed list
        and clears that list's input, or does nothing when the value is
        blank or already listed. */
    method UpdateListField(field: ListField, value: string)
      modifies this
      ensures formData == WithList(old(formData), field, AddTag(ListOf(old(formData), field), value))
      ensures var appended := Appends(ListOf(old(formData), field), value);
        && sizeInput == (if appended && field.Sizes? then "" else old(sizeInput))
        && colorInput == (if appended && field.Colors? then "" else old(colorInput))
      ensures CleanTags(ListOf(old(formData), field)) ==> CleanTags(ListOf(formData, field))
      ensures loading == old(loading) && requests == old(requests)
    {
      var tags := ListOf(formData, field);
      var appended := Appends(tags, value);
      var after := AddTag(tags, value);
      AddTagClean(tags, value);
      formData := WithList(formData, field, after);
      sizeInput := if appended && field.Sizes? then "" else sizeInput;
      colorInput := if appended && field.Colors? then "" else colorInput;
    }

    /** `removeFromList`: drops the entry at `index` from the addressed list. */
    method RemoveFromList(field: ListField, index: int)
      modifies this
      ensures formData == WithList(old(formData), field, RemoveAt(ListOf(old(formData), field), index))
      ensures CleanTags(ListOf(old(formData), field)) ==> CleanTags(ListOf(formData, field))
      ensures sizeInput == old(sizeInput) && colorInput == old(colorInput)
      ensures loading == old(loading) && requests == old(requests)
    {
      var tags := ListOf(formData, field);
      if CleanTags(tags) {
        RemoveAtClean(tags, index);
      }
      formData := WithList(formData, field, RemoveAt(tags, index));
    }

    /** `handleSubmit`: an invalid form sends nothing; a valid one sends the
        request with `loading` set, and `loading` is cleared afterwards
        whatever the answer. */
    method HandleSubmit(succeeds: bool) returns (outcome: SubmitOutcome)
      modifies this
      ensures ValidateForm(old(formData)).Some? ==>
        && outcome == Rejected(ValidateForm(old(formData)).value)
        && requests == old(requests) && loading == old(loading)
      ensures ValidateForm(old(formData)).None? ==>
        && requests == old(requests) + [SentRequest(SubmitRequest(productId, old(formData)).value, true)]
        && !loading
        && outcome == (if succeeds then Saved else SaveFailed)
      ensures formData == old(formData) && sizeInput == old(sizeInput) && colorInput == old(colorInput)
    {
      var check := ValidateForm(formData);
      if check.Some? {
        return Rejected(check.value);
      }
      loading := true;
      var call := if HasId(productId) then UpdateProduct(productId.value, formData) else CreateProduct(formData);
      requests := requests + [SentRequest(call, loading)];
      outcome := if succeeds then Saved else SaveFailed;
      loading := false;
    }
  }
}
