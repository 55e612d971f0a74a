/**
 * The "edit product" form: a draft initialised from the product being
 * edited, a change handler that overwrites one draft field, and a submit
 * handler that sends the draft without checking it first. The handler is
 * split at its `await`: `BeginSubmit` runs up to the update request,
 * `FinishSubmit` runs when it has settled (its `finally` included).
 */
module EditProductForm {
  import opened Wrappers
  import opened JsValues
  import opened FormData

  /** The draft's fields, in the order the submit handler appends them. */
  const DraftFields: seq<Field> :=
    [NameField, DescriptionField, PriceField, QuantityField, AvailableField, CategoryField]

  /** What a falsy product value falls back to: `false` for the checkbox, `""` for every other input. */
  function Fallback(f: Field): JsValue
  {
    if f == AvailableField then Bool(false) else Str("")
  }

  /** Where a draft field is read from: `product?.<key>`, but `product?.category?.id` for the category. */
  function SourceValue(product: JsValue, f: Field): JsValue
  {
    if f == CategoryField then Prop(Prop(product, "category"), "id") else Prop(product, Key(f))
  }

  /** The initial `editedProduct`: each field copied from the product when truthy, else its fallback. */
  function InitialDraft(product: JsValue): (d: map<Field, JsValue>)
    ensures d.Keys == set f | f in DraftFields
    ensures forall f :: f in d && Truthy(SourceValue(product, f)) ==> d[f] == SourceValue(product, f)
    ensures forall f :: f in d && !Truthy(SourceValue(product, f)) ==> d[f] == Fallback(f)
  {
    map f | f in DraftFields :: Or(SourceValue(product, f), Fallback(f))
  }

  /** A price or quantity of 0 is falsy, so the draft shows an empty input instead. */
  lemma ZeroInitialisesEmpty(product: JsValue)
    ensures Prop(product, "price") == Num(0.0) ==> InitialDraft(product)[PriceField] == Str("")
    ensures Prop(product, "quantity") == Num(0.0) ==> InitialDraft(product)[QuantityField] == Str("")
    ensures Prop(product, "available") == Bool(false) ==> InitialDraft(product)[AvailableField] == Bool(false)
  {
  }

  /** With no product at all every field takes its fallback. */
  lemma MissingProductDraft()
    ensures forall f :: f in InitialDraft(Null) ==> InitialDraft(Null)[f] == Fallback(f)
  {
  }

  /** The value an input reports: its `checked` state for a checkbox, its `value` text otherwise. */
  function InputValue(inputType: string, value: string, checked: bool): (v: JsValue)
    ensures inputType == "checkbox" ==> v == Bool(checked)
    ensures inputType != "checkbox" ==> v == Str(value)
  {
    if inputType == "checkbox" then Bool(checked) else Str(value)
  }

  /** `editedProduct.<field>`: undefined for a field the draft does not hold. */
  function DraftValue(draft: map<Field, JsValue>, f: Field): JsValue
  {
    if f in draft then draft[f] else Undefined
  }

  /** The errors shown after a failed update: `error.response?.data || {}`. */
  function FailureErrors(error: JsValue): (e: JsValue)
    ensures Truthy(e)
  {
    Or(Prop(Prop(error, "response"), "data"), EmptyObject)
  }

  /** An error without a `response` property leaves an empty error object. */
  lemma FailureWithoutResponse(error: JsValue)
    requires !(error.Object? && "response" in error.props)
    ensures FailureErrors(error) == EmptyObject
  {
  }

  /**
   * An error whose only own property is `message` leaves the errors empty. Such
   * are the `new Error(message)` the update helper throws for a failed response,
   * and the `TypeError` thrown by reading a property of a missing product.
   */
  lemma ThrownUpdateErrorLeavesNoFieldErrors(message: string)
    ensures FailureErrors(Object(map["message" := Str(message)])) == EmptyObject
  {
    assert "response" != "message" by {
      assert "response"[0] != "message"[0];
    }
    FailureWithoutResponse(Object(map["message" := Str(message)]));
  }

  /** The update request body: the draft fields in append order, then the image when one was chosen. */
  function UpdateBody(draft: map<Field, JsValue>, imageFile: Option<FileRef>): seq<Entry>
  {
    [Entry(NameField, Value(DraftValue(draft, NameField))),
     Entry(DescriptionField, Value(DraftValue(draft, DescriptionField))),
     Entry(PriceField, Value(DraftValue(draft, PriceField))),
     Entry(QuantityField, Value(DraftValue(draft, QuantityField))),
     Entry(AvailableField, Value(DraftValue(draft, AvailableField))),
     Entry(CategoryField, Value(DraftValue(draft, CategoryField)))]
    + (if imageFile.Some? then [Entry(ImageField, Blob(imageFile.value))] else [])
  }

  /** The update body's keys, in append order. */
  lemma UpdateBodyKeys(draft: map<Field, JsValue>, imageFile: Option<FileRef>)
    ensures Keys(UpdateBody(draft, imageFile)) == DraftFields + (if imageFile.Some? then [ImageField] else [])
  {
  }

  /** The update body read back through `FormData.get`: every draft field holds the draft's value. */
  lemma UpdateBodyLookups(draft: map<Field, JsValue>, imageFile: Option<FileRef>)
    ensures forall f :: f in DraftFields ==> Get(UpdateBody(draft, imageFile), f) == Some(Value(DraftValue(draft, f)))
  {
    var body := UpdateBody(draft, imageFile);
    forall i | 0 <= i < |DraftFields|
      ensures Get(body, DraftFields[i]) == Some(Value(DraftValue(draft, DraftFields[i])))
    {
      GetFirstOccurrence(body, i, DraftFields[i]);
    }
  }

  /** The image is in the update body exactly when a file was chosen. */
  lemma UpdateBodyImage(draft: map<Field, JsValue>, imageFile: Option<FileRef>)
    ensures Get(UpdateBody(draft, imageFile), ImageField) == if imageFile.Some? then Some(Blob(imageFile.value)) else None
  {
    var body := UpdateBody(draft, imageFile);
    if imageFile.Some? {
      GetFirstOccurrence(body, 6, ImageField);
    } else {
      GetAbsent(body, ImageField);
    }
  }

  /** The update request: the id it targets and its multipart body. */
  datatype UpdateRequest = UpdateRequest(productId: JsValue, body: seq<Entry>)

  datatype UpdateOutcome = Updated | Failed(error: JsValue)

  /** `null` and `undefined`, on which reading a property throws a `TypeError`. */
  predicate Nullish(v: JsValue)
  {
    v == Null || v == Undefined
  }

  /** The `TypeError` thrown by reading a property of `null` or `undefined`; its message is not modelled. */
  const ReadPropertyError: JsValue := Object(map["message" := Str("")])

  class EditForm {
    const product: JsValue
    var editedProduct: map<Field, JsValue>
    var errors: JsValue
    var isSubmitting: bool
    var imageFile: Option<FileRef>
    /** The parent's refresh flag; `None` when the parent passes no setter for it. */
    var refresh: Option<bool>

    constructor (product: JsValue, refresh: Option<bool>)
      ensures this.product == product && this.refresh == refresh
      ensures editedProduct == InitialDraft(product)
      ensures errors == EmptyObject && !isSubmitting && imageFile == None
    {
      this.product := product;
      this.refresh := refresh;
      editedProduct := InitialDraft(product);
      errors := EmptyObject;
      isSubmitting := false;
      imageFile := None;
    }

    /** The shared change handler: replaces exactly the named field of the draft. */
    method HandleChange(name: Field, inputType: string, value: string, checked: bool)
      modifies this`editedProduct
      ensures name in editedProduct && editedProduct[name] == InputValue(inputType, value, checked)
      ensures forall f :: f != name ==> (f in editedProduct <==> f in old(editedProduct))
      ensures forall f :: f != name && f in editedProduct ==> editedProduct[f] == old(editedProduct)[f]
    {
      editedProduct := editedProduct[name := InputValue(inputType, value, checked)];
    }

    /** The file input's change handler keeps a chosen file and ignores an empty choice. */
    method SelectImageFile(file: Option<FileRef>)
      modifies this`imageFile
      ensures imageFile == if file.Some? then file else old(imageFile)
    {
      if file.Some? {
        imageFile := file;
      }
    }

    /**
     * Submit up to the update request: raises the submitting flag and builds
     * the body from the draft, with no rule checked. Reading `product.id` for
     * the request throws when there is no product (`null` or `undefined`):
     * the thrown error has no `response`, so the errors become `{}`, the
     * `finally` drops the flag, and nothing is sent. Otherwise the request
     * goes to the product's id.
     */
    method BeginSubmit() returns (request: Option<UpdateRequest>)
      modifies this`isSubmitting, this`errors
      ensures Nullish(product) ==> request == None && errors == EmptyObject && !isSubmitting
      ensures !Nullish(product) ==> request.Some? && isSubmitting && errors == old(errors)
      ensures request.Some? ==> request.value.productId == Prop(product, "id")
      ensures request.Some? ==>
        Keys(request.value.body) == DraftFields + (if imageFile.Some? then [ImageField] else [])
      ensures request.Some? ==>
        forall f :: f in DraftFields ==> Get(request.value.body, f) == Some(Value(DraftValue(editedProduct, f)))
      ensures request.Some? ==>
        Get(request.value.body, ImageField) == if imageFile.Some? then Some(Blob(imageFile.value)) else None
    {
      isSubmitting := true;
      var body := [];
      body := body + [Entry(NameField, Value(DraftValue(editedProduct, NameField)))];
      body := body + [Entry(DescriptionField, Value(DraftValue(editedProduct, DescriptionField)))];
      body := body + [Entry(PriceField, Value(DraftValue(editedProduct, PriceField)))];
      body := body + [Entry(QuantityField, Value(DraftValue(editedProduct, QuantityField)))];
      body := body + [Entry(AvailableField, Value(DraftValue(editedProduct, AvailableField)))];
      body := body + [Entry(CategoryField, Value(DraftValue(editedProduct, CategoryField)))];
      if imageFile.Some? {
        body := body + [Entry(ImageField, Blob(imageFile.value))];
      }
      if Nullish(product) {
        // the TypeError from reading `id`, caught and then `finally`
        ThrownUpdateErrorLeavesNoFieldErrors("");
        errors := FailureErrors(ReadPropertyError);
        isSubmitting := false;
        return None;
      }
      assert body == UpdateBody(editedProduct, imageFile);
      UpdateBodyKeys(editedProduct, imageFile);
      UpdateBodyLookups(editedProduct, imageFile);
      UpdateBodyImage(editedProduct, imageFile);
      request := Some(UpdateRequest(Prop(product, "id"), body));
    }

    /**
     * The update settled. The submitting flag drops either way; success flips
     * the parent's refresh flag when there is one, failure replaces the errors.
     */
    method FinishSubmit(outcome: UpdateOutcome)
      modifies this`isSubmitting, this`errors, this`refresh
      ensures !isSubmitting
      ensures outcome.Updated? ==> errors == old(errors)
      ensures outcome.Updated? ==> refresh == if old(refresh).Some? then Some(!old(refresh).value) else None
      ensures outcome.Failed? ==> errors == FailureErrors(outcome.error) && refresh == old(refresh)
    {
      match outcome {
        case Updated =>
          if refresh.Some? {
            refresh := Some(!refresh.value);
          }
        case Failed(error) =>
          errors := FailureErrors(error);
      }
      isSubmitting := false;
    }
  }
}
