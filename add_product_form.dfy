/**
 * The "add product" form: its state, the field rules run on submit, the
 * create request it builds and the reset after a successful create.
 * The submit handler is split at its `await`: `Submit` runs up to the
 * network call, `FinishCreate` runs when the call has settled.
 */
module AddProductForm {
  import opened Wrappers
  import opened JsValues
  import opened Strings
  import opened Numbers
  import opened FormData
  import opened Products

  /** The validator's messages; `Text` gives the words the form shows. */
  datatype Message = NameRequired | PriceRequired | PriceInvalid | QuantityRequired | QuantityInvalid | CategoryRequired

  function Text(m: Message): string
  {
    match m
    case NameRequired => "Product name is required"
    case PriceRequired => "Price is required"
    case PriceInvalid => "Price must be a positive number"
    case QuantityRequired => "Quantity is required"
    case QuantityInvalid => "Quantity must be a non-negative integer"
    case CategoryRequired => "Category is required"
  }

  /** The keys the validator may write into the error map. */
  const ValidatedFields: set<Field> := {NameField, PriceField, QuantityField, CategoryField}

  /** The name rule: required once surrounding white space is removed. */
  function NameError(name: string): (e: Option<Message>)
    ensures e == None <==> !AllWhitespace(name)
    ensures e != None ==> e == Some(NameRequired)
  {
    if Trim(name) == "" then Some(NameRequired) else None
  }

  /** The price rule: accepted exactly when the text reads as a number greater than zero. */
  function PriceError(price: string): (e: Option<Message>)
    ensures e == None <==> ParseNumber(price).Some? && ParseNumber(price).value > 0.0
    ensures e == Some(PriceRequired) <==> AllWhitespace(price)
    ensures e == None || e == Some(PriceRequired) || e == Some(PriceInvalid)
  {
    if Trim(price) == "" then Some(PriceRequired)
    else
      match ParseNumber(price)
      case None => Some(PriceInvalid)
      case Some(v) => if v <= 0.0 then Some(PriceInvalid) else None
  }

  /** The quantity rule: accepted exactly when the text is not blank and reads as an integer of at least zero. */
  function QuantityError(quantity: string): (e: Option<Message>)
    ensures e == None <==>
      !AllWhitespace(quantity) && ParseNumber(quantity).Some?
      && ParseNumber(quantity).value >= 0.0 && IsInteger(ParseNumber(quantity).value)
    ensures e == Some(QuantityRequired) <==> AllWhitespace(quantity)
    ensures e == None || e == Some(QuantityRequired) || e == Some(QuantityInvalid)
  {
    if Trim(quantity) == "" then Some(QuantityRequired)
    else
      match ParseNumber(quantity)
      case None => Some(QuantityInvalid)
      case Some(v) => if v < 0.0 || !IsInteger(v) then Some(QuantityInvalid) else None
  }

  /** The category rule: the selection must be truthy (`!categorySlug` rejects "" and 0). */
  function CategoryError(category: JsValue): (e: Option<Message>)
    ensures e == None <==> Truthy(category)
    ensures e != None ==> e == Some(CategoryRequired)
  {
    if !Truthy(category) then Some(CategoryRequired) else None
  }

  /** All four rules pass, so the handler goes on to the network call. */
  predicate DraftAccepted(name: string, price: string, quantity: string, category: JsValue)
  {
    NameError(name) == None && PriceError(price) == None
    && QuantityError(quantity) == None && CategoryError(category) == None
  }

  function Lookup(m: map<Field, Message>, key: Field): Option<Message>
  {
    if key in m then Some(m[key]) else None
  }

  /** The body of the create request, in append order. */
  function CreatePayload(name: string, price: string, quantity: string, category: JsValue,
                         now: string, imageFile: Option<FileRef>): seq<Entry>
  {
    [Entry(NameField, Value(Str(name))),
     Entry(PriceField, Value(Str(price))),
     Entry(QuantityField, Value(Str(quantity))),
     Entry(CategoryField, Value(category)),
     Entry(AvailableField, Value(Bool(true))),
     Entry(LastUpdatedField, Value(Str(now)))]
    + (if imageFile.Some? then [Entry(ImageField, Blob(imageFile.value))] else [])
  }

  /** The create body's keys, in append order; the image comes last and only with a chosen file. */
  lemma CreatePayloadKeys(name: string, price: string, quantity: string, category: JsValue,
                          now: string, imageFile: Option<FileRef>)
    ensures Keys(CreatePayload(name, price, quantity, category, now, imageFile))
      == [NameField, PriceField, QuantityField, CategoryField, AvailableField, LastUpdatedField]
         + (if imageFile.Some? then [ImageField] else [])
  {
  }

  /**
   * The create body read back through `FormData.get`: the texts as typed
   * (untrimmed), the selected category, availability set and the timestamp.
   */
  lemma CreatePayloadLookups(name: string, price: string, quantity: string, category: JsValue,
                             now: string, imageFile: Option<FileRef>)
    ensures var fd := CreatePayload(name, price, quantity, category, now, imageFile);
      && Get(fd, NameField) == Some(Value(Str(name)))
      && Get(fd, PriceField) == Some(Value(Str(price)))
      && Get(fd, QuantityField) == Some(Value(Str(quantity)))
      && Get(fd, CategoryField) == Some(Value(category))
      && Get(fd, AvailableField) == Some(Value(Bool(true)))
      && Get(fd, LastUpdatedField) == Some(Value(Str(now)))
  {
    var fd := CreatePayload(name, price, quantity, category, now, imageFile);
    GetFirstOccurrence(fd, 0, NameField);
    GetFirstOccurrence(fd, 1, PriceField);
    GetFirstOccurrence(fd, 2, QuantityField);
    GetFirstOccurrence(fd, 3, CategoryField);
    GetFirstOccurrence(fd, 4, AvailableField);
    GetFirstOccurrence(fd, 5, LastUpdatedField);
  }

  /** The image is in the create body exactly when a file was chosen. */
  lemma CreatePayloadImage(name: string, price: string, quantity: string, category: JsValue,
                           now: string, imageFile: Option<FileRef>)
    ensures Get(CreatePayload(name, price, quantity, category, now, imageFile), ImageField)
      == if imageFile.Some? then Some(Blob(imageFile.value)) else None
  {
    var fd := CreatePayload(name, price, quantity, category, now, imageFile);
    if imageFile.Some? {
      GetFirstOccurrence(fd, 6, ImageField);
    } else {
      GetAbsent(fd, ImageField);
    }
  }

  /** The error map holds, under each validated field, exactly the message its rule gives, and nothing else. */
  predicate ReportsRules(errors: map<Field, Message>, name: string, price: string, quantity: string, category: JsValue)
  {
    && errors.Keys <= ValidatedFields
    && Lookup(errors, NameField) == NameError(name)
    && Lookup(errors, PriceField) == PriceError(price)
    && Lookup(errors, QuantityField) == QuantityError(quantity)
    && Lookup(errors, CategoryField) == CategoryError(category)
  }

  /** A map over the validated fields is empty exactly when none of them has an entry. */
  lemma EmptyIffNoLookups(errors: map<Field, Message>)
    requires errors.Keys <= ValidatedFields
    ensures errors == map[] <==>
      Lookup(errors, NameField).None? && Lookup(errors, PriceField).None?
      && Lookup(errors, QuantityField).None? && Lookup(errors, CategoryField).None?
  {
    if errors != map[] {
      var f :| f in errors;
      assert f in ValidatedFields;
    }
  }

  /** An error map that reports the rules is empty exactly when the draft is accepted. */
  lemma NoErrorsIffAccepted(errors: map<Field, Message>, name: string, price: string, quantity: string, category: JsValue)
    requires ReportsRules(errors, name, price, quantity, category)
    ensures errors == map[] <==> DraftAccepted(name, price, quantity, category)
  {
    EmptyIffNoLookups(errors);
  }

  class AddForm {
    var categories: seq<Category>
    var categorySlug: JsValue
    var name: string
    var price: string
    var quantity: string
    var image: string
    var errors: map<Field, Message>
    var imageFile: Option<FileRef>

    /** Every field starts empty; no category is selected and there are no errors. */
    constructor ()
      ensures categories == [] && categorySlug == Str("")
      ensures name == "" && price == "" && quantity == "" && image == ""
      ensures errors == map[] && imageFile == None
    {
      categories := [];
      categorySlug := Str("");
      name, price, quantity, image := "", "", "", "";
      errors := map[];
      imageFile := None;
    }

    /** Categories arrive: they are stored, and the first one's id is preselected when there is one. */
    method LoadCategories(data: seq<Category>)
      modifies this
      ensures categories == data
      ensures categorySlug == if |data| > 0 then Num(data[0].id as real) else old(categorySlug)
      ensures name == old(name) && price == old(price) && quantity == old(quantity)
      ensures image == old(image) && errors == old(errors) && imageFile == old(imageFile)
    {
      categories := data;
      if |data| > 0 {
        categorySlug := Num(data[0].id as real);
      }
    }

    /** The select's change handler stores the chosen option's value, which is text. */
    method SelectCategory(value: string)
      modifies this`categorySlug
      ensures categorySlug == Str(value)
    {
      categorySlug := Str(value);
    }

    /** The file input's change handler keeps a chosen file and ignores an empty choice. */
    method SelectImageFile(file: Option<FileRef>)
      modifies this`imageFile
      ensures imageFile == if file.Some? then file else old(imageFile)
    {
      if file.Some? {
        imageFile := file;
      }
    }

    /** The validation step of submit: builds the error map one rule at a time. */
    method CollectErrors() returns (newErrors: map<Field, Message>)
      ensures ReportsRules(newErrors, name, price, quantity, categorySlug)
    {
      newErrors := map[];
      var nameError := NameError(name);
      if nameError.Some? {
        newErrors := newErrors[NameField := nameError.value];
      }
      assert newErrors.Keys <= {NameField} && Lookup(newErrors, NameField) == nameError;
      var priceError := PriceError(price);
      if priceError.Some? {
        newErrors := newErrors[PriceField := priceError.value];
      }
      assert newErrors.Keys <= {NameField, PriceField} && Lookup(newErrors, NameField) == nameError;
      assert Lookup(newErrors, PriceField) == priceError;
      var quantityError := QuantityError(quantity);
      if quantityError.Some? {
        newErrors := newErrors[QuantityField := quantityError.value];
      }
      assert newErrors.Keys <= {NameField, PriceField, QuantityField};
      assert Lookup(newErrors, NameField) == nameError && Lookup(newErrors, PriceField) == priceError;
      assert Lookup(newErrors, QuantityField) == quantityError;
      var categoryError := CategoryError(categorySlug);
      if categoryError.Some? {
        newErrors := newErrors[CategoryField := categoryError.value];
      }
    }

    /**
     * Submit up to the network call. A rejected draft stores its errors and
     * yields no request; otherwise every rule passed (by `NoErrorsIffAccepted`,
     * the draft is accepted), and the create request is yielded with the form
     * left as it was.
     */
    method Submit(now: string) returns (request: Option<seq<Entry>>)
      modifies this`errors
      ensures request.None? ==> errors != map[] && ReportsRules(errors, name, price, quantity, categorySlug)
      ensures request.Some? ==> ReportsRules(map[], name, price, quantity, categorySlug) && errors == old(errors)
      ensures request.Some? ==>
        request.value == CreatePayload(name, price, quantity, categorySlug, now, imageFile)
    {
      var newErrors := CollectErrors();
      // `Object.keys(newErrors).length > 0`
      if newErrors != map[] {
        errors := newErrors;
        assert errors == newErrors;
        return None;
      }
      assert newErrors == map[];
      request := Some(CreatePayload(name, price, quantity, categorySlug, now, imageFile));
    }

    /**
     * The create call settled. On success the draft is cleared, except the
     * category selection (and the loaded categories); on failure nothing changes.
     */
    method FinishCreate(created: bool)
      modifies this
      ensures categories == old(categories) && categorySlug == old(categorySlug)
      ensures created ==> name == "" && price == "" && quantity == "" && image == ""
                          && imageFile == None && errors == map[]
      ensures !created ==> name == old(name) && price == old(price) && quantity == old(quantity)
                           && image == old(image) && imageFile == old(imageFile) && errors == old(errors)
    {
      if created {
        name, price, quantity, image := "", "", "", "";
        imageFile := None;
        errors := map[];
      }
    }
  }

  /** A quantity with a fractional part is rejected: "3.5" reads as a number, but not as an integer. */
  lemma QuantityRejectsFraction()
    ensures QuantityError("3.5") == Some(QuantityInvalid)
  {
    TrimFraction();
    ParseFractionExample();
  }

  /** A price with a fractional part, such as "12.99", is accepted exactly when it is above zero. */
  lemma FractionalPriceAccepted(n: nat, f: string)
    requires f != [] && AllDigits(f)
    ensures PriceError(DecimalString(n) + "." + f) == None <==> n > 0 || DigitsValue(f) > 0
  {
    ParseDecimalFraction(n, f);
  }

  /**
   * A quantity with a fractional part is accepted exactly when the fraction is
   * zero: "2.0" reads as the integer 2, "2.5" is not an integer.
   */
  lemma FractionalQuantity(n: nat, f: string)
    requires f != [] && AllDigits(f)
    ensures DigitsValue(f) == 0 ==> QuantityError(DecimalString(n) + "." + f) == None
    ensures DigitsValue(f) > 0 ==> QuantityError(DecimalString(n) + "." + f) == Some(QuantityInvalid)
  {
    var t := DecimalString(n) + "." + f;
    assert !IsWhitespace(t[0]);
    ParseDecimalFraction(n, f);
    var x := DecimalValue(DecimalString(n), f);
    assert n as real <= x < n as real + 1.0;
    assert x.Floor == n;
  }

  /** Text made only of Unicode space separators is blank: the name and price are reported missing. */
  lemma SpaceSeparatorsAreBlank()
    ensures NameError("\U{3000}") == Some(NameRequired)
    ensures PriceError("\U{2003}\U{1680}") == Some(PriceRequired)
  {
    assert AllWhitespace("\U{3000}") by {
      assert IsWhitespace("\U{3000}"[0]);
    }
    assert AllWhitespace("\U{2003}\U{1680}") by {
      assert IsWhitespace("\U{2003}\U{1680}"[0]) && IsWhitespace("\U{2003}\U{1680}"[1]);
    }
  }

  /** A positive price followed by white space, such as "5" and an ideographic space, is accepted. */
  lemma PaddedPriceAccepted(n: nat, c: char)
    requires n > 0 && IsWhitespace(c)
    ensures PriceError(DecimalString(n) + [c]) == None
  {
    ParsePaddedDecimalString(n, c);
    assert !IsWhitespace((DecimalString(n) + [c])[0]);
  }

  /** Every decimal natural number is an acceptable quantity, and its negation (below zero) is not. */
  lemma QuantityAcceptsNaturals(n: nat)
    ensures QuantityError(DecimalString(n)) == None
    ensures n > 0 ==> QuantityError("-" + DecimalString(n)) == Some(QuantityInvalid)
  {
    ParseDecimalString(n);
    ParseNegativeDecimalString(n);
    DecimalStringNotBlank(n);
    assert (n as real).Floor == n;
  }

  /** A decimal natural number is an acceptable price exactly when it is not zero; a negated one never is. */
  lemma PriceAcceptsPositiveNaturals(n: nat)
    ensures PriceError(DecimalString(n)) == if n > 0 then None else Some(PriceInvalid)
    ensures PriceError("-" + DecimalString(n)) == Some(PriceInvalid)
  {
    ParseDecimalString(n);
    ParseNegativeDecimalString(n);
    DecimalStringNotBlank(n);
  }
}
