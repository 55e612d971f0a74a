/**
 * The product fields the forms name, and a multipart request body as the
 * forms build it: the entries in the order they were appended
 * (`FormData.append`). `Get` is `FormData.get`, which answers the first
 * entry under a key.
 */
module FormData {
  import opened Wrappers
  import opened JsValues

  /** The product fields named by form inputs, error maps and request bodies. */
  datatype Field =
    NameField | DescriptionField | PriceField | QuantityField | CategoryField | AvailableField | LastUpdatedField | ImageField

  /** The field's key as it appears on the wire and in the components' objects. */
  function Key(f: Field): string
  {
    match f
    case NameField => "name"
    case DescriptionField => "description"
    case PriceField => "price"
    case QuantityField => "quantity"
    case CategoryField => "category"
    case AvailableField => "available"
    case LastUpdatedField => "last_updated"
    case ImageField => "image"
  }

  /** A file chosen in a file input; its bytes are not modelled. */
  datatype FileRef = FileRef(name: string, size: nat)

  datatype FormValue = Value(v: JsValue) | Blob(file: FileRef)

  datatype Entry = Entry(key: Field, value: FormValue)

  /** The keys in append order. */
  function Keys(fd: seq<Entry>): (r: seq<Field>)
    ensures |r| == |fd|
    ensures forall i :: 0 <= i < |fd| ==> r[i] == fd[i].key
  {
    if fd == [] then [] else [fd[0].key] + Keys(fd[1..])
  }

  /** `formData.get(key)`: the value of the first entry under `key`, if any. */
  function Get(fd: seq<Entry>, key: Field): Option<FormValue>
  {
    if fd == [] then None
    else if fd[0].key == key then Some(fd[0].value)
    else Get(fd[1..], key)
  }

  /** `Get` answers the entry at the first position holding the key. */
  lemma {:induction false} GetFirstOccurrence(fd: seq<Entry>, i: nat, key: Field)
    requires i < |fd| && fd[i].key == key
    requires forall j :: 0 <= j < i ==> fd[j].key != key
    ensures Get(fd, key) == Some(fd[i].value)
  {
    if i > 0 {
      GetFirstOccurrence(fd[1..], i - 1, key);
    }
  }

  /** `Get` answers nothing exactly when no entry holds the key. */
  lemma {:induction false} GetAbsent(fd: seq<Entry>, key: Field)
    ensures Get(fd, key).None? <==> key !in Keys(fd)
  {
    if fd != [] {
      GetAbsent(fd[1..], key);
      assert Keys(fd) == [fd[0].key] + Keys(fd[1..]);
    }
  }
}
