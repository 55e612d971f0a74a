# Storefront client logic, modelled in Dafny

This project models the client-side logic of a small React + Django
storefront. It has an admin console and a public catalog. The model covers
these pieces:

- **Add-product form** (`AddProductForm`). Four field rules (name, price,
  quantity, category) build an error map. Its messages are the `Message`
  values, whose `Text` is the wording the form shows. Any error blocks the submit. An
  accepted draft becomes a multipart create request. A successful create
  clears the draft but keeps the category selection.
- **Edit-product form** (`EditProductForm`). A draft is initialised from the
  product, with falsy values falling back to `""` or `false`. A change
  handler replaces one field at a time. Submit sends the draft as an
  ordered multipart body without validating it. A submitting flag is held
  while the update runs. Failures leave `error.response?.data || {}`.
- **Admin dashboard** (`Admin`). Three list updates: append a created
  product, replace a product by id (stamping `lastUpdated`), and flip a
  product's availability by id. The main area chooses between the add form,
  the edit form and the list, and the add form takes precedence.
- **Admin product table** (`ProductList`).
  - A header click switches the sort column or flips the direction.
  - The display order is a stable sort of a copy of the list. The
    comparator is numeric for price, quantity and id, and compares
    lowercased text otherwise.
  - A successful delete filters the product out by id.
- **Public catalog** (`ProductCatalog`). Every category's products are laid
  end to end, then filtered by category slug (`"all"` is a wildcard), by a
  case-insensitive name search, and by `available !== false`. A stock band
  colours the quantity.
- **Login form** (`Login`). The trimmed name must be non-empty and at least
  two characters long before the login request is made. The form also
  keeps an error message and a loading flag.

Supporting modules:

- `JsValues`: JavaScript values, truthiness, `?.` and `||`.
- `Strings`: `trim` (white space includes the Unicode space separators, line terminators and the byte-order mark), `toLowerCase`, `includes`, UTF-16 length and code-point order.
- `Numbers`: a decimal reading of `Number()`.
- `Seqs`: `Array.prototype.filter` and subsequences.
- `FormData`: ordered appended entries; `get` answers the first entry under a key.
- `Products`: the admin product record.

Each asynchronous handler is split at its `await`:

- A first method runs up to the request. It returns the request instead of
  sending it.
- A `Finish…` method takes the request's outcome as a parameter and runs the
  rest, including any `finally`.

`new Date().toISOString()` becomes a `now: string` parameter. Component
state that the handlers update is the fields of a class per component.
Pure computations (rules, list transforms, sorting, filtering) are
functions, and lemmas state their properties.

## Model

| member | source | states |
|---|---|---|
| AddProductForm.NameError | frontend/src/components/AddProductForm.jsx:31 | The name is rejected with "Product name is required" exactly when it is all white space. |
| AddProductForm.PriceError | frontend/src/components/AddProductForm.jsx:33-37 | The price is accepted iff it reads as a number greater than 0. A blank price gets "Price is required" (and only a blank one). Every other rejection is "Price must be a positive number". |
| AddProductForm.QuantityError | frontend/src/components/AddProductForm.jsx:39-47 | The quantity is accepted iff it is not blank and reads as an integer of at least 0. A blank quantity gets "Quantity is required" (and only a blank one). Every other rejection is the non-negative-integer message. |
| AddProductForm.CategoryError | frontend/src/components/AddProductForm.jsx:49-51 | The category is rejected with "Category is required" exactly when the selection is falsy. |
| AddProductForm.PriceAcceptsPositiveNaturals | frontend/src/components/AddProductForm.jsx:33-37 | A natural number's decimal text is an accepted price iff it is not 0. Its negation is always rejected as not positive. |
| AddProductForm.QuantityRejectsFraction | frontend/src/components/AddProductForm.jsx:41-46 | "3.5" is rejected with the non-negative-integer message: it reads as a number, but not as an integer. |
| AddProductForm.QuantityAcceptsNaturals | frontend/src/components/AddProductForm.jsx:39-47 | Every natural number's decimal text is an accepted quantity. The negation of a positive one is rejected. |
| AddProductForm.FractionalPriceAccepted | frontend/src/components/AddProductForm.jsx:33-37 | A price written as digits, a point and digits (such as "12.99") is accepted iff its whole part or its fraction digits are non-zero. |
| AddProductForm.FractionalQuantity | frontend/src/components/AddProductForm.jsx:39-47 | A quantity written as digits, a point and digits is accepted when the fraction digits are all zero ("2.0"), and otherwise rejected with the non-negative-integer message ("2.5"). |
| AddProductForm.SpaceSeparatorsAreBlank | frontend/src/components/AddProductForm.jsx:31-34 | A name that is only an ideographic space is missing, and so is a price made of an em space and an Ogham space mark: Unicode space separators count as white space. |
| AddProductForm.PaddedPriceAccepted | frontend/src/components/AddProductForm.jsx:33-37 | A positive natural's decimal text followed by one white-space character is an accepted price. |
| AddProductForm.AddForm.CollectErrors | frontend/src/components/AddProductForm.jsx:29-51 | The error map only uses the four validated keys, and under each key it holds exactly that field's rule result. |
| AddProductForm.NoErrorsIffAccepted | frontend/src/components/AddProductForm.jsx:29-56 | An error map built by the rules is empty iff all four rules pass, so submit goes on exactly when the draft is accepted. |
| AddProductForm.EmptyIffNoLookups | frontend/src/components/AddProductForm.jsx:53 | A map over the validated keys is empty iff none of the four keys has an entry. |
| AddProductForm.AddForm.Submit | frontend/src/components/AddProductForm.jsx:26-68 | When some rule fails, no request is made and the stored errors are non-empty, with each field's rule result. Otherwise every rule passed, the errors are unchanged and the request is the create payload of the current draft. |
| AddProductForm.CreatePayload | frontend/src/components/AddProductForm.jsx:58-68 | Builds the create request's entries in append order: name, price and quantity as typed, the category selection, `available` as `true`, `last_updated` as the given time, then the chosen file under `image` when there is one. Its properties are the three lemmas below. |
| AddProductForm.CreatePayloadKeys | frontend/src/components/AddProductForm.jsx:58-68 | The keys are name, price, quantity, category, available and last_updated in that order, plus image last only when a file was chosen. |
| AddProductForm.CreatePayloadLookups | frontend/src/components/AddProductForm.jsx:58-64 | `get` returns the typed name, price and quantity untrimmed, the selected category, `available` as `true`, and `last_updated` as the given time. |
| AddProductForm.CreatePayloadImage | frontend/src/components/AddProductForm.jsx:66-68 | `get("image")` returns the chosen file, and nothing when no file was chosen. |
| AddProductForm.AddForm.FinishCreate | frontend/src/components/AddProductForm.jsx:81-97 | After a successful create, name, price, quantity, image, the chosen file and the errors are cleared, and the category selection is kept. A failed create changes nothing. |
| AddProductForm.AddForm.LoadCategories | frontend/src/components/AddProductForm.jsx:15-21 | The loaded categories are stored. When there is at least one, the first one's id is selected. Otherwise the selection is unchanged. |
| AddProductForm.AddForm.constructor | frontend/src/components/AddProductForm.jsx:6-13 | Every field starts empty, with no errors and no file. |
| AddProductForm.AddForm.SelectCategory | frontend/src/components/AddProductForm.jsx:130 | The selection becomes the chosen option's text value. |
| AddProductForm.AddForm.SelectImageFile | frontend/src/components/AddProductForm.jsx:186-189 | A chosen file replaces the stored one. An empty choice leaves it unchanged. |
| EditProductForm.InitialDraft | frontend/src/components/EditProductForm.jsx:11-18 | The draft has exactly the six draft fields. Each field copies its product value when that value is truthy (the category from `product.category.id`). Otherwise it is `false` for `available` and `""` for the rest. |
| EditProductForm.ZeroInitialisesEmpty | frontend/src/components/EditProductForm.jsx:14-16 | A price or quantity of 0 starts as `""`, and `available: false` stays `false`. |
| EditProductForm.MissingProductDraft | frontend/src/components/EditProductForm.jsx:11-18 | With no product, every field takes its fallback. |
| EditProductForm.InputValue | frontend/src/components/EditProductForm.jsx:38 | A checkbox reports its `checked` state, and every other input its text. |
| EditProductForm.EditForm.HandleChange | frontend/src/components/EditProductForm.jsx:34-40 | The named field gets the input's value. Every other field keeps its presence and its value. |
| EditProductForm.EditForm.constructor | frontend/src/components/EditProductForm.jsx:5-20 | The draft is the initial draft of the product, with no errors, not submitting and no file. |
| EditProductForm.EditForm.SelectImageFile | frontend/src/components/EditProductForm.jsx:223-226 | A chosen file replaces the stored one. An empty choice leaves it unchanged. |
| EditProductForm.UpdateBody | frontend/src/components/EditProductForm.jsx:60-70 | Builds the update body's entries in append order: the six draft fields, then the chosen file under `image` when there is one. Its properties are the three lemmas below. |
| EditProductForm.UpdateBodyLookups | frontend/src/components/EditProductForm.jsx:60-66 | `get` returns the draft's value for each of the six draft fields. |
| EditProductForm.UpdateBodyKeys | frontend/src/components/EditProductForm.jsx:60-70 | The update body's keys are name, description, price, quantity, available and category in that order, plus image last only when a file was chosen. |
| EditProductForm.UpdateBodyImage | frontend/src/components/EditProductForm.jsx:67-70 | `get("image")` returns the chosen file, and nothing when no file was chosen. |
| EditProductForm.EditForm.BeginSubmit | frontend/src/components/EditProductForm.jsx:56-88 | With a product, the submitting flag rises, with no validation. The request targets the product's id, and its body has the ordered keys and the draft values above. With a `null` or `undefined` product, reading `product.id` throws before any request: nothing is sent, the errors become `{}` and the flag drops. |
| EditProductForm.FailureErrors | frontend/src/components/EditProductForm.jsx:85 | The errors after a failure are always a truthy value: the response data, or `{}`. |
| EditProductForm.FailureWithoutResponse | frontend/src/components/EditProductForm.jsx:85 | An error without a `response` leaves `{}`. |
| EditProductForm.ThrownUpdateErrorLeavesNoFieldErrors | frontend/src/components/EditProductForm.jsx:48-51 | The error the update helper throws, which has only a `message`, always leaves `{}`. |
| EditProductForm.EditForm.FinishSubmit | frontend/src/components/EditProductForm.jsx:72-88 | The submitting flag drops on success and on failure. Success negates the refresh flag when there is a setter, and keeps the errors. Failure stores the failure errors and leaves the refresh flag unchanged. |
| Admin.ReplaceById | frontend/src/components/Admin.jsx:24-29 | The length is kept. Every entry with the updated id becomes the updated record stamped with `now`, every other entry is unchanged, and ids stay in place. |
| Admin.ReplaceByIdIdempotent | frontend/src/components/Admin.jsx:24-29 | Repeating the same update changes nothing more. |
| Admin.ReplaceUnknownId | frontend/src/components/Admin.jsx:24-29 | An update whose id is not in the list leaves the list unchanged. |
| Admin.ToggleById | frontend/src/components/Admin.jsx:39-48 | The length is kept. Matching entries get `available` negated and `lastUpdated` stamped, every other entry is unchanged, and ids stay in place. |
| Admin.ToggleTwice | frontend/src/components/Admin.jsx:39-48 | Toggling one id twice restores every availability. Only the second stamp remains on the matching entries. |
| Admin.ByIdUpdatesKeepDistinctIds | frontend/src/components/Admin.jsx:24-48 | Replace and toggle keep a list with distinct ids distinct. |
| Admin.AppendKeepsDistinctIds | frontend/src/components/Admin.jsx:17 | Appending keeps ids distinct iff the new product's id is not already in the list. |
| Admin.SelectView | frontend/src/components/Admin.jsx:60-103 | The add view shows iff adding. The edit view of the edited product shows iff not adding and a product is being edited. The list shows otherwise. |
| Admin.AdminDashboard.constructor | frontend/src/components/Admin.jsx:10-12 | The list is empty, and the list view shows. |
| Admin.AdminDashboard.HandleAddProduct | frontend/src/components/Admin.jsx:14-22 | A created product is appended after all earlier products, and the add view closes. A failure changes neither. |
| Admin.AdminDashboard.HandleUpdateProduct | frontend/src/components/Admin.jsx:24-31 | The list becomes the replace-by-id of the old list, and the editor is always cleared. |
| Admin.AdminDashboard.HandleToggleAvailability | frontend/src/components/Admin.jsx:39-49 | The list becomes the toggle-by-id of the old list. |
| Admin.AdminDashboard.OpenAddForm | frontend/src/components/Admin.jsx:90-91 | Adding starts, and the add view shows whatever is being edited. |
| Admin.AdminDashboard.CancelAdd | frontend/src/components/Admin.jsx:65 | Adding stops, so the add view no longer shows. |
| Admin.AdminDashboard.OpenEditor | frontend/src/components/Admin.jsx:99 | The product becomes the edited one, and the edit view shows it unless adding. |
| Admin.AdminDashboard.CancelEdit | frontend/src/components/Admin.jsx:78 | Nothing is edited any more, and the list shows unless adding. |
| ProductList.ProductListView.constructor | frontend/src/components/ProductList.jsx:10-12 | The sort starts as (name, ascending) on an empty list. |
| ProductList.NextSort | frontend/src/components/ProductList.jsx:26-33 | The clicked column becomes the sort column. The direction flips when it was already the column, and is ascending otherwise. |
| ProductList.NextSortTwice | frontend/src/components/ProductList.jsx:27-28 | Clicking the current column twice restores the direction. |
| ProductList.ProductListView.HandleSort | frontend/src/components/ProductList.jsx:26-33 | The sort state becomes the next sort state for the clicked column. |
| ProductList.KeyLe | frontend/src/components/ProductList.jsx:44-53 | The ascending comparison of two products on a column: numeric keys for price, quantity and id, and the code-point order of the lowercased text otherwise. |
| ProductList.InOrder | frontend/src/components/ProductList.jsx:44-54 | The comparator's "may come first" relation: the ascending comparison for `asc`, and the same comparison with the products swapped for `desc`. |
| ProductList.InOrderTotal | frontend/src/components/ProductList.jsx:44-54 | Any two products are comparable under every column and direction. |
| ProductList.InOrderTransitive | frontend/src/components/ProductList.jsx:44-54 | The comparator's order is transitive. |
| ProductList.InsertMembers | frontend/src/components/ProductList.jsx:43-55 | Inserting adds the product and keeps every product already there, and nothing else. |
| ProductList.InsertPermutes | frontend/src/components/ProductList.jsx:43-55 | Inserting adds exactly one occurrence of the product and removes none. |
| ProductList.SortProducts | frontend/src/components/ProductList.jsx:42-56 | The sorted copy has as many rows as the list. |
| ProductList.SortProductsPermutes | frontend/src/components/ProductList.jsx:42-56 | The sorted rows are a permutation of the list: the same multiset of products. |
| ProductList.InsertSorted | frontend/src/components/ProductList.jsx:43-55 | Inserting into a sorted sequence keeps it sorted. |
| ProductList.SortProductsSorted | frontend/src/components/ProductList.jsx:42-56 | The comparator holds between every earlier row and every later row. |
| ProductList.NumericOrder | frontend/src/components/ProductList.jsx:44-47 | For price, quantity and id, ascending gives non-decreasing keys and descending gives non-increasing keys. |
| ProductList.TextOrder | frontend/src/components/ProductList.jsx:48-53 | Other columns are ordered by their lowercased text, ascending or descending by direction. |
| ProductList.SameKeyTransitive | frontend/src/components/ProductList.jsx:44-54 | Comparing equal is transitive. |
| ProductList.StrictlyBeforeNoCommonTie | frontend/src/components/ProductList.jsx:44-54 | A product the comparator puts strictly before another cannot compare equal to anything the other compares equal to. |
| ProductList.InsertTies | frontend/src/components/ProductList.jsx:43-55 | Insertion puts the product ahead of every product it ties with. |
| ProductList.SortProductsStable | frontend/src/components/ProductList.jsx:43-55 | The sort is stable: products that compare equal appear in their original relative order. |
| ProductList.SortSortedIsIdentity | frontend/src/components/ProductList.jsx:43-55 | A list that is already sorted is shown as it is. |
| ProductList.ProductListView.SortedProducts | frontend/src/components/ProductList.jsx:42-56 | The shown rows are a permutation of the stored list, sorted by the current column and direction. The stored list is not changed. |
| ProductList.RemoveById | frontend/src/components/ProductList.jsx:36 | The result is an order-preserving subsequence with no entry of the id. Every other entry is kept with its multiplicity. A product is in the result iff it was in the list with another id. |
| ProductList.RemoveAbsentId | frontend/src/components/ProductList.jsx:36 | Deleting an id the list does not hold changes nothing. |
| ProductList.RemoveByIdIdempotent | frontend/src/components/ProductList.jsx:36 | Deleting the same id twice is the same as deleting it once. |
| ProductList.ProductListView.HandleDeleteProduct | frontend/src/components/ProductList.jsx:34-38 | A reported deletion removes the id from the list. Any other result leaves the list unchanged. |
| ProductCatalog.AllProducts | frontend/src/components/ProductCatalog.jsx:31 | Lays every category's products end to end, in category order. |
| ProductCatalog.AllProductsMembers | frontend/src/components/ProductCatalog.jsx:31 | A product is in the flattened list iff some category lists it. |
| ProductCatalog.AllProductsAppend | frontend/src/components/ProductCatalog.jsx:31 | Flattening two category lists gives the first's products followed by the second's. |
| ProductCatalog.AllProductsSplit | frontend/src/components/ProductCatalog.jsx:31 | Each category's products appear whole, after the products of all earlier categories and before those of later ones. |
| ProductCatalog.MatchesCategory | frontend/src/components/ProductCatalog.jsx:34 | A product matches when the selected type is "all" or equals its category slug. |
| ProductCatalog.MatchesSearch | frontend/src/components/ProductCatalog.jsx:35 | A product matches when its lowercased name includes the lowercased query. |
| ProductCatalog.IsAvailable | frontend/src/components/ProductCatalog.jsx:36 | A product is available unless its `available` value is exactly `false`. |
| ProductCatalog.Shown | frontend/src/components/ProductCatalog.jsx:33-37 | The filter callback: a product is shown when it passes all three tests above. |
| ProductCatalog.FilteredProducts | frontend/src/components/ProductCatalog.jsx:33-38 | The result is an order-preserving subsequence of all products, and every result passes the three tests. A product is in the result iff it is in the catalog and passes all three tests. A passing product appears as many times as in the catalog, and a failing one never. |
| ProductCatalog.ShownPassesEachTest | frontend/src/components/ProductCatalog.jsx:33-38 | With a type other than "all", every result has that slug. Every result's lowercased name includes the lowercased query, and no result has `available` exactly `false`. |
| ProductCatalog.WildcardAndEmptySearch | frontend/src/components/ProductCatalog.jsx:34-35 | "all" passes every category, and an empty query passes every name. |
| ProductCatalog.InitialFilterKeepsAvailable | frontend/src/components/ProductCatalog.jsx:11-12 | With the initial "all" and an empty query, the grid shows exactly the products not marked unavailable, in catalog order. |
| ProductCatalog.MissingAvailabilityIsShown | frontend/src/components/ProductCatalog.jsx:36 | A product with no `available` value passes the availability test. |
| ProductCatalog.Stock | frontend/src/components/ProductCatalog.jsx:128 | Green iff the quantity is above 10, yellow iff it is 1..10, red iff it is at most 0. |
| ProductCatalog.StockMonotone | frontend/src/components/ProductCatalog.jsx:128 | More stock never gives a worse band. |
| Login.UsernameError | frontend/src/components/Login.jsx:16-24 | "Please enter your name" iff the name is all white space. The length message iff it is not blank but the trimmed name is shorter than 2 UTF-16 code units. No error iff the trimmed name has at least 2 UTF-16 code units. |
| Login.SingleCharacterTooShort | frontend/src/components/Login.jsx:21-24 | A single non-blank character from the Basic Multilingual Plane gets "Name must be at least 2 characters long". |
| Login.AstralCharacterAccepted | frontend/src/components/Login.jsx:21-24 | A single character outside the Basic Multilingual Plane is two UTF-16 code units long, so it passes. |
| Login.NonBlankEndsAccepted | frontend/src/components/Login.jsx:16-24 | A name of at least two characters that starts and ends with non-blank characters passes, whatever lies between. |
| Login.LoginForm.constructor | frontend/src/components/Login.jsx:7-9 | The form starts with an empty name, no error and not loading. |
| Login.LoginForm.SetUsername | frontend/src/components/Login.jsx:58 | The name becomes the typed text. |
| Login.LoginForm.Submit | frontend/src/components/Login.jsx:12-27 | A failed check leaves its message, sends nothing and leaves the loading flag unchanged. Otherwise the error is cleared, loading starts, and the untrimmed name is sent. |
| Login.LoginForm.FinishLogin | frontend/src/components/Login.jsx:27-37 | Loading stops either way. A failure sets "Failed to login. Please try again." and a success leaves the error unchanged. |
| Strings.Trim | frontend/src/components/Login.jsx:16 | The trim is empty iff the string is all white space. Otherwise it starts and ends with non-blank characters. |
| Strings.TrimIsSlice | frontend/src/components/Login.jsx:16 | The trim is a contiguous slice of the string, and everything cut before and after it is white space. |
| Strings.TrimTrailingWhitespace | frontend/src/components/AddProductForm.jsx:34 | A string with non-blank ends followed by one white-space character trims back to the string. |
| Strings.Utf16Length | frontend/src/components/Login.jsx:21 | The UTF-16 length is at least the number of code points and at most twice it. |
| Strings.Utf16LengthBmp | frontend/src/components/Login.jsx:21 | A string of Basic Multilingual Plane characters has one UTF-16 code unit per character. |
| Strings.TrimIdempotent | frontend/src/components/AddProductForm.jsx:31 | Trimming twice is trimming once. |
| Strings.NoWhitespaceTrim | frontend/src/components/Login.jsx:16 | A non-empty string with non-blank ends is its own trim. |
| Strings.ToLower | frontend/src/components/ProductCatalog.jsx:35 | Lowercasing keeps the length and lowers each ASCII letter in place. |
| Strings.ToLowerIdempotent | frontend/src/components/ProductList.jsx:49-50 | A lowered string has no upper-case ASCII letter, and lowering it again changes nothing. |
| Strings.Contains | frontend/src/components/ProductCatalog.jsx:35 | `includes`: the needle is a prefix of the string or of one of its suffixes. |
| Strings.ContainsIffOccurs | frontend/src/components/ProductCatalog.jsx:35 | `includes` holds iff the needle occurs at some offset. |
| Strings.ContainsEmptyAndSelf | frontend/src/components/ProductCatalog.jsx:35 | Every string includes "" and itself. |
| Strings.LexLe | frontend/src/components/ProductList.jsx:52-53 | The text order standing for `localeCompare(…) <= 0`: code-point order, with a proper prefix first. |
| Strings.LexLeTotal | frontend/src/components/ProductList.jsx:52-53 | Any two strings are ordered one way or the other. |
| Strings.LexLeTransitive | frontend/src/components/ProductList.jsx:52-53 | The text order is transitive. |
| Strings.LexLeAntisymmetric | frontend/src/components/ProductList.jsx:52-53 | Strings ordered both ways are equal. |
| Numbers.ParseNumber | frontend/src/components/AddProductForm.jsx:35 | A blank string reads as 0, and an unsigned literal never reads as a negative number. |
| Numbers.ParseDecimalString | frontend/src/components/AddProductForm.jsx:35 | The decimal text of a natural number reads back as that number. |
| Numbers.ParseNegativeDecimalString | frontend/src/components/AddProductForm.jsx:35 | The text of a negated natural number reads back as its negation. |
| Numbers.ParsePaddedDecimalString | frontend/src/components/AddProductForm.jsx:35 | A natural's decimal text followed by white space still reads as that number. |
| Numbers.DecimalValue | frontend/src/components/AddProductForm.jsx:35 | A literal's value lies between its whole part and the next integer, and equals its whole part iff the fraction digits are all zero. |
| Numbers.ParseDecimalFraction | frontend/src/components/AddProductForm.jsx:35 | A natural's decimal text, a point and fraction digits reads as the literal's value. |
| Numbers.IsInteger | frontend/src/components/AddProductForm.jsx:44 | `Number.isInteger` on a parsed value: the value equals its floor. |
| Numbers.ParseFractionExample | frontend/src/components/AddProductForm.jsx:42-44 | "3.5" reads as 3.5, which is not an integer. |
| Seqs.Filter | frontend/src/components/ProductCatalog.jsx:33 | The filter keeps an order-preserving subsequence whose elements all pass. Each passing value keeps its multiplicity and each failing one is dropped. |
| Seqs.FilterAppend | frontend/src/components/ProductCatalog.jsx:33 | Filtering distributes over concatenation. |
| Seqs.FilterAll | frontend/src/components/ProductList.jsx:36 | A filter every element passes changes nothing. |
| Seqs.FilterSameKeep | frontend/src/components/ProductCatalog.jsx:33-37 | Two tests that agree on every value filter every list alike. |
| Seqs.FilterCons | frontend/src/components/ProductCatalog.jsx:33 | Filtering a list keeps its head exactly when the head passes, followed by the filtered rest. |
| FormData.GetFirstOccurrence | frontend/src/components/AddProductForm.jsx:58-68 | `get` answers the entry at the first position holding the key. |
| FormData.GetAbsent | frontend/src/components/AddProductForm.jsx:66-68 | `get` answers nothing iff no entry holds the key. |
| JsValues.Truthy | frontend/src/components/AddProductForm.jsx:49 | JavaScript truthiness: `undefined`, `null`, `false`, `0` and `""` are falsy, and every other value is truthy. |
| JsValues.Or | frontend/src/components/EditProductForm.jsx:12-17 | JavaScript's or-operator gives its left operand when that is truthy and its right operand otherwise. The result is truthy iff either operand is. |
| JsValues.Prop | frontend/src/components/EditProductForm.jsx:17 | `v?.key` is undefined for a non-object and for a missing property, and the property's value when present. |

## Left out

- HTTP, tokens and `localStorage` are not modelled (`fetch`, `axios`, bearer headers, the `api/fetch.jsx` helpers). Each request is returned by the handler that would send it. Each response is a parameter of the `Finish…` method, as a success or failure. The login request's token storage and navigation are not modelled.
- The Django backend (models, serializers, views, URLs) is not part of this model.
- Rendering and routing are not modelled. `AddForm.image` holds the preview, but only its reset to `""` after a create is modelled. The `FileReader` updates of the previews (`AddProductForm.jsx:186-192`, `EditProductForm.jsx:75-79`, `EditProductForm.jsx:223-230`) are not, and the edit form's `image` state is not a field of the model. Neither are the catalog's contact popup and the category selector's option list.
- `Intl` currency and date formatting (`formatCurrency`, `formatDate`, `toLocaleString`) is not modelled.
- The component's data loading is not modelled. This covers `fetchAllProducts` in the product table, `fetchCategoriesWithProducts` in the catalog, and the edit form's category list. The catalog and table take their lists as inputs. `AddForm.LoadCategories` takes the loaded list as a parameter, and a `null` result (no token) is not modelled.
- NaN is not a value of `JsValues.JsValue`: numbers are exact rationals. `Number()` giving NaN is modelled only as the `None` result of Numbers.ParseNumber, and no component stores NaN.
- Numbers.ParseNumber: reads only decimal literals. Hexadecimal, binary and octal literals, exponents and `Infinity` read as NaN here, although JavaScript's `Number()` accepts them. Prices are exact rationals, not floating point.
- Strings.ToLower: lowers ASCII letters only. JavaScript lowercases all of Unicode.
- Strings.LexLe: `localeCompare` is modelled as code-point order, not locale collation, and strings are sequences of code points rather than UTF-16 units.
- ProductList.SortProducts: sorts only the columns the model names (id, name, description, price, quantity, lastUpdated). The comparator on other properties, and on values that are not numbers or strings, is not modelled. The model's keys are typed.
- ProductList.SortProducts: assumes the engine's sort is stable and consistent, as ES2019 requires. The model fixes the one stable order.
- Admin.AdminDashboard.HandleAddProduct: `None` stands for a rejected `addProduct`. The helper shown in `api/fetch.jsx` catches its own errors and resolves to `undefined` instead, which the dashboard would then append. Appending `undefined` is not modelled, because the model's list holds only products.
- The dashboard's delete handler (`Admin.jsx:33-37`) and the table's mobile delete button (`ProductList.jsx:188-196`) refer to undefined names (`setTodos`, `product`, `todo`, `handleDeleteTodo`). They are not modelled.
- The wiring between the components is not modelled; each component's handlers are modelled in isolation. This covers `onSubmit`, which the edit form does not read, and `products`, which the table does not read. The add form receives `onSubmit` (`AddProductForm.jsx:5`) but never calls it, and the table reads only `onEdit` (`ProductList.jsx:9`), so the `onToggleAvailability` that `Admin.jsx:100` passes is never used. In the app as wired, `Admin.AdminDashboard.HandleAddProduct` and `Admin.AdminDashboard.HandleToggleAvailability` are therefore never reached; the model states what they would do if called.
- EditProductForm.EditForm.BeginSubmit: values are stored as the JavaScript values given, not as the strings `FormData.append` converts them to. The `instanceof File` test is taken to hold for every chosen file. The `TypeError` thrown for a missing product is modelled by an error value with a `message` and no `response`.
- AddProductForm.CreatePayload: values are stored as the JavaScript values given, not as strings. So `get("available")` answers `true` rather than `"true"`, and `get("category")` answers the selected value itself. The same holds for AddProductForm.CreatePayloadLookups.
- Async ordering, overlapping submits and stale responses are not modelled.
