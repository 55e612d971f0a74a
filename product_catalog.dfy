/**
 * The public catalog: every category's products laid end to end, narrowed
 * to the selected category slug, the search text and the products not
 * marked unavailable; and the colour band of a product's stock.
 */
module ProductCatalog {
  import opened JsValues
  import opened Strings
  import opened Seqs

  /** A product as the category listing nests it; `available` may be missing (`Undefined`). */
  datatype CatalogProduct = CatalogProduct(
    id: int,
    name: string,
    description: string,
    price: real,
    quantity: int,
    categorySlug: string,
    available: JsValue)

  datatype CategoryWithProducts = CategoryWithProducts(id: int, name: string, slug: string, products: seq<CatalogProduct>)

  /** The category selector's initial value, which matches every product. */
  const AllTypes: string := "all"

  /** `categories.flatMap(cat => cat.products)`. */
  function AllProducts(categories: seq<CategoryWithProducts>): seq<CatalogProduct>
  {
    if categories == [] then [] else categories[0].products + AllProducts(categories[1..])
  }

  /** The flattening keeps category order: the categories of two lists come one list after the other. */
  lemma {:induction false} AllProductsAppend(a: seq<CategoryWithProducts>, b: seq<CategoryWithProducts>)
    ensures AllProducts(a + b) == AllProducts(a) + AllProducts(b)
  {
    if a == [] {
      assert a + b == b;
    } else {
      assert (a + b)[1..] == a[1..] + b;
      AllProductsAppend(a[1..], b);
    }
  }

  /** A product is in the flattened list exactly when some category lists it. */
  lemma {:induction false} AllProductsMembers(categories: seq<CategoryWithProducts>, p: CatalogProduct)
    ensures p in AllProducts(categories) <==> exists i :: 0 <= i < |categories| && p in categories[i].products
  {
    if categories != [] {
      var rest := categories[1..];
      AllProductsMembers(rest, p);
      if p in AllProducts(rest) {
        var i :| 0 <= i < |rest| && p in rest[i].products;
        assert p in categories[i + 1].products;
      }
      if exists i :: 0 <= i < |categories| && p in categories[i].products {
        var i :| 0 <= i < |categories| && p in categories[i].products;
        if i > 0 {
          assert p in rest[i - 1].products;
        }
      }
    }
  }

  /** Each category's products appear whole, after those of the categories before it. */
  lemma AllProductsSplit(categories: seq<CategoryWithProducts>, k: nat)
    requires k < |categories|
    ensures AllProducts(categories)
      == AllProducts(categories[..k]) + categories[k].products + AllProducts(categories[k + 1..])
  {
    assert categories == categories[..k] + categories[k..];
    AllProductsAppend(categories[..k], categories[k..]);
    assert categories[k..][1..] == categories[k + 1..];
  }

  /** `selectedType === "all" || product.category_slug === selectedType`: any slug with "all", otherwise only the selected one. */
  predicate MatchesCategory(selectedType: string, p: CatalogProduct)
  {
    selectedType == AllTypes || p.categorySlug == selectedType
  }

  /** `product.name.toLowerCase().includes(searchQuery.toLowerCase())`. */
  predicate MatchesSearch(searchQuery: string, p: CatalogProduct)
  {
    Contains(ToLower(p.name), ToLower(searchQuery))
  }

  /** `product.available !== false`. */
  predicate IsAvailable(p: CatalogProduct)
  {
    p.available != Bool(false)
  }

  /** The three tests a product must pass to be shown in the grid. */
  predicate Shown(selectedType: string, searchQuery: string, p: CatalogProduct)
  {
    MatchesCategory(selectedType, p) && MatchesSearch(searchQuery, p) && IsAvailable(p)
  }

  /** The products the catalog grid shows. */
  function FilteredProducts(categories: seq<CategoryWithProducts>, selectedType: string, searchQuery: string)
    : (r: seq<CatalogProduct>)
    ensures IsSubsequence(r, AllProducts(categories))
    ensures forall i :: 0 <= i < |r| ==> Shown(selectedType, searchQuery, r[i])
    ensures forall p :: p in r <==> p in AllProducts(categories) && Shown(selectedType, searchQuery, p)
    ensures forall p :: multiset(r)[p] == if Shown(selectedType, searchQuery, p) then multiset(AllProducts(categories))[p] else 0
  {
    var all := AllProducts(categories);
    var r := Filter(all, p => Shown(selectedType, searchQuery, p));
    assert forall p :: p in r <==> multiset(r)[p] > 0;
    r
  }

  /** Each shown product has the selected slug (unless "all"), a name including the search text, and is not marked unavailable. */
  lemma ShownPassesEachTest(categories: seq<CategoryWithProducts>, selectedType: string, searchQuery: string)
    ensures var r := FilteredProducts(categories, selectedType, searchQuery);
      && (forall i :: 0 <= i < |r| ==> selectedType != AllTypes ==> r[i].categorySlug == selectedType)
      && (forall i :: 0 <= i < |r| ==> Contains(ToLower(r[i].name), ToLower(searchQuery)))
      && (forall i :: 0 <= i < |r| ==> r[i].available != Bool(false))
  {
  }

  /** The wildcard lets every category through, and an empty search matches every name. */
  lemma WildcardAndEmptySearch(p: CatalogProduct)
    ensures MatchesCategory(AllTypes, p)
    ensures MatchesSearch("", p)
  {
    ContainsEmptyAndSelf(ToLower(p.name));
  }

  /** With the initial selector and search, the grid shows every product not marked unavailable. */
  lemma InitialFilterKeepsAvailable(categories: seq<CategoryWithProducts>)
    ensures FilteredProducts(categories, AllTypes, "") == Filter(AllProducts(categories), IsAvailable)
  {
    forall p: CatalogProduct
      ensures Shown(AllTypes, "", p) == IsAvailable(p)
    {
      WildcardAndEmptySearch(p);
    }
    FilterSameKeep(AllProducts(categories), p => Shown(AllTypes, "", p), IsAvailable);
  }

  /** A product whose `available` is missing is shown when it matches the selector and the search. */
  lemma MissingAvailabilityIsShown(p: CatalogProduct, selectedType: string, searchQuery: string)
    requires p.available == Undefined
    ensures Shown(selectedType, searchQuery, p) <==> MatchesCategory(selectedType, p) && MatchesSearch(searchQuery, p)
  {
  }

  /** The colour of the stock line. */
  datatype StockBand = Green | Yellow | Red

  /** `quantity > 10 ? green : quantity > 0 ? yellow : red`. */
  function Stock(quantity: int): (b: StockBand)
    ensures b == Green <==> quantity > 10
    ensures b == Yellow <==> 0 < quantity <= 10
    ensures b == Red <==> quantity <= 0
  {
    if quantity > 10 then Green else if quantity > 0 then Yellow else Red
  }

  /** More stock never gives a worse band. */
  lemma StockMonotone(a: int, b: int)
    requires a <= b
    ensures Stock(a) == Green ==> Stock(b) == Green
    ensures Stock(b) == Red ==> Stock(a) == Red
  {
  }
}
