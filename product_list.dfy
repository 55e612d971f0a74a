/**
 * The admin product table: the sort column and direction a header click
 * updates, the order the table shows (a stable sort of a copy of the list by
 * the comparator of the current column and direction) and the removal of a
 * product after a successful delete.
 */
module ProductList {
  import opened Products
  import opened Strings
  import opened Seqs

  /** The product properties the table can sort by. */
  datatype Column = IdColumn | NameColumn | DescriptionColumn | PriceColumn | QuantityColumn | LastUpdatedColumn

  datatype Direction = Asc | Desc

  /** `["price", "quantity", "id"].includes(sortField)`: these columns compare by subtraction. */
  predicate IsNumeric(c: Column)
  {
    c == IdColumn || c == PriceColumn || c == QuantityColumn
  }

  /** The number a numeric column subtracts. */
  function NumericKey(p: Product, c: Column): real
  {
    match c
    case IdColumn => p.id as real
    case QuantityColumn => p.quantity as real
    case _ => p.price
  }

  /** `String(p[sortField]).toLowerCase()` for a text column. */
  function TextKey(p: Product, c: Column): string
  {
    ToLower(match c
      case DescriptionColumn => p.description
      case LastUpdatedColumn => p.lastUpdated
      case _ => p.name)
  }

  /** `a` may stand before `b` in ascending order of the column: the comparator is not positive. */
  predicate KeyLe(c: Column, a: Product, b: Product)
  {
    if IsNumeric(c) then NumericKey(a, c) <= NumericKey(b, c) else LexLe(TextKey(a, c), TextKey(b, c))
  }

  /** The comparator of the column and direction does not put `b` strictly before `a`. */
  predicate InOrder(c: Column, d: Direction, a: Product, b: Product)
  {
    if d == Asc then KeyLe(c, a, b) else KeyLe(c, b, a)
  }

  /** The comparator compares the two as equal. */
  predicate SameKey(c: Column, a: Product, b: Product)
  {
    KeyLe(c, a, b) && KeyLe(c, b, a)
  }

  lemma InOrderTotal(c: Column, d: Direction, a: Product, b: Product)
    ensures InOrder(c, d, a, b) || InOrder(c, d, b, a)
  {
    if !IsNumeric(c) {
      LexLeTotal(TextKey(a, c), TextKey(b, c));
    }
  }

  lemma InOrderTransitive(c: Column, d: Direction, a: Product, b: Product, e: Product)
    requires InOrder(c, d, a, b) && InOrder(c, d, b, e)
    ensures InOrder(c, d, a, e)
  {
    if !IsNumeric(c) {
      if d == Asc {
        LexLeTransitive(TextKey(a, c), TextKey(b, c), TextKey(e, c));
      } else {
        LexLeTransitive(TextKey(e, c), TextKey(b, c), TextKey(a, c));
      }
    }
  }

  /** Every product stands in order with every later one. */
  predicate Sorted(c: Column, d: Direction, s: seq<Product>)
  {
    forall i, j :: 0 <= i < j < |s| ==> InOrder(c, d, s[i], s[j])
  }

  /**
   * Inserts `p` ahead of a sorted sequence of products that came after it in
   * the input: before the first one it is in order with, so that it stays
   * ahead of every product it compares equal to.
   */
  function Insert(c: Column, d: Direction, p: Product, s: seq<Product>): (r: seq<Product>)
    ensures |r| == |s| + 1
  {
    if s == [] then [p]
    else if InOrder(c, d, p, s[0]) then [p] + s
    else
      assert s == [s[0]] + s[1..];
      [s[0]] + Insert(c, d, p, s[1..])
  }

  /** The inserted product joins the products already there, and none is lost. */
  lemma {:induction false} InsertMembers(c: Column, d: Direction, p: Product, s: seq<Product>)
    ensures forall x :: x in Insert(c, d, p, s) <==> x == p || x in s
  {
    if s != [] && !InOrder(c, d, p, s[0]) {
      var a, t := s[0], s[1..];
      InsertMembers(c, d, p, t);
      assert Insert(c, d, p, s) == [a] + Insert(c, d, p, t);
      assert s == [a] + t;
    }
  }

  /** Inserting adds exactly one occurrence of the product and removes nothing. */
  lemma {:induction false} InsertPermutes(c: Column, d: Direction, p: Product, s: seq<Product>)
    ensures multiset(Insert(c, d, p, s)) == multiset(s) + multiset{p}
  {
    if s == [] {
      assert Insert(c, d, p, s) == [p];
    } else if InOrder(c, d, p, s[0]) {
      assert Insert(c, d, p, s) == [p] + s;
    } else {
      var a, t := s[0], s[1..];
      var u := Insert(c, d, p, t);
      assert Insert(c, d, p, s) == [a] + u;
      InsertPermutes(c, d, p, t);
      assert multiset([a] + u) == multiset{a} + multiset(u);
      assert s == [a] + t;
      assert multiset(s) == multiset{a} + multiset(t);
    }
  }

  /** `[...products].sort(comparator)`: a stable sort of a copy of the list. */
  function SortProducts(c: Column, d: Direction, ps: seq<Product>): (r: seq<Product>)
    ensures |r| == |ps|
  {
    if ps == [] then [] else Insert(c, d, ps[0], SortProducts(c, d, ps[1..]))
  }

  /** The sorted rows are a permutation of the list. */
  lemma {:induction false} SortProductsPermutes(c: Column, d: Direction, ps: seq<Product>)
    ensures multiset(SortProducts(c, d, ps)) == multiset(ps)
  {
    if ps != [] {
      SortProductsPermutes(c, d, ps[1..]);
      InsertPermutes(c, d, ps[0], SortProducts(c, d, ps[1..]));
      assert ps == [ps[0]] + ps[1..];
    }
  }

  lemma SortedTail(c: Column, d: Direction, s: seq<Product>)
    requires s != [] && Sorted(c, d, s)
    ensures Sorted(c, d, s[1..])
    ensures forall x :: x in s[1..] ==> InOrder(c, d, s[0], x)
  {
    var t := s[1..];
    forall i, j | 0 <= i < j < |t|
      ensures InOrder(c, d, t[i], t[j])
    {
      assert t[i] == s[i + 1] && t[j] == s[j + 1];
    }
    forall x | x in t
      ensures InOrder(c, d, s[0], x)
    {
      var k :| 0 <= k < |t| && t[k] == x;
      assert s[k + 1] == x;
    }
  }

  lemma SortedCons(c: Column, d: Direction, a: Product, u: seq<Product>)
    requires Sorted(c, d, u)
    requires forall x :: x in u ==> InOrder(c, d, a, x)
    ensures Sorted(c, d, [a] + u)
  {
    var r := [a] + u;
    forall i, j | 0 <= i < j < |r|
      ensures InOrder(c, d, r[i], r[j])
    {
      assert r[j] == u[j - 1];
      if i > 0 {
        assert r[i] == u[i - 1];
      }
    }
  }

  lemma {:induction false} InsertSorted(c: Column, d: Direction, p: Product, s: seq<Product>)
    requires Sorted(c, d, s)
    ensures Sorted(c, d, Insert(c, d, p, s))
  {
    if s == [] {
    } else if InOrder(c, d, p, s[0]) {
      SortedTail(c, d, s);
      forall x | x in s
        ensures InOrder(c, d, p, x)
      {
        if x != s[0] {
          assert x in s[1..] by {
            assert s == [s[0]] + s[1..];
          }
          InOrderTransitive(c, d, p, s[0], x);
        }
      }
      SortedCons(c, d, p, s);
    } else {
      var a, t := s[0], s[1..];
      SortedTail(c, d, s);
      InsertSorted(c, d, p, t);
      InOrderTotal(c, d, p, a);
      var u := Insert(c, d, p, t);
      InsertMembers(c, d, p, t);
      SortedCons(c, d, a, u);
    }
  }

  /** The comparator holds between every earlier and every later product of the result. */
  lemma {:induction false} SortProductsSorted(c: Column, d: Direction, ps: seq<Product>)
    ensures Sorted(c, d, SortProducts(c, d, ps))
  {
    if ps != [] {
      SortProductsSorted(c, d, ps[1..]);
      InsertSorted(c, d, ps[0], SortProducts(c, d, ps[1..]));
    }
  }

  /** Numeric columns: ascending gives non-decreasing keys, descending non-increasing ones. */
  lemma NumericOrder(c: Column, d: Direction, ps: seq<Product>)
    requires IsNumeric(c)
    ensures var r := SortProducts(c, d, ps);
      forall i, j :: 0 <= i < j < |r| ==>
        if d == Asc then NumericKey(r[i], c) <= NumericKey(r[j], c) else NumericKey(r[i], c) >= NumericKey(r[j], c)
  {
    SortProductsSorted(c, d, ps);
  }

  /** Text columns: the lowercased values in lexicographic order, reversed for descending. */
  lemma TextOrder(c: Column, d: Direction, ps: seq<Product>)
    requires !IsNumeric(c)
    ensures var r := SortProducts(c, d, ps);
      forall i, j :: 0 <= i < j < |r| ==>
        if d == Asc then LexLe(TextKey(r[i], c), TextKey(r[j], c)) else LexLe(TextKey(r[j], c), TextKey(r[i], c))
  {
    SortProductsSorted(c, d, ps);
  }

  lemma SameKeyTransitive(c: Column, a: Product, b: Product, e: Product)
    requires SameKey(c, a, b) && SameKey(c, b, e)
    ensures SameKey(c, a, e)
  {
    InOrderTransitive(c, Asc, a, b, e);
    InOrderTransitive(c, Asc, e, b, a);
  }

  /** The products comparing equal to `q`, in their order in `s`. */
  function Ties(c: Column, q: Product, s: seq<Product>): seq<Product>
  {
    if s == [] then []
    else (if SameKey(c, s[0], q) then [s[0]] else []) + Ties(c, q, s[1..])
  }

  lemma TiesCons(c: Column, q: Product, p: Product, s: seq<Product>)
    ensures Ties(c, q, [p] + s) == (if SameKey(c, p, q) then [p] else []) + Ties(c, q, s)
  {
    assert ([p] + s)[1..] == s;
  }

  /** A product the comparator puts strictly before `p` cannot tie with anything `p` ties with. */
  lemma StrictlyBeforeNoCommonTie(c: Column, d: Direction, p: Product, a: Product, q: Product)
    requires !InOrder(c, d, p, a)
    ensures !(SameKey(c, a, q) && SameKey(c, p, q))
  {
    if SameKey(c, a, q) && SameKey(c, p, q) {
      SameKeyTransitive(c, p, q, a);
    }
  }

  /** Two prefixes of which one is empty can be put in either order. */
  lemma SwapEmptyPrefix(x: seq<Product>, y: seq<Product>, rest: seq<Product>)
    requires x == [] || y == []
    ensures x + (y + rest) == y + (x + rest)
  {
    if x == [] {
      assert x + (y + rest) == y + rest == y + (x + rest);
    } else {
      assert x + (y + rest) == x + rest == y + (x + rest);
    }
  }

  lemma {:induction false} InsertTies(c: Column, d: Direction, p: Product, q: Product, s: seq<Product>)
    ensures Ties(c, q, Insert(c, d, p, s)) == Ties(c, q, [p] + s)
  {
    if s != [] && !InOrder(c, d, p, s[0]) {
      var a, t := s[0], s[1..];
      var inserted := Insert(c, d, p, t);
      assert s == [a] + t;
      assert Insert(c, d, p, s) == [a] + inserted;
      var tp := if SameKey(c, p, q) then [p] else [];
      var ta := if SameKey(c, a, q) then [a] else [];
      var rest := Ties(c, q, t);
      InsertTies(c, d, p, q, t);
      TiesCons(c, q, a, inserted);
      TiesCons(c, q, p, t);
      assert Ties(c, q, Insert(c, d, p, s)) == ta + (tp + rest);
      TiesCons(c, q, a, t);
      TiesCons(c, q, p, s);
      assert Ties(c, q, [p] + s) == tp + (ta + rest);
      StrictlyBeforeNoCommonTie(c, d, p, a, q);
      SwapEmptyPrefix(ta, tp, rest);
    }
  }

  /** The sort is stable: products that compare equal keep their relative order. */
  lemma {:induction false} SortProductsStable(c: Column, d: Direction, q: Product, ps: seq<Product>)
    ensures Ties(c, q, SortProducts(c, d, ps)) == Ties(c, q, ps)
  {
    if ps != [] {
      var t := ps[1..];
      assert ps == [ps[0]] + t;
      SortProductsStable(c, d, q, t);
      InsertTies(c, d, ps[0], q, SortProducts(c, d, t));
      TiesCons(c, q, ps[0], SortProducts(c, d, t));
      TiesCons(c, q, ps[0], t);
    }
  }

  /** A sorted list is left as it is. */
  lemma {:induction false} SortSortedIsIdentity(c: Column, d: Direction, ps: seq<Product>)
    requires Sorted(c, d, ps)
    ensures SortProducts(c, d, ps) == ps
  {
    if ps != [] {
      var t := ps[1..];
      assert Sorted(c, d, t) by {
        forall i, j | 0 <= i < j < |t|
          ensures InOrder(c, d, t[i], t[j])
        {
          assert t[i] == ps[i + 1] && t[j] == ps[j + 1];
        }
      }
      SortSortedIsIdentity(c, d, t);
      if t != [] {
        assert InOrder(c, d, ps[0], t[0]) by {
          assert t[0] == ps[1];
        }
      }
      assert ps == [ps[0]] + t;
    }
  }

  /** `handleSort(clicked)`: the same column flips the direction, another one is sorted ascending. */
  function NextSort(column: Column, direction: Direction, clicked: Column): (r: (Column, Direction))
    ensures r.0 == clicked
    ensures clicked == column ==> r.1 != direction
    ensures clicked != column ==> r.1 == Asc
  {
    if clicked == column then (column, if direction == Asc then Desc else Asc) else (clicked, Asc)
  }

  /** Clicking the current column twice restores the direction. */
  lemma NextSortTwice(column: Column, direction: Direction)
    ensures var (c1, d1) := NextSort(column, direction, column); NextSort(c1, d1, column) == (column, direction)
  {
  }

  /** `products.filter(p => p.id !== id)`: exactly the products with another id, in their order. */
  function RemoveById(ps: seq<Product>, id: int): (r: seq<Product>)
    ensures IsSubsequence(r, ps)
    ensures forall i :: 0 <= i < |r| ==> r[i].id != id
    ensures forall p: Product :: p.id != id ==> multiset(r)[p] == multiset(ps)[p]
    ensures forall p: Product :: p in r <==> p in ps && p.id != id
  {
    var r := Filter(ps, (p: Product) => p.id != id);
    assert forall p: Product :: p in r <==> multiset(r)[p] > 0;
    r
  }

  /** Deleting an id the list does not hold changes nothing, so a second delete is a no-op. */
  lemma RemoveAbsentId(ps: seq<Product>, id: int)
    requires forall i :: 0 <= i < |ps| ==> ps[i].id != id
    ensures RemoveById(ps, id) == ps
  {
    FilterAll(ps, (p: Product) => p.id != id);
  }

  lemma RemoveByIdIdempotent(ps: seq<Product>, id: int)
    ensures RemoveById(RemoveById(ps, id), id) == RemoveById(ps, id)
  {
    RemoveAbsentId(RemoveById(ps, id), id);
  }

  class ProductListView {
    var sortField: Column
    var sortDirection: Direction
    var products: seq<Product>

    constructor ()
      ensures sortField == NameColumn && sortDirection == Asc && products == []
    {
      sortField := NameColumn;
      sortDirection := Asc;
      products := [];
    }

    /** A header click. */
    method HandleSort(clicked: Column)
      modifies this`sortField, this`sortDirection
      ensures (sortField, sortDirection) == NextSort(old(sortField), old(sortDirection), clicked)
    {
      if clicked == sortField {
        sortDirection := if sortDirection == Asc then Desc else Asc;
      } else {
        sortField := clicked;
        sortDirection := Asc;
      }
    }

    /** `handleDeleteProduct` once `deleteProduct` has settled; `deleted` is its truthy result. */
    method HandleDeleteProduct(id: int, deleted: bool)
      modifies this`products
      ensures products == if deleted then RemoveById(old(products), id) else old(products)
    {
      if deleted {
        products := RemoveById(products, id);
      }
    }

    /** The rows in display order: the stored list, sorted, as a new sequence. */
    function SortedProducts(): (r: seq<Product>)
      reads this
      ensures multiset(r) == multiset(products)
      ensures Sorted(sortField, sortDirection, r)
    {
      SortProductsPermutes(sortField, sortDirection, products);
      SortProductsSorted(sortField, sortDirection, products);
      SortProducts(sortField, sortDirection, products)
    }
  }
}
