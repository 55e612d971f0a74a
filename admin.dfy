/**
 * The admin dashboard: the product list it keeps, the three list updates
 * its handlers perform (append a created product, replace a product by id,
 * flip a product's availability by id) and the choice between the add
 * form, the edit form and the list.
 */
module Admin {
  import opened Wrappers
  import opened Products

  /**
   * `products.map(p => p.id === updated.id ? { ...updated, lastUpdated: now } : p)`:
   * every product with the updated id is replaced by the stamped record.
   */
  function ReplaceById(ps: seq<Product>, updated: Product, now: string): (r: seq<Product>)
    ensures |r| == |ps|
    ensures forall i :: 0 <= i < |ps| && ps[i].id == updated.id ==> r[i] == updated.(lastUpdated := now)
    ensures forall i :: 0 <= i < |ps| && ps[i].id != updated.id ==> r[i] == ps[i]
    ensures forall i :: 0 <= i < |ps| ==> r[i].id == ps[i].id
  {
    if ps == [] then []
    else [if ps[0].id == updated.id then updated.(lastUpdated := now) else ps[0]] + ReplaceById(ps[1..], updated, now)
  }

  /**
   * `products.map(p => p.id === id ? { ...p, available: !p.available, lastUpdated: now } : p)`.
   */
  function ToggleById(ps: seq<Product>, id: int, now: string): (r: seq<Product>)
    ensures |r| == |ps|
    ensures forall i :: 0 <= i < |ps| && ps[i].id == id ==>
      r[i] == ps[i].(available := !ps[i].available, lastUpdated := now)
    ensures forall i :: 0 <= i < |ps| && ps[i].id != id ==> r[i] == ps[i]
    ensures forall i :: 0 <= i < |ps| ==> r[i].id == ps[i].id
  {
    if ps == [] then []
    else
      [if ps[0].id == id then ps[0].(available := !ps[0].available, lastUpdated := now) else ps[0]]
      + ToggleById(ps[1..], id, now)
  }

  /** No two products of the list share an id. */
  predicate DistinctIds(ps: seq<Product>)
  {
    forall i, j :: 0 <= i < j < |ps| ==> ps[i].id != ps[j].id
  }

  /** Replacing with the same record and stamp a second time changes nothing more. */
  lemma {:induction false} ReplaceByIdIdempotent(ps: seq<Product>, updated: Product, now: string)
    ensures ReplaceById(ReplaceById(ps, updated, now), updated, now) == ReplaceById(ps, updated, now)
  {
    if ps != [] {
      ReplaceByIdIdempotent(ps[1..], updated, now);
    }
  }

  /** An update for an id the list does not hold leaves the list as it was. */
  lemma {:induction false} ReplaceUnknownId(ps: seq<Product>, updated: Product, now: string)
    requires forall i :: 0 <= i < |ps| ==> ps[i].id != updated.id
    ensures ReplaceById(ps, updated, now) == ps
  {
    if ps != [] {
      ReplaceUnknownId(ps[1..], updated, now);
    }
  }

  /**
   * Toggling the same id twice restores every availability; what remains of
   * the two toggles is the second timestamp on the matching products.
   */
  lemma {:induction false} ToggleTwice(ps: seq<Product>, id: int, first: string, second: string)
    ensures ToggleById(ToggleById(ps, id, first), id, second)
      == seq(|ps|, i requires 0 <= i < |ps| => if ps[i].id == id then ps[i].(lastUpdated := second) else ps[i])
  {
    if ps != [] {
      ToggleTwice(ps[1..], id, first, second);
    }
  }

  /** Both by-id updates keep the ids where they are, so distinct ids stay distinct. */
  lemma ByIdUpdatesKeepDistinctIds(ps: seq<Product>, updated: Product, id: int, now: string)
    requires DistinctIds(ps)
    ensures DistinctIds(ReplaceById(ps, updated, now))
    ensures DistinctIds(ToggleById(ps, id, now))
  {
  }

  /** Appending a created product keeps ids distinct exactly when its id is new. */
  lemma AppendKeepsDistinctIds(ps: seq<Product>, p: Product)
    requires DistinctIds(ps)
    ensures DistinctIds(ps + [p]) <==> forall i :: 0 <= i < |ps| ==> ps[i].id != p.id
  {
    if !(forall i :: 0 <= i < |ps| ==> ps[i].id != p.id) {
      var i :| 0 <= i < |ps| && ps[i].id == p.id;
      assert (ps + [p])[i].id == (ps + [p])[|ps|].id;
    }
  }

  /** What the dashboard's main area shows. */
  datatype View = AddView | EditView(product: Product) | ListView

  /** The add form whenever adding; otherwise the edit form when a product is being edited; otherwise the list. */
  function SelectView(isAddingProduct: bool, editingProduct: Option<Product>): (v: View)
    ensures v == AddView <==> isAddingProduct
    ensures v.EditView? <==> !isAddingProduct && editingProduct.Some?
    ensures v.EditView? ==> v.product == editingProduct.value
    ensures v == ListView <==> !isAddingProduct && editingProduct.None?
  {
    if isAddingProduct then AddView
    else if editingProduct.Some? then EditView(editingProduct.value)
    else ListView
  }

  class AdminDashboard {
    var products: seq<Product>
    var isAddingProduct: bool
    /** The product being edited; `None` stands for `null`. */
    var editingProduct: Option<Product>

    constructor ()
      ensures products == [] && !isAddingProduct && editingProduct == None
      ensures SelectView(isAddingProduct, editingProduct) == ListView
    {
      products := [];
      isAddingProduct := false;
      editingProduct := None;
    }

    /** "+ Add New Product": the add view opens whatever is being edited. */
    method OpenAddForm()
      modifies this`isAddingProduct
      ensures isAddingProduct
      ensures SelectView(isAddingProduct, editingProduct) == AddView
    {
      isAddingProduct := true;
    }

    /** Cancel in the add view. */
    method CancelAdd()
      modifies this`isAddingProduct
      ensures !isAddingProduct
      ensures SelectView(isAddingProduct, editingProduct) != AddView
    {
      isAddingProduct := false;
    }

    /** The list's edit button (`onEdit` is the `editingProduct` setter). */
    method OpenEditor(p: Product)
      modifies this`editingProduct
      ensures editingProduct == Some(p)
      ensures !isAddingProduct ==> SelectView(isAddingProduct, editingProduct) == EditView(p)
    {
      editingProduct := Some(p);
    }

    /** Cancel in the edit view. */
    method CancelEdit()
      modifies this`editingProduct
      ensures editingProduct == None
      ensures !isAddingProduct ==> SelectView(isAddingProduct, editingProduct) == ListView
    {
      editingProduct := None;
    }

    /**
     * `handleAddProduct` once `addProduct` has settled: `Some(p)` is the
     * created product it resolved to, `None` a rejection, which the handler
     * catches and logs.
     */
    method HandleAddProduct(created: Option<Product>)
      modifies this`products, this`isAddingProduct
      ensures created.Some? ==> products == old(products) + [created.value] && !isAddingProduct
      ensures created.None? ==> products == old(products) && isAddingProduct == old(isAddingProduct)
    {
      if created.Some? {
        products := products + [created.value];
        isAddingProduct := false;
      }
    }

    /** `handleUpdateProduct`: replace by id with the stamp `now`, then close the editor. */
    method HandleUpdateProduct(updated: Product, now: string)
      modifies this`products, this`editingProduct
      ensures products == ReplaceById(old(products), updated, now)
      ensures editingProduct == None
    {
      products := ReplaceById(products, updated, now);
      editingProduct := None;
    }

    /** `handleToggleAvailability`: flip the availability of the products with this id. */
    method HandleToggleAvailability(id: int, now: string)
      modifies this`products
      ensures products == ToggleById(old(products), id, now)
    {
      products := ToggleById(products, id, now);
    }
  }
}
