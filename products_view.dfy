/** The product list page: the in-memory list, its persistence in the
    storage slot, and the two-step delete behind a confirmation modal. */
module ProductsView {
  import opened Inventory

  /** `productos.filter(p => p.id !== id)`: drop exactly the products
      carrying `id`, keeping the others in order. */
  function Without(ps: seq<Product>, id: Id): (r: seq<Product>)
    ensures |r| <= |ps|
  {
    if ps == [] then []
    else (if ps[0].id == Some(id) then [] else [ps[0]]) + Without(ps[1..], id)
  }

  /** Filtering distributes over concatenation, so the kept products stay
      in their original order. */
  lemma {:induction false} WithoutAppend(a: seq<Product>, b: seq<Product>, id: Id)
    ensures Without(a + b, id) == Without(a, id) + Without(b, id)
    decreases |a|
  {
    if a == [] {
      assert a + b == b;
    } else {
      var head := if a[0].id == Some(id) then [] else [a[0]];
      assert (a + b)[0] == a[0] && (a + b)[1..] == a[1..] + b;
      assert Without(a + b, id) == head + Without(a[1..] + b, id);
      WithoutAppend(a[1..], b, id);
      assert head + (Without(a[1..], id) + Without(b, id)) == (head + Without(a[1..], id)) + Without(b, id);
    }
  }

  /** Every kept product keeps its multiplicity; every dropped one is gone. */
  lemma {:induction false} WithoutCount(ps: seq<Product>, id: Id, p: Product)
    ensures multiset(Without(ps, id))[p] == if p.id == Some(id) then 0 else multiset(ps)[p]
    decreases |ps|
  {
    if ps != [] {
      WithoutCount(ps[1..], id, p);
      assert ps == [ps[0]] + ps[1..];
    }
  }

  /** A product is kept exactly when it was there and does not carry `id`. */
  lemma WithoutMembers(ps: seq<Product>, id: Id)
    ensures forall p :: p in Without(ps, id) <==> p in ps && p.id != Some(id)
  {
    forall p ensures p in Without(ps, id) <==> p in ps && p.id != Some(id) {
      WithoutCount(ps, id, p);
    }
  }

  /** Deleting an id nobody carries changes nothing. */
  lemma {:induction false} WithoutAbsent(ps: seq<Product>, id: Id)
    requires forall i :: 0 <= i < |ps| ==> ps[i].id != Some(id)
    ensures Without(ps, id) == ps
    decreases |ps|
  {
    if ps != [] {
      WithoutAbsent(ps[1..], id);
    }
  }

  /** Filtering twice by the same id is filtering once. */
  lemma WithoutIdempotent(ps: seq<Product>, id: Id)
    ensures Without(Without(ps, id), id) == Without(ps, id)
  {
    var r := Without(ps, id);
    WithoutMembers(ps, id);
    forall i | 0 <= i < |r| ensures r[i].id != Some(id) {
      assert r[i] in r;
    }
    WithoutAbsent(r, id);
  }

  class ProductsPage {
    var productos: seq<Product>
    /** The "products" storage slot. */
    var stored: Option<seq<Product>>
    var showDeleteModal: bool
    var productSelected: Id

    /** Mounting the page: the state starts empty with selection `0`, the
        load effect reads the slot, and the persistence effect then runs on
        the loaded list. */
    constructor (slot: Option<seq<Product>>)
      ensures productos == Load(slot) && stored == slot
      ensures !showDeleteModal && productSelected == Stamp(0)
    {
      productos := [];
      stored := slot;
      showDeleteModal := false;
      productSelected := Stamp(0);
      new;
      productos := Load(slot);
      PersistEffect();
    }

    /** The effect on `productos`: write the list, but only a non-empty one. */
    method PersistEffect()
      modifies this`stored
      ensures |productos| > 0 ==> stored == Some(productos)
      ensures |productos| == 0 ==> stored == old(stored)
    {
      if |productos| > 0 {
        stored := Some(productos);
      }
    }

    /** `deleteProduct`, the modal's confirm action: drop the selected
        product, write the result even when it is empty, close the modal. */
    method DeleteProduct()
      modifies this`productos, this`stored, this`showDeleteModal
      ensures productos == Without(old(productos), productSelected)
      ensures stored == Some(productos)
      ensures !showDeleteModal
    {
      productos := Without(productos, productSelected);
      stored := Some(productos);
      showDeleteModal := false;
      PersistEffect();
    }

    /** `handleDelete(id)`: remember the id, open the modal, and already
        write the filtered list, while the in-memory list stays as it is. */
    method HandleDelete(id: Id)
      modifies this`stored, this`productSelected, this`showDeleteModal
      ensures productSelected == id && showDeleteModal
      ensures stored == Some(Without(productos, id))
    {
      var updated := Without(productos, id);
      productSelected := id;
      showDeleteModal := true;
      stored := Some(updated);
    }

    /** The modal's cancel action: only close it. */
    method CancelDelete()
      modifies this`showDeleteModal
      ensures !showDeleteModal
    {
      showDeleteModal := false;
    }

    /** `handleProductCreated(p)`: append `p`; the effect then persists. */
    method HandleProductCreated(p: Product)
      modifies this`productos, this`stored
      ensures productos == old(productos) + [p]
      ensures stored == Some(productos)
    {
      productos := productos + [p];
      PersistEffect();
    }

    /** Asking to delete and then cancelling: the product is still shown but
        already gone from storage. */
    method DeleteThenCancel(id: Id)
      modifies this`stored, this`productSelected, this`showDeleteModal
      ensures productos == old(productos) && !showDeleteModal
      ensures stored == Some(Without(productos, id))
    {
      HandleDelete(id);
      CancelDelete();
    }

    /** Asking to delete and then confirming: memory and storage agree and
        no product with that id is left. */
    method DeleteThenConfirm(id: Id)
      modifies this`productos, this`stored, this`productSelected, this`showDeleteModal
      ensures productos == Without(old(productos), id) && stored == Some(productos)
      ensures forall p :: p in productos ==> p.id != Some(id)
      ensures !showDeleteModal
    {
      HandleDelete(id);
      DeleteProduct();
      WithoutMembers(old(productos), id);
    }
  }
}
