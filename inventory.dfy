/** The product record shared by every page, and the one local-storage slot
    (the "products" key) that holds the whole list. */
module Inventory {

  datatype Option<+T> = None | Some(value: T) {
    function GetOr(default: T): T {
      if Some? then value else default
    }
  }

  /** A JavaScript number used as a price. Floating point is not modelled. */
  type Price = int

  /** A product identifier: a local `Date.now()` timestamp, or a remote
      document id. The two never compare equal, as with `===` in JavaScript
      between a number and a string. */
  datatype Id = Stamp(ms: int) | Key(doc: string)

  /** A stored product. `id` is optional because records built by the pages
      always carry one but the remote schema does not require it; `creacion`
      stands for any further field a record may carry. */
  datatype Product = Product(
    id: Option<Id>,
    tienda: string,
    categoria: string,
    nombre: string,
    marca: string,
    unidad: string,
    precio: Price,
    creacion: Option<int>)

  /** The six text inputs of the create/edit form. */
  datatype Form = Form(
    tienda: string,
    categoria: string,
    nombre: string,
    marca: string,
    unidad: string,
    precio: string)

  const EmptyForm := Form("", "", "", "", "", "")

  /** A product with its `id` field removed: what two records share when they
      agree on every field but the identifier. */
  function Strip(p: Product): Product {
    p.(id := None)
  }

  /** `JSON.parse(localStorage.getItem("products") || "[]")`: an absent key
      reads as the empty list. */
  function Load(slot: Option<seq<Product>>): (ps: seq<Product>)
    ensures slot.None? ==> ps == []
    ensures slot.Some? ==> ps == slot.value
  {
    slot.GetOr([])
  }
}
