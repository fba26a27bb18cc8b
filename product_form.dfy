/** The create/edit form: prefill from storage when editing, then on submit
    either overwrite the edited product or append a new one. */
module ProductForm {
  import opened Inventory

  /** `if (productUpdating)`: the query value is truthy when present and
      not the empty string. */
  predicate Truthy(q: Option<string>) {
    q.Some? && q.value != ""
  }

  /** `Number(productUpdating)` as an id; `number` stands for JavaScript's
      `Number`, and an absent query value converts to `0`. */
  function Target(q: Option<string>, number: string -> int): (id: Id)
    ensures id.Stamp?
    ensures q.None? ==> id == Stamp(0)
  {
    Stamp(if q.Some? then number(q.value) else 0)
  }

  /** `find(p => p.id === id)`: the first product carrying `id`. */
  function Find(ps: seq<Product>, id: Id): (r: Option<Product>)
    ensures r.Some? ==> r.value in ps && r.value.id == Some(id)
    ensures r.None? <==> forall i :: 0 <= i < |ps| ==> ps[i].id != Some(id)
  {
    if ps == [] then None
    else if ps[0].id == Some(id) then Some(ps[0])
    else Find(ps[1..], id)
  }

  /** `find` returns the first match: the match at `i` when none precedes it. */
  lemma {:induction false} FindFirst(ps: seq<Product>, id: Id, i: nat)
    requires i < |ps| && ps[i].id == Some(id)
    requires forall j :: 0 <= j < i ==> ps[j].id != Some(id)
    ensures Find(ps, id) == Some(ps[i])
    decreases i
  {
    if i > 0 {
      FindFirst(ps[1..], id, i - 1);
    }
  }

  /** The form holding a product's fields; `show` stands for
      `precio.toString()`. */
  function FormOf(p: Product, show: int -> string): Form {
    Form(p.tienda, p.categoria, p.nombre, p.marca, p.unidad, show(p.precio))
  }

  /** The initial form: empty, unless editing a product that storage holds. */
  function Prefill(q: Option<string>, slot: Option<seq<Product>>,
                   number: string -> int, show: int -> string): Form
  {
    if Truthy(q) then
      match Find(Load(slot), Target(q, number))
      case Some(p) => FormOf(p, show)
      case None => EmptyForm
    else EmptyForm
  }

  /** When editing, the form is filled from the first product with the
      requested id. */
  lemma PrefillFirstMatch(q: Option<string>, slot: Option<seq<Product>>,
                          number: string -> int, show: int -> string, i: nat)
    requires Truthy(q)
    requires i < |Load(slot)| && Load(slot)[i].id == Some(Target(q, number))
    requires forall j :: 0 <= j < i ==> Load(slot)[j].id != Some(Target(q, number))
    ensures Prefill(q, slot, number, show) == FormOf(Load(slot)[i], show)
  {
    FindFirst(Load(slot), Target(q, number), i);
  }

  /** When creating, or when no stored product has the id, the form is empty. */
  lemma PrefillEmpty(q: Option<string>, slot: Option<seq<Product>>,
                     number: string -> int, show: int -> string)
    requires !Truthy(q) || forall i :: 0 <= i < |Load(slot)| ==> Load(slot)[i].id != Some(Target(q, number))
    ensures Prefill(q, slot, number, show) == EmptyForm
  {
  }

  /** `{ ...p, tienda: form.tienda, …, precio: Number(form.precio) }`:
      the six form fields replace the product's, everything else is kept. */
  function Edited(p: Product, form: Form, number: string -> int): (r: Product)
    ensures r.id == p.id && r.creacion == p.creacion
    ensures r.precio == number(form.precio)
  {
    p.(tienda := form.tienda, categoria := form.categoria, nombre := form.nombre,
       marca := form.marca, unidad := form.unidad, precio := number(form.precio))
  }

  /** The `map` of `handleUpdate`: edit every product carrying `id`. */
  function Overwrite(ps: seq<Product>, id: Id, form: Form, number: string -> int): (r: seq<Product>)
    ensures |r| == |ps|
  {
    if ps == [] then []
    else [if ps[0].id == Some(id) then Edited(ps[0], form, number) else ps[0]]
         + Overwrite(ps[1..], id, form, number)
  }

  /** Position by position, a matching product is edited and any other is
      left as it was. */
  lemma {:induction false} OverwriteAt(ps: seq<Product>, id: Id, form: Form, number: string -> int, i: nat)
    requires i < |ps|
    ensures Overwrite(ps, id, form, number)[i]
            == if ps[i].id == Some(id) then Edited(ps[i], form, number) else ps[i]
    decreases i
  {
    if i > 0 {
      OverwriteAt(ps[1..], id, form, number, i - 1);
    }
  }

  /** Updating keeps every id in place, so the order of the list is kept. */
  lemma OverwriteKeepsIds(ps: seq<Product>, id: Id, form: Form, number: string -> int)
    ensures forall i :: 0 <= i < |ps| ==> Overwrite(ps, id, form, number)[i].id == ps[i].id
  {
    forall i | 0 <= i < |ps| ensures Overwrite(ps, id, form, number)[i].id == ps[i].id {
      OverwriteAt(ps, id, form, number, i);
    }
  }

  /** Updating an id nobody carries rewrites the very same list. */
  lemma {:induction false} OverwriteAbsent(ps: seq<Product>, id: Id, form: Form, number: string -> int)
    requires forall i :: 0 <= i < |ps| ==> ps[i].id != Some(id)
    ensures Overwrite(ps, id, form, number) == ps
    decreases |ps|
  {
    if ps != [] {
      OverwriteAbsent(ps[1..], id, form, number);
    }
  }

  /** Submitting the same edit twice has the effect of submitting it once. */
  lemma OverwriteIdempotent(ps: seq<Product>, id: Id, form: Form, number: string -> int)
    ensures Overwrite(Overwrite(ps, id, form, number), id, form, number) == Overwrite(ps, id, form, number)
  {
    var once := Overwrite(ps, id, form, number);
    var twice := Overwrite(once, id, form, number);
    forall i | 0 <= i < |ps| ensures twice[i] == once[i] {
      OverwriteAt(ps, id, form, number, i);
      OverwriteAt(once, id, form, number, i);
    }
  }

  /** An edited product shows the submitted form again on the next edit,
      whenever printing the parsed price gives back the typed price. */
  lemma EditedRoundTrip(p: Product, form: Form, number: string -> int, show: int -> string)
    requires show(number(form.precio)) == form.precio
    ensures FormOf(Edited(p, form, number), show) == form
    ensures Edited(p, form, number).id == p.id && Edited(p, form, number).creacion == p.creacion
  {
  }

  /** `nuevoProducto`: the form's fields under the timestamp `now`. */
  function NewProduct(now: int, form: Form, number: string -> int): (p: Product)
    ensures p.id == Some(Stamp(now)) && p.creacion.None?
    ensures p.precio == number(form.precio)
  {
    Product(Some(Stamp(now)), form.tienda, form.categoria, form.nombre,
            form.marca, form.unidad, number(form.precio), None)
  }

  /** A created product prefills the form it was created from, and editing
      it with that form changes nothing. */
  lemma NewProductRoundTrip(now: int, form: Form, number: string -> int, show: int -> string)
    requires show(number(form.precio)) == form.precio
    ensures NewProduct(now, form, number).id == Some(Stamp(now))
    ensures FormOf(NewProduct(now, form, number), show) == form
    ensures Edited(NewProduct(now, form, number), form, number) == NewProduct(now, form, number)
  {
  }

  /** The form component, mounted with the `product` query value. */
  class CreateProduct {
    /** `searchParams.get("product")`. */
    const productUpdating: Option<string>
    /** Whether `onProductCreated` was supplied. */
    const hasCallback: bool
    var form: Form
    /** The "products" storage slot. */
    var stored: Option<seq<Product>>

    /** Mounting: the form starts empty and the lazy initializer prefills it. */
    constructor (q: Option<string>, callback: bool, slot: Option<seq<Product>>,
                 number: string -> int, show: int -> string)
      ensures productUpdating == q && hasCallback == callback && stored == slot
      ensures form == Prefill(q, slot, number, show)
    {
      productUpdating := q;
      hasCallback := callback;
      stored := slot;
      form := EmptyForm;
      new;
      if Truthy(q) {
        var found := Find(Load(slot), Target(q, number));
        if found.Some? {
          form := FormOf(found.value, show);
        }
      }
    }

    /** `handleUpdate`: rewrite storage with the edited list. */
    method HandleUpdate(number: string -> int)
      modifies this`stored
      ensures stored == Some(Overwrite(Load(old(stored)), Target(productUpdating, number), form, number))
    {
      var saved := Load(stored);
      var updated := Overwrite(saved, Target(productUpdating, number), form, number);
      stored := Some(updated);
    }

    /** `handleCreate`: append the new product to storage, hand it to the
        callback, and clear the form. */
    method HandleCreate(now: int, number: string -> int) returns (created: Product, notified: Option<Product>)
      modifies this`stored, this`form
      ensures created == NewProduct(now, old(form), number)
      ensures stored == Some(Load(old(stored)) + [created])
      ensures notified == if hasCallback then Some(created) else None
      ensures form == EmptyForm
    {
      created := NewProduct(now, form, number);
      var saved := Load(stored);
      stored := Some(saved + [created]);
      notified := if hasCallback then Some(created) else None;
      form := EmptyForm;
    }

    /** `handleAction`: submit as an update exactly when a product is being
        edited, otherwise as a creation. */
    method HandleAction(now: int, number: string -> int) returns (notified: Option<Product>)
      modifies this`stored, this`form
      ensures Truthy(productUpdating) ==>
                && notified.None? && form == old(form)
                && stored == Some(Overwrite(Load(old(stored)), Target(productUpdating, number), form, number))
      ensures !Truthy(productUpdating) ==>
                && form == EmptyForm
                && stored == Some(Load(old(stored)) + [NewProduct(now, old(form), number)])
                && notified == if hasCallback then Some(NewProduct(now, old(form), number)) else None
    {
      if Truthy(productUpdating) {
        HandleUpdate(number);
        notified := None;
      } else {
        var created;
        created, notified := HandleCreate(now, number);
      }
    }
  }
}
