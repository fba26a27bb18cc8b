/** The older create-only form. Its submit builds the same record as the
    create path of the create/edit form. */
module LegacyForm {
  import opened Inventory
  import ProductForm

  class CreateProduct {
    /** Whether `onProductCreated` was supplied. */
    const hasCallback: bool
    var form: Form
    /** The "products" storage slot. */
    var stored: Option<seq<Product>>

    constructor (callback: bool, slot: Option<seq<Product>>)
      ensures hasCallback == callback && stored == slot && form == EmptyForm
    {
      hasCallback := callback;
      stored := slot;
      form := EmptyForm;
    }

    /** `handleCreate`: append the new product to storage, hand it to the
        callback, and clear the form. */
    method HandleCreate(now: int, number: string -> int) returns (created: Product, notified: Option<Product>)
      modifies this`stored, this`form
      ensures created == ProductForm.NewProduct(now, old(form), number)
      ensures created.id == Some(Stamp(now))
      ensures stored.Some? && |stored.value| == |Load(old(stored))| + 1
      ensures stored.value[..|Load(old(stored))|] == Load(old(stored))
      ensures stored.value[|Load(old(stored))|] == created
      ensures notified == if hasCallback then Some(created) else None
      ensures form == EmptyForm
    {
      created := ProductForm.NewProduct(now, form, number);
      var saved := Load(stored);
      var updated := saved + [created];
      assert updated[..|saved|] == saved;
      stored := Some(updated);
      notified := if hasCallback then Some(created) else None;
      form := EmptyForm;
    }
  }
}
