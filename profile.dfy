/** The profile page: it loads the stored list and pushes it to the remote
    collection on request, replacing the local list by what comes back. */
module Profile {
  import opened Inventory
  import opened SyncEngine

  /** `user?.uid || ''`: no signed-in user passes the empty id. */
  function Uid(user: Option<string>): (uid: string)
    ensures user.None? ==> uid == ""
    ensures user.Some? ==> uid == user.value
  {
    user.GetOr("")
  }

  class ProfilePage {
    var productos: seq<Product>
    /** The "products" storage slot. */
    var stored: Option<seq<Product>>

    /** Mounting: the state starts empty and the effect loads the slot. */
    constructor (slot: Option<seq<Product>>)
      ensures productos == Load(slot) && stored == slot
    {
      productos := [];
      stored := slot;
      new;
      GetProductsLocalStorage();
    }

    /** `getProductsLocalStorage`: replace the list by the stored one. */
    method GetProductsLocalStorage()
      modifies this`productos
      ensures productos == Load(stored)
    {
      productos := Load(stored);
    }

    /** `setProductsLocalStorage`: write the list this render sees. */
    method SetProductsLocalStorage()
      modifies this`stored
      ensures stored == Some(productos)
    {
      stored := Some(productos);
    }

    /** `handleSynchronizeData` as written: on success the list becomes the
        read-back, but the storage write runs in the handler's own render,
        so it stores the list as it was before the sync. */
    method HandleSynchronizeData(user: Option<string>, remote: Collection, faults: Faults)
      returns (synced: bool)
      requires remote.Valid()
      modifies this`productos, this`stored, remote
      ensures remote.Valid()
      ensures Uid(user) == "" ==> !synced && remote.docs == old(remote.docs)
      ensures !synced ==> productos == old(productos) && stored == old(stored)
      ensures synced ==> IsListing(productos, remote.docs) && stored == Some(old(productos))
      // an empty local list pulls the remote contents without writing them
      ensures Uid(user) != "" && old(productos) == [] ==>
                remote.docs == old(remote.docs) && (synced <==> !faults.readFails)
      // a non-empty local list syncs exactly when the clear, every insertion
      // and the read succeed
      ensures Uid(user) != "" && old(productos) != [] ==>
                (synced <==> && !ClearFails(old(remote.docs), faults)
                             && NoneFail(|old(productos)|, faults.insertFails)
                             && !faults.readFails)
      // a non-empty local list comes back as one record per product
      ensures synced && old(productos) != [] ==>
                && Bag(remote.docs) == multiset(old(productos))
                && |productos| == |old(productos)|
                && multiset(Stripped(productos)) == multiset(Stripped(old(productos)))
    {
      var captured := productos;
      var products, result, calls := remote.Sync(Uid(user), Some(captured), faults);
      if result {
        productos := products.value;
        // `setProductsLocalStorage` reads `productos` from the closure
        stored := Some(captured);
        if captured != [] {
          ListingOfBatch(productos, remote.docs, captured);
        }
      }
      synced := result;
    }

    /** `handleSynchronizeData` with the storage write taking the returned
        list, so that memory and storage agree after a successful sync. */
    method HandleSynchronizeDataFixed(user: Option<string>, remote: Collection, faults: Faults)
      returns (synced: bool)
      requires remote.Valid()
      modifies this`productos, this`stored, remote
      ensures remote.Valid()
      ensures Uid(user) == "" ==> !synced && remote.docs == old(remote.docs)
      ensures !synced ==> productos == old(productos) && stored == old(stored)
      ensures synced ==> IsListing(productos, remote.docs) && stored == Some(productos)
      ensures Uid(user) != "" && old(productos) == [] ==>
                remote.docs == old(remote.docs) && (synced <==> !faults.readFails)
      // a non-empty local list syncs exactly when the clear, every insertion
      // and the read succeed
      ensures Uid(user) != "" && old(productos) != [] ==>
                (synced <==> && !ClearFails(old(remote.docs), faults)
                             && NoneFail(|old(productos)|, faults.insertFails)
                             && !faults.readFails)
      ensures synced && old(productos) != [] ==>
                && Bag(remote.docs) == multiset(old(productos))
                && |productos| == |old(productos)|
                && multiset(Stripped(productos)) == multiset(Stripped(old(productos)))
    {
      var captured := productos;
      var products, result, calls := remote.Sync(Uid(user), Some(captured), faults);
      if result {
        productos := products.value;
        SetProductsLocalStorage();
        if captured != [] {
          ListingOfBatch(productos, remote.docs, captured);
        }
      }
      synced := result;
    }
  }

  /** A signed-in user with nothing stored locally and one remote document:
      the sync as written shows the remote product but leaves `[]` in
      storage. */
  method StaleWriteWitness() returns (inMemory: seq<Product>, storedAfter: Option<seq<Product>>)
    ensures |inMemory| == 1 && storedAfter == Some([])
  {
    var p := Product(None, "t", "c", "n", "m", "u", 1, None);
    var remote := new Collection(map["d" := p]);
    var page := new ProfilePage(None);
    var synced := page.HandleSynchronizeData(Some("u"), remote, NoFaults);
    ListingSize(page.productos, remote.docs);
    inMemory, storedAfter := page.productos, page.stored;
  }

  /** The same situation with the corrected handler: storage receives the
      pulled product. */
  method FixedWriteWitness() returns (inMemory: seq<Product>, storedAfter: Option<seq<Product>>)
    ensures |inMemory| == 1 && storedAfter == Some(inMemory)
  {
    var p := Product(None, "t", "c", "n", "m", "u", 1, None);
    var remote := new Collection(map["d" := p]);
    var page := new ProfilePage(None);
    var synced := page.HandleSynchronizeDataFixed(Some("u"), remote, NoFaults);
    ListingSize(page.productos, remote.docs);
    inMemory, storedAfter := page.productos, page.stored;
  }
}
