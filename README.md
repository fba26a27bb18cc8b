# Product list: local state and remote sync

This project models the data-handling core of a small shopping-list web
application. The user keeps a list of products (`tienda`, `categoria`,
`nombre`, `marca`, `unidad`, `precio`, plus an `id`). The list lives in one
browser storage slot under the key `"products"`. Three pages change it:

- The product list page shows the list. It deletes a product through a
  confirm/cancel modal and appends products created by the form.
- The create/edit form fills itself from storage when a product is being
  edited. On submit it either overwrites that product's fields or appends a
  new product stamped with the current time. An older create-only form does
  the same append.
- The profile page pushes the local list to the user's remote collection
  (`productos/<uid>/items`) and replaces the local list by what it reads back.

The remote sync (`useDB`) works in three phases:

- clear the remote collection (`deleteUserProducts`);
- insert every local product under a fresh document id;
- list the collection and return one record per document.

Any failure sends the whole call to its single error exit `(null, false)`.
A local list that is absent or empty makes the call a pure read.

Modules, one per file:

- `Inventory` (`inventory.dfy`): the product record, the form record, the
  identifier type and how an absent storage key is read.
- `Text` (`text.dfy`): `truncateText`.
- `SyncEngine` (`sync_engine.dfy`): `useDB` and `deleteUserProducts`.
  - The remote collection is a class holding one user's documents as a map,
    every document id it has ever issued, and a ghost log of the primitives
    called on it.
  - Fresh ids are ids never issued before.
  - Remote failures are an explicit `Faults` value: the clear's listing,
    particular deletions, particular insertions (by input position) and the
    final read.
  - Each `Promise.all` batch runs as a loop that issues every operation. An
    operation that fails simply has no effect, as with independent promises.
- `ProductsView` (`products_view.dfy`): the product list page.
- `ProductForm` (`product_form.dfy`): the create/edit form.
- `LegacyForm` (`legacy_form.dfy`): the older create-only form.
- `Profile` (`profile.dfy`): the profile page and its sync handler.

Identifiers are `Stamp(n)` for local `Date.now()` ids and `Key(s)` for
remote document ids. The two never compare equal, just as `===` between a
number and a string is false. `Number(...)` and `toString()` are passed in
as functions `number` and `show`.

Three behaviours of the code are easy to misread; the model follows the code:

- The read-back record `{ id: d.id, ...d.data() }` puts the spread last, so
  a product that was stored with its own `id` comes back with that id, not
  with a new remote one.
- An insertion failure is an exception inside the single `try` of `useDB`.
  The call returns `(null, false)` and does not go on to the read-back. The
  collection is already cleared by then, and the other insertions may have
  landed.
- Reading storage uses `JSON.parse` with no guard. There is no fallback from
  malformed data to the empty list. An absent key reads as `[]`.

## Model

| member | source | states |
|---|---|---|
| Inventory.Load | src/app/products/page.tsx:32 | an absent storage key reads as the empty list, a present one as the stored list |
| Text.Truncate | src/helpers/text.ts:3-11 | text within the limit is returned as is; longer text becomes its first `limit` characters (none when `limit` is negative, the `substring` clamp) followed by `"..."` |
| Text.ClampEnd | src/helpers/text.ts:7 | the end index `substring(0, limit)` uses: `limit` itself when it is not negative, `0` otherwise |
| Text.TruncateBounds | src/helpers/text.ts:6-7 | for `limit >= 0` the result is at most `limit + 3` long and starts with the first `min(len, limit)` characters of the text |
| Text.TruncateIdempotent | src/helpers/text.ts:6-10 | truncating a truncated text returns it unchanged, for every limit |
| SyncEngine.Record | src/hooks/useDB.ts:43 | a read-back record has an id and the document's stored fields; the stored id wins, and the document id is used only when none was stored |
| SyncEngine.ReadBack | src/hooks/useDB.ts:42-43 | one record per listed document, in listing order; each carries that document's fields and the id `Record` gives it |
| SyncEngine.EnumerationKeys | src/hooks/useDB.ts:42 | a listing names exactly the documents of the collection |
| SyncEngine.EnumerationValues | src/hooks/useDB.ts:42 | the contents of a listing are, as a multiset, the contents of the collection |
| SyncEngine.ListingOfBatch | src/hooks/useDB.ts:38-45 | once the collection holds exactly a batch, the read-back has one record per product and the products' fields apart from ids; when every product carried an id, it is a permutation of the batch itself |
| SyncEngine.Survivors | src/hooks/useDB.ts:53-72 | what the clear leaves: everything when its listing fails, otherwise exactly the documents whose deletion failed; the clear reports success exactly when its listing succeeds and nothing is left |
| SyncEngine.ClearOutcome | src/hooks/useDB.ts:56-66 | after a deletion was asked for every listed document, the clear succeeded exactly when no deletion failed, and what remains is `Survivors` |
| SyncEngine.Batch | src/hooks/useDB.ts:31 | the products to push: the given list, or none when the list is absent; an empty batch skips the clear and the inserts |
| SyncEngine.ClearFails | src/hooks/useDB.ts:56-70 | the clear fails when its listing fails or the deletion of some document of the collection fails |
| SyncEngine.Landed | src/hooks/useDB.ts:38 | the products of the batch whose insertion did not fail, in input order |
| SyncEngine.LandedSubset | src/hooks/useDB.ts:38 | the products that landed are drawn from the batch, none more often than in the batch |
| SyncEngine.LandedAll | src/hooks/useDB.ts:38 | with no failed insertion every product of the batch lands |
| SyncEngine.Collection.GetDocs | src/hooks/useDB.ts:42 | `getDocs` fails exactly when its fault is set, otherwise it lists every document once, in some order; it is logged as one listing |
| SyncEngine.Collection.AddDoc | src/hooks/useDB.ts:38 | `addDoc` either fails and changes nothing, or stores the product under an id never issued before |
| SyncEngine.Collection.DeleteDoc | src/hooks/useDB.ts:63 | `deleteDoc` removes its document unless it fails |
| SyncEngine.Collection.DeleteListed | src/hooks/useDB.ts:63-64 | every listed document is asked for, one `deleteDoc` per listed document in listing order; exactly the ones whose deletion did not fail are gone; it reports success exactly when none failed; it issues deletions only |
| SyncEngine.Collection.DeleteUserProducts | src/hooks/useDB.ts:53-72 | reports success exactly when neither the listing nor any deletion fails; on success the collection is empty; what is left is `Survivors`; an empty collection costs only the listing; it never inserts |
| SyncEngine.Collection.InsertAll | src/hooks/useDB.ts:34-38 | every insertion is attempted, one `addDoc` per product in input order; into an empty collection, exactly the products whose insertion did not fail land, under fresh ids; it reports success exactly when no insertion failed; it never deletes |
| SyncEngine.Collection.Push | src/hooks/useDB.ts:31-39 | a failed clear attempts no insertion; after a successful clear no earlier document survives and the collection holds one fresh document per landed product, all of them when success is reported; no insertion precedes a deletion |
| SyncEngine.Collection.Sync | src/hooks/useDB.ts:21-51 | an empty user id fails without touching the store; an absent or empty list is a pure read; a failed clear or insertion returns `(null, false)`; on success the result is a read-back of a collection holding exactly the batch, with no earlier document left |
| ProductsView.Without | src/app/products/page.tsx:45 | filtering never lengthens the list |
| ProductsView.WithoutAppend | src/app/products/page.tsx:45 | filtering distributes over concatenation, so kept products stay in their order |
| ProductsView.WithoutCount | src/app/products/page.tsx:45 | products carrying the id are all gone and every other product keeps its multiplicity |
| ProductsView.WithoutMembers | src/app/products/page.tsx:45 | a product is kept exactly when it was there and does not carry the id |
| ProductsView.WithoutAbsent | src/app/products/page.tsx:45 | deleting an id that no product carries leaves the list unchanged |
| ProductsView.WithoutIdempotent | src/app/products/page.tsx:45 | deleting the same id twice is deleting it once |
| ProductsView.ProductsPage.constructor | src/app/products/page.tsx:26-41 | after mounting the list is what storage held (empty for an absent key), storage is unchanged, the modal is closed and the selection is `0` |
| ProductsView.ProductsPage.PersistEffect | src/app/products/page.tsx:37-41 | storage receives the list only when the list is non-empty |
| ProductsView.ProductsPage.DeleteProduct | src/app/products/page.tsx:44-49 | the selected product is filtered out, the resulting list is stored even when empty, and the modal closes |
| ProductsView.ProductsPage.HandleDelete | src/app/products/page.tsx:51-56 | the id is selected, the modal opens, storage already holds the filtered list, and the in-memory list is untouched |
| ProductsView.ProductsPage.CancelDelete | src/app/products/page.tsx:217 | cancel only closes the modal |
| ProductsView.ProductsPage.HandleProductCreated | src/app/products/page.tsx:68-70 | the new product is appended at the end and the effect stores the list |
| ProductsView.ProductsPage.DeleteThenCancel | src/app/products/page.tsx:213-218 | asking to delete and then cancelling keeps the product in memory but not in storage |
| ProductsView.ProductsPage.DeleteThenConfirm | src/app/products/page.tsx:213-216 | asking to delete and then confirming leaves memory and storage equal, with no product carrying the id |
| ProductForm.Find | src/app/products/create/form.tsx:44 | `find` returns a stored product carrying the id, and returns nothing exactly when no product carries it |
| ProductForm.FindFirst | src/app/products/create/form.tsx:44 | `find` returns the first product carrying the id |
| ProductForm.Truthy | src/app/products/create/form.tsx:66 | `if (productUpdating)`: the query value is present and not the empty string |
| ProductForm.Target | src/app/products/create/form.tsx:44 | the id `Number(productUpdating)` names: always a timestamp id, `0` for an absent value |
| ProductForm.FormOf | src/app/products/create/form.tsx:46-53 | the form filled with a product's five text fields and its printed price |
| ProductForm.Prefill | src/app/products/create/form.tsx:41-56 | the initial form: the fields of the first stored product with the requested id when editing, otherwise empty |
| ProductForm.PrefillFirstMatch | src/app/products/create/form.tsx:41-56 | when editing, the form holds the fields of the first stored product with the requested id |
| ProductForm.PrefillEmpty | src/app/products/create/form.tsx:41-56 | when creating, or when no stored product has the id, the form stays empty |
| ProductForm.Edited | src/app/products/create/form.tsx:77-85 | a product with the six form fields written over its own, keeping its id and any other field; the price is the parsed form price |
| ProductForm.Overwrite | src/app/products/create/form.tsx:75-88 | the update keeps the list's length |
| ProductForm.OverwriteAt | src/app/products/create/form.tsx:76-87 | at every position a matching product gets the six form fields, with its id and other fields kept, and any other product is returned unchanged |
| ProductForm.OverwriteKeepsIds | src/app/products/create/form.tsx:75-88 | the update keeps every id in its place |
| ProductForm.OverwriteAbsent | src/app/products/create/form.tsx:87-89 | with no matching product the list written back equals the loaded one |
| ProductForm.OverwriteIdempotent | src/app/products/create/form.tsx:75-89 | submitting the same edit twice has the effect of submitting it once |
| ProductForm.NewProduct | src/app/products/create/form.tsx:94-102 | the created record: the form's fields, the parsed price, the timestamp as id and no other field; `src/app/products/create.tsx:40-48` builds the same record |
| ProductForm.EditedRoundTrip | src/app/products/create/form.tsx:76-85 | an edited product fills the form back with the submitted values when printing the parsed price gives the typed price, and keeps its id and extra fields |
| ProductForm.NewProductRoundTrip | src/app/products/create/form.tsx:94-102 | a created product carries the timestamp as its id and fills the form back with the values it was created from |
| ProductForm.CreateProduct.constructor | src/app/products/create/form.tsx:30-56 | the mounted form is the prefill of the query value and storage |
| ProductForm.CreateProduct.HandleUpdate | src/app/products/create/form.tsx:73-91 | storage is rewritten with the loaded list after the edit of the requested id |
| ProductForm.CreateProduct.HandleCreate | src/app/products/create/form.tsx:93-126 | the product built from the form and the timestamp is appended to the loaded list and stored, handed to the callback if there is one, and the form is reset |
| ProductForm.CreateProduct.HandleAction | src/app/products/create/form.tsx:63-71 | submit updates exactly when the query value is truthy and creates otherwise |
| LegacyForm.CreateProduct.constructor | src/app/products/create.tsx:24-31 | the form starts empty |
| LegacyForm.CreateProduct.HandleCreate | src/app/products/create.tsx:37-72 | storage becomes the loaded list, unchanged, followed by exactly one new product with the form's fields and the timestamp id; the callback receives that record; the form is reset |
| Profile.ProfilePage.constructor | src/app/profile/page.tsx:26-40 | after mounting the list is what storage held, empty for an absent key |
| Profile.Uid | src/app/profile/page.tsx:44 | the id passed to the sync: the signed-in user's `uid`, or `''` without a user |
| Profile.ProfilePage.GetProductsLocalStorage | src/app/profile/page.tsx:28-31 | the list becomes the stored one |
| Profile.ProfilePage.SetProductsLocalStorage | src/app/profile/page.tsx:33-35 | storage receives the list |
| Profile.ProfilePage.HandleSynchronizeData | src/app/profile/page.tsx:43-53 | with no user nothing is changed anywhere; a failed sync changes neither the list nor storage; with a non-empty list the sync succeeds exactly when the clear, every insertion and the read succeed; a successful one replaces the list by the read-back (a pull when the list was empty) and stores the list from before the sync |
| Profile.ProfilePage.HandleSynchronizeDataFixed | src/app/profile/page.tsx:43-53 | as above, but a successful sync stores the returned list, so memory and storage agree |
| Profile.StaleWriteWitness | src/app/profile/page.tsx:44-50 | with an empty local list and one remote document, the page shows one product while storage holds `[]` |
| Profile.FixedWriteWitness | src/app/profile/page.tsx:44-50 | in the same situation the corrected handler stores the product it shows |

## Left out

- Firestore transport and authentication. One `Collection` object stands for
  the signed-in user's `productos/<uid>/items`. Document references, other
  users' collections, timing and retries are not modelled.
- Concurrency. Each `Promise.all` runs as a loop over its operations in
  input order. All of them are attempted, and a failed one has no effect. An
  order between concurrent insertions is not modelled.
- Listing order. `getDocs` may list documents in any order, so a successful
  sync is stated up to that order: the read-back of *some* listing.
- `Array.isArray(productData) ? productData : [productData]`: the model's
  parameter is always a list, so the wrapping branch cannot be taken.
- Floating point. Prices are integers. `Number(...)` and `toString()` are
  the parameters `number` and `show`. `NaN`, which matches no id, and
  `toLocaleString` formatting are not modelled.
- `Date.now()` is the parameter `now`.
- JSON. Storage holds the list itself, and serialising and parsing count as
  the identity. What `JSON.parse` does on malformed data (it throws) is not
  modelled. Neither is the conversion of a `Date` field to a string.
- `truncateText` receives a string. `String(text)` for a numeric argument is
  not modelled, and length counts Dafny characters, not UTF-16 code units.
- React scheduling. A state update takes effect at once, and the
  persistence effect of the product list page runs at the end of each
  handler that changes the list. The one stale closure that matters, the
  profile page's storage write, is modelled as written.
- Shared storage. Each page holds its own copy of the `"products"` slot. How
  one page's write reaches another mounted page is not modelled.
- `handleChange` (bind one form input to one form field), `handleCancel`,
  `goToCreate`, `handleEdit`, `router.push` navigation, rendering, loading
  states and `console` output.
- The header menu, login popup, confirmation modal markup, page transition,
  home layout, datalist hooks, Suspense wrapper and Next.js configuration
  hold no data logic.

## Findings

| source | as written | input that shows it | evidently intended | confidence | as-written member | corrected member |
|---|---|---|---|---|---|---|
| src/app/profile/page.tsx:47-50 | after a successful sync `setProductsLocalStorage` writes the `productos` of the handler's own render, the list from before the sync | local list empty, one document in the remote collection, a signed-in user, no failures: the page shows one product and storage keeps `[]` | storage receives the list the sync returned | not executed | Profile.StaleWriteWitness | Profile.ProfilePage.HandleSynchronizeDataFixed |
