/** `useDB` and `deleteUserProducts`: replace a user's remote product
    collection with the local list, then read the collection back. */
module SyncEngine {
  import opened Inventory

  /** A remote document id. */
  type DocId = string

  /** One remote primitive issued against the collection, as the collection's call log records it. */
  datatype Call = ListCall | AddCall(p: Product) | DeleteCall(key: DocId)

  /** Which remote primitives fail during one call: the listing of the clear
      phase, the deletion of particular documents, the insertion of the
      products at particular positions of the input, and the final read. */
  datatype Faults = Faults(
    clearListFails: bool,
    deleteFails: set<DocId>,
    insertFails: set<nat>,
    readFails: bool)

  const NoFaults := Faults(false, {}, {}, false)

  // ----- Multisets and listings of a collection -----

  /** Some key of a non-empty map. */
  ghost function PickKey<K, V>(m: map<K, V>): (k: K)
    requires m != map[]
    ensures k in m
  {
    var k :| k in m; k
  }

  lemma RemoveShrinks<K, V>(m: map<K, V>, k: K)
    requires k in m
    ensures |m - {k}| == |m| - 1
  {
    assert (m - {k}).Keys == m.Keys - {k};
  }

  /** The multiset of the values stored in a map. */
  ghost function Bag<K, V>(m: map<K, V>): multiset<V>
    decreases |m|
  {
    if m == map[] then multiset{}
    else
      var k := PickKey(m);
      RemoveShrinks(m, k);
      Bag(m - {k}) + multiset{m[k]}
  }

  /** Any key, not only the one the definition happens to pick, can be taken
      out first. */
  lemma {:induction false} BagRemove<K, V>(m: map<K, V>, j: K)
    requires j in m
    ensures Bag(m) == Bag(m - {j}) + multiset{m[j]}
    decreases |m|
  {
    var k := PickKey(m);
    assert Bag(m) == Bag(m - {k}) + multiset{m[k]};
    if k != j {
      var mk, mj := m - {k}, m - {j};
      RemoveShrinks(m, k);
      RemoveShrinks(m, j);
      assert j in mk && k in mj;
      assert mk - {j} == mj - {k};
      BagRemove(mk, j);
      BagRemove(mj, k);
    }
  }

  lemma BagAdd<K, V>(m: map<K, V>, k: K, v: V)
    requires k !in m
    ensures Bag(m[k := v]) == Bag(m) + multiset{v}
  {
    BagRemove(m[k := v], k);
    assert m[k := v] - {k} == m;
  }

  /** `snap` lists every document of `m` exactly once, in some order. */
  ghost predicate Enumerates(snap: seq<(DocId, Product)>, m: map<DocId, Product>) {
    && |snap| == |m|
    && (forall i :: 0 <= i < |snap| ==> snap[i].0 in m && m[snap[i].0] == snap[i].1)
    && (forall i, j :: 0 <= i < j < |snap| ==> snap[i].0 != snap[j].0)
  }

  lemma EnumeratesRest(snap: seq<(DocId, Product)>, m: map<DocId, Product>)
    requires Enumerates(snap, m) && |snap| > 0
    ensures Enumerates(snap[1..], m - {snap[0].0})
  {
    RemoveShrinks(m, snap[0].0);
    forall i | 0 <= i < |snap| - 1
      ensures snap[1..][i].0 in m - {snap[0].0}
    {
      assert snap[1..][i] == snap[i + 1];
    }
  }

  function KeysOf(snap: seq<(DocId, Product)>): set<DocId> {
    set i | 0 <= i < |snap| :: snap[i].0
  }

  function Values(snap: seq<(DocId, Product)>): (vs: seq<Product>)
    ensures |vs| == |snap|
  {
    seq(|snap|, i requires 0 <= i < |snap| => snap[i].1)
  }

  lemma EmptyMap(m: map<DocId, Product>)
    requires |m| == 0
    ensures m == map[]
  {
    assert m.Keys == {};
  }

  lemma KeysOfTail(snap: seq<(DocId, Product)>)
    requires |snap| > 0
    ensures KeysOf(snap) == {snap[0].0} + KeysOf(snap[1..])
  {
    forall x | x in KeysOf(snap) ensures x in {snap[0].0} + KeysOf(snap[1..]) {
      var i :| 0 <= i < |snap| && snap[i].0 == x;
      if i > 0 { assert snap[1..][i - 1] == snap[i]; }
    }
    forall x | x in KeysOf(snap[1..]) ensures x in KeysOf(snap) {
      var i :| 0 <= i < |snap[1..]| && snap[1..][i].0 == x;
      assert snap[i + 1].0 == x;
    }
  }

  lemma ValuesTail(snap: seq<(DocId, Product)>)
    requires |snap| > 0
    ensures Values(snap) == [snap[0].1] + Values(snap[1..])
  {
  }

  /** A listing names every key of the collection. */
  lemma {:induction false} EnumerationKeys(snap: seq<(DocId, Product)>, m: map<DocId, Product>)
    requires Enumerates(snap, m)
    ensures KeysOf(snap) == m.Keys
    decreases |snap|
  {
    if |snap| == 0 {
      EmptyMap(m);
    } else {
      EnumeratesRest(snap, m);
      EnumerationKeys(snap[1..], m - {snap[0].0});
      KeysOfTail(snap);
    }
  }

  /** A listing holds exactly the collection's values. */
  lemma {:induction false} EnumerationValues(snap: seq<(DocId, Product)>, m: map<DocId, Product>)
    requires Enumerates(snap, m)
    ensures multiset(Values(snap)) == Bag(m)
    decreases |snap|
  {
    if |snap| == 0 {
      EmptyMap(m);
    } else {
      var k := snap[0].0;
      EnumeratesRest(snap, m);
      EnumerationValues(snap[1..], m - {k});
      BagRemove(m, k);
      ValuesTail(snap);
      assert multiset(Values(snap)) == multiset{snap[0].1} + multiset(Values(snap[1..]));
    }
  }

  // ----- The read-back record -----

  /** `{ id: d.id, ...d.data() }`: the spread comes last, so a stored `id`
      field overrides the document id. */
  function Record(key: DocId, stored: Product): (r: Product)
    ensures r.id.Some?
    ensures Strip(r) == Strip(stored)
    ensures stored.id.Some? ==> r == stored
    ensures stored.id.None? ==> r.id == Some(Key(key))
  {
    stored.(id := if stored.id.Some? then stored.id else Some(Key(key)))
  }

  /** `snap.docs.map(...)`: one record per document read, in listing order,
      each carrying that document's stored fields. */
  function ReadBack(snap: seq<(DocId, Product)>): (r: seq<Product>)
    ensures |r| == |snap|
    ensures forall i :: 0 <= i < |snap| ==> Strip(r[i]) == Strip(snap[i].1) && r[i].id.Some?
    ensures forall i :: 0 <= i < |snap| && snap[i].1.id.Some? ==> r[i] == snap[i].1
    ensures forall i :: 0 <= i < |snap| && snap[i].1.id.None? ==> r[i].id == Some(Key(snap[i].0))
  {
    seq(|snap|, i requires 0 <= i < |snap| => Record(snap[i].0, snap[i].1))
  }

  /** `r` is what reading the collection `m` back returns, for some listing
      order. */
  ghost predicate IsListing(r: seq<Product>, m: map<DocId, Product>) {
    exists snap :: Enumerates(snap, m) && r == ReadBack(snap)
  }

  function Stripped(ps: seq<Product>): (r: seq<Product>)
    ensures |r| == |ps|
  {
    if ps == [] then [] else [Strip(ps[0])] + Stripped(ps[1..])
  }

  /** Lists that agree element by element once ids are forgotten become the
      same list. */
  lemma {:induction false} StrippedAgree(a: seq<Product>, b: seq<Product>)
    requires |a| == |b|
    requires forall i :: 0 <= i < |a| ==> Strip(a[i]) == Strip(b[i])
    ensures Stripped(a) == Stripped(b)
    decreases |a|
  {
    if a != [] {
      assert forall i :: 0 <= i < |a| - 1 ==> a[1..][i] == a[i + 1] && b[1..][i] == b[i + 1];
      StrippedAgree(a[1..], b[1..]);
    }
  }

  lemma {:induction false} StrippedConcat(u: seq<Product>, v: seq<Product>)
    ensures Stripped(u + v) == Stripped(u) + Stripped(v)
    decreases |u|
  {
    if u == [] {
      assert u + v == v;
    } else {
      assert (u + v)[1..] == u[1..] + v;
      StrippedConcat(u[1..], v);
    }
  }

  lemma MultisetCancel(x: Product, p: multiset<Product>, q: multiset<Product>)
    requires multiset{x} + p == multiset{x} + q
    ensures p == q
  {
    forall y ensures p[y] == q[y] {
      assert (multiset{x} + p)[y] == (multiset{x} + q)[y];
    }
  }

  /** Taking the same element out of two permutations leaves permutations. */
  lemma PermutationRest(a: seq<Product>, u: seq<Product>, v: seq<Product>)
    requires |a| > 0 && multiset(a) == multiset(u + [a[0]] + v)
    ensures multiset(a[1..]) == multiset(u + v)
  {
    assert a == [a[0]] + a[1..];
    assert multiset(a) == multiset{a[0]} + multiset(a[1..]);
    assert multiset(u + [a[0]] + v) == multiset{a[0]} + multiset(u + v);
    MultisetCancel(a[0], multiset(a[1..]), multiset(u + v));
  }

  lemma StrippedStep(a: seq<Product>, u: seq<Product>, v: seq<Product>)
    requires |a| > 0
    requires multiset(Stripped(a[1..])) == multiset(Stripped(u + v))
    ensures multiset(Stripped(a)) == multiset(Stripped(u + [a[0]] + v))
  {
    var su, sx, sv := Stripped(u), Strip(a[0]), Stripped(v);
    assert multiset(Stripped(a)) == multiset{sx} + multiset(su) + multiset(sv) by {
      assert Stripped(a) == [sx] + Stripped(a[1..]);
      StrippedConcat(u, v);
    }
    assert multiset(Stripped(u + [a[0]] + v)) == multiset(su) + multiset{sx} + multiset(sv) by {
      StrippedConcat(u, [a[0]]);
      assert Stripped([a[0]]) == [sx];
      StrippedConcat(u + [a[0]], v);
    }
  }

  /** Forgetting ids keeps two lists that are permutations of each other
      permutations of each other. */
  lemma {:induction false} StrippedPermutation(a: seq<Product>, b: seq<Product>)
    requires multiset(a) == multiset(b)
    ensures multiset(Stripped(a)) == multiset(Stripped(b))
    decreases |a|
  {
    if |a| == 0 {
      assert |multiset(b)| == 0;
      assert b == [];
    } else {
      var x := a[0];
      assert x in multiset(b) by { assert x in multiset(a); }
      var j :| 0 <= j < |b| && b[j] == x;
      var u, v := b[..j], b[j + 1..];
      assert b == u + [x] + v;
      PermutationRest(a, u, v);
      StrippedPermutation(a[1..], u + v);
      StrippedStep(a, u, v);
    }
  }

  /** What a successful read-back returns, once the collection holds exactly
      the products `ps`: one record per product, with that product's fields;
      and the very products when each one carries its own id, because the
      stored id wins over the document id. */
  lemma ListingOfBatch(r: seq<Product>, m: map<DocId, Product>, ps: seq<Product>)
    requires IsListing(r, m)
    requires Bag(m) == multiset(ps)
    ensures |r| == |ps|
    ensures multiset(Stripped(r)) == multiset(Stripped(ps))
    ensures (forall i :: 0 <= i < |ps| ==> ps[i].id.Some?) ==> multiset(r) == multiset(ps)
  {
    var snap: seq<(DocId, Product)> :| Enumerates(snap, m) && r == ReadBack(snap);
    EnumerationValues(snap, m);
    assert |multiset(Values(snap))| == |multiset(ps)|;
    StrippedAgree(r, Values(snap));
    StrippedPermutation(Values(snap), ps);
    if forall i :: 0 <= i < |ps| ==> ps[i].id.Some? {
      IdsCarryOver(Values(snap), ps);
      ReadBackOfIdentified(snap);
    }
  }

  /** Every product of a permutation of identified products is identified. */
  lemma IdsCarryOver(vs: seq<Product>, ps: seq<Product>)
    requires multiset(vs) == multiset(ps)
    requires forall i :: 0 <= i < |ps| ==> ps[i].id.Some?
    ensures forall i :: 0 <= i < |vs| ==> vs[i].id.Some?
  {
    forall i | 0 <= i < |vs| ensures vs[i].id.Some? {
      assert vs[i] in multiset(ps);
    }
  }

  /** Documents that all store their own id read back unchanged. */
  lemma ReadBackOfIdentified(snap: seq<(DocId, Product)>)
    requires forall i :: 0 <= i < |snap| ==> Values(snap)[i].id.Some?
    ensures ReadBack(snap) == Values(snap)
  {
  }

  /** A read-back returns as many records as the collection has documents. */
  lemma ListingSize(r: seq<Product>, m: map<DocId, Product>)
    requires IsListing(r, m)
    ensures |r| == |m|
  {
  }

  // ----- Phases of one call -----

  /** `productData && productData.length > 0 ? productData : none`. */
  function Batch(productData: Option<seq<Product>>): (b: seq<Product>)
    ensures productData.None? ==> b == []
    ensures productData.Some? ==> b == productData.value
  {
    productData.GetOr([])
  }

  /** The clear phase fails when the listing fails or any deletion does. */
  predicate ClearFails(m: map<DocId, Product>, faults: Faults) {
    faults.clearListFails || m.Keys * faults.deleteFails != {}
  }

  /** What the clear phase leaves behind: everything if the listing failed,
      otherwise the documents whose own deletion failed. */
  function Survivors(m: map<DocId, Product>, faults: Faults): (r: map<DocId, Product>)
    ensures r.Keys <= m.Keys
    ensures forall k :: k in r ==> r[k] == m[k]
    ensures faults.clearListFails ==> r == m
    ensures !faults.clearListFails ==> r.Keys == m.Keys * faults.deleteFails
    ensures !ClearFails(m, faults) <==> !faults.clearListFails && r == map[]
  {
    if faults.clearListFails then m
    else
      var r := map k | k in m && k in faults.deleteFails :: m[k];
      assert r.Keys == m.Keys * faults.deleteFails;
      assert r.Keys == {} ==> r == map[];
      r
  }

  /** None of the first `n` insertions fails. */
  predicate NoneFail(n: nat, fails: set<nat>) {
    forall i :: 0 <= i < n ==> i !in fails
  }

  /** The products whose insertion succeeded, in input order. */
  function Landed(ps: seq<Product>, fails: set<nat>): seq<Product>
    decreases |ps|
  {
    if ps == [] then []
    else Landed(ps[..|ps| - 1], fails) + (if |ps| - 1 in fails then [] else [ps[|ps| - 1]])
  }

  /** Only input products land, each at most as often as it occurs. */
  lemma {:induction false} LandedSubset(ps: seq<Product>, fails: set<nat>)
    ensures multiset(Landed(ps, fails)) <= multiset(ps)
    decreases |ps|
  {
    if ps != [] {
      var n := |ps| - 1;
      LandedSubset(ps[..n], fails);
      assert ps == ps[..n] + [ps[n]];
      assert multiset(ps) == multiset(ps[..n]) + multiset{ps[n]};
    }
  }

  /** With no failed insertion, every product lands. */
  lemma {:induction false} LandedAll(ps: seq<Product>, fails: set<nat>)
    requires NoneFail(|ps|, fails)
    ensures Landed(ps, fails) == ps
    decreases |ps|
  {
    if ps != [] {
      var n := |ps| - 1;
      LandedAll(ps[..n], fails);
      assert ps == ps[..n] + [ps[n]];
    }
  }

  lemma LandedSnoc(ps: seq<Product>, i: nat, fails: set<nat>)
    requires i < |ps|
    ensures Landed(ps[..i + 1], fails) == Landed(ps[..i], fails) + (if i in fails then [] else [ps[i]])
  {
    assert ps[..i + 1][..i] == ps[..i];
  }

  lemma LogAppend(before: seq<Call>, calls: seq<Call>, more: seq<Call>)
    ensures before + calls + more == before + (calls + more)
  {
  }

  predicate NoAdds(calls: seq<Call>) {
    forall i :: 0 <= i < |calls| ==> !calls[i].AddCall?
  }

  lemma NoAddsConcat(a: seq<Call>, b: seq<Call>)
    requires NoAdds(a) && NoAdds(b)
    ensures NoAdds(a + b)
  {
  }

  predicate NoDeletes(calls: seq<Call>) {
    forall i :: 0 <= i < |calls| ==> !calls[i].DeleteCall?
  }

  /** No insertion is issued before a deletion. */
  predicate Ordered(calls: seq<Call>) {
    forall i, j :: 0 <= i < j < |calls| && calls[i].AddCall? ==> !calls[j].DeleteCall?
  }

  lemma NoAddsOrdered(a: seq<Call>)
    requires NoAdds(a)
    ensures Ordered(a)
  {
  }

  lemma OrderedConcat(a: seq<Call>, b: seq<Call>)
    requires NoAdds(a) && NoDeletes(b)
    ensures Ordered(a + b) && NoDeletes(b)
  {
  }

  lemma OrderedSnoc(a: seq<Call>, c: Call)
    requires Ordered(a) && !c.DeleteCall?
    ensures Ordered(a + [c])
  {
  }

  /** There is always a string longer than every string of a finite set. */
  lemma {:induction false} LongerThanAll(used: set<string>) returns (n: nat)
    ensures forall k :: k in used ==> |k| < n
  {
    if used == {} {
      n := 0;
    } else {
      var x :| x in used;
      var m := LongerThanAll(used - {x});
      n := if m > |x| then m else |x| + 1;
    }
  }

  /** After every listed document was asked to be deleted, the clear
      succeeded exactly when no deletion failed, and what is left is what
      `Survivors` says. */
  lemma ClearOutcome(before: map<DocId, Product>, s: seq<(DocId, Product)>, faults: Faults,
                     seen: set<DocId>, after: map<DocId, Product>, ok: bool)
    requires !faults.clearListFails
    requires Enumerates(s, before)
    requires forall j :: 0 <= j < |s| ==> s[j].0 in seen
    requires forall k :: k in after ==> k in before && after[k] == before[k]
    requires forall k :: k in before ==> (k in after <==> k in faults.deleteFails || k !in seen)
    requires ok <==> forall j :: 0 <= j < |s| ==> s[j].0 !in faults.deleteFails
    ensures ok <==> !ClearFails(before, faults)
    ensures after == Survivors(before, faults)
  {
    EnumerationKeys(s, before);
    if !ok {
      var j :| 0 <= j < |s| && s[j].0 in faults.deleteFails;
      assert s[j].0 in KeysOf(s);
      assert s[j].0 in before.Keys * faults.deleteFails;
    }
    if before.Keys * faults.deleteFails != {} {
      var k :| k in before.Keys * faults.deleteFails;
      assert k in KeysOf(s);
      var j :| 0 <= j < |s| && s[j].0 == k;
    }
    forall k | k in before ensures k in seen {
      assert k in KeysOf(s);
      var j :| 0 <= j < |s| && s[j].0 == k;
    }
    assert after.Keys == Survivors(before, faults).Keys;
  }

  /** One user's remote collection `productos/<userId>/items`. */
  class Collection {
    var docs: map<DocId, Product>
    /** Every document id the store has ever handed out. */
    var issued: set<DocId>
    /** Every primitive issued against the collection, oldest first. */
    ghost var log: seq<Call>

    ghost predicate Valid()
      reads this
    {
      docs.Keys <= issued
    }

    constructor (initial: map<DocId, Product>)
      ensures Valid() && docs == initial && log == []
    {
      docs := initial;
      issued := initial.Keys;
      log := [];
    }

    /** `getDocs`: list every document, in an order the store chooses. */
    method GetDocs(fails: bool) returns (snap: Option<seq<(DocId, Product)>>)
      modifies this`log
      ensures log == old(log) + [ListCall]
      ensures snap.None? <==> fails
      ensures snap.Some? ==> Enumerates(snap.value, docs)
    {
      log := log + [ListCall];
      if fails {
        return None;
      }
      var rest := docs.Keys;
      var s: seq<(DocId, Product)> := [];
      while rest != {}
        invariant rest <= docs.Keys
        invariant |s| + |rest| == |docs|
        invariant forall i :: 0 <= i < |s| ==> s[i].0 in docs && docs[s[i].0] == s[i].1 && s[i].0 !in rest
        invariant forall i, j :: 0 <= i < j < |s| ==> s[i].0 != s[j].0
        decreases |rest|
      {
        var k :| k in rest;
        s := s + [(k, docs[k])];
        rest := rest - {k};
      }
      return Some(s);
    }

    /** `addDoc`: store `p` under an id the store has never issued. */
    method AddDoc(p: Product, fails: bool) returns (key: Option<DocId>)
      requires Valid()
      modifies this`docs, this`issued, this`log
      ensures Valid()
      ensures log == old(log) + [AddCall(p)]
      ensures fails ==> key.None? && docs == old(docs) && issued == old(issued)
      ensures !fails ==> && key.Some? && key.value !in old(issued)
                         && docs == old(docs)[key.value := p]
                         && issued == old(issued) + {key.value}
    {
      log := log + [AddCall(p)];
      if fails {
        return None;
      }
      ghost var n := LongerThanAll(issued);
      ghost var unused := seq(n, _ => 'x');
      assert unused !in issued;
      var k :| k !in issued;
      docs := docs[k := p];
      issued := issued + {k};
      return Some(k);
    }

    /** `deleteDoc`: remove one document. */
    method DeleteDoc(k: DocId, fails: bool) returns (ok: bool)
      modifies this`docs, this`log
      ensures log == old(log) + [DeleteCall(k)]
      ensures ok == !fails
      ensures docs == if ok then old(docs) - {k} else old(docs)
    {
      log := log + [DeleteCall(k)];
      ok := !fails;
      if ok {
        docs := docs - {k};
      }
    }

    /** `Promise.all(snapshot.docs.map(deleteDoc))`: ask for the deletion of
        every listed document; each deletion that does not fail takes effect,
        whatever happens to the others. `seen` is the set of ids asked for. */
    method DeleteListed(s: seq<(DocId, Product)>, fails: set<DocId>)
      returns (ok: bool, ghost seen: set<DocId>, ghost calls: seq<Call>)
      modifies this`docs, this`log
      ensures forall j :: 0 <= j < |s| ==> s[j].0 in seen
      ensures forall k :: k in docs ==> k in old(docs) && docs[k] == old(docs)[k]
      ensures forall k :: k in old(docs) ==> (k in docs <==> k in fails || k !in seen)
      ensures ok <==> forall j :: 0 <= j < |s| ==> s[j].0 !in fails
      ensures log == old(log) + calls && NoAdds(calls) && |calls| == |s|
      ensures forall j :: 0 <= j < |s| ==> calls[j] == DeleteCall(s[j].0)
    {
      calls := [];
      seen := {};
      ok := true;
      var i := 0;
      while i < |s|
        invariant 0 <= i <= |s|
        invariant forall k :: k in docs ==> k in old(docs) && docs[k] == old(docs)[k]
        invariant forall j :: 0 <= j < i ==> s[j].0 in seen
        invariant forall k :: k in old(docs) ==> (k in docs <==> k in fails || k !in seen)
        invariant ok <==> forall j :: 0 <= j < i ==> s[j].0 !in fails
        invariant log == old(log) + calls && NoAdds(calls) && |calls| == i
        invariant forall j :: 0 <= j < i ==> calls[j] == DeleteCall(s[j].0)
      {
        var deleted := DeleteDoc(s[i].0, s[i].0 in fails);
        LogAppend(old(log), calls, [DeleteCall(s[i].0)]);
        calls := calls + [DeleteCall(s[i].0)];
        if !deleted {
          ok := false;
        }
        seen := seen + {s[i].0};
        i := i + 1;
      }
    }

    /** `deleteUserProducts`: list the collection and delete every document. */
    method DeleteUserProducts(faults: Faults) returns (ok: bool, ghost calls: seq<Call>)
      requires Valid()
      modifies this`docs, this`log
      ensures Valid()
      ensures ok <==> !ClearFails(old(docs), faults)
      ensures docs == Survivors(old(docs), faults)
      ensures ok ==> docs == map[]
      ensures log == old(log) + calls && |calls| > 0 && calls[0] == ListCall && NoAdds(calls)
      ensures old(docs) == map[] ==> calls == [ListCall]
    {
      var snap := GetDocs(faults.clearListFails);
      calls := [ListCall];
      if snap.None? {
        return false, calls;
      }
      var s := snap.value;
      ghost var before := docs;
      ghost var seen, dels;
      ok, seen, dels := DeleteListed(s, faults.deleteFails);
      NoAddsConcat(calls, dels);
      LogAppend(old(log), calls, dels);
      calls := calls + dels;
      ClearOutcome(before, s, faults, seen, docs, ok);
    }

    /** `Promise.all(array.map(prod => addDoc(ref, prod)))`: ask for the
        insertion of every product; each insertion that does not fail lands
        under a fresh id, whatever happens to the others. */
    method InsertAll(batch: seq<Product>, fails: set<nat>) returns (allLanded: bool, ghost calls: seq<Call>)
      requires Valid()
      modifies this`docs, this`issued, this`log
      ensures Valid() && old(issued) <= issued
      ensures forall k :: k in docs && k !in old(docs) ==> k !in old(issued)
      ensures old(docs) == map[] ==> Bag(docs) == multiset(Landed(batch, fails))
      ensures allLanded <==> NoneFail(|batch|, fails)
      ensures log == old(log) + calls && NoDeletes(calls)
      ensures |calls| == |batch| && forall i :: 0 <= i < |batch| ==> calls[i] == AddCall(batch[i])
    {
      calls := [];
      var i := 0;
      allLanded := true;
      while i < |batch|
        invariant 0 <= i <= |batch|
        invariant Valid() && old(issued) <= issued
        invariant forall k :: k in docs && k !in old(docs) ==> k !in old(issued)
        invariant old(docs) == map[] ==> Bag(docs) == multiset(Landed(batch[..i], fails))
        invariant allLanded <==> NoneFail(i, fails)
        invariant log == old(log) + calls && NoDeletes(calls)
        invariant |calls| == i && forall j :: 0 <= j < i ==> calls[j] == AddCall(batch[j])
      {
        ghost var pre := docs;
        var key := AddDoc(batch[i], i in fails);
        LogAppend(old(log), calls, [AddCall(batch[i])]);
        calls := calls + [AddCall(batch[i])];
        LandedSnoc(batch, i, fails);
        if key.None? {
          allLanded := false;
        } else {
          BagAdd(pre, key.value, batch[i]);
        }
        i := i + 1;
      }
      assert batch[..i] == batch;
    }

    /** The write half of `useDB`: clear the collection, then insert every
        product of a non-empty batch. */
    method Push(batch: seq<Product>, faults: Faults) returns (ok: bool, ghost calls: seq<Call>)
      requires Valid() && |batch| > 0
      modifies this`docs, this`issued, this`log
      ensures Valid()
      ensures log == old(log) + calls && Ordered(calls)
      ensures ClearFails(old(docs), faults) ==>
                !ok && docs == Survivors(old(docs), faults) && NoAdds(calls)
      ensures !ClearFails(old(docs), faults) ==>
                && docs.Keys !! old(docs).Keys
                && Bag(docs) == multiset(Landed(batch, faults.insertFails))
                && (ok <==> NoneFail(|batch|, faults.insertFails))
                && (ok ==> Bag(docs) == multiset(batch))
    {
      var cleared, clearCalls := DeleteUserProducts(faults);
      calls := clearCalls;
      NoAddsOrdered(calls);
      if !cleared {
        return false, calls;
      }
      ghost var addCalls;
      ok, addCalls := InsertAll(batch, faults.insertFails);
      OrderedConcat(calls, addCalls);
      LogAppend(old(log), calls, addCalls);
      calls := calls + addCalls;
      if ok {
        LandedAll(batch, faults.insertFails);
      }
    }

    /** `useDB(userId, productData)`: with a user and a non-empty list, clear
        the collection, insert every product, then read the collection back;
        with an empty list only read it back. Every failure, an insertion
        included, ends in `(null, false)`. */
    method Sync(userId: string, productData: Option<seq<Product>>, faults: Faults)
      returns (result: Option<seq<Product>>, ok: bool, ghost calls: seq<Call>)
      requires Valid()
      modifies this
      ensures Valid()
      ensures ok <==> result.Some?
      ensures log == old(log) + calls && Ordered(calls)
      // no user: nothing is read or written
      ensures userId == "" ==> !ok && docs == old(docs) && calls == []
      // empty list: a pure pull
      ensures userId != "" && Batch(productData) == [] ==>
                && docs == old(docs) && calls == [ListCall]
                && (ok <==> !faults.readFails)
                && (ok ==> IsListing(result.value, docs))
      // the clear failed: no insertion is attempted
      ensures userId != "" && Batch(productData) != [] && ClearFails(old(docs), faults) ==>
                && !ok && docs == Survivors(old(docs), faults)
                && NoAdds(calls)
      // the clear succeeded: the collection holds fresh documents, one per
      // product whose insertion did not fail
      ensures userId != "" && Batch(productData) != [] && !ClearFails(old(docs), faults) ==>
                && docs.Keys !! old(docs).Keys
                && Bag(docs) == multiset(Landed(Batch(productData), faults.insertFails))
                && (ok <==> NoneFail(|Batch(productData)|, faults.insertFails) && !faults.readFails)
                && (ok ==> Bag(docs) == multiset(Batch(productData)) && IsListing(result.value, docs))
    {
      calls := [];
      if userId == "" {
        return None, false, calls;
      }
      var batch := Batch(productData);
      if |batch| > 0 {
        var pushed; ghost var pushCalls;
        pushed, pushCalls := Push(batch, faults);
        calls := pushCalls;
        if !pushed {
          return None, false, calls;
        }
      }
      var snap := GetDocs(faults.readFails);
      OrderedSnoc(calls, ListCall);
      LogAppend(old(log), calls, [ListCall]);
      calls := calls + [ListCall];
      if snap.None? {
        return None, false, calls;
      }
      result, ok := Some(ReadBack(snap.value)), true;
    }
  }
}
