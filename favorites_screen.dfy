/** The favorites screen: it resolves the session's favorite ids into
    products one lookup at a time, shows a loading, empty or list view, and
    removes a product through the session's favorite toggle. */
module FavoritesScreen {
  import opened Common
  import opened Models
  import opened AppContext

  /** The products found for `ids`, in the order of `ids`; ids the lookup
      does not find are skipped. */
  function Resolve(ids: seq<string>, lookup: Lookup): seq<Product>
    decreases |ids|
  {
    if ids == [] then []
    else
      var n := |ids| - 1;
      var found := lookup(ids[n]);
      Resolve(ids[..n], lookup) + (if found.Some? then [found.value] else [])
  }

  /** Resolving a concatenation resolves each part in turn. */
  lemma {:induction false} ResolveAppend(a: seq<string>, b: seq<string>, lookup: Lookup)
    ensures Resolve(a + b, lookup) == Resolve(a, lookup) + Resolve(b, lookup)
    decreases |b|
  {
    if b == [] {
      assert a + b == a;
    } else {
      var n := |b| - 1;
      assert (a + b)[..|a + b| - 1] == a + b[..n];
      assert (a + b)[|a + b| - 1] == b[n];
      ResolveAppend(a, b[..n], lookup);
    }
  }

  /** No more products than ids, and exactly as many when every id is found. */
  lemma {:induction false} ResolveLength(ids: seq<string>, lookup: Lookup)
    ensures |Resolve(ids, lookup)| <= |ids|
    ensures (forall i :: 0 <= i < |ids| ==> lookup(ids[i]).Some?) ==> |Resolve(ids, lookup)| == |ids|
    decreases |ids|
  {
    if ids != [] {
      var n := |ids| - 1;
      ResolveLength(ids[..n], lookup);
      assert forall i :: 0 <= i < n ==> ids[..n][i] == ids[i];
    }
  }

  /** The lookup finds `p` for the id at position `i`. */
  predicate FoundAt(ids: seq<string>, lookup: Lookup, i: int, p: Product) {
    0 <= i < |ids| && lookup(ids[i]) == Some(p)
  }

  /** A product is listed iff the lookup returns it for some favorite id. */
  lemma {:induction false} ResolveMembers(ids: seq<string>, lookup: Lookup, p: Product)
    ensures p in Resolve(ids, lookup) <==> exists i :: FoundAt(ids, lookup, i, p)
    decreases |ids|
  {
    if ids != [] {
      var n := |ids| - 1;
      var tail := if lookup(ids[n]).Some? then [lookup(ids[n]).value] else [];
      assert Resolve(ids, lookup) == Resolve(ids[..n], lookup) + tail;
      ResolveMembers(ids[..n], lookup, p);
      if p in tail {
        assert FoundAt(ids, lookup, n, p);
      }
      if exists i :: FoundAt(ids[..n], lookup, i, p) {
        var i :| FoundAt(ids[..n], lookup, i, p);
        assert FoundAt(ids, lookup, i, p);
      }
      if exists i :: FoundAt(ids, lookup, i, p) {
        var i :| FoundAt(ids, lookup, i, p);
        if i < n {
          assert FoundAt(ids[..n], lookup, i, p);
        } else {
          assert p in tail;
        }
      }
    }
  }

  /** When every id is found, position `i` of the list is the product of the
      `i`-th favorite id. */
  lemma {:induction false} ResolveAllFound(ids: seq<string>, lookup: Lookup)
    requires forall i :: 0 <= i < |ids| ==> lookup(ids[i]).Some?
    ensures |Resolve(ids, lookup)| == |ids|
    ensures forall i :: 0 <= i < |ids| ==> Resolve(ids, lookup)[i] == lookup(ids[i]).value
    decreases |ids|
  {
    if ids != [] {
      var n := |ids| - 1;
      assert forall i :: 0 <= i < n ==> ids[..n][i] == ids[i];
      ResolveAllFound(ids[..n], lookup);
    }
  }

  /** The lookup answers with the product carrying the id it was asked for. */
  ghost predicate LookupRespectsIds(lookup: Lookup) {
    forall id :: lookup(id).Some? ==> lookup(id).value.id == id
  }

  /** "Remove from favorites" toggles a listed product's id, which is then a
      favorite id, so the toggle removes it: the product is no longer
      resolved and every other id keeps its membership. */
  lemma RemoveListedProduct(favorites: seq<string>, lookup: Lookup, p: Product)
    requires LookupRespectsIds(lookup)
    requires p in Resolve(favorites, lookup)
    ensures p.id in favorites
    ensures p.id !in Toggled(favorites, p.id)
    ensures forall x :: x != p.id ==> (x in Toggled(favorites, p.id) <==> x in favorites)
    ensures p !in Resolve(Toggled(favorites, p.id), lookup)
  {
    ResolveMembers(favorites, lookup, p);
    var i :| FoundAt(favorites, lookup, i, p);
    assert favorites[i] == p.id;
    var after := Toggled(favorites, p.id);
    ResolveMembers(after, lookup, p);
    forall j | 0 <= j < |after| ensures !FoundAt(after, lookup, j, p) {
      assert after[j] in after;
    }
  }

  /** One lookup request and the loading flag while it was in flight. */
  datatype LookupRequest = LookupRequest(id: string, loadingWhileSent: bool)

  /** What the screen shows. */
  datatype FavoritesView = LoadingView | EmptyView | ProductList(products: seq<Product>)

  function ViewFor(loading: bool, products: seq<Product>): (v: FavoritesView)
    ensures v.LoadingView? <==> loading
    ensures v.EmptyView? <==> !loading && products == []
    ensures v.ProductList? ==> v.products == products && products != []
  {
    if loading then LoadingView
    else if products == [] then EmptyView
    else ProductList(products)
  }

  class Favorites {
    var loading: bool
    var favoriteProducts: seq<Product>
    var lookups: seq<LookupRequest>

    constructor ()
      ensures loading && favoriteProducts == [] && lookups == []
      ensures ViewFor(loading, favoriteProducts) == LoadingView
    {
      loading := true;
      favoriteProducts := [];
      lookups := [];
    }

    /** `fetchFavorites`: one lookup per favorite id, in order, all while
        loading; the products found replace the list and loading ends. A
        rejected lookup ends the effect there: the list is not replaced and
        loading stays on. */
    method FetchFavorites(favorites: seq<string>, lookup: Lookup, rejects: Rejects)
      modifies this
      ensures var k := FirstRejection(favorites, rejects);
        lookups == old(lookups) + seq(if k < |favorites| then k + 1 else k,
          i requires 0 <= i < |favorites| && i <= k => LookupRequest(favorites[i], true))
      ensures FirstRejection(favorites, rejects) == |favorites| ==>
        favoriteProducts == Resolve(favorites, lookup) && !loading
      ensures FirstRejection(favorites, rejects) < |favorites| ==>
        favoriteProducts == old(favoriteProducts) && loading
    {
      loading := true;
      var products: seq<Product> := [];
      var i := 0;
      while i < |favorites|
        invariant 0 <= i <= |favorites|
        invariant i <= FirstRejection(favorites, rejects)
        invariant loading && favoriteProducts == old(favoriteProducts)
        invariant products == Resolve(favorites[..i], lookup)
        invariant lookups == old(lookups) + seq(i, j requires 0 <= j < i => LookupRequest(favorites[j], true))
      {
        var id := favorites[i];
        lookups := lookups + [LookupRequest(id, loading)];
        if rejects(id) {
          return;
        }
        var product := lookup(id);
        if product.Some? {
          products := products + [product.value];
        }
        assert favorites[..i + 1][..i] == favorites[..i];
        i := i + 1;
      }
      assert favorites[..i] == favorites;
      favoriteProducts := products;
      loading := false;
    }
  }
}
