/** The device-local favorites store: a list of product snapshots kept under
    one storage key. Device storage is a map from keys to stored values, and
    encoding to and decoding from JSON is taken to round-trip, so the value
    stored is the list itself. */
module FavoriteService {
  import opened Common
  import opened Models

  const FavoritesKey: string := "FAVORITE_PRODUCTS"

  /** Some entry has this id (the `find`/`some` of the service). */
  predicate HasProductId(favorites: seq<StoredProduct>, productId: string) {
    exists i :: 0 <= i < |favorites| && favorites[i].id == productId
  }

  /** No two entries share an id: the add operation never creates a
      duplicate, and removal keeps this. */
  predicate UniqueIds(favorites: seq<StoredProduct>) {
    forall i, j :: 0 <= i < j < |favorites| ==> favorites[i].id != favorites[j].id
  }

  function OtherId(productId: string): StoredProduct -> bool {
    (p: StoredProduct) => p.id != productId
  }

  /** `favorites.filter(p => p.id !== productId)`: drops every entry with the
      id, keeps the others in order. */
  function WithoutId(favorites: seq<StoredProduct>, productId: string): (r: seq<StoredProduct>)
    ensures !HasProductId(r, productId)
    ensures forall p :: p in r <==> p in favorites && p.id != productId
    ensures IsSubsequence(r, favorites)
    ensures UniqueIds(favorites) ==> UniqueIds(r)
  {
    WithoutIdFacts(favorites, productId);
    Filter(OtherId(productId), favorites)
  }

  lemma WithoutIdFacts(favorites: seq<StoredProduct>, productId: string)
    ensures !HasProductId(Filter(OtherId(productId), favorites), productId)
    ensures forall p :: p in Filter(OtherId(productId), favorites) <==> p in favorites && p.id != productId
    ensures IsSubsequence(Filter(OtherId(productId), favorites), favorites)
    ensures UniqueIds(favorites) ==> UniqueIds(Filter(OtherId(productId), favorites))
  {
    var r := Filter(OtherId(productId), favorites);
    forall p ensures p in r <==> p in favorites && p.id != productId {
      FilterMembership(OtherId(productId), favorites, p);
    }
    forall i | 0 <= i < |r| ensures r[i].id != productId {
      assert r[i] in r;
    }
    FilterIsSubsequence(OtherId(productId), favorites);
    if UniqueIds(favorites) {
      forall i, j | 0 <= i < j < |r| ensures r[i].id != r[j].id {
        UniqueIdsSubsequence(r, favorites, i, j);
      }
    }
  }

  /** A subsequence of a list with unique ids has unique ids. */
  lemma {:induction false} UniqueIdsSubsequence(a: seq<StoredProduct>, b: seq<StoredProduct>, i: nat, j: nat)
    requires UniqueIds(b) && IsSubsequence(a, b) && i < j < |a|
    ensures a[i].id != a[j].id
    decreases |b|
  {
    assert b != [];
    if a[0] == b[0] && IsSubsequence(a[1..], b[1..]) {
      if i == 0 {
        SubsequenceMembers(a[1..], b[1..]);
        assert a[j] == a[1..][j - 1];
        assert a[1..][j - 1] in b[1..];
        var m :| 0 <= m < |b[1..]| && b[1..][m] == a[j];
        assert b[m + 1] == a[j];
      } else {
        UniqueIdsSubsequence(a[1..], b[1..], i - 1, j - 1);
      }
    } else {
      UniqueIdsSubsequence(a, b[1..], i, j);
    }
  }

  /** The persistent store. `storage` is the device's key-value storage. */
  class FavoriteStore {
    var storage: map<string, seq<StoredProduct>>

    /** The stored list; an absent key reads as the empty list. */
    function Stored(): seq<StoredProduct>
      reads this
    {
      if FavoritesKey in storage then storage[FavoritesKey] else []
    }

    predicate Valid()
      reads this
    {
      UniqueIds(Stored())
    }

    constructor ()
      ensures storage == map[] && Stored() == [] && Valid()
    {
      storage := map[];
    }

    /** `getFavoriteProducts`. */
    method GetFavoriteProducts() returns (favorites: seq<StoredProduct>)
      ensures FavoritesKey !in storage ==> favorites == []
      ensures FavoritesKey in storage ==> favorites == storage[FavoritesKey]
    {
      if FavoritesKey in storage {
        favorites := storage[FavoritesKey];
      } else {
        favorites := [];
      }
    }

    /** `addFavoriteProduct`: appends and writes back only when no entry has
        the product's id; otherwise nothing is written and the snapshot
        already stored is kept. */
    method AddFavoriteProduct(product: StoredProduct)
      modifies this
      ensures old(Valid()) ==> Valid()
      ensures HasProductId(Stored(), product.id)
      ensures HasProductId(old(Stored()), product.id) ==> storage == old(storage)
      ensures !HasProductId(old(Stored()), product.id) ==>
        storage == old(storage)[FavoritesKey := old(Stored()) + [product]]
    {
      var favorites := GetFavoriteProducts();
      if !HasProductId(favorites, product.id) {
        favorites := favorites + [product];
        assert favorites[|favorites| - 1] == product;
        storage := storage[FavoritesKey := favorites];
      }
    }

    /** `removeFavoriteProduct`: always writes back the list without the id. */
    method RemoveFavoriteProduct(productId: string)
      modifies this
      ensures old(Valid()) ==> Valid()
      ensures !HasProductId(Stored(), productId)
      ensures storage == old(storage)[FavoritesKey := WithoutId(old(Stored()), productId)]
    {
      var favorites := GetFavoriteProducts();
      favorites := WithoutId(favorites, productId);
      storage := storage[FavoritesKey := favorites];
    }

    /** `isProductFavorite`. */
    method IsProductFavorite(productId: string) returns (b: bool)
      ensures b <==> exists i :: 0 <= i < |Stored()| && Stored()[i].id == productId
    {
      var favorites := GetFavoriteProducts();
      assert favorites == Stored();
      b := HasProductId(favorites, productId);
    }
  }

  /** Removing an id that is not stored writes the same list back. */
  lemma RemoveAbsentKeepsList(favorites: seq<StoredProduct>, productId: string)
    requires !HasProductId(favorites, productId)
    ensures WithoutId(favorites, productId) == favorites
  {
    assert forall i :: 0 <= i < |favorites| ==> OtherId(productId)(favorites[i]);
    FilterAllKept(OtherId(productId), favorites);
  }

  /** Adding a product and then removing its id leaves the list it started
      from, when the id was not stored before. */
  lemma AddThenRemove(favorites: seq<StoredProduct>, product: StoredProduct)
    requires !HasProductId(favorites, product.id)
    ensures WithoutId(favorites + [product], product.id) == favorites
  {
    FilterAppend(OtherId(product.id), favorites, [product]);
    RemoveAbsentKeepsList(favorites, product.id);
    assert Filter(OtherId(product.id), [product]) == [];
  }
}
