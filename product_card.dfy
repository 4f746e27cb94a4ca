/** The product card: its image fallback and the heart that mirrors the
    local favorites store. */
module ProductCard {
  import opened Models
  import opened FavoriteService

  const DefaultImage: string := "https://cdn-icons-png.flaticon.com/512/892/892458.png"

  /** The first image when there is one, the placeholder otherwise. */
  function DisplayImage(product: StoredProduct): (url: string)
    ensures |product.images| > 0 ==> url == product.images[0]
    ensures product.images == [] ==> url == DefaultImage
    ensures url in product.images || url == DefaultImage
  {
    if |product.images| > 0 then product.images[0] else DefaultImage
  }

  /** One card: the product it shows, the store it writes to and the heart
      flag it renders. */
  class Card {
    const product: StoredProduct
    const store: FavoriteStore
    var favorite: bool

    /** The heart starts empty until the store has been asked. */
    constructor (product: StoredProduct, store: FavoriteStore)
      ensures this.product == product && this.store == store
      ensures !favorite
    {
      this.product := product;
      this.store := store;
      favorite := false;
    }

    /** `checkFavorite`: the flag takes the store's answer. */
    method CheckFavorite()
      modifies this
      ensures favorite <==> HasProductId(store.Stored(), product.id)
      ensures store.storage == old(store.storage)
    {
      favorite := store.IsProductFavorite(product.id);
    }

    /** `handleFavorite`: a filled heart removes the product from the store, an
        empty one adds it; the flag is negated and, whatever it was before,
        afterwards agrees with the store. */
    method HandleFavorite()
      modifies this, store
      ensures old(store.Valid()) ==> store.Valid()
      ensures favorite == !old(favorite)
      ensures favorite <==> HasProductId(store.Stored(), product.id)
      ensures old(favorite) ==>
        store.storage == old(store.storage)[FavoritesKey := WithoutId(old(store.Stored()), product.id)]
      ensures !old(favorite) && !HasProductId(old(store.Stored()), product.id) ==>
        store.storage == old(store.storage)[FavoritesKey := old(store.Stored()) + [product]]
      ensures !old(favorite) && HasProductId(old(store.Stored()), product.id) ==>
        store.storage == old(store.storage)
    {
      if favorite {
        store.RemoveFavoriteProduct(product.id);
        favorite := false;
      } else {
        store.AddFavoriteProduct(product);
        favorite := true;
      }
    }
  }
}
