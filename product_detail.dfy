/** The product detail screen: the guard in front of "add to cart", the
    line item it builds, and the favorite heart. The product is what the
    remote lookup returned (`None` when it failed to load) and the two
    selections start out unset (`None`). */
module ProductDetail {
  import opened Common
  import opened Models
  import opened AppContext

  /** A selection counts as made when it is set and not the empty string
      (`!selectedSize` is true for both `null` and ""). */
  predicate Chosen(selection: Option<string>) {
    selection.Some? && selection.value != ""
  }

  /** What `handleAddToCart` decides to do. */
  datatype AddDecision =
    | MissingSelection   // the "choose a size and a color" alert
    | ProductMissing     // silent return
    | AddLine(item: CartItem)

  /** The guard and the item construction of `handleAddToCart`. */
  function DecideAdd(product: Option<Product>, size: Option<string>, color: Option<string>): (d: AddDecision)
    ensures d.MissingSelection? <==> !Chosen(size) || !Chosen(color)
    ensures d.ProductMissing? <==> Chosen(size) && Chosen(color) && product.None?
    ensures d.AddLine? <==> Chosen(size) && Chosen(color) && product.Some?
    ensures d.AddLine? ==>
      && d.item.productId == product.value.id
      && d.item.name == product.value.name
      && d.item.price == product.value.price
      && d.item.imageUrl == product.value.imageUrl
      && d.item.size == size.value && d.item.size != ""
      && d.item.color == color.value && d.item.color != ""
      && d.item.quantity == 1
  {
    if !Chosen(size) || !Chosen(color) then MissingSelection
    else if product.None? then ProductMissing
    else
      var p := product.value;
      AddLine(CartItem(p.id, p.name, p.price, p.imageUrl, size.value, color.value, 1))
  }

  /** The alert the handler shows afterwards. */
  datatype Alert = NoAlert | WarningAlert | SuccessAlert

  /** `handleAddToCart`: adds the built line to the session cart, or leaves
      the session untouched when the guard stops it. */
  method HandleAddToCart(session: AppProvider, product: Option<Product>, size: Option<string>, color: Option<string>)
    returns (alert: Alert)
    requires session.Valid()
    modifies session
    ensures session.Valid()
    ensures var d := DecideAdd(product, size, color);
      && (d.AddLine? ==> session.cart == Added(old(session.cart), d.item))
      && (!d.AddLine? ==> session.cart == old(session.cart))
    ensures session.favorites == old(session.favorites)
    ensures alert == match DecideAdd(product, size, color)
      case MissingSelection => WarningAlert
      case ProductMissing => NoAlert
      case AddLine(_) => SuccessAlert
  {
    var d := DecideAdd(product, size, color);
    match d
    case MissingSelection =>
      alert := WarningAlert;
    case ProductMissing =>
      alert := NoAlert;
    case AddLine(item) =>
      session.AddToCart(item);
      alert := SuccessAlert;
  }

  /** The heart is filled iff the id is among the favorites. */
  predicate IsFavorite(favorites: seq<string>, productId: string) {
    productId in favorites
  }

  /** `handleToggleFavorite`: the heart flips and nothing else changes. */
  method HandleToggleFavorite(session: AppProvider, productId: string)
    requires session.Valid()
    modifies session
    ensures session.Valid()
    ensures IsFavorite(session.favorites, productId) <==> !IsFavorite(old(session.favorites), productId)
    ensures forall x :: x != productId ==> (IsFavorite(session.favorites, x) <==> IsFavorite(old(session.favorites), x))
    ensures session.favorites == Toggled(old(session.favorites), productId)
    ensures session.cart == old(session.cart)
  {
    session.ToggleFavorite(productId);
  }

  /** `n` copies of one item. */
  function Copies(item: CartItem, n: nat): (items: seq<CartItem>)
    ensures |items| == n
    ensures forall i :: 0 <= i < n ==> items[i] == item
  {
    seq(n, _ => item)
  }

  lemma {:induction false} SumOfCopies(item: CartItem, n: nat)
    ensures SumQuantities(Copies(item, n)) == n * item.quantity
    decreases n
  {
    if n > 0 {
      assert Copies(item, n)[1..] == Copies(item, n - 1);
      SumOfCopies(item, n - 1);
    }
  }

  /** There is no stock check when adding: pressing "add" `n` times with the
      same product and selection, starting from a cart without that key,
      leaves one line for the key with quantity `n`. */
  lemma RepeatedAddToCart(cart: seq<CartItem>, product: Option<Product>, size: Option<string>, color: Option<string>, n: nat)
    requires UniqueKeys(cart) && n > 0
    requires DecideAdd(product, size, color).AddLine?
    requires !HasLine(cart, KeyOf(DecideAdd(product, size, color).item))
    ensures var item := DecideAdd(product, size, color).item;
      var r := AddAll(cart, Copies(item, n));
      && UniqueKeys(r) && HasLine(r, KeyOf(item))
      && forall i :: 0 <= i < |r| && KeyOf(r[i]) == KeyOf(item) ==> r[i].quantity == n
  {
    var item := DecideAdd(product, size, color).item;
    SumOfCopies(item, n);
    RepeatedAddsFromAbsent(cart, Copies(item, n), KeyOf(item));
  }
}
