/** The cart screen: order totals and the shipping rule, the stock map it
    fetches for the cart lines, and the rules that enable the +/- buttons.
    Amounts are in kuruş, so 300 TL is 30000 and 50 TL is 5000. */
module CartScreen {
  import opened Common
  import opened Models
  import opened AppContext

  const FreeShippingLimit: int := 30000
  const ShippingFlatFee: int := 5000
  /** The cap used for a line whose stock has not been fetched. */
  const UnknownStockCap: int := 99

  function LineTotal(item: CartItem): int {
    item.price * item.quantity
  }

  /** `cart.reduce((sum, item) => sum + item.price * item.quantity, 0)`. */
  function Subtotal(cart: seq<CartItem>): int
    decreases |cart|
  {
    if cart == [] then 0 else Subtotal(cart[..|cart| - 1]) + LineTotal(cart[|cart| - 1])
  }

  /** The subtotal of a concatenation is the sum of the subtotals. */
  lemma {:induction false} SubtotalAppend(a: seq<CartItem>, b: seq<CartItem>)
    ensures Subtotal(a + b) == Subtotal(a) + Subtotal(b)
    decreases |b|
  {
    if b == [] {
      assert a + b == a;
    } else {
      var n := |b| - 1;
      assert (a + b)[..|a + b| - 1] == a + b[..n];
      SubtotalAppend(a, b[..n]);
    }
  }

  /** Without negative prices or quantities the subtotal is not negative. */
  lemma {:induction false} SubtotalNonNegative(cart: seq<CartItem>)
    requires forall i :: 0 <= i < |cart| ==> cart[i].price >= 0 && cart[i].quantity >= 0
    ensures Subtotal(cart) >= 0
    decreases |cart|
  {
    if cart != [] {
      SubtotalNonNegative(cart[..|cart| - 1]);
      var last := cart[|cart| - 1];
      assert last.price * last.quantity >= 0;
    }
  }

  /** Two carts that differ only at line `i`. */
  lemma {:induction false} SubtotalReplaceAt(a: seq<CartItem>, b: seq<CartItem>, i: nat)
    requires |a| == |b| && i < |a|
    requires forall j :: 0 <= j < |a| && j != i ==> a[j] == b[j]
    ensures Subtotal(b) == Subtotal(a) - LineTotal(a[i]) + LineTotal(b[i])
    decreases |a|
  {
    var n := |a| - 1;
    if i < n {
      SubtotalReplaceAt(a[..n], b[..n], i);
    } else {
      assert a[..n] == b[..n];
    }
  }

  /** The line total after its quantity changes by `d`. */
  lemma LineTotalShift(a: CartItem, b: CartItem, d: int)
    requires b == a.(quantity := a.quantity + d)
    ensures LineTotal(b) == LineTotal(a) + a.price * d
  {
    assert a.price * (a.quantity + d) == a.price * a.quantity + a.price * d;
  }

  /** Adding an item with a new key raises the subtotal by the item's total. */
  lemma AddedSubtotalNew(cart: seq<CartItem>, item: CartItem)
    requires !HasLine(cart, KeyOf(item))
    ensures Subtotal(Added(cart, item)) == Subtotal(cart) + item.price * item.quantity
  {
    var r := Added(cart, item);
    AddedNewKey(cart, item);
    assert r == cart + [item];
    assert r[..|r| - 1] == cart;
  }

  /** Adding an item whose key is on line `i` raises the subtotal by the added
      quantity at that line's snapshot price. */
  lemma AddedSubtotalExisting(cart: seq<CartItem>, item: CartItem, i: nat)
    requires UniqueKeys(cart) && i < |cart| && KeyOf(cart[i]) == KeyOf(item)
    ensures Subtotal(Added(cart, item)) == Subtotal(cart) + cart[i].price * item.quantity
  {
    var r := Added(cart, item);
    assert HasLine(cart, KeyOf(item));
    AddedExistingKey(cart, item, i);
    forall j | 0 <= j < |cart| && j != i ensures cart[j] == r[j] {
      assert KeyOf(cart[j]) != KeyOf(cart[i]);
      AddedExistingKey(cart, item, j);
    }
    SubtotalReplaceAt(cart, r, i);
    LineTotalShift(cart[i], r[i], item.quantity);
  }

  /** Free shipping from 300 TL on, a flat 50 TL below. */
  function ShippingFee(subtotal: int): (fee: int)
    ensures fee == 0 <==> subtotal >= FreeShippingLimit
    ensures fee == 0 || fee == ShippingFlatFee
  {
    if subtotal >= FreeShippingLimit then 0 else ShippingFlatFee
  }

  function GrandTotal(subtotal: int): (total: int)
    ensures total >= subtotal
    ensures total - subtotal == ShippingFee(subtotal)
    ensures ShippingFee(subtotal) == 0 ==> total >= FreeShippingLimit
  {
    subtotal + ShippingFee(subtotal)
  }

  /** The "add this much more for free shipping" hint, shown only while a fee
      is charged; the amount is then strictly positive. */
  function FreeShippingHint(subtotal: int): (hint: Option<int>)
    ensures hint.Some? <==> ShippingFee(subtotal) > 0
    ensures hint.Some? ==> hint.value > 0 && subtotal + hint.value == FreeShippingLimit
  {
    if ShippingFee(subtotal) > 0 then Some(FreeShippingLimit - subtotal) else None
  }

  /** What the screen shows below the list. */
  datatype CartView =
    | EmptyCart
    | Summary(hint: Option<int>, subtotal: int, shippingFee: int, grandTotal: int)

  function View(cart: seq<CartItem>): (v: CartView)
    ensures v.EmptyCart? <==> cart == []
    ensures v.Summary? ==> v.subtotal == Subtotal(cart) && v.grandTotal == v.subtotal + v.shippingFee
    ensures v.Summary? ==> v.shippingFee == ShippingFee(v.subtotal) && v.hint == FreeShippingHint(v.subtotal)
  {
    if cart == [] then EmptyCart
    else
      var s := Subtotal(cart);
      Summary(FreeShippingHint(s), s, ShippingFee(s), GrandTotal(s))
  }

  /** 299.99 TL pays the fee, 300.00 TL does not. */
  lemma ShippingAtTheLimit()
    ensures ShippingFee(29999) == 5000 && GrandTotal(29999) == 34999
    ensures ShippingFee(30000) == 0 && GrandTotal(30000) == 30000
  {
  }

  // ---------------------------------------------------------------------
  // Stock lookup.

  /** The stock-map key `${productId}_${size}_${color}`. */
  function StockKey(item: CartItem): string {
    item.productId + "_" + item.size + "_" + item.color
  }

  /** `product?.stock || 1`: a missing product or a zero stock counts as 1. */
  function StoredStock(product: Option<Product>): (s: int)
    ensures product.None? ==> s == 1
    ensures product.Some? && product.value.stock != 0 ==> s == product.value.stock
    ensures product.Some? && product.value.stock == 0 ==> s == 1
    ensures product.Some? && product.value.stock >= 0 ==> s >= 1
  {
    match product
    case None => 1
    case Some(p) => if p.stock == 0 then 1 else p.stock
  }

  /** No later line of `cart` shares the stock key of line `j`. */
  ghost predicate LastWithStockKey(cart: seq<CartItem>, j: int)
    requires 0 <= j < |cart|
  {
    forall l :: j < l < |cart| ==> StockKey(cart[l]) != StockKey(cart[j])
  }

  /** The stock map after `fetchStocks` has visited the lines of `cart` in
      order, each visit writing its product's stock under its key. */
  function StockMapOf(cart: seq<CartItem>, lookup: Lookup): map<string, int>
    decreases |cart|
  {
    if cart == [] then map[]
    else
      var n := |cart| - 1;
      StockMapOf(cart[..n], lookup)[StockKey(cart[n]) := StoredStock(lookup(cart[n].productId))]
  }

  /** The product id of every cart line, in cart order. */
  function ProductIds(cart: seq<CartItem>): (ids: seq<string>)
    ensures |ids| == |cart|
    ensures forall i :: 0 <= i < |cart| ==> ids[i] == cart[i].productId
  {
    seq(|cart|, i requires 0 <= i < |cart| => cart[i].productId)
  }

  /** `fetchStocks`: visits the cart lines in order and records the stock of
      each line's product under its stock key. A rejected lookup ends the
      effect before `setStockMap`, so the screen keeps `current`. */
  method FetchStocks(cart: seq<CartItem>, lookup: Lookup, rejects: Rejects, current: map<string, int>)
    returns (stockMap: map<string, int>)
    ensures FirstRejection(ProductIds(cart), rejects) == |cart| ==> stockMap == StockMapOf(cart, lookup)
    ensures FirstRejection(ProductIds(cart), rejects) < |cart| ==> stockMap == current
  {
    var ids := ProductIds(cart);
    var m := map[];
    var i := 0;
    while i < |cart|
      invariant 0 <= i <= |cart|
      invariant i <= FirstRejection(ids, rejects)
      invariant m == StockMapOf(cart[..i], lookup)
    {
      var item := cart[i];
      if rejects(item.productId) {
        return current;
      }
      var product := lookup(item.productId);
      m := m[StockKey(item) := StoredStock(product)];
      assert cart[..i + 1][..i] == cart[..i];
      i := i + 1;
    }
    assert cart[..i] == cart;
    stockMap := m;
  }

  /** Before any fetch completes, the map is empty and every cap is the
      fallback of 99; a rejected fetch leaves it so. */
  lemma InitialStockMapCaps(item: CartItem)
    ensures MaxStock(map[], item) == UnknownStockCap
  {
  }

  /** The fetched map has an entry for exactly the stock keys of the cart,
      and none of its entries is zero. */
  lemma {:induction false} StockMapOfKeys(cart: seq<CartItem>, lookup: Lookup)
    ensures forall j :: 0 <= j < |cart| ==> StockKey(cart[j]) in StockMapOf(cart, lookup)
    ensures forall k :: k in StockMapOf(cart, lookup) ==> exists j :: 0 <= j < |cart| && StockKey(cart[j]) == k
    ensures forall k :: k in StockMapOf(cart, lookup) ==> StockMapOf(cart, lookup)[k] != 0
    decreases |cart|
  {
    if cart != [] {
      var n := |cart| - 1;
      var pre := cart[..n];
      StockMapOfKeys(pre, lookup);
      assert forall j :: 0 <= j < n ==> pre[j] == cart[j];
      StockKeysStep(cart, n, StockMapOf(pre, lookup), StockMapOf(cart, lookup), StoredStock(lookup(cart[n].productId)));
    }
  }

  /** The entry of a key is the stock of the last line carrying it. */
  lemma {:induction false} StockMapOfLastWins(cart: seq<CartItem>, lookup: Lookup, j: nat)
    requires j < |cart| && LastWithStockKey(cart, j)
    ensures StockKey(cart[j]) in StockMapOf(cart, lookup)
    ensures StockMapOf(cart, lookup)[StockKey(cart[j])] == StoredStock(lookup(cart[j].productId))
    decreases |cart|
  {
    var n := |cart| - 1;
    if j < n {
      var pre := cart[..n];
      assert pre[j] == cart[j];
      assert StockKey(cart[n]) != StockKey(cart[j]);
      forall l | j < l < n ensures StockKey(pre[l]) != StockKey(pre[j]) {
        assert pre[l] == cart[l];
      }
      StockMapOfLastWins(pre, lookup, j);
    }
  }

  /** One step of `FetchStocks` keeps the key set equal to the lines' keys. */
  lemma StockKeysStep(cart: seq<CartItem>, i: nat, before: map<string, int>, after: map<string, int>, v: int)
    requires i < |cart|
    requires forall j :: 0 <= j < i ==> StockKey(cart[j]) in before
    requires forall k :: k in before ==> exists j :: 0 <= j < i && StockKey(cart[j]) == k
    requires after == before[StockKey(cart[i]) := v]
    ensures forall j :: 0 <= j < i + 1 ==> StockKey(cart[j]) in after
    ensures forall k :: k in after ==> exists j :: 0 <= j < i + 1 && StockKey(cart[j]) == k
  {
    forall k | k in after ensures exists j :: 0 <= j < i + 1 && StockKey(cart[j]) == k {
      if k !in before {
        assert StockKey(cart[i]) == k;
      }
    }
  }

  /** The cap the +/- controls use for a line. */
  function MaxStock(stockMap: map<string, int>, item: CartItem): (m: int)
    ensures StockKey(item) !in stockMap ==> m == UnknownStockCap
    ensures StockKey(item) in stockMap ==> m == stockMap[StockKey(item)]
  {
    if StockKey(item) in stockMap then stockMap[StockKey(item)] else UnknownStockCap
  }

  predicate MinusDisabled(quantity: int) {
    quantity <= 1
  }

  predicate PlusDisabled(quantity: int, maxStock: int) {
    quantity >= maxStock
  }

  /** An enabled minus button lowers the line by exactly one. */
  lemma MinusEnabledDecrements(cart: seq<CartItem>, i: nat)
    requires i < |cart| && !MinusDisabled(cart[i].quantity)
    ensures Decreased(cart, cart[i].productId, cart[i].size, cart[i].color)[i].quantity == cart[i].quantity - 1
  {
  }

  /** An enabled plus button raises the line by exactly one and stays within
      the cap; a disabled one could not raise it. */
  lemma PlusButtonEffect(cart: seq<CartItem>, i: nat, maxStock: int)
    requires i < |cart|
    ensures var q := Increased(cart, cart[i].productId, cart[i].size, cart[i].color, maxStock)[i].quantity;
      && (!PlusDisabled(cart[i].quantity, maxStock) ==> q == cart[i].quantity + 1 && q <= maxStock)
      && (PlusDisabled(cart[i].quantity, maxStock) ==> q <= cart[i].quantity)
  {
  }

  /** Pressing an enabled plus raises the subtotal by the line's price. */
  lemma PlusEnabledSubtotal(cart: seq<CartItem>, i: nat, maxStock: int)
    requires UniqueKeys(cart) && i < |cart| && !PlusDisabled(cart[i].quantity, maxStock)
    ensures Subtotal(Increased(cart, cart[i].productId, cart[i].size, cart[i].color, maxStock)) ==
      Subtotal(cart) + cart[i].price
  {
    var r := Increased(cart, cart[i].productId, cart[i].size, cart[i].color, maxStock);
    assert r[i] == cart[i].(quantity := cart[i].quantity + 1);
    LineTotalShift(cart[i], r[i], 1);
    forall j | 0 <= j < |cart| && j != i ensures cart[j] == r[j] {
      assert KeyOf(cart[j]) != Key(cart[i].productId, cart[i].size, cart[i].color);
    }
    SubtotalReplaceAt(cart, r, i);
  }

  /** Pressing an enabled minus lowers the subtotal by the line's price. */
  lemma MinusEnabledSubtotal(cart: seq<CartItem>, i: nat)
    requires UniqueKeys(cart) && i < |cart| && !MinusDisabled(cart[i].quantity)
    ensures Subtotal(Decreased(cart, cart[i].productId, cart[i].size, cart[i].color)) ==
      Subtotal(cart) - cart[i].price
  {
    var r := Decreased(cart, cart[i].productId, cart[i].size, cart[i].color);
    assert r[i] == cart[i].(quantity := cart[i].quantity + -1);
    LineTotalShift(cart[i], r[i], -1);
    forall j | 0 <= j < |cart| && j != i ensures cart[j] == r[j] {
      assert KeyOf(cart[j]) != Key(cart[i].productId, cart[i].size, cart[i].color);
    }
    SubtotalReplaceAt(cart, r, i);
  }

  // ---------------------------------------------------------------------
  // The stock key as a string.

  lemma SplitAtSeparator(x1: string, r1: string, x2: string, r2: string)
    requires '_' !in x1 && '_' !in x2
    requires x1 + "_" + r1 == x2 + "_" + r2
    ensures x1 == x2 && r1 == r2
  {
    var s := x1 + "_" + r1;
    assert s == x2 + "_" + r2;
    assert s[|x1|] == '_' && s[|x2|] == '_';
    assert forall j :: 0 <= j < |x1| ==> s[j] == x1[j] && s[j] != '_';
    assert forall j :: 0 <= j < |x2| ==> s[j] == x2[j] && s[j] != '_';
    assert |x1| == |x2|;
    assert x1 == s[..|x1|] == x2;
    assert r1 == s[|x1| + 1..] == r2;
  }

  /** When neither product ids nor sizes contain '_', different keys give
      different stock keys. */
  lemma StockKeyInjective(a: CartItem, b: CartItem)
    requires '_' !in a.productId && '_' !in a.size && '_' !in b.productId && '_' !in b.size
    requires StockKey(a) == StockKey(b)
    ensures KeyOf(a) == KeyOf(b)
  {
    assert StockKey(a) == a.productId + "_" + (a.size + "_" + a.color);
    assert StockKey(b) == b.productId + "_" + (b.size + "_" + b.color);
    SplitAtSeparator(a.productId, a.size + "_" + a.color, b.productId, b.size + "_" + b.color);
    SplitAtSeparator(a.size, a.color, b.size, b.color);
  }

  /** Without that condition two different lines can share a stock key. */
  lemma StockKeyCollision()
    ensures var a := CartItem("a_b", "n", 100, "u", "c", "d", 1);
            var b := CartItem("a", "n", 100, "u", "b_c", "d", 1);
            KeyOf(a) != KeyOf(b) && StockKey(a) == StockKey(b)
  {
  }

  /** With unique keys and '_'-free ids and sizes, every line's entry in the
      fetched map is the stock of its own product. */
  lemma FetchedStockPerLine(cart: seq<CartItem>, lookup: Lookup, j: nat)
    requires UniqueKeys(cart) && j < |cart|
    requires forall i :: 0 <= i < |cart| ==> '_' !in cart[i].productId && '_' !in cart[i].size
    ensures StockKey(cart[j]) in StockMapOf(cart, lookup)
    ensures StockMapOf(cart, lookup)[StockKey(cart[j])] == StoredStock(lookup(cart[j].productId))
  {
    forall l | j < l < |cart| ensures StockKey(cart[l]) != StockKey(cart[j]) {
      if StockKey(cart[l]) == StockKey(cart[j]) {
        StockKeyInjective(cart[l], cart[j]);
      }
    }
    StockMapOfLastWins(cart, lookup, j);
  }
}
