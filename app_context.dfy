/** The session state shared by all screens: the cart and the list of
    favorite product ids. Each transition of the source replaces the whole
    list by a `find`/`map`/`filter`/spread expression; those expressions are
    the functions below, and `AppProvider` is the object holding the two
    state fields and replacing them. */
module AppContext {
  import opened Common

  /** One cart line: a snapshot of the product at add time plus the chosen
      size, color and a quantity. */
  datatype CartItem = CartItem(
    productId: string,
    name: string,
    price: int,
    imageUrl: string,
    size: string,
    color: string,
    quantity: int)

  /** The composite key of a cart line. */
  datatype Key = Key(productId: string, size: string, color: string)

  function KeyOf(item: CartItem): Key {
    Key(item.productId, item.size, item.color)
  }

  /** Some line has key `k` (the `find` of `addToCart`). */
  predicate HasLine(cart: seq<CartItem>, k: Key) {
    exists i :: 0 <= i < |cart| && KeyOf(cart[i]) == k
  }

  /** The cart invariant: at most one line per key. */
  predicate UniqueKeys(cart: seq<CartItem>) {
    forall i, j :: 0 <= i < j < |cart| ==> KeyOf(cart[i]) != KeyOf(cart[j])
  }

  /** Every line has a quantity of at least one. */
  predicate PositiveQuantities(cart: seq<CartItem>) {
    forall i :: 0 <= i < |cart| ==> cart[i].quantity >= 1
  }

  // ---------------------------------------------------------------------
  // A per-key view of the cart, used to state the transitions independently
  // of how they rearrange the list.

  /** Number of lines with key `k`. */
  function LineCount(cart: seq<CartItem>, k: Key): nat
    decreases |cart|
  {
    if cart == [] then 0
    else (if KeyOf(cart[0]) == k then 1 else 0) + LineCount(cart[1..], k)
  }

  /** Total quantity of the lines with key `k`. */
  function QuantityOf(cart: seq<CartItem>, k: Key): int
    decreases |cart|
  {
    if cart == [] then 0
    else (if KeyOf(cart[0]) == k then cart[0].quantity else 0) + QuantityOf(cart[1..], k)
  }

  lemma {:induction false} LineCountZero(cart: seq<CartItem>, k: Key)
    ensures LineCount(cart, k) == 0 <==> !HasLine(cart, k)
    ensures !HasLine(cart, k) ==> QuantityOf(cart, k) == 0
    decreases |cart|
  {
    if cart != [] {
      LineCountZero(cart[1..], k);
      assert HasLine(cart, k) <==> KeyOf(cart[0]) == k || HasLine(cart[1..], k) by {
        if HasLine(cart[1..], k) {
          var i :| 0 <= i < |cart[1..]| && KeyOf(cart[1..][i]) == k;
          assert KeyOf(cart[i + 1]) == k;
        }
        if HasLine(cart, k) && KeyOf(cart[0]) != k {
          var i :| 0 <= i < |cart| && KeyOf(cart[i]) == k;
          assert KeyOf(cart[1..][i - 1]) == k;
        }
      }
    }
  }

  /** In a cart with unique keys, the quantity of a key is that of its one line. */
  lemma {:induction false} SingleLineQuantity(cart: seq<CartItem>, i: nat)
    requires UniqueKeys(cart) && i < |cart|
    ensures LineCount(cart, KeyOf(cart[i])) == 1
    ensures QuantityOf(cart, KeyOf(cart[i])) == cart[i].quantity
    decreases |cart|
  {
    var k := KeyOf(cart[i]);
    if i == 0 {
      forall j | 0 <= j < |cart[1..]| ensures KeyOf(cart[1..][j]) != k {
        assert cart[1..][j] == cart[j + 1];
      }
      LineCountZero(cart[1..], k);
    } else {
      assert UniqueKeys(cart[1..]);
      assert cart[1..][i - 1] == cart[i];
      SingleLineQuantity(cart[1..], i - 1);
    }
  }

  lemma {:induction false} QuantityOfAppend(cart: seq<CartItem>, item: CartItem, k: Key)
    ensures QuantityOf(cart + [item], k) == QuantityOf(cart, k) + (if KeyOf(item) == k then item.quantity else 0)
    ensures LineCount(cart + [item], k) == LineCount(cart, k) + (if KeyOf(item) == k then 1 else 0)
    decreases |cart|
  {
    if cart == [] {
      assert [] + [item] == [item];
    } else {
      assert (cart + [item])[1..] == cart[1..] + [item];
      QuantityOfAppend(cart[1..], item, k);
    }
  }

  /** Two carts with the same keys line by line, where the lines with key `k`
      gained `delta` and all other lines are unchanged. */
  ghost predicate ShiftedAt(a: seq<CartItem>, b: seq<CartItem>, k: Key, delta: int) {
    && |a| == |b|
    && forall i :: 0 <= i < |a| ==>
         KeyOf(b[i]) == KeyOf(a[i]) &&
         b[i].quantity == a[i].quantity + (if KeyOf(a[i]) == k then delta else 0)
  }

  lemma {:induction false} QuantityShift(a: seq<CartItem>, b: seq<CartItem>, k: Key, delta: int, k': Key)
    requires ShiftedAt(a, b, k, delta)
    ensures QuantityOf(b, k') == QuantityOf(a, k') + (if k' == k then delta * LineCount(a, k) else 0)
    ensures LineCount(b, k') == LineCount(a, k')
    decreases |a|
  {
    if a != [] {
      assert ShiftedAt(a[1..], b[1..], k, delta);
      QuantityShift(a[1..], b[1..], k, delta, k');
      if k' == k {
        var c := LineCount(a[1..], k);
        if KeyOf(a[0]) == k {
          assert delta * (1 + c) == delta + delta * c;
        }
      }
    }
  }

  // ---------------------------------------------------------------------
  // The transitions.

  /** `addToCart`: a line with the same key absorbs the added quantity (no
      stock cap, snapshot kept); otherwise the item is appended. */
  function Added(cart: seq<CartItem>, item: CartItem): (r: seq<CartItem>)
    ensures UniqueKeys(cart) ==> UniqueKeys(r)
    ensures HasLine(r, KeyOf(item))
    ensures |r| == if HasLine(cart, KeyOf(item)) then |cart| else |cart| + 1
    ensures forall k :: HasLine(r, k) <==> HasLine(cart, k) || k == KeyOf(item)
  {
    if HasLine(cart, KeyOf(item)) then
      var r := seq(|cart|, i requires 0 <= i < |cart| =>
        if KeyOf(cart[i]) == KeyOf(item) then cart[i].(quantity := cart[i].quantity + item.quantity)
        else cart[i]);
      assert forall i :: 0 <= i < |r| ==> KeyOf(r[i]) == KeyOf(cart[i]);
      r
    else
      var r := cart + [item];
      assert r[|cart|] == item;
      assert forall k :: HasLine(r, k) ==> HasLine(cart, k) || k == KeyOf(item) by {
        forall k | HasLine(r, k) ensures HasLine(cart, k) || k == KeyOf(item) {
          var i :| 0 <= i < |r| && KeyOf(r[i]) == k;
          if i < |cart| { assert KeyOf(cart[i]) == k; }
        }
      }
      assert forall k :: HasLine(cart, k) ==> HasLine(r, k) by {
        forall k | HasLine(cart, k) ensures HasLine(r, k) {
          var i :| 0 <= i < |cart| && KeyOf(cart[i]) == k;
          assert KeyOf(r[i]) == k;
        }
      }
      r
  }

  /** A new key is appended at the end and the earlier lines are kept. */
  lemma AddedNewKey(cart: seq<CartItem>, item: CartItem)
    requires !HasLine(cart, KeyOf(item))
    ensures |Added(cart, item)| == |cart| + 1
    ensures Added(cart, item)[..|cart|] == cart
    ensures Added(cart, item)[|cart|] == item
  {
  }

  /** An existing key keeps the length; the matching line keeps its snapshot
      and gains `item.quantity`; the other lines are untouched. */
  lemma AddedExistingKey(cart: seq<CartItem>, item: CartItem, i: nat)
    requires HasLine(cart, KeyOf(item)) && i < |cart|
    ensures |Added(cart, item)| == |cart|
    ensures KeyOf(cart[i]) == KeyOf(item) ==>
      Added(cart, item)[i] == cart[i].(quantity := cart[i].quantity + item.quantity)
    ensures KeyOf(cart[i]) != KeyOf(item) ==> Added(cart, item)[i] == cart[i]
  {
  }

  /** Per key, adding behaves like adding to a bag, provided keys are unique. */
  lemma AddedQuantity(cart: seq<CartItem>, item: CartItem, k: Key)
    requires UniqueKeys(cart)
    ensures QuantityOf(Added(cart, item), k) ==
      QuantityOf(cart, k) + (if k == KeyOf(item) then item.quantity else 0)
  {
    var r := Added(cart, item);
    if HasLine(cart, KeyOf(item)) {
      var i :| 0 <= i < |cart| && KeyOf(cart[i]) == KeyOf(item);
      SingleLineQuantity(cart, i);
      assert ShiftedAt(cart, r, KeyOf(item), item.quantity);
      QuantityShift(cart, r, KeyOf(item), item.quantity, k);
    } else {
      QuantityOfAppend(cart, item, k);
    }
  }

  /** `addToCart` applied to each item in turn. */
  function AddAll(cart: seq<CartItem>, items: seq<CartItem>): seq<CartItem>
    decreases |items|
  {
    if items == [] then cart else AddAll(Added(cart, items[0]), items[1..])
  }

  function SumQuantities(items: seq<CartItem>): int
    decreases |items|
  {
    if items == [] then 0 else items[0].quantity + SumQuantities(items[1..])
  }

  /** Repeated adds of one key: the key ends with exactly one line whose
      quantity is the old quantity plus the sum of the added quantities. */
  lemma {:induction false} RepeatedAdds(cart: seq<CartItem>, items: seq<CartItem>, k: Key)
    requires UniqueKeys(cart)
    requires forall i :: 0 <= i < |items| ==> KeyOf(items[i]) == k
    ensures UniqueKeys(AddAll(cart, items))
    ensures QuantityOf(AddAll(cart, items), k) == QuantityOf(cart, k) + SumQuantities(items)
    ensures items != [] ==> HasLine(AddAll(cart, items), k)
    ensures |AddAll(cart, items)| == if items == [] || HasLine(cart, k) then |cart| else |cart| + 1
    decreases |items|
  {
    if items != [] {
      var c1 := Added(cart, items[0]);
      AddedQuantity(cart, items[0], k);
      RepeatedAdds(c1, items[1..], k);
    }
  }

  /** Starting from a cart without the key, adding items of that key leaves
      one line for it, holding the sum of the added quantities. */
  lemma RepeatedAddsFromAbsent(cart: seq<CartItem>, items: seq<CartItem>, k: Key)
    requires UniqueKeys(cart) && !HasLine(cart, k) && items != []
    requires forall i :: 0 <= i < |items| ==> KeyOf(items[i]) == k
    ensures UniqueKeys(AddAll(cart, items)) && HasLine(AddAll(cart, items), k)
    ensures forall i :: 0 <= i < |AddAll(cart, items)| && KeyOf(AddAll(cart, items)[i]) == k ==>
      AddAll(cart, items)[i].quantity == SumQuantities(items)
  {
    var r := AddAll(cart, items);
    RepeatedAdds(cart, items, k);
    LineCountZero(cart, k);
    forall i | 0 <= i < |r| && KeyOf(r[i]) == k
      ensures r[i].quantity == SumQuantities(items)
    {
      SingleLineQuantity(r, i);
    }
  }

  function NotKey(k: Key): CartItem -> bool {
    item => KeyOf(item) != k
  }

  /** `removeFromCart`: drops the lines with the key, keeps the rest in order. */
  function Removed(cart: seq<CartItem>, productId: string, size: string, color: string): (r: seq<CartItem>)
    ensures !HasLine(r, Key(productId, size, color))
    ensures UniqueKeys(cart) ==> UniqueKeys(r)
    ensures IsSubsequence(r, cart)
  {
    var k := Key(productId, size, color);
    FilterKeyFacts(cart, k);
    Filter(NotKey(k), cart)
  }

  lemma FilterKeyFacts(cart: seq<CartItem>, k: Key)
    ensures !HasLine(Filter(NotKey(k), cart), k)
    ensures UniqueKeys(cart) ==> UniqueKeys(Filter(NotKey(k), cart))
    ensures IsSubsequence(Filter(NotKey(k), cart), cart)
  {
    var r := Filter(NotKey(k), cart);
    FilterIsSubsequence(NotKey(k), cart);
    forall i | 0 <= i < |r| ensures KeyOf(r[i]) != k && r[i] in cart {
      FilterMembership(NotKey(k), cart, r[i]);
    }
    if UniqueKeys(cart) {
      forall i, j | 0 <= i < j < |r| ensures KeyOf(r[i]) != KeyOf(r[j]) {
        RemovedKeepsOrder(cart, r, i, j);
      }
    }
  }

  /** Two positions of a subsequence come from two increasing positions of
      the original. */
  lemma {:induction false} RemovedKeepsOrder(cart: seq<CartItem>, r: seq<CartItem>, i: nat, j: nat)
    requires UniqueKeys(cart) && IsSubsequence(r, cart) && i < j < |r|
    ensures KeyOf(r[i]) != KeyOf(r[j])
    decreases |cart|
  {
    if r[0] == cart[0] && IsSubsequence(r[1..], cart[1..]) {
      assert UniqueKeys(cart[1..]);
      if i == 0 {
        SubsequenceMembers(r[1..], cart[1..]);
        assert r[j] == r[1..][j - 1];
        assert r[j] in cart[1..];
        var m :| 0 <= m < |cart[1..]| && cart[1..][m] == r[j];
        assert cart[m + 1] == r[j];
      } else {
        RemovedKeepsOrder(cart[1..], r[1..], i - 1, j - 1);
      }
    } else {
      assert UniqueKeys(cart[1..]);
      RemovedKeepsOrder(cart[1..], r, i, j);
    }
  }

  /** The lines kept by `removeFromCart` are exactly those with another key. */
  lemma RemovedMembers(cart: seq<CartItem>, productId: string, size: string, color: string, line: CartItem)
    ensures line in Removed(cart, productId, size, color) <==>
      line in cart && KeyOf(line) != Key(productId, size, color)
  {
    FilterMembership(NotKey(Key(productId, size, color)), cart, line);
  }

  /** Removing a key that is not in the cart changes nothing. */
  lemma RemovedAbsent(cart: seq<CartItem>, productId: string, size: string, color: string)
    requires !HasLine(cart, Key(productId, size, color))
    ensures Removed(cart, productId, size, color) == cart
  {
    var k := Key(productId, size, color);
    FilterAllKept(NotKey(k), cart);
  }

  /** With unique keys, removing the key of line `i` drops exactly that
      line, so the cart is one line shorter. */
  lemma RemovedPresent(cart: seq<CartItem>, productId: string, size: string, color: string, i: nat)
    requires UniqueKeys(cart) && i < |cart| && KeyOf(cart[i]) == Key(productId, size, color)
    ensures Removed(cart, productId, size, color) == cart[..i] + cart[i + 1..]
    ensures |Removed(cart, productId, size, color)| == |cart| - 1
  {
    var k := Key(productId, size, color);
    var pre, post := cart[..i], cart[i + 1..];
    assert cart == pre + [cart[i]] + post;
    FilterAppend(NotKey(k), pre + [cart[i]], post);
    FilterAppend(NotKey(k), pre, [cart[i]]);
    assert Filter(NotKey(k), [cart[i]]) == [];
    forall m | 0 <= m < |pre| ensures NotKey(k)(pre[m]) {
      assert pre[m] == cart[m];
    }
    FilterAllKept(NotKey(k), pre);
    forall m | 0 <= m < |post| ensures NotKey(k)(post[m]) {
      assert post[m] == cart[i + 1 + m];
    }
    FilterAllKept(NotKey(k), post);
  }

  /** `increaseCartItem`: the matching line becomes `min(q + 1, maxStock)`. */
  function Increased(cart: seq<CartItem>, productId: string, size: string, color: string, maxStock: int): (r: seq<CartItem>)
    ensures |r| == |cart|
    ensures forall i :: 0 <= i < |r| ==> KeyOf(r[i]) == KeyOf(cart[i])
    ensures forall i :: 0 <= i < |r| && KeyOf(cart[i]) != Key(productId, size, color) ==> r[i] == cart[i]
    ensures forall i :: 0 <= i < |r| && KeyOf(cart[i]) == Key(productId, size, color) ==>
      && r[i] == cart[i].(quantity := r[i].quantity)
      && r[i].quantity <= maxStock
      && (cart[i].quantity < maxStock ==> r[i].quantity == cart[i].quantity + 1)
      && (cart[i].quantity >= maxStock ==> r[i].quantity == maxStock)
    ensures UniqueKeys(cart) ==> UniqueKeys(r)
  {
    seq(|cart|, i requires 0 <= i < |cart| =>
      if KeyOf(cart[i]) == Key(productId, size, color) then
        cart[i].(quantity := if cart[i].quantity + 1 <= maxStock then cart[i].quantity + 1 else maxStock)
      else cart[i])
  }

  /** The cap is applied even downwards: a quantity above `maxStock` drops to it. */
  lemma IncreasedCanLower()
    ensures Increased([CartItem("p", "n", 100, "u", "M", "red", 5)], "p", "M", "red", 3)[0].quantity == 3
  {
  }

  /** `decreaseCartItem`: the matching line becomes `max(q - 1, 1)`. */
  function Decreased(cart: seq<CartItem>, productId: string, size: string, color: string): (r: seq<CartItem>)
    ensures |r| == |cart|
    ensures forall i :: 0 <= i < |r| ==> KeyOf(r[i]) == KeyOf(cart[i])
    ensures forall i :: 0 <= i < |r| && KeyOf(cart[i]) != Key(productId, size, color) ==> r[i] == cart[i]
    ensures forall i :: 0 <= i < |r| && KeyOf(cart[i]) == Key(productId, size, color) ==>
      && r[i] == cart[i].(quantity := r[i].quantity)
      && r[i].quantity >= 1
      && (cart[i].quantity > 1 ==> r[i].quantity == cart[i].quantity - 1)
      && (cart[i].quantity <= 1 ==> r[i].quantity == 1)
    ensures UniqueKeys(cart) ==> UniqueKeys(r)
  {
    seq(|cart|, i requires 0 <= i < |cart| =>
      if KeyOf(cart[i]) == Key(productId, size, color) then
        cart[i].(quantity := if cart[i].quantity - 1 >= 1 then cart[i].quantity - 1 else 1)
      else cart[i])
  }

  /** Quantities stay positive when the added item and the cap are positive. */
  lemma PositiveQuantitiesPreserved(cart: seq<CartItem>, item: CartItem, productId: string, size: string, color: string, maxStock: int)
    requires PositiveQuantities(cart)
    ensures item.quantity >= 1 ==> PositiveQuantities(Added(cart, item))
    ensures PositiveQuantities(Removed(cart, productId, size, color))
    ensures maxStock >= 1 ==> PositiveQuantities(Increased(cart, productId, size, color, maxStock))
    ensures PositiveQuantities(Decreased(cart, productId, size, color))
  {
    var r := Removed(cart, productId, size, color);
    forall i | 0 <= i < |r| ensures r[i].quantity >= 1 {
      RemovedMembers(cart, productId, size, color, r[i]);
    }
    if item.quantity >= 1 {
      var a := Added(cart, item);
      if !HasLine(cart, KeyOf(item)) {
        assert forall i :: 0 <= i < |a| ==> a[i] == if i < |cart| then cart[i] else item;
      }
    }
  }

  function NotId(id: string): string -> bool {
    x => x != id
  }

  /** `toggleFavorite`: removes the id when present, otherwise appends it. */
  function Toggled(favorites: seq<string>, id: string): (r: seq<string>)
    ensures id in r <==> id !in favorites
    ensures forall x :: x != id ==> (x in r <==> x in favorites)
    ensures NoDuplicates(favorites) ==> NoDuplicates(r)
  {
    if id in favorites then
      FilterIdFacts(favorites, id);
      Filter(NotId(id), favorites)
    else
      favorites + [id]
  }

  lemma FilterIdFacts(favorites: seq<string>, id: string)
    ensures id !in Filter(NotId(id), favorites)
    ensures forall x :: x != id ==> (x in Filter(NotId(id), favorites) <==> x in favorites)
    ensures NoDuplicates(favorites) ==> NoDuplicates(Filter(NotId(id), favorites))
  {
    var r := Filter(NotId(id), favorites);
    FilterMembership(NotId(id), favorites, id);
    forall x | x != id ensures x in r <==> x in favorites {
      FilterMembership(NotId(id), favorites, x);
    }
    if NoDuplicates(favorites) {
      FilterNoDuplicates(NotId(id), favorites);
    }
  }

  /** Toggling an absent id twice restores the exact list. */
  lemma ToggledTwiceAbsent(favorites: seq<string>, id: string)
    requires id !in favorites
    ensures Toggled(Toggled(favorites, id), id) == favorites
  {
    FilterAppend(NotId(id), favorites, [id]);
    FilterAllKept(NotId(id), favorites);
  }

  /** Toggling a present id twice restores membership; the id moves to the end. */
  lemma ToggledTwicePresent(favorites: seq<string>, id: string)
    requires id in favorites
    ensures forall x :: x in Toggled(Toggled(favorites, id), id) <==> x in favorites
    ensures Toggled(Toggled(favorites, id), id) == Filter(NotId(id), favorites) + [id]
  {
  }

  /** Order is not restored in general: toggling "a" twice in ["a", "b"]. */
  lemma ToggledTwiceReorders()
    ensures Toggled(Toggled(["a", "b"], "a"), "a") == ["b", "a"]
  {
    assert "a" in ["a", "b"];
    assert Filter(NotId("a"), ["b"]) == ["b"];
    assert Filter(NotId("a"), ["a", "b"]) == ["b"];
  }

  /** The session state object. Every operation replaces a whole list. */
  class AppProvider {
    var cart: seq<CartItem>
    var favorites: seq<string>

    /** One line per key and no repeated favorite id. */
    predicate Valid()
      reads this
    {
      UniqueKeys(cart) && NoDuplicates(favorites)
    }

    constructor ()
      ensures Valid() && cart == [] && favorites == []
    {
      cart := [];
      favorites := [];
    }

    method AddToCart(item: CartItem)
      requires Valid()
      modifies this
      ensures Valid()
      ensures cart == Added(old(cart), item) && favorites == old(favorites)
    {
      cart := Added(cart, item);
    }

    method RemoveFromCart(productId: string, size: string, color: string)
      requires Valid()
      modifies this
      ensures Valid()
      ensures cart == Removed(old(cart), productId, size, color) && favorites == old(favorites)
    {
      cart := Removed(cart, productId, size, color);
    }

    method IncreaseCartItem(productId: string, size: string, color: string, maxStock: int)
      requires Valid()
      modifies this
      ensures Valid()
      ensures cart == Increased(old(cart), productId, size, color, maxStock) && favorites == old(favorites)
    {
      cart := Increased(cart, productId, size, color, maxStock);
    }

    method DecreaseCartItem(productId: string, size: string, color: string)
      requires Valid()
      modifies this
      ensures Valid()
      ensures cart == Decreased(old(cart), productId, size, color) && favorites == old(favorites)
    {
      cart := Decreased(cart, productId, size, color);
    }

    method ToggleFavorite(productId: string)
      requires Valid()
      modifies this
      ensures Valid()
      ensures favorites == Toggled(old(favorites), productId) && cart == old(cart)
    {
      favorites := Toggled(favorites, productId);
    }
  }
}
