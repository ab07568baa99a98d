/** The student's cart on the food ordering page: adding items, changing
    quantities, the displayed total and the guards before an order is
    sent, together with the page's copy of the order-status workflow. */
module FoodOrderPage {
  import opened Common
  import opened Store
  import opened FoodService

  // ---------------------------------------------------------------------
  // The status workflow as the page knows it.

  /** `ORDER_TRANSITIONS`. */
  const OrderTransitions: map<string, seq<string>> := map[
    "pending" := ["confirmed", "cancelled"],
    "confirmed" := ["ready", "cancelled"],
    "ready" := ["completed"],
    "completed" := [],
    "cancelled" := []]

  /** The page offers exactly the transitions the backend accepts. */
  lemma OrderTransitionsMatchBackend()
    ensures OrderTransitions.Keys == AllowedStatusTransitions.Keys
    ensures forall s :: s in OrderTransitions ==> (set t | t in OrderTransitions[s]) == AllowedStatusTransitions[s]
  {
    assert (set t | t in OrderTransitions["pending"]) == {"confirmed", "cancelled"};
    assert (set t | t in OrderTransitions["confirmed"]) == {"ready", "cancelled"};
    assert (set t | t in OrderTransitions["ready"]) == {"completed"};
  }

  // ---------------------------------------------------------------------
  // The cart.

  /** A menu item as the menu browser hands it over. */
  datatype MenuEntry = MenuEntry(itemId: Id, vendorId: Id, price: Option<real>)

  /** A cart entry: the menu item's fields plus a quantity. */
  datatype CartEntry = CartEntry(itemId: Id, vendorId: Id, price: Option<real>, quantity: int)

  /** `Number(item.price || 0)`. */
  function PriceOf(e: CartEntry): real {
    if e.price.Some? then e.price.value else 0.0
  }

  function LineAmount(e: CartEntry): real {
    PriceOf(e) * e.quantity as real
  }

  /** `total`: Σ price × quantity, accumulated from the left. */
  function Total(cart: seq<CartEntry>): real {
    if cart == [] then 0.0 else Total(cart[..|cart| - 1]) + LineAmount(cart[|cart| - 1])
  }

  /** The quantity of an item in the cart (summed over its entries). */
  function QuantityOf(cart: seq<CartEntry>, itemId: Id): int {
    if cart == [] then 0
    else QuantityOf(cart[..|cart| - 1], itemId) + (if cart[|cart| - 1].itemId == itemId then cart[|cart| - 1].quantity else 0)
  }

  /** The sum of the unit prices of an item's entries. */
  function PriceSum(cart: seq<CartEntry>, itemId: Id): real {
    if cart == [] then 0.0
    else PriceSum(cart[..|cart| - 1], itemId) + (if cart[|cart| - 1].itemId == itemId then PriceOf(cart[|cart| - 1]) else 0.0)
  }

  predicate InCart(cart: seq<CartEntry>, itemId: Id) {
    exists i :: 0 <= i < |cart| && cart[i].itemId == itemId
  }

  predicate SingleVendor(cart: seq<CartEntry>) {
    forall i :: 0 <= i < |cart| ==> cart[i].vendorId == cart[0].vendorId
  }

  predicate DistinctItems(cart: seq<CartEntry>) {
    forall i, j :: 0 <= i < j < |cart| ==> cart[i].itemId != cart[j].itemId
  }

  predicate PositiveQuantities(cart: seq<CartEntry>) {
    forall i :: 0 <= i < |cart| ==> cart[i].quantity >= 1
  }

  /** What the page's cart operations keep: one vendor, one entry per item,
      positive quantities. */
  predicate CartInvariant(cart: seq<CartEntry>) {
    SingleVendor(cart) && DistinctItems(cart) && PositiveQuantities(cart)
  }

  const SingleVendorMessage := "Cart can contain items from a single vendor per order."

  datatype CartOutcome = Refused(message: string) | Updated(cart: seq<CartEntry>)

  /** `cart.map(...)` adding one to the quantity of the item's entries. */
  function Increment(cart: seq<CartEntry>, itemId: Id): (r: seq<CartEntry>)
    ensures |r| == |cart|
    ensures forall i :: 0 <= i < |cart| ==>
      r[i] == if cart[i].itemId == itemId then cart[i].(quantity := cart[i].quantity + 1) else cart[i]
  {
    seq(|cart|, i requires 0 <= i < |cart| =>
      if cart[i].itemId == itemId then cart[i].(quantity := cart[i].quantity + 1) else cart[i])
  }

  /** `addToCart`. */
  function AddToCart(cart: seq<CartEntry>, item: MenuEntry): (r: CartOutcome)
    ensures r.Refused? <==> |cart| > 0 && cart[0].vendorId != item.vendorId
    ensures r.Refused? ==> r.message == SingleVendorMessage
    ensures r.Updated? && !InCart(cart, item.itemId) ==>
      r.cart == cart + [CartEntry(item.itemId, item.vendorId, item.price, 1)]
  {
    if |cart| > 0 && cart[0].vendorId != item.vendorId then Refused(SingleVendorMessage)
    else if InCart(cart, item.itemId) then Updated(Increment(cart, item.itemId))
    else Updated(cart + [CartEntry(item.itemId, item.vendorId, item.price, 1)])
  }

  /** `cart.filter(...)` dropping the item's entries. */
  function RemoveItem(cart: seq<CartEntry>, itemId: Id): (r: seq<CartEntry>)
    ensures forall e :: e in r ==> e in cart && e.itemId != itemId
    ensures forall e :: e in cart && e.itemId != itemId ==> e in r
  {
    if cart == [] then []
    else
      var rest := RemoveItem(cart[..|cart| - 1], itemId);
      var last := cart[|cart| - 1];
      assert cart == cart[..|cart| - 1] + [last];
      if last.itemId == itemId then rest else rest + [last]
  }

  /** `cart.map(...)` setting the quantity of the item's entries. */
  function SetQuantity(cart: seq<CartEntry>, itemId: Id, quantity: int): (r: seq<CartEntry>)
    ensures |r| == |cart|
    ensures forall i :: 0 <= i < |cart| ==>
      r[i] == if cart[i].itemId == itemId then cart[i].(quantity := quantity) else cart[i]
  {
    seq(|cart|, i requires 0 <= i < |cart| =>
      if cart[i].itemId == itemId then cart[i].(quantity := quantity) else cart[i])
  }

  /** `updateQuantity`: a quantity of zero or less removes the item. */
  function UpdateQuantity(cart: seq<CartEntry>, itemId: Id, quantity: int): (r: seq<CartEntry>)
    ensures quantity <= 0 ==> !InCart(r, itemId)
    ensures quantity > 0 ==> |r| == |cart|
  {
    if quantity <= 0 then RemoveItem(cart, itemId) else SetQuantity(cart, itemId, quantity)
  }

  // ---------------------------------------------------------------------
  // Quantities.

  lemma {:induction false} QuantityAbsent(cart: seq<CartEntry>, itemId: Id)
    requires !InCart(cart, itemId)
    ensures QuantityOf(cart, itemId) == 0
  {
    if cart != [] {
      var prefix := cart[..|cart| - 1];
      assert !InCart(prefix, itemId) by {
        forall i | 0 <= i < |prefix| ensures prefix[i].itemId != itemId {
          assert prefix[i] == cart[i];
        }
      }
      QuantityAbsent(prefix, itemId);
    }
  }

  /** With one entry per item, an item's quantity is its entry's. */
  lemma {:induction false} QuantityAt(cart: seq<CartEntry>, i: int)
    requires DistinctItems(cart) && 0 <= i < |cart|
    ensures QuantityOf(cart, cart[i].itemId) == cart[i].quantity
  {
    var prefix := cart[..|cart| - 1];
    var id := cart[i].itemId;
    if i == |cart| - 1 {
      assert !InCart(prefix, id) by {
        forall j | 0 <= j < |prefix| ensures prefix[j].itemId != id {
          assert prefix[j] == cart[j];
        }
      }
      QuantityAbsent(prefix, id);
    } else {
      assert prefix[i] == cart[i];
      assert DistinctItems(prefix) by {
        forall j, k | 0 <= j < k < |prefix| ensures prefix[j].itemId != prefix[k].itemId {
          assert prefix[j] == cart[j] && prefix[k] == cart[k];
        }
      }
      QuantityAt(prefix, i);
    }
  }

  /** Dropping an item's entries sets its quantity to zero and keeps every
      other item's. */
  lemma {:induction false} QuantityAfterRemove(cart: seq<CartEntry>, itemId: Id, other: Id)
    ensures QuantityOf(RemoveItem(cart, itemId), other) == if other == itemId then 0 else QuantityOf(cart, other)
  {
    if cart != [] {
      var prefix := cart[..|cart| - 1];
      var last := cart[|cart| - 1];
      QuantityAfterRemove(prefix, itemId, other);
      var rest := RemoveItem(prefix, itemId);
      if last.itemId != itemId {
        assert (rest + [last])[..|rest + [last]| - 1] == rest;
      }
    }
  }

  /** Whether every item keeps its quantity except `itemId`, which gets
      `quantity`. */
  ghost predicate QuantitiesAfter(before: seq<CartEntry>, after: seq<CartEntry>, itemId: Id, quantity: int) {
    QuantityOf(after, itemId) == quantity
    && forall other :: other != itemId ==> QuantityOf(after, other) == QuantityOf(before, other)
  }

  /** A map over the entries that changes only the item's entries' quantity
      keeps every other item's quantity, and with one entry per item the
      item's quantity is that of its changed entry. */
  lemma {:induction false} QuantityAfterMap(cart: seq<CartEntry>, after: seq<CartEntry>, itemId: Id)
    requires DistinctItems(cart) && |after| == |cart|
    requires forall i :: 0 <= i < |cart| ==> after[i].itemId == cart[i].itemId
    requires forall i :: 0 <= i < |cart| && cart[i].itemId != itemId ==> after[i] == cart[i]
    ensures DistinctItems(after)
    ensures forall other :: other != itemId ==> QuantityOf(after, other) == QuantityOf(cart, other)
  {
    forall other | other != itemId ensures QuantityOf(after, other) == QuantityOf(cart, other) {
      if InCart(cart, other) {
        var j :| 0 <= j < |cart| && cart[j].itemId == other;
        QuantityAt(cart, j);
        QuantityAt(after, j);
      } else {
        QuantityAbsent(cart, other);
        QuantityAbsent(after, other);
      }
    }
  }

  /** Adding an accepted item raises its quantity by one and leaves every
      other item's quantity alone. */
  lemma {:induction false} AddToCartQuantities(cart: seq<CartEntry>, item: MenuEntry)
    requires DistinctItems(cart) && AddToCart(cart, item).Updated?
    ensures QuantitiesAfter(cart, AddToCart(cart, item).cart, item.itemId, QuantityOf(cart, item.itemId) + 1)
  {
    var after := AddToCart(cart, item).cart;
    var id := item.itemId;
    if InCart(cart, id) {
      QuantityAfterMap(cart, after, id);
      var j :| 0 <= j < |cart| && cart[j].itemId == id;
      QuantityAt(cart, j);
      QuantityAt(after, j);
    } else {
      var entry := CartEntry(id, item.vendorId, item.price, 1);
      assert after[..|cart|] == cart;
      QuantityAbsent(cart, id);
      forall other | other != id ensures QuantityOf(after, other) == QuantityOf(cart, other) {
      }
    }
  }

  /** `updateQuantity` sets the item's quantity (zero when removed or when
      the item is not in the cart) and leaves every other item's alone. */
  lemma {:induction false} UpdateQuantityQuantities(cart: seq<CartEntry>, itemId: Id, quantity: int)
    requires DistinctItems(cart)
    ensures QuantitiesAfter(cart, UpdateQuantity(cart, itemId, quantity), itemId,
                            if quantity <= 0 || !InCart(cart, itemId) then 0 else quantity)
  {
    var after := UpdateQuantity(cart, itemId, quantity);
    if quantity <= 0 {
      forall other ensures QuantityOf(after, other) == if other == itemId then 0 else QuantityOf(cart, other) {
        QuantityAfterRemove(cart, itemId, other);
      }
    } else {
      QuantityAfterMap(cart, after, itemId);
      if InCart(cart, itemId) {
        var j :| 0 <= j < |cart| && cart[j].itemId == itemId;
        QuantityAt(after, j);
      } else {
        assert !InCart(after, itemId) by {
          forall i | 0 <= i < |after| ensures after[i].itemId != itemId {
            assert after[i].itemId == cart[i].itemId;
          }
        }
        QuantityAbsent(after, itemId);
      }
    }
  }

  // ---------------------------------------------------------------------
  // The cart invariant.

  /** Adding to the cart keeps it a one-vendor cart with one entry per item
      and positive quantities; an accepted item's vendor is the cart's. */
  lemma {:induction false} AddToCartKeepsInvariant(cart: seq<CartEntry>, item: MenuEntry)
    requires CartInvariant(cart)
    ensures AddToCart(cart, item).Updated? ==>
      && CartInvariant(AddToCart(cart, item).cart)
      && AddToCart(cart, item).cart[0].vendorId == item.vendorId
  {
    var r := AddToCart(cart, item);
    if r.Updated? {
      var after := r.cart;
      if InCart(cart, item.itemId) {
        QuantityAfterMap(cart, after, item.itemId);
        assert cart[0].vendorId == item.vendorId;
      } else {
        var entry := CartEntry(item.itemId, item.vendorId, item.price, 1);
        assert after == cart + [entry];
        assert DistinctItems(after) by {
          forall i, j | 0 <= i < j < |after| ensures after[i].itemId != after[j].itemId {
            if j == |cart| {
              assert after[i] == cart[i];
            }
          }
        }
      }
    }
  }

  /** Changing a quantity keeps the invariant too. */
  lemma {:induction false} UpdateQuantityKeepsInvariant(cart: seq<CartEntry>, itemId: Id, quantity: int)
    requires CartInvariant(cart)
    ensures CartInvariant(UpdateQuantity(cart, itemId, quantity))
  {
    if quantity <= 0 {
      RemoveKeepsInvariant(cart, itemId);
    } else {
      QuantityAfterMap(cart, UpdateQuantity(cart, itemId, quantity), itemId);
    }
  }

  lemma {:induction false} RemoveKeepsInvariant(cart: seq<CartEntry>, itemId: Id)
    requires CartInvariant(cart)
    ensures CartInvariant(RemoveItem(cart, itemId))
  {
    if cart != [] {
      var prefix := cart[..|cart| - 1];
      var last := cart[|cart| - 1];
      assert CartInvariant(prefix) by {
        forall i | 0 <= i < |prefix| ensures prefix[i] == cart[i] {
        }
      }
      RemoveKeepsInvariant(prefix, itemId);
      var rest := RemoveItem(prefix, itemId);
      if last.itemId != itemId {
        forall i | 0 <= i < |rest| ensures rest[i].vendorId == last.vendorId && rest[i].itemId != last.itemId {
          assert rest[i] in rest;
          var k :| 0 <= k < |prefix| && prefix[k] == rest[i];
          assert cart[k] == rest[i];
        }
        AppendKeepsInvariant(rest, last);
      }
    }
  }

  /** An entry of the cart's vendor for an item not yet in the cart can go
      at its end. */
  lemma {:induction false} AppendKeepsInvariant(cart: seq<CartEntry>, entry: CartEntry)
    requires CartInvariant(cart) && entry.quantity >= 1
    requires forall i :: 0 <= i < |cart| ==> cart[i].vendorId == entry.vendorId && cart[i].itemId != entry.itemId
    ensures CartInvariant(cart + [entry])
  {
    var after := cart + [entry];
    forall i | 0 <= i < |after| ensures after[i].vendorId == after[0].vendorId && after[i].quantity >= 1 {
      if i < |cart| {
        assert after[i] == cart[i];
      }
    }
    assert DistinctItems(after) by {
      forall i, j | 0 <= i < j < |after| ensures after[i].itemId != after[j].itemId {
        assert after[i] == cart[i];
        if j < |cart| {
          assert after[j] == cart[j];
        }
      }
    }
  }

  // ---------------------------------------------------------------------
  // The total.

  /** Adding one to the item's entries raises the total by their unit
      prices. */
  lemma {:induction false} TotalAfterIncrement(cart: seq<CartEntry>, itemId: Id)
    ensures Total(Increment(cart, itemId)) == Total(cart) + PriceSum(cart, itemId)
  {
    if cart != [] {
      var prefix := cart[..|cart| - 1];
      var after := Increment(cart, itemId);
      assert after[..|after| - 1] == Increment(prefix, itemId);
      TotalAfterIncrement(prefix, itemId);
      var last := cart[|cart| - 1];
      if last.itemId == itemId {
        assert LineAmount(last.(quantity := last.quantity + 1)) == LineAmount(last) + PriceOf(last);
      }
    }
  }

  /** An accepted `addToCart` raises the total by one unit price of the
      item: the price already in the cart, or the menu's for a new entry. */
  lemma {:induction false} AddToCartTotal(cart: seq<CartEntry>, item: MenuEntry)
    requires AddToCart(cart, item).Updated?
    ensures Total(AddToCart(cart, item).cart)
         == Total(cart) + (if InCart(cart, item.itemId) then PriceSum(cart, item.itemId)
                           else PriceOf(CartEntry(item.itemId, item.vendorId, item.price, 1)))
  {
    var after := AddToCart(cart, item).cart;
    if InCart(cart, item.itemId) {
      TotalAfterIncrement(cart, item.itemId);
    } else {
      assert after[..|after| - 1] == cart;
    }
  }

  // ---------------------------------------------------------------------
  // Placing the order.

  /** `cart.map(item => ({item_id, quantity}))`. */
  function CartLines(cart: seq<CartEntry>): (r: seq<OrderLine>)
    ensures |r| == |cart|
    ensures forall i :: 0 <= i < |cart| ==> r[i] == OrderLine(cart[i].itemId, cart[i].quantity)
  {
    seq(|cart|, i requires 0 <= i < |cart| => OrderLine(cart[i].itemId, cart[i].quantity))
  }

  datatype Placement = Blocked(message: string) | Request(vendorId: Id, slotId: string, items: seq<OrderLine>)

  /** `placeOrder`'s guards and the payload it sends; `slot` is the
      selected break slot, empty when none is selected. */
  function PlaceOrder(cart: seq<CartEntry>, slot: string): (r: Placement)
    ensures r.Request? <==> |cart| > 0 && slot != ""
    ensures |cart| == 0 ==> r == Blocked("Cart is empty.")
    ensures |cart| > 0 && slot == "" ==> r == Blocked("Select a break slot before placing order.")
    ensures r.Request? ==> r.vendorId == cart[0].vendorId && r.slotId == slot && r.items == CartLines(cart)
  {
    if |cart| == 0 then Blocked("Cart is empty.")
    else if slot == "" then Blocked("Select a break slot before placing order.")
    else Request(cart[0].vendorId, slot, CartLines(cart))
  }

  /** A cart that keeps the invariant sends lines the backend accepts:
      no line has a non-positive quantity or repeats an item, and when the
      menu still offers every item from the cart's vendor, no line is
      refused at all. */
  lemma {:induction false} PlacedOrderPassesLineChecks(cart: seq<CartEntry>, slot: string, menuItems: map<Id, MenuItem>)
    requires CartInvariant(cart) && PlaceOrder(cart, slot).Request?
    ensures var p := PlaceOrder(cart, slot);
      forall k :: 0 <= k < |p.items| ==>
        LineError(p.items, k, menuItems, p.vendorId) in {None, Some(LookupError("Menu item not found for selected vendor"))}
    ensures var p := PlaceOrder(cart, slot);
      (forall i :: 0 <= i < |cart| ==> Orderable(menuItems, cart[i].itemId, cart[i].vendorId)) ==>
      forall k :: 0 <= k < |p.items| ==> LineError(p.items, k, menuItems, p.vendorId).None?
  {
    var p := PlaceOrder(cart, slot);
    var lines := p.items;
    forall k | 0 <= k < |lines|
      ensures lines[k].quantity > 0 && lines[k].itemId !in LineIds(lines[..k])
    {
      forall i | 0 <= i < k ensures lines[..k][i].itemId != lines[k].itemId {
        assert lines[..k][i] == lines[i];
      }
    }
  }

  /** With the menu's current prices in the cart, the total the page shows
      is the total the backend charges. */
  lemma {:induction false} CartTotalMatchesOrderTotal(cart: seq<CartEntry>, menuItems: map<Id, MenuItem>)
    requires forall i :: 0 <= i < |cart| ==>
      cart[i].itemId in menuItems && PriceOf(cart[i]) == menuItems[cart[i].itemId].price
    ensures Total(cart) == LinesTotal(CartLines(cart), menuItems)
  {
    if cart != [] {
      var prefix, last := cart[..|cart| - 1], cart[|cart| - 1];
      var lines := CartLines(cart);
      assert lines[..|lines| - 1] == CartLines(prefix);
      CartTotalMatchesOrderTotal(prefix, menuItems);
      assert lines[|lines| - 1] == OrderLine(last.itemId, last.quantity);
      assert LineAmount(last) == menuItems[last.itemId].price * last.quantity as real;
    }
  }
}
