/** The food ordering service: the order-status workflow, order placement
    with its pricing and pickup code, and menu management by vendors and
    admins. */
module FoodService {
  import opened Common
  import opened Store
  import opened FoodSchema
  import Helpers
  import AiService

  // ---------------------------------------------------------------------
  // Order status workflow.

  /** `ALLOWED_STATUS_TRANSITIONS`. */
  const AllowedStatusTransitions: map<string, set<string>> := map[
    "pending" := {"confirmed", "cancelled"},
    "confirmed" := {"ready", "cancelled"},
    "ready" := {"completed"},
    "completed" := {},
    "cancelled" := {}]

  /** `ALLOWED_STATUS_TRANSITIONS.get(current, set())`. */
  function AllowedNext(current: string): (r: set<string>)
    ensures r <= OrderStatuses - {"pending"}
    ensures current !in OrderStatuses ==> r == {}
  {
    if current in AllowedStatusTransitions then AllowedStatusTransitions[current] else {}
  }

  /** Position of a status along the workflow; final statuses share the
      last place. */
  function StatusRank(status: string): nat {
    if status == "pending" then 0
    else if status == "confirmed" then 1
    else if status == "ready" then 2
    else 3
  }

  /** The workflow only moves forward between known statuses: every
      successor is a known status of strictly higher rank, nothing leads
      back to "pending", and completed and cancelled orders (and unknown
      statuses) are final. */
  lemma {:induction false} TransitionsMoveForward(current: string, next: string)
    ensures next in AllowedNext(current) ==> (current in OrderStatuses && next in OrderStatuses
                                              && StatusRank(current) < StatusRank(next) && next != "pending")
    ensures current == "completed" || current == "cancelled" || current !in OrderStatuses ==> AllowedNext(current) == {}
  {
  }

  /** Every known status other than the final two can still be cancelled
      or moved on; the statuses with a successor are exactly the ones the
      rush prediction counts as active. */
  lemma ActiveStatusesAreTheUnfinished()
    ensures AiService.ActiveOrderStatuses == set s | s in OrderStatuses && AllowedNext(s) != {}
  {
    assert AllowedNext("completed") == {} && AllowedNext("cancelled") == {};
    assert "confirmed" in AllowedNext("pending") && "ready" in AllowedNext("confirmed") && "completed" in AllowedNext("ready");
  }

  // ---------------------------------------------------------------------
  // Vendor lookups.

  /** Active vendor rows owned by a user (`user_id` is not unique, so
      `.first()` may return any of them). */
  function ActiveVendorsOfUser(vendors: map<Id, Vendor>, userId: Id): set<Id> {
    set v | v in vendors && vendors[v].userId == userId && vendors[v].isActive
  }

  /** `_get_active_vendor_by_user`. */
  method GetActiveVendorByUser(vendors: map<Id, Vendor>, userId: Id) returns (vendor: Option<Id>)
    ensures vendor.None? <==> ActiveVendorsOfUser(vendors, userId) == {}
    ensures vendor.Some? ==> vendor.value in ActiveVendorsOfUser(vendors, userId)
  {
    if v :| v in ActiveVendorsOfUser(vendors, userId) {
      vendor := Some(v);
    } else {
      vendor := None;
    }
  }

  /** `_get_active_vendor_by_id`. */
  predicate IsActiveVendor(vendors: map<Id, Vendor>, vendorId: Id) {
    vendorId in vendors && vendors[vendorId].isActive
  }

  // ---------------------------------------------------------------------
  // Status updates.

  /** `update_order_status` by the vendor user `actorUserId` at `now`. */
  method UpdateOrderStatus(db: Database, orderId: Id, newStatus: string, actorUserId: Id, now: int)
    returns (r: Result<FoodOrder>)
    modifies db`orders
    ensures orderId !in old(db.orders) ==> r == Err(LookupError("Order not found"))
    ensures orderId in old(db.orders) && ActiveVendorsOfUser(db.vendors, actorUserId) == {} ==>
      r == Err(LookupError("Vendor profile not found"))
    ensures (orderId in old(db.orders) && ActiveVendorsOfUser(db.vendors, actorUserId) != {}
             && old(db.orders[orderId]).vendorId !in ActiveVendorsOfUser(db.vendors, actorUserId)) ==>
      r == Err(PermissionError("Vendor can update only their own orders"))
    ensures (orderId in old(db.orders) && ActiveVendorsOfUser(db.vendors, actorUserId) == {old(db.orders[orderId]).vendorId}
             && newStatus !in AllowedNext(old(db.orders[orderId]).status)) ==>
      r == Err(ValueError("Invalid status transition from '" + old(db.orders[orderId]).status + "' to '" + newStatus + "'"))
    ensures r.Ok? ==> (orderId in old(db.orders)
                       && old(db.orders[orderId]).vendorId in ActiveVendorsOfUser(db.vendors, actorUserId)
                       && newStatus in AllowedNext(old(db.orders[orderId]).status))
    ensures (orderId in old(db.orders) && ActiveVendorsOfUser(db.vendors, actorUserId) == {old(db.orders[orderId]).vendorId}
             && newStatus in AllowedNext(old(db.orders[orderId]).status)) ==> r.Ok?
    ensures r.Err? ==> db.orders == old(db.orders)
    ensures r.Ok? ==>
      && r.value == old(db.orders[orderId]).(status := newStatus,
                      pickedUpAt := if newStatus == "completed" then Some(now) else old(db.orders[orderId]).pickedUpAt)
      && db.orders == old(db.orders)[orderId := r.value]
  {
    if orderId !in db.orders {
      return Err(LookupError("Order not found"));
    }
    var order := db.orders[orderId];
    var vendor := GetActiveVendorByUser(db.vendors, actorUserId);
    if vendor.None? {
      return Err(LookupError("Vendor profile not found"));
    }
    if order.vendorId != vendor.value {
      return Err(PermissionError("Vendor can update only their own orders"));
    }
    var current := order.status;
    if newStatus !in AllowedNext(current) {
      return Err(ValueError("Invalid status transition from '" + current + "' to '" + newStatus + "'"));
    }
    var updated := order.(status := newStatus);
    if newStatus == "completed" {
      updated := updated.(pickedUpAt := Some(now));
    }
    db.orders := db.orders[orderId := updated];
    r := Ok(updated);
  }

  /** An order reaches "completed" only from "ready", so a picked-up order
      was ready first. */
  lemma {:induction false} CompletedOnlyFromReady(current: string)
    ensures "completed" in AllowedNext(current) <==> current == "ready"
  {
  }

  // ---------------------------------------------------------------------
  // Order placement.

  /** A requested line after schema validation. */
  datatype OrderLine = OrderLine(itemId: Id, quantity: int)

  /** A line with its price fixed at ordering time. */
  datatype PricedLine = PricedLine(itemId: Id, quantity: int, itemPrice: real, subtotal: real)

  function LineIds(lines: seq<OrderLine>): set<Id> {
    set i | 0 <= i < |lines| :: lines[i].itemId
  }

  /** Whether the vendor offers the item right now. */
  predicate Orderable(menuItems: map<Id, MenuItem>, itemId: Id, vendorId: Id) {
    itemId in menuItems && menuItems[itemId].vendorId == vendorId && menuItems[itemId].isAvailable
  }

  /** The error the `k`-th line raises, given the lines before it, or
      `None` when it is accepted: a non-positive quantity, then an item
      already seen, then an item the vendor does not offer. */
  function LineError(lines: seq<OrderLine>, k: nat, menuItems: map<Id, MenuItem>, vendorId: Id): Option<Error>
    requires k < |lines|
  {
    if lines[k].quantity <= 0 then Some(ValueError("Quantity must be greater than 0"))
    else if lines[k].itemId in LineIds(lines[..k]) then Some(ValueError("Duplicate item in order payload"))
    else if !Orderable(menuItems, lines[k].itemId, vendorId) then Some(LookupError("Menu item not found for selected vendor"))
    else None
  }

  /** A line is refused for its quantity first, then for repeating an
      earlier line's item, and passes exactly when its quantity is
      positive, no earlier line names its item and the vendor offers it. */
  lemma {:induction false} LineErrorDecides(lines: seq<OrderLine>, k: nat, menuItems: map<Id, MenuItem>, vendorId: Id)
    requires k < |lines|
    ensures lines[k].quantity <= 0 ==> LineError(lines, k, menuItems, vendorId) == Some(ValueError("Quantity must be greater than 0"))
    ensures lines[k].quantity > 0 && (exists j :: 0 <= j < k && lines[j].itemId == lines[k].itemId) ==>
      LineError(lines, k, menuItems, vendorId) == Some(ValueError("Duplicate item in order payload"))
    ensures LineError(lines, k, menuItems, vendorId).None? <==>
      (lines[k].quantity > 0 && (forall j :: 0 <= j < k ==> lines[j].itemId != lines[k].itemId)
       && Orderable(menuItems, lines[k].itemId, vendorId))
  {
    var before := lines[..k];
    if exists j :: 0 <= j < k && lines[j].itemId == lines[k].itemId {
      var j :| 0 <= j < k && lines[j].itemId == lines[k].itemId;
      assert before[j] == lines[j];
    } else {
      forall i | 0 <= i < |before| ensures before[i].itemId != lines[k].itemId {
        assert before[i] == lines[i];
      }
    }
  }

  /** Σ price × quantity over the lines, at the menu's current prices. */
  function LinesTotal(lines: seq<OrderLine>, menuItems: map<Id, MenuItem>): real {
    if lines == [] then 0.0
    else
      var last := lines[|lines| - 1];
      LinesTotal(lines[..|lines| - 1], menuItems)
        + (if last.itemId in menuItems then menuItems[last.itemId].price * last.quantity as real else 0.0)
  }

  /** The lines of an accepted order: every line priced from the menu. */
  predicate PricedFrom(priced: seq<PricedLine>, lines: seq<OrderLine>, menuItems: map<Id, MenuItem>) {
    |priced| == |lines|
    && forall i :: 0 <= i < |lines| ==>
         lines[i].itemId in menuItems
         && priced[i] == PricedLine(lines[i].itemId, lines[i].quantity, menuItems[lines[i].itemId].price,
                                    menuItems[lines[i].itemId].price * lines[i].quantity as real)
  }

  /** The pricing loop of `create_food_order`: stops at the first line that
      fails, otherwise prices every line and sums the subtotals. */
  method PriceOrderLines(lines: seq<OrderLine>, menuItems: map<Id, MenuItem>, vendorId: Id)
    returns (r: Result<seq<PricedLine>>, total: real)
    ensures r.Err? ==> exists k :: 0 <= k < |lines| && LineError(lines, k, menuItems, vendorId) == Some(r.error)
                         && forall j :: 0 <= j < k ==> LineError(lines, j, menuItems, vendorId).None?
    ensures r.Ok? <==> forall k :: 0 <= k < |lines| ==> LineError(lines, k, menuItems, vendorId).None?
    ensures r.Ok? ==> PricedFrom(r.value, lines, menuItems) && total == LinesTotal(lines, menuItems)
  {
    var priced: seq<PricedLine> := [];
    var seen: set<Id> := {};
    total := 0.0;
    var i := 0;
    while i < |lines|
      invariant 0 <= i <= |lines|
      invariant PricedUpTo(lines, i, menuItems, vendorId, seen, priced, total)
    {
      var line := lines[i];
      if line.quantity <= 0 {
        r := Err(ValueError("Quantity must be greater than 0"));
        assert LineError(lines, i, menuItems, vendorId) == Some(r.error);
        return;
      }
      if line.itemId in seen {
        r := Err(ValueError("Duplicate item in order payload"));
        assert LineError(lines, i, menuItems, vendorId) == Some(r.error);
        return;
      }
      if !Orderable(menuItems, line.itemId, vendorId) {
        r := Err(LookupError("Menu item not found for selected vendor"));
        assert LineError(lines, i, menuItems, vendorId) == Some(r.error);
        return;
      }
      assert LineError(lines, i, menuItems, vendorId).None?;
      var price := menuItems[line.itemId].price;
      var subtotal := price * line.quantity as real;
      PricedStep(lines, i, menuItems, vendorId, seen, priced, total);
      priced := priced + [PricedLine(line.itemId, line.quantity, price, subtotal)];
      total := total + subtotal;
      seen := seen + {line.itemId};
      i := i + 1;
    }
    assert lines[..i] == lines;
    r := Ok(priced);
  }

  /** The first `n` lines are accepted: `seen` holds their items, `priced`
      their priced lines and `total` their sum. */
  ghost predicate PricedUpTo(lines: seq<OrderLine>, n: nat, menuItems: map<Id, MenuItem>, vendorId: Id, seen: set<Id>,
                             priced: seq<PricedLine>, total: real)
    requires n <= |lines|
  {
    && seen == LineIds(lines[..n])
    && (forall j :: 0 <= j < n ==> LineError(lines, j, menuItems, vendorId).None?)
    && PricedFrom(priced, lines[..n], menuItems)
    && total == LinesTotal(lines[..n], menuItems)
  }

  /** Accepting one more line extends the items seen, the priced lines and
      the total by that line. */
  lemma {:induction false} PricedStep(lines: seq<OrderLine>, i: nat, menuItems: map<Id, MenuItem>, vendorId: Id, seen: set<Id>,
                                      priced: seq<PricedLine>, total: real)
    requires i < |lines| && PricedUpTo(lines, i, menuItems, vendorId, seen, priced, total)
    requires LineError(lines, i, menuItems, vendorId).None?
    ensures var line := lines[i];
      line.itemId in menuItems
      && var price := menuItems[line.itemId].price;
      PricedUpTo(lines, i + 1, menuItems, vendorId, seen + {line.itemId},
                 priced + [PricedLine(line.itemId, line.quantity, price, price * line.quantity as real)],
                 total + price * line.quantity as real)
  {
    var line, next := lines[i], lines[..i + 1];
    var price := menuItems[line.itemId].price;
    var extended := priced + [PricedLine(line.itemId, line.quantity, price, price * line.quantity as real)];
    assert next[..i] == lines[..i];
    assert LineIds(next) == LineIds(lines[..i]) + {line.itemId} by {
      assert next == lines[..i] + [line];
    }
    forall j | 0 <= j < i + 1
      ensures next[j].itemId in menuItems
      ensures extended[j] == PricedLine(next[j].itemId, next[j].quantity, menuItems[next[j].itemId].price,
                                        menuItems[next[j].itemId].price * next[j].quantity as real)
    {
      if j < i {
        assert next[j] == lines[..i][j];
      }
    }
    assert LinesTotal(next, menuItems) == LinesTotal(lines[..i], menuItems) + price * line.quantity as real;
  }

  /** An accepted order names each item once, with a positive quantity, and
      only items the vendor offers. */
  lemma {:induction false} AcceptedLinesAreSound(lines: seq<OrderLine>, menuItems: map<Id, MenuItem>, vendorId: Id)
    requires forall k :: 0 <= k < |lines| ==> LineError(lines, k, menuItems, vendorId).None?
    ensures forall k :: 0 <= k < |lines| ==> lines[k].quantity > 0 && Orderable(menuItems, lines[k].itemId, vendorId)
    ensures forall j, k :: 0 <= j < k < |lines| ==> lines[j].itemId != lines[k].itemId
  {
    forall k | 0 <= k < |lines| ensures lines[k].quantity > 0 && Orderable(menuItems, lines[k].itemId, vendorId) {
      assert LineError(lines, k, menuItems, vendorId).None?;
    }
    forall j, k | 0 <= j < k < |lines| ensures lines[j].itemId != lines[k].itemId {
      assert LineError(lines, k, menuItems, vendorId).None?;
      assert lines[j].itemId in LineIds(lines[..k]) by {
        assert lines[..k][j] == lines[j];
      }
    }
  }

  /** Pickup codes currently in use. */
  function PickupCodes(orders: map<Id, FoodOrder>): set<string> {
    set k | k in orders && orders[k].pickupCode.Some? :: orders[k].pickupCode.value
  }

  /** No two orders share a pickup code (the column is unique). */
  predicate PickupCodesUnique(orders: map<Id, FoodOrder>) {
    forall k1, k2 :: k1 in orders && k2 in orders && k1 != k2 && orders[k1].pickupCode.Some? ==>
      orders[k1].pickupCode != orders[k2].pickupCode
  }

  /** Length of a pickup code. */
  const PickupCodeLength: nat := 6

  /** The order-item rows of an order, one per priced line, under keys
      that were free. */
  predicate ItemsStored(before: map<Id, OrderItem>, after: map<Id, OrderItem>, orderId: Id, priced: seq<PricedLine>,
                        keys: seq<Id>)
  {
    && |keys| == |priced|
    && (forall i, j :: 0 <= i < j < |keys| ==> keys[i] != keys[j])
    && (forall i :: 0 <= i < |keys| ==> keys[i] !in before)
    && after.Keys == before.Keys + (set k | k in keys)
    && (forall k :: k in before ==> after[k] == before[k])
    && (forall i :: 0 <= i < |keys| ==>
          after[keys[i]] == OrderItem(orderId, priced[i].itemId, priced[i].quantity, priced[i].itemPrice, priced[i].subtotal))
  }

  /** Adds the order's item rows. */
  method InsertOrderItems(db: Database, orderId: Id, priced: seq<PricedLine>) returns (ghost keys: seq<Id>)
    modifies db`orderItems
    ensures ItemsStored(old(db.orderItems), db.orderItems, orderId, priced, keys)
  {
    keys := [];
    var i := 0;
    while i < |priced|
      invariant 0 <= i <= |priced|
      invariant ItemsStored(old(db.orderItems), db.orderItems, orderId, priced[..i], keys)
    {
      var line := priced[i];
      var key := FreshKey(db.orderItems);
      db.orderItems := db.orderItems[key := OrderItem(orderId, line.itemId, line.quantity, line.itemPrice, line.subtotal)];
      assert priced[..i + 1] == priced[..i] + [line];
      assert (set k | k in keys + [key]) == (set k | k in keys) + {key};
      keys := keys + [key];
      i := i + 1;
    }
    assert priced[..i] == priced;
  }

  /** `create_food_order` for `studentId` on day `today`. `draws` is the
      stream of six-character codes the generator produces; the redraw loop
      relies on one of them being unused. */
  method CreateFoodOrder(db: Database, vendorId: Id, slotId: Id, lines: seq<OrderLine>, studentId: Id, today: int,
                         draws: seq<string>)
    returns (r: Result<Id>, ghost itemKeys: seq<Id>)
    modifies db`orders, db`orderItems
    requires forall k :: 0 <= k < |draws| ==> Helpers.IsCode(draws[k], PickupCodeLength)
    requires exists k :: 0 <= k < |draws| && draws[k] !in PickupCodes(db.orders)
    ensures !IsActiveVendor(db.vendors, vendorId) ==> r == Err(LookupError("Vendor not found"))
    ensures IsActiveVendor(db.vendors, vendorId) && !(slotId in db.slots && db.slots[slotId].isActive) ==>
      r == Err(LookupError("Break slot not found"))
    ensures r.Err? && IsActiveVendor(db.vendors, vendorId) && slotId in db.slots && db.slots[slotId].isActive ==>
      exists k :: 0 <= k < |lines| && LineError(lines, k, db.menuItems, vendorId) == Some(r.error)
                  && forall j :: 0 <= j < k ==> LineError(lines, j, db.menuItems, vendorId).None?
    ensures r.Ok? <==> (IsActiveVendor(db.vendors, vendorId) && slotId in db.slots && db.slots[slotId].isActive
                        && forall k :: 0 <= k < |lines| ==> LineError(lines, k, db.menuItems, vendorId).None?)
    ensures r.Err? ==> db.orders == old(db.orders) && db.orderItems == old(db.orderItems)
    ensures r.Ok? ==>
      && r.value !in old(db.orders)
      && db.orders.Keys == old(db.orders).Keys + {r.value}
      && (forall k :: k in old(db.orders) ==> db.orders[k] == old(db.orders)[k])
      && var order := db.orders[r.value];
      && order == FoodOrder(studentId, vendorId, slotId, today, LinesTotal(lines, db.menuItems), "pending",
                            order.pickupCode, None)
      && order.pickupCode.Some? && order.pickupCode.value !in PickupCodes(old(db.orders))
      && Helpers.IsCode(order.pickupCode.value, PickupCodeLength)
      && exists priced :: PricedFrom(priced, lines, db.menuItems)
           && ItemsStored(old(db.orderItems), db.orderItems, r.value, priced, itemKeys)
    ensures old(PickupCodesUnique(db.orders)) ==> PickupCodesUnique(db.orders)
  {
    itemKeys := [];
    if !IsActiveVendor(db.vendors, vendorId) {
      return Err(LookupError("Vendor not found")), itemKeys;
    }
    if !(slotId in db.slots && db.slots[slotId].isActive) {
      return Err(LookupError("Break slot not found")), itemKeys;
    }
    var priced, total := PriceOrderLines(lines, db.menuItems, vendorId);
    if priced.Err? {
      return Err(priced.error), itemKeys;
    }
    var orderId;
    orderId, itemKeys := StoreOrder(db, vendorId, slotId, lines, priced.value, total, studentId, today, draws);
    r := Ok(orderId);
  }

  /** The writes of an accepted order: a pending order under a new key with
      an unused pickup code and the lines' total, then one item row per
      priced line. */
  method StoreOrder(db: Database, vendorId: Id, slotId: Id, lines: seq<OrderLine>, priced: seq<PricedLine>, total: real,
                    studentId: Id, today: int, draws: seq<string>)
    returns (orderId: Id, ghost itemKeys: seq<Id>)
    modifies db`orders, db`orderItems
    requires forall k :: 0 <= k < |draws| ==> Helpers.IsCode(draws[k], PickupCodeLength)
    requires exists k :: 0 <= k < |draws| && draws[k] !in PickupCodes(db.orders)
    requires PricedFrom(priced, lines, db.menuItems) && total == LinesTotal(lines, db.menuItems)
    ensures orderId !in old(db.orders)
    ensures db.orders.Keys == old(db.orders).Keys + {orderId}
    ensures forall k :: k in old(db.orders) ==> db.orders[k] == old(db.orders)[k]
    ensures var order := db.orders[orderId];
      && order == FoodOrder(studentId, vendorId, slotId, today, LinesTotal(lines, db.menuItems), "pending",
                            order.pickupCode, None)
      && order.pickupCode.Some? && order.pickupCode.value !in PickupCodes(old(db.orders))
      && Helpers.IsCode(order.pickupCode.value, PickupCodeLength)
    ensures ItemsStored(old(db.orderItems), db.orderItems, orderId, priced, itemKeys)
    ensures old(PickupCodesUnique(db.orders)) ==> PickupCodesUnique(db.orders)
  {
    var code, _ := Helpers.PickUnusedCode(draws, PickupCodes(db.orders));
    orderId := FreshKey(db.orders);
    db.orders := db.orders[orderId := FoodOrder(studentId, vendorId, slotId, today, total, "pending", Some(code), None)];
    itemKeys := InsertOrderItems(db, orderId, priced);
  }

  // ---------------------------------------------------------------------
  // Menu management.

  /** Who may manage the catalog: the role string the router passes. */
  const VendorRoleName := "vendor"
  const AdminRoleName := "admin"

  /** Whether the vendor already has an item of that name, compared as
      `lower(item_name) == name.strip().lower()`. */
  predicate HasItemNamed(menuItems: map<Id, MenuItem>, vendorId: Id, name: string) {
    exists k :: k in menuItems && menuItems[k].vendorId == vendorId && Lower(menuItems[k].itemName) == Lower(Strip(name))
  }

  /** No vendor has two items whose names agree ignoring case. */
  predicate NamesDistinctPerVendor(menuItems: map<Id, MenuItem>) {
    forall k1, k2 :: k1 in menuItems && k2 in menuItems && k1 != k2 && menuItems[k1].vendorId == menuItems[k2].vendorId ==>
      Lower(menuItems[k1].itemName) != Lower(menuItems[k2].itemName)
  }

  /** Whether the actor has a vendor to create items for: a vendor user
      with an active vendor row, or an admin whose `vendor_id` is given,
      parses and names an active vendor. */
  predicate CatalogVendorResolves(vendors: map<Id, Vendor>, actorRole: string, actorUserId: Id, rawVendorId: Option<string>,
                                  parseId: string -> Option<Id>)
  {
    || (actorRole == VendorRoleName && ActiveVendorsOfUser(vendors, actorUserId) != {})
    || (actorRole == AdminRoleName && Truthy(rawVendorId) && parseId(rawVendorId.value).Some?
        && IsActiveVendor(vendors, parseId(rawVendorId.value).value))
  }

  /** The vendor an actor creates items for: a vendor's own active vendor
      row; for an admin, the payload's `vendor_id`, which must be present,
      parse as a UUID (`parseId`) and name an active vendor. */
  method ResolveCatalogVendor(vendors: map<Id, Vendor>, actorRole: string, actorUserId: Id, rawVendorId: Option<string>,
                              parseId: string -> Option<Id>)
    returns (r: Result<Id>)
    ensures actorRole == VendorRoleName ==>
      (r.Ok? <==> ActiveVendorsOfUser(vendors, actorUserId) != {})
      && (r.Ok? ==> r.value in ActiveVendorsOfUser(vendors, actorUserId))
      && (r.Err? ==> r.error == LookupError("Vendor profile not found"))
    ensures actorRole == AdminRoleName ==>
      && (!Truthy(rawVendorId) ==> r == Err(ValueError("vendor_id is required for admin menu item creation")))
      && (Truthy(rawVendorId) && parseId(rawVendorId.value).None? ==> r == Err(ValueError("Invalid vendor_id format")))
      && (Truthy(rawVendorId) && parseId(rawVendorId.value).Some? ==>
            r == (if IsActiveVendor(vendors, parseId(rawVendorId.value).value) then Ok(parseId(rawVendorId.value).value)
                  else Err(LookupError("Vendor not found"))))
    ensures actorRole != VendorRoleName && actorRole != AdminRoleName ==>
      r == Err(PermissionError("Only admin or vendor can manage food catalog"))
  {
    if actorRole == VendorRoleName {
      var vendor := GetActiveVendorByUser(vendors, actorUserId);
      if vendor.None? {
        return Err(LookupError("Vendor profile not found"));
      }
      r := Ok(vendor.value);
    } else if actorRole == AdminRoleName {
      if rawVendorId.None? || rawVendorId.value == "" {
        return Err(ValueError("vendor_id is required for admin menu item creation"));
      }
      var parsed := parseId(rawVendorId.value);
      if parsed.None? {
        return Err(ValueError("Invalid vendor_id format"));
      }
      if !IsActiveVendor(vendors, parsed.value) {
        return Err(LookupError("Vendor not found"));
      }
      r := Ok(parsed.value);
    } else {
      r := Err(PermissionError("Only admin or vendor can manage food catalog"));
    }
  }

  /** A stripped name that the vendor does not have differs, ignoring
      case, from the name of every item of that vendor. */
  lemma {:induction false} FreshNameDiffers(menuItems: map<Id, MenuItem>, vendorId: Id, name: string)
    requires IsStripped(name) && !HasItemNamed(menuItems, vendorId, name)
    ensures forall k :: k in menuItems && menuItems[k].vendorId == vendorId ==> Lower(menuItems[k].itemName) != Lower(name)
  {
    TrimStartOfStripped(name);
    TrimEndOfStripped(name);
    assert Strip(name) == name;
  }

  /** Adding an item whose name no item of the same vendor already has
      keeps names distinct per vendor. */
  lemma {:induction false} InsertKeepsNamesDistinct(menuItems: map<Id, MenuItem>, itemId: Id, item: MenuItem)
    requires itemId !in menuItems
    requires IsStripped(item.itemName) && !HasItemNamed(menuItems, item.vendorId, item.itemName)
    ensures NamesDistinctPerVendor(menuItems) ==> NamesDistinctPerVendor(menuItems[itemId := item])
  {
    if NamesDistinctPerVendor(menuItems) {
      FreshNameDiffers(menuItems, item.vendorId, item.itemName);
      var after := menuItems[itemId := item];
      forall k1, k2 | k1 in after && k2 in after && k1 != k2 && after[k1].vendorId == after[k2].vendorId
        ensures Lower(after[k1].itemName) != Lower(after[k2].itemName)
      {
        if k1 == itemId {
          assert after[k1] == item && after[k2] == menuItems[k2];
          assert Lower(menuItems[k2].itemName) != Lower(item.itemName);
        } else if k2 == itemId {
          assert after[k2] == item && after[k1] == menuItems[k1];
          assert Lower(menuItems[k1].itemName) != Lower(item.itemName);
        } else {
          assert after[k1] == menuItems[k1] && after[k2] == menuItems[k2];
          assert Lower(menuItems[k1].itemName) != Lower(menuItems[k2].itemName);
        }
      }
    }
  }

  /** `create_menu_item`: the item is filed under the resolved vendor with
      its name stripped, unless that vendor already has the name. */
  method CreateMenuItem(db: Database, payload: MenuItemCreate, actorRole: string, actorUserId: Id,
                        parseId: string -> Option<Id>)
    returns (r: Result<Id>, ghost vendorId: Option<Id>)
    modifies db`menuItems
    ensures actorRole != VendorRoleName && actorRole != AdminRoleName ==>
      r == Err(PermissionError("Only admin or vendor can manage food catalog"))
    ensures actorRole == VendorRoleName && ActiveVendorsOfUser(db.vendors, actorUserId) == {} ==>
      r == Err(LookupError("Vendor profile not found"))
    ensures actorRole == AdminRoleName && !Truthy(payload.vendorId) ==>
      r == Err(ValueError("vendor_id is required for admin menu item creation"))
    ensures actorRole == AdminRoleName && Truthy(payload.vendorId) && parseId(payload.vendorId.value).None? ==>
      r == Err(ValueError("Invalid vendor_id format"))
    ensures (actorRole == AdminRoleName && Truthy(payload.vendorId) && parseId(payload.vendorId.value).Some?
             && !IsActiveVendor(db.vendors, parseId(payload.vendorId.value).value)) ==>
      r == Err(LookupError("Vendor not found"))
    ensures vendorId.Some? <==> CatalogVendorResolves(db.vendors, actorRole, actorUserId, payload.vendorId, parseId)
    ensures vendorId.Some? ==>
      (actorRole == VendorRoleName ==> vendorId.value in ActiveVendorsOfUser(db.vendors, actorUserId))
      && (actorRole == AdminRoleName ==> Truthy(payload.vendorId) && parseId(payload.vendorId.value) == vendorId
                                           && IsActiveVendor(db.vendors, vendorId.value))
    ensures vendorId.Some? && HasItemNamed(old(db.menuItems), vendorId.value, payload.itemName) ==>
      r == Err(ValueError("Menu item already exists for this vendor"))
    ensures r.Ok? <==> vendorId.Some? && !HasItemNamed(old(db.menuItems), vendorId.value, payload.itemName)
    ensures r.Err? ==> db.menuItems == old(db.menuItems)
    ensures r.Ok? ==>
      && r.value !in old(db.menuItems)
      && db.menuItems == old(db.menuItems)[r.value := MenuItem(vendorId.value, Strip(payload.itemName), payload.description,
                                                               payload.price, payload.category, payload.isAvailable,
                                                               payload.preparationTime, payload.imageUrl)]
    ensures old(NamesDistinctPerVendor(db.menuItems)) ==> NamesDistinctPerVendor(db.menuItems)
  {
    vendorId := None;
    var vendor := ResolveCatalogVendor(db.vendors, actorRole, actorUserId, payload.vendorId, parseId);
    if vendor.Err? {
      return Err(vendor.error), vendorId;
    }
    vendorId := Some(vendor.value);
    if exists k :: k in db.menuItems && db.menuItems[k].vendorId == vendor.value
                   && Lower(db.menuItems[k].itemName) == Lower(Strip(payload.itemName)) {
      return Err(ValueError("Menu item already exists for this vendor")), vendorId;
    }
    var itemId := FreshKey(db.menuItems);
    var item := MenuItem(vendor.value, Strip(payload.itemName), payload.description, payload.price, payload.category,
                         payload.isAvailable, payload.preparationTime, payload.imageUrl);
    StripIdempotent(payload.itemName);
    InsertKeepsNamesDistinct(db.menuItems, itemId, item);
    db.menuItems := db.menuItems[itemId := item];
    r := Ok(itemId);
  }

  /** The keys of an update payload that were set; `None` is an absent key
      and `Some(None)` an explicit null on a nullable column. */
  datatype MenuItemPatch = MenuItemPatch(
    itemName: Option<string>,
    description: Option<Option<string>>,
    price: Option<real>,
    category: Option<Option<string>>,
    isAvailable: Option<bool>,
    preparationTime: Option<Option<int>>,
    imageUrl: Option<Option<string>>,
    vendorId: Option<string>)

  /** The `setattr` loop: every given key is written, a string item name
      stripped. */
  function ApplyPatch(item: MenuItem, p: MenuItemPatch): (r: MenuItem)
    ensures r.vendorId == item.vendorId
    ensures r.itemName == (if p.itemName.Some? then Strip(p.itemName.value) else item.itemName)
    ensures p == MenuItemPatch(None, None, None, None, None, None, None, p.vendorId) ==> r == item
  {
    item.(
      itemName := if p.itemName.Some? then Strip(p.itemName.value) else item.itemName,
      description := if p.description.Some? then p.description.value else item.description,
      price := if p.price.Some? then p.price.value else item.price,
      category := if p.category.Some? then p.category.value else item.category,
      isAvailable := if p.isAvailable.Some? then p.isAvailable.value else item.isAvailable,
      preparationTime := if p.preparationTime.Some? then p.preparationTime.value else item.preparationTime,
      imageUrl := if p.imageUrl.Some? then p.imageUrl.value else item.imageUrl)
  }

  /** Applying the same payload twice is applying it once. */
  lemma {:induction false} ApplyPatchIdempotent(item: MenuItem, p: MenuItemPatch)
    ensures ApplyPatch(ApplyPatch(item, p), p) == ApplyPatch(item, p)
  {
    var once := ApplyPatch(item, p);
    var twice := ApplyPatch(once, p);
    if p.itemName.Some? {
      StripIdempotent(p.itemName.value);
    }
    assert twice.itemName == once.itemName;
    assert twice.description == once.description && twice.price == once.price && twice.category == once.category;
    assert twice.isAvailable == once.isAvailable && twice.preparationTime == once.preparationTime
        && twice.imageUrl == once.imageUrl;
  }

  /** `update_menu_item`: a vendor may change only its own items, an admin
      any item and (with a `vendor_id` key) the item's vendor. */
  method UpdateMenuItem(db: Database, itemId: Id, patch: MenuItemPatch, actorRole: string, actorUserId: Id,
                        parseId: string -> Option<Id>)
    returns (r: Result<MenuItem>)
    modifies db`menuItems
    ensures itemId !in old(db.menuItems) ==> r == Err(LookupError("Menu item not found"))
    ensures itemId in old(db.menuItems) && actorRole == VendorRoleName && ActiveVendorsOfUser(db.vendors, actorUserId) == {} ==>
      r == Err(LookupError("Vendor profile not found"))
    ensures (itemId in old(db.menuItems) && actorRole == VendorRoleName && ActiveVendorsOfUser(db.vendors, actorUserId) != {}
             && old(db.menuItems[itemId]).vendorId !in ActiveVendorsOfUser(db.vendors, actorUserId)) ==>
      r == Err(PermissionError("Vendors can update only their own menu items"))
    ensures itemId in old(db.menuItems) && actorRole != VendorRoleName && actorRole != AdminRoleName ==>
      r == Err(PermissionError("Only admin or vendor can manage food catalog"))
    ensures (itemId in old(db.menuItems) && actorRole == AdminRoleName && patch.vendorId.Some?) ==>
      (parseId(patch.vendorId.value).None? ==> r == Err(ValueError("Invalid vendor_id format")))
      && (parseId(patch.vendorId.value).Some? && !IsActiveVendor(db.vendors, parseId(patch.vendorId.value).value) ==>
            r == Err(LookupError("Vendor not found")))
    ensures (itemId in old(db.menuItems)
             && (actorRole == AdminRoleName
                 || (actorRole == VendorRoleName
                     && ActiveVendorsOfUser(db.vendors, actorUserId) == {old(db.menuItems[itemId]).vendorId}))
             && (actorRole == AdminRoleName && patch.vendorId.Some? ==>
                   parseId(patch.vendorId.value).Some? && IsActiveVendor(db.vendors, parseId(patch.vendorId.value).value)))
            ==> r.Ok?
    ensures r.Err? ==> db.menuItems == old(db.menuItems)
    ensures r.Ok? ==>
      && itemId in old(db.menuItems)
      && (actorRole == VendorRoleName ==> old(db.menuItems[itemId]).vendorId in ActiveVendorsOfUser(db.vendors, actorUserId))
      && (actorRole == VendorRoleName || actorRole == AdminRoleName)
      && var vendorId := if actorRole == AdminRoleName && patch.vendorId.Some? then parseId(patch.vendorId.value).value
                         else old(db.menuItems[itemId]).vendorId;
      && r.value == ApplyPatch(old(db.menuItems[itemId]).(vendorId := vendorId), patch)
      && db.menuItems == old(db.menuItems)[itemId := r.value]
  {
    if itemId !in db.menuItems {
      return Err(LookupError("Menu item not found"));
    }
    var item := db.menuItems[itemId];
    if actorRole == VendorRoleName {
      var vendor := GetActiveVendorByUser(db.vendors, actorUserId);
      if vendor.None? {
        return Err(LookupError("Vendor profile not found"));
      }
      if item.vendorId != vendor.value {
        return Err(PermissionError("Vendors can update only their own menu items"));
      }
    } else if actorRole != AdminRoleName {
      return Err(PermissionError("Only admin or vendor can manage food catalog"));
    }
    if actorRole == AdminRoleName && patch.vendorId.Some? {
      var next := parseId(patch.vendorId.value);
      if next.None? {
        return Err(ValueError("Invalid vendor_id format"));
      }
      if !IsActiveVendor(db.vendors, next.value) {
        return Err(LookupError("Vendor not found"));
      }
      item := item.(vendorId := next.value);
    }
    item := ApplyPatch(item, patch);
    db.menuItems := db.menuItems[itemId := item];
    r := Ok(item);
  }

  /** Unlike creation, an update does not re-check names: renaming one of a
      vendor's items to the (stripped) name of another of its items is
      accepted, so per-vendor name uniqueness rests on creation alone. */
  lemma {:induction false} RenameCanDuplicate(items: map<Id, MenuItem>, keep: Id, renamed: Id)
    requires keep in items && renamed in items && keep != renamed
    requires items[keep].vendorId == items[renamed].vendorId
    requires IsStripped(items[keep].itemName)
    ensures !NamesDistinctPerVendor(items[renamed := ApplyPatch(items[renamed],
              MenuItemPatch(Some(items[keep].itemName), None, None, None, None, None, None, None))])
  {
    var name := items[keep].itemName;
    var patched := ApplyPatch(items[renamed], MenuItemPatch(Some(name), None, None, None, None, None, None, None));
    assert patched.itemName == name by {
      TrimStartOfStripped(name);
      TrimEndOfStripped(name);
    }
    var after := items[renamed := patched];
    assert after[keep] == items[keep] && after[renamed] == patched;
    assert Lower(after[keep].itemName) == Lower(after[renamed].itemName);
  }
}
