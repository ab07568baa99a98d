/** Request shapes for the food ordering flow: the category and status
    literals, the menu-item field bounds and the order payload. Prices are
    exact decimals, modelled as reals. */
module FoodSchema {
  import opened Common

  /** `MenuCategory`. */
  const MenuCategories: set<string> := {"breakfast", "lunch", "snacks", "beverages", "other"}

  /** `OrderStatus`. */
  const OrderStatuses: set<string> := {"pending", "confirmed", "ready", "completed", "cancelled"}

  lemma LiteralSetSizes()
    ensures |MenuCategories| == 5 && |OrderStatuses| == 5
  {
  }

  /** Bounds shared by the create and update payloads of a menu item. */
  predicate ItemNameOk(name: string) {
    1 <= |name| <= 200
  }

  predicate DescriptionOk(d: Option<string>) {
    d.None? || |d.value| <= 1000
  }

  predicate CategoryOk(c: Option<string>) {
    c.None? || c.value in MenuCategories
  }

  predicate PreparationTimeOk(t: Option<int>) {
    t.None? || 1 <= t.value <= 180
  }

  predicate ImageUrlOk(u: Option<string>) {
    u.None? || |u.value| <= 500
  }

  /** `MenuItemCreate` (fields of `MenuItemBase` plus the optional raw
      `vendor_id`). */
  datatype MenuItemCreate = MenuItemCreate(
    itemName: string,
    description: Option<string>,
    price: real,
    category: Option<string>,
    isAvailable: bool,
    preparationTime: Option<int>,
    imageUrl: Option<string>,
    vendorId: Option<string>)

  predicate ValidMenuItemCreate(m: MenuItemCreate) {
    ItemNameOk(m.itemName) && DescriptionOk(m.description) && m.price > 0.0
    && CategoryOk(m.category) && PreparationTimeOk(m.preparationTime) && ImageUrlOk(m.imageUrl)
  }

  /** Field validation of a create payload, in declaration order; an
      accepted payload is passed on unchanged. */
  function ValidateMenuItemCreate(m: MenuItemCreate): (r: Result<MenuItemCreate>)
    ensures r.Ok? <==> ValidMenuItemCreate(m)
    ensures r.Ok? ==> r.value == m
  {
    if !ItemNameOk(m.itemName) then Err(ValueError("item_name: length must be 1..200"))
    else if !DescriptionOk(m.description) then Err(ValueError("description: at most 1000 characters"))
    else if m.price <= 0.0 then Err(ValueError("price: must be greater than 0"))
    else if !CategoryOk(m.category) then Err(ValueError("category: not a menu category"))
    else if !PreparationTimeOk(m.preparationTime) then Err(ValueError("preparation_time: must be 1..180"))
    else if !ImageUrlOk(m.imageUrl) then Err(ValueError("image_url: at most 500 characters"))
    else Ok(m)
  }

  /** `MenuItemUpdate`: every field optional. */
  datatype MenuItemUpdate = MenuItemUpdate(
    itemName: Option<string>,
    description: Option<string>,
    price: Option<real>,
    category: Option<string>,
    isAvailable: Option<bool>,
    preparationTime: Option<int>,
    imageUrl: Option<string>)

  predicate ValidMenuItemUpdate(u: MenuItemUpdate) {
    (u.itemName.None? || ItemNameOk(u.itemName.value)) && DescriptionOk(u.description)
    && (u.price.None? || u.price.value > 0.0) && CategoryOk(u.category)
    && PreparationTimeOk(u.preparationTime) && ImageUrlOk(u.imageUrl)
  }

  /** Field validation of an update payload: a given field obeys the create
      bound, an absent one passes. */
  function ValidateMenuItemUpdate(u: MenuItemUpdate): (r: Result<MenuItemUpdate>)
    ensures r.Ok? <==> ValidMenuItemUpdate(u)
    ensures r.Ok? ==> r.value == u
  {
    if u.itemName.Some? && !ItemNameOk(u.itemName.value) then Err(ValueError("item_name: length must be 1..200"))
    else if !DescriptionOk(u.description) then Err(ValueError("description: at most 1000 characters"))
    else if u.price.Some? && u.price.value <= 0.0 then Err(ValueError("price: must be greater than 0"))
    else if !CategoryOk(u.category) then Err(ValueError("category: not a menu category"))
    else if !PreparationTimeOk(u.preparationTime) then Err(ValueError("preparation_time: must be 1..180"))
    else if !ImageUrlOk(u.imageUrl) then Err(ValueError("image_url: at most 500 characters"))
    else Ok(u)
  }

  /** An update carrying every field of a valid create payload is valid. */
  lemma FullUpdateOfValidCreate(m: MenuItemCreate)
    requires ValidMenuItemCreate(m)
    ensures ValidateMenuItemUpdate(MenuItemUpdate(Some(m.itemName), m.description, Some(m.price),
      m.category, Some(m.isAvailable), m.preparationTime, m.imageUrl)).Ok?
  {
  }

  /** `OrderItemCreate`. */
  datatype OrderItemCreate = OrderItemCreate(itemId: string, quantity: int)

  predicate QuantityOk(q: int) {
    1 <= q <= 20
  }

  /** `FoodOrderCreate`. */
  datatype FoodOrderCreate = FoodOrderCreate(vendorId: string, slotId: string, items: seq<OrderItemCreate>)

  /** Field bounds of each line (`quantity` in 1..20) and then
      `validate_items_not_empty`. */
  function ValidateFoodOrderCreate(o: FoodOrderCreate): (r: Result<FoodOrderCreate>)
    ensures r.Ok? <==> |o.items| > 0 && forall i :: 0 <= i < |o.items| ==> QuantityOk(o.items[i].quantity)
    ensures r.Ok? ==> r.value == o
  {
    if exists i :: 0 <= i < |o.items| && !QuantityOk(o.items[i].quantity) then
      Err(ValueError("quantity: must be 1..20"))
    else if |o.items| == 0 then
      Err(ValueError("At least one order item is required"))
    else
      Ok(o)
  }
}
