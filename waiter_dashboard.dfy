/** The waiter's screen: the active order of the selected table, the menu filter,
    the cart, order submission, the bill, and the table assignment and release. */
module WaiterDashboard {
  import opened Wrappers
  import opened Seqs
  import opened Text
  import opened Types
  import opened DataContext

  /** One line of the waiter's cart. */
  datatype CartEntry = CartEntry(item: MenuItem, quantity: int, customization: string)

  /** The totals of the bill dialog. */
  datatype Bill = Bill(subtotal: real, tax: real, total: real)

  // ---------------------------------------------------------------------------
  // Active order

  /** An order still open at the table: neither served nor cancelled. */
  predicate IsActiveFor(o: Order, tableId: string) {
    o.tableId == tableId && o.status != Served && o.status != Cancelled
  }

  /** `activeOrder`: the first order of the selected table that is neither served nor
      cancelled; none when no table is selected or the table has no such order. */
  function ActiveOrder(orders: seq<Order>, selectedTableId: Option<string>): (r: Option<Order>)
    ensures selectedTableId.None? ==> r.None?
    ensures selectedTableId.Some? ==>
      (r.None? <==> forall i :: 0 <= i < |orders| ==> !IsActiveFor(orders[i], selectedTableId.value))
    ensures selectedTableId.Some? ==> forall i ::
      (0 <= i < |orders| && IsActiveFor(orders[i], selectedTableId.value)
        && forall j :: 0 <= j < i ==> !IsActiveFor(orders[j], selectedTableId.value))
      ==> r == Some(orders[i])
  {
    match selectedTableId
    case None => None
    case Some(t) =>
      var p := (o: Order) => IsActiveFor(o, t);
      assert forall i ::
        (0 <= i < |orders| && IsActiveFor(orders[i], t) && forall j :: 0 <= j < i ==> !IsActiveFor(orders[j], t))
        ==> IsFirst(orders, p, i);
      Find(orders, p)
  }

  /** Once a table has an active order, appending further orders (which is what
      "add more items" does) never changes which order is active: the merged second
      order is never the one shown, billed or extended later. */
  lemma SecondOrderNeverActive(orders: seq<Order>, added: Order, tableId: string, menuItems: seq<MenuItem>)
    requires ActiveOrder(orders, Some(tableId)).Some?
    ensures ActiveOrder(orders + [added], Some(tableId)) == ActiveOrder(orders, Some(tableId))
    ensures CalculateBill(ActiveOrder(orders + [added], Some(tableId)), menuItems)
         == CalculateBill(ActiveOrder(orders, Some(tableId)), menuItems)
  {
    var p := (o: Order) => IsActiveFor(o, tableId);
    var i :| IsFirst(orders, p, i);
    assert IsFirst(orders + [added], p, i);
  }

  // ---------------------------------------------------------------------------
  // Menu filter

  /** `filteredItems`: exactly the available items whose name contains the search
      query case-insensitively and whose category is the selected one, unless the
      selection is `'all'`. */
  function FilteredItems(menuItems: seq<MenuItem>, selectedCategory: string, searchQuery: string): (r: seq<MenuItem>)
    ensures forall m :: m in r <==>
      m in menuItems && m.isAvailable && ContainsIgnoringCase(m.name, searchQuery)
      && (selectedCategory == "all" || m.categoryId == selectedCategory)
    ensures |r| <= |menuItems|
  {
    Filter(menuItems, (m: MenuItem) =>
      (selectedCategory == "all" || m.categoryId == selectedCategory)
      && ContainsIgnoringCase(m.name, searchQuery) && m.isAvailable)
  }

  // ---------------------------------------------------------------------------
  // Cart

  predicate InCart(cart: seq<CartEntry>, itemId: string) {
    exists k :: 0 <= k < |cart| && cart[k].item.id == itemId
  }

  /** What the cart operations keep: every quantity is at least one and no menu
      item has two entries. */
  predicate CartValid(cart: seq<CartEntry>) {
    && (forall k :: 0 <= k < |cart| ==> cart[k].quantity >= 1)
    && (forall j, k :: 0 <= j < k < |cart| ==> cart[j].item.id != cart[k].item.id)
  }

  /** `addToCart`: an item already in the cart gets one more of it and the cart keeps
      its length; a new item is appended with quantity one and no customization. */
  function CartAdd(cart: seq<CartEntry>, item: MenuItem): (r: seq<CartEntry>)
    ensures InCart(cart, item.id) ==> |r| == |cart|
    ensures InCart(cart, item.id) ==> forall k :: 0 <= k < |cart| && cart[k].item.id != item.id ==> r[k] == cart[k]
    ensures InCart(cart, item.id) ==> forall k :: 0 <= k < |cart| && cart[k].item.id == item.id ==>
      r[k] == cart[k].(quantity := cart[k].quantity + 1)
    ensures !InCart(cart, item.id) ==> r == cart + [CartEntry(item, 1, "")]
  {
    if InCart(cart, item.id) then
      MapIf(cart, (c: CartEntry) => c.item.id == item.id, (c: CartEntry) => c.(quantity := c.quantity + 1))
    else
      cart + [CartEntry(item, 1, "")]
  }

  /** Adding to the cart keeps every quantity positive and one entry per item. */
  lemma CartAddValid(cart: seq<CartEntry>, item: MenuItem)
    requires CartValid(cart)
    ensures CartValid(CartAdd(cart, item))
  {
    var r := CartAdd(cart, item);
    if InCart(cart, item.id) {
      forall j, k | 0 <= j < k < |r| ensures r[j].item.id != r[k].item.id {
        assert r[j].item.id == cart[j].item.id && r[k].item.id == cart[k].item.id;
      }
    }
  }

  /** `updateQuantity`: the entries of the item take `quantity + delta` when that is
      positive and are left alone otherwise, then the entries without a positive
      quantity are dropped. On a valid cart nothing is dropped: the length is kept,
      every quantity stays at least one and the other entries are untouched. */
  function CartUpdateQuantity(cart: seq<CartEntry>, itemId: string, delta: int): (r: seq<CartEntry>)
    ensures CartValid(cart) ==> |r| == |cart| && CartValid(r)
    ensures CartValid(cart) ==> forall k :: 0 <= k < |cart| && cart[k].item.id != itemId ==> r[k] == cart[k]
    ensures CartValid(cart) ==> forall k :: 0 <= k < |cart| && cart[k].item.id == itemId ==>
      r[k] == if cart[k].quantity + delta > 0 then cart[k].(quantity := cart[k].quantity + delta) else cart[k]
  {
    var positive := (c: CartEntry) => c.quantity > 0;
    var updated := MapIf(cart, (c: CartEntry) => c.item.id == itemId,
      (c: CartEntry) => if c.quantity + delta > 0 then c.(quantity := c.quantity + delta) else c);
    if CartValid(cart) then
      PositiveUpdateKeepsCart(cart, updated, itemId, delta, positive);
      Filter(updated, positive)
    else
      Filter(updated, positive)
  }

  /** The step behind CartUpdateQuantity: on a valid cart the rewritten entries all
      keep a positive quantity and their item, so the filter drops nothing. */
  lemma PositiveUpdateKeepsCart(cart: seq<CartEntry>, updated: seq<CartEntry>, itemId: string, delta: int,
                                positive: CartEntry -> bool)
    requires CartValid(cart)
    requires |updated| == |cart|
    requires forall k :: 0 <= k < |cart| && cart[k].item.id != itemId ==> updated[k] == cart[k]
    requires forall k :: 0 <= k < |cart| && cart[k].item.id == itemId ==>
      updated[k] == if cart[k].quantity + delta > 0 then cart[k].(quantity := cart[k].quantity + delta) else cart[k]
    requires forall c :: positive(c) == (c.quantity > 0)
    ensures Filter(updated, positive) == updated
    ensures CartValid(updated)
  {
    assert forall k :: 0 <= k < |updated| ==> updated[k].item == cart[k].item && updated[k].quantity >= 1;
    FilterKeepsAll(updated, positive);
  }

  /** `updateCustomization`: the entries of the item take the new text; nothing else changes. */
  function CartSetCustomization(cart: seq<CartEntry>, itemId: string, customization: string): (r: seq<CartEntry>)
    ensures |r| == |cart|
    ensures forall k :: 0 <= k < |cart| && cart[k].item.id != itemId ==> r[k] == cart[k]
    ensures forall k :: 0 <= k < |cart| && cart[k].item.id == itemId ==> r[k] == cart[k].(customization := customization)
    ensures CartValid(cart) ==> CartValid(r)
  {
    var r := MapIf(cart, (c: CartEntry) => c.item.id == itemId, (c: CartEntry) => c.(customization := customization));
    assert forall k :: 0 <= k < |r| ==> r[k].item == cart[k].item && r[k].quantity == cart[k].quantity;
    r
  }

  /** The customization list of a new order line: the cart text, unless it is empty. */
  function CustomizationsOf(customization: string): seq<string> {
    if customization == "" then [] else [customization]
  }

  /** The order lines `submitOrder` builds from the cart, one per entry and in cart
      order, each `pending`, with the entry's item and quantity, the customization
      text as a one-element list (or none), one of the fresh ids, and the time the
      browser clock gave while that line was built. */
  function CartToOrderItems(cart: seq<CartEntry>, itemIds: seq<string>, createdAts: seq<string>): (r: seq<OrderItem>)
    requires |itemIds| == |cart| && |createdAts| == |cart|
    ensures |r| == |cart|
    ensures forall k :: 0 <= k < |r| ==>
      && r[k].id == itemIds[k] && r[k].orderId == ""
      && r[k].itemId == cart[k].item.id && r[k].quantity == cart[k].quantity
      && r[k].status == Pending && r[k].createdAt == createdAts[k]
      && r[k].customizations == (if cart[k].customization == "" then [] else [cart[k].customization])
  {
    if cart == [] then []
    else
      [OrderItem(itemIds[0], "", cart[0].item.id, cart[0].quantity, Pending,
                 CustomizationsOf(cart[0].customization), createdAts[0])]
      + CartToOrderItems(cart[1..], itemIds[1..], createdAts[1..])
  }

  // ---------------------------------------------------------------------------
  // Bill

  /** `getMenuItemById(id)?.price || 0`: an item missing from the menu costs nothing. */
  function PriceOf(menuItems: seq<MenuItem>, itemId: string): (r: real)
    ensures (forall m :: m in menuItems ==> m.id != itemId) ==> r == 0.0
    ensures forall i ::
      (0 <= i < |menuItems| && menuItems[i].id == itemId && forall j :: 0 <= j < i ==> menuItems[j].id != itemId)
      ==> r == menuItems[i].price
  {
    match FindMenuItem(menuItems, itemId)
    case Some(m) => m.price
    case None => 0.0
  }

  /** Price times quantity for one order line: nothing for a free item or no
      portion, the price for one portion, never negative for a non-negative price
      and quantity. */
  function LineTotal(price: real, quantity: int): (r: real)
    ensures price == 0.0 || quantity == 0 ==> r == 0.0
    ensures quantity == 1 ==> r == price
    ensures price >= 0.0 && quantity >= 0 ==> r >= 0.0
  {
    price * (quantity as real)
  }

  /** The sum of price times quantity over the order lines; lines whose item is not
      on the menu add nothing. */
  function Subtotal(items: seq<OrderItem>, menuItems: seq<MenuItem>): (r: real)
    ensures (forall it :: it in items ==> FindMenuItem(menuItems, it.itemId).None?) ==> r == 0.0
  {
    if items == [] then 0.0
    else LineTotal(PriceOf(menuItems, items[0].itemId), items[0].quantity) + Subtotal(items[1..], menuItems)
  }

  /** The subtotal of a concatenation of lines is the sum of the parts' subtotals:
      a merged order is billed as its earlier lines plus its new ones. */
  lemma {:induction false} SubtotalConcat(a: seq<OrderItem>, b: seq<OrderItem>, menuItems: seq<MenuItem>)
    ensures Subtotal(a + b, menuItems) == Subtotal(a, menuItems) + Subtotal(b, menuItems)
  {
    if a == [] {
      assert a + b == b;
    } else {
      assert (a + b)[0] == a[0];
      assert (a + b)[1..] == a[1..] + b;
      SubtotalConcat(a[1..], b, menuItems);
    }
  }

  /** With catalog prices and quantities that are not negative, neither is the subtotal. */
  lemma {:induction false} SubtotalNonNegative(items: seq<OrderItem>, menuItems: seq<MenuItem>)
    requires forall m :: m in menuItems ==> m.price >= 0.0
    requires forall it :: it in items ==> it.quantity >= 0
    ensures Subtotal(items, menuItems) >= 0.0
  {
    if items != [] {
      assert items[0] in items;
      assert forall it :: it in items[1..] ==> it in items;
      SubtotalNonNegative(items[1..], menuItems);
      PriceNonNegative(menuItems, items[0].itemId);
    }
  }

  lemma PriceNonNegative(menuItems: seq<MenuItem>, itemId: string)
    requires forall m :: m in menuItems ==> m.price >= 0.0
    ensures PriceOf(menuItems, itemId) >= 0.0
  {
  }

  /** `calculateBill`: with no active order everything is zero; otherwise the subtotal
      is the sum of price times quantity over the active order's lines, the tax is a
      tenth of it and the total adds the two. */
  function CalculateBill(activeOrder: Option<Order>, menuItems: seq<MenuItem>): (b: Bill)
    ensures activeOrder.None? ==> b == Bill(0.0, 0.0, 0.0)
    ensures activeOrder.Some? ==> b.subtotal == Subtotal(activeOrder.value.items, menuItems)
    ensures b.tax == b.subtotal / 10.0
    ensures b.total == b.subtotal + b.tax
  {
    match activeOrder
    case None => Bill(0.0, 0.0, 0.0)
    case Some(o) =>
      var subtotal := Subtotal(o.items, menuItems);
      var tax := subtotal * 0.1;
      Bill(subtotal, tax, subtotal + tax)
  }

  /** Two portions at 120 and one at 80 make a subtotal of 320, a tax of 32 and a
      total of 352. */
  lemma BillExample()
    ensures
      var starter := MenuItem("1", "1", None, "Spring Rolls", "", 120.0, None, true, false, None, 0, "", None, None);
      var dessert := MenuItem("5", "3", None, "Gulab Jamun", "", 80.0, None, true, false, None, 0, "", None, None);
      var lines := [OrderItem("a", "", "1", 2, Pending, [], ""), OrderItem("b", "", "5", 1, Pending, [], "")];
      var order := Order("o", "1", "w", "Alice", OrderPending, None, lines, "");
      CalculateBill(Some(order), [starter, dessert]) == Bill(320.0, 32.0, 352.0)
  {
    var starter := MenuItem("1", "1", None, "Spring Rolls", "", 120.0, None, true, false, None, 0, "", None, None);
    var dessert := MenuItem("5", "3", None, "Gulab Jamun", "", 80.0, None, true, false, None, 0, "", None, None);
    var menu := [starter, dessert];
    var lines := [OrderItem("a", "", "1", 2, Pending, [], ""), OrderItem("b", "", "5", 1, Pending, [], "")];
    assert FindMenuItem(menu, "1") == Some(starter);
    assert menu[0].id[0] != "5"[0];
    assert forall j :: 0 <= j < 1 ==> menu[j].id != "5";
    assert menu[1] == dessert && menu[1].id == "5";
    assert FindMenuItem(menu, "5") == Some(dessert);
    assert lines[1..][1..] == [];
    assert Subtotal(lines[1..][1..], menu) == 0.0;
    assert Subtotal(lines[1..], menu) == 80.0;
    assert Subtotal(lines, menu) == 320.0;
  }

  // ---------------------------------------------------------------------------
  // Item cancellation

  /** `orders.find(o => o.id === orderId)?.items.find(i => i.id === itemId)`: the
      first line with the item id in the first order with the order id; none when no
      order has that id or that order has no such line. */
  function FindOrderItem(orders: seq<Order>, orderId: string, itemId: string): (r: Option<OrderItem>)
    ensures (forall i :: 0 <= i < |orders| ==> orders[i].id != orderId) ==> r.None?
    ensures forall i :: IsFirst(orders, (o: Order) => o.id == orderId, i) ==>
      && (r.None? <==> forall k :: 0 <= k < |orders[i].items| ==> orders[i].items[k].id != itemId)
      && forall k :: IsFirst(orders[i].items, (it: OrderItem) => it.id == itemId, k) ==> r == Some(orders[i].items[k])
    ensures r.Some? ==> exists i, k ::
      0 <= i < |orders| && orders[i].id == orderId && 0 <= k < |orders[i].items| && orders[i].items[k] == r.value
    ensures r.Some? ==> r.value.id == itemId
  {
    match Find(orders, (o: Order) => o.id == orderId)
    case None => None
    case Some(o) => Find(o.items, (it: OrderItem) => it.id == itemId)
  }

  /** Distinct order ids, and distinct line ids inside each order. */
  predicate UniqueIds(orders: seq<Order>) {
    && (forall i, j :: 0 <= i < j < |orders| ==> orders[i].id != orders[j].id)
    && (forall i :: 0 <= i < |orders| ==> LineIdsDistinct(orders[i].items))
  }

  /** What `cancelItem` writes when it accepts: with distinct order ids and distinct
      line ids inside each order, writing `pending` back onto the pending line it
      found leaves every order exactly as it was. Cancelling never changes anything. */
  lemma CancelWritesNothingNew(orders: seq<Order>, orderId: string, itemId: string)
    requires UniqueIds(orders)
    requires FindOrderItem(orders, orderId, itemId).Some?
    requires FindOrderItem(orders, orderId, itemId).value.status == Pending
    ensures SetItemStatus(orders, orderId, {itemId}, Pending) == orders
  {
    WriteBackIsIdentity(orders, orderId, itemId, Pending);
  }

  /** Serving from the screen: the serve button is shown only for a `ready`
      line, and serving writes `ready` again, so with unique order ids and
      line ids inside each order it leaves every order exactly as it was. */
  lemma ServeWritesNothingNew(orders: seq<Order>, orderId: string, itemId: string)
    requires UniqueIds(orders)
    requires FindOrderItem(orders, orderId, itemId).Some?
    requires FindOrderItem(orders, orderId, itemId).value.status == Ready
    ensures SetItemStatus(orders, orderId, {itemId}, Ready) == orders
  {
    WriteBackIsIdentity(orders, orderId, itemId, Ready);
  }

  /** With unique ids, the line `FindOrderItem` reaches is the only line the
      write touches, so writing back its own status changes nothing. */
  lemma WriteBackIsIdentity(orders: seq<Order>, orderId: string, itemId: string, status: ItemStatus)
    requires UniqueIds(orders)
    requires FindOrderItem(orders, orderId, itemId).Some?
    requires FindOrderItem(orders, orderId, itemId).value.status == status
    ensures SetItemStatus(orders, orderId, {itemId}, status) == orders
  {
    var found := FindOrderItem(orders, orderId, itemId).value;
    var i0, k0 :| 0 <= i0 < |orders| && orders[i0].id == orderId && 0 <= k0 < |orders[i0].items|
      && orders[i0].items[k0] == found;
    forall i, k | 0 <= i < |orders| && orders[i].id == orderId && 0 <= k < |orders[i].items|
      && orders[i].items[k].id in {itemId}
      ensures orders[i].items[k].status == status
    {
      assert i == i0;
      assert k == k0;
    }
    SetItemStatusAlreadyThere(orders, orderId, {itemId}, status);
  }

  // ---------------------------------------------------------------------------
  // The screen's state

  /** The waiter's session: the selected table, the customer fields, the cart and
      the menu filter, over the shared store. */
  class WaiterSession {
    const store: DataProvider
    var selectedTable: Option<Table>
    var customerName: string
    var customerPhone: string
    var orderCart: seq<CartEntry>
    var selectedCategory: string
    var searchQuery: string

    ghost predicate Valid()
      reads this
    {
      CartValid(orderCart)
    }

    constructor (store: DataProvider)
      ensures this.store == store && Valid()
      ensures selectedTable.None? && customerName == "" && customerPhone == ""
      ensures orderCart == [] && selectedCategory == "all" && searchQuery == ""
    {
      this.store := store;
      selectedTable := None;
      customerName := "";
      customerPhone := "";
      orderCart := [];
      selectedCategory := "all";
      searchQuery := "";
    }

    function SelectedTableId(): Option<string>
      reads this
    {
      match selectedTable
      case Some(t) => Some(t.id)
      case None => None
    }

    /** Clicking a table card: any table becomes the selected one, and the
        assign dialog opens only for an available table. */
    method SelectTable(t: Table) returns (openAssign: bool)
      modifies this`selectedTable
      ensures selectedTable == Some(t)
      ensures openAssign <==> t.status == Available
    {
      selectedTable := Some(t);
      openAssign := t.status == Available;
    }

    /** `handleAssignTable`: without a selected table or a customer name nothing
        changes; otherwise only the selected table becomes occupied. */
    method HandleAssignTable() returns (done: bool)
      modifies store`tables
      ensures done == (selectedTable.Some? && customerName != "")
      ensures done ==> store.tables == WithTableStatus(old(store.tables), selectedTable.value.id, Occupied)
      ensures !done ==> store.tables == old(store.tables)
    {
      if selectedTable.None? || customerName == "" {
        return false;
      }
      store.UpdateTableStatus(selectedTable.value.id, Occupied);
      return true;
    }

    method AddToCart(item: MenuItem)
      requires Valid()
      modifies this`orderCart
      ensures Valid() && orderCart == CartAdd(old(orderCart), item)
    {
      CartAddValid(orderCart, item);
      orderCart := CartAdd(orderCart, item);
    }

    method UpdateQuantity(itemId: string, delta: int)
      requires Valid()
      modifies this`orderCart
      ensures Valid() && orderCart == CartUpdateQuantity(old(orderCart), itemId, delta)
    {
      orderCart := CartUpdateQuantity(orderCart, itemId, delta);
    }

    method UpdateCustomization(itemId: string, customization: string)
      requires Valid()
      modifies this`orderCart
      ensures Valid() && orderCart == CartSetCustomization(old(orderCart), itemId, customization)
    {
      orderCart := CartSetCustomization(orderCart, itemId, customization);
    }

    /** `submitOrder`: with no selected table or an empty cart nothing changes.
        Otherwise one `pending` order is appended for the table, the cart is emptied,
        and the new order's lines are the cart's lines, placed after the active
        order's lines when the table already has an active order: the earlier order
        stays in the list, so the table then has two orders holding those lines.
        `user.id` is `waiterId`; `orderId` and `itemIds` are the fresh ids,
        `itemCreatedAts` the clock readings taken for each line and `createdAt` the
        one the store takes for the order. */
    method SubmitOrder(waiterId: string, orderId: string, itemIds: seq<string>, itemCreatedAts: seq<string>,
                       createdAt: string)
      returns (submitted: bool)
      requires |itemIds| == |orderCart| && |itemCreatedAts| == |orderCart|
      modifies store`orders, this`orderCart
      ensures submitted == (selectedTable.Some? && old(orderCart) != [])
      ensures !submitted ==> store.orders == old(store.orders) && orderCart == old(orderCart)
      ensures submitted ==>
        var tableId := selectedTable.value.id;
        var active := ActiveOrder(old(store.orders), Some(tableId));
        var added := CartToOrderItems(old(orderCart), itemIds, itemCreatedAts);
        var lines := if active.Some? then active.value.items + added else added;
        && orderCart == []
        && store.orders == old(store.orders) + [Order(orderId, tableId, waiterId, customerName, OrderPending, Some(""), lines, createdAt)]
    {
      if selectedTable.None? || |orderCart| == 0 {
        return false;
      }
      var tableId := selectedTable.value.id;
      var added := CartToOrderItems(orderCart, itemIds, itemCreatedAts);
      var active := ActiveOrder(store.orders, Some(tableId));
      var lines := if active.Some? then active.value.items + added else added;
      store.AddOrder(Order("", tableId, waiterId, customerName, OrderPending, Some(""), lines, ""), orderId, createdAt);
      orderCart := [];
      return true;
    }

    /** `markItemServed`: the line is set to `ready` (there is no served line status).
        The screen offers it only for a `ready` line (see ServeWritesNothingNew). */
    method MarkItemServed(orderId: string, itemId: string)
      modifies store`orders
      ensures store.orders == SetItemStatus(old(store.orders), orderId, {itemId}, Ready)
    {
      store.UpdateOrderItemStatus(orderId, itemId, Ready);
    }

    /** `cancelItem`: refused unless the line found is `pending`; when accepted it
        writes `pending` again, so the line keeps its status (see CancelWritesNothingNew). */
    method CancelItem(orderId: string, itemId: string) returns (accepted: bool)
      modifies store`orders
      ensures accepted == (FindOrderItem(old(store.orders), orderId, itemId).Some?
                           && FindOrderItem(old(store.orders), orderId, itemId).value.status == Pending)
      ensures !accepted ==> store.orders == old(store.orders)
      ensures accepted ==> store.orders == SetItemStatus(old(store.orders), orderId, {itemId}, Pending)
    {
      var item := FindOrderItem(store.orders, orderId, itemId);
      if item.None? || item.value.status != Pending {
        return false;
      }
      store.UpdateOrderItemStatus(orderId, itemId, Pending);
      return true;
    }

    /** The bill of the selected table's active order: zero with no table or no
        active order, otherwise that order's subtotal with a tenth added as tax. */
    function CurrentBill(): (b: Bill)
      reads this, store
      ensures ActiveOrder(store.orders, SelectedTableId()).None? ==> b == Bill(0.0, 0.0, 0.0)
      ensures selectedTable.None? ==> b == Bill(0.0, 0.0, 0.0)
      ensures ActiveOrder(store.orders, SelectedTableId()).Some? ==>
        b.subtotal == Subtotal(ActiveOrder(store.orders, SelectedTableId()).value.items, store.menuItems)
      ensures b.tax == b.subtotal / 10.0 && b.total == b.subtotal + b.tax
    {
      CalculateBill(ActiveOrder(store.orders, SelectedTableId()), store.menuItems)
    }

    /** `closeBill`: with no selected table nothing happens; otherwise only that table
        is set to `cleaning` and the selection and customer fields are cleared. The
        orders are not touched, so the table's active order stays active. */
    method CloseBill() returns (closed: bool)
      modifies store`tables, this`selectedTable, this`customerName, this`customerPhone
      ensures closed == old(selectedTable).Some?
      ensures closed ==> store.tables == WithTableStatus(old(store.tables), old(selectedTable).value.id, Cleaning)
      ensures closed ==> selectedTable.None? && customerName == "" && customerPhone == ""
      ensures !closed ==> store.tables == old(store.tables) && selectedTable == old(selectedTable)
      ensures !closed ==> customerName == old(customerName) && customerPhone == old(customerPhone)
    {
      if selectedTable.None? {
        return false;
      }
      store.UpdateTableStatus(selectedTable.value.id, Cleaning);
      selectedTable := None;
      customerName := "";
      customerPhone := "";
      return true;
    }
  }
}
