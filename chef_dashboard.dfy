/** The kitchen screen: the order lists of its tabs, the lines a card shows, and the
    accept and ready actions on order lines. */
module ChefDashboard {
  import opened Seqs
  import opened Types
  import opened DataContext

  /** The screen's tabs: `'pending'`, `'cooking'`, `'ready'` and `'all'`. */
  datatype Tab = PendingTab | CookingTab | ReadyTab | AllTab

  /** `o.items.some(i => i.status === status)` */
  predicate HasLineWith(o: Order, status: ItemStatus) {
    exists k :: 0 <= k < |o.items| && o.items[k].status == status
  }

  /** `pendingOrders`: the orders whose own status is pending and that still have a
      pending line, in list order. */
  function PendingOrders(orders: seq<Order>): (r: seq<Order>)
    ensures forall o :: o in r <==> o in orders && o.status == OrderPending && HasLineWith(o, Pending)
    ensures |r| <= |orders|
  {
    Filter(orders, (o: Order) => o.status == OrderPending && HasLineWith(o, Pending))
  }

  /** `acceptedOrders`: the orders with a line being cooked, whatever the order's status. */
  function AcceptedOrders(orders: seq<Order>): (r: seq<Order>)
    ensures forall o :: o in r <==> o in orders && HasLineWith(o, InProgress)
    ensures |r| <= |orders|
  {
    Filter(orders, (o: Order) => HasLineWith(o, InProgress))
  }

  /** `readyOrders`: the orders with a ready line, whatever the order's status. */
  function ReadyOrders(orders: seq<Order>): (r: seq<Order>)
    ensures forall o :: o in r <==> o in orders && HasLineWith(o, Ready)
    ensures |r| <= |orders|
  {
    Filter(orders, (o: Order) => HasLineWith(o, Ready))
  }

  /** The `'all'` tab: the orders neither served nor cancelled. */
  function OpenOrders(orders: seq<Order>): (r: seq<Order>)
    ensures forall o :: o in r <==> o in orders && o.status != Served && o.status != Cancelled
    ensures |r| <= |orders|
  {
    Filter(orders, (o: Order) => o.status != Served && o.status != Cancelled)
  }

  /** The orders listed under a tab. */
  function OrdersOnTab(orders: seq<Order>, tab: Tab): (r: seq<Order>)
    ensures |r| <= |orders|
    ensures tab == PendingTab ==> forall o :: o in r <==> o in orders && o.status == OrderPending && HasLineWith(o, Pending)
    ensures tab == CookingTab ==> forall o :: o in r <==> o in orders && HasLineWith(o, InProgress)
    ensures tab == ReadyTab ==> forall o :: o in r <==> o in orders && HasLineWith(o, Ready)
    ensures tab == AllTab ==> forall o :: o in r <==> o in orders && o.status != Served && o.status != Cancelled
  {
    match tab
    case PendingTab => PendingOrders(orders)
    case CookingTab => AcceptedOrders(orders)
    case ReadyTab => ReadyOrders(orders)
    case AllTab => OpenOrders(orders)
  }

  /** An order whose lines are all pending is listed under the pending tab only while
      its own status is pending, and under neither the cooking nor the ready tab. */
  lemma FreshOrderListedOnlyAsPending(orders: seq<Order>, o: Order)
    requires o in orders && o.items != []
    requires forall k :: 0 <= k < |o.items| ==> o.items[k].status == Pending
    ensures o in OrdersOnTab(orders, PendingTab) <==> o.status == OrderPending
    ensures o !in OrdersOnTab(orders, CookingTab) && o !in OrdersOnTab(orders, ReadyTab)
  {
    assert o.items[0].status == Pending;
    assert HasLineWith(o, Pending);
    assert !HasLineWith(o, InProgress) && !HasLineWith(o, Ready);
  }

  /** `order.items.filter(i => i.status === 'pending')` */
  function PendingLines(items: seq<OrderItem>): (r: seq<OrderItem>)
    ensures forall it :: it in r <==> it in items && it.status == Pending
    ensures r == [] <==> forall k :: 0 <= k < |items| ==> items[k].status != Pending
    ensures |r| <= |items|
  {
    Filter(items, (it: OrderItem) => it.status == Pending)
  }

  /** The lines an order card shows: those of the tab's status, every line on `'all'`. */
  function TabLines(items: seq<OrderItem>, tab: Tab): (r: seq<OrderItem>)
    ensures tab == PendingTab ==> forall it :: it in r <==> it in items && it.status == Pending
    ensures tab == CookingTab ==> forall it :: it in r <==> it in items && it.status == InProgress
    ensures tab == ReadyTab ==> forall it :: it in r <==> it in items && it.status == Ready
    ensures tab == AllTab ==> r == items
  {
    var shown := (it: OrderItem) =>
      match tab
      case PendingTab => it.status == Pending
      case CookingTab => it.status == InProgress
      case ReadyTab => it.status == Ready
      case AllTab => true;
    if tab == AllTab then
      FilterKeepsAll(items, shown);
      Filter(items, shown)
    else
      Filter(items, shown)
  }

  /** The ids of a list of lines. */
  function IdsOf(items: seq<OrderItem>): (r: set<string>)
    ensures forall it :: it in items ==> it.id in r
    ensures forall id :: id in r ==> exists k :: 0 <= k < |items| && items[k].id == id
  {
    set k | 0 <= k < |items| :: items[k].id
  }

  /** What `acceptAllItems(order)` asks the store for, as one rewrite: every line of
      that order whose id is one of its pending lines' ids goes to `in_progress`. */
  function AcceptAll(orders: seq<Order>, order: Order): (r: seq<Order>)
    ensures |r| == |orders|
    ensures forall i :: 0 <= i < |orders| && orders[i].id != order.id ==> r[i] == orders[i]
    ensures forall i :: 0 <= i < |orders| && orders[i].id == order.id ==>
      && |r[i].items| == |orders[i].items|
      && r[i] == orders[i].(items := r[i].items)
      && forall k :: 0 <= k < |orders[i].items| ==>
           r[i].items[k] == if exists j :: 0 <= j < |order.items| && order.items[j].status == Pending
                                           && order.items[j].id == orders[i].items[k].id
                            then orders[i].items[k].(status := InProgress) else orders[i].items[k]
  {
    AcceptedIdsArePending(order.items);
    SetItemStatus(orders, order.id, IdsOf(PendingLines(order.items)), InProgress)
  }

  /** The ids accepted by "Accept All" are exactly the ids of the card's pending lines. */
  lemma AcceptedIdsArePending(items: seq<OrderItem>)
    ensures forall id :: id in IdsOf(PendingLines(items)) <==>
      exists j :: 0 <= j < |items| && items[j].status == Pending && items[j].id == id
  {
    var pending := PendingLines(items);
    forall id | id in IdsOf(pending)
      ensures exists j :: 0 <= j < |items| && items[j].status == Pending && items[j].id == id
    {
      var k :| 0 <= k < |pending| && pending[k].id == id;
      assert pending[k] in items;
      var j :| 0 <= j < |items| && items[j] == pending[k];
    }
    forall j | 0 <= j < |items| && items[j].status == Pending
      ensures items[j].id in IdsOf(pending)
    {
      assert items[j] in pending;
    }
  }

  /** Accepting everything on the card of a stored order leaves that order with no
      pending line: each line that was pending is now in progress, and the order
      drops out of the pending tab. */
  lemma AcceptAllClearsPending(orders: seq<Order>, order: Order, i: int)
    requires 0 <= i < |orders| && orders[i] == order
    ensures |AcceptAll(orders, order)[i].items| == |order.items|
    ensures forall k :: 0 <= k < |order.items| && order.items[k].status == Pending ==>
      AcceptAll(orders, order)[i].items[k].status == InProgress
    ensures !HasLineWith(AcceptAll(orders, order)[i], Pending)
    ensures PendingLines(AcceptAll(orders, order)[i].items) == []
    ensures AcceptAll(orders, order)[i] !in PendingOrders(AcceptAll(orders, order))
  {
    var ids := IdsOf(PendingLines(order.items));
    var after := AcceptAll(orders, order)[i];
    assert after.items == ItemsWithStatus(order.items, ids, InProgress);
    forall k | 0 <= k < |order.items|
      ensures after.items[k].status != Pending
      ensures order.items[k].status == Pending ==> after.items[k].status == InProgress
    {
      if order.items[k].status == Pending {
        assert order.items[k] in PendingLines(order.items);
      }
    }
  }

  /** When the order's line ids are distinct, the lines that were not pending keep
      their status and everything else about every line is kept: only the status of
      the pending lines changes. */
  lemma AcceptAllKeepsOtherLines(orders: seq<Order>, order: Order, i: int)
    requires 0 <= i < |orders| && orders[i] == order
    requires LineIdsDistinct(order.items)
    ensures forall k :: 0 <= k < |order.items| && order.items[k].status != Pending ==>
      AcceptAll(orders, order)[i].items[k] == order.items[k]
    ensures forall k :: 0 <= k < |order.items| ==>
      AcceptAll(orders, order)[i].items[k] == order.items[k].(status := AcceptAll(orders, order)[i].items[k].status)
    ensures forall j :: 0 <= j < |orders| && orders[j].id != order.id ==> AcceptAll(orders, order)[j] == orders[j]
  {
    var ids := IdsOf(PendingLines(order.items));
    var after := AcceptAll(orders, order)[i];
    assert after.items == ItemsWithStatus(order.items, ids, InProgress);
    forall k | 0 <= k < |order.items| && order.items[k].status != Pending
      ensures order.items[k].id !in ids
    {
      NotPendingNotAccepted(order.items, k);
    }
  }

  /** With distinct line ids, a line that is not pending shares its id with no
      pending line. */
  lemma NotPendingNotAccepted(items: seq<OrderItem>, k: int)
    requires LineIdsDistinct(items)
    requires 0 <= k < |items| && items[k].status != Pending
    ensures items[k].id !in IdsOf(PendingLines(items))
  {
    var pending := PendingLines(items);
    forall j | 0 <= j < |pending| ensures pending[j].id != items[k].id {
      assert pending[j] in items;
      var m :| 0 <= m < |items| && items[m] == pending[j];
      assert m != k;
    }
  }

  /** A second "Accept All" on the refreshed card changes nothing: there is no
      pending line left to accept. */
  lemma AcceptAllTwiceIsOnce(orders: seq<Order>, order: Order, i: int)
    requires 0 <= i < |orders| && orders[i] == order
    ensures AcceptAll(AcceptAll(orders, order), AcceptAll(orders, order)[i]) == AcceptAll(orders, order)
  {
    AcceptAllClearsPending(orders, order, i);
    var after := AcceptAll(orders, order);
    assert IdsOf(PendingLines(after[i].items)) == {};
    SetItemStatusNone(after, after[i].id, InProgress);
  }

  /** One more accepted line extends the set of accepted ids by that line's id. */
  lemma AcceptOneMore(orders: seq<Order>, orderId: string, lines: seq<OrderItem>, i: int)
    requires 0 <= i < |lines|
    ensures SetItemStatus(SetItemStatus(orders, orderId, IdsOf(lines[..i]), InProgress), orderId, {lines[i].id}, InProgress)
         == SetItemStatus(orders, orderId, IdsOf(lines[..i + 1]), InProgress)
  {
    SetItemStatusCompose(orders, orderId, IdsOf(lines[..i]), {lines[i].id}, InProgress);
    assert lines[..i + 1] == lines[..i] + [lines[i]];
    assert IdsOf(lines[..i + 1]) == IdsOf(lines[..i]) + {lines[i].id};
  }

  /** The kitchen's session over the shared store. */
  class ChefSession {
    const store: DataProvider
    var selectedTab: Tab

    constructor (store: DataProvider)
      ensures this.store == store && selectedTab == PendingTab
    {
      this.store := store;
      selectedTab := PendingTab;
    }

    /** `acceptOrder`: the line goes to `in_progress`. */
    method AcceptOrder(orderId: string, itemId: string)
      modifies store`orders
      ensures store.orders == SetItemStatus(old(store.orders), orderId, {itemId}, InProgress)
    {
      store.UpdateOrderItemStatus(orderId, itemId, InProgress);
    }

    /** `markReadyToCook` only shows a notification: no state changes. */
    method MarkReadyToCook(orderId: string, itemId: string)
      ensures store.orders == old(store.orders)
    {
    }

    /** `markCooking` only shows a notification: no state changes. */
    method MarkCooking(orderId: string, itemId: string)
      ensures store.orders == old(store.orders)
    {
    }

    /** `markReady`: the line goes to `ready`. */
    method MarkReady(orderId: string, itemId: string)
      modifies store`orders
      ensures store.orders == SetItemStatus(old(store.orders), orderId, {itemId}, Ready)
    {
      store.UpdateOrderItemStatus(orderId, itemId, Ready);
    }

    /** `acceptAllItems`: one store update per pending line of the card's order, in
        order. Each update is applied to the result of the previous one, which is
        what the calls are meant to do; React's state setter, called with a list
        computed from the same render, would keep only the last of them. */
    method AcceptAllItems(order: Order)
      modifies store`orders
      ensures store.orders == AcceptAll(old(store.orders), order)
    {
      var pending := PendingLines(order.items);
      SetItemStatusNone(store.orders, order.id, InProgress);
      assert IdsOf(pending[..0]) == {};
      var i := 0;
      while i < |pending|
        invariant 0 <= i <= |pending|
        invariant store.orders == SetItemStatus(old(store.orders), order.id, IdsOf(pending[..i]), InProgress)
      {
        store.UpdateOrderItemStatus(order.id, pending[i].id, InProgress);
        AcceptOneMore(old(store.orders), order.id, pending, i);
        i := i + 1;
      }
      assert pending[..i] == pending;
    }
  }
}
