/** The shared in-memory store of the application (`DataProvider`): the lists of
    categories, subcategories, menu items, tables, orders and ratings, and the
    operations that replace one of those lists by a rewritten copy.

    Every rewrite is specified by a function of the old list; the functions state
    that only the records with the given id change, and only in the named field. */
module DataContext {
  import opened Wrappers
  import opened Seqs
  import opened Types

  // ---------------------------------------------------------------------------
  // Orders

  /** `updateOrderStatus`: the orders with id `orderId` take the new status; every
      other order, and every other field, is untouched. Any status is accepted. */
  function WithOrderStatus(orders: seq<Order>, orderId: string, status: OrderStatus): (r: seq<Order>)
    ensures |r| == |orders|
    ensures forall i :: 0 <= i < |r| && orders[i].id != orderId ==> r[i] == orders[i]
    ensures forall i :: 0 <= i < |r| && orders[i].id == orderId ==> r[i] == orders[i].(status := status)
  {
    MapIf(orders, (o: Order) => o.id == orderId, (o: Order) => o.(status := status))
  }

  /** Two status writes to the same orders: the second one wins, and nothing of the
      first remains. */
  lemma WithOrderStatusLastWins(orders: seq<Order>, orderId: string, first: OrderStatus, second: OrderStatus)
    ensures WithOrderStatus(WithOrderStatus(orders, orderId, first), orderId, second)
         == WithOrderStatus(orders, orderId, second)
  {
    var once := WithOrderStatus(orders, orderId, first);
    assert forall i :: 0 <= i < |orders| ==> once[i].id == orders[i].id;
  }

  /** The lines whose id is in `itemIds` take the new status; the others are untouched. */
  function ItemsWithStatus(items: seq<OrderItem>, itemIds: set<string>, status: ItemStatus): (r: seq<OrderItem>)
    ensures |r| == |items|
    ensures forall k :: 0 <= k < |r| && items[k].id !in itemIds ==> r[k] == items[k]
    ensures forall k :: 0 <= k < |r| && items[k].id in itemIds ==> r[k] == items[k].(status := status)
  {
    MapIf(items, (it: OrderItem) => it.id in itemIds, (it: OrderItem) => it.(status := status))
  }

  /** `updateOrderItemStatus`, generalised to a set of line ids (the single-line call
      passes `{itemId}`): inside the orders with id `orderId`, the lines with those
      ids take the new status. Other orders, other lines, the order of lines and
      their number are untouched. No transition is refused: backward moves such as
      `ready` to `pending` are applied like any other. */
  function SetItemStatus(orders: seq<Order>, orderId: string, itemIds: set<string>, status: ItemStatus): (r: seq<Order>)
    ensures |r| == |orders|
    ensures forall i :: 0 <= i < |r| && orders[i].id != orderId ==> r[i] == orders[i]
    ensures forall i :: 0 <= i < |r| && orders[i].id == orderId ==>
      r[i] == orders[i].(items := ItemsWithStatus(orders[i].items, itemIds, status))
  {
    MapIf(orders, (o: Order) => o.id == orderId,
      (o: Order) => o.(items := ItemsWithStatus(o.items, itemIds, status)))
  }

  /** Rewriting no line at all leaves the orders as they were. */
  lemma SetItemStatusNone(orders: seq<Order>, orderId: string, status: ItemStatus)
    ensures SetItemStatus(orders, orderId, {}, status) == orders
  {
    var r := SetItemStatus(orders, orderId, {}, status);
    forall i | 0 <= i < |orders| && orders[i].id == orderId
      ensures r[i] == orders[i]
    {
      assert ItemsWithStatus(orders[i].items, {}, status) == orders[i].items;
    }
  }

  /** Two rewrites to the same status compose into one over the union of the ids:
      the sequential calls of "accept all" add up to a single set update. */
  lemma SetItemStatusCompose(orders: seq<Order>, orderId: string, a: set<string>, b: set<string>, status: ItemStatus)
    ensures SetItemStatus(SetItemStatus(orders, orderId, a, status), orderId, b, status)
         == SetItemStatus(orders, orderId, a + b, status)
  {
    var once := SetItemStatus(orders, orderId, a, status);
    var twice := SetItemStatus(once, orderId, b, status);
    var union := SetItemStatus(orders, orderId, a + b, status);
    forall i | 0 <= i < |orders| && orders[i].id == orderId
      ensures twice[i] == union[i]
    {
      var items := orders[i].items;
      assert ItemsWithStatus(ItemsWithStatus(items, a, status), b, status) == ItemsWithStatus(items, a + b, status);
    }
  }

  /** A rewrite whose every target line already has the target status changes nothing. */
  lemma SetItemStatusAlreadyThere(orders: seq<Order>, orderId: string, itemIds: set<string>, status: ItemStatus)
    requires forall i, k ::
      (0 <= i < |orders| && orders[i].id == orderId && 0 <= k < |orders[i].items| && orders[i].items[k].id in itemIds)
      ==> orders[i].items[k].status == status
    ensures SetItemStatus(orders, orderId, itemIds, status) == orders
  {
    var r := SetItemStatus(orders, orderId, itemIds, status);
    forall i | 0 <= i < |orders| && orders[i].id == orderId
      ensures r[i] == orders[i]
    {
      assert ItemsWithStatus(orders[i].items, itemIds, status) == orders[i].items;
    }
  }

  // ---------------------------------------------------------------------------
  // Tables

  /** `updateTableStatus`: only the tables with id `tableId` change, and only their
      status; any status is accepted, whatever the current one. */
  function WithTableStatus(tables: seq<Table>, tableId: string, status: TableStatus): (r: seq<Table>)
    ensures |r| == |tables|
    ensures forall i :: 0 <= i < |r| && tables[i].id != tableId ==> r[i] == tables[i]
    ensures forall i :: 0 <= i < |r| && tables[i].id == tableId ==> r[i] == tables[i].(status := status)
  {
    MapIf(tables, (t: Table) => t.id == tableId, (t: Table) => t.(status := status))
  }

  /** Two status writes to the same table: the second one wins. */
  lemma WithTableStatusLastWins(tables: seq<Table>, tableId: string, first: TableStatus, second: TableStatus)
    ensures WithTableStatus(WithTableStatus(tables, tableId, first), tableId, second)
         == WithTableStatus(tables, tableId, second)
  {
    var once := WithTableStatus(tables, tableId, first);
    assert forall i :: 0 <= i < |tables| ==> once[i].id == tables[i].id;
  }

  // ---------------------------------------------------------------------------
  // Lookups

  /** `getMenuItemById`: the first menu item with the id, or none if no item has it. */
  function FindMenuItem(menuItems: seq<MenuItem>, id: string): (r: Option<MenuItem>)
    ensures r.None? <==> forall i :: 0 <= i < |menuItems| ==> menuItems[i].id != id
    ensures forall i ::
      (0 <= i < |menuItems| && menuItems[i].id == id && forall j :: 0 <= j < i ==> menuItems[j].id != id)
      ==> r == Some(menuItems[i])
    ensures r.Some? ==> r.value in menuItems && r.value.id == id
  {
    var p := (m: MenuItem) => m.id == id;
    assert forall i ::
      (0 <= i < |menuItems| && menuItems[i].id == id && forall j :: 0 <= j < i ==> menuItems[j].id != id)
      ==> IsFirst(menuItems, p, i);
    Find(menuItems, p)
  }

  /** `getTableById`: the first table with the id, or none if no table has it. */
  function FindTable(tables: seq<Table>, id: string): (r: Option<Table>)
    ensures r.None? <==> forall i :: 0 <= i < |tables| ==> tables[i].id != id
    ensures forall i ::
      (0 <= i < |tables| && tables[i].id == id && forall j :: 0 <= j < i ==> tables[j].id != id)
      ==> r == Some(tables[i])
  {
    var p := (t: Table) => t.id == id;
    assert forall i ::
      (0 <= i < |tables| && tables[i].id == id && forall j :: 0 <= j < i ==> tables[j].id != id)
      ==> IsFirst(tables, p, i);
    Find(tables, p)
  }

  // ---------------------------------------------------------------------------
  // Ratings

  /** `ratings.filter(r => r.itemId === itemId)` */
  function RatingsFor(ratings: seq<ItemRating>, itemId: string): (r: seq<ItemRating>)
    ensures forall x :: x in r <==> x in ratings && x.itemId == itemId
  {
    Filter(ratings, (x: ItemRating) => x.itemId == itemId)
  }

  function RatingSum(rs: seq<ItemRating>): real {
    if rs == [] then 0.0 else rs[0].rating + RatingSum(rs[1..])
  }

  /** The mean of a non-empty list of ratings. */
  function Mean(rs: seq<ItemRating>): real
    requires rs != []
  {
    RatingSum(rs) / (|rs| as real)
  }

  /** `updateMenuItemRatings(itemId)` over the ratings list it reads: with no rating for
      the item the menu is returned as it was; otherwise the items with that id take
      the mean and the count of those ratings, and no other item changes. */
  function Rerated(menuItems: seq<MenuItem>, ratingsRead: seq<ItemRating>, itemId: string): (r: seq<MenuItem>)
    ensures RatingsFor(ratingsRead, itemId) == [] ==> r == menuItems
    ensures |r| == |menuItems|
    ensures forall i :: 0 <= i < |r| && menuItems[i].id != itemId ==> r[i] == menuItems[i]
    ensures forall i :: 0 <= i < |r| && menuItems[i].id == itemId && RatingsFor(ratingsRead, itemId) != [] ==>
      r[i] == menuItems[i].(averageRating := Some(Mean(RatingsFor(ratingsRead, itemId))),
                            totalRatings := Some(|RatingsFor(ratingsRead, itemId)|))
  {
    var rs := RatingsFor(ratingsRead, itemId);
    if |rs| > 0 then
      MapIf(menuItems, (m: MenuItem) => m.id == itemId,
        (m: MenuItem) => m.(averageRating := Some(Mean(rs)), totalRatings := Some(|rs|)))
    else
      menuItems
  }

  /** A sum of ratings that all lie on the 1-to-5 scale lies between the count and
      five times the count. */
  lemma {:induction false} RatingSumOnScale(rs: seq<ItemRating>)
    requires forall x :: x in rs ==> 1.0 <= x.rating <= 5.0
    ensures |rs| as real <= RatingSum(rs) <= 5.0 * (|rs| as real)
  {
    if rs != [] {
      assert rs[0] in rs;
      assert forall x :: x in rs[1..] ==> x in rs;
      RatingSumOnScale(rs[1..]);
    }
  }

  lemma QuotientBounds(sum: real, n: real, lo: real, hi: real)
    requires n > 0.0 && lo * n <= sum <= hi * n
    ensures lo <= sum / n <= hi
  {
    assert sum / n - lo == (sum - lo * n) / n;
    assert hi - sum / n == (hi * n - sum) / n;
  }

  /** When every rating read for the item lies on the 1-to-5 scale, so does the
      average the recompute stores. */
  lemma AverageWithinScale(menuItems: seq<MenuItem>, ratingsRead: seq<ItemRating>, itemId: string, i: int)
    requires forall x :: x in ratingsRead && x.itemId == itemId ==> 1.0 <= x.rating <= 5.0
    requires 0 <= i < |menuItems| && menuItems[i].id == itemId
    requires RatingsFor(ratingsRead, itemId) != []
    ensures Rerated(menuItems, ratingsRead, itemId)[i].averageRating.Some?
    ensures 1.0 <= Rerated(menuItems, ratingsRead, itemId)[i].averageRating.value <= 5.0
  {
    var rs := RatingsFor(ratingsRead, itemId);
    RatingSumOnScale(rs);
    QuotientBounds(RatingSum(rs), |rs| as real, 1.0, 5.0);
  }

  /** The consequence of the recompute reading the list as it was before the append:
      the appended rating always adds one to the item's count of ratings, yet the
      count the recompute stores is the old one, and an item's first rating leaves
      the menu untouched. */
  lemma RecomputeMissesAppendedRating(menuItems: seq<MenuItem>, ratings: seq<ItemRating>, added: ItemRating)
    ensures |RatingsFor(ratings + [added], added.itemId)| == |RatingsFor(ratings, added.itemId)| + 1
    ensures RatingsFor(ratings, added.itemId) == [] ==> Rerated(menuItems, ratings, added.itemId) == menuItems
    ensures forall i :: 0 <= i < |menuItems| && menuItems[i].id == added.itemId && RatingsFor(ratings, added.itemId) != [] ==>
      Rerated(menuItems, ratings, added.itemId)[i].totalRatings == Some(|RatingsFor(ratings + [added], added.itemId)| - 1)
  {
    FilterConcat(ratings, [added], (x: ItemRating) => x.itemId == added.itemId);
  }

  // ---------------------------------------------------------------------------
  // Catalog lists (the add/update/delete operations the catalog screen calls)

  function CategoryFrom(f: CategoryFields, id: string, createdAt: string): Category {
    Category(id, f.name, f.description, f.isActive, f.displayOrder, createdAt)
  }

  /** `updateCategory(id, patch)`: the categories with the id take the patched fields
      and keep their id and creation time; the others are untouched. */
  function UpdatedCategories(categories: seq<Category>, id: string, f: CategoryFields): (r: seq<Category>)
    ensures |r| == |categories|
    ensures forall i :: 0 <= i < |r| && categories[i].id != id ==> r[i] == categories[i]
    ensures forall i :: 0 <= i < |r| && categories[i].id == id ==>
      r[i] == CategoryFrom(f, categories[i].id, categories[i].createdAt)
  {
    MapIf(categories, (c: Category) => c.id == id, (c: Category) => CategoryFrom(f, c.id, c.createdAt))
  }

  /** `deleteCategory(id)`: exactly the categories with that id are gone. */
  function RemovedCategories(categories: seq<Category>, id: string): (r: seq<Category>)
    ensures forall c :: c in r <==> c in categories && c.id != id
    ensures |r| <= |categories|
  {
    Filter(categories, (c: Category) => c.id != id)
  }

  function SubcategoryFrom(f: SubcategoryFields, id: string, createdAt: string): Subcategory {
    Subcategory(id, f.categoryId, f.name, f.description, f.isActive, f.displayOrder, createdAt)
  }

  /** `updateSubcategory(id, patch)` */
  function UpdatedSubcategories(subcategories: seq<Subcategory>, id: string, f: SubcategoryFields): (r: seq<Subcategory>)
    ensures |r| == |subcategories|
    ensures forall i :: 0 <= i < |r| && subcategories[i].id != id ==> r[i] == subcategories[i]
    ensures forall i :: 0 <= i < |r| && subcategories[i].id == id ==>
      r[i] == SubcategoryFrom(f, subcategories[i].id, subcategories[i].createdAt)
  {
    MapIf(subcategories, (s: Subcategory) => s.id == id, (s: Subcategory) => SubcategoryFrom(f, s.id, s.createdAt))
  }

  /** `deleteSubcategory(id)` */
  function RemovedSubcategories(subcategories: seq<Subcategory>, id: string): (r: seq<Subcategory>)
    ensures forall s :: s in r <==> s in subcategories && s.id != id
    ensures |r| <= |subcategories|
  {
    Filter(subcategories, (s: Subcategory) => s.id != id)
  }

  /** A menu item made from the form's fields; it has no rating aggregate yet. */
  function MenuItemFrom(f: MenuItemFields, id: string, createdAt: string): MenuItem {
    MenuItem(id, f.categoryId, f.subcategoryId, f.name, f.description, f.price, f.image,
      f.isAvailable, f.isFeatured, f.prepTime, f.displayOrder, createdAt, None, None)
  }

  /** `{ ...item, ...patch }`: the form's fields replace the item's, including the
      absent ones; the id, creation time and rating aggregate are kept. */
  function PatchMenuItem(m: MenuItem, f: MenuItemFields): MenuItem {
    m.(name := f.name, categoryId := f.categoryId, subcategoryId := f.subcategoryId,
       description := f.description, price := f.price, prepTime := f.prepTime,
       isAvailable := f.isAvailable, isFeatured := f.isFeatured, image := f.image,
       displayOrder := f.displayOrder)
  }

  /** `updateMenuItem(id, patch)` */
  function UpdatedMenuItems(menuItems: seq<MenuItem>, id: string, f: MenuItemFields): (r: seq<MenuItem>)
    ensures |r| == |menuItems|
    ensures forall i :: 0 <= i < |r| && menuItems[i].id != id ==> r[i] == menuItems[i]
    ensures forall i :: 0 <= i < |r| && menuItems[i].id == id ==> r[i] == PatchMenuItem(menuItems[i], f)
  {
    MapIf(menuItems, (m: MenuItem) => m.id == id, (m: MenuItem) => PatchMenuItem(m, f))
  }

  /** `deleteMenuItem(id)` */
  function RemovedMenuItems(menuItems: seq<MenuItem>, id: string): (r: seq<MenuItem>)
    ensures forall m :: m in r <==> m in menuItems && m.id != id
    ensures |r| <= |menuItems|
  {
    Filter(menuItems, (m: MenuItem) => m.id != id)
  }

  // ---------------------------------------------------------------------------
  // The provider

  /** The state the provider hands to every screen. Each method replaces exactly the
      lists its frame names; the lookups are pure. */
  class DataProvider {
    var categories: seq<Category>
    var subcategories: seq<Subcategory>
    var menuItems: seq<MenuItem>
    var tables: seq<Table>
    var orders: seq<Order>
    var ratings: seq<ItemRating>

    constructor (categories: seq<Category>, subcategories: seq<Subcategory>, menuItems: seq<MenuItem>,
                 tables: seq<Table>, orders: seq<Order>, ratings: seq<ItemRating>)
      ensures this.categories == categories && this.subcategories == subcategories
      ensures this.menuItems == menuItems && this.tables == tables
      ensures this.orders == orders && this.ratings == ratings
    {
      this.categories := categories;
      this.subcategories := subcategories;
      this.menuItems := menuItems;
      this.tables := tables;
      this.orders := orders;
      this.ratings := ratings;
    }

    /** `addOrder`: one order, with the fresh id and timestamp, is appended after all
        the earlier orders, which keep their content and their order. */
    method AddOrder(orderData: Order, id: string, createdAt: string)
      modifies this`orders
      ensures orders == old(orders) + [orderData.(id := id, createdAt := createdAt)]
    {
      orders := orders + [orderData.(id := id, createdAt := createdAt)];
    }

    method UpdateOrderStatus(orderId: string, status: OrderStatus)
      modifies this`orders
      ensures orders == WithOrderStatus(old(orders), orderId, status)
    {
      orders := WithOrderStatus(orders, orderId, status);
    }

    method UpdateOrderItemStatus(orderId: string, itemId: string, status: ItemStatus)
      modifies this`orders
      ensures orders == SetItemStatus(old(orders), orderId, {itemId}, status)
    {
      orders := SetItemStatus(orders, orderId, {itemId}, status);
    }

    /** `addRating`: appends exactly one rating and then recomputes the item's
        aggregate. The recompute reads the `ratings` list the provider held before
        the append (the closure's stale view), which is passed to it explicitly. */
    method AddRating(ratingData: ItemRating, id: string, createdAt: string)
      modifies this`ratings, this`menuItems
      ensures ratings == old(ratings) + [ratingData.(id := id, createdAt := createdAt)]
      ensures menuItems == Rerated(old(menuItems), old(ratings), ratingData.itemId)
    {
      var ratingsSeenByRecompute := ratings;
      ratings := ratings + [ratingData.(id := id, createdAt := createdAt)];
      UpdateMenuItemRatings(ratingData.itemId, ratingsSeenByRecompute);
    }

    /** `updateMenuItemRatings`, over the ratings list it reads. */
    method UpdateMenuItemRatings(itemId: string, ratingsRead: seq<ItemRating>)
      modifies this`menuItems
      ensures menuItems == Rerated(old(menuItems), ratingsRead, itemId)
    {
      menuItems := Rerated(menuItems, ratingsRead, itemId);
    }

    method UpdateTableStatus(tableId: string, status: TableStatus)
      modifies this`tables
      ensures tables == WithTableStatus(old(tables), tableId, status)
    {
      tables := WithTableStatus(tables, tableId, status);
    }

    /** `getMenuItemById` over the store's current menu. */
    function GetMenuItemById(id: string): (r: Option<MenuItem>)
      reads this
      ensures r.None? <==> forall m :: m in menuItems ==> m.id != id
      ensures r.Some? ==> r.value in menuItems && r.value.id == id
      ensures forall i ::
        (0 <= i < |menuItems| && menuItems[i].id == id && forall j :: 0 <= j < i ==> menuItems[j].id != id)
        ==> r == Some(menuItems[i])
    {
      FindMenuItem(menuItems, id)
    }

    /** `getTableById` over the store's current tables. */
    function GetTableById(id: string): (r: Option<Table>)
      reads this
      ensures r.None? <==> forall t :: t in tables ==> t.id != id
      ensures r.Some? ==> r.value in tables && r.value.id == id
      ensures forall i ::
        (0 <= i < |tables| && tables[i].id == id && forall j :: 0 <= j < i ==> tables[j].id != id)
        ==> r == Some(tables[i])
    {
      FindTable(tables, id)
    }

    method AddCategory(f: CategoryFields, id: string, createdAt: string)
      modifies this`categories
      ensures categories == old(categories) + [CategoryFrom(f, id, createdAt)]
    {
      categories := categories + [CategoryFrom(f, id, createdAt)];
    }

    method UpdateCategory(id: string, f: CategoryFields)
      modifies this`categories
      ensures categories == UpdatedCategories(old(categories), id, f)
    {
      categories := UpdatedCategories(categories, id, f);
    }

    method DeleteCategory(id: string)
      modifies this`categories
      ensures categories == RemovedCategories(old(categories), id)
    {
      categories := RemovedCategories(categories, id);
    }

    method AddSubcategory(f: SubcategoryFields, id: string, createdAt: string)
      modifies this`subcategories
      ensures subcategories == old(subcategories) + [SubcategoryFrom(f, id, createdAt)]
    {
      subcategories := subcategories + [SubcategoryFrom(f, id, createdAt)];
    }

    method UpdateSubcategory(id: string, f: SubcategoryFields)
      modifies this`subcategories
      ensures subcategories == UpdatedSubcategories(old(subcategories), id, f)
    {
      subcategories := UpdatedSubcategories(subcategories, id, f);
    }

    method DeleteSubcategory(id: string)
      modifies this`subcategories
      ensures subcategories == RemovedSubcategories(old(subcategories), id)
    {
      subcategories := RemovedSubcategories(subcategories, id);
    }

    method AddMenuItem(f: MenuItemFields, id: string, createdAt: string)
      modifies this`menuItems
      ensures menuItems == old(menuItems) + [MenuItemFrom(f, id, createdAt)]
    {
      menuItems := menuItems + [MenuItemFrom(f, id, createdAt)];
    }

    method UpdateMenuItem(id: string, f: MenuItemFields)
      modifies this`menuItems
      ensures menuItems == UpdatedMenuItems(old(menuItems), id, f)
    {
      menuItems := UpdatedMenuItems(menuItems, id, f);
    }

    method DeleteMenuItem(id: string)
      modifies this`menuItems
      ensures menuItems == RemovedMenuItems(old(menuItems), id)
    {
      menuItems := RemovedMenuItems(menuItems, id);
    }
  }
}
