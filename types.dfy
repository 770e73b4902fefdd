/** The records the restaurant screens share. Money and ratings are `real`;
    identifiers and timestamps are strings chosen by the caller. */
module Types {
  import opened Wrappers

  /** The status of a whole order. */
  datatype OrderStatus = OrderPending | OrderInProgress | OrderReady | Served | Cancelled

  /** The kitchen status of one line of an order. */
  datatype ItemStatus = Pending | InProgress | Ready

  datatype TableStatus = Available | Occupied | Reserved | Cleaning

  datatype DeviceStatus = Active | Inactive | Maintenance

  datatype Category = Category(
    id: string,
    name: string,
    description: string,
    isActive: bool,
    displayOrder: int,
    createdAt: string)

  datatype Subcategory = Subcategory(
    id: string,
    categoryId: string,
    name: string,
    description: string,
    isActive: bool,
    displayOrder: int,
    createdAt: string)

  /** A catalog entry; the rating aggregate is absent until the first recompute. */
  datatype MenuItem = MenuItem(
    id: string,
    categoryId: string,
    subcategoryId: Option<string>,
    name: string,
    description: string,
    price: real,
    image: Option<string>,
    isAvailable: bool,
    isFeatured: bool,
    prepTime: Option<int>,
    displayOrder: int,
    createdAt: string,
    averageRating: Option<real>,
    totalRatings: Option<nat>)

  datatype Table = Table(
    id: string,
    tableNumber: string,
    seats: nat,
    status: TableStatus,
    location: string,
    createdAt: string)

  datatype OrderItem = OrderItem(
    id: string,
    orderId: string,
    itemId: string,
    quantity: int,
    status: ItemStatus,
    customizations: seq<string>,
    createdAt: string)

  datatype Order = Order(
    id: string,
    tableId: string,
    waiterId: string,
    customerId: string,
    status: OrderStatus,
    notes: Option<string>,
    items: seq<OrderItem>,
    createdAt: string)

  /** No two lines of an order share an id. */
  predicate LineIdsDistinct(items: seq<OrderItem>) {
    forall j, k :: 0 <= j < k < |items| ==> items[j].id != items[k].id
  }

  datatype ItemRating = ItemRating(
    id: string,
    orderItemId: string,
    customerId: string,
    itemId: string,
    rating: real,
    comment: Option<string>,
    createdAt: string)

  /** A waiter's tablet in the device registry. */
  datatype Device = Device(
    id: string,
    serialNumber: string,
    deviceModel: string,
    status: DeviceStatus,
    assignedWaiterId: Option<string>,
    assignmentDate: Option<string>,
    notes: string,
    createdAt: string)

  /** The fields the category form saves. */
  datatype CategoryFields = CategoryFields(
    name: string,
    description: string,
    isActive: bool,
    displayOrder: int)

  /** The fields the subcategory form saves. */
  datatype SubcategoryFields = SubcategoryFields(
    categoryId: string,
    name: string,
    description: string,
    isActive: bool,
    displayOrder: int)

  /** The fields the menu item form saves. */
  datatype MenuItemFields = MenuItemFields(
    name: string,
    categoryId: string,
    subcategoryId: Option<string>,
    description: string,
    price: real,
    prepTime: Option<int>,
    isAvailable: bool,
    isFeatured: bool,
    image: Option<string>,
    displayOrder: int)
}
