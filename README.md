# Restaurant table hub: the order, table and catalog state layer

This project is a Dafny model of the state logic behind a restaurant front end. It has five parts:

- the shared store, `DataProvider`, which holds categories, subcategories, menu items, tables, orders and ratings;
- the waiter screen: table assignment, the cart, submitting orders, the bill, serving, cancelling and closing the bill;
- the kitchen screen: order queues per tab, single-line advances and "accept all";
- the catalog screen: the expand toggle, guarded deletes, display-order listings and the three forms;
- the tablet registry: filters, counts, deletion and the add/edit form.

Each state change is a method of a class whose fields are the lists or form values the screen changes. Methods declare exactly what they may change with `modifies` clauses such as `modifies store`orders`. Their `ensures` clauses tie the new state to a specification function of the old state. Lemmas about those functions then state the properties:

- only the matching records change;
- lookups return the first match;
- the delete guards keep every catalog reference resolvable;
- "accept all" leaves no pending line, and running it again changes nothing;
- the tax is a tenth of the subtotal;
- waiters and assignment dates stay together on tablets;
- serial numbers stay distinct while tablet ids are distinct.

Modules:

- `Wrappers`: `Option` and `Result`.
- `Seqs`: `filter`, `find`, `findIndex`, conditional `map` and a sort by integer key, with their lemmas.
- `Text`: JavaScript's `trim`, ASCII `toLowerCase`, `includes` and `String(n)`.
- `Types`: the records.
- `DataContext`, `WaiterDashboard`, `ChefDashboard`, `MenuManagement`, `DeviceManagement`: one module per source file.

The model follows the code, with one exception: "accept all" is given its intended sequential meaning (see below). Behaviour of the code worth knowing:

- **Closing a bill leaves the order open.** It only sets the table to `cleaning` and clears the screen's selection. The order keeps its status.
- **Any status move is accepted.** Order lines, orders and tables take whatever status they are given, backward moves included. Nothing enforces forward-only transitions.
- **Adding items to an active order appends a second order.** The new order holds the old lines plus the new ones; the first order is not extended. The first order stays the active one (`SecondOrderNeverActive`).
- **Cancelling an item writes `pending` back.** It is accepted only for a pending line, so it never changes anything (`CancelWritesNothingNew`).
- **Serving an item writes `ready` back.** The serve button is shown only for a line that is already `ready`, so serving from the screen never changes anything either (`ServeWritesNothingNew`).
- **The rating recompute reads the list from before the append.** The new rating is missing from the aggregate (`RecomputeMissesAppendedRating`).
- **"Accept all" in the source loses writes.** It issues one store write per pending line, and each write maps over the same snapshot of the orders, so the runtime keeps only the last one. The model gives the intended sequential meaning and says so in a comment on `AcceptAllItems`.
- **The category duplicate check uses the untrimmed name.** It compares the name as typed, but the trimmed name is saved. " Starters" therefore passes next to "Starters" (`PaddedNameSlipsPastDuplicateCheck`). Subcategories behave the same way. The tablet form trims nothing, in its check or its save, so it has no such gap.
- **A new tablet's id can repeat an existing one.** The id is the list length plus one, so after a delete it can equal an id still in use (`NewIdRepeatsAfterDelete`). Once two tablets share an id, editing either one passes the serial check and rewrites both, so they end up with the same serial (`RepeatedIdEditDuplicatesSerial`).
- **Catalog writes are called but not defined.** The catalog screen calls `addCategory`, `updateCategory`, `deleteCategory` and their subcategory and menu item counterparts. The store file does not define them. The screen also reads a `subcategories` list from the store, which neither the store's interface nor its provided value contains. The model gives `DataProvider` a `subcategories` field and models the calls as plain append, update-by-id and filter-out-by-id, at the call sites cited below.
- **The `Device` fields come from their uses.** The record is built from the registry screen's seed list and form; the types file does not declare it.
- **The reassignment warning reassigns nothing.** Its text says the waiter "will be reassigned to this device", but the other tablet keeps its waiter and its assignment date (`WarningKeepsOtherAssignment`).

## Model

| member | source | states |
|---|---|---|
| DataContext.WithOrderStatus | src/contexts/DataContext.tsx:103-109 | the list keeps its length; orders with the id get the new status, whatever it is, and every other order is identical |
| DataContext.WithOrderStatusLastWins | src/contexts/DataContext.tsx:103-109 | two status writes to the same order equal the second write alone |
| DataContext.ItemsWithStatus | src/contexts/DataContext.tsx:114-116 | lines whose id is in the set get the status with every other field kept; all other lines are identical; the length is kept |
| DataContext.SetItemStatus | src/contexts/DataContext.tsx:111-123 | inside orders with the order id, lines with the given ids get the new status; other orders, other lines, line order and counts are unchanged; no transition is refused |
| DataContext.SetItemStatusNone | src/contexts/DataContext.tsx:111-123 | a rewrite of no line id leaves the orders as they were |
| DataContext.SetItemStatusCompose | src/contexts/DataContext.tsx:111-123 | two rewrites to one status equal a single rewrite over the union of the id sets |
| DataContext.SetItemStatusAlreadyThere | src/contexts/DataContext.tsx:111-123 | a rewrite whose target lines already have the status changes nothing |
| DataContext.WithTableStatus | src/contexts/DataContext.tsx:153-159 | only tables with the id change, and only their status, to any status; the length is kept |
| DataContext.WithTableStatusLastWins | src/contexts/DataContext.tsx:153-159 | two status writes to the same table equal the second write alone |
| DataContext.FindMenuItem | src/contexts/DataContext.tsx:161 | none exactly when no item has the id; otherwise the first item with the id |
| DataContext.FindTable | src/contexts/DataContext.tsx:162 | none exactly when no table has the id; otherwise the first table with the id |
| DataContext.DataProvider.GetMenuItemById | src/contexts/DataContext.tsx:161 | none exactly when no menu item in the store has the id; otherwise the first stored item with that id |
| DataContext.DataProvider.GetTableById | src/contexts/DataContext.tsx:162 | none exactly when no table in the store has the id; otherwise the first stored table with that id |
| DataContext.RatingsFor | src/contexts/DataContext.tsx:140 | keeps exactly the ratings of the item |
| DataContext.Rerated | src/contexts/DataContext.tsx:139-151 | with no rating read for the item the menu is unchanged; otherwise items with the id get average = sum/count and total = count, and all other items are identical |
| DataContext.RatingSumOnScale | src/contexts/DataContext.tsx:142 | when every rating is between 1 and 5, the sum lies between the count and five times the count |
| DataContext.AverageWithinScale | src/contexts/DataContext.tsx:139-151 | when every rating read is between 1 and 5, the stored average is present and between 1 and 5 |
| DataContext.RecomputeMissesAppendedRating | src/contexts/DataContext.tsx:125-137 | the appended rating adds one to the item's true count, but the recompute over the pre-append list stores the old count; an item's first rating leaves the menu unchanged |
| DataContext.UpdatedCategories | src/pages/admin/MenuManagement.tsx:504-509 | categories with the id take the saved fields and keep their id and creation time; others are identical |
| DataContext.RemovedCategories | src/pages/admin/MenuManagement.tsx:64 | exactly the categories without the id remain |
| DataContext.UpdatedSubcategories | src/pages/admin/MenuManagement.tsx:629-635 | subcategories with the id take the saved fields; others are identical |
| DataContext.RemovedSubcategories | src/pages/admin/MenuManagement.tsx:78 | exactly the subcategories without the id remain |
| DataContext.UpdatedMenuItems | src/pages/admin/MenuManagement.tsx:782 | items with the id take the patch, keeping id, creation time and ratings; others are identical |
| DataContext.RemovedMenuItems | src/pages/admin/MenuManagement.tsx:81 | exactly the items without the id remain |
| DataContext.DataProvider.constructor | src/contexts/DataContext.tsx:23-27 | the store holds the given lists |
| DataContext.DataProvider.AddOrder | src/contexts/DataContext.tsx:91-101 | exactly one order, with the fresh id and time, is appended; earlier orders are unchanged and in order; no other list changes |
| DataContext.DataProvider.UpdateOrderStatus | src/contexts/DataContext.tsx:103-109 | orders become `WithOrderStatus` of the old orders; nothing else changes |
| DataContext.DataProvider.UpdateOrderItemStatus | src/contexts/DataContext.tsx:111-123 | orders become `SetItemStatus` of the old orders for the one line id; nothing else changes |
| DataContext.DataProvider.AddRating | src/contexts/DataContext.tsx:125-137 | exactly one rating is appended; the menu is recomputed from the ratings list as it was before the append |
| DataContext.DataProvider.UpdateMenuItemRatings | src/contexts/DataContext.tsx:139-151 | menu items become `Rerated` over the ratings list read; nothing else changes |
| DataContext.DataProvider.UpdateTableStatus | src/contexts/DataContext.tsx:153-159 | tables become `WithTableStatus` of the old tables; nothing else changes |
| DataContext.DataProvider.AddCategory | src/pages/admin/MenuManagement.tsx:515-520 | one category built from the fields is appended; nothing else changes |
| DataContext.DataProvider.UpdateCategory | src/pages/admin/MenuManagement.tsx:504-509 | categories become `UpdatedCategories`; nothing else changes |
| DataContext.DataProvider.DeleteCategory | src/pages/admin/MenuManagement.tsx:64 | categories become `RemovedCategories`; nothing else changes |
| DataContext.DataProvider.AddSubcategory | src/pages/admin/MenuManagement.tsx:641-647 | one subcategory is appended; nothing else changes |
| DataContext.DataProvider.UpdateSubcategory | src/pages/admin/MenuManagement.tsx:629-635 | subcategories become `UpdatedSubcategories`; nothing else changes |
| DataContext.DataProvider.DeleteSubcategory | src/pages/admin/MenuManagement.tsx:78 | subcategories become `RemovedSubcategories`; nothing else changes |
| DataContext.DataProvider.AddMenuItem | src/pages/admin/MenuManagement.tsx:788 | one item, without ratings, is appended; nothing else changes |
| DataContext.DataProvider.UpdateMenuItem | src/pages/admin/MenuManagement.tsx:782 | menu items become `UpdatedMenuItems`; nothing else changes |
| DataContext.DataProvider.DeleteMenuItem | src/pages/admin/MenuManagement.tsx:81 | menu items become `RemovedMenuItems`; nothing else changes |
| WaiterDashboard.ActiveOrder | src/pages/WaiterDashboard.tsx:32 | none without a selected table; otherwise the first order of that table that is neither served nor cancelled, or none if there is no such order |
| WaiterDashboard.SecondOrderNeverActive | src/pages/WaiterDashboard.tsx:97-107 | once a table has an active order, appending another order changes neither the active order nor its bill |
| WaiterDashboard.FilteredItems | src/pages/WaiterDashboard.tsx:35-39 | keeps exactly the available items whose name contains the query ignoring case and whose category matches unless the filter is "all" |
| WaiterDashboard.CartAdd | src/pages/WaiterDashboard.tsx:54-63 | an item already in the cart gets quantity + 1 with the length unchanged and other entries identical; a new item is appended with quantity 1 and no customization |
| WaiterDashboard.CartAddValid | src/pages/WaiterDashboard.tsx:54-63 | adding keeps every quantity at least 1 and at most one entry per item |
| WaiterDashboard.CartUpdateQuantity | src/pages/WaiterDashboard.tsx:65-73 | on a valid cart: length and validity are kept, other entries are identical, and the entry's quantity changes by delta only when the result is positive |
| WaiterDashboard.PositiveUpdateKeepsCart | src/pages/WaiterDashboard.tsx:72 | after such an update, the final filter on positive quantities removes nothing |
| WaiterDashboard.CartSetCustomization | src/pages/WaiterDashboard.tsx:75-79 | only entries of the item get the new customization; length and validity are kept |
| WaiterDashboard.CartToOrderItems | src/pages/WaiterDashboard.tsx:87-95 | one pending line per cart entry, in order, with its item id, quantity and its own creation time, and customizations `[c]`, or `[]` when `c` is empty |
| WaiterDashboard.PriceOf | src/pages/WaiterDashboard.tsx:145 | the price of the first menu item with the id; 0 when no item has it |
| WaiterDashboard.LineTotal | src/pages/WaiterDashboard.tsx:146 | 0 for a zero price or quantity, the price for one portion, and never negative for a non-negative price and quantity |
| WaiterDashboard.Subtotal | src/pages/WaiterDashboard.tsx:144-147 | lines whose item is missing from the menu add nothing, so an order of only such lines has subtotal 0 |
| WaiterDashboard.SubtotalConcat | src/pages/WaiterDashboard.tsx:144-147 | the subtotal of concatenated lines is the sum of the parts' subtotals |
| WaiterDashboard.SubtotalNonNegative | src/pages/WaiterDashboard.tsx:144-147 | with prices and quantities that are not negative, the subtotal is not negative |
| WaiterDashboard.CalculateBill | src/pages/WaiterDashboard.tsx:141-153 | zeros without an active order; otherwise subtotal = Σ price×qty, with unknown items counting 0, tax = subtotal/10 and total = subtotal + tax |
| WaiterDashboard.WaiterSession.CurrentBill | src/pages/WaiterDashboard.tsx:141-153 | zero without a selected table or an active order; otherwise the active order's subtotal, a tenth of it as tax, and their sum as the total |
| WaiterDashboard.BillExample | src/pages/WaiterDashboard.tsx:141-153 | 2×120 + 1×80 gives 320 / 32 / 352 |
| WaiterDashboard.FindOrderItem | src/pages/WaiterDashboard.tsx:131-132 | none when no order has the order id, or when the first such order has no line with the item id; otherwise the first such line of that first order |
| WaiterDashboard.CancelWritesNothingNew | src/pages/WaiterDashboard.tsx:130-139 | with unique ids, writing `pending` to a pending line leaves the orders unchanged |
| WaiterDashboard.ServeWritesNothingNew | src/pages/WaiterDashboard.tsx:125-128 | with unique ids, serving a line that is already `ready`, the only kind the serve button is offered for, leaves the orders unchanged |
| WaiterDashboard.WaiterSession.constructor | src/pages/WaiterDashboard.tsx:21-26 | no table, empty customer fields, empty cart, category "all", empty query |
| WaiterDashboard.WaiterSession.SelectTable | src/pages/WaiterDashboard.tsx:203-207 | any clicked table becomes the selected one; the assign dialog opens exactly when that table is available |
| WaiterDashboard.WaiterSession.HandleAssignTable | src/pages/WaiterDashboard.tsx:44-52 | refused, with no change, without a table or a customer name; otherwise only that table becomes occupied |
| WaiterDashboard.WaiterSession.AddToCart | src/pages/WaiterDashboard.tsx:54-63 | the cart becomes `CartAdd` of the old cart and stays valid |
| WaiterDashboard.WaiterSession.UpdateQuantity | src/pages/WaiterDashboard.tsx:65-73 | the cart becomes `CartUpdateQuantity` of the old cart and stays valid |
| WaiterDashboard.WaiterSession.UpdateCustomization | src/pages/WaiterDashboard.tsx:75-79 | the cart becomes `CartSetCustomization` of the old cart and stays valid |
| WaiterDashboard.WaiterSession.SubmitOrder | src/pages/WaiterDashboard.tsx:81-123 | without a table or with an empty cart nothing changes; otherwise one pending order for the table is appended, holding the active order's lines followed by the cart's lines, each cart line with its own creation time and the order with its own, and the cart is emptied |
| WaiterDashboard.WaiterSession.MarkItemServed | src/pages/WaiterDashboard.tsx:125-128 | the line is set to `ready` |
| WaiterDashboard.WaiterSession.CancelItem | src/pages/WaiterDashboard.tsx:130-139 | accepted exactly when the line exists and is pending; then `pending` is written, otherwise nothing changes |
| WaiterDashboard.WaiterSession.CloseBill | src/pages/WaiterDashboard.tsx:155-163 | without a table nothing changes; otherwise only that table becomes `cleaning`, the selection and customer fields are cleared, and the orders are untouched |
| ChefDashboard.PendingOrders | src/pages/ChefDashboard.tsx:26-28 | exactly the pending orders with at least one pending line |
| ChefDashboard.AcceptedOrders | src/pages/ChefDashboard.tsx:30-32 | exactly the orders with a line in progress, whatever the order's status |
| ChefDashboard.ReadyOrders | src/pages/ChefDashboard.tsx:34-36 | exactly the orders with a ready line, whatever the order's status |
| ChefDashboard.OpenOrders | src/pages/ChefDashboard.tsx:305-307 | exactly the orders neither served nor cancelled |
| ChefDashboard.OrdersOnTab | src/pages/ChefDashboard.tsx:260-307 | each tab lists exactly its own orders: pending orders with a pending line, orders with a line cooking, orders with a ready line, or every open order |
| ChefDashboard.FreshOrderListedOnlyAsPending | src/pages/ChefDashboard.tsx:26-36 | an order whose lines are all pending is on the pending tab exactly when its status is pending, and never on the cooking or ready tab |
| ChefDashboard.PendingLines | src/pages/ChefDashboard.tsx:72 | exactly the pending lines; empty exactly when no line is pending |
| ChefDashboard.TabLines | src/pages/ChefDashboard.tsx:107-113 | pending, in-progress or ready lines on those tabs; every line, in order, otherwise |
| ChefDashboard.AcceptAll | src/pages/ChefDashboard.tsx:70-75 | only orders with the card's id change, and only in their lines' statuses; a line goes to in progress exactly when it shares its id with a pending line of the card |
| ChefDashboard.AcceptAllClearsPending | src/pages/ChefDashboard.tsx:70-75 | after accept-all the order has the same number of lines, every formerly pending line is in progress, no line is pending, and the order leaves the pending tab |
| ChefDashboard.AcceptAllKeepsOtherLines | src/pages/ChefDashboard.tsx:70-75 | with distinct line ids, non-pending lines are unchanged, only statuses change, and other orders are untouched |
| ChefDashboard.AcceptAllTwiceIsOnce | src/pages/ChefDashboard.tsx:70-75 | a second accept-all on the refreshed order changes nothing |
| ChefDashboard.AcceptOneMore | src/pages/ChefDashboard.tsx:73-75 | one more iteration of the loop extends the accepted id set by that line's id |
| ChefDashboard.ChefSession.constructor | src/pages/ChefDashboard.tsx:23 | the session starts on the pending tab |
| ChefDashboard.ChefSession.AcceptOrder | src/pages/ChefDashboard.tsx:38-44 | exactly the one line is set to in progress |
| ChefDashboard.ChefSession.MarkReadyToCook | src/pages/ChefDashboard.tsx:46-52 | the orders are unchanged |
| ChefDashboard.ChefSession.MarkCooking | src/pages/ChefDashboard.tsx:54-59 | the orders are unchanged |
| ChefDashboard.ChefSession.MarkReady | src/pages/ChefDashboard.tsx:61-68 | exactly the one line is set to ready |
| ChefDashboard.ChefSession.AcceptAllItems | src/pages/ChefDashboard.tsx:70-80 | the loop over the pending lines leaves the orders equal to `AcceptAll` of the old orders |
| MenuManagement.Toggled | src/pages/admin/MenuManagement.tsx:40-46 | an expanded id is removed, every occurrence; otherwise the id is appended; membership of the id flips |
| MenuManagement.ToggleTwice | src/pages/admin/MenuManagement.tsx:40-46 | toggling twice restores the expanded set, and the exact list when the id was absent |
| MenuManagement.CategoryInUse | src/pages/admin/MenuManagement.tsx:52-55 | true exactly when a subcategory or an item has that category id |
| MenuManagement.SubcategoryInUse | src/pages/admin/MenuManagement.tsx:67-69 | true exactly when an item has that subcategory id |
| MenuManagement.DeleteAllowed | src/pages/admin/MenuManagement.tsx:48-85 | an item delete always goes ahead; a category delete only when no subcategory or item names the category; a subcategory delete only when no item names it |
| MenuManagement.AfterDelete | src/pages/admin/MenuManagement.tsx:48-85 | a refused delete changes nothing; an allowed one removes exactly the records with the id from the targeted list and leaves the other two lists alone |
| MenuManagement.DeleteKeepsCatalogLinked | src/pages/admin/MenuManagement.tsx:48-85 | a delete the guards allow keeps every subcategory's and item's references resolvable |
| MenuManagement.SortedCategories | src/pages/admin/MenuManagement.tsx:109 | ascending display order and a permutation of the categories |
| MenuManagement.CategorySubcategories | src/pages/admin/MenuManagement.tsx:111-115 | ascending display order; exactly the subcategories of the category |
| MenuManagement.SubcategoryItems | src/pages/admin/MenuManagement.tsx:117-122 | ascending display order; exactly the subcategory's items whose name contains the query |
| MenuManagement.CategoryItems | src/pages/admin/MenuManagement.tsx:124-129 | ascending display order; exactly the category's items without a subcategory whose name contains the query |
| MenuManagement.EmptySearchListsWholeGroup | src/pages/admin/MenuManagement.tsx:117-129 | with an empty query both item listings hold their whole group |
| MenuManagement.ValidateCategory | src/pages/admin/MenuManagement.tsx:478-501 | a blank name is refused; a name equal ignoring case to another category's name is refused; otherwise the trimmed name and description are saved |
| Text.Trim | src/pages/admin/MenuManagement.tsx:505-506 | empty exactly for an all-whitespace input; otherwise the part of the input left once its leading and trailing whitespace is removed, with no whitespace at either end |
| MenuManagement.AddKeepsNamesDistinct | src/pages/admin/MenuManagement.tsx:490-520 | adding a name typed without padding keeps category names distinct ignoring case |
| MenuManagement.PaddedNameSlipsPastDuplicateCheck | src/pages/admin/MenuManagement.tsx:490-492 | " Starters" passes next to "Starters" and the list then holds the name twice |
| MenuManagement.PaddedNameAccepted | src/pages/admin/MenuManagement.tsx:478-520 | " Starters" next to "Starters" validates and is saved as "Starters" |
| MenuManagement.ValidateSubcategory | src/pages/admin/MenuManagement.tsx:601-626 | a blank name or a missing category is refused; duplicates are refused only within the same category; the saved fields are trimmed |
| MenuManagement.SameNameInOtherCategory | src/pages/admin/MenuManagement.tsx:613-617 | a name used only in other categories is accepted |
| MenuManagement.ValidateMenuItem | src/pages/admin/MenuManagement.tsx:746-779 | missing fields are refused; an unparsable or non-positive price is refused; the form is accepted exactly when name, category and description are filled and the price is a positive number; an empty subcategory or image is stored as absent; fields are trimmed |
| MenuManagement.FormSubcategories | src/pages/admin/MenuManagement.tsx:739 | exactly the active subcategories of the chosen category |
| MenuManagement.MenuManager.constructor | src/pages/admin/MenuManagement.tsx:29-38 | empty query, nothing expanded, no pending delete |
| MenuManagement.MenuManager.ToggleCategory | src/pages/admin/MenuManagement.tsx:40-46 | the expanded list becomes `Toggled` of the old list |
| MenuManagement.MenuManager.HandleDelete | src/pages/admin/MenuManagement.tsx:48-85 | nothing happens without a pending confirmation; a guarded delete that is refused removes nothing; items are deleted unconditionally; the confirmation is cleared |
| MenuManagement.CategoryForm.constructor | src/pages/admin/MenuManagement.tsx:473-476 | the fields start from the edited category, or empty, active and order 0 |
| MenuManagement.CategoryForm.HandleSubmit | src/pages/admin/MenuManagement.tsx:478-527 | the result is `ValidateCategory`; on refusal the store is unchanged; otherwise the edited category is updated or a new one appended |
| MenuManagement.CategoryForm.Save | src/pages/admin/MenuManagement.tsx:503-525 | update when editing, append otherwise |
| MenuManagement.SubcategoryForm.constructor | src/pages/admin/MenuManagement.tsx:595-599 | name, description, active flag and display order come from the edited subcategory, and its category unless that is empty, in which case the pre-selected one; a new form starts on the pre-selected category, empty, active and with order 0 |
| MenuManagement.SubcategoryForm.HandleSubmit | src/pages/admin/MenuManagement.tsx:601-652 | the result is `ValidateSubcategory`; on refusal the store is unchanged; otherwise update or append |
| MenuManagement.SubcategoryForm.Save | src/pages/admin/MenuManagement.tsx:628-650 | update when editing, append otherwise |
| MenuManagement.MenuItemForm.constructor | src/pages/admin/MenuManagement.tsx:728-737 | every field comes from the edited item: the price as already parsed, the subcategory and image as "" when absent; a new form starts with empty text fields, no price or preparation time, available, not featured and with order 0 |
| MenuManagement.MenuItemForm.HandleCategoryChange | src/pages/admin/MenuManagement.tsx:741-744 | the category changes and the subcategory is reset to empty |
| MenuManagement.MenuItemForm.HandleSubmit | src/pages/admin/MenuManagement.tsx:746-793 | the result is `ValidateMenuItem`, so a complete form with a positive price is saved and any other is refused; on refusal the store is unchanged; otherwise update or append |
| MenuManagement.MenuItemForm.Save | src/pages/admin/MenuManagement.tsx:781-792 | update when editing, append otherwise |
| DeviceManagement.FilteredDevices | src/pages/admin/DeviceManagement.tsx:68-73 | keeps exactly the devices whose serial or model contains the query ignoring case and whose status matches unless the filter is "all" |
| DeviceManagement.WaiterName | src/pages/admin/DeviceManagement.tsx:75-78 | the listed waiter's name for a known id, "Unassigned" otherwise |
| DeviceManagement.CountsWithinTotal | src/pages/admin/DeviceManagement.tsx:105-107 | available + assigned and available + maintenance never exceed the number of devices |
| DeviceManagement.AvailableCount | src/pages/admin/DeviceManagement.tsx:105 | at most the number of devices; 0 exactly when no device is active and unassigned |
| DeviceManagement.AssignedCount | src/pages/admin/DeviceManagement.tsx:106 | at most the number of devices; 0 exactly when no device has a waiter |
| DeviceManagement.MaintenanceCount | src/pages/admin/DeviceManagement.tsx:107 | at most the number of devices; 0 exactly when no device is under maintenance |
| DeviceManagement.CountsOfAppend | src/pages/admin/DeviceManagement.tsx:105-107 | each count is 0 on no devices and grows by one exactly for an appended device of its kind: active and unassigned, with a waiter, or under maintenance |
| DeviceManagement.SerialTakenIgnoresCase | src/pages/admin/DeviceManagement.tsx:306-308 | the duplicate check does not depend on the letter case of the typed serial |
| DeviceManagement.RemovedDevices | src/pages/admin/DeviceManagement.tsx:82 | exactly the devices without the id remain (their order is stated by `RemoveOneShortens`) |
| DeviceManagement.AlreadyAssigned | src/pages/admin/DeviceManagement.tsx:319-332 | with a waiter chosen, present exactly when another active device, not the edited one, has that waiter; with no waiter, absent |
| DeviceManagement.DevicesAfterEdit | src/pages/admin/DeviceManagement.tsx:334-348 | the length is kept; other devices are identical; the edited device takes the form's fields, keeps id and creation time, and has a waiter and today's date exactly when a waiter is chosen |
| DeviceManagement.NewDevice | src/pages/admin/DeviceManagement.tsx:354-366 | id = String(length + 1); the form's fields; a waiter and today's date exactly when a waiter is chosen |
| DeviceManagement.ChangesKeepDatesConsistent | src/pages/admin/DeviceManagement.tsx:334-366 | add, edit and delete keep "has a waiter exactly when it has an assignment date" |
| DeviceManagement.WarningKeepsOtherAssignment | src/pages/admin/DeviceManagement.tsx:319-332 | the device that triggered the warning is still listed with its assignment after the save |
| DeviceManagement.SaveKeepsSerialsDistinct | src/pages/admin/DeviceManagement.tsx:305-366 | a save that passed the serial check keeps serials distinct ignoring case, given distinct ids |
| DeviceManagement.NewIdRepeatsAfterDelete | src/pages/admin/DeviceManagement.tsx:354-356 | after deleting an earlier device, the next new id equals the last device's id, which is still listed |
| DeviceManagement.RepeatedIdEditDuplicatesSerial | src/pages/admin/DeviceManagement.tsx:306-348 | with two tablets sharing an id, editing one passes the serial check for any serial and the edit gives both the same serial |
| DeviceManagement.RemoveOneShortens | src/pages/admin/DeviceManagement.tsx:80-82 | with distinct ids, deleting a listed id leaves every other device, in its order, and the list one shorter |
| DeviceManagement.RemoveAbsentKeepsAll | src/pages/admin/DeviceManagement.tsx:82 | deleting an id no device has leaves the list as it was |
| DeviceManagement.SeedDevicesValid | src/pages/admin/DeviceManagement.tsx:29-66 | the seed list keeps waiters and dates together, has distinct ids, and its last id is its length |
| DeviceManagement.SeedSerialsDistinct | src/pages/admin/DeviceManagement.tsx:29-66 | the seeded serial numbers are distinct ignoring case |
| DeviceManagement.DeviceRegistry.constructor | src/pages/admin/DeviceManagement.tsx:22-29 | the seeded devices, empty query, filter "all" |
| DeviceManagement.DeviceRegistry.HandleDelete | src/pages/admin/DeviceManagement.tsx:80-89 | when confirmed, the list becomes `RemovedDevices` of the old list, which keeps the other devices in order; otherwise nothing changes |
| DeviceManagement.DeviceForm.constructor | src/pages/admin/DeviceManagement.tsx:295-300 | serial, model, status and notes come from the edited device, and the waiter is its waiter or "" when it has none; a new form starts empty, active and unassigned |
| DeviceManagement.DeviceForm.HandleSubmit | src/pages/admin/DeviceManagement.tsx:302-396 | refused with no change when the serial or model is empty, which the inputs' `required` attributes block, or when another device's serial matches ignoring case; otherwise reports whether the reassignment warning fired, then edits the device or appends a new one |

## Left out

- Rendering, dialogs, toasts, badges and styling: only the state logic is modelled.
- Persistence: the store's `localStorage` reads, writes and default data are not modelled; the lists are in memory.
- Sign-in, routing and navigation (`AuthContext`, `Login`, `App`, `Dashboard`, `AdminLayout`): session plumbing, outside this state layer.
- Staff and table administration screens: display-only lists and literal counts; their forms save nothing.
- Ids and timestamps: `Date.now()`, `Math.random()` and `new Date()` become parameters, such as `id`, `createdAt`, `today`, `now` and the line ids and line timestamps of `SubmitOrder`.
- The browser's confirmation dialog for deleting a tablet becomes the `confirmed` parameter.
- Floating point: prices, ratings and the bill are `real`, and the tax is `subtotal / 10`. `toFixed` formatting is not modelled.
- ValidateMenuItem: price and preparation time arrive already parsed; `parseFloat`'s acceptance of prefixes and `parseInt` of bad text, which gives NaN, are not modelled.
- Text.ToLower: case folding is ASCII only, while JavaScript's `toLowerCase` folds all of Unicode.
- ChefDashboard.ChefSession.AcceptAllItems: states the intended sequential composition of the writes. React's stale-snapshot behaviour, where only the last write survives, is described in a comment, not modelled.
- Seqs.SortBy: states sorted order and permutation, but not the stability of JavaScript's sort for equal display orders.
- Per-keystroke setters (`setSerialNumber`, `setSearchQuery`, `setSelectedCategory`, `setCustomerName`, `setStatusFilter`, `setSelectedTab` and the like) are plain assignments to the public fields of the form and screen classes, which the modelled operations then read; no method models them. The forms' `onClose` and the screens' dialog-open flags are not modelled, apart from the assign dialog's opening in `SelectTable`.
- The rating aggregate is recomputed only from the ratings list it is given; the 1-to-5 bound is proved only when the caller's ratings lie on that scale, because the source does not check it.
- refreshData: it reloads from `localStorage`, which is not part of this model.
