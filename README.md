# Restaurant admin panel: dashboard, controllers and order/category screens

A Dafny model of the core of a restaurant ordering system with an admin panel
(an Express/MongoDB server and a React front end). It covers:

- **Dashboard** (`getDashboardStats`): the summary numbers, the six-month
  revenue chart, the category-popularity table and the five most recent orders.
  These are computed from in-memory copies of the order, user, category and
  menu collections (modules `Dashboard`, `Revenue`, `CategorySales`).
- **Controllers**: the order, user, category and menu endpoints. Each is a
  class whose collection is a field that its methods update
  (`OrderController`, `UserController`, `CategoryController`,
  `MenuController`).
- **Category screen**: the keyword icon chooser and the search filter
  (`CategoryPage`).
- **Order screen**: the newest-first sort, the local status update, the guard
  that disables the status buttons, and the badge colours (`OrderPage`).

Shared pieces:

- `Records`: the records, the status enums, the uniqueness invariants of the
  collections, and a filter and a lookup by key.
- `Sorting`: one stable descending sort on an integer key, both as a function
  and as an in-place method on an array.
- `Text`: ASCII case mapping, substring search, joining and decimal digits.
- `Wrappers`: `Option`, and `Reply` (the `{success, message, data}` body of
  every response).

Collections are sequences in insertion order rather than maps. The order
matters where the source exposes it: the key order of `Object.keys`, the order
of query results, and ties in the sorts. Every collection carries an invariant
that its `_id` is unique (and, for users, the email; for categories, the name).
The database's fresh `_id`, bcrypt's salt and the clock are parameters of the
methods that need them.

The order lifecycle is documented as Pending → Preparing → Completed or
Cancelled, with the last two terminal. The server does not enforce it:
`updateOrderStatus` accepts any of the four names from any current status. The
model follows the code (`OrderController.NoTransitionGuard`). Only the order
screen disables its buttons on terminal orders (`OrderPage.DisabledExactlyWhenTerminal`),
and even that lets a Pending order be marked delivered directly
(`OrderPage.PendingCanBeMarkedDelivered`).

## Model

| member | source | states |
|---|---|---|
| Dashboard.GetDashboardStats | server/Controller/dashboardController.js:9-115 | the order count is the table size; the revenue is the sum of amounts (computed by a loop); the average, customer count, revenue chart, category table and recent orders are each exactly their specification function |
| Dashboard.TotalRevenueAppend | server/Controller/dashboardController.js:14 | the revenue of two batches of orders is the sum of their revenues |
| Dashboard.WindowWithinTotal | server/Controller/dashboardController.js:34-42 | with non-negative amounts, the revenue the chart shows lies between 0 and the total revenue |
| Dashboard.AvgOrderValue | server/Controller/dashboardController.js:96 | 0 with no orders; otherwise the integer nearest to revenue/orders (within half an order), with halves rounded away from zero |
| Dashboard.LastFour | server/Controller/dashboardController.js:110 | `slice(-4)`: the last four characters, or the whole of a shorter string |
| Dashboard.DisplayId | server/Controller/dashboardController.js:110 | the id starts with `#ORD-`, followed by the upper-cased last (up to) four characters of the order id |
| Dashboard.CustomerName | server/Controller/dashboardController.js:111 | the name of the order's user when one exists, `Unknown` when none does |
| Dashboard.ItemsSummary | server/Controller/dashboardController.js:112 | an empty cart gives the empty string; one line gives just that line's `{quantity}x {title}` text |
| Dashboard.ItemsSummarySnoc | server/Controller/dashboardController.js:112 | one more line appends `, ` and that line's text |
| Dashboard.NewestAreNewest | server/Controller/dashboardController.js:17-20 | at most five orders (all of them when fewer), newest first, taken from the table; no order left out is newer than any order shown |
| Dashboard.BuildRecentOrders | server/Controller/dashboardController.js:109-115 | the array sorted in place and projected equals the recent-orders specification |
| Dashboard.EmptyDashboard | server/Controller/dashboardController.js:9-96 | with no orders: revenue 0, average 0, no recent orders, every month and every category at zero |
| Revenue.MonthNamesDistinct | server/Controller/dashboardController.js:25 | twelve month names, pairwise different |
| Revenue.Window | server/Controller/dashboardController.js:27-32 | the chart always has exactly six points |
| Revenue.LabelsDistinct | server/Controller/dashboardController.js:29-32 | the six labels `months[(cur-5+k+12)%12]` are pairwise different |
| Revenue.LabelMatchesBucket | server/Controller/dashboardController.js:34-37 | a month's name equals the label of point k exactly when that month falls in bucket k of the window (the year is ignored) |
| Revenue.FindPoint | server/Controller/dashboardController.js:37 | `find` returns the first point with the name, or nothing when no point has it |
| Revenue.OrderFeedsOneBucket | server/Controller/dashboardController.js:34-42 | one more order adds its amount and 1 to exactly the bucket of its month and leaves every other bucket unchanged; an order outside the window changes nothing |
| Revenue.BuildRevenueData | server/Controller/dashboardController.js:27-42 | the push loop followed by the forEach update yields exactly the window specification |
| Revenue.WindowTotals | server/Controller/dashboardController.js:34-42 | the points' order counts add up to the number of orders in the window, and their revenues to those orders' revenue |
| CategorySales.MenuCategoryMapKeys | server/Controller/dashboardController.js:51-54 | the menu lookup has a key for every menu item and no other key |
| CategorySales.MenuCategoryMapValues | server/Controller/dashboardController.js:51-54 | with unique ids, the menu lookup maps each item to its category |
| CategorySales.CategoryNameMapKeys | server/Controller/dashboardController.js:57-60 | the name lookup has a key for every category and no other key |
| CategorySales.CategoryNameMapValues | server/Controller/dashboardController.js:57-60 | with unique ids, the name lookup maps each category id to its name |
| CategorySales.BuildMenuCategoryMap | server/Controller/dashboardController.js:51-54 | the forEach loop builds exactly the menu lookup |
| CategorySales.BuildCategoryNameMap | server/Controller/dashboardController.js:57-60 | the forEach loop builds exactly the name lookup |
| CategorySales.DedupMeaning | server/Controller/dashboardController.js:63-66 | the seeded keys are the category names in first-seen order, each once |
| CategorySales.SeedSales | server/Controller/dashboardController.js:63-66 | the counter is seeded with every category name at 0 |
| CategorySales.ResolveMeaning | server/Controller/dashboardController.js:73-78 | a cart line resolves to a name exactly when it names a menu item whose category exists and is called by that (non-empty) name |
| CategorySales.LineAddsOne | server/Controller/dashboardController.js:68-87 | a line adds exactly 1 (not its quantity) to the name it resolves to and nothing to any other name |
| CategorySales.SalesOnlyForKnownNames | server/Controller/dashboardController.js:77-79 | only names taken from the category lookup ever get a sale |
| CategorySales.ResolvedNamesAreCategories | server/Controller/dashboardController.js:77-79 | a resolved name is the name of some category |
| CategorySales.TallySales | server/Controller/dashboardController.js:68-87 | the nested forEach leaves each key's count at its seed plus the number of lines resolving to it, and adds no key outside the seed and the resolved names |
| CategorySales.BuildCategoryData | server/Controller/dashboardController.js:46-94 | the lookups, seeding, tally, projection and in-place sort yield exactly the category-table specification |
| CategorySales.CategoryDataEntries | server/Controller/dashboardController.js:89-92 | an entry is in the table exactly when its name is a category name and its sales are that name's number of resolved lines |
| CategorySales.CategoryDataNamesDistinct | server/Controller/dashboardController.js:89-92 | each name appears once in the table |
| CategorySales.CategoryDataSorted | server/Controller/dashboardController.js:94 | the table is sorted by sales, non-increasing |
| CategorySales.CategoryDataTotal | server/Controller/dashboardController.js:68-94 | the sales add up to the number of cart lines that resolve |
| Records.Customers | server/Controller/dashboardController.js:11 | exactly the users whose role is `customer` |
| Records.FindUser | server/Controller/dashboardController.js:18 | the user with that id when there is one, nothing otherwise |
| Records.ParseStatus | server/Controller/orderController.js:53 | accepted exactly on the four status names, and gives back the status so named |
| Records.StatusRoundTrip | server/Controller/orderController.js:53 | every status's name parses back to that status |
| Records.SetStatusEffect | server/Controller/orderController.js:60-64 | the update sets the status of the order with the id, changes no other order or field, and keeps ids unique |
| Records.SetStatusLastWins | server/Controller/orderController.js:60-64 | two updates of the same order leave the second status |
| Records.ParseUserStatus | server/Controller/userController.js:124 | accepted exactly on `active` and `inactive` |
| Records.Compare | server/Controller/userController.js:54 | a password matches a hash exactly when the hash was made from that password |
| Records.HashThenCompare | server/Controller/userController.js:54 | a hashed password matches itself and no other password |
| OrderController.NoTransitionGuard | server/Controller/orderController.js:53-64 | any status is applied from any current status, Completed and Cancelled included, and no other order changes |
| OrderController.OrderStore.CreateOrder | server/Controller/orderController.js:7-21 | the order is appended as given, with status Pending whatever was sent |
| OrderController.OrderStore.GetAllOrders | server/Controller/orderController.js:33 | every order in table order, each with its user's summary, or nothing when the user does not exist |
| OrderController.OrderStore.UpdateOrderStatus | server/Controller/orderController.js:53-69 | an unknown status is refused and nothing changes; otherwise the order with the id takes the status, and the reply carries the updated order (nothing when no order has the id) |
| OrderController.OrderStore.GetUserOrders | server/Controller/orderController.js:83 | exactly the user's orders (as a multiset), newest first |
| UserController.ActivateEffect | server/Controller/userController.js:64-68 | the update marks the one user with the email active and changes nothing else |
| UserController.SetUserStatusEffect | server/Controller/userController.js:131-135 | the update sets only the status of the user with the id and keeps both unique indexes |
| UserController.UserStore.FindByEmail | server/Controller/userController.js:9 | the user with that email, or nothing exactly when no user has it |
| UserController.UserStore.Signup | server/Controller/userController.js:9-32 | a taken email is refused and nothing changes; otherwise one inactive customer with the hashed password is appended |
| UserController.UserStore.Login | server/Controller/userController.js:45-74 | success exactly when a user with the email has a matching password; an unknown email and a wrong password get the same message and change nothing; success marks that user active, changes nothing else, and returns the updated user |
| UserController.UserStore.GetUsers | server/Controller/userController.js:87 | exactly the users whose role is `customer` |
| UserController.UserStore.DeleteUser | server/Controller/userController.js:105-109 | removes only the user with the id; always a success |
| UserController.UserStore.UpdateUserStatus | server/Controller/userController.js:124-141 | a status other than `active`/`inactive` is refused and nothing changes; otherwise only that user's status changes, and the reply carries the updated user |
| MenuController.OverwriteEffect | server/Controller/menuController.js:76-82 | the update replaces all five fields of the item with the id and leaves every other item alone |
| MenuController.MenuStore.AddMenuItem | server/Controller/menuController.js:7-28 | an empty name or category, or a numeric price of 0, is refused and nothing changes; otherwise the five fields are appended as given |
| MenuController.MenuStore.GetMenuItems | server/Controller/menuController.js:41 | every item in table order, each with its category when it exists |
| MenuController.MenuStore.DeleteMenuItem | server/Controller/menuController.js:59-63 | removes only the item with the id; always a success |
| MenuController.MenuStore.UpdateMenuItem | server/Controller/menuController.js:76-88 | no field is checked; the five fields are overwritten; the reply carries the new item exactly when the id existed |
| CategoryController.Rows | server/Controller/categoryController.js:36-39 | one row per category, in order, with the number of menu items whose category is its id |
| CategoryController.CountsAddUp | server/Controller/categoryController.js:36-39 | with unique category ids, the counts add up to the number of menu items whose category exists |
| CategoryController.AllLinked | server/Controller/categoryController.js:36-39 | when every item refers to an existing category, the counts add up to the size of the menu |
| CategoryController.CascadeCounts | server/Controller/categoryController.js:63 | after the cascade no item is left in the deleted category, and every other category keeps its count |
| CategoryController.CascadeKeepsReferences | server/Controller/categoryController.js:63-65 | if every item referred to an existing category before, it still does after the cascade |
| CategoryController.CategoryStore.AddCategory | server/Controller/categoryController.js:7-25 | an empty name is refused, and so is a name already taken (`Category already exists`); otherwise the category is appended |
| CategoryController.CategoryStore.GetCategories | server/Controller/categoryController.js:33-40 | every category in order with its item count; the counts add up to the linked menu items |
| CategoryController.CategoryStore.DeleteCategory | server/Controller/categoryController.js:63-70 | the category's items and the category are removed, other counts are unchanged, and the reply is a success even when no category had the id |
| CategoryPage.FirstMatchMeaning | adminpanel/src/CategoryPage.jsx:79-89 | the plate is chosen exactly when no keyword group matches; otherwise the icon comes from the first group that matches |
| CategoryPage.FirstMatchAt | adminpanel/src/CategoryPage.jsx:79-88 | a group that matches, after groups that do not, decides the icon |
| CategoryPage.IconIgnoresCase | adminpanel/src/CategoryPage.jsx:78 | the icon is the same for the name, its lower case and its upper case |
| CategoryPage.BurgerComesFirst | adminpanel/src/CategoryPage.jsx:79 | a name mentioning burger gets the burger icon whatever else it mentions |
| CategoryPage.SweetIceCreamIsCake | adminpanel/src/CategoryPage.jsx:85-87 | a name mentioning sweet and ice cream, and nothing earlier, gets the cake icon |
| CategoryPage.PlateByDefault | adminpanel/src/CategoryPage.jsx:89 | with no keyword in the name, the plate icon is chosen |
| CategoryPage.Search | adminpanel/src/CategoryPage.jsx:194-195 | keeps exactly the categories whose lower-cased name contains the lower-cased term |
| CategoryPage.EmptySearchKeepsAll | adminpanel/src/CategoryPage.jsx:195 | an empty term keeps every category, in order |
| CategoryPage.SearchKeepsOrder | adminpanel/src/CategoryPage.jsx:194-195 | searching two concatenated lists gives the results of the first followed by those of the second |
| CategoryPage.SearchIgnoresCase | adminpanel/src/CategoryPage.jsx:180 | an upper-cased term finds the same categories as the term |
| Text.ToLowerIdempotent | adminpanel/src/CategoryPage.jsx:78 | lower-casing twice is lower-casing once |
| Text.LowerOfUpper | adminpanel/src/CategoryPage.jsx:78 | lower-casing an upper-cased string is lower-casing the string |
| Text.JoinSnoc | server/Controller/dashboardController.js:112 | joining one more part appends the separator and the part |
| Text.JoinLength | server/Controller/dashboardController.js:112 | the joined length is the parts' lengths plus one separator between each two |
| Text.NatToStringRoundTrip | server/Controller/dashboardController.js:112 | the decimal text of a quantity reads back as that quantity |
| Sorting.SortDescSorted | adminpanel/src/OrderPage.jsx:17 | the sort's result is in non-increasing key order |
| Sorting.SortDescPermutes | adminpanel/src/OrderPage.jsx:17 | the sort's result is a permutation of its input |
| Sorting.PrefixIsTop | server/Controller/dashboardController.js:19-20 | the first n elements of a sorted sequence are sorted, come from it, and no element after them has a larger key than any of them |
| Sorting.SortInPlace | adminpanel/src/OrderPage.jsx:17 | the in-place insertion sort leaves the array equal to the sort specification of its old contents |
| OrderPage.StatusColor | adminpanel/src/OrderPage.jsx:38-45 | the gray default exactly for a value that is not one of the four statuses |
| OrderPage.StatusColorsDistinct | adminpanel/src/OrderPage.jsx:40-43 | the four statuses get four different colours |
| OrderPage.DisabledExactlyWhenTerminal | adminpanel/src/OrderPage.jsx:123 | the buttons are disabled exactly on the statuses with no documented way out |
| OrderPage.PendingCanBeMarkedDelivered | adminpanel/src/OrderPage.jsx:133 | a Pending order's "Mark Delivered" is enabled although the lifecycle does not allow Pending → Completed |
| OrderPage.RestatusIsSetStatus | adminpanel/src/OrderPage.jsx:30 | the page's `map` replacement is the server's status update |
| OrderPage.LocalUpdateMatchesRefetch | adminpanel/src/OrderPage.jsx:17-30 | updating the sorted list locally gives the list a refetch would show |
| OrderPage.OrderList.FetchOrders | adminpanel/src/OrderPage.jsx:12-18 | a successful response replaces the list with its orders sorted newest first; a failure keeps the list |
| OrderPage.OrderList.UpdateStatus | adminpanel/src/OrderPage.jsx:26-35 | only a successful response changes the list, then only the status of the order with the id; the length is kept |

## Left out

- Database and framework plumbing (mongoose queries, Express routing, server start-up) is replaced by in-memory sequences. The `catch` branches that answer "Failed to …" on a database error are not modelled.
- Mongoose validation and cast errors are not modelled: a malformed `_id`, a missing required field, or a non-numeric price.
- Dashboard.GetDashboardStats: `totalOrders` is taken as the size of the order table. The source asks the database for a separate count.
- `pendingOrders` (dashboardController.js:10) is computed but never sent, so it has no counterpart.
- Dashboard.TotalRevenue: `order.totalAmount || 0` is modelled as the amount itself. The order schema makes the amount required, so it is never missing.
- Amounts and prices (`totalAmount`, cart-line and menu prices) are JavaScript numbers and may be fractional. The model takes them as whole numbers, so fractional amounts and the floating-point rounding of the revenue total and the six monthly sums are not modelled.
- Dashboard.AvgOrderValue: `(totalRevenue / totalOrders).toFixed(0)` is floating point. The model is the exact mean rounded to the nearest integer, halves away from zero. Floating-point error near a half is not modelled.
- The ₹ prefix, `toLocaleString` and the fixed `change`/`color` strings of the four cards are display text. The cards are modelled as numbers.
- Case mapping is ASCII only. JavaScript's full Unicode `toLowerCase`/`toUpperCase` is not modelled.
- The clock and time zone are parameters: `currentMonth` and `monthOf`, which maps a timestamp to its month in the server's zone.
- Fresh `_id`s, bcrypt's salt and the creation timestamp are parameters. A precondition states that the id is not already in use.
- Records.Compare: bcrypt is idealised as an injective salted hash. Collisions and the cost factor are not modelled.
- The tie order of the database's `sort({createdAt: -1})` is unspecified. The model uses a stable sort, and so does `Array.prototype.sort` on the page.
- `Object.keys` lists integer-like keys first. The model keeps plain insertion order, which differs only for category names that are array indexes such as "12". A category named `__proto__` never becomes an own key of the plain object `{}` and so never appears in the source's category table; in the model it does.
- MenuController.MenuStore.UpdateMenuItem: the reply's `populate('category')` is not modelled. The reply carries the category id.
- MenuController.MenuStore.UpdateMenuItem: every one of the five fields is taken as sent. A field missing from the request is left out of the update (or written as null, depending on the Mongoose version) rather than overwritten, so "all five fields overwritten" holds only for a request that sends all five.
- OrderPage.OrderList.FetchOrders: the orders from `getAllOrders` have their user populated. The page model takes plain orders, since the sort and the update only read `_id`, `status` and `createdAt`.
- MenuController.MenuStore.AddMenuItem: the falsy-price test is modelled as a numeric price of 0. `NaN`, `null` and a missing price have no counterpart in an integer price. The admin form sends the price as the text of a number input, so a price sent as the string "0" is truthy, passes the test and is stored as 0; the model refuses every price of 0.
- CategoryController.CategoryStore.AddCategory: the category schema file is not part of this model. The duplicate-name refusal assumes a unique index on `name`, which is what the 11000 error branch relies on.
- The order screen's loading flag and `alert`, and the category screen's confirm dialog and other UI state, are not modelled.
- The order lifecycle's transition rules are not enforced by the server code. The model follows the code and states the absence of a guard (OrderController.NoTransitionGuard).
