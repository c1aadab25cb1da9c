/** The dashboard endpoint (server/Controller/dashboardController.js,
    getDashboardStats): summary numbers, the revenue chart, category popularity
    and the five most recent orders, computed from in-memory copies of the four
    collections. */
module Dashboard {
  import opened Wrappers
  import opened Records
  import opened Text
  import Sorting
  import Revenue
  import CategorySales

  /** `orders.reduce((sum, order) => sum + (order.totalAmount || 0), 0)`. */
  function TotalRevenue(orders: seq<Order>): int
  {
    if orders == [] then 0 else TotalRevenue(orders[..|orders| - 1]) + orders[|orders| - 1].totalAmount
  }

  /** The total of two batches of orders is the sum of their totals. */
  lemma {:induction false} TotalRevenueAppend(a: seq<Order>, b: seq<Order>)
    ensures TotalRevenue(a + b) == TotalRevenue(a) + TotalRevenue(b)
  {
    if b != [] {
      TotalRevenueAppend(a, b[..|b| - 1]);
      assert (a + b)[..|a + b| - 1] == a + b[..|b| - 1];
    } else {
      assert a + b == a;
    }
  }

  /** With no negative amounts, the revenue chart never shows more than the total. */
  lemma {:induction false} WindowWithinTotal(current: Revenue.Month, orders: seq<Order>, monthOf: int -> Revenue.Month)
    requires forall i :: 0 <= i < |orders| ==> orders[i].totalAmount >= 0
    ensures 0 <= Revenue.SumRevenue(Revenue.Window(current, orders, monthOf)) <= TotalRevenue(orders)
  {
    Revenue.WindowTotals(current, orders, monthOf);
    WindowRevenueBound(current, orders, monthOf);
  }

  lemma {:induction false} WindowRevenueBound(current: Revenue.Month, orders: seq<Order>, monthOf: int -> Revenue.Month)
    requires forall i :: 0 <= i < |orders| ==> orders[i].totalAmount >= 0
    ensures 0 <= Revenue.RevenueInWindow(current, orders, monthOf) <= TotalRevenue(orders)
  {
    if orders != [] {
      WindowRevenueBound(current, orders[..|orders| - 1], monthOf);
    }
  }

  /** `totalOrders > 0 ? (totalRevenue / totalOrders).toFixed(0) : 0`, on exact
      integers: the nearest integer to the mean, halves rounded away from zero. */
  function AvgOrderValue(totalRevenue: int, totalOrders: nat): (r: int)
    ensures totalOrders == 0 ==> r == 0
    ensures totalOrders > 0 ==> 2 * (r * totalOrders - totalRevenue) <= totalOrders
    ensures totalOrders > 0 ==> 2 * (totalRevenue - r * totalOrders) <= totalOrders
    ensures totalOrders > 0 && 2 * (r * totalOrders - totalRevenue) == totalOrders ==> totalRevenue >= 0
    ensures totalOrders > 0 && 2 * (totalRevenue - r * totalOrders) == totalOrders ==> totalRevenue < 0
  {
    if totalOrders == 0 then 0
    else if totalRevenue >= 0 then
      RoundHalfUp(totalRevenue, totalOrders);
      (2 * totalRevenue + totalOrders) / (2 * totalOrders)
    else
      RoundHalfUp(-totalRevenue, totalOrders);
      -((2 * -totalRevenue + totalOrders) / (2 * totalOrders))
  }

  lemma RoundHalfUp(a: nat, n: nat)
    requires n > 0
    ensures var q := (2 * a + n) / (2 * n);
      0 < 2 * (q * n - a) + n && 2 * (q * n - a) <= n
  {
    var q, rem := (2 * a + n) / (2 * n), (2 * a + n) % (2 * n);
    assert 2 * a + n == 2 * n * q + rem;
    assert 2 * (q * n - a) == n - rem;
  }

  /** One row of the recent-orders table. */
  datatype RecentOrder = RecentOrder(id: string, customer: string, items: string, total: int, status: Status)

  /** `s.slice(-4)`: the last four characters, or all of a shorter string. */
  function LastFour(s: string): (r: string)
    ensures |r| == if |s| < 4 then |s| else 4
    ensures r == s[|s| - |r|..]
  {
    if |s| <= 4 then s else s[|s| - 4..]
  }

  /** `#ORD-${order._id.toString().slice(-4).toUpperCase()}`. */
  function DisplayId(id: Id): (r: string)
    ensures |r| == 5 + |LastFour(id)|
    ensures r[..5] == "#ORD-"
    ensures forall k :: 5 <= k < |r| ==> r[k] == UpperChar(id[|id| - |r| + k])
  {
    "#ORD-" + ToUpper(LastFour(id))
  }

  /** `order.user ? order.user.name : 'Unknown'`. */
  function CustomerName(users: seq<User>, id: Id): (r: string)
    ensures (exists u :: u in users && u.id == id) ==> exists u :: u in users && u.id == id && r == u.name
    ensures (forall u :: u in users ==> u.id != id) ==> r == "Unknown"
  {
    match FindUser(users, id)
    case Some(u) => u.name
    case None => "Unknown"
  }

  /** `${item.quantity}x ${item.title}`. */
  function LineText(item: CartItem): string
  {
    IntToString(item.quantity) + "x " + item.title
  }

  /** `order.cartItems.map(item => ...).join(', ')`. */
  function ItemsSummary(cart: seq<CartItem>): (r: string)
    ensures cart == [] ==> r == ""
    ensures |cart| == 1 ==> r == LineText(cart[0])
  {
    Join(seq(|cart|, i requires 0 <= i < |cart| => LineText(cart[i])), ", ")
  }

  /** Adding a line to a non-empty cart appends `", "` and the line's text. */
  lemma ItemsSummarySnoc(cart: seq<CartItem>, item: CartItem)
    requires cart != []
    ensures ItemsSummary(cart + [item]) == ItemsSummary(cart) + ", " + LineText(item)
  {
    var parts := seq(|cart|, i requires 0 <= i < |cart| => LineText(cart[i]));
    assert seq(|cart + [item]|, i requires 0 <= i < |cart + [item]| => LineText((cart + [item])[i]))
        == parts + [LineText(item)];
    JoinSnoc(parts, LineText(item), ", ");
  }

  function ProjectOrder(o: Order, users: seq<User>): RecentOrder
  {
    RecentOrder(DisplayId(o.id), CustomerName(users, o.user), ItemsSummary(o.cartItems), o.totalAmount, o.status)
  }

  function Min(a: int, b: int): int { if a < b then a else b }

  /** `Order.find().sort({createdAt: -1}).limit(5)`. */
  function Newest(orders: seq<Order>): seq<Order>
  {
    Sorting.SortDesc(orders, CreatedAt)[..Min(5, |orders|)]
  }

  /** The recent-orders table as a value. */
  function RecentOrders(orders: seq<Order>, users: seq<User>): seq<RecentOrder>
  {
    var newest := Newest(orders);
    seq(|newest|, i requires 0 <= i < |newest| => ProjectOrder(newest[i], users))
  }

  /** At most five orders are shown, newest first, each taken from the table, and
      no order left out is newer than the oldest one shown. */
  lemma NewestAreNewest(orders: seq<Order>)
    ensures |Newest(orders)| == Min(5, |orders|)
    ensures Sorting.SortedDesc(Newest(orders), CreatedAt)
    ensures multiset(Newest(orders)) <= multiset(orders)
    ensures forall o :: o in multiset(orders) - multiset(Newest(orders)) ==>
      forall i :: 0 <= i < |Newest(orders)| ==> o.createdAt <= Newest(orders)[i].createdAt
  {
    var sorted := Sorting.SortDesc(orders, CreatedAt);
    Sorting.SortDescSorted(orders, CreatedAt);
    Sorting.SortDescPermutes(orders, CreatedAt);
    Sorting.PrefixIsTop(sorted, Min(5, |orders|), CreatedAt);
  }

  /** With no orders every card and chart is empty: no revenue, an average of 0,
      six months at zero, every category at zero sales and no recent orders. */
  lemma EmptyDashboard(users: seq<User>, categories: seq<Category>, menuItems: seq<MenuItem>,
                       current: Revenue.Month, monthOf: int -> Revenue.Month)
    ensures TotalRevenue([]) == 0 && AvgOrderValue(0, 0) == 0
    ensures RecentOrders([], users) == []
    ensures forall p :: p in Revenue.Window(current, [], monthOf) ==> p.revenue == 0 && p.orders == 0
    ensures forall e :: e in CategorySales.CategoryData([], menuItems, categories) ==> e.sales == 0
  {
    CategorySales.CategoryDataEntries([], menuItems, categories);
  }

  /** The dashboard's four summary cards, as numbers. */
  datatype Stats = Stats(totalRevenue: int, totalOrders: nat, avgOrderValue: int, newCustomers: nat)

  datatype DashboardData = DashboardData(
    stats: Stats,
    revenueData: seq<Revenue.RevenuePoint>,
    categoryData: seq<CategorySales.CategorySale>,
    recentOrders: seq<RecentOrder>)

  /** The recent-orders query and its projection. */
  method BuildRecentOrders(orders: seq<Order>, users: seq<User>) returns (recent: seq<RecentOrder>)
    ensures recent == RecentOrders(orders, users)
  {
    var a := new Order[|orders|](i requires 0 <= i < |orders| => orders[i]);
    assert a[..] == orders;
    Sorting.SortInPlace(a, CreatedAt);
    var n := Min(5, a.Length);
    var newest := a[..n];
    assert newest == Newest(orders);
    recent := seq(n, k requires 0 <= k < n => ProjectOrder(newest[k], users));
  }

  /** getDashboardStats. `totalOrders` is the size of the order table;
      `currentMonth` and `monthOf` stand for the server clock. */
  method GetDashboardStats(
    orders: seq<Order>, users: seq<User>, categories: seq<Category>, menuItems: seq<MenuItem>,
    currentMonth: Revenue.Month, monthOf: int -> Revenue.Month)
    returns (d: DashboardData)
    ensures d.stats.totalOrders == |orders|
    ensures d.stats.totalRevenue == TotalRevenue(orders)
    ensures d.stats.avgOrderValue == AvgOrderValue(TotalRevenue(orders), |orders|)
    ensures d.stats.newCustomers == |Customers(users)|
    ensures d.revenueData == Revenue.Window(currentMonth, orders, monthOf)
    ensures d.categoryData == CategorySales.CategoryData(orders, menuItems, categories)
    ensures d.recentOrders == RecentOrders(orders, users)
  {
    var totalOrders := |orders|;
    var totalCustomers := |Customers(users)|;
    var totalRevenue := 0;
    var i := 0;
    while i < |orders|
      invariant 0 <= i <= |orders|
      invariant totalRevenue == TotalRevenue(orders[..i])
    {
      assert orders[..i + 1][..i] == orders[..i];
      totalRevenue := totalRevenue + orders[i].totalAmount;
      i := i + 1;
    }
    assert orders[..i] == orders;
    var recent := BuildRecentOrders(orders, users);
    var revenueData := Revenue.BuildRevenueData(currentMonth, orders, monthOf);
    var categoryData := CategorySales.BuildCategoryData(orders, menuItems, categories);
    var avg := AvgOrderValue(totalRevenue, totalOrders);
    d := DashboardData(Stats(totalRevenue, totalOrders, avg, totalCustomers), revenueData, categoryData, recent);
  }
}
