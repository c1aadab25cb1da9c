/** Revenue trends of the dashboard (server/Controller/dashboardController.js,
    getDashboardStats): six month buckets, oldest first, fed by every order whose
    creation month has the bucket's label. */
module Revenue {
  import opened Wrappers
  import opened Records

  /** A month index as `Date.prototype.getMonth` returns it: 0 is January. */
  type Month = m: int | 0 <= m < 12

  const MonthNames: seq<string> :=
    ["Jan", "Feb", "Mar", "Apr", "May", "Jun", "Jul", "Aug", "Sep", "Oct", "Nov", "Dec"]

  lemma MonthNamesDistinct()
    ensures |MonthNames| == 12
    ensures forall i, j :: 0 <= i < j < 12 ==> MonthNames[i] != MonthNames[j]
  {
  }

  /** One point of the revenue chart. */
  datatype RevenuePoint = RevenuePoint(name: string, revenue: int, orders: nat)

  /** The label of bucket `k` (0 is the oldest, 5 the current month). */
  function Label(current: Month, k: int): string
    requires 0 <= k < 6
  {
    MonthNames[(current - (5 - k) + 12) % 12]
  }

  /** The label an order is matched by: the name of its creation month.
      `monthOf` is the calendar month of a timestamp in the server's time zone. */
  function OrderMonthName(o: Order, monthOf: int -> Month): string
  {
    MonthNames[monthOf(o.createdAt)]
  }

  /** Sum of `totalAmount` over the orders whose creation month is named `name`. */
  function RevenueIn(orders: seq<Order>, monthOf: int -> Month, name: string): int
  {
    if orders == [] then 0
    else
      var last := orders[|orders| - 1];
      RevenueIn(orders[..|orders| - 1], monthOf, name)
        + (if OrderMonthName(last, monthOf) == name then last.totalAmount else 0)
  }

  /** Number of orders whose creation month is named `name`. */
  function OrdersIn(orders: seq<Order>, monthOf: int -> Month, name: string): nat
  {
    if orders == [] then 0
    else
      var last := orders[|orders| - 1];
      OrdersIn(orders[..|orders| - 1], monthOf, name)
        + (if OrderMonthName(last, monthOf) == name then 1 else 0)
  }

  /** The revenue chart the dashboard reports, as a value. */
  function Window(current: Month, orders: seq<Order>, monthOf: int -> Month): (w: seq<RevenuePoint>)
    ensures |w| == 6
  {
    seq(6, k requires 0 <= k < 6 =>
      RevenuePoint(Label(current, k), RevenueIn(orders, monthOf, Label(current, k)),
                   OrdersIn(orders, monthOf, Label(current, k))))
  }

  /** Month `m` lies in the six months that end with `current`. */
  predicate InWindow(current: Month, m: Month)
  {
    (current - m + 12) % 12 < 6
  }

  /** Where an order of month `m` lands, by arithmetic on month indices: an
      independent statement of what matching by label achieves. */
  function BucketOf(current: Month, m: Month): (r: Option<nat>)
    ensures r.Some? ==> r.value < 6
  {
    if InWindow(current, m) then Some(5 - (current - m + 12) % 12) else None
  }

  /** Matching by label finds exactly the bucket `BucketOf` names, and no bucket
      when the month is older than the window. */
  lemma LabelMatchesBucket(current: Month, m: Month, k: int)
    requires 0 <= k < 6
    ensures Label(current, k) == MonthNames[m] <==> BucketOf(current, m) == Some(k)
  {
    MonthNamesDistinct();
    var w := current - (5 - k) + 12;
    Mod12(w);
    Mod12(current - m + 12);
  }

  /** `%` by 12 on the small non-negative values the window arithmetic produces. */
  lemma Mod12(x: int)
    requires 0 <= x < 24
    ensures x % 12 == if x < 12 then x else x - 12
  {
  }

  /** The six labels are distinct. */
  lemma LabelsDistinct(current: Month)
    ensures forall k, l :: 0 <= k < l < 6 ==> Label(current, k) != Label(current, l)
  {
    MonthNamesDistinct();
  }

  /** `revenueData.find(d => d.name === monthName)`: the first point with that name. */
  function FindPoint(data: seq<RevenuePoint>, name: string): (r: Option<nat>)
    ensures r.Some? ==> r.value < |data| && data[r.value].name == name
    ensures r.Some? ==> forall j :: 0 <= j < r.value ==> data[j].name != name
    ensures r.None? ==> forall j :: 0 <= j < |data| ==> data[j].name != name
  {
    if data == [] then None
    else if data[0].name == name then Some(0)
    else match FindPoint(data[1..], name)
      case None => None
      case Some(j) => Some(j + 1)
  }

  function AddOrder(p: RevenuePoint, o: Order): RevenuePoint
  {
    p.(revenue := p.revenue + o.totalAmount, orders := p.orders + 1)
  }

  /** One order feeds exactly the bucket `BucketOf` names for its month, and
      leaves every other bucket as it was. */
  lemma {:induction false} OrderFeedsOneBucket(current: Month, orders: seq<Order>, o: Order, monthOf: int -> Month)
    ensures var before, after := Window(current, orders, monthOf), Window(current, orders + [o], monthOf);
      match BucketOf(current, monthOf(o.createdAt))
      case None => after == before
      case Some(k) => after == before[k := AddOrder(before[k], o)]
  {
    var os := orders + [o];
    assert os[..|os| - 1] == orders;
    var before, after := Window(current, orders, monthOf), Window(current, os, monthOf);
    forall k | 0 <= k < 6
      ensures after[k] == if BucketOf(current, monthOf(o.createdAt)) == Some(k)
                          then AddOrder(before[k], o) else before[k]
    {
      LabelMatchesBucket(current, monthOf(o.createdAt), k);
    }
  }

  /** The dashboard's loop: six zero points pushed oldest first, then every order
      added to the point its month name finds. */
  method BuildRevenueData(current: Month, orders: seq<Order>, monthOf: int -> Month)
    returns (data: seq<RevenuePoint>)
    ensures data == Window(current, orders, monthOf)
  {
    data := [];
    var i := 5;
    while i >= 0
      invariant -1 <= i <= 5
      invariant |data| == 5 - i
      invariant forall k :: 0 <= k < |data| ==> data[k] == RevenuePoint(Label(current, k), 0, 0)
    {
      var m := (current - i + 12) % 12;
      data := data + [RevenuePoint(MonthNames[m], 0, 0)];
      i := i - 1;
    }
    assert data == Window(current, [], monthOf);
    var n := 0;
    while n < |orders|
      invariant 0 <= n <= |orders|
      invariant data == Window(current, orders[..n], monthOf)
    {
      var o := orders[n];
      var found := FindPoint(data, MonthNames[monthOf(o.createdAt)]);
      OrderFeedsOneBucket(current, orders[..n], o, monthOf);
      if found.Some? {
        var k := found.value;
        LabelMatchesBucket(current, monthOf(o.createdAt), k);
        data := data[k := AddOrder(data[k], o)];
      } else {
        forall k | 0 <= k < 6 ensures BucketOf(current, monthOf(o.createdAt)) != Some(k) {
          LabelMatchesBucket(current, monthOf(o.createdAt), k);
        }
      }
      assert orders[..n + 1] == orders[..n] + [o];
      n := n + 1;
    }
    assert orders[..n] == orders;
  }

  function SumOrders(data: seq<RevenuePoint>): int
  {
    if data == [] then 0 else data[0].orders + SumOrders(data[1..])
  }

  function SumRevenue(data: seq<RevenuePoint>): int
  {
    if data == [] then 0 else data[0].revenue + SumRevenue(data[1..])
  }

  /** Number of orders created inside the window. */
  function CountInWindow(current: Month, orders: seq<Order>, monthOf: int -> Month): nat
  {
    if orders == [] then 0
    else
      var last := orders[|orders| - 1];
      CountInWindow(current, orders[..|orders| - 1], monthOf)
        + (if InWindow(current, monthOf(last.createdAt)) then 1 else 0)
  }

  /** Revenue of the orders created inside the window. */
  function RevenueInWindow(current: Month, orders: seq<Order>, monthOf: int -> Month): int
  {
    if orders == [] then 0
    else
      var last := orders[|orders| - 1];
      RevenueInWindow(current, orders[..|orders| - 1], monthOf)
        + (if InWindow(current, monthOf(last.createdAt)) then last.totalAmount else 0)
  }

  lemma {:induction false} SumsAfterUpdate(data: seq<RevenuePoint>, k: nat, o: Order)
    requires k < |data|
    ensures SumOrders(data[k := AddOrder(data[k], o)]) == SumOrders(data) + 1
    ensures SumRevenue(data[k := AddOrder(data[k], o)]) == SumRevenue(data) + o.totalAmount
  {
    if k > 0 {
      SumsAfterUpdate(data[1..], k - 1, o);
      assert data[k := AddOrder(data[k], o)][1..] == data[1..][k - 1 := AddOrder(data[k], o)];
    }
  }

  lemma {:induction false} SumsOfEmptyPoints(data: seq<RevenuePoint>)
    requires forall k :: 0 <= k < |data| ==> data[k].orders == 0 && data[k].revenue == 0
    ensures SumOrders(data) == 0 && SumRevenue(data) == 0
  {
    if data != [] {
      SumsOfEmptyPoints(data[1..]);
    }
  }

  /** Every order inside the window is counted once over all buckets, and its
      amount lands in the chart; orders outside the window are not counted. */
  lemma {:induction false} WindowTotals(current: Month, orders: seq<Order>, monthOf: int -> Month)
    ensures SumOrders(Window(current, orders, monthOf)) == CountInWindow(current, orders, monthOf)
    ensures SumRevenue(Window(current, orders, monthOf)) == RevenueInWindow(current, orders, monthOf)
  {
    if orders == [] {
      SumsOfEmptyPoints(Window(current, orders, monthOf));
    } else {
      var init, o := orders[..|orders| - 1], orders[|orders| - 1];
      WindowTotals(current, init, monthOf);
      assert init + [o] == orders;
      OrderFeedsOneBucket(current, init, o, monthOf);
      match BucketOf(current, monthOf(o.createdAt))
      case None =>
      case Some(k) => SumsAfterUpdate(Window(current, init, monthOf), k, o);
    }
  }
}
