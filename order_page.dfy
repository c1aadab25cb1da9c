/** The order screen (adminpanel/src/OrderPage.jsx): the fetched list sorted
    newest first, the local status update after a successful request, the
    guard that disables the status buttons, and the badge colour of a status. */
module OrderPage {
  import opened Wrappers
  import opened Records
  import Sorting

  const PendingColor := "bg-yellow-100 text-yellow-800 border-yellow-200"
  const PreparingColor := "bg-blue-100 text-blue-800 border-blue-200"
  const CompletedColor := "bg-green-100 text-green-800 border-green-200"
  const CancelledColor := "bg-red-100 text-red-800 border-red-200"
  const DefaultColor := "bg-gray-100 text-gray-800 border-gray-200"

  /** getStatusColor: a class list per known status, gray for anything else. */
  function StatusColor(status: string): (r: string)
    ensures r == DefaultColor <==> ParseStatus(status).None?
  {
    match status
    case "Pending" => PendingColor
    case "Preparing" => PreparingColor
    case "Completed" => CompletedColor
    case "Cancelled" => CancelledColor
    case _ => DefaultColor
  }

  /** The four statuses get four different badges. */
  lemma StatusColorsDistinct(a: Status, b: Status)
    requires a != b
    ensures StatusColor(StatusName(a)) != StatusColor(StatusName(b))
  {
  }

  /** `order.status === 'Completed' || order.status === 'Cancelled'`: the
      condition that disables all three status buttons of an order. */
  predicate ActionsDisabled(st: Status)
  {
    st == Completed || st == Cancelled
  }

  /** The order lifecycle as documented for the system: Pending moves to
      Preparing or Cancelled, Preparing to Completed or Cancelled. The server
      does not check it. */
  predicate DocumentedTransition(from: Status, to: Status)
  {
    (from == Pending && (to == Preparing || to == Cancelled)) ||
    (from == Preparing && (to == Completed || to == Cancelled))
  }

  /** The buttons are disabled exactly on the statuses the lifecycle has no way out of. */
  lemma DisabledExactlyWhenTerminal(st: Status)
    ensures ActionsDisabled(st) <==> forall to: Status :: !DocumentedTransition(st, to)
  {
    if !ActionsDisabled(st) {
      assert DocumentedTransition(st, Cancelled);
    }
  }

  /** The guard is coarser than the lifecycle: a Pending order can be marked
      delivered directly, which the lifecycle does not list. */
  lemma PendingCanBeMarkedDelivered()
    ensures !ActionsDisabled(Pending) && !DocumentedTransition(Pending, Completed)
  {
  }

  /** The `{...order, status}` replacement of updateStatus, as a function on one order. */
  function Restatus(id: Id, st: Status): Order -> Order
  {
    (o: Order) => if o.id == id then o.(status := st) else o
  }

  lemma RestatusIsSetStatus(os: seq<Order>, id: Id, st: Status)
    ensures Sorting.Apply(os, Restatus(id, st)) == SetStatus(os, id, st)
  {
  }

  /** Updating the status locally gives the list a refetch would show: the local
      update commutes with the newest-first sort. */
  lemma LocalUpdateMatchesRefetch(os: seq<Order>, id: Id, st: Status)
    ensures Sorting.SortDesc(SetStatus(os, id, st), CreatedAt) == SetStatus(Sorting.SortDesc(os, CreatedAt), id, st)
  {
    Sorting.SortDescApply(os, CreatedAt, Restatus(id, st));
    RestatusIsSetStatus(os, id, st);
    RestatusIsSetStatus(Sorting.SortDesc(os, CreatedAt), id, st);
  }

  /** The page's `orders` state. */
  class OrderList {
    var orders: seq<Order>

    constructor ()
      ensures orders == []
    {
      orders := [];
    }

    /** fetchOrders: a successful response replaces the list with its orders,
        sorted in place newest first; a failure leaves the list as it was. */
    method FetchOrders(response: Reply<seq<Order>>)
      modifies this
      ensures response.Success? ==> orders == Sorting.SortDesc(response.data, CreatedAt)
      ensures response.Failure? ==> orders == old(orders)
    {
      if response.Success? {
        var data := response.data;
        var a := new Order[|data|](i requires 0 <= i < |data| => data[i]);
        assert a[..] == data;
        Sorting.SortInPlace(a, CreatedAt);
        orders := a[..];
      }
    }

    /** updateStatus: only a successful response changes the list, and then only
        the status of the orders with `orderId`. */
    method UpdateStatus(orderId: Id, newStatus: Status, response: Reply<Option<Order>>)
      modifies this
      ensures response.Success? ==> orders == SetStatus(old(orders), orderId, newStatus)
      ensures response.Failure? ==> orders == old(orders)
      ensures |orders| == |old(orders)|
      ensures forall i :: 0 <= i < |orders| && old(orders)[i].id != orderId ==> orders[i] == old(orders)[i]
    {
      if response.Success? {
        orders := SetStatus(orders, orderId, newStatus);
      }
    }
  }
}
