/** The order endpoints (server/Controller/orderController.js) over the Order
    collection. The status update checks the value against the four names of
    the enum and nothing else: any order, terminal or not, can be moved to any
    status. */
module OrderController {
  import opened Wrappers
  import opened Records
  import Sorting
  import UserController

  /** The `name email` projection of `populate('user', 'name email')`. */
  datatype UserSummary = UserSummary(id: Id, name: string, email: string)

  /** An order as getAllOrders returns it: the user id replaced by the user's
      summary, or by nothing when the user no longer exists. */
  datatype PopulatedOrder = PopulatedOrder(order: Order, user: Option<UserSummary>)

  function Summary(u: User): UserSummary
  {
    UserSummary(u.id, u.name, u.email)
  }

  /** The orders of one user (`find({user: userId})`). */
  function OrdersOf(os: seq<Order>, userId: Id): (r: seq<Order>)
  {
    Filter(os, (o: Order) => o.user == userId)
  }

  /** No guard protects a terminal order: the update is applied whatever the
      current status, Completed and Cancelled included. */
  lemma NoTransitionGuard(os: seq<Order>, i: nat, st: Status)
    requires OrderIdsUnique(os) && i < |os|
    ensures SetStatus(os, os[i].id, st)[i] == os[i].(status := st)
    ensures forall j :: 0 <= j < |os| && j != i ==> SetStatus(os, os[i].id, st)[j] == os[j]
  {
    SetStatusEffect(os, os[i].id, st);
    forall j | 0 <= j < |os| && j != i ensures os[j].id != os[i].id {
      if j < i {
        assert OrderId(os[j]) != OrderId(os[i]);
      } else {
        assert OrderId(os[i]) != OrderId(os[j]);
      }
    }
  }

  class OrderStore {
    var orders: seq<Order>
    const users: UserController.UserStore

    /** `_id` is unique across the collection. */
    ghost predicate Valid()
      reads this
    {
      OrderIdsUnique(orders)
    }

    constructor (users: UserController.UserStore)
      ensures Valid() && orders == [] && this.users == users
    {
      this.orders := [];
      this.users := users;
    }

    /** createOrder: the order is stored as given, with status Pending whatever
        the client sent. `id` and `now` stand for the fresh `_id` and the clock. */
    method CreateOrder(id: Id, userId: Id, shippingAddress: ShippingAddress, cartItems: seq<CartItem>,
                       totalAmount: int, now: int) returns (r: Reply<Order>)
      requires Valid()
      requires forall o :: o in orders ==> o.id != id
      modifies this
      ensures Valid()
      ensures r == Success("Order placed successfully",
                           Order(id, userId, shippingAddress, cartItems, totalAmount, Pending, now))
      ensures orders == old(orders) + [r.data]
    {
      var o := Order(id, userId, shippingAddress, cartItems, totalAmount, Pending, now);
      ghost var before := orders;
      orders := orders + [o];
      forall i, j | 0 <= i < j < |orders| ensures orders[i].id != orders[j].id {
        if j < |before| {
          assert OrderId(before[i]) != OrderId(before[j]);
        } else {
          assert before[i] in before;
        }
      }
      r := Success("Order placed successfully", o);
    }

    /** getAllOrders: every order in table order, each with its user resolved. */
    function GetAllOrders(): (r: seq<PopulatedOrder>)
      reads this, users
      ensures |r| == |orders|
      ensures forall i :: 0 <= i < |r| ==> r[i].order == orders[i]
      ensures forall i :: 0 <= i < |r| ==>
        (r[i].user.Some? <==> exists u :: u in users.users && u.id == orders[i].user)
      ensures forall i :: 0 <= i < |r| && r[i].user.Some? ==>
        exists u :: u in users.users && u.id == orders[i].user && r[i].user.value == Summary(u)
    {
      seq(|orders|, i requires 0 <= i < |orders| reads this, users =>
        PopulatedOrder(orders[i],
          match FindUser(users.users, orders[i].user)
          case Some(u) => Some(Summary(u))
          case None => None))
    }

    /** updateOrderStatus: a value outside the enum is refused and nothing
        changes; otherwise the order with `id` takes that status, and the reply
        carries it (nothing when no order has the id). */
    method UpdateOrderStatus(id: Id, status: string) returns (r: Reply<Option<Order>>)
      requires Valid()
      modifies this
      ensures Valid()
      ensures ParseStatus(status).None? ==> r == Failure("Invalid status value") && orders == old(orders)
      ensures ParseStatus(status).Some? ==>
        r.Success? && r.message == "Order status updated successfully" &&
        orders == SetStatus(old(orders), id, ParseStatus(status).value) &&
        r.data == FindBy(orders, OrderId, id)
      ensures ParseStatus(status).Some? && (exists o :: o in old(orders) && o.id == id) ==>
        r.data.Some? && r.data.value.id == id && r.data.value.status == ParseStatus(status).value
    {
      var st := ParseStatus(status);
      if st.None? {
        r := Failure("Invalid status value");
        return;
      }
      ghost var before := orders;
      SetStatusEffect(orders, id, st.value);
      orders := SetStatus(orders, id, st.value);
      var found := FindBy(orders, OrderId, id);
      if exists o :: o in before && o.id == id {
        var o :| o in before && o.id == id;
        var k :| 0 <= k < |before| && before[k] == o;
        assert orders[k].id == id;
      }
      r := Success("Order status updated successfully", found);
    }

    /** getUserOrders: the user's orders, newest first. */
    function GetUserOrders(userId: Id): (r: seq<Order>)
      reads this
      ensures Sorting.SortedDesc(r, CreatedAt)
      ensures multiset(r) == multiset(OrdersOf(orders, userId))
      ensures forall o :: o in r <==> o in orders && o.user == userId
    {
      var mine := OrdersOf(orders, userId);
      Sorting.SortDescSorted(mine, CreatedAt);
      Sorting.SortDescPermutes(mine, CreatedAt);
      Sorting.SortDescSameElements(mine, CreatedAt);
      Sorting.SortDesc(mine, CreatedAt)
    }
  }
}
