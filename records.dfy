/** The four collections of the record store and the shapes of their documents
    (the Mongoose schemas under server/Schema), with the lookups the controllers share. */
module Records {
  import opened Wrappers

  type Id = string

  /** The order status enum of the order schema. */
  datatype Status = Pending | Preparing | Completed | Cancelled

  function StatusName(st: Status): string
  {
    match st
    case Pending => "Pending"
    case Preparing => "Preparing"
    case Completed => "Completed"
    case Cancelled => "Cancelled"
  }

  /** The whitelist test of updateOrderStatus: one of the four names, or nothing. */
  function ParseStatus(s: string): (r: Option<Status>)
    ensures r.Some? <==> s in {"Pending", "Preparing", "Completed", "Cancelled"}
    ensures r.Some? ==> StatusName(r.value) == s
  {
    if s == "Pending" then Some(Pending)
    else if s == "Preparing" then Some(Preparing)
    else if s == "Completed" then Some(Completed)
    else if s == "Cancelled" then Some(Cancelled)
    else None
  }

  /** Every status survives being written out and read back. */
  lemma StatusRoundTrip(st: Status)
    ensures ParseStatus(StatusName(st)) == Some(st)
  {
  }

  datatype ShippingAddress = ShippingAddress(
    name: string, email: string, phone: string,
    country: string, city: string, postalCode: string)

  /** One cart line: `id` names the menu item, title and price are a snapshot. */
  datatype CartItem = CartItem(id: Id, title: string, price: int, quantity: int, image: string)

  /** An order; `createdAt` is a timestamp in milliseconds. */
  datatype Order = Order(
    id: Id, user: Id, shippingAddress: ShippingAddress, cartItems: seq<CartItem>,
    totalAmount: int, status: Status, createdAt: int)

  /** The sort key of every "newest first" listing. */
  function CreatedAt(o: Order): int { o.createdAt }

  /** The password field of a user: an idealised salted hash (no cryptography). */
  datatype PasswordHash = PasswordHash(salt: string, digest: string)

  function Hash(password: string, salt: string): PasswordHash
  {
    PasswordHash(salt, password)
  }

  /** bcrypt.compare: a password matches exactly the hash made from it. */
  function Compare(password: string, h: PasswordHash): (ok: bool)
    ensures ok <==> exists salt :: h == Hash(password, salt)
  {
    assert h == Hash(h.digest, h.salt);
    h.digest == password
  }

  /** A password matches the hash made from it and no other password does. */
  lemma HashThenCompare(password: string, other: string, salt: string)
    ensures Compare(password, Hash(password, salt))
    ensures other != password ==> !Compare(other, Hash(password, salt))
  {
  }

  /** The status enum of the user schema. */
  datatype UserStatus = Active | Inactive

  function UserStatusName(st: UserStatus): string
  {
    match st
    case Active => "active"
    case Inactive => "inactive"
  }

  /** The whitelist test of updateUserStatus: `active`, `inactive`, or nothing. */
  function ParseUserStatus(s: string): (r: Option<UserStatus>)
    ensures r.Some? <==> s == "active" || s == "inactive"
    ensures r.Some? ==> UserStatusName(r.value) == s
  {
    if s == "active" then Some(Active)
    else if s == "inactive" then Some(Inactive)
    else None
  }

  datatype User = User(
    id: Id, name: string, email: string, password: PasswordHash,
    role: string, status: UserStatus, joinDate: int)

  datatype Category = Category(id: Id, name: string)

  datatype MenuItem = MenuItem(
    id: Id, name: string, description: string, category: Id, price: int, image: string)

  /** No two elements of `s` share a key: a unique index of the store. */
  predicate KeysUnique<T>(s: seq<T>, key: T -> Id)
  {
    forall i, j :: 0 <= i < j < |s| ==> key(s[i]) != key(s[j])
  }

  function OrderId(o: Order): Id { o.id }
  function UserId(u: User): Id { u.id }
  function UserEmail(u: User): string { u.email }
  function CategoryId(c: Category): Id { c.id }
  function CategoryName(c: Category): string { c.name }
  function MenuItemId(m: MenuItem): Id { m.id }

  predicate OrderIdsUnique(os: seq<Order>) { KeysUnique(os, OrderId) }
  predicate UserIdsUnique(us: seq<User>) { KeysUnique(us, UserId) }
  predicate EmailsUnique(us: seq<User>) { KeysUnique(us, UserEmail) }
  predicate CategoryIdsUnique(cs: seq<Category>) { KeysUnique(cs, CategoryId) }
  predicate CategoryNamesUnique(cs: seq<Category>) { KeysUnique(cs, CategoryName) }
  predicate MenuIdsUnique(ms: seq<MenuItem>) { KeysUnique(ms, MenuItemId) }

  /** Under a unique index, a key names at most one element. */
  lemma SameKeySameElement<T>(s: seq<T>, key: T -> Id, x: T, y: T)
    requires KeysUnique(s, key)
    requires x in s && y in s && key(x) == key(y)
    ensures x == y
  {
    var i :| 0 <= i < |s| && s[i] == x;
    var j :| 0 <= j < |s| && s[j] == y;
  }

  /** The effect of setting the status of the order(s) with `id`: the UI's
      `orders.map(o => o._id === id ? {...o, status} : o)` and, on a table
      with unique ids, the store's findByIdAndUpdate. */
  function SetStatus(os: seq<Order>, id: Id, st: Status): (r: seq<Order>)
    ensures |r| == |os|
  {
    seq(|os|, i requires 0 <= i < |os| => if os[i].id == id then os[i].(status := st) else os[i])
  }

  /** Setting a status touches only the status of the orders named, and keeps
      the ids unique. */
  lemma SetStatusEffect(os: seq<Order>, id: Id, st: Status)
    requires OrderIdsUnique(os)
    ensures var r := SetStatus(os, id, st);
      OrderIdsUnique(r) &&
      (forall i :: 0 <= i < |os| && os[i].id != id ==> r[i] == os[i]) &&
      (forall i :: 0 <= i < |os| && os[i].id == id ==> r[i] == os[i].(status := st))
  {
    var r := SetStatus(os, id, st);
    forall i, j | 0 <= i < j < |r| ensures r[i].id != r[j].id {
      assert OrderId(os[i]) != OrderId(os[j]);
    }
  }

  /** Of two status updates to the same order, the later one is what remains. */
  lemma SetStatusLastWins(os: seq<Order>, id: Id, first: Status, second: Status)
    ensures SetStatus(SetStatus(os, id, first), id, second) == SetStatus(os, id, second)
  {
  }

  /** The elements of `s` that pass `keep`, in their order (a `find` with a filter,
      a `deleteMany` seen from what remains). */
  function Filter<T(!new)>(s: seq<T>, keep: T -> bool): (r: seq<T>)
    ensures |r| <= |s|
    ensures forall x :: x in r <==> x in s && keep(x)
  {
    if s == [] then [] else (if keep(s[0]) then [s[0]] else []) + Filter(s[1..], keep)
  }

  /** A filter that keeps everything is the identity. */
  lemma {:induction false} FilterAll<T(!new)>(s: seq<T>, keep: T -> bool)
    requires forall x :: x in s ==> keep(x)
    ensures Filter(s, keep) == s
  {
    if s != [] {
      assert s[0] in s;
      FilterAll(s[1..], keep);
      assert [s[0]] + s[1..] == s;
    }
  }

  /** Filtering keeps order: it distributes over concatenation. */
  lemma {:induction false} FilterAppend<T(!new)>(a: seq<T>, b: seq<T>, keep: T -> bool)
    ensures Filter(a + b, keep) == Filter(a, keep) + Filter(b, keep)
  {
    if a == [] {
      assert a + b == b;
    } else {
      var head := if keep(a[0]) then [a[0]] else [];
      assert (a + b)[0] == a[0] && (a + b)[1..] == a[1..] + b;
      assert Filter(a + b, keep) == head + Filter(a[1..] + b, keep);
      FilterAppend(a[1..], b, keep);
      assert Filter(a, keep) == head + Filter(a[1..], keep);
    }
  }

  /** Two tests that agree on every element filter alike. */
  lemma {:induction false} FilterSame<T(!new)>(s: seq<T>, p: T -> bool, q: T -> bool)
    requires forall x :: x in s ==> p(x) == q(x)
    ensures Filter(s, p) == Filter(s, q)
  {
    if s != [] {
      assert s[0] in s;
      FilterSame(s[1..], p, q);
    }
  }

  /** Filtering never makes two elements share a key. */
  lemma {:induction false} FilterKeepsKeysUnique<T(!new)>(s: seq<T>, keep: T -> bool, key: T -> Id)
    requires KeysUnique(s, key)
    ensures KeysUnique(Filter(s, keep), key)
  {
    if s != [] {
      FilterKeepsKeysUnique(s[1..], keep, key);
      var rest := Filter(s[1..], keep);
      if keep(s[0]) {
        forall k | 0 <= k < |rest| ensures key(rest[k]) != key(s[0]) {
          assert rest[k] in s[1..];
          var m :| 0 <= m < |s[1..]| && s[1..][m] == rest[k];
          assert s[m + 1] == rest[k];
        }
        ConsKeysUnique(s[0], rest, key);
      }
    }
  }

  lemma ConsKeysUnique<T>(x: T, s: seq<T>, key: T -> Id)
    requires KeysUnique(s, key)
    requires forall k :: 0 <= k < |s| ==> key(s[k]) != key(x)
    ensures KeysUnique([x] + s, key)
  {
    var r := [x] + s;
    forall i, j | 0 <= i < j < |r| ensures key(r[i]) != key(r[j]) {
      assert r[j] == s[j - 1];
      if i > 0 {
        assert r[i] == s[i - 1];
      }
    }
  }

  /** The first element of `s` with key `k` (`findOne`, `findById`). */
  function FindBy<T(!new)>(s: seq<T>, key: T -> Id, k: Id): (r: Option<T>)
    ensures r.Some? ==> r.value in s && key(r.value) == k
    ensures r.None? <==> forall x :: x in s ==> key(x) != k
  {
    if s == [] then None else if key(s[0]) == k then Some(s[0]) else FindBy(s[1..], key, k)
  }

  /** Where keys are unique, the element found by key is the one with that key. */
  lemma FindByUnique<T(!new)>(s: seq<T>, key: T -> Id, x: T)
    requires KeysUnique(s, key) && x in s
    ensures FindBy(s, key, key(x)) == Some(x)
  {
    var r := FindBy(s, key, key(x));
    SameKeySameElement(s, key, x, r.value);
  }

  /** The users whose role is `customer`, in table order (`find({role: 'customer'})`). */
  function Customers(us: seq<User>): (r: seq<User>)
    ensures |r| <= |us|
    ensures forall u :: u in r <==> u in us && u.role == "customer"
  {
    Filter(us, (u: User) => u.role == "customer")
  }

  /** The user with a given id, as `populate('user')` resolves it. */
  function FindUser(us: seq<User>, id: Id): (r: Option<User>)
    ensures r.Some? ==> r.value in us && r.value.id == id
    ensures r.None? <==> forall u :: u in us ==> u.id != id
  {
    FindBy(us, UserId, id)
  }
}
