/** The rows of the `users`, `cart` and `orders` tables, the queries the
    route handlers run on them, and what a well-formed table looks like. */
module Schema {

  import opened Wrappers
  import opened Seqs

  /** A stored bcrypt hash. The model keeps what `bcrypt.compare` needs to
      decide a match: the salt that made it and the password it was made from. */
  datatype Digest = Digest(salt: int, secret: string)

  /** `bcrypt.hash(password, 10)`; the random salt is a parameter. */
  function Hash(password: string, salt: int): (d: Digest)
    ensures Compare(password, d)
  {
    Digest(salt, password)
  }

  /** `bcrypt.compare(password, hash)`. */
  predicate Compare(password: string, d: Digest)
  {
    d.secret == password
  }

  /** A hash matches the password it was made from and no other. */
  lemma CompareHash(password: string, other: string, salt: int)
    ensures Compare(other, Hash(password, salt)) <==> other == password
  {
  }

  /** A row of `users` (its `is_admin` and `created_at` columns are not read
      by any modelled handler; insertion order stands for `created_at`). */
  datatype User = User(id: int, username: string, email: string, password: Digest)

  /** The columns `SELECT id, username, email` hands to the browser. */
  datatype Profile = Profile(id: int, username: string, email: string)

  function ProfileOf(u: User): Profile
  {
    Profile(u.id, u.username, u.email)
  }

  /** A row of `cart`. */
  datatype CartItem = CartItem(id: int, userId: int, itemName: string, price: int, quantity: int)

  /** A row of `orders`; `items` is the snapshot of the cart rows. */
  datatype Order = Order(id: int, userId: int, totalAmount: int, items: seq<CartItem>)

  function LineTotal(item: CartItem): int
  {
    item.price * item.quantity
  }

  /** Sum of price times quantity, accumulated from the first row on, as
      `reduce` with initial value 0 does. The sign of the total follows the
      sign of the lines: the server does not keep prices or quantities positive. */
  function Total(items: seq<CartItem>): (t: int)
    ensures items == [] ==> t == 0
    ensures (forall k :: 0 <= k < |items| ==> LineTotal(items[k]) >= 0) ==> t >= 0
    ensures (forall k :: 0 <= k < |items| ==> LineTotal(items[k]) <= 0) ==> t <= 0
  {
    if items == [] then 0 else Total(items[..|items| - 1]) + LineTotal(items[|items| - 1])
  }

  lemma {:induction false} TotalAppend(a: seq<CartItem>, b: seq<CartItem>)
    ensures Total(a + b) == Total(a) + Total(b)
  {
    if b == [] {
      assert a + b == a;
    } else {
      var c := a + b;
      assert c[..|c| - 1] == a + b[..|b| - 1];
      TotalAppend(a, b[..|b| - 1]);
    }
  }

  /** Rows whose every price and quantity is positive have a positive total. */
  lemma {:induction false} TotalPositive(items: seq<CartItem>)
    requires items != []
    requires forall k :: 0 <= k < |items| ==> items[k].price > 0 && items[k].quantity > 0
    ensures Total(items) > 0
  {
    var n := |items|;
    assert LineTotal(items[n - 1]) > 0;
    if n > 1 {
      TotalPositive(items[..n - 1]);
    }
  }

  // ---- queries -------------------------------------------------------------

  /** `SELECT * FROM cart WHERE user_id = ?`, in table order. */
  function CartOf(cart: seq<CartItem>, uid: int): (rows: seq<CartItem>)
    ensures forall x :: x in rows <==> x in cart && x.userId == uid
    ensures IsSubsequence(rows, cart)
  {
    FilterMembers(cart, (r: CartItem) => r.userId == uid);
    Filter(cart, (r: CartItem) => r.userId == uid)
  }

  /** `DELETE FROM cart WHERE user_id = ?`: the table that remains. */
  function ClearCart(cart: seq<CartItem>, uid: int): (rows: seq<CartItem>)
    ensures forall x :: x in rows <==> x in cart && x.userId != uid
    ensures IsSubsequence(rows, cart)
  {
    FilterMembers(cart, (r: CartItem) => r.userId != uid);
    Filter(cart, (r: CartItem) => r.userId != uid)
  }

  /** `DELETE FROM cart WHERE id = ? AND user_id = ?`: the table that remains. */
  function RemoveRow(cart: seq<CartItem>, cartId: int, uid: int): (rows: seq<CartItem>)
    ensures forall x :: x in rows <==> x in cart && !(x.id == cartId && x.userId == uid)
    ensures IsSubsequence(rows, cart)
  {
    FilterMembers(cart, (r: CartItem) => !(r.id == cartId && r.userId == uid));
    Filter(cart, (r: CartItem) => !(r.id == cartId && r.userId == uid))
  }

  /** `UPDATE cart SET quantity = ? WHERE id = ? AND user_id = ?`: rows stay
      in place, a matching row gets the quantity, nothing else changes. */
  function SetQuantity(cart: seq<CartItem>, cartId: int, uid: int, quantity: int): (r: seq<CartItem>)
    ensures |r| == |cart|
    ensures forall k :: 0 <= k < |cart| ==>
              r[k].id == cart[k].id && r[k].userId == cart[k].userId
              && r[k].itemName == cart[k].itemName && r[k].price == cart[k].price
    ensures forall k :: 0 <= k < |cart| && cart[k].id == cartId && cart[k].userId == uid ==> r[k].quantity == quantity
    ensures forall k :: 0 <= k < |cart| && !(cart[k].id == cartId && cart[k].userId == uid) ==> r[k] == cart[k]
  {
    seq(|cart|, k requires 0 <= k < |cart| =>
      if cart[k].id == cartId && cart[k].userId == uid then cart[k].(quantity := quantity) else cart[k])
  }

  /** `SELECT * FROM orders WHERE user_id = ?`, in insertion order. */
  function OrdersOf(orders: seq<Order>, uid: int): (mine: seq<Order>)
    ensures forall o :: o in mine <==> o in orders && o.userId == uid
    ensures IsSubsequence(mine, orders)
  {
    FilterMembers(orders, (o: Order) => o.userId == uid);
    Filter(orders, (o: Order) => o.userId == uid)
  }

  /** `SELECT id, username, email FROM users` in insertion order: the same
      rows without their password hashes. */
  function Profiles(users: seq<User>): (r: seq<Profile>)
    ensures |r| == |users|
    ensures forall k :: 0 <= k < |users| ==>
              r[k].id == users[k].id && r[k].username == users[k].username && r[k].email == users[k].email
  {
    seq(|users|, k requires 0 <= k < |users| => ProfileOf(users[k]))
  }

  /** `WHERE email = ? OR username = ?` finds a row: some user has the email,
      or some user (not necessarily the same one) has the username. */
  function Taken(users: seq<User>, username: string, email: string): (b: bool)
    ensures b <==> (exists u :: u in users && u.email == email) || (exists u :: u in users && u.username == username)
  {
    exists k :: 0 <= k < |users| && (users[k].email == email || users[k].username == username)
  }

  /** `WHERE (email = ? OR username = ?) AND id != ?` finds a row. It is the
      check of `Taken` with the user being edited left out: a clash with that
      user alone does not count. */
  function TakenByOther(users: seq<User>, username: string, email: string, id: int): (b: bool)
    ensures b ==> Taken(users, username, email)
    ensures !b <==> forall k :: (0 <= k < |users| && (users[k].email == email || users[k].username == username))
                               ==> users[k].id == id
  {
    exists k :: 0 <= k < |users| && users[k].id != id && (users[k].email == email || users[k].username == username)
  }

  // ---- well-formed tables --------------------------------------------------

  /** Two user rows never share an id (primary key), an email or a username. */
  function DistinctUsers(a: User, b: User): bool
  {
    a.id != b.id && a.email != b.email && a.username != b.username
  }

  /** Two cart rows never share an id, and a user holds an item in one row at most. */
  function DistinctRows(a: CartItem, b: CartItem): bool
  {
    a.id != b.id && !(a.userId == b.userId && a.itemName == b.itemName)
  }

  function DistinctOrders(a: Order, b: Order): bool
  {
    a.id != b.id
  }

  predicate UsersOk(users: seq<User>, nextId: int)
  {
    1 <= nextId
    && (forall k :: 0 <= k < |users| ==> 1 <= users[k].id < nextId)
    && Pairwise(users, DistinctUsers)
  }

  predicate CartOk(cart: seq<CartItem>, nextId: int)
  {
    1 <= nextId
    && (forall k :: 0 <= k < |cart| ==> 1 <= cart[k].id < nextId)
    && Pairwise(cart, DistinctRows)
  }

  /** An order snapshots a non-empty cart of its own user, and its total is
      the snapshot's total. */
  predicate OrderConsistent(o: Order)
  {
    o.items != []
    && o.totalAmount == Total(o.items)
    && forall k :: 0 <= k < |o.items| ==> o.items[k].userId == o.userId
  }

  predicate OrdersOk(orders: seq<Order>, nextId: int)
  {
    1 <= nextId
    && (forall k :: 0 <= k < |orders| ==> 1 <= orders[k].id < nextId && OrderConsistent(orders[k]))
    && Pairwise(orders, DistinctOrders)
  }

  // ---- scoping: what a query on one user does to the others' rows ---------

  /** Clearing one user's cart empties it and leaves every other user's rows as they were. */
  lemma ClearCartScoped(cart: seq<CartItem>, uid: int, v: int)
    ensures CartOf(ClearCart(cart, uid), uid) == []
    ensures v != uid ==> CartOf(ClearCart(cart, uid), v) == CartOf(cart, v)
  {
    var kept := ClearCart(cart, uid);
    forall k | 0 <= k < |kept| ensures kept[k].userId != uid {
      FilterMembership(cart, (r: CartItem) => r.userId != uid, kept[k]);
    }
    FilterNone(kept, (r: CartItem) => r.userId == uid);
    if v != uid {
      FilterAbsorb(cart, (r: CartItem) => r.userId != uid, (r: CartItem) => r.userId == v);
    }
  }

  /** Removing a row by id and owner leaves every other user's rows as they were. */
  lemma RemoveRowScoped(cart: seq<CartItem>, cartId: int, uid: int, v: int)
    requires v != uid
    ensures CartOf(RemoveRow(cart, cartId, uid), v) == CartOf(cart, v)
  {
    FilterAbsorb(cart, (r: CartItem) => !(r.id == cartId && r.userId == uid), (r: CartItem) => r.userId == v);
  }

  /** Changing quantities by id and owner leaves every other user's rows as they were. */
  lemma SetQuantityScoped(cart: seq<CartItem>, cartId: int, uid: int, quantity: int, v: int)
    requires v != uid
    ensures CartOf(SetQuantity(cart, cartId, uid, quantity), v) == CartOf(cart, v)
  {
    FilterPointwise(cart, SetQuantity(cart, cartId, uid, quantity), (r: CartItem) => r.userId == v);
  }

  /** Changing one row of user `uid` without moving it to another user
      leaves every other user's rows as they were. */
  lemma UpdateRowScoped(cart: seq<CartItem>, k: nat, row: CartItem, v: int)
    requires k < |cart| && cart[k].userId == row.userId && row.userId != v
    ensures CartOf(cart[k := row], v) == CartOf(cart, v)
  {
    FilterPointwise(cart, cart[k := row], (r: CartItem) => r.userId == v);
  }

  /** A row appended for user `uid` is invisible to every other user. */
  lemma AppendRowScoped(cart: seq<CartItem>, row: CartItem, v: int)
    requires row.userId != v
    ensures CartOf(cart + [row], v) == CartOf(cart, v)
  {
    FilterAppend(cart, [row], (r: CartItem) => r.userId == v);
    assert [row][1..] == [];
  }

  // ---- keeping the tables well formed --------------------------------------

  lemma AddUserOk(users: seq<User>, nextId: int, u: User)
    requires UsersOk(users, nextId)
    requires u.id == nextId && !Taken(users, u.username, u.email)
    ensures UsersOk(users + [u], nextId + 1)
  {
    var s := users + [u];
    forall i, j | 0 <= i < j < |s| ensures DistinctUsers(s[i], s[j]) {
      if j == |users| {
        assert s[i] == users[i];
      } else {
        assert s[i] == users[i] && s[j] == users[j];
      }
    }
  }

  lemma RenameUserOk(users: seq<User>, nextId: int, k: nat, username: string, email: string)
    requires UsersOk(users, nextId) && k < |users|
    requires !TakenByOther(users, username, email, users[k].id)
    ensures UsersOk(users[k := users[k].(username := username, email := email)], nextId)
  {
    var s := users[k := users[k].(username := username, email := email)];
    forall i, j | 0 <= i < j < |s| ensures DistinctUsers(s[i], s[j]) {
      assert DistinctUsers(users[i], users[j]);
      if i == k {
        assert users[j].id != users[k].id;
      } else if j == k {
        assert users[i].id != users[k].id;
      }
    }
  }

  lemma DeleteUserOk(users: seq<User>, nextId: int, id: int)
    requires UsersOk(users, nextId)
    ensures UsersOk(Filter(users, (u: User) => u.id != id), nextId)
  {
    var s := Filter(users, (u: User) => u.id != id);
    FilterPairwise(users, (u: User) => u.id != id, DistinctUsers);
    forall k | 0 <= k < |s| ensures 1 <= s[k].id < nextId {
      FilterMembership(users, (u: User) => u.id != id, s[k]);
    }
  }

  lemma BumpQuantityOk(cart: seq<CartItem>, nextId: int, k: nat, quantity: int)
    requires CartOk(cart, nextId) && k < |cart|
    ensures CartOk(cart[k := cart[k].(quantity := quantity)], nextId)
  {
    var s := cart[k := cart[k].(quantity := quantity)];
    forall i, j | 0 <= i < j < |s| ensures DistinctRows(s[i], s[j]) {
      assert DistinctRows(cart[i], cart[j]);
    }
  }

  lemma AddRowOk(cart: seq<CartItem>, nextId: int, row: CartItem)
    requires CartOk(cart, nextId) && row.id == nextId
    requires forall k :: 0 <= k < |cart| ==> !(cart[k].userId == row.userId && cart[k].itemName == row.itemName)
    ensures CartOk(cart + [row], nextId + 1)
  {
    var s := cart + [row];
    forall i, j | 0 <= i < j < |s| ensures DistinctRows(s[i], s[j]) {
      if j == |cart| {
        assert s[i] == cart[i];
      } else {
        assert s[i] == cart[i] && s[j] == cart[j];
      }
    }
  }

  lemma SetQuantityOk(cart: seq<CartItem>, nextId: int, cartId: int, uid: int, quantity: int)
    requires CartOk(cart, nextId)
    ensures CartOk(SetQuantity(cart, cartId, uid, quantity), nextId)
  {
    var s := SetQuantity(cart, cartId, uid, quantity);
    forall i, j | 0 <= i < j < |s| ensures DistinctRows(s[i], s[j]) {
      assert DistinctRows(cart[i], cart[j]);
    }
  }

  lemma FilterCartOk(cart: seq<CartItem>, nextId: int, p: CartItem -> bool)
    requires CartOk(cart, nextId)
    ensures CartOk(Filter(cart, p), nextId)
  {
    var s := Filter(cart, p);
    FilterPairwise(cart, p, DistinctRows);
    forall k | 0 <= k < |s| ensures 1 <= s[k].id < nextId {
      FilterMembership(cart, p, s[k]);
    }
  }

  lemma AddOrderOk(orders: seq<Order>, nextId: int, o: Order)
    requires OrdersOk(orders, nextId) && o.id == nextId && OrderConsistent(o)
    ensures OrdersOk(orders + [o], nextId + 1)
  {
    var s := orders + [o];
    forall i, j | 0 <= i < j < |s| ensures DistinctOrders(s[i], s[j]) {
      if j == |orders| {
        assert s[i] == orders[i];
      } else {
        assert s[i] == orders[i] && s[j] == orders[j];
      }
    }
  }
}
