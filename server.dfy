/** The JSON routes of the Express server over the `users`, `cart` and
    `orders` tables and one browser's session. Each handler runs to completion
    before the next one starts, and every query succeeds. */
module Server {

  import opened Wrappers
  import opened Seqs
  import opened Schema
  import opened Text

  /** What `express-session` keeps for a browser: set at login, dropped at logout. */
  datatype Session = Session(userId: Option<int>, username: Option<string>)

  const NoSession := Session(None, None)

  /** `req.session.userId` is truthy: present and not 0. */
  predicate Authenticated(s: Session)
  {
    s.userId.Some? && s.userId.value != 0
  }

  /** An HTTP status and the `message` (success) or `error` (failure) text of the JSON body. */
  datatype Reply = Reply(status: int, text: string)

  const MinPasswordLength := 6

  /** The field checks of `POST /api/register`, in order; `None` when all pass.
      An absent field arrives as the empty string: both are falsy. */
  function RegisterInputError(username: string, email: string, password: string): (r: Option<string>)
    ensures r == Some("All fields are required") <==> username == "" || email == "" || password == ""
    ensures (r == Some("Password must be at least 6 characters"))
              <==> (username != "" && email != "" && password != "" && CodeUnits(password) < MinPasswordLength)
    ensures r == None <==> username != "" && email != "" && CodeUnits(password) >= MinPasswordLength
  {
    if username == "" || email == "" || password == "" then Some("All fields are required")
    else if CodeUnits(password) < MinPasswordLength then Some("Password must be at least 6 characters")
    else None
  }

  /** The length check counts UTF-16 code units: three characters outside
      the Basic Multilingual Plane make a password of length 6, which passes. */
  lemma SurrogatePairsCountTwice(username: string, email: string)
    requires username != "" && email != ""
    ensures var password := "\U{1F600}\U{1F600}\U{1F600}";
            |password| == 3 && RegisterInputError(username, email, password).None?
  {
  }

  /** The field check of `POST /api/cart`: a zero price or quantity is falsy too. */
  predicate CartInputMissing(itemName: string, price: int, quantity: int)
  {
    itemName == "" || price == 0 || quantity == 0
  }

  /** The field check only rejects a zero price or quantity, so a negative
      one is accepted, and the line it adds to an order total is negative. */
  lemma NegativeLineAccepted(itemName: string, price: int, quantity: int)
    requires itemName != "" && quantity > 0 && price < 0
    ensures !CartInputMissing(itemName, price, quantity)
    ensures Total([CartItem(0, 0, itemName, price, quantity)]) < 0
  {
    var row := CartItem(0, 0, itemName, price, quantity);
    assert [row][..0] == [];
    assert LineTotal(row) < 0 by {
      assert price * quantity <= price;
    }
  }

  class Server {
    var users: seq<User>
    var cart: seq<CartItem>
    var orders: seq<Order>
    // the AUTO_INCREMENT counters of the three tables
    var nextUserId: int
    var nextCartId: int
    var nextOrderId: int
    var session: Session

    ghost predicate Valid()
      reads this
    {
      UsersOk(users, nextUserId) && CartOk(cart, nextCartId) && OrdersOk(orders, nextOrderId)
    }

    /** Empty tables and a browser without a session. */
    constructor ()
      ensures Valid()
      ensures users == [] && cart == [] && orders == [] && session == NoSession
      ensures nextUserId == 1 && nextCartId == 1 && nextOrderId == 1
    {
      users, cart, orders := [], [], [];
      nextUserId, nextCartId, nextOrderId := 1, 1, 1;
      session := NoSession;
    }

    /** `POST /api/register` */
    method Register(username: string, email: string, password: string, salt: int) returns (reply: Reply)
      requires Valid()
      modifies this
      ensures Valid()
      ensures cart == old(cart) && orders == old(orders) && session == old(session)
      ensures nextCartId == old(nextCartId) && nextOrderId == old(nextOrderId)
      ensures RegisterInputError(username, email, password).Some? ==>
                reply == Reply(400, RegisterInputError(username, email, password).value)
                && users == old(users) && nextUserId == old(nextUserId)
      ensures RegisterInputError(username, email, password).None? && Taken(old(users), username, email) ==>
                reply == Reply(400, "User already exists")
                && users == old(users) && nextUserId == old(nextUserId)
      ensures RegisterInputError(username, email, password).None? && !Taken(old(users), username, email) ==>
                reply == Reply(201, "User registered successfully")
                && users == old(users) + [User(old(nextUserId), username, email, Hash(password, salt))]
                && nextUserId == old(nextUserId) + 1
    {
      var invalid := RegisterInputError(username, email, password);
      if invalid.Some? {
        return Reply(400, invalid.value);
      }
      if Taken(users, username, email) {
        return Reply(400, "User already exists");
      }
      var hashed := Hash(password, salt);
      var u := User(nextUserId, username, email, hashed);
      AddUserOk(users, nextUserId, u);
      users := users + [u];
      nextUserId := nextUserId + 1;
      reply := Reply(201, "User registered successfully");
    }

    /** `POST /api/login`: an unknown email and a wrong password get the same reply. */
    method Login(email: string, password: string) returns (reply: Reply)
      requires Valid()
      modifies this`session
      ensures reply.status == 400 <==> email == "" || password == ""
      ensures reply.status == 400 ==> reply.text == "All fields are required"
      ensures reply.status == 200 <==>
                email != "" && password != ""
                && exists k :: 0 <= k < |users| && users[k].email == email && Compare(password, users[k].password)
      ensures reply.status == 200 ==>
                reply.text == "Login successful"
                && exists k :: 0 <= k < |users| && users[k].email == email
                               && session == Session(Some(users[k].id), Some(users[k].username))
      ensures reply.status != 200 ==> session == old(session)
      ensures reply.status in {200, 400, 401}
      ensures reply.status == 401 ==> reply.text == "Invalid credentials"
    {
      if email == "" || password == "" {
        return Reply(400, "All fields are required");
      }
      var found := FirstIndex(users, (u: User) => u.email == email);
      if found.None? {
        return Reply(401, "Invalid credentials");
      }
      var user := users[found.value];
      var matches := Compare(password, user.password);
      if !matches {
        return Reply(401, "Invalid credentials");
      }
      session := Session(Some(user.id), Some(user.username));
      reply := Reply(200, "Login successful");
    }

    /** `POST /api/logout`: drops the session, whether or not there was one. */
    method Logout() returns (reply: Reply)
      modifies this`session
      ensures session == NoSession && !Authenticated(session)
      ensures reply == Reply(200, "Logout successful")
    {
      session := NoSession;
      reply := Reply(200, "Logout successful");
    }

    /** `GET /api/user`: the session user's row, which may have been deleted since login. */
    method CurrentUser() returns (reply: Reply, profile: Option<Profile>)
      requires Valid()
      ensures !Authenticated(session) ==> reply == Reply(401, "Not authenticated") && profile == None
      ensures Authenticated(session) && !(exists k :: 0 <= k < |users| && users[k].id == session.userId.value) ==>
                reply == Reply(500, "Error fetching user") && profile == None
      ensures Authenticated(session) && (exists k :: 0 <= k < |users| && users[k].id == session.userId.value) ==>
                reply.status == 200 && profile.Some?
      ensures profile.Some? <==> reply.status == 200
      ensures profile.Some? ==>
                Authenticated(session) && profile.value.id == session.userId.value
                && exists k :: 0 <= k < |users| && ProfileOf(users[k]) == profile.value
    {
      if !Authenticated(session) {
        return Reply(401, "Not authenticated"), None;
      }
      var uid := session.userId.value;
      var found := FirstIndex(users, (u: User) => u.id == uid);
      if found.None? {
        return Reply(500, "Error fetching user"), None;
      }
      reply, profile := Reply(200, ""), Some(ProfileOf(users[found.value]));
    }

    /** `GET /api/users`: every user, newest first, without password hashes,
        for anyone who asks. */
    method ListUsers() returns (reply: Reply, profiles: seq<Profile>)
      ensures reply.status == 200
      ensures |profiles| == |users|
      ensures forall k :: 0 <= k < |users| ==> profiles[k] == ProfileOf(users[|users| - 1 - k])
    {
      reply, profiles := Reply(200, ""), Reverse(Profiles(users));
    }

    /** `PUT /api/users/:id`: renames a user unless the name or email belongs
        to a different user; an absent id is a 404. */
    method UpdateUser(id: int, username: string, email: string) returns (reply: Reply)
      requires Valid()
      modifies this`users
      ensures Valid()
      ensures username == "" || email == "" ==>
                reply == Reply(400, "Username and email are required") && users == old(users)
      ensures username != "" && email != "" && TakenByOther(old(users), username, email, id) ==>
                reply == Reply(400, "Username or email already exists") && users == old(users)
      ensures username != "" && email != "" && !TakenByOther(old(users), username, email, id)
              && (forall k :: 0 <= k < |old(users)| ==> old(users)[k].id != id) ==>
                reply == Reply(404, "User not found") && users == old(users)
      ensures username != "" && email != "" && !TakenByOther(old(users), username, email, id)
              && (exists k :: 0 <= k < |old(users)| && old(users)[k].id == id) ==>
                reply.status == 200
      ensures reply.status != 200 ==> users == old(users)
      ensures reply.status == 200 ==>
                reply.text == "User updated successfully"
                && exists k :: 0 <= k < |old(users)| && old(users)[k].id == id
                               && users == old(users)[k := old(users)[k].(username := username, email := email)]
      ensures reply.status in {200, 400, 404}
    {
      if username == "" || email == "" {
        return Reply(400, "Username and email are required");
      }
      if TakenByOther(users, username, email, id) {
        return Reply(400, "Username or email already exists");
      }
      var found := FirstIndex(users, (u: User) => u.id == id);
      if found.None? {
        return Reply(404, "User not found");
      }
      var k := found.value;
      RenameUserOk(users, nextUserId, k, username, email);
      users := users[k := users[k].(username := username, email := email)];
      reply := Reply(200, "User updated successfully");
    }

    /** `DELETE /api/users/:id`, for anyone who asks; the user's cart rows and
        orders stay. */
    method DeleteUser(id: int) returns (reply: Reply)
      requires Valid()
      modifies this`users
      ensures Valid()
      ensures (exists k :: 0 <= k < |old(users)| && old(users)[k].id == id) ==>
                reply == Reply(200, "User deleted successfully")
      ensures !(exists k :: 0 <= k < |old(users)| && old(users)[k].id == id) ==>
                reply == Reply(404, "User not found") && users == old(users)
      ensures users == Filter(old(users), (u: User) => u.id != id)
      ensures forall u :: u in users <==> u in old(users) && u.id != id
    {
      var found := FirstIndex(users, (u: User) => u.id == id);
      if found.None? {
        FilterAll(users, (u: User) => u.id != id);
        return Reply(404, "User not found");
      }
      DeleteUserOk(users, nextUserId, id);
      ghost var before := users;
      users := Filter(users, (u: User) => u.id != id);
      forall u ensures u in users <==> u in before && u.id != id {
        FilterMembership(before, (u: User) => u.id != id, u);
      }
      reply := Reply(200, "User deleted successfully");
    }

    /** `POST /api/cart`: adds to the quantity of the user's row for the item,
        or inserts a row with the client's price and quantity. */
    method AddToCart(itemName: string, price: int, quantity: int) returns (reply: Reply)
      requires Valid()
      modifies this`cart, this`nextCartId
      ensures Valid()
      ensures !Authenticated(session) ==>
                reply == Reply(401, "Not authenticated") && cart == old(cart) && nextCartId == old(nextCartId)
      ensures Authenticated(session) && CartInputMissing(itemName, price, quantity) ==>
                reply == Reply(400, "All fields are required") && cart == old(cart) && nextCartId == old(nextCartId)
      ensures Authenticated(session) && !CartInputMissing(itemName, price, quantity) ==>
                var uid := session.userId.value;
                var found := FirstIndex(old(cart), (r: CartItem) => r.userId == uid && r.itemName == itemName);
                if found.Some? then
                  var row := old(cart)[found.value];
                  reply == Reply(200, "Cart updated successfully")
                  && cart == old(cart)[found.value := row.(quantity := row.quantity + quantity)]
                  && nextCartId == old(nextCartId)
                else
                  reply == Reply(200, "Item added to cart")
                  && cart == old(cart) + [CartItem(old(nextCartId), uid, itemName, price, quantity)]
                  && nextCartId == old(nextCartId) + 1
      ensures forall v :: Authenticated(session) && v != session.userId.value ==> CartOf(cart, v) == CartOf(old(cart), v)
    {
      if !Authenticated(session) {
        return Reply(401, "Not authenticated");
      }
      if CartInputMissing(itemName, price, quantity) {
        return Reply(400, "All fields are required");
      }
      var uid := session.userId.value;
      var found := FirstIndex(cart, (r: CartItem) => r.userId == uid && r.itemName == itemName);
      if found.Some? {
        var k := found.value;
        var row := cart[k].(quantity := cart[k].quantity + quantity);
        BumpQuantityOk(cart, nextCartId, k, row.quantity);
        forall v | v != uid ensures CartOf(cart[k := row], v) == CartOf(cart, v) {
          UpdateRowScoped(cart, k, row, v);
        }
        cart := cart[k := row];
        reply := Reply(200, "Cart updated successfully");
      } else {
        var row := CartItem(nextCartId, uid, itemName, price, quantity);
        AddRowOk(cart, nextCartId, row);
        forall v | v != uid ensures CartOf(cart + [row], v) == CartOf(cart, v) {
          AppendRowScoped(cart, row, v);
        }
        cart := cart + [row];
        nextCartId := nextCartId + 1;
        reply := Reply(200, "Item added to cart");
      }
    }

    /** `GET /api/cart`: the session user's rows in table order. */
    method GetCart() returns (reply: Reply, rows: seq<CartItem>)
      ensures !Authenticated(session) ==> reply == Reply(401, "Not authenticated") && rows == []
      ensures Authenticated(session) ==> reply.status == 200
      ensures Authenticated(session) ==> rows == CartOf(cart, session.userId.value)
      ensures Authenticated(session) ==>
                forall r :: r in rows <==> r in cart && r.userId == session.userId.value
      ensures Authenticated(session) ==> IsSubsequence(rows, cart)
    {
      if !Authenticated(session) {
        return Reply(401, "Not authenticated"), [];
      }
      var uid := session.userId.value;
      rows := CartOf(cart, uid);
      reply := Reply(200, "");
    }

    /** `DELETE /api/cart/:id`: removes the row only if the session user owns
        it, and reports success either way. */
    method RemoveCartItem(cartId: int) returns (reply: Reply)
      requires Valid()
      modifies this`cart
      ensures Valid()
      ensures !Authenticated(session) ==> reply == Reply(401, "Not authenticated") && cart == old(cart)
      ensures Authenticated(session) ==>
                reply == Reply(200, "Item removed from cart")
                && cart == RemoveRow(old(cart), cartId, session.userId.value)
      ensures forall v :: Authenticated(session) && v != session.userId.value ==> CartOf(cart, v) == CartOf(old(cart), v)
    {
      if !Authenticated(session) {
        return Reply(401, "Not authenticated");
      }
      var uid := session.userId.value;
      FilterCartOk(cart, nextCartId, (r: CartItem) => !(r.id == cartId && r.userId == uid));
      forall v | v != uid ensures CartOf(RemoveRow(cart, cartId, uid), v) == CartOf(cart, v) {
        RemoveRowScoped(cart, cartId, uid, v);
      }
      cart := RemoveRow(cart, cartId, uid);
      reply := Reply(200, "Item removed from cart");
    }

    /** `PUT /api/cart/:id`: sets the quantity of the row only if the session
        user owns it, and reports success either way. */
    method UpdateCartQuantity(cartId: int, quantity: int) returns (reply: Reply)
      requires Valid()
      modifies this`cart
      ensures Valid()
      ensures !Authenticated(session) ==> reply == Reply(401, "Not authenticated") && cart == old(cart)
      ensures Authenticated(session) && quantity < 1 ==>
                reply == Reply(400, "Quantity must be at least 1") && cart == old(cart)
      ensures Authenticated(session) && quantity >= 1 ==>
                reply == Reply(200, "Quantity updated")
                && cart == SetQuantity(old(cart), cartId, session.userId.value, quantity)
      ensures forall v :: Authenticated(session) && v != session.userId.value ==> CartOf(cart, v) == CartOf(old(cart), v)
    {
      if !Authenticated(session) {
        return Reply(401, "Not authenticated");
      }
      if quantity < 1 {
        return Reply(400, "Quantity must be at least 1");
      }
      var uid := session.userId.value;
      SetQuantityOk(cart, nextCartId, cartId, uid, quantity);
      forall v | v != uid ensures CartOf(SetQuantity(cart, cartId, uid, quantity), v) == CartOf(cart, v) {
        SetQuantityScoped(cart, cartId, uid, quantity, v);
      }
      cart := SetQuantity(cart, cartId, uid, quantity);
      reply := Reply(200, "Quantity updated");
    }

    /** `POST /api/orders`: snapshots the session user's cart into one new
        order with its total, then empties that user's cart. */
    method PlaceOrder() returns (reply: Reply, orderId: int, total: int)
      requires Valid()
      modifies this`cart, this`orders, this`nextOrderId
      ensures Valid()
      ensures !Authenticated(session) ==>
                reply == Reply(401, "Not authenticated")
                && cart == old(cart) && orders == old(orders) && nextOrderId == old(nextOrderId)
      ensures Authenticated(session) && CartOf(old(cart), session.userId.value) == [] ==>
                reply == Reply(400, "Cart is empty")
                && cart == old(cart) && orders == old(orders) && nextOrderId == old(nextOrderId)
      ensures Authenticated(session) && CartOf(old(cart), session.userId.value) != [] ==>
                var uid := session.userId.value;
                var items := CartOf(old(cart), uid);
                reply == Reply(200, "Order placed successfully")
                && orderId == old(nextOrderId) && total == Total(items)
                && orders == old(orders) + [Order(orderId, uid, total, items)]
                && nextOrderId == old(nextOrderId) + 1
                && cart == ClearCart(old(cart), uid)
                && CartOf(cart, uid) == []
      ensures forall v :: Authenticated(session) && v != session.userId.value ==> CartOf(cart, v) == CartOf(old(cart), v)
    {
      orderId, total := 0, 0;
      if !Authenticated(session) {
        return Reply(401, "Not authenticated"), orderId, total;
      }
      var uid := session.userId.value;
      var items := CartOf(cart, uid);
      if items == [] {
        return Reply(400, "Cart is empty"), orderId, total;
      }
      total := Total(items);
      var order := Order(nextOrderId, uid, total, items);
      assert forall k :: 0 <= k < |items| ==> items[k] in items;
      AddOrderOk(orders, nextOrderId, order);
      orders := orders + [order];
      orderId := nextOrderId;
      nextOrderId := nextOrderId + 1;
      FilterCartOk(cart, nextCartId, (r: CartItem) => r.userId != uid);
      forall v ensures v != uid ==> CartOf(ClearCart(cart, uid), v) == CartOf(cart, v) {
        ClearCartScoped(cart, uid, v);
      }
      ClearCartScoped(cart, uid, uid);
      cart := ClearCart(cart, uid);
      reply := Reply(200, "Order placed successfully");
    }

    /** `GET /api/orders`: the session user's orders, newest first. */
    method ListOrders() returns (reply: Reply, list: seq<Order>)
      ensures !Authenticated(session) ==> reply == Reply(401, "Not authenticated") && list == []
      ensures Authenticated(session) ==>
                reply.status == 200 && list == Reverse(OrdersOf(orders, session.userId.value))
    {
      if !Authenticated(session) {
        return Reply(401, "Not authenticated"), [];
      }
      reply, list := Reply(200, ""), Reverse(OrdersOf(orders, session.userId.value));
    }

    /** `GET /api/orders/last`: the first entry `GET /api/orders` would list,
        or JSON `null`. */
    method LastOrder() returns (reply: Reply, last: Option<Order>)
      requires Valid()
      ensures !Authenticated(session) ==> reply == Reply(401, "Not authenticated") && last == None
      ensures Authenticated(session) ==>
                var list := Reverse(OrdersOf(orders, session.userId.value));
                reply.status == 200 && last == (if list == [] then None else Some(list[0]))
      ensures last.Some? ==>
                last.value in orders && last.value.userId == session.userId.value && OrderConsistent(last.value)
    {
      if !Authenticated(session) {
        return Reply(401, "Not authenticated"), None;
      }
      var uid := session.userId.value;
      var mine := OrdersOf(orders, uid);
      if mine == [] {
        return Reply(200, ""), None;
      }
      var newest := mine[|mine| - 1];
      FilterMembership(orders, (o: Order) => o.userId == uid, newest);
      reply, last := Reply(200, ""), Some(newest);
    }
  }
}
