/** The cart page: the rows of `GET /api/cart` drawn with their line totals
    and the cart total, the requests its quantity buttons send, and the
    CSRF token it keeps in local storage. */
module CartPage {

  import opened Wrappers
  import opened Schema

  /** One drawn row: what it shows and the quantities its `-` and `+`
      buttons pass to `updateQuantity`. */
  datatype ItemView = ItemView(cartId: int, itemName: string, price: int, quantity: int,
                               lineTotal: int, minusQuantity: int, plusQuantity: int)

  /** What the page shows once the cart request has settled. */
  datatype CartView = LoadError | EmptyCart | Items(rows: seq<ItemView>, total: int)

  /** The row `displayCart` draws for one cart entry. */
  function ViewOf(item: CartItem): (v: ItemView)
    ensures v.cartId == item.id && v.itemName == item.itemName
    ensures v.price == item.price && v.quantity == item.quantity
    ensures v.lineTotal == LineTotal(item)
    ensures v.minusQuantity + 1 == item.quantity && v.plusQuantity - 1 == item.quantity
  {
    ItemView(item.id, item.itemName, item.price, item.quantity,
             item.price * item.quantity, item.quantity - 1, item.quantity + 1)
  }

  /** `displayCart`: one row per entry, in order, and the running total. */
  method DisplayCart(cart: seq<CartItem>) returns (rows: seq<ItemView>, total: int)
    ensures |rows| == |cart|
    ensures forall k :: 0 <= k < |cart| ==> rows[k] == ViewOf(cart[k])
    ensures total == Total(cart)
  {
    rows, total := [], 0;
    var i := 0;
    while i < |cart|
      invariant 0 <= i <= |cart|
      invariant |rows| == i
      invariant forall k :: 0 <= k < i ==> rows[k] == ViewOf(cart[k])
      invariant total == Total(cart[..i])
    {
      var item := cart[i];
      var itemTotal := item.price * item.quantity;
      total := total + itemTotal;
      rows := rows + [ViewOf(item)];
      assert cart[..i + 1][..i] == cart[..i];
      i := i + 1;
    }
    assert cart[..i] == cart;
  }

  /** `loadCart`: `None` is a failed request; an empty cart shows the
      empty message and no rows. */
  method LoadCart(response: Option<seq<CartItem>>) returns (view: CartView)
    ensures response.None? <==> view.LoadError?
    ensures view.EmptyCart? <==> response == Some([])
    ensures view.Items? ==> response.Some? && |view.rows| == |response.value| > 0
                            && view.total == Total(response.value)
    ensures view.Items? ==> forall k :: 0 <= k < |view.rows| ==> view.rows[k] == ViewOf(response.value[k])
  {
    if response.None? {
      return LoadError;
    }
    var cart := response.value;
    if |cart| == 0 {
      return EmptyCart;
    }
    var rows, total := DisplayCart(cart);
    view := Items(rows, total);
  }

  /** The request a quantity change or a removal sends. */
  datatype CartRequest = Put(cartId: int, quantity: int) | Delete(cartId: int)

  /** `removeItem`: `confirmed` is the answer to the confirmation dialog. */
  function RemoveItem(cartId: int, confirmed: bool): (r: Option<CartRequest>)
    ensures r.Some? <==> confirmed
    ensures r.Some? ==> r.value == Delete(cartId)
  {
    if confirmed then Some(Delete(cartId)) else None
  }

  /** `updateQuantity`: below 1 it becomes a removal, otherwise a `PUT` of
      the new quantity. */
  function UpdateQuantity(cartId: int, newQuantity: int, confirmed: bool): (r: Option<CartRequest>)
    ensures r.None? <==> newQuantity < 1 && !confirmed
    ensures r.Some? ==> r.value.cartId == cartId
    ensures r.Some? && r.value.Delete? <==> newQuantity < 1 && confirmed
    ensures r.Some? && r.value.Put? ==> r.value.quantity == newQuantity && newQuantity >= 1
  {
    if newQuantity < 1 then RemoveItem(cartId, confirmed) else Some(Put(cartId, newQuantity))
  }

  /** The `+` button of any row sends a `PUT` one above the shown quantity
      whenever that is at least 1; the `-` button of a row showing 1 or less
      asks for a removal instead. */
  lemma ButtonsOfRow(item: CartItem, confirmed: bool)
    ensures item.quantity >= 0 ==>
              UpdateQuantity(item.id, ViewOf(item).plusQuantity, confirmed) == Some(Put(item.id, item.quantity + 1))
    ensures item.quantity <= 1 ==>
              UpdateQuantity(item.id, ViewOf(item).minusQuantity, confirmed) == RemoveItem(item.id, confirmed)
    ensures item.quantity > 1 ==>
              UpdateQuantity(item.id, ViewOf(item).minusQuantity, confirmed) == Some(Put(item.id, item.quantity - 1))
  {
  }

  /** The local-storage key of the cached token. */
  const TokenKey := "csrfToken"

  /** The token a call would find in storage: absent and `""` are both falsy. */
  function Cached(storage: map<string, string>): (r: Option<string>)
    ensures r.Some? <==> TokenKey in storage && storage[TokenKey] != ""
    ensures r.Some? ==> r.value == storage[TokenKey] && r.value != ""
  {
    if TokenKey in storage && storage[TokenKey] != "" then Some(storage[TokenKey]) else None
  }

  /** The page's `localStorage`, as far as `getCsrfToken` uses it. */
  class TokenCache {
    var storage: map<string, string>

    constructor (storage: map<string, string>)
      ensures this.storage == storage
    {
      this.storage := storage;
    }

    /** `getCsrfToken`: a cached token is returned as is; otherwise
        `fetched` (the `csrfToken` of `GET /api/csrf-token`) is stored and
        returned, so that a later call finds it. */
    method GetCsrfToken(fetched: string) returns (token: string)
      modifies this`storage
      ensures Cached(old(storage)).Some? ==> token == Cached(old(storage)).value && storage == old(storage)
      ensures Cached(old(storage)).None? ==> token == fetched && storage == old(storage)[TokenKey := fetched]
      ensures token != "" ==> Cached(storage) == Some(token)
    {
      var stored := if TokenKey in storage then storage[TokenKey] else "";
      token := stored;
      if token == "" {
        token := fetched;
        storage := storage[TokenKey := token];
      }
    }
  }

  /** Two requests in a row: once a non-empty token is cached, the second
      call returns it and does not change storage. */
  method TwoRequests(cache: TokenCache, first: string, second: string) returns (t1: string, t2: string)
    modifies cache
    ensures t1 != "" ==> t2 == t1 && cache.storage == old(cache.storage)[TokenKey := t1]
  {
    t1 := cache.GetCsrfToken(first);
    t2 := cache.GetCsrfToken(second);
  }
}
