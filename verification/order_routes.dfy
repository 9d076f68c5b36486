/**
 * The orders blueprint: checkout-session creation (pre-validation against stock) and
 * the verify endpoint's decision table. Stripe is a parameter: `createSession` answers
 * the hosted-page URL or `None` when the call raises; `StripeSession` is what
 * `Session.retrieve` returns.
 */
module OrderRoutes {
  import opened Wrappers
  import opened Models
  import AuthRoutes
  import OrderService

  type Json = AuthRoutes.Json

  /**
   * One element of the request's `cartItems`; `None` is a missing or non-numeric field.
   * A JSON `null` id is not this case: `Product.query.get(None)` finds nothing, so the
   * source answers 404 for it, which this model does not represent.
   */
  datatype CartItem = CartItem(id: Option<int>, quantity: Option<int>)

  /** A Stripe line item built on the server: the price is always the stored one. */
  datatype LineItem = LineItem(productId: int, name: string, unitAmount: int, quantity: int)

  /**
   * The answer item `item` gets, in the order the loop evaluates it: `item['id']`
   * (400 if absent), the lookup (404), `item['quantity']` (400), the stock (400); 0 accepts.
   */
  function ItemStatus(products: map<int, ProductRow>, item: CartItem): int {
    if item.id.None? then 400
    else if item.id.value !in products then 404
    else if item.quantity.None? then 400
    else if products[item.id.value].stock < item.quantity.value then 400
    else 0
  }

  datatype Built = Lines(items: seq<LineItem>) | Rejected(status: int)

  /** The loop of `create_checkout_session`: the first rejected cart item answers for all. */
  function BuildLineItems(products: map<int, ProductRow>, cart: seq<CartItem>): (r: Built)
    ensures r.Lines? <==> forall k :: 0 <= k < |cart| ==> ItemStatus(products, cart[k]) == 0
    ensures r.Rejected? ==>
      exists k ::
        && 0 <= k < |cart| && ItemStatus(products, cart[k]) == r.status != 0
        && forall j :: 0 <= j < k ==> ItemStatus(products, cart[j]) == 0
    ensures r.Lines? ==> |r.items| == |cart| && forall k :: 0 <= k < |cart| ==>
      var p := products[cart[k].id.value];
      r.items[k] == LineItem(p.id, p.name, p.price, cart[k].quantity.value)
  {
    if |cart| == 0 then Lines([])
    else
      var s := ItemStatus(products, cart[0]);
      if s != 0 then Rejected(s)
      else
        var p := products[cart[0].id.value];
        match BuildLineItems(products, cart[1..])
        case Rejected(t) =>
          assert forall j :: 1 <= j < |cart| ==> cart[j] == cart[1..][j - 1];
          Rejected(t)
        case Lines(rest) =>
          assert forall j :: 1 <= j < |cart| ==> cart[j] == cart[1..][j - 1];
          Lines([LineItem(p.id, p.name, p.price, cart[0].quantity.value)] + rest)
  }

  datatype SessionReply = SessionReply(status: int, url: Option<string>)

  /** `POST /create-checkout-session`; `cart` is `None` when `cartItems` is absent. */
  function CreateCheckoutSession(products: map<int, ProductRow>, cart: Option<seq<CartItem>>,
                                 createSession: seq<LineItem> -> Option<string>): (r: SessionReply)
    ensures r.status in {200, 400, 404, 500}
    ensures cart.None? || cart.value == [] ==> r.status == 400
    ensures cart.Some? && cart.value != [] && BuildLineItems(products, cart.value).Rejected? ==>
      r.status == BuildLineItems(products, cart.value).status && r.url.None?
    ensures r.status == 404 ==> exists k :: 0 <= k < |cart.value| && cart.value[k].id.Some? && cart.value[k].id.value !in products
    ensures r.url.Some? <==> r.status == 200
    ensures r.status == 200 ==>
      && BuildLineItems(products, cart.value).Lines?
      && r.url == createSession(BuildLineItems(products, cart.value).items)
    ensures r.status == 500 <==>
      cart.Some? && cart.value != [] && BuildLineItems(products, cart.value).Lines?
      && createSession(BuildLineItems(products, cart.value).items).None?
  {
    if cart.None? || cart.value == [] then SessionReply(400, None)
    else match BuildLineItems(products, cart.value)
      case Rejected(s) => SessionReply(s, None)
      case Lines(items) =>
        match createSession(items)
        case None => SessionReply(500, None)
        case Some(url) => SessionReply(200, Some(url))
  }

  // ---------------------------------------------------------------- verify

  datatype StripeSession = RetrieveFailed | Retrieved(paymentStatus: string, lineItems: seq<OrderService.StripeLineItem>)

  datatype VerifyReply = VerifyReply(status: int, db: Db)

  /** `not all([session_id, user_id, shipping_address])`; an empty address object is falsy too. */
  predicate MissingCritical(sessionId: Option<string>, userId: int, address: Option<Json>) {
    !Truthy(sessionId) || userId == 0 || address.None? || address.value == map[]
  }

  /**
   * `POST /order/verify` for the logged-in `userId`. Every failure rolls back: only a
   * 200 changes the database, adding one order and applying the stock and phone updates.
   */
  function VerifyOrder(db: Db, userId: int, sessionId: Option<string>, address: Option<Json>,
                       stripe: StripeSession): (r: VerifyReply)
    ensures r.status in {200, 400, 402, 500}
    ensures r.status != 200 ==> r.db == db
    ensures MissingCritical(sessionId, userId, address) ==> r.status == 400
    ensures !MissingCritical(sessionId, userId, address) && stripe.RetrieveFailed? ==> r.status == 500
    ensures r.status == 402 <==>
      !MissingCritical(sessionId, userId, address) && stripe.Retrieved? && stripe.paymentStatus != "paid"
    ensures (&& !MissingCritical(sessionId, userId, address) && stripe.Retrieved? && stripe.paymentStatus == "paid"
             && OrderService.CreateAddress(address.value).None?) ==> r.status == 500
    ensures r.status == 400 <==>
      MissingCritical(sessionId, userId, address) ||
      (stripe.Retrieved? && stripe.paymentStatus == "paid" && OrderService.CreateAddress(address.value).Some?
       && OrderService.ProcessLineItems(db.products, stripe.lineItems).Failed?)
    ensures r.status == 200 <==>
      && !MissingCritical(sessionId, userId, address) && stripe.Retrieved? && stripe.paymentStatus == "paid"
      && OrderService.CreateAddress(address.value).Some?
      && OrderService.ProcessLineItems(db.products, stripe.lineItems).Done?
    ensures r.status == 200 ==>
      && var processed := OrderService.ProcessLineItems(db.products, stripe.lineItems);
      && processed.Done?
      && r.db.products == processed.products
      && r.db.users == OrderService.UpdateUserPhone(db.users, userId, AuthRoutes.Get(address.value, "phoneNumber"))
      && r.db.orders == db.orders + [OrderRow(userId, OrderService.CreateAddress(address.value).value, processed.orderProducts)]
      && |processed.orderProducts| == |stripe.lineItems|
  {
    if MissingCritical(sessionId, userId, address) then VerifyReply(400, db)
    else match stripe
      case RetrieveFailed => VerifyReply(500, db)
      case Retrieved(paymentStatus, lineItems) =>
        if paymentStatus != "paid" then VerifyReply(402, db)
        else match OrderService.CreateAddress(address.value)
          case None => VerifyReply(500, db)
          case Some(addr) =>
            var users := OrderService.UpdateUserPhone(db.users, userId, AuthRoutes.Get(address.value, "phoneNumber"));
            match OrderService.ProcessLineItems(db.products, lineItems)
            case Failed(_, _) => VerifyReply(400, db)
            case Done(products, orderProducts) =>
              VerifyReply(200, Db(users, products, db.orders + [OrderRow(userId, addr, orderProducts)]))
  }

  /** A `ValueError` from the line items is a 400, and the address and phone writes are undone. */
  lemma VerifyLineItemFailureIs400(db: Db, userId: int, sessionId: Option<string>, address: Option<Json>,
                                   lineItems: seq<OrderService.StripeLineItem>)
    requires !MissingCritical(sessionId, userId, address)
    requires OrderService.CreateAddress(address.value).Some?
    requires OrderService.ProcessLineItems(db.products, lineItems).Failed?
    ensures VerifyOrder(db, userId, sessionId, address, Retrieved("paid", lineItems)) == VerifyReply(400, db)
  {
  }

  /**
   * A paid session whose products all exist with stock for the whole batch is recorded:
   * exactly one order is appended, with one order product per Stripe line item.
   */
  lemma VerifyRecordsPaidOrder(db: Db, userId: int, sessionId: Option<string>, address: Option<Json>,
                               lineItems: seq<OrderService.StripeLineItem>)
    requires !MissingCritical(sessionId, userId, address)
    requires OrderService.CreateAddress(address.value).Some?
    requires forall k :: 0 <= k < |lineItems| ==>
      lineItems[k].productId.Some? && lineItems[k].productId.value in db.products && lineItems[k].quantity >= 0
    requires forall k :: 0 <= k < |lineItems| ==>
      db.products[lineItems[k].productId.value].stock >= OrderService.TotalQuantity(lineItems, lineItems[k].productId.value)
    ensures var r := VerifyOrder(db, userId, sessionId, address, Retrieved("paid", lineItems));
      && r.status == 200
      && |r.db.orders| == |db.orders| + 1
      && r.db.orders[..|db.orders|] == db.orders
      && var order := r.db.orders[|db.orders|];
      && order.userId == userId
      && |order.products| == |lineItems|
      && forall k :: 0 <= k < |lineItems| ==>
           order.products[k] == OrderProduct(lineItems[k].productId.value, lineItems[k].quantity, lineItems[k].unitAmount)
  {
    OrderService.SufficientUpFront(db.products, lineItems);
  }
}
