/** Orders: a purchase of part of a listing's stock, placed by the e-mail address
    of a registered account. Creation runs an ordered validation pipeline and
    snapshots the listing's price; afterwards the listing's farmer moves the
    order status and the payment status, each freely and independently. */
module Orders {
  import opened Common
  import opened Database
  import opened Accounts
  import opened Listings

  // ---------------------------------------------------------------- createOrder

  /** createOrder's request body; text fields left out are "". */
  datatype OrderRequest = OrderRequest(email: string, quantity: Input<real>, paymentMethod: string,
                                       deliveryAddress: string, deliveryPhone: string,
                                       deliveryNotes: string)

  /** The five required fields are truthy. */
  predicate FieldsPresent(req: OrderRequest) {
    req.email != "" && req.quantity.Given? && req.paymentMethod != ""
    && req.deliveryAddress != "" && req.deliveryPhone != ""
  }

  /** Every check on the body alone passes. */
  predicate WellFormed(req: OrderRequest) {
    FieldsPresent(req) && IsEmail(req.email) && Positive(req.quantity)
    && ParsePaymentMethod(req.paymentMethod).Some?
  }

  /** The amount of stock a well-formed request asks for. */
  function Requested(req: OrderRequest): real
    requires WellFormed(req)
  {
    req.quantity.parsed.value
  }

  /** An order's total is its quantity at its unit price, and the quantity is
      above zero. */
  predicate Priced(o: Order) {
    o.quantity > 0.0 && o.totalPrice == o.quantity * o.unitPrice
  }

  predicate AllPriced(orders: map<nat, Order>) {
    forall k | k in orders :: Priced(orders[k])
  }

  /** createOrder's pipeline in the handler's order, and the row it inserts under
      the next serial `id` for the listing named in the path. */
  function CheckOrder(listings: map<nat, Listing>, users: map<nat, User>, listingId: nat,
                      req: OrderRequest, id: nat): (r: Result<Order>)
    requires UniqueEmails(users)
    ensures !FieldsPresent(req) ==> r == Err(Error(400, OrderFieldsRequired))
    ensures FieldsPresent(req) && !IsEmail(req.email) ==> r == Err(Error(400, InvalidEmail))
    ensures FieldsPresent(req) && IsEmail(req.email) && !Positive(req.quantity)
            ==> r == Err(Error(400, InvalidQuantity))
    ensures (FieldsPresent(req) && IsEmail(req.email) && Positive(req.quantity)
             && ParsePaymentMethod(req.paymentMethod).None?) ==> r == Err(Error(400, InvalidPaymentMethod))
    ensures WellFormed(req) && !ListingOpen(listings, users, listingId)
            ==> r == Err(Error(404, ListingUnavailable))
    ensures WellFormed(req) && ListingOpen(listings, users, listingId)
            && Requested(req) > listings[listingId].quantity
            ==> r == Err(Error(400, StockExceeded(listings[listingId].quantity, listings[listingId].unit)))
    ensures r.Ok? <==>
              && WellFormed(req) && ListingOpen(listings, users, listingId)
              && Requested(req) <= listings[listingId].quantity
              && HasActiveEmail(users, req.email)
    ensures (r.Err? && WellFormed(req) && ListingOpen(listings, users, listingId)
             && Requested(req) <= listings[listingId].quantity) ==> r.error == Error(400, RegistrationRequired)
    ensures r.Ok? ==>
              && r.value.id == id && r.value.listingId == listingId
              && r.value.buyerEmail == req.email
              && r.value.buyerId in users && users[r.value.buyerId].email == req.email
              && users[r.value.buyerId].isActive
              && r.value.quantity == req.quantity.parsed.value
              && r.value.unitPrice == listings[listingId].price
              && Priced(r.value)
              && PaymentMethodName(r.value.paymentMethod) == req.paymentMethod
              && r.value.deliveryAddress == req.deliveryAddress
              && r.value.deliveryPhone == req.deliveryPhone
              && r.value.deliveryNotes == OptionalText(req.deliveryNotes)
              && r.value.farmerNotes.None?
              && r.value.paymentStatus == PaymentPending && r.value.orderStatus == OrderPending
  {
    if !FieldsPresent(req) then Err(Error(400, OrderFieldsRequired))
    else if !IsEmail(req.email) then Err(Error(400, InvalidEmail))
    else if !Positive(req.quantity) then Err(Error(400, InvalidQuantity))
    else if ParsePaymentMethod(req.paymentMethod).None? then Err(Error(400, InvalidPaymentMethod))
    else if !ListingOpen(listings, users, listingId) then Err(Error(404, ListingUnavailable))
    else
      var listing := listings[listingId];
      var quantity := req.quantity.parsed.value;
      if quantity > listing.quantity then Err(Error(400, StockExceeded(listing.quantity, listing.unit)))
      else
        match ActiveUserByEmail(users, req.email)
        case None => Err(Error(400, RegistrationRequired))
        case Some(buyerId) =>
          Ok(Order(id, listingId, req.email, buyerId, quantity, listing.price, quantity * listing.price,
                   ParsePaymentMethod(req.paymentMethod).value, req.deliveryAddress, req.deliveryPhone,
                   OptionalText(req.deliveryNotes), None, PaymentPending, OrderPending))
  }

  /** createOrder: inserts exactly one order, or nothing; the listing, and so its
      stock, is never touched. */
  method CreateOrder(db: Store, listingId: nat, req: OrderRequest) returns (r: Result<Order>)
    requires db.Valid()
    modifies db`orders, db`nextOrder
    ensures db.Valid()
    ensures r == CheckOrder(old(db.listings), old(db.users), listingId, req, old(db.nextOrder))
    ensures r.Ok? ==> db.orders == old(db.orders)[r.value.id := r.value] && r.value.id !in old(db.orders)
    ensures r.Err? ==> db.orders == old(db.orders) && db.nextOrder == old(db.nextOrder)
    ensures AllPriced(old(db.orders)) ==> AllPriced(db.orders)
  {
    r := CheckOrder(db.listings, db.users, listingId, req, db.nextOrder);
    if r.Ok? {
      InsertOrder(db, r.value);
    }
  }

  /** The INSERT: the row is stored under the next serial, which moves on. */
  method InsertOrder(db: Store, o: Order)
    requires db.Valid()
    requires o.id == db.nextOrder
    modifies db`orders, db`nextOrder
    ensures db.Valid()
    ensures db.orders == old(db.orders)[o.id := o] && o.id !in old(db.orders)
    ensures AllPriced(old(db.orders)) && Priced(o) ==> AllPriced(db.orders)
  {
    db.orders := db.orders[db.nextOrder := o];
    db.nextOrder := db.nextOrder + 1;
  }

  /** The stock bound is inclusive: ordering exactly the listing's quantity passes
      the stock check, and no amount above it does. */
  lemma StockBoundInclusive(listings: map<nat, Listing>, users: map<nat, User>, listingId: nat,
                            req: OrderRequest, id: nat)
    requires UniqueEmails(users)
    requires WellFormed(req) && ListingOpen(listings, users, listingId)
    ensures Requested(req) == listings[listingId].quantity
            ==> (CheckOrder(listings, users, listingId, req, id).Ok? <==> HasActiveEmail(users, req.email))
    ensures Requested(req) > listings[listingId].quantity
            ==> CheckOrder(listings, users, listingId, req, id).Err?
  {
  }

  /** Stock is not reserved: since an accepted order leaves the listing as it
      was, the same request is accepted again under the next id, so the accepted
      quantities together may exceed the stock. */
  lemma StockNotReserved(listings: map<nat, Listing>, users: map<nat, User>, listingId: nat,
                         req: OrderRequest, id: nat)
    requires UniqueEmails(users)
    requires CheckOrder(listings, users, listingId, req, id).Ok?
    requires Requested(req) == listings[listingId].quantity
    ensures CheckOrder(listings, users, listingId, req, id + 1).Ok?
    ensures CheckOrder(listings, users, listingId, req, id).value.quantity
            + CheckOrder(listings, users, listingId, req, id + 1).value.quantity
            > listings[listingId].quantity
  {
  }

  // ---------------------------------------------------------------- the farmer's updates

  /** The order is found through its listing and that listing is the caller's. */
  predicate OwnsOrder(orders: map<nat, Order>, listings: map<nat, Listing>, farmerId: nat, orderId: nat) {
    orderId in orders && orders[orderId].listingId in listings
    && listings[orders[orderId].listingId].farmerId == farmerId
  }

  /** updateOrderStatus's checks: a known status name before any lookup (400),
      then the order (404), then the caller's ownership of its listing (403). On
      success only the status and the farmer's notes change. */
  function CheckStatusUpdate(orders: map<nat, Order>, listings: map<nat, Listing>, farmerId: nat,
                             orderId: nat, status: string, farmerNotes: string): (r: Result<Order>)
    ensures ParseOrderStatus(status).None? ==> r == Err(Error(400, InvalidOrderStatus))
    ensures ParseOrderStatus(status).Some? && (orderId !in orders || orders[orderId].listingId !in listings)
            ==> r == Err(Error(404, OrderNotFound))
    ensures (ParseOrderStatus(status).Some? && orderId in orders && orders[orderId].listingId in listings
             && !OwnsOrder(orders, listings, farmerId, orderId)) ==> r == Err(Error(403, NotYourOrder))
    ensures r.Ok? <==> ParseOrderStatus(status).Some? && OwnsOrder(orders, listings, farmerId, orderId)
    ensures r.Ok? ==>
              && OrderStatusName(r.value.orderStatus) == status
              && r.value.farmerNotes == OptionalText(farmerNotes)
              && r.value == orders[orderId].(orderStatus := r.value.orderStatus, farmerNotes := r.value.farmerNotes)
  {
    if ParseOrderStatus(status).None? then Err(Error(400, InvalidOrderStatus))
    else if orderId !in orders || orders[orderId].listingId !in listings then Err(Error(404, OrderNotFound))
    else if listings[orders[orderId].listingId].farmerId != farmerId then Err(Error(403, NotYourOrder))
    else Ok(orders[orderId].(orderStatus := ParseOrderStatus(status).value,
                             farmerNotes := OptionalText(farmerNotes)))
  }

  /** updatePaymentStatus's checks, in the same order as updateOrderStatus's; on
      success only the payment status changes. */
  function CheckPaymentUpdate(orders: map<nat, Order>, listings: map<nat, Listing>, farmerId: nat,
                              orderId: nat, status: string): (r: Result<Order>)
    ensures ParsePaymentStatus(status).None? ==> r == Err(Error(400, InvalidPaymentStatus))
    ensures ParsePaymentStatus(status).Some? && (orderId !in orders || orders[orderId].listingId !in listings)
            ==> r == Err(Error(404, OrderNotFound))
    ensures (ParsePaymentStatus(status).Some? && orderId in orders && orders[orderId].listingId in listings
             && !OwnsOrder(orders, listings, farmerId, orderId)) ==> r == Err(Error(403, NotYourOrder))
    ensures r.Ok? <==> ParsePaymentStatus(status).Some? && OwnsOrder(orders, listings, farmerId, orderId)
    ensures r.Ok? ==>
              && PaymentStatusName(r.value.paymentStatus) == status
              && r.value == orders[orderId].(paymentStatus := r.value.paymentStatus)
  {
    if ParsePaymentStatus(status).None? then Err(Error(400, InvalidPaymentStatus))
    else if orderId !in orders || orders[orderId].listingId !in listings then Err(Error(404, OrderNotFound))
    else if listings[orders[orderId].listingId].farmerId != farmerId then Err(Error(403, NotYourOrder))
    else Ok(orders[orderId].(paymentStatus := ParsePaymentStatus(status).value))
  }

  /** updateOrderStatus: rewrites that one row, or nothing. */
  method UpdateOrderStatus(db: Store, farmerId: nat, orderId: nat, status: string, farmerNotes: string)
    returns (r: Result<Order>)
    requires db.Valid()
    modifies db`orders
    ensures db.Valid()
    ensures r == CheckStatusUpdate(old(db.orders), db.listings, farmerId, orderId, status, farmerNotes)
    ensures r.Ok? ==> db.orders == old(db.orders)[orderId := r.value]
    ensures r.Err? ==> db.orders == old(db.orders)
    ensures AllPriced(old(db.orders)) ==> AllPriced(db.orders)
  {
    r := CheckStatusUpdate(db.orders, db.listings, farmerId, orderId, status, farmerNotes);
    if r.Ok? {
      db.orders := db.orders[orderId := r.value];
    }
  }

  /** updatePaymentStatus: rewrites that one row, or nothing. */
  method UpdatePaymentStatus(db: Store, farmerId: nat, orderId: nat, status: string)
    returns (r: Result<Order>)
    requires db.Valid()
    modifies db`orders
    ensures db.Valid()
    ensures r == CheckPaymentUpdate(old(db.orders), db.listings, farmerId, orderId, status)
    ensures r.Ok? ==> db.orders == old(db.orders)[orderId := r.value]
    ensures r.Err? ==> db.orders == old(db.orders)
    ensures AllPriced(old(db.orders)) ==> AllPriced(db.orders)
  {
    r := CheckPaymentUpdate(db.orders, db.listings, farmerId, orderId, status);
    if r.Ok? {
      db.orders := db.orders[orderId := r.value];
    }
  }

  /** No transition is forbidden: the owner can move an order to any order status
      from any other, a delivered or cancelled order included. */
  lemma AnyStatusFollowsAny(orders: map<nat, Order>, listings: map<nat, Listing>, farmerId: nat,
                            orderId: nat, target: OrderStatus, farmerNotes: string)
    requires OwnsOrder(orders, listings, farmerId, orderId)
    ensures CheckStatusUpdate(orders, listings, farmerId, orderId, OrderStatusName(target), farmerNotes)
            == Ok(orders[orderId].(orderStatus := target, farmerNotes := OptionalText(farmerNotes)))
  {
    NamesParse();
  }

  /** Likewise for the payment status. */
  lemma AnyPaymentStatusFollowsAny(orders: map<nat, Order>, listings: map<nat, Listing>, farmerId: nat,
                                   orderId: nat, target: PaymentStatus)
    requires OwnsOrder(orders, listings, farmerId, orderId)
    ensures CheckPaymentUpdate(orders, listings, farmerId, orderId, PaymentStatusName(target))
            == Ok(orders[orderId].(paymentStatus := target))
  {
    NamesParse();
  }

  /** The two enums are independent: a successful order-status update followed by
      a successful payment-status update leaves the same row as the two in the
      other order. */
  lemma UpdatesCommute(orders: map<nat, Order>, listings: map<nat, Listing>, farmerId: nat,
                       orderId: nat, status: string, farmerNotes: string, payment: string)
    requires CheckStatusUpdate(orders, listings, farmerId, orderId, status, farmerNotes).Ok?
    requires CheckPaymentUpdate(orders, listings, farmerId, orderId, payment).Ok?
    ensures var s := CheckStatusUpdate(orders, listings, farmerId, orderId, status, farmerNotes).value;
            var p := CheckPaymentUpdate(orders, listings, farmerId, orderId, payment).value;
            && CheckPaymentUpdate(orders[orderId := s], listings, farmerId, orderId, payment).Ok?
            && CheckStatusUpdate(orders[orderId := p], listings, farmerId, orderId, status, farmerNotes).Ok?
            && orders[orderId := s][orderId := CheckPaymentUpdate(orders[orderId := s], listings, farmerId, orderId, payment).value]
               == orders[orderId := p][orderId := CheckStatusUpdate(orders[orderId := p], listings, farmerId, orderId, status, farmerNotes).value]
  {
    var s := CheckStatusUpdate(orders, listings, farmerId, orderId, status, farmerNotes).value;
    var p := CheckPaymentUpdate(orders, listings, farmerId, orderId, payment).value;
    assert orders[orderId := s][orderId] == s;
    assert orders[orderId := p][orderId] == p;
  }

  // ---------------------------------------------------------------- getOrderById

  /** getOrderById: the order is shown only when the joins with its listing and
      both users' rows succeed and the caller is its buyer or the listing's
      farmer; otherwise one 404 covers both cases. */
  function ViewOrder(orders: map<nat, Order>, listings: map<nat, Listing>, users: map<nat, User>,
                     userId: nat, orderId: nat): (r: Result<Order>)
    ensures r.Ok? <==>
              && orderId in orders && orders[orderId].listingId in listings
              && orders[orderId].buyerId in users
              && listings[orders[orderId].listingId].farmerId in users
              && (userId == orders[orderId].buyerId || userId == listings[orders[orderId].listingId].farmerId)
    ensures r.Ok? ==> r.value == orders[orderId]
    ensures r.Err? ==> r.error == Error(404, OrderNotFoundOrNotYours)
  {
    if orderId !in orders then Err(Error(404, OrderNotFoundOrNotYours))
    else
      var o := orders[orderId];
      if o.listingId !in listings || o.buyerId !in users || listings[o.listingId].farmerId !in users then
        Err(Error(404, OrderNotFoundOrNotYours))
      else if userId != o.buyerId && userId != listings[o.listingId].farmerId then
        Err(Error(404, OrderNotFoundOrNotYours))
      else Ok(o)
  }

  /** A third party never sees an order. */
  lemma OnlyPartiesSeeOrder(orders: map<nat, Order>, listings: map<nat, Listing>, users: map<nat, User>,
                            userId: nat, orderId: nat)
    requires orderId in orders && orders[orderId].listingId in listings
    requires userId != orders[orderId].buyerId && userId != listings[orders[orderId].listingId].farmerId
    ensures ViewOrder(orders, listings, users, userId, orderId).Err?
  {
  }

  /** The price is a snapshot: after the farmer edits the ordered listing (its
      price included) with updateListing, the order is visible to the same
      callers and shows the unit and total price it was placed at. */
  lemma SnapshotSurvivesRepricing(orders: map<nat, Order>, listings: map<nat, Listing>, users: map<nat, User>,
                                  userId: nat, orderId: nat, patch: Patch)
    requires orderId in orders && orders[orderId].listingId in listings
    requires !BadNumber(patch.quantity) && !BadNumber(patch.price)
    ensures var lid := orders[orderId].listingId;
            var repriced := listings[lid := ApplyPatch(listings[lid], patch)];
            && ViewOrder(orders, repriced, users, userId, orderId).Ok?
               == ViewOrder(orders, listings, users, userId, orderId).Ok?
            && (ViewOrder(orders, repriced, users, userId, orderId).Ok? ==>
                  && ViewOrder(orders, repriced, users, userId, orderId).value.unitPrice == orders[orderId].unitPrice
                  && ViewOrder(orders, repriced, users, userId, orderId).value.totalPrice == orders[orderId].totalPrice)
  {
  }
}
