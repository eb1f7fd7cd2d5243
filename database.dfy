/** The shared PostgreSQL tables as one in-memory store: the row types, the
    enumerated column values and their spellings, the store itself, and the
    lookups several handlers run against it. */
module Database {
  import opened Common

  // ---------------------------------------------------------------- column values

  datatype UserType = Personal | Farmer

  datatype OfferStatus = Pending | Accepted | Rejected

  datatype OrderStatus = OrderPending | Confirmed | Preparing | Shipped | Delivered | Cancelled

  datatype PaymentStatus = PaymentPending | Paid | Failed | Refunded

  datatype PaymentMethod = CreditCard | BankTransfer | CashOnDelivery | DigitalWallet

  function UserTypeName(t: UserType): string {
    match t
    case Personal => "personal"
    case Farmer => "farmer"
  }

  /** `['personal', 'farmer'].includes(s)`, returning the value it names. */
  function ParseUserType(s: string): (r: Option<UserType>)
    ensures r.Some? <==> s == "personal" || s == "farmer"
    ensures r.Some? ==> UserTypeName(r.value) == s
  {
    if s == "personal" then Some(Personal)
    else if s == "farmer" then Some(Farmer)
    else None
  }

  function OrderStatusName(s: OrderStatus): string {
    match s
    case OrderPending => "pending"
    case Confirmed => "confirmed"
    case Preparing => "preparing"
    case Shipped => "shipped"
    case Delivered => "delivered"
    case Cancelled => "cancelled"
  }

  /** Membership in the six order statuses of updateOrderStatus. */
  function ParseOrderStatus(s: string): (r: Option<OrderStatus>)
    ensures r.Some? <==> s in {"pending", "confirmed", "preparing", "shipped", "delivered", "cancelled"}
    ensures r.Some? ==> OrderStatusName(r.value) == s
  {
    if s == "pending" then Some(OrderPending)
    else if s == "confirmed" then Some(Confirmed)
    else if s == "preparing" then Some(Preparing)
    else if s == "shipped" then Some(Shipped)
    else if s == "delivered" then Some(Delivered)
    else if s == "cancelled" then Some(Cancelled)
    else None
  }

  function PaymentStatusName(s: PaymentStatus): string {
    match s
    case PaymentPending => "pending"
    case Paid => "paid"
    case Failed => "failed"
    case Refunded => "refunded"
  }

  /** Membership in the four payment statuses of updatePaymentStatus. */
  function ParsePaymentStatus(s: string): (r: Option<PaymentStatus>)
    ensures r.Some? <==> s in {"pending", "paid", "failed", "refunded"}
    ensures r.Some? ==> PaymentStatusName(r.value) == s
  {
    if s == "pending" then Some(PaymentPending)
    else if s == "paid" then Some(Paid)
    else if s == "failed" then Some(Failed)
    else if s == "refunded" then Some(Refunded)
    else None
  }

  function PaymentMethodName(m: PaymentMethod): string {
    match m
    case CreditCard => "credit_card"
    case BankTransfer => "bank_transfer"
    case CashOnDelivery => "cash_on_delivery"
    case DigitalWallet => "digital_wallet"
  }

  /** Membership in the four payment methods of createOrder. */
  function ParsePaymentMethod(s: string): (r: Option<PaymentMethod>)
    ensures r.Some? <==> s in {"credit_card", "bank_transfer", "cash_on_delivery", "digital_wallet"}
    ensures r.Some? ==> PaymentMethodName(r.value) == s
  {
    if s == "credit_card" then Some(CreditCard)
    else if s == "bank_transfer" then Some(BankTransfer)
    else if s == "cash_on_delivery" then Some(CashOnDelivery)
    else if s == "digital_wallet" then Some(DigitalWallet)
    else None
  }

  /** Every enumerated value is accepted under its own spelling. */
  lemma NamesParse()
    ensures forall t :: ParseUserType(UserTypeName(t)) == Some(t)
    ensures forall s :: ParseOrderStatus(OrderStatusName(s)) == Some(s)
    ensures forall s :: ParsePaymentStatus(PaymentStatusName(s)) == Some(s)
    ensures forall m :: ParsePaymentMethod(PaymentMethodName(m)) == Some(m)
  {
    forall s: OrderStatus ensures ParseOrderStatus(OrderStatusName(s)) == Some(s) {
      match s
      case OrderPending =>
      case Confirmed =>
      case Preparing =>
      case Shipped =>
      case Delivered =>
      case Cancelled =>
    }
  }

  // ---------------------------------------------------------------- rows

  /** A row of `users` (the password hash is not modelled). */
  datatype User = User(id: nat, firstName: string, lastName: string, username: string,
                       phone: string, email: string, userType: UserType, isActive: bool)

  /** One entry of a listing's `images_info`. */
  datatype Image = Image(path: string, originalName: string)

  /** A row of `listings`. Text columns left NULL are the empty string here. */
  datatype Listing = Listing(id: nat, farmerId: nat, productType: string, quantity: real,
                             unit: string, price: real, harvestDate: string,
                             description: string, location: string, contactInfo: string,
                             isActive: bool, images: seq<Image>)

  /** A row of `offers`. */
  datatype Offer = Offer(id: nat, listingId: nat, buyerId: nat, offerPrice: real,
                         message: Option<string>, status: OfferStatus)

  /** A row of `orders`. */
  datatype Order = Order(id: nat, listingId: nat, buyerEmail: string, buyerId: nat,
                         quantity: real, unitPrice: real, totalPrice: real,
                         paymentMethod: PaymentMethod, deliveryAddress: string,
                         deliveryPhone: string, deliveryNotes: Option<string>,
                         farmerNotes: Option<string>, paymentStatus: PaymentStatus,
                         orderStatus: OrderStatus)

  /** A row of `ratings`. */
  datatype Rating = Rating(id: nat, listingId: nat, email: string, value: int)

  /** A row of `messages`; `createdAt` is the value of a monotone clock. */
  datatype Message = Message(id: nat, senderId: nat, receiverId: nat, text: string, createdAt: nat)

  // ---------------------------------------------------------------- shared lookups

  /** `SELECT ... FROM users WHERE id = $1 AND is_active = true` finds a row. */
  predicate ActiveUser(users: map<nat, User>, id: nat) {
    id in users && users[id].isActive
  }

  /** The listing lookup of sendOffer and createOrder finds a row: the listing
      exists and is active, and so is the farmer who owns it. */
  predicate ListingOpen(listings: map<nat, Listing>, users: map<nat, User>, id: nat) {
    id in listings && listings[id].isActive && ActiveUser(users, listings[id].farmerId)
  }

  /** `SELECT id FROM users WHERE email = $1 AND is_active = true` finds a row. */
  predicate HasActiveEmail(users: map<nat, User>, email: string) {
    exists id | id in users :: users[id].email == email && users[id].isActive
  }

  /** No two accounts share an email address. */
  predicate UniqueEmails(users: map<nat, User>) {
    forall a, b | a in users && b in users && a != b :: users[a].email != users[b].email
  }

  /** No two accounts share an email address, a username or a phone number. */
  predicate UniqueAccounts(users: map<nat, User>) {
    && UniqueEmails(users)
    && (forall a, b | a in users && b in users && a != b :: users[a].username != users[b].username)
    && (forall a, b | a in users && b in users && a != b :: users[a].phone != users[b].phone)
  }

  /** The id of the active account registered under `email`, if there is one. */
  function ActiveUserByEmail(users: map<nat, User>, email: string): (r: Option<nat>)
    requires UniqueEmails(users)
    ensures r.Some? <==> HasActiveEmail(users, email)
    ensures r.Some? ==> r.value in users && users[r.value].email == email && users[r.value].isActive
  {
    if HasActiveEmail(users, email) then
      var id :| id in users && users[id].email == email && users[id].isActive; Some(id)
    else None
  }

  /** `SELECT id FROM offers WHERE listing_id = $1 AND buyer_id = $2` finds a row. */
  predicate HasOffer(offers: map<nat, Offer>, listingId: nat, buyerId: nat) {
    exists k | k in offers :: offers[k].listingId == listingId && offers[k].buyerId == buyerId
  }

  /** At most one offer per (listing, buyer), whatever its status. */
  predicate UniqueOfferPairs(offers: map<nat, Offer>) {
    forall a, b | a in offers && b in offers && a != b ::
      offers[a].listingId != offers[b].listingId || offers[a].buyerId != offers[b].buyerId
  }

  /** `SELECT id FROM ratings WHERE listing_id = $1 AND email = $2` finds a row. */
  predicate HasRating(ratings: seq<Rating>, listingId: nat, email: string) {
    exists i | 0 <= i < |ratings| :: ratings[i].listingId == listingId && ratings[i].email == email
  }

  /** At most one rating per (listing, email). */
  predicate UniqueRatingPairs(ratings: seq<Rating>) {
    forall i, j | 0 <= i < j < |ratings| ::
      ratings[i].listingId != ratings[j].listingId || ratings[i].email != ratings[j].email
  }

  /** Every stored rating is a whole number of stars from 1 to 5. */
  predicate RatingsInRange(ratings: seq<Rating>) {
    forall i | 0 <= i < |ratings| :: 1 <= ratings[i].value <= 5
  }

  /** Rows whose `created_at` strictly increases along the table. */
  predicate Chronological(ms: seq<Message>) {
    forall i, j | 0 <= i < j < |ms| :: ms[i].createdAt < ms[j].createdAt
  }

  /** No two rows share an id. */
  predicate DistinctIds(ms: seq<Message>) {
    forall i, j | 0 <= i < j < |ms| :: ms[i].id != ms[j].id
  }

  /** Nobody is their own correspondent. */
  predicate NoSelfMessages(ms: seq<Message>) {
    forall i | 0 <= i < |ms| :: ms[i].senderId != ms[i].receiverId
  }

  // ---------------------------------------------------------------- table invariants

  /** Each key is its row's id and lies below the table's serial. */
  predicate UsersKeyed(users: map<nat, User>, next: nat) {
    forall k | k in users :: users[k].id == k && k < next
  }

  predicate ListingsKeyed(listings: map<nat, Listing>, next: nat) {
    forall k | k in listings :: listings[k].id == k && k < next
  }

  predicate OffersKeyed(offers: map<nat, Offer>, next: nat) {
    forall k | k in offers :: offers[k].id == k && k < next
  }

  predicate OrdersKeyed(orders: map<nat, Order>, next: nat) {
    forall k | k in orders :: orders[k].id == k && k < next
  }

  /** One 1..5 rating per (listing, email), ids below the serial. */
  predicate RatingTable(ratings: seq<Rating>, next: nat) {
    && UniqueRatingPairs(ratings) && RatingsInRange(ratings)
    && forall i | 0 <= i < |ratings| :: ratings[i].id < next
  }

  /** Oldest first, distinct ids below the serial, stamps before `clock`, and no
      self-messages. */
  predicate MessageTable(messages: seq<Message>, next: nat, clock: nat) {
    && Chronological(messages) && DistinctIds(messages) && NoSelfMessages(messages)
    && forall i | 0 <= i < |messages| :: messages[i].id < next && messages[i].createdAt < clock
  }

  // ---------------------------------------------------------------- the store

  /** The database. Each table with a serial key is a map from id to row; the two
      tables whose queries depend on row order are sequences in insertion order.
      `next...` are the serial sequences and `clock` stands for CURRENT_TIMESTAMP. */
  class Store {
    var users: map<nat, User>
    var listings: map<nat, Listing>
    var offers: map<nat, Offer>
    var orders: map<nat, Order>
    var ratings: seq<Rating>
    var messages: seq<Message>
    var nextUser: nat
    var nextListing: nat
    var nextOffer: nat
    var nextOrder: nat
    var nextRating: nat
    var nextMessage: nat
    var clock: nat

    /** Keys match the rows' ids and lie below their serial; accounts are unique;
        a buyer has at most one offer per listing; an email rates a listing at
        most once, with 1 to 5 stars; messages are stored oldest first with
        distinct ids, none sent to its own sender. */
    ghost predicate Valid()
      reads this
    {
      && UsersKeyed(users, nextUser) && ListingsKeyed(listings, nextListing)
      && OffersKeyed(offers, nextOffer) && OrdersKeyed(orders, nextOrder)
      && UniqueAccounts(users)
      && UniqueOfferPairs(offers)
      && RatingTable(ratings, nextRating)
      && MessageTable(messages, nextMessage, clock)
    }

    /** An empty database. */
    constructor ()
      ensures Valid()
      ensures users == map[] && listings == map[] && offers == map[] && orders == map[]
      ensures ratings == [] && messages == []
    {
      users, listings, offers, orders := map[], map[], map[], map[];
      ratings, messages := [], [];
      nextUser, nextListing, nextOffer, nextOrder, nextRating, nextMessage := 1, 1, 1, 1, 1, 1;
      clock := 0;
    }
  }
}
