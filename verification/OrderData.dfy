/** One stored order of orderService and the single writes its handlers make to it
    (order.service.js, qr.service.js, order.repository.js). Every write takes the order as
    it is in the store (cur) and, where the handler computes from it, the copy the handler
    read before (read); the atomic handlers pass the same order twice. */
module OrderData {
  import opened Options
  datatype OrderType = Delivery | Preorder | Reservation
  datatype Method = PayOnApp | PayLater
  datatype Status = Created | PaidStatus | Expired | Delivered | Obtained | Finished | Completed | Cancelled
  datatype PayStatus = Unpaid | Paid
  datatype DebtStatus = NoDebt | Outstanding | Cleared

  datatype Item = Item(menuItemId: string, unitPrice: int, quantity: int)   // prices in minor units
  datatype Payment = Payment(payBy: Method, status: PayStatus, providerRef: Option<string>, lastEventId: Option<string>)
  datatype Debt = Debt(status: DebtStatus, amount: int, recordedAt: Option<int>, clearedAt: Option<int>)
  datatype Flags = Flags(blacklistTriggered: bool, temporaryReview: bool)

  // ---- QR tokens ----

  datatype OrderRef = Pending | Ref(id: nat)
  datatype Payload = Payload(orderId: OrderRef, restaurantId: string, nonce: string, exp: int)

  /** hmacSha256 of the payload under the service's key, or anything else. */
  datatype Signature = Sign(payload: Payload) | Forged(text: string)
  datatype RawToken = Garbled(text: string) | RawToken(data: Payload, signature: Signature)
  datatype TokenHash = HashOf(raw: RawToken)

  datatype Qr = Qr(tokenHash: TokenHash, expiresAt: int, scannedAt: Option<int>, scannedBy: Option<string>)

  datatype Order = Order(
    userId: string, restaurantId: string, orderType: OrderType, items: seq<Item>, total: int,
    status: Status, payment: Payment, debt: Debt, flags: Flags, qr: Qr, driverArrivedAt: Option<int>)

  function BuildToken(orderId: OrderRef, restaurantId: string, nonce: string, exp: int): RawToken {
    var data := Payload(orderId, restaurantId, nonce, exp);
    RawToken(data, Sign(data))
  }

  function BuildQr(orderId: OrderRef, restaurantId: string, nonce: string, exp: int): Qr {
    Qr(HashOf(BuildToken(orderId, restaurantId, nonce, exp)), exp, None, None)
  }

  function VerifyToken(raw: RawToken, now: int): Option<Payload> {
    if raw.Garbled? || raw.signature != Sign(raw.data) || raw.data.exp <= now then None else Some(raw.data)
  }

  // ---- Creation ----

  function Subtotal(items: seq<Item>): int {
    if items == [] then 0 else Subtotal(items[..|items| - 1]) + items[|items| - 1].unitPrice * items[|items| - 1].quantity
  }

  /** What the request validator lets through. */
  predicate ValidItems(items: seq<Item>) {
    items != [] && forall i :: 0 <= i < |items| ==> items[i].unitPrice > 0 && items[i].quantity > 0
  }

  lemma {:induction false} SubtotalPositive(items: seq<Item>)
    requires ValidItems(items)
    ensures Subtotal(items) > 0
  {
    var n := |items|;
    Product(items[n - 1].unitPrice, items[n - 1].quantity);
    if n > 1 {
      SubtotalPositive(items[..n - 1]);
    } else {
      assert items[..n - 1] == [];
    }
  }

  lemma Product(a: int, b: int)
    requires a > 0 && b > 0
    ensures a * b > 0
  {}

  function Draft(userId: string, restaurantId: string, orderType: OrderType, payBy: Method, items: seq<Item>, qr: Qr): Order {
    Order(userId, restaurantId, orderType, items, Subtotal(items),
          if payBy.PayOnApp? then PaidStatus else Created,
          Payment(payBy, if payBy.PayOnApp? then Paid else Unpaid, None, None),
          Debt(NoDebt, 0, None, None), Flags(false, false), qr, None)
  }

  /** The second write of createOrder replaces the whole qr sub-document. */
  function WriteQr(cur: Order, qr: Qr): Order {
    cur.(qr := qr)
  }

  // ---- The other writes ----

  function WriteCancelled(cur: Order, read: Order, now: int): Order {
    cur.(status := Cancelled, flags := Flags(false, false),
         debt := Debt(if read.debt.status.Cleared? then Cleared else NoDebt, 0, read.debt.recordedAt,
                      if read.debt.clearedAt.Some? then read.debt.clearedAt else Some(now)))
  }

  function ScanStatus(o: Order): Status {
    match o.orderType
    case Delivery => if o.payment.payBy.PayLater? then PaidStatus else Delivered
    case Preorder => Obtained
    case Reservation => Finished
  }

  function WriteScanned(cur: Order, read: Order, scanner: string, now: int): Order {
    cur.(qr := cur.qr.(scannedAt := Some(now), scannedBy := Some(scanner)),
         status := ScanStatus(read),
         payment := cur.payment.(status := if read.payment.payBy.PayLater? then Paid else read.payment.status),
         debt := Debt(Cleared, 0, read.debt.recordedAt, Some(now)),
         flags := Flags(false, false))
  }

  function WritePaid(cur: Order, read: Order, providerRef: Option<string>, eventId: string, now: int): Order {
    cur.(status := PaidStatus,
         payment := cur.payment.(status := Paid, providerRef := providerRef,
                                 lastEventId := if eventId == "" then None else Some(eventId)),
         debt := Debt(Cleared, 0, read.debt.recordedAt, Some(now)),
         flags := Flags(false, false))
  }

  function WriteExpired(cur: Order, read: Order, now: int): Order {
    cur.(status := Expired, debt := Debt(Outstanding, read.total, Some(now), None), flags := Flags(true, true))
  }

  predicate PaidDebt(o: Order, userId: string) {
    o.userId == userId && o.debt.status.Outstanding? && o.debt.amount > 0 && o.payment.status.Paid?
  }

  /** What the updateMany of the debt query does to one order. */
  function WriteCleared(cur: Order, userId: string, now: int): Order {
    if PaidDebt(cur, userId)
    then cur.(debt := cur.debt.(status := Cleared, amount := 0, clearedAt := Some(now)), flags := Flags(false, false))
    else cur
  }

  predicate UnpaidDebt(o: Order, userId: string) {
    o.userId == userId && o.debt.status.Outstanding? && o.debt.amount > 0 && !o.payment.status.Paid?
  }

  // ---- Guards ----

  datatype Role = Superadmin | Manager | Staff | DeliveryMan | OtherRole
  datatype Auth = Auth(userId: string, roles: set<Role>)

  predicate Due(o: Order, now: int) {
    && o.qr.expiresAt < now && o.qr.scannedAt.None?
    && !o.payment.status.Paid? && !o.debt.status.Cleared?
    && !o.status.Expired? && !o.status.Completed? && !o.status.Cancelled?
  }

  datatype Refusal = NotFound | Forbidden | Conflict | BadRequest | TenantDenied

  /** Why cancelMyOrder refuses an order it found, if it does. */
  function CancelRefusal(o: Order, auth: Auth): Option<Refusal> {
    if Superadmin !in auth.roles && o.userId != auth.userId then Some(Forbidden)
    else if o.qr.scannedAt.Some? then Some(Conflict)
    else if o.status.Expired? || o.status.Completed? || o.status.Cancelled? then Some(Conflict)
    else if o.debt.status.Outstanding? then Some(Conflict)
    else None
  }

  /** assertScannerAuthorized. */
  function ScannerRefusal(o: Order, auth: Auth, isMember: bool): Option<Refusal> {
    if Superadmin in auth.roles then None
    else if !(if o.orderType.Delivery? then DeliveryMan in auth.roles else Staff in auth.roles || Manager in auth.roles)
    then Some(Forbidden)
    else if !isMember then Some(TenantDenied)
    else None
  }

  /** Why scanQr refuses a verified token on the order it names, if it does. */
  function ScanRefusal(o: Order, raw: RawToken, restaurantId: string, auth: Auth, isMember: bool): Option<Refusal> {
    if o.restaurantId != restaurantId then Some(NotFound)
    else if o.qr.scannedAt.Some? then Some(Conflict)
    else if HashOf(raw) != o.qr.tokenHash then Some(BadRequest)
    else ScannerRefusal(o, auth, isMember)
  }

  // ---- What holds of one order ----

  predicate QrBound(id: nat, o: Order) {
    && o.qr.tokenHash.raw.RawToken?
    && var data := o.qr.tokenHash.raw.data;
       o.qr.tokenHash.raw.signature == Sign(data) && data.orderId == Ref(id) && data.restaurantId == o.restaurantId && data.exp == o.qr.expiresAt
  }

  /** The debt and payment part of an order, whatever its clock. */
  predicate DebtOk(o: Order) {
    && (o.status.Expired? <==> o.debt.status.Outstanding?)
    && o.debt.amount == (if o.debt.status.Outstanding? then o.total else 0)
    && o.flags == Flags(o.debt.status.Outstanding?, o.debt.status.Outstanding?)
    && (o.debt.status.Outstanding? ==> !o.payment.status.Paid? && o.qr.scannedAt.None?)
    && (o.debt.status.Cleared? ==> o.payment.status.Paid?)
    && (o.payment.payBy.PayOnApp? ==> o.payment.status.Paid?)
    && (o.qr.scannedAt.Some? ==> o.payment.status.Paid? && o.debt.status.Cleared?)
  }

  /** When a debt was recorded and cleared. */
  predicate DebtTimesOk(d: Debt) {
    && (d.status.NoDebt? ==> d.recordedAt.None?)
    && (d.status.Outstanding? ==> d.recordedAt.Some? && d.clearedAt.None?)
    && (d.status.Cleared? ==> d.clearedAt.Some?)
  }

  /** The closing status of each order flow, reached by a scan only. */
  predicate StatusOk(o: Order) {
    && (o.status.Delivered? ==> o.orderType.Delivery? && o.payment.payBy.PayOnApp?)
    && (o.status.Obtained? ==> o.orderType.Preorder?)
    && (o.status.Finished? ==> o.orderType.Reservation?)
    && (o.status.Delivered? || o.status.Obtained? || o.status.Finished? ==> o.qr.scannedAt.Some?)
    && (o.qr.scannedAt.Some? ==> o.status.PaidStatus? || o.status.Delivered? || o.status.Obtained? || o.status.Finished?)
    && !o.status.Completed?
    && (o.qr.scannedAt.Some? <==> o.qr.scannedBy.Some?)
  }

  predicate OrderOk(id: nat, o: Order, clock: int) {
    && o.total == Subtotal(o.items) && o.total > 0
    && QrBound(id, o)
    && DebtOk(o) && DebtTimesOk(o.debt) && StatusOk(o)
    && (o.debt.status.Outstanding? ==> o.qr.expiresAt < clock)
  }

  function Rank(s: DebtStatus): nat {
    match s case NoDebt => 0 case Outstanding => 1 case Cleared => 2
  }

  /** Nothing the service does later can make the order owe. */
  predicate NeverOwes(o: Order) {
    o.status.Cancelled? || o.debt.status.Cleared?
  }

  /** What any number of atomic handler calls can do to an order. */
  predicate Evolves(o: Order, o': Order) {
    && o'.userId == o.userId && o'.restaurantId == o.restaurantId && o'.orderType == o.orderType
    && o'.items == o.items && o'.total == o.total && o'.payment.payBy == o.payment.payBy
    && o'.qr.tokenHash == o.qr.tokenHash && o'.qr.expiresAt == o.qr.expiresAt
    && (o.qr.scannedAt.Some? ==> o'.qr == o.qr)
    && (o.payment.status.Paid? ==> o'.payment.status.Paid?)
    && Rank(o.debt.status) <= Rank(o'.debt.status)
    && (o.debt.recordedAt.Some? ==> o'.debt.recordedAt == o.debt.recordedAt)
    && (NeverOwes(o) ==> NeverOwes(o'))
  }
}
