/** The handlers of orderService over the whole store, each as one atomic step
    (order.service.js and the two consumers). Order ids are creation numbers. */
module Orders {
  import opened Options
  import opened Runs
  import opened OrderData

  datatype Message =
    | OrderCreated(id: nat)
    | QrGenerated(id: nat, expiresAt: int)
    | VerifyPayment(id: nat, amount: int)
    | InventoryCheck(id: nat)
    | OrderPaid(id: nat, total: int)
    | OrderCancelled(id: nat, cancelledBy: string)
    | QrScanned(id: nat, scannedBy: string)
    | InventoryConsumed(id: nat)
    | PaymentStatusChanged(id: nat)
    | DriverArrived(id: nat, debtAmount: int)
    | QrExpired(id: nat, debtAmount: int)

  datatype World = World(
    ttl: int,                                     // QR lifetime
    clock: int,
    orders: seq<Order>,
    processed: set<string>,                       // processed event ids
    members: map<(string, string), string>,       // (user, restaurant) -> role
    published: seq<Message>)

  datatype DebtLine = DebtLine(id: nat, restaurantId: string, amount: int, recordedAt: Option<int>, status: Status)

  datatype Reply =
    | Refused(why: Refusal)
    | NewOrder(id: nat, token: RawToken)
    | Updated(id: nat)
    | Debts(has: bool, total: int, lines: seq<DebtLine>)
    | Swept(processed: nat)
    | Aborted                                     // the blacklist call threw inside the sweep
    | Ignored
    | Handled

  function Start(ttl: int): World {
    World(ttl, 0, [], {}, map[], [])
  }

  function At1(w: World, id: nat, o: Order, messages: seq<Message>): World
    requires id < |w.orders|
  {
    w.(orders := w.orders[id := o], published := w.published + messages)
  }

  // ---- createOrder ----

  function Create(w: World, userId: string, restaurantId: string, orderType: OrderType, payBy: Method,
                  items: seq<Item>, pendingNonce: string, nonce: string, now: int): (World, Reply) {
    var id := |w.orders|;
    var draft := Draft(userId, restaurantId, orderType, payBy, items, BuildQr(Pending, restaurantId, pendingNonce, now + w.ttl));
    var o := WriteQr(draft, BuildQr(Ref(id), draft.restaurantId, nonce, now + w.ttl));
    (w.(orders := w.orders + [o], published := w.published + CreateMessages(id, o)),
     NewOrder(id, BuildToken(Ref(id), restaurantId, nonce, now + w.ttl)))
  }

  function CreateMessages(id: nat, o: Order): seq<Message> {
    [OrderCreated(id), QrGenerated(id, o.qr.expiresAt), VerifyPayment(id, o.total), InventoryCheck(id)]
    + (if o.payment.status.Paid? then [OrderPaid(id, o.total)] else [])
  }

  // ---- cancelMyOrder ----

  function Cancel(w: World, id: nat, auth: Auth, now: int): (World, Reply) {
    if id >= |w.orders| then (w, Refused(NotFound))
    else
      var o := w.orders[id];
      var no := CancelRefusal(o, auth);
      if no.Some? then (w, Refused(no.value))
      else (At1(w, id, WriteCancelled(o, o, now), [OrderCancelled(id, auth.userId)]), Updated(id))
  }

  // ---- scanQr ----

  function Scan(w: World, raw: RawToken, auth: Auth, now: int): (World, Reply) {
    var verified := VerifyToken(raw, now);
    if verified.None? then (w, Refused(BadRequest))
    else if verified.value.orderId.Pending? || verified.value.orderId.id >= |w.orders| then (w, Refused(NotFound))
    else
      var id := verified.value.orderId.id;
      var o := w.orders[id];
      var no := ScanRefusal(o, raw, verified.value.restaurantId, auth, (auth.userId, o.restaurantId) in w.members);
      if no.Some? then (w, Refused(no.value))
      else
        var o' := WriteScanned(o, o, auth.userId, now);
        (At1(w, id, o', ScanMessages(id, o', auth.userId)), Updated(id))
  }

  function ScanMessages(id: nat, o: Order, scanner: string): seq<Message> {
    [QrScanned(id, scanner)] + (if o.payment.status.Paid? then [OrderPaid(id, o.total)] else []) + [InventoryConsumed(id)]
  }

  // ---- The two payment consumers ----

  /** A payment message: its order id field, its resource id field, and the extra ones. */
  datatype PaymentEvent = PaymentEvent(orderId: Option<nat>, resourceId: Option<nat>, providerRef: Option<string>,
                                       debtAmount: Option<int>)

  predicate IsProcessed(w: World, eventId: string) {
    eventId != "" && eventId in w.processed
  }

  function MarkProcessed(processed: set<string>, eventId: string): set<string> {
    if eventId == "" then processed else processed + {eventId}
  }

  function PayTarget(event: PaymentEvent, forOrder: bool): Option<nat> {
    if forOrder && event.orderId.Some? then event.orderId else event.resourceId
  }

  /** forOrder: onOrderPaymentSucceeded, otherwise onPaymentSucceeded. */
  function Pay(w: World, event: PaymentEvent, forOrder: bool, eventId: string, now: int): (World, Reply) {
    var target := PayTarget(event, forOrder);
    if IsProcessed(w, eventId) || target.None? || target.value >= |w.orders| then (w, Ignored)
    else
      var id := target.value;
      var o := WritePaid(w.orders[id], w.orders[id], event.providerRef, eventId, now);
      (At1(w, id, o, PayMessages(id, o, event, forOrder)).(processed := MarkProcessed(w.processed, eventId)), Handled)
  }

  function PayMessages(id: nat, o: Order, event: PaymentEvent, forOrder: bool): seq<Message> {
    [PaymentStatusChanged(id), OrderPaid(id, o.total)]
    + (if forOrder && o.orderType.Delivery?
       then [DriverArrived(id, if event.debtAmount.Some? then event.debtAmount.value else o.total)] else [])
  }

  // ---- The membership consumer ----

  datatype MembershipEvent = MembershipEvent(userId: string, staffUserId: string, managerUserId: string,
                                             restaurantId: string, role: string, removed: bool, removedKey: bool)

  function Member(p: MembershipEvent): (string, string) {
    (if p.userId != "" then p.userId else if p.staffUserId != "" then p.staffUserId else p.managerUserId, p.restaurantId)
  }

  function Upper(s: string): string {
    seq(|s|, i requires 0 <= i < |s| => if 'a' <= s[i] <= 'z' then s[i] - 'a' + 'A' else s[i])
  }

  function Membership(w: World, p: MembershipEvent, eventId: string): (World, Reply) {
    if IsProcessed(w, eventId) then (w, Ignored)
    else
      var marked := MarkProcessed(w.processed, eventId);
      var key := Member(p);
      if key.0 == "" || key.1 == "" then (w.(processed := marked), Ignored)
      else if p.removed || p.removedKey then (w.(processed := marked, members := w.members - {key}), Handled)
      else (w.(processed := marked, members := w.members[key := Upper(if p.role == "" then "STAFF" else p.role)]), Handled)
  }

  // ---- processExpiredQrOrders ----

  /** The due orders among the first n, in store order. */
  function DueUpTo(orders: seq<Order>, now: int, n: nat): seq<nat>
    requires n <= |orders|
  {
    if n == 0 then [] else DueUpTo(orders, now, n - 1) + (if Due(orders[n - 1], now) then [n - 1] else [])
  }

  function DueIds(orders: seq<Order>, now: int): seq<nat> {
    DueUpTo(orders, now, |orders|)
  }

  /** limit(0) means no limit. */
  function Limited(ids: seq<nat>, limit: nat): seq<nat> {
    if limit == 0 || |ids| <= limit then ids else ids[..limit]
  }

  predicate Within(ids: seq<nat>, n: nat) {
    forall i :: 0 <= i < |ids| ==> ids[i] < n
  }

  /** The orders after the sweep has written the ones listed; read: as the query returned them. */
  function SweepWrites(orders: seq<Order>, ids: seq<nat>, now: int): (r: seq<Order>)
    requires Within(ids, |orders|)
    ensures |r| == |orders|
  {
    if ids == [] then orders
    else
      var before := SweepWrites(orders, ids[..|ids| - 1], now);
      var id := ids[|ids| - 1];
      before[id := WriteExpired(before[id], orders[id], now)]
  }

  function SweepMessages(orders: seq<Order>, ids: seq<nat>): seq<Message>
    requires Within(ids, |orders|)
  {
    seq(|ids|, i requires 0 <= i < |ids| => QrExpired(ids[i], orders[ids[i]].total))
  }

  /** blacklist: how many of the sweep's blacklist calls succeed before one throws. */
  function SweptIds(w: World, limit: nat, blacklist: nat, now: int): (ids: seq<nat>)
    ensures Within(ids, |w.orders|)
  {
    DueFacts(w.orders, now, |w.orders|);
    var all := DueIds(w.orders, now);
    var due := Limited(all, limit);
    assert Within(all, |w.orders|);
    if blacklist < |due| then due[..blacklist + 1] else due
  }

  function Sweep(w: World, limit: nat, blacklist: nat, now: int): (World, Reply) {
    var ids := SweptIds(w, limit, blacklist, now);
    var aborted := blacklist < |ids|;
    var told := if aborted then ids[..blacklist] else ids;
    (w.(orders := SweepWrites(w.orders, ids, now), published := w.published + SweepMessages(w.orders, told)),
     if aborted then Aborted else Swept(|ids|))
  }

  lemma {:induction false} DueFacts(orders: seq<Order>, now: int, n: nat)
    requires n <= |orders|
    ensures var due := DueUpTo(orders, now, n);
      && Within(due, n)
      && (forall i :: 0 <= i < |due| ==> Due(orders[due[i]], now))
      && (forall i, j :: 0 <= i < j < |due| ==> due[i] < due[j])
  {
    if n > 0 {
      DueFacts(orders, now, n - 1);
    }
  }

  /** The sweep's query misses no due order. */
  lemma {:induction false} DueIsComplete(orders: seq<Order>, now: int, n: nat, id: nat)
    requires id < n <= |orders|
    ensures id in DueUpTo(orders, now, n) <==> Due(orders[id], now)
  {
    DueFacts(orders, now, n - 1);
    if id < n - 1 {
      DueIsComplete(orders, now, n - 1, id);
    }
  }

  // ---- getMyDebtStatus ----

  function ClearPaid(orders: seq<Order>, userId: string, now: int): seq<Order> {
    seq(|orders|, i requires 0 <= i < |orders| => WriteCleared(orders[i], userId, now))
  }

  /** listOutstandingDebtByUser on the first n orders, newest first, mapped to report lines. */
  function DebtLines(orders: seq<Order>, userId: string, n: nat): seq<DebtLine>
    requires n <= |orders|
  {
    if n == 0 then []
    else
      var o := orders[n - 1];
      (if UnpaidDebt(o, userId) then [DebtLine(n - 1, o.restaurantId, o.debt.amount, o.debt.recordedAt, o.status)] else [])
      + DebtLines(orders, userId, n - 1)
  }

  function SumLines(lines: seq<DebtLine>): int {
    if lines == [] then 0 else lines[0].amount + SumLines(lines[1..])
  }

  function DebtStatusOf(w: World, userId: string, now: int): (World, Reply) {
    var orders := ClearPaid(w.orders, userId, now);
    var lines := DebtLines(orders, userId, |orders|);
    (w.(orders := orders), Debts(lines != [], SumLines(lines), lines))
  }

  // ---- markDriverArrived ----

  function Arrived(w: World, id: nat, auth: Auth, debtAmount: Option<int>, now: int): (World, Reply) {
    if id >= |w.orders| then (w, Refused(NotFound))
    else
      var o := w.orders[id];
      var no := ScannerRefusal(o, auth, (auth.userId, o.restaurantId) in w.members);
      if !o.orderType.Delivery? then (w, Refused(Conflict))
      else if no.Some? then (w, Refused(no.value))
      else (At1(w, id, o.(driverArrivedAt := Some(now)),
                [DriverArrived(id, if debtAmount.Some? then debtAmount.value else o.total)]), Updated(id))
  }

  // ---- Runs ----

  datatype Call =
    | CallCreate(userId: string, restaurantId: string, orderType: OrderType, payBy: Method, items: seq<Item>,
                 pendingNonce: string, nonce: string)
    | CallCancel(id: nat, auth: Auth)
    | CallScan(raw: RawToken, auth: Auth)
    | CallPay(event: PaymentEvent, forOrder: bool, eventId: string)
    | CallMembership(payload: MembershipEvent, eventId: string)
    | CallSweep(limit: nat, blacklist: nat)
    | CallDebts(userId: string)
    | CallArrived(id: nat, auth: Auth, debtAmount: Option<int>)

  datatype Event = Event(at: int, call: Call)

  function Apply(w: World, call: Call, now: int): (World, Reply) {
    match call
    case CallCreate(userId, restaurantId, orderType, payBy, items, pendingNonce, nonce) =>
      Create(w, userId, restaurantId, orderType, payBy, items, pendingNonce, nonce, now)
    case CallCancel(id, auth) => Cancel(w, id, auth, now)
    case CallScan(raw, auth) => Scan(w, raw, auth, now)
    case CallPay(event, forOrder, eventId) => Pay(w, event, forOrder, eventId, now)
    case CallMembership(payload, eventId) => Membership(w, payload, eventId)
    case CallSweep(limit, blacklist) => Sweep(w, limit, blacklist, now)
    case CallDebts(userId) => DebtStatusOf(w, userId, now)
    case CallArrived(id, auth, debtAmount) => Arrived(w, id, auth, debtAmount, now)
  }

  function Step(w: World, e: Event): World {
    Apply(w.(clock := e.at), e.call, e.at).0
  }

  function ReplyTo(w: World, e: Event): Reply {
    Apply(w.(clock := e.at), e.call, e.at).1
  }

  /** The clock does not go back, and the validator has seen the items. */
  predicate Enabled(w: World, e: Event) {
    w.clock <= e.at && (e.call.CallCreate? ==> ValidItems(e.call.items))
  }

  // ---- The invariant ----

  predicate AllOk(orders: seq<Order>, clock: int) {
    forall id :: 0 <= id < |orders| ==> OrderOk(id, orders[id], clock)
  }

  /** What a published message says of its order, for good. */
  predicate True(m: Message, orders: seq<Order>) {
    && m.id < |orders|
    && var o := orders[m.id];
       match m
       case OrderPaid(_, total) => o.payment.status.Paid? && total == o.total
       case QrExpired(_, debtAmount) => !o.debt.status.NoDebt? && o.debt.recordedAt.Some? && debtAmount == o.total
       case QrScanned(_, scannedBy) => o.qr.scannedBy == Some(scannedBy)
       case OrderCancelled(_, _) => NeverOwes(o)
       case VerifyPayment(_, amount) => amount == o.total
       case QrGenerated(_, expiresAt) => expiresAt == o.qr.expiresAt
       case DriverArrived(_, _) => o.orderType.Delivery?
       case _ => true
  }

  predicate AllTrue(messages: seq<Message>, orders: seq<Order>) {
    forall i :: 0 <= i < |messages| ==> True(messages[i], orders)
  }

  /** order.qr.expired was published at most once for each order. */
  predicate ExpiredOnce(published: seq<Message>) {
    forall i, j :: 0 <= i < j < |published| && published[i].QrExpired? && published[j].QrExpired? ==>
      published[i].id != published[j].id
  }

  /** Every payment and every scan has been announced. */
  predicate Announced(id: nat, o: Order, published: seq<Message>) {
    && (o.payment.status.Paid? ==> OrderPaid(id, o.total) in published)
    && (o.qr.scannedBy.Some? ==> QrScanned(id, o.qr.scannedBy.value) in published)
  }

  predicate AllAnnounced(orders: seq<Order>, published: seq<Message>) {
    forall id :: 0 <= id < |orders| ==> Announced(id, orders[id], published)
  }

  predicate LogOk(published: seq<Message>, orders: seq<Order>) {
    AllTrue(published, orders) && ExpiredOnce(published) && AllAnnounced(orders, published)
  }

  predicate Inv(w: World) {
    AllOk(w.orders, w.clock) && LogOk(w.published, w.orders)
  }

  /** Every order is still there, further on. */
  predicate AllEvolve(orders: seq<Order>, orders': seq<Order>) {
    && |orders| <= |orders'|
    && forall id :: 0 <= id < |orders| ==> Evolves(orders[id], orders'[id])
  }

  predicate NoExpiredIn(messages: seq<Message>) {
    forall i :: 0 <= i < |messages| ==> !messages[i].QrExpired?
  }

  /** What was said stays true. */
  lemma TrueStays(messages: seq<Message>, orders: seq<Order>, orders': seq<Order>)
    requires AllTrue(messages, orders) && AllEvolve(orders, orders')
    requires forall id :: 0 <= id < |orders| ==> StatusOk(orders[id])
    ensures AllTrue(messages, orders')
  {
    forall i | 0 <= i < |messages| ensures True(messages[i], orders') {
      assert True(messages[i], orders);
      assert Evolves(orders[messages[i].id], orders'[messages[i].id]) && StatusOk(orders[messages[i].id]);
    }
  }

  /** What a step that is not a sweep does: it keeps the orders sound, says only true things,
      and leaves nothing unannounced. */
  predicate QuietStep(w: World, w': World) {
    && w'.clock == w.clock && w'.ttl == w.ttl
    && AllOk(w'.orders, w.clock)
    && AllEvolve(w.orders, w'.orders)
    && w.published <= w'.published
    && var messages := w'.published[|w.published|..];
       NoExpiredIn(messages) && AllTrue(messages, w'.orders) && (AllAnnounced(w.orders, w.published) ==> AllAnnounced(w'.orders, w'.published))
  }

  lemma AppendQuietly(p: seq<Message>, messages: seq<Message>, orders: seq<Order>)
    requires AllTrue(p, orders) && ExpiredOnce(p) && AllTrue(messages, orders) && NoExpiredIn(messages)
    ensures AllTrue(p + messages, orders) && ExpiredOnce(p + messages)
  {}

  lemma SoundStatuses(orders: seq<Order>, clock: int)
    requires AllOk(orders, clock)
    ensures forall id :: 0 <= id < |orders| ==> StatusOk(orders[id])
  {
    forall id | 0 <= id < |orders| ensures StatusOk(orders[id]) {
      assert OrderOk(id, orders[id], clock);
    }
  }

  lemma QuietStepKeepsInv(w: World, w': World)
    requires Inv(w) && QuietStep(w, w')
    ensures Inv(w')
  {
    var messages := w'.published[|w.published|..];
    assert w'.published == w.published + messages;
    SoundStatuses(w.orders, w.clock);
    TrueStays(w.published, w.orders, w'.orders);
    AppendQuietly(w.published, messages, w'.orders);
  }

  lemma AnnouncedStill(id: nat, o: Order, published: seq<Message>, messages: seq<Message>)
    requires Announced(id, o, published)
    ensures Announced(id, o, published + messages)
  {}

  /** Replacing one order by a sound, evolved one and saying what is true of it. */
  lemma OneOrder(w: World, id: nat, o: Order, messages: seq<Message>)
    requires AllOk(w.orders, w.clock) && id < |w.orders|
    requires OrderOk(id, o, w.clock) && Evolves(w.orders[id], o)
    requires NoExpiredIn(messages) && AllTrue(messages, w.orders[id := o])
    requires Announced(id, w.orders[id], w.published) ==> Announced(id, o, w.published + messages)
    ensures QuietStep(w, At1(w, id, o, messages))
  {
    var w' := At1(w, id, o, messages);
    assert w'.published[|w.published|..] == messages;
    if AllAnnounced(w.orders, w.published) {
      forall k | 0 <= k < |w'.orders| ensures Announced(k, w'.orders[k], w'.published) {
        assert Announced(k, w.orders[k], w.published);
        AnnouncedStill(k, w.orders[k], w.published, messages);
      }
    }
  }

  lemma CreateKeeps(w: World, userId: string, restaurantId: string, orderType: OrderType, payBy: Method,
                    items: seq<Item>, pendingNonce: string, nonce: string)
    requires AllOk(w.orders, w.clock) && ValidItems(items)
    ensures QuietStep(w, Create(w, userId, restaurantId, orderType, payBy, items, pendingNonce, nonce, w.clock).0)
  {
    SubtotalPositive(items);
    var w' := Create(w, userId, restaurantId, orderType, payBy, items, pendingNonce, nonce, w.clock).0;
    var id := |w.orders|;
    assert w'.published[|w.published|..] == CreateMessages(id, w'.orders[id]);
    assert OrderOk(id, w'.orders[id], w.clock);
  }

  lemma CancelledOk(id: nat, o: Order, auth: Auth, clock: int)
    requires OrderOk(id, o, clock) && CancelRefusal(o, auth).None?
    ensures OrderOk(id, WriteCancelled(o, o, clock), clock) && Evolves(o, WriteCancelled(o, o, clock))
  {}

  lemma ScannedOk(id: nat, o: Order, scanner: string, clock: int)
    requires OrderOk(id, o, clock) && o.qr.scannedAt.None?
    ensures OrderOk(id, WriteScanned(o, o, scanner, clock), clock) && Evolves(o, WriteScanned(o, o, scanner, clock))
  {}

  lemma PaidOk(id: nat, o: Order, providerRef: Option<string>, eventId: string, clock: int)
    requires OrderOk(id, o, clock)
    ensures var o' := WritePaid(o, o, providerRef, eventId, clock); OrderOk(id, o', clock) && Evolves(o, o')
  {}

  lemma CancelKeeps(w: World, id: nat, auth: Auth)
    requires AllOk(w.orders, w.clock)
    ensures QuietStep(w, Cancel(w, id, auth, w.clock).0)
  {
    if Cancel(w, id, auth, w.clock).1.Updated? {
      var o := w.orders[id];
      CancelledOk(id, o, auth, w.clock);
      OneOrder(w, id, WriteCancelled(o, o, w.clock), [OrderCancelled(id, auth.userId)]);
    }
  }

  lemma ScanKeeps(w: World, raw: RawToken, auth: Auth)
    requires AllOk(w.orders, w.clock)
    ensures QuietStep(w, Scan(w, raw, auth, w.clock).0)
  {
    if Scan(w, raw, auth, w.clock).1.Updated? {
      var id := raw.data.orderId.id;
      var o := w.orders[id];
      ScannedOk(id, o, auth.userId, w.clock);
      var o' := WriteScanned(o, o, auth.userId, w.clock);
      OneOrder(w, id, o', ScanMessages(id, o', auth.userId));
    }
  }

  lemma PayKeeps(w: World, event: PaymentEvent, forOrder: bool, eventId: string)
    requires AllOk(w.orders, w.clock)
    ensures QuietStep(w, Pay(w, event, forOrder, eventId, w.clock).0)
  {
    if Pay(w, event, forOrder, eventId, w.clock).1.Handled? {
      var id := PayTarget(event, forOrder).value;
      var o := w.orders[id];
      PaidOk(id, o, event.providerRef, eventId, w.clock);
      var o' := WritePaid(o, o, event.providerRef, eventId, w.clock);
      OneOrder(w, id, o', PayMessages(id, o', event, forOrder));
    }
  }

  lemma ArrivedKeeps(w: World, id: nat, auth: Auth, debtAmount: Option<int>)
    requires AllOk(w.orders, w.clock)
    ensures QuietStep(w, Arrived(w, id, auth, debtAmount, w.clock).0)
  {
    if Arrived(w, id, auth, debtAmount, w.clock).1.Updated? {
      var o := w.orders[id];
      assert OrderOk(id, o, w.clock);
      OneOrder(w, id, o.(driverArrivedAt := Some(w.clock)),
               [DriverArrived(id, if debtAmount.Some? then debtAmount.value else o.total)]);
    }
  }

  /** In sound orders the clearing updateMany of the debt query finds nothing to clear. */
  lemma ClearPaidIsNoOp(orders: seq<Order>, userId: string, clock: int, now: int)
    requires AllOk(orders, clock)
    ensures ClearPaid(orders, userId, now) == orders
  {
    forall id | 0 <= id < |orders| ensures ClearPaid(orders, userId, now)[id] == orders[id] {
      assert OrderOk(id, orders[id], clock);
    }
  }

  // ---- The sweep ----

  predicate Distinct(ids: seq<nat>) {
    forall i, j :: 0 <= i < j < |ids| ==> ids[i] != ids[j]
  }

  /** Order by order: the listed ones are written once, the others untouched. */
  lemma {:induction false} SweepWritesAt(orders: seq<Order>, ids: seq<nat>, now: int, id: nat)
    requires Within(ids, |orders|) && Distinct(ids) && id < |orders|
    ensures SweepWrites(orders, ids, now)[id] == if id in ids then WriteExpired(orders[id], orders[id], now) else orders[id]
  {
    if ids != [] {
      var n := |ids| - 1;
      SweepWritesAt(orders, ids[..n], now, id);
      assert ids == ids[..n] + [ids[n]];
      assert ids[n] !in ids[..n];
    }
  }

  lemma SweptFacts(w: World, limit: nat, blacklist: nat, now: int)
    ensures var ids := SweptIds(w, limit, blacklist, now);
      Distinct(ids) && forall i :: 0 <= i < |ids| ==> Due(w.orders[ids[i]], now)
  {
    DueFacts(w.orders, now, |w.orders|);
    var ids, all := SweptIds(w, limit, blacklist, now), DueIds(w.orders, now);
    assert forall i :: 0 <= i < |ids| ==> i < |all| && ids[i] == all[i];
  }

  /** What sweeping does to one due order. */
  lemma ExpiredOk(id: nat, o: Order, clock: int)
    requires OrderOk(id, o, clock) && Due(o, clock)
    ensures o.debt.status.NoDebt?
    ensures var o' := WriteExpired(o, o, clock); OrderOk(id, o', clock) && Evolves(o, o') && o'.debt.status.Outstanding?
  {}

  lemma SweepKeepsOrders(w: World, limit: nat, blacklist: nat)
    requires AllOk(w.orders, w.clock)
    ensures var w' := Sweep(w, limit, blacklist, w.clock).0;
      AllOk(w'.orders, w.clock) && AllEvolve(w.orders, w'.orders)
  {
    var ids := SweptIds(w, limit, blacklist, w.clock);
    var orders' := SweepWrites(w.orders, ids, w.clock);
    SweptFacts(w, limit, blacklist, w.clock);
    forall id | 0 <= id < |w.orders| ensures OrderOk(id, orders'[id], w.clock) && Evolves(w.orders[id], orders'[id]) {
      SweepWritesAt(w.orders, ids, w.clock, id);
      assert OrderOk(id, w.orders[id], w.clock);
      if id in ids {
        ExpiredOk(id, w.orders[id], w.clock);
      }
    }
  }

  lemma AppendExpired(published: seq<Message>, orders: seq<Order>, orders': seq<Order>, told: seq<nat>, now: int)
    requires AllTrue(published, orders) && ExpiredOnce(published) && AllTrue(published, orders')
    requires Distinct(told) && Within(told, |orders|) && |orders'| == |orders|
    requires forall i :: 0 <= i < |told| ==>
      orders[told[i]].debt.status.NoDebt? && orders'[told[i]] == WriteExpired(orders[told[i]], orders[told[i]], now)
    ensures AllTrue(published + SweepMessages(orders, told), orders') && ExpiredOnce(published + SweepMessages(orders, told))
  {
    var p, more := published, SweepMessages(orders, told);
    forall i, j | 0 <= i < |p| && 0 <= j < |more| && p[i].QrExpired? ensures p[i].id != more[j].id {
      assert True(p[i], orders);
    }
    forall j | 0 <= j < |more| ensures True(more[j], orders') {
      assert told[j] < |orders|;
    }
  }

  lemma SweepAnnounces(orders: seq<Order>, orders': seq<Order>, published: seq<Message>, messages: seq<Message>)
    requires AllAnnounced(orders, published) && |orders'| == |orders|
    requires forall id :: 0 <= id < |orders| ==>
      orders'[id].payment == orders[id].payment && orders'[id].qr == orders[id].qr && orders'[id].total == orders[id].total
    ensures AllAnnounced(orders', published + messages)
  {
    forall id | 0 <= id < |orders| ensures Announced(id, orders'[id], published + messages) {
      assert Announced(id, orders[id], published);
    }
  }

  lemma {:induction false} SweepWritesAll(orders: seq<Order>, ids: seq<nat>, now: int)
    requires Within(ids, |orders|) && Distinct(ids)
    ensures forall id :: 0 <= id < |orders| ==>
      SweepWrites(orders, ids, now)[id] == if id in ids then WriteExpired(orders[id], orders[id], now) else orders[id]
  {
    forall id | 0 <= id < |orders|
      ensures SweepWrites(orders, ids, now)[id] == if id in ids then WriteExpired(orders[id], orders[id], now) else orders[id]
    {
      SweepWritesAt(orders, ids, now, id);
    }
  }

  lemma DueOwesNothing(orders: seq<Order>, clock: int, ids: seq<nat>)
    requires AllOk(orders, clock) && Within(ids, |orders|)
    requires forall i :: 0 <= i < |ids| ==> Due(orders[ids[i]], clock)
    ensures forall i :: 0 <= i < |ids| ==> orders[ids[i]].debt.status.NoDebt?
  {
    forall i | 0 <= i < |ids| ensures orders[ids[i]].debt.status.NoDebt? {
      assert OrderOk(ids[i], orders[ids[i]], clock);
    }
  }

  lemma {:induction false} SweepKeepsTruth(p: seq<Message>, orders: seq<Order>, clock: int, ids: seq<nat>, told: seq<nat>)
    requires AllOk(orders, clock) && AllTrue(p, orders) && ExpiredOnce(p)
    requires Within(ids, |orders|) && Distinct(ids) && told <= ids
    requires forall i :: 0 <= i < |ids| ==> Due(orders[ids[i]], clock)
    requires AllEvolve(orders, SweepWrites(orders, ids, clock))
    ensures var orders' := SweepWrites(orders, ids, clock); var p' := p + SweepMessages(orders, told);
      AllTrue(p', orders') && ExpiredOnce(p')
  {
    var orders' := SweepWrites(orders, ids, clock);
    SoundStatuses(orders, clock);
    TrueStays(p, orders, orders');
    DueOwesNothing(orders, clock, ids);
    forall i | 0 <= i < |told|
      ensures orders[told[i]].debt.status.NoDebt? && orders'[told[i]] == WriteExpired(orders[told[i]], orders[told[i]], clock)
    {
      assert told[i] == ids[i] && ids[i] in ids;
      SweepWritesAt(orders, ids, clock, told[i]);
    }
    AppendExpired(p, orders, orders', told, clock);
  }

  lemma {:induction false} SweepKeepsAnnounced(p: seq<Message>, orders: seq<Order>, clock: int, ids: seq<nat>, messages: seq<Message>)
    requires AllAnnounced(orders, p) && Within(ids, |orders|) && Distinct(ids)
    ensures AllAnnounced(SweepWrites(orders, ids, clock), p + messages)
  {
    SweepWritesAll(orders, ids, clock);
    SweepAnnounces(orders, SweepWrites(orders, ids, clock), p, messages);
  }

  lemma {:induction false} SweepKeepsLog(w: World, ids: seq<nat>, told: seq<nat>)
    requires Inv(w) && Within(ids, |w.orders|) && Distinct(ids) && told <= ids
    requires forall i :: 0 <= i < |ids| ==> Due(w.orders[ids[i]], w.clock)
    requires AllEvolve(w.orders, SweepWrites(w.orders, ids, w.clock))
    ensures LogOk(w.published + SweepMessages(w.orders, told), SweepWrites(w.orders, ids, w.clock))
  {
    SweepKeepsTruth(w.published, w.orders, w.clock, ids, told);
    SweepKeepsAnnounced(w.published, w.orders, w.clock, ids, SweepMessages(w.orders, told));
  }

  lemma SweepKeeps(w: World, limit: nat, blacklist: nat)
    requires Inv(w)
    ensures Inv(Sweep(w, limit, blacklist, w.clock).0) && AllEvolve(w.orders, Sweep(w, limit, blacklist, w.clock).0.orders)
  {
    var ids := SweptIds(w, limit, blacklist, w.clock);
    SweptFacts(w, limit, blacklist, w.clock);
    SweepKeepsOrders(w, limit, blacklist);
    SweepKeepsLog(w, ids, if blacklist < |ids| then ids[..blacklist] else ids);
  }

  // ---- Every step ----

  lemma MembershipKeeps(w: World, payload: MembershipEvent, eventId: string)
    requires AllOk(w.orders, w.clock)
    ensures QuietStep(w, Membership(w, payload, eventId).0)
  {}

  lemma DebtsKeep(w: World, userId: string)
    requires AllOk(w.orders, w.clock)
    ensures QuietStep(w, DebtStatusOf(w, userId, w.clock).0)
  {
    ClearPaidIsNoOp(w.orders, userId, w.clock, w.clock);
  }

  lemma QuietCalls(w: World, call: Call)
    requires AllOk(w.orders, w.clock) && !call.CallSweep?
    requires call.CallCreate? ==> ValidItems(call.items)
    ensures QuietStep(w, Apply(w, call, w.clock).0)
  {
    match call
    case CallCreate(userId, restaurantId, orderType, payBy, items, pendingNonce, nonce) =>
      CreateKeeps(w, userId, restaurantId, orderType, payBy, items, pendingNonce, nonce);
    case CallCancel(id, auth) => CancelKeeps(w, id, auth);
    case CallScan(raw, auth) => ScanKeeps(w, raw, auth);
    case CallPay(event, forOrder, eventId) => PayKeeps(w, event, forOrder, eventId);
    case CallMembership(payload, eventId) => MembershipKeeps(w, payload, eventId);
    case CallDebts(userId) => DebtsKeep(w, userId);
    case CallArrived(id, auth, debtAmount) => ArrivedKeeps(w, id, auth, debtAmount);
  }

  lemma TimeKeeps(w: World, now: int)
    requires Inv(w) && w.clock <= now
    ensures Inv(w.(clock := now))
  {
    forall id | 0 <= id < |w.orders| ensures OrderOk(id, w.orders[id], now) {
      assert OrderOk(id, w.orders[id], w.clock);
    }
  }

  lemma QuietCallKeeps(w: World, call: Call)
    requires Inv(w) && !call.CallSweep? && (call.CallCreate? ==> ValidItems(call.items))
    ensures var w' := Apply(w, call, w.clock).0; Inv(w') && AllEvolve(w.orders, w'.orders)
  {
    QuietCalls(w, call);
    QuietStepKeepsInv(w, Apply(w, call, w.clock).0);
  }

  lemma SweepCallKeeps(w: World, call: Call)
    requires Inv(w) && call.CallSweep?
    ensures var w' := Apply(w, call, w.clock).0; Inv(w') && AllEvolve(w.orders, w'.orders)
  {
    SweepApplies(w, call);
    SweepKeeps(w, call.limit, call.blacklist);
  }

  lemma SweepApplies(w: World, call: Call)
    requires call.CallSweep?
    ensures Apply(w, call, w.clock) == Sweep(w, call.limit, call.blacklist, w.clock)
  {}

  lemma ApplyKeeps(w: World, call: Call)
    requires Inv(w) && (call.CallCreate? ==> ValidItems(call.items))
    ensures var w' := Apply(w, call, w.clock).0; Inv(w') && AllEvolve(w.orders, w'.orders)
  {
    if call.CallSweep? {
      SweepCallKeeps(w, call);
    } else {
      QuietCallKeeps(w, call);
    }
  }

  lemma StepKeeps(w: World, e: Event)
    requires Inv(w) && Enabled(w, e)
    ensures Inv(Step(w, e)) && AllEvolve(w.orders, Step(w, e).orders)
  {
    TimeKeeps(w, e.at);
    ApplyKeeps(w.(clock := e.at), e.call);
  }

  lemma InvKept()
    ensures Kept(Step, Enabled, Inv)
  {
    forall w: World, e: Event | Inv(w) && Enabled(w, e) ensures Inv(Step(w, e)) {
      StepKeeps(w, e);
    }
  }
}
