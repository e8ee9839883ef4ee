/** The order handlers as they run: one object whose collections are updated write by write,
    proved to do what Orders says. */
module OrderService {
  import opened Options
  import opened OrderData
  import opened Orders

  class Service {
    const ttl: int
    var orders: seq<Order>
    var processed: set<string>
    var members: map<(string, string), string>
    var published: seq<Message>

    function View(now: int): World
      reads this
    {
      World(ttl, now, orders, processed, members, published)
    }

    constructor (ttl: int)
      ensures this.ttl == ttl && View(0) == Start(ttl)
    {
      this.ttl := ttl;
      orders, processed, members, published := [], {}, map[], [];
    }

    method Publish(message: Message)
      modifies this`published
      ensures published == old(published) + [message]
    {
      published := published + [message];
    }

    method UpdateById(id: nat, o: Order)
      requires id < |orders|
      modifies this`orders
      ensures orders == old(orders)[id := o]
    {
      orders := orders[id := o];
    }

    method CreateOrder(userId: string, restaurantId: string, orderType: OrderType, payBy: Method, items: seq<Item>,
                       pendingNonce: string, nonce: string, now: int) returns (r: Reply)
      modifies this
      ensures (View(now), r) == Create(old(View(now)), userId, restaurantId, orderType, payBy, items, pendingNonce, nonce, now)
    {
      var qr := BuildQr(Pending, restaurantId, pendingNonce, now + ttl);
      var id := |orders|;
      orders := orders + [Draft(userId, restaurantId, orderType, payBy, items, qr)];
      var finalQr := BuildQr(Ref(id), orders[id].restaurantId, nonce, now + ttl);
      UpdateById(id, WriteQr(orders[id], finalQr));
      var updated := orders[id];
      Publish(OrderCreated(id));
      Publish(QrGenerated(id, finalQr.expiresAt));
      Publish(VerifyPayment(id, updated.total));
      Publish(InventoryCheck(id));
      if updated.payment.status.Paid? {
        Publish(OrderPaid(id, updated.total));
      }
      assert orders == old(orders) + [updated];
      assert published == old(published) + CreateMessages(id, updated);
      return NewOrder(id, finalQr.tokenHash.raw);
    }

    method CancelMyOrder(id: nat, auth: Auth, now: int) returns (r: Reply)
      modifies this
      ensures (View(now), r) == Cancel(old(View(now)), id, auth, now)
    {
      if id >= |orders| {
        return Refused(NotFound);
      }
      var order := orders[id];
      if Superadmin !in auth.roles && order.userId != auth.userId {
        return Refused(Forbidden);
      }
      if order.qr.scannedAt.Some? {
        return Refused(Conflict);
      }
      if order.status in {Expired, Completed, Cancelled} {
        return Refused(Conflict);
      }
      if order.debt.status.Outstanding? {
        return Refused(Conflict);
      }
      UpdateById(id, WriteCancelled(order, order, now));
      Publish(OrderCancelled(id, auth.userId));
      return Updated(id);
    }

    method AssertScannerAuthorized(order: Order, auth: Auth) returns (no: Option<Refusal>)
      ensures no == ScannerRefusal(order, auth, (auth.userId, order.restaurantId) in members)
      ensures no.None? <==>
        || Superadmin in auth.roles
        || ((auth.userId, order.restaurantId) in members
            && (order.orderType.Delivery? ==> DeliveryMan in auth.roles)
            && (!order.orderType.Delivery? ==> Staff in auth.roles || Manager in auth.roles))
    {
      if Superadmin in auth.roles {
        return None;
      }
      var allowed := if order.orderType.Delivery? then DeliveryMan in auth.roles else Staff in auth.roles || Manager in auth.roles;
      if !allowed {
        return Some(Forbidden);
      }
      if (auth.userId, order.restaurantId) !in members {
        return Some(TenantDenied);
      }
      return None;
    }

    method ScanQr(raw: RawToken, auth: Auth, now: int) returns (r: Reply)
      modifies this
      ensures (View(now), r) == Scan(old(View(now)), raw, auth, now)
    {
      var verified := VerifyToken(raw, now);
      if verified.None? {
        return Refused(BadRequest);
      }
      var payload := verified.value;
      if payload.orderId.Pending? || payload.orderId.id >= |orders| || orders[payload.orderId.id].restaurantId != payload.restaurantId {
        return Refused(NotFound);
      }
      var id := payload.orderId.id;
      var order := orders[id];
      if order.qr.scannedAt.Some? {
        return Refused(Conflict);
      }
      if HashOf(raw) != order.qr.tokenHash {
        return Refused(BadRequest);
      }
      var no := AssertScannerAuthorized(order, auth);
      if no.Some? {
        return Refused(no.value);
      }
      UpdateById(id, WriteScanned(order, order, auth.userId, now));
      var updated := orders[id];
      Publish(QrScanned(id, auth.userId));
      if updated.payment.status.Paid? {
        Publish(OrderPaid(id, updated.total));
      }
      Publish(InventoryConsumed(id));
      assert published == old(published) + ScanMessages(id, updated, auth.userId);
      return Updated(id);
    }

    method OnPaymentSucceeded(event: PaymentEvent, eventId: string, now: int) returns (r: Reply)
      modifies this
      ensures (View(now), r) == Pay(old(View(now)), event, false, eventId, now)
    {
      if eventId != "" && eventId in processed {
        return Ignored;
      }
      if event.resourceId.None? || event.resourceId.value >= |orders| {
        return Ignored;
      }
      var id := event.resourceId.value;
      var order := orders[id];
      UpdateById(id, WritePaid(order, order, event.providerRef, eventId, now));
      processed := MarkProcessed(processed, eventId);
      Publish(PaymentStatusChanged(id));
      Publish(OrderPaid(id, orders[id].total));
      assert published == old(published) + PayMessages(id, orders[id], event, false);
      return Handled;
    }

    method OnOrderPaymentSucceeded(event: PaymentEvent, eventId: string, now: int) returns (r: Reply)
      modifies this
      ensures (View(now), r) == Pay(old(View(now)), event, true, eventId, now)
    {
      if eventId != "" && eventId in processed {
        return Ignored;
      }
      var target := if event.orderId.Some? then event.orderId else event.resourceId;
      if target.None? || target.value >= |orders| {
        return Ignored;
      }
      var id := target.value;
      var order := orders[id];
      UpdateById(id, WritePaid(order, order, event.providerRef, eventId, now));
      processed := MarkProcessed(processed, eventId);
      var updated := orders[id];
      Publish(PaymentStatusChanged(id));
      Publish(OrderPaid(id, updated.total));
      if updated.orderType.Delivery? {
        Publish(DriverArrived(id, if event.debtAmount.Some? then event.debtAmount.value else updated.total));
      }
      assert published == old(published) + PayMessages(id, updated, event, true);
      return Handled;
    }

    method OnMembership(payload: MembershipEvent, eventId: string, now: int) returns (r: Reply)
      modifies this
      ensures (View(now), r) == Membership(old(View(now)), payload, eventId)
    {
      if eventId != "" && eventId in processed {
        return Ignored;
      }
      var key := Member(payload);
      if key.0 == "" || key.1 == "" {
        processed := MarkProcessed(processed, eventId);
        return Ignored;
      }
      if payload.removed || payload.removedKey {
        members := members - {key};
      } else {
        members := members[key := Upper(if payload.role == "" then "STAFF" else payload.role)];
      }
      processed := MarkProcessed(processed, eventId);
      return Handled;
    }

    /** blacklist: how many blacklist calls succeed before one throws and ends the loop. */
    method ProcessExpiredQrOrders(limit: nat, blacklist: nat, now: int) returns (r: Reply)
      modifies this`orders, this`published
      ensures (View(now), r) == Sweep(old(View(now)), limit, blacklist, now)
    {
      DueFacts(orders, now, |orders|);
      var due := Limited(DueIds(orders, now), limit);
      var count := ExpireEach(due, orders, blacklist, now);
      if count == blacklist && count < |due| {
        SweepAborts(old(View(now)), limit, blacklist, now);
        return Aborted;
      }
      assert due[..count] == due;
      SweepCompletes(old(View(now)), limit, blacklist, now);
      return Swept(count);
    }

    /** The loop of the sweep over the orders it has read; count: how many it has published. */
    method ExpireEach(due: seq<nat>, read: seq<Order>, blacklist: nat, now: int) returns (count: nat)
      requires orders == read && Within(due, |read|)
      modifies this`orders, this`published
      ensures count == if blacklist < |due| then blacklist else |due|
      ensures orders == SweepWrites(read, if count < |due| then due[..count + 1] else due[..count], now)
      ensures published == old(published) + SweepMessages(read, due[..count])
    {
      count := 0;
      while count < |due|
        invariant 0 <= count <= |due| && count <= blacklist
        invariant |orders| == |read|
        invariant orders == SweepWrites(read, due[..count], now)
        invariant published == old(published) + SweepMessages(read, due[..count])
      {
        var id := due[count];
        SweepOneMore(read, due, count, now);
        UpdateById(id, WriteExpired(orders[id], read[id], now));
        if count == blacklist {
          return;
        }
        Publish(QrExpired(id, orders[id].total));
        count := count + 1;
      }
    }

    method GetMyDebtStatus(userId: string, now: int) returns (r: Reply)
      modifies this
      ensures (View(now), r) == DebtStatusOf(old(View(now)), userId, now)
    {
      orders := ClearPaid(orders, userId, now);
      var debts := DebtLines(orders, userId, |orders|);
      return Debts(|debts| > 0, SumLines(debts), debts);
    }

    method MarkDriverArrived(id: nat, auth: Auth, debtAmount: Option<int>, now: int) returns (r: Reply)
      modifies this
      ensures (View(now), r) == Arrived(old(View(now)), id, auth, debtAmount, now)
    {
      if id >= |orders| {
        return Refused(NotFound);
      }
      var order := orders[id];
      if !order.orderType.Delivery? {
        return Refused(Conflict);
      }
      var no := AssertScannerAuthorized(order, auth);
      if no.Some? {
        return Refused(no.value);
      }
      UpdateById(id, order.(driverArrivedAt := Some(now)));
      Publish(DriverArrived(id, if debtAmount.Some? then debtAmount.value else orders[id].total));
      return Updated(id);
    }
  }

  /** The sweep never changes what an order costs. */
  lemma {:induction false} SweptTotals(orders: seq<Order>, ids: seq<nat>, now: int, id: nat)
    requires Within(ids, |orders|) && id < |orders|
    ensures SweepWrites(orders, ids, now)[id].total == orders[id].total
  {
    if ids != [] {
      SweptTotals(orders, ids[..|ids| - 1], now, id);
    }
  }

  /** One more round of the sweep loop. */
  lemma {:induction false} SweepOneMore(read: seq<Order>, due: seq<nat>, count: nat, now: int)
    requires Within(due, |read|) && count < |due|
    ensures var before, id := SweepWrites(read, due[..count], now), due[count];
      && SweepWrites(read, due[..count + 1], now) == before[id := WriteExpired(before[id], read[id], now)]
      && SweepMessages(read, due[..count + 1]) == SweepMessages(read, due[..count]) + [QrExpired(id, before[id].total)]
  {
    assert due[..count + 1][..count] == due[..count];
    SweptTotals(read, due[..count], now, due[count]);
  }

  lemma {:induction false} SweepAborts(w: World, limit: nat, blacklist: nat, now: int)
    requires blacklist < |Limited(DueIds(w.orders, now), limit)|
    ensures var due := Limited(DueIds(w.orders, now), limit);
      && Within(due, |w.orders|)
      && Sweep(w, limit, blacklist, now) ==
           (w.(orders := SweepWrites(w.orders, due[..blacklist + 1], now),
               published := w.published + SweepMessages(w.orders, due[..blacklist])), Aborted)
  {
    DueFacts(w.orders, now, |w.orders|);
    var due := Limited(DueIds(w.orders, now), limit);
    assert due[..blacklist + 1][..blacklist] == due[..blacklist];
  }

  lemma {:induction false} SweepCompletes(w: World, limit: nat, blacklist: nat, now: int)
    requires |Limited(DueIds(w.orders, now), limit)| <= blacklist
    ensures var due := Limited(DueIds(w.orders, now), limit);
      && Within(due, |w.orders|)
      && Sweep(w, limit, blacklist, now) ==
           (w.(orders := SweepWrites(w.orders, due, now), published := w.published + SweepMessages(w.orders, due)), Swept(|due|))
  {
    DueFacts(w.orders, now, |w.orders|);
  }
}
