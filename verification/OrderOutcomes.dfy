/** What the order handlers achieve, said of the stored fields and of the messages delivered:
    when each succeeds and what it then writes, who is a member after any run, and which orders
    a sweep takes. */
module OrderOutcomes {
  import opened Options
  import opened Runs
  import opened OrderData
  import opened Orders
  import opened OrderRuns
  import opened OrderDeliveries

  // ---- Per call: orders ----

  /** Only this order changes, and the messages are published after what was published before. */
  predicate Writes(w: World, w': World, id: nat, o: Order, messages: seq<Message>) {
    && id < |w.orders| == |w'.orders| && w'.orders[id] == o
    && (forall k :: 0 <= k < |w.orders| && k != id ==> w'.orders[k] == w.orders[k])
    && w'.published == w.published + messages
    && w'.ttl == w.ttl && w'.clock == w.clock && w'.members == w.members
  }

  /** A new order belongs to the user and the restaurant of the request, holds its items and their
      full price, is paid exactly if it is paid in the app, owes nothing, and carries the hash of
      the token handed out, which lasts for ttl. */
  lemma {:induction false} CreateSets(w: World, userId: string, restaurantId: string, orderType: OrderType, payBy: Method,
                   items: seq<Item>, pendingNonce: string, nonce: string, now: int)
    ensures var (w', r) := Create(w, userId, restaurantId, orderType, payBy, items, pendingNonce, nonce, now);
      var id, total, data := |w.orders|, Subtotal(items), Payload(Ref(|w.orders|), restaurantId, nonce, now + w.ttl);
      && r == NewOrder(id, RawToken(data, Sign(data)))
      && w'.orders == w.orders + [
           Order(userId, restaurantId, orderType, items, total, if payBy == PayOnApp then PaidStatus else Created,
                 Payment(payBy, if payBy == PayOnApp then Paid else Unpaid, None, None),
                 Debt(NoDebt, 0, None, None), Flags(false, false), Qr(HashOf(r.token), now + w.ttl, None, None), None)]
      && w'.published == w.published
           + [OrderCreated(id), QrGenerated(id, now + w.ttl), VerifyPayment(id, total), InventoryCheck(id)]
           + (if payBy == PayOnApp then [OrderPaid(id, total)] else [])
      && w'.members == w.members && w'.processed == w.processed
  {}

  /** Who may cancel what: the owner or a superadmin, an order that is not scanned, neither EXPIRED
      nor COMPLETED nor CANCELLED, and owes nothing. */
  predicate MayCancel(o: Order, auth: Auth) {
    && (Superadmin in auth.roles || o.userId == auth.userId)
    && o.qr.scannedAt == None && o.status !in {Expired, Completed, Cancelled} && o.debt.status != Outstanding
  }

  lemma CancelIff(w: World, id: nat, auth: Auth, now: int)
    ensures var (w', r) := Cancel(w, id, auth, now);
      && (r == Updated(id) <==> id < |w.orders| && MayCancel(w.orders[id], auth))
      && (r == Updated(id) ==>
            var o := w.orders[id];
            Writes(w, w', id,
                   Order(o.userId, o.restaurantId, o.orderType, o.items, o.total, Cancelled, o.payment,
                         Debt(if o.debt.status == Cleared then Cleared else NoDebt, 0, o.debt.recordedAt,
                              if o.debt.clearedAt == None then Some(now) else o.debt.clearedAt),
                         Flags(false, false), o.qr, o.driverArrivedAt),
                   [OrderCancelled(id, auth.userId)]))
      && (r != Updated(id) ==> w' == w && r.Refused?)
      && (r == Refused(NotFound) <==> id >= |w.orders|)
      && (r == Refused(Forbidden) <==> id < |w.orders| && Superadmin !in auth.roles && w.orders[id].userId != auth.userId)
  {}

  /** Who may scan, or report a driver for, an order: a superadmin, or a member of its restaurant in
      the role its type asks for. */
  predicate MayScan(w: World, o: Order, auth: Auth) {
    || Superadmin in auth.roles
    || (&& (auth.userId, o.restaurantId) in w.members
        && match o.orderType
           case Delivery => DeliveryMan in auth.roles
           case Preorder => Staff in auth.roles || Manager in auth.roles
           case Reservation => Staff in auth.roles || Manager in auth.roles)
  }

  /** The status a scan leaves: a delivery is DELIVERED if it was paid in the app and PAID if it is
      paid at the door; a preorder is OBTAINED and a reservation FINISHED. */
  predicate ClosedAs(o: Order, status: Status) {
    match o.orderType
    case Delivery => status == match o.payment.payBy { case PayOnApp => Delivered case PayLater => PaidStatus }
    case Preorder => status == Obtained
    case Reservation => status == Finished
  }

  /** A scan succeeds exactly with the order's own token, in time, once, and by someone who may; it
      closes and clears the order, pays it if payment was left to later, and says so. */
  lemma ScanOutcome(w: World, raw: RawToken, auth: Auth, id: nat)
    requires AllOk(w.orders, w.clock)
    ensures var (w', r) := Scan(w, raw, auth, w.clock);
      && (r == Updated(id) <==>
            && id < |w.orders| && HashOf(raw) == w.orders[id].qr.tokenHash && w.clock < w.orders[id].qr.expiresAt
            && w.orders[id].qr.scannedAt == None && MayScan(w, w.orders[id], auth))
      && (r == Updated(id) ==>
            var o, o' := w.orders[id], w'.orders[id];
            && ClosedAs(o, o'.status)
            && Writes(w, w', id,
                 Order(o.userId, o.restaurantId, o.orderType, o.items, o.total, o'.status,
                       Payment(o.payment.payBy, Paid, o.payment.providerRef, o.payment.lastEventId),
                       Debt(Cleared, 0, o.debt.recordedAt, Some(w.clock)), Flags(false, false),
                       Qr(o.qr.tokenHash, o.qr.expiresAt, Some(w.clock), Some(auth.userId)), o.driverArrivedAt),
                 [QrScanned(id, auth.userId), OrderPaid(id, o.total), InventoryConsumed(id)]))
      && (!r.Updated? ==> w' == w && r.Refused?)
  {
    ScanIff(w, raw, auth, id);
    if id < |w.orders| {
      assert OrderOk(id, w.orders[id], w.clock);
    }
  }

  predicate Seen(w: World, eventId: string) {
    eventId != "" && eventId in w.processed
  }

  /** The order a payment message is about: the order consumer looks at the order id first. */
  predicate Pays(event: PaymentEvent, forOrder: bool, id: nat) {
    if forOrder && event.orderId != None then event.orderId == Some(id) else event.resourceId == Some(id)
  }

  /** A payment is handled exactly if its id was not seen before and its order exists; it makes that
      order PAID and clear, and the order consumer also reports the driver of a delivery. */
  lemma PayOutcome(w: World, event: PaymentEvent, forOrder: bool, eventId: string, now: int, id: nat)
    ensures var (w', r) := Pay(w, event, forOrder, eventId, now);
      && (r == Handled && Pays(event, forOrder, id) <==> !Seen(w, eventId) && Pays(event, forOrder, id) && id < |w.orders|)
      && (r == Handled && Pays(event, forOrder, id) ==>
            var o := w.orders[id];
            && Writes(w, w', id,
                 Order(o.userId, o.restaurantId, o.orderType, o.items, o.total, PaidStatus,
                       Payment(o.payment.payBy, Paid, event.providerRef, if eventId == "" then None else Some(eventId)),
                       Debt(Cleared, 0, o.debt.recordedAt, Some(now)), Flags(false, false), o.qr, o.driverArrivedAt),
                 [PaymentStatusChanged(id), OrderPaid(id, o.total)]
                 + (if forOrder && o.orderType == Delivery
                    then [DriverArrived(id, match event.debtAmount { case None => o.total case Some(amount) => amount })] else []))
            && (forall x :: x in w'.processed <==> x in w.processed || (x == eventId && x != "")))
      && (r != Handled ==> w' == w && r == Ignored)
  {}

  /** A driver's arrival is recorded exactly for an existing delivery by someone who may scan it. */
  lemma ArrivedOutcome(w: World, id: nat, auth: Auth, debtAmount: Option<int>, now: int)
    ensures var (w', r) := Arrived(w, id, auth, debtAmount, now);
      && (r == Updated(id) <==> id < |w.orders| && w.orders[id].orderType == Delivery && MayScan(w, w.orders[id], auth))
      && (r == Updated(id) ==>
            var o := w.orders[id];
            Writes(w, w', id,
              Order(o.userId, o.restaurantId, o.orderType, o.items, o.total, o.status, o.payment, o.debt, o.flags, o.qr, Some(now)),
              [DriverArrived(id, match debtAmount { case None => o.total case Some(amount) => amount })]))
      && (r != Updated(id) ==> w' == w && r.Refused?)
  {}

  /** The token is signed by the service and still in time. */
  predicate Genuine(raw: RawToken, now: int) {
    match raw
    case Garbled(_) => false
    case RawToken(data, signature) => signature == Sign(data) && now < data.exp
  }

  predicate NamesOrder(w: World, raw: RawToken, id: nat) {
    raw.RawToken? && raw.data.orderId == Ref(id) && id < |w.orders| && w.orders[id].restaurantId == raw.data.restaurantId
  }

  predicate InRole(o: Order, auth: Auth) {
    match o.orderType
    case Delivery => Superadmin in auth.roles || DeliveryMan in auth.roles
    case Preorder => Superadmin in auth.roles || Staff in auth.roles || Manager in auth.roles
    case Reservation => Superadmin in auth.roles || Staff in auth.roles || Manager in auth.roles
  }

  /** Why a scan is refused, in the order of the guards. */
  lemma ScanRefusals(w: World, raw: RawToken, auth: Auth, now: int, id: nat)
    requires NamesOrder(w, raw, id)
    ensures var r, o := Scan(w, raw, auth, now).1, w.orders[id];
      r == if !Genuine(raw, now) then Refused(BadRequest)
           else if o.qr.scannedAt != None then Refused(Conflict)
           else if HashOf(raw) != o.qr.tokenHash then Refused(BadRequest)
           else if !InRole(o, auth) then Refused(Forbidden)
           else if Superadmin !in auth.roles && (auth.userId, o.restaurantId) !in w.members then Refused(TenantDenied)
           else Updated(id)
  {}

  lemma ScanOfNothing(w: World, raw: RawToken, auth: Auth, now: int)
    requires forall id :: 0 <= id < |w.orders| ==> !NamesOrder(w, raw, id)
    ensures Scan(w, raw, auth, now).1 == Refused(if Genuine(raw, now) then NotFound else BadRequest)
  {
    if raw.RawToken? && raw.data.orderId.Ref? && raw.data.orderId.id < |w.orders| {
      assert !NamesOrder(w, raw, raw.data.orderId.id);
    }
  }

  /** Why a cancellation or a driver's arrival is refused. */
  lemma OtherRefusals(w: World, id: nat, auth: Auth, debtAmount: Option<int>, now: int)
    requires id < |w.orders|
    ensures var o := w.orders[id];
      && Cancel(w, id, auth, now).1 == (if Superadmin !in auth.roles && o.userId != auth.userId then Refused(Forbidden)
                                        else if MayCancel(o, auth) then Updated(id) else Refused(Conflict))
      && Arrived(w, id, auth, debtAmount, now).1 ==
           (if o.orderType != Delivery then Refused(Conflict)
            else if !InRole(o, auth) then Refused(Forbidden)
            else if Superadmin !in auth.roles && (auth.userId, o.restaurantId) !in w.members then Refused(TenantDenied)
            else Updated(id))
  {}

  // ---- Per call: the debt report ----

  predicate Owes(o: Order, userId: string) {
    o.userId == userId && o.debt.status == Outstanding && o.debt.amount > 0 && o.payment.status != Paid
  }

  predicate IsLineOf(line: DebtLine, id: nat, o: Order) {
    line.id == id && line.restaurantId == o.restaurantId && line.amount == o.debt.amount
    && line.recordedAt == o.debt.recordedAt && line.status == o.status
  }

  predicate HasLine(lines: seq<DebtLine>, id: nat) {
    exists k :: 0 <= k < |lines| && lines[k].id == id
  }

  /** Every line is that of an order among the first n which the user owes. */
  predicate LinesHold(lines: seq<DebtLine>, orders: seq<Order>, userId: string, n: nat)
    requires n <= |orders|
  {
    forall k :: 0 <= k < |lines| ==> lines[k].id < n && Owes(orders[lines[k].id], userId) && IsLineOf(lines[k], lines[k].id, orders[lines[k].id])
  }

  predicate NewestFirst(lines: seq<DebtLine>) {
    forall i, j :: 0 <= i < j < |lines| ==> lines[i].id > lines[j].id
  }

  lemma {:induction false} DebtLinesHold(orders: seq<Order>, userId: string, n: nat)
    requires n <= |orders|
    ensures LinesHold(DebtLines(orders, userId, n), orders, userId, n) && NewestFirst(DebtLines(orders, userId, n))
  {
    if n > 0 {
      DebtLinesHold(orders, userId, n - 1);
    }
  }

  lemma {:induction false} OwedHasLine(orders: seq<Order>, userId: string, n: nat, id: nat)
    requires id < n <= |orders| && Owes(orders[id], userId)
    ensures HasLine(DebtLines(orders, userId, n), id)
  {
    var lines, rest := DebtLines(orders, userId, n), DebtLines(orders, userId, n - 1);
    if id < n - 1 {
      OwedHasLine(orders, userId, n - 1, id);
      var k :| 0 <= k < |rest| && rest[k].id == id;
      assert lines[k + |lines| - |rest|] == rest[k];
    } else {
      assert lines[0].id == id;
    }
  }

  /** The report has one line for each order the user owes, with its own fields, newest first. */
  lemma {:induction false} DebtLinesAre(orders: seq<Order>, userId: string, id: nat)
    requires id < |orders|
    ensures var lines := DebtLines(orders, userId, |orders|);
      && LinesHold(lines, orders, userId, |orders|) && NewestFirst(lines)
      && (HasLine(lines, id) <==> Owes(orders[id], userId))
  {
    DebtLinesHold(orders, userId, |orders|);
    if Owes(orders[id], userId) {
      OwedHasLine(orders, userId, |orders|, id);
    }
  }

  // ---- Per call: the sweep ----

  /** The sweep's query: past the QR deadline, unscanned, not paid, debt not cleared, and neither
      EXPIRED, COMPLETED nor CANCELLED. */
  predicate Sweepable(o: Order, now: int) {
    && now > o.qr.expiresAt && o.qr.scannedAt == None
    && o.payment.status != Paid && o.debt.status != Cleared
    && o.status !in {Expired, Completed, Cancelled}
  }

  /** How many of the first n orders the query finds. */
  function SweepableBefore(orders: seq<Order>, now: int, n: nat): nat
    requires n <= |orders|
  {
    if n == 0 then 0 else SweepableBefore(orders, now, n - 1) + if Sweepable(orders[n - 1], now) then 1 else 0
  }

  lemma {:induction false} SweepableIsDue(orders: seq<Order>, now: int, n: nat)
    requires n <= |orders|
    ensures |DueUpTo(orders, now, n)| == SweepableBefore(orders, now, n)
  {
    if n > 0 {
      SweepableIsDue(orders, now, n - 1);
    }
  }

  /** A due order stands in the query's result after those that come before it. */
  lemma {:induction false} DueAt(orders: seq<Order>, now: int, n: nat, id: nat)
    requires id < n <= |orders| && Sweepable(orders[id], now)
    ensures var due, i := DueUpTo(orders, now, n), SweepableBefore(orders, now, id); i < |due| && due[i] == id
  {
    SweepableIsDue(orders, now, n - 1);
    if id < n - 1 {
      DueAt(orders, now, n - 1, id);
    }
  }

  /** A sweep takes the order: the query finds it, fewer than limit before it (0: no limit), and
      the blacklist does not throw at any order before it. */
  predicate Takes(w: World, limit: nat, blacklist: nat, now: int, id: nat) {
    && id < |w.orders| && Sweepable(w.orders[id], now)
    && (limit == 0 || SweepableBefore(w.orders, now, id) < limit)
    && SweepableBefore(w.orders, now, id) <= blacklist
  }

  lemma SweptIff(w: World, limit: nat, blacklist: nat, now: int, id: nat)
    ensures id in SweptIds(w, limit, blacklist, now) <==> Takes(w, limit, blacklist, now, id)
  {
    var due, ids := DueIds(w.orders, now), SweptIds(w, limit, blacklist, now);
    DueFacts(w.orders, now, |w.orders|);
    if id in ids {
      assert id in due;
      DueIsComplete(w.orders, now, |w.orders|, id);
    }
    if id < |w.orders| && Sweepable(w.orders[id], now) {
      var i := SweepableBefore(w.orders, now, id);
      DueAt(w.orders, now, |w.orders|, id);
      assert ids == due[..|ids|];
      if id in ids {
        var j :| 0 <= j < |ids| && ids[j] == id;
        assert due[j] == due[i];
      }
      if i < |ids| {
        assert ids[i] == id;
      }
    }
  }

  /** A sweep makes exactly the orders it takes EXPIRED and OUTSTANDING for their full total, from
      now, with both flags raised, and publishes the expiry of each of them but the one at which
      the blacklist threw; it writes nothing else. */
  lemma SweepOutcome(w: World, limit: nat, blacklist: nat, now: int, id: nat)
    requires id < |w.orders|
    ensures var w' := Sweep(w, limit, blacklist, now).0; var o := w.orders[id];
      && |w'.orders| == |w.orders|
      && w'.orders[id] == (if !Takes(w, limit, blacklist, now, id) then o
                           else Order(o.userId, o.restaurantId, o.orderType, o.items, o.total, Expired, o.payment,
                                      Debt(Outstanding, o.total, Some(now), None), Flags(true, true), o.qr, o.driverArrivedAt))
      && w'.members == w.members && w'.processed == w.processed
  {
    SweptIff(w, limit, blacklist, now, id);
    SweptFacts(w, limit, blacklist, now);
    SweepWritesAt(w.orders, SweptIds(w, limit, blacklist, now), now, id);
  }

  lemma {:induction false} SweepTold(w: World, limit: nat, blacklist: nat, now: int, m: Message)
    ensures var w' := Sweep(w, limit, blacklist, now).0;
      && w.published <= w'.published
      && (m in w'.published[|w.published|..] <==>
            && m.QrExpired? && Takes(w, limit, blacklist, now, m.id) && SweepableBefore(w.orders, now, m.id) != blacklist
            && m.debtAmount == w.orders[m.id].total)
  {
    var w', ids := Sweep(w, limit, blacklist, now).0, SweptIds(w, limit, blacklist, now);
    var told := if blacklist < |ids| then ids[..blacklist] else ids;
    assert w'.published[|w.published|..] == SweepMessages(w.orders, told);
    if m.QrExpired? {
      ToldIff(w, limit, blacklist, now, m.id);
      if m.id in told && m.debtAmount == w.orders[m.id].total {
        var i :| 0 <= i < |told| && told[i] == m.id;
        assert SweepMessages(w.orders, told)[i] == m;
      }
    }
  }

  lemma {:induction false} ToldIff(w: World, limit: nat, blacklist: nat, now: int, id: nat)
    ensures var ids := SweptIds(w, limit, blacklist, now);
      id in (if blacklist < |ids| then ids[..blacklist] else ids) <==>
        Takes(w, limit, blacklist, now, id) && SweepableBefore(w.orders, now, id) != blacklist
  {
    var due, ids := DueIds(w.orders, now), SweptIds(w, limit, blacklist, now);
    SweptIff(w, limit, blacklist, now, id);
    DueFacts(w.orders, now, |w.orders|);
    assert ids == due[..|ids|];
    if id in ids {
      var i := SweepableBefore(w.orders, now, id);
      DueAt(w.orders, now, |w.orders|, id);
      var j :| 0 <= j < |ids| && ids[j] == id;
      assert due[j] == due[i];
      InPrefix(due, if blacklist < |ids| then blacklist else |ids|, i);
    }
  }

  // ---- Per call: memberships ----

  /** The message is about this member: user, else staff user, else manager; none may be empty. */
  predicate About(p: MembershipEvent, user: string, restaurant: string) {
    && user != "" && restaurant != "" && p.restaurantId == restaurant
    && (p.userId == user || (p.userId == "" && (p.staffUserId == user || (p.staffUserId == "" && p.managerUserId == user))))
  }

  predicate Removal(p: MembershipEvent) {
    p.removed || p.removedKey
  }

  /** The role in upper case, letter by letter; STAFF if there is none. */
  predicate RoleOf(p: MembershipEvent, role: string) {
    if p.role == "" then role == "STAFF"
    else |role| == |p.role| && forall i :: 0 <= i < |role| ==>
      if 'a' <= p.role[i] <= 'z' then role[i] as int == p.role[i] as int - 32 else role[i] == p.role[i]
  }

  predicate Assigns(w: World, e: Event, user: string, restaurant: string) {
    e.call.CallMembership? && !Seen(w, e.call.eventId) && About(e.call.payload, user, restaurant) && !Removal(e.call.payload)
  }

  predicate Removes(w: World, e: Event, user: string, restaurant: string) {
    e.call.CallMembership? && !Seen(w, e.call.eventId) && About(e.call.payload, user, restaurant) && Removal(e.call.payload)
  }

  /** After a membership message someone is a member exactly if it is new and assigns them, or they
      were and it does not newly remove them; an assigned member has the role it names, every
      other keeps theirs, and no order changes. */
  lemma MembershipIff(w: World, e: Event, user: string, restaurant: string)
    requires e.call.CallMembership?
    ensures var w' := Step(w, e); var key := (user, restaurant);
      && (key in w'.members <==> Assigns(w, e, user, restaurant) || (key in w.members && !Removes(w, e, user, restaurant)))
      && (key in w'.members ==>
            if Assigns(w, e, user, restaurant) then RoleOf(e.call.payload, w'.members[key]) else w'.members[key] == w.members[key])
      && w'.orders == w.orders && w'.published == w.published
  {}

  // ---- Over runs: memberships ----

  function Assigning(user: string, restaurant: string): (World, Event) -> bool {
    (w: World, e: Event) => Assigns(w, e, user, restaurant)
  }

  function Removing(user: string, restaurant: string): (World, Event) -> bool {
    (w: World, e: Event) => Removes(w, e, user, restaurant)
  }

  function IsMember(user: string, restaurant: string): World -> bool {
    (w: World) => (user, restaurant) in w.members
  }

  lemma OthersKeepMembers(w: World, e: Event)
    requires !e.call.CallMembership?
    ensures Step(w, e).members == w.members
  {}

  lemma WorldsKept()
    ensures Kept(Step, OrderDeliveries.AnyEvent, AnyWorld)
  {}

  /** In every run someone is a member of a restaurant exactly if the last message about the two to
      be handled, duplicates aside, was an assignment. */
  lemma {:induction false} MemberIff(ttl: int, events: seq<Event>, n: nat, user: string, restaurant: string)
    requires n <= |events|
    ensures (user, restaurant) in At(Step, Start(ttl), events, n).members <==>
      LastOn(Step, Start(ttl), events, Assigning(user, restaurant), Removing(user, restaurant), 0, n)
  {
    WorldsKept();
    forall w: World, e: Event
      ensures IsMember(user, restaurant)(Step(w, e)) <==>
        Assigning(user, restaurant)(w, e) || (IsMember(user, restaurant)(w) && !Removing(user, restaurant)(w, e))
    {
      if e.call.CallMembership? {
        MembershipIff(w, e, user, restaurant);
      } else {
        OthersKeepMembers(w, e);
      }
    }
    SwitchedIff(Step, OrderDeliveries.AnyEvent, AnyWorld, IsMember(user, restaurant), Assigning(user, restaurant), Removing(user, restaurant),
                Start(ttl), events, n);
  }

  predicate IsLate(w: World, e: Event, user: string, restaurant: string) {
    e.call.CallMembership? && About(e.call.payload, user, restaurant) && !Removal(e.call.payload) ==> Seen(w, e.call.eventId)
  }

  /** Every assignment of the two that comes at or after m carries an id that was processed by then. */
  predicate OnlyLateAssignments(ttl: int, events: seq<Event>, m: nat, n: nat, user: string, restaurant: string)
    requires m <= n <= |events|
  {
    forall i :: m <= i < n ==> IsLate(At(Step, Start(ttl), events, m), events[i], user, restaurant)
  }

  /** Whoever has been removed is not brought back by redeliveries of earlier assignments. */
  lemma {:induction false} RemovedStaysRemoved(ttl: int, events: seq<Event>, m: nat, n: nat, user: string, restaurant: string)
    requires m < n <= |events| && Removes(At(Step, Start(ttl), events, m), events[m], user, restaurant)
    requires OnlyLateAssignments(ttl, events, m, n, user, restaurant)
    ensures (user, restaurant) !in At(Step, Start(ttl), events, n).members
  {
    MemberIff(ttl, events, n, user, restaurant);
    var on, off := Assigning(user, restaurant), Removing(user, restaurant);
    assert Happened(Step, Start(ttl), events, off, m);
    forall i | m <= i < n ensures !Happened(Step, Start(ttl), events, on, i) {
      ProcessedKept(Start(ttl), events, m, i);
    }
  }

  // ---- Over runs: processed ids ----

  /** The delivery marks the id: a membership message with it, or a payment with it for an order
      that exists. */
  function Marks(eventId: string): (World, Event) -> bool {
    (w: World, e: Event) =>
      || (e.call.CallMembership? && e.call.eventId == eventId)
      || (e.call.CallPay? && e.call.eventId == eventId && exists id :: 0 <= id < |w.orders| && Pays(e.call.event, e.call.forOrder, id))
  }

  function HasSeen(eventId: string): World -> bool {
    (w: World) => Seen(w, eventId)
  }

  lemma StepMarks(w: World, e: Event, eventId: string)
    requires eventId != ""
    ensures Seen(Step(w, e), eventId) <==> Seen(w, eventId) || Marks(eventId)(w, e)
  {
    if e.call.CallPay? {
      var target := PayTarget(e.call.event, e.call.forOrder);
      if target.Some? {
        assert Pays(e.call.event, e.call.forOrder, target.value);
      }
      assert forall id: nat :: Pays(e.call.event, e.call.forOrder, id) ==> target == Some(id);
    }
  }

  /** In every run an event id counts as seen exactly if a membership message, or a payment for an
      order that existed, has been delivered with it. */
  lemma {:induction false} SeenIff(ttl: int, events: seq<Event>, n: nat, eventId: string)
    requires n <= |events| && eventId != ""
    ensures Seen(At(Step, Start(ttl), events, n), eventId) <==> HappenedBefore(Step, Start(ttl), events, Marks(eventId), n)
  {
    WorldsKept();
    forall w: World, e: Event ensures HasSeen(eventId)(Step(w, e)) <==> HasSeen(eventId)(w) || Marks(eventId)(w, e) {
      StepMarks(w, e, eventId);
    }
    TurnedOnIff(Step, OrderDeliveries.AnyEvent, AnyWorld, HasSeen(eventId), Marks(eventId), Start(ttl), events, n);
  }

  // ---- Over runs: what an order goes back to ----

  predicate PaysIt(w: World, e: Event, id: nat) {
    e.call.CallPay? && ReplyTo(w, e) == Handled && Pays(e.call.event, e.call.forOrder, id)
  }

  predicate ScansIt(w: World, e: Event, id: nat) {
    e.call.CallScan? && ReplyTo(w, e) == Updated(id)
  }

  predicate CancelsIt(w: World, e: Event, id: nat) {
    e.call.CallCancel? && ReplyTo(w, e) == Updated(id)
  }

  predicate SweepsIt(w: World, e: Event, id: nat) {
    e.call.CallSweep? && Takes(w, e.call.limit, e.call.blacklist, e.at, id)
  }

  /** What a call makes of the status of an order. */
  predicate StatusAfter(w: World, e: Event, id: nat, status: Status)
    requires id < |w.orders|
  {
    if PaysIt(w, e, id) then status == PaidStatus
    else if ScansIt(w, e, id) then ClosedAs(w.orders[id], status)
    else if CancelsIt(w, e, id) then status == Cancelled
    else if SweepsIt(w, e, id) then status == Expired
    else status == w.orders[id].status
  }

  lemma SameTakes(w: World, now: int, limit: nat, blacklist: nat, at: int, id: nat)
    ensures Takes(w.(clock := now), limit, blacklist, at, id) <==> Takes(w, limit, blacklist, at, id)
  {}

  lemma SweepStatus(w: World, e: Event, id: nat)
    requires e.call.CallSweep? && id < |w.orders|
    ensures id < |Step(w, e).orders| && StatusAfter(w, e, id, Step(w, e).orders[id].status)
  {
    SweepOutcome(w.(clock := e.at), e.call.limit, e.call.blacklist, e.at, id);
    SameTakes(w, e.at, e.call.limit, e.call.blacklist, e.at, id);
  }

  lemma PayStatusAfter(w: World, e: Event, id: nat)
    requires e.call.CallPay? && id < |w.orders|
    ensures id < |Step(w, e).orders| && StatusAfter(w, e, id, Step(w, e).orders[id].status)
  {
    PayOutcome(w.(clock := e.at), e.call.event, e.call.forOrder, e.call.eventId, e.at, id);
    var target := PayTarget(e.call.event, e.call.forOrder);
    if target.Some? {
      PayOutcome(w.(clock := e.at), e.call.event, e.call.forOrder, e.call.eventId, e.at, target.value);
    }
  }

  lemma ScanStatusAfter(w: World, e: Event, id: nat)
    requires AllOk(w.orders, e.at) && e.call.CallScan? && id < |w.orders|
    ensures id < |Step(w, e).orders| && StatusAfter(w, e, id, Step(w, e).orders[id].status)
  {
    ScanOutcome(w.(clock := e.at), e.call.raw, e.call.auth, id);
    if ReplyTo(w, e).Updated? {
      ScanOutcome(w.(clock := e.at), e.call.raw, e.call.auth, ReplyTo(w, e).id);
    }
  }

  lemma OtherStatusAfter(w: World, e: Event, id: nat)
    requires AllOk(w.orders, e.at) && id < |w.orders|
    requires !e.call.CallScan? && !e.call.CallPay? && !e.call.CallSweep?
    ensures id < |Step(w, e).orders| && StatusAfter(w, e, id, Step(w, e).orders[id].status)
  {
    var w0 := w.(clock := e.at);
    match e.call
    case CallCancel(k, auth) => CancelIff(w0, k, auth, e.at);
    case CallArrived(k, auth, debtAmount) => ArrivedOutcome(w0, k, auth, debtAmount, e.at);
    case CallCreate(userId, restaurantId, orderType, payBy, items, pendingNonce, nonce) =>
      CreateSets(w0, userId, restaurantId, orderType, payBy, items, pendingNonce, nonce, e.at);
    case CallDebts(userId) => ClearPaidIsNoOp(w.orders, userId, e.at, e.at);
    case CallMembership(_, _) => MembershipIff(w, e, "", "");
  }

  lemma OkLater(w: World, now: int)
    requires AllOk(w.orders, w.clock) && w.clock <= now
    ensures AllOk(w.orders, now)
  {
    forall id | 0 <= id < |w.orders| ensures OrderOk(id, w.orders[id], now) {
      assert OrderOk(id, w.orders[id], w.clock);
    }
  }

  /** The four calls that move an order's status, and where each of them moves it. */
  lemma StepStatus(w: World, e: Event, id: nat)
    requires Inv(w) && Enabled(w, e) && id < |w.orders|
    ensures id < |Step(w, e).orders| && StatusAfter(w, e, id, Step(w, e).orders[id].status)
  {
    OkLater(w, e.at);
    if e.call.CallSweep? {
      SweepStatus(w, e, id);
    } else if e.call.CallPay? {
      PayStatusAfter(w, e, id);
    } else if e.call.CallScan? {
      ScanStatusAfter(w, e, id);
    } else {
      OtherStatusAfter(w, e, id);
    }
  }

  /** The call makes the order: which one it is, is what its place says. */
  predicate MakesIt(w: World, e: Event, id: nat) {
    e.call.CallCreate? && id == |w.orders|
  }

  lemma StepCreates(w: World, e: Event, id: nat)
    requires id >= |w.orders|
    ensures id < |Step(w, e).orders| <==> MakesIt(w, e, id)
    ensures MakesIt(w, e, id) ==> Step(w, e).orders[id].status == if e.call.payBy == PayOnApp then PaidStatus else Created
  {}

  function SweepsItNow(id: nat): (World, Event) -> bool {
    (w: World, e: Event) => SweepsIt(w, e, id)
  }

  function PaysOrScansIt(id: nat): (World, Event) -> bool {
    (w: World, e: Event) => PaysIt(w, e, id) || ScansIt(w, e, id)
  }

  function IsExpired(id: nat): World -> bool {
    (w: World) => id < |w.orders| && w.orders[id].status == Expired
  }

  lemma StepExpired(w: World, e: Event, id: nat)
    requires Inv(w) && Enabled(w, e)
    ensures IsExpired(id)(Step(w, e)) <==> SweepsItNow(id)(w, e) || (IsExpired(id)(w) && !PaysOrScansIt(id)(w, e))
  {
    if id < |w.orders| {
      StepStatus(w, e, id);
      if e.call.CallCancel? {
        CancelIff(w.(clock := e.at), e.call.id, e.call.auth, e.at);
      }
    } else {
      StepCreates(w, e, id);
    }
  }

  /** In every run an order is EXPIRED, and owes its full total, exactly if a sweep has taken it and
      it has been neither paid nor scanned since. */
  lemma {:induction false} OwesIff(ttl: int, events: seq<Event>, n: nat, id: nat)
    requires Possible(Step, Enabled, Start(ttl), events) && n <= |events|
    ensures var w := At(Step, Start(ttl), events, n);
      && (IsExpired(id)(w) <==> LastOn(Step, Start(ttl), events, SweepsItNow(id), PaysOrScansIt(id), 0, n))
      && (id < |w.orders| ==> w.orders[id].debt.amount == if IsExpired(id)(w) then w.orders[id].total else 0)
  {
    InvKept();
    InvAt(Start(ttl), events, n);
    forall w: World, e: Event | Inv(w) && Enabled(w, e)
      ensures IsExpired(id)(Step(w, e)) <==> SweepsItNow(id)(w, e) || (IsExpired(id)(w) && !PaysOrScansIt(id)(w, e))
    {
      StepExpired(w, e, id);
    }
    SwitchedIff(Step, Enabled, Inv, IsExpired(id), SweepsItNow(id), PaysOrScansIt(id), Start(ttl), events, n);
    var w := At(Step, Start(ttl), events, n);
    assert id < |w.orders| ==> OrderOk(id, w.orders[id], w.clock);
  }

  // ---- Over runs: what is due ----

  /** CREATED is the status of what is unpaid, unscanned and owes nothing; PAID that of the paid. */
  predicate FlowOk(o: Order) {
    && (o.status == Created ==> o.payment.status == Unpaid && o.qr.scannedAt == None && o.debt.status == NoDebt)
    && (o.status == PaidStatus ==> o.payment.status == Paid)
  }

  predicate FlowInv(w: World) {
    Inv(w) && forall id :: 0 <= id < |w.orders| ==> FlowOk(w.orders[id])
  }

  lemma PayFlow(w: World, e: Event)
    requires (forall id :: 0 <= id < |w.orders| ==> FlowOk(w.orders[id])) && e.call.CallPay?
    ensures forall id :: 0 <= id < |Step(w, e).orders| ==> FlowOk(Step(w, e).orders[id])
  {}

  lemma ScanFlow(w: World, e: Event)
    requires (forall id :: 0 <= id < |w.orders| ==> FlowOk(w.orders[id])) && e.call.CallScan?
    requires AllOk(w.orders, w.clock)
    ensures forall id :: 0 <= id < |Step(w, e).orders| ==> FlowOk(Step(w, e).orders[id])
  {
    if ReplyTo(w, e).Updated? {
      var id := ReplyTo(w, e).id;
      assert OrderOk(id, w.orders[id], w.clock);
    }
  }

  lemma SweepFlow(w: World, e: Event)
    requires (forall id :: 0 <= id < |w.orders| ==> FlowOk(w.orders[id])) && e.call.CallSweep?
    ensures forall id :: 0 <= id < |Step(w, e).orders| ==> FlowOk(Step(w, e).orders[id])
  {
    forall id | 0 <= id < |w.orders| ensures FlowOk(Step(w, e).orders[id]) {
      SweepOutcome(w.(clock := e.at), e.call.limit, e.call.blacklist, e.at, id);
    }
  }

  lemma OtherFlow(w: World, e: Event)
    requires (forall id :: 0 <= id < |w.orders| ==> FlowOk(w.orders[id])) && AllOk(w.orders, w.clock)
    requires !e.call.CallScan? && !e.call.CallPay? && !e.call.CallSweep?
    ensures forall id :: 0 <= id < |Step(w, e).orders| ==> FlowOk(Step(w, e).orders[id])
  {
    if e.call.CallDebts? {
      ClearPaidIsNoOp(w.orders, e.call.userId, w.clock, e.at);
    }
  }

  lemma FlowKept()
    ensures Kept(Step, Enabled, FlowInv)
  {
    forall w: World, e: Event | FlowInv(w) && Enabled(w, e) ensures FlowInv(Step(w, e)) {
      StepKeeps(w, e);
      match e.call
      case CallPay(_, _, _) => PayFlow(w, e);
      case CallScan(_, _) => ScanFlow(w, e);
      case CallSweep(_, _) => SweepFlow(w, e);
      case _ => OtherFlow(w, e);
    }
  }

  function OpensIt(id: nat): (World, Event) -> bool {
    (w: World, e: Event) => MakesIt(w, e, id) && e.call.payBy == PayLater
  }

  function ClosesIt(id: nat): (World, Event) -> bool {
    (w: World, e: Event) => PaysIt(w, e, id) || ScansIt(w, e, id) || CancelsIt(w, e, id) || SweepsIt(w, e, id)
  }

  function IsOpen(id: nat): World -> bool {
    (w: World) => id < |w.orders| && w.orders[id].status == Created
  }

  lemma StepOpen(w: World, e: Event, id: nat)
    requires Inv(w) && Enabled(w, e)
    ensures IsOpen(id)(Step(w, e)) <==> OpensIt(id)(w, e) || (IsOpen(id)(w) && !ClosesIt(id)(w, e))
  {
    if id < |w.orders| {
      StepStatus(w, e, id);
    } else {
      StepCreates(w, e, id);
    }
  }

  lemma SweepableIffOpen(id: nat, o: Order, clock: int, now: int)
    requires OrderOk(id, o, clock) && FlowOk(o)
    ensures Sweepable(o, now) <==> o.status == Created && o.qr.expiresAt < now
  {}

  /** In every run the sweep's query finds an order exactly if it was created to be paid later, its
      deadline is past, and it has been neither paid, scanned, cancelled nor swept. */
  lemma {:induction false} DueIff(ttl: int, events: seq<Event>, n: nat, id: nat, now: int)
    requires Possible(Step, Enabled, Start(ttl), events) && n <= |events| && id < |At(Step, Start(ttl), events, n).orders|
    ensures var o := At(Step, Start(ttl), events, n).orders[id];
      Sweepable(o, now) <==> o.qr.expiresAt < now && LastOn(Step, Start(ttl), events, OpensIt(id), ClosesIt(id), 0, n)
  {
    InvKept();
    FlowKept();
    InvariantAt(Step, Enabled, FlowInv, Start(ttl), events, n);
    forall w: World, e: Event | Inv(w) && Enabled(w, e)
      ensures IsOpen(id)(Step(w, e)) <==> OpensIt(id)(w, e) || (IsOpen(id)(w) && !ClosesIt(id)(w, e))
    {
      StepOpen(w, e, id);
    }
    SwitchedIff(Step, Enabled, Inv, IsOpen(id), OpensIt(id), ClosesIt(id), Start(ttl), events, n);
    var w := At(Step, Start(ttl), events, n);
    SweepableIffOpen(id, w.orders[id], w.clock, now);
  }
}
