/** The order handlers with every await as a separate step: what a handler has read may be out
    of date when it writes. Each read leaves an operation in flight; operations land in any
    order, or never. */
module OrderRaces {
  import opened Options
  import opened Runs
  import opened OrderData
  import Orders

  datatype Op =
    | OpCancel(id: nat, read: Order)
    | OpScan(id: nat, read: Order, scanner: string)
    | OpPay(id: nat, read: Order, providerRef: Option<string>, eventId: string)
    | OpExpire(id: nat, read: Order, now: int)          // now: when the sweep started

  datatype World = World(
    ttl: int, clock: int, orders: seq<Order>,
    members: map<(string, string), string>,
    drafts: set<nat>,                                   // created, second write of createOrder still to come
    flight: seq<Op>)

  datatype Call =
    | CreateDraft(userId: string, restaurantId: string, orderType: OrderType, payBy: Method, items: seq<Item>, nonce: string)
    | FinishDraft(id: nat, nonce: string)
    | ReadCancel(id: nat, auth: Auth)
    | ReadScan(raw: RawToken, auth: Auth)
    | ReadPay(id: nat, providerRef: Option<string>, eventId: string)
    | ReadSweep(limit: nat)
    | Land(k: nat)                                      // the k-th operation in flight writes
    | Clear(userId: string)                             // the updateMany of the debt query
    | Memberships(members: map<(string, string), string>)

  datatype Event = Event(at: int, call: Call)

  function Start(ttl: int): World {
    World(ttl, 0, [], map[], {}, [])
  }

  function OpId(op: Op): nat { op.id }

  /** What the write of an operation makes of the order it finds. */
  function Landed(cur: Order, op: Op, now: int): Order {
    match op
    case OpCancel(_, read) => WriteCancelled(cur, read, now)
    case OpScan(_, read, scanner) => WriteScanned(cur, read, scanner, now)
    case OpPay(_, read, providerRef, eventId) => WritePaid(cur, read, providerRef, eventId, now)
    case OpExpire(_, read, started) => WriteExpired(cur, read, started)
  }

  function Launch(w: World, op: Op): World {
    w.(flight := w.flight + [op])
  }

  function DoCreateDraft(w: World, call: Call): World
    requires call.CreateDraft?
  {
    var qr := BuildQr(Pending, call.restaurantId, call.nonce, w.clock + w.ttl);
    w.(orders := w.orders + [Draft(call.userId, call.restaurantId, call.orderType, call.payBy, call.items, qr)],
       drafts := w.drafts + {|w.orders|})
  }

  function DoFinishDraft(w: World, id: nat, nonce: string): World {
    if id !in w.drafts || id >= |w.orders| then w
    else
      var o := w.orders[id];
      w.(orders := w.orders[id := WriteQr(o, BuildQr(Ref(id), o.restaurantId, nonce, w.clock + w.ttl))], drafts := w.drafts - {id})
  }

  function DoReadCancel(w: World, id: nat, auth: Auth): World {
    if id >= |w.orders| || CancelRefusal(w.orders[id], auth).Some? then w else Launch(w, OpCancel(id, w.orders[id]))
  }

  function DoReadScan(w: World, raw: RawToken, auth: Auth): World {
    var verified := VerifyToken(raw, w.clock);
    if verified.None? || verified.value.orderId.Pending? || verified.value.orderId.id >= |w.orders| then w
    else
      var id := verified.value.orderId.id;
      var o := w.orders[id];
      if ScanRefusal(o, raw, verified.value.restaurantId, auth, (auth.userId, o.restaurantId) in w.members).Some? then w
      else Launch(w, OpScan(id, o, auth.userId))
  }

  function DoReadPay(w: World, id: nat, providerRef: Option<string>, eventId: string): World {
    if id >= |w.orders| then w else Launch(w, OpPay(id, w.orders[id], providerRef, eventId))
  }

  function ExpireOps(orders: seq<Order>, ids: seq<nat>, now: int): seq<Op>
    requires Orders.Within(ids, |orders|)
  {
    seq(|ids|, i requires 0 <= i < |ids| => OpExpire(ids[i], orders[ids[i]], now))
  }

  function DoReadSweep(w: World, limit: nat): World {
    Orders.DueFacts(w.orders, w.clock, |w.orders|);
    w.(flight := w.flight + ExpireOps(w.orders, Orders.Limited(Orders.DueIds(w.orders, w.clock), limit), w.clock))
  }

  function DoLand(w: World, k: nat): World {
    if k >= |w.flight| || OpId(w.flight[k]) >= |w.orders| then w
    else
      var op := w.flight[k];
      w.(orders := w.orders[op.id := Landed(w.orders[op.id], op, w.clock)], flight := w.flight[..k] + w.flight[k + 1..])
  }

  function Apply(w: World, call: Call): World {
    match call
    case CreateDraft(_, _, _, _, _, _) => DoCreateDraft(w, call)
    case FinishDraft(id, nonce) => DoFinishDraft(w, id, nonce)
    case ReadCancel(id, auth) => DoReadCancel(w, id, auth)
    case ReadScan(raw, auth) => DoReadScan(w, raw, auth)
    case ReadPay(id, providerRef, eventId) => DoReadPay(w, id, providerRef, eventId)
    case ReadSweep(limit) => DoReadSweep(w, limit)
    case Land(k) => DoLand(w, k)
    case Memberships(members) => w.(members := members)
    case Clear(userId) => w.(orders := Orders.ClearPaid(w.orders, userId, w.clock))
  }

  function Step(w: World, e: Event): World {
    Apply(w.(clock := e.at), e.call)
  }

  predicate Enabled(w: World, e: Event) {
    w.clock <= e.at && (e.call.CreateDraft? ==> ValidItems(e.call.items))
  }

  // ---- What survives every interleaving ----

  /** Compare DebtOk: an EXPIRED order may have its debt cleared, and an OUTSTANDING one may be
      paid or scanned. */
  predicate RaceOk(o: Order) {
    && o.total == Subtotal(o.items) && o.total > 0
    && o.debt.amount == (if o.debt.status.Outstanding? then o.total else 0)
    && o.flags == Flags(o.debt.status.Outstanding?, o.debt.status.Outstanding?)
    && (o.debt.status.Outstanding? ==> o.status.Expired?)
    && (o.status.Expired? ==> !o.debt.status.NoDebt?)
    && (o.debt.status.Cleared? ==> o.payment.status.Paid?)
    && (o.payment.payBy.PayOnApp? ==> o.payment.status.Paid?)
    && (o.qr.scannedAt.Some? ==> o.payment.status.Paid?)
  }

  /** Compare Evolves: the debt may move backwards. */
  predicate RaceEvolves(o: Order, o': Order) {
    && o'.userId == o.userId && o'.restaurantId == o.restaurantId && o'.orderType == o.orderType
    && o'.items == o.items && o'.total == o.total && o'.payment.payBy == o.payment.payBy
    && (o.payment.status.Paid? ==> o'.payment.status.Paid?)
    && (o.qr.scannedAt.Some? ==> o'.qr.scannedAt.Some?)
  }

  predicate OrderFine(id: nat, o: Order, drafts: set<nat>) {
    && RaceOk(o)
    && (id in drafts ==> o.qr.scannedAt.None? && o.qr.tokenHash.raw.RawToken? && o.qr.tokenHash.raw.data.orderId.Pending?)
  }

  predicate OrdersFine(orders: seq<Order>, drafts: set<nat>) {
    forall id :: 0 <= id < |orders| ==> OrderFine(id, orders[id], drafts)
  }

  /** What an operation read was true when it read it, and the order has only evolved since. */
  predicate OpFine(op: Op, orders: seq<Order>, drafts: set<nat>) {
    && op.id < |orders| && RaceOk(op.read) && RaceEvolves(op.read, orders[op.id])
    && (op.OpScan? ==> op.id !in drafts)
  }

  predicate FlightFine(flight: seq<Op>, orders: seq<Order>, drafts: set<nat>) {
    forall k :: 0 <= k < |flight| ==> OpFine(flight[k], orders, drafts)
  }

  predicate Inv(w: World) {
    && OrdersFine(w.orders, w.drafts)
    && FlightFine(w.flight, w.orders, w.drafts)
    && (forall id :: id in w.drafts ==> id < |w.orders|)
  }

  predicate AllRaceEvolve(orders: seq<Order>, orders': seq<Order>) {
    && |orders| <= |orders'|
    && forall id :: 0 <= id < |orders| ==> RaceEvolves(orders[id], orders'[id])
  }

  /** Orders evolve and drafts only get finished: operations in flight stay fine. */
  lemma FlightStaysFine(flight: seq<Op>, orders: seq<Order>, drafts: set<nat>, orders': seq<Order>, drafts': set<nat>)
    requires FlightFine(flight, orders, drafts) && AllRaceEvolve(orders, orders')
    requires forall id :: id in drafts' && id < |orders| ==> id in drafts
    ensures FlightFine(flight, orders', drafts')
  {
    forall k | 0 <= k < |flight| ensures OpFine(flight[k], orders', drafts') {
      var op := flight[k];
      assert OpFine(op, orders, drafts);
      assert RaceEvolves(orders[op.id], orders'[op.id]);
    }
  }

  /** Every write keeps one order fine and evolves it, however stale the read was. */
  lemma LandedFine(id: nat, cur: Order, op: Op, now: int, drafts: set<nat>)
    requires OrderFine(id, cur, drafts) && RaceOk(op.read) && RaceEvolves(op.read, cur)
    requires op.OpScan? ==> id !in drafts
    ensures OrderFine(id, Landed(cur, op, now), drafts) && RaceEvolves(cur, Landed(cur, op, now))
  {}

  lemma LaunchKeeps(w: World, op: Op)
    requires Inv(w) && OpFine(op, w.orders, w.drafts)
    ensures Inv(Launch(w, op)) && AllRaceEvolve(w.orders, Launch(w, op).orders)
  {}

  lemma LandKeeps(w: World, k: nat)
    requires Inv(w)
    ensures Inv(DoLand(w, k)) && AllRaceEvolve(w.orders, DoLand(w, k).orders)
  {
    if k < |w.flight| && OpId(w.flight[k]) < |w.orders| {
      var op := w.flight[k];
      var w' := DoLand(w, k);
      assert OpFine(op, w.orders, w.drafts) && OrderFine(op.id, w.orders[op.id], w.drafts);
      LandedFine(op.id, w.orders[op.id], op, w.clock, w.drafts);
      FlightStaysFine(w.flight, w.orders, w.drafts, w'.orders, w.drafts);
      assert forall i :: 0 <= i < |w'.flight| ==> w'.flight[i] == w.flight[if i < k then i else i + 1];
    }
  }

  lemma CreateDraftKeeps(w: World, call: Call)
    requires Inv(w) && call.CreateDraft? && ValidItems(call.items)
    ensures Inv(DoCreateDraft(w, call)) && AllRaceEvolve(w.orders, DoCreateDraft(w, call).orders)
  {
    SubtotalPositive(call.items);
    var w' := DoCreateDraft(w, call);
    FlightStaysFine(w.flight, w.orders, w.drafts, w'.orders, w'.drafts);
    forall id | 0 <= id < |w'.orders| ensures OrderFine(id, w'.orders[id], w'.drafts) {
      if id < |w.orders| {
        assert OrderFine(id, w.orders[id], w.drafts);
      }
    }
  }

  lemma FinishDraftKeeps(w: World, id: nat, nonce: string)
    requires Inv(w)
    ensures Inv(DoFinishDraft(w, id, nonce)) && AllRaceEvolve(w.orders, DoFinishDraft(w, id, nonce).orders)
  {
    if id in w.drafts {
      var w' := DoFinishDraft(w, id, nonce);
      assert OrderFine(id, w.orders[id], w.drafts);
      FlightStaysFine(w.flight, w.orders, w.drafts, w'.orders, w'.drafts);
      forall i | 0 <= i < |w'.orders| ensures OrderFine(i, w'.orders[i], w'.drafts) {
        assert OrderFine(i, w.orders[i], w.drafts);
      }
    }
  }

  lemma ReadScanKeeps(w: World, raw: RawToken, auth: Auth)
    requires Inv(w)
    ensures Inv(DoReadScan(w, raw, auth)) && AllRaceEvolve(w.orders, DoReadScan(w, raw, auth).orders)
  {
    if DoReadScan(w, raw, auth) != w {
      var id := raw.data.orderId.id;
      assert OrderFine(id, w.orders[id], w.drafts);
      LaunchKeeps(w, OpScan(id, w.orders[id], auth.userId));
    }
  }

  lemma ReadSweepKeeps(w: World, limit: nat)
    requires Inv(w)
    ensures Inv(DoReadSweep(w, limit)) && AllRaceEvolve(w.orders, DoReadSweep(w, limit).orders)
  {
    Orders.DueFacts(w.orders, w.clock, |w.orders|);
    var ids := Orders.Limited(Orders.DueIds(w.orders, w.clock), limit);
    var ops := ExpireOps(w.orders, ids, w.clock);
    forall k | 0 <= k < |ops| ensures OpFine(ops[k], w.orders, w.drafts) {
      assert OrderFine(ids[k], w.orders[ids[k]], w.drafts);
    }
  }

  lemma ClearKeeps(w: World, userId: string)
    requires Inv(w)
    ensures var w' := w.(orders := Orders.ClearPaid(w.orders, userId, w.clock)); Inv(w') && AllRaceEvolve(w.orders, w'.orders)
  {
    var orders' := Orders.ClearPaid(w.orders, userId, w.clock);
    forall id | 0 <= id < |w.orders| ensures OrderFine(id, orders'[id], w.drafts) && RaceEvolves(w.orders[id], orders'[id]) {
      assert OrderFine(id, w.orders[id], w.drafts);
    }
    FlightStaysFine(w.flight, w.orders, w.drafts, orders', w.drafts);
  }

  lemma StepKeeps(w: World, e: Event)
    requires Inv(w) && Enabled(w, e)
    ensures Inv(Step(w, e)) && AllRaceEvolve(w.orders, Step(w, e).orders)
  {
    var w0 := w.(clock := e.at);
    match e.call
    case CreateDraft(_, _, _, _, _, _) => CreateDraftKeeps(w0, e.call);
    case FinishDraft(id, nonce) => FinishDraftKeeps(w0, id, nonce);
    case ReadCancel(id, auth) =>
      if Step(w, e) != w0 {
        assert OrderFine(id, w.orders[id], w.drafts);
        LaunchKeeps(w0, OpCancel(id, w.orders[id]));
      }
    case ReadScan(raw, auth) => ReadScanKeeps(w0, raw, auth);
    case ReadPay(id, providerRef, eventId) =>
      if id < |w.orders| {
        assert OrderFine(id, w.orders[id], w.drafts);
        LaunchKeeps(w0, OpPay(id, w.orders[id], providerRef, eventId));
      }
    case ReadSweep(limit) => ReadSweepKeeps(w0, limit);
    case Land(k) => LandKeeps(w0, k);
    case Clear(userId) => ClearKeeps(w0, userId);
    case Memberships(_) =>
  }

  // ---- Over whole runs ----

  lemma InvKept()
    ensures Kept(Step, Enabled, Inv)
  {
    forall w: World, e: Event | Inv(w) && Enabled(w, e) ensures Inv(Step(w, e)) {
      StepKeeps(w, e);
    }
  }

  lemma {:induction false} InvAt(w: World, events: seq<Event>, n: nat)
    requires Inv(w) && Possible(Step, Enabled, w, events) && n <= |events|
    ensures Inv(At(Step, w, events, n))
  {
    InvKept();
    InvariantAt(Step, Enabled, Inv, w, events, n);
  }

  function EvolvedFrom(orders: seq<Order>): World -> bool {
    (v: World) => AllRaceEvolve(orders, v.orders)
  }

  lemma EvolvedFromStable(orders: seq<Order>)
    ensures Stable(Step, Enabled, Inv, EvolvedFrom(orders))
  {
    forall v: World, e: Event | Inv(v) && Enabled(v, e) && EvolvedFrom(orders)(v) ensures EvolvedFrom(orders)(Step(v, e)) {
      StepKeeps(v, e);
      var orders' := Step(v, e).orders;
      forall id | 0 <= id < |orders| ensures RaceEvolves(orders[id], orders'[id]) {
        assert RaceEvolves(orders[id], v.orders[id]) && RaceEvolves(v.orders[id], orders'[id]);
      }
    }
  }

  /** However the steps of the handlers interleave: what is paid stays paid, what is scanned
      stays scanned, and an order keeps its owner, items and total. */
  lemma {:induction false} PaidStaysPaid(w: World, events: seq<Event>, m: nat, n: nat)
    requires Inv(w) && Possible(Step, Enabled, w, events) && m <= n <= |events|
    ensures AllRaceEvolve(At(Step, w, events, m).orders, At(Step, w, events, n).orders)
  {
    var orders := At(Step, w, events, m).orders;
    InvKept();
    EvolvedFromStable(orders);
    StableAt(Step, Enabled, Inv, EvolvedFrom(orders), w, events, m, n);
  }

  /** However the steps interleave: a scanned order is paid, an outstanding debt is the full
      total of an EXPIRED order, a settled one is zero, and the risk flags follow the debt. */
  lemma {:induction false} OrdersUnderRaces(ttl: int, events: seq<Event>, n: nat, id: nat)
    requires Possible(Step, Enabled, Start(ttl), events) && n <= |events| && id < |At(Step, Start(ttl), events, n).orders|
    ensures RaceOk(At(Step, Start(ttl), events, n).orders[id])
  {
    InvAt(Start(ttl), events, n);
    var w := At(Step, Start(ttl), events, n);
    assert OrderFine(id, w.orders[id], w.drafts);
  }

  // ---- The debt query ----

  /** The listing holds exactly the unpaid OUTSTANDING orders of the user, each at its full
      total; so no order paid at the moment of the read is ever reported. */
  lemma {:induction false} ListedExactly(orders: seq<Order>, drafts: set<nat>, userId: string, n: nat, id: nat)
    requires OrdersFine(orders, drafts) && id < n <= |orders|
    ensures var o := orders[id]; var line := Orders.DebtLine(id, o.restaurantId, o.total, o.debt.recordedAt, o.status);
      && (line in Orders.DebtLines(orders, userId, n) <==> o.userId == userId && o.debt.status.Outstanding? && !o.payment.status.Paid?)
      && (forall l :: l in Orders.DebtLines(orders, userId, n) && l.id == id ==> l == line)
  {
    assert OrderFine(id, orders[id], drafts);
    LinesBelow(orders, userId, n - 1);
    if id < n - 1 {
      ListedExactly(orders, drafts, userId, n - 1, id);
    }
  }

  lemma {:induction false} LinesBelow(orders: seq<Order>, userId: string, n: nat)
    requires n <= |orders|
    ensures forall l :: l in Orders.DebtLines(orders, userId, n) ==> l.id < n
  {
    if n > 0 {
      LinesBelow(orders, userId, n - 1);
    }
  }

  /** Right after the clearing step no paid order of that user is left OUTSTANDING; every such
      order has become CLEARED and nothing else has changed. */
  lemma ClearLeavesNone(w: World, e: Event, id: nat)
    requires Inv(w) && e.call.Clear? && id < |w.orders|
    ensures |Step(w, e).orders| == |w.orders|
    ensures var o, o' := w.orders[id], Step(w, e).orders[id];
      && !(o'.userId == e.call.userId && o'.payment.status.Paid? && o'.debt.status.Outstanding?)
      && (o' != o <==> o.userId == e.call.userId && o.payment.status.Paid? && o.debt.status.Outstanding?)
      && (o' != o ==>
            o' == Order(o.userId, o.restaurantId, o.orderType, o.items, o.total, o.status, o.payment,
                        Debt(Cleared, 0, o.debt.recordedAt, Some(e.at)), Flags(false, false), o.qr, o.driverArrivedAt))
  {
    assert OrderFine(id, w.orders[id], w.drafts);
  }

  // ---- What does not survive, and exactly when ----

  predicate Coherent(orders: seq<Order>) {
    forall id :: 0 <= id < |orders| ==> (orders[id].status.Expired? <==> orders[id].debt.status.Outstanding?)
  }

  predicate SomePaidDebt(orders: seq<Order>, userId: string) {
    exists id :: 0 <= id < |orders| && PaidDebt(orders[id], userId)
  }

  /** EXPIRED iff OUTSTANDING is kept by every step except one: a clearing query that meets a
      paid OUTSTANDING order always breaks it. */
  lemma CoherentKeptIff(w: World, e: Event)
    requires Inv(w) && Enabled(w, e) && Coherent(w.orders)
    ensures Coherent(Step(w, e).orders) <==> !(e.call.Clear? && SomePaidDebt(w.orders, e.call.userId))
  {
    var w' := Step(w, e);
    if e.call.Clear? {
      if id :| 0 <= id < |w.orders| && PaidDebt(w.orders[id], e.call.userId) {
        assert w'.orders[id].status.Expired? && w'.orders[id].debt.status.Cleared?;
      } else {
        assert w'.orders == w.orders;
      }
    } else if e.call.ReadSweep? {
      assert w'.orders == w.orders;
    }
  }

  /** The write in flight is the sweep's and lands on the given order. */
  predicate LateExpiry(w: World, e: Event, id: nat) {
    e.call.Land? && e.call.k < |w.flight| && w.flight[e.call.k].OpExpire? && w.flight[e.call.k].id == id
  }

  /** A paid order comes to owe exactly when the sweep's write lands on it after its payment. */
  lemma PaidDebtArisesIff(w: World, e: Event, id: nat)
    requires Inv(w) && Enabled(w, e) && id < |w.orders| && !(w.orders[id].payment.status.Paid? && w.orders[id].debt.status.Outstanding?)
    ensures id < |Step(w, e).orders|
    ensures var o' := Step(w, e).orders[id];
      o'.payment.status.Paid? && o'.debt.status.Outstanding? <==> w.orders[id].payment.status.Paid? && LateExpiry(w, e, id)
  {
    assert OrderFine(id, w.orders[id], w.drafts);
    if e.call.Land? && e.call.k < |w.flight| {
      assert OpFine(w.flight[e.call.k], w.orders, w.drafts);
    }
  }

  /** An order that can no longer owe, cancelled or cleared, starts to owe again exactly when
      the sweep's write lands on it late. */
  lemma OwesAgainIff(w: World, e: Event, id: nat)
    requires Inv(w) && Enabled(w, e) && id < |w.orders| && NeverOwes(w.orders[id])
    ensures id < |Step(w, e).orders|
    ensures !NeverOwes(Step(w, e).orders[id]) <==> LateExpiry(w, e, id)
  {
    assert OrderFine(id, w.orders[id], w.drafts);
    if e.call.Land? && e.call.k < |w.flight| {
      assert OpFine(w.flight[e.call.k], w.orders, w.drafts);
    }
  }

  /** An order is created, its QR runs out and a sweep reads it. */
  function UntilSweepRead(): seq<Event> {
    [Event(0, CreateDraft("u", "r", Delivery, PayLater, [Item("m", 5, 1)], "n")),
     Event(0, FinishDraft(0, "n")),
     Event(20, ReadSweep(0))]
  }

  /** A payment between the sweep's read and its write, then a debt query. */
  function LatePayment(): seq<Event> {
    UntilSweepRead() + [Event(21, ReadPay(0, None, "e")), Event(22, Land(1)), Event(23, Land(0)), Event(24, Clear("u"))]
  }

  /** The same with a cancellation by the owner instead of the payment. */
  function LateCancel(): seq<Event> {
    UntilSweepRead() + [Event(21, ReadCancel(0, Auth("u", {}))), Event(22, Land(1)), Event(23, Land(0))]
  }

  lemma {:induction false} SweepRead(es: seq<Event>)
    requires UntilSweepRead() <= es
    ensures var w := At(Step, Start(10), es, 3);
      && |w.orders| == 1 && w.flight == [OpExpire(0, w.orders[0], 20)] && w.clock == 20
      && w.orders[0].userId == "u" && w.orders[0].status.Created? && w.orders[0].total == 5
      && w.orders[0].debt == Debt(NoDebt, 0, None, None)
      && !w.orders[0].payment.status.Paid? && w.orders[0].payment.payBy.PayLater? && w.orders[0].qr.scannedAt.None?
  {
    AtNext(Step, Start(10), es, 0);
    AtNext(Step, Start(10), es, 1);
    AtNext(Step, Start(10), es, 2);
    var v := At(Step, Start(10), es, 2).(clock := 20);
    assert [Item("m", 5, 1)][..0] == [];
    assert Orders.DueUpTo(v.orders, 20, 0) == [];
    assert Orders.DueIds(v.orders, 20) == [0];
  }

  /** In this state the sweep that started at 20 is about to write the only order. */
  predicate AboutToExpire(w: World) {
    && |w.orders| == |w.flight| == 1 && w.flight[0].OpExpire? && w.flight[0].id == 0 && w.flight[0].read.total == 5
    && w.orders[0].userId == "u" && w.orders[0].total == 5
  }

  lemma PaymentLands(w: World)
    requires AboutToExpire(w)
    ensures var w' := Step(Step(w, Event(21, ReadPay(0, None, "e"))), Event(22, Land(1)));
      AboutToExpire(w') && w'.orders[0].payment.status.Paid? && w'.clock == 22
  {}

  lemma CancelLands(w: World)
    requires AboutToExpire(w) && w.orders[0].status.Created? && !w.orders[0].debt.status.Outstanding? && w.orders[0].qr.scannedAt.None?
    ensures var w' := Step(Step(w, Event(21, ReadCancel(0, Auth("u", {})))), Event(22, Land(1)));
      AboutToExpire(w') && w'.orders[0].status.Cancelled? && w'.clock == 22
  {}

  lemma ExpiryLands(w: World)
    requires AboutToExpire(w)
    ensures var w' := Step(w, Event(23, Land(0)));
      && |w'.orders| == 1 && w'.clock == 23
      && w'.orders[0] == WriteExpired(w.orders[0], w.flight[0].read, w.flight[0].now)
  {}

  lemma QueryClears(w: World)
    requires |w.orders| == 1 && PaidDebt(w.orders[0], "u")
    ensures var w' := Step(w, Event(24, Clear("u")));
      |w'.orders| == 1 && w'.orders[0].debt.status.Cleared? && w'.orders[0].status == w.orders[0].status
      && w'.orders[0].payment == w.orders[0].payment
  {}

  /** A run from the empty store in which an order ends up paid, EXPIRED and OUTSTANDING, and
      the next debt query leaves it EXPIRED with nothing owed. */
  lemma PaidOrderOwes()
    ensures var es := LatePayment();
      && At(Step, Start(10), es, 6).orders != [] && At(Step, Start(10), es, 7).orders != []
      && (var o := At(Step, Start(10), es, 6).orders[0]; o.payment.status.Paid? && o.status.Expired? && o.debt.status.Outstanding?)
      && (var o := At(Step, Start(10), es, 7).orders[0]; o.payment.status.Paid? && o.status.Expired? && o.debt.status.Cleared?)
  {
    var es := LatePayment();
    SweepRead(es);
    PaymentLands(At(Step, Start(10), es, 3));
    AtNext(Step, Start(10), es, 3);
    AtNext(Step, Start(10), es, 4);
    ExpiryLands(At(Step, Start(10), es, 5));
    AtNext(Step, Start(10), es, 5);
    QueryClears(At(Step, Start(10), es, 6));
    AtNext(Step, Start(10), es, 6);
  }

  /** A run in which the owner's cancellation has gone through and the order still ends up owing. */
  lemma CancelledOrderOwes()
    ensures var es := LateCancel();
      && At(Step, Start(10), es, 5).orders != [] && At(Step, Start(10), es, 6).orders != []
      && At(Step, Start(10), es, 5).orders[0].status.Cancelled?
      && (var o := At(Step, Start(10), es, 6).orders[0]; o.status.Expired? && o.debt.status.Outstanding? && o.debt.amount == 5)
  {
    var es := LateCancel();
    SweepRead(es);
    CancelLands(At(Step, Start(10), es, 3));
    AtNext(Step, Start(10), es, 3);
    AtNext(Step, Start(10), es, 4);
    ExpiryLands(At(Step, Start(10), es, 5));
    AtNext(Step, Start(10), es, 5);
  }

  /** Nothing in the two runs is out of order. */
  lemma LateRunsArePossible()
    ensures Possible(Step, Enabled, Start(10), LatePayment()) && Possible(Step, Enabled, Start(10), LateCancel())
  {
    ClocksFollow(LatePayment());
    ClocksFollow(LateCancel());
  }

  lemma {:induction false} ClockAt(es: seq<Event>, n: nat)
    requires 0 < n <= |es|
    ensures At(Step, Start(10), es, n).clock == es[n - 1].at
  {
    AtNext(Step, Start(10), es, n - 1);
    ClockAfter(At(Step, Start(10), es, n - 1), es[n - 1]);
  }

  lemma ClockAfter(w: World, e: Event)
    ensures Step(w, e).clock == e.at
  {}

  predicate InTime(es: seq<Event>, n: nat)
    requires n < |es|
  {
    es[n].at >= if n == 0 then 0 else es[n - 1].at
  }

  lemma ClocksFollow(es: seq<Event>)
    requires forall n :: 0 <= n < |es| ==> InTime(es, n)
    requires forall n :: 0 <= n < |es| && es[n].call.CreateDraft? ==> ValidItems(es[n].call.items)
    ensures Possible(Step, Enabled, Start(10), es)
  {
    forall n | 0 <= n < |es| ensures Allowed(Step, Enabled, Start(10), es, n) {
      if n > 0 {
        ClockAt(es, n);
      } else {
        assert At(Step, Start(10), es, 0) == Start(10);
      }
      assert InTime(es, n);
    }
  }

  // ---- Uninterrupted, the two steps are the atomic handler ----

  function Atomic(w: World): Orders.World {
    Orders.World(w.ttl, w.clock, w.orders, {}, w.members, [])
  }

  lemma LandLast(w: World, op: Op)
    requires op.id < |w.orders|
    ensures DoLand(Launch(w, op), |w.flight|) == w.(orders := w.orders[op.id := Landed(w.orders[op.id], op, w.clock)])
  {
    assert Launch(w, op).flight[..|w.flight|] == w.flight;
  }

  /** Read and write without anything in between give what the atomic handlers give. */
  lemma UninterruptedIsAtomic(w: World, id: nat, auth: Auth, raw: RawToken, providerRef: Option<string>, eventId: string)
    ensures var v := DoReadCancel(w, id, auth);
      (if v == w then w else DoLand(v, |w.flight|)).orders == Orders.Cancel(Atomic(w), id, auth, w.clock).0.orders
    ensures var v := DoReadScan(w, raw, auth);
      (if v == w then w else DoLand(v, |w.flight|)).orders == Orders.Scan(Atomic(w), raw, auth, w.clock).0.orders
    ensures var v := DoReadPay(w, id, providerRef, eventId);
      (if v == w then w else DoLand(v, |w.flight|)).orders
        == Orders.Pay(Atomic(w), Orders.PaymentEvent(None, Some(id), providerRef, None), false, eventId, w.clock).0.orders
  {
    if id < |w.orders| {
      LandLast(w, OpCancel(id, w.orders[id]));
      LandLast(w, OpPay(id, w.orders[id], providerRef, eventId));
    }
    if raw.RawToken? && raw.data.orderId.Ref? && raw.data.orderId.id < |w.orders| {
      LandLast(w, OpScan(raw.data.orderId.id, w.orders[raw.data.orderId.id], auth.userId));
    }
  }

  /** The two writes of createOrder with nothing in between give what the atomic handler gives. */
  lemma UninterruptedCreateIsAtomic(w: World, call: Call, nonce: string)
    requires call.CreateDraft? && |w.orders| !in w.drafts
    ensures var v := DoFinishDraft(DoCreateDraft(w, call), |w.orders|, nonce);
      && v.orders == Orders.Create(Atomic(w), call.userId, call.restaurantId, call.orderType, call.payBy, call.items,
                                   call.nonce, nonce, w.clock).0.orders
      && v.drafts == w.drafts && v.flight == w.flight
  {
    var v := DoFinishDraft(DoCreateDraft(w, call), |w.orders|, nonce);
    var created := Orders.Create(Atomic(w), call.userId, call.restaurantId, call.orderType, call.payBy, call.items,
                                 call.nonce, nonce, w.clock).0.orders;
    assert v.orders[..|w.orders|] == w.orders == created[..|w.orders|];
    assert v.orders[|w.orders|] == created[|w.orders|];
  }

  /** The operations from the given position on land one after the other, k of them. */
  function LandInTurn(w: World, from: nat, k: nat): World {
    if k == 0 then w else DoLand(LandInTurn(w, from, k - 1), from)
  }

  lemma LandNext(w: World, before: seq<Op>, ops: seq<Op>)
    requires ops != [] && w.flight == before + ops && ops[0].id < |w.orders|
    ensures DoLand(w, |before|) ==
      w.(orders := w.orders[ops[0].id := Landed(w.orders[ops[0].id], ops[0], w.clock)], flight := before + ops[1..])
  {
    assert w.flight[..|before|] == before && w.flight[|before| + 1..] == ops[1..];
  }

  lemma {:induction false} SweepInTurn(w: World, ids: seq<nat>, k: nat)
    requires Orders.Within(ids, |w.orders|) && k <= |ids|
    ensures var ops := ExpireOps(w.orders, ids, w.clock);
      LandInTurn(w.(flight := w.flight + ops), |w.flight|, k) ==
        w.(orders := Orders.SweepWrites(w.orders, ids[..k], w.clock), flight := w.flight + ops[k..])
  {
    var ops := ExpireOps(w.orders, ids, w.clock);
    if k == 0 {
      assert ops[0..] == ops;
    } else {
      SweepInTurn(w, ids, k - 1);
      var v := w.(orders := Orders.SweepWrites(w.orders, ids[..k - 1], w.clock), flight := w.flight + ops[k - 1..]);
      LandNext(v, w.flight, ops[k - 1..]);
      assert ids[..k][..k - 1] == ids[..k - 1];
      assert ops[k - 1..][1..] == ops[k..];
    }
  }

  /** A sweep whose writes land in turn with nothing in between, as far as the blacklist lets it
      go, gives what the atomic sweep gives. */
  lemma UninterruptedSweepIsAtomic(w: World, limit: nat, blacklist: nat)
    ensures var k := |Orders.SweptIds(Atomic(w), limit, blacklist, w.clock)|;
      LandInTurn(DoReadSweep(w, limit), |w.flight|, k).orders == Orders.Sweep(Atomic(w), limit, blacklist, w.clock).0.orders
  {
    Orders.DueFacts(w.orders, w.clock, |w.orders|);
    var ids := Orders.Limited(Orders.DueIds(w.orders, w.clock), limit);
    var swept := Orders.SweptIds(Atomic(w), limit, blacklist, w.clock);
    SweepInTurn(w, ids, |swept|);
    assert swept == ids[..|swept|];
  }
}
