/** What the order handlers guarantee over whole runs. */
module OrderRuns {
  import opened Options
  import opened Runs
  import opened OrderData
  import opened Orders

  lemma {:induction false} InvAt(w: World, events: seq<Event>, n: nat)
    requires Inv(w) && Possible(Step, Enabled, w, events) && n <= |events|
    ensures Inv(At(Step, w, events, n))
  {
    InvKept();
    InvariantAt(Step, Enabled, Inv, w, events, n);
  }

  /** In every reachable state, for every order: EXPIRED exactly when it owes; what owes is
      the full total of an unpaid, unscanned order past its QR deadline; cleared, scanned and
      paid-in-app orders are paid; and the clearing query of the debt status changes nothing. */
  lemma {:induction false} OrdersInEveryRun(ttl: int, events: seq<Event>, n: nat, id: nat, userId: string, now: int)
    requires Possible(Step, Enabled, Start(ttl), events) && n <= |events| && id < |At(Step, Start(ttl), events, n).orders|
    ensures var w := At(Step, Start(ttl), events, n); var o := w.orders[id];
      && o.total == Subtotal(o.items) > 0
      && (o.status.Expired? <==> o.debt.status.Outstanding?)
      && (o.debt.status.Outstanding? ==>
            o.debt.amount == o.total && o.payment.status.Unpaid? && o.qr.scannedAt.None? && o.qr.expiresAt < w.clock)
      && (o.debt.status.Cleared? || o.payment.payBy.PayOnApp? || o.qr.scannedAt.Some? ==> o.payment.status.Paid?)
      && DebtTimesOk(o.debt)
      && StatusOk(o)
      && ClearPaid(w.orders, userId, now) == w.orders
  {
    InvAt(Start(ttl), events, n);
    var w := At(Step, Start(ttl), events, n);
    assert OrderOk(id, w.orders[id], w.clock);
    ClearPaidIsNoOp(w.orders, userId, w.clock, now);
  }

  // ---- Orders only move forward ----

  function EvolvedFrom(orders: seq<Order>): World -> bool {
    (v: World) => AllEvolve(orders, v.orders)
  }

  lemma AllEvolveOn(a: seq<Order>, b: seq<Order>, c: seq<Order>)
    requires AllEvolve(a, b) && AllEvolve(b, c)
    ensures AllEvolve(a, c)
  {
    forall id | 0 <= id < |a| ensures Evolves(a[id], c[id]) {
      assert Evolves(a[id], b[id]) && Evolves(b[id], c[id]);
    }
  }

  lemma EvolvedFromStable(orders: seq<Order>)
    ensures Stable(Step, Enabled, Inv, EvolvedFrom(orders))
  {
    forall v: World, e: Event | Inv(v) && Enabled(v, e) && EvolvedFrom(orders)(v) ensures EvolvedFrom(orders)(Step(v, e)) {
      StepKeeps(v, e);
      AllEvolveOn(orders, v.orders, Step(v, e).orders);
    }
  }

  /** Along any run, between any two moments: an order keeps its identity, its total and its
      QR binding; a scan is never undone; a paid order stays paid; the debt only moves from
      NONE to OUTSTANDING to CLEARED; and what can no longer owe never owes again. */
  lemma {:induction false} OrdersEvolve(w: World, events: seq<Event>, m: nat, n: nat)
    requires Inv(w) && Possible(Step, Enabled, w, events) && m <= n <= |events|
    ensures AllEvolve(At(Step, w, events, m).orders, At(Step, w, events, n).orders)
  {
    var orders := At(Step, w, events, m).orders;
    InvKept();
    EvolvedFromStable(orders);
    StableAt(Step, Enabled, Inv, EvolvedFrom(orders), w, events, m, n);
  }

  /** An order once cancelled never owes anything again, even when it is paid or scanned later. */
  lemma {:induction false} CancelledNeverOwes(w: World, events: seq<Event>, m: nat, n: nat, id: nat)
    requires Inv(w) && Possible(Step, Enabled, w, events) && m <= n <= |events|
    requires id < |At(Step, w, events, m).orders| && At(Step, w, events, m).orders[id].status.Cancelled?
    ensures id < |At(Step, w, events, n).orders|
    ensures var o := At(Step, w, events, n).orders[id]; !o.debt.status.Outstanding? && o.debt.amount == 0 && !o.status.Expired?
  {
    OrdersEvolve(w, events, m, n);
    InvAt(w, events, n);
    var v, v' := At(Step, w, events, m), At(Step, w, events, n);
    assert Evolves(v.orders[id], v'.orders[id]);
    assert OrderOk(id, v'.orders[id], v'.clock);
  }

  // ---- Scanned or swept, once ----

  /** The event scans the order or sweeps it. */
  predicate Settles(w: World, e: Event, id: nat) {
    || (e.call.CallScan? && ReplyTo(w, e) == Updated(id))
    || (e.call.CallSweep? && id in SweptIds(w.(clock := e.at), e.call.limit, e.call.blacklist, e.at))
  }

  predicate Settled(w: World, id: nat) {
    && id < |w.orders|
    && (w.orders[id].qr.scannedAt.Some? || (w.orders[id].qr.expiresAt < w.clock && !w.orders[id].debt.status.NoDebt?))
  }

  function SettledNow(id: nat): World -> bool {
    (v: World) => Settled(v, id)
  }

  function Settling(id: nat): (World, Event) -> bool {
    (v: World, e: Event) => Settles(v, e, id)
  }

  /** A token scans an order exactly when it is the one the order was created with, its
      deadline has not come, nobody has scanned it, and the scanner is authorised. */
  lemma ScanIff(w: World, raw: RawToken, auth: Auth, id: nat)
    requires AllOk(w.orders, w.clock)
    ensures Scan(w, raw, auth, w.clock).1 == Updated(id) <==>
      && id < |w.orders|
      && var o := w.orders[id];
         && HashOf(raw) == o.qr.tokenHash && w.clock < o.qr.expiresAt && o.qr.scannedAt.None?
         && ScannerRefusal(o, auth, (auth.userId, o.restaurantId) in w.members).None?
  {
    if id < |w.orders| {
      assert OrderOk(id, w.orders[id], w.clock);
    }
  }

  lemma SettlingSettles(w: World, e: Event, id: nat)
    requires Inv(w) && Enabled(w, e) && Settles(w, e, id)
    ensures Settled(Step(w, e), id)
  {
    var w0 := w.(clock := e.at);
    if e.call.CallSweep? {
      SweptFacts(w0, e.call.limit, e.call.blacklist, e.at);
      SweepWritesAt(w0.orders, SweptIds(w0, e.call.limit, e.call.blacklist, e.at), e.at, id);
    }
  }

  lemma SettledIsNotSettledAgain(w: World, e: Event, id: nat)
    requires Inv(w) && Enabled(w, e) && Settled(w, id)
    ensures !Settles(w, e, id)
  {
    var w0 := w.(clock := e.at);
    assert OrderOk(id, w.orders[id], w.clock);
    if e.call.CallScan? {
      assert forall i :: 0 <= i < |w.orders| ==> OrderOk(i, w.orders[i], w.clock);
      ScanIff(w0, e.call.raw, e.call.auth, id);
    } else if e.call.CallSweep? {
      SweptFacts(w0, e.call.limit, e.call.blacklist, e.at);
    }
  }

  lemma ClockAfter(w: World, e: Event)
    ensures Step(w, e).clock == e.at
  {}

  lemma SettledStable(id: nat)
    ensures Stable(Step, Enabled, Inv, SettledNow(id))
  {
    forall v: World, e: Event | Inv(v) && Enabled(v, e) && Settled(v, id) ensures SettledNow(id)(Step(v, e)) {
      StepKeeps(v, e);
      ClockAfter(v, e);
      assert Evolves(v.orders[id], Step(v, e).orders[id]);
    }
  }

  lemma SettledExcludes(id: nat)
    ensures Makes(Step, Enabled, Inv, Settling(id), SettledNow(id)) && Forbids(Enabled, Inv, SettledNow(id), Settling(id))
  {
    forall v: World, e: Event | Inv(v) && Enabled(v, e) && Settles(v, e, id) ensures SettledNow(id)(Step(v, e)) {
      SettlingSettles(v, e, id);
    }
    forall v: World, e: Event | Inv(v) && Enabled(v, e) && Settled(v, id) ensures !Settles(v, e, id) {
      SettledIsNotSettledAgain(v, e, id);
    }
  }

  /** In any run at most one event either scans a given order or sweeps it as expired: never
      two scans, never two sweeps, and never a scan together with a sweep. */
  lemma {:induction false} SettledOnce(w: World, events: seq<Event>, m: nat, n: nat, id: nat)
    requires Inv(w) && Possible(Step, Enabled, w, events) && m < n < |events|
    requires Settles(At(Step, w, events, m), events[m], id)
    ensures !Settles(At(Step, w, events, n), events[n], id)
  {
    InvKept();
    SettledStable(id);
    SettledExcludes(id);
    NeverAfter(Step, Enabled, Inv, SettledNow(id), Settling(id), Settling(id), w, events, m, n);
  }

  /** The token handed out by createOrder keeps scanning its own order until it expires, as
      long as nobody has scanned it, whatever else happens to the order in between. */
  lemma {:induction false} CreatedTokenScans(w: World, e: Event, events: seq<Event>, n: nat, auth: Auth)
    requires Inv(w) && Enabled(w, e) && e.call.CallCreate?
    requires Possible(Step, Enabled, Step(w, e), events) && n <= |events|
    ensures var id, token := |w.orders|, ReplyTo(w, e).token; var v := At(Step, Step(w, e), events, n);
      && id < |v.orders|
      && (Scan(v, token, auth, v.clock).1 == Updated(id) <==>
            && v.clock < e.at + w.ttl && v.orders[id].qr.scannedAt.None?
            && ScannerRefusal(v.orders[id], auth, (auth.userId, e.call.restaurantId) in v.members).None?)
  {
    var w1 := Step(w, e);
    StepKeeps(w, e);
    InvAt(w1, events, n);
    OrdersEvolve(w1, events, 0, n);
    var id := |w.orders|;
    var v := At(Step, w1, events, n);
    assert Evolves(w1.orders[id], v.orders[id]);
    ScanIff(v, ReplyTo(w, e).token, auth, id);
  }

  // ---- Publications ----

  /** In every run: what was published is true of the orders and stays true, with the right
      amounts; order.qr.expired was published at most once for an order; and every payment and
      every scan has been published. */
  lemma {:induction false} LogInEveryRun(ttl: int, events: seq<Event>, n: nat)
    requires Possible(Step, Enabled, Start(ttl), events) && n <= |events|
    ensures var w := At(Step, Start(ttl), events, n);
      AllTrue(w.published, w.orders) && ExpiredOnce(w.published) && AllAnnounced(w.orders, w.published)
  {
    InvAt(Start(ttl), events, n);
  }

  /** The expiry of the order was never published. */
  predicate Untold(published: seq<Message>, id: nat) {
    forall i :: 0 <= i < |published| ==> !(published[i].QrExpired? && published[i].id == id)
  }

  function OwedUntold(id: nat): World -> bool {
    (w: World) => id < |w.orders| && !w.orders[id].debt.status.NoDebt? && Untold(w.published, id)
  }

  lemma UntoldAppend(p: seq<Message>, orders: seq<Order>, told: seq<nat>, id: nat)
    requires Untold(p, id) && Within(told, |orders|)
    ensures Untold(p + SweepMessages(orders, told), id) <==> id !in told
  {
    var messages := SweepMessages(orders, told);
    if id in told {
      var i :| 0 <= i < |told| && told[i] == id;
      assert (p + messages)[|p| + i] == messages[i];
    }
  }

  lemma SweepTells(w: World, limit: nat, blacklist: nat, now: int, id: nat)
    requires Untold(w.published, id)
    ensures var ids := SweptIds(w, limit, blacklist, now);
      Untold(Sweep(w, limit, blacklist, now).0.published, id) <==>
        id !in (if blacklist < |ids| then ids[..blacklist] else ids)
  {
    var ids := SweptIds(w, limit, blacklist, now);
    UntoldAppend(w.published, w.orders, if blacklist < |ids| then ids[..blacklist] else ids, id);
  }

  lemma NotToldBefore(published: seq<Message>, orders: seq<Order>, id: nat)
    requires AllTrue(published, orders) && id < |orders| && orders[id].debt.status.NoDebt?
    ensures Untold(published, id)
  {
    forall i | 0 <= i < |published| ensures !(published[i].QrExpired? && published[i].id == id) {
      assert True(published[i], orders);
    }
  }

  lemma SweptOwedNothing(w: World, limit: nat, blacklist: nat, id: nat)
    requires Inv(w) && id in SweptIds(w, limit, blacklist, w.clock)
    ensures Untold(w.published, id)
  {
    SweptFacts(w, limit, blacklist, w.clock);
    DueOwesNothing(w.orders, w.clock, SweptIds(w, limit, blacklist, w.clock));
    NotToldBefore(w.published, w.orders, id);
  }

  lemma AllButTheLast(ids: seq<nat>, blacklist: nat, id: nat)
    requires Distinct(ids) && |ids| <= blacklist + 1 && id in ids
    ensures id !in (if blacklist < |ids| then ids[..blacklist] else ids) <==> blacklist < |ids| && id == ids[blacklist]
  {
    if blacklist < |ids| {
      assert ids == ids[..blacklist] + [ids[blacklist]];
    }
  }

  /** A sweep publishes the expiry of every order it writes, except of the one at which the
      blacklist call threw. */
  lemma SweptIsToldIff(w: World, limit: nat, blacklist: nat, id: nat)
    requires Inv(w) && id in SweptIds(w, limit, blacklist, w.clock)
    ensures var ids := SweptIds(w, limit, blacklist, w.clock);
      Untold(Sweep(w, limit, blacklist, w.clock).0.published, id) <==> blacklist < |ids| && id == ids[blacklist]
  {
    SweptFacts(w, limit, blacklist, w.clock);
    SweptOwedNothing(w, limit, blacklist, id);
    SweepTells(w, limit, blacklist, w.clock, id);
    SweepStopsAt(w, limit, blacklist, w.clock);
    AllButTheLast(SweptIds(w, limit, blacklist, w.clock), blacklist, id);
  }

  /** The sweep writes nothing after the order at which the blacklist call threw. */
  lemma SweepStopsAt(w: World, limit: nat, blacklist: nat, now: int)
    ensures |SweptIds(w, limit, blacklist, now)| <= blacklist + 1
  {}

  lemma OwedUntoldStable(id: nat)
    ensures Stable(Step, Enabled, Inv, OwedUntold(id))
  {
    forall v: World, e: Event | Inv(v) && Enabled(v, e) && OwedUntold(id)(v) ensures OwedUntold(id)(Step(v, e)) {
      StepKeeps(v, e);
      assert Evolves(v.orders[id], Step(v, e).orders[id]);
      OwedStaysUntold(v, e, id);
    }
  }

  lemma QuietStaysUntold(p: seq<Message>, p': seq<Message>, id: nat)
    requires Untold(p, id) && p <= p' && NoExpiredIn(p'[|p|..])
    ensures Untold(p', id)
  {
    assert p' == p + p'[|p|..];
  }

  lemma SweepStaysUntold(w: World, limit: nat, blacklist: nat, id: nat)
    requires AllOk(w.orders, w.clock) && OwedUntold(id)(w)
    ensures Untold(Sweep(w, limit, blacklist, w.clock).0.published, id)
  {
    assert OrderOk(id, w.orders[id], w.clock);
    SweepTells(w, limit, blacklist, w.clock, id);
    SweptFacts(w, limit, blacklist, w.clock);
  }

  lemma QuietCallStaysUntold(w: World, call: Call, id: nat)
    requires AllOk(w.orders, w.clock) && Untold(w.published, id) && !call.CallSweep? && (call.CallCreate? ==> ValidItems(call.items))
    ensures Untold(Apply(w, call, w.clock).0.published, id)
  {
    QuietCalls(w, call);
    QuietStaysUntold(w.published, Apply(w, call, w.clock).0.published, id);
  }

  lemma SweepCallStaysUntold(w: World, call: Call, id: nat)
    requires AllOk(w.orders, w.clock) && OwedUntold(id)(w) && call.CallSweep?
    ensures Untold(Apply(w, call, w.clock).0.published, id)
  {
    SweepStaysUntold(w, call.limit, call.blacklist, id);
  }

  lemma ApplyStaysUntold(w: World, call: Call, id: nat)
    requires AllOk(w.orders, w.clock) && OwedUntold(id)(w) && (call.CallCreate? ==> ValidItems(call.items))
    ensures Untold(Apply(w, call, w.clock).0.published, id)
  {
    if call.CallSweep? {
      SweepCallStaysUntold(w, call, id);
    } else {
      QuietCallStaysUntold(w, call, id);
    }
  }

  lemma OwedStaysUntold(v: World, e: Event, id: nat)
    requires Inv(v) && Enabled(v, e) && OwedUntold(id)(v)
    ensures Untold(Step(v, e).published, id)
  {
    TimeKeeps(v, e.at);
    ApplyStaysUntold(v.(clock := e.at), e.call, id);
  }

  /** An order whose sweep was cut short by the blacklist owes its total, and its expiry is
      never published afterwards. */
  lemma {:induction false} CutShortIsNeverTold(w: World, e: Event, events: seq<Event>, n: nat)
    requires Inv(w) && Enabled(w, e) && e.call.CallSweep? && ReplyTo(w, e).Aborted?
    requires Possible(Step, Enabled, Step(w, e), events) && n <= |events|
    ensures var ids := SweptIds(w.(clock := e.at), e.call.limit, e.call.blacklist, e.at);
      && e.call.blacklist < |ids|
      && OwedUntold(ids[e.call.blacklist])(At(Step, Step(w, e), events, n))
  {
    var w0 := w.(clock := e.at);
    TimeKeeps(w, e.at);
    StepKeeps(w, e);
    var ids := SweptIds(w0, e.call.limit, e.call.blacklist, e.at);
    var id := ids[e.call.blacklist];
    assert id in ids;
    SweptIsToldIff(w0, e.call.limit, e.call.blacklist, id);
    SettlingSettles(w, e, id);
    SweepOwes(w0, e.call.limit, e.call.blacklist, id);
    InvKept();
    OwedUntoldStable(id);
    StableAt(Step, Enabled, Inv, OwedUntold(id), Step(w, e), events, 0, n);
  }

  lemma SweepOwes(w: World, limit: nat, blacklist: nat, id: nat)
    requires id in SweptIds(w, limit, blacklist, w.clock)
    ensures Sweep(w, limit, blacklist, w.clock).0.orders[id].debt.status.Outstanding?
  {
    SweptFacts(w, limit, blacklist, w.clock);
    SweepWritesAt(w.orders, SweptIds(w, limit, blacklist, w.clock), w.clock, id);
  }

  // ---- Debt conservation ----

  function Owed(o: Order, userId: string): int {
    if o.userId == userId && o.status.Expired? then o.total else 0
  }

  /** The EXPIRED totals of a user. */
  function OwedTotal(orders: seq<Order>, userId: string): int {
    if orders == [] then 0
    else OwedTotal(orders[..|orders| - 1], userId) + Owed(orders[|orders| - 1], userId)
  }

  lemma {:induction false} OwedUpdate(orders: seq<Order>, id: nat, o: Order, userId: string)
    requires id < |orders|
    ensures OwedTotal(orders[id := o], userId) == OwedTotal(orders, userId) - Owed(orders[id], userId) + Owed(o, userId)
  {
    var n := |orders| - 1;
    if id < n {
      OwedUpdate(orders[..n], id, o, userId);
      assert orders[id := o][..n] == orders[..n][id := o];
    } else {
      assert orders[id := o][..n] == orders[..n];
    }
  }

  /** What a sweep records against a user: the totals of the user's orders it writes. */
  function SumRecorded(orders: seq<Order>, ids: seq<nat>, userId: string): int
    requires Within(ids, |orders|)
  {
    if ids == [] then 0
    else
      var o := orders[ids[|ids| - 1]];
      SumRecorded(orders, ids[..|ids| - 1], userId) + if o.userId == userId then o.total else 0
  }

  function Recorded(w: World, e: Event, userId: string): int {
    if e.call.CallSweep? then SumRecorded(w.orders, SweptIds(w.(clock := e.at), e.call.limit, e.call.blacklist, e.at), userId) else 0
  }

  /** The order an accepted payment or scan settles. */
  function PaidOff(w: World, e: Event): Option<nat> {
    if e.call.CallPay? && ReplyTo(w, e).Handled? then PayTarget(e.call.event, e.call.forOrder)
    else if e.call.CallScan? && ReplyTo(w, e).Updated? then Some(ReplyTo(w, e).id)
    else None
  }

  /** The stored debt that an accepted payment or scan takes off a user. */
  function TakenOff(w: World, e: Event, userId: string): int {
    var id := PaidOff(w, e);
    if id.Some? && id.value < |w.orders| && w.orders[id.value].userId == userId then w.orders[id.value].debt.amount else 0
  }

  lemma {:induction false} SweepOwed(orders: seq<Order>, ids: seq<nat>, now: int, userId: string)
    requires Within(ids, |orders|) && Distinct(ids)
    requires forall i :: 0 <= i < |ids| ==> !orders[ids[i]].status.Expired?
    ensures OwedTotal(SweepWrites(orders, ids, now), userId) == OwedTotal(orders, userId) + SumRecorded(orders, ids, userId)
  {
    if ids != [] {
      var n := |ids| - 1;
      SweepOwed(orders, ids[..n], now, userId);
      SweepWritesAt(orders, ids[..n], now, ids[n]);
      assert ids[n] !in ids[..n];
      var before := SweepWrites(orders, ids[..n], now);
      OwedUpdate(before, ids[n], WriteExpired(before[ids[n]], orders[ids[n]], now), userId);
    }
  }

  lemma {:induction false} OneOrderOwed(w: World, w': World, id: nat, userId: string)
    requires id < |w.orders| == |w'.orders| && w'.orders == w.orders[id := w'.orders[id]]
    ensures OwedTotal(w'.orders, userId) ==
      OwedTotal(w.orders, userId) - Owed(w.orders[id], userId) + Owed(w'.orders[id], userId)
  {
    OwedUpdate(w.orders, id, w'.orders[id], userId);
  }

  lemma {:induction false} PayOwed(w: World, e: Event, userId: string)
    requires AllOk(w.orders, w.clock) && e.call.CallPay?
    ensures OwedTotal(Step(w, e).orders, userId) == OwedTotal(w.orders, userId) - TakenOff(w, e, userId)
  {
    if PaidOff(w, e).Some? {
      var id := PaidOff(w, e).value;
      assert OrderOk(id, w.orders[id], w.clock);
      OneOrderOwed(w, Step(w, e), id, userId);
    }
  }

  lemma {:induction false} ScanOwed(w: World, e: Event, userId: string)
    requires AllOk(w.orders, w.clock) && e.call.CallScan?
    ensures OwedTotal(Step(w, e).orders, userId) == OwedTotal(w.orders, userId) - TakenOff(w, e, userId)
  {
    if PaidOff(w, e).Some? {
      var id := PaidOff(w, e).value;
      assert OrderOk(id, w.orders[id], w.clock);
      OneOrderOwed(w, Step(w, e), id, userId);
    }
  }

  /** Creating, cancelling, asking for the debt, arriving and membership events move no debt. */
  lemma {:induction false} OtherOwed(w: World, e: Event, userId: string)
    requires AllOk(w.orders, w.clock) && !e.call.CallPay? && !e.call.CallScan? && !e.call.CallSweep?
    ensures OwedTotal(Step(w, e).orders, userId) == OwedTotal(w.orders, userId)
  {
    var w' := Step(w, e);
    match e.call
    case CallCreate(_, _, _, _, _, _, _) =>
      assert w'.orders[..|w.orders|] == w.orders;
    case CallCancel(id, _) =>
      if ReplyTo(w, e).Updated? {
        OneOrderOwed(w, w', id, userId);
      }
    case CallArrived(id, _, _) =>
      if ReplyTo(w, e).Updated? {
        OneOrderOwed(w, w', id, userId);
      }
    case CallDebts(u) => ClearPaidIsNoOp(w.orders, u, w.clock, e.at);
    case CallMembership(_, _) =>
  }

  lemma {:induction false} SweepStepOwed(w: World, e: Event, userId: string)
    requires e.call.CallSweep?
    ensures OwedTotal(Step(w, e).orders, userId) == OwedTotal(w.orders, userId) + Recorded(w, e, userId)
  {
    var w0 := w.(clock := e.at);
    SweptFacts(w0, e.call.limit, e.call.blacklist, e.at);
    SweepOwed(w.orders, SweptIds(w0, e.call.limit, e.call.blacklist, e.at), e.at, userId);
  }

  /** Each step moves a user's debt by exactly what it records and what it takes off. */
  lemma {:induction false} StepOwed(w: World, e: Event, userId: string)
    requires AllOk(w.orders, w.clock)
    ensures OwedTotal(Step(w, e).orders, userId) ==
      OwedTotal(w.orders, userId) + Recorded(w, e, userId) - TakenOff(w, e, userId)
  {
    if e.call.CallPay? {
      PayOwed(w, e, userId);
    } else if e.call.CallScan? {
      ScanOwed(w, e, userId);
    } else if e.call.CallSweep? {
      SweepStepOwed(w, e, userId);
    } else {
      OtherOwed(w, e, userId);
    }
  }

  function OwedBy(userId: string): World -> int {
    (v: World) => OwedTotal(v.orders, userId)
  }

  function RecordedFor(userId: string): (World, Event) -> int {
    (v: World, e: Event) => Recorded(v, e, userId)
  }

  function TakenOffFor(userId: string): (World, Event) -> int {
    (v: World, e: Event) => TakenOff(v, e, userId)
  }

  lemma OwedMoves(userId: string)
    ensures Moves(Step, Enabled, Inv, OwedBy(userId), RecordedFor(userId), TakenOffFor(userId))
  {
    forall v: World, e: Event | Inv(v) && Enabled(v, e)
      ensures OwedBy(userId)(Step(v, e)) == OwedBy(userId)(v) + RecordedFor(userId)(v, e) - TakenOffFor(userId)(v, e)
    {
      StepOwed(v, e, userId);
    }
  }

  lemma {:induction false} OwedAt(w: World, events: seq<Event>, n: nat, userId: string)
    requires Inv(w) && Possible(Step, Enabled, w, events) && n <= |events|
    ensures OwedTotal(At(Step, w, events, n).orders, userId) == OwedTotal(w.orders, userId)
      + Total(Step, w, events, RecordedFor(userId), n) - Total(Step, w, events, TakenOffFor(userId), n)
  {
    InvKept();
    OwedMoves(userId);
    TotalAt(Step, Enabled, Inv, OwedBy(userId), RecordedFor(userId), TakenOffFor(userId), w, events, n);
  }

  lemma LineOwed(id: nat, o: Order, clock: int, userId: string)
    requires OrderOk(id, o, clock)
    ensures UnpaidDebt(o, userId) <==> o.userId == userId && o.status.Expired?
    ensures Owed(o, userId) == if UnpaidDebt(o, userId) then o.debt.amount else 0
  {}

  lemma {:induction false} SumWith(line: DebtLine, rest: seq<DebtLine>)
    ensures SumLines([line] + rest) == line.amount + SumLines(rest)
  {
    assert ([line] + rest)[1..] == rest;
  }

  lemma {:induction false} OwedNext(orders: seq<Order>, userId: string, n: nat)
    requires 0 < n <= |orders|
    ensures OwedTotal(orders[..n], userId) == OwedTotal(orders[..n - 1], userId) + Owed(orders[n - 1], userId)
  {
    assert orders[..n][..n - 1] == orders[..n - 1] && orders[..n][n - 1] == orders[n - 1];
  }

  /** The reported lines add up to the EXPIRED totals. */
  lemma {:induction false} LinesSum(orders: seq<Order>, clock: int, userId: string, n: nat)
    requires AllOk(orders, clock) && n <= |orders|
    ensures SumLines(DebtLines(orders, userId, n)) == OwedTotal(orders[..n], userId)
  {
    if n > 0 {
      LinesSum(orders, clock, userId, n - 1);
      var o, rest := orders[n - 1], DebtLines(orders, userId, n - 1);
      LineOwed(n - 1, o, clock, userId);
      OwedNext(orders, userId, n);
      if UnpaidDebt(o, userId) {
        SumWith(DebtLine(n - 1, o.restaurantId, o.debt.amount, o.debt.recordedAt, o.status), rest);
      } else {
        assert DebtLines(orders, userId, n) == rest;
      }
    }
  }

  /** There is a reported line exactly when the user has an EXPIRED order. */
  lemma {:induction false} LinesExist(orders: seq<Order>, clock: int, userId: string, n: nat)
    requires AllOk(orders, clock) && n <= |orders|
    ensures DebtLines(orders, userId, n) != [] <==> exists id :: 0 <= id < n && orders[id].userId == userId && orders[id].status.Expired?
  {
    if n > 0 {
      LinesExist(orders, clock, userId, n - 1);
      LineOwed(n - 1, orders[n - 1], clock, userId);
    }
  }

  /** At any moment of any run the debt query reports exactly the totals of the user's EXPIRED
      orders, which is everything sweeps have recorded less everything payments and scans have
      taken off; it reports debt exactly when there is such an order; and it changes nothing. */
  lemma {:induction false} DebtReport(ttl: int, events: seq<Event>, n: nat, userId: string, now: int)
    requires Possible(Step, Enabled, Start(ttl), events) && n <= |events|
    ensures var w := At(Step, Start(ttl), events, n); var (w', r) := DebtStatusOf(w, userId, now);
      && w' == w
      && r.total == OwedTotal(w.orders, userId)
      && r.total == Total(Step, Start(ttl), events, RecordedFor(userId), n) - Total(Step, Start(ttl), events, TakenOffFor(userId), n)
      && (r.has <==> exists id :: 0 <= id < |w.orders| && w.orders[id].userId == userId && w.orders[id].status.Expired?)
  {
    var w := At(Step, Start(ttl), events, n);
    InvAt(Start(ttl), events, n);
    OwedAt(Start(ttl), events, n, userId);
    ClearPaidIsNoOp(w.orders, userId, w.clock, now);
    LinesSum(w.orders, w.clock, userId, |w.orders|);
    LinesExist(w.orders, w.clock, userId, |w.orders|);
    assert w.orders[..|w.orders|] == w.orders;
  }
}
