/** How the sweep makes progress, and why duplicate deliveries do not matter. */
module OrderDeliveries {
  import opened Options
  import opened Runs
  import opened OrderData
  import opened Orders

  // ---- Sweep progress ----

  lemma InPrefix(due: seq<nat>, k: nat, i: nat)
    requires Distinct(due) && k <= |due| && i < |due|
    ensures due[i] in due[..k] <==> i < k
  {
    if i < k {
      assert due[..k][i] == due[i];
    }
  }

  /** What is due among the first n orders once the first k due ones no longer are. */
  lemma {:induction false} DueWithout(orders: seq<Order>, orders': seq<Order>, due: seq<nat>, k: nat, now: int, n: nat)
    requires n <= |orders| == |orders'| && k <= |due| && Distinct(due)
    requires DueUpTo(orders, now, n) <= due
    requires forall id: nat :: id < n ==> (Due(orders'[id], now) <==> Due(orders[id], now) && id !in due[..k])
    ensures var before := DueUpTo(orders, now, n);
      DueUpTo(orders', now, n) == if |before| <= k then [] else before[k..]
  {
    if n > 0 {
      var before := DueUpTo(orders, now, n - 1);
      DueWithout(orders, orders', due, k, now, n - 1);
      if Due(orders[n - 1], now) {
        assert due[|before|] == DueUpTo(orders, now, n)[|before|] == n - 1;
        InPrefix(due, k, |before|);
        assert |before| >= k ==> (before + [n - 1])[k..] == before[k..] + [n - 1];
      } else {
        assert DueUpTo(orders', now, n) == DueUpTo(orders', now, n - 1);
      }
    }
  }

  /** What is still due among the first n orders once the first k due ones are written. */
  lemma {:induction false} DueAfterWrites(orders: seq<Order>, due: seq<nat>, k: nat, now: int, n: nat)
    requires n <= |orders| && k <= |due| && Within(due, |orders|) && Distinct(due)
    requires DueUpTo(orders, now, n) <= due
    ensures var before := DueUpTo(orders, now, n);
      DueUpTo(SweepWrites(orders, due[..k], now), now, n) == if |before| <= k then [] else before[k..]
  {
    var orders' := SweepWrites(orders, due[..k], now);
    SweepWritesAll(orders, due[..k], now);
    forall id: nat | id < n ensures Due(orders'[id], now) <==> Due(orders[id], now) && id !in due[..k] {
    }
    DueWithout(orders, orders', due, k, now, n);
  }

  /** A sweep takes exactly its batch off the front of the due list, whether or not the
      blacklist call fails on the way. */
  lemma SweepTakesItsBatch(w: World, limit: nat, blacklist: nat, now: int)
    ensures var due := DueIds(w.orders, now); var ids := SweptIds(w, limit, blacklist, now);
      && ids <= due
      && DueIds(Sweep(w, limit, blacklist, now).0.orders, now) == due[|ids|..]
      && |ids| == (var batch := if limit == 0 || |due| <= limit then |due| else limit;
                   if blacklist < batch then blacklist + 1 else batch)
  {
    var due, ids := DueIds(w.orders, now), SweptIds(w, limit, blacklist, now);
    DueFacts(w.orders, now, |w.orders|);
    assert ids == due[..|ids|];
    DueAfterWrites(w.orders, due, |ids|, now, |w.orders|);
  }

  /** Deadlines do not decrease with the order id, and none lies beyond latest. */
  predicate DeadlinesOk(orders: seq<Order>, latest: int) {
    && (forall i, j :: 0 <= i < j < |orders| ==> orders[i].qr.expiresAt <= orders[j].qr.expiresAt)
    && (forall i :: 0 <= i < |orders| ==> orders[i].qr.expiresAt <= latest)
  }

  /** The order invariant, with the deadlines in order: the lifetime is fixed and time goes on. */
  predicate TimedInv(w: World) {
    Inv(w) && DeadlinesOk(w.orders, w.clock + w.ttl)
  }

  /** A step gives no old order a new deadline, and a new order the latest one. */
  lemma StepDeadlines(w: World, e: Event)
    requires Inv(w) && Enabled(w, e)
    ensures var w' := Step(w, e);
      && w'.ttl == w.ttl && w'.clock == e.at && |w.orders| <= |w'.orders|
      && (forall id :: 0 <= id < |w.orders| ==> w'.orders[id].qr.expiresAt == w.orders[id].qr.expiresAt)
      && (forall id :: |w.orders| <= id < |w'.orders| ==> w'.orders[id].qr.expiresAt == e.at + w.ttl)
  {
    StepKeeps(w, e);
    var w' := Step(w, e);
    forall id | 0 <= id < |w.orders| ensures w'.orders[id].qr.expiresAt == w.orders[id].qr.expiresAt {
      assert Evolves(w.orders[id], w'.orders[id]);
    }
    NewOrders(w, e);
  }

  lemma NewOrders(w: World, e: Event)
    ensures var w' := Step(w, e);
      && w'.ttl == w.ttl && w'.clock == e.at
      && forall id :: |w.orders| <= id < |w'.orders| ==> w'.orders[id].qr.expiresAt == e.at + w.ttl
  {}

  lemma StepKeepsTimed(w: World, e: Event)
    requires TimedInv(w) && Enabled(w, e)
    ensures TimedInv(Step(w, e))
  {
    StepKeeps(w, e);
    StepDeadlines(w, e);
  }

  /** In every reachable state deadlines do not decrease with the order id. */
  lemma {:induction false} DeadlinesInEveryRun(ttl: int, events: seq<Event>, n: nat)
    requires Possible(Step, Enabled, Start(ttl), events) && n <= |events|
    ensures TimedInv(At(Step, Start(ttl), events, n))
  {
    forall w: World, e: Event | TimedInv(w) && Enabled(w, e) ensures TimedInv(Step(w, e)) {
      StepKeepsTimed(w, e);
    }
    InvariantAt(Step, Enabled, TimedInv, Start(ttl), events, n);
  }

  /** Past its deadline, an order that is not due never becomes due again. */
  lemma NotDueAgain(w: World, e: Event, id: nat)
    requires Inv(w) && Enabled(w, e) && id < |w.orders| && w.orders[id].qr.expiresAt < w.clock
    ensures id < |Step(w, e).orders| && (Due(Step(w, e).orders[id], e.at) ==> Due(w.orders[id], w.clock))
  {
    StepKeeps(w, e);
    ClockIs(w, e);
    var o, o' := w.orders[id], Step(w, e).orders[id];
    assert OrderOk(id, o, w.clock) && Evolves(o, o');
    assert OrderOk(id, o', e.at);
  }

  lemma ClockIs(w: World, e: Event)
    ensures Step(w, e).clock == e.at
  {}

  /** How many orders were past their deadline at the given time, if deadlines are in order. */
  function Overdue(orders: seq<Order>, now: int, n: nat): (c: nat)
    requires n <= |orders|
    ensures c <= n
  {
    if n == 0 || orders[n - 1].qr.expiresAt < now then n else Overdue(orders, now, n - 1)
  }

  lemma {:induction false} OverdueSplits(orders: seq<Order>, now: int, n: nat)
    requires n <= |orders|
    requires forall i, j :: 0 <= i < j < n ==> orders[i].qr.expiresAt <= orders[j].qr.expiresAt
    ensures var c := Overdue(orders, now, n);
      && (forall id :: 0 <= id < c ==> orders[id].qr.expiresAt < now)
      && (forall id :: c <= id < n ==> orders[id].qr.expiresAt >= now)
  {
    if n > 0 && orders[n - 1].qr.expiresAt >= now {
      OverdueSplits(orders, now, n - 1);
    }
  }

  /** Exactly the first c orders were past their deadline at the time since. */
  predicate Since(w: World, since: int, c: nat) {
    && TimedInv(w) && since <= w.clock && c <= |w.orders|
    && (forall id :: 0 <= id < c ==> w.orders[id].qr.expiresAt < since)
  }

  function SinceThen(since: int, c: nat): World -> bool {
    (w: World) => Since(w, since, c)
  }

  lemma SinceKept(since: int, c: nat)
    ensures Kept(Step, Enabled, SinceThen(since, c))
  {
    forall w: World, e: Event | Since(w, since, c) && Enabled(w, e) ensures SinceThen(since, c)(Step(w, e)) {
      StepKeepsTimed(w, e);
      StepDeadlines(w, e);
    }
  }

  /** How many of the first c orders are due. */
  function DueAmong(c: nat): World -> nat {
    (w: World) => if c <= |w.orders| then |DueUpTo(w.orders, w.clock, c)| else 0
  }

  lemma {:induction false} FewerDue(orders: seq<Order>, now: int, orders': seq<Order>, now': int, c: nat)
    requires c <= |orders| && c <= |orders'|
    requires forall id :: 0 <= id < c ==> (Due(orders'[id], now') ==> Due(orders[id], now))
    ensures |DueUpTo(orders', now', c)| <= |DueUpTo(orders, now, c)|
  {
    if c > 0 {
      FewerDue(orders, now, orders', now', c - 1);
    }
  }

  lemma {:induction false} SameDue(orders: seq<Order>, now: int, now': int, c: nat)
    requires c <= |orders| && forall id :: 0 <= id < c ==> (Due(orders[id], now') <==> Due(orders[id], now))
    ensures DueUpTo(orders, now', c) == DueUpTo(orders, now, c)
  {
    if c > 0 {
      SameDue(orders, now, now', c - 1);
    }
  }

  lemma {:induction false} DuePrefix(orders: seq<Order>, now: int, c: nat, n: nat)
    requires c <= n <= |orders|
    ensures DueUpTo(orders, now, c) <= DueUpTo(orders, now, n)
  {
    if c < n {
      DuePrefix(orders, now, c, n - 1);
    }
  }

  lemma NoneBecomesDue(w: World, e: Event, since: int, c: nat)
    requires Since(w, since, c) && Enabled(w, e)
    ensures DueAmong(c)(Step(w, e)) <= DueAmong(c)(w)
  {
    StepDeadlines(w, e);
    forall id | 0 <= id < c ensures Due(Step(w, e).orders[id], e.at) ==> Due(w.orders[id], w.clock) {
      NotDueAgain(w, e, id);
    }
    FewerDue(w.orders, w.clock, Step(w, e).orders, e.at, c);
  }

  /** A sweep of at least limit orders (0: of all) that the blacklist does not cut short. */
  predicate FullSweep(w: World, e: Event, limit: nat) {
    e.call.CallSweep? && (e.call.limit == 0 || e.call.limit >= limit) && ReplyTo(w, e).Swept?
  }

  function FullSweeps(limit: nat): (World, Event) -> bool {
    (w: World, e: Event) => FullSweep(w, e, limit)
  }

  /** The sweep takes the due ones of the first c orders before any later one. */
  lemma {:induction false} SweepTakesOldest(w: World, limit: nat, blacklist: nat, c: nat)
    requires c <= |w.orders|
    ensures var n := |DueUpTo(w.orders, w.clock, c)|; var k := |SweptIds(w, limit, blacklist, w.clock)|;
      |DueUpTo(Sweep(w, limit, blacklist, w.clock).0.orders, w.clock, c)| == Less(n, k)
  {
    var due, k := DueIds(w.orders, w.clock), |SweptIds(w, limit, blacklist, w.clock)|;
    SweptAreFirst(w, limit, blacklist);
    DueFacts(w.orders, w.clock, |w.orders|);
    DuePrefix(w.orders, w.clock, c, |w.orders|);
    DueAfterWrites(w.orders, due, k, w.clock, c);
  }

  lemma SweptAreFirst(w: World, limit: nat, blacklist: nat)
    ensures var due, k := DueIds(w.orders, w.clock), |SweptIds(w, limit, blacklist, w.clock)|;
      && k <= |due| && Within(due[..k], |w.orders|)
      && Sweep(w, limit, blacklist, w.clock).0.orders == SweepWrites(w.orders, due[..k], w.clock)
  {
    DueFacts(w.orders, w.clock, |w.orders|);
    assert SweptIds(w, limit, blacklist, w.clock) == DueIds(w.orders, w.clock)[..|SweptIds(w, limit, blacklist, w.clock)|];
  }

  /** A sweep that is not cut short writes its whole batch. */
  lemma WholeBatch(w: World, limit: nat, blacklist: nat)
    requires Sweep(w, limit, blacklist, w.clock).1.Swept?
    ensures |SweptIds(w, limit, blacklist, w.clock)| == |Limited(DueIds(w.orders, w.clock), limit)|
  {}

  lemma {:induction false} FullSweepDrains(w: World, sweepLimit: nat, blacklist: nat, c: nat, limit: nat)
    requires c <= |w.orders| && (sweepLimit == 0 || sweepLimit >= limit)
    requires Sweep(w, sweepLimit, blacklist, w.clock).1.Swept?
    ensures |DueUpTo(Sweep(w, sweepLimit, blacklist, w.clock).0.orders, w.clock, c)| <= Less(|DueUpTo(w.orders, w.clock, c)|, limit)
  {
    SweepTakesOldest(w, sweepLimit, blacklist, c);
    WholeBatch(w, sweepLimit, blacklist);
    DuePrefix(w.orders, w.clock, c, |w.orders|);
  }

  lemma SweepStep(w: World, e: Event)
    requires e.call.CallSweep?
    ensures (Step(w, e), ReplyTo(w, e)) == Sweep(w.(clock := e.at), e.call.limit, e.call.blacklist, e.at)
    ensures Step(w, e).clock == e.at && |Step(w, e).orders| == |w.orders|
  {}

  lemma FullSweepTakes(w: World, e: Event, c: nat, limit: nat)
    requires c <= |w.orders| && w.clock <= e.at && FullSweep(w, e, limit)
    requires forall id :: 0 <= id < c ==> w.orders[id].qr.expiresAt < w.clock
    ensures DueAmong(c)(Step(w, e)) <= Less(DueAmong(c)(w), limit)
  {
    SweepStep(w, e);
    SameDue(w.orders, w.clock, e.at, c);
    FullSweepDrains(w.(clock := e.at), e.call.limit, e.call.blacklist, c, limit);
  }

  lemma SweepsDrainAmong(since: int, c: nat, limit: nat)
    ensures Drains(Step, Enabled, SinceThen(since, c), DueAmong(c), FullSweeps(limit), limit)
  {
    forall w: World, e: Event | Since(w, since, c) && Enabled(w, e)
      ensures DueAmong(c)(Step(w, e)) <= DueAmong(c)(w)
      ensures FullSweep(w, e, limit) ==> DueAmong(c)(Step(w, e)) <= Less(DueAmong(c)(w), limit)
    {
      NoneBecomesDue(w, e, since, c);
      if FullSweep(w, e, limit) {
        FullSweepTakes(w, e, c, limit);
      }
    }
  }

  /** The listed orders that are due. */
  function StillDue(w: World, ids: seq<nat>): seq<nat> {
    if ids == [] then []
    else
      var id := ids[|ids| - 1];
      StillDue(w, ids[..|ids| - 1]) + if id < |w.orders| && Due(w.orders[id], w.clock) then [id] else []
  }

  lemma {:induction false} StillDueAmong(w: World, orders: seq<Order>, now: int, c: nat)
    requires c <= |orders| && c <= |w.orders|
    requires forall id :: 0 <= id < c ==> (Due(w.orders[id], w.clock) ==> Due(orders[id], now))
    ensures StillDue(w, DueUpTo(orders, now, c)) == DueUpTo(w.orders, w.clock, c)
  {
    if c > 0 {
      StillDueAmong(w, orders, now, c - 1);
      var before := DueUpTo(orders, now, c - 1);
      if Due(orders[c - 1], now) {
        assert DueUpTo(orders, now, c) == before + [c - 1];
        assert (before + [c - 1])[..|before|] == before;
      } else {
        assert DueUpTo(orders, now, c) == before;
      }
    }
  }

  lemma {:induction false} NoneDueLater(orders: seq<Order>, now: int, c: nat, n: nat)
    requires c <= n <= |orders| && forall id :: c <= id < n ==> orders[id].qr.expiresAt >= now
    ensures DueUpTo(orders, now, n) == DueUpTo(orders, now, c)
  {
    if c < n {
      NoneDueLater(orders, now, c, n - 1);
    }
  }

  function NotDueSince(id: nat): World -> bool {
    (w: World) => id < |w.orders| && w.orders[id].qr.expiresAt < w.clock && !Due(w.orders[id], w.clock)
  }

  /** Past its deadline and not due: never due again, whatever happens. */
  lemma {:induction false} NeverDueAgain(w: World, events: seq<Event>, m: nat, n: nat, id: nat)
    requires Inv(w) && Possible(Step, Enabled, w, events) && m <= n <= |events|
    requires NotDueSince(id)(At(Step, w, events, m))
    ensures NotDueSince(id)(At(Step, w, events, n))
  {
    InvKept();
    forall v: World, e: Event | Inv(v) && Enabled(v, e) && NotDueSince(id)(v) ensures NotDueSince(id)(Step(v, e)) {
      NotDueAgain(v, e, id);
      StepDeadlines(v, e);
    }
    StableAt(Step, Enabled, Inv, NotDueSince(id), w, events, m, n);
  }

  lemma {:induction false} NoneOfTheFirstBecomesDue(w: World, events: seq<Event>, n: nat, c: nat)
    requires Inv(w) && Possible(Step, Enabled, w, events) && n <= |events| && c <= |w.orders|
    requires forall id :: 0 <= id < c ==> w.orders[id].qr.expiresAt < w.clock
    ensures var v := At(Step, w, events, n);
      c <= |v.orders| && forall id :: 0 <= id < c ==> (Due(v.orders[id], v.clock) ==> Due(w.orders[id], w.clock))
  {
    var v := At(Step, w, events, n);
    SinceOrdersStay(w, events, n);
    forall id | 0 <= id < c ensures Due(v.orders[id], v.clock) ==> Due(w.orders[id], w.clock) {
      if !Due(w.orders[id], w.clock) {
        NeverDueAgain(w, events, 0, n, id);
      }
    }
  }

  function AtLeastOrders(c: nat): World -> bool {
    (w: World) => c <= |w.orders|
  }

  lemma {:induction false} SinceOrdersStay(w: World, events: seq<Event>, n: nat)
    requires Inv(w) && Possible(Step, Enabled, w, events) && n <= |events|
    ensures |w.orders| <= |At(Step, w, events, n).orders|
  {
    InvKept();
    forall v: World, e: Event | Inv(v) && Enabled(v, e) && AtLeastOrders(|w.orders|)(v) ensures AtLeastOrders(|w.orders|)(Step(v, e)) {
      StepKeeps(v, e);
    }
    StableAt(Step, Enabled, Inv, AtLeastOrders(|w.orders|), w, events, 0, n);
  }

  lemma {:induction false} FirstDrain(w: World, events: seq<Event>, n: nat, limit: nat, c: nat)
    requires Possible(Step, Enabled, w, events) && n <= |events| && SinceThen(w.clock, c)(w)
    ensures DueAmong(c)(At(Step, w, events, n)) <= Less(DueAmong(c)(w), Count(Step, w, events, FullSweeps(limit), n) * limit)
  {
    SinceKept(w.clock, c);
    SweepsDrainAmong(w.clock, c, limit);
    DrainedAt(Step, Enabled, SinceThen(w.clock, c), DueAmong(c), FullSweeps(limit), limit, w, events, n);
  }

  /** Whatever else happens and however time passes between the sweeps, k full sweeps leave at
      most n - k * limit of the n orders due at the start, and so none once k * limit >= n. */
  lemma {:induction false} SweepsDrain(w: World, events: seq<Event>, n: nat, limit: nat)
    requires TimedInv(w) && Possible(Step, Enabled, w, events) && n <= |events|
    ensures var due := DueIds(w.orders, w.clock); var k := Count(Step, w, events, FullSweeps(limit), n);
      var left := |StillDue(At(Step, w, events, n), due)|;
      && left <= Less(|due|, k * limit)
      && (k * limit >= |due| ==> left == 0)
  {
    var c := Overdue(w.orders, w.clock, |w.orders|);
    OverdueSplits(w.orders, w.clock, |w.orders|);
    NoneDueLater(w.orders, w.clock, c, |w.orders|);
    FirstDrain(w, events, n, limit, c);
    NoneOfTheFirstBecomesDue(w, events, n, c);
    StillDueAmong(At(Step, w, events, n), w.orders, w.clock, c);
  }

  // ---- Duplicate deliveries ----

  function EventIdOf(call: Call): Option<string> {
    match call
    case CallPay(_, _, eventId) => Some(eventId)
    case CallMembership(_, eventId) => Some(eventId)
    case _ => None
  }

  /** A payment or membership message whose event id is already marked processed. */
  predicate Duplicate(w: World, e: Event) {
    EventIdOf(e.call).Some? && IsProcessed(w, EventIdOf(e.call).value)
  }

  function Run(w: World, events: seq<Event>): World {
    At(Step, w, events, |events|)
  }

  lemma RunNext(w: World, events: seq<Event>)
    requires events != []
    ensures Run(w, events) == Run(Step(w, events[0]), events[1..])
  {
    AtFromSecond(Step, w, events, |events| - 1);
  }

  /** The run without the deliveries that are duplicates when they arrive. */
  function DropDuplicates(w: World, events: seq<Event>): seq<Event>
    decreases |events|
  {
    if events == [] then []
    else if Duplicate(w, events[0]) then DropDuplicates(w, events[1..])
    else [events[0]] + DropDuplicates(Step(w, events[0]), events[1..])
  }

  /** Everything except the time of the last event. */
  predicate SameStore(w: World, v: World) {
    w.(clock := 0) == v.(clock := 0)
  }

  lemma StepIgnoresClock(w: World, v: World, e: Event)
    requires SameStore(w, v)
    ensures Step(w, e) == Step(v, e) && (Duplicate(w, e) <==> Duplicate(v, e))
  {
    assert w.(clock := e.at) == v.(clock := e.at);
  }

  lemma RunIgnoresClock(w: World, v: World, events: seq<Event>)
    requires SameStore(w, v)
    ensures SameStore(Run(w, events), Run(v, events))
  {
    if events != [] {
      StepIgnoresClock(w, v, events[0]);
      RunNext(w, events);
      RunNext(v, events);
    }
  }

  lemma DuplicateDoesNothing(w: World, e: Event)
    requires Duplicate(w, e)
    ensures SameStore(Step(w, e), w) && ReplyTo(w, e).Ignored?
  {}

  /** Removing every duplicate delivery leaves the orders, the memberships, the processed ids
      and everything ever published as they were. */
  lemma {:induction false} DuplicatesDoNotMatter(w: World, events: seq<Event>)
    ensures SameStore(Run(w, DropDuplicates(w, events)), Run(w, events))
    decreases |events|
  {
    if events != [] {
      RunNext(w, events);
      if Duplicate(w, events[0]) {
        DuplicatesDoNotMatter(w, events[1..]);
        DuplicateDoesNothing(w, events[0]);
        RunIgnoresClock(Step(w, events[0]), w, events[1..]);
      } else {
        DuplicatesDoNotMatter(Step(w, events[0]), events[1..]);
        var kept := DropDuplicates(w, events);
        assert kept[1..] == DropDuplicates(Step(w, events[0]), events[1..]);
        RunNext(w, kept);
      }
    }
  }

  /** A delivery leaves its id marked unless the id is empty or it is a payment for an order
      that does not exist; so exactly those have an effect when delivered again. */
  lemma MarkedAfterDelivery(w: World, e: Event)
    requires EventIdOf(e.call).Some?
    ensures Duplicate(Step(w, e), e) <==>
      && EventIdOf(e.call).value != ""
      && (e.call.CallPay? && !Duplicate(w, e) ==>
            var target := PayTarget(e.call.event, e.call.forOrder); target.Some? && target.value < |w.orders|)
  {}

  predicate AnyEvent(w: World, e: Event) { true }

  predicate AnyWorld(w: World) { true }

  function Processed(ids: set<string>): World -> bool {
    (w: World) => ids <= w.processed
  }

  lemma ProcessedStable(ids: set<string>)
    ensures Stable(Step, AnyEvent, AnyWorld, Processed(ids)) && Kept(Step, AnyEvent, AnyWorld)
  {}

  lemma {:induction false} ProcessedKept(w: World, events: seq<Event>, m: nat, n: nat)
    requires m <= n <= |events|
    ensures At(Step, w, events, m).processed <= At(Step, w, events, n).processed
  {
    var ids := At(Step, w, events, m).processed;
    ProcessedStable(ids);
    StableAt(Step, AnyEvent, AnyWorld, Processed(ids), w, events, m, n);
  }

  /** Once a delivery has been marked, a redelivery at any later point of the run does nothing:
      a late "assigned" does not bring back a member who was removed since. */
  lemma LateDuplicateDoesNothing(w: World, events: seq<Event>, m: nat, n: nat)
    requires m < n < |events| && EventIdOf(events[m].call).Some? && EventIdOf(events[n].call) == EventIdOf(events[m].call)
    requires IsProcessed(At(Step, w, events, m + 1), EventIdOf(events[m].call).value)
    ensures SameStore(At(Step, w, events, n + 1), At(Step, w, events, n))
  {
    ProcessedKept(w, events, m + 1, n);
    AtNext(Step, w, events, n);
    DuplicateDoesNothing(At(Step, w, events, n), events[n]);
  }
}
