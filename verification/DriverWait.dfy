/** Driver-wait enforcement of notificationService (enforcement-notification.service.js and its
    two repositories): what the handlers do to everything stored for one order. Each queue
    holds at most one pending job per order, because the job id is made of the order id. */
module DriverWait {
  import opened Options
  import opened Runs

  datatype TimerState = Active | WarningSent | Expired | Cancelled
  datatype Timer = Timer(state: TimerState, startedAt: int, warningSentAt: Option<int>, expiredAt: Option<int>, cancelledAt: Option<int>)

  datatype Status = DriverArrived | QrScanned | QrExpired
  datatype OrderState = OrderState(qrScanned: bool, status: Status)

  datatype Job = Job(phone: Option<string>, debtAmount: int, idNumber: string, dueAt: int)
  datatype Sms = WarningSms(to: string) | FraudSms(to: string, debtAmount: int, idNumber: string)
  datatype Notice = ThreeMinutesLeft | OrderQrExpired(debtAmount: int, idNumber: string)

  /** Everything the service keeps for one order, and what it has sent about it. */
  datatype Wait = Wait(
    timer: Option<Timer>, state: Option<OrderState>,
    warningJob: Option<Job>, expireJob: Option<Job>,
    sms: seq<Sms>, notices: seq<Notice>)

  datatype Env = Env(warningOffset: int, total: int)

  /** The fields the handlers read from a message. */
  datatype Message = Message(arrivedAt: Option<int>, phone: Option<string>, debtAmount: int, idNumber: string)

  const NoWait := Wait(None, None, None, None, [], [])

  // ---- Repositories and queue ----

  function UpsertActive(w: Wait, startedAt: int): Wait {
    w.(timer := Some(Timer(Active, startedAt, None, None, None)))
  }

  /** The mark functions do not upsert: without a timer they do nothing. */
  function MarkWarningSent(w: Wait, at: int): Wait {
    if w.timer.None? then w else w.(timer := Some(w.timer.value.(state := WarningSent, warningSentAt := Some(at))))
  }

  function MarkExpired(w: Wait, at: int): Wait {
    if w.timer.None? then w else w.(timer := Some(w.timer.value.(state := Expired, expiredAt := Some(at))))
  }

  function MarkCancelled(w: Wait, at: int): Wait {
    if w.timer.None? then w else w.(timer := Some(w.timer.value.(state := Cancelled, cancelledAt := Some(at))))
  }

  function StateArrived(w: Wait): Wait {
    w.(state := Some(OrderState(false, DriverArrived)))
  }

  function StateScanned(w: Wait): Wait {
    w.(state := Some(OrderState(true, QrScanned)))
  }

  /** An upsert that leaves qrScanned alone; a new record starts unscanned. */
  function StateExpired(w: Wait): Wait {
    w.(state := Some(OrderState(w.state.Some? && w.state.value.qrScanned, QrExpired)))
  }

  predicate CanSend(w: Wait) {
    w.state.Some? && !w.state.value.qrScanned && !w.state.value.status.QrScanned?
  }

  /** Adding a job whose id is already pending changes nothing. */
  function AddWarning(w: Wait, env: Env, m: Message, now: int): Wait {
    if w.warningJob.Some? then w else w.(warningJob := Some(Job(m.phone, 0, "", now + env.warningOffset)))
  }

  function AddExpire(w: Wait, env: Env, m: Message, now: int): Wait {
    if w.expireJob.Some? then w
    else w.(expireJob := Some(Job(m.phone, m.debtAmount, if m.idNumber == "" then "UNKNOWN" else m.idNumber, now + env.total)))
  }

  function CancelTimerJobs(w: Wait): Wait {
    w.(warningJob := None, expireJob := None)
  }

  function SendFraudSms(w: Wait, m: Message): Wait
    requires m.phone.Some?
  {
    w.(sms := w.sms + [FraudSms(m.phone.value, m.debtAmount, if m.idNumber == "" then "UNKNOWN" else m.idNumber)])
  }

  function SendWarningSms(w: Wait, phone: string): Wait {
    w.(sms := w.sms + [WarningSms(phone)])
  }

  // ---- Handlers, each as one atomic step ----

  function HandleDriverArrived(env: Env, w: Wait, m: Message, now: int): Wait {
    var w1 := UpsertActive(w, if m.arrivedAt.Some? then m.arrivedAt.value else now);
    AddExpire(AddWarning(StateArrived(w1), env, m, now), env, m, now)
  }

  function HandleQrScanned(w: Wait, now: int): Wait {
    StateScanned(MarkCancelled(CancelTimerJobs(w), now))
  }

  function HandleQrExpired(w: Wait, m: Message, now: int): Wait {
    if w.timer.Some? && (w.timer.value.state.Expired? || w.timer.value.state.Cancelled?) then w
    else if !CanSend(w) then CancelTimerJobs(MarkCancelled(w, now))
    else CancelTimerJobs(StateExpired(MarkExpired(if m.phone.Some? then SendFraudSms(w, m) else w, now)))
  }

  /** The worker takes the pending warning job off the queue and processes it. */
  function ProcessWarning(w: Wait, now: int): Wait
    requires w.warningJob.Some?
  {
    var job, w1 := w.warningJob.value, w.(warningJob := None);
    if w1.timer.None? || !(w1.timer.value.state.Active? || w1.timer.value.state.WarningSent?) then w1
    else
      var w2 := if job.phone.Some? && CanSend(w1) then SendWarningSms(w1, job.phone.value) else w1;
      MarkWarningSent(w2, now).(notices := w2.notices + [ThreeMinutesLeft])
  }

  function ProcessExpire(w: Wait, now: int): Wait
    requires w.expireJob.Some?
  {
    var job, w1 := w.expireJob.value, w.(expireJob := None);
    if w1.timer.None? || w1.timer.value.state.Cancelled? || w1.timer.value.state.Expired? then w1
    else if !CanSend(w1) then MarkCancelled(w1, now)
    else w1.(notices := w1.notices + [OrderQrExpired(job.debtAmount, job.idNumber)])
  }

  // ---- Runs ----

  datatype Call = Arrive(m: Message) | Scan | Expiry(m: Message) | WarningDue | ExpireDue
  datatype Event = Event(env: Env, at: int, call: Call)

  function Step(w: Wait, e: Event): Wait {
    match e.call
    case Arrive(m) => HandleDriverArrived(e.env, w, m, e.at)
    case Scan => HandleQrScanned(w, e.at)
    case Expiry(m) => HandleQrExpired(w, m, e.at)
    case WarningDue => if w.warningJob.Some? then ProcessWarning(w, e.at) else w
    case ExpireDue => if w.expireJob.Some? then ProcessExpire(w, e.at) else w
  }

  /** A job is processed when its delay has passed. */
  predicate Enabled(w: Wait, e: Event) {
    && (e.call.WarningDue? ==> w.warningJob.Some? && w.warningJob.value.dueAt <= e.at)
    && (e.call.ExpireDue? ==> w.expireJob.Some? && w.expireJob.value.dueAt <= e.at)
  }

  /** The same without driver arrivals: a stretch between two of them. */
  predicate EnabledBetween(w: Wait, e: Event) {
    Enabled(w, e) && !e.call.Arrive?
  }

  /** Whoever is not scanned has a timer; a scanned state says so in both its fields. */
  predicate Inv(w: Wait) {
    && (CanSend(w) ==> w.timer.Some?)
    && (w.state.Some? && w.state.value.qrScanned <==> w.state.Some? && w.state.value.status.QrScanned?)
  }

  lemma InvKept()
    ensures Kept(Step, Enabled, Inv) && Kept(Step, EnabledBetween, Inv)
  {}

  /** In every run an unscanned order-state record comes with a timer, so a fraud or warning
      message is never sent without one. */
  lemma {:induction false} UnscannedHasTimer(events: seq<Event>, n: nat)
    requires Possible(Step, Enabled, NoWait, events) && n <= |events|
    ensures var w := At(Step, NoWait, events, n); CanSend(w) ==> w.timer.Some?
  {
    InvKept();
    InvariantAt(Step, Enabled, Inv, NoWait, events, n);
  }

  // ---- Between two arrivals ----

  function Rank(s: TimerState): nat {
    match s case Active => 0 case WarningSent => 1 case Expired => 2 case Cancelled => 3
  }

  predicate AtLeast(w: Wait, rank: nat) {
    w.timer.Some? && Rank(w.timer.value.state) >= rank
  }

  function Reached(rank: nat): Wait -> bool {
    (w: Wait) => AtLeast(w, rank)
  }

  lemma ReachedStable(rank: nat)
    ensures Stable(Step, EnabledBetween, Inv, Reached(rank))
  {
    forall w: Wait, e: Event | Inv(w) && EnabledBetween(w, e) && AtLeast(w, rank) ensures Reached(rank)(Step(w, e)) {
      match e.call
      case Scan =>
      case Expiry(m) =>
      case WarningDue =>
      case ExpireDue =>
    }
  }

  /** Between two driver arrivals the timer only moves up in
      ACTIVE < WARNING_SENT < EXPIRED < CANCELLED, and it does not disappear. */
  lemma {:induction false} TimerOnlyMovesUp(w: Wait, events: seq<Event>, m: nat, n: nat)
    requires Inv(w) && Possible(Step, EnabledBetween, w, events) && m <= n <= |events|
    requires At(Step, w, events, m).timer.Some?
    ensures AtLeast(At(Step, w, events, n), Rank(At(Step, w, events, m).timer.value.state))
  {
    var rank := Rank(At(Step, w, events, m).timer.value.state);
    InvKept();
    ReachedStable(rank);
    StableAt(Step, EnabledBetween, Inv, Reached(rank), w, events, m, n);
  }

  function Frauds(sms: seq<Sms>): nat {
    if sms == [] then 0 else Frauds(sms[..|sms| - 1]) + if sms[|sms| - 1].FraudSms? then 1 else 0
  }

  function Warnings(sms: seq<Sms>): nat {
    if sms == [] then 0 else Warnings(sms[..|sms| - 1]) + if sms[|sms| - 1].WarningSms? then 1 else 0
  }

  /** One more message in the log. */
  lemma {:induction false} Logged(sms: seq<Sms>, one: Sms)
    ensures Frauds(sms + [one]) == Frauds(sms) + if one.FraudSms? then 1 else 0
    ensures Warnings(sms + [one]) == Warnings(sms) + if one.WarningSms? then 1 else 0
  {
    assert (sms + [one])[..|sms|] == sms;
  }

  /** How many fraud messages can still be sent before the next arrival. */
  function FraudsLeft(w: Wait): nat {
    if w.timer.Some? && Rank(w.timer.value.state) < 2 then 1 else 0
  }

  function WarningsLeft(w: Wait): nat {
    if w.warningJob.Some? then 1 else 0
  }

  function WithinLimits(frauds: nat, warnings: nat): Wait -> bool {
    (w: Wait) => Frauds(w.sms) + FraudsLeft(w) <= frauds && Warnings(w.sms) + WarningsLeft(w) <= warnings
  }

  predicate UsesUp(w: Wait, w': Wait) {
    && Frauds(w'.sms) + FraudsLeft(w') <= Frauds(w.sms) + FraudsLeft(w)
    && Warnings(w'.sms) + WarningsLeft(w') <= Warnings(w.sms) + WarningsLeft(w)
  }

  /** The one message an expiry sends, if it sends any. */
  lemma ExpirySms(w: Wait, m: Message, now: int)
    ensures var w' := HandleQrExpired(w, m, now);
      || w'.sms == w.sms
      || (w'.sms == w.sms + [FraudSms(m.phone.value, m.debtAmount, if m.idNumber == "" then "UNKNOWN" else m.idNumber)]
          && CanSend(w) && (w.timer.Some? ==> FraudsLeft(w) == 1 && FraudsLeft(w') == 0))
  {}

  lemma ExpiryUsesUp(w: Wait, m: Message, now: int)
    requires Inv(w)
    ensures UsesUp(w, HandleQrExpired(w, m, now))
  {
    ExpirySms(w, m, now);
    var w' := HandleQrExpired(w, m, now);
    if w'.sms != w.sms {
      Logged(w.sms, w'.sms[|w.sms|]);
    }
  }

  lemma WarningUsesUp(w: Wait, now: int)
    requires w.warningJob.Some?
    ensures UsesUp(w, ProcessWarning(w, now))
  {
    if w.warningJob.value.phone.Some? {
      Logged(w.sms, WarningSms(w.warningJob.value.phone.value));
    }
  }

  lemma StepUsesUp(w: Wait, e: Event)
    requires Inv(w) && EnabledBetween(w, e)
    ensures UsesUp(w, Step(w, e))
  {
    match e.call
    case Expiry(m) => ExpiryUsesUp(w, m, e.at);
    case WarningDue => WarningUsesUp(w, e.at);
    case Scan =>
    case ExpireDue =>
  }

  lemma WithinLimitsStable(frauds: nat, warnings: nat)
    ensures Stable(Step, EnabledBetween, Inv, WithinLimits(frauds, warnings))
  {
    forall w: Wait, e: Event | Inv(w) && EnabledBetween(w, e) && WithinLimits(frauds, warnings)(w)
      ensures WithinLimits(frauds, warnings)(Step(w, e))
    {
      StepUsesUp(w, e);
    }
  }

  /** Between two driver arrivals at most one fraud message and at most one warning is sent:
      none at all once the timer is EXPIRED or CANCELLED, or the warning job is gone. */
  lemma {:induction false} AtMostOneOfEach(w: Wait, events: seq<Event>, m: nat, n: nat)
    requires Inv(w) && Possible(Step, EnabledBetween, w, events) && m <= n <= |events|
    ensures var v, v' := At(Step, w, events, m), At(Step, w, events, n);
      && Frauds(v'.sms) - Frauds(v.sms) <= FraudsLeft(v) <= 1
      && Warnings(v'.sms) - Warnings(v.sms) <= WarningsLeft(v) <= 1
  {
    var v := At(Step, w, events, m);
    var frauds, warnings := Frauds(v.sms) + FraudsLeft(v), Warnings(v.sms) + WarningsLeft(v);
    InvKept();
    WithinLimitsStable(frauds, warnings);
    StableAt(Step, EnabledBetween, Inv, WithinLimits(frauds, warnings), w, events, m, n);
  }

  /** Scanned, its timer stopped, and nothing sent since. */
  function QuietSince(sms: seq<Sms>, notices: seq<Notice>): Wait -> bool {
    (w: Wait) =>
      && w.state.Some? && w.state.value.qrScanned && (w.timer.Some? ==> w.timer.value.state.Cancelled?)
      && w.sms == sms && w.notices == notices
  }

  /** From a scan to the next driver arrival no message is sent and no event published. */
  lemma {:induction false} SilentAfterScan(w: Wait, e: Event, events: seq<Event>, n: nat)
    requires Inv(w) && e.call.Scan?
    requires Possible(Step, EnabledBetween, Step(w, e), events) && n <= |events|
    ensures var v := At(Step, Step(w, e), events, n); v.sms == w.sms && v.notices == w.notices
  {
    InvKept();
    assert Inv(Step(w, e));
    assert Stable(Step, EnabledBetween, Inv, QuietSince(w.sms, w.notices));
    StableAt(Step, EnabledBetween, Inv, QuietSince(w.sms, w.notices), Step(w, e), events, 0, n);
  }

  // ---- When a pending job is due ----

  /** After an arrival a job is due one delay from now exactly when none was pending before, or
      the pending one was due then anyway. */
  lemma ArrivalDelayIff(env: Env, w: Wait, m: Message, now: int)
    ensures var w' := HandleDriverArrived(env, w, m, now);
      && w'.expireJob.Some? && w'.warningJob.Some?
      && (w'.expireJob.value.dueAt == now + env.total <==>
            w.expireJob.None? || w.expireJob.value.dueAt == now + env.total)
      && (w'.warningJob.value.dueAt == now + env.warningOffset <==>
            w.warningJob.None? || w.warningJob.value.dueAt == now + env.warningOffset)
  {}

  /** The two job queues of an order. */
  datatype Queue = WarningQueue | ExpireQueue

  function Pending(w: Wait, q: Queue): Option<Job> {
    match q case WarningQueue => w.warningJob case ExpireQueue => w.expireJob
  }

  /** The job an arrival event asks for. */
  function Asked(e: Event, q: Queue): Job
    requires e.call.Arrive?
  {
    match q
    case WarningQueue => AddWarning(NoWait, e.env, e.call.m, e.at).warningJob.value
    case ExpireQueue => AddExpire(NoWait, e.env, e.call.m, e.at).expireJob.value
  }

  function Delay(env: Env, q: Queue): int {
    match q case WarningQueue => env.warningOffset case ExpireQueue => env.total
  }

  /** A step leaves a pending job alone, takes it off, or adds the one an arrival asks for to an
      empty queue. */
  lemma StepPending(w: Wait, e: Event, q: Queue)
    ensures var j' := Pending(Step(w, e), q);
      j'.None? || j' == Pending(w, q) || (Pending(w, q).None? && e.call.Arrive? && j' == Some(Asked(e, q)))
  {}

  /** The m-th event is an arrival that found the queue empty, and its job has been pending ever
      since, up to the n-th moment. */
  predicate PendingSince(events: seq<Event>, q: Queue, m: nat, n: nat)
    requires n <= |events|
  {
    && m < n && events[m].call.Arrive? && Pending(At(Step, NoWait, events, m), q).None?
    && forall i {:trigger PendingAt(events, q, i)} :: m < i <= n ==> PendingAt(events, q, i) == Some(Asked(events[m], q))
  }

  function PendingAt(events: seq<Event>, q: Queue, i: nat): Option<Job>
    requires i <= |events|
  {
    Pending(At(Step, NoWait, events, i), q)
  }

  lemma PendingGoesOn(events: seq<Event>, q: Queue, m: nat, n: nat)
    requires n < |events| && PendingSince(events, q, m, n) && PendingAt(events, q, n + 1) == PendingAt(events, q, n)
    ensures PendingSince(events, q, m, n + 1)
  {}

  /** In every run a pending job is that of the first arrival since its queue was last empty: due
      one delay after that arrival, to that arrival's phone, however many arrivals came later. */
  lemma {:induction false} PendingIsTheFirstArrivals(events: seq<Event>, q: Queue, n: nat) returns (m: nat)
    requires n <= |events| && PendingAt(events, q, n).Some?
    ensures PendingSince(events, q, m, n)
    ensures PendingAt(events, q, n).value.dueAt == events[m].at + Delay(events[m].env, q)
    ensures PendingAt(events, q, n).value.phone == events[m].call.m.phone
  {
    AtNext(Step, NoWait, events, n - 1);
    StepPending(At(Step, NoWait, events, n - 1), events[n - 1], q);
    if PendingAt(events, q, n - 1) == PendingAt(events, q, n) {
      m := PendingIsTheFirstArrivals(events, q, n - 1);
      PendingGoesOn(events, q, m, n - 1);
    } else {
      m := n - 1;
    }
  }

  /** So after a further arrival the job is due one delay from then exactly when it comes at the
      very time of the first, or with an environment that makes up for the difference. */
  lemma LaterArrivalRestartsIff(events: seq<Event>, q: Queue, m: nat, n: nat)
    requires n < |events| && PendingSince(events, q, m, n) && events[n].call.Arrive?
    ensures PendingSince(events, q, m, n + 1)
    ensures PendingAt(events, q, n + 1).value.dueAt == events[n].at + Delay(events[n].env, q) <==>
      events[m].at + Delay(events[m].env, q) == events[n].at + Delay(events[n].env, q)
  {
    AtNext(Step, NoWait, events, n);
    assert PendingAt(events, q, n) == Some(Asked(events[m], q));
    ArrivalKeepsPending(At(Step, NoWait, events, n), events[n], q);
    PendingGoesOn(events, q, m, n);
  }

  lemma ArrivalKeepsPending(w: Wait, e: Event, q: Queue)
    requires e.call.Arrive? && Pending(w, q).Some?
    ensures Pending(Step(w, e), q) == Pending(w, q)
  {}
}
