/** The driver-wait handlers with every await as a separate step: any number of handlers for
    one order are under way at once, each at some program point, and any of them may move
    next, or stop for ever. */
module DriverWaitRaces {
  import opened Options
  import opened Runs
  import opened DriverWait

  /** What calls cancelTimerJobs, and so what follows it. */
  datatype After = AfterScan | AfterExpiry

  /** The await a handler is about to perform. */
  datatype Pc =
    | UpsertTimer | UpsertState | AddWarningJob | AddExpireJob
    | GetWarning(next: After) | RemoveWarning(next: After) | GetExpire(next: After) | RemoveExpire(next: After)
    | ScanMarkTimer | ScanMarkState
    | ExpiryFind | ExpiryGuard | ExpiryRefused | ExpirySend | ExpiryMarkTimer | ExpiryMarkState
    | WarningFind | WarningGuard | WarningSend | WarningMark | WarningPublish
    | JobFind | JobGuard | JobRefused | JobPublish
    | Done

  /** A handler under way: where it is and the message or job it is about. */
  datatype Thread = Thread(pc: Pc, m: Message, startedAt: int)

  datatype World = World(wait: Wait, threads: seq<Thread>)

  function AfterCancel(next: After): Pc {
    if next.AfterScan? then ScanMarkTimer else Done
  }

  /** One await of one handler. */
  function Advance(env: Env, w: Wait, t: Thread, now: int): (Wait, Thread) {
    match t.pc
    case UpsertTimer => (UpsertActive(w, t.startedAt), t.(pc := UpsertState))
    case UpsertState => (StateArrived(w), t.(pc := AddWarningJob))
    case AddWarningJob => (AddWarning(w, env, t.m, now), t.(pc := AddExpireJob))
    case AddExpireJob => (AddExpire(w, env, t.m, now), t.(pc := Done))
    case GetWarning(next) => (w, t.(pc := if w.warningJob.Some? then RemoveWarning(next) else GetExpire(next)))
    case RemoveWarning(next) => (w.(warningJob := None), t.(pc := GetExpire(next)))
    case GetExpire(next) => (w, t.(pc := if w.expireJob.Some? then RemoveExpire(next) else AfterCancel(next)))
    case RemoveExpire(next) => (w.(expireJob := None), t.(pc := AfterCancel(next)))
    case ScanMarkTimer => (MarkCancelled(w, now), t.(pc := ScanMarkState))
    case ScanMarkState => (StateScanned(w), t.(pc := Done))
    case ExpiryFind =>
      (w, t.(pc := if w.timer.Some? && (w.timer.value.state.Expired? || w.timer.value.state.Cancelled?) then Done else ExpiryGuard))
    case ExpiryGuard =>
      (w, t.(pc := if !CanSend(w) then ExpiryRefused else if t.m.phone.Some? then ExpirySend else ExpiryMarkTimer))
    case ExpiryRefused => (MarkCancelled(w, now), t.(pc := GetWarning(AfterExpiry)))
    case ExpirySend => (if t.m.phone.Some? then SendFraudSms(w, t.m) else w, t.(pc := ExpiryMarkTimer))
    case ExpiryMarkTimer => (MarkExpired(w, now), t.(pc := ExpiryMarkState))
    case ExpiryMarkState => (StateExpired(w), t.(pc := GetWarning(AfterExpiry)))
    case WarningFind =>
      (w, t.(pc := if w.timer.None? || !(w.timer.value.state.Active? || w.timer.value.state.WarningSent?) then Done
                   else if t.m.phone.Some? then WarningGuard else WarningMark))
    case WarningGuard => (w, t.(pc := if CanSend(w) then WarningSend else WarningMark))
    case WarningSend => (if t.m.phone.Some? then SendWarningSms(w, t.m.phone.value) else w, t.(pc := WarningMark))
    case WarningMark => (MarkWarningSent(w, now), t.(pc := WarningPublish))
    case WarningPublish => (w.(notices := w.notices + [ThreeMinutesLeft]), t.(pc := Done))
    case JobFind =>
      (w, t.(pc := if w.timer.None? || w.timer.value.state.Cancelled? || w.timer.value.state.Expired? then Done else JobGuard))
    case JobGuard => (w, t.(pc := if CanSend(w) then JobPublish else JobRefused))
    case JobRefused => (MarkCancelled(w, now), t.(pc := Done))
    case JobPublish => (w.(notices := w.notices + [OrderQrExpired(t.m.debtAmount, t.m.idNumber)]), t.(pc := Done))
    case Done => (w, t)
  }

  // ---- Runs ----

  datatype Action = NewArrival(m: Message) | NewScan | NewExpiry(m: Message) | TakeWarning | TakeExpire | Run(k: nat)
  datatype Turn = Turn(env: Env, at: int, action: Action)

  const NoMessage := Message(None, None, 0, "")

  function JobMessage(job: Job): Message {
    Message(None, job.phone, job.debtAmount, job.idNumber)
  }

  function ArriveThread(m: Message, now: int): Thread {
    Thread(UpsertTimer, m, if m.arrivedAt.Some? then m.arrivedAt.value else now)
  }

  function Spawn(w: World, t: Thread): World {
    w.(threads := w.threads + [t])
  }

  function Step(w: World, e: Turn): World {
    match e.action
    case NewArrival(m) => Spawn(w, ArriveThread(m, e.at))
    case NewScan => Spawn(w, Thread(GetWarning(AfterScan), NoMessage, e.at))
    case NewExpiry(m) => Spawn(w, Thread(ExpiryFind, m, e.at))
    case TakeWarning =>
      if w.wait.warningJob.None? then w
      else Spawn(w.(wait := w.wait.(warningJob := None)), Thread(WarningFind, JobMessage(w.wait.warningJob.value), e.at))
    case TakeExpire =>
      if w.wait.expireJob.None? then w
      else Spawn(w.(wait := w.wait.(expireJob := None)), Thread(JobFind, JobMessage(w.wait.expireJob.value), e.at))
    case Run(k) =>
      if k >= |w.threads| then w
      else
        var (wait, t) := Advance(e.env, w.wait, w.threads[k], e.at);
        World(wait, w.threads[k := t])
  }

  predicate Any(w: World, e: Turn) { true }

  /** The write of a driver arrival to the order state. */
  predicate ArrivalWrite(w: World, e: Turn) {
    e.action.Run? && e.action.k < |w.threads| && w.threads[e.action.k].pc.UpsertState?
  }

  predicate Between(w: World, e: Turn) {
    !ArrivalWrite(w, e)
  }

  // ---- Uninterrupted, a handler's steps are the atomic handler ----

  /** An upper bound on the awaits a handler still has to perform. */
  function Left(pc: Pc): nat {
    match pc
    case UpsertTimer => 4 case UpsertState => 3 case AddWarningJob => 2 case AddExpireJob => 1
    case GetWarning(_) => 6 case RemoveWarning(_) => 5 case GetExpire(_) => 4 case RemoveExpire(_) => 3
    case ScanMarkTimer => 2 case ScanMarkState => 1
    case ExpiryFind => 11 case ExpiryGuard => 10 case ExpiryRefused => 7 case ExpirySend => 9
    case ExpiryMarkTimer => 8 case ExpiryMarkState => 7
    case WarningFind => 5 case WarningGuard => 4 case WarningSend => 3 case WarningMark => 2 case WarningPublish => 1
    case JobFind => 3 case JobGuard => 2 case JobRefused => 1 case JobPublish => 1
    case Done => 0
  }

  /** What one handler makes of the order when nothing comes in between. */
  function Finish(env: Env, w: Wait, t: Thread, now: int): Wait
    decreases Left(t.pc)
  {
    if t.pc.Done? then w
    else
      var (w', t') := Advance(env, w, t, now);
      Finish(env, w', t', now)
  }

  lemma {:induction false} FinishNext(env: Env, w: Wait, t: Thread, now: int)
    requires !t.pc.Done?
    ensures var (w', t') := Advance(env, w, t, now); Finish(env, w, t, now) == Finish(env, w', t', now)
  {}

  lemma {:induction false} FinishCancel(env: Env, w: Wait, t: Thread, now: int)
    requires t.pc.GetWarning?
    ensures Finish(env, w, t, now) == Finish(env, CancelTimerJobs(w), t.(pc := AfterCancel(t.pc.next)), now)
  {
    var w1 := w.(warningJob := None);
    var t1 := t.(pc := GetExpire(t.pc.next));
    assert Finish(env, w, t, now) == Finish(env, w1, t1, now) by {
      FinishNext(env, w, t, now);
      if w.warningJob.Some? {
        FinishNext(env, w, t.(pc := RemoveWarning(t.pc.next)), now);
      }
    }
    FinishNext(env, w1, t1, now);
    if w1.expireJob.Some? {
      FinishNext(env, w1, t.(pc := RemoveExpire(t.pc.next)), now);
    }
  }

  lemma {:induction false} ArriveIsAtomic(env: Env, w: Wait, m: Message, now: int)
    ensures Finish(env, w, ArriveThread(m, now), now) == HandleDriverArrived(env, w, m, now)
  {
    var t := ArriveThread(m, now);
    var w1 := UpsertActive(w, t.startedAt);
    FinishNext(env, w, t, now);
    FinishNext(env, w1, t.(pc := UpsertState), now);
    FinishNext(env, StateArrived(w1), t.(pc := AddWarningJob), now);
    FinishNext(env, AddWarning(StateArrived(w1), env, m, now), t.(pc := AddExpireJob), now);
  }

  lemma {:induction false} ScanIsAtomic(env: Env, w: Wait, now: int)
    ensures Finish(env, w, Thread(GetWarning(AfterScan), NoMessage, now), now) == HandleQrScanned(w, now)
  {
    var t := Thread(GetWarning(AfterScan), NoMessage, now);
    var w1 := CancelTimerJobs(w);
    FinishCancel(env, w, t, now);
    FinishNext(env, w1, t.(pc := ScanMarkTimer), now);
    FinishNext(env, MarkCancelled(w1, now), t.(pc := ScanMarkState), now);
  }

  lemma {:induction false} ExpiryIsAtomic(env: Env, w: Wait, m: Message, now: int)
    ensures Finish(env, w, Thread(ExpiryFind, m, now), now) == HandleQrExpired(w, m, now)
  {
    var t := Thread(ExpiryFind, m, now);
    FinishNext(env, w, t, now);
    if Advance(env, w, t, now).1.pc.ExpiryGuard? {
      FinishNext(env, w, t.(pc := ExpiryGuard), now);
      if !CanSend(w) {
        FinishNext(env, w, t.(pc := ExpiryRefused), now);
        FinishCancel(env, MarkCancelled(w, now), t.(pc := GetWarning(AfterExpiry)), now);
      } else {
        ExpirySends(env, w, t.(pc := if m.phone.Some? then ExpirySend else ExpiryMarkTimer), now);
      }
    }
  }

  lemma {:induction false} ExpirySends(env: Env, w: Wait, t: Thread, now: int)
    requires t.pc == if t.m.phone.Some? then ExpirySend else ExpiryMarkTimer
    ensures Finish(env, w, t, now) ==
      CancelTimerJobs(StateExpired(MarkExpired(if t.m.phone.Some? then SendFraudSms(w, t.m) else w, now)))
  {
    var w1 := if t.m.phone.Some? then SendFraudSms(w, t.m) else w;
    if t.m.phone.Some? {
      FinishNext(env, w, t, now);
    }
    FinishNext(env, w1, t.(pc := ExpiryMarkTimer), now);
    FinishNext(env, MarkExpired(w1, now), t.(pc := ExpiryMarkState), now);
    FinishCancel(env, StateExpired(MarkExpired(w1, now)), t.(pc := GetWarning(AfterExpiry)), now);
  }

  lemma {:induction false} WarningMarks(env: Env, w: Wait, t: Thread, now: int)
    requires t.pc.WarningMark?
    ensures Finish(env, w, t, now) == MarkWarningSent(w, now).(notices := w.notices + [ThreeMinutesLeft])
  {
    FinishNext(env, w, t, now);
    FinishNext(env, MarkWarningSent(w, now), t.(pc := WarningPublish), now);
  }

  lemma WarningSends(env: Env, w: Wait, t: Thread, now: int)
    requires t.pc == if t.m.phone.Some? then WarningGuard else WarningMark
    ensures var w2 := if t.m.phone.Some? && CanSend(w) then SendWarningSms(w, t.m.phone.value) else w;
      Finish(env, w, t, now) == Finish(env, w2, t.(pc := WarningMark), now)
  {
    if t.m.phone.Some? {
      FinishNext(env, w, t, now);
      if CanSend(w) {
        FinishNext(env, w, t.(pc := WarningSend), now);
      }
    }
  }

  lemma {:induction false} WarningIsAtomic(env: Env, w: Wait, now: int)
    requires w.warningJob.Some?
    ensures Finish(env, w.(warningJob := None), Thread(WarningFind, JobMessage(w.warningJob.value), now), now) == ProcessWarning(w, now)
  {
    var w1 := w.(warningJob := None);
    var t := Thread(WarningFind, JobMessage(w.warningJob.value), now);
    FinishNext(env, w1, t, now);
    if !Advance(env, w1, t, now).1.pc.Done? {
      WarningSends(env, w1, Advance(env, w1, t, now).1, now);
      var w2 := if t.m.phone.Some? && CanSend(w1) then SendWarningSms(w1, t.m.phone.value) else w1;
      WarningMarks(env, w2, t.(pc := WarningMark), now);
    }
  }

  lemma {:induction false} ExpireIsAtomic(env: Env, w: Wait, now: int)
    requires w.expireJob.Some?
    ensures Finish(env, w.(expireJob := None), Thread(JobFind, JobMessage(w.expireJob.value), now), now) == ProcessExpire(w, now)
  {
    var w1 := w.(expireJob := None);
    var t := Thread(JobFind, JobMessage(w.expireJob.value), now);
    FinishNext(env, w1, t, now);
    if !Advance(env, w1, t, now).1.pc.Done? {
      FinishNext(env, w1, t.(pc := JobGuard), now);
      FinishNext(env, w1, t.(pc := if CanSend(w1) then JobPublish else JobRefused), now);
    }
  }

  /** The handler an action starts. */
  predicate Started(w: Wait, action: Action, env: Env, at: int, w': Wait, t: Thread) {
    Step(World(w, []), Turn(env, at, action)) == World(w', [t])
  }

  /** Whatever starts a handler, running it to its end with nothing in between is the atomic handler:
      the two jobs are taken off their queues at the start. */
  lemma {:induction false} StartedIsAtomic(env: Env, at: int, w: Wait, action: Action, w': Wait, t: Thread)
    requires Started(w, action, env, at, w', t)
    ensures match action
      case NewArrival(m) => Finish(env, w', t, at) == HandleDriverArrived(env, w, m, at)
      case NewScan => Finish(env, w', t, at) == HandleQrScanned(w, at)
      case NewExpiry(m) => Finish(env, w', t, at) == HandleQrExpired(w, m, at)
      case TakeWarning => w.warningJob.Some? && Finish(env, w', t, at) == ProcessWarning(w, at)
      case TakeExpire => w.expireJob.Some? && Finish(env, w', t, at) == ProcessExpire(w, at)
      case Run(_) => false
  {
    var v := Step(World(w, []), Turn(env, at, action));
    assert v.wait == w' && |v.threads| == 1 && v.threads[0] == t;
    match action
    case NewArrival(m) => ArriveIsAtomic(env, w, m, at);
    case NewScan => ScanIsAtomic(env, w, at);
    case NewExpiry(m) => ExpiryIsAtomic(env, w, m, at);
    case TakeWarning => WarningIsAtomic(env, w, at);
    case TakeExpire => ExpireIsAtomic(env, w, at);
    case Run(_) =>
  }

  // ---- The scan guard ----

  predicate Scanned(w: World) {
    w.wait.state.Some? && w.wait.state.value.qrScanned
  }

  /** Past its guard, with the message still to be sent. */
  predicate PastGuard(t: Thread) {
    t.pc.ExpirySend? || t.pc.WarningSend?
  }

  /** Only the state write of a driver arrival takes a scan back. */
  lemma OnlyArrivalResetsScan(w: World, e: Turn)
    requires Scanned(w)
    ensures Scanned(Step(w, e)) <==> !ArrivalWrite(w, e)
  {}

  predicate True(w: World) { true }

  lemma TrueKept()
    ensures Kept(Step, Between, True)
  {}

  /** Once the scan write has landed, the record stays scanned until the next arrival write,
      whatever the handlers under way do; so every guard read in between refuses. */
  lemma {:induction false} ScanHolds(w: World, events: seq<Turn>, m: nat, n: nat)
    requires Possible(Step, Between, w, events) && m <= n <= |events|
    requires Scanned(At(Step, w, events, m))
    ensures Scanned(At(Step, w, events, n)) && !CanSend(At(Step, w, events, n).wait)
  {
    TrueKept();
    ScannedStable();
    StableAt(Step, Between, True, Scanned, w, events, m, n);
  }

  lemma ScannedStable()
    ensures Stable(Step, Between, True, Scanned)
  {
    forall w: World, e: Turn | Between(w, e) && Scanned(w) ensures Scanned(Step(w, e)) {
      OnlyArrivalResetsScan(w, e);
    }
  }

  /** Scanned, and the k-th handler, if it is there, is not past its guard. */
  function Harmless(k: nat): World -> bool {
    (w: World) => Scanned(w) && (k < |w.threads| ==> !PastGuard(w.threads[k]))
  }

  predicate Sends(w: World, e: Turn, k: nat) {
    e.action == Run(k) && |Step(w, e).wait.sms| > |w.wait.sms|
  }

  lemma HarmlessStable(k: nat)
    ensures Stable(Step, Between, True, Harmless(k))
  {
    forall w: World, e: Turn | Between(w, e) && Harmless(k)(w) ensures Harmless(k)(Step(w, e)) {
      OnlyArrivalResetsScan(w, e);
    }
  }

  lemma SendsIff(w: World, e: Turn, k: nat)
    ensures Sends(w, e, k) ==> k < |w.threads| && PastGuard(w.threads[k])
    ensures !e.action.Run? ==> Step(w, e).wait.sms == w.wait.sms
  {}

  /** A message sent after the scan write and before the next arrival write comes from a handler
      that was already past its guard when the scan was written. */
  lemma {:induction false} LateMessageWasPastItsGuard(w: World, events: seq<Turn>, m: nat, n: nat, k: nat)
    requires Possible(Step, Between, w, events) && m <= n < |events|
    requires Scanned(At(Step, w, events, m)) && Sends(At(Step, w, events, n), events[n], k)
    ensures k < |At(Step, w, events, m).threads| && PastGuard(At(Step, w, events, m).threads[k])
  {
    SendsIff(At(Step, w, events, n), events[n], k);
    if Harmless(k)(At(Step, w, events, m)) {
      TrueKept();
      HarmlessStable(k);
      StableAt(Step, Between, True, Harmless(k), w, events, m, n);
      assert false;
    }
  }

  /** How many handlers are past their guards. */
  function CountPast(threads: seq<Thread>): nat {
    if threads == [] then 0
    else CountPast(threads[..|threads| - 1]) + if PastGuard(threads[|threads| - 1]) then 1 else 0
  }

  lemma {:induction false} CountUpdate(threads: seq<Thread>, k: nat, t: Thread)
    requires k < |threads|
    ensures CountPast(threads[k := t]) == CountPast(threads)
      - (if PastGuard(threads[k]) then 1 else 0) + (if PastGuard(t) then 1 else 0)
  {
    var n := |threads| - 1;
    if k < n {
      CountUpdate(threads[..n], k, t);
      assert threads[k := t][..n] == threads[..n][k := t];
    } else {
      assert threads[k := t][..n] == threads[..n];
    }
  }

  lemma {:induction false} CountSpawn(threads: seq<Thread>, t: Thread)
    ensures CountPast(threads + [t]) == CountPast(threads) + if PastGuard(t) then 1 else 0
  {
    assert (threads + [t])[..|threads|] == threads;
  }

  function ScannedWithin(limit: nat): World -> bool {
    (w: World) => Scanned(w) && |w.wait.sms| + CountPast(w.threads) <= limit
  }

  lemma StepSpendsGuards(w: World, e: Turn)
    requires Scanned(w) && Between(w, e)
    ensures |Step(w, e).wait.sms| + CountPast(Step(w, e).threads) <= |w.wait.sms| + CountPast(w.threads)
  {
    var w' := Step(w, e);
    if e.action.Run? && e.action.k < |w.threads| {
      CountUpdate(w.threads, e.action.k, w'.threads[e.action.k]);
    } else if |w'.threads| > |w.threads| {
      CountSpawn(w.threads, w'.threads[|w.threads|]);
    }
  }

  lemma ScannedWithinStable(limit: nat)
    ensures Stable(Step, Between, True, ScannedWithin(limit))
  {
    forall w: World, e: Turn | Between(w, e) && ScannedWithin(limit)(w) ensures ScannedWithin(limit)(Step(w, e)) {
      OnlyArrivalResetsScan(w, e);
      StepSpendsGuards(w, e);
    }
  }

  /** After the scan write, at most as many messages are sent as handlers were past their
      guards at that moment. */
  lemma {:induction false} LateMessagesAreFew(w: World, events: seq<Turn>, m: nat, n: nat)
    requires Possible(Step, Between, w, events) && m <= n <= |events|
    requires Scanned(At(Step, w, events, m))
    ensures var v, v' := At(Step, w, events, m), At(Step, w, events, n);
      |v'.wait.sms| - |v.wait.sms| <= CountPast(v.threads)
  {
    var v := At(Step, w, events, m);
    var limit := |v.wait.sms| + CountPast(v.threads);
    TrueKept();
    ScannedWithinStable(limit);
    StableAt(Step, Between, True, ScannedWithin(limit), w, events, m, n);
  }

  // ---- Records and timers under interleaving ----

  predicate ThreadOk(t: Thread, w: Wait) {
    && (t.pc.UpsertState? || t.pc.WarningGuard? || t.pc.WarningSend? || t.pc.WarningMark? ==> w.timer.Some?)
    && (t.pc.ExpirySend? || t.pc.ExpiryMarkTimer? || t.pc.ExpiryMarkState? ==> w.state.Some? && w.timer.Some?)
  }

  predicate ThreadsOk(threads: seq<Thread>, w: Wait) {
    forall k :: 0 <= k < |threads| ==> ThreadOk(threads[k], w)
  }

  predicate Inv(w: World) {
    && (w.wait.state.Some? && !w.wait.state.value.qrScanned ==> w.wait.timer.Some?)
    && ThreadsOk(w.threads, w.wait)
  }

  predicate Stays(w: Wait, w': Wait) {
    (w.timer.Some? ==> w'.timer.Some?) && (w.state.Some? ==> w'.state.Some?)
  }

  lemma ThreadsStayOk(threads: seq<Thread>, w: Wait, w': Wait)
    requires ThreadsOk(threads, w) && Stays(w, w')
    ensures ThreadsOk(threads, w')
  {
    forall k | 0 <= k < |threads| ensures ThreadOk(threads[k], w') {
      assert ThreadOk(threads[k], w);
    }
  }

  lemma AdvanceKeeps(env: Env, w: Wait, t: Thread, now: int)
    requires ThreadOk(t, w) && (w.state.Some? && !w.state.value.qrScanned ==> w.timer.Some?)
    ensures var (w', t') := Advance(env, w, t, now);
      Stays(w, w') && ThreadOk(t', w') && (w'.state.Some? && !w'.state.value.qrScanned ==> w'.timer.Some?)
  {}

  lemma StepKeepsInv(w: World, e: Turn)
    requires Inv(w)
    ensures Inv(Step(w, e))
  {
    var w' := Step(w, e);
    if e.action.Run? && e.action.k < |w.threads| {
      assert ThreadOk(w.threads[e.action.k], w.wait);
      AdvanceKeeps(e.env, w.wait, w.threads[e.action.k], e.at);
    }
    ThreadsStayOk(w.threads, w.wait, w'.wait);
  }

  /** In every interleaving an unscanned order-state record comes with a timer. */
  lemma {:induction false} UnscannedHasTimer(events: seq<Turn>, n: nat)
    requires n <= |events|
    ensures var w := At(Step, World(NoWait, []), events, n).wait; CanSend(w) ==> w.timer.Some?
  {
    InvKept();
    InvariantAt(Step, Any, Inv, World(NoWait, []), events, n);
  }

  // ---- What does not survive, and exactly when ----

  /** The timer moves down exactly when an arrival restarts it, when the mark of a warning lands
      on an EXPIRED or CANCELLED timer, or the mark of an expiry on a CANCELLED one. */
  lemma TimerFallsIff(w: World, e: Turn)
    requires w.wait.timer.Some?
    ensures Step(w, e).wait.timer.Some?
    ensures var r := Rank(w.wait.timer.value.state);
      Rank(Step(w, e).wait.timer.value.state) < r <==>
        && e.action.Run? && e.action.k < |w.threads|
        && var pc := w.threads[e.action.k].pc;
           (pc.UpsertTimer? && r > 0) || (pc.WarningMark? && r > 1) || (pc.ExpiryMarkTimer? && r > 2)
  {}

  // ---- Second fraud messages ----

  predicate RunsAt(w: World, e: Turn, k: nat, pc: Pc) {
    e.action == Run(k) && k < |w.threads| && w.threads[k].pc == pc
  }

  /** The arrival write that restarts the timer. */
  predicate Restarts(w: World, e: Turn) {
    e.action.Run? && RunsAt(w, e, e.action.k, UpsertTimer)
  }

  predicate MarksWarning(w: World, e: Turn) {
    e.action.Run? && RunsAt(w, e, e.action.k, WarningMark)
  }

  predicate MarksExpired(w: World, e: Turn) {
    e.action.Run? && RunsAt(w, e, e.action.k, ExpiryMarkTimer)
  }

  /** The marks that put the timer at EXPIRED or CANCELLED. */
  predicate Stops(w: World, e: Turn) {
    && e.action.Run? && e.action.k < |w.threads|
    && w.threads[e.action.k].pc in {ExpiryMarkTimer, ExpiryRefused, ScanMarkTimer, JobRefused}
  }

  function MarkingWarning(): (World, Turn) -> bool {
    (w: World, e: Turn) => MarksWarning(w, e)
  }

  function Stopping(): (World, Turn) -> bool {
    (w: World, e: Turn) => Stops(w, e)
  }

  /** ACTIVE or WARNING_SENT: what the find of an expiry handler lets pass, given a timer. */
  predicate Running(w: World) {
    w.wait.timer.Some? && Rank(w.wait.timer.value.state) < 2
  }

  function TimerRuns(): World -> bool {
    (w: World) => Running(w)
  }

  /** A fraud message is sent by the k-th handler. */
  predicate SendsFraud(w: World, e: Turn, k: nat) {
    e.action == Run(k) && Frauds(Step(w, e).wait.sms) > Frauds(w.wait.sms)
  }

  lemma SendsFraudIff(w: World, e: Turn, k: nat)
    ensures SendsFraud(w, e, k) <==> RunsAt(w, e, k, ExpirySend) && w.threads[k].m.phone.Some?
  {
    var sms := w.wait.sms;
    if e.action == Run(k) && k < |w.threads| {
      var t := w.threads[k];
      if t.pc.ExpirySend? && t.m.phone.Some? {
        Logged(sms, SendFraudSms(w.wait, t.m).sms[|sms|]);
      } else if t.pc.WarningSend? && t.m.phone.Some? {
        Logged(sms, WarningSms(t.m.phone.value));
      }
    }
  }

  /** What one step does to the timer, unless an arrival restarts it. */
  lemma StepSwitches(w: World, e: Turn)
    requires Inv(w) && !Restarts(w, e)
    ensures w.wait.timer.Some? ==> Step(w, e).wait.timer.Some?
    ensures Running(Step(w, e)) <==> MarksWarning(w, e) || (Running(w) && !Stops(w, e))
  {
    if e.action.Run? && e.action.k < |w.threads| {
      assert ThreadOk(w.threads[e.action.k], w.wait);
    }
  }

  /** No step in between restarts the timer. */
  predicate NoRestart(w: World, events: seq<Turn>, from: nat, n: nat)
    requires n <= |events|
  {
    forall i {:trigger NotRestarted(w, events, i)} :: from <= i < n ==> NotRestarted(w, events, i)
  }

  predicate NotRestarted(w: World, events: seq<Turn>, i: nat)
    requires i < |events|
  {
    !Restarts(At(Step, w, events, i), events[i])
  }

  lemma InvKept()
    ensures Kept(Step, Any, Inv)
  {
    forall w: World, e: Turn | Inv(w) ensures Inv(Step(w, e)) {
      StepKeepsInv(w, e);
    }
  }

  lemma SwitchesAt(w: World, events: seq<Turn>, i: nat)
    requires Inv(w) && i < |events| && NotRestarted(w, events, i)
    ensures Switches(Step, w, events, TimerRuns(), MarkingWarning(), Stopping(), i)
  {
    InvKept();
    InvariantAt(Step, Any, Inv, w, events, i);
    StepSwitches(At(Step, w, events, i), events[i]);
    AtNext(Step, w, events, i);
  }

  lemma AllSwitch(w: World, events: seq<Turn>, from: nat, n: nat)
    requires Inv(w) && n <= |events| && NoRestart(w, events, from, n)
    ensures forall i {:trigger Switches(Step, w, events, TimerRuns(), MarkingWarning(), Stopping(), i)} :: from <= i < n ==>
      Switches(Step, w, events, TimerRuns(), MarkingWarning(), Stopping(), i)
  {
    forall i | from <= i < n ensures Switches(Step, w, events, TimerRuns(), MarkingWarning(), Stopping(), i) {
      SwitchesAt(w, events, i);
    }
  }

  function MarkingExpired(): (World, Turn) -> bool {
    (w: World, e: Turn) => MarksExpired(w, e)
  }

  lemma MarkedExpired(w: World, e: Turn)
    requires Inv(w) && MarksExpired(w, e)
    ensures Step(w, e).wait.timer.Some? && !Running(Step(w, e))
  {
    assert ThreadOk(w.threads[e.action.k], w.wait);
  }

  lemma MarkingExpiredStops()
    ensures forall w: World, e: Turn {:trigger Step(w, e)} :: Inv(w) && MarkingExpired()(w, e) ==> !TimerRuns()(Step(w, e))
  {
    forall w: World, e: Turn | Inv(w) && MarksExpired(w, e) ensures !TimerRuns()(Step(w, e)) {
      MarkedExpired(w, e);
    }
  }

  /** From an expiry mark on, with no restart, the timer runs exactly when the last mark on it was
      the mark of a warning. */
  lemma {:induction false} RunsAgainIff(w: World, events: seq<Turn>, m: nat, n: nat)
    requires Inv(w) && m < n <= |events| && MarkingExpired()(At(Step, w, events, m), events[m])
    requires NoRestart(w, events, m + 1, n)
    ensures TimerRuns()(At(Step, w, events, n)) <==> LastOn(Step, w, events, MarkingWarning(), Stopping(), m + 1, n)
  {
    InvKept();
    MarkingExpiredStops();
    AllSwitch(w, events, m + 1, n);
    SwitchedAfterIff(Step, Any, Inv, MarkingExpired(), w, events, TimerRuns(), MarkingWarning(), Stopping(), m, n);
  }

  /** The k-th handler makes no move in between. */
  predicate Waits(events: seq<Turn>, k: nat, from: nat, n: nat)
    requires n <= |events|
  {
    forall i :: from <= i < n ==> events[i].action != Run(k)
  }

  lemma OthersLeaveIt(w: World, e: Turn, k: nat)
    requires k < |w.threads| && e.action != Run(k)
    ensures k < |Step(w, e).threads| && Step(w, e).threads[k] == w.threads[k]
  {}

  lemma {:induction false} ThreadWaits(w: World, events: seq<Turn>, k: nat, from: nat, n: nat)
    requires from <= n <= |events| && Waits(events, k, from, n) && k < |At(Step, w, events, from).threads|
    ensures k < |At(Step, w, events, n).threads| && At(Step, w, events, n).threads[k] == At(Step, w, events, from).threads[k]
  {
    if from < n {
      ThreadWaits(w, events, k, from, n - 1);
      OthersLeaveIt(At(Step, w, events, n - 1), events[n - 1], k);
      AtNext(Step, w, events, n - 1);
    }
  }

  /** The k-th handler, about to look the timer up, moves at f, g and n and not in between. */
  predicate ThreeMoves(w: World, events: seq<Turn>, k: nat, f: nat, g: nat, n: nat) {
    && f < g < n < |events|
    && RunsAt(At(Step, w, events, f), events[f], k, ExpiryFind)
    && events[g].action == Run(k) && events[n].action == Run(k)
    && Waits(events, k, f + 1, g) && Waits(events, k, g + 1, n)
  }

  /** What the look-up of an expiry handler lets pass. */
  predicate Passes(w: World) {
    w.wait.timer.None? || Running(w)
  }

  lemma FindMoves(w: World, e: Turn, k: nat)
    requires RunsAt(w, e, k, ExpiryFind)
    ensures Step(w, e).threads[k] == w.threads[k].(pc := if Passes(w) then ExpiryGuard else Done)
  {}

  lemma GuardMoves(w: World, e: Turn, k: nat)
    requires e.action == Run(k) && k < |w.threads| && w.threads[k].pc in {ExpiryGuard, Done}
    ensures var t := w.threads[k];
      (Step(w, e).threads[k].pc == ExpirySend && Step(w, e).threads[k].m.phone.Some?)
        <==> t.pc == ExpiryGuard && CanSend(w.wait) && t.m.phone.Some?
  {}

  lemma {:induction false} FirstTwoMoves(w: World, events: seq<Turn>, k: nat, f: nat, g: nat)
    requires f < g < |events| && RunsAt(At(Step, w, events, f), events[f], k, ExpiryFind)
    requires events[g].action == Run(k) && Waits(events, k, f + 1, g)
    ensures k < |At(Step, w, events, g).threads|
    ensures At(Step, w, events, g).threads[k] ==
      At(Step, w, events, f).threads[k].(pc := if Passes(At(Step, w, events, f)) then ExpiryGuard else Done)
  {
    FindMoves(At(Step, w, events, f), events[f], k);
    AtNext(Step, w, events, f);
    ThreadWaits(w, events, k, f + 1, g);
  }

  lemma {:induction false} LastTwoMoves(w: World, events: seq<Turn>, k: nat, g: nat, n: nat)
    requires g < n < |events| && k < |At(Step, w, events, g).threads|
    requires At(Step, w, events, g).threads[k].pc in {ExpiryGuard, Done}
    requires events[g].action == Run(k) && events[n].action == Run(k) && Waits(events, k, g + 1, n)
    ensures var t := At(Step, w, events, g).threads[k];
      SendsFraud(At(Step, w, events, n), events[n], k) <==>
        t.pc == ExpiryGuard && CanSend(At(Step, w, events, g).wait) && t.m.phone.Some?
  {
    GuardMoves(At(Step, w, events, g), events[g], k);
    AtNext(Step, w, events, g);
    ThreadWaits(w, events, k, g + 1, n);
    SendsFraudIff(At(Step, w, events, n), events[n], k);
  }

  /** The third move sends exactly when the look-up passed at the first, the record allowed it at
      the second, and there is a phone number. */
  lemma {:induction false} ThirdMoveSendsIff(w: World, events: seq<Turn>, k: nat, f: nat, g: nat, n: nat)
    requires ThreeMoves(w, events, k, f, g, n)
    ensures SendsFraud(At(Step, w, events, n), events[n], k) <==>
      && Passes(At(Step, w, events, f)) && CanSend(At(Step, w, events, g).wait)
      && At(Step, w, events, f).threads[k].m.phone.Some?
  {
    FirstTwoMoves(w, events, k, f, g);
    LastTwoMoves(w, events, k, g, n);
  }

  function HasTimer(): World -> bool { (w: World) => w.wait.timer.Some? }

  lemma HasTimerStable()
    ensures Stable(Step, Any, Inv, HasTimer()) && Makes(Step, Any, Inv, MarkingExpired(), HasTimer())
  {
    forall w: World, e: Turn | Inv(w) && MarksExpired(w, e) ensures HasTimer()(Step(w, e)) {
      MarkedExpired(w, e);
    }
  }

  lemma {:induction false} TimerStays(w: World, events: seq<Turn>, m: nat, n: nat)
    requires Inv(w) && m < n <= |events| && MarkingExpired()(At(Step, w, events, m), events[m])
    ensures HasTimer()(At(Step, w, events, n))
  {
    InvKept();
    HasTimerStable();
    EverAfter(Step, Any, Inv, MarkingExpired(), HasTimer(), w, events, m, n);
  }

  /** After an expiry handler has marked the timer, and with no arrival restarting it, a handler
      sends a further fraud message exactly when it had looked the timer up before that mark and
      found it running, or looks it up after a warning mark that no other mark has followed; and
      the record is unscanned when it reads it, and there is a phone number. */
  lemma {:induction false} SecondFraudIff(w: World, events: seq<Turn>, m: nat, k: nat, f: nat, g: nat, n: nat)
    requires Inv(w) && ThreeMoves(w, events, k, f, g, n) && f != m < n
    requires MarksExpired(At(Step, w, events, m), events[m])
    requires m < f ==> NoRestart(w, events, m + 1, f)
    ensures SendsFraud(At(Step, w, events, n), events[n], k) <==>
      && (if f < m then Passes(At(Step, w, events, f))
          else LastOn(Step, w, events, MarkingWarning(), Stopping(), m + 1, f))
      && CanSend(At(Step, w, events, g).wait)
      && At(Step, w, events, f).threads[k].m.phone.Some?
  {
    ThirdMoveSendsIff(w, events, k, f, g, n);
    if m < f {
      RunsAgainIff(w, events, m, f);
      TimerStays(w, events, m, f);
    }
  }

  /** Past its look-up of the timer, with the message still to be sent. */
  predicate PastFind(t: Thread) {
    t.pc.ExpiryGuard? || t.pc.ExpirySend?
  }

  /** The timer is stopped, and the k-th handler is not past its look-up. */
  function Spent(k: nat): World -> bool {
    (w: World) => w.wait.timer.Some? && !Running(w) && (k < |w.threads| ==> !PastFind(w.threads[k]))
  }

  /** Neither a restart nor the mark of a warning. */
  predicate Undisturbed(w: World, e: Turn) {
    !Restarts(w, e) && !MarksWarning(w, e)
  }

  function SendingFraud(k: nat): (World, Turn) -> bool {
    (w: World, e: Turn) => SendsFraud(w, e, k)
  }

  lemma SpentStep(w: World, e: Turn, k: nat)
    requires Inv(w) && Undisturbed(w, e) && Spent(k)(w)
    ensures Spent(k)(Step(w, e))
  {
    StepSwitches(w, e);
    if e.action == Run(k) && k < |w.threads| {
      StoppedTimerRefuses(e.env, w.wait, w.threads[k], e.at);
    } else if k < |w.threads| {
      OthersLeaveIt(w, e, k);
    }
  }

  lemma StoppedTimerRefuses(env: Env, w: Wait, t: Thread, now: int)
    requires w.timer.Some? && Rank(w.timer.value.state) >= 2 && !PastFind(t)
    ensures !PastFind(Advance(env, w, t, now).1)
  {}

  lemma SpentStable(k: nat)
    ensures Stable(Step, Undisturbed, Inv, Spent(k)) && Kept(Step, Undisturbed, Inv)
  {
    InvKept();
    forall w: World, e: Turn | Inv(w) && Undisturbed(w, e) && Spent(k)(w) ensures Spent(k)(Step(w, e)) {
      SpentStep(w, e, k);
    }
  }

  lemma SpentForbids(k: nat)
    ensures Forbids(Undisturbed, Inv, Spent(k), SendingFraud(k))
  {
    forall w: World, e: Turn | Spent(k)(w) ensures !SendsFraud(w, e, k) {
      SendsFraudIff(w, e, k);
    }
  }

  lemma {:induction false} SpentNeverSends(w: World, events: seq<Turn>, n: nat, k: nat)
    requires Inv(w) && Spent(k)(w) && Possible(Step, Undisturbed, w, events) && n < |events|
    ensures !SendingFraud(k)(At(Step, w, events, n), events[n])
  {
    SpentStable(k);
    SpentForbids(k);
    NeverFrom(Step, Undisturbed, Inv, Spent(k), SendingFraud(k), w, events, 0, n);
  }

  lemma SpentAfterMark(w: World, e: Turn, k: nat)
    requires Inv(w) && MarksExpired(w, e) && (k < |w.threads| ==> !PastFind(w.threads[k]))
    ensures Spent(k)(Step(w, e))
  {
    MarkedExpired(w, e);
  }

  /** In any run after an expiry mark in which no arrival restarts the timer and no warning mark
      lands, only handlers already past their look-up at that mark send fraud messages. */
  lemma {:induction false} OnlyPastFindSend(w: World, e: Turn, events: seq<Turn>, n: nat, k: nat)
    requires Inv(w) && MarksExpired(w, e) && Possible(Step, Undisturbed, Step(w, e), events) && n < |events|
    ensures SendingFraud(k)(At(Step, Step(w, e), events, n), events[n]) ==> k < |w.threads| && PastFind(w.threads[k])
  {
    if k < |w.threads| ==> !PastFind(w.threads[k]) {
      SpentAfterMark(w, e, k);
      StepKeepsInv(w, e);
      SpentNeverSends(Step(w, e), events, n, k);
    }
  }

  /** Two expiry messages handled together, both past their guard before either is done. */
  function Overlap(env: Env, at: int, m: Message, m': Message): seq<Turn> {
    [Turn(env, at, NewExpiry(m)), Turn(env, at, NewExpiry(m')),
     Turn(env, at, Run(0)), Turn(env, at, Run(1)), Turn(env, at, Run(0)), Turn(env, at, Run(1)),
     Turn(env, at, Run(0)), Turn(env, at, Run(1))]
  }

  lemma {:induction false} BothReachTheSend(env: Env, at: int, w: Wait, m: Message, m': Message)
    requires CanSend(w) && w.timer.Some? && w.timer.value.state.Active? && m.phone.Some? && m'.phone.Some?
    ensures At(Step, World(w, []), Overlap(env, at, m, m'), 6) == World(w, [Thread(ExpirySend, m, at), Thread(ExpirySend, m', at)])
  {
    var es := Overlap(env, at, m, m');
    AtNext(Step, World(w, []), es, 0);
    AtNext(Step, World(w, []), es, 1);
    assert At(Step, World(w, []), es, 2) == World(w, [Thread(ExpiryFind, m, at), Thread(ExpiryFind, m', at)]);
    AtNext(Step, World(w, []), es, 2);
    AtNext(Step, World(w, []), es, 3);
    assert At(Step, World(w, []), es, 4) == World(w, [Thread(ExpiryGuard, m, at), Thread(ExpiryGuard, m', at)]);
    AtNext(Step, World(w, []), es, 4);
    AtNext(Step, World(w, []), es, 5);
  }

  lemma BothSend(env: Env, at: int, w: Wait, m: Message, m': Message)
    requires m.phone.Some? && m'.phone.Some?
    ensures var v := World(w, [Thread(ExpirySend, m, at), Thread(ExpirySend, m', at)]);
      Frauds(Step(Step(v, Turn(env, at, Run(0))), Turn(env, at, Run(1))).wait.sms) == Frauds(w.sms) + 2
  {
    var one, two := SendFraudSms(w, m).sms, SendFraudSms(SendFraudSms(w, m), m').sms;
    Logged(w.sms, one[|w.sms|]);
    Logged(one, two[|one|]);
  }

  lemma AtomicSendsOnce(at: int, w: Wait, m: Message, m': Message)
    requires CanSend(w) && w.timer.Some? && w.timer.value.state.Active? && m.phone.Some?
    ensures Frauds(HandleQrExpired(HandleQrExpired(w, m, at), m', at).sms) == Frauds(w.sms) + 1
  {
    Logged(w.sms, SendFraudSms(w, m).sms[|w.sms|]);
  }

  /** From any waiting order, two overlapping expiry messages send two fraud messages without a
      driver arrival in between; the atomic handlers send one. */
  lemma {:induction false} OverlapSendsTwice(env: Env, at: int, w: Wait, m: Message, m': Message)
    requires CanSend(w) && w.timer.Some? && w.timer.value.state.Active? && m.phone.Some? && m'.phone.Some?
    ensures Frauds(At(Step, World(w, []), Overlap(env, at, m, m'), 8).wait.sms) == Frauds(w.sms) + 2
    ensures Frauds(HandleQrExpired(HandleQrExpired(w, m, at), m', at).sms) == Frauds(w.sms) + 1
  {
    var es := Overlap(env, at, m, m');
    BothReachTheSend(env, at, w, m, m');
    AtNext(Step, World(w, []), es, 6);
    AtNext(Step, World(w, []), es, 7);
    BothSend(env, at, w, m, m');
    AtomicSendsOnce(at, w, m, m');
  }

  /** The k-th handler moves n times in a row. */
  function Drive(env: Env, at: int, w: World, k: nat, n: nat): World
    decreases n
  {
    if n == 0 then w else Drive(env, at, Step(w, Turn(env, at, Run(k))), k, n - 1)
  }

  lemma AdvanceGoesOn(env: Env, w: Wait, t: Thread, now: int)
    ensures var t' := Advance(env, w, t, now).1;
      t' == t.(pc := t'.pc) && (t.pc.Done? ==> t'.pc.Done?) && (!t.pc.Done? ==> Left(t'.pc) < Left(t.pc))
  {}

  /** Moving often enough in a row is being handled whole. */
  lemma {:induction false} DriveFinishes(env: Env, at: int, w: World, k: nat, n: nat)
    requires k < |w.threads| && n >= Left(w.threads[k].pc)
    ensures var t := w.threads[k]; Drive(env, at, w, k, n) == World(Finish(env, w.wait, t, at), w.threads[k := t.(pc := Done)])
    decreases n
  {
    var t := w.threads[k];
    AdvanceGoesOn(env, w.wait, t, at);
    if t.pc.Done? {
      assert w.threads[k := t] == w.threads;
      if n > 0 {
        DriveFinishes(env, at, w, k, n - 1);
      }
    } else {
      var w' := Step(w, Turn(env, at, Run(k)));
      FinishNext(env, w.wait, t, at);
      DriveFinishes(env, at, w', k, n - 1);
      assert w'.threads[k := t.(pc := Done)] == w.threads[k := t.(pc := Done)];
    }
  }

  /** An expiry message handled whole, while the other handlers wait. */
  function HandleWhole(env: Env, at: int, w: World, m: Message): World {
    Drive(env, at, Step(w, Turn(env, at, NewExpiry(m))), |w.threads|, 11)
  }

  lemma HandledWhole(env: Env, at: int, w: World, m: Message)
    ensures HandleWhole(env, at, w, m) == World(HandleQrExpired(w.wait, m, at), w.threads + [Thread(Done, m, at)])
  {
    var v := Step(w, Turn(env, at, NewExpiry(m)));
    DriveFinishes(env, at, v, |w.threads|, 11);
    ExpiryIsAtomic(env, w.wait, m, at);
    assert v.threads[|w.threads| := Thread(Done, m, at)] == w.threads + [Thread(Done, m, at)];
  }

  /** A warning job that is taken up for a waiting order gets as far as its mark. */
  lemma {:induction false} WarningReachesMark(env: Env, at: int, w: Wait)
    requires CanSend(w) && w.timer.Some? && w.timer.value.state.Active? && w.warningJob.Some?
    ensures var v := Drive(env, at, Step(World(w, []), Turn(env, at, TakeWarning)), 0, if w.warningJob.value.phone.Some? then 3 else 1);
      && |v.threads| == 1 && v.threads[0].pc.WarningMark?
      && CanSend(v.wait) && v.wait.timer == w.timer
  {
    var job, w1 := w.warningJob.value, w.(warningJob := None);
    var t := Thread(WarningFind, JobMessage(job), at);
    var v := Step(World(w, []), Turn(env, at, TakeWarning));
    assert v == World(w1, [t]);
    var run := Turn(env, at, Run(0));
    if job.phone.Some? {
      var v1 := Step(v, run);
      assert v1 == World(w1, [t.(pc := WarningGuard)]);
      var v2 := Step(v1, run);
      assert v2 == World(w1, [t.(pc := WarningSend)]);
      assert Drive(env, at, v, 0, 3) == Drive(env, at, v1, 0, 2) == Drive(env, at, v2, 0, 1) == Drive(env, at, Step(v2, run), 0, 0);
    } else {
      assert Drive(env, at, v, 0, 1) == Drive(env, at, Step(v, run), 0, 0);
    }
  }

  lemma ExpirySendsOne(w: Wait, m: Message, now: int)
    requires CanSend(w) && w.timer.Some? && Rank(w.timer.value.state) < 2 && m.phone.Some?
    ensures var w' := HandleQrExpired(w, m, now);
      && w'.timer.Some? && w'.timer.value.state.Expired? && CanSend(w')
      && Frauds(w'.sms) == Frauds(w.sms) + 1
  {
    Logged(w.sms, SendFraudSms(w, m).sms[|w.sms|]);
  }

  lemma LateMark(env: Env, at: int, w: World)
    requires w.threads != [] && w.threads[0].pc.WarningMark? && w.wait.timer.Some?
    ensures var w' := Step(w, Turn(env, at, Run(0)));
      && w'.wait.timer.Some? && w'.wait.timer.value.state.WarningSent?
      && w'.wait.sms == w.wait.sms && w'.wait.state == w.wait.state
  {}

  /** Two expiry messages handled whole, one after the other, with the late mark of a warning
      in between: the mark sets the EXPIRED timer running, and both send a fraud message. */
  lemma LateWarningSendsTwice(env: Env, at: int, w: World, m: Message, m': Message)
    requires |w.threads| == 1 && w.threads[0].pc.WarningMark?
    requires CanSend(w.wait) && w.wait.timer.Some? && w.wait.timer.value.state.Active? && m.phone.Some? && m'.phone.Some?
    ensures var first := HandleWhole(env, at, w, m);
      var marked := Step(first, Turn(env, at, Run(0)));
      var second := HandleWhole(env, at, marked, m');
      && first.threads == [w.threads[0], Thread(Done, m, at)]
      && first.wait.timer.Some? && first.wait.timer.value.state.Expired? && Frauds(first.wait.sms) == Frauds(w.wait.sms) + 1
      && marked.wait.timer.Some? && marked.wait.timer.value.state.WarningSent?
      && Frauds(second.wait.sms) == Frauds(w.wait.sms) + 2
  {
    HandledWhole(env, at, w, m);
    ExpirySendsOne(w.wait, m, at);
    var first := HandleWhole(env, at, w, m);
    LateMark(env, at, first);
    var marked := Step(first, Turn(env, at, Run(0)));
    HandledWhole(env, at, marked, m');
    ExpirySendsOne(marked.wait, m', at);
  }
}
