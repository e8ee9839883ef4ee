/** What the driver-wait handlers achieve, said of the stored fields, and which messages go out
    over a whole run, said of the arrivals, scans and expiries that came before. */
module DriverWaitOutcomes {
  import opened Options
  import opened Runs
  import opened DriverWait

  // ---- Per call ----

  /** The timer is ACTIVE or WARNING_SENT. */
  predicate TimerRuns(w: Wait) {
    match w.timer
    case None => false
    case Some(t) => t.state == Active || t.state == WarningSent
  }

  /** The timer is EXPIRED or CANCELLED. */
  predicate TimerStopped(w: Wait) {
    match w.timer
    case None => false
    case Some(t) => t.state == Expired || t.state == Cancelled
  }

  /** There is an order-state record, and neither of its fields says it was scanned. */
  predicate Unscanned(w: Wait) {
    match w.state
    case None => false
    case Some(s) => !s.qrScanned && s.status != QrScanned
  }

  /** The timer keeps its start and gets the state and the time of the mark; without one there
      is nothing to mark. */
  predicate Marked(w: Wait, w': Wait, state: TimerState, now: int) {
    match w.timer
    case None => w'.timer.None?
    case Some(t) =>
      && w'.timer.Some? && w'.timer.value.state == state && w'.timer.value.startedAt == t.startedAt
      && w'.timer.value.warningSentAt == (if state == WarningSent then Some(now) else t.warningSentAt)
      && w'.timer.value.expiredAt == (if state == Expired then Some(now) else t.expiredAt)
      && w'.timer.value.cancelledAt == (if state == Cancelled then Some(now) else t.cancelledAt)
  }

  predicate NoJobs(w: Wait) {
    w.warningJob.None? && w.expireJob.None?
  }

  /** After an arrival the timer runs from the time the message says, the record is unscanned, and
      each queue holds a job: the one it held, or one for this arrival. */
  lemma ArrivalSets(env: Env, w: Wait, m: Message, now: int)
    ensures HandleDriverArrived(env, w, m, now) ==
      Wait(Some(Timer(Active, if m.arrivedAt.Some? then m.arrivedAt.value else now, None, None, None)),
           Some(OrderState(false, DriverArrived)),
           if w.warningJob.Some? then w.warningJob else Some(Job(m.phone, 0, "", now + env.warningOffset)),
           if w.expireJob.Some? then w.expireJob
           else Some(Job(m.phone, m.debtAmount, if m.idNumber == "" then "UNKNOWN" else m.idNumber, now + env.total)),
           w.sms, w.notices)
  {}

  /** A scan cancels the timer, records itself and takes both jobs off. */
  lemma ScanSets(w: Wait, now: int)
    ensures var w' := HandleQrScanned(w, now);
      && Marked(w, w', Cancelled, now) && w'.state == Some(OrderState(true, QrScanned)) && NoJobs(w')
      && w'.sms == w.sms && w'.notices == w.notices
  {}

  /** An expiry sends the fraud message, with the debt and id number it names, exactly if the timer
      has not stopped, the record is unscanned and there is a phone number. It stops the timer
      unless it had stopped: as expired if unscanned, else as cancelled. */
  lemma ExpiryIff(w: Wait, m: Message, now: int)
    ensures var w' := HandleQrExpired(w, m, now);
      && (if !TimerStopped(w) && Unscanned(w) && m.phone.Some?
          then w'.sms == w.sms + [FraudSms(m.phone.value, m.debtAmount, if m.idNumber == "" then "UNKNOWN" else m.idNumber)]
          else w'.sms == w.sms)
      && (if TimerStopped(w) then w' == w
          else Marked(w, w', if Unscanned(w) then Expired else Cancelled, now) && NoJobs(w'))
      && w'.state == (if !TimerStopped(w) && Unscanned(w) then Some(OrderState(false, QrExpired)) else w.state)
      && w'.notices == w.notices
  {}

  /** Processing a warning job takes it off its queue; it sends the warning to the job's phone
      exactly if there is one, the timer runs and the record is unscanned, and marks and tells of
      the three minutes exactly if the timer runs. */
  lemma WarningIff(w: Wait, now: int)
    requires w.warningJob.Some?
    ensures var w', job := ProcessWarning(w, now), w.warningJob.value;
      && w'.sms == (if job.phone.Some? && TimerRuns(w) && Unscanned(w) then w.sms + [WarningSms(job.phone.value)] else w.sms)
      && w'.notices == (if TimerRuns(w) then w.notices + [ThreeMinutesLeft] else w.notices)
      && (if TimerRuns(w) then Marked(w, w', WarningSent, now) else w'.timer == w.timer)
      && w'.state == w.state && w'.warningJob.None? && w'.expireJob == w.expireJob
  {}

  /** Processing an expire job takes it off its queue; it publishes the expiry, with the job's
      debt and id number, exactly if the timer runs and the record is unscanned; if it runs and
      the record is scanned or missing, the timer is cancelled. */
  lemma ExpireJobIff(w: Wait, now: int)
    requires w.expireJob.Some?
    ensures var w', job := ProcessExpire(w, now), w.expireJob.value;
      && w'.notices == (if TimerRuns(w) && Unscanned(w) then w.notices + [OrderQrExpired(job.debtAmount, job.idNumber)] else w.notices)
      && (if TimerRuns(w) && !Unscanned(w) then Marked(w, w', Cancelled, now) else w'.timer == w.timer)
      && w'.sms == w.sms && w'.state == w.state && w'.expireJob.None? && w'.warningJob == w.warningJob
  {}

  // ---- Over runs ----

  function Arriving(): (Wait, Event) -> bool { (w: Wait, e: Event) => e.call.Arrive? }

  function ScanOrExpiry(): (Wait, Event) -> bool { (w: Wait, e: Event) => e.call.Scan? || e.call.Expiry? }

  /** The driver waits: the timer runs and the record is unscanned. */
  function IsWaiting(): Wait -> bool { (w: Wait) => TimerRuns(w) && Unscanned(w) }

  lemma StepWaiting(w: Wait, e: Event)
    requires Inv(w) && Enabled(w, e)
    ensures IsWaiting()(Step(w, e)) <==> e.call.Arrive? || (IsWaiting()(w) && !ScanOrExpiry()(w, e))
  {
    match e.call
    case Arrive(m) => ArrivalSets(e.env, w, m, e.at);
    case Scan => ScanSets(w, e.at);
    case Expiry(m) => ExpiryIff(w, m, e.at);
    case WarningDue => WarningIff(w, e.at);
    case ExpireDue => ExpireJobIff(w, e.at);
  }

  /** A driver has arrived, and neither a scan nor an expiry has come since. */
  predicate StillWaiting(events: seq<Event>, n: nat)
    requires n <= |events|
  {
    LastOn(Step, NoWait, events, Arriving(), ScanOrExpiry(), 0, n)
  }

  /** At any moment of any run the timer runs on an unscanned record exactly if a driver has
      arrived and neither a scan nor an expiry has come since, whatever jobs were processed. */
  lemma {:induction false} WaitingIff(events: seq<Event>, n: nat)
    requires Possible(Step, Enabled, NoWait, events) && n <= |events|
    ensures IsWaiting()(At(Step, NoWait, events, n)) <==> StillWaiting(events, n)
  {
    InvKept();
    forall w: Wait, e: Event | Inv(w) && Enabled(w, e)
      ensures IsWaiting()(Step(w, e)) <==> Arriving()(w, e) || (IsWaiting()(w) && !ScanOrExpiry()(w, e))
    {
      StepWaiting(w, e);
    }
    SwitchedIff(Step, Enabled, Inv, IsWaiting(), Arriving(), ScanOrExpiry(), NoWait, events, n);
  }

  /** The arrival whose warning job is taken: the first since the queue was last empty. */
  predicate WarningOf(events: seq<Event>, m: nat, n: nat)
    requires n < |events|
  {
    events[n].call.WarningDue? && PendingSince(events, WarningQueue, m, n)
  }

  predicate ExpireJobOf(events: seq<Event>, m: nat, n: nat)
    requires n < |events|
  {
    events[n].call.ExpireDue? && PendingSince(events, ExpireQueue, m, n)
  }

  /** In every run the job of an arrival sends its warning, to the phone of that arrival, exactly
      if there is a phone and the driver still waits: no scan and no expiry since the last arrival. */
  lemma WarningSentIff(events: seq<Event>, m: nat, n: nat)
    requires Possible(Step, Enabled, NoWait, events) && n < |events| && WarningOf(events, m, n)
    ensures var sms, sms', phone := At(Step, NoWait, events, n).sms, At(Step, NoWait, events, n + 1).sms, events[m].call.m.phone;
      && (phone.Some? && StillWaiting(events, n) ==>
            sms' == sms + [WarningSms(phone.value)] && Warnings(sms') == Warnings(sms) + 1 && Frauds(sms') == Frauds(sms))
      && (!(phone.Some? && StillWaiting(events, n)) ==> sms' == sms)
  {
    var w := At(Step, NoWait, events, n);
    assert PendingAt(events, WarningQueue, n) == Some(Asked(events[m], WarningQueue));
    WaitingIff(events, n);
    WarningIff(w, events[n].at);
    AtNext(Step, NoWait, events, n);
    if events[m].call.m.phone.Some? {
      Logged(w.sms, WarningSms(events[m].call.m.phone.value));
    }
  }

  /** In every run the expire job of an arrival publishes the expiry, with the debt and the id
      number of that arrival, exactly if the driver still waits. */
  lemma ExpiryPublishedIff(events: seq<Event>, m: nat, n: nat)
    requires Possible(Step, Enabled, NoWait, events) && n < |events| && ExpireJobOf(events, m, n)
    ensures var notices, notices' := At(Step, NoWait, events, n).notices, At(Step, NoWait, events, n + 1).notices;
      var first := events[m].call.m;
      notices' == if StillWaiting(events, n)
        then notices + [OrderQrExpired(first.debtAmount, if first.idNumber == "" then "UNKNOWN" else first.idNumber)]
        else notices
  {
    assert PendingAt(events, ExpireQueue, n) == Some(Asked(events[m], ExpireQueue));
    WaitingIff(events, n);
    ExpireJobIff(At(Step, NoWait, events, n), events[n].at);
    AtNext(Step, NoWait, events, n);
  }

  /** In every run an expiry message sends the fraud message exactly if it names a phone and the
      driver still waits. */
  lemma FraudSentIff(events: seq<Event>, n: nat)
    requires Possible(Step, Enabled, NoWait, events) && n < |events| && events[n].call.Expiry?
    ensures var sms, sms', m := At(Step, NoWait, events, n).sms, At(Step, NoWait, events, n + 1).sms, events[n].call.m;
      && (m.phone.Some? && StillWaiting(events, n) ==>
            && sms' == sms + [FraudSms(m.phone.value, m.debtAmount, if m.idNumber == "" then "UNKNOWN" else m.idNumber)]
            && Frauds(sms') == Frauds(sms) + 1)
      && (!(m.phone.Some? && StillWaiting(events, n)) ==> sms' == sms)
  {
    var w, m := At(Step, NoWait, events, n), events[n].call.m;
    WaitingIff(events, n);
    InvKept();
    InvariantAt(Step, Enabled, Inv, NoWait, events, n);
    ExpiryIff(w, m, events[n].at);
    AtNext(Step, NoWait, events, n);
    if m.phone.Some? {
      Logged(w.sms, FraudSms(m.phone.value, m.debtAmount, if m.idNumber == "" then "UNKNOWN" else m.idNumber));
    }
  }

  // ---- The job is there to be taken ----

  /** What takes the job of a queue off: its own processing, a scan, and an expiry that is not
      ignored because the timer has stopped. */
  predicate TakesOff(w: Wait, e: Event, q: Queue) {
    match e.call
    case Scan => true
    case Expiry(_) => !TimerStopped(w)
    case WarningDue => q == WarningQueue
    case ExpireDue => q == ExpireQueue
    case Arrive(_) => false
  }

  function TakingOff(q: Queue): (Wait, Event) -> bool { (w: Wait, e: Event) => TakesOff(w, e, q) }

  function HasJob(q: Queue): Wait -> bool { (w: Wait) => Pending(w, q).Some? }

  lemma StepHasJob(w: Wait, e: Event, q: Queue)
    requires Enabled(w, e)
    ensures Pending(Step(w, e), q).Some? <==> e.call.Arrive? || (Pending(w, q).Some? && !TakesOff(w, e, q))
  {
    match e.call
    case Arrive(m) => ArrivalSets(e.env, w, m, e.at);
    case Scan => ScanSets(w, e.at);
    case Expiry(m) => ExpiryIff(w, m, e.at);
    case WarningDue => WarningIff(w, e.at);
    case ExpireDue => ExpireJobIff(w, e.at);
  }

  /** In every run a queue holds a job exactly if a driver has arrived and none since has taken it
      off: its processing, a scan, or an expiry that is not ignored. */
  lemma JobPendingIff(events: seq<Event>, n: nat, q: Queue)
    requires Possible(Step, Enabled, NoWait, events) && n <= |events|
    ensures PendingAt(events, q, n).Some? <==> LastOn(Step, NoWait, events, Arriving(), TakingOff(q), 0, n)
  {
    InvKept();
    forall w: Wait, e: Event | Inv(w) && Enabled(w, e)
      ensures HasJob(q)(Step(w, e)) <==> Arriving()(w, e) || (HasJob(q)(w) && !TakingOff(q)(w, e))
    {
      StepHasJob(w, e, q);
    }
    SwitchedIff(Step, Enabled, Inv, HasJob(q), Arriving(), TakingOff(q), NoWait, events, n);
  }

  predicate Quiet(events: seq<Event>, from: nat, n: nat)
    requires n <= |events|
  {
    forall i :: from <= i < n ==> !events[i].call.Scan? && !events[i].call.Expiry? && !events[i].call.WarningDue?
  }

  lemma QuietStepKeepsJob(w: Wait, e: Event)
    requires w.warningJob.Some? && !e.call.Scan? && !e.call.Expiry? && !e.call.WarningDue?
    ensures Step(w, e).warningJob == w.warningJob
  {}

  lemma {:induction false} QuietKeepsJob(events: seq<Event>, m: nat, n: nat)
    requires m < n <= |events| && events[m].call.Arrive?
    requires PendingAt(events, WarningQueue, m).None? && Quiet(events, m + 1, n)
    ensures PendingSince(events, WarningQueue, m, n)
  {
    AtNext(Step, NoWait, events, n - 1);
    if m < n - 1 {
      QuietKeepsJob(events, m, n - 1);
      assert PendingAt(events, WarningQueue, n - 1) == Some(Asked(events[m], WarningQueue));
      QuietStepKeepsJob(At(Step, NoWait, events, n - 1), events[n - 1]);
      PendingGoesOn(events, WarningQueue, m, n - 1);
    } else {
      StepPending(At(Step, NoWait, events, m), events[m], WarningQueue);
      ArrivalAsks(At(Step, NoWait, events, m), events[m]);
    }
  }

  lemma ArrivalAsks(w: Wait, e: Event)
    requires w.warningJob.None? && e.call.Arrive?
    ensures Step(w, e).warningJob == Some(Asked(e, WarningQueue))
  {}

  lemma {:induction false} QuietStillWaiting(events: seq<Event>, m: nat, n: nat)
    requires m < n <= |events| && events[m].call.Arrive? && Quiet(events, m + 1, n)
    ensures StillWaiting(events, n)
  {
    if m < n - 1 {
      QuietStillWaiting(events, m, n - 1);
    }
    LastOnNext(Step, NoWait, events, Arriving(), ScanOrExpiry(), 0, n);
  }

  /** An arrival that finds the queue empty and names a phone, and that no scan, no expiry and no
      processing of the job follows before its warning job is taken, sends exactly one warning,
      to that phone. */
  lemma UndisturbedArrivalIsWarned(events: seq<Event>, m: nat, n: nat)
    requires Possible(Step, Enabled, NoWait, events) && m < n < |events| && events[m].call.Arrive? && events[m].call.m.phone.Some?
    requires PendingAt(events, WarningQueue, m).None? && Quiet(events, m + 1, n) && events[n].call.WarningDue?
    ensures At(Step, NoWait, events, n + 1).sms == At(Step, NoWait, events, n).sms + [WarningSms(events[m].call.m.phone.value)]
    ensures Warnings(At(Step, NoWait, events, n + 1).sms) == Warnings(At(Step, NoWait, events, n).sms) + 1
  {
    QuietKeepsJob(events, m, n);
    QuietStillWaiting(events, m, n);
    WarningSentIff(events, m, n);
  }
}
