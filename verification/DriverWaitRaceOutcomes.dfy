/** Which messages the driver-wait handlers send when their steps interleave: exactly when, in
    terms of the writes that landed before each of a handler's reads. */
module DriverWaitRaceOutcomes {
  import opened Options
  import opened Runs
  import opened DriverWait
  import opened Races = DriverWaitRaces

  const Nothing := World(NoWait, [])

  // ---- What the reads find ----

  /** The write sets the timer running: that of an arrival, or the mark of a warning. */
  function SetsRunning(): (World, Turn) -> bool {
    (w: World, e: Turn) => Restarts(w, e) || MarksWarning(w, e)
  }

  lemma StepRuns(w: World, e: Turn)
    requires Races.Inv(w)
    ensures Running(Races.Step(w, e)) <==> SetsRunning()(w, e) || (Running(w) && !Stops(w, e))
  {
    if !Restarts(w, e) {
      StepSwitches(w, e);
    }
  }

  /** The last write to the timer that matters to it set it running. */
  predicate LastSetRunning(events: seq<Turn>, n: nat)
    requires n <= |events|
  {
    LastOn(Races.Step, Nothing, events, SetsRunning(), Stopping(), 0, n)
  }

  /** In every interleaving the timer is ACTIVE or WARNING_SENT exactly if the last of the writes
      that restart, warn, expire or cancel it was an arrival's or a warning's. */
  lemma {:induction false} RunningIff(events: seq<Turn>, n: nat)
    requires n <= |events|
    ensures Running(At(Races.Step, Nothing, events, n)) <==> LastSetRunning(events, n)
  {
    Races.InvKept();
    forall w: World, e: Turn | Races.Inv(w)
      ensures TimerRuns()(Races.Step(w, e)) <==> SetsRunning()(w, e) || (TimerRuns()(w) && !Stopping()(w, e))
    {
      StepRuns(w, e);
    }
    SwitchedIff(Races.Step, Any, Races.Inv, TimerRuns(), SetsRunning(), Stopping(), Nothing, events, n);
  }

  function ArrivalWriting(): (World, Turn) -> bool {
    (w: World, e: Turn) => ArrivalWrite(w, e)
  }

  function ScanWriting(): (World, Turn) -> bool {
    (w: World, e: Turn) => e.action.Run? && RunsAt(w, e, e.action.k, ScanMarkState)
  }

  function MaySend(): World -> bool { (w: World) => CanSend(w.wait) }

  /** A record that is not scanned says so in both its fields. */
  predicate Sound(w: World) {
    Races.Inv(w) && (w.wait.state.Some? && !w.wait.state.value.qrScanned ==> !w.wait.state.value.status.QrScanned?)
  }

  lemma StepSound(w: World, e: Turn)
    requires Sound(w)
    ensures Sound(Races.Step(w, e))
  {
    StepKeepsInv(w, e);
  }

  lemma StepMaySend(w: World, e: Turn)
    requires Sound(w)
    ensures CanSend(Races.Step(w, e).wait) <==> ArrivalWrite(w, e) || (CanSend(w.wait) && !ScanWriting()(w, e))
  {
    if e.action.Run? && e.action.k < |w.threads| {
      assert ThreadOk(w.threads[e.action.k], w.wait);
    }
  }

  predicate LastUnscanned(events: seq<Turn>, n: nat)
    requires n <= |events|
  {
    LastOn(Races.Step, Nothing, events, ArrivalWriting(), ScanWriting(), 0, n)
  }

  /** In every interleaving the record is there and unscanned exactly if an arrival has written it
      and no scan has since. */
  lemma {:induction false} UnscannedIff(events: seq<Turn>, n: nat)
    requires n <= |events|
    ensures CanSend(At(Races.Step, Nothing, events, n).wait) <==> LastUnscanned(events, n)
  {
    forall w: World, e: Turn | Sound(w)
      ensures Sound(Races.Step(w, e)) && (MaySend()(Races.Step(w, e)) <==> ArrivalWriting()(w, e) || (MaySend()(w) && !ScanWriting()(w, e)))
    {
      StepSound(w, e);
      StepMaySend(w, e);
    }
    SwitchedIff(Races.Step, Any, Sound, MaySend(), ArrivalWriting(), ScanWriting(), Nothing, events, n);
  }

  // ---- What a handler then sends ----

  /** The k-th handler, taken up at f, moves at f, g and n and not in between. */
  predicate MovesAt(events: seq<Turn>, k: nat, first: Pc, f: nat, g: nat, n: nat) {
    && f < g < n < |events|
    && RunsAt(At(Races.Step, Nothing, events, f), events[f], k, first)
    && events[g].action == Run(k) && events[n].action == Run(k)
    && Waits(events, k, f + 1, g) && Waits(events, k, g + 1, n)
  }

  function HandlerAt(events: seq<Turn>, k: nat, n: nat): Thread
    requires n <= |events| && k < |At(Races.Step, Nothing, events, n).threads|
  {
    At(Races.Step, Nothing, events, n).threads[k]
  }

  /** A handler still has the message it was started with. */
  lemma {:induction false} OneMove(events: seq<Turn>, k: nat, f: nat, g: nat)
    requires f < g < |events| && k < |At(Races.Step, Nothing, events, f).threads|
    requires events[f].action == Run(k) && Waits(events, k, f + 1, g)
    ensures k < |At(Races.Step, Nothing, events, g).threads|
    ensures HandlerAt(events, k, g) ==
      Advance(events[f].env, At(Races.Step, Nothing, events, f).wait, HandlerAt(events, k, f), events[f].at).1
  {
    AtNext(Races.Step, Nothing, events, f);
    ThreadWaits(Nothing, events, k, f + 1, g);
  }

  /** What the third move makes of the order, from what the first two have read. */
  function ThirdMove(a: Turn, v: Wait, b: Turn, v': Wait, c: Turn, v'': Wait, t: Thread): Wait {
    Advance(c.env, v'', Advance(b.env, v', Advance(a.env, v, t, a.at).1, b.at).1, c.at).0
  }

  lemma ThirdMoveAt(events: seq<Turn>, k: nat, first: Pc, f: nat, g: nat, n: nat)
    requires MovesAt(events, k, first, f, g, n)
    ensures At(Races.Step, Nothing, events, n + 1).wait ==
      ThirdMove(events[f], At(Races.Step, Nothing, events, f).wait, events[g], At(Races.Step, Nothing, events, g).wait,
                events[n], At(Races.Step, Nothing, events, n).wait, HandlerAt(events, k, f))
  {
    OneMove(events, k, f, g);
    OneMove(events, k, g, n);
    AtNext(Races.Step, Nothing, events, n);
  }

  predicate Ticks(v: Wait) {
    v.timer.Some? && Rank(v.timer.value.state) < 2
  }

  lemma WarningThirdMove(a: Turn, v: Wait, b: Turn, v': Wait, c: Turn, v'': Wait, t: Thread)
    requires t.pc.WarningFind?
    ensures ThirdMove(a, v, b, v', c, v'', t).sms ==
      if t.m.phone.Some? && Ticks(v) && CanSend(v') then v''.sms + [WarningSms(t.m.phone.value)] else v''.sms
  {}

  lemma JobThirdMove(a: Turn, v: Wait, b: Turn, v': Wait, c: Turn, v'': Wait, t: Thread)
    requires t.pc.JobFind?
    ensures ThirdMove(a, v, b, v', c, v'', t).notices ==
      if Ticks(v) && CanSend(v') then v''.notices + [OrderQrExpired(t.m.debtAmount, t.m.idNumber)] else v''.notices
  {}

  /** A warning job sends its message at its third move exactly if it has a phone number, the timer
      had been set running last when it looked it up, and the record had been written by an arrival
      and not by a scan since when it read it. */
  lemma WarningSentIff(events: seq<Turn>, k: nat, f: nat, g: nat, n: nat)
    requires MovesAt(events, k, WarningFind, f, g, n)
    ensures var sms, sms' := At(Races.Step, Nothing, events, n).wait.sms, At(Races.Step, Nothing, events, n + 1).wait.sms;
      var phone := HandlerAt(events, k, f).m.phone;
      sms' == if phone.Some? && LastSetRunning(events, f) && LastUnscanned(events, g) then sms + [WarningSms(phone.value)] else sms
  {
    var v, v', v'' := At(Races.Step, Nothing, events, f), At(Races.Step, Nothing, events, g), At(Races.Step, Nothing, events, n);
    RunningIff(events, f);
    UnscannedIff(events, g);
    ThirdMoveAt(events, k, WarningFind, f, g, n);
    WarningThirdMove(events[f], v.wait, events[g], v'.wait, events[n], v''.wait, v.threads[k]);
  }

  /** An expire job publishes the expiry at its third move, with the debt and id number it was
      given, exactly under the same two conditions. */
  lemma ExpiryPublishedIff(events: seq<Turn>, k: nat, f: nat, g: nat, n: nat)
    requires MovesAt(events, k, JobFind, f, g, n)
    ensures var notices, notices' := At(Races.Step, Nothing, events, n).wait.notices, At(Races.Step, Nothing, events, n + 1).wait.notices;
      var m := HandlerAt(events, k, f).m;
      notices' == if LastSetRunning(events, f) && LastUnscanned(events, g) then notices + [OrderQrExpired(m.debtAmount, m.idNumber)] else notices
  {
    var v, v', v'' := At(Races.Step, Nothing, events, f), At(Races.Step, Nothing, events, g), At(Races.Step, Nothing, events, n);
    RunningIff(events, f);
    UnscannedIff(events, g);
    ThirdMoveAt(events, k, JobFind, f, g, n);
    JobThirdMove(events[f], v.wait, events[g], v'.wait, events[n], v''.wait, v.threads[k]);
  }

  function Restarting(): (World, Turn) -> bool {
    (w: World, e: Turn) => Restarts(w, e)
  }

  lemma StepTimer(w: World, e: Turn)
    ensures Races.Step(w, e).wait.timer.Some? <==> w.wait.timer.Some? || Restarts(w, e)
  {}

  /** In every interleaving there is a timer exactly if an arrival has written one. */
  lemma {:induction false} TimerIff(events: seq<Turn>, n: nat)
    requires n <= |events|
    ensures At(Races.Step, Nothing, events, n).wait.timer.Some? <==> HappenedBefore(Races.Step, Nothing, events, Restarting(), n)
  {
    Races.InvKept();
    forall w: World, e: Turn ensures HasTimer()(Races.Step(w, e)) <==> HasTimer()(w) || Restarting()(w, e) {
      StepTimer(w, e);
    }
    TurnedOnIff(Races.Step, Any, Races.Inv, HasTimer(), Restarting(), Nothing, events, n);
  }

  lemma ExpiryThirdMove(a: Turn, v: Wait, b: Turn, v': Wait, c: Turn, v'': Wait, t: Thread)
    requires t.pc.ExpiryFind?
    ensures ThirdMove(a, v, b, v', c, v'', t).sms ==
      if t.m.phone.Some? && (v.timer.None? || Ticks(v)) && CanSend(v')
      then v''.sms + [FraudSms(t.m.phone.value, t.m.debtAmount, if t.m.idNumber == "" then "UNKNOWN" else t.m.idNumber)]
      else v''.sms
  {}

  /** An expiry message sends the fraud message at its third move, with the debt and id number it
      names, exactly if it has a phone number, no arrival had written the timer when it looked it up
      or the timer had been set running last, and the record had been written by an arrival and not
      by a scan since when it read it. */
  lemma FraudSentIff(events: seq<Turn>, k: nat, f: nat, g: nat, n: nat)
    requires MovesAt(events, k, ExpiryFind, f, g, n)
    ensures var sms, sms' := At(Races.Step, Nothing, events, n).wait.sms, At(Races.Step, Nothing, events, n + 1).wait.sms;
      var m, idle := HandlerAt(events, k, f).m, !HappenedBefore(Races.Step, Nothing, events, Restarting(), f);
      sms' == if m.phone.Some? && (idle || LastSetRunning(events, f)) && LastUnscanned(events, g)
        then sms + [FraudSms(m.phone.value, m.debtAmount, if m.idNumber == "" then "UNKNOWN" else m.idNumber)] else sms
  {
    var v, v', v'' := At(Races.Step, Nothing, events, f), At(Races.Step, Nothing, events, g), At(Races.Step, Nothing, events, n);
    RunningIff(events, f);
    TimerIff(events, f);
    UnscannedIff(events, g);
    ThirdMoveAt(events, k, ExpiryFind, f, g, n);
    ExpiryThirdMove(events[f], v.wait, events[g], v'.wait, events[n], v''.wait, v.threads[k]);
  }
}
