/** The driver-wait handlers as they run: two collections, two job tables and the logs of what
    was sent, updated in place, proved to do what DriverWait says of one order and to leave
    every other order alone. */
module DriverWaitService {
  import opened Options
  import opened DriverWait

  class Enforcement {
    const env: Env
    var timers: map<string, Timer>
    var states: map<string, OrderState>
    var warningJobs: map<string, Job>
    var expireJobs: map<string, Job>
    ghost var sms: map<string, seq<Sms>>
    ghost var notices: map<string, seq<Notice>>

    ghost function View(id: string): Wait
      reads this
    {
      Wait(Lookup(timers, id), Lookup(states, id), Lookup(warningJobs, id), Lookup(expireJobs, id),
           LogOf(sms, id), LogOf(notices, id))
    }

    constructor (env: Env)
      ensures this.env == env && forall id :: View(id) == NoWait
    {
      this.env := env;
      timers, states, warningJobs, expireJobs, sms, notices := map[], map[], map[], map[], map[], map[];
    }

    /** The write functions of the timer repository, with the state they set. */
    method SetTimer(id: string, timer: Timer)
      modifies this`timers
      ensures timers == old(timers)[id := timer]
    {
      timers := timers[id := timer];
    }

    method CancelTimer(id: string, now: int)
      modifies this`timers
      ensures View(id) == MarkCancelled(old(View(id)), now)
      ensures forall other :: other != id ==> View(other) == old(View(other))
    {
      if id in timers {
        SetTimer(id, timers[id].(state := Cancelled, cancelledAt := Some(now)));
      }
    }

    method CancelTimerJobsOf(id: string)
      modifies this`warningJobs, this`expireJobs
      ensures View(id) == CancelTimerJobs(old(View(id)))
      ensures forall other :: other != id ==> View(other) == old(View(other))
    {
      if id in warningJobs {
        warningJobs := warningJobs - {id};
      }
      if id in expireJobs {
        expireJobs := expireJobs - {id};
      }
    }

    method CanSendSmsForOrder(id: string) returns (ok: bool)
      ensures ok == CanSend(View(id))
    {
      if id !in states {
        return false;
      }
      return !states[id].qrScanned && !states[id].status.QrScanned?;
    }

    ghost method Send(id: string, one: Sms)
      modifies this`sms
      ensures View(id) == old(View(id)).(sms := old(View(id)).sms + [one])
      ensures forall other :: other != id ==> View(other) == old(View(other))
    {
      sms := sms[id := LogOf(sms, id) + [one]];
    }

    ghost method Notify(id: string, one: Notice)
      modifies this`notices
      ensures View(id) == old(View(id)).(notices := old(View(id)).notices + [one])
      ensures forall other :: other != id ==> View(other) == old(View(other))
    {
      notices := notices[id := LogOf(notices, id) + [one]];
    }

    method OnDriverArrived(id: string, m: Message, now: int)
      modifies this
      ensures View(id) == HandleDriverArrived(env, old(View(id)), m, now)
      ensures forall other :: other != id ==> View(other) == old(View(other))
    {
      SetTimer(id, Timer(Active, if m.arrivedAt.Some? then m.arrivedAt.value else now, None, None, None));
      states := states[id := OrderState(false, DriverArrived)];
      if id !in warningJobs {
        warningJobs := warningJobs[id := Job(m.phone, 0, "", now + env.warningOffset)];
      }
      if id !in expireJobs {
        expireJobs := expireJobs[id :=
          Job(m.phone, m.debtAmount, if m.idNumber == "" then "UNKNOWN" else m.idNumber, now + env.total)];
      }
    }

    method OnQrScanned(id: string, now: int)
      modifies this
      ensures View(id) == HandleQrScanned(old(View(id)), now)
      ensures forall other :: other != id ==> View(other) == old(View(other))
    {
      CancelTimerJobsOf(id);
      CancelTimer(id, now);
      states := states[id := OrderState(true, QrScanned)];
    }

    method OnQrExpired(id: string, m: Message, now: int)
      modifies this
      ensures View(id) == HandleQrExpired(old(View(id)), m, now)
      ensures forall other :: other != id ==> View(other) == old(View(other))
    {
      if id in timers && (timers[id].state.Expired? || timers[id].state.Cancelled?) {
        return;
      }
      var ok := CanSendSmsForOrder(id);
      if !ok {
        CancelTimer(id, now);
        CancelTimerJobsOf(id);
        return;
      }
      if m.phone.Some? {
        Send(id, FraudSms(m.phone.value, m.debtAmount, if m.idNumber == "" then "UNKNOWN" else m.idNumber));
      }
      assert forall other :: other != id ==> View(other) == old(View(other));
      if id in timers {
        SetTimer(id, timers[id].(state := Expired, expiredAt := Some(now)));
      }
      states := states[id := OrderState(id in states && states[id].qrScanned, QrExpired)];
      assert forall other :: other != id ==> View(other) == old(View(other));
      CancelTimerJobsOf(id);
    }

    method ProcessWarningJob(id: string, now: int)
      requires id in warningJobs
      modifies this
      ensures View(id) == ProcessWarning(old(View(id)), now)
      ensures forall other :: other != id ==> View(other) == old(View(other))
    {
      var job := warningJobs[id];
      warningJobs := warningJobs - {id};
      if id !in timers || timers[id].state !in {Active, WarningSent} {
        return;
      }
      if job.phone.Some? {
        var ok := CanSendSmsForOrder(id);
        if ok {
          Send(id, WarningSms(job.phone.value));
        }
      }
      assert forall other :: other != id ==> View(other) == old(View(other));
      SetTimer(id, timers[id].(state := WarningSent, warningSentAt := Some(now)));
      assert forall other :: other != id ==> View(other) == old(View(other));
      Notify(id, ThreeMinutesLeft);
    }

    method ProcessExpireJob(id: string, now: int)
      requires id in expireJobs
      modifies this
      ensures View(id) == ProcessExpire(old(View(id)), now)
      ensures forall other :: other != id ==> View(other) == old(View(other))
    {
      var job := expireJobs[id];
      expireJobs := expireJobs - {id};
      if id !in timers || timers[id].state == Cancelled || timers[id].state == Expired {
        return;
      }
      var ok := CanSendSmsForOrder(id);
      if !ok {
        CancelTimer(id, now);
        return;
      }
      Notify(id, OrderQrExpired(job.debtAmount, job.idNumber));
    }
  }

  function Lookup<V>(m: map<string, V>, id: string): Option<V> {
    if id in m then Some(m[id]) else None
  }

  function LogOf<V>(m: map<string, seq<V>>, id: string): seq<V> {
    if id in m then m[id] else []
  }
}
