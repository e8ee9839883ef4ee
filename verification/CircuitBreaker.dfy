/** The gateway's circuit breaker (apiGateway/src/grpc/circuit-breaker.js).

    The breaker keeps three fields. Here every canAttempt, markSuccess and markFailure
    is one event of a history, in whatever order overlapping calls produce them, and the
    three fields are proved to be functions of that history alone. */
module CircuitBreaker {
  import opened Arithmetic

  datatype State = Closed | Open | HalfOpen

  /** One entry per call of canAttempt, markSuccess or markFailure, with its Date.now(). */
  datatype Event = Attempted(at: int) | Succeeded(at: int) | Failed(at: int)

  datatype Config = Config(failureThreshold: int, resetTimeoutMs: int) {
    /** A threshold below one opens on the first failure, exactly as a threshold of one. */
    function Threshold(): (t: int)
      ensures t >= 1
    {
      if failureThreshold < 1 then 1 else failureThreshold
    }
  }

  // ---- What a history means ----

  function AllButLast(h: seq<Event>): seq<Event>
    requires h != []
  {
    h[..|h| - 1]
  }

  /** The completion log: true for a success, false for a failure. */
  function Completions(h: seq<Event>): seq<bool> {
    if h == [] then []
    else match h[|h| - 1]
      case Attempted(_) => Completions(AllButLast(h))
      case Succeeded(_) => Completions(AllButLast(h)) + [true]
      case Failed(_) => Completions(AllButLast(h)) + [false]
  }

  /** How many completions at the end of the log are failures. */
  function TrailingFailures(log: seq<bool>): nat {
    if log == [] || log[|log| - 1] then 0 else TrailingFailures(log[..|log| - 1]) + 1
  }

  /** When the latest failure completed; 0 before any failure. */
  function LastFailureAt(h: seq<Event>): int {
    if h == [] then 0
    else if h[|h| - 1].Failed? then h[|h| - 1].at
    else LastFailureAt(AllButLast(h))
  }

  /** Some attempt since the latest completion came once the open window had elapsed. */
  predicate Probed(cfg: Config, h: seq<Event>) {
    && h != []
    && h[|h| - 1].Attempted?
    && (h[|h| - 1].at >= LastFailureAt(h) + cfg.resetTimeoutMs || Probed(cfg, AllButLast(h)))
  }

  predicate Tripped(cfg: Config, h: seq<Event>) {
    TrailingFailures(Completions(h)) >= cfg.Threshold()
  }

  function StateOf(cfg: Config, h: seq<Event>): State {
    if !Tripped(cfg, h) then Closed
    else if Probed(cfg, h) then HalfOpen
    else Open
  }

  /** The next call is let through. */
  predicate Admits(cfg: Config, h: seq<Event>, now: int) {
    StateOf(cfg, h) == Open ==> now >= LastFailureAt(h) + cfg.resetTimeoutMs
  }

  lemma {:induction false} TrailingFailuresAtMostAll(log: seq<bool>)
    ensures TrailingFailures(log) <= |log|
  {
    if log != [] {
      TrailingFailuresAtMostAll(log[..|log| - 1]);
    }
  }

  /** The trailing count is the unique n such that the last n completions failed
      and the one before them, if any, succeeded. */
  lemma {:induction false} TrailingFailuresIsTheRun(log: seq<bool>, n: nat)
    ensures n == TrailingFailures(log) <==>
      && n <= |log|
      && (forall i :: |log| - n <= i < |log| ==> !log[i])
      && (n < |log| ==> log[|log| - n - 1])
  {
    if 0 < n <= |log| {
      var front := log[..|log| - 1];
      TrailingFailuresIsTheRun(front, n - 1);
      assert forall i :: 0 <= i < |front| ==> front[i] == log[i];
    } else if log != [] {
      TrailingFailuresAtMostAll(log);
    }
  }

  lemma {:induction false} AfterAttempt(cfg: Config, h: seq<Event>, at: int)
    ensures Completions(h + [Attempted(at)]) == Completions(h)
    ensures LastFailureAt(h + [Attempted(at)]) == LastFailureAt(h)
    ensures Tripped(cfg, h) ==> (StateOf(cfg, h + [Attempted(at)]) == Open <==> !Admits(cfg, h, at))
  {
    assert AllButLast(h + [Attempted(at)]) == h;
  }

  lemma {:induction false} AfterFailure(cfg: Config, h: seq<Event>, at: int)
    ensures TrailingFailures(Completions(h + [Failed(at)])) == TrailingFailures(Completions(h)) + 1
    ensures LastFailureAt(h + [Failed(at)]) == at
    ensures !Probed(cfg, h + [Failed(at)])
    ensures Tripped(cfg, h + [Failed(at)]) <==> TrailingFailures(Completions(h)) + 1 >= cfg.Threshold()
    ensures StateOf(cfg, h + [Failed(at)]) == if TrailingFailures(Completions(h)) + 1 >= cfg.Threshold() then Open else Closed
  {
    assert AllButLast(h + [Failed(at)]) == h;
    OneMoreFailure(Completions(h));
  }

  lemma {:induction false} OneMoreFailure(log: seq<bool>)
    ensures TrailingFailures(log + [false]) == TrailingFailures(log) + 1
  {
    assert (log + [false])[..|log|] == log;
  }

  // ---- The breaker ----

  /** The three fields of a breaker with the given history. */
  predicate FieldsAre(cfg: Config, state: State, consecutiveFailures: int, nextAttemptAt: int, h: seq<Event>) {
    && state == StateOf(cfg, h)
    && consecutiveFailures == TrailingFailures(Completions(h))
    && nextAttemptAt == (if Tripped(cfg, h) then LastFailureAt(h) + cfg.resetTimeoutMs else 0)
  }

  lemma FieldsAfterFailure(cfg: Config, state: State, failures: int, next: int, h: seq<Event>, at: int)
    requires FieldsAre(cfg, state, failures, next, h)
    ensures var opens := state == HalfOpen || failures + 1 >= cfg.failureThreshold;
      FieldsAre(cfg, if opens then Open else state, failures + 1, if opens then at + cfg.resetTimeoutMs else next, h + [Failed(at)])
  {
    AfterFailure(cfg, h, at);
  }

  datatype Outcome = Rejected | Returned | Threw

  class Breaker {
    const cfg: Config
    var state: State
    var consecutiveFailures: int
    var nextAttemptAt: int
    ghost var history: seq<Event>

    /** The fields are what the history says they are, for any overlap of calls. */
    ghost predicate Valid()
      reads this
    {
      FieldsAre(cfg, state, consecutiveFailures, nextAttemptAt, history)
    }

    constructor (cfg: Config)
      ensures Valid() && history == [] && this.cfg == cfg
    {
      this.cfg := cfg;
      state := Closed;
      consecutiveFailures := 0;
      nextAttemptAt := 0;
      history := [];
    }

    method TransitionTo(nextState: State)
      modifies this`state
      ensures state == nextState
    {
      if state == nextState {
        return;
      }
      state := nextState;
    }

    method MarkSuccess(now: int)
      requires Valid()
      modifies this
      ensures Valid() && history == old(history) + [Succeeded(now)]
      ensures state == Closed
    {
      consecutiveFailures := 0;
      nextAttemptAt := 0;
      TransitionTo(Closed);
      history := history + [Succeeded(now)];
    }

    method MarkFailure(now: int)
      requires Valid()
      modifies this
      ensures Valid() && history == old(history) + [Failed(now)]
    {
      FieldsAfterFailure(cfg, state, consecutiveFailures, nextAttemptAt, history, now);
      consecutiveFailures := consecutiveFailures + 1;
      if state == HalfOpen || consecutiveFailures >= cfg.failureThreshold {
        nextAttemptAt := now + cfg.resetTimeoutMs;
        TransitionTo(Open);
      }
      history := history + [Failed(now)];
    }

    method CanAttempt(now: int) returns (ok: bool)
      requires Valid()
      modifies this
      ensures Valid() && history == old(history) + [Attempted(now)]
      ensures ok == Admits(cfg, old(history), now)
    {
      ghost var before := history;
      history := history + [Attempted(now)];
      assert AllButLast(history) == before;
      if state != Open {
        return true;
      }
      if now >= nextAttemptAt {
        TransitionTo(HalfOpen);
        return true;
      }
      return false;
    }

    /** A call during which no other call on this breaker makes a move. */
    method Execute(startedAt: int, settledAt: int, succeeds: bool) returns (r: Outcome)
      requires Valid()
      modifies this
      ensures Valid()
      ensures r == Rejected <==> !Admits(cfg, old(history), startedAt)
      ensures r != Rejected ==> r == if succeeds then Returned else Threw
      ensures history == old(history) + [Attempted(startedAt)]
        + (if r == Rejected then [] else if succeeds then [Succeeded(settledAt)] else [Failed(settledAt)])
    {
      var allowed := CanAttempt(startedAt);
      if !allowed {
        return Rejected;
      }
      if succeeds {
        MarkSuccess(settledAt);
        return Returned;
      } else {
        MarkFailure(settledAt);
        return Threw;
      }
    }
  }

  // ---- How often a dead upstream is called ----

  datatype Call = Call(startedAt: int, settledAt: int)

  /** Each call settles before the next one starts, and all start within [from, until]. */
  predicate OneAtATime(calls: seq<Call>, from: int, until: int) {
    calls != [] ==>
      && from <= calls[0].startedAt <= until
      && calls[0].startedAt <= calls[0].settledAt
      && OneAtATime(calls[1..], calls[0].settledAt, until)
  }

  /** What one Execute against an always failing upstream adds to the history. */
  function AfterFailingCall(cfg: Config, h: seq<Event>, c: Call): seq<Event> {
    if Admits(cfg, h, c.startedAt)
    then h + [Attempted(c.startedAt), Failed(c.settledAt)]
    else h + [Attempted(c.startedAt)]
  }

  /** How many of the calls reach the upstream, which fails every one of them. */
  function Reached(cfg: Config, h: seq<Event>, calls: seq<Call>): nat
    decreases |calls|
  {
    if calls == [] then 0
    else
      var rest := Reached(cfg, AfterFailingCall(cfg, h, calls[0]), calls[1..]);
      if Admits(cfg, h, calls[0].startedAt) then 1 + rest else rest
  }

  lemma {:induction false} AfterAdmittedFailure(cfg: Config, h: seq<Event>, c: Call)
    ensures var h' := h + [Attempted(c.startedAt), Failed(c.settledAt)];
      && TrailingFailures(Completions(h')) == TrailingFailures(Completions(h)) + 1
      && LastFailureAt(h') == c.settledAt
      && !Probed(cfg, h')
  {
    var h1 := h + [Attempted(c.startedAt)];
    assert h1 + [Failed(c.settledAt)] == h + [Attempted(c.startedAt), Failed(c.settledAt)];
    AfterAttempt(cfg, h, c.startedAt);
    AfterFailure(cfg, h1, c.settledAt);
  }

  /** Time that passes takes no windows away, and a whole one takes one. */
  lemma WindowSpent(d: int, last: int, at: int, until: int)
    requires d > 0 && last + d <= at
    ensures at <= until ==> (until - at) / d + 1 <= (until - last) / d
    ensures last + d <= until ==> 1 <= (until - last) / d
  {
    DivStep(until - last - d, until - last, d);
    if at <= until {
      DivStep(until - at, until - last - d, d);
    }
    if last + d <= until {
      DivStep(0, until - last - d, d);
    }
  }

  lemma {:induction false} OpenStaysOpen(cfg: Config, h: seq<Event>, c: Call)
    requires StateOf(cfg, h) == Open
    ensures var h' := AfterFailingCall(cfg, h, c);
      && StateOf(cfg, h') == Open && Tripped(cfg, h')
      && (if Admits(cfg, h, c.startedAt) then LastFailureAt(h) + cfg.resetTimeoutMs <= c.startedAt && LastFailureAt(h') == c.settledAt
          else LastFailureAt(h') == LastFailureAt(h))
  {
    if Admits(cfg, h, c.startedAt) {
      AfterAdmittedFailure(cfg, h, c);
    } else {
      AfterAttempt(cfg, h, c.startedAt);
    }
  }

  /** Once open, admitted calls are at least one reset timeout apart. */
  lemma {:induction false} OpenBound(cfg: Config, h: seq<Event>, calls: seq<Call>, from: int, until: int)
    requires cfg.resetTimeoutMs > 0 && StateOf(cfg, h) == Open
    requires LastFailureAt(h) <= from && LastFailureAt(h) <= until
    requires OneAtATime(calls, from, until)
    ensures Reached(cfg, h, calls) <= (until - LastFailureAt(h)) / cfg.resetTimeoutMs
    decreases |calls|
  {
    if calls == [] {
      WindowsOrdered(cfg.resetTimeoutMs, LastFailureAt(h), until, until);
    } else {
      var c, h' := calls[0], AfterFailingCall(cfg, h, calls[0]);
      OpenStaysOpen(cfg, h, c);
      if !Admits(cfg, h, c.startedAt) {
        OpenBound(cfg, h', calls[1..], c.settledAt, until);
      } else {
        WindowSpent(cfg.resetTimeoutMs, LastFailureAt(h), c.settledAt, until);
        if c.settledAt <= until {
          OpenBound(cfg, h', calls[1..], c.settledAt, until);
        } else {
          assert calls[1..] == [];
        }
      }
    }
  }

  /** Calls the breaker still lets through without waiting. */
  function Slack(cfg: Config, h: seq<Event>): int {
    if Tripped(cfg, h) then 1 else cfg.Threshold() - TrailingFailures(Completions(h))
  }

  /** A failing call uses up one of the calls let through without waiting. */
  lemma SlackAfter(cfg: Config, h: seq<Event>, c: Call)
    requires Admits(cfg, h, c.startedAt)
    ensures var h' := AfterFailingCall(cfg, h, c);
      if Tripped(cfg, h') then StateOf(cfg, h') == Open && LastFailureAt(h') == c.settledAt && Slack(cfg, h) >= 1
      else !Tripped(cfg, h) && Slack(cfg, h') == Slack(cfg, h) - 1
  {
    AfterAdmittedFailure(cfg, h, c);
  }

  /** From any history at all, one-at-a-time calls to a dead upstream reach it at most
      Slack + floor(T / resetTimeoutMs) times within T milliseconds. */
  lemma {:induction false} DeadUpstreamBound(cfg: Config, h: seq<Event>, calls: seq<Call>, from: int, until: int)
    requires cfg.resetTimeoutMs > 0 && from <= until && OneAtATime(calls, from, until)
    ensures Reached(cfg, h, calls) <= Slack(cfg, h) + (until - from) / cfg.resetTimeoutMs
    decreases |calls|
  {
    SlackIsPositive(cfg, h);
    WindowsOrdered(cfg.resetTimeoutMs, from, until, until);
    if calls != [] {
      var c, h' := calls[0], AfterFailingCall(cfg, h, calls[0]);
      if c.settledAt > until {
        assert calls[1..] == [];
      } else {
        WindowsOrdered(cfg.resetTimeoutMs, from, c.settledAt, until);
        if !Admits(cfg, h, c.startedAt) {
          OpenStaysOpen(cfg, h, c);
          DeadUpstreamBound(cfg, h', calls[1..], c.settledAt, until);
        } else {
          SlackAfter(cfg, h, c);
          if Tripped(cfg, h') {
            OpenBound(cfg, h', calls[1..], c.settledAt, until);
          } else {
            DeadUpstreamBound(cfg, h', calls[1..], c.settledAt, until);
          }
        }
      }
    }
  }

  lemma SlackIsPositive(cfg: Config, h: seq<Event>)
    ensures Slack(cfg, h) >= 1
  {}

  lemma WindowsOrdered(d: int, from: int, at: int, until: int)
    requires d > 0 && from <= at <= until
    ensures 0 <= (until - at) / d <= (until - from) / d
  {
    DivStep(0, until - at, d);
    DivStep(until - at, until - from, d);
  }

  /** A fresh breaker: at most threshold + floor(T / reset) calls start in T milliseconds. */
  lemma {:induction false} FreshBreakerBound(cfg: Config, calls: seq<Call>, from: int, until: int)
    requires cfg.resetTimeoutMs > 0 && from <= until && OneAtATime(calls, from, until)
    ensures Reached(cfg, [], calls) <= cfg.Threshold() + (until - from) / cfg.resetTimeoutMs
  {
    DeadUpstreamBound(cfg, [], calls, from, until);
  }

  /** n instant calls at time at, then one instant call at each of the next m reset timeouts. */
  function Densest(cfg: Config, at: int, n: nat, m: nat): seq<Call>
    decreases m, n
  {
    if n > 0 then [Call(at, at)] + Densest(cfg, at, n - 1, m)
    else if m > 0 then
      var next := at + cfg.resetTimeoutMs;
      [Call(next, next)] + Densest(cfg, next, 0, m - 1)
    else []
  }

  /** The bound cannot be improved: some one-at-a-time schedule meets it exactly. */
  lemma {:induction false} DensestReachesAll(cfg: Config, h: seq<Event>, at: int, n: nat, m: nat)
    requires cfg.resetTimeoutMs > 0
    requires if Tripped(cfg, h) then n == 0 && StateOf(cfg, h) == Open && LastFailureAt(h) == at
             else n == Slack(cfg, h)
    ensures OneAtATime(Densest(cfg, at, n, m), at, at + m * cfg.resetTimeoutMs)
    ensures Reached(cfg, h, Densest(cfg, at, n, m)) == n + m
    decreases m, n
  {
    var calls := Densest(cfg, at, n, m);
    if n > 0 {
      AfterAdmittedFailure(cfg, h, calls[0]);
      assert Admits(cfg, h, calls[0].startedAt);
      DensestReachesAll(cfg, AfterFailingCall(cfg, h, calls[0]), at, n - 1, m);
      assert calls[1..] == Densest(cfg, at, n - 1, m);
      MulMono(0, m, cfg.resetTimeoutMs);
    } else if m > 0 {
      var next := at + cfg.resetTimeoutMs;
      AfterAdmittedFailure(cfg, h, calls[0]);
      DensestReachesAll(cfg, AfterFailingCall(cfg, h, calls[0]), next, 0, m - 1);
      assert calls[1..] == Densest(cfg, next, 0, m - 1);
      assert at + m * cfg.resetTimeoutMs == next + (m - 1) * cfg.resetTimeoutMs;
      MulMono(0, m - 1, cfg.resetTimeoutMs);
    }
  }

  /** Overlap breaks the bound: while half open and nothing has settled, every attempt passes. */
  lemma {:induction false} HalfOpenAdmitsEveryOverlappingCall(cfg: Config, h: seq<Event>, attempts: seq<int>)
    requires StateOf(cfg, h) == HalfOpen
    ensures var h' := h + seq(|attempts|, i requires 0 <= i < |attempts| => Attempted(attempts[i]));
      StateOf(cfg, h') == HalfOpen && forall now :: Admits(cfg, h', now)
    decreases |attempts|
  {
    var h' := h + seq(|attempts|, i requires 0 <= i < |attempts| => Attempted(attempts[i]));
    if attempts == [] {
      assert h' == h;
    } else {
      var front := attempts[..|attempts| - 1];
      var mid := h + seq(|front|, i requires 0 <= i < |front| => Attempted(front[i]));
      HalfOpenAdmitsEveryOverlappingCall(cfg, h, front);
      assert h' == mid + [Attempted(attempts[|attempts| - 1])];
      AfterAttempt(cfg, mid, attempts[|attempts| - 1]);
      assert AllButLast(h') == mid;
    }
  }

  // ---- Overlapping calls to a dead upstream ----

  /** A call is tried, or one that got through settles, by failing. */
  datatype Move = Try(at: int) | Settle(at: int)

  /** The moves come in time order within [from, until]; only calls in flight settle, and no call
      gets through while c are in flight. k: how many are. */
  predicate Overlapping(cfg: Config, c: nat, h: seq<Event>, k: nat, moves: seq<Move>, from: int, until: int)
    decreases |moves|
  {
    moves != [] ==>
      && from <= moves[0].at <= until
      && match moves[0]
         case Try(at) =>
           var admitted := Admits(cfg, h, at);
           (admitted ==> k < c)
           && Overlapping(cfg, c, h + [Attempted(at)], if admitted then k + 1 else k, moves[1..], at, until)
         case Settle(at) => k > 0 && Overlapping(cfg, c, h + [Failed(at)], k - 1, moves[1..], at, until)
  }

  /** How many calls get through. */
  function Started(cfg: Config, h: seq<Event>, moves: seq<Move>): nat
    decreases |moves|
  {
    if moves == [] then 0
    else match moves[0]
      case Try(at) => Started(cfg, h + [Attempted(at)], moves[1..]) + if Admits(cfg, h, at) then 1 else 0
      case Settle(at) => Started(cfg, h + [Failed(at)], moves[1..])
  }

  /** How many more calls can get through by until, with k in flight at now. */
  function Allowance(cfg: Config, c: nat, h: seq<Event>, k: nat, now: int, until: int): int
    requires cfg.resetTimeoutMs > 0
  {
    var from := if StateOf(cfg, h) == Open then LastFailureAt(h) else now;
    AllowanceWith(cfg, c, h, k, c * ((until - from) / cfg.resetTimeoutMs))
  }

  lemma {:induction false} AfterTry(cfg: Config, c: nat, h: seq<Event>, k: nat, now: int, at: int, until: int)
    requires cfg.resetTimeoutMs > 0 && k <= c && now <= at <= until
    requires StateOf(cfg, h) == Open ==> LastFailureAt(h) <= now
    requires Admits(cfg, h, at) ==> k < c
    ensures var admitted := Admits(cfg, h, at);
      Allowance(cfg, c, h + [Attempted(at)], if admitted then k + 1 else k, at, until) + (if admitted then 1 else 0)
        <= Allowance(cfg, c, h, k, now, until)
    ensures StateOf(cfg, h + [Attempted(at)]) == Open ==> LastFailureAt(h + [Attempted(at)]) <= at
  {
    AfterAttempt(cfg, h, at);
    assert AllButLast(h + [Attempted(at)]) == h;
    WindowsShrink(c, cfg.resetTimeoutMs, now, at, until);
    if StateOf(cfg, h) == Open {
      WindowsShrink(c, cfg.resetTimeoutMs, LastFailureAt(h), at, until);
    }
  }

  /** The allowance with the windows left as plain numbers. */
  function AllowanceWith(cfg: Config, c: nat, h: seq<Event>, k: nat, windows: int): int {
    match StateOf(cfg, h)
    case Closed => cfg.Threshold() - TrailingFailures(Completions(h)) - 1 + (c - k) + windows
    case HalfOpen => (c - k) + windows
    case Open => windows
  }

  lemma SettledAllowance(cfg: Config, c: nat, h: seq<Event>, k: nat, at: int, before: int, after: int)
    requires 0 < k <= c && after <= before
    ensures AllowanceWith(cfg, c, h + [Failed(at)], k - 1, after) <= AllowanceWith(cfg, c, h, k, before)
  {
    AfterFailure(cfg, h, at);
  }

  lemma {:induction false} AfterSettle(cfg: Config, c: nat, h: seq<Event>, k: nat, now: int, at: int, until: int)
    requires cfg.resetTimeoutMs > 0 && 0 < k <= c && now <= at <= until
    requires StateOf(cfg, h) == Open ==> LastFailureAt(h) <= now
    ensures Allowance(cfg, c, h + [Failed(at)], k - 1, at, until) <= Allowance(cfg, c, h, k, now, until)
    ensures StateOf(cfg, h + [Failed(at)]) == Open ==> LastFailureAt(h + [Failed(at)]) <= at
  {
    AfterFailure(cfg, h, at);
    var from := if StateOf(cfg, h) == Open then LastFailureAt(h) else now;
    WindowsShrink(c, cfg.resetTimeoutMs, from, at, until);
    SettledAllowance(cfg, c, h, k, at, c * ((until - from) / cfg.resetTimeoutMs), c * ((until - at) / cfg.resetTimeoutMs));
  }

  /** With at most c calls in flight, at most the allowance gets through. */
  lemma {:induction false} OverlapBound(cfg: Config, c: nat, h: seq<Event>, k: nat, moves: seq<Move>, now: int, until: int)
    requires cfg.resetTimeoutMs > 0 && k <= c && now <= until && Overlapping(cfg, c, h, k, moves, now, until)
    requires StateOf(cfg, h) == Open ==> LastFailureAt(h) <= now
    ensures Started(cfg, h, moves) <= Allowance(cfg, c, h, k, now, until)
    decreases |moves|
  {
    if moves == [] {
      WindowsShrink(c, cfg.resetTimeoutMs, now, until, until);
      if StateOf(cfg, h) == Open {
        WindowsShrink(c, cfg.resetTimeoutMs, LastFailureAt(h), until, until);
      }
    } else if moves[0].Try? {
      var at, admitted := moves[0].at, Admits(cfg, h, moves[0].at);
      AfterTry(cfg, c, h, k, now, at, until);
      OverlapBound(cfg, c, h + [Attempted(at)], if admitted then k + 1 else k, moves[1..], at, until);
    } else {
      AfterSettle(cfg, c, h, k, now, moves[0].at, until);
      OverlapBound(cfg, c, h + [Failed(moves[0].at)], k - 1, moves[1..], moves[0].at, until);
    }
  }

  /** However calls to a dead upstream overlap, with at most c in flight a fresh breaker lets at
      most threshold + c - 1 + c * floor(T / reset) through in T milliseconds. */
  lemma {:induction false} FreshOverlapBound(cfg: Config, c: nat, moves: seq<Move>, from: int, until: int)
    requires cfg.resetTimeoutMs > 0 && c > 0 && from <= until && Overlapping(cfg, c, [], 0, moves, from, until)
    ensures Started(cfg, [], moves) <= cfg.Threshold() + c - 1 + c * ((until - from) / cfg.resetTimeoutMs)
  {
    OverlapBound(cfg, c, [], 0, moves, from, until);
  }
}
