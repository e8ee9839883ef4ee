/** Wrong guesses at one code with every await of verifyCode and incrementAttemptsAndMaybeLock
    as a separate step: guesses overlap, and their counts land later or get lost. */
module OtpRaces {
  import opened Options
  import opened Arithmetic
  import opened OtpCode

  /** A wrong guess arrives and is compared, unless the record refuses it; one that was compared
      reads the record again to count itself; and saves the count. i: which one in flight. */
  datatype Move = Compare(at: int) | Reread(at: int, i: nat) | Save(at: int, i: nat)

  /** The record, and the compared guesses whose counts are still to be saved: None before the
      record is read again, then the attempts that were read. */
  datatype State = State(code: Code, flights: seq<Option<int>>)

  /** The record takes a guess at the given time. */
  predicate Accepts(c: Code, at: int) {
    at < c.expiresAt && (c.lockedUntil.Some? ==> c.lockedUntil.value <= at)
  }

  /** What doc.save() writes, from the attempts that were read. */
  function Saved(c: Code, read: int, at: int, lock: int): Code {
    c.(attempts := read + 1, lockedUntil := if read + 1 >= c.maxAttempts then Some(at + lock) else c.lockedUntil)
  }

  function Step(s: State, m: Move, lock: int): State {
    match m
    case Compare(at) => if Accepts(s.code, at) then s.(flights := s.flights + [None]) else s
    case Reread(_, i) => if i < |s.flights| then s.(flights := s.flights[i := Some(s.code.attempts)]) else s
    case Save(at, i) =>
      if i < |s.flights| && s.flights[i].Some?
      then State(Saved(s.code, s.flights[i].value, at, lock), s.flights[..i] + s.flights[i + 1..])
      else s
  }

  /** How many guesses are compared. */
  function ComparedIn(s: State, moves: seq<Move>, lock: int): nat
    decreases |moves|
  {
    if moves == [] then 0
    else ComparedIn(Step(s, moves[0], lock), moves[1..], lock) + if moves[0].Compare? && Accepts(s.code, moves[0].at) then 1 else 0
  }

  // ---- With nothing in between ----

  /** Compared, read again and saved at once, a wrong guess does what Guess says. */
  lemma UninterruptedIsGuess(c: Code, provided: Digest, at: int, lock: int)
    requires provided != c.codeHash
    ensures var s := Step(Step(Step(State(c, []), Compare(at), lock), Reread(at, 0), lock), Save(at, 0), lock);
      && s.flights == [] && Guess(Some(c), provided, at, lock).1 == Some(s.code)
      && (Compared(Guess(Some(c), provided, at, lock).0) <==> Accepts(c, at))
  {
    var s1 := Step(State(c, []), Compare(at), lock);
    if Accepts(c, at) {
      assert s1.flights == [None];
      assert Step(s1, Reread(at, 0), lock).flights == [Some(c.attempts)];
    }
  }

  // ---- What overlap does ----

  function Compares(at: int, n: nat): seq<Move> {
    seq(n, i requires 0 <= i < n => Compare(at))
  }

  /** Any number of guesses that arrive before a count lands is compared, whatever the limit. */
  lemma {:induction false} OverlapComparesAll(s: State, at: int, n: nat, lock: int)
    requires Accepts(s.code, at)
    ensures ComparedIn(s, Compares(at, n), lock) == n
    decreases n
  {
    if n > 0 {
      assert Compares(at, n)[1..] == Compares(at, n - 1);
      OverlapComparesAll(Step(s, Compare(at), lock), at, n - 1, lock);
    }
  }

  /** A save counts its guess exactly when the record still holds the attempts it has read. */
  lemma CountedIff(s: State, at: int, i: nat, lock: int)
    requires i < |s.flights| && s.flights[i].Some?
    ensures Step(s, Save(at, i), lock).code.attempts == s.code.attempts + 1 <==> s.flights[i] == Some(s.code.attempts)
    ensures s.flights[i] == Some(s.code.attempts) ==> Step(s, Save(at, i), lock).code == AfterWrong(s.code, at, lock)
  {}

  // ---- The bound, when no count is lost ----

  /** Time goes on, no guess is taken while c are in flight, and no save is out of date. */
  predicate Counted(c: nat, s: State, moves: seq<Move>, from: int, lock: int)
    decreases |moves|
  {
    moves != [] ==>
      && from <= moves[0].at
      && (match moves[0]
          case Compare(at) => Accepts(s.code, at) ==> |s.flights| < c
          case Reread(_, i) => i < |s.flights|
          case Save(_, i) => i < |s.flights| && s.flights[i] == Some(s.code.attempts))
      && Counted(c, Step(s, moves[0], lock), moves[1..], moves[0].at, lock)
  }

  /** A lock was set at most one lock time before it ends. */
  predicate LockedBy(c: Code, now: int, lock: int) {
    WellFormed(Some(c)) && (c.lockedUntil.Some? ==> c.lockedUntil.value - lock <= now)
  }

  /** From when the record's remaining time is counted in whole lock times. */
  function CountFrom(c: Code, now: int, lock: int): int {
    if c.lockedUntil.Some? && c.lockedUntil.value > now then c.lockedUntil.value - lock else now
  }

  function AllowanceWith(c: nat, code: Code, k: nat, now: int, windows: int): int {
    if code.lockedUntil.None? then Limit(code.maxAttempts) - code.attempts - 1 + (c - k) + windows
    else if code.lockedUntil.value > now then windows
    else (c - k) + windows
  }

  /** The most guesses that can still be compared, with k in flight at now. */
  function Allowance(c: nat, code: Code, k: nat, now: int, lock: int): int
    requires lock > 0
  {
    AllowanceWith(c, code, k, now, c * ((code.expiresAt - 1 - CountFrom(code, now, lock)) / lock))
  }

  lemma AllowanceNotNegative(c: nat, code: Code, k: nat, now: int, lock: int)
    requires lock > 0 && LockedBy(code, now, lock) && k <= c && now < code.expiresAt
    ensures Allowance(c, code, k, now, lock) >= 0
  {
    WindowsShrink(c, lock, CountFrom(code, now, lock), code.expiresAt - 1, code.expiresAt - 1);
    WindowsShrink(c, lock, CountFrom(code, now, lock), now, code.expiresAt - 1);
  }

  /** Waiting allows no more guesses. */
  lemma WaitingAllowsNoMore(c: nat, code: Code, k: nat, now: int, at: int, lock: int)
    requires lock > 0 && LockedBy(code, now, lock) && k <= c && now <= at < code.expiresAt
    ensures Allowance(c, code, k, at, lock) <= Allowance(c, code, k, now, lock)
  {
    WindowsShrink(c, lock, CountFrom(code, now, lock), CountFrom(code, at, lock), code.expiresAt - 1);
  }

  lemma TryUsesOne(c: nat, code: Code, k: nat, at: int, lock: int)
    requires lock > 0 && Accepts(code, at) && k < c
    ensures Allowance(c, code, k + 1, at, lock) + 1 == Allowance(c, code, k, at, lock)
  {}

  lemma SaveAllowsNoMore(c: nat, code: Code, k: nat, at: int, lock: int)
    requires lock > 0 && LockedBy(code, at, lock) && 0 < k <= c && at < code.expiresAt
    ensures var code' := AfterWrong(code, at, lock);
      LockedBy(code', at, lock) && Allowance(c, code', k - 1, at, lock) <= Allowance(c, code, k, at, lock)
  {
    WindowsShrink(c, lock, CountFrom(code, at, lock), at, code.expiresAt - 1);
  }

  lemma StepFrame(s: State, m: Move, lock: int)
    ensures Step(s, m, lock).code.expiresAt == s.code.expiresAt
    ensures !m.Save? ==> Step(s, m, lock).code == s.code
  {}

  lemma {:induction false} NothingAfterExpiry(c: nat, s: State, moves: seq<Move>, from: int, lock: int)
    requires Counted(c, s, moves, from, lock) && from >= s.code.expiresAt
    ensures ComparedIn(s, moves, lock) == 0
    decreases |moves|
  {
    if moves != [] {
      StepFrame(s, moves[0], lock);
      NothingAfterExpiry(c, Step(s, moves[0], lock), moves[1..], moves[0].at, lock);
    }
  }

  /** One move before the record expires. */
  lemma MoveAllowance(c: nat, s: State, m: Move, now: int, lock: int)
    requires lock > 0 && LockedBy(s.code, now, lock) && |s.flights| <= c && now <= m.at < s.code.expiresAt
    requires m.Compare? && Accepts(s.code, m.at) ==> |s.flights| < c
    requires m.Save? ==> m.i < |s.flights| && s.flights[m.i] == Some(s.code.attempts)
    ensures var s' := Step(s, m, lock);
      && LockedBy(s'.code, m.at, lock) && |s'.flights| <= c
      && Allowance(c, s'.code, |s'.flights|, m.at, lock) + (if m.Compare? && Accepts(s.code, m.at) then 1 else 0)
           <= Allowance(c, s.code, |s.flights|, now, lock)
  {
    WaitingAllowsNoMore(c, s.code, |s.flights|, now, m.at, lock);
    if m.Compare? && Accepts(s.code, m.at) {
      TryUsesOne(c, s.code, |s.flights|, m.at, lock);
    } else if m.Save? {
      CountedIff(s, m.at, m.i, lock);
      SaveAllowsNoMore(c, s.code, |s.flights|, m.at, lock);
    }
  }

  /** While no count is lost and at most c guesses are in flight, at most the allowance is compared. */
  lemma {:induction false} OverlapBound(c: nat, s: State, moves: seq<Move>, now: int, lock: int)
    requires lock > 0 && LockedBy(s.code, now, lock) && |s.flights| <= c && now < s.code.expiresAt
    requires Counted(c, s, moves, now, lock)
    ensures ComparedIn(s, moves, lock) <= Allowance(c, s.code, |s.flights|, now, lock)
    decreases |moves|
  {
    AllowanceNotNegative(c, s.code, |s.flights|, now, lock);
    if moves != [] {
      var m := moves[0];
      var s' := Step(s, m, lock);
      StepFrame(s, m, lock);
      if m.at < s.code.expiresAt {
        MoveAllowance(c, s, m, now, lock);
        OverlapBound(c, s', moves[1..], m.at, lock);
      } else {
        NothingAfterExpiry(c, s', moves[1..], m.at, lock);
      }
    }
  }

  /** For one issued code, with at most c wrong guesses in flight and no count lost, at most
      max - 1 + c * ceil(ttl / lock) are compared: the bound of the uninterrupted ones for c = 1. */
  lemma {:induction false} FreshOverlapBound(c: nat, codeHash: Digest, issuedAt: int, ttl: int, maxAttempts: int, lock: int, moves: seq<Move>)
    requires c > 0 && ttl > 0 && lock > 0
    requires Counted(c, State(NewCode(codeHash, issuedAt, ttl, maxAttempts), []), moves, issuedAt, lock)
    ensures ComparedIn(State(NewCode(codeHash, issuedAt, ttl, maxAttempts), []), moves, lock)
      <= Limit(maxAttempts) - 1 + c * CeilDiv(ttl, lock)
    ensures Limit(maxAttempts) - 1 + 1 * CeilDiv(ttl, lock) == GuessBound(ttl, maxAttempts, lock)
  {
    OverlapBound(c, State(NewCode(codeHash, issuedAt, ttl, maxAttempts), []), moves, issuedAt, lock);
    CeilDivAsFloor(ttl, lock);
    OneMoreWindow(c, (ttl - 1) / lock);
  }

  lemma OneMoreWindow(c: nat, q: int)
    ensures c * (q + 1) == c * q + c
  {}
}
