/** One-time codes and fixed-window counters, as the e-mail and phone verification
    services of userService use them (email-verification.service.js,
    phone-verification.service.js and their repositories). */
module OtpCode {
  import opened Options
  import opened Arithmetic

  /** hmacSha256 over `identifier:code`: equal digests mean equal inputs. */
  datatype Digest = OtpDigest(identifier: string, otp: string)

  /** An unconsumed verification record. */
  datatype Code = Code(codeHash: Digest, expiresAt: int, attempts: int, maxAttempts: int, lockedUntil: Option<int>)

  datatype Verdict =
    | Missing      // no active record: never sent, consumed or expired
    | Refused      // locked: the guess is not compared
    | Wrong(lockedNow: bool)
    | Right

  predicate Compared(v: Verdict) {
    v.Wrong? || v.Right?
  }

  function NewCode(codeHash: Digest, now: int, ttl: int, maxAttempts: int): Code {
    Code(codeHash, now + ttl, 0, maxAttempts, None)
  }

  /** incrementAttemptsAndMaybeLock */
  function AfterWrong(c: Code, now: int, lock: int): Code {
    var attempts := c.attempts + 1;
    c.(attempts := attempts, lockedUntil := if attempts >= c.maxAttempts then Some(now + lock) else c.lockedUntil)
  }

  /** One guess against the stored record: what the caller sees, and what stays active. */
  function Guess(c: Option<Code>, provided: Digest, now: int, lock: int): (Verdict, Option<Code>) {
    if c.None? || c.value.expiresAt <= now then (Missing, c)
    else if c.value.lockedUntil.Some? && c.value.lockedUntil.value > now then (Refused, c)
    else if c.value.codeHash == provided then (Right, None)
    else
      var next := AfterWrong(c.value, now, lock);
      (Wrong(next.lockedUntil.Some? && next.lockedUntil.value > now), Some(next))
  }

  // ---- How many guesses one code can absorb ----

  function Limit(maxAttempts: int): (m: int)
    ensures m >= 1
  {
    if maxAttempts < 1 then 1 else maxAttempts
  }

  /** Unlocked while below the limit, carrying a lock from then on. */
  predicate WellFormed(c: Option<Code>) {
    c.Some? ==>
      && c.value.attempts >= 0
      && (c.value.lockedUntil.None? <==> c.value.attempts < Limit(c.value.maxAttempts))
  }

  /** The most guesses that can still be compared from now on. */
  function Remaining(c: Option<Code>, now: int, lock: int): int
    requires lock > 0
  {
    if c.None? then 0
    else
      var left := c.value.expiresAt - now - 1;
      if c.value.lockedUntil.None? then
        if left < 0 then 0 else Limit(c.value.maxAttempts) - c.value.attempts + left / lock
      else
        var open := c.value.lockedUntil.value;
        var leftOpen := c.value.expiresAt - (if open > now then open else now) - 1;
        if leftOpen < 0 then 0 else 1 + leftOpen / lock
  }

  /** The bound for a fresh code: max + ceil(ttl / lock) - 1. */
  function GuessBound(ttl: int, maxAttempts: int, lock: int): int
    requires lock > 0
  {
    Limit(maxAttempts) + CeilDiv(ttl, lock) - 1
  }

  lemma RemainingOfNewCode(codeHash: Digest, now: int, ttl: int, maxAttempts: int, lock: int)
    requires ttl > 0 && lock > 0
    ensures var c := Some(NewCode(codeHash, now, ttl, maxAttempts));
      WellFormed(c) && Remaining(c, now, lock) == GuessBound(ttl, maxAttempts, lock)
  {
    CeilDivAsFloor(ttl, lock);
  }

  lemma RemainingNonNegative(c: Option<Code>, now: int, lock: int)
    requires lock > 0 && WellFormed(c)
    ensures Remaining(c, now, lock) >= 0
  {
    if c.Some? {
      var left := c.value.expiresAt - now - 1;
      if left >= 0 {
        DivStep(0, left, lock);
      }
      if c.value.lockedUntil.Some? {
        var open := c.value.lockedUntil.value;
        var leftOpen := c.value.expiresAt - (if open > now then open else now) - 1;
        if leftOpen >= 0 {
          DivStep(0, leftOpen, lock);
        }
      }
    }
  }

  /** Waiting earns no guesses. */
  lemma RemainingShrinksWithTime(c: Option<Code>, now: int, later: int, lock: int)
    requires lock > 0 && WellFormed(c) && now <= later
    ensures Remaining(c, later, lock) <= Remaining(c, now, lock)
  {
    RemainingNonNegative(c, now, lock);
    if c.Some? {
      var e := c.value.expiresAt;
      DivStep(e - later - 1, e - now - 1, lock);
      if c.value.lockedUntil.Some? {
        var open := c.value.lockedUntil.value;
        DivStep(e - (if open > later then open else later) - 1, e - (if open > now then open else now) - 1, lock);
      }
    }
  }

  /** Every compared guess uses one up; nothing else gives one back. */
  lemma GuessUsesOneUp(c: Option<Code>, provided: Digest, now: int, lock: int)
    requires lock > 0 && WellFormed(c)
    ensures var (v, c') := Guess(c, provided, now, lock);
      && WellFormed(c')
      && Remaining(c', now, lock) + (if Compared(v) then 1 else 0) <= Remaining(c, now, lock)
  {
    RemainingNonNegative(c, now, lock);
    var (v, c') := Guess(c, provided, now, lock);
    if Compared(v) {
      var left := c.value.expiresAt - now - 1;
      DivStep(0, left, lock);
    }
  }

  datatype Try = Try(at: int, provided: Digest)

  predicate InOrder(tries: seq<Try>, from: int) {
    tries != [] ==> from <= tries[0].at && InOrder(tries[1..], tries[0].at)
  }

  function ComparedCount(c: Option<Code>, tries: seq<Try>, lock: int): nat
    decreases |tries|
  {
    if tries == [] then 0
    else
      var (v, c') := Guess(c, tries[0].provided, tries[0].at, lock);
      var rest := ComparedCount(c', tries[1..], lock);
      if Compared(v) then 1 + rest else rest
  }

  lemma {:induction false} ComparedAtMostRemaining(c: Option<Code>, tries: seq<Try>, from: int, lock: int)
    requires lock > 0 && WellFormed(c) && InOrder(tries, from)
    ensures ComparedCount(c, tries, lock) <= Remaining(c, from, lock)
    decreases |tries|
  {
    RemainingNonNegative(c, from, lock);
    if tries != [] {
      var t := tries[0];
      var (v, c') := Guess(c, t.provided, t.at, lock);
      RemainingShrinksWithTime(c, from, t.at, lock);
      GuessUsesOneUp(c, t.provided, t.at, lock);
      ComparedAtMostRemaining(c', tries[1..], t.at, lock);
    }
  }

  /** For one issued code and any timing of any guesses, at most
      max + ceil(ttl / lock) - 1 of them are compared with it. */
  lemma {:induction false} OneCodeGuessBound(codeHash: Digest, issuedAt: int, ttl: int, maxAttempts: int, lock: int, tries: seq<Try>)
    requires ttl > 0 && lock > 0 && InOrder(tries, issuedAt)
    ensures ComparedCount(Some(NewCode(codeHash, issuedAt, ttl, maxAttempts)), tries, lock)
      <= GuessBound(ttl, maxAttempts, lock)
  {
    RemainingOfNewCode(codeHash, issuedAt, ttl, maxAttempts, lock);
    ComparedAtMostRemaining(Some(NewCode(codeHash, issuedAt, ttl, maxAttempts)), tries, issuedAt, lock);
  }

  /** n wrong guesses, each as soon as the record accepts one. */
  function Eager(c: Code, wrong: Digest, now: int, lock: int, n: nat): seq<Try>
    decreases n
  {
    if n == 0 then []
    else
      var at := NextTry(c, now);
      [Try(at, wrong)] + Eager(AfterWrong(c, at, lock), wrong, at, lock, n - 1)
  }

  /** When the record accepts its next guess. */
  function NextTry(c: Code, now: int): int {
    if c.lockedUntil.Some? && c.lockedUntil.value > now then c.lockedUntil.value else now
  }

  lemma EagerUsesOne(c: Code, now: int, lock: int)
    requires lock > 0 && WellFormed(Some(c)) && Remaining(Some(c), now, lock) > 0
    ensures var at := NextTry(c, now); var c' := AfterWrong(c, at, lock);
      WellFormed(Some(c')) && Remaining(Some(c'), at, lock) == Remaining(Some(c), now, lock) - 1
  {
    var left := c.expiresAt - NextTry(c, now) - 1;
    DivStep(left - lock, left, lock);
    if 0 <= left < lock {
      DivUnique(left, lock, 0);
    }
  }

  lemma EagerIsCompared(c: Code, wrong: Digest, now: int, lock: int)
    requires lock > 0 && WellFormed(Some(c)) && Remaining(Some(c), now, lock) > 0 && wrong != c.codeHash
    ensures var at := NextTry(c, now); var (v, c') := Guess(Some(c), wrong, at, lock);
      Compared(v) && c' == Some(AfterWrong(c, at, lock))
  {}

  /** The bound is exact: eager wrong guesses use up everything that remains. */
  lemma {:induction false} EagerGuessesReachTheBound(c: Code, wrong: Digest, now: int, lock: int, n: nat)
    requires lock > 0 && WellFormed(Some(c)) && wrong != c.codeHash
    requires n == Remaining(Some(c), now, lock)
    ensures var tries := Eager(c, wrong, now, lock, n);
      InOrder(tries, now) && ComparedCount(Some(c), tries, lock) == n
    decreases n
  {
    if n > 0 {
      var at := NextTry(c, now);
      var c' := AfterWrong(c, at, lock);
      EagerUsesOne(c, now, lock);
      EagerIsCompared(c, wrong, now, lock);
      EagerGuessesReachTheBound(c', wrong, at, lock, n - 1);
      var tries := Eager(c, wrong, now, lock, n);
      assert tries[0] == Try(at, wrong) && tries[1..] == Eager(c', wrong, at, lock, n - 1);
    }
  }

  // ---- Fixed-window counters ----

  datatype Window = Window(count: int, resetsAt: int)

  /** INCR, and EXPIRE on the first increment of a window. */
  function Bumped(w: Option<Window>, now: int, windowMs: int): Window {
    if w.None? || w.value.resetsAt <= now then Window(1, now + windowMs)
    else w.value.(count := w.value.count + 1)
  }
}
