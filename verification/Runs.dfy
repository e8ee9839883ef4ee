/** Runs of a state machine given by a step function, and what holds all along them. */
module Runs {
  import opened Options

  /** The state after the first n events. */
  function At<S, E>(step: (S, E) -> S, s: S, events: seq<E>, n: nat): S
    requires n <= |events|
  {
    if n == 0 then s else step(At(step, s, events, n - 1), events[n - 1])
  }

  /** The n-th event is enabled in the state it meets. */
  predicate Allowed<S, E>(step: (S, E) -> S, enabled: (S, E) -> bool, s: S, events: seq<E>, n: nat)
    requires n < |events|
  {
    enabled(At(step, s, events, n), events[n])
  }

  predicate Possible<S, E>(step: (S, E) -> S, enabled: (S, E) -> bool, s: S, events: seq<E>) {
    forall n :: 0 <= n < |events| ==> Allowed(step, enabled, s, events, n)
  }

  ghost predicate Kept<S(!new), E(!new)>(step: (S, E) -> S, enabled: (S, E) -> bool, inv: S -> bool) {
    forall s, e {:trigger step(s, e)} :: inv(s) && enabled(s, e) ==> inv(step(s, e))
  }

  /** p stays true once it is, in states that satisfy inv. */
  ghost predicate Stable<S(!new), E(!new)>(step: (S, E) -> S, enabled: (S, E) -> bool, inv: S -> bool, p: S -> bool) {
    forall s, e {:trigger step(s, e)} :: inv(s) && enabled(s, e) && p(s) ==> p(step(s, e))
  }

  lemma {:induction false} InvariantAt<S(!new), E(!new)>(
      step: (S, E) -> S, enabled: (S, E) -> bool, inv: S -> bool, s: S, events: seq<E>, n: nat)
    requires inv(s) && Kept(step, enabled, inv) && Possible(step, enabled, s, events) && n <= |events|
    ensures inv(At(step, s, events, n))
  {
    if n > 0 {
      InvariantAt(step, enabled, inv, s, events, n - 1);
      assert Allowed(step, enabled, s, events, n - 1);
    }
  }

  lemma {:induction false} StableAt<S(!new), E(!new)>(
      step: (S, E) -> S, enabled: (S, E) -> bool, inv: S -> bool, p: S -> bool, s: S, events: seq<E>, m: nat, n: nat)
    requires inv(s) && Kept(step, enabled, inv) && Stable(step, enabled, inv, p)
    requires Possible(step, enabled, s, events) && m <= n <= |events|
    requires p(At(step, s, events, m))
    ensures p(At(step, s, events, n))
  {
    if m < n {
      StableAt(step, enabled, inv, p, s, events, m, n - 1);
      InvariantAt(step, enabled, inv, s, events, n - 1);
      assert Allowed(step, enabled, s, events, n - 1);
    }
  }

  /** Every event that satisfies first leads to a state that satisfies p. */
  ghost predicate Makes<S(!new), E(!new)>(
      step: (S, E) -> S, enabled: (S, E) -> bool, inv: S -> bool, first: (S, E) -> bool, p: S -> bool)
  {
    forall s, e {:trigger step(s, e)} :: inv(s) && enabled(s, e) && first(s, e) ==> p(step(s, e))
  }

  /** In a state that satisfies p no event satisfies second. */
  ghost predicate Forbids<S(!new), E(!new)>(enabled: (S, E) -> bool, inv: S -> bool, p: S -> bool, second: (S, E) -> bool) {
    forall s, e {:trigger second(s, e)} :: inv(s) && enabled(s, e) && p(s) ==> !second(s, e)
  }

  /** first makes p true and p is stable: p holds ever after. */
  lemma {:induction false} EverAfter<S(!new), E(!new)>(
      step: (S, E) -> S, enabled: (S, E) -> bool, inv: S -> bool, first: (S, E) -> bool, p: S -> bool,
      s: S, events: seq<E>, m: nat, n: nat)
    requires inv(s) && Kept(step, enabled, inv) && Stable(step, enabled, inv, p) && Possible(step, enabled, s, events)
    requires Makes(step, enabled, inv, first, p) && m < n <= |events| && first(At(step, s, events, m), events[m])
    ensures p(At(step, s, events, n))
  {
    if m < n - 1 {
      EverAfter(step, enabled, inv, first, p, s, events, m, n - 1);
    }
    InvariantAt(step, enabled, inv, s, events, n - 1);
    assert Allowed(step, enabled, s, events, n - 1);
  }

  lemma {:induction false} ForbiddenAt<S(!new), E(!new)>(
      step: (S, E) -> S, enabled: (S, E) -> bool, inv: S -> bool, p: S -> bool, second: (S, E) -> bool,
      s: S, events: seq<E>, n: nat)
    requires inv(s) && Kept(step, enabled, inv) && Forbids(enabled, inv, p, second) && Possible(step, enabled, s, events)
    requires n < |events| && p(At(step, s, events, n))
    ensures !second(At(step, s, events, n), events[n])
  {
    InvariantAt(step, enabled, inv, s, events, n);
    assert Allowed(step, enabled, s, events, n);
  }

  /** Once p holds, a second that p forbids never comes. */
  lemma {:induction false} NeverFrom<S(!new), E(!new)>(
      step: (S, E) -> S, enabled: (S, E) -> bool, inv: S -> bool, p: S -> bool, second: (S, E) -> bool,
      s: S, events: seq<E>, m: nat, n: nat)
    requires inv(s) && Kept(step, enabled, inv) && Stable(step, enabled, inv, p) && Forbids(enabled, inv, p, second)
    requires Possible(step, enabled, s, events) && m <= n < |events|
    requires p(At(step, s, events, m))
    ensures !second(At(step, s, events, n), events[n])
  {
    StableAt(step, enabled, inv, p, s, events, m, n);
    ForbiddenAt(step, enabled, inv, p, second, s, events, n);
  }

  /** first makes p true, p is stable, and p forbids second: second never comes after first. */
  lemma {:induction false} NeverAfter<S(!new), E(!new)>(
      step: (S, E) -> S, enabled: (S, E) -> bool, inv: S -> bool, p: S -> bool,
      first: (S, E) -> bool, second: (S, E) -> bool, s: S, events: seq<E>, m: nat, n: nat)
    requires inv(s) && Kept(step, enabled, inv) && Stable(step, enabled, inv, p) && Possible(step, enabled, s, events)
    requires Makes(step, enabled, inv, first, p) && Forbids(enabled, inv, p, second)
    requires m < n < |events| && first(At(step, s, events, m), events[m])
    ensures !second(At(step, s, events, n), events[n])
  {
    EverAfter(step, enabled, inv, first, p, s, events, m, n);
    ForbiddenAt(step, enabled, inv, p, second, s, events, n);
  }

  /** f added up over the first n steps. */
  function Total<S, E>(step: (S, E) -> S, s: S, events: seq<E>, f: (S, E) -> int, n: nat): int
    requires n <= |events|
  {
    if n == 0 then 0 else Total(step, s, events, f, n - 1) + f(At(step, s, events, n - 1), events[n - 1])
  }

  /** Every step moves q by what it puts in less what it takes out. */
  ghost predicate Moves<S(!new), E(!new)>(
      step: (S, E) -> S, enabled: (S, E) -> bool, inv: S -> bool, q: S -> int, put: (S, E) -> int, take: (S, E) -> int)
  {
    forall s, e {:trigger step(s, e)} :: inv(s) && enabled(s, e) ==> q(step(s, e)) == q(s) + put(s, e) - take(s, e)
  }

  lemma {:induction false} TotalAt<S(!new), E(!new)>(
      step: (S, E) -> S, enabled: (S, E) -> bool, inv: S -> bool, q: S -> int, put: (S, E) -> int, take: (S, E) -> int,
      s: S, events: seq<E>, n: nat)
    requires inv(s) && Kept(step, enabled, inv) && Moves(step, enabled, inv, q, put, take)
    requires Possible(step, enabled, s, events) && n <= |events|
    ensures q(At(step, s, events, n)) == q(s) + Total(step, s, events, put, n) - Total(step, s, events, take, n)
  {
    if n > 0 {
      TotalAt(step, enabled, inv, q, put, take, s, events, n - 1);
      InvariantAt(step, enabled, inv, s, events, n - 1);
      assert Allowed(step, enabled, s, events, n - 1);
    }
  }

  /** How many of the first n events satisfy p when they come. */
  function Count<S, E>(step: (S, E) -> S, s: S, events: seq<E>, p: (S, E) -> bool, n: nat): nat
    requires n <= |events|
  {
    if n == 0 then 0 else Count(step, s, events, p, n - 1) + if p(At(step, s, events, n - 1), events[n - 1]) then 1 else 0
  }

  function Less(q: int, amount: int): int {
    if q <= amount then 0 else q - amount
  }

  /** No step adds to q, and every full one takes limit off it or empties it. */
  ghost predicate Drains<S(!new), E(!new)>(
      step: (S, E) -> S, enabled: (S, E) -> bool, inv: S -> bool, q: S -> nat, full: (S, E) -> bool, limit: nat)
  {
    forall s, e {:trigger step(s, e)} :: inv(s) && enabled(s, e) ==>
      q(step(s, e)) <= q(s) && (full(s, e) ==> q(step(s, e)) <= Less(q(s), limit))
  }

  lemma {:induction false} DrainedAt<S(!new), E(!new)>(
      step: (S, E) -> S, enabled: (S, E) -> bool, inv: S -> bool, q: S -> nat, full: (S, E) -> bool, limit: nat,
      s: S, events: seq<E>, n: nat)
    requires inv(s) && Kept(step, enabled, inv) && Drains(step, enabled, inv, q, full, limit)
    requires Possible(step, enabled, s, events) && n <= |events|
    ensures q(At(step, s, events, n)) <= Less(q(s), Count(step, s, events, full, n) * limit)
  {
    if n > 0 {
      DrainedAt(step, enabled, inv, q, full, limit, s, events, n - 1);
      InvariantAt(step, enabled, inv, s, events, n - 1);
      assert Allowed(step, enabled, s, events, n - 1);
      OneMore(Count(step, s, events, full, n - 1), limit);
    }
  }

  lemma OneMore(k: nat, limit: nat)
    ensures (k + 1) * limit == k * limit + limit
  {}

  /** The last event of a longer run. */
  lemma AtNext<S, E>(step: (S, E) -> S, s: S, events: seq<E>, n: nat)
    requires n < |events|
    ensures At(step, s, events, n + 1) == step(At(step, s, events, n), events[n])
  {}

  /** A run from its second state on. */
  lemma {:induction false} AtFromSecond<S, E>(step: (S, E) -> S, s: S, events: seq<E>, n: nat)
    requires n < |events|
    ensures At(step, s, events, n + 1) == At(step, step(s, events[0]), events[1..], n)
  {
    if n > 0 {
      AtFromSecond(step, s, events, n - 1);
    }
  }

  /** The clock a state shows is the time of the step that led to it, and does not go back. */
  ghost predicate Timed<S(!new), E(!new)>(step: (S, E) -> S, enabled: (S, E) -> bool, clock: S -> int, at: E -> int) {
    forall s, e {:trigger step(s, e)} :: clock(step(s, e)) == at(e) && (enabled(s, e) ==> clock(s) <= at(e))
  }

  lemma {:induction false} TimesInOrder<S(!new), E(!new)>(
      step: (S, E) -> S, enabled: (S, E) -> bool, clock: S -> int, at: E -> int, s: S, events: seq<E>, i: nat, n: nat)
    requires Timed(step, enabled, clock, at) && Possible(step, enabled, s, events) && i < n <= |events|
    ensures at(events[i]) <= clock(At(step, s, events, n))
  {
    AtNext(step, s, events, n - 1);
    assert Allowed(step, enabled, s, events, n - 1);
    if i < n - 1 {
      TimesInOrder(step, enabled, clock, at, s, events, i, n - 1);
    }
  }

  /** The i-th event satisfies p when it comes. */
  predicate Happened<S, E>(step: (S, E) -> S, s: S, events: seq<E>, p: (S, E) -> bool, i: nat)
    requires i < |events|
  {
    p(At(step, s, events, i), events[i])
  }

  /** One of the first n events satisfied p, less than ttl before now. */
  predicate HappenedWithin<S, E>(
      step: (S, E) -> S, s: S, events: seq<E>, p: (S, E) -> bool, at: E -> int, ttl: int, n: nat, now: int)
    requires n <= |events|
  {
    exists i {:trigger Happened(step, s, events, p, i)} :: 0 <= i < n && Happened(step, s, events, p, i) && now < at(events[i]) + ttl
  }

  /** until is set, to ttl from now, exactly by the events that satisfy p. */
  ghost predicate SetsUntil<S(!new), E(!new)>(
      step: (S, E) -> S, inv: S -> bool, p: (S, E) -> bool, until: S -> Option<int>, at: E -> int, ttl: int)
  {
    forall s, e {:trigger step(s, e)} :: inv(s) ==> until(step(s, e)) == if p(s, e) then Some(at(e) + ttl) else until(s)
  }

  lemma LatestIsLast<S(!new), E(!new)>(
      step: (S, E) -> S, enabled: (S, E) -> bool, clock: S -> int, s: S, events: seq<E>,
      p: (S, E) -> bool, at: E -> int, ttl: int, n: nat, now: int)
    requires Timed(step, enabled, clock, at) && Possible(step, enabled, s, events) && 0 < n <= |events|
    requires Happened(step, s, events, p, n - 1)
    ensures HappenedWithin(step, s, events, p, at, ttl, n, now) <==> now < at(events[n - 1]) + ttl
  {
    if HappenedWithin(step, s, events, p, at, ttl, n, now) {
      var i: nat :| i < n && Happened(step, s, events, p, i) && now < at(events[i]) + ttl;
      TimesInOrder(step, enabled, clock, at, s, events, i, n);
      AtNext(step, s, events, n - 1);
    }
  }

  /** What is set to last for ttl still lasts exactly when an event has set it less than ttl ago. */
  lemma {:induction false} LastsIff<S(!new), E(!new)>(
      step: (S, E) -> S, enabled: (S, E) -> bool, inv: S -> bool, clock: S -> int,
      p: (S, E) -> bool, until: S -> Option<int>, at: E -> int, ttl: int, s: S, events: seq<E>, n: nat, now: int)
    requires inv(s) && Kept(step, enabled, inv) && Timed(step, enabled, clock, at) && SetsUntil(step, inv, p, until, at, ttl)
    requires Possible(step, enabled, s, events) && n <= |events| && until(s).None?
    ensures var u := until(At(step, s, events, n));
      u.Some? && now < u.value <==> HappenedWithin(step, s, events, p, at, ttl, n, now)
  {
    if n > 0 {
      InvariantAt(step, enabled, inv, s, events, n - 1);
      AtNext(step, s, events, n - 1);
      if Happened(step, s, events, p, n - 1) {
        LatestIsLast(step, enabled, clock, s, events, p, at, ttl, n, now);
      } else {
        LastsIff(step, enabled, inv, clock, p, until, at, ttl, s, events, n - 1, now);
        assert HappenedWithin(step, s, events, p, at, ttl, n, now) == HappenedWithin(step, s, events, p, at, ttl, n - 1, now);
      }
    }
  }

  /** One of the first n events satisfied p. */
  predicate HappenedBefore<S, E>(step: (S, E) -> S, s: S, events: seq<E>, p: (S, E) -> bool, n: nat)
    requires n <= |events|
  {
    exists i {:trigger Happened(step, s, events, p, i)} :: 0 <= i < n && Happened(step, s, events, p, i)
  }

  /** What on turns on and nothing turns off is on exactly when on has happened. */
  lemma {:induction false} TurnedOnIff<S(!new), E(!new)>(
      step: (S, E) -> S, enabled: (S, E) -> bool, inv: S -> bool, q: S -> bool, on: (S, E) -> bool,
      s: S, events: seq<E>, n: nat)
    requires inv(s) && Kept(step, enabled, inv) && Possible(step, enabled, s, events) && n <= |events| && !q(s)
    requires forall v, e {:trigger step(v, e)} :: inv(v) && enabled(v, e) ==> (q(step(v, e)) <==> q(v) || on(v, e))
    ensures q(At(step, s, events, n)) <==> HappenedBefore(step, s, events, on, n)
  {
    if n > 0 {
      TurnedOnIff(step, enabled, inv, q, on, s, events, n - 1);
      InvariantAt(step, enabled, inv, s, events, n - 1);
      assert Allowed(step, enabled, s, events, n - 1);
      AtNext(step, s, events, n - 1);
      if Happened(step, s, events, on, n - 1) {
        assert HappenedBefore(step, s, events, on, n);
      }
    }
  }

  /** The i-th step turns q on if it satisfies on, off if it satisfies off only, and leaves it otherwise. */
  predicate Switches<S, E>(
      step: (S, E) -> S, s: S, events: seq<E>, q: S -> bool, on: (S, E) -> bool, off: (S, E) -> bool, i: nat)
    requires i < |events|
  {
    q(At(step, s, events, i + 1)) ==
      (Happened(step, s, events, on, i) || (q(At(step, s, events, i)) && !Happened(step, s, events, off, i)))
  }

  /** Some step from the given one on satisfied on, and none after it satisfied off. */
  predicate LastOn<S, E>(
      step: (S, E) -> S, s: S, events: seq<E>, on: (S, E) -> bool, off: (S, E) -> bool, from: nat, n: nat)
    requires n <= |events|
  {
    exists i {:trigger Happened(step, s, events, on, i)} :: from <= i < n && Happened(step, s, events, on, i)
      && forall j {:trigger Happened(step, s, events, off, j)} :: i < j < n ==> !Happened(step, s, events, off, j)
  }

  lemma LastOnNext<S, E>(
      step: (S, E) -> S, s: S, events: seq<E>, on: (S, E) -> bool, off: (S, E) -> bool, from: nat, n: nat)
    requires from < n <= |events|
    ensures LastOn(step, s, events, on, off, from, n) <==>
      || Happened(step, s, events, on, n - 1)
      || (LastOn(step, s, events, on, off, from, n - 1) && !Happened(step, s, events, off, n - 1))
  {
    if Happened(step, s, events, on, n - 1) {
      assert LastOn(step, s, events, on, off, from, n);
    } else if LastOn(step, s, events, on, off, from, n - 1) && !Happened(step, s, events, off, n - 1) {
      var i: nat :| from <= i < n - 1 && Happened(step, s, events, on, i)
        && forall j {:trigger Happened(step, s, events, off, j)} :: i < j < n - 1 ==> !Happened(step, s, events, off, j);
      assert LastOn(step, s, events, on, off, from, n);
    }
  }

  /** What starts off, and every step switches on or off or leaves, is on exactly when the last
      step to switch it has switched it on. */
  lemma {:induction false} SwitchedIff<S(!new), E(!new)>(
      step: (S, E) -> S, enabled: (S, E) -> bool, inv: S -> bool, q: S -> bool, on: (S, E) -> bool, off: (S, E) -> bool,
      s: S, events: seq<E>, n: nat)
    requires inv(s) && Kept(step, enabled, inv) && Possible(step, enabled, s, events) && n <= |events| && !q(s)
    requires forall v, e {:trigger step(v, e)} :: inv(v) && enabled(v, e) ==> (q(step(v, e)) <==> on(v, e) || (q(v) && !off(v, e)))
    ensures q(At(step, s, events, n)) <==> LastOn(step, s, events, on, off, 0, n)
  {
    if n > 0 {
      SwitchedIff(step, enabled, inv, q, on, off, s, events, n - 1);
      InvariantAt(step, enabled, inv, s, events, n - 1);
      assert Allowed(step, enabled, s, events, n - 1);
      AtNext(step, s, events, n - 1);
      LastOnNext(step, s, events, on, off, 0, n);
    }
  }

  /** Once a step has turned q off, it is on exactly when the last step to switch it since has
      switched it on. */
  lemma {:induction false} SwitchedAfterIff<S(!new), E(!new)>(
      step: (S, E) -> S, enabled: (S, E) -> bool, inv: S -> bool, first: (S, E) -> bool,
      s: S, events: seq<E>, q: S -> bool, on: (S, E) -> bool, off: (S, E) -> bool, m: nat, n: nat)
    requires inv(s) && Kept(step, enabled, inv) && Possible(step, enabled, s, events) && m < n <= |events|
    requires forall v, e {:trigger step(v, e)} :: inv(v) && enabled(v, e) && first(v, e) ==> !q(step(v, e))
    requires first(At(step, s, events, m), events[m])
    requires forall i {:trigger Switches(step, s, events, q, on, off, i)} :: m < i < n ==> Switches(step, s, events, q, on, off, i)
    ensures q(At(step, s, events, n)) <==> LastOn(step, s, events, on, off, m + 1, n)
  {
    if m + 1 == n {
      InvariantAt(step, enabled, inv, s, events, m);
      assert Allowed(step, enabled, s, events, m);
    } else {
      SwitchedAfterIff(step, enabled, inv, first, s, events, q, on, off, m, n - 1);
      LastOnNext(step, s, events, on, off, m + 1, n);
      assert Switches(step, s, events, q, on, off, n - 1);
    }
  }
}
