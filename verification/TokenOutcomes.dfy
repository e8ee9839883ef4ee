/** What the calls on sessions achieve, said of the stored fields and of the calls made: which
    sessions a logout revokes, and when, over a whole run, a refresh token is accepted. */
module TokenOutcomes {
  import opened Options
  import opened Runs
  import opened RefreshTokens

  // ---- Per call ----

  /** Only revokedAt of one session changes, and a time already there stays. */
  predicate RevokedOnly(s: Session, s': Session, now: int) {
    && s'.revokedAt == (if s.revokedAt.None? then Some(now) else s.revokedAt)
    && s' == Session(s.userId, s.familyId, s.refreshTokenHash, s.previousRefreshTokenHash,
                     s.tokenVersion, s.lastUsedAt, s.expiresAt, s'.revokedAt)
  }

  /** Exactly the chosen sessions are revoked; the others and everything else are as before. */
  ghost predicate RevokesExactly(w: World, w': World, chosen: string -> bool, now: int) {
    && w'.sessions.Keys == w.sessions.Keys
    && (forall k :: k in w.sessions ==>
          if chosen(k) then RevokedOnly(w.sessions[k], w'.sessions[k], now) else w'.sessions[k] == w.sessions[k])
    && w'.markers == w.markers && w'.tokens == w.tokens && w'.families == w.families
  }

  predicate Owns(w: World, userId: string, k: string) {
    k in w.sessions && w.sessions[k].userId == userId
  }

  /** Logging out succeeds exactly on a session of the caller's, and then revokes that session
      and no other. */
  lemma LogoutIff(w: World, userId: string, sessionId: string, now: int)
    ensures var (w', r) := Logout(w, userId, sessionId, now);
      && (r == Done <==> Owns(w, userId, sessionId))
      && (r != Done ==> r == Unauthorized)
      && RevokesExactly(w, w', k => Owns(w, userId, sessionId) && k == sessionId, now)
  {}

  /** Logging out everywhere revokes every session of the user but the spared one, and nobody
      else's. */
  lemma LogoutAllRevokes(w: World, userId: string, except: Option<string>, now: int)
    ensures var (w', r) := LogoutAll(w, userId, except, now);
      r == Done && RevokesExactly(w, w', k => Owns(w, userId, k) && except != Some(k), now)
  {}

  /** A login opens a session of the user that lasts for ttl, and touches no other. */
  lemma LoginOpens(w: World, userId: string, sessionId: string, familyId: string, secret: string, now: int)
    requires sessionId !in w.tokens && forall k :: k in w.sessions ==> k in w.tokens
    ensures var (w', r) := Login(w, userId, sessionId, familyId, secret, now);
      && Owns(w', userId, sessionId)
      && (forall t :: Usable(w', sessionId, t) <==> t < now + w.ttl)
      && (forall k :: k != sessionId ==> (k in w'.sessions <==> k in w.sessions) && (k in w.sessions ==> w'.sessions[k] == w.sessions[k]))
      && r.Issued? && w'.sessions[sessionId].refreshTokenHash == Hmac(r.token)
      && w'.markers == w.markers
  {}

  /** Reaping drops a session that has expired and nothing else. */
  lemma ReapIff(w: World, sessionId: string, now: int)
    ensures var w' := Reap(w, sessionId, now).0;
      && (sessionId in w.sessions && sessionId !in w'.sessions <==> sessionId in w.sessions && w.sessions[sessionId].expiresAt <= now)
      && (forall k :: k in w'.sessions ==> k in w.sessions && w'.sessions[k] == w.sessions[k])
      && (forall k :: k in w.sessions && k != sessionId ==> k in w'.sessions)
      && w'.markers == w.markers && w'.tokens == w.tokens && w'.families == w.families
  {}

  /** A refresh for a user who may not, or with a text that is no token, changes nothing; any other
      is the presentation of the token. */
  lemma RefreshIs(w: World, text: string, userOk: bool, secret: string, now: int)
    ensures var p, (w', r) := ParseRefreshToken(text), Refresh(w, text, userOk, secret, now);
      && (!userOk || p.None? ==> w' == w && r == Unauthorized)
      && (userOk && p.Some? ==> (w', r) == Present(w, p.value, secret, now))
  {}

  // ---- Whose a session is ----

  predicate Opens(e: Event, k: string, userId: string, familyId: string) {
    e.call.CallLogin? && e.call.sessionId == k && e.call.userId == userId && e.call.familyId == familyId
  }

  lemma RefreshOwner(w: World, text: string, userOk: bool, secret: string, now: int, k: string)
    requires k in Refresh(w, text, userOk, secret, now).0.sessions
    ensures var s := Refresh(w, text, userOk, secret, now).0.sessions[k];
      k in w.sessions && w.sessions[k].userId == s.userId && w.sessions[k].familyId == s.familyId
  {}

  lemma StepOwner(w: World, e: Event, k: string)
    requires k in Step(w, e).sessions
    ensures var s := Step(w, e).sessions[k];
      Opens(e, k, s.userId, s.familyId)
      || (k in w.sessions && w.sessions[k].userId == s.userId && w.sessions[k].familyId == s.familyId)
  {
    match e.call
    case CallRefresh(text, userOk, secret) => RefreshOwner(w.(clock := e.at), text, userOk, secret, e.at, k);
    case CallLogin(_, _, _, _) =>
    case CallLogout(_, _) =>
    case CallLogoutAll(_, _) =>
    case CallReap(_) =>
  }

  /** In every run a session belongs to the user, and to the family, of the login that opened it. */
  lemma {:induction false} SessionIsItsLogins(ttl: int, events: seq<Event>, n: nat, k: string) returns (i: nat)
    requires n <= |events| && k in At(Step, Start(ttl), events, n).sessions
    ensures i < n
    ensures var s := At(Step, Start(ttl), events, n).sessions[k]; Opens(events[i], k, s.userId, s.familyId)
  {
    AtNext(Step, Start(ttl), events, n - 1);
    StepOwner(At(Step, Start(ttl), events, n - 1), events[n - 1], k);
    var s := At(Step, Start(ttl), events, n).sessions[k];
    if Opens(events[n - 1], k, s.userId, s.familyId) {
      i := n - 1;
    } else {
      i := SessionIsItsLogins(ttl, events, n - 1, k);
    }
  }

  // ---- When a session ends ----

  /** The call ends the session: its owner logs it out, by itself or with the others; a token of
      its that was rotated out is presented while it lasts; or it has expired and is reaped. */
  predicate Ends(w: World, e: Event, k: string) {
    && k in w.sessions
    && match e.call
       case CallLogin(_, _, _, _) => false
       case CallLogout(userId, sessionId) => sessionId == k && userId == w.sessions[k].userId
       case CallLogoutAll(userId, except) => userId == w.sessions[k].userId && except != Some(k)
       case CallReap(sessionId) => sessionId == k && w.sessions[k].expiresAt <= e.at
       case CallRefresh(text, userOk, _) =>
         var p := ParseRefreshToken(text);
         && p.Some? && userOk && p.value.sessionId == k && k in w.tokens
         && w.sessions[k].revokedAt.None? && e.at < w.sessions[k].expiresAt
         && Recent(w.tokens[k], p.value, w.ttl, e.at)
  }

  function Ending(k: string): (World, Event) -> bool {
    (w: World, e: Event) => Ends(w, e, k)
  }

  function Over(k: string): World -> bool {
    (w: World) => Retired(w, k)
  }

  /** A refresh revokes the session of the presented token exactly if it is reuse. */
  lemma RefreshRevokesIff(w: World, token: Token, secret: string, k: string)
    requires Inv(w) && k in w.sessions
    ensures var w' := Present(w, token, secret, w.clock).0;
      k in w'.sessions && (w'.sessions[k].revokedAt.Some? <==>
        || w.sessions[k].revokedAt.Some?
        || (token.sessionId == k && w.clock < w.sessions[k].expiresAt && Recent(w.tokens[k], token, w.ttl, w.clock)))
  {
    if Usable(w, token.sessionId, w.clock) {
      PresentAnswers(w, token, secret);
      if Recent(w.tokens[token.sessionId], token, w.ttl, w.clock) {
        ReuseRevokesExactlyTheFamily(w, token, secret);
      }
    }
  }

  lemma PresentKeepsKeys(w: World, token: Token, secret: string, now: int)
    requires forall l :: l in w.sessions ==> l in w.tokens
    ensures var w' := Present(w, token, secret, now).0;
      w'.sessions.Keys == w.sessions.Keys && w'.tokens.Keys == w.tokens.Keys
  {}

  lemma PresentEndsIff(w: World, token: Token, secret: string, k: string)
    requires Inv(w) && k in w.tokens
    ensures Retired(Present(w, token, secret, w.clock).0, k) <==>
      || Retired(w, k)
      || (k in w.sessions && token.sessionId == k && w.sessions[k].revokedAt.None? && w.clock < w.sessions[k].expiresAt
          && Recent(w.tokens[k], token, w.ttl, w.clock))
  {
    assert forall l :: l in w.sessions ==> l in w.tokens;
    PresentKeepsKeys(w, token, secret, w.clock);
    if k in w.sessions {
      RefreshRevokesIff(w, token, secret, k);
    }
  }

  lemma LoginEnds(w: World, userId: string, sessionId: string, familyId: string, secret: string, now: int, k: string)
    requires k in w.tokens && sessionId !in w.tokens
    ensures Retired(Login(w, userId, sessionId, familyId, secret, now).0, k) <==> Retired(w, k)
  {}

  lemma LogoutEndsIff(w: World, userId: string, sessionId: string, now: int, k: string)
    requires k in w.tokens
    ensures Retired(Logout(w, userId, sessionId, now).0, k) <==> Retired(w, k) || (sessionId == k && Owns(w, userId, k))
  {}

  lemma LogoutAllEndsIff(w: World, userId: string, except: Option<string>, now: int, k: string)
    requires k in w.tokens
    ensures Retired(LogoutAll(w, userId, except, now).0, k) <==> Retired(w, k) || (except != Some(k) && Owns(w, userId, k))
  {}

  lemma ReapEndsIff(w: World, sessionId: string, now: int, k: string)
    requires k in w.tokens
    ensures Retired(Reap(w, sessionId, now).0, k) <==>
      Retired(w, k) || (sessionId == k && k in w.sessions && w.sessions[k].expiresAt <= now)
  {}

  lemma RefreshEndsIff(w: World, text: string, userOk: bool, secret: string, k: string)
    requires Inv(w) && k in w.tokens
    ensures Retired(Refresh(w, text, userOk, secret, w.clock).0, k) <==>
      Retired(w, k) || Ends(w, Event(w.clock, CallRefresh(text, userOk, secret)), k)
  {
    var p := ParseRefreshToken(text);
    RefreshIs(w, text, userOk, secret, w.clock);
    if p.Some? && userOk {
      PresentEndsIff(w, p.value, secret, k);
    }
  }

  lemma OtherEndsIff(w: World, call: Call, k: string)
    requires k in w.tokens && !call.CallRefresh? && (call.CallLogin? ==> call.sessionId !in w.tokens)
    ensures Retired(Apply(w, call, w.clock).0, k) <==> Retired(w, k) || Ends(w, Event(w.clock, call), k)
  {
    match call
    case CallLogin(userId, sessionId, familyId, secret) => LoginEnds(w, userId, sessionId, familyId, secret, w.clock, k);
    case CallLogout(userId, sessionId) => LogoutEndsIff(w, userId, sessionId, w.clock, k);
    case CallLogoutAll(userId, except) => LogoutAllEndsIff(w, userId, except, w.clock, k);
    case CallReap(sessionId) => ReapEndsIff(w, sessionId, w.clock, k);
  }

  lemma RefreshApplies(w: World, call: Call)
    requires call.CallRefresh?
    ensures Apply(w, call, w.clock) == Refresh(w, call.text, call.userOk, call.secret, w.clock)
  {}

  lemma ApplyEndsIff(w: World, call: Call, k: string)
    requires Inv(w) && k in w.tokens && (call.CallLogin? ==> call.sessionId !in w.tokens)
    ensures Retired(Apply(w, call, w.clock).0, k) <==> Retired(w, k) || Ends(w, Event(w.clock, call), k)
  {
    if call.CallRefresh? {
      RefreshApplies(w, call);
      RefreshEndsIff(w, call.text, call.userOk, call.secret, k);
    } else {
      OtherEndsIff(w, call, k);
    }
  }

  lemma NewSessionIsLive(w: World, call: Call, k: string)
    requires k !in w.tokens && forall l :: l in w.sessions ==> l in w.tokens
    ensures !Retired(Apply(w, call, w.clock).0, k)
  {}

  lemma StepEndsIff(w: World, e: Event, k: string)
    requires Inv(w) && Enabled(w, e)
    ensures Retired(Step(w, e), k) <==> Retired(w, k) || Ends(w, e, k)
  {
    var w0 := w.(clock := e.at);
    if k in w.tokens {
      ClockKeeps(w, e.at);
      ApplyEndsIff(w0, e.call, k);
    } else {
      assert forall l :: l in w.sessions ==> l in w.tokens;
      NewSessionIsLive(w0, e.call, k);
    }
  }

  /** One of the first n calls ended the session. */
  predicate Ended(ttl: int, events: seq<Event>, n: nat, k: string)
    requires n <= |events|
  {
    HappenedBefore(Step, Start(ttl), events, Ending(k), n)
  }

  lemma {:induction false} RetiredIff(ttl: int, events: seq<Event>, n: nat, k: string)
    requires Possible(Step, Enabled, Start(ttl), events) && n <= |events|
    ensures Retired(At(Step, Start(ttl), events, n), k) <==> Ended(ttl, events, n, k)
  {
    InvKept();
    forall v: World, e: Event | Inv(v) && Enabled(v, e)
      ensures Over(k)(Step(v, e)) <==> Over(k)(v) || Ending(k)(v, e)
    {
      StepEndsIff(v, e, k);
    }
    TurnedOnIff(Step, Enabled, Inv, Over(k), Ending(k), Start(ttl), events, n);
  }

  /** At any moment of any run a session is usable exactly when it has issued a token less than
      ttl ago and none of the calls so far has ended it. */
  lemma {:induction false} UsableIff(ttl: int, events: seq<Event>, n: nat, k: string, now: int)
    requires Possible(Step, Enabled, Start(ttl), events) && n <= |events|
    ensures var w := At(Step, Start(ttl), events, n); var h := IssuedTo(w.tokens, k);
      Usable(w, k, now) <==> h != [] && now < h[|h| - 1].at + w.ttl && !Ended(ttl, events, n, k)
  {
    InvAt(Start(ttl), events, n);
    RetiredIff(ttl, events, n, k);
    UsableIsLive(At(Step, Start(ttl), events, n), k, now);
  }

  lemma UsableIsLive(w: World, k: string, now: int)
    requires Inv(w)
    ensures var h := IssuedTo(w.tokens, k); Usable(w, k, now) <==> h != [] && now < h[|h| - 1].at + w.ttl && !Retired(w, k)
  {
    if k in w.tokens {
      assert HistoryOk(k, w.tokens[k], w.clock);
    }
    if k in w.sessions {
      assert SessionOk(w.sessions[k], w.tokens[k], w.ttl);
    }
  }

  lemma HasTokens(w: World, k: string)
    requires Inv(w) && k in w.sessions
    ensures k in w.tokens && IssuedTo(w.tokens, k) == w.tokens[k]
  {}

  lemma UnusableIssuesNothing(w: World, token: Token, secret: string, now: int)
    requires !Usable(w, token.sessionId, now)
    ensures Present(w, token, secret, now) == (w, Unauthorized)
  {}

  lemma UsableIssuesIff(w: World, token: Token, secret: string)
    requires Inv(w) && Usable(w, token.sessionId, w.clock) && token.sessionId in w.tokens
    ensures var h := w.tokens[token.sessionId]; Present(w, token, secret, w.clock).1.Issued? <==> IsAt(h, token, |h| - 1)
  {
    var k := token.sessionId;
    PresentAnswers(w, token, secret);
    LookupMeansRecent(k, w.sessions[k], w.tokens[k], w.markers, token, w.ttl, w.clock);
  }

  lemma PresentIssuesIff(w: World, token: Token, secret: string)
    requires Inv(w)
    ensures var h := IssuedTo(w.tokens, token.sessionId);
      Present(w, token, secret, w.clock).1.Issued? <==> Usable(w, token.sessionId, w.clock) && IsAt(h, token, |h| - 1)
  {
    if Usable(w, token.sessionId, w.clock) {
      HasTokens(w, token.sessionId);
      UsableIssuesIff(w, token, secret);
    } else {
      UnusableIssuesNothing(w, token, secret, w.clock);
    }
  }

  lemma AcceptsIff(w: World, e: Event, text: string)
    requires Inv(w) && Enabled(w, e) && e.call.CallRefresh? && e.call.text == text
    ensures var p := ParseRefreshToken(text);
      Accepts(w, e, text) <==>
        && e.call.userOk && p.Some? && Usable(w, p.value.sessionId, e.at)
        && var h := IssuedTo(w.tokens, p.value.sessionId); IsAt(h, p.value, |h| - 1)
  {
    var p, w0 := ParseRefreshToken(text), w.(clock := e.at);
    ClockKeeps(w, e.at);
    if p.Some? {
      PresentIssuesIff(w0, p.value, e.call.secret);
    }
  }

  /** In every run a refresh is granted exactly if the user may refresh, the text is the token
      last issued to its session, less than ttl ago, and no call so far has ended that session. */
  lemma AcceptedIff(ttl: int, events: seq<Event>, n: nat)
    requires Possible(Step, Enabled, Start(ttl), events) && n < |events| && events[n].call.CallRefresh?
    ensures var w, e := At(Step, Start(ttl), events, n), events[n];
      var p := ParseRefreshToken(e.call.text);
      Accepts(w, e, e.call.text) <==>
        && e.call.userOk && p.Some?
        && var h := IssuedTo(w.tokens, p.value.sessionId);
           h != [] && h[|h| - 1].token == p.value && e.at < h[|h| - 1].at + w.ttl && !Ended(ttl, events, n, p.value.sessionId)
  {
    InvAt(Start(ttl), events, n);
    assert Allowed(Step, Enabled, Start(ttl), events, n);
    var p := ParseRefreshToken(events[n].call.text);
    AcceptsIff(At(Step, Start(ttl), events, n), events[n], events[n].call.text);
    if p.Some? {
      UsableIff(ttl, events, n, p.value.sessionId, events[n].at);
    }
  }

  lemma RotateIssues(w: World, sessionId: string, secret: string, now: int, k: string)
    requires sessionId in w.sessions
    ensures IssuedTo(Rotate(w, sessionId, secret, now).0.tokens, k) ==
      IssuedTo(w.tokens, k) + if sessionId == k then [Issue(Token(k, secret, ""), now)] else []
  {}

  lemma RefreshIssues(w: World, text: string, userOk: bool, secret: string, now: int, k: string)
    ensures var (w', r) := Refresh(w, text, userOk, secret, now); var p := ParseRefreshToken(text);
      IssuedTo(w'.tokens, k) ==
        IssuedTo(w.tokens, k) + if r.Issued? && p.value.sessionId == k then [Issue(Token(k, secret, ""), now)] else []
  {
    if Refresh(w, text, userOk, secret, now).1.Issued? {
      RotateIssues(w, ParseRefreshToken(text).value.sessionId, secret, now, k);
    }
  }

  /** What a step issues to a session: a login its first token, a granted refresh one more that
      carries the fresh secret; nothing else issues anything. */
  lemma StepIssues(w: World, e: Event, k: string)
    requires e.call.CallLogin? ==> e.call.sessionId !in w.tokens
    ensures IssuedTo(Step(w, e).tokens, k) == IssuedTo(w.tokens, k) +
      if e.call.CallLogin? && e.call.sessionId == k then [Issue(Token(k, e.call.secret, ""), e.at)]
      else if e.call.CallRefresh? && Accepts(w, e, e.call.text) && ParseRefreshToken(e.call.text).value.sessionId == k
      then [Issue(Token(k, e.call.secret, ""), e.at)]
      else []
  {
    var w0 := w.(clock := e.at);
    match e.call
    case CallRefresh(text, userOk, secret) => RefreshIssues(w0, text, userOk, secret, e.at, k);
    case CallLogin(_, _, _, _) =>
    case CallLogout(_, _) =>
    case CallLogoutAll(_, _) =>
    case CallReap(_) =>
  }

  /** Once its owner has logged a session out, no text is accepted for it any more. */
  lemma {:induction false} LoggedOutForGood(ttl: int, events: seq<Event>, m: nat, n: nat, text: string)
    requires Possible(Step, Enabled, Start(ttl), events) && m < n < |events|
    requires events[m].call.CallLogout? && ReplyTo(At(Step, Start(ttl), events, m), events[m]) == Done
    requires var p := ParseRefreshToken(text); p.Some? && p.value.sessionId == events[m].call.sessionId
    ensures !Accepts(At(Step, Start(ttl), events, n), events[n], text)
  {
    var w, e, k := At(Step, Start(ttl), events, m), events[m], events[m].call.sessionId;
    LogoutIff(w.(clock := e.at), e.call.userId, k, e.at);
    assert Happened(Step, Start(ttl), events, Ending(k), m);
    if events[n].call.CallRefresh? {
      AcceptedIff(ttl, events, n);
    }
  }
}
