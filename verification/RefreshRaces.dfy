/** Refresh-token rotation with every await of rotateRefreshToken and issueTokensForUser as a
    separate step, so that presentations of one token may overlap (token.service.js). */
module RefreshRaces {
  import opened Options
  import opened Runs
  import opened RefreshTokens

  /** The await a presentation is about to perform, and what it has read. */
  datatype Pc =
    | LookUp                              // findBySessionId
    | Check(read: Session)                // redis.get, then the comparisons
    | Revoke(family: string)              // revokeFamily
    | Reread                              // findBySessionId in issueTokensForUser
    | Save(read: Session)                 // session.save()
    | Mark(replaced: Digest, family: string)  // redis.set
    | Ended(reply: Reply)

  datatype Thread = Thread(pc: Pc, token: Token, next: Token)

  /** issued: history, every token ever built. */
  datatype State = State(
    ttl: int, clock: int, sessions: map<string, Session>, markers: map<Digest, Marker>,
    issued: set<Token>, threads: seq<Thread>)

  datatype Action =
    | NewLogin(userId: string, sessionId: string, familyId: string, secret: string)
    | NewRefresh(token: Token, secret: string)
    | Run(k: nat)
    | LogoutOf(sessionId: string)
    | ReapOf(sessionId: string)

  datatype Turn = Turn(at: int, action: Action)

  predicate Fresh(w: State, token: Token) {
    Hmac(token) in w.markers && w.clock < w.markers[Hmac(token)].deadline
  }

  predicate Alive(s: Session, now: int) {
    s.revokedAt.None? && now < s.expiresAt
  }

  /** What session.save() writes: the modified fields, computed from the copy that was read. */
  function Saved(cur: Session, read: Session, next: Token, now: int, ttl: int): Session {
    cur.(previousRefreshTokenHash := Some(read.refreshTokenHash), refreshTokenHash := Hmac(next),
         tokenVersion := read.tokenVersion + 1, lastUsedAt := now, expiresAt := now + ttl)
  }

  /** One await of one presentation. */
  function Advance(w: State, t: Thread): (State, Thread) {
    var id := t.token.sessionId;
    match t.pc
    case LookUp =>
      (w, t.(pc := if id in w.sessions && Alive(w.sessions[id], w.clock) then Check(w.sessions[id]) else Ended(Unauthorized)))
    case Check(read) =>
      (w, t.(pc := if Fresh(w, t.token) || read.previousRefreshTokenHash == Some(Hmac(t.token)) then Revoke(read.familyId)
                   else if read.refreshTokenHash != Hmac(t.token) then Ended(Unauthorized)
                   else Reread))
    case Revoke(family) => (w.(sessions := RevokeFamily(w.sessions, family, w.clock)), t.(pc := Ended(ReuseDetected)))
    case Reread => (w, t.(pc := if id in w.sessions then Save(w.sessions[id]) else Ended(Unauthorized)))
    case Save(read) =>
      if id !in w.sessions then (w, t.(pc := Ended(Unauthorized)))
      else (w.(sessions := w.sessions[id := Saved(w.sessions[id], read, t.next, w.clock, w.ttl)]),
            t.(pc := Mark(read.refreshTokenHash, read.familyId)))
    case Mark(replaced, family) =>
      (w.(markers := w.markers[replaced := Marker(family, w.clock + w.ttl)]), t.(pc := Ended(Issued(t.next))))
    case Ended(_) => (w, t)
  }

  function Step(w0: State, e: Turn): State {
    var w := w0.(clock := e.at);
    match e.action
    case NewLogin(userId, sessionId, familyId, secret) =>
      var token := BuildRefreshToken(sessionId, secret);
      w.(sessions := w.sessions[sessionId := Session(userId, familyId, Hmac(token), None, 1, e.at, e.at + w.ttl, None)],
         issued := w.issued + {token})
    case NewRefresh(token, secret) =>
      var next := BuildRefreshToken(token.sessionId, secret);
      w.(threads := w.threads + [Thread(LookUp, token, next)], issued := w.issued + {next})
    case Run(k) =>
      if k >= |w.threads| then w
      else
        var (w', t) := Advance(w, w.threads[k]);
        w'.(threads := w.threads[k := t])
    case LogoutOf(id) => if id in w.sessions then w.(sessions := w.sessions[id := Revoked(w.sessions[id], e.at)]) else w
    case ReapOf(id) => if id in w.sessions && w.sessions[id].expiresAt <= e.at then w.(sessions := w.sessions - {id}) else w
  }

  /** New tokens are fresh, and a session id is never given out twice. */
  predicate Enabled(w: State, e: Turn) {
    && w.clock <= e.at
    && match e.action
       case NewLogin(_, sessionId, _, secret) => forall t :: t in w.issued ==> t.sessionId != sessionId
       case NewRefresh(token, secret) => BuildRefreshToken(token.sessionId, secret) !in w.issued
       case _ => true
  }

  function Empty(ttl: int): State {
    State(ttl, 0, map[], map[], {}, [])
  }

  // ---- What every interleaving keeps ----

  predicate StillToSave(pc: Pc) {
    pc.LookUp? || pc.Check? || pc.Reread? || pc.Save?
  }

  /** Nobody is about to store the token: it is, or was, somebody's current one. */
  predicate Stored(token: Token, issued: set<Token>, threads: seq<Thread>) {
    && token in issued
    && forall k :: 0 <= k < |threads| && threads[k].next == token ==> !StillToSave(threads[k].pc)
  }

  predicate NextDistinct(threads: seq<Thread>) {
    forall i, j :: 0 <= i < j < |threads| ==> threads[i].next != threads[j].next
  }

  predicate HashesDiffer(s: Session) {
    s.previousRefreshTokenHash != Some(s.refreshTokenHash)
  }

  predicate SessionOk(id: string, s: Session, issued: set<Token>, threads: seq<Thread>) {
    Stored(s.refreshTokenHash.token, issued, threads) && s.refreshTokenHash.token.sessionId == id && HashesDiffer(s)
  }

  predicate SessionsStored(sessions: map<string, Session>, issued: set<Token>, threads: seq<Thread>) {
    forall id :: id in sessions ==> SessionOk(id, sessions[id], issued, threads)
  }

  /** What a presentation has read as current, or been granted, is a stored token. */
  predicate ThreadOk(t: Thread, issued: set<Token>, threads: seq<Thread>) {
    && t.next in issued && t.next.sessionId == t.token.sessionId
    && (t.pc.Check? ==> Stored(t.pc.read.refreshTokenHash.token, issued, threads) && HashesDiffer(t.pc.read))
    && (t.pc.Save? ==> Stored(t.pc.read.refreshTokenHash.token, issued, threads))
    && (t.pc.Reread? || t.pc.Save? ==> Stored(t.token, issued, threads))
  }

  predicate Inv(w: State) {
    && SessionsStored(w.sessions, w.issued, w.threads)
    && NextDistinct(w.threads)
    && (forall k :: 0 <= k < |w.threads| ==> ThreadOk(w.threads[k], w.issued, w.threads))
  }

  /** Moving one thread on, past its save or not, leaves stored tokens stored. */
  lemma StoredOn(token: Token, issued: set<Token>, threads: seq<Thread>, k: nat, t: Thread)
    requires Stored(token, issued, threads) && k < |threads| && t.next == threads[k].next
    requires StillToSave(t.pc) ==> StillToSave(threads[k].pc)
    ensures Stored(token, issued, threads[k := t])
  {}

  lemma AdvanceFacts(w: State, t: Thread)
    ensures var (w', t') := Advance(w, t);
      && t'.next == t.next && t'.token == t.token && (StillToSave(t'.pc) ==> StillToSave(t.pc))
      && w' == w.(sessions := w'.sessions, markers := w'.markers)
      && forall id :: id in w'.sessions ==>
           && id in w.sessions
           && ((w'.sessions[id].refreshTokenHash == w.sessions[id].refreshTokenHash
                && w'.sessions[id].previousRefreshTokenHash == w.sessions[id].previousRefreshTokenHash)
               || (id == t.token.sessionId && t.pc.Save? && !StillToSave(t'.pc) && w'.sessions[id].refreshTokenHash == Hmac(t.next)
                   && w'.sessions[id].previousRefreshTokenHash == Some(t.pc.read.refreshTokenHash)))
  {}

  lemma RunKeepsSessions(w: State, k: nat)
    requires Inv(w) && k < |w.threads|
    ensures var (w', t) := Advance(w, w.threads[k]); SessionsStored(w'.sessions, w.issued, w.threads[k := t])
  {
    var (w', t) := Advance(w, w.threads[k]);
    var threads' := w.threads[k := t];
    AdvanceFacts(w, w.threads[k]);
    assert ThreadOk(w.threads[k], w.issued, w.threads);
    forall id | id in w'.sessions ensures SessionOk(id, w'.sessions[id], w.issued, threads') {
      assert SessionOk(id, w.sessions[id], w.issued, w.threads);
      if w'.sessions[id].refreshTokenHash == w.sessions[id].refreshTokenHash {
        StoredOn(w.sessions[id].refreshTokenHash.token, w.issued, w.threads, k, t);
      }
    }
  }

  lemma RunKeepsThreads(w: State, k: nat, i: nat)
    requires Inv(w) && k < |w.threads| && i < |w.threads|
    ensures var (w', t) := Advance(w, w.threads[k]); var threads' := w.threads[k := t]; ThreadOk(threads'[i], w.issued, threads')
  {
    var (w', t) := Advance(w, w.threads[k]);
    AdvanceFacts(w, w.threads[k]);
    var u := if i == k then t else w.threads[i];
    assert ThreadOk(w.threads[i], w.issued, w.threads);
    if u.pc.Check? || u.pc.Save? {
      StoredOn(u.pc.read.refreshTokenHash.token, w.issued, w.threads, k, t);
    }
    if u.pc.Reread? || u.pc.Save? {
      StoredOn(u.token, w.issued, w.threads, k, t);
    }
  }

  lemma RunKeeps(w: State, k: nat)
    requires Inv(w) && k < |w.threads|
    ensures var (w', t) := Advance(w, w.threads[k]); Inv(w'.(threads := w.threads[k := t]))
  {
    var (w', t) := Advance(w, w.threads[k]);
    AdvanceFacts(w, w.threads[k]);
    RunKeepsSessions(w, k);
    var threads' := w.threads[k := t];
    forall i | 0 <= i < |threads'| ensures ThreadOk(threads'[i], w.issued, threads') {
      RunKeepsThreads(w, k, i);
    }
  }

  lemma NewRefreshKeeps(w: State, token: Token, secret: string)
    requires Inv(w) && BuildRefreshToken(token.sessionId, secret) !in w.issued
    ensures var next := BuildRefreshToken(token.sessionId, secret);
      Inv(w.(threads := w.threads + [Thread(LookUp, token, next)], issued := w.issued + {next}))
  {
    var next := BuildRefreshToken(token.sessionId, secret);
    var threads', issued' := w.threads + [Thread(LookUp, token, next)], w.issued + {next};
    assert forall t :: Stored(t, w.issued, w.threads) ==> Stored(t, issued', threads');
    forall i | 0 <= i < |threads'| ensures ThreadOk(threads'[i], issued', threads') {
      if i < |w.threads| {
        assert ThreadOk(w.threads[i], w.issued, w.threads);
      }
    }
    forall i, j | 0 <= i < j < |threads'| ensures threads'[i].next != threads'[j].next {
      assert ThreadOk(w.threads[i], w.issued, w.threads);
    }
  }

  lemma NewLoginKeeps(w: State, sessionId: string, s: Session)
    requires Inv(w) && s.refreshTokenHash.token.sessionId == sessionId && HashesDiffer(s)
    requires forall t :: t in w.issued ==> t.sessionId != sessionId
    ensures Inv(w.(sessions := w.sessions[sessionId := s], issued := w.issued + {s.refreshTokenHash.token}))
  {
    var token := s.refreshTokenHash.token;
    var issued' := w.issued + {token};
    forall k | 0 <= k < |w.threads| ensures ThreadOk(w.threads[k], issued', w.threads) && w.threads[k].next != token {
      assert ThreadOk(w.threads[k], w.issued, w.threads);
    }
  }

  lemma StepKeeps(w: State, e: Turn)
    requires Inv(w) && Enabled(w, e)
    ensures Inv(Step(w, e))
  {
    var w0 := w.(clock := e.at);
    match e.action
    case Run(k) => if k < |w.threads| { RunKeeps(w0, k); }
    case NewRefresh(token, secret) => NewRefreshKeeps(w0, token, secret);
    case NewLogin(userId, sessionId, familyId, secret) =>
      NewLoginKeeps(w0, sessionId, Step(w, e).sessions[sessionId]);
    case LogoutOf(_) =>
    case ReapOf(_) =>
  }

  lemma InvKept()
    ensures Kept(Step, Enabled, Inv)
  {
    forall w: State, e: Turn | Inv(w) && Enabled(w, e) ensures Inv(Step(w, e)) {
      StepKeeps(w, e);
    }
  }

  /** Every stored hash belongs to an issued token that no presentation is about to store, in
      every interleaving from the empty store. */
  lemma {:induction false} StoredInEveryRun(ttl: int, events: seq<Turn>, n: nat)
    requires Possible(Step, Enabled, Empty(ttl), events) && n <= |events|
    ensures Inv(At(Step, Empty(ttl), events, n))
  {
    InvKept();
    InvariantAt(Step, Enabled, Inv, Empty(ttl), events, n);
  }

  // ---- Revoked for good ----

  /** The action is the write that revokes the session: its logout, or that of a presentation
      which has found reuse in its family. */
  predicate RevokesNow(w: State, action: Action, id: string)
    requires id in w.sessions
  {
    || action == LogoutOf(id)
    || (action.Run? && action.k < |w.threads| && w.threads[action.k].pc == Revoke(w.sessions[id].familyId))
  }

  lemma AdvanceRevokesIff(w: State, t: Thread, id: string)
    requires id in w.sessions
    ensures var w' := Advance(w, t).0;
      id in w'.sessions && (w'.sessions[id].revokedAt.Some? <==> w.sessions[id].revokedAt.Some? || t.pc == Revoke(w.sessions[id].familyId))
  {}

  /** Under every interleaving one action leaves a session revoked exactly if it was or if the
      action is such a write. */
  lemma RevokedIff(w: State, e: Turn, id: string)
    requires id in w.sessions && id in Step(w, e).sessions && !(e.action.NewLogin? && e.action.sessionId == id)
    ensures Step(w, e).sessions[id].revokedAt.Some? <==> w.sessions[id].revokedAt.Some? || RevokesNow(w, e.action, id)
  {
    if e.action.Run? && e.action.k < |w.threads| {
      AdvanceRevokesIff(w.(clock := e.at), w.threads[e.action.k], id);
    }
  }

  function RevokedNow(id: string): State -> bool {
    (w: State) => (exists t :: t in w.issued && t.sessionId == id) && (id in w.sessions ==> w.sessions[id].revokedAt.Some?)
  }

  lemma RunKeepsRevoked(w: State, t: Thread, id: string)
    requires id in w.sessions ==> w.sessions[id].revokedAt.Some?
    ensures var w' := Advance(w, t).0;
      w'.issued == w.issued && (id in w'.sessions ==> id in w.sessions && w'.sessions[id].revokedAt.Some?)
  {}

  lemma StepKeepsRevoked(w: State, e: Turn, id: string)
    requires Enabled(w, e) && RevokedNow(id)(w)
    ensures RevokedNow(id)(Step(w, e))
  {
    var t :| t in w.issued && t.sessionId == id;
    if e.action.Run? && e.action.k < |w.threads| {
      RunKeepsRevoked(w.(clock := e.at), w.threads[e.action.k], id);
    }
    assert t in Step(w, e).issued;
  }

  lemma RevokedNowStable(id: string)
    ensures Stable(Step, Enabled, Inv, RevokedNow(id))
  {
    forall w: State, e: Turn | Inv(w) && Enabled(w, e) && RevokedNow(id)(w) ensures RevokedNow(id)(Step(w, e)) {
      StepKeepsRevoked(w, e, id);
    }
  }

  /** However presentations overlap with a revocation, a revoked session stays revoked: a token
      issued to it by a presentation already under way is never usable. */
  lemma {:induction false} RevokedForGood(w: State, events: seq<Turn>, m: nat, n: nat, id: string)
    requires Inv(w) && Possible(Step, Enabled, w, events) && m <= n <= |events|
    requires RevokedNow(id)(At(Step, w, events, m))
    ensures var v := At(Step, w, events, n); id in v.sessions ==> !Alive(v.sessions[id], v.clock)
  {
    InvKept();
    RevokedNowStable(id);
    StableAt(Step, Enabled, Inv, RevokedNow(id), w, events, m, n);
  }

  // ---- Accepted twice only when overlapping ----

  /** The token was stored, and is no longer current. */
  predicate Replaced(w: State, token: Token) {
    && Stored(token, w.issued, w.threads)
    && (token.sessionId in w.sessions ==> w.sessions[token.sessionId].refreshTokenHash != Hmac(token))
  }

  /** The k-th presentation goes on to rotate the token. */
  predicate Accepts(w: State, e: Turn, k: nat, token: Token) {
    && e.action == Run(k) && k < |w.threads| && w.threads[k].token == token
    && w.threads[k].pc.Check? && Advance(w.(clock := e.at), w.threads[k]).1.pc.Reread?
  }

  /** The k-th presentation, if it is there, has not read the token as current. */
  function CannotAccept(token: Token, k: nat): State -> bool {
    (w: State) =>
      && Replaced(w, token)
      && (k < |w.threads| && w.threads[k].token == token && w.threads[k].pc.Check? ==>
            w.threads[k].pc.read.refreshTokenHash != Hmac(token))
  }

  lemma ReplacedStays(w: State, e: Turn, token: Token)
    requires Inv(w) && Enabled(w, e) && Replaced(w, token)
    ensures Replaced(Step(w, e), token)
  {
    if e.action.Run? && e.action.k < |w.threads| {
      var w0 := w.(clock := e.at);
      var (w', t) := Advance(w0, w.threads[e.action.k]);
      AdvanceFacts(w0, w.threads[e.action.k]);
      StoredOn(token, w.issued, w.threads, e.action.k, t);
    }
  }

  lemma CannotAcceptStable(token: Token, k: nat)
    ensures Stable(Step, Enabled, Inv, CannotAccept(token, k))
  {
    forall w: State, e: Turn | Inv(w) && Enabled(w, e) && CannotAccept(token, k)(w) ensures CannotAccept(token, k)(Step(w, e)) {
      ReplacedStays(w, e, token);
    }
  }

  /** The j-th presentation saves its rotation of the token. */
  predicate Saves(w: State, e: Turn, j: nat, token: Token) {
    e.action == Run(j) && j < |w.threads| && w.threads[j].token == token && w.threads[j].pc.Save? && token.sessionId in w.sessions
  }

  lemma SavingReplaces(w: State, e: Turn, j: nat, token: Token)
    requires Inv(w) && Enabled(w, e) && Saves(w, e, j, token)
    ensures Replaced(Step(w, e), token)
  {
    var t := w.threads[j];
    assert ThreadOk(t, w.issued, w.threads);
    assert t.next != token;
    StoredOn(token, w.issued, w.threads, j, Advance(w.(clock := e.at), t).1);
  }

  /** The k-th presentation compares the token it was given. */
  predicate Compares(w: State, e: Turn, k: nat, token: Token) {
    e.action == Run(k) && k < |w.threads| && w.threads[k].token == token && w.threads[k].pc.Check?
  }

  /** The k-th presentation has read the token as current and has not compared yet. */
  predicate HasRead(w: State, k: nat, token: Token) {
    && k < |w.threads| && w.threads[k].token == token && w.threads[k].pc.Check?
    && w.threads[k].pc.read.refreshTokenHash == Hmac(token)
  }

  /** One comparison grants the token exactly when the copy read has it as current and no
      marker for it is fresh. */
  lemma GrantIff(w: State, e: Turn, k: nat, token: Token)
    requires Inv(w) && Compares(w, e, k, token)
    ensures Accepts(w, e, k, token) <==> HasRead(w, k, token) && !Fresh(w.(clock := e.at), token)
  {
    assert ThreadOk(w.threads[k], w.issued, w.threads);
  }

  /** Past its lookup, and if it has not compared yet, with the token read as current. */
  function ReadAsCurrent(token: Token, k: nat): State -> bool {
    (w: State) =>
      && k < |w.threads| && w.threads[k].token == token && !w.threads[k].pc.LookUp?
      && (w.threads[k].pc.Check? ==> w.threads[k].pc.read.refreshTokenHash == Hmac(token))
  }

  lemma ReadAsCurrentStable(token: Token, k: nat)
    ensures Stable(Step, Enabled, Inv, ReadAsCurrent(token, k))
  {}

  /** A rotation of the token saves while the k-th presentation has not read it as current. */
  function SavesUnread(token: Token, j: nat, k: nat): (State, Turn) -> bool {
    (w: State, e: Turn) => Saves(w, e, j, token) && !HasRead(w, k, token)
  }

  lemma UnreadCannotAccept(token: Token, j: nat, k: nat)
    ensures Makes(Step, Enabled, Inv, SavesUnread(token, j, k), CannotAccept(token, k))
  {
    forall w: State, e: Turn | Inv(w) && Enabled(w, e) && SavesUnread(token, j, k)(w, e)
      ensures CannotAccept(token, k)(Step(w, e))
    {
      SavingReplaces(w, e, j, token);
    }
  }

  /** What a presentation compares after the save is what it had read before it. */
  lemma {:induction false} ReadBeforeTheSave(w: State, events: seq<Turn>, m: nat, n: nat, j: nat, k: nat, token: Token)
    requires Inv(w) && Possible(Step, Enabled, w, events) && m < n < |events|
    requires Saves(At(Step, w, events, m), events[m], j, token)
    requires Compares(At(Step, w, events, n), events[n], k, token)
    ensures HasRead(At(Step, w, events, n), k, token) <==> HasRead(At(Step, w, events, m), k, token)
  {
    InvKept();
    if HasRead(At(Step, w, events, m), k, token) {
      ReadAsCurrentStable(token, k);
      StableAt(Step, Enabled, Inv, ReadAsCurrent(token, k), w, events, m, n);
    } else {
      UnreadCannotAccept(token, j, k);
      CannotAcceptStable(token, k);
      EverAfter(Step, Enabled, Inv, SavesUnread(token, j, k), CannotAccept(token, k), w, events, m, n);
    }
  }

  // ---- Which markers are fresh ----

  /** The redis.set of a rotation that replaced the token. */
  predicate Marks(w: State, e: Turn, token: Token) {
    e.action.Run? && e.action.k < |w.threads| && w.threads[e.action.k].pc.Mark? && w.threads[e.action.k].pc.replaced == Hmac(token)
  }

  function Marking(token: Token): (State, Turn) -> bool {
    (w: State, e: Turn) => Marks(w, e, token)
  }

  /** Until when the token is marked. */
  function MarkDeadline(token: Token): State -> Option<int> {
    (w: State) => if Hmac(token) in w.markers then Some(w.markers[Hmac(token)].deadline) else None
  }

  function TimeOf(): Turn -> int { (e: Turn) => e.at }

  function ClockOf(): State -> int { (w: State) => w.clock }

  function LivesFor(ttl: int): State -> bool { (w: State) => w.ttl == ttl }

  /** One of the first n steps marked the token, less than the lifetime ago. */
  predicate MarkedWithin(ttl: int, events: seq<Turn>, n: nat, token: Token, now: int)
    requires n <= |events|
  {
    HappenedWithin(Step, Empty(ttl), events, Marking(token), TimeOf(), ttl, n, now)
  }

  lemma StepMarkers(w: State, e: Turn, token: Token)
    ensures var w' := Step(w, e);
      && w'.ttl == w.ttl && w'.clock == e.at
      && MarkDeadline(token)(w') == if Marks(w, e, token) then Some(e.at + w.ttl) else MarkDeadline(token)(w)
  {}

  lemma MarkersTimed(ttl: int, token: Token)
    ensures Kept(Step, Enabled, LivesFor(ttl)) && Timed(Step, Enabled, ClockOf(), TimeOf())
    ensures SetsUntil(Step, LivesFor(ttl), Marking(token), MarkDeadline(token), TimeOf(), ttl)
  {
    forall w: State, e: Turn
      ensures Step(w, e).ttl == w.ttl && Step(w, e).clock == e.at && (Enabled(w, e) ==> w.clock <= e.at)
      ensures MarkDeadline(token)(Step(w, e)) == if Marks(w, e, token) then Some(e.at + w.ttl) else MarkDeadline(token)(w)
    {
      StepMarkers(w, e, token);
    }
  }

  /** A marker is fresh exactly when the token was marked less than the lifetime ago. */
  lemma {:induction false} FreshIffMarked(ttl: int, events: seq<Turn>, n: nat, token: Token, now: int)
    requires Possible(Step, Enabled, Empty(ttl), events) && n <= |events|
    ensures Fresh(At(Step, Empty(ttl), events, n).(clock := now), token) <==> MarkedWithin(ttl, events, n, token, now)
  {
    MarkersTimed(ttl, token);
    LastsIff(Step, Enabled, LivesFor(ttl), ClockOf(), Marking(token), MarkDeadline(token), TimeOf(), ttl, Empty(ttl), events, n, now);
  }

  /** Once a rotation of the token has saved, another presentation of it is granted exactly when
      it had read the session before that save with the token as current, and its comparison
      comes before any marker for the token is set or after the last one has expired. */
  lemma {:induction false} GrantedAgainIff(ttl: int, events: seq<Turn>, m: nat, n: nat, j: nat, k: nat, token: Token)
    requires Possible(Step, Enabled, Empty(ttl), events) && m < n < |events|
    requires Saves(At(Step, Empty(ttl), events, m), events[m], j, token)
    requires Compares(At(Step, Empty(ttl), events, n), events[n], k, token)
    ensures Accepts(At(Step, Empty(ttl), events, n), events[n], k, token) <==>
      && HasRead(At(Step, Empty(ttl), events, m), k, token)
      && !MarkedWithin(ttl, events, n, token, events[n].at)
  {
    StoredInEveryRun(ttl, events, n);
    GrantIff(At(Step, Empty(ttl), events, n), events[n], k, token);
    ReadBeforeTheSave(Empty(ttl), events, m, n, j, k, token);
    FreshIffMarked(ttl, events, n, token, events[n].at);
  }

  // ---- Uninterrupted, and overlapping ----

  /** A presentation run to its end with nothing in between. */
  function Finish(w: State, t: Thread): (State, Reply)
    decreases match t.pc case LookUp => 6 case Check(_) => 5 case Reread => 4 case Save(_) => 3 case Mark(_, _) => 2 case Revoke(_) => 1 case Ended(_) => 0
  {
    if t.pc.Ended? then (w, t.pc.reply)
    else
      var (w', t') := Advance(w, t);
      Finish(w', t')
  }

  lemma {:induction false} FinishNext(w: State, t: Thread)
    requires !t.pc.Ended?
    ensures var (w', t') := Advance(w, t); Finish(w, t) == Finish(w', t')
  {}

  function AtomicWorld(w: State): World {
    World(w.ttl, w.clock, w.sessions, w.markers, map[], map[])
  }

  lemma {:induction false} FinishRotation(w: State, t: Thread)
    requires t.pc.Reread? && t.token.sessionId in w.sessions
    ensures var id := t.token.sessionId; var s := w.sessions[id];
      Finish(w, t) == (w.(sessions := w.sessions[id := Saved(s, s, t.next, w.clock, w.ttl)],
                          markers := w.markers[s.refreshTokenHash := Marker(s.familyId, w.clock + w.ttl)]), Issued(t.next))
  {
    var id := t.token.sessionId;
    var s := w.sessions[id];
    FinishNext(w, t);
    FinishNext(w, t.(pc := Save(s)));
    var w1 := w.(sessions := w.sessions[id := Saved(s, s, t.next, w.clock, w.ttl)]);
    FinishNext(w1, t.(pc := Mark(s.refreshTokenHash, s.familyId)));
    FinishNext(w1, t.(pc := Mark(s.refreshTokenHash, s.familyId)));
  }

  /** From the comparisons on. */
  lemma {:induction false} FinishChecked(w: State, token: Token, secret: string)
    requires token.sessionId in w.sessions && Alive(w.sessions[token.sessionId], w.clock)
    ensures var (w', r) := Finish(w, Thread(Check(w.sessions[token.sessionId]), token, BuildRefreshToken(token.sessionId, secret)));
      var (v, a) := Present(AtomicWorld(w), token, secret, w.clock);
      r == a && w'.sessions == v.sessions && w'.markers == v.markers
  {
    var t := Thread(Check(w.sessions[token.sessionId]), token, BuildRefreshToken(token.sessionId, secret));
    FinishNext(w, t);
    var t' := Advance(w, t).1;
    if t'.pc.Reread? {
      FinishRotation(w, t');
    } else if t'.pc.Revoke? {
      FinishNext(w, t');
    }
  }

  /** With nothing in between, the steps are the atomic rotateRefreshToken. */
  lemma {:induction false} UninterruptedIsAtomic(w: State, token: Token, secret: string)
    ensures var (w', r) := Finish(w, Thread(LookUp, token, BuildRefreshToken(token.sessionId, secret)));
      var (v, a) := Present(AtomicWorld(w), token, secret, w.clock);
      r == a && w'.sessions == v.sessions && w'.markers == v.markers
  {
    FinishNext(w, Thread(LookUp, token, BuildRefreshToken(token.sessionId, secret)));
    if token.sessionId in w.sessions && Alive(w.sessions[token.sessionId], w.clock) {
      FinishChecked(w, token, secret);
    }
  }

  /** The write of a logout is the atomic one, for the owner the lookup before it has found. */
  lemma LogoutIsAtomic(w: State, userId: string, id: string)
    ensures Logout(AtomicWorld(w), userId, id, w.clock).0.sessions ==
      if id in w.sessions && w.sessions[id].userId == userId then Step(w, Turn(w.clock, LogoutOf(id))).sessions else w.sessions
  {}

  /** A login and the reaping of a session are single writes: the atomic ones. */
  lemma LoginAndReapAreAtomic(w: State, userId: string, sessionId: string, familyId: string, secret: string)
    ensures Step(w, Turn(w.clock, NewLogin(userId, sessionId, familyId, secret))).sessions ==
      Login(AtomicWorld(w), userId, sessionId, familyId, secret, w.clock).0.sessions
    ensures Step(w, Turn(w.clock, ReapOf(sessionId))).sessions == Reap(AtomicWorld(w), sessionId, w.clock).0.sessions
  {}

  /** Two requests with the current token, both past their lookup before either goes on. */
  lemma OverlapAcceptsTwice(w: State, token: Token, a: string, b: string)
    requires w.threads == [] && token.sessionId in w.sessions && Alive(w.sessions[token.sessionId], w.clock)
    requires w.sessions[token.sessionId].refreshTokenHash == Hmac(token) && !Fresh(w, token)
    requires w.sessions[token.sessionId].previousRefreshTokenHash != Some(Hmac(token))
    ensures var now := w.clock;
      var v := Step(Step(Step(Step(w, Turn(now, NewRefresh(token, a))), Turn(now, NewRefresh(token, b))),
                         Turn(now, Run(0))), Turn(now, Run(1)));
      Accepts(v, Turn(now, Run(0)), 0, token) && Accepts(Step(v, Turn(now, Run(0))), Turn(now, Run(1)), 1, token)
  {
    var now, s := w.clock, w.sessions[token.sessionId];
    var ta := Thread(LookUp, token, BuildRefreshToken(token.sessionId, a));
    var tb := Thread(LookUp, token, BuildRefreshToken(token.sessionId, b));
    var w2 := Step(Step(w, Turn(now, NewRefresh(token, a))), Turn(now, NewRefresh(token, b)));
    assert w2.threads == [ta, tb];
    var v := Step(Step(w2, Turn(now, Run(0))), Turn(now, Run(1)));
    assert v.threads == [ta.(pc := Check(s)), tb.(pc := Check(s))];
  }
}
