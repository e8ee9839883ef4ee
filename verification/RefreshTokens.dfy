/** Refresh-token rotation of userService (token.service.js, session.repository.js and the
    callers in auth.service.js and session.service.js). The scheme is the one of section
    10.4 of RFC 6749 and section 4.14 of RFC 9700. */
module RefreshTokens {
  import opened Options
  import opened Runs

  /** A refresh token text that parses: its first two parts and whatever follows them. */
  datatype Token = Token(sessionId: string, secret: string, rest: string)

  /** hmacSha256 under the server's secret: equal digests mean equal tokens. */
  datatype Digest = Hmac(token: Token)

  // ---- Token text ----

  function Text(t: Token): string {
    t.sessionId + "." + t.secret + t.rest
  }

  function BuildRefreshToken(sessionId: string, secret: string): Token {
    Token(sessionId, secret, "")
  }

  /** Up to the first dot, or everything. */
  function FirstPart(s: string): (p: string)
    ensures |p| <= |s| && p == s[..|p|]
    ensures '.' !in p
    ensures |p| < |s| ==> s[|p|] == '.'
  {
    if s == "" || s[0] == '.' then "" else [s[0]] + FirstPart(s[1..])
  }

  /** split('.') with the first two parts present and non-empty. */
  function ParseRefreshToken(text: string): Option<Token> {
    var sessionId := FirstPart(text);
    if |sessionId| == |text| then None
    else
      var after := text[|sessionId| + 1..];
      var secret := FirstPart(after);
      if sessionId == "" || secret == "" then None
      else Some(Token(sessionId, secret, after[|secret|..]))
  }

  predicate PlainText(s: string) {
    s != "" && '.' !in s
  }

  lemma {:induction false} FirstPartOfJoin(a: string, rest: string)
    requires '.' !in a && (rest == "" || rest[0] == '.')
    ensures FirstPart(a + rest) == a
  {
    if a == "" {
      assert a + rest == rest;
    } else {
      FirstPartOfJoin(a[1..], rest);
      assert (a + rest)[1..] == a[1..] + rest;
    }
  }

  /** Parsing loses nothing, so the digest of a text is the digest of its parse. */
  lemma TextOfParse(text: string)
    ensures var p := ParseRefreshToken(text); p.Some? ==> Text(p.value) == text
  {
    var p := ParseRefreshToken(text);
    if p.Some? {
      var t := p.value;
      var after := text[|t.sessionId| + 1..];
      assert after == t.secret + t.rest;
      assert text == t.sessionId + "." + after;
    }
  }

  /** Parsing undoes building: neither UUIDs nor base64url secrets contain a dot. */
  lemma ParseOfBuild(sessionId: string, secret: string)
    requires PlainText(sessionId) && PlainText(secret)
    ensures ParseRefreshToken(Text(BuildRefreshToken(sessionId, secret))) == Some(BuildRefreshToken(sessionId, secret))
  {
    var text := Text(BuildRefreshToken(sessionId, secret));
    assert text == sessionId + ("." + secret);
    FirstPartOfJoin(sessionId, "." + secret);
    assert text[|sessionId| + 1..] == secret == secret + "";
    FirstPartOfJoin(secret, "");
  }

  lemma ParsedIsPlain(text: string)
    ensures var p := ParseRefreshToken(text);
      p.Some? ==> PlainText(p.value.sessionId) && PlainText(p.value.secret) && (p.value.rest == "" || p.value.rest[0] == '.')
  {}

  lemma PlainIsParsed(t: Token)
    requires PlainText(t.sessionId) && PlainText(t.secret) && (t.rest == "" || t.rest[0] == '.')
    ensures ParseRefreshToken(Text(t)) == Some(t)
  {
    var text, after := Text(t), t.secret + t.rest;
    assert text == t.sessionId + ("." + after);
    FirstPartOfJoin(t.sessionId, "." + after);
    assert text[|t.sessionId| + 1..] == after;
    FirstPartOfJoin(t.secret, t.rest);
    assert after[|t.secret|..] == t.rest;
  }

  /** A text parses to a token exactly if it is two parts, neither empty nor with a dot, joined by a
      dot, with nothing or a dot after them. */
  lemma ParseIff(text: string, t: Token)
    ensures ParseRefreshToken(text) == Some(t) <==>
      PlainText(t.sessionId) && PlainText(t.secret) && (t.rest == "" || t.rest[0] == '.') && text == Text(t)
  {
    TextOfParse(text);
    ParsedIsPlain(text);
    if PlainText(t.sessionId) && PlainText(t.secret) && (t.rest == "" || t.rest[0] == '.') {
      PlainIsParsed(t);
    }
  }

  // ---- State ----

  datatype Session = Session(
    userId: string, familyId: string,
    refreshTokenHash: Digest, previousRefreshTokenHash: Option<Digest>,
    tokenVersion: nat, lastUsedAt: int, expiresAt: int, revokedAt: Option<int>)

  /** A `rt:used:<hash>` key in Redis: its value and the moment it disappears. */
  datatype Marker = Marker(familyId: string, deadline: int)

  datatype Issue = Issue(token: Token, at: int)

  datatype World = World(
    ttl: int,                              // JWT_REFRESH_TTL_DAYS in milliseconds
    clock: int,
    sessions: map<string, Session>,
    markers: map<Digest, Marker>,
    tokens: map<string, seq<Issue>>,       // history: every token a session ever issued, in order
    families: map<string, string>)         // history: the family each session was created with

  datatype Reply = Issued(token: Token) | Unauthorized | ReuseDetected | Done

  function Start(ttl: int): World {
    World(ttl, 0, map[], map[], map[], map[])
  }

  // ---- Handlers ----

  /** issueTokensForUser without an existing session. */
  function Login(w: World, userId: string, sessionId: string, familyId: string, secret: string, now: int): (World, Reply) {
    var token := BuildRefreshToken(sessionId, secret);
    var s := Session(userId, familyId, Hmac(token), None, 1, now, now + w.ttl, None);
    (w.(sessions := w.sessions[sessionId := s],
        tokens := w.tokens[sessionId := [Issue(token, now)]],
        families := w.families[sessionId := familyId]),
     Issued(token))
  }

  function IssuedTo(tokens: map<string, seq<Issue>>, sessionId: string): seq<Issue> {
    if sessionId in tokens then tokens[sessionId] else []
  }

  /** issueTokensForUser for an existing session. */
  function Rotate(w: World, sessionId: string, secret: string, now: int): (World, Reply)
    requires sessionId in w.sessions
  {
    var s := w.sessions[sessionId];
    var token := BuildRefreshToken(sessionId, secret);
    var s' := s.(previousRefreshTokenHash := Some(s.refreshTokenHash), refreshTokenHash := Hmac(token),
                 tokenVersion := s.tokenVersion + 1, lastUsedAt := now, expiresAt := now + w.ttl);
    (w.(sessions := w.sessions[sessionId := s'],
        markers := w.markers[s.refreshTokenHash := Marker(s.familyId, now + w.ttl)],
        tokens := w.tokens[sessionId := IssuedTo(w.tokens, sessionId) + [Issue(token, now)]]),
     Issued(token))
  }

  function Revoked(s: Session, now: int): Session {
    if s.revokedAt.None? then s.(revokedAt := Some(now)) else s
  }

  function RevokeFamily(sessions: map<string, Session>, familyId: string, now: int): map<string, Session> {
    map k | k in sessions :: if sessions[k].familyId == familyId then Revoked(sessions[k], now) else sessions[k]
  }

  predicate Usable(w: World, sessionId: string, now: int) {
    && sessionId in w.sessions
    && w.sessions[sessionId].revokedAt.None?
    && now < w.sessions[sessionId].expiresAt
  }

  /** rotateRefreshToken. secret: the fresh one, used if a token is issued. */
  function Present(w: World, token: Token, secret: string, now: int): (World, Reply) {
    var sessionId := token.sessionId;
    if !Usable(w, sessionId, now) then (w, Unauthorized)
    else
      var s := w.sessions[sessionId];
      var incoming := Hmac(token);
      var used := incoming in w.markers && now < w.markers[incoming].deadline;
      if used || s.previousRefreshTokenHash == Some(incoming) then
        (w.(sessions := RevokeFamily(w.sessions, s.familyId, now)), ReuseDetected)
      else if incoming != s.refreshTokenHash then (w, Unauthorized)
      else Rotate(w, sessionId, secret, now)
  }

  /** AuthService.refresh. userOk: the session's user exists and may still refresh. */
  function Refresh(w: World, text: string, userOk: bool, secret: string, now: int): (World, Reply) {
    var token := ParseRefreshToken(text);
    if token.None? || !userOk then (w, Unauthorized) else Present(w, token.value, secret, now)
  }

  /** SessionService.revokeSession: logout of one session by its owner. */
  function Logout(w: World, userId: string, sessionId: string, now: int): (World, Reply) {
    if sessionId !in w.sessions || w.sessions[sessionId].userId != userId then (w, Unauthorized)
    else (w.(sessions := w.sessions[sessionId := Revoked(w.sessions[sessionId], now)]), Done)
  }

  function LogoutAll(w: World, userId: string, except: Option<string>, now: int): (World, Reply) {
    (w.(sessions := map k | k in w.sessions ::
          if w.sessions[k].userId == userId && Some(k) != except then Revoked(w.sessions[k], now) else w.sessions[k]),
     Done)
  }

  /** The TTL index on expiresAt removes a session some time after it has expired. */
  function Reap(w: World, sessionId: string, now: int): (World, Reply) {
    if sessionId in w.sessions && w.sessions[sessionId].expiresAt <= now
    then (w.(sessions := w.sessions - {sessionId}), Done)
    else (w, Done)
  }

  // ---- Runs ----

  datatype Call =
    | CallLogin(userId: string, sessionId: string, familyId: string, secret: string)
    | CallRefresh(text: string, userOk: bool, secret: string)
    | CallLogout(userId: string, sessionId: string)
    | CallLogoutAll(userId: string, except: Option<string>)
    | CallReap(sessionId: string)

  datatype Event = Event(at: int, call: Call)

  function Apply(w: World, call: Call, now: int): (World, Reply) {
    match call
    case CallLogin(userId, sessionId, familyId, secret) => Login(w, userId, sessionId, familyId, secret, now)
    case CallRefresh(text, userOk, secret) => Refresh(w, text, userOk, secret, now)
    case CallLogout(userId, sessionId) => Logout(w, userId, sessionId, now)
    case CallLogoutAll(userId, except) => LogoutAll(w, userId, except, now)
    case CallReap(sessionId) => Reap(w, sessionId, now)
  }

  function Step(w: World, e: Event): World {
    Apply(w.(clock := e.at), e.call, e.at).0
  }

  function ReplyTo(w: World, e: Event): Reply {
    Apply(w.(clock := e.at), e.call, e.at).1
  }

  predicate InHistory(h: seq<Issue>, token: Token) {
    exists i :: 0 <= i < |h| && h[i].token == token
  }

  /** The token was in the history and a later one replaced it. */
  predicate RotatedOut(h: seq<Issue>, token: Token) {
    exists i :: 0 <= i < |h| - 1 && h[i].token == token
  }

  /** What randomness guarantees: new session and family ids were never used before, and a
      new secret does not recreate a token of the session. The clock does not go back. */
  predicate Enabled(w: World, e: Event) {
    && w.clock <= e.at
    && match e.call
       case CallLogin(_, sessionId, familyId, secret) =>
         && sessionId !in w.tokens
         && (forall k :: k in w.families ==> w.families[k] != familyId)
       case CallRefresh(_, _, secret) =>
         forall k :: k in w.tokens ==> !InHistory(w.tokens[k], BuildRefreshToken(k, secret))
       case _ => true
  }

  // ---- The invariant ----

  /** A session's token history: built for that session, pairwise different, in time order. */
  predicate HistoryOk(sessionId: string, h: seq<Issue>, clock: int) {
    && h != []
    && h[|h| - 1].at <= clock
    && (forall i :: 0 <= i < |h| ==> h[i].token.sessionId == sessionId)
    && (forall i, j :: 0 <= i < j < |h| ==> h[i].token != h[j].token && h[i].at <= h[j].at)
  }

  /** tokenVersion n: n tokens issued; the stored hashes are those of the last two. */
  predicate SessionOk(s: Session, h: seq<Issue>, ttl: int)
    requires h != []
  {
    var n := |h|;
    && s.tokenVersion == n
    && s.refreshTokenHash == Hmac(h[n - 1].token)
    && s.previousRefreshTokenHash == (if n >= 2 then Some(Hmac(h[n - 2].token)) else None)
    && s.lastUsedAt == h[n - 1].at
    && s.expiresAt == h[n - 1].at + ttl
  }

  /** When the i-th token of a session stopped being current. */
  function RotatedOutAt(h: seq<Issue>, i: nat): int
    requires i < |h| - 1
  {
    h[i + 1].at
  }

  predicate MarkedUntil(markers: map<Digest, Marker>, token: Token, deadline: int) {
    Hmac(token) in markers && markers[Hmac(token)].deadline == deadline
  }

  /** Exactly the tokens rotated out carry a marker, for ttl from their rotation. */
  predicate MarkersOk(markers: map<Digest, Marker>, sessionId: string, h: seq<Issue>, ttl: int) {
    && (forall i {:trigger RotatedOutAt(h, i)} :: 0 <= i < |h| - 1 ==> MarkedUntil(markers, h[i].token, RotatedOutAt(h, i) + ttl))
    && (forall d :: d in markers && d.token.sessionId == sessionId ==> RotatedOut(h, d.token))
  }

  predicate FamiliesOk(families: map<string, string>) {
    forall k, l :: k in families && l in families && families[k] == families[l] ==> k == l
  }

  predicate SessionsOk(sessions: map<string, Session>, tokens: map<string, seq<Issue>>, families: map<string, string>, ttl: int) {
    forall k :: k in sessions ==>
      && k in tokens && tokens[k] != [] && SessionOk(sessions[k], tokens[k], ttl)
      && k in families && sessions[k].familyId == families[k]
  }

  predicate TokensOk(tokens: map<string, seq<Issue>>, markers: map<Digest, Marker>, clock: int, ttl: int) {
    && (forall k :: k in tokens ==> HistoryOk(k, tokens[k], clock) && MarkersOk(markers, k, tokens[k], ttl))
    && (forall d :: d in markers ==> d.token.sessionId in tokens)
  }

  predicate Inv(w: World) {
    && w.tokens.Keys == w.families.Keys
    && FamiliesOk(w.families)
    && SessionsOk(w.sessions, w.tokens, w.families, w.ttl)
    && TokensOk(w.tokens, w.markers, w.clock, w.ttl)
  }

  lemma FirstTokenOk(sessionId: string, secret: string, clock: int, markers: map<Digest, Marker>, ttl: int)
    requires forall d :: d in markers ==> d.token.sessionId != sessionId
    ensures var h := [Issue(BuildRefreshToken(sessionId, secret), clock)];
      HistoryOk(sessionId, h, clock) && MarkersOk(markers, sessionId, h, ttl)
  {}

  /** Two marker tables agree on every token that is not of the session. */
  predicate AgreeElsewhere(markers: map<Digest, Marker>, markers': map<Digest, Marker>, sessionId: string) {
    && (forall d :: d in markers && d.token.sessionId != sessionId ==> d in markers' && markers'[d] == markers[d])
    && (forall d :: d in markers' && d.token.sessionId != sessionId ==> d in markers)
  }

  lemma MarkersFrame(markers: map<Digest, Marker>, markers': map<Digest, Marker>, sessionId: string,
                     other: string, h: seq<Issue>, clock: int, ttl: int)
    requires AgreeElsewhere(markers, markers', sessionId) && other != sessionId
    requires HistoryOk(other, h, clock) && MarkersOk(markers, other, h, ttl)
    ensures MarkersOk(markers', other, h, ttl)
  {
    forall i | 0 <= i < |h| - 1 ensures MarkedUntil(markers', h[i].token, RotatedOutAt(h, i) + ttl) {
      assert h[i].token.sessionId == other;
      assert MarkedUntil(markers, h[i].token, RotatedOutAt(h, i) + ttl);
    }
  }

  lemma TokensUpdate(tokens: map<string, seq<Issue>>, markers: map<Digest, Marker>, markers': map<Digest, Marker>,
                     sessionId: string, h: seq<Issue>, clock: int, ttl: int)
    requires TokensOk(tokens, markers, clock, ttl) && AgreeElsewhere(markers, markers', sessionId)
    requires HistoryOk(sessionId, h, clock) && MarkersOk(markers', sessionId, h, ttl)
    ensures TokensOk(tokens[sessionId := h], markers', clock, ttl)
  {
    var tokens' := tokens[sessionId := h];
    forall k | k in tokens' ensures HistoryOk(k, tokens'[k], clock) && MarkersOk(markers', k, tokens'[k], ttl) {
      if k != sessionId {
        MarkersFrame(markers, markers', sessionId, k, tokens[k], clock, ttl);
      }
    }
  }

  lemma SessionsUpdate(sessions: map<string, Session>, tokens: map<string, seq<Issue>>, families: map<string, string>,
                       ttl: int, sessionId: string, s: Session, h: seq<Issue>)
    requires SessionsOk(sessions, tokens, families, ttl)
    requires sessionId in families && s.familyId == families[sessionId]
    requires h != [] && SessionOk(s, h, ttl)
    ensures SessionsOk(sessions[sessionId := s], tokens[sessionId := h], families, ttl)
  {}

  lemma FamiliesUpdate(families: map<string, string>, sessionId: string, familyId: string)
    requires FamiliesOk(families) && forall k :: k in families ==> families[k] != familyId
    ensures FamiliesOk(families[sessionId := familyId])
  {}

  lemma FamilyOfNewSession(sessions: map<string, Session>, tokens: map<string, seq<Issue>>, families: map<string, string>,
                           ttl: int, sessionId: string, familyId: string)
    requires SessionsOk(sessions, tokens, families, ttl) && sessionId !in tokens
    ensures SessionsOk(sessions, tokens, families[sessionId := familyId], ttl)
  {}

  lemma LoginKeepsTokens(w: World, sessionId: string, secret: string)
    requires TokensOk(w.tokens, w.markers, w.clock, w.ttl)
    requires sessionId !in w.tokens
    ensures var h := [Issue(BuildRefreshToken(sessionId, secret), w.clock)];
      TokensOk(w.tokens[sessionId := h], w.markers, w.clock, w.ttl)
  {
    FirstTokenOk(sessionId, secret, w.clock, w.markers, w.ttl);
    TokensUpdate(w.tokens, w.markers, w.markers, sessionId, [Issue(BuildRefreshToken(sessionId, secret), w.clock)], w.clock, w.ttl);
  }

  lemma LoginKeeps(w: World, userId: string, sessionId: string, familyId: string, secret: string)
    requires Inv(w) && sessionId !in w.tokens
    requires forall k :: k in w.families ==> w.families[k] != familyId
    ensures Inv(Login(w, userId, sessionId, familyId, secret, w.clock).0)
  {
    var w' := Login(w, userId, sessionId, familyId, secret, w.clock).0;
    LoginKeepsTokens(w, sessionId, secret);
    FamilyOfNewSession(w.sessions, w.tokens, w.families, w.ttl, sessionId, familyId);
    SessionsUpdate(w.sessions, w.tokens, w'.families, w.ttl, sessionId, w'.sessions[sessionId], w'.tokens[sessionId]);
    FamiliesUpdate(w.families, sessionId, familyId);
  }

  lemma AppendHistory(sessionId: string, h: seq<Issue>, clock: int, secret: string)
    requires HistoryOk(sessionId, h, clock)
    requires !InHistory(h, BuildRefreshToken(sessionId, secret))
    ensures HistoryOk(sessionId, h + [Issue(BuildRefreshToken(sessionId, secret), clock)], clock)
  {
  }

  lemma AppendMarker(markers: map<Digest, Marker>, markers': map<Digest, Marker>, sessionId: string,
                     h: seq<Issue>, h': seq<Issue>, next: Issue, familyId: string, clock: int, ttl: int)
    requires HistoryOk(sessionId, h, clock) && MarkersOk(markers, sessionId, h, ttl) && h' == h + [next]
    requires markers' == markers[Hmac(h[|h| - 1].token) := Marker(familyId, next.at + ttl)]
    ensures MarkersOk(markers', sessionId, h', ttl) && AgreeElsewhere(markers, markers', sessionId)
  {
    var last := h[|h| - 1].token;
    forall i | 0 <= i < |h'| - 1 ensures MarkedUntil(markers', h'[i].token, RotatedOutAt(h', i) + ttl) {
      if i < |h| - 1 {
        assert MarkedUntil(markers, h[i].token, RotatedOutAt(h, i) + ttl);
      }
    }
    forall d | d in markers' && d.token.sessionId == sessionId ensures RotatedOut(h', d.token) {
      var i := if d == Hmac(last) then |h| - 1 else var i :| 0 <= i < |h| - 1 && h[i].token == d.token; i;
      assert h'[i].token == d.token;
    }
  }

  lemma RotateKeepsTokens(w: World, sessionId: string, secret: string)
    requires TokensOk(w.tokens, w.markers, w.clock, w.ttl)
    requires sessionId in w.tokens && sessionId in w.sessions
    requires !InHistory(w.tokens[sessionId], BuildRefreshToken(sessionId, secret))
    requires w.sessions[sessionId].refreshTokenHash == Hmac(w.tokens[sessionId][|w.tokens[sessionId]| - 1].token)
    ensures var w' := Rotate(w, sessionId, secret, w.clock).0;
      TokensOk(w'.tokens, w'.markers, w.clock, w.ttl)
  {
    var w' := Rotate(w, sessionId, secret, w.clock).0;
    var h, h' := w.tokens[sessionId], w'.tokens[sessionId];
    AppendHistory(sessionId, h, w.clock, secret);
    assert w'.markers == w.markers[Hmac(h[|h| - 1].token) := Marker(w.sessions[sessionId].familyId, w.clock + w.ttl)];
    AppendMarker(w.markers, w'.markers, sessionId, h, h', h'[|h|], w.sessions[sessionId].familyId, w.clock, w.ttl);
    TokensUpdate(w.tokens, w.markers, w'.markers, sessionId, h', w.clock, w.ttl);
  }

  lemma RotateKeepsSession(s: Session, h: seq<Issue>, ttl: int, next: Issue)
    requires h != [] && SessionOk(s, h, ttl)
    ensures SessionOk(s.(previousRefreshTokenHash := Some(s.refreshTokenHash), refreshTokenHash := Hmac(next.token),
                         tokenVersion := s.tokenVersion + 1, lastUsedAt := next.at, expiresAt := next.at + ttl),
                      h + [next], ttl)
  {}

  lemma RotateKeepsSessions(w: World, sessionId: string, secret: string)
    requires SessionsOk(w.sessions, w.tokens, w.families, w.ttl) && sessionId in w.sessions
    ensures var w' := Rotate(w, sessionId, secret, w.clock).0;
      SessionsOk(w'.sessions, w'.tokens, w'.families, w'.ttl)
  {
    var w' := Rotate(w, sessionId, secret, w.clock).0;
    RotateKeepsSession(w.sessions[sessionId], w.tokens[sessionId], w.ttl, Issue(BuildRefreshToken(sessionId, secret), w.clock));
    SessionsUpdate(w.sessions, w.tokens, w.families, w.ttl, sessionId, w'.sessions[sessionId], w'.tokens[sessionId]);
  }

  lemma RotateKeeps(w: World, sessionId: string, secret: string)
    requires Inv(w) && sessionId in w.sessions
    requires !InHistory(w.tokens[sessionId], BuildRefreshToken(sessionId, secret))
    ensures Inv(Rotate(w, sessionId, secret, w.clock).0)
  {
    assert SessionOk(w.sessions[sessionId], w.tokens[sessionId], w.ttl);
    RotateKeepsTokens(w, sessionId, secret);
    RotateKeepsSessions(w, sessionId, secret);
    RotateKeepsKeys(w, sessionId, secret);
  }

  lemma RotateKeepsKeys(w: World, sessionId: string, secret: string)
    requires sessionId in w.sessions && sessionId in w.tokens
    ensures var w' := Rotate(w, sessionId, secret, w.clock).0;
      w'.tokens.Keys == w.tokens.Keys && w'.families == w.families && w'.clock == w.clock && w'.ttl == w.ttl
  {}

  /** Revoking, logging out and reaping touch neither histories nor markers. */
  predicate OnlyRevokes(w: World, w': World) {
    && w' == w.(sessions := w'.sessions)
    && w'.sessions.Keys <= w.sessions.Keys
    && forall k :: k in w'.sessions ==>
         && w'.sessions[k] == w.sessions[k].(revokedAt := w'.sessions[k].revokedAt)
         && (w.sessions[k].revokedAt.Some? ==> w'.sessions[k] == w.sessions[k])
  }

  lemma RevokeKeeps(w: World, w': World)
    requires Inv(w) && OnlyRevokes(w, w')
    ensures Inv(w')
  {}

  lemma ClockKeeps(w: World, now: int)
    requires Inv(w) && w.clock <= now
    ensures Inv(w.(clock := now))
  {
    forall k | k in w.tokens ensures HistoryOk(k, w.tokens[k], now) {
      assert HistoryOk(k, w.tokens[k], w.clock);
    }
  }

  lemma RevokingCallsOnlyRevoke(w: World, call: Call)
    requires !call.CallLogin? && !(Apply(w, call, w.clock).1.Issued?)
    ensures OnlyRevokes(w, Apply(w, call, w.clock).0)
  {}

  lemma StepKeepsInv(w: World, e: Event)
    requires Inv(w) && Enabled(w, e)
    ensures Inv(Step(w, e))
  {
    var w0 := w.(clock := e.at);
    ClockKeeps(w, e.at);
    if e.call.CallLogin? {
      LoginKeeps(w0, e.call.userId, e.call.sessionId, e.call.familyId, e.call.secret);
    } else if ReplyTo(w, e).Issued? {
      RotateKeeps(w0, ParseRefreshToken(e.call.text).value.sessionId, e.call.secret);
    } else {
      RevokingCallsOnlyRevoke(w0, e.call);
      RevokeKeeps(w0, Step(w, e));
    }
  }

  lemma InvKept()
    ensures Kept(Step, Enabled, Inv)
  {
    forall w: World, e: Event | Inv(w) && Enabled(w, e) ensures Inv(Step(w, e)) {
      StepKeepsInv(w, e);
    }
  }

  lemma {:induction false} InvAt(w: World, events: seq<Event>, n: nat)
    requires Inv(w) && Possible(Step, Enabled, w, events) && n <= |events|
    ensures Inv(At(Step, w, events, n))
  {
    InvKept();
    InvariantAt(Step, Enabled, Inv, w, events, n);
  }

  // ---- What a presented token gets ----

  /** The position of a token in a session's history. */
  predicate IsAt(h: seq<Issue>, token: Token, i: nat) {
    i < |h| && h[i].token == token
  }

  /** Rotated out less than ttl ago, or the immediate predecessor of the current token. */
  predicate Recent(h: seq<Issue>, token: Token, ttl: int, now: int) {
    exists i :: 0 <= i < |h| - 1 && IsAt(h, token, i) && (i == |h| - 2 || now < RotatedOutAt(h, i) + ttl)
  }

  /** The two comparisons of rotateRefreshToken, in terms of the history. */
  lemma LookupMeansRecent(sessionId: string, s: Session, h: seq<Issue>, markers: map<Digest, Marker>, token: Token,
                          ttl: int, now: int)
    requires HistoryOk(sessionId, h, now) && SessionOk(s, h, ttl) && MarkersOk(markers, sessionId, h, ttl)
    requires token.sessionId == sessionId
    ensures s.refreshTokenHash == Hmac(token) <==> IsAt(h, token, |h| - 1)
    ensures (Hmac(token) in markers && now < markers[Hmac(token)].deadline) || s.previousRefreshTokenHash == Some(Hmac(token))
      <==> Recent(h, token, ttl, now)
    ensures IsAt(h, token, |h| - 1) ==> !Recent(h, token, ttl, now)
  {
    var n := |h|;
    if Hmac(token) in markers && now < markers[Hmac(token)].deadline {
      assert RotatedOut(h, token);
      var i :| 0 <= i < n - 1 && h[i].token == token;
      assert MarkedUntil(markers, h[i].token, RotatedOutAt(h, i) + ttl);
      assert IsAt(h, token, i);
    }
    if n >= 2 && h[n - 2].token == token {
      assert IsAt(h, token, n - 2);
    }
    if Recent(h, token, ttl, now) {
      var i :| 0 <= i < n - 1 && IsAt(h, token, i) && (i == n - 2 || now < RotatedOutAt(h, i) + ttl);
      assert MarkedUntil(markers, h[i].token, RotatedOutAt(h, i) + ttl);
      assert h[i].token != h[n - 1].token;
    }
  }

  /** While its session is usable, a presented token gets exactly one of three answers: the
      current token is rotated; the immediate predecessor, or any older token rotated out
      less than ttl ago, is reported as reuse; everything else is refused. */
  lemma PresentAnswers(w: World, token: Token, secret: string)
    requires Inv(w) && Usable(w, token.sessionId, w.clock)
    ensures var h := w.tokens[token.sessionId];
      var r := Present(w, token, secret, w.clock).1;
      r == if Recent(h, token, w.ttl, w.clock) then ReuseDetected
           else if IsAt(h, token, |h| - 1) then Issued(BuildRefreshToken(token.sessionId, secret))
           else Unauthorized
  {
    LookupMeansRecent(token.sessionId, w.sessions[token.sessionId], w.tokens[token.sessionId], w.markers, token, w.ttl, w.clock);
  }

  lemma OneSessionPerFamily(w: World, k: string, l: string)
    requires Inv(w) && k in w.sessions && l in w.sessions
    ensures w.sessions[k].familyId == w.sessions[l].familyId <==> k == l
  {
    assert w.sessions[k].familyId == w.families[k] && w.sessions[l].familyId == w.families[l];
  }

  lemma RevokeFamilyOfOne(sessions: map<string, Session>, k: string, now: int)
    requires k in sessions && sessions[k].revokedAt.None?
    requires forall l :: l in sessions && sessions[l].familyId == sessions[k].familyId ==> l == k
    ensures RevokeFamily(sessions, sessions[k].familyId, now) == sessions[k := sessions[k].(revokedAt := Some(now))]
  {}

  /** Reuse revokes the one session of the family and no other session at all. */
  lemma ReuseRevokesExactlyTheFamily(w: World, token: Token, secret: string)
    requires Inv(w) && Present(w, token, secret, w.clock).1.ReuseDetected?
    ensures var s := w.sessions[token.sessionId];
      Present(w, token, secret, w.clock).0
        == w.(sessions := w.sessions[token.sessionId := s.(revokedAt := Some(w.clock))])
  {
    var k := token.sessionId;
    forall l | l in w.sessions && w.sessions[l].familyId == w.sessions[k].familyId ensures l == k {
      OneSessionPerFamily(w, l, k);
    }
    RevokeFamilyOfOne(w.sessions, k, w.clock);
  }

  // ---- Over whole runs ----

  /** The session can never issue a token again. */
  predicate Retired(w: World, sessionId: string) {
    sessionId in w.tokens && (sessionId in w.sessions ==> w.sessions[sessionId].revokedAt.Some?)
  }

  /** The token was rotated out at some point. */
  predicate Spent(w: World, token: Token) {
    token.sessionId in w.tokens && RotatedOut(w.tokens[token.sessionId], token)
  }

  /** What one step may do to a session's past. */
  predicate Continues(w: World, w': World, k: string)
    requires k in w.tokens && k in w.families
  {
    && k in w'.tokens && w.tokens[k] <= w'.tokens[k]
    && k in w'.families && w'.families[k] == w.families[k]
    && (Retired(w, k) ==> Retired(w', k) && w'.tokens[k] == w.tokens[k])
  }

  lemma RotateContinues(w: World, sessionId: string, secret: string, now: int, k: string)
    requires k in w.tokens && k in w.families && sessionId in w.tokens && Usable(w, sessionId, now)
    ensures Continues(w, Rotate(w, sessionId, secret, now).0, k)
  {}

  lemma RevokeContinues(w: World, w': World, k: string)
    requires k in w.tokens && k in w.families && OnlyRevokes(w, w')
    ensures Continues(w, w', k)
  {}

  lemma LoginContinues(w: World, userId: string, sessionId: string, familyId: string, secret: string, now: int, k: string)
    requires k in w.tokens && k in w.families && sessionId !in w.tokens
    ensures Continues(w, Login(w, userId, sessionId, familyId, secret, now).0, k)
  {}

  lemma ApplyContinues(w: World, call: Call, k: string)
    requires k in w.tokens && k in w.families && (forall l :: l in w.sessions ==> l in w.tokens)
    requires call.CallLogin? ==> call.sessionId !in w.tokens
    ensures Continues(w, Apply(w, call, w.clock).0, k)
  {
    if call.CallLogin? {
      LoginContinues(w, call.userId, call.sessionId, call.familyId, call.secret, w.clock, k);
    } else if Apply(w, call, w.clock).1.Issued? {
      RotateContinues(w, ParseRefreshToken(call.text).value.sessionId, call.secret, w.clock, k);
    } else {
      RevokingCallsOnlyRevoke(w, call);
      RevokeContinues(w, Apply(w, call, w.clock).0, k);
    }
  }

  lemma StepContinues(w: World, e: Event, k: string)
    requires Inv(w) && Enabled(w, e) && k in w.tokens
    ensures k in w.families && Continues(w, Step(w, e), k)
  {
    assert k in w.families && forall l :: l in w.sessions ==> l in w.tokens;
    ApplyContinues(w.(clock := e.at), e.call, k);
  }

  lemma SpentStaysSpent(w: World, e: Event, token: Token)
    requires Inv(w) && Enabled(w, e) && Spent(w, token)
    ensures Spent(Step(w, e), token)
  {
    StepContinues(w, e, token.sessionId);
    var h, h' := w.tokens[token.sessionId], Step(w, e).tokens[token.sessionId];
    var i :| 0 <= i < |h| - 1 && h[i].token == token;
    assert h'[i] == h[i];
  }

  lemma SpentIsRefused(w: World, token: Token, secret: string)
    requires Inv(w) && Spent(w, token)
    ensures !Present(w, token, secret, w.clock).1.Issued?
  {
    if Usable(w, token.sessionId, w.clock) {
      PresentAnswers(w, token, secret);
      assert HistoryOk(token.sessionId, w.tokens[token.sessionId], w.clock);
    }
  }

  lemma AcceptedBecomesSpent(w: World, token: Token, secret: string)
    requires Inv(w) && Present(w, token, secret, w.clock).1.Issued?
    ensures Spent(Present(w, token, secret, w.clock).0, token)
  {
    PresentAnswers(w, token, secret);
    var h := w.tokens[token.sessionId];
    var h' := Present(w, token, secret, w.clock).0.tokens[token.sessionId];
    assert h'[|h| - 1].token == token;
  }

  predicate Accepts(w: World, e: Event, text: string) {
    e.call.CallRefresh? && e.call.text == text && ReplyTo(w, e).Issued?
  }

  lemma AcceptingSpends(w: World, e: Event, text: string)
    requires Inv(w) && Enabled(w, e) && Accepts(w, e, text)
    ensures ParseRefreshToken(text).Some? && Spent(Step(w, e), ParseRefreshToken(text).value)
  {
    ClockKeeps(w, e.at);
    AcceptedBecomesSpent(w.(clock := e.at), ParseRefreshToken(text).value, e.call.secret);
  }

  lemma AcceptedIsIssued(w: World, e: Event, text: string)
    requires Accepts(w, e, text)
    ensures ParseRefreshToken(text).Some?
    ensures Present(w.(clock := e.at), ParseRefreshToken(text).value, e.call.secret, e.at).1.Issued?
  {}

  lemma SpentNotAccepted(w: World, e: Event, text: string)
    requires Inv(w) && Enabled(w, e)
    requires ParseRefreshToken(text).Some? && Spent(w, ParseRefreshToken(text).value)
    ensures !Accepts(w, e, text)
  {
    ClockKeeps(w, e.at);
    if Accepts(w, e, text) {
      AcceptedIsIssued(w, e, text);
      SpentIsRefused(w.(clock := e.at), ParseRefreshToken(text).value, e.call.secret);
    }
  }

  /** The text is that of a token rotated out. */
  function SpentText(text: string): World -> bool {
    (v: World) => ParseRefreshToken(text).Some? && Spent(v, ParseRefreshToken(text).value)
  }

  function Accepting(text: string): (World, Event) -> bool {
    (v: World, e: Event) => Accepts(v, e, text)
  }

  lemma SpentTextStable(text: string)
    ensures Stable(Step, Enabled, Inv, SpentText(text))
  {
    forall v: World, e: Event | Inv(v) && Enabled(v, e) && SpentText(text)(v) ensures SpentText(text)(Step(v, e)) {
      SpentStaysSpent(v, e, ParseRefreshToken(text).value);
    }
  }

  lemma SpentExcludesAccepting(text: string)
    ensures Makes(Step, Enabled, Inv, Accepting(text), SpentText(text)) && Forbids(Enabled, Inv, SpentText(text), Accepting(text))
  {
    forall v: World, e: Event | Inv(v) && Enabled(v, e) && Accepts(v, e, text) ensures SpentText(text)(Step(v, e)) {
      AcceptingSpends(v, e, text);
    }
    forall v: World, e: Event | Inv(v) && Enabled(v, e) && SpentText(text)(v) ensures !Accepts(v, e, text) {
      SpentNotAccepted(v, e, text);
    }
  }

  /** No refresh token is ever accepted twice, however long after its marker has gone,
      whatever is revoked, expired or reaped in between. */
  lemma {:induction false} NoTokenAcceptedTwice(w: World, events: seq<Event>, m: nat, n: nat, text: string)
    requires Inv(w) && Possible(Step, Enabled, w, events) && m < n < |events|
    requires Accepts(At(Step, w, events, m), events[m], text)
    ensures !Accepts(At(Step, w, events, n), events[n], text)
  {
    InvKept();
    SpentTextStable(text);
    SpentExcludesAccepting(text);
    NeverAfter(Step, Enabled, Inv, SpentText(text), Accepting(text), Accepting(text), w, events, m, n);
  }

  function Continuing(w: World, k: string): World -> bool
    requires k in w.tokens && k in w.families
  {
    (v: World) => Continues(w, v, k)
  }

  lemma ContinuesOn(w: World, v: World, v': World, k: string)
    requires k in w.tokens && k in w.families && Continues(w, v, k) && Continues(v, v', k)
    ensures Continues(w, v', k)
  {}

  lemma ContinuingStable(w: World, k: string)
    requires k in w.tokens && k in w.families
    ensures Stable(Step, Enabled, Inv, Continuing(w, k))
  {
    forall v: World, e: Event | Inv(v) && Enabled(v, e) && Continuing(w, k)(v) ensures Continuing(w, k)(Step(v, e)) {
      StepContinues(v, e, k);
      ContinuesOn(w, v, Step(v, e), k);
    }
  }

  /** Along any run, a session keeps its family and only ever appends to its history;
      once revoked or reaped it issues nothing more. */
  lemma {:induction false} HistoryOverRuns(w: World, events: seq<Event>, n: nat, k: string)
    requires Inv(w) && Possible(Step, Enabled, w, events) && n <= |events| && k in w.tokens
    ensures k in w.families && Continues(w, At(Step, w, events, n), k)
  {
    assert k in w.families;
    InvKept();
    ContinuingStable(w, k);
    StableAt(Step, Enabled, Inv, Continuing(w, k), w, events, 0, n);
  }

  /** In every run a live session with tokenVersion n has issued exactly n tokens, stores the
      last as current and the one before as previous, and still has its first family. */
  lemma {:induction false} RotationHistory(ttl: int, events: seq<Event>, n: nat, k: string)
    requires Possible(Step, Enabled, Start(ttl), events) && n <= |events| && k in At(Step, Start(ttl), events, n).sessions
    ensures var w := At(Step, Start(ttl), events, n); var s := w.sessions[k];
      && k in w.tokens && k in w.families && s.familyId == w.families[k]
      && |w.tokens[k]| == s.tokenVersion >= 1
      && s.refreshTokenHash == Hmac(w.tokens[k][s.tokenVersion - 1].token)
      && s.previousRefreshTokenHash ==
           (if s.tokenVersion >= 2 then Some(Hmac(w.tokens[k][s.tokenVersion - 2].token)) else None)
      && forall i, j :: 0 <= i < j < |w.tokens[k]| ==> w.tokens[k][i].token != w.tokens[k][j].token
  {
    InvAt(Start(ttl), events, n);
    var w := At(Step, Start(ttl), events, n);
    assert HistoryOk(k, w.tokens[k], w.clock) && SessionOk(w.sessions[k], w.tokens[k], w.ttl);
  }

  lemma RevokingOne(w: World, k: string)
    requires k in w.sessions && k in w.tokens && w.sessions[k].revokedAt.None?
    ensures var w' := w.(sessions := w.sessions[k := w.sessions[k].(revokedAt := Some(w.clock))]);
      OnlyRevokes(w, w') && Retired(w', k)
  {}

  lemma ReuseRetires(w: World, token: Token, secret: string)
    requires Inv(w) && Present(w, token, secret, w.clock).1.ReuseDetected?
    ensures var w' := Present(w, token, secret, w.clock).0;
      Inv(w') && token.sessionId in w.tokens && w'.tokens == w.tokens && Retired(w', token.sessionId)
  {
    ReuseRevokesExactlyTheFamily(w, token, secret);
    var k := token.sessionId;
    var w' := w.(sessions := w.sessions[k := w.sessions[k].(revokedAt := Some(w.clock))]);
    assert k in w.tokens;
    RevokingOne(w, k);
    RevokeKeeps(w, w');
  }

  /** After reuse is detected the session issues nothing, whatever follows. */
  lemma {:induction false} ReuseIsFinal(w: World, token: Token, secret: string, events: seq<Event>, n: nat)
    requires Inv(w) && Present(w, token, secret, w.clock).1.ReuseDetected?
    requires Possible(Step, Enabled, Present(w, token, secret, w.clock).0, events) && n <= |events|
    ensures var w' := At(Step, Present(w, token, secret, w.clock).0, events, n);
      && token.sessionId in w.tokens && token.sessionId in w'.tokens
      && w'.tokens[token.sessionId] == w.tokens[token.sessionId]
      && !Usable(w', token.sessionId, w'.clock)
  {
    ReuseRetires(w, token, secret);
    HistoryOverRuns(Present(w, token, secret, w.clock).0, events, n, token.sessionId);
  }
}
