/** The session handlers of userService as they run: one object holding the session
    collection and the Redis markers, updated in place and proved to do what RefreshTokens
    says. The token histories are kept alongside as ghost state. */
module TokenService {
  import opened Options
  import opened RefreshTokens

  class Sessions {
    const ttl: int
    var sessions: map<string, Session>
    var markers: map<Digest, Marker>
    ghost var tokens: map<string, seq<Issue>>
    ghost var families: map<string, string>

    ghost function View(now: int): World
      reads this
    {
      World(ttl, now, sessions, markers, tokens, families)
    }

    constructor (ttl: int)
      ensures this.ttl == ttl && View(0) == Start(ttl)
    {
      this.ttl := ttl;
      sessions, markers, tokens, families := map[], map[], map[], map[];
    }

    /** existing: the session to rotate; otherwise a session is created under the new ids. */
    method IssueTokensForUser(userId: string, existing: Option<string>, newSessionId: string, newFamilyId: string,
                              secret: string, now: int) returns (token: Token)
      requires existing.Some? ==> existing.value in sessions
      modifies this
      ensures (View(now), Issued(token)) ==
        if existing.Some? then Rotate(old(View(now)), existing.value, secret, now)
        else Login(old(View(now)), userId, newSessionId, newFamilyId, secret, now)
    {
      var sessionId := if existing.Some? then existing.value else newSessionId;
      token := BuildRefreshToken(sessionId, secret);
      var refreshTokenHash := Hmac(token);
      var expiresAt := now + ttl;
      if existing.None? {
        sessions := sessions[sessionId := Session(userId, newFamilyId, refreshTokenHash, None, 1, now, expiresAt, None)];
        tokens := tokens[sessionId := [Issue(token, now)]];
        families := families[sessionId := newFamilyId];
      } else {
        var session := sessions[sessionId];
        session := session.(previousRefreshTokenHash := Some(session.refreshTokenHash));
        session := session.(refreshTokenHash := refreshTokenHash);
        session := session.(tokenVersion := session.tokenVersion + 1);
        session := session.(lastUsedAt := now);
        session := session.(expiresAt := expiresAt);
        sessions := sessions[sessionId := session];
        markers := markers[session.previousRefreshTokenHash.value := Marker(session.familyId, now + ttl)];
        tokens := tokens[sessionId := IssuedTo(tokens, sessionId) + [Issue(token, now)]];
      }
    }

    method RotateRefreshToken(token: Token, secret: string, now: int) returns (r: Reply)
      modifies this
      ensures (View(now), r) == Present(old(View(now)), token, secret, now)
    {
      var sessionId := token.sessionId;
      if sessionId !in sessions {
        return Unauthorized;
      }
      var session := sessions[sessionId];
      if session.revokedAt.Some? || session.expiresAt <= now {
        return Unauthorized;
      }
      var incomingHash := Hmac(token);
      var usedFamily := incomingHash in markers && now < markers[incomingHash].deadline;
      var isCurrent := incomingHash == session.refreshTokenHash;
      var isPrevious := session.previousRefreshTokenHash.Some? && incomingHash == session.previousRefreshTokenHash.value;
      if usedFamily || isPrevious {
        RevokeFamilyOf(session.familyId, now);
        return ReuseDetected;
      }
      if !isCurrent {
        return Unauthorized;
      }
      var next := IssueTokensForUser(session.userId, Some(sessionId), "", "", secret, now);
      return Issued(next);
    }

    method RevokeFamilyOf(familyId: string, now: int)
      modifies this`sessions
      ensures sessions == RevokeFamily(old(sessions), familyId, now)
    {
      sessions := map k | k in sessions ::
        if sessions[k].familyId == familyId && sessions[k].revokedAt.None?
        then sessions[k].(revokedAt := Some(now)) else sessions[k];
    }

    method RefreshWith(text: string, userOk: bool, secret: string, now: int) returns (r: Reply)
      modifies this
      ensures (View(now), r) == Refresh(old(View(now)), text, userOk, secret, now)
    {
      var token := ParseRefreshToken(text);
      if token.None? || token.value.sessionId !in sessions || !userOk {
        return Unauthorized;
      }
      r := RotateRefreshToken(token.value, secret, now);
    }

    method RevokeSession(userId: string, sessionId: string, now: int) returns (r: Reply)
      modifies this
      ensures (View(now), r) == Logout(old(View(now)), userId, sessionId, now)
    {
      if sessionId !in sessions || sessions[sessionId].userId != userId {
        return Unauthorized;
      }
      if sessions[sessionId].revokedAt.None? {
        sessions := sessions[sessionId := sessions[sessionId].(revokedAt := Some(now))];
      }
      assert sessions == old(sessions)[sessionId := Revoked(old(sessions)[sessionId], now)];
      return Done;
    }

    method RevokeAll(userId: string, except: Option<string>, now: int) returns (r: Reply)
      modifies this
      ensures (View(now), r) == LogoutAll(old(View(now)), userId, except, now)
    {
      sessions := map k | k in sessions ::
        if sessions[k].userId == userId && sessions[k].revokedAt.None? && Some(k) != except
        then sessions[k].(revokedAt := Some(now)) else sessions[k];
      assert sessions == LogoutAll(old(View(now)), userId, except, now).0.sessions;
      return Done;
    }
  }
}
