/** What the calls on accounts achieve, said of the stored fields and of the calls made: when
    each call succeeds and what it then changes, and which calls an account's flags go back to. */
module AccountOutcomes {
  import opened Options
  import opened Runs
  import opened OtpCode
  import opened Accounts

  // ---- Codes ----

  /** The record is there, still valid and not locked. */
  predicate Open(c: Option<Code>, now: int) {
    c.Some? && now < c.value.expiresAt && !(c.value.lockedUntil.Some? && now < c.value.lockedUntil.value)
  }

  /** The code that was sent, in time and not locked out. */
  predicate Correct(c: Option<Code>, identifier: string, otp: string, now: int) {
    Open(c, now) && c.value.codeHash == OtpDigest(identifier, otp)
  }

  /** The record is locked, or this wrong guess is the last one allowed. */
  predicate LocksOut(c: Option<Code>, identifier: string, otp: string, now: int) {
    && c.Some? && now < c.value.expiresAt
    && (|| (c.value.lockedUntil.Some? && now < c.value.lockedUntil.value)
        || (c.value.codeHash != OtpDigest(identifier, otp) && c.value.attempts + 1 >= c.value.maxAttempts))
  }

  /** A guess is right exactly if the record is open and holds the digest of this code for this
      address; it then uses the record up. A wrong one on an open record counts, and locks it for
      a while from the last allowed attempt on. Any other guess changes nothing. */
  lemma GuessIff(c: Option<Code>, identifier: string, otp: string, now: int, lock: int)
    requires lock > 0
    ensures var (v, left) := Guess(c, OtpDigest(identifier, otp), now, lock);
      && (v == Right <==> Correct(c, identifier, otp, now))
      && (v == Right ==> left.None?)
      && (v.Wrong? <==> Open(c, now) && !Correct(c, identifier, otp, now))
      && (v.Wrong? ==>
            && left == Some(Code(c.value.codeHash, c.value.expiresAt, c.value.attempts + 1, c.value.maxAttempts, left.value.lockedUntil))
            && left.value.lockedUntil == (if c.value.attempts + 1 >= c.value.maxAttempts then Some(now + lock) else c.value.lockedUntil)
            && (v.lockedNow <==> c.value.attempts + 1 >= c.value.maxAttempts))
      && (v == Missing <==> c.None? || c.value.expiresAt <= now)
      && (v == Missing || v == Refused ==> left == c)
  {}

  // ---- Sends ----

  /** Sends counted under the key in the window that is open now. */
  function Counted(windows: map<RateKey, Window>, key: RateKey, now: int): int {
    if key in windows && now < windows[key].resetsAt then windows[key].count else 0
  }

  /** One more send is counted, in the open window or in a new one. */
  predicate CountsOne(windows: map<RateKey, Window>, windows': map<RateKey, Window>, key: RateKey, now: int, windowMs: int) {
    && key in windows' && windows'[key].count == Counted(windows, key, now) + 1
    && windows'[key].resetsAt == (if key in windows && now < windows[key].resetsAt then windows[key].resetsAt else now + windowMs)
  }

  predicate SameWindow(windows: map<RateKey, Window>, windows': map<RateKey, Window>, key: RateKey) {
    (key in windows' <==> key in windows) && (key in windows ==> windows'[key] == windows[key])
  }

  lemma RateLimitIff(w: World, ch: Channel, ip: RateKey, also: Option<RateKey>, subject: RateKey, now: int)
    requires ip != subject && also != Some(ip) && also != Some(subject)
    ensures var (w', allowed) := RateLimit(w, ch, ip, also, subject, now);
      && w' == w.(windows := w'.windows)
      && (allowed <==>
            && Counted(w.windows, ip, now) < ch.sendMax
            && (also.Some? ==> Counted(w.windows, also.value, now) < ch.sendMax)
            && Counted(w.windows, subject, now) < ch.subjectMax)
      && CountsOne(w.windows, w'.windows, ip, now, ch.window)
      && (also.Some? ==> CountsOne(w.windows, w'.windows, also.value, now, ch.window))
      && CountsOne(w.windows, w'.windows, subject, now, ch.window)
      && (forall key :: key != ip && key != subject && also != Some(key) ==> SameWindow(w.windows, w'.windows, key))
  {}

  predicate Cooling(w: World, key: CooldownKey, now: int) {
    key in w.cooldowns && now < w.cooldowns[key]
  }

  predicate EmailQuotaLeft(env: Env, w: World, email: string, ip: string, now: int) {
    Counted(w.windows, EmailIp(ip), now) < env.email.sendMax && Counted(w.windows, EmailAddress(email), now) < env.email.subjectMax
  }

  predicate PhoneQuotaLeft(env: Env, w: World, id: nat, phone: string, ip: string, now: int) {
    && Counted(w.windows, PhoneIp(ip), now) < env.phone.sendMax
    && Counted(w.windows, PhoneUser(id), now) < env.phone.sendMax
    && Counted(w.windows, PhoneNumber(phone), now) < env.phone.subjectMax
  }

  predicate IsAwaiting(users: seq<Option<User>>, id: nat, email: string) {
    id < |users| && users[id].Some? && users[id].value.email == email && !users[id].value.emailVerified
  }

  /** Some account with the e-mail still has to verify it. */
  predicate Awaits(users: seq<Option<User>>, email: string) {
    exists id {:trigger IsAwaiting(users, id, email)} :: 0 <= id < |users| && IsAwaiting(users, id, email)
  }

  lemma {:induction false} FoundIs(w: World, id: nat, email: string)
    requires AccountsOk(w) && Live(w.users, id).Some?
    ensures w.users[id].value.email == email <==> FindByEmail(w.users, email) == Some(id)
  {}

  lemma {:induction false} AwaitsIff(w: World, email: string)
    requires AccountsOk(w)
    ensures var id := FindByEmail(w.users, email); Awaits(w.users, email) <==> id.Some? && !w.users[id.value].value.emailVerified
  {
    var id := FindByEmail(w.users, email);
    if id.Some? && !w.users[id.value].value.emailVerified {
      assert IsAwaiting(w.users, id.value, email);
    }
  }

  /** Asking for an e-mail code is answered from the quotas and the cooldown alone, so the answer
      does not tell whether there is an account; a new code for the address, valid for its whole
      time, is stored exactly if it was answered as sent and some account awaits it. */
  lemma StartEmailIff(env: Env, w: World, email: string, ip: string, otp: string, now: int)
    requires AccountsOk(w)
    ensures var (w', r) := StartEmail(env, w, email, ip, otp, now);
      && r == (if !EmailQuotaLeft(env, w, email, ip, now) then RateLimited
               else if Cooling(w, CoolEmail(email), now) then CooldownActive else Sent)
      && w'.users == w.users
      && w'.cooldowns == (if r == Sent then w.cooldowns[CoolEmail(email) := now + env.email.cooldown] else w.cooldowns)
      && w'.codes == (if r == Sent && Awaits(w.users, email)
                      then w.codes[ByEmail(email) := Code(OtpDigest(email, otp), now + env.email.ttl, 0, env.email.maxAttempts, None)]
                      else w.codes)
  {
    RateLimitIff(w, env.email, EmailIp(ip), None, EmailAddress(email), now);
    AwaitsIff(w, email);
  }

  /** The account's number becomes an unverified one; a verified account goes back to waiting for
      a phone code, unless it is waiting for its face. */
  function WithNewPhone(u: User, phone: string): User {
    User(u.email, Some(phone), u.emailVerified, false, u.faceVerified,
         if u.emailVerified && u.status != PendingFace then PendingPhone else u.status, u.deadline)
  }

  /** Asking for a phone code: who is refused, and what the account and the stored code are after. */
  lemma StartPhoneIff(env: Env, w: World, id: nat, phone: string, ip: string, otp: string, now: int)
    ensures var (w', r) := StartPhone(env, w, id, phone, ip, otp, now); var u := Live(w.users, id);
      && r == (if u.None? then NotFound
               else if !PhoneQuotaLeft(env, w, id, phone, ip, now) then RateLimited
               else if Cooling(w, CoolUser(id), now) then CooldownActive
               else if u.value.phone != Some(phone) && env.phoneIndex && PhoneTaken(w.users, phone, id) then PhoneExists
               else Sent)
      && w'.users == (if r == Sent && u.value.phone != Some(phone) then w.users[id := Some(WithNewPhone(u.value, phone))] else w.users)
      && w'.codes == (if r == Sent || r == PhoneExists
                      then w.codes[ByPhone(id, phone) := Code(OtpDigest(phone, otp), now + env.phone.ttl, 0, env.phone.maxAttempts, None)]
                      else w.codes)
  {
    RateLimitIff(w, env.phone, PhoneIp(ip), Some(PhoneUser(id)), PhoneNumber(phone), now);
  }

  // ---- Verifying ----

  /** An account whose e-mail has just been verified waits for its phone, or for its face if the
      phone was verified before. */
  function WithEmailVerified(env: Env, u: User, now: int): User {
    User(u.email, u.phone, true, u.phoneVerified, u.faceVerified,
         if u.phoneVerified then PendingFace else PendingPhone, if u.phoneVerified then Some(now + env.activationMs) else u.deadline)
  }

  /** An e-mail is confirmed exactly for an account that has it and has verified it already, or
      that presents the code sent to it; in the second case that account, and no other, moves on. */
  lemma VerifyEmailIff(env: Env, w: World, email: string, otp: string, now: int, id: nat)
    requires AccountsOk(w) && env.email.cooldown > 0 && Live(w.users, id).Some?
    ensures var (w', r) := VerifyEmail(env, w, email, otp, now); var u := w.users[id].value;
      && |w'.users| == |w.users|
      && (u.email == email ==>
            && (r == Verified <==> u.emailVerified || Correct(Lookup(w.codes, ByEmail(email)), email, otp, now))
            && (r == Locked <==> !u.emailVerified && LocksOut(Lookup(w.codes, ByEmail(email)), email, otp, now))
            && r in {Verified, Locked, Invalid})
      && w'.users[id] == Some(if u.email == email && r == Verified && !u.emailVerified then WithEmailVerified(env, u, now) else u)
  {
    FoundIs(w, id, email);
    GuessIff(Lookup(w.codes, ByEmail(email)), email, otp, now, env.email.cooldown);
    assert AccountOk(w.users[id].value, id, w);
  }

  lemma {:induction false} VerifyEmailUnknown(env: Env, w: World, email: string, otp: string, now: int)
    requires FindByEmail(w.users, email).None?
    ensures VerifyEmail(env, w, email, otp, now) == (w, Invalid)
  {}

  /** The number that was proved becomes the account's verified one; an account that waited for it
      now waits for its face, for the activation period. */
  function WithPhoneVerified(env: Env, u: User, phone: string, now: int): User {
    var advances := u.emailVerified && u.status == PendingPhone;
    User(u.email, Some(phone), u.emailVerified, true, u.faceVerified,
         if advances then PendingFace else u.status, if advances then Some(now + env.activationMs) else u.deadline)
  }

  /** A phone number is confirmed exactly for the account it was sent for, with the code sent to
      it, unless the unique index holds it for another. */
  lemma VerifyPhoneIff(env: Env, w: World, id: nat, phone: string, otp: string, now: int)
    requires env.phone.cooldown > 0
    ensures var (w', r) := VerifyPhone(env, w, id, phone, otp, now); var u := Live(w.users, id);
      && (r == Verified <==>
            u.Some? && Correct(Lookup(w.codes, ByPhone(id, phone)), phone, otp, now) && !(env.phoneIndex && PhoneTaken(w.users, phone, id)))
      && w'.users == (if r == Verified then w.users[id := Some(WithPhoneVerified(env, u.value, phone, now))] else w.users)
      && (r == NotFound <==> u.None?)
      && (r == Locked <==> u.Some? && LocksOut(Lookup(w.codes, ByPhone(id, phone)), phone, otp, now))
      && (r == PhoneExists <==> u.Some? && Correct(Lookup(w.codes, ByPhone(id, phone)), phone, otp, now)
                                && env.phoneIndex && PhoneTaken(w.users, phone, id))
      && r in {Verified, NotFound, Locked, PhoneExists, Invalid}
  {
    GuessIff(Lookup(w.codes, ByPhone(id, phone)), phone, otp, now, env.phone.cooldown);
  }

  // ---- Creating, activating and deleting ----

  predicate EmailFree(users: seq<Option<User>>, email: string) {
    forall i :: 0 <= i < |users| && users[i].Some? ==> users[i].value.email != email
  }

  /** Registering stores a new account, with nothing verified, exactly if no live one has the
      e-mail and the index does not hold the number; the account is stored even if its first code
      is then refused. */
  lemma RegisterIff(env: Env, w: World, email: string, phone: string, ip: string, otp: string, now: int)
    requires AccountsOk(w)
    ensures var (w', r) := Register(env, w, email, phone, ip, otp, now);
      var stores := EmailFree(w.users, email) && !(env.phoneIndex && PhoneTaken(w.users, phone, -1));
      && (r == EmailExists <==> !EmailFree(w.users, email))
      && (r == PhoneExists <==> EmailFree(w.users, email) && !stores)
      && w'.users == (if stores then w.users + [Some(User(email, Some(phone), false, false, false, PendingEmail, None))] else w.users)
      && (r == Created(|w.users|) <==> stores && EmailQuotaLeft(env, w, email, ip, now) && !Cooling(w, CoolEmail(email), now))
  {
    RateLimitIff(w.(users := w.users + [Some(User(email, Some(phone), false, false, false, PendingEmail, None))]),
                 env.email, EmailIp(ip), None, EmailAddress(email), now);
  }

  /** An account made by a provider login has the e-mail verified as the provider says. */
  lemma OAuthRegisterIff(env: Env, w: World, email: string, emailVerified: bool, now: int)
    ensures var (w', r) := OAuthRegister(env, w, email, emailVerified, now);
      && r == (if EmailFree(w.users, email) then Created(|w.users|) else EmailExists)
      && w'.users == (if !EmailFree(w.users, email) then w.users
                      else w.users + [Some(if emailVerified then User(email, None, true, false, false, PendingPhone, Some(now + env.activationMs))
                                           else User(email, None, false, false, false, PendingEmail, None))])
  {}

  /** What activation asks of an account and of the face check. */
  predicate MayActivate(u: Option<User>, faceAccepted: bool) {
    u.Some? && u.value.status == PendingFace && u.value.emailVerified && u.value.phoneVerified && faceAccepted
  }

  predicate AlreadyActive(u: Option<User>) {
    u.Some? && u.value.status == Active && u.value.emailVerified && u.value.phoneVerified && u.value.faceVerified
  }

  /** Activating makes an account ACTIVE exactly if it is waiting for its face, its e-mail and phone
      are verified and the face is accepted; in every other case nothing changes at all. */
  lemma ActivateIff(w: World, id: nat, faceAccepted: bool)
    ensures var (w', r) := Activate(w, id, faceAccepted); var u := Live(w.users, id);
      && (w' != w <==> MayActivate(u, faceAccepted))
      && (w' != w ==> w' == w.(users := w.users[id := Some(User(u.value.email, u.value.phone, true, true, true, Active, None))]))
      && r == (if u.None? then NotFound else if MayActivate(u, faceAccepted) || AlreadyActive(u) then Activated else Forbidden)
  {}

  /** A live account that waits for its face and whose deadline has passed. */
  predicate MissedDeadline(u: Option<User>, now: int) {
    && u.Some? && u.value.status == PendingFace
    && match u.value.deadline
       case None => false
       case Some(deadline) => deadline < now
  }

  function CountMissed(users: seq<Option<User>>, now: int): nat {
    if users == [] then 0 else CountMissed(users[..|users| - 1], now) + if MissedDeadline(users[|users| - 1], now) then 1 else 0
  }

  lemma {:induction false} LapsedIdsAre(users: seq<Option<User>>, now: int, limit: nat)
    ensures var ids := LapsedIds(users, now, limit);
      && |ids| == (if CountMissed(users, now) <= limit then CountMissed(users, now) else limit)
      && (forall i: nat :: i in ids <==> i < |users| && MissedDeadline(users[i], now) && CountMissed(users[..i], now) < limit)
  {
    if users != [] {
      var last := |users| - 1;
      LapsedIdsAre(users[..last], now, limit);
      forall i: nat ensures i in LapsedIds(users, now, limit) <==> i < |users| && MissedDeadline(users[i], now) && CountMissed(users[..i], now) < limit {
        if i < last {
          assert users[..last][..i] == users[..i];
        }
      }
    }
  }

  /** The clean-up deletes exactly the first limit accounts that have missed their deadline, and
      reports exactly those it deletes. */
  lemma {:induction false} CleanupIff(w: World, limit: nat, now: int)
    ensures var (w', r) := Cleanup(w, limit, now);
      && w' == w.(users := w'.users) && |w'.users| == |w.users| && r.Deleted?
      && forall i: nat :: i < |w.users| ==>
           && (i in r.ids <==> MissedDeadline(w.users[i], now) && CountMissed(w.users[..i], now) < limit)
           && w'.users[i] == (if i in r.ids then None else w.users[i])
  {
    LapsedIdsAre(w.users, now, limit);
  }

  // ---- Over runs: which calls a flag goes back to ----

  function ReplyTo(env: Env, w: World, e: Event): Reply {
    Apply(env, w.(clock := e.at), e.call, e.at).1
  }

  /** The call confirms the account's e-mail: with the code, or because the provider vouches. */
  function ConfirmsEmail(env: Env, id: nat): (World, Event) -> bool {
    (w: World, e: Event) =>
      || (e.call.CallVerifyEmail? && Live(w.users, id).Some? && e.call.email == w.users[id].value.email && ReplyTo(env, w, e) == Verified)
      || (e.call.CallOAuthRegister? && e.call.emailVerified && ReplyTo(env, w, e) == Created(id))
  }

  function ConfirmsPhone(env: Env, id: nat): (World, Event) -> bool {
    (w: World, e: Event) => e.call.CallVerifyPhone? && e.call.id == id && ReplyTo(env, w, e) == Verified
  }

  /** The account asks for a code for a number other than its own. */
  predicate AsksForNewPhone(env: Env, id: nat, w: World, e: Event) {
    && e.call.CallStartPhone? && e.call.id == id && ReplyTo(env, w, e) == Sent
    && Live(w.users, id).Some? && w.users[id].value.phone != Some(e.call.phone)
  }

  function ChangesPhone(env: Env, id: nat): (World, Event) -> bool {
    (w: World, e: Event) => AsksForNewPhone(env, id, w, e)
  }

  function AcceptsFace(env: Env, id: nat): (World, Event) -> bool {
    (w: World, e: Event) => e.call == CallActivate(id, true) && ReplyTo(env, w, e) == Activated
  }

  predicate IsDeletedBy(env: Env, id: nat, w: World, e: Event) {
    e.call.CallCleanup? && ReplyTo(env, w, e).Deleted? && id in ReplyTo(env, w, e).ids
  }

  function Deletes(env: Env, id: nat): (World, Event) -> bool {
    (w: World, e: Event) => IsDeletedBy(env, id, w, e)
  }

  function ChangesPhoneOrDeletes(env: Env, id: nat): (World, Event) -> bool {
    (w: World, e: Event) => AsksForNewPhone(env, id, w, e) || IsDeletedBy(env, id, w, e)
  }

  predicate EmailFlag(u: Option<User>) { u.Some? && u.value.emailVerified }
  predicate PhoneFlag(u: Option<User>) { u.Some? && u.value.phoneVerified }
  predicate FaceFlag(u: Option<User>) { u.Some? && u.value.faceVerified }
  predicate ActiveFlag(u: Option<User>) { u.Some? && u.value.status == Active }

  function HasFlag(flag: Option<User> -> bool, id: nat): World -> bool {
    (w: World) => flag(Live(w.users, id))
  }

  /** What a call makes of an account: everything that can change one, and nothing else does. */
  function Next(env: Env, w: World, e: Event, id: nat): Option<User> {
    var u, r := Live(w.users, id), ReplyTo(env, w, e);
    match e.call
    case CallRegister(email, phone, _, _) =>
      if id == |w.users| && r != EmailExists && r != PhoneExists
      then Some(User(email, Some(phone), false, false, false, PendingEmail, None)) else u
    case CallOAuthRegister(email, vouched) =>
      if r == Created(id) then Some(User(email, None, vouched, false, false, if vouched then PendingPhone else PendingEmail,
                                         if vouched then Some(e.at + env.activationMs) else None))
      else u
    case CallStartEmail(_, _, _) => u
    case CallVerifyEmail(email, _) =>
      if u.Some? && u.value.email == email && r == Verified && !u.value.emailVerified then Some(WithEmailVerified(env, u.value, e.at)) else u
    case CallStartPhone(_, phone, _, _) =>
      if AsksForNewPhone(env, id, w, e) then Some(WithNewPhone(u.value, phone)) else u
    case CallVerifyPhone(k, phone, _) =>
      if k == id && r == Verified && u.Some? then Some(WithPhoneVerified(env, u.value, phone, e.at)) else u
    case CallActivate(k, faceAccepted) =>
      if k == id && MayActivate(u, faceAccepted) then Some(User(u.value.email, u.value.phone, true, true, true, Active, None)) else u
    case CallCleanup(_) => if IsDeletedBy(env, id, w, e) then None else u
  }

  predicate ValidCooldowns(env: Env) {
    env.email.cooldown > 0 && env.phone.cooldown > 0
  }

  lemma VerifyEmailNext(env: Env, w: World, email: string, otp: string, at: int, id: nat)
    requires AccountsOk(w) && ValidCooldowns(env) && w.clock == at
    ensures Live(VerifyEmail(env, w, email, otp, at).0.users, id) == Next(env, w, Event(at, CallVerifyEmail(email, otp)), id)
  {
    if FindByEmail(w.users, email).None? {
      VerifyEmailUnknown(env, w, email, otp, at);
    } else {
      VerifyEmailIff(env, w, email, otp, at, FindByEmail(w.users, email).value);
    }
    if Live(w.users, id).Some? {
      VerifyEmailIff(env, w, email, otp, at, id);
    }
  }

  lemma RegisterNext(env: Env, w: World, e: Event, id: nat)
    requires AccountsOk(w) && (e.call.CallRegister? || e.call.CallOAuthRegister? || e.call.CallStartEmail?) && w.clock == e.at
    ensures Live(Step(env, w, e).users, id) == Next(env, w, e, id)
  {
    match e.call
    case CallRegister(email, phone, ip, otp) => RegisterIff(env, w, email, phone, ip, otp, e.at);
    case CallOAuthRegister(email, emailVerified) => OAuthRegisterIff(env, w, email, emailVerified, e.at);
    case CallStartEmail(email, ip, otp) => StartEmailKeepsUsers(env, w, email, ip, otp, e.at);
  }

  lemma PhoneNext(env: Env, w: World, e: Event, id: nat)
    requires ValidCooldowns(env) && (e.call.CallStartPhone? || e.call.CallVerifyPhone?) && w.clock == e.at
    ensures Live(Step(env, w, e).users, id) == Next(env, w, e, id)
  {
    match e.call
    case CallStartPhone(k, phone, ip, otp) => StartPhoneIff(env, w, k, phone, ip, otp, e.at);
    case CallVerifyPhone(k, phone, otp) => VerifyPhoneIff(env, w, k, phone, otp, e.at);
  }

  lemma ActivateNext(env: Env, w: World, e: Event, id: nat)
    requires (e.call.CallActivate? || e.call.CallCleanup?) && w.clock == e.at
    ensures Live(Step(env, w, e).users, id) == Next(env, w, e, id)
  {
    match e.call
    case CallActivate(k, faceAccepted) => ActivateIff(w, k, faceAccepted);
    case CallCleanup(limit) => CleanupIff(w, limit, e.at);
  }

  /** After any call every account is what Next says. */
  lemma StepNext(env: Env, w: World, e: Event, id: nat)
    requires AccountsOk(w) && ValidCooldowns(env)
    ensures Live(Step(env, w, e).users, id) == Next(env, w, e, id)
  {
    var w0 := w.(clock := e.at);
    GrowKeeps(w, w0);
    match e.call
    case CallVerifyEmail(email, otp) => VerifyEmailNext(env, w0, email, otp, e.at, id);
    case CallStartPhone(_, _, _, _) => PhoneNext(env, w0, e, id);
    case CallVerifyPhone(_, _, _) => PhoneNext(env, w0, e, id);
    case CallActivate(_, _) => ActivateNext(env, w0, e, id);
    case CallCleanup(_) => ActivateNext(env, w0, e, id);
    case _ => RegisterNext(env, w0, e, id);
  }

  lemma AccountsKept(env: Env)
    ensures Kept(StepIn(env), InTime, AccountsOk)
  {
    forall w: World, e: Event | AccountsOk(w) && InTime(w, e) ensures AccountsOk(StepIn(env)(w, e)) {
      StepKeepsAccounts(env, w, e);
    }
  }

  lemma FaceSwitches(env: Env, w: World, e: Event, id: nat)
    requires AccountsOk(w) && ValidCooldowns(env)
    ensures FaceFlag(Live(Step(env, w, e).users, id)) <==>
      AcceptsFace(env, id)(w, e) || (FaceFlag(Live(w.users, id)) && !Deletes(env, id)(w, e))
  {
    StepNext(env, w, e, id);
    if e.call.CallActivate? {
      ActivateIff(w.(clock := e.at), e.call.id, e.call.faceAccepted);
    }
  }

  lemma ActiveSwitches(env: Env, w: World, e: Event, id: nat)
    requires AccountsOk(w) && ValidCooldowns(env)
    ensures ActiveFlag(Live(Step(env, w, e).users, id)) <==>
      AcceptsFace(env, id)(w, e) || (ActiveFlag(Live(w.users, id)) && !ChangesPhone(env, id)(w, e))
  {
    StepNext(env, w, e, id);
    assert Live(w.users, id).Some? ==> AccountOk(w.users[id].value, id, w);
    match e.call
    case CallActivate(k, faceAccepted) => ActivateIff(w.(clock := e.at), k, faceAccepted);
    case CallCleanup(limit) => CleanupIff(w.(clock := e.at), limit, e.at);
    case _ =>
  }

  lemma EmailSwitches(env: Env, w: World, e: Event, id: nat)
    requires AccountsOk(w) && ValidCooldowns(env)
    ensures EmailFlag(Live(Step(env, w, e).users, id)) <==>
      ConfirmsEmail(env, id)(w, e) || (EmailFlag(Live(w.users, id)) && !Deletes(env, id)(w, e))
  {
    StepNext(env, w, e, id);
  }

  lemma PhoneSwitches(env: Env, w: World, e: Event, id: nat)
    requires AccountsOk(w) && ValidCooldowns(env)
    ensures PhoneFlag(Live(Step(env, w, e).users, id)) <==>
      ConfirmsPhone(env, id)(w, e) || (PhoneFlag(Live(w.users, id)) && !ChangesPhoneOrDeletes(env, id)(w, e))
  {
    StepNext(env, w, e, id);
    if e.call.CallVerifyPhone? {
      VerifyPhoneIff(env, w.(clock := e.at), e.call.id, e.call.phone, e.call.otp, e.at);
    }
  }

  /** The last of the first n calls to concern it has switched the flag on. */
  predicate LastSwitchedOn(env: Env, events: seq<Event>, n: nat, on: (World, Event) -> bool, off: (World, Event) -> bool)
    requires n <= |events|
  {
    LastOn(StepIn(env), Start, events, on, off, 0, n)
  }

  function UserAt(env: Env, events: seq<Event>, n: nat, id: nat): Option<User>
    requires n <= |events|
  {
    Live(At(StepIn(env), Start, events, n).users, id)
  }

  /** A flag that no account starts with, and that every call switches on or off or leaves. */
  lemma FlagIff(env: Env, events: seq<Event>, n: nat, id: nat, flag: Option<User> -> bool,
                on: (World, Event) -> bool, off: (World, Event) -> bool)
    requires Timely(env, events) && n <= |events| && !flag(None)
    requires forall w, e {:trigger StepIn(env)(w, e)} :: AccountsOk(w) && InTime(w, e) ==>
      (HasFlag(flag, id)(StepIn(env)(w, e)) <==> on(w, e) || (HasFlag(flag, id)(w) && !off(w, e)))
    ensures flag(UserAt(env, events, n, id)) <==> LastSwitchedOn(env, events, n, on, off)
  {
    AccountsKept(env);
    assert Live(Start.users, id).None? && AccountsOk(Start);
    SwitchedIff(StepIn(env), InTime, AccountsOk, HasFlag(flag, id), on, off, Start, events, n);
  }

  /** In every run an account's face is verified exactly if a call that accepted its face was
      answered as activated, and no clean-up has deleted the account since. */
  lemma FaceVerifiedIff(env: Env, events: seq<Event>, n: nat, id: nat)
    requires ValidCooldowns(env) && Timely(env, events) && n <= |events|
    ensures FaceFlag(UserAt(env, events, n, id)) <==> LastSwitchedOn(env, events, n, AcceptsFace(env, id), Deletes(env, id))
  {
    forall w: World, e: Event | AccountsOk(w) && InTime(w, e)
      ensures HasFlag(FaceFlag, id)(StepIn(env)(w, e)) <==>
        AcceptsFace(env, id)(w, e) || (HasFlag(FaceFlag, id)(w) && !Deletes(env, id)(w, e))
    {
      FaceSwitches(env, w, e, id);
    }
    FlagIff(env, events, n, id, FaceFlag, AcceptsFace(env, id), Deletes(env, id));
  }

  /** In every run an account is ACTIVE exactly if a call that accepted its face was answered as
      activated, and the account has not asked for a code for another number since. */
  lemma ActiveIff(env: Env, events: seq<Event>, n: nat, id: nat)
    requires ValidCooldowns(env) && Timely(env, events) && n <= |events|
    ensures ActiveFlag(UserAt(env, events, n, id)) <==> LastSwitchedOn(env, events, n, AcceptsFace(env, id), ChangesPhone(env, id))
  {
    forall w: World, e: Event | AccountsOk(w) && InTime(w, e)
      ensures HasFlag(ActiveFlag, id)(StepIn(env)(w, e)) <==>
        AcceptsFace(env, id)(w, e) || (HasFlag(ActiveFlag, id)(w) && !ChangesPhone(env, id)(w, e))
    {
      ActiveSwitches(env, w, e, id);
    }
    FlagIff(env, events, n, id, ActiveFlag, AcceptsFace(env, id), ChangesPhone(env, id));
  }

  /** In every run an account's e-mail is verified exactly if the code sent to it was presented or
      its provider vouched for it, and no clean-up has deleted the account since. */
  lemma EmailVerifiedIff(env: Env, events: seq<Event>, n: nat, id: nat)
    requires ValidCooldowns(env) && Timely(env, events) && n <= |events|
    ensures EmailFlag(UserAt(env, events, n, id)) <==> LastSwitchedOn(env, events, n, ConfirmsEmail(env, id), Deletes(env, id))
  {
    forall w: World, e: Event | AccountsOk(w) && InTime(w, e)
      ensures HasFlag(EmailFlag, id)(StepIn(env)(w, e)) <==>
        ConfirmsEmail(env, id)(w, e) || (HasFlag(EmailFlag, id)(w) && !Deletes(env, id)(w, e))
    {
      EmailSwitches(env, w, e, id);
    }
    FlagIff(env, events, n, id, EmailFlag, ConfirmsEmail(env, id), Deletes(env, id));
  }

  /** In every run an account's phone is verified exactly if a code sent to a number was presented
      by the account, and it has not asked for a code for another number, or been deleted, since. */
  lemma PhoneVerifiedIff(env: Env, events: seq<Event>, n: nat, id: nat)
    requires ValidCooldowns(env) && Timely(env, events) && n <= |events|
    ensures PhoneFlag(UserAt(env, events, n, id)) <==>
      LastSwitchedOn(env, events, n, ConfirmsPhone(env, id), ChangesPhoneOrDeletes(env, id))
  {
    forall w: World, e: Event | AccountsOk(w) && InTime(w, e)
      ensures HasFlag(PhoneFlag, id)(StepIn(env)(w, e)) <==>
        ConfirmsPhone(env, id)(w, e) || (HasFlag(PhoneFlag, id)(w) && !ChangesPhoneOrDeletes(env, id)(w, e))
    {
      PhoneSwitches(env, w, e, id);
    }
    FlagIff(env, events, n, id, PhoneFlag, ConfirmsPhone(env, id), ChangesPhoneOrDeletes(env, id));
  }
}
