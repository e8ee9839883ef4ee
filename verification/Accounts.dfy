/** Accounts of userService: registration, e-mail and phone verification, face activation
    and the clean-up job, as one state machine whose steps are the services' calls. */
module Accounts {
  import opened Options
  import opened Runs
  import opened OtpCode
  import opened Arithmetic

  datatype Status = PendingEmail | PendingPhone | PendingFace | Active | Archived

  datatype User = User(
    email: string, phone: Option<string>,
    emailVerified: bool, phoneVerified: bool, faceVerified: bool,
    status: Status, deadline: Option<int>)

  /** Where a code lives: one unconsumed record per e-mail, and per user and phone number. */
  datatype CodeKey = ByEmail(email: string) | ByPhone(user: nat, phone: string)

  datatype RateKey =
    | EmailIp(ip: string) | EmailAddress(email: string)
    | PhoneIp(ip: string) | PhoneUser(user: nat) | PhoneNumber(phone: string)

  datatype CooldownKey = CoolEmail(email: string) | CoolUser(user: nat)

  /** The settings of one verification channel, in milliseconds and counts. */
  datatype Channel = Channel(ttl: int, cooldown: int, maxAttempts: int, sendMax: int, subjectMax: int, window: int)

  /** phoneIndex: whether the database has the unique index on phone numbers. */
  datatype Env = Env(email: Channel, phone: Channel, activationMs: int, phoneIndex: bool)

  /** The environment schema asks for positive numbers. */
  predicate ValidChannel(c: Channel) {
    c.ttl > 0 && c.cooldown > 0 && c.maxAttempts > 0 && c.sendMax > 0 && c.subjectMax > 0 && c.window > 0
  }

  predicate ValidEnv(env: Env) {
    ValidChannel(env.email) && ValidChannel(env.phone) && env.activationMs > 0
  }

  /** History: one entry per code ever issued. windowEnd names the quota window of subject
      it was issued in, and compared counts the guesses that were checked against it. */
  datatype Issued = Issued(key: CodeKey, subject: RateKey, at: int, windowEnd: int, compared: nat)

  datatype World = World(
    clock: int,
    users: seq<Option<User>>,              // by id, in order of creation; None once deleted
    codes: map<CodeKey, Code>,             // unconsumed records
    windows: map<RateKey, Window>,
    cooldowns: map<CooldownKey, int>,
    issued: seq<Issued>,                   // history
    consumed: set<CodeKey>,                // history: keys whose code was presented correctly
    vouched: set<nat>)                     // history: users whose provider vouched for the e-mail

  const Start := World(0, [], map[], map[], map[], [], {}, {})

  datatype Reply =
    | Created(id: nat) | EmailExists | PhoneExists | Sent | RateLimited | CooldownActive
    | Invalid | Locked | Verified | NotFound | Forbidden | Activated | Deleted(ids: seq<nat>)

  function Lookup<K, V>(m: map<K, V>, k: K): Option<V> {
    if k in m then Some(m[k]) else None
  }

  function Live(users: seq<Option<User>>, id: nat): Option<User> {
    if id < |users| then users[id] else None
  }

  function FindByEmail(users: seq<Option<User>>, email: string): (r: Option<nat>)
    ensures r.Some? ==> r.value < |users| && users[r.value].Some? && users[r.value].value.email == email
    ensures r.None? ==> forall i :: 0 <= i < |users| && users[i].Some? ==> users[i].value.email != email
  {
    if users == [] then None
    else
      var last := |users| - 1;
      if users[last].Some? && users[last].value.email == email then Some(last)
      else FindByEmail(users[..last], email)
  }

  /** Some other live user holds the number. */
  predicate PhoneTaken(users: seq<Option<User>>, phone: string, self: int) {
    exists i :: 0 <= i < |users| && i != self && users[i].Some? && users[i].value.phone == Some(phone)
  }

  /** The unique index refuses the write. */
  predicate PhoneRefused(env: Env, users: seq<Option<User>>, phone: string, self: int) {
    env.phoneIndex && PhoneTaken(users, phone, self)
  }

  // ---- Sending codes ----

  function Bump(windows: map<RateKey, Window>, key: RateKey, now: int, windowMs: int): (r: map<RateKey, Window>)
    ensures key in r
  {
    windows[key := Bumped(Lookup(windows, key), now, windowMs)]
  }

  /** upsertActiveCode: replaces any unconsumed record under the key. */
  function Issue(w: World, key: CodeKey, subject: RateKey, otp: string, now: int, ch: Channel): World
    requires subject in w.windows
  {
    var digest := OtpDigest(if key.ByEmail? then key.email else key.phone, otp);
    w.(codes := w.codes[key := NewCode(digest, now, ch.ttl, ch.maxAttempts)],
       issued := w.issued + [Issued(key, subject, now, w.windows[subject].resetsAt, 0)])
  }

  /** enforceSendRateLimit for both channels: every counter is bumped, even when the send
      is then refused. The subject's limit is subjectMax, the others' is sendMax. */
  function RateLimit(w: World, ch: Channel, ip: RateKey, also: Option<RateKey>, subject: RateKey, now: int): (World, bool) {
    var w1 := Bump(w.windows, ip, now, ch.window);
    var w2 := if also.Some? then Bump(w1, also.value, now, ch.window) else w1;
    var w3 := Bump(w2, subject, now, ch.window);
    (w.(windows := w3),
     && w3[ip].count <= ch.sendMax
     && (also.Some? ==> w3[also.value].count <= ch.sendMax)
     && w3[subject].count <= ch.subjectMax)
  }

  function Cooldown(w: World, key: CooldownKey, now: int, ms: int): (World, bool) {
    if key in w.cooldowns && now < w.cooldowns[key] then (w, false)
    else (w.(cooldowns := w.cooldowns[key := now + ms]), true)
  }

  function StartEmail(env: Env, w: World, email: string, ip: string, otp: string, now: int): (World, Reply) {
    var (w1, allowed) := RateLimit(w, env.email, EmailIp(ip), None, EmailAddress(email), now);
    if !allowed then (w1, RateLimited)
    else
      var (w2, cool) := Cooldown(w1, CoolEmail(email), now, env.email.cooldown);
      if !cool then (w2, CooldownActive)
      else
        var id := FindByEmail(w2.users, email);
        if id.None? || w2.users[id.value].value.emailVerified then (w2, Sent)
        else (Issue(w2, ByEmail(email), EmailAddress(email), otp, now, env.email), Sent)
  }

  function StartPhone(env: Env, w: World, id: nat, phone: string, ip: string, otp: string, now: int): (World, Reply) {
    var user := Live(w.users, id);
    if user.None? then (w, NotFound)
    else
      var (w1, allowed) := RateLimit(w, env.phone, PhoneIp(ip), Some(PhoneUser(id)), PhoneNumber(phone), now);
      if !allowed then (w1, RateLimited)
      else
        var (w2, cool) := Cooldown(w1, CoolUser(id), now, env.phone.cooldown);
        if !cool then (w2, CooldownActive)
        else
          var w3 := Issue(w2, ByPhone(id, phone), PhoneNumber(phone), otp, now, env.phone);
          var u := user.value;
          if u.phone == Some(phone) then (w3, Sent)
          else if PhoneRefused(env, w3.users, phone, id) then (w3, PhoneExists)
          else
            var u' := u.(phone := Some(phone), phoneVerified := false,
                         status := if u.emailVerified && u.status != PendingFace then PendingPhone else u.status);
            (w3.(users := w3.users[id := Some(u')]), Sent)
  }

  // ---- Checking codes ----

  /** The latest code issued under a key is the one its record holds. */
  function LastIssue(issued: seq<Issued>, key: CodeKey): (g: Option<nat>)
    ensures g.Some? ==> g.value < |issued| && issued[g.value].key == key
  {
    if issued == [] then None
    else if issued[|issued| - 1].key == key then Some(|issued| - 1)
    else LastIssue(issued[..|issued| - 1], key)
  }

  function CountCompared(issued: seq<Issued>, key: CodeKey): seq<Issued> {
    var g := LastIssue(issued, key);
    if g.None? then issued else issued[g.value := issued[g.value].(compared := issued[g.value].compared + 1)]
  }

  function TryCode(w: World, key: CodeKey, otp: string, now: int, lock: int): (World, Verdict) {
    var digest := OtpDigest(if key.ByEmail? then key.email else key.phone, otp);
    var (v, left) := Guess(Lookup(w.codes, key), digest, now, lock);
    var codes := if left.Some? then w.codes[key := left.value] else w.codes - {key};
    (w.(codes := codes,
        issued := if Compared(v) then CountCompared(w.issued, key) else w.issued,
        consumed := if v == Right then w.consumed + {key} else w.consumed),
     v)
  }

  function Refusal(v: Verdict): Reply {
    if v == Refused || v == Wrong(true) then Locked else Invalid
  }

  function VerifyEmail(env: Env, w: World, email: string, otp: string, now: int): (World, Reply) {
    var id := FindByEmail(w.users, email);
    if id.None? then (w, Invalid)
    else
      var u := w.users[id.value].value;
      if u.emailVerified then (w, Verified)
      else
        var (w1, v) := TryCode(w, ByEmail(email), otp, now, env.email.cooldown);
        if v != Right then (w1, Refusal(v))
        else
          var pending := u.status == PendingEmail;
          var u' := u.(emailVerified := true,
                       status := if pending then (if u.phoneVerified then PendingFace else PendingPhone) else u.status,
                       deadline := if pending && u.phoneVerified then Some(now + env.activationMs) else u.deadline);
          (w1.(users := w1.users[id.value := Some(u')]), Verified)
  }

  function VerifyPhone(env: Env, w: World, id: nat, phone: string, otp: string, now: int): (World, Reply) {
    var user := Live(w.users, id);
    if user.None? then (w, NotFound)
    else
      var (w1, v) := TryCode(w, ByPhone(id, phone), otp, now, env.phone.cooldown);
      if v != Right then (w1, Refusal(v))
      else if PhoneRefused(env, w1.users, phone, id) then (w1, PhoneExists)
      else
        var u := user.value;
        var advances := u.emailVerified && u.status == PendingPhone;
        var u' := u.(phone := Some(phone), phoneVerified := true,
                     status := if advances then PendingFace else u.status,
                     deadline := if advances then Some(now + env.activationMs) else u.deadline);
        (w1.(users := w1.users[id := Some(u')]), Verified)
  }

  // ---- Creating, activating and deleting accounts ----

  function Register(env: Env, w: World, email: string, phone: string, ip: string, otp: string, now: int): (World, Reply) {
    if FindByEmail(w.users, email).Some? then (w, EmailExists)
    else if PhoneRefused(env, w.users, phone, -1) then (w, PhoneExists)
    else
      var u := User(email, Some(phone), false, false, false, PendingEmail, None);
      var (w1, sent) := StartEmail(env, w.(users := w.users + [Some(u)]), email, ip, otp, now);
      (w1, if sent == Sent then Created(|w.users|) else sent)
  }

  /** loginOrRegister for a provider account that is not yet linked. */
  function OAuthRegister(env: Env, w: World, email: string, emailVerified: bool, now: int): (World, Reply) {
    if FindByEmail(w.users, email).Some? then (w, EmailExists)
    else
      var u := User(email, None, emailVerified, false, false,
                    if emailVerified then PendingPhone else PendingEmail,
                    if emailVerified then Some(now + env.activationMs) else None);
      (w.(users := w.users + [Some(u)],
          vouched := if emailVerified then w.vouched + {|w.users|} else w.vouched),
       Created(|w.users|))
  }

  /** faceAccepted: the ID card matches a live face, and no watchlist entry blocks it. */
  function Activate(w: World, id: nat, faceAccepted: bool): (World, Reply) {
    var user := Live(w.users, id);
    if user.None? then (w, NotFound)
    else
      var u := user.value;
      if u.status == Archived then (w, Forbidden)
      else if !u.emailVerified || u.status == PendingEmail then (w, Forbidden)
      else if !u.phoneVerified || u.status == PendingPhone then (w, Forbidden)
      else if u.status == Active && u.faceVerified then (w, Activated)
      else if u.status != PendingFace then (w, Forbidden)
      else if !faceAccepted then (w, Forbidden)
      else (w.(users := w.users[id := Some(u.(status := Active, faceVerified := true, deadline := None))]), Activated)
  }

  predicate Lapsed(u: Option<User>, now: int) {
    u.Some? && u.value.status == PendingFace && u.value.deadline.Some? && u.value.deadline.value < now
  }

  /** findExpiredPendingFaceActivation: the first limit lapsed users. */
  function LapsedIds(users: seq<Option<User>>, now: int, limit: nat): (ids: seq<nat>)
    ensures |ids| <= limit
    ensures forall i :: i in ids ==> i < |users| && Lapsed(users[i], now)
  {
    if users == [] then []
    else
      var last := |users| - 1;
      var front := LapsedIds(users[..last], now, limit);
      if |front| < limit && Lapsed(users[last], now) then front + [last] else front
  }

  function DeleteByIds(users: seq<Option<User>>, ids: seq<nat>): (r: seq<Option<User>>)
    ensures |r| == |users|
    ensures forall i :: 0 <= i < |users| ==> r[i] == if i in ids then None else users[i]
  {
    seq(|users|, i requires 0 <= i < |users| => if i in ids then None else users[i])
  }

  function Cleanup(w: World, limit: nat, now: int): (World, Reply) {
    var ids := LapsedIds(w.users, now, limit);
    (w.(users := DeleteByIds(w.users, ids)), Deleted(ids))
  }

  // ---- Profiles and access-token claims ----

  datatype Flags = Flags(email: bool, phone: bool, face: bool)

  /** toProfile and the verification claim of access tokens: ACTIVE overrides the flags. */
  function ShownFlags(u: User): Flags {
    var active := u.status == Active;
    Flags(active || u.emailVerified, active || u.phoneVerified, active || u.faceVerified)
  }

  // ---- Runs ----

  datatype Call =
    | CallRegister(email: string, phone: string, ip: string, otp: string)
    | CallOAuthRegister(email: string, emailVerified: bool)
    | CallStartEmail(email: string, ip: string, otp: string)
    | CallVerifyEmail(email: string, otp: string)
    | CallStartPhone(id: nat, phone: string, ip: string, otp: string)
    | CallVerifyPhone(id: nat, phone: string, otp: string)
    | CallActivate(id: nat, faceAccepted: bool)
    | CallCleanup(limit: nat)

  datatype Event = Event(at: int, call: Call)

  function Apply(env: Env, w: World, call: Call, now: int): (World, Reply) {
    match call
    case CallRegister(email, phone, ip, otp) => Register(env, w, email, phone, ip, otp, now)
    case CallOAuthRegister(email, emailVerified) => OAuthRegister(env, w, email, emailVerified, now)
    case CallStartEmail(email, ip, otp) => StartEmail(env, w, email, ip, otp, now)
    case CallVerifyEmail(email, otp) => VerifyEmail(env, w, email, otp, now)
    case CallStartPhone(id, phone, ip, otp) => StartPhone(env, w, id, phone, ip, otp, now)
    case CallVerifyPhone(id, phone, otp) => VerifyPhone(env, w, id, phone, otp, now)
    case CallActivate(id, faceAccepted) => Activate(w, id, faceAccepted)
    case CallCleanup(limit) => Cleanup(w, limit, now)
  }

  function Step(env: Env, w: World, e: Event): World {
    Apply(env, w.(clock := e.at), e.call, e.at).0
  }

  function StepIn(env: Env): (World, Event) -> World {
    (w: World, e: Event) => Step(env, w, e)
  }

  /** The clock does not go back. */
  predicate InTime(w: World, e: Event) {
    w.clock <= e.at
  }

  predicate Timely(env: Env, events: seq<Event>) {
    Possible(StepIn(env), InTime, Start, events)
  }

  /** The world after a run from the empty one. */
  function Run(env: Env, events: seq<Event>): World {
    At(StepIn(env), Start, events, |events|)
  }

  // ---- The account lifecycle ----

  predicate AccountOk(u: User, id: nat, w: World) {
    && (u.status == PendingEmail <==> !u.emailVerified)
    && (u.status == Active ==> u.emailVerified && u.phoneVerified && u.faceVerified && u.deadline.None?)
    && (u.status == PendingFace ==> u.deadline.Some?)
    && (u.emailVerified ==> ByEmail(u.email) in w.consumed || id in w.vouched)
    && (u.phoneVerified ==> u.phone.Some? && ByPhone(id, u.phone.value) in w.consumed)
    && (u.status != Archived)
    && (u.faceVerified ==> u.emailVerified)
  }

  predicate AccountsOk(w: World) {
    && (forall i :: 0 <= i < |w.users| && w.users[i].Some? ==> AccountOk(w.users[i].value, i, w))
    && (forall i, j :: 0 <= i < j < |w.users| && w.users[i].Some? && w.users[j].Some? ==>
          w.users[i].value.email != w.users[j].value.email)
  }

  /** The histories only grow and the users stay. */
  predicate SameUsers(w: World, w': World) {
    w'.users == w.users && w.consumed <= w'.consumed && w.vouched <= w'.vouched
  }

  lemma GrowKeeps(w: World, w': World)
    requires AccountsOk(w) && SameUsers(w, w')
    ensures AccountsOk(w')
  {
    forall i | 0 <= i < |w'.users| && w'.users[i].Some? ensures AccountOk(w'.users[i].value, i, w') {
      assert AccountOk(w.users[i].value, i, w);
    }
  }

  lemma UpdateKeeps(w: World, id: nat, u: User)
    requires AccountsOk(w) && Live(w.users, id).Some? && AccountOk(u, id, w)
    requires u.email == w.users[id].value.email
    ensures AccountsOk(w.(users := w.users[id := Some(u)]))
  {
    var w' := w.(users := w.users[id := Some(u)]);
    forall i | 0 <= i < |w'.users| && w'.users[i].Some? ensures AccountOk(w'.users[i].value, i, w') {
      assert i != id ==> AccountOk(w.users[i].value, i, w);
    }
  }

  lemma AppendKeeps(w: World, u: User)
    requires AccountsOk(w) && AccountOk(u, |w.users|, w)
    requires FindByEmail(w.users, u.email).None?
    ensures AccountsOk(w.(users := w.users + [Some(u)]))
  {
    var w' := w.(users := w.users + [Some(u)]);
    forall i | 0 <= i < |w'.users| && w'.users[i].Some? ensures AccountOk(w'.users[i].value, i, w') {
      assert i < |w.users| ==> AccountOk(w.users[i].value, i, w);
    }
  }

  lemma StartEmailKeepsUsers(env: Env, w: World, email: string, ip: string, otp: string, now: int)
    ensures SameUsers(w, StartEmail(env, w, email, ip, otp, now).0)
  {}

  lemma StartPhoneKeeps(env: Env, w: World, id: nat, phone: string, ip: string, otp: string, now: int)
    requires AccountsOk(w)
    ensures AccountsOk(StartPhone(env, w, id, phone, ip, otp, now).0)
  {
    var (w', r) := StartPhone(env, w, id, phone, ip, otp, now);
    if SameUsers(w, w') {
      GrowKeeps(w, w');
    } else {
      var w1 := w'.(users := w.users);
      GrowKeeps(w, w1);
      assert AccountOk(w.users[id].value, id, w);
      UpdateKeeps(w1, id, w'.users[id].value);
    }
  }

  lemma VerifyEmailKeeps(env: Env, w: World, email: string, otp: string, now: int)
    requires AccountsOk(w)
    ensures AccountsOk(VerifyEmail(env, w, email, otp, now).0)
  {
    var (w', r) := VerifyEmail(env, w, email, otp, now);
    if SameUsers(w, w') {
      GrowKeeps(w, w');
    } else {
      var id := FindByEmail(w.users, email).value;
      var w1 := w'.(users := w.users);
      GrowKeeps(w, w1);
      assert AccountOk(w.users[id].value, id, w);
      UpdateKeeps(w1, id, w'.users[id].value);
    }
  }

  lemma VerifyPhoneKeeps(env: Env, w: World, id: nat, phone: string, otp: string, now: int)
    requires AccountsOk(w)
    ensures AccountsOk(VerifyPhone(env, w, id, phone, otp, now).0)
  {
    var (w', r) := VerifyPhone(env, w, id, phone, otp, now);
    if SameUsers(w, w') {
      GrowKeeps(w, w');
    } else {
      var w1 := w'.(users := w.users);
      GrowKeeps(w, w1);
      assert AccountOk(w.users[id].value, id, w);
      UpdateKeeps(w1, id, w'.users[id].value);
    }
  }

  lemma RegisterKeeps(env: Env, w: World, email: string, phone: string, ip: string, otp: string, now: int)
    requires AccountsOk(w)
    ensures AccountsOk(Register(env, w, email, phone, ip, otp, now).0)
  {
    if FindByEmail(w.users, email).None? && !PhoneRefused(env, w.users, phone, -1) {
      var u := User(email, Some(phone), false, false, false, PendingEmail, None);
      AppendKeeps(w, u);
      var w1 := w.(users := w.users + [Some(u)]);
      StartEmailKeepsUsers(env, w1, email, ip, otp, now);
      GrowKeeps(w1, StartEmail(env, w1, email, ip, otp, now).0);
    }
  }

  lemma OAuthRegisterKeeps(env: Env, w: World, email: string, emailVerified: bool, now: int)
    requires AccountsOk(w)
    ensures AccountsOk(OAuthRegister(env, w, email, emailVerified, now).0)
  {
    if FindByEmail(w.users, email).None? {
      var w' := OAuthRegister(env, w, email, emailVerified, now).0;
      var w1 := w'.(users := w.users);
      GrowKeeps(w, w1);
      AppendKeeps(w1, w'.users[|w.users|].value);
    }
  }

  lemma ActivateKeeps(w: World, id: nat, faceAccepted: bool)
    requires AccountsOk(w)
    ensures AccountsOk(Activate(w, id, faceAccepted).0)
  {
    var w' := Activate(w, id, faceAccepted).0;
    if w' != w {
      assert AccountOk(w.users[id].value, id, w);
      UpdateKeeps(w, id, w'.users[id].value);
    }
  }

  lemma CleanupKeeps(w: World, limit: nat, now: int)
    requires AccountsOk(w)
    ensures AccountsOk(Cleanup(w, limit, now).0)
  {
    var w' := Cleanup(w, limit, now).0;
    forall i | 0 <= i < |w'.users| && w'.users[i].Some? ensures AccountOk(w'.users[i].value, i, w') {
      assert w'.users[i] == w.users[i];
      assert AccountOk(w.users[i].value, i, w);
    }
  }

  lemma StepKeepsAccounts(env: Env, w: World, e: Event)
    requires AccountsOk(w)
    ensures AccountsOk(Step(env, w, e))
  {
    var w0 := w.(clock := e.at);
    GrowKeeps(w, w0);
    match e.call
    case CallRegister(email, phone, ip, otp) => RegisterKeeps(env, w0, email, phone, ip, otp, e.at);
    case CallOAuthRegister(email, emailVerified) => OAuthRegisterKeeps(env, w0, email, emailVerified, e.at);
    case CallStartEmail(email, ip, otp) =>
      StartEmailKeepsUsers(env, w0, email, ip, otp, e.at);
      GrowKeeps(w0, Step(env, w, e));
    case CallVerifyEmail(email, otp) => VerifyEmailKeeps(env, w0, email, otp, e.at);
    case CallStartPhone(id, phone, ip, otp) => StartPhoneKeeps(env, w0, id, phone, ip, otp, e.at);
    case CallVerifyPhone(id, phone, otp) => VerifyPhoneKeeps(env, w0, id, phone, otp, e.at);
    case CallActivate(id, faceAccepted) => ActivateKeeps(w0, id, faceAccepted);
    case CallCleanup(limit) => CleanupKeeps(w0, limit, e.at);
  }

  predicate AnyEvent(w: World, e: Event) { true }

  /** In every reachable state every account obeys the lifecycle, and no two live accounts share
      an e-mail. */
  lemma LifecycleInEveryRun(env: Env, events: seq<Event>)
    ensures AccountsOk(Run(env, events))
  {
    forall w: World, e: Event | AccountsOk(w) ensures AccountsOk(StepIn(env)(w, e)) {
      StepKeepsAccounts(env, w, e);
    }
    InvariantAt(StepIn(env), AnyEvent, AccountsOk, Start, events, |events|);
  }

  /** So the "ACTIVE means everything is verified" override never shows a flag that is not set. */
  lemma ShownFlagsAreTheRawFlags(env: Env, events: seq<Event>, id: nat)
    ensures var u := Live(Run(env, events).users, id);
      u.Some? ==> ShownFlags(u.value) == Flags(u.value.emailVerified, u.value.phoneVerified, u.value.faceVerified)
  {
    LifecycleInEveryRun(env, events);
  }

  // ---- Phone numbers ----

  predicate PhonesUnique(users: seq<Option<User>>) {
    forall i, j :: 0 <= i < j < |users| && users[i].Some? && users[j].Some? && users[i].value.phone.Some? ==>
      users[i].value.phone != users[j].value.phone
  }

  /** The call stores a number that another live user holds. */
  predicate TakesPhone(env: Env, w: World, call: Call, now: int) {
    match call
    case CallRegister(email, phone, _, _) =>
      FindByEmail(w.users, email).None? && !env.phoneIndex && PhoneTaken(w.users, phone, -1)
    case CallStartPhone(id, phone, _, _) =>
      Apply(env, w, call, now).1 == Sent && w.users[id].value.phone != Some(phone) && PhoneTaken(w.users, phone, id)
    case CallVerifyPhone(id, phone, _) =>
      Apply(env, w, call, now).1 == Verified && PhoneTaken(w.users, phone, id)
    case _ => false
  }

  lemma UpdatePhoneIff(users: seq<Option<User>>, id: nat, u: User)
    requires PhonesUnique(users) && Live(users, id).Some?
    ensures PhonesUnique(users[id := Some(u)]) <==> u.phone.None? || !PhoneTaken(users, u.phone.value, id)
  {
    var users' := users[id := Some(u)];
    if u.phone.Some? && PhoneTaken(users, u.phone.value, id) {
      var i :| 0 <= i < |users| && i != id && users[i].Some? && users[i].value.phone == u.phone;
      assert users'[i] == users[i] && users'[id] == Some(u);
    }
  }

  lemma AppendPhoneIff(users: seq<Option<User>>, u: User)
    requires PhonesUnique(users)
    ensures PhonesUnique(users + [Some(u)]) <==> u.phone.None? || !PhoneTaken(users, u.phone.value, -1)
  {
    var users' := users + [Some(u)];
    if u.phone.Some? && PhoneTaken(users, u.phone.value, -1) {
      var i :| 0 <= i < |users| && users[i].Some? && users[i].value.phone == u.phone;
      assert users'[i] == users[i] && users'[|users|] == Some(u);
    }
  }

  lemma OwnPhone(users: seq<Option<User>>, id: nat)
    requires PhonesUnique(users) && Live(users, id).Some?
    ensures var p := users[id].value.phone; p.None? || !PhoneTaken(users, p.value, id)
  {}

  lemma {:induction false} RegisterUsers(env: Env, w: World, email: string, phone: string, ip: string, otp: string, now: int)
    ensures Register(env, w, email, phone, ip, otp, now).0.users ==
      if FindByEmail(w.users, email).Some? || PhoneRefused(env, w.users, phone, -1) then w.users
      else w.users + [Some(User(email, Some(phone), false, false, false, PendingEmail, None))]
  {}

  lemma StartPhoneUsers(env: Env, w: World, id: nat, phone: string, ip: string, otp: string, now: int)
    ensures var (w', r) := StartPhone(env, w, id, phone, ip, otp, now);
      if r == Sent then Live(w.users, id).Some? && |w'.users| == |w.users| && w'.users[id].Some?
        && w'.users[id].value.phone == Some(phone) && w'.users == w.users[id := w'.users[id]]
        && (w.users[id].value.phone != Some(phone) ==> !PhoneRefused(env, w.users, phone, id))
      else w'.users == w.users
  {}

  lemma VerifyPhoneUsers(env: Env, w: World, id: nat, phone: string, otp: string, now: int)
    ensures var (w', r) := VerifyPhone(env, w, id, phone, otp, now);
      if r == Verified then Live(w.users, id).Some? && |w'.users| == |w.users| && w'.users[id].Some?
        && w'.users[id].value.phone == Some(phone) && w'.users == w.users[id := w'.users[id]]
        && !PhoneRefused(env, w.users, phone, id)
      else w'.users == w.users
  {}

  lemma VerifyEmailUsers(env: Env, w: World, email: string, otp: string, now: int)
    ensures var w' := VerifyEmail(env, w, email, otp, now).0;
      || w'.users == w.users
      || exists id: nat :: id < |w.users| == |w'.users| && w.users[id].Some? && w'.users[id].Some?
           && w'.users[id].value.phone == w.users[id].value.phone && w'.users == w.users[id := w'.users[id]]
  {
    var id := FindByEmail(w.users, email);
    var w' := VerifyEmail(env, w, email, otp, now).0;
    if w'.users != w.users {
      assert w'.users == w.users[id.value := w'.users[id.value]];
    }
  }

  lemma FewerPhones(users: seq<Option<User>>, users': seq<Option<User>>)
    requires PhonesUnique(users) && |users'| == |users|
    requires forall i :: 0 <= i < |users| ==> users'[i] == users[i] || users'[i].None?
    ensures PhonesUnique(users')
  {}

  /** Phone numbers stay unique through a call exactly when it does not store a number that
      another live user holds. */
  lemma PhonesKeptIff(env: Env, w: World, call: Call, now: int)
    requires PhonesUnique(w.users)
    ensures PhonesUnique(Apply(env, w, call, now).0.users) <==> !TakesPhone(env, w, call, now)
  {
    var w' := Apply(env, w, call, now).0;
    match call
    case CallRegister(email, phone, ip, otp) =>
      RegisterUsers(env, w, email, phone, ip, otp, now);
      AppendPhoneIff(w.users, User(email, Some(phone), false, false, false, PendingEmail, None));
    case CallStartPhone(id, phone, ip, otp) =>
      StartPhoneUsers(env, w, id, phone, ip, otp, now);
      if Apply(env, w, call, now).1 == Sent {
        UpdatePhoneIff(w.users, id, w'.users[id].value);
        OwnPhone(w.users, id);
      }
    case CallVerifyPhone(id, phone, otp) =>
      VerifyPhoneUsers(env, w, id, phone, otp, now);
      if Apply(env, w, call, now).1 == Verified {
        UpdatePhoneIff(w.users, id, w'.users[id].value);
      }
    case CallVerifyEmail(email, otp) =>
      VerifyEmailUsers(env, w, email, otp, now);
      if w'.users != w.users {
        var id: nat :| id < |w.users| == |w'.users| && w.users[id].Some? && w'.users[id].Some?
          && w'.users[id].value.phone == w.users[id].value.phone && w'.users == w.users[id := w'.users[id]];
        UpdatePhoneIff(w.users, id, w'.users[id].value);
        OwnPhone(w.users, id);
      }
    case CallOAuthRegister(email, emailVerified) =>
      if w'.users != w.users {
        AppendPhoneIff(w.users, w'.users[|w.users|].value);
      }
    case CallActivate(id, faceAccepted) =>
      if w'.users != w.users {
        UpdatePhoneIff(w.users, id, w'.users[id].value);
        OwnPhone(w.users, id);
      }
    case CallCleanup(limit) => FewerPhones(w.users, w'.users);
    case CallStartEmail(email, ip, otp) => StartEmailKeepsUsers(env, w, email, ip, otp, now);
  }

  lemma IndexedCallTakesNoPhone(env: Env, w: World, call: Call, now: int)
    requires env.phoneIndex
    ensures !TakesPhone(env, w, call, now)
  {
    match call
    case CallStartPhone(id, phone, ip, otp) => StartPhoneUsers(env, w, id, phone, ip, otp, now);
    case CallVerifyPhone(id, phone, otp) => VerifyPhoneUsers(env, w, id, phone, otp, now);
    case _ =>
  }

  function UniquePhones(): World -> bool {
    (w: World) => PhonesUnique(w.users)
  }

  /** With the unique index, no two live accounts share a phone number in any run. */
  lemma PhonesUniqueInEveryRun(env: Env, events: seq<Event>)
    requires env.phoneIndex
    ensures PhonesUnique(Run(env, events).users)
  {
    forall w: World, e: Event | PhonesUnique(w.users) ensures UniquePhones()(StepIn(env)(w, e)) {
      IndexedCallTakesNoPhone(env, w.(clock := e.at), e.call, e.at);
      PhonesKeptIff(env, w.(clock := e.at), e.call, e.at);
    }
    InvariantAt(StepIn(env), AnyEvent, UniquePhones(), Start, events, |events|);
  }

  lemma RunOfTwo(env: Env, a: Event, b: Event)
    ensures Run(env, [a, b]) == Step(env, Step(env, Start, a), b)
  {
    var events := [a, b];
    AtNext(StepIn(env), Start, events, 0);
    AtNext(StepIn(env), Start, events, 1);
  }

  lemma RegisterStep(env: Env, w: World, e: Event)
    requires !env.phoneIndex && e.call.CallRegister? && FindByEmail(w.users, e.call.email).None?
    ensures Step(env, w, e).users == w.users + [Some(User(e.call.email, Some(e.call.phone), false, false, false, PendingEmail, None))]
  {
    RegisterUsers(env, w.(clock := e.at), e.call.email, e.call.phone, e.call.ip, e.call.otp, e.at);
  }

  lemma NotUnique(users: seq<Option<User>>, u: User, v: User)
    requires users == [Some(u), Some(v)] && u.phone.Some? && u.phone == v.phone
    ensures !PhonesUnique(users)
  {
    assert users[0].value.phone == users[1].value.phone;
  }

  lemma {:induction false} OtherEmailIsFree(u: User, email: string)
    requires u.email != email
    ensures FindByEmail([Some(u)], email).None?
  {}

  lemma RegisterBoth(env: Env, w: World, a: Event, b: Event)
    requires !env.phoneIndex && w.users == [] && a.call.CallRegister? && b.call.CallRegister? && a.call.email != b.call.email
    ensures Step(env, Step(env, w, a), b).users ==
      [Some(User(a.call.email, Some(a.call.phone), false, false, false, PendingEmail, None)),
       Some(User(b.call.email, Some(b.call.phone), false, false, false, PendingEmail, None))]
  {
    var w1 := Step(env, w, a);
    RegisterStep(env, w, a);
    OtherEmailIsFree(User(a.call.email, Some(a.call.phone), false, false, false, PendingEmail, None), b.call.email);
    RegisterStep(env, w1, b);
  }

  /** Without it, registering twice with one number is enough to break that. */
  lemma TwoAccountsOnePhone(env: Env, a: Event, b: Event)
    requires !env.phoneIndex && a.call.CallRegister? && b.call.CallRegister?
    requires a.call.email != b.call.email && a.call.phone == b.call.phone
    ensures !PhonesUnique(Run(env, [a, b]).users)
  {
    RunOfTwo(env, a, b);
    RegisterBoth(env, Start, a, b);
    NotUnique(Run(env, [a, b]).users,
              User(a.call.email, Some(a.call.phone), false, false, false, PendingEmail, None),
              User(b.call.email, Some(b.call.phone), false, false, false, PendingEmail, None));
  }

  // ---- Quotas, cooldowns and guesses ----

  function ChannelOf(env: Env, key: CodeKey): Channel {
    if key.ByEmail? then env.email else env.phone
  }

  function SubjectOf(key: CodeKey): RateKey {
    match key
    case ByEmail(email) => EmailAddress(email)
    case ByPhone(_, phone) => PhoneNumber(phone)
  }

  function CooldownOf(key: CodeKey): CooldownKey {
    match key
    case ByEmail(email) => CoolEmail(email)
    case ByPhone(user, _) => CoolUser(user)
  }

  function SubjectMax(env: Env, subject: RateKey): int {
    if subject.EmailAddress? then env.email.subjectMax else env.phone.subjectMax
  }

  function Bound(env: Env, key: CodeKey): int
    requires ValidEnv(env)
  {
    var ch := ChannelOf(env, key);
    GuessBound(ch.ttl, ch.maxAttempts, ch.cooldown)
  }

  /** How many codes were issued to a subject in the quota window that ends at windowEnd. */
  function IssuedIn(issued: seq<Issued>, subject: RateKey, windowEnd: int): nat {
    if issued == [] then 0
    else
      var last := issued[|issued| - 1];
      var rest := IssuedIn(issued[..|issued| - 1], subject, windowEnd);
      if last.subject == subject && last.windowEnd == windowEnd then rest + 1 else rest
  }

  /** How many guesses were compared with those codes, whenever they were made. */
  function ComparedIn(issued: seq<Issued>, subject: RateKey, windowEnd: int): nat {
    if issued == [] then 0
    else
      var last := issued[|issued| - 1];
      var rest := ComparedIn(issued[..|issued| - 1], subject, windowEnd);
      if last.subject == subject && last.windowEnd == windowEnd then rest + last.compared else rest
  }

  /** Each issue is filed under its window; the open window's counter covers its codes. */
  predicate QuotaOk(issued: seq<Issued>, windows: map<RateKey, Window>) {
    && (forall g :: 0 <= g < |issued| ==>
          var i := issued[g];
          && i.subject == SubjectOf(i.key)
          && i.subject in windows
          && i.windowEnd <= windows[i.subject].resetsAt)
    && (forall k :: k in windows ==>
          windows[k].count >= 1 && IssuedIn(issued, k, windows[k].resetsAt) <= windows[k].count)
  }

  ghost predicate QuotaKept(env: Env, issued: seq<Issued>) {
    forall key, x :: IssuedIn(issued, SubjectOf(key), x) <= SubjectMax(env, SubjectOf(key))
  }

  /** Every earlier code under the cooldown key is at least one cooldown old. */
  predicate Rested(env: Env, issued: seq<Issued>, key: CooldownKey, now: int) {
    forall g :: 0 <= g < |issued| && CooldownOf(issued[g].key) == key ==>
      issued[g].at + ChannelOf(env, issued[g].key).cooldown <= now
  }

  predicate SpacingOk(env: Env, issued: seq<Issued>, cooldowns: map<CooldownKey, int>) {
    && (forall g :: 0 <= g < |issued| ==> CooldownOf(issued[g].key) in cooldowns)
    && (forall k :: k in cooldowns ==> Rested(env, issued, k, cooldowns[k]))
    && (forall h :: 0 <= h < |issued| ==> Rested(env, issued[..h], CooldownOf(issued[h].key), issued[h].at))
  }

  /** The compared guesses of the code under a key, plus those it can still absorb. */
  predicate CodeWithinBound(env: Env, issued: seq<Issued>, key: CodeKey, c: Code, now: int)
    requires ValidEnv(env)
  {
    var g := LastIssue(issued, key);
    && WellFormed(Some(c))
    && g.Some?
    && issued[g.value].compared + Remaining(Some(c), now, ChannelOf(env, key).cooldown) <= Bound(env, key)
  }

  predicate GuessesOk(env: Env, issued: seq<Issued>, codes: map<CodeKey, Code>, now: int)
    requires ValidEnv(env)
  {
    && (forall g :: 0 <= g < |issued| ==> issued[g].compared <= Bound(env, issued[g].key))
    && (forall k :: k in codes ==> CodeWithinBound(env, issued, k, codes[k], now))
  }

  ghost predicate CodesOk(env: Env, w: World)
    requires ValidEnv(env)
  {
    && QuotaOk(w.issued, w.windows)
    && QuotaKept(env, w.issued)
    && SpacingOk(env, w.issued, w.cooldowns)
    && GuessesOk(env, w.issued, w.codes, w.clock)
  }

  predicate SameButCounts(a: seq<Issued>, b: seq<Issued>) {
    |a| == |b| && forall g :: 0 <= g < |a| ==> a[g].(compared := 0) == b[g].(compared := 0)
  }

  lemma {:induction false} IssuedInIgnoresCounts(a: seq<Issued>, b: seq<Issued>, subject: RateKey, windowEnd: int)
    requires SameButCounts(a, b)
    ensures IssuedIn(a, subject, windowEnd) == IssuedIn(b, subject, windowEnd)
  {
    if a != [] {
      var last := |a| - 1;
      assert a[last].(compared := 0) == b[last].(compared := 0);
      IssuedInIgnoresCounts(a[..last], b[..last], subject, windowEnd);
    }
  }

  lemma {:induction false} NothingIssuedIn(issued: seq<Issued>, subject: RateKey, windowEnd: int)
    requires forall g :: 0 <= g < |issued| && issued[g].subject == subject ==> issued[g].windowEnd != windowEnd
    ensures IssuedIn(issued, subject, windowEnd) == 0
  {
    if issued != [] {
      NothingIssuedIn(issued[..|issued| - 1], subject, windowEnd);
    }
  }

  lemma OneMoreCode(n: nat, bound: nat)
    ensures (n + 1) * bound == n * bound + bound
  {}

  /** The product bound over any list whose entries are each within the per-code bound. */
  lemma {:induction false} ComparedAtMostProduct(issued: seq<Issued>, subject: RateKey, windowEnd: int, bound: nat)
    requires forall g :: 0 <= g < |issued| && issued[g].subject == subject ==> issued[g].compared <= bound
    ensures ComparedIn(issued, subject, windowEnd) <= IssuedIn(issued, subject, windowEnd) * bound
  {
    if issued != [] {
      var front := issued[..|issued| - 1];
      ComparedAtMostProduct(front, subject, windowEnd, bound);
      OneMoreCode(IssuedIn(front, subject, windowEnd), bound);
    }
  }

  lemma {:induction false} BumpKeepsQuota(issued: seq<Issued>, windows: map<RateKey, Window>, key: RateKey, now: int, windowMs: int)
    requires QuotaOk(issued, windows) && windowMs > 0
    ensures var windows' := Bump(windows, key, now, windowMs);
      QuotaOk(issued, windows') && IssuedIn(issued, key, windows'[key].resetsAt) < windows'[key].count
  {
    if key !in windows || windows[key].resetsAt <= now {
      NothingIssuedIn(issued, key, now + windowMs);
    }
  }

  lemma {:induction false} RateLimitKeeps(w: World, ch: Channel, ip: RateKey, also: Option<RateKey>, subject: RateKey)
    requires QuotaOk(w.issued, w.windows) && ch.window > 0
    ensures var w' := RateLimit(w, ch, ip, also, subject, w.clock).0;
      && w' == w.(windows := w'.windows)
      && QuotaOk(w.issued, w'.windows)
      && subject in w'.windows
      && IssuedIn(w.issued, subject, w'.windows[subject].resetsAt) < w'.windows[subject].count
  {
    var ws1 := Bump(w.windows, ip, w.clock, ch.window);
    BumpKeepsQuota(w.issued, w.windows, ip, w.clock, ch.window);
    var ws2 := if also.Some? then Bump(ws1, also.value, w.clock, ch.window) else ws1;
    if also.Some? {
      BumpKeepsQuota(w.issued, ws1, also.value, w.clock, ch.window);
    }
    BumpKeepsQuota(w.issued, ws2, subject, w.clock, ch.window);
  }

  lemma CooldownKeeps(env: Env, w: World, key: CooldownKey, ms: int)
    requires SpacingOk(env, w.issued, w.cooldowns) && ms > 0
    ensures var (w', cool) := Cooldown(w, key, w.clock, ms);
      && w' == w.(cooldowns := w'.cooldowns)
      && SpacingOk(env, w.issued, w'.cooldowns)
      && (cool ==> Rested(env, w.issued, key, w.clock) && key in w'.cooldowns && w'.cooldowns[key] == w.clock + ms)
  {
    var (w', cool) := Cooldown(w, key, w.clock, ms);
    if cool {
      if key in w.cooldowns {
        assert Rested(env, w.issued, key, w.cooldowns[key]);
      }
      forall k | k in w'.cooldowns ensures Rested(env, w.issued, k, w'.cooldowns[k]) {
        if k != key {
          assert Rested(env, w.issued, k, w.cooldowns[k]);
        }
      }
    }
  }

  lemma {:induction false} LastIssueAppend(issued: seq<Issued>, i: Issued, key: CodeKey)
    ensures LastIssue(issued + [i], key) == if i.key == key then Some(|issued|) else LastIssue(issued, key)
  {
    assert (issued + [i])[..|issued|] == issued;
  }

  lemma {:induction false} IssuedInAppend(issued: seq<Issued>, i: Issued, subject: RateKey, windowEnd: int)
    ensures IssuedIn(issued + [i], subject, windowEnd)
      == IssuedIn(issued, subject, windowEnd) + (if i.subject == subject && i.windowEnd == windowEnd then 1 else 0)
  {
    assert (issued + [i])[..|issued|] == issued;
  }

  lemma {:induction false} AppendKeepsQuota(env: Env, issued: seq<Issued>, windows: map<RateKey, Window>, i: Issued)
    requires QuotaOk(issued, windows) && QuotaKept(env, issued)
    requires i.subject == SubjectOf(i.key) && i.subject in windows && i.windowEnd == windows[i.subject].resetsAt
    requires IssuedIn(issued, i.subject, i.windowEnd) < windows[i.subject].count <= SubjectMax(env, i.subject)
    ensures QuotaOk(issued + [i], windows) && QuotaKept(env, issued + [i])
  {
    forall k, x ensures IssuedIn(issued + [i], k, x) == IssuedIn(issued, k, x) + (if i.subject == k && i.windowEnd == x then 1 else 0) {
      IssuedInAppend(issued, i, k, x);
    }
  }

  lemma AppendKeepsSpacing(env: Env, issued: seq<Issued>, cooldowns: map<CooldownKey, int>, i: Issued)
    requires SpacingOk(env, issued, cooldowns)
    requires Rested(env, issued, CooldownOf(i.key), i.at)
    requires CooldownOf(i.key) in cooldowns && i.at + ChannelOf(env, i.key).cooldown <= cooldowns[CooldownOf(i.key)]
    ensures SpacingOk(env, issued + [i], cooldowns)
  {
    var all := issued + [i];
    forall k | k in cooldowns ensures Rested(env, all, k, cooldowns[k]) {
      assert Rested(env, issued, k, cooldowns[k]);
    }
    forall h | 0 <= h < |all| ensures Rested(env, all[..h], CooldownOf(all[h].key), all[h].at) {
      if h < |issued| {
        assert Rested(env, issued[..h], CooldownOf(issued[h].key), issued[h].at);
        assert all[..h] == issued[..h];
      } else {
        assert all[..h] == issued;
      }
    }
  }

  lemma AppendKeepsGuesses(env: Env, w: World, key: CodeKey, digest: Digest, i: Issued)
    requires ValidEnv(env) && GuessesOk(env, w.issued, w.codes, w.clock) && i.key == key && i.compared == 0
    ensures var ch := ChannelOf(env, key);
      GuessesOk(env, w.issued + [i], w.codes[key := NewCode(digest, w.clock, ch.ttl, ch.maxAttempts)], w.clock)
  {
    var ch := ChannelOf(env, key);
    var c := NewCode(digest, w.clock, ch.ttl, ch.maxAttempts);
    var codes := w.codes[key := c];
    RemainingOfNewCode(digest, w.clock, ch.ttl, ch.maxAttempts, ch.cooldown);
    RemainingNonNegative(Some(c), w.clock, ch.cooldown);
    forall k | k in codes ensures CodeWithinBound(env, w.issued + [i], k, codes[k], w.clock) {
      LastIssueAppend(w.issued, i, k);
      assert k != key ==> CodeWithinBound(env, w.issued, k, w.codes[k], w.clock);
    }
  }

  lemma IssueKeeps(env: Env, w: World, key: CodeKey, otp: string)
    requires ValidEnv(env) && CodesOk(env, w)
    requires SubjectOf(key) in w.windows
    requires IssuedIn(w.issued, SubjectOf(key), w.windows[SubjectOf(key)].resetsAt)
      < w.windows[SubjectOf(key)].count <= SubjectMax(env, SubjectOf(key))
    requires Rested(env, w.issued, CooldownOf(key), w.clock)
    requires CooldownOf(key) in w.cooldowns
    requires w.cooldowns[CooldownOf(key)] == w.clock + ChannelOf(env, key).cooldown
    ensures CodesOk(env, Issue(w, key, SubjectOf(key), otp, w.clock, ChannelOf(env, key)))
  {
    var i := Issued(key, SubjectOf(key), w.clock, w.windows[SubjectOf(key)].resetsAt, 0);
    AppendKeepsQuota(env, w.issued, w.windows, i);
    AppendKeepsSpacing(env, w.issued, w.cooldowns, i);
    AppendKeepsGuesses(env, w, key, OtpDigest(if key.ByEmail? then key.email else key.phone, otp), i);
  }

  lemma {:induction false} LastIssueIgnoresCounts(a: seq<Issued>, b: seq<Issued>, key: CodeKey)
    requires SameButCounts(a, b)
    ensures LastIssue(a, key) == LastIssue(b, key)
  {
    if a != [] {
      var last := |a| - 1;
      assert a[last].(compared := 0) == b[last].(compared := 0);
      LastIssueIgnoresCounts(a[..last], b[..last], key);
    }
  }

  lemma CountsDoNotMatter(env: Env, a: seq<Issued>, b: seq<Issued>, windows: map<RateKey, Window>, cooldowns: map<CooldownKey, int>)
    requires SameButCounts(a, b)
    requires QuotaOk(a, windows) && QuotaKept(env, a) && SpacingOk(env, a, cooldowns)
    ensures QuotaOk(b, windows) && QuotaKept(env, b) && SpacingOk(env, b, cooldowns)
  {
    forall k, x ensures IssuedIn(a, k, x) == IssuedIn(b, k, x) {
      IssuedInIgnoresCounts(a, b, k, x);
    }
    forall g | 0 <= g < |b| ensures b[g].key == a[g].key && b[g].at == a[g].at && b[g].subject == a[g].subject && b[g].windowEnd == a[g].windowEnd {
      assert a[g].(compared := 0) == b[g].(compared := 0);
    }
    forall k | k in cooldowns ensures Rested(env, b, k, cooldowns[k]) {
      assert Rested(env, a, k, cooldowns[k]);
    }
    forall h | 0 <= h < |b| ensures Rested(env, b[..h], CooldownOf(b[h].key), b[h].at) {
      assert Rested(env, a[..h], CooldownOf(a[h].key), a[h].at);
    }
  }

  /** Counting one more compared guess, against room for it, leaves every bound in place. */
  lemma CountKeepsGuesses(env: Env, issued: seq<Issued>, codes: map<CodeKey, Code>, key: CodeKey, left: Option<Code>, now: int)
    requires ValidEnv(env) && GuessesOk(env, issued, codes, now) && key in codes
    requires var lock := ChannelOf(env, key).cooldown;
      && WellFormed(left)
      && Remaining(left, now, lock) + 1 <= Remaining(Some(codes[key]), now, lock)
    ensures var issued' := CountCompared(issued, key);
      && SameButCounts(issued, issued')
      && GuessesOk(env, issued', if left.Some? then codes[key := left.value] else codes - {key}, now)
  {
    assert CodeWithinBound(env, issued, key, codes[key], now);
    RemainingNonNegative(left, now, ChannelOf(env, key).cooldown);
    var issued' := CountCompared(issued, key);
    var g := LastIssue(issued, key).value;
    var codes' := if left.Some? then codes[key := left.value] else codes - {key};
    forall k | k in codes' ensures CodeWithinBound(env, issued', k, codes'[k], now) {
      LastIssueIgnoresCounts(issued, issued', k);
      if k != key {
        assert CodeWithinBound(env, issued, k, codes[k], now);
        assert LastIssue(issued, k).value != g;
      }
    }
  }

  lemma TryCodeKeepsGuesses(env: Env, w: World, key: CodeKey, otp: string)
    requires ValidEnv(env) && GuessesOk(env, w.issued, w.codes, w.clock)
    ensures var w' := TryCode(w, key, otp, w.clock, ChannelOf(env, key).cooldown).0;
      SameButCounts(w.issued, w'.issued) && GuessesOk(env, w'.issued, w'.codes, w.clock)
  {
    var lock := ChannelOf(env, key).cooldown;
    var digest := OtpDigest(if key.ByEmail? then key.email else key.phone, otp);
    var c := Lookup(w.codes, key);
    var (v, left) := Guess(c, digest, w.clock, lock);
    var w' := TryCode(w, key, otp, w.clock, lock).0;
    if Compared(v) {
      assert CodeWithinBound(env, w.issued, key, w.codes[key], w.clock);
      GuessUsesOneUp(c, digest, w.clock, lock);
      CountKeepsGuesses(env, w.issued, w.codes, key, left, w.clock);
    } else {
      assert w'.codes == w.codes;
    }
  }

  lemma TryCodeKeeps(env: Env, w: World, key: CodeKey, otp: string)
    requires ValidEnv(env) && CodesOk(env, w)
    ensures CodesOk(env, TryCode(w, key, otp, w.clock, ChannelOf(env, key).cooldown).0)
  {
    TryCodeKeepsGuesses(env, w, key, otp);
    var w' := TryCode(w, key, otp, w.clock, ChannelOf(env, key).cooldown).0;
    CountsDoNotMatter(env, w.issued, w'.issued, w.windows, w.cooldowns);
  }

  lemma ClockKeeps(env: Env, w: World, now: int)
    requires ValidEnv(env) && CodesOk(env, w) && w.clock <= now
    ensures CodesOk(env, w.(clock := now))
  {
    forall k | k in w.codes ensures CodeWithinBound(env, w.issued, k, w.codes[k], now) {
      assert CodeWithinBound(env, w.issued, k, w.codes[k], w.clock);
      RemainingShrinksWithTime(Some(w.codes[k]), w.clock, now, ChannelOf(env, k).cooldown);
    }
  }

  /** A send that passed the rate limit and the cooldown issues within quota and spacing. */
  lemma SendKeeps(env: Env, w: World, key: CodeKey, ip: RateKey, also: Option<RateKey>, otp: string)
    requires ValidEnv(env) && CodesOk(env, w)
    ensures var ch := ChannelOf(env, key);
      var (w1, allowed) := RateLimit(w, ch, ip, also, SubjectOf(key), w.clock);
      var (w2, cool) := Cooldown(w1, CooldownOf(key), w.clock, ch.cooldown);
      && CodesOk(env, w1)
      && CodesOk(env, w2)
      && (allowed && cool ==> SubjectOf(key) in w2.windows && CodesOk(env, Issue(w2, key, SubjectOf(key), otp, w.clock, ch)))
  {
    var ch := ChannelOf(env, key);
    var (w1, allowed) := RateLimit(w, ch, ip, also, SubjectOf(key), w.clock);
    RateLimitKeeps(w, ch, ip, also, SubjectOf(key));
    var (w2, cool) := Cooldown(w1, CooldownOf(key), w.clock, ch.cooldown);
    CooldownKeeps(env, w1, CooldownOf(key), ch.cooldown);
    if allowed && cool {
      IssueKeeps(env, w2, key, otp);
    }
  }

  lemma StartEmailKeepsCodes(env: Env, w: World, email: string, ip: string, otp: string)
    requires ValidEnv(env) && CodesOk(env, w)
    ensures var w' := StartEmail(env, w, email, ip, otp, w.clock).0; CodesOk(env, w') && w'.clock == w.clock
  {
    SendKeeps(env, w, ByEmail(email), EmailIp(ip), None, otp);
  }

  /** Apart from the users, startVerification for a phone ends in one of its four stages. */
  lemma StartPhoneStages(env: Env, w: World, id: nat, phone: string, ip: string, otp: string)
    ensures var (w1, allowed) := RateLimit(w, env.phone, PhoneIp(ip), Some(PhoneUser(id)), PhoneNumber(phone), w.clock);
      var (w2, cool) := Cooldown(w1, CoolUser(id), w.clock, env.phone.cooldown);
      var w' := StartPhone(env, w, id, phone, ip, otp, w.clock).0;
      || w' == w || w' == w1 || w' == w2
      || (allowed && cool && PhoneNumber(phone) in w2.windows
          && w'.(users := w2.users) == Issue(w2, ByPhone(id, phone), PhoneNumber(phone), otp, w.clock, env.phone))
  {}

  lemma StartPhoneKeepsCodes(env: Env, w: World, id: nat, phone: string, ip: string, otp: string)
    requires ValidEnv(env) && CodesOk(env, w)
    ensures var w' := StartPhone(env, w, id, phone, ip, otp, w.clock).0; CodesOk(env, w') && w'.clock == w.clock
  {
    StartPhoneStages(env, w, id, phone, ip, otp);
    SendKeeps(env, w, ByPhone(id, phone), PhoneIp(ip), Some(PhoneUser(id)), otp);
  }

  lemma VerifyEmailKeepsCodes(env: Env, w: World, email: string, otp: string)
    requires ValidEnv(env) && CodesOk(env, w)
    ensures var w' := VerifyEmail(env, w, email, otp, w.clock).0; CodesOk(env, w') && w'.clock == w.clock
  {
    TryCodeKeeps(env, w, ByEmail(email), otp);
  }

  lemma VerifyPhoneKeepsCodes(env: Env, w: World, id: nat, phone: string, otp: string)
    requires ValidEnv(env) && CodesOk(env, w)
    ensures var w' := VerifyPhone(env, w, id, phone, otp, w.clock).0; CodesOk(env, w') && w'.clock == w.clock
  {
    TryCodeKeeps(env, w, ByPhone(id, phone), otp);
  }

  /** Calls that only touch accounts leave codes, counters and their history alone. */
  lemma CodesFrame(env: Env, w: World, w': World)
    requires ValidEnv(env) && CodesOk(env, w)
    requires w' == w.(users := w'.users, vouched := w'.vouched)
    ensures CodesOk(env, w') && w'.clock == w.clock
  {}

  lemma RegisterKeepsCodes(env: Env, w: World, email: string, phone: string, ip: string, otp: string)
    requires ValidEnv(env) && CodesOk(env, w)
    ensures var w' := Register(env, w, email, phone, ip, otp, w.clock).0; CodesOk(env, w') && w'.clock == w.clock
  {
    var u := User(email, Some(phone), false, false, false, PendingEmail, None);
    var w1 := w.(users := w.users + [Some(u)]);
    CodesFrame(env, w, w1);
    StartEmailKeepsCodes(env, w1, email, ip, otp);
  }

  lemma ApplyKeepsCodes(env: Env, w: World, call: Call)
    requires ValidEnv(env) && CodesOk(env, w)
    ensures var w' := Apply(env, w, call, w.clock).0; CodesOk(env, w') && w'.clock == w.clock
  {
    match call {
      case CallRegister(email, phone, ip, otp) => RegisterKeepsCodes(env, w, email, phone, ip, otp);
      case CallOAuthRegister(email, emailVerified) => CodesFrame(env, w, OAuthRegister(env, w, email, emailVerified, w.clock).0);
      case CallStartEmail(email, ip, otp) => StartEmailKeepsCodes(env, w, email, ip, otp);
      case CallVerifyEmail(email, otp) => VerifyEmailKeepsCodes(env, w, email, otp);
      case CallStartPhone(id, phone, ip, otp) => StartPhoneKeepsCodes(env, w, id, phone, ip, otp);
      case CallVerifyPhone(id, phone, otp) => VerifyPhoneKeepsCodes(env, w, id, phone, otp);
      case CallActivate(id, faceAccepted) => CodesFrame(env, w, Activate(w, id, faceAccepted).0);
      case CallCleanup(limit) => CodesFrame(env, w, Cleanup(w, limit, w.clock).0);
    }
  }

  lemma StepKeepsCodes(env: Env, w: World, e: Event)
    requires ValidEnv(env) && CodesOk(env, w) && w.clock <= e.at
    ensures CodesOk(env, Step(env, w, e)) && Step(env, w, e).clock == e.at
  {
    ClockKeeps(env, w, e.at);
    ApplyKeepsCodes(env, w.(clock := e.at), e.call);
  }

  ghost predicate CodesFine(env: Env, w: World) {
    ValidEnv(env) && CodesOk(env, w)
  }

  lemma CodesInEveryRun(env: Env, events: seq<Event>)
    requires ValidEnv(env) && Timely(env, events)
    ensures CodesOk(env, Run(env, events))
  {
    var fine := (w: World) => CodesFine(env, w);
    forall w: World, e: Event | fine(w) && InTime(w, e) ensures fine(StepIn(env)(w, e)) {
      StepKeepsCodes(env, w, e);
    }
    InvariantAt(StepIn(env), InTime, fine, Start, events, |events|);
  }

  /** For every code ever issued, at most max + ceil(ttl / lock) - 1 guesses are compared
      with it. */
  lemma EveryCodeIsBounded(env: Env, events: seq<Event>, g: nat)
    requires ValidEnv(env) && Timely(env, events) && g < |Run(env, events).issued|
    ensures var i := Run(env, events).issued[g]; i.compared <= Bound(env, i.key)
  {
    CodesInEveryRun(env, events);
  }

  /** Two codes sent to one e-mail address, or to one user, are at least one cooldown apart. */
  lemma CodesAreSpaced(env: Env, events: seq<Event>, g: nat, h: nat)
    requires ValidEnv(env) && Timely(env, events) && g < h < |Run(env, events).issued|
    requires CooldownOf(Run(env, events).issued[g].key) == CooldownOf(Run(env, events).issued[h].key)
    ensures var issued := Run(env, events).issued;
      issued[g].at + ChannelOf(env, issued[g].key).cooldown <= issued[h].at
  {
    CodesInEveryRun(env, events);
    var issued := Run(env, events).issued;
    assert Rested(env, issued[..h], CooldownOf(issued[h].key), issued[h].at);
    assert issued[..h][g] == issued[g];
  }

  /** In any quota window at most subjectMax codes go to one e-mail address or phone number,
      and all guesses ever compared with those codes are at most the product. */
  lemma {:induction false} WindowGuessBound(env: Env, events: seq<Event>, key: CodeKey, windowEnd: int)
    requires ValidEnv(env) && Timely(env, events)
    ensures var w := Run(env, events);
      && IssuedIn(w.issued, SubjectOf(key), windowEnd) <= SubjectMax(env, SubjectOf(key))
      && ComparedIn(w.issued, SubjectOf(key), windowEnd) <= SubjectMax(env, SubjectOf(key)) * Bound(env, key)
  {
    CodesInEveryRun(env, events);
    var w, subject := Run(env, events), SubjectOf(key);
    var ch := ChannelOf(env, key);
    CeilDivIsLeast(ch.ttl, ch.cooldown, 0);
    ComparedAtMostProduct(w.issued, subject, windowEnd, Bound(env, key));
    MulMono(IssuedIn(w.issued, subject, windowEnd), SubjectMax(env, subject), Bound(env, key));
  }

  // ---- Completing a registration ----

  lemma {:induction false} FindLast(users: seq<Option<User>>, u: User)
    ensures FindByEmail(users + [Some(u)], u.email) == Some(|users|)
  {}

  /** The code just issued under a key is accepted until it expires. */
  lemma FreshCodeIsAccepted(w: World, key: CodeKey, subject: RateKey, otp: string, at: int, ch: Channel, now: int)
    requires subject in w.windows && now < at + ch.ttl
    ensures TryCode(Issue(w, key, subject, otp, at, ch), key, otp, now, ch.cooldown).1 == Right
  {}

  lemma EmailCodeCompletes(env: Env, w: World, email: string, phone: string, ip: string, otp: string, t1: int, t2: int)
    requires Register(env, w, email, phone, ip, otp, t1).1.Created? && t2 < t1 + env.email.ttl
    ensures var w1 := Register(env, w, email, phone, ip, otp, t1).0;
      var (w2, r) := VerifyEmail(env, w1, email, otp, t2);
      r == Verified && w2.users == w.users + [Some(User(email, Some(phone), true, false, false, PendingPhone, None))]
  {
    var u := User(email, Some(phone), false, false, false, PendingEmail, None);
    FindLast(w.users, u);
    var w0 := w.(users := w.users + [Some(u)]);
    var (w1, _) := RateLimit(w0, env.email, EmailIp(ip), None, EmailAddress(email), t1);
    var (w2, _) := Cooldown(w1, CoolEmail(email), t1, env.email.cooldown);
    assert Register(env, w, email, phone, ip, otp, t1).0 == Issue(w2, ByEmail(email), EmailAddress(email), otp, t1, env.email);
    FreshCodeIsAccepted(w2, ByEmail(email), EmailAddress(email), otp, t1, env.email, t2);
  }

  lemma PhoneCodeCompletes(env: Env, w: World, id: nat, phone: string, ip: string, otp: string, t1: int, t2: int)
    requires Live(w.users, id).Some? && t2 < t1 + env.phone.ttl
    requires var u := w.users[id].value; u.emailVerified && u.status == PendingPhone && u.phone == Some(phone)
    requires !PhoneRefused(env, w.users, phone, id)
    requires StartPhone(env, w, id, phone, ip, otp, t1).1 == Sent
    ensures var w1 := StartPhone(env, w, id, phone, ip, otp, t1).0;
      var (w2, r) := VerifyPhone(env, w1, id, phone, otp, t2);
      && r == Verified
      && w2.users == w.users[id := Some(w.users[id].value.(
           phoneVerified := true, status := PendingFace, deadline := Some(t2 + env.activationMs)))]
  {
    var (w1, _) := RateLimit(w, env.phone, PhoneIp(ip), Some(PhoneUser(id)), PhoneNumber(phone), t1);
    var (w2, _) := Cooldown(w1, CoolUser(id), t1, env.phone.cooldown);
    FreshCodeIsAccepted(w2, ByPhone(id, phone), PhoneNumber(phone), otp, t1, env.phone, t2);
  }

  lemma PhoneAndFaceComplete(env: Env, w: World, id: nat, phone: string, ip: string, otp: string, t1: int, t2: int)
    requires Live(w.users, id).Some? && t2 < t1 + env.phone.ttl
    requires var u := w.users[id].value; u.emailVerified && u.status == PendingPhone && u.phone == Some(phone)
    requires !PhoneRefused(env, w.users, phone, id)
    requires StartPhone(env, w, id, phone, ip, otp, t1).1 == Sent
    ensures var w1 := StartPhone(env, w, id, phone, ip, otp, t1).0;
      var w2 := VerifyPhone(env, w1, id, phone, otp, t2).0;
      Activate(w2, id, true).0.users == w.users[id := Some(w.users[id].value.(
        phoneVerified := true, faceVerified := true, status := Active, deadline := None))]
  {
    PhoneCodeCompletes(env, w, id, phone, ip, otp, t1, t2);
  }

  lemma RegisteredPhoneIsFree(env: Env, w: World, email: string, phone: string, ip: string, otp: string, now: int)
    requires Register(env, w, email, phone, ip, otp, now).1.Created?
    ensures !PhoneRefused(env, w.users, phone, -1)
  {}

  /** The second half, from the state after the e-mail code, for the user who came last. */
  lemma LastUserCompletes(env: Env, users: seq<Option<User>>, w: World, email: string, phone: string, ip: string, otp: string, t1: int, t2: int)
    requires w.users == users + [Some(User(email, Some(phone), true, false, false, PendingPhone, None))]
    requires !PhoneRefused(env, users, phone, -1) && t2 < t1 + env.phone.ttl
    requires StartPhone(env, w, |users|, phone, ip, otp, t1).1 == Sent
    ensures var w1 := StartPhone(env, w, |users|, phone, ip, otp, t1).0;
      var w2 := VerifyPhone(env, w1, |users|, phone, otp, t2).0;
      Activate(w2, |users|, true).0.users == users + [Some(User(email, Some(phone), true, true, true, Active, None))]
  {
    PhoneAndFaceComplete(env, w, |users|, phone, ip, otp, t1, t2);
    var done := Some(User(email, Some(phone), true, true, true, Active, None));
    assert w.users[|users| := done] == users + [done];
  }

  /** Registering and then presenting the e-mail code, the phone code and an accepted face,
      each in time, makes the account ACTIVE with every flag set. */
  lemma RegistrationCompletes(env: Env, w: World, email: string, phone: string, ip: string, otp: string, phoneOtp: string,
                              t1: int, t2: int, t3: int, t4: int)
    requires Register(env, w, email, phone, ip, otp, t1).1.Created?
    requires t2 < t1 + env.email.ttl && t4 < t3 + env.phone.ttl
    requires var w1 := Register(env, w, email, phone, ip, otp, t1).0;
      var w2 := VerifyEmail(env, w1, email, otp, t2).0;
      StartPhone(env, w2, |w.users|, phone, ip, phoneOtp, t3).1 == Sent
    ensures var w1 := Register(env, w, email, phone, ip, otp, t1).0;
      var w2 := VerifyEmail(env, w1, email, otp, t2).0;
      var w3 := StartPhone(env, w2, |w.users|, phone, ip, phoneOtp, t3).0;
      var w4 := VerifyPhone(env, w3, |w.users|, phone, phoneOtp, t4).0;
      var w5 := Activate(w4, |w.users|, true).0;
      w5.users == w.users + [Some(User(email, Some(phone), true, true, true, Active, None))]
  {
    var w1 := Register(env, w, email, phone, ip, otp, t1).0;
    var w2 := VerifyEmail(env, w1, email, otp, t2).0;
    EmailCodeCompletes(env, w, email, phone, ip, otp, t1, t2);
    RegisteredPhoneIsFree(env, w, email, phone, ip, otp, t1);
    LastUserCompletes(env, w.users, w2, email, phone, ip, phoneOtp, t3, t4);
  }
}
