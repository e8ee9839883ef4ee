/** The userService handlers as they run: one object whose collections, Redis counters and
    verification records are updated in place, proved to do what Accounts says. */
module AccountService {
  import opened Options
  import opened OtpCode
  import opened Accounts

  class Service {
    const env: Env
    var users: seq<Option<User>>
    var codes: map<CodeKey, Code>
    var windows: map<RateKey, Window>
    var cooldowns: map<CooldownKey, int>
    var deletedEvents: seq<nat>           // ids published under user.deleted.cleanup
    ghost var issued: seq<Issued>
    ghost var consumed: set<CodeKey>
    ghost var vouched: set<nat>

    ghost function View(now: int): World
      reads this
    {
      World(now, users, codes, windows, cooldowns, issued, consumed, vouched)
    }

    constructor (env: Env)
      ensures this.env == env && View(0) == Start && deletedEvents == []
    {
      this.env := env;
      users, codes, windows, cooldowns, deletedEvents := [], map[], map[], map[], [];
      issued, consumed, vouched := [], {}, {};
    }

    method IncrementWindowCounter(key: RateKey, now: int, windowMs: int) returns (count: int)
      modifies this`windows
      ensures windows == Bump(old(windows), key, now, windowMs) && count == windows[key].count
    {
      if key !in windows || windows[key].resetsAt <= now {
        windows := windows[key := Window(1, now + windowMs)];
      } else {
        windows := windows[key := windows[key].(count := windows[key].count + 1)];
      }
      count := windows[key].count;
    }

    method EnforceEmailRateLimit(email: string, ip: string, now: int) returns (allowed: bool)
      modifies this`windows
      ensures (View(now), allowed) == RateLimit(old(View(now)), env.email, EmailIp(ip), None, EmailAddress(email), now)
    {
      var byIp := IncrementWindowCounter(EmailIp(ip), now, env.email.window);
      var byEmail := IncrementWindowCounter(EmailAddress(email), now, env.email.window);
      allowed := !(byIp > env.email.sendMax || byEmail > env.email.subjectMax);
    }

    method EnforcePhoneRateLimit(id: nat, phone: string, ip: string, now: int) returns (allowed: bool)
      modifies this`windows
      ensures (View(now), allowed) ==
        RateLimit(old(View(now)), env.phone, PhoneIp(ip), Some(PhoneUser(id)), PhoneNumber(phone), now)
    {
      var byIp := IncrementWindowCounter(PhoneIp(ip), now, env.phone.window);
      var byUser := IncrementWindowCounter(PhoneUser(id), now, env.phone.window);
      var byPhone := IncrementWindowCounter(PhoneNumber(phone), now, env.phone.window);
      allowed := !(byIp > env.phone.sendMax || byUser > env.phone.sendMax || byPhone > env.phone.subjectMax);
    }

    method EnforceSendCooldown(key: CooldownKey, now: int, ms: int) returns (cool: bool)
      modifies this`cooldowns
      ensures (View(now), cool) == Cooldown(old(View(now)), key, now, ms)
    {
      if key in cooldowns && now < cooldowns[key] {
        return false;
      }
      cooldowns := cooldowns[key := now + ms];
      return true;
    }

    method UpsertActiveCode(key: CodeKey, subject: RateKey, otp: string, now: int, ch: Channel)
      requires subject in windows
      modifies this`codes, this`issued
      ensures View(now) == Issue(old(View(now)), key, subject, otp, now, ch)
    {
      var digest := OtpDigest(if key.ByEmail? then key.email else key.phone, otp);
      codes := codes[key := Code(digest, now + ch.ttl, 0, ch.maxAttempts, None)];
      issued := issued + [Issued(key, subject, now, windows[subject].resetsAt, 0)];
    }

    method StartEmailVerification(email: string, ip: string, otp: string, now: int) returns (r: Reply)
      modifies this
      ensures (View(now), r) == StartEmail(env, old(View(now)), email, ip, otp, now)
      ensures deletedEvents == old(deletedEvents)
    {
      var allowed := EnforceEmailRateLimit(email, ip, now);
      if !allowed {
        return RateLimited;
      }
      var cool := EnforceSendCooldown(CoolEmail(email), now, env.email.cooldown);
      if !cool {
        return CooldownActive;
      }
      var id := FindByEmail(users, email);
      if id.None? || users[id.value].value.emailVerified {
        return Sent;
      }
      UpsertActiveCode(ByEmail(email), EmailAddress(email), otp, now, env.email);
      return Sent;
    }

    method StartPhoneVerification(id: nat, phone: string, ip: string, otp: string, now: int) returns (r: Reply)
      modifies this
      ensures (View(now), r) == StartPhone(env, old(View(now)), id, phone, ip, otp, now)
      ensures deletedEvents == old(deletedEvents)
    {
      var user := Live(users, id);
      if user.None? {
        return NotFound;
      }
      var allowed := EnforcePhoneRateLimit(id, phone, ip, now);
      if !allowed {
        return RateLimited;
      }
      var cool := EnforceSendCooldown(CoolUser(id), now, env.phone.cooldown);
      if !cool {
        return CooldownActive;
      }
      UpsertActiveCode(ByPhone(id, phone), PhoneNumber(phone), otp, now, env.phone);
      var u := user.value;
      if u.phone == None || u.phone != Some(phone) {
        u := u.(phone := Some(phone), phoneVerified := false);
        if u.emailVerified && u.status != PendingFace {
          u := u.(status := PendingPhone);
        }
        if PhoneRefused(env, users, phone, id) {
          return PhoneExists;
        }
        users := users[id := Some(u)];
      }
      return Sent;
    }

    /** findActive..., the lock guard, the comparison and its bookkeeping. */
    method CheckCode(key: CodeKey, otp: string, now: int, lock: int) returns (v: Verdict)
      modifies this`codes, this`issued, this`consumed
      ensures (View(now), v) == TryCode(old(View(now)), key, otp, now, lock)
    {
      var digest := OtpDigest(if key.ByEmail? then key.email else key.phone, otp);
      if key !in codes || codes[key].expiresAt <= now {
        assert key !in codes ==> codes - {key} == codes;
        assert key in codes ==> codes[key := codes[key]] == codes;
        return Missing;
      }
      var c := codes[key];
      if c.lockedUntil.Some? && c.lockedUntil.value > now {
        assert codes[key := codes[key]] == codes;
        return Refused;
      }
      issued := CountCompared(issued, key);
      if c.codeHash != digest {
        c := c.(attempts := c.attempts + 1);
        if c.attempts >= c.maxAttempts {
          c := c.(lockedUntil := Some(now + lock));
        }
        codes := codes[key := c];
        return Wrong(c.lockedUntil.Some? && c.lockedUntil.value > now);
      }
      codes := codes - {key};
      consumed := consumed + {key};
      return Right;
    }

    method VerifyEmailCode(email: string, otp: string, now: int) returns (r: Reply)
      modifies this
      ensures (View(now), r) == VerifyEmail(env, old(View(now)), email, otp, now)
      ensures deletedEvents == old(deletedEvents)
    {
      var id := FindByEmail(users, email);
      if id.None? {
        return Invalid;
      }
      if users[id.value].value.emailVerified {
        return Verified;
      }
      var v := CheckCode(ByEmail(email), otp, now, env.email.cooldown);
      if v != Right {
        return Refusal(v);
      }
      var u := users[id.value].value;
      u := u.(emailVerified := true);
      if u.status == PendingEmail {
        u := u.(status := if u.phoneVerified then PendingFace else PendingPhone);
        if u.phoneVerified {
          u := u.(deadline := Some(now + env.activationMs));
        }
      }
      users := users[id.value := Some(u)];
      return Verified;
    }

    method VerifyPhoneCode(id: nat, phone: string, otp: string, now: int) returns (r: Reply)
      modifies this
      ensures (View(now), r) == VerifyPhone(env, old(View(now)), id, phone, otp, now)
      ensures deletedEvents == old(deletedEvents)
    {
      var user := Live(users, id);
      if user.None? {
        return NotFound;
      }
      var v := CheckCode(ByPhone(id, phone), otp, now, env.phone.cooldown);
      if v != Right {
        return Refusal(v);
      }
      var u := user.value;
      u := u.(phone := Some(phone), phoneVerified := true);
      if u.emailVerified && u.status == PendingPhone {
        u := u.(status := PendingFace, deadline := Some(now + env.activationMs));
      }
      if PhoneRefused(env, users, phone, id) {
        return PhoneExists;
      }
      users := users[id := Some(u)];
      return Verified;
    }

    method RegisterAccount(email: string, phone: string, ip: string, otp: string, now: int) returns (r: Reply)
      modifies this
      ensures (View(now), r) == Register(env, old(View(now)), email, phone, ip, otp, now)
      ensures deletedEvents == old(deletedEvents)
    {
      if FindByEmail(users, email).Some? {
        return EmailExists;
      }
      if PhoneRefused(env, users, phone, -1) {
        return PhoneExists;
      }
      var id := |users|;
      users := users + [Some(User(email, Some(phone), false, false, false, PendingEmail, None))];
      r := StartEmailVerification(email, ip, otp, now);
      if r == Sent {
        r := Created(id);
      }
    }

    method RegisterThroughProvider(email: string, emailVerified: bool, now: int) returns (r: Reply)
      modifies this
      ensures (View(now), r) == OAuthRegister(env, old(View(now)), email, emailVerified, now)
      ensures deletedEvents == old(deletedEvents)
    {
      if FindByEmail(users, email).Some? {
        return EmailExists;
      }
      var u := User(email, None, emailVerified, false, false, PendingEmail, None);
      if emailVerified {
        u := u.(status := PendingPhone, deadline := Some(now + env.activationMs));
        vouched := vouched + {|users|};
      }
      users := users + [Some(u)];
      return Created(|users| - 1);
    }

    method ActivateAccount(id: nat, faceAccepted: bool, now: int) returns (r: Reply)
      modifies this`users
      ensures (View(now), r) == Activate(old(View(now)), id, faceAccepted)
    {
      var user := Live(users, id);
      if user.None? {
        return NotFound;
      }
      var u := user.value;
      if u.status == Archived {
        return Forbidden;
      }
      if !u.emailVerified || u.status == PendingEmail {
        return Forbidden;
      }
      if !u.phoneVerified || u.status == PendingPhone {
        return Forbidden;
      }
      if u.status == Active && u.faceVerified {
        return Activated;
      }
      if u.status != PendingFace || !faceAccepted {
        return Forbidden;
      }
      u := u.(status := Active);
      u := u.(faceVerified := true);
      u := u.(deadline := None);
      users := users[id := Some(u)];
      return Activated;
    }

    /** PendingFaceActivationCleanupJob.runOnce: delete the batch, then one event per user. */
    method RunCleanup(limit: nat, now: int) returns (r: Reply)
      modifies this`users, this`deletedEvents
      ensures (View(now), r) == Cleanup(old(View(now)), limit, now)
      ensures deletedEvents == old(deletedEvents) + LapsedIds(old(users), now, limit)
    {
      var ids := LapsedIds(users, now, limit);
      users := DeleteByIds(users, ids);
      var n := 0;
      while n < |ids|
        invariant 0 <= n <= |ids|
        invariant users == DeleteByIds(old(users), ids)
        invariant deletedEvents == old(deletedEvents) + ids[..n]
      {
        deletedEvents := deletedEvents + [ids[n]];
        n := n + 1;
      }
      assert ids[..n] == ids;
      return Deleted(ids);
    }
  }
}
