/** Resending verification mails (packages/auth/src/verification-resend.ts): one limiter,
    two keys per request, and a limiter that throws when it is full. */
module VerificationResend {
  import opened Common
  import opened Text
  import opened SlidingWindow

  const MAX_ATTEMPTS: int := 5
  const WINDOW_MS: int := 60 * 60 * 1000
  const MAX_LIMITER_BUCKETS: int := 20_000

  predicate Plain(c: char) { !IsSpace(c) && c != '@' }

  /** One `@` with a non-empty left part, and a dot inside the right part. */
  predicate EmailShape(s: string) {
    exists at, dot :: 0 < at < dot - 1 && dot < |s| - 1 && s[at] == '@' && s[dot] == '.'
      && forall i :: 0 <= i < |s| && i != at ==> Plain(s[i])
  }

  function NormalizeEmail(value: Option<string>): Option<string> {
    if value.None? then None
    else
      var email := Lower(Trim(value.value));
      if |email| < 3 || |email| > 254 || !EmailShape(email) then None else Some(email)
  }

  function NormalizeIp(ip: string): string {
    if Trim(ip) == "" then "unknown" else Trim(ip)
  }

  /** A digest of mail addresses and network addresses. */
  type Digest = string -> string

  function EmailKey(digest: Digest, email: string): Key { Key("email:" + digest(email)) }

  function IpKey(digest: Digest, ip: string): Key { Key("ip:" + digest(ip)) }

  /** A request with the two readings of the limiter's clock it causes. */
  datatype Request = Request(email: Option<string>, ip: string, emailAt: int, ipAt: int, providerOk: bool)

  /** A mail handed to the provider, with the normalized addresses it counts for. */
  datatype Mail = Mail(email: string, ip: string, emailAt: int, ipAt: int)

  datatype Outcome = Sent | Unavailable

  datatype Reply = Reply(outcome: Outcome, calls: seq<Call>, mail: Option<Mail>)

  /** Whether both calls were granted, and which were made: a throw skips what follows it. */
  datatype Consumed = Consumed(allowed: bool, calls: seq<Call>)

  /** The first call stays consumed even when the second one fails. */
  function ConsumeBoth(l: Limiter, a: Call, b: Call, windowMs: int, maxBuckets: int): Consumed {
    if VerdictOf(l, a, windowMs, maxBuckets) == Exhausted then Consumed(false, [a])
    else
      Consumed(VerdictOf(l, a, windowMs, maxBuckets) == Granted
               && VerdictOf(Step(l, a, windowMs, maxBuckets), b, windowMs, maxBuckets) == Granted, [a, b])
  }

  function EmailCall(digest: Digest, email: string, r: Request): Call {
    Call(EmailKey(digest, email), MAX_ATTEMPTS, r.emailAt)
  }

  function IpCall(digest: Digest, r: Request): Call {
    Call(IpKey(digest, NormalizeIp(r.ip)), MAX_ATTEMPTS, r.ipAt)
  }

  function Serve(l: Limiter, digest: Digest, r: Request, windowMs: int, maxBuckets: int): Reply {
    var email := NormalizeEmail(r.email);
    if email.None? then Reply(Sent, [], None)
    else
      var both := ConsumeBoth(l, EmailCall(digest, email.value, r), IpCall(digest, r), windowMs, maxBuckets);
      if both.allowed then
        Reply(if r.providerOk then Sent else Unavailable, both.calls,
              Some(Mail(email.value, NormalizeIp(r.ip), r.emailAt, r.ipAt)))
      else Reply(Unavailable, both.calls, None)
  }

  /** The guarded part: consume both keys. */
  method TryConsume(limiter: MemoryWindowLimiter, a: Call, b: Call) returns (allowed: bool, ghost calls: seq<Call>)
    requires limiter.Valid()
    modifies limiter
    ensures limiter.Valid()
    ensures Consumed(allowed, calls) == ConsumeBoth(old(limiter.State()), a, b, limiter.windowMs, limiter.maxBuckets)
    ensures limiter.State() == Apply(old(limiter.State()), calls, limiter.windowMs, limiter.maxBuckets)
  {
    ghost var l := limiter.State();
    var emailAllowed := limiter.Consume(a.key, a.maxAttempts, a.now);
    assert Call(a.key, a.maxAttempts, a.now) == a;
    ApplyOne(l, a, limiter.windowMs, limiter.maxBuckets);
    if emailAllowed == Exhausted { return false, [a]; }
    var ipAllowed := limiter.Consume(b.key, b.maxAttempts, b.now);
    assert Call(b.key, b.maxAttempts, b.now) == b;
    ApplyTwo(l, a, b, limiter.windowMs, limiter.maxBuckets);
    if ipAllowed == Exhausted { return false, [a, b]; }
    return emailAllowed == Granted && ipAllowed == Granted, [a, b];
  }

  method ResendVerificationEmail(limiter: MemoryWindowLimiter, digest: Digest, r: Request)
    returns (outcome: Outcome, ghost calls: seq<Call>, mail: Option<Mail>)
    requires limiter.Valid()
    modifies limiter
    ensures limiter.Valid()
    ensures Reply(outcome, calls, mail) == Serve(old(limiter.State()), digest, r, limiter.windowMs, limiter.maxBuckets)
    ensures limiter.State() == Apply(old(limiter.State()), calls, limiter.windowMs, limiter.maxBuckets)
  {
    var email := NormalizeEmail(r.email);
    if email.None? { return Sent, [], None; }
    var allowed;
    allowed, calls := TryConsume(limiter, EmailCall(digest, email.value, r), IpCall(digest, r));
    if !allowed { return Unavailable, calls, None; }
    mail := Some(Mail(email.value, NormalizeIp(r.ip), r.emailAt, r.ipAt));
    return if r.providerOk then Sent else Unavailable, calls, mail;
  }

  /** The limiter after some calls. */
  function Apply(l: Limiter, calls: seq<Call>, windowMs: int, maxBuckets: int): Limiter {
    if calls == [] then l
    else Step(Apply(l, calls[..|calls| - 1], windowMs, maxBuckets), calls[|calls| - 1], windowMs, maxBuckets)
  }

  lemma {:induction false} ApplyOne(l: Limiter, a: Call, windowMs: int, maxBuckets: int)
    ensures Apply(l, [a], windowMs, maxBuckets) == Step(l, a, windowMs, maxBuckets)
  {
    assert [a][..0] == [];
    assert Apply(l, [], windowMs, maxBuckets) == l;
  }

  lemma {:induction false} ApplyTwo(l: Limiter, a: Call, b: Call, windowMs: int, maxBuckets: int)
    ensures Apply(l, [a, b], windowMs, maxBuckets) == Step(Step(l, a, windowMs, maxBuckets), b, windowMs, maxBuckets)
  {
    assert [a, b][..1] == [a];
    ApplyOne(l, a, windowMs, maxBuckets);
  }

  // ----- Runs of requests -----

  datatype Service = Service(calls: seq<Call>, mails: seq<Mail>)

  function ServeAll(requests: seq<Request>, digest: Digest, windowMs: int, maxBuckets: int): Service {
    if requests == [] then Service([], [])
    else
      var s := ServeAll(requests[..|requests| - 1], digest, windowMs, maxBuckets);
      var reply := Serve(Run(s.calls, windowMs, maxBuckets), digest, requests[|requests| - 1], windowMs, maxBuckets);
      Service(s.calls + reply.calls, if reply.mail.Some? then s.mails + [reply.mail.value] else s.mails)
  }

  function MailsTo(mails: seq<Mail>, email: string, windowMs: int, x: int): nat {
    if mails == [] then 0
    else
      var m := mails[|mails| - 1];
      MailsTo(mails[..|mails| - 1], email, windowMs, x)
      + if m.email == email && x - windowMs < m.emailAt <= x then 1 else 0
  }

  function MailsFrom(mails: seq<Mail>, ip: string, windowMs: int, x: int): nat {
    if mails == [] then 0
    else
      var m := mails[|mails| - 1];
      MailsFrom(mails[..|mails| - 1], ip, windowMs, x) + if m.ip == ip && x - windowMs < m.ipAt <= x then 1 else 0
  }

  lemma {:induction false} StepCounts(l: Limiter, c: Call, windowMs: int, maxBuckets: int, key: Key, x: int)
    ensures InWindow(Step(l, c, windowMs, maxBuckets).history, key, windowMs, x)
      == InWindow(l.history, key, windowMs, x)
       + (if VerdictOf(l, c, windowMs, maxBuckets) == Granted && c.key == key && x - windowMs < c.now <= x then 1
          else 0)
  {
    WindowAppend(l.history, Grant(c.key, c.now), key, windowMs, x);
  }

  lemma {:induction false} MailAppend(mails: seq<Mail>, m: Mail, email: string, ip: string, windowMs: int, x: int)
    ensures MailsTo(mails + [m], email, windowMs, x)
      == MailsTo(mails, email, windowMs, x) + if m.email == email && x - windowMs < m.emailAt <= x then 1 else 0
    ensures MailsFrom(mails + [m], ip, windowMs, x)
      == MailsFrom(mails, ip, windowMs, x) + if m.ip == ip && x - windowMs < m.ipAt <= x then 1 else 0
  {
    assert (mails + [m])[..|mails|] == mails;
  }

  lemma {:induction false} RunTakes(calls: seq<Call>, more: seq<Call>, windowMs: int, maxBuckets: int)
    ensures Run(calls + more, windowMs, maxBuckets)
      == Apply(Run(calls, windowMs, maxBuckets), more, windowMs, maxBuckets)
  {
    if more == [] {
      assert calls + more == calls;
    } else {
      assert (calls + more)[..|calls + more| - 1] == calls + more[..|more| - 1];
      RunTakes(calls, more[..|more| - 1], windowMs, maxBuckets);
    }
  }

  /** When both calls are granted the history gains one grant of each. */
  lemma {:induction false} BothCount(l: Limiter, a: Call, b: Call, windowMs: int, maxBuckets: int, key: Key, x: int)
    ensures var both := ConsumeBoth(l, a, b, windowMs, maxBuckets);
      InWindow(Apply(l, both.calls, windowMs, maxBuckets).history, key, windowMs, x)
      >= InWindow(l.history, key, windowMs, x)
         + (if both.allowed && a.key == key && x - windowMs < a.now <= x then 1 else 0)
         + (if both.allowed && b.key == key && x - windowMs < b.now <= x then 1 else 0)
  {
    ApplyOne(l, a, windowMs, maxBuckets);
    ApplyTwo(l, a, b, windowMs, maxBuckets);
    StepCounts(l, a, windowMs, maxBuckets, key, x);
    StepCounts(Step(l, a, windowMs, maxBuckets), b, windowMs, maxBuckets, key, x);
  }

  lemma ServeCounts(
      l: Limiter, digest: Digest, r: Request, windowMs: int, maxBuckets: int, mails: seq<Mail>, email: string,
      ip: string, x: int)
    requires MailsTo(mails, email, windowMs, x) <= InWindow(l.history, EmailKey(digest, email), windowMs, x)
    requires MailsFrom(mails, ip, windowMs, x) <= InWindow(l.history, IpKey(digest, ip), windowMs, x)
    ensures var reply := Serve(l, digest, r, windowMs, maxBuckets);
      var l' := Apply(l, reply.calls, windowMs, maxBuckets);
      var mails' := if reply.mail.Some? then mails + [reply.mail.value] else mails;
      && MailsTo(mails', email, windowMs, x) <= InWindow(l'.history, EmailKey(digest, email), windowMs, x)
      && MailsFrom(mails', ip, windowMs, x) <= InWindow(l'.history, IpKey(digest, ip), windowMs, x)
  {
    var to := NormalizeEmail(r.email);
    if to.Some? {
      var a, b := EmailCall(digest, to.value, r), IpCall(digest, r);
      BothCount(l, a, b, windowMs, maxBuckets, EmailKey(digest, email), x);
      BothCount(l, a, b, windowMs, maxBuckets, IpKey(digest, ip), x);
      MailAppend(mails, Mail(to.value, NormalizeIp(r.ip), r.emailAt, r.ipAt), email, ip, windowMs, x);
    }
  }

  /** Every mail stands for a grant of its address and a grant of its origin. */
  lemma {:induction false} MailsAreGranted(
      requests: seq<Request>, digest: Digest, windowMs: int, maxBuckets: int, email: string, ip: string, x: int)
    ensures var s := ServeAll(requests, digest, windowMs, maxBuckets);
      var history := Run(s.calls, windowMs, maxBuckets).history;
      && MailsTo(s.mails, email, windowMs, x) <= InWindow(history, EmailKey(digest, email), windowMs, x)
      && MailsFrom(s.mails, ip, windowMs, x) <= InWindow(history, IpKey(digest, ip), windowMs, x)
  {
    if requests != [] {
      var front, r := requests[..|requests| - 1], requests[|requests| - 1];
      var s := ServeAll(front, digest, windowMs, maxBuckets);
      var l := Run(s.calls, windowMs, maxBuckets);
      MailsAreGranted(front, digest, windowMs, maxBuckets, email, ip, x);
      ServeCounts(l, digest, r, windowMs, maxBuckets, s.mails, email, ip, x);
      RunTakes(s.calls, Serve(l, digest, r, windowMs, maxBuckets).calls, windowMs, maxBuckets);
    }
  }

  lemma BothAskWithin(l: Limiter, a: Call, b: Call, windowMs: int, maxBuckets: int, key: Key, max: nat)
    requires a.maxAttempts <= max && b.maxAttempts <= max
    ensures Limits(ConsumeBoth(l, a, b, windowMs, maxBuckets).calls, key, max)
  {
    var calls := ConsumeBoth(l, a, b, windowMs, maxBuckets).calls;
    assert calls == [a] || calls == [a, b];
  }

  lemma ServeAsksForFive(l: Limiter, digest: Digest, r: Request, windowMs: int, maxBuckets: int, key: Key)
    ensures Limits(Serve(l, digest, r, windowMs, maxBuckets).calls, key, MAX_ATTEMPTS)
  {
    var to := NormalizeEmail(r.email);
    if to.Some? {
      BothAskWithin(l, EmailCall(digest, to.value, r), IpCall(digest, r), windowMs, maxBuckets, key, MAX_ATTEMPTS);
    }
  }

  lemma LimitsJoin(a: seq<Call>, b: seq<Call>, key: Key, max: nat)
    requires Limits(a, key, max) && Limits(b, key, max)
    ensures Limits(a + b, key, max)
  {
  }

  lemma {:induction false} CallsAskForFive(
      requests: seq<Request>, digest: Digest, windowMs: int, maxBuckets: int, key: Key)
    ensures Limits(ServeAll(requests, digest, windowMs, maxBuckets).calls, key, MAX_ATTEMPTS)
  {
    if requests != [] {
      var front, r := requests[..|requests| - 1], requests[|requests| - 1];
      var s := ServeAll(front, digest, windowMs, maxBuckets);
      var l := Run(s.calls, windowMs, maxBuckets);
      CallsAskForFive(front, digest, windowMs, maxBuckets, key);
      ServeAsksForFive(l, digest, r, windowMs, maxBuckets, key);
      LimitsJoin(s.calls, Serve(l, digest, r, windowMs, maxBuckets).calls, key, MAX_ATTEMPTS);
    }
  }

  /** Over any run of requests, from any mix of addresses, with a limiter clock that never steps
      back: no window holds more than five mails to one normalized address, nor more than five
      caused from one network address. */
  lemma {:induction false} MailsAreLimited(
      requests: seq<Request>, digest: Digest, windowMs: int, maxBuckets: int, email: string, ip: string, x: int)
    requires ClockForward(ServeAll(requests, digest, windowMs, maxBuckets).calls)
    ensures var mails := ServeAll(requests, digest, windowMs, maxBuckets).mails;
      MailsTo(mails, email, windowMs, x) <= MAX_ATTEMPTS && MailsFrom(mails, ip, windowMs, x) <= MAX_ATTEMPTS
  {
    var calls := ServeAll(requests, digest, windowMs, maxBuckets).calls;
    MailsAreGranted(requests, digest, windowMs, maxBuckets, email, ip, x);
    CallsAskForFive(requests, digest, windowMs, maxBuckets, EmailKey(digest, email));
    CallsAskForFive(requests, digest, windowMs, maxBuckets, IpKey(digest, ip));
    NoWindowOverflows(calls, windowMs, maxBuckets, EmailKey(digest, email), MAX_ATTEMPTS, x);
    NoWindowOverflows(calls, windowMs, maxBuckets, IpKey(digest, ip), MAX_ATTEMPTS, x);
  }

  /** With the configured limiter: five mails in any hour. */
  lemma {:induction false} FiveMailsAnHour(requests: seq<Request>, digest: Digest, email: string, ip: string, x: int)
    requires ClockForward(ServeAll(requests, digest, WINDOW_MS, MAX_LIMITER_BUCKETS).calls)
    ensures var mails := ServeAll(requests, digest, WINDOW_MS, MAX_LIMITER_BUCKETS).mails;
      MailsTo(mails, email, 3_600_000, x) <= 5 && MailsFrom(mails, ip, 3_600_000, x) <= 5
  {
    MailsAreLimited(requests, digest, WINDOW_MS, MAX_LIMITER_BUCKETS, email, ip, x);
  }

  /** An address counts once however it is written: normalizing again changes nothing. */
  lemma NormalizedEmailIsFixed(value: Option<string>)
    requires NormalizeEmail(value).Some?
    ensures NormalizeEmail(NormalizeEmail(value)) == NormalizeEmail(value)
  {
    FoldIsIdempotent(value.value);
  }
}
