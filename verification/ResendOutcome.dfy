/** Which texts are mail and network addresses and what a resend request is answered
    (packages/auth/src/verification-resend.ts), stated on the raw request. */
module ResendOutcome {
  import opened Common
  import opened IdentifierWords
  import opened SlidingWindow
  import opened Text
  import opened VerificationResend

  // ----- Trimmed and folded texts -----

  ghost predicate White(s: string) {
    forall i :: 0 <= i < |s| ==> IsSpace(s[i])
  }

  /** What is left between the white space at both ends. */
  ghost predicate TrimsTo(s: string, m: string) {
    && (exists a: string, b: string :: White(a) && White(b) && s == a + m + b)
    && (m != "" ==> !IsSpace(m[0]) && !IsSpace(m[|m| - 1]))
  }

  lemma {:induction false} TrimStartSplits(s: string) returns (a: string)
    ensures White(a) && s == a + TrimStart(s)
  {
    a := "";
    if s != [] && IsSpace(s[0]) {
      var rest := TrimStartSplits(s[1..]);
      a := [s[0]] + rest;
      assert s == [s[0]] + s[1..];
    }
  }

  lemma {:induction false} TrimEndSplits(s: string) returns (b: string)
    ensures White(b) && s == TrimEnd(s) + b
  {
    b := "";
    if s != [] && IsSpace(s[|s| - 1]) {
      var rest := TrimEndSplits(s[..|s| - 1]);
      b := rest + [s[|s| - 1]];
      assert s == s[..|s| - 1] + [s[|s| - 1]];
    }
  }

  lemma {:induction false} TrimStartSkips(a: string, s: string)
    requires White(a)
    ensures TrimStart(a + s) == TrimStart(s)
  {
    if a == [] {
      assert a + s == s;
    } else {
      assert (a + s)[1..] == a[1..] + s;
      TrimStartSkips(a[1..], s);
    }
  }

  lemma {:induction false} TrimEndSkips(s: string, b: string)
    requires White(b)
    ensures TrimEnd(s + b) == TrimEnd(s)
  {
    if b == [] {
      assert s + b == s;
    } else {
      assert (s + b)[..|s + b| - 1] == s + b[..|b| - 1];
      TrimEndSkips(s, b[..|b| - 1]);
    }
  }

  lemma TrimSplits(s: string) returns (a: string, b: string)
    ensures White(a) && White(b) && s == a + Trim(s) + b
  {
    a := TrimStartSplits(s);
    b := TrimEndSplits(TrimStart(s));
    assert a + Trim(s) + b == a + (Trim(s) + b);
  }

  lemma {:induction false} TrimEndStarts(s: string)
    ensures TrimEnd(s) != "" ==> s != "" && TrimEnd(s)[0] == s[0]
  {
    TrimEndOutcome(s);
  }

  lemma TrimmedEnds(s: string)
    ensures Trim(s) != "" ==> !IsSpace(Trim(s)[0]) && !IsSpace(Trim(s)[|Trim(s)| - 1])
  {
    TrimStartOutcome(s);
    TrimEndOutcome(TrimStart(s));
    TrimEndStarts(TrimStart(s));
  }

  lemma TrimmedIsLeft(s: string)
    ensures TrimsTo(s, Trim(s))
  {
    var a, b := TrimSplits(s);
    TrimmedEnds(s);
  }

  lemma LeftIsTrimmed(a: string, m: string, b: string)
    requires White(a) && White(b) && (m != "" ==> !IsSpace(m[0]) && !IsSpace(m[|m| - 1]))
    ensures Trim(a + (m + b)) == m
  {
    TrimStartSkips(a, m + b);
    if m == "" {
      TrimStartSkips(b, "");
      assert m + b == b + "";
    } else {
      assert (m + b)[0] == m[0];
      TrimEndSkips(m, b);
    }
  }

  /** Trimming takes the white space off both ends and nothing else. */
  lemma TrimExactly(s: string, m: string)
    ensures Trim(s) == m <==> TrimsTo(s, m)
  {
    TrimmedIsLeft(s);
    if TrimsTo(s, m) {
      var a: string, b: string :| White(a) && White(b) && s == a + m + b;
      assert s == a + (m + b);
      LeftIsTrimmed(a, m, b);
    }
  }

  /** The same letters without upper case. */
  ghost predicate FoldsTo(m: string, folded: string) {
    |folded| == |m| && forall i :: 0 <= i < |m| ==> SameLetter(m[i], folded[i]) && !('A' <= folded[i] <= 'Z')
  }

  lemma {:induction false} LowerExactly(m: string, folded: string)
    ensures Lower(m) == folded <==> FoldsTo(m, folded)
  {
    LowerOutcome(m);
    if m != [] && |folded| == |m| {
      LowerExactly(m[1..], folded[1..]);
      LettersFoldAlike(m[0], folded[0]);
      assert Lower(m)[0] == LowerChar(m[0]) && Lower(m)[1..] == Lower(m[1..]);
      assert folded == [folded[0]] + folded[1..];
      if FoldsTo(m, folded) {
        forall i | 0 <= i < |m[1..]|
          ensures SameLetter(m[1..][i], folded[1..][i]) && !('A' <= folded[1..][i] <= 'Z')
        {
          assert SameLetter(m[i + 1], folded[i + 1]);
        }
      }
      if FoldsTo(m[1..], folded[1..]) && SameLetter(m[0], folded[0]) && !('A' <= folded[0] <= 'Z') {
        forall i | 0 <= i < |m| ensures SameLetter(m[i], folded[i]) && !('A' <= folded[i] <= 'Z') {
          if i > 0 { assert SameLetter(m[1..][i - 1], folded[1..][i - 1]); }
        }
      }
    }
  }

  // ----- Addresses -----

  /** A part of an address: not empty, without white space and without an at sign. */
  ghost predicate Part(s: string) {
    s != "" && forall i :: 0 <= i < |s| ==> !IsSpace(s[i]) && s[i] != '@'
  }

  ghost predicate Parts(s: string, name: string, host: string, domain: string) {
    Part(name) && Part(host) && Part(domain) && s == name + "@" + host + "." + domain
  }

  /** The accepted shape: a name, an at sign, a host, a dot and a domain. */
  lemma ShapeExactly(s: string)
    ensures EmailShape(s) <==> exists name: string, host: string, domain: string :: Parts(s, name, host, domain)
  {
    if EmailShape(s) {
      var at, dot :| 0 < at < dot - 1 && dot < |s| - 1 && s[at] == '@' && s[dot] == '.'
        && forall i :: 0 <= i < |s| && i != at ==> Plain(s[i]);
      assert s == s[..at] + "@" + s[at + 1..dot] + "." + s[dot + 1..];
      assert Parts(s, s[..at], s[at + 1..dot], s[dot + 1..]);
    }
    if name: string, host: string, domain: string :| Parts(s, name, host, domain) {
      var at, dot := |name|, |name| + 1 + |host|;
      assert s[at] == '@' && s[dot] == '.';
      forall i | 0 <= i < |s| && i != at ensures Plain(s[i]) {
        if i < at { assert s[i] == name[i]; }
        if at < i < dot { assert s[i] == host[i - at - 1]; }
        if dot < i { assert s[i] == domain[i - dot - 1]; }
      }
    }
  }

  ghost predicate IsAddress(s: string) {
    exists name: string, host: string, domain: string :: Parts(s, name, host, domain)
  }

  /** The normalized address of a text: trimmed, in lower case, of 3 to 254 characters and of the shape. */
  lemma EmailExactly(text: string, email: string)
    ensures NormalizeEmail(Some(text)) == Some(email)
      <==> 3 <= |email| <= 254 && IsAddress(email) && exists m: string :: TrimsTo(text, m) && FoldsTo(m, email)
  {
    ShapeExactly(email);
    TrimExactly(text, Trim(text));
    LowerExactly(Trim(text), email);
    forall m: string | TrimsTo(text, m) ensures m == Trim(text) { TrimExactly(text, m); }
  }

  /** The network address of a request: trimmed, or unknown when nothing is left. */
  lemma IpExactly(ip: string, m: string)
    requires TrimsTo(ip, m)
    ensures NormalizeIp(ip) == if m == "" then "unknown" else m
  {
    TrimExactly(ip, m);
  }

  // ----- Replies -----

  lemma AskedCalls(digest: Digest, email: string, r: Request, ip: string)
    requires TrimsTo(r.ip, ip)
    ensures EmailCall(digest, email, r) == Call(Key("email:" + digest(email)), 5, r.emailAt)
    ensures IpCall(digest, r) == Call(Key("ip:" + digest(if ip == "" then "unknown" else ip)), 5, r.ipAt)
  {
    IpExactly(r.ip, ip);
  }

  /** A request without a valid address asks the limiter nothing and claims to have sent. Any other asks
      for five an hour under the address's key, and unless the limiter is full under the origin's key as
      well; a mail goes out exactly when both are granted. */
  lemma RepliesExactly(l: Limiter, digest: Digest, r: Request, ip: string, windowMs: int, maxBuckets: int)
    requires TrimsTo(r.ip, ip)
    ensures var reply, email := Serve(l, digest, r, windowMs, maxBuckets), NormalizeEmail(r.email);
      if email.None? then reply == Reply(Sent, [], None)
      else
        var origin := if ip == "" then "unknown" else ip;
        var a := Call(Key("email:" + digest(email.value)), 5, r.emailAt);
        var b := Call(Key("ip:" + digest(origin)), 5, r.ipAt);
        var first := VerdictOf(l, a, windowMs, maxBuckets);
        var second := VerdictOf(Step(l, a, windowMs, maxBuckets), b, windowMs, maxBuckets);
        && reply.calls == (if first == Exhausted then [a] else [a, b])
        && reply.mail == (if first == Granted && second == Granted then
                            Some(Mail(email.value, origin, r.emailAt, r.ipAt)) else None)
        && (reply.outcome == Sent <==> first == Granted && second == Granted && r.providerOk)
  {
    IpExactly(r.ip, ip);
    if NormalizeEmail(r.email).Some? { AskedCalls(digest, NormalizeEmail(r.email).value, r, ip); }
  }
}
