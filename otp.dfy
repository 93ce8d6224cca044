/** One-time passwords: issuing a code for a (user, purpose) pair, checking
    a submitted code against the most recent unused one, and removing
    expired codes. The random digits are an input (the draws of
    `secrets.randbelow(10)`), and so is the current time. */
module Otp {
  import opened Wrappers
  import opened Strings
  import opened Query
  import opened Models
  import opened Database

  const OtpLength: nat := 6
  /** The default validity of `create_otp_token` (the unused OTP_EXPIRY_MINUTES
      setting says 5; the function's own default is what the routers get). */
  const DefaultValidityMinutes: nat := 10
  const DefaultMaxAttempts: nat := 3

  type Digit = d: nat | d < 10

  /** `generate_otp(len(draws))`: one decimal character per draw. */
  function GenerateOtp(draws: seq<Digit>): (code: string)
    ensures |code| == |draws|
    ensures forall i :: 0 <= i < |code| ==> IsDigit(code[i]) && code[i] as int - '0' as int == draws[i]
  {
    seq(|draws|, i requires 0 <= i < |draws| => DigitChar(draws[i]))
  }

  /** Different draws give different codes. */
  lemma GenerateOtpInjective(a: seq<Digit>, b: seq<Digit>)
    requires GenerateOtp(a) == GenerateOtp(b)
    ensures a == b
  {
    var ca, cb := GenerateOtp(a), GenerateOtp(b);
    forall i | 0 <= i < |a|
      ensures a[i] == b[i]
    {
      assert ca[i] == cb[i];
    }
  }

  /** `hash_otp`. */
  function HashOtp(code: string): OtpDigest {
    Sha256Hex(code)
  }

  /** A token `create_otp_token` invalidates: same user and purpose, unused,
      expiring strictly after `now`. */
  predicate Live(t: OtpToken, userId: nat, purpose: string, now: nat) {
    t.userId == userId && t.purpose == purpose && !t.isUsed && t.expiresAt > now
  }

  function Invalidated(t: OtpToken, userId: nat, purpose: string, now: nat): OtpToken {
    if Live(t, userId, purpose, now) then t.(isUsed := true) else t
  }

  /** The table after the invalidation loop of `create_otp_token`: every
      live token of the pair is marked used and no other token changes. */
  function InvalidateLive(tokens: seq<OtpToken>, userId: nat, purpose: string, now: nat): (r: seq<OtpToken>)
    ensures |r| == |tokens|
    ensures forall i :: 0 <= i < |r| ==> !Live(r[i], userId, purpose, now)
    ensures forall i :: 0 <= i < |r| ==>
      if Live(tokens[i], userId, purpose, now) then r[i] == tokens[i].(isUsed := true) else r[i] == tokens[i]
  {
    seq(|tokens|, i requires 0 <= i < |tokens| => Invalidated(tokens[i], userId, purpose, now))
  }

  /** The row `create_otp_token` adds. */
  function NewToken(id: nat, userId: nat, hash: OtpDigest, purpose: string, now: nat, validityMinutes: nat): (t: OtpToken)
    ensures t.attempts == 0 && !t.isUsed && t.purpose == purpose && t.userId == userId
    ensures t.expiresAt == now + validityMinutes * SecondsPerMinute
  {
    OtpToken(id, userId, hash, purpose, now + validityMinutes * SecondsPerMinute, false, 0, now)
  }

  /** `create_otp_token`: invalidates the live codes of the pair, then
      stores the hash of a fresh code and returns the code with its row. */
  method CreateOtpToken(db: Database, userId: nat, purpose: string, validityMinutes: nat,
                        draws: seq<Digit>, now: nat)
    returns (code: string, token: OtpToken)
    requires db.Valid()
    requires userId in UserIds(db.users)
    requires |draws| == OtpLength
    modifies db
    ensures db.Valid()
    ensures code == GenerateOtp(draws) && |code| == OtpLength
    ensures token == NewToken(old(db.nextOtpId), userId, HashOtp(code), purpose, now, validityMinutes)
    ensures db.otpTokens == InvalidateLive(old(db.otpTokens), userId, purpose, now) + [token]
    ensures db.users == old(db.users) && db.profiles == old(db.profiles) && db.resumes == old(db.resumes)
    ensures db.nextOtpId == old(db.nextOtpId) + 1
    ensures db.nextUserId == old(db.nextUserId) && db.nextProfileId == old(db.nextProfileId)
    ensures db.nextResumeId == old(db.nextResumeId)
  {
    var i := 0;
    while i < |db.otpTokens|
      invariant 0 <= i <= |db.otpTokens| == |old(db.otpTokens)|
      invariant forall j :: 0 <= j < i ==> db.otpTokens[j] == Invalidated(old(db.otpTokens)[j], userId, purpose, now)
      invariant forall j :: i <= j < |db.otpTokens| ==> db.otpTokens[j] == old(db.otpTokens)[j]
      invariant db.users == old(db.users) && db.profiles == old(db.profiles) && db.resumes == old(db.resumes)
      invariant db.nextOtpId == old(db.nextOtpId) && db.nextUserId == old(db.nextUserId)
      invariant db.nextProfileId == old(db.nextProfileId) && db.nextResumeId == old(db.nextResumeId)
    {
      if Live(db.otpTokens[i], userId, purpose, now) {
        db.otpTokens := db.otpTokens[i := db.otpTokens[i].(isUsed := true)];
      }
      i := i + 1;
    }
    assert db.otpTokens == InvalidateLive(old(db.otpTokens), userId, purpose, now);
    code := GenerateOtp(draws);
    token := NewToken(db.nextOtpId, userId, HashOtp(code), purpose, now, validityMinutes);
    db.otpTokens := db.otpTokens + [token];
    db.nextOtpId := db.nextOtpId + 1;
  }

  /** The tokens `verify_otp` chooses among: same user and purpose, unused. */
  predicate Candidate(t: OtpToken, userId: nat, purpose: string) {
    t.userId == userId && t.purpose == purpose && !t.isUsed
  }

  /** `.order_by(created_at.desc()).first()` over the candidates: the index
      of a candidate created no earlier than any other; among candidates
      created at the same instant, the one inserted last. */
  function MostRecentUnused(tokens: seq<OtpToken>, userId: nat, purpose: string): (r: Option<nat>)
    ensures r.Some? ==> r.value < |tokens| && Candidate(tokens[r.value], userId, purpose)
    ensures r.Some? ==> forall j :: 0 <= j < |tokens| && Candidate(tokens[j], userId, purpose) ==>
                          tokens[j].createdAt <= tokens[r.value].createdAt
    ensures r.None? <==> forall j :: 0 <= j < |tokens| ==> !Candidate(tokens[j], userId, purpose)
  {
    if tokens == [] then None
    else
      var last := |tokens| - 1;
      var rest := MostRecentUnused(tokens[..last], userId, purpose);
      if Candidate(tokens[last], userId, purpose)
         && (rest.None? || tokens[rest.value].createdAt <= tokens[last].createdAt)
      then Some(last)
      else rest
  }

  /** The answer of `verify_otp`: `(is_valid, error_message)`. */
  datatype OtpCheck = OtpCheck(valid: bool, error: Option<string>)

  /** The message for a wrong code. */
  function InvalidOtpMessage(remaining: nat): string {
    "Invalid OTP. " + DecimalString(remaining) + " attempts remaining"
  }

  /** `verify_otp`: its answer and the token table after it. */
  function VerifyOtpOutcome(tokens: seq<OtpToken>, userId: nat, plain: string, purpose: string,
                            now: nat, maxAttempts: nat): (r: (OtpCheck, seq<OtpToken>))
    ensures |r.1| == |tokens|
    ensures r.0.valid <==> r.0.error.None?
  {
    match MostRecentUnused(tokens, userId, purpose)
    case None => (OtpCheck(false, Some("No valid OTP found")), tokens)
    case Some(i) =>
      var t := tokens[i];
      if t.expiresAt < now then (OtpCheck(false, Some("OTP has expired")), tokens)
      else if t.attempts >= maxAttempts then
        (OtpCheck(false, Some("Maximum verification attempts exceeded")), tokens[i := t.(isUsed := true)])
      else
        var counted := t.(attempts := t.attempts + 1);
        if HashOtp(plain) == t.tokenHash then (OtpCheck(true, None), tokens[i := counted.(isUsed := true)])
        else (OtpCheck(false, Some(InvalidOtpMessage(maxAttempts - counted.attempts))), tokens[i := counted])
  }

  /** Each branch of `verify_otp`, keyed on the token it selects: no
      candidate and an expired token change nothing; an exhausted token is
      marked used; otherwise the attempt is counted, and a right code marks
      the token used while a wrong one leaves it unused and reports the
      attempts left. */
  lemma {:induction false} VerifyOtpBranches(tokens: seq<OtpToken>, userId: nat, plain: string, purpose: string,
                                             now: nat, maxAttempts: nat)
    ensures var r := VerifyOtpOutcome(tokens, userId, plain, purpose, now, maxAttempts);
            var m := MostRecentUnused(tokens, userId, purpose);
            && (m.None? ==> r == (OtpCheck(false, Some("No valid OTP found")), tokens))
            && (m.Some? ==>
                  var t := tokens[m.value];
                  && (t.expiresAt < now ==> r == (OtpCheck(false, Some("OTP has expired")), tokens))
                  && (now <= t.expiresAt && t.attempts >= maxAttempts ==>
                        r == (OtpCheck(false, Some("Maximum verification attempts exceeded")),
                              tokens[m.value := t.(isUsed := true)]))
                  && (now <= t.expiresAt && t.attempts < maxAttempts && HashOtp(plain) == t.tokenHash ==>
                        r == (OtpCheck(true, None), tokens[m.value := t.(attempts := t.attempts + 1, isUsed := true)]))
                  && (now <= t.expiresAt && t.attempts < maxAttempts && HashOtp(plain) != t.tokenHash ==>
                        r == (OtpCheck(false, Some(InvalidOtpMessage(maxAttempts - (t.attempts + 1)))),
                              tokens[m.value := t.(attempts := t.attempts + 1)])))
  {
  }

  /** A code verifies exactly when the most recent unused token of the pair
      has not expired, has attempts left and holds the code's hash. */
  lemma {:induction false} VerifyOtpValidIff(tokens: seq<OtpToken>, userId: nat, plain: string, purpose: string,
                                             now: nat, maxAttempts: nat)
    ensures VerifyOtpOutcome(tokens, userId, plain, purpose, now, maxAttempts).0.valid <==>
      var m := MostRecentUnused(tokens, userId, purpose);
      m.Some? && tokens[m.value].expiresAt >= now && tokens[m.value].attempts < maxAttempts
      && tokens[m.value].tokenHash == HashOtp(plain)
  {
  }

  /** Only the chosen token changes; it changes only in `attempts` (by at
      most one) and `is_used`; with no candidate or an expired one nothing
      changes at all. */
  lemma {:induction false} VerifyOtpFrame(tokens: seq<OtpToken>, userId: nat, plain: string, purpose: string,
                                          now: nat, maxAttempts: nat)
    ensures var m := MostRecentUnused(tokens, userId, purpose);
            var after := VerifyOtpOutcome(tokens, userId, plain, purpose, now, maxAttempts).1;
            (m.None? || tokens[m.value].expiresAt < now ==> after == tokens)
            && (m.Some? ==>
                  (forall j :: 0 <= j < |tokens| && j != m.value ==> after[j] == tokens[j])
                  && after[m.value] == tokens[m.value].(attempts := after[m.value].attempts, isUsed := after[m.value].isUsed)
                  && tokens[m.value].attempts <= after[m.value].attempts <= tokens[m.value].attempts + 1)
  {
  }

  /** Attempts never exceed the bound: if no token of the table has used
      more than `maxAttempts` checks, none has afterwards, and a success
      happens only within a token's first `maxAttempts` checks. */
  lemma {:induction false} VerifyOtpAttemptsBounded(tokens: seq<OtpToken>, userId: nat, plain: string, purpose: string,
                                                    now: nat, maxAttempts: nat)
    requires forall j :: 0 <= j < |tokens| ==> tokens[j].attempts <= maxAttempts
    ensures var r := VerifyOtpOutcome(tokens, userId, plain, purpose, now, maxAttempts);
            forall j :: 0 <= j < |r.1| ==> r.1[j].attempts <= maxAttempts
    ensures var r := VerifyOtpOutcome(tokens, userId, plain, purpose, now, maxAttempts);
            var m := MostRecentUnused(tokens, userId, purpose);
            r.0.valid ==> m.Some? && tokens[m.value].attempts < maxAttempts && r.1[m.value].attempts == tokens[m.value].attempts + 1
  {
    VerifyOtpFrame(tokens, userId, plain, purpose, now, maxAttempts);
  }

  /** A successful check consumes the token: afterwards it is used and is
      never chosen again. */
  lemma {:induction false} VerifyOtpConsumes(tokens: seq<OtpToken>, userId: nat, plain: string, purpose: string,
                                             now: nat, maxAttempts: nat)
    ensures var r := VerifyOtpOutcome(tokens, userId, plain, purpose, now, maxAttempts);
            var m := MostRecentUnused(tokens, userId, purpose);
            r.0.valid ==> r.1[m.value].isUsed && MostRecentUnused(r.1, userId, purpose) != m
  {
  }

  /** Issue then verify: right after `create_otp_token`, the code it
      returned verifies at any time up to its expiry, provided no row of
      the table was created in the future; any other code is refused. */
  lemma {:induction false} IssuedCodeVerifies(tokens: seq<OtpToken>, userId: nat, purpose: string, draws: seq<Digit>,
                                              id: nat, validityMinutes: nat, now: nat, t: nat, maxAttempts: nat,
                                              other: string)
    requires forall j :: 0 <= j < |tokens| ==> tokens[j].createdAt <= now
    requires now <= t <= now + validityMinutes * SecondsPerMinute
    requires maxAttempts >= 1
    ensures var code := GenerateOtp(draws);
            var issued := InvalidateLive(tokens, userId, purpose, now)
                          + [NewToken(id, userId, HashOtp(code), purpose, now, validityMinutes)];
            VerifyOtpOutcome(issued, userId, code, purpose, t, maxAttempts).0 == OtpCheck(true, None)
            && (other != code ==> !VerifyOtpOutcome(issued, userId, other, purpose, t, maxAttempts).0.valid)
  {
    var code := GenerateOtp(draws);
    var invalidated := InvalidateLive(tokens, userId, purpose, now);
    var issued := invalidated + [NewToken(id, userId, HashOtp(code), purpose, now, validityMinutes)];
    var last := |issued| - 1;
    assert issued[..last] == invalidated;
    var rest := MostRecentUnused(invalidated, userId, purpose);
    assert rest.Some? ==> invalidated[rest.value].createdAt == tokens[rest.value].createdAt;
    assert MostRecentUnused(issued, userId, purpose) == Some(last);
  }

  /** `verify_otp` on the database: applies the outcome in place. */
  method VerifyOtp(db: Database, userId: nat, plain: string, purpose: string, now: nat, maxAttempts: nat)
    returns (check: OtpCheck)
    requires db.Valid()
    modifies db
    ensures db.Valid()
    ensures (check, db.otpTokens) == VerifyOtpOutcome(old(db.otpTokens), userId, plain, purpose, now, maxAttempts)
    ensures db.users == old(db.users) && db.profiles == old(db.profiles) && db.resumes == old(db.resumes)
    ensures db.nextOtpId == old(db.nextOtpId) && db.nextUserId == old(db.nextUserId)
    ensures db.nextProfileId == old(db.nextProfileId) && db.nextResumeId == old(db.nextResumeId)
  {
    var m := MostRecentUnused(db.otpTokens, userId, purpose);
    if m.None? {
      return OtpCheck(false, Some("No valid OTP found"));
    }
    var i := m.value;
    var t := db.otpTokens[i];
    if t.expiresAt < now {
      return OtpCheck(false, Some("OTP has expired"));
    }
    if t.attempts >= maxAttempts {
      db.otpTokens := db.otpTokens[i := t.(isUsed := true)];
      return OtpCheck(false, Some("Maximum verification attempts exceeded"));
    }
    t := t.(attempts := t.attempts + 1);
    if HashOtp(plain) == t.tokenHash {
      t := t.(isUsed := true);
      check := OtpCheck(true, None);
    } else {
      check := OtpCheck(false, Some(InvalidOtpMessage(maxAttempts - t.attempts)));
    }
    db.otpTokens := db.otpTokens[i := t];
  }

  predicate Expired(t: OtpToken, now: nat) {
    t.expiresAt < now
  }

  /** `cleanup_expired_otps`: deletes exactly the expired tokens and
      returns how many it deleted. */
  method CleanupExpiredOtps(db: Database, now: nat) returns (deleted: nat)
    requires db.Valid()
    modifies db
    ensures db.Valid()
    ensures db.otpTokens == Filter(old(db.otpTokens), (t: OtpToken) => !Expired(t, now))
    ensures deleted == |Filter(old(db.otpTokens), (t: OtpToken) => Expired(t, now))|
    ensures db.users == old(db.users) && db.profiles == old(db.profiles) && db.resumes == old(db.resumes)
    ensures db.nextOtpId == old(db.nextOtpId) && db.nextUserId == old(db.nextUserId)
    ensures db.nextProfileId == old(db.nextProfileId) && db.nextResumeId == old(db.nextResumeId)
  {
    var kept := Filter(db.otpTokens, (t: OtpToken) => !Expired(t, now));
    FilterPartition(db.otpTokens, (t: OtpToken) => Expired(t, now), (t: OtpToken) => !Expired(t, now));
    deleted := |db.otpTokens| - |kept|;
    FilterPairwise(db.otpTokens, (t: OtpToken) => !Expired(t, now), (a: OtpToken, b: OtpToken) => a.id != b.id);
    forall i | 0 <= i < |kept|
      ensures kept[i].id < db.nextOtpId && kept[i].userId in UserIds(db.users)
    {
      assert kept[i] in db.otpTokens;
    }
    db.otpTokens := kept;
  }
}
