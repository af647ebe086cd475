/** The six-digit email verification code shared by register, resend-code, check-user,
    verify-code and sign-in: how a code is drawn, when it expires, and how a submitted code
    is judged against the stored one. */
module VerificationCodes {
  import opened Common
  import opened Text
  import opened Store

  /** Fifteen minutes, in milliseconds. */
  const CodeLifetimeMs := 15 * 60 * 1000

  /** `Math.floor(100000 + random * 900000)` for a draw `random` in [0, 1). */
  function CodeNumber(random: real): (n: int)
    requires 0.0 <= random < 1.0
    ensures 100000 <= n <= 999999
  {
    (100000.0 + random * 900000.0).Floor
  }

  /** The code as a string: always six digits, and it reads back as the drawn number. */
  function NewCode(random: real): (code: string)
    requires 0.0 <= random < 1.0
    ensures |code| == 6 && AllDigits(code)
    ensures ParseNat(code) == CodeNumber(random)
  {
    var n := CodeNumber(random);
    assert Pow10(5) == 100000 && Pow10(6) == 1000000;
    NatToStringLength(n, 5);
    ParseNatToString(n);
    NatToString(n)
  }

  /** The expiry written together with a new code. */
  function CodeExpiry(now: int): (expiry: int)
    ensures expiry > now
  {
    now + CodeLifetimeMs
  }

  /** The user with a new code and expiry; nothing else of the record changes. */
  function WithCode(u: User, code: string, expiry: int): (v: User)
    ensures v.verificationCode == Some(code) && v.verificationCodeExpiry == Some(expiry)
    ensures v.(verificationCode := u.verificationCode, verificationCodeExpiry := u.verificationCodeExpiry) == u
  {
    u.(verificationCode := Some(code), verificationCodeExpiry := Some(expiry))
  }

  /** The user after a successful verification. */
  function MarkVerified(u: User): (v: User)
    ensures v.emailVerified && v.verificationCode.None? && v.verificationCodeExpiry.None?
    ensures v.(emailVerified := u.emailVerified, verificationCode := u.verificationCode,
               verificationCodeExpiry := u.verificationCodeExpiry) == u
  {
    u.(emailVerified := true, verificationCode := None, verificationCodeExpiry := None)
  }

  /** The submitted code is the stored one; a cleared code matches nothing. */
  predicate IsCodeValid(stored: Option<string>, submitted: string)
  {
    stored == Some(submitted)
  }

  /** A missing expiry counts as expired; otherwise only an expiry strictly before now. */
  predicate IsCodeExpired(expiry: Option<int>, now: int)
  {
    expiry.None? || expiry.value < now
  }

  /** How verify-code answers a submitted code. */
  datatype Decision = Verified | InvalidCode | ExpiredCode | Unable

  /** The route's branch chain: success, then a wrong code, then an expired code, then a
      last fallback that no combination reaches. */
  function Decide(u: User, submitted: string, now: int): (d: Decision)
    ensures d != Unable
    ensures d == Verified <==> IsCodeValid(u.verificationCode, submitted) &&
                               !IsCodeExpired(u.verificationCodeExpiry, now)
    // a wrong code is reported as wrong even when the stored code has expired too
    ensures d == InvalidCode <==> !IsCodeValid(u.verificationCode, submitted)
    ensures d == ExpiredCode <==> IsCodeValid(u.verificationCode, submitted) &&
                                  IsCodeExpired(u.verificationCodeExpiry, now)
  {
    var valid := IsCodeValid(u.verificationCode, submitted);
    var expired := IsCodeExpired(u.verificationCodeExpiry, now);
    if valid && !expired then Verified
    else if !valid then InvalidCode
    else if expired then ExpiredCode
    else Unable
  }

  /** A freshly written code is accepted up to and including its expiry instant, and refused
      as expired one millisecond later. */
  lemma FreshCodeWindow(u: User, random: real, issued: int, now: int)
    requires 0.0 <= random < 1.0
    ensures var v := WithCode(u, NewCode(random), CodeExpiry(issued));
            && (now <= issued + CodeLifetimeMs ==> Decide(v, NewCode(random), now) == Verified)
            && (now > issued + CodeLifetimeMs ==> Decide(v, NewCode(random), now) == ExpiredCode)
  {
  }

  /** Once verified, the same code (or any other) is refused as invalid: codes are single use. */
  lemma NoReplay(u: User, submitted: string, now: int)
    ensures Decide(MarkVerified(u), submitted, now) == InvalidCode
  {
  }

  /** Writing a new code invalidates the previous one. */
  lemma NewCodeReplacesOld(u: User, oldCode: string, code: string, expiry: int, now: int)
    requires oldCode != code
    ensures Decide(WithCode(u, code, expiry), oldCode, now) == InvalidCode
  {
  }
}
