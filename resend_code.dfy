/** POST /api/auth/resend-code (app/api/auth/resend-code/route.ts): overwrites a user's code
    and expiry and mails the new code. */
module ResendCode {
  import opened Common
  import opened Text
  import opened Store
  import opened VerificationCodes

  const Resent := "Verification code resent successfully. Please check your email."

  /** `decodeEscapes` stands for the escape decoding of `decodeURIComponent`, `random` for the
      `Math.random()` draw, `now` for the clock and `mailReturns` for whether the mail call
      returns without throwing; what it returns is not read. */
  method Post(
    db: Database,
    email: Field<string>,
    decodeEscapes: string -> Option<string>,
    random: real,
    now: int,
    mailReturns: bool)
    returns (reply: Reply)
    requires db.Valid()
    requires 0.0 <= random < 1.0
    modifies db
    ensures db.Valid() && db.animations == old(db.animations)
    ensures !FieldTruthy(email) ==>
              reply == Reply(400, false, "Email not found") && db.users == old(db.users) && db.log == old(db.log)
    ensures FieldTruthy(email) && DecodeUriComponent(email.value, decodeEscapes).None? ==>
              reply == Reply(500, false, "Internal Server Error") &&
              db.users == old(db.users) && db.log == old(db.log)
    ensures FieldTruthy(email) && DecodeUriComponent(email.value, decodeEscapes).Some? ==>
              var e := DecodeUriComponent(email.value, decodeEscapes).value;
              var code := NewCode(random);
              if e !in old(db.users) then
                // a code was drawn, but nothing is written
                reply == Reply(404, false, "User not found") && db.users == old(db.users) && db.log == old(db.log)
              else
                // verified or not, only the code and its expiry change; a failed mail still
                // leaves the new code stored
                && db.users == old(db.users)[e := WithCode(old(db.users)[e], code, CodeExpiry(now))]
                && db.log == old(db.log) + [UserCodeWritten(e), VerificationMailSent(e, code)]
                && reply == (if mailReturns then Reply(200, true, Resent) else Reply(500, false, "Internal Server Error"))
  {
    if !FieldTruthy(email) {
      reply := Reply(400, false, "Email not found");
      return;
    }
    var decoded := DecodeUriComponent(email.value, decodeEscapes);
    if decoded.None? {
      reply := Reply(500, false, "Internal Server Error");
      return;
    }
    var e := decoded.value;
    var code := NewCode(random);
    var expiry := CodeExpiry(now);
    if e !in db.users {
      reply := Reply(404, false, "User not found");
      return;
    }
    db.users := db.users[e := WithCode(db.users[e], code, expiry)];
    db.log := db.log + [UserCodeWritten(e)];
    db.log := db.log + [VerificationMailSent(e, code)];
    if mailReturns {
      reply := Reply(200, true, Resent);
    } else {
      reply := Reply(500, false, "Internal Server Error");
    }
  }
}
