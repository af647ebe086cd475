/** POST /api/auth/check-user (app/api/auth/check-user/route.ts): reports whether an email is
    registered and verified, and sends an unverified user a new code. */
module CheckUser {
  import opened Common
  import opened Store
  import opened VerificationCodes

  /** The reply: status, `exists` (here `found`), `verified` and the optional `message`. */
  datatype CheckReply = CheckReply(status: int, found: bool, verified: bool, message: Option<string>)

  /** `random` is the `Math.random()` draw and `now` the clock; mail errors are swallowed. */
  method Post(db: Database, email: Field<string>, random: real, now: int) returns (reply: CheckReply)
    requires db.Valid()
    requires 0.0 <= random < 1.0
    modifies db
    ensures db.Valid() && db.animations == old(db.animations)
    ensures !FieldTruthy(email) ==> reply == CheckReply(400, false, false, Some("Email is required"))
    ensures FieldTruthy(email) && email.value !in old(db.users) ==> reply == CheckReply(200, false, false, None)
    // nothing is written unless the user exists and is not verified
    ensures !(FieldTruthy(email) && email.value in old(db.users) && !old(db.users)[email.value].emailVerified) ==>
              db.users == old(db.users) && db.log == old(db.log)
    ensures FieldTruthy(email) && email.value in old(db.users) ==>
              var e := email.value;
              var u := old(db.users)[e];
              && reply == CheckReply(200, true, u.emailVerified, None)
              && (!u.emailVerified ==>
                    && db.users == old(db.users)[e := WithCode(u, NewCode(random), CodeExpiry(now))]
                    && db.log == old(db.log) + [UserCodeWritten(e), VerificationMailSent(e, NewCode(random))])
  {
    if !FieldTruthy(email) {
      reply := CheckReply(400, false, false, Some("Email is required"));
      return;
    }
    var e := email.value;
    if e !in db.users {
      reply := CheckReply(200, false, false, None);
      return;
    }
    var u := db.users[e];
    if !u.emailVerified {
      var code := NewCode(random);
      var expiry := CodeExpiry(now);
      db.users := db.users[e := WithCode(u, code, expiry)];
      db.log := db.log + [UserCodeWritten(e)];
      db.log := db.log + [VerificationMailSent(e, code)];
    }
    reply := CheckReply(200, true, u.emailVerified, None);
  }
}
