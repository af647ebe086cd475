/** POST /api/auth/verify-code (app/api/auth/verify-code/route.ts): checks a submitted code
    against the stored one and, when it is right and current, marks the email verified. */
module VerifyCode {
  import opened Common
  import opened Text
  import opened Store
  import opened VerificationCodes

  const Required := "Email and code are required"
  const VerifiedText := "Email verified successfully. Please sign in to continue."

  /** What the checks before the lookup decide. */
  datatype Guarded =
    | Missing            // 400: email or code missing
    | Malformed          // decoding threw: 500
    | Proceed(email: string, code: string)

  /** `String(value)`, the conversion `decodeURIComponent` applies to its argument. */
  function EmailText(f: Field<string>): string
  {
    match f
    case Absent => "undefined"
    case Null => "null"
    case Present(v) => v
  }

  /** The checks as the route writes them: the email is decoded first and only the decoded
      text is tested, so a missing email turns into the truthy text "undefined". */
  function GuardAsWritten(email: Field<string>, code: Field<string>, decodeEscapes: string -> Option<string>): Guarded
  {
    match DecodeUriComponent(EmailText(email), decodeEscapes)
    case None => Malformed
    case Some(d) => if d == "" || !FieldTruthy(code) then Missing else Proceed(d, code.value)
  }

  /** A request without an email passes the route's checks and is looked up under "undefined". */
  lemma MissingEmailPassesAsWritten(code: string, decodeEscapes: string -> Option<string>)
    requires code != ""
    ensures GuardAsWritten(Absent, Present(code), decodeEscapes) == Proceed("undefined", code)
    ensures GuardAsWritten(Null, Present(code), decodeEscapes) == Proceed("null", code)
  {
  }

  /** The checks as intended: the raw email is tested as well before it is decoded. */
  function Guard(email: Field<string>, code: Field<string>, decodeEscapes: string -> Option<string>): (g: Guarded)
    // a missing or empty email or code is refused with 400 and never looked up
    ensures !FieldTruthy(email) ==> g == Missing
    ensures !FieldTruthy(code) ==> !g.Proceed?
    ensures g.Proceed? ==>
              FieldTruthy(email) && FieldTruthy(code) && g.code == code.value && g.email != "" &&
              DecodeUriComponent(email.value, decodeEscapes) == Some(g.email)
    // for a present email the route's own checks decide
    ensures FieldTruthy(email) ==> g == GuardAsWritten(email, code, decodeEscapes)
  {
    if !FieldTruthy(email) then Missing else GuardAsWritten(email, code, decodeEscapes)
  }

  /** The reply, users and log after the checks decided `g`; only a right, current code
      writes anything. */
  predicate Answered(g: Guarded, now: int, users0: map<string, User>, log0: seq<Effect>,
                     reply: Reply, users: map<string, User>, log: seq<Effect>)
  {
    match g
    case Missing => reply == Reply(400, false, Required) && users == users0 && log == log0
    case Malformed => reply == Reply(500, false, "Internal Server Error") && users == users0 && log == log0
    case Proceed(e, c) =>
      if e !in users0 then reply == Reply(404, false, "User not found") && users == users0 && log == log0
      else
        match Decide(users0[e], c, now)
        case Verified =>
          && reply == Reply(200, true, VerifiedText)
          && users == users0[e := MarkVerified(users0[e])]
          && log == log0 + [UserVerified(e)]
        case InvalidCode => reply == Reply(400, false, "Invalid verification code") && users == users0 && log == log0
        case ExpiredCode => reply == Reply(400, false, "Verification code has expired") && users == users0 && log == log0
  }

  /** Everything after the checks: the lookup, the code decision and the verifying write.
      `now` is the clock in milliseconds. */
  method Respond(db: Database, g: Guarded, now: int) returns (reply: Reply)
    requires db.Valid()
    modifies db
    ensures db.Valid() && db.animations == old(db.animations)
    ensures Answered(g, now, old(db.users), old(db.log), reply, db.users, db.log)
  {
    if g.Missing? {
      reply := Reply(400, false, Required);
      return;
    }
    if g.Malformed? {
      reply := Reply(500, false, "Internal Server Error");
      return;
    }
    var e := g.email;
    if e !in db.users {
      reply := Reply(404, false, "User not found");
      return;
    }
    var u := db.users[e];
    var d := Decide(u, g.code, now);
    match d {
      case Verified =>
        db.users := db.users[e := MarkVerified(u)];
        db.log := db.log + [UserVerified(e)];
        reply := Reply(200, true, VerifiedText);
      case InvalidCode =>
        reply := Reply(400, false, "Invalid verification code");
      case ExpiredCode =>
        reply := Reply(400, false, "Verification code has expired");
    }
  }

  /** For the body `{"code": c}`, with no user registered under the text "undefined": the
      route as written answers 404 "User not found", the corrected one 400, and neither writes. */
  lemma MissingEmailReplies(users: map<string, User>, log: seq<Effect>, c: string, now: int,
                            decodeEscapes: string -> Option<string>)
    requires c != "" && "undefined" !in users
    ensures Answered(GuardAsWritten(Absent, Present(c), decodeEscapes), now, users, log,
                     Reply(404, false, "User not found"), users, log)
    ensures Answered(Guard(Absent, Present(c), decodeEscapes), now, users, log,
                     Reply(400, false, Required), users, log)
  {
    MissingEmailPassesAsWritten(c, decodeEscapes);
  }

  /** The route as written: a body without an email is looked up under "undefined". */
  method Post(
    db: Database,
    email: Field<string>,
    code: Field<string>,
    decodeEscapes: string -> Option<string>,
    now: int)
    returns (reply: Reply)
    requires db.Valid()
    modifies db
    ensures db.Valid() && db.animations == old(db.animations)
    ensures Answered(GuardAsWritten(email, code, decodeEscapes), now, old(db.users), old(db.log),
                     reply, db.users, db.log)
  {
    reply := Respond(db, GuardAsWritten(email, code, decodeEscapes), now);
  }

  /** The route with the corrected checks: a body without an email gets 400. */
  method PostIntended(
    db: Database,
    email: Field<string>,
    code: Field<string>,
    decodeEscapes: string -> Option<string>,
    now: int)
    returns (reply: Reply)
    requires db.Valid()
    modifies db
    ensures db.Valid() && db.animations == old(db.animations)
    ensures Answered(Guard(email, code, decodeEscapes), now, old(db.users), old(db.log),
                     reply, db.users, db.log)
  {
    reply := Respond(db, Guard(email, code, decodeEscapes), now);
  }
}
