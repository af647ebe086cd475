/** POST /api/auth/register (app/api/auth/register/route.ts): creates an unverified user with
    a fresh verification code and mails the code. */
module Register {
  import opened Common
  import opened Store
  import opened VerificationCodes

  /** The data of a successful reply: the email and the name, nothing else. */
  datatype Registered = Registered(email: string, name: string)

  const AllRequired := "All fields are required"
  const AlreadyExists := "User with this email already exists"
  const Success := "Registration successful! Check your email for verification code."

  /** The record the route creates. */
  function NewUser(id: string, name: string, email: string, hashed: string, code: string, expiry: int): (u: User)
    ensures u.id == id && u.name == name && u.email == email && u.password == hashed
    ensures !u.emailVerified && u.verificationCode == Some(code) && u.verificationCodeExpiry == Some(expiry)
  {
    User(id, name, email, hashed, false, Some(code), Some(expiry))
  }

  /** `random` is the `Math.random()` draw, `now` the clock in milliseconds, `hash` the
      password hashing and `newId` the id the store assigns. The mail outcome is not a
      parameter: a failure to send is caught and ignored. */
  method Post(
    db: Database,
    name: Field<string>,
    email: Field<string>,
    password: Field<string>,
    random: real,
    now: int,
    hash: string -> string,
    newId: string)
    returns (reply: Reply, data: Option<Registered>)
    requires db.Valid()
    requires 0.0 <= random < 1.0
    modifies db
    ensures db.Valid() && db.animations == old(db.animations)
    ensures !(FieldTruthy(name) && FieldTruthy(email) && FieldTruthy(password)) ==>
              reply == Reply(400, false, AllRequired)
    // a taken email found by the lookup, and an insert refused as a unique violation (P2002)
    // because the new id is in use, get the same answer
    ensures FieldTruthy(name) && FieldTruthy(email) && FieldTruthy(password) &&
            (email.value in old(db.users) || UserIdKnown(old(db.users), newId)) ==>
              reply == Reply(400, false, AlreadyExists)
    ensures data.None? ==> db.users == old(db.users) && db.log == old(db.log) && !reply.success
    ensures data.Some? <==>
              FieldTruthy(name) && FieldTruthy(email) && FieldTruthy(password) &&
              email.value !in old(db.users) && !UserIdKnown(old(db.users), newId)
    ensures data.Some? ==>
              var code := NewCode(random);
              && reply == Reply(201, true, Success)
              && data.value == Registered(email.value, name.value)
              && db.users == old(db.users)[email.value := NewUser(newId, name.value, email.value,
                                                                  hash(password.value), code, CodeExpiry(now))]
              // the mail is sent after the record exists, whether or not it goes through
              && db.log == old(db.log) + [UserCreated(email.value), VerificationMailSent(email.value, code)]
  {
    data := None;
    if !FieldTruthy(name) || !FieldTruthy(email) || !FieldTruthy(password) {
      reply := Reply(400, false, AllRequired);
      return;
    }
    if email.value in db.users {
      reply := Reply(400, false, AlreadyExists);
      return;
    }
    var code := NewCode(random);
    var expiry := CodeExpiry(now);
    var hashed := hash(password.value);
    if UserIdKnown(db.users, newId) {
      // the insert violates a unique key (P2002)
      reply := Reply(400, false, AlreadyExists);
      return;
    }
    db.users := db.users[email.value := NewUser(newId, name.value, email.value, hashed, code, expiry)];
    db.log := db.log + [UserCreated(email.value)];
    db.log := db.log + [VerificationMailSent(email.value, code)];
    reply := Reply(201, true, Success);
    data := Some(Registered(email.value, name.value));
  }
}
