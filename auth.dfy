/** The credentials sign-in of lib/auth.ts: `authorize`, which refreshes the code of an
    unverified user before it looks at the password, and the `jwt` and `session` callbacks,
    which copy the signed-in user onto the token and the token onto the session. */
module Auth {
  import opened Common
  import opened Store
  import opened VerificationCodes

  /** What `authorize` returns: the user without the password hash. */
  datatype AuthorizedUser = AuthorizedUser(id: string, name: string, email: string, emailVerified: bool)

  /** `authorize` either returns a user or throws with a message. */
  datatype AuthOutcome = SignedIn(user: AuthorizedUser) | Thrown(message: string)

  const CredentialsRequired := "Email and password are required"
  const NoUser := "No user found with the provided email"
  const InvalidPassword := "Invalid password"

  /** The message that tells the sign in page to send the user to verification. */
  function UnverifiedMessage(email: string): string
  {
    "UNVERIFIED:" + email
  }

  /** The user without the password hash. */
  function Public(u: User): (a: AuthorizedUser)
    ensures a.id == u.id && a.name == u.name && a.email == u.email && a.emailVerified == u.emailVerified
  {
    AuthorizedUser(u.id, u.name, u.email, u.emailVerified)
  }

  /** `compare` is the password check against the stored hash, `random` the `Math.random()`
      draw and `now` the clock. The mail is sent without being awaited and cannot change the
      outcome. */
  method Authorize(
    db: Database,
    email: Option<string>,
    password: Option<string>,
    compare: (string, string) -> bool,
    random: real,
    now: int)
    returns (r: AuthOutcome)
    requires db.Valid()
    requires 0.0 <= random < 1.0
    modifies db
    ensures db.Valid() && db.animations == old(db.animations)
    ensures !(Truthy(email) && Truthy(password)) ==> r == Thrown(CredentialsRequired)
    ensures Truthy(email) && Truthy(password) && email.value !in old(db.users) ==> r == Thrown(NoUser)
    // only an unverified user's sign in writes anything
    ensures !(Truthy(email) && Truthy(password) && email.value in old(db.users) &&
              !old(db.users)[email.value].emailVerified) ==>
              db.users == old(db.users) && db.log == old(db.log)
    ensures Truthy(email) && Truthy(password) && email.value in old(db.users) ==>
              var e := email.value;
              var u := old(db.users)[e];
              if !u.emailVerified then
                // a new code is stored and mailed, whatever the password
                && r == Thrown(UnverifiedMessage(e))
                && db.users == old(db.users)[e := WithCode(u, NewCode(random), CodeExpiry(now))]
                && db.log == old(db.log) + [UserCodeWritten(e), VerificationMailSent(e, NewCode(random))]
              else if !compare(password.value, u.password) then r == Thrown(InvalidPassword)
              else r == SignedIn(Public(u))
    // whoever signs in is verified
    ensures r.SignedIn? ==> r.user.emailVerified
  {
    if !Truthy(email) || !Truthy(password) {
      r := Thrown(CredentialsRequired);
      return;
    }
    var e := email.value;
    if e !in db.users {
      r := Thrown(NoUser);
      return;
    }
    var u := db.users[e];
    if !u.emailVerified {
      var code := NewCode(random);
      var expiry := CodeExpiry(now);
      db.users := db.users[e := WithCode(u, code, expiry)];
      db.log := db.log + [UserCodeWritten(e)];
      db.log := db.log + [VerificationMailSent(e, code)];
      r := Thrown(UnverifiedMessage(e));
      return;
    }
    if !compare(password.value, u.password) {
      r := Thrown(InvalidPassword);
      return;
    }
    r := SignedIn(Public(u));
  }

  /** The user object the `jwt` callback receives; `emailVerified` is read through `any`. */
  datatype JwtUser = JwtUser(id: string, email: string, name: string, emailVerified: Field<bool>)

  /** `!!value` on the `emailVerified` field. */
  function Coerce(b: Field<bool>): (r: bool)
    ensures r <==> b == Present(true)
  {
    b.Present? && b.value
  }

  /** The user `authorize` hands to the callback. */
  function ToJwtUser(a: AuthorizedUser): (j: JwtUser)
    ensures j.id == a.id && j.email == a.email && j.name == a.name
    ensures Coerce(j.emailVerified) == a.emailVerified
  {
    JwtUser(a.id, a.email, a.name, Present(a.emailVerified))
  }

  /** The claims of the session token. */
  class Token {
    var id: Option<string>
    var email: Option<string>
    var name: Option<string>
    var emailVerified: Option<bool>

    constructor ()
      ensures id.None? && email.None? && name.None? && emailVerified.None?
    {
      id := None;
      email := None;
      name := None;
      emailVerified := None;
    }

    /** The `jwt` callback: with a user, its fields are copied and `emailVerified` is
        coerced to a boolean; without one the token stays as it is. */
    method Jwt(user: Option<JwtUser>)
      modifies this
      ensures user.None? ==> id == old(id) && email == old(email) && name == old(name) && emailVerified == old(emailVerified)
      ensures user.Some? ==>
                && id == Some(user.value.id) && email == Some(user.value.email) && name == Some(user.value.name)
                && emailVerified == Some(Coerce(user.value.emailVerified))
    {
      if user.Some? {
        id := Some(user.value.id);
        email := Some(user.value.email);
        name := Some(user.value.name);
        emailVerified := Some(Coerce(user.value.emailVerified));
      }
    }
  }

  /** `session.user`. */
  class SessionUser {
    var id: Option<string>
    var email: Option<string>
    var name: Option<string>
    var emailVerified: Option<bool>

    constructor ()
      ensures id.None? && email.None? && name.None? && emailVerified.None?
    {
      id := None;
      email := None;
      name := None;
      emailVerified := None;
    }

    /** The `session` callback: with a token, its claims are copied without conversion. */
    method Session(token: Token?)
      modifies this
      ensures token == null ==>
                id == old(id) && email == old(email) && name == old(name) && emailVerified == old(emailVerified)
      ensures token != null ==>
                id == token.id && email == token.email && name == token.name && emailVerified == token.emailVerified
    {
      if token != null {
        id := token.id;
        email := token.email;
        name := token.name;
        emailVerified := token.emailVerified;
      }
    }
  }

  /** A sign in followed by both callbacks: the session then carries the database user's id,
      email and name and says the email is verified; a refused sign in leaves no claims. */
  method SignIn(
    db: Database,
    email: Option<string>,
    password: Option<string>,
    compare: (string, string) -> bool,
    random: real,
    now: int)
    returns (r: AuthOutcome, session: SessionUser)
    requires db.Valid()
    requires 0.0 <= random < 1.0
    modifies db
    ensures db.Valid()
    ensures r.SignedIn? ==>
              && Truthy(email) && email.value in old(db.users)
              && session.id == Some(old(db.users)[email.value].id)
              && session.email == Some(email.value)
              && session.name == Some(old(db.users)[email.value].name)
              && session.emailVerified == Some(true)
    ensures r.Thrown? ==>
              session.id.None? && session.email.None? && session.name.None? && session.emailVerified.None?
  {
    r := Authorize(db, email, password, compare, random, now);
    var token := new Token();
    session := new SessionUser();
    if r.SignedIn? {
      token.Jwt(Some(ToJwtUser(r.user)));
      session.Session(token);
    }
  }
}
