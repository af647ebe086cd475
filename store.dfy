/** The relational store behind every handler, seen as two keyed tables: animation records
    by id and users by (unique) email. The log records, in order, the writes the handlers
    make and the calls they make to collaborators, so that orderings can be stated. */
module Store {
  import opened Common

  /** The status column of an animation record. */
  datatype Status = GENERATING | RENDERING | COMPLETED | FAILED

  predicate IsTerminal(s: Status)
  {
    s == COMPLETED || s == FAILED
  }

  /** An animation record: one render job. */
  datatype Animation = Animation(
    id: string,
    userId: string,
    prompt: string,
    code: string,
    status: Status,
    model: string,
    videoUrl: Option<string>,
    thumbnailUrl: Option<string>,
    duration: Option<real>,
    errorMessage: Option<string>)

  /** A user record; `password` holds the password hash. Expiry instants are milliseconds. */
  datatype User = User(
    id: string,
    name: string,
    email: string,
    password: string,
    emailVerified: bool,
    verificationCode: Option<string>,
    verificationCodeExpiry: Option<int>)

  /** What the rendering service is asked to do. */
  datatype ExecRequest = ExecRequest(code: string, quality: Field<string>)

  /** One observable step of a handler. */
  datatype Effect =
    | AnimationCreated(id: string)
    | AnimationWritten(id: string, status: Status)
    | ExecuteCalled(request: ExecRequest)
    | UserCreated(email: string)
    | UserCodeWritten(email: string)
    | UserVerified(email: string)
    | VerificationMailSent(email: string, code: string)
    | ArtifactsDeleted(urls: seq<string>)
    | UserDeleted(id: string)

  /** A user with this id exists. */
  predicate UserIdKnown(users: map<string, User>, userId: string)
  {
    exists e | e in users :: users[e].id == userId
  }

  class Database {
    var animations: map<string, Animation>
    var users: map<string, User>
    var log: seq<Effect>

    /** Each record is filed under its own id, each user under its own email, and no two
        users share an id. */
    ghost predicate Valid()
      reads this
    {
      && (forall id :: id in animations ==> animations[id].id == id)
      && (forall e :: e in users ==> users[e].email == e)
      && (forall e1, e2 :: e1 in users && e2 in users && users[e1].id == users[e2].id ==> e1 == e2)
    }

    constructor ()
      ensures Valid()
      ensures animations == map[] && users == map[] && log == []
    {
      animations := map[];
      users := map[];
      log := [];
    }
  }
}
