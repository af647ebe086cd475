/** POST /api/ai/render-video (app/api/ai/render-video/route.tsx): marks a record RENDERING,
    calls the rendering service synchronously and writes COMPLETED or FAILED from the way the
    call ends. The call itself, and its ten-minute abort timer, are the outcome parameter. */
module RenderVideo {
  import opened Common
  import opened Store

  /** The fields of the service's JSON reply that the route copies. */
  datatype ExecResult = ExecResult(videoUrl: Field<string>, thumbnailUrl: Field<string>, duration: Field<real>)

  /** How the call to the rendering service ends. */
  datatype ExecOutcome =
    | Ok(result: ExecResult)         // a 2xx reply whose body parsed
    | NonOk(body: string)            // a reply outside 2xx, with its body text
    | Timeout(abortMessage: string)  // the abort timer fired; the abort error's own message
    | Error(message: string)         // the request, or reading the reply, threw

  /** The data of a successful reply. */
  datatype Rendered = Rendered(
    animationId: string,
    videoUrl: Field<string>,
    thumbnailUrl: Field<string>,
    duration: Field<real>)

  const TimeoutText := "Video generation timed out. Please try with a simpler animation."
  const NonOkDefault := "Failed to render video"
  const SuccessText := "Video rendered successfully"

  /** The quality sent to the service: the destructuring default "l" replaces only a missing value. */
  function Quality(quality: Field<string>): (q: Field<string>)
    ensures quality.Absent? ==> q == Present("l")
    ensures !quality.Absent? ==> q == quality
  {
    if quality.Absent? then Present("l") else quality
  }

  /** The message of the error that leaves the inner block, and so of the 500 reply. */
  function ThrownMessage(o: ExecOutcome): (m: string)
    requires !o.Ok?
    ensures o.NonOk? && o.body != "" ==> m == o.body
    ensures o.NonOk? && o.body == "" ==> m == NonOkDefault
    ensures o.Timeout? ==> m == o.abortMessage
    ensures o.Error? ==> m == o.message
  {
    match o
    case NonOk(body) => if body != "" then body else NonOkDefault
    case Timeout(m) => m
    case Error(m) => m
  }

  /** The message written on the FAILED record: the fixed timeout text for an abort,
      otherwise the thrown message. */
  function StoredError(o: ExecOutcome): (m: string)
    requires !o.Ok?
    ensures o.Timeout? ==> m == TimeoutText
    ensures !o.Timeout? ==> m == ThrownMessage(o)
    ensures o.NonOk? ==> m != ""
  {
    if o.Timeout? then TimeoutText else ThrownMessage(o)
  }

  /** The first write: only the status changes. */
  function MarkRendering(a: Animation): (b: Animation)
    ensures b.status == RENDERING
    ensures b.(status := a.status) == a
  {
    a.(status := RENDERING)
  }

  /** The success write: status and the three result columns; the error message stays. */
  function MarkCompleted(a: Animation, r: ExecResult): (b: Animation)
    ensures b.status == COMPLETED
    ensures b.videoUrl == Merge(a.videoUrl, r.videoUrl)
    ensures b.thumbnailUrl == Merge(a.thumbnailUrl, r.thumbnailUrl)
    ensures b.duration == Merge(a.duration, r.duration)
    ensures b.(status := a.status, videoUrl := a.videoUrl, thumbnailUrl := a.thumbnailUrl, duration := a.duration) == a
  {
    a.(status := COMPLETED,
       videoUrl := Merge(a.videoUrl, r.videoUrl),
       thumbnailUrl := Merge(a.thumbnailUrl, r.thumbnailUrl),
       duration := Merge(a.duration, r.duration))
  }

  /** The failure write: status and error message; the artifact columns stay. */
  function MarkFailed(a: Animation, message: string): (b: Animation)
    ensures b.status == FAILED && b.errorMessage == Some(message)
    ensures b.(status := a.status, errorMessage := a.errorMessage) == a
  {
    a.(status := FAILED, errorMessage := Some(message))
  }

  /** The record after the route's writes, for a record that exists. */
  function AfterRender(a: Animation, o: ExecOutcome): (b: Animation)
    // whatever the prior status, the record ends terminal, COMPLETED exactly on a 2xx reply
    ensures IsTerminal(b.status)
    ensures b.status == COMPLETED <==> o.Ok?
    ensures b.id == a.id && b.userId == a.userId && b.prompt == a.prompt && b.code == a.code && b.model == a.model
    ensures o.Ok? ==> b.errorMessage == a.errorMessage
    ensures !o.Ok? ==> b.errorMessage == Some(StoredError(o))
    ensures !o.Ok? ==> b.videoUrl == a.videoUrl && b.thumbnailUrl == a.thumbnailUrl && b.duration == a.duration
  {
    if o.Ok? then MarkCompleted(MarkRendering(a), o.result) else MarkFailed(MarkRendering(a), StoredError(o))
  }

  /** The checks that precede the first write. */
  predicate RequestValid(session: Option<string>, animationId: Field<string>, code: Field<string>)
  {
    Truthy(session) && FieldTruthy(animationId) && FieldTruthy(code)
  }

  /** `outcome` is what the rendering service call yields; `notFound` is the message of the
      error the store throws for an update of an unknown id. */
  method Post(
    db: Database,
    session: Option<string>,
    animationId: Field<string>,
    code: Field<string>,
    quality: Field<string>,
    outcome: ExecOutcome,
    notFound: string)
    returns (reply: Reply, data: Option<Rendered>)
    requires db.Valid()
    modifies db
    ensures db.Valid() && db.users == old(db.users)
    // without a session user, or without id and code, nothing is written or called
    ensures !Truthy(session) ==> reply == Reply(401, false, "Unauthorized")
    ensures Truthy(session) && !(FieldTruthy(animationId) && FieldTruthy(code)) ==>
              reply == Reply(400, false, "Animation ID and code are required")
    ensures !RequestValid(session, animationId, code) ==>
              db.animations == old(db.animations) && db.log == old(db.log) && data.None?
    // an unknown id makes the first update throw; its message `notFound` is the store's own
    ensures RequestValid(session, animationId, code) && animationId.value !in old(db.animations) ==>
              reply == Reply(500, false, notFound) && data.None? &&
              db.animations == old(db.animations) && db.log == old(db.log)
    // otherwise: RENDERING is written before the service is called, whoever owns the record
    // and whatever its status, then the terminal write chosen by the outcome
    ensures RequestValid(session, animationId, code) && animationId.value in old(db.animations) ==>
              var id := animationId.value;
              var after := AfterRender(old(db.animations)[id], outcome);
              && db.animations == old(db.animations)[id := after]
              && db.log == old(db.log) + [AnimationWritten(id, RENDERING),
                                          ExecuteCalled(ExecRequest(code.value, Quality(quality))),
                                          AnimationWritten(id, after.status)]
              && (outcome.Ok? ==>
                    reply == Reply(200, true, SuccessText) &&
                    data == Some(Rendered(id, outcome.result.videoUrl, outcome.result.thumbnailUrl,
                                          outcome.result.duration)))
              && (!outcome.Ok? ==> reply == Reply(500, false, ThrownMessage(outcome)) && data.None?)
  {
    data := None;
    if !Truthy(session) {
      reply := Reply(401, false, "Unauthorized");
      return;
    }
    if !FieldTruthy(animationId) || !FieldTruthy(code) {
      reply := Reply(400, false, "Animation ID and code are required");
      return;
    }
    var id := animationId.value;
    if id !in db.animations {
      reply := Reply(500, false, notFound);
      return;
    }
    db.animations := db.animations[id := MarkRendering(db.animations[id])];
    db.log := db.log + [AnimationWritten(id, RENDERING)];
    db.log := db.log + [ExecuteCalled(ExecRequest(code.value, Quality(quality)))];
    match outcome {
      case Ok(result) =>
        db.animations := db.animations[id := MarkCompleted(db.animations[id], result)];
        db.log := db.log + [AnimationWritten(id, COMPLETED)];
        reply := Reply(200, true, SuccessText);
        data := Some(Rendered(id, result.videoUrl, result.thumbnailUrl, result.duration));
      case _ =>
        db.animations := db.animations[id := MarkFailed(db.animations[id], StoredError(outcome))];
        db.log := db.log + [AnimationWritten(id, FAILED)];
        reply := Reply(500, false, ThrownMessage(outcome));
    }
  }
}
