/** POST /api/ai/render-callback (app/api/ai/render-callback/route.ts): the rendering
    service reports a finished job. After an optional shared-secret check the record gets a
    terminal write chosen by the `success` flag; its current status is never read. */
module RenderCallback {
  import opened Common
  import opened Store

  /** The parsed callback body. */
  datatype Payload = Payload(
    animationId: Field<string>,
    success: Field<bool>,
    videoUrl: Field<string>,
    thumbnailUrl: Field<string>,
    duration: Field<real>,
    error: Field<string>)

  const DefaultFailure := "Video rendering failed"

  /** A configured secret must equal the `x-webhook-secret` header; without one
      (unset or empty) every request is let through. */
  predicate SecretAccepted(expected: Option<string>, header: Option<string>)
  {
    !Truthy(expected) || header == expected
  }

  /** `success` is truthy. */
  predicate Succeeded(p: Payload)
  {
    p.success == Present(true)
  }

  /** The message of the failure write: `error`, unless it is missing or empty. */
  function FailureText(p: Payload): (m: string)
    ensures m != ""
    ensures FieldTruthy(p.error) ==> m == p.error.value
    ensures !FieldTruthy(p.error) ==> m == DefaultFailure
  {
    FieldOrElse(p.error, DefaultFailure)
  }

  /** The record after the callback's write. */
  function ApplyCallback(a: Animation, p: Payload): (b: Animation)
    ensures Succeeded(p) ==>
              && b.status == COMPLETED
              && b.videoUrl == Merge(a.videoUrl, p.videoUrl)
              && b.thumbnailUrl == Merge(a.thumbnailUrl, p.thumbnailUrl)
              && b.duration == Merge(a.duration, p.duration)
              && b.(status := a.status, videoUrl := a.videoUrl, thumbnailUrl := a.thumbnailUrl,
                    duration := a.duration) == a
    ensures !Succeeded(p) ==>
              && b.status == FAILED
              && b.errorMessage == Some(FailureText(p))
              && b.(status := a.status, errorMessage := a.errorMessage) == a
  {
    if Succeeded(p) then
      a.(status := COMPLETED,
         videoUrl := Merge(a.videoUrl, p.videoUrl),
         thumbnailUrl := Merge(a.thumbnailUrl, p.thumbnailUrl),
         duration := Merge(a.duration, p.duration))
    else
      a.(status := FAILED, errorMessage := Some(FailureText(p)))
  }

  /** The write does not depend on the status the record had: an already terminal record
      is overwritten like any other. */
  lemma StatusNotRead(a: Animation, p: Payload, s: Status)
    ensures ApplyCallback(a.(status := s), p) == ApplyCallback(a, p)
  {
  }

  /** Delivering the same payload twice leaves the record as one delivery does. */
  lemma DuplicateDeliveryIdempotent(a: Animation, p: Payload)
    ensures ApplyCallback(ApplyCallback(a, p), p) == ApplyCallback(a, p)
  {
  }

  /** A later callback decides the terminal status, so a failure report turns a
      COMPLETED record into a FAILED one. */
  lemma LaterCallbackWins(a: Animation, first: Payload, second: Payload)
    ensures ApplyCallback(ApplyCallback(a, first), second).status == ApplyCallback(a, second).status
    ensures IsTerminal(ApplyCallback(a, second).status)
  {
  }

  /** `notFound` is the message of the error the store throws for an update of an unknown id. */
  method Post(db: Database, expectedSecret: Option<string>, secretHeader: Option<string>, payload: Payload,
              notFound: string)
    returns (reply: Reply)
    requires db.Valid()
    modifies db
    ensures db.Valid() && db.users == old(db.users)
    ensures !SecretAccepted(expectedSecret, secretHeader) ==> reply == Reply(401, false, "Unauthorized")
    ensures SecretAccepted(expectedSecret, secretHeader) && !FieldTruthy(payload.animationId) ==>
              reply == Reply(400, false, "Animation ID is required")
    // a refused request, or an update of an unknown id (which throws), writes nothing
    ensures !(SecretAccepted(expectedSecret, secretHeader) && FieldTruthy(payload.animationId) &&
              payload.animationId.value in old(db.animations)) ==>
              db.animations == old(db.animations) && db.log == old(db.log)
    ensures SecretAccepted(expectedSecret, secretHeader) && FieldTruthy(payload.animationId) &&
            payload.animationId.value !in old(db.animations) ==>
              reply == Reply(500, false, notFound)
    // otherwise one terminal write, acknowledged with success on both branches
    ensures SecretAccepted(expectedSecret, secretHeader) && FieldTruthy(payload.animationId) &&
            payload.animationId.value in old(db.animations) ==>
              var id := payload.animationId.value;
              var after := ApplyCallback(old(db.animations)[id], payload);
              && db.animations == old(db.animations)[id := after]
              && db.log == old(db.log) + [AnimationWritten(id, after.status)]
              && reply == Reply(200, true, if Succeeded(payload) then "Animation updated successfully"
                                           else "Animation marked as failed")
  {
    if !SecretAccepted(expectedSecret, secretHeader) {
      reply := Reply(401, false, "Unauthorized");
      return;
    }
    if !FieldTruthy(payload.animationId) {
      reply := Reply(400, false, "Animation ID is required");
      return;
    }
    var id := payload.animationId.value;
    if id !in db.animations {
      reply := Reply(500, false, notFound);
      return;
    }
    var after := ApplyCallback(db.animations[id], payload);
    db.animations := db.animations[id := after];
    db.log := db.log + [AnimationWritten(id, after.status)];
    if Succeeded(payload) {
      reply := Reply(200, true, "Animation updated successfully");
    } else {
      reply := Reply(200, true, "Animation marked as failed");
    }
  }
}
