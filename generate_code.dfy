/** POST /api/ai/generate-code (app/api/ai/generate-code/route.ts): checks the session and the
    prompt, asks the generator for code and, on success, inserts a new animation record with
    status GENERATING. */
module GenerateCode {
  import opened Common
  import opened Store
  import opened Provider

  /** The data of a successful reply. */
  datatype Generated = Generated(
    animationId: string,
    code: string,
    model: Option<string>,
    provider: Option<string>,
    tokensUsed: Option<int>)

  /** The route's own length check, on the raw prompt. */
  const MinRawPromptLength := 10

  /** The guards the route applies before calling the generator. */
  predicate RequestAccepted(session: Option<string>, prompt: Field<string>)
  {
    Truthy(session) && FieldTruthy(prompt) && |prompt.value| >= MinRawPromptLength
  }

  /** A generator reply the route stores: successful and with non-empty code. */
  predicate Usable(result: GenerateCodeResponse)
  {
    result.success && Truthy(result.code)
  }

  /** The record the route inserts for a usable reply. */
  function NewRecord(id: string, userId: string, prompt: string, result: GenerateCodeResponse): (a: Animation)
    requires Usable(result)
    ensures a.id == id && a.userId == userId && a.prompt == prompt && a.code == result.code.value
    ensures a.status == GENERATING && a.model == OrElse(result.model, "unknown")
    ensures a.videoUrl.None? && a.thumbnailUrl.None? && a.duration.None? && a.errorMessage.None?
  {
    Animation(id, userId, prompt, result.code.value, GENERATING, OrElse(result.model, "unknown"),
              None, None, None, None)
  }

  method Post(
    db: Database,
    session: Option<string>,
    prompt: Field<string>,
    provider: Field<string>,
    groq: string -> GenerateCodeResponse,
    gemini: string -> GenerateCodeResponse,
    newId: string)
    returns (reply: Reply, data: Option<Generated>)
    requires db.Valid()
    modifies db
    ensures db.Valid() && db.users == old(db.users)
    // the guards, in order, each answering before anything is written
    ensures !Truthy(session) ==> reply == Reply(401, false, "Unauthorized")
    ensures Truthy(session) && !FieldTruthy(prompt) ==> reply == Reply(400, false, "Invalid prompt")
    ensures Truthy(session) && FieldTruthy(prompt) && |prompt.value| < MinRawPromptLength ==>
              reply == Reply(400, false, "Prompt too short")
    // a refused or empty generation is reported with the generator's error
    ensures RequestAccepted(session, prompt) &&
            !Usable(GenerateManimCode(prompt.value, provider, groq, gemini)) ==>
              reply == Reply(500, false, OrElse(GenerateManimCode(prompt.value, provider, groq, gemini).error,
                                                "Failed to generate the code"))
    // a record is created exactly when the request is accepted, the code is usable and the insert succeeds
    ensures data.Some? <==>
              RequestAccepted(session, prompt) &&
              Usable(GenerateManimCode(prompt.value, provider, groq, gemini)) &&
              newId !in old(db.animations)
    // an id already in use makes the insert throw
    ensures RequestAccepted(session, prompt) &&
            Usable(GenerateManimCode(prompt.value, provider, groq, gemini)) &&
            newId in old(db.animations) ==>
              reply == Reply(500, false, "Internal server error while generating code")
    ensures data.None? ==> db.animations == old(db.animations) && db.log == old(db.log) && !reply.success
    ensures data.Some? ==>
              var result := GenerateManimCode(prompt.value, provider, groq, gemini);
              && reply == Reply(200, true, "")
              && data.value == Generated(newId, result.code.value, result.model, result.provider, result.tokensUsed)
              && db.animations == old(db.animations)[newId := NewRecord(newId, session.value, prompt.value, result)]
              && db.log == old(db.log) + [AnimationCreated(newId)]
  {
    data := None;
    if !Truthy(session) {
      reply := Reply(401, false, "Unauthorized");
      return;
    }
    if !FieldTruthy(prompt) {
      reply := Reply(400, false, "Invalid prompt");
      return;
    }
    if |prompt.value| < MinRawPromptLength {
      reply := Reply(400, false, "Prompt too short");
      return;
    }
    var result := GenerateManimCode(prompt.value, provider, groq, gemini);
    if !Usable(result) {
      reply := Reply(500, false, OrElse(result.error, "Failed to generate the code"));
      return;
    }
    if newId in db.animations {
      // the insert violates the key and throws
      reply := Reply(500, false, "Internal server error while generating code");
      return;
    }
    db.animations := db.animations[newId := NewRecord(newId, session.value, prompt.value, result)];
    db.log := db.log + [AnimationCreated(newId)];
    reply := Reply(200, true, "");
    data := Some(Generated(newId, result.code.value, result.model, result.provider, result.tokensUsed));
  }
}
