/** `generateManimCode` (lib/llm/provider.ts): rejects prompts that are too short once
    trimmed, then hands the prompt to the chosen LLM provider. The two provider wrappers are
    foreign SDK calls and appear here as the functions `groq` and `gemini`. */
module Provider {
  import opened Common
  import opened Text

  /** What a generator answers (`GenerateCodeResponse`). */
  datatype GenerateCodeResponse = GenerateCodeResponse(
    success: bool,
    code: Option<string>,
    error: Option<string>,
    model: Option<string>,
    provider: Option<string>,
    tokensUsed: Option<int>)

  const MinPromptLength := 10
  const PromptTooShortError := "Please provide a more detailed prompt (at least 10 characters)"
  const InvalidProviderError := "Invalid LLM provider selected."

  /** A reply that carries only an error. */
  function Failure(message: string): GenerateCodeResponse
  {
    GenerateCodeResponse(false, None, Some(message), None, None, None)
  }

  /** The provider after the parameter default: only a missing argument becomes "groq";
      an explicit `null` stays `null` and matches no case of the switch. */
  function ProviderName(provider: Field<string>): Option<string>
  {
    match provider
    case Absent => Some("groq")
    case Null => None
    case Present(p) => Some(p)
  }

  function GenerateManimCode(
    userPrompt: string,
    provider: Field<string>,
    groq: string -> GenerateCodeResponse,
    gemini: string -> GenerateCodeResponse): (r: GenerateCodeResponse)
    // a prompt shorter than ten characters once trimmed is refused before any provider
    ensures |Trim(userPrompt)| < MinPromptLength ==> r == Failure(PromptTooShortError)
    // the default provider is groq, and it receives the prompt as given, untrimmed
    ensures |Trim(userPrompt)| >= MinPromptLength && provider in {Absent, Present("groq")} ==>
              r == groq(userPrompt)
    ensures |Trim(userPrompt)| >= MinPromptLength && provider == Present("gemini") ==>
              r == gemini(userPrompt)
    // any other provider value, `null` included, is refused once the prompt is long enough
    ensures |Trim(userPrompt)| >= MinPromptLength && ProviderName(provider) !in {Some("groq"), Some("gemini")} ==>
              r == Failure(InvalidProviderError)
    // whatever is returned comes from a provider or is one of the two refusals
    ensures r in {groq(userPrompt), gemini(userPrompt), Failure(PromptTooShortError), Failure(InvalidProviderError)}
  {
    if |Trim(userPrompt)| < MinPromptLength then
      Failure(PromptTooShortError)
    else
      match ProviderName(provider)
      case Some("groq") => groq(userPrompt)
      case Some("gemini") => gemini(userPrompt)
      case _ => Failure(InvalidProviderError)
  }

  /** A short prompt gives the same reply whatever the providers would have answered:
      no provider is consulted. */
  lemma ShortPromptConsultsNoProvider(
    userPrompt: string, provider: Field<string>,
    groq1: string -> GenerateCodeResponse, gemini1: string -> GenerateCodeResponse,
    groq2: string -> GenerateCodeResponse, gemini2: string -> GenerateCodeResponse)
    requires |Trim(userPrompt)| < MinPromptLength
    ensures GenerateManimCode(userPrompt, provider, groq1, gemini1)
         == GenerateManimCode(userPrompt, provider, groq2, gemini2)
  {
  }

  /** The route only checks the raw length: ten characters of which nine are spaces pass
      it, yet are refused here. */
  lemma {:induction false} RawLengthPassesTrimmedFails(
    groq: string -> GenerateCodeResponse, gemini: string -> GenerateCodeResponse)
    ensures |"x         "| >= MinPromptLength
    ensures GenerateManimCode("x         ", Absent, groq, gemini) == Failure(PromptTooShortError)
  {
    var p := "x         ";
    assert TrimStart(p) == p;
    assert |Trim(p)| <= 1 by {
      assert forall k :: 1 <= k < |p| ==> IsJsSpace(p[k]);
    }
  }
}
