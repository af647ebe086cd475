# ManimFlow core, modelled in Dafny

ManimFlow turns a natural-language request into Manim scene code with an LLM, then has an external rendering service turn that code into a video. This project models the server and client logic around that pipeline:

- **the render-job lifecycle** over a store of animation records:
  - `generate-code` creates a record with status GENERATING;
  - `render-video` writes RENDERING, then COMPLETED or FAILED depending on how the call to the rendering service ends;
  - `render-callback` applies a terminal write without reading the current status;
  - the `Lifecycle` module runs any sequence of these handlers on one record.
- **code cleaning and provider dispatch**: `cleanManimCode` and `generateManimCode`.
- **the result page** (`ResultContent`):
  - the status flags and the prompt, time and error texts;
  - the polling loop;
  - the download-progress machine.
- **the email-verification flow** over a store of users:
  - `register`, `resend-code`, `check-user` and `verify-code`;
  - `authorize` and the `jwt`/`session` callbacks of the credentials sign-in.
- **account deletion**: collecting the artifact URLs, cleaning them up, then deleting the user with their animations by cascade.
- **the route guards** of `middleware.ts` and `proxy.ts`.
- **the `useTypewriter` step machine**.

The store is a `Store.Database` object. It holds maps from id to animation and from email to user, plus an effect log. The log records the observable steps of a handler in order: writes, calls to the rendering service, mails sent and artifact cleanups. Every route handler is a module-level method that takes the store as a parameter (`db: Database`) and may modify it; its `ensures` states the reply and the whole new state.

Collaborators the model cannot see are parameters:

- the LLM providers are functions;
- the rendering call is an outcome: `Ok`, `NonOk`, `Timeout` or `Error`;
- the clock is `now` in milliseconds;
- `Math.random()` is a real in [0, 1);
- bcrypt is `hash` and `compare`;
- the escape decoding of `decodeURIComponent` is a function;
- whether the mail call returns or throws is a boolean where the route reacts to it.

A JSON body field is a `Field<T>`: absent, `null` or a value. This is what makes the ORM's update rule explicit (`Common.Merge`): `undefined` keeps a column, `null` clears it, a value replaces it.

Where the code and its design notes disagree, the model follows the code:

- `render-video` does not check that the caller owns the record.
- `render-callback` overwrites records that are already terminal.
- A COMPLETED write keeps an earlier `errorMessage`, and a FAILED write keeps an earlier `videoUrl`. So "exactly one of video and error once terminal" does not hold (`Lifecycle.CompletedKeepsEarlierError`, `Lifecycle.FailedKeepsEarlierVideo`).

## Model

| member | source | states |
|---|---|---|
| Provider.GenerateManimCode | lib/llm/provider.ts:15-39 | A missing prompt, or one whose trimmed length is below 10, fails with the "at least 10 characters" message. Otherwise a missing provider or "groq" gives the Groq reply and "gemini" the Gemini reply, each for the untrimmed prompt. Any other provider fails with "Invalid LLM provider selected." |
| Provider.ShortPromptConsultsNoProvider | lib/llm/provider.ts:19-24 | For a too-short prompt the result does not depend on either provider function. |
| Provider.RawLengthPassesTrimmedFails | lib/llm/provider.ts:19 | "x" followed by nine spaces has raw length 10, so it passes the route's check, but the generator refuses it. |
| Prompts.StripFence | lib/llm/prompts.ts:339-340 | Deleting every fence (with an optional newline) never lengthens the text and leaves a fence-free text alone. |
| Prompts.CleanManimCode | lib/llm/prompts.ts:338-352 | The result is trimmed and is a suffix of the fence-stripped, trimmed text. It is that text unchanged when the text starts with "from manim". Otherwise, if the text contains "from manim import *", the result starts with that phrase at its first occurrence. Otherwise the trimmed text is returned. |
| Prompts.StripFenceNoBackquote | lib/llm/prompts.ts:339-340 | A text without a backquote has no fence to strip. |
| Prompts.CleanFixpoint | lib/llm/prompts.ts:338-352 | A trimmed, backquote-free text that starts with "from manim" is returned unchanged. |
| GenerateCode.NewRecord | app/api/ai/generate-code/route.ts:61-69 | The inserted record has status GENERATING, the session user as owner, prompt and code verbatim, model or "unknown", and no artifacts or error. |
| GenerateCode.Post | app/api/ai/generate-code/route.ts:7-105 | The checks answer in this order: 401, 400 "Invalid prompt", 400 "Prompt too short" (raw length). A failed or empty generation gives 500 with the generator's error or "Failed to generate the code". An id already in use makes the insert throw: 500 "Internal server error while generating code". A record is created exactly when every check passes and the id is fresh. It is then the only change, and the reply carries its id and the stored code. |
| RenderVideo.Quality | app/api/ai/render-video/route.tsx:26 | A missing quality becomes "l". A given quality is forwarded unchanged. |
| RenderVideo.ThrownMessage | app/api/ai/render-video/route.tsx:66-69 | The message of the 500 reply: the body of a non-2xx reply, or "Failed to render video" when that body is empty. Otherwise it is the error's own message. |
| RenderVideo.StoredError | app/api/ai/render-video/route.tsx:104-112 | A timeout stores the fixed "timed out" text. Any other failure stores the thrown message. |
| RenderVideo.MarkRendering | app/api/ai/render-video/route.tsx:40-47 | The first write changes only the status, to RENDERING. |
| RenderVideo.MarkCompleted | app/api/ai/render-video/route.tsx:73-83 | The success write changes only the status, video, thumbnail and duration; the error message stays. |
| RenderVideo.MarkFailed | app/api/ai/render-video/route.tsx:104-112 | The failure write changes only the status and the error message. |
| RenderVideo.AfterRender | app/api/ai/render-video/route.tsx:40-115 | Whatever the prior status, the record ends terminal, and it is COMPLETED exactly on a 2xx reply. The job's identity is kept. A failure keeps the artifacts, and a success keeps the old error. |
| RenderVideo.Post | app/api/ai/render-video/route.tsx:12-128 | 401 without a session and 400 without id or code, with nothing written or called in either case. An unknown id gives 500 with the store's error message (`notFound`) and nothing written. Otherwise the log holds the RENDERING write, then the service call with the code and quality, then the terminal write. The reply is 200 with the artifacts, or 500 with the thrown message. |
| RenderCallback.FailureText | app/api/ai/render-callback/route.ts:61 | The failure message is `error`, or "Video rendering failed" when `error` is missing or empty. |
| RenderCallback.ApplyCallback | app/api/ai/render-callback/route.ts:37-64 | A true `success` writes COMPLETED with the three artifact fields and nothing else. Otherwise the write is FAILED with the failure message and nothing else. |
| RenderCallback.StatusNotRead | app/api/ai/render-callback/route.ts:37-64 | The write is the same whatever status the record had. |
| RenderCallback.DuplicateDeliveryIdempotent | app/api/ai/render-callback/route.ts:37-64 | Delivering the same payload twice gives the record one delivery gives. |
| RenderCallback.LaterCallbackWins | app/api/ai/render-callback/route.ts:37-64 | The later of two callbacks decides the terminal status. |
| RenderCallback.Post | app/api/ai/render-callback/route.ts:6-79 | A configured secret that the header does not match gives 401; without a secret every request proceeds. A missing id gives 400, and an unknown id gives 500 with the store's error message (`notFound`); neither writes. Otherwise there is one terminal write, and 200 with `success: true` on both branches. |
| Lifecycle.Writes | app/api/ai/render-callback/route.ts:37-64 | Every handler run writes a terminal status. |
| Lifecycle.RunSnoc | app/api/ai/render-video/route.tsx:40-115 | A run of several steps applies the last step to the record the earlier steps left. |
| Lifecycle.LastWriteWins | app/api/ai/render-callback/route.ts:37-64 | After any history, the last step alone decides the status. |
| Lifecycle.RunEndsTerminal | app/api/ai/render-video/route.tsx:40-115 | After at least one step the record is COMPLETED or FAILED. |
| Lifecycle.RunKeepsIdentity | app/api/ai/render-video/route.tsx:73-112 | No sequence of steps changes id, owner, prompt, code or model. |
| Lifecycle.CompletedKeepsEarlierError | app/api/ai/render-video/route.tsx:73-83 | A failed render followed by a successful one leaves a COMPLETED record that still has the old error message. |
| Lifecycle.FailedKeepsEarlierVideo | app/api/ai/render-callback/route.ts:55-64 | A successful render followed by a failure callback leaves a FAILED record that still has its video. |
| ResultContent.IsRendering | components/ResultContent.tsx:62-64 | The spinner shows exactly while the status is not terminal (GENERATING or RENDERING). |
| ResultContent.ExactlyOneView | components/ResultContent.tsx:62-66 | Each status selects exactly one of the rendering, completed and failed views. |
| ResultContent.TruncatePrompt | components/ResultContent.tsx:68-71 | Text up to maxLength (default 50) is unchanged. Longer text becomes its first maxLength characters followed by ".....", so the result is at most maxLength + 5 long. |
| ResultContent.FormatTime | components/ResultContent.tsx:288-293 | The text ends in "s". Below a minute only digits come before it. From a minute on, the digits of the minutes come first, then the marker "m ", then the digits of the seconds. |
| ResultContent.FormatTimeParts | components/ResultContent.tsx:288-293 | Below a minute the number before "s" is the seconds. From a minute on, the number before "m " is the whole minutes (seconds div 60), and the number after it is the remaining seconds (seconds mod 60, below 60). |
| ResultContent.FormatTimeRoundTrip | components/ResultContent.tsx:288-293 | Reading the text back gives the seconds for every non-negative time, so no two times share a text. |
| ResultContent.GetSimplifiedError | components/ResultContent.tsx:233-283 | A null or empty error gives "Unknown Error" with empty technical text. Any other error keeps the raw text as `technical`. |
| ResultContent.FirstMatch | components/ResultContent.tsx:236-283 | Rules are tried in order with the "Rendering Error" fallback, and the raw text is always kept. |
| ResultContent.ChainIsRuleTable | components/ResultContent.tsx:236-283 | The page's chain of tests equals the rule table read first match first: parentheses, LaTeX, dependency, syntax, type, fallback. |
| ResultContent.ParenthesesBeforeSyntax | components/ResultContent.tsx:236-243 | A text with ".get_center" and "SyntaxError" is a missing-parentheses error. |
| ResultContent.LatexNeedsMissingFile | components/ResultContent.tsx:246 | Without "FileNotFoundError" the LaTeX rule never applies. |
| ResultContent.ResultView.constructor | components/ResultContent.tsx:45-60 | The initial state: elapsed 0, estimate 60, count 0, download idle at 0. Polling runs exactly when the record still renders. |
| ResultContent.ResultView.PollStatus | components/ResultContent.tsx:74-96 | A successful reply with data replaces the record, and the new status is returned. The elapsed time is updated only for a truthy `elapsedSeconds`, and the estimate only when the field is defined. A failed or empty reply changes nothing and returns null. |
| ResultContent.ResultView.SettlePolling | components/ResultContent.tsx:99-115 | The effect depends only on the rendering flag. After a poll, a running interval survives exactly while the view still renders, a cleared one is never restarted, and no interval runs on a view that does not render. |
| ResultContent.ResultView.PollOnMount | components/ResultContent.tsx:99-103 | The immediate poll happens only while rendering. A successful poll replaces the record and updates the elapsed time (only when truthy) and the estimate (only when defined). Without a running interval, or after a failed or empty poll, record and estimates stay as they were. Afterwards polling continues exactly when the new status still renders. |
| ResultContent.ResultView.Tick | components/ResultContent.tsx:105-115 | Each tick of a running interval increments the count. A successful poll replaces the record and updates the elapsed time (only when truthy) and the estimate (only when defined), and a terminal status stops polling. A stopped interval does not tick: record, estimates and count stay as they were. A failed or empty poll leaves the record and the estimates as they were, and the interval runs on. |
| ResultContent.ResultView.HandleDownload | components/ResultContent.tsx:165-180 | A download starts only from idle with a video URL. It sets progress to 0 and starts the progress interval and the fetch; otherwise nothing changes. |
| ResultContent.ResultView.ProgressTick | components/ResultContent.tsx:172-180 | Progress rises by 10 per tick; at 90 the interval clears itself, and the page invariant is kept. |
| ResultContent.ResultView.FetchSucceeded | components/ResultContent.tsx:182-207 | The interval is cleared, progress jumps to 100, the status becomes downloaded, and the two reset timeouts are scheduled. |
| ResultContent.ResultView.FetchFailed | components/ResultContent.tsx:208-212 | A failed fetch returns to idle at 0, with every scheduled callback cleared (the corrected handling, see Findings). |
| ResultContent.ResultView.FetchFailedAsWritten | components/ResultContent.tsx:171-212 | A failed fetch returns to idle at 0, but the progress interval keeps running. |
| ResultContent.ResultView.CompleteTimeout | components/ResultContent.tsx:199-201 | The 1.5 s timeout marks the download complete. |
| ResultContent.ResultView.ResetTimeout | components/ResultContent.tsx:204-207 | The 1.6 s timeout returns to idle at 0. |
| ResultContent.LeakedProgressAfterFailure | components/ResultContent.tsx:171-212 | As written, a failed download followed by one interval tick shows an idle button with progress 10. |
| ResultContent.NoProgressAfterFailure | components/ResultContent.tsx:165-212 | With the interval cleared on failure, the idle button stays at 0 after any number of ticks. |
| DeleteAccount.RowUrls | app/api/auth/delete-account/route.tsx:35-36 | Each animation contributes its truthy video URL, then its truthy thumbnail URL: at most two, both non-empty. |
| DeleteAccount.CollectArtifactUrls | app/api/auth/delete-account/route.tsx:33-37 | The loop builds exactly the row-by-row URL list. |
| DeleteAccount.ArtifactUrlsAppend | app/api/auth/delete-account/route.tsx:34-37 | The list follows the order of the animations. |
| DeleteAccount.ArtifactUrlsNonEmpty | app/api/auth/delete-account/route.tsx:35-36 | The list never holds an empty or null entry. |
| DeleteAccount.ArtifactUrlsLength | app/api/auth/delete-account/route.tsx:33-37 | The list is at most twice as long as the animations. It is exactly twice as long if and only if every animation has both URLs. |
| DeleteAccount.ArtifactUrlsComplete | app/api/auth/delete-account/route.tsx:33-37 | Every truthy URL of every animation is in the list. |
| DeleteAccount.OwnedRows | app/api/auth/delete-account/route.tsx:22-30 | One row per listed animation, with its two URL columns. |
| DeleteAccount.WithoutUser | app/api/auth/delete-account/route.tsx:45-49 | Exactly the user with the session id is removed. |
| DeleteAccount.WithoutOwnedBy | app/api/auth/delete-account/route.tsx:44-49 | Exactly that user's animations are removed, by cascade. |
| DeleteAccount.Cleanup | app/api/auth/delete-account/route.tsx:40-42 | The cleanup is called only for a non-empty list. |
| DeleteAccount.Delete | app/api/auth/delete-account/route.tsx:6-72 | 401 "Unauthorized!!" without a session, with nothing deleted. Otherwise the cleanup is logged first. A known user is then deleted with their animations and the reply is 200. When the delete throws, the reply is 500 "Internal Server Error while deleting account!!" and the cleanup has already happened. |
| VerificationCodes.CodeNumber | app/api/auth/register/route.ts:33 | The drawn number lies in [100000, 999999]. |
| VerificationCodes.NewCode | app/api/auth/register/route.ts:33 | The code is a string of six digits that reads back as the drawn number. |
| VerificationCodes.CodeExpiry | app/api/auth/register/route.ts:34 | The expiry is later than now (now plus 15 minutes). |
| VerificationCodes.WithCode | app/api/auth/resend-code/route.ts:33-41 | A code refresh changes only the code and the expiry. |
| VerificationCodes.MarkVerified | app/api/auth/verify-code/route.ts:39-48 | Success sets emailVerified, clears code and expiry, and changes nothing else. |
| VerificationCodes.Decide | app/api/auth/verify-code/route.ts:33-77 | Verified if and only if the code matches and has not expired (an expiry equal to now is still current). InvalidCode if and only if the code differs, even when it has also expired. ExpiredCode if and only if it matches but has expired. The "Unable to verify email" fallback is never reached. |
| VerificationCodes.FreshCodeWindow | app/api/auth/verify-code/route.ts:34-36 | A new code is accepted up to and including its expiry instant, and refused as expired 1 ms later. |
| VerificationCodes.NoReplay | app/api/auth/verify-code/route.ts:33-46 | After a successful verification any resubmitted code is invalid. |
| VerificationCodes.NewCodeReplacesOld | app/api/auth/resend-code/route.ts:33-41 | After a refresh, the previous code is invalid. |
| VerifyCode.MissingEmailPassesAsWritten | app/api/auth/verify-code/route.ts:7-16 | As written, a request without an email (or with `null`) passes the 400 check and is looked up under "undefined" (or "null"). |
| VerifyCode.Guard | app/api/auth/verify-code/route.ts:5-16 | Corrected check: a missing email gets 400 and a missing code is never looked up. For a present email the route's own checks decide. |
| VerifyCode.Respond | app/api/auth/verify-code/route.ts:18-77 | Given what the checks decided: 400 or 500 from the checks and 404 for an unknown user, none of them writing. A right, current code writes the verification (code and expiry cleared) and gives 200. A wrong code gives "Invalid verification code" and an expired one "Verification code has expired", neither writing. |
| VerifyCode.Post | app/api/auth/verify-code/route.ts:3-88 | The route as written: the reply and new state are those of `Respond` for the as-written checks, so a body without an email is looked up under "undefined". |
| VerifyCode.PostIntended | app/api/auth/verify-code/route.ts:3-88 | The route with the corrected checks: a body without an email gets 400 and is never looked up. |
| VerifyCode.MissingEmailReplies | app/api/auth/verify-code/route.ts:7-31 | For `{"code": c}` with no user registered under "undefined", the route as written answers 404 "User not found", the corrected route 400, and neither writes. |
| Register.NewUser | app/api/auth/register/route.ts:38-47 | The new user is unverified, stores the hashed password and the new code and expiry. |
| Register.Post | app/api/auth/register/route.ts:5-83 | 400 "All fields are required" without name, email or password. 400 "User with this email already exists" for an email the lookup finds, and also when the insert is refused as a unique violation (P2002) because the new id is in use. Otherwise the user is created, then the mail is sent whatever its outcome. The reply is 201 with email and name only. |
| ResendCode.Post | app/api/auth/resend-code/route.ts:4-63 | 400 without an email and 404 for an unknown user, with nothing written. For a known user, verified or not, only the code and expiry are overwritten. The reply is 200 when the mail call returns, whatever it reports, and 500 when it throws; the new code stays stored either way. |
| CheckUser.Post | app/api/auth/check-user/route.ts:4-72 | 400 with exists and verified false without an email. An unknown user gives exists false, verified false, and nothing is written. For an existing user the reply is exists true with the stored verified flag. Only an unverified user's code and expiry are refreshed. |
| Auth.Public | lib/auth.ts:83-88 | The signed-in user is id, name, email and emailVerified, with no password. |
| Auth.Authorize | lib/auth.ts:23-89 | It throws without email or password, and for an unknown email, with no write. An unverified user gets a new code and expiry and the "UNVERIFIED:<email>" error before any password check. A verified user with a wrong password gets "Invalid password" and no write. Whoever signs in is verified. |
| Auth.Coerce | lib/auth.ts:98 | `!!emailVerified` is true only for a present `true`. |
| Auth.ToJwtUser | lib/auth.ts:83-98 | The user handed to the `jwt` callback carries the same id, email, name and verified flag. |
| Auth.Token.Jwt | lib/auth.ts:93-101 | With a user, it copies id, email and name and stores a coerced boolean; without one, the token is unchanged. |
| Auth.SessionUser.Session | lib/auth.ts:102-110 | The session user gets the token's claims as they are. |
| Auth.SignIn | lib/auth.ts:23-110 | After a successful sign-in and both callbacks, the session carries the stored id, email and name and says the email is verified. A refused sign-in leaves no claims. |
| Middleware.Decide | middleware.ts:4-40 | A signed-in user goes to /dashboard from "/", /signin, /signup and /verify-code, and from a single-segment result page without an allowed referer. A visitor goes to /signin from /dashboard, /result, /playground and /profile. Everything else passes. A signed-in user is never sent to /signin, and a visitor never to /dashboard. |
| Middleware.ResultPathNotGuestOnly | middleware.ts:8-29 | Result pages never fall under the guest-only rule. |
| Middleware.NestedResultPathIgnoresReferer | middleware.ts:29 | /result/a/b passes for a signed-in user whatever the referer. |
| Proxy.Decide | proxy.ts:4-29 | The same first two rules and no referer check. |
| Proxy.AgreesWithMiddleware | proxy.ts:8-28 | Proxy and middleware differ if and only if a signed-in request for a result detail page has a missing or foreign referer. |
| Typewriter.Shown | hooks/useTypewriter.ts:49-51 | The text is always a prefix of the phrase, of length subIndex when that is in range, and the whole phrase from its length on. |
| Typewriter.Typewriter.constructor | hooks/useTypewriter.ts:9-12 | It starts at the first phrase, position 0, typing, with an empty text. |
| Typewriter.Typewriter.Step | hooks/useTypewriter.ts:14-51 | An out-of-range index resets to 0. At one past the phrase's end while typing, the machine switches to erasing. At 0 while erasing, it moves to the next phrase cyclically. Otherwise the position moves by one. The text follows the position, and the invariant (index in range, position in 0..length+1, text the shown prefix) is kept. |
| Typewriter.Typewriter.Cycle | hooks/useTypewriter.ts:14-47 | From the start of a phrase, 2·length + 4 steps type it, erase it and reach the start of the next phrase. |

## Left out

- Network, SDKs and I/O are not modelled:
  - the fetch to the rendering service and its abort timer, which is an outcome value;
  - the LLM SDK wrappers and the system prompt;
  - nodemailer, S3, bcrypt, `Math.random` and `Date.now`, which are parameters;
  - `decodeURIComponent`'s escape decoding, which is a parameter; text without `%` is passed through as JavaScript does.
- The asynchronous dispatch mode and callback-URL construction described for the rendering service, and the status endpoint the result page polls, are not part of this model. The model covers only the result page's reaction to a poll reply.
- Concurrency is not modelled. Handlers run one at a time, each as a whole. A store write that fails after an earlier write of the same handler succeeded (say, a record deleted mid-render) is not modelled.
- ResultContent.ResultView.SettlePolling: each status poll is one atomic step, request and reply together. In the page, the mount-time `pollStatus()` is not awaited, and a tick's poll can still be in flight after `clearInterval`. A stale RENDERING reply that arrives after a terminal one sets `isRendering` again and restarts the polling effect. Such overlapping polls are not modelled, so "a cleared interval is never restarted" holds only for polls that do not overlap.
- Only string JSON values are modelled. A number or object where the routes expect a string, and a non-boolean `success` in the callback body, are not.
- `createdAt`, the floating-point progress percentage of the rendering view, the confetti and the display-only timers of the result page are left out.
- Time is in whole milliseconds and the random draw is an exact real. Floating-point rounding in `Math.floor(100000 + Math.random() * 900000)` is not modelled.
- ResultContent.FormatTime: only whole seconds are modelled; a fractional `elapsedSeconds` is not.
- Text lengths and positions are counted in Unicode scalar values (Dafny `char`), not in the UTF-16 code units of JavaScript's `.length` and `.substring`, so text outside the Basic Multilingual Plane measures differently. This affects the members below.
- GenerateCode.Post: the prompt-length check counts characters, not UTF-16 code units, so a prompt of astral characters (emoji) measures shorter than in JavaScript.
- Provider.GenerateManimCode: the trimmed-length check counts characters, not UTF-16 code units.
- ResultContent.TruncatePrompt: the cut is made after 50 characters, not 50 UTF-16 code units, so the model never splits a surrogate pair as the source can.
- Typewriter.Typewriter.Step: the position moves by one character, not one UTF-16 code unit, so an astral character takes one step where the source takes two.
- Typewriter.Typewriter.Cycle: the count 2·length + 4 is in characters; with UTF-16 lengths a phrase with astral characters takes more steps.
- ResultContent.ResultView.ResetTimeout: the two timeouts are assumed to fire in their scheduled order (1500 ms before 1600 ms).
- ResendCode.Post: the service's `success` flag is not read, so a delivery failure that the mail service reports gives 200; only a throw reaches the 500. The mail service itself is not part of this model.
- Register.Post: the only insert failure modelled is an id already in use; any other error of the insert (500) is not.
- Register.Post: the hash is an opaque function, so the model states that the hash is stored but not that it differs from the plaintext.
- GenerateCode.Post: the "Failed to create animation record" branch is not modelled, because the ORM's `create` never returns null.
- GenerateCode.Post: the only insert failure modelled is an id already in use.
- RenderVideo.Post: the 500 reply for an unknown id carries the store's own error message, which is a parameter (`notFound`); its text is not modelled.
- RenderCallback.Post: the 500 reply for an unknown id carries the store's own error message, which is a parameter (`notFound`); its text is not modelled.
- VerifyCode.Post: models the route as written, so a body without an email (or with `null`) is looked up under "undefined" (or "null"); `VerifyCode.PostIntended` is the corrected route.
- DeleteAccount.Delete: the order in which the store lists a user's animations is a parameter that names exactly those animations once each.
- Middleware.Decide: the `matcher` patterns are kept as constants; Next.js path matching, which decides whether the guard runs at all, is not modelled.
- Typewriter.Typewriter.Step: in the commit where the index has run past the end of the list, the text effect evaluates `phrases[index]` before the reset takes effect. That value is `undefined`, so `.substring` throws a TypeError. The model does not throw there; it shows the prefix of the reset phrase instead.
- Typewriter.Typewriter.Step: typing and erasing speeds and the pause only time the steps and are left out.
- Typewriter.Typewriter.constructor: an empty phrase list is excluded, since the text effect then fails.
- Auth.Authorize: how NextAuth passes the thrown message to the sign-in page is not modelled.

## Findings

| source | as written | input that shows it | evidently intended | confidence | as-written member | corrected member |
|---|---|---|---|---|---|---|
| app/api/auth/verify-code/route.ts:7-16 | The email is passed through `decodeURIComponent` before the `!decodeEmail` check, so a missing email becomes the truthy text "undefined" | body `{"code": "123456"}` | 400 "Email and code are required" | not executed; high | VerifyCode.Post | VerifyCode.PostIntended |
| components/ResultContent.tsx:171-212 | `progressInterval` is a constant of the `try` block, so the `catch` cannot clear it, and it keeps raising progress on an idle button | the video fetch rejects, then 200 ms pass | a failed download leaves the button idle at 0 | not executed; high | ResultContent.LeakedProgressAfterFailure | ResultContent.NoProgressAfterFailure |
