# Gamer icon generator — verified model of its core

The application is a one-page form. The user picks one of seven visual styles and types a
nickname. An external image API then draws an avatar, which the page shows together with a
download link. This project models the three pieces of the page and its service that hold
logic, and proves properties of them in Dafny:

* **the generation handler** (`handleGenerate` in `App.tsx`). It is the class `App.AppState`,
  with the page's five state fields: `nickname`, `selectedStyle`, `generatedImage`,
  `isLoading` and `error`.
  * `Start` runs the handler up to its `await`: the guard, the reset and the style lookup.
    It returns the call that `generateIcon` receives, if there is one.
  * `Complete(outcome)` is the rest: the `catch` and the `finally`.
  * `HandleGenerate` and `HandleKeyPress` run the whole handler. The awaited service is a
    function parameter.
  * Two invariants are preserved throughout. `Exclusive`: at most one of loading, image
    and error holds. `StyleOffered`: the selected style is in the table.
* **the download file name** (`App.tsx` line 155). Modules `Text` and `DownloadName`:
  trim, collapse every whitespace run to `_`, fall back to `gamer`, and wrap the result as
  `icone_….png`.
* **the image service** (`services/geminiService.ts`). Module `GeminiService` models
  `generateIcon` as a pure function:
  * the guards on nickname, style and API key, in that order;
  * the prompt template and the request for one square PNG;
  * the check of the first returned image;
  * the `data:image/png;base64,` URI;
  * the `catch` that rethrows Errors and wraps every other thrown value.

  The API key is an `Option<string>` parameter. The image API is a parameter too: a total
  function from the call made to how that call ends (a response or a thrown value).

Thrown values are `Outcomes.Thrown`: either `Error(message)` or `NonError`. The `catch`
blocks only ask `instanceof Error`. JavaScript's `trim()` and `\s` use one whitespace set,
`Text.IsSpace`: the ECMAScript WhiteSpace and LineTerminator characters, with the
space-separator category as of Unicode 15.

## Model

| member | source | states |
|---|---|---|
| `Text.TrimStart` | App.tsx:155 | the result is the longest suffix that does not start with whitespace; every dropped character is whitespace |
| `Text.TrimEnd` | App.tsx:155 | the result is the longest prefix that does not end with whitespace; every dropped character is whitespace |
| `Text.Trim` | App.tsx:155 | `trim()`: the result is a piece of the input with only whitespace before and after it; it is empty exactly when the input is all whitespace; otherwise it starts and ends with non-whitespace; a string without whitespace is returned unchanged |
| `Text.TrimIsTheOnlyPiece` | App.tsx:155 | any piece of the input with only whitespace around it that starts and ends with non-whitespace is what `trim()` returns, so `Trim`'s contract fixes its result |
| `Text.TrimIdempotent` | App.tsx:155 | trimming a trimmed string changes nothing |
| `Text.CollapseRuns` | App.tsx:155 | `replace(/\s+/g, '_')`: the result has no whitespace and is no longer than the input; it is empty only for empty input; a string without whitespace is returned unchanged |
| `Text.CollapseRunsIsUnderscored` | App.tsx:155 | the run-by-run replacement equals an independent one-character-at-a-time reading: a whitespace character becomes `_` unless whitespace precedes it, in which case it is dropped |
| `Text.TrimStartSkipsSpace` | App.tsx:155 | a leading whitespace character is always trimmed |
| `Text.CollapseRunsKeepsWord` | App.tsx:155 | a leading word without whitespace is copied through the replacement unchanged |
| `DownloadName.Slug` | App.tsx:155 | the slug is never empty and has no whitespace; a blank nickname gives `gamer`; otherwise it is the collapsed trimmed nickname; a nickname without whitespace is kept as it is |
| `DownloadName.FileName` | App.tsx:155 | the file name is `icone_`, then the slug, then `.png`, and it is longer than the two fixed parts |
| `DownloadName.SlugIgnoresSurroundingSpace` | App.tsx:155 | whitespace around the nickname never changes the slug |
| `DownloadName.SlugOfTwoWords` | App.tsx:155 | two words separated by one whitespace character are joined by one `_` |
| `DownloadName.DarkKnightExample` | App.tsx:155 | `"Dark Knight"` gives `icone_Dark_Knight.png` |
| `DownloadName.BlankExample` | App.tsx:155 | `"   "` gives `icone_gamer.png` |
| `Styles.Find` | App.tsx:31 | `styles.find` by name: the result is absent exactly when no entry has that name; otherwise it is an entry with that name, and no earlier entry has the name |
| `Styles.NamesDistinct` | App.tsx:6-18 | the seven style names are pairwise distinct, and the initial selection `Fantasia` is one of them |
| `Styles.DescriptionsNonEmpty` | App.tsx:6-14 | every style description is non-empty |
| `Styles.FindEntry` | App.tsx:31 | looking up the name of any table entry finds that same entry |
| `GeminiService.GetAiClient` | services/geminiService.ts:3-9 | a client is built exactly when the key is present and non-empty, and it carries that key; otherwise the fixed API_KEY error is thrown |
| `GeminiService.Prompt` | services/geminiService.ts:21 | the prompt is the fixed opening, then the nickname verbatim, then the fixed text ending in "Estilo visual: ", then the style verbatim, then the fixed closing |
| `GeminiService.Request` | services/geminiService.ts:23-31 | the request names the fixed model and carries the prompt; it asks for exactly one image, MIME type `image/png`, aspect ratio `1:1` |
| `GeminiService.FirstImageBytes` | services/geminiService.ts:33-37 | a payload is found exactly when the response has a first generated image whose `image.imageBytes` is present and non-empty, and it is that string |
| `GeminiService.OnlyFirstImageMatters` | services/geminiService.ts:33 | images after the first never affect what is found |
| `GeminiService.DataUri` | services/geminiService.ts:39-40 | the URI is the PNG base64 prefix followed by the payload; stripping the prefix gives back the payload unchanged |
| `GeminiService.Payload` | services/geminiService.ts:40 | a payload is read back exactly from strings that start with the PNG base64 prefix |
| `GeminiService.DataUriOfPayload` | services/geminiService.ts:40 | a string that has a payload is exactly the data URI of that payload |
| `GeminiService.Rethrown` | services/geminiService.ts:42-48 | the `catch` always throws an Error; an Error is rethrown unchanged; any other value becomes the communication-failure Error |
| `GeminiService.Attempt` | services/geminiService.ts:19-40 | the `try` body: an unusable key throws the key error; otherwise the one request goes to a client with that key, a thrown answer is passed on as it is, a response without image bytes throws the no-image error, and a response with them gives their data URI. A success needs a usable key and carries a non-empty payload |
| `GeminiService.RequestSent` | services/geminiService.ts:11-31 | a request is sent exactly when nickname and style are non-empty and the key is usable; it goes through a client with that key and carries the template request |
| `GeminiService.GenerateIcon` | services/geminiService.ts:11-48 | an empty nickname throws the nickname error; then an empty style throws the style error; then an unusable key throws the key error. Once the request is sent, a thrown answer is rethrown or wrapped. A response without image bytes throws the no-image error. Otherwise the result is a data URI of the first image's bytes. Only Errors are ever thrown, and a success is never the bare prefix |
| `GeminiService.GenerateIconConsultsApiOnlyForRequestSent` | services/geminiService.ts:11-31 | if no request is sent, the result is the same whatever the API would answer; if one is sent, only the answer to that request matters |
| `App.ErrorMessage` | App.tsx:37-43 | an Error shows its own message; any other thrown value shows the fixed unexpected-error text |
| `App.AppState.constructor` | App.tsx:17-21 | the page opens with an empty nickname and `Fantasia` selected; there is no image, no loading and no error, and both invariants hold |
| `App.AppState.SetNickname` | App.tsx:92-98 | typing sets the nickname, except while loading, when the input is disabled |
| `App.AppState.SelectStyle` | App.tsx:72-76 | a style button selects the name of its table entry, except while loading; the selection stays within the table |
| `App.AppState.Start` | App.tsx:24-34 | the guard's `!nickname.trim()` is stated as `AllSpace(nickname)`, the same test by `Text.Trim`'s contract. A blank nickname or a generation in flight changes nothing and calls nothing. Otherwise the previous image is cleared. An unknown style ends with the invalid-style message, loading off and no call; while the selection is a table name (which the constructor and `SelectStyle` keep) that branch is never taken. A known style starts loading with no error, and the service is called with the nickname as typed and that style's description. `Exclusive` is preserved |
| `App.AppState.Complete` | App.tsx:35-46 | loading always ends. A returned string becomes the image, with no error. A thrown value becomes the `catch` message, with no image. Nickname and style are unchanged, and image and error are never both set |
| `App.AppState.HandleGenerate` | App.tsx:23-47 | the whole handler, given the service's answer. Nickname and style never change, a blank nickname or a run in progress changes nothing, and otherwise loading is off at the end. The outcome is the invalid-style error, the returned image or the `catch` message. Both invariants are preserved |
| `App.AppState.HandleKeyPress` | App.tsx:49-53 | Enter runs the whole handler; any other key changes nothing |
| `App.AppState.ExactlyOnePanel` | App.tsx:123-151 | whenever `Exclusive` holds, exactly one of loading, error, image and placeholder is shown, and the download link is shown exactly with the image |
| `App.PageCallsPassServiceGuards` | App.tsx:35 | the calls the page makes (non-blank nickname, a table description) never fail the service's input guards: a request is sent exactly when the key is usable, and the key error is the only failure before a request. Every failure reaches the page as an Error, so the page's fallback text is never chosen |

## Left out

- The React rendering: JSX layout, styling, the inline CSS keyframes and the icon components. Only the visibility conditions of the result area and the download link are stated, as predicates over the state.
- Asynchrony: the handler is modelled as `Start` followed by `Complete`, with nothing in between. React's batching of state updates and the stale `useCallback` closure are not modelled, and neither is a second trigger between the two halves (a double-click race). `Complete` requires the state `Start` leaves: loading, with neither image nor error.
- The real `GoogleGenAI` client and its `generateImages` call are foreign code. The model passes the API in as a function from the call to its outcome. It does not model what the API does.
- Reading `process.env.API_KEY` is replaced by an `Option<string>` parameter.
- `console.error` logging has no observable state in the model.
- Base64 validity of `imageBytes`: the service never decodes or checks it.
- Safety-block reasons and text-only responses: the service does not handle them. It only looks for `imageBytes` in the first generated image.
- `Text.IsSpace` fixes the whitespace set at Unicode 15's space separators. Later Unicode versions could add characters to it.
