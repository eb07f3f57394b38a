# AI ad generator: verified model of the generation core

The application takes a product photo and a short brief and asks Google's
image model for two advertising images. It is a React app. This project
models the three pieces of it that hold logic:

- **The image service** (`services/geminiService.ts`), module `GeminiService`:
  - `createPrompt`: the Portuguese prompt template. It holds the keywords,
    target audience, description and aspect ratio, one of two human-presence
    sentences, and the variation number.
  - `fileToGenerativePart`: the `split(',')[1]` extraction of the base64
    payload from the reference image's data URL.
  - The request sent for each variation.
  - The part search of `generateSingleImage`. It looks at the first
    candidate only and returns the data of its first inline part, or fails
    with the fixed "A API não retornou uma imagem…" error. It is a method
    with the source's loop, proved equal to the specification function
    `SingleImage`.
  - `generateAdImages`: all-or-nothing over variations 1 and 2, in that
    order.
- **The form component** (`App.tsx`), class `App.AppState`:
  - The state hooks become fields.
  - `isFormValid` is a predicate.
  - `handleFileChange` is a method.
  - `handleSubmit` moves `isLoading`, `error` and `generatedImages`
    through their fixed sequence. The `await` splits it into `BeginSubmit`
    (before the call) and `CompleteSubmit` (the `try`/`catch`/`finally`
    after it). `HandleSubmit` runs both around the service.
- **The loading indicator** (`components/Loader.tsx`), class
  `Loader.LoaderState`: the rotating `message` state and its timer step
  `(indexOf(prev) + 1) % length`.

Supporting modules:

- `Types`: the aspect ratio enum and the creative request.
- `JsText`: the JavaScript runtime behaviour the core relies on, written out:
  - template-literal interpolation;
  - a non-negative integer rendered as decimal text;
  - `String.prototype.split` on one character;
  - `Array.prototype.indexOf`.
- `Wrappers`: `Option` and `Result`.

The remote `generateContent` call is a parameter. `service` is a function
from the request the core sends to either the response or the message of the
exception the call throws. The prompt properties are proved for any wording
of the fixed text (`PromptTemplate`). `SourceTemplate` holds the wording the
service uses, and `CreatePrompt` is the prompt with that wording.

## Model

| member | source | states |
|---|---|---|
| Types.AspectRatioText | types.ts:2 | maps Square, Landscape and Portrait to "1:1", "16:9" and "9:16", the three strings of the union type; the contract states that the text has 3 or 4 characters and contains a colon |
| Types.AspectRatioTextInjective | types.ts:2 | different aspect ratios are written as different texts |
| JsText.Render | services/geminiService.ts:24-39 | a template literal: fixed piece 0, value 0, fixed piece 1, ..., value n-1, fixed piece n, concatenated in that order |
| JsText.RenderSplit | services/geminiService.ts:24-39 | a rendered template literal is the text before fixed piece i followed by the rendering of the pieces and values from i on |
| JsText.RenderAt | services/geminiService.ts:24-39 | a rendered template literal is the text before piece i, piece i, value i, then the rest of the template |
| JsText.SlotHolds | services/geminiService.ts:24-39 | each interpolated value stands verbatim at its slot and is followed by the rest of the template |
| JsText.MarkerBeforeSlot | services/geminiService.ts:38 | a marker that ends the piece before a slot stands right before that slot's value, as "variação #" before `${variation}` |
| JsText.BeforeIgnoresLaterValues | services/geminiService.ts:24-39 | the text before a piece, and so where a value is placed, depends only on the pieces and values before it |
| JsText.OccursExcludes | services/geminiService.ts:31 | two texts whose first characters differ cannot both stand at one position |
| JsText.NumberToString | services/geminiService.ts:38 | `${variation}` is non-empty decimal digits, with no leading zero unless the number is 0 |
| JsText.NumberToStringRoundTrip | services/geminiService.ts:38 | reading the rendered digits back gives the number again |
| JsText.NumberToStringInjective | services/geminiService.ts:38 | different numbers render as different texts |
| JsText.Split | services/geminiService.ts:15 | `split(',')` gives at least one piece, no piece contains the separator, and there is exactly one piece iff the separator does not occur |
| JsText.SplitJoin | services/geminiService.ts:15 | joining the pieces with the separator gives the original text back |
| JsText.SplitAfterPlainPrefix | services/geminiService.ts:15 | a separator-free prefix is glued onto the first piece and the other pieces are unchanged |
| JsText.IndexOf | components/Loader.tsx:20 | `indexOf` gives -1 iff the element is absent; otherwise the position of its first occurrence |
| GeminiService.DataUrlPayload | services/geminiService.ts:15 | `split(',')[1]` is undefined exactly when the data URL has no comma, and a payload never contains a comma |
| GeminiService.DataUrlPayloadAfterFirstComma | services/geminiService.ts:15 | the payload is exactly the text after the first comma, up to the next comma or the end |
| GeminiService.FileToGenerativePart | services/geminiService.ts:12-20 | the inline part keeps the file's MIME type unchanged and has data exactly when the data URL has a comma |
| GeminiService.Prompt | services/geminiService.ts:24-39 | the prompt rendered from a given wording: the template literal over keywords, audience, description, the presence sentence chosen by includePeople, the ratio text and the decimal variation number, in that order |
| GeminiService.CreatePrompt | services/geminiService.ts:23-40 | `createPrompt`: the prompt with the service's own wording (`SourceTemplate`), computed from the five non-image fields and the variation only |
| GeminiService.SixSlotTemplate | services/geminiService.ts:24-39 | in a six-value template, every value stands verbatim at its slot and the last value is followed only by the closing piece |
| GeminiService.PromptSlots | services/geminiService.ts:28-32 | keywords, target audience, description, presence sentence and aspect-ratio text each stand verbatim at their slot of the prompt |
| GeminiService.PresenceSlot | services/geminiService.ts:31 | the presence slot holds the "include people" sentence iff includePeople, and the "no people" sentence iff not, for any wording whose two sentences start differently |
| GeminiService.SourcePresenceSentencesDiffer | services/geminiService.ts:31 | the service's two presence sentences ("Inclua …", "Não inclua …") start with different letters |
| GeminiService.CreatePromptPresence | services/geminiService.ts:31 | in `createPrompt`'s output the presence slot holds "Inclua uma ou mais pessoas…" iff includePeople, and "Não inclua pessoas…" iff not |
| GeminiService.PromptVariationSlot | services/geminiService.ts:38 | the prompt holds "variação #" followed by the decimal variation number, and only the closing sentence follows the number |
| GeminiService.SlotsBeforeVariation | services/geminiService.ts:24-38 | the variation number does not move any slot |
| GeminiService.PromptsOfDistinctVariationsDiffer | services/geminiService.ts:75-76 | the same request gives different prompts for different variation numbers, so variations 1 and 2 differ |
| GeminiService.PromptIgnoresReferenceImage | services/geminiService.ts:23 | the prompt is the same whatever the reference image is |
| GeminiService.BuildRequest | services/geminiService.ts:43-57 | the `generateContent` request: model "gemini-2.5-flash-image-preview", the parts [image part of the reference file, text part with `createPrompt(request, variation)`], and response modalities [IMAGE, TEXT] |
| GeminiService.VariationRequestsDiffer | services/geminiService.ts:43-57 | the two calls of one submission send the same image part and different prompt texts |
| GeminiService.FirstCandidateParts | services/geminiService.ts:59 | `response.candidates?.[0]?.content?.parts`: absent when there are no candidates, and when present it is the parts of the first candidate's content |
| GeminiService.FirstInlineData | services/geminiService.ts:62-66 | no result iff no part has inline data; otherwise the data of the first part that has it, all earlier parts having none |
| GeminiService.FirstInlineDataOfConcat | services/geminiService.ts:62-66 | parts after the first inline part are ignored, and leading parts without inline data are skipped |
| GeminiService.ExtractImage | services/geminiService.ts:59-69 | success iff the first candidate has parts and one has inline data, with the first such part's data; every failure is the no-image error, whose message is "A API não retornou uma imagem…" |
| GeminiService.ExtractImageUsesFirstCandidateOnly | services/geminiService.ts:59 | candidates after the first do not change the outcome |
| GeminiService.SingleImage | services/geminiService.ts:42-70 | `generateSingleImage` as a function: a transport error iff the call throws, carrying its error unchanged; a success only after a successful call, with the extracted image |
| GeminiService.GenerateSingleImage | services/geminiService.ts:42-70 | the search loop returns exactly what `SingleImage` specifies; the no-image error arises only after the call succeeded |
| GeminiService.GenerateAdImages | services/geminiService.ts:73-79 | success iff both variations succeed, and then exactly [variation 1, variation 2]; otherwise a failure with no partial result |
| App.FormatImages | App.tsx:76 | each payload becomes a `data:image/png;base64,` URL holding it, with the same count and order |
| App.FormattedImagesDecode | App.tsx:76 | reading a formatted URL back with `split(',')[1]` gives the payload again |
| App.FormComplete | App.tsx:52 | the form is valid iff a reference image is present and keywords, targetAudience and description are all non-empty; includePeople and aspectRatio are not read |
| App.AppState.IsFormValid | App.tsx:52 | `isFormValid` over the component's current fields, as FormComplete states |
| App.AppState.FormRequest | App.tsx:65-72 | the request carries the reference image and the five other form values unchanged |
| App.AppState.constructor | App.tsx:25-35 | the initial state: no image or preview, empty texts, people off, ratio 1:1, no images, not loading, no error |
| App.AppState.HandleFileChange | App.tsx:39-50 | keeps the state invariant; the chosen file is stored; clearing it clears the preview at once, while choosing one leaves the preview to the reader |
| App.AppState.PreviewLoaded | App.tsx:43-45 | keeps the state invariant; the reader's result becomes the preview |
| App.AppState.BeginSubmit | App.tsx:52-72 | an incomplete form only sets the "preencha todos os campos" error and makes no request; a complete one sets loading, clears error and images, and builds the request from the six fields unchanged |
| App.AppState.CompleteSubmit | App.tsx:74-83 | success shows the formatted images; failure sets the generic error and leaves the images; loading is off in both cases |
| App.AppState.HandleSubmit | App.tsx:54-84 | a whole submission: an invalid form changes only the error; a valid one ends with loading off and either two formatted images and no error, or the generic error and no images |
| Loader.NextIn | components/Loader.tsx:19-23 | the step always yields an entry of the list |
| Loader.NextInAdvances | components/Loader.tsx:20-22 | in a list without repeats, the step moves to the next entry, and from the last entry back to the first |
| Loader.TicksAdd | components/Loader.tsx:18-24 | a ticks and then b ticks are a + b ticks |
| Loader.TicksWithin | components/Loader.tsx:18-24 | before the end of a list the step walks, n ticks move n entries forward |
| Loader.TicksFullCycle | components/Loader.tsx:18-24 | as many ticks as the list has entries bring any entry back to itself |
| Loader.NextMessage | components/Loader.tsx:19-23 | the next message is always one of the six |
| Loader.MessagesDistinct | components/Loader.tsx:5-12 | the six messages are pairwise different |
| Loader.NextMessageAdvances | components/Loader.tsx:19-22 | each tick moves to the next message in list order and wraps from the last to the first |
| Loader.NextMessageOfUnknown | components/Loader.tsx:20-22 | a message not in the list is followed by the first entry |
| Loader.MessagesCycle | components/Loader.tsx:19-22 | the component's step walks the six messages in order and wraps around |
| Loader.SixTicksReturn | components/Loader.tsx:5-22 | six ticks bring any listed message back to itself |
| Loader.LoaderState.constructor | components/Loader.tsx:15 | the state starts at the first message |
| Loader.LoaderState.Tick | components/Loader.tsx:18-23 | one tick replaces the message with its successor, and the message stays one of the six |

## Left out

- The `@google/genai` client, its construction and the `API_KEY` check at module load (services/geminiService.ts:1-10): foreign SDK and environment configuration. The `generateContent` call is the `service` parameter.
- `FileReader` and `readAsDataURL` in `fileToGenerativePart` and `handleFileChange`: asynchronous browser I/O. The data URL is a given string (`ImageFile.dataUrl`). The reader's completion in `handleFileChange` is the separate method `PreviewLoaded`.
- The order of the reader's completion relative to later file changes: a preview that arrives after the file was cleared is not modelled.
- GeminiService.GenerateAdImages: the concurrency of `Promise.all` is modelled as two sequential calls. When both variations fail, the model reports variation 1's error; the source rejects with whichever call fails first, so its message depends on timing.
- GeminiService.ExtractImage: the SDK declares `inlineData.data` optional; the model takes it as present whenever `inlineData` is. The returned image's own MIME type is carried but not used, as in the source.
- JsText.NumberToString: renders every non-negative integer as plain decimal digits. JavaScript does so only below 10^21 and writes larger integral numbers in exponential form (`1e+21`); negative and fractional numbers are not modelled either. The source passes only 1 and 2.
- The prompt's fixed wording is kept as string constants (`SourceTemplate`); the properties concern what stands in the slots, not the prose.
- App.AppState.HandleSubmit: submission runs as one atomic step; overlapping submissions while one is in flight are not modelled. `e.preventDefault()` and `console.error` are left out as browser and logging effects.
- The form fields' `onChange` setters are plain field assignments and are not separate members; `fullscreenImage` and the modal belong to the UI.
- All JSX rendering, CSS, `ImageUploader`, `ImageOutput`, `Icon` and `Modal`: user interface.
- `setInterval` timing and its cleanup in the loader: only the step taken on each tick is modelled.
