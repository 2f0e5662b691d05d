# Image generator core, modelled in Dafny

This is a model of the behaviour of a small image-generation web application. It covers:

- **`POST /api/generate`**: request validation, prompt enhancement, and extraction of an image URL from the image service's reply. Two URL regular expressions are written as scanners, followed by fallbacks to `url`, `output` and `output[0]`. It also picks the status and the `{ success, imageUrl?, error? }` envelope.
- **The browser API helpers**: the `imageHistory` storage slot with save (prepend, keep 50), get and clear, and `generateImage`'s mapping from an HTTP outcome to an envelope.
- **The gallery component**: loading from the slot, prepending new images with no cap, deleting by id with a verbatim write-back, and clearing.
- **The generator component**: the client-side style suffix, the `"WxH".split('x').map(Number)` parse, and the state it moves through during one generation.
- **The prompt form**: initial state, option tables, the trim guard on submit, and the disabled condition.
- **`POST /api/download`**: branch selection, and the `Content-Type`, `Content-Disposition` and `Content-Length` headers set on a Fetch-standard `Headers` object.

Network calls, storage faults, the confirmation dialog, clocks and random ids are parameters of the operations. The JavaScript runtime behaviour the code relies on is written out in module `Js`:

- truthiness of an optional string;
- the ECMAScript whitespace set used by `\s` and `trim()`;
- `split` on one character;
- `Number(string)` and `toString()` on non-negative integers;
- ASCII case folding, as a non-Unicode `/i` regex does it;
- the `ok` status range.

Files:

| file | content |
|---|---|
| `wrappers.dfy` | `Option` |
| `js.dfy` | the JavaScript runtime pieces above |
| `image_types.dfy` | the records and envelopes (`GeneratedImage`, `GenerationRequest`, `GenerationResponse`) |
| `url_scanners.dfy` | the two URL patterns as leftmost-match scanners, and what their matches look like |
| `generate_route.dfy` | the generation endpoint |
| `client_api.dfy` | the history slot (a class whose field the operations overwrite) and `generateImage` |
| `image_gallery.dfy` | the gallery component as a class |
| `image_generator.dfy` | the generator component as a class |
| `prompt_input.dfy` | the prompt form as a class |
| `download_route.dfy` | the download endpoint and a `Headers` class |
| `flows.dfy` | properties of several components taken together |

## Model

| member | source | states |
|---|---|---|
| GenerateRoute.Post | src/app/api/generate/route.ts:4-121 | An undecodable body gives 500 with the exception's message. A falsy prompt (absent or `""`) gives 400 "Prompt is required" and no upstream call. A truthy prompt (whitespace-only included) sends exactly `ServerPrompt`. A rejected call, an ok reply that is not JSON, or a `null` reply gives 500 with the exception's message. A non-ok status gives 500 "AI service error: <status>. Please try again." with no extraction, unless reading its body rejects, which gives 500 with that exception's message. Otherwise: the extracted URL with 200, or 500 with the fixed "did not return a valid image URL" message. Every reply is 200 with a non-empty `imageUrl` and no error, or 400/500 with an error and no `imageUrl` |
| GenerateRoute.ServerPrompt | src/app/api/generate/route.ts:17-23 | The enhanced prompt starts with the prompt. It equals the prompt exactly when the style adds nothing (falsy or `realistic`) and the dimensions are falsy |
| GenerateRoute.EnhancePrompt | src/app/api/generate/route.ts:17-23 | The prompt built with `+=` equals `ServerPrompt` |
| GenerateRoute.ServerPromptCases | src/app/api/generate/route.ts:17-23 | What follows the prompt is exactly the style suffix then the quality suffix, the style suffix alone, the quality suffix alone, or nothing, according to which conditions hold |
| GenerateRoute.FirstContent | src/app/api/generate/route.ts:62-66 | The content read is the first choice's message content and nothing else; it is there only when `choices[0]` and its `message` are present |
| GenerateRoute.ContentUrl | src/app/api/generate/route.ts:62-80 | The image pattern's leftmost match in a string content when there is one, otherwise the bare pattern's leftmost match. A URL found is longer than the scheme. Nothing is found exactly when there is no string content or the bare pattern finds nothing in it |
| GenerateRoute.ExtractionSpec | src/app/api/generate/route.ts:60-93 | The extraction order: a URL from the content scan (of either pattern) beats every fallback; then `url`, a non-empty string `output`, a truthy `output[0]`. A found URL is non-empty. A `null` reply, and only that, throws |
| GenerateRoute.ExtractImageUrl | src/app/api/generate/route.ts:60-93 | The loop over the two patterns with `break`, followed by the fallback chain, computes `ExtractionSpec` |
| GenerateRoute.ImageUrlWins | src/app/api/generate/route.ts:68-79 | When the image pattern matches anywhere in the content, its leftmost match is the result, even if a bare URL starts earlier and whatever the fallback fields hold |
| GenerateRoute.FallbackOrder | src/app/api/generate/route.ts:84-93 | With nothing in the content: a truthy `url` wins; otherwise a string `output` is used when it is non-empty; otherwise an array `output` gives its first entry when truthy; otherwise nothing is found |
| GenerateRoute.NoBareWhenImage | src/app/api/generate/route.ts:69-70 | Text in which the image pattern matches is text in which the bare pattern matches |
| GenerateRoute.OutputListExample | src/app/api/generate/route.ts:90-91 | A reply whose only usable field is an array output yields that array's first entry |
| UrlScanners.SchemeLength | src/app/api/generate/route.ts:69-70 | A scheme found at `i` (`https://` tried before `http://`, ignoring case) lies inside the text. The converse is `SchemeFound` |
| UrlScanners.NotBothSchemes | src/app/api/generate/route.ts:69-70 | `https://` and `http://` never both start at one position, so `https?` has one viable length there |
| UrlScanners.SchemeFound | src/app/api/generate/route.ts:69-70 | The scheme length is 8 exactly at `https://`, 7 exactly at `http://` and 0 exactly where neither starts, ignoring case |
| UrlScanners.RunEnd | src/app/api/generate/route.ts:69-70 | `[^\s]+` taken greedily: a whitespace-free run that stops at whitespace or the end of the text |
| UrlScanners.ExtensionWord | src/app/api/generate/route.ts:69 | The extension found at `q` is a dot followed, ignoring case, by one of `jpg`, `jpeg`, `png`, `gif`, `webp` |
| UrlScanners.NoExtensionAt | src/app/api/generate/route.ts:69 | There is no extension at `q` exactly when `q` is not a dot followed by one of the five extensions |
| UrlScanners.LastExtensionDot | src/app/api/generate/route.ts:69 | The backtracking of `[^\s]+` before `\.ext` picks the last dot in the run that starts an extension: there is none after it, and when it finds none there is none at all |
| UrlScanners.MatchEnd | src/app/api/generate/route.ts:69-70 | A match at `i` starts with a scheme and ends after at least one further character. The converse is `BareMatchWhenScheme` and `ImageMatchWhenExtension` |
| UrlScanners.MatchEndAfterScheme | src/app/api/generate/route.ts:69-70 | What follows the scheme, when it matches, is non-empty and inside the text |
| UrlScanners.BareMatchWhenScheme | src/app/api/generate/route.ts:70 | A scheme followed by a non-whitespace character is a bare match that runs to the end of the whitespace-free run |
| UrlScanners.ImageMatchWhenExtension | src/app/api/generate/route.ts:69 | A scheme whose whitespace-free run holds a dot and an extension after its first character is an image match |
| UrlScanners.ImageMatchAfterScheme | src/app/api/generate/route.ts:69 | After the scheme, a run holding an extension past its first character gives an image match |
| UrlScanners.MatchFound | src/app/api/generate/route.ts:74-75 | When a pattern matches at `i`, `match(...)[0]` is present and the leftmost match starts at or before `i` |
| UrlScanners.LeftmostMatch | src/app/api/generate/route.ts:74 | The match chosen starts at the first position where the pattern matches, and no position before it matches. When there is none, no position matches |
| UrlScanners.FirstMatch | src/app/api/generate/route.ts:74-75 | `match(...)[0]` is absent exactly when no position matches; a match is longer than `http://` |
| UrlScanners.ImageMatchShape | src/app/api/generate/route.ts:69 | An image match starts with `http://` or `https://` ignoring case, has no whitespace, and ends with a dot and an extension. It ends at the last extension of the whitespace-free run after the scheme, so a query string after it is cut off |
| UrlScanners.BareMatchShape | src/app/api/generate/route.ts:70 | A bare match is a scheme, then a non-empty run with no whitespace, reaching the next whitespace or the end of the text |
| UrlScanners.ImageMatchWithinBareMatch | src/app/api/generate/route.ts:69-70 | Wherever the image pattern matches, the bare pattern matches from the same start and at least as far |
| UrlScanners.NoBareMatchNoImageMatch | src/app/api/generate/route.ts:69-70 | A text with no bare match has no image match |
| ClientApi.StoredHistory | src/lib/api.ts:70-71 | A read of the slot yields the stored list, or `[]` when the slot is absent or does not decode |
| ClientApi.SaveUpdate | src/lib/api.ts:61 | The saved list has length min(previous + 1, 50), the new image at index 0, and the previous list's first entries after it, in order |
| ClientApi.GetImageHistory | src/lib/api.ts:68-76 | The stored list, or `[]` when the slot is absent, does not decode or cannot be read |
| ClientApi.SaveImageToHistory | src/lib/api.ts:58-66 | The slot holds `SaveUpdate` of the image over what a get reads (`[]` on a failed read). A failed write leaves the slot as it was |
| ClientApi.ClearImageHistory | src/lib/api.ts:78-84 | The slot is removed; a failed removal leaves it as it was |
| ClientApi.SaveOnEmpty | src/lib/api.ts:60-62 | Saving over an absent or undecodable slot stores exactly `[image]` |
| ClientApi.SaveKeepsDuplicates | src/lib/api.ts:61 | Saving an image whose id is already among the first 49 entries stores that id twice |
| ClientApi.SaveOnFullHistory | src/lib/api.ts:61 | On a full history a save drops exactly the oldest entry |
| ClientApi.SaveAllKeepsNewest | src/lib/api.ts:61 | A series of saves leaves the newest 50 images, newest first, then the earlier history while room remains. This holds for a history of any length once one save happens, so a history over 50 written back by the gallery is cut by the next save |
| ClientApi.CappedAfter | src/lib/api.ts:61 | Cutting a list to 50 before prepending does not change the first 50 entries |
| ClientApi.GenerateImageResult | src/lib/api.ts:13-26 | Never rejects. An ok JSON response is handed on unchanged. A non-ok one becomes a failure with the body's `error`, or `HTTP error! status: <n>` when that is falsy. A rejected call, or an ok body that is not JSON, becomes a failure with the exception's message |
| ClientApi.OnlyOkSucceeds | src/lib/api.ts:13-19 | A successful result comes only from an ok JSON response and is its envelope |
| ClientApi.NonOkHasMessage | src/lib/api.ts:13-16 | A non-ok response always yields a failure with a non-empty message |
| Gallery.WithoutId | src/components/ImageGallery.tsx:42 | The filtered list keeps exactly the entries whose id differs, and is no longer |
| Gallery.WithoutIdConcat | src/components/ImageGallery.tsx:42 | Filtering keeps the order of the kept entries (it distributes over concatenation) |
| Gallery.WithoutUnknownId | src/components/ImageGallery.tsx:42 | Deleting an id no entry has leaves the list unchanged |
| Gallery.WithoutIdIdempotent | src/components/ImageGallery.tsx:42 | Deleting the same id twice is deleting it once |
| Gallery.ImageGallery.constructor | src/components/ImageGallery.tsx:15-16 | The first render has no images and is loading |
| Gallery.ImageGallery.LoadImages | src/components/ImageGallery.tsx:28-38 | The list becomes the stored history (`[]` on a failed read), loading ends and the slot is untouched |
| Gallery.ImageGallery.ReceiveNewImage | src/components/ImageGallery.tsx:22-26 | A non-null image is prepended with no cap; a null one changes nothing |
| Gallery.ImageGallery.HandleDeleteImage | src/components/ImageGallery.tsx:40-51 | The list is filtered by id. The filtered list is written to the slot verbatim, or the slot is left as it was when the write fails |
| Gallery.ImageGallery.HandleClearAll | src/components/ImageGallery.tsx:53-58 | After confirmation the slot is removed and the list emptied; without confirmation nothing changes |
| Gallery.PersistedHistoryExceedsCap | src/components/ImageGallery.tsx:24 | Load a full history of 50, receive one image, then delete an unknown id: all 51 entries are written to the slot |
| Generator.ClientPrompt | src/components/ImageGenerator.tsx:28 | The sent prompt starts with the user's prompt and equals it exactly when the style is `realistic` |
| Generator.ParseDimensions | src/components/ImageGenerator.tsx:37 | The width is always a number. The height is `undefined` exactly when the string has no `x` |
| Generator.ParseDimensionValue | src/components/ImageGenerator.tsx:37 | `"<w>x<h>"` parses to width `w` and height `h` |
| Generator.ImageGenerator.constructor | src/components/ImageGenerator.tsx:13-16 | Initially not generating, with no error, no current image and no generation time |
| Generator.ImageGenerator.BeginGenerate | src/components/ImageGenerator.tsx:19-22 | Busy, with error, current image and generation time cleared |
| Generator.ImageGenerator.FinishGenerate | src/components/ImageGenerator.tsx:33-63 | On success with a URL, the record (the user's prompt, the URL, the parsed dimensions, the style) is saved to history and becomes the current image, and the error stays as it was. Otherwise the error is `result.error` or the default message, and the current image and history are untouched. Never busy afterwards |
| Generator.ImageGenerator.HandleGenerate | src/components/ImageGenerator.tsx:18-64 | The request carries `ClientPrompt`, the style and the dimensions. On success the current image is the record with the given id and timestamp, the returned URL, the user's prompt, the parsed dimensions and the style, and there is no error. The slot then holds `SaveUpdate` of that record over the previous history (`[]` on a failed read), or is unchanged when the write fails. On failure the error is `result.error` or the default, there is no image, and the history is untouched |
| Prompt.DimensionValue | src/components/PromptInput.tsx:38-44 | A dimension value holds an `x` |
| Prompt.DimensionOptionsWellFormed | src/components/PromptInput.tsx:18-44 | Every dimension option is `<w>x<h>` with positive decimal `w` and `h`, and the default is the first option |
| Prompt.SubmitCall | src/components/PromptInput.tsx:46-51 | A call happens exactly when the prompt is not all whitespace. It carries the trimmed, non-empty prompt and the style and dimensions unchanged |
| Prompt.SubmitDisabled | src/components/PromptInput.tsx:115-122 | The button is disabled exactly when a generation runs or the prompt is all whitespace |
| Prompt.SuggestionsSubmit | src/components/PromptInput.tsx:20-27 | None of the six suggestions is blank, so submitting one after a click always calls `onGenerate` with a non-empty prompt |
| Prompt.EnabledButtonSubmits | src/components/PromptInput.tsx:115-122 | An enabled button submits a prompt with no whitespace at either end. A button disabled while idle means the submit does nothing |
| Prompt.PromptInput.constructor | src/components/PromptInput.tsx:16-18 | The initial prompt is `""`, the style `realistic` and the dimensions `1024x1024` |
| Prompt.PromptInput.SetPrompt | src/components/PromptInput.tsx:75 | Only the prompt changes |
| Prompt.PromptInput.SetStyle | src/components/PromptInput.tsx:84 | Only the style changes |
| Prompt.PromptInput.SetDimensions | src/components/PromptInput.tsx:100 | Only the dimensions change |
| Prompt.PromptInput.HandleSuggestionClick | src/components/PromptInput.tsx:53-55 | The prompt becomes the suggestion verbatim; nothing else changes |
| Prompt.PromptInput.HandleSubmit | src/components/PromptInput.tsx:46-51 | The call made is `SubmitCall` of the current state |
| DownloadRoute.Post | src/app/api/download/route.ts:3-49 | An undecodable body gives 500 "Failed to download image". A falsy `imageUrl` gives 400 "Image URL is required" and no fetch. A rejected fetch or an unreadable body gives 500. A non-ok fetch gives 400 "Failed to fetch image". Otherwise the reply is 200 with the fetched bytes unchanged and the three headers. When a header value is refused, it is 500 instead |
| DownloadRoute.Headers.Set | src/app/api/download/route.ts:32-35 | `set` succeeds exactly for a valid value. It then stores the normalized value under the lower-case name; otherwise nothing changes |
| DownloadRoute.NormalizeHeaderValue | src/app/api/download/route.ts:33-35 | The stored value has no HTTP whitespace at either end, and a value without any is stored as it is |
| DownloadRoute.NormalizeIsSlice | src/app/api/download/route.ts:33-35 | Normalization only cuts HTTP whitespace from the two ends: the stored value is a slice of the value with nothing but HTTP whitespace before and after it |
| DownloadRoute.AsciiLower | src/app/api/download/route.ts:33-35 | The name with each ASCII upper-case letter lowered |
| DownloadRoute.ContentType | src/app/api/download/route.ts:29 | The upstream content type when it is truthy, otherwise `image/jpeg` |
| DownloadRoute.Disposition | src/app/api/download/route.ts:34 | `attachment; filename="`, then the file name (or `generated-image.jpg`) unescaped, then `"` |
| DownloadRoute.DownloadHeaders | src/app/api/download/route.ts:32-35 | The headers of a download are exactly `content-type`, `content-disposition` and `content-length`, each holding its value as `set` normalizes it |
| DownloadRoute.DispositionValidity | src/app/api/download/route.ts:34 | The disposition is accepted exactly when every character of the file name fits in a byte and none is NUL, CR or LF |
| DownloadRoute.DispositionUnpadded | src/app/api/download/route.ts:34 | Normalization leaves the disposition as it is |
| DownloadRoute.DecimalIsValidValue | src/app/api/download/route.ts:35 | The decimal byte count is always a valid value and is stored as it is |
| DownloadRoute.ContentLengthMatchesBody | src/app/api/download/route.ts:35-40 | `Content-Length` reads back as the number of bytes in the body |
| Js.Trim | src/components/PromptInput.tsx:48-49 | `trim()` gives `""` exactly when the text is all whitespace. Otherwise it gives a slice with no whitespace at either end, and only whitespace is cut away |
| Js.JoinSplit | src/components/ImageGenerator.tsx:37 | Joining the pieces of `split` with the separator gives back the string |
| Js.SplitAtFirst | src/components/ImageGenerator.tsx:37 | The piece before the first separator comes first; the rest is split on its own |
| Js.DigitsValueOfDecimal | src/app/api/download/route.ts:35 | Reading back `toString()` of a count gives the count |
| Js.DecimalOfDigitsValue | src/components/ImageGenerator.tsx:37 | A digit string with no superfluous leading zero is the decimal form of its value |
| Js.ToNumberOfDecimal | src/components/ImageGenerator.tsx:37 | `Number(n.toString())` is `n` |
| Js.HasPrefixIgnoringCaseAt | src/app/api/generate/route.ts:69-70 | Matching a literal ignoring case is a character-by-character match |
| Flows.ClientSeesRouteReply | src/lib/api.ts:13-19 | A 200 reply of the generation endpoint reaches the UI unchanged, with a URL. A failed one reaches it as a failure with the same message |
| Flows.StyleAppearsTwice | src/components/ImageGenerator.tsx:28 | For a non-empty style other than `realistic`, the prompt reaching the image service names the style twice, once from the client and once from the server |
| Flows.EmptyStyleOnlyOnClient | src/components/ImageGenerator.tsx:28 | An empty style makes the client add `,  style` while the server adds nothing for it |
| Flows.RealisticAddsNothing | src/components/ImageGenerator.tsx:28 | The realistic style adds nothing on either side |
| Flows.OfferedStyles | src/components/PromptInput.tsx:29-36 | The first style offered is the default `realistic`, which adds nothing to the prompt. Every other offered style is named twice in the prompt sent to the image service |
| Flows.SubmittedPromptIsAccepted | src/components/PromptInput.tsx:48-49 | What the form submits always passes the server's prompt check |
| Flows.DimensionOptionsParse | src/components/PromptInput.tsx:38-44 | Every dimension option parses to a positive finite width and height |

## Left out

- Outbound `fetch` calls, their endpoint, customer id and bearer token are network I/O. Their outcomes (`UpstreamReply`, `FetchOutcome`, `ImageFetch`) are parameters.
- JSON encoding and decoding of request bodies, replies and the storage slot are abstracted. They appear as already-decoded datatypes, `Corrupt` for a slot that does not decode, and a message for a body that does not parse.
- Only string, absent, array and "other" values are modelled for the reply fields `url`, `output` and `content`. A truthy non-string `url` or `output[0]` (a number, an object) would be handed on by the source but has no place in the model.
- Decoded storage whose JSON is valid but not an array (a number, say) is read by the source as-is. Here it counts as `Corrupt`.
- `console.error` logging, the `GET` handlers of both endpoints and `downloadImage` (an object URL and an anchor click in the DOM) are not modelled.
- Record ids built from `Date.now()` and `Math.random()`, the timestamp and the elapsed time are parameters. The generation time is `elapsedMs / 1000` as an exact real, not a floating-point division.
- The `confirm` dialog is a boolean parameter. Storage read, write and remove failures are boolean parameters.
- Js.ToNumber: it reads only whitespace-trimmed decimal digit strings (and blank ones as 0). Every other string is NaN here, whereas JavaScript also accepts signs, fractions, exponents, hexadecimal and `Infinity`. Only digit strings reach it from the dimension options.
- Full regular-expression semantics are not modelled. Only the two concrete patterns are, as scanners, with ASCII case folding (exact for their ASCII letters without the `u` flag).
- DownloadRoute.Headers.Set: header-name token validation is left out, since the three names are fixed valid tokens.
- Generator.ImageGenerator.HandleGenerate: the `catch` branch of `handleGenerate` (ImageGenerator.tsx:54-60) is not modelled, because `generateImage` never rejects and the other steps cannot throw with the inputs modelled.
- React scheduling and effect timing are not modelled; each handler is one atomic step on the component state.
- `ImageCard.tsx`, the page and layout files and the loading spinner are rendering only. `src/types/image.ts` gives only the datatypes' shapes.
