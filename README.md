# Content Studio AI — a verified model of its core

Content Studio AI is a small web application that drafts social-media
posts. A FastAPI backend keeps an in-memory account store, asks a language
model for a script and an image prompt, and turns the image prompt into an
image-service URL. A React frontend has a login/register screen, a
dashboard form with three control levels and a random colour-palette
picker, an image generator page, and a route table guarded by a stored token.

This project models that core in Dafny and proves what it promises:

- **Account store** (`accounts.dfy`, module `Accounts`): `users_db` and
  `tokens_db` as a `Store`, `/register` and `/login` as step functions
  with their error cases, and a class `AccountServer` whose methods update
  the two dictionaries in place and are proved equal to the step functions.
  The store invariant (users filed under their own email, every token the
  mock token of a registered email) is preserved.
- **Prompt builder** (`prompt.dfy`, module `GeminiPrompt`):
  `build_gemini_prompt` as an imperative builder proved equal to the prompt
  of the sections a request selects, with the exact text of each section.
  The `/generate` handler does not call it (it sends a hard-coded prompt),
  and the model does not claim it does.
- **Python text operations** (`pytext.dfy`, module `PyText`): `str.strip`
  with Python's whitespace set, `str.replace`, `str()` of an optional value
  and truthiness.
- **Image URL** (`urlquote.dfy`, module `UrlQuote`): UTF-8 encoding and
  decoding (RFC 3629) and `urllib.parse.quote` with `safe='/'`: bytes outside the
  unreserved set of section 2.3 of RFC 3986 and `/` become `%XX` with
  upper-case digits (section 2.1 of RFC 3986). Percent-decoding and UTF-8
  decoding recover the prompt from the URL, and well-quoted text is canonical:
  `quote(prompt)` is the only well-quoted spelling that reads back as the prompt. Hex digits of both cases
  (`hexdigits.dfy`, module `HexDigits`) are shared with the palette picker.
- **`/generate` pipeline** (`generation.dfy`, module `Generation`): the
  model-fallback loop as a `while` loop with `break`, the code-fence
  cleanup, the JSON-or-raw-text reading with its defaults, and the
  response with its image URL.
- **Palette picker** (`palette.dfy`, module `Palette`): `toString(16)`,
  `padStart(6, '0')`, `toUpperCase`, `join(', ')` and the picker component
  as a class whose `colors` state is replaced by each generation.
- **Browser** (`browser.dfy`, module `Browser`): `localStorage` as a string
  map, the current route, the alerts shown, and the awaited outcome of a
  `fetch` as an input (`HttpReply`).
- **Login/register screen** (`auth.dfy`, module `AuthScreen`), **image
  generator page** (`imagegen.dfy`, module `ImageStudio`), **dashboard**
  (`dashboard.dfy`, module `DashboardForm`) and **application shell**
  (`app.dfy`, module `AppShell`): each component is a class with its state
  fields and one method per handler. An `async` handler is split into its
  synchronous start and the continuation that runs when the reply arrives,
  plus a method that runs both.

Inputs stand in for what the code cannot see: `call(m)` is the outcome of
asking model `m` (`Generation.Attempt`), `parse(t)` is what `json.loads(t)`
gives (`Generation.Decoded`), the palette's `draws` are the five values of
`Math.floor(Math.random() * 16777215)`, and an `HttpReply` is the awaited
response of a `fetch`.

## Model

| member | source | states |
|---|---|---|
| Accounts.TokenForInjective | backend/main.py:76 | Two different emails never get the same mock token. |
| Accounts.RegisterStep | backend/main.py:64-69 | A known email is refused with 400 "Email already registered" and nothing changes. Otherwise exactly that key is added, mapped to the submitted record, no other entry changes, tokens are untouched, and the reply names the user. |
| Accounts.LoginStep | backend/main.py:71-78 | Fails with 401 "Invalid credentials", changing nothing, exactly when the email is unknown or the password differs. Otherwise returns token "mock-token-" + email, type "bearer" and the stored username, and records the token under that email. Users and other tokens are unchanged. |
| Accounts.RegisterKeepsConsistent | backend/main.py:64-69 | Registration preserves the store invariant. |
| Accounts.LoginKeepsConsistent | backend/main.py:71-78 | Login preserves the store invariant. |
| Accounts.RegisterThenLogin | backend/main.py:64-78 | A freshly registered user can log in at once with their password and gets their token and username. |
| Accounts.RegisterTwiceRefused | backend/main.py:66-67 | A second registration of the same email is refused and leaves the store as the first left it. |
| Accounts.LoginIdempotent | backend/main.py:76-78 | Logging in twice leaves the store as logging in once does, with the same reply. |
| Accounts.AccountServer.constructor | backend/main.py:31-32 | Both dictionaries start empty, which satisfies the invariant. |
| Accounts.AccountServer.Register | backend/main.py:64-69 | The in-place update and its reply equal `RegisterStep` on the old state, and the invariant is kept. |
| Accounts.AccountServer.Login | backend/main.py:71-78 | The in-place update and its reply equal `LoginStep` on the old state, and the invariant is kept. |
| GeminiPrompt.DefaultRequestSections | backend/main.py:44-55 | A request with only brand and topic gets level 1 and no cultural context or palette, so its prompt holds only the header and the format instructions. |
| GeminiPrompt.FilterKeeps | backend/main.py:105-121 | A block is appended iff it is one of the listed blocks and its own condition holds. |
| GeminiPrompt.FilterOrdered | backend/main.py:97-137 | Skipping blocks keeps the rest in the order the builder appends them. |
| GeminiPrompt.SectionsOrdered | backend/main.py:97-137 | The header comes first and the format instructions last, with every block in builder order and none twice. |
| GeminiPrompt.SectionsSelected | backend/main.py:105-121 | Strategy iff level >= 2. Creative iff level == 3, so level 4 gets strategy only. The cultural-context and palette lines iff level == 3 and their field is truthy. |
| GeminiPrompt.AssembleEnds | backend/main.py:98-136 | Whatever blocks are chosen, the prompt starts with the brand/topic header and ends with the JSON-format instructions. |
| GeminiPrompt.AssembleSelected | backend/main.py:105-121 | For the blocks a request selects, each block's text is present exactly when the builder's `if` for it holds. |
| GeminiPrompt.BuildGeminiPrompt | backend/main.py:97-137 | The prompt appended step by step is exactly the rendering of the sections `Sections` selects. |
| PyText.LeadingSpaces | backend/main.py:199 | Counts the whitespace `s` starts with: all of it is whitespace, and the next character, if any, is not. |
| PyText.TrailingSpaces | backend/main.py:199 | Counts the whitespace `s` ends with: all of it is whitespace, and the character before it, if any, is not. |
| PyText.LStrip | backend/main.py:199 | The result is a suffix of the input, everything cut off in front is whitespace, and the result does not start with whitespace. |
| PyText.RStrip | backend/main.py:199 | The result is a prefix of the input, everything cut off behind is whitespace, and the result does not end with whitespace. |
| PyText.Strip | backend/main.py:199 | Neither end of the result is whitespace, and it is no longer than the input. |
| PyText.StripMargins | backend/main.py:199 | The stripped text is the slice of the input after its leading whitespace, and everything cut off on either side is whitespace. |
| PyText.StripKeepsTrimmed | backend/main.py:199 | A string that is already trimmed is left unchanged. |
| PyText.Replace | backend/main.py:199 | A string without the pattern is unchanged, and replacing with the empty string never lengthens. |
| PyText.ReplaceFirst | backend/main.py:199 | The first occurrence of the pattern is replaced, the text in front of it is kept, and the scan continues after it. |
| PyText.IsSpace | backend/main.py:199 | The characters `str.strip()` removes, which are those `str.isspace()` accepts. `LeadingSpaces`, `TrailingSpaces` and `StripMargins` state the stripping in terms of it. |
| PyText.PyStr | backend/main.py:193 | `str()` of an optional value: "None" when absent, otherwise the text. `AllModelsFailed` states its place in the detail, and the prompt sections use it for their fields. |
| PyText.Truthy | backend/main.py:118-121 | `if req.indian_context:` and `if req.color_palette:` hold only for a value that is present and not empty. `SectionsSelected` states which blocks this admits. |
| UrlQuote.Utf8Char | backend/main.py:141 | One to four bytes: ASCII as itself, anything else a lead byte of 0xC0 or more followed by continuation bytes 0x80..0xBF. |
| UrlQuote.Utf8Encode | backend/main.py:141 | Every character takes one to four bytes, so the encoding is at least as long as the text and at most four times as long. |
| UrlQuote.Utf8CharDecodes | backend/main.py:141 | The decoder of section 3 of RFC 3629 reads the bytes of one character back as that character and their length, whatever follows. |
| UrlQuote.Utf8RoundTrip | backend/main.py:141 | Decoding the UTF-8 encoding of a text gives the text back. |
| UrlQuote.Utf8EncodeInjective | backend/main.py:141 | Different texts have different UTF-8 encodings. |
| UrlQuote.Utf8CharOfDecoded | backend/main.py:141 | Every sequence the strict decoder accepts is the encoding of the character it reads: only the shortest form is accepted. |
| UrlQuote.Utf8DecodeEncode | backend/main.py:141 | A byte string that decodes to a text is that text's encoding. With `Utf8RoundTrip`, decoding and encoding are inverse both ways. |
| UrlQuote.Quote | backend/main.py:141 | `quote(s)` with `safe='/'` is well quoted: only bytes outside the unreserved set and `/` are escaped, each as `%XX` with upper-case digits. |
| UrlQuote.UnquoteQuote | backend/main.py:141 | Percent-decoding the quoted prompt gives back its UTF-8 bytes. |
| UrlQuote.QuoteRoundTrip | backend/main.py:141 | Percent-decoding and then UTF-8 decoding the quoted prompt gives the prompt back, so quoting loses nothing. |
| UrlQuote.QuoteBytesWellQuoted | backend/main.py:141 | Quoted bytes are well quoted: unescaped bytes stand for themselves, and every other byte is a `%XX` triple with upper-case digits. A triple is never used for a byte `quote` leaves alone. |
| UrlQuote.WellQuotedAlphabet | backend/main.py:141 | Well-quoted text contains only unreserved characters, `/` and `%`. |
| UrlQuote.WellQuotedCanonical | backend/main.py:141 | Well-quoted text is exactly what `quote` writes for the bytes it decodes to. So each byte string has one well-quoted spelling. |
| UrlQuote.QuoteUnique | backend/main.py:141 | `quote(s)` is the only well-quoted text that reads back as `s`. |
| UrlQuote.ImageUrl | backend/main.py:139-142 | The URL is the service prefix, then a well-quoted path segment, then "?nologo=true". The segment percent-decodes to the UTF-8 bytes of the prompt, so by `WellQuotedCanonical` it is exactly `quote(prompt)`. |
| UrlQuote.ImageUrlRoundTrip | backend/main.py:139-142 | The prompt itself can be read back out of the image URL. |
| UrlQuote.ImageUrlUnique | backend/main.py:139-142 | A URL of the service's shape whose path segment is well quoted and reads back as the prompt is that prompt's image URL. |
| Generation.FirstReturned | backend/main.py:178-190 | Finds the first model whose call returns: every earlier one raised. None means every model raised. |
| Generation.LastError | backend/main.py:178-190 | `last_error` after the loop: the message of the last call that raised. `LastErrorIsLast` states its meaning. |
| Generation.LastErrorIsLast | backend/main.py:178-190 | The message `LastError` gives was raised by a call after which every call returned. None means no call raised. |
| Generation.AllModelsFailed | backend/main.py:192-193 | A 500 whose detail is "All models failed. Last error: " followed by the last error, or by "None" when no call raised. |
| Generation.GenerateText | backend/main.py:153-193 | Models are tried in list order, and the loop stops right after the first call that returns. Its non-empty text is the result. Empty text, or no call returning, gives 500 "All models failed. Last error: " followed by the last earlier error, or "None" if there was none. |
| Generation.NoFenceAfterRemoval | backend/main.py:199 | After removing every "```" no "```" is left in the text. |
| Generation.StripKeepsAbsent | backend/main.py:199 | Stripping whitespace cannot create an occurrence of a pattern. |
| Generation.CleanFences | backend/main.py:199 | The cleaned text contains no code fence and has no surrounding whitespace. A text without backticks is only stripped of its whitespace margins. |
| Generation.ReplaceSkipsPlainPrefix | backend/main.py:199 | Removing a backtick pattern leaves a prefix without backticks untouched. |
| Generation.CleanFencesUnwrapsJsonBlock | backend/main.py:199 | A trimmed JSON text without backticks, wrapped in "```json\n" … "\n```", is recovered exactly. |
| Generation.ReadReply | backend/main.py:201-210 | A JSON object sets each key it has and keeps the defaults "Error generating script." and "Error generating visual prompt." for the others. Text that is not JSON makes the script the raw, uncleaned text and keeps the visual-prompt default. Any other JSON value is a 500, because `.get` fails. |
| Generation.CatchAll | backend/main.py:225-236 | The catch-all's 500: the detail is "Backend Error: " followed by the message of the exception, which can be read back from it. |
| Generation.NotAnObject | backend/main.py:205-236 | Calling `.get` on JSON that is not an object ends in the catch-all's 500. The detail starts with "Backend Error: ", and the Python type name can be read back from it. |
| Generation.Respond | backend/main.py:201-223 | The response carries the reply's script and visual prompt and an image URL from which the visual prompt can be read back. |
| Generation.GenerateContent | backend/main.py:144-223 | The first model that returns decides. Its non-empty text becomes the response. Empty text, or no model returning, gives the 500 naming the last error. Every failure is a 500. |
| HexDigits.UpperDigit | backend/main.py:141 | The upper-case digit `quote` writes for a value below 16 denotes that value. |
| HexDigits.LowerDigit | frontend/src/components/ColorPaletteGenerator.jsx:9 | The lower-case digit `toString(16)` writes for a value below 16 denotes that value. |
| Palette.ToHex | frontend/src/components/ColorPaletteGenerator.jsx:9 | `toString(16)`: at least one lower-case hex digit, with a leading zero only for 0. |
| Palette.ToHexValue | frontend/src/components/ColorPaletteGenerator.jsx:9 | The hex digits denote the number converted. |
| Palette.ToHexShort | frontend/src/components/ColorPaletteGenerator.jsx:9 | A number below 16^k has at most k hex digits. |
| Palette.PadStart | frontend/src/components/ColorPaletteGenerator.jsx:9 | `padStart(width, '0')`: the result has length max(|s|, width), with only zeros in front of `s`, which ends the result. |
| Palette.ToUpper | frontend/src/components/ColorPaletteGenerator.jsx:9 | `toUpperCase` keeps the length. `ToUpperValue` states that hex digits keep their value and become upper-case. |
| Palette.LeadingZerosValue | frontend/src/components/ColorPaletteGenerator.jsx:9 | Padding with leading zeros keeps the number. |
| Palette.ToUpperValue | frontend/src/components/ColorPaletteGenerator.jsx:9 | Upper-casing hex digits keeps their value and leaves only 0-9 and A-F. |
| Palette.PaddedHex | frontend/src/components/ColorPaletteGenerator.jsx:9 | A draw below 16^6, written in hex and padded to width 6, is six lower-case hex digits that denote the draw. |
| Palette.HexColor | frontend/src/components/ColorPaletteGenerator.jsx:9 | For a draw below 16^6 the colour is "#" plus exactly six upper-case hex digits, and those digits give the draw back. |
| Palette.HexColorInjective | frontend/src/components/ColorPaletteGenerator.jsx:9 | Different draws give different colours. |
| Palette.NeverWhite | frontend/src/components/ColorPaletteGenerator.jsx:9 | A draw below 16777215 never gives "#FFFFFF". |
| Palette.Colors | frontend/src/components/ColorPaletteGenerator.jsx:8-10 | One swatch per draw. `ColorsWellFormed` states that each swatch of a valid draw is well formed and denotes its draw. |
| Palette.Join | frontend/src/components/ColorPaletteGenerator.jsx:12 | `join(sep)`: no elements give the empty string, and otherwise the result starts with the first element and ends with the last. |
| Palette.Selection | frontend/src/components/ColorPaletteGenerator.jsx:12 | The swatches joined with ", ". `SelectionRoundTrip` states the 43-character length and that every colour can be read back at offset 9·i. |
| Palette.JoinedSwatches | frontend/src/components/ColorPaletteGenerator.jsx:12 | Seven-character swatches joined by ", " sit at offsets 9·i, and n of them take 9·n − 2 characters. |
| Palette.ColorsWellFormed | frontend/src/components/ColorPaletteGenerator.jsx:8-10 | Five valid draws give exactly five well-formed colours, each denoting its draw. |
| Palette.SelectionRoundTrip | frontend/src/components/ColorPaletteGenerator.jsx:8-12 | The selection handed to the form is 43 characters long, and each of the five draws can be read back, in order, from the six digits after each "#". |
| Palette.ColorPaletteGenerator.constructor | frontend/src/components/ColorPaletteGenerator.jsx:5 | Mounted with no swatches. |
| Palette.ColorPaletteGenerator.GenerateColors | frontend/src/components/ColorPaletteGenerator.jsx:7-13 | All five swatches are replaced at once with well-formed colours. The value passed to `onSelect` equals the summary line, their join with ", ". |
| AuthScreen.SetField | frontend/src/components/Auth.jsx:19-21 | The named field takes the value and the other two keep theirs. |
| AuthScreen.RequestFor | frontend/src/components/Auth.jsx:28-31 | The request targets `login` iff the screen is in login mode. Login sends only email and password, register sends all three fields, and no value is altered. |
| AuthScreen.OutcomeOf | frontend/src/components/Auth.jsx:40-57 | A thrown error fails with its message. A non-ok response fails with `detail` when present, else "Authentication failed". An ok response logs in iff it was submitted in login mode, taking the token and username from the body. |
| Browser.FieldOr | frontend/src/components/Auth.jsx:43 | `data.detail || fallback`: the field when it is present and non-empty, the fallback otherwise. `OutcomeOf` of both screens states the resulting error message. |
| Browser.FieldText | frontend/src/components/Auth.jsx:48-49 | A body field as `localStorage.setItem` stores it, with a missing field stored as "undefined". `Auth.FinishSubmit` states what a login stores. |
| AuthScreen.RegisterThenLoginFromForm | frontend/src/components/Auth.jsx:28-50 | Registering from a form and then logging in from the same form yields the backend's token for that email and the username entered. |
| AuthScreen.Auth.constructor | frontend/src/components/Auth.jsx:8-17 | Login mode, not loading, empty error, empty form. |
| AuthScreen.Auth.HandleChange | frontend/src/components/Auth.jsx:19-21 | One form field changes and nothing else does. |
| AuthScreen.Auth.Toggle | frontend/src/components/Auth.jsx:184 | Flips the mode and changes nothing else. |
| AuthScreen.Auth.BeginSubmit | frontend/src/components/Auth.jsx:23-38 | Sets loading, clears the error and sends the request for the current mode and form. |
| AuthScreen.Auth.FinishSubmit | frontend/src/components/Auth.jsx:40-60 | A failure sets the error and leaves storage, route and mode alone. A login stores `token` and `username` and goes to /dashboard. A registration switches to login mode with "Registration successful! Please login." and stores nothing. Loading is off in every case. |
| AuthScreen.Auth.Submit | frontend/src/components/Auth.jsx:23-61 | A whole submit sends the request for the mode at submit time and ends as `OutcomeOf` says, not loading. |
| ImageStudio.Base64DataUrlParses | frontend/src/components/ImageGenerator.jsx:36 | Read as in section 3 of RFC 2397, a `data:` URL with a comma-free media type and the `;base64` marker gives back that media type, the base64 flag and exactly the data after the comma. |
| ImageStudio.ParseDataUrl | frontend/src/components/ImageGenerator.jsx:36 | Reads a `data:` URL as section 3 of RFC 2397 describes it. It fails exactly when there is no `data:` scheme or no comma. On success, the comma-free media type, the base64 flag and the data rebuild the URL. |
| ImageStudio.JpegDataUrl | frontend/src/components/ImageGenerator.jsx:36 | The image source for a payload. `JpegDataUrlRoundTrip` states that it parses as a base64 JPEG `data:` URL carrying exactly the payload. |
| ImageStudio.JpegDataUrlRoundTrip | frontend/src/components/ImageGenerator.jsx:36 | Read as in section 3 of RFC 2397, the image source is a base64 "image/jpeg" data URL whose data is exactly the payload. |
| ImageStudio.OutcomeOf | frontend/src/components/ImageGenerator.jsx:29-42 | There is an image iff the response is ok with a non-empty `image_base64`, and it is that payload's data URL. A non-ok response fails with `detail` or "Generation failed". An ok response without the payload fails with "No image data received". A thrown error fails with its message. |
| ImageStudio.ImageGenerator.constructor | frontend/src/components/ImageGenerator.jsx:6-9 | Empty prompt, not loading, no image, no error. |
| ImageStudio.ImageGenerator.SetPrompt | frontend/src/components/ImageGenerator.jsx:75 | Only the prompt changes. |
| ImageStudio.ImageGenerator.BeginGenerate | frontend/src/components/ImageGenerator.jsx:12-27 | A submit that passes the `required` check sets loading, clears error and image, and sends the non-empty prompt. |
| ImageStudio.ImageGenerator.FinishGenerate | frontend/src/components/ImageGenerator.jsx:29-45 | An image is set only on success and an error only on failure. Loading is off afterwards. |
| ImageStudio.ImageGenerator.Generate | frontend/src/components/ImageGenerator.jsx:12-46 | After a whole generation nothing is loading, a failure leaves no image, and a success leaves no error. |
| DashboardForm.With | frontend/src/components/Dashboard.jsx:40-42 | The named field takes the value and every other field keeps its own. |
| DashboardForm.WithLaws | frontend/src/components/Dashboard.jsx:40-46 | Writing a field's own value changes nothing, and a later write to a field overrides an earlier one. |
| DashboardForm.VisibleFields | frontend/src/components/Dashboard.jsx:118-280 | Brand name and topic always show, nothing else shows below level 2, and all ten fields show at level 3. `VisibleIffTier` states the full rule. |
| DashboardForm.CanSubmit | frontend/src/components/Dashboard.jsx:133-145 | The `required` brand-name and topic inputs must be non-empty. `RequiredAlwaysVisible` states that both are always on screen. |
| DashboardForm.VisibleIffTier | frontend/src/components/Dashboard.jsx:118-280 | A field's input is on screen iff the level reaches its block: tier 2 from level 2 on, tier 3 from level 3 on. |
| DashboardForm.RequiredAlwaysVisible | frontend/src/components/Dashboard.jsx:118-150 | The two required inputs, brand name and topic, are in the always-visible block. |
| DashboardForm.TabLevel | frontend/src/components/Dashboard.jsx:110-112 | A tab only ever selects level 1, 2 or 3. |
| DashboardForm.TabsCoverLevels | frontend/src/components/Dashboard.jsx:110-112 | Each level has exactly one tab. |
| DashboardForm.Dashboard.constructor | frontend/src/components/Dashboard.jsx:23-38 | Level 1, the listed defaults, no picker mounted. |
| DashboardForm.Dashboard.HandleChange | frontend/src/components/Dashboard.jsx:40-42 | Exactly the named field changes. The level does not. |
| DashboardForm.Dashboard.HandleColorSelect | frontend/src/components/Dashboard.jsx:44-46 | Only `color_palette` changes. |
| DashboardForm.Dashboard.HandleSubmit | frontend/src/components/Dashboard.jsx:48-51 | The submission carries all ten fields, including hidden ones, with the current level. Brand and topic are non-empty. |
| DashboardForm.Dashboard.SelectLevel | frontend/src/components/Dashboard.jsx:217-251 | Sets the tab's level. Entering level 3 mounts a fresh picker, whose first palette is written into `color_palette`. Any other change leaves the form as it was, and leaving level 3 unmounts the picker. |
| DashboardForm.Dashboard.RegeneratePalette | frontend/src/components/ColorPaletteGenerator.jsx:24-33 | Regenerating replaces all five colours, and their selection replaces `color_palette`. |
| AppShell.Protected | frontend/src/App.jsx:13-19 | Redirects to /login iff no non-empty token is stored, otherwise renders the children unchanged. |
| AppShell.ResultView | frontend/src/App.jsx:61-65 | Shows the result page iff there is data, otherwise redirects to /dashboard. |
| AppShell.HasToken | frontend/src/App.jsx:14-15 | `localStorage.getItem('token')` is truthy. `Protected` and `GuardedIffRedirectsToLogin` state the guard in terms of it. |
| AppShell.Route | frontend/src/App.jsx:91-117 | Only /login, /register, /dashboard, /result, /image-generator and "/" match. Every redirect leads to /login or /dashboard, and no page but the auth page is shown without a token. |
| AppShell.GuardedIffRedirectsToLogin | frontend/src/App.jsx:92-116 | Without a token exactly /dashboard, /result and /image-generator redirect to /login, while /login and /register show the auth page. |
| AppShell.TokenOpensGuardedPaths | frontend/src/App.jsx:92-113 | With a token no guarded path redirects to /login. |
| AppShell.SettlesWithinThree | frontend/src/App.jsx:92-116 | Every path settles within three redirects. Without a token the only pages reached are the auth page or no match. With a token but no data, "/" and /result end on the dashboard. |
| AppShell.Shell.constructor | frontend/src/App.jsx:87 | `generatedData` starts empty, so /result redirects until a generation succeeds. |
| AppShell.Shell.HandleGen | frontend/src/App.jsx:24-38 | An ok response stores the body and opens /result, whose view is then the result page. A non-ok status alerts "Generation failed: API Error". A thrown error alerts "Generation failed: " plus its message. On failure neither data nor route changes. |
| AppShell.Shell.Logout | frontend/src/App.jsx:49-52 | Storage is emptied and /login opened, after which every guarded path redirects to /login. |

## Left out

- The language-model calls (`genai.GenerativeModel(...).generate_content`) are a foreign library: each model's outcome is the input `call`.
- `json.loads` is the input `parse`; the JSON grammar is not modelled, and object fields whose values are not strings are not represented.
- Generation.GenerateContent: the 500 it returns when no model yields text carries the inner detail; the outer catch-all re-raises it as "Backend Error: " followed by `str()` of the exception, and that format belongs to the web framework, which is not part of this model.
- Generation.GenerateContent: the `print` calls and the write of `debug_flow.txt` (backend/main.py:146-217) are not modelled, and the model assumes they succeed. Inside the outer `try` (backend/main.py:148-225), a failing print or debug write is not harmless: after the model loop it turns a successful generation into the catch-all 500 "Backend Error: …" (backend/main.py:225-236). Inside the loop it makes that model count as failed. The print before the `try` (backend/main.py:146) would escape to the web framework.
- The error-log write in the catch-all (backend/main.py:230-234) has its own `try`/`except: pass`, so it never changes the response; it is not modelled.
- FastAPI routing, CORS and the Pydantic validation of request bodies are framework plumbing; request bodies are taken as already validated.
- UrlQuote.Utf8Char: Dafny characters are Unicode scalar values, so Python's lone surrogates (which `quote` rejects) cannot occur.
- `fetch`, `localStorage`, `navigate` and `alert` are the `Browser` abstractions: a reply input, a string map, a route field and an alert list.
- AuthScreen.OutcomeOf and ImageStudio.OutcomeOf: only string `detail` values are modelled; a non-string `detail` (such as a validation error list) becomes an `Error` message through JavaScript's string conversion, which is not modelled.
- `Math.random` is floating point and nondeterministic: the five integer draws are inputs, restricted to the range `Math.floor(Math.random() * 16777215)` can take.
- The `/generate-image` endpoint has no handler in the backend; only the image generator page's side is modelled.
- The result page (copy-to-clipboard and its timers), the animation components and the page transitions are presentation only.
- The backend probe and test scripts only call external services and print; they are not part of the application.
- DashboardForm.Dashboard.SelectLevel: the level-3 block's exit animation keeps the picker on screen briefly after leaving level 3; the model unmounts it at once.
- Concurrent or repeated submissions while a request is in flight are not modelled; the pages only disable their submit buttons.
- React Router path matching (trailing slashes, case) is reduced to exact string comparison of the route table's paths.
