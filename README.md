# King's Hospital WhatsApp bot: the decision layer, in Dafny

This project models the request handling of a WhatsApp Cloud API chatbot,
the Express application `app.js`. It answers two kinds of webhook request.

- **GET /** is the verification handshake (`Verification.Verify`). The bot
  echoes `hub.challenge` with status 200 when `hub.mode` is `"subscribe"` and
  `hub.verify_token` equals the configured `VERIFY_TOKEN`; otherwise it
  answers 403 with an empty body. Both tokens may be absent, and
  JavaScript's strict equality makes two absent values equal. So with
  `VERIFY_TOKEN` unset, a request that omits the token is accepted.
- **POST /** is a message delivery (`Handler.HandlePost`). The bot takes the
  first message of the first change of the first entry (`Payload.FirstMessage`).
  It normalises the message's text body with `trim()` then `toUpperCase()`
  (`JsText.Normalize`). It then walks the menu chain: greeting, `1`, `2`, `3`,
  `4`, `A`, `B`, `C`, `D`, `I`, any letter `A` to `I`, then the catch-all
  (`Menu.Dispatch`). The first match wins, and exactly one text reply goes to
  the sender. For `4`, the bot also uploads `comics.pdf` and sends it as a
  document by the returned media id. A failed upload skips the send. Once
  every call has finished, the answer is 200.

The outbound calls `sendMessage`, `uploadMedia` and `sendDocumentById` are
modelled as `Handler.Action` values. A text message carries one of the
menu's static replies, `Menu.Reply`, whose exact words are `Menu.Text`.
The handler returns the ordered list of calls it makes (its trace) and its
HTTP status. The platform's answers are
an input, `Handler.Remote`. Only the upload's answer, a media id or a
failure, can change the trace. The two send functions log and drop their
own errors.

The menu chain is also given as a declarative table, `Menu.Rules`, an
ordered list of rules with a catch-all (`Menu.Lookup`). The chain is proved
equal to the table on every input (`Menu.DispatchFollowsRules`). The
shadowing facts are then stated on the chain and the table.

As written, app.js:154-158 does not parse. An `else` that sends "PDF could
not be uploaded." closes the chain after the branch for `4`, and the next
`}` closes the handler. That leaves the lettered branches after it dangling.
The model takes the evident intended chain (app.js:128-176) and has no
branch for "PDF could not be uploaded.". The same note is at the head of
`menu.dfy`.

Three details of app.js the model keeps:
- A message without a `from` field is still answered (app.js:73, 129).
  `sendMessage` is called with an undefined recipient, so `Action.SendText`
  carries `to: Option<string>`.
- Bodies are upper-cased before matching (app.js:72).
- The 200 is sent after every awaited call (app.js:178), so the status is
  the one given after the whole trace.

## Model

| member | source | states |
|---|---|---|
| JsText.SkipForward | app.js:72 | the scan from a position stops at the first non-whitespace character or the end; everything it passed over is JavaScript whitespace |
| JsText.SkipBackward | app.js:72 | the scan back from a position stops just after the last non-whitespace character above the lower bound, or at that bound; everything it passed over is whitespace |
| JsText.SkipForwardUnique | app.js:72 | any stop point with only whitespace before it and non-whitespace (or the end) at it is the one the forward scan finds |
| JsText.SkipBackwardUnique | app.js:72 | any stop point with only whitespace after it and non-whitespace (or the lower bound) before it is the one the backward scan finds |
| JsText.Trim | app.js:72 | `trim()` returns a contiguous slice of the body, with only whitespace cut from either side, that neither starts nor ends with whitespace |
| JsText.TrimPadded | app.js:72 | `trim()` of a trimmed word surrounded by any whitespace is exactly that word |
| JsText.TrimIdempotent | app.js:72 | trimming twice is trimming once |
| JsText.UpperChar | app.js:72 | upper-casing one character sends each of a-z to its capital (code point minus 32), changes nothing else, and keeps whitespace as whitespace |
| JsText.ToUpper | app.js:72 | `toUpperCase()` keeps the length, maps each character in place and leaves no lower-case ASCII letter |
| JsText.Normalize | app.js:72 | `trim().toUpperCase()`: the result is no longer than the body, neither starts nor ends with whitespace, and holds no lower-case ASCII letter |
| JsText.NormalizeSlice | app.js:72 | the normalised body is the upper-casing of a contiguous slice of the body with only whitespace cut from either side |
| JsText.ToUpperIdempotent | app.js:72 | upper-casing twice is upper-casing once |
| JsText.NormalizeIdempotent | app.js:72 | normalising an already normalised body changes nothing |
| JsText.NormalizePadded | app.js:72 | a word in any case, padded with any whitespace, normalises to the upper-cased word |
| Verification.Verify | app.js:57-65 | status 200 if and only if mode is `"subscribe"` and the query token strictly equals the configured token, both possibly absent; the body is then exactly the challenge (empty if absent); otherwise 403 with an empty body |
| Verification.ConfiguredTokenRequired | app.js:59-63 | with a token configured, a wrong or missing token or any other mode gets 403 and an empty body |
| Verification.UnsetTokenAcceptsMissingToken | app.js:59-61 | with `VERIFY_TOKEN` unset (app.js:14), a subscribe request without a token is accepted and its challenge echoed |
| Payload.First | app.js:69 | `xs?.[0]` is present exactly when the array is present and non-empty, and is then its first element |
| Payload.FirstMessage | app.js:69-70 | a message is found exactly when entry, its first change, that change's value and its messages are all present and non-empty; it is then the first message of the first change of the first entry |
| Payload.NormalizedBody | app.js:72 | the body is present exactly when the message has a text with a body, and is then that body trimmed and upper-cased |
| Menu.Text | app.js:129-175 | the exact words of each reply the chain can send |
| Menu.Dispatch | app.js:128-176 | the if/else chain itself: the welcome menu goes exactly to HI, HELLO and HEY, and the document flow only ever follows the department list |
| Menu.FirstMatchFrom | app.js:128-176 | scanning the rules from a position returns the first rule there or later whose codes contain the body, none in between matching; the rule count when none does |
| Menu.FirstMatch | app.js:128-176 | the index returned is the first rule whose codes contain the body: that rule matches and no earlier rule does; the rule count when none matches |
| Menu.Lookup | app.js:128-176 | the menu table `Menu.Rules` read first-match-wins: the choice of the first rule whose codes contain the body (per `Menu.FirstMatch`), and the catch-all when no rule claims it |
| Menu.NoRuleMatches | app.js:174-176 | a body no rule of the table claims falls through the whole chain to the catch-all |
| Menu.SupportRuleMatches | app.js:172-173 | a body first claimed by the letter list is one of E, F, G, H |
| Menu.EarlyRuleMatches | app.js:128-153 | a body first claimed by the greeting, `1`, `2`, `3` or `4` rule gets that rule's reply and document choice from the chain |
| Menu.LetterRuleMatches | app.js:158-167 | a body first claimed by the `A`, `B`, `C`, `D` or `I` rule gets that rule's reply from the chain |
| Menu.DispatchFollowsRules | app.js:128-176 | the if/else chain makes, for every body including an absent one, the choice of the first matching rule of the menu table, and the catch-all when none matches |
| Menu.InvalidOptionExactlyForUnknownCodes | app.js:172-176 | "Please choose from the given options" is sent exactly when the body is absent or is no menu code |
| Menu.DocumentOnlyForFour | app.js:141-153 | the document flow runs if and only if the normalised body is `4` |
| Menu.SupportRuleOnlyForEToH | app.js:158-173 | the generic letter rule is the first match exactly for E, F, G and H; A, B, C, D and I are taken by their own earlier rules |
| Menu.SupportRuleReached | app.js:158-173 | E, F, G and H pass every earlier rule and are first claimed by the letter list |
| Menu.SupportReplyFromLetterList | app.js:172-173 | whenever the chain answers with the customer-support reply ("Contact this number for customer support: 044-121345"), the letter list was the first matching rule |
| Menu.OnlyLetterListSendsSupport | app.js:128-176 | the letter list is the only rule of the table whose reply is the customer-support reply |
| Menu.GreetingsGetWelcome | app.js:128-132 | each of HI, HELLO and HEY gets the welcome menu and no document |
| Menu.DepartmentReplies | app.js:158-167 | A to D and I each get their own department's reply (A's Wellness Center reply carries the same number, 044-121345, as the customer-support reply) |
| Menu.SupportReplies | app.js:172-173 | E, F, G and H, which have no branch of their own, get the customer-support reply |
| Handler.SendPdf | app.js:147-153 | the flow uploads `comics.pdf` as `application/pdf` first; after a successful upload it sends the document `./comics.pdf` to the sender with exactly the returned media id, and after a failed one it sends nothing more |
| Handler.Respond | app.js:127-176 | a present message gets exactly one text reply, sent first to `from`, whose text is the menu table's choice for the body; the trace ends there unless the body is `4`, in which case the document flow follows |
| Handler.HandlePost | app.js:68-179 | once every call has finished, the status is 200 on every path; the trace is empty exactly when some level of the path to the message is missing; otherwise its first call is the menu table's text reply for the normalised body, sent to `from`, no later call is a text message, the trace ends there unless the body is `4`, and for `4` the document flow follows |
| Handler.FourTrace | app.js:141-153 | for `4` the trace is the department list, the upload, and the document only when the upload succeeded |
| Handler.NoDocumentWithoutUpload | app.js:147-153 | a document is sent only right after an upload, only when that upload succeeded, and only with the id it returned (the id comes from app.js:94, a failed upload rethrows at app.js:95-98, and the send that uses the id is at app.js:149-150) |
| Handler.SendFailuresIgnored | app.js:51-53 | failures of `sendMessage` (caught and logged at app.js:51-53) and of `sendDocumentById` (caught and logged at app.js:121-123) change neither the trace nor the status |
| Handler.MissingBodyGetsInvalidOption | app.js:72-175 | a message without a text body still gets exactly one reply, "Please choose from the given options" |
| Handler.GreetingGetsWelcome | app.js:128-132 | a greeting in any case, padded with any whitespace, gets exactly the welcome menu and nothing else |
| Handler.RespondToGreeting | app.js:128-132 | a greeting, once normalised, gets exactly the welcome menu and nothing else |
| Handler.LowerCaseGreeting | app.js:128-132 | "hi" gets the welcome menu |
| Handler.PaddedGreeting | app.js:128-132 | " Hi " gets the welcome menu |
| Handler.UpperCaseGreeting | app.js:128-132 | "HEY" gets the welcome menu |

## Left out

- Express routing, `app.listen` and the JSON body middleware (app.js:3, 9-10, 181-184). The requests and responses are plain values here.
- The multer disk storage (app.js:18-31). No route uses it.
- The HTTP requests themselves (app.js:37-50, 79-93, 103-120): URLs, headers, the bearer token, `FormData` and reading `comics.pdf` from disk. Each call is an `Action`, and the platform's answer is an input.
- Reading the environment (app.js:13-16). The verify token is a parameter. The WhatsApp token and phone number id appear only in URLs and headers.
- `console.log` and `console.error` output.
- async scheduling and concurrent requests. Each request is handled on its own, and no state is shared between requests.
- Handler.HandlePost: every remote call is assumed to finish, with a result or an error. The axios calls in app.js set no timeout (app.js:44-49, 87-92, 114-119), so in app.js a Graph API call that never answers leaves the webhook request without any response; `Handler.Remote` has no such outcome.
- Handler.HandlePost: the body Express writes for `sendStatus(200)` is not modelled, only the status.
- JsText.ToUpper: only ASCII letters are upper-cased. Other Unicode case mappings (`ß` to `SS`, accented letters) are left out. Visible effect: JavaScript turns `ı` (U+0131) into `I` and `ſ` (U+017F) into `S`, so in app.js "ı" gets the pharmacy number and "hı" the welcome menu, while the model answers both with "Please choose from the given options".
- Payload.FirstMessage: JSON that does not have the expected shape is left out. This covers a `null` array element, a string where an object is expected, and a `text.body` that is not a string (its `trim()` would throw).
- Handler.SendPdf: the media id is always a string. A successful upload response without an `id` field, which would send the document with an undefined id, is left out.
- Query parameters given more than once, which Express turns into arrays, are left out. Each parameter is a string or absent.
- The branch that sends "PDF could not be uploaded." (app.js:154-157), and the stray brace after it (app.js:158). Written this way, the file does not parse.
