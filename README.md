# Chatbot command router: a Dafny model

The repository is a chatbot that relays user text to a large-language-model
API (Gemini) over two transports. `backend/index.ts` serves a WebSocket
channel and `backend/script.ts` serves a WhatsApp session. Each file has its
own copy of `processMessage`. It turns one inbound string into one reply
string by testing fixed command prefixes:

- `/summarise <text>`;
- `/translate-to-<language> <text>`;
- on WhatsApp only, `/help`.

It builds a prompt, asks the gateway (`callGeminiAPI`), and maps any gateway
failure to a fixed apology.

The model is purely functional, like the source:

- `JsString` (`jsstring.dfy`): the ECMAScript string operations the routers use. These are `startsWith`, `indexOf`/`includes`, `replace` with a string pattern and an empty replacement, and `trim`. The whitespace set is WhiteSpace plus LineTerminator (sections 12.2 and 12.3 of ECMA-262). The same set serves `trim()` and the regular-expression class `\s`.
- `Gemini` (`gemini.dfy`): the gateway as an abstract outcome. A `Reply` is a network error, or a status with a body. The body either fails to parse as JSON or is a value, possibly an envelope with optional `candidates` / `content` / `parts` / `text`. `Extract` is what `callGeminiAPI` does after the request: it parses the body, checks the status, then runs the truthiness chain on `candidates[0].content.parts[0].text`. Each way it can throw is a separate `Failure`. A gateway is a function `string -> Reply`. An `Exchange` records the prompts sent and the reply, so "the gateway is not called" reads `prompts == []`.
- `Commands` (`commands.dfy`): what both routers share. This covers the fixed strings that are identical in both files, the summarise branch and its prompt, and the translate pattern `^/translate-to-([a-zA-Z]+)\s+(.+)$`. The pattern is written without regular expressions, in three layers: the prefix (`MatchTranslate`), the letters (`MatchArguments`) and `\s+(.+)$` (`MatchSeparatedText`). Each layer's soundness (the ensures of `MatchSeparatedText`, the lemmas `MatchArgumentsSound` and `MatchTranslateSound`) says that a match splits its input into the pieces the pattern allows; for the whole message that is `IsTranslateSplit`. A completeness lemma per layer shows that every such split is matched, with the backtracking priority made explicit: the greedy `\s+` leaves the shortest text.
- `WebSocketBot` (`websocket_bot.dfy`): the router and helpers of `backend/index.ts`.
- `WhatsAppBot` (`whatsapp_bot.dfy`): the router and helpers of `backend/script.ts`, plus the skip-or-reply decision of its `message_create` handler.
- `Variants` (`variants.dfy`): where the two routers agree (summarise, malformed translate) and where they differ. They differ on the translate prompt's closing instruction, on `/help`, and on plain text.

Things the proofs make explicit:

- `replace('/summarise', '')` on a message that starts with `/summarise` drops exactly the first ten characters. No separator is needed, so `/summarisefoo` summarises `foo`.
- The translate pattern also matches a message whose text is only whitespace, once the whitespace run after the language is at least two characters long and its last character is not a line terminator. For example, `/translate-to-fr  ` sends the model a prompt to translate a single space.
- The WhatsApp rejection string is a fixed point of that router. Fed back as a message body, it is answered with itself. Whether the WhatsApp library re-delivers the bot's own replies to `message_create` is outside this model.
- In both routers every reply is non-empty, at most one prompt is sent, and the cause of a gateway failure never reaches the user.

Two details of the code the model reproduces:

- The prompt templates are multi-line template literals. After the header line they carry a line of four spaces and an indentation of four spaces before the text (`"\n    \n    "`), not a bare blank line.
- `/help` is a command only in `backend/script.ts`. In `backend/index.ts` it gets the unrecognised-command reply.

## Model

| member | source | states |
|---|---|---|
| `JsString.Includes` | backend/script.ts:162 | `includes` holds exactly when the pattern occurs at some index |
| `JsString.IndexOf` | backend/index.ts:26 | the index found is an occurrence and no earlier index is one; no index is found exactly when there is no occurrence |
| `JsString.RemoveFirst` | backend/index.ts:26 | `replace(pat, '')` leaves the string unchanged without an occurrence; otherwise it cuts out exactly the first occurrence, the rest kept in order, `|pat|` characters shorter |
| `JsString.RemoveFirstOfPrefix` | backend/index.ts:26 | on a string that starts with the pattern, `replace(pat, '')` is the string without its first `|pat|` characters |
| `JsString.Trim` | backend/index.ts:26 | `trim` is an infix framed by spaces on both sides, with no space at either end, and is empty exactly when the input is all spaces |
| `JsString.TrimFixedPoint` | backend/script.ts:170 | a string with no space at either end is its own trim |
| `JsString.TrimIdempotent` | backend/script.ts:170 | trimming twice is trimming once, for every string |
| `Gemini.Extract` | backend/index.ts:72-90 | a network error fails at fetch; a body that is not JSON fails at parsing, whatever the status; a parsed non-2xx response fails with its status; success implies a 2xx status and non-empty text; on a parsed 2xx response an empty `parts` array is the TypeError and every other failure the unexpected-structure error |
| `Gemini.ExtractFirstText` | backend/index.ts:81-87 | with a 2xx status, the text of the first part of the first candidate is returned whatever follows it; empty text is the unexpected-structure error; a non-2xx status fails with that status |
| `Gemini.ExtractRejectsMissingFields` | backend/script.ts:39-59 | an unparsable body fails at parsing on any status; with a 2xx status a falsy body, a missing `candidates`, `content` or `text` and an empty `candidates` array are the unexpected-structure error, and an empty `parts` array is the TypeError |
| `Gemini.AskOr` | backend/index.ts:126-133 | the try/catch around the gateway: exactly one prompt is sent, and the reply is the extracted text or the given apology |
| `Commands.SummarizePrompt` | backend/index.ts:100-102 | the summarise prompt starts with "Please summarize the following text concisely:" and ends with the text |
| `Commands.SummarizeText` | backend/index.ts:98-109 | one prompt is sent; the reply is the gateway text on success and the fixed summarise apology on any failure |
| `Commands.SummariseArgumentIsTrimmedRest` | backend/index.ts:26-27 | for a `/summarise` message the argument is the rest trimmed; it is empty exactly when the rest is all spaces, and otherwise has no space at either end |
| `Commands.Summarise` | backend/index.ts:25-31 | no prompt is sent exactly when the argument is empty, and then the reply is the guidance string; otherwise the one prompt is the summarise prompt of the argument |
| `Commands.SummariseWithoutSeparator` | backend/script.ts:102-107 | `/summarise` directly followed by text with no space at either end, as in `/summarisefoo`, summarises exactly that text |
| `Commands.MatchSeparatedText` | backend/index.ts:34 | `\s+(.+)$` with backtracking: a match splits the input into a non-empty whitespace run and a non-empty text without line terminators that ends the input |
| `Commands.MatchSeparatedTextComplete` | backend/index.ts:34 | every split into whitespace and such a text is matched, and the matched text is a suffix of the split's text (greedy `\s+`) |
| `Commands.MatchArguments` | backend/index.ts:34 | a match captures a non-empty run of ASCII letters at the start (group 1) and a non-empty text free of line terminators (group 2), shorter together than the input |
| `Commands.MatchArgumentsSound` | backend/index.ts:34 | a match splits what follows the prefix into the captured letters, a non-empty whitespace run and the captured text |
| `Commands.MatchArgumentsComplete` | backend/index.ts:34 | every such split is matched with the same letters and a suffix of its text |
| `Commands.MatchTranslate` | backend/index.ts:34 | a match implies the `/translate-to-` prefix, a non-empty all-letter language and a non-empty text free of line terminators |
| `Commands.MatchTranslateSound` | backend/index.ts:34 | every match is a split of the message into prefix, captured letters, whitespace and captured text |
| `Commands.MatchTranslateComplete` | backend/index.ts:34 | every message in the pattern's language is matched with the same language, and the matched text is a suffix of the split's text (greedy `\s+`) |
| `Commands.BlankTranslationAccepted` | backend/script.ts:111 | `/translate-to-fr` followed by two spaces matches with language `fr` and a single space as the text |
| `Commands.MissingLanguageRejected` | backend/index.ts:34-37 | `/translate-to-` followed by nothing or by a non-letter never matches |
| `WebSocketBot.TranslatePrompt` | backend/index.ts:114-116 | the prompt starts with the header naming the language, ends with the text, and has exactly the template break between them |
| `WebSocketBot.TranslateText` | backend/index.ts:112-123 | one prompt is sent; the reply is the gateway text, or on any failure the apology that names the language |
| `WebSocketBot.GetGeminiResponse` | backend/index.ts:126-133 | the message itself is the one prompt; the reply is the gateway text or the fixed processing apology |
| `WebSocketBot.ProcessMessage` | backend/index.ts:23-49 | at most one prompt is sent and the reply is never empty; with no prompt sent, the reply is one of the three guidance strings |
| `WebSocketBot.SummariseBlank` | backend/index.ts:25-29 | a `/summarise` whose rest is all spaces gets the guidance string and no gateway call |
| `WebSocketBot.SummariseSendsTrimmedRest` | backend/index.ts:25-31 | any other `/summarise` sends exactly one prompt, the summarise prompt ending with the trimmed rest, and replies with the gateway text or the apology |
| `WebSocketBot.TranslateRejected` | backend/index.ts:33-37 | a `/translate-to-` message outside the pattern's language gets the format guidance and no gateway call |
| `WebSocketBot.TranslateBranch` | backend/index.ts:33-41 | a matched message is answered by `translateText` with the two captures |
| `WebSocketBot.TranslateSendsPrompt` | backend/index.ts:33-41 | a matched message sends one prompt naming the language and ending with the text; on failure the reply names the language |
| `WebSocketBot.OtherSlashRejected` | backend/index.ts:43-45 | any other slash message gets the fixed unrecognised-command reply and no gateway call |
| `WebSocketBot.HelpIsUnrecognised` | backend/index.ts:43-45 | `/help` is answered with the unrecognised-command reply |
| `WebSocketBot.FreeFormPassesThrough` | backend/index.ts:47-48 | text not starting with `/` is the prompt unchanged; on success the reply is exactly the gateway text, otherwise the processing apology |
| `WebSocketBot.FailureCauseIrrelevant` | backend/index.ts:105-132 | two gateways with the same successes give the same exchange, whatever their failure causes |
| `WhatsAppBot.TranslatePrompt` | backend/script.ts:86-90 | the prompt starts with the header naming the language, carries the text between the template break and the closing instruction, and ends with the instruction |
| `WhatsAppBot.TranslateText` | backend/script.ts:81-97 | one prompt is sent; the reply is the gateway text, or on any failure the apology that names the language |
| `WhatsAppBot.ProcessMessage` | backend/script.ts:100-126 | at most one prompt is sent and the reply is never empty; with no prompt sent, the reply is one of the four fixed strings |
| `WhatsAppBot.OnMessageCreate` | backend/script.ts:160-176 | no reply exactly when the recipient contains 9940537699 or the body trims to nothing; otherwise exactly one reply, the router's answer to the untrimmed body |
| `WhatsAppBot.SummariseBlank` | backend/script.ts:102-106 | a `/summarise` whose rest is all spaces gets the guidance string and no gateway call |
| `WhatsAppBot.SummariseSendsTrimmedRest` | backend/script.ts:102-108 | any other `/summarise` sends exactly one prompt ending with the trimmed rest; the reply is the gateway text or the apology |
| `WhatsAppBot.TranslateRejected` | backend/script.ts:110-114 | a `/translate-to-` message outside the pattern's language gets the format guidance and no gateway call |
| `WhatsAppBot.TranslateBranch` | backend/script.ts:110-118 | a matched message is answered by `translateText` with the two captures |
| `WhatsAppBot.TranslateSendsPrompt` | backend/script.ts:110-118 | a matched message sends one prompt naming the language, containing the text and ending with the closing instruction; on failure the reply names the language |
| `WhatsAppBot.PromptCarriesText` | backend/script.ts:86-90 | the translate prompt contains the text to translate |
| `WhatsAppBot.HelpListsCommands` | backend/script.ts:120-122 | any message starting with `/help`, such as `/helpme`, gets the command listing and no gateway call |
| `WhatsAppBot.EverythingElseRejected` | backend/script.ts:124-125 | every message starting with none of the three commands, plain text included, gets the fixed rejection and no gateway call |
| `WhatsAppBot.RejectionOpening` | backend/script.ts:125 | the rejection string is neither blank nor starts with a command |
| `WhatsAppBot.RejectionAnswersItself` | backend/script.ts:170-176 | the rejection string, fed back as a body, is routed again and answered with itself |
| `WhatsAppBot.FailureCauseIrrelevant` | backend/script.ts:74-96 | two gateways with the same successes give the same exchange, whatever their failure causes |
| `Variants.SummariseAgrees` | backend/script.ts:102-108 | both routers give identical exchanges for every `/summarise` message |
| `Variants.TranslateUsageAgrees` | backend/script.ts:110-114 | both routers reject a malformed `/translate-to-` message with the same guidance |
| `Variants.TranslatePromptExtended` | backend/script.ts:86-90 | on a matched message the WhatsApp prompt is the WebSocket prompt followed by the closing instruction |
| `Variants.HelpDiverges` | backend/script.ts:120-122 | a `/help` message is rejected over WebSocket and answered with the listing on WhatsApp |
| `Variants.PlainTextDiverges` | backend/script.ts:124-125 | plain text reaches the model unchanged over WebSocket and is rejected without a call on WhatsApp |

## Left out

- The HTTP request itself (`fetch`, request body, URL and API key), JSON parsing and the reading of the error body. They are replaced by the abstract `Reply`. A body that does not parse is `Unparsable`; a parsed value without the envelope's fields is `Json(None)`.
- Gemini.Extract: does not model JSON shapes outside the envelope datatype. These are `null` array elements, a `candidates` or `parts` value that is not an array, and a `text` that is not a string. The source throws or returns such values in ways that depend on JavaScript coercion.
- Strings are sequences of Unicode scalar values, not UTF-16 code units. No character the routers test lies outside the Basic Multilingual Plane, so routing is the same. Only lengths of texts with astral characters differ.
- `replace` is modelled only with the empty replacement the source uses. `$`-patterns in a replacement string are not modelled.
- WebSocket server plumbing: server creation, the welcome message, `listen`/PORT, JSON framing of `{type, content}`, and the handler's catch for unparsable frames (backend/index.ts:18-20, 136-180).
- WhatsApp client setup: QR pairing, `LocalAuth`, the unused session-file load, disconnect and SIGINT handling (backend/script.ts:128-158, 192-205).
- WhatsAppBot.OnMessageCreate: does not model the `getMentions` call and its log in the ignored branch (backend/script.ts:163-164). It also omits the catch that sends the processing apology when `msg.reply` itself fails (backend/script.ts:182-187). Both are I/O around the decision.
- The startup check for the API key (both files, lines 11-14): a fatal process-level condition, not per-message logic.
- Logging, and the 50-character truncation of the logged response (backend/script.ts:177-181).
- Asynchrony. Routing holds no shared state, so each call is a pure function of the message and the gateway. Interleaving adds nothing.
- `frontend/app/page.tsx` (the React chat UI and its reconnect logic) is not part of this model.
