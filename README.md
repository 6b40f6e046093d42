# Bus ticket system front end: chat formatter, chat session and ticket search in Dafny

This project models two components of the bus ticket system's React front end and
proves properties of the models.

- **The chat assistant** (`src/components/ChatAssistant.js`):
  - `formatMessage` turns an assistant reply into display blocks: headers, bullet or
    numbered lists, code regions between `---` fences, text lines with `**bold**`
    spans, and line breaks. When nothing is produced it shows the raw text instead.
  - The session controller keeps the conversation, the input box, the loading flag,
    the one-shot history hydration and the clear-history dialog.
- **The ticket history screen** (`src/components/TicketHistory.js`):
  - the loaded tickets;
  - the list the advanced search shows;
  - the chain of optional filters that produces that list.

The modules are:

- `Wrappers` (`wrappers.dfy`): `Option`.
- `SeqFacts` (`seq_facts.dfy`): associativity of concatenation, which several proofs
  share.
- `JsText` (`js_text.dfy`): the JavaScript string primitives the components rely on,
  written out over `seq<char>`:
  - `trim` and the regular-expression class `\s`;
  - the line terminators that `.` refuses;
  - `startsWith` and `endsWith`;
  - `split('\n')`;
  - `includes`;
  - `toLowerCase`;
  - `length` in UTF-16 code units.
- `MessageFormat` (`message_format.dfy`): the formatter.
  - Its specification is the fold `Format`, one `Step` per line over the three
    variables of the loop.
  - `FormatMessage` is the loop itself. It is proved to compute `Format`.
  - The `**(.*?)**` split is the recursive function `Emphasize`. Its parity and
    round-trip facts are proved, and that it takes every match leftmost first and
    lazily.
- `FormatProperties` (`format_properties.dfy`): what the formatter guarantees.
  - When it falls back to the raw text.
  - The shape of the block sequence.
  - Code regions, list accumulation, marker stripping and emphasis.
  - Whole-message results.
  - A line-by-line reference that the output matches once grouping and line breaks
    are set aside.
- `ChatSession` (`chat_session.dfy`): the controller as a class.
  - Each asynchronous handler is a pair of methods: one for what happens before the
    request is sent, one for when its response (or failure) arrives.
  - Responses are input datatypes.
- `TicketSearch` (`ticket_search.dfy`):
  - the filter chain `Search`, written out in source order;
  - the conjunction `FilterMatches` it equals;
  - the screen's state as the class `TicketHistory`.

Where a natural reading of the component and its code differ, the model follows the
code, with one exception:

- The bullet class. The file spells it `[\*\-â€¢]`, with the `•` stored double-encoded.
  The formatter here (`Classify`, `Format`, `FormatMessage` and every lemma about them)
  uses the intended class `*`, `-`, `•`. So for `• Stop` it gives a list item where the
  file as written gives a text line, and for `€ 5` the reverse. Only
  `WrittenBulletMarkerLength` models the class as written; see "## Findings".

Everywhere else the model follows the code:

- A fence is any trimmed line that *starts with* `---`, not only a line of dashes.
- When no block is produced, the result is the raw content itself, `Raw(content)`.
  The empty message gives `Raw("")`.
- A final `'\n'` leaves a last, empty line. It adds a line break when something was
  emitted before it. So `"---\nfoo\nbar\n---\n"` gives
  `[CodeLine("foo"), CodeLine("bar"), Divider, LineBreak]`.
- The emphasis split keeps empty plain pieces. `"**a**"` gives
  `[Plain(""), Emph("a"), Plain("")]`.
- A failed application reply shows the backend's `answer` when it is a non-empty
  string. Only otherwise does it show the fixed error text.
- History is appended after the messages already shown, the welcome message
  included.
- Submission has no mounted check, unlike hydration.
- The fixed texts are kept exactly as the source file spells them. Their emoji are
  stored double-encoded: `âŒ`, `âœ…`.

## Model

| member | source | states |
|---|---|---|
| JsText.TrimStartSpec | src/components/ChatAssistant.js:146 | `trimStart` removes exactly the leading white space: the result is the longest suffix not starting with white space |
| JsText.TrimEndSpec | src/components/ChatAssistant.js:146 | `trimEnd` removes exactly the trailing white space: the result is the longest prefix not ending with white space |
| JsText.TrimSpec | src/components/ChatAssistant.js:64 | `trim` removes leading and trailing white space and nothing else, and yields `""` exactly for an all-white-space string |
| JsText.SplitLines | src/components/ChatAssistant.js:140 | `split('\n')` gives at least one piece, no piece holds a newline, and joining the pieces with newlines gives the text back |
| JsText.SplitJoinLines | src/components/ChatAssistant.js:140 | splitting undoes joining for lines without newlines, so the split is the only such decomposition |
| JsText.Utf16LengthChar | src/components/ChatAssistant.js:165 | `length` counts two code units for a character beyond U+FFFF and one for any other |
| JsText.Utf16LengthAppend | src/components/ChatAssistant.js:165 | the `length` of a concatenation is the sum of the lengths, so with the line above it is fixed for every string |
| JsText.Utf16LengthBmp | src/components/ChatAssistant.js:165 | without characters beyond U+FFFF, `length` is the number of characters |
| JsText.ContainsIff | src/components/TicketHistory.js:44 | `includes` holds exactly when the query occurs at some index |
| JsText.Lower | src/components/TicketHistory.js:44 | `toLowerCase` keeps the length, leaves no ASCII capital, and changes a character only to the other case of the same letter |
| JsText.LowerCaseInsensitive | src/components/TicketHistory.js:44 | two strings lower-case alike exactly when they differ only in ASCII letter case |
| JsText.LowerIdempotent | src/components/TicketHistory.js:54 | lower-casing twice is lower-casing once |
| MessageFormat.SpaceRunSpec | src/components/ChatAssistant.js:175 | the greedy `\s+` takes the longest white-space prefix |
| MessageFormat.BulletMarkerSpec | src/components/ChatAssistant.js:175 | the bullet marker matches exactly a marker character (`*`, `-`, `•`) followed by white space, and consumes all the white space after it |
| MessageFormat.DigitRunSpec | src/components/ChatAssistant.js:175 | the greedy `\d+` takes the longest digit prefix |
| MessageFormat.NumberMarkerSpec | src/components/ChatAssistant.js:175 | the numeric marker matches exactly a non-empty digit run followed by a dot and white space (so `1.5 km` is not a list line), and consumes all the white space after it |
| MessageFormat.WrittenBulletMarkerLength | src/components/ChatAssistant.js:175 | the bullet marker with the class as the file spells it matches exactly when the first character is one of `*`, `-`, `â`, `€`, `¢` and white space follows |
| MessageFormat.Classify | src/components/ChatAssistant.js:149-189 | the rules in precedence order: fence, then header (ends with `:`, shorter than 50), then list marker, then text; blank exactly for the empty trimmed line; so `- Note:` is a header |
| MessageFormat.LazyCloseSpec | src/components/ChatAssistant.js:179 | the lazy `(.*?)` stops at the first `**` and crosses no line terminator; it fails exactly when every later `**` has a line terminator before it |
| MessageFormat.SplitFromParity | src/components/ChatAssistant.js:179-181 | the pieces of the split alternate plain and emphasised, plain first and last, emphasised pieces holding no line terminator |
| MessageFormat.SplitFromUnsplit | src/components/ChatAssistant.js:179-181 | putting `**` back around the emphasised pieces restores the text |
| MessageFormat.SplitFromLeftmostLazy | src/components/ChatAssistant.js:179-181 | the global split takes every match leftmost first: no plain piece covers the start of a closed `**…**` pair, and each emphasised piece ends where the lazy match stops |
| MessageFormat.EmphasizeSpec | src/components/ChatAssistant.js:196-199 | odd number of spans, odd indices exactly the emphasised ones, the spans with delimiters restored give the line back, every closed pair that opens in the line is split off, and each emphasised span ends at the first `**` after its opening one |
| MessageFormat.SplitFromUnique | src/components/ChatAssistant.js:179-181 | a span sequence that restores the text from a position and is leftmost and lazy there is the one the split finds, so these properties determine the split |
| MessageFormat.EmphasizeUnique | src/components/ChatAssistant.js:196-199 | no span sequence other than the line's split both gives the line back and is leftmost and lazy: `EmphasizeSpec` characterises the split completely |
| MessageFormat.FormatMessage | src/components/ChatAssistant.js:138-212 | the loop over the lines (each trimmed and classified once, in order) with `formatted`, `currentList` and `inCodeBlock` returns exactly the fold `Format`, about which the lemmas below are proved |
| FormatProperties.StripBullet | src/components/ChatAssistant.js:175-176 | a bullet character with white space after it makes a list line, and stripping removes it with all that white space before the numeric strip |
| FormatProperties.StripNumber | src/components/ChatAssistant.js:175-176 | digits, a dot and white space form a numeric marker: such a line without a bullet is a list line, and `StripMarkers` removes the marker and all its white space, so `1. Buy` becomes the item `Buy` (that only such a prefix is a marker is `NumberMarkerSpec`) |
| FormatProperties.StripBulletThenNumber | src/components/ChatAssistant.js:176 | both strips apply in turn: `- 1. x` leaves `x` |
| FormatProperties.WrittenBulletMissesBullet | src/components/ChatAssistant.js:175 | with the class as spelled, `• Stop` is not a list line while `€ 5` is; with the class meant, `• Stop` is |
| FormatProperties.EmphasizePlain | src/components/ChatAssistant.js:196-199 | a line is one plain span equal to itself exactly when no closed `**…**` pair opens in it |
| FormatProperties.EmittedStays | src/components/ChatAssistant.js:145-205 | blocks already emitted stay at the front of `formatted`, and outside a code region the pending items stay in what is produced (grouping aside); so once something is produced the pass never returns to having produced nothing |
| FormatProperties.SilentRun | src/components/ChatAssistant.js:145-209 | from the start, the pass produces nothing exactly when every line is blank except possibly a last fence |
| FormatProperties.FormatRawIff | src/components/ChatAssistant.js:207-211 | the raw content comes back unchanged exactly on such silent input, and otherwise the block sequence is non-empty |
| FormatProperties.StepOk | src/components/ChatAssistant.js:148-204 | each line keeps the pass's invariant: no pending list in a code region, no leading line break, no empty list, no two adjacent lists |
| FormatProperties.RunOk | src/components/ChatAssistant.js:145-205 | the whole pass keeps that invariant |
| FormatProperties.FormatWellFormed | src/components/ChatAssistant.js:138-212 | every block sequence returned starts with something other than a line break, has no empty list and never two adjacent lists |
| FormatProperties.CodeLinesSpec | src/components/ChatAssistant.js:160 | one code line per line, holding the line untrimmed |
| FormatProperties.CodeBody | src/components/ChatAssistant.js:159-162 | in a code region every non-fence line becomes a code line of the untrimmed line, whatever rule it would fall under outside |
| FormatProperties.RunAppend | src/components/ChatAssistant.js:145 | the pass over two runs of lines is the pass over the first continued by the pass over the second |
| FormatProperties.FencedRegion | src/components/ChatAssistant.js:149-162 | the opening fence flushes the pending list and emits nothing, the lines between become code lines, and only the closing fence emits a divider |
| FormatProperties.FencedMessage | src/components/ChatAssistant.js:138-212 | a message of one fenced region and a final newline is the body as code lines, a divider and a line break |
| FormatProperties.ItemsSpec | src/components/ChatAssistant.js:184 | one item per list line, in order |
| FormatProperties.ListRun | src/components/ChatAssistant.js:175-186 | consecutive list lines append their items, in order, to the pending list and emit nothing |
| FormatProperties.HeaderListTextRun | src/components/ChatAssistant.js:165-209 | a header, list lines and a text line give a header, one list of all the items and a text line |
| FormatProperties.HeaderListTextMessage | src/components/ChatAssistant.js:138-212 | the same for a whole message: header text trimmed, items with markers stripped and emphasis split, text line with emphasis split |
| FormatProperties.BlankRun | src/components/ChatAssistant.js:202-204 | blank lines leave the pending list alone and add line breaks only once something was emitted, so those breaks come before a pending list |
| FormatProperties.StepEmit | src/components/ChatAssistant.js:148-204 | each line adds to the output (grouping aside) exactly its own meaning, and only a fence toggles the code region |
| FormatProperties.RunEmit | src/components/ChatAssistant.js:145-205 | the pass adds, grouping aside, the meanings of its lines in order |
| FormatProperties.RunExplode | src/components/ChatAssistant.js:207-209 | after the final flush nothing pending is lost |
| FormatProperties.FormatMatchesReference | src/components/ChatAssistant.js:138-212 | grouping and line breaks aside, the output is exactly each line's meaning in line order: nothing lost, invented or reordered |
| ChatSession.OrElse | src/components/ChatAssistant.js:90 | `answer \|\| fallback`: the answer when it is a non-empty string, otherwise the fallback |
| ChatSession.Reply | src/components/ChatAssistant.js:74-98 | one assistant message: the answer on success, tagged as a ticket exactly when one was generated and then carrying the generated ticket; the answer or else the error text on an application failure; the connection text when the request fails |
| ChatSession.Accepts | src/components/ChatAssistant.js:64 | a submission is accepted exactly when the input is not all white space and no reply is pending |
| ChatSession.Hydrated | src/components/ChatAssistant.js:42-48 | history is added exactly when mounted, successful and non-empty; it then has one message per history entry, in order, with the entry's role and content and no ticket |
| ChatSession.Controller.constructor | src/components/ChatAssistant.js:9-18 | the welcome message alone, empty input, nothing pending, history not loaded, dialog closed |
| ChatSession.Controller.StartHistoryLoad | src/components/ChatAssistant.js:34-39 | a request goes out exactly with a user id and the latch clear; the latch is set before it; reading the latch's current value, one controller issues at most one request |
| ChatSession.Controller.CompleteHistoryLoad | src/components/ChatAssistant.js:40-52 | the conversation becomes the old one followed by what the response adds |
| ChatSession.Controller.Unmount | src/components/ChatAssistant.js:57-59 | the cleanup clears the mounted flag |
| ChatSession.Controller.ChangeInput | src/components/ChatAssistant.js:310 | the input becomes the typed text |
| ChatSession.Controller.QuickQuestion | src/components/ChatAssistant.js:111-113 | the input becomes the question and nothing is sent |
| ChatSession.Controller.StartSubmit | src/components/ChatAssistant.js:62-72 | a refused submission changes nothing; an accepted one appends one user message with the untrimmed input, clears the input, sets loading and sends the prior messages followed by it |
| ChatSession.Controller.CompleteSubmit | src/components/ChatAssistant.js:74-101 | exactly one assistant message is appended and loading ends, whatever the outcome |
| ChatSession.Controller.Submit | src/components/ChatAssistant.js:62-102 | an accepted submission adds the user message and then one reply, and ends not loading |
| ChatSession.Controller.OpenClearModal | src/components/ChatAssistant.js:226 | the trash button opens the dialog |
| ChatSession.Controller.CloseClearModal | src/components/ChatAssistant.js:235 | the overlay and cancel button close it |
| ChatSession.Controller.StartClear | src/components/ChatAssistant.js:115-122 | without a user id nothing happens; with one, the dialog closes and the deletion is requested |
| ChatSession.Controller.CompleteClear | src/components/ChatAssistant.js:124-134 | only a successful deletion replaces the conversation with the single confirmation message; otherwise it is unchanged |
| TicketSearch.Keep | src/components/TicketHistory.js:43-73 | one `.filter`: never longer, and holds exactly the tickets of the list that pass the filter |
| TicketSearch.FilterMatches | src/components/TicketHistory.js:40-76 | the reference: exactly the tickets of the list that satisfy every filled-in field |
| TicketSearch.Select | src/components/TicketHistory.js:40-76 | exactly the tickets of the list that pass every given filter |
| TicketSearch.SearchSelects | src/components/TicketHistory.js:40-74 | the chain in source order selects by the active filters |
| TicketSearch.ChainSelects | src/components/TicketHistory.js:42-74 | filters applied one after the other select by all of them |
| TicketSearch.SelectSameFilters | src/components/TicketHistory.js:42-74 | selection depends only on the set of filters, not their order or repetition |
| TicketSearch.AllHoldMatches | src/components/TicketHistory.js:42-74 | the active filters all pass exactly on the tickets that match the form |
| TicketSearch.SearchMatches | src/components/TicketHistory.js:39-77 | the chain is one conjunction: the result is exactly the loaded tickets satisfying every filled-in field, in their order |
| TicketSearch.OrderIrrelevant | src/components/TicketHistory.js:42-74 | applying the same filters in any other order, with repeats, gives the same list |
| TicketSearch.SearchSubsequence | src/components/TicketHistory.js:40-76 | the result is a subsequence of the loaded tickets, no ticket more often than loaded, and holds exactly the matching ones |
| TicketSearch.NoFiltersKeepsAll | src/components/AdvancedSearch.js:31-41 | with the form reset to all empty fields, the result is every loaded ticket |
| TicketSearch.MissingFieldExcluded | src/components/TicketHistory.js:42-74 | a ticket lacking the field a filled-in text filter tests, or whose date is absent or unparsable under a date filter, is never shown, and no ticket is shown once a date or fare field fails to parse |
| TicketSearch.QueryCaseIgnored | src/components/TicketHistory.js:42-56 | the ticket-number and passenger-name queries ignore letter case: lower-casing them first (`Lower`) leaves the result unchanged |
| TicketSearch.RouteCaseMatters | src/components/TicketHistory.js:47-50 | the route query is matched as typed, case-sensitively: on a ticket for route `A1` the query `A1` keeps it and `a1` drops it |
| TicketSearch.BoundsInclusive | src/components/TicketHistory.js:63-74 | date and fare bounds are inclusive, `dateTo` reaches 23:59:59 of its day, and a missing fare counts as zero |
| TicketSearch.TicketHistory.constructor | src/components/TicketHistory.js:15-17 | both lists empty and loading |
| TicketSearch.TicketHistory.StartLoad | src/components/TicketHistory.js:27 | loading starts |
| TicketSearch.TicketHistory.CompleteLoad | src/components/TicketHistory.js:28-36 | a response sets both lists to its data, or to empty when absent; a failure leaves them; loading ends either way |
| TicketSearch.TicketHistory.AdvancedSearch | src/components/TicketHistory.js:39-77 | the shown list becomes the matching loaded tickets, not narrowed from what was shown before; it stays a subsequence of the loaded list |
| TicketSearch.TicketHistory.ResetSearch | src/components/TicketHistory.js:79-81 | the shown list becomes the loaded list |

## Left out

- Network calls are not modelled: the two `fetch` calls to the history endpoint, `chatConversation` and `getTickets`. Their answers are the input datatypes `ChatResponse`, `HistoryResponse`, `DeleteResponse` and `LoadResponse`.
- MessageFormat.FormatMessage: classifies list lines with the intended bullet class `*`, `-`, `•`, not the double-encoded class the file spells (`*`, `-`, `â`, `€`, `¢`). The class as written is modelled only by `WrittenBulletMarkerLength`, and `WrittenBulletMissesBullet` shows where the two differ.
- `src/services/api.js` does not export the `chatConversation` that `ChatAssistant.js` imports at line 2; it exports only `login`, `getRoutes`, `getRoute`, `calculateFare`, `createTicket`, `getTickets`, `getTicket` and `getStatistics`. With the files as given, the call at line 72 would throw, so every accepted submission would end with the connection-failure reply, `Reply(ChatTransport)`. The model keeps the successful and application-failure answers as possible inputs, as the backend's endpoint would give them once the function is exported.
- The request arguments are not modelled beyond what the start methods return: the route number sent with a chat request and the `searchDate` sent with `getTickets`. The `searchDate` state, and the reload when it changes, are not part of this model.
- Rendering is not modelled: JSX, React keys, CSS classes and scrolling. Blocks and spans stand for the elements `formatMessage` builds.
- Translation is left out. `t('chatWelcome')` is the constructor's parameter. The quick questions are whatever string `QuickQuestion` receives. `src/hooks/useTranslation.js` is not part of this model.
- `new Date(...)` and `parseFloat(...)` are abstracted:
  - Dates are millisecond timestamps and fares are cents.
  - A form field is `Unset`, `Parsed(value)` or `Unparseable`.
  - The difference between how `dateFrom` (a date-only string, read as UTC) and `dateTo + 'T23:59:59'` (read as local time) are parsed is not modelled. `dateTo` is its day's midnight plus 86 399 000 ms.
- JsText.Lower: lower-cases ASCII letters only. Other letters are left unchanged, because JavaScript's full Unicode case mapping (which can change length) is out of scope.
- JsText.Utf16Length: counts code units per character. Strings holding lone surrogates are not distinguished from their code points.
- A `null` ticket date converts to the epoch in `new Date(null)`, so it is `Some(0)` in the model, not a missing date: under a `dateTo`-only filter such a ticket is shown. Only an absent (`undefined`) or unparsable date is `None`.
- The asynchronous interleaving of events while a request is in flight is not modelled. Each handler is a start method and a complete method called in sequence. React's batching of state updates and the render-time closures over `messages` and `historyLoaded` are not modelled either.
- ChatSession.Controller.StartHistoryLoad: reads the latch's current value, while the history effect reads `historyLoaded` from its render's snapshot; a second run of the effect from the same render (React StrictMode's mount, unmount and mount again) passes the guard and fetches the history twice, which the model cannot show.
- The disabling of the send button, quick-question buttons and input while loading is left out. It is rendering, and `StartSubmit` refuses in that case anyway.
- A successful chat reply without an `answer` field is not modelled: the answer is a string.
- A user id is modelled as an optional string, truthy when present and non-empty. Numeric ids are not modelled.
- `totalRevenue`, printing, export, statistics and the rest of the ticket history screen are not part of this model.

## Findings

| source | as written | input that shows it | evidently intended | confidence | as-written member | corrected member |
|---|---|---|---|---|---|---|
| src/components/ChatAssistant.js:175 | the bullet class is spelled `[\*\-â€¢]`: the `•` is stored double-encoded, as the three characters `â`, `€`, `¢` | `• Stop` is not a list line and falls through to a text line, while `€ 5` is taken as a list item | the class `*`, `-`, `•` | high that the class is as quoted; not executed | MessageFormat.WrittenBulletMarkerLength, FormatProperties.WrittenBulletMissesBullet | MessageFormat.BulletMarkerLength, MessageFormat.BulletMarkerSpec |
