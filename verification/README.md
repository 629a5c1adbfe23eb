# AMASS CRM: verified cores

A Dafny model of the parts of the CRM that are small algorithms or protocols, with proofs of
what they promise on every input, in every interleaving and over every run.

| file | models |
|---|---|
| `Options.dfy` | optional values |
| `Regex.dfy`, `Substitution.dfy`, `Redaction.dfy`, `Splices.dfy`, `Identifiers.dfy` | the AI worker's PII redaction: a backtracking matcher, `Pattern.sub`, the five passes, the Presidio fallbacks, the passes taken together, and what each pattern says in plain terms |
| `ApiClient.dfy`, `ApiOutcomes.dfy`, `QueryRetry.dfy` | the web client's fetch wrapper with single-flight refresh and offline queueing, what each outcome of a call means, and the query client's retry rule on top of it |
| `OfflineReplay.dfy` | one replay pass over the queue the wrapper fills |
| `Pagination.dfy` | cursor pages, walked while rows are inserted, removed and hidden |
| `Color.dfy` | HSL and hex colours, exact and rounded |
| `ServiceWorker.dfy` | the service worker's routing, strategies, purge and clear over cache handles |
| `Csv.dfy` | the CSV export and a reader for it |
| `ReloadGuard.dfy`, `Locale.dfy`, `Grouping.dfy`, `Download.dfy` | the reload guard, the one-time catalogue load, the grouping loops, the capped download |

How the models read the code:

- Code between two awaits is one step. `ApiClient`, `ServiceWorker` and `Locale` are state machines over
  such steps (`Apply`), and a class in the same module (`Client`, `Worker`, `I18n`) changes the module's own
  variables segment by segment, each method proved to take exactly its step. A statement about `Reaches`
  holds for every interleaving of any number of calls.
- Network, server, IndexedDB, Presidio and clocks are inputs: they may do anything the steps allow.
- The proofs about substitution are generic in the character table and in the pattern. The five patterns are
  syntax trees, matched by a backtracking engine with Python's preference order that is proved sound and
  complete for the language of the tree.
- Where the code keeps less than its own description says, the exact condition is proved: agents named like
  an inherited object member, on which the calls report throws (`Grouping.ByAgent`, with the input in
  `Grouping.OneNameFailsReport`); unquoted header names in the CSV export (`Csv.ReadsBackIff`), one empty last
  cell under a reader that allows an ending line break (`Csv.EndingReadsBackIff`), and keys that only later
  objects have (`Csv.EverythingIsKeptIff`); a cache that cannot be opened, which fails a page although the
  network is up (`ServiceWorker.NetworkFirstPrefersNetwork`, `ServiceWorker.UnopenedCacheFailsPage`); a cursor
  row that is soft-deleted or removed between two pages (`Pagination.FetchFollowsCursorIff` for one fetch,
  `Pagination.WalkReturnsIff` for a whole walk; hiding it costs one row, as in
  `Pagination.HiddenCursorExample`); the replay order of the offline queue
  (`OfflineReplay.DrainIsFifoIff`; the module's comments call the drain FIFO); a failed load of the English
  catalogue, which is never retried (`Locale.EnglishIsReachableIff`); colours with percentages above 100
  (`Color.HslToHexIsWellFormedIff`); and a card number whose first or last twelve digits start with 40
  and are written as one, apart from the other four: the phone pass takes them and the four stay
  (`Identifiers.CardIsNamed`, with the input in `Identifiers.CardTakenForPhone`).

## Model

| member | source | states |
|---|---|---|
| Redaction.RedactedTextIsClean | apps/ai-worker/app/redaction.py:94-127 | whatever Presidio does (absent, raising, returning any text), none of the five patterns occurs anywhere in the result of `redact` |
| Redaction.StubCleans | apps/ai-worker/app/redaction.py:86-91 | after all five passes no pattern matches, although each pass rewrites the text the earlier ones left |
| Redaction.PassesClean | apps/ai-worker/app/redaction.py:86-91 | the same fixpoint for any list of patterns that end in a word character, avoid brackets and need a digit or an at-sign |
| Redaction.StubIsIdempotent | apps/ai-worker/app/redaction.py:86-91 | redacting a redacted text changes nothing |
| Redaction.StubIsIdentityIffClean | apps/ai-worker/app/redaction.py:86-91 | the stub leaves a text alone if and only if no pattern occurs in it |
| Splices.StubIsSplice | apps/ai-worker/app/redaction.py:86-91 | all five passes together are one splice of the text given: the rest is copied in order, and each replaced stretch matches a pattern and is exactly that pattern's token |
| Splices.PassRefines | apps/ai-worker/app/redaction.py:90 | a pass over a text that earlier passes spliced cuts into none of their tokens, so the result is a splice of the same first text |
| Redaction.WordBecomesFirstToken | apps/ai-worker/app/redaction.py:24-30 | a text that is one word becomes the token of the first pattern in the list that it is, and no later pass touches that token |
| Redaction.IdentifiersAreNamed | apps/ai-worker/app/redaction.py:25-26 | thirteen digits alone become the personal-code token, two capitals and six digits the identity-card token |
| Redaction.NothingStandsFree | apps/ai-worker/app/redaction.py:94-127 | in a result, on every path, no text of a pattern body that begins and ends in word characters stands between non-word characters or the ends of the text |
| Redaction.NoIdentifierSurvives | apps/ai-worker/app/redaction.py:25-26 | in particular no thirteen digits, and no two capitals followed by six digits, stand free anywhere in a result |
| Redaction.NoPhoneSurvives | apps/ai-worker/app/redaction.py:27 | no nine or ten digits stand free in a result, bare or after 0 or 40 with an optional dash or blank |
| Redaction.NoAddressSurvives | apps/ai-worker/app/redaction.py:28 | no e-mail address (name, at-sign, host, suffix of two letters or more, any case) stands free in a result |
| Redaction.NoCardSurvives | apps/ai-worker/app/redaction.py:29 | no card number (four groups of four digits, each next to the last or one blank or dash away) stands free in a result |
| Redaction.Redact | apps/ai-worker/app/redaction.py:94-127 | the function on all its paths, with its clean result |
| Redaction.RunPasses | apps/ai-worker/app/redaction.py:88-91 | the pass loop computes the composition of the passes |
| Identifiers.CnpIs | apps/ai-worker/app/redaction.py:25 | the first pattern is exactly the texts of thirteen digits |
| Identifiers.CiIs | apps/ai-worker/app/redaction.py:26 | the second is exactly two capitals followed by six digits |
| Identifiers.TelIs | apps/ai-worker/app/redaction.py:27 | the third is exactly nine or ten ASCII digits after nothing, 0, 40 or +40 (and +0), with one dash or blank after such a prefix or none |
| Identifiers.EmailIs | apps/ai-worker/app/redaction.py:28 | the fourth is exactly name, at-sign, host, dot and suffix, each of its own characters and lengths |
| Identifiers.CardIs | apps/ai-worker/app/redaction.py:29 | the fifth is exactly four groups of four digits, with one dash or blank between neighbours or none |
| Identifiers.EmailIsNamed | apps/ai-worker/app/redaction.py:28 | a name of ASCII letters, dots, plus signs, dashes and underscores that starts with a letter, at a host of letters and dashes, with a suffix of two or more letters, becomes the e-mail token and nothing else |
| Identifiers.AddressIsNamed | apps/ai-worker/app/redaction.py:28 | so does any address that starts with a word character and holds no earlier identifier |
| Identifiers.PhoneIsNamed | apps/ai-worker/app/redaction.py:27 | every phone number without a plus sign becomes the phone token and nothing else, with its prefix |
| Identifiers.TenDigitsAreNamed | apps/ai-worker/app/redaction.py:27 | ten digits become the phone token |
| Identifiers.CardIsNamed | apps/ai-worker/app/redaction.py:24-30 | what becomes of any card number alone: the card token, unless its first or last three groups are one run of twelve ASCII digits starting with 40 with a gap to the other group; then the phone token, and that group stays |
| Identifiers.SpacedCardIsNamed | apps/ai-worker/app/redaction.py:29 | four groups of four digits with blanks between them become the card token |
| Identifiers.CardTakenForPhone | apps/ai-worker/app/redaction.py:24-30 | twelve digits starting with 40, a blank and four digits: the phone token, and the four digits stay |
| Identifiers.IdentifierHidesAddress | apps/ai-worker/app/redaction.py:24-30 | because the numbers are replaced first, an address whose whole name is one keeps its host |
| Identifiers.LongNameIsAddress | apps/ai-worker/app/redaction.py:24-30 | an address whose name is a word of fifteen or more characters is the e-mail token, digits in it or not |
| Substitution.SubCleans | apps/ai-worker/app/redaction.py:90 | one pass leaves no match of its own pattern |
| Substitution.SubKeepsClean | apps/ai-worker/app/redaction.py:90 | one pass never creates a match of another pattern, because at each joint the boundary is where it was or nowhere |
| Substitution.SubIsSplice | apps/ai-worker/app/redaction.py:90 | input and output share the same gaps in the same order, with one token for each replaced span |
| Substitution.HitsAreMatches | apps/ai-worker/app/redaction.py:90 | every replaced span is a match of the pattern |
| Substitution.MatchesAreCovered | apps/ai-worker/app/redaction.py:90 | no match starts in text that is copied |
| Substitution.Search | apps/ai-worker/app/redaction.py:90 | the search loop finds the leftmost match from a position, or shows there is none |
| Substitution.Substitute | apps/ai-worker/app/redaction.py:90 | the scan with its buffer computes the specified pass |
| Regex.EndsExact | apps/ai-worker/app/redaction.py:24-30 | the backtracking matcher finds exactly the spans in the language of a pattern body |
| Regex.EngineIsFaithful | apps/ai-worker/app/redaction.py:24-30 | with its word boundaries, the engine reports a match exactly when one starts at the position |
| Regex.SyntaxSuffices | apps/ai-worker/app/redaction.py:24-30 | three syntactic checks of a body give the conditions of the fixpoint theorem |
| ApiClient.SingleFlight | apps/web/src/lib/api.ts:110-136 | in every run the gate is set exactly while a refresh is unsettled, at most one refresh is in flight, everyone who joined it and is done got its value, and the refresh request neither refreshes nor repeats |
| ApiClient.RoundsSettleOnce | apps/web/src/lib/api.ts:114-134 | between any two points of a run a settled round does not change, and it is successful exactly if its request brought a `tokens` value, with or without an access token in it |
| ApiClient.QueueMatchesResults | apps/web/src/lib/api.ts:176-200 | in every run as many rows are created as calls return a queued result, each with that call's own method, URL, body and id; keys never repeat; refresh requests are never queued |
| ApiClient.FailureIsReal | apps/web/src/lib/api.ts:176-199 | a call ends in a network error only after its request met one, and a mutation that can be queued only after storing it failed too |
| ApiOutcomes.OfflineMutationIsKept | apps/web/src/lib/api.ts:51-57 | in every run a POST, PATCH, PUT or DELETE to a path outside /auth/, /webhooks/ and /uploads/ ends in a network error only if storing it failed, and a call is queued only if it is one of those |
| ApiOutcomes.OutcomeIsExplained | apps/web/src/lib/api.ts:202-219 | which replies lead to each result: nothing for a 204, the text for another 2xx, the status of an error, and a refresh exactly for a 401 |
| ApiOutcomes.TokenIsLastWritten | apps/web/src/lib/api.ts:124-133 | the token held is the one written last: by a login or logout, or by a settled refresh, which stores what its reply brought and clears it otherwise |
| ApiClient.CallsAreBounded | apps/web/src/lib/api.ts:202-207 | a call sends at most twice, the second time exactly after a successful refresh, reports a 401 only after waiting for one, and throws an `ApiError` only for a status that is not 2xx |
| ApiClient.RunsAreFinite | apps/web/src/lib/api.ts:112-219 | n calls take at most 7n steps and put at most 3n requests on the wire, in any interleaving |
| ApiClient.NeverStuck | apps/web/src/lib/api.ts:112-219 | as long as a call or a refresh is unfinished some step is possible, so with the bound on runs every call ends |
| ApiClient.StepKeepsInv | apps/web/src/lib/api.ts:112-219 | the invariant over gate, rounds, calls and queue that every step keeps |
| ApiClient.Client.TryRefresh | apps/web/src/lib/api.ts:112-136 | joins the promise behind the gate or opens the one round |
| ApiClient.Client.OnResponse | apps/web/src/lib/api.ts:202-212 | the branches on the response status |
| ApiClient.Client.OnNetworkError | apps/web/src/lib/api.ts:176-199 | queue the mutation or rethrow |
| ApiClient.Client.OnEnqueued | apps/web/src/lib/api.ts:183-199 | the queued result, or the original error if storing failed |
| ApiClient.Client.OnRefreshed | apps/web/src/lib/api.ts:124-133 | tokens stored or session cleared, and the gate cleared either way |
| ApiClient.Client.OnRefreshAwaited | apps/web/src/lib/api.ts:203-206 | one retry after success, the 401 otherwise |
| QueryRetry.QueryIsBounded | apps/web/src/lib/queryClient.ts:16-21 | a query makes at most two attempts and four sends, and one attempt if the first ends in 400, 401, 403 or 404 |
| QueryRetry.MutationIsBounded | apps/web/src/lib/queryClient.ts:24-26 | a mutation makes one attempt and at most two sends |
| QueryRetry.AnotherAttemptIff | apps/web/src/lib/queryClient.ts:16-26 | there is a second attempt exactly after a first that failed, other than with 400, 401, 403 or 404, and never for a mutation |
| QueryRetry.FourSendsHappen | apps/web/src/lib/queryClient.ts:16-21 | for every request a run in which its two attempts, one after the other, send it four times |
| OfflineReplay.NothingIsLost | apps/web/src/features/offline/useOfflineQueue.ts:108-141 | a row that was not sent, or whose change storage refused, is kept as it is; one answered with 200 to 299 or 400 to 499 is gone; any other that was sent is kept with one more attempt |
| OfflineReplay.UnansweredIsKept | apps/web/src/features/offline/useOfflineQueue.ts:127-139 | a row whose request meets a network error or any other status is still in the queue |
| OfflineReplay.StopsAt | apps/web/src/features/offline/useOfflineQueue.ts:133-139 | such a row, or one whose change storage refuses, is the last one sent, and every later row stays as it was |
| OfflineReplay.WaitsIff | apps/web/src/features/offline/useOfflineQueue.ts:42-45 | a row is passed over exactly while it is younger than 1, 2, 4, 8, 16 and then 30 seconds for its failed attempts |
| OfflineReplay.DrainIsFifoIff | apps/web/src/features/offline/useOfflineQueue.ts:109-117 | what a pass sends is the front of the queue in queue order, against every server and storage, exactly if no row that backs off precedes one that does not |
| OfflineReplay.LaterEditOvertakes | apps/web/src/features/offline/useOfflineQueue.ts:109-117 | a queue in which the later edit is sent and the earlier one is not |
| OfflineReplay.Replay | apps/web/src/features/offline/useOfflineQueue.ts:108-141 | the loop computes the specified pass, with its stop at a transient failure and at a rejected change of the queue |
| Pagination.WalkIsComplete | apps/api/src/common/pagination.ts:11-25 | walking pages while rows are inserted, removed, hidden and shown, but every cursor row stays shown: no row twice, only rows that were there, and every row shown throughout |
| Pagination.WalkReturnsIff | apps/api/src/common/pagination.ts:11-25 | in every walk, cursor rows hidden or removed included: no row twice, only rows shown at the time, and a row shown throughout is returned if and only if no fetch loses it (`Lost`: nothing, one row, or all that remains) |
| Pagination.StillWalkIsTheListing | apps/api/src/common/pagination.ts:11-25 | on a table at rest there is exactly one walk; its pages make up the listing, max(1, ceil(n / limit)) of them, and only the last has no cursor |
| Pagination.FetchFollowsCursorIff | apps/api/src/common/pagination.ts:11-17 | a fetch continues right after the last row returned if and only if that row is still shown or nothing is left |
| Pagination.HiddenCursorLosesOne | apps/api/src/common/pagination.ts:11-17 | with its cursor row soft-deleted a fetch skips exactly the next row of the listing and goes on from there |
| Pagination.HiddenCursorExample | apps/api/src/common/pagination.ts:11-25 | three rows, one a page: the first is soft-deleted after it was returned, and the second is never seen |
| Pagination.LostCursorEndsWalk | apps/api/src/common/pagination.ts:11-25 | with its cursor row removed from storage a fetch is the empty last page |
| Pagination.FetchFollowsCursor | apps/api/src/common/pagination.ts:11-25 | query arguments and page cut together give the next `limit` rows and the right cursor |
| Color.RgbSurvivesExactly | apps/web/src/routes/settings.appearance.page.tsx:549-584 | without rounding, RGB to HSL to RGB is the identity, in all six sectors and for greys |
| Color.HslSurvivesExactly | apps/web/src/routes/settings.appearance.page.tsx:549-584 | without rounding, HSL to RGB to HSL is the identity for every chromatic colour |
| Color.GreySurvivesExactly | apps/web/src/routes/settings.appearance.page.tsx:549-584 | greys come back with their lightness and no hue |
| Color.HexSurvivesWithinFive | apps/web/src/routes/settings.appearance.page.tsx:549-584 | every #rrggbb, stored in whole degrees and percents and read back, differs by at most 5 per channel |
| Color.FiveIsReached | apps/web/src/routes/settings.appearance.page.tsx:549-584 | a colour for which the difference is 5 |
| Color.HslToHexIsWellFormedIff | apps/web/src/routes/settings.appearance.page.tsx:549-561 | any three numbers give a well-formed #rrggbb if and only if lightness and chroma leave every channel a byte, which percentages up to 100 do |
| Color.PrintsNearestBytes | apps/web/src/routes/settings.appearance.page.tsx:549-561 | each byte of a well-formed result is the integer next to 255 times the exact channel, halves up |
| Color.StoresNearestNumbers | apps/web/src/routes/settings.appearance.page.tsx:564-584 | degrees and percents stored are those next to the exact ones, halves up |
| Color.HalvesGoUp | apps/web/src/routes/settings.appearance.page.tsx:558 | a grey of 30%, with 76.5 in every channel, prints as #4d4d4d |
| Color.BytePrintsAs | apps/web/src/routes/settings.appearance.page.tsx:561 | a byte is printed as two lower-case digits, the sixteens first |
| Color.OversaturatedIsMalformed | apps/web/src/routes/settings.appearance.page.tsx:549-561 | saturation 200% at half lightness is malformed, whatever the hue |
| Color.ChannelsSpan | apps/web/src/routes/settings.appearance.page.tsx:556-560 | for every hue one channel is at each end of the chroma around the lightness and none is beyond |
| Color.HexTextSurvives | apps/web/src/routes/settings.appearance.page.tsx:561-568 | padded hex digits are read back as the bytes they print |
| Color.HexToHsl | apps/web/src/routes/settings.appearance.page.tsx:564-584 | for hex digits of any number, with or without a hash sign: black without a pair, the specified HSL of the first three pairs, NaN with one or two |
| Color.HslOfChannels | apps/web/src/routes/settings.appearance.page.tsx:568-582 | the branches and the switch compute the specified HSL |
| Color.ToRgbBySector | apps/web/src/routes/settings.appearance.page.tsx:552-560 | the wave formula gives the channels of each sector of the colour wheel |
| ServiceWorker.EntriesAreServed | apps/web/public/sw.js:23-101 | in every run each entry of the current cache has a URL outside /api/ and an ok response the network gave for that URL |
| ServiceWorker.AnswersAreHonest | apps/web/public/sw.js:75-101 | where each answer of a strategy may come from, given what the network and the storage did for that event; and what a strategy falls back to last comes only after the event looked its own URL up and missed it |
| ServiceWorker.FailureHasCause | apps/web/public/sw.js:75-101 | in every run a fetch fails only if the network or the storage did: its promise is rejected exactly if one of its own accesses to the storage was, and the error response comes only after its own request failed |
| ServiceWorker.HeldEntryServes | apps/web/public/sw.js:75-101 | what the cache holds stays there until a clear, and every later request for it is answered: cache-first from the cache, network-first from the network or else from the cache, never by "/" or an error; it fails exactly if the storage rejects one of its own accesses |
| ServiceWorker.HomeIsLastResort | apps/web/public/sw.js:82-87 | if the cache holds "/", no later network-first event ends in the error response until a clear, and what it answers from "/" is an ok reply the network gave for that URL |
| ServiceWorker.OkReplyIsHeld | apps/web/public/sw.js:75-101 | from the moment an event opens the cache, if no clear comes and no put fails, an ok reply is held once the puts are through |
| ServiceWorker.InstalledAssetsAreHeld | apps/web/public/sw.js:23-26 | from an install that fetched everything on, each static asset is held until a clear |
| ServiceWorker.CacheFirstIsTransparent | apps/web/public/sw.js:90-101 | if the content behind a URL never changes, cache-first answers with it, or fails only when its own request or access to the storage did |
| ServiceWorker.NetworkFirstPrefersNetwork | apps/web/public/sw.js:75-88 | network-first gives the network's answer exactly when there is one, and asks the network if and only if the cache could be opened |
| ServiceWorker.UnopenedCacheFailsPage | apps/web/public/sw.js:76 | for every page request a run in which the cache cannot be opened and the page fails without the network being asked |
| ServiceWorker.OnlyCurrentCacheAfterActivate | apps/web/public/sw.js:28-37 | after activation no other cache name ever exists |
| ServiceWorker.ClearForgets | apps/web/public/sw.js:67-73 | after a clear nothing fetched before it is found in a cache again, puts still under way included |
| ServiceWorker.StepKeepsSince | apps/web/public/sw.js:23-101 | the provenance invariant that every step keeps |
| ServiceWorker.UninterruptedFetch | apps/web/public/sw.js:39-101 | a fetch event that nothing interrupts, in whatever order its steps come: it is never stuck and done after at most four; it failed if the storage rejected one, and otherwise is answered by network, cache, "/" or error in that order, or cache first, with a put under way exactly for an ok reply it returns |
| ServiceWorker.Route | apps/web/public/sw.js:39-64 | mutations and /api/ requests bypass the worker, documents outside /assets/ go network-first, all else cache-first |
| ServiceWorker.Worker.OnFetch | apps/web/public/sw.js:39-64 | the four branches of the listener take the step the routing classes say, with the invariant kept |
| ServiceWorker.Worker.OnOpened | apps/web/public/sw.js:75-91 | both strategies up to the await after caches.open, with the invariant kept |
| ServiceWorker.Worker.OnLooked | apps/web/public/sw.js:92-93 | cache-first after its lookup: answer, or go on to the network |
| ServiceWorker.Worker.OnAnswered | apps/web/public/sw.js:78-100 | both strategies after fetch: start a put for an ok reply, return, fall back or fail |
| ServiceWorker.Worker.OnFellBack | apps/web/public/sw.js:82-83 | network-first after the lookup of the request |
| ServiceWorker.Worker.OnSawHome | apps/web/public/sw.js:85-86 | network-first after the lookup of "/" |
| ServiceWorker.Worker.OnStorageRejected | apps/web/public/sw.js:76-92 | an access to the storage that is rejected outside the `try`, or in its `catch`, rejects the promise the page waits for |
| ServiceWorker.Worker.OnPut | apps/web/public/sw.js:79 | a put nobody awaits comes through or fails |
| ServiceWorker.Worker.OnInstall | apps/web/public/sw.js:23-26 | all static assets are kept, or none if a request fails or is not ok |
| ServiceWorker.Worker.DeleteOthers | apps/web/public/sw.js:31-33 | the deletion loop leaves exactly the kept names |
| Csv.ReadsBackIff | apps/web/src/lib/csv.ts:4-16 | for any cell contents, an RFC 4180 reader (section 2, line feeds) recovers header and cells if and only if there is a header name and none holds a comma, quote or line feed |
| Csv.DownloadReadsBackIff | apps/web/src/lib/csv.ts:2-16 | the same for the objects handed to `downloadCsv` |
| Csv.EndingReadsBackIff | apps/web/src/lib/csv.ts:4-16 | a reader that takes one final line feed for the ending of the last record recovers header and cells if and only if, besides, the last row is not one empty cell |
| Csv.EverythingIsKeptIff | apps/web/src/lib/csv.ts:4-16 | every value of every object can be got back from the file if and only if the first object has keys, all plain, and no later object has a value under a key the first one lacks |
| Csv.CellsAre | apps/web/src/lib/csv.ts:7-11 | each cell is the value under its header, and empty for null and for a missing key |
| Csv.QuotedIff | apps/web/src/lib/csv.ts:11-12 | a cell is written as it is if and only if it holds no comma, line feed or quote |
| Csv.OtherKeysAreDropped | apps/web/src/lib/csv.ts:4-16 | a later object with any other keys besides the first object's gives the same file |
| Csv.CommaSplitsName | apps/web/src/lib/csv.ts:6 | a header name with a comma reads back as two names over the one column |
| Csv.NoKeysReadBackAsOne | apps/web/src/lib/csv.ts:4-16 | an object without keys reads back as two records of one empty cell |
| Csv.RowsReadBack | apps/web/src/lib/csv.ts:7-15 | the rows under the header always read back exactly |
| Csv.NotItsOwnQuotation | apps/web/src/lib/csv.ts:6 | an unquoted name is never read as a quoted spelling of itself |
| ReloadGuard.ReloadsAreSpaced | apps/web/src/router.tsx:172-180 | both handlers interleaved in any way, any two automatic reloads are more than 30 s apart |
| ReloadGuard.ReloadsInWindow | apps/web/src/components/ErrorBoundary.tsx:40-49 | any window of T ms holds at most floor(T / 30000) + 1 automatic reloads |
| ReloadGuard.ReloadsIff | apps/web/src/router.tsx:172-180 | a stale chunk reloads the page exactly if the last reload is more than 30 s ago, or there was none and nothing newer or unreadable is stored |
| ReloadGuard.Session.ComponentDidCatch | apps/web/src/components/ErrorBoundary.tsx:40-50 | the boundary's guard and update of the shared stamp |
| ReloadGuard.Session.ReloadEffect | apps/web/src/router.tsx:172-180 | the effect's guard and update, with its two clock readings |
| Locale.FetchedAtMostOnce | apps/web/src/i18n/index.ts:220-247 | however switches overlap, the English catalogue is fetched at most once |
| Locale.EnglishOnlyWhenComplete | apps/web/src/i18n/index.ts:231-247 | the helper turns the language to English only when the whole catalogue is registered |
| Locale.CallsGetWhatTheyAskFor | apps/web/src/i18n/index.ts:231-247 | a call that returns gives English exactly if it asked for "en", one throws only if it asked for that and the load failed, and the language is that of the last switch |
| Locale.UnsupportedChangesNothing | apps/web/src/i18n/index.ts:231-247 | from any state on, the calls with an unsupported locale return the default, and the run without them ends in the same language, bundles, gate and fetches with every other call as far |
| Locale.EnglishIsReachableIff | apps/web/src/i18n/index.ts:231-247 | in every run English can still come up if and only if it is up already or its load has not failed |
| Locale.FailureIsFinal | apps/web/src/i18n/index.ts:235-243 | after a failed load no later switch brings English up or fetches again |
| Locale.LoadEnResources | apps/web/src/i18n/index.ts:156-218 | the import list and the namespace list agree, so the loop gives each namespace its own file |
| Grouping.DealsByStage | apps/web/src/routes/deals.kanban.page.tsx:81-86 | each stage's bucket is the order-preserving filter of the deals |
| Grouping.GroupsPartition | apps/web/src/routes/deals.kanban.page.tsx:81-86 | the buckets of distinct stages hold every deal of a known stage exactly as often as the list |
| Grouping.ByAgent | apps/web/src/routes/reports.page.tsx:325-330 | the reduction throws if and only if a call's agent goes by a name every object inherits; otherwise each agent's group is the order-preserving filter of the calls |
| Grouping.GroupedIff | apps/web/src/routes/reports.page.tsx:325-330 | the same of the fold over the callback, inherited members looked up before own groups are made |
| Grouping.GroupOfCall | apps/web/src/routes/reports.page.tsx:325-330 | a call is in the group of its agent name, or else of its agent id, or else of "Necunoscut", and in no other |
| Grouping.OneNameFailsReport | apps/web/src/routes/reports.page.tsx:325-330 | one call of an agent named "constructor", anywhere in the list, and the grouping throws |
| Grouping.TotalsAddUp | apps/web/src/routes/reports.page.tsx:360-362 | the per-agent second totals add up to the total over all calls |
| Grouping.MinutesAndSecondsReadBack | apps/web/src/routes/reports.page.tsx:363-365 | the MM:SS text determines the total |
| Download.DownloadRecording | apps/ai-worker/app/pipeline.py:193-247 | the whole body if everything is in order and it is within the cap, nothing otherwise, never a part |

## Left out

- Unicode tables: \w, \d and \s beyond ASCII are any tables with digits among the word characters and spaces not; \w is not computed.
- Presidio, Whisper, Anthropic, MinIO and BullMQ: Presidio may return any text or raise; the others are not modelled.
- HTTP details of `rawFetch`: headers, query serialisation and URL normalisation; a request carries its search text ready-made, and a response body is its text and the tokens found in it.
- A server reply that itself says `queued: true`: results are told apart by how they arose.
- Live contents of the offline queue in `ApiClient`: rows are logged when created; `OfflineReplay` takes them out, one pass over the rows it read, without other tabs' changes, rows that arrive meanwhile or cache invalidation after it.
- Prisma: `findMany` is taken to list by `createdAt desc, id desc`, start at the stored cursor row, hidden or not, then filter and skip, and to yield nothing when that row is not stored.
- Services that pass `findMany` an order of their own (cases, orders, contracts, campaigns, chatter and others order by `createdAt` alone, products by name): the walk results are about the order of the helper.
- Limits below 1: request validation excludes them before the page functions are called.
- Floating-point error in the colour conversions: they are over the reals.
- Decimal text of a colour: "H S% L%" is its three numbers; whole degrees and percents print and parse as themselves.
- Color.HexToHsl: does not say what comes out for text with characters that are not hex digits, which the colour input never produces and for which parseInt has rules of its own.
- Install steps of the service worker: opening the cache, fetching the assets and storing them is one step, and the storage works during install, activation and clear.
- Cache matching beyond the URL (Vary, fragments) and quota: a put may fail at any time, and two racing puts may land in either order.
- Carriage returns in the CSV readers: they are LF-only, as the export is; `Read` takes every line feed as a separator, `ReadWithEnding` one at the end as the ending that RFC 4180 allows.
- Duplicate detection, forms, tables and all other user interface code.
- URL safety checks of the recording download: their verdict is an input.
- Server wiring, environment checks, seeds, tests: configuration, or settled by reading one branch.
