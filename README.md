# Dining concierge bot — a verified model

This project models, in Dafny, the decision logic of the Dining Concierge chatbot. The repository behind it has five parts:

- **The dialogue code hook** (`lambdas/lf1.js`). It validates the six slots of a dining request against fixed rules, in a fixed order. An invalid turn clears the offending slot and elicits it again. A valid turn queues exactly one reservation request and closes the dialogue.
- **Two fulfillment workers.** Each polls the request queue, searches the index for restaurants of the requested cuisine, looks them up in the catalog table, e-mails the requester and deletes the request.
  - `lambdafunctions/lf2.js` mails a numbered list of every hit found in the catalog.
  - `lambdas/lf2.js` mails only the top hit. Its failure path refers to a variable it never declares; see "Findings".
- **The catalog seeder** (`otherscripts/yelpScraper.js`). For five cuisines it pages through the Yelp business search, 50 results at a time. It inserts each business whose id the table does not hold yet, until 50 new entries were stored or a page comes back empty. It answers 200, or 500 with the first fetch error.
- **The chat front end** (`lambdas/lf0.js` and its copy `lambdafunctions/lf0.js`). It forwards the first text of a chat event to the Lex bot and wraps the bot's messages into the chat envelope. The two files differ only in their logging, so one module models both. The rows below cite one of the two places:
  - `createSimpleMessage` is at lambdas/lf0.js:40-51 and lambdafunctions/lf0.js:34-45;
  - `parseResponse` is at 54-61 and 48-55;
  - `postToBot` is at 64-86 and 58-80;
  - `handler` is at 89-102 and 83-94.

The external services become oracles passed as parameters:

| service | oracle |
|---|---|
| queue receive | `PollOutcome` |
| search | `string -> SearchOutcome` |
| catalog lookup | `string -> CatalogOutcome` |
| Yelp pages | `seq<FetchOutcome>` per cuisine |
| put failures and clock readings | indexed by the put's number |
| Lex | `LexRequest -> LexOutcome` |
| uuid and clock of the envelope | indexed by message position |
| date parsing and formatting | uninterpreted functions |

What the workers and the seeder do to the outside world is kept in state:

- **Workers:** an effect trace (`seq<Effect>` of e-mails and queue deletions).
- **Dialogue hook:** the queue's accepted messages.
- **Seeder:** the table (a `map` from id to entry), the trace of search requests and the number of puts.

The modules follow the source files:

| module | source |
|---|---|
| `Common` | `Option`/`Result`, standing in for `null`/`undefined` and thrown errors |
| `JsText` | the JavaScript text semantics the validator needs: `\s`, ASCII `toLowerCase`, `parseInt`, number rendering |
| `DiningValidation` | `validateDining` and its helpers |
| `DiningTurn` | the responses, the queue message, `handleDiningIntent` and `handler` of `lambdas/lf1.js` |
| `Fulfillment` | what the two workers share |
| `ListWorker` | `lambdafunctions/lf2.js` |
| `TopHitWorker` | `lambdas/lf2.js` |
| `Seeder` | `otherscripts/yelpScraper.js` |
| `ChatEnvelope` | both `lf0.js` files |

Where the specification of the system and the code disagree, the model follows the code:

- **Cuisines.** The validator accepts exactly five cuisines: vegetarian, seafood, indian, chinese, italian. The specification also lists japanese and mexican.
- **Slot name.** The party-size slot is named `NoOfPeople`, not `NumberOfPeople`.
- **No session cache.** No file of the repository implements the cached-preferences and "Confirmation" flow the specification mentions, so the model has none.
- **Zero-hit scenario.** The specification expects one failure e-mail and a deletion when the search finds nothing. `lambdas/lf2.js` does neither (see "Findings").

## Model

| member | source | states |
|---|---|---|
| JsText.Lower | lambdas/lf1.js:113 | `toLowerCase` on ASCII: same length, and each character is lowered on its own |
| JsText.TrimStart | lambdas/lf1.js:75 | the leading white space `parseInt` skips: a suffix of the input, only white space removed, and it never starts with white space |
| JsText.DigitPrefix | lambdas/lf1.js:75 | the longest run of decimal digits at the start of the text, as `parseInt` reads it |
| JsText.ParseIntOfNumeral | lambdas/lf1.js:74-76 | `parseInt` reads back the decimal numeral of every natural number |
| JsText.ParseInt | lambdas/lf1.js:75 | `parseInt` of a blank text is `NaN`; a number read back has a non-blank text, and is negative only when that text starts with `-` |
| JsText.NatToString | lambdafunctions/lf2.js:157-159 | the number rendered into a list line is a non-empty string of digits, with no leading zero except for 0 itself |
| DiningValidation.Resolve | lambdas/lf1.js:133-158 | a slot resolves to `interpretedValue` when that is non-empty, else to a non-empty `originalValue`; a missing or `null` slot, a missing `value` (a `TypeError` that `tryEx` catches) and empty texts resolve to nothing |
| DiningValidation.SafeInt | lambdas/lf1.js:74-76 | a missing value stays missing; otherwise the result is `parseInt` of it |
| DiningValidation.KeyInjective | lambdas/lf1.js:258 | the six slot names are distinct, so clearing the violated slot touches no other field |
| DiningValidation.Check | lambdas/lf1.js:160-236 | a field's check passes only when its slot resolves to a value |
| DiningValidation.FirstFailure | lambdas/lf1.js:160-238 | an empty run is valid; a reported field's check fails with the reported prompt |
| DiningValidation.ValidateDining | lambdas/lf1.js:132-239 | `validateDining`: a reported field's check fails with the reported prompt, and a missing Location is reported first, with "Where are you looking to eat?" |
| DiningValidation.EmailAutomatonMatchesShape | lambdas/lf1.js:127-130 | the e-mail test accepts exactly a non-empty local part without white space or `@`, one `@`, and a domain without white space or `@` that has a `.` with text on both sides |
| DiningValidation.FirstFailureValid | lambdas/lf1.js:160-238 | a run of checks passes exactly when every check in it passes |
| DiningValidation.FirstFailureAt | lambdas/lf1.js:160-236 | a failed run reports a field whose check fails, with that check's prompt, and every check before it passes |
| DiningValidation.FailureAtIsReported | lambdas/lf1.js:160-236 | the first failing check is the one a run reports |
| DiningValidation.FirstFailureIsFirst | lambdas/lf1.js:160-238 | for any field order: valid iff all checks pass; invalid with (f, m) iff f is the first field whose check fails and m is its prompt |
| DiningValidation.ValidateReportsFirstFailure | lambdas/lf1.js:160-238 | `validateDining` reports the first failing field in the order Location, CuisineType, NoOfPeople, Date, Time, Email, with its prompt, and is valid only if all six pass |
| DiningValidation.ValidIffAllSixPass | lambdas/lf1.js:160-238 | the validator answers valid iff each of the six checks passes |
| DiningValidation.AcceptedFields | lambdas/lf1.js:160-236 | what each check accepts: a city in the seven (case-insensitive), a cuisine in the five, a party of 1 to 8, a parseable date, any time, a well-formed e-mail |
| DiningValidation.ValidMeansEveryFieldAccepted | lambdas/lf1.js:103-238 | valid iff the city and cuisine are supported, the party is 1..8, the date parses, a time is given and the e-mail has the required shape |
| DiningValidation.PartySizeRule | lambdas/lf1.js:188-200 | a missing, unparseable or zero count gets "How many people will be dining?"; any other count outside 1..8 (negatives included) gets the range prompt; 1..8 passes |
| DiningValidation.PartySizeOutOfRangeRejected | lambdas/lf1.js:194-200 | with city and cuisine accepted, a parsed count outside 1..8 makes the request invalid on NoOfPeople |
| DiningValidation.CheckReadsOwnSlot | lambdas/lf1.js:133-158 | each field's check depends only on that field's slot |
| DiningValidation.MissingFieldReported | lambdas/lf1.js:160-236 | a field that is absent after all earlier fields passed is reported with its "missing" prompt |
| DiningValidation.ValidateCascade | lambdas/lf1.js:160-238 | the validator is the cascade of the six checks in the source's order |
| DiningValidation.FirstFailureStep | lambdas/lf1.js:160-238 | a run stops at its first check when that one fails and otherwise goes on with the rest |
| DiningValidation.ClearedSlotIsReElicited | lambdas/lf1.js:256-265 | after the violated slot is set to `null`, validating again reports that same field as missing: earlier fields still pass |
| DiningTurn.ElicitSlotResponse | lambdas/lf1.js:7-34 | `elicitSlot`: an ElicitSlot, InProgress response for the given slot, keeping the slots, the session attributes and the intent name, with the one message |
| DiningTurn.CloseResponse | lambdas/lf1.js:36-55 | `close`: a Close response with the given fulfillment state, session attributes, intent name and the one message, and no slots |
| DiningTurn.AttributesOrEmpty | lambdas/lf1.js:254 | `sessionAttributes \|\| {}`: the attributes, or the empty map when they are missing |
| DiningTurn.DiningTurn | lambdas/lf1.js:252-275 | a dining turn loses no slot key (the violated slot's key is set to `null`, and added if it was absent), keeps earlier queue messages and adds at most one, and produces a response unless a valid request's send failed |
| DiningTurn.BuildSubmission | lambdas/lf1.js:281-310 | the queue message has exactly the six attributes, each taken from `interpretedValue` only, typed "Number" for NoOfPeople and "String" otherwise |
| DiningTurn.SubmissionIgnoresOriginalText | lambdas/lf1.js:283-309 | slots with the same interpreted values give the same queue message; the original text never reaches the queue |
| DiningTurn.ValidSubmissionCarriesValidatedValues | lambdas/lf1.js:268-310 | when every given slot is interpreted, the queued values are the values the validator accepted: a supported city and cuisine and a well-formed e-mail |
| DiningTurn.SubmissionQueue.Send | lambdas/lf1.js:312-316 | an accepted message is appended to the queue; a refused one leaves the queue as it was and the error is rethrown |
| DiningTurn.HandleGreet | lambdas/lf1.js:243-250 | a Close, Fulfilled response with the greeting, empty session attributes and the request's intent name |
| DiningTurn.HandleDiningIntent | lambdas/lf1.js:252-275 | the turn satisfies `DiningTurn`: invalid clears only the violated slot, sends nothing and elicits that slot with the validator's prompt; valid sends exactly one message and closes, or propagates the send failure |
| DiningTurn.Handler | lambdas/lf1.js:321-332 | "GreetingIntent" closes with the greeting and changes nothing; "DiningSuggestionsIntent" is a dining turn; any other intent throws and changes nothing |
| DiningTurn.DiningTurnQueuesOnlyValidRequests | lambdas/lf1.js:252-275 | a turn queues at most one message, only for a valid request, keeps earlier messages, and closes exactly when its message was queued |
| DiningTurn.InvalidTurnReElicitsSameSlot | lambdas/lf1.js:256-265 | an invalid turn answers ElicitSlot for the violated slot, InProgress, with the session attributes passed through, and the cleared slots re-validate to that slot as missing |
| Fulfillment.PollMessages | lambdafunctions/lf2.js:42-57 | the polled messages are `Messages` when present; a missing `Messages` or a failed receive gives none |
| Fulfillment.QueryOS | lambdafunctions/lf2.js:81-94 | the search answers its hits, or `null` exactly when it throws |
| Fulfillment.QueryCatalog | lambdafunctions/lf2.js:124-140 | a record exactly when the lookup finds one; a missing item and a failed lookup both give nothing |
| Fulfillment.DeletesOfServedMessage | lambdafunctions/lf2.js:259-276 | an e-mail followed by the deletion of a message deletes that message only |
| ListWorker.ResolvedFiltersHits | lambdafunctions/lf2.js:105-113 | the suggestions are at most one per hit, exactly the records some hit resolved to, in hit order, and one per hit when every hit resolves |
| ListWorker.Resolved | lambdafunctions/lf2.js:105-113 | the lookup loop collects at most one restaurant per hit |
| ListWorker.ResolvedAppend | lambdafunctions/lf2.js:107-113 | the suggestions for two stretches of hits are those of the first followed by those of the second |
| ListWorker.LinesAppend | lambdafunctions/lf2.js:153-160 | the numbered lines of two lists are the first's lines followed by the second's, numbered on |
| ListWorker.SuggestionLinesNumberedFromOne | lambdafunctions/lf2.js:151-162 | line k of the list is "k+1. Name (Cuisine), located at Address" for the k-th restaurant, between the lines before and after it |
| ListWorker.SuggestionBody | lambdafunctions/lf2.js:150-162 | the suggestion body starts with the header naming party, date and time, and ends with "Enjoy your dining experience!" |
| ListWorker.FailureBody | lambdafunctions/lf2.js:185-195 | the failure body starts by naming the requested cuisine |
| ListWorker.ResponseEmail | lambdafunctions/lf2.js:97-121 | `handleOSResponse` sends one e-mail to the requester: the suggestion e-mail with the resolved hits exactly when some hit resolved, the failure e-mail otherwise |
| ListWorker.MessageEffects | lambdafunctions/lf2.js:259-276 | one pass of the loop: an e-mail to the requester, then the deletion of the message |
| ListWorker.BatchEffects | lambdafunctions/lf2.js:259-276 | the loop over a batch produces two effects per message |
| ListWorker.MessageOutcome | lambdafunctions/lf2.js:97-121 | one e-mail per message, to the requester, then its deletion; a suggestion e-mail listing every resolved hit exactly when the search succeeded and some hit resolved, otherwise the failure e-mail |
| ListWorker.BatchEffectsAt | lambdafunctions/lf2.js:259-276 | the batch trace holds each message's two effects at positions 2i and 2i+1 |
| ListWorker.BatchDeletes | lambdafunctions/lf2.js:259-276 | the batch deletes exactly the polled messages, in poll order |
| ListWorker.BatchDeletesEveryMessage | lambdafunctions/lf2.js:259-276 | each polled message gets one e-mail to its requester and then its deletion; every message is deleted once, in poll order |
| ListWorker.TwoOfThreeHitsResolved | lambdafunctions/lf2.js:105-119 | with a missing middle hit, the suggestion e-mail lists the first and the third restaurant, in that order |
| ListWorker.EmptyPollDoesNothing | lambdafunctions/lf2.js:239-244 | an empty or failed poll sends nothing and deletes nothing |
| ListWorker.Worker.SendMessage | lambdafunctions/lf2.js:143-182 | the loop builds the header, the lines numbered from 1 and the footer, and one suggestion e-mail with that body is sent |
| ListWorker.Worker.SendError | lambdafunctions/lf2.js:185-216 | one failure e-mail naming cuisine, location, party size, date and time is sent |
| ListWorker.Worker.HandleOSResponse | lambdafunctions/lf2.js:97-121 | zero hits send the failure e-mail; otherwise the lookup loop collects the resolved hits and one suggestion or failure e-mail is sent |
| ListWorker.Worker.DeleteSQSMessage | lambdafunctions/lf2.js:219-235 | the message's receipt handle is deleted |
| ListWorker.Worker.ProcessMessage | lambdafunctions/lf2.js:260-275 | a failed search leads to the failure e-mail; either way the message's e-mail and then its deletion are appended |
| ListWorker.Worker.Handler | lambdafunctions/lf2.js:238-277 | the trace grows by the batch effects of the polled messages, in poll order |
| TopHitWorker.TopHitDecides | lambdas/lf2.js:87-106 | only the top hit's catalog outcome matters; the suggestion e-mail is sent iff there is a hit and the top one resolves, with that restaurant's body |
| TopHitWorker.SuggestionBody | lambdas/lf2.js:128-141 | the single-restaurant body starts with "Hello! Here are my " followed by the restaurant's cuisine, and ends with its address followed by ". Enjoy!" |
| TopHitWorker.ResponseOutcome | lambdas/lf2.js:87-106 | succeeds exactly when there is a hit and the top one resolves, with a suggestion e-mail to the requester; otherwise the `location` reference error |
| TopHitWorker.MessageOutcome | lambdas/lf2.js:243-253 | a served message gives its suggestion e-mail to the requester and then its deletion; otherwise the `location` reference error escapes |
| TopHitWorker.RunBatch | lambdas/lf2.js:237-254 | a run that does not escape leaves two effects per message; the only error that escapes is the `location` reference error |
| TopHitWorker.MessageServedIffTopHitResolves | lambdas/lf2.js:243-253 | a message is served (suggestion e-mail, then deletion) iff its search succeeds with a top hit the catalog has; otherwise the `location` reference error escapes |
| TopHitWorker.BatchServesPrefix | lambdas/lf2.js:237-254 | a run leaves two effects per served message and escapes exactly when some message is unserved |
| TopHitWorker.BatchDeletesServed | lambdas/lf2.js:237-254 | a run deletes exactly the leading served messages, in poll order |
| TopHitWorker.BatchStopsAtFirstUnserved | lambdas/lf2.js:237-254 | a run serves the leading resolvable messages and stops at the first other one; that message and all later ones are never deleted and the error escapes |
| TopHitWorker.ZeroHitsFirstDropsWholeBatch | lambdas/lf2.js:164-194 | as written: the first message having zero hits means nothing is sent or deleted, not even the later message, and the handler throws |
| TopHitWorker.RunBatchSplit | lambdas/lf2.js:237-254 | a run over two batches, the first not escaping, is the two runs in sequence |
| TopHitWorker.EscapesAt | lambdas/lf2.js:243-250 | a run whose (i+1)-th message fails keeps the effects of the first i and escapes with that failure |
| TopHitWorker.ServedAt | lambdas/lf2.js:243-253 | serving message i appends its effects to the run over the first i |
| TopHitWorker.IntendedMessageAgreesWhenServed | lambdas/lf2.js:243-253 | with the corrected `sendError`, a served message is unchanged and any other gets the failure e-mail and its deletion |
| TopHitWorker.IntendedFailureEmail | lambdas/lf2.js:164-194 | the corrected `sendError` sends the failure e-mail to the requester, with the body of lambdafunctions/lf2.js |
| TopHitWorker.IntendedMessageEffects | lambdas/lf2.js:243-253 | with the corrected `sendError`, each message gets one e-mail to its requester, then its deletion |
| TopHitWorker.IntendedBatch | lambdas/lf2.js:237-254 | with the corrected `sendError`, the loop produces two effects per message |
| TopHitWorker.IntendedBatchShape | lambdas/lf2.js:237-254 | with the corrected `sendError`, message i's e-mail and deletion sit at positions 2i and 2i+1 |
| TopHitWorker.MailThenDeleteCons | lambdas/lf2.js:237-254 | putting one message's e-mail and deletion in front of the effects of the rest of a batch keeps every message's e-mail at 2i and its deletion at 2i+1 |
| TopHitWorker.IntendedBatchDeletes | lambdas/lf2.js:237-254 | with the corrected `sendError`, every polled message is deleted, in poll order |
| TopHitWorker.IntendedBatchDeletesEveryMessage | lambdas/lf2.js:237-254 | corrected: every polled message gets one e-mail to its requester and then its deletion, in poll order |
| TopHitWorker.ZeroHitsFirstIntended | lambdas/lf2.js:164-194 | corrected: a first message with zero hits gets the failure e-mail, and both messages are deleted |
| TopHitWorker.Worker.SendMessage | lambdas/lf2.js:128-161 | one suggestion e-mail naming the cuisine, party, date, time, restaurant name and address is sent |
| TopHitWorker.Worker.SendError | lambdas/lf2.js:164-194 | throws `ReferenceError` for `location` before sending anything |
| TopHitWorker.Worker.HandleOSResponse | lambdas/lf2.js:87-106 | succeeds with the top hit's suggestion e-mail sent, or fails with the reference error and sends nothing |
| TopHitWorker.Worker.DeleteSQSMessage | lambdas/lf2.js:197-213 | the message's receipt handle is deleted |
| TopHitWorker.Worker.ProcessMessage | lambdas/lf2.js:238-253 | a served message appends its e-mail and deletion; otherwise nothing is appended and the error escapes |
| TopHitWorker.Worker.Handler | lambdas/lf2.js:216-255 | the trace grows by the run over the polled messages, and the handler throws exactly when the run escapes |
| Seeder.OrEmpty | otherscripts/yelpScraper.js:20 | `value \|\| ""`: the text, or "" when it is missing |
| Seeder.CreateDynamoEntry | otherscripts/yelpScraper.js:17-27 | id, name, coordinates, review count and rating are copied; address and zip code default to ""; the cuisine is the searched term; the timestamp is the clock reading |
| Seeder.PutInsertsIfAbsent | otherscripts/yelpScraper.js:46-60 | the put inserts iff the id is absent and the put does not fail; it never overwrites, keeps items under their ids, and adds exactly one item when it reports a new one |
| Seeder.PutTwiceInsertsOnce | otherscripts/yelpScraper.js:46-60 | a second put of a stored id never inserts and leaves the table unchanged |
| Seeder.Put | otherscripts/yelpScraper.js:46-60 | the conditional put reports a new item exactly when the id is absent and the put does not fail; it never changes a stored item, stores the entry when new, and changes nothing otherwise |
| Seeder.PageAt | otherscripts/yelpScraper.js:30-43 | the k-th search answer, and an empty page past the end of the answers |
| Seeder.Businesses | otherscripts/yelpScraper.js:38 | `businesses \|\| []` |
| Seeder.Paged | otherscripts/yelpScraper.js:64-87 | a cuisine's paging loop makes exactly n requests after n pages |
| Seeder.PagedAt | otherscripts/yelpScraper.js:64-87 | the j-th request asks for offset 50·j |
| Seeder.PagedOffsetsIncrease | otherscripts/yelpScraper.js:64-87 | requests are made at strictly increasing offsets, exactly one page of 50 apart |
| Seeder.StoredPageStep | otherscripts/yelpScraper.js:76-84 | one step of the inner loop: store the next business and stop if the count reached 50 |
| Seeder.StoredPage | otherscripts/yelpScraper.js:76-84 | the inner loop makes at most one put per business and never lowers the count |
| Seeder.StoredPageGrows | otherscripts/yelpScraper.js:76-84 | storing a page never overwrites an item, adds only items of the searched cuisine, one per new entry counted, keeps the count at most 50, and skips businesses only once the count reached 50 |
| Seeder.ExtendsTrans | otherscripts/yelpScraper.js:68-91 | keeping old items and adding only allowed cuisines composes across steps |
| Seeder.GrowsTrans | otherscripts/yelpScraper.js:68-91 | the growth invariant of a cuisine's seeding composes across pages |
| Seeder.SeededAddsAtMostFifty | otherscripts/yelpScraper.js:68-91 | a cuisine's paging loop never overwrites an item, adds only items of that cuisine, one per new entry counted, and at most 50 |
| Seeder.SeededStopsHere | otherscripts/yelpScraper.js:68-75 | once the count is 50, or the page is empty or an error, the loop stores nothing more |
| Seeder.Seeded | otherscripts/yelpScraper.js:68-91 | the paging loop from page k on ends having requested at least k pages |
| Seeder.SeededAddsPage | otherscripts/yelpScraper.js:69-88 | a non-empty page is stored and the loop goes on from the next page, keeping the growth invariant |
| Seeder.SeededStopsAtFiftyOrEmptyPage | otherscripts/yelpScraper.js:68-91 | the loop asks for a page unless the count is 50; every page but the last had businesses; it ends with a count of 50, an empty last page, or that page's fetch error |
| Seeder.SeededAll | otherscripts/yelpScraper.js:98-103 | the handler's run reaches at most the listed cuisines |
| Seeder.SeededAllStep | otherscripts/yelpScraper.js:99-102 | the run over the cuisines is the first cuisine's seeding, then (unless it failed) the run over the rest |
| Seeder.SeededAllKeepsItems | otherscripts/yelpScraper.js:95-116 | a handler run keeps every item the table had and adds only items of the cuisines searched |
| Seeder.FirstPageAsked | otherscripts/yelpScraper.js:68-73 | seeding from a count of 0 asks for at least one page, and fails only with the error of the last page asked for |
| Seeder.SeededAllAbortsOnlyOnFetchError | otherscripts/yelpScraper.js:98-115 | a run reaches every cuisine unless a fetch error aborts it, and that error is the one of the last page requested |
| Seeder.SeededAllGoesOn | otherscripts/yelpScraper.js:99-102 | after a cuisine seeded without error, the rest of the run keeps the abort-only-on-fetch-error property |
| Seeder.SeededAllStopsAtFirst | otherscripts/yelpScraper.js:98-115 | a run whose first cuisine ends in a fetch error stops there, with that error from the last page asked for |
| Seeder.AbortsOnlyOnFetchErrorCons | otherscripts/yelpScraper.js:98-103 | a cuisine that asked for at least one page without error, followed by a run with the property, gives a run with the property |
| Seeder.SeedingResponse | otherscripts/yelpScraper.js:95-116 | 200 with the quoted success text iff every cuisine was seeded; otherwise 500 with the quoted error prefix and the fetch error's message; items already stored stay |
| Seeder.Respond | otherscripts/yelpScraper.js:105-115 | 200 with the quoted success text exactly for a success; 500 with the quoted error prefix and message for a failure |
| Seeder.CatalogSeeder.constructor | otherscripts/yelpScraper.js:10-12 | the seeder starts on the given table, with no requests and no puts |
| Seeder.CatalogSeeder.FetchRestaurantsFromYelp | otherscripts/yelpScraper.js:30-43 | the request is recorded; it answers the page's businesses (or none) or rethrows the fetch error |
| Seeder.CatalogSeeder.StoreRestaurantInDynamoDB | otherscripts/yelpScraper.js:46-60 | the table and the answer are those of the conditional put of the built entry; one more put is counted |
| Seeder.CatalogSeeder.StorePage | otherscripts/yelpScraper.js:76-84 | the inner loop leaves the table, count and puts that `StoredPage` specifies |
| Seeder.CatalogSeeder.FetchAndStoreRestaurants | otherscripts/yelpScraper.js:63-92 | the `while` loop ends with the table, puts and outcome of `Seeded`, and its requests are offsets 0, 50, ... for the pages read |
| Seeder.CatalogSeeder.SeedCuisines | otherscripts/yelpScraper.js:98-103 | the cuisines are seeded in order, each from a count of 0, until the first fetch error, as `SeededAll` specifies |
| Seeder.CatalogSeeder.Handler | otherscripts/yelpScraper.js:95-116 | the five cuisines are seeded and the answer is `Respond` of the run's outcome |
| ChatEnvelope.CreateError | lambdafunctions/lf0.js:10-13 | the error object carries the given code and message |
| ChatEnvelope.CreateUnstructuredMessage | lambdafunctions/lf0.js:16-20 | the wrapper carries the given id, text and timestamp |
| ChatEnvelope.CreateMessage | lambdafunctions/lf0.js:23-26 | a message of the given type (by default "unstructured") around the wrapper |
| ChatEnvelope.CreateBotResponse | lambdafunctions/lf0.js:29-31 | the envelope holds the given messages |
| ChatEnvelope.Texts | lambdas/lf0.js:40-51 | the texts of an envelope, one per message, in order |
| ChatEnvelope.CreateSimpleMessage | lambdas/lf0.js:40-51 | the envelope has one message per text |
| ChatEnvelope.SimpleMessageWrapsEachText | lambdas/lf0.js:40-51 | one "unstructured" wrapper per text, in order, with that text and the i-th uuid and clock readings |
| ChatEnvelope.ParseResponseContents | lambdas/lf0.js:54-61 | with `messages`, the texts are their contents, same length and order; without them, exactly the default prompt; it fails only without `$metadata` |
| ChatEnvelope.ParseResponse | lambdas/lf0.js:54-61 | the parse fails exactly without `$metadata`; with `messages`, there is one text per message |
| ChatEnvelope.BotRequest | lambdas/lf0.js:64-74 | a request exists exactly when the event has a message; it carries the first message's text and the fixed bot, alias, locale and session |
| ChatEnvelope.PostToBot | lambdas/lf0.js:64-86 | `postToBot` answers texts exactly when the event has a message, the bot call does not throw and the answer has `$metadata` |
| ChatEnvelope.OnlyFirstTextForwarded | lambdas/lf0.js:64-74 | only the first message's text reaches the bot, with the fixed bot, alias, locale and session |
| ChatEnvelope.HandlerErrorCases | lambdas/lf0.js:89-102 | the handler answers 500 "Internal Server Error" exactly when there is no message, the bot call throws or the answer lacks `$metadata`; otherwise it wraps the parsed texts |
| ChatEnvelope.Handler | lambdas/lf0.js:89-102 | the handler fails, with 500 "Internal Server Error", exactly when `postToBot` fails; otherwise the envelope's texts are the bot's texts |
| ChatEnvelope.NoBotMessagesGivesDefaultPrompt | lambdafunctions/lf0.js:52-54 | a bot answer without messages becomes the single default prompt |

## Left out

- **AWS SDK calls.** SQS, DynamoDB, OpenSearch, SES and Lex are foreign I/O. They are oracles passed as parameters, and their effects are entries in a trace.
- **Asynchrony.** Every `await` is sequential.
- **Dates and clocks.** `Date.parse` (`isValidDate`), `toLocaleDateString` (`formatDate`), `toDateString`, `Date.now`, `toISOString` and `randomUUID` are uninterpreted parameters.
- **Search ranking.** The `random_score` ranking and its seed are not modelled. The `size` of 3 is not enforced on the hit list the oracle returns.
- **Unicode.** `toLowerCase` is modelled on ASCII letters only.
- **Logging and rate limiting.** `console.log`, and the `setTimeout` pause between Yelp pages, are left out.
- **Unused code.** The unused `delegate` builder, `buildValidationResult`'s `contentType` and the unused locals `httpStatus` and `totalFetched` are left out.
- **`otherscripts/opensearchIngest.js`** is not part of this model. It only copies catalog ids into the search index.
- **The session cache and confirmation flow** are not part of this model, because no file of the code implements them.
- **E-mail sends.** A failed send is logged and swallowed, so the trace records the send attempt. The Subject text follows from the kind of e-mail; the sender address is an environment constant.
- **Reachable throws not modelled.**
  - A business without a `location` object throws in `createDynamoEntry` (otherscripts/yelpScraper.js:20). Every business is modelled with a location.
  - A chat event whose first message has no `unstructured` object throws in `postToBot`. Every message is modelled with one.
  - In `parseResponse`, a message `content` is always a string.
  - Both workers read `attributes.CuisineType.StringValue` before their `try` (lambdafunctions/lf2.js:260-261, lambdas/lf2.js:238-239). A queued message without that attribute throws out of `handler`, so it and every later message of the batch stay undeleted. The model's `Attributes` always carry all six values, as `lambdas/lf1.js` sends them; only another producer could send such a message.
- **JSON encoding.** `JSON.stringify` of the seeder's response body is modelled as quoting, without escaping the characters JSON escapes.
- **Yelp pages.** The search answers for a cuisine are a finite sequence; every request past its end answers an empty page. The loop of `fetchAndStoreRestaurants` (otherscripts/yelpScraper.js:68-91) has no bound on the number of pages: while pages come back non-empty but hold only stored businesses, it keeps paging, and it ends only because the search eventually answers an empty page or an error. The model makes that assumption.

## Findings

| source | as written | input that shows it | evidently intended | confidence | as-written member | corrected member |
|---|---|---|---|---|---|---|
| lambdas/lf2.js:173 | `sendError` renders `${location}`, but `location` is declared neither in `sendError` (lines 164-171) nor at module scope, and the Node.js runtime has no global of that name. The template throws a `ReferenceError` before the failure e-mail is sent. Rethrown from the `catch` at line 249, the error escapes `handler`, so neither this message nor any later one in the batch is deleted. | A batch of two messages whose first search returns zero hits. | As in lambdafunctions/lf2.js:192, the location is the request's `Location` attribute. The failure e-mail is sent, and every message is deleted. | not executed | TopHitWorker.ZeroHitsFirstDropsWholeBatch | TopHitWorker.ZeroHitsFirstIntended |
