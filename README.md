# slackoverflow: the question mirror, modelled and proved in Dafny

slackoverflow copies Stack Exchange questions into a local SQLite store and
mirrors them into a Slack channel. One full run (`runFull`) does four passes
in order:

1. Fetch new questions with the advanced-search endpoint.
2. Re-fetch the tracked questions by id.
3. Post every tracked question that has no Slack message yet.
4. Refresh every posted message, and retire the questions that fell out of
   the watched window.

This project models that core, and the console table the CLI prints with.
It proves what each part promises.

Modules, one per source file:

- `Text` (`text.dfy`) holds the string primitives the program relies on:
  - `strings.Join` and `strings.Split` with one-character separators;
  - fmt's decimal rendering of integers;
  - SQLite's BINARY text order;
  - Go's `len` on strings, in UTF-8 bytes.
- `StackExchange` (`stack_exchange_client.dfy`) is the API client:
  - the `Parameters` set: allowed names with their defaults, and the applied values;
  - the `Paging` cursor;
  - the `Client`, with its quota;
  - the wire records;
  - the two endpoints, `SearchAdvanced` and `Questions`.

  HTTP and JSON are replaced by a `Response` the caller supplies: `Failed`, or
  a received envelope. A URL is its path plus its query, as a name-to-value map.
- `LocalStore` (`database.dfy`) is the SQLite store, modelled as a `Database` class:
  - `questions` is a map keyed by QID, and `users` a map keyed by UID (both
    `INTEGER PRIMARY KEY` columns);
  - `links` is a sequence, because the `SlackQuestion` table has no key: links
    stay in insertion order, and duplicates are possible.

  Every write either succeeds as a whole or, when its statement fails
  (`fault`), leaves its table as it was. The ordered queries are specified by
  predicates:
  - `NewestByCreation` for `ORDER BY creationDate DESC LIMIT n`;
  - `ByTsDescending` for `ORDER BY ts DESC`.

  Lemmas prove that an answer to each query exists.
- `Settings` (`config.dfy`) is the slice of the configuration the passes read.
- `QuestionPasses` (`stackexchange_passes.dfy`) holds `getNewQuestions` and
  `updateQuestions`. The remote API is a sequence of responses: request k
  gets `pages[k]`, and a request beyond the sequence fails. Each pass is
  proved against pure functions:
  - `SearchFetches` and `UpdateFetches` give the number of requests;
  - `ReceivedItems` gives what the requests delivered;
  - `SyncAll` and `NewPass` give the resulting store.
- `SlackPasses` (`slack.dfy`) holds `slackPostNewQuestions` and
  `slackUpdateQuestions`. Slack is a sink: each pass returns the messages it
  sent, and Slack's answer to the k-th new post is a parameter. The passes
  are proved equal to right folds:
  - `PostRun` with `PostStep`;
  - `RefreshRun` with `RefreshStep`.

  Lemmas about the folds state what the passes promise.
- `Run` (`run.dfy`) is `runFull`: the four passes in order, with
  `so.SyncQuestion` modelled as `QuestionPasses.SyncQuestion`.
- `ConsoleTable` (`table.dfy`) is `Table`. `NewTable` and `AddRow` keep a
  running maximum width per column, and `Print` pads every heading and cell
  to exactly its column's width.

Behaviour that is easy to misread, modelled as the code has it:

- **The watermark clamp.** It fires only when the latest creation date lies
  more than 240 seconds in the future. The comment talks about a
  four-hour-old limit, but an arbitrarily old date is kept
  (`StaleWatermarkKept`).
- **A failed search or update request does not end its loop.** The `err`
  branch sits inside `if results`, and `Get` never returns `true` together
  with an error. The loop goes on as the previous page's `has_more` says
  (`SearchContinuesAfterFailure`).
- **The update pass has no page ceiling.** While every answer says there is
  more, it keeps requesting (`UpdateRetriesForever`), so the model bounds it
  with a `fuel` parameter.
- **The paging cursor is never sent.** `NextPage` moves `Paging.page`, but the
  `page` query parameter keeps its default `1` unless the configuration sets
  it (`SearchQueryPaging`).
- **The link table has no key.**
  - `FindSlackQuestion` returns the first matching row.
  - `SlackQuestionDelete` removes every row of that QID.
  - Whatever the post pass adds is never a second link for a nonzero QID
    (`PostRunNoRepost`).
- **Retiring depends on message timestamp, not creation date.** The update
  pass ranks links by `ts` descending (text order). It skips links whose
  question is missing, and a question stored under QID 0 reads as missing,
  so it is never retired.
- **A question stored under a QID of 0 or below is never rewritten.** The
  sync takes the insert branch for it, and the insert fails on the primary
  key (`Database.SyncQuestion`).

## Model

| member | source | states |
|---|---|---|
| Text.SplitJoin | cmd/slackoverflow/internal/database.go:180 | a non-empty list of parts without the separator, once joined, splits back into exactly those parts |
| Text.ParseIntToString | cmd/slackoverflow/commands/slack.go:165-171 | the decimal rendering of any integer parses back to that integer |
| Text.IntToStringInjective | cmd/slackoverflow/internal/database.go:549-568 | distinct QIDs render as distinct decimal strings |
| Text.LexLeTotal | cmd/slackoverflow/internal/database.go:514 | any two ts strings are ordered one way or the other by the BINARY collation |
| Text.LexLeTransitive | cmd/slackoverflow/internal/database.go:514 | the BINARY text order is transitive |
| Text.ByteLenAppend | cmd/slackoverflow/internal/table.go:45 | the byte length of a concatenation is the sum of the byte lengths |
| StackExchange.ValueString | cmd/slackoverflow/internal/stack-exchange-client.go:434-436 | %v of a value: a string as itself, an int in decimal; the empty string is the only value that renders as "" |
| StackExchange.WithDefaults | cmd/slackoverflow/internal/stack-exchange-client.go:408-419 | applying defaults keeps every applied value; adds each allowed, unapplied name whose default renders non-empty, with that text; adds nothing else |
| StackExchange.WithDefaultsIdempotent | cmd/slackoverflow/internal/stack-exchange-client.go:408-419 | applying the defaults a second time changes nothing |
| StackExchange.QueryOf | cmd/slackoverflow/internal/stack-exchange-client.go:157-160 | the query carries exactly the applied names, each with its value's text |
| StackExchange.Parameters.constructor | cmd/slackoverflow/internal/stack-exchange-client.go:349-352 | a fresh parameter set allows and applies nothing |
| StackExchange.Parameters.Allow | cmd/slackoverflow/internal/stack-exchange-client.go:355-360 | registers (or re-registers) one name with its default; applied values are untouched and stay allowed |
| StackExchange.Parameters.Set | cmd/slackoverflow/internal/stack-exchange-client.go:371-379 | a name that is not allowed, or an empty string value, changes nothing; otherwise exactly that name's applied value is overwritten; applied stays within allowed |
| StackExchange.Parameters.ValueOf | cmd/slackoverflow/internal/stack-exchange-client.go:382-387 | non-empty exactly when the name is applied, then its value's text; "" for a name that is not allowed |
| StackExchange.Parameters.Delete | cmd/slackoverflow/internal/stack-exchange-client.go:390-392 | removes exactly that name from the applied values; absent names are no error |
| StackExchange.Parameters.ApplyDefaults | cmd/slackoverflow/internal/stack-exchange-client.go:408-419 | the applied values become WithDefaults of the old state, whatever order the map range visits the names in |
| StackExchange.Parameters.AllowAll | cmd/slackoverflow/internal/stack-exchange-client.go:88-135 | registering a list of definitions in order yields the old allowed map overridden by Registry of the list |
| StackExchange.Registry | cmd/slackoverflow/internal/stack-exchange-client.go:88-135 | every registered definition's name is allowed, each under its own name |
| StackExchange.Paging.constructor | cmd/slackoverflow/internal/stack-exchange-client.go:444-449 | a new cursor is at page 0 with no more results |
| StackExchange.Paging.SetPage | cmd/slackoverflow/internal/stack-exchange-client.go:452-454 | sets the page counter and nothing else |
| StackExchange.Paging.GetCurrentPageNr | cmd/slackoverflow/internal/stack-exchange-client.go:457-462 | an unset (zero) counter becomes 1; returns the counter; nothing else changes |
| StackExchange.Paging.SetPageSize | cmd/slackoverflow/internal/stack-exchange-client.go:465-467 | sets the page size and nothing else |
| StackExchange.Paging.NextPage | cmd/slackoverflow/internal/stack-exchange-client.go:470-472 | the counter goes up by exactly one |
| StackExchange.Paging.PreviousPage | cmd/slackoverflow/internal/stack-exchange-client.go:475-479 | the counter goes down by one only when positive, so it never goes below 0 from 0 or above |
| StackExchange.Paging.FirstPage | cmd/slackoverflow/internal/stack-exchange-client.go:482-484 | the counter becomes 1 |
| StackExchange.Client.constructor | cmd/slackoverflow/internal/stack-exchange-client.go:15-21 | a client with the given host, version and key and a zero quota |
| StackExchange.Client.SetQuotaRemaining | cmd/slackoverflow/internal/stack-exchange-client.go:34-36 | sets the remaining quota and nothing else |
| StackExchange.Client.SetQuotaMax | cmd/slackoverflow/internal/stack-exchange-client.go:39-41 | sets the maximum quota and nothing else |
| StackExchange.Client.SetHost | cmd/slackoverflow/internal/stack-exchange-client.go:49-51 | sets the API host and nothing else |
| StackExchange.Client.SetAPIVersion | cmd/slackoverflow/internal/stack-exchange-client.go:54-56 | sets the API version and nothing else |
| StackExchange.Client.SetKey | cmd/slackoverflow/internal/stack-exchange-client.go:59-61 | sets the API key and nothing else |
| StackExchange.Client.GetEndpoint | cmd/slackoverflow/internal/stack-exchange-client.go:44-46 | the endpoint starts with the host, ends with the path, and is two separators longer than host, version and path |
| StackExchange.Client.EndpointShape | cmd/slackoverflow/internal/stack-exchange-client.go:44-46 | the endpoint reads, position by position: the host, "/", the API version, "/", then the path |
| StackExchange.SearchAdvanced.constructor | cmd/slackoverflow/internal/stack-exchange-client.go:64-69 | a search on this client whose allowed names are the 23 registered by Init with their defaults, nothing applied, paging at 0 |
| StackExchange.SearchAdvanced.GetURL | cmd/slackoverflow/internal/stack-exchange-client.go:150-165 | applies the defaults, then renders the search/advanced endpoint with exactly the applied parameters |
| StackExchange.SearchAdvanced.Get | cmd/slackoverflow/internal/stack-exchange-client.go:168-188 | ok exactly when a response arrived; then the result, current page, has-more and both quota fields come from it; on failure none of them change; the page counter never changes |
| StackExchange.Questions.constructor | cmd/slackoverflow/internal/stack-exchange-client.go:72-77 | a questions request on this client whose allowed names are the 11 registered by Init, nothing applied, paging at 0 |
| StackExchange.Questions.IdsSegment | cmd/slackoverflow/internal/stack-exchange-client.go:274-277 | an empty id list becomes the placeholder segment "100"; any other id list is the segment itself |
| StackExchange.Questions.GetURL | cmd/slackoverflow/internal/stack-exchange-client.go:270-293 | applies the defaults, drops an applied "ids", and renders questions/ plus the ids (or "100") with exactly the applied parameters |
| StackExchange.Questions.Get | cmd/slackoverflow/internal/stack-exchange-client.go:247-267 | the same success and failure rules as the search request, for the questions/{ids} URL |
| LocalStore.MapQuestionKeeps | cmd/slackoverflow/internal/database.go:172-191 | a stored question keeps the wire QID, owner UID, title, share link, closed reason, both dates, the answered flag, score, view, answer and comment counts, the up, down, delete, favourite and reopen counts, and the given site; ';'-free tags split back from the stored column |
| LocalStore.MapUserRoundTrip | cmd/slackoverflow/internal/database.go:136-145 | flattening the badge counts loses nothing: the stored user maps back to the wire owner |
| LocalStore.FirstLink | cmd/slackoverflow/internal/database.go:404-421 | the first stored link of the QID (every earlier row has another QID) when there is one, else the zero link |
| LocalStore.RemoveLinks | cmd/slackoverflow/internal/database.go:492-504 | a link survives exactly when it was in the table and belongs to another QID; the table never grows |
| LocalStore.RemoveLinksKeeps | cmd/slackoverflow/internal/database.go:492-504 | no link of the QID survives; every link of another QID survives exactly as often as before, and the survivors keep their order (a Subsequence of the table) |
| LocalStore.Limit | cmd/slackoverflow/internal/database.go:549 | LIMIT n keeps min(n, size) rows, all of them when n is negative |
| LocalStore.NewestByCreationExists | cmd/slackoverflow/internal/database.go:599-647 | on a keyed question table, the newest-by-creation query always has an answer, for every n |
| LocalStore.IdListText | cmd/slackoverflow/internal/database.go:566-573 | the tracked-ids text is empty exactly when no row was found, and is the lone QID for one row |
| LocalStore.IdListRoundTrip | cmd/slackoverflow/internal/database.go:559-573 | the ';'-joined QIDs of one or more rows split back into those QIDs, in order |
| LocalStore.SortByTs | cmd/slackoverflow/internal/database.go:514 | every link table has an arrangement by ts descending with the same links, each as often |
| LocalStore.SyncedQuestions | cmd/slackoverflow/internal/database.go:162-205 | a fault-free sync keeps the table keyed and adds at most the synced QID |
| LocalStore.SyncedUsers | cmd/slackoverflow/internal/database.go:129-159 | a fault-free user sync keeps the table keyed and adds at most the synced UID |
| LocalStore.SyncedQuestionsIdempotent | cmd/slackoverflow/internal/database.go:193-196 | syncing the same question twice writes nothing the second time |
| LocalStore.SyncedQuestionsFind | cmd/slackoverflow/internal/database.go:199-204 | after a sync the question's lookup yields the mapped row (unless a QID of 0 or below is already taken), and other rows are untouched |
| LocalStore.SyncedUsersIdempotent | cmd/slackoverflow/internal/database.go:147-150 | syncing the same user twice writes nothing the second time |
| LocalStore.LatestIn | cmd/slackoverflow/internal/database.go:98-126 | the row with the largest QID, or the zero question on an empty table |
| LocalStore.Database.constructor | cmd/slackoverflow/internal/database.go:21-56 | an empty store: no questions, users or links |
| LocalStore.Database.FindQuestion | cmd/slackoverflow/internal/database.go:208-241 | the stored row under the QID, else the zero question |
| LocalStore.Database.FindUser | cmd/slackoverflow/internal/database.go:342-365 | the stored row under the UID, else the zero user |
| LocalStore.Database.FindLink | cmd/slackoverflow/internal/database.go:404-421 | the first link of the QID, else the zero link |
| LocalStore.Database.LatestQuestion | cmd/slackoverflow/internal/database.go:98-126 | found exactly on a non-empty table; then a stored row whose QID is not below any other; else the zero question |
| LocalStore.Database.QuestionCreate | cmd/slackoverflow/internal/database.go:244-291 | inserts the row unless the statement fails or its QID is taken, in which case nothing changes |
| LocalStore.Database.QuestionUpdate | cmd/slackoverflow/internal/database.go:294-339 | rewrites the whole row when its QID exists; a missing QID is no error |
| LocalStore.Database.QuestionDelete | cmd/slackoverflow/internal/database.go:579-591 | removes the QID; other rows are untouched; an absent QID is no error |
| LocalStore.Database.UserCreate | cmd/slackoverflow/internal/database.go:368-401 | inserts the user unless the statement fails or its UID is taken |
| LocalStore.Database.UserUpdate | cmd/slackoverflow/internal/database.go:424-457 | rewrites the whole user row when its UID exists |
| LocalStore.Database.LinkCreate | cmd/slackoverflow/internal/database.go:460-489 | appends the link (duplicates allowed) unless the statement fails |
| LocalStore.Database.LinkDelete | cmd/slackoverflow/internal/database.go:492-504 | on success the table becomes RemoveLinks of the old one: every link of the QID goes, every other row stays as often as before and in order; a fault changes nothing |
| LocalStore.Database.SyncQuestion | cmd/slackoverflow/internal/database.go:162-205 | up to date exactly when the stored row equals the mapped one; an existing positive QID is updated, a new one created, anything else fails; every outcome's table is stated, and a fault-free sync yields SyncedQuestions |
| LocalStore.Database.SyncUser | cmd/slackoverflow/internal/database.go:129-159 | the same equality-gated create-or-update rule for the owner, by UID |
| LocalStore.Database.QuestionsTracked | cmd/slackoverflow/internal/database.go:599-647 | returns the n newest questions by creation date (all when n is negative); their number is at most n |
| LocalStore.Database.TrackedIds | cmd/slackoverflow/internal/database.go:541-576 | the ';'-joined QIDs of an answer to the newest-by-creation query and their count, which is at most n; "" exactly when the count is 0 |
| LocalStore.Database.LinksGetAll | cmd/slackoverflow/internal/database.go:507-538 | every link, each as often as stored, ordered by ts descending, and their number |
| LocalStore.CollectIds | cmd/slackoverflow/internal/database.go:559-573 | the scan loop's text (the last QID, or all joined when there are several) is the ';'-join of the rows' QIDs |
| QuestionPasses.Watermark | cmd/slackoverflow/commands/stackexchange.go:131-154 | exactly the latest creation date when the store is non-empty and that date is at most four minutes ahead of now; exactly now minus four hours on an empty store or for a date more than four minutes ahead; so never more than four minutes ahead of now |
| QuestionPasses.StaleWatermarkKept | cmd/slackoverflow/commands/stackexchange.go:147-154 | a creation date older than four hours is searched from as it is |
| QuestionPasses.SetEach | cmd/slackoverflow/commands/stackexchange.go:164-167 | setting a configuration map applies every allowed non-empty entry and otherwise keeps the applied values |
| QuestionPasses.ApplyConfig | cmd/slackoverflow/commands/stackexchange.go:164-167 | the configuration loop yields SetEach, whatever order the map range takes |
| QuestionPasses.AnyName | cmd/slackoverflow/commands/stackexchange.go:165 | the range over a map may visit any remaining key next |
| QuestionPasses.SearchDefaultSite | cmd/slackoverflow/internal/stack-exchange-client.go:88-135 | advanced search's default site is "stackoverflow" |
| QuestionPasses.SearchDefaultPaging | cmd/slackoverflow/internal/stack-exchange-client.go:88-135 | advanced search's defaults are pagesize 100 and page 1 |
| QuestionPasses.SearchQueryFromdate | cmd/slackoverflow/commands/stackexchange.go:169 | every search query carries fromdate, one past the watermark |
| QuestionPasses.SearchQueryPaging | cmd/slackoverflow/internal/stack-exchange-client.go:150-165 | the search query's page is "1" and pagesize "100" unless the configuration sets them, since the paging counter is never sent |
| QuestionPasses.SearchQuerySite | cmd/slackoverflow/commands/stackexchange.go:161-167 | site comes from the search configuration map, else the configured site, else "stackoverflow" |
| QuestionPasses.SearchFetchesFrom | cmd/slackoverflow/commands/stackexchange.go:178-224 | from request k on, the search makes at least one more request and stops by the 11th |
| QuestionPasses.SearchFetches | cmd/slackoverflow/commands/stackexchange.go:178-224 | a search pass makes between 1 and 11 requests |
| QuestionPasses.SearchCeilingReached | cmd/slackoverflow/commands/stackexchange.go:215-223 | when every page says there is more, the pass stops at the ceiling, after exactly 11 requests |
| QuestionPasses.SearchContinuesAfterFailure | cmd/slackoverflow/commands/stackexchange.go:182-223 | a failed request after a page that said there is more does not end the search |
| QuestionPasses.UpdateFetchesFrom | cmd/slackoverflow/commands/stackexchange.go:263-301 | from request k on, the update pass makes at least one more request and no more than fuel in total |
| QuestionPasses.UpdateFetches | cmd/slackoverflow/commands/stackexchange.go:263-301 | the update pass makes between 1 and fuel requests |
| QuestionPasses.UpdateRetriesForever | cmd/slackoverflow/commands/stackexchange.go:288-300 | once a page said there is more and every later one does too (or fails), the update pass only stops when the fuel runs out |
| QuestionPasses.SyncAllGrows | cmd/slackoverflow/commands/stackexchange.go:207 | syncing questions keeps the tables keyed, never drops a question and leaves the links alone |
| QuestionPasses.BootstrapSyncsAtMostOne | cmd/slackoverflow/commands/stackexchange.go:202-206 | on an empty store a search pass writes at most one question, however many pages arrive |
| QuestionPasses.SyncQuestion | cmd/slackoverflow/internal/slackoverflow.go:99-116 | syncs the owner, then the question, for the site: the store becomes SyncItem of the old store |
| QuestionPasses.SyncAllAppend | cmd/slackoverflow/commands/stackexchange.go:184-208 | syncing two batches one after the other is syncing their concatenation |
| QuestionPasses.SyncPage | cmd/slackoverflow/commands/stackexchange.go:184-208 | one page's questions: on an empty store only the last is remembered and nothing is written; otherwise all are synced in order |
| QuestionPasses.NewSearch | cmd/slackoverflow/commands/stackexchange.go:159-169 | a fresh search whose applied parameters are site, then the configuration map, then fromdate = watermark + 1 |
| QuestionPasses.ComputeWatermark | cmd/slackoverflow/commands/stackexchange.go:131-154 | empty exactly when the latest QID is 0; the watermark is Watermark of the latest stored question |
| QuestionPasses.SearchStep | cmd/slackoverflow/commands/stackexchange.go:182-213 | one request: the store (or the remembered question) reflects what it delivered, and the URL carries the settled parameters |
| QuestionPasses.SearchRound | cmd/slackoverflow/commands/stackexchange.go:180-224 | one loop iteration carries the loop's progress invariant from k requests to k + 1 |
| QuestionPasses.SearchFetch | cmd/slackoverflow/commands/stackexchange.go:181-213 | logging the page number and making request k gives the state after k + 1 requests, page counter k + 1 |
| QuestionPasses.SearchAdvance | cmd/slackoverflow/commands/stackexchange.go:215-223 | goes on exactly when the counter has not passed 10 and the API says there is more, and then turns the page |
| QuestionPasses.SearchLoop | cmd/slackoverflow/commands/stackexchange.go:178-224 | makes SearchFetches requests, all to the same URL, and syncs (or on an empty store remembers) ReceivedItems of them |
| QuestionPasses.SearchRounds | cmd/slackoverflow/commands/stackexchange.go:180-224 | the while loop leaves its progress invariant holding with the loop stopped, so exactly SearchFetches requests were made |
| QuestionPasses.GetNewQuestions | cmd/slackoverflow/commands/stackexchange.go:128-228 | at most 11 requests, each carrying SearchQuery for the watermark; the store becomes NewPass of the old store |
| QuestionPasses.NewQuestionsRequest | cmd/slackoverflow/commands/stackexchange.go:247-254 | a fresh questions request whose applied parameters are site, then the questions configuration map; "ids" is not an allowed name |
| QuestionPasses.UpdateStep | cmd/slackoverflow/commands/stackexchange.go:266-292 | one request for the ids: every question it delivered is synced |
| QuestionPasses.UpdateRound | cmd/slackoverflow/commands/stackexchange.go:264-301 | one loop iteration: request k is synced, and the loop goes on exactly when UpdateFetches says so |
| QuestionPasses.UpdateAdvance | cmd/slackoverflow/commands/stackexchange.go:295-300 | goes on, with the page one higher, exactly when the API reported more (and fuel is left); otherwise the page stays |
| QuestionPasses.UpdateFetch | cmd/slackoverflow/commands/stackexchange.go:265-292 | logging the page number and making request k yields the store after k + 1 requests and a URL that carries the settled parameters |
| QuestionPasses.UpdateLoop | cmd/slackoverflow/commands/stackexchange.go:263-301 | makes UpdateFetches requests to the same URL and syncs ReceivedItems of them |
| QuestionPasses.UpdateRounds | cmd/slackoverflow/commands/stackexchange.go:264-301 | the while loop leaves its progress invariant holding with the loop stopped, so exactly UpdateFetches requests were made |
| QuestionPasses.UpdateQuestions | cmd/slackoverflow/commands/stackexchange.go:230-302 | requests the ids of the tracked questions with QuestionsQuery, and the store becomes SyncAll of everything received |
| SlackPasses.Colour | cmd/slackoverflow/commands/slack.go:148-151 | the answered colour exactly for answered questions, the other colour exactly otherwise |
| SlackPasses.Thumb | cmd/slackoverflow/commands/slack.go:152-155 | thumbs down exactly for a negative score |
| SlackPasses.FooterIcon | cmd/slackoverflow/commands/slack.go:156-159 | the team's image_132 when it is a string, else the fixed logo URL |
| SlackPasses.StatsReadBack | cmd/slackoverflow/commands/slack.go:165-171 | the statistics line splits back into its words, and its numbers parse back to the answer, comment and view counts and the score |
| SlackPasses.StrippedKeepsHeadline | cmd/slackoverflow/commands/slack.go:256-266 | a retired question's attachment is the full one without text, footer and icon: same title, link and colour |
| SlackPasses.NewPost | cmd/slackoverflow/commands/slack.go:133-177 | a post to the configured channel, as "name asked on site:", with the asker's icon and the question's one full attachment |
| SlackPasses.PostStoppedStays | cmd/slackoverflow/commands/slack.go:177-181 | after a failed post the pass changes nothing more |
| SlackPasses.PostStoppedPrefix | cmd/slackoverflow/commands/slack.go:177-181 | once the questions before some point have stopped the pass, the remaining ones change nothing |
| SlackPasses.PostRunExtends | cmd/slackoverflow/commands/slack.go:130-195 | the post pass only appends links and posts, and a stopped pass stays stopped |
| SlackPasses.PostRunCount | cmd/slackoverflow/commands/slack.go:176-191 | every post adds exactly one link, except the failed one that ends the pass |
| SlackPasses.PostRunNoRepost | cmd/slackoverflow/commands/slack.go:131-132 | a link the pass adds for a nonzero QID is the only link of that QID before it: no question is posted twice |
| SlackPasses.PostRunTracked | cmd/slackoverflow/commands/slack.go:130-191 | every link the pass adds belongs to a tracked question |
| SlackPasses.PostRunCovers | cmd/slackoverflow/commands/slack.go:130-195 | a pass that no failed post ended leaves every tracked question linked |
| SlackPasses.PostOne | cmd/slackoverflow/commands/slack.go:131-194 | one tracked question, as PostStep says: skipped when linked, else posted and then linked or the pass stopped |
| SlackPasses.SlackPostNewQuestions | cmd/slackoverflow/commands/slack.go:119-197 | over the newest tracked questions, the links and posts are PostRun's; questions and users are unchanged |
| SlackPasses.RefreshBound | cmd/slackoverflow/commands/slack.go:207-281 | afterwards at most n of the questions it read links for are still stored; at most n of the links it read, duplicates counted apart, lead to a stored question; when it read a permutation of the table, at most n rows of the table left behind lead to a stored question; it only deletes; a deleted question has no link left |
| SlackPasses.LiveCountPermutation | cmd/slackoverflow/commands/slack.go:207-281 | the number of links that lead to a stored question does not depend on their order |
| SlackPasses.RefreshLiveRun | cmd/slackoverflow/commands/slack.go:207-275 | every link read whose question survives took its own rank, none beyond n: their number is at most the count of found links and at most n |
| SlackPasses.RefreshLinksShrink | cmd/slackoverflow/commands/slack.go:272-275 | the pass only deletes link rows, so no more links lead to a stored question than before |
| SlackPasses.RefreshShrinks | cmd/slackoverflow/commands/slack.go:273 | the update pass only deletes question rows and never changes one |
| SlackPasses.RefreshUntouched | cmd/slackoverflow/commands/slack.go:208-213 | a question no link names is kept as it was |
| SlackPasses.RefreshWideWindow | cmd/slackoverflow/commands/slack.go:215-255 | with a window at least as large as the links, nothing is retired and one update goes out per found question |
| SlackPasses.RefreshCount | cmd/slackoverflow/commands/slack.go:208-214 | exactly one update goes out per link whose question is found; missing questions take no rank |
| SlackPasses.RefreshOne | cmd/slackoverflow/commands/slack.go:209-280 | one link, as RefreshStep says: skipped if its question is missing, full update within the window, else stripped update and both rows deleted |
| SlackPasses.SlackUpdateQuestions | cmd/slackoverflow/commands/slack.go:198-282 | over the links by ts descending, tables and updates are RefreshRun's; users are unchanged |
| ConsoleTable.Border | cmd/slackoverflow/internal/table.go:92-94 | 120 dashes |
| ConsoleTable.PadExact | cmd/slackoverflow/internal/table.go:65-68 | a text padded to a width at least its length is exactly that wide: the text followed by spaces |
| ConsoleTable.Cells | cmd/slackoverflow/internal/table.go:43-46 | one cell per value, its %v text with its byte length |
| ConsoleTable.Widen | cmd/slackoverflow/internal/table.go:47-49 | each column becomes the larger of its width and its new cell's length; headings are kept |
| ConsoleTable.WidenMonotone | cmd/slackoverflow/internal/table.go:47-49 | adding rows never narrows a column, and the widths do not depend on the order rows come in |
| ConsoleTable.AddRowKeepsValid | cmd/slackoverflow/internal/table.go:40-52 | appending a row and widening with it keeps every column at least as wide as its heading and each of its cells |
| ConsoleTable.PrintedWidths | cmd/slackoverflow/internal/table.go:73-82 | in a valid table every printed heading and cell is exactly its column's width, its own text first |
| ConsoleTable.Table.constructor | cmd/slackoverflow/internal/table.go:29-37 | one column per heading, as wide as the heading, and no rows |
| ConsoleTable.Table.AddRow | cmd/slackoverflow/internal/table.go:40-56 | a wrong number of values changes nothing; the right number appends one row of cells and widens the columns it overflows |
| ConsoleTable.Table.AddCells | cmd/slackoverflow/internal/table.go:42-51 | the loop of AddRow: the row's cells, and the columns widened by them |
| ConsoleTable.Table.Print | cmd/slackoverflow/internal/table.go:59-89 | border, heading line, border, one line per row, border; every heading and cell is padded to exactly its column's width |
| ConsoleTable.Table.HeadingLine | cmd/slackoverflow/internal/table.go:61-71 | the heading line: each heading padded to its column's width, joined by the column separator |
| ConsoleTable.Table.RowLine | cmd/slackoverflow/internal/table.go:74-86 | a row's line: each cell padded to its column's width, joined by the column separator |
| ConsoleTable.Table.RowLines | cmd/slackoverflow/internal/table.go:73-87 | one line per row, in order |
| Run.RunFull | cmd/slackoverflow/commands/run.go:51-56 | the four passes in order: the store after both fetches is NewPass and then SyncAll; the tracked questions answer NewestByCreation on the fetched store, and the posts and the link table after posting are exactly PostRun's over them; the post pass only appends links; the update pass is RefreshRun over links by ts; at most questionsToWatch of the linked questions stay stored, at most questionsToWatch rows of the link table lead to a stored question, and retired ones keep no link |

## Left out

- HTTP and JSON decoding: `HTTPGetByURL` is not part of this model. `url.Parse`, `Query().Encode()` and the URL's text form are not either. A request's answer is a `Response` parameter, and a URL is a path plus a name-to-value query map.
- The Slack API: `PostMessage` and `SendMessage` are replaced by returned messages. Slack's answers to new posts are a parameter; `SendMessage`'s answer is not used by the source beyond logging.
- `GetChannels`, `GetTeamInfo` and the `slack channels` command: these are I/O.
- Scheduling: cron, signal handling, goroutines, and watch mode (`StackExchangeWatch`, `startWatching`). These are display-only and concurrent.
- The real clock: `now` is a parameter, and dates are Unix seconds.
- Go `time.Time` equality: the equality-gated syncs compare dates as seconds, not as `time.Time` values. Time zones and monotonic readings are not modelled.
- Configuration loading, the CLI, the wizard, logging, the `DrawQuery` debug tables, and ANSI colouring. `Print` returns its lines instead of writing them.
- SQLite plumbing: opening, preparing and scanning, and the transactions that are begun but never committed. Each write is one atomic step. A failed read (`open` or `Prepare` errors) is not modelled: lookups always see the tables. The passes call every write with `fault` false, since they only log storage errors.
- `log.Fatal` when a scan fails inside the query loops: a scan never fails in the model.
- Go's fixed-width `int`: counts, pages and dates are unbounded integers.
- `QuestionPasses.UpdateQuestions`: requests are bounded by `fuel`, because the source's loop has no bound. The model does not state what happens past `fuel` requests.
- `QuestionPasses.SearchStep`, `QuestionPasses.UpdateStep`, `StackExchange.SearchAdvanced.Get` and `StackExchange.Questions.Get`: a failed request keeps the previous result. The model does not capture a partially decoded result that a failed decode may leave behind.
- `StackExchange.Client.GetQuotaRemaining` and `StackExchange.Client.GetQuotaMax`: plain reads with no contract of their own. `Get` states the values they return.
- `StackExchange.Parameters.IsSet`, `StackExchange.Parameters.IsAllowed` and `StackExchange.Paging.HasMore`: plain membership and flag reads with no contract of their own.
- `GetAllowed`, `GetApplied` and `Parameter.Decription`: plain field reads, used directly as fields. Parameter descriptions are not modelled: every definition carries "", and only the left-out `DrawQuery` reads them.
- The defaults of `slack.NewPostMessageParameters`: only the options `slackPostNewQuestions` sets are modelled.
- The table's `rowCount` field: the source never updates it.
