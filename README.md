# NFT claim and airdrop dashboard: history route and page logic

This project is a Dafny model of the two halves of a small NFT dashboard. An organisation's
operators use it to claim tokens from a collection, send batches of them to recipients, and
keep an audit history of both.

- **The history route** (`/api/history`) is the server side. It reads the bearer token from
  the `Authorization` header, verifies it, and looks up the caller's organisation.
  - `GET` returns that organisation's history rows, newest first. Optional `start`/`end`
    dates are read as whole days in Japan Standard Time (UTC+09:00).
  - `POST` appends one row. The server, not the client, fills in the row's `org_id` and
    `user_id`.
- **The dashboard page** is the client side. It covers:
  - the `apiFetch` header rule and the mapping of stored rows to displayed logs;
  - loading, saving and prepending history;
  - the CSV export;
  - the claim transaction and its confirmation handler;
  - the sender section: the batch size, the choice of tokens to send, the approval flag and
    its toggles, the send gate, the send confirmation handler and the follow-up mail.

Modules, in dependency order:

| module | file | contents |
|---|---|---|
| `Wrappers` | `wrappers.dfy` | `Option`, `Result`, and `Field` (a JSON member that is missing, `null` or a value) |
| `Text` | `text.dfy` | `Array.prototype.join`, splitting at a character, and decimal rendering of numbers |
| `CivilTime` | `civil_time.dfy` | the proleptic Gregorian calendar and ECMAScript time values; the JST day bounds; the date-string formats the route builds and a parser that conforms to them; `setHours` on the local day at a fixed offset |
| `Sorting` | `sorting.dfy` | a stable insertion sort by an integer key (the engine's `Array.prototype.sort` is stable) and its uniqueness up to keys |
| `LedgerStore` | `ledger_store.dfy` | the `nft_history` table as a class whose rows are only appended; what a filtered, ordered select returns |
| `HistoryRoute` | `history_route.dfy` | `getBearerToken`, `GET` and `POST`, with every response the handlers can give |
| `Selection` | `selection.dfy` | the sender section's `limit`, `sendingNFTs` and `canSend` |
| `HistoryView` | `history_view.dfy` | the displayed log, the row mapping, and `downloadCSV` |
| `Page` | `page.dfy` | `apiFetch`, the dashboard's state as a class (`Dashboard`), `loadHistoryFromDB`, `saveHistoryToDB`, `addHistory`, the claim, and the sender section as a class (`SenderSection`) |

State the source keeps in React state cells is held in class fields that the handlers update
in place. A handler's method ensures that its new state equals a function of its old state and
inputs. `PageState` is the snapshot, and `AfterLoad`, `AfterSave` and `AfterConfirmed` are the
functions. Lemmas about those functions state what the handlers promise.

Everything the code does not compute itself is a parameter of the model:

- the session's access token;
- the auth service (`verify`) and the membership lookup;
- the store's clock and its acceptance of an insert;
- what `fetch` answers;
- `Date.now()`, `toLocaleString` and the engine's date parser;
- the wallet account and the owned tokens.

The calls the page makes (reads of the route, saves, submitted transactions, refetches) are
recorded as a sequence of `ExternalCall`s. This lets the model state their number and order.

Behaviour of the code that the model keeps as written:

- the approval flag starts as `false` (src/app/page.tsx:1174) until the chain read answers;
- approve and revoke set the flag when their call is confirmed, without reading the chain again
  (src/app/page.tsx:1414-1417 and 1438-1441);
- exporting an empty buffer, or a window with nothing in it, gives an alert and no file
  (src/app/page.tsx:537 and 554);
- a save answered with a non-2xx status sets the page's error and does not stop the handler,
  so the reload and the clearing of the form still happen (src/app/page.tsx:519-522);
- when `apiFetch` throws (no token) or `fetch` rejects, the save rejects and aborts the
  confirmation handler, so there is no reload, no alert and no clearing of the form;
- a selected token without an id throws at `n.id.toString()` (src/app/page.tsx:1467), before
  anything changes;
- the date inputs, the export button, the recipient inputs and the approval and claim buttons
  are disabled while logged out;
- the quantity of a claim and the size of a send batch are not checked for being positive.

## Model

| member | source | states |
|---|---|---|
| `HistoryRoute.BearerTokenExactly` | src/app/api/history/route.ts:4-8 | a header yields token `t` exactly when it is `"Bearer " + t` with `t` non-empty and free of line terminators (`^Bearer (.+)$`), in both directions |
| `HistoryRoute.NoTokenCases` | src/app/api/history/route.ts:4-8 | a missing header, an empty one, a bare `"Bearer "` and any other short scheme give no token |
| `HistoryRoute.BearerToken` | src/app/api/history/route.ts:4-8 | a token it returns is the header after `"Bearer "`, non-empty and free of line terminators |
| `HistoryRoute.Authenticate` | src/app/api/history/route.ts:15-25 | the token gate of both handlers: the user the auth service verifies for the header's token, none without a token |
| `HistoryRoute.DayBound` | src/app/api/history/route.ts:46-62 | an absent or empty date sets no bound; a present date is an error, carrying the date, exactly when its suffixed string does not parse, and otherwise the bound is the parsed instant |
| `HistoryRoute.PlanGet` | src/app/api/history/route.ts:15-62 | GET's early responses in source order, or the query it issues; its properties are stated by `GetGate`, `OrgFilterFromMembership`, `GetDateErrors` and `DayRangePlan` |
| `HistoryRoute.GetResponse` | src/app/api/history/route.ts:13-70 | GET's answer over given table contents; `Get` is proved to answer it, and `GetIsOrderedPermutation`, `GetIsTenantScoped` and `GetDayRange` state what it holds |
| `HistoryRoute.Get` | src/app/api/history/route.ts:13-77 | the handler, written with early returns and a step-by-step refined query, answers as `GetResponse` over the table's rows, and sends a select exactly when the request passes the gate and both dates parse |
| `HistoryRoute.GetGate` | src/app/api/history/route.ts:15-35 | no token or an unverified one gives 401, no membership gives 403, and a rejected request's answer is the same whatever the table holds and whether the store fails |
| `HistoryRoute.OrgFilterFromMembership` | src/app/api/history/route.ts:27-44 | an issued query is always filtered by the organisation of the verified caller's membership |
| `HistoryRoute.GetIsTenantScoped` | src/app/api/history/route.ts:41-70 | every row in a successful answer is a stored row of the caller's organisation |
| `HistoryRoute.GetIsOrderedPermutation` | src/app/api/history/route.ts:64-70 | a store error gives 500; otherwise the answer is newest first and holds exactly the matching rows, each as often as stored |
| `HistoryRoute.GetDateErrors` | src/app/api/history/route.ts:46-62 | an unparseable `start` gives 400 with that value, and so does an unparseable `end` once `start` is fine; an absent or empty parameter sets no bound |
| `HistoryRoute.DayRangePlan` | src/app/api/history/route.ts:46-62 | for calendar dates the query runs from the first millisecond of the JST start day to the last millisecond of the JST end day, for the caller's organisation |
| `HistoryRoute.GetDayRange` | src/app/api/history/route.ts:41-70 | with calendar dates a row is returned if and only if it is stored, belongs to the caller's organisation and lies within those JST day bounds |
| `HistoryRoute.PayloadScopeIsServerSide` | src/app/api/history/route.ts:109-120 | a client-sent `org_id`/`user_id` cannot change the row; the scope is the member's; each of the four optional columns is never missing, becomes `null` exactly when sent nullish, and keeps a sent value unchanged; the other columns are stored as sent |
| `HistoryRoute.BuildPayload` | src/app/api/history/route.ts:109-120 | the row POST writes; `PayloadScopeIsServerSide` states its scope and columns |
| `HistoryRoute.Post` | src/app/api/history/route.ts:82-129 | 401 without a verified token, then 500 for a body that is not JSON, then 403 without membership, then 500 for a JSON `null` body, otherwise 200 or 500 as the insert is accepted or not; the table changes exactly when the answer is 200, by one appended row with a new id |
| `HistoryRoute.ReadAfterWrite` | src/app/api/history/route.ts:41-128 | after a POST's row is appended, an unbounded GET of its organisation returns that row exactly once, and no other row with its id |
| `LedgerStore.HistoryTable.Insert` | src/app/api/history/route.ts:122-126 | an accepted insert appends one row with the next id, the current time and the payload, and reports that id; a refused one changes nothing; ids stay unique and increasing |
| `LedgerStore.Matches` | src/app/api/history/route.ts:41-62 | a row passes the select's filters when its `org_id` is the query's organisation and its `created_at` is at or after the optional `gte` bound and at or before the optional `lte` bound; `Selected` and `GetDayRange` state what it keeps |
| `LedgerStore.Run` | src/app/api/history/route.ts:41-67 | the store's answer to the select: the matching rows ordered by `created_at` descending; `RunIsOrderedSelection` and `RunFindsFreshRowOnce` state it |
| `LedgerStore.Selected` | src/app/api/history/route.ts:41-62 | a row is selected if and only if it is stored and passes the organisation and date filters |
| `LedgerStore.SelectedAppend` | src/app/api/history/route.ts:41-62 | appending a row to the table appends it to a selection exactly when it matches |
| `LedgerStore.RunIsOrderedSelection` | src/app/api/history/route.ts:64-67 | the select's result is ordered by `created_at` descending and is a permutation of the matching rows |
| `LedgerStore.RunFindsFreshRowOnce` | src/app/api/history/route.ts:64-67 | a matching row with a fresh id appears exactly once in the result of a select run after it is appended |
| `CivilTime.StartOfDayString` | src/app/api/history/route.ts:48 | `date + "T00:00:00.000+09:00"` parses to the first millisecond of that day in JST |
| `CivilTime.EndOfDayString` | src/app/api/history/route.ts:57 | `date + "T23:59:59.999+09:00"` parses to the last millisecond of that day in JST |
| `CivilTime.ParseDateTime` | src/app/api/history/route.ts:47-56 | the strict form of the engine's parser for the date and date-time strings the code builds; `StartOfDayString`, `EndOfDayString` and `ParseThenFormat` state what it gives |
| `CivilTime.DayStartJst` | src/app/api/history/route.ts:48 | a JST day starts nine hours before that calendar day's UTC midnight |
| `CivilTime.DayEndJst` | src/app/api/history/route.ts:46-62 | a JST day's last millisecond is 86 399 999 ms after its first |
| `CivilTime.JstDaysAreContiguous` | src/app/api/history/route.ts:46-62 | the millisecond after a JST day's end starts the next calendar day, so consecutive day ranges leave no gap |
| `CivilTime.JstDaysAreDisjoint` | src/app/api/history/route.ts:46-62 | the ranges of distinct calendar days never overlap |
| `CivilTime.JuneFirstScenario` | src/app/api/history/route.ts:46-62 | the JST day 2024-06-01 runs from 2024-05-31T15:00Z to 2024-06-01T14:59:59.999Z, that is from time value 1717167600000 |
| `CivilTime.NextDate` | src/app/api/history/route.ts:46-62 | the day after a valid date is a valid date |
| `CivilTime.NextDateIsNextDay` | src/app/api/history/route.ts:46-62 | the next date's day number is one more than the date's |
| `CivilTime.YearLength` | src/app/api/history/route.ts:46-62 | the day count from one year to the next is 366 in a Gregorian leap year and 365 otherwise |
| `CivilTime.DayNumberIncreasing` | src/app/api/history/route.ts:46-62 | a date earlier in calendar order has a smaller day number |
| `CivilTime.DayFromYearMonotone` | src/app/api/history/route.ts:46-62 | each later year starts at least 365 days after an earlier one |
| `CivilTime.ParseCalendarDate` | src/app/api/history/route.ts:37-38 | a `YYYY-MM-DD` string is accepted only when it names a valid date with a four-digit year |
| `CivilTime.FormatThenParse` | src/app/api/history/route.ts:37-38 | formatting a valid date as `YYYY-MM-DD` and parsing it gives the date back |
| `CivilTime.ParseThenFormat` | src/app/api/history/route.ts:37-38 | an accepted date string is exactly the formatting of the date it denotes |
| `CivilTime.LocalDayOfUtcMidnight` | src/app/page.tsx:540-549 | `setHours(0,0,0,0)` on UTC midnight stays on that day east of UTC and moves to the previous day west of it |
| `CivilTime.LocalDayStart` | src/app/page.tsx:542-543 | `setHours(0, 0, 0, 0)`: the result is at or before the instant, less than a day before it, and on a local midnight |
| `CivilTime.LocalDayEnd` | src/app/page.tsx:547-548 | `setHours(23, 59, 59, 999)`: the result is at or after the instant, less than a day after it, and one millisecond before a local midnight |
| `CivilTime.LocalDayAtJstMatchesSuffixBounds` | src/app/page.tsx:540-549 | at UTC+09:00 the export's `setHours` bounds of a date are the route's JST day bounds |
| `CivilTime.LocalDayWestOfUtcIsPreviousDay` | src/app/page.tsx:540-545 | west of UTC the export's start bound falls on the local start of the previous calendar day |
| `Page.ApiFetchHeaders` | src/app/page.tsx:21-36 | headers are produced exactly when the session has a non-empty access token; otherwise the call throws |
| `Page.ApiFetchAuthorizes` | src/app/page.tsx:21-36 | the caller's headers are kept and `Authorization` is added or overridden; with header values passed through unchanged, the route's pattern reads the session's token back exactly when the token has no line terminator |
| `Page.SearchParam` | src/app/page.tsx:466-467 | a filter date adds its search parameter exactly when it is non-empty, and the parameter carries the date unchanged |
| `Page.ReloadRequestAuthenticates` | src/app/page.tsx:461-478 | a reload reaches the route with the session's token, so it is authenticated as that token's user, and with `start`/`end` present exactly when the filter dates are non-empty |
| `HistoryView.MapRow` | src/app/page.tsx:480-491 | each stored column becomes the log's field, and a `null` or missing column becomes `"-"`, `0` or `""` as the page chooses; `rawDate` is `created_at` and the timestamp is its formatting |
| `HistoryView.MapRows` | src/app/page.tsx:480-491 | the logs are the mapped rows, one for one, in the order received |
| `HistoryView.MappedRowsKeepServerOrder` | src/app/page.tsx:480-494 | rows received newest first are displayed newest first |
| `Page.Dashboard.constructor` | src/app/page.tsx:385-401 | a fresh dashboard is logged out, with no history, no error, nothing loaded, empty filter dates and no calls made |
| `Page.Dashboard.OnAuthStateChange` | src/app/page.tsx:422-440 | the auth listener sets the login flag and changes nothing else |
| `Page.Dashboard.SetDateFilter` | src/app/page.tsx:740-755 | while logged in the date inputs set the filter dates and change nothing else; while logged out they are disabled and nothing changes |
| `Page.Dashboard.AddHistory` | src/app/page.tsx:531 | the new log is put before the existing ones and nothing else changes |
| `Page.WithLog` | src/app/page.tsx:531 | the state after `addHistory`; `AddPrepends` states it |
| `Page.AddPrepends` | src/app/page.tsx:531 | after `addHistory` the buffer is one longer, starts with the log and continues with the old buffer; no other state changes |
| `Page.Dashboard.RefetchHoldings` | src/app/page.tsx:413-417 | a refetch of the owned tokens is recorded and nothing else changes |
| `Page.Dashboard.LoadHistoryFromDb` | src/app/page.tsx:461-498 | the handler's new state is `AfterLoad` of its old state |
| `Page.AfterLoad` | src/app/page.tsx:461-498 | the state after `loadHistoryFromDB`, with a JSON `null` or non-JSON reply leaving the buffer as it was; `LoadOutcomes` states it |
| `Page.LoadOutcomes` | src/app/page.tsx:461-498 | a load makes at most one GET, and makes it exactly when logged in with a token; only a 2xx JSON answer replaces the buffer with the mapped rows and marks the history loaded; any failure leaves the buffer as it was; nothing else changes |
| `Page.Dashboard.SaveHistoryToDb` | src/app/page.tsx:506-523 | the handler's new state and whether its promise rejects are `AfterSave` of its old state |
| `Page.AfterSave` | src/app/page.tsx:506-523 | the state after `saveHistoryToDB` and whether it rejects; `SaveOutcomes` states it |
| `Page.BodyOf` | src/app/page.tsx:513-517 | what the route's `req.json()` reads from the posted JSON: kind, amount, token ids and hash as sent; each optional column `null` when absent and the value otherwise, never missing; no `org_id` or `user_id` |
| `Page.SaveFailedMessage` | src/app/page.tsx:521 | the error shown for a non-2xx save: the fixed prefix, the status as `IntToDecimal` renders it, one space, then the reply text |
| `Page.SaveOutcomes` | src/app/page.tsx:506-523 | logged out, it only sets the login error; with no token or a network failure the promise rejects; otherwise one POST is made, and a non-2xx answer sets the error from its status and text, while a 2xx answer keeps the error as it was |
| `Page.Refetched` | src/app/page.tsx:1091 | `refetch()` at the start of both confirmation handlers: one refetch call is recorded after the earlier calls, and no other part of the state changes |
| `Page.Dashboard.RecordConfirmed` | src/app/page.tsx:1090-1121 | the confirmation tail's new state and whether it ran to its end are `AfterConfirmed` of the old state |
| `Page.AfterConfirmed` | src/app/page.tsx:1090-1121 | the common tail of both confirmation handlers; `ConfirmedSequence` states it |
| `Page.ConfirmedSequence` | src/app/page.tsx:1090-1121 | a confirmation records exactly a refetch, at most one POST and at most one reload GET, in that order, and never submits another transaction; it runs to its end exactly when the save did not reject; the buffer then holds the reloaded rows after a successful reload, or else the new log before the old buffer |
| `Page.ClaimNeedsLoginAndWallet` | src/app/page.tsx:1078-1089 | the mint is prepared exactly when logged in with a wallet, for that wallet and the fixed amount; logged out gives the login error first |
| `Page.ClaimTransaction` | src/app/page.tsx:1078-1089 | the claim button's transaction, or the error it raises; `ClaimNeedsLoginAndWallet` states it |
| `Page.ClaimLog` | src/app/page.tsx:1094-1105 | the log shown at once for a claim; `ClaimLogSurvivesReload` relates it to the saved row |
| `Page.ClaimPayload` | src/app/page.tsx:1109-1118 | the body saved for a claim; `ClaimLogSurvivesReload` relates it to the shown log |
| `Page.PressClaim` | src/app/page.tsx:1078-1089 | pressing claim submits the prepared mint, submits nothing when it is refused, and makes no other call |
| `Page.OnClaimConfirmed` | src/app/page.tsx:1090-1124 | a confirmed claim runs the confirmation tail with the claim's log and payload |
| `Page.ClaimLogSurvivesReload` | src/app/page.tsx:1094-1118 | the row saved for a claim reads back as the log shown at once, except for its timestamp |
| `Selection.Limit` | src/app/page.tsx:1183 | the batch size is the fixed amount unless that is zero, in which case it is one |
| `Selection.SortKey` | src/app/page.tsx:1188-1189 | the comparator's key `BigInt(id ?? 0)`: a token without an id sorts as id 0; `SelectionIsSmallestIds` and `SelectionKeepsTieOrder` state the sort by it |
| `Selection.SliceEnd` | src/app/page.tsx:1194 | `slice(0, end)` keeps `end` elements, or all of them when fewer; a negative end drops that many from the back |
| `Selection.SendingNfts` | src/app/page.tsx:1185-1195 | the tokens to send; `SelectionIsSmallestIds`, `NegativeLimitDropsFromEnd`, `SelectionNonEmpty`, `SelectionIgnoresInputOrder` and `SelectionKeepsTieOrder` state it |
| `Selection.SelectionIsSmallestIds` | src/app/page.tsx:1185-1195 | the selection has the batch size (capped at the holdings), is ordered by id, is drawn from the holdings, and no holding left out has a smaller id than a selected one |
| `Selection.NegativeLimitDropsFromEnd` | src/app/page.tsx:1183-1195 | a negative fixed amount selects all holdings but that many |
| `Selection.SelectionNonEmpty` | src/app/page.tsx:1183-1195 | no holdings give an empty selection; with holdings a non-negative amount selects at least one, and a zero amount exactly one |
| `Selection.SelectionIgnoresInputOrder` | src/app/page.tsx:1185-1195 | the ids selected do not depend on the order the holdings arrive in |
| `Selection.SelectionKeepsTieOrder` | src/app/page.tsx:1187-1193 | tokens with equal ids keep their relative order through the sort |
| `Selection.CanSendNeedsHoldings` | src/app/page.tsx:1266-1273 | whenever sending is allowed there are holdings, and the amount does not remove all of them |
| `Selection.CanSend` | src/app/page.tsx:1268-1273 | the send gate; `CanSendNeedsHoldings` and `SenderSection.PressSend` state its consequences |
| `Sorting.SortBy` | src/app/page.tsx:1187-1193 | the sorted copy is ordered by key and is a permutation of the input |
| `Sorting.SortIsStable` | src/app/page.tsx:1187-1193 | for each key the elements with that key come out in their input order |
| `Sorting.SortedPermutationsHaveEqualKeys` | src/app/page.tsx:1187-1193 | any two key-ordered arrangements of the same elements list the same keys |
| `Page.SenderSection.constructor` | src/app/page.tsx:1170-1181 | the form starts empty, approval is taken as not given, and there is no last send |
| `Page.SenderSection.EditRecipient` | src/app/page.tsx:1350-1400 | the recipient inputs take the typed values while logged in and ignore them while logged out |
| `Page.SenderSection.CheckApproval` | src/app/page.tsx:1197-1213 | the approval flag takes the chain's answer when a wallet is connected and the read succeeded, and stays as it was otherwise |
| `Page.SenderSection.ApprovalAction` | src/app/page.tsx:1404-1449 | the approval button sets approval for the airdrop contract to the opposite of the current flag |
| `Page.SenderSection.PressApproval` | src/app/page.tsx:1404-1449 | pressing the approval button submits that call while logged in and nothing while logged out |
| `Page.SenderSection.OnApprovalConfirmed` | src/app/page.tsx:1414-1441 | a confirmed approve or revoke call sets the flag to the approval that call set on chain |
| `Page.SenderSection.PressSend` | src/app/page.tsx:1453-1464 | the bulk transfer of the selected ids to the recipient is submitted exactly when sending is allowed |
| `Page.SendIds` | src/app/page.tsx:1458 | the transfer carries the selected tokens' ids, one for one, in selection order |
| `Page.IdsText` | src/app/page.tsx:1467 | the selected ids in decimal, joined by the three-character separator, as the log, the saved row and the mail show them; `SendLogCountsSelection` states its layout |
| `Page.SendLog` | src/app/page.tsx:1471-1482 | the log shown at once for a send; `SendLogCountsSelection` and `SendLogSurvivesReloadIffNamed` state it |
| `Page.SendPayload` | src/app/page.tsx:1491-1500 | the body saved for a send; `SendLogSurvivesReloadIffNamed` and `MailMatchesSavedSend` state it |
| `Page.SenderSection.OnSendConfirmed` | src/app/page.tsx:1465-1510 | a token without an id aborts the handler before anything changes; otherwise it runs the confirmation tail with the send's log and payload, records the mail data, and clears the form only when the handler runs to its end |
| `Page.OrNone` | src/app/page.tsx:1493-1495 | an entered text is saved as `null` exactly when it is empty, and as itself otherwise |
| `Page.SendLogSurvivesReloadIffNamed` | src/app/page.tsx:1471-1500 | the row saved for a send reads back as the log shown at once, apart from its timestamp, if and only if a recipient name was entered |
| `Page.SendLogCountsSelection` | src/app/page.tsx:1466-1480 | the send log's amount is the number of tokens selected, and its id list shows each selected id in order, joined by the fixed separator |
| `Page.SingleDigitJoin` | src/app/page.tsx:1467 | joining one-character pieces with the three-character separator puts piece `i` at position `4i`, in a string of length `4n - 3` |
| `Page.MailContent` | src/app/page.tsx:1215-1247 | there is a mail exactly after a successful send; it goes to the entered e-mail address with the fixed subject |
| `Page.SenderSection.CreateMailContent` | src/app/page.tsx:1215-1247 | a mail exists exactly after a successful send; it goes to that send's e-mail address, with the body built from its data |
| `Page.MailBody` | src/app/page.tsx:1220-1245 | the mail body; `MailLayout` states its parts and their order |
| `Page.MailLayout` | src/app/page.tsx:1222-1244 | the body starts with the salutation name and continues with the fixed introduction and the token ids; it ends with the Etherscan link of the transaction and the fixed closing |
| `Page.MailMatchesSavedSend` | src/app/page.tsx:1484-1500 | the mail is addressed to the e-mail that was saved; it greets the entered name, or the default salutation; it lists the same token ids as the saved row |
| `HistoryView.LogLines` | src/app/page.tsx:568-578 | one CSV line per log, in buffer order |
| `HistoryView.CsvLines` | src/app/page.tsx:580 | the header line followed by one line per log; `ContentReadsBack` states how the file reads back |
| `HistoryView.CsvFields` | src/app/page.tsx:568-578 | each line has as many cells as the header |
| `HistoryView.InWindow` | src/app/page.tsx:539-552 | the filter callback: a log is kept when its raw time is at or after the lower bound, if there is one, and at or before the upper bound, if there is one; `FilterMembers` states what the export keeps |
| `HistoryView.Filter` | src/app/page.tsx:539-552 | `history.filter(...)` over the buffer; `FilterMembers`, `FilterOfConcat` and `FilterKeepsLatestFirst` state it |
| `HistoryView.LowerBound` | src/app/page.tsx:541-545 | the export's lower bound: none for an empty or unparseable date, else the local start of its day; `ExportWindowMatchesApiAtJst` and `ExportWindowWestOfUtc` state it |
| `HistoryView.UpperBound` | src/app/page.tsx:546-550 | the export's upper bound: none for an empty or unparseable date, else the local end of its day; `ExportWindowMatchesApiAtJst` states it |
| `HistoryView.FilterMembers` | src/app/page.tsx:539-552 | a log is exported if and only if it is in the buffer and inside the window |
| `HistoryView.FilterOfConcat` | src/app/page.tsx:539-552 | filtering distributes over concatenation, so the export keeps buffer order |
| `HistoryView.FilterKeepsLatestFirst` | src/app/page.tsx:539-552 | a newest-first buffer is exported newest first |
| `HistoryView.ExportOutcomes` | src/app/page.tsx:536-589 | an empty buffer gives no file; a buffer with nothing in the window gives no file; otherwise the file is named by the filter dates |
| `HistoryView.ExportCsv` | src/app/page.tsx:536-594 | the export: no file, or a named CSV file; `ExportOutcomes` and `CsvReadsBack` state it |
| `Page.Dashboard.DownloadCsv` | src/app/page.tsx:758 | the export button gives an export exactly while logged in, and that export is `ExportCsv` of the buffer under the filter dates |
| `HistoryView.FileNameRule` | src/app/page.tsx:587-589 | the file is `nft_history.csv` exactly when both dates are empty; otherwise it starts `nft_history_` followed by the start date, or `start` when only the end is set, and ends `_to_` followed by the end date, or `now`, then `.csv` |
| `HistoryView.FileName` | src/app/page.tsx:587-589 | the download name; `FileNameRule` states it |
| `HistoryView.PlainLogText` | src/app/page.tsx:568-578 | the amount and the quoting add no comma or newline, so only the free-text columns can break a line |
| `HistoryView.HeaderReadsBack` | src/app/page.tsx:556-566 | the header line has no newline and splits at commas into the nine titles |
| `HistoryView.LineReadsBack` | src/app/page.tsx:568-580 | a log without commas or newlines in its text becomes one line that splits back into its nine cells |
| `HistoryView.ContentReadsBack` | src/app/page.tsx:580 | for such logs the file splits at newlines into the header and one line per log |
| `HistoryView.CsvReadsBack` | src/app/page.tsx:536-580 | an exported file reads back as the header and, line by line, the cells of the logs in the window, in buffer order |
| `HistoryView.ExportWindowMatchesApiAtJst` | src/app/page.tsx:539-549 | at UTC+09:00 the export window of calendar dates equals the route's JST day range |
| `HistoryView.ExportWindowWestOfUtc` | src/app/page.tsx:539-545 | west of UTC the export window starts on the local start of the day before the chosen date |
| `Text.SplitJoin` | src/app/page.tsx:580 | joining pieces that contain no separator and splitting at it gives the pieces back |
| `Text.JoinAvoids` | src/app/page.tsx:580 | a character in neither the pieces nor the separator is not in the joined string |
| `Text.NatToDecimal` | src/app/page.tsx:1467 | `toString()` of an id is a non-empty digit string without a leading zero |
| `Text.DecimalRoundTrip` | src/app/page.tsx:1467 | reading an id's decimal rendering back gives the id |
| `Text.IntToDecimal` | src/app/page.tsx:519-522 | a status code renders as digits denoting its value, with a leading minus exactly for a negative number |

## Left out

- I/O is not modelled. There is no real network, store, auth service or chain. Their answers
  are parameters (`Services`, `Reply`, `accepted`, `queryFails`, `owned`, `account`,
  `CheckApproval`'s `read`).
- The JavaScript date parser is abstract. `ConformingParser` only requires it to agree with
  the two ISO-8601 forms the code builds: `YYYY-MM-DD`, and
  `YYYY-MM-DDTHH:mm:ss.sss+HH:MM`. Its leniency outside those forms is not modelled.
- The browser's time zone is a fixed offset (`offsetMs`). Daylight-saving changes are not
  modelled.
- `toLocaleString` is a formatting parameter, and `Date.now()` is a parameter.
- The store's `now()` is a parameter of `Insert`. Row ids come from the table's `nextId`
  field, a stand-in for the store's key that the route never reads. Two rows with the same
  `created_at` are returned in table order. The store does not promise any order for such
  ties, so the model assumes this one.
- `getOwnedNFTs` and `readContract` are parameters. Token ids are naturals; `BigInt(id ?? 0)`
  is `SortKey`.
- `Number(fixedAmount)` is taken on an integer. Non-numeric and fractional amounts are not
  modelled.
- The amount stored with a row is an integer. JSON numbers are not modelled.
- The thirdweb transaction layer is not modelled: prepared calls are values, and encoding,
  signing, gas and receipts are left out.
- Async interleavings and React re-renders are not modelled. Each handler runs start to end on
  one snapshot of the state. `sendingNFTs` is computed when the handler starts.
- HTTP header names are case-insensitive; the model keys headers by their literal name.
- URL encoding is not modelled. `URLSearchParams` is modelled as the presence of `start` and
  `end`.
- Alerts, `console.error`, `window.open`, the mail link's URL encoding, the `Blob` and the
  download link are not modelled.
- `GET`'s store error is the explicit `if (error)` branch (src/app/api/history/route.ts:66-68),
  modelled by `queryFails`.
- `GET`'s `catch` (src/app/api/history/route.ts:71-76) turns an exception thrown by `getUser`,
  by the membership lookup or by the query into 500. That path is not modelled: `verify`,
  `membership` and the query are total functions here.
- `POST` has no `catch`. A body that is not JSON (src/app/api/history/route.ts:97), or a JSON
  `null` body once the membership is found (its first property read,
  src/app/api/history/route.ts:112), is an unhandled rejection that the framework answers
  with 500; the model's `ServerException`.
- An exception thrown in `POST` by `getUser`, by the membership lookup or by the insert
  (src/app/api/history/route.ts:85-126) would also reach the framework uncaught and be
  answered with 500. That path is not modelled: `verify`, `membership` and `Insert` are
  total here.
- `.single()` on the membership lookup is modelled as a partial map `membership`.
- `mapDbRowToHistoryLog` (src/app/page.tsx:445-459) is not called anywhere, so it is not
  modelled. `loadHistoryFromDB` maps rows inline, and that mapping is `MapRow`.
- `isHistoryLoading` is never set to true, so it is left out.
- `HistoryRoute.GetDayRange` holds at millisecond resolution only: `created_at` is modelled
  as integer milliseconds (`Row.createdAt`). A `timestamptz` column keeps microseconds, so
  the `lte` bound `…T23:59:59.999+09:00` misses rows in the last 999 µs of a JST day.
- `CivilTime.JstDaysAreContiguous` ("no gap") holds at millisecond resolution only; at the
  store's microsecond resolution consecutive day ranges leave the last 999 µs of each day out.
- `Selection.Limit`: the model covers the integer amounts the page is configured with.
- `Selection.SelectionIsSmallestIds` requires a non-negative fixed amount. A negative amount
  is covered by `Selection.NegativeLimitDropsFromEnd`.
- `Page.SendLogCountsSelection` states the id list's positions only for single-digit ids. It
  states the amount for every selection.
- `Page.MailContent` and `Page.MailLayout` fix the mail body's parts and their order. They do
  not spell out the fixed Japanese text.
- `Page.ApiFetchAuthorizes`: the model passes header values to the route unchanged. Under the
  Fetch standard the platform does not: it strips leading and trailing tabs, line feeds,
  carriage returns and spaces from a header value, and it rejects a value containing a line
  feed, a carriage return, NUL or a character above U+00FF (U+2028 and U+2029 among them) by
  throwing a `TypeError`, so the request is never sent. The read-back stated by this lemma
  therefore holds on the wire only for Latin-1 tokens without leading or trailing whitespace.
  A token that ends in whitespace is sent shortened and does not read back as itself.
- `Page.ReloadRequestAuthenticates` requires the token to have no line terminator. With such a
  token, the model's route would not read it back (`Page.ApiFetchAuthorizes` states both
  directions); on the platform the request would fail in `fetch` before it is sent, as the line
  above says.
