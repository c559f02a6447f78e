# deliveries-manager, modelled in Dafny

A model of the deliveries-manager Chrome extension and its React dashboard.

**Extension side.**
- The content script reads the delivery ids from the deliveries table and fetches the API list.
- It keeps only the listed deliveries and sorts them into the `ky`, `mcm` and `other` buckets.
- The background worker routes the runtime messages and keeps one envelope in extension storage.
- It notifies the open dashboard tabs.
- It opens a print window whose injected script loads one invoice frame per delivery and prints once every frame has signalled.

**Dashboard side.**
- The dashboard holds the buckets in React state and saves only user edits back to storage.
- It offers delete, move, add, bulk-address, row-edit and sort-order actions.
- It parses an optimized route pasted as `id: address` lines.
- It validates and highlights that route text.
- It sorts deliveries for the table and for printing.

**How the model represents it.**
- Each source file is one module, and each handler or hook callback is a pure function from its inputs to its effects.
- Chrome APIs, `fetch`, the DOM and the clock are parameters.
- Values shared by the modules live in four modules:
  - `Values`: JavaScript ids as `Num | Str | Null | Undefined`, with `===` as equality, and `String(x)` as `IdString`.
  - `Records`: the delivery record, the buckets and the storage envelope.
  - `Messages`: the runtime and tab messages and the responses.
  - `Text` and `Seqs`: the string and array built-ins the code uses.
- The JavaScript built-ins are modelled as follows:
  - `Array.prototype.sort` is stable and follows its comparator's sign. It is modelled as a stable insertion sort, `PrintService.SortBy`.
  - `trim` removes the ECMAScript white space and line terminators.
  - `replace(/\D/g, '')` keeps the ASCII digits.
  - A route key is the decimal string an id renders to, as an object property lookup does.

## Model

| member | source | states |
|---|---|---|
| DeliveryExtractor.ScrapedId | extension-src/content/services/deliveryExtractor.js:20-26 | A link contributes an id exactly when its text holds a digit, and the id is the decimal value of those digits (trimming first changes nothing). |
| DeliveryExtractor.ExtractDeliveryIds | extension-src/content/services/deliveryExtractor.js:14-31 | The id set holds exactly the ids some link text yields, and it has no more members than there are links. |
| DeliveryExtractor.SomeContained | extension-src/content/services/deliveryExtractor.js:41 | `some(... includes ...)` is true iff some denylist entry occurs in the text. |
| DeliveryExtractor.ShouldExcludeDelivery | extension-src/content/services/deliveryExtractor.js:9-51 | A delivery is excluded iff one of the seven place names occurs in its lower-cased city or its lower-cased address. |
| DeliveryExtractor.BucketOf | extension-src/content/services/deliveryExtractor.js:78-92 | Every element is assigned one of the three buckets. It is `ky` iff it is not denylisted and its lower-cased location is exactly "ky", and `mcm` likewise for "mcm"; everything else, denylisted elements included, is `other`. |
| DeliveryExtractor.CategorizeDeliveries | extension-src/content/services/deliveryExtractor.js:56-96 | The result has exactly the keys `ky`, `mcm` and `other`. Each bucket holds the transformed elements assigned to it, in input order. |
| DeliveryExtractor.BucketSizesSum | extension-src/content/services/deliveryExtractor.js:63-93 | Every element lands in exactly one bucket, so the bucket sizes add up to the input length. |
| DeliveryExtractor.ExcludedGoesToOther | extension-src/content/services/deliveryExtractor.js:79-82 | A denylisted element goes to `other` whatever its location. |
| DeliveryExtractor.NoTextNotExcluded | extension-src/content/services/deliveryExtractor.js:36-51 | With an empty city and an empty address nothing is denylisted. |
| DeliveryExtractor.UpperCaseLocation | extension-src/content/services/deliveryExtractor.js:85-87 | Location matching ignores case: "KY" goes to `ky`. |
| DeliveryExtractor.InexactLocation | extension-src/content/services/deliveryExtractor.js:85-92 | Location matching is otherwise exact: " ky" and "" go to `other`. |
| DeliveryExtractor.LindenhurstIsExcluded | extension-src/content/services/deliveryExtractor.js:41 | Matching is by substring: "Lindenhurst" is caught by "linden". |
| DeliveryExtractor.BuildAddressEmpty | extension-src/content/services/deliveryExtractor.js:101-108 | The joined address is empty iff all four parts are empty. |
| DeliveryExtractor.BuildAddressAllParts | extension-src/content/services/deliveryExtractor.js:101-108 | With every part present the address reads "address, city, state, zip". |
| DeliveryExtractor.BuildAddressSkipsMissing | extension-src/content/services/deliveryExtractor.js:101-108 | A missing part leaves no empty slot between the commas. |
| DeliveryExtractor.BuildAddress | extension-src/content/services/deliveryExtractor.js:101-108 | The address is the non-empty parts among address, city, state and zip, in that order, joined by ", ". |
| DeliveryExtractor.Transform | extension-src/content/services/deliveryExtractor.js:64-76 | The record keeps the delivery's id and has no sort order. Its address is empty iff all four parts are. Its customer label is the customers text and the order id. The order id, location, city, state and zip are the delivery's, with a missing field read as "", and the address is the joined address of the delivery. An element without a delivery gives an undefined id and empty text. |
| ApiService.FilterDeliveriesByIds | extension-src/content/services/apiService.js:25-38 | The result is no longer than the input, and every kept element passes the keep test (delivery present, id defined, digits of its id scraped). |
| ApiService.FilterKeepsExactly | extension-src/content/services/apiService.js:25-38 | An element is in the result iff it is in the input and passes the keep test. |
| ApiService.MissingIdDropped | extension-src/content/services/apiService.js:27-31 | Elements without a delivery, or with an undefined id, are never kept. |
| ApiService.FilterIsSubsequence | extension-src/content/services/apiService.js:26 | The result is the input with elements deleted: order kept, nothing added. |
| ApiService.FilterConcat | extension-src/content/services/apiService.js:26-37 | Each element's decision is local, so filtering a concatenation filters each part. |
| ApiService.FilterOrderIndependent | extension-src/content/services/apiService.js:26-37 | Reordering the input only reorders the result. |
| ApiService.FilterDeliveriesIdempotent | extension-src/content/services/apiService.js:25-38 | Filtering the result again with the same ids changes nothing. |
| ApiService.DigitlessIdIsZero | extension-src/content/services/apiService.js:33-36 | An id whose string form has no digits reads as `Number('') == 0`. |
| ApiService.NullIdIsZero | extension-src/content/services/apiService.js:33-36 | A `null` id renders as "null" and reads as 0. |
| ApiService.NumericIdValue | extension-src/content/services/apiService.js:33-36 | A numeric id reads as its absolute value, because the minus sign is not a digit. |
| ApiService.StringIdValue | extension-src/content/services/apiService.js:33-36 | A string id keeps only its digits: "101-A" reads as 101. |
| ApiService.ScrapedIdMatchesNumericId | extension-src/content/services/apiService.js:33-36 | An API element whose numeric id was scraped from the table is kept. |
| ApiService.MixedIdsExample | extension-src/content/services/apiService.js:25-38 | For the ids {101, 102}, "101-A" and 102 are kept and 999 is dropped, in order. |
| ContentScript.FetchAllDeliveries | extension-src/content/services/apiService.js:9-20 | The fetch succeeds iff the response is ok, and then yields the body. A non-ok status becomes "API request failed: <status>". A network error passes through. |
| ContentScript.ExtractDeliveryData | extension-src/content/content.js:34-65 | The API is called iff the table yields an id; with none, the result is the "No delivery IDs found" error. On success the result is the filtered, categorised list. |
| ContentScript.NoIdsIffNoDigits | extension-src/content/content.js:37-41 | The table yields no ids iff no link text holds a digit. |
| ContentScript.OnContentMessage | extension-src/content/content.js:11-32 | Only `EXTRACT_DATA` keeps the channel open and gets a reply. `DATA_EXTRACTED` is sent iff the table yielded ids and the fetch returned an ok status, and it carries the categorised list of the filtered API elements; success is then acknowledged. Otherwise nothing is sent and the reply is the extraction's error: no ids, the failing status, or the thrown network message. |
| ContentScript.ForwardsCategorisedData | extension-src/content/content.js:15-19 | The forwarded payload is exactly the categorised list of the filtered API elements. |
| ContentScript.EmptyTableNeverFetches | extension-src/content/content.js:39-41 | An empty table fails without calling the API. |
| ContentScript.BadStatusReported | extension-src/content/content.js:25-28 | A non-ok status is reported with its number and nothing is forwarded. |
| ContentScript.NetworkErrorReported | extension-src/content/content.js:25-28 | A fetch that throws is answered with the thrown message and nothing is forwarded. |
| ContentScript.OnContentMessageAll | extension-src/content/content.js:11-32 | Every injection registers one more listener; each listener handles the message on its own, with its own fetch. |
| ContentScript.RepeatedInjectionForwardsRepeatedly | extension-src/content/content.js:11-23 | A page grabbed k times holds k listeners, so one `EXTRACT_DATA` makes it send the same `DATA_EXTRACTED` k times. |
| DataExtraction.HandleDataExtraction | extension-src/background/services/dataExtraction.js:9-57 | The reply is success iff there is an active tab on the deliveries page, injection succeeds and sending raises no runtime error. A failing tab query is answered with its message, and a runtime error after sending with its message. On the deliveries page with a successful injection the script goes into the first tab and extraction is requested there; it is never requested anywhere else. |
| DataExtraction.NoActiveTab | extension-src/background/services/dataExtraction.js:16-22 | No active tab gives the fixed error and nothing is injected. |
| DataExtraction.WrongPageNotInjected | extension-src/background/services/dataExtraction.js:27-33 | A tab on another page gets the fixed error before any injection. |
| DataExtraction.OnlyFirstTabMatters | extension-src/background/services/dataExtraction.js:24 | Only the first tab of the query result matters. |
| DataExtraction.PageCheckIsExact | extension-src/background/services/dataExtraction.js:62-70 | The page check compares origin and pathname exactly. A trailing slash or http fails, a query passes and an unparsable URL fails. |
| DataExtraction.FailedExtractionReportedAsSuccess | extension-src/background/services/dataExtraction.js:42-51 | A content-script failure reply is still answered with success, because only `lastError` is checked. |
| DataExtraction.InjectionFailureReported | extension-src/background/services/dataExtraction.js:36-56 | An injection failure becomes the failure reply and no extraction is requested. |
| MessageRouter.Route | extension-src/background/utils/messageRouter.js:19-55 | The channel stays open iff the tag is one of the six known tags, and then a handler runs. Otherwise the reply is "Unknown message type" at once. Each tag reaches its own handler: INJECT_AND_GRAB the extraction, DATA_EXTRACTED the extracted-data handler with `data`, SAVE_DATA the save with `data`, GET_CACHED_DATA the cache read, CLEAR_DATA the clear, PRINT_ROUTE the print handler with `data`. |
| MessageRouter.PayloadForwarded | extension-src/background/utils/messageRouter.js:28-49 | `message.data` reaches its handler unchanged. |
| MessageRouter.DispatchByTag | extension-src/background/utils/messageRouter.js:22-55 | Dispatch depends only on the `type` string. |
| MessageRouter.HandlersDistinct | extension-src/background/utils/messageRouter.js:22-50 | Different known tags reach different handlers. |
| Records.EmptyBuckets | extension-src/background/services/dataStorage.js:93-97 | The empty buckets have exactly the three keys, each empty. |
| Records.NewEnvelope | extension-src/background/services/dataStorage.js:39-43 | A fresh envelope carries version 1, the timestamp and the buckets. |
| DataStorage.NotifyUIPages | extension-src/background/services/dataStorage.js:115-136 | Every notification is `DATA_UPDATED` with the data, and there are no more of them than the query listed. |
| DataStorage.NotifiedExactly | extension-src/background/services/dataStorage.js:123-131 | A tab is notified iff the query succeeded, it is a dashboard tab and it can be reached; one failing tab does not stop the others. |
| DataStorage.NotifiedInQueryOrder | extension-src/background/services/dataStorage.js:115-136 | The notified tabs are the listed, reachable ones in query order. When the query lists each tab once, no tab is notified twice. A failed query notifies nobody. |
| DataStorage.SaveData | extension-src/background/services/dataStorage.js:13-31 | On success the store holds the data and the tabs are notified. On failure the store is unchanged, nothing is broadcast and the error is returned. |
| DataStorage.HandleExtractedData | extension-src/background/services/dataStorage.js:37-58 | On success a version-1 envelope with the timestamp and the buckets is stored and broadcast. On failure nothing changes. |
| DataStorage.ExtractedIsSavedEnvelope | extension-src/background/services/dataStorage.js:37-58 | Handling extracted data is saving the envelope built around it. |
| DataStorage.GetCachedData | extension-src/background/services/dataStorage.js:63-78 | A successful read answers with the stored envelope, or null; a failed read answers with the error. |
| DataStorage.ClearData | extension-src/background/services/dataStorage.js:83-108 | On success the key is removed and an envelope of empty buckets is broadcast. On failure nothing changes. |
| DataStorage.GetAfterSave | extension-src/background/services/dataStorage.js:13-78 | A read after a successful save returns what was saved. |
| DataStorage.GetAfterClear | extension-src/background/services/dataStorage.js:63-108 | A read after a successful clear returns null. |
| DataStorage.ClearIdempotent | extension-src/background/services/dataStorage.js:83-108 | Clearing twice leaves the store as clearing once. |
| DataStorage.FailedSaveInvisible | extension-src/background/services/dataStorage.js:24-30 | A failed save changes no later read and broadcasts nothing. |
| DataStorage.SaveBroadcastsSaved | extension-src/background/services/dataStorage.js:16-21 | Every broadcast after a save carries exactly the stored envelope. |
| PrintHandler.FirstReadyPoll | extension-src/background/services/printHandler.js:43-73 | The chosen poll is the first of those run before the timeout that sees a complete tab; none is chosen iff no such poll exists. |
| PrintHandler.HandlePrintRoute | extension-src/background/services/printHandler.js:9-72 | The reply is success iff ids are present and non-empty and the window opens. No ids gives "No deliveries to print" and no window is asked for. Otherwise an 800 by 600 popup on the print site is asked for. The script is injected into the tab of the first poll before the timeout that found it loaded, and `INIT_PRINT` with the request goes to that tab; if some poll found a loaded tab and injection succeeds, the script is injected. |
| StorageService.SaveToExtensionStorage | src/services/storageService.js:13-44 | Outside the extension nothing is sent. Inside, a `SAVE_DATA` with a fresh envelope is sent. The result is true iff the reply reports success. |
| StorageService.CachedDeliveries | src/services/storageService.js:60-65 | The buckets are returned iff the reply succeeded and carries data. |
| StorageService.LoadFromExtensionStorage | src/services/storageService.js:49-70 | Outside the extension it yields null without sending. Inside, it sends `GET_CACHED_DATA` and yields the cached buckets. |
| StorageService.ClearExtensionStorage | src/services/storageService.js:75-95 | It sends `CLEAR_DATA` inside the extension and is true iff the reply reports success. |
| StorageService.SaveThenLoad | src/services/storageService.js:13-70 | Saving through the worker and loading back returns the saved buckets. |
| StorageService.ClearThenLoad | src/services/storageService.js:49-95 | Loading after a clear returns null. |
| StorageService.FailedSaveReported | src/services/storageService.js:33-39 | A save the worker fails is reported as false. |
| DeliveryState.InitialState | src/hooks/useDeliveryState.js:9-26 | The dashboard starts with empty buckets and empty selections, on `ky`, with no data source and no pending flag. |
| DeliveryState.AutoSave | src/hooks/useDeliveryState.js:41-58 | With no data yet the effect returns at once and changes nothing, the flag included. Otherwise it saves iff the last change did not come from the extension, and it clears the flag. |
| DeliveryState.SavesAreUserUpdates | src/hooks/useDeliveryState.js:29-75 | Over any sequence of events, the saves are exactly the payloads of the user updates, in order. |
| DeliveryState.SessionSaves | src/hooks/useDeliveryState.js:15-75 | From the initial state, only user updates are ever saved. |
| DeliveryState.FirstUserEditSaved | src/hooks/useDeliveryState.js:61-67 | The first user edit sets the source and is saved. |
| DeliveryState.ExtensionUpdateNotSaved | src/hooks/useDeliveryState.js:70-75 | Data from the extension is shown and marked live but not saved back. |
| DeliveryState.MountLoadNotSaved | src/hooks/useDeliveryState.js:29-38 | Data loaded on mount is shown but not saved back. |
| DeliveryState.FlagIsOneShot | src/hooks/useDeliveryState.js:47-52 | The extension flag skips one save only: a later user edit is saved. |
| DeliveryState.NoSaveWithoutData | src/hooks/useDeliveryState.js:29-45 | With nothing stored, the dashboard stays in its initial state. |
| DeliveryState.MountLoadTwoRenders | src/hooks/useDeliveryState.js:29-58 | The mount load with `setDeliveries` and `setDataSource` rendering separately: the stored data is shown, the source is 'extension' and the flag is clear. Nothing is saved when there was no data or the source already was 'extension'; when the source was 'cached' or 'live', the second effect run finds the flag cleared and saves the stored data. |
| DeliveryState.TwoRenderMountLoadNotSaved | src/hooks/useDeliveryState.js:41-51 | Before any data arrived, the first run's early return keeps the flag, which then skips the second run's save: the two-render load saves nothing and ends as the one-render load does. |
| DeliveryState.Step | src/hooks/useDeliveryState.js:29-75 | A load that found nothing changes nothing. A user update shows and saves its buckets. An extension update or a load shows its buckets, saves nothing and clears the flag. Selection and active tab are not touched. |
| ExtensionSync.SyncEffect | src/hooks/useExtensionSync.js:11-31 | Outside the extension the effect does nothing. Inside, it requests the cache iff it has not already, and it installs the listener. |
| ExtensionSync.CacheRequestedOnce | src/hooks/useExtensionSync.js:9-31 | However often the effect reruns, the cache is requested at most once. |
| ExtensionSync.OnDashboardMessage | src/hooks/useExtensionSync.js:34-62 | `DATA_UPDATED` hands its buckets to the extension setter and replies success. `GET_PRINT_ROUTE` replies with the active tab name. Other messages get no reply. |
| ExtensionSync.RelayPrintRoute | src/hooks/useExtensionSync.js:47-61 | The `GET_PRINT_ROUTE` answer carries no ids, so a print request built from it is refused with "No deliveries to print". |
| DeliveryActions.Delete | src/hooks/useDeliveryActions.js:8-18 | Only the tab changes. It keeps, in order (a subsequence), the records whose id is not listed, each as many times as it occurred, and no record whose id is listed; its selection is cleared. |
| DeliveryActions.DeleteMembers | src/hooks/useDeliveryActions.js:11 | A record survives a delete iff it was there and its id is not listed. |
| DeliveryActions.Move | src/hooks/useDeliveryActions.js:20-33 | The listed records of the source tab are appended to the target tab, and the rest stay behind. The source selection is cleared. |
| DeliveryActions.MovePreservesRecords | src/hooks/useDeliveryActions.js:20-33 | Moving between two tabs neither loses nor duplicates a record. |
| DeliveryActions.MoveOntoItselfDuplicates | src/hooks/useDeliveryActions.js:25-26 | Moving a tab onto itself appends copies of the listed records. |
| DeliveryActions.AddCustom | src/hooks/useDeliveryActions.js:35-40 | The record is appended to the tab and nothing else changes. |
| DeliveryActions.BulkUpdateAddress | src/hooks/useDeliveryActions.js:42-51 | The listed records take the new address, the others are unchanged, and the length is kept. |
| DeliveryActions.UpdateRow | src/hooks/useDeliveryActions.js:53-60 | Records whose id is `===` the given id get the field set, and the others are unchanged. |
| DeliveryActions.ApplySortOrder | src/hooks/useDeliveryActions.js:62-70 | Every record of the tab takes the looked-up sort order, or null when it is missing or 0, and keeps every other field. |
| DeliveryActions.InPlaceEditsKeepIds | src/hooks/useDeliveryActions.js:42-70 | The address, row and sort-order edits keep the tab's ids in order. |
| DeliveryActions.DeleteAfterBulkUpdate | src/hooks/useDeliveryActions.js:8-51 | Deleting the records just re-addressed gives the same result as deleting them directly. |
| DeliveryActions.BulkThenFilter | src/hooks/useDeliveryActions.js:45-49 | Re-addressing touches no unlisted record. |
| DeliveryData.InitialSelection | src/hooks/useDeliveryData.js:9-13 | The selection has the demo data's three keys, each empty. |
| DeliveryData.NextIdUnique | src/hooks/useDeliveryData.js:43-44 | The next id, the largest id plus one or 1 when there are no records, is unique. |
| DeliveryData.MaxOf | src/hooks/useDeliveryData.js:44 | `Math.max` yields a member that no other member exceeds. |
| DeliveryData.HandleAdd | src/hooks/useDeliveryData.js:42-56 | The new id is the next id, and no record already has it. A record with that id is appended to the tab, and other tabs are unchanged. |
| DeliveryData.NextIdOfInitialData | src/constants/initialData.js:4-15 | For the demo data the next id is 6. |
| DeliveryData.InitialData | src/constants/initialData.js:4-15 | The demo data has the keys `orange-county`, `los-angeles` and `other`, holding three, two and no records. Every record has a numeric id and no sort order. |
| Clipboard.FormatRouteForClipboard | src/services/clipboardService.js:14-18 | No deliveries give the empty text. |
| Clipboard.RouteLineShape | src/services/clipboardService.js:16 | A formatted line of a numeric-id delivery is a route line for that id and holds no line break. |
| Clipboard.FormattedLinesValid | src/services/clipboardService.js:14-18 | Every formatted line passes the validator's test. |
| Clipboard.SplitFormatted | src/services/clipboardService.js:14-18 | Splitting the text on line breaks gives back the formatted lines. |
| Clipboard.MatchedFormatted | src/services/clipboardService.js:14-18 | The parser reads back the ids in list order. |
| Clipboard.FormatThenParse | src/services/clipboardService.js:14-18 | Copying a list with distinct numeric ids and parsing the text back ranks each delivery by its position, and nothing else. |
| RouteParser.LineRouteId | src/services/routeParserService.js:10-12 | A line matches `^(\d+):` iff it starts with digits followed by a colon; the id is their decimal value. |
| RouteParser.ParseOptimizedRoute | src/services/routeParserService.js:4-19 | The keys are exactly the ids read from route lines. Each maps to the 1-based number of its last route line. |
| RouteParser.MatchedIdsCount | src/services/routeParserService.js:9-16 | The parser reads as many ids as there are lines passing the validator's test. |
| RouteParser.Positions | src/services/routeParserService.js:6-16 | The orders hold exactly the ids read. Each maps to the 1-based position of its last occurrence. |
| RouteParser.PositionsKeys | src/services/routeParserService.js:13 | The keys are exactly the ids read. |
| RouteParser.PositionsOfDistinct | src/services/routeParserService.js:13-14 | Distinct ids get their own positions. |
| RouteParser.PositionsCountDistinct | src/services/routeParserService.js:13-14 | Distinct ids give as many entries as lines. |
| RouteParser.ParseBounds | src/services/routeParserService.js:4-19 | No more entries than route lines, and every order lies between 1 and that count. |
| RouteParser.ParseNonEmptyIff | src/services/routeParserService.js:4-19 | The result is non-empty iff some line passes the validator's test. |
| RouteParser.RepeatKeepsLast | src/services/routeParserService.js:13 | A repeated id keeps its last position: [a, b, a] gives a↦3 and b↦2. |
| RouteParser.LeadingZerosCollapse | src/services/routeParserService.js:12 | `parseInt` drops leading zeros: "007:" is id 7. |
| RouteParser.CalculateMatchStats | src/services/routeParserService.js:21-30 | The total is the number of keys, at most every delivery matches, and unmatched is total minus matched. |
| RouteParser.UnmatchedNonNegative | src/services/routeParserService.js:21-30 | With distinct ids the unmatched count is never negative. |
| RouteParser.MatchedInjective | src/services/routeParserService.js:23 | Distinct ids match distinct keys. |
| RouteParser.MatchedCountIsOrdered | src/services/routeParserService.js:21-37 | For positions that are all at least 1, the matched count is the number of deliveries that applying the same positions leaves with a sort order. |
| RouteParser.ParsedMatchedCountIsOrdered | src/services/routeParserService.js:4-37 | For a parsed route, the matched count is the number of deliveries the applied route positions. |
| RouteParser.SortFor | src/services/routeParserService.js:35 | The sort order is the position stored under the id's key when that is present and non-zero, and null otherwise. |
| RouteParser.ApplySortOrder | src/services/routeParserService.js:32-37 | Every delivery keeps all its fields except the sort order. |
| RouteParser.AppliedRoutePositions | src/services/routeParserService.js:32-37 | A delivery whose id was read gets its last position, and every other delivery gets null. |
| RouteValidation.ValidateAndApply | src/hooks/useRouteValidation.js:34-50 | The text is applied unchanged iff the result is true. A blank text sets the "paste" error; a text without route lines sets the format error. |
| RouteValidation.BlankHasNoRouteLine | src/hooks/useRouteValidation.js:35-44 | A blank text has no route line, so the two errors never overlap. |
| RouteValidation.ValidIffParsed | src/hooks/useRouteValidation.js:34-50 | Validation accepts the text iff the parser reads at least one entry. |
| RouteValidation.ValidationEffect | src/hooks/useRouteValidation.js:11-32 | A blank text clears error and stats. Stats are shown iff the parser reads an entry, and they are the match statistics. Otherwise the format error is shown. |
| RouteOptimizer.InitialRouteTexts | src/hooks/useRouteOptimizer.js:9-13 | Each of the three tabs starts with an empty text. |
| RouteOptimizer.UpdateRouteText | src/hooks/useRouteOptimizer.js:15-20 | Only the given tab's text changes. |
| RouteOptimizer.ApplyOptimizedRoute | src/hooks/useRouteOptimizer.js:22-25 | Only the given tab changes, and its length is kept. |
| RouteOptimizer.AppliedPositions | src/hooks/useRouteOptimizer.js:22-25 | Each delivery of the tab gets its id's last route position, or null. |
| RouteOptimizer.LastRouteWins | src/hooks/useRouteOptimizer.js:22-25 | Applying two routes in turn equals applying the second. |
| PrintService.CompareIsRankOrder | src/services/printService.js:62-67 | The comparator orders by rank: numeric orders ascending, then null or undefined last. |
| PrintService.InsertionPoint | src/services/printService.js:62-67 | A stable sort inserts a record after everything not greater than it and before the first greater one. |
| PrintService.InsertAt | src/services/printService.js:62 | Insertion splices the record in at that point. |
| PrintService.SortByPermutes | src/services/printService.js:61-68 | The sort returns a permutation of its input. |
| PrintService.SortByMapPermutes | src/services/printService.js:61-68 | Any projection of the sorted list, such as its ids, is a permutation of the same projection of the input. |
| PrintService.PrintSortSorted | src/services/printService.js:61-68 | The print order is sorted by rank: orders ascending, then those without an order. |
| PrintService.PrintSortStable | src/services/printService.js:61-68 | Records of equal rank keep their input order. |
| PrintService.SortDeliveriesForPrint | src/services/printService.js:61-68 | The result is a permutation of the input, sorted by rank, in which records of equal rank keep their input order. |
| PrintService.OpenPrintWindow | src/services/printService.js:11-56 | The result is true iff a `PRINT_ROUTE` with the tab name and ids was sent. That happens iff ids are non-empty, the runtime exists and sending does not throw. Each refusal raises its alert. |
| PrintService.ReplyAlert | src/services/printService.js:33-47 | No alert iff there is no runtime error and the reply reports success. |
| DataGrid.GridCompareIsPrintCompare | src/components/DeliveryDataGrid.js:73-78 | Without undefined sort orders, the table comparator equals the print comparator. |
| DataGrid.UndefinedBreaksComparator | src/components/DeliveryDataGrid.js:73-78 | With an undefined sort order the table comparator is not transitive. |
| DataGrid.TableOrderIsPrintOrder | src/components/DeliveryDataGrid.js:73-78 | Without undefined sort orders, the table shows the rows in print order. |
| DataGrid.GridCompare | src/components/DeliveryDataGrid.js:73-78 | Without undefined sort orders it is the print comparator. A null order sorts after any other. An undefined order makes the comparison 0. |
| DataGrid.SortedRows | src/components/DeliveryDataGrid.js:73-78 | The rows shown are a permutation of the tab's rows. Without undefined sort orders they are in print order. |
| DataGrid.ProcessRowUpdate | src/components/DeliveryDataGrid.js:67-71 | An edited row's customer and address are written to every record with its id, the others are unchanged, and the row is returned. |
| PrintDialog.PrintIds | src/components/PrintDialog.js:23 | The ids sent are those of the chosen deliveries, as a multiset. |
| PrintDialog.PrintChosen | src/components/PrintDialog.js:21-38 | The dialog closes iff the print call succeeds. That happens iff something is chosen, the runtime exists and sending does not throw. The request names the tab and the ids. |
| PrintDialog.PrintAll | src/components/PrintDialog.js:21-28 | Print all closes the dialog iff the tab has deliveries and the call can be made, and then sends the print-ordered ids of all of them. |
| PrintDialog.PrintSelected | src/components/PrintDialog.js:30-38 | Print selected closes the dialog iff some of the tab's deliveries are selected, the runtime exists and sending does not throw. The request then carries the print-ordered ids of the selected deliveries. |
| PrintDialog.ClosesIffSomeSelected | src/components/PrintDialog.js:30-38 | The dialog closes iff some delivery of the tab has a selected id and the call can be made. |
| PrintDialog.PrintsOnlySelected | src/components/PrintDialog.js:30-38 | Every id sent is selected and belongs to a delivery of the tab. |
| PrintDialog.SentIdsInRouteOrder | src/components/PrintDialog.js:21-38 | The ids sent are those of a sorted, stable permutation of the chosen deliveries. |
| PrintDialog.SelectAllIsPrintAll | src/components/PrintDialog.js:21-38 | When every delivery is selected, print selected is print all. |
| PrintDialog.SentRequestHasDeliveries | src/components/PrintDialog.js:21-38 | A sent request always passes the worker's "No deliveries to print" guard. |
| SyntaxHighlight.LineSpans | src/components/SyntaxHighlightedTextField.js:10-17 | A line becomes one plain span, or three spans (id, separator, address) that concatenate back to the line. |
| SyntaxHighlight.ThreeSpansIffMatch | src/components/SyntaxHighlightedTextField.js:11-12 | A line is highlighted in three parts iff it matches `^(\d+)(:\s*)(.*)$`. |
| SyntaxHighlight.HighlightLine | src/components/SyntaxHighlightedTextField.js:10-17 | A line the expression rejects is one grey span of the whole line, or of a space when the line is empty. A matched line is rendered as an id span of the digits, a separator span of the colon and every blank after it, and an address span of the rest, read off the line's groups. The markup of a line without a line break holds none. |
| SyntaxHighlight.GroupsUnique | src/components/SyntaxHighlightedTextField.js:11 | A line splits into the expression's groups in at most one way: the digits end at the colon and the greedy `\s*` takes every blank before the first non-blank. |
| SyntaxHighlight.HighlightMatchedLine | src/components/SyntaxHighlightedTextField.js:11-14 | For any line and any reading of it into the groups, the line's markup is the id, separator and address spans of those groups. |
| SyntaxHighlight.LinesCorrespond | src/components/SyntaxHighlightedTextField.js:5-19 | The markup has one line per input line, each the markup of that line. |
| SyntaxHighlight.HighlightCode | src/components/SyntaxHighlightedTextField.js:5-19 | Empty text comes back unchanged. Otherwise line k of the markup is the markup of line k of the text. |
| SyntaxHighlight.HighlightedIsRouteLine | src/components/SyntaxHighlightedTextField.js:11 | Every highlighted line passes the validator's test. |
| SyntaxHighlight.CarriageReturnParsed | src/services/routeParserService.js:10 | A route line ending in a carriage return is still read by the parser. |
| SyntaxHighlight.CarriageReturnNotHighlighted | src/components/SyntaxHighlightedTextField.js:11-16 | The same line is shown unhighlighted, because `.` does not match a line terminator. |
| PrintContent.OnInitPrint | extension-src/content/print-content.js:9-20 | INIT_PRINT sets the count to the number of ids, keeps the ready set, adds a listener and creates one frame per id, in order, with the id, its index, the element id `invoice-<id>` and the invoice URL of that id. It sets the title to the upper-cased tab name with " - Merge Print" and the status to "Loading 0 of n". Without ids nothing changes. |
| PrintContent.FrameFor | extension-src/content/print-content.js:124-136 | A frame's data id is the delivery id as a string, with its index; its element id and address are built from that string. |
| PrintContent.FrameIdsShared | extension-src/content/print-content.js:127-131 | Two frames share an element id iff their delivery ids print the same. |
| PrintContent.ListenerRun | extension-src/content/print-content.js:189-208 | One listener run adds the id to the ready set. It prints once and shows the "all loaded" status iff the set then has the expected size, and otherwise shows the progress. Nothing else changes. |
| PrintContent.OnInvoiceReady | extension-src/content/print-content.js:189-208 | Without a listener nothing changes. Otherwise the id joins the ready set, and if that makes the set as large as the count, the page prints once per listener. Count, listeners and frames never change. |
| PrintContent.RunListenersEffect | extension-src/content/print-content.js:189-208 | Each registered listener records the id. The page prints on each run that finds the ready set's size equal to the count. |
| PrintContent.ReadyAccumulates | extension-src/content/print-content.js:189-208 | The ready set grows by exactly the signalled ids. |
| PrintContent.PrintsIffComplete | extension-src/content/print-content.js:203-206 | When the count equals the number of possible ids, printing happens iff every id has signalled. |
| PrintContent.PrintsOnceAllFramesSignal | extension-src/content/print-content.js:9-208 | For distinct ids, a fresh page prints iff every frame has signalled. |
| PrintContent.RepeatedIdNeverPrints | extension-src/content/print-content.js:12 | With a repeated id the page never prints. |
| PrintContent.NeverReachesTotal | extension-src/content/print-content.js:203 | When fewer ids can signal than the count, nothing prints. |
| PrintContent.ReinitPrintsOnFirstSignal | extension-src/content/print-content.js:6-20 | A second INIT_PRINT for the same list keeps the old ready set and the old listener, so its first signal prints twice, once per listener. |
| PrintContent.OnInitPrintCounted | extension-src/content/print-content.js:12 | The corrected count is the number of different ids, and nothing else changes. |
| PrintContent.CountedPrintsOnceAllFramesSignal | extension-src/content/print-content.js:9-208 | With the corrected count, the page prints iff every frame has signalled, repeated ids or not. |
| PrintContent.CountedAgreesOnDistinct | extension-src/content/print-content.js:12 | For distinct ids the corrected count equals the original one. |
| Text.DigitsOf | extension-src/content/services/deliveryExtractor.js:22 | `replace(/\D/g, '')` leaves only digits and never lengthens the text. |
| Text.DigitsOfMembers | extension-src/content/services/deliveryExtractor.js:22 | A character survives iff it is a digit of the input. |
| Text.DigitsOfTrim | extension-src/content/services/deliveryExtractor.js:21-22 | Trimming before dropping non-digits changes nothing. |
| Text.Trim | extension-src/content/services/deliveryExtractor.js:21 | `trim` removes exactly a blank prefix and a blank suffix. |
| Text.TrimEmptyIffBlank | src/hooks/useRouteValidation.js:12 | A text trims to empty iff it is blank. |
| Text.Split | src/services/routeParserService.js:5 | No piece holds the separator, and there is always at least one piece. |
| Text.JoinSplit | src/services/routeParserService.js:5 | Joining the pieces with the separator gives back the text. |
| Text.SplitJoin | src/services/clipboardService.js:17 | Splitting a join of separator-free pieces gives back the pieces. |
| Text.ParseDecimalString | src/services/routeParserService.js:12 | `parseInt` of an id's decimal rendering gives back the id. |
| Text.Lower | extension-src/content/services/deliveryExtractor.js:37-38 | No ASCII capital remains. Each ASCII capital becomes its small letter, every other character is unchanged, and the length is kept. |
| Text.LowerIdempotent | extension-src/content/services/deliveryExtractor.js:37-38 | Lower-casing twice is lower-casing once. |
| Values.RouteKey | src/services/routeParserService.js:23 | The route key is the number whose decimal rendering is the id's string form, if there is one. |
| Seqs.PushAll | extension-src/content/services/deliveryExtractor.js:63-93 | An in-order `forEach`/`push` over keyed buckets appends to each bucket exactly the mapped items with its key. |
| Seqs.FilterSubsequence | src/hooks/useDeliveryActions.js:11 | `filter` keeps order and adds nothing. |
| Seqs.ElementsCard | extension-src/content/print-content.js:194 | A set built from a list is no larger than the list, and equal in size iff the list is distinct. |

## Left out

- I/O is taken as input rather than performed:
  - the DOM, `fetch`, `chrome.storage`, `chrome.tabs`, `chrome.scripting` and `chrome.windows` are modelled as parameters that hold their answers;
  - iframe loading and the MutationObserver that fires `invoiceReady` are a given sequence of signals.
- Timers and concurrency:
  - the 100 ms and 500 ms delays, `window.print` and `window.close` become a print counter;
  - interleavings of asynchronous replies are not modelled.
- PrintHandler.FirstReadyPoll models the 10-second timeout as the first `10000 / 100` polls. The real race between the last poll and the timeout is not modelled.
- React rendering and effect scheduling are not modelled. Each effect and callback is a function applied to the state it reads, and effect dependencies are events.
- Text the UI shows but does not decide on is not modelled:
  - the dialog captions and the "printed in sorted order" notice;
  - the page's style sheet;
  - `console` output;
  - the wording of `alert`s beyond which alert is raised.
- Object keys are not fully modelled. A route key is the canonical decimal string of a non-negative integer, so keys such as `"__proto__"` cannot arise. Numbers beyond 2^53 are not rounded. A string id that names an inherited `Object.prototype` member, such as "constructor" or "toString", finds that member through `sortOrders[d.id]` in the code; the model treats the key as absent and gives null. Ids are numeric in practice.
- DeliveryState.Step: a mount load is one render that sets the deliveries and the source together. Whether React batches the two setters in the promise callback depends on the React version and root API, which are not part of this model. DeliveryState.MountLoadTwoRenders models the unbatched reading, where a load that resolves after the source became 'cached' or 'live' saves the stored data back.
- Text.Upper: upper-cases ASCII letters only, where JavaScript's `toUpperCase` maps all of Unicode. It is used for the print page's title from the tab name (print-content.js:24), and the tab names are the ASCII constants "ky", "mcm" and "other".
- Text.Lower: lower-cases ASCII letters only. JavaScript's `toLowerCase` maps all of Unicode and can change the length ("İ" becomes two code units). The denylist entries and the locations compared with are ASCII.
- ContentScript.OnContentMessageAll: every listener answers the worker's one `sendMessage`, and only the first answer arrives; which listener that is, is timing and is not modelled. The k `DATA_EXTRACTED` messages each cause a save and a broadcast, which the model does not compose into one run of the worker. The worker does not count its injections; the number of listeners is the length of the fetch list.
- Records.Delivery: an order id the API leaves out is `undefined` in the record and "" in the model. Only the customer label reads it, and there the code writes "" as well. Order ids are strings in the model, so a falsy non-string order id, such as the number 0, which the label prints as "#", is not modelled.
- SyntaxHighlight.HighlightLine does not escape HTML in the line, which the code does not do either. The markup is not interpreted.
- DeliveryData.HandleAdd, DeliveryActions.Delete, DeliveryActions.Move, DeliveryActions.AddCustom, DeliveryActions.BulkUpdateAddress, DeliveryActions.UpdateRow, DeliveryActions.ApplySortOrder, RouteOptimizer.ApplyOptimizedRoute, DataGrid.ProcessRowUpdate: require the tab to exist. An unknown tab makes `prev[tabId]` undefined and throws; the model does not cover that.
- DeliveryData.HandleAdd: requires numeric ids. `Math.max` over string or null ids is NaN or a coercion, which the model does not cover.
- DeliveryData: its delete, move, add-custom, bulk-address, row-update and sort-order callbacks are line for line those of `useDeliveryActions` and are modelled once, in DeliveryActions.
- PrintContent.OnInitPrint: without `deliveryIds` the listener throws on `.length`. The model leaves the page unchanged and does not model the exception. A `tabName` of the wrong type likewise throws in `toUpperCase`.
- DataGrid.SortedRows: with an undefined sort order the comparator is not consistent, so the order a browser chooses is implementation-defined. Only the consistent case is related to the print order.
- PrintService.InsertBy, PrintService.SortBy: the contracts themselves state only lengths. Ordering, permutation and stability are the lemmas PrintSortSorted, SortByPermutes and PrintSortStable.
- The popup, the build scripts, the bundled `extension/` copies and the dashboard layout components are not part of this model.

## Findings

| source | as written | input that shows it | evidently intended | confidence | as-written member | corrected member |
|---|---|---|---|---|---|---|
| extension-src/content/print-content.js:12 | `totalCount = deliveryIds.length` counts repeated ids, but the ready set holds each id once | `deliveryIds` = [7, 7] (or [7, "7"]); both frames signal "7", the set reaches size 1 of 2 and the page never prints | the count of different ids the frames answer to | not executed | PrintContent.RepeatedIdNeverPrints | PrintContent.CountedPrintsOnceAllFramesSignal |
