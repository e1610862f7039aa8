# dimijs data sources, in Dafny

A model of the data-source layer of the dimijs React toolkit. It covers:

- the shared vocabulary of sources (`source.ts`): status codes, filters, pagination, sorting, list results and events;
- the `EventEmitter` behind every source's `on` and `fire`;
- the in-memory `Static` source: create, read, update, delete, and `list`, which filters through a recursive AND/OR tree, applies each sort entry in turn, slices one page and caches the answer;
- the `Http` source: the request each operation makes, and what it does with the transport's answer;
- `useSource`: the hook that keeps one query's answer and coordinates refreshes that overlap;
- `useLocationSearch`: it parses `location.search`, sets a parameter and builds the link that sets one;
- the paging logic of `Grid` and `Pagination`.

Modules follow the files:

| module | file |
|---|---|
| `Wrappers` | `Option` and `Result` |
| `Text` | the string and number operations JavaScript supplies: `split`, `join`, `indexOf`, string order, `String(n)`, `Number(s)` |
| `Source` | `source.ts`, plus the query key and cache the source base class keeps |
| `Emitter` | `eventEmitter.ts` |
| `StaticQuery` | the filter compiler, the comparator, the sorts and the page slice of `static.ts` |
| `StaticSource` | the `Static` class |
| `HttpSource` | `http.ts` |
| `UseSource` | `useSource.ts` |
| `LocationSearch` | `locationSearch.ts` |
| `PaginationView` | `Pagination.tsx` |
| `GridPaging` | the paging state of `Grid.tsx` |

Mutable objects are classes with those fields:

- the emitter's handler map;
- a static source's record array and cache;
- an http source's endpoint and cache;
- the hook's process map, loaded answer and first-render flag;
- a location's parameters.

Methods that change them are proved against specification functions, for example `StaticSource.Updated`, `StaticQuery.Query`, `UseSource.Start` and `LocationSearch.Assign`. The properties are proved about those functions.

A callback is modelled by its identity. `fire` returns the sequence of calls it makes.

The network is a parameter. Each `Http` operation takes the transport's answer to its request: a status and a decoded body, or a rejection message.

## Model

| member | source | states |
|---|---|---|
| Source.ErrorCode.Code | src/lib/sources/source.ts:1-4 | OK is 0 and ERROR is 1, so only ERROR is truthy |
| Source.Records | src/lib/sources/static.ts:43 | the event payload is the items, one element per item, in order |
| Source.GetSerializationData | src/lib/components/lists/useSource.ts:29-31 | the answer cached under the query's key, or `null` when none is cached |
| Source.SeedCache | src/lib/sources/static.ts:20-29 | a source built from a bundle caches exactly the bundle's answer under the bundle's query; without a bundle the cache is empty |
| Source.SeededLookup | src/lib/components/lists/useSource.ts:29-31 | a freshly seeded source answers exactly the bundle's own query, and `null` for every other query |
| Emitter.Deliveries | src/lib/sources/eventEmitter.ts:17-21 | `fire` makes one call per subscribed callback, in subscription order, each with the event and the arguments |
| Emitter.IndexOf | src/lib/sources/eventEmitter.ts:12 | the first position of the callback, and -1 exactly when it is absent |
| Emitter.RemoveFirstEffect | src/lib/sources/eventEmitter.ts:11-15 | unsubscribing removes exactly one copy of the callback and keeps every other callback and its count; an absent callback leaves the list unchanged |
| Emitter.UnsubscribeOnce | src/lib/sources/eventEmitter.ts:11-15 | a callback registered once is gone after one unsubscribe; a second unsubscribe changes nothing |
| Emitter.Unsubscribed | src/lib/sources/eventEmitter.ts:11-15 | only the subscription's own event list changes |
| Emitter.UnsubscribedEffect | src/lib/sources/eventEmitter.ts:11-15 | per event, the handlers after unsubscribing are the old ones with the first occurrence removed on the subscription's event, and unchanged on every other event |
| Emitter.FireMissesUnsubscribed | src/lib/sources/eventEmitter.ts:11-21 | after its unsubscribe, firing the event never reaches a callback registered once |
| Emitter.Subscribed | src/lib/sources/eventEmitter.ts:5-10 | `on` appends the callback to its event's list, creating the list if needed, and leaves other events alone |
| Emitter.SubscribedAll | src/lib/sources/eventEmitter.ts:5-10 | `on` for each of several events leaves every other event's handlers alone (the full effect: `SubscribedAllEffect`) |
| Emitter.UnsubscribeUndoesOn | src/lib/sources/eventEmitter.ts:5-15 | running the capability that `on` returned restores every event's handlers, when the callback was not already registered for that event |
| Emitter.SubscribedAllEffect | src/lib/sources/eventEmitter.ts:5-10 | subscribing one callback to distinct events adds it once at the end of each of those events' lists and nowhere else |
| Emitter.UnsubscribedAllEffect | src/lib/sources/eventEmitter.ts:11-15 | running the capabilities of those subscriptions removes the callback's first occurrence from each of those events only |
| Emitter.UnsubscribedAll | src/lib/sources/eventEmitter.ts:11-15 | running several capabilities creates no handler list and leaves alone every event none of them names |
| Emitter.SubscribeThenUnsubscribeAll | src/lib/sources/eventEmitter.ts:5-15 | for distinct events, and a callback not yet registered for any of them, subscribing and then running every capability restores the handler map. An earlier registration is not restored: its first copy is the one removed |
| Emitter.EventEmitter.constructor | src/lib/sources/eventEmitter.ts:4 | an emitter starts without handlers |
| Emitter.EventEmitter.On | src/lib/sources/eventEmitter.ts:5-16 | the handler map becomes `Subscribed`, and the returned capability names the event and the callback |
| Emitter.EventEmitter.Unsubscribe | src/lib/sources/eventEmitter.ts:11-15 | the handler map becomes `Unsubscribed` |
| Emitter.EventEmitter.Fire | src/lib/sources/eventEmitter.ts:17-21 | the calls made are the event's deliveries, and nothing changes |
| Text.Split | src/lib/utils/locationSearch.ts:11 | `split` gives at least one piece, and no piece holds the separator |
| Text.JoinSplit | src/lib/utils/locationSearch.ts:11 | joining the pieces of a split gives back the text |
| Text.SplitJoin | src/lib/utils/locationSearch.ts:24-28 | splitting a join of separator-free pieces gives back the pieces |
| Text.SplitAfterRun | src/lib/utils/locationSearch.ts:13 | a separator-free prefix is glued onto the first piece of what follows |
| Text.IndexOf | src/lib/sources/static.ts:131 | `indexOf`: the first position where the pattern occurs, and -1 exactly when it occurs nowhere |
| Text.StrLessIrreflexive | src/lib/sources/static.ts:163-169 | the string order is irreflexive |
| Text.StrLessTrichotomy | src/lib/sources/static.ts:163-169 | for any two strings, exactly one of less, equal or greater holds |
| Text.StrLessTransitive | src/lib/sources/static.ts:163-169 | the string order is transitive |
| Text.StrCompare | src/lib/sources/static.ts:163-169 | the comparison is -1, 0 or 1; it is 0 exactly for equal strings and negative exactly for a smaller one |
| Text.StrCompareAntisymmetric | src/lib/sources/static.ts:163-169 | swapping the strings negates the comparison |
| Text.StrCompareTransitive | src/lib/sources/static.ts:163-169 | not-greater is transitive |
| Text.NatToString | src/lib/components/lists/Pagination.tsx:26 | the decimal text of a natural number is non-empty digits whose value is the number |
| Text.ParseNumber | src/lib/components/lists/Grid.tsx:30-34 | `Number` of a digit string is its value (the empty text is 0); a `-` or `+` followed by digits is the negated or plain value; anything else is NaN, in both directions; an unsigned number is never negative |
| Text.IntToStringRoundTrip | src/lib/components/lists/Pagination.tsx:41 | `Number(String(n))` is `n` for every integer |
| StaticQuery.LikeIsSubstring | src/lib/sources/static.ts:129-133 | LIKE holds exactly when the field is a string containing the text of the value |
| StaticQuery.Holds | src/lib/sources/static.ts:117-137 | a missing operator is equality; GTE and LTE are the strict order or equality; an order operator never holds between values of different types |
| StaticQuery.EvalNode | src/lib/sources/static.ts:108-146 | an AND node holds exactly when every child holds, an OR node exactly when some child does; an empty AND holds and an empty OR does not |
| StaticQuery.Matches | src/lib/sources/static.ts:147-149 | a record passes the top-level filter exactly when every node holds of it |
| StaticQuery.EvalList | src/lib/sources/static.ts:108-146 | AND holds exactly when every child holds; OR holds exactly when some child holds |
| StaticQuery.Select | src/lib/sources/static.ts:147-149 | the filtered records are exactly the stored records that pass the top-level AND, each kept as many times as it is stored |
| StaticQuery.SelectAppend | src/lib/sources/static.ts:147-149 | `filter` keeps the order: filtering a concatenation gives the filtered parts, concatenated |
| StaticQuery.SelectOne | src/lib/sources/static.ts:147-149 | a single record is kept exactly when it passes the filter |
| StaticQuery.SelectEmptyFilter | src/lib/sources/static.ts:147-149 | an empty filter keeps every record, in order |
| StaticQuery.Compare | src/lib/sources/static.ts:153-169 | the comparison is -1, 0 or 1: numbers by value, a number against anything else 0, other values by their text in character order |
| StaticQuery.EntryCompare | src/lib/sources/static.ts:152-170 | equal field values compare 0, and DESC is the ascending comparison negated |
| StaticQuery.EntryCompareAntisymmetric | src/lib/sources/static.ts:152-170 | swapping two records negates the comparator, in either direction |
| StaticQuery.EntryCompareTransitive | src/lib/sources/static.ts:152-170 | the comparator is transitive over numbers and over strings |
| StaticQuery.Insert | src/lib/sources/static.ts:150-172 | inserting makes the sequence one longer, and its head is the new record or the old head |
| StaticQuery.InsertPermutes | src/lib/sources/static.ts:150-172 | inserting adds exactly the one record |
| StaticQuery.SortBy | src/lib/sources/static.ts:150-172 | one `sort` call permutes the records |
| StaticQuery.InsertSorted | src/lib/sources/static.ts:150-172 | inserting into a sorted sequence keeps it sorted |
| StaticQuery.SortBySorted | src/lib/sources/static.ts:150-172 | after one `sort` call, adjacent records are in comparator order |
| StaticQuery.SortByIdempotent | src/lib/sources/static.ts:150-172 | sorting a sequence that is already in order changes nothing |
| StaticQuery.InsertAtEnd | src/lib/sources/static.ts:150-172 | a record not smaller than any other goes last |
| StaticQuery.SortedPairwise | src/lib/sources/static.ts:150-172 | over one field type, adjacent order implies order between every pair |
| StaticQuery.SortedSpan | src/lib/sources/static.ts:150-172 | over one field type, any earlier record is not greater than a later one |
| StaticQuery.InsertStable | src/lib/sources/static.ts:150-172 | inserting a record that is last by the minor key keeps the sequence ordered by major key, then minor key |
| StaticQuery.SortByStable | src/lib/sources/static.ts:150-172 | the sort is stable: records equal by the new key keep the order of the previous sort |
| StaticQuery.ApplySorts | src/lib/sources/static.ts:150-172 | sorting once per entry permutes the filtered records |
| StaticQuery.LastSortDominates | src/lib/sources/static.ts:150-172 | the result is ordered by the last sort entry |
| StaticQuery.PreviousSortBreaksTies | src/lib/sources/static.ts:150-172 | records equal by the last entry are ordered by the entry before it |
| StaticQuery.SliceIndex | src/lib/sources/static.ts:174-177 | `slice` clamps an index into the sequence and keeps an in-range index |
| StaticQuery.Slice | src/lib/sources/static.ts:174-177 | `slice` takes only stored records, never more than there are, and an in-range window exactly |
| StaticQuery.PageOf | src/lib/sources/static.ts:173-183 | a page holds only stored records, at most the page size of them, and always carries `hasNextPage` |
| StaticQuery.PageWindow | src/lib/sources/static.ts:173-183 | page `p` holds records `p*n` to `p*n+n` of the sorted records, and `hasNextPage` says records exist beyond them |
| StaticQuery.HasNextPageIffNextPageNonEmpty | src/lib/sources/static.ts:182 | for a page of at least 0 and a count above 0, `hasNextPage` holds exactly when the next page is not empty; a URL-bound negative count reaches `list` and is not covered |
| StaticQuery.PagesPartition | src/lib/sources/static.ts:173-177 | the first `k` pages, concatenated, are exactly the first `k*n` records |
| StaticQuery.AllPages | src/lib/sources/static.ts:173-177 | enough pages list every record once, in order |
| StaticQuery.QueryRecordsMatch | src/lib/sources/static.ts:147-177 | every listed record is a stored record that passes the filter |
| StaticQuery.QueryFirstPageComplete | src/lib/sources/static.ts:147-183 | a first page at least as large as the collection lists every matching record, as many times as it is stored and nothing else, and reports no next page |
| StaticQuery.Query | src/lib/sources/static.ts:99-189 | the answer always carries `hasNextPage` and never holds more than the page size; what it holds: `QueryRecordsMatch`, `QueryFirstPageComplete`, `PageWindow` |
| StaticQuery.FindIndex | src/lib/sources/static.ts:61-63 | `findIndex`: the first record with the key, and -1 exactly when there is none |
| StaticSource.Lookup | src/lib/sources/static.ts:50-55 | `read` finds nothing exactly when no record has the key; otherwise it finds the first record that has it |
| StaticSource.Merge | src/lib/sources/static.ts:70-73 | the merged record has both records' fields, and the patch's value wins |
| StaticSource.Updated | src/lib/sources/static.ts:56-79 | `update` fails exactly when no record has the patch's key; otherwise it merges the first match and leaves every other record alone |
| StaticSource.Deleted | src/lib/sources/static.ts:80-98 | `delete` fails exactly when no record has the key; otherwise it removes the first match, keeping the rest in order (a permutation minus one record) |
| StaticSource.FirstMatchUnique | src/lib/sources/static.ts:61-63 | the first match is unique |
| StaticSource.ReadAfterCreate | src/lib/sources/static.ts:39-55 | after `create`, a key already stored reads its old record; any other key reads the first new record that has it |
| StaticSource.ReadAfterUpdate | src/lib/sources/static.ts:50-79 | after a successful `update`, reading the key gives the merged record |
| StaticSource.ReadAfterDeleteUnique | src/lib/sources/static.ts:50-98 | after deleting a unique key, reading it finds nothing |
| StaticSource.SeedRecords | src/lib/sources/static.ts:30-37 | the records start as the bundle's list data, and as none otherwise |
| StaticSource.Static.constructor | src/lib/sources/static.ts:20-38 | the records, the cache and an empty emitter, as the bundle gives them |
| StaticSource.Static.Create | src/lib/sources/static.ts:39-49 | appends the items, fires onCreate with them, answers OK |
| StaticSource.Static.Read | src/lib/sources/static.ts:50-55 | answers `Lookup` and changes nothing |
| StaticSource.Static.Update | src/lib/sources/static.ts:56-79 | the records become `Updated`; on success it fires onUpdate with `[merged]` and answers OK; otherwise "Not found by <key>" and no event |
| StaticSource.Static.Delete | src/lib/sources/static.ts:80-98 | the records become `Deleted`; on success it fires onDelete with `[removed]` and answers OK; otherwise "Not found by <key>" and no event |
| StaticSource.Static.List | src/lib/sources/static.ts:99-189 | answers `Query` over the records, leaves them unchanged, and caches the answer under the query's key |
| HttpSource.DeleteRequest | src/lib/sources/http.ts:75-79 | the delete body has exactly one field, the key field, holding the id |
| HttpSource.RequestShapes | src/lib/sources/http.ts:16-19 | create, update and delete are POSTs; read and list are GETs; each goes to `<endpoint>/<operation>` |
| HttpSource.CreateRequest | src/lib/sources/http.ts:23-26 | no contract of its own: `RequestShapes` states its verb and URL |
| HttpSource.ReadRequest | src/lib/sources/http.ts:40-47 | no contract of its own: `RequestShapes` states its verb and URL |
| HttpSource.UpdateRequest | src/lib/sources/http.ts:59-62 | no contract of its own: `RequestShapes` states its verb and URL |
| HttpSource.ListRequest | src/lib/sources/http.ts:103-110 | no contract of its own: `RequestShapes` states its verb and URL |
| HttpSource.Decoded | src/lib/sources/http.ts:27-30 | only a 200 answer with a decodable body yields a body; another status rejects with its status text |
| HttpSource.CreateOutcome | src/lib/sources/http.ts:20-38 | fires exactly when it answers OK, which is exactly when the answer decoded; the event carries the server's body; a failure answers ERROR with the message |
| HttpSource.UpdateOutcome | src/lib/sources/http.ts:56-74 | as for create, with the event carrying `[server body]` |
| HttpSource.DeleteOutcome | src/lib/sources/http.ts:75-93 | fires `[body]` exactly when a decoded body is neither `null` nor carries a truthy `errorCode`; an embedded error is answered as it is; `null` ends as the TypeError's message |
| HttpSource.ReadOutcome | src/lib/sources/http.ts:39-55 | the decoded body unchanged (`null` included), or ERROR with the failure's message |
| HttpSource.FailuresAreStatuses | src/lib/sources/http.ts:35-37 | every transport failure ends as an ERROR status with its message: none escapes and none fires |
| HttpSource.EmbeddedErrorPassesThrough | src/lib/sources/http.ts:84-89 | a 200 answer carrying an ERROR status is handed back from `delete` and fires nothing |
| HttpSource.Fired | src/lib/sources/http.ts:31-34 | an outcome that fires delivers its argument to the event's callbacks; one that does not makes no call |
| HttpSource.Http.constructor | src/lib/sources/http.ts:19 | the endpoint starts as `/crud`, and the cache is seeded from the bundle |
| HttpSource.Http.Create | src/lib/sources/http.ts:20-38 | posts the items to `/create`, answers and fires as `CreateOutcome` says |
| HttpSource.Http.Read | src/lib/sources/http.ts:39-55 | gets `/read` with the key, answers `ReadOutcome`, fires nothing |
| HttpSource.Http.Update | src/lib/sources/http.ts:56-74 | posts the patch to `/update`, answers and fires as `UpdateOutcome` says |
| HttpSource.Http.Delete | src/lib/sources/http.ts:75-93 | posts `{key: id}` to `/delete`, answers and fires as `DeleteOutcome` says |
| HttpSource.Http.List | src/lib/sources/http.ts:94-122 | a decoded answer is returned and cached under the query's key; a failure answers ERROR and leaves the cache alone |
| UseSource.ListOf | src/lib/components/lists/useSource.ts:32 | `list` is the loaded records, or empty |
| UseSource.MetaOf | src/lib/components/lists/useSource.ts:33 | `meta` is the loaded meta, or `{}` |
| UseSource.ErrorOf | src/lib/components/lists/useSource.ts:35-39 | `error` is the loaded answer exactly when that answer carries a truthy `errorCode`, and `{errorCode: OK}` otherwise |
| UseSource.DerivedStateConsistent | src/lib/components/lists/useSource.ts:32-39 | an answer with data shows no error; without data the list is empty and the meta is `{}` |
| UseSource.InitialRefreshFromBundle | src/lib/components/lists/useSource.ts:71-73 | over a seeded source, a view of the bundle's query starts without a refresh exactly when the bundle holds a list or an error |
| UseSource.ClearActual | src/lib/components/lists/useSource.ts:50-52 | every tracked key loses `actual` and keeps `active` |
| UseSource.Start | src/lib/components/lists/useSource.ts:46-54 | (corrected, see Findings) the refreshed key becomes active and the only actual key; the list call is made exactly when the key was not already loading |
| UseSource.StartAsWritten | src/lib/components/lists/useSource.ts:46-54 | as written: the list call is made exactly when the key is not already loading; then the key is the only actual one; otherwise nothing changes |
| UseSource.StartAgreesWithWritten | src/lib/components/lists/useSource.ts:48-53 | the corrected start and the start as written agree whenever two conditions hold: the refreshed key is not loading while no longer actual, and no other key is actual |
| UseSource.Complete | src/lib/components/lists/useSource.ts:55-56 | an answer marks its key inactive and replaces the loaded value exactly when the key is still actual |
| UseSource.StepWith | src/lib/components/lists/useSource.ts:46-83 | a refresh tracks its key; only an answer can change what is shown, and only when its key is actual; unmounting leaves no key actual |
| UseSource.Run | src/lib/components/lists/useSource.ts:46-83 | a tracked key stays tracked, and without answers what is shown never changes |
| UseSource.OnlyLatestIsActual | src/lib/components/lists/useSource.ts:46-58 | (corrected) only the query most recently asked for can be actual |
| UseSource.OnlyLatestAnswerShown | src/lib/components/lists/useSource.ts:46-58 | (corrected) an answer changes what is shown only if its query is the latest, and then it shows that answer |
| UseSource.NothingShownAfterUnmount | src/lib/components/lists/useSource.ts:77-83 | after unmount, any number of arriving answers, for any keys, leave what is shown unchanged, and no key becomes actual again (as written and corrected) |
| UseSource.RefreshDeduplicated | src/lib/components/lists/useSource.ts:48-49 | a refresh for a key already loading makes no second list call |
| UseSource.StaleAnswerShownAsWritten | src/lib/components/lists/useSource.ts:47-49 | as written, after refreshes for k1, k2, k1, the answer for k2 is shown although k1 is the latest query; corrected, it is not |
| UseSource.Coordinator.constructor | src/lib/components/lists/useSource.ts:29-45 | starts with the cached answer, no process, first render pending |
| UseSource.Coordinator.ClearActualFlags | src/lib/components/lists/useSource.ts:50-52 | the process map becomes `ClearActual` of the old one, and nothing else changes |
| UseSource.Coordinator.Refresh | src/lib/components/lists/useSource.ts:46-54 | (corrected, see Findings) the process map and the list-call decision are `Start`; the class's effects refresh through this method |
| UseSource.Coordinator.RefreshAsWritten | src/lib/components/lists/useSource.ts:46-54 | as written: the process map and the list-call decision are `StartAsWritten`, so a key that is still loading leaves every flag as it was |
| UseSource.Coordinator.Resolve | src/lib/components/lists/useSource.ts:55-56 | the process map and the loaded value become `Complete` |
| UseSource.Coordinator.Subscribe | src/lib/components/lists/useSource.ts:59-66 | subscribes the refresh to the four watched events and keeps their capabilities; on the first render nothing refreshes, otherwise it refreshes as written (`StartAsWritten`, as the source calls `upList`) or corrected (`Start`), as `asWritten` selects |
| UseSource.WatchedInOrder | src/lib/components/lists/useSource.ts:61-64 | subscribing to the watched events is the four `on` calls in source order |
| UseSource.WatchedSubscriptions | src/lib/components/lists/useSource.ts:60-65 | the kept capabilities are those of the four `on` calls, in order |
| UseSource.Coordinator.Unsubscribe | src/lib/components/lists/useSource.ts:67-69 | runs every kept capability, in order |
| UseSource.Coordinator.FirstRender | src/lib/components/lists/useSource.ts:71-76 | refreshes once, on the first render, and only when neither data nor an error is loaded |
| UseSource.Coordinator.Teardown | src/lib/components/lists/useSource.ts:77-83 | unmounting clears every `actual` flag |
| UseSource.SubscriptionsUndone | src/lib/components/lists/useSource.ts:59-70 | for a callback not yet registered for any watched event, the effect's cleanup restores the emitter's handlers |
| LocationSearch.Names | src/lib/utils/locationSearch.ts:24 | the parameter names, in insertion order |
| LocationSearch.Lookup | src/lib/utils/locationSearch.ts:18-19 | `params[name]` is absent exactly when the name is not a parameter; otherwise it is that parameter's value |
| LocationSearch.Put | src/lib/utils/locationSearch.ts:15 | assigning a property keeps the order of the names, and a new name goes last |
| LocationSearch.PutLookup | src/lib/utils/locationSearch.ts:15 | after assigning, the name reads the new value and every other name reads what it did |
| LocationSearch.PutKeepsNamesUnique | src/lib/utils/locationSearch.ts:10-16 | parameter names stay unique |
| LocationSearch.PutFresh | src/lib/utils/locationSearch.ts:15 | a new name is appended at the end |
| LocationSearch.Remove | src/lib/utils/locationSearch.ts:21 | `delete` removes the name, keeps what every other name reads, and keeps only pairs that were there |
| LocationSearch.RemoveAppend | src/lib/utils/locationSearch.ts:21 | removing from a concatenation removes from each part and keeps their order, so the remaining pairs stay in insertion order |
| LocationSearch.RemoveOne | src/lib/utils/locationSearch.ts:21 | one pair is dropped exactly when it carries the name, and kept otherwise |
| LocationSearch.RemoveKeepsNamesUnique | src/lib/utils/locationSearch.ts:21 | removing a name keeps the remaining names unique |
| LocationSearch.RemoveAbsent | src/lib/utils/locationSearch.ts:21 | deleting a name that is not a parameter changes nothing |
| LocationSearch.Assign | src/lib/utils/locationSearch.ts:20-22 | setting `undefined` removes the name; any other value is what the name then reads, and keeps the order of the names, a new name going last; every other name is unchanged (order under removal: `RemoveAppend`) |
| LocationSearch.Pieces | src/lib/utils/locationSearch.ts:24-28 | one `name=value` piece per parameter, in order, with `undefined` rendered as the word |
| LocationSearch.Render | src/lib/utils/locationSearch.ts:24-28 | no contract of its own: `ParseRender` states that parsing gives the parameters back |
| LocationSearch.Link | src/lib/utils/locationSearch.ts:35-39 | the link starts with the pathname, and `?` and the rendered pieces follow it |
| LocationSearch.Entry | src/lib/utils/locationSearch.ts:12-16 | one piece keeps names unique and non-empty (its effect: `EntryOfPiece`, `EntryWithoutValue`) |
| LocationSearch.Entries | src/lib/utils/locationSearch.ts:12-16 | the pieces, applied in order, keep names unique and non-empty |
| LocationSearch.Parse | src/lib/utils/locationSearch.ts:9-17 | the parsed parameters have unique, non-empty names (round trip: `ParseRender`) |
| LocationSearch.EntryOfPiece | src/lib/utils/locationSearch.ts:13-15 | a piece `name=value` sets that parameter, and text after a second `=` is dropped |
| LocationSearch.EntryWithoutValue | src/lib/utils/locationSearch.ts:13-15 | a piece without `=` sets a parameter without a value; an empty piece is skipped |
| LocationSearch.ParseEmpty | src/lib/utils/locationSearch.ts:11 | an empty search, or a bare `?`, has no parameters |
| LocationSearch.EntriesOfPieces | src/lib/utils/locationSearch.ts:11-16 | when the parameters are link-safe: unique, non-empty names, and every value present, with no `&` or `=` in any name or value, parsing the rendered pieces gives them back |
| LocationSearch.ParseRender | src/lib/utils/locationSearch.ts:11-28 | when the parameters are link-safe: unique, non-empty names, and every value present, with no `&` or `=` in any name or value, parsing the rendered search gives back the parameters. Without that it fails: a value `a&b` comes back as `a` plus a parameter `b` without a value, and a parameter without a value comes back with the value "undefined" |
| LocationSearch.Location.constructor | src/lib/utils/locationSearch.ts:9-17 | the parameters are those parsed from the search text |
| LocationSearch.Location.Set | src/lib/utils/locationSearch.ts:20-30 | the parameters become `Assign`, and the navigation target is the link to them |
| LocationSearch.Location.GetLinkWithParam | src/lib/utils/locationSearch.ts:31-40 | the link to a copy with the parameter assigned; the parameters themselves are unchanged |
| LocationSearch.FollowLink | src/lib/utils/locationSearch.ts:31-40 | for a pathname without `?`, when the assigned parameters are link-safe: unique, non-empty names, and every value present, with no `&` or `=` in any name or value, following the link and parsing its search gives exactly the assigned parameters |
| PaginationView.PageLink | src/lib/components/lists/Pagination.tsx:24-28 | a control has a link exactly when a page parameter name is given, and the link sets that parameter to the target |
| PaginationView.Previous | src/lib/components/lists/Pagination.tsx:19-32 | the previous control is shown exactly when the page is past 0, and targets the page before |
| PaginationView.Next | src/lib/components/lists/Pagination.tsx:34-47 | the next control is shown exactly when a next page exists, and targets the page after |
| PaginationView.Click | src/lib/components/lists/Pagination.tsx:29-31 | a click reports its target exactly when a handler is given |
| PaginationView.ControlsAdjacent | src/lib/components/lists/Pagination.tsx:19-47 | the two controls target the pages on either side of the current one, never below 0 |
| GridPaging.UrlNumber | src/lib/components/lists/Grid.tsx:30-34 | a bound parameter is read as `Number` of its text; a missing name, a missing parameter or a parameter without a value is NaN |
| GridPaging.InitialState | src/lib/components/lists/Grid.tsx:35-38 | the page is a truthy URL page, else a truthy default page, else 0; the count is a truthy URL count, else the default count |
| GridPaging.UrlChange | src/lib/components/lists/Grid.tsx:50-62 | the URL effect never moves the page or the count below 0: each keeps its value or takes a non-negative one (every case: `UrlChangeKeeps`, `UrlChangeTakes`) |
| GridPaging.UrlChangeIdempotent | src/lib/components/lists/Grid.tsx:50-62 | applying the same URL twice changes nothing more |
| GridPaging.UrlChangeKeeps | src/lib/components/lists/Grid.tsx:50-62 | the old value stays in four cases: an unbound page or count; a bound page whose URL number is NaN or negative; a bound count whose truthy URL number is negative; and a bound count with no truthy URL number and a negative default |
| GridPaging.UrlChangeTakes | src/lib/components/lists/Grid.tsx:50-62 | a bound page takes any non-negative URL number; a bound count takes a truthy URL number above -1, and otherwise falls back to a non-negative default |
| GridPaging.UrlPageZeroOnMount | src/lib/components/lists/Grid.tsx:30-62 | a bound URL page of 0 is falsy, so the grid starts on the default page; the URL effect then moves it to page 0 |
| GridPaging.ChangePage | src/lib/components/lists/Grid.tsx:92-100 | `onChangePage` moves an unbound grid to the page and keeps the count; a bound grid ignores it |
| GridPaging.FollowPageLink | src/lib/components/lists/Grid.tsx:30-62 | in a bound grid, with a pathname without `?` and link-safe assigned parameters, following a link that sets the page parameter to a non-negative target moves the grid to that page |
| GridPaging.PaginationProps | src/lib/components/lists/Grid.tsx:87-91 | the controls get the grid's page and count; a missing `hasNextPage` is read as false |
| GridPaging.NextLinkAdvances | src/lib/components/lists/Pagination.tsx:39-43 | in a bound grid on a page of at least -1, with a pathname without `?` and link-safe assigned parameters, following the next control's link moves the grid to the next page. From page -3 (a URL `page=-3` is truthy) the link sets -2, which the URL effect ignores, so the grid does not move |
| GridPaging.PreviousLinkGoesBack | src/lib/components/lists/Pagination.tsx:24-28 | in a bound grid, with a pathname without `?` and link-safe assigned parameters, following the previous control's link moves the grid to the previous page |
| GridPaging.UnboundClicksMove | src/lib/components/lists/Grid.tsx:92-100 | in an unbound grid, the controls have no link, and a click moves the page by one and keeps the count |
| GridPaging.ControlsFollowTheData | src/lib/components/lists/Grid.tsx:90 | for a page of at least 0 and a count above 0, over a static source, the next control is shown exactly when the following page of the same query has records; the previous one exactly when the page is past 0 |

## Left out

- Promises, `setTimeout` and the `delay` field of `Static` are not modelled. Each operation takes effect as one step. The hook's list call sits between `Refresh` and `Resolve`; the caller makes it.
- `fetch`, `response.json()` and the network are replaced by a `Transport` parameter. JSON and URI encoding of request bodies and query strings are not modelled; a request carries a structured payload.
- `JSON.stringify({filter, pagination, sorting})` is not modelled. The cache and process key is a structured `QueryKey`. It is injective, as the serialization is for these plain values. An `undefined` member is a missing member, so a missing filter and `[]` are different keys.
- `localeCompare` is replaced by character order, because locale collation is not available.
- Strings are sequences of Unicode scalar values, not of UTF-16 code units. So JavaScript's `<`, and therefore the `LT`/`GT`/`LTE`/`GTE` filters and the string sort comparator, can order strings holding characters above U+FFFF differently from `Text.StrLess`. For example, JavaScript puts "😀" below "\uFFFF"; the model puts it above. The UTF-16 encoding is not modelled.
- Arithmetic of a number against a string in a comparison or in the comparator is not modelled. A mixed pair is unordered: `<` is false and the comparator gives 0. Comparisons involving `undefined` are false. Under this model, sorting an `undefined` string field does not throw.
- `Array.prototype.sort` is modelled as a stable insertion sort. The engine's algorithm on an inconsistent comparator (mixed field types) is not modelled. The sort is done on the filtered copy, as in the source, but as a function on sequences rather than in place.
- `Number()` is modelled for an optional sign followed by decimal digits, and for the empty text (0). Whitespace, fractions, exponents and hexadecimal text are read as NaN, and numbers are integers.
- Object key order follows insertion order. JavaScript lists integer-like keys first, which is not modelled. Parameters are a list of pairs, not a plain object. So a piece named `__proto__` (as in `?__proto__=5`) is recorded as a parameter, although assigning a string to `__proto__` creates no key in JavaScript.
- Record field values are numbers, strings or `undefined`. Nested objects, booleans and `null` fields are not modelled.
- Emitter: a handler that throws, or that subscribes or unsubscribes while `fire` is iterating, is not modelled.
- React machinery is reduced to the explicit steps it performs: state, effects, memoisation and re-rendering. Routing is reduced to parsing the new `search`.
- `GridBaseRow`, `BaseView`, the rest of the markup and the custom query parameters are not part of this model.
- The `Source` base class that `static.ts` and `http.ts` extend is not part of this model. Its cache, its seeding from the bundle and `getSerializationData` are modelled from their uses in `static.ts`, `http.ts` and `useSource.ts`.
- HttpSource.DeleteOutcome: the TypeError message for a `null` body is the V8 text. Other engines word it differently.
- The `Static` tests pass a bare array where the constructor expects a bundle. The code then seeds nothing, and the model follows the code.
- StaticSource.ReadAfterDeleteUnique: when the key occurs more than once, only the first record is removed. The lemma is stated for a unique key only.
- StaticQuery.EntryCompareTransitive: transitivity is stated for a field that is a number in all three records or in none.

## Findings

| source | as written | input that shows it | evidently intended | confidence | as-written member | corrected member |
|---|---|---|---|---|---|---|
| src/lib/components/lists/useSource.ts:47-49 | a refresh for a key that is still loading returns at once, so it does not make that key actual again | refreshes for query k1, then k2, then k1 before k1 answers: the third is dropped and k2 stays actual, so k2's answer is shown while k1 is the query on screen | the latest query becomes the only actual one even when its list call is already pending | not executed | UseSource.StaleAnswerShownAsWritten | UseSource.OnlyLatestAnswerShown |
