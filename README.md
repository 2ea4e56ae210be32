# SNS chat mock-up: message pipeline, stores and helpers in Dafny

This project models the logic of a browser application that builds mock-ups of
chat screens. It covers:

- the message-list pipeline: filter, sort, paginate and statistics;
- the search over a room's messages, with its cyclic cursor;
- the zustand stores (rooms and messages, filter, pagination, templates,
  theme, design, dark mode), modelled as classes whose methods replace fields;
- the small algorithms inside components: the pager's page-number list, the
  statistics panel's derived figures, the template picker's grouping and form
  guard, and the key-down handler of the shortcut hook.

Conventions the whole model shares:

- An instant is an integer number of milliseconds since the epoch (`Date.getTime()`).
- Local wall-clock time is UTC plus a fixed offset parameter `offset`.
  `setHours`/`getHours` work in local time (`Time.DayStart`, `Time.DayEnd`,
  `Time.HourOf`). `toISOString` works in UTC (`Time.UtcDay`). The model keeps
  this difference: the per-day statistic is keyed by the UTC day, while the
  date filter and the per-hour statistic use local time.
- `crypto.randomUUID()` and `new Date()` are parameters (`freshId`, `now`).
  `createRoom` reads the clock twice, so it takes two instants (`created`, `updated`).
  The three built-in templates each read the clock once; the model gives them one
  shared instant (`TemplateStore.DefaultTemplates(now)`), so it does not capture
  createdAt values that differ by a tick.
  So is the answer of the `prefers-color-scheme: dark` media query (`systemPrefersDark`).
- Strings are sequences of characters. `trim` strips exactly the ECMAScript
  white-space and line-terminator code points (`Strings.IsWhitespace`).
- `Array.prototype.filter` is `Sequences.Select`, `find` is `Sequences.FindFirst`,
  and the `forEach` counting loops build `Sequences.Histogram`.
- JavaScript's `%` is `SearchStore.JsRem`: it truncates, so the remainder has the sign of the dividend.
- Sorting is a stable in-place insertion sort on an array copy. ECMA-262
  (2019 edition onwards, section 23.1.3.30 in the 2023 edition) requires
  `Array.prototype.sort` to be stable; the method is proved equal to the
  functional `SortMessages.InsertionSort`, and permutation, order and stability
  are proved of that function.

Where the description of the system and the code differ, the model follows the code:

- The per-day statistic uses the UTC day of `toISOString`, not a local day.
- The search matches the untrimmed query. Only the blank test trims it.
- `setCurrentHighlightIndex` and `setCurrentPage` store their argument unchecked.
- The pager's page list, shown range and ellipses are computed from the store's
  unvalidated `currentPage`, not from the clamped page of `paginateMessages`.
- The template picker groups into a plain `{}`. A category named after an
  `Object.prototype` property (`toString`, `constructor`, `__proto__`, …) finds
  a truthy value there, so no array is created and `push` throws; the model's
  `GroupTemplates` reports this as `threw`.

## Model

| member | source | states |
|---|---|---|
| Types.Ids | src/components/molecules/MessageSearch.tsx:31-33 | the id list has one entry per message, in order, each the message's id |
| FilterMessages.FilterMessages | src/utils/filterMessages.ts:9-51 | 'all' returns the input itself; every result is a subsequence of the input; each message occurs in the result exactly as often as in the input when the criterion keeps it, and not at all otherwise |
| FilterMessages.FilterIsSelect | src/utils/filterMessages.ts:13-48 | each criterion is exactly `filter` with its keep-test: `isSender` for sent, `!isSender` for received, the day-bounded range test for date |
| FilterMessages.FilterIdempotent | src/utils/filterMessages.ts:14-24 | filtering the result again with the same criterion returns it unchanged |
| FilterMessages.SentReceivedPartition | src/utils/filterMessages.ts:13-19 | the sent and received results together are as long as the input |
| FilterMessages.DateRangeKeepsCalendarDays | src/utils/filterMessages.ts:27-33 | with both bounds, a message of the input is kept iff its local day lies between the local days of start and end, inclusive |
| FilterMessages.StartOnlyKeeps | src/utils/filterMessages.ts:35-39 | with only a start, a message is kept iff it is at or after local midnight of the start day |
| FilterMessages.EndOnlyKeeps | src/utils/filterMessages.ts:41-45 | with only an end, a message is kept iff it is at or before 23:59:59.999 local time of the end day |
| FilterMessages.UnboundedDateKeepsAll | src/utils/filterMessages.ts:47 | the date criterion with neither bound keeps every message |
| FilterMessages.DayBoundaryExample | src/utils/filterMessages.ts:27-33 | in UTC, a one-day range for 2024-01-10 keeps a message at 23:59 that day and drops one at 00:01 the next day |
| Time.DayStart | src/utils/filterMessages.ts:28-29 | the result is local midnight, at most one day before the instant, on the same local day |
| Time.DayEnd | src/utils/filterMessages.ts:30-31 | the result is the last millisecond of the instant's local day |
| Time.HourOf | src/utils/calculateMessageStatistics.ts:56 | the local hour lies in 0..23 and the instant falls inside that hour of its local day |
| Time.UtcDay | src/utils/calculateMessageStatistics.ts:47-48 | the instant lies inside the UTC day with that number |
| Time.AfterDayStartIffLaterDay | src/utils/filterMessages.ts:28-32 | an instant is at or after the start of the day of `s` iff its local day is not earlier than that of `s` |
| Time.BeforeDayEndIffEarlierDay | src/utils/filterMessages.ts:30-32 | an instant is at or before the end of the day of `e` iff its local day is not later than that of `e` |
| Time.UtcAndLocalDayDiffer | src/utils/calculateMessageStatistics.ts:47-56 | for every offset that is not a whole number of days, some instant has a UTC day different from its local day |
| Time.JstMorningIsPreviousUtcDay | src/utils/calculateMessageStatistics.ts:47-56 | an instance: 05:00 local time on 10 January 2024 in UTC+9 is keyed as 9 January by the per-day statistic |
| SortMessages.SortMessages | src/utils/sortMessages.ts:8-44 | sorting a copy returns the functional insertion sort of the input: a permutation, ordered by the comparator, with messages of equal key in input order |
| SortMessages.InsertLast | src/utils/sortMessages.ts:12-41 | one pass of the in-place sort inserts element i into the sorted prefix before it and leaves the rest of the array untouched |
| SortMessages.InsertionSortCorrect | src/utils/sortMessages.ts:12-41 | the sort is a permutation, is ordered by the comparator, and keeps the order of each class of equal-key messages |
| SortMessages.CompareAntisymmetric | src/utils/sortMessages.ts:11-41 | each comparator is antisymmetric |
| SortMessages.CompareTransitive | src/utils/sortMessages.ts:11-41 | each comparator's "not after" relation is transitive |
| SortMessages.NewestNonIncreasing | src/utils/sortMessages.ts:11-15 | a list sorted by the newest comparator has non-increasing timestamps |
| SortMessages.OldestNonDecreasing | src/utils/sortMessages.ts:17-21 | a list sorted by the oldest comparator has non-decreasing timestamps |
| SortMessages.SenderFirstPartition | src/utils/sortMessages.ts:23-31 | sender-first: all sent messages come before all received ones, and each group has non-decreasing timestamps |
| SortMessages.ReceiverFirstPartition | src/utils/sortMessages.ts:33-41 | receiver-first: all received messages come before all sent ones, and each group has non-decreasing timestamps |
| Arith.CeilDiv | src/utils/paginateMessages.ts:18 | `Math.ceil(n / d)`: the least q with n <= q·d; it is 0 exactly for n = 0 |
| Paginate.Clamp | src/utils/paginateMessages.ts:21 | the result lies in [lo, hi] and is x when x already does, else the nearer end |
| Paginate.Slice | src/utils/paginateMessages.ts:26 | `slice(start, end)`: the elements start..end, cut off at the end of the list |
| Paginate.ValidPage | src/utils/paginateMessages.ts:21 | the page lies in [1, max(totalPages, 1)] and a page already in range is kept |
| Paginate.PaginateMessages | src/utils/paginateMessages.ts:17-35 | totalItems is the input length, totalPages is ceil(n / itemsPerPage), the page is the clamped one, hasNextPage iff page < totalPages, hasPreviousPage iff page > 1 |
| Paginate.PaginateSlice | src/utils/paginateMessages.ts:23-26 | the page's messages are messages[(p-1)·ipp .. min(p·ipp, n)], at most ipp of them, and empty iff the input is empty |
| Paginate.PaginateEmpty | src/utils/paginateMessages.ts:17-35 | empty input gives 0 pages, page 1, no messages and neither next nor previous page |
| Paginate.PagesUpToPrefix | src/utils/paginateMessages.ts:23-26 | pages 1..k concatenated are the first min(k·ipp, n) messages |
| Paginate.PagesReconstruct | src/utils/paginateMessages.ts:23-26 | concatenating pages 1..totalPages gives back the input exactly |
| Statistics.CalculateMessageStatistics | src/utils/calculateMessageStatistics.ts:16-77 | empty input gives the all-zero record; otherwise sent counts the `isSender` messages, sent + received = total, the average is the half-up rounded mean length, longest/shortest are the max/min length, the dictionaries are the day and hour histograms, first/last are the min/max timestamp |
| Statistics.CountPerDay | src/utils/calculateMessageStatistics.ts:45-50 | the counting loop builds the histogram of UTC day keys |
| Statistics.CountPerHour | src/utils/calculateMessageStatistics.ts:53-58 | the counting loop builds the histogram of local hours |
| Statistics.Max | src/utils/calculateMessageStatistics.ts:41 | `Math.max(...)` bounds every element and is attained |
| Statistics.Min | src/utils/calculateMessageStatistics.ts:42 | `Math.min(...)` bounds every element and is attained |
| Statistics.RoundHalfUp | src/utils/calculateMessageStatistics.ts:40 | `Math.round(num / den)`: the integer nearest the quotient, halves rounded up |
| Statistics.SentAndReceivedCounts | src/utils/calculateMessageStatistics.ts:34-35 | sent is the length of the `isSender` filter and received the length of the `!isSender` filter |
| Statistics.SumBounds | src/utils/calculateMessageStatistics.ts:39 | a sum of n values in [lo, hi] lies in [n·lo, n·hi] |
| Statistics.MeanBetween | src/utils/calculateMessageStatistics.ts:38-40 | the rounded mean of values in [lo, hi] lies in [lo, hi] |
| Statistics.RoundedBetween | src/utils/calculateMessageStatistics.ts:40 | rounding a quotient that lies in [lo, hi] stays in [lo, hi] |
| Statistics.AverageBetweenExtremes | src/utils/calculateMessageStatistics.ts:38-42 | shortest <= average <= longest |
| Statistics.PerDaySum | src/utils/calculateMessageStatistics.ts:45-50 | the per-day counts add up to the number of messages |
| Statistics.PerHourSum | src/utils/calculateMessageStatistics.ts:53-58 | the per-hour counts add up to the number of messages |
| Statistics.HourKeysInRange | src/utils/calculateMessageStatistics.ts:53-58 | every per-hour key lies in 0..23 |
| Statistics.FirstNotAfterLast | src/utils/calculateMessageStatistics.ts:61-63 | the first message date is not after the last |
| Sequences.Select | src/utils/filterMessages.ts:14 | `filter` returns a subsequence whose elements all pass the test |
| Sequences.SelectMultiset | src/utils/filterMessages.ts:14 | `filter` keeps every passing occurrence and drops every other one |
| Sequences.SelectIdempotent | src/utils/filterMessages.ts:14 | filtering twice with one test is filtering once |
| Sequences.SelectComplement | src/utils/filterMessages.ts:14-18 | a test and its negation split a list: the two filters' lengths add up to its length |
| Sequences.FindFirst | src/stores/messageStore.ts:115 | `find` returns nothing iff no element passes, else the first passing element |
| Sequences.Histogram | src/utils/calculateMessageStatistics.ts:45-50 | the dictionary has a key exactly for each occurring key, holding its number of occurrences |
| Sequences.HistogramSum | src/utils/calculateMessageStatistics.ts:45-50 | the counts of a histogram add up to the number of keys counted |
| Sequences.Distinct | src/components/molecules/MessageStatistics.tsx:28 | the key list in first-insertion order has the same members as the input and no duplicates |
| StatisticsView.FirstMaxIndex | src/components/molecules/MessageStatistics.tsx:28-30 | the index of the first entry with a maximal count |
| StatisticsView.MostActive | src/components/molecules/MessageStatistics.tsx:28-34 | the stable sort's first entry exists iff the listing is non-empty; it is an entry of the listing whose count no entry exceeds, and every earlier entry has a strictly smaller count |
| StatisticsView.MostActiveIsMaximal | src/components/molecules/MessageStatistics.tsx:28-34 | for a full listing of a dictionary, the most active entry is a key of it whose count no other key exceeds |
| StatisticsView.HourEntriesCovers | src/components/molecules/MessageStatistics.tsx:32 | every hour with a count appears in the per-hour listing |
| StatisticsView.HourEntriesAscending | src/components/molecules/MessageStatistics.tsx:32 | `Object.entries` lists the per-hour dictionary by strictly ascending hour |
| StatisticsView.HourEntriesListHistogram | src/components/molecules/MessageStatistics.tsx:32-34 | the per-hour listing lists exactly the per-hour histogram |
| StatisticsView.DayEntriesListHistogram | src/components/molecules/MessageStatistics.tsx:28-30 | the per-day listing, in first-occurrence order, lists exactly the per-day histogram |
| StatisticsView.DaysDiff | src/components/molecules/MessageStatistics.tsx:47-54 | 0 without both dates; otherwise the day span rounded up, which is >= 0 and is 0 only for equal dates |
| StatisticsView.PerDayAverage | src/components/molecules/MessageStatistics.tsx:56-57 | the average is '0' iff daysDiff <= 0, otherwise total over daysDiff |
| StatisticsView.RenderStatistics | src/components/molecules/MessageStatistics.tsx:8-57 | the placeholder shows iff there is no room or no message; otherwise every statistics field is the one calculateMessageStatistics gives, the most active day and hour are the first maximal entries of the day listing (first-occurrence order) and the hour listing (ascending hours), which are maximal in the histograms, the hour is in 0..23, daysDiff >= 0 brackets the timestamp span, and the average is the per-day average of that span, '0' iff daysDiff = 0 |
| SearchStore.JsRem | src/stores/searchStore.ts:46 | JavaScript `%`: a = n·q + r with q the quotient truncated toward zero, so the remainder lies in [0, n) for a non-negative dividend and in (-n, 0] for a negative one |
| SearchStore.NextIndex | src/stores/searchStore.ts:46 | from -1 or a valid index the next index is valid; it is index + 1 below the last match and wraps to 0 from the last |
| SearchStore.PrevIndex | src/stores/searchStore.ts:53-56 | the previous index is index - 1, wrapping from 0 to n - 1 |
| SearchStore.PrevUndoesNext | src/stores/searchStore.ts:43-58 | prevHighlight undoes nextHighlight and the other way round |
| SearchStore.NextNAdds | src/stores/searchStore.ts:43-48 | below the last match, k steps forward add k |
| SearchStore.NextNCompose | src/stores/searchStore.ts:43-48 | a steps then b steps are a + b steps |
| SearchStore.NextCycles | src/stores/searchStore.ts:43-48 | n steps forward return the cursor to where it started |
| SearchStore.UncheckedIndexBreaksRange | src/stores/searchStore.ts:33 | an index stored unchecked can leave the cursor range (5 with two matches) |
| SearchStore.SearchState.constructor | src/stores/searchStore.ts:18-21 | empty query, inactive, no ids, index -1 |
| SearchStore.SearchState.SetSearchQuery | src/stores/searchStore.ts:23 | only the query changes |
| SearchStore.SearchState.SetIsSearchActive | src/stores/searchStore.ts:25 | only the active flag changes |
| SearchStore.SearchState.SetHighlightedMessageIds | src/stores/searchStore.ts:27-31 | stores the ids; the index becomes 0 when there are some, else -1 |
| SearchStore.SearchState.SetCurrentHighlightIndex | src/stores/searchStore.ts:33 | stores any index; nothing else changes |
| SearchStore.SearchState.ClearSearch | src/stores/searchStore.ts:35-41 | all four fields return to their initial values |
| SearchStore.SearchState.NextHighlight | src/stores/searchStore.ts:43-48 | no change without matches; otherwise the index moves to NextIndex, and the cursor invariant is kept |
| SearchStore.SearchState.PrevHighlight | src/stores/searchStore.ts:50-58 | no change without matches; otherwise the index moves to PrevIndex, and the cursor invariant is kept |
| MessageSearch.MatchIds | src/components/molecules/MessageSearch.tsx:24-36 | no ids without a room or for a blank query; otherwise the ids of the messages whose lower-cased content contains the lower-cased query |
| MessageSearch.IdsOfSubseq | src/components/molecules/MessageSearch.tsx:31-33 | mapping to ids keeps the subsequence relation |
| MessageSearch.MatchIdsInRoomOrder | src/components/molecules/MessageSearch.tsx:30-33 | the matches are a subsequence of the room's ids; a matching message's id is listed, and every listed id belongs to a matching message |
| MessageSearch.MatchIdsIgnoreCase | src/components/molecules/MessageSearch.tsx:30-32 | queries equal up to letter case give the same matches |
| MessageSearch.SearchEffect | src/components/molecules/MessageSearch.tsx:24-36 | the store receives the match ids and the cursor goes to the first match or to -1 |
| MessageSearch.HandleSearchChange | src/components/molecules/MessageSearch.tsx:38-43 | the query is stored; search becomes active iff it was active or the text is not blank |
| MessageSearch.CurrentPosition | src/components/molecules/MessageSearch.tsx:50 | index + 1 for index >= 0, else 0 |
| MessageSearch.PositionInRange | src/components/molecules/MessageSearch.tsx:49-50 | under the cursor invariant the position lies in 0..n and is 0 iff there are no matches |
| PaginationView.PageRange | src/components/molecules/MessagePagination.tsx:41-43 | the buttons lo..hi, one per page, in order |
| PaginationView.GetPageNumbers | src/components/molecules/MessagePagination.tsx:35-69 | the push loops build exactly the page list: all pages up to 7, else 1, optional ellipsis, window, optional ellipsis, last page |
| PaginationView.FewPagesAllShown | src/components/molecules/MessagePagination.tsx:39-43 | up to 7 pages the list is exactly the buttons 1..totalPages |
| PaginationView.NumbersOfManyPages | src/components/molecules/MessagePagination.tsx:44-66 | beyond 7 pages the numbers are 1, the window max(2, cur-1)..min(tp-1, cur+1), and tp |
| PaginationView.NumbersIncreasingInRange | src/components/molecules/MessagePagination.tsx:39-66 | for any current page the numbers strictly increase, lie in 1..totalPages, and there are at most 7 entries |
| PaginationView.ManyPagesShape | src/components/molecules/MessagePagination.tsx:46-65 | for a current page in 1..totalPages and beyond 7 pages: the list starts with 1 and ends with tp, a leading ellipsis appears iff cur > 3, a trailing one iff cur < tp - 2, and the current page has a button |
| PaginationView.RenderedIffOverflow | src/components/molecules/MessagePagination.tsx:71-73 | the pager is shown iff the messages do not fit on one page |
| PaginationView.ShownRangeMatchesPage | src/components/molecules/MessagePagination.tsx:79-80 | for an in-range page the shown range numbers exactly the messages on that page |
| MessageStore.Merge | src/stores/messageStore.ts:47-49 | `{ ...msg, ...updates }` (its laws are in MergeLaws and MergeKeepsAbsentFields) |
| MessageStore.MergeLaws | src/stores/messageStore.ts:47-49 | merging an empty patch changes nothing; merging the same patch twice equals merging it once |
| MessageStore.MergeKeepsAbsentFields | src/stores/messageStore.ts:47-49 | for each of the nine fields: left out of the patch, it keeps its value; given by the patch, it takes the new value |
| MessageStore.UpdateMessages | src/stores/messageStore.ts:47-49 | same length; messages with the id are merged, all others unchanged in place |
| MessageStore.RemoveMessages | src/stores/messageStore.ts:65 | a subsequence of the input without any message of that id |
| MessageStore.RemoveMessagesExactly | src/stores/messageStore.ts:65 | every message with another id survives with its multiplicity; none with the id does |
| MessageStore.RemoveAbsentId | src/stores/messageStore.ts:65 | deleting an id no message has changes nothing |
| MessageStore.ReplaceRoom | src/stores/messageStore.ts:36-38 | same length; rooms with the updated room's id are replaced by it, the others unchanged |
| MessageStore.RemoveRooms | src/stores/messageStore.ts:109 | a subsequence of the rooms without any room of that id |
| MessageStore.RemoveRoomsExactly | src/stores/messageStore.ts:109 | exactly the rooms with another id remain, each as often as in the list, and none with the id |
| MessageStore.ReplaceRoomSyncs | src/stores/messageStore.ts:36-38 | after writing back, the list agrees with the current room, and unique ids stay unique |
| MessageStore.ReplaceAbsentRoom | src/stores/messageStore.ts:36-38 | writing back a room whose id is not listed leaves the list unchanged |
| MessageStore.MessageState.constructor | src/stores/messageStore.ts:21-22 | no current room, no rooms |
| MessageStore.MessageState.SetCurrentRoom | src/stores/messageStore.ts:24 | only the current room changes |
| MessageStore.MessageState.AddMessage | src/stores/messageStore.ts:26-40 | no change without a current room; otherwise the message is appended, the room timestamped and written back by id |
| MessageStore.MessageState.UpdateMessage | src/stores/messageStore.ts:42-58 | no change without a current room; otherwise the updates are merged into the messages with the id and the room is written back |
| MessageStore.MessageState.DeleteMessage | src/stores/messageStore.ts:60-74 | no change without a current room; otherwise the messages with the id are removed and the room is written back |
| MessageStore.MessageState.ClearMessages | src/stores/messageStore.ts:76-90 | no change without a current room; otherwise the room is left empty and written back |
| MessageStore.MessageState.CreateRoom | src/stores/messageStore.ts:92-105 | one empty room with the new id and the two clock readings as createdAt and updatedAt is appended and becomes current; with a fresh id the list stays in sync and ids stay unique |
| MessageStore.MessageState.DeleteRoom | src/stores/messageStore.ts:107-112 | rooms with the id are removed; the current room becomes none iff it had that id; sync is kept |
| MessageStore.MessageState.LoadRoom | src/stores/messageStore.ts:114-119 | the first room with the id becomes current; an unknown id changes nothing |
| FilterStore.FilterState.constructor | src/stores/filterStore.ts:19-23 | criterion 'all', no bounds |
| FilterStore.FilterState.SetFilterType | src/stores/filterStore.ts:25 | only the criterion changes; the date range is kept |
| FilterStore.FilterState.SetDateRange | src/stores/filterStore.ts:27-31 | both bounds are stored and the criterion becomes 'date' |
| FilterStore.FilterState.ClearFilter | src/stores/filterStore.ts:33-37 | back to the initial state |
| PaginationStore.PaginationState.constructor | src/stores/paginationStore.ts:12-13 | page 1, 20 items per page |
| PaginationStore.PaginationState.SetCurrentPage | src/stores/paginationStore.ts:15 | the page is stored unvalidated; the size is kept |
| PaginationStore.PaginationState.SetItemsPerPage | src/stores/paginationStore.ts:17-21 | the size is stored and the page goes back to 1 |
| PaginationStore.PaginationState.ResetPagination | src/stores/paginationStore.ts:23-27 | back to the initial state |
| TemplateStore.DefaultTemplates | src/stores/templateStore.ts:21-44 | three built-in templates with ids default-1, default-2, default-3, each with the built-in prefix |
| TemplateStore.UpdateTemplates | src/stores/templateStore.ts:60-66 | same length; templates with the id are merged, the others unchanged in place |
| TemplateStore.DeleteKeepsOthers | src/stores/templateStore.ts:68-72 | deleting keeps exactly the templates with another id, in order, with their multiplicity |
| TemplateStore.TemplateState.constructor | src/stores/templateStore.ts:21-44 | the store starts with the three built-in templates |
| TemplateStore.TemplateState.AddTemplate | src/stores/templateStore.ts:46-58 | exactly one template with the fresh id, name, content and category is appended |
| TemplateStore.TemplateState.UpdateTemplate | src/stores/templateStore.ts:60-66 | the template list becomes UpdateTemplates of the old one |
| TemplateStore.TemplateState.DeleteTemplate | src/stores/templateStore.ts:68-72 | the templates with the id are removed, the rest kept in order |
| TemplateStore.TemplateState.GetTemplate | src/stores/templateStore.ts:74-76 | nothing iff no template has the id, else the first template with it |
| TemplateStore.TemplateState.GetTemplatesByCategory | src/stores/templateStore.ts:78-82 | the order-preserving subsequence of templates whose category equals the given one, each kept as often as the store holds it |
| TemplateSelector.GroupKey | src/components/molecules/TemplateSelector.tsx:42 | the category when present and non-empty, otherwise 'その他' |
| TemplateSelector.GroupTemplates | src/components/molecules/TemplateSelector.tsx:40-50 | the reduce throws exactly when some group key names a property inherited from `Object.prototype`; otherwise it builds, for each occurring key, that key's templates in store order, and creates the keys in first-occurrence order |
| TemplateSelector.InheritedCategoryThrows | src/components/molecules/TemplateSelector.tsx:40-46 | a template with the category "toString" makes the reduce throw |
| TemplateSelector.GroupedSnoc | src/components/molecules/TemplateSelector.tsx:43-46 | one reduce step appends the template to its group, creating the group when missing |
| TemplateSelector.GroupingPartitions | src/components/molecules/TemplateSelector.tsx:40-50 | the groups are exactly the occurring keys; each template is in its own group and in no other; each group keeps store order |
| TemplateSelector.GroupSizesAreCounts | src/components/molecules/TemplateSelector.tsx:40-50 | each group's size is the number of templates with its key |
| TemplateSelector.NewTemplateRequest | src/components/molecules/TemplateSelector.tsx:19-25 | a request exists iff the name and the content are non-blank; its values are trimmed and the category is dropped iff blank |
| TemplateSelector.RequestIsNormalised | src/components/molecules/TemplateSelector.tsx:21-25 | an accepted request's values are non-empty and already trimmed |
| TemplateSelector.HandleAddTemplate | src/components/molecules/TemplateSelector.tsx:19-31 | the store gains the requested template, or stays unchanged when the guard fails |
| TemplateSelector.Preview | src/components/molecules/TemplateSelector.tsx:90-91 | up to 20 characters the content itself; beyond, its first 20 characters followed by '...' |
| TemplateSelector.DefaultsNotDeletable | src/components/molecules/TemplateSelector.tsx:94 | no built-in template offers a delete button |
| Validation.ValidateMessageContent | src/services/validationService.ts:6-24 | valid iff not blank and at most 5000 characters; a blank text gets the empty-message error first, a long one the length error; a valid one has no error |
| Validation.BlankCheckFirst | src/services/validationService.ts:12-14 | whitespace-only text fails the blank check whatever its length |
| Validation.LimitInclusive | src/services/validationService.ts:16-21 | a non-blank text of exactly 5000 characters is valid |
| Validation.ValidateMessage | src/services/validationService.ts:29-64 | valid iff no error; the errors follow the fixed order id, content, type, timestamp, isSender, each present iff its check fails |
| Validation.ErrorsInOrder | src/services/validationService.ts:37-58 | whatever checks fail, the pushed errors form a subsequence of the fixed list |
| ThemeStore.Overlay | src/stores/themeStore.ts:89-98 | a spread merge of colour records: the keys of both, the right one winning |
| ThemeStore.OverlayLaws | src/stores/themeStore.ts:93-100 | overlaying the same record twice is once, and successive overlays accumulate |
| ThemeStore.DefaultColors | src/stores/themeStore.ts:4-60 | each look's built-in scheme has every colour key |
| ThemeStore.ThemeState.constructor | src/stores/themeStore.ts:70-77 | light mode, the LINE look and colours, no overrides |
| ThemeStore.ThemeState.SetThemeMode | src/stores/themeStore.ts:79-82 | only the mode changes |
| ThemeStore.ThemeState.SetSnsTheme | src/stores/themeStore.ts:84-91 | the look changes and the colours become its scheme under the overrides, so every override survives |
| ThemeStore.ThemeState.SetCustomColors | src/stores/themeStore.ts:93-100 | the overrides accumulate, the given colours apply, other colours keep their values, and the scheme stays the look's scheme under the overrides |
| ThemeStore.ThemeState.ResetTheme | src/stores/themeStore.ts:102 | back to the initial configuration, overrides dropped |
| DesignStore.ThenPatch | src/stores/designStore.ts:55-61 | the combination of two bubble-style patches (see MergeStyleLaws) |
| DesignStore.MergeStyleLaws | src/stores/designStore.ts:55-61 | keys the patch leaves out are kept; merging a patch twice is once; two merges are one merge of the combined patch |
| DesignStore.DesignState.constructor | src/stores/designStore.ts:15-28 | all four flags on, the default bubble style |
| DesignStore.DesignState.SetShowAvatar | src/stores/designStore.ts:35-38 | only the avatar flag changes |
| DesignStore.DesignState.SetShowTimestamp | src/stores/designStore.ts:40-43 | only the timestamp flag changes |
| DesignStore.DesignState.SetShowSenderName | src/stores/designStore.ts:45-48 | only the sender-name flag changes |
| DesignStore.DesignState.SetShowStatus | src/stores/designStore.ts:50-53 | only the status flag changes |
| DesignStore.DesignState.SetBubbleStyle | src/stores/designStore.ts:55-61 | the given keys are merged into the bubble style; everything else is kept |
| DesignStore.DesignState.ResetDesign | src/stores/designStore.ts:63 | back to the defaults |
| DarkModeStore.DarkFor | src/stores/darkModeStore.ts:27-35 | the system answer for 'system', otherwise dark iff the preference is 'dark' |
| DarkModeStore.Toggled | src/stores/darkModeStore.ts:38-50 | the toggled preference is never 'system', differs from an explicit one, and from 'system' is the mode opposite to what is shown |
| DarkModeStore.ToggleTwice | src/stores/darkModeStore.ts:45-48 | toggling an explicit preference twice restores it |
| DarkModeStore.ToggleFlips | src/stores/darkModeStore.ts:38-50 | in a consistent state every toggle flips what is shown |
| DarkModeStore.DarkModeState.constructor | src/stores/darkModeStore.ts:20-21 | preference 'system', not dark |
| DarkModeStore.DarkModeState.SetPreference | src/stores/darkModeStore.ts:23-36 | the preference is stored and the darkness follows it, or the system for 'system' |
| DarkModeStore.DarkModeState.ToggleDarkMode | src/stores/darkModeStore.ts:38-50 | the preference becomes the toggled one and, in a consistent state, what is shown flips |
| KeyboardShortcuts.CtrlOnlyShortcut | src/hooks/useKeyboardShortcuts.ts:15-25 | a ctrl shortcut without meta fires iff the key matches, Ctrl is held, Cmd is not, and shift agrees |
| KeyboardShortcuts.PlainShortcut | src/hooks/useKeyboardShortcuts.ts:15-25 | a shortcut without modifiers fires only with no modifier held |
| KeyboardShortcuts.MetaWithoutCtrlNeverFires | src/hooks/useKeyboardShortcuts.ts:15-19 | a meta shortcut without ctrl can never fire |
| KeyboardShortcuts.CaseInsensitive | src/hooks/useKeyboardShortcuts.ts:22 | key presses equal up to letter case match the same shortcuts |
| KeyboardShortcuts.HandleKeyDown | src/hooks/useKeyboardShortcuts.ts:13-32 | nothing fires iff no shortcut matches; otherwise the first matching shortcut fires; the default is prevented iff one fired |
| Strings.Trim | src/services/validationService.ts:12 | `trim()` leaves no white space at either end |
| Strings.TrimIsInfix | src/services/validationService.ts:12 | the trimmed string is a contiguous part of the input between two runs of white space |
| Strings.BlankIffAllWhitespace | src/services/validationService.ts:12 | a string trims to empty iff every character is white space |
| Strings.TrimIdempotent | src/components/molecules/TemplateSelector.tsx:20-24 | trimming twice is trimming once |
| Strings.ToLower | src/components/molecules/MessageSearch.tsx:30-32 | character-wise lower-casing, same length |
| Strings.SliceTo | src/components/molecules/TemplateSelector.tsx:90 | `slice(0, n)` is the first min(n, length) characters |

## Left out

- Persistence: the zustand `persist` middleware, localStorage and JSON rehydration are not modelled.
- Export (html2canvas, Blob, download links), focus trapping, media-query listeners, the document `dark` class and all JSX rendering are not modelled.
- The reorder wrapper over dnd-kit is not modelled; the message store has no reorder action.
- The sort store is a one-field setter and is not modelled; its `SortType` is reused by the sort.
- No caller in the code runs filter, sort and paginate one after another, so that composition is not modelled.
- FilterType and SortType are closed datatypes, so the fallback branches for an unknown criterion (src/utils/filterMessages.ts:51, src/utils/sortMessages.ts:43-44) cannot be reached and are not modelled.
- Time: the local time zone is one fixed offset; daylight-saving changes are not modelled. Timestamps are integers, so an invalid (NaN) Date in a message is not modelled; Validation.RawTimestamp models it for the one place that tests it.
- Strings.ToLower: `toLowerCase` maps only ASCII letters. JavaScript `length` counts UTF-16 code units, while the model counts characters, so lengths differ outside the Basic Multilingual Plane.
- Statistics: the `YYYY-MM-DD` day key is represented by the UTC day number; the text is a one-to-one rendering of it. The limit on `Math.max(...spread)` argument counts is not modelled.
- StatisticsView.PerDayAverage: the `toFixed(1)` rendering of the float quotient is not modelled; the result keeps the total and the day count.
- The date and time formatting with `Intl.DateTimeFormat` is not modelled.
- Paginate.PaginateMessages: requires itemsPerPage > 0. The code divides by the stored size unchecked; a zero, negative or fractional size (possible through setItemsPerPage) is not modelled, and neither are fractional page numbers.
- Message metadata (src/types/message.ts:19-26) is used by nothing modelled, so it is not part of Types.Message; merges with a patch key explicitly set to `undefined` are modelled only for the optional fields.
- The media-query change listener that re-applies 'system' is not modelled; DarkModeState.SetPreference takes the query's answer as a parameter.
- Theme presets (src/constants/themePresets.ts) are not modelled; the five built-in schemes of the store are.
- TemplateSelector.GroupTemplates: `Object.entries` lists integer-like keys first in ascending order. The model lists groups in first-creation order, which matches only for categories that are not integer-like; the same holds for the per-day listing, whose keys are never integer-like.
- Handlers of keyboard shortcuts and of the template form are not run; the model reports which shortcut fires and what the form submits.
