# Pharmaceutical inventory dashboard: status classification and query engine

This project models the decision logic of a React dashboard that tracks
medical-instrument inventory and shipments. It covers two parallel pipelines.

- **Inventory.** The inventory card derives a stock status (`in-stock`,
  `low-stock`, `out-of-stock`) from a record's `stock` and `threshold`, and
  shows a badge for it. The inventory page filters its base list in two
  steps: a case-insensitive substring search over name, id and category,
  then a status filter. The filter type has four options (`all`,
  `in-stock`, `low-stock`, `out-of-stock`), but the page renders buttons for
  only three: All, In Stock and Low. `getCounts` computes three status counts
  over the unfiltered base list. Only the in-stock and low-stock counts are
  shown, as badges on the In Stock and Low buttons.
- **Deliveries.** The delivery card turns a status (`pending`, `in-transit`,
  `delivered`, `delayed`) into a progress percentage and a badge. It always
  shows the estimated arrival under "Expected Arrival". The footer's "ETA:"
  line is shown only while the shipment is not delivered. The deliveries page
  searches id, destination and item names case-insensitively, then filters
  by tab (`all`, `active`, `delivered`). Each tab carries a count over the
  base list.

Everything here is a pure function over values, as in the source: the
pages rebuild the visible list with `Array.filter` chains and never mutate
a record.

Modules, one per source file plus two helpers:

- `Seqs` (`seqs.dfy`): `Filter` (`Array.prototype.filter`), `Any`
  (`Array.prototype.some`), order-preserving subsequences, and the algebra
  of filters: fusion, commutation, idempotence, splitting.
- `Text` (`text.dfy`): `Lower` (`toLowerCase`, ASCII letters only) and
  `Contains` (`includes`), proved to be substring search.
- `InventoryItem` (`inventory_item.dfy`): the inventory record, `GetStatus`
  and the badge text.
- `InventoryPage` (`inventory.dfy`): the base list, the search and status
  steps, the status counts and the page view.
- `DeliveryCard` (`delivery_card.dfy`): the delivery record, the status
  literals, the progress table, the badge text and the footer's ETA rule.
- `DeliveriesPage` (`deliveries.dfy`): the base list, the search and tab
  steps, the tab counts and the page view.

Two behaviours of the code are worth knowing.

- **The in-stock filter disagrees with the classifier.** The page's
  `in-stock` filter (`stock >= threshold`) is not the card's classifier. An
  empty shelf whose threshold is zero or less passes both the `in-stock`
  and the `out-of-stock` predicate. What a user sees is that the In Stock
  badge counts it and the In Stock list shows it, while its card says
  "Out of Stock". For the same reason, the three computed counts add up to
  the list length plus the number of such records
  (`InventoryPage.CountsSum`). The out-of-stock count is computed but never
  shown, and `out-of-stock` is a `FilterOption` value that no button
  selects. The model follows the code here, not
  the intent of reusing the classifier's predicates. No record of the
  built-in list has a zero threshold, so the discrepancy is invisible there.
- **Delivery statuses are plain strings.** The page's records hold plain
  strings for `status`. The card compares them with the four literals and
  falls back to progress 0 and the label "Unknown". The model therefore
  keeps `status: string` in `DeliveryRecord` and reads it through
  `ParseStatus` into the four-value `DeliveryStatus`.

## Model

| member | source | states |
|---|---|---|
| `Seqs.Filter` | src/pages/Inventory.tsx:100-105 | A filter never grows the list, and everything it keeps passes the predicate |
| `Seqs.FilterContents` | src/pages/Deliveries.tsx:94-102 | A filter keeps an element exactly when it passes, as many times as it occurs in the input, and nothing else |
| `Seqs.IsSubsequence` | src/pages/Inventory.tsx:100-115 | Order-preserving subsequence, the shape of every `filter` result; see `FilterIsSubsequence`, `QueryExact` |
| `Seqs.FilterIsSubsequence` | src/pages/Inventory.tsx:110-115 | A filter's result is an order-preserving subsequence of its input |
| `Seqs.Any` | src/pages/Deliveries.tsx:88 | `some` holds exactly when some element satisfies the predicate |
| `Seqs.FilterKeepsAll` | src/pages/Inventory.tsx:109-116 | Filtering returns the list unchanged exactly when every element passes |
| `Seqs.FilterCongruent` | src/pages/Deliveries.tsx:86-88 | Filters by two predicates that agree on every element of the list give the same list; used by `QueryCaseInsensitive` and `CountsMatchTabs` |
| `Seqs.FilterFusion` | src/pages/Inventory.tsx:100-115 | A search filter followed by a status filter is one filter by the conjunction of the two predicates |
| `Seqs.FilterCommute` | src/pages/Deliveries.tsx:84-102 | Two filters may be applied in either order |
| `Seqs.FilterIdempotent` | src/pages/Deliveries.tsx:84-102 | Filtering twice by one predicate equals filtering once |
| `Seqs.FilterSplit` | src/pages/Deliveries.tsx:94-102 | Two complementary predicates split a list, with no element lost or counted twice, in multiset and in length |
| `Text.LowerChar` | src/pages/Inventory.tsx:102 | Lower-casing maps 'A'..'Z' to 'a'..'z', leaves other characters alone, and never yields an upper-case letter |
| `Text.Lower` | src/pages/Inventory.tsx:102-104 | `toLowerCase` keeps the length and lower-cases each character in place |
| `Text.LowerIdempotent` | src/pages/Inventory.tsx:102-104 | Lower-casing twice equals lower-casing once |
| `Text.LowerAppend` | src/pages/Inventory.tsx:102 | Lower-casing a concatenation lower-cases each part |
| `Text.Contains` | src/pages/Inventory.tsx:102 | `includes`; see `ContainsIffOccurs`, `ContainsEmpty`, `ContainsChars` |
| `Text.IsPrefix` | src/pages/Inventory.tsx:102 | The needle is an initial segment of the haystack; the base case of `Contains` |
| `Text.OccursAt` | src/pages/Inventory.tsx:102 | The needle occurs at a given offset; the reference definition `ContainsIffOccurs` compares `Contains` with |
| `Text.ContainsIffOccurs` | src/pages/Inventory.tsx:102-104 | `includes` holds exactly when the needle occurs at some offset of the haystack |
| `Text.ContainsEmpty` | src/pages/Inventory.tsx:99 | Every string includes the empty string |
| `Text.ContainsChars` | src/pages/Inventory.tsx:102-104 | A string includes every character of any string it includes |
| `Text.LacksChar` | src/pages/Inventory.tsx:102-104 | A string lacks a character in both cases; see `AbsentAfterLower`, `MissesQuery` |
| `Text.AbsentAfterLower` | src/pages/Inventory.tsx:102-104 | A lower-cased field cannot include a query character that the field lacks in both cases |
| `InventoryItem.InventoryStatus` | src/components/InventoryItem.tsx:6 | The three statuses; see `GetStatus` |
| `InventoryItem.InventoryRecord` | src/components/InventoryItem.tsx:8-17 | The record the card receives, with `stock` and `threshold` as unbounded integers (see Left out) |
| `InventoryItem.GetStatus` | src/components/InventoryItem.tsx:30-34 | Zero stock is out of stock whatever the threshold; non-zero stock is low exactly below the threshold and in stock otherwise; exactly one status results |
| `InventoryItem.StatusOf` | src/components/InventoryItem.tsx:36 | The card's status for its record; see `FilterAgreesWithStatus`, `MockStatuses` |
| `InventoryItem.Rank` | src/components/InventoryItem.tsx:30-34 | Orders the statuses by urgency; see `StatusMonotone` |
| `InventoryItem.StatusMonotone` | src/components/InventoryItem.tsx:30-34 | For non-negative stock, more stock or a lower threshold never makes the status more urgent |
| `InventoryItem.NoThresholdNoLowStock` | src/components/InventoryItem.tsx:31-33 | With a threshold of zero or less, non-negative stock is never low: an empty shelf is out of stock, anything else is in stock |
| `InventoryItem.StatusText` | src/components/InventoryItem.tsx:38-65 | Every status has a badge, and none reads "Unknown" |
| `InventoryItem.StatusTextInjective` | src/components/InventoryItem.tsx:39-57 | The three badges "In Stock", "Low Stock" and "Out of Stock" are pairwise distinct |
| `InventoryPage.MockInventoryItems` | src/pages/Inventory.tsx:11-84 | The eight built-in records, field for field; see `MockStatuses`, `MockCounts`, `GlucoseSearch`, `BlankQueryNotTrimmed` |
| `InventoryPage.FilterOption` | src/pages/Inventory.tsx:86 | The four status options; see `ApplyFilterIsFilter`, `FilterAgreesWithStatus` |
| `InventoryPage.MatchesSearch` | src/pages/Inventory.tsx:100-105 | The lower-cased query occurs in the lower-cased name, id or category; see `QueryExact`, `QueryCaseInsensitive`, `MissesQuery`, `BlankQueryIsLiteral` |
| `InventoryPage.SearchPredicate` | src/pages/Inventory.tsx:101-104 | The search lambda; see `SearchGuardRedundant` |
| `InventoryPage.Search` | src/pages/Inventory.tsx:99-106 | The guarded search step; see `SearchGuardRedundant`, `SearchAndFilterCommute` |
| `InventoryPage.PassesFilter` | src/pages/Inventory.tsx:110-115 | The status step's predicate; see `FilterAgreesWithStatus`, `ZeroThresholdCountedTwice` |
| `InventoryPage.FilterPredicate` | src/pages/Inventory.tsx:110-115 | The status lambda; see `ApplyFilterIsFilter` |
| `InventoryPage.ApplyFilter` | src/pages/Inventory.tsx:109-116 | The guarded status step; see `ApplyFilterIsFilter`, `SearchAndFilterCommute` |
| `InventoryPage.Query` | src/pages/Inventory.tsx:94-116 | The list the page stores; see `QueryExact`, `QueryIdempotent`, `QueryNoOp`, `GlucoseSearch` |
| `InventoryPage.QueryPredicate` | src/pages/Inventory.tsx:99-116 | Both steps' predicates at once; see `QueryIsFilter` |
| `InventoryPage.InventoryCounts` | src/pages/Inventory.tsx:131 | The three counts `getCounts` returns; see `CountsSum` |
| `InventoryPage.GetCounts` | src/pages/Inventory.tsx:126-132 | The three status counts; see `CountsSum`, `CountsSumExact`, `CountsAreTotals`, `MockCounts` |
| `InventoryPage.CountedTwice` | src/pages/Inventory.tsx:127-129 | An empty shelf with threshold at most 0, counted both in stock and out of stock; see `CountsSum`, `CountsSumExact` |
| `InventoryPage.InventoryView` | src/pages/Inventory.tsx:134-215 | The stored list with the counts its badges read; see `CountsAreTotals` |
| `InventoryPage.Render` | src/pages/Inventory.tsx:134-215 | Pairs the list the effect stores with `getCounts()`; see `CountsAreTotals` |
| `InventoryPage.SearchGuardRedundant` | src/pages/Inventory.tsx:99-106 | Skipping the search for the empty query gives the same list as filtering by it |
| `InventoryPage.ApplyFilterIsFilter` | src/pages/Inventory.tsx:109-116 | Skipping the status step for `all` gives the same list as filtering by it |
| `InventoryPage.QueryIsFilter` | src/pages/Inventory.tsx:96-116 | Search then status filter is one filter by both predicates |
| `InventoryPage.QueryExact` | src/pages/Inventory.tsx:96-116 | The visible list is the base list's records that match the search and pass the status filter, in base order and with their multiplicity; a record is visible exactly when it is in the base list and passes both |
| `InventoryPage.QueryNoOp` | src/pages/Inventory.tsx:96-116 | An empty query with `all` shows the base list unchanged |
| `InventoryPage.BlankQueryIsLiteral` | src/pages/Inventory.tsx:99-105 | A query made only of blanks is not trimmed to the empty query: under any status option it hides every record whose name, id and category contain no blank |
| `InventoryPage.QueryIdempotent` | src/pages/Inventory.tsx:96-116 | Running the query on its own result returns that result |
| `InventoryPage.SearchAndFilterCommute` | src/pages/Inventory.tsx:99-116 | The search and the status filter commute |
| `InventoryPage.QueryCaseInsensitive` | src/pages/Inventory.tsx:102-104 | Two queries that lower-case alike show the same records |
| `InventoryPage.FilterAgreesWithStatus` | src/pages/Inventory.tsx:111-113 | For non-negative stock the page's low-stock and out-of-stock predicates agree with `GetStatus`; the in-stock predicate agrees except exactly when stock is 0 and threshold is at most 0 |
| `InventoryPage.ZeroThresholdCountedTwice` | src/pages/Inventory.tsx:111-113 | An empty shelf with threshold 0 passes both the in-stock and the out-of-stock predicate, so the computed in-stock and out-of-stock counts both include it (and the In Stock list shows it), while the classifier says out of stock |
| `InventoryPage.CountsSum` | src/pages/Inventory.tsx:126-132 | For non-negative stock the three computed counts add up to the list length plus the number of empty shelves with threshold at most 0 |
| `InventoryPage.CountsSumExact` | src/pages/Inventory.tsx:126-132 | With non-negative stock and positive thresholds the three computed counts add up to the list length |
| `InventoryPage.CountsAreTotals` | src/pages/Inventory.tsx:125-134 | The status counts do not depend on the search or the selected option, and each is at least the matching count over the visible list |
| `InventoryPage.MissesQuery` | src/pages/Inventory.tsx:100-105 | A record is excluded when each searched field lacks, in both cases, some character of the query |
| `InventoryPage.GlucoseMeterMatches` | src/pages/Inventory.tsx:11-20 | The "Glucose Meters" record matches the query "glucose" |
| `InventoryPage.BlankQueryNotTrimmed` | src/pages/Inventory.tsx:99-105 | The query " " hides INV-008 ("Defibrillators"), so it is not treated like the empty query |
| `InventoryPage.SoleMatch` | src/pages/Inventory.tsx:99-116 | When only the first record of a list matches a query, the `all` list for that query is exactly that record |
| `InventoryPage.SoleMatchByMissingChars` | src/pages/Inventory.tsx:99-116 | The same, when every later record's name, id and category each lack, in both cases, some character of the lower-cased query |
| `InventoryPage.MockRecord1LacksChars` | src/pages/Inventory.tsx:21-29 | INV-002's name, id and category each lack, in both cases, a character of "glucose" |
| `InventoryPage.MockRecord2NameLacksChar` | src/pages/Inventory.tsx:30-38 | The name of INV-003 lacks the witness character in both cases; the first fact of `MockRecord2LacksChars` |
| `InventoryPage.MockRecord2LacksChars` | src/pages/Inventory.tsx:30-38 | INV-003's name, id and category each lack, in both cases, a character of "glucose" |
| `InventoryPage.MockRecord3LacksChars` | src/pages/Inventory.tsx:39-47 | INV-004's name, id and category each lack, in both cases, a character of "glucose" |
| `InventoryPage.MockRecord4NameLacksChar` | src/pages/Inventory.tsx:48-56 | The name of INV-005 lacks the witness character in both cases; the first fact of `MockRecord4LacksChars` |
| `InventoryPage.MockRecord4LacksChars` | src/pages/Inventory.tsx:48-56 | INV-005's name, id and category each lack, in both cases, a character of "glucose" |
| `InventoryPage.MockRecord5LacksChars` | src/pages/Inventory.tsx:57-65 | INV-006's name, id and category each lack, in both cases, a character of "glucose" |
| `InventoryPage.MockRecord6LacksChars` | src/pages/Inventory.tsx:66-74 | INV-007's name, id and category each lack, in both cases, a character of "glucose" |
| `InventoryPage.MockRecord7LacksChars` | src/pages/Inventory.tsx:75-83 | INV-008's name, id and category each lack, in both cases, a character of "glucose" |
| `InventoryPage.MockLacksGlucoseChars` | src/pages/Inventory.tsx:21-83 | Every built-in record after INV-001 lacks, in name, id and category, some character of "glucose" in both cases |
| `InventoryPage.GlucoseWitnessChars` | src/pages/Inventory.tsx:102-104 | The witness characters all occur in the lower-cased query "glucose" |
| `InventoryPage.GlucoseSearch` | src/pages/Inventory.tsx:94-116 | Searching the built-in list for "glucose" under `all` shows INV-001 (Glucose Meters) and nothing else |
| `InventoryPage.MockStatuses` | src/pages/Inventory.tsx:11-84 | In the built-in list INV-004 is low, INV-005 is out, and every other record is in stock |
| `InventoryPage.MockCounts` | src/pages/Inventory.tsx:126-132 | Over the built-in list the counts are 6 in stock, 1 low, 1 out; the low and out filters show INV-004 and INV-005 |
| `DeliveryCard.DeliveryStatus` | src/components/DeliveryCard.tsx:6 | The four statuses; see `ParseStatus`, `ParseStatusName` |
| `DeliveryCard.DeliveryRecord` | src/components/DeliveryCard.tsx:8-17 | The record the card receives, with `status` kept as the page's raw string; see `ParseStatus` |
| `DeliveryCard.StatusName` | src/components/DeliveryCard.tsx:6 | The literal of each status; see `ParseStatus`, `ParseStatusName` |
| `DeliveryCard.IsKnownStatus` | src/components/DeliveryCard.tsx:6 | A string is one of the four literals; see `ProgressPercent`, `StatusLabel` |
| `DeliveryCard.ParseStatus` | src/components/DeliveryCard.tsx:6 | A string reads as a status only if it is that status's literal, and reads as none only if it is no status's literal |
| `DeliveryCard.ParseStatusName` | src/components/DeliveryCard.tsx:6 | Every status's literal reads back as that status |
| `DeliveryCard.ProgressPercent` | src/components/DeliveryCard.tsx:47-55 | Progress lies in 0..100; it is 100 exactly for `delivered` and 0 exactly for a string that is none of the four statuses |
| `DeliveryCard.ProgressTable` | src/components/DeliveryCard.tsx:49-52 | pending is 10, in-transit 60, delivered 100, delayed 40 |
| `DeliveryCard.DelayedBehindInTransit` | src/components/DeliveryCard.tsx:49-52 | Progress is not monotone in elapsed time: pending < delayed < in-transit |
| `DeliveryCard.StatusLabel` | src/components/DeliveryCard.tsx:29-42 | The badge reads "Unknown" exactly for a string that is none of the four statuses |
| `DeliveryCard.StatusLabelInjective` | src/components/DeliveryCard.tsx:30-38 | The four badges are pairwise distinct |
| `DeliveryCard.ShowsEta` | src/components/DeliveryCard.tsx:111 | The footer's ETA condition; see `EtaShownWhileIncomplete` |
| `DeliveryCard.EtaShownWhileIncomplete` | src/components/DeliveryCard.tsx:111 | The footer's "ETA:" line is shown exactly when progress is below 100, that is, for every status but `delivered` |
| `DeliveriesPage.MockDeliveries` | src/pages/Deliveries.tsx:12-67 | The six built-in deliveries, field for field; see `MockCounts`, `MockActiveTab`, `MockDeliveredTab` |
| `DeliveriesPage.Tab` | src/pages/Deliveries.tsx:70 | The three tabs; see `TabsByStatus`, `ApplyTabIsFilter` |
| `DeliveriesPage.ItemMatches` | src/pages/Deliveries.tsx:88 | The lower-cased query occurs in a lower-cased item name; see `SearchFields`, `QueryCaseInsensitive` |
| `DeliveriesPage.MatchesSearch` | src/pages/Deliveries.tsx:84-89 | The lower-cased query occurs in the id, the destination or some item name; see `SearchFields`, `QueryExact` |
| `DeliveriesPage.SearchPredicate` | src/pages/Deliveries.tsx:85-88 | The search lambda; see `SearchGuardRedundant` |
| `DeliveriesPage.Search` | src/pages/Deliveries.tsx:83-90 | The guarded search step; see `SearchGuardRedundant`, `SearchAndTabCommute` |
| `DeliveriesPage.PassesTab` | src/pages/Deliveries.tsx:94-102 | The tab step's predicate; see `TabsByStatus`, `ActiveNotDelivered` |
| `DeliveriesPage.TabPredicate` | src/pages/Deliveries.tsx:94-102 | The tab lambda; see `ApplyTabIsFilter` |
| `DeliveriesPage.ApplyTab` | src/pages/Deliveries.tsx:93-103 | The guarded tab step; see `ApplyTabIsFilter`, `SearchAndTabCommute` |
| `DeliveriesPage.Query` | src/pages/Deliveries.tsx:78-103 | The list the page stores; see `QueryExact`, `QueryIdempotent`, `TabsWithinAll`, `TabsDisjoint`, `TabsCover` |
| `DeliveriesPage.QueryPredicate` | src/pages/Deliveries.tsx:83-103 | Both steps' predicates at once; see `QueryIsFilter` |
| `DeliveriesPage.CountsAsActive` | src/pages/Deliveries.tsx:115-117 | The counter's three-literal `includes` test, kept as written; see `CountsMatchTabs`, `CountsPartition` |
| `DeliveriesPage.CountsAsDelivered` | src/pages/Deliveries.tsx:118 | The counter's delivered test; see `CountsMatchTabs`, `CountsPartition` |
| `DeliveriesPage.HasUnknownStatus` | src/pages/Deliveries.tsx:114-118 | A status neither count includes; see `CountsPartition` |
| `DeliveriesPage.DeliveryCounts` | src/pages/Deliveries.tsx:120 | The three counts `getCounts` returns; see `CountsPartition` |
| `DeliveriesPage.DeliveriesView` | src/pages/Deliveries.tsx:123-196 | The stored list with the counts its tabs read; see `CountsAreTotals` |
| `DeliveriesPage.Render` | src/pages/Deliveries.tsx:123-196 | Pairs the list the effect stores with `getCounts()`; see `CountsAreTotals` |
| `DeliveriesPage.GetCounts` | src/pages/Deliveries.tsx:113-121 | The three tab counts; see `CountsPartition`, `CountsAddUp`, `CountsMatchTabs`, `CountsAreTotals` |
| `DeliveriesPage.SearchFields` | src/pages/Deliveries.tsx:84-89 | A delivery matches exactly when the query occurs in its id, its destination or some item name, all lower-cased; with no items, id and destination decide |
| `DeliveriesPage.SearchGuardRedundant` | src/pages/Deliveries.tsx:83-90 | Skipping the search for the empty query gives the same list as filtering by it |
| `DeliveriesPage.ApplyTabIsFilter` | src/pages/Deliveries.tsx:93-103 | Skipping the tab step for `all` gives the same list as filtering by it |
| `DeliveriesPage.QueryIsFilter` | src/pages/Deliveries.tsx:80-103 | Search then tab is one filter by both predicates |
| `DeliveriesPage.QueryExact` | src/pages/Deliveries.tsx:80-103 | The visible list is the base list's deliveries that match the search and belong on the tab, in base order and with their multiplicity |
| `DeliveriesPage.QueryNoOp` | src/pages/Deliveries.tsx:80-103 | An empty query on the `all` tab shows the base list unchanged |
| `DeliveriesPage.QueryIdempotent` | src/pages/Deliveries.tsx:80-103 | Running the query on its own result returns that result |
| `DeliveriesPage.SearchAndTabCommute` | src/pages/Deliveries.tsx:83-103 | The search and the tab filter commute |
| `DeliveriesPage.QueryCaseInsensitive` | src/pages/Deliveries.tsx:86-88 | Two queries that lower-case alike show the same deliveries |
| `DeliveriesPage.TabsByStatus` | src/pages/Deliveries.tsx:93-102 | `active` keeps exactly pending, in-transit and delayed; `delivered` keeps exactly delivered; `all` keeps everything |
| `DeliveriesPage.ActiveNotDelivered` | src/pages/Deliveries.tsx:95-100 | No delivery belongs on both the active and the delivered tab |
| `DeliveriesPage.TabsWithinAll` | src/pages/Deliveries.tsx:93-103 | For any query, each tab shows an order-preserving subsequence of the `all` tab |
| `DeliveriesPage.TabsDisjoint` | src/pages/Deliveries.tsx:95-100 | For any query, the active and delivered tabs share no delivery |
| `DeliveriesPage.TabsCover` | src/pages/Deliveries.tsx:93-103 | When every status is one of the four, the active and delivered tabs together hold exactly the `all` tab's deliveries, for any query |
| `DeliveriesPage.CountsPartition` | src/pages/Deliveries.tsx:113-121 | active + delivered + the number of unrecognised statuses equals all |
| `DeliveriesPage.CountsAddUp` | src/pages/Deliveries.tsx:114-118 | When every status is one of the four, active + delivered equals all |
| `DeliveriesPage.CountsMatchTabs` | src/pages/Deliveries.tsx:113-121 | Each tab count is the length of that tab's list for an empty query, although the counter's active test is written differently from the tab's |
| `DeliveriesPage.CountsAreTotals` | src/pages/Deliveries.tsx:112-123 | The tab counts do not depend on the search or the selected tab, and each is at least the matching count over the visible list |
| `DeliveriesPage.MockCounts` | src/pages/Deliveries.tsx:12-67 | Over the built-in list the counts are 6 in all, 4 active, 2 delivered |
| `DeliveriesPage.TabsOfSix` | src/pages/Deliveries.tsx:93-103 | For any six deliveries whose statuses follow the base list's order, with an empty query, the active tab keeps the 1st, 2nd, 4th and 5th and the delivered tab the 3rd and 6th, in order |
| `DeliveriesPage.MockActiveTab` | src/pages/Deliveries.tsx:12-67 | With an empty query the active tab shows DEL-001, 002, 004 and 005, in that order |
| `DeliveriesPage.MockDeliveredTab` | src/pages/Deliveries.tsx:12-67 | With an empty query the delivered tab shows DEL-003 and DEL-006, in that order |
| `DeliveriesPage.OneOfEachStatus` | src/pages/Deliveries.tsx:93-121 | With one delivery of each status, `active` shows the three that are not delivered, and the counts are 4, 3 and 1 |

## Left out

- React plumbing is not modelled: `useState`, `useEffect`, the 100 ms `setTimeout` that fades the list in, and all JSX. The model computes the list the effect would store, as a function of the base list, the query and the selected option or tab.
- Badge colours and icons are not modelled. Only the badge texts are.
- `toLowerCase` is modelled for the ASCII letters only. Full Unicode case mapping, which can change a string's length, is not modelled.
- Stock and threshold are JavaScript numbers. The model takes them as unbounded integers; fractional values, `NaN` and infinities are not modelled.
- `location`, `lastUpdated`, `estimatedArrival`, `createdAt` and `quantity` are carried as opaque values, because the core only displays them.
- The tab bar hands the page the clicked trigger's value (one of "all", "active" and "delivered"), cast to `TabValue`. The model's `Tab` has just those three tabs, so the filters' final `return true` fallback is reached only through `all`. The inventory page's buttons pass literal options, and the model's `FilterOption` has the type's four values, so its fallback is likewise reached only through `all`.
- `InventoryItem.StatusText` has no "Unknown" case, because `GetStatus` always yields one of the three statuses.
- src/pages/Index.tsx, src/components/Navbar.tsx, src/components/DashboardCard.tsx and src/components/AnimatedTransition.tsx are not part of this model. They hold fixed dashboard figures, charts, scroll handling and animation, with no decision logic.
