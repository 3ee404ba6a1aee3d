# Top stock performance: the ranking of the QueryData function

The QueryData HTTP function answers one request: a KPI name and an inclusive
date window. It returns the ten companies ranked best by that KPI. This
project models the part of `AzureFunction.Run` that computes the answer.

1. **Query** (`TableQuery`). It keeps the rows of the "stocksinfo" table
   whose partition key is the KPI and whose date lies in the window. It
   projects each row to its symbol (row key) and price, in table order.
2. **Order** (`PriceOrder`). The KPIs `"low"` and `"price to earn ratio"` rank
   the smallest values first. Every other KPI string ranks the largest first,
   including strings the service does not know. The ordering is stable, like
   LINQ `OrderBy` and `OrderByDescending`: records with equal values keep
   their table order. `OrderByPrice` is an insertion sort. It is proved
   sorted, a permutation and tie-stable. It is also proved to be the only
   sequence with those properties (`StableSortIsUnique`).
3. **Scan** (`Ranking`). `RankTop` is the service's loop. It keeps a rank
   counter from 1 and consults a dictionary of added companies. It looks up
   each display name in the company table and stops once ten entries exist.
   A symbol missing from the company table makes the dictionary indexer
   throw. The model returns that as `Failure(KeyNotFound(symbol))`, and no
   response is produced. `RankTop` is proved equal to the specification
   function `Ranked`. `Ranked` states the result in closed form: entry `i` has
   rank `i + 1` and the `i`-th sorted record's symbol, name and value, for the
   first `min(10, n)` records. Otherwise the error names the first of those
   records whose name is missing.
4. **Request** (`AzureFunction`). `Run` chains the three steps with the fixed
   company table `COMPANIES`. `Response` is the same chain as a function. The
   name table is a parameter of `Ranked` and `Response`, so the lemmas hold
   for any name table.

The added-companies dictionary is read at line 127 but never written. So the
service's scan never skips a record. The comment at lines 124-126 says a
company that already has an entry is skipped, so that each company is ranked
once. The model follows the code: `Run` ranks every record. `RankTopDistinct`
and `RunDistinct` are the corrected scan that records each added company.
They are proved to rank each company once, with its best value (see
Findings). The difference shows only for a table holding several rows of one
company under one KPI. The storage key (KPI partition plus symbol row key)
rules such a table out, so in the deployed service the defect is latent (see
Left out).

Display names are looked up only for the symbols the scan emits, which are at
most the first ten sorted records. A symbol without a name further down never
fails the request (`RankedReadsTopNames`, `UnknownSymbolFails`).

Values are modelled as `real` and dates as `int`: the ranking only compares
them. The table, which the service reads from storage, is a parameter of
`Run`.

## Model

| member | source | states |
|---|---|---|
| `StockRecords.TopCount` | TopStockPerformanceService/QueryData.cs:113-119 | The number of entries emitted from n sorted records is min(n, 10). |
| `PriceOrder.DirectionOf` | TopStockPerformanceService/QueryData.cs:103-110 | The order is ascending exactly when the KPI is "low" or "price to earn ratio". Every other string is descending. |
| `PriceOrder.Insert` | TopStockPerformanceService/QueryData.cs:105-109 | Inserting into a sorted sequence keeps it sorted. The result holds the old records plus the new one. Its head is the new record or the old head. |
| `PriceOrder.OrderByPrice` | TopStockPerformanceService/QueryData.cs:103-110 | The ordering is sorted in the given direction and is a permutation of its input. |
| `PriceOrder.WithPriceAppend` | TopStockPerformanceService/QueryData.cs:105-109 | The records with a given value in a concatenation are those of the first part, then those of the second. |
| `PriceOrder.InsertKeepsTies` | TopStockPerformanceService/QueryData.cs:105-109 | An inserted record goes before every record with an equal value. The order among equal values is otherwise unchanged. |
| `PriceOrder.SortKeepsTies` | TopStockPerformanceService/QueryData.cs:105-109 | The sort is stable: for every value, the records with that value keep their input order. |
| `PriceOrder.SortedTiesDetermine` | TopStockPerformanceService/QueryData.cs:105-109 | Two sequences sorted in one direction with the same order among equal values are equal. |
| `PriceOrder.StableSortIsUnique` | TopStockPerformanceService/QueryData.cs:103-110 | Any sequence that is sorted in the direction and tie-stable with the input equals OrderByPrice of the input. |
| `PriceOrder.WithPricePrefix` | TopStockPerformanceService/QueryData.cs:115-119 | Cutting a sorted list after k records keeps, for each value, a prefix of its equal-valued records. |
| `TableQuery.Query` | TopStockPerformanceService/QueryData.cs:97-100 | The query returns at most as many records as the table has rows. |
| `TableQuery.QueryMembers` | TopStockPerformanceService/QueryData.cs:97-100 | A record is selected exactly when some row has the KPI as partition, a date with start <= date <= end, and that record's symbol and price. |
| `TableQuery.QueryAppend` | TopStockPerformanceService/QueryData.cs:97-100 | The query keeps table order: querying a concatenation concatenates the queries. |
| `TableQuery.QueryUnselected` | TopStockPerformanceService/QueryData.cs:98 | Rows of another KPI or outside the window give no records. |
| `TableQuery.QueryDropsUnselected` | TopStockPerformanceService/QueryData.cs:97-100 | Removing unselected rows from anywhere in the table leaves the query unchanged. |
| `Ranking.FirstUnnamed` | TopStockPerformanceService/QueryData.cs:131 | The first index whose symbol has no display name. Every earlier symbol has one. |
| `Ranking.Label` | TopStockPerformanceService/QueryData.cs:127-136 | Labelling succeeds exactly when every symbol has a name. Then entry i has rank start+i and record i's symbol, name and value. Otherwise the error names the first unnamed symbol. |
| `Ranking.Ranked` | TopStockPerformanceService/QueryData.cs:113-137 | Success exactly when the first min(10, n) sorted symbols all have names. Then there are min(10, n) entries, entry i has rank i+1 and sorted record i's symbol, name and value, and duplicates are not skipped. Otherwise KeyNotFound names the first unnamed symbol among them. |
| `Ranking.RankTop` | TopStockPerformanceService/QueryData.cs:113-137 | The loop (rank counter, never-filled added-companies dictionary, break once rank > 10, throwing lookup) returns exactly Ranked. |
| `Ranking.RankedFailsAt` | TopStockPerformanceService/QueryData.cs:127-131 | A scan that meets an unnamed symbol before ten entries fails with that symbol. |
| `Ranking.RankedFromPrefix` | TopStockPerformanceService/QueryData.cs:115-137 | A scan that labelled a prefix and stopped at ten entries or at the end has built the response. |
| `Ranking.RankedReadsTopNames` | TopStockPerformanceService/QueryData.cs:117-119 | Only the names of the first ten sorted symbols are looked up. Name tables that agree on them give the same response. |
| `Ranking.RankedIgnoresTail` | TopStockPerformanceService/QueryData.cs:117-119 | Records sorted after the tenth never change the response. |
| `DistinctRanking.FirstOccurrences` | TopStockPerformanceService/QueryData.cs:124-127 | Keeps the first record of each company and covers the same set of symbols as its input. |
| `DistinctRanking.FirstOccurrencesDistinct` | TopStockPerformanceService/QueryData.cs:124-127 | No company is kept twice. |
| `DistinctRanking.FirstOccurrencesAreFirst` | TopStockPerformanceService/QueryData.cs:124-127 | Each kept record is the first record of its company in the input. |
| `DistinctRanking.FirstOccurrencesPrefix` | TopStockPerformanceService/QueryData.cs:115-127 | The first occurrences of a prefix are a prefix of the first occurrences of the whole. |
| `DistinctRanking.FirstOccurrencesSorted` | TopStockPerformanceService/QueryData.cs:103-127 | Keeping the first record of each company keeps a sorted list sorted. |
| `DistinctRanking.FirstOccurrencesSubset` | TopStockPerformanceService/QueryData.cs:124-127 | Every kept record is a record of the input. |
| `DistinctRanking.FirstOccurrencesCount` | TopStockPerformanceService/QueryData.cs:124-127 | One record is kept per company: the kept records number the distinct symbols. |
| `DistinctRanking.FirstOccurrencesStep` | TopStockPerformanceService/QueryData.cs:127 | One more record adds itself exactly when its company is new. |
| `DistinctRanking.SkippedStep` | TopStockPerformanceService/QueryData.cs:127 | A record of an already added company leaves the kept records and the added companies unchanged. |
| `DistinctRanking.AddedStep` | TopStockPerformanceService/QueryData.cs:127-135 | Adding a new company appends its record and its symbol to the dictionary. |
| `DistinctRanking.DistinctScanFails` | TopStockPerformanceService/QueryData.cs:131 | The corrected scan fails at a new company without a display name. |
| `DistinctRanking.DistinctScanDone` | TopStockPerformanceService/QueryData.cs:115-137 | The corrected scan that ends or reaches ten entries has built the deduplicated response. |
| `DistinctRanking.DistinctKeepsBest` | TopStockPerformanceService/QueryData.cs:124-126 | In a sorted list, each deduplicated entry's value may precede every value of the same company. |
| `DistinctRanking.RankTopDistinct` | TopStockPerformanceService/QueryData.cs:113-137 | The corrected loop, which fills the added-companies dictionary, returns Ranked of the first occurrences. |
| `AzureFunction.Run` | TopStockPerformanceService/QueryData.cs:97-137 | The handler's result equals Response for the table, KPI, window and company table. It is a function of the table's row order, so equal inputs give equal responses. |
| `AzureFunction.ResponseRanksStableSort` | TopStockPerformanceService/QueryData.cs:97-137 | The response ranks the one ordering of the selected records that is sorted in the KPI's direction and tie-stable. |
| `AzureFunction.ResponseOrdered` | TopStockPerformanceService/QueryData.cs:103-136 | A successful response has min(10, selected) entries ranked 1..k. Values are non-decreasing for an ascending KPI and non-increasing otherwise. |
| `AzureFunction.ResponseKeepsTieOrder` | TopStockPerformanceService/QueryData.cs:105-136 | For each value, the response's entries with that value are a prefix of the selected records with that value, in table order. |
| `AzureFunction.ResponseFromSelectedRows` | TopStockPerformanceService/QueryData.cs:97-136 | Every entry carries the symbol and value of a row of the KPI dated inside the window. |
| `AzureFunction.ResponseIgnoresUnselected` | TopStockPerformanceService/QueryData.cs:97-100 | Rows of other KPIs or outside the window never change the response. |
| `AzureFunction.EmptySelectionGivesEmptyResponse` | TopStockPerformanceService/QueryData.cs:97-137 | With no selected row the response is an empty success. |
| `AzureFunction.RepeatedSymbolIsNotSkipped` | TopStockPerformanceService/QueryData.cs:114-136 | Two selected rows of "dx" give two entries, both for "dx". |
| `AzureFunction.UnknownSymbolFails` | TopStockPerformanceService/QueryData.cs:64-76 | The first of the top ten sorted symbols missing from the company table fails the request with KeyNotFound for it. |
| `AzureFunction.RunDistinct` | TopStockPerformanceService/QueryData.cs:97-137 | The handler with the corrected scan equals ResponseDistinct. |
| `AzureFunction.DistinctResponseHasNoRepeats` | TopStockPerformanceService/QueryData.cs:124-126 | With the corrected scan, no symbol appears twice. |
| `AzureFunction.DistinctResponseOrdered` | TopStockPerformanceService/QueryData.cs:103-136 | With the corrected scan, a successful response has min(10, distinct selected symbols) entries ranked 1..k, with values in the KPI's direction. |
| `AzureFunction.DistinctResponseKeepsBest` | TopStockPerformanceService/QueryData.cs:124-126 | With the corrected scan, each entry's symbol and value are a selected record, and its value may precede every selected value of the same company in the KPI's direction: it is the company's best selected value. |
| `AzureFunction.RepeatedSymbolIsSkippedWhenDistinct` | TopStockPerformanceService/QueryData.cs:124-126 | With the corrected scan, the two "dx" rows give one entry with the higher value. |

## Left out

- The HTTP trigger, reading and deserialising the request body, and the `OkObjectResult` wrapping (QueryData.cs:79-87, 139). These are transport; the model takes the KPI and the window as parameters.
- The uniqueness and order of the storage key. In Azure Table storage the partition key plus the row key identifies an entity, and the row key is the company symbol (QueryData.cs:52, 130-131), so one KPI partition holds at most one row per symbol, and a partition's rows come back ordered by row key. The model's table is any sequence of rows: it allows repeated (KPI, symbol) rows and any row order. Ties in value therefore keep the model's table order, which in the store is symbol order.
- `GetCloudClient`, the table reference and the query execution against Azure Table storage (QueryData.cs:90-91, 144-150). The table is a sequence parameter and the query a filter over it.
- The `StockInfoEntity` persistence class (QueryData.cs:47-59). It is kept only as the `StockInfo` record.
- The projection at line 99 also keeps the partition key. The model's `Tick` holds only the symbol and price, the only fields read after the filter.
- `async`/`Task` (QueryData.cs:79, 83). The computation has no concurrency.
- IEEE double semantics, including NaN under LINQ's comparer. Values are `real`, totally ordered.
- `DateTime` calendar semantics. Dates are integers compared as the source compares dates.
- 32-bit overflow of the `rank` counter. It never exceeds 11, so it cannot overflow.

## Findings

| source | as written | input that shows it | evidently intended | confidence | as-written member | corrected member |
|---|---|---|---|---|---|---|
| TopStockPerformanceService/QueryData.cs:114-136 | `addedCompanies` is never inserted into, so the skip test at line 127 always passes: no sorted record is skipped, so the first ten sorted records are all ranked | Rows ("high", "dx", day 3, 7.0) and ("high", "dx", day 4, 5.0), KPI "high", window 1..5: ranks 1 and 2 are both "dx". Such a table repeats the storage key (KPI, symbol), which Azure Table storage does not allow, so the defect is latent there | Each company is ranked once, by its first (best) record in sorted order, as the comment at lines 124-126 says | high; not executed | `AzureFunction.RepeatedSymbolIsNotSkipped` | `DistinctRanking.RankTopDistinct` |
