# Mandi price API: the query engine

This project models the query engine of a small HTTP service that serves agricultural market
("mandi") prices. The service holds one dataset of price records. Each record has a `state`, a
`district`, a `commodity`, a `market` and three prices: `min_price`, `max_price` and
`modal_price`. Four endpoints compute their answers from that dataset:

- `/api/commodities/:type1/:value1/.../:type4?/:value4?` is the general filter chain. Each
  path pair whose type and value are both present names an attribute and a value. Records are
  kept when the attribute contains the value, ignoring case. A request that names only a
  state takes a separate shortcut. The `state`, `district`, `commodity` and `market`
  query-string parameters then keep only records whose field equals them, ignoring case.
- `/api/commodity/...` is the strict chain. It builds and type-checks the path pairs as the
  general chain does, but needs exact equality (still ignoring case). It has no state shortcut
  and reads no query string. An empty result is "No matching records found".
- `/api/unique/:type?` lists the distinct values of each attribute in order of first
  occurrence. It answers with one list, or with all four when no known key is asked for.
- `/api/stats/:commodity?` summarises the records. The input is all records, or those of one
  commodity. The summary holds:
  - the count and the distinct commodities;
  - the least `min_price` and the greatest `max_price`;
  - the modal-price sum;
  - the five records with the highest modal price;
  - the records grouped by state.

  The stats endpoint sorts the records in place. When no commodity is given, those records
  are the shared dataset itself.

Modules:

- `Results` holds `Option` and `Result`.
- `Text` holds ASCII lower-casing, case-insensitive equality and substring search.
- `Collections` holds:
  - `Select`, which is `Array.prototype.filter`;
  - `Distinct`, which is `[...new Set(xs)]`;
  - `IsSubsequence` and `FirstIndex`.
- `Mandi` holds the record, the four attributes and `validTypes`.
- `Filtering` holds both filter chains.
- `Unique` holds the distinct-values endpoint.
- `Statistics` holds the summary and the `Store` class, which owns the shared dataset.

Each filter chain appears twice. A specification function (`General`, `Strict`, `PathChain`)
states the answer as one selection over the data, using all the tests at once. A method
(`GeneralQuery`, `StrictQuery`, `ApplyPathFilters`, `ApplyRefinements`) narrows the records
step by step, as the handler does. Each method is proved to equal its specification function.

## Model

| member | source | states |
|---|---|---|
| Mandi.ParseType | server.js:13 | a type name is accepted exactly when it is one of "state", "district", "commodity", "market" (case-sensitive), and it maps to the attribute of that name |
| Mandi.ColumnMembership | server.js:172-175 | a value occurs in `records.map(r => r[a])` exactly when some record carries it in attribute `a` |
| Collections.SelectMembership | server.js:68-72 | `filter` keeps exactly the elements that pass the callback |
| Collections.SelectMultiset | server.js:90-94 | `filter` keeps every passing element as often as it occurs and drops all others |
| Collections.SelectIsSubsequence | server.js:90-94 | `filter` preserves the order of what it keeps |
| Collections.Distinct | server.js:172-175 | `[...new Set(xs)]` holds exactly the values of `xs`, with no duplicates |
| Collections.DistinctInFirstOccurrenceOrder | server.js:172-175 | the distinct values appear in the order in which they first occur |
| Collections.FirstIndex | server.js:172-175 | the position of the first occurrence of a value, which holds the value and has no earlier occurrence |
| Text.ContainsAt | server.js:91-93 | `includes` holds exactly when the needle occurs at some offset of the haystack |
| Text.EqualImpliesContains | server.js:153-157 | case-insensitive equality implies case-insensitive containment |
| Filtering.ParamFilters | server.js:75-80 | `paramFilters` holds exactly the pairs that have both a truthy type and a truthy value, and never more than the route gives |
| Filtering.ParamFiltersIgnoreDropped | server.js:80 | a pair missing its type or its value has no influence on the filters |
| Filtering.ApplyPathFilters | server.js:82-95 | the `forEach` chain of filters yields the records passing every filter at once, in data order, or the "Invalid type" error as soon as one type is outside the four |
| Filtering.StageStep | server.js:98-120 | each query-string `if` narrows the records by one more equality test, or changes nothing when its parameter is absent or empty |
| Filtering.ApplyRefinements | server.js:98-120 | the four query-string `if`s keep exactly the records that equal every truthy parameter in its field, in order |
| Filtering.ShortcutFilter | server.js:67-72 | the state-only shortcut selects the same records as a chain made of the single filter (state, value1) |
| Filtering.GeneralQuery | server.js:57-127 | the general handler answers the one-pass selection `General`: an invalid type is an error, and otherwise the result is the records passing every path filter and every refinement |
| Filtering.GeneralSound | server.js:75-120 | the general result is an order-preserving subsequence of the data. Each kept record's named fields contain every path value and equal every truthy query parameter, ignoring case. A record occurs in the result exactly as often as in the data when it passes, and not at all otherwise |
| Filtering.GeneralFailsOnInvalidType | server.js:83-88 | the general endpoint fails exactly when the shortcut is not taken and some kept pair has a type outside the four; the error carries exactly the four-element list and the text "Invalid type" |
| Filtering.StateShortcutIsGeneric | server.js:67-80 | when only `type1 = "state"` and `value1` are present, the shortcut's filter list equals the generic `paramFilters` |
| Filtering.RefinementsNarrowPathResult | server.js:98-120 | the query-string refinements are further AND conditions on the path-filtered result, so the general result is a subsequence of the path-only result |
| Filtering.AbsentRefinementsChangeNothing | server.js:98-120 | absent or empty query parameters leave the general result unchanged |
| Filtering.ExactPassesSubstring | server.js:90-94 | a record passing a filter by exact match also passes it by substring |
| Filtering.StrictQuery | server.js:129-166 | the strict handler answers the one-pass selection `Strict`. It reports "No matching records found" exactly when all types are valid and no record equals every filter value |
| Filtering.StrictWithinGeneral | server.js:90-94 | for the same route, the strict result is the general result (without query string) narrowed by the exact tests, and so a subsequence of it |
| Filtering.ReapplyingFilterChangesNothing | server.js:82-95 | repeating a filter that is already in the chain changes nothing |
| Unique.UniqueListSpec | server.js:171-176 | each `uniqueOptions` list has no duplicates, contains a value exactly when some record has it in that attribute, and lists values in order of first occurrence |
| Unique.UniqueQuery | server.js:178-187 | one of the four keys answers with that key's list; a missing, empty or unknown key answers with all four lists and the available keys in declaration order |
| Statistics.MinPrice | server.js:213 | the result is at most every record's `min_price` and equal to one of them |
| Statistics.MaxPrice | server.js:214 | the result is at least every record's `max_price` and equal to one of them |
| Statistics.Insert | server.js:220 | insertion adds exactly the one record to the multiset |
| Statistics.InsertSorted | server.js:220 | inserting into a list sorted by descending modal price keeps it sorted |
| Statistics.SortByModalDesc | server.js:220 | the sort yields a permutation of its input, non-increasing in modal price |
| Statistics.SortIsStable | server.js:220 | the sort is stable: records of equal modal price keep their relative order |
| Statistics.SortSortedIsIdentity | server.js:220 | sorting an already sorted list changes nothing, so a repeated stats call leaves the dataset as the first left it |
| Statistics.TopMarketsSpec | server.js:219-221 | `topMarkets` has length min(5, n), is non-increasing in modal price and is a sub-multiset of the records; no record left out has a higher modal price than a record kept |
| Statistics.StatewisePartition | server.js:222-226 | each record lies in the group of its own state and in no other, and the group sizes sum to the record count |
| Statistics.GroupByState | server.js:222-226 | the `reduce` lists the state keys in order of first occurrence, has exactly those keys, and each group holds the records of that state in input order |
| Statistics.ReorderKeepsSelection | server.js:193 | after the dataset is reordered, any filter selects the same records with the same multiplicities, only in another order |
| Statistics.SortKeepsGeneralAnswers | server.js:64 | after the stats sort has reordered the shared dataset, the general endpoint fails for the same requests and otherwise returns the same records with the same multiplicities, now in descending modal-price order |
| Statistics.Aggregate | server.js:209-227 | `totalRecords` is the count and `uniqueCommodities` the distinct commodities in first-occurrence order. `minPrice` and `maxPrice` are the attained extremes and the modal sum is the sum of the modal prices. `topMarkets` is the first five of the sorted records, and `statewise` holds the groups of the sorted records |
| Statistics.StatsInputEmptyIff | server.js:195-207 | the input is empty exactly when a truthy commodity matches no record (ignoring case), or when no commodity is given and there are no records |
| Statistics.StatsQuery | server.js:190-230 | the handler fails with "No records found for this commodity" exactly when its input is empty, and otherwise returns the statistics of its input |
| Statistics.Store.Commodities | server.js:64 | the general handler reads the current shared dataset and answers `General` over it |
| Statistics.Store.CommodityExact | server.js:136 | the strict handler reads the current shared dataset and answers `Strict` over it |
| Statistics.Store.Unique | server.js:171-187 | the distinct-values handler answers `UniqueQuery` over the current shared dataset |
| Statistics.Store.Stats | server.js:190-230 | `Stats` on the shared dataset returns the same answer as `StatsQuery`. Without a commodity, a successful call leaves the dataset sorted by descending modal price; in every other case the dataset is unchanged. The dataset always keeps the same records |

## Left out

- Express routing, extraction of `req.params` and `req.query`, status codes and JSON
  serialisation. The path pairs and the query string are parameters. `Statistics.Store` holds
  the shared dataset. Its methods run the four handlers on that dataset, and only `Stats`
  changes it.
- Records keep only the seven modelled fields. Any other field a record carries in the data
  file passes through into responses, but is not modelled. So two records that agree on these
  seven fields are one value here. The multiplicity clauses (`Filtering.GeneralSound`,
  `Statistics.ReorderKeepsSelection`) and the stability of the sort
  (`Statistics.SortIsStable`) count and order such records as copies of one value; they
  cannot tell them apart.
- `loadData` and the file it reads. The dataset is a given sequence of records.
- `decodeURIComponent`: path values are taken as already decoded.
- `toLowerCase` is modelled as ASCII lower-casing. Other Unicode case mappings are not
  modelled.
- Prices are integers. The floating-point `avgModalPrice` (the sum divided by the count) is
  represented by its numerator `modalSum` and its denominator `totalRecords`. The comparator
  on `NaN` or non-numeric prices is not modelled.
- `Math.min(...)` and `Math.max(...)` on argument lists too large for the engine's stack are
  not modelled.
- An invalid path type is a clean `InvalidType` error. In the handler, the `return` inside
  `forEach` only leaves the callback. The loop goes on, and the final `res.json` then tries to
  send a second response after the 400 has been sent. That second attempt is not modelled.
- Keys inherited from the JavaScript object prototype (such as `constructor`) are not
  modelled:
  - `/api/unique/:type?` would treat such a key as present;
  - the `statewise` accumulator would find such a key already set.

  Only the four named keys are modelled, and state names are plain keys of a map.
- JavaScript lists integer-like object keys (a state named "12", say) before other keys. The
  `statewise` key order is modelled as plain insertion order.
- Query-string parameters given more than once (arrays in Express) are not modelled. Each is
  an optional string.
- The `/` and `/api/commodities` handlers, the error middleware, and the server configuration
  and start-up are not part of this model. They only pass data through or configure the
  server.
- The sort that `/api/stats` performs reorders the shared dataset whenever no commodity is
  given. The model follows the code here and does not sort a copy (`Statistics.Store.Stats`).
  `Statistics.ReorderKeepsSelection` and `Statistics.SortKeepsGeneralAnswers` show that later
  queries see the same records, possibly in another order.
