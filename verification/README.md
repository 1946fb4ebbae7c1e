# Sales analytics pipeline — a Dafny model

This project models the analytics core of a small sales-reporting tool. The
tool reads `|`-delimited sales lines into transaction records. It validates
and filters them, then computes grouped rollups: total revenue, sales per
region, top and low-performing products, per-customer figures, the daily
trend and the peak day. Finally it enriches every record with the category
and brand of a catalogue product, matched first by numeric product id and
then by a case-insensitive title match. The computed figures of the sales
report are modelled as well.

The source functions work by loops that append to lists and update
dictionary accumulators in place. Each such loop is a Dafny `method` with a
loop, proved equal to a specification function, and the properties are
lemmas about those functions. `top_selling_products` and
`low_performing_products` share one aggregation loop, and the metrics of
`generate_sales_report` call the modelled methods without a loop of their own.

- A Python dict, which keeps insertion order, is modelled as the sequence of
  its keys in first-seen order plus a `map`.
- Module `Grouping` holds the group-by that every aggregator shares.
  - `Of(g, txs, k)` is the records filed under key `k`.
  - `Keys(g, txs)` is the dict's key order.
  - `Tally(g, txs, zero, step)` is the accumulator dict a loop builds.
- Python's `sorted`/`list.sort` are builtins. They are modelled as
  insertion-sort functions in `Sorting`: one sorts by a numeric rank
  (descending), one by a string key (ascending, code-point order). Both are
  stable, but stability is proved only for the rank sort, where ties occur.
  The string sort is only applied to distinct keys (dates, customers'
  product names, unmatched names) or to strings that are their own key.
  There, being ascending and a permutation already fixes the result.
- Amounts are exact reals (`Quantity × UnitPrice`). `round(x, 2)` is
  `Numbers.Round2`, which rounds half up to the nearest cent.

Modules and files:

| file | module | models |
|---|---|---|
| wrappers.dfy | Wrappers | `Option`, `Result` |
| records.dfy | Records | the transaction record and its amount |
| text.dfy | Text | `split`, `replace(",", "")`, `strip`, `lower`, `in`, digit filter, string order |
| numbers.dfy | Numbers | `int()`/`float()` of decimal text, `round(x, 2)` |
| sorting.dfy | Sorting | the two sorts, permutations, sums over sequences |
| grouping.dfy | Grouping | insertion-ordered group-by |
| parser.dfy | Parser | `parse_transactions` |
| validation.dfy | Validation | `validate_and_filter` |
| revenue.dfy | Revenue | `calculate_total_revenue` |
| regions.dfy | Regions | `region_wise_sales` |
| products.dfy | Products | `top_selling_products`, `low_performing_products` |
| customers.dfy | Customers | `customer_analysis` |
| daily.dfy | Daily | `daily_sales_trend` |
| peak.dfy | Peak | `find_peak_sales_day` |
| enrichment.dfy | Enrichment | `create_product_mapping`, `enrich_sales_data` |
| report.dfy | Report | the metrics of `generate_sales_report` |

Two crashes in the source are modelled as `Failure` results, not excluded by
preconditions:

- `region_wise_sales` divides by the total revenue. It raises
  `ZeroDivisionError` when there are records but their total amount is 0.
- `enrich_sales_data` calls `.lower()` on a catalogue title. It raises
  `AttributeError` when the title fallback reaches a product without a
  title.

## Model

| member | source | states |
|---|---|---|
| Parser.ParseLine | utils/data_processor.py:9-41 | A line gives a record only if it has exactly 7 pipe separators (8 fields). The kept product name holds no comma, and no field holds a pipe. |
| Parser.ParseLineDropsBadNumbers | utils/data_processor.py:26-41 | A line of 8 pipe-free fields is dropped when its quantity or its unit price does not parse once commas are removed. |
| Parser.ParseLineOfFields | utils/data_processor.py:9-41 | Take 8 pipe-free fields whose quantity and price parse once commas are removed. Their joined line parses to exactly those fields: strings copied verbatim, commas removed from the name, numbers parsed. |
| Parser.ParseTransactions | utils/data_processor.py:1-49 | The loop returns `ParsedAll(lines)`: at most one record per line, and no product name holds a comma. |
| Parser.ParsedAllSpec | utils/data_processor.py:6-49 | There are never more records than lines, and no kept product name holds a comma. |
| Parser.ParsedAllConcat | utils/data_processor.py:8-47 | Lines are parsed one at a time, in order: parsing two batches is parsing each and concatenating, so output order follows input order. |
| Text.SplitJoin | utils/data_processor.py:9 | Joining the pieces of a split on the pipe gives the line back. There is one more piece than separators, and no piece holds the separator. |
| Text.JoinSplit | utils/data_processor.py:9 | Splitting the join of separator-free pieces gives the pieces back. |
| Text.RemoveChar | utils/data_processor.py:26-30 | `replace(",", "")` leaves no comma, is never longer, and keeps only characters of the input. |
| Text.RemoveCharConcat | utils/data_processor.py:26-30 | Removal works piece by piece: the result for `a + b` is the result for `a` followed by the result for `b`. |
| Text.RemoveCharChar | utils/data_processor.py:26-30 | A single character is dropped exactly when it is the removed one. With the concatenation lemma, every other character is kept, in order. |
| Text.RemoveAbsentChar | utils/data_processor.py:26-30 | Removing a character that does not occur changes nothing. |
| Text.StripSpec | utils/data_processor.py:210 | `strip()` yields a slice of its input with only whitespace before and after it, and neither of its ends is whitespace. |
| Text.StripEmptyIff | utils/data_processor.py:210-212 | A customer id strips to empty exactly when it is all whitespace. |
| Text.KeepDigits | utils/api_handler.py:72 | The digit filter keeps only digits and is never longer than its input. |
| Text.KeepDigitsConcat | utils/api_handler.py:72 | The filter works piece by piece: the result for `a + b` is the result for `a` followed by the result for `b`. |
| Text.KeepDigitsChar | utils/api_handler.py:72 | A single character is kept exactly when it is a digit. With the concatenation lemma, every digit is kept, in order. |
| Text.KeepDigitsEmptyIff | utils/api_handler.py:72 | The digit filter gives "" exactly when the product id has no digit. |
| Text.Lower | utils/api_handler.py:82-83 | `lower()` keeps the length and lowers each character. |
| Text.IsSubstringIff | utils/api_handler.py:82-83 | `a in b` on strings holds exactly when `a` occurs at some index of `b`. |
| Text.BelowTotal | utils/data_processor.py:272 | Any two strings are comparable in Python's string order. |
| Text.BelowTransitive | utils/data_processor.py:272 | Python's string order is transitive. |
| Text.BelowAntisymmetric | utils/data_processor.py:272 | Two strings each below the other are equal. |
| Text.BelowReflexive | utils/data_processor.py:272 | Every string is below itself. |
| Numbers.NatToStringRoundTrip | utils/data_processor.py:29 | The decimal digits of `n` read back as `n`. |
| Numbers.ParseIntRoundTrip | utils/data_processor.py:29 | `int()` of the decimal text of any integer, sign included, is that integer. |
| Numbers.ParseIntDigits | utils/api_handler.py:72 | `int()` of a non-empty digit string, with or without a minus sign, is the number those digits spell. |
| Numbers.ParseDecimalExtendsParseInt | utils/data_processor.py:29-30 | `float()` accepts every string `int()` accepts, with the same value. |
| Numbers.ParseDecimalPoint | utils/data_processor.py:30 | `float("W.F")` of digit strings is W plus the fraction F. |
| Numbers.PriceRoundTrip | utils/data_processor.py:30 | A price written as whole units, a point and two cent digits parses to exactly that amount. |
| Numbers.Round2 | utils/data_processor.py:129 | `round(x, 2)` is a whole number of cents, within half a cent of `x`. |
| Numbers.Round2Nearest | utils/data_processor.py:129 | No whole number of cents is closer to `x` than `round(x, 2)`. |
| Numbers.Round2Monotone | utils/data_processor.py:129 | Rounding never reverses the order of two amounts. |
| Numbers.Round2Idempotent | utils/data_processor.py:129 | A rounded amount rounds to itself. |
| Records.PositiveTotal | utils/data_processor.py:59-72 | Records with positive quantities and prices have a positive total amount. |
| Validation.ValidateAndFilter | utils/data_processor.py:52-116 | The loops return the records that are valid, in the requested region and within the inclusive bounds, in input order. `invalid_count` is the number of invalid records. `filtered_by_region` is what the region stage removes from the valid records, `filtered_by_amount` is what the amount stage removes after it, `total_input == invalid + filtered_by_region + filtered_by_amount + final_count`, and `final_count` is the output length. `filtered_by_region` is 0 without a truthy region, and `filtered_by_amount` is 0 without bounds. |
| Validation.ValidationPhase | utils/data_processor.py:59-78 | The validation loop keeps exactly the valid records, in order, and counts the others. |
| Validation.AmountFilter | utils/data_processor.py:91-106 | The amount loop keeps exactly the records within the given bounds, in order. |
| Validation.StagesSelect | utils/data_processor.py:59-106 | Validation, then the region filter, then the amount filter, equals one pass that keeps each record meeting all three tests. |
| Validation.SelectedMembers | utils/data_processor.py:59-106 | A record is returned exactly when it is in the input and passes validity, region and bounds. |
| Validation.SelectedIsSubsequence | utils/data_processor.py:56-116 | The output is an order-preserving subsequence of the input. |
| Validation.ValidateAndFilterGuarantees | utils/data_processor.py:61-106 | Every returned record has Quantity > 0 and UnitPrice > 0. Its ids start with "T", "P" and "C", and its region is non-empty. It equals a truthy requested region, and its amount satisfies min ≤ amount ≤ max for the bounds given. The output is a subsequence of the input. |
| Validation.StageLengths | utils/data_processor.py:78-113 | Each stage returns no more records than it receives. |
| Validation.FilterShrinks | utils/data_processor.py:81-106 | Each filter on its own never lengthens its input. |
| Revenue.TotalRevenue | utils/data_processor.py:117-129 | The loop returns the exact sum of Quantity × UnitPrice rounded to cents, within half a cent of that sum. |
| Revenue.TotalAmountConcat | utils/data_processor.py:124-127 | The total of two batches is the sum of their totals. |
| Grouping.KeysSpec | utils/data_processor.py:145-149 | The dict's keys are distinct, no more than the records, and non-empty for a non-empty input. A key is present exactly when some record is filed under it. |
| Grouping.KeysAreRecordKeys | utils/data_processor.py:140-152 | The keys are exactly the keys the records carry. |
| Grouping.KeySet | utils/data_processor.py:140-152 | The set of keys is the set of record keys. |
| Grouping.OfSpec | utils/data_processor.py:140-152 | A group holds only input records with that key, and no more records than the input. |
| Grouping.OfMembers | utils/data_processor.py:140-152 | A record is in a key's group exactly when it is in the input and carries that key. |
| Grouping.CountsAddUp | utils/data_processor.py:152 | The group sizes, over all keys, add up to the number of records. |
| Grouping.SumsAddUp | utils/data_processor.py:143-151 | Any per-record measure summed group by group equals its sum over all records. |
| Grouping.AmountsAddUp | utils/data_processor.py:143-151 | Before rounding, the per-key sales add up to the accumulated total. |
| Grouping.TallyKeys | utils/data_processor.py:145-152 | The accumulator dict has an entry for exactly the keys met. |
| Grouping.TallyValues | utils/data_processor.py:145-152 | Each entry of the accumulator dict is its key's group folded with the loop's update, from the initial value. |
| Grouping.NamedSpec | utils/data_processor.py:210-212 | Only records whose stripped customer id is non-empty are kept, and never more than the input. |
| Grouping.CustomerSetMembers | utils/data_processor.py:264 | The accumulated customer set holds exactly the raw customer ids of the records. |
| Grouping.CustomerSetBounds | utils/data_processor.py:264-269 | A non-empty group has between 1 and its size distinct customers. |
| Sorting.SortByRankSpec | utils/data_processor.py:161-167 | The descending sort is non-increasing in its key, is a permutation of its input, and is stable: the entries with any one key value keep their input order. |
| Sorting.SortByTextSpec | utils/data_processor.py:272 | The ascending string sort is ordered and is a permutation of its input. |
| Sorting.PermutationKeepsDistinct | utils/data_processor.py:161-167 | Sorting a duplicate-free sequence leaves it duplicate-free. |
| Sorting.PermutationKeepsKeys | utils/data_processor.py:161-167 | Sorting rows with pairwise different keys leaves their keys pairwise different. |
| Sorting.PermutationKeepsKeysOf | utils/data_processor.py:161-167 | Sorting keeps the set of keys. |
| Sorting.SortByRankSum | utils/data_processor.py:161-167 | Sorting keeps the sum of any per-row measure. |
| Sorting.SortByTextSum | utils/data_processor.py:272 | Sorting by a string key keeps the sum of any per-row measure. |
| Regions.TallyRegions | utils/data_processor.py:136-152 | The first loop builds the keys in first-seen order, the per-region sales and counts, and the exact total. |
| Regions.TallySales | utils/data_processor.py:145-152 | Each region's accumulator is its exact sales and its number of records. |
| Regions.ShareRows | utils/data_processor.py:155-158 | The second loop gives each region its rounded sales and its rounded share of the total, in key order. |
| Regions.RegionWiseSales | utils/data_processor.py:131-169 | Returns the rows sorted by rounded sales. It fails, with division by zero, exactly when there are records and their total amount is 0. |
| Regions.ValidInputSucceeds | utils/data_processor.py:156 | Records with positive quantities and prices never divide by zero. |
| Regions.RegionRowsAreStats | utils/data_processor.py:140-158 | Every row is a region of the input with its rounded sales, its count and its rounded share of the total. |
| Regions.RegionReportKeys | utils/data_processor.py:140-169 | There is one row per distinct region, and the rows name exactly the regions of the input. |
| Regions.RegionReportDistinct | utils/data_processor.py:161-167 | No region appears twice. |
| Regions.RegionReportOrder | utils/data_processor.py:161-167 | The rows are non-increasing in rounded sales, and rows with equal sales keep first-seen order. |
| Regions.RegionCountsAddUp | utils/data_processor.py:152 | The transaction counts of the rows add up to the number of records. |
| Regions.SharesAddUp | utils/data_processor.py:143-156 | The unrounded per-region sales add up to the total, and the unrounded percentages add up to 100. |
| Regions.ShareOverIsAmountShare | utils/data_processor.py:156 | The unrounded percentages of some regions add up to their combined sales as a percentage of the total. |
| Products.AggregateProducts | utils/data_processor.py:175-190 | The aggregation loop lists the products in first-seen order, each with its total quantity and exact revenue. |
| Products.TallySold | utils/data_processor.py:183-190 | Each product's accumulator is its total quantity and exact revenue. |
| Products.TopSellingProducts | utils/data_processor.py:170-205 | Returns the first `n` rows of the stable descending sort by quantity, with Python slice semantics, so never more than `n` rows for `n ≥ 0`. |
| Products.ProductRowsMembers | utils/data_processor.py:193-200 | The unsorted rows are exactly one row per product, holding its totals. |
| Products.TopSellingEntries | utils/data_processor.py:193-205 | Every entry's quantity is the sum of Quantity over that product's records, and its revenue is their rounded amount. |
| Products.TopSellingOrder | utils/data_processor.py:203 | The entries are non-increasing by quantity. |
| Products.TopSellingIsTop | utils/data_processor.py:203-205 | Every product left out sold no more than every product returned. |
| Products.TopSellingStable | utils/data_processor.py:203-205 | The sort is stable, so ties stay in first-seen order, and the result is a prefix of the sorted rows. |
| Products.LowPerformingProducts | utils/data_processor.py:308-344 | Returns the rows under the threshold, stably sorted ascending by quantity. |
| Products.UnderThresholdMembers | utils/data_processor.py:331-339 | The comprehension keeps exactly the rows under the threshold. |
| Products.LowPerformingSpec | utils/data_processor.py:316-344 | The result holds exactly the products whose total quantity is under the threshold, each with its totals, in ascending order of quantity. |
| Products.LowPerformingStable | utils/data_processor.py:342 | Products with equal quantities keep first-seen order. |
| Customers.TallyCustomers | utils/data_processor.py:207-226 | The loop skips blank stripped ids. It builds the customers in first-seen order, each with spend, count and distinct products. |
| Customers.TallyPurchases | utils/data_processor.py:217-226 | Each customer's accumulator is their exact spend, their number of records and their distinct products in first-seen order. |
| Customers.CustomerAnalysis | utils/data_processor.py:206-241 | Returns the finished rows sorted by rounded spend, descending and stably. |
| Customers.Listed | utils/data_processor.py:217-225 | A listed customer has at least one record, so the average never divides by zero. |
| Customers.CustomerKeysNonBlank | utils/data_processor.py:210-212 | Every customer id is non-empty and is the stripped id of some record. |
| Customers.RowOfSpec | utils/data_processor.py:228-237 | A row holds the customer's rounded spend and record count, the rounded exact average and the sorted product names. |
| Customers.CustomerRowsAreStats | utils/data_processor.py:206-241 | Every returned row is a listed customer with those figures. |
| Customers.CustomerReportKeys | utils/data_processor.py:228-241 | There is exactly one row per customer. |
| Customers.CustomerRowsDistinct | utils/data_processor.py:228-237 | Before sorting, no customer id appears twice. |
| Customers.CustomerReportDistinct | utils/data_processor.py:239-241 | No customer id appears twice in the result. |
| Customers.CustomerReportOrder | utils/data_processor.py:239-241 | The rows are non-increasing in rounded spend, and ties keep first-seen order. |
| Customers.PurchaseCountsAddUp | utils/data_processor.py:209-225 | The purchase counts add up to the number of records with a non-blank customer id, which is at most the input size. |
| Customers.ProductsBoughtSpec | utils/data_processor.py:226-236 | `products_bought` is ascending, duplicate-free and holds exactly the customer's product names. |
| Daily.TallyDates | utils/data_processor.py:247-264 | The aggregation loop builds the dates in first-seen order, each with revenue, count and customer set. |
| Daily.TallyDays | utils/data_processor.py:255-264 | Each date's accumulator is its exact revenue, record count and set of customer ids. |
| Daily.DailySalesTrend | utils/data_processor.py:242-274 | Returns the finished entries sorted by date. |
| Daily.RowOfSpec | utils/data_processor.py:262-269 | An entry holds the rounded revenue and record count of its date, and its number of distinct customers, which is between 1 and the count. |
| Daily.DayCustomers | utils/data_processor.py:252-264 | A date's customers are exactly the raw customer ids of that date's records. |
| Daily.DailyRowsAreStats | utils/data_processor.py:250-272 | Each returned entry belongs to a date of the records and holds that date's rounded revenue and record count, and its number of distinct customers, between 1 and the count. |
| Daily.DailyTrendOrder | utils/data_processor.py:271-272 | The entries are in strictly ascending date order. |
| Daily.DailyTrendDates | utils/data_processor.py:250-272 | There is one entry per date, and the entries name exactly the dates of the records. |
| Daily.DayCountsAddUp | utils/data_processor.py:263 | The daily transaction counts add up to the number of records. |
| Peak.TallyDayTotals | utils/data_processor.py:280-294 | The aggregation loop builds the dates in first-seen order, each with exact revenue and count. |
| Peak.TallyTotals | utils/data_processor.py:287-294 | Each date's accumulator is its exact revenue and record count. |
| Peak.ScanDates | utils/data_processor.py:297-305 | The scan loop computes the strict-`>` first-wins scan over the dates, starting from (None, 0.0, 0). |
| Peak.FindPeakSalesDay | utils/data_processor.py:275-307 | Returns the scan's date and count with its revenue rounded. |
| Peak.ScanIsMax | utils/data_processor.py:301-305 | The peak revenue is never negative and is at least every scanned date's revenue. |
| Peak.ScanWitness | utils/data_processor.py:297-305 | Without a date the scan is (None, 0.0, 0). With one, the revenue is that date's positive revenue and the count is its count. |
| Peak.ScanFirstWins | utils/data_processor.py:302 | Every date met before the peak date has strictly smaller revenue. |
| Peak.PeakOfSpec | utils/data_processor.py:275-307 | The peak date is a date of the input whose rounded revenue is at least every date's, and the count is that date's count. The result is (None, 0.0, 0) exactly when no date has positive revenue, so in particular for empty input. |
| Peak.PeakIsFirst | utils/data_processor.py:301-305 | Among dates with the maximum revenue, the first one met wins. |
| Peak.PeakOfValid | utils/data_processor.py:302 | Non-empty input with positive amounts always has a peak date. |
| Enrichment.CreateProductMapping | utils/api_handler.py:42-55 | The loop builds the mapping, which is a well-formed dict. |
| Enrichment.MappingValid | utils/api_handler.py:44-53 | The keys are listed once each, exactly the keys with entries. |
| Enrichment.MappingIds | utils/api_handler.py:44-53 | The keys are exactly the ids that are not None, so products without an id are skipped. |
| Enrichment.MappingLastWins | utils/api_handler.py:49-53 | A later product with the same id overwrites the earlier entry: the last product with an id supplies its title, category and brand. |
| Enrichment.MappingOrder | utils/api_handler.py:44-53 | The keys are in order of first appearance: of two listed ids, the first product with the earlier one comes before every product with the later one, so an overwrite keeps an id's place. |
| Enrichment.MatchByTitle | utils/api_handler.py:79-87 | The fallback loop returns the first value whose title contains, or is contained in, the product name ignoring case. It returns nothing if none does, and fails where the scan meets a missing title (when, exactly, is `FindByTitleFails`). |
| Enrichment.LookupRecord | utils/api_handler.py:68-87 | The id lookup comes first, and the title fallback runs only when it misses. |
| Enrichment.EnrichSalesData | utils/api_handler.py:63-99 | The loop builds the enriched records in order, or fails with the first lookup's error. |
| Enrichment.NumericIdSpec | utils/api_handler.py:68-74 | A numeric id exists exactly when the product id holds a digit, and it is the number its digits spell. With no digits, no id lookup can succeed. |
| Enrichment.NumericIdOfCode | utils/api_handler.py:72 | The code "P" followed by the digits of `n` has numeric id `n` (so "P007" gives 7). |
| Enrichment.FindByTitleNone | utils/api_handler.py:80-86 | The fallback finds nothing exactly when every title is present and none matches. |
| Enrichment.FindByTitleFails | utils/api_handler.py:80-86 | The fallback fails exactly when it reaches a value without a title before any value whose title matches. |
| Enrichment.LookupFails | utils/api_handler.py:76-91 | A record's lookup fails exactly when its numeric id is not a key and the title scan over the values reaches a missing title before any match. |
| Enrichment.TitledSucceeds | utils/api_handler.py:63-97 | When every catalogue entry has a title, enrichment never fails. |
| Enrichment.FindByTitleFirst | utils/api_handler.py:80-86 | A value the fallback finds is the first with a matching title, in mapping order. |
| Enrichment.IdTakesPriority | utils/api_handler.py:76-79 | When the numeric id is a key, that entry is used whatever the titles, and its category and brand are copied. |
| Enrichment.LookupSpec | utils/api_handler.py:76-91 | A lookup that does not fail matches exactly when the id hits or some title matches. Without an id hit, the entry is the first matching one. |
| Enrichment.SameNameMatches | utils/api_handler.py:82-83 | A title equal to the product name up to case always matches. |
| Enrichment.AssembleSpec | utils/api_handler.py:65-97 | Given per-record lookup results, the output has one record per input. Each is the input record with the category and brand of its match, or None, None and no match. |
| Enrichment.AssembleFails | utils/api_handler.py:65-97 | The run fails exactly when some lookup fails. |
| Enrichment.EnrichAllSpec | utils/api_handler.py:63-97 | There is exactly one output record per input, in order. Each keeps the original record unchanged and adds API_Category and API_Brand from its match, with API_Match true, or None, None and false. |
| Enrichment.EnrichAllFails | utils/api_handler.py:63-97 | Enrichment fails exactly when some record's lookup fails. With `LookupFails`, that is when some record with no id hit has a title scan that reaches a missing title before any match. |
| Report.SalesMetrics | utils/data_processor.py:353-377 | Computes the report's figures: record count, rounded revenue, average order value, date range, matched count, enriched total, enrichment rate and unenriched names. Fails exactly when the `region_wise_sales` call fails, that is when there are records whose total amount is 0. |
| Report.AvgOrderValueSpec | utils/data_processor.py:354-356 | With records, the average is within half a cent of the rounded revenue per record. It is never negative on validated records. |
| Report.EmptyMetrics | utils/data_processor.py:354-359 | With no records the date range is "N/A", the average is 0 and the revenue is 0. |
| Report.DateRangeSpec | utils/data_processor.py:358-359 | The range is "N/A" exactly when there are no records. Otherwise it runs from a record date below every record date to one above every record date. |
| Report.MatchedCount | utils/data_processor.py:369 | `enriched_count` never exceeds the number of enriched records. |
| Report.MatchedCountAll | utils/data_processor.py:369-370 | All records count as matched exactly when all have API_Match set, and none count exactly when none do. |
| Report.EnrichmentRateBounds | utils/data_processor.py:371 | The rate of `c` out of `n ≥ c` is between 0 and 100. It is 0 for `c = 0` or `n = 0`, and 100 when `c = n > 0`. |
| Report.EnrichmentRateSpec | utils/data_processor.py:369-371 | The enrichment rate is between 0 and 100. It is 0 when nothing matched or there are no enriched records, and 100 when everything matched. |
| Report.UnmatchedNamesSpec | utils/data_processor.py:373-377 | The collected names are distinct and are exactly the names of the unmatched records. |
| Report.UnenrichedProductsSpec | utils/data_processor.py:373-377 | `unenriched_products` is strictly ascending, duplicate-free, and holds exactly the product names of the records with no match. |

## Left out

- `fetch_all_products` is left out: it is a network call with a timeout and exception handling. Its result is a parameter (`seq<ApiProduct>`).
- `save_enriched_data` and the report-writing part of `generate_sales_report` are left out: file output, `datetime.now()` and f-string formatting. `read_sales_data` is left out too; its lines are the parser's input.
- `main.py` is left out: orchestration, `print`, interactive prompts and its top-level exception handler.
- Report.SalesMetrics: the report also calls the other five analytics functions. Their results are not stored in `Metrics`; they are the modelled functions themselves. None of those five can raise, so only the `region_wise_sales` call decides whether the report is made.
- Numbers.Round2: it rounds exact reals half up to the nearest cent. Python's `round` rounds binary floats half to even, so the two can differ on a half-cent tie. Float summation error is not modelled.
- Numbers.ParseInt and Numbers.ParseDecimal accept only an optional sign followed by ASCII digits, with at most one point for the decimal. Python's surrounding whitespace, underscores, exponents, `inf` and `nan` are not modelled.
- Text.Lower, Text.IsDigit and Text.IsSpace are ASCII only (`IsSpace` also takes characters 28–31, as Python does). Unicode case mapping and Unicode digits and spaces are not modelled.
- Text.Below compares strings by code point, as Python does. Dates are compared as strings, so a non-ISO date sorts as text.
- The `KeyError` branch of the validation loop (utils/data_processor.py:74-76) cannot arise, because every record has all eight fields. The same holds for `tx.get("ProductID", "")` always finding the id.
- Enrichment: catalogue ids are modelled as integers. A catalogue id of another type, which could never equal the numeric id, is not modelled.
- Enrichment: the lemmas and methods require `Valid(m)` (keys listed once, exactly the keys with entries). This is the dict representation invariant, which `CreateProductMapping` establishes.
- Enrichment: `api_product` is a non-empty dict whenever it is found, so its truthiness test always passes on a match. A found entry therefore always counts as a match.
- Enrichment: the copied record and its three added fields are modelled as a record plus three fields, not as a dict copy.
- Regions.RegionWiseSales, Customers.CustomerAnalysis and Daily.DailySalesTrend return their dicts as sequences of rows in the dict's order.
