# RetailPulse report core in Dafny

RetailPulse is a Django dashboard for a small retailer. It has a few
kinds of data:

- Products, each with a category, a stock level, a reorder point and a price.
- Sales, each storing its revenue, derived on save as price times quantity.
- A dashboard view that turns all sales and products into KPI strings, a
  low-stock list and three charts.
- A CSV export of the sales.

This project models the logic of that view, the export's row projection,
and the revenue derivation on `Sale`. The modules are:

| module | file | models |
|---|---|---|
| `Wrappers` | `wrappers.dfy` | `Option` |
| `Models` | `models.dfy` | the category choices, the column sizes and the field defaults; `Product` and `Sale` as classes whose fields `save` updates in place |
| `KeyOrder` | `key_order.dfy` | the order pandas sorts string group keys in (Python's `str <`), shown to be a strict total order |
| `Formatting` | `formatting.dfy` | the `{:,.2f}` and `{:,}` KPI strings and the plain `str` of a decimal or integer, each with a parser and round-trip lemmas |
| `Kpi` | `kpi.dfy` | the query rows; total revenue and items sold; the revenue-per-category group-by; the top category (`idxmax` with its tie-break); the low-stock filter |
| `Monthly` | `monthly.dfy` | `resample('ME').sum()`: one bucket per calendar month from the first sale to the last, labelled by month end, with gaps filled by 0 |
| `Heatmap` | `heatmap.dfy` | the hour × weekday count pivot reindexed to Monday..Sunday, and its drawing with 24 hour ticks |
| `Dashboard` | `dashboard.dfy` | `dashboard_view` composed from the above; each chart is represented by the table it plots |
| `Export` | `export.dfy` | `export_csv` as a header record plus one record per sale, with a decoder and its round trip |

## Modelling choices

- **Money.** Money is held exactly, as integer cents. Both `price` and
  `total_revenue` are two-place decimals, and the view's float conversion is
  not modelled.
- **Column sizes.** The column sizes are `FitsDecimal` bounds:
  `PriceDigits = 10` and `RevenueDigits = 15`. `Sale.Save` reports whether
  the derived revenue fits its column.
- **Timestamps.** A timestamp is given as calendar fields: year, month, day,
  hour, and weekday with Monday = 0.
- **Query rows.** The rows of a query are `SaleRow` values. `Kpi.RowsOf`
  takes them from `Sale` objects in query order.
- **Quantity.** `quantity_sold` is an unconstrained integer, as in the
  code. Revenue can therefore be negative. `CategoryRevenue` and
  `AmountOf` read a category without sales as 0, but such a category never
  competes for the top: the top-category properties range over the
  categories that occur in the sales only, so with all revenues negative
  the top category has negative revenue.
- **Behaviour of the code worth knowing:**
  - The trend chart fills empty months with 0; it does not skip them.
  - The heatmap table as computed has rows only for the hours that occur, not 24 (see Findings).
  - An export of no sales produces a header record with no fields, because
    a table built from an empty query has no columns.

## Model

| member | source | states |
|---|---|---|
| `Models.ParseCategory` | forecaster/models.py:4-13 | a category name is accepted exactly when it is one of the five choices, and it is read back as that choice |
| `Models.ChoicesAreClosed` | forecaster/models.py:4-10 | the choices are exactly five distinct categories, and every category reads back from its name |
| `Models.Product.constructor` | forecaster/models.py:14-15 | a new product has stock 0 and reorder point 10, and so is low on stock |
| `Models.Product.Reprice` | forecaster/models.py:16 | a price edit changes the price and no other field |
| `Models.Sale.constructor` | forecaster/models.py:21-25 | a sale built with every column given, as a bulk insert does it, holds those values |
| `Models.Sale.Save` | forecaster/models.py:27-30 | after a save the stored revenue is the product's current price times the quantity, whatever it was before; quantity, date and product are unchanged; the result says whether the revenue fits 15 digits |
| `Models.RepriceBetweenSaves` | forecaster/models.py:29 | the stored revenue reflects the price at the latest save: after a price change it still holds the old price times the quantity until the next save, which derives it from the new price |
| `Kpi.RowsOf` | forecaster/views.py:44-46 | the query yields one row per sale, in order, carrying that sale's timestamp, product name, product category, quantity and revenue |
| `Kpi.TotalsAppend` | forecaster/views.py:58-59 | total revenue and items sold are additive over any split of the sales |
| `Kpi.TotalRevenueOfDerivedRows` | forecaster/views.py:58 | when every row's revenue was derived by `save`, the total revenue is the sum of price times quantity |
| `Kpi.CategoryTotals` | forecaster/views.py:61 | the group-by has strictly sorted keys; a key is present exactly when some sale has that category; each category's amount is the revenue of exactly that category's sales; the amounts add up to the total revenue |
| `Kpi.CategoryTotalsContract` | forecaster/views.py:61 | each group-by entry holds the revenue of its category's sales; the keys are exactly the categories sold; the entries sum to the total revenue |
| `Kpi.TopIndex` | forecaster/views.py:62 | `idxmax` picks an entry with the largest amount, and every earlier entry is strictly smaller, so it is the first maximum |
| `Kpi.TopCategoryIsFirstArgMax` | forecaster/views.py:61-62 | with at least one sale the top category occurs in the sales, no occurring category has more revenue, and every other category tied with it sorts after it |
| `Kpi.TopCategoryUnique` | forecaster/views.py:61-62 | those three properties determine the top category: any category meeting them is the one computed |
| `Kpi.TieGoesToFirstKey` | forecaster/views.py:61-62 | Toys and Books tied at 5.00, listed Toys first, gives Books |
| `Kpi.NoSalesNoCategory` | forecaster/views.py:62 | with no sales the group-by is empty and the top category is "N/A" |
| `Kpi.LowStock` | forecaster/views.py:65 | a product is in the low-stock list if and only if its stock is strictly below its reorder point; every listed product is one of the products |
| `KeyOrder.BelowTransitive` | forecaster/views.py:61 | the key order used by the group-by is transitive |
| `KeyOrder.BelowTotal` | forecaster/views.py:61 | any two distinct keys are ordered one way or the other |
| `KeyOrder.BelowAsymmetric` | forecaster/views.py:61 | no two keys are each below the other |
| `Monthly.MonthEndOf` | forecaster/views.py:84 | the label of month k is a date in month k, on the last day of that month, leap years included |
| `Monthly.MonthEndSuccessor` | forecaster/views.py:84 | consecutive month indices are labelled by consecutive calendar months, December followed by January of the next year |
| `Monthly.MonthBounds` | forecaster/views.py:84 | every sale lies between the first and the last month |
| `Monthly.MonthBoundsAttained` | forecaster/views.py:84 | the first and the last month are months of actual sales |
| `Monthly.EmptyMonthIsZero` | forecaster/views.py:84 | a month without sales sums to 0 |
| `Monthly.MonthlySales` | forecaster/views.py:83-84 | with no sales there are no buckets; the buckets add up to the total revenue |
| `Monthly.MonthlyLength` | forecaster/views.py:84 | there is one bucket per month from the earliest sale's month to the latest's, with no gaps |
| `Monthly.MonthlyBucketAt` | forecaster/views.py:84 | bucket j is labelled by the month end of the j-th month after the first, and holds the revenue of exactly the sales of that month |
| `Monthly.MonthlyTable` | forecaster/views.py:83-84 | the resampled series has one bucket per month from the earliest sale's to the latest's, bucket j labelled by the end of month first + j and holding the revenue of exactly the sales of that month |
| `Monthly.MonthlyConsecutive` | forecaster/views.py:84 | neighbouring buckets are consecutive calendar months |
| `Monthly.MonthlyEnds` | forecaster/views.py:84 | the first bucket is the earliest sale's month and the last bucket is the latest sale's month |
| `Monthly.MonthlyCoversSales` | forecaster/views.py:84 | every sale's month has a bucket |
| `Heatmap.CountAll` | forecaster/views.py:103 | the counts over all hours and weekdays add up to the number of sales |
| `Heatmap.DayCounts` | forecaster/views.py:103-104 | a row has seven counts, Monday first, each the number of sales at that hour and weekday |
| `Heatmap.PivotTableContract` | forecaster/views.py:98-104 | the columns are Monday..Sunday in order; the rows are exactly the hours at which something was sold, increasing; every cell counts the sales (not the quantities) at its hour and weekday; all cells add up to the number of sales |
| `Heatmap.PivotHasAllHoursIff` | forecaster/views.py:103-104 | the table has 24 rows if and only if every hour of the day has a sale |
| `Heatmap.TicksMislabelSparseHours` | forecaster/views.py:103-113 | one sale at 05:00 gives a table whose first row is hour 5; that row is drawn under the tick label 0 |
| `Heatmap.ReindexedPivotContract` | forecaster/views.py:103-113 | the table reindexed to all 24 hours has row i for hour i, so the tick labels are right; its cells count the sales at each hour and weekday and add up to the number of sales |
| `Heatmap.ReindexedPivotExtends` | forecaster/views.py:103-104 | the reindexed table holds each row of the computed table under its own hour, and zeros at the hours without sales |
| `Formatting.GroupIsWellGrouped` | forecaster/views.py:119-120 | the `{:,}` integer part has a comma before each group of three digits counted from the right, and digits everywhere else |
| `Formatting.UngroupGroup` | forecaster/views.py:119-120 | removing the thousands separators gives back the plain digits |
| `Formatting.DigitsRoundTrip` | forecaster/views.py:119-120 | the decimal digits of a number read back as that number |
| `Formatting.MoneyRoundTrip` | forecaster/views.py:138 | the plain decimal text of an amount reads back as that amount |
| `Formatting.CountRoundTrip` | forecaster/views.py:138 | the plain text of an integer reads back as that integer |
| `Formatting.FormatMoneyContract` | forecaster/views.py:119 | `{:,.2f}` of an amount is a sign, a well-grouped integer part, a point and exactly two digits; with the commas removed it reads back as the amount |
| `Formatting.FormatCountContract` | forecaster/views.py:120 | `{:,}` of an integer is a sign and a well-grouped numeral; with the commas removed it reads back as the integer |
| `Dashboard.DashboardView` | forecaster/views.py:48-65 | no sales gives "no data" and nothing else. Otherwise: the revenue and items strings read back as the two totals; the top category occurs in the sales and has the most revenue; the low-stock list holds exactly the products below their reorder point; the category chart is the group-by (sorted keys, exactly the categories sold, each with the revenue of exactly its sales) and adds up to the total revenue; the trend chart has one bucket per month from the earliest sale's to the latest's, bucket j labelled by the end of the j-th month and holding exactly that month's revenue, and adds up to the total revenue; the top category is the first one in key order among those tied for the most revenue; the heatmap is the table the view draws, with the seven weekday columns, a row for exactly each hour with sales in increasing order, cells counting the sales at their hour and weekday, and every sale counted once |
| `Dashboard.TwoSalesOfThree` | forecaster/views.py:58-59 | two sales of three items at 10.00 show "60.00" of revenue and "6" items |
| `Export.ExportRowAt` | forecaster/views.py:132-138 | record i of the report is the record of sale i |
| `Export.ExportCsvShape` | forecaster/views.py:132-138 | the report has one more record than there are sales; the header names the five query fields in order; every later record has five fields, the first being the sale's timestamp |
| `Export.ExportRowsRoundTrip` | forecaster/views.py:132-138 | reading the sale records back gives the sales |
| `Export.ExportCsvRoundTrip` | forecaster/views.py:132-138 | reading the whole report back gives every sale's timestamp, product name, category, quantity and revenue, in order |

## Left out

- Chart drawing, `get_graph`, PNG and base64 encoding, and the global plot style (forecaster/views.py:12-39 and 70-116) are foreign library calls producing images. Each chart is represented by the table it plots.
- The Django ORM, `render`, `HttpResponse` and its headers, forecaster/urls.py, forecaster/admin.py, RetailPulse/settings.py and RetailPulse/wsgi.py are framework wiring and I/O.
- Persistence in `save` (`super().save()`) is a database write. `Models.Sale.Save` only updates the object's fields.
- CSV quoting and escaping by `to_csv` is library behaviour. The export is modelled as a table of cells, and the timestamp cell is kept as a value rather than text.
- Float conversion of the revenue column (forecaster/views.py:55) and float rounding in the sums are left out. Money is exact cents.
- Time-zone handling and the conversion of an instant into year, month, day, hour and weekday (forecaster/views.py:54, 99-100) are left out. These are given fields of `DateTime`.
- forecaster/management/commands/seed_data.py generates random data and does bulk inserts. It computes revenue from the unrounded float price rather than the stored two-place price, so a seeded revenue can differ by cents from the stored price times the quantity (and need not meet the precondition of `Kpi.TotalRevenueOfDerivedRows`); `Models.Sale.constructor` covers a sale built from given columns, whatever its revenue.
- The in-place DataFrame edits (`set_index`, `reset_index`, new columns at forecaster/views.py:83 and 98-100) are incidental and are not modelled.
- Reassigning a sale's product is not modelled. `Sale.product` is fixed at construction.
- Models.Product.PriceFits: the 10-digit price bound is a predicate and not a precondition. The source validates it only when a row is written, which is not modelled.
- Kpi.LowStock: the list keeps query order. The ORM imposes no other order, and none is stated.
- Heatmap.TicksMislabelSparseHours: states that the first row is hour 5 and that the labels are wrong. It does not state that the table has exactly one row.

## Findings

| source | as written | input that shows it | evidently intended | confidence | as-written member | corrected member |
|---|---|---|---|---|---|---|
| forecaster/views.py:103-113 | the pivot has rows only for the hours with sales, but the y-axis always gets the 24 tick labels 0..23 at positions 0..23 | a single sale at 05:00: the only row (hour 5) is drawn at position 0 under the label "0" | reindex the rows to the 24 hours as the columns are reindexed to the 7 days, so that row i is hour i | not executed | `Heatmap.TicksMislabelSparseHours` | `Heatmap.ReindexedPivotContract` |

`Heatmap.PivotTable` is the table as the code computes and draws it, and
`Dashboard.DashboardView` carries that table so that the view is modelled as
the program behaves. `Heatmap.ReindexedPivot` is the corrected table, and
`Heatmap.ReindexedPivotExtends` shows that it agrees with the computed table on
every hour that has sales.
