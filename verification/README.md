# Transaction ledger aggregation — a Dafny model

This project models the aggregation core of a small dashboard over a payment
processor's transaction export (`dashData.py`). The export is a table with one
row per transaction. It has a DATE, a DESCRIPTION, eight monetary columns
(gross, net credit, net debit, processor fee, financing fee, shipping fee,
taxes, coupon) and a payment method. The dashboard computes two things:

* **The daily summary.** The ledger is grouped by its DATE column and every
  monetary column is summed per group. The trend charts plot these rows.
* **The per-date drill-down.** For the date picked in the dropdown it computes
  the following.
  * The day's records: every record whose DATE falls on that calendar day,
    whatever its time of day.
  * Six scalars: the record count, the revenue (sum of net credit), the sums
    of the processor fee and of the shipping fee, "profit" = revenue + both
    fee sums, and "taxes" = both fee sums. The code adds the fee columns as
    they are; it assumes no sign.
  * Four tables, one per column. Each keeps the day's records that pass its
    own test, then sums that column per DESCRIPTION:
    * entries: net credit > 0
    * exits: net debit > 0
    * processor fees: processor fee ≠ 0
    * shipping fees: shipping fee ≠ 0

Modules:

* `Tally` (`tally.dfy`) holds the generic pieces. `Filter` is the
  order-preserving boolean mask. `MapTotal` is the sum of a map's values, with
  a proof that the total does not depend on key order. `Bump` is the one-key
  update a group-by-sum is built from.
* `Ledger` (`ledger.dfy`) is the data model. It holds `Date`, `Timestamp`
  (calendar day plus time of day), `Field`, `Amounts` and `Record`, the column
  sum `SumOver`, and the sign and split facts about sums.
* `DailySummary` (`summary.dfy`) holds `Summarize`, the group-by-DATE-and-sum.
* `Drilldown` (`drilldown.dfy`) holds `UpdateDataTable`, the day filter
  `OnDay`, the group-by-DESCRIPTION-and-sum `GroupByDescription`, and the
  breakdown `Table`s.
* `Scenarios` (`scenarios.dfy`) holds worked examples on hand-written ledgers.

Modelling decisions:

* **Money is in integer cents.** Every sum is exact, and there is no
  floating-point rounding.
* **DATE is a `Timestamp`.** The column is parsed into a timestamp when the
  file is read. The grouping of `dashData.py:10` therefore keys on the whole
  timestamp. The drill-down filter of `dashData.py:65` compares calendar days
  only. The model keeps this difference.
  * `SummaryOneRowPerDay` and `DrillDownMatchesSummary` show that the two
    agree on a reformatted export, whose DATE cells carry no time of day.
  * `DrillDownAddsUpSummaryRows` relates them in general.
* **DATE may be empty (`Option<Timestamp>`).** An empty DATE cell parses to
  no timestamp (NaT). The group-by of line 10 drops such a record, and the
  calendar-day test of line 65 never matches it. So an undated record is in
  no summary row and on no day. `SummaryConservesSums` and `RollupsPartition`
  carry the undated records as an explicit term of the ledger's sums.
* **DESCRIPTION may be empty (`Option<string>`).** The group-by of lines 81-84
  drops rows whose key is missing. So a record without a description counts in
  the scalars but appears in no table. The table-total lemmas carry the sum
  over such records as an explicit term. They collapse to plain equalities
  when every record is described.
* **The model follows the code in three places where the column names might
  suggest otherwise:**
  * the summary is keyed by the parsed timestamp, not by a time-free date;
  * the four tables are not disjoint, since one record can sit in entries and
    in both fee tables;
  * records without a description are left out of every table.

## Model

| member | source | states |
|---|---|---|
| `DailySummary.SummaryExact` | dashData.py:10 | The summary has one row per distinct non-empty DATE value. Each row's column equals the sum of that column over exactly the records with that DATE. |
| `DailySummary.SummaryConservesSums` | dashData.py:10 | Adding up any column over all summary rows gives that column's sum over the dated records: none is lost or counted twice. Those rows plus the undated records give the sum over the whole ledger. |
| `DailySummary.SummaryOneRowPerDay` | dashData.py:10 | When DATE cells carry no time of day, the summary's rows match the ledger's calendar days one to one. |
| `Drilldown.DayFilterExact` | dashData.py:65 | The day filter keeps every occurrence of every record whose calendar day is the selected one, at any time of day, and nothing else. An undated record is on no day. |
| `Drilldown.RollupsPartition` | dashData.py:65-71 | The day's count, revenue, fee sums and profit, plus the same quantities over the records left out (other days and undated rows), give the ledger's count and sums. |
| `Drilldown.GroupByDescriptionKeys` | dashData.py:81-84 | The groups are exactly the filled-in descriptions; a record with an empty description forms no group. |
| `Drilldown.GroupByDescriptionValues` | dashData.py:81-84 | Each group holds the column's sum over exactly the records with that description. |
| `Drilldown.GroupByDescriptionTotal` | dashData.py:81-84 | The groups together add up to the column's sum over all described records. |
| `Drilldown.QualifiedSum` | dashData.py:74-77 | The non-zero test drops only zero terms, so the column sum is unchanged. The positivity test drops only non-positive terms, so the sum can only rise. |
| `Drilldown.TableExact` | dashData.py:74-84 | A table's keys are the descriptions of the day's records that pass its test. Each value sums the column over those qualifying records only (filter, then aggregate). Under a positivity test every value is > 0. |
| `Drilldown.TableTotal` | dashData.py:74-84 | A table adds up to the column's sum over the day's qualifying, described records. |
| `Drilldown.EntriesTable` | dashData.py:67-81 | The entries keys are exactly the descriptions of day records with net credit > 0, and every value is > 0. The table total plus the undescribed records' credit is at least the revenue. When all of the day's records are described, the table total is at least the revenue. |
| `Drilldown.ExitsTable` | dashData.py:75-82 | The exits keys are exactly the descriptions of day records with net debit > 0, and every value is > 0. |
| `Drilldown.ProcessorFeeTable` | dashData.py:68-83 | The processor-fee keys are exactly the descriptions of day records with a non-zero processor fee. The table plus the undescribed records' fee equals the processor-fee scalar exactly. |
| `Drilldown.ShippingFeeTable` | dashData.py:69-84 | The shipping-fee keys are exactly the descriptions of day records with a non-zero shipping fee. The table plus the undescribed records' fee equals the shipping-fee scalar exactly. |
| `Drilldown.FeeTablesMakeTaxes` | dashData.py:68-84 | When every record of the day is described, each fee table adds up to its scalar, and the two tables together add up to taxes. |
| `Drilldown.FeeTableAddsUp` | dashData.py:76-84 | A non-zero-filtered table plus the undescribed records gives the plain column sum over the day. |
| `Drilldown.EmptyDay` | dashData.py:65-84 | The count is zero exactly when no record falls on the day. In that case all scalars are zero and all four tables are empty, with no error. |
| `Drilldown.DrillDownMatchesSummary` | dashData.py:64-69 | The date is picked from the summary's DATE column (line 22), and DATE cells carry no time of day. Then revenue and both fee scalars equal that date's summary row. |
| `Drilldown.SummaryOfDay` | dashData.py:65 | Summarizing only the day's records gives exactly the summary rows dated that day. |
| `Drilldown.DrillDownAddsUpSummaryRows` | dashData.py:65-69 | For any time of day in the DATE cells, revenue and both fee scalars equal the totals of the summary rows falling on the selected calendar day. |
| `Scenarios.SignConvention` | dashData.py:65-84 | Example: credits {100, 0, -50} and fees {-5, -3, 0} on one day. Entries hold only the 100, the fee table holds -5 and -3, revenue is 50, taxes -8, profit 42. |
| `Scenarios.SameDescriptionReaggregates` | dashData.py:81 | Example: two "Sale A" credits of 100 and 50 on one day give the single entry ("Sale A", 150). |
| `Scenarios.TimeOfDayIgnored` | dashData.py:65 | Example: a record stamped 15:30 on 2024-01-01 is counted for 2024-01-01. |
| `Scenarios.UndatedRowDropped` | dashData.py:8-10 | Example: next to a dated sale, a sale with an empty DATE is in no summary row and not counted for the day, and it adds nothing to the entries table. |

## Left out

- The Dash app, layout, dropdown construction, callback registration and server start (dashData.py:13-63, 86-120): user-interface plumbing.
- The plotly line, pie, histogram and box charts: rendering only.
- Reading the CSV and parsing DATE (dashData.py:8): file I/O and library date parsing. Records arrive already parsed. A missing monetary cell is taken as 0 cents. pandas would read it as NaN, which passes the `!= 0` test and could add a fee-table key with value 0.
- format.py: its date rewriting and re-saving, and the idempotence of that step. It is preprocessing I/O outside the aggregation.
- dashboard.py: a layout variant. Its grouping duplicates dashData.py:10 over all columns.
- The summary sums of the DESCRIPTION and PAYMENT_METHOD text columns: pandas concatenates strings there, and nothing reads them. Only monetary columns are summed.
- The `R$...:.2f` text formatting of the scalars: float-to-text presentation. Amounts are integer cents.
- Row order of the grouped outputs: tables are maps, and no ordering is claimed.
- Validity of calendar dates: dates serve only as grouping and filter keys.
