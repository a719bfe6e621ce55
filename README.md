# BudgetWise dashboard ledger, in Dafny

BudgetWise is a small Next.js budget tracker. Its dashboard page loads one month of
transactions and the list of categories, and then computes what the charts and tiles show:

- a dense daily series with one bar per day of the month, holding that day's income and expense;
- a per-category breakdown, listing only the categories that moved money;
- the month's income, expense and net, formatted as dollar strings;
- the Prev/Next month links;
- the expense pie, which is drawn from the breakdown, with a note when the pie is empty.

This project models that computation and proves what it promises. Amounts are whole
cents (`int`), as they are stored. Dates are (year, month, day) triples.

Files, one module each:

- `wrappers.dfy`: `Option` and `Result`.
- `seqs.dfy`: `Filter`, `Map` and a summing `reduce` (`Sum`), with their laws.
- `calendar.dfy`: the month arithmetic of JavaScript's `Date`. This covers ECMAScript's
  `DayFromYear`, the month-start table, the 0..99 two-digit-year rule, the month length that
  `new Date(year, month, 0).getDate()` yields, and Prev/Next month stepping.
- `currency.dfy`: `money(cents)` and `toFixed(2)` on whole cents, plus a parser that reads
  the format back.
- `ledger.dfy`: the daily loop (a method over an `array`), the category breakdown, and the totals.
- `query.dfy`: the page's where-clause. It keeps the month's date range, the note search
  (only when the search text is not blank after `trim`), and the chosen category.
- `page.dfy`: the whole aggregation, the stat tiles, and the demo data of the seed action.
- `client_charts.dfy`: the pie data and the "No expenses this month." case.

The daily loop indexes `daily[d - 1]`. For a day past the end of the month that entry is
`undefined`, and the `+=` on it throws. The model returns this as
`Failure(DayOutOfRange(index, day))` and does not make it a precondition. The query
only returns dates inside the month, so the full request (`MonthDashboard`) never fails.

## Model

| member | source | states |
|---|---|---|
| Calendar.DaysInMonth | src/app/page.tsx:44 | the page's month length is between 28 and 31 days |
| Calendar.DateOfDayZero | src/app/page.tsx:44 | `new Date(year, month, 0).getDate()` on ECMAScript day numbers; its contract is Calendar.DateOfDayZeroIsMonthLength: the day it yields is the Gregorian length of the month |
| Calendar.DateOfDayZeroIsMonthLength | src/app/page.tsx:44 | `new Date(year, month, 0).getDate()`, computed from ECMAScript day numbers, equals the Gregorian length of `month` (two-digit years read as 19xx) |
| Calendar.YearLength | src/app/page.tsx:44 | ECMAScript's DayFromYear gives a year 366 days exactly when it is a Gregorian leap year, else 365 |
| Calendar.NextFirstDay | src/app/page.tsx:29-30 | the first of the next month falls one month length after the first of this month |
| Calendar.FebruaryExamples | src/app/page.tsx:44 | February has 29 days in 2024 and 2000, and 28 in 2023 and 1900 |
| Calendar.ThirtyDayMonths | src/app/page.tsx:44 | outside February a month has 30 days exactly in April, June, September and November, else 31 |
| Calendar.TwoDigitYear | src/app/page.tsx:44 | year 0 is read as 1900, so its February has 28 days, although proleptic year 0 is leap |
| Calendar.PrevMonth | src/app/page.tsx:68 | Prev gives a month in 1..12, exactly one month earlier on the month time line (January goes to December of the year before) |
| Calendar.NextMonth | src/app/page.tsx:69 | Next gives a month in 1..12, exactly one month later (December goes to January of the year after) |
| Calendar.PrevNextRoundTrip | src/app/page.tsx:68-69 | Next undoes Prev and Prev undoes Next |
| Calendar.MonthIndexInjective | src/app/page.tsx:68-69 | two valid months at the same time-line position are the same month |
| Calendar.FirstDayMonotone | src/app/page.tsx:29-30 | a later month starts no earlier than the end of an earlier one |
| Calendar.InMonthRange | src/app/page.tsx:29-35 | a valid date lies in [first of month, first of next month) exactly when it is a day of that month |
| Currency.Decimal | src/app/page.tsx:14-15 | the digits of a whole number have no leading zero, and their decimal value is the number |
| Currency.ToFixed2 | src/app/page.tsx:15 | `toFixed(2)` on whole cents; its contract is Currency.UnsignedRoundTrip: the digits it yields, behind `$`, read back as the same amount |
| Currency.Money | src/app/page.tsx:12-16 | `money(cents)`; its contract is Currency.MoneyRoundTrip, Currency.MoneySign and Currency.MoneyInjective: the string reads back as the amount, starts with `-` exactly for negative amounts, and distinct amounts give distinct strings |
| Currency.MoneyRoundTrip | src/app/page.tsx:12-16 | reading back `money(c)` gives `c` for every amount of cents |
| Currency.UnsignedRoundTrip | src/app/page.tsx:14-15 | `$` plus `toFixed(2)` of a non-negative amount reads back as that amount |
| Currency.ParseFormatted | src/app/page.tsx:15 | a string `$<digits>.<d><d>` reads back as the cents that its digits spell |
| Currency.MoneyInjective | src/app/page.tsx:12-16 | distinct amounts are shown as distinct strings |
| Currency.MoneyNegative | src/app/page.tsx:13-15 | a negative amount is shown as its magnitude's string behind `-` |
| Currency.MoneyOfNonNegative | src/app/page.tsx:13-15 | a non-negative amount is shown as `$` and its two-decimal form, without a sign |
| Currency.MoneySign | src/app/page.tsx:13-15 | the string starts with `-` exactly when the amount is negative, and otherwise with `$` |
| Currency.MoneyZero | src/app/page.tsx:12-16 | zero cents is shown as `$0.00` |
| Ledger.DailySeries | src/app/page.tsx:44-50 | the loop succeeds exactly when every transaction's day exists in the month, and then yields, day by day, the income (amounts >= 0) and the expense magnitudes (amounts < 0) of that day; otherwise it names the first transaction whose day is outside the month |
| Ledger.Daily | src/app/page.tsx:44-50 | the specification of the loop, one bar per day; its contract is Ledger.DailySeries, Ledger.DailyConservesTotals and Ledger.DailyNonNegative: the loop computes it, its bars add up to the totals and are never negative |
| Ledger.Route | src/app/page.tsx:48-49 | the loop body on one bar; its contract is Ledger.AddToDay and Ledger.DailySnoc: a non-negative amount goes to income, a negative one's magnitude to expense, and only the transaction's own day changes |
| Ledger.AddToDay | src/app/page.tsx:48-49 | the loop body changes only the entry of the transaction's day, adding the amount to its income when the amount is >= 0 and the magnitude to its expense otherwise |
| Ledger.DailyStep | src/app/page.tsx:46-50 | one more transaction within the month moves the series from the prefix's series to the next prefix's series by the loop body |
| Ledger.DailySnoc | src/app/page.tsx:46-50 | adding a transaction changes only the entry of its own day |
| Ledger.DailyEntrySnoc | src/app/page.tsx:46-50 | after adding a transaction, each entry is unchanged, except the transaction's own day, which is updated by the loop body |
| Ledger.DayOfSnoc | src/app/page.tsx:48-49 | one more transaction changes the bar of its own day, and no other bar |
| Ledger.DaySnoc | src/app/page.tsx:48-49 | one more transaction adds its amount to its day's income or its magnitude to its day's expense, and nothing to other days |
| Ledger.DailyOfNothingIsZeros | src/app/page.tsx:45 | with no transactions the series is the freshly allocated one: day i + 1 with zero income and expense |
| Ledger.DailyNonNegative | src/app/page.tsx:45-50 | every bar's income and expense are non-negative |
| Ledger.DailyConservesTotals | src/app/page.tsx:44-62 | the bars add up to the period's income and expense totals, so no cent is lost or counted twice |
| Ledger.ConservationSnoc | src/app/page.tsx:48-62 | one more transaction adds the same amount to the bars and to the totals |
| Ledger.OutOfMonth | src/app/page.tsx:47-49 | one transaction dated past the month is enough to make the loop fail |
| Ledger.TotalIncome | src/app/page.tsx:61 | the income total; its contract is Ledger.PeriodTotals, Ledger.TotalsSnoc and Ledger.DailyConservesTotals: non-negative, grows by each positive amount, and equals the sum of the bars' incomes |
| Ledger.TotalExpense | src/app/page.tsx:62 | the expense total; its contract is Ledger.PeriodTotals, Ledger.TotalsSnoc and Ledger.DailyConservesTotals: non-negative, grows by each negative amount's magnitude, and equals the sum of the bars' expenses |
| Ledger.PeriodTotals | src/app/page.tsx:61-63 | the income and expense totals are non-negative, and the net is income minus expense |
| Ledger.TotalsSnoc | src/app/page.tsx:61-62 | one more transaction adds a positive amount to the income total and a negative amount's magnitude to the expense total |
| Ledger.DailyOfNothing | src/app/page.tsx:45 | with no transactions every bar i holds day i + 1 with zero income and zero expense, so both sums are zero |
| Ledger.Summarize | src/app/page.tsx:53-58 | a category's row has its name, its colour or `#64748b` when it has none, and non-negative income and expense |
| Ledger.ByCat | src/app/page.tsx:52-59 | the category breakdown; its contract is Ledger.ByCatSelectsActive: in the category list's order, exactly the rows of categories with a non-zero transaction |
| Ledger.ActiveIffActivity | src/app/page.tsx:56-59 | a category's row survives the filter exactly when some transaction of that category has a non-zero amount |
| Ledger.ByCatSelectsActive | src/app/page.tsx:52-59 | the breakdown keeps the order of the category list and holds exactly the rows of the categories with such a transaction |
| Ledger.ByCatRowsActive | src/app/page.tsx:59 | every kept row has non-negative amounts, at least one of them positive |
| Ledger.UncategorisedInNoBucket | src/app/page.tsx:56-57 | transactions without a category change no row |
| Ledger.KindIgnored | src/app/page.tsx:53-58 | a category's declared kind plays no part; only the sign of each amount decides |
| Ledger.CategoryRowsAdd | src/app/page.tsx:52-58 | over distinct categories, the rows' incomes and expenses add up to those of the transactions filed under a listed category |
| Ledger.ByCatWithinTotals | src/app/page.tsx:52-62 | with distinct ids, the breakdown's sums equal the filed transactions' sums and never exceed the period totals |
| Ledger.ZeroAmountKeepsDaily | src/app/page.tsx:46-50 | a zero amount anywhere in the list changes no bar |
| Ledger.ZeroAmountKeepsDay | src/app/page.tsx:48 | a zero amount adds nothing to any day |
| Ledger.ZeroAmountKeepsByCat | src/app/page.tsx:52-59 | a zero amount changes no category row |
| Ledger.ZeroAmountKeepsTotals | src/app/page.tsx:61-63 | a zero amount changes none of the totals |
| Query.TrimStartEmpty | src/app/page.tsx:36 | trimming the start leaves nothing exactly when the text is all white space, and otherwise leaves a non-space first character |
| Query.TrimEndKeepsHead | src/app/page.tsx:36 | trimming the end of a text that starts with a non-space character leaves something |
| Query.Trim | src/app/page.tsx:36 | `q.trim()`; its contract is Query.TrimEmptyIffBlank: empty exactly when the text is all white space |
| Query.TrimEmptyIffBlank | src/app/page.tsx:36 | `q.trim()` is empty exactly when `q` is all white space |
| Query.QueryScopesToMonth | src/app/page.tsx:29-37 | every transaction the query returns is dated in the selected month, so the daily loop never fails on it |
| Query.Where | src/app/page.tsx:29-37 | the where-clause as a test on one transaction; its contract is Query.DateRangeIsMonth, Query.SearchFilterExact and Query.CategoryFilterExact: the date range keeps exactly the month, a non-blank search exactly the notes containing it, a non-empty category exactly its transactions |
| Query.DateRangeIsMonth | src/app/page.tsx:29-35 | a date passes the date range exactly when its year and month are the selected ones |
| Query.BlankSearchIgnored | src/app/page.tsx:36 | blank search text filters out nothing that no search text would keep |
| Query.SearchFilterExact | src/app/page.tsx:36 | with search text that is not blank after trimming, a transaction passes exactly when it passes without the search and its note contains the text; blank text removes nothing |
| Query.CategoryFilterExact | src/app/page.tsx:37 | with a non-empty category id, a transaction passes exactly when it passes without the category and is filed under that id; an empty id removes nothing |
| Page.Aggregate | src/app/page.tsx:44-63 | the aggregation succeeds exactly when every day exists, and then returns the daily series, the breakdown and the totals: one bar per day numbered 1.., bars summing to the totals, and net = income - expense |
| Page.MonthDashboard | src/app/page.tsx:29-63 | querying the month and then aggregating always succeeds and yields the dashboard of the queried transactions |
| Page.StatTiles | src/app/page.tsx:88-90 | the Income, Expense and Net tiles; its contract is Page.TilesShowMoney: they show exactly `money` of income, expense and net |
| Page.TilesShowMoney | src/app/page.tsx:88-90 | the Income, Expense and Net tiles show exactly `money` of income, expense and net, negative nets included |
| Page.SeedTotals | src/app/actions/finance.ts:86-91 | for the demo paycheck, groceries and rent, income is $2000.00, expense $1239.99, and the net is shown as `$760.01` |
| Page.SeedNetShown | src/app/page.tsx:12-16 | 76001 cents is shown as `$760.01` |
| Page.SeedIncomeAndExpense | src/app/page.tsx:61-62 | the demo transactions give income 200000 and expense 123999 cents |
| Page.SeedDaily | src/app/page.tsx:44-50 | April 2024 has 30 bars; the paycheck is day 2's income and the groceries day 3's expense |
| Page.SeedRow | src/app/page.tsx:53-58 | each demo category's row holds what it earned and what it spent |
| Page.SeedByCat | src/app/page.tsx:52-59 | against the four demo categories in name order, Entertainment has no activity and gets no row; Food, Rent and Work follow in order |
| ClientCharts.PieSelectsExpenses | src/app/ClientCharts.tsx:20-22 | the pie shows, in the breakdown's order, exactly the rows with a positive expense, each as (name, expense, colour) |
| ClientCharts.PieData | src/app/ClientCharts.tsx:20-22 | the pie's data; its contract is ClientCharts.PieSelectsExpenses, ClientCharts.PieTotal and ClientCharts.NoExpensesNote |
| ClientCharts.PieTotal | src/app/ClientCharts.tsx:20-22 | over non-negative expenses, the slices add up to the breakdown's expenses |
| ClientCharts.SumOfSlices | src/app/ClientCharts.tsx:22 | slice values add up to the expenses of the rows they come from |
| ClientCharts.NoExpensesNote | src/app/ClientCharts.tsx:76-80 | the note appears exactly when no row has a positive expense |
| ClientCharts.DashboardPie | src/app/ClientCharts.tsx:20-80 | on the page's breakdown the pie adds up to at most the month's expense, and the note appears exactly when no negative transaction is filed under a listed category |
| ClientCharts.FilterSumsPositive | src/app/ClientCharts.tsx:76-80 | non-negative expenses sum to something positive exactly when one of them is positive |
| Seqs.FilterMembers | src/app/page.tsx:56-57 | `filter` keeps exactly the elements that pass its test |
| Seqs.FilterSelects | src/app/page.tsx:59 | `filter` keeps, in order, exactly the elements at the positions where the test holds |
| Seqs.SumFilterSnoc | src/app/page.tsx:61-62 | one more element adds its term to a filtered sum exactly when the filter keeps it |
| Seqs.SumFilterSplit | src/app/page.tsx:56-57 | the sums over two disjoint filters add up to the sum over their union |
| Seqs.SumFilterMonotone | src/app/page.tsx:61-62 | a stronger filter cannot increase a sum of non-negative terms |
| Seqs.SumFilterSkip | src/app/page.tsx:61-62 | an element that the filter drops, or that adds zero, changes no filtered sum |
| Seqs.SumUpdate | src/app/page.tsx:48-49 | replacing one element changes the sum by the difference |

## Left out

- Database access (Prisma `findMany`), Next.js request handling, `searchParams` parsing and
  all rendering are not modelled. The transactions and categories are parameters.
- The `orderBy` of the queries is not modelled. The model takes the lists in whatever order
  they arrive: every total and every bar is a sum and does not depend on the order, and the
  breakdown follows the category list as given.
- Time zones are left out. A transaction's date is the local calendar day that `getDate()` reads.
  It is always a real calendar day (type `RealDate`), as any date read from a stored timestamp is;
  malformed dates such as day 0 or month 13 are not modelled.
- Page.MonthDashboard: requires a month in 1..12. `Number(params.month)` can be anything,
  including NaN or 13, which `Date` would normalise; that input is not modelled.
- Floating point is left out. The source divides cents by 100 and adds dollars as doubles;
  the model adds whole cents exactly. `toFixed` switches to exponent notation above 1e21,
  and that case is not modelled either.
- Prisma's `contains` is modelled as a case-sensitive substring test on the note. Collation
  and database-specific case folding are not modelled.
- The pie's percentage labels and the colours of the bar chart are rendering and are left out.
- The server actions in src/app/actions/finance.ts (create, delete, seed) are not part of this
  model. Only the demo data of the seed action appears, as a fixed example of April 2024,
  and the seed lemmas use three of its seven transactions.
- Page.SeedTotals: covers three of the seven demo transactions and not the full seed, to keep
  the example proofs small.
