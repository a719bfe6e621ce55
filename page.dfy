/**
 * The dashboard page: one month's aggregation from a transaction list and the category
 * list, and the three summary tiles.
 */
module Page {
  import opened Wrappers
  import opened Seqs
  import opened Calendar
  import opened Currency
  import opened Ledger
  import opened Query

  /** What the page hands to its charts and tiles. */
  datatype Dashboard = Dashboard(daily: seq<DaySummary>, byCat: seq<CategorySummary>, totals: Totals)

  /**
   * The aggregation: the daily loop, then the category breakdown and the totals. A
   * transaction dated past the end of the month stops the page at the loop, as the
   * source's TypeError does.
   */
  method Aggregate(txns: seq<Txn>, cats: seq<Category>, year: int, month: int)
    returns (r: Result<Dashboard, AggregateError>)
    requires 1 <= month <= 12
    ensures r.Success? <==> AllInMonth(txns, year, month)
    ensures r.Success? ==> r.value == Dashboard(Daily(txns, year, month), ByCat(txns, cats), PeriodTotals(txns))
    ensures r.Success? ==> (
      && |r.value.daily| == DaysInMonth(year, month)
      && (forall i :: 0 <= i < |r.value.daily| ==> r.value.daily[i].day == i + 1))
    ensures r.Success? ==> (
      && Sum(DayIncomeOf, r.value.daily) == r.value.totals.income
      && Sum(DayExpenseOf, r.value.daily) == r.value.totals.expense
      && r.value.totals.net == r.value.totals.income - r.value.totals.expense)
    ensures r.Failure? ==> var k := r.error.index;
      k < |txns| && !(1 <= txns[k].date.day <= DaysInMonth(year, month))
  {
    var daily := DailySeries(txns, year, month);
    match daily
    case Failure(e) =>
      r := Failure(e);
    case Success(days) =>
      DailyConservesTotals(txns, year, month);
      r := Success(Dashboard(days, ByCat(txns, cats), PeriodTotals(txns)));
  }

  /** The whole request: query the month, then aggregate. It never fails, because the query keeps only days of the month. */
  method MonthDashboard(all: seq<Txn>, cats: seq<Category>, year: int, month: int, q: Option<string>, categoryId: Option<string>)
    returns (d: Dashboard)
    requires 1 <= month <= 12
    ensures var txns := MonthTransactions(all, year, month, q, categoryId);
      d == Dashboard(Daily(txns, year, month), ByCat(txns, cats), PeriodTotals(txns))
  {
    var txns := MonthTransactions(all, year, month, q, categoryId);
    QueryScopesToMonth(all, year, month, q, categoryId);
    var r := Aggregate(txns, cats, year, month);
    d := r.value;
  }

  /** The Income, Expense and Net tiles: income and expense with `$` prepended, the net with its sign in front. */
  function StatTiles(t: Totals): (seq<char>, seq<char>, seq<char>) {
    ("$" + ToFixed2(t.income),
     "$" + ToFixed2(t.expense),
     (if t.net < 0 then "-" else "") + "$" + ToFixed2(Abs(t.net)))
  }

  /** Each tile shows its amount exactly as `money` formats it, negative nets included. */
  lemma TilesShowMoney(txns: seq<Txn>)
    ensures var t := PeriodTotals(txns);
      StatTiles(t) == (Money(t.income), Money(t.expense), Money(t.income - t.expense))
  {
    var t := PeriodTotals(txns);
    MoneyOfNonNegative(t.income);
    MoneyOfNonNegative(t.expense);
  }

  function SeedCategories(): seq<Category> {
    [Category("e", "Entertainment", Expense, Some("#a855f7")),
     Category("f", "Food", Expense, Some("#ef4444")),
     Category("r", "Rent", Expense, Some("#3b82f6")),
     Category("w", "Work", Income, Some("#10b981"))]
  }

  function SeedTransactions(): seq<Txn> {
    [Txn("1", Date(2024, 4, 2), 200000, Some("Paycheck"), Some("w")),
     Txn("2", Date(2024, 4, 3), -3999, Some("Groceries"), Some("f")),
     Txn("3", Date(2024, 4, 10), -120000, Some("Monthly Rent"), Some("r"))]
  }

  /** Sum of `f` over the elements of `[a, b, c]` that satisfy `p`, computed element by element. */
  lemma SumFilterOfThree<T>(f: T -> int, p: T -> bool, a: T, b: T, c: T)
    ensures Sum(f, Filter(p, [a, b, c]))
            == (if p(a) then f(a) else 0) + (if p(b) then f(b) else 0) + (if p(c) then f(c) else 0)
  {
    assert [] + [a] == [a] && [a] + [b] == [a, b] && [a, b] + [c] == [a, b, c];
    SumFilterSnoc(f, p, [], a);
    SumFilterSnoc(f, p, [a], b);
    SumFilterSnoc(f, p, [a, b], c);
  }

  /** Filtering four elements of which only the first fails the test leaves the other three. */
  lemma FilterDropsFirstOfFour<T>(p: T -> bool, a: T, b: T, c: T, d: T)
    requires !p(a) && p(b) && p(c) && p(d)
    ensures Filter(p, [a, b, c, d]) == [b, c, d]
  {
    assert [] + [a] == [a] && [a] + [b] == [a, b] && [a, b] + [c] == [a, b, c] && [a, b, c] + [d] == [a, b, c, d];
    FilterSnoc(p, [], a);
    FilterSnoc(p, [a], b);
    FilterSnoc(p, [a, b], c);
    FilterSnoc(p, [a, b, c], d);
  }

  /** Map over a four-element list, element by element. */
  lemma MapOfFour<A, B>(f: A -> B, a: A, b: A, c: A, d: A)
    ensures Map(f, [a, b, c, d]) == [f(a), f(b), f(c), f(d)]
  {
  }

  /**
   * Three of the demo transactions of the seed action, placed in April 2024: the paycheck on
   * the 2nd, the groceries on the 3rd, the rent on the 10th. The net is positive and shown as $760.01.
   */
  lemma SeedTotals()
    ensures PeriodTotals(SeedTransactions()) == Totals(200000, 123999, 76001)
    ensures Money(PeriodTotals(SeedTransactions()).net) == "$760.01"
  {
    SeedIncomeAndExpense();
    SeedNetShown();
  }

  lemma SeedNetShown()
    ensures Money(76001) == "$760.01"
  {
    assert 76001 / 100 == 760 && 76001 / 10 % 10 == 0 && 76001 % 10 == 1;
    assert Decimal(7) == "7";
    assert Decimal(76) == Decimal(7) + "6";
    assert Decimal(760) == Decimal(76) + "0";
    assert ToFixed2(76001) == "" + "760" + "." + "01";
  }

  lemma SeedIncomeAndExpense()
    ensures TotalIncome(SeedTransactions()) == 200000
    ensures TotalExpense(SeedTransactions()) == 123999
  {
    var txns := SeedTransactions();
    var t1, t2, t3 := txns[0], txns[1], txns[2];
    assert txns == [t1, t2, t3];
    SumFilterOfThree(Amount, IsIncome, t1, t2, t3);
    SumFilterOfThree(Magnitude, IsExpense, t1, t2, t3);
    assert IsIncome(t1) && !IsIncome(t2) && !IsIncome(t3);
    assert !IsExpense(t1) && IsExpense(t2) && IsExpense(t3);
  }

  /** April 2024 has 30 bars; the paycheck is the income of day 2 and the groceries the expense of day 3. */
  lemma SeedDaily()
    ensures |Daily(SeedTransactions(), 2024, 4)| == 30
    ensures Daily(SeedTransactions(), 2024, 4)[1] == DaySummary(2, 200000, 0)
    ensures Daily(SeedTransactions(), 2024, 4)[2] == DaySummary(3, 0, 3999)
  {
    var txns := SeedTransactions();
    var t1, t2, t3 := txns[0], txns[1], txns[2];
    assert txns == [t1, t2, t3];
    SumFilterOfThree(Amount, IncomeOnDay(2), t1, t2, t3);
    SumFilterOfThree(Magnitude, ExpenseOnDay(2), t1, t2, t3);
    SumFilterOfThree(Amount, IncomeOnDay(3), t1, t2, t3);
    SumFilterOfThree(Magnitude, ExpenseOnDay(3), t1, t2, t3);
  }

  /** The row of a seed category: what it earned and what it spent. */
  lemma SeedRow(c: Category, income: int, expense: int)
    requires c in SeedCategories()
    requires c.id == "w" ==> income == 200000 && expense == 0
    requires c.id == "f" ==> income == 0 && expense == 3999
    requires c.id == "r" ==> income == 0 && expense == 120000
    requires c.id == "e" ==> income == 0 && expense == 0
    ensures Summarize(SeedTransactions(), c) == CategorySummary(c.name, c.color.value, income, expense)
  {
    var txns := SeedTransactions();
    var t1, t2, t3 := txns[0], txns[1], txns[2];
    assert txns == [t1, t2, t3];
    assert IsIncome(t1) && !IsIncome(t2) && !IsIncome(t3);
    assert !IsExpense(t1) && IsExpense(t2) && IsExpense(t3);
    SumFilterOfThree(Amount, InCategory(c.id, IsIncome), t1, t2, t3);
    SumFilterOfThree(Magnitude, InCategory(c.id, IsExpense), t1, t2, t3);
  }

  /** Against the four demo categories in name order, Entertainment has no transaction and gets no row. */
  lemma SeedByCat()
    ensures ByCat(SeedTransactions(), SeedCategories()) == [
      CategorySummary("Food", "#ef4444", 0, 3999),
      CategorySummary("Rent", "#3b82f6", 0, 120000),
      CategorySummary("Work", "#10b981", 200000, 0)]
  {
    var txns, cats := SeedTransactions(), SeedCategories();
    var rows := Map(SummaryOf(txns), cats);
    var r0 := CategorySummary("Entertainment", "#a855f7", 0, 0);
    var r1 := CategorySummary("Food", "#ef4444", 0, 3999);
    var r2 := CategorySummary("Rent", "#3b82f6", 0, 120000);
    var r3 := CategorySummary("Work", "#10b981", 200000, 0);
    SeedRow(cats[0], 0, 0);
    SeedRow(cats[1], 0, 3999);
    SeedRow(cats[2], 0, 120000);
    SeedRow(cats[3], 200000, 0);
    MapOfFour(SummaryOf(txns), cats[0], cats[1], cats[2], cats[3]);
    assert rows == [r0, r1, r2, r3];
    FilterDropsFirstOfFour(IsActive, r0, r1, r2, r3);
  }
}
