/**
 * The monthly ledger aggregation of the dashboard page: the dense per-day
 * income/expense series, the per-category breakdown and the period totals,
 * all in integer cents.
 */
module Ledger {
  import opened Wrappers
  import opened Seqs
  import opened Calendar
  import opened Currency

  /** A category's declared kind; display metadata that the aggregation ignores. */
  datatype Kind = Income | Expense

  datatype Category = Category(id: string, name: string, kind: Kind, color: Option<string>)

  /** A transaction: a positive amount is income, a negative one an expense. Its date is a real calendar day. */
  datatype Txn = Txn(id: string, date: RealDate, amountCents: int, note: Option<string>, categoryId: Option<string>)

  /** One bar of the daily chart; `expense` holds the magnitude of the day's negative amounts. */
  datatype DaySummary = DaySummary(day: int, income: int, expense: int)

  /** One row of the per-category breakdown. */
  datatype CategorySummary = CategorySummary(name: string, color: string, income: int, expense: int)

  datatype Totals = Totals(income: int, expense: int, net: int)

  /** `daily[d - 1]` is undefined for a day past the end of the month, and updating it throws. */
  datatype AggregateError = DayOutOfRange(index: nat, day: int)

  /** Colour given to a category that has none. */
  const DefaultColor: string := "#64748b"

  function Amount(t: Txn): int { t.amountCents }
  function Magnitude(t: Txn): int { Abs(t.amountCents) }
  predicate IsIncome(t: Txn) { t.amountCents > 0 }
  predicate IsExpense(t: Txn) { t.amountCents < 0 }
  predicate HasCategory(t: Txn) { t.categoryId.Some? }

  function DayIncomeOf(d: DaySummary): int { d.income }
  function DayExpenseOf(d: DaySummary): int { d.expense }
  function CategoryIncomeOf(c: CategorySummary): int { c.income }
  function CategoryExpenseOf(c: CategorySummary): int { c.expense }

  // ---------------------------------------------------------------------------
  // The daily series
  // ---------------------------------------------------------------------------

  /** Transactions that count as income of day `day` (a zero amount goes to income). */
  function IncomeOnDay(day: int): Txn -> bool {
    (t: Txn) => t.date.day == day && t.amountCents >= 0
  }

  function ExpenseOnDay(day: int): Txn -> bool {
    (t: Txn) => t.date.day == day && t.amountCents < 0
  }

  function DayIncome(txns: seq<Txn>, day: int): int {
    Sum(Amount, Filter(IncomeOnDay(day), txns))
  }

  function DayExpense(txns: seq<Txn>, day: int): int {
    Sum(Magnitude, Filter(ExpenseOnDay(day), txns))
  }

  /** The daily series, stated day by day: entry `i` sums the transactions dated day `i + 1`. */
  function Daily(txns: seq<Txn>, year: int, month: int): (r: seq<DaySummary>)
    requires 1 <= month <= 12
  {
    seq(DaysInMonth(year, month), i => DayOf(txns, i + 1))
  }

  /** The bar of day `day`: the income and the expense of the transactions dated that day. */
  function DayOf(txns: seq<Txn>, day: int): DaySummary {
    DaySummary(day, DayIncome(txns, day), DayExpense(txns, day))
  }

  /** What the loop body does to the entry of the transaction's day. */
  function Route(s: DaySummary, t: Txn): DaySummary {
    if t.amountCents >= 0 then s.(income := s.income + t.amountCents)
    else s.(expense := s.expense + Abs(t.amountCents))
  }

  /** Every transaction's day exists in the month, so `daily[d - 1]` is defined for each. */
  predicate AllInMonth(txns: seq<Txn>, year: int, month: int)
    requires 1 <= month <= 12
  {
    forall k :: 0 <= k < |txns| ==> 1 <= txns[k].date.day <= DaysInMonth(year, month)
  }

  /** A new transaction adds to one day's income or expense, and only when it is dated that day. */
  lemma DaySnoc(txns: seq<Txn>, t: Txn, day: int)
    ensures DayIncome(txns + [t], day)
            == DayIncome(txns, day) + (if t.date.day == day && t.amountCents >= 0 then t.amountCents else 0)
    ensures DayExpense(txns + [t], day)
            == DayExpense(txns, day) + (if t.date.day == day && t.amountCents < 0 then Abs(t.amountCents) else 0)
  {
    SumFilterSnoc(Amount, IncomeOnDay(day), txns, t);
    SumFilterSnoc(Magnitude, ExpenseOnDay(day), txns, t);
  }

  /** Entry `i` of the series after adding `t`: Route applied on the transaction's day, unchanged elsewhere. */
  lemma DailyEntrySnoc(txns: seq<Txn>, t: Txn, year: int, month: int, i: int)
    requires 1 <= month <= 12
    requires 0 <= i < DaysInMonth(year, month)
    ensures |Daily(txns + [t], year, month)| == |Daily(txns, year, month)|
    ensures Daily(txns + [t], year, month)[i]
            == if i == t.date.day - 1 then Route(Daily(txns, year, month)[i], t) else Daily(txns, year, month)[i]
  {
    DayOfSnoc(txns, t, i + 1);
  }

  /** A new transaction changes the bar of its own day by Route and no other bar. */
  lemma DayOfSnoc(txns: seq<Txn>, t: Txn, day: int)
    ensures DayOf(txns + [t], day) == if t.date.day == day then Route(DayOf(txns, day), t) else DayOf(txns, day)
  {
    DaySnoc(txns, t, day);
  }

  /** Adding a transaction changes only the entry of its own day, by Route. */
  lemma DailySnoc(txns: seq<Txn>, t: Txn, year: int, month: int)
    requires 1 <= month <= 12
    requires 1 <= t.date.day <= DaysInMonth(year, month)
    ensures var before := Daily(txns, year, month);
      Daily(txns + [t], year, month) == before[t.date.day - 1 := Route(before[t.date.day - 1], t)]
  {
    var before := Daily(txns, year, month);
    var after := Daily(txns + [t], year, month);
    var expected := before[t.date.day - 1 := Route(before[t.date.day - 1], t)];
    assert |after| == |expected| == DaysInMonth(year, month);
    forall i | 0 <= i < |after|
      ensures after[i] == expected[i]
    {
      DailyEntrySnoc(txns, t, year, month, i);
    }
  }

  /** A prefix stays within the month when its next transaction does. */
  lemma AllInMonthSnoc(txns: seq<Txn>, t: Txn, year: int, month: int)
    requires 1 <= month <= 12
    requires AllInMonth(txns, year, month)
    requires 1 <= t.date.day <= DaysInMonth(year, month)
    ensures AllInMonth(txns + [t], year, month)
  {
    forall k | 0 <= k < |txns + [t]| ensures 1 <= (txns + [t])[k].date.day <= DaysInMonth(year, month) {
      if k < |txns| {
        assert (txns + [t])[k] == txns[k];
      }
    }
  }

  /**
   * The loop of the page: allocate one zeroed entry per day of the month, then add each
   * transaction to its day. A day outside the month makes the source throw; that is the
   * Failure result, naming the first such transaction.
   */
  method DailySeries(txns: seq<Txn>, year: int, month: int) returns (r: Result<seq<DaySummary>, AggregateError>)
    requires 1 <= month <= 12
    ensures r.Success? <==> AllInMonth(txns, year, month)
    ensures r.Success? ==> r.value == Daily(txns, year, month)
    ensures r.Failure? ==> var k := r.error.index;
      && k < |txns| && r.error.day == txns[k].date.day && AllInMonth(txns[..k], year, month)
      && !(1 <= r.error.day <= DaysInMonth(year, month))
  {
    var n := DaysInMonth(year, month);
    var daily := new DaySummary[n](i => DaySummary(i + 1, 0, 0));
    assert txns[..0] == [];
    DailyOfNothingIsZeros(year, month);
    for k := 0 to |txns|
      invariant daily.Length == n
      invariant daily[..] == Daily(txns[..k], year, month)
      invariant AllInMonth(txns[..k], year, month)
    {
      var t := txns[k];
      var d := t.date.day;
      if !(1 <= d <= n) {
        OutOfMonth(txns, k, year, month);
        return Failure(DayOutOfRange(k, d));
      }
      AddToDay(daily, t);
      DailyStep(txns, k, year, month);
    }
    assert txns[..|txns|] == txns;
    return Success(daily[..]);
  }

  /** One more transaction of the list, dated within the month, moves the series on by Route. */
  lemma DailyStep(txns: seq<Txn>, k: int, year: int, month: int)
    requires 1 <= month <= 12
    requires 0 <= k < |txns| && 1 <= txns[k].date.day <= DaysInMonth(year, month)
    requires AllInMonth(txns[..k], year, month)
    ensures var before, d := Daily(txns[..k], year, month), txns[k].date.day;
      Daily(txns[..k + 1], year, month) == before[d - 1 := Route(before[d - 1], txns[k])]
    ensures AllInMonth(txns[..k + 1], year, month)
  {
    assert txns[..k + 1] == txns[..k] + [txns[k]];
    DailySnoc(txns[..k], txns[k], year, month);
    AllInMonthSnoc(txns[..k], txns[k], year, month);
  }

  /** Every prefix of a list dated within the month is dated within the month. */
  lemma AllInMonthPrefix(txns: seq<Txn>, k: int, year: int, month: int)
    requires 1 <= month <= 12
    requires 0 <= k <= |txns| && AllInMonth(txns, year, month)
    ensures AllInMonth(txns[..k], year, month)
  {
  }

  /** The loop body: the transaction's amount goes to its day's income, or its magnitude to the day's expense. */
  method AddToDay(daily: array<DaySummary>, t: Txn)
    requires 1 <= t.date.day <= daily.Length
    modifies daily
    ensures daily[..] == old(daily[..])[t.date.day - 1 := Route(old(daily[t.date.day - 1]), t)]
  {
    var d := t.date.day;
    if t.amountCents >= 0 {
      daily[d - 1] := daily[d - 1].(income := daily[d - 1].income + t.amountCents);
    } else {
      daily[d - 1] := daily[d - 1].(expense := daily[d - 1].expense + Abs(t.amountCents));
    }
  }

  /** With no transactions, the series is the freshly allocated one: day `i + 1` with zero income and expense. */
  lemma DailyOfNothingIsZeros(year: int, month: int)
    requires 1 <= month <= 12
    ensures Daily([], year, month) == seq(DaysInMonth(year, month), i => DaySummary(i + 1, 0, 0))
  {
    forall i | 0 <= i < DaysInMonth(year, month)
      ensures Daily([], year, month)[i] == DaySummary(i + 1, 0, 0)
    {
      assert Filter(IncomeOnDay(i + 1), []) == [];
      assert Filter(ExpenseOnDay(i + 1), []) == [];
    }
  }

  /** One transaction dated outside the month is enough to break AllInMonth. */
  lemma OutOfMonth(txns: seq<Txn>, k: int, year: int, month: int)
    requires 1 <= month <= 12
    requires 0 <= k < |txns| && !(1 <= txns[k].date.day <= DaysInMonth(year, month))
    ensures !AllInMonth(txns, year, month)
  {
  }

  /** Every day's income and expense are non-negative. */
  lemma DailyNonNegative(txns: seq<Txn>, year: int, month: int)
    requires 1 <= month <= 12
    ensures forall i :: 0 <= i < |Daily(txns, year, month)| ==>
      Daily(txns, year, month)[i].income >= 0 && Daily(txns, year, month)[i].expense >= 0
  {
    forall i | 0 <= i < |Daily(txns, year, month)|
      ensures Daily(txns, year, month)[i].income >= 0 && Daily(txns, year, month)[i].expense >= 0
    {
      FilterMembers(IncomeOnDay(i + 1), txns);
      FilterMembers(ExpenseOnDay(i + 1), txns);
      SumNonNegative(Amount, Filter(IncomeOnDay(i + 1), txns));
      SumNonNegative(Magnitude, Filter(ExpenseOnDay(i + 1), txns));
    }
  }

  // ---------------------------------------------------------------------------
  // Totals
  // ---------------------------------------------------------------------------

  function TotalIncome(txns: seq<Txn>): int {
    Sum(Amount, Filter(IsIncome, txns))
  }

  function TotalExpense(txns: seq<Txn>): int {
    Sum(Magnitude, Filter(IsExpense, txns))
  }

  /** Income and expense over the whole period, and the net, which is negative when expense exceeds income. */
  function PeriodTotals(txns: seq<Txn>): (r: Totals)
    ensures r.income >= 0 && r.expense >= 0
    ensures r.net == r.income - r.expense
  {
    FilterMembers(IsIncome, txns);
    FilterMembers(IsExpense, txns);
    SumNonNegative(Amount, Filter(IsIncome, txns));
    SumNonNegative(Magnitude, Filter(IsExpense, txns));
    var income, expense := TotalIncome(txns), TotalExpense(txns);
    Totals(income, expense, income - expense)
  }

  /** A new transaction adds its amount to the income total or its magnitude to the expense total. */
  lemma TotalsSnoc(txns: seq<Txn>, t: Txn)
    ensures TotalIncome(txns + [t]) == TotalIncome(txns) + (if t.amountCents > 0 then t.amountCents else 0)
    ensures TotalExpense(txns + [t]) == TotalExpense(txns) + (if t.amountCents < 0 then Abs(t.amountCents) else 0)
  {
    SumFilterSnoc(Amount, IsIncome, txns, t);
    SumFilterSnoc(Magnitude, IsExpense, txns, t);
  }

  /** With no transactions every bar is zero. */
  lemma DailyOfNothing(year: int, month: int)
    requires 1 <= month <= 12
    ensures Sum(DayIncomeOf, Daily([], year, month)) == 0
    ensures Sum(DayExpenseOf, Daily([], year, month)) == 0
    ensures forall i :: 0 <= i < |Daily([], year, month)| ==>
              Daily([], year, month)[i].day == i + 1 && Daily([], year, month)[i].income == 0 && Daily([], year, month)[i].expense == 0
  {
    var days := Daily([], year, month);
    DailyOfNothingIsZeros(year, month);
    forall d | d in days ensures DayIncomeOf(d) == 0 && DayExpenseOf(d) == 0 {
      var i :| 0 <= i < |days| && days[i] == d;
    }
    SumZeros(DayIncomeOf, days);
    SumZeros(DayExpenseOf, days);
  }

  /** The daily bars add up to the totals: no cent is lost or counted twice. */
  lemma {:induction false} DailyConservesTotals(txns: seq<Txn>, year: int, month: int)
    requires 1 <= month <= 12
    requires AllInMonth(txns, year, month)
    ensures Sum(DayIncomeOf, Daily(txns, year, month)) == TotalIncome(txns)
    ensures Sum(DayExpenseOf, Daily(txns, year, month)) == TotalExpense(txns)
  {
    if txns == [] {
      DailyOfNothing(year, month);
    } else {
      var init, t := txns[..|txns| - 1], txns[|txns| - 1];
      assert txns == init + [t];
      AllInMonthPrefix(txns, |txns| - 1, year, month);
      DailyConservesTotals(init, year, month);
      ConservationSnoc(init, t, year, month);
    }
  }

  /** The step of the conservation proof: one more transaction adds the same amount to the bars and to the totals. */
  lemma ConservationSnoc(init: seq<Txn>, t: Txn, year: int, month: int)
    requires 1 <= month <= 12
    requires 1 <= t.date.day <= DaysInMonth(year, month)
    requires Sum(DayIncomeOf, Daily(init, year, month)) == TotalIncome(init)
    requires Sum(DayExpenseOf, Daily(init, year, month)) == TotalExpense(init)
    ensures Sum(DayIncomeOf, Daily(init + [t], year, month)) == TotalIncome(init + [t])
    ensures Sum(DayExpenseOf, Daily(init + [t], year, month)) == TotalExpense(init + [t])
  {
    var before := Daily(init, year, month);
    var i := t.date.day - 1;
    var entry := Route(before[i], t);
    DailySnoc(init, t, year, month);
    SumUpdate(DayIncomeOf, before, i, entry);
    SumUpdate(DayExpenseOf, before, i, entry);
    assert entry.income - before[i].income == if t.amountCents > 0 then t.amountCents else 0;
    assert entry.expense - before[i].expense == if t.amountCents < 0 then Abs(t.amountCents) else 0;
    TotalsSnoc(init, t);
  }

  // ---------------------------------------------------------------------------
  // The per-category breakdown
  // ---------------------------------------------------------------------------

  /** Transactions of category `id` that satisfy `p`. */
  function InCategory(id: string, p: Txn -> bool): Txn -> bool {
    (t: Txn) => t.categoryId == Some(id) && p(t)
  }

  function CategoryIncome(txns: seq<Txn>, id: string): int {
    Sum(Amount, Filter(InCategory(id, IsIncome), txns))
  }

  function CategoryExpense(txns: seq<Txn>, id: string): int {
    Sum(Magnitude, Filter(InCategory(id, IsExpense), txns))
  }

  /** A category's row: its name, its colour or the default one, and its matched income and expense. */
  function Summarize(txns: seq<Txn>, c: Category): (r: CategorySummary)
    ensures r.income >= 0 && r.expense >= 0
    ensures r.name == c.name
    ensures c.color.Some? ==> r.color == c.color.value
    ensures c.color.None? ==> r.color == DefaultColor
  {
    FilterMembers(InCategory(c.id, IsIncome), txns);
    FilterMembers(InCategory(c.id, IsExpense), txns);
    SumNonNegative(Amount, Filter(InCategory(c.id, IsIncome), txns));
    SumNonNegative(Magnitude, Filter(InCategory(c.id, IsExpense), txns));
    CategorySummary(c.name, c.color.GetOr(DefaultColor), CategoryIncome(txns, c.id), CategoryExpense(txns, c.id))
  }

  function SummaryOf(txns: seq<Txn>): Category -> CategorySummary {
    c => Summarize(txns, c)
  }

  predicate IsActive(s: CategorySummary) {
    s.income > 0 || s.expense > 0
  }

  /** `cats.map(...).filter(x => x.income > 0 || x.expense > 0)`. */
  function ByCat(txns: seq<Txn>, cats: seq<Category>): seq<CategorySummary> {
    Filter(IsActive, Map(SummaryOf(txns), cats))
  }

  /** The positions in `cats` of the categories ByCat keeps. */
  function ByCatPositions(txns: seq<Txn>, cats: seq<Category>): seq<nat> {
    Positions(IsActive, Map(SummaryOf(txns), cats))
  }

  /** Some transaction of the category has a non-zero amount. */
  ghost predicate HasActivity(txns: seq<Txn>, id: string) {
    exists t :: t in txns && t.categoryId == Some(id) && t.amountCents != 0
  }

  /** A category's row is active exactly when one of its transactions moves money. */
  lemma ActiveIffActivity(txns: seq<Txn>, c: Category)
    ensures IsActive(Summarize(txns, c)) <==> HasActivity(txns, c.id)
  {
    var incomes := Filter(InCategory(c.id, IsIncome), txns);
    var expenses := Filter(InCategory(c.id, IsExpense), txns);
    FilterMembers(InCategory(c.id, IsIncome), txns);
    FilterMembers(InCategory(c.id, IsExpense), txns);
    forall x | x in incomes ensures Amount(x) > 0 {
      assert InCategory(c.id, IsIncome)(x);
      assert IsIncome(x);
    }
    forall x | x in expenses ensures Magnitude(x) > 0 {
      assert InCategory(c.id, IsExpense)(x);
      assert IsExpense(x);
    }
    SumPositive(Amount, incomes);
    SumPositive(Magnitude, expenses);
    FilterEmpty(InCategory(c.id, IsIncome), txns);
    FilterEmpty(InCategory(c.id, IsExpense), txns);
    if HasActivity(txns, c.id) {
      var t :| t in txns && t.categoryId == Some(c.id) && t.amountCents != 0;
      assert IsIncome(t) || IsExpense(t);
      assert InCategory(c.id, IsIncome)(t) || InCategory(c.id, IsExpense)(t);
    }
  }

  /**
   * ByCat keeps the order of the category list and holds exactly the rows of the
   * categories that have a transaction with a non-zero amount.
   */
  lemma ByCatSelectsActive(txns: seq<Txn>, cats: seq<Category>)
    ensures var r, idx := ByCat(txns, cats), ByCatPositions(txns, cats);
      && |idx| == |r|
      && (forall k :: 0 <= k < |idx| ==> idx[k] < |cats| && r[k] == Summarize(txns, cats[idx[k]]))
      && (forall k, l :: 0 <= k < l < |idx| ==> idx[k] < idx[l])
      && (forall i :: 0 <= i < |cats| ==> (i in idx <==> HasActivity(txns, cats[i].id)))
  {
    var rows := Map(SummaryOf(txns), cats);
    FilterSelects(IsActive, rows);
    forall i | 0 <= i < |cats|
      ensures IsActive(rows[i]) <==> HasActivity(txns, cats[i].id)
    {
      ActiveIffActivity(txns, cats[i]);
    }
  }

  /** Every row of ByCat has non-negative amounts, at least one of them positive. */
  lemma ByCatRowsActive(txns: seq<Txn>, cats: seq<Category>)
    ensures forall x :: x in ByCat(txns, cats) ==> x.income >= 0 && x.expense >= 0 && (x.income > 0 || x.expense > 0)
  {
    var rows := Map(SummaryOf(txns), cats);
    FilterMembers(IsActive, rows);
    forall x | x in ByCat(txns, cats)
      ensures x.income >= 0 && x.expense >= 0 && (x.income > 0 || x.expense > 0)
    {
      assert x in rows;
      var i :| 0 <= i < |rows| && rows[i] == x;
      assert x == Summarize(txns, cats[i]);
    }
  }

  /** A transaction without a category falls in no bucket: removing all of them leaves ByCat unchanged. */
  lemma UncategorisedInNoBucket(txns: seq<Txn>, cats: seq<Category>)
    ensures ByCat(txns, cats) == ByCat(Filter(HasCategory, txns), cats)
  {
    var filtered := Filter(HasCategory, txns);
    forall c | c in cats
      ensures SummaryOf(txns)(c) == SummaryOf(filtered)(c)
    {
      FilterNarrowed(InCategory(c.id, IsIncome), HasCategory, txns);
      FilterNarrowed(InCategory(c.id, IsExpense), HasCategory, txns);
    }
    MapAgree(SummaryOf(txns), SummaryOf(filtered), cats);
  }

  /** A category's declared kind plays no part: the sign of each amount decides. */
  lemma KindIgnored(txns: seq<Txn>, c: Category, k: Kind)
    ensures Summarize(txns, c.(kind := k)) == Summarize(txns, c)
  {
  }

  function CategoryIds(cats: seq<Category>): set<string> {
    set c | c in cats :: c.id
  }

  /** Transactions whose category is one of `ids` and that satisfy `p`. */
  function InAnyCategory(ids: set<string>, p: Txn -> bool): Txn -> bool {
    (t: Txn) => t.categoryId.Some? && t.categoryId.value in ids && p(t)
  }

  /** Category ids are primary keys, so no two categories share one. */
  predicate DistinctIds(cats: seq<Category>) {
    forall i, j :: 0 <= i < j < |cats| ==> cats[i].id != cats[j].id
  }

  /** Adding a new id to a set of categories adds exactly that category's transactions. */
  lemma AnyCategorySplits(ids: set<string>, id: string, p: Txn -> bool)
    requires id !in ids
    ensures forall x :: (InAnyCategory(ids + {id}, p)(x) <==> InAnyCategory(ids, p)(x) || InCategory(id, p)(x))
                        && !(InAnyCategory(ids, p)(x) && InCategory(id, p)(x))
  {
  }

  /** The last of distinct categories brings an id the others do not have. */
  lemma LastCategory(cats: seq<Category>)
    requires DistinctIds(cats) && cats != []
    ensures var init, c := cats[..|cats| - 1], cats[|cats| - 1];
      && DistinctIds(init)
      && CategoryIds(cats) == CategoryIds(init) + {c.id}
      && c.id !in CategoryIds(init)
  {
    var init, c := cats[..|cats| - 1], cats[|cats| - 1];
    assert cats == init + [c];
  }

  /** Summed over distinct categories, the rows add up to the transactions filed under any of them. */
  lemma {:induction false} CategoryRowsAdd(txns: seq<Txn>, cats: seq<Category>)
    requires DistinctIds(cats)
    ensures Sum(CategoryIncomeOf, Map(SummaryOf(txns), cats))
            == Sum(Amount, Filter(InAnyCategory(CategoryIds(cats), IsIncome), txns))
    ensures Sum(CategoryExpenseOf, Map(SummaryOf(txns), cats))
            == Sum(Magnitude, Filter(InAnyCategory(CategoryIds(cats), IsExpense), txns))
  {
    var ids := CategoryIds(cats);
    if cats == [] {
      FilterEmpty(InAnyCategory(ids, IsIncome), txns);
      FilterEmpty(InAnyCategory(ids, IsExpense), txns);
    } else {
      var init, c := cats[..|cats| - 1], cats[|cats| - 1];
      var ids' := CategoryIds(init);
      LastCategory(cats);
      CategoryRowsAdd(txns, init);
      var rows' := Map(SummaryOf(txns), init);
      assert Map(SummaryOf(txns), cats) == rows' + [Summarize(txns, c)];
      SumSnoc(CategoryIncomeOf, rows', Summarize(txns, c));
      SumSnoc(CategoryExpenseOf, rows', Summarize(txns, c));
      AnyCategorySplits(ids', c.id, IsIncome);
      AnyCategorySplits(ids', c.id, IsExpense);
      SumFilterSplit(Amount, InAnyCategory(ids, IsIncome), InAnyCategory(ids', IsIncome), InCategory(c.id, IsIncome), txns);
      SumFilterSplit(Magnitude, InAnyCategory(ids, IsExpense), InAnyCategory(ids', IsExpense), InCategory(c.id, IsExpense), txns);
    }
  }

  /**
   * With distinct category ids, ByCat's incomes and expenses add up to the income and expense
   * of the transactions filed under a listed category, and so never exceed the period totals.
   */
  lemma ByCatWithinTotals(txns: seq<Txn>, cats: seq<Category>)
    requires DistinctIds(cats)
    ensures Sum(CategoryIncomeOf, ByCat(txns, cats)) == Sum(Amount, Filter(InAnyCategory(CategoryIds(cats), IsIncome), txns))
    ensures Sum(CategoryExpenseOf, ByCat(txns, cats)) == Sum(Magnitude, Filter(InAnyCategory(CategoryIds(cats), IsExpense), txns))
    ensures Sum(CategoryIncomeOf, ByCat(txns, cats)) <= PeriodTotals(txns).income
    ensures Sum(CategoryExpenseOf, ByCat(txns, cats)) <= PeriodTotals(txns).expense
  {
    var rows := Map(SummaryOf(txns), cats);
    forall x | x in rows ensures x.income >= 0 && x.expense >= 0 {
      var i :| 0 <= i < |rows| && rows[i] == x;
      assert x == Summarize(txns, cats[i]);
    }
    SumFilterDropsZeros(CategoryIncomeOf, IsActive, rows);
    SumFilterDropsZeros(CategoryExpenseOf, IsActive, rows);
    CategoryRowsAdd(txns, cats);
    SumFilterMonotone(Amount, InAnyCategory(CategoryIds(cats), IsIncome), IsIncome, txns);
    SumFilterMonotone(Magnitude, InAnyCategory(CategoryIds(cats), IsExpense), IsExpense, txns);
  }

  /** A zero amount, wherever it sits in the list, changes no daily bar. */
  lemma ZeroAmountKeepsDaily(a: seq<Txn>, t: Txn, b: seq<Txn>, year: int, month: int)
    requires t.amountCents == 0
    requires 1 <= month <= 12
    ensures Daily(a + [t] + b, year, month) == Daily(a + b, year, month)
  {
    var with, without := Daily(a + [t] + b, year, month), Daily(a + b, year, month);
    assert |with| == |without| == DaysInMonth(year, month);
    forall i | 0 <= i < |with|
      ensures with[i] == without[i]
    {
      ZeroAmountKeepsDay(a, t, b, i + 1);
    }
  }

  /** A zero amount adds nothing to any day's income or expense. */
  lemma ZeroAmountKeepsDay(a: seq<Txn>, t: Txn, b: seq<Txn>, day: int)
    requires t.amountCents == 0
    ensures DayOf(a + [t] + b, day) == DayOf(a + b, day)
  {
    SumFilterSkip(Amount, IncomeOnDay(day), a, t, b);
    SumFilterSkip(Magnitude, ExpenseOnDay(day), a, t, b);
  }

  /** A zero amount changes no category row. */
  lemma ZeroAmountKeepsByCat(a: seq<Txn>, t: Txn, b: seq<Txn>, cats: seq<Category>)
    requires t.amountCents == 0
    ensures ByCat(a + [t] + b, cats) == ByCat(a + b, cats)
  {
    var with, without := a + [t] + b, a + b;
    forall c | c in cats
      ensures SummaryOf(with)(c) == SummaryOf(without)(c)
    {
      assert !IsIncome(t) && !IsExpense(t);
      SumFilterSkip(Amount, InCategory(c.id, IsIncome), a, t, b);
      SumFilterSkip(Magnitude, InCategory(c.id, IsExpense), a, t, b);
    }
    MapAgree(SummaryOf(with), SummaryOf(without), cats);
  }

  /** A zero amount changes none of the totals. */
  lemma ZeroAmountKeepsTotals(a: seq<Txn>, t: Txn, b: seq<Txn>)
    requires t.amountCents == 0
    ensures PeriodTotals(a + [t] + b) == PeriodTotals(a + b)
  {
    assert !IsIncome(t) && !IsExpense(t);
    SumFilterSkip(Amount, IsIncome, a, t, b);
    SumFilterSkip(Magnitude, IsExpense, a, t, b);
  }
}
