/**
 * The chart component's data for the expense pie: the category rows that have an
 * expense, each turned into a slice whose value is that expense.
 */
module ClientCharts {
  import opened Seqs
  import opened Ledger

  datatype PieSlice = PieSlice(name: string, value: int, color: string)

  function ToSlice(c: CategorySummary): PieSlice {
    PieSlice(c.name, c.expense, c.color)
  }

  predicate HasExpense(c: CategorySummary) {
    c.expense > 0
  }

  function SliceValue(s: PieSlice): int { s.value }

  /** `byCat.filter(c => c.expense > 0).map(c => ({ name, value: c.expense, color }))`. */
  function PieData(byCat: seq<CategorySummary>): seq<PieSlice> {
    Map(ToSlice, Filter(HasExpense, byCat))
  }

  /** The positions in `byCat` of the rows the pie shows. */
  function PiePositions(byCat: seq<CategorySummary>): seq<nat> {
    Positions(HasExpense, byCat)
  }

  /**
   * The pie shows, in the order of `byCat`, exactly its rows with a positive expense; each
   * slice copies the row's name and colour and takes its expense as value.
   */
  lemma PieSelectsExpenses(byCat: seq<CategorySummary>)
    ensures var pie, idx := PieData(byCat), PiePositions(byCat);
      && |pie| == |idx| <= |byCat|
      && (forall k :: 0 <= k < |idx| ==>
            idx[k] < |byCat| && pie[k] == PieSlice(byCat[idx[k]].name, byCat[idx[k]].expense, byCat[idx[k]].color))
      && (forall k, l :: 0 <= k < l < |idx| ==> idx[k] < idx[l])
      && (forall i :: 0 <= i < |byCat| ==> (i in idx <==> byCat[i].expense > 0))
      && (forall k :: 0 <= k < |pie| ==> pie[k].value > 0)
  {
    FilterSelects(HasExpense, byCat);
  }

  /** The slices add up to the breakdown's expenses: the rows left out have none. */
  lemma {:induction false} PieTotal(byCat: seq<CategorySummary>)
    requires forall c :: c in byCat ==> c.expense >= 0
    ensures Sum(SliceValue, PieData(byCat)) == Sum(CategoryExpenseOf, byCat)
  {
    var kept := Filter(HasExpense, byCat);
    SumFilterDropsZeros(CategoryExpenseOf, HasExpense, byCat);
    SumOfSlices(kept);
  }

  lemma {:induction false} SumOfSlices(rows: seq<CategorySummary>)
    ensures Sum(SliceValue, Map(ToSlice, rows)) == Sum(CategoryExpenseOf, rows)
  {
    if rows != [] {
      var init := rows[..|rows| - 1];
      SumOfSlices(init);
      assert Map(ToSlice, rows)[..|rows| - 1] == Map(ToSlice, init);
    }
  }

  /** The "No expenses this month." note is shown when the pie has no slice. */
  predicate ShowsNoExpenses(byCat: seq<CategorySummary>) {
    |PieData(byCat)| == 0
  }

  /** The note appears exactly when no row of the breakdown has a positive expense. */
  lemma NoExpensesNote(byCat: seq<CategorySummary>)
    ensures ShowsNoExpenses(byCat) <==> forall c :: c in byCat ==> c.expense <= 0
  {
    FilterEmpty(HasExpense, byCat);
  }

  /**
   * On the page's own breakdown the pie adds up to at most the month's expense, and the note
   * appears exactly when no expense is filed under a listed category.
   */
  lemma DashboardPie(txns: seq<Txn>, cats: seq<Category>)
    requires DistinctIds(cats)
    ensures Sum(SliceValue, PieData(ByCat(txns, cats))) <= PeriodTotals(txns).expense
    ensures ShowsNoExpenses(ByCat(txns, cats))
            <==> forall t :: t in txns && t.amountCents < 0 ==> !InAnyCategory(CategoryIds(cats), IsExpense)(t)
  {
    var byCat := ByCat(txns, cats);
    ByCatRowsActive(txns, cats);
    PieTotal(byCat);
    ByCatWithinTotals(txns, cats);
    NoExpensesNote(byCat);
    var ids := CategoryIds(cats);
    var filed := Filter(InAnyCategory(ids, IsExpense), txns);
    FilterMembers(InAnyCategory(ids, IsExpense), txns);
    FilterMembers(IsExpense, txns);
    forall x | x in filed ensures Magnitude(x) > 0 {
      assert InAnyCategory(ids, IsExpense)(x);
      assert IsExpense(x);
    }
    SumPositive(Magnitude, filed);
    FilterEmpty(InAnyCategory(ids, IsExpense), txns);
    FilterSumsPositive(byCat);
  }

  /** The breakdown's expenses sum to something positive exactly when some row has a positive expense. */
  lemma {:induction false} FilterSumsPositive(byCat: seq<CategorySummary>)
    requires forall c :: c in byCat ==> c.expense >= 0
    ensures Sum(CategoryExpenseOf, byCat) > 0 <==> exists c :: c in byCat && c.expense > 0
  {
    if byCat != [] {
      var init := byCat[..|byCat| - 1];
      FilterSumsPositive(init);
      SumNonNegative(CategoryExpenseOf, init);
      assert byCat == init + [byCat[|byCat| - 1]];
    }
  }
}
