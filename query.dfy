/**
 * The page's query for one month's transactions, written as a predicate on a single
 * transaction: the date range [first of the month, first of the next month), a note
 * search when the search text is not blank, and a category when one is chosen.
 */
module Query {
  import opened Wrappers
  import opened Seqs
  import opened Calendar
  import opened Ledger

  /** The characters JavaScript's `String.prototype.trim` removes. */
  predicate IsJsWhitespace(c: char) {
    c == ' ' || c == '\t' || c == '\n' || c == '\r' || c == '\U{000B}' || c == '\U{000C}'
    || c == '\U{00A0}' || c == '\U{1680}' || ('\U{2000}' <= c <= '\U{200A}')
    || c == '\U{2028}' || c == '\U{2029}' || c == '\U{202F}' || c == '\U{205F}'
    || c == '\U{3000}' || c == '\U{FEFF}'
  }

  function TrimStart(s: string): string {
    if s != [] && IsJsWhitespace(s[0]) then TrimStart(s[1..]) else s
  }

  function TrimEnd(s: string): string {
    if s != [] && IsJsWhitespace(s[|s| - 1]) then TrimEnd(s[..|s| - 1]) else s
  }

  /** `s.trim()`. */
  function Trim(s: string): string {
    TrimEnd(TrimStart(s))
  }

  predicate IsBlank(s: string) {
    forall i :: 0 <= i < |s| ==> IsJsWhitespace(s[i])
  }

  lemma {:induction false} TrimStartEmpty(s: string)
    ensures TrimStart(s) == [] <==> IsBlank(s)
    ensures TrimStart(s) != [] ==> !IsJsWhitespace(TrimStart(s)[0])
  {
    if s != [] && IsJsWhitespace(s[0]) {
      TrimStartEmpty(s[1..]);
      assert forall i :: 1 <= i < |s| ==> s[i] == s[1..][i - 1];
    }
  }

  lemma {:induction false} TrimEndKeepsHead(s: string)
    requires s != [] && !IsJsWhitespace(s[0])
    ensures TrimEnd(s) != []
  {
    if IsJsWhitespace(s[|s| - 1]) {
      TrimEndKeepsHead(s[..|s| - 1]);
    }
  }

  /** `s.trim()` is empty exactly when every character of `s` is white space. */
  lemma TrimEmptyIffBlank(s: string)
    ensures Trim(s) == [] <==> IsBlank(s)
  {
    TrimStartEmpty(s);
    if TrimStart(s) != [] {
      TrimEndKeepsHead(TrimStart(s));
    }
  }

  predicate OccursAt(s: string, q: string, i: int) {
    0 <= i <= |s| - |q| && s[i..i + |q|] == q
  }

  /** A `contains` condition on a text column: `q` occurs somewhere in `s`. */
  predicate Contains(s: string, q: string) {
    exists i | 0 <= i <= |s| - |q| :: OccursAt(s, q, i)
  }

  /** The where-clause: the date range always, the note search and the category only when given. */
  function Where(year: int, month: int, q: Option<string>, categoryId: Option<string>): Txn -> bool
    requires 1 <= month <= 12
  {
    var ym := YearMonth(JsYear(year), month);
    (t: Txn) =>
      && FirstDay(ym) <= DayNumber(t.date) < FirstDay(NextMonth(ym))
      && (q.Some? && q.value != "" && Trim(q.value) != "" ==> t.note.Some? && Contains(t.note.value, q.value))
      && (categoryId.Some? && categoryId.value != "" ==> t.categoryId == categoryId)
  }

  /** The transactions the page aggregates. */
  function MonthTransactions(all: seq<Txn>, year: int, month: int, q: Option<string>, categoryId: Option<string>): seq<Txn>
    requires 1 <= month <= 12
  {
    Filter(Where(year, month, q, categoryId), all)
  }

  /**
   * Every transaction the query returns is dated in the selected month, so each has
   * an entry in the daily series: the aggregation's loop never indexes out of range.
   */
  lemma QueryScopesToMonth(all: seq<Txn>, year: int, month: int, q: Option<string>, categoryId: Option<string>)
    requires 1 <= month <= 12
    ensures var txns := MonthTransactions(all, year, month, q, categoryId);
      && AllInMonth(txns, year, month)
      && (forall t :: t in txns ==> t.date.year == JsYear(year) && t.date.month == month)
  {
    var txns := MonthTransactions(all, year, month, q, categoryId);
    var ym := YearMonth(JsYear(year), month);
    FilterMembers(Where(year, month, q, categoryId), all);
    forall t | t in txns
      ensures t.date.year == JsYear(year) && t.date.month == month
      ensures 1 <= t.date.day <= DaysInMonth(year, month)
    {
      assert Where(year, month, q, categoryId)(t);
      InMonthRange(t.date, ym);
    }
  }

  /** A valid date passes the date part of the query exactly when it lies in the selected month. */
  lemma DateRangeIsMonth(t: Txn, year: int, month: int)
    requires 1 <= month <= 12
    ensures Where(year, month, None, None)(t) <==> t.date.year == JsYear(year) && t.date.month == month
  {
    InMonthRange(t.date, YearMonth(JsYear(year), month));
  }

  /** Blank search text, like no search text, filters nothing out. */
  lemma BlankSearchIgnored(t: Txn, year: int, month: int, q: string, categoryId: Option<string>)
    requires 1 <= month <= 12 && IsBlank(q)
    ensures Where(year, month, Some(q), categoryId)(t) == Where(year, month, None, categoryId)(t)
  {
    TrimEmptyIffBlank(q);
  }

  /** A non-blank search keeps exactly the transactions whose note contains the search text; a blank one keeps all. */
  lemma SearchFilterExact(t: Txn, year: int, month: int, q: string, categoryId: Option<string>)
    requires 1 <= month <= 12
    ensures Where(year, month, Some(q), categoryId)(t)
            <==> Where(year, month, None, categoryId)(t) && (!IsBlank(q) ==> t.note.Some? && Contains(t.note.value, q))
  {
    TrimEmptyIffBlank(q);
  }

  /** A chosen category keeps exactly the transactions filed under it; an empty choice keeps all. */
  lemma CategoryFilterExact(t: Txn, year: int, month: int, q: Option<string>, id: string)
    requires 1 <= month <= 12
    ensures Where(year, month, q, Some(id))(t)
            <==> Where(year, month, q, None)(t) && (id != "" ==> t.categoryId == Some(id))
  {
  }
}
