/**
 * The dashboard's currency format: an optional minus sign, a dollar sign, the whole
 * dollars in decimal and exactly two cent digits. Amounts are integer cents; the
 * source's division by 100 before `toFixed(2)` is display scaling only.
 */
module Currency {
  import opened Wrappers

  function Abs(x: int): nat {
    if x < 0 then -x else x
  }

  predicate IsDigit(c: char) {
    '0' <= c <= '9'
  }

  function DigitChar(d: int): (c: char)
    requires 0 <= d <= 9
    ensures IsDigit(c)
  {
    ('0' as int + d) as char
  }

  function DigitValue(c: char): int {
    c as int - '0' as int
  }

  /** Reads a string of decimal digits, most significant first. */
  function DecimalValue(s: string): int {
    if s == [] then 0 else 10 * DecimalValue(s[..|s| - 1]) + DigitValue(s[|s| - 1])
  }

  /** The decimal numeral of `n`: digits only, no leading zero, and it reads back as `n`. */
  function Decimal(n: nat): (s: string)
    ensures |s| >= 1 && (|s| > 1 ==> s[0] != '0')
    ensures forall i :: 0 <= i < |s| ==> IsDigit(s[i])
    ensures DecimalValue(s) == n
  {
    if n < 10 then [DigitChar(n)]
    else
      var s := Decimal(n / 10) + [DigitChar(n % 10)];
      assert s[..|s| - 1] == Decimal(n / 10);
      s
  }

  /** `(c / 100).toFixed(2)` for a whole number of cents `c`. */
  function ToFixed2(c: int): string {
    var a := Abs(c);
    (if c < 0 then "-" else "") + Decimal(a / 100) + "." + [DigitChar(a / 10 % 10), DigitChar(a % 10)]
  }

  /** `money(cents)`: the sign, then `$`, then the magnitude with two decimals. */
  function Money(cents: int): string {
    (if cents < 0 then "-" else "") + "$" + ToFixed2(Abs(cents))
  }

  predicate AllDigits(s: string) {
    forall i :: 0 <= i < |s| ==> IsDigit(s[i])
  }

  /** Reads `$<dollars>.<two digits>` as a number of cents. */
  function ParseUnsigned(body: string): Option<int> {
    if |body| < 5 || body[0] != '$' || body[|body| - 3] != '.' then None
    else
      var dollars, d1, d2 := body[1..|body| - 3], body[|body| - 2], body[|body| - 1];
      if AllDigits(dollars) && IsDigit(d1) && IsDigit(d2)
      then Some(CentsOf(dollars, d1, d2))
      else None
  }

  function CentsOf(dollars: string, d1: char, d2: char): int {
    100 * DecimalValue(dollars) + 10 * DigitValue(d1) + DigitValue(d2)
  }

  /** Reads back a string in the format Money writes; None for anything else. */
  function ParseMoney(s: string): Option<int> {
    if |s| > 0 && s[0] == '-' then
      match ParseUnsigned(s[1..])
      case Some(v) => Some(-v)
      case None => None
    else ParseUnsigned(s)
  }

  /** A string of the shape Money produces reads back as the amount its digits spell. */
  lemma ParseFormatted(dollars: string, d1: char, d2: char)
    requires |dollars| >= 1 && AllDigits(dollars) && IsDigit(d1) && IsDigit(d2)
    ensures ParseUnsigned("$" + dollars + "." + [d1, d2])
            == Some(CentsOf(dollars, d1, d2))
  {
    var body := ['$'] + dollars + ['.', d1, d2];
    assert "$" + dollars + "." + [d1, d2] == body;
    var n := |dollars|;
    assert |body| == n + 4;
    assert body[0] == '$' && body[n + 1] == '.' && body[n + 2] == d1 && body[n + 3] == d2;
    assert body[1..n + 1] == dollars;
  }

  /** A non-negative amount, formatted without its sign, reads back as itself. */
  lemma UnsignedRoundTrip(a: nat)
    ensures ParseUnsigned("$" + ToFixed2(a)) == Some(a)
  {
    var dollars := Decimal(a / 100);
    var d1, d2 := DigitChar(a / 10 % 10), DigitChar(a % 10);
    assert "$" + ToFixed2(a) == "$" + dollars + "." + [d1, d2];
    ParseFormatted(dollars, d1, d2);
    CentsDigits(a);
  }

  /** Every amount of cents survives formatting: Money loses no information. */
  lemma MoneyRoundTrip(c: int)
    ensures ParseMoney(Money(c)) == Some(c)
  {
    var body := "$" + ToFixed2(Abs(c));
    UnsignedRoundTrip(Abs(c));
    if c < 0 {
      assert Money(c) == "-" + body && Money(c)[1..] == body;
    } else {
      assert Money(c) == body;
    }
  }

  /** Dollars, tens of cents and cents put back together give the amount. */
  lemma CentsDigits(a: nat)
    ensures 100 * (a / 100) + 10 * (a / 10 % 10) + a % 10 == a
  {
    var q := a / 10;
    assert a == 10 * q + a % 10;
    assert q == 10 * (q / 10) + q % 10;
    assert q / 10 == a / 100;
  }

  /** Distinct amounts are shown as distinct strings. */
  lemma MoneyInjective(a: int, b: int)
    requires Money(a) == Money(b)
    ensures a == b
  {
    MoneyRoundTrip(a);
    MoneyRoundTrip(b);
  }

  /** A negative amount is its magnitude's string behind a minus sign. */
  lemma MoneyNegative(c: int)
    requires c > 0
    ensures Money(-c) == "-" + Money(c)
  {
  }

  /** A non-negative amount is `$` and its two-decimal form, with no sign. */
  lemma MoneyOfNonNegative(c: int)
    requires c >= 0
    ensures Money(c) == "$" + ToFixed2(c)
  {
    assert "" + "$" == "$";
  }

  /** The string starts with a minus sign exactly when the amount is negative. */
  lemma MoneySign(c: int)
    ensures Money(c)[0] == '-' <==> c < 0
    ensures c >= 0 ==> Money(c)[0] == '$'
  {
  }

  /** Zero cents is shown as $0.00. */
  lemma MoneyZero()
    ensures Money(0) == "$0.00"
  {
  }
}
