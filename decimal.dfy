/**
 * Decimal rendering of the image sides in the log lines (what `{w}` does
 * to a non-negative int inside an f-string), with the reading that undoes it.
 */
module Decimal {

  predicate IsDigit(c: char) {
    '0' <= c <= '9'
  }

  predicate AllDigits(s: string) {
    forall k :: 0 <= k < |s| ==> IsDigit(s[k])
  }

  function DigitChar(d: nat): (c: char)
    requires d < 10
    ensures IsDigit(c) && c as int - '0' as int == d
  {
    (d + '0' as int) as char
  }

  /** str(n): the shortest decimal numeral of n. */
  function Show(n: nat): (s: string)
    ensures s != [] && AllDigits(s)
    ensures s[0] == '0' ==> s == "0"
  {
    if n < 10 then [DigitChar(n)] else Show(n / 10) + [DigitChar(n % 10)]
  }

  /** The number a string of digits denotes. */
  function Value(s: string): nat
    requires AllDigits(s)
  {
    if s == [] then 0 else 10 * Value(s[..|s| - 1]) + (s[|s| - 1] as int - '0' as int)
  }

  /** Reading back a rendered number gives the number. */
  lemma {:induction false} ValueOfShow(n: nat)
    ensures Value(Show(n)) == n
  {
    if n >= 10 {
      var s := Show(n);
      assert s[..|s| - 1] == Show(n / 10);
      ValueOfShow(n / 10);
    }
  }

  /** Distinct numbers render differently. */
  lemma ShowInjective(a: nat, b: nat)
    requires Show(a) == Show(b)
    ensures a == b
  {
    ValueOfShow(a);
    ValueOfShow(b);
  }

  /**
   * Two strings made of digits, a non-digit and a rest agree piece by piece
   * when they agree as a whole: the first non-digit marks where the number ends.
   */
  lemma SplitAtNonDigit(a: string, x: char, b: string, c: string, y: char, d: string)
    requires AllDigits(a) && AllDigits(c)
    requires !IsDigit(x) && !IsDigit(y)
    requires a + [x] + b == c + [y] + d
    ensures a == c && x == y && b == d
  {
    var s := a + [x] + b;
    assert s[|a|] == x;
    assert (c + [y] + d)[|c|] == y;
    assert forall k :: 0 <= k < |a| ==> s[k] == a[k];
    assert forall k :: 0 <= k < |c| ==> s[k] == c[k];
    assert a == s[..|a|] == c;
    assert b == s[|a| + 1..] == d;
  }
}
