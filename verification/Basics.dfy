/**
  What several models share: optional values, orders on text, decimal numerals and
  the size of a subset.
*/
module Basics {

  datatype Option<+T> = None | Some(value: T)

  // ---------- Orders on text ----------

  type TextOrder = (string, string) -> bool

  /** The runtime's collation is assumed to be one of these. */
  ghost predicate StrictTotal(less: TextOrder) {
    && (forall a :: !less(a, a))
    && (forall a, b, c :: less(a, b) && less(b, c) ==> less(a, c))
    && (forall a, b :: a == b || less(a, b) || less(b, a))
  }

  // ---------- Decimal numerals ----------

  function Decimal(n: nat): string {
    if n < 10 then ["0123456789"[n]] else Decimal(n / 10) + ["0123456789"[n % 10]]
  }

  lemma {:induction false} DecimalDigits(n: nat)
    ensures var d := Decimal(n); |d| > 0 && forall i :: 0 <= i < |d| ==> '0' <= d[i] <= '9'
  {
    if n >= 10 { DecimalDigits(n / 10); }
  }

  lemma DigitUnique(a: nat, b: nat)
    requires a < 10 && b < 10 && "0123456789"[a] == "0123456789"[b]
    ensures a == b
  {}

  lemma DecimalLast(n: nat)
    ensures var d := Decimal(n);
      && |d| > 0 && d[|d| - 1] == "0123456789"[n % 10]
      && (n < 10 <==> |d| == 1) && (n >= 10 ==> d[..|d| - 1] == Decimal(n / 10))
  {
    if n >= 10 {
      DecimalDigits(n / 10);
      var d, h := Decimal(n), Decimal(n / 10);
      assert d == h + ["0123456789"[n % 10]];
    }
  }

  /** A numeral determines its number. */
  lemma {:induction false} DecimalUnique(m: nat, n: nat)
    requires Decimal(m) == Decimal(n)
    ensures m == n
  {
    hide Decimal;
    DecimalLast(m);
    DecimalLast(n);
    DigitUnique(m % 10, n % 10);
    if m >= 10 { DecimalUnique(m / 10, n / 10); }
  }

  // ---------- Sets ----------

  lemma CardinalitySubset<T>(a: set<T>, b: set<T>)
    requires a <= b
    ensures |a| <= |b| && (a != b ==> |a| < |b|)
  {
    if a != {} {
      var x :| x in a;
      CardinalitySubset(a - {x}, b - {x});
    }
  }

  function Repeat(c: char, n: nat): (s: string)
    ensures |s| == n && forall i :: 0 <= i < n ==> s[i] == c
  {
    seq(n, _ => c)
  }
}
