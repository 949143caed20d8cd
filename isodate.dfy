/**
 * The ISO `YYYY-MM-DD` text of a date, and the fact that the page code
 * relies on when it compares `tx_date` strings with `>=` and `<`: for
 * four-digit years the string order is the (year, month, day) order.
 */
module IsoDate {
  import opened Calendar

  function DigitChar(k: int): char
    requires 0 <= k <= 9
  {
    ('0' as int + k) as char
  }

  function Pow10(n: nat): nat {
    if n == 0 then 1 else 10 * Pow10(n - 1)
  }

  /** The last n decimal digits of x, zero-padded (`String(x).padStart(n, "0")` for 0 <= x < 10^n). */
  function Digits(x: int, n: nat): (s: string)
    ensures |s| == n
    decreases n
  {
    if n == 0 then [] else Digits(x / 10, n - 1) + [DigitChar(x % 10)]
  }

  /** The ISO text of a date: four-digit year, two-digit month and day. */
  function Iso(d: Date): string {
    Digits(d.year, 4) + "-" + Digits(d.month, 2) + "-" + Digits(d.day, 2)
  }

  /** JavaScript's `<` on strings: lexicographic by code unit, a proper prefix first. */
  predicate StrLess(a: string, b: string) {
    if a == [] then b != []
    else if b == [] then false
    else if a[0] == b[0] then StrLess(a[1..], b[1..])
    else a[0] < b[0]
  }

  /** Comparing concatenations whose first parts have equal length. */
  lemma {:induction false} StrLessConcat(a1: string, a2: string, b1: string, b2: string)
    requires |a1| == |b1|
    ensures StrLess(a1 + a2, b1 + b2) <==> StrLess(a1, b1) || (a1 == b1 && StrLess(a2, b2))
  {
    if a1 == [] {
      assert a1 + a2 == a2 && b1 + b2 == b2;
    } else {
      assert (a1 + a2)[0] == a1[0] && (b1 + b2)[0] == b1[0];
      assert (a1 + a2)[1..] == a1[1..] + a2 && (b1 + b2)[1..] == b1[1..] + b2;
      StrLessConcat(a1[1..], a2, b1[1..], b2);
      if a1[0] == b1[0] {
        assert a1 == b1 <==> a1[1..] == b1[1..] by {
          if a1[1..] == b1[1..] { assert a1 == [a1[0]] + a1[1..] && b1 == [b1[0]] + b1[1..]; }
        }
      }
    }
  }

  lemma StrLessIrreflexive(a: string)
    ensures !StrLess(a, a)
  {
  }

  /** Fixed-width digit strings compare like the numbers they spell, and spell them uniquely. */
  lemma {:induction false} DigitsOrder(x: int, y: int, n: nat)
    requires 0 <= x < Pow10(n) && 0 <= y < Pow10(n)
    ensures StrLess(Digits(x, n), Digits(y, n)) <==> x < y
    ensures Digits(x, n) == Digits(y, n) <==> x == y
  {
    if n == 0 {
      assert x == 0 && y == 0;
    } else {
      var hx, hy := x / 10, y / 10;
      var lx, ly := x % 10, y % 10;
      assert 0 <= hx < Pow10(n - 1) && 0 <= hy < Pow10(n - 1);
      DigitsOrder(hx, hy, n - 1);
      StrLessConcat(Digits(hx, n - 1), [DigitChar(lx)], Digits(hy, n - 1), [DigitChar(ly)]);
      assert x == 10 * hx + lx && y == 10 * hy + ly;
      assert x < y <==> hx < hy || (hx == hy && lx < ly);
      var sx, sy := Digits(x, n), Digits(y, n);
      assert sx == Digits(hx, n - 1) + [DigitChar(lx)];
      assert sy == Digits(hy, n - 1) + [DigitChar(ly)];
      if sx == sy {
        assert sx[..n - 1] == Digits(hx, n - 1) && sy[..n - 1] == Digits(hy, n - 1);
        assert sx[n - 1] == DigitChar(lx) && sy[n - 1] == DigitChar(ly);
      }
    }
  }

  /** The date fields that the ISO text can spell. */
  predicate FourDigitDate(d: Date) {
    0 <= d.year <= 9999 && 0 <= d.month <= 99 && 0 <= d.day <= 99
  }

  /**
   * String comparison of ISO dates is date comparison, and equal texts are
   * equal dates; so `tx_date >= start` is `!Before(tx_date, start)`.
   */
  lemma IsoOrder(a: Date, b: Date)
    requires FourDigitDate(a) && FourDigitDate(b)
    ensures StrLess(Iso(a), Iso(b)) <==> Before(a, b)
    ensures Iso(a) == Iso(b) <==> a == b
  {
    IsoLess(a, b);
    IsoInjective(a, b);
  }

  /** `<` on the ISO texts of two four-digit-year dates is date order. */
  lemma IsoLess(a: Date, b: Date)
    requires FourDigitDate(a) && FourDigitDate(b)
    ensures StrLess(Iso(a), Iso(b)) <==> Before(a, b)
  {
    assert Pow10(2) == 100 && Pow10(4) == 10000;
    DigitsOrder(a.year, b.year, 4);
    DigitsOrder(a.month, b.month, 2);
    DigitsOrder(a.day, b.day, 2);
    var ya, yb := Digits(a.year, 4), Digits(b.year, 4);
    var ma, mb := Digits(a.month, 2), Digits(b.month, 2);
    var da, db := Digits(a.day, 2), Digits(b.day, 2);
    assert Iso(a) == ya + ("-" + (ma + ("-" + da)));
    assert Iso(b) == yb + ("-" + (mb + ("-" + db)));
    StrLessConcat(ya, "-" + (ma + ("-" + da)), yb, "-" + (mb + ("-" + db)));
    StrLessConcat("-", ma + ("-" + da), "-", mb + ("-" + db));
    StrLessConcat(ma, "-" + da, mb, "-" + db);
    StrLessConcat("-", da, "-", db);
    StrLessIrreflexive("-");
  }

  /** Two four-digit-year dates have the same ISO text only if they are equal. */
  lemma IsoInjective(a: Date, b: Date)
    requires FourDigitDate(a) && FourDigitDate(b)
    ensures Iso(a) == Iso(b) <==> a == b
  {
    // Distinct dates are ordered one way or the other, and no text is below itself.
    IsoLess(a, b);
    IsoLess(b, a);
    StrLessIrreflexive(Iso(a));
  }

  /**
   * `tx_date.slice(0, 7) + "-01"` is the ISO text of the first day of the
   * date's month.
   */
  lemma MonthStartText(d: Date)
    ensures Iso(d)[..7] + "-01" == Iso(MonthStart(d))
  {
    assert Digits(1, 2) == "01";
    assert Iso(d)[..7] == Digits(d.year, 4) + "-" + Digits(d.month, 2);
  }
}
