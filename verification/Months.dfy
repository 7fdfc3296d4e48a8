/** The six-digit month names of partitions and archive files, and their order as strings
    (backend/app/services/maintenance.py). */
module Months {
  import opened Wrappers

  predicate IsMonth(year: int, month: int) {
    1000 <= year <= 9999 && 1 <= month <= 12
  }

  /** Months counted from year 0. */
  function Index(year: int, month: int): int {
    year * 12 + (month - 1)
  }

  function Digit(n: int): char
    requires 0 <= n <= 9
  {
    ('0' as int + n) as char
  }

  /** f"{year}{month:02d}" */
  function Name(year: int, month: int): string
    requires IsMonth(year, month)
  {
    [Digit(year / 1000), Digit(year / 100 % 10), Digit(year / 10 % 10), Digit(year % 10),
     Digit(month / 10), Digit(month % 10)]
  }

  /** Python's < on strings. */
  predicate Less(a: string, b: string) {
    if b == "" then false
    else if a == "" then true
    else a[0] < b[0] || (a[0] == b[0] && Less(a[1..], b[1..]))
  }

  /** One step of the comparison. */
  lemma LessStep(a: string, b: string, i: nat)
    requires i < |a| == |b|
    ensures Less(a[i..], b[i..]) <==> a[i] < b[i] || (a[i] == b[i] && Less(a[i + 1..], b[i + 1..]))
  {
    assert a[i..][1..] == a[i + 1..] && b[i..][1..] == b[i + 1..];
  }

  lemma LessOfSix(a: string, b: string)
    requires |a| == |b| == 6
    ensures Less(a, b) <==>
            a[0] < b[0] || (a[0] == b[0] && (
            a[1] < b[1] || (a[1] == b[1] && (
            a[2] < b[2] || (a[2] == b[2] && (
            a[3] < b[3] || (a[3] == b[3] && (
            a[4] < b[4] || (a[4] == b[4] && a[5] < b[5])))))))))
  {
    LessStep(a, b, 0);
    LessStep(a, b, 1);
    LessStep(a, b, 2);
    LessStep(a, b, 3);
    LessStep(a, b, 4);
    LessStep(a, b, 5);
    assert a[0..] == a && b[0..] == b;
  }

  /** Six digits compare as the number they spell. */
  lemma DigitsCompare(a0: int, a1: int, a2: int, a3: int, b0: int, b1: int, b2: int, b3: int)
    requires 0 <= a0 <= 9 && 0 <= a1 <= 9 && 0 <= a2 <= 9 && 0 <= a3 <= 9
    requires 0 <= b0 <= 9 && 0 <= b1 <= 9 && 0 <= b2 <= 9 && 0 <= b3 <= 9
    ensures 1000 * a0 + 100 * a1 + 10 * a2 + a3 < 1000 * b0 + 100 * b1 + 10 * b2 + b3 <==>
            a0 < b0 || (a0 == b0 && (a1 < b1 || (a1 == b1 && (a2 < b2 || (a2 == b2 && a3 < b3)))))
  {
  }

  lemma YearDigits(y: int)
    requires 1000 <= y <= 9999
    ensures y == 1000 * (y / 1000) + 100 * (y / 100 % 10) + 10 * (y / 10 % 10) + y % 10
    ensures 1 <= y / 1000 <= 9
  {
    assert y / 10 == 10 * (y / 100) + y / 10 % 10;
    assert y / 100 == 10 * (y / 1000) + y / 100 % 10;
  }

  /** String order is calendar order. */
  lemma NamesAreOrdered(y: int, m: int, y': int, m': int)
    requires IsMonth(y, m) && IsMonth(y', m')
    ensures Less(Name(y, m), Name(y', m')) <==> Index(y, m) < Index(y', m')
  {
    LessOfSix(Name(y, m), Name(y', m'));
    YearDigits(y);
    YearDigits(y');
    DigitsCompare(y / 1000, y / 100 % 10, y / 10 % 10, y % 10, y' / 1000, y' / 100 % 10, y' / 10 % 10, y' % 10);
    DigitsCompare(0, 0, m / 10, m % 10, 0, 0, m' / 10, m' % 10);
    assert m == 10 * (m / 10) + m % 10 && m' == 10 * (m' / 10) + m' % 10;
    if y == y' {
    } else if y < y' {
      assert Index(y, m) < Index(y', m');
    } else {
      assert Index(y, m) > Index(y', m');
    }
  }

  lemma NamesAreNumeric(y: int, m: int)
    requires IsMonth(y, m)
    ensures IsNumeric(Name(y, m)) && '-' !in Name(y, m) && '.' !in Name(y, m)
  {
  }
}
