/** Names in the archive directory and which of them prune_archives deletes
    (backend/app/services/maintenance.py). */
module ArchiveFiles {
  import opened Wrappers
  import opened Months

  function Target(table: string, p: string): string {
    table + "-" + p + ".native.gz"
  }

  /** target.with_suffix(".tmp") */
  function Temp(table: string, p: string): string {
    table + "-" + p + ".native.tmp"
  }

  lemma TargetsDiffer(table: string, p: string, q: string)
    ensures Target(table, p) == Target(table, q) ==> p == q
    ensures Temp(table, p) == Temp(table, q) ==> p == q
    ensures Target(table, p) != Temp(table, q)
  {
    var a, b, c := Target(table, p), Target(table, q), Temp(table, q);
    assert a[|a| - 1] == 'z' && c[|c| - 1] == 'p';
    assert a[|table| + 1..|a| - 10] == p && b[|table| + 1..|b| - 10] == q;
    var d := Temp(table, p);
    assert d[|table| + 1..|d| - 11] == p && c[|table| + 1..|c| - 11] == q;
  }

  // ----------------------------------------------------------------- prune_archives

  /** The glob f"{table}-*.native.gz". */
  predicate Matches(table: string, name: string) {
    |table| + 11 <= |name| && name[..|table| + 1] == table + "-" && name[|name| - 10..] == ".native.gz"
  }

  /** s.split(c)[-1] */
  function LastPiece(s: string, c: char): string {
    if c in s then LastPiece(s[1..], c) else s
  }

  /** s.split(c)[0] */
  function FirstPiece(s: string, c: char): string {
    if s == "" || s[0] == c then "" else [s[0]] + FirstPiece(s[1..], c)
  }

  function Stem(name: string): string {
    FirstPiece(LastPiece(name, '-'), '.')
  }

  function Cutoff(year: int, month: int, retention: int): string
    requires IsMonth(year, month) && 1010 <= year && 1 <= retention <= 120
  {
    var months := year * 12 + month - retention;
    Name(months / 12, months % 12 + 1)
  }

  /** What the loop unlinks. */
  predicate Doomed(table: string, cutoff: string, name: string) {
    Matches(table, name) && IsNumeric(Stem(name)) && Less(Stem(name), cutoff)
  }

  lemma {:induction false} LastPieceOf(a: string, c: char, b: string)
    requires c !in b
    ensures LastPiece(a + [c] + b, c) == b
  {
    var s := a + [c] + b;
    if a == "" {
      assert s[0] == c && s[1..] == b;
    } else {
      assert s[|a|] == c;
      assert s[1..] == a[1..] + [c] + b;
      LastPieceOf(a[1..], c, b);
    }
  }

  lemma {:induction false} FirstPieceOf(a: string, c: char, b: string)
    requires c !in a
    ensures FirstPiece(a + [c] + b, c) == a
  {
    var s := a + [c] + b;
    if a == "" {
      assert s[0] == c;
    } else {
      assert s[0] == a[0] && s[1..] == a[1..] + [c] + b;
      FirstPieceOf(a[1..], c, b);
    }
  }

  /** The month is read back from the file name, whatever the table is called. */
  lemma StemOfTarget(table: string, y: int, m: int)
    requires IsMonth(y, m)
    ensures Matches(table, Target(table, Name(y, m))) && Stem(Target(table, Name(y, m))) == Name(y, m)
  {
    NamesAreNumeric(y, m);
    var tail := Name(y, m) + ".native.gz";
    var name := Target(table, Name(y, m));
    assert name == table + ['-'] + tail;
    assert '-' !in ".native.gz";
    LastPieceOf(table, '-', tail);
    assert tail == Name(y, m) + ['.'] + "native.gz";
    FirstPieceOf(Name(y, m), '.', "native.gz");
    assert name[..|table| + 1] == table + "-" && name[|name| - 10..] == ".native.gz";
  }

  /** Today's cutoff is the name of the month retention - 1 months ago. */
  lemma CutoffIs(year: int, month: int, retention: int)
    requires IsMonth(year, month) && 1010 <= year && 1 <= retention <= 120
    ensures var i := Index(year, month) + 1 - retention;
            IsMonth(i / 12, i % 12 + 1) && Cutoff(year, month, retention) == Name(i / 12, i % 12 + 1)
  {
  }

  /** Exactly the months with index at most now - retention go. */
  lemma PruneDeletesExactly(table: string, year: int, month: int, retention: int, y: int, m: int)
    requires IsMonth(year, month) && 1010 <= year && 1 <= retention <= 120 && IsMonth(y, m)
    ensures Doomed(table, Cutoff(year, month, retention), Target(table, Name(y, m))) <==>
            Index(y, m) <= Index(year, month) - retention
  {
    StemOfTarget(table, y, m);
    NamesAreNumeric(y, m);
    CutoffIs(year, month, retention);
    var i := Index(year, month) + 1 - retention;
    NamesAreOrdered(y, m, i / 12, i % 12 + 1);
  }

  function DaysIn(year: int, month: int): int {
    if month == 2 then (if year % 4 == 0 && (year % 100 != 0 || year % 400 == 0) then 29 else 28)
    else if month in {4, 6, 9, 11} then 30
    else 31
  }

  /** A row of the given month and day leaves the table `ttl` months after its timestamp, on the last day of
      that month if the month is too short. */
  predicate Expired(rowMonth: int, rowDay: int, year: int, month: int, day: int, ttl: int) {
    rowMonth + ttl < Index(year, month) ||
    (rowMonth + ttl == Index(year, month) && Min(rowDay, DaysIn(year, month)) <= day)
  }

  predicate IsDay(year: int, month: int, day: int) {
    IsMonth(year, month) && 1 <= day <= DaysIn(year, month)
  }

  /** A day on which prune_archives may run, and a number of months it may be configured to keep. */
  predicate Today(year: int, month: int, day: int, kept: int) {
    IsDay(year, month, day) && 1010 <= year && 1 <= kept <= 120
  }

  /** Today's pruning deletes the file of a month that has a row the table still keeps. */
  predicate GoesEarly(table: string, year: int, month: int, day: int, kept: int, ttl: int, y: int, m: int, rowDay: int)
    requires Today(year, month, day, kept) && IsMonth(y, m)
  {
    && Doomed(table, Cutoff(year, month, kept), Target(table, Name(y, m)))
    && !Expired(Index(y, m), rowDay, year, month, day, ttl)
  }

  /** It keeps the file of a month that has a row the table does not keep any more. */
  predicate StaysLate(table: string, year: int, month: int, day: int, kept: int, ttl: int, y: int, m: int, rowDay: int)
    requires Today(year, month, day, kept) && IsMonth(y, m)
  {
    && !Doomed(table, Cutoff(year, month, kept), Target(table, Name(y, m)))
    && Expired(Index(y, m), rowDay, year, month, day, ttl)
  }

  /** Two numbers decide: rows leave the table after `ttl` months, a setting that the web application changes,
      and files go after the `kept` months of the configuration, which it does not change.  A file goes as soon
      as its month's first day is out of that window. */
  lemma PruneVersusExpiry(table: string, year: int, month: int, day: int, kept: int, ttl: int,
                          y: int, m: int, rowDay: int)
    requires Today(year, month, day, kept) && IsDay(y, m, rowDay)
    ensures var age, last := Index(year, month) - Index(y, m), Min(rowDay, DaysIn(year, month));
            && (GoesEarly(table, year, month, day, kept, ttl, y, m, rowDay) <==>
                kept <= age && (age < ttl || (age == ttl && day < last)))
            && (StaysLate(table, year, month, day, kept, ttl, y, m, rowDay) <==>
                age < kept && (ttl < age || (ttl == age && last <= day)))
  {
    PruneDeletesExactly(table, year, month, kept, y, m);
  }

  lemma MonthAt(i: int)
    requires 1000 * 12 <= i <= 9999 * 12 + 11
    ensures IsMonth(i / 12, i % 12 + 1) && Index(i / 12, i % 12 + 1) == i
  {
  }

  /** No file goes today while the table keeps any of its rows if and only if the configuration keeps more
      months than the table, or as many and all days of the month that many months ago have passed. */
  lemma NothingGoesEarlyIff(table: string, year: int, month: int, day: int, kept: int, ttl: int)
    requires Today(year, month, day, kept) && 1 <= ttl <= 120
    ensures var i := Index(year, month) - kept;
            (forall y, m, rowDay :: IsDay(y, m, rowDay) ==>
              !GoesEarly(table, year, month, day, kept, ttl, y, m, rowDay))
            <==> kept > ttl || (kept == ttl && Min(DaysIn(i / 12, i % 12 + 1), DaysIn(year, month)) <= day)
  {
    var i := Index(year, month) - kept;
    var y0, m0 := i / 12, i % 12 + 1;
    MonthAt(i);
    if kept > ttl || (kept == ttl && Min(DaysIn(y0, m0), DaysIn(year, month)) <= day) {
      forall y, m, rowDay | IsDay(y, m, rowDay)
        ensures !GoesEarly(table, year, month, day, kept, ttl, y, m, rowDay)
      {
        PruneVersusExpiry(table, year, month, day, kept, ttl, y, m, rowDay);
        SameIndex(y, m, y0, m0);
      }
    } else {
      assert IsDay(y0, m0, DaysIn(y0, m0));
      PruneVersusExpiry(table, year, month, day, kept, ttl, y0, m0, DaysIn(y0, m0));
    }
  }

  lemma SameIndex(y: int, m: int, y': int, m': int)
    requires IsMonth(y, m) && IsMonth(y', m')
    ensures Index(y, m) == Index(y', m') ==> y == y' && m == m'
  {
  }

  /** No file is still there after one of its rows has left the table if and only if the configuration keeps
      no more months than the table. */
  lemma NothingStaysLateIff(table: string, year: int, month: int, day: int, kept: int, ttl: int)
    requires Today(year, month, day, kept) && 1 <= ttl <= 120
    ensures (forall y, m, rowDay :: IsDay(y, m, rowDay) ==>
              !StaysLate(table, year, month, day, kept, ttl, y, m, rowDay))
            <==> kept <= ttl
  {
    if kept <= ttl {
      forall y, m, rowDay | IsDay(y, m, rowDay)
        ensures !StaysLate(table, year, month, day, kept, ttl, y, m, rowDay)
      {
        PruneVersusExpiry(table, year, month, day, kept, ttl, y, m, rowDay);
      }
    } else {
      var i := Index(year, month) - ttl;
      MonthAt(i);
      assert IsDay(i / 12, i % 12 + 1, 1);
      PruneVersusExpiry(table, year, month, day, kept, ttl, i / 12, i % 12 + 1, 1);
    }
  }

  /** The glob does not stop at this table's files: an export of the table "<table>-<other>" in
      the same directory is deleted by the same rule. */
  lemma PrunesForeignTables(table: string, other: string, year: int, month: int, retention: int, y: int, m: int)
    requires IsMonth(year, month) && 1010 <= year && 1 <= retention <= 120 && IsMonth(y, m)
    ensures Doomed(table, Cutoff(year, month, retention), Target(table + "-" + other, Name(y, m))) <==>
            Index(y, m) <= Index(year, month) - retention
  {
    var foreign := table + "-" + other;
    var name := Target(foreign, Name(y, m));
    PruneDeletesExactly(foreign, year, month, retention, y, m);
    StemOfTarget(foreign, y, m);
    assert name[..|table| + 1] == table + "-";
  }
}
