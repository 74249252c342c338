/** Days of the calendar and the file names they get. */
module Calendar {
  import opened Bytes

  datatype Date = Date(year: nat, month: nat, day: nat)

  predicate Leap(year: nat) {
    year % 4 == 0 && (year % 100 != 0 || year % 400 == 0)
  }

  function MonthDays(year: nat, month: nat): nat {
    if month == 2 then if Leap(year) then 29 else 28
    else if month == 4 || month == 6 || month == 9 || month == 11 then 30
    else 31
  }

  predicate Valid(d: Date) {
    1 <= d.year && 1 <= d.month <= 12 && 1 <= d.day <= MonthDays(d.year, d.month)
  }

  function Next(d: Date): (e: Date)
    requires Valid(d)
    ensures Valid(e) && Before(d, e)
  {
    if d.day < MonthDays(d.year, d.month) then d.(day := d.day + 1)
    else if d.month < 12 then Date(d.year, d.month + 1, 1)
    else Date(d.year + 1, 1, 1)
  }

  /** The day so many days after 1 January of year 1. */
  function DateOf(n: nat): (d: Date)
    ensures Valid(d)
  {
    if n == 0 then Date(1, 1, 1) else Next(DateOf(n - 1))
  }

  predicate Before(a: Date, b: Date) {
    a.year < b.year || (a.year == b.year && (a.month < b.month || (a.month == b.month && a.day < b.day)))
  }

  /** Counting days agrees with comparing dates. */
  lemma {:induction false} DatesFollowDays(a: nat, b: nat)
    requires a < b
    ensures Before(DateOf(a), DateOf(b))
    decreases b
  {
    if a < b - 1 {
      DatesFollowDays(a, b - 1);
    }
  }

  lemma DaysFollowDates(a: nat, b: nat)
    ensures Before(DateOf(a), DateOf(b)) <==> a < b
  {
    if a < b {
      DatesFollowDays(a, b);
    } else if b < a {
      DatesFollowDays(b, a);
    }
  }

  // ----- names -------------------------------------------------------------------------------

  function DigitOf(n: nat): (c: char)
    requires n < 10
    ensures '0' <= c <= '9' && c as int == '0' as int + n
  {
    '0' + n as char
  }

  function TwoDigits(n: nat): (s: string)
    requires n < 100
    ensures |s| == 2
  {
    [DigitOf(n / 10), DigitOf(n % 10)]
  }

  /** At least four digits. */
  function FourDigits(n: nat): (s: string)
    ensures n < 10000 ==> |s| == 4
  {
    if n < 10000 then TwoDigits(n / 100) + TwoDigits(n % 100) else FourDigits(n / 10) + [DigitOf(n % 10)]
  }

  const SUFFIX: string := ".ndjson"

  function NameOf(d: Date): string
    requires Valid(d)
  {
    FourDigits(d.year) + ("-" + (TwoDigits(d.month) + ("-" + (TwoDigits(d.day) + SUFFIX))))
  }

  /** The order file names are sorted in. */
  predicate Lex(a: string, b: string) {
    if b == "" then false
    else if a == "" then true
    else a[0] < b[0] || (a[0] == b[0] && Lex(a[1..], b[1..]))
  }

  lemma {:induction false} LexPieces(a: string, b: string, x: string, y: string)
    requires |a| == |b|
    ensures Lex(a + x, b + y) <==> Lex(a, b) || (a == b && Lex(x, y))
  {
    if a == "" {
      assert a + x == x && b + y == y;
    } else {
      assert (a + x)[0] == a[0] && (a + x)[1..] == a[1..] + x;
      assert (b + y)[0] == b[0] && (b + y)[1..] == b[1..] + y;
      assert a == [a[0]] + a[1..] && b == [b[0]] + b[1..];
      LexPieces(a[1..], b[1..], x, y);
    }
  }

  lemma LexTwoDigits(m: nat, n: nat)
    requires m < 100 && n < 100
    ensures Lex(TwoDigits(m), TwoDigits(n)) <==> m < n
    ensures TwoDigits(m) == TwoDigits(n) <==> m == n
  {
    var a, b := TwoDigits(m), TwoDigits(n);
    assert a[0] == DigitOf(m / 10) && a[1] == DigitOf(m % 10);
    assert b[0] == DigitOf(n / 10) && b[1] == DigitOf(n % 10);
    assert Lex(a[1..], b[1..]) <==> a[1] < b[1] || (a[1] == b[1] && Lex(a[1..][1..], b[1..][1..]));
    assert b[1..][1..] == "";
    assert m == 10 * (m / 10) + m % 10 && n == 10 * (n / 10) + n % 10;
  }

  lemma LexFourDigits(m: nat, n: nat)
    requires m < 10000 && n < 10000
    ensures Lex(FourDigits(m), FourDigits(n)) <==> m < n
    ensures FourDigits(m) == FourDigits(n) <==> m == n
  {
    LexTwoDigits(m / 100, n / 100);
    LexTwoDigits(m % 100, n % 100);
    LexPieces(TwoDigits(m / 100), TwoDigits(n / 100), TwoDigits(m % 100), TwoDigits(n % 100));
    assert FourDigits(m)[..2] == TwoDigits(m / 100) && FourDigits(m)[2..] == TwoDigits(m % 100);
    assert FourDigits(n)[..2] == TwoDigits(n / 100) && FourDigits(n)[2..] == TwoDigits(n % 100);
  }

  lemma {:induction false} LexIrreflexive(s: string)
    ensures !Lex(s, s)
  {
    if s != "" {
      LexIrreflexive(s[1..]);
    }
  }

  lemma {:induction false} LexOrders(a: string, b: string, c: string)
    ensures Lex(a, b) ==> !Lex(b, a)
    ensures a != b ==> Lex(a, b) || Lex(b, a)
    ensures Lex(a, b) && Lex(b, c) ==> Lex(a, c)
  {
    if a != "" && b != "" {
      assert a == [a[0]] + a[1..] && b == [b[0]] + b[1..];
      LexOrders(a[1..], b[1..], if c == "" then c else c[1..]);
    }
  }

  lemma LexDash(x: string, y: string)
    ensures Lex("-" + x, "-" + y) <==> Lex(x, y)
  {
    assert ("-" + x)[1..] == x && ("-" + y)[1..] == y;
  }

  /** Up to the year 9999 the names sort as the days they are for. */
  lemma NamesFollowDates(a: Date, b: Date)
    requires Valid(a) && Valid(b) && a.year <= 9999 && b.year <= 9999
    ensures Lex(NameOf(a), NameOf(b)) <==> Before(a, b)
  {
    var da, db := TwoDigits(a.day) + SUFFIX, TwoDigits(b.day) + SUFFIX;
    var ma, mb := TwoDigits(a.month) + ("-" + da), TwoDigits(b.month) + ("-" + db);
    LexIrreflexive(SUFFIX);
    LexTwoDigits(a.day, b.day);
    LexPieces(TwoDigits(a.day), TwoDigits(b.day), SUFFIX, SUFFIX);
    LexDash(da, db);
    LexTwoDigits(a.month, b.month);
    LexPieces(TwoDigits(a.month), TwoDigits(b.month), "-" + da, "-" + db);
    LexDash(ma, mb);
    LexFourDigits(a.year, b.year);
    LexPieces(FourDigits(a.year), FourDigits(b.year), "-" + ma, "-" + mb);
  }

  /** From the year 10000 on they no longer do. */
  lemma NamesFailAfter9999()
    ensures var a, b := Date(9999, 12, 31), Date(10000, 1, 1);
            Valid(a) && Valid(b) && Next(a) == b && Lex(NameOf(b), NameOf(a))
  {
    var a, b := Date(9999, 12, 31), Date(10000, 1, 1);
    assert NameOf(a)[0] == FourDigits(9999)[0] == TwoDigits(99)[0] == '9';
    assert FourDigits(10000) == FourDigits(1000) + [DigitOf(0)];
    assert NameOf(b)[0] == FourDigits(1000)[0] == TwoDigits(10)[0] == '1';
  }

  lemma YearsGrow(a: nat, b: nat)
    requires a <= b
    ensures DateOf(a).year <= DateOf(b).year
  {
    if a < b {
      DatesFollowDays(a, b);
    }
  }

  /** The first day of the year 10000, if there is a day that late. */
  lemma {:induction false} FirstLongYear(n: nat) returns (m: nat)
    requires DateOf(n).year > 9999
    ensures 0 < m <= n && DateOf(m - 1) == Date(9999, 12, 31) && DateOf(m) == Date(10000, 1, 1)
  {
    if DateOf(n - 1).year > 9999 {
      m := FirstLongYear(n - 1);
    } else {
      m := n;
    }
  }

  /** The names of all days up to some day sort as the days do exactly if that day is no later than
      the year 9999. */
  lemma NamesSortUpToIff(n: nat)
    ensures (forall a: nat, b: nat | a <= n && b <= n :: Lex(NameOf(DateOf(a)), NameOf(DateOf(b))) <==> a < b)
            <==> DateOf(n).year <= 9999
  {
    hide NameOf, Lex, DateOf;
    if DateOf(n).year <= 9999 {
      forall a: nat, b: nat | a <= n && b <= n
        ensures Lex(NameOf(DateOf(a)), NameOf(DateOf(b))) <==> a < b
      {
        YearsGrow(a, n);
        YearsGrow(b, n);
        NamesFollowDates(DateOf(a), DateOf(b));
        DaysFollowDates(a, b);
      }
    } else {
      var m := FirstLongYear(n);
      NamesFailAfter9999();
      assert Lex(NameOf(DateOf(m)), NameOf(DateOf(m - 1)));
    }
  }

  // ----- reading names -----------------------------------------------------------------------

  function DigitValue(c: char): int {
    if '0' <= c <= '9' then c as int - '0' as int else -1
  }

  function TwoDigitValue(s: string): int
    requires |s| == 2
  {
    if DigitValue(s[0]) < 0 || DigitValue(s[1]) < 0 then -1 else 10 * DigitValue(s[0]) + DigitValue(s[1])
  }

  /** The date a file is for, if its name is a date followed by the suffix. */
  function DateOfName(name: string): (d: Option<Date>)
    ensures d.Some? ==> Valid(d.value)
  {
    if |name| != 10 + |SUFFIX| || name[10..] != SUFFIX || name[4] != '-' || name[7] != '-' then None
    else
      var century, year, month, day :=
        TwoDigitValue(name[0..2]), TwoDigitValue(name[2..4]), TwoDigitValue(name[5..7]), TwoDigitValue(name[8..10]);
      if century < 0 || year < 0 || month < 0 || day < 0 || !Valid(Date(100 * century + year, month, day)) then None
      else Some(Date(100 * century + year, month, day))
  }

  lemma TwoDigitsRead(n: nat)
    requires n < 100
    ensures TwoDigitValue(TwoDigits(n)) == n
  {
  }

  lemma DigitsRead(s: string)
    requires |s| == 2 && TwoDigitValue(s) >= 0
    ensures TwoDigitValue(s) < 100 && s == TwoDigits(TwoDigitValue(s))
  {
    assert s == [s[0], s[1]];
  }

  /** A name that reads as a date is the name of that date and no other text. */
  lemma OnlyNamesRead(name: string, d: Date)
    ensures DateOfName(name) == Some(d) <==> Valid(d) && d.year <= 9999 && name == NameOf(d)
  {
    if DateOfName(name) == Some(d) {
      DigitsRead(name[0..2]);
      DigitsRead(name[2..4]);
      DigitsRead(name[5..7]);
      DigitsRead(name[8..10]);
      assert name == name[0..2] + name[2..4] + ("-" + (name[5..7] + ("-" + (name[8..10] + name[10..]))));
    } else if Valid(d) && d.year <= 9999 && name == NameOf(d) {
      NameReadsBack(d);
    }
  }

  lemma NameReadsBack(d: Date)
    requires Valid(d) && d.year <= 9999
    ensures DateOfName(NameOf(d)) == Some(d)
  {
    var name := NameOf(d);
    TwoDigitsRead(d.year / 100);
    TwoDigitsRead(d.year % 100);
    TwoDigitsRead(d.month);
    TwoDigitsRead(d.day);
    assert name[0..2] == TwoDigits(d.year / 100) && name[2..4] == TwoDigits(d.year % 100);
    assert name[5..7] == TwoDigits(d.month) && name[8..10] == TwoDigits(d.day);
    assert name[10..] == SUFFIX && name[4] == '-' && name[7] == '-';
  }
}
