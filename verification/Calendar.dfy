/** Days of the proleptic Gregorian calendar, numbered from 0000-01-01, and the two names
    a day's shard has: the date in its file name and the alias it is ATTACHed under. */
module Calendar {
  import opened Text

  datatype Date = Date(year: nat, month: nat, day: nat)

  predicate Leap(year: nat) { year % 4 == 0 && (year % 100 != 0 || year % 400 == 0) }

  function DaysIn(year: nat, month: nat): nat {
    if month == 2 then (if Leap(year) then 29 else 28)
    else if month in {4, 6, 9, 11} then 30
    else 31
  }

  predicate Valid(d: Date) { 1 <= d.month <= 12 && 1 <= d.day <= DaysIn(d.year, d.month) }

  /** Go's `AddDate(0, 0, 1)`. */
  function Next(d: Date): Date {
    if d.day < DaysIn(d.year, d.month) then d.(day := d.day + 1)
    else if d.month < 12 then Date(d.year, d.month + 1, 1)
    else Date(d.year + 1, 1, 1)
  }

  function Civil(n: nat): (d: Date)
    ensures Valid(d)
  {
    if n == 0 then Date(0, 1, 1) else Next(Civil(n - 1))
  }

  function DaysBeforeMonth(year: nat, month: nat): nat
    requires 1 <= month <= 12
  {
    [0, 31, 59, 90, 120, 151, 181, 212, 243, 273, 304, 334][month - 1]
    + (if month > 2 && Leap(year) then 1 else 0)
  }

  /** The number of the day, in closed form. */
  function DayNumber(d: Date): int
    requires Valid(d)
  {
    365 * d.year + (d.year + 3) / 4 - (d.year + 99) / 100 + (d.year + 399) / 400
    + DaysBeforeMonth(d.year, d.month) + d.day - 1
  }

  lemma Quotients(y: nat)
    ensures (y + 4) / 4 == (y + 3) / 4 + (if y % 4 == 0 then 1 else 0)
    ensures (y + 100) / 100 == (y + 99) / 100 + (if y % 100 == 0 then 1 else 0)
    ensures (y + 400) / 400 == (y + 399) / 400 + (if y % 400 == 0 then 1 else 0)
  {
    var q4, q100, q400 := y / 4, y / 100, y / 400;
    assert y == 4 * q4 + y % 4 && y == 100 * q100 + y % 100 && y == 400 * q400 + y % 400;
  }

  lemma LeapStep(y: nat)
    ensures (y + 4) / 4 - (y + 100) / 100 + (y + 400) / 400
         == (y + 3) / 4 - (y + 99) / 100 + (y + 399) / 400 + (if Leap(y) then 1 else 0)
  {
    Quotients(y);
    if y % 400 == 0 { FourHundreds(y / 400); }
    if y % 100 == 0 { Hundreds(y / 100); }
  }

  lemma FourHundreds(q: nat)
    ensures 400 * q % 100 == 0
  {
    var k := 4 * q;
    assert 100 * k % 100 == 0;
  }

  lemma Hundreds(q: nat)
    ensures 100 * q % 4 == 0
  {
    var k := 25 * q;
    assert 4 * k % 4 == 0;
  }

  lemma NextDayNumber(d: Date)
    requires Valid(d)
    ensures Valid(Next(d)) && DayNumber(Next(d)) == DayNumber(d) + 1
  {
    if d.day == DaysIn(d.year, d.month) && d.month == 12 {
      LeapStep(d.year);
    }
  }

  /** Counting days forward and the closed form agree. */
  lemma {:induction false} DayNumberOfCivil(n: nat)
    ensures DayNumber(Civil(n)) == n
  {
    if n > 0 {
      DayNumberOfCivil(n - 1);
      NextDayNumber(Civil(n - 1));
    }
  }

  predicate Earlier(a: Date, b: Date) {
    a.year < b.year || (a.year == b.year && (a.month < b.month || (a.month == b.month && a.day < b.day)))
  }

  lemma {:induction false} CivilOrder(m: nat, n: nat)
    requires m < n
    ensures Earlier(Civil(m), Civil(n))
    decreases n
  {
    if m < n - 1 {
      CivilOrder(m, n - 1);
    }
  }

  /** The first day whose year needs five digits. */
  const DAYS := 3652425

  lemma FourDigitYear(n: nat)
    requires n < DAYS
    ensures Civil(n).year < 10000
  {
    DayNumberOfCivil(n);
  }

  type Day = n: nat | n < DAYS

  // ---- 2006-01-02 ----

  function FormatDate(d: Date): (s: string)
    ensures |s| == 10
  {
    Pad(d.year, 4) + "-" + Pad(d.month, 2) + "-" + Pad(d.day, 2)
  }

  function ParseDate(s: string): Option<Date> {
    if |s| == 10 && AllDigits(s[..4]) && s[4] == '-' && AllDigits(s[5..7]) && s[7] == '-' && AllDigits(s[8..]) then
      var d := Date(Number(s[..4]), Number(s[5..7]), Number(s[8..]));
      if Valid(d) then Some(d) else None
    else None
  }

  lemma ParseFormat(d: Date)
    requires Valid(d) && d.year < 10000
    ensures ParseDate(FormatDate(d)) == Some(d)
  {
    var s := FormatDate(d);
    Pow10Table();
    NumberPad(d.year, 4); NumberPad(d.month, 2); NumberPad(d.day, 2);
    assert s[..4] == Pad(d.year, 4) && s[5..7] == Pad(d.month, 2) && s[8..] == Pad(d.day, 2);
  }

  lemma FormatParse(s: string)
    requires ParseDate(s).Some?
    ensures FormatDate(ParseDate(s).value) == s
  {
    PadNumber(s[..4]); PadNumber(s[5..7]); PadNumber(s[8..]);
    DateParts(s);
  }

  lemma DateParts(s: string)
    requires |s| == 10 && s[4] == '-' && s[7] == '-'
    ensures s == s[..4] + "-" + s[5..7] + "-" + s[8..]
  {
  }

  function Name(n: Day): string { FormatDate(Civil(n)) }

  lemma NameInjective(m: Day, n: Day)
    requires Name(m) == Name(n)
    ensures m == n
  {
    FourDigitYear(m); FourDigitYear(n);
    ParseFormat(Civil(m)); ParseFormat(Civil(n));
    DayNumberOfCivil(m); DayNumberOfCivil(n);
  }

  // ---- the ATTACH alias ----

  /** `"d" + strings.ReplaceAll(date, "-", "")` */
  function Alias(date: string): string { "d" + ReplaceAll(date, '-', "") }

  lemma {:induction false} NoDash(s: string)
    requires AllDigits(s)
    ensures ReplaceAll(s, '-', "") == s
  {
    ReplaceAllAbsent(s, '-', "");
  }

  lemma AliasOfDate(d: Date)
    ensures Alias(FormatDate(d)) == "d" + (Pad(d.year, 4) + Pad(d.month, 2) + Pad(d.day, 2))
  {
    var y, m, e := Pad(d.year, 4), Pad(d.month, 2), Pad(d.day, 2);
    NoDash(y); NoDash(m); NoDash(e);
    assert ReplaceAll("-", '-', "") == "";
    ReplaceAllConcat(y + "-" + m + "-", e, '-', "");
    ReplaceAllConcat(y + "-" + m, "-", '-', "");
    ReplaceAllConcat(y + "-", m, '-', "");
    ReplaceAllConcat(y, "-", '-', "");
  }

  /** Ordering result rows by their `shard` column is ordering them by calendar day. */
  lemma AliasOrder(m: Day, n: Day)
    ensures m < n <==> Less(Alias(Name(m)), Alias(Name(n)))
    ensures m == n <==> Alias(Name(m)) == Alias(Name(n))
  {
    LessTrichotomy(Alias(Name(m)), Alias(Name(n)));
    if m < n { AliasLess(m, n); }
    if n < m { AliasLess(n, m); }
  }

  lemma AliasLess(m: Day, n: Day)
    requires m < n
    ensures Less(Alias(Name(m)), Alias(Name(n)))
  {
    var a, b := Civil(m), Civil(n);
    FourDigitYear(m); FourDigitYear(n); CivilOrder(m, n);
    AliasOfDate(a); AliasOfDate(b);
    Pow10Table();
    var y, mo, d := Pad(a.year, 4), Pad(a.month, 2), Pad(a.day, 2);
    var y', mo', d' := Pad(b.year, 4), Pad(b.month, 2), Pad(b.day, 2);
    if a.year < b.year {
      PadLess(a.year, b.year, 4);
      LessExtend(y, y', mo + d, mo' + d');
    } else if a.month < b.month {
      PadLess(a.month, b.month, 2);
      LessExtend(mo, mo', d, d');
      LessPrefix(y, mo + d, mo' + d');
    } else {
      PadLess(a.day, b.day, 2);
      LessPrefix(y + mo, d, d');
      assert y + mo + d == y + (mo + d) && y' + mo' + d' == y' + (mo' + d');
    }
    assert y + mo + d == y + (mo + d) && y' + mo' + d' == y' + (mo' + d');
    LessPrefix("d", y + mo + d, y' + mo' + d');
  }
}
