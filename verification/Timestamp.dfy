/** UTC timestamps in the form of section 5.6 of RFC 3339, to whole seconds. */
module Timestamp {
  import opened Text

  /* ---- the calendar: days since 0000-01-01 ---- */

  predicate Leap(y: nat) {
    y % 4 == 0 && (y % 100 != 0 || y % 400 == 0)
  }

  function YearDays(y: nat): (n: nat)
    ensures n == 365 || n == 366
  {
    if Leap(y) then 366 else 365
  }

  function MonthDays(y: nat, m: nat): (n: nat)
    requires 1 <= m <= 12
    ensures 28 <= n <= 31
  {
    if m == 2 then (if Leap(y) then 29 else 28) else if m == 4 || m == 6 || m == 9 || m == 11 then 30 else 31
  }

  function DaysTo(y: nat): (n: nat) {
    if y == 0 then 0 else DaysTo(y - 1) + YearDays(y - 1)
  }

  function MonthsTo(y: nat, m: nat): (n: nat)
    requires 1 <= m <= 13
  {
    if m == 1 then 0 else MonthsTo(y, m - 1) + MonthDays(y, m - 1)
  }

  lemma YearOfMonths(y: nat)
    ensures MonthsTo(y, 13) == YearDays(y)
  {
    assert MonthsTo(y, 2) == 31;
    assert MonthsTo(y, 3) == 31 + MonthDays(y, 2);
    assert MonthsTo(y, 5) == MonthsTo(y, 3) + 61;
    assert MonthsTo(y, 7) == MonthsTo(y, 5) + 61;
    assert MonthsTo(y, 9) == MonthsTo(y, 7) + 62;
    assert MonthsTo(y, 11) == MonthsTo(y, 9) + 61;
    assert MonthsTo(y, 13) == MonthsTo(y, 11) + 61;
  }

  datatype Civil = Civil(year: nat, month: nat, day: nat)

  predicate ValidDate(c: Civil) {
    1 <= c.month <= 12 && 1 <= c.day <= MonthDays(c.year, c.month)
  }

  function DayNumber(c: Civil): (n: nat)
    requires ValidDate(c)
  {
    DaysTo(c.year) + MonthsTo(c.year, c.month) + c.day - 1
  }

  /** The year a day falls in, counting from the start of year `from`. */
  function YearAt(days: nat, from: nat): (y: nat)
    ensures from <= y && DaysTo(y) <= DaysTo(from) + days < DaysTo(y + 1)
    decreases days
  {
    if days < YearDays(from) then from else YearAt(days - YearDays(from), from + 1)
  }

  function MonthAt(y: nat, days: nat, from: nat): (m: nat)
    requires 1 <= from <= 12 && MonthsTo(y, from) <= days < MonthsTo(y, 13)
    ensures 1 <= m <= 12 && MonthsTo(y, m) <= days < MonthsTo(y, m + 1)
    decreases 13 - from
  {
    if days < MonthsTo(y, from + 1) then from else MonthAt(y, days, from + 1)
  }

  function DateAt(days: nat): (c: Civil)
    ensures ValidDate(c) && DayNumber(c) == days
  {
    var y := YearAt(days, 0);
    var rest := days - DaysTo(y);
    YearOfMonths(y);
    var m := MonthAt(y, rest, 1);
    Civil(y, m, rest - MonthsTo(y, m) + 1)
  }

  /* ---- the text ---- */

  const DAY: nat := 86400

  function Digit(n: nat): (c: char)
    requires n < 10
    ensures IsDigit(c) && Value(c) == n
  {
    ('0' as int + n) as char
  }

  function Value(c: char): (n: nat)
    requires IsDigit(c)
  {
    c as int - '0' as int
  }

  function Write(c: Civil, h: nat, m: nat, s: nat): (text: string)
    requires c.year < 10000 && c.month < 100 && c.day < 100 && h < 100 && m < 100 && s < 100
  {
    [Digit(c.year / 10 / 10 / 10), Digit(c.year / 10 / 10 % 10), Digit(c.year / 10 % 10), Digit(c.year % 10), '-',
     Digit(c.month / 10), Digit(c.month % 10), '-', Digit(c.day / 10), Digit(c.day % 10), 'T',
     Digit(h / 10), Digit(h % 10), ':', Digit(m / 10), Digit(m % 10), ':', Digit(s / 10), Digit(s % 10), 'Z']
  }

  predicate Shaped(text: string) {
    && |text| == 20
    && (forall i | 0 <= i < 20 :: i !in {4, 7, 10, 13, 16, 19} ==> IsDigit(text[i]))
    && text[4] == '-' && text[7] == '-' && text[10] == 'T' && text[13] == ':' && text[16] == ':' && text[19] == 'Z'
  }

  function Two(a: char, b: char): (n: nat)
    requires IsDigit(a) && IsDigit(b)
  {
    10 * Value(a) + Value(b)
  }

  /** time.Parse(time.RFC3339, …) on the UTC form without fraction. */
  function Parse(text: string): (seconds: Option<nat>) {
    if !Shaped(text) then None
    else
      var date := Civil(100 * Two(text[0], text[1]) + Two(text[2], text[3]), Two(text[5], text[6]),
                        Two(text[8], text[9]));
      var h, m, s := Two(text[11], text[12]), Two(text[14], text[15]), Two(text[17], text[18]);
      if ValidDate(date) && h < 24 && m < 60 && s < 60 then Some(DayNumber(date) * DAY + h * 3600 + m * 60 + s)
      else None
  }

  /** The years a four-digit field can hold. */
  predicate Representable(seconds: nat) {
    DateAt(seconds / DAY).year < 10000
  }

  /** Format(time.RFC3339) in UTC. */
  function Format(seconds: nat): (text: string)
    requires Representable(seconds)
  {
    var rest := seconds % DAY;
    Write(DateAt(seconds / DAY), rest / 3600, rest / 60 % 60, rest % 60)
  }

  lemma Four(n: nat)
    requires n < 10000
    ensures n / 10 / 10 / 10 < 10
            && 100 * (10 * (n / 10 / 10 / 10) + n / 10 / 10 % 10) + (10 * (n / 10 % 10) + n % 10) == n
  {
    var tens := n / 10;
    var hundreds := tens / 10;
    assert n == 10 * tens + n % 10 && tens == 10 * hundreds + tens % 10
           && hundreds == 10 * (hundreds / 10) + hundreds % 10;
  }

  lemma WriteRead(c: Civil, h: nat, m: nat, s: nat)
    requires ValidDate(c) && c.year < 10000 && h < 24 && m < 60 && s < 60
    ensures Parse(Write(c, h, m, s)) == Some(DayNumber(c) * DAY + h * 3600 + m * 60 + s)
  {
    hide DayNumber;
    var t := Write(c, h, m, s);
    assert Shaped(t);
    Four(c.year);
    assert 100 * Two(t[0], t[1]) + Two(t[2], t[3]) == c.year;
    assert Two(t[5], t[6]) == c.month && Two(t[8], t[9]) == c.day;
    assert Two(t[11], t[12]) == h && Two(t[14], t[15]) == m && Two(t[17], t[18]) == s;
  }

  lemma Clock(rest: nat)
    requires rest < DAY
    ensures rest / 3600 < 24 && rest / 3600 * 3600 + rest / 60 % 60 * 60 + rest % 60 == rest
  {
    assert rest / 3600 == rest / 60 / 60;
  }

  /** A written timestamp reads back as the same second. */
  lemma FormatParse(seconds: nat)
    requires Representable(seconds)
    ensures Parse(Format(seconds)) == Some(seconds)
  {
    var c, rest := DateAt(seconds / DAY), seconds % DAY;
    Clock(rest);
    hide DateAt, Write, Parse, MonthDays, DayNumber;
    WriteRead(c, rest / 3600, rest / 60 % 60, rest % 60);
  }

  lemma {:induction false} DaysToMonotone(a: nat, b: nat)
    requires a <= b
    ensures DaysTo(a) <= DaysTo(b)
    decreases b - a
  {
    if a < b { DaysToMonotone(a, b - 1); }
  }

  lemma EarlierRepresentable(a: nat, b: nat)
    requires a <= b && Representable(b)
    ensures Representable(a)
  {
    var y, z := DateAt(a / DAY).year, DateAt(b / DAY).year;
    assert DaysTo(0) == 0;
    assert DaysTo(y) <= a / DAY <= b / DAY < DaysTo(z + 1);
    if y > z { DaysToMonotone(z + 1, y); }
  }

  /* ---- the calendar is the Gregorian one ---- */

  lemma {:induction false} MonthsToMonotone(y: nat, a: nat, b: nat)
    requires 1 <= a <= b <= 13
    ensures MonthsTo(y, a) <= MonthsTo(y, b)
    decreases b - a
  {
    if a < b { MonthsToMonotone(y, a, b - 1); }
  }

  /** A day number has one date. */
  lemma DateUnique(c: Civil)
    requires ValidDate(c)
    ensures DateAt(DayNumber(c)) == c
  {
    hide DayNumber, DateAt, MonthDays;
    SameDate(c, DateAt(DayNumber(c)));
  }

  lemma SameDate(c: Civil, e: Civil)
    requires ValidDate(c) && ValidDate(e) && DayNumber(c) == DayNumber(e)
    ensures c == e
  {
    hide MonthDays, DaysTo, MonthsTo;
    SameYear(c, e);
    MonthBounds(c);
    MonthBounds(e);
    if c.month < e.month { MonthsToMonotone(c.year, c.month + 1, e.month); }
    if e.month < c.month { MonthsToMonotone(c.year, e.month + 1, c.month); }
  }

  lemma SameYear(c: Civil, e: Civil)
    requires ValidDate(c) && ValidDate(e) && DayNumber(c) == DayNumber(e)
    ensures c.year == e.year
  {
    hide MonthDays, DaysTo, DayNumber;
    YearBounds(c);
    YearBounds(e);
    if c.year < e.year { DaysToMonotone(c.year + 1, e.year); }
    if e.year < c.year { DaysToMonotone(e.year + 1, c.year); }
  }

  lemma MonthBounds(c: Civil)
    requires ValidDate(c)
    ensures MonthsTo(c.year, c.month + 1) == MonthsTo(c.year, c.month) + MonthDays(c.year, c.month)
    ensures DayNumber(c) - DaysTo(c.year) < MonthsTo(c.year, c.month + 1)
  {
    hide MonthDays;
  }

  lemma YearBounds(c: Civil)
    requires ValidDate(c)
    ensures DaysTo(c.year) <= DayNumber(c) < DaysTo(c.year + 1)
  {
    hide MonthDays, YearDays;
    MonthBounds(c);
    MonthsToMonotone(c.year, c.month + 1, 13);
    YearOfMonths(c.year);
    assert DaysTo(c.year + 1) == DaysTo(c.year) + YearDays(c.year);
  }

  /** The number of days in a month. */
  function Length(y: nat, m: nat): (n: nat) {
    if m == 2 then (if y % 4 == 0 && (y % 100 != 0 || y % 400 == 0) then 29 else 28)
    else if m == 1 || m == 3 || m == 5 || m == 7 || m == 8 || m == 10 || m == 12 then 31
    else 30
  }

  function Following(c: Civil): (next: Civil) {
    if c.day < Length(c.year, c.month) then Civil(c.year, c.month, c.day + 1)
    else if c.month < 12 then Civil(c.year, c.month + 1, 1)
    else Civil(c.year + 1, 1, 1)
  }

  lemma LengthOf(y: nat, m: nat)
    requires 1 <= m <= 12
    ensures MonthDays(y, m) == Length(y, m)
  {
  }

  /** Day numbers count the days of the calendar one by one. */
  lemma NextDay(c: Civil)
    requires ValidDate(c)
    ensures ValidDate(Following(c)) && DayNumber(Following(c)) == DayNumber(c) + 1
    ensures DateAt(DayNumber(c) + 1) == Following(c)
  {
    hide MonthDays, YearDays, DateAt, Length;
    LengthOf(c.year, c.month);
    MonthBounds(c);
    if c.day >= Length(c.year, c.month) {
      if c.month < 12 {
        FirstOf(c.year, c.month + 1);
      } else {
        FirstOf(c.year + 1, 1);
        YearOfMonths(c.year);
        assert DaysTo(c.year + 1) == DaysTo(c.year) + YearDays(c.year);
      }
    }
    DateUnique(Following(c));
  }

  lemma FirstOf(y: nat, m: nat)
    requires 1 <= m <= 12
    ensures ValidDate(Civil(y, m, 1)) && DayNumber(Civil(y, m, 1)) == DaysTo(y) + MonthsTo(y, m)
    ensures DateAt(DaysTo(y) + MonthsTo(y, m)) == Civil(y, m, 1)
  {
    hide MonthDays, DateAt, DaysTo, MonthsTo;
    DateUnique(Civil(y, m, 1));
  }

  /** The text shows year, month, day, hour, minute and second in this order. */
  lemma FormatExample(c: Civil, seconds: nat)
    requires ValidDate(c) && c.year == 2024 && c.month == 2 && c.day == 29
    requires seconds == DayNumber(c) * 86400 + 45296
    ensures Representable(seconds) && Format(seconds) == "2024-02-29T12:34:56Z"
  {
    hide DayNumber, DateAt, ValidDate;
    DateUnique(c);
    assert seconds / DAY == DayNumber(c) && seconds % DAY == 45296;
  }
}
