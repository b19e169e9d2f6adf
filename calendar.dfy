/**
 * Calendar dates and instants as integer tuples, standing in for JavaScript
 * `Date` values read through `getFullYear`/`getMonth`/`getDate`/`getHours`.
 * Months are 1..12 here; JavaScript's 0-based month appears only where the
 * source does its own month arithmetic.
 */
module Calendar {
  import opened Wrappers
  import opened Text

  datatype Date = Date(year: int, month: int, day: int)

  /** A local date and time of day, to the millisecond. */
  datatype Moment = Moment(date: Date, hour: int, minute: int, second: int, millis: int)

  predicate IsLeapYear(year: int) {
    year % 4 == 0 && (year % 100 != 0 || year % 400 == 0)
  }

  function DaysInMonth(year: int, month: int): (n: int)
    requires 1 <= month <= 12
    ensures 28 <= n <= 31
  {
    if month == 2 then (if IsLeapYear(year) then 29 else 28)
    else if month == 4 || month == 6 || month == 9 || month == 11 then 30
    else 31
  }

  predicate ValidDate(d: Date) {
    1 <= d.month <= 12 && 1 <= d.day <= DaysInMonth(d.year, d.month)
  }

  predicate ValidMoment(m: Moment) {
    && ValidDate(m.date)
    && 0 <= m.hour < 24 && 0 <= m.minute < 60
    && 0 <= m.second < 60 && 0 <= m.millis < 1000
  }

  /** Months counted from January of year 0; `new Date(y, m, d)` normalises month overflow the same way. */
  function MonthIndex(d: Date): int {
    d.year * 12 + (d.month - 1)
  }

  /** Day `day` of the month with index `index`. */
  function DateAt(index: int, day: int): (d: Date)
    ensures 1 <= d.month <= 12 && MonthIndex(d) == index && d.day == day
  {
    Date(index / 12, index % 12 + 1, day)
  }

  /** The same day of the month one month earlier (`month--`, December of the year before January). */
  function PrevMonth(d: Date): (r: Date)
    ensures MonthIndex(r) == MonthIndex(d) - 1 && r.day == d.day
    ensures 1 <= d.month <= 12 ==> 1 <= r.month <= 12
  {
    if d.month == 1 then Date(d.year - 1, 12, d.day) else Date(d.year, d.month - 1, d.day)
  }

  /** Strictly earlier calendar day. */
  predicate DateBefore(a: Date, b: Date) {
    MonthIndex(a) < MonthIndex(b) || (MonthIndex(a) == MonthIndex(b) && a.day < b.day)
  }

  predicate SameDay(a: Date, b: Date) {
    MonthIndex(a) == MonthIndex(b) && a.day == b.day
  }

  function TimeOfDay(m: Moment): int {
    ((m.hour * 60 + m.minute) * 60 + m.second) * 1000 + m.millis
  }

  /** Strictly earlier instant (`a < b` on two `Date` objects). */
  predicate MomentBefore(a: Moment, b: Moment) {
    DateBefore(a.date, b.date) || (SameDay(a.date, b.date) && TimeOfDay(a) < TimeOfDay(b))
  }

  /** Local midnight of a day (`new Date(y, m, d)`). */
  function Midnight(d: Date): Moment {
    Moment(d, 0, 0, 0, 0)
  }

  /** The lottery draws on the 1st and the 16th of every month. */
  predicate IsDrawDay(d: Date) {
    d.day == 1 || d.day == 16
  }

  /** Days since 1 January 1970 in the proleptic Gregorian calendar. */
  function EpochDays(d: Date): int
    requires 1 <= d.month <= 12
  {
    var y := if d.month <= 2 then d.year - 1 else d.year;
    var era := y / 400;
    var yoe := y - era * 400;
    var mp := (d.month + 9) % 12;
    var doy := (153 * mp + 2) / 5 + d.day - 1;
    var doe := yoe * 365 + yoe / 4 - yoe / 100 + doy;
    era * 146097 + doe - 719468
  }

  /** `getTime()`: milliseconds since the epoch, with local time taken as UTC. */
  function EpochMillis(m: Moment): int
    requires 1 <= m.date.month <= 12
  {
    EpochDays(m.date) * 86400000 + TimeOfDay(m)
  }

  // ---------------------------------------------------------------------
  // text forms of a date

  /** `YYYY-MM-DD`, the form the `draw_date` column and the edge functions use. */
  function IsoDateText(d: Date): string
    requires ValidDate(d)
  {
    IntToString(d.year) + "-" + PadStart2(NatToString(d.month)) + "-" + PadStart2(NatToString(d.day))
  }

  /** Reads `YYYY-MM-DD`; anything else, or a day the month does not have, is an invalid date. */
  function ParseIsoDate(s: string): Option<Date> {
    if |s| == 10 && s[4] == '-' && s[7] == '-'
       && AllDigits(s[..4]) && AllDigits(s[5..7]) && AllDigits(s[8..])
    then
      var d := Date(DigitsValue(s[..4]), DigitsValue(s[5..7]), DigitsValue(s[8..]));
      if ValidDate(d) then Some(d) else None
    else None
  }

  /** Reading the three fields of a well-shaped `YYYY-MM-DD` text. */
  lemma ParseIsoFields(y: string, mm: string, dd: string)
    requires |y| == 4 && |mm| == 2 && |dd| == 2
    requires AllDigits(y) && AllDigits(mm) && AllDigits(dd)
    ensures var d := Date(DigitsValue(y), DigitsValue(mm), DigitsValue(dd));
            ParseIsoDate(y + "-" + mm + "-" + dd) == if ValidDate(d) then Some(d) else None
  {
    var s := y + "-" + mm + "-" + dd;
    assert s[..4] == y && s[5..7] == mm && s[8..] == dd;
    assert s[4] == '-' && s[7] == '-';
  }

  lemma IsoDateRoundTrip(d: Date)
    requires ValidDate(d) && 1000 <= d.year <= 9999
    ensures ParseIsoDate(IsoDateText(d)) == Some(d)
  {
    var y := NatToString(d.year);
    NatToStringLength(d.year);
    NatToStringValue(d.year);
    TwoDigitText(d.month);
    TwoDigitText(d.day);
    ParseIsoFields(y, PadStart2(NatToString(d.month)), PadStart2(NatToString(d.day)));
  }

  /** The upstream API's draw key: `DDMMYYYY` with the year in the Buddhist Era. */
  function BeKey(d: Date): string {
    PadStart2(IntToString(d.day)) + PadStart2(IntToString(d.month)) + IntToString(d.year + 543)
  }

  /** How the upstream reads a draw key back into a Gregorian date. */
  function ParseBeKey(s: string): Option<Date> {
    if |s| >= 5 && AllDigits(s) then
      Some(Date(DigitsValue(s[4..]) - 543, DigitsValue(s[2..4]), DigitsValue(s[..2])))
    else None
  }

  /** Reading the three fields of a digit-only `DDMMYYYY` text. */
  lemma ParseBeFields(dd: string, mm: string, y: string)
    requires |dd| == 2 && |mm| == 2 && |y| >= 1
    requires AllDigits(dd) && AllDigits(mm) && AllDigits(y)
    ensures ParseBeKey(dd + mm + y) == Some(Date(DigitsValue(y) - 543, DigitsValue(mm), DigitsValue(dd)))
  {
    var s := dd + mm + y;
    assert s[..2] == dd && s[2..4] == mm && s[4..] == y;
    assert AllDigits(s) by {
      forall i | 0 <= i < |s| ensures IsDigit(s[i]) {
        if i < 2 { assert s[i] == dd[i]; }
        else if i < 4 { assert s[i] == mm[i - 2]; }
        else { assert s[i] == y[i - 4]; }
      }
    }
  }

  lemma BeKeyOfNonNegative(d: Date)
    requires d.day >= 0 && d.month >= 0 && d.year >= -543
    ensures BeKey(d) == PadStart2(NatToString(d.day)) + PadStart2(NatToString(d.month)) + NatToString(d.year + 543)
  {
  }

  lemma BeKeyRoundTrip(d: Date)
    requires ValidDate(d) && d.year >= -543
    ensures ParseBeKey(BeKey(d)) == Some(d)
  {
    var dd, mm, y := PadStart2(NatToString(d.day)), PadStart2(NatToString(d.month)), NatToString(d.year + 543);
    assert |dd| == 2 && AllDigits(dd) && DigitsValue(dd) == d.day by { TwoDigitText(d.day); }
    assert |mm| == 2 && AllDigits(mm) && DigitsValue(mm) == d.month by { TwoDigitText(d.month); }
    BeKeyOfNonNegative(d);
    NatToStringValue(d.year + 543);
    ParseBeFields(dd, mm, y);
  }

  /** A key starts with the day of the month, two digits long. */
  lemma BeKeyDayText(d: Date)
    requires 1 <= d.day <= 31 && d.month >= 0 && d.year >= -543
    ensures BeKey(d)[..2] == PadStart2(NatToString(d.day))
  {
    var dd := PadStart2(NatToString(d.day));
    assert |dd| == 2 by { TwoDigitText(d.day); }
    BeKeyOfNonNegative(d);
    var rest := PadStart2(NatToString(d.month)) + NatToString(d.year + 543);
    assert BeKey(d) == dd + rest;
    assert (dd + rest)[..2] == dd;
  }

  /** Between Gregorian 457 and 9456 the Buddhist year has four digits, so a key is eight characters. */
  lemma BeKeyLength(d: Date)
    requires ValidDate(d) && 457 <= d.year <= 9456
    ensures |BeKey(d)| == 8
  {
    TwoDigitText(d.day);
    TwoDigitText(d.month);
    NatToStringLength(d.year + 543);
    BeKeyOfNonNegative(d);
  }
}
