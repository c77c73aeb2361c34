/** Gregorian civil dates as Python's datetime module sees them: the validity
    check of the date constructor (years 1..9999, month lengths, leap years),
    the parse done by datetime.strptime(s, '%Y-%m-%d') and the zero-padded
    'YYYY-MM-DD' rendering. */
module Calendar {
  import opened Wrappers
  import opened Digits

  datatype CivilDate = CivilDate(year: int, month: int, day: int)

  /** A point in time at one-second resolution; strptime yields midnight. */
  datatype DateTime = DateTime(date: CivilDate, hour: int, minute: int, second: int)

  predicate IsLeapYear(y: int) {
    y % 4 == 0 && (y % 100 != 0 || y % 400 == 0)
  }

  function DaysInMonth(y: int, m: int): (n: int)
    requires 1 <= m <= 12
    ensures 28 <= n <= 31
    ensures m == 2 ==> (n == 29 <==> IsLeapYear(y))
  {
    if m == 2 then (if IsLeapYear(y) then 29 else 28)
    else if m == 4 || m == 6 || m == 9 || m == 11 then 30
    else 31
  }

  /** What datetime(year, month, day) accepts (MINYEAR = 1, MAXYEAR = 9999). */
  predicate IsValidDate(d: CivilDate) {
    && 1 <= d.year <= 9999
    && 1 <= d.month <= 12
    && 1 <= d.day <= DaysInMonth(d.year, d.month)
  }

  /** The text strptime's %m directive matches, `1[0-2]|0[1-9]|[1-9]`. */
  function MonthField(t: string): Option<int> {
    if |t| == 2 && AllDigits(t) && 1 <= NumberValue(t) <= 12 then Some(NumberValue(t))
    else if |t| == 1 && IsDigit(t[0]) && t[0] != '0' then Some(DigitValue(t[0]))
    else None
  }

  /** The text strptime's %d directive matches, `3[01]|[12]\d|0[1-9]|[1-9]| [1-9]`. */
  function DayField(t: string): Option<int> {
    if |t| == 2 && AllDigits(t) && 1 <= NumberValue(t) <= 31 then Some(NumberValue(t))
    else if |t| == 1 && IsDigit(t[0]) && t[0] != '0' then Some(DigitValue(t[0]))
    else if |t| == 2 && t[0] == ' ' && IsDigit(t[1]) && t[1] != '0' then Some(DigitValue(t[1]))
    else None
  }

  /** datetime.strptime(s, '%Y-%m-%d'): four digits, '-', a month field, '-',
      a day field, nothing left over, and a date the calendar has. None stands
      for the ValueError it raises otherwise. */
  function StrptimeYmd(s: string): (r: Option<CivilDate>)
    ensures r.Some? ==> IsValidDate(r.value)
  {
    if |s| < 5 || !AllDigits(s[..4]) || s[4] != '-' then None
    else
      var rest := s[5..];
      var monthLen := if |rest| >= 2 && rest[1] == '-' then 1
                      else if |rest| >= 3 && rest[2] == '-' then 2
                      else 0;
      if monthLen == 0 then None
      else match (MonthField(rest[..monthLen]), DayField(rest[monthLen + 1..]))
        case (Some(m), Some(d)) =>
          var date := CivilDate(NumberValue(s[..4]), m, d);
          if IsValidDate(date) then Some(date) else None
        case _ => None
  }

  function Pad2(n: nat): (s: string)
    requires n < 100
    ensures |s| == 2 && AllDigits(s) && NumberValue(s) == n
  {
    var s := [DigitChar(n / 10), DigitChar(n % 10)];
    TwoDigitValue(s);
    s
  }

  function Pad4(n: nat): (s: string)
    requires n < 10000
    ensures |s| == 4 && AllDigits(s) && NumberValue(s) == n
  {
    var tens := n / 10;
    var hundreds := tens / 10;
    var thousands := hundreds / 10;
    var s := [DigitChar(thousands), DigitChar(hundreds % 10), DigitChar(tens % 10), DigitChar(n % 10)];
    FourDigitValue(s);
    s
  }

  /** 'YYYY-MM-DD' with every field zero-padded. */
  function FormatIsoDate(d: CivilDate): (s: string)
    requires 0 <= d.year < 10000 && 0 <= d.month < 100 && 0 <= d.day < 100
    ensures |s| == 10 && s[4] == '-' && s[7] == '-'
  {
    Pad4(d.year) + "-" + Pad2(d.month) + "-" + Pad2(d.day)
  }

  /** Parsing the padded rendering gives the date back exactly when the date exists. */
  lemma StrptimeOfFormat(d: CivilDate)
    requires 0 <= d.year < 10000 && 0 <= d.month < 100 && 0 <= d.day < 100
    ensures StrptimeYmd(FormatIsoDate(d)) == if IsValidDate(d) then Some(d) else None
  {
    var s := FormatIsoDate(d);
    assert s[..4] == Pad4(d.year);
    var rest := s[5..];
    assert rest[..2] == Pad2(d.month);
    assert rest[3..] == Pad2(d.day);
    assert rest[2] == '-';
    assert IsDigit(rest[1]);
  }
}
