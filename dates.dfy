/** The due-date check of `add_project`: `datetime.strptime(due_date, "%Y-%m-%d")`
    succeeds. CPython matches `%Y` as four digits, `%m` as one of
    `1[0-2] | 0[1-9] | [1-9]` and `%d` as one of
    `3[01] | [12][0-9] | 0[1-9] | [1-9] | ' '[1-9]`, requires the whole string
    to be consumed, and then builds a calendar date, which fails for year 0
    and for a day past the end of its month. Digits are ASCII here. */
module Dates {
  import opened Optional

  datatype Date = Date(year: int, month: int, day: int)

  predicate IsDigit(c: char)
  {
    '0' <= c <= '9'
  }

  function DigitValue(c: char): (v: int)
    requires IsDigit(c)
    ensures 0 <= v <= 9
  {
    c as int - '0' as int
  }

  function DigitChar(v: int): (c: char)
    requires 0 <= v <= 9
    ensures IsDigit(c) && DigitValue(c) == v
  {
    ('0' as int + v) as char
  }

  predicate IsLeapYear(y: int)
  {
    y % 4 == 0 && (y % 100 != 0 || y % 400 == 0)
  }

  function DaysInMonth(y: int, m: int): (n: int)
    requires 1 <= m <= 12
    ensures 28 <= n <= 31
  {
    if m == 2 then (if IsLeapYear(y) then 29 else 28)
    else if m == 4 || m == 6 || m == 9 || m == 11 then 30
    else 31
  }

  /** A date the calendar admits (what `datetime.date(y, m, d)` accepts). */
  predicate CalendarValid(d: Date)
  {
    1 <= d.year <= 9999 && 1 <= d.month <= 12 && 1 <= d.day <= DaysInMonth(d.year, d.month)
  }

  /** The `%Y` field. */
  function YearField(s: string): (r: Option<int>)
    ensures r.Some? ==> 0 <= r.value <= 9999
  {
    if |s| == 4 && IsDigit(s[0]) && IsDigit(s[1]) && IsDigit(s[2]) && IsDigit(s[3]) then
      Some(1000 * DigitValue(s[0]) + 100 * DigitValue(s[1]) + 10 * DigitValue(s[2]) + DigitValue(s[3]))
    else None
  }

  /** The `%m` field, matched in full. */
  function MonthField(s: string): (r: Option<int>)
    ensures r.Some? ==> 1 <= r.value <= 12
  {
    if |s| == 2 && s[0] == '1' && '0' <= s[1] <= '2' then Some(10 + DigitValue(s[1]))
    else if |s| == 2 && s[0] == '0' && '1' <= s[1] <= '9' then Some(DigitValue(s[1]))
    else if |s| == 1 && '1' <= s[0] <= '9' then Some(DigitValue(s[0]))
    else None
  }

  /** The `%d` field, matched in full. */
  function DayField(s: string): (r: Option<int>)
    ensures r.Some? ==> 1 <= r.value <= 31
  {
    if |s| == 2 && s[0] == '3' && '0' <= s[1] <= '1' then Some(30 + DigitValue(s[1]))
    else if |s| == 2 && '1' <= s[0] <= '2' && IsDigit(s[1]) then Some(10 * DigitValue(s[0]) + DigitValue(s[1]))
    else if |s| == 2 && s[0] == '0' && '1' <= s[1] <= '9' then Some(DigitValue(s[1]))
    else if |s| == 1 && '1' <= s[0] <= '9' then Some(DigitValue(s[0]))
    else if |s| == 2 && s[0] == ' ' && '1' <= s[1] <= '9' then Some(DigitValue(s[1]))
    else None
  }

  /** `strptime(s, "%Y-%m-%d")`: the year is the first four characters, the
      month runs up to the second '-' (one or two characters, as no month
      alternative contains '-'), and the day is everything after it. */
  function ParseDate(s: string): (r: Option<Date>)
    ensures r.Some? ==> CalendarValid(r.value)
  {
    if |s| < 5 || s[4] != '-' then None
    else
      var rest := s[5..];
      var j := if |rest| > 1 && rest[1] == '-' then 1
               else if |rest| > 2 && rest[2] == '-' then 2
               else 0;
      if j == 0 then None
      else
        match (YearField(s[..4]), MonthField(rest[..j]), DayField(rest[j + 1..]))
        case (Some(y), Some(m), Some(d)) =>
          if 1 <= y && d <= DaysInMonth(y, m) then Some(Date(y, m, d)) else None
        case _ => None
  }

  /** `add_project` validates a due date only when it is non-empty (`if due_date:`). */
  predicate DueDateAccepted(s: string)
  {
    s == "" || ParseDate(s).Some?
  }

  function Pad2(v: int): (s: string)
    requires 0 <= v <= 99
    ensures |s| == 2
  {
    [DigitChar(v / 10), DigitChar(v % 10)]
  }

  /** `date.strftime("%Y-%m-%d")` for a four-digit year: zero-padded fields. */
  function Format(d: Date): (s: string)
    requires 1000 <= d.year <= 9999 && 1 <= d.month <= 12 && 1 <= d.day <= 31
    ensures |s| == 10
  {
    Pad2(d.year / 100) + Pad2(d.year % 100) + "-" + Pad2(d.month) + "-" + Pad2(d.day)
  }

  /** A date written the way `created_at` is written parses back to itself,
      so the format the agent emits is one its own validation accepts. */
  lemma FormatRoundTrip(d: Date)
    requires CalendarValid(d) && 1000 <= d.year
    ensures ParseDate(Format(d)) == Some(d)
  {
    var s := Format(d);
    var rest := s[5..];
    assert rest == Pad2(d.month) + "-" + Pad2(d.day);
    assert rest[2] == '-' && rest[1] != '-';
    assert rest[..2] == Pad2(d.month);
    assert rest[3..] == Pad2(d.day);
    assert s[..4] == Pad2(d.year / 100) + Pad2(d.year % 100);
    assert YearField(s[..4]) == Some(d.year) by {
      var a, b := d.year / 100, d.year % 100;
      assert d.year == 100 * a + b;
      assert a == 10 * (a / 10) + a % 10;
      assert b == 10 * (b / 10) + b % 10;
    }
    assert MonthField(rest[..2]) == Some(d.month);
    assert DayField(rest[3..]) == Some(d.day);
  }

  /** The default due date `2025-12-31` passes the check. */
  lemma DefaultDueDateParses()
    ensures ParseDate("2025-12-31") == Some(Date(2025, 12, 31))
  {
    FormatRoundTrip(Date(2025, 12, 31));
    assert Format(Date(2025, 12, 31)) == "2025-12-31";
  }

  /** A day-first date is rejected. */
  lemma DayFirstRejected()
    ensures ParseDate("31-12-2025") == None
  {
  }

  /** Fields without zero padding are accepted. */
  lemma UnpaddedAccepted()
    ensures ParseDate("2025-1-5") == Some(Date(2025, 1, 5))
  {
    assert "2025-1-5"[..4] == "2025" && "2025-1-5"[5..] == "1-5";
    assert "1-5"[..1] == "1" && "1-5"[2..] == "5";
  }

  /** 29 February is rejected outside a leap year and accepted in one. */
  lemma LeapDayExamples()
    ensures ParseDate("2025-02-29") == None
    ensures ParseDate("2024-02-29") == Some(Date(2024, 2, 29))
  {
    assert "2025-02-29"[..4] == "2025" && "2025-02-29"[5..] == "02-29";
    assert "2024-02-29"[..4] == "2024" && "2024-02-29"[5..] == "02-29";
    assert "02-29"[..2] == "02" && "02-29"[3..] == "29";
  }
}
