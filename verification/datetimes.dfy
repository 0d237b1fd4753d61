/** The naive datetimes the add-task wizard stages: the due-date parser
    (Python's `datetime.strptime` with the formats `%d.%m.%Y %H:%M` and
    `%d.%m.%Y`) and the display format `%d.%m.%Y %H:%M` used by the
    confirmation and detail windows. Seconds are always zero here and
    are not represented. */
module DateTimes {
  import opened Wrappers
  import opened Text

  datatype DateTime = DateTime(year: int, month: int, day: int, hour: int, minute: int)

  predicate IsLeapYear(y: int) {
    y % 4 == 0 && (y % 100 != 0 || y % 400 == 0)
  }

  function DaysInMonth(y: int, m: int): (n: int)
    requires 1 <= m <= 12
    ensures 28 <= n <= 31
  {
    if m == 2 then (if IsLeapYear(y) then 29 else 28)
    else if m == 4 || m == 6 || m == 9 || m == 11 then 30
    else 31
  }

  /** What Python's `datetime(y, m, d)` accepts (MINYEAR = 1, MAXYEAR = 9999). */
  predicate ValidDate(y: int, m: int, d: int) {
    1 <= y <= 9999 && 1 <= m <= 12 && 1 <= d <= DaysInMonth(y, m)
  }

  predicate Valid(dt: DateTime) {
    ValidDate(dt.year, dt.month, dt.day) && 0 <= dt.hour <= 23 && 0 <= dt.minute <= 59
  }

  /** The datetimes Python can construct: every value `strptime` or
      `fromisoformat` returns is one of these. */
  type Moment = dt: DateTime | Valid(dt) witness DateTime(1, 1, 1, 0, 0)

  /** The characters Python's `\s` matches in a `str` pattern (those for which `str.isspace` holds). */
  predicate IsSpace(c: char) {
    || '\U{0009}' <= c <= '\U{000D}'
    || '\U{001C}' <= c <= '\U{0020}'
    || c == '\U{0085}' || c == '\U{00A0}' || c == '\U{1680}'
    || '\U{2000}' <= c <= '\U{200A}'
    || c == '\U{2028}' || c == '\U{2029}' || c == '\U{202F}' || c == '\U{205F}' || c == '\U{3000}'
  }

  /** The number of whitespace characters at the front of `s`. */
  function LeadingSpaces(s: string): (n: nat)
    ensures n <= |s|
    ensures forall i :: 0 <= i < n ==> IsSpace(s[i])
    ensures n < |s| ==> !IsSpace(s[n])
  {
    if |s| > 0 && IsSpace(s[0]) then 1 + LeadingSpaces(s[1..]) else 0
  }

  /** A one- or two-digit field whose value lies in `lo..hi`: the shape of
      the `%m` (1..12), `%H` (0..23) and `%M` (0..59) patterns once the
      whole field has to be consumed. */
  function SmallField(f: string, lo: nat, hi: nat): (r: Option<nat>)
    ensures r.Some? ==> lo <= r.value <= hi
  {
    if 1 <= |f| <= 2 && AllDigits(f) && lo <= DigitsValue(f) <= hi then Some(DigitsValue(f)) else None
  }

  /** The `%d` pattern: the digits 1..31, or a space followed by one non-zero digit. */
  function DayField(f: string): (r: Option<nat>)
    ensures r.Some? ==> 1 <= r.value <= 31
  {
    if |f| == 2 && f[0] == ' ' && '1' <= f[1] <= '9' then Some(DigitValue(f[1]))
    else SmallField(f, 1, 31)
  }

  /** The `%Y` pattern: exactly four digits. */
  function YearField(f: string): (r: Option<nat>)
    ensures r.Some? ==> r.value <= 9999
  {
    if |f| == 4 && AllDigits(f) then
      DigitsValueBound(f);
      Some(DigitsValue(f))
    else None
  }

  datatype DayMonth = DayMonth(day: nat, month: nat, rest: string)

  /** Reads `<%d>.<%m>.` from the front of `s`; neither field contains a
      dot, so the first two dots are the separators. */
  function SplitDayMonth(s: string): (r: Option<DayMonth>)
    ensures r.Some? ==> 1 <= r.value.day <= 31 && 1 <= r.value.month <= 12
    ensures r.Some? ==> |r.value.rest| < |s|
  {
    match IndexOf(s, '.')
    case None => None
    case Some(i) =>
      var tail := s[i + 1..];
      match IndexOf(tail, '.')
      case None => None
      case Some(j) =>
        match (DayField(s[..i]), SmallField(tail[..j], 1, 12))
        case (Some(d), Some(m)) => Some(DayMonth(d, m, tail[j + 1..]))
        case _ => None
  }

  /** `datetime.strptime(text, '%d.%m.%Y')`: a date at midnight. */
  function ParseDate(text: string): (r: Option<DateTime>)
    ensures r.Some? ==> Valid(r.value) && r.value.hour == 0 && r.value.minute == 0
  {
    match SplitDayMonth(text)
    case None => None
    case Some(dm) =>
      match YearField(dm.rest)
      case None => None
      case Some(y) =>
        if ValidDate(y, dm.month, dm.day) then Some(DateTime(y, dm.month, dm.day, 0, 0)) else None
  }

  datatype Clock = Clock(hour: nat, minute: nat)

  /** `<%H>:<%M>` filling the whole of `s`; the hour holds no colon, so the
      first colon is the separator. */
  function ParseClock(s: string): (r: Option<Clock>)
    ensures r.Some? ==> r.value.hour <= 23 && r.value.minute <= 59
  {
    match IndexOf(s, ':')
    case None => None
    case Some(k) =>
      var h := SmallField(s[..k], 0, 23);
      var mi := SmallField(s[k + 1..], 0, 59);
      if h.Some? && mi.Some? then Some(Clock(h.value, mi.value)) else None
  }

  datatype YearClock = YearClock(year: nat, clock: Clock)

  /** `<%Y>\s+<%H>:<%M>` filling the whole of `s`. The hour starts with a
      digit, so the whitespace run is all the whitespace after the year. */
  function ParseYearClock(s: string): (r: Option<YearClock>)
    ensures r.Some? ==> r.value.year <= 9999 && r.value.clock.hour <= 23 && r.value.clock.minute <= 59
  {
    if |s| < 4 then None
    else
      var y := YearField(s[..4]);
      var tail := s[4..];
      var n := LeadingSpaces(tail);
      var c := ParseClock(tail[n..]);
      if y.Some? && n >= 1 && c.Some? then Some(YearClock(y.value, c.value)) else None
  }

  /** `datetime.strptime(text, '%d.%m.%Y %H:%M')`; the space of the format
      matches one or more whitespace characters. */
  function ParseDateTime(text: string): (r: Option<DateTime>)
    ensures r.Some? ==> Valid(r.value)
  {
    var dm := SplitDayMonth(text);
    if dm.None? then None
    else
      var yc := ParseYearClock(dm.value.rest);
      if yc.Some? && ValidDate(yc.value.year, dm.value.month, dm.value.day) then
        Some(DateTime(yc.value.year, dm.value.month, dm.value.day, yc.value.clock.hour, yc.value.clock.minute))
      else None
  }

  /** The wizard's due-date parser: the date-and-time format when the text
      contains a space, the date-only format otherwise. */
  function ParseDueDate(text: string): (r: Option<DateTime>)
    ensures r.Some? ==> Valid(r.value)
    ensures r.Some? && ' ' !in text ==> r.value.hour == 0 && r.value.minute == 0
  {
    if ' ' in text then ParseDateTime(text) else ParseDate(text)
  }

  /** `dt.strftime('%d.%m.%Y %H:%M')`; `%Y` is rendered without padding. */
  function FormatDisplay(dt: DateTime): (r: string)
    requires Valid(dt)
    ensures |r| >= 13 && IsDigit(r[0])
  {
    Pad2(dt.day) + "." + Pad2(dt.month) + "." + NatToString(dt.year) + " " + Pad2(dt.hour) + ":" + Pad2(dt.minute)
  }

  /** `dt.strftime('%d.%m.%Y')`, the date-only form a user may type. */
  function FormatDate(dt: DateTime): (r: string)
    requires Valid(dt)
    ensures ' ' !in r
  {
    Pad2(dt.day) + "." + Pad2(dt.month) + "." + NatToString(dt.year)
  }

  /** `dt.isoformat()` for a naive datetime with zero seconds. */
  function IsoFormat(dt: DateTime): (r: string)
    requires Valid(dt)
    ensures |r| == 19 && r[4] == '-' && r[10] == 'T'
  {
    Pad4(dt.year) + "-" + Pad2(dt.month) + "-" + Pad2(dt.day) + "T" + Pad2(dt.hour) + ":" + Pad2(dt.minute) + ":00"
  }

  lemma DayFieldOfPad2(d: nat)
    requires 1 <= d <= 31
    ensures DayField(Pad2(d)) == Some(d)
  {
    assert IsDigit(Pad2(d)[0]);
  }

  /** A dot-free field followed by a dot is split at that dot. */
  lemma DotAfterField(a: string, rest: string)
    requires '.' !in a
    ensures var s := a + "." + rest;
      IndexOf(s, '.') == Some(|a|) && s[..|a|] == a && s[|a| + 1..] == rest
  {
    assert a + "." + rest == a + ['.'] + rest;
    IndexOfAfterPrefix(a, '.', rest);
  }

  /** Two dot-free fields the day and month patterns accept split off
      exactly, leaving the rest. */
  lemma SplitDayMonthOfFields(a: string, b: string, rest: string)
    requires '.' !in a && '.' !in b
    requires DayField(a).Some? && SmallField(b, 1, 12).Some?
    ensures SplitDayMonth(a + "." + b + "." + rest) == Some(DayMonth(DayField(a).value, SmallField(b, 1, 12).value, rest))
  {
    var s := a + "." + b + "." + rest;
    var tail := b + "." + rest;
    assert s == a + "." + tail;
    DotAfterField(a, tail);
    DotAfterField(b, rest);
    SplitDayMonthAt(s, |a|, |b|);
  }

  /** `SplitDayMonth` once both dots are located. */
  lemma SplitDayMonthAt(s: string, i: nat, j: nat)
    requires IndexOf(s, '.') == Some(i)
    requires IndexOf(s[i + 1..], '.') == Some(j)
    ensures var day, month := DayField(s[..i]), SmallField(s[i + 1..][..j], 1, 12);
      SplitDayMonth(s) == if day.Some? && month.Some? then Some(DayMonth(day.value, month.value, s[i + 1..][j + 1..])) else None
  {
  }

  lemma SplitDayMonthOfPadded(d: nat, m: nat, rest: string)
    requires 1 <= d <= 31 && 1 <= m <= 12
    ensures SplitDayMonth(Pad2(d) + "." + Pad2(m) + "." + rest) == Some(DayMonth(d, m, rest))
  {
    var a, b := Pad2(d), Pad2(m);
    assert '.' !in a by { assert forall i :: 0 <= i < |a| ==> IsDigit(a[i]); }
    assert '.' !in b by { assert forall i :: 0 <= i < |b| ==> IsDigit(b[i]); }
    DayFieldOfPad2(d);
    assert SmallField(b, 1, 12) == Some(m);
    SplitDayMonthOfFields(a, b, rest);
  }

  lemma YearFieldOfNatToString(y: nat)
    requires 1000 <= y <= 9999
    ensures |NatToString(y)| == 4
    ensures YearField(NatToString(y)) == Some(y)
  {
    assert |NatToString(y / 1000)| == 1;
    assert |NatToString(y / 100)| == 2;
    assert |NatToString(y / 10)| == 3;
    assert |NatToString(y)| == 4;
    NatToStringRoundTrip(y);
  }

  lemma ParseClockOfPadded(h: nat, m: nat)
    requires h <= 23 && m <= 59
    ensures ParseClock(Pad2(h) + ":" + Pad2(m)) == Some(Clock(h, m))
  {
    var hs, ms := Pad2(h), Pad2(m);
    var s := hs + ":" + ms;
    assert s == hs + [':'] + ms;
    assert ':' !in hs by { assert forall i :: 0 <= i < |hs| ==> IsDigit(hs[i]); }
    IndexOfAfterPrefix(hs, ':', ms);
    assert s[..2] == hs && s[3..] == ms;
  }

  lemma ParseYearClockOfFormatted(y: nat, h: nat, m: nat)
    requires 1000 <= y <= 9999 && h <= 23 && m <= 59
    ensures ParseYearClock(NatToString(y) + " " + Pad2(h) + ":" + Pad2(m)) == Some(YearClock(y, Clock(h, m)))
  {
    var clock := Pad2(h) + ":" + Pad2(m);
    var s := NatToString(y) + " " + Pad2(h) + ":" + Pad2(m);
    YearFieldOfNatToString(y);
    assert s == NatToString(y) + " " + clock;
    assert s[..4] == NatToString(y);
    var tail := s[4..];
    assert tail == " " + clock;
    assert IsDigit(clock[0]);
    assert tail[1..] == clock;
    assert LeadingSpaces(tail) == 1;
    ParseClockOfPadded(h, m);
  }

  /** A datetime shown in the display format reads back as itself: what the
      confirmation window shows is exactly what the parser accepts. */
  lemma ParseFormatDisplay(dt: DateTime)
    requires Valid(dt) && dt.year >= 1000
    ensures ParseDueDate(FormatDisplay(dt)) == Some(dt)
  {
    var rest := NatToString(dt.year) + " " + Pad2(dt.hour) + ":" + Pad2(dt.minute);
    var s := FormatDisplay(dt);
    assert s == Pad2(dt.day) + "." + Pad2(dt.month) + "." + rest;
    assert s[2 + 1 + 2 + 1 + |NatToString(dt.year)|] == ' ';
    SplitDayMonthOfPadded(dt.day, dt.month, rest);
    ParseYearClockOfFormatted(dt.year, dt.hour, dt.minute);
  }

  /** A date typed without a time reads back as that date at midnight. */
  lemma ParseFormatDate(dt: DateTime)
    requires Valid(dt) && dt.year >= 1000
    ensures ParseDueDate(FormatDate(dt)) == Some(dt.(hour := 0, minute := 0))
  {
    YearFieldOfNatToString(dt.year);
    SplitDayMonthOfPadded(dt.day, dt.month, NatToString(dt.year));
  }
}
