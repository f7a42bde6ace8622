/** The filename parser and the text formatters of utils.py. */
module Utils {
  import opened Wrappers
  import opened Text

  /** A calendar day as `strptime` reads it from three tokens; turning it into
      a local-midnight timestamp is clock-dependent and left to the caller. */
  datatype CalendarDate = CalendarDate(year: int, month: int, day: int)

  /** What `parse_filename` returns, with the day not yet turned into a timestamp. */
  datatype ParsedName = ParsedName(date: CalendarDate, timeSlot: string, flightNumber: string, cameraName: string)

  // ---------------------------------------------------------------------------
  // get_time_slot
  // ---------------------------------------------------------------------------

  /** Python `f"{n:02d}"`: at least two characters, zero-padded after any sign. */
  function Pad2(n: int): (s: string)
    ensures 0 <= n < 10 ==> |s| == 2 && s[0] == '0' && AllDigits(s) && DecimalValue(s) == n
    ensures !(0 <= n < 10) ==> s == IntToString(n)
  {
    if 0 <= n < 10 then
      var s := "0" + IntToString(n);
      assert AllDigits(s) && |s| == 2;
      DecimalValueOfTwoDigits(s);
      s
    else IntToString(n)
  }

  /** The 30-minute slot for an hour and a minute already read as integers. */
  function SlotText(hours: int, minutes: int): string
  {
    Pad2(hours) + ":" + (if minutes < 30 then "00" else "30")
  }

  /** `get_time_slot`: the input must split on `_` into exactly two tokens that
      `int()` accepts; anything else raises, modelled as None. */
  function GetTimeSlot(input: string): (r: Option<string>)
    ensures r.Some? <==>
      var parts := Split(input, '_');
      |parts| == 2 && ParseInt(parts[0]).Some? && ParseInt(parts[1]).Some?
    ensures r.Some? ==> EndsWith(r.value, ":00") || EndsWith(r.value, ":30")
  {
    var parts := Split(input, '_');
    if |parts| != 2 then None
    else
      var hours := ParseInt(parts[0]);
      var minutes := ParseInt(parts[1]);
      if hours.Some? && minutes.Some? then
        SlotTextHalfHour(hours.value, minutes.value);
        Some(SlotText(hours.value, minutes.value))
      else None
  }

  /** The padded hour reads back as the hour. */
  lemma Pad2ReadsBack(hours: int)
    requires hours >= 0
    ensures ParseInt(Pad2(hours)) == Some(hours)
    ensures |Pad2(hours)| >= 2 && (hours < 100 ==> |Pad2(hours)| == 2)
  {
    if hours >= 10 {
      ParseIntOfIntToString(hours);
      NatToStringLength(hours);
    }
  }

  lemma SlotTextParts(hours: int, minutes: int)
    ensures var slot := SlotText(hours, minutes);
      && |slot| == |Pad2(hours)| + 3
      && slot[..|slot| - 3] == Pad2(hours)
      && slot[|slot| - 3..] == (if minutes < 30 then ":00" else ":30")
  {
    var slot := SlotText(hours, minutes);
    var tail := if minutes < 30 then ":00" else ":30";
    assert slot == Pad2(hours) + tail;
  }

  /** Every slot ends on the hour or on the half hour. */
  lemma SlotTextHalfHour(hours: int, minutes: int)
    ensures EndsWith(SlotText(hours, minutes), ":00") || EndsWith(SlotText(hours, minutes), ":30")
  {
    SlotTextParts(hours, minutes);
  }

  /** The slot keeps the hour exactly as given (zero-padded to two digits,
      never rolled over) and rounds the minutes down to `:00` or `:30`. */
  lemma TimeSlotKeepsHour(hours: int, minutes: int)
    requires hours >= 0
    ensures var slot := SlotText(hours, minutes);
      && |slot| >= 5
      && ParseInt(slot[..|slot| - 3]) == Some(hours)
      && slot[|slot| - 3..] == (if minutes < 30 then ":00" else ":30")
      && (hours < 100 ==> |slot| == 5)
  {
    Pad2ReadsBack(hours);
    SlotTextParts(hours, minutes);
  }

  lemma {:induction false} NatToStringLength(n: nat)
    ensures n >= 10 ==> |NatToString(n)| >= 2
    ensures n < 100 ==> |NatToString(n)| <= 2
  {
    if n >= 10 { NatToStringLength(n / 10); }
  }

  /** `get_time_slot(f"{h}_{m}")` reads back the two integers it was given. */
  lemma TimeSlotOfJoinedTokens(h: string, m: string)
    requires '_' !in h && '_' !in m
    ensures Split(h + "_" + m, '_') == [h, m]
    ensures GetTimeSlot(h + "_" + m) ==
      if ParseInt(h).Some? && ParseInt(m).Some? then Some(SlotText(ParseInt(h).value, ParseInt(m).value)) else None
  {
    SplitAtFirstSep(h, '_', m);
    SplitWithoutSep(m, '_');
  }

  /** `get_time_slot` on the text of two integers gives their slot. */
  lemma TimeSlotOfIntegers(h: int, m: int)
    ensures GetTimeSlot(IntToString(h) + "_" + IntToString(m)) == Some(SlotText(h, m))
  {
    ParseIntOfIntToString(h);
    ParseIntOfIntToString(m);
    IntTextAvoids(h, '_');
    IntTextAvoids(m, '_');
    TimeSlotOfJoinedTokens(IntToString(h), IntToString(m));
  }

  /** `get_time_slot("14_30")` is `"14:30"`. */
  lemma TimeSlotExample()
    ensures GetTimeSlot("14_30") == Some("14:30")
  {
    Texts1430();
    TimeSlotOfIntegers(14, 30);
  }

  lemma Texts1430()
    ensures IntToString(14) + "_" + IntToString(30) == "14_30"
    ensures SlotText(14, 30) == "14:30"
  {
    assert IntToString(14) == "14";
  }

  /** Minutes past the half hour round down: `"23_45"` is slot `"23:30"`. */
  lemma TimeSlotLateEvening()
    ensures GetTimeSlot("23_45") == Some("23:30")
  {
    Texts2345();
    TimeSlotOfIntegers(23, 45);
  }

  lemma Texts2345()
    ensures IntToString(23) + "_" + IntToString(45) == "23_45"
    ensures SlotText(23, 45) == "23:30"
  {
    assert IntToString(23) == "23";
  }

  // ---------------------------------------------------------------------------
  // parse_filename
  // ---------------------------------------------------------------------------

  /** `filename.replace('-', '_')`. */
  function DashesToUnderscores(s: string): (t: string)
    ensures |t| == |s| && '-' !in t
    ensures forall i :: 0 <= i < |s| && s[i] != '-' ==> t[i] == s[i]
    ensures forall i :: 0 <= i < |s| && s[i] == '-' ==> t[i] == '_'
  {
    seq(|s|, i requires 0 <= i < |s| => if s[i] == '-' then '_' else s[i])
  }

  /** The tokens `parse_filename` works on. */
  function Tokens(filename: string): seq<string>
  {
    Split(DashesToUnderscores(filename), '_')
  }

  /** `re.fullmatch(r"20\d{2}", t)` with ASCII digits. */
  predicate IsYearToken(t: string)
  {
    |t| == 4 && t[0] == '2' && t[1] == '0' && IsDigit(t[2]) && IsDigit(t[3])
  }

  /** The index the fallback loop stops at: the first year token, if any. */
  function FirstYearIndex(parts: seq<string>): (r: Option<nat>)
    ensures r.Some? ==> r.value < |parts| && IsYearToken(parts[r.value])
    ensures r.Some? ==> forall j :: 0 <= j < r.value ==> !IsYearToken(parts[j])
    ensures r.None? ==> forall j :: 0 <= j < |parts| ==> !IsYearToken(parts[j])
    decreases |parts|
  {
    if |parts| == 0 then None
    else if IsYearToken(parts[0]) then Some(0)
    else match FirstYearIndex(parts[1..])
      case None => None
      case Some(k) => Some(k + 1)
  }

  /** `%m` of `strptime`: `1[0-2]|0[1-9]|[1-9]`, matched against the whole token. */
  predicate IsMonthToken(t: string)
  {
    || (|t| == 2 && t[0] == '1' && '0' <= t[1] <= '2')
    || (|t| == 2 && t[0] == '0' && '1' <= t[1] <= '9')
    || (|t| == 1 && '1' <= t[0] <= '9')
  }

  /** `%d` of `strptime`: `3[01]|[12]\d|0[1-9]|[1-9]| [1-9]`, whole token. */
  predicate IsDayToken(t: string)
  {
    || (|t| == 2 && t[0] == '3' && (t[1] == '0' || t[1] == '1'))
    || (|t| == 2 && (t[0] == '1' || t[0] == '2') && IsDigit(t[1]))
    || (|t| == 2 && t[0] == '0' && '1' <= t[1] <= '9')
    || (|t| == 1 && '1' <= t[0] <= '9')
    || (|t| == 2 && t[0] == ' ' && '1' <= t[1] <= '9')
  }

  function MonthTokenValue(t: string): (m: int)
    requires IsMonthToken(t)
    ensures 1 <= m <= 12
  {
    if |t| == 2 then DecimalValueOfTwoDigits(t); DecimalValue(t) else DigitValue(t[0])
  }

  function DayTokenValue(t: string): (d: int)
    requires IsDayToken(t)
    ensures 1 <= d <= 31
  {
    if |t| == 1 then DigitValue(t[0])
    else if t[0] == ' ' then DigitValue(t[1])
    else DecimalValueOfTwoDigits(t); DecimalValue(t)
  }

  predicate IsLeapYear(y: int)
  {
    y % 4 == 0 && (y % 100 != 0 || y % 400 == 0)
  }

  function DaysInMonth(y: int, m: int): int
    requires 1 <= m <= 12
  {
    if m == 2 then (if IsLeapYear(y) then 29 else 28)
    else if m == 4 || m == 6 || m == 9 || m == 11 then 30
    else 31
  }

  predicate IsValidDate(d: CalendarDate)
  {
    1 <= d.month <= 12 && 1 <= d.day <= DaysInMonth(d.year, d.month)
  }

  /** `datetime.strptime(f"{y}_{m}_{d}", '%Y_%m_%d')`, None where it raises
      (year 0 is outside `datetime`'s range). */
  function ParseDate(yearToken: string, monthToken: string, dayToken: string): (r: Option<CalendarDate>)
    ensures r.Some? ==> IsValidDate(r.value)
    ensures r.Some? <==>
      && |yearToken| == 4 && AllDigits(yearToken) && DecimalValue(yearToken) >= 1
      && IsMonthToken(monthToken) && IsDayToken(dayToken)
      && DayTokenValue(dayToken) <= DaysInMonth(DecimalValue(yearToken), MonthTokenValue(monthToken))
  {
    if |yearToken| == 4 && AllDigits(yearToken) && DecimalValue(yearToken) >= 1 && IsMonthToken(monthToken) && IsDayToken(dayToken) then
      var date := CalendarDate(DecimalValue(yearToken), MonthTokenValue(monthToken), DayTokenValue(dayToken));
      if date.day <= DaysInMonth(date.year, date.month) then Some(date) else None
    else None
  }

  predicate StartsWithF(t: string)
  {
    |t| > 0 && t[0] == 'F'
  }

  /** The flight token: token 2 when it starts with `F`, token 3 otherwise. */
  function FlightToken(parts: seq<string>): string
    requires |parts| >= 4
  {
    if StartsWithF(parts[2]) then parts[2] else parts[3]
  }

  /** The fields both branches read, by position, once the year token `y` is
      known: camera = token 1, flight = token 2 or 3, date = tokens y..y+2,
      hour and minute = tokens y+3 and y+4. */
  function FieldsAt(parts: seq<string>, y: nat): Option<ParsedName>
    requires y + 4 < |parts|
  {
    match ParseDate(parts[y], parts[y + 1], parts[y + 2])
    case None => None
    case Some(date) =>
      match GetTimeSlot(parts[y + 3] + "_" + parts[y + 4])
      case None => None
      case Some(slot) => Some(ParsedName(date, slot, FlightToken(parts), parts[1]))
  }

  /** The fixed nine-token layout: `prefix Camera Flight X YYYY MM DD HH MM`. */
  predicate IsNineTokenLayout(parts: seq<string>)
  {
    |parts| == 9 && IsYearToken(parts[4])
  }

  /** The year token both branches read from: token 4 in the nine-token
      layout, the first year token otherwise. */
  function YearAnchor(parts: seq<string>): (r: Option<nat>)
    ensures r.Some? ==> r.value < |parts| && IsYearToken(parts[r.value])
    ensures r.None? <==> FirstYearIndex(parts).None?
  {
    if IsNineTokenLayout(parts) then Some(4) else FirstYearIndex(parts)
  }

  /** The specification of `parse_filename` (the day still as a calendar
      date). Without a year token anywhere, or with fewer than four tokens
      after it, it fails. Otherwise the date is read from the year token and
      the two after it and the slot from the next two tokens (as
      `FieldsAtByPosition` spells out), the camera from token 1 and the
      flight from token 2 or 3; a result has a valid date
      and a half-hour slot, and neither name holds a `_` or a `-`. */
  function FilenameFields(filename: string): (r: Option<ParsedName>)
    ensures FirstYearIndex(Tokens(filename)).None? ==> r.None?
    ensures var parts := Tokens(filename); var a := YearAnchor(parts);
      a.Some? && a.value + 4 >= |parts| ==> r.None?
    ensures var parts := Tokens(filename); var a := YearAnchor(parts);
      a.Some? && a.value + 4 < |parts| ==> r == FieldsAt(parts, a.value)
    ensures r.Some? ==> IsValidDate(r.value.date)
    ensures r.Some? ==> EndsWith(r.value.timeSlot, ":00") || EndsWith(r.value.timeSlot, ":30")
    ensures r.Some? ==> |Tokens(filename)| >= 5
    ensures r.Some? ==> r.value.cameraName == Tokens(filename)[1] && r.value.flightNumber == FlightToken(Tokens(filename))
    ensures r.Some? ==> '_' !in r.value.cameraName && '-' !in r.value.cameraName
    ensures r.Some? ==> '_' !in r.value.flightNumber && '-' !in r.value.flightNumber
  {
    var parts := Tokens(filename);
    SplitAvoids(DashesToUnderscores(filename), '_', '-');
    if IsNineTokenLayout(parts) then FieldsAt(parts, 4)
    else match FirstYearIndex(parts)
      case None => None
      case Some(y) => if y + 4 >= |parts| then None else FieldsAt(parts, y)
  }

  /** `parse_filename`, with its year-scanning loop. */
  method ParseFilename(filename: string) returns (r: Option<ParsedName>)
    ensures r == FilenameFields(filename)
  {
    var normalized := DashesToUnderscores(filename);
    var parts := Split(normalized, '_');
    if |parts| == 9 && IsYearToken(parts[4]) {
      r := FieldsAt(parts, 4);
    } else {
      var yearIndex: Option<nat> := None;
      for i := 0 to |parts|
        invariant yearIndex.None?
        invariant forall j :: 0 <= j < i ==> !IsYearToken(parts[j])
      {
        if IsYearToken(parts[i]) {
          yearIndex := Some(i);
          break;
        }
      }
      if yearIndex.None? || yearIndex.value + 4 >= |parts| {
        r := None;
      } else {
        r := FieldsAt(parts, yearIndex.value);
      }
    }
  }

  /** Mapping `-` to `_` first never changes what a filename parses to. */
  lemma ParseIgnoresDashes(filename: string)
    ensures FilenameFields(DashesToUnderscores(filename)) == FilenameFields(filename)
  {
    assert DashesToUnderscores(DashesToUnderscores(filename)) == DashesToUnderscores(filename);
  }

  /** Reading the fields at an anchor fails exactly when the three date
      tokens are not a valid date or the hour or minute token is not an
      integer; otherwise the slot is that of the two integers. */
  lemma FieldsAtByPosition(parts: seq<string>, y: nat)
    requires y + 4 < |parts| && '_' !in parts[y + 3] && '_' !in parts[y + 4]
    ensures var date := ParseDate(parts[y], parts[y + 1], parts[y + 2]);
      var hours := ParseInt(parts[y + 3]);
      var minutes := ParseInt(parts[y + 4]);
      FieldsAt(parts, y) ==
        if date.Some? && hours.Some? && minutes.Some? then
          Some(ParsedName(date.value, SlotText(hours.value, minutes.value), FlightToken(parts), parts[1]))
        else None
  {
    TimeSlotOfJoinedTokens(parts[y + 3], parts[y + 4]);
  }

  const ExampleTokens: seq<string> := ["ifly", "Door", "F001", "2025", "08", "21", "14", "30", "001.mp4"]
  /** `ifly_Door_F001_2025_08_21_14_30_001.mp4` */
  const ExampleName: string := Join(ExampleTokens, "_")

  /** The example the repository's test asserts: camera `Door`, flight
      `F001`, slot `14:30` (read through the fallback, the year being token 3). */
  lemma ParseExample()
    ensures FilenameFields(ExampleName)
      == Some(ParsedName(CalendarDate(2025, 8, 21), "14:30", "F001", "Door"))
  {
    ExampleTokenization();
    ExampleYearIndex();
    ExampleFields();
    assert !IsNineTokenLayout(ExampleTokens);
  }

  lemma ExampleFields()
    ensures FieldsAt(ExampleTokens, 3) == Some(ParsedName(CalendarDate(2025, 8, 21), "14:30", "F001", "Door"))
  {
    ExampleDate();
    FieldsAtByPosition(ExampleTokens, 3);
    ExampleClock();
    Texts1430();
  }

  lemma ExampleClock()
    ensures ParseInt("14") == Some(14) && ParseInt("30") == Some(30)
  {
    DecimalValueOfTwoDigits("14");
    DecimalValueOfTwoDigits("30");
  }

  lemma ExampleTokenization()
    ensures Tokens(ExampleName) == ExampleTokens
  {
    ExampleHasNoDashes();
    ExampleTokensHaveNoSeparator();
    SplitJoin(ExampleTokens, '_');
  }

  lemma ExampleTokensHaveNoSeparator()
    ensures forall i :: 0 <= i < |ExampleTokens| ==> '_' !in ExampleTokens[i]
  {
  }

  lemma ExampleHasNoDashes()
    ensures DashesToUnderscores(ExampleName) == ExampleName
  {
    JoinAvoids(ExampleTokens, "_", '-');
  }

  lemma ExampleYearIndex()
    ensures FirstYearIndex(ExampleTokens) == Some(3)
  {
    assert FirstYearIndex(ExampleTokens[3..]) == Some(0);
    assert FirstYearIndex(ExampleTokens[2..]) == Some(1);
    assert FirstYearIndex(ExampleTokens[1..]) == Some(2);
  }

  lemma ExampleDate()
    ensures ParseDate("2025", "08", "21") == Some(CalendarDate(2025, 8, 21))
  {
    assert "2025"[..3] == "202";
    assert "202"[..2] == "20";
    DecimalValueOfTwoDigits("20");
    DecimalValueOfTwoDigits("08");
    DecimalValueOfTwoDigits("21");
  }

  // ---------------------------------------------------------------------------
  // format_flight_time, format_days_count
  // ---------------------------------------------------------------------------

  /** `format_flight_time`; Dafny's `/` and `%` agree with Python's `divmod`
      for the positive divisors used here. The unit is hours from an hour
      on, minutes when the remainder past the hours holds a minute, and
      seconds otherwise. */
  function FormatFlightTime(seconds: int): (r: string)
    ensures EndsWith(r, "m") <==> seconds >= 3600
    ensures EndsWith(r, " min") <==> seconds < 3600 && seconds % 3600 >= 60
    ensures EndsWith(r, "s") <==> seconds < 3600 && seconds % 3600 < 60
  {
    var hours := seconds / 3600;
    var remainder := seconds % 3600;
    FlightTimeUnit(hours, remainder / 60, remainder % 60);
    FlightTimeText(hours, remainder / 60, remainder % 60)
  }

  function FlightTimeText(hours: int, minutes: int, secs: int): string
  {
    if hours > 0 then IntToString(hours) + "h " + IntToString(minutes) + "m"
    else if minutes > 0 then IntToString(minutes) + ":" + Pad2(secs) + " min"
    else IntToString(secs) + "s"
  }

  /** Each of the three shapes ends in its own unit. */
  lemma FlightTimeUnit(hours: int, minutes: int, secs: int)
    ensures var r := FlightTimeText(hours, minutes, secs);
      && (EndsWith(r, "m") <==> hours > 0)
      && (EndsWith(r, " min") <==> hours <= 0 && minutes > 0)
      && (EndsWith(r, "s") <==> hours <= 0 && minutes <= 0)
  {
    var r := FlightTimeText(hours, minutes, secs);
    if hours > 0 {
      var front := IntToString(hours) + "h " + IntToString(minutes);
      assert r == front + "m";
      assert r[|r| - 1] == 'm';
    } else if minutes > 0 {
      var front := IntToString(minutes) + ":" + Pad2(secs);
      assert r == front + " min";
      assert r[|r| - 4..] == " min";
      assert r[|r| - 1] == 'n';
    } else {
      assert r == IntToString(secs) + "s";
      assert r[|r| - 1] == 's';
    }
  }

  /** For `s = 3600h + 60m + r` with `m` and `r` in `[0, 60)`: at least an
      hour shows `{h}h {m}m`, a minute or more shows `{m}:{rr} min`, and
      less than a minute shows `{r}s`. */
  lemma FlightTimeFormat(s: int, h: int, m: int, r: int)
    requires s == 3600 * h + 60 * m + r && 0 <= m < 60 && 0 <= r < 60
    ensures s >= 3600 ==> FormatFlightTime(s) == IntToString(h) + "h " + IntToString(m) + "m"
    ensures 60 <= s < 3600 ==> FormatFlightTime(s) == IntToString(m) + ":" + Pad2(r) + " min"
    ensures 0 <= s < 60 ==> FormatFlightTime(s) == IntToString(s) + "s"
  {
    HoursMinutesSeconds(s, h, m, r);
    assert FormatFlightTime(s) == FlightTimeText(h, m, r);
    if s >= 3600 {
      assert h > 0;
    } else if s >= 60 {
      assert h == 0 && m > 0;
    } else if s >= 0 {
      assert h == 0 && m == 0 && r == s;
    }
  }

  lemma HoursMinutesSeconds(s: int, h: int, m: int, r: int)
    requires s == 3600 * h + 60 * m + r && 0 <= m < 60 && 0 <= r < 60
    ensures s / 3600 == h && (s % 3600) / 60 == m && (s % 3600) % 60 == r
  {
    assert 0 <= 60 * m + r < 3600;
    assert s / 3600 == h && s % 3600 == 60 * m + r;
  }

  lemma FlightTimeExample()
    ensures FormatFlightTime(3661) == "1h 1m"
  {
    FlightTimeFormat(3661, 1, 1, 1);
  }

  /** `format_days_count` on the already-rounded day count: years from 365
      days on (plural from 730), otherwise months when the count holds 30
      days (plural from 60), otherwise days (singular only for one). */
  function FormatDaysCount(days: int): (r: string)
    ensures days >= 365 ==> EndsWith(r, if days >= 730 then " years" else " year")
    ensures days < 365 && days % 365 >= 30 ==> EndsWith(r, if days % 365 >= 60 then " months" else " month")
    ensures days < 365 && days % 365 < 30 ==> EndsWith(r, if days % 365 == 1 then " day" else " days")
  {
    var years := days / 365;
    var remainder := days % 365;
    DaysCountUnit(years, remainder / 30, remainder % 30);
    DaysCountText(years, remainder / 30, remainder % 30)
  }

  function DaysCountText(years: int, months: int, daysRemainder: int): string
  {
    if years > 0 then IntToString(years) + (if years > 1 then " years" else " year")
    else if months > 0 then IntToString(months) + (if months > 1 then " months" else " month")
    else IntToString(daysRemainder) + (if daysRemainder != 1 then " days" else " day")
  }

  /** Each of the three shapes ends in its own unit, singular or plural. */
  lemma DaysCountUnit(years: int, months: int, daysRemainder: int)
    ensures var r := DaysCountText(years, months, daysRemainder);
      && (years > 0 ==> EndsWith(r, if years > 1 then " years" else " year"))
      && (years <= 0 && months > 0 ==> EndsWith(r, if months > 1 then " months" else " month"))
      && (years <= 0 && months <= 0 ==> EndsWith(r, if daysRemainder != 1 then " days" else " day"))
  {
    var r := DaysCountText(years, months, daysRemainder);
    if years > 0 {
      var unit := if years > 1 then " years" else " year";
      EndsWithAppend(IntToString(years), unit);
    } else if months > 0 {
      var unit := if months > 1 then " months" else " month";
      EndsWithAppend(IntToString(months), unit);
    } else {
      var unit := if daysRemainder != 1 then " days" else " day";
      EndsWithAppend(IntToString(daysRemainder), unit);
    }
  }

  /** For `d = 365y + 30m + r` with `30m + r` in `[0, 365)` and `r` in
      `[0, 30)`: the largest non-zero unit is shown, plural for more than
      one year or month and for any day count other than one. */
  lemma DaysCountFormat(d: int, y: int, m: int, r: int)
    requires d == 365 * y + 30 * m + r && 0 <= 30 * m + r < 365 && 0 <= r < 30
    ensures y > 0 ==> FormatDaysCount(d) == IntToString(y) + (if y > 1 then " years" else " year")
    ensures y <= 0 && m > 0 ==> FormatDaysCount(d) == IntToString(m) + (if m > 1 then " months" else " month")
    ensures y <= 0 && m <= 0 ==> FormatDaysCount(d) == IntToString(r) + (if r != 1 then " days" else " day")
  {
    YearsMonthsDays(d, y, m, r);
    assert FormatDaysCount(d) == DaysCountText(y, m, r);
  }

  lemma YearsMonthsDays(d: int, y: int, m: int, r: int)
    requires d == 365 * y + 30 * m + r && 0 <= 30 * m + r < 365 && 0 <= r < 30
    ensures d / 365 == y && (d % 365) / 30 == m && (d % 365) % 30 == r
  {
    assert d / 365 == y && d % 365 == 30 * m + r;
  }

  lemma DaysCountExample()
    ensures FormatDaysCount(45) == "1 month"
    ensures FormatDaysCount(1) == "1 day"
    ensures FormatDaysCount(730) == "2 years"
  {
    DaysCountFormat(45, 0, 1, 15);
    DaysCountFormat(1, 0, 0, 1);
    DaysCountFormat(730, 2, 0, 0);
    assert NatToString(2) == "2";
  }

  // ---------------------------------------------------------------------------
  // escape_markdown
  // ---------------------------------------------------------------------------

  /** The 18 characters Telegram's MarkdownV2 needs escaped. */
  predicate IsMarkdownSpecial(c: char)
  {
    c in "_*[]()~`>#+-=|{}.!"
  }

  function CountSpecial(s: string): nat
    decreases |s|
  {
    if |s| == 0 then 0 else (if IsMarkdownSpecial(s[0]) then 1 else 0) + CountSpecial(s[1..])
  }

  /** `escape_markdown`: one backslash before each special character. */
  function EscapeMarkdown(text: string): (r: string)
    ensures |r| == |text| + CountSpecial(text)
    ensures |r| > 0 ==> !IsMarkdownSpecial(r[0])
    decreases |text|
  {
    if |text| == 0 then ""
    else (if IsMarkdownSpecial(text[0]) then ['\\', text[0]] else [text[0]]) + EscapeMarkdown(text[1..])
  }

  /** Drops the backslash in front of every special character. */
  function UnescapeMarkdown(s: string): string
    decreases |s|
  {
    if |s| == 0 then ""
    else if |s| >= 2 && s[0] == '\\' && IsMarkdownSpecial(s[1]) then [s[1]] + UnescapeMarkdown(s[2..])
    else [s[0]] + UnescapeMarkdown(s[1..])
  }

  /** Removing the inserted backslashes gives the input back: every other
      character is kept, in order. */
  lemma {:induction false} UnescapeEscape(text: string)
    ensures UnescapeMarkdown(EscapeMarkdown(text)) == text
    decreases |text|
  {
    if |text| > 0 {
      UnescapeEscape(text[1..]);
      var rest := EscapeMarkdown(text[1..]);
      if IsMarkdownSpecial(text[0]) {
        assert (['\\', text[0]] + rest)[2..] == rest;
      } else {
        assert ([text[0]] + rest)[1..] == rest;
      }
      assert [text[0]] + text[1..] == text;
    }
  }

  /** Every special character of the output has a backslash right before it. */
  lemma {:induction false} EscapedSpecialsArePrefixed(text: string, i: nat)
    requires i < |EscapeMarkdown(text)| && IsMarkdownSpecial(EscapeMarkdown(text)[i])
    ensures i > 0 && EscapeMarkdown(text)[i - 1] == '\\'
    decreases |text|
  {
    var rest := EscapeMarkdown(text[1..]);
    var head: string := if IsMarkdownSpecial(text[0]) then ['\\', text[0]] else [text[0]];
    assert EscapeMarkdown(text) == head + rest;
    if i >= |head| {
      EscapedSpecialsArePrefixed(text[1..], i - |head|);
    }
  }
}
