/**
  The two-line text caption of the clock face: the time in 12-hour form
  ("1:05:09 pm") and the date ("9 Jan 2024").  Each text is paired with a
  reader that recovers the fields from it, so that the round-trip lemmas
  state exactly which numbers a caption shows.
 */
module Caption {
  import opened Wrappers
  import opened Decimal

  /** Two digits with a leading zero below ten, as `lpad2` pads minutes and seconds. */
  function Lpad2(n: nat): (s: string)
    ensures AllDigits(s) && DigitsValue(s) == n
    ensures ParseNat(s) == Some(n)
    ensures s[0] == '0' <==> n < 10
    ensures n < 100 ==> |s| == 2
  {
    NatToStringRoundTrip(n);
    NatToStringNoLeadingZero(n);
    NatToStringLength(n);
    LeadingZeroValue(NatToString(n));
    if n < 10 then "0" + NatToString(n) else NatToString(n)
  }

  /** The hour a 12-hour clock shows: `hour % 12`, with 0 shown as 12. */
  function DisplayHour(hour: nat): (h: nat)
    ensures 1 <= h <= 12
    ensures h % 12 == hour % 12
  {
    if hour % 12 == 0 then 12 else hour % 12
  }

  /** The 24-hour hour that a 12-hour reading and its am/pm suffix stand for. */
  function FromTwelveHour(hour12: nat, pm: bool): nat {
    (if hour12 == 12 then 0 else hour12) + (if pm then 12 else 0)
  }

  /**
    The time line of the caption, `timeText(hour, min, sec)`: it ends in
    " am" exactly before noon, and for two-digit minutes and seconds it is
    ten or eleven characters long.  `TimeTextRoundTrip` states what it shows.
   */
  function TimeText(hour: nat, minute: nat, second: nat): (r: string)
    ensures |r| >= 10 && r[|r| - 3..] == (if hour < 12 then " am" else " pm")
    ensures minute < 100 && second < 100 ==> |r| <= 11
  {
    NatToStringLength(DisplayHour(hour));
    NatToString(DisplayHour(hour)) + ":" + Lpad2(minute) + ":" + Lpad2(second)
      + (if hour < 12 then " am" else " pm")
  }

  /** What a time line shows: the 12-hour hour, minutes, seconds and whether it says pm. */
  datatype TimeReading = TimeReading(hour12: nat, minute: nat, second: nat, pm: bool)

  /**
    Reads a time line back: an hour of one or more digits with no leading
    zero, ':', two digits, ':', two digits, and " am" or " pm".
   */
  function ParseTimeText(t: string): (r: Option<TimeReading>)
    ensures r.Some? ==> |t| >= 10 && t[|t| - 3..] == (if r.value.pm then " pm" else " am")
  {
    var n := |t|;
    if n < 10 then None
    else
      var suffix := t[n - 3..];
      if t[0] == '0' || t[n - 9] != ':' || t[n - 6] != ':' || (suffix != " am" && suffix != " pm") then None
      else
        match (ParseNat(t[..n - 9]), ParseNat(t[n - 8..n - 6]), ParseNat(t[n - 5..n - 3]))
        case (Some(h), Some(m), Some(s)) => Some(TimeReading(h, m, s, suffix == " pm"))
        case _ => None
  }

  /**
    For minutes and seconds of a real clock (0..59) the time line shows
    `hour % 12` (12 for 0), the minutes, the seconds, and pm exactly when
    the hour is 12 or later.
   */
  lemma TimeTextRoundTrip(hour: nat, minute: nat, second: nat)
    requires minute < 60 && second < 60
    ensures ParseTimeText(TimeText(hour, minute, second))
         == Some(TimeReading(DisplayHour(hour), minute, second, hour >= 12))
  {
    var h := NatToString(DisplayHour(hour));
    var m := Lpad2(minute);
    var s := Lpad2(second);
    var x := if hour < 12 then " am" else " pm";
    var t := TimeText(hour, minute, second);
    assert t == h + ":" + m + ":" + s + x;
    var n := |t|;
    assert n == |h| + 9;
    assert t[..n - 9] == h;
    assert t[n - 8..n - 6] == m;
    assert t[n - 5..n - 3] == s;
    assert t[n - 3..] == x;
    assert t[n - 9] == ':' && t[n - 6] == ':';
    NatToStringNoLeadingZero(DisplayHour(hour));
    assert t[0] == h[0] != '0';
    NatToStringRoundTrip(DisplayHour(hour));
  }

  /** The 12-hour reading and its suffix determine the 24-hour hour. */
  lemma TwelveHourRoundTrip(hour: nat)
    requires hour < 24
    ensures FromTwelveHour(DisplayHour(hour), hour >= 12) == hour
  {
  }

  /** Over a day, two different times never share a time line. */
  lemma TimeTextInjective(h1: nat, m1: nat, s1: nat, h2: nat, m2: nat, s2: nat)
    requires h1 < 24 && m1 < 60 && s1 < 60
    requires h2 < 24 && m2 < 60 && s2 < 60
    requires TimeText(h1, m1, s1) == TimeText(h2, m2, s2)
    ensures h1 == h2 && m1 == m2 && s1 == s2
  {
    TimeTextRoundTrip(h1, m1, s1);
    TimeTextRoundTrip(h2, m2, s2);
    TwelveHourRoundTrip(h1);
    TwelveHourRoundTrip(h2);
  }

  lemma TimeTextExamples()
    ensures TimeText(0, 0, 0) == "12:00:00 am"
    ensures TimeText(13, 5, 9) == "1:05:09 pm"
  {
  }

  lemma LateTimeTextExamples()
    ensures TimeText(23, 59, 59) == "11:59:59 pm"
    ensures TimeText(12, 30, 0) == "12:30:00 pm"
  {
  }

  /** The month abbreviations the caption uses, indexed by the 0-based month. */
  const MONTH_NAMES: seq<string> :=
    ["Jan", "Feb", "Mar", "Apr", "May", "Jun", "Jul", "Aug", "Sep", "Oct", "Nov", "Dec"]

  /**
    `monthText[month]`: the abbreviation for months 0..11; any other index
    reads an unset array slot, which JavaScript turns into "undefined".
   */
  function MonthText(month: nat): (s: string)
    ensures month < 12 ==> |s| == 3
    ensures ' ' !in s
  {
    if month < 12 then MONTH_NAMES[month] else "undefined"
  }

  /** The month number an abbreviation stands for. */
  function MonthIndex(name: string): (r: Option<nat>)
    ensures r.Some? ==> r.value < 12
  {
    if name == "Jan" then Some(0)
    else if name == "Feb" then Some(1)
    else if name == "Mar" then Some(2)
    else if name == "Apr" then Some(3)
    else if name == "May" then Some(4)
    else if name == "Jun" then Some(5)
    else if name == "Jul" then Some(6)
    else if name == "Aug" then Some(7)
    else if name == "Sep" then Some(8)
    else if name == "Oct" then Some(9)
    else if name == "Nov" then Some(10)
    else if name == "Dec" then Some(11)
    else None
  }

  /** The twelve abbreviations are distinct and each names its own month. */
  lemma MonthIndexRoundTrip(month: nat)
    ensures MonthIndex(MonthText(month)) == if month < 12 then Some(month) else None
  {
  }

  /**
    The date line of the caption, `dateText(day, month, year)`: when the
    month text has no space, the line is exactly three space-separated
    fields, the day, the month and the year.
   */
  function DateText(day: nat, month: string, year: int): (r: string)
    ensures ' ' !in month ==> SplitOn(r, ' ') == [NatToString(day), month, IntToString(year)]
  {
    NumbersHaveNoSpace(day, year);
    SplitAtSpaces(NatToString(day), month, IntToString(year));
    NatToString(day) + " " + month + " " + IntToString(year)
  }

  lemma DateTextExamples()
    ensures DateText(1, "Jan", 2024) == "1 Jan 2024"
  {
    assert NatToString(1) == "1" && IntToString(2024) == "2024";
  }

  lemma DecemberDateTextExample()
    ensures DateText(31, MonthText(11), 1999) == "31 Dec 1999"
  {
    assert NatToString(31) == "31" && IntToString(1999) == "1999";
  }

  /** The first position of `c` in `s`, if any. */
  function FirstIndex(s: string, c: char): (r: Option<nat>)
    ensures r.Some? ==> r.value < |s| && s[r.value] == c && c !in s[..r.value]
    ensures r.None? ==> c !in s
  {
    if s == [] then None
    else if s[0] == c then Some(0)
    else
      match FirstIndex(s[1..], c)
      case None => None
      case Some(i) =>
        assert s[..i + 1] == [s[0]] + s[1..][..i];
        Some(i + 1)
  }

  /** The pieces of `s` between occurrences of `c`. */
  function SplitOn(s: string, c: char): (r: seq<string>)
    ensures |r| >= 1
    decreases |s|
  {
    match FirstIndex(s, c)
    case None => [s]
    case Some(i) => [s[..i]] + SplitOn(s[i + 1..], c)
  }

  lemma SplitOnAt(a: string, b: string, c: char)
    requires c !in a
    ensures SplitOn(a + [c] + b, c) == [a] + SplitOn(b, c)
  {
    var s := a + [c] + b;
    assert s[|a|] == c;
    assert s[..|a|] == a;
    assert s[|a| + 1..] == b;
  }

  /** What a date line shows: day, month number and year. */
  datatype DateReading = DateReading(day: nat, month: nat, year: int)

  /** Reads a date line back: three space-separated fields. */
  function ParseDateText(t: string): (r: Option<DateReading>)
    ensures r.Some? ==> r.value.month < 12
  {
    var fields := SplitOn(t, ' ');
    if |fields| != 3 then None
    else
      match (ParseNat(fields[0]), MonthIndex(fields[1]), ParseInt(fields[2]))
      case (Some(d), Some(m), Some(y)) => Some(DateReading(d, m, y))
      case _ => None
  }

  lemma DigitsHaveNoSpace(s: string)
    requires AllDigits(s)
    ensures ' ' !in s
  {
  }

  /** Neither the day nor the year text contains a space. */
  lemma NumbersHaveNoSpace(day: nat, year: int)
    ensures ' ' !in NatToString(day) && ' ' !in IntToString(year)
  {
    DigitsHaveNoSpace(NatToString(day));
    if year < 0 {
      DigitsHaveNoSpace(NatToString(-year));
      assert IntToString(year) == ['-'] + NatToString(-year);
    } else {
      DigitsHaveNoSpace(IntToString(year));
    }
  }

  /** Three space-free pieces joined by single spaces split back into those pieces. */
  lemma SplitAtSpaces(a: string, b: string, c: string)
    requires ' ' !in a && ' ' !in c
    ensures ' ' !in b ==> SplitOn(a + " " + b + " " + c, ' ') == [a, b, c]
  {
    if ' ' !in b {
      var bc := b + [' '] + c;
      SplitOnAt(b, c, ' ');
      assert FirstIndex(c, ' ').None?;
      assert SplitOn(bc, ' ') == [b, c];
      assert a + " " + b + " " + c == a + [' '] + bc;
      SplitOnAt(a, bc, ' ');
    }
  }

  /**
    For a real month (0..11) the date line shows the day, the month and the
    year it was given, in that order and nothing else.
   */
  lemma DateTextRoundTrip(day: nat, month: nat, year: int)
    requires month < 12
    ensures ParseDateText(DateText(day, MonthText(month), year)) == Some(DateReading(day, month, year))
  {
    NatToStringRoundTrip(day);
    IntToStringRoundTrip(year);
    MonthIndexRoundTrip(month);
  }
}
