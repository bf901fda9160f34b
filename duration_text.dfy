/** The text printed on each bar: `str(datetime.timedelta(seconds=...))`
    for a whole, non-negative number of seconds, that is `H:MM:SS`, with
    `N day, ` or `N days, ` in front once the duration reaches a day.
    A parser for that text is the partner that shows the format loses
    nothing: every duration is read back from its text. */
module DurationText {

  datatype Option<T> = None | Some(value: T)

  const SecondsPerDay: nat := 86400

  predicate IsDigit(c: char) {
    '0' <= c <= '9'
  }

  function DigitChar(d: nat): (c: char)
    requires d < 10
    ensures IsDigit(c)
  {
    (48 + d) as char
  }

  function DigitValue(c: char): (d: nat)
    requires IsDigit(c)
    ensures d < 10
  {
    c as int - 48
  }

  /** `"%d" % n`: decimal digits, no leading zero. */
  function Digits(n: nat): (s: string)
    ensures |s| > 0
    ensures forall k :: 0 <= k < |s| ==> IsDigit(s[k])
  {
    if n < 10 then [DigitChar(n)] else Digits(n / 10) + [DigitChar(n % 10)]
  }

  /** `"%02d" % n` for n below 100. */
  function Pad2(n: nat): (s: string)
    requires n < 100
    ensures |s| == 2 && IsDigit(s[0]) && IsDigit(s[1])
  {
    [DigitChar(n / 10), DigitChar(n % 10)]
  }

  /** `"%d:%02d:%02d" % (hh, mm, ss)` for the seconds within one day, with
      `mm, ss = divmod(seconds, 60)` and `hh, mm = divmod(mm, 60)`. */
  function Clock(seconds: nat): (s: string)
    requires seconds < SecondsPerDay
  {
    var minutes := seconds / 60;
    Digits(minutes / 60) + ":" + Pad2(minutes % 60) + ":" + Pad2(seconds % 60)
  }

  function DaySeparator(days: nat): string {
    if days == 1 then " day, " else " days, "
  }

  /** `str(timedelta(seconds=secs))` for whole seconds: the day count and a
      plural `s` only when there is at least one day. */
  function FormatDuration(secs: nat): (t: string)
    ensures |t| >= 7
  {
    var days := secs / SecondsPerDay;
    var clock := Clock(secs % SecondsPerDay);
    if days == 0 then clock
    else Digits(days) + DaySeparator(days) + clock
  }

  /** Reads a non-empty run of decimal digits. */
  function ParseDigits(s: string): (r: Option<nat>)
  {
    if |s| == 0 || !IsDigit(s[|s| - 1]) then None
    else if |s| == 1 then Some(DigitValue(s[0]))
    else
      match ParseDigits(s[..|s| - 1])
      case None => None
      case Some(v) => Some(10 * v + DigitValue(s[|s| - 1]))
  }

  /** Reads `H:MM:SS` with minutes and seconds below 60. */
  function ParseClock(t: string): (r: Option<nat>)
  {
    var n := |t|;
    if n < 7 || t[n - 6] != ':' || t[n - 3] != ':' then None
    else
      match (ParseDigits(t[..n - 6]), ParseDigits(t[n - 5..n - 3]), ParseDigits(t[n - 2..]))
      case (Some(h), Some(m), Some(s)) =>
        if m < 60 && s < 60 then Some(3600 * h + 60 * m + s) else None
      case _ => None
  }

  /** Position of the first space, if any. */
  function FirstSpace(t: string): (r: Option<nat>)
    ensures r.Some? ==> r.value < |t| && t[r.value] == ' ' &&
                        forall k :: 0 <= k < r.value ==> t[k] != ' '
    ensures r.None? ==> forall k :: 0 <= k < |t| ==> t[k] != ' '
  {
    if t == [] then None
    else if t[0] == ' ' then Some(0)
    else
      match FirstSpace(t[1..])
      case None => None
      case Some(i) => Some(i + 1)
  }

  /** Strips the `" day, "` or `" days, "` that follows the day count. */
  function DropDaySeparator(rest: string): (r: Option<string>)
    ensures r.Some? ==> |r.value| < |rest|
  {
    if |rest| >= 6 && rest[..6] == " day, " then Some(rest[6..])
    else if |rest| >= 7 && rest[..7] == " days, " then Some(rest[7..])
    else None
  }

  /** Reads `N day(s), H:MM:SS` given the day count and the text after it. */
  function ParseDayPrefixed(dayText: string, rest: string): (r: Option<nat>)
  {
    match (ParseDigits(dayText), DropDaySeparator(rest))
    case (Some(d), Some(c)) =>
      (match ParseClock(c)
       case Some(s) => if s < SecondsPerDay then Some(SecondsPerDay * d + s) else None
       case None => None)
    case _ => None
  }

  /** Reads the text `FormatDuration` writes back as a number of seconds. */
  function ParseDuration(t: string): (r: Option<nat>)
  {
    match FirstSpace(t)
    case None => ParseClock(t)
    case Some(i) => ParseDayPrefixed(t[..i], t[i..])
  }

  lemma {:induction false} ParseDigitsOfDigits(n: nat)
    ensures ParseDigits(Digits(n)) == Some(n)
  {
    if n >= 10 {
      ParseDigitsOfDigits(n / 10);
      var s := Digits(n);
      assert s[..|s| - 1] == Digits(n / 10);
    }
  }

  lemma ParseDigitsOfPad2(n: nat)
    requires n < 100
    ensures ParseDigits(Pad2(n)) == Some(n)
  {
  }

  lemma ParseClockOfClock(seconds: nat)
    requires seconds < SecondsPerDay
    ensures ParseClock(Clock(seconds)) == Some(seconds)
  {
    var minutes := seconds / 60;
    var hh, mm, ss := minutes / 60, minutes % 60, seconds % 60;
    var h := Digits(hh);
    var t := Clock(seconds);
    var n := |t|;
    assert t == h + ":" + Pad2(mm) + ":" + Pad2(ss);
    assert n == |h| + 6;
    assert t[..n - 6] == h;
    assert t[n - 5..n - 3] == Pad2(mm);
    assert t[n - 2..] == Pad2(ss);
    ParseDigitsOfDigits(hh);
    ParseDigitsOfPad2(mm);
    ParseDigitsOfPad2(ss);
    assert 3600 * hh + 60 * mm + ss == seconds;
  }

  lemma NoSpaceInClock(seconds: nat)
    requires seconds < SecondsPerDay
    ensures forall k :: 0 <= k < |Clock(seconds)| ==> Clock(seconds)[k] != ' '
  {
  }

  lemma {:induction false} FirstSpaceAfter(a: string, b: string)
    requires forall k :: 0 <= k < |a| ==> a[k] != ' '
    requires |b| > 0 && b[0] == ' '
    ensures FirstSpace(a + b) == Some(|a|)
  {
    if a != [] {
      assert (a + b)[1..] == a[1..] + b;
      FirstSpaceAfter(a[1..], b);
    }
  }

  lemma DropDaySeparatorOf(days: nat, clock: string)
    ensures DropDaySeparator(DaySeparator(days) + clock) == Some(clock)
  {
    var rest := DaySeparator(days) + clock;
    if days == 1 {
      assert rest[..6] == " day, " && rest[6..] == clock;
    } else {
      assert rest[..6] != " day, " by { assert rest[..6][4] == 's'; }
      assert rest[..7] == " days, " && rest[7..] == clock;
    }
  }

  lemma ParseDayPrefixedOf(days: nat, within: nat)
    requires within < SecondsPerDay
    ensures ParseDayPrefixed(Digits(days), DaySeparator(days) + Clock(within)) ==
            Some(SecondsPerDay * days + within)
  {
    ParseDigitsOfDigits(days);
    DropDaySeparatorOf(days, Clock(within));
    ParseClockOfClock(within);
  }

  lemma ParseDaysAndClock(days: nat, within: nat)
    requires within < SecondsPerDay
    ensures ParseDuration(Digits(days) + DaySeparator(days) + Clock(within)) ==
            Some(SecondsPerDay * days + within)
  {
    var d := Digits(days);
    var rest := DaySeparator(days) + Clock(within);
    var t := d + DaySeparator(days) + Clock(within);
    assert t == d + rest;
    FirstSpaceAfter(d, rest);
    assert t[..|d|] == d && t[|d|..] == rest;
    ParseDayPrefixedOf(days, within);
  }

  lemma ParseShortDuration(secs: nat)
    requires secs < SecondsPerDay
    ensures ParseDuration(FormatDuration(secs)) == Some(secs)
  {
    assert FormatDuration(secs) == Clock(secs);
    NoSpaceInClock(secs);
    ParseClockOfClock(secs);
  }

  lemma ParseLongDuration(secs: nat)
    requires secs >= SecondsPerDay
    ensures ParseDuration(FormatDuration(secs)) == Some(secs)
  {
    FormatLongDuration(secs);
    ParseDaysAndClock(secs / SecondsPerDay, secs % SecondsPerDay);
    DaysAndRemainder(secs);
  }

  /** The text has a space, the one in its day prefix, exactly when the
      duration reaches one day. */
  lemma DayPrefixIffOneDay(secs: nat)
    ensures ' ' in FormatDuration(secs) <==> secs >= SecondsPerDay
  {
    NoSpaceInClock(secs % SecondsPerDay);
    if secs >= SecondsPerDay {
      var days := secs / SecondsPerDay;
      var d := Digits(days);
      FormatLongDuration(secs);
      assert FormatDuration(secs)[|d|] == (d + DaySeparator(days))[|d|] == ' ';
    } else {
      assert FormatDuration(secs) == Clock(secs);
    }
  }

  lemma DaysAndRemainder(secs: nat)
    ensures SecondsPerDay * (secs / SecondsPerDay) + secs % SecondsPerDay == secs
  {
  }

  lemma FormatLongDuration(secs: nat)
    requires secs >= SecondsPerDay
    ensures FormatDuration(secs) ==
      Digits(secs / SecondsPerDay) + DaySeparator(secs / SecondsPerDay) + Clock(secs % SecondsPerDay)
  {
  }

  /** Round trip: the bar text determines the duration it was printed from. */
  lemma ParseFormatDuration(secs: nat)
    ensures ParseDuration(FormatDuration(secs)) == Some(secs)
  {
    if secs < SecondsPerDay {
      ParseShortDuration(secs);
    } else {
      ParseLongDuration(secs);
    }
  }

  /** Two different durations never print the same text. */
  lemma FormatDurationInjective(a: nat, b: nat)
    requires FormatDuration(a) == FormatDuration(b)
    ensures a == b
  {
    ParseFormatDuration(a);
    ParseFormatDuration(b);
  }
}
