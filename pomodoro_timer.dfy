/**
  The duration policy of the Pomodoro timer: how a peak-hours descriptor such
  as "9:00 AM - 11:30 AM" is decoded into a window of 24-hour clock hours, and
  how the focus and break lengths follow from the active custom mode and the
  current hour. The current hour (`new Date().getHours()`) is a parameter.

  The countdown itself lives with the session coordinator (module App), whose
  fields its callbacks update.
*/
module PomodoroTimer {
  import opened JsText
  import opened Types

  const BaseFocusTime: nat := 25 * 60
  const PeakFocusTime: nat := 35 * 60
  const BaseBreakTime: nat := 5 * 60

  /** The separator between the two clock times of a descriptor. */
  const RangeSeparator: string := " - "

  /** `a < b` on JavaScript numbers: false whenever NaN takes part. */
  predicate Below(a: int, b: JsNumber)
  {
    b.Num? && a < b.value
  }

  /** `a >= b` on JavaScript numbers. */
  predicate AtLeast(a: int, b: JsNumber)
  {
    b.Num? && a >= b.value
  }

  /** `a <= b` on JavaScript numbers. */
  predicate NumLe(a: JsNumber, b: JsNumber)
  {
    a.Num? && b.Num? && a.value <= b.value
  }

  /**
    `parseTime`: the hour of a 12-hour clock string such as "11:30 PM". The
    modifier is the second space-separated word (absent when there is none);
    the hour is `Number` of the text before the first ':'. Minutes are read
    past and ignored.
  */
  function ParseTime(timeStr: string): (n: JsNumber)
  {
    var words := Split(timeStr, " ");
    var modifier := if |words| > 1 then Some(words[1]) else None;
    var hours := ToNumber(Split(words[0], ":")[0]);
    var afterPm :=
      if modifier == Some("PM") && hours.Num? && hours.value < 12 then Num(hours.value + 12) else hours;
    if modifier == Some("AM") && afterPm == Num(12) then Num(0) else afterPm
  }

  /**
    The two ends of a peak-hours descriptor, as `isPeakTime` decodes them.
    `NoRange` is a descriptor without " - ": its end time is undefined and
    reading it throws, which the check catches.
  */
  datatype PeakWindow = NoRange | Range(startHour: JsNumber, endHour: JsNumber)

  function DecodeWindow(peakHours: string): (w: PeakWindow)
  {
    var parts := Split(peakHours, RangeSeparator);
    if |parts| < 2 then NoRange else Range(ParseTime(parts[0]), ParseTime(parts[1]))
  }

  /**
    `isPeakTime` exactly as written: it answers false only when decoding
    throws. A start or end that reads as NaN does not throw: every comparison with it
    is false.
  */
  function InWindowAsWritten(w: PeakWindow, hour: int): (peak: bool)
  {
    match w
    case NoRange => false
    case Range(startHour, endHour) =>
      if NumLe(startHour, endHour) then AtLeast(hour, startHour) && Below(hour, endHour)
      else AtLeast(hour, startHour) || Below(hour, endHour)
  }

  /**
    `isPeakTime` as its error handling intends it: a descriptor that does not
    decode into two hours is outside the peak window.
  */
  function InWindow(w: PeakWindow, hour: int): (peak: bool)
  {
    match w
    case NoRange => false
    case Range(startHour, endHour) =>
      if startHour.NaN? || endHour.NaN? then false
      else if startHour.value <= endHour.value then startHour.value <= hour < endHour.value
      else hour >= startHour.value || hour < endHour.value
  }

  function InPeakWindowAsWritten(peakHours: string, hour: int): (peak: bool)
  {
    InWindowAsWritten(DecodeWindow(peakHours), hour)
  }

  function InPeakWindow(peakHours: string, hour: int): (peak: bool)
  {
    InWindow(DecodeWindow(peakHours), hour)
  }

  /** `FOCUS_TIME`, in seconds, for the decoded peak window of the profile. */
  function FocusTime(customConfig: Option<CustomFocusMode>, window: PeakWindow, hour: int): (seconds: nat)
  {
    if customConfig.Some? then customConfig.value.pomodoro.focusMinutes * 60
    else if InWindow(window, hour) then PeakFocusTime
    else BaseFocusTime
  }

  /** `BREAK_TIME`, in seconds. */
  function BreakTime(customConfig: Option<CustomFocusMode>): (seconds: nat)
  {
    if customConfig.Some? then customConfig.value.pomodoro.breakMinutes * 60 else BaseBreakTime
  }

  /** The full length of the current phase: `isBreak ? BREAK_TIME : FOCUS_TIME`. */
  function PhaseTime(isBreak: bool, customConfig: Option<CustomFocusMode>, window: PeakWindow, hour: int): (seconds: nat)
  {
    if isBreak then BreakTime(customConfig) else FocusTime(customConfig, window, hour)
  }

  // ---------------------------------------------------------------------
  // Decoding clock strings

  lemma FreeOfChar(s: string, sep: string, j: nat)
    requires j < |sep| && sep[j] !in s
    ensures Free(s, sep)
  {
    forall i | 0 <= i < |s| ensures !OccursAt(s, sep, i) {
      if i + |sep| <= |s| {
        assert s[i..i + |sep|][j] == s[i + j];
      }
    }
  }

  /** The words of "h:mm MOD": the clock part and the modifier. */
  lemma ClockWords(clock: string, modifier: string)
    requires ' ' !in clock && ' ' !in modifier
    ensures Split(clock + " " + modifier, " ") == [clock, modifier]
  {
    NoEarlyOccurrence(clock, " ", modifier, 0);
    SplitFirst(clock, " ", modifier);
    FreeOfChar(modifier, " ", 0);
    SplitFree(modifier, " ");
  }

  /** The hour text of "h:mm" (or of a bare "h") is the digits before the ':'. */
  lemma HourText(hs: string, minutes: string)
    requires IsDigits(hs)
    requires minutes == "" || minutes[0] == ':'
    ensures Split(hs + minutes, ":")[0] == hs
  {
    forall i | 0 <= i < |hs| ensures hs[i] != ':' {
      assert IsDigit(hs[i]);
    }
    if minutes == "" {
      assert hs + minutes == hs;
      FreeOfChar(hs, ":", 0);
      SplitFree(hs, ":");
    } else {
      assert hs + minutes == hs + ":" + minutes[1..];
      NoEarlyOccurrence(hs, ":", minutes[1..], 0);
      SplitFirst(hs, ":", minutes[1..]);
    }
  }

  /**
    `parseTime` on a well-formed clock string "h:mm MOD": "12 AM" is hour 0,
    "n PM" with n < 12 is n + 12, every other hour is read unchanged, and the
    minutes play no part.
  */
  lemma {:induction false} ParseClockTime(hs: string, minutes: string, modifier: string)
    requires IsDigits(hs)
    requires minutes == "" || minutes[0] == ':'
    requires ' ' !in minutes && ' ' !in modifier
    ensures var v := DigitsValue(hs);
      var r := ParseTime(hs + minutes + " " + modifier);
      && (modifier == "AM" ==> r == Num(if v == 12 then 0 else v))
      && (modifier == "PM" ==> r == Num(if v < 12 then v + 12 else v))
      && (modifier != "AM" && modifier != "PM" ==> r == Num(v))
  {
    var clock := hs + minutes;
    forall i | 0 <= i < |clock| ensures clock[i] != ' ' {
      if i < |hs| {
        assert clock[i] == hs[i] && IsDigit(hs[i]);
      } else {
        assert clock[i] == minutes[i - |hs|];
      }
    }
    ClockWords(clock, modifier);
    HourText(hs, minutes);
    assert ToNumber(hs) == Num(DigitsValue(hs));
  }

  /** Twelve o'clock: "12 AM" is midnight (hour 0) and "12 PM" is noon (hour 12). */
  lemma TwelveOClock()
    ensures ParseTime("12 AM") == Num(0)
    ensures ParseTime("12 PM") == Num(12)
  {
    assert DigitsValue("12") == 12 by {
      assert "12"[..1] == "1";
      assert "1"[..0] == "";
    }
    ParseClockTime("12", "", "AM");
    assert "12" + "" + " " + "AM" == "12 AM";
    ParseClockTime("12", "", "PM");
    assert "12" + "" + " " + "PM" == "12 PM";
  }

  // ---------------------------------------------------------------------
  // The peak window

  /** A descriptor "start - end" splits into its two clock strings. */
  lemma RangeParts(startText: string, endText: string)
    requires '-' !in startText && '-' !in endText
    ensures Split(startText + RangeSeparator + endText, RangeSeparator) == [startText, endText]
    ensures DecodeWindow(startText + RangeSeparator + endText) == Range(ParseTime(startText), ParseTime(endText))
  {
    NoEarlyOccurrence(startText, RangeSeparator, endText, 1);
    SplitFirst(startText, RangeSeparator, endText);
    FreeOfChar(endText, RangeSeparator, 1);
    SplitFree(endText, RangeSeparator);
  }

  /**
    For two clock strings that decode, the hour is in the window exactly when
    it lies in [start, end) for a same-day range, and when it is at or past
    the start or before the end for an overnight range. The code as written
    agrees on such descriptors.
  */
  lemma {:induction false} WindowMembership(startText: string, endText: string, hour: int)
    requires '-' !in startText && '-' !in endText
    requires ParseTime(startText).Num? && ParseTime(endText).Num?
    ensures var s := ParseTime(startText).value;
      var e := ParseTime(endText).value;
      var desc := startText + RangeSeparator + endText;
      && (s <= e ==> (InPeakWindow(desc, hour) <==> s <= hour < e))
      && (s > e ==> (InPeakWindow(desc, hour) <==> hour >= s || hour < e))
      && InPeakWindowAsWritten(desc, hour) == InPeakWindow(desc, hour)
  {
    RangeParts(startText, endText);
  }

  /** A descriptor with no " - " in it is never a peak window, and raises nothing. */
  lemma {:induction false} NoSeparatorIsOffPeak(peakHours: string, hour: int)
    requires Free(peakHours, RangeSeparator)
    ensures !InPeakWindow(peakHours, hour)
    ensures !InPeakWindowAsWritten(peakHours, hour)
  {
    SplitFree(peakHours, RangeSeparator);
  }

  /** Whenever either end fails to decode, the intended check says "not peak". */
  lemma UnparseableIsOffPeak(peakHours: string, hour: int)
    requires var parts := Split(peakHours, RangeSeparator);
      |parts| < 2 || ParseTime(parts[0]).NaN? || ParseTime(parts[1]).NaN?
    ensures !InPeakWindow(peakHours, hour)
  {
  }

  /** The intended check and the code differ only on descriptors where an end reads as NaN. */
  lemma CorrectionOnlyAffectsNaN(peakHours: string, hour: int)
    requires var parts := Split(peakHours, RangeSeparator);
      |parts| >= 2 && ParseTime(parts[0]).Num? && ParseTime(parts[1]).Num?
    ensures InPeakWindow(peakHours, hour) == InPeakWindowAsWritten(peakHours, hour)
  {
  }

  /**
    The code as written: when the end time reads as NaN but the start does
    not, every hour from the start onwards counts as peak.
  */
  lemma AsWrittenNaNEndTime(peakHours: string, hour: int)
    requires var parts := Split(peakHours, RangeSeparator);
      |parts| >= 2 && ParseTime(parts[0]).Num? && ParseTime(parts[1]).NaN?
    ensures InPeakWindowAsWritten(peakHours, hour) <==> hour >= ParseTime(Split(peakHours, RangeSeparator)[0]).value
    ensures !InPeakWindow(peakHours, hour)
  {
  }

  /**
    The code as written: when the start time reads as NaN but the end does
    not, every hour before the end counts as peak.
  */
  lemma AsWrittenNaNStartTime(peakHours: string, hour: int)
    requires var parts := Split(peakHours, RangeSeparator);
      |parts| >= 2 && ParseTime(parts[0]).NaN? && ParseTime(parts[1]).Num?
    ensures InPeakWindowAsWritten(peakHours, hour) <==> hour < ParseTime(Split(peakHours, RangeSeparator)[1]).value
    ensures !InPeakWindow(peakHours, hour)
  {
  }

  /** The same on a descriptor with a malformed start: "noon - 5:00 PM" at 10 o'clock. */
  lemma MalformedStartCountsAsPeak(startText: string, endText: string)
    requires startText == "noon" && endText == "5:00 PM"
    ensures InPeakWindowAsWritten(startText + RangeSeparator + endText, 10)
    ensures !InPeakWindow(startText + RangeSeparator + endText, 10)
  {
    NoonIsNaN(startText);
    FivePM(endText);
    RangeParts(startText, endText);
  }

  /**
    The discrepancy on a concrete descriptor: "9:00 AM - noon" at 10 o'clock.
    (The descriptor is passed in pieces so that the verifier does not try to
    evaluate `split` on the whole literal.)
  */
  lemma MalformedEndCountsAsPeak(startText: string, endText: string)
    requires startText == "9:00 AM" && endText == "noon"
    ensures InPeakWindowAsWritten(startText + RangeSeparator + endText, 10)
    ensures !InPeakWindow(startText + RangeSeparator + endText, 10)
  {
    NineAM(startText);
    NoonIsNaN(endText);
    RangeParts(startText, endText);
  }

  // ---------------------------------------------------------------------
  // Durations

  /** A custom mode alone decides both lengths; peak hours and the clock play no part. */
  lemma CustomModeIgnoresPeakHours(mode: CustomFocusMode, w1: PeakWindow, h1: int, w2: PeakWindow, h2: int)
    ensures FocusTime(Some(mode), w1, h1) == FocusTime(Some(mode), w2, h2) == mode.pomodoro.focusMinutes * 60
    ensures BreakTime(Some(mode)) == mode.pomodoro.breakMinutes * 60
  {
  }

  /** Without a custom mode: 35 minutes of focus in the peak window, 25 outside it, 5 of break. */
  lemma DefaultDurations(peakHours: string, hour: int)
    ensures FocusTime(None, DecodeWindow(peakHours), hour) == 2100 <==> InPeakWindow(peakHours, hour)
    ensures FocusTime(None, DecodeWindow(peakHours), hour) == 1500 <==> !InPeakWindow(peakHours, hour)
    ensures BreakTime(None) == 300
  {
  }

  /** `ParseClockTime` for a clock string given whole, with the hour it spells. */
  lemma ReadClock(t: string, hs: string, minutes: string, modifier: string, hour: nat)
    requires t == hs + minutes + " " + modifier
    requires IsDigits(hs) && hour == DigitsValue(hs)
    requires minutes == "" || minutes[0] == ':'
    requires ' ' !in minutes && ' ' !in modifier
    requires modifier == "AM" || modifier == "PM"
    ensures modifier == "AM" ==> ParseTime(t) == Num(if hour == 12 then 0 else hour)
    ensures modifier == "PM" ==> ParseTime(t) == Num(if hour < 12 then hour + 12 else hour)
  {
    ParseClockTime(hs, minutes, modifier);
  }

  /** `parseTime` on the clock strings of the examples below. */
  lemma NineAM(t: string)
    requires t == "9:00 AM"
    ensures ParseTime(t) == Num(9) && '-' !in t
  {
    assert DigitsValue("9") == 9 by { assert "9"[..0] == ""; }
    ReadClock(t, "9", ":00", "AM", 9);
  }

  lemma HalfPastElevenAM(t: string)
    requires t == "11:30 AM"
    ensures ParseTime(t) == Num(11) && '-' !in t
  {
    assert DigitsValue("11") == 11 by {
      assert "11"[..1] == "1";
      assert "1"[..0] == "";
    }
    ReadClock(t, "11", ":30", "AM", 11);
  }

  lemma TenPM(t: string)
    requires t == "10:00 PM"
    ensures ParseTime(t) == Num(22) && '-' !in t
  {
    assert DigitsValue("10") == 10 by {
      assert "10"[..1] == "1";
      assert "1"[..0] == "";
    }
    ReadClock(t, "10", ":00", "PM", 10);
  }

  lemma FivePM(t: string)
    requires t == "5:00 PM"
    ensures ParseTime(t) == Num(17) && '-' !in t
  {
    assert DigitsValue("5") == 5 by { assert "5"[..0] == ""; }
    ReadClock(t, "5", ":00", "PM", 5);
  }

  lemma SixAM(t: string)
    requires t == "6:00 AM"
    ensures ParseTime(t) == Num(6) && '-' !in t
  {
    assert DigitsValue("6") == 6 by { assert "6"[..0] == ""; }
    ReadClock(t, "6", ":00", "AM", 6);
  }

  /**
    A single word with neither a space nor a ':' is read whole as the hour:
    unless it is a decimal numeral, it reads as NaN.
  */
  lemma {:induction false} WordIsNaN(t: string)
    requires t != "" && ' ' !in t && ':' !in t && !IsDigits(t)
    ensures ParseTime(t) == NaN
  {
    FreeOfChar(t, " ", 0);
    SplitFree(t, " ");
    FreeOfChar(t, ":", 0);
    SplitFree(t, ":");
  }

  /** The word "noon" reads as NaN. */
  lemma NoonIsNaN(t: string)
    requires t == "noon"
    ensures ParseTime(t) == NaN && '-' !in t
  {
    assert !IsDigit(t[0]);
    WordIsNaN(t);
  }

  /** "9:00 AM - 11:30 AM": 35-minute focus at 10 o'clock, 25 minutes at 13 o'clock. */
  lemma MorningPeakExample(startText: string, endText: string)
    requires startText == "9:00 AM" && endText == "11:30 AM"
    ensures FocusTime(None, DecodeWindow(startText + RangeSeparator + endText), 10) == 2100
    ensures FocusTime(None, DecodeWindow(startText + RangeSeparator + endText), 13) == 1500
  {
    NineAM(startText);
    HalfPastElevenAM(endText);
    RangeParts(startText, endText);
  }

  /** "10:00 PM - 6:00 AM" wraps past midnight: 23 o'clock is inside, 7 o'clock is not. */
  lemma OvernightPeakExample(startText: string, endText: string)
    requires startText == "10:00 PM" && endText == "6:00 AM"
    ensures InPeakWindow(startText + RangeSeparator + endText, 23)
    ensures !InPeakWindow(startText + RangeSeparator + endText, 7)
  {
    TenPM(startText);
    SixAM(endText);
    RangeParts(startText, endText);
  }

  /** A 45/15 custom mode gives 2700 seconds of focus and 900 of break. */
  lemma CustomModeExample(mode: CustomFocusMode, window: PeakWindow, hour: int)
    requires mode.pomodoro == PomodoroConfig(45, 15)
    ensures PhaseTime(false, Some(mode), window, hour) == 2700
    ensures PhaseTime(true, Some(mode), window, hour) == 900
  {
  }
}
