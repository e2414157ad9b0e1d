/** The exam page's countdown: the one-second tick and the `mm:ss` display
    (frontend/src/app/exam/page.tsx). */
module ExamClock {
  import opened Common

  /** `EXAM_TIME_LIMIT`: 25 minutes, in seconds. */
  const ExamTimeLimit: nat := 25 * 60

  /** One timer tick on the remaining time: the new value, and whether the
      tick hands over to submission. */
  function Tick(prev: int): (r: (int, bool))
    ensures r.0 >= 0
    ensures r.1 <==> prev <= 1
    ensures r.1 ==> r.0 == 0
    ensures !r.1 ==> r.0 == prev - 1 && r.0 >= 1
  {
    if prev <= 1 then (0, true) else (prev - 1, false)
  }

  /** The remaining time after `n` ticks that did not submit. */
  function Countdown(t: int, n: nat): int {
    if n == 0 then t else Tick(Countdown(t, n - 1)).0
  }

  /** Starting from `t` seconds, the first `t - 1` ticks count down one
      second each and do not submit; the tick after them submits, leaving 0. */
  lemma {:induction false} CountdownSubmitsOnTime(t: int, n: nat)
    requires n < t
    ensures Countdown(t, n) == t - n
    ensures Tick(Countdown(t, n)).1 <==> n == t - 1
  {
    if n > 0 {
      CountdownSubmitsOnTime(t, n - 1);
    }
  }

  /** The full exam time runs for exactly 1500 ticks before submitting. */
  lemma FullTimeSubmitsAfterLimit()
    ensures Countdown(ExamTimeLimit, ExamTimeLimit - 1) == 1
    ensures Tick(Countdown(ExamTimeLimit, ExamTimeLimit - 1)) == (0, true)
  {
    CountdownSubmitsOnTime(ExamTimeLimit, ExamTimeLimit - 1);
  }

  /** `t` is at least two minute digits reading as `m`, a colon, and exactly
      two second digits reading as `s`. */
  predicate ShowsClock(t: string, m: nat, s: nat) {
    && |t| >= 5 && t[|t| - 3] == ':'
    && AllDigits(t[..|t| - 3]) && AllDigits(t[|t| - 2..])
    && DigitsValue(t[..|t| - 3]) == m && DigitsValue(t[|t| - 2..]) == s
  }

  /** `formatTime`: whole minutes and the remaining seconds, each padded
      with zeros to at least two digits, joined by a colon; the seconds
      take exactly two. */
  function FormatTime(seconds: nat): (r: string)
    ensures ShowsClock(r, seconds / 60, seconds % 60)
  {
    var m, s := seconds / 60, seconds % 60;
    SecondsDigits(s);
    var mm := PadStartZero(DecimalString(m), 2);
    var ss := PadStartZero(DecimalString(s), 2);
    PaddedValue(m, 2);
    PaddedValue(s, 2);
    JoinClock(mm, ss);
    mm + ":" + ss
  }

  /** Where the minutes, the colon and the seconds sit in `mm + ":" + ss`. */
  lemma JoinClock(mm: string, ss: string)
    requires |mm| >= 2 && |ss| == 2
    ensures var r := mm + ":" + ss;
      && |r| == |mm| + 3 && r[|r| - 3] == ':' && r[0] == mm[0]
      && r[..|r| - 3] == mm && r[|r| - 2..] == ss
  {
    var r := mm + ":" + ss;
    assert r[..|r| - 3] == mm;
    assert r[|r| - 2..] == ss;
  }

  /** Zero padding adds a leading zero only to reach the width: a padded
      string longer than the width starts with a non-zero digit. */
  lemma PaddingOnlyToWidth(n: nat, width: nat)
    ensures var p := PadStartZero(DecimalString(n), width);
      width >= 1 && |p| > width ==> p[0] != '0'
  {
    var d := DecimalString(n);
    if |d| > width >= 1 {
      assert PadStartZero(d, width) == d;
      DecimalStringNoLeadingZero(n);
    }
  }

  /** The minutes are padded to two digits and no further: a display that
      starts with a zero is exactly `mm:ss`. */
  lemma MinutesPaddedToTwo(seconds: nat)
    ensures var r := FormatTime(seconds);
      r[0] == '0' ==> |r| == 5
  {
    var m, s := seconds / 60, seconds % 60;
    SecondsDigits(s);
    var mm := PadStartZero(DecimalString(m), 2);
    var ss := PadStartZero(DecimalString(s), 2);
    PaddingOnlyToWidth(m, 2);
    JoinClock(mm, ss);
    assert FormatTime(seconds) == mm + ":" + ss;
  }

  /** A number below 100 has at most two decimal digits. */
  lemma SecondsDigits(n: nat)
    requires n < 100
    ensures |DecimalString(n)| <= 2
  {
    if n >= 10 {
      assert DecimalString(n) == DecimalString(n / 10) + [DigitChar(n % 10)];
    }
  }

  /** Reads an `mm:ss` display back as a number of seconds. */
  function ParseClock(t: string): Option<nat> {
    if |t| < 3 || t[|t| - 3] != ':' then None
    else
      var mm, ss := t[..|t| - 3], t[|t| - 2..];
      if mm == [] || !AllDigits(mm) || !AllDigits(ss) then None
      else Some(DigitsValue(mm) * 60 + DigitsValue(ss))
  }

  /** The display loses nothing: it reads back as the seconds shown. */
  lemma FormatTimeRoundTrip(seconds: nat)
    ensures ParseClock(FormatTime(seconds)) == Some(seconds)
  {
    var r := FormatTime(seconds);
    ParseClockParts(r, seconds);
  }

  /** A display whose parts read as the whole minutes and the remaining
      seconds of `seconds` reads back as `seconds`. */
  lemma ParseClockParts(t: string, seconds: nat)
    requires ShowsClock(t, seconds / 60, seconds % 60)
    ensures ParseClock(t) == Some(seconds)
  {
  }

  /** Zero padding keeps the value of a decimal string. */
  lemma PaddedValue(n: nat, width: nat)
    ensures AllDigits(PadStartZero(DecimalString(n), width))
    ensures DigitsValue(PadStartZero(DecimalString(n), width)) == n
  {
    var d := DecimalString(n);
    LeadingZerosValue(|PadStartZero(d, width)| - |d|, d);
    DecimalStringRoundTrip(n);
  }

  /** The starting display. */
  lemma FullTimeDisplay()
    ensures FormatTime(ExamTimeLimit) == "25:00"
  {
    var mm := PadStartZero(DecimalString(ExamTimeLimit / 60), 2);
    var ss := PadStartZero(DecimalString(ExamTimeLimit % 60), 2);
    assert FormatTime(ExamTimeLimit) == mm + ":" + ss;
    assert DecimalString(25) == DecimalString(2) + [DigitChar(5)] == "25";
    assert mm == "25";
    assert ss == Zeros(1) + "0" == "00";
  }
}
