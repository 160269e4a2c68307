/** The dashboard's two duration formatters (web_server/index.js): stream
    uptime as "Hh MMm", "Mm SSs" or "Ss", and an alert's purge time as hours
    and minutes. JavaScript numbers are modelled as exact reals (uptime) and
    whole numbers (purge seconds). */
module Formatting {
  import opened Wrappers
  import opened Text

  /** Shown when there is no positive duration. */
  const NO_VALUE: String := "\U{2014}"
  const INVALID_INPUT: String := "Invalid input"

  /** A number below 100, zero-padded to two digits. */
  lemma PadTwoDigits(n: nat)
    requires n < 100
    ensures PadTwo(NatToString(n)) == TwoDigits(n)
  {
    if n >= 10 {
      assert NatToString(n / 10) == [DigitChar(n / 10)];
    }
  }

  /** formatDuration: a missing or non-positive duration shows as a dash;
      otherwise the whole seconds are split into hours, minutes and seconds
      and the two leading units are shown, the second one padded. */
  function FormatDuration(seconds: Option<real>): (r: String)
    ensures r == NO_VALUE <==> seconds.None? || seconds.value <= 0.0
    ensures r != NO_VALUE ==> |r| >= 2 && (r[|r| - 1] == 'm' || r[|r| - 1] == 's')
  {
    if seconds.None? || seconds.value <= 0.0 then NO_VALUE
    else
      var abs: nat := seconds.value.Floor;
      var hrs := abs / 3600;
      var mins := (abs % 3600) / 60;
      var secs := abs % 60;
      if hrs > 0 then NatToString(hrs) + "h " + PadTwo(NatToString(mins)) + "m"
      else if mins > 0 then NatToString(mins) + "m " + PadTwo(NatToString(secs)) + "s"
      else NatToString(secs) + "s"
  }

  /** A positive duration of `h` hours, `m` minutes and `s` seconds (plus a
      fraction of a second) shows its two leading non-zero units, the second
      padded to two digits; under a minute it shows the seconds alone. */
  lemma FormatDurationForms(seconds: real, h: nat, m: nat, s: nat)
    requires seconds > 0.0 && m < 60 && s < 60
    requires (h * 3600 + m * 60 + s) as real <= seconds < (h * 3600 + m * 60 + s + 1) as real
    ensures h > 0 ==> FormatDuration(Some(seconds)) == NatToString(h) + "h " + TwoDigits(m) + "m"
    ensures h == 0 && m > 0 ==> FormatDuration(Some(seconds)) == NatToString(m) + "m " + TwoDigits(s) + "s"
    ensures h == 0 && m == 0 ==> FormatDuration(Some(seconds)) == NatToString(s) + "s"
  {
    var abs := seconds.Floor;
    assert abs == h * 3600 + m * 60 + s;
    DivModUnique(abs, 3600, h, m * 60 + s);
    DivModUnique(abs % 3600, 60, m, s);
    DivModUnique(abs, 60, h * 60 + m, s);
    PadTwoDigits(m);
    PadTwoDigits(s);
  }

  /** Euclidean division has one quotient and remainder. */
  lemma DivModUnique(n: int, d: int, q: int, r: int)
    requires d > 0 && 0 <= r < d && n == q * d + r
    ensures n / d == q && n % d == r
  {
    var q0, r0 := n / d, n % d;
    assert (q - q0) * d == r0 - r;
    if q0 < q {
      MulAtLeast(q - q0, d);
    } else if q < q0 {
      MulAtLeast(q0 - q, d);
    }
  }

  /** A positive multiple of `d` is at least `d`. */
  lemma MulAtLeast(k: int, d: int)
    requires k >= 1 && d > 0
    ensures k * d >= d
  {
  }

  /** secondsToHM: a negative input is reported as invalid; otherwise the
      whole hours (when any) and the remaining whole minutes are shown. */
  function SecondsToHM(totalSeconds: int): (r: String)
    ensures r == INVALID_INPUT <==> totalSeconds < 0
    ensures totalSeconds >= 0 ==> |r| >= 2 && r[|r| - 1] == 'm'
  {
    assert INVALID_INPUT[|INVALID_INPUT| - 1] == 't';
    if totalSeconds < 0 then INVALID_INPUT
    else
      var hours: nat := totalSeconds / 3600;
      var minutes: nat := (totalSeconds % 3600) / 60;
      var hoursPart := if hours > 0 then NatToString(hours) + "h" else "";
      var minutesPart := NatToString(minutes) + "m";
      if hours == 0 && minutes == 0 then "0m"
      else hoursPart + (if hoursPart != "" && minutesPart != "" then " " else "") + minutesPart
  }

  /** `h` hours and `m` minutes (and under a minute more) show as "Hh Mm",
      or "Mm" without hours; the explicit "0m" case agrees with this rule. */
  lemma SecondsToHMForms(totalSeconds: int, h: nat, m: nat)
    requires m < 60 && h * 3600 + m * 60 <= totalSeconds < h * 3600 + m * 60 + 60
    ensures SecondsToHM(totalSeconds) == (if h > 0 then NatToString(h) + "h " else "") + NatToString(m) + "m"
  {
    DivModUnique(totalSeconds, 3600, h, totalSeconds - h * 3600);
    DivModUnique(totalSeconds % 3600, 60, m, totalSeconds - h * 3600 - m * 60);
  }
}
