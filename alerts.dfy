/** The alert manager's bookkeeping (src/alerts.rs): which alerts concern the
    watched zones, the active-alert list with its insertion and expiry rules,
    which of the two state files should exist, the record used when the
    decoder fails, and the line appended to the dedicated alert log. */
module Alerts {
  import opened Wrappers
  import opened Text

  /** The decoded details of one alert. */
  datatype EasAlertData = EasAlertData(
    easText: String,
    eventText: String,
    eventCode: String,
    fips: seq<String>,
    locations: String,
    originator: String)

  /** An alert being tracked; `expiresAt` is an instant on an abstract clock. */
  datatype ActiveAlert = ActiveAlert(data: EasAlertData, rawHeader: String, expiresAt: int)

  /** The location code that addresses the whole country. */
  const NATIONWIDE_FIPS: String := "000000"

  // ------------------------------------------------------------- relevance

  /** Some location code in `fips` is one of the watched ones. */
  function AnyWatched(fips: seq<String>, watched: set<String>): (r: bool)
    ensures r <==> exists i :: 0 <= i < |fips| && fips[i] in watched
  {
    if fips == [] then false
    else if fips[0] in watched then true
    else
      var rest := AnyWatched(fips[1..], watched);
      assert forall i :: 1 <= i < |fips| ==> fips[i] == fips[1..][i - 1];
      rest
  }

  /** An alert is relayed when nothing is watched, when it is addressed to
      the whole country, or when one of its location codes is watched. */
  function IsAlertRelevant(alert: EasAlertData, watched: set<String>): (r: bool)
    ensures watched == {} ==> r
    ensures NATIONWIDE_FIPS in alert.fips ==> r
    ensures watched != {} && NATIONWIDE_FIPS !in alert.fips ==>
              (r <==> exists f :: f in alert.fips && f in watched)
  {
    if watched == {} then true
    else if NATIONWIDE_FIPS in alert.fips then true
    else AnyWatched(alert.fips, watched)
  }

  /** Watching more zones never makes a relayed alert irrelevant, as long as
      something was watched to begin with. */
  lemma RelevanceMonotone(alert: EasAlertData, w1: set<String>, w2: set<String>)
    requires w1 != {} && w1 <= w2
    ensures IsAlertRelevant(alert, w1) ==> IsAlertRelevant(alert, w2)
  {
  }

  // ---------------------------------------------------------- fallback data

  /** The record used when the decoder script fails: the event code stands in
      for the event text and no location code is known. */
  function FallbackAlertData(event: String, locations: String, originator: String): (r: EasAlertData)
    ensures r.easText == "Decoder script failed." && r.fips == []
    ensures r.eventCode == event && r.eventText == event
    ensures r.locations == locations && r.originator == originator
  {
    EasAlertData("Decoder script failed.", event, event, [], locations, originator)
  }

  /** The decoder's record when it succeeded, the fallback otherwise. */
  function AlertDataFor(decoded: Option<EasAlertData>, event: String, locations: String, originator: String): (r: EasAlertData)
    ensures decoded.Some? ==> r == decoded.value
    ensures decoded.None? ==> r.fips == [] && r.eventCode == event && r.eventText == event
    ensures decoded.None? ==> r.locations == locations && r.originator == originator
    ensures decoded.None? ==> r.easText == "Decoder script failed."
  {
    match decoded
    case Some(d) => d
    case None => FallbackAlertData(event, locations, originator)
  }

  /** A fallback record carries no location code, so it is relayed exactly
      when no zone is watched. */
  lemma FallbackRelevance(event: String, locations: String, originator: String, watched: set<String>)
    ensures IsAlertRelevant(FallbackAlertData(event, locations, originator), watched) <==> watched == {}
  {
    var d := FallbackAlertData(event, locations, originator);
    assert d.fips == [];
  }

  // --------------------------------------------------------------- filtering

  /** The elements of `s` that `keep` accepts, in their original order. */
  function Filter<T(!new)>(s: seq<T>, keep: T -> bool): (r: seq<T>)
    ensures |r| <= |s|
    ensures forall x :: x in r <==> x in s && keep(x)
  {
    if s == [] then [] else (if keep(s[0]) then [s[0]] else []) + Filter(s[1..], keep)
  }

  /** Filtering distributes over concatenation, which fixes the order of what
      is kept. */
  lemma {:induction false} FilterAppend<T(!new)>(a: seq<T>, b: seq<T>, keep: T -> bool)
    ensures Filter(a + b, keep) == Filter(a, keep) + Filter(b, keep)
  {
    if a == [] {
      assert a + b == b;
    } else {
      assert (a + b)[1..] == a[1..] + b;
      FilterAppend(a[1..], b, keep);
    }
  }

  /** When everything is accepted nothing is removed. */
  lemma {:induction false} FilterAll<T(!new)>(s: seq<T>, keep: T -> bool)
    requires forall i :: 0 <= i < |s| ==> keep(s[i])
    ensures Filter(s, keep) == s
  {
    if s != [] {
      FilterAll(s[1..], keep);
    }
  }

  /** The kept and the removed elements together account for all of `s`. */
  lemma {:induction false} FilterSplitCount<T(!new)>(s: seq<T>, keep: T -> bool, drop: T -> bool)
    requires forall x :: drop(x) <==> !keep(x)
    ensures |Filter(s, keep)| + |Filter(s, drop)| == |s|
  {
    if s != [] {
      FilterSplitCount(s[1..], keep, drop);
    }
  }

  /** Something is removed exactly when some element is rejected. */
  lemma {:induction false} FilterShrinks<T(!new)>(s: seq<T>, keep: T -> bool)
    ensures |Filter(s, keep)| < |s| <==> exists i :: 0 <= i < |s| && !keep(s[i])
  {
    if s != [] {
      FilterShrinks(s[1..], keep);
      assert forall i :: 1 <= i < |s| ==> s[i] == s[1..][i - 1];
      if !keep(s[0]) {
        assert |Filter(s, keep)| == |Filter(s[1..], keep)|;
      }
    }
  }

  // ---------------------------------------------------- the active-alert list

  /** No two tracked alerts share a raw header. */
  predicate DistinctHeaders(s: seq<ActiveAlert>) {
    forall i, j :: 0 <= i < j < |s| ==> s[i].rawHeader != s[j].rawHeader
  }

  /** The alerts that survive the arrival of a new alert with header `header`
      at instant `now`. */
  function KeepOnInsert(now: int, header: String): ActiveAlert -> bool {
    (a: ActiveAlert) => a.expiresAt > now && a.rawHeader != header
  }

  /** The alerts that survive a cleanup at instant `now`. */
  function Live(now: int): ActiveAlert -> bool {
    (a: ActiveAlert) => a.expiresAt > now
  }

  /** The alerts a cleanup at instant `now` removes. */
  function Expired(now: int): ActiveAlert -> bool {
    (a: ActiveAlert) => a.expiresAt <= now
  }

  /** The list after `alert` arrives at `now`: the old alerts that are still
      live and carry another header, in order, then the new alert. */
  function AfterInsert(s: seq<ActiveAlert>, alert: ActiveAlert, now: int): (r: seq<ActiveAlert>)
    ensures |r| >= 1 && r[|r| - 1] == alert
    ensures forall i :: 0 <= i < |r| - 1 ==>
              r[i] in s && r[i].expiresAt > now && r[i].rawHeader != alert.rawHeader
    ensures forall x :: x in s && x.expiresAt > now && x.rawHeader != alert.rawHeader ==> x in r
    ensures forall i :: 0 <= i < |r| && r[i].rawHeader == alert.rawHeader ==> i == |r| - 1
  {
    var kept := Filter(s, KeepOnInsert(now, alert.rawHeader));
    assert forall i :: 0 <= i < |kept| ==> kept[i] in kept;
    kept + [alert]
  }

  /** The list after a cleanup at `now`: exactly the live alerts, in order. */
  function AfterCleanup(s: seq<ActiveAlert>, now: int): (r: seq<ActiveAlert>)
    ensures forall x :: x in r <==> x in s && x.expiresAt > now
  {
    Filter(s, Live(now))
  }

  /** Removing elements keeps headers distinct. */
  lemma {:induction false} FilterKeepsDistinct(s: seq<ActiveAlert>, keep: ActiveAlert -> bool)
    requires DistinctHeaders(s)
    ensures DistinctHeaders(Filter(s, keep))
  {
    if s != [] {
      assert DistinctHeaders(s[1..]) by {
        forall i, j | 0 <= i < j < |s[1..]| ensures s[1..][i].rawHeader != s[1..][j].rawHeader {
          assert s[1..][i] == s[i + 1] && s[1..][j] == s[j + 1];
        }
      }
      FilterKeepsDistinct(s[1..], keep);
      var rest := Filter(s[1..], keep);
      forall k | 0 <= k < |rest| ensures rest[k].rawHeader != s[0].rawHeader {
        assert rest[k] in rest;
        var m :| 1 <= m < |s| && s[m] == rest[k] by {
          assert rest[k] in s[1..];
          var m' :| 0 <= m' < |s[1..]| && s[1..][m'] == rest[k];
          assert s[m' + 1] == rest[k];
        }
      }
    }
  }

  /** Inserting keeps the tracked headers distinct. */
  lemma InsertKeepsDistinct(s: seq<ActiveAlert>, alert: ActiveAlert, now: int)
    requires DistinctHeaders(s)
    ensures DistinctHeaders(AfterInsert(s, alert, now))
  {
    var kept := Filter(s, KeepOnInsert(now, alert.rawHeader));
    FilterKeepsDistinct(s, KeepOnInsert(now, alert.rawHeader));
    assert AfterInsert(s, alert, now) == kept + [alert];
  }

  /** A live alert that has just been inserted is untouched by a cleanup at
      the same instant: insertion already drops the expired alerts. */
  lemma CleanupAfterInsert(s: seq<ActiveAlert>, alert: ActiveAlert, now: int)
    requires alert.expiresAt > now
    ensures AfterCleanup(AfterInsert(s, alert, now), now) == AfterInsert(s, alert, now)
  {
    var r := AfterInsert(s, alert, now);
    FilterAll(r, Live(now));
  }

  /** Cleaning up twice at the same instant is cleaning up once. */
  lemma CleanupIdempotent(s: seq<ActiveAlert>, now: int)
    ensures AfterCleanup(AfterCleanup(s, now), now) == AfterCleanup(s, now)
  {
    var r := AfterCleanup(s, now);
    assert forall i :: 0 <= i < |r| ==> r[i] in r;
    FilterAll(r, Live(now));
  }

  /** A cleanup removes as many alerts as have expired, and removes some
      exactly when some alert has expired. */
  lemma CleanupCount(s: seq<ActiveAlert>, now: int)
    ensures |s| - |AfterCleanup(s, now)| == |Filter(s, Expired(now))|
    ensures |AfterCleanup(s, now)| < |s| <==> exists i :: 0 <= i < |s| && s[i].expiresAt <= now
  {
    FilterSplitCount(s, Live(now), Expired(now));
    FilterShrinks(s, Live(now));
  }

  /** The shared list of alerts currently in force. */
  class AlertList {
    var activeAlerts: seq<ActiveAlert>

    predicate Valid()
      reads this
    {
      DistinctHeaders(activeAlerts)
    }

    constructor ()
      ensures activeAlerts == [] && Valid()
    {
      activeAlerts := [];
    }

    /** Keeps, in order, exactly the alerts that `keep` accepts. */
    method Retain(keep: ActiveAlert -> bool)
      modifies this
      ensures activeAlerts == Filter(old(activeAlerts), keep)
    {
      var s := activeAlerts;
      var kept: seq<ActiveAlert> := [];
      var i := 0;
      while i < |s|
        invariant 0 <= i <= |s|
        invariant kept == Filter(s[..i], keep)
      {
        FilterAppend(s[..i], [s[i]], keep);
        assert s[..i + 1] == s[..i] + [s[i]];
        if keep(s[i]) {
          kept := kept + [s[i]];
        }
        i := i + 1;
      }
      assert s[..i] == s;
      activeAlerts := kept;
    }

    /** A relevant alert arrives at `now`: expired alerts and any alert with
        the same header are dropped, then the new alert is appended. */
    method InsertAlert(alert: ActiveAlert, now: int)
      requires Valid()
      modifies this
      ensures Valid()
      ensures activeAlerts == AfterInsert(old(activeAlerts), alert, now)
    {
      InsertKeepsDistinct(activeAlerts, alert, now);
      Retain(KeepOnInsert(now, alert.rawHeader));
      activeAlerts := activeAlerts + [alert];
    }

    /** The periodic cleanup at `now`: drops the expired alerts and reports
        how many went, which decides whether the state files are refreshed. */
    method Cleanup(now: int) returns (removedCount: nat)
      requires Valid()
      modifies this
      ensures Valid()
      ensures activeAlerts == AfterCleanup(old(activeAlerts), now)
      ensures removedCount == |old(activeAlerts)| - |activeAlerts|
    {
      FilterKeepsDistinct(activeAlerts, Live(now));
      var initialCount := |activeAlerts|;
      Retain(Live(now));
      removedCount := initialCount - |activeAlerts|;
    }
  }

  // ------------------------------------------------------- state-file choice

  /** Which of `severe_day.txt` and `rainy_day.txt` should exist. */
  datatype StateFiles = StateFiles(severeDay: bool, rainyDay: bool)

  /** Some tracked alert's trimmed event code is one of `codes`. */
  predicate HasEventCode(alerts: seq<ActiveAlert>, codes: set<String>) {
    exists i :: 0 <= i < |alerts| && TrimRust(alerts[i].data.eventCode) in codes
  }

  /** Severe-thunderstorm and tornado warnings and tornado watches make the
      day severe; otherwise a severe-thunderstorm watch makes it rainy;
      otherwise neither file should exist. */
  function FileDecision(alerts: seq<ActiveAlert>): (r: StateFiles)
    ensures !(r.severeDay && r.rainyDay)
    ensures r.severeDay <==>
              exists i :: 0 <= i < |alerts| && TrimRust(alerts[i].data.eventCode) in {"SVR", "TOR", "TOA"}
    ensures r.rainyDay <==>
              (!r.severeDay && exists i :: 0 <= i < |alerts| && TrimRust(alerts[i].data.eventCode) == "SVA")
  {
    var hasSevereWarning := HasEventCode(alerts, {"SVR", "TOR"});
    var hasSevereWatch := HasEventCode(alerts, {"TOA"});
    var hasModerateWatch := HasEventCode(alerts, {"SVA"});
    if hasSevereWarning || hasSevereWatch then StateFiles(true, false)
    else if hasModerateWatch then StateFiles(false, true)
    else StateFiles(false, false)
  }

  /** The decision depends only on which alerts are tracked, so reordering
      the list leaves it unchanged. */
  lemma FileDecisionIgnoresOrder(s: seq<ActiveAlert>, t: seq<ActiveAlert>)
    requires multiset(s) == multiset(t)
    ensures FileDecision(s) == FileDecision(t)
  {
    forall x | x in s ensures x in t {
      assert x in multiset(s);
    }
    forall x | x in t ensures x in s {
      assert x in multiset(t);
    }
    var a := FileDecision(s);
    var b := FileDecision(t);
    if a.severeDay {
      var i :| 0 <= i < |s| && TrimRust(s[i].data.eventCode) in {"SVR", "TOR", "TOA"};
      assert s[i] in t;
    }
    if b.severeDay {
      var i :| 0 <= i < |t| && TrimRust(t[i].data.eventCode) in {"SVR", "TOR", "TOA"};
      assert t[i] in s;
    }
    if a.rainyDay {
      var i :| 0 <= i < |s| && TrimRust(s[i].data.eventCode) == "SVA";
      assert s[i] in t;
    }
    if b.rainyDay {
      var i :| 0 <= i < |t| && TrimRust(t[i].data.eventCode) == "SVA";
      assert t[i] in s;
    }
  }

  /** Once a severe alert has arrived the day is severe until it leaves. */
  lemma SevereAlertMakesSevereDay(s: seq<ActiveAlert>, alert: ActiveAlert, now: int)
    requires TrimRust(alert.data.eventCode) in {"SVR", "TOR", "TOA"}
    ensures FileDecision(AfterInsert(s, alert, now)) == StateFiles(true, false)
  {
    var r := AfterInsert(s, alert, now);
    assert TrimRust(r[|r| - 1].data.eventCode) in {"SVR", "TOR", "TOA"};
  }

  // --------------------------------------------------------------- log line

  /** The line the archive keeps for one alert, without its terminator. */
  function LogLine(rawHeader: String, easText: String, timestamp: String): (r: String)
    ensures |r| == |rawHeader| + |easText| + |timestamp| + 16
    ensures StartsWith(r, rawHeader + ": ") && EndsWith(r, " (Received @ " + timestamp + ")")
    ensures '\n' !in rawHeader && '\n' !in easText && '\n' !in timestamp ==> '\n' !in r
  {
    var r := rawHeader + ": " + easText + " (Received @ " + timestamp + ")";
    assert r[..|rawHeader| + 2] == rawHeader + ": ";
    r
  }

  /** What is appended to the dedicated alert log: the line and a blank line. */
  function LogEntry(rawHeader: String, easText: String, timestamp: String): (r: String)
    ensures |r| >= 2 && r[|r| - 2..] == "\n\n" && r[..|r| - 2] == LogLine(rawHeader, easText, timestamp)
  {
    LogLine(rawHeader, easText, timestamp) + "\n\n"
  }

  /** A local wall-clock reading in the configured time zone. */
  datatype LocalTime = LocalTime(year: nat, month: nat, day: nat, hour: nat, minute: nat, second: nat) {
    predicate Valid() {
      1 <= month <= 12 && 1 <= day <= 31 && hour < 24 && minute < 60 && second < 60
    }
  }

  /** The hour on a twelve-hour clock. */
  function Hour12(hour: nat): (r: nat)
    requires hour < 24
    ensures 1 <= r <= 12 && r % 12 == hour % 12
  {
    if hour % 12 == 0 then 12 else hour % 12
  }

  function Meridiem(hour: nat): String {
    if hour < 12 then "AM" else "PM"
  }

  /** chrono's `%Y`: four digits, zero-padded; a sign before longer years. */
  function FormatYear(year: nat): (s: String)
    ensures year < 10000 ==> |s| == 4 && AllDigits(s)
  {
    if year < 10000 then TwoDigits(year / 100) + TwoDigits(year % 100) else "+" + NatToString(year)
  }

  /** chrono's `%l`: the twelve-hour clock hour, padded with a space to two
      characters. */
  function SpacePaddedHour(hour: nat): (s: String)
    requires hour < 24
    ensures |s| == 2
  {
    var h := Hour12(hour);
    if h < 10 then [' ', DigitChar(h)] else TwoDigits(h)
  }

  /** `%Y-%m-%d`. */
  function DatePart(t: LocalTime): (s: String)
    requires t.Valid()
    ensures ' ' !in s
  {
    var s := FormatYear(t.year) + "-" + TwoDigits(t.month) + "-" + TwoDigits(t.day);
    assert forall i :: 0 <= i < |NatToString(t.year)| ==> NatToString(t.year)[i] != ' ';
    s
  }

  /** `:%M:%S %p`, everything after the hour. */
  function ClockTail(t: LocalTime): (s: String)
    requires t.Valid()
    ensures |s| == 9 && s[0] == ':' && s[3] == ':' && s[6] == ' '
  {
    ":" + TwoDigits(t.minute) + ":" + TwoDigits(t.second) + " " + Meridiem(t.hour)
  }

  /** The timestamp exactly as the format string `%Y-%m-%d%l:%M:%S %p`
      renders it: nothing separates the date from the space-padded hour. */
  function TimestampAsWritten(t: LocalTime): (s: String)
    requires t.Valid()
    ensures |s| == |DatePart(t)| + 2 + |ClockTail(t)|
    ensures StartsWith(s, DatePart(t)) && EndsWith(s, ClockTail(t))
  {
    DatePart(t) + SpacePaddedHour(t.hour) + ClockTail(t)
  }

  /** For the hours 10, 11 and 12 the day and the hour run together. */
  lemma TimestampAsWrittenGluesHour(t: LocalTime)
    requires t.Valid() && Hour12(t.hour) >= 10
    ensures var s := TimestampAsWritten(t); var d := |DatePart(t)|;
            s[..d] == DatePart(t) && IsDigit(s[d - 1]) && IsDigit(s[d])
  {
    var d := DatePart(t);
    assert d[|d| - 2..] == TwoDigits(t.day);
    assert IsDigit(d[|d| - 1]);
  }

  /** 10:20:30 in the morning of the first of May 2024. */
  lemma TimestampAsWrittenExample()
    ensures TimestampAsWritten(LocalTime(2024, 5, 1, 10, 20, 30)) == "2024-05-01" + "10:20:30 AM"
  {
  }

  /** The timestamp the log line evidently means, `%Y-%m-%d %-I:%M:%S %p`:
      one space between the date and the unpadded twelve-hour clock. */
  function Timestamp(t: LocalTime): (s: String)
    requires t.Valid()
    ensures StartsWith(s, DatePart(t) + " ") && EndsWith(s, ClockTail(t))
  {
    DatePart(t) + " " + NatToString(Hour12(t.hour)) + ClockTail(t)
  }

  /** In the corrected timestamp the date is followed by exactly one space and
      then the hour's first digit, whatever the hour. */
  lemma TimestampSeparatesDate(t: LocalTime)
    requires t.Valid()
    ensures var s := Timestamp(t); var d := |DatePart(t)|;
            d + 1 < |s| && s[..d] == DatePart(t) && s[d] == ' ' && IsDigit(s[d + 1])
            && ' ' !in s[..d]
  {
    var s := Timestamp(t);
    var d := |DatePart(t)|;
    var h := NatToString(Hour12(t.hour));
    assert s == DatePart(t) + (" " + h + ClockTail(t));
    assert s[d + 1] == h[0];
  }
}
