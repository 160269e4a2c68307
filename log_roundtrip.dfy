/** The dedicated alert log read back: the alert manager appends one line and
    a blank line per alert (src/alerts.rs), and the archive page trims the
    file, explodes it on newlines and skips the empty pieces
    (web_server/archive.php). The blank lines are exactly the pieces the
    archive skips, so record k is alert k and carries its receipt stamp. */
module LogRoundTrip {
  import opened Wrappers
  import opened Text
  import Alerts
  import Archive

  /** What the alert manager writes for one alert. */
  datatype ArchivedAlert = ArchivedAlert(rawHeader: String, easText: String, timestamp: String)

  function Line(e: ArchivedAlert): String {
    Alerts.LogLine(e.rawHeader, e.easText, e.timestamp)
  }

  /** The lines of a sequence of alerts, in order. */
  function Lines(es: seq<ArchivedAlert>): (ls: seq<String>)
    ensures |ls| == |es| && forall k :: 0 <= k < |es| ==> ls[k] == Line(es[k])
  {
    if es == [] then [] else [Line(es[0])] + Lines(es[1..])
  }

  /** The log file after the alerts were appended in order. */
  function Written(es: seq<ArchivedAlert>): String {
    if es == [] then [] else Alerts.LogEntry(es[0].rawHeader, es[0].easText, es[0].timestamp) + Written(es[1..])
  }

  /** The text before the receipt stamp: header, separator and message. */
  function Preamble(e: ArchivedAlert): String {
    e.rawHeader + ": " + e.easText + " "
  }

  /** An alert whose line reads back: no newline in any part, a header that
      does not start with a character trim() removes, and no receipt marker
      before the real one. */
  predicate WellFormed(e: ArchivedAlert) {
    '\n' !in e.rawHeader && '\n' !in e.easText && '\n' !in e.timestamp
    && e.rawHeader != [] && !IsPhpTrimChar(e.rawHeader[0])
    && !Contains(Preamble(e), Archive.RECEIVED_OPEN)
  }

  lemma LineShape(e: ArchivedAlert)
    requires WellFormed(e)
    ensures Line(e) == Preamble(e) + Archive.RECEIVED_OPEN + e.timestamp + ")"
    ensures '\n' !in Line(e)
    ensures Line(e)[0] == e.rawHeader[0] && Line(e)[|Line(e)| - 1] == ')'
    ensures !Archive.PhpEmpty(Line(e))
  {
    assert Line(e) == e.rawHeader + (": " + e.easText + " (Received @ " + e.timestamp + ")");
  }

  // -------------------------------------------------------- the file's lines

  /** The lines joined with a blank line between each two. */
  function Body(lines: seq<String>): String
    requires lines != []
  {
    if |lines| == 1 then lines[0] else lines[0] + "\n\n" + Body(lines[1..])
  }

  /** The pieces explode() makes of Body: each line followed by an empty
      piece, except the last. */
  function Spaced(lines: seq<String>): seq<String> {
    if |lines| <= 1 then lines else [lines[0], ""] + Spaced(lines[1..])
  }

  lemma {:induction false} WrittenIsBody(es: seq<ArchivedAlert>)
    requires es != []
    ensures Written(es) == Body(Lines(es)) + "\n\n"
  {
    if |es| > 1 {
      WrittenIsBody(es[1..]);
      assert Lines(es)[1..] == Lines(es[1..]);
    }
  }

  /** Lines that start with a kept character and end with ')' join into
      such a text. */
  lemma {:induction false} BodyEnds(lines: seq<String>)
    requires lines != [] && forall k :: 0 <= k < |lines| ==> Bounded(lines[k])
    ensures Bounded(Body(lines))
  {
    if |lines| > 1 {
      BodyEnds(lines[1..]);
      var rest := Body(lines[1..]);
      assert Body(lines) == lines[0] + ("\n\n" + rest);
    }
  }

  /** trim() removes just the final blank line. */
  lemma TrimWritten(body: String)
    requires Bounded(body)
    ensures TrimPhp(body + "\n\n") == body
  {
    var s := body + "\n\n";
    assert TrimStartBy(s, IsPhpTrimChar) == s;
    assert s[..|s| - 1] == body + "\n";
    assert (body + "\n")[..|body|] == body;
  }

  lemma {:induction false} SplitBody(lines: seq<String>)
    requires lines != [] && forall k :: 0 <= k < |lines| ==> '\n' !in lines[k]
    ensures Split(Body(lines), '\n') == Spaced(lines)
  {
    if |lines| == 1 {
      SplitNoSep(lines[0], '\n');
    } else {
      SplitBody(lines[1..]);
      SplitBlankThen(lines[0], Body(lines[1..]));
    }
  }

  /** A line and a blank line explode into the line and an empty piece. */
  lemma SplitBlankThen(l: String, rest: String)
    requires '\n' !in l
    ensures Split(l + "\n\n" + rest, '\n') == [l, ""] + Split(rest, '\n')
  {
    assert l + "\n\n" + rest == l + ['\n'] + ("\n" + rest);
    SplitAppend(l, '\n', "\n" + rest);
    SplitAppend([], '\n', rest);
    assert [] + ['\n'] + rest == "\n" + rest;
  }

  lemma {:induction false} NonEmptyLinesAppend(a: seq<String>, b: seq<String>)
    ensures Archive.NonEmptyLines(a + b) == Archive.NonEmptyLines(a) + Archive.NonEmptyLines(b)
  {
    if b == [] {
      assert a + b == a;
    } else {
      var n := |b| - 1;
      NonEmptyLinesAppend(a, b[..n]);
      assert (a + b)[..|a + b| - 1] == a + b[..n];
      assert (a + b)[|a + b| - 1] == b[n];
    }
  }

  lemma {:induction false} NonEmptyOfSpaced(lines: seq<String>)
    requires forall k :: 0 <= k < |lines| ==> !Archive.PhpEmpty(lines[k])
    ensures Archive.NonEmptyLines(Spaced(lines)) == lines
  {
    if |lines| == 1 {
      assert Archive.NonEmptyLines(lines) == Archive.NonEmptyLines(lines[..0]) + [lines[0]];
    } else if |lines| > 1 {
      NonEmptyOfSpaced(lines[1..]);
      NonEmptyLinesAppend([lines[0], ""], Spaced(lines[1..]));
      assert [lines[0], ""][..1] == [lines[0]];
      assert [lines[0]][..0] == [];
    }
  }

  /** Every alert's line starts with a character trim() keeps and ends with ')'. */
  lemma LinesBounded(es: seq<ArchivedAlert>)
    requires forall k :: 0 <= k < |es| ==> WellFormed(es[k])
    ensures forall k :: 0 <= k < |es| ==> Bounded(Lines(es)[k])
  {
    forall k | 0 <= k < |es| ensures Bounded(Lines(es)[k]) {
      LineShape(es[k]);
    }
  }

  predicate Bounded(l: String) {
    l != [] && !IsPhpTrimChar(l[0]) && l[|l| - 1] == ')'
  }

  /** Every alert's line is one piece for explode() and counts as non-empty. */
  lemma LinesReadable(es: seq<ArchivedAlert>)
    requires forall k :: 0 <= k < |es| ==> WellFormed(es[k])
    ensures forall k :: 0 <= k < |es| ==> '\n' !in Lines(es)[k] && !Archive.PhpEmpty(Lines(es)[k])
  {
    forall k | 0 <= k < |es| ensures '\n' !in Lines(es)[k] && !Archive.PhpEmpty(Lines(es)[k]) {
      LineShape(es[k]);
    }
  }

  /** trim() removes the blank line after the last line and nothing else. */
  lemma TrimmedBody(ls: seq<String>)
    requires ls != [] && forall k :: 0 <= k < |ls| ==> Bounded(ls[k])
    ensures TrimPhp(Body(ls) + "\n\n") == Body(ls)
  {
    BodyEnds(ls);
    TrimWritten(Body(ls));
  }

  /** trim() leaves the lines with their blank separators. */
  lemma TrimmedWritten(es: seq<ArchivedAlert>)
    requires es != [] && forall k :: 0 <= k < |es| ==> Bounded(Lines(es)[k])
    ensures TrimPhp(Written(es)) == Body(Lines(es))
  {
    TrimmedBody(Lines(es));
    WrittenIsBody(es);
  }

  /** Reading the written log gives back every alert's line, in order, and
      blank pieces between them: the pieces the archive numbers are the
      alerts. */
  lemma ArchiveReadsWrittenLog(es: seq<ArchivedAlert>)
    requires forall k :: 0 <= k < |es| ==> WellFormed(es[k])
    ensures Archive.LogLines(Written(es)) == if es == [] then [""] else Spaced(Lines(es))
    ensures Archive.NonEmptyLines(Archive.LogLines(Written(es))) == Lines(es)
  {
    var ls := Lines(es);
    LinesReadable(es);
    if es == [] {
      assert TrimPhp([]) == [];
      assert Archive.NonEmptyLines([""]) == Archive.NonEmptyLines([]);
    } else {
      LinesBounded(es);
      TrimmedWritten(es);
      SplitBody(ls);
      NonEmptyOfSpaced(ls);
    }
  }

  // ------------------------------------------------------- the receipt stamp

  /** Only the marker's first character is an opening parenthesis. */
  lemma MarkerInnerChars(k: nat)
    requires 1 <= k < |Archive.RECEIVED_OPEN|
    ensures Archive.RECEIVED_OPEN[k] != '('
  {
  }

  /** An occurrence that ends inside the prefix is an occurrence in it. */
  lemma OccursInPrefix(s: String, t: String, p: String, j: nat)
    requires j + |p| <= |s| && OccursAt(s + t, p, j)
    ensures OccursAt(s, p, j)
  {
    assert (s + t)[j..j + |p|] == s[j..j + |p|];
  }

  lemma NoEarlierMarker(pre: String, ts: String, j: nat)
    requires !Contains(pre, Archive.RECEIVED_OPEN) && j < |pre|
    ensures !OccursAt(pre + (Archive.RECEIVED_OPEN + ts + ")"), Archive.RECEIVED_OPEN, j)
  {
    var open := Archive.RECEIVED_OPEN;
    var line := pre + (open + ts + ")");
    if OccursAt(line, open, j) {
      if j + |open| <= |pre| {
        OccursInPrefix(pre, open + ts + ")", open, j);
        assert false;
      } else {
        MarkerInnerChars(|pre| - j);
        assert false;
      }
    }
  }

  /** A line ending in the marker, a stamp and ')' has a receipt match. */
  lemma MarkerFound(pre: String, ts: String)
    ensures OccursAt(pre + (Archive.RECEIVED_OPEN + ts + ")"), Archive.RECEIVED_OPEN, |pre|)
    ensures Archive.ExtractReceived(pre + (Archive.RECEIVED_OPEN + ts + ")")).Some?
  {
    var open := Archive.RECEIVED_OPEN;
    var line := pre + (open + ts + ")");
    assert line[|pre|..|pre| + |open|] == open;
    assert EndsWith(line, ")");
    assert OccursAt(line, open, |pre|);
    assert FindFrom(line, open, 0).Some?;
  }

  /** With no marker before it, the match is the written stamp. */
  lemma MarkerReadsBack(pre: String, ts: String)
    requires !Contains(pre, Archive.RECEIVED_OPEN)
    ensures Archive.ExtractReceived(pre + (Archive.RECEIVED_OPEN + ts + ")")) == Some(ts)
  {
    var open := Archive.RECEIVED_OPEN;
    var line := pre + (open + ts + ")");
    MarkerFound(pre, ts);
    var v := Archive.ExtractReceived(line).value;
    var q := |line| - |v| - 13;
    assert OccursAt(line, open, q) by {
      assert line[q..] == open + v + ")";
      assert line[q..q + |open|] == (open + v + ")")[..|open|];
    }
    if q < |pre| {
      NoEarlierMarker(pre, ts, q);
    }
    assert q == |pre|;
    assert open + v + ")" == open + ts + ")" by {
      assert line[q..] == open + v + ")";
      assert line[|pre|..] == open + ts + ")";
    }
    assert v == (open + v + ")")[|open|..|open| + |v|];
    assert ts == (open + ts + ")")[|open|..|open| + |ts|];
  }

  /** The archive's receipt pattern finds exactly the stamp that was written. */
  lemma ReceivedStampReadsBack(e: ArchivedAlert)
    requires WellFormed(e)
    ensures Archive.ExtractReceived(Line(e)) == Some(e.timestamp)
  {
    LineShape(e);
    assert Line(e) == Preamble(e) + (Archive.RECEIVED_OPEN + e.timestamp + ")");
    MarkerReadsBack(Preamble(e), e.timestamp);
  }


  /** The archive's fetch over the written log: it succeeds exactly when each
      alert's line parses, and then there is one record per alert, record k
      numbered k and stamped with what strtotime makes of alert k's stamp. */
  lemma FetchSeesEveryAlert(es: seq<ArchivedAlert>, strtotime: String -> Option<int>)
    requires forall k :: 0 <= k < |es| ==> WellFormed(es[k])
    ensures var r := Archive.ParseAll(Archive.NonEmptyLines(Archive.LogLines(Written(es))), Archive.AlertLineParser(strtotime));
            (r.Ok? <==> forall k :: 0 <= k < |es| ==> Archive.ParseLine(Line(es[k]), k, strtotime).Ok?)
            && (r.Ok? ==>
                  |r.value| == |es|
                  && forall k :: 0 <= k < |es| ==>
                       r.value[k].audioRecording == k && r.value[k].receivedAt == Archive.StampReading(es[k].timestamp, strtotime))
  {
    ArchiveReadsWrittenLog(es);
    ParseAlertLines(es, strtotime);
  }

  /** The fetch loop's parse of the alerts' lines. */
  lemma ParseAlertLines(es: seq<ArchivedAlert>, strtotime: String -> Option<int>)
    requires forall k :: 0 <= k < |es| ==> WellFormed(es[k])
    ensures var r := Archive.ParseAll(Lines(es), Archive.AlertLineParser(strtotime));
            (r.Ok? <==> forall k :: 0 <= k < |es| ==> Archive.ParseLine(Line(es[k]), k, strtotime).Ok?)
            && (r.Ok? ==>
                  |r.value| == |es|
                  && forall k :: 0 <= k < |es| ==>
                       r.value[k].audioRecording == k && r.value[k].receivedAt == Archive.StampReading(es[k].timestamp, strtotime))
  {
    var ls := Lines(es);
    var parse := Archive.AlertLineParser(strtotime);
    Archive.ParseAllOk(ls, parse);
    forall k | 0 <= k < |es| && Archive.ParseLine(Line(es[k]), k, strtotime).Ok?
      ensures Archive.ParseLine(Line(es[k]), k, strtotime).value.audioRecording == k
      ensures Archive.ParseLine(Line(es[k]), k, strtotime).value.receivedAt == Archive.StampReading(es[k].timestamp, strtotime)
    {
      RecordOfAlert(es[k], k, strtotime);
    }
  }

  /** One alert's record: numbered by its position and stamped with its own
      receipt time. */
  lemma RecordOfAlert(e: ArchivedAlert, k: nat, strtotime: String -> Option<int>)
    requires WellFormed(e) && Archive.ParseLine(Line(e), k, strtotime).Ok?
    ensures Archive.ParseLine(Line(e), k, strtotime).value.audioRecording == k
    ensures Archive.ParseLine(Line(e), k, strtotime).value.receivedAt == Archive.StampReading(e.timestamp, strtotime)
  {
    ReceivedStampReadsBack(e);
  }
}
