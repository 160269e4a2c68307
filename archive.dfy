/** The archive endpoint (web_server/archive.php): the HHMM duration code, the
    field extractors applied to each alert-log line, the fetch loop that
    numbers non-blank lines with the recording ordinal, and the recording
    index ordered by modification time. */
module Archive {
  import opened Wrappers
  import opened Text

  // ------------------------------------------------------------ hhmmToSeconds

  datatype HhmmError =
    | NotFourDigits  // "Input must be a 4-digit numeric string representing HHMM."
    | OutOfRange     // "Invalid HHMM format. Hours or minutes are out of range."

  /** A four-digit HHMM duration code in seconds; hours are not bounded, the
      minutes must be below 60. The source's checks for negative hours and
      minutes can never fire on a string of digits. */
  function HhmmToSeconds(s: String): (r: Result<nat, HhmmError>)
    ensures r.Ok? <==> |s| == 4 && AllDigits(s) && DigitsValue(s[2..]) < 60
    ensures !(|s| == 4 && AllDigits(s)) ==> r == Err(NotFourDigits)
    ensures r.Ok? ==> r.value < 100 * 3600 && r.value % 60 == 0
  {
    if |s| != 4 || !AllDigits(s) then Err(NotFourDigits)
    else
      var hours := DigitsValue(s[..2]);
      var minutes := DigitsValue(s[2..]);
      if minutes >= 60 then Err(OutOfRange)
      else
        TwoDigitsBelow100(s[..2]);
        Ok(hours * 3600 + minutes * 60)
  }

  /** The inverse of HhmmToSeconds: the code for a whole number of minutes
      below one hundred hours. */
  function FormatHhmm(t: nat): (s: String)
    requires t < 100 * 3600 && t % 60 == 0
    ensures |s| == 4 && AllDigits(s)
  {
    TwoDigits(t / 3600) + TwoDigits((t % 3600) / 60)
  }

  /** Every whole number of minutes below 100 hours has a code that reads back as it. */
  lemma HhmmOfFormat(t: nat)
    requires t < 100 * 3600 && t % 60 == 0
    ensures HhmmToSeconds(FormatHhmm(t)) == Ok(t)
  {
    var s := FormatHhmm(t);
    assert s[..2] == TwoDigits(t / 3600) && s[2..] == TwoDigits((t % 3600) / 60);
    TwoDigitsValue(t / 3600);
    TwoDigitsValue((t % 3600) / 60);
  }

  /** Every accepted code is the code of its value: the parse loses nothing. */
  lemma FormatOfHhmm(s: String)
    requires HhmmToSeconds(s).Ok?
    ensures FormatHhmm(HhmmToSeconds(s).value) == s
  {
    var h, m := DigitsValue(s[..2]), DigitsValue(s[2..]);
    TwoDigitsOfValue(s[..2]);
    TwoDigitsOfValue(s[2..]);
    var t := h * 3600 + m * 60;
    assert HhmmToSeconds(s).value == t;
    assert t / 3600 == h && (t % 3600) / 60 == m;
    assert FormatHhmm(t) == TwoDigits(h) + TwoDigits(m);
    assert s == s[..2] + s[2..];
  }

  lemma HhmmExamples()
    ensures HhmmToSeconds("0130") == Ok(5400)
    ensures HhmmToSeconds("0061") == Err(OutOfRange)
    ensures HhmmToSeconds("abcd") == Err(NotFourDigits)
    ensures HhmmToSeconds("130") == Err(NotFourDigits)
  {
    assert "0130"[..2] == "01" && "0130"[2..] == "30";
    TwoDigitsDecimal("01");
    TwoDigitsDecimal("30");
    assert "0061"[..2] == "00" && "0061"[2..] == "61";
    TwoDigitsDecimal("61");
    assert !IsDigit("abcd"[0]);
  }

  // ---------------------------------------------------------- the record line

  /** PHP's empty() on a string: true for "" and for "0". */
  predicate PhpEmpty(s: String) { s == "" || s == "0" }

  /** What strtotime made of the receipt stamp: no stamp (null), a stamp it
      could not parse (false), or a Unix time. */
  datatype Received = NoStamp | Unparsed | At(seconds: int)

  /** PHP arithmetic on the stamp: null and false count as 0. */
  function ReceivedSeconds(r: Received): int {
    if r.At? then r.seconds else 0
  }

  datatype AlertRecord = AlertRecord(
    receivedAt: Received,
    expiredAt: int,
    eventCode: Option<String>,
    eventText: Option<String>,
    originator: Option<String>,
    locations: Option<String>,
    alertSeverity: String,
    length: String,
    easText: Option<String>,
    audioRecording: nat)

  datatype FetchError =
    | MissingLength              // null passed to hhmmToSeconds(string): a TypeError
    | InvalidLength(code: String) // InvalidArgumentException from hhmmToSeconds

  const RECEIVED_OPEN: String := "(Received @ "

  /** `/\(Received @ (.*?)\)$/`: the text between the first "(Received @ "
      and the closing parenthesis that ends the line. */
  function ExtractReceived(line: String): (r: Option<String>)
    ensures r.Some? <==> EndsWith(line, ")") && FindFrom(line, RECEIVED_OPEN, 0).Some?
    ensures r.Some? ==> EndsWith(line, RECEIVED_OPEN + r.value + ")")
    ensures r.Some? ==> forall j :: 0 <= j < |line| - |r.value| - 13 ==> !OccursAt(line, RECEIVED_OPEN, j)
  {
    if !EndsWith(line, ")") then None
    else match FindFrom(line, RECEIVED_OPEN, 0)
      case None => None
      case Some(p) =>
        assert line[p + 11] == ' ';
        assert p + 12 <= |line| - 1;
        var v := line[p + 12 .. |line| - 1];
        assert line[|line| - |v| - 13..] == line[p..p + 12] + v + ")";
        Some(v)
  }

  /** `+HHMM-`: four digits between a plus sign and a hyphen. */
  predicate LengthTokenAt(line: String, i: nat) {
    i + 6 <= |line| && line[i] == '+' && AllDigits(line[i + 1..i + 5]) && line[i + 5] == '-'
  }

  function FindLengthToken(line: String, from: nat): (r: Option<nat>)
    ensures r.Some? ==> from <= r.value && LengthTokenAt(line, r.value)
    ensures r.Some? ==> forall j :: from <= j < r.value ==> !LengthTokenAt(line, j)
    ensures r.None? ==> forall j :: from <= j ==> !LengthTokenAt(line, j)
    decreases |line| - from
  {
    if from + 6 > |line| then None
    else if LengthTokenAt(line, from) then Some(from)
    else FindLengthToken(line, from + 1)
  }

  /** `/\+(\d{4})-/`: the digits of the leftmost duration token. */
  function ExtractLength(line: String): (r: Option<String>)
    ensures r.Some? ==> |r.value| == 4 && AllDigits(r.value)
    ensures r.Some? ==> exists p: nat :: LengthTokenAt(line, p) && (forall j :: 0 <= j < p ==> !LengthTokenAt(line, j))
                                   && r.value == line[p + 1..p + 5]
    ensures r.None? <==> forall j :: 0 <= j ==> !LengthTokenAt(line, j)
  {
    match FindLengthToken(line, 0)
    case None => None
    case Some(p) => Some(line[p + 1..p + 5])
  }

  predicate AllUpper(s: String) { forall i :: 0 <= i < |s| ==> IsUpper(s[i]) }

  /** `ZCZC-[A-Z]{3}-([A-Z]{3})-` starting at `i`. */
  predicate EventCodeTokenAt(line: String, i: nat) {
    i + 13 <= |line| && line[i..i + 5] == "ZCZC-" && AllUpper(line[i + 5..i + 8])
    && line[i + 8] == '-' && AllUpper(line[i + 9..i + 12]) && line[i + 12] == '-'
  }

  function FindEventCodeToken(line: String, from: nat): (r: Option<nat>)
    ensures r.Some? ==> from <= r.value && EventCodeTokenAt(line, r.value)
    ensures r.Some? ==> forall j :: from <= j < r.value ==> !EventCodeTokenAt(line, j)
    ensures r.None? ==> forall j :: from <= j ==> !EventCodeTokenAt(line, j)
    decreases |line| - from
  {
    if from + 13 > |line| then None
    else if EventCodeTokenAt(line, from) then Some(from)
    else FindEventCodeToken(line, from + 1)
  }

  /** The three-letter event code of the leftmost `ZCZC-ORG-EEE-` token. */
  function ExtractEventCode(line: String): (r: Option<String>)
    ensures r.Some? ==> |r.value| == 3 && AllUpper(r.value)
    ensures r.Some? ==> exists p: nat :: EventCodeTokenAt(line, p) && (forall j :: 0 <= j < p ==> !EventCodeTokenAt(line, j))
                                   && r.value == line[p + 9..p + 12]
    ensures r.None? <==> forall j :: 0 <= j ==> !EventCodeTokenAt(line, j)
  {
    match FindEventCodeToken(line, 0)
    case None => None
    case Some(p) => Some(line[p + 9..p + 12])
  }

  /** `v` is what `open(.*?)close` captures when the leftmost `open` is at
      `p`: the text up to the first `close` after it. */
  ghost predicate CaptureAt(line: String, open: String, close: String, p: nat, v: String) {
    FirstAt(line, open, 0, p) && FirstAt(line, close, p + |open|, p + |open| + |v|)
    && p + |open| + |v| <= |line| && v == line[p + |open|..p + |open| + |v|]
  }

  /** `open(.*?)close` does not match: no `open`, or no `close` after the
      leftmost one (a later `open` has no `close` after it either). */
  ghost predicate NoCapture(line: String, open: String, close: String) {
    (forall p :: !OccursAt(line, open, p))
    || exists p: nat :: FirstAt(line, open, 0, p) && forall q :: p + |open| <= q ==> !OccursAt(line, close, q)
  }

  /** The leftmost `open` at `p` and the first `close` after it at `q`
      capture the text between them, which holds no `close`. */
  lemma CaptureBetween(line: String, open: String, close: String, p: nat, q: nat, v: String)
    requires |close| > 0 && FirstAt(line, open, 0, p) && FirstAt(line, close, p + |open|, q)
    requires v == line[p + |open|..q]
    ensures CaptureAt(line, open, close, p, v)
    ensures forall j :: 0 <= j ==> !OccursAt(v, close, j)
    ensures !NoCapture(line, open, close)
  {
    assert line[p + |open|..q + |close|] == v + close;
    forall j | 0 <= j && OccursAt(v, close, j) ensures false {
      OccursInSlice(line, p + |open|, q, close, j);
    }
    forall p': nat | FirstAt(line, open, 0, p') ensures OccursAt(line, close, q) && p' + |open| <= q {
      FirstAtUnique(line, open, 0, p, p');
    }
  }

  /** `open(.*?)close`: the shortest text after the leftmost `open` that is
      followed by `close`. */
  function LazyCapture(line: String, open: String, close: String): (r: Option<String>)
    requires |close| > 0
    ensures r.Some? ==> exists p: nat :: CaptureAt(line, open, close, p, r.value)
    ensures r.Some? ==> forall j :: 0 <= j ==> !OccursAt(r.value, close, j)
    ensures r.None? <==> NoCapture(line, open, close)
  {
    match FindFrom(line, open, 0)
    case None => None
    case Some(p) =>
      assert FirstAt(line, open, 0, p);
      match FindFrom(line, close, p + |open|)
      case None =>
        assert forall q :: p + |open| <= q ==> !OccursAt(line, close, q);
        None
      case Some(q) =>
        var v := line[p + |open|..q];
        CaptureBetween(line, open, close, p, q, v);
        Some(v)
  }

  /** `explode($sep, $m)[0]`: the text before the first separator. */
  function FirstPiece(m: String, sep: String): String {
    match FindFrom(m, sep, 0)
    case None => m
    case Some(k) => m[..k]
  }

  /** A text free of " for" is its own first piece around " for ". */
  lemma FirstPieceOfLazyCapture(m: String)
    requires forall j :: 0 <= j ==> !OccursAt(m, " for", j)
    ensures FirstPiece(m, " for ") == m
  {
    forall j | 0 <= j && OccursAt(m, " for ", j) ensures false {
      assert m[j..j + 4] == m[j..j + 5][..4];
      assert OccursAt(m, " for", j);
    }
  }

  /** `/has issued a (.*?) for/` followed by `explode(" for ", ...)[0]`. */
  function ExtractEventText(line: String): (r: Option<String>)
    ensures r == LazyCapture(line, "has issued a ", " for")
  {
    match LazyCapture(line, "has issued a ", " for")
    case None => None
    case Some(m) => FirstPieceOfLazyCapture(m); Some(FirstPiece(m, " for "))
  }

  /** The first '.' or ';' at or after `from`. */
  function FindStop(s: String, from: nat): (r: Option<nat>)
    ensures r.Some? ==> from <= r.value < |s| && s[r.value] in ".;"
    ensures r.Some? ==> forall j :: from <= j < r.value ==> s[j] !in ".;"
    ensures r.None? ==> forall j :: from <= j < |s| ==> s[j] !in ".;"
    decreases |s| - from
  {
    if from >= |s| then None
    else if s[from] in ".;" then Some(from)
    else FindStop(s, from + 1)
  }

  const ORIGINATOR_OPEN: String := "Message from "

  /** `/Message from (.*?)[.;]/`: the text after the leftmost "Message from "
      up to the first full stop or semicolon after it. */
  function ExtractOriginator(line: String): (r: Option<String>)
    ensures r.Some? ==> '.' !in r.value && ';' !in r.value
    ensures r.Some? ==> exists p: nat :: FirstAt(line, ORIGINATOR_OPEN, 0, p) && p + 13 + |r.value| < |line|
                                   && r.value == line[p + 13..p + 13 + |r.value|] && line[p + 13 + |r.value|] in ".;"
    ensures r.None? <==> (forall p :: !OccursAt(line, ORIGINATOR_OPEN, p))
                         || exists p: nat :: FirstAt(line, ORIGINATOR_OPEN, 0, p) && forall q :: p + 13 <= q < |line| ==> line[q] !in ".;"
  {
    match FindFrom(line, ORIGINATOR_OPEN, 0)
    case None => None
    case Some(p) =>
      assert FirstAt(line, ORIGINATOR_OPEN, 0, p);
      match FindStop(line, p + 13)
      case None => None
      case Some(q) =>
        var v := line[p + 13..q];
        assert forall i :: 0 <= i < |v| ==> v[i] == line[p + 13 + i];
        assert !OccursAt(line, ORIGINATOR_OPEN, |line|);
        forall p': nat | FirstAt(line, ORIGINATOR_OPEN, 0, p') ensures p' == p {
          FirstAtUnique(line, ORIGINATOR_OPEN, 0, p, p');
        }
        Some(v)
  }

  /** `/for (.*?); beginning/`: the affected areas. */
  function ExtractLocations(line: String): (r: Option<String>)
    ensures r.Some? ==> exists p: nat :: CaptureAt(line, "for ", "; beginning", p, r.value)
    ensures r.None? <==> NoCapture(line, "for ", "; beginning")
  {
    LazyCapture(line, "for ", "; beginning")
  }

  const NARRATIVE_OPEN: String := "-: "
  const NARRATIVE_CLOSE: String := ". ("

  /** `/-: (.*\.) \(/`: greedy, so the narrative runs from the leftmost "-: "
      to the full stop of the last ". (" after it. */
  function ExtractEasText(line: String): (r: Option<String>)
    ensures r.Some? ==> |r.value| >= 1 && r.value[|r.value| - 1] == '.'
    ensures r.Some? ==> exists p: nat :: FirstAt(line, NARRATIVE_OPEN, 0, p) && LastAt(line, NARRATIVE_CLOSE, p + 3, p + 2 + |r.value|)
                                   && r.value == line[p + 3..p + 3 + |r.value|]
    ensures r.None? <==> (forall p :: !OccursAt(line, NARRATIVE_OPEN, p))
                         || exists p: nat :: FirstAt(line, NARRATIVE_OPEN, 0, p) && forall q :: p + 3 <= q ==> !OccursAt(line, NARRATIVE_CLOSE, q)
  {
    match FindFrom(line, NARRATIVE_OPEN, 0)
    case None => None
    case Some(p) =>
      assert FirstAt(line, NARRATIVE_OPEN, 0, p);
      match FindLastFrom(line, NARRATIVE_CLOSE, p + 3)
      case None => None
      case Some(q) =>
        var v := line[p + 3..q + 1];
        assert line[q] == line[q..q + 3][0];
        assert LastAt(line, NARRATIVE_CLOSE, p + 3, p + 2 + |v|);
        forall p': nat | FirstAt(line, NARRATIVE_OPEN, 0, p') ensures p' == p {
          FirstAtUnique(line, NARRATIVE_OPEN, 0, p, p');
        }
        Some(v)
  }

  // ------------------------------------------------------------------ severity

  /** The end of the run of non-capitals that starts at `i`. */
  function NextCapital(s: String, i: nat): (k: nat)
    requires i <= |s|
    ensures i <= k <= |s|
    ensures k < |s| ==> IsUpper(s[k])
    ensures forall j :: i <= j < k ==> !IsUpper(s[j])
    decreases |s| - i
  {
    if i == |s| || IsUpper(s[i]) then i else NextCapital(s, i + 1)
  }

  /** `preg_split('/(?=[A-Z])/', s, -1, PREG_SPLIT_NO_EMPTY)`: cut before every
      capital letter and drop the empty pieces. */
  function CapitalWords(s: String): (w: seq<String>)
    ensures forall k :: 0 <= k < |w| ==> w[k] != []
    ensures Concat(w) == s
    ensures s != [] ==> w != [] && w[0][0] == s[0]
    ensures forall k :: 1 <= k < |w| ==> IsUpper(w[k][0])
    ensures forall k, j :: 0 <= k < |w| && 1 <= j < |w[k]| ==> !IsUpper(w[k][j])
    decreases |s|
  {
    if s == [] then []
    else
      var k := NextCapital(s, 1);
      var rest := CapitalWords(s[k..]);
      var first := s[..k];
      assert first + s[k..] == s;
      assert forall j :: 1 <= j < |first| ==> !IsUpper(first[j]);
      var w := [first] + rest;
      assert w[0] == first && w[1..] == rest;
      assert Concat(w) == first + Concat(rest);
      w
  }

  /** PHP truthiness, the test on word 2: only "" and "0" are false. */
  predicate PhpTruthy(s: String) { !PhpEmpty(s) }

  /** Word 2 of the capital split, lower-cased, or else word 1; a missing
      word reads as null, which strtolower turns into "". */
  function AlertSeverity(eventText: Option<String>): (r: String)
    ensures eventText.None? ==> r == ""
    ensures eventText.Some? && |CapitalWords(eventText.value)| <= 1 ==> r == ""
    ensures forall k :: 0 <= k < |r| ==> !IsUpper(r[k])
  {
    var words := if eventText.Some? then CapitalWords(eventText.value) else [];
    if |words| > 2 && PhpTruthy(words[2]) then ToLower(words[2])
    else if |words| > 1 then ToLower(words[1])
    else ""
  }

  /** The truthiness test never rejects a word that exists: every word after
      the first starts with a capital. */
  lemma SeverityIsThirdWordWhenPresent(text: String)
    ensures var w := CapitalWords(text);
            AlertSeverity(Some(text)) == if |w| > 2 then ToLower(w[2]) else if |w| > 1 then ToLower(w[1]) else ""
  {
    var w := CapitalWords(text);
    if |w| > 2 {
      assert IsUpper(w[2][0]);
      assert w[2] != "0";
    }
  }

  /** A word with a capital only at its head is one piece of the split. */
  lemma CapitalWordsCons(word: String, rest: String)
    requires word != [] && (rest == [] || IsUpper(rest[0]))
    requires forall j :: 1 <= j < |word| ==> !IsUpper(word[j])
    ensures CapitalWords(word + rest) == [word] + CapitalWords(rest)
  {
    var s := word + rest;
    NextCapitalIs(s, 1, |word|);
    assert s[..|word|] == word && s[|word|..] == rest;
  }

  lemma {:induction false} NextCapitalIs(s: String, i: nat, k: nat)
    requires i <= k <= |s|
    requires k == |s| || IsUpper(s[k])
    requires forall j :: i <= j < k ==> !IsUpper(s[j])
    ensures NextCapital(s, i) == k
    decreases k - i
  {
    if i < k {
      NextCapitalIs(s, i + 1, k);
    }
  }

  lemma CapitalWordsExample()
    ensures CapitalWords("Severe " + "Thunderstorm " + "Warning") == ["Severe ", "Thunderstorm ", "Warning"]
  {
    CapitalWordsCons("Warning", "");
    assert "Warning" + "" == "Warning";
    CapitalWordsCons("Thunderstorm ", "Warning");
    CapitalWordsCons("Severe ", "Thunderstorm " + "Warning");
    assert "Severe " + "Thunderstorm " + "Warning" == "Severe " + ("Thunderstorm " + "Warning");
  }

  lemma LowerWarning()
    ensures ToLower("Warning") == "warning"
  {
  }

  lemma SeverityExample()
    ensures AlertSeverity(Some("Severe " + "Thunderstorm " + "Warning")) == "warning"
  {
    CapitalWordsExample();
    LowerWarning();
  }

  // ------------------------------------------------------------ one alert line

  /** What strtotime makes of a receipt stamp that was found. */
  function StampReading(stamp: String, strtotime: String -> Option<int>): (r: Received)
    ensures r.Unparsed? <==> strtotime(stamp).None?
    ensures r.At? ==> strtotime(stamp) == Some(r.seconds)
    ensures !r.NoStamp?
  {
    match strtotime(stamp)
    case None => Unparsed
    case Some(t) => At(t)
  }

  /** The receipt time of a line: no stamp when the line has none. */
  function ReceivedOf(line: String, strtotime: String -> Option<int>): (r: Received)
    ensures r.NoStamp? <==> ExtractReceived(line).None?
    ensures r.Unparsed? <==> ExtractReceived(line).Some? && strtotime(ExtractReceived(line).value).None?
    ensures r.At? ==> ExtractReceived(line).Some? && strtotime(ExtractReceived(line).value) == Some(r.seconds)
  {
    match ExtractReceived(line)
    case None => NoStamp
    case Some(stamp) => StampReading(stamp, strtotime)
  }

  /** The body of the fetch loop for a non-blank line: every extractor, the
      duration and the expiry, with the given recording ordinal. */
  function ParseLine(line: String, ordinal: nat, strtotime: String -> Option<int>): (r: Result<AlertRecord, FetchError>)
    ensures ExtractLength(line).None? ==> r == Err(MissingLength)
    ensures ExtractLength(line).Some? && HhmmToSeconds(ExtractLength(line).value).Err? ==> r == Err(InvalidLength(ExtractLength(line).value))
    ensures r.Ok? <==> ExtractLength(line).Some? && HhmmToSeconds(ExtractLength(line).value).Ok?
    ensures r.Ok? ==> r.value.audioRecording == ordinal
    ensures r.Ok? ==> ExtractLength(line) == Some(r.value.length) && HhmmToSeconds(r.value.length).Ok?
    ensures r.Ok? ==> r.value.receivedAt == ReceivedOf(line, strtotime)
    ensures r.Ok? ==> r.value.expiredAt == ReceivedSeconds(r.value.receivedAt) + HhmmToSeconds(r.value.length).value
    ensures r.Ok? ==> r.value.eventCode == ExtractEventCode(line) && r.value.eventText == ExtractEventText(line)
    ensures r.Ok? ==> r.value.originator == ExtractOriginator(line) && r.value.locations == ExtractLocations(line)
    ensures r.Ok? ==> r.value.alertSeverity == AlertSeverity(r.value.eventText)
    ensures r.Ok? ==> r.value.easText == ExtractEasText(line)
  {
    var received := ReceivedOf(line, strtotime);
    match ExtractLength(line)
    case None => Err(MissingLength)
    case Some(length) =>
      match HhmmToSeconds(length)
      case Err(_) => Err(InvalidLength(length))
      case Ok(secs) =>
        var eventText := ExtractEventText(line);
        Ok(AlertRecord(
          received,
          ReceivedSeconds(received) + secs,
          ExtractEventCode(line),
          eventText,
          ExtractOriginator(line),
          ExtractLocations(line),
          AlertSeverity(eventText),
          length,
          ExtractEasText(line),
          ordinal))
  }

  // --------------------------------------------------------------- fetch loop

  /** The lines that produce a record, in order. */
  function NonEmptyLines(lines: seq<String>): (ne: seq<String>)
    ensures |ne| <= |lines|
    ensures forall k :: 0 <= k < |ne| ==> !PhpEmpty(ne[k])
  {
    if lines == [] then []
    else
      var init := NonEmptyLines(lines[..|lines| - 1]);
      if PhpEmpty(lines[|lines| - 1]) then init else init + [lines[|lines| - 1]]
  }

  /** The number of lines skipped as empty. */
  function CountEmpty(lines: seq<String>): nat {
    if lines == [] then 0
    else CountEmpty(lines[..|lines| - 1]) + (if PhpEmpty(lines[|lines| - 1]) then 1 else 0)
  }

  /** Every line is either skipped or numbered. */
  lemma {:induction false} LinesSplitIntoEmptyAndNumbered(lines: seq<String>)
    ensures |NonEmptyLines(lines)| + CountEmpty(lines) == |lines|
  {
    if lines != [] {
      LinesSplitIntoEmptyAndNumbered(lines[..|lines| - 1]);
    }
  }

  lemma NumberingStep(lines: seq<String>, n: nat)
    requires n < |lines|
    ensures NonEmptyLines(lines[..n + 1])
            == if PhpEmpty(lines[n]) then NonEmptyLines(lines[..n]) else NonEmptyLines(lines[..n]) + [lines[n]]
    ensures CountEmpty(lines[..n + 1]) == CountEmpty(lines[..n]) + if PhpEmpty(lines[n]) then 1 else 0
  {
    assert lines[..n + 1][..n] == lines[..n];
  }

  lemma {:induction false} NonEmptyLinesPrefix(lines: seq<String>, n: nat)
    requires n <= |lines|
    ensures NonEmptyLines(lines[..n]) <= NonEmptyLines(lines)
    decreases |lines| - n
  {
    if n < |lines| {
      NonEmptyLinesPrefix(lines, n + 1);
      assert lines[..n + 1][..n] == lines[..n];
    } else {
      assert lines[..n] == lines;
    }
  }

  /** The raw log as the source reads it: trimmed, then exploded on newlines. */
  function LogLines(raw: String): seq<String> {
    Split(TrimPhp(raw), '\n')
  }

  /** A parser for one numbered line. */
  type LineParser = (String, nat) -> Result<AlertRecord, FetchError>

  /** The fetch loop's parser: ParseLine with the given strtotime. */
  function AlertLineParser(strtotime: String -> Option<int>): LineParser {
    (line: String, ordinal: nat) => ParseLine(line, ordinal, strtotime)
  }

  /** The records of the numbered lines, line k getting ordinal k, or the
      error of the first line that fails. */
  function ParseAll(lines: seq<String>, parse: LineParser): (r: Result<seq<AlertRecord>, FetchError>)
    ensures r.Ok? ==> |r.value| == |lines|
  {
    if lines == [] then Ok([])
    else
      match ParseAll(lines[..|lines| - 1], parse)
      case Err(e) => Err(e)
      case Ok(rs) =>
        match parse(lines[|lines| - 1], |lines| - 1)
        case Err(e) => Err(e)
        case Ok(x) => Ok(rs + [x])
  }

  /** A failure in a prefix is the failure of the whole fetch. */
  lemma {:induction false} ParseAllErrPrefix(lines: seq<String>, n: nat, parse: LineParser)
    requires n <= |lines| && ParseAll(lines[..n], parse).Err?
    ensures ParseAll(lines, parse) == ParseAll(lines[..n], parse)
    decreases |lines| - n
  {
    if n < |lines| {
      assert lines[..n + 1][..n] == lines[..n];
      ParseAllErrPrefix(lines, n + 1, parse);
    } else {
      assert lines[..n] == lines;
    }
  }

  lemma ParseAllStep(lines: seq<String>, n: nat, parse: LineParser)
    requires n < |lines|
    ensures ParseAll(lines[..n + 1], parse)
            == match ParseAll(lines[..n], parse)
               case Err(e) => Err(e)
               case Ok(rs) => (match parse(lines[n], n) case Err(e) => Err(e) case Ok(x) => Ok(rs + [x]))
  {
    assert lines[..n + 1][..n] == lines[..n];
  }

  /** The fetch succeeds exactly when every numbered line parses, and then
      record k is the parse of line k with ordinal k. */
  lemma {:induction false} ParseAllOk(lines: seq<String>, parse: LineParser)
    ensures ParseAll(lines, parse).Ok? <==> forall k :: 0 <= k < |lines| ==> parse(lines[k], k).Ok?
    ensures ParseAll(lines, parse).Ok? ==>
              forall k :: 0 <= k < |lines| ==> ParseAll(lines, parse).value[k] == parse(lines[k], k).value
  {
    if lines != [] {
      var n := |lines| - 1;
      var init := lines[..n];
      ParseAllOk(init, parse);
      assert forall k :: 0 <= k < n ==> init[k] == lines[k];
      var pi, pl := ParseAll(init, parse), parse(lines[n], n);
      if pi.Ok? && pl.Ok? {
        assert ParseAll(lines, parse) == Ok(pi.value + [pl.value]);
      } else {
        assert ParseAll(lines, parse).Err?;
        if pi.Err? {
          var k :| 0 <= k < n && !parse(init[k], k).Ok?;
          assert !parse(lines[k], k).Ok?;
        }
      }
    }
  }

  /** A failed fetch reports the error of the first line that does not parse. */
  lemma {:induction false} ParseAllErr(lines: seq<String>, parse: LineParser)
    requires ParseAll(lines, parse).Err?
    ensures exists k :: 0 <= k < |lines| && parse(lines[k], k) == Err(ParseAll(lines, parse).error)
                        && forall j :: 0 <= j < k ==> parse(lines[j], j).Ok?
  {
    var init := lines[..|lines| - 1];
    assert forall k :: 0 <= k < |init| ==> init[k] == lines[k];
    if ParseAll(init, parse).Err? {
      ParseAllErr(init, parse);
      var k :| 0 <= k < |init| && parse(init[k], k) == Err(ParseAll(init, parse).error)
                && forall j :: 0 <= j < k ==> parse(init[j], j).Ok?;
      assert parse(lines[k], k) == Err(ParseAll(lines, parse).error);
    } else {
      ParseAllOk(init, parse);
      var k := |lines| - 1;
      assert parse(lines[k], k) == Err(ParseAll(lines, parse).error);
    }
  }

  /** The fetch_alerts loop over the exploded log. Each non-empty line is
      parsed with ordinal `idx - idx_offset`, where `idx_offset` counts the
      empty lines seen; the first line that fails aborts the whole fetch. */
  method FetchLoop(alerts: seq<String>, parse: LineParser) returns (r: Result<seq<AlertRecord>, FetchError>)
    ensures r == ParseAll(NonEmptyLines(alerts), parse)
  {
    ghost var ne := NonEmptyLines(alerts);
    var alertdata: seq<AlertRecord> := [];
    var idxOffset: nat := 0;
    var idx := 0;
    while idx < |alerts|
      invariant 0 <= idx <= |alerts|
      invariant idxOffset == CountEmpty(alerts[..idx])
      invariant |alertdata| == |NonEmptyLines(alerts[..idx])| == idx - idxOffset
      invariant NonEmptyLines(alerts[..idx]) <= ne
      invariant ParseAll(ne[..|alertdata|], parse) == Ok(alertdata)
    {
      var alert := alerts[idx];
      ghost var seen := NonEmptyLines(alerts[..idx]);
      ghost var seen' := NonEmptyLines(alerts[..idx + 1]);
      assert seen' <= ne by { NonEmptyLinesPrefix(alerts, idx + 1); }
      if PhpEmpty(alert) {
        assert seen' == seen && CountEmpty(alerts[..idx + 1]) == idxOffset + 1 by {
          NumberingStep(alerts, idx);
        }
        idxOffset := idxOffset + 1;
        idx := idx + 1;
        continue;
      }
      assert seen' == seen + [alert] && CountEmpty(alerts[..idx + 1]) == idxOffset by {
        NumberingStep(alerts, idx);
      }
      assert ne[|alertdata|] == alert;
      var rec := parse(alert, idx - idxOffset);
      ghost var n := |alertdata|;
      assert ParseAll(ne[..n + 1], parse) == if rec.Err? then Err(rec.error) else Ok(alertdata + [rec.value]) by {
        ParseAllStep(ne, n, parse);
      }
      if rec.Err? {
        ParseAllErrPrefix(ne, n + 1, parse);
        return Err(rec.error);
      }
      alertdata := alertdata + [rec.value];
      idx := idx + 1;
    }
    assert alerts[..idx] == alerts;
    assert ne[..|alertdata|] == ne;
    return Ok(alertdata);
  }

  /** fetch_alerts: trim the log, explode it on newlines, run the loop with ParseLine. */
  method FetchAlerts(raw: String, strtotime: String -> Option<int>) returns (r: Result<seq<AlertRecord>, FetchError>)
    ensures r == ParseAll(NonEmptyLines(LogLines(raw)), AlertLineParser(strtotime))
  {
    r := FetchLoop(LogLines(raw), AlertLineParser(strtotime));
  }

  /** What the fetch promises, for the parser it uses: it succeeds exactly when
      every non-blank line parses with its ordinal, and then record k is line k. */
  lemma FetchAlertsMeaning(raw: String, strtotime: String -> Option<int>)
    ensures var ne := NonEmptyLines(LogLines(raw));
            var r := ParseAll(ne, AlertLineParser(strtotime));
            (r.Ok? <==> forall k :: 0 <= k < |ne| ==> ParseLine(ne[k], k, strtotime).Ok?)
            && (r.Ok? ==> forall k :: 0 <= k < |ne| ==> r.value[k] == ParseLine(ne[k], k, strtotime).value
                                                        && r.value[k].audioRecording == k)
  {
    ParseAllOk(NonEmptyLines(LogLines(raw)), AlertLineParser(strtotime));
  }

  // ----------------------------------------------------------- recording index

  /** An `EAS_Recording_*.wav` file and its modification time. */
  datatype RecordingFile = RecordingFile(path: String, mtime: int)

  predicate SortedByMtime(s: seq<RecordingFile>) {
    forall i, j :: 0 <= i < j < |s| ==> s[i].mtime <= s[j].mtime
  }

  /** Stable insertion: `f` goes after every file no newer than it. */
  function InsertByMtime(s: seq<RecordingFile>, f: RecordingFile): (r: seq<RecordingFile>)
    ensures |r| == |s| + 1
  {
    if s == [] || s[|s| - 1].mtime <= f.mtime then s + [f]
    else InsertByMtime(s[..|s| - 1], f) + [s[|s| - 1]]
  }

  /** usort with `filemtime($a) - filemtime($b)`: PHP 8 sorts stably, so files
      with equal times keep the order glob listed them in. */
  function SortByMtime(files: seq<RecordingFile>): (r: seq<RecordingFile>)
    ensures |r| == |files|
  {
    if files == [] then []
    else InsertByMtime(SortByMtime(files[..|files| - 1]), files[|files| - 1])
  }

  lemma {:induction false} InsertByMtimePermutes(s: seq<RecordingFile>, f: RecordingFile)
    ensures multiset(InsertByMtime(s, f)) == multiset(s) + multiset{f}
  {
    if !(s == [] || s[|s| - 1].mtime <= f.mtime) {
      var init := s[..|s| - 1];
      assert s == init + [s[|s| - 1]];
      InsertByMtimePermutes(init, f);
    }
  }

  /** Sorting only reorders the listing. */
  lemma {:induction false} SortByMtimePermutes(files: seq<RecordingFile>)
    ensures multiset(SortByMtime(files)) == multiset(files)
  {
    if files != [] {
      var init := files[..|files| - 1];
      assert files == init + [files[|files| - 1]];
      SortByMtimePermutes(init);
      InsertByMtimePermutes(SortByMtime(init), files[|files| - 1]);
    }
  }

  lemma {:induction false} InsertKeepsSorted(s: seq<RecordingFile>, f: RecordingFile)
    requires SortedByMtime(s)
    ensures SortedByMtime(InsertByMtime(s, f))
  {
    if !(s == [] || s[|s| - 1].mtime <= f.mtime) {
      var init := s[..|s| - 1];
      InsertKeepsSorted(init, f);
      InsertByMtimePermutes(init, f);
      var r := InsertByMtime(init, f);
      forall i | 0 <= i < |r| ensures r[i].mtime <= s[|s| - 1].mtime {
        assert r[i] in multiset(r);
        if r[i] != f {
          assert r[i] in multiset(init);
          var k :| 0 <= k < |init| && init[k] == r[i];
          assert s[k] == r[i];
        }
      }
    }
  }

  /** The sorted listing is ordered oldest first. */
  lemma {:induction false} SortByMtimeSorted(files: seq<RecordingFile>)
    ensures SortedByMtime(SortByMtime(files))
  {
    if files != [] {
      SortByMtimeSorted(files[..|files| - 1]);
      InsertKeepsSorted(SortByMtime(files[..|files| - 1]), files[|files| - 1]);
    }
  }

  /** Files with equal times keep their listing order: sorting a listing whose
      files all share one time changes nothing. */
  lemma {:induction false} SortByMtimeStableOnTies(files: seq<RecordingFile>, t: int)
    requires forall k :: 0 <= k < |files| ==> files[k].mtime == t
    ensures SortByMtime(files) == files
  {
    if files != [] {
      var init := files[..|files| - 1];
      SortByMtimeStableOnTies(init, t);
      assert init + [files[|files| - 1]] == files;
    }
  }

  /** The files of a listing that have modification time `t`, in listing order. */
  function WithMtime(s: seq<RecordingFile>, t: int): seq<RecordingFile> {
    if s == [] then []
    else WithMtime(s[..|s| - 1], t) + (if s[|s| - 1].mtime == t then [s[|s| - 1]] else [])
  }

  lemma WithMtimeSnoc(s: seq<RecordingFile>, x: RecordingFile, t: int)
    ensures WithMtime(s + [x], t) == WithMtime(s, t) + (if x.mtime == t then [x] else [])
  {
    assert (s + [x])[..|s|] == s;
  }

  /** Inserting `f` puts it after every file of the same time already there. */
  lemma {:induction false} InsertByMtimeTies(s: seq<RecordingFile>, f: RecordingFile, t: int)
    ensures WithMtime(InsertByMtime(s, f), t) == WithMtime(s, t) + (if f.mtime == t then [f] else [])
  {
    if s == [] || s[|s| - 1].mtime <= f.mtime {
      WithMtimeSnoc(s, f, t);
    } else {
      var init, last := s[..|s| - 1], s[|s| - 1];
      InsertByMtimeTies(init, f, t);
      WithMtimeSnoc(InsertByMtime(init, f), last, t);
    }
  }

  /** usort is stable: for every time, the files with that time come out of
      the sort in the order glob listed them. */
  lemma {:induction false} SortByMtimeStable(files: seq<RecordingFile>, t: int)
    ensures WithMtime(SortByMtime(files), t) == WithMtime(files, t)
  {
    if files != [] {
      var init, last := files[..|files| - 1], files[|files| - 1];
      SortByMtimeStable(init, t);
      InsertByMtimeTies(SortByMtime(init), last, t);
    }
  }

  lemma SortStep(orig: seq<RecordingFile>, i: nat)
    requires i < |orig|
    ensures SortByMtime(orig[..i + 1]) == InsertByMtime(SortByMtime(orig[..i]), orig[i])
  {
    assert orig[..i + 1][..i] == orig[..i];
  }

  /** `f` goes right after the last file that is not newer than it, with
      every newer file after it. */
  lemma {:induction false} InsertPlace(s: seq<RecordingFile>, j: nat, f: RecordingFile)
    requires j <= |s|
    requires j == 0 || s[j - 1].mtime <= f.mtime
    requires forall k :: j <= k < |s| ==> s[k].mtime > f.mtime
    ensures InsertByMtime(s, f) == s[..j] + [f] + s[j..]
    decreases |s|
  {
    if |s| == j {
      assert s[..j] == s && s[j..] == [];
    } else {
      var s' := s[..|s| - 1];
      InsertPlace(s', j, f);
      assert s'[..j] == s[..j];
      assert s'[j..] + [s[|s| - 1]] == s[j..];
    }
  }

  lemma InsertedLayout(b: seq<RecordingFile>, sorted: seq<RecordingFile>, j: nat, x: RecordingFile)
    requires j <= |sorted| && |b| == |sorted| + 1
    requires forall k :: 0 <= k < j ==> b[k] == sorted[k]
    requires b[j] == x
    requires forall k :: j < k < |b| ==> b[k] == sorted[k - 1]
    ensures b == sorted[..j] + [x] + sorted[j..]
  {
    var c := sorted[..j] + [x] + sorted[j..];
    forall k | 0 <= k < |b| ensures b[k] == c[k] {
      if k > j {
        assert c[k] == sorted[j..][k - j - 1];
      }
    }
  }

  /** One pass of the insertion sort: a[i] moves down past every newer file
      of the sorted prefix a[..i]. */
  method InsertIntoPrefix(a: array<RecordingFile>, i: nat)
    requires i < a.Length
    modifies a
    ensures a[..i + 1] == InsertByMtime(old(a[..i]), old(a[i]))
    ensures forall k :: i < k < a.Length ==> a[k] == old(a[k])
  {
    ghost var sorted := a[..i];
    var x := a[i];
    var j := ShiftNewer(a, i, x, sorted);
    InsertPlace(sorted, j, x);
    a[j] := x;
    InsertedLayout(a[..i + 1], sorted, j, x);
  }

  /** The files of the sorted prefix a[..i] newer than `x` each move up one
      slot, from the back; the result is the slot left free for `x`, right
      after the last file that is not newer. */
  method ShiftNewer(a: array<RecordingFile>, i: nat, x: RecordingFile, ghost sorted: seq<RecordingFile>)
    returns (j: nat)
    requires i < a.Length && sorted == a[..i]
    modifies a
    ensures j <= i
    ensures forall k :: 0 <= k < j ==> a[k] == sorted[k]
    ensures forall k :: j < k <= i ==> a[k] == sorted[k - 1]
    ensures forall k :: i < k < a.Length ==> a[k] == old(a[k])
    ensures j == 0 || sorted[j - 1].mtime <= x.mtime
    ensures forall k :: j <= k < i ==> sorted[k].mtime > x.mtime
  {
    j := i;
    while j > 0 && a[j - 1].mtime > x.mtime
      invariant 0 <= j <= i
      invariant forall k :: 0 <= k < j ==> a[k] == sorted[k]
      invariant forall k :: j < k <= i ==> a[k] == sorted[k - 1]
      invariant forall k :: i < k < a.Length ==> a[k] == old(a[k])
      invariant forall k :: j <= k < i ==> sorted[k].mtime > x.mtime
    {
      a[j] := a[j - 1];
      j := j - 1;
    }
  }

  /** The in-place usort, as insertion sort: a[..] becomes SortByMtime of the
      listing. */
  method UsortByMtime(a: array<RecordingFile>)
    modifies a
    ensures a[..] == SortByMtime(old(a[..]))
  {
    ghost var orig := a[..];
    var i := 0;
    while i < a.Length
      invariant 0 <= i <= a.Length
      invariant a[..i] == SortByMtime(orig[..i])
      invariant forall k :: i <= k < a.Length ==> a[k] == orig[k]
    {
      InsertIntoPrefix(a, i);
      SortStep(orig, i);
      i := i + 1;
    }
    assert a[..] == a[..a.Length];
    assert orig[..a.Length] == orig;
  }

  /** The listing sorted in an array, as `resolve_id` and `latest_id` both do. */
  method SortedListing(listing: seq<RecordingFile>) returns (files: seq<RecordingFile>)
    ensures files == SortByMtime(listing)
  {
    var a := new RecordingFile[|listing|](i requires 0 <= i < |listing| => listing[i]);
    assert a[..] == listing;
    UsortByMtime(a);
    files := a[..];
  }

  /** `resolve_id`: the n-th file oldest first, or nothing (a 404) when there is none. */
  method ResolveId(listing: seq<RecordingFile>, id: int) returns (r: Option<RecordingFile>)
    ensures 0 <= id < |listing| ==> r == Some(SortByMtime(listing)[id])
    ensures !(0 <= id < |listing|) ==> r == None
  {
    var files := SortedListing(listing);
    if 0 <= id < |files| {
      r := Some(files[id]);
    } else {
      r := None;
    }
  }

  /** `latest_id`: the count of files minus one. */
  method LatestId(listing: seq<RecordingFile>) returns (n: int)
    ensures n == |listing| - 1
  {
    var files := SortedListing(listing);
    n := |files| - 1;
  }

  /** The id that latest_id reports resolves to the newest recording. */
  lemma LatestIdNamesNewest(listing: seq<RecordingFile>)
    requires |listing| > 0
    ensures var s := SortByMtime(listing);
            s[|listing| - 1] in listing && forall f :: f in listing ==> f.mtime <= s[|listing| - 1].mtime
  {
    var s := SortByMtime(listing);
    SortByMtimeSorted(listing);
    SortByMtimePermutes(listing);
    assert s[|s| - 1] in multiset(s);
    forall f | f in listing ensures f.mtime <= s[|s| - 1].mtime {
      assert f in multiset(listing);
      var i :| 0 <= i < |s| && s[i] == f;
    }
  }
}
