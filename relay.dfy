/** Relay planning (src/relay.rs): whether an alert is relayed at all, the
    checks made before relaying, the list of audio segments with a second of
    silence between neighbours, and the two ffmpeg command lines, the first
    bundling the segments through a filter graph and the second streaming the
    bundle to Icecast. The commands are built, not run. */
module Relay {
  import opened Wrappers
  import opened Text

  const TARGET_SAMPLE_RATE: nat := 48000
  const TARGET_CHANNEL_LAYOUT: String := "mono"

  /** The configuration the relay reads; an empty string is an unset path. */
  datatype RelayConfig = RelayConfig(
    shouldRelay: bool,
    icecastRelay: String,
    icecastIntro: String,
    icecastOutro: String)

  datatype RelayState = RelayState(config: RelayConfig)

  const RELAY_REQUIRED_MESSAGE: String := "ICECAST_RELAY must be set if SHOULD_RELAY is true"
  const EMPTY_SEGMENT_MESSAGE: String := "Recording segment path is empty. Cannot start relay."
  const RELAY_UNSET_MESSAGE: String := "ICECAST_RELAY is not set. Cannot start relay."

  /** Building the relay state fails exactly when relaying is switched on
      without a destination. */
  function NewRelayState(config: RelayConfig): (r: Result<RelayState, String>)
    ensures r.Err? <==> config.shouldRelay && config.icecastRelay == []
    ensures r.Err? ==> r.error == RELAY_REQUIRED_MESSAGE
    ensures r.Ok? ==> r.value.config == config
  {
    if config.shouldRelay && config.icecastRelay == [] then Err(RELAY_REQUIRED_MESSAGE)
    else Ok(RelayState(config))
  }

  // --------------------------------------------------------- filter action

  datatype FilterAction = Relay | Log | Ignore

  /** The rule a filter list matched for an event code: its action and name.
      The matching itself lives outside this model. */
  datatype MatchedRule = MatchedRule(action: FilterAction, name: String)

  const DEFAULT_RULE: MatchedRule := MatchedRule(Relay, "Default Filter")

  /** The matched rule, or relaying under the default filter when none matched. */
  function ChosenRule(matched: Option<MatchedRule>): (r: MatchedRule)
    ensures matched.Some? ==> r == matched.value
    ensures matched.None? ==> r.action == Relay && r.name == "Default Filter"
  {
    matched.GetOr(DEFAULT_RULE)
  }

  // ---------------------------------------------------------------- segments

  /** The intro when configured, the recording, the outro when configured. */
  function AudioSegments(config: RelayConfig, recording: String): (r: seq<String>)
    ensures |r| == 1 + (if config.icecastIntro != [] then 1 else 0) + (if config.icecastOutro != [] then 1 else 0)
    ensures config.icecastIntro != [] ==> r[0] == config.icecastIntro && r[1] == recording
    ensures config.icecastIntro == [] ==> r[0] == recording
    ensures config.icecastOutro != [] ==> r[|r| - 1] == config.icecastOutro
  {
    (if config.icecastIntro != [] then [config.icecastIntro] else [])
    + [recording]
    + (if config.icecastOutro != [] then [config.icecastOutro] else [])
  }

  datatype Segment = File(path: String) | Silence

  /** The files in order with one silence between each neighbouring pair. */
  function Interleave(files: seq<String>): (r: seq<Segment>)
    ensures |files| >= 1 ==> |r| == 2 * |files| - 1
    ensures |files| == 0 ==> r == []
    ensures forall i :: 0 <= i < |files| ==> 2 * i < |r| && r[2 * i] == File(files[i])
    ensures forall i :: 0 <= i < |files| - 1 ==> r[2 * i + 1] == Silence
  {
    if |files| == 0 then []
    else if |files| == 1 then [File(files[0])]
    else
      var init := files[..|files| - 1];
      var prev := Interleave(init);
      assert forall i :: 0 <= i < |init| ==> init[i] == files[i];
      prev + [Silence, File(files[|files| - 1])]
  }

  /** The relay never runs out of segments: the checks for an empty segment
      list and for no inputs can never fail. */
  lemma SegmentsNeverEmpty(config: RelayConfig, recording: String)
    ensures var n := |Interleave(AudioSegments(config, recording))|;
            n == 1 || n == 3 || n == 5
  {
  }

  // --------------------------------------------------------------- inputs

  const PREPARE_PREFIX: seq<String> := ["-nostdin", "-hide_banner", "-loglevel", "info", "-y"]

  /** The lavfi source for one second of silence in the target format. */
  function SilenceSource(): String {
    "anullsrc=channel_layout=" + TARGET_CHANNEL_LAYOUT + ":sample_rate=" + NatToString(TARGET_SAMPLE_RATE)
  }

  /** The ffmpeg arguments that declare one segment as an input. */
  function SegmentArgs(s: Segment): (r: seq<String>)
    ensures |r| >= 2 && r[|r| - 2] == "-i"
    ensures s.File? ==> r == ["-i", s.path]
    ensures s.Silence? ==> r[|r| - 1] == SilenceSource()
    ensures s.Silence? ==> r == ["-f", "lavfi", "-t", "1", "-i", SilenceSource()]
  {
    match s
    case File(p) => ["-i", p]
    case Silence => ["-f", "lavfi", "-t", "1", "-i", SilenceSource()]
  }

  /** The input arguments of a list of segments, in order. */
  function InputArgs(segs: seq<Segment>): seq<String> {
    if segs == [] then [] else SegmentArgs(segs[0]) + InputArgs(segs[1..])
  }

  /** The input arguments of a concatenation are the concatenation of the
      input arguments, so every segment becomes exactly one input, in order. */
  lemma {:induction false} InputArgsAppend(a: seq<Segment>, b: seq<Segment>)
    ensures InputArgs(a + b) == InputArgs(a) + InputArgs(b)
  {
    if a == [] {
      assert a + b == b;
    } else {
      assert (a + b)[1..] == a[1..] + b;
      InputArgsAppend(a[1..], b);
    }
  }

  /** One more segment adds its own input arguments at the end. */
  lemma InputArgsSnoc(segs: seq<Segment>, s: Segment)
    ensures InputArgs(segs + [s]) == InputArgs(segs) + SegmentArgs(s)
  {
    InputArgsAppend(segs, [s]);
  }

  // ------------------------------------------------------------ filter graph

  /** The label under which input `i` leaves its resampling stage. */
  function Label(i: nat): String {
    "[s" + NatToString(i) + "]"
  }

  /** How the filter graph names the audio of input `i`. */
  function InputRef(i: nat): String {
    "[" + NatToString(i) + ":a]"
  }

  /** Resampling to the target rate and layout, with timestamps restarted. */
  const RESAMPLE_CHAIN: String :=
    "aresample=sample_rate=48000,aformat=sample_rates=48000:channel_layouts=mono,asetpts=N/SR/TB"

  /** The stage that resamples input `i` to the target format. */
  function ResampleFilter(i: nat): String {
    InputRef(i) + RESAMPLE_CHAIN + Label(i)
  }

  /** The resampling stages of inputs 0 to n-1. */
  function ResampleFilters(n: nat): (r: seq<String>)
    ensures |r| == n
    ensures forall i :: 0 <= i < n ==> r[i] == ResampleFilter(i)
  {
    if n == 0 then [] else ResampleFilters(n - 1) + [ResampleFilter(n - 1)]
  }

  /** The labels of inputs 0 to n-1. */
  function Labels(n: nat): (r: seq<String>)
    ensures |r| == n
    ensures forall i :: 0 <= i < n ==> r[i] == Label(i)
  {
    if n == 0 then [] else Labels(n - 1) + [Label(n - 1)]
  }

  /** The stage that joins all resampled inputs, in order, into `[outa]`. */
  function ConcatStage(n: nat): String {
    Concat(Labels(n)) + "concat=n=" + NatToString(n) + ":v=0:a=1[outa]"
  }

  datatype FilterGraph = FilterGraph(parts: seq<String>, outputLabel: String)

  /** One resampling stage per input; with more than one input a concat
      stage follows and its output is mapped, otherwise the only resampled
      input is. */
  function FilterGraphOf(n: nat): (g: FilterGraph)
    ensures |g.parts| == if n > 1 then n + 1 else n
    ensures forall i :: 0 <= i < n ==> g.parts[i] == ResampleFilter(i)
    ensures n > 1 ==> g.parts[n] == ConcatStage(n) && g.outputLabel == "[outa]"
    ensures n <= 1 ==> g.outputLabel == Label(0)
  {
    if n > 1 then FilterGraph(ResampleFilters(n) + [ConcatStage(n)], "[outa]")
    else FilterGraph(ResampleFilters(n), "[s0]")
  }

  /** Every stage's output label names its own input, and no two inputs share
      a label, so the concat stage reads each resampled input exactly once. */
  lemma LabelsDistinct(i: nat, j: nat)
    requires i != j
    ensures Label(i) != Label(j)
  {
    if Label(i) == Label(j) {
      assert Label(i)[2..|Label(i)| - 1] == NatToString(i);
      assert Label(j)[2..|Label(j)| - 1] == NatToString(j);
      NatToStringInjective(i, j);
    }
  }

  /** Each resampling stage reads the input it is numbered after and ends in
      that input's label. */
  lemma ResampleFilterLabel(i: nat)
    ensures StartsWith(ResampleFilter(i), InputRef(i))
    ensures EndsWith(ResampleFilter(i), Label(i))
  {
    var s := ResampleFilter(i);
    assert s == InputRef(i) + (RESAMPLE_CHAIN + Label(i));
    assert s[..|InputRef(i)|] == InputRef(i);
    assert s[|s| - |Label(i)|..] == Label(i);
  }

  // ---------------------------------------------------------------- commands

  /** The arguments after the inputs: the graph, its mapped output, the
      Vorbis encoding in the target format, and the bundle's path. */
  function BundleOutputArgs(g: FilterGraph, combinedPath: String): (t: seq<String>)
    ensures |t| == 13 && t[0] == "-filter_complex" && t[1] == Join(g.parts, ";")
    ensures t[2] == "-map" && t[3] == g.outputLabel && t[12] == combinedPath
  {
    ["-filter_complex", Join(g.parts, ";"), "-map", g.outputLabel,
     "-ar", NatToString(TARGET_SAMPLE_RATE), "-ac", "1", "-c:a", "libvorbis", "-b:a", "128k",
     combinedPath]
  }

  /** The command that bundles the segments into one file. */
  function PrepareArgs(segs: seq<Segment>, combinedPath: String): (r: seq<String>)
    ensures var n := |PREPARE_PREFIX| + |InputArgs(segs)|;
            |r| == n + 13 && r[..|PREPARE_PREFIX|] == PREPARE_PREFIX && r[|PREPARE_PREFIX|..n] == InputArgs(segs)
    ensures var n := |PREPARE_PREFIX| + |InputArgs(segs)|;
            r[n] == "-filter_complex" && r[n + 1] == Join(FilterGraphOf(|segs|).parts, ";")
    ensures var n := |PREPARE_PREFIX| + |InputArgs(segs)|;
            r[n + 2] == "-map" && r[n + 3] == FilterGraphOf(|segs|).outputLabel
    ensures r[|r| - 1] == combinedPath
  {
    var head := PREPARE_PREFIX + InputArgs(segs);
    var tail := BundleOutputArgs(FilterGraphOf(|segs|), combinedPath);
    assert (head + tail)[..|PREPARE_PREFIX|] == PREPARE_PREFIX;
    assert (head + tail)[|PREPARE_PREFIX|..|head|] == InputArgs(segs);
    assert forall k :: 0 <= k < |tail| ==> (head + tail)[|head| + k] == tail[k];
    head + tail
  }

  /** The command that streams the bundle to the Icecast destination. */
  function StreamArgs(combinedPath: String, destination: String): (r: seq<String>)
    ensures |r| == 16 && r[4] == "-re" && r[5] == "-i" && r[6] == combinedPath
    ensures r[7] == "-c:a" && r[8] == "copy"
    ensures r[|r| - 1] == destination
  {
    ["-nostdin", "-hide_banner", "-loglevel", "info", "-re", "-i", combinedPath,
     "-c:a", "copy", "-f", "wav",
     "-metadata", "title=Emergency Alert", "-metadata", "artist=EAS Listener",
     destination]
  }

  datatype RelayOutcome =
    | Skipped(action: FilterAction, filterName: String)
    | Failed(message: String)
    | Commands(prepare: seq<String>, stream: seq<String>)

  /** The two commands for relaying `recording` through a bundle at
      `combinedPath`. */
  function RelayPlan(config: RelayConfig, recording: String, combinedPath: String): (r: RelayOutcome)
    ensures r.Commands? && |r.prepare| > 0 && |r.stream| == 16
    ensures r.prepare[|r.prepare| - 1] == combinedPath && r.stream[6] == combinedPath
    ensures r.stream[|r.stream| - 1] == config.icecastRelay
  {
    var prepare := PrepareArgs(Interleave(AudioSegments(config, recording)), combinedPath);
    var stream := StreamArgs(combinedPath, config.icecastRelay);
    assert prepare[|prepare| - 1] == combinedPath && stream[6] == combinedPath;
    Commands(prepare, stream)
  }

  /** The bundle's output is the concat stage exactly when an intro or an
      outro is configured. */
  lemma BundleMapsConcatIffFramed(config: RelayConfig, recording: String, combinedPath: String)
    ensures var n := |Interleave(AudioSegments(config, recording))|;
            (n > 1 <==> config.icecastIntro != [] || config.icecastOutro != [])
            && FilterGraphOf(n).outputLabel == (if n > 1 then "[outa]" else "[s0]")
  {
  }

  /** The segments in playing order, one silence between neighbours. */
  method OrderSegments(audioSegments: seq<String>) returns (ordered: seq<Segment>)
    ensures ordered == Interleave(audioSegments)
  {
    ordered := [];
    var idx := 0;
    while idx < |audioSegments|
      invariant 0 <= idx <= |audioSegments|
      invariant ordered == Interleave(audioSegments[..idx])
    {
      assert audioSegments[..idx + 1][..idx] == audioSegments[..idx];
      if idx > 0 {
        ordered := ordered + [Silence];
      }
      ordered := ordered + [File(audioSegments[idx])];
      idx := idx + 1;
    }
    assert audioSegments[..idx] == audioSegments;
  }

  /** The bundling command's leading arguments and one input per segment,
      counted as they are added. */
  method AddInputs(ordered: seq<Segment>) returns (prepare: seq<String>, inputCount: nat)
    ensures prepare == PREPARE_PREFIX + InputArgs(ordered)
    ensures inputCount == |ordered|
  {
    prepare := PREPARE_PREFIX;
    inputCount := 0;
    while inputCount < |ordered|
      invariant 0 <= inputCount <= |ordered|
      invariant prepare == PREPARE_PREFIX + InputArgs(ordered[..inputCount])
    {
      ghost var done, before := ordered[..inputCount], prepare;
      var segment := ordered[inputCount];
      assert ordered[..inputCount + 1] == done + [segment];
      match segment {
        case File(path) =>
          prepare := prepare + ["-i", path];
        case Silence =>
          prepare := prepare + ["-f", "lavfi", "-t", "1", "-i", SilenceSource()];
      }
      assert prepare == before + SegmentArgs(segment);
      InputArgsSnoc(done, segment);
      assert prepare == PREPARE_PREFIX + (InputArgs(done) + SegmentArgs(segment));
      assert prepare == PREPARE_PREFIX + InputArgs(ordered[..inputCount + 1]);
      inputCount := inputCount + 1;
    }
    assert ordered[..inputCount] == ordered;
  }

  /** The filter stages and the mapped output label for `inputCount` inputs. */
  method BuildFilterGraph(inputCount: nat) returns (filterParts: seq<String>, outputLabel: String)
    ensures FilterGraph(filterParts, outputLabel) == FilterGraphOf(inputCount)
  {
    filterParts := [];
    var remappedLabels: seq<String> := [];
    var i: nat := 0;
    while i < inputCount
      invariant i <= inputCount
      invariant filterParts == ResampleFilters(i) && remappedLabels == Labels(i)
    {
      filterParts := filterParts + [ResampleFilter(i)];
      remappedLabels := remappedLabels + [Label(i)];
      i := i + 1;
    }
    outputLabel := "[s0]";
    if inputCount > 1 {
      filterParts := filterParts
        + [Concat(remappedLabels) + "concat=n=" + NatToString(|remappedLabels|) + ":v=0:a=1[outa]"];
      outputLabel := "[outa]";
    }
  }

  /** The decision to relay and the checks before it, then the commands. */
  method StartRelay(state: RelayState, matched: Option<MatchedRule>, recordedSegment: String, combinedPath: String)
    returns (r: RelayOutcome)
    ensures ChosenRule(matched).action != Relay ==>
              r == Skipped(ChosenRule(matched).action, ChosenRule(matched).name)
    ensures ChosenRule(matched).action == Relay && recordedSegment == [] ==>
              r == Failed(EMPTY_SEGMENT_MESSAGE)
    ensures ChosenRule(matched).action == Relay && recordedSegment != [] && state.config.icecastRelay == [] ==>
              r == Failed(RELAY_UNSET_MESSAGE)
    ensures ChosenRule(matched).action == Relay && recordedSegment != [] && state.config.icecastRelay != [] ==>
              r == RelayPlan(state.config, recordedSegment, combinedPath)
  {
    var rule := ChosenRule(matched);
    match rule.action {
      case Ignore => return Skipped(Ignore, rule.name);
      case Log => return Skipped(Log, rule.name);
      case Relay =>
    }
    var config := state.config;
    if recordedSegment == [] {
      return Failed(EMPTY_SEGMENT_MESSAGE);
    }
    if config.icecastRelay == [] {
      return Failed(RELAY_UNSET_MESSAGE);
    }

    var audioSegments: seq<String> := [];
    if config.icecastIntro != [] {
      audioSegments := audioSegments + [config.icecastIntro];
    }
    audioSegments := audioSegments + [recordedSegment];
    if config.icecastOutro != [] {
      audioSegments := audioSegments + [config.icecastOutro];
    }
    assert audioSegments == AudioSegments(config, recordedSegment);

    var ordered := OrderSegments(audioSegments);
    var prepare, inputCount := AddInputs(ordered);
    var filterParts, outputLabel := BuildFilterGraph(inputCount);
    prepare := prepare
      + ["-filter_complex", Join(filterParts, ";"), "-map", outputLabel,
         "-ar", NatToString(TARGET_SAMPLE_RATE), "-ac", "1", "-c:a", "libvorbis", "-b:a", "128k",
         combinedPath];
    var stream := StreamArgs(combinedPath, config.icecastRelay);
    r := Commands(prepare, stream);
  }
}
