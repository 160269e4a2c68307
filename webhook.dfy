/** The notification helpers of src/webhook.rs: HTML escaping, the AppRise
    configuration lines, the Discord webhook targets, and the colour,
    event code, icon name and monitor number of the Discord embed. */
module Webhook {
  import opened Wrappers
  import opened Text

  // -------------------------------------------------------------- html_escape

  /** The replacement html_escape pushes for one character. */
  function EscapeChar(c: char): (r: String)
    ensures c !in "&<>\"'" ==> r == [c]
    ensures c in "&<>\"'" ==> |r| >= 4 && r[0] == '&' && r[|r| - 1] == ';'
  {
    match c
    case '&' => "&amp;"
    case '<' => "&lt;"
    case '>' => "&gt;"
    case '"' => "&quot;"
    case '\'' => "&#39;"
    case _ => [c]
  }

  predicate IsSpecial(c: char) { c == '&' || c == '<' || c == '>' || c == '"' || c == '\'' }

  /** The escaped text, character by character. */
  function Escape(s: String): (r: String)
    ensures |r| >= |s|
    ensures forall i :: 0 <= i < |r| ==> r[i] != '<' && r[i] != '>' && r[i] != '"' && r[i] != '\''
  {
    if s == [] then [] else EscapeChar(s[0]) + Escape(s[1..])
  }

  lemma {:induction false} EscapeAppend(s: String, c: char)
    ensures Escape(s + [c]) == Escape(s) + EscapeChar(c)
  {
    if s == [] {
      assert [c][1..] == [];
    } else {
      assert (s + [c])[1..] == s[1..] + [c];
      EscapeAppend(s[1..], c);
    }
  }

  /** html_escape: the loop pushes each character or its entity. */
  method HtmlEscape(input: String) returns (escaped: String)
    ensures escaped == Escape(input)
  {
    escaped := [];
    var i := 0;
    while i < |input|
      invariant 0 <= i <= |input|
      invariant escaped == Escape(input[..i])
    {
      var ch := input[i];
      EscapeAppend(input[..i], ch);
      assert input[..i + 1] == input[..i] + [ch];
      match ch {
        case '&' => escaped := escaped + "&amp;";
        case '<' => escaped := escaped + "&lt;";
        case '>' => escaped := escaped + "&gt;";
        case '"' => escaped := escaped + "&quot;";
        case '\'' => escaped := escaped + "&#39;";
        case _ => escaped := escaped + [ch];
      }
      i := i + 1;
    }
    assert input[..i] == input;
  }

  /** Decoding the five entities html_escape writes. */
  function Unescape(s: String): String
    decreases |s|
  {
    if s == [] then []
    else if StartsWith(s, "&amp;") then "&" + Unescape(s[5..])
    else if StartsWith(s, "&lt;") then "<" + Unescape(s[4..])
    else if StartsWith(s, "&gt;") then ">" + Unescape(s[4..])
    else if StartsWith(s, "&quot;") then "\"" + Unescape(s[6..])
    else if StartsWith(s, "&#39;") then "'" + Unescape(s[5..])
    else [s[0]] + Unescape(s[1..])
  }

  /** Decoding past an entity that is not `ent`: `ent` and the entity differ
      at index `k`. */
  lemma NotPrefix(s: String, ent: String, k: nat)
    requires k < |ent| && (k >= |s| || s[k] != ent[k])
    ensures !StartsWith(s, ent)
  {
    if |ent| <= |s| {
      assert s[..|ent|][k] != ent[k];
    }
  }

  lemma UnescapeStep(c: char, t: String)
    ensures Unescape(EscapeChar(c) + t) == [c] + Unescape(t)
  {
    var s := EscapeChar(c) + t;
    if c == '&' {
      assert s[..5] == "&amp;" && s[5..] == t;
    } else if c == '<' {
      assert s[1] == 'l';
      NotPrefix(s, "&amp;", 1);
      assert s[..4] == "&lt;" && s[4..] == t;
    } else if c == '>' {
      assert s[1] == 'g';
      NotPrefix(s, "&amp;", 1);
      NotPrefix(s, "&lt;", 1);
      assert s[..4] == "&gt;" && s[4..] == t;
    } else if c == '"' {
      assert s[1] == 'q';
      NotPrefix(s, "&amp;", 1);
      NotPrefix(s, "&lt;", 1);
      NotPrefix(s, "&gt;", 1);
      assert s[..6] == "&quot;" && s[6..] == t;
    } else if c == '\'' {
      assert s[1] == '#';
      NotPrefix(s, "&amp;", 1);
      NotPrefix(s, "&lt;", 1);
      NotPrefix(s, "&gt;", 1);
      NotPrefix(s, "&quot;", 1);
      assert s[..5] == "&#39;" && s[5..] == t;
    } else {
      assert s[0] == c && s[1..] == t;
      NotPrefix(s, "&amp;", 0);
      NotPrefix(s, "&lt;", 0);
      NotPrefix(s, "&gt;", 0);
      NotPrefix(s, "&quot;", 0);
      NotPrefix(s, "&#39;", 0);
    }
  }

  /** Escaping loses nothing: decoding the entities gives the input back. */
  lemma {:induction false} UnescapeEscape(s: String)
    ensures Unescape(Escape(s)) == s
  {
    if s != [] {
      UnescapeEscape(s[1..]);
      UnescapeStep(s[0], Escape(s[1..]));
      assert [s[0]] + s[1..] == s;
    }
  }

  /** Text without the five special characters passes through unchanged. */
  lemma {:induction false} EscapeIdentity(s: String)
    requires forall i :: 0 <= i < |s| ==> !IsSpecial(s[i])
    ensures Escape(s) == s
  {
    if s != [] {
      EscapeIdentity(s[1..]);
      assert [s[0]] + s[1..] == s;
    }
  }

  // ------------------------------------------------------- AppRise config file

  /** A trimmed line survives the filter when non-empty and not a comment. */
  predicate KeptLine(line: String) { line != [] && line[0] != '#' }

  /** One leading '-' is stripped and what follows is left-trimmed. */
  function CleanEntry(line: String): (e: String)
    ensures |e| <= |line|
    ensures line != [] && line[0] == '-' ==> e == TrimStartRust(line[1..])
    ensures !(line != [] && line[0] == '-') ==> e == line
  {
    if line != [] && line[0] == '-' then TrimStartRust(line[1..]) else line
  }

  /** What one line of the config contributes: nothing for a blank or
      comment line, otherwise its cleaned entry. */
  function EntryOfLine(line: String): (r: seq<String>)
    ensures |r| <= 1
    ensures r != [] <==> KeptLine(TrimRust(line))
  {
    var t := TrimRust(line);
    if KeptLine(t) then [CleanEntry(t)] else []
  }

  /** The entries of the config, from its lines (already split by str::lines). */
  function ConfigEntriesOf(lines: seq<String>): (r: seq<String>)
    ensures |r| <= |lines|
  {
    if lines == [] then [] else EntryOfLine(lines[0]) + ConfigEntriesOf(lines[1..])
  }

  /** The config is read line by line: entries of a concatenation are the
      concatenation of the entries, so order is preserved. */
  lemma ConfigEntriesAppend(a: seq<String>, b: seq<String>)
    ensures ConfigEntriesOf(a + b) == ConfigEntriesOf(a) + ConfigEntriesOf(b)
  {
    ConfigEntriesOneByOne(a + b);
    ConfigEntriesOneByOne(a);
    ConfigEntriesOneByOne(b);
    FlatMapAppend(a, b, EntryOfLine);
  }

  lemma {:induction false} ConfigEntriesOneByOne(lines: seq<String>)
    ensures ConfigEntriesOf(lines) == FlatMap(lines, EntryOfLine)
  {
    if lines != [] {
      ConfigEntriesOneByOne(lines[1..]);
    }
  }

  /** With no blank or comment lines, there is one entry per line, in order. */
  lemma ConfigEntriesAllKept(lines: seq<String>)
    requires forall j :: 0 <= j < |lines| ==> KeptLine(TrimRust(lines[j]))
    ensures |ConfigEntriesOf(lines)| == |lines|
    ensures forall j :: 0 <= j < |lines| ==> ConfigEntriesOf(lines)[j] == CleanEntry(TrimRust(lines[j]))
  {
    ConfigEntriesOneByOne(lines);
    FlatMapSingletons(lines, EntryOfLine);
  }

  /** Blank and comment lines contribute nothing. */
  lemma ConfigEntriesNoneKept(lines: seq<String>)
    requires forall j :: 0 <= j < |lines| ==> !KeptLine(TrimRust(lines[j]))
    ensures ConfigEntriesOf(lines) == []
  {
    ConfigEntriesOneByOne(lines);
    FlatMapNone(lines, EntryOfLine);
  }

  /** Every entry is free of surrounding whitespace. */
  lemma EntryIsTrimmed(line: String)
    ensures var e := CleanEntry(TrimRust(line));
            (e == [] || !IsRustWhitespace(e[0])) && (e == [] || !IsRustWhitespace(e[|e| - 1]))
  {
    var t := TrimRust(line);
    var e := CleanEntry(t);
    if t != [] && t[0] == '-' && e != [] {
      assert e == t[1..][|t[1..]| - |e|..];
      assert e[|e| - 1] == t[|t| - 1];
    }
  }

  /** The AppRise URLs read from the config file's contents. */
  function AppriseConfigEntries(contents: String): (r: seq<String>)
    ensures |r| <= |RustLines(contents)|
    ensures r == FlatMap(RustLines(contents), EntryOfLine)
  {
    ConfigEntriesOneByOne(RustLines(contents));
    ConfigEntriesOf(RustLines(contents))
  }

  // ---------------------------------------------------------- Discord targets

  const DISCORD_SCHEME: String := "discord://"
  const DISCORD_BASE: String := "https://discord.com/api/webhooks/"

  /** `x` is made of whole copies of `p`. */
  predicate AllCopies(x: String, p: String)
    requires |p| > 0
    decreases |x|
  {
    x == [] || (StartsWith(x, p) && AllCopies(x[|p|..], p))
  }

  lemma PrependCopy(p: String, y: String)
    requires |p| > 0 && AllCopies(y, p)
    ensures AllCopies(p + y, p)
  {
    assert (p + y)[..|p|] == p;
    assert (p + y)[|p|..] == y;
  }

  /** str::trim_start_matches: every leading copy of `p` removed. */
  function TrimStartMatches(s: String, p: String): (r: String)
    requires |p| > 0
    ensures |r| <= |s| && r == s[|s| - |r|..]
    ensures !StartsWith(r, p)
    ensures AllCopies(s[..|s| - |r|], p)
    decreases |s|
  {
    if StartsWith(s, p) then
      var t := s[|p|..];
      var r := TrimStartMatches(t, p);
      assert s[..|s| - |r|] == p + t[..|t| - |r|];
      PrependCopy(p, t[..|t| - |r|]);
      r
    else
      s
  }

  /** A Discord webhook URL with no scheme left in its path. */
  predicate IsWebhookUrl(u: String) {
    StartsWith(u, DISCORD_BASE) && !StartsWith(u[|DISCORD_BASE|..], DISCORD_SCHEME)
  }

  /** What one entry contributes: its webhook URL when its trimmed form uses
      the discord:// scheme, otherwise nothing. */
  function TargetOfEntry(entry: String): (r: seq<String>)
    ensures |r| <= 1
    ensures r != [] <==> StartsWith(TrimRust(entry), DISCORD_SCHEME)
    ensures r != [] ==> IsWebhookUrl(r[0])
    ensures r != [] ==> r[0] == DISCORD_BASE + TrimStartMatches(TrimRust(entry), DISCORD_SCHEME)
  {
    var t := TrimRust(entry);
    if StartsWith(t, DISCORD_SCHEME) then
      var u := DISCORD_BASE + TrimStartMatches(t, DISCORD_SCHEME);
      assert u[|DISCORD_BASE|..] == TrimStartMatches(t, DISCORD_SCHEME);
      [u]
    else []
  }

  /** The Discord webhook URLs for the configured entries. */
  function DiscordTargets(entries: seq<String>): (r: seq<String>)
    ensures |r| <= |entries|
  {
    if entries == [] then [] else TargetOfEntry(entries[0]) + DiscordTargets(entries[1..])
  }

  /** Every target is a Discord webhook URL with no scheme left in its path. */
  lemma {:induction false} DiscordTargetsWellFormed(entries: seq<String>)
    ensures forall k :: 0 <= k < |DiscordTargets(entries)| ==> IsWebhookUrl(DiscordTargets(entries)[k])
  {
    if entries != [] {
      var head, rest := TargetOfEntry(entries[0]), DiscordTargets(entries[1..]);
      DiscordTargetsWellFormed(entries[1..]);
      assert DiscordTargets(entries) == head + rest;
      forall k | 0 <= k < |head + rest| ensures IsWebhookUrl((head + rest)[k]) {
        if k >= |head| {
          assert (head + rest)[k] == rest[k - |head|];
        }
      }
    }
  }

  /** Entries are read one by one: the targets of a concatenation are the
      concatenation of the targets, so order is preserved. */
  lemma DiscordTargetsAppend(a: seq<String>, b: seq<String>)
    ensures DiscordTargets(a + b) == DiscordTargets(a) + DiscordTargets(b)
  {
    DiscordTargetsOneByOne(a + b);
    DiscordTargetsOneByOne(a);
    DiscordTargetsOneByOne(b);
    FlatMapAppend(a, b, TargetOfEntry);
  }

  lemma {:induction false} DiscordTargetsOneByOne(entries: seq<String>)
    ensures DiscordTargets(entries) == FlatMap(entries, TargetOfEntry)
  {
    if entries != [] {
      DiscordTargetsOneByOne(entries[1..]);
    }
  }

  /** An entry with the scheme written twice loses both copies. */
  lemma TrimStartMatchesExample()
    ensures TrimStartMatches("discord://discord://123/abc", DISCORD_SCHEME) == "123/abc"
  {
    var t := "discord://discord://123/abc";
    assert StartsWith(t, DISCORD_SCHEME);
    var t1 := t[10..];
    assert t1 == "discord://123/abc";
    assert StartsWith(t1, DISCORD_SCHEME);
    assert t1[10..] == "123/abc";
    assert !StartsWith("123/abc", DISCORD_SCHEME);
  }

  // ------------------------------------------------------------ embed colour

  /** The colour hex chosen from the (lower-cased) title. */
  function ColorHex(title: String): (hex: String)
    ensures Contains(ToLower(title), "test") ==> hex == "105733"
    ensures !Contains(ToLower(title), "test") && (Contains(ToLower(title), "advisory") || Contains(ToLower(title), "watch"))
            ==> hex == "FFFF00"
    ensures (!Contains(ToLower(title), "test") && !Contains(ToLower(title), "advisory") && !Contains(ToLower(title), "watch")
             && (Contains(ToLower(title), "warning") || Contains(ToLower(title), "emergency"))) ==> hex == "FF0000"
    ensures (!Contains(ToLower(title), "test") && !Contains(ToLower(title), "advisory") && !Contains(ToLower(title), "watch")
             && !Contains(ToLower(title), "warning") && !Contains(ToLower(title), "emergency")) ==> hex == "808080"
    ensures |hex| == 6 && forall i :: 0 <= i < |hex| ==> IsHexDigit(hex[i])
  {
    var t := ToLower(title);
    if Contains(t, "test") then "105733"
    else if Contains(t, "advisory") || Contains(t, "watch") then "FFFF00"
    else if Contains(t, "warning") || Contains(t, "emergency") then "FF0000"
    else "808080"
  }

  /** The choice does not depend on the case of the title. */
  lemma ColorHexCaseInsensitive(title: String)
    ensures ColorHex(ToLower(title)) == ColorHex(title)
  {
    ToLowerIdempotent(title);
  }

  predicate IsHexDigit(c: char) { IsDigit(c) || 'A' <= c <= 'F' || 'a' <= c <= 'f' }

  function HexDigitValue(c: char): (v: nat)
    requires IsHexDigit(c)
    ensures v < 16
  {
    if IsDigit(c) then DigitValue(c)
    else if 'A' <= c <= 'F' then c as int - 'A' as int + 10
    else c as int - 'a' as int + 10
  }

  /** u32::from_str_radix(s, 16) on a string of hex digits. */
  function HexValue(s: String): nat
    requires forall i :: 0 <= i < |s| ==> IsHexDigit(s[i])
  {
    if s == [] then 0 else HexValue(s[..|s| - 1]) * 16 + HexDigitValue(s[|s| - 1])
  }

  /** The embed's "color" field: the hex colour as a decimal string. */
  function ColorField(title: String): (r: String)
    ensures AllDigits(r) && DigitsValue(r) == HexValue(ColorHex(title))
    ensures DigitsValue(r) in {1070899, 16776960, 16711680, 8421504}
  {
    var hex := ColorHex(title);
    NatToStringRoundTrip(HexValue(hex));
    ColorValues();
    NatToString(HexValue(hex))
  }

  lemma ColorValues()
    ensures HexValue("105733") == 1070899
    ensures HexValue("FFFF00") == 16776960
    ensures HexValue("FF0000") == 16711680
    ensures HexValue("808080") == 8421504
  {
    assert "105733"[..5] == "10573" && "10573"[..4] == "1057" && "1057"[..3] == "105" && "105"[..2] == "10" && "10"[..1] == "1";
    assert "FFFF00"[..5] == "FFFF0" && "FFFF0"[..4] == "FFFF" && "FFFF"[..3] == "FFF" && "FFF"[..2] == "FF" && "FF"[..1] == "F";
    assert "FF0000"[..5] == "FF000" && "FF000"[..4] == "FF00" && "FF00"[..3] == "FF0" && "FF0"[..2] == "FF";
    assert "808080"[..5] == "80808" && "80808"[..4] == "8080" && "8080"[..3] == "808" && "808"[..2] == "80" && "80"[..1] == "8";
    assert "1"[..0] == [] && "F"[..0] == [] && "8"[..0] == [];
  }

  // ----------------------------------------------------- event code, monitor

  /** `raw_header[9..12]` with its ASCII letters kept; None where the slice
      would panic because the header is shorter than 12. */
  function EventCodeOf(rawHeader: String): (r: Option<String>)
    ensures r.Some? <==> |rawHeader| >= 12
    ensures r.Some? ==> |r.value| <= 3 && forall i :: 0 <= i < |r.value| ==> IsAsciiAlpha(r.value[i])
    ensures r.Some? ==> r.value == Letters(rawHeader[9..12])
  {
    if |rawHeader| < 12 then None else Some(Letters(rawHeader[9..12]))
  }

  /** `filter(char::is_ascii_alphabetic)`: the ASCII letters of `s`, in order. */
  function Letters(s: String): (r: String)
    ensures |r| <= |s|
    ensures forall i :: 0 <= i < |r| ==> IsAsciiAlpha(r[i])
    ensures (forall i :: 0 <= i < |s| ==> IsAsciiAlpha(s[i])) ==> r == s
    ensures |s| == 1 ==> r == (if IsAsciiAlpha(s[0]) then s else [])
  {
    if s == [] then []
    else
      var rest := Letters(s[1..]);
      if IsAsciiAlpha(s[0]) then
        assert [s[0]] + s[1..] == s;
        [s[0]] + rest
      else rest
  }

  /** The filter works character by character: the letters of a concatenation
      are the letters of each part, one after the other. */
  lemma {:induction false} LettersAppend(a: String, b: String)
    ensures Letters(a + b) == Letters(a) + Letters(b)
    decreases |a|
  {
    if a != [] {
      var c := a + b;
      assert c != [] && c[0] == a[0] && c[1..] == a[1..] + b;
      LettersAppend(a[1..], b);
      if IsAsciiAlpha(a[0]) {
        assert Letters(c) == [a[0]] + Letters(c[1..]);
      } else {
        assert Letters(c) == Letters(c[1..]);
      }
    } else {
      assert a + b == b;
    }
  }

  /** The icon name: the event code when the header has 12 or more
      characters, else "ZZZ". */
  function ImgName(rawHeader: String, eventCode: String): (r: String)
    ensures |rawHeader| >= 12 ==> r == eventCode
    ensures |rawHeader| < 12 ==> r == "ZZZ"
  {
    if rawHeader != [] && |rawHeader| >= 12 then eventCode else "ZZZ"
  }

  /** The "ZZZ" fallback is unreachable: whenever the embed gets as far as the
      icon name, the event-code slice has already succeeded. */
  lemma ImgNameIsEventCode(rawHeader: String)
    requires EventCodeOf(rawHeader).Some?
    ensures ImgName(rawHeader, EventCodeOf(rawHeader).value) == EventCodeOf(rawHeader).value
  {
  }

  /** A well-formed `ZCZC-ORG-EEE-` header yields its event code EEE. */
  lemma EventCodeOfSameHeader(org: String, eee: String, rest: String)
    requires |org| == 3 && |eee| == 3 && forall i :: 0 <= i < 3 ==> IsAsciiAlpha(eee[i])
    ensures EventCodeOf("ZCZC-" + org + "-" + eee + rest) == Some(eee)
  {
    var h := "ZCZC-" + org + "-" + eee + rest;
    assert h[9..12] == eee;
  }

  /** Index of the last occurrence of `x` in `s`. */
  function LastIndexOf(s: seq<String>, x: String): (r: Option<nat>)
    ensures r.Some? ==> r.value < |s| && s[r.value] == x && forall j :: r.value < j < |s| ==> s[j] != x
    ensures r.None? ==> x !in s
  {
    if s == [] then None
    else if s[|s| - 1] == x then Some(|s| - 1)
    else
      var r := LastIndexOf(s[..|s| - 1], x);
      assert x !in s[..|s| - 1] ==> x !in s by {
        assert s == s[..|s| - 1] + [s[|s| - 1]];
      }
      r
  }

  /** STREAM_INDEX_MAP.get(stream_id).unwrap_or(999): the map is collected
      from (url, index + 1) pairs, so a repeated URL keeps its last index. */
  function MonitorNumber(streamUrls: seq<String>, streamId: String): (n: nat)
    ensures streamId !in streamUrls <==> n == 999 && !(0 < 999 <= |streamUrls| && streamUrls[998] == streamId)
    ensures streamId in streamUrls ==> 1 <= n <= |streamUrls| && streamUrls[n - 1] == streamId
                                       && forall j :: n <= j < |streamUrls| ==> streamUrls[j] != streamId
  {
    match LastIndexOf(streamUrls, streamId)
    case None => 999
    case Some(i) => i + 1
  }

  /** A URL listed once gets its 1-based position. */
  lemma MonitorNumberOfUnique(streamUrls: seq<String>, i: nat)
    requires i < |streamUrls| && forall j :: 0 <= j < |streamUrls| && j != i ==> streamUrls[j] != streamUrls[i]
    ensures MonitorNumber(streamUrls, streamUrls[i]) == i + 1
  {
  }

  /** The parts of the Discord embed that the model computes. */
  datatype EmbedFacts = EmbedFacts(monitor: nat, eventCode: String, imgName: String, colorHex: String, color: String)

  /** build_discord_embed_body, for the fields above; None where the
      raw-header slice panics. */
  function DiscordEmbedFacts(streamUrls: seq<String>, streamId: String, title: String, rawHeader: String): (r: Option<EmbedFacts>)
    ensures r.Some? <==> |rawHeader| >= 12
    ensures r.Some? ==> r.value.imgName == r.value.eventCode
    ensures r.Some? ==> r.value.colorHex == ColorHex(title) && r.value.color == NatToString(HexValue(ColorHex(title)))
    ensures r.Some? ==> r.value.monitor == MonitorNumber(streamUrls, streamId)
  {
    match EventCodeOf(rawHeader)
    case None => None
    case Some(code) =>
      var hex := ColorHex(title);
      Some(EmbedFacts(MonitorNumber(streamUrls, streamId), code, ImgName(rawHeader, code), hex, ColorField(title)))
  }
}
