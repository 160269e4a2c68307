# ASMARA core, modelled in Dafny

ASMARA is an Emergency Alert System listener.
- It decodes SAME headers out of Icecast audio streams (src/audio.rs).
- It keeps a list of active alerts and decides which state files to keep (src/alerts.rs).
- It appends each decoded alert to a dedicated log file (src/alerts.rs).
- It can relay the recorded alert audio to an Icecast server with ffmpeg (src/relay.rs).
- It posts alerts to Discord and AppRise webhooks (src/webhook.rs).
- It can synthesize SAME header audio itself (src/header.rs).

Two web clients read this state:
- a PHP archive page that parses the alert log back into records and names recordings by ordinal (web_server/archive.php);
- a JavaScript dashboard that keeps a live picture of streams, alerts and logs from HTTP snapshots and a WebSocket, and reconnects with exponential backoff (web_server/index.js).

The model has one module per source file:

| module | file |
|---|---|
| `Archive` | archive.php |
| `LiveStore`, `Reconnect`, `Formatting` | index.js |
| `SameHeader` | header.rs |
| `Webhook` | webhook.rs |
| `Alerts` | alerts.rs |
| `Relay` | relay.rs |
| `Audio` | audio.rs |

Three helper modules support them:
- `Wrappers` holds `Option` and `Result`.
- `Text` holds string search, trimming, splitting and decimal digits.
- `LogRoundTrip` connects the log writer in alerts.rs to the log reader in archive.php. It proves that every well-formed alert written to the log comes back as one record, in order, with its own receipt stamp and recording number.

How the source's state is carried:
- State the source updates in place is a class: `Alerts.AlertList`, `LiveStore.LiveState`, `Reconnect.ReconnectController` and `Audio.ChannelReader`.
- The PHP `usort` over the recording listing is an in-place insertion sort on an array, proved equal to a stable sort by modification time.
- Loops in the source are methods with loop invariants, each proved against a specification function. The properties are lemmas about those functions.

The model follows the code in these error cases:
- In archive.php, a line without a `+HHMM-` duration token passes null to `hhmmToSeconds(string)`. That throws, and the whole fetch fails. It does not yield a record with a null field.
- An out-of-range HHMM also throws, and that also fails the whole fetch.
- A line without a `(Received @ …)` stamp, or with a stamp `strtotime` cannot read, gets an expiry equal to the duration alone. PHP adds null or false as 0.

webhook.rs takes `raw_header[9..12]` before it tests the header's length. A header shorter than 12 characters therefore panics there. The `"ZZZ"` image-name fallback is never reached; `Webhook.EventCodeOf` and `Webhook.DiscordEmbedFacts` return `None` for such headers.

## Model

| member | source | states |
|---|---|---|
| Archive.HhmmToSeconds | web_server/archive.php:13-28 | Succeeds exactly for four digits whose last two are below 60. Anything other than four digits is the "4-digit" error. A success is a whole number of minutes below 100 hours. |
| Archive.FormatHhmm | web_server/archive.php:13-28 | Any whole-minute time below 100 hours has a four-digit HHMM spelling. |
| Archive.HhmmOfFormat | web_server/archive.php:13-28 | Formatting a duration as HHMM and parsing it back gives the same duration. |
| Archive.FormatOfHhmm | web_server/archive.php:13-28 | Every HHMM string that parses is the unique spelling of its value. |
| Archive.HhmmExamples | web_server/archive.php:14-27 | "0130" is 5400 s. "0061" fails the range check. "abcd" and "130" fail the format check. |
| Archive.ExtractReceived | web_server/archive.php:97 | A stamp is found exactly when the line ends in ")" and contains "(Received @ ". It is the text between the first marker and the final ")". No marker occurs earlier. |
| Archive.StampReading | web_server/archive.php:97 | A found stamp reads as strtotime's time, or as unreadable when strtotime returns false. |
| Archive.ReceivedOf | web_server/archive.php:97 | The receipt time is missing exactly when the line has no stamp, unreadable exactly when strtotime rejects the stamp, and otherwise strtotime's value of the stamp. |
| Archive.ReceivedSeconds | web_server/archive.php:100 | The receipt time in PHP's addition: null and false count as 0. ParseLine's expiry uses it. |
| Archive.FindLengthToken | web_server/archive.php:98 | Finds the leftmost "+DDDD-" token at or after a position, or shows that there is none. |
| Archive.ExtractLength | web_server/archive.php:98 | The duration is the four digits of the leftmost "+DDDD-" token. It is absent exactly when the line has no such token. |
| Archive.FindEventCodeToken | web_server/archive.php:117 | Finds the leftmost "ZCZC-AAA-BBB-" token with capital letters, or shows that there is none. |
| Archive.ExtractEventCode | web_server/archive.php:117 | The event code is the three capitals after the second hyphen of the leftmost "ZCZC-AAA-BBB-" token. It is absent exactly when no such token occurs. |
| Archive.LazyCapture | web_server/archive.php:118 | The capture runs from the leftmost opening text to the first closing text after it, so it holds no closing text. There is no capture exactly when the opening text is missing or no closing text follows its leftmost occurrence. |
| Archive.CaptureBetween | web_server/archive.php:118 | The leftmost opening text and the first closing text after it capture the text between them, which holds no closing text, so the pattern matches. |
| Archive.FirstPieceOfLazyCapture | web_server/archive.php:102 | A text with no " for" is not cut by explode(" for "). |
| Archive.ExtractEventText | web_server/archive.php:118 | The event text is exactly the lazy capture after "has issued a " up to " for", so the explode on " for " never shortens it. |
| Archive.FindStop | web_server/archive.php:119 | Finds the first '.' or ';' at or after a position, or shows that there is none. |
| Archive.ExtractOriginator | web_server/archive.php:119 | The originator runs from the leftmost "Message from " to the first '.' or ';' after it. It is absent exactly when there is no such marker or no stop follows it. |
| Archive.ExtractLocations | web_server/archive.php:120 | The locations run from the leftmost "for " to the first "; beginning" after it. They are absent exactly when no "; beginning" follows that "for ", or there is none. |
| Archive.ExtractEasText | web_server/archive.php:123 | The message text runs from the leftmost "-: " to the full stop of the last ". (" after it; greedy matching picks the last one. It is absent exactly when no ". (" follows that "-: ", or there is none. |
| Archive.NextCapital | web_server/archive.php:103 | Finds the next capital letter at or after a position, with none skipped. |
| Archive.CapitalWords | web_server/archive.php:103 | The split before each capital gives non-empty words. They concatenate back to the text, and a capital appears only at the start of a word. |
| Archive.CapitalWordsCons | web_server/archive.php:103 | A word with a capital only at its head, followed by a capital, is split off whole. |
| Archive.NextCapitalIs | web_server/archive.php:103 | The next capital is the position with no capital before it. |
| Archive.SeverityIsThirdWordWhenPresent | web_server/archive.php:105-111 | The severity is word 2 lower-cased when it exists, otherwise word 1. The truthiness test never rejects an existing word. |
| Archive.AlertSeverity | web_server/archive.php:102-111 | No event text, or one with fewer than two capital-led words, gives an empty severity. The severity holds no capital letter. |
| Archive.CapitalWordsExample | web_server/archive.php:103 | "Severe Thunderstorm Warning" splits into its three words. |
| Archive.LowerWarning | web_server/archive.php:106 | strtolower("Warning") is "warning". |
| Archive.SeverityExample | web_server/archive.php:102-111 | "Severe Thunderstorm Warning" has severity "warning". |
| Archive.ParseLine | web_server/archive.php:95-126 | The line yields a record exactly when it has a duration token whose HHMM is valid. Otherwise a missing token and an invalid HHMM raise their own errors. The record holds each extractor's result, the severity of its event text, the line's ordinal, its duration and its receipt time. Its expiry is the receipt time (0 when missing) plus the duration. |
| Archive.NonEmptyLines | web_server/archive.php:90-93 | The lines that get a record are the non-empty ones (neither "" nor "0"). There are no more of them than lines. |
| Archive.PhpEmpty | web_server/archive.php:90 | PHP's empty() on a line: true exactly for "" and "0". NonEmptyLines and LinesSplitIntoEmptyAndNumbered use it to skip lines. |
| Archive.LinesSplitIntoEmptyAndNumbered | web_server/archive.php:89-93 | Every line either gets a record or adds one to the index offset. |
| Archive.NumberingStep | web_server/archive.php:89-93 | One more line adds a record, or adds one to the index offset. |
| Archive.NonEmptyLinesPrefix | web_server/archive.php:89-93 | The records of a prefix of the log are a prefix of the log's records. |
| Archive.ParseAll | web_server/archive.php:89-129 | A successful fetch has one record per non-empty line. |
| Archive.ParseAllErrPrefix | web_server/archive.php:89-129 | Once a line fails, the lines after it do not matter. |
| Archive.ParseAllStep | web_server/archive.php:89-129 | The fetch over one more line is the fetch so far, extended or failed by that line. |
| Archive.ParseAllOk | web_server/archive.php:89-129 | The fetch succeeds if and only if every line parses. Record k is then line k's record. |
| Archive.ParseAllErr | web_server/archive.php:89-129 | A failed fetch reports the error of the first line that fails. |
| Archive.FetchLoop | web_server/archive.php:89-129 | The loop with its index offset computes ParseAll over the non-empty lines. |
| Archive.FetchAlerts | web_server/archive.php:83-131 | The endpoint trims the log, splits it at newlines and runs the loop. |
| Archive.FetchAlertsMeaning | web_server/archive.php:83-131 | The endpoint succeeds exactly when every non-empty line parses. Record k is then the k-th non-empty line's record and names recording k. |
| Archive.InsertByMtime | web_server/archive.php:6-8 | Inserting a file adds exactly one element. |
| Archive.SortByMtime | web_server/archive.php:6-8 | The mtime sort keeps the listing's length. |
| Archive.InsertByMtimePermutes | web_server/archive.php:6-8 | Inserting adds exactly the new file. |
| Archive.SortByMtimePermutes | web_server/archive.php:6-8 | The sort is a permutation of the listing. |
| Archive.InsertKeepsSorted | web_server/archive.php:6-8 | Inserting into a sorted listing keeps it sorted by mtime. |
| Archive.SortByMtimeSorted | web_server/archive.php:6-8 | The sort's output is ordered by mtime, oldest first. |
| Archive.SortByMtimeStableOnTies | web_server/archive.php:6-8 | A listing whose files all share one mtime comes out of the sort unchanged. |
| Archive.InsertByMtimeTies | web_server/archive.php:6-8 | An inserted file lands after every file that already has its mtime. |
| Archive.SortByMtimeStable | web_server/archive.php:6-8 | For every mtime, the files with that mtime leave the sort in their listing order, as the stable usort of PHP 8 keeps them. |
| Archive.SortStep | web_server/archive.php:6-8 | Sorting one more file inserts it into the sorted prefix. |
| Archive.InsertPlace | web_server/archive.php:6-8 | The insertion point is after the files no newer and before the newer ones. |
| Archive.InsertedLayout | web_server/archive.php:6-8 | Elements before, at and after a slot make up the spliced sequence. |
| Archive.InsertIntoPrefix | web_server/archive.php:6-8 | One in-place step inserts element i into the sorted prefix and leaves the rest of the array alone. |
| Archive.ShiftNewer | web_server/archive.php:6-8 | Files newer than the one being placed move one slot right. The slot left open sits between older and newer files. |
| Archive.UsortByMtime | web_server/archive.php:6-8 | The in-place sort leaves the array equal to the stable mtime sort of its old contents. |
| Archive.SortedListing | web_server/archive.php:4-8 | The listing is sorted through an array. The result is the mtime sort. |
| Archive.ResolveId | web_server/archive.php:3-11 | An id within the listing names the id-th oldest recording. Any other id names nothing. |
| Archive.LatestId | web_server/archive.php:68-77 | The latest id is the number of recordings minus one, so -1 for an empty directory. |
| Archive.LatestIdNamesNewest | web_server/archive.php:68-77 | For a non-empty listing, ResolveId of the latest id is a newest recording. |
| LiveStore.LogLimit | web_server/index.js:2 | The limit is the parsed number, or 500 when parsing fails or gives 0. It is never 0. |
| LiveStore.LogFetchTail | web_server/index.js:3 | The tail asked of the server is the smaller of the limit and 500. |
| LiveStore.SliceTo | web_server/index.js:80 | slice(0, end) keeps at most end entries. A negative end drops that many from the back. |
| LiveStore.InsertById | web_server/index.js:79 | Inserting a log entry adds exactly one element. |
| LiveStore.SortByIdDesc | web_server/index.js:79 | The id sort keeps the number of entries. |
| LiveStore.InsertByIdPermutes | web_server/index.js:79 | Inserting adds exactly the new entry. |
| LiveStore.SortByIdDescPermutes | web_server/index.js:79 | The id sort is a permutation. |
| LiveStore.InsertByIdSorted | web_server/index.js:79 | Inserting into a newest-first list keeps it newest-first. |
| LiveStore.SortByIdDescSorted | web_server/index.js:79 | The sort's output is ordered by id, newest first. |
| LiveStore.SortByIdDescStableOnTies | web_server/index.js:79 | A buffer whose entries all share one id comes out of the sort unchanged. |
| LiveStore.InsertByIdTies | web_server/index.js:79 | In a newest-first buffer, an inserted entry lands after every entry that already has its id. |
| LiveStore.SortByIdDescStable | web_server/index.js:79 | For every id, the entries with that id leave the sort in the order they went in, as Array.prototype.sort is stable. |
| LiveStore.InsertAtEnd | web_server/index.js:79 | An entry no newer than the rest goes at the end. |
| LiveStore.RetainedShape | web_server/index.js:78-80 | The kept logs are newest first, min(limit, count) long, and drawn from the entries. |
| LiveStore.Retained | web_server/index.js:78-80 | The kept logs: the entries sorted newest first, then sliced to the limit. RetainedShape and RetainedKeepsNewest state what that keeps. |
| LiveStore.RetainedKeepsNewest | web_server/index.js:78-80 | No entry newer than a kept one is dropped. |
| LiveStore.NoDeduplication | web_server/index.js:78-80 | The same entry arriving twice is kept twice. |
| LiveStore.StreamsMapKeys | web_server/index.js:63-67 | The stream map's keys are exactly the listed stream URLs. |
| LiveStore.StreamsMapLast | web_server/index.js:63-67 | A URL maps to its last status in the list. |
| LiveStore.StreamsMap | web_server/index.js:63-67 | The map built by clear() and one set() per listed status, in list order. StreamsMapKeys and StreamsMapLast state its keys and values. |
| LiveStore.StreamsAfter | web_server/index.js:63-67 | The stream map after a status payload: unchanged when streams are missing, the listed map for a list, and empty for a truthy non-list, whose forEach throws after clear(). |
| LiveStore.AlertsAfter | web_server/index.js:64-71 | The alert list after a status payload: replaced by given alerts, and unchanged when alerts are missing or the streams part threw first. |
| LiveStore.StatusThrows | web_server/index.js:62-74 | applyStatusPayload throws when streams is a truthy non-list or when rendering the resulting alerts throws. LiveState.ApplyStatusPayload returns exactly this. |
| LiveStore.LiveState.constructor | web_server/index.js:5-9 | The state starts with no streams, alerts or logs, and with the parsed log limit. |
| LiveStore.LiveState.ApplyStatusPayload | web_server/index.js:62-74 | A list of streams replaces the map, and given alerts replace the alert list. Missing parts leave theirs alone. A truthy `streams` that is not a list empties the map, then throws before the alerts are applied. It reports whether rendering the resulting alerts throws. Logs are untouched. |
| LiveStore.LiveState.RenderAlerts | web_server/index.js:158-196 | Rendering throws exactly when some active alert's event text has none of "warning", "watch", "advisory", "emergency" and "test" in any case, since `severity.toUpperCase()` then runs on undefined. |
| LiveStore.FallbackAlertFailsRender | web_server/index.js:173-183 | The alert list of one fallback alert, whose event text is its event code such as "RWT", makes rendering throw. |
| LiveStore.WarningRenders | web_server/index.js:173-183 | An alert whose text holds "Warning" renders without throwing. |
| LiveStore.HasSeverity | web_server/index.js:173 | An event text has a severity when, lower-cased, it contains warning, watch, advisory, emergency or test. WarningRenders and FallbackAlertFailsRender show both outcomes. |
| LiveStore.RenderAlertsFails | web_server/index.js:171-183 | Rendering fails when some alert has no severity. LiveState.RenderAlerts returns exactly this. |
| LiveStore.LiveState.ApplyLogs | web_server/index.js:76-82 | An array of new entries is merged with the old logs and cut to the limit. Anything else changes nothing. |
| LiveStore.LiveState.ReplaceLogs | web_server/index.js:278-281 | A snapshot's logs replace the old ones, sorted and cut to the limit. |
| LiveStore.LiveState.LoadInitialData | web_server/index.js:251-267 | A status response is applied. A log response replaces the logs, unless applying the status threw first. Failed fetches leave the state alone. |
| LiveStore.LiveState.HandleWsMessage | web_server/index.js:269-308 | Snapshot, Stream, Log and Alerts messages each update their part of the state. A Snapshot whose status part throws keeps what it changed before the throw, and does not replace the logs. Every other malformed, unknown or unparsable message changes nothing. |
| Reconnect.DelayAfterBounds | web_server/index.js:345-349 | The backoff delay never leaves [2 s, 30 s] and never shrinks. It is at the cap from the fifth failure on. |
| Reconnect.NextDelay | web_server/index.js:348 | One more failure multiplies the delay by 1.8 or caps it at 30 s. It never exceeds the cap, and never shrinks a delay within [0, 30 s]. |
| Reconnect.DelayAfter | web_server/index.js:345-349 | The delay after n failures since the last reset: 2 s, then NextDelay applied n times. DelayAfterBounds and DelaySequence state its range and values. |
| Reconnect.DelaySequence | web_server/index.js:348 | The delays run 2000, 3600, 6480, 11664, 20995.2, then 30000 ms. |
| Reconnect.ReconnectController.constructor | web_server/index.js:311 | The controller starts at a 2 s delay with no timers. |
| Reconnect.ReconnectController.ScheduleReconnect | web_server/index.js:345-349 | A timer starts with the current delay. The delay then grows by 1.8, capped at 30 s. |
| Reconnect.ReconnectController.ResetDelay | web_server/index.js:329 | The delay returns to 2 s. No timer starts. |
| Reconnect.ReconnectController.HandleEvent | web_server/index.js:319-361 | Open resets the delay. Close and a failed construction schedule a reconnect. The page becoming visible with the channel closed resets the delay and connects at once. |
| Reconnect.FailRepeatedly | web_server/index.js:345-349 | After k failures in a row, the timers started are DelayAfter(0) to DelayAfter(k-1). |
| Formatting.FormatDuration | web_server/index.js:47-60 | A missing or non-positive duration shows a dash. Anything else ends in a unit letter. |
| Formatting.FormatDurationForms | web_server/index.js:47-60 | h hours, m minutes and s seconds show as "Hh MMm", "Mm SSs" or "Ss", with the second unit padded. |
| Formatting.DivModUnique | web_server/index.js:49-52 | A quotient and remainder with the remainder below the divisor are the ones that division and modulo compute. |
| Formatting.MulAtLeast | web_server/index.js:49-52 | A positive multiple of a positive divisor is at least the divisor. |
| Formatting.PadTwoDigits | web_server/index.js:54 | padStart(2, "0") of a number below 100 is its two-digit form. |
| Formatting.SecondsToHM | web_server/index.js:140-155 | A negative input is "Invalid input". Anything else ends in "m". |
| Formatting.SecondsToHMForms | web_server/index.js:140-155 | h hours and m minutes show as "Hh Mm", or "Mm" without hours. The special "0m" case agrees with that rule. |
| SameHeader.ValidateHeader | src/header.rs:79-93 | A header passes exactly when it is "NNNN" or is ASCII text starting "ZCZC-" and ending "-". Each failure carries its own message, in the source's order. |
| SameHeader.ValidateAmplitude | src/header.rs:95-107 | An amplitude passes exactly when it is finite and within [0, 1]. A non-finite one gets the "finite number" message. |
| SameHeader.LsbBits | src/header.rs:117-123 | Eight bits, least significant first. |
| SameHeader.MsbBits | src/header.rs:109-115 | Eight bits, most significant first. |
| SameHeader.Reverse | src/header.rs:109-115 | Reversal mirrors the positions. |
| SameHeader.MsbIsReversedLsb | src/header.rs:109-123 | MSB-first is LSB-first reversed, and the other way round. |
| SameHeader.BitsRoundTrip | src/header.rs:109-123 | Both bit orders decode back to the byte. |
| SameHeader.PreambleIsAbLsbFirst | src/header.rs:7 | The 0xD5 preamble sent MSB first is the SAME preamble 0xAB sent LSB first. |
| SameHeader.ByteToBitsMsbFirst | src/header.rs:109-115 | The loop produces the MSB-first bits. |
| SameHeader.ByteToBitsLsbFirst | src/header.rs:117-123 | The loop produces the LSB-first bits. |
| SameHeader.HeaderBitsBlock | src/header.rs:130-132 | Block i of the header bits is byte i, LSB first. |
| SameHeader.HeaderBits | src/header.rs:130-132 | Each header byte least significant bit first, eight bits per byte. HeaderBitsBlock states where each byte's bits sit. |
| SameHeader.SameBits | src/header.rs:125-134 | Sixteen 0xD5 preamble bytes most significant bit first, then the header bits. SameBitsLayout, SameBitsPreamble and SameBitsHeader state the layout. |
| SameHeader.Repeat | src/header.rs:65-74 | k copies of a block are k times as long as the block. |
| SameHeader.RepeatBlock | src/header.rs:127-129 | Every block of the repeated preamble is the preamble. |
| SameHeader.SameBitsLayout | src/header.rs:125-134 | The bit stream is (16 + n) bytes of bits. Its first 16 blocks are the preamble, and the rest are the header's bytes LSB first. All are 0 or 1. |
| SameHeader.SameBitsPreamble | src/header.rs:127-129 | The first 16 blocks are the preamble. |
| SameHeader.SameBitsHeader | src/header.rs:130-132 | Block 16 + i is header byte i, LSB first. |
| SameHeader.SameBitsAreBits | src/header.rs:125-134 | Every element of the stream is 0 or 1. |
| SameHeader.RepeatAreBits | src/header.rs:127-129 | Repeating bits gives bits. |
| SameHeader.HeaderBitsAreBits | src/header.rs:130-132 | The header's bits are bits. |
| SameHeader.BuildSameBits | src/header.rs:125-134 | The two loops build exactly that layout. |
| SameHeader.AsciiBytes | src/header.rs:130 | The byte view of an ASCII header holds the character codes. |
| SameHeader.EffectiveRate | src/header.rs:48 | The rate is raised to 8000 Hz when below it. |
| SameHeader.SamplesPerBit | src/header.rs:52-55 | A bit lasts the floor of 1.92 ms of samples at the rate. That is at least 15 at 8000 Hz, so the floor of 1 never applies. |
| SameHeader.TruncateToInt | src/header.rs:143 | The cast truncates toward zero. |
| SameHeader.Clamp | src/header.rs:142 | The clamp stays within its bounds. A value below the range becomes the lower bound, one above it the upper bound, and a value inside it is left alone. |
| SameHeader.ToI16 | src/header.rs:142-143 | The sample always fits in an i16. A value below or above the i16 range saturates to its end. A value within the range is truncated toward zero. |
| SameHeader.ToneCycle | src/header.rs:136-146 | One tone cycle has samples_per_bit samples. Sample i is the truncated, clamped, scaled sine at i / rate. |
| SameHeader.SilentAtZeroAmplitude | src/header.rs:136-146 | At amplitude 0 every tone sample is 0. |
| SameHeader.ToneWithinAmplitude | src/header.rs:136-146 | With a sine in [-1, 1], every sample lies within ±amp·32767. |
| SameHeader.ToneSample | src/header.rs:139-142 | Sample i is amp · sin(2π · f · i / rate), scaled to the i16 range before clamping. ToneWithinAmplitude and SilentAtZeroAmplitude bound it. |
| SameHeader.BurstToneLength | src/header.rs:66-72 | A burst's tone has one cycle per bit. |
| SameHeader.BurstTone | src/header.rs:66-72 | The mark tone for each 1 bit and the space tone for each 0 bit, in bit order. BurstToneLength states its length, and EmitTone builds it by a loop. |
| SameHeader.Zeros | src/header.rs:60 | One second of silence is rate zeros. |
| SameHeader.SameSamplesLength | src/header.rs:61-74 | The output is 3 × ((16 + n)·8·samples_per_bit + rate) samples long. |
| SameHeader.SameSamples | src/header.rs:40-77 | The output is three identical bursts. Each burst ends in one second of silence at the effective rate. |
| SameHeader.RepeatThree | src/header.rs:65-74 | Three repetitions of a block are the block three times, each third equal to it. |
| SameHeader.EmitTone | src/header.rs:66-72 | The bit loop emits the mark or space cycle for each bit. |
| SameHeader.EmitBursts | src/header.rs:65-74 | The burst loop emits three bursts, each followed by silence. |
| SameHeader.GenerateSameHeaderSamples | src/header.rs:40-77 | The header is checked first, then the amplitude, each with its own error. It succeeds exactly when both pass, and then returns the three bursts. |
| Webhook.Escape | src/webhook.rs:480-493 | Escaping never shortens a text and leaves no <, >, " or '. |
| Webhook.EscapeAppend | src/webhook.rs:482-491 | Escaping one more character appends its entity. |
| Webhook.EscapeChar | src/webhook.rs:483-490 | The five special characters become an entity that starts with '&' and ends with ';'. Every other character stays. UnescapeEscape undoes it. |
| Webhook.HtmlEscape | src/webhook.rs:480-493 | The loop computes the escape. |
| Webhook.UnescapeStep | src/webhook.rs:483-490 | Unescaping reads one entity back to its character. |
| Webhook.UnescapeEscape | src/webhook.rs:480-493 | Escaping loses nothing: unescaping gives the text back. |
| Webhook.EscapeIdentity | src/webhook.rs:480-493 | A text without special characters is left as it is. |
| Webhook.CleanEntry | src/webhook.rs:52-57 | A leading '-' and the whitespace after it are dropped. Other lines stay whole. |
| Webhook.EntryOfLine | src/webhook.rs:50-51 | A line gives an entry exactly when, trimmed, it is non-empty and not a comment. |
| Webhook.KeptLine | src/webhook.rs:51 | A trimmed line is kept when it is non-empty and does not start with '#'. EntryOfLine states that it decides the entries. |
| Webhook.ConfigEntriesOf | src/webhook.rs:48-58 | There are no more entries than lines. |
| Webhook.ConfigEntriesAppend | src/webhook.rs:48-58 | The entries of two blocks of lines are the entries of each, in order. |
| Webhook.ConfigEntriesOneByOne | src/webhook.rs:48-58 | The entries are the per-line entries, flattened in order. |
| Webhook.ConfigEntriesAllKept | src/webhook.rs:48-58 | When every line is kept, entry j is line j trimmed and cleaned. |
| Webhook.ConfigEntriesNoneKept | src/webhook.rs:48-58 | Blank and comment lines give no entries. |
| Webhook.AppriseConfigEntries | src/webhook.rs:48-58 | The entries of the config are each line's entry, flattened in the order of the lines, and no more than the lines. |
| Webhook.EntryIsTrimmed | src/webhook.rs:50-56 | No entry starts or ends with whitespace. |
| Webhook.TrimStartMatches | src/webhook.rs:272 | Only whole leading copies of the prefix are removed, and the rest does not start with it. |
| Webhook.PrependCopy | src/webhook.rs:272 | One more copy of the prefix is still a run of copies. |
| Webhook.TargetOfEntry | src/webhook.rs:217-221 | An entry gives a target exactly when, trimmed, it starts with "discord://". The target is "https://discord.com/api/webhooks/" followed by the trimmed entry with every leading "discord://" removed, so its path does not start with another "discord://". |
| Webhook.DiscordTargets | src/webhook.rs:217-273 | There are no more targets than entries. |
| Webhook.DiscordTargetsWellFormed | src/webhook.rs:217-273 | Every target is a Discord webhook URL without a leftover scheme. |
| Webhook.DiscordTargetsAppend | src/webhook.rs:217-273 | The targets of two blocks of entries are the targets of each, in order. |
| Webhook.DiscordTargetsOneByOne | src/webhook.rs:217-273 | The targets are the per-entry targets, in order. |
| Webhook.TrimStartMatchesExample | src/webhook.rs:272 | A doubled scheme is removed entirely. |
| Webhook.ColorHex | src/webhook.rs:358-367 | "test" beats "advisory" or "watch", which beat "warning" or "emergency", and anything else is grey. The match ignores case, and the result is six hex digits. |
| Webhook.ColorHexCaseInsensitive | src/webhook.rs:358-367 | Lower-casing the title does not change the colour. |
| Webhook.ColorValues | src/webhook.rs:369-376 | The four colours read in base 16 are 1070899, 16776960, 16711680 and 8421504. |
| Webhook.HexValue | src/webhook.rs:369 | u32::from_str_radix(s, 16) on hex digits. ColorValues gives its value on the four colours. |
| Webhook.ColorField | src/webhook.rs:358-375 | The colour field is a decimal string whose value is the chosen hex colour read in base 16, so one of 1070899, 16776960, 16711680 and 8421504. |
| Webhook.EventCodeOf | src/webhook.rs:346-349 | An event code exists exactly for headers of at least 12 characters. It is the ASCII letters of characters 9 to 11, so at most three letters. |
| Webhook.Letters | src/webhook.rs:347-349 | The filter keeps only ASCII letters and keeps an all-letter text whole. A single character is kept exactly when it is a letter. |
| Webhook.LettersAppend | src/webhook.rs:347-349 | The filter works character by character: the letters of a concatenation are the letters of each part, in order. |
| Webhook.ImgNameIsEventCode | src/webhook.rs:352-356 | Whenever the event code exists, the image name is that code. |
| Webhook.ImgName | src/webhook.rs:352-356 | A header of at least 12 characters gets its event code as image name, a shorter one "ZZZ". |
| Webhook.EventCodeOfSameHeader | src/webhook.rs:346-349 | A "ZCZC-ORG-EEE…" header gives the event code EEE. |
| Webhook.LastIndexOf | src/webhook.rs:22-27 | Finds the last index holding a URL, or shows that the URL is absent. |
| Webhook.MonitorNumber | src/webhook.rs:345 | A configured stream's number is a 1-based index holding its URL, the last one when the URL repeats. An unknown stream is 999. |
| Webhook.MonitorNumberOfUnique | src/webhook.rs:22-27 | A stream listed once is numbered by its position plus one. |
| Webhook.DiscordEmbedFacts | src/webhook.rs:345-376 | The embed exists exactly for headers of at least 12 characters. Its image is its event code, and its colour is the hex colour read in base 16. |
| Alerts.AnyWatched | src/alerts.rs:32-35 | Holds exactly when some location code is watched. |
| Alerts.IsAlertRelevant | src/alerts.rs:25-36 | Every alert is relevant when nothing is watched, and so is a nationwide (000000) alert. Otherwise an alert is relevant exactly when it names a watched code. |
| Alerts.RelevanceMonotone | src/alerts.rs:25-36 | Watching more codes never makes an alert irrelevant. |
| Alerts.AlertDataFor | src/alerts.rs:52-62 | The decoder's record when it succeeded. Otherwise the EAS text is "Decoder script failed.", and the event code stands in for the event text, with no location codes. |
| Alerts.FallbackAlertData | src/alerts.rs:54-61 | The fallback record says "Decoder script failed.", uses the event code as both event code and event text, has no FIPS codes, and keeps the header's locations and originator. |
| Alerts.FallbackRelevance | src/alerts.rs:52-64 | A fallback alert is relayed only when nothing is watched. |
| Alerts.Filter | src/alerts.rs:71-73 | Vec::retain keeps exactly the elements that pass, and never adds one. |
| Alerts.FilterAppend | src/alerts.rs:71-73 | Retain works element by element, in order. |
| Alerts.FilterAll | src/alerts.rs:236-238 | When every element passes, nothing is removed. |
| Alerts.FilterSplitCount | src/alerts.rs:234-239 | The kept and the removed elements add up to the whole. |
| Alerts.FilterShrinks | src/alerts.rs:234-239 | Something is removed exactly when some element fails. |
| Alerts.AfterInsert | src/alerts.rs:71-74 | The new alert comes last. Before it are exactly the old alerts that are live and have another header. The header appears nowhere else. |
| Alerts.AfterCleanup | src/alerts.rs:236-238 | What remains are exactly the unexpired alerts. |
| Alerts.KeepOnInsert | src/alerts.rs:71-73 | Insert keeps an alert that has not expired and has another header. AfterInsert states the result. |
| Alerts.Live | src/alerts.rs:238 | Cleanup keeps an alert that has not expired. AfterCleanup and CleanupIdempotent state the result. |
| Alerts.Expired | src/alerts.rs:233-239 | The alerts cleanup removes. CleanupCount counts them. |
| Alerts.FilterKeepsDistinct | src/alerts.rs:71-73 | Retain keeps the headers distinct. |
| Alerts.InsertKeepsDistinct | src/alerts.rs:71-74 | Inserting keeps at most one active alert per header. |
| Alerts.CleanupAfterInsert | src/alerts.rs:71-74 | Cleanup at the same instant removes nothing a live insert kept. |
| Alerts.CleanupIdempotent | src/alerts.rs:233-239 | A second cleanup at the same instant changes nothing. |
| Alerts.CleanupCount | src/alerts.rs:234-239 | The count removed is the number of expired alerts. It is positive exactly when one has expired. |
| Alerts.AlertList.constructor | src/alerts.rs:71-74 | The list starts empty. |
| Alerts.AlertList.Retain | src/alerts.rs:71-73 | The list becomes its filtered old contents. |
| Alerts.AlertList.InsertAlert | src/alerts.rs:71-74 | The list becomes AfterInsert of its old contents, keeping headers distinct. |
| Alerts.AlertList.Cleanup | src/alerts.rs:233-239 | The list becomes its unexpired alerts. The reported count is the number removed. |
| Alerts.FileDecision | src/alerts.rs:295-331 | Never both files. The severe file exists exactly when some alert is SVR, TOR or TOA. The rainy file exists exactly when none is and some alert is SVA. |
| Alerts.FileDecisionIgnoresOrder | src/alerts.rs:295-306 | The decision depends only on which alerts are active, not on their order. |
| Alerts.SevereAlertMakesSevereDay | src/alerts.rs:71-74 | Inserting a severe alert always leads to the severe file and never to the rainy one. |
| Alerts.Hour12 | src/alerts.rs:273 | The 12-hour clock hour is 1 to 12 and agrees with the hour modulo 12. |
| Alerts.FormatYear | src/alerts.rs:273 | A year below 10000 is four digits. |
| Alerts.SpacePaddedHour | src/alerts.rs:273 | "%l" is two characters wide. |
| Alerts.DatePart | src/alerts.rs:273 | The date has no space. |
| Alerts.Meridiem | src/alerts.rs:273 | `%p`: "AM" before noon, "PM" from noon. |
| Alerts.ClockTail | src/alerts.rs:273 | ":%M:%S %p" is nine characters: a colon, two minute digits, a colon, two second digits, a space and the meridiem. |
| Alerts.TimestampAsWrittenGluesHour | src/alerts.rs:273 | As written, a two-digit hour follows the day digits with no separator. |
| Alerts.TimestampAsWrittenExample | src/alerts.rs:273 | 10:20:30 AM on 2024-05-01 is written "2024-05-0110:20:30 AM". |
| Alerts.TimestampSeparatesDate | src/alerts.rs:273 | The corrected stamp always has one space between the date and the hour. |
| Alerts.TimestampAsWritten | src/alerts.rs:273 | "%Y-%m-%d%l:%M:%S %p" as written: the date, a two-character hour, then the minutes, seconds and meridiem. |
| Alerts.Timestamp | src/alerts.rs:273 | The corrected stamp is the date, a space, the hour and the same clock tail. |
| Alerts.LogLine | src/alerts.rs:274-277 | The log line starts with the raw header and ": " and ends in " (Received @ stamp)". It is 16 characters longer than its three parts, and has no newline when they have none. |
| Alerts.LogEntry | src/alerts.rs:274-277 | The entry appended to the log is the log line and then "\n\n". |
| LogRoundTrip.Lines | src/alerts.rs:274-277 | One log line per alert, in order. |
| LogRoundTrip.Line | src/alerts.rs:274-277 | One alert's log line. LineShape states its layout. |
| LogRoundTrip.Written | src/alerts.rs:274-284 | The log file after appending each alert's entry in order. WrittenIsBody and FetchSeesEveryAlert read it back. |
| LogRoundTrip.LineShape | src/alerts.rs:274-277 | A line is "header: text (Received @ stamp)". It has no newline, starts with the header and is not PHP-empty. |
| LogRoundTrip.WrittenIsBody | src/alerts.rs:274-284 | The appended file is the lines joined by blank lines, plus a final blank line. |
| LogRoundTrip.BodyEnds | src/alerts.rs:274-284 | The body starts with a character trim() keeps and ends with ")". |
| LogRoundTrip.TrimWritten | web_server/archive.php:84 | trim() removes exactly the two trailing newlines. |
| LogRoundTrip.SplitBody | web_server/archive.php:84 | Splitting the body at newlines gives the lines with an empty line between each two. |
| LogRoundTrip.SplitBlankThen | web_server/archive.php:84 | A line followed by a blank line splits into the line, "", and the rest. |
| LogRoundTrip.NonEmptyLinesAppend | web_server/archive.php:90-93 | The records of two blocks of lines are the records of each. |
| LogRoundTrip.NonEmptyOfSpaced | web_server/archive.php:90-93 | The blank lines between records are skipped, and every real line is kept. |
| LogRoundTrip.LinesBounded | src/alerts.rs:274-277 | Every well-formed line starts with a character trim() keeps and ends with ")". |
| LogRoundTrip.LinesReadable | src/alerts.rs:274-277 | Every well-formed line has no newline and is not PHP-empty. |
| LogRoundTrip.TrimmedBody | web_server/archive.php:84 | trim() of the written file gives back the body. |
| LogRoundTrip.TrimmedWritten | web_server/archive.php:84 | trim() of the written file is the lines joined by blank lines. |
| LogRoundTrip.ArchiveReadsWrittenLog | web_server/archive.php:84-93 | The archive reads back exactly the written lines, in order. An empty log is one empty line. |
| LogRoundTrip.OccursInPrefix | web_server/archive.php:97 | A match inside a prefix is a match in the prefix. |
| LogRoundTrip.NoEarlierMarker | web_server/archive.php:97 | With no marker in the preamble, no marker starts before the real one. |
| LogRoundTrip.MarkerFound | web_server/archive.php:97 | The written marker is found. |
| LogRoundTrip.MarkerReadsBack | web_server/archive.php:97 | The stamp between the first marker and the closing ")" is the one written. |
| LogRoundTrip.ReceivedStampReadsBack | web_server/archive.php:97 | Every well-formed alert's line gives back its own stamp. |
| LogRoundTrip.FetchSeesEveryAlert | web_server/archive.php:83-129 | Fetching the written log succeeds exactly when each alert's line parses. It then has one record per alert, each numbered by position and stamped with that alert's time. |
| LogRoundTrip.ParseAlertLines | web_server/archive.php:89-129 | The loop over the alerts' lines yields one record per alert, numbered and stamped. |
| LogRoundTrip.RecordOfAlert | web_server/archive.php:97-124 | An alert's record names its position and carries its own receipt time. |
| Relay.NewRelayState | src/relay.rs:17-23 | Construction fails exactly when relaying is on without a destination, with the source's message. |
| Relay.ChosenRule | src/relay.rs:35-37 | The matched rule, or relay under "Default Filter" when none matched. |
| Relay.AudioSegments | src/relay.rs:80-90 | The intro if set, the recording, then the outro if set. |
| Relay.Interleave | src/relay.rs:98-104 | 2n - 1 segments, with the files at even places and a silence at each odd place. |
| Relay.SegmentsNeverEmpty | src/relay.rs:106-108 | There are always 1, 3 or 5 segments, so the "no segments" and "no inputs" errors cannot happen. |
| Relay.SegmentArgs | src/relay.rs:125-142 | A file is declared as "-i" and its path. A silence is "-f lavfi -t 1 -i" with the null source in the target layout and rate. |
| Relay.SilenceSource | src/relay.rs:137-140 | The lavfi null source in the target channel layout and sample rate. SegmentArgs states the silence input built with it. |
| Relay.InputArgs | src/relay.rs:125-144 | The input arguments of all segments in order. InputArgsAppend and InputArgsSnoc state how they compose, and AddInputs builds them by a loop. |
| Relay.InputArgsAppend | src/relay.rs:125-144 | The input arguments of two runs of segments are those of each, in order. |
| Relay.InputArgsSnoc | src/relay.rs:125-144 | One more segment appends its own arguments. |
| Relay.ResampleFilters | src/relay.rs:152-162 | Filter i resamples input i. |
| Relay.Labels | src/relay.rs:152-162 | Label i is "[si]". |
| Relay.FilterGraphOf | src/relay.rs:150-172 | One resample stage per input, plus a concat stage when there are several. The output is [outa] then, and [s0] otherwise. |
| Relay.LabelsDistinct | src/relay.rs:161 | Different inputs get different labels. |
| Relay.ResampleFilterLabel | src/relay.rs:153-160 | Stage i reads "[i:a]" and writes "[si]". |
| Relay.ResampleFilter | src/relay.rs:153-160 | Input i's resampling stage in the target rate and layout. ResampleFilterLabel states its input and output labels. |
| Relay.ConcatStage | src/relay.rs:166-170 | The concat stage over the labels of all n inputs, writing "[outa]". FilterGraphOf places it after the resampling stages. |
| Relay.BundleMapsConcatIffFramed | src/relay.rs:164-172 | The bundle maps the concat output exactly when an intro or an outro is set. |
| Relay.OrderSegments | src/relay.rs:98-104 | The loop builds the interleaving. |
| Relay.AddInputs | src/relay.rs:118-144 | The loop adds one input per segment and counts them. |
| Relay.BundleOutputArgs | src/relay.rs:174-180 | After the inputs come the filter graph, the mapped output label, the encoding options and the bundle path, last. |
| Relay.PrepareArgs | src/relay.rs:118-180 | The bundle command is the fixed prefix, then every segment's inputs in order, then "-filter_complex" with the graph joined by ";", "-map" with the graph's output label, and the bundle path last. |
| Relay.StreamArgs | src/relay.rs:195-209 | The stream command reads the bundle in real time ("-re -i"), copies the audio without re-encoding, and ends with the destination. |
| Relay.RelayPlan | src/relay.rs:118-209 | The plan is always two commands. The bundle command writes the path that the stream command reads, and the stream goes to the configured Icecast relay. |
| Relay.BuildFilterGraph | src/relay.rs:150-172 | The loops build that filter graph. |
| Relay.StartRelay | src/relay.rs:25-180 | Ignore and Log skip the relay. An empty recording path or an unset destination fails, each with its message. Otherwise the bundle and stream commands are produced. |
| Audio.ChannelReader.constructor | src/audio.rs:32-36 | The reader starts with an empty buffer and every chunk still in the channel. |
| Audio.ChannelReader.Read | src/audio.rs:38-55 | Copies min(remaining, buf.len()) bytes of the current chunk, first taking the next one when the current chunk is used up. It reports 0 once the channel is closed. The decoder only ever sees a prefix of the stream. |
| Audio.ChannelReader.TakeNext | src/audio.rs:40-45 | The next chunk becomes the buffer, read from position 0. |
| Audio.CopyInto | src/audio.rs:51 | copy_from_slice fills exactly the first n slots. |
| Audio.Min | src/audio.rs:49 | The copy count is the smaller of the two lengths. |
| Audio.DecodedStep | src/audio.rs:294-298 | A packet adds its samples, or none when it failed or was empty. |
| Audio.PacketSamples | src/audio.rs:294-298 | A decoded packet's samples, or none for a packet that failed or was empty. DecodedStep uses it. |
| Audio.DecodedSamples | src/audio.rs:283-398 | The samples of all packets that decoded, in order. DecodedStep adds one packet, and ProcessStream cuts these samples into chunks. |
| Audio.DrainChunks | src/audio.rs:336-398 | Whole 2048-sample chunks are cut off the front, and fewer than 2048 stay behind. |
| Audio.UniformLength | src/audio.rs:336-398 | k chunks of 2048 samples hold 2048·k samples. |
| Audio.UniformSlices | src/audio.rs:336-398 | Same-size chunks are consecutive slices of their concatenation. |
| Audio.Feed | src/audio.rs:335-398 | Appending a packet and draining loses and invents no sample. |
| Audio.ProcessStream | src/audio.rs:283-398 | The chunks processed are exactly the consecutive 2048-sample slices of all decoded samples. Fewer than 2048 samples wait. |
| Audio.ChunkLayout | src/audio.rs:336-398 | Whole chunks followed by less than a chunk are the slices of the whole, as many as fit. |
| Audio.PurgeSeconds | src/audio.rs:368-370 | A negative valid duration counts as 0 seconds, and others are kept. |
| Text.TrimBy | web_server/archive.php:84 | After trim, the text neither starts nor ends with a trim character. |
| Text.TrimByIsSlice | web_server/archive.php:84 | Trim keeps one contiguous slice of the text; everything cut from either end is a trim character. |
| Text.TrimPhp | web_server/archive.php:84 | PHP trim leaves no space, tab, newline, carriage return, NUL or vertical tab at either end, and never lengthens the text. |
| Text.TrimRust | src/webhook.rs:50 | str::trim leaves no Unicode white space at either end, and never lengthens the text. |
| Text.RustLines | src/webhook.rs:49 | No line of str::lines holds a newline. A text without a newline is one line, unchanged (a final bare carriage return stays), or no line when empty. |
| Text.RustLinesKeepsFinalCr | src/webhook.rs:49 | "a\r" is the one line "a\r": a carriage return with no newline after it is kept. |
| Text.RustLinesStripsCrlf | src/webhook.rs:49 | "x\r\ny" is the lines "x" and "y": the carriage return of a "\r\n" ending is stripped. |
| Text.StripCr | src/webhook.rs:49 | Stripping the line before a newline removes one final carriage return or nothing. |
| Text.Split | web_server/archive.php:84 | explode gives at least one piece, none holding the separator. |
| Text.JoinSplit | web_server/archive.php:84 | Joining the pieces with the separator gives the text back. |
| Text.ToLower | web_server/archive.php:106 | Lower-casing maps each character. |
| Text.NatToStringRoundTrip | src/webhook.rs:374 | The decimal spelling of a number reads back as that number. |

## Left out

- Session handling, authentication, HTML pages and the recording download in archive.php are out of scope. So are file and directory reads: the log contents and the recording listing are parameters.
- `strtotime` is an abstract parameter. PHP's date parsing is out of scope.
- Regular expressions are modelled as leftmost substring searches, one per pattern; no general regex engine is modelled.
- The `:(\d{2}) [AP]M\)` match in fetch_alerts is not modelled; its result is never used.
- Archive.ResolveId: the id is an integer. archive.php indexes `$files` with the raw `recording_id` query string, and PHP's key conversion is not modelled: keys such as "01", " 1" or "1.0" find no file there, while the model's integer 1 does.
- Archive.ParseLine: `audio_recording` is the ordinal alone, without the "archive.php?recording_id=" prefix, and the record is not JSON-encoded.
- In index.js, DOM rendering, `fetch`, the WebSocket object, `setTimeout`, `setInterval` and the connection status text (including its `Math.round`) are left out. Messages arrive already parsed into `LiveStore.WsMessage`.
- LiveStore.LiveState.RenderAlerts: only the missing severity word is modelled as a throw. An alert without `data` or without `purge_time` would also throw in the same template; the model's alerts always have both.
- LiveStore.LiveState.ApplyStatusPayload: `renderStreams` and `renderLogs` are taken not to throw. A stream status without a URL could make the sort's `localeCompare` throw, depending on which pairs the sort compares. A truthy `active_alerts` that is not an array is not modelled; the model's alerts are a list or absent.
- LiveStore.LiveState.RenderAlerts: the cards drawn before the throw, their order by `received_at` and the alert count text are DOM output and are not modelled.
- The WebSocket "error" handler is not modelled on its own: it closes the channel, and the "close" event it causes is modelled.
- JavaScript numbers are exact reals or integers. IEEE rounding and NaN are not modelled.
- Formatting.FormatDuration: non-numeric and NaN inputs are not modelled.
- Reconnect.DelaySequence: the delays are exact decimals. Floating-point rounding of 1.8 is not modelled.
- LiveStore.LogLimit: `parseInt` is a parameter (`None` when it yields NaN).
- SameHeader.SamplesPerBit: computes floor(rate · 192 / 100000) in exact arithmetic rather than the f64 floor of `rate * 0.00192`. The two agree for every u32 rate: the f64 nearest 0.00192 lies just above it, and rate · 192 / 100000 is either whole or at least 1/3125 below the next whole number, far more than the rounding error.
- SameHeader.ToneCycle: sine is an abstract function, and the time and phase are exact reals. f64 rounding is not modelled.
- SameHeader.ValidateAmplitude: an f64 is a real or "not finite". NaN and the infinities are not told apart.
- filter.rs (`match_filter`, `determine_filter_name`) is not part of this model. The matched rule is a parameter.
- Relay.StartRelay: running ffmpeg, its exit status and the temporary file are left out. The result is the two commands.
- Icecast streaming, the HTTP client, symphonia decoding and resampling, down-mixing to mono, and the sameold SAME decoder in audio.rs are out of scope. Packets arrive as already-decoded sample sequences, and the resampler and decoder are what each processed chunk is passed to.
- Audio.ChannelReader.Read: blocking on an empty channel is not modelled. The reader's pending chunks stand for everything the sender will deliver.
- Concurrency is out of scope: the tokio tasks, the mutex around the alert list, and the recording and broadcast channels.
- Alerts.FileDecision: the files are not created or removed. The model states which of the two should exist.
- The decoder script (decoder.py), cleanup.rs, main.rs and the event icons are not part of this model. The decoder's outcome is `Option<EasAlertData>`.
- Use of the current time is replaced by a `now` parameter. Time zones are replaced by a given local time.
- In webhook.rs, the multipart upload, the DASDEC and AppRise command line, the HTTP posts and the embed's remaining text fields are left out.
- Webhook.EventCodeOf: byte slicing of non-ASCII headers, which can panic elsewhere in Rust, is modelled as slicing characters.

## Findings

| source | as written | input that shows it | evidently intended | confidence | as-written member | corrected member |
|---|---|---|---|---|---|---|
| src/alerts.rs:273 | The receipt stamp's format "%Y-%m-%d%l:%M:%S %p" has no space before `%l`. `%l` pads only one-digit hours, so from 10 to 12 o'clock the hour is glued to the day. | 10:20:30 AM on 2024-05-01 gives "2024-05-0110:20:30 AM". | One separator between the date and the hour for every hour, as for hours 1 to 9. | not executed | Alerts.TimestampAsWrittenGluesHour | Alerts.TimestampSeparatesDate |
