/** The monitoring page's client-side state (web_server/index.js): the
    streams keyed by URL, the active alerts and a bounded log buffer, and how
    snapshots and live delta messages update them. */
module LiveStore {
  import opened Wrappers
  import opened Text

  /** A stream's URL as a map key; `None` is JavaScript's `undefined`, the key
      a status without a URL is filed under. */
  type StreamKey = Option<String>

  /** A stream's status as the server reports it; everything but the URL is
      carried along untouched. */
  datatype StreamStatus = StreamStatus(streamUrl: StreamKey, details: String)

  /** An active alert as displayed: the client stores and replaces them, and
      reads the event text to label the alert's severity. */
  datatype AlertView = AlertView(rawHeader: String, receivedAt: int, eventText: String)

  /** A server log line with its server-assigned id. */
  datatype LogEntry = LogEntry(id: int, message: String)

  // ----------------------------------------------------------- limits

  /** The configured log limit: the parsed setting, or 500 when it does not
      parse (`None`, JavaScript's NaN) or parses to zero. */
  function LogLimit(parsed: Option<int>): (r: int)
    ensures r != 0
    ensures parsed.None? || parsed == Some(0) ==> r == 500
    ensures parsed.Some? && parsed.value != 0 ==> r == parsed.value
  {
    match parsed
    case None => 500
    case Some(n) => if n == 0 then 500 else n
  }

  /** The tail asked of the log endpoint: never more than 500 entries. */
  function LogFetchTail(limit: int): (r: int)
    ensures r <= 500 && r <= limit && (r == 500 || r == limit)
  {
    if limit < 500 then limit else 500
  }

  /** JavaScript's `slice(0, end)`: a negative end counts from the back. */
  function SliceTo<T>(s: seq<T>, end: int): (r: seq<T>)
    ensures 0 <= end ==> r == s[..if end < |s| then end else |s|]
    ensures end < 0 ==> r == s[..if |s| + end > 0 then |s| + end else 0]
  {
    if end >= 0 then s[..if end < |s| then end else |s|]
    else s[..if |s| + end > 0 then |s| + end else 0]
  }

  // ------------------------------------------------------------ log order

  /** Newest first: ids never increase along the buffer. */
  predicate SortedByIdDesc(s: seq<LogEntry>) {
    forall i, j :: 0 <= i < j < |s| ==> s[i].id >= s[j].id
  }

  /** Places `e` after every entry whose id is at least its own. */
  function InsertById(s: seq<LogEntry>, e: LogEntry): (r: seq<LogEntry>)
    ensures |r| == |s| + 1
  {
    if s == [] || s[0].id < e.id then [e] + s
    else [s[0]] + InsertById(s[1..], e)
  }

  /** `sort((a, b) => b.id - a.id)`: JavaScript's sort is stable, so entries
      with equal ids keep their relative order. */
  function SortByIdDesc(s: seq<LogEntry>): (r: seq<LogEntry>)
    ensures |r| == |s|
  {
    if s == [] then [] else InsertById(SortByIdDesc(s[..|s| - 1]), s[|s| - 1])
  }

  lemma {:induction false} InsertByIdPermutes(s: seq<LogEntry>, e: LogEntry)
    ensures multiset(InsertById(s, e)) == multiset(s) + multiset{e}
  {
    if !(s == [] || s[0].id < e.id) {
      InsertByIdPermutes(s[1..], e);
      assert s == [s[0]] + s[1..];
    }
  }

  /** Sorting only reorders the entries. */
  lemma {:induction false} SortByIdDescPermutes(s: seq<LogEntry>)
    ensures multiset(SortByIdDesc(s)) == multiset(s)
  {
    if s != [] {
      var init := s[..|s| - 1];
      assert s == init + [s[|s| - 1]];
      SortByIdDescPermutes(init);
      InsertByIdPermutes(SortByIdDesc(init), s[|s| - 1]);
    }
  }

  lemma {:induction false} InsertByIdSorted(s: seq<LogEntry>, e: LogEntry)
    requires SortedByIdDesc(s)
    ensures SortedByIdDesc(InsertById(s, e))
  {
    if !(s == [] || s[0].id < e.id) {
      var rest := s[1..];
      assert SortedByIdDesc(rest);
      InsertByIdSorted(rest, e);
      InsertByIdPermutes(rest, e);
      var r := InsertById(rest, e);
      forall i | 0 <= i < |r| ensures s[0].id >= r[i].id {
        assert r[i] in multiset(r);
        if r[i] != e {
          assert r[i] in multiset(rest);
          var k :| 0 <= k < |rest| && rest[k] == r[i];
          assert s[k + 1] == r[i];
        }
      }
    }
  }

  /** The sorted buffer is newest first. */
  lemma {:induction false} SortByIdDescSorted(s: seq<LogEntry>)
    ensures SortedByIdDesc(SortByIdDesc(s))
  {
    if s != [] {
      SortByIdDescSorted(s[..|s| - 1]);
      InsertByIdSorted(SortByIdDesc(s[..|s| - 1]), s[|s| - 1]);
    }
  }

  /** Entries sharing one id keep their order: no reordering among equals. */
  lemma {:induction false} SortByIdDescStableOnTies(s: seq<LogEntry>, id: int)
    requires forall k :: 0 <= k < |s| ==> s[k].id == id
    ensures SortByIdDesc(s) == s
  {
    if s != [] {
      var init := s[..|s| - 1];
      SortByIdDescStableOnTies(init, id);
      InsertAtEnd(init, s[|s| - 1]);
      assert init + [s[|s| - 1]] == s;
    }
  }

  /** The entries with id `id`, in buffer order. */
  function WithId(s: seq<LogEntry>, id: int): seq<LogEntry> {
    if s == [] then [] else (if s[0].id == id then [s[0]] else []) + WithId(s[1..], id)
  }

  lemma {:induction false} WithIdAppend(a: seq<LogEntry>, b: seq<LogEntry>, id: int)
    ensures WithId(a + b, id) == WithId(a, id) + WithId(b, id)
    decreases |a|
  {
    if a == [] {
      assert a + b == b;
    } else {
      var c, t := a + b, if a[0].id == id then [a[0]] else [];
      assert c[0] == a[0] && c[1..] == a[1..] + b;
      WithIdAppend(a[1..], b, id);
      assert WithId(c, id) == t + (WithId(a[1..], id) + WithId(b, id));
      assert WithId(a, id) == t + WithId(a[1..], id);
    }
  }

  lemma {:induction false} WithIdNone(s: seq<LogEntry>, id: int)
    requires forall k :: 0 <= k < |s| ==> s[k].id < id
    ensures WithId(s, id) == []
    decreases |s|
  {
    if s != [] {
      WithIdNone(s[1..], id);
    }
  }

  /** In a newest-first buffer, `e` goes after every entry with its id. */
  lemma {:induction false} InsertByIdTies(s: seq<LogEntry>, e: LogEntry, id: int)
    requires SortedByIdDesc(s)
    ensures WithId(InsertById(s, e), id) == WithId(s, id) + (if e.id == id then [e] else [])
    decreases |s|
  {
    if s == [] {
    } else if s[0].id < e.id {
      var r := [e] + s;
      assert r[0] == e && r[1..] == s;
      if e.id == id {
        WithIdNone(s, id);
      }
    } else {
      var r := [s[0]] + InsertById(s[1..], e);
      assert r[0] == s[0] && r[1..] == InsertById(s[1..], e);
      InsertByIdTies(s[1..], e, id);
    }
  }

  /** JavaScript's sort is stable: for every id, the entries with that id
      come out of the sort in the order they went in. */
  lemma {:induction false} SortByIdDescStable(s: seq<LogEntry>, id: int)
    ensures WithId(SortByIdDesc(s), id) == WithId(s, id)
  {
    if s != [] {
      var init, last := s[..|s| - 1], s[|s| - 1];
      SortByIdDescStable(init, id);
      SortByIdDescSorted(init);
      InsertByIdTies(SortByIdDesc(init), last, id);
      WithIdAppend(init, [last], id);
      assert init + [last] == s;
    }
  }

  lemma {:induction false} InsertAtEnd(s: seq<LogEntry>, e: LogEntry)
    requires forall k :: 0 <= k < |s| ==> s[k].id >= e.id
    ensures InsertById(s, e) == s + [e]
  {
    if s != [] {
      InsertAtEnd(s[1..], e);
      assert [s[0]] + (s[1..] + [e]) == s + [e];
    }
  }

  /** The buffer kept from a list of entries: newest first, cut at the limit. */
  function Retained(entries: seq<LogEntry>, limit: int): seq<LogEntry> {
    SliceTo(SortByIdDesc(entries), limit)
  }

  /** What is kept is newest first, at most `limit` long, and drawn from the
      entries. */
  lemma RetainedShape(entries: seq<LogEntry>, limit: int)
    requires limit >= 0
    ensures var r := Retained(entries, limit);
            SortedByIdDesc(r)
            && |r| == (if limit < |entries| then limit else |entries|)
            && multiset(r) <= multiset(entries)
  {
    var sorted := SortByIdDesc(entries);
    SortByIdDescSorted(entries);
    SortByIdDescPermutes(entries);
    var k := if limit < |sorted| then limit else |sorted|;
    assert sorted == sorted[..k] + sorted[k..];
    assert multiset(sorted) == multiset(sorted[..k]) + multiset(sorted[k..]);
  }

  /** No entry newer than a kept one is left out. */
  lemma RetainedKeepsNewest(entries: seq<LogEntry>, limit: int)
    requires limit >= 0
    ensures var r := Retained(entries, limit);
            forall x, y :: x in r && y in entries && y.id > x.id ==> y in r
  {
    var sorted := SortByIdDesc(entries);
    SortByIdDescSorted(entries);
    SortByIdDescPermutes(entries);
    var k := if limit < |sorted| then limit else |sorted|;
    var r := sorted[..k];
    forall x, y | x in r && y in entries && y.id > x.id ensures y in r {
      assert y in multiset(sorted);
      var j :| 0 <= j < |sorted| && sorted[j] == y;
      var i :| 0 <= i < |r| && r[i] == x;
      assert sorted[i] == x;
      assert j < k;
      assert r[j] == y;
    }
  }

  /** The same entry arriving twice is kept twice: there is no
      de-duplication by id. */
  lemma NoDeduplication(e: LogEntry)
    ensures Retained([e] + [e], 2) == [e, e]
  {
    SortByIdDescStableOnTies([e] + [e], e.id);
  }

  // ------------------------------------------------------------- streams

  /** Filing each status under its URL in turn. */
  function StreamsMap(list: seq<StreamStatus>): map<StreamKey, StreamStatus> {
    if list == [] then map[]
    else StreamsMap(list[..|list| - 1])[list[|list| - 1].streamUrl := list[|list| - 1]]
  }

  /** The map holds exactly the URLs listed. */
  lemma {:induction false} StreamsMapKeys(list: seq<StreamStatus>)
    ensures forall k :: k in StreamsMap(list) <==> exists i :: 0 <= i < |list| && list[i].streamUrl == k
  {
    if list != [] {
      var init := list[..|list| - 1];
      StreamsMapKeys(init);
      assert forall i :: 0 <= i < |init| ==> init[i] == list[i];
      forall k | k in StreamsMap(list) ensures exists i :: 0 <= i < |list| && list[i].streamUrl == k {
        if k != list[|list| - 1].streamUrl {
          assert k in StreamsMap(init);
          var i :| 0 <= i < |init| && init[i].streamUrl == k;
          assert list[i].streamUrl == k;
        }
      }
    }
  }

  /** Each URL maps to the last status listed for it. */
  lemma {:induction false} StreamsMapLast(list: seq<StreamStatus>, i: nat)
    requires i < |list|
    requires forall j :: i < j < |list| ==> list[j].streamUrl != list[i].streamUrl
    ensures list[i].streamUrl in StreamsMap(list) && StreamsMap(list)[list[i].streamUrl] == list[i]
  {
    if i < |list| - 1 {
      var init := list[..|list| - 1];
      assert forall j :: i < j < |init| ==> init[j] == list[j];
      StreamsMapLast(init, i);
    }
  }

  // ----------------------------------------------------------- severity

  /** `/(warning|watch|advisory|emergency|test)/i` finds a match in the event
      text. The keywords are ASCII, so matching without case is matching the
      lower-cased text. */
  predicate HasSeverity(eventText: String) {
    var t := ToLower(eventText);
    Contains(t, "warning") || Contains(t, "watch") || Contains(t, "advisory")
    || Contains(t, "emergency") || Contains(t, "test")
  }

  /** The alert render reaches `severity.toUpperCase()` with `severity`
      undefined, and throws, exactly when some alert has no severity word. */
  predicate RenderAlertsFails(alerts: seq<AlertView>) {
    exists k :: 0 <= k < |alerts| && !HasSeverity(alerts[k].eventText)
  }

  /** The record the relay builds when its decoder fails carries the bare
      event code as its text, so rendering it throws. */
  lemma FallbackAlertFailsRender(rawHeader: String, receivedAt: int)
    ensures RenderAlertsFails([AlertView(rawHeader, receivedAt, "RWT")])
  {
    var t := ToLower("RWT");
    assert t == "rwt";
    var alerts := [AlertView(rawHeader, receivedAt, "RWT")];
    assert !HasSeverity(alerts[0].eventText);
  }

  /** A standard event text names its severity, so it renders. */
  lemma WarningRenders(rawHeader: String, receivedAt: int)
    ensures !RenderAlertsFails([AlertView(rawHeader, receivedAt, "Severe Thunderstorm Warning")])
  {
    var t := ToLower("Severe Thunderstorm Warning");
    assert t[20..27] == "warning";
    assert OccursAt(t, "warning", 20);
  }

  // ----------------------------------------------------------- messages

  /** A payload field as `applyStatusPayload` sees it: falsy and skipped, a
      list, or truthy without being a list (then `forEach` throws). */
  datatype Field<T> = Missing | NotAList | AList(items: seq<T>)

  /** The fields of a status snapshot; alerts and logs count only as lists. */
  datatype StatusPayload = StatusPayload(
    streams: Field<StreamStatus>,
    activeAlerts: Option<seq<AlertView>>,
    logs: Option<seq<LogEntry>>)

  /** A message from the live channel, as parsed. A message that is not even
      JSON, that is not an object, or whose type is not one of the four is
      kept as such. */
  datatype WsMessage =
    | Unparsable
    | NotAnObject
    | Snapshot(payload: Option<StatusPayload>)
    | StreamDelta(stream: Option<StreamStatus>)
    | LogDelta(entry: Option<LogEntry>)
    | AlertsDelta(alerts: Option<seq<AlertView>>)
    | Unhandled(kind: String)

  /** A stream delta names a stream when its URL is a non-empty string. */
  predicate HasUrl(s: Option<StreamStatus>) {
    s.Some? && s.value.streamUrl.Some? && s.value.streamUrl.value != []
  }

  /** The stream map after a status payload. */
  function StreamsAfter(p: StatusPayload, before: map<StreamKey, StreamStatus>): map<StreamKey, StreamStatus> {
    match p.streams
    case Missing => before
    case NotAList => map[]
    case AList(list) => StreamsMap(list)
  }

  /** The alert list after a status payload: a throw from `streams` comes
      before the alerts are read. */
  function AlertsAfter(p: StatusPayload, before: seq<AlertView>): seq<AlertView> {
    if p.streams.NotAList? || p.activeAlerts.None? then before else p.activeAlerts.value
  }

  /** `applyStatusPayload` ends in a throw. */
  predicate StatusThrows(p: StatusPayload, before: seq<AlertView>) {
    p.streams.NotAList? || RenderAlertsFails(AlertsAfter(p, before))
  }

  /** The collections the page renders. */
  class LiveState {
    var streams: map<StreamKey, StreamStatus>
    var activeAlerts: seq<AlertView>
    var logs: seq<LogEntry>
    const logLimit: int

    constructor (parsedLimit: Option<int>)
      ensures streams == map[] && activeAlerts == [] && logs == []
      ensures logLimit == LogLimit(parsedLimit)
    {
      streams := map[];
      activeAlerts := [];
      logs := [];
      logLimit := LogLimit(parsedLimit);
    }

    /** `renderAlerts`: the cards are drawn one by one, and the first alert
        without a severity word makes the render throw. */
    method RenderAlerts() returns (thrown: bool)
      ensures thrown <==> RenderAlertsFails(activeAlerts)
    {
      var i := 0;
      while i < |activeAlerts|
        invariant 0 <= i <= |activeAlerts|
        invariant forall k :: 0 <= k < i ==> HasSeverity(activeAlerts[k].eventText)
      {
        if !HasSeverity(activeAlerts[i].eventText) {
          return true;
        }
        i := i + 1;
      }
      return false;
    }

    /** A status payload replaces each collection it carries and leaves the
        others alone; the stream map is rebuilt from scratch, so URLs the
        payload does not list are dropped. A `streams` that is not a list
        empties the map and then throws; otherwise the alert render that
        follows may throw. `thrown` says whether the call ended in a throw. */
    method ApplyStatusPayload(p: StatusPayload) returns (thrown: bool)
      modifies this
      ensures streams == StreamsAfter(p, old(streams))
      ensures activeAlerts == AlertsAfter(p, old(activeAlerts))
      ensures thrown <==> StatusThrows(p, old(activeAlerts))
      ensures logs == old(logs)
    {
      match p.streams {
        case NotAList =>
          streams := map[];
          return true;
        case AList(list) =>
          var m: map<StreamKey, StreamStatus> := map[];
          var i := 0;
          while i < |list|
            invariant 0 <= i <= |list|
            invariant m == StreamsMap(list[..i])
          {
            assert list[..i + 1][..i] == list[..i];
            m := m[list[i].streamUrl := list[i]];
            i := i + 1;
          }
          assert list[..i] == list;
          streams := m;
        case Missing =>
      }
      if p.activeAlerts.Some? {
        activeAlerts := p.activeAlerts.value;
      }
      thrown := RenderAlerts();
    }

    /** New entries are merged in front of the buffer, sorted newest first
        and cut at the limit; anything that is not a list changes nothing. */
    method ApplyLogs(entries: Option<seq<LogEntry>>)
      modifies this
      ensures logs == if entries.Some? then Retained(entries.value + old(logs), logLimit) else old(logs)
      ensures streams == old(streams) && activeAlerts == old(activeAlerts)
    {
      if entries.None? {
        return;
      }
      var combined := entries.value + logs;
      logs := Retained(combined, logLimit);
    }

    /** A full log list replaces the buffer instead of merging with it. */
    method ReplaceLogs(entries: seq<LogEntry>)
      modifies this
      ensures logs == Retained(entries, logLimit)
      ensures streams == old(streams) && activeAlerts == old(activeAlerts)
    {
      logs := Retained(entries, logLimit);
    }

    /** The initial (and periodic) fetch: the status when it arrived, then the
        log tail when it arrived as a list. A throw while applying the status
        rejects the call before the logs are touched; `rejected` says so. */
    method LoadInitialData(status: Option<StatusPayload>, logResponse: Option<seq<LogEntry>>) returns (rejected: bool)
      modifies this
      ensures rejected <==> status.Some? && StatusThrows(status.value, old(activeAlerts))
      ensures status.Some? ==> streams == StreamsAfter(status.value, old(streams))
                               && activeAlerts == AlertsAfter(status.value, old(activeAlerts))
      ensures status.None? ==> streams == old(streams) && activeAlerts == old(activeAlerts)
      ensures logs == if logResponse.Some? && !rejected then Retained(logResponse.value, logLimit) else old(logs)
    {
      rejected := false;
      if status.Some? {
        rejected := ApplyStatusPayload(status.value);
        if rejected {
          return;
        }
      }
      if logResponse.Some? {
        ReplaceLogs(logResponse.value);
      }
    }

    /** One message from the live channel. A throw inside the handler is
        caught and logged, and whatever was changed before it stays changed. */
    method HandleWsMessage(msg: WsMessage)
      modifies this
      ensures msg.Snapshot? && msg.payload.Some? ==>
                var p := msg.payload.value;
                streams == StreamsAfter(p, old(streams))
                && activeAlerts == AlertsAfter(p, old(activeAlerts))
                && logs == (if p.logs.Some? && !StatusThrows(p, old(activeAlerts)) then Retained(p.logs.value, logLimit) else old(logs))
      ensures msg.StreamDelta? && HasUrl(msg.stream) ==>
                streams == old(streams)[msg.stream.value.streamUrl := msg.stream.value]
                && activeAlerts == old(activeAlerts) && logs == old(logs)
      ensures msg.LogDelta? && msg.entry.Some? ==>
                logs == Retained([msg.entry.value] + old(logs), logLimit)
                && streams == old(streams) && activeAlerts == old(activeAlerts)
      ensures msg.AlertsDelta? && msg.alerts.Some? ==>
                activeAlerts == msg.alerts.value && streams == old(streams) && logs == old(logs)
      ensures msg.Unparsable? || msg.NotAnObject? || msg.Unhandled?
              || (msg.Snapshot? && msg.payload.None?)
              || (msg.StreamDelta? && !HasUrl(msg.stream))
              || (msg.LogDelta? && msg.entry.None?)
              || (msg.AlertsDelta? && msg.alerts.None?) ==>
                streams == old(streams) && activeAlerts == old(activeAlerts) && logs == old(logs)
    {
      match msg {
        case Snapshot(payload) =>
          if payload.Some? {
            var thrown := ApplyStatusPayload(payload.value);
            if !thrown && payload.value.logs.Some? {
              ReplaceLogs(payload.value.logs.value);
            }
          }
        case StreamDelta(stream) =>
          if HasUrl(stream) {
            streams := streams[stream.value.streamUrl := stream.value];
          }
        case LogDelta(entry) =>
          if entry.Some? {
            ApplyLogs(Some([entry.value]));
          }
        case AlertsDelta(alerts) =>
          if alerts.Some? {
            activeAlerts := alerts.value;
          }
        case Unparsable =>
        case NotAnObject =>
        case Unhandled(_) =>
      }
    }
  }
}
