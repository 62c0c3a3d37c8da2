/** The website's refresher: for each configured station, read the raw
    statistics from every statistics URL it defines (the last one wins),
    probe the audio stream twice, and merge the results into the in-memory
    cache of statistics by station id, which is refreshed when it is empty or
    stale. */
module StationsRefresh {
  import opened Wrappers
  import opened Text
  import opened JsValues
  import opened TagScan
  import opened Transport
  import opened IcecastSource
  import Scrape = StationScrape

  /** A configured station; `None` is an undefined statistics URL. */
  datatype WebStation = WebStation(
    id: int,
    streamUrl: string,
    shoutcastStatsUrl: Option<string>,
    radioCoStatsUrl: Option<string>,
    icecastStatsUrl: Option<string>,
    shoutcastXmlStatsUrl: Option<string>,
    oldIcecastHtmlStatsUrl: Option<string>,
    oldShoutcastStatsHtmlUrl: Option<string>)

  /** The statistics URL a station defines for a format. */
  function StatsUrl(station: WebStation, kind: Kind): Option<string> {
    match kind
    case Shoutcast => station.shoutcastStatsUrl
    case RadioCo => station.radioCoStatsUrl
    case Icecast => station.icecastStatsUrl
    case ShoutcastXml => station.shoutcastXmlStatsUrl
    case OldIcecastHtml => station.oldIcecastHtmlStatsUrl
    case OldShoutcastHtml => station.oldShoutcastStatsHtmlUrl
  }

  /** The position of each format among the refresher's six checks. */
  function CheckOrder(kind: Kind): nat {
    match kind
    case Shoutcast => 0
    case RadioCo => 1
    case Icecast => 2
    case ShoutcastXml => 3
    case OldIcecastHtml => 4
    case OldShoutcastHtml => 5
  }

  /** `Stats`: raw values, not cleaned; `None` is `undefined`. */
  datatype Stats = Stats(timestamp: int, currentSong: Option<Json>, listeners: Option<Json>)

  datatype StreamRaw = StreamRaw(headers: map<string, string>, responseStatus: int, textResponse: Option<string>)

  datatype StreamStatus = StreamStatus(up: bool, latencyMs: int, rawData: StreamRaw)

  /** A cache entry; each field may be absent, as after spreading an
      `undefined` entry. */
  datatype StationStats = StationStats(rawData: Option<Json>, stats: Option<Stats>, error: Option<Failure>, streamStatus: Option<StreamStatus>)

  // ---------------------------------------------------------------------
  // The six extractors

  /** `v || ""` on a scanned tag. */
  function OrEmpty(v: Option<string>): (r: string)
    ensures v.Some? ==> r == v.value
    ensures v.None? ==> r == ""
  {
    if v.Some? then v.value else ""
  }

  /** `v || undefined` on a scanned tag: an empty text is dropped too. */
  function OrUndefined(v: Option<string>): (r: Option<Json>)
    ensures r.Some? <==> v.Some? && v.value != ""
    ensures r.Some? ==> r.value == JString(v.value)
  {
    if v.Some? && v.value != "" then Some(JString(v.value)) else None
  }

  /** Shoutcast JSON: `data["songtitle"]` and `data["currentlisteners"]` as
      they are; reading a field of `null` throws. */
  function ShoutcastStats(data: Json, now: int): (r: Result<Stats, Failure>)
    ensures r.Ok? <==> !data.JNull?
    ensures r.Ok? ==> r.value == Stats(now, Chain(Some(data), "songtitle"), Chain(Some(data), "currentlisteners"))
  {
    var title :- Get(Some(data), "songtitle");
    Ok(Stats(now, title, Chain(Some(data), "currentlisteners")))
  }

  /** Radio.co JSON: the refresher reads the same two fields as for
      Shoutcast. */
  function RadioCoStats(data: Json, now: int): (r: Result<Stats, Failure>)
    ensures r == ShoutcastStats(data, now)
  {
    var title :- Get(Some(data), "songtitle");
    Ok(Stats(now, title, Chain(Some(data), "currentlisteners")))
  }

  /** Icecast JSON: the raw `title` and `listeners` of the source that
      `listen_url=` selects; no selected source throws. */
  function IcecastStats(url: string, data: Json, now: int): (r: Result<Stats, Failure>)
    ensures r.Ok? <==> SelectSource(data, ListenUrlParam(url)).Ok? && SelectSource(data, ListenUrlParam(url)).value.Some?
    ensures r.Ok? ==>
      var source := SelectSource(data, ListenUrlParam(url)).value;
      r.value == Stats(now, Chain(source, "title"), Chain(source, "listeners"))
  {
    var source :- SelectSource(data, ListenUrlParam(url));
    var title :- Get(source, "title");
    Ok(Stats(now, title, Chain(source, "listeners")))
  }

  /** A reading from a scanned dictionary: a missing song becomes `""`, a
      missing or empty listener count `undefined`. */
  function TagStats(data: TagData, titleKey: string, listenersKey: string, now: int): (s: Stats)
    ensures s.currentSong.Some? && s.currentSong.value.JString?
    ensures s.currentSong.value.s == OrEmpty(Lookup(data, titleKey))
    ensures s.listeners.Some? <==> Lookup(data, listenersKey).Some? && Lookup(data, listenersKey).value != ""
    ensures s.listeners.Some? ==> s.listeners.value == JString(Lookup(data, listenersKey).value)
  {
    Stats(now, Some(JString(OrEmpty(Lookup(data, titleKey)))), OrUndefined(Lookup(data, listenersKey)))
  }

  /** Shoutcast XML: `.replace` throws when the body is not text. The
      refresher reads this body with `response.text()`, so there it is
      always text and the error branch is not reached. */
  function XmlStats(page: Json, now: int): (r: Result<Stats, Failure>)
    ensures r.Ok? <==> page.JString?
  {
    if page.JString?
    then Ok(TagStats(Tags(XmlTag, ReplaceFirst(page.s, "SHOUTCASTSERVER", "")), "SONGTITLE", "CURRENTLISTENERS", now))
    else Err(TypeError("xml_page.replace is not a function"))
  }

  /** Old Icecast HTML: `exec` reads the body as text. */
  function OldIcecastStats(page: Json, now: int): (r: Result<Stats, Failure>)
    ensures r.Ok?
  {
    Ok(TagStats(Tags(IcecastRow, ToText(page)), "Current Song", "Current Listeners", now))
  }

  /** Old Shoutcast HTML: the song is the `(N unique)` count of the stored
      `Stream Status`, or `""`. */
  function OldShoutcastStats(page: Json, now: int): (r: Result<Stats, Failure>)
    ensures r.Ok?
  {
    var data := Tags(ShoutcastRow, ToText(page));
    var status := Lookup(data, "Stream Status");
    var count := UniqueCount(if status.Some? then status.value else "undefined", 0);
    Ok(Stats(now, Some(JString(OrEmpty(count))), OrUndefined(Lookup(data, "Current Listeners"))))
  }

  /** As in the scraper, every stored value is `undefined`: the old Shoutcast
      song is always `""` and its listener count `undefined`. */
  lemma OldShoutcastAlwaysEmpty(page: Json, now: int)
    ensures OldShoutcastStats(page, now) == Ok(Stats(now, Some(JString("")), None))
  {
    var text := ToText(page);
    ShoutcastRowStoresUndefined(text, 0);
    UniqueCountOfUndefined();
  }

  /** What a tag reading promises about the scanned matches `ms`: the song is
      the last match storing `titleKey` (`""` when none does), and the
      listener count is the last match storing `listenersKey` under
      `|| undefined` (`undefined` when none does). */
  ghost predicate ReadsLastTags(r: Stats, ms: seq<Match>, titleKey: string, listenersKey: string) {
    && (forall j :: LastStore(ms, j, titleKey) ==> r.currentSong == Some(JString(OrEmpty(ValueOf(ms[j])))))
    && (NoStore(ms, titleKey) ==> r.currentSong == Some(JString("")))
    && (forall j :: LastStore(ms, j, listenersKey) ==> r.listeners == OrUndefined(ValueOf(ms[j])))
    && (NoStore(ms, listenersKey) ==> r.listeners == None)
  }

  lemma TagStatsReadsLastTags(ms: seq<Match>, titleKey: string, listenersKey: string, now: int)
    ensures ReadsLastTags(TagStats(Dictionary(ms), titleKey, listenersKey, now), ms, titleKey, listenersKey)
  {
    LookupAfterScan(ms, titleKey);
    LookupAfterScan(ms, listenersKey);
  }

  /** The last `SONGTITLE` tag of the page gives the XML song and the last
      `CURRENTLISTENERS` tag its listener count, once the first
      `SHOUTCASTSERVER` is removed. */
  lemma XmlLastTagsWin(page: string, now: int)
    ensures XmlStats(JString(page), now).Ok?
    ensures
      var r := XmlStats(JString(page), now).value;
      && r.timestamp == now
      && ReadsLastTags(r, Matches(XmlTag, ReplaceFirst(page, "SHOUTCASTSERVER", ""), 0), "SONGTITLE", "CURRENTLISTENERS")
  {
    TagStatsReadsLastTags(Matches(XmlTag, ReplaceFirst(page, "SHOUTCASTSERVER", ""), 0), "SONGTITLE", "CURRENTLISTENERS", now);
  }

  /** The old Icecast song is the last `Current Song` row (`""` without one)
      and the listener count the last `Current Listeners` row, of the body
      read as text. */
  lemma OldIcecastLastTagsWin(page: Json, now: int)
    ensures OldIcecastStats(page, now).Ok?
    ensures
      var r := OldIcecastStats(page, now).value;
      && r.timestamp == now
      && ReadsLastTags(r, Matches(IcecastRow, ToText(page), 0), "Current Song", "Current Listeners")
  {
    TagStatsReadsLastTags(Matches(IcecastRow, ToText(page), 0), "Current Song", "Current Listeners", now);
  }

  function StatsOf(kind: Kind, url: string, body: Json, now: int): (r: Result<Stats, Failure>)
    ensures r.Ok? ==> r.value.timestamp == now
  {
    match kind
    case Shoutcast => ShoutcastStats(body, now)
    case RadioCo => RadioCoStats(body, now)
    case Icecast => IcecastStats(url, body, now)
    case ShoutcastXml => XmlStats(body, now)
    case OldIcecastHtml => OldIcecastStats(body, now)
    case OldShoutcastHtml => OldShoutcastStats(body, now)
  }

  /** The extractors, with the tag scans run as the refresher runs them. */
  method StatsExtractor(kind: Kind, url: string, body: Json, now: int) returns (r: Result<Stats, Failure>)
    ensures r == StatsOf(kind, url, body, now)
  {
    match kind {
      case Shoutcast => r := ShoutcastStats(body, now);
      case RadioCo => r := RadioCoStats(body, now);
      case Icecast => r := IcecastStats(url, body, now);
      case ShoutcastXml =>
        if !body.JString? {
          r := Err(TypeError("xml_page.replace is not a function"));
          return;
        }
        var data := ScanTags(XmlTag, ReplaceFirst(body.s, "SHOUTCASTSERVER", ""));
        r := Ok(TagStats(data, "SONGTITLE", "CURRENTLISTENERS", now));
      case OldIcecastHtml =>
        var data := ScanTags(IcecastRow, ToText(body));
        r := Ok(TagStats(data, "Current Song", "Current Listeners", now));
      case OldShoutcastHtml =>
        var data := ScanTags(ShoutcastRow, ToText(body));
        var status := Lookup(data, "Stream Status");
        var count := UniqueCount(if status.Some? then status.value else "undefined", 0);
        r := Ok(Stats(now, Some(JString(OrEmpty(count))), OrUndefined(Lookup(data, "Current Listeners"))));
    }
  }

  /** The record of `extractStats`'s `catch`. */
  function FailureStats(now: int, failure: Failure): StationStats {
    StationStats(Some(JObject(map[])), Some(Stats(now, Some(JString("")), None)), Some(failure), None)
  }

  /** `extractStats`: the body and the extractor's stats, or the failure
      record when the request, the decoding or the extractor fails. Either
      way the entry has stats stamped `now`. */
  function ExtractStatsOf(kind: Kind, url: string, reply: FetchOutcome, now: int): (e: StationStats)
    ensures e.stats.Some? && e.stats.value.timestamp == now && e.rawData.Some? && e.streamStatus.None?
    ensures e.error.None? <==> reply.Delivered? && StatsOf(kind, url, reply.body, now).Ok?
    ensures e.error.None? ==> e.rawData == Some(reply.body) && e.stats == Some(StatsOf(kind, url, reply.body, now).value)
    ensures e.error.Some? ==> e == FailureStats(now, e.error.value)
  {
    match reply
    case Rejected(reason) => FailureStats(now, RequestFailed(reason))
    case Delivered(body) =>
      match StatsOf(kind, url, body, now)
      case Err(failure) => FailureStats(now, failure)
      case Ok(stats) => StationStats(Some(body), Some(stats), None, None)
  }

  method ExtractStats(kind: Kind, url: string, reply: FetchOutcome, now: int) returns (e: StationStats)
    ensures e == ExtractStatsOf(kind, url, reply, now)
  {
    if reply.Rejected? {
      return FailureStats(now, RequestFailed(reply.reason));
    }
    var stats := StatsExtractor(kind, url, reply.body, now);
    if stats.Err? {
      return FailureStats(now, stats.error);
    }
    e := StationStats(Some(reply.body), Some(stats.value), None, None);
  }

  // ---------------------------------------------------------------------
  // getStreamStatus

  /** What `getStreamStatus` reports. Unlike axios, `fetch` resolves on any
      status; a non-200 answer keeps its body text (`""` when reading it
      fails). */
  function StreamStatusOf(probe: ProbeOutcome): (st: StreamStatus)
    ensures st.up <==> probe.Responded? && probe.status == 200
    ensures st.rawData.textResponse.Some? <==> probe.Responded? && probe.status != 200
    ensures probe.Responded? ==>
      && st.latencyMs == LatencyMs(probe.elapsedNs) && 0 <= st.latencyMs <= 1000
      && st.rawData.headers == probe.headers && st.rawData.responseStatus == probe.status
    ensures probe.Responded? && probe.status != 200 ==> st.rawData.textResponse == Some(probe.text.GetOr(""))
    ensures probe.Failed? ==> st == StreamStatus(false, -1, StreamRaw(map[], -1, None))
  {
    match probe
    case Failed(_) => StreamStatus(false, -1, StreamRaw(map[], -1, None))
    case Responded(status, headers, elapsedNs, text) =>
      if status != 200
      then StreamStatus(false, LatencyMs(elapsedNs), StreamRaw(headers, status, Some(text.GetOr(""))))
      else StreamStatus(true, LatencyMs(elapsedNs), StreamRaw(headers, status, None))
  }

  method GetStreamStatus(streamUrl: string, probe: ProbeOutcome) returns (st: StreamStatus)
    ensures st == StreamStatusOf(probe)
  {
    var responseStatus := -1;
    var latencyMs: int := -1;
    var headers: map<string, string> := map[];
    if probe.Failed? {
      return StreamStatus(false, latencyMs, StreamRaw(headers, responseStatus, None));
    }
    responseStatus := probe.status;
    latencyMs := LatencyMs(probe.elapsedNs);
    headers := probe.headers;
    if responseStatus != 200 {
      var textResponse := "";
      if probe.text.Some? {
        textResponse := probe.text.value;
      }
      return StreamStatus(false, latencyMs, StreamRaw(headers, responseStatus, Some(textResponse)));
    }
    st := StreamStatus(true, latencyMs, StreamRaw(headers, responseStatus, None));
  }

  /** Both engines call a stream up exactly when it answers 200. They differ
      on other answers: the scraper's axios rejects a status outside
      200..299 and reports -1 for it, the refresher keeps the status. */
  lemma EnginesAgreeOnUp(probe: ProbeOutcome, now: int)
    ensures StreamStatusOf(probe).up == Scrape.UptimeOf(probe, now).isUp
    ensures probe.Responded? && Scrape.AxiosAccepts(probe.status) ==>
      StreamStatusOf(probe).latencyMs == Scrape.UptimeOf(probe, now).latencyMs
    ensures probe.Responded? && !Scrape.AxiosAccepts(probe.status) ==>
      StreamStatusOf(probe).rawData.responseStatus == probe.status && Scrape.UptimeOf(probe, now).rawData.responseStatus == -1
  {
  }

  // ---------------------------------------------------------------------
  // refreshStationsStats

  /** The network's answers for one station: one per statistics URL it
      defines, the two stream probes, and the clock. */
  datatype WebReplies = WebReplies(fetches: map<Kind, FetchOutcome>, probe: ProbeOutcome, reprobe: ProbeOutcome, now: int)

  predicate Covers(station: WebStation, r: WebReplies) {
    forall k: Kind :: StatsUrl(station, k).Some? ==> k in r.fetches
  }

  predicate AllCovered(stations: seq<WebStation>, replies: seq<WebReplies>) {
    |replies| == |stations| && forall i :: 0 <= i < |stations| ==> Covers(stations[i], replies[i])
  }

  /** The last of the six checks whose URL is defined: each later
      extraction overwrites the entry. */
  function LastDefinedSource(station: WebStation): (r: Option<Kind>)
    ensures r.Some? ==> StatsUrl(station, r.value).Some?
    ensures r.Some? ==> forall k: Kind :: CheckOrder(k) > CheckOrder(r.value) ==> StatsUrl(station, k).None?
    ensures r.None? ==> forall k: Kind :: StatsUrl(station, k).None?
  {
    if station.oldShoutcastStatsHtmlUrl.Some? then Some(OldShoutcastHtml)
    else if station.oldIcecastHtmlStatsUrl.Some? then Some(OldIcecastHtml)
    else if station.shoutcastXmlStatsUrl.Some? then Some(ShoutcastXml)
    else if station.icecastStatsUrl.Some? then Some(Icecast)
    else if station.radioCoStatsUrl.Some? then Some(RadioCo)
    else if station.shoutcastStatsUrl.Some? then Some(Shoutcast)
    else None
  }

  /** The entry after the six checks: the last extraction, or the entry
      already stored when the station defines no statistics URL. */
  function StationEntry(station: WebStation, r: WebReplies, existing: Option<StationStats>): Option<StationStats>
    requires Covers(station, r)
  {
    match LastDefinedSource(station)
    case None => existing
    case Some(k) => Some(ExtractStatsOf(k, StatsUrl(station, k).value, r.fetches[k], r.now))
  }

  /** The six checks of the first pass, in order. */
  method FetchStationStats(station: WebStation, r: WebReplies, existing: Option<StationStats>) returns (entry: Option<StationStats>)
    requires Covers(station, r)
    ensures entry == StationEntry(station, r, existing)
  {
    entry := existing;
    if station.shoutcastStatsUrl.Some? {
      var e := ExtractStats(Shoutcast, station.shoutcastStatsUrl.value, r.fetches[Shoutcast], r.now);
      entry := Some(e);
    }
    if station.radioCoStatsUrl.Some? {
      var e := ExtractStats(RadioCo, station.radioCoStatsUrl.value, r.fetches[RadioCo], r.now);
      entry := Some(e);
    }
    if station.icecastStatsUrl.Some? {
      var e := ExtractStats(Icecast, station.icecastStatsUrl.value, r.fetches[Icecast], r.now);
      entry := Some(e);
    }
    if station.shoutcastXmlStatsUrl.Some? {
      var e := ExtractStats(ShoutcastXml, station.shoutcastXmlStatsUrl.value, r.fetches[ShoutcastXml], r.now);
      entry := Some(e);
    }
    if station.oldIcecastHtmlStatsUrl.Some? {
      var e := ExtractStats(OldIcecastHtml, station.oldIcecastHtmlStatsUrl.value, r.fetches[OldIcecastHtml], r.now);
      entry := Some(e);
    }
    if station.oldShoutcastStatsHtmlUrl.Some? {
      var e := ExtractStats(OldShoutcastHtml, station.oldShoutcastStatsHtmlUrl.value, r.fetches[OldShoutcastHtml], r.now);
      entry := Some(e);
    }
  }

  /** `{...entry, streamStatus: status}`. */
  function WithStatus(entry: Option<StationStats>, status: StreamStatus): StationStats {
    match entry
    case None => StationStats(None, None, None, Some(status))
    case Some(e) => e.(streamStatus := Some(status))
  }

  function Existing(byId: map<int, StationStats>, id: int): Option<StationStats> {
    if id in byId then Some(byId[id]) else None
  }

  /** The first pass extracts and probes; the second only probes again. */
  datatype PassKind = Extract | Reprobe

  function PassEntry(pass: PassKind, station: WebStation, r: WebReplies, existing: Option<StationStats>): (e: StationStats)
    requires Covers(station, r)
    ensures e.streamStatus.Some?
  {
    match pass
    case Extract => WithStatus(StationEntry(station, r, existing), StreamStatusOf(r.probe))
    case Reprobe => WithStatus(existing, StreamStatusOf(r.reprobe))
  }

  /** One pass over the stations in order, writing each station's entry. */
  function Pass(pass: PassKind, stations: seq<WebStation>, replies: seq<WebReplies>, byId: map<int, StationStats>): map<int, StationStats>
    requires AllCovered(stations, replies)
    decreases |stations|
  {
    if stations == [] then byId
    else
      var id := stations[0].id;
      assert AllCovered(stations[1..], replies[1..]) by {
        assert forall i :: 0 <= i < |stations| - 1 ==> stations[1..][i] == stations[i + 1] && replies[1..][i] == replies[i + 1];
      }
      Pass(pass, stations[1..], replies[1..], byId[id := PassEntry(pass, stations[0], replies[0], Existing(byId, id))])
  }

  /** What `refreshStationsStats` collects. */
  function Collected(stations: seq<WebStation>, replies: seq<WebReplies>): map<int, StationStats>
    requires AllCovered(stations, replies)
  {
    Pass(Reprobe, stations, replies, Pass(Extract, stations, replies, map[]))
  }

  /** The two passes of `refreshStationsStats` in order. */
  method CollectStationStats(stations: seq<WebStation>, replies: seq<WebReplies>) returns (byId: map<int, StationStats>)
    requires AllCovered(stations, replies)
    ensures byId == Collected(stations, replies)
  {
    byId := map[];
    for i := 0 to |stations|
      invariant AllCovered(stations[i..], replies[i..])
      invariant Pass(Extract, stations[i..], replies[i..], byId) == Pass(Extract, stations, replies, map[])
    {
      var station := stations[i];
      var entry := FetchStationStats(station, replies[i], Existing(byId, station.id));
      var status := GetStreamStatus(station.streamUrl, replies[i].probe);
      PassStep(Extract, stations, replies, i, byId);
      byId := byId[station.id := WithStatus(entry, status)];
    }
    ghost var first := byId;
    for i := 0 to |stations|
      invariant AllCovered(stations[i..], replies[i..])
      invariant Pass(Reprobe, stations[i..], replies[i..], byId) == Pass(Reprobe, stations, replies, first)
    {
      var station := stations[i];
      var status := GetStreamStatus(station.streamUrl, replies[i].reprobe);
      PassStep(Reprobe, stations, replies, i, byId);
      byId := byId[station.id := WithStatus(Existing(byId, station.id), status)];
    }
  }

  /** One station of a pass, on the suffix that starts with it. */
  lemma PassStep(pass: PassKind, stations: seq<WebStation>, replies: seq<WebReplies>, i: nat, byId: map<int, StationStats>)
    requires AllCovered(stations, replies) && i < |stations|
    ensures AllCovered(stations[i..], replies[i..]) && AllCovered(stations[i + 1..], replies[i + 1..])
    ensures Pass(pass, stations[i..], replies[i..], byId)
         == Pass(pass, stations[i + 1..], replies[i + 1..], byId[stations[i].id := PassEntry(pass, stations[i], replies[i], Existing(byId, stations[i].id))])
  {
    assert forall j :: 0 <= j < |stations| - i ==> stations[i..][j] == stations[i + j] && replies[i..][j] == replies[i + j];
    assert stations[i..][1..] == stations[i + 1..] && replies[i..][1..] == replies[i + 1..];
  }

  function Ids(stations: seq<WebStation>): set<int> {
    set i | 0 <= i < |stations| :: stations[i].id
  }

  predicate UniqueIds(stations: seq<WebStation>) {
    forall i, j :: 0 <= i < j < |stations| ==> stations[i].id != stations[j].id
  }

  /** A pass writes one key per station and keeps the others. */
  lemma {:induction false} PassKeys(pass: PassKind, stations: seq<WebStation>, replies: seq<WebReplies>, byId: map<int, StationStats>)
    requires AllCovered(stations, replies)
    ensures Pass(pass, stations, replies, byId).Keys == byId.Keys + Ids(stations)
    ensures forall id :: id in Ids(stations) ==> Pass(pass, stations, replies, byId)[id].streamStatus.Some?
    ensures forall id :: id in byId && id !in Ids(stations) ==> Pass(pass, stations, replies, byId)[id] == byId[id]
    decreases |stations|
  {
    if stations != [] {
      var id := stations[0].id;
      var next := byId[id := PassEntry(pass, stations[0], replies[0], Existing(byId, id))];
      assert forall j :: 0 <= j < |stations| - 1 ==> stations[1..][j] == stations[j + 1] && replies[1..][j] == replies[j + 1];
      PassKeys(pass, stations[1..], replies[1..], next);
      IdsCons(stations);
    }
  }

  lemma IdsCons(stations: seq<WebStation>)
    requires stations != []
    ensures Ids(stations) == {stations[0].id} + Ids(stations[1..])
  {
    forall id | id in Ids(stations) ensures id in {stations[0].id} + Ids(stations[1..]) {
      var i :| 0 <= i < |stations| && stations[i].id == id;
      if i > 0 {
        assert stations[1..][i - 1] == stations[i];
      }
    }
    forall id | id in Ids(stations[1..]) ensures id in Ids(stations) {
      var i :| 0 <= i < |stations| - 1 && stations[1..][i].id == id;
      assert stations[i + 1].id == id;
    }
  }

  /** With distinct ids a pass gives each station the entry built from what
      was stored for it before the pass. */
  lemma {:induction false} PassAt(pass: PassKind, stations: seq<WebStation>, replies: seq<WebReplies>, byId: map<int, StationStats>, i: nat)
    requires AllCovered(stations, replies) && UniqueIds(stations) && i < |stations|
    ensures stations[i].id in Pass(pass, stations, replies, byId)
    ensures Pass(pass, stations, replies, byId)[stations[i].id] == PassEntry(pass, stations[i], replies[i], Existing(byId, stations[i].id))
    decreases |stations|
  {
    var id := stations[0].id;
    var next := byId[id := PassEntry(pass, stations[0], replies[0], Existing(byId, id))];
    assert forall j :: 0 <= j < |stations| - 1 ==> stations[1..][j] == stations[j + 1] && replies[1..][j] == replies[j + 1];
    PassKeys(pass, stations, replies, byId);
    assert stations[i].id in Ids(stations);
    if i == 0 {
      PassKeys(pass, stations[1..], replies[1..], next);
      assert id !in Ids(stations[1..]);
    } else {
      PassAt(pass, stations[1..], replies[1..], next, i - 1);
      assert stations[i].id != id;
    }
  }

  /** The second pass replaces only the stream status: whatever else an
      entry held stays. */
  lemma {:induction false} ReprobeKeepsFields(stations: seq<WebStation>, replies: seq<WebReplies>, byId: map<int, StationStats>)
    requires AllCovered(stations, replies)
    ensures forall id :: id in byId ==> id in Pass(Reprobe, stations, replies, byId)
    ensures forall id :: id in byId ==>
      Pass(Reprobe, stations, replies, byId)[id].(streamStatus := byId[id].streamStatus) == byId[id]
    decreases |stations|
  {
    if stations != [] {
      var id := stations[0].id;
      var next := byId[id := PassEntry(Reprobe, stations[0], replies[0], Existing(byId, id))];
      assert forall j :: 0 <= j < |stations| - 1 ==> stations[1..][j] == stations[j + 1] && replies[1..][j] == replies[j + 1];
      ReprobeKeepsFields(stations[1..], replies[1..], next);
    }
  }

  /** The collected map has exactly one entry per station id, and every entry
      carries a stream status. */
  lemma CollectedKeys(stations: seq<WebStation>, replies: seq<WebReplies>)
    requires AllCovered(stations, replies)
    ensures Collected(stations, replies).Keys == Ids(stations)
    ensures forall id :: id in Collected(stations, replies) ==> Collected(stations, replies)[id].streamStatus.Some?
  {
    var first := Pass(Extract, stations, replies, map[]);
    PassKeys(Extract, stations, replies, map[]);
    PassKeys(Reprobe, stations, replies, first);
  }

  /** With distinct ids each station's entry is the last extraction it
      defines (or nothing) with the SECOND probe's status; the first probe's
      status is overwritten. */
  lemma CollectedEntry(stations: seq<WebStation>, replies: seq<WebReplies>, i: nat)
    requires AllCovered(stations, replies) && UniqueIds(stations) && i < |stations|
    ensures stations[i].id in Collected(stations, replies)
    ensures
      var e := Collected(stations, replies)[stations[i].id];
      var status := StreamStatusOf(replies[i].reprobe);
      && (LastDefinedSource(stations[i]).None? ==> e == StationStats(None, None, None, Some(status)))
      && (LastDefinedSource(stations[i]).Some? ==>
            var k := LastDefinedSource(stations[i]).value;
            e == ExtractStatsOf(k, StatsUrl(stations[i], k).value, replies[i].fetches[k], replies[i].now).(streamStatus := Some(status)))
  {
    var first := Pass(Extract, stations, replies, map[]);
    PassAt(Extract, stations, replies, map[], i);
    PassKeys(Extract, stations, replies, map[]);
    PassAt(Reprobe, stations, replies, first, i);
    CollectedKeys(stations, replies);
    assert stations[i].id in Ids(stations);
  }

  // ---------------------------------------------------------------------
  // The cache and its staleness

  /** An entry is stale when it has no stats timestamp, or its timestamp is
      more than `refreshMs + 15000` ms from `now` either way. */
  predicate Stale(e: StationStats, now: int, refreshMs: int) {
    e.stats.None? || Abs(e.stats.value.timestamp - now) > refreshMs + 15000
  }

  function Abs(x: int): int {
    if x < 0 then -x else x
  }

  /** The cache needs a refresh when it is empty or holds a stale entry. */
  predicate Expired(entries: map<int, StationStats>, now: int, refreshMs: int) {
    |entries| == 0 || exists id :: id in entries && Stale(entries[id], now, refreshMs)
  }

  /** A non-empty set of ids has a member. */
  lemma HasKey(ids: set<int>)
    requires ids != {}
    ensures exists id :: id in ids
  {
    if forall id :: id !in ids {
      assert false;
    }
  }

  /** `STATION_STATS_BY_STATION_ID_CACHE`, shared by the handlers. */
  class StatsCache {
    var entries: map<int, StationStats>

    constructor()
      ensures entries == map[]
    {
      entries := map[];
    }

    /** `Object.assign`: the update's entries replace those of the same id,
        the others stay. */
    method UpdateStationStatsCache(update: map<int, StationStats>)
      modifies this
      ensures entries == old(entries) + update
    {
      entries := entries + update;
    }

    /** The staleness check of `refreshStationsStatsIfExpired`, over the
        cached values in any order. */
    method ShouldRefresh(now: int, refreshMs: int) returns (shouldRefresh: bool)
      ensures shouldRefresh <==> Expired(entries, now, refreshMs)
    {
      shouldRefresh := false;
      if |entries| == 0 {
        shouldRefresh := true;
      }
      var pending := entries.Keys;
      while pending != {}
        invariant pending <= entries.Keys
        invariant shouldRefresh <==> |entries| == 0 || exists id :: id in entries && id !in pending && Stale(entries[id], now, refreshMs)
        decreases |pending|
      {
        HasKey(pending);
        var key :| key in pending;
        var s := entries[key];
        if s.stats.Some? {
          var diffMillis := Abs(s.stats.value.timestamp - now);
          if diffMillis > refreshMs + 15000 {
            shouldRefresh := true;
          }
        } else {
          shouldRefresh := true;
        }
        pending := pending - {key};
      }
    }

    /** `refreshStationsStats`: collect, then merge into the cache. */
    method RefreshStationsStats(stations: seq<WebStation>, replies: seq<WebReplies>) returns (byId: map<int, StationStats>)
      requires AllCovered(stations, replies)
      modifies this
      ensures byId == Collected(stations, replies)
      ensures entries == old(entries) + byId
    {
      byId := CollectStationStats(stations, replies);
      UpdateStationStatsCache(byId);
    }

    /** `refreshStationsStatsIfExpired`: a fresh cache is left alone. */
    method RefreshStationsStatsIfExpired(stations: seq<WebStation>, replies: seq<WebReplies>, now: int, refreshMs: int)
      requires AllCovered(stations, replies)
      modifies this
      ensures Expired(old(entries), now, refreshMs) ==> entries == old(entries) + Collected(stations, replies)
      ensures !Expired(old(entries), now, refreshMs) ==> entries == old(entries)
    {
      var shouldRefresh := ShouldRefresh(now, refreshMs);
      if shouldRefresh {
        var _ := RefreshStationsStats(stations, replies);
      }
    }
  }

  /** A station without any statistics URL gets an entry without stats, so
      the cache stays expired after every refresh and each request refreshes
      again. */
  lemma NoUrlKeepsExpired(entries: map<int, StationStats>, stations: seq<WebStation>, replies: seq<WebReplies>, i: nat, now: int, refreshMs: int)
    requires AllCovered(stations, replies) && UniqueIds(stations) && i < |stations|
    requires LastDefinedSource(stations[i]).None?
    ensures Expired(entries + Collected(stations, replies), now, refreshMs)
  {
    CollectedEntry(stations, replies, i);
    var merged := entries + Collected(stations, replies);
    assert Stale(merged[stations[i].id], now, refreshMs);
  }

  /** Conversely, right after a refresh in which every station defines a
      statistics URL and the clock did not move, the cache is fresh, provided
      it holds no other station and the refresh period is not negative. */
  lemma RefreshMakesFresh(entries: map<int, StationStats>, stations: seq<WebStation>, replies: seq<WebReplies>, now: int, refreshMs: int)
    requires AllCovered(stations, replies) && UniqueIds(stations) && stations != []
    requires forall i :: 0 <= i < |stations| ==> LastDefinedSource(stations[i]).Some? && replies[i].now == now
    requires entries.Keys <= Ids(stations) && refreshMs >= -15000
    ensures !Expired(entries + Collected(stations, replies), now, refreshMs)
  {
    var merged := entries + Collected(stations, replies);
    CollectedKeys(stations, replies);
    assert stations[0].id in merged.Keys;
    forall id | id in merged ensures !Stale(merged[id], now, refreshMs) {
      var i :| 0 <= i < |stations| && stations[i].id == id;
      CollectedEntry(stations, replies, i);
    }
  }
}
