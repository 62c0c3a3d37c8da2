/** The backend scraper: for each station, read its "now playing" record
    from the first statistics descriptor of a known format, clean up the song
    name and artist, probe the audio stream for uptime and latency, and post
    both to the database. */
module StationScrape {
  import opened Wrappers
  import opened Text
  import opened JsValues
  import opened TagScan
  import opened Transport
  import opened IcecastSource
  import opened Normalize

  const TitleSeparator := " - "

  datatype Song = Song(name: string, artist: string)

  /** What a `statsExtractor` returns: `{timestamp, current_song, listeners}`. */
  datatype Reading = Reading(timestamp: int, currentSong: Option<Song>, listeners: Json)

  /** The `error` field of a now-playing record: absent (a successful read),
      `null` (no known descriptor) or the serialised exception. */
  datatype ErrorField = NoErrorField | NullError | ErrorSet(failure: Failure)

  /** `StationNowPlaying`; `currentSong == None` is `current_song: null`. */
  datatype NowPlaying = NowPlaying(timestamp: int, currentSong: Option<Song>, listeners: Json, rawData: Json, error: ErrorField)

  datatype MetadataFetch = MetadataFetch(slug: string, url: string)

  datatype Station = Station(id: int, title: string, streamUrl: string, metadataFetches: seq<MetadataFetch>)

  // ---------------------------------------------------------------------
  // Title split, shared by all six extractors

  /** `const [firstPart, lastPart] = parts`, then: both non-empty gives
      artist = first and name = second, otherwise name = first and no
      artist; both trimmed. Later pieces are ignored. */
  function SongFromParts(parts: seq<string>): (song: Song)
    requires |parts| >= 1
  {
    if parts[0] != "" && |parts| >= 2 && parts[1] != ""
    then Song(Trim(parts[1]), Trim(parts[0]))
    else Song(Trim(parts[0]), "")
  }

  /** The split of a title string on `" - "`: the text before the first
      separator is the artist and the text between the first and the second
      separator the song name, when both are non-empty; otherwise the whole
      text before the first separator is the name. */
  function SplitTitle(title: string): (song: Song)
    ensures IndexOf(title, TitleSeparator).None? ==> song == Song(Trim(title), "")
    ensures IndexOf(title, TitleSeparator).Some? ==>
      var i := IndexOf(title, TitleSeparator).value;
      var second := Split(title[i + |TitleSeparator|..], TitleSeparator)[0];
      song == if i > 0 && second != "" then Song(Trim(second), Trim(title[..i])) else Song(Trim(title[..i]), "")
  {
    SongFromParts(Split(title, TitleSeparator))
  }

  /** `v?.split(" - ")` succeeds for a string and for `null`/`undefined`. */
  predicate Splittable(v: Option<Json>) {
    v.None? || v.value.JNull? || v.value.JString?
  }

  /** `v?.split(" - ") || ["", ""]` followed by the split rule: a missing
      title gives an empty song; a value that is not a string and not
      nullish has no `split` and throws. */
  function SongOfTitle(v: Option<Json>): (r: Result<Song, Failure>)
    ensures r.Ok? <==> Splittable(v)
    ensures v.None? || v == Some(JNull) ==> r == Ok(Song("", ""))
    ensures v.Some? && v.value.JString? ==> r == Ok(SplitTitle(v.value.s))
  {
    match v
    case None => Ok(SongFromParts(["", ""]))
    case Some(JNull) => Ok(SongFromParts(["", ""]))
    case Some(JString(s)) => Ok(SplitTitle(s))
    case Some(_) => Err(TypeError("title.split is not a function"))
  }

  /** A scanned tag: a stored string, or `undefined`. */
  function SongOfTag(v: Option<string>): (song: Song)
    ensures v.None? ==> song == Song("", "")
    ensures v.Some? ==> song == SplitTitle(v.value)
  {
    match v
    case None => SongFromParts(["", ""])
    case Some(s) => SplitTitle(s)
  }

  /** `"Artist - Song"`: the artist before the separator, the name after it,
      and anything after a second separator is dropped. The artist must not
      end in a way that lets a separator start inside it. */
  lemma {:induction false} ArtistDashSong(artist: string, name: string, rest: Option<string>)
    requires artist != "" && !Contains(artist, TitleSeparator)
    requires artist[|artist| - 1] != ' ' && artist[|artist| - 1] != '-'
    requires name != "" && !Contains(name, TitleSeparator)
    requires rest.Some? ==> name[|name| - 1] != ' ' && name[|name| - 1] != '-'
    ensures
      var title := artist + TitleSeparator + name + (if rest.Some? then TitleSeparator + rest.value else "");
      SplitTitle(title) == Song(Trim(name), Trim(artist))
  {
    var tail := name + (if rest.Some? then TitleSeparator + rest.value else "");
    var title := artist + TitleSeparator + name + (if rest.Some? then TitleSeparator + rest.value else "");
    assert title == artist + TitleSeparator + tail;
    FirstSeparatorAfter(artist, tail);
    assert title[..|artist|] == artist;
    assert title[|artist| + |TitleSeparator|..] == tail;
    match rest
    case None =>
      assert tail == name;
      SplitFirstPiece(name, TitleSeparator);
    case Some(more) =>
      assert tail == name + TitleSeparator + more;
      FirstSeparatorAfter(name, more);
      assert tail[..|name|] == name;
      SplitFirstPiece(tail, TitleSeparator);
  }

  /** The first separator of `a + " - " + b` is the one after `a` when no
      separator starts inside `a`. */
  lemma FirstSeparatorAfter(a: string, b: string)
    requires a != "" && !Contains(a, TitleSeparator)
    requires a[|a| - 1] != ' ' && a[|a| - 1] != '-'
    ensures IndexOf(a + TitleSeparator + b, TitleSeparator) == Some(|a|)
  {
    var t := a + TitleSeparator + b;
    assert OccursAt(t, TitleSeparator, |a|) by {
      assert t[|a|..|a| + 3] == TitleSeparator;
    }
    forall j | 0 <= j < |a| ensures !OccursAt(t, TitleSeparator, j) {
      if j + 3 <= |a| {
        assert t[j..j + 3] == a[j..j + 3];
        assert !OccursAt(a, TitleSeparator, j);
      } else if j == |a| - 1 {
        assert t[j] == a[|a| - 1];
        assert t[j..j + 3][0] == t[j];
      } else {
        assert j == |a| - 2;
        assert t[j + 1] == a[|a| - 1];
        assert t[j..j + 3][1] == t[j + 1];
      }
    }
  }

  /** `" - B"`: the first piece is empty, so the name is empty and the
      artist too; the second piece is lost. */
  lemma LeadingSeparator()
    ensures SplitTitle(" - B") == Song("", "")
  {
    assert OccursAt(" - B", TitleSeparator, 0);
    assert IndexOf(" - B", TitleSeparator) == Some(0);
  }

  // ---------------------------------------------------------------------
  // The six extractors, on the decoded body

  /** A tag value as the JavaScript value it is. */
  function TagValue(v: Option<string>): Option<Json> {
    if v.Some? then Some(JString(v.value)) else None
  }

  /** Shoutcast JSON: `songtitle` and `currentlisteners`. */
  function ShoutcastReading(data: Json, now: int): (r: Result<Reading, Failure>)
    ensures r.Ok? <==> !data.JNull? && Splittable(Chain(Some(data), "songtitle"))
    ensures r.Ok? ==> r.value == Reading(now, Some(SongOfTitle(Chain(Some(data), "songtitle")).value), OrNull(Chain(Some(data), "currentlisteners")))
  {
    var title :- Get(Some(data), "songtitle");
    var song :- SongOfTitle(title);
    // `data` is not nullish here, so this read cannot throw
    var listeners := Chain(Some(data), "currentlisteners");
    Ok(Reading(now, Some(song), OrNull(listeners)))
  }

  /** Radio.co JSON: `current_track.title` and `currentlisteners`; a missing
      `current_track` throws. */
  function RadioCoReading(data: Json, now: int): (r: Result<Reading, Failure>)
    ensures r.Ok? <==>
      && !data.JNull? && Chain(Some(data), "current_track").Some? && !Chain(Some(data), "current_track").value.JNull?
      && Splittable(Chain(Chain(Some(data), "current_track"), "title"))
    ensures r.Ok? ==> r.value == Reading(now, Some(SongOfTitle(Chain(Chain(Some(data), "current_track"), "title")).value), OrNull(Chain(Some(data), "currentlisteners")))
  {
    var track :- Get(Some(data), "current_track");
    var title :- Get(track, "title");
    var song :- SongOfTitle(title);
    // `data` is not nullish here, so this read cannot throw
    var listeners := Chain(Some(data), "currentlisteners");
    Ok(Reading(now, Some(song), OrNull(listeners)))
  }

  /** Icecast JSON: the selected source's `title` and `listeners`; an
      unselected source (`undefined`) throws on reading its title. (A
      selected source is an object: `find` has read its `listenurl`.) */
  function IcecastReading(url: string, data: Json, now: int): (r: Result<Reading, Failure>)
    ensures
      var selected := SelectSource(data, ListenUrlParam(url));
      r.Ok? <==> selected.Ok? && selected.value.Some? && Splittable(Chain(selected.value, "title"))
    ensures
      var selected := SelectSource(data, ListenUrlParam(url));
      r.Ok? ==> r.value == Reading(now, Some(SongOfTitle(Chain(selected.value, "title")).value), OrNull(Chain(selected.value, "listeners")))
  {
    var source :- SelectSource(data, ListenUrlParam(url));
    var title :- Get(source, "title");
    var song :- SongOfTitle(title);
    // `source` is not nullish here, so this read cannot throw
    var listeners := Chain(source, "listeners");
    Ok(Reading(now, Some(song), OrNull(listeners)))
  }

  /** The reading built from a scanned dictionary. */
  function TagReading(data: TagData, titleKey: string, listenersKey: string, now: int): Reading {
    Reading(now, Some(SongOfTag(Lookup(data, titleKey))), OrNull(TagValue(Lookup(data, listenersKey))))
  }

  /** Shoutcast XML: the page with its first `SHOUTCASTSERVER` removed;
      `.replace` throws when the body is not text. */
  function XmlReading(page: Json, now: int): (r: Result<Reading, Failure>)
    ensures r.Ok? <==> page.JString?
  {
    if page.JString?
    then Ok(TagReading(Tags(XmlTag, ReplaceFirst(page.s, "SHOUTCASTSERVER", "")), "SONGTITLE", "CURRENTLISTENERS", now))
    else Err(TypeError("xml_page.replace is not a function"))
  }

  /** Old Icecast HTML: `exec` reads the body as text. */
  function OldIcecastReading(page: Json, now: int): (r: Result<Reading, Failure>)
    ensures r.Ok?
  {
    Ok(TagReading(Tags(IcecastRow, ToText(page)), "Current Song", "Current Listeners", now))
  }

  /** Old Shoutcast HTML: the song comes from the `(N unique)` count in the
      `Stream Status` tag; `exec(undefined)` searches the text "undefined". */
  function OldShoutcastReading(page: Json, now: int): (r: Result<Reading, Failure>)
    ensures r.Ok?
  {
    var data := Tags(ShoutcastRow, ToText(page));
    var status := Lookup(data, "Stream Status");
    var count := UniqueCount(if status.Some? then status.value else "undefined", 0);
    Ok(Reading(now, Some(SongOfTag(count)), OrNull(TagValue(Lookup(data, "Current Listeners")))))
  }

  /** The `statsExtractor` of each format. */
  function ReadingOf(kind: Kind, url: string, body: Json, now: int): (r: Result<Reading, Failure>)
    ensures r.Ok? ==> r.value.currentSong.Some? && r.value.timestamp == now
    ensures r.Ok? ==> r.value.listeners == JNull || Truthy(Some(r.value.listeners))
  {
    match kind
    case Shoutcast => ShoutcastReading(body, now)
    case RadioCo => RadioCoReading(body, now)
    case Icecast => IcecastReading(url, body, now)
    case ShoutcastXml => XmlReading(body, now)
    case OldIcecastHtml => OldIcecastReading(body, now)
    case OldShoutcastHtml => OldShoutcastReading(body, now)
  }

  /** The extractors, with the three tag scans run as the scraper runs them. */
  method StatsExtractor(kind: Kind, url: string, body: Json, now: int) returns (r: Result<Reading, Failure>)
    ensures r == ReadingOf(kind, url, body, now)
  {
    match kind {
      case Shoutcast => r := ShoutcastReading(body, now);
      case RadioCo => r := RadioCoReading(body, now);
      case Icecast => r := IcecastReading(url, body, now);
      case ShoutcastXml =>
        if !body.JString? {
          r := Err(TypeError("xml_page.replace is not a function"));
          return;
        }
        var page := ReplaceFirst(body.s, "SHOUTCASTSERVER", "");
        var data := ScanTags(XmlTag, page);
        r := Ok(TagReading(data, "SONGTITLE", "CURRENTLISTENERS", now));
      case OldIcecastHtml =>
        var data := ScanTags(IcecastRow, ToText(body));
        r := Ok(TagReading(data, "Current Song", "Current Listeners", now));
      case OldShoutcastHtml =>
        var data := ScanTags(ShoutcastRow, ToText(body));
        var status := Lookup(data, "Stream Status");
        var count := UniqueCount(if status.Some? then status.value else "undefined", 0);
        r := Ok(Reading(now, Some(SongOfTag(count)), OrNull(TagValue(Lookup(data, "Current Listeners")))));
    }
  }

  /** The old Shoutcast pattern names its value group `param_value` while the
      loop stores `groups.value`, so every stored value is `undefined`: the
      extractor yields an empty song and `null` listeners whatever the page. */
  lemma OldShoutcastAlwaysEmpty(page: Json, now: int)
    ensures OldShoutcastReading(page, now) == Ok(Reading(now, Some(Song("", "")), JNull))
  {
    var text := ToText(page);
    ShoutcastRowStoresUndefined(text, 0);
    var data := Tags(ShoutcastRow, text);
    assert Lookup(data, "Stream Status") == None;
    assert Lookup(data, "Current Listeners") == None;
    UniqueCountOfUndefined();
  }

  /** What a tag reading promises about the scanned matches `ms`: the song is
      split from the last match storing `titleKey` (an empty song when none
      does), and the listener count is the last match storing `listenersKey`
      under `|| null` (`null` when none does). */
  ghost predicate ReadsLastTags(r: Reading, ms: seq<Match>, titleKey: string, listenersKey: string) {
    && (forall j :: LastStore(ms, j, titleKey) ==> r.currentSong == Some(SongOfTag(ValueOf(ms[j]))))
    && (NoStore(ms, titleKey) ==> r.currentSong == Some(Song("", "")))
    && (forall j :: LastStore(ms, j, listenersKey) ==> r.listeners == OrNull(TagValue(ValueOf(ms[j]))))
    && (NoStore(ms, listenersKey) ==> r.listeners == JNull)
  }

  lemma TagReadingReadsLastTags(ms: seq<Match>, titleKey: string, listenersKey: string, now: int)
    ensures ReadsLastTags(TagReading(Dictionary(ms), titleKey, listenersKey, now), ms, titleKey, listenersKey)
  {
    LookupAfterScan(ms, titleKey);
    LookupAfterScan(ms, listenersKey);
  }

  /** A later tag of the same name overwrites an earlier one: the XML song is
      split from the last `SONGTITLE` tag and the listener count is the last
      `CURRENTLISTENERS` tag, once the first `SHOUTCASTSERVER` is removed. */
  lemma XmlLastTagsWin(page: string, now: int)
    ensures XmlReading(JString(page), now).Ok?
    ensures
      var r := XmlReading(JString(page), now).value;
      && r.timestamp == now
      && ReadsLastTags(r, Matches(XmlTag, ReplaceFirst(page, "SHOUTCASTSERVER", ""), 0), "SONGTITLE", "CURRENTLISTENERS")
  {
    TagReadingReadsLastTags(Matches(XmlTag, ReplaceFirst(page, "SHOUTCASTSERVER", ""), 0), "SONGTITLE", "CURRENTLISTENERS", now);
  }

  /** The old Icecast song is split from the last `Current Song` row and the
      listener count is the last `Current Listeners` row, of the body read as
      text. */
  lemma OldIcecastLastTagsWin(page: Json, now: int)
    ensures OldIcecastReading(page, now).Ok?
    ensures
      var r := OldIcecastReading(page, now).value;
      && r.timestamp == now
      && ReadsLastTags(r, Matches(IcecastRow, ToText(page), 0), "Current Song", "Current Listeners")
  {
    TagReadingReadsLastTags(Matches(IcecastRow, ToText(page), 0), "Current Song", "Current Listeners", now);
  }

  /** With a status URL whose `listen_url=` parameter is `/live` (such as
      `ExampleUrl`), the second of two mounts is read: when it holds only
      `listenurl` and a title `a - n` with a one-character artist `a` and a
      one-character name `n`, the reading is artist `a` and name `n`, and the
      missing listener count reads `null`. */
  lemma IcecastSecondMountReading(url: string, data: Json, low: Json, live: Json, a: char, n: char, now: int)
    requires ListenUrlParam(url) == "/live"
    requires !IsWhiteSpace(a) && a != '-' && !IsWhiteSpace(n)
    requires low.JObject? && "listenurl" in low.fields && low.fields["listenurl"] == JString("http://r.ro/low")
    requires live == JObject(map["listenurl" := JString("http://r.ro/live"), "title" := JString([a] + TitleSeparator + [n])])
    requires data == JObject(map["icestats" := JObject(map["source" := JArray([low, live])])])
    ensures IcecastReading(url, data, now) == Ok(Reading(now, Some(Song([n], [a])), JNull))
  {
    assert SelectSource(data, ListenUrlParam(url)) == Ok(Some(live)) by {
      TwoMounts(low, live);
      ExampleUrlParam();
    }
    assert Chain(Some(live), "title") == Some(JString([a] + TitleSeparator + [n]));
    assert Chain(Some(live), "listeners") == None;
    OneCharacterSplit(a, n);
    IcecastReadsSelected(url, data, now, live, [a] + TitleSeparator + [n]);
  }

  /** A selected source with a text title gives the split of that title. */
  lemma IcecastReadsSelected(url: string, data: Json, now: int, source: Json, title: string)
    requires SelectSource(data, ListenUrlParam(url)) == Ok(Some(source))
    requires Chain(Some(source), "title") == Some(JString(title))
    ensures IcecastReading(url, data, now) == Ok(Reading(now, Some(SplitTitle(title)), OrNull(Chain(Some(source), "listeners"))))
  {
  }

  /** `"A - N"` with one-character artist and name. */
  lemma OneCharacterSplit(a: char, n: char)
    requires !IsWhiteSpace(a) && a != '-' && !IsWhiteSpace(n)
    ensures SplitTitle([a] + TitleSeparator + [n]) == Song([n], [a])
  {
    var title := [a] + TitleSeparator + [n];
    var parts := Split(title, TitleSeparator);
    OneCharacterPieces(a, n);
    TwoPieces([a], [n]);
    var song := SongFromParts(parts);
    assert song == Song(Trim([n]), Trim([a]));
    OneCharacter(a);
    OneCharacter(n);
    assert song == Song([n], [a]);
    assert SplitTitle(title) == song;
  }

  lemma OneCharacterPieces(a: char, n: char)
    requires !IsWhiteSpace(a) && a != '-' && !IsWhiteSpace(n)
    ensures Split([a] + TitleSeparator + [n], TitleSeparator) == [[a], [n]]
  {
    ShorterThanSeparator([a]);
    ShorterThanSeparator([n]);
    FirstSeparatorAfter([a], [n]);
    SplitOnce([a], TitleSeparator, [n]);
  }

  lemma TwoPieces(first: string, last: string)
    requires first != "" && last != ""
    ensures SongFromParts([first, last]) == Song(Trim(last), Trim(first))
  {
  }

  /** A single non-space character trims to itself. */
  lemma OneCharacter(c: char)
    requires !IsWhiteSpace(c)
    ensures Trim([c]) == [c]
  {
  }

  lemma ShorterThanSeparator(s: string)
    requires |s| < |TitleSeparator|
    ensures !Contains(s, TitleSeparator)
  {
  }

  // ---------------------------------------------------------------------
  // statsFormatter and the extraction record

  /** `statsFormatter` on one song: both fields cleaned, then a name of one
      or two characters dropped. */
  function FormatSong(song: Song): (r: Song)
    ensures r.name == "" || |r.name| >= 3
    ensures r.artist == NormalizeText(song.artist)
    ensures r.name != "" ==> r.name == NormalizeText(song.name)
    ensures r.name == "" <==> |NormalizeText(song.name)| < 3
  {
    Song(DropShortName(NormalizeText(song.name)), NormalizeText(song.artist))
  }

  /** After formatting, both fields contain only allowed characters and
      neither starts with a lower-case ASCII letter. */
  lemma FormatSongClean(song: Song)
    ensures forall k :: 0 <= k < |FormatSong(song).name| ==> IsAllowed(FormatSong(song).name[k])
    ensures forall k :: 0 <= k < |FormatSong(song).artist| ==> IsAllowed(FormatSong(song).artist[k])
    ensures FormatSong(song).name != "" ==> !IsAsciiLower(FormatSong(song).name[0])
    ensures FormatSong(song).artist != "" ==> !IsAsciiLower(FormatSong(song).artist[0])
  {
    NormalizeTextClean(song.name);
    NormalizeTextClean(song.artist);
  }

  /** `statsFormatter(stats)`: rebuilds `current_song` when it is set, then
      clears a short name in place. */
  method StatsFormatter(stats: Reading) returns (r: Reading)
    ensures r.timestamp == stats.timestamp && r.listeners == stats.listeners
    ensures stats.currentSong.None? ==> r.currentSong.None?
    ensures stats.currentSong.Some? ==> r.currentSong == Some(FormatSong(stats.currentSong.value))
  {
    r := stats;
    if r.currentSong.Some? {
      var song := r.currentSong.value;
      r := r.(currentSong := Some(Song(NormalizeText(song.name), NormalizeText(song.artist))));
    }
    if r.currentSong.Some? && 0 < |r.currentSong.value.name| < 3 {
      r := r.(currentSong := Some(r.currentSong.value.(name := "")));
    }
  }

  /** The record `extractNowPlaying`'s `catch` returns. */
  function FailureRecord(now: int, failure: Failure): NowPlaying {
    NowPlaying(now, None, JNull, JObject(map[]), ErrorSet(failure))
  }

  /** `extractNowPlaying`: the formatted reading and the raw body, or the
      failure record when the request is rejected or the extractor throws. */
  function NowPlayingOf(kind: Kind, url: string, reply: FetchOutcome, now: int): (np: NowPlaying)
    ensures np.error.NoErrorField? <==> reply.Delivered? && ReadingOf(kind, url, reply.body, now).Ok?
    ensures np.error.NoErrorField? ==> np.rawData == reply.body && np.currentSong.Some?
    ensures np.listeners == JNull || Truthy(Some(np.listeners))
    ensures !np.error.NoErrorField? ==> np.error.ErrorSet? && np == FailureRecord(now, np.error.failure)
  {
    match reply
    case Rejected(reason) => FailureRecord(now, RequestFailed(reason))
    case Delivered(body) =>
      match ReadingOf(kind, url, body, now)
      case Err(failure) => FailureRecord(now, failure)
      case Ok(reading) =>
        NowPlaying(now, Some(FormatSong(reading.currentSong.value)), reading.listeners, body, NoErrorField)
  }

  method ExtractNowPlaying(kind: Kind, url: string, reply: FetchOutcome, now: int) returns (np: NowPlaying)
    ensures np == NowPlayingOf(kind, url, reply, now)
  {
    if reply.Rejected? {
      return FailureRecord(now, RequestFailed(reply.reason));
    }
    var reading := StatsExtractor(kind, url, reply.body, now);
    if reading.Err? {
      return FailureRecord(now, reading.error);
    }
    var formatted := StatsFormatter(reading.value);
    np := NowPlaying(formatted.timestamp, formatted.currentSong, formatted.listeners, reply.body, NoErrorField);
  }

  /** A song that reaches the database is cleaned: allowed characters only,
      no leading lower-case ASCII letter, and a name that is empty or at
      least three characters long. */
  lemma StoredSongIsClean(kind: Kind, url: string, reply: FetchOutcome, now: int)
    ensures
      var np := NowPlayingOf(kind, url, reply, now);
      np.currentSong.Some? ==> CleanSong(np.currentSong.value)
  {
    var np := NowPlayingOf(kind, url, reply, now);
    if np.currentSong.Some? {
      FormattedSongIsClean(ReadingOf(kind, url, reply.body, now).value.currentSong.value);
    }
  }

  /** A field the database accepts: allowed characters only, so no digit and
      none of `#`, `;` and `_`. */
  predicate CleanField(s: string) {
    forall k :: 0 <= k < |s| ==> IsAllowed(s[k]) && !IsDigit(s[k]) && s[k] !in "#;_"
  }

  /** A cleaned song: both fields clean, and a name that is empty or at least
      three characters long. */
  predicate CleanSong(song: Song) {
    CleanField(song.name) && CleanField(song.artist) && (song.name == "" || |song.name| >= 3)
  }

  lemma FormattedSongIsClean(song: Song)
    ensures CleanSong(FormatSong(song))
  {
    var r := FormatSong(song);
    FormatSongClean(song);
    AllowedIsClean(r.name);
    AllowedIsClean(r.artist);
  }

  lemma AllowedIsClean(s: string)
    requires forall k :: 0 <= k < |s| ==> IsAllowed(s[k])
    ensures CleanField(s)
  {
    forall k | 0 <= k < |s| ensures !IsDigit(s[k]) && s[k] !in "#;_" {
      if IsDigit(s[k]) || s[k] in "#;_" { MarksNotAllowed(s[k]); }
    }
  }

  /** When no listed source matches the `listen_url` parameter the Icecast
      extractor throws, so the record is the failure record. */
  lemma IcecastNoMatchFails(url: string, body: Json, now: int)
    requires SourceList(body).Some?
    requires forall j :: 0 <= j < |SourceList(body).value| ==> Includes(SourceList(body).value[j], ListenUrlParam(url)) == Ok(false)
    ensures
      var np := NowPlayingOf(Icecast, url, Delivered(body), now);
      np.currentSong.None? && np.listeners == JNull && np.rawData == JObject(map[]) && np.error.ErrorSet?
  {
    FindNone(SourceList(body).value, ListenUrlParam(url));
  }

  // ---------------------------------------------------------------------
  // getStationNowPlaying

  /** The first descriptor whose slug names a known format. */
  function FirstKnown(fetches: seq<MetadataFetch>): (r: Option<nat>)
    ensures r.Some? ==> r.value < |fetches| && KindOfSlug(fetches[r.value].slug).Some?
    ensures r.Some? ==> forall j :: 0 <= j < r.value ==> KindOfSlug(fetches[j].slug).None?
    ensures r.None? ==> forall j :: 0 <= j < |fetches| ==> KindOfSlug(fetches[j].slug).None?
  {
    if fetches == [] then None
    else if KindOfSlug(fetches[0].slug).Some? then Some(0)
    else
      var rest := FirstKnown(fetches[1..]);
      if rest.Some? then Some(rest.value + 1) else None
  }

  lemma {:induction false} FirstKnownAt(fetches: seq<MetadataFetch>, i: nat)
    requires i < |fetches| && KindOfSlug(fetches[i].slug).Some?
    requires forall j :: 0 <= j < i ==> KindOfSlug(fetches[j].slug).None?
    ensures FirstKnown(fetches) == Some(i)
  {
    if i > 0 {
      assert forall j :: 0 <= j < i - 1 ==> fetches[1..][j] == fetches[j + 1];
      FirstKnownAt(fetches[1..], i - 1);
    }
  }

  /** The record of a station with no descriptor of a known format. */
  function NoSourceRecord(now: int): NowPlaying {
    NowPlaying(now, None, JNull, JObject(map[]), NullError)
  }

  /** What `getStationNowPlaying` returns, `reply` being the answer to the
      one request it makes. */
  function StationNowPlaying(station: Station, reply: FetchOutcome, now: int): (np: NowPlaying)
    ensures np.error.NullError? <==> FirstKnown(station.metadataFetches).None?
  {
    match FirstKnown(station.metadataFetches)
    case None => NoSourceRecord(now)
    case Some(i) =>
      var fetch := station.metadataFetches[i];
      NowPlayingOf(KindOfSlug(fetch.slug).value, fetch.url, reply, now)
  }

  /** `getStationNowPlaying`: the descriptors in order; the first known slug
      decides, unknown slugs are skipped. */
  method GetStationNowPlaying(station: Station, reply: FetchOutcome, now: int) returns (np: NowPlaying)
    ensures np == StationNowPlaying(station, reply, now)
  {
    var fetches := station.metadataFetches;
    for i := 0 to |fetches|
      invariant forall j :: 0 <= j < i ==> KindOfSlug(fetches[j].slug).None?
    {
      var fetch := fetches[i];
      if KindOfSlug(fetch.slug).Some? {
        FirstKnownAt(fetches, i);
      }
      if fetch.slug == "shoutcast" {
        np := ExtractNowPlaying(Shoutcast, fetch.url, reply, now);
        return;
      }
      if fetch.slug == "radio_co" {
        np := ExtractNowPlaying(RadioCo, fetch.url, reply, now);
        return;
      }
      if fetch.slug == "icecast" {
        np := ExtractNowPlaying(Icecast, fetch.url, reply, now);
        return;
      }
      if fetch.slug == "shoutcast_xml" {
        np := ExtractNowPlaying(ShoutcastXml, fetch.url, reply, now);
        return;
      }
      if fetch.slug == "old_icecast_html" {
        np := ExtractNowPlaying(OldIcecastHtml, fetch.url, reply, now);
        return;
      }
      if fetch.slug == "old_shoutcast_html" {
        np := ExtractNowPlaying(OldShoutcastHtml, fetch.url, reply, now);
        return;
      }
    }
    np := NoSourceRecord(now);
  }

  /** With no known slug the record has no song, `null` listeners, an empty
      raw body and a `null` error. */
  lemma UnknownSlugsOnly(station: Station, reply: FetchOutcome, now: int)
    requires forall j :: 0 <= j < |station.metadataFetches| ==> KindOfSlug(station.metadataFetches[j].slug).None?
    ensures StationNowPlaying(station, reply, now) == NowPlaying(now, None, JNull, JObject(map[]), NullError)
  {
  }

  // ---------------------------------------------------------------------
  // getStationUptime

  datatype UptimeRaw = UptimeRaw(responseHeaders: map<string, string>, responseStatus: int)

  datatype Uptime = Uptime(timestamp: int, isUp: bool, latencyMs: int, rawData: UptimeRaw)

  /** axios resolves a request only for a status in 200..299 (its default
      `validateStatus`); other statuses reject like a network failure. */
  predicate AxiosAccepts(status: int) {
    200 <= status < 300
  }

  /** What `getStationUptime` reports for a probe. */
  function UptimeOf(probe: ProbeOutcome, now: int): (u: Uptime)
    ensures u.isUp <==> probe.Responded? && probe.status == 200
    ensures probe.Responded? && AxiosAccepts(probe.status) ==>
      && 0 <= u.latencyMs <= 1000 && u.latencyMs == LatencyMs(probe.elapsedNs)
      && u.rawData == UptimeRaw(probe.headers, probe.status)
    ensures !(probe.Responded? && AxiosAccepts(probe.status)) ==>
      !u.isUp && u.latencyMs == -1 && u.rawData == UptimeRaw(map[], -1)
    ensures u.timestamp == now
  {
    if probe.Responded? && AxiosAccepts(probe.status)
    then Uptime(now, probe.status == 200, LatencyMs(probe.elapsedNs), UptimeRaw(probe.headers, probe.status))
    else Uptime(now, false, -1, UptimeRaw(map[], -1))
  }

  /** `getStationUptime`: the sentinels -1 stay unless a response arrives. */
  method GetStationUptime(station: Station, probe: ProbeOutcome, now: int) returns (u: Uptime)
    ensures u == UptimeOf(probe, now)
  {
    var responseStatus := -1;
    var latencyMs: int := -1;
    var responseHeaders: map<string, string> := map[];
    if probe.Failed? || !AxiosAccepts(probe.status) {
      return Uptime(now, false, latencyMs, UptimeRaw(responseHeaders, responseStatus));
    }
    responseStatus := probe.status;
    responseHeaders := probe.headers;
    latencyMs := LatencyMs(probe.elapsedNs);
    if responseStatus != 200 {
      return Uptime(now, false, latencyMs, UptimeRaw(responseHeaders, responseStatus));
    }
    u := Uptime(now, true, latencyMs, UptimeRaw(responseHeaders, responseStatus));
  }

  // ---------------------------------------------------------------------
  // updateStationMetadata's answer and refreshStationsMetadata

  /** The answer to the database mutation: the decoded response body, or the
      rejection of the request. */
  datatype SinkOutcome = Answered(data: Json) | SinkRejected(reason: string)

  /** `typeof response.data?.data?.[field]?.id !== "undefined"`. */
  predicate IdDefined(data: Json, field: string) {
    Chain(Chain(Chain(Some(data), "data"), field), "id").Some?
  }

  /** The `done` flag: a falsy body or a truthy `errors` throws; otherwise
      both inserted rows must report an id. */
  function Done(answer: SinkOutcome): (r: Result<bool, Failure>)
    ensures r.Ok? <==> answer.Answered? && Truthy(Some(answer.data)) && !Truthy(Chain(Some(answer.data), "errors"))
    ensures r == Ok(true) <==>
      && answer.Answered? && Truthy(Some(answer.data)) && !Truthy(Chain(Some(answer.data), "errors"))
      && IdDefined(answer.data, "insert_stations_now_playing_one") && IdDefined(answer.data, "insert_stations_uptime_one")
  {
    match answer
    case SinkRejected(reason) => Err(RequestFailed(reason))
    case Answered(data) =>
      if !Truthy(Some(data)) then Err(TypeError("Invalid response"))
      else if Truthy(Chain(Some(data), "errors")) then Err(TypeError("Invalid response"))
      else Ok(IdDefined(data, "insert_stations_now_playing_one") && IdDefined(data, "insert_stations_uptime_one"))
  }

  datatype PollResult = PollResult(stationId: int, done: bool)

  /** What one station is sent to the database. */
  datatype StationUpdate = StationUpdate(stationId: int, nowPlaying: NowPlaying, uptime: Uptime)

  /** The network's answers for one station: the statistics request, the
      stream probe, the database mutation, and the clock. */
  datatype StationReplies = StationReplies(metadata: FetchOutcome, probe: ProbeOutcome, sink: SinkOutcome, now: int)

  function UpdateOf(station: Station, replies: StationReplies): StationUpdate {
    StationUpdate(station.id, StationNowPlaying(station, replies.metadata, replies.now), UptimeOf(replies.probe, replies.now))
  }

  /** The value of the whole cycle: one result per station in order, or the
      first failure of a database mutation. */
  function Cycle(stations: seq<Station>, replies: seq<StationReplies>): (r: Result<seq<PollResult>, Failure>)
    requires |replies| == |stations|
    ensures r.Ok? ==> |r.value| == |stations|
  {
    if stations == [] then Ok([])
    else
      match Done(replies[0].sink)
      case Err(e) => Err(e)
      case Ok(done) =>
        match Cycle(stations[1..], replies[1..])
        case Err(e) => Err(e)
        case Ok(rest) => Ok([PollResult(stations[0].id, done)] + rest)
  }

  /** A successful cycle has one result per station, in order, each with the
      station's id and the `done` flag of its post. */
  lemma {:induction false} CycleMeans(stations: seq<Station>, replies: seq<StationReplies>)
    requires |replies| == |stations|
    ensures Cycle(stations, replies).Ok? ==>
      forall i :: 0 <= i < |stations| ==>
        Cycle(stations, replies).value[i].stationId == stations[i].id && Done(replies[i].sink) == Ok(Cycle(stations, replies).value[i].done)
  {
    if stations != [] && Cycle(stations, replies).Ok? {
      CycleMeans(stations[1..], replies[1..]);
      var results := Cycle(stations, replies).value;
      var rest := Cycle(stations[1..], replies[1..]).value;
      assert results == [PollResult(stations[0].id, Done(replies[0].sink).value)] + rest;
      forall i | 1 <= i < |stations|
        ensures results[i].stationId == stations[i].id && Done(replies[i].sink) == Ok(results[i].done)
      {
        assert results[i] == rest[i - 1];
        assert replies[i] == replies[1..][i - 1] && stations[i] == stations[1..][i - 1];
      }
    }
  }

  /** The two reads `refreshStationsMetadata` makes for one station before
      posting them. */
  method PollStation(stations: seq<Station>, replies: seq<StationReplies>, i: nat, sent: seq<StationUpdate>) returns (next: seq<StationUpdate>)
    requires i < |stations| == |replies| && sent == Updates(stations, replies, i)
    ensures next == Updates(stations, replies, i + 1)
  {
    var station := stations[i];
    var nowPlaying := GetStationNowPlaying(station, replies[i].metadata, replies[i].now);
    var uptime := GetStationUptime(station, replies[i].probe, replies[i].now);
    UpdatesSnoc(stations, replies, i);
    next := sent + [StationUpdate(station.id, nowPlaying, uptime)];
  }

  /** `refreshStationsMetadata` run one station at a time: read the now
      playing record, probe the stream, post both, collect `{stationId,
      done}`. The first failed post rejects the cycle. */
  method RefreshStationsMetadata(stations: seq<Station>, replies: seq<StationReplies>)
    returns (results: Result<seq<PollResult>, Failure>, sent: seq<StationUpdate>)
    requires |replies| == |stations|
    ensures results == Cycle(stations, replies)
    ensures |sent| <= |stations| && sent == Updates(stations, replies, |sent|)
    ensures results.Ok? ==> |sent| == |stations|
    ensures results.Err? ==> |sent| > 0 && Done(replies[|sent| - 1].sink).Err?
    ensures results.Err? ==> forall k :: 0 <= k < |sent| - 1 ==> Done(replies[k].sink).Ok?
  {
    var done: seq<PollResult> := [];
    sent := [];
    for i := 0 to |stations|
      invariant |sent| == i && |done| == i
      invariant sent == Updates(stations, replies, i)
      invariant forall k :: 0 <= k < i ==> Done(replies[k].sink) == Ok(done[k].done) && done[k].stationId == stations[k].id
    {
      sent := PollStation(stations, replies, i, sent);
      var answer := Done(replies[i].sink);
      if answer.Err? {
        results := Err(answer.error);
        CycleFailsAt(stations, replies, i);
        return;
      }
      done := done + [PollResult(stations[i].id, answer.value)];
    }
    CycleSucceeds(stations, replies, done);
    results := Ok(done);
  }

  /** The updates sent for the first `n` stations. */
  function Updates(stations: seq<Station>, replies: seq<StationReplies>, n: nat): seq<StationUpdate>
    requires n <= |stations| == |replies|
  {
    seq(n, k requires 0 <= k < n => UpdateOf(stations[k], replies[k]))
  }

  lemma UpdatesSnoc(stations: seq<Station>, replies: seq<StationReplies>, n: nat)
    requires n < |stations| == |replies|
    ensures Updates(stations, replies, n + 1) == Updates(stations, replies, n) + [UpdateOf(stations[n], replies[n])]
  {
    var u := Updates(stations, replies, n) + [UpdateOf(stations[n], replies[n])];
    forall k | 0 <= k < n + 1 ensures Updates(stations, replies, n + 1)[k] == u[k] {
      if k < n {
        assert u[k] == Updates(stations, replies, n)[k];
      }
    }
  }

  /** The cycle fails with the first failure, whatever comes after it. */
  lemma {:induction false} CycleFailsAt(stations: seq<Station>, replies: seq<StationReplies>, i: nat)
    requires |replies| == |stations| && i < |stations|
    requires forall k :: 0 <= k < i ==> Done(replies[k].sink).Ok?
    requires Done(replies[i].sink).Err?
    ensures Cycle(stations, replies) == Err(Done(replies[i].sink).error)
  {
    if i > 0 {
      forall k | 0 <= k < i - 1 ensures Done(replies[1..][k].sink).Ok? {
        assert replies[1..][k] == replies[k + 1];
      }
      CycleFailsAt(stations[1..], replies[1..], i - 1);
    }
  }

  /** With every post answered the cycle yields exactly the collected results. */
  lemma {:induction false} CycleSucceeds(stations: seq<Station>, replies: seq<StationReplies>, done: seq<PollResult>)
    requires |replies| == |stations| == |done|
    requires forall k :: 0 <= k < |stations| ==> Done(replies[k].sink) == Ok(done[k].done) && done[k].stationId == stations[k].id
    ensures Cycle(stations, replies) == Ok(done)
  {
    if stations != [] {
      forall k | 0 <= k < |stations| - 1
        ensures Done(replies[1..][k].sink) == Ok(done[1..][k].done) && done[1..][k].stationId == stations[1..][k].id
      {
        assert replies[1..][k] == replies[k + 1] && done[1..][k] == done[k + 1] && stations[1..][k] == stations[k + 1];
      }
      CycleSucceeds(stations[1..], replies[1..], done[1..]);
      assert done == [PollResult(stations[0].id, done[0].done)] + done[1..];
    }
  }

  /** A failed post anywhere fails the cycle. */
  lemma {:induction false} CycleFailsIfAny(stations: seq<Station>, replies: seq<StationReplies>, i: nat)
    requires |replies| == |stations| && i < |stations| && Done(replies[i].sink).Err?
    ensures Cycle(stations, replies).Err?
  {
    if Done(replies[0].sink).Ok? {
      assert replies[1..][i - 1] == replies[i];
      CycleFailsIfAny(stations[1..], replies[1..], i - 1);
    }
  }

  /** The cycle rejects exactly when some post fails. */
  lemma CycleFailsIff(stations: seq<Station>, replies: seq<StationReplies>)
    requires |replies| == |stations|
    ensures Cycle(stations, replies).Err? <==> exists i :: 0 <= i < |stations| && Done(replies[i].sink).Err?
  {
    if exists i :: 0 <= i < |stations| && Done(replies[i].sink).Err? {
      var i :| 0 <= i < |stations| && Done(replies[i].sink).Err?;
      CycleFailsIfAny(stations, replies, i);
    } else {
      var done := seq(|stations|, k requires 0 <= k < |stations| => PollResult(stations[k].id, Done(replies[k].sink).value));
      CycleSucceeds(stations, replies, done);
    }
  }
}
