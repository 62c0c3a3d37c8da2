/** Source selection of the Icecast extractors, the same in both engines:
    the text after `listen_url=` in the statistics URL picks, among the
    mounts listed in `icestats.source`, the first whose `listenurl` includes
    it. */
module IcecastSource {
  import opened Wrappers
  import opened Text
  import opened JsValues

  const ListenUrlKey := "listen_url="

  /** `/listen_url=(?<listen_url>.+)/gmi` can match at `i`: the key in any
      case, then at least one character that is not a line terminator. */
  predicate ListenUrlAt(url: string, i: int) {
    && OccursAtIgnoringCase(url, ListenUrlKey, i)
    && i + |ListenUrlKey| < |url|
    && !IsLineTerminator(url[i + |ListenUrlKey|])
  }

  /** The leftmost index at or after `from` where the expression matches. */
  function ListenUrlFrom(url: string, from: nat): (r: Option<nat>)
    ensures r.Some? ==> from <= r.value && ListenUrlAt(url, r.value)
    ensures r.Some? ==> forall j :: from <= j < r.value ==> !ListenUrlAt(url, j)
    ensures r.None? ==> forall j :: from <= j ==> !ListenUrlAt(url, j)
    decreases |url| - from
  {
    if from >= |url| then None
    else if ListenUrlAt(url, from) then Some(from)
    else ListenUrlFrom(url, from + 1)
  }

  /** `exec(url)?.groups?.listen_url || ""`: the rest of the line after the
      leftmost `listen_url=` (greedy `.+`), or the empty string. */
  function ListenUrlParam(url: string): (r: string)
    ensures r == "" <==> forall i :: !ListenUrlAt(url, i)
    ensures r != "" ==> exists i ::
      && ListenUrlAt(url, i) && (forall j :: 0 <= j < i ==> !ListenUrlAt(url, j))
      && r == url[i + |ListenUrlKey|..LineEnd(url, i + |ListenUrlKey|)]
    ensures forall k :: 0 <= k < |r| ==> !IsLineTerminator(r[k])
  {
    match ListenUrlFrom(url, 0)
    case None => ""
    case Some(i) =>
      var a := i + |ListenUrlKey|;
      assert LineEnd(url, a) > a;
      url[a..LineEnd(url, a)]
  }

  /** The callback of `find`: `source.listenurl.includes(listenurl)`. Reading
      `listenurl` of `null` throws; a missing `listenurl` is `undefined`, whose
      `includes` call throws, and so do numbers, booleans and objects. A
      string tests for a substring, an array for an element. */
  function Includes(source: Json, param: string): (r: Result<bool, Failure>)
    ensures r == Ok(true) <==>
      || (source.JObject? && "listenurl" in source.fields && source.fields["listenurl"].JString? && Contains(source.fields["listenurl"].s, param))
      || (source.JObject? && "listenurl" in source.fields && source.fields["listenurl"].JArray? && JString(param) in source.fields["listenurl"].items)
  {
    var listenUrl :- Get(Some(source), "listenurl");
    match listenUrl
    case Some(JString(s)) => Ok(Contains(s, param))
    case Some(JArray(items)) => Ok(JString(param) in items)
    case _ => Err(TypeError("source.listenurl.includes is not a function"))
  }

  /** `sources.find(...)`: the index of the first source the callback accepts,
      `None` for `undefined` when none does, or the first exception thrown. */
  function Find(sources: seq<Json>, param: string): (r: Result<Option<nat>, Failure>)
    ensures r.Ok? && r.value.Some? ==>
      && r.value.value < |sources|
      && Includes(sources[r.value.value], param) == Ok(true)
      && forall j :: 0 <= j < r.value.value ==> Includes(sources[j], param) == Ok(false)
    ensures r.Ok? && r.value.None? ==> forall j :: 0 <= j < |sources| ==> Includes(sources[j], param) == Ok(false)
    ensures r.Err? ==>
      exists i :: 0 <= i < |sources| && Includes(sources[i], param) == Err(r.error)
        && forall j :: 0 <= j < i ==> Includes(sources[j], param) == Ok(false)
  {
    if sources == [] then Ok(None)
    else
      match Includes(sources[0], param)
      case Err(e) => Err(e)
      case Ok(true) => Ok(Some(0))
      case Ok(false) =>
        var rest :- Find(sources[1..], param);
        Ok(if rest.Some? then Some(rest.value + 1) else None)
  }

  /** When the callback rejects every source, `find` gives `undefined`. */
  lemma {:induction false} FindNone(sources: seq<Json>, param: string)
    requires forall j :: 0 <= j < |sources| ==> Includes(sources[j], param) == Ok(false)
    ensures Find(sources, param) == Ok(None)
  {
    if sources != [] {
      assert forall j :: 0 <= j < |sources| - 1 ==> sources[1..][j] == sources[j + 1];
      FindNone(sources[1..], param);
    }
  }

  /** `data.icestats.source`, when it is an array. */
  function SourceList(data: Json): Option<seq<Json>> {
    if && data.JObject? && "icestats" in data.fields
       && data.fields["icestats"].JObject? && "source" in data.fields["icestats"].fields
       && data.fields["icestats"].fields["source"].JArray?
    then Some(data.fields["icestats"].fields["source"].items)
    else None
  }

  /** `data["icestats"]["source"].find(...)`: the selected source, `None` for
      `undefined`. A missing `icestats`, or a `source` that is not an array
      (Icecast lists a lone mount as an object), throws. */
  function SelectSource(data: Json, param: string): (r: Result<Option<Json>, Failure>)
    ensures SourceList(data).None? ==> r.Err?
    ensures SourceList(data).Some? ==>
      var sources := SourceList(data).value;
      r == match Find(sources, param)
           case Err(e) => Err(e)
           case Ok(None) => Ok(None)
           case Ok(Some(i)) => Ok(Some(sources[i]))
  {
    var icestats :- Get(Some(data), "icestats");
    var source :- Get(icestats, "source");
    match source
    case Some(JArray(items)) =>
      var found :- Find(items, param);
      Ok(if found.Some? then Some(items[found.value]) else None)
    case _ => Err(TypeError("data.icestats.source.find is not a function"))
  }

  /** Without a `listen_url` parameter every string `listenurl` includes the
      empty text, so the first source is taken when its `listenurl` is a
      string. */
  lemma NoParamTakesFirst(url: string, sources: seq<Json>)
    requires forall i :: !ListenUrlAt(url, i)
    requires |sources| > 0 && sources[0].JObject? && "listenurl" in sources[0].fields && sources[0].fields["listenurl"].JString?
    ensures Find(sources, ListenUrlParam(url)) == Ok(Some(0))
  {
    assert OccursAt(sources[0].fields["listenurl"].s, "", 0);
  }

  const ExampleUrl := "http://r.ro/x?listen_url=/live"

  /** The parameter of a typical Icecast status URL. */
  lemma ExampleUrlParam()
    ensures ListenUrlParam(ExampleUrl) == "/live"
  {
    ExampleUrlKeyAt();
    ExampleUrlTail();
  }

  lemma ExampleUrlKeyAt()
    ensures ListenUrlFrom(ExampleUrl, 0) == Some(14)
  {
    var url := ExampleUrl;
    assert ListenUrlAt(url, 14);
    assert forall j :: 0 <= j < 14 ==> url[j] != 'l' && url[j] != 'L';
    forall j | 0 <= j < 14 ensures !ListenUrlAt(url, j) {
      assert FoldCase(url[j]) != FoldCase(ListenUrlKey[0]);
    }
  }

  lemma ExampleUrlTail()
    ensures 25 <= LineEnd(ExampleUrl, 25) && ExampleUrl[25..LineEnd(ExampleUrl, 25)] == "/live"
  {
    var url := ExampleUrl;
    assert url[25..] == "/live";
    LineEndOfLastLine(url, 25);
  }

  /** A parameter after `listen_url=` selects the mount whose URL contains it,
      skipping one listed earlier that does not, whatever else the two
      mounts hold. */
  lemma TwoMounts(low: Json, live: Json)
    requires low.JObject? && "listenurl" in low.fields && low.fields["listenurl"] == JString("http://r.ro/low")
    requires live.JObject? && "listenurl" in live.fields && live.fields["listenurl"] == JString("http://r.ro/live")
    ensures SelectSource(JObject(map["icestats" := JObject(map["source" := JArray([low, live])])]), ListenUrlParam(ExampleUrl)) == Ok(Some(live))
  {
    ExampleUrlParam();
    var data := JObject(map["icestats" := JObject(map["source" := JArray([low, live])])]);
    assert SourceList(data) == Some([low, live]);
    LowRejected(low);
    LiveAccepted(live);
    FindSecond(low, live, "/live");
  }

  /** `find` over two sources takes the second when the callback rejects the
      first and accepts the second. */
  lemma FindSecond(a: Json, b: Json, param: string)
    requires Includes(a, param) == Ok(false) && Includes(b, param) == Ok(true)
    ensures Find([a, b], param) == Ok(Some(1))
  {
    assert [a, b][1..] == [b];
  }

  lemma LowRejected(low: Json)
    requires low.JObject? && "listenurl" in low.fields && low.fields["listenurl"] == JString("http://r.ro/low")
    ensures Includes(low, "/live") == Ok(false)
  {
    NotInLow();
  }

  lemma LiveAccepted(live: Json)
    requires live.JObject? && "listenurl" in live.fields && live.fields["listenurl"] == JString("http://r.ro/live")
    ensures Includes(live, "/live") == Ok(true)
  {
    InLive();
  }

  lemma NotInLow()
    ensures !Contains("http://r.ro/low", "/live")
  {
    var a := "http://r.ro/low";
    assert forall k :: 0 <= k < |a| ==> a[k] != 'v';
    MissingCharNotContained(a, "/live", 3);

  }

  lemma InLive()
    ensures Contains("http://r.ro/live", "/live")
  {
    assert OccursAt("http://r.ro/live", "/live", 11);
  }
}
