/** What both engines receive from the network, supplied as inputs: the
    decoded body of a statistics request or its rejection, and the answer
    of a probe of the audio stream. Also the six statistics formats and the
    latency computation both engines share. */
module Transport {
  import opened Wrappers
  import opened JsValues

  /** The six statistics formats a station can publish. */
  datatype Kind = Shoutcast | RadioCo | Icecast | ShoutcastXml | OldIcecastHtml | OldShoutcastHtml

  /** The descriptor slug the backend uses for each format. */
  function Slug(k: Kind): string {
    match k
    case Shoutcast => "shoutcast"
    case RadioCo => "radio_co"
    case Icecast => "icecast"
    case ShoutcastXml => "shoutcast_xml"
    case OldIcecastHtml => "old_icecast_html"
    case OldShoutcastHtml => "old_shoutcast_html"
  }

  /** The format a slug names, if it is one of the six known slugs. */
  function KindOfSlug(slug: string): (r: Option<Kind>)
    ensures r.Some? ==> Slug(r.value) == slug
    ensures r.None? ==> forall k: Kind :: Slug(k) != slug
  {
    if slug == "shoutcast" then Some(Shoutcast)
    else if slug == "radio_co" then Some(RadioCo)
    else if slug == "icecast" then Some(Icecast)
    else if slug == "shoutcast_xml" then Some(ShoutcastXml)
    else if slug == "old_icecast_html" then Some(OldIcecastHtml)
    else if slug == "old_shoutcast_html" then Some(OldShoutcastHtml)
    else None
  }

  /** Every format is recognised by its own slug, so distinct formats have
      distinct slugs. */
  lemma SlugRoundTrip(k: Kind)
    ensures KindOfSlug(Slug(k)) == Some(k)
  {
  }

  /** The first three formats are JSON documents; the last three are pages of
      text. */
  predicate DecodesJson(k: Kind) {
    k.Shoutcast? || k.RadioCo? || k.Icecast?
  }

  /** The outcome of a statistics request: the decoded body (a text page is a
      `JString`), or the rejection of the request or of its decoding. */
  datatype FetchOutcome = Delivered(body: Json) | Rejected(reason: string)

  /** The outcome of a probe of the audio stream: the final response, with its
      status, its headers, the time elapsed since the probe started in
      nanoseconds, and the body text if reading it succeeded; or a failure
      (refused connection, timeout). */
  datatype ProbeOutcome =
    | Responded(status: int, headers: map<string, string>, elapsedNs: nat, text: Option<string>)
    | Failed(reason: string)

  /** `Math.round(process.hrtime(start)[1] / 1000000)`: the nearest whole
      number of milliseconds (halves round up) to the NANOSECOND component of
      the elapsed time only, which drops whole seconds; hence at most 1000. */
  function LatencyMs(elapsedNs: nat): (ms: nat)
    ensures ms <= 1000
    ensures ms * 1_000_000 <= elapsedNs % 1_000_000_000 + 500_000 < (ms + 1) * 1_000_000
  {
    (elapsedNs % 1_000_000_000 + 500_000) / 1_000_000
  }

  /** Whole seconds do not count: a probe that took 1.2 s reports 200 ms. */
  lemma LatencyDropsSeconds(elapsedNs: nat)
    ensures LatencyMs(elapsedNs + 1_000_000_000) == LatencyMs(elapsedNs)
  {
  }
}
