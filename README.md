# radio-crestin "now playing" engines in Dafny

radio-crestin shows what Christian radio stations in Romania are playing.
Its repository has two polling engines that do nearly the same job under
different rules. This project models both and proves properties about them.

- **The backend scraper** is `backend/app/src/services/stationScrape.ts`,
  modelled in module `StationScrape`. For each station it does four things:
  - It reads the statistics page of the first descriptor whose slug names one
    of six known formats.
  - It extracts the title and splits it into artist and song at `" - "`.
  - It cleans both fields with `statsFormatter`.
  - It probes the audio stream for up/down status and latency, then posts
    both results to the database.
- **The website's refresher** is `radiocrestin/pages/api/v1/stations/refresh.ts`,
  modelled in module `StationsRefresh`. For each configured station it does
  three things:
  - It reads the raw statistics of every statistics URL the station defines.
    The last one read wins.
  - It probes the stream twice.
  - It merges the result into the in-memory cache by station id.

  The cache is rebuilt only when it is empty or stale.

Modules the two engines share:

- `Wrappers`: the `Option` and `Result` types.
- `Text`: the JavaScript string operations the code uses. These are
  `indexOf`, `includes`, `split`, `trim`, `replace` with a string pattern,
  and the regex classes `\s` and `.`.
- `JsValues`: decoded bodies as JavaScript values. It covers property reads
  that throw on `null`/`undefined`, optional chaining, truthiness, `|| null`
  and `String(v)`.
- `TagScan`: the three fixed tag regular expressions, written out as
  matchers. It also has the `exec`/`lastIndex` loop that fills the tag
  dictionary (`TagScan.ScanTags`).
- `Transport`: the formats and their slugs, the outcomes of requests and
  probes, and the latency formula.
- `IcecastSource`: the `listen_url=` source selection.
- `Normalize`: the backend's replace chain.

Everything the network, the clock or the database would supply is an input:
- decoded bodies or rejections;
- probe answers with status, headers, and elapsed nanoseconds;
- the database's answers;
- the current time in milliseconds.

Each imperative part of the source is a `method`. These are `statsFormatter`,
the three scan loops, the dispatcher's `for` loop, the probes, the cycle, the
two passes, the staleness `forEach` and the cache object. Each method is
proved equal to a function that specifies it, and the properties are proved
about those functions.

Points worth knowing about the code:

- **Character references.** `&#65;&#66;C` normalises to `ABC`: both
  references are decoded before the filter runs, and `C` is kept
  (`Normalize.DecodesBeforeFiltering`).
- **axios status check.** axios's default `validateStatus` accepts only
  statuses 200..299. A stream answering with any other status therefore goes
  down the backend's `catch` path and keeps the `-1` sentinels. The
  refresher uses `fetch`, which resolves on every status, so it keeps the
  real status (`StationsRefresh.EnginesAgreeOnUp`).
- **Inherited source bugs, modelled as written.** Two defects are kept
  exactly as the code has them.
  - The old-Shoutcast pattern names its group `param_value` but stores
    `groups.value`. As a result that extractor never yields a song or a
    listener count.
  - The refresher's Radio.co extractor reads `songtitle`, as the Shoutcast
    one does. The scraper reads `current_track.title`.

## Model

| member | source | states |
|---|---|---|
| Normalize.NormalizeTextClean | backend/app/src/services/stationScrape.ts:12-36 | a cleaned field contains only allowed characters and does not start with an ASCII lower-case letter |
| Normalize.AllowedIsClass | backend/app/src/services/stationScrape.ts:12 | the character test used by the filter accepts exactly the characters of the class as written, whose listed letters add only `ș` and `ț` to the `À-ž` range |
| Normalize.MarksNotAllowed | backend/app/src/services/stationScrape.ts:12 | digits, `#`, `;` and `_` are outside the allow-list, so the filter always removes them |
| Normalize.FilterAllowed | backend/app/src/services/stationScrape.ts:22 | the filter never lengthens the text |
| Normalize.FilterOnlyAllowed | backend/app/src/services/stationScrape.ts:22 | every character the filter keeps is allowed |
| Normalize.FilterDeletes | backend/app/src/services/stationScrape.ts:22 | between allowed texts, the filter deletes a disallowed character and keeps everything else |
| Normalize.FilterAppend | backend/app/src/services/stationScrape.ts:22 | filtering distributes over concatenation |
| Normalize.FilterKeepsAllowed | backend/app/src/services/stationScrape.ts:22 | a text made only of allowed characters passes the filter unchanged |
| Normalize.FilterIdempotent | backend/app/src/services/stationScrape.ts:22 | filtering twice gives the same result as filtering once |
| Normalize.CapitalizeFirst | backend/app/src/services/stationScrape.ts:23-25 | only a leading ASCII lower-case letter changes, to its upper case; the length and the rest of the text are kept |
| Normalize.CharRefAt | backend/app/src/services/stationScrape.ts:17 | a reference is `&#`, one or more digits, then `;`, and its code is the decimal value of the digits; a text not starting with `&` has no reference |
| Normalize.CharRefOf | backend/app/src/services/stationScrape.ts:17 | `&#d;` followed by any text reads as the code of the digits `d`, with length `\|d\|+3` |
| Normalize.FromCharCode | backend/app/src/services/stationScrape.ts:18 | the decoded character is the code modulo 2^16; a surrogate code unit becomes U+FFFD |
| Normalize.DecodeCharRefs | backend/app/src/services/stationScrape.ts:17-19 | decoding never lengthens the text |
| Normalize.DecodeWithoutAmpersand | backend/app/src/services/stationScrape.ts:17-19 | a text without `&` decodes to itself |
| Normalize.DecodesBeforeFiltering | backend/app/src/services/stationScrape.ts:17-25 | `&#65;&#66;C` normalises to `ABC`: each reference is decoded exactly once, before the filter runs |
| Normalize.UnderscoresBetweenWords | backend/app/src/services/stationScrape.ts:17-25 | for any three words (allowed characters, no `&`, no space), `a_b_c` normalises to the capitalised `a bc`: only the first `_` becomes a space, and the filter deletes the second |
| Normalize.DropShortName | backend/app/src/services/stationScrape.ts:39-43 | the resulting name is either empty or at least 3 characters long; a name of 3 or more characters is kept |
| Normalize.DigitRun | backend/app/src/services/stationScrape.ts:17 | the run of digits that `\d+` takes is maximal |
| Text.IndexOf | backend/app/src/services/stationScrape.ts:89 | the leftmost occurrence of a pattern, or none |
| Text.JoinSplit | backend/app/src/services/stationScrape.ts:89 | joining the pieces of `split(" - ")` with the separator gives back the title |
| Text.SplitPiecesAvoidSeparator | backend/app/src/services/stationScrape.ts:89 | no piece of a split contains the separator |
| Text.SplitFirstPiece | backend/app/src/services/stationScrape.ts:89 | the first piece of a split is the whole text up to the first separator |
| Text.SplitOnce | backend/app/src/services/stationScrape.ts:89 | a text with exactly one separator, after `x`, splits into `[x, y]` |
| Text.Trim | backend/app/src/services/stationScrape.ts:101-102 | the trimmed text neither starts nor ends with white space, and a text without white space is kept |
| Text.TrimStart | backend/app/src/services/stationScrape.ts:101-102 | only leading white space is removed |
| Text.TrimEnd | backend/app/src/services/stationScrape.ts:101-102 | only trailing white space is removed |
| Text.TrimIsSlice | backend/app/src/services/stationScrape.ts:101-102 | the trimmed text is a slice of the original, and everything cut from either end is white space |
| Text.ReplaceFirstKeepsTail | backend/app/src/services/stationScrape.ts:20-21 | a string-pattern `replace` changes only the first occurrence; everything after it is kept |
| Text.ReplaceFirstAbsent | backend/app/src/services/stationScrape.ts:20-21 | a text without the pattern is unchanged |
| Text.MissingCharNotContained | backend/app/src/services/stationScrape.ts:148 | a text lacking one of the pattern's characters does not include the pattern |
| Text.LineEnd | backend/app/src/services/stationScrape.ts:147 | the regex `.` runs up to the first line terminator |
| Text.DecimalValueOfNatToString | backend/app/src/services/stationScrape.ts:17-18 | reading back the decimal digits of a number gives the number |
| JsValues.Get | backend/app/src/services/stationScrape.ts:118 | a property read throws exactly on `null` and `undefined`; on an object it gives the field or `undefined` |
| JsValues.OrNull | backend/app/src/services/stationScrape.ts:104 | `v \|\| null` keeps a truthy value and turns every falsy one into `null` |
| JsValues.ScalarTextHasNoTag | backend/app/src/services/stationScrape.ts:242 | the string form of a value that is neither a string nor an array contains no `<`, so no tag matches in it |
| TagScan.ScanTags | backend/app/src/services/stationScrape.ts:187-200 | the `exec` loop fills exactly the dictionary of the matches, taken left to right from index 0 |
| TagScan.ScanStep | backend/app/src/services/stationScrape.ts:191 | a failed `exec` leaves no match to visit; a successful one is the next visited match and ends after `lastIndex` |
| TagScan.DictionarySnoc | backend/app/src/services/stationScrape.ts:197-199 | the dictionary of one more match is the previous dictionary with that match stored |
| TagScan.Exec | backend/app/src/services/stationScrape.ts:191 | `exec` from `lastIndex` returns the leftmost match at or after it; `null` means no match starts anywhere from `lastIndex` to the end |
| TagScan.ExecLeftmost | backend/app/src/services/stationScrape.ts:191 | no index between `lastIndex` and the match `exec` returns (or the end of the text, when it returns `null`) starts a match |
| TagScan.AllBetweenMeans | backend/app/src/services/stationScrape.ts:191 | the "every index of the range" predicate that states `exec`'s leftmost property holds exactly when the property holds at every index of the range |
| TagScan.MatchesInOrder | backend/app/src/services/stationScrape.ts:191-200 | the visited matches lie inside the page, run left to right, and do not overlap |
| TagScan.DictionaryKeys | backend/app/src/services/stationScrape.ts:197-199 | a key is in the dictionary exactly when some match stored it |
| TagScan.DictionaryLastWins | backend/app/src/services/stationScrape.ts:197-199 | a key holds the value of the last match that stored it |
| TagScan.LookupAfterScan | backend/app/src/services/stationScrape.ts:197-214 | after the loop, reading a key gives the value of the last match that stored it, and `undefined` when no match stored it |
| TagScan.StoreCases | backend/app/src/services/stationScrape.ts:197-199 | for every key, either no match stored it or there is a last match that did |
| TagScan.MatchesAreMatches | backend/app/src/services/stationScrape.ts:290-302 | every visited match is a match of the pattern at its own index |
| TagScan.ShoutcastRowStoresUndefined | backend/app/src/services/stationScrape.ts:290-302 | the old-Shoutcast scan stores `undefined` under every key, because the pattern has no `value` group |
| TagScan.ShoutcastMatchHasNoValue | backend/app/src/services/stationScrape.ts:290-298 | a visited old-Shoutcast match has no `value` group, so it stores `undefined` |
| TagScan.StoresUndefined | backend/app/src/services/stationScrape.ts:296-298 | any run of old-Shoutcast matches stores only `undefined` values |
| TagScan.NameRun | backend/app/src/services/stationScrape.ts:187 | the greedy `[a-zA-Z\s]+` is maximal |
| TagScan.LazyEnd | backend/app/src/services/stationScrape.ts:187 | the lazy `(.*?)</` stops at the first `</` on the line and never crosses a line terminator; it fails exactly when no `</` starts anywhere from the start of the value up to the line's end |
| TagScan.GreedyEnd | backend/app/src/services/stationScrape.ts:239 | the greedy `.*</td>` ends at the last `</td>` that fits on the current line, with none after it on that line; it fails exactly when no `</td>` fits on the line |
| TagScan.LastOccurrence | backend/app/src/services/stationScrape.ts:239 | the last occurrence of a pattern that fits within bounds, with no later one; none when it occurs nowhere in them |
| TagScan.LastStart | backend/app/src/services/stationScrape.ts:239 | the last start position up to a bound at which a pattern occurs, with none after it; none when it occurs at no position in range |
| TagScan.UniqueCount | backend/app/src/services/stationScrape.ts:304 | `[0-9+]` captures exactly one character |
| TagScan.UniqueCountOfUndefined | backend/app/src/services/stationScrape.ts:304 | `exec(undefined)` searches the text "undefined" and finds no count |
| TagScan.NoParenNoCount | backend/app/src/services/stationScrape.ts:304 | a text without `(` has no count |
| Transport.KindOfSlug | backend/app/src/services/stationScrape.ts:437-463 | a recognised slug is the slug of its format; an unrecognised slug is the slug of none of the six |
| Transport.SlugRoundTrip | backend/app/src/services/stationScrape.ts:437-463 | every format is recognised by its own slug |
| Transport.LatencyMs | backend/app/src/services/stationScrape.ts:359 | the latency is the nanosecond part of the elapsed time rounded to the nearest millisecond (halves up), so it lies in 0..1000 |
| Transport.LatencyDropsSeconds | backend/app/src/services/stationScrape.ts:359 | whole seconds of elapsed time do not change the latency |
| IcecastSource.ListenUrlFrom | backend/app/src/services/stationScrape.ts:147 | the leftmost case-insensitive `listen_url=` followed by a character that is not a line terminator |
| IcecastSource.ListenUrlParam | backend/app/src/services/stationScrape.ts:147 | the parameter is empty exactly when there is no match; otherwise it is the rest of the line after the leftmost `listen_url=` that is followed by a character other than a line terminator, and it has no line terminator |
| IcecastSource.Includes | backend/app/src/services/stationScrape.ts:148 | a source is accepted exactly when its `listenurl` is a string containing the parameter, or an array holding it |
| IcecastSource.Find | backend/app/src/services/stationScrape.ts:148 | `find` gives the first accepted source in array order, `undefined` when every source is rejected, or the first exception |
| IcecastSource.FindNone | backend/app/src/services/stationScrape.ts:148 | when every source is rejected, `find` gives `undefined` |
| IcecastSource.SelectSource | backend/app/src/services/stationScrape.ts:148 | a missing `icestats.source` array throws; otherwise the result is what `find` picks |
| IcecastSource.NoParamTakesFirst | backend/app/src/services/stationScrape.ts:147-148 | without a `listen_url` parameter the first source is selected when its `listenurl` is a string |
| IcecastSource.ExampleUrlParam | backend/app/src/services/stationScrape.ts:147 | `http://r.ro/x?listen_url=/live` has the parameter `/live` |
| IcecastSource.TwoMounts | backend/app/src/services/stationScrape.ts:147-148 | two mounts, `low` then `live`, whatever else they hold: the parameter `/live` selects the second |
| StationScrape.IcecastSecondMountReading | backend/app/src/services/stationScrape.ts:147-166 | with two mounts `low` and `live` and the parameter `/live`, the reading comes from the second mount: when that mount holds only `listenurl` and a title `a - n` with a one-character artist `a` (not white space or `-`) and a one-character name `n` (not white space), the reading is name `n`, artist `a` and listeners `null` |
| IcecastSource.FindSecond | backend/app/src/services/stationScrape.ts:148 | `find` over two sources takes the second when the callback rejects the first and accepts the second |
| StationScrape.SplitTitle | backend/app/src/services/stationScrape.ts:89-102 | with no separator the whole trimmed title is the name; otherwise the artist is the text before the first separator and the name the text up to the second, when both are non-empty, and the name is the text before the first separator when either is empty |
| StationScrape.ArtistDashSong | backend/app/src/services/stationScrape.ts:89-102 | `artist - name` and `artist - name - rest` both give the trimmed artist and name; later pieces are dropped |
| StationScrape.FirstSeparatorAfter | backend/app/src/services/stationScrape.ts:89 | the first separator of `a - b` is the one after `a` when no separator can start inside `a` |
| StationScrape.LeadingSeparator | backend/app/src/services/stationScrape.ts:89-97 | `" - B"` gives an empty name and an empty artist |
| StationScrape.SongOfTitle | backend/app/src/services/stationScrape.ts:89-102 | a missing or `null` title gives an empty song, a string title is split, and any other value throws |
| StationScrape.SongOfTag | backend/app/src/services/stationScrape.ts:202-214 | an undefined tag gives an empty song; a stored tag is split |
| StationScrape.ShoutcastReading | backend/app/src/services/stationScrape.ts:89-105 | the read fails exactly on a `null` body or an unsplittable title; on success the song is split from `songtitle` and the listener count is `currentlisteners \|\| null` |
| StationScrape.RadioCoReading | backend/app/src/services/stationScrape.ts:118-134 | the read succeeds exactly when `current_track` is present and not null and its title can be split; the reading is then stamped `now`, has the song split from `current_track.title`, and the listener count `currentlisteners \|\| null` |
| StationScrape.IcecastReading | backend/app/src/services/stationScrape.ts:147-166 | the read succeeds exactly when `find` selects a source whose title can be split; the reading is then stamped `now`, has the song split from that source's `title`, and the listener count `listeners \|\| null` of that source |
| StationScrape.XmlReading | backend/app/src/services/stationScrape.ts:186-218 | the read succeeds exactly on a text body; a non-text body throws |
| StationScrape.OldIcecastReading | backend/app/src/services/stationScrape.ts:238-269 | the old-Icecast read never throws |
| StationScrape.OldShoutcastReading | backend/app/src/services/stationScrape.ts:289-320 | the old-Shoutcast read never throws |
| StationScrape.OldShoutcastAlwaysEmpty | backend/app/src/services/stationScrape.ts:296-319 | for any page the old-Shoutcast extractor gives name `""`, artist `""` and listeners `null` |
| StationScrape.XmlLastTagsWin | backend/app/src/services/stationScrape.ts:186-218 | the XML reading is stamped `now`; after the first `SHOUTCASTSERVER` is removed, its song is split from the last `SONGTITLE` tag (empty when there is none), and its listener count is the last `CURRENTLISTENERS` tag `\|\| null` (`null` when there is none) |
| StationScrape.OldIcecastLastTagsWin | backend/app/src/services/stationScrape.ts:238-269 | the old-Icecast reading is stamped `now`; its song is split from the last `Current Song` row (empty when there is none), and its listener count is the last `Current Listeners` row `\|\| null` (`null` when there is none) |
| StationScrape.ReadingOf | backend/app/src/services/stationScrape.ts:89-320 | every successful extraction has a song (`{...} \|\| null` is never null) and is stamped `now`; its listener count is `null` or truthy |
| StationScrape.StatsExtractor | backend/app/src/services/stationScrape.ts:186-320 | running the scan loops gives the same reading as the reading functions |
| StationScrape.FormatSong | backend/app/src/services/stationScrape.ts:10-45 | the name is empty or at least 3 characters long, and empty exactly when the cleaned name is shorter than 3; the artist is the cleaned artist, and a non-empty name is the cleaned name |
| StationScrape.FormatSongClean | backend/app/src/services/stationScrape.ts:10-45 | both formatted fields contain only allowed characters and neither starts with an ASCII lower-case letter |
| StationScrape.FormattedSongIsClean | backend/app/src/services/stationScrape.ts:10-45 | a formatted song is clean: no digit, `#`, `;` or `_` in either field, only allowed characters, and a name that is empty or at least 3 characters long |
| StationScrape.StatsFormatter | backend/app/src/services/stationScrape.ts:10-45 | the method keeps the timestamp and listeners, leaves a missing song missing, and formats a present one |
| StationScrape.NowPlayingOf | backend/app/src/services/stationScrape.ts:47-79 | the record has no `error` field exactly when the body arrived and the extractor succeeded; it then holds the body and a song; otherwise it is the failure record (`current_song` null, `listeners` null, `raw_data` `{}`, `error` set); listeners are always `null` or truthy |
| StationScrape.ExtractNowPlaying | backend/app/src/services/stationScrape.ts:47-79 | the method computes the record that `NowPlayingOf` specifies |
| StationScrape.StoredSongIsClean | backend/app/src/services/stationScrape.ts:10-45 | a stored song contains no digits, `#`, `;` or `_`, only allowed characters, and its name is empty or at least 3 characters long |
| StationScrape.IcecastNoMatchFails | backend/app/src/services/stationScrape.ts:148-150 | when no source matches, the Icecast record is the failure record |
| StationScrape.FirstKnown | backend/app/src/services/stationScrape.ts:436-464 | the chosen descriptor is the first with a known slug; with no known slug, none is chosen |
| StationScrape.FirstKnownAt | backend/app/src/services/stationScrape.ts:436-464 | a known slug preceded only by unknown ones is the chosen descriptor |
| StationScrape.StationNowPlaying | backend/app/src/services/stationScrape.ts:433-470 | the error is `null` exactly when no descriptor has a known slug |
| StationScrape.GetStationNowPlaying | backend/app/src/services/stationScrape.ts:433-470 | the `for` loop with early returns computes `StationNowPlaying` |
| StationScrape.UnknownSlugsOnly | backend/app/src/services/stationScrape.ts:465-469 | with only unknown slugs the record has `current_song` null, `listeners` null, `raw_data` `{}` and `error` null |
| StationScrape.UptimeOf | backend/app/src/services/stationScrape.ts:325-394 | `is_up` holds exactly when the status is 200; an accepted response reports its latency (0..1000), headers and status; a rejection keeps latency and status at -1 with empty headers |
| StationScrape.GetStationUptime | backend/app/src/services/stationScrape.ts:325-394 | the method with its `-1` sentinel locals computes `UptimeOf` |
| StationScrape.Done | backend/app/src/services/stationScrape.ts:527-537 | an answer fails exactly when it is a rejection, has a falsy body, or has truthy `errors`; `done` holds exactly when both inserted rows report an id |
| StationScrape.Cycle | backend/app/src/services/stationScrape.ts:540-561 | a successful cycle has exactly one result per station |
| StationScrape.CycleMeans | backend/app/src/services/stationScrape.ts:540-561 | a successful cycle's results are in station order, each with the station's id and the `done` flag of its post |
| StationScrape.RefreshStationsMetadata | backend/app/src/services/stationScrape.ts:540-561 | the loop computes the cycle; the updates sent are, in order, those of the stations polled so far; success polls every station; a failure stops at the station whose post failed, after every earlier post succeeded |
| StationScrape.PollStation | backend/app/src/services/stationScrape.ts:543-546 | reading the now-playing record and probing the stream of station `i` extends the updates by exactly that station's update |
| StationScrape.UpdatesSnoc | backend/app/src/services/stationScrape.ts:540-561 | the updates of one more station are the previous updates followed by that station's update |
| StationScrape.CycleFailsAt | backend/app/src/services/stationScrape.ts:549 | the cycle fails with the first failed post |
| StationScrape.CycleSucceeds | backend/app/src/services/stationScrape.ts:543-555 | when every post succeeds, the cycle yields exactly the collected results |
| StationScrape.CycleFailsIfAny | backend/app/src/services/stationScrape.ts:549 | any failed post fails the cycle |
| StationScrape.CycleFailsIff | backend/app/src/services/stationScrape.ts:540-561 | the cycle fails exactly when some post fails |
| StationsRefresh.OrEmpty | radiocrestin/pages/api/v1/stations/refresh.ts:172 | `v \|\| ""` on a tag gives the stored text, or `""` when it is undefined |
| StationsRefresh.OrUndefined | radiocrestin/pages/api/v1/stations/refresh.ts:173 | `v \|\| undefined` keeps exactly the non-empty stored texts |
| StationsRefresh.ShoutcastStats | radiocrestin/pages/api/v1/stations/refresh.ts:94-100 | the read fails exactly on a `null` body; otherwise it returns the raw `songtitle` and `currentlisteners`, not cleaned |
| StationsRefresh.RadioCoStats | radiocrestin/pages/api/v1/stations/refresh.ts:111-117 | the Radio.co read is the Shoutcast read: it uses `songtitle`, not `current_track.title` |
| StationsRefresh.IcecastStats | radiocrestin/pages/api/v1/stations/refresh.ts:128-136 | the read succeeds exactly when a source is selected; it returns that source's raw `title` and `listeners` |
| StationsRefresh.TagStats | radiocrestin/pages/api/v1/stations/refresh.ts:170-174 | the song is the stored title or `""`; the listener count is present exactly when a non-empty count is stored |
| StationsRefresh.XmlStats | radiocrestin/pages/api/v1/stations/refresh.ts:155-175 | the read succeeds exactly on a text body |
| StationsRefresh.XmlLastTagsWin | radiocrestin/pages/api/v1/stations/refresh.ts:155-175 | the XML stats are stamped `now`; the song is the last `SONGTITLE` tag (`""` when there is none or it is undefined), and the listener count is the last non-empty `CURRENTLISTENERS` tag (undefined otherwise) |
| StationsRefresh.OldIcecastLastTagsWin | radiocrestin/pages/api/v1/stations/refresh.ts:194-213 | the old-Icecast stats are stamped `now`; the song is the last `Current Song` row (`""` when there is none), and the listener count is the last non-empty `Current Listeners` row (undefined otherwise) |
| StationsRefresh.OldIcecastStats | radiocrestin/pages/api/v1/stations/refresh.ts:194-213 | the old-Icecast read never throws |
| StationsRefresh.OldShoutcastStats | radiocrestin/pages/api/v1/stations/refresh.ts:232-251 | the old-Shoutcast read never throws |
| StationsRefresh.OldShoutcastAlwaysEmpty | radiocrestin/pages/api/v1/stations/refresh.ts:242-249 | for any page the old-Shoutcast read gives `current_song` `""` and `listeners` undefined |
| StationsRefresh.StatsOf | radiocrestin/pages/api/v1/stations/refresh.ts:94-251 | every successful read is stamped `now` |
| StationsRefresh.StatsExtractor | radiocrestin/pages/api/v1/stations/refresh.ts:155-251 | running the scan loops gives the same stats as the reading functions |
| StationsRefresh.ExtractStatsOf | radiocrestin/pages/api/v1/stations/refresh.ts:48-85 | every entry has stats stamped `now`; it has no error exactly when the body arrived and the read succeeded, and then holds the body and those stats; otherwise it is the failure record (`rawData` `{}`, `current_song` `""`, `listeners` undefined, `error` set) |
| StationsRefresh.ExtractStats | radiocrestin/pages/api/v1/stations/refresh.ts:48-85 | the method computes `ExtractStatsOf` |
| StationsRefresh.StreamStatusOf | radiocrestin/pages/api/v1/stations/refresh.ts:264-315 | `up` holds exactly when the status is 200; a response reports its latency, headers and status, plus `textResponse` exactly when the status is not 200; a failure or a timeout gives `up` false, latency -1, status -1 |
| StationsRefresh.GetStreamStatus | radiocrestin/pages/api/v1/stations/refresh.ts:264-315 | the method with its `-1` sentinel locals computes `StreamStatusOf` |
| StationsRefresh.EnginesAgreeOnUp | radiocrestin/pages/api/v1/stations/refresh.ts:299-309 | both engines judge a stream up exactly when it answers 200 and agree on the latency of a 2xx answer; on other statuses only the refresher keeps the status |
| StationsRefresh.LastDefinedSource | radiocrestin/pages/api/v1/stations/refresh.ts:343-365 | the chosen format is the last of the six checks whose URL is defined; with no URL defined, none is chosen |
| StationsRefresh.FetchStationStats | radiocrestin/pages/api/v1/stations/refresh.ts:343-365 | the six checks in order leave the last defined extraction, or the stored entry when no URL is defined |
| StationsRefresh.PassEntry | radiocrestin/pages/api/v1/stations/refresh.ts:367-381 | every written entry carries a stream status |
| StationsRefresh.CollectStationStats | radiocrestin/pages/api/v1/stations/refresh.ts:339-386 | the two loops compute the two passes in station order |
| StationsRefresh.PassStep | radiocrestin/pages/api/v1/stations/refresh.ts:342-386 | a pass over a suffix is that station's write followed by the pass over the rest |
| StationsRefresh.PassKeys | radiocrestin/pages/api/v1/stations/refresh.ts:342-386 | a pass adds exactly one key per station id, gives each a stream status, and leaves other keys unchanged |
| StationsRefresh.PassAt | radiocrestin/pages/api/v1/stations/refresh.ts:342-386 | with distinct ids, each station's entry is built from what was stored for it before the pass |
| StationsRefresh.ReprobeKeepsFields | radiocrestin/pages/api/v1/stations/refresh.ts:377-386 | the second pass replaces only `streamStatus` and keeps every other field |
| StationsRefresh.CollectedKeys | radiocrestin/pages/api/v1/stations/refresh.ts:339-392 | the collected map has exactly the station ids as keys, and every entry has a `streamStatus`, even for a station without any statistics URL |
| StationsRefresh.CollectedEntry | radiocrestin/pages/api/v1/stations/refresh.ts:339-392 | with distinct ids, a station's entry is its last defined extraction (or nothing) plus the second probe's status; the first probe's status is overwritten |
| StationsRefresh.IdsCons | radiocrestin/pages/api/v1/stations/refresh.ts:342 | the ids of the stations are the first one's id plus those of the rest |
| StationsRefresh.StatsCache.UpdateStationStatsCache | radiocrestin/pages/api/v1/stations/refresh.ts:30 | after `Object.assign`, each new key maps to its new value and keys present only in the old cache are unchanged |
| StationsRefresh.StatsCache.ShouldRefresh | radiocrestin/pages/api/v1/stations/refresh.ts:318-333 | the `forEach` over the cached values sets the flag exactly when the cache is empty, or some entry lacks a stats timestamp, or some timestamp differs from `now` by strictly more than `refreshMs + 15000` in absolute value |
| StationsRefresh.StatsCache.RefreshStationsStats | radiocrestin/pages/api/v1/stations/refresh.ts:339-392 | the collected map is returned and merged into the cache |
| StationsRefresh.StatsCache.RefreshStationsStatsIfExpired | radiocrestin/pages/api/v1/stations/refresh.ts:317-337 | an expired cache gets the collected map merged in; a fresh cache is left unchanged |
| StationsRefresh.NoUrlKeepsExpired | radiocrestin/pages/api/v1/stations/refresh.ts:323-332 | a station without any statistics URL leaves an entry without stats, so the merged cache stays expired and every request triggers another refresh |
| StationsRefresh.RefreshMakesFresh | radiocrestin/pages/api/v1/stations/refresh.ts:317-392 | the merged cache is fresh right after a refresh when four things hold: there is at least one station, every station defines a statistics URL, every read is stamped at the current time, and the cache holds no other station (with a refresh period of at least -15000 ms) |

## Left out

- HTTP transport is not modelled. axios `request`, `fetch`, `response.json()` and `response.text()` are replaced by their result: a decoded body or a rejection. In the refresher, a body that `response.json()` cannot decode is a rejection and reaches the `catch`. The scraper never passes its `decodeJson` flag to axios, whose default response transform tries `JSON.parse` and keeps the raw text when that fails. So in the scraper a body that is not JSON reaches the extractor as a string (`JString`), not as a rejection. Headers and status come with the probe outcome.
- Request headers, the `timeout: 5000` of axios and the `Promise.race` timeout of 10 s are left out. A timeout is one more `Failed` probe outcome.
- Concurrency is not modelled: Bluebird's `concurrency: 30` and `concurrency: 5`.
  - In both engines the stations are processed in order, one at a time.
  - `StationScrape.RefreshStationsMetadata`: the rejection reported is that of the first failed post in station order, and no station after it is polled. With real concurrency the reported failure is the first post to fail in time, and stations already started still run.
  - `StationsRefresh.CollectStationStats`: stations sharing an id are read in order. With real concurrency their writes may interleave.
- Clocks are not modelled. `process.hrtime` is replaced by elapsed nanoseconds, and `new Date()` by a millisecond timestamp per station. ISO formatting and `Date.parse` are left out.
- `StationsRefresh.Stale` compares integer timestamps. It assumes `Date.parse` gives back exactly the timestamp that was written.
- JSON numbers are integers. Fractional listener counts are not modelled, and neither is their string form in `String(v)`.
- `Normalize.FromCharCode` reads the digits of `&#N;` as an exact integer. JavaScript converts them to a double first, so codes above 2^53 may round differently. A lone surrogate code unit cannot be a Dafny `char`, so it becomes U+FFFD. Both kinds of character are deleted by the filter anyway.
- `getStations` and its GraphQL query are left out; the stations are an input. The text of the `updateStationMetadata` mutation and its double `JSON.stringify` escaping are left out too. Only the answer's `done` rule is modelled, as `StationScrape.Done`, and the content of each post is given as a `StationUpdate`.
- The error value is left out. It is serialised with `JSON.parse(JSON.stringify(error, Object.getOwnPropertyNames(error)))`, which makes it an object. The model keeps the kind of failure with a message instead.
- `updateStationStatsCache` writes two JSON history files and creates their directories. These file-system writes are left out; only the `Object.assign` merge is modelled.
- Logging (`tslog`, `console`) is left out.
- The HTTP `handler` of refresh.ts is left out. It pairs `Object.entries` with `STATIONS[k]` by index, which is request glue.
- `STATIONS_STATS_REFRESH_MS` is a parameter (`refreshMs`). The constants module is not part of this model.
- The React components and the Django admin configuration are left out.
- In the property reads of `JsValues.Get`, a string or array body is treated as having no fields. No key the extractors use names a built-in property of those.
