/** The tag scanners of the three text formats. Each scraper runs a global
    regular expression over the page with `exec` in a `while` loop and stores
    `groups.param_data -> groups.value` of every match in a dictionary. The
    regular expressions are fixed, so each is written out here as a matcher
    at one index: a name of ASCII letters and white space (greedy, so it must
    run to the first character that is neither), the literal text around it,
    and a value that is either the shortest (`.*?`) or the longest (`.*`)
    run of non-line-terminators before the closing text. */
module TagScan {
  import opened Wrappers
  import opened Text

  /** The three fixed expressions:
      - `XmlTag`: `/<(?<param_data>[a-zA-Z\s]+)>(?<value>(.*?))<\//mg`
      - `IcecastRow`: `/<td>(?<param_data>[a-zA-Z\s]+):<\/td>\n<td class="streamdata">(?<value>.*)<\/td>/gm`
      - `ShoutcastRow`: `/<tr><td width=100 nowrap><font class=default>(?<param_data>[a-zA-Z\s]+): <\/font><\/td><td><font class=default><b>(?<param_value>(.*?))<\/b><\/td><\/tr>/gmi`
        (case-insensitive; its value group is named `param_value`). */
  datatype TagPattern = XmlTag | IcecastRow | ShoutcastRow

  /** One successful `exec`: where the match starts and ends, and its named
      capture groups. */
  datatype Match = Match(index: nat, end: nat, groups: map<string, string>)

  /** The dictionary a scan fills; `None` is a stored `undefined`. */
  type TagData = map<string, Option<string>>

  const XmlCloser := "</"
  const IcecastOpener := "<td>"
  const IcecastMiddle := ":</td>\n<td class=\"streamdata\">"
  const IcecastCloser := "</td>"
  const ShoutcastOpener := "<tr><td width=100 nowrap><font class=default>"
  const ShoutcastMiddle := ": </font></td><td><font class=default><b>"
  const ShoutcastCloser := "</b></td></tr>"

  /** The class `[a-zA-Z\s]` (the same with or without the `i` flag). */
  predicate IsNameChar(c: char) {
    IsAsciiLetter(c) || IsWhiteSpace(c)
  }

  /** Length of the longest run of name characters starting at `from`. */
  function NameRun(s: string, from: nat): (n: nat)
    requires from <= |s|
    ensures from + n <= |s|
    ensures forall k :: from <= k < from + n ==> IsNameChar(s[k])
    ensures from + n < |s| ==> !IsNameChar(s[from + n])
    decreases |s| - from
  {
    if from < |s| && IsNameChar(s[from]) then 1 + NameRun(s, from + 1) else 0
  }

  predicate Closes(s: string, closer: string, k: int, ignoreCase: bool) {
    if ignoreCase then OccursAtIgnoringCase(s, closer, k) else OccursAt(s, closer, k)
  }

  /** A lazy `(.*?)` followed by `closer`: the first index at or after
      `from` where `closer` starts, reached without passing a line
      terminator; `None` when a line terminator or the end comes first. */
  function LazyEnd(s: string, from: nat, closer: string, ignoreCase: bool): (r: Option<nat>)
    requires from <= |s|
    ensures r.Some? ==> from <= r.value && Closes(s, closer, r.value, ignoreCase)
    ensures r.Some? ==> forall k :: from <= k < r.value ==> !IsLineTerminator(s[k]) && !Closes(s, closer, k, ignoreCase)
    ensures r.None? ==> forall k :: from <= k <= LineEnd(s, from) ==> !Closes(s, closer, k, ignoreCase)
    decreases |s| - from
  {
    if Closes(s, closer, from, ignoreCase) then Some(from)
    else if from == |s| || IsLineTerminator(s[from]) then None
    else LazyEnd(s, from + 1, closer, ignoreCase)
  }

  /** The largest `p` with `lo <= p` and `p + |pat| <= hi` where `pat` occurs. */
  function LastOccurrence(s: string, pat: string, lo: nat, hi: nat): (r: Option<nat>)
    requires lo <= hi <= |s|
    ensures r.Some? ==> lo <= r.value && r.value + |pat| <= hi && OccursAt(s, pat, r.value)
    ensures r.Some? ==> forall q :: r.value < q && q + |pat| <= hi ==> !OccursAt(s, pat, q)
    ensures r.None? ==> forall q :: lo <= q && q + |pat| <= hi ==> !OccursAt(s, pat, q)
  {
    LastStart(s, pat, lo, hi - |pat|)
  }

  /** The largest start `q` with `lo <= q <= top` where `pat` occurs. */
  function LastStart(s: string, pat: string, lo: nat, top: int): (r: Option<nat>)
    ensures r.Some? ==> lo <= r.value <= top && OccursAt(s, pat, r.value)
    ensures r.Some? ==> forall q :: r.value < q <= top ==> !OccursAt(s, pat, q)
    ensures r.None? ==> forall q :: lo <= q <= top ==> !OccursAt(s, pat, q)
    decreases top - lo
  {
    if top < lo then None
    else if OccursAt(s, pat, top) then Some(top)
    else LastStart(s, pat, lo, top - 1)
  }

  /** A greedy `.*` followed by `closer`: the last place on the current line
      where `closer` starts (a closer without line terminators cannot run
      past the line's end). */
  function GreedyEnd(s: string, from: nat, closer: string): (r: Option<nat>)
    requires from <= |s|
    ensures r.Some? ==> from <= r.value && OccursAt(s, closer, r.value)
    ensures r.Some? ==> forall k :: from <= k < r.value ==> !IsLineTerminator(s[k])
    ensures r.Some? ==> r.value + |closer| <= LineEnd(s, from)
    ensures r.Some? ==> forall q :: r.value < q && q + |closer| <= LineEnd(s, from) ==> !OccursAt(s, closer, q)
    ensures r.None? ==> forall q :: from <= q && q + |closer| <= LineEnd(s, from) ==> !OccursAt(s, closer, q)
  {
    LastOccurrence(s, closer, from, LineEnd(s, from))
  }

  function XmlTagAt(s: string, i: nat): Option<Match>
    requires i <= |s|
  {
    if i < |s| && s[i] == '<' then
      var j := i + 1 + NameRun(s, i + 1);
      if j > i + 1 && j < |s| && s[j] == '>' then
        match LazyEnd(s, j + 1, XmlCloser, false)
        case Some(e) => Some(Match(i, e + |XmlCloser|, map["param_data" := s[i + 1..j], "value" := s[j + 1..e]]))
        case None => None
      else None
    else None
  }

  function IcecastRowAt(s: string, i: nat): Option<Match>
    requires i <= |s|
  {
    if OccursAt(s, IcecastOpener, i) then
      var a := i + |IcecastOpener|;
      var j := a + NameRun(s, a);
      if j > a && OccursAt(s, IcecastMiddle, j) then
        var v := j + |IcecastMiddle|;
        match GreedyEnd(s, v, IcecastCloser)
        case Some(e) => Some(Match(i, e + |IcecastCloser|, map["param_data" := s[a..j], "value" := s[v..e]]))
        case None => None
      else None
    else None
  }

  function ShoutcastRowAt(s: string, i: nat): Option<Match>
    requires i <= |s|
  {
    if OccursAtIgnoringCase(s, ShoutcastOpener, i) then
      var a := i + |ShoutcastOpener|;
      var j := a + NameRun(s, a);
      if j > a && OccursAtIgnoringCase(s, ShoutcastMiddle, j) then
        var v := j + |ShoutcastMiddle|;
        match LazyEnd(s, v, ShoutcastCloser, true)
        case Some(e) => Some(Match(i, e + |ShoutcastCloser|, map["param_data" := s[a..j], "param_value" := s[v..e]]))
        case None => None
      else None
    else None
  }

  /** The match of pattern `p` that starts exactly at `i`, if any. Every
      match is non-empty, has a non-empty `param_data`, and has a `value`
      group unless the pattern is `ShoutcastRow`. */
  function MatchAt(p: TagPattern, s: string, i: nat): (r: Option<Match>)
    requires i <= |s|
    ensures r.Some? ==> r.value.index == i && i < r.value.end <= |s|
    ensures r.Some? ==> "param_data" in r.value.groups && r.value.groups["param_data"] != ""
    ensures r.Some? ==> ("value" in r.value.groups <==> !p.ShoutcastRow?)
  {
    match p
    case XmlTag => XmlTagAt(s, i)
    case IcecastRow => IcecastRowAt(s, i)
    case ShoutcastRow => ShoutcastRowAt(s, i)
  }

  /** `regex.exec(s)` with `regex.lastIndex == from`: the leftmost match
      starting at or after `from`. */
  function Exec(p: TagPattern, s: string, from: nat): (r: Option<Match>)
    requires from <= |s|
    ensures r.Some? ==> from <= r.value.index <= |s| && MatchAt(p, s, r.value.index) == r
    ensures r.Some? ==> NoMatchBetween(p, s, from, r.value.index)
    ensures r.None? ==> NoMatchBetween(p, s, from, |s| + 1)
    decreases |s| - from
  {
    var here := MatchAt(p, s, from);
    if here.Some? then here
    else if from == |s| then None
    else Exec(p, s, from + 1)
  }

  /** No match of `p` starts at an index in `lo..hi - 1`. */
  predicate NoMatchBetween(p: TagPattern, s: string, lo: nat, hi: nat)
    requires lo <= hi <= |s| + 1
  {
    AllBetween(Misses(p, s), lo, hi)
  }

  /** Whether no match of `p` starts at index `i`. */
  function Misses(p: TagPattern, s: string): nat -> bool {
    (i: nat) => i <= |s| && MatchAt(p, s, i).None?
  }

  /** `holds` is true at every index of `lo..hi - 1`, checked from `lo` up. */
  predicate AllBetween(holds: nat -> bool, lo: nat, hi: nat)
    decreases hi - lo
  {
    lo >= hi || (holds(lo) && AllBetween(holds, lo + 1, hi))
  }

  /** `AllBetween` says exactly that `holds` is true at every index of `lo..hi - 1`. */
  lemma AllBetweenMeans(holds: nat -> bool, lo: nat, hi: nat)
    ensures AllBetween(holds, lo, hi) <==> forall q :: lo <= q < hi ==> holds(q)
  {
    if AllBetween(holds, lo, hi) {
      forall q | lo <= q < hi ensures holds(q) {
        AllBetweenAt(holds, lo, hi, q);
      }
    }
    if forall q :: lo <= q < hi ==> holds(q) {
      AllAllBetween(holds, lo, hi);
    }
  }

  lemma {:induction false} AllBetweenAt(holds: nat -> bool, lo: nat, hi: nat, q: nat)
    requires lo <= q < hi && AllBetween(holds, lo, hi)
    ensures holds(q)
    decreases q - lo
  {
    if q > lo {
      AllBetweenAt(holds, lo + 1, hi, q);
    }
  }

  lemma {:induction false} AllAllBetween(holds: nat -> bool, lo: nat, hi: nat)
    requires forall q :: lo <= q < hi ==> holds(q)
    ensures AllBetween(holds, lo, hi)
    decreases hi - lo
  {
    if lo < hi {
      AllAllBetween(holds, lo + 1, hi);
    }
  }

  /** `exec` finds the leftmost match: no index between `from` and the
      match it returns (or the end of the text, when it returns none)
      starts one. */
  lemma ExecLeftmost(p: TagPattern, s: string, from: nat, q: nat)
    requires from <= q <= |s|
    requires Exec(p, s, from).Some? ==> q < Exec(p, s, from).value.index
    ensures MatchAt(p, s, q).None?
  {
    var r := Exec(p, s, from);
    var hi := if r.Some? then r.value.index else |s| + 1;
    AllBetweenAt(Misses(p, s), from, hi, q);
  }

  /** The matches the `while` loop visits, left to right, when `lastIndex`
      starts at `from`. */
  function Matches(p: TagPattern, s: string, from: nat): seq<Match>
    requires from <= |s|
    decreases |s| - from
  {
    match Exec(p, s, from)
    case None => []
    case Some(m) => [m] + Matches(p, s, m.end)
  }

  /** `m?.groups?.param_data` when it is truthy. */
  function KeyOf(m: Match): Option<string> {
    if "param_data" in m.groups && m.groups["param_data"] != "" then Some(m.groups["param_data"]) else None
  }

  /** `m?.groups?.value`. */
  function ValueOf(m: Match): Option<string> {
    if "value" in m.groups then Some(m.groups["value"]) else None
  }

  /** The loop body: `if (m?.groups?.param_data) data[m.groups.param_data] = m?.groups?.value`. */
  function Store(data: TagData, m: Match): TagData {
    match KeyOf(m)
    case Some(k) => data[k := ValueOf(m)]
    case None => data
  }

  /** The dictionary after storing `ms` in order. */
  function Dictionary(ms: seq<Match>): TagData {
    if ms == [] then map[] else Store(Dictionary(ms[..|ms| - 1]), ms[|ms| - 1])
  }

  /** What a full scan of `page` leaves in `data`. */
  function Tags(p: TagPattern, page: string): TagData {
    Dictionary(Matches(p, page, 0))
  }

  /** `data[key]` on the scan's dictionary: absent and stored-undefined both
      read as `undefined`. */
  function Lookup(data: TagData, key: string): Option<string> {
    if key in data then data[key] else None
  }

  /** The scraper's loop: `while ((m = regex.exec(page)) !== null) { ... }`. */
  method ScanTags(p: TagPattern, page: string) returns (data: TagData)
    ensures data == Tags(p, page)
  {
    data := map[];
    var lastIndex: int := 0;
    ghost var done: seq<Match> := [];
    while true
      invariant 0 <= lastIndex <= |page|
      invariant done + Matches(p, page, lastIndex) == Matches(p, page, 0)
      invariant data == Dictionary(done)
      decreases |page| - lastIndex
    {
      var m := Exec(p, page, lastIndex);
      ScanStep(p, page, lastIndex);
      if m.None? {
        assert done + [] == done;
        lastIndex := 0;  // a failed exec resets lastIndex
        break;
      }
      var found := m.value;
      lastIndex := found.end;
      // the guard against empty matches (`m.index === regex.lastIndex`)
      if found.index == lastIndex {
        lastIndex := lastIndex + 1;
      }
      VisitedSnoc(done, found, Matches(p, page, found.end));
      DictionarySnoc(done, found);
      data := Store(data, found);
      done := done + [found];
    }
  }

  /** One `exec` step of the loop: after a failed `exec` no match is left
      to visit; a match is visited next and ends after `from`. */
  lemma ScanStep(p: TagPattern, s: string, from: nat)
    requires from <= |s|
    ensures Exec(p, s, from).None? ==> Matches(p, s, from) == []
    ensures Exec(p, s, from).Some? ==>
      && from <= Exec(p, s, from).value.index < Exec(p, s, from).value.end <= |s|
      && Matches(p, s, from) == [Exec(p, s, from).value] + Matches(p, s, Exec(p, s, from).value.end)
  {
  }

  lemma VisitedSnoc(done: seq<Match>, m: Match, rest: seq<Match>)
    ensures done + ([m] + rest) == (done + [m]) + rest
  {
  }

  lemma DictionarySnoc(ms: seq<Match>, m: Match)
    ensures Dictionary(ms + [m]) == Store(Dictionary(ms), m)
  {
    assert (ms + [m])[..|ms|] == ms;
  }

  /** The matches are visited left to right and do not overlap. */
  lemma {:induction false} MatchesInOrder(p: TagPattern, s: string, from: nat)
    requires from <= |s|
    ensures InOrder(Matches(p, s, from), from, |s|)
    decreases |s| - from
  {
    match Exec(p, s, from)
    case None =>
    case Some(m) =>
      MatchesInOrder(p, s, m.end);
      InOrderCons(m, Matches(p, s, m.end), from, |s|);
  }

  /** Matches `ms` lie inside `from..hi` and do not overlap. */
  predicate InOrder(ms: seq<Match>, from: int, hi: int) {
    && (forall j :: 0 <= j < |ms| ==> from <= ms[j].index < ms[j].end <= hi)
    && (forall j :: 0 <= j < |ms| - 1 ==> ms[j].end <= ms[j + 1].index)
  }

  lemma InOrderCons(m: Match, rest: seq<Match>, from: int, hi: int)
    requires from <= m.index < m.end <= hi
    requires InOrder(rest, m.end, hi)
    ensures InOrder([m] + rest, from, hi)
  {
    var ms := [m] + rest;
    forall j | 0 <= j < |ms| ensures from <= ms[j].index < ms[j].end <= hi {
      if j > 0 { assert ms[j] == rest[j - 1]; }
    }
    forall j | 0 <= j < |ms| - 1 ensures ms[j].end <= ms[j + 1].index {
      if j > 0 { assert ms[j] == rest[j - 1]; }
      assert ms[j + 1] == rest[j];
    }
  }

  /** A key is in the dictionary exactly when some match stored it. */
  lemma {:induction false} DictionaryKeys(ms: seq<Match>, key: string)
    ensures key in Dictionary(ms) <==> exists j :: 0 <= j < |ms| && KeyOf(ms[j]) == Some(key)
  {
    if ms != [] {
      var init := ms[..|ms| - 1];
      DictionaryKeys(init, key);
      if key in Dictionary(init) {
        var j :| 0 <= j < |init| && KeyOf(init[j]) == Some(key);
        assert ms[j] == init[j];
      }
      if exists j :: 0 <= j < |ms| && KeyOf(ms[j]) == Some(key) {
        var j :| 0 <= j < |ms| && KeyOf(ms[j]) == Some(key);
        if j < |init| { assert KeyOf(init[j]) == Some(key); }
      }
    }
  }

  /** The last duplicate wins: a key holds the value of the last match that
      stored it. */
  lemma {:induction false} DictionaryLastWins(ms: seq<Match>, j: nat, key: string)
    requires j < |ms| && KeyOf(ms[j]) == Some(key)
    requires forall l :: j < l < |ms| ==> KeyOf(ms[l]) != Some(key)
    ensures key in Dictionary(ms) && Dictionary(ms)[key] == ValueOf(ms[j])
  {
    var init := ms[..|ms| - 1];
    if j < |ms| - 1 {
      forall l | j < l < |init| ensures KeyOf(init[l]) != Some(key) {
        assert init[l] == ms[l];
      }
      DictionaryLastWins(init, j, key);
    }
  }

  /** `ms[j]` is the last of the matches `ms` that stores `key`. */
  predicate LastStore(ms: seq<Match>, j: int, key: string) {
    && 0 <= j < |ms| && KeyOf(ms[j]) == Some(key)
    && forall l :: j < l < |ms| ==> KeyOf(ms[l]) != Some(key)
  }

  /** None of the matches `ms` stores `key`. */
  predicate NoStore(ms: seq<Match>, key: string) {
    forall l :: 0 <= l < |ms| ==> KeyOf(ms[l]) != Some(key)
  }

  /** Reading `key` after the scan gives the value of the last match that
      stored it, and `undefined` when no match did. */
  lemma LookupAfterScan(ms: seq<Match>, key: string)
    ensures forall j :: LastStore(ms, j, key) ==> Lookup(Dictionary(ms), key) == ValueOf(ms[j])
    ensures NoStore(ms, key) ==> Lookup(Dictionary(ms), key) == None
  {
    forall j | LastStore(ms, j, key) ensures Lookup(Dictionary(ms), key) == ValueOf(ms[j]) {
      DictionaryLastWins(ms, j, key);
    }
    DictionaryKeys(ms, key);
  }

  /** Either no match stores `key`, or one of them is the last to do so. */
  lemma {:induction false} StoreCases(ms: seq<Match>, key: string)
    ensures NoStore(ms, key) || exists j :: LastStore(ms, j, key)
  {
    if ms != [] && KeyOf(ms[|ms| - 1]) != Some(key) {
      var init := ms[..|ms| - 1];
      StoreCases(init, key);
      if NoStore(init, key) {
        assert forall l :: 0 <= l < |init| ==> ms[l] == init[l];
      } else {
        var j :| LastStore(init, j, key);
        assert forall l :: 0 <= l < |init| ==> ms[l] == init[l];
        assert LastStore(ms, j, key);
      }
    } else if ms != [] {
      assert LastStore(ms, |ms| - 1, key);
    }
  }

  /** The Shoutcast row pattern has no `value` group, so everything its scan
      stores is `undefined`. */
  lemma {:induction false} ShoutcastRowStoresUndefined(s: string, from: nat)
    requires from <= |s|
    ensures forall k :: k in Dictionary(Matches(ShoutcastRow, s, from)) ==> Dictionary(Matches(ShoutcastRow, s, from))[k] == None
  {
    StoresUndefined(Matches(ShoutcastRow, s, from), s, from);
  }

  lemma {:induction false} StoresUndefined(ms: seq<Match>, s: string, from: nat)
    requires from <= |s|
    requires forall j :: 0 <= j < |ms| ==> ms[j] in Matches(ShoutcastRow, s, from)
    ensures forall k :: k in Dictionary(ms) ==> Dictionary(ms)[k] == None
  {
    if ms != [] {
      var init := ms[..|ms| - 1];
      forall j | 0 <= j < |init| ensures init[j] in Matches(ShoutcastRow, s, from) {
        assert init[j] == ms[j];
      }
      StoresUndefined(init, s, from);
      var last := ms[|ms| - 1];
      ShoutcastMatchHasNoValue(s, from, last);
      assert Dictionary(ms) == Store(Dictionary(init), last);
    }
  }

  /** A visited Shoutcast row match has no `value` group. */
  lemma ShoutcastMatchHasNoValue(s: string, from: nat, m: Match)
    requires from <= |s| && m in Matches(ShoutcastRow, s, from)
    ensures ValueOf(m) == None
  {
    MatchesAreMatches(ShoutcastRow, s, from, m);
  }

  /** Every visited match is a match of the pattern at its index. */
  lemma {:induction false} MatchesAreMatches(p: TagPattern, s: string, from: nat, m: Match)
    requires from <= |s| && m in Matches(p, s, from)
    ensures m.index <= |s| && MatchAt(p, s, m.index) == Some(m)
    decreases |s| - from
  {
    match Exec(p, s, from)
    case None =>
    case Some(first) =>
      assert Matches(p, s, from) == [first] + Matches(p, s, first.end);
      if m != first {
        MatchesAreMatches(p, s, first.end, m);
      }
  }

  /** `/\((?<listeners>[0-9+]) unique\)/gmi` at index `i`: an opening
      parenthesis, ONE digit or `+` (the `+` sits inside the class), then
      ` unique)` in any case. */
  function UniqueCountAt(s: string, i: nat): Option<string>
  {
    if i + 2 <= |s| && s[i] == '(' && (IsDigit(s[i + 1]) || s[i + 1] == '+') && OccursAtIgnoringCase(s, " unique)", i + 2)
    then Some(s[i + 1..i + 2])
    else None
  }

  /** `exec` of that expression on `s`, from index `from`: its `listeners` group. */
  function UniqueCount(s: string, from: nat): (r: Option<string>)
    ensures r.Some? ==> |r.value| == 1
    decreases |s| - from
  {
    if from >= |s| then None
    else match UniqueCountAt(s, from)
      case Some(c) => Some(c)
      case None => UniqueCount(s, from + 1)
  }

  /** `exec(undefined)` searches the text "undefined", which has no
      parenthesis, so it finds nothing. */
  lemma UniqueCountOfUndefined()
    ensures UniqueCount("undefined", 0) == None
  {
    var u := "undefined";
    forall i | 0 <= i < |u| ensures u[i] != '(' { }
    NoParenNoCount(u, 0);
  }

  lemma {:induction false} NoParenNoCount(s: string, from: nat)
    requires forall i :: 0 <= i < |s| ==> s[i] != '('
    ensures UniqueCount(s, from) == None
    decreases |s| - from
  {
    if from < |s| {
      NoParenNoCount(s, from + 1);
    }
  }
}
