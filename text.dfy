/** The JavaScript string operations both scrapers rely on: `indexOf`,
    `includes`, `split` with a string separator, `trim`, `replace` with a
    string pattern (first occurrence only), and the character classes `\s`
    and `.` of JavaScript regular expressions. */
module Text {
  import opened Wrappers

  /** JavaScript's LineTerminator: what the regex `.` refuses to match. */
  predicate IsLineTerminator(c: char) {
    c == '\n' || c == '\r' || c == '\U{2028}' || c == '\U{2029}'
  }

  /** JavaScript's WhiteSpace and LineTerminator characters: the set that
      `String.prototype.trim` strips and that the regex class `\s` matches. */
  predicate IsWhiteSpace(c: char) {
    || c == '\t' || c == '\U{000B}' || c == '\U{000C}' || c == ' '
    || c == '\U{00A0}' || c == '\U{FEFF}' || c == '\U{1680}'
    || ('\U{2000}' <= c <= '\U{200A}')
    || c == '\U{202F}' || c == '\U{205F}' || c == '\U{3000}'
    || IsLineTerminator(c)
  }

  predicate IsAsciiLower(c: char) {
    'a' <= c <= 'z'
  }

  predicate IsAsciiUpper(c: char) {
    'A' <= c <= 'Z'
  }

  predicate IsAsciiLetter(c: char) {
    IsAsciiLower(c) || IsAsciiUpper(c)
  }

  predicate IsDigit(c: char) {
    '0' <= c <= '9'
  }

  /** `c.toUpperCase()` restricted to what the scrapers apply it to: an ASCII
      lower-case letter. */
  function AsciiUpper(c: char): (u: char)
    requires IsAsciiLower(c)
    ensures IsAsciiUpper(u) && u as int == c as int - 32
  {
    (c as int - 32) as char
  }

  /** The case folding of a JavaScript regex with the `i` flag, on the
      characters where it matters here: for a pattern made of ASCII
      characters only ASCII characters can match, letters in either case. */
  function FoldCase(c: char): char {
    if IsAsciiUpper(c) then (c as int + 32) as char else c
  }

  /** `pat` occurs in `s` starting at index `i`. */
  predicate OccursAt(s: string, pat: string, i: int) {
    0 <= i && i + |pat| <= |s| && s[i..i + |pat|] == pat
  }

  /** `pat` occurs in `s` at `i`, comparing ASCII letters without case. */
  predicate OccursAtIgnoringCase(s: string, pat: string, i: int) {
    && 0 <= i && i + |pat| <= |s|
    && forall k :: 0 <= k < |pat| ==> FoldCase(s[i + k]) == FoldCase(pat[k])
  }

  /** `s.indexOf(pat, from)`: the leftmost occurrence at or after `from`. */
  function IndexOfFrom(s: string, pat: string, from: nat): (r: Option<nat>)
    decreases |s| - from
    ensures r.Some? ==> from <= r.value && OccursAt(s, pat, r.value)
    ensures r.Some? ==> forall j :: from <= j < r.value ==> !OccursAt(s, pat, j)
    ensures r.None? ==> forall j :: from <= j ==> !OccursAt(s, pat, j)
  {
    if from + |pat| > |s| then None
    else if s[from..from + |pat|] == pat then Some(from)
    else IndexOfFrom(s, pat, from + 1)
  }

  /** `s.indexOf(pat)`. */
  function IndexOf(s: string, pat: string): (r: Option<nat>)
    ensures r.Some? ==> OccursAt(s, pat, r.value) && forall j :: 0 <= j < r.value ==> !OccursAt(s, pat, j)
    ensures r.None? ==> forall j :: !OccursAt(s, pat, j)
  {
    IndexOfFrom(s, pat, 0)
  }

  /** `s.includes(pat)`. */
  predicate Contains(s: string, pat: string) {
    IndexOf(s, pat).Some?
  }

  /** `includes` holds exactly when the pattern occurs somewhere. */
  lemma ContainsIffOccurs(s: string, pat: string)
    ensures Contains(s, pat) <==> exists i :: OccursAt(s, pat, i)
  {
  }

  /** `s.split(sep)` for a non-empty string separator: the pieces between
      the leftmost non-overlapping occurrences of `sep`. */
  function Split(s: string, sep: string): (parts: seq<string>)
    requires sep != ""
    ensures |parts| >= 1
    decreases |s|
  {
    match IndexOf(s, sep)
    case None => [s]
    case Some(i) => [s[..i]] + Split(s[i + |sep|..], sep)
  }

  /** `parts.join(sep)`, the inverse of `Split`. */
  function Join(parts: seq<string>, sep: string): string
    requires |parts| >= 1
  {
    if |parts| == 1 then parts[0] else parts[0] + sep + Join(parts[1..], sep)
  }

  /** Joining the pieces of a split gives back the input. */
  lemma {:induction false} JoinSplit(s: string, sep: string)
    requires sep != ""
    ensures Join(Split(s, sep), sep) == s
    decreases |s|
  {
    match IndexOf(s, sep)
    case None =>
    case Some(i) =>
      var rest := s[i + |sep|..];
      var parts := Split(s, sep);
      JoinSplit(rest, sep);
      assert parts == [s[..i]] + Split(rest, sep);
      assert parts[1..] == Split(rest, sep);
      calc {
        Join(parts, sep);
        parts[0] + sep + Join(parts[1..], sep);
        s[..i] + s[i..i + |sep|] + s[i + |sep|..];
        s;
      }
  }

  /** No piece produced by `Split` contains the separator. */
  lemma {:induction false} SplitPiecesAvoidSeparator(s: string, sep: string)
    requires sep != ""
    ensures forall k :: 0 <= k < |Split(s, sep)| ==> !Contains(Split(s, sep)[k], sep)
    decreases |s|
  {
    match IndexOf(s, sep)
    case None =>
      assert Split(s, sep) == [s];
      PrefixAvoids(s, sep, |s|);
    case Some(i) =>
      var rest := s[i + |sep|..];
      SplitPiecesAvoidSeparator(rest, sep);
      PrefixAvoids(s, sep, i);
      var parts := Split(s, sep);
      assert parts == [s[..i]] + Split(rest, sep);
      forall k | 0 <= k < |parts| ensures !Contains(parts[k], sep) {
        if k > 0 {
          assert parts[k] == Split(rest, sep)[k - 1];
        }
      }
  }

  /** If `sep` does not start anywhere before `n` with room to end by `n`,
      the prefix `s[..n]` does not contain it. */
  lemma PrefixAvoids(s: string, sep: string, n: nat)
    requires n <= |s|
    requires forall j :: 0 <= j && j + |sep| <= n ==> !OccursAt(s, sep, j)
    ensures !Contains(s[..n], sep)
  {
    var p := s[..n];
    forall j | OccursAt(p, sep, j) ensures false {
      assert p[j..j + |sep|] == s[j..j + |sep|];
      assert OccursAt(s, sep, j);
    }
  }

  /** The text before the first `sep`, or all of `s`: `s.split(sep)[0]`. */
  lemma SplitFirstPiece(s: string, sep: string)
    requires sep != ""
    ensures Split(s, sep)[0] == (match IndexOf(s, sep) case None => s case Some(i) => s[..i])
  {
  }

  /** A text with exactly one separator splits into the two pieces around it. */
  lemma SplitOnce(x: string, sep: string, y: string)
    requires sep != "" && IndexOf(x + sep + y, sep) == Some(|x|) && !Contains(y, sep)
    ensures Split(x + sep + y, sep) == [x, y]
  {
    var s := x + sep + y;
    assert s[..|x|] == x && s[|x| + |sep|..] == y;
  }

  /** `s.trimStart()`. */
  function TrimStart(s: string): (r: string)
    ensures |r| <= |s| && r == s[|s| - |r|..]
    ensures forall k :: 0 <= k < |s| - |r| ==> IsWhiteSpace(s[k])
    ensures r != "" ==> !IsWhiteSpace(r[0])
    decreases |s|
  {
    if s != "" && IsWhiteSpace(s[0]) then TrimStart(s[1..]) else s
  }

  /** `s.trimEnd()`. */
  function TrimEnd(s: string): (r: string)
    ensures |r| <= |s| && r == s[..|r|]
    ensures forall k :: |r| <= k < |s| ==> IsWhiteSpace(s[k])
    ensures r != "" ==> !IsWhiteSpace(r[|r| - 1])
    decreases |s|
  {
    if s != "" && IsWhiteSpace(s[|s| - 1]) then TrimEnd(s[..|s| - 1]) else s
  }

  /** `s.trim()`: the longest middle slice of `s` that neither starts nor ends
      with white space; what is cut off on either side is white space. */
  function Trim(s: string): (r: string)
    ensures |r| <= |s|
    ensures r != "" ==> !IsWhiteSpace(r[0]) && !IsWhiteSpace(r[|r| - 1])
    ensures (forall k :: 0 <= k < |s| ==> !IsWhiteSpace(s[k])) ==> r == s
  {
    var t := TrimStart(s);
    assert (forall k :: 0 <= k < |s| ==> !IsWhiteSpace(s[k])) ==> t == s;
    TrimEnd(t)
  }

  /** `trim` keeps a slice of the text: everything it cuts off on either
      side is white space. */
  lemma TrimIsSlice(s: string)
    ensures exists a, b ::
      && 0 <= a <= b <= |s| && Trim(s) == s[a..b]
      && (forall k :: 0 <= k < a ==> IsWhiteSpace(s[k]))
      && (forall k :: b <= k < |s| ==> IsWhiteSpace(s[k]))
  {
    var t := TrimStart(s);
    var u := TrimEnd(t);
    var a := |s| - |t|;
    var b := a + |u|;
    assert Trim(s) == u;
    SliceOfSuffix(s, t, u, a);
    assert 0 <= a <= b <= |s| && u == s[a..b];
    assert forall k :: 0 <= k < a ==> IsWhiteSpace(s[k]);
    assert forall k :: b <= k < |s| ==> IsWhiteSpace(s[k]);
  }

  lemma SliceOfSuffix(s: string, t: string, u: string, a: nat)
    requires a <= |s| && t == s[a..] && |u| <= |t| && u == t[..|u|]
    requires forall k :: |u| <= k < |t| ==> IsWhiteSpace(t[k])
    ensures u == s[a..a + |u|]
    ensures forall k :: a + |u| <= k < |s| ==> IsWhiteSpace(s[k])
  {
    forall k | a + |u| <= k < |s| ensures IsWhiteSpace(s[k]) {
      assert s[k] == t[k - a];
    }
  }

  /** `s.replace(pat, rep)` for a string pattern: only the first occurrence
      is replaced. */
  function ReplaceFirst(s: string, pat: string, rep: string): string {
    match IndexOf(s, pat)
    case None => s
    case Some(i) => s[..i] + rep + s[i + |pat|..]
  }

  /** Everything after the first occurrence is left as it was, so a second
      occurrence survives a `replace` with a string pattern. */
  lemma ReplaceFirstKeepsTail(s: string, pat: string, rep: string, i: nat)
    requires pat != "" && IndexOf(s, pat) == Some(i)
    ensures ReplaceFirst(s, pat, rep) == s[..i] + rep + s[i + |pat|..]
    ensures !Contains(s[..i], pat)
  {
    PrefixAvoids(s, pat, i);
  }

  /** A text lacking one of the pattern's characters does not contain it. */
  lemma MissingCharNotContained(s: string, pat: string, k: nat)
    requires k < |pat| && forall j :: 0 <= j < |s| ==> s[j] != pat[k]
    ensures !Contains(s, pat)
  {
    forall i | 0 <= i && i + |pat| <= |s| ensures !OccursAt(s, pat, i) {
      assert s[i..i + |pat|][k] == s[i + k] != pat[k];
    }
  }

  /** A replacement leaves a text without the pattern unchanged. */
  lemma ReplaceFirstAbsent(s: string, pat: string, rep: string)
    requires !Contains(s, pat)
    ensures ReplaceFirst(s, pat, rep) == s
  {
  }

  /** Index of the first line terminator at or after `from`, or `|s|`:
      how far a run of the regex `.` can reach. */
  function LineEnd(s: string, from: nat): (e: nat)
    requires from <= |s|
    ensures from <= e <= |s|
    ensures forall k :: from <= k < e ==> !IsLineTerminator(s[k])
    ensures e < |s| ==> IsLineTerminator(s[e])
    decreases |s| - from
  {
    if from == |s| || IsLineTerminator(s[from]) then from else LineEnd(s, from + 1)
  }

  /** A line without terminators runs to the end of the text. */
  lemma {:induction false} LineEndOfLastLine(s: string, from: nat)
    requires from <= |s|
    requires forall k :: from <= k < |s| ==> !IsLineTerminator(s[k])
    ensures LineEnd(s, from) == |s|
    decreases |s| - from
  {
    if from < |s| {
      LineEndOfLastLine(s, from + 1);
    }
  }

  function DigitChar(d: nat): (c: char)
    requires d < 10
    ensures IsDigit(c)
  {
    ('0' as int + d) as char
  }

  /** The decimal digits of `n`, as `String(n)` writes a non-negative integer. */
  function NatToString(n: nat): (r: string)
    ensures |r| >= 1 && forall k :: 0 <= k < |r| ==> IsDigit(r[k])
  {
    if n < 10 then [DigitChar(n)] else NatToString(n / 10) + [DigitChar(n % 10)]
  }

  /** The value of a string of decimal digits. */
  function DecimalValue(ds: string): nat
    requires forall k :: 0 <= k < |ds| ==> IsDigit(ds[k])
  {
    if ds == "" then 0
    else
      assert IsDigit(ds[|ds| - 1]);
      DecimalValue(ds[..|ds| - 1]) * 10 + (ds[|ds| - 1] as int - '0' as int)
  }

  /** Reading back the digits `NatToString` writes gives the number. */
  lemma {:induction false} DecimalValueOfNatToString(n: nat)
    ensures DecimalValue(NatToString(n)) == n
  {
    var r := NatToString(n);
    if n >= 10 {
      DecimalValueOfNatToString(n / 10);
      assert r[..|r| - 1] == NatToString(n / 10);
    }
  }
}
