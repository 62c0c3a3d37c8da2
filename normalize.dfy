/** The backend's clean-up of a song name or artist, applied in this fixed
    order: decode every numeric character reference `&#N;`, replace the
    first `_` by a space, replace the first double space by a single one,
    delete every character outside the allow-list, and upper-case a leading
    ASCII lower-case letter. */
module Normalize {
  import opened Wrappers
  import opened Text

  /** Length of the run of ASCII digits starting at `from`. */
  function DigitRun(s: string, from: nat): (n: nat)
    requires from <= |s|
    ensures from + n <= |s|
    ensures forall k :: from <= k < from + n ==> IsDigit(s[k])
    ensures from + n < |s| ==> !IsDigit(s[from + n])
    decreases |s| - from
  {
    if from < |s| && IsDigit(s[from]) then 1 + DigitRun(s, from + 1) else 0
  }

  /** `/&#(\d+);/` at the start of `s`: the decimal code and the length of
      the reference (the greedy `\d+` must reach the `;`). */
  function CharRefAt(s: string): (r: Option<(nat, nat)>)
    ensures r.Some? ==> 4 <= r.value.1 <= |s| && s[..2] == "&#" && s[r.value.1 - 1] == ';'
    ensures r.Some? ==> forall k :: 2 <= k < r.value.1 - 1 ==> IsDigit(s[k])
    ensures r.Some? ==> r.value.0 == DecimalValue(s[2..r.value.1 - 1])
    ensures |s| > 0 && s[0] != '&' ==> r.None?
  {
    if |s| >= 2 && s[0] == '&' && s[1] == '#' then
      var n := DigitRun(s, 2);
      if n > 0 && 2 + n < |s| && s[2 + n] == ';' then
        var ds := s[2..2 + n];
        assert forall k :: 0 <= k < |ds| ==> ds[k] == s[2 + k];
        Some((DecimalValue(ds), 3 + n))
      else None
    else None
  }

  /** `String.fromCharCode(n)`: the UTF-16 code unit `n mod 2^16`. A lone
      surrogate code unit is not a character here and becomes U+FFFD; both
      are outside the allow-list, so the filter deletes either. */
  function FromCharCode(n: nat): (c: char)
    ensures 0xD800 <= n % 0x1_0000 < 0xE000 ==> c == '\U{FFFD}'
    ensures !(0xD800 <= n % 0x1_0000 < 0xE000) ==> c as int == n % 0x1_0000
  {
    var unit := n % 0x1_0000;
    if 0xD800 <= unit < 0xE000 then '\U{FFFD}' else unit as char
  }

  /** Below the surrogates a code is its own character. */
  lemma FromCharCodeBelowSurrogates(n: nat)
    requires n < 0xD800
    ensures FromCharCode(n) == n as char
  {
  }

  /** `s.replace(/&#(\d+);/g, ...)`: every reference, left to right; the
      decoded text is not scanned again. */
  function DecodeCharRefs(s: string): (r: string)
    ensures |r| <= |s|
    decreases |s|
  {
    if s == "" then ""
    else match CharRefAt(s)
      case Some((code, len)) => [FromCharCode(code)] + DecodeCharRefs(s[len..])
      case None => [s[0]] + DecodeCharRefs(s[1..])
  }

  /** A text without `&` has nothing to decode. */
  lemma {:induction false} DecodeWithoutAmpersand(s: string)
    requires forall k :: 0 <= k < |s| ==> s[k] != '&'
    ensures DecodeCharRefs(s) == s
    decreases |s|
  {
    if s != "" {
      DecodeWithoutAmpersand(s[1..]);
    }
  }

  /** The letters the class lists one by one after the range `À-ž`. */
  const ListedLetters := "aâăáeéèiîoóöőøsșşșştțţțţ"

  /** The class `[a-zA-ZÀ-žaâăáeéèiîoóöőøsșşșştțţțţ\-\s?'&]` as written. */
  predicate InClass(c: char) {
    || IsAsciiLetter(c) || ('\U{00C0}' <= c <= '\U{017E}') || c in ListedLetters
    || c == '-' || IsWhiteSpace(c) || c == '?' || c == '\'' || c == '&'
  }

  /** The same class with its listed letters resolved: all of them are ASCII
      or inside U+00C0..U+017E except `ș` (U+0219) and `ț` (U+021B). */
  predicate IsAllowed(c: char) {
    || IsAsciiLetter(c) || ('\U{00C0}' <= c <= '\U{017E}') || c == '\U{0219}' || c == '\U{021B}'
    || c == '-' || IsWhiteSpace(c) || c == '?' || c == '\'' || c == '&'
  }

  lemma AllowedIsClass(c: char)
    ensures IsAllowed(c) <==> InClass(c)
  {
    assert ListedLetters[15] == '\U{0219}' && ListedLetters[20] == '\U{021B}';
  }

  /** Digits, `#`, `;` and `_` are never allowed, so neither a reference
      left undecoded nor an underscore survives the filter. */
  lemma MarksNotAllowed(c: char)
    requires IsDigit(c) || c == '#' || c == ';' || c == '_'
    ensures !IsAllowed(c)
  {
  }

  /** `s.replace(allowedCharacters, "")` with the negated class: every
      character outside the allow-list is deleted, the rest kept in order. */
  function FilterAllowed(s: string): (r: string)
    ensures |r| <= |s|
    decreases |s|
  {
    if s == "" then ""
    else if IsAllowed(s[0]) then [s[0]] + FilterAllowed(s[1..])
    else FilterAllowed(s[1..])
  }

  /** What survives the filter is allowed. */
  lemma {:induction false} FilterOnlyAllowed(s: string)
    ensures forall k :: 0 <= k < |FilterAllowed(s)| ==> IsAllowed(FilterAllowed(s)[k])
    decreases |s|
  {
    if s != "" {
      FilterOnlyAllowed(s[1..]);
    }
  }

  /** Filtering keeps exactly the allowed characters: it commutes with
      concatenation, and leaves an allowed-only text as it is. */
  lemma {:induction false} FilterAppend(a: string, b: string)
    ensures FilterAllowed(a + b) == FilterAllowed(a) + FilterAllowed(b)
    decreases |a|
  {
    if a != "" {
      assert (a + b)[0] == a[0];
      assert (a + b)[1..] == a[1..] + b;
      FilterAppend(a[1..], b);
      if IsAllowed(a[0]) {
        calc {
          FilterAllowed(a + b);
          [a[0]] + FilterAllowed(a[1..] + b);
          [a[0]] + (FilterAllowed(a[1..]) + FilterAllowed(b));
          ([a[0]] + FilterAllowed(a[1..])) + FilterAllowed(b);
        }
      }
    } else {
      assert a + b == b;
    }
  }

  lemma {:induction false} FilterKeepsAllowed(s: string)
    requires forall k :: 0 <= k < |s| ==> IsAllowed(s[k])
    ensures FilterAllowed(s) == s
    decreases |s|
  {
    if s != "" {
      FilterKeepsAllowed(s[1..]);
    }
  }

  /** Filtering twice is filtering once. */
  lemma FilterIdempotent(s: string)
    ensures FilterAllowed(FilterAllowed(s)) == FilterAllowed(s)
  {
    FilterOnlyAllowed(s);
    FilterKeepsAllowed(FilterAllowed(s));
  }

  /** `s.replace(/^[a-z]/, m => m.toUpperCase())`: only a lower-case ASCII
      letter at the very start is changed. */
  function CapitalizeFirst(s: string): (r: string)
    ensures |r| == |s| && (s != "" ==> r[1..] == s[1..])
    ensures r != "" ==> !IsAsciiLower(r[0])
    ensures r != "" && !IsAsciiLower(s[0]) ==> r == s
    ensures r != "" && IsAsciiLower(s[0]) ==> r[0] == AsciiUpper(s[0])
  {
    if s != "" && IsAsciiLower(s[0]) then [AsciiUpper(s[0])] + s[1..] else s
  }

  /** The whole replace chain of one field. */
  function NormalizeText(s: string): string {
    var spaced := ReplaceFirst(ReplaceFirst(DecodeCharRefs(s), "_", " "), "  ", " ");
    CapitalizeFirst(FilterAllowed(spaced))
  }

  /** A cleaned field holds allowed characters only and does not start with
      a lower-case ASCII letter. */
  lemma NormalizeTextClean(s: string)
    ensures forall k :: 0 <= k < |NormalizeText(s)| ==> IsAllowed(NormalizeText(s)[k])
    ensures NormalizeText(s) != "" ==> !IsAsciiLower(NormalizeText(s)[0])
  {
    var spaced := ReplaceFirst(ReplaceFirst(DecodeCharRefs(s), "_", " "), "  ", " ");
    var kept := FilterAllowed(spaced);
    FilterOnlyAllowed(spaced);
    var r := CapitalizeFirst(kept);
    assert r == NormalizeText(s);
    assert r != "" && IsAsciiLower(kept[0]) ==> r == [AsciiUpper(kept[0])] + kept[1..];
  }

  /** `name?.length && name.length < 3`: a cleaned name of one or two
      characters is dropped. (Every allowed character is a single UTF-16
      code unit, so the lengths agree.) */
  function DropShortName(name: string): (r: string)
    ensures r == "" || |r| >= 3
    ensures |name| >= 3 ==> r == name
    ensures r != "" ==> r == name
  {
    if 0 < |name| < 3 then "" else name
  }

  /** A word here: allowed characters only, without `&` (so nothing is
      decoded) and without a space (so no double space can form). */
  predicate Word(s: string) {
    forall k :: 0 <= k < |s| ==> IsAllowed(s[k]) && s[k] != '&' && s[k] != ' '
  }

  /** Of two underscores between words, only the first becomes a space; the
      second survives the string-pattern replace and is deleted by the
      filter that runs afterwards. */
  lemma UnderscoresBetweenWords(a: string, b: string, c: string)
    requires Word(a) && Word(b) && Word(c)
    ensures NormalizeText(a + "_" + b + "_" + c) == CapitalizeFirst(a + " " + b + c)
  {
    WordsNotDecoded(a, b, c);
    WordsSpaced(a, b, c);
    WordsFiltered(a, b, c);
  }

  /** Words joined by underscores hold no `&`, so decoding leaves them alone. */
  lemma WordsNotDecoded(a: string, b: string, c: string)
    requires Word(a) && Word(b) && Word(c)
    ensures DecodeCharRefs(a + "_" + b + "_" + c) == a + "_" + b + "_" + c
  {
    WordNoAmpersand(a);
    WordNoAmpersand(b);
    WordNoAmpersand(c);
    JoinNoAmpersand(a, "_");
    JoinNoAmpersand(a + "_", b);
    JoinNoAmpersand(a + "_" + b, "_");
    JoinNoAmpersand(a + "_" + b + "_", c);
    var s := a + "_" + b + "_" + c;
    DecodeWithoutAmpersand(s);
  }

  predicate NoAmpersand(s: string) {
    forall k :: 0 <= k < |s| ==> s[k] != '&'
  }

  lemma WordNoAmpersand(s: string)
    requires Word(s)
    ensures NoAmpersand(s)
  {
  }

  lemma JoinNoAmpersand(x: string, y: string)
    requires NoAmpersand(x) && NoAmpersand(y)
    ensures NoAmpersand(x + y)
  {
    forall k | 0 <= k < |x + y| ensures (x + y)[k] != '&' {
      if k >= |x| { assert (x + y)[k] == y[k - |x|]; }
    }
  }

  /** Only the first underscore becomes a space, and no double space forms. */
  lemma WordsSpaced(a: string, b: string, c: string)
    requires Word(a) && Word(b) && Word(c)
    ensures ReplaceFirst(ReplaceFirst(a + "_" + b + "_" + c, "_", " "), "  ", " ") == a + " " + b + "_" + c
  {
    var s := a + "_" + b + "_" + c;
    var t := a + " " + b + "_" + c;
    forall k | 0 <= k < |a| ensures a[k] != '_' {
      if a[k] == '_' { MarksNotAllowed(a[k]); }
    }
    FirstUnderscoreAfter(a, b + "_" + c);
    assert s == a + "_" + (b + "_" + c) && t == a + " " + (b + "_" + c);
    NoDoubleSpaceBetweenWords(a, b, c);
    ReplaceFirstAbsent(t, "  ", " ");
  }

  /** The filter deletes the remaining underscore and keeps everything else. */
  lemma WordsFiltered(a: string, b: string, c: string)
    requires Word(a) && Word(b) && Word(c)
    ensures FilterAllowed(a + " " + b + "_" + c) == a + " " + b + c
  {
    MarksNotAllowed('_');
    forall k | 0 <= k < |a + " " + b| ensures IsAllowed((a + " " + b)[k]) {
      if k > |a| { assert (a + " " + b)[k] == b[k - |a| - 1]; }
    }
    FilterDeletes(a + " " + b, '_', c);
    assert a + " " + b + "_" + c == (a + " " + b) + ['_'] + c;
    assert (a + " " + b) + c == a + " " + b + c;
  }

  /** The first `_` of `a + "_" + rest` is the one after `a`. */
  lemma FirstUnderscoreAfter(a: string, rest: string)
    requires forall k :: 0 <= k < |a| ==> a[k] != '_'
    ensures ReplaceFirst(a + "_" + rest, "_", " ") == a + " " + rest
  {
    var s := a + "_" + rest;
    assert OccursAt(s, "_", |a|) by {
      assert s[|a|..|a| + 1] == "_";
    }
    forall j | 0 <= j < |a| ensures !OccursAt(s, "_", j) {
      assert s[j..j + 1][0] == a[j];
    }
    assert IndexOf(s, "_") == Some(|a|);
    assert s[..|a|] == a && s[|a| + 1..] == rest;
  }

  /** The only space of `a + " " + b + "_" + c` is the one after `a`, and it
      is followed by `b` or by `_`. */
  lemma NoDoubleSpaceBetweenWords(a: string, b: string, c: string)
    requires Word(a) && Word(b) && Word(c)
    ensures !Contains(a + " " + b + "_" + c, "  ")
  {
    var t := a + " " + b + "_" + c;
    forall j | 0 <= j && j + 2 <= |t| ensures !OccursAt(t, "  ", j) {
      assert t[j..j + 2][0] == t[j] && t[j..j + 2][1] == t[j + 1];
      if j < |a| {
        assert t[j] == a[j];
      } else if j == |a| {
        if |b| > 0 { assert t[j + 1] == b[0]; } else { assert t[j + 1] == '_'; }
      } else if j < |a| + 1 + |b| {
        assert t[j] == b[j - |a| - 1];
      } else if j == |a| + 1 + |b| {
        assert t[j] == '_';
      } else {
        assert t[j] == c[j - |a| - |b| - 2];
      }
    }
  }

  /** The chain, one stage at a time. */
  lemma NormalizeStages(s: string, decoded: string, spaced: string, single: string, kept: string, r: string)
    requires DecodeCharRefs(s) == decoded
    requires ReplaceFirst(decoded, "_", " ") == spaced
    requires ReplaceFirst(spaced, "  ", " ") == single
    requires FilterAllowed(single) == kept
    requires CapitalizeFirst(kept) == r
    ensures NormalizeText(s) == r
  {
  }

  /** One disallowed character between two allowed-only texts is deleted. */
  lemma FilterDeletes(a: string, c: char, b: string)
    requires !IsAllowed(c)
    requires forall k :: 0 <= k < |a| ==> IsAllowed(a[k])
    requires forall k :: 0 <= k < |b| ==> IsAllowed(b[k])
    ensures FilterAllowed(a + [c] + b) == a + b
  {
    assert FilterAllowed([c]) == [] by {
      assert [c][1..] == [];
    }
    calc {
      FilterAllowed(a + [c] + b);
      { FilterAppend(a + [c], b); }
      FilterAllowed(a + [c]) + FilterAllowed(b);
      { FilterAppend(a, [c]); }
      FilterAllowed(a) + [] + FilterAllowed(b);
      { FilterKeepsAllowed(a); FilterKeepsAllowed(b); }
      a + [] + b;
      { assert a + [] == a; }
      a + b;
    }
  }

  /** A reference reads as the code its digits spell. */
  lemma CharRefOf(d: string, rest: string)
    requires d != "" && forall k :: 0 <= k < |d| ==> IsDigit(d[k])
    ensures CharRefAt("&#" + d + ";" + rest) == Some((DecimalValue(d), |d| + 3))
  {
    var a := "&#" + d;
    var b := a + ";";
    var s := b + rest;
    var n := |d|;
    assert a[2..] == d;
    assert s[..n + 3] == b && b[..n + 2] == a;
    assert s[2..2 + n] == a[2..] by {
      assert s[2..2 + n] == s[..n + 3][2..2 + n] == b[2..2 + n] == b[..n + 2][2..];
    }
    forall k | 2 <= k < 2 + n ensures IsDigit(s[k]) {
      assert s[k] == s[2..2 + n][k - 2];
    }
    CharRefIn(s, n);
  }

  /** `&#`, `n` digits and `;` at the start of `s` form one reference. */
  lemma CharRefIn(s: string, n: nat)
    requires 0 < n && 2 + n < |s| && s[0] == '&' && s[1] == '#' && s[2 + n] == ';'
    requires forall k :: 2 <= k < 2 + n ==> IsDigit(s[k])
    ensures CharRefAt(s) == Some((DecimalValue(s[2..2 + n]), n + 3))
  {
    DigitRunOf(s, 2, n);
  }

  lemma {:induction false} DigitRunOf(s: string, from: nat, n: nat)
    requires from + n <= |s|
    requires forall k :: from <= k < from + n ==> IsDigit(s[k])
    requires from + n < |s| ==> !IsDigit(s[from + n])
    ensures DigitRun(s, from) == n
    decreases n
  {
    if n > 0 {
      DigitRunOf(s, from + 1, n - 1);
    }
  }

  /** References are decoded before anything else, and each one only once:
      `&#65;&#66;C` reads `ABC`. */
  lemma DecodesBeforeFiltering()
    ensures NormalizeText("&#65;&#66;C") == "ABC"
  {
    DecodeExample();
    UpperOnlyUntouched();
    NormalizeStages("&#65;&#66;C", "ABC", "ABC", "ABC", "ABC", "ABC");
  }

  lemma UpperOnlyUntouched()
    ensures ReplaceFirst("ABC", "_", " ") == "ABC"
    ensures ReplaceFirst("ABC", "  ", " ") == "ABC"
    ensures FilterAllowed("ABC") == "ABC"
    ensures CapitalizeFirst("ABC") == "ABC"
  {
    MissingCharNotContained("ABC", "_", 0);
    ReplaceFirstAbsent("ABC", "_", " ");
    MissingCharNotContained("ABC", "  ", 0);
    ReplaceFirstAbsent("ABC", "  ", " ");
    FilterKeepsAllowed("ABC");
  }

  lemma DecodeExample()
    ensures DecodeCharRefs("&#65;&#66;C") == "ABC"
  {
    DecodeExampleHead();
    DecodeExampleTail();
    assert ['A'] + "BC" == "ABC";
  }

  lemma DecodeExampleHead()
    ensures DecodeCharRefs("&#65;&#66;C") == ['A'] + DecodeCharRefs("&#66;C")
  {
    assert "&#" + "65" + ";" + "&#66;C" == "&#65;&#66;C";
    DecodeCodeThen("65", 65, "&#66;C");
  }

  lemma DecodeExampleTail()
    ensures DecodeCharRefs("&#66;C") == "BC"
  {
    assert "&#" + "66" + ";" + "C" == "&#66;C";
    DecodeCodeThen("66", 66, "C");
    assert DecodeCharRefs("C") == "C";
  }

  /** A reference to a code below the surrogates decodes to that character. */
  lemma DecodeCodeThen(d: string, code: nat, rest: string)
    requires d != "" && forall k :: 0 <= k < |d| ==> IsDigit(d[k])
    requires DecimalValue(d) == code && code < 0xD800
    ensures DecodeCharRefs("&#" + d + ";" + rest) == [code as char] + DecodeCharRefs(rest)
  {
    var s := "&#" + d + ";" + rest;
    CharRefOf(d, rest);
    assert s[|d| + 3..] == rest;
    FromCharCodeBelowSurrogates(code);
  }

}
