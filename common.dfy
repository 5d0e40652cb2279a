/** Vocabulary shared by the backend and frontend models: optional values,
    results, and the Python and JavaScript string operations the code relies on. */
module Common {

  datatype Option<T> = None | Some(value: T)

  datatype Result<T, E> = Ok(value: T) | Err(error: E)

  function Min(a: int, b: int): int { if a <= b then a else b }

  /** The characters Python's `str.isspace()` accepts, which are those `\s`
      matches in a `str` pattern and those `str.strip()` removes: tab to
      carriage return, U+001C to space, U+0085, U+00A0, U+1680, U+2000 to
      U+200A, U+2028, U+2029, U+202F, U+205F and U+3000. */
  predicate IsPySpace(c: char) {
    || ('\t' <= c <= '\r')
    || ('\U{1C}' <= c <= ' ')
    || c == '\U{85}' || c == '\U{A0}' || c == '\U{1680}'
    || ('\U{2000}' <= c <= '\U{200A}')
    || c == '\U{2028}' || c == '\U{2029}' || c == '\U{202F}' || c == '\U{205F}' || c == '\U{3000}'
  }

  /** The characters JavaScript's `String.prototype.trim()` removes: tab to
      carriage return, space, U+00A0, U+1680, U+2000 to U+200A, U+2028,
      U+2029, U+202F, U+205F, U+3000 and U+FEFF. */
  predicate IsJsSpace(c: char) {
    || ('\t' <= c <= '\r')
    || c == ' ' || c == '\U{A0}' || c == '\U{1680}'
    || ('\U{2000}' <= c <= '\U{200A}')
    || c == '\U{2028}' || c == '\U{2029}' || c == '\U{202F}' || c == '\U{205F}' || c == '\U{3000}'
    || c == '\U{FEFF}'
  }

  /** Every character is Python whitespace (`s.strip()` is empty). */
  predicate AllPySpace(s: string) {
    forall i :: 0 <= i < |s| ==> IsPySpace(s[i])
  }

  /** No character is Python whitespace. */
  predicate NoPySpace(s: string) {
    forall i :: 0 <= i < |s| ==> !IsPySpace(s[i])
  }

  /** JavaScript's `s.trim() === ""`. */
  predicate IsBlank(s: string) {
    forall i :: 0 <= i < |s| ==> IsJsSpace(s[i])
  }

  /** `sub` occurs in `s` starting at index `i`. */
  predicate OccursAt(s: string, sub: string, i: int) {
    0 <= i && i + |sub| <= |s| && s[i..i + |sub|] == sub
  }

  /** Python's `sub in s` and JavaScript's `s.includes(sub)`. */
  predicate Contains(s: string, sub: string) {
    exists i :: 0 <= i <= |s| - |sub| && OccursAt(s, sub, i)
  }

  /** A substring of a slice of `t` is a substring of `t`. */
  lemma ContainsInSlice(t: string, lo: int, hi: int, sub: string)
    requires 0 <= lo <= hi <= |t| && Contains(t[lo..hi], sub)
    ensures Contains(t, sub)
  {
    var i :| 0 <= i <= hi - lo - |sub| && OccursAt(t[lo..hi], sub, i);
    var v := t[lo..hi];
    assert sub == v[i..i + |sub|];
    assert forall k :: 0 <= k < |sub| ==> sub[k] == v[i + k] == t[lo + i + k];
    assert OccursAt(t, sub, lo + i);
  }

  /** The index of the first character of `s` at or after `i` that is not
      Python whitespace, or `|s|` when there is none. */
  function SkipSpaces(s: string, i: nat): (j: nat)
    requires i <= |s|
    ensures i <= j <= |s|
    ensures j < |s| ==> !IsPySpace(s[j])
    ensures forall k :: i <= k < j ==> IsPySpace(s[k])
    decreases |s| - i
  {
    if i < |s| && IsPySpace(s[i]) then SkipSpaces(s, i + 1) else i
  }

  /** Python's `s.lstrip()`. */
  function StripLeft(s: string): (r: string)
    ensures r == [] || !IsPySpace(r[0])
  {
    s[SkipSpaces(s, 0)..]
  }

  /** Python's `s.strip()`: whitespace removed from both ends, one character
      at a time. */
  function Strip(s: string): (r: string)
    ensures r == [] || (!IsPySpace(r[0]) && !IsPySpace(r[|r| - 1]))
    ensures |r| <= |s|
  {
    if |s| > 0 && IsPySpace(s[0]) then Strip(s[1..])
    else if |s| > 0 && IsPySpace(s[|s| - 1]) then Strip(s[..|s| - 1])
    else s
  }

  /** `strip()` returns "" exactly for an all-whitespace string. */
  lemma {:induction false} StripEmptyIff(s: string)
    ensures Strip(s) == [] <==> forall i :: 0 <= i < |s| ==> IsPySpace(s[i])
  {
    if s != [] && IsPySpace(s[0]) {
      StripEmptyIff(s[1..]);
      assert forall i :: 1 <= i < |s| ==> s[i] == s[1..][i - 1];
    } else if s != [] && IsPySpace(s[|s| - 1]) {
      StripEmptyIff(s[..|s| - 1]);
    }
  }

  /** `strip()` returns a substring of its argument. */
  lemma {:induction false} StripContained(s: string)
    ensures Contains(s, Strip(s))
  {
    if s != [] && IsPySpace(s[0]) {
      StripContained(s[1..]);
      assert s[1..|s|] == s[1..];
      ContainsInSlice(s, 1, |s|, Strip(s));
    } else if s != [] && IsPySpace(s[|s| - 1]) {
      StripContained(s[..|s| - 1]);
      ContainsInSlice(s, 0, |s| - 1, Strip(s));
    } else {
      assert OccursAt(s, s, 0);
    }
  }

  /** The strip of a slice of `t` is a substring of `t`. */
  lemma StripSlice(t: string, a: nat, b: nat)
    requires a <= b <= |t|
    ensures Contains(t, Strip(t[a..b]))
  {
    StripContained(t[a..b]);
    ContainsInSlice(t, a, b, Strip(t[a..b]));
  }

  /** A string with no whitespace at either end is its own `strip()`. */
  lemma StripFixed(s: string)
    requires s == [] || (!IsPySpace(s[0]) && !IsPySpace(s[|s| - 1]))
    ensures Strip(s) == s
  {
  }

  /** `strip()` is idempotent. */
  lemma StripIdempotent(s: string)
    ensures Strip(Strip(s)) == Strip(s)
  {
    StripFixed(Strip(s));
  }

  /** The characters of `s` that satisfy `keep`, in order (a regular-expression
      substitution that deletes the other characters). */
  function Filter(s: string, keep: char -> bool): (r: string)
    ensures |r| <= |s|
    ensures forall i :: 0 <= i < |r| ==> keep(r[i])
  {
    if s == [] then [] else (if keep(s[0]) then [s[0]] else []) + Filter(s[1..], keep)
  }

  /** A character occurs in the filtered text exactly when it occurs in the
      text and belongs to the class. */
  lemma {:induction false} FilterMembers(s: string, keep: char -> bool, c: char)
    ensures c in Filter(s, keep) <==> c in s && keep(c)
  {
    if s != [] {
      FilterMembers(s[1..], keep, c);
      assert s == [s[0]] + s[1..];
    }
  }

  /** A text whose characters all belong to the class passes unchanged. */
  lemma {:induction false} FilterAllKept(s: string, keep: char -> bool)
    requires forall i :: 0 <= i < |s| ==> keep(s[i])
    ensures Filter(s, keep) == s
  {
    if s != [] {
      assert forall i :: 0 <= i < |s| - 1 ==> s[1..][i] == s[i + 1];
      FilterAllKept(s[1..], keep);
    }
  }

  /** Filtering distributes over concatenation, so the filter of a text is
      the concatenation of the filters of its characters, in order. */
  lemma {:induction false} FilterAppend(a: string, b: string, keep: char -> bool)
    ensures Filter(a + b, keep) == Filter(a, keep) + Filter(b, keep)
  {
    if a == [] {
      assert a + b == b;
    } else {
      assert (a + b)[1..] == a[1..] + b;
      FilterAppend(a[1..], b, keep);
    }
  }

  /** A filter that rejects whitespace keeps nothing of an all-whitespace string. */
  lemma {:induction false} FilterSpaces(s: string, keep: char -> bool)
    requires forall c :: keep(c) ==> !IsPySpace(c)
    requires forall i :: 0 <= i < |s| ==> IsPySpace(s[i])
    ensures Filter(s, keep) == []
  {
    if s != [] {
      FilterSpaces(s[1..], keep);
    }
  }

  /** Removing whitespace from the ends of a string loses none of the
      characters a whitespace-rejecting filter keeps. */
  lemma {:induction false} StripKeeps(s: string, keep: char -> bool)
    requires forall c :: keep(c) ==> !IsPySpace(c)
    ensures Filter(Strip(s), keep) == Filter(s, keep)
  {
    if s != [] && IsPySpace(s[0]) {
      StripKeeps(s[1..], keep);
    } else if s != [] && IsPySpace(s[|s| - 1]) {
      var init := s[..|s| - 1];
      assert s == init + [s[|s| - 1]];
      FilterAppend(init, [s[|s| - 1]], keep);
      StripKeeps(init, keep);
    }
  }

  lemma StripLeftKeeps(s: string, keep: char -> bool)
    requires forall c :: keep(c) ==> !IsPySpace(c)
    ensures Filter(StripLeft(s), keep) == Filter(s, keep)
  {
    var lo := SkipSpaces(s, 0);
    assert s == s[..lo] + s[lo..];
    FilterAppend(s[..lo], s[lo..], keep);
    FilterSpaces(s[..lo], keep);
  }

  /** Python's `s.rfind(c, lo, hi)` for one character: the largest index in
      `[lo, hi)` that holds `c`, or -1 when there is none. */
  function RFind(s: string, c: char, lo: int, hi: int): (r: int)
    requires 0 <= lo <= hi <= |s|
    ensures r == -1 || (lo <= r < hi && s[r] == c)
    ensures forall j :: (if r == -1 then lo else r + 1) <= j < hi ==> s[j] != c
    decreases hi - lo
  {
    if lo == hi then -1 else if s[hi - 1] == c then hi - 1 else RFind(s, c, lo, hi - 1)
  }

  /** A suffix of a suffix is a suffix. */
  lemma SuffixOfSuffix<T>(s: seq<T>, a: nat, b: nat, c: nat)
    requires c == a + b <= |s|
    ensures s[a..][b..] == s[c..]
  {
  }

  /** A non-empty suffix of a sequence ends with the sequence's last element. */
  lemma LastOfSuffix<T>(s: seq<T>, j: nat)
    requires j < |s|
    ensures s[j..][|s[j..]| - 1] == s[|s| - 1]
  {
  }

  /** `os.path.basename` on POSIX: the text after the last '/'. */
  function Basename(path: string): (r: string)
    ensures '/' !in r
    ensures |r| <= |path| && r == path[|path| - |r|..]
  {
    var slash := RFind(path, '/', 0, |path|);
    var r := path[slash + 1..];
    assert forall k :: 0 <= k < |r| ==> r[k] == path[slash + 1 + k];
    r
  }

  /** The base name starts right after the last '/' of the path, or at the
      start of the path when it has none. */
  lemma BasenameAfterSlash(path: string)
    ensures |Basename(path)| == |path| || path[|path| - |Basename(path)| - 1] == '/'
  {
  }

  /** ASCII lower-casing. The only non-ASCII characters that Python's
      `str.lower()` maps into ASCII are U+0130 and U+212A (to "i" plus a
      combining dot and to "k"); neither letter occurs in the suffixes compared here. */
  function LowerChar(c: char): char {
    if 'A' <= c <= 'Z' then (c as int + 32) as char else c
  }

  function Lower(s: string): (r: string)
    ensures |r| == |s| && forall i :: 0 <= i < |s| ==> r[i] == LowerChar(s[i])
  {
    seq(|s|, i requires 0 <= i < |s| => LowerChar(s[i]))
  }

  /** Python's `sep.join(parts)` and JavaScript's `parts.join(sep)`. */
  function Join(parts: seq<string>, sep: string): string {
    if parts == [] then "" else if |parts| == 1 then parts[0] else parts[0] + sep + Join(parts[1..], sep)
  }

  function DigitChar(d: int): char
    requires 0 <= d < 10
  {
    ('0' as int + d) as char
  }

  predicate IsDigits(s: string) {
    forall i :: 0 <= i < |s| ==> '0' <= s[i] <= '9'
  }

  /** The number a string of decimal digits denotes. */
  function DigitsValue(s: string): nat
    requires IsDigits(s)
  {
    if s == [] then 0 else DigitsValue(s[..|s| - 1]) * 10 + (s[|s| - 1] as int - '0' as int)
  }

  /** Decimal text of a natural number: digits without a leading zero that
      denote `n`. */
  function NatToString(n: nat): (r: string)
    ensures r != [] && IsDigits(r)
    ensures DigitsValue(r) == n
    ensures r[0] == '0' <==> n == 0
  {
    if n < 10 then [DigitChar(n)]
    else
      var init := NatToString(n / 10);
      var r := init + [DigitChar(n % 10)];
      assert r[..|r| - 1] == init;
      r
  }

  /** Decimal text of an integer, as JavaScript's template literals and
      Python's `str` print it. */
  function IntToString(n: int): string {
    if n < 0 then "-" + NatToString(-n) else NatToString(n)
  }
}
