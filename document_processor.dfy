/** The text side of the document pipeline in backend/main.py:
    `DocumentProcessor.clean_text`, `DocumentProcessor.chunk_text`, and the
    suffix dispatch of `load_document`. The loaders that read TXT, DOCX and
    PDF files are I/O and appear as a parameter. */
module DocumentProcessor {
  import opened Common

  const DefaultChunkSize := 500
  const DefaultOverlap := 50

  // ---------------------------------------------------------------- clean_text

  /** `\w` restricted to ASCII: letters, digits and '_'. */
  predicate IsWordChar(c: char) {
    'a' <= c <= 'z' || 'A' <= c <= 'Z' || '0' <= c <= '9' || c == '_'
  }

  predicate IsPunctuation(c: char) {
    c in ".,!?;:()-\""
  }

  /** The class `[\w\s.,!?;:()\-"]`, the characters the second pass keeps. */
  predicate IsKept(c: char) {
    IsWordChar(c) || IsPySpace(c) || IsPunctuation(c)
  }

  predicate IsVisible(c: char) {
    !IsPySpace(c)
  }

  /** A character that survives the second pass and is not whitespace. */
  predicate IsKeptVisible(c: char) {
    IsKept(c) && !IsPySpace(c)
  }

  /** First pass, `re.sub(r'\s+', ' ', text)`: every maximal run of
      whitespace becomes one space. */
  function CollapseWhitespace(s: string): (r: string)
    ensures s == [] <==> r == []
    ensures s != [] && !IsPySpace(s[0]) ==> r[0] == s[0]
    ensures forall i :: 0 <= i < |r| && IsPySpace(r[i]) ==> r[i] == ' '
    ensures forall i :: 0 <= i < |r| - 1 && r[i] == ' ' ==> r[i + 1] != ' '
    decreases |s|
  {
    if s == [] then []
    else if IsPySpace(s[0]) then
      var rest := StripLeft(s);
      assert SkipSpaces(s, 0) > 0;
      [' '] + CollapseWhitespace(rest)
    else
      [s[0]] + CollapseWhitespace(s[1..])
  }

  /** The first non-whitespace character of `a` is also the first one of `a + b`. */
  lemma SkipSpacesAppend(a: string, b: string)
    requires SkipSpaces(a, 0) < |a|
    ensures SkipSpaces(a + b, 0) == SkipSpaces(a, 0)
  {
    var j := SkipSpaces(a, 0);
    var k := SkipSpaces(a + b, 0);
    assert (a + b)[j] == a[j];
  }

  /** Text without whitespace passes the first pass unchanged. */
  lemma {:induction false} CollapseNoSpace(s: string)
    requires NoPySpace(s)
    ensures CollapseWhitespace(s) == s
    decreases |s|
  {
    if s != [] {
      assert NoPySpace(s[1..]) by {
        assert forall i :: 0 <= i < |s| - 1 ==> s[1..][i] == s[i + 1];
      }
      CollapseNoSpace(s[1..]);
      CollapseCharStep(s);
    }
  }

  /** A non-empty run of whitespace becomes exactly one ' '. */
  lemma CollapseAllSpace(s: string)
    requires s != [] && AllPySpace(s)
    ensures CollapseWhitespace(s) == " "
  {
    assert SkipSpaces(s, 0) == |s|;
    CollapseSpaceStep(s);
  }

  /** The first pass on a text that starts with a whitespace run. */
  lemma CollapseSpaceStep(s: string)
    requires s != [] && IsPySpace(s[0])
    ensures CollapseWhitespace(s) == [' '] + CollapseWhitespace(s[SkipSpaces(s, 0)..])
  {
  }

  /** The first pass on a text that starts with another character. */
  lemma CollapseCharStep(s: string)
    requires s != [] && !IsPySpace(s[0])
    ensures CollapseWhitespace(s) == [s[0]] + CollapseWhitespace(s[1..])
  {
  }

  /** When the boundary between `a` and `b` does not fall inside a run of
      whitespace, the two halves collapse independently. With the
      no-whitespace and all-whitespace cases of CollapseWhitespace this pins
      the first pass down: each maximal run becomes exactly one ' ' and every
      other character stays. */
  lemma {:induction false} CollapseAppend(a: string, b: string)
    requires a == [] || b == [] || !IsPySpace(a[|a| - 1]) || !IsPySpace(b[0])
    ensures CollapseWhitespace(a + b) == CollapseWhitespace(a) + CollapseWhitespace(b)
    decreases |a|, 2
  {
    if a == [] {
      assert a + b == b;
    } else if b == [] {
      assert a + b == a;
    } else if !IsPySpace(a[0]) {
      CollapseAppendChar(a, b);
    } else {
      CollapseAppendRun(a, b);
    }
  }

  lemma {:induction false} CollapseAppendChar(a: string, b: string)
    requires a != [] && b != [] && !IsPySpace(a[0])
    requires !IsPySpace(a[|a| - 1]) || !IsPySpace(b[0])
    ensures CollapseWhitespace(a + b) == CollapseWhitespace(a) + CollapseWhitespace(b)
    decreases |a|, 0
  {
    var tail := a[1..];
    assert (a + b)[0] == a[0];
    assert (a + b)[1..] == tail + b;
    CollapseCharStep(a + b);
    CollapseCharStep(a);
    if tail == [] {
      assert tail + b == b;
    } else {
      LastOfSuffix(a, 1);
      CollapseAppend(tail, b);
    }
    EmitStep([a[0]], CollapseWhitespace(tail), CollapseWhitespace(a),
             CollapseWhitespace(tail + b), CollapseWhitespace(b), CollapseWhitespace(a + b));
  }

  lemma {:induction false} CollapseAppendRun(a: string, b: string)
    requires a != [] && b != [] && IsPySpace(a[0])
    requires !IsPySpace(a[|a| - 1]) || !IsPySpace(b[0])
    ensures CollapseWhitespace(a + b) == CollapseWhitespace(a) + CollapseWhitespace(b)
    decreases |a|, 1
  {
    var j := SkipSpaces(a, 0);
    if j < |a| {
      CollapseAppendInnerRun(a, b, j);
    } else {
      CollapseAppendWholeRun(a, b);
    }
  }

  /** `a` starts with a whitespace run that ends at `j`, inside `a`. */
  lemma {:induction false} CollapseAppendInnerRun(a: string, b: string, j: nat)
    requires a != [] && b != [] && IsPySpace(a[0])
    requires !IsPySpace(a[|a| - 1]) || !IsPySpace(b[0])
    requires j == SkipSpaces(a, 0) && j < |a|
    ensures CollapseWhitespace(a + b) == CollapseWhitespace(a) + CollapseWhitespace(b)
    decreases |a|, 0
  {
    assert (a + b)[0] == a[0];
    CollapseSpaceStep(a + b);
    CollapseSpaceStep(a);
    SkipSpacesAppend(a, b);
    var rest := a[j..];
    assert (a + b)[j..] == rest + b;
    LastOfSuffix(a, j);
    CollapseAppend(rest, b);
    EmitStep([' '], CollapseWhitespace(rest), CollapseWhitespace(a),
             CollapseWhitespace(rest + b), CollapseWhitespace(b), CollapseWhitespace(a + b));
  }

  /** `a` is one whitespace run and `b` starts with another character. */
  lemma CollapseAppendWholeRun(a: string, b: string)
    requires a != [] && b != [] && IsPySpace(a[0]) && !IsPySpace(b[0])
    requires SkipSpaces(a, 0) == |a|
    ensures CollapseWhitespace(a + b) == CollapseWhitespace(a) + CollapseWhitespace(b)
  {
    assert (a + b)[0] == a[0];
    assert (a + b)[|a|] == b[0];
    assert SkipSpaces(a + b, 0) == |a|;
    assert (a + b)[|a|..] == b;
    CollapseSpaceStep(a + b);
    CollapseSpaceStep(a);
    assert a[|a|..] == [];
  }

  /** `DocumentProcessor.clean_text`: collapse whitespace, delete every
      character outside the kept class, strip both ends. */
  function CleanText(text: string): (r: string)
    ensures r == [] || (!IsPySpace(r[0]) && !IsPySpace(r[|r| - 1]))
  {
    Strip(Filter(CollapseWhitespace(text), IsKept))
  }

  /** Every character clean_text returns is in the kept class, and its only
      whitespace character is ' '. */
  lemma CleanTextChars(text: string)
    ensures forall i :: 0 <= i < |CleanText(text)| ==>
              IsKept(CleanText(text)[i]) && (IsPySpace(CleanText(text)[i]) ==> CleanText(text)[i] == ' ')
  {
    var collapsed := CollapseWhitespace(text);
    var filtered := Filter(collapsed, IsKept);
    FilterOnlySpaces(collapsed, IsKept);
    StripChars(filtered);
  }

  /** Filtering keeps the property "the only whitespace is ' '". */
  lemma {:induction false} FilterOnlySpaces(s: string, keep: char -> bool)
    requires forall i :: 0 <= i < |s| && IsPySpace(s[i]) ==> s[i] == ' '
    ensures forall i :: 0 <= i < |Filter(s, keep)| && IsPySpace(Filter(s, keep)[i]) ==> Filter(s, keep)[i] == ' '
  {
    if s != [] {
      FilterOnlySpaces(s[1..], keep);
    }
  }

  /** Every character of `Strip(s)` is a character of `s`. */
  lemma StripChars(s: string)
    ensures forall i :: 0 <= i < |Strip(s)| ==> Strip(s)[i] in s
  {
    StripContained(s);
    var lo :| 0 <= lo <= |s| - |Strip(s)| && OccursAt(s, Strip(s), lo);
    assert forall i :: 0 <= i < |Strip(s)| ==> Strip(s)[i] == s[lo + i];
  }

  /** The first pass changes only whitespace. */
  lemma {:induction false} CollapseKeeps(s: string, keep: char -> bool)
    requires forall c :: keep(c) ==> !IsPySpace(c)
    ensures Filter(CollapseWhitespace(s), keep) == Filter(s, keep)
    decreases |s|
  {
    if s == [] {
    } else if IsPySpace(s[0]) {
      var rest := StripLeft(s);
      CollapseKeeps(rest, keep);
      FilterAppend([' '], CollapseWhitespace(rest), keep);
      StripLeftKeeps(s, keep);
    } else {
      CollapseKeeps(s[1..], keep);
      FilterAppend([s[0]], CollapseWhitespace(s[1..]), keep);
    }
  }

  lemma {:induction false} FilterKeptThenVisible(s: string)
    ensures Filter(Filter(s, IsKept), IsVisible) == Filter(s, IsKeptVisible)
  {
    if s != [] {
      FilterKeptThenVisible(s[1..]);
      FilterAppend(if IsKept(s[0]) then [s[0]] else [], Filter(s[1..], IsKept), IsVisible);
    }
  }

  /** clean_text loses no character of the input except whitespace and the
      characters outside the kept class: the non-whitespace characters of the
      output are exactly the kept non-whitespace characters of the input, in order. */
  lemma CleanTextKeepsVisible(text: string)
    ensures Filter(CleanText(text), IsVisible) == Filter(text, IsKeptVisible)
  {
    var collapsed := CollapseWhitespace(text);
    StripKeeps(Filter(collapsed, IsKept), IsVisible);
    FilterKeptThenVisible(collapsed);
    CollapseKeeps(text, IsKeptVisible);
  }

  // ---------------------------------------------------------------- chunk_text

  /** Some '.' lies strictly after the middle of the window that starts at
      `start`, inside that window. */
  predicate HasLateDot(text: string, chunkSize: int, start: int) {
    exists j :: start + chunkSize / 2 < j < start + chunkSize && 0 <= j < |text| && text[j] == '.'
  }

  /** Where the window starting at `start` ends: `start + chunk_size`, or just
      after the last '.' of the window when the window is not the last and that
      '.' lies past its middle. */
  function WindowEnd(text: string, chunkSize: int, start: int): (end: int)
    requires 0 < chunkSize && 0 <= start
    ensures start + chunkSize / 2 < end <= start + chunkSize
  {
    var end := start + chunkSize;
    if end < |text| then
      var sentenceEnd := RFind(text, '.', start, end);
      if sentenceEnd > start + chunkSize / 2 then sentenceEnd + 1 else end
    else
      end
  }

  /** A window that is not the last one ends right after its last '.' when that
      '.' lies past the middle of the window; otherwise it is `chunkSize` long. */
  lemma WindowEndAtSentence(text: string, chunkSize: int, start: int)
    requires 0 < chunkSize && 0 <= start
    ensures var end := WindowEnd(text, chunkSize, start);
            if start + chunkSize < |text| && HasLateDot(text, chunkSize, start) then
              text[end - 1] == '.' && forall j :: end <= j < start + chunkSize ==> text[j] != '.'
            else
              end == start + chunkSize
  {
  }

  /** What one window contributes: its stripped text, unless that is empty. */
  function Emit(chunk: string): (r: seq<string>)
    ensures chunk == [] ==> r == []
    ensures chunk != [] ==> r == [chunk]
  {
    if chunk == [] then [] else [chunk]
  }

  /** The chunks the loop of chunk_text produces from `start` on. */
  function ChunksFrom(text: string, chunkSize: int, overlap: int, start: nat): seq<string>
    requires 0 < chunkSize && overlap <= chunkSize / 2
    decreases |text| - start
  {
    if start >= |text| then []
    else
      Emit(Strip(text[start..Min(WindowEnd(text, chunkSize, start), |text|)]))
      + ChunksFrom(text, chunkSize, overlap, NextStart(text, chunkSize, overlap, start))
  }

  /** What `chunk_text(text, chunk_size, overlap)` returns. */
  function Chunks(text: string, chunkSize: int, overlap: int): seq<string>
    requires 0 < chunkSize && overlap <= chunkSize / 2
  {
    if |text| <= chunkSize then [text] else ChunksFrom(text, chunkSize, overlap, 0)
  }

  /** Where the window after the one at `start` begins. */
  function NextStart(text: string, chunkSize: int, overlap: int, start: nat): (next: nat)
    requires 0 < chunkSize && overlap <= chunkSize / 2
    ensures start < next
  {
    WindowEnd(text, chunkSize, start) - overlap
  }

  /** One step of the recursion of `ChunksFrom`: the window at `start`
      ends at `end`, strips to `chunk`, and the next window starts at `next`. */
  lemma ChunksFromUnfold(text: string, chunkSize: int, overlap: int, start: nat, end: int, chunk: string, next: nat)
    requires 0 < chunkSize && overlap <= chunkSize / 2 && start < |text|
    requires end == WindowEnd(text, chunkSize, start) && next == NextStart(text, chunkSize, overlap, start)
    requires chunk == Strip(text[start..Min(end, |text|)])
    ensures ChunksFrom(text, chunkSize, overlap, start) == Emit(chunk) + ChunksFrom(text, chunkSize, overlap, next)
  {
  }

  /** The bookkeeping of one turn of a loop that builds `all` front to back:
      what it emits moves from the part still to come to the part done. */
  lemma EmitStep<T>(done: seq<T>, emitted: seq<T>, done': seq<T>, here: seq<T>, rest: seq<T>, all: seq<T>)
    requires done + here == all && here == emitted + rest && done' == done + emitted
    ensures done' + rest == all
  {
    assert done + (emitted + rest) == (done + emitted) + rest;
  }

  /** One turn of the loop of chunk_text keeps its invariant: the chunks
      emitted so far followed by those still to come are all the chunks. */
  lemma ChunkStep(text: string, chunkSize: int, overlap: int, done: seq<string>, done': seq<string>,
                  start: nat, end: int, chunk: string, next: nat)
    requires 0 < chunkSize && overlap <= chunkSize / 2 && start < |text|
    requires end == WindowEnd(text, chunkSize, start) && next == NextStart(text, chunkSize, overlap, start)
    requires chunk == Strip(text[start..Min(end, |text|)])
    requires done + ChunksFrom(text, chunkSize, overlap, start) == ChunksFrom(text, chunkSize, overlap, 0)
    requires done' == done + Emit(chunk)
    ensures done' + ChunksFrom(text, chunkSize, overlap, next) == ChunksFrom(text, chunkSize, overlap, 0)
  {
    ChunksFromUnfold(text, chunkSize, overlap, start, end, chunk, next);
    EmitStep(done, Emit(chunk), done', ChunksFrom(text, chunkSize, overlap, start),
             ChunksFrom(text, chunkSize, overlap, next), ChunksFrom(text, chunkSize, overlap, 0));
  }

  /** A chunk is what survives of a window after strip(): no whitespace at its
      ends, no longer than `chunkSize`, a substring of the text. */
  predicate IsChunkOf(text: string, chunkSize: int, c: string) {
    c != [] && Strip(c) == c && |c| <= chunkSize && Contains(text, c)
  }

  lemma WindowChunk(text: string, chunkSize: int, start: nat)
    requires 0 < chunkSize && start < |text|
    ensures var end := WindowEnd(text, chunkSize, start);
            var chunk := Strip(text[start..Min(end, |text|)]);
            chunk != [] ==> IsChunkOf(text, chunkSize, chunk)
  {
    var end := WindowEnd(text, chunkSize, start);
    var window := text[start..Min(end, |text|)];
    StripIdempotent(window);
    StripSlice(text, start, Min(end, |text|));
  }

  /** Every chunk the loop produces is non-empty, is its own strip(), is at
      most `chunkSize` long and is a substring of the text. */
  lemma {:induction false} ChunksFromShape(text: string, chunkSize: int, overlap: int, start: nat)
    requires 0 < chunkSize && overlap <= chunkSize / 2
    ensures forall c :: c in ChunksFrom(text, chunkSize, overlap, start) ==> IsChunkOf(text, chunkSize, c)
    decreases |text| - start
  {
    if start < |text| {
      var end := WindowEnd(text, chunkSize, start);
      var next := NextStart(text, chunkSize, overlap, start);
      ChunksFromUnfold(text, chunkSize, overlap, start, end, Strip(text[start..Min(end, |text|)]), next);
      WindowChunk(text, chunkSize, start);
      ChunksFromShape(text, chunkSize, overlap, next);
    }
  }

  /** What chunk_text promises: a text of at most `chunkSize` characters is
      returned whole; otherwise every chunk is non-empty, is its own strip(), is
      at most `chunkSize` long and is a substring of the text. */
  lemma ChunksShape(text: string, chunkSize: int, overlap: int)
    requires 0 < chunkSize && overlap <= chunkSize / 2
    ensures |text| <= chunkSize ==> Chunks(text, chunkSize, overlap) == [text]
    ensures |text| > chunkSize ==>
              forall c :: c in Chunks(text, chunkSize, overlap) ==> IsChunkOf(text, chunkSize, c)
  {
    if |text| > chunkSize {
      ChunksFromShape(text, chunkSize, overlap, 0);
    }
  }

  /** `DocumentProcessor.chunk_text`. */
  method ChunkText(text: string, chunkSize: int, overlap: int) returns (chunks: seq<string>)
    requires 0 < chunkSize && overlap <= chunkSize / 2
    ensures chunks == Chunks(text, chunkSize, overlap)
  {
    if |text| <= chunkSize {
      return [text];
    }
    chunks := [];
    var start: nat := 0;
    while start < |text|
      invariant chunks + ChunksFrom(text, chunkSize, overlap, start) == ChunksFrom(text, chunkSize, overlap, 0)
      decreases |text| - start
    {
      var end := start + chunkSize;
      if end < |text| {
        var sentenceEnd := RFind(text, '.', start, end);
        if sentenceEnd > start + chunkSize / 2 {
          end := sentenceEnd + 1;
        }
      }
      var chunk := Strip(text[start..Min(end, |text|)]);
      ghost var before, from := chunks, start;
      if chunk != [] {
        chunks := chunks + [chunk];
      } else {
        assert chunks == chunks + [];
      }
      start := end - overlap;
      ChunkStep(text, chunkSize, overlap, before, chunks, from, end, chunk, start);
    }
  }

  // ------------------------------------------------------------- load_document

  datatype DocKind = Txt | Docx | Pdf

  const SupportedSuffixes: set<string> := {".txt", ".docx", ".pdf"}

  /** The tail of a '/'-free name from its last '.' starts with that '.' and
      holds neither another '.' nor a '/'. */
  lemma TailFromLastDot(name: string, dot: int)
    requires '/' !in name
    requires dot == RFind(name, '.', 0, |name|) && dot >= 0
    ensures name[dot..][0] == '.' && '.' !in name[dot..][1..] && '/' !in name[dot..]
  {
    var r := name[dot..];
    forall k | 0 <= k < |r|
      ensures r[k] == name[dot + k] && r[k] != '/' && (k >= 1 ==> r[k] != '.')
    {
      assert name[dot + k] in name;
    }
    assert forall k :: 0 <= k < |r| - 1 ==> r[1..][k] == r[k + 1];
  }

  /** Where the first `n` characters of a path end once trailing '/' and "."
      components are dropped. */
  function TrimEnd(path: string, n: nat): (e: nat)
    requires n <= |path|
    ensures e <= n
    ensures e == 0 || (path[e - 1] != '/' && !(e == 1 && path[0] == '.') && !(e >= 2 && path[e - 2] == '/' && path[e - 1] == '.'))
  {
    if n == 0 then 0
    else if path[n - 1] == '/' then TrimEnd(path, n - 1)
    else if n == 1 && path[0] == '.' then 0
    else if n >= 2 && path[n - 2] == '/' && path[n - 1] == '.' then TrimEnd(path, n - 2)
    else n
  }

  /** Two paths that agree on their first `n` characters trim them alike. */
  lemma {:induction false} TrimEndPrefix(p: string, q: string, n: nat)
    requires n <= |p| && n <= |q| && p[..n] == q[..n]
    ensures TrimEnd(p, n) == TrimEnd(q, n)
    decreases n
  {
    if n > 0 {
      assert p[n - 1] == p[..n][n - 1] && q[n - 1] == q[..n][n - 1];
      if n >= 2 {
        assert p[n - 2] == p[..n][n - 2] && q[n - 2] == q[..n][n - 2];
      }
      assert p[0] == p[..n][0] && q[0] == q[..n][0];
      if p[n - 1] == '/' || (n >= 2 && p[n - 2] == '/' && p[n - 1] == '.') {
        var m := if p[n - 1] == '/' then n - 1 else n - 2;
        assert p[..m] == p[..n][..m] && q[..m] == q[..n][..m];
        TrimEndPrefix(p, q, m);
      }
    }
  }

  /** The path pathlib keeps for its final component: trailing '/' and "."
      components are dropped, so "docs/a.txt/." ends in "a.txt". */
  function TrimTail(path: string): (r: string)
    ensures |r| <= |path| && r == path[..|r|]
    ensures r == [] || (r[|r| - 1] != '/' && r != "." && !(|r| >= 2 && r[|r| - 2] == '/' && r[|r| - 1] == '.'))
  {
    path[..TrimEnd(path, |path|)]
  }

  /** A path that ends in neither '/' nor a "." component is its own trimmed
      form. */
  lemma TrimTailFixed(path: string)
    requires path == [] || (path[|path| - 1] != '/' && path != "." && !(|path| >= 2 && path[|path| - 2] == '/' && path[|path| - 1] == '.'))
    ensures TrimTail(path) == path
  {
  }

  /** `Path(path).name`: the last component that is neither empty nor ".". */
  function PathName(path: string): (r: string)
    ensures '/' !in r
    ensures |r| <= |TrimTail(path)| && r == TrimTail(path)[|TrimTail(path)| - |r|..]
  {
    Basename(TrimTail(path))
  }

  /** The suffix of a final component: from its last '.', or "" when it has
      no '.' or has it only as its first or last character. */
  function NameSuffix(name: string): (r: string)
    requires '/' !in name
    ensures r == [] || (|r| >= 2 && r[0] == '.' && '.' !in r[1..] && '/' !in r)
    ensures |r| <= |name| && r == name[|name| - |r|..]
  {
    var dot := RFind(name, '.', 0, |name|);
    if 0 < dot < |name| - 1 then
      TailFromLastDot(name, dot);
      name[dot..]
    else
      ""
  }

  /** `Path(path).suffix`: the suffix of `Path(path).name`. */
  function Suffix(path: string): (r: string)
    ensures r == [] || (|r| >= 2 && r[0] == '.' && '.' !in r[1..] && '/' !in r)
    ensures |r| <= |PathName(path)| && r == PathName(path)[|PathName(path)| - |r|..]
  {
    NameSuffix(PathName(path))
  }

  /** The suffix ends the path once its trailing '/' and "." components are
      dropped. */
  lemma SuffixEndsTrimmed(path: string)
    ensures var t := TrimTail(path); var r := Suffix(path);
            |r| <= |t| && r == t[|t| - |r|..]
  {
    var t := TrimTail(path);
    var name := PathName(path);
    var r := Suffix(path);
    var start := |t| - |name|;
    SuffixOfSuffix(t, start, |name| - |r|, |t| - |r|);
  }

  /** A non-empty suffix leaves a non-empty stem in the final component, so
      with the contract of Suffix it comes from a split stem + "." + ext of
      that component: a name with no such split has the suffix "". */
  lemma SuffixHasStem(path: string)
    requires Suffix(path) != []
    ensures |Suffix(path)| < |PathName(path)|
  {
  }

  /** Whenever the final component is a non-empty stem, a '.', and a
      non-empty extension without '.', the suffix is that '.' and extension. */
  lemma SuffixOfSplit(path: string, stem: string, ext: string)
    requires PathName(path) == stem + "." + ext
    requires stem != [] && ext != [] && '.' !in ext
    ensures Suffix(path) == "." + ext
  {
    NameSuffixOfSplit(PathName(path), stem, ext);
  }

  /** SuffixOfSplit for the final component itself. */
  lemma NameSuffixOfSplit(name: string, stem: string, ext: string)
    requires '/' !in name && name == stem + "." + ext
    requires stem != [] && ext != [] && '.' !in ext
    ensures NameSuffix(name) == "." + ext
  {
    LastDotOfSplit(name, stem, ext);
    assert name[|stem|..] == "." + ext;
  }

  /** Trailing '/' and "." components do not change the suffix. */
  lemma SuffixIgnoresTrailing(path: string)
    ensures Suffix(path + "/") == Suffix(path)
    ensures Suffix(path + "/.") == Suffix(path)
  {
    TrimTailSlash(path);
    TrimTailDot(path);
  }

  /** A trailing '/' is dropped. */
  lemma TrimTailSlash(path: string)
    ensures TrimTail(path + "/") == TrimTail(path)
  {
    var n := |path|;
    var p := path + "/";
    assert p[..n] == path[..n];
    TrimEndPrefix(p, path, n);
  }

  /** A trailing "/." is dropped. */
  lemma TrimTailDot(path: string)
    ensures TrimTail(path + "/.") == TrimTail(path)
  {
    var n := |path|;
    var q := path + "/.";
    assert q[..n] == path[..n];
    TrimEndPrefix(q, path, n);
    assert q[n] == '/' && q[n + 1] == '.';
  }

  /** A '/'-free name that ends in neither '.' nor '/' is its own
      `Path.name`. */
  lemma PlainPathName(name: string)
    requires name != [] && '/' !in name && name[|name| - 1] != '.'
    ensures PathName(name) == name
  {
    TrimTailFixed(name);
    assert RFind(name, '/', 0, |name|) == -1;
  }

  /** A file name followed by a '/' keeps the file name's suffix, as it does
      for pathlib: "a.txt/" is a ".txt" document. */
  lemma TrailingSlashSuffix(stem: string, ext: string)
    requires stem != [] && ext != [] && '/' !in stem && '/' !in ext && '.' !in ext
    ensures Suffix(stem + "." + ext + "/") == "." + ext
  {
    var name := stem + "." + ext;
    SuffixIgnoresTrailing(name);
    assert '/' !in name;
    assert name[|name| - 1] == ext[|ext| - 1];
    PlainPathName(name);
    SuffixOfSplit(name, stem, ext);
  }

  /** In `stem + "." + ext` with `ext` free of '.', the last '.' is the one
      after the stem. */
  lemma LastDotOfSplit(name: string, stem: string, ext: string)
    requires name == stem + "." + ext && '.' !in ext
    ensures RFind(name, '.', 0, |name|) == |stem|
  {
    var dot := RFind(name, '.', 0, |name|);
    assert name[|stem|] == '.';
  }

  /** The branch of `load_document` a lower-cased suffix selects. */
  function KindOfSuffix(suffix: string): (k: Option<DocKind>)
    ensures k.Some? <==> suffix in SupportedSuffixes
    ensures k == Some(Txt) <==> suffix == ".txt"
    ensures k == Some(Docx) <==> suffix == ".docx"
    ensures k == Some(Pdf) <==> suffix == ".pdf"
  {
    if suffix == ".txt" then Some(Txt)
    else if suffix == ".docx" then Some(Docx)
    else if suffix == ".pdf" then Some(Pdf)
    else None
  }

  /** The loader `load_document` picks from the lower-cased suffix. */
  function KindOf(path: string): (k: Option<DocKind>)
    ensures k.Some? <==> Lower(Suffix(path)) in SupportedSuffixes
    ensures k == Some(Txt) <==> Lower(Suffix(path)) == ".txt"
    ensures k == Some(Docx) <==> Lower(Suffix(path)) == ".docx"
    ensures k == Some(Pdf) <==> Lower(Suffix(path)) == ".pdf"
  {
    KindOfSuffix(Lower(Suffix(path)))
  }

  datatype LoadError = FileNotFound | UnsupportedType(suffix: string) | ReadFailed(kind: DocKind)

  /** What `load_document` returns or raises. `found` is the file-existence
      check; `read` is the loader for each kind (None when it raises). */
  function DocumentChunks(path: string, found: bool, read: DocKind -> Option<string>): Result<seq<string>, LoadError>
  {
    if !found then Err(FileNotFound)
    else match KindOf(path)
      case None => Err(UnsupportedType(Suffix(path)))
      case Some(kind) =>
        match read(kind)
        case None => Err(ReadFailed(kind))
        case Some(raw) => Ok(Chunks(CleanText(raw), DefaultChunkSize, DefaultOverlap))
  }

  /** The chunks of a text with no whitespace at its ends: there is at least
      one; "" yields the single chunk ""; each is at most `chunkSize` long, is
      its own strip() and is a substring of the text. */
  lemma TrimmedChunksShape(text: string, chunkSize: int, overlap: int)
    requires 0 < chunkSize && overlap <= chunkSize / 2
    requires text == [] || (!IsPySpace(text[0]) && !IsPySpace(text[|text| - 1]))
    ensures var chunks := Chunks(text, chunkSize, overlap);
            chunks != []
            && (text == [] ==> chunks == [""])
            && forall c :: c in chunks ==> |c| <= chunkSize && Strip(c) == c && Contains(text, c)
  {
    ChunksShape(text, chunkSize, overlap);
    if |text| <= chunkSize {
      StripFixed(text);
      assert OccursAt(text, text, 0);
    } else {
      var window := text[0..Min(WindowEnd(text, chunkSize, 0), |text|)];
      ChunksFromUnfold(text, chunkSize, overlap, 0, WindowEnd(text, chunkSize, 0), Strip(window), NextStart(text, chunkSize, overlap, 0));
      assert window[0] == text[0];
      StripEmptyIff(window);
    }
  }

  /** The chunks of a loaded document are at most 500 characters long, carry no
      whitespace at either end, and are substrings of the cleaned text; a
      document that cleans to "" yields the single chunk "". */
  lemma LoadedChunksShape(path: string, found: bool, read: DocKind -> Option<string>)
    requires DocumentChunks(path, found, read).Ok?
    ensures var chunks := DocumentChunks(path, found, read).value;
            var cleaned := CleanText(read(KindOf(path).value).value);
            chunks != []
            && (cleaned == [] ==> chunks == [""])
            && forall c :: c in chunks ==> |c| <= DefaultChunkSize && Strip(c) == c && Contains(cleaned, c)
  {
    TrimmedChunksShape(CleanText(read(KindOf(path).value).value), DefaultChunkSize, DefaultOverlap);
  }

  /** `load_document`. */
  method LoadDocument(path: string, found: bool, read: DocKind -> Option<string>)
    returns (r: Result<seq<string>, LoadError>)
    ensures r == DocumentChunks(path, found, read)
    ensures r.Ok? <==> found && KindOf(path).Some? && read(KindOf(path).value).Some?
  {
    if !found {
      return Err(FileNotFound);
    }
    var kind := KindOf(path);
    if kind.None? {
      return Err(UnsupportedType(Suffix(path)));
    }
    var raw := read(kind.value);
    if raw.None? {
      return Err(ReadFailed(kind.value));
    }
    var cleaned := CleanText(raw.value);
    var chunks := ChunkText(cleaned, DefaultChunkSize, DefaultOverlap);
    return Ok(chunks);
  }
}
