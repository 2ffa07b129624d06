/**
 * A unified diff split into one chunk per file and packed into a budget (packages/git/src/diff-pack.ts).
 * How a chunk names its path, whether it is binary and a path's class are parameters.
 */
module DiffPack {
  import opened Common

  datatype Chunk = Chunk(path: string, text: string, binary: bool)

  /** A changed file; no counts when Git reports none. */
  datatype PackFile = PackFile(path: string, additions: Option<nat>, deletions: Option<nat>)

  datatype Reason = Partly | TooLarge | NotCollected | Binary

  datatype OmittedFile = OmittedFile(path: string, additions: Option<nat>, deletions: Option<nat>, reason: Reason)

  const HEADER := "diff --git "
  const HUNK := "@@ "

  // ----- lines that start with a mark -----

  /** Where a multi-line JavaScript pattern's `^` matches. */
  predicate LineStart(s: string, i: nat) {
    i <= |s| && (i == 0 || s[i - 1] in {'\n', '\r', '\U{2028}', '\U{2029}'})
  }

  predicate StartsAt(s: string, i: nat, mark: string) {
    LineStart(s, i) && i + |mark| <= |s| && s[i..i + |mark|] == mark
  }

  function StartsFrom(s: string, i: nat, mark: string): seq<nat>
    decreases |s| - i
  {
    if i >= |s| then [] else (if StartsAt(s, i, mark) then [i] else []) + StartsFrom(s, i + 1, mark)
  }

  /** Every line start that `mark` follows. */
  method FindStarts(s: string, mark: string) returns (starts: seq<nat>)
    ensures starts == StartsFrom(s, 0, mark)
  {
    starts := [];
    for i := 0 to |s|
      invariant StartsFrom(s, 0, mark) == starts + StartsFrom(s, i, mark)
    {
      if StartsAt(s, i, mark) {
        starts := starts + [i];
      }
    }
  }

  /** In order, from `lo` and below `end`. */
  predicate Rising(starts: seq<nat>, lo: nat, end: nat) {
    && (forall i :: 0 <= i < |starts| ==> lo <= starts[i] < end)
    && (forall i, j :: 0 <= i < j < |starts| ==> starts[i] < starts[j])
  }

  lemma {:induction false} StartsRise(s: string, i: nat, mark: string)
    ensures Rising(StartsFrom(s, i, mark), i, |s|)
    decreases |s| - i
  {
    hide StartsAt;
    if i < |s| {
      StartsRise(s, i + 1, mark);
    }
  }

  // ----- splitting -----

  /** The text from each start to the next, the last one up to `end`. */
  function Texts(s: string, starts: seq<nat>, end: nat): seq<string> {
    if starts == [] then [] else [Slice(s, starts[0], if |starts| > 1 then starts[1] else end)] + Texts(s, starts[1..], end)
  }

  /** How chunks are named. */
  datatype Naming = Naming(pathOf: string -> Option<string>, binary: string -> bool)

  function ChunkOf(text: string, naming: Naming): seq<Chunk> {
    var path := naming.pathOf(text);
    if path == None || path == Some("") then []
    else [Chunk(path.value, if text != "" && text[|text| - 1] == '\n' then text else text + "\n", naming.binary(text))]
  }

  function Chunks(texts: seq<string>, naming: Naming): seq<Chunk> {
    if texts == [] then [] else ChunkOf(texts[0], naming) + Chunks(texts[1..], naming)
  }

  function FileTexts(raw: string): seq<string> {
    Texts(raw, StartsFrom(raw, 0, HEADER), |raw|)
  }

  function Split(raw: string, naming: Naming): seq<Chunk> {
    Chunks(FileTexts(raw), naming)
  }

  method SplitDiff(raw: string, naming: Naming) returns (chunks: seq<Chunk>)
    ensures chunks == Split(raw, naming)
  {
    hide StartsFrom, ChunkOf;
    var starts := FindStarts(raw, HEADER);
    chunks := [];
    assert starts[0..] == starts;
    for i := 0 to |starts|
      invariant Split(raw, naming) == chunks + Chunks(Texts(raw, starts[i..], |raw|), naming)
    {
      var end := if i + 1 < |starts| then starts[i + 1] else |raw|;
      assert starts[i..][1..] == starts[i + 1..];
      var text := Slice(raw, starts[i], end);
      assert Texts(raw, starts[i..], |raw|) == [text] + Texts(raw, starts[i + 1..], |raw|);
      assert ([text] + Texts(raw, starts[i + 1..], |raw|))[1..] == Texts(raw, starts[i + 1..], |raw|);
      chunks := chunks + ChunkOf(text, naming);
    }
  }

  /** The whole diff from its first header on, cut just before each header. */
  lemma {:induction false} FilesAreTheDiff(raw: string)
    ensures Rising(StartsFrom(raw, 0, HEADER), 0, |raw|)
    ensures var starts := StartsFrom(raw, 0, HEADER);
            && Concat(FileTexts(raw)) == (if starts == [] then "" else raw[starts[0]..])
            && |FileTexts(raw)| == |starts|
            && (forall i :: 0 <= i < |raw| ==> (StartsAt(raw, i, HEADER) <==> i in starts))
            && forall i :: 0 <= i < |starts| ==> HEADER <= FileTexts(raw)[i]
  {
    hide StartsAt, StartsFrom, Texts, HEADER;
    StartsRise(raw, 0, HEADER);
    StartsFound(raw, 0, HEADER);
    var starts := StartsFrom(raw, 0, HEADER);
    TextsJoin(raw, starts);
    forall i | 0 <= i < |starts| ensures HEADER <= FileTexts(raw)[i] {
      HeadOfText(raw, starts, i);
    }
  }

  lemma {:induction false} TextsJoin(s: string, starts: seq<nat>)
    requires Rising(starts, 0, |s|)
    ensures Concat(Texts(s, starts, |s|)) == if starts == [] then "" else s[starts[0]..]
    ensures |Texts(s, starts, |s|)| == |starts|
  {
    hide HEADER, Texts, Concat;
    if starts == [] {
      NoTexts(s, |s|);
      ConcatNone();
    } else {
      var start, rest := starts[0], starts[1..];
      var end := if rest != [] then rest[0] else |s|;
      assert starts == [start] + rest;
      TextsJoin(s, rest);
      TextsHead(s, start, rest, |s|);
      ConcatAppend([s[start..end]], Texts(s, rest, |s|));
      ConcatOne(s[start..end]);
      assert s[start..end] + s[end..] == s[start..];
    }
  }

  lemma ConcatNone()
    ensures Concat([]) == ""
  {
  }

  lemma {:induction false} TextAt(s: string, starts: seq<nat>, i: nat)
    requires Rising(starts, 0, |s|) && i < |starts|
    ensures |Texts(s, starts, |s|)| == |starts|
    ensures Texts(s, starts, |s|)[i] == s[starts[i]..if i + 1 < |starts| then starts[i + 1] else |s|]
  {
    if i > 0 {
      TextAt(s, starts[1..], i - 1);
    } else if |starts| > 1 {
      TextAt(s, starts[1..], 0);
    }
  }

  /** A file's text begins with its header, which the next header does not cut into. */
  lemma HeadOfText(s: string, starts: seq<nat>, i: nat)
    requires starts == StartsFrom(s, 0, HEADER) && Rising(starts, 0, |s|) && i < |starts|
    requires forall x :: x in starts ==> StartsAt(s, x, HEADER)
    ensures |Texts(s, starts, |s|)| == |starts| && HEADER <= Texts(s, starts, |s|)[i]
  {
    hide HEADER, StartsFrom, Texts;
    TextAt(s, starts, i);
    var end := if i + 1 < |starts| then starts[i + 1] else |s|;
    assert StartsAt(s, starts[i], HEADER);
    if i + 1 < |starts| {
      assert StartsAt(s, end, HEADER);
      HeadersApart(s, starts[i], end);
    }
    assert s[starts[i]..end][..|HEADER|] == s[starts[i]..starts[i] + |HEADER|];
  }

  lemma HeadersApart(s: string, a: nat, b: nat)
    requires StartsAt(s, a, HEADER) && StartsAt(s, b, HEADER) && a < b
    ensures a + |HEADER| <= b
  {
    hide HEADER;
    NoBreakInHeader();
    forall j | a <= j < a + |HEADER| ensures s[j] !in {'\n', '\r', '\U{2028}', '\U{2029}'} {
      assert s[j] == s[a..a + |HEADER|][j - a] && HEADER[j - a] in HEADER;
    }
  }

  predicate IsChunkOf(c: Chunk, text: string, naming: Naming) {
    && naming.pathOf(text) == Some(c.path) && c.path != "" && c.binary == naming.binary(text)
    && c.text != "" && c.text[|c.text| - 1] == '\n'
    && (c.text == text || (c.text == text + "\n" && (text == "" || text[|text| - 1] != '\n')))
  }

  /** A chunk is the whole text of a file that names its path, ended by a line break; every such file has one. */
  lemma {:induction false} SplitExactly(raw: string, naming: Naming, c: Chunk)
    ensures c in Split(raw, naming) <==>
              exists text :: text in FileTexts(raw) && IsChunkOf(c, text, naming)
  {
    ChunksExactly(FileTexts(raw), naming, c);
  }

  lemma {:induction false} ChunksExactly(texts: seq<string>, naming: Naming, c: Chunk)
    ensures c in Chunks(texts, naming) <==> exists text :: text in texts && IsChunkOf(c, text, naming)
  {
    hide IsChunkOf, ChunkOf;
    if texts != [] {
      ChunksExactly(texts[1..], naming, c);
      OneChunk(texts[0], naming, c);
      assert texts == [texts[0]] + texts[1..];
    }
  }

  lemma OneChunk(text: string, naming: Naming, c: Chunk)
    ensures c in ChunkOf(text, naming) <==> IsChunkOf(c, text, naming)
  {
    assert (text + "\n")[|text|] == '\n';
  }

  /** Where a cut diff's last header line begins, after its line break; none when there is none. */
  function LastHeader(raw: string): Option<nat> {
    LastHeaderBefore(raw, |raw|)
  }

  predicate BreakAndHeader(raw: string, i: nat) {
    i + 1 + |HEADER| <= |raw| && raw[i] == '\n' && raw[i + 1..i + 1 + |HEADER|] == HEADER
  }

  function LastHeaderBefore(raw: string, i: nat): Option<nat> {
    if i == 0 then None else if BreakAndHeader(raw, i - 1) then Some(i - 1) else LastHeaderBefore(raw, i - 1)
  }

  function WithoutPartialTail(raw: string, truncated: bool): string {
    if !truncated then raw
    else
      var last := LastHeader(raw);
      if last.Some? && last.value < |raw| then raw[..last.value + 1] else ""
  }

  lemma {:induction false} LastHeaderIs(raw: string, i: nat)
    ensures var r := LastHeaderBefore(raw, i); r.Some? ==> r.value < i && BreakAndHeader(raw, r.value)
  {
    if i > 0 {
      LastHeaderIs(raw, i - 1);
    }
  }

  /** Of a cut diff everything before its last header is kept, and nothing after: whole when it was not cut. */
  lemma {:induction false} TailCutExactly(raw: string)
    ensures WithoutPartialTail(raw, false) == raw
    ensures var kept := WithoutPartialTail(raw, true);
            && kept <= raw
            && (kept == "" || (kept[|kept| - 1] == '\n' && HEADER <= raw[|kept|..]))
            && forall i :: |kept| <= i < |raw| && raw[i] == '\n' ==> !(HEADER <= raw[i + 1..])
  {
    hide HEADER;
    LastHeaderIs(raw, |raw|);
    NoneAfterLast(raw, |raw|);
    var last := LastHeader(raw);
    if last.Some? {
      var l := last.value + 1;
      assert BreakAndHeader(raw, last.value);
      assert raw[l..][..|HEADER|] == raw[l..l + |HEADER|];
    }
    forall i | 0 <= i < |raw| && raw[i] == '\n' && HEADER <= raw[i + 1..] ensures BreakAndHeader(raw, i) {
      assert raw[i + 1..][..|HEADER|] == raw[i + 1..i + 1 + |HEADER|];
    }
  }

  lemma {:induction false} NoneAfterLast(raw: string, i: nat)
    ensures var r := LastHeaderBefore(raw, i);
            forall j :: (if r.Some? then r.value + 1 else 0) <= j < i ==> !BreakAndHeader(raw, j)
  {
    hide BreakAndHeader;
    if i > 0 {
      NoneAfterLast(raw, i - 1);
    }
  }

  lemma NoBreakInHeader()
    ensures |HEADER| == 11 && forall c :: c in HEADER ==> c !in {'\n', '\r', '\U{2028}', '\U{2029}'}
  {
  }

  /** A header line ends before the next line break. */
  lemma HeaderFits(d: string, l: nat, i: nat)
    requires 0 < l <= |d| && d[l - 1] == '\n' && i < l && StartsAt(d, i, HEADER)
    ensures i + |HEADER| <= l
  {
    hide HEADER;
    NoBreakInHeader();
    var line := d[i..i + |HEADER|];
    forall j | i <= j < i + |HEADER| ensures d[j] != '\n' {
      assert d[j] == line[j - i] && line[j - i] in HEADER;
    }
  }

  /** Before a header line, the text cut there has the same header lines. */
  lemma SameStarts(d: string, l: nat, i: nat)
    requires 0 < l <= |d| && d[l - 1] == '\n' && i < l
    ensures StartsAt(d[..l], i, HEADER) <==> StartsAt(d, i, HEADER)
  {
    hide HEADER;
    if StartsAt(d, i, HEADER) {
      HeaderFits(d, l, i);
    }
    if i + |HEADER| <= l {
      assert d[..l][i..i + |HEADER|] == d[i..i + |HEADER|];
    }
  }

  lemma {:induction false} StartsSplit(d: string, l: nat, i: nat)
    requires 0 < l <= |d| && d[l - 1] == '\n' && i <= l
    ensures StartsFrom(d, i, HEADER) == StartsFrom(d[..l], i, HEADER) + StartsFrom(d, l, HEADER)
    decreases l - i
  {
    hide StartsAt, HEADER;
    if i < l {
      SameStarts(d, l, i);
      StartsSplit(d, l, i + 1);
    } else {
      assert StartsFrom(d[..l], i, HEADER) == [];
    }
  }

  lemma TextsHead(s: string, first: nat, rest: seq<nat>, end: nat)
    ensures Texts(s, [first] + rest, end) == [Slice(s, first, if rest != [] then rest[0] else end)] + Texts(s, rest, end)
  {
    assert ([first] + rest)[1..] == rest;
  }

  lemma {:induction false} TextsSplit(d: string, a: seq<nat>, b: seq<nat>, l: nat)
    requires l <= |d| && b != [] && b[0] == l && Rising(a, 0, l)
    ensures Texts(d, a + b, |d|) == Texts(d[..l], a, l) + Texts(d, b, |d|)
  {
    hide Slice, Texts;
    if a == [] {
      assert a + b == b;
      NoTexts(d[..l], l);
      assert [] + Texts(d, b, |d|) == Texts(d, b, |d|);
    } else {
      var first, rest := a[0], a[1..];
      assert a == [first] + rest && a + b == [first] + (rest + b);
      assert Rising(rest, 0, l);
      TextsSplit(d, rest, b, l);
      TextsHead(d, first, rest + b, |d|);
      TextsHead(d[..l], first, rest, l);
      SameSlice(d, l, first, if rest != [] then rest[0] else l);
    }
  }

  lemma NoTexts(s: string, end: nat)
    ensures Texts(s, [], end) == []
  {
  }

  lemma SameSlice(d: string, l: nat, from: nat, to: nat)
    requires to <= l <= |d|
    ensures Slice(d[..l], from, to) == Slice(d, from, to)
  {
    if from <= to { assert d[..l][from..to] == d[from..to]; }
  }

  lemma ChunksHead(text: string, rest: seq<string>, naming: Naming)
    ensures Chunks([text] + rest, naming) == ChunkOf(text, naming) + Chunks(rest, naming)
  {
    hide ChunkOf;
    assert ([text] + rest)[1..] == rest;
  }

  lemma {:induction false} ChunksJoin(a: seq<string>, b: seq<string>, naming: Naming)
    ensures Chunks(a + b, naming) == Chunks(a, naming) + Chunks(b, naming)
  {
    hide Chunks, ChunkOf;
    if a == [] {
      assert a + b == b;
      NoChunks(naming);
      assert [] + Chunks(b, naming) == Chunks(b, naming);
    } else {
      var text, rest := a[0], a[1..];
      ChunksJoin(rest, b, naming);
      assert a == [text] + rest;
      Associative([text], rest, b);
      ChunksHead(text, rest + b, naming);
      ChunksHead(text, rest, naming);
      Associative(ChunkOf(text, naming), Chunks(rest, naming), Chunks(b, naming));
    }
  }

  lemma NoChunks(naming: Naming)
    ensures Chunks([], naming) == []
  {
  }

  /** A diff cut at one of its header lines splits into its first chunks. */
  lemma SplitAtHeader(d: string, l: nat, naming: Naming)
    requires 0 < l < |d| && d[l - 1] == '\n' && StartsAt(d, l, HEADER)
    ensures Split(d, naming) == Split(d[..l], naming) + Chunks(Texts(d, StartsFrom(d, l, HEADER), |d|), naming)
  {
    hide StartsAt, HEADER, ChunkOf, Texts;
    StartsRise(d[..l], 0, HEADER);
    StartsSplit(d, l, 0);
    var a, b := StartsFrom(d[..l], 0, HEADER), StartsFrom(d, l, HEADER);
    assert b[0] == l by { FirstStart(d, l); }
    TextsSplit(d, a, b, l);
    ChunksJoin(Texts(d[..l], a, l), Texts(d, b, |d|), naming);
  }

  lemma FirstStart(d: string, l: nat)
    requires l < |d| && StartsAt(d, l, HEADER)
    ensures StartsFrom(d, l, HEADER) != [] && StartsFrom(d, l, HEADER)[0] == l
  {
  }

  /**
   * A cut diff never passes off a partial file as whole: for every diff and every place it is cut, what
   * is left splits into a prefix of the diff's chunks.
   */
  lemma CutIsPrefix(d: string, k: nat, naming: Naming)
    requires k <= |d|
    ensures Split(WithoutPartialTail(d[..k], true), naming) <= Split(d, naming)
  {
    hide HEADER, Split, Chunks, Texts, StartsFrom;
    var cut := d[..k];
    LastHeaderIs(cut, |cut|);
    var last := LastHeader(cut);
    if last.Some? {
      var l := last.value + 1;
      assert BreakAndHeader(cut, last.value);
      HeaderInWhole(d, k, last.value);
      assert cut[..l] == d[..l];
      SplitAtHeader(d, l, naming);
    } else {
      NothingSplits(naming);
    }
  }

  lemma HeaderInWhole(d: string, k: nat, i: nat)
    requires k <= |d| && BreakAndHeader(d[..k], i)
    ensures i + 1 < |d| && d[i] == '\n' && StartsAt(d, i + 1, HEADER)
  {
    hide HEADER;
    NoBreakInHeader();
    assert d[..k][i + 1..i + 1 + |HEADER|] == d[i + 1..i + 1 + |HEADER|];
  }

  lemma NothingSplits(naming: Naming)
    ensures Split("", naming) == []
  {
  }

  // ----- cutting one chunk -----

  /** The last of `hunks` after the first that is within the budget. */
  function LastWithin(hunks: seq<nat>, budget: nat): Option<nat> {
    if |hunks| <= 1 then None
    else if hunks[|hunks| - 1] <= budget then Some(hunks[|hunks| - 1])
    else LastWithin(hunks[..|hunks| - 1], budget)
  }

  /** The last line break before `i`. */
  function LastBreak(s: string, i: nat): Option<nat> {
    if i == 0 then None else if i <= |s| && s[i - 1] == '\n' then Some(i - 1) else LastBreak(s, i - 1)
  }

  /** How much of a chunk longer than the budget is kept. */
  function CutLength(text: string, budget: nat): nat {
    var within := LastWithin(StartsFrom(text, 0, HUNK), budget);
    var lineEnd := LastBreak(text, budget);
    if within.Some? then within.value
    else if lineEnd.Some? && lineEnd.value > 0 then lineEnd.value + 1
    else budget
  }

  /** The cut keeps at most the budget, and ends before a hunk, or after a whole line, or at the budget. */
  lemma CutFits(text: string, budget: nat)
    requires budget < |text|
    ensures CutLength(text, budget) <= budget
    ensures var n := CutLength(text, budget); StartsAt(text, n, HUNK) || (0 < n && text[n - 1] == '\n') || n == budget
  {
    hide StartsAt, StartsFrom, LastWithin, LastBreak, AllOver;
    StartsFound(text, 0, HUNK);
    LastWithinIs(StartsFrom(text, 0, HUNK), budget);
    LastBreakIs(text, budget);
  }

  /** No later hunk would fit, unless it is the file's first. */
  lemma CutIsLast(text: string, budget: nat, h: nat, g: nat)
    requires budget < |text| && CutLength(text, budget) < h <= budget && StartsAt(text, h, HUNK) && g < h
    ensures !StartsAt(text, g, HUNK)
  {
    hide StartsAt, StartsFrom, LastWithin, LastBreak;
    var hunks := StartsFrom(text, 0, HUNK);
    StartsRise(text, 0, HUNK);
    StartsFound(text, 0, HUNK);
    LastWithinIs(hunks, budget);
    var i :| 0 <= i < |hunks| && hunks[i] == h;
    assert i == 0;
    assert g !in hunks;
  }

  /** Where no whole hunk fits, as many whole lines as fit are kept; a first line alone that is empty does not count. */
  lemma CutIsLastLine(text: string, budget: nat)
    requires budget < |text| && !(exists h, g :: 0 <= g < h <= budget && StartsAt(text, g, HUNK) && StartsAt(text, h, HUNK))
    ensures var n := CutLength(text, budget);
            || (1 < n <= budget && text[n - 1] == '\n' && forall j :: n <= j < budget ==> text[j] != '\n')
            || (n == budget && forall j :: 1 <= j < budget ==> text[j] != '\n')
  {
    hide StartsAt, StartsFrom, LastWithin, LastBreak;
    WithinHasTwo(text, budget);
    LastBreakIs(text, budget);
    NoBreakAfter(text, budget);
  }

  lemma WithinHasTwo(text: string, budget: nat)
    ensures LastWithin(StartsFrom(text, 0, HUNK), budget).Some? ==>
              exists h, g :: 0 <= g < h <= budget && StartsAt(text, g, HUNK) && StartsAt(text, h, HUNK)
  {
    hide StartsAt, StartsFrom, LastWithin;
    var hunks := StartsFrom(text, 0, HUNK);
    StartsRise(text, 0, HUNK);
    StartsFound(text, 0, HUNK);
    LastWithinIs(hunks, budget);
    if LastWithin(hunks, budget).Some? {
      var i :| 0 < i < |hunks| && hunks[i] <= budget;
      assert hunks[0] in hunks && hunks[i] in hunks;
    }
  }

  lemma {:induction false} NoBreakAfter(s: string, i: nat)
    requires i <= |s|
    ensures var r := LastBreak(s, i);
            forall j :: (if r.Some? then r.value + 1 else 0) <= j < i ==> s[j] != '\n'
  {
    if i > 0 {
      NoBreakAfter(s, i - 1);
    }
  }

  lemma {:induction false} StartsFound(s: string, i: nat, mark: string)
    ensures forall x :: i <= x < |s| && StartsAt(s, x, mark) ==> x in StartsFrom(s, i, mark)
    ensures forall x :: x in StartsFrom(s, i, mark) ==> StartsAt(s, x, mark)
    decreases |s| - i
  {
    hide StartsAt;
    if i < |s| {
      StartsFound(s, i + 1, mark);
    }
  }

  predicate AllOver(hunks: seq<nat>, from: nat, budget: nat) {
    forall j :: from <= j < |hunks| ==> hunks[j] > budget
  }

  lemma {:induction false} LastWithinIs(hunks: seq<nat>, budget: nat)
    ensures var r := LastWithin(hunks, budget);
            && (r.Some? ==> exists i :: 0 < i < |hunks| && hunks[i] == r.value && r.value <= budget && AllOver(hunks, i + 1, budget))
            && (r.None? ==> AllOver(hunks, 1, budget))
  {
    var n := |hunks| - 1;
    if n > 0 {
      if hunks[n] <= budget {
        assert AllOver(hunks, n + 1, budget);
      } else {
        LastWithinIs(hunks[..n], budget);
        assert forall i: nat :: AllOver(hunks[..n], i, budget) ==> AllOver(hunks, i, budget);
        if LastWithin(hunks, budget).Some? {
          var i :| 0 < i < n && hunks[..n][i] == LastWithin(hunks, budget).value && AllOver(hunks[..n], i + 1, budget);
          assert hunks[i] == hunks[..n][i];
        }
      }
    }
  }

  lemma {:induction false} LastBreakIs(s: string, i: nat)
    requires i <= |s|
    ensures var r := LastBreak(s, i); r.Some? ==> r.value < i && s[r.value] == '\n'
  {
    if i > 0 {
      LastBreakIs(s, i - 1);
    }
  }

  method CutAtHunk(text: string, budget: nat) returns (part: string)
    requires budget < |text|
    ensures CutLength(text, budget) <= |text| && part == text[..CutLength(text, budget)]
  {
    hide StartsFrom, LastBreak, StartsAt;
    CutFits(text, budget);
    var hunks := FindStarts(text, HUNK);
    var within := LastWithin(hunks, budget);
    if within.Some? {
      return text[..within.value];
    }
    var nl := LastBreak(text, budget);
    return text[..if nl.Some? && nl.value > 0 then nl.value + 1 else budget];
  }

  // ----- order -----

  datatype Class = Source | Test | Config | Docs | Generated

  /** What was changed, and how a path is classed. */
  datatype Changes = Changes(files: seq<PackFile>, classOf: (string, bool) -> Class)

  /** The last file listed under the path. */
  function Stat(files: seq<PackFile>, path: string): Option<PackFile> {
    if files == [] then None
    else if files[|files| - 1].path == path then Some(files[|files| - 1])
    else Stat(files[..|files| - 1], path)
  }

  function ClassOf(c: Chunk, changes: Changes): Class {
    var stat := Stat(changes.files, c.path);
    changes.classOf(c.path, c.binary || (stat.Some? && stat.value.additions.None?))
  }

  function OfClass(chunks: seq<Chunk>, k: Class, changes: Changes): seq<Chunk> {
    if chunks == [] then []
    else (if ClassOf(chunks[0], changes) == k then [chunks[0]] else []) + OfClass(chunks[1..], k, changes)
  }

  /** A stable sort by class. */
  function InOrder(chunks: seq<Chunk>, changes: Changes): seq<Chunk> {
    OfClass(chunks, Source, changes) + OfClass(chunks, Test, changes) + OfClass(chunks, Config, changes)
    + OfClass(chunks, Docs, changes) + OfClass(chunks, Generated, changes)
  }

  lemma OfClassHead(c: Chunk, rest: seq<Chunk>, k: Class, changes: Changes)
    ensures OfClass([c] + rest, k, changes) == (if ClassOf(c, changes) == k then [c] else []) + OfClass(rest, k, changes)
  {
    hide ClassOf;
    assert ([c] + rest)[1..] == rest;
  }

  lemma {:induction false} OfClassJoin(a: seq<Chunk>, b: seq<Chunk>, k: Class, changes: Changes)
    ensures OfClass(a + b, k, changes) == OfClass(a, k, changes) + OfClass(b, k, changes)
  {
    hide ClassOf, OfClass;
    if a == [] {
      assert a + b == b;
      NoneOfClass(k, changes);
      assert [] + OfClass(b, k, changes) == OfClass(b, k, changes);
    } else {
      var c, rest := a[0], a[1..];
      OfClassJoin(rest, b, k, changes);
      assert a == [c] + rest;
      Associative([c], rest, b);
      OfClassHead(c, rest + b, k, changes);
      OfClassHead(c, rest, k, changes);
      Associative(if ClassOf(c, changes) == k then [c] else [], OfClass(rest, k, changes), OfClass(b, k, changes));
    }
  }

  lemma NoneOfClass(k: Class, changes: Changes)
    ensures OfClass([], k, changes) == []
  {
  }

  lemma {:induction false} OfClassOfClass(chunks: seq<Chunk>, k: Class, other: Class, changes: Changes)
    ensures OfClass(OfClass(chunks, k, changes), other, changes) == if other == k then OfClass(chunks, k, changes) else []
    ensures forall c :: c in OfClass(chunks, k, changes) ==> ClassOf(c, changes) == k && c in chunks
  {
    hide ClassOf;
    if chunks != [] {
      OfClassOfClass(chunks[1..], k, other, changes);
      var own := if ClassOf(chunks[0], changes) == k then [chunks[0]] else [];
      OfClassJoin(own, OfClass(chunks[1..], k, changes), other, changes);
    }
  }

  /** Each class keeps its chunks, in the order they were in. */
  lemma OrderIsStable(chunks: seq<Chunk>, k: Class, changes: Changes)
    ensures OfClass(InOrder(chunks, changes), k, changes) == OfClass(chunks, k, changes)
  {
    hide OfClass;
    var a, b, c, d, e := OfClass(chunks, Source, changes), OfClass(chunks, Test, changes), OfClass(chunks, Config, changes),
      OfClass(chunks, Docs, changes), OfClass(chunks, Generated, changes);
    OfClassJoin(a + b + c + d, e, k, changes);
    OfClassJoin(a + b + c, d, k, changes);
    OfClassJoin(a + b, c, k, changes);
    OfClassJoin(a, b, k, changes);
    OfClassOfClass(chunks, Source, k, changes);
    OfClassOfClass(chunks, Test, k, changes);
    OfClassOfClass(chunks, Config, k, changes);
    OfClassOfClass(chunks, Docs, k, changes);
    OfClassOfClass(chunks, Generated, k, changes);
  }

  /** The class of a chunk: by its path, as binary when its text is or Git counts no lines in the file last listed. */
  lemma ClassIs(c: Chunk, changes: Changes)
    ensures (forall f :: f in changes.files ==> f.path != c.path) ==> ClassOf(c, changes) == changes.classOf(c.path, c.binary)
    ensures forall i :: 0 <= i < |changes.files| && changes.files[i].path == c.path
                        && (forall j :: i < j < |changes.files| ==> changes.files[j].path != c.path)
              ==> ClassOf(c, changes) == changes.classOf(c.path, c.binary || changes.files[i].additions == None)
  {
    hide Stat;
    StatIsLast(changes.files, c.path);
  }

  lemma {:induction false} StatIsLast(files: seq<PackFile>, path: string)
    ensures Stat(files, path).None? <==> forall f :: f in files ==> f.path != path
    ensures forall i :: 0 <= i < |files| && files[i].path == path && (forall j :: i < j < |files| ==> files[j].path != path) ==>
              Stat(files, path) == Some(files[i])
  {
    if files != [] {
      var n := |files| - 1;
      assert files == files[..n] + [files[n]];
      StatIsLast(files[..n], path);
      forall i | 0 <= i < |files| && files[i].path == path && (forall j :: i < j < |files| ==> files[j].path != path)
        ensures Stat(files, path) == Some(files[i])
      {
        if i < n {
          assert files[n].path != path;
          assert files[..n][i] == files[i];
          assert forall j :: i < j < n ==> files[..n][j] == files[j];
        }
      }
    }
  }

  /** Source comes first, then tests, configuration, documentation, and what is generated. */
  lemma OrderIsSorted(chunks: seq<Chunk>, i: nat, j: nat, changes: Changes)
    requires i < j < |InOrder(chunks, changes)|
    ensures var first, second := ClassOf(InOrder(chunks, changes)[i], changes), ClassOf(InOrder(chunks, changes)[j], changes);
            match second
            case Source => first == Source
            case Test => first == Source || first == Test
            case Config => first == Source || first == Test || first == Config
            case Docs => first != Generated
            case Generated => true
  {
    hide OfClass, ClassOf;
    forall k: Class ensures forall c :: c in OfClass(chunks, k, changes) ==> ClassOf(c, changes) == k {
      OfClassOfClass(chunks, k, k, changes);
    }
  }

  lemma {:induction false} InClass(chunks: seq<Chunk>, c: Chunk, changes: Changes)
    requires c in chunks
    ensures c in OfClass(chunks, ClassOf(c, changes), changes)
  {
    if c != chunks[0] {
      InClass(chunks[1..], c, changes);
    }
  }

  lemma SameChunks(chunks: seq<Chunk>, c: Chunk, changes: Changes)
    ensures c in chunks <==> c in InOrder(chunks, changes)
  {
    hide OfClass, ClassOf;
    if c in chunks {
      InClass(chunks, c, changes);
      var k := ClassOf(c, changes);
      assert k == Source || k == Test || k == Config || k == Docs || k == Generated;
    }
    forall k: Class ensures c in OfClass(chunks, k, changes) ==> c in chunks {
      OfClassOfClass(chunks, k, k, changes);
    }
  }

  // ----- packing -----

  datatype Fate = Whole | Part(kept: nat) | Left(reason: Reason)

  datatype Packed = Packed(text: string, cut: bool)

  /** A chunk is shown whole when it fits; the first one is shown in part when it does not. */
  function FateOf(c: Chunk, first: bool, used: nat, budget: nat): Fate {
    if used + |c.text| <= budget then Whole
    else if first && !c.binary then Part(CutLength(c.text, budget))
    else Left(if c.binary then Binary else TooLarge)
  }

  function Cost(c: Chunk, f: Fate): nat {
    match f
    case Whole => |c.text|
    case Part(kept) => kept
    case Left(_) => 0
  }

  function Fates(chunks: seq<Chunk>, first: bool, used: nat, budget: nat): (fates: seq<Fate>)
    ensures |fates| == |chunks|
  {
    if chunks == [] then []
    else
      var f := FateOf(chunks[0], first, used, budget);
      [f] + Fates(chunks[1..], false, used + Cost(chunks[0], f), budget)
  }

  function PartOf(c: Chunk, f: Fate): seq<Packed> {
    match f
    case Whole => [Packed(c.text, false)]
    case Part(kept) => [Packed(Slice(c.text, 0, kept), true)]
    case Left(_) => []
  }

  function ShownOf(c: Chunk, f: Fate): seq<string> {
    if f.Whole? then [c.path] else []
  }

  function Named(path: string, reason: Reason, files: seq<PackFile>): OmittedFile {
    var stat := Stat(files, path);
    OmittedFile(path, if stat.Some? then stat.value.additions else None, if stat.Some? then stat.value.deletions else None, reason)
  }

  function OmittedOf(c: Chunk, f: Fate, files: seq<PackFile>): seq<OmittedFile> {
    match f
    case Whole => []
    case Part(_) => [Named(c.path, Partly, files)]
    case Left(reason) => [Named(c.path, reason, files)]
  }

  function Parts(chunks: seq<Chunk>, fates: seq<Fate>): seq<Packed>
    requires |chunks| == |fates|
  {
    if chunks == [] then [] else PartOf(chunks[0], fates[0]) + Parts(chunks[1..], fates[1..])
  }

  function ShownPaths(chunks: seq<Chunk>, fates: seq<Fate>): seq<string>
    requires |chunks| == |fates|
  {
    if chunks == [] then [] else ShownOf(chunks[0], fates[0]) + ShownPaths(chunks[1..], fates[1..])
  }

  function OmittedChunks(chunks: seq<Chunk>, fates: seq<Fate>, files: seq<PackFile>): seq<OmittedFile>
    requires |chunks| == |fates|
  {
    if chunks == [] then [] else OmittedOf(chunks[0], fates[0], files) + OmittedChunks(chunks[1..], fates[1..], files)
  }

  predicate HasPath(chunks: seq<Chunk>, path: string) {
    exists c :: c in chunks && c.path == path
  }

  function NotSeen(files: seq<PackFile>, chunks: seq<Chunk>): seq<OmittedFile> {
    if files == [] then []
    else
      var f := files[0];
      (if HasPath(chunks, f.path) then [] else [OmittedFile(f.path, f.additions, f.deletions, NotCollected)]) + NotSeen(files[1..], chunks)
  }

  function Kept(parts: seq<Packed>): nat {
    if parts == [] then 0 else |parts[0].text| + Kept(parts[1..])
  }

  /** The diff text kept is within the budget. */
  lemma {:induction false} PartsFit(chunks: seq<Chunk>, first: bool, used: nat, budget: nat)
    requires used <= budget && (first ==> used == 0)
    ensures used + Kept(Parts(chunks, Fates(chunks, first, used, budget))) <= budget
    decreases |chunks|
  {
    hide CutLength;
    if chunks != [] {
      var c := chunks[0];
      var f := FateOf(c, first, used, budget);
      if f.Part? { CutFits(c.text, budget); }
      PartsFit(chunks[1..], false, used + Cost(c, f), budget);
      KeptHead(chunks, Fates(chunks, first, used, budget));
    }
  }

  lemma {:induction false} KeptHead(chunks: seq<Chunk>, fates: seq<Fate>)
    requires |chunks| == |fates| > 0
    requires fates[0].Part? ==> fates[0].kept <= |chunks[0].text|
    ensures Kept(Parts(chunks, fates)) == Cost(chunks[0], fates[0]) + Kept(Parts(chunks[1..], fates[1..]))
  {
    var rest := Parts(chunks[1..], fates[1..]);
    var parts := Parts(chunks, fates);
    match fates[0]
    case Whole => assert parts[1..] == rest;
    case Part(_) => assert parts[1..] == rest;
    case Left(_) => assert parts == rest;
  }

  /**
   * What becomes of each chunk, by what was kept before it: it is shown whole exactly when it still fits, cut
   * only when it is the first, and else left out, as binary when it is.
   */
  lemma {:induction false} FateExactly(chunks: seq<Chunk>, first: bool, used: nat, budget: nat, i: nat)
    requires i < |chunks| && (first ==> used == 0)
    ensures var fates := Fates(chunks, first, used, budget);
            var over := used + Kept(Parts(chunks[..i], fates[..i])) + |chunks[i].text| > budget;
            match fates[i]
            case Whole => !over
            case Part(n) => over && first && i == 0 && !chunks[0].binary && n <= budget < |chunks[0].text|
            case Left(reason) => over && (chunks[i].binary || !first || i > 0) && reason == if chunks[i].binary then Binary else TooLarge
    decreases |chunks|
  {
    hide CutLength, Kept, Parts, FateOf, Cost;
    var c, fates := chunks[0], Fates(chunks, first, used, budget);
    FirstFate(c, first, used, budget);
    if i == 0 {
      assert chunks[..0] == [] && fates[..0] == [];
      NothingKept();
    } else {
      FateExactly(chunks[1..], false, used + Cost(c, fates[0]), budget, i - 1);
      KeptHead(chunks[..i], fates[..i]);
      assert chunks[..i][1..] == chunks[1..][..i - 1] && fates[..i][1..] == fates[1..][..i - 1];
    }
  }

  lemma NothingKept()
    ensures Kept(Parts([], [])) == 0
  {
  }

  lemma FirstFate(c: Chunk, first: bool, used: nat, budget: nat)
    requires first ==> used == 0
    ensures match FateOf(c, first, used, budget)
            case Whole => used + |c.text| <= budget
            case Part(n) => used + |c.text| > budget && first && !c.binary && n <= budget < |c.text|
            case Left(reason) => used + |c.text| > budget && (c.binary || !first) && reason == if c.binary then Binary else TooLarge
  {
    hide CutLength;
    if FateOf(c, first, used, budget).Part? { CutFits(c.text, budget); }
  }

  function TextLength(chunks: seq<Chunk>): nat {
    if chunks == [] then 0 else |chunks[0].text| + TextLength(chunks[1..])
  }

  /** All of the diff is shown when it fits. */
  lemma {:induction false} AllShown(chunks: seq<Chunk>, first: bool, used: nat, budget: nat, files: seq<PackFile>)
    requires used + TextLength(chunks) <= budget
    ensures var fates := Fates(chunks, first, used, budget);
            && |Parts(chunks, fates)| == |ShownPaths(chunks, fates)| == |chunks| && OmittedChunks(chunks, fates, files) == []
            && forall i :: 0 <= i < |chunks| ==> Parts(chunks, fates)[i] == Packed(chunks[i].text, false) && ShownPaths(chunks, fates)[i] == chunks[i].path
    decreases |chunks|
  {
    hide CutLength, Named;
    if chunks != [] {
      AllShown(chunks[1..], false, used + |chunks[0].text|, budget, files);
    }
  }

  /** What is not shown no longer fits beside what is kept. */
  lemma {:induction false} NoRoomLeft(chunks: seq<Chunk>, first: bool, used: nat, budget: nat, i: nat)
    requires i < |chunks| && used <= budget && (first ==> used == 0)
    ensures var fates := Fates(chunks, first, used, budget);
            !fates[i].Whole? ==> used + Kept(Parts(chunks, fates)) + |chunks[i].text| > budget
    decreases |chunks|
  {
    hide CutLength;
    var c, fates := chunks[0], Fates(chunks, first, used, budget);
    if fates[0].Part? { CutFits(c.text, budget); }
    KeptHead(chunks, fates);
    if i > 0 {
      NoRoomLeft(chunks[1..], false, used + Cost(c, fates[0]), budget, i - 1);
    }
  }

  lemma {:induction false} NoneCutLater(chunks: seq<Chunk>, used: nat, budget: nat)
    ensures forall p :: p in Parts(chunks, Fates(chunks, false, used, budget)) ==> !p.cut
    decreases |chunks|
  {
    hide CutLength;
    if chunks != [] {
      NoneCutLater(chunks[1..], used + Cost(chunks[0], FateOf(chunks[0], false, used, budget)), budget);
    }
  }

  /** Only the first chunk is cut, and its part is the start of it. */
  lemma OnlyFirstCut(chunks: seq<Chunk>, budget: nat)
    ensures var parts := Parts(chunks, Fates(chunks, true, 0, budget));
            && (forall j :: 0 <= j < |parts| && parts[j].cut ==> j == 0)
            && (chunks != [] && |chunks[0].text| > budget && !chunks[0].binary ==>
                  parts != [] && parts[0].cut && parts[0].text < chunks[0].text)
  {
    hide CutLength;
    if chunks != [] {
      var c := chunks[0];
      var f := FateOf(c, true, 0, budget);
      FirstFate(c, true, 0, budget);
      NoneCutLater(chunks[1..], Cost(c, f), budget);
      var rest := Parts(chunks[1..], Fates(chunks[1..], false, Cost(c, f), budget));
      var parts := Parts(chunks, Fates(chunks, true, 0, budget));
      assert parts == PartOf(c, f) + rest;
      forall j | 0 < j < |parts| ensures !parts[j].cut {
        assert parts[j] in rest;
      }
    }
  }

  /** Each chunk is shown or named once. */
  lemma {:induction false} EachOnce(chunks: seq<Chunk>, fates: seq<Fate>, files: seq<PackFile>)
    requires |chunks| == |fates|
    ensures |ShownPaths(chunks, fates)| + |OmittedChunks(chunks, fates, files)| == |chunks|
  {
    hide Named;
    if chunks != [] {
      EachOnce(chunks[1..], fates[1..], files);
    }
  }

  /** Every chunk is shown whole or named with a reason. */
  lemma {:induction false} ChunkAccounted(chunks: seq<Chunk>, fates: seq<Fate>, files: seq<PackFile>, i: nat)
    requires |chunks| == |fates| && i < |chunks|
    ensures if fates[i].Whole? then chunks[i].path in ShownPaths(chunks, fates) && Packed(chunks[i].text, false) in Parts(chunks, fates)
            else Named(chunks[i].path, if fates[i].Part? then Partly else fates[i].reason, files) in OmittedChunks(chunks, fates, files)
  {
    hide Named;
    if i > 0 {
      ChunkAccounted(chunks[1..], fates[1..], files, i - 1);
    }
  }

  lemma {:induction false} NotSeenHolds(files: seq<PackFile>, chunks: seq<Chunk>, f: PackFile)
    requires f in files && !HasPath(chunks, f.path)
    ensures OmittedFile(f.path, f.additions, f.deletions, NotCollected) in NotSeen(files, chunks)
  {
    hide HasPath;
    if f != files[0] {
      NotSeenHolds(files[1..], chunks, f);
    }
  }

  /** Only files with no chunk are named as not collected, each with its counts. */
  lemma {:induction false} NotSeenExactly(files: seq<PackFile>, chunks: seq<Chunk>, o: OmittedFile)
    ensures o in NotSeen(files, chunks) <==>
              exists f :: f in files && (forall c :: c in chunks ==> c.path != f.path) && o == OmittedFile(f.path, f.additions, f.deletions, NotCollected)
  {
    hide HasPath;
    if files != [] {
      NotSeenExactly(files[1..], chunks, o);
      assert files == [files[0]] + files[1..];
      HasNoPath(chunks, files[0].path);
    }
  }

  lemma HasNoPath(chunks: seq<Chunk>, path: string)
    ensures HasPath(chunks, path) <==> !forall c :: c in chunks ==> c.path != path
  {
  }

  /** A chunk named has the counts of the file last listed under its path, if any. */
  lemma NamedCounts(path: string, reason: Reason, files: seq<PackFile>)
    ensures Named(path, reason, files).path == path && Named(path, reason, files).reason == reason
    ensures (forall f :: f in files ==> f.path != path) ==> Named(path, reason, files) == OmittedFile(path, None, None, reason)
    ensures forall i :: 0 <= i < |files| && files[i].path == path && (forall j :: i < j < |files| ==> files[j].path != path)
              ==> Named(path, reason, files) == OmittedFile(path, files[i].additions, files[i].deletions, reason)
  {
    hide Stat;
    StatIsLast(files, path);
  }

  predicate Names(omitted: seq<OmittedFile>, path: string) {
    exists o :: o in omitted && o.path == path
  }

  lemma NamedByOne(omitted: seq<OmittedFile>, o: OmittedFile)
    requires o in omitted
    ensures Names(omitted, o.path)
  {
  }

  /** Nothing is hidden silently: a changed file is shown whole or named. */
  lemma FileAccounted(chunks: seq<Chunk>, fates: seq<Fate>, files: seq<PackFile>, f: PackFile)
    requires |chunks| == |fates| && f in files
    ensures f.path in ShownPaths(chunks, fates) || Names(OmittedChunks(chunks, fates, files) + NotSeen(files, chunks), f.path)
  {
    hide ShownPaths, OmittedChunks, NotSeen, Names, Parts;
    var omitted := OmittedChunks(chunks, fates, files) + NotSeen(files, chunks);
    if HasPath(chunks, f.path) {
      var i :| 0 <= i < |chunks| && chunks[i].path == f.path;
      ChunkAccounted(chunks, fates, files, i);
      if !fates[i].Whole? {
        NamedByOne(omitted, Named(chunks[i].path, if fates[i].Part? then Partly else fates[i].reason, files));
      }
    } else {
      NotSeenHolds(files, chunks, f);
      NamedByOne(omitted, OmittedFile(f.path, f.additions, f.deletions, NotCollected));
    }
  }

  /** The chunks in the order they are packed. */
  function PackOrder(raw: string, truncated: bool, naming: Naming, changes: Changes): seq<Chunk> {
    InOrder(Split(WithoutPartialTail(raw, truncated), naming), changes)
  }

  /** What is packed, shown and omitted from chunk `i` on. */
  lemma FromHere(chunks: seq<Chunk>, fates: seq<Fate>, files: seq<PackFile>, i: nat)
    requires |chunks| == |fates| && i < |chunks|
    ensures Parts(chunks[i..], fates[i..]) == PartOf(chunks[i], fates[i]) + Parts(chunks[i + 1..], fates[i + 1..])
    ensures ShownPaths(chunks[i..], fates[i..]) == ShownOf(chunks[i], fates[i]) + ShownPaths(chunks[i + 1..], fates[i + 1..])
    ensures OmittedChunks(chunks[i..], fates[i..], files) == OmittedOf(chunks[i], fates[i], files) + OmittedChunks(chunks[i + 1..], fates[i + 1..], files)
  {
    hide PartOf, ShownOf, OmittedOf;
    assert chunks[i..][1..] == chunks[i + 1..] && fates[i..][1..] == fates[i + 1..];
  }

  /** The fate of chunk `i`, and of the ones after it. */
  lemma FatesHere(chunks: seq<Chunk>, fates: seq<Fate>, i: nat, used: nat, budget: nat)
    requires |chunks| == |fates| && i < |chunks| && fates[i..] == Fates(chunks[i..], i == 0, used, budget)
    ensures fates[i] == FateOf(chunks[i], i == 0, used, budget)
    ensures fates[i + 1..] == Fates(chunks[i + 1..], false, used + Cost(chunks[i], fates[i]), budget)
  {
    hide FateOf;
    assert chunks[i..][1..] == chunks[i + 1..] && fates[i..][1..] == fates[i + 1..];
  }

  /** One chunk packed: what is shown of it, and what is named. */
  method PackChunk(c: Chunk, first: bool, used: nat, budget: nat, files: seq<PackFile>)
      returns (part: seq<Packed>, shown: seq<string>, omitted: seq<OmittedFile>, used': nat)
    requires first ==> used == 0
    ensures var f := FateOf(c, first, used, budget);
            part == PartOf(c, f) && shown == ShownOf(c, f) && omitted == OmittedOf(c, f, files) && used' == used + Cost(c, f)
  {
    hide CutLength, Named;
    if used + |c.text| <= budget {
      return [Packed(c.text, false)], [c.path], [], used + |c.text|;
    }
    if first && !c.binary {
      CutFits(c.text, budget);
      var cut := CutAtHunk(c.text, budget);
      return [Packed(cut, true)], [], [Named(c.path, Partly, files)], used + |cut|;
    }
    return [], [], [Named(c.path, if c.binary then Binary else TooLarge, files)], used;
  }

  method PackChunks(chunks: seq<Chunk>, budget: nat, files: seq<PackFile>)
      returns (parts: seq<Packed>, shown: seq<string>, omitted: seq<OmittedFile>)
    ensures var fates := Fates(chunks, true, 0, budget);
            parts == Parts(chunks, fates) && shown == ShownPaths(chunks, fates) && omitted == OmittedChunks(chunks, fates, files)
  {
    hide FateOf, PartOf, ShownOf, OmittedOf, Parts, ShownPaths, OmittedChunks, Fates;
    ghost var fates := Fates(chunks, true, 0, budget);
    parts, shown, omitted := [], [], [];
    var used: nat := 0;
    assert chunks[0..] == chunks && fates[0..] == fates;
    for i := 0 to |chunks|
      invariant fates[i..] == Fates(chunks[i..], i == 0, used, budget) && (i == 0 ==> used == 0)
      invariant Parts(chunks, fates) == parts + Parts(chunks[i..], fates[i..])
      invariant ShownPaths(chunks, fates) == shown + ShownPaths(chunks[i..], fates[i..])
      invariant OmittedChunks(chunks, fates, files) == omitted + OmittedChunks(chunks[i..], fates[i..], files)
    {
      FatesHere(chunks, fates, i, used, budget);
      FromHere(chunks, fates, files, i);
      var part, path, left;
      part, path, left, used := PackChunk(chunks[i], i == 0, used, budget, files);
      Associative(parts, part, Parts(chunks[i + 1..], fates[i + 1..]));
      Associative(shown, path, ShownPaths(chunks[i + 1..], fates[i + 1..]));
      Associative(omitted, left, OmittedChunks(chunks[i + 1..], fates[i + 1..], files));
      parts, shown, omitted := parts + part, shown + path, omitted + left;
    }
    NothingLeft(chunks, fates, files);
  }

  lemma NothingLeft(chunks: seq<Chunk>, fates: seq<Fate>, files: seq<PackFile>)
    requires |chunks| == |fates|
    ensures Parts(chunks[|chunks|..], fates[|chunks|..]) == []
    ensures ShownPaths(chunks[|chunks|..], fates[|chunks|..]) == []
    ensures OmittedChunks(chunks[|chunks|..], fates[|chunks|..], files) == []
  {
  }

  lemma NotSeenHead(files: seq<PackFile>, chunks: seq<Chunk>, named: seq<OmittedFile>)
    requires files != []
    ensures var f := files[0];
            var one := if HasPath(chunks, f.path) then [] else [OmittedFile(f.path, f.additions, f.deletions, NotCollected)];
            named + NotSeen(files, chunks) == named + one + NotSeen(files[1..], chunks)
  {
    hide HasPath;
    var f := files[0];
    Associative(named, if HasPath(chunks, f.path) then [] else [OmittedFile(f.path, f.additions, f.deletions, NotCollected)],
      NotSeen(files[1..], chunks));
  }

  method NameUnseen(files: seq<PackFile>, chunks: seq<Chunk>) returns (omitted: seq<OmittedFile>)
    ensures omitted == NotSeen(files, chunks)
  {
    hide HasPath, NotSeen;
    omitted := [];
    assert files[0..] == files;
    for i := 0 to |files|
      invariant NotSeen(files, chunks) == omitted + NotSeen(files[i..], chunks)
    {
      var f := files[i];
      NotSeenHead(files[i..], chunks, omitted);
      assert files[i..][0] == f && files[i..][1..] == files[i + 1..];
      if !HasPath(chunks, f.path) {
        omitted := omitted + [OmittedFile(f.path, f.additions, f.deletions, NotCollected)];
      } else {
        assert omitted + [] == omitted;
      }
    }
    NoFiles(chunks);
  }

  lemma NoFiles(chunks: seq<Chunk>)
    ensures NotSeen([], chunks) == []
  {
  }

  lemma PackedAll(chunks: seq<Chunk>, budget: nat, files: seq<PackFile>)
    ensures var fates := Fates(chunks, true, 0, budget);
            var parts, shown := Parts(chunks, fates), ShownPaths(chunks, fates);
            && (TextLength(chunks) <= budget ==>
                  && |parts| == |shown| == |chunks| && OmittedChunks(chunks, fates, files) == []
                  && forall i :: 0 <= i < |chunks| ==> parts[i] == Packed(chunks[i].text, false) && shown[i] == chunks[i].path)
            && (forall c :: c in chunks && c.path !in shown ==> Kept(parts) + |c.text| > budget)
            && (forall j :: 0 <= j < |parts| && parts[j].cut ==> j == 0)
            && (chunks != [] && |chunks[0].text| > budget && !chunks[0].binary ==>
                  parts != [] && parts[0].cut && parts[0].text < chunks[0].text)
            && |shown| + |OmittedChunks(chunks, fates, files)| == |chunks|
  {
    hide Fates, Parts, ShownPaths, OmittedChunks, Kept, TextLength;
    var fates := Fates(chunks, true, 0, budget);
    if TextLength(chunks) <= budget { AllShown(chunks, true, 0, budget, files); }
    forall c | c in chunks && c.path !in ShownPaths(chunks, fates) ensures Kept(Parts(chunks, fates)) + |c.text| > budget {
      var i :| 0 <= i < |chunks| && chunks[i] == c;
      ChunkAccounted(chunks, fates, files, i);
      NoRoomLeft(chunks, true, 0, budget, i);
    }
    OnlyFirstCut(chunks, budget);
    EachOnce(chunks, fates, files);
  }

  /** Packing within the budget: every chunk shown whole or named, every changed file accounted for. */
  method PackDiff(raw: string, truncated: bool, naming: Naming, changes: Changes, budget: nat)
      returns (parts: seq<Packed>, shown: seq<string>, omitted: seq<OmittedFile>)
    ensures var chunks := PackOrder(raw, truncated, naming, changes);
            var fates := Fates(chunks, true, 0, budget);
            && parts == Parts(chunks, fates) && shown == ShownPaths(chunks, fates)
            && omitted == OmittedChunks(chunks, fates, changes.files) + NotSeen(changes.files, chunks)
    ensures Kept(parts) <= budget
    ensures var chunks := PackOrder(raw, truncated, naming, changes);
            // What fits is shown, all of it when all of it fits; only the first chunk is ever cut, and then it is shown in part.
            && (TextLength(chunks) <= budget ==>
                  && |parts| == |shown| == |chunks| && omitted == NotSeen(changes.files, chunks)
                  && forall i :: 0 <= i < |chunks| ==> parts[i] == Packed(chunks[i].text, false) && shown[i] == chunks[i].path)
            && (forall c :: c in chunks && c.path !in shown ==> Kept(parts) + |c.text| > budget)
            && (forall j :: 0 <= j < |parts| && parts[j].cut ==> j == 0)
            && (chunks != [] && |chunks[0].text| > budget && !chunks[0].binary ==>
                  parts != [] && parts[0].cut && parts[0].text < chunks[0].text)
            && |shown| + |omitted| == |chunks| + |NotSeen(changes.files, chunks)|
    ensures forall f :: f in changes.files ==> f.path in shown || Names(omitted, f.path)
  {
    hide Split, InOrder, WithoutPartialTail, Fates, Parts, ShownPaths, OmittedChunks, NotSeen, Names, Kept, TextLength;
    var split := SplitDiff(WithoutPartialTail(raw, truncated), naming);
    var chunks := InOrder(split, changes);
    parts, shown, omitted := PackChunks(chunks, budget, changes.files);
    var unseen := NameUnseen(changes.files, chunks);
    omitted := omitted + unseen;
    PartsFit(chunks, true, 0, budget);
    PackedAll(chunks, budget, changes.files);
    forall f | f in changes.files ensures f.path in shown || Names(omitted, f.path) {
      FileAccounted(chunks, Fates(chunks, true, 0, budget), changes.files, f);
    }
  }
}
