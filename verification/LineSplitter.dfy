/** Splitting a process's output into lines as it arrives (packages/executor/src/process.ts). */
module LineSplitter {
  import opened Common

  const CR: char := '\r'
  const LF: char := '\n'

  predicate EndsWithCR(s: string) {
    |s| > 0 && s[|s| - 1] == CR
  }

  function StripCR(s: string): string {
    if EndsWithCR(s) then s[..|s| - 1] else s
  }

  /** A line in pieces of `maxLen`; an empty line is one empty piece. */
  function Cut(line: string, maxLen: nat): seq<string>
    requires maxLen > 0
  {
    if |line| <= maxLen then [line] else [line[..maxLen]] + Cut(line[maxLen..], maxLen)
  }

  /**
   * The pieces of one line as written (its CR included). `parted`: a chunk ended just before its LF.
   * Then a line that fills its pieces exactly gets one more, empty: its CR was held back alone.
   */
  function LinePieces(raw: string, parted: bool, maxLen: nat): seq<string>
    requires maxLen > 0
  {
    Cut(StripCR(raw), maxLen) + if parted && FillsPieces(raw, maxLen) then [""] else []
  }

  predicate FillsPieces(raw: string, maxLen: nat)
    requires maxLen > 0
  {
    EndsWithCR(raw) && |raw| > 1 && IsMultiple(|raw| - 1, maxLen)
  }

  predicate IsMultiple(n: nat, m: nat)
    requires m > 0
  {
    n == 0 || (n >= m && IsMultiple(n - m, m))
  }

  /** Where the line in progress starts. */
  function LineStart(text: string): (p: nat)
    ensures p <= |text|
  {
    if text == "" then 0
    else if text[|text| - 1] == LF then |text|
    else LineStart(text[..|text| - 1])
  }

  /** The pieces of every finished line; `marks` are the positions where a chunk ended. */
  function Finished(text: string, marks: set<nat>, maxLen: nat): seq<string>
    requires maxLen > 0
  {
    if text == "" then []
    else
      var n := |text| - 1;
      Finished(text[..n], marks, maxLen)
      + if text[n] == LF then LinePieces(text[LineStart(text[..n])..n], n in marks, maxLen) else []
  }

  /** The pieces of a whole stream, with the unfinished last line when it is not empty. */
  function Pieces(text: string, marks: set<nat>, maxLen: nat): seq<string>
    requires maxLen > 0
  {
    var tail := text[LineStart(text)..];
    Finished(text, marks, maxLen) + if tail == "" then [] else LinePieces(tail, |text| in marks, maxLen)
  }

  // ----- what the pieces say about the stream -----

  /** The pieces of a line put together are the line, and none is too long. */
  lemma {:induction false} PiecesOfLine(raw: string, parted: bool, maxLen: nat)
    requires maxLen > 0
    ensures Concat(LinePieces(raw, parted, maxLen)) == if raw != "" && raw[|raw| - 1] == CR then raw[..|raw| - 1] else raw
    ensures forall p :: p in LinePieces(raw, parted, maxLen) ==> |p| <= maxLen
    ensures var cut := Cut(StripCR(raw), maxLen);
            |cut| > 0 && (|cut| > 1 ==> cut[|cut| - 1] != "") && forall k :: 0 <= k < |cut| - 1 ==> |cut[k]| == maxLen
  {
    CutOfLine(StripCR(raw), maxLen);
    ConcatEmpty(Cut(StripCR(raw), maxLen));
    assert Cut(StripCR(raw), maxLen) + [] == Cut(StripCR(raw), maxLen);
  }

  lemma {:induction false} CutOfLine(line: string, maxLen: nat)
    requires maxLen > 0
    ensures Concat(Cut(line, maxLen)) == line
    ensures forall p :: p in Cut(line, maxLen) ==> |p| <= maxLen
    ensures var cut := Cut(line, maxLen);
            |cut| > 0 && (|cut| > 1 ==> cut[|cut| - 1] != "") && (line != "" ==> cut[0] != "")
            && forall k :: 0 <= k < |cut| - 1 ==> |cut[k]| == maxLen
    decreases |line|
  {
    if |line| > maxLen {
      CutOfLine(line[maxLen..], maxLen);
      assert Cut(line, maxLen)[1..] == Cut(line[maxLen..], maxLen);
    } else {
      assert Concat([line]) == line;
    }
  }

  lemma {:induction false} ConcatEmpty(parts: seq<string>)
    ensures Concat(parts + [""]) == Concat(parts)
  {
    if parts != [] {
      ConcatEmpty(parts[1..]);
      assert (parts + [""])[1..] == parts[1..] + [""];
    }
  }

  /** Every finished line of the text starts after some LF or at the start, ends at an LF, and has none inside. */
  ghost predicate IsLine(text: string, from: nat, to: nat) {
    from <= to <= |text| && (from == 0 || text[from - 1] == LF) && LF !in text[from..to]
  }

  /** No finished line fills its pieces exactly with its CR left over. */
  ghost predicate NoFinishedLineFills(text: string, maxLen: nat)
    requires maxLen > 0
  {
    forall from: nat, to: nat :: IsLine(text, from, to) && to < |text| && text[to] == LF ==> !FillsPieces(text[from..to], maxLen)
  }

  lemma {:induction false} LineStartIsLine(text: string)
    ensures IsLine(text, LineStart(text), |text|)
  {
    assert text[|text|..|text|] == [];
    if text != "" && text[|text| - 1] != LF {
      var t := text[..|text| - 1];
      LineStartIsLine(t);
      assert text[LineStart(t)..|text|] == t[LineStart(t)..|t|] + [text[|text| - 1]];
    }
  }

  lemma {:induction false} FinishedIndependent(text: string, n: nat, marks: set<nat>, marks': set<nat>, maxLen: nat)
    requires maxLen > 0 && NoFinishedLineFills(text, maxLen) && n <= |text|
    ensures Finished(text[..n], marks, maxLen) == Finished(text[..n], marks', maxLen)
  {
    if n > 0 {
      FinishedIndependent(text, n - 1, marks, marks', maxLen);
      assert text[..n][..n - 1] == text[..n - 1];
      if text[n - 1] == LF {
        var from := LineStart(text[..n - 1]);
        LineStartIsLine(text[..n - 1]);
        assert text[..n - 1][from..n - 1] == text[from..n - 1] == text[..n][from..n - 1];
        SamePieces(text, from, n - 1, maxLen);
      }
    }
  }

  lemma SamePieces(text: string, from: nat, to: nat, maxLen: nat)
    requires maxLen > 0 && NoFinishedLineFills(text, maxLen) && IsLine(text, from, to) && to < |text| && text[to] == LF
    ensures LinePieces(text[from..to], true, maxLen) == LinePieces(text[from..to], false, maxLen)
  {
  }

  lemma LineStartIs(text: string, from: nat, to: nat)
    requires IsLine(text, from, to)
    ensures LineStart(text[..to]) == from
  {
    assert text[..to] == text[..from] + text[from..to];
    ReadOn(text[..from], text[from..to], {}, 1);
    if from > 0 {
      assert text[..from][from - 1] == LF;
    }
  }

  /** A chunk that ends just before a line's LF adds a piece when the line fills its pieces. */
  lemma {:induction false} PartedLineShows(text: string, n: nat, from: nat, to: nat, maxLen: nat)
    requires maxLen > 0 && n <= |text| && IsLine(text, from, to) && to < |text| && text[to] == LF && FillsPieces(text[from..to], maxLen)
    ensures |Finished(text[..n], {to, |text|}, maxLen)| == |Finished(text[..n], {|text|}, maxLen)| + if to < n then 1 else 0
  {
    if n > 0 {
      PartedLineShows(text, n - 1, from, to, maxLen);
      assert text[..n][..n - 1] == text[..n - 1];
      if n - 1 == to {
        LineStartIs(text, from, to);
        assert text[..n][from..to] == text[from..to];
      }
    }
  }

  /**
   * Chunking independence, exactly: any two chunkings of the stream (each ends with the stream) give the
   * same pieces if and only if no finished line fills its pieces exactly with its CR left over.
   */
  lemma ChunkingIndependentIff(text: string, maxLen: nat)
    requires maxLen > 0
    ensures NoFinishedLineFills(text, maxLen) <==>
            forall marks, marks' :: |text| in marks && |text| in marks' ==> Pieces(text, marks, maxLen) == Pieces(text, marks', maxLen)
  {
    assert text[..|text|] == text;
    if NoFinishedLineFills(text, maxLen) {
      forall marks, marks' | |text| in marks && |text| in marks' ensures Pieces(text, marks, maxLen) == Pieces(text, marks', maxLen) {
        FinishedIndependent(text, |text|, marks, marks', maxLen);
      }
    } else {
      var from: nat, to: nat :| IsLine(text, from, to) && to < |text| && text[to] == LF && FillsPieces(text[from..to], maxLen);
      PartedLineShows(text, |text|, from, to, maxLen);
      assert |Pieces(text, {to, |text|}, maxLen)| > |Pieces(text, {|text|}, maxLen)|;
    }
  }

  /** Without CR, or when every line fits a piece with its CR, each line is simply cut, however it arrives. */
  lemma PlainlyCut(text: string, marks: set<nat>, maxLen: nat)
    requires maxLen > 0
    requires CR !in text || forall from: nat, to: nat :: IsLine(text, from, to) ==> to - from <= maxLen
    ensures Pieces(text, marks, maxLen) == Pieces(text, {}, maxLen)
  {
    forall from: nat, to: nat | IsLine(text, from, to) ensures !FillsPieces(text[from..to], maxLen) {
      FitsOrNoCR(text, from, to, maxLen);
    }
    LineStartIsLine(text);
    assert text[LineStart(text)..] == text[LineStart(text)..|text|];
    assert text[..|text|] == text;
    FinishedIndependent(text, |text|, marks, {}, maxLen);
  }

  lemma FitsOrNoCR(text: string, from: nat, to: nat, maxLen: nat)
    requires maxLen > 0 && from <= to <= |text| && (CR !in text || to - from <= maxLen)
    ensures !FillsPieces(text[from..to], maxLen)
  {
    var raw := text[from..to];
    if EndsWithCR(raw) {
      assert raw[|raw| - 1] == text[to - 1];
    }
  }

  // ----- reading on -----

  lemma {:induction false} ReadOn(text: string, more: string, marks: set<nat>, maxLen: nat)
    requires maxLen > 0 && LF !in more
    ensures LineStart(text + more) == LineStart(text)
    ensures Finished(text + more, marks, maxLen) == Finished(text, marks, maxLen)
  {
    hide LinePieces;
    if more == "" {
      assert text + more == text;
    } else {
      var n := |more| - 1;
      assert (text + more)[..|text| + n] == text + more[..n];
      ReadOn(text, more[..n], marks, maxLen);
    }
  }

  /** A chunk that ends later does not change what came before. */
  lemma {:induction false} LaterMark(text: string, marks: set<nat>, mark: nat, maxLen: nat)
    requires maxLen > 0 && |text| <= mark
    ensures Finished(text, marks + {mark}, maxLen) == Finished(text, marks, maxLen)
  {
    if text != "" {
      LaterMark(text[..|text| - 1], marks, mark, maxLen);
    }
  }

  /** What went out early of a line in progress: `sent`, in whole pieces. */
  function Early(sent: string, maxLen: nat): seq<string>
    requires maxLen > 0
  {
    if sent == "" then [] else Cut(sent, maxLen)
  }

  /** Whole pieces that went out early, then the cut of what is left, are the cut of the line. */
  lemma {:induction false} EarlyThenRest(sent: string, rest: string, maxLen: nat)
    requires maxLen > 0 && IsMultiple(|sent|, maxLen) && (sent != "" ==> rest != "")
    ensures Early(sent, maxLen) + Cut(rest, maxLen) == Cut(sent + rest, maxLen)
    decreases |sent|
  {
    hide Cut;
    if sent == "" {
      assert sent + rest == rest;
    } else {
      EarlyThenRest(sent[maxLen..], rest, maxLen);
      FirstPiece(sent, "", maxLen);
      assert sent + "" == sent && sent[maxLen..] + "" == sent[maxLen..];
      FirstPiece(sent, rest, maxLen);
    }
  }

  lemma FirstPiece(sent: string, rest: string, maxLen: nat)
    requires 0 < maxLen <= |sent|
    ensures sent[maxLen..] + rest != "" ==> Cut(sent + rest, maxLen) == [sent[..maxLen]] + Cut(sent[maxLen..] + rest, maxLen)
    ensures sent[maxLen..] + rest == "" ==> Cut(sent + rest, maxLen) == [sent[..maxLen]]
  {
    var line := sent + rest;
    assert line[..maxLen] == sent[..maxLen] && line[maxLen..] == sent[maxLen..] + rest;
    assert line == line[..maxLen] + line[maxLen..];
    assert sent[..maxLen] + "" == sent[..maxLen];
  }

  lemma {:induction false} MultipleWhen(n: nat, r: nat, m: nat)
    requires r < m && IsMultiple(n, m)
    ensures IsMultiple(n + r, m) <==> r == 0
  {
    if n > 0 {
      MultipleWhen(n - m, r, m);
    }
  }

  lemma {:induction false} OneMore(n: nat, m: nat)
    requires m > 0 && IsMultiple(n, m)
    ensures IsMultiple(n + m, m)
  {
  }

  lemma OneLF(text: string, marks: set<nat>, maxLen: nat)
    requires maxLen > 0
    ensures LineStart(text + [LF]) == |text| + 1
    ensures Finished(text + [LF], marks, maxLen) == Finished(text, marks, maxLen) + LinePieces(text[LineStart(text)..], |text| in marks, maxLen)
  {
    assert (text + [LF])[..|text|] == text;
    assert (text + [LF])[LineStart(text)..|text|] == text[LineStart(text)..];
  }

  lemma LineEnds(text: string, more: string, marks: set<nat>, maxLen: nat)
    requires maxLen > 0 && LineStart(text) == |text| && LF !in more
    ensures LineStart(text + more + [LF]) == |text + more + [LF]|
    ensures Finished(text + more + [LF], marks, maxLen) == Finished(text, marks, maxLen) + LinePieces(more, |text + more| in marks, maxLen)
  {
    ReadOn(text, more, marks, maxLen);
    OneLF(text + more, marks, maxLen);
    assert (text + more)[|text|..] == more;
  }

  /** A text of finished lines. */
  function Lines(lines: seq<string>): string {
    if lines == [] then "" else Lines(lines[..|lines| - 1]) + lines[|lines| - 1] + [LF]
  }

  /** The lines cut one by one. */
  function AllCut(lines: seq<string>, maxLen: nat): seq<string>
    requires maxLen > 0
  {
    if lines == [] then [] else AllCut(lines[..|lines| - 1], maxLen) + Cut(StripCR(lines[|lines| - 1]), maxLen)
  }

  lemma {:induction false} LinesRead(lines: seq<string>, marks: set<nat>, maxLen: nat)
    requires maxLen > 0 && forall l :: l in lines ==> LF !in l && !FillsPieces(l, maxLen)
    ensures LineStart(Lines(lines)) == |Lines(lines)|
    ensures Finished(Lines(lines), marks, maxLen) == AllCut(lines, maxLen)
  {
    hide Finished, LineStart, Cut, StripCR, FillsPieces;
    if lines == [] {
      NothingYet(maxLen);
      NoLines(marks, maxLen);
    } else {
      var n := |lines| - 1;
      assert forall l :: l in lines[..n] ==> l in lines;
      assert lines[n] in lines;
      LinesRead(lines[..n], marks, maxLen);
      LineEnds(Lines(lines[..n]), lines[n], marks, maxLen);
      var cut := Cut(StripCR(lines[n]), maxLen);
      assert cut + [] == cut;
    }
  }

  lemma NoLines(marks: set<nat>, maxLen: nat)
    requires maxLen > 0
    ensures Finished("", marks, maxLen) == [] && LineStart("") == 0
  {
  }

  /** A stream of lines gives the pieces of each line in turn, an empty line too, and of an unfinished last one if it is not empty. */
  lemma StreamIsItsLines(lines: seq<string>, last: string, marks: set<nat>, maxLen: nat)
    requires maxLen > 0 && LF !in last && !FillsPieces(last, maxLen)
    requires forall l :: l in lines ==> LF !in l && !FillsPieces(l, maxLen)
    ensures Pieces(Lines(lines) + last, marks, maxLen) == AllCut(lines, maxLen) + if last == "" then [] else Cut(StripCR(last), maxLen)
  {
    hide Finished, LineStart, Cut, StripCR, FillsPieces;
    LinesRead(lines, marks, maxLen);
    ReadOn(Lines(lines), last, marks, maxLen);
    assert (Lines(lines) + last)[|Lines(lines)|..] == last;
    var cut := Cut(StripCR(last), maxLen);
    assert cut + [] == cut;
  }

  /**
   * The end of a line of which `sent` went out early: the rest, cut, completes its pieces.
   * `held` is how much of the rest the buffer kept when the last chunk ended.
   */
  lemma LineCompleted(sent: string, rest: string, held: nat, parted: bool, maxLen: nat)
    requires maxLen > 0 && IsMultiple(|sent|, maxLen)
    requires held <= maxLen && held <= |rest| && (sent != "" ==> held > 0)
    requires parted ==> held == |rest|
    requires sent != "" && |rest| == 1 ==> parted
    ensures Early(sent, maxLen) + Cut(StripCR(rest), maxLen) == LinePieces(sent + rest, parted, maxLen)
  {
    if sent != "" && rest == [CR] {
      assert StripCR(sent + rest) == sent;
      assert Cut("", maxLen) == [""];
    } else if rest == "" {
      assert sent + rest == "";
    } else {
      assert StripCR(sent + rest) == sent + StripCR(rest);
      EarlyThenRest(sent, StripCR(rest), maxLen);
      if parted && EndsWithCR(rest) {
        MultipleWhen(|sent|, held - 1, maxLen);
      }
    }
  }

  // ----- the line in progress -----

  /** The finished lines, what went out early of the line in progress, and what is left of it. */
  ghost predicate InProgress(done: string, sent: string, buffer: string, maxLen: nat) {
    && maxLen > 0
    && LineStart(done) == |done|
    && LF !in sent && IsMultiple(|sent|, maxLen)
    && (sent != "" ==> buffer != "")
  }

  /** A piece of a line that is too long to hold goes out. */
  lemma Drained(done: string, sent: string, buffer: string, maxLen: nat)
    requires InProgress(done, sent, buffer, maxLen) && LF !in buffer && |buffer| > maxLen
    ensures InProgress(done, sent + buffer[..maxLen], buffer[maxLen..], maxLen) && LF !in buffer[maxLen..]
    ensures Early(sent + buffer[..maxLen], maxLen) == Early(sent, maxLen) + [buffer[..maxLen]]
    ensures done + (sent + buffer[..maxLen]) + buffer[maxLen..] == done + sent + buffer
  {
    assert buffer == buffer[..maxLen] + buffer[maxLen..];
    OneMore(|sent|, maxLen);
    EarlyThenRest(sent, buffer[..maxLen], maxLen);
    assert Cut(buffer[..maxLen], maxLen) == [buffer[..maxLen]];
  }

  /** A line ends: what is left of it goes out, and the next one starts after its LF. */
  lemma Ended(done: string, sent: string, buffer: string, held: nat, index: nat, marks: set<nat>, maxLen: nat)
    requires InProgress(done, sent, buffer, maxLen)
    requires index < |buffer| && buffer[index] == LF && LF !in buffer[..index]
    requires held <= maxLen && held <= index && (sent != "" ==> held > 0)
    requires |done + sent| + index in marks ==> held == index
    requires sent != "" && index == 1 ==> |done + sent| + index in marks
    ensures var done' := done + (sent + buffer[..index]) + [LF];
            && InProgress(done', "", buffer[index + 1..], maxLen)
            && Finished(done', marks, maxLen) == Finished(done, marks, maxLen) + Early(sent, maxLen) + Cut(StripCR(buffer[..index]), maxLen)
            && done' + "" + buffer[index + 1..] == done + sent + buffer
  {
    hide Finished, LineStart, Cut, LinePieces;
    var raw := sent + buffer[..index];
    var parted := |done + sent| + index in marks;
    LineEnds(done, raw, marks, maxLen);
    assert |done + raw| == |done + sent| + index;
    LineCompleted(sent, buffer[..index], held, parted, maxLen);
    assert buffer == buffer[..index] + [LF] + buffer[index + 1..];
    Assoc(done, sent, buffer[..index], buffer[index + 1..]);
  }

  lemma Assoc(a: string, b: string, c: string, d: string)
    ensures a + (b + c) + [LF] + "" + d == a + b + (c + [LF] + d)
  {
  }

  /** Between chunks the line in progress is the text's last. */
  lemma Settled(done: string, sent: string, buffer: string, marks: set<nat>, maxLen: nat)
    requires InProgress(done, sent, buffer, maxLen) && LF !in buffer
    ensures var text := done + sent + buffer;
            && LineStart(text) == |done| && text[|done|..] == sent + buffer
            && Finished(text, marks, maxLen) == Finished(done, marks, maxLen)
            && Finished(done, marks + {|text|}, maxLen) == Finished(done, marks, maxLen)
  {
    ReadOn(done, sent + buffer, marks, maxLen);
    assert done + (sent + buffer) == done + sent + buffer;
    LaterMark(done, marks, |done + sent + buffer|, maxLen);
  }

  /** The last chunk came: what is left of the unfinished line completes the stream. */
  lemma Flushed(done: string, sent: string, buffer: string, marks: set<nat>, maxLen: nat)
    requires InProgress(done, sent, buffer, maxLen) && LF !in buffer && |buffer| <= maxLen
    requires buffer != "" ==> |done + sent + buffer| in marks
    ensures Pieces(done + sent + buffer, marks, maxLen) ==
            Finished(done, marks, maxLen) + Early(sent, maxLen) + if buffer == "" then [] else Cut(StripCR(buffer), maxLen)
  {
    Settled(done, sent, buffer, marks, maxLen);
    if buffer != "" {
      LineCompleted(sent, buffer, |buffer|, true, maxLen);
    }
  }

  lemma NothingYet(maxLen: nat)
    requires maxLen > 0
    ensures InProgress("", "", "", maxLen) && Finished("", {}, maxLen) + Early("", maxLen) == []
  {
  }

  /** A search finds nothing where there is no LF. */
  lemma NotBefore(buffer: string, held: nat, index: nat)
    requires held <= |buffer| && LF !in buffer[..held]
    requires index <= |buffer| && (index < |buffer| ==> buffer[index] == LF)
    ensures held <= index
  {
    assert forall i :: 0 <= i < held ==> buffer[i] in buffer[..held];
  }

  // ----- the splitter -----

  class Splitter {
    const maxLen: nat
    var buffer: string
    /** No line break lies below it, so a search starts here. */
    var scanned: nat
    /** What was emitted, in order. */
    var emitted: seq<string>
    /** The text pushed since the last flush, where each chunk ended in it, and what was emitted before. */
    ghost var received: string
    ghost var marks: set<nat>
    ghost var before: seq<string>
    /** The finished lines of it, and what went out early of the line in progress. */
    ghost var done: string
    ghost var sent: string

    ghost predicate Holds()
      reads this
    {
      && InProgress(done, sent, buffer, maxLen)
      && emitted == before + (Finished(done, marks, maxLen) + Early(sent, maxLen))
      && scanned <= |buffer| && LF !in buffer[..scanned]
    }

    ghost predicate Valid()
      reads this
    {
      && Holds() && received == done + sent + buffer
      && |buffer| <= maxLen && LF !in buffer
      && (received != "" ==> |received| in marks)
      && (forall m :: m in marks ==> m <= |received|)
    }

    constructor (maxLen: nat)
      requires maxLen > 0
      ensures Valid() && this.maxLen == maxLen && received == "" && marks == {} && emitted == before == []
    {
      this.maxLen := maxLen;
      buffer, scanned, emitted := "", 0, [];
      received, marks, before, done, sent := "", {}, [], "", "";
    }

    method EmitLong(line: string)
      requires maxLen > 0
      modifies this`emitted
      ensures emitted == old(emitted) + Cut(line, maxLen)
    {
      var i := 0;
      var end := if |line| == 0 then 1 else |line|;
      assert line[0..] == line;
      while i < end
        invariant i <= |line| || i >= end
        invariant i < end ==> i <= |line| && emitted + Cut(line[i..], maxLen) == old(emitted) + Cut(line, maxLen)
        invariant i >= end ==> emitted == old(emitted) + Cut(line, maxLen)
        decreases end - i
      {
        var to := if i + maxLen <= |line| then i + maxLen else |line|;
        emitted := emitted + [line[i..to]];
        assert i + maxLen >= |line| ==> line[i..to] == line[i..] && Cut(line[i..], maxLen) == [line[i..]];
        assert i + maxLen < |line| ==> line[i..][maxLen..] == line[i + maxLen..] && line[i..][..maxLen] == line[i..to];
        i := i + maxLen;
      }
    }

    /** Emit what is left of a line whose LF is at `index`. */
    method TakeLine(index: nat, ghost held: nat)
      requires Holds() && index < |buffer| && buffer[index] == LF && LF !in buffer[..index]
      requires held <= maxLen && held <= index && (sent != "" ==> held > 0)
      requires |done + sent| + index in marks ==> held == index
      requires sent != "" && index == 1 ==> |done + sent| + index in marks
      modifies this`buffer, this`scanned, this`emitted, this`done, this`sent
      ensures Holds() && sent == "" && scanned == 0 && |buffer| < |old(buffer)|
      ensures done + sent + buffer == old(done + sent + buffer) && |done| == |old(done + sent)| + index + 1
    {
      hide Finished, LineStart, Cut, IsMultiple;
      Ended(done, sent, buffer, held, index, marks, maxLen);
      ghost var line := buffer[..index];
      EmitLong(buffer[..if index > 0 && buffer[index - 1] == CR then index - 1 else index]);
      assert StripCR(line) == buffer[..if index > 0 && buffer[index - 1] == CR then index - 1 else index];
      done, sent := done + (sent + line) + [LF], "";
      buffer, scanned := buffer[index + 1..], 0;
    }

    /** Emit the lines the buffer completes. */
    method TakeLines(ghost held: nat)
      requires Holds() && held <= maxLen && held <= |buffer| && LF !in buffer[..held] && (sent != "" ==> held > 0)
      requires forall m :: m in marks ==> m <= |done + sent| + held
      requires held > 0 ==> |done + sent| + held in marks
      modifies this`buffer, this`scanned, this`emitted, this`done, this`sent
      ensures Holds() && LF !in buffer && done + sent + buffer == old(done + sent + buffer)
    {
      hide Finished, LineStart, Cut, IsMultiple;
      ghost var end := |done + sent| + held;
      ghost var held: nat := held;
      var index := IndexOfLF(buffer, scanned);
      assert buffer[..index] == buffer[..scanned] + buffer[scanned..index];
      NotBefore(buffer, held, index);
      while index < |buffer|
        invariant Holds() && done + sent + buffer == old(done + sent + buffer)
        invariant 0 <= index <= |buffer| && LF !in buffer[..index] && (index < |buffer| ==> buffer[index] == LF)
        invariant held <= maxLen && held <= index && (sent != "" ==> held > 0)
        invariant if held > 0 then |done + sent| + held == end && end in marks else end <= |done + sent|
        decreases |buffer|
      {
        TakeLine(index, held);
        held := 0;
        index := IndexOfLF(buffer, scanned);
      }
      assert buffer[..index] == buffer;
    }

    /** Emit whole pieces of a line in progress that is too long to hold. */
    method Drain()
      requires Holds() && LF !in buffer
      modifies this`buffer, this`scanned, this`emitted, this`sent
      ensures Holds() && LF !in buffer && |buffer| <= maxLen && done + sent + buffer == old(done + sent + buffer)
      ensures scanned == if EndsWithCR(buffer) then |buffer| - 1 else |buffer|
    {
      hide Finished, Cut, LineStart;
      scanned := 0;
      while |buffer| > maxLen
        invariant Holds() && LF !in buffer && scanned == 0 && done + sent + buffer == old(done + sent + buffer)
        decreases |buffer|
      {
        Drained(done, sent, buffer, maxLen);
        emitted := emitted + [buffer[..maxLen]];
        sent := sent + buffer[..maxLen];
        buffer := buffer[maxLen..];
      }
      scanned := if EndsWithCR(buffer) then |buffer| - 1 else |buffer|;
    }

    method Push(chunk: string)
      requires Valid()
      modifies this
      ensures Valid() && before == old(before)
      ensures received == old(received) + chunk && marks == old(marks) + {|received|}
    {
      hide Finished, LineStart, Cut, IsMultiple;
      ghost var held := |buffer|;
      assert (buffer + chunk)[..scanned] == buffer[..scanned] && (buffer + chunk)[..held] == buffer;
      received := received + chunk;
      buffer := buffer + chunk;
      assert done + sent + buffer == received;
      TakeLines(held);
      Drain();
      Settled(done, sent, buffer, marks, maxLen);
      marks := marks + {|received|};
    }

    /** After the last chunk everything is out, the unfinished line too. */
    method Flush()
      requires Valid()
      modifies this
      ensures Valid() && received == "" && marks == {} && before == emitted
      ensures emitted == old(before) + Pieces(old(received), old(marks), maxLen)
    {
      hide Finished, LineStart, Cut, IsMultiple, LinePieces, Pieces;
      Flushed(done, sent, buffer, marks, maxLen);
      if |buffer| > 0 {
        EmitLong(if EndsWithCR(buffer) then buffer[..|buffer| - 1] else buffer);
      }
      NothingYet(maxLen);
      buffer, scanned := "", 0;
      received, marks, done, sent, before := "", {}, "", "", emitted;
    }
  }

  /** `buffer.indexOf('\n', from)`, as an index or the length when there is none. */
  method IndexOfLF(buffer: string, from: nat) returns (i: nat)
    requires from <= |buffer|
    ensures from <= i <= |buffer| && LF !in buffer[from..i]
    ensures i < |buffer| ==> buffer[i] == LF
  {
    i := from;
    while i < |buffer| && buffer[i] != LF
      invariant from <= i <= |buffer| && LF !in buffer[from..i]
    {
      assert buffer[from..i + 1] == buffer[from..i] + [buffer[i]];
      i := i + 1;
    }
  }
}
