/**
 * A terminal's output: held back until a line is whole, redacted piece by piece, and kept in a bounded
 * buffer that readers follow with a cursor (packages/pty/src/index.ts).
 */
module PtyBuffer {
  import opened Common

  datatype Chunk = Chunk(start: nat, text: string)

  /** The longest text held back for a line that has not ended. */
  const HOLD_CHARS: nat := 8 * 1024

  /** The redactor's output for a piece depends on the pieces before it. */
  type Scrub = (seq<string>, string) -> string

  /** Everything shown for these pieces. */
  function Shown(scrub: Scrub, pieces: seq<string>): string {
    if pieces == [] then ""
    else
      var before := pieces[..|pieces| - 1];
      Shown(scrub, before) + scrub(before, pieces[|pieces| - 1])
  }

  function Total(chunks: seq<Chunk>): nat {
    if chunks == [] then 0 else |chunks[0].text| + Total(chunks[1..])
  }

  /** The first character kept. */
  function First(chunks: seq<Chunk>, cursor: nat): nat {
    if chunks == [] then cursor else chunks[0].start
  }

  predicate Fits(chunks: seq<Chunk>, history: string, i: nat)
    requires i < |chunks|
  {
    var c := chunks[i];
    var end := c.start + |c.text|;
    && c.text != "" && end <= |history| && history[c.start..end] == c.text
    && end == if i + 1 < |chunks| then chunks[i + 1].start else |history|
  }

  /** The chunks are the end of the history, one after another. */
  predicate Tail(chunks: seq<Chunk>, history: string) {
    forall i :: 0 <= i < |chunks| ==> Fits(chunks, history, i)
  }

  lemma {:induction false} TailTotal(chunks: seq<Chunk>, history: string)
    requires Tail(chunks, history)
    ensures First(chunks, |history|) + Total(chunks) == |history|
  {
    if chunks != [] {
      assert Fits(chunks, history, 0);
      TailRest(chunks, history);
      TailTotal(chunks[1..], history);
    }
  }

  lemma TailRest(chunks: seq<Chunk>, history: string)
    requires chunks != [] && Tail(chunks, history)
    ensures Tail(chunks[1..], history)
  {
    forall i | 0 <= i < |chunks| - 1 ensures Fits(chunks[1..], history, i) {
      assert Fits(chunks, history, i + 1);
    }
  }

  lemma TailMore(chunks: seq<Chunk>, history: string, text: string)
    requires Tail(chunks, history) && text != ""
    ensures Tail(chunks + [Chunk(|history|, text)], history + text)
  {
    var more, longer := chunks + [Chunk(|history|, text)], history + text;
    forall i | 0 <= i < |more| ensures Fits(more, longer, i) {
      if i < |chunks| {
        assert Fits(chunks, history, i);
        assert longer[chunks[i].start..chunks[i].start + |chunks[i].text|] == chunks[i].text;
      } else {
        assert longer[|history|..] == text;
      }
    }
  }

  lemma {:induction false} TotalMore(chunks: seq<Chunk>, c: Chunk)
    ensures Total(chunks + [c]) == Total(chunks) + |c.text|
  {
    if chunks == [] {
      assert [] + [c] == [c] && [c][1..] == [];
    } else {
      TotalMore(chunks[1..], c);
      assert (chunks + [c])[1..] == chunks[1..] + [c];
    }
  }

  /** The chunks kept are the last of all there were, and one more would be over the cap. */
  ghost predicate CutToCap(kept: seq<Chunk>, all: seq<Chunk>, cap: nat) {
    exists n: nat :: n <= |all| && kept == all[n..] && (n > 0 ==> Total(all[n - 1..]) > cap)
  }

  /** What a reader is told: the output from a place on, and whether some of it is gone. */
  datatype Answer = Answer(output: string, cursor: nat, truncated: bool)

  function From(history: string, from: nat): string {
    if from <= |history| then history[from..] else ""
  }

  /** The history from the place asked for, or from the first character kept. */
  function AnswerFrom(history: string, first: nat, since: nat): Answer {
    Answer(From(history, Max(since, first)), |history|, since < first)
  }

  /** One more piece went on: `all` up to a line break, or all but as much as may wait. */
  ghost predicate OneMore(before: seq<string>, pieces: seq<string>, all: string, held: string) {
    && |pieces| == |before| + 1 && pieces[..|before|] == before
    && var piece := pieces[|before|];
       piece != "" && piece + held == all && (piece[|piece| - 1] == '\n' || |held| == HOLD_CHARS)
  }

  lemma OneMoreAt(before: seq<string>, all: string, cut: nat)
    requires 0 < cut <= |all| && (all[cut - 1] == '\n' || |all| - cut == HOLD_CHARS)
    ensures OneMore(before, before + [all[..cut]], all, all[cut..])
  {
  }

  class PtySession {
    var chunks: seq<Chunk>
    var retained: nat
    var cursorValue: nat
    var held: string
    var holdTimer: bool
    var exited: bool
    var pieces: seq<string>
    const scrub: Scrub
    const cap: nat
    ghost var received: string
    ghost var history: string
    ghost var all: seq<Chunk>

    /** The chunks are the end of the history, cut no shorter than the cap asks. */
    ghost predicate Kept()
      reads this`chunks, this`retained, this`cursorValue, this`history, this`all
    {
      && Tail(chunks, history) && cursorValue == |history| && retained == Total(chunks)
      && (chunks == [] ==> history == "")
      && CutToCap(chunks, all, cap) && Tail(all, history) && First(all, |history|) == 0
    }

    ghost predicate Valid()
      reads this
    {
      && history == Shown(scrub, pieces) && Concat(pieces) + held == received
      && Kept() && (retained <= cap || |chunks| <= 1)
      && |held| <= HOLD_CHARS && '\n' !in held && (holdTimer <==> held != "")
    }

    constructor (scrub: Scrub, cap: nat)
      ensures Valid() && received == "" && history == "" && this.scrub == scrub && this.cap == cap && !exited
    {
      chunks, retained, cursorValue, held, holdTimer, exited, pieces := [], 0, 0, "", false, false, [];
      this.scrub, this.cap := scrub, cap;
      received, history, all := "", "", [];
      new;
      assert all[0..] == chunks;
    }

    /** Move the first `cut` characters held into the redactor, and its output into the history. */
    method Release(cut: nat)
      requires cut <= |held| && history == Shown(scrub, pieces) && Concat(pieces) + held == received
      requires Kept() && (retained <= cap || |chunks| <= 1)
      modifies this`chunks, this`retained, this`cursorValue, this`held, this`pieces, this`history, this`all
      ensures held == old(held[cut..]) && history == Shown(scrub, pieces) && Concat(pieces) + held == received
      ensures Kept() && (retained <= cap || |chunks| <= 1)
      ensures old(all) <= all
      ensures old(history) <= history
      ensures pieces == if cut == 0 then old(pieces) else old(pieces) + [old(held[..cut])]
    {
      hide Tail, Total, Shown, CutToCap, Concat, Kept;
      var piece := held[..cut];
      held := held[cut..];
      if piece == "" {
        return;
      }
      ConcatMore(pieces, piece);
      assert Concat(pieces) + (piece + held) == Concat(pieces) + piece + held;
      assert piece + held == old(held);
      ShownMore(scrub, pieces, piece);
      var text := scrub(pieces, piece);
      pieces := pieces + [piece];
      if text == "" {
        assert history + text == history;
        return;
      }
      Keep(text);
    }

    /** One more chunk of output, and the oldest ones dropped while there is too much. */
    method Keep(text: string)
      requires Kept() && text != ""
      modifies this`chunks, this`retained, this`cursorValue, this`history, this`all
      ensures Kept() && (retained <= cap || |chunks| <= 1)
      ensures history == old(history) + text && all == old(all) + [Chunk(|old(history)|, text)]
    {
      hide Tail, Total, CutToCap;
      TailMore(chunks, history, text);
      TotalMore(chunks, Chunk(cursorValue, text));
      TailMore(all, history, text);
      CutMore(chunks, all, Chunk(cursorValue, text), cap);
      all := all + [Chunk(cursorValue, text)];
      chunks := chunks + [Chunk(cursorValue, text)];
      cursorValue := cursorValue + |text|;
      history := history + text;
      retained := retained + |text|;
      DropOld();
    }

    /** What is dropped has to be: every chunk is kept, or one more would be over the cap. */
    method DropOld()
      requires Kept() && chunks != []
      modifies this`chunks, this`retained
      ensures CutToCap(chunks, all, cap)
      ensures Kept() && (retained <= cap || |chunks| <= 1)
    {
      hide Tail, Total, Shown, CutToCap;
      while retained > cap && |chunks| > 1
        invariant Kept() && chunks != []
      {
        TailRest(chunks, history);
        TotalRest(chunks);
        CutOne(chunks, all, cap);
        retained := retained - |chunks[0].text|;
        chunks := chunks[1..];
      }
    }

    /**
     * Take output in: everything up to its last line break goes on as one piece, and what is left waits. While the
     * line has not ended and fits, nothing goes on.
     */
    method Push(raw: string)
      requires Valid()
      modifies this
      ensures Valid() && received == old(received) + raw && old(history) <= history && exited == old(exited)
      ensures '\n' !in raw && |old(held)| + |raw| <= HOLD_CHARS ==>
                pieces == old(pieces) && held == old(held) + raw && history == old(history)
      ensures '\n' in raw || |old(held)| + |raw| > HOLD_CHARS ==>
                OneMore(old(pieces), pieces, old(held) + raw, held)
    {
      hide Tail, Total, Shown, Concat, CutToCap, Kept, OneMore;
      assert Concat(pieces) + held + raw == Concat(pieces) + (held + raw);
      var cut := CutOf(held, raw);
      held := held + raw;
      received := received + raw;
      if cut > 0 {
        OneMoreAt(pieces, held, cut);
        Release(cut);
        holdTimer := false;
      }
      if held != "" && !holdTimer {
        holdTimer := true;
      }
    }

    /** The wait is over: the line in progress is shown. */
    method HoldTimeout()
      requires Valid() && holdTimer
      modifies this
      ensures Valid() && received == old(received) && old(history) <= history && held == "" && exited == old(exited)
      ensures pieces == old(pieces) + [old(held)]
    {
      hide Tail, Total, Shown, Concat, CutToCap, Kept;
      holdTimer := false;
      assert held[..|held|] == held;
      Release(|held|);
    }

    /** Nothing is held back once the terminal has exited, until more arrives. */
    method Finish()
      requires Valid()
      modifies this
      ensures Valid() && received == old(received) && old(history) <= history && exited
      ensures !old(exited) ==> held == "" && Concat(pieces) == received
      ensures !old(exited) ==> pieces == if old(held) == "" then old(pieces) else old(pieces) + [old(held)]
      ensures old(exited) ==> held == old(held) && history == old(history) && pieces == old(pieces)
    {
      hide Tail, Total, Shown, Concat, CutToCap, Kept;
      if exited {
        return;
      }
      holdTimer := false;
      assert held[..|held|] == held;
      Release(|held|);
      assert Concat(pieces) + "" == Concat(pieces);
      exited := true;
    }

    /** The history after `since`, as far back as it is kept. */
    method Read(since: nat) returns (answer: Answer)
      requires Valid()
      ensures answer == AnswerFrom(history, First(chunks, cursorValue), since)
    {
      hide Total, Shown, Concat, Between, Fits, Tail, CutToCap;
      var first := if chunks != [] then chunks[0].start else cursorValue;
      var from := Max(since, first);
      var output := "";
      NothingBetween(chunks, history, from);
      for i := 0 to |chunks|
        invariant output == Between(history, from, if i < |chunks| then chunks[i].start else |history|)
      {
        ChunkAt(chunks, history, i);
        var c := chunks[i];
        var end := c.start + |c.text|;
        BetweenMore(history, from, c.start, end);
        if end > from {
          output := output + c.text[Max(0, from - c.start)..];
        }
      }
      BetweenAll(history, from);
      return Answer(output, cursorValue, since < first);
    }
  }

  lemma ChunkAt(chunks: seq<Chunk>, history: string, i: nat)
    requires i < |chunks| && Tail(chunks, history)
    ensures var c := chunks[i];
            var end := c.start + |c.text|;
            && end <= |history| && history[c.start..end] == c.text
            && end == if i + 1 < |chunks| then chunks[i + 1].start else |history|
  {
    assert Fits(chunks, history, i);
  }

  lemma NothingBetween(chunks: seq<Chunk>, history: string, from: nat)
    requires from >= First(chunks, |history|)
    ensures Between(history, from, First(chunks, |history|)) == ""
  {
  }

  /** The history between two places. */
  function Between(history: string, from: nat, to: nat): string {
    if from <= to <= |history| then history[from..to] else ""
  }

  lemma BetweenMore(history: string, from: nat, start: nat, end: nat)
    requires start <= end <= |history|
    ensures Between(history, from, end)
         == Between(history, from, start) + if end > from then history[start..end][Max(0, from - start)..] else ""
  {
    if from <= start {
      assert history[from..end] == history[from..start] + history[start..end];
    } else if from < end {
      assert history[start..end][from - start..] == history[from..end];
    }
  }

  lemma BetweenAll(history: string, from: nat)
    ensures Between(history, from, |history|) == From(history, from)
  {
  }

  lemma CutMore(kept: seq<Chunk>, all: seq<Chunk>, c: Chunk, cap: nat)
    requires CutToCap(kept, all, cap)
    ensures CutToCap(kept + [c], all + [c], cap)
  {
    var n: nat :| n <= |all| && kept == all[n..] && (n > 0 ==> Total(all[n - 1..]) > cap);
    assert (all + [c])[n..] == kept + [c];
    if n > 0 {
      assert (all + [c])[n - 1..] == all[n - 1..] + [c];
      TotalMore(all[n - 1..], c);
    }
  }

  /** Dropping the oldest chunk kept, when what is kept is over the cap. */
  lemma CutOne(kept: seq<Chunk>, all: seq<Chunk>, cap: nat)
    requires CutToCap(kept, all, cap) && kept != [] && Total(kept) > cap
    ensures CutToCap(kept[1..], all, cap)
  {
    var n: nat :| n <= |all| && kept == all[n..] && (n > 0 ==> Total(all[n - 1..]) > cap);
    assert all[n + 1..] == kept[1..] && all[n + 1 - 1..] == kept;
  }

  lemma ConcatMore(pieces: seq<string>, piece: string)
    ensures Concat(pieces + [piece]) == Concat(pieces) + piece
  {
    ConcatAppend(pieces, [piece]);
    ConcatOne(piece);
  }

  lemma ShownMore(scrub: Scrub, pieces: seq<string>, piece: string)
    ensures Shown(scrub, pieces + [piece]) == Shown(scrub, pieces) + scrub(pieces, piece)
  {
    assert (pieces + [piece])[..|pieces|] == pieces;
  }

  lemma TotalRest(chunks: seq<Chunk>)
    requires chunks != []
    ensures Total(chunks) == |chunks[0].text| + Total(chunks[1..])
  {
  }

  /** Just past the last line break, or 0. */
  method AfterLastBreak(s: string) returns (cut: nat)
    ensures cut <= |s| && '\n' !in s[cut..] && (cut > 0 ==> s[cut - 1] == '\n')
  {
    cut := |s|;
    while cut > 0 && s[cut - 1] != '\n'
      invariant cut <= |s| && '\n' !in s[cut..]
    {
      cut := cut - 1;
      assert s[cut..] == [s[cut]] + s[cut + 1..];
    }
  }

  /** How much of what is held and what arrives goes on: up to the last line break, and beyond the most that waits. */
  method CutOf(held: string, raw: string) returns (cut: nat)
    requires '\n' !in held
    ensures cut <= |held + raw| && '\n' !in (held + raw)[cut..] && |held + raw| - cut <= HOLD_CHARS
    ensures cut == 0 <==> '\n' !in raw && |held + raw| <= HOLD_CHARS
    ensures cut > 0 ==> (held + raw)[cut - 1] == '\n' || |held + raw| - cut == HOLD_CHARS
  {
    var all := held + raw;
    cut := AfterLastBreak(all);
    assert cut == 0 ==> all[0..] == all;
    assert cut > 0 ==> cut - 1 >= |held| && '\n' in raw;
    assert '\n' in raw ==> '\n' in all;
    if |all| - cut > HOLD_CHARS {
      assert all[|all| - HOLD_CHARS..] == all[cut..][|all| - HOLD_CHARS - cut..];
      cut := |all| - HOLD_CHARS;
    }
  }

  // ----- a reader that follows with the cursor it was given -----

  class Reader {
    var since: nat
    var text: string
    var missed: bool

    /** Unless it was told that some is gone, it has the history up to its cursor. */
    ghost predicate Follows(history: string)
      reads this
    {
      since <= |history| && (!missed ==> text == history[..since])
    }

    constructor ()
      ensures since == 0 && text == "" && !missed
    {
      since, text, missed := 0, "", false;
    }

    method Poll(session: PtySession)
      requires session.Valid() && Follows(session.history)
      modifies this
      ensures Follows(session.history) && since == |session.history|
      ensures missed <==> old(missed) || old(since) < First(session.chunks, session.cursorValue)
      ensures !missed ==> text == session.history
    {
      var answer := session.Read(since);
      ghost var history := session.history;
      assert !missed && !answer.truncated ==> history[..since] + history[since..] == history;
      text := text + answer.output;
      missed := missed || answer.truncated;
      since := answer.cursor;
      assert history[..|history|] == history;
    }
  }

  /** What a reader has stays true while the history grows. */
  lemma FollowsLater(text: string, since: nat, history: string, later: string)
    requires since <= |history| && history <= later
    ensures text == history[..since] <==> text == later[..since]
  {
    assert history[..since] == later[..since];
  }

  /**
   * Output is dropped only beyond the cap: what is kept is within it (but for one chunk that is not), a
   * reader is told it missed some exactly when it asks for more than is kept, and then the last chunk
   * dropped and what is kept are over the cap together.
   */
  lemma KeptWithinCap(session: PtySession, since: nat)
    requires session.Valid() && since <= |session.history|
    ensures var truncated := AnswerFrom(session.history, First(session.chunks, session.cursorValue), since).truncated;
            && (truncated <==> since < |session.history| - Total(session.chunks))
            && (Total(session.chunks) <= session.cap || |session.chunks| <= 1)
            && (truncated ==> exists c :: c in session.all && |session.history| - c.start > session.cap
                                 && c.start + |c.text| + Total(session.chunks) == |session.history|)
    ensures |session.history| <= session.cap ==>
              !AnswerFrom(session.history, First(session.chunks, session.cursorValue), since).truncated
  {
    hide Shown, Concat;
    TailTotal(session.chunks, session.history);
    if since < First(session.chunks, session.cursorValue) {
      var c := LastDropped(session.chunks, session.all, session.history, session.cap);
    }
  }

  lemma {:induction false} TailFrom(all: seq<Chunk>, history: string, n: nat)
    requires n <= |all| && Tail(all, history)
    ensures Tail(all[n..], history)
  {
    forall i | 0 <= i < |all| - n ensures Fits(all[n..], history, i) {
      assert Fits(all, history, n + i);
    }
  }

  lemma TailStart(all: seq<Chunk>, history: string)
    requires Tail(all, history) && all != []
    ensures all[0].start + Total(all) == |history|
  {
    TailTotal(all, history);
  }

  lemma LastDropped(kept: seq<Chunk>, all: seq<Chunk>, history: string, cap: nat) returns (c: Chunk)
    requires CutToCap(kept, all, cap) && Tail(all, history) && Tail(kept, history)
    requires First(kept, |history|) > 0 && (kept == [] ==> history == "")
    requires First(all, |history|) == 0
    ensures c in all && |history| - c.start > cap && c.start + |c.text| + Total(kept) == |history|
  {
    var n: nat :| n <= |all| && kept == all[n..] && (n > 0 ==> Total(all[n - 1..]) > cap);
    assert n == 0 ==> kept == all;
    c := all[n - 1];
    TailFrom(all, history, n - 1);
    TailStart(all[n - 1..], history);
    assert all[n - 1..][1..] == kept;
    TotalRest(all[n - 1..]);
  }
}
