/**
 * Private key blocks hidden in a stream handed over in pieces, against hiding them in the whole text
 * (packages/security/src/redact.ts). The text is a sequence of tokens: a BEGIN line, an END line, or
 * anything else; a piece ends between tokens.
 */
module StreamRedactor {

  datatype Token = Begin(text: string) | End(text: string) | Other(text: string)

  /** What is shown: a token as it is, or one mark for a whole block. */
  datatype Piece = Shown(token: Token) | Block

  // ----- the whole text at once -----

  /** After the first END, if there is one. */
  function AfterEnd(ts: seq<Token>): seq<Token> {
    if ts == [] then [] else if ts[0].End? then ts[1..] else AfterEnd(ts[1..])
  }

  predicate HasEnd(ts: seq<Token>) {
    exists t :: t in ts && t.End?
  }

  predicate HasBegin(ts: seq<Token>) {
    exists t :: t in ts && t.Begin?
  }

  lemma {:induction false} AfterEndShorter(ts: seq<Token>)
    ensures |AfterEnd(ts)| <= |ts|
  {
    if ts != [] {
      AfterEndShorter(ts[1..]);
    }
  }

  /** Each block from a BEGIN to the first END after it, or to the end of the text, becomes one mark. */
  function Mask(ts: seq<Token>): seq<Piece>
    decreases |ts|
  {
    if ts == [] then []
    else if ts[0].Begin? then
      AfterEndShorter(ts[1..]);
      [Block] + Mask(AfterEnd(ts[1..]))
    else [Shown(ts[0])] + Mask(ts[1..])
  }

  /** The text ends inside a block: a BEGIN has no END after it. */
  predicate Open(ts: seq<Token>) {
    exists j :: 0 <= j < |ts| && ts[j].Begin? && !HasEnd(ts[j + 1..])
  }

  /** A token is hidden when some BEGIN is at or before it with no END between them. */
  predicate Hidden(ts: seq<Token>, i: nat)
    requires i < |ts|
  {
    ts[i].Begin? || Open(ts[..i])
  }

  /** The tokens that are not hidden, in order. */
  function Visible(ts: seq<Token>): seq<Token> {
    if ts == [] then []
    else
      var n := |ts| - 1;
      Visible(ts[..n]) + if Hidden(ts, n) then [] else [ts[n]]
  }

  function ShownTokens(ps: seq<Piece>): seq<Token> {
    if ps == [] then [] else (if ps[0].Shown? then [ps[0].token] else []) + ShownTokens(ps[1..])
  }

  // ----- cutting the text -----

  lemma HasEndJoin(a: seq<Token>, b: seq<Token>)
    ensures HasEnd(a + b) <==> HasEnd(a) || HasEnd(b)
    ensures HasBegin(a + b) <==> HasBegin(a) || HasBegin(b)
  {
    assert forall t :: t in a + b <==> t in a || t in b;
  }

  lemma HasEndHead(ts: seq<Token>)
    requires ts != []
    ensures HasEnd(ts) <==> ts[0].End? || HasEnd(ts[1..])
  {
    assert ts == [ts[0]] + ts[1..];
    HasEndJoin([ts[0]], ts[1..]);
    assert HasEnd([ts[0]]) <==> ts[0].End? by { assert ts[0] in [ts[0]]; }
  }

  /** Open, read from the front. */
  lemma OpenHead(ts: seq<Token>)
    requires ts != []
    ensures Open(ts) <==> (ts[0].Begin? && !HasEnd(ts[1..])) || Open(ts[1..])
  {
    var rest := ts[1..];
    if Open(ts) {
      var j :| 0 <= j < |ts| && ts[j].Begin? && !HasEnd(ts[j + 1..]);
      if j > 0 {
        assert rest[j - 1] == ts[j] && rest[j..] == ts[j + 1..];
        assert rest[j - 1].Begin? && !HasEnd(rest[j - 1 + 1..]);
      }
    }
    if Open(rest) {
      var j :| 0 <= j < |rest| && rest[j].Begin? && !HasEnd(rest[j + 1..]);
      assert ts[j + 1] == rest[j] && ts[j + 1 + 1..] == rest[j + 1..];
    }
  }

  lemma {:induction false} AfterEndJoin(a: seq<Token>, b: seq<Token>)
    ensures AfterEnd(a + b) == if HasEnd(a) then AfterEnd(a) + b else AfterEnd(b)
  {
    if a == [] {
      assert a + b == b;
    } else {
      HasEndHead(a);
      AfterEndJoin(a[1..], b);
      assert (a + b)[0] == a[0] && (a + b)[1..] == a[1..] + b;
    }
  }

  /** After the END of a block that was open, a text is open when what follows is. */
  lemma {:induction false} OpenAfterEnd(ts: seq<Token>)
    requires HasEnd(ts)
    ensures Open(ts) <==> Open(AfterEnd(ts))
  {
    HasEndHead(ts);
    OpenHead(ts);
    if !ts[0].End? {
      OpenAfterEnd(ts[1..]);
    }
  }

  lemma MaskHead(t: Token, rest: seq<Token>)
    ensures Mask([t] + rest) == if t.Begin? then [Block] + Mask(AfterEnd(rest)) else [Shown(t)] + Mask(rest)
  {
    hide AfterEnd;
    assert ([t] + rest)[1..] == rest;
  }

  lemma Regroup(p: Piece, a: seq<Piece>, b: seq<Piece>)
    ensures [p] + (a + b) == [p] + a + b
  {
  }

  /** Cutting anywhere: what an open block hides of the second part is dropped up to its END. */
  lemma {:induction false} MaskJoin(a: seq<Token>, b: seq<Token>)
    ensures Mask(a + b) == Mask(a) + Mask(if Open(a) then AfterEnd(b) else b)
    decreases |a|
  {
    hide Open, HasEnd, AfterEnd, Mask;
    NothingOpen();
    if a == [] {
      assert a + b == b && [] + Mask(b) == Mask(b);
    } else {
      var t, rest := a[0], a[1..];
      assert a == [t] + rest && a + b == [t] + (rest + b);
      OpenHead(a);
      MaskHead(t, rest);
      MaskHead(t, rest + b);
      var next := if Open(a) then AfterEnd(b) else b;
      if !t.Begin? {
        MaskJoin(rest, b);
        Regroup(Shown(t), Mask(rest), Mask(next));
      } else {
        AfterEndJoin(rest, b);
        if HasEnd(rest) {
          AfterEndShorter(rest);
          MaskJoin(AfterEnd(rest), b);
          OpenAfterEnd(rest);
          Regroup(Block, Mask(AfterEnd(rest)), Mask(next));
        } else {
          NoEndEmpty(rest);
          Regroup(Block, [], Mask(next));
        }
      }
    }
  }

  lemma NothingOpen()
    ensures !Open([]) && AfterEnd([]) == [] && Mask([]) == []
  {
  }

  lemma {:induction false} NoEndEmpty(ts: seq<Token>)
    requires !HasEnd(ts)
    ensures AfterEnd(ts) == []
  {
    if ts != [] {
      HasEndHead(ts);
      NoEndEmpty(ts[1..]);
    }
  }

  /** Open, when the text goes on. */
  lemma {:induction false} OpenJoin(a: seq<Token>, b: seq<Token>)
    ensures Open(a + b) <==> Open(b) || (Open(a) && !HasEnd(b))
  {
    if a == [] {
      assert a + b == b;
    } else {
      assert (a + b)[0] == a[0] && (a + b)[1..] == a[1..] + b;
      OpenHead(a + b);
      OpenHead(a);
      OpenJoin(a[1..], b);
      HasEndJoin(a[1..], b);
      if !HasEnd(b) { NoEndKeepsBegin(b); }
    }
  }

  lemma {:induction false} NoEndKeepsBegin(b: seq<Token>)
    requires !HasEnd(b)
    ensures HasBegin(b) ==> Open(b)
  {
    if b != [] {
      HasEndHead(b);
      OpenHead(b);
      assert b == [b[0]] + b[1..];
      HasEndJoin([b[0]], b[1..]);
      NoEndKeepsBegin(b[1..]);
    }
  }

  lemma ShownHead(p: Piece, rest: seq<Piece>)
    ensures ShownTokens([p] + rest) == (if p.Shown? then [p.token] else []) + ShownTokens(rest)
  {
    assert ([p] + rest)[1..] == rest;
  }

  lemma {:induction false} ShownJoin(a: seq<Piece>, b: seq<Piece>)
    ensures ShownTokens(a + b) == ShownTokens(a) + ShownTokens(b)
  {
    hide ShownTokens;
    if a == [] {
      assert a + b == b;
      NothingShown();
      assert [] + ShownTokens(b) == ShownTokens(b);
    } else {
      var p, rest := a[0], a[1..];
      assert a == [p] + rest && a + b == [p] + (rest + b);
      ShownJoin(rest, b);
      ShownHead(p, rest);
      ShownHead(p, rest + b);
      var own := if p.Shown? then [p.token] else [];
      assert own + (ShownTokens(rest) + ShownTokens(b)) == own + ShownTokens(rest) + ShownTokens(b);
    }
  }

  lemma NothingShown()
    ensures ShownTokens([]) == []
  {
  }

  /** Masking shows exactly the tokens outside every block. */
  lemma {:induction false} MaskShowsVisible(ts: seq<Token>)
    ensures ShownTokens(Mask(ts)) == Visible(ts)
  {
    if ts != [] {
      var n := |ts| - 1;
      var a, b := ts[..n], [ts[n]];
      assert ts == a + b;
      MaskJoin(a, b);
      MaskShowsVisible(a);
      ShownJoin(Mask(a), Mask(if Open(a) then AfterEnd(b) else b));
      OneToken(ts[n]);
    }
  }

  /** What masking shows, token by token: a block's mark where it begins, nothing of the rest of it, and all else. */
  function Expected(ts: seq<Token>): seq<Piece> {
    if ts == [] then []
    else
      var n := |ts| - 1;
      Expected(ts[..n]) + if Open(ts[..n]) then [] else if ts[n].Begin? then [Block] else [Shown(ts[n])]
  }

  /** Each block becomes one mark, where it begins, and nothing else changes. */
  lemma {:induction false} MaskExactly(ts: seq<Token>)
    ensures Mask(ts) == Expected(ts)
  {
    hide Open;
    if ts == [] {
      NothingOpen();
    } else {
      var n := |ts| - 1;
      var a, t := ts[..n], ts[n];
      assert ts == a + [t];
      MaskJoin(a, [t]);
      MaskExactly(a);
      OneMask(t);
    }
  }

  lemma OneMask(t: Token)
    ensures AfterEnd([t]) == [] && Mask([]) == []
    ensures Mask([t]) == if t.Begin? then [Block] else [Shown(t)]
  {
    assert [t][1..] == [] && AfterEnd([]) == [] && Mask([]) == [];
    assert [Block] + [] == [Block] && [Shown(t)] + [] == [Shown(t)];
  }

  lemma OneToken(t: Token)
    ensures AfterEnd([t]) == []
    ensures ShownTokens(Mask([t])) == if t.Begin? then [] else [t]
    ensures ShownTokens(Mask([])) == []
  {
    assert [t][1..] == [];
    assert AfterEnd([]) == [] && Mask([]) == [];
    assert t.Begin? ==> Mask([t]) == [Block] + [];
    assert !t.Begin? ==> Mask([t]) == [Shown(t)] + [];
  }

  // ----- the stream -----

  /** Where the last token of a kind is, or -1. */
  function LastBegin(ts: seq<Token>): int {
    if ts == [] then -1 else if ts[|ts| - 1].Begin? then |ts| - 1 else LastBegin(ts[..|ts| - 1])
  }

  function LastEnd(ts: seq<Token>): int {
    if ts == [] then -1 else if ts[|ts| - 1].End? then |ts| - 1 else LastEnd(ts[..|ts| - 1])
  }

  /** A text is open when its last BEGIN is after its last END. */
  lemma {:induction false} LastSaysOpen(ts: seq<Token>)
    ensures Open(ts) <==> LastBegin(ts) > LastEnd(ts)
    ensures -1 <= LastBegin(ts) < |ts| && -1 <= LastEnd(ts) < |ts|
    ensures HasEnd(ts) <==> LastEnd(ts) >= 0
    ensures HasBegin(ts) <==> LastBegin(ts) >= 0
  {
    if ts != [] {
      var n := |ts| - 1;
      var a, b := ts[..n], [ts[n]];
      assert ts == a + b;
      LastSaysOpen(a);
      OpenJoin(a, b);
      HasEndJoin(a, b);
      OpenOne(ts[n]);
    }
  }

  lemma OpenOne(t: Token)
    ensures Open([t]) <==> t.Begin?
    ensures HasEnd([t]) <==> t.End?
    ensures HasBegin([t]) <==> t.Begin?
  {
    OpenHead([t]);
    assert [t][1..] == [] && !HasEnd([]) && !Open([]);
    assert t in [t];
  }

  class Redactor {
    var inPrivateKey: bool
    ghost var seen: seq<Token>
    ghost var shown: seq<Piece>

    /** What has been shown is what masking the whole text so far shows. */
    ghost predicate Valid()
      reads this
    {
      inPrivateKey == Open(seen) && shown == Mask(seen)
    }

    constructor ()
      ensures Valid() && seen == [] && shown == []
    {
      inPrivateKey, seen, shown := false, [], [];
    }

    /** Stream redaction is whole-text redaction, wherever the text is cut. */
    method Redact(piece: seq<Token>) returns (out: seq<Piece>)
      requires Valid()
      modifies this
      ensures Valid() && seen == old(seen) + piece && shown == old(shown) + out
    {
      hide Open, HasEnd, Mask;
      MaskJoin(seen, piece);
      OpenJoin(seen, piece);
      var rest := piece;
      if inPrivateKey {
        var end := FirstEnd(piece);
        if end == |piece| {
          out := [];
          seen := seen + piece;
          NoEndEmpty(piece);
          EmptyMask();
          return;
        }
        inPrivateKey := false;
        rest := piece[end + 1..];
        OpenAfterEnd(piece);
      }
      var begin, end := LastOf(rest);
      LastSaysOpen(rest);
      if begin > end {
        inPrivateKey := true;
      }
      out := Mask(rest);
      seen, shown := seen + piece, shown + out;
    }
  }

  lemma EmptyMask()
    ensures Mask([]) == []
  {
  }

  /** The first END, or the length. */
  method FirstEnd(ts: seq<Token>) returns (at: nat)
    ensures at <= |ts|
    ensures at == |ts| <==> !HasEnd(ts)
    ensures at < |ts| ==> AfterEnd(ts) == ts[at + 1..]
  {
    at := 0;
    assert ts[0..] == ts;
    while at < |ts| && !ts[at].End?
      invariant at <= |ts| && (HasEnd(ts) <==> HasEnd(ts[at..])) && AfterEnd(ts) == AfterEnd(ts[at..])
    {
      HasEndHead(ts[at..]);
      assert ts[at..][1..] == ts[at + 1..];
      at := at + 1;
    }
    if at < |ts| {
      assert ts[at] in ts;
      assert ts[at..][1..] == ts[at + 1..];
    }
  }

  method LastOf(ts: seq<Token>) returns (begin: int, end: int)
    ensures begin == LastBegin(ts) && end == LastEnd(ts)
  {
    begin, end := -1, -1;
    for i := 0 to |ts|
      invariant begin == LastBegin(ts[..i]) && end == LastEnd(ts[..i])
    {
      assert ts[..i + 1][..i] == ts[..i];
      if ts[i].Begin? {
        begin := i;
      } else if ts[i].End? {
        end := i;
      }
    }
    assert ts[..|ts|] == ts;
  }

  /** Every way to cut a text gives the whole-text answer. */
  method RedactAll(pieces: seq<seq<Token>>) returns (out: seq<Piece>)
    ensures out == Mask(Joined(pieces))
  {
    var r := new Redactor();
    out := [];
    for i := 0 to |pieces|
      invariant fresh(r) && r.Valid() && r.seen == Joined(pieces[..i]) && r.shown == out
    {
      var shown := r.Redact(pieces[i]);
      out := out + shown;
      assert pieces[..i + 1][..i] == pieces[..i];
    }
    assert pieces[..|pieces|] == pieces;
  }

  function Joined(pieces: seq<seq<Token>>): seq<Token> {
    if pieces == [] then [] else Joined(pieces[..|pieces| - 1]) + pieces[|pieces| - 1]
  }

  // ----- whole lines -----

  /** A line that ends one block and then opens another. */
  predicate Reopens(line: seq<Token>) {
    HasEnd(line) && Open(line)
  }

  /** The flag after a line: inside a block only an END clears it, outside only a BEGIN with no END sets it. */
  function FlagAfter(inKey: bool, line: seq<Token>): bool {
    if inKey then !HasEnd(line) else HasBegin(line) && !HasEnd(line)
  }

  /** The flag after these lines, from the start of the stream. */
  function Flag(lines: seq<seq<Token>>): bool {
    if lines == [] then false else FlagAfter(Flag(lines[..|lines| - 1]), lines[|lines| - 1])
  }

  /** One line keeps the flag right exactly when it does not reopen a block. */
  lemma FlagStaysRight(seen: seq<Token>, line: seq<Token>)
    ensures FlagAfter(Open(seen), line) == Open(seen + line) <==> !Reopens(line)
  {
    hide Open, HasEnd, HasBegin;
    LastSaysOpen(line);
    OpenJoin(seen, line);
  }

  predicate SomeReopens(lines: seq<seq<Token>>) {
    exists i :: 0 <= i < |lines| && Reopens(lines[i])
  }

  predicate RightThroughout(lines: seq<seq<Token>>) {
    forall k: nat :: k <= |lines| ==> Flag(lines[..k]) == Open(Joined(lines[..k]))
  }

  /** Over a whole stream of lines the flag is right after every line if and only if no line ends a block and opens another. */
  lemma {:induction false} RightExactly(lines: seq<seq<Token>>)
    ensures RightThroughout(lines) <==> !SomeReopens(lines)
  {
    hide Open, Reopens, FlagAfter;
    if lines == [] {
      NothingOpen();
      assert lines[..0] == [];
    } else {
      var n := |lines| - 1;
      var before, line := lines[..n], lines[n];
      RightExactly(before);
      FlagStaysRight(Joined(before), line);
      assert lines[..n + 1] == lines;
      forall k: nat | k <= n ensures lines[..k] == before[..k] {
      }
      assert SomeReopens(lines) <==> SomeReopens(before) || Reopens(line) by {
        if SomeReopens(before) {
          var i :| 0 <= i < |before| && Reopens(before[i]);
          assert Reopens(lines[i]);
        }
        if SomeReopens(lines) {
          var i :| 0 <= i < |lines| && Reopens(lines[i]);
          if i < n { assert Reopens(before[i]); }
        }
      }
      assert RightThroughout(lines) <==> RightThroughout(before) && Flag(lines) == Open(Joined(lines)) by {
        if RightThroughout(lines) {
          assert forall k: nat :: k <= n ==> Flag(lines[..k]) == Open(Joined(lines[..k]));
        }
      }
      if RightThroughout(before) {
        assert before[..n] == before;
        assert Flag(before) == Open(Joined(before));
      }
    }
  }

  class LineRedactor {
    var inPrivateKey: bool

    constructor ()
      ensures !inPrivateKey
    {
      inPrivateKey := false;
    }

    /** A line shown masked, or hidden whole when it starts, or leaves, a block open. */
    method Line(line: seq<Token>) returns (hidden: bool)
      modifies this
      ensures inPrivateKey == FlagAfter(old(inPrivateKey), line)
      ensures hidden == (old(inPrivateKey) || inPrivateKey)
    {
      hide Open, HasEnd, HasBegin;
      var begin, end := LastOf(line);
      LastSaysOpen(line);
      if inPrivateKey {
        if end >= 0 {
          inPrivateKey := false;
        }
        return true;
      }
      if begin >= 0 && end < 0 {
        inPrivateKey := true;
        return true;
      }
      return false;
    }
  }

  /** A line is hidden when the flag is set before it or after it. */
  predicate HiddenAt(lines: seq<seq<Token>>, k: nat)
    requires k < |lines|
  {
    Flag(lines[..k]) || Flag(lines[..k + 1])
  }

  /** A stream of lines: while no line reopens a block, every line that starts inside one is hidden. */
  method RedactLines(lines: seq<seq<Token>>) returns (hidden: seq<bool>)
    ensures |hidden| == |lines| && forall k :: 0 <= k < |lines| ==> hidden[k] == HiddenAt(lines, k)
    ensures !SomeReopens(lines) ==> forall k :: 0 <= k < |lines| && Open(Joined(lines[..k])) ==> hidden[k]
  {
    hide Open, FlagAfter, SomeReopens;
    var r := new LineRedactor();
    hidden := [];
    for i := 0 to |lines|
      invariant fresh(r) && r.inPrivateKey == Flag(lines[..i]) && |hidden| == i
      invariant forall k :: 0 <= k < i ==> hidden[k] == HiddenAt(lines, k)
    {
      assert lines[..i + 1][..i] == lines[..i];
      var h := r.Line(lines[i]);
      hidden := hidden + [h];
    }
    RightExactly(lines);
  }
}
