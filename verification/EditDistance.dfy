/** The typo distance of the shared search (packages/shared/src/search.ts). */
module EditDistance {

  function Min(x: int, y: int): int {
    if x <= y then x else y
  }

  /** The limit a caller sets; the default is no limit at all. */
  datatype Bound = Unlimited | AtMost(max: int)
  {
    predicate Allows(n: int) {
      Unlimited? || n <= max
    }
  }

  // ----- what the distance means: the cheapest way to edit one text into the other -----

  /** One step of a left-to-right edit. No character is edited twice, as in optimal string alignment. */
  datatype Edit = Keep(c: char) | Substitute(from: char, to: char) | Insert(c: char) | Delete(c: char) | Swap(first: char, second: char)
  {
    function Source(): string {
      match this
      case Keep(c) => [c]
      case Substitute(x, _) => [x]
      case Insert(_) => []
      case Delete(c) => [c]
      case Swap(x, y) => [x, y]
    }

    function Target(): string {
      match this
      case Keep(c) => [c]
      case Substitute(_, y) => [y]
      case Insert(c) => [c]
      case Delete(_) => []
      case Swap(x, y) => [y, x]
    }

    function Cost(): nat {
      if Keep? then 0 else 1
    }
  }

  datatype Script = Start | Then(before: Script, last: Edit)
  {
    function Source(): string {
      if Start? then [] else before.Source() + last.Source()
    }

    function Target(): string {
      if Start? then [] else before.Target() + last.Target()
    }

    function Cost(): nat {
      if Start? then 0 else before.Cost() + last.Cost()
    }
  }

  // ----- the recursive distance -----

  predicate EndsSwapped(a: string, b: string) {
    |a| > 1 && |b| > 1 && a[|a| - 1] == b[|b| - 2] && a[|a| - 2] == b[|b| - 1]
  }

  function Distance(a: string, b: string): nat
    decreases |a| + |b|
  {
    if |a| == 0 then |b|
    else if |b| == 0 then |a|
    else
      var a', b' := a[..|a| - 1], b[..|b| - 1];
      var cost := if a[|a| - 1] == b[|b| - 1] then 0 else 1;
      var best: nat := Min(Min(Distance(a', b) + 1, Distance(a, b') + 1), Distance(a', b') + cost);
      if EndsSwapped(a, b) then Min(best, Distance(a[..|a| - 2], b[..|b| - 2]) + 1) else best
  }

  /** No edit script is cheaper than the distance. */
  lemma {:induction false} NoScriptIsCheaper(s: Script)
    ensures Distance(s.Source(), s.Target()) <= s.Cost()
  {
    if s.Then? {
      NoScriptIsCheaper(s.before);
      var a, b := s.Source(), s.Target();
      var a', b' := s.before.Source(), s.before.Target();
      assert a[..|a'|] == a' && b[..|b'|] == b';
      match s.last
      case Swap(x, y) => assert EndsSwapped(a, b);
      case Insert(c) => assert a == a';
      case Delete(c) => assert b == b';
      case _ =>
    }
  }

  ghost predicate Edits(s: Script, a: string, b: string, cost: nat) {
    s.Source() == a && s.Target() == b && s.Cost() == cost
  }

  lemma Extend(t: Script, a: string, b: string, cost: nat, e: Edit)
    requires Edits(t, a, b, cost)
    ensures Edits(Then(t, e), a + e.Source(), b + e.Target(), cost + e.Cost())
  {
  }

  /** Some edit script costs exactly the distance. */
  lemma {:induction false} CheapestScript(a: string, b: string) returns (s: Script)
    ensures Edits(s, a, b, Distance(a, b))
    decreases |a| + |b|
  {
    if |a| == 0 && |b| == 0 {
      s := Start;
    } else {
      var a', b', e := LastEdit(a, b);
      var t := CheapestScript(a', b');
      Extend(t, a', b', Distance(a', b'), e);
      s := Then(t, e);
    }
  }

  /** Which term of the recurrence is the least. */
  lemma LeastTerm(a: string, b: string)
    requires |a| > 0 && |b| > 0
    ensures || Distance(a, b) == Distance(a[..|a| - 1], b) + 1
            || Distance(a, b) == Distance(a, b[..|b| - 1]) + 1
            || Distance(a, b) == Distance(a[..|a| - 1], b[..|b| - 1]) + (if a[|a| - 1] == b[|b| - 1] then 0 else 1)
            || (EndsSwapped(a, b) && Distance(a, b) == Distance(a[..|a| - 2], b[..|b| - 2]) + 1)
  {
  }

  lemma SplitLast(s: string)
    ensures |s| > 0 ==> s == s[..|s| - 1] + [s[|s| - 1]]
    ensures |s| > 1 ==> s == s[..|s| - 2] + [s[|s| - 2], s[|s| - 1]]
  {
  }

  /** The last edit of a cheapest script, and what is left to edit before it. */
  lemma LastEdit(a: string, b: string) returns (a': string, b': string, e: Edit)
    requires |a| + |b| > 0
    ensures |a'| + |b'| < |a| + |b|
    ensures a == a' + e.Source() && b == b' + e.Target()
    ensures Distance(a, b) == Distance(a', b') + e.Cost()
  {
    SplitLast(a);
    SplitLast(b);
    if |b| == 0 {
      a', b', e := a[..|a| - 1], b, Delete(a[|a| - 1]);
    } else if |a| == 0 {
      a', b', e := a, b[..|b| - 1], Insert(b[|b| - 1]);
    } else {
      a', b', e := LastEditOfPair(a, b);
    }
  }

  lemma LastEditOfPair(a: string, b: string) returns (a': string, b': string, e: Edit)
    requires |a| > 0 && |b| > 0
    ensures |a'| + |b'| < |a| + |b|
    ensures a == a' + e.Source() && b == b' + e.Target()
    ensures Distance(a, b) == Distance(a', b') + e.Cost()
  {
    hide Distance;
    SplitLast(a);
    SplitLast(b);
    LeastTerm(a, b);
    var x, y := a[|a| - 1], b[|b| - 1];
    if Distance(a, b) == Distance(a[..|a| - 1], b) + 1 {
      a', b', e := a[..|a| - 1], b, Delete(x);
    } else if Distance(a, b) == Distance(a, b[..|b| - 1]) + 1 {
      a', b', e := a, b[..|b| - 1], Insert(y);
    } else if Distance(a, b) == Distance(a[..|a| - 1], b[..|b| - 1]) + (if x == y then 0 else 1) {
      a', b', e := a[..|a| - 1], b[..|b| - 1], if x == y then Keep(x) else Substitute(x, y);
    } else {
      a', b', e := a[..|a| - 2], b[..|b| - 2], Swap(y, x);
    }
  }

  /** So the recursive distance is the least cost of turning `a` into `b`. */
  lemma DistanceIsLeastCost(a: string, b: string)
    ensures exists s :: Edits(s, a, b, Distance(a, b))
    ensures forall s: Script :: s.Source() == a && s.Target() == b ==> Distance(a, b) <= s.Cost()
  {
    var cheapest := CheapestScript(a, b);
    forall s: Script | s.Source() == a && s.Target() == b ensures Distance(a, b) <= s.Cost() {
      NoScriptIsCheaper(s);
    }
  }

  // ----- why the two early exits are right -----

  /** The distance is at least the difference in length. */
  lemma {:induction false} LengthBound(a: string, b: string)
    ensures Distance(a, b) >= |a| - |b|
    ensures Distance(a, b) >= |b| - |a|
    decreases |a| + |b|
  {
    if |a| > 0 && |b| > 0 {
      LengthBound(a[..|a| - 1], b);
      LengthBound(a, b[..|b| - 1]);
      LengthBound(a[..|a| - 1], b[..|b| - 1]);
      if EndsSwapped(a, b) {
        LengthBound(a[..|a| - 2], b[..|b| - 2]);
      }
    }
  }

  /** The distance between the first `i` characters of `a` and the first `j` of `b`. */
  function Cell(a: string, b: string, i: nat, j: nat): nat
    requires i <= |a| && j <= |b|
  {
    Distance(a[..i], b[..j])
  }

  lemma FirstCell(a: string, b: string, i: nat)
    requires i <= |a|
    ensures Cell(a, b, i, 0) == i
  {
    assert |a[..i]| == i && b[..0] == "";
  }

  /** The recurrence the rolling rows follow, on prefixes. */
  lemma CellStep(a: string, b: string, i: nat, j: nat)
    requires 0 < i <= |a| && 0 < j <= |b|
    ensures var cost := if a[i - 1] == b[j - 1] then 0 else 1;
            var best := Min(Min(Cell(a, b, i - 1, j) + 1, Cell(a, b, i, j - 1) + 1), Cell(a, b, i - 1, j - 1) + cost);
            Cell(a, b, i, j) ==
            if i > 1 && j > 1 && a[i - 1] == b[j - 2] && a[i - 2] == b[j - 1]
            then Min(best, Cell(a, b, i - 2, j - 2) + 1) else best
  {
    assert a[..i][..i - 1] == a[..i - 1] && b[..j][..j - 1] == b[..j - 1];
    if i > 1 && j > 1 {
      assert a[..i][..i - 2] == a[..i - 2] && b[..j][..j - 2] == b[..j - 2];
    }
  }

  /** Every cell of row `i` lies above `max`. */
  ghost predicate RowAbove(a: string, b: string, i: nat, max: int)
    requires i <= |a|
  {
    forall j: nat :: j <= |b| ==> Cell(a, b, i, j) > max
  }

  /**
   * A row above the limit puts the next one above it too. A transposition reaches back two rows, but
   * replacing its last letter instead costs no more, and that path crosses the row in between.
   */
  lemma {:induction false} CellAbove(a: string, b: string, i: nat, j: nat, max: int)
    requires i < |a| && j <= |b| && RowAbove(a, b, i, max)
    ensures Cell(a, b, i + 1, j) > max
    decreases j
  {
    assert Cell(a, b, i, j) > max;
    if j == 0 {
      assert a[..i + 1] != [] && b[..0] == [];
      assert Cell(a, b, i, 0) == i;
    } else {
      CellAbove(a, b, i, j - 1, max);
      assert Cell(a, b, i, j - 1) > max;
      CellStep(a, b, i + 1, j);
      if i > 0 && j > 1 {
        CellStep(a, b, i, j - 1);
      }
    }
  }

  /** Hence no row below it, and not the answer either, comes back under the limit. */
  lemma {:induction false} EarlyExit(a: string, b: string, i: nat, max: int)
    requires i <= |a| && RowAbove(a, b, i, max)
    ensures Distance(a, b) > max
    decreases |a| - i
  {
    if i < |a| {
      assert RowAbove(a, b, i + 1, max) by {
        forall j: nat | j <= |b| ensures Distance(a[..i + 1], b[..j]) > max {
          CellAbove(a, b, i, j, max);
        }
      }
      EarlyExit(a, b, i + 1, max);
    } else {
      assert a[..i] == a && b[..|b|] == b;
      assert Cell(a, b, i, |b|) == Distance(a, b);
    }
  }

  ghost predicate IsRow(row: seq<int>, a: string, b: string, i: nat, n: nat)
    requires i <= |a| && n <= |b| + 1
  {
    |row| == n && forall j: nat :: j < n ==> row[j] == Cell(a, b, i, j)
  }

  ghost predicate IsLeast(least: int, row: seq<int>) {
    least in row && forall v :: v in row ==> least <= v
  }

  lemma LeastOfLonger(least: int, row: seq<int>, v: int)
    requires IsLeast(least, row)
    ensures IsLeast(Min(least, v), row + [v])
  {
    assert v == (row + [v])[|row|];
  }

  lemma RowAboveIffLeast(a: string, b: string, i: nat, row: seq<int>, least: int)
    requires i <= |a| && IsRow(row, a, b, i, |b| + 1) && IsLeast(least, row)
    ensures forall max: int :: RowAbove(a, b, i, max) <==> least > max
  {
    forall max: int ensures RowAbove(a, b, i, max) <==> least > max {
      var k: nat :| k < |row| && row[k] == least;
      assert Cell(a, b, i, k) == least;
      forall j: nat | j <= |b| ensures Cell(a, b, i, j) >= least {
        assert row[j] in row;
      }
    }
  }

  /** One row of the table from the two before it, and its least entry. */
  method NextRow(a: string, b: string, i: nat, prevPrev: seq<int>, prev: seq<int>) returns (row: seq<int>, rowMin: int)
    requires 0 < i <= |a|
    requires IsRow(prev, a, b, i - 1, |b| + 1)
    requires i > 1 ==> IsRow(prevPrev, a, b, i - 2, |b| + 1)
    ensures IsRow(row, a, b, i, |b| + 1)
    ensures forall max: int :: RowAbove(a, b, i, max) <==> rowMin > max
  {
    hide Distance, RowAbove;
    row := [i];
    rowMin := i;
    FirstCell(a, b, i);
    for j := 1 to |b| + 1
      invariant IsRow(row, a, b, i, j)
      invariant IsLeast(rowMin, row)
    {
      var cost := if a[i - 1] == b[j - 1] then 0 else 1;
      var value := Min(Min(prev[j] + 1, row[j - 1] + 1), prev[j - 1] + cost);
      if i > 1 && j > 1 && a[i - 1] == b[j - 2] && a[i - 2] == b[j - 1] {
        value := Min(value, prevPrev[j - 2] + 1);
      }
      assert value == Cell(a, b, i, j) by {
        CellStep(a, b, i, j);
      }
      LeastOfLonger(rowMin, row, value);
      row := row + [value];
      rowMin := Min(rowMin, value);
    }
    RowAboveIffLeast(a, b, i, row, rowMin);
  }

  /** The distance when the limit allows it; otherwise some number the limit does not allow. */
  method EditDistance(a: string, b: string, bound: Bound) returns (r: int)
    ensures bound.Allows(r) <==> bound.Allows(Distance(a, b))
    ensures bound.Allows(r) ==> r == Distance(a, b)
  {
    LengthBound(a, b);
    var gap := if |a| >= |b| then |a| - |b| else |b| - |a|;
    if bound.AtMost? && gap > bound.max {
      return bound.max + 1;
    }
    var prevPrev: seq<int> := [];
    var prev := seq(|b| + 1, j => j);
    assert IsRow(prev, a, b, 0, |b| + 1) by {
      forall j: nat | j < |b| + 1 ensures prev[j] == Cell(a, b, 0, j) {
        assert a[..0] == [];
      }
    }
    for i := 1 to |a| + 1
      invariant IsRow(prev, a, b, i - 1, |b| + 1)
      invariant i > 1 ==> IsRow(prevPrev, a, b, i - 2, |b| + 1)
    {
      var row, rowMin := NextRow(a, b, i, prevPrev, prev);
      if bound.AtMost? && rowMin > bound.max {
        EarlyExit(a, b, i, bound.max);
        return bound.max + 1;
      }
      prevPrev := prev;
      prev := row;
    }
    assert a[..|a|] == a && b[..|b|] == b;
    r := prev[|b|];
  }

  // ----- the caller -----

  /** How far a word of the text may be from a query word, by the query word's length. */
  function TypoBudget(length: nat): nat {
    if length < 4 then 0 else if length < 8 then 1 else 2
  }

  /** A word is near when the whole of it, or its start of the query word's length, is within the budget. */
  ghost predicate Near(token: string, word: string) {
    || Distance(token, word) <= TypoBudget(|token|)
    || (|word| > |token| && Distance(token, word[..|token|]) <= TypoBudget(|token|))
  }

  method HasNearWord(token: string, words: seq<string>) returns (near: bool)
    // Below four letters nothing is near; then one edit is, and from eight letters on two.
    ensures near <==>
              && |token| >= 4
              && exists w :: (&& w in words
                              && (|| Distance(token, w) <= (if |token| < 8 then 1 else 2)
                                  || (|w| > |token| && Distance(token, w[..|token|]) <= (if |token| < 8 then 1 else 2))))
  {
    var budget := TypoBudget(|token|);
    if budget == 0 {
      return false;
    }
    for k := 0 to |words|
      invariant forall w :: w in words[..k] ==> !Near(token, w)
    {
      var whole := EditDistance(token, words[k], AtMost(budget));
      if whole <= budget {
        assert words[k] in words && Near(token, words[k]);
        return true;
      }
      if |words[k]| > |token| {
        var start := EditDistance(token, words[k][..|token|], AtMost(budget));
        if start <= budget {
          assert words[k] in words && Near(token, words[k]);
          return true;
        }
      }
      assert words[..k + 1] == words[..k] + [words[k]];
    }
    assert words[..|words|] == words;
    near := false;
  }
}
