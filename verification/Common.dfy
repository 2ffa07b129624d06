/** Small shared helpers. */
module Common {

  datatype Option<+T> = None | Some(value: T)

  function Max(x: int, y: int): int {
    if x >= y then x else y
  }

  /** What JavaScript's `\s` matches. */
  predicate Space(c: char) {
    c in "\t\n\U{b}\U{c}\r \U{a0}\U{1680}\U{2028}\U{2029}\U{202f}\U{205f}\U{3000}\U{feff}" || '\U{2000}' <= c <= '\U{200a}'
  }

  /** The parts joined with nothing between them. */
  function Concat(parts: seq<string>): string {
    if parts == [] then "" else parts[0] + Concat(parts[1..])
  }

  lemma {:induction false} ConcatAppend(xs: seq<string>, ys: seq<string>)
    ensures Concat(xs + ys) == Concat(xs) + Concat(ys)
  {
    if xs == [] {
      assert xs + ys == ys;
    } else {
      ConcatAppend(xs[1..], ys);
      assert (xs + ys)[0] == xs[0] && (xs + ys)[1..] == xs[1..] + ys;
      Associative(xs[0], Concat(xs[1..]), Concat(ys));
    }
  }

  lemma Associative<T>(a: seq<T>, b: seq<T>, c: seq<T>)
    ensures a + (b + c) == a + b + c
  {
  }

  lemma ConcatOne(x: string)
    ensures Concat([x]) == x
  {
  }

  /** JavaScript's `slice`: what there is of the range. */
  function Slice(s: string, from: nat, to: nat): string {
    if from < to <= |s| then s[from..to] else if from < |s| < to then s[from..] else ""
  }

  function BeforeFirst(s: string, c: char): string {
    if s == "" || s[0] == c then "" else [s[0]] + BeforeFirst(s[1..], c)
  }

  function AfterFirst(s: string, c: char): string {
    if s == "" then "" else if s[0] == c then s[1..] else AfterFirst(s[1..], c)
  }

  /** A text cut at the first `c`. */
  lemma {:induction false} CutAt(a: string, c: char, b: string)
    requires c !in a
    ensures BeforeFirst(a + [c] + b, c) == a && AfterFirst(a + [c] + b, c) == b && c in a + [c] + b
    ensures BeforeFirst(a, c) == a && AfterFirst(a, c) == ""
  {
    var s := a + [c] + b;
    assert s[|a|] == c;
    if a == "" {
      assert s[1..] == b;
    } else {
      CutAt(a[1..], c, b);
      assert s[0] == a[0] && s[1..] == a[1..] + [c] + b;
    }
  }

  lemma PrefixAgrees(p: string, w: string, k: nat)
    requires k < |p|
    ensures p <= w ==> k < |w| && w[k] == p[k]
  {
  }
}
