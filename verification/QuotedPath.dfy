/**
 * Git's C-style quoted names and the path of a `diff --git` header (packages/git/src/source-control.ts).
 * Text is its UTF-8 bytes, one character a byte.
 */
module QuotedPath {
  import opened Common

  /** The escape letter's byte. */
  function Escaped(c: char): Option<char> {
    match c
    case 'a' => Some(7 as char)
    case 'b' => Some(8 as char)
    case 't' => Some(9 as char)
    case 'n' => Some(10 as char)
    case 'v' => Some(11 as char)
    case 'f' => Some(12 as char)
    case 'r' => Some(13 as char)
    case '"' => Some('"')
    case '\\' => Some('\\')
    case _ => None
  }

  predicate Octal(c: char, top: char) {
    '0' <= c <= top
  }

  predicate OctalByte(s: string) {
    |s| >= 3 && Octal(s[0], '3') && Octal(s[1], '7') && Octal(s[2], '7')
  }

  function DigitOf(c: char): (n: nat)
    requires Octal(c, '7')
    ensures n < 8
  {
    c as int - '0' as int
  }

  function ByteOf(s: string): char
    requires OctalByte(s)
  {
    (64 * DigitOf(s[0]) + 8 * DigitOf(s[1]) + DigitOf(s[2])) as char
  }

  datatype Token = Token(value: string, rest: string)

  /** What follows the opening quote, up to the closing one. */
  function Body(s: string, value: string): Option<Token>
    decreases |s|
  {
    if s == "" then None
    else if s[0] == '"' then Some(Token(value, s[1..]))
    else if s[0] != '\\' then Body(s[1..], value + [s[0]])
    else if OctalByte(s[1..]) then Body(s[4..], value + [ByteOf(s[1..])])
    else if |s| > 1 && Escaped(s[1]).Some? then Body(s[2..], value + [Escaped(s[1]).value])
    else None
  }

  function Quoted(text: string): Option<Token> {
    if text == "" || text[0] != '"' then None else Body(text[1..], "")
  }

  /** One C-quoted token from the start of `text`. */
  method ReadQuoted(text: string) returns (token: Option<Token>)
    ensures token == Quoted(text)
  {
    if text == "" || text[0] != '"' {
      return None;
    }
    var bytes := "";
    var i := 1;
    while i < |text|
      invariant 1 <= i <= |text| && Quoted(text) == Body(text[i..], bytes)
    {
      var ch := text[i];
      assert text[i..][0] == ch && text[i..][1..] == text[i + 1..];
      if ch == '"' {
        return Some(Token(bytes, text[i + 1..]));
      }
      if ch == '\\' {
        assert |text[i..]| > 1 ==> text[i..][2..] == text[i + 2..] && text[i..][1] == text[i + 1];
        if OctalByte(text[i + 1..]) {
          assert text[i..][4..] == text[i + 4..];
          bytes := bytes + [ByteOf(text[i + 1..])];
          i := i + 3;
        } else if i + 1 < |text| && Escaped(text[i + 1]).Some? {
          bytes := bytes + [Escaped(text[i + 1]).value];
          i := i + 1;
        } else {
          return None;
        }
      } else {
        bytes := bytes + [ch];
      }
      i := i + 1;
    }
    return None;
  }

  // ----- how Git quotes -----

  function DigitChar(n: nat): char
    requires n < 8
  {
    ('0' as int + n) as char
  }

  function OctalOf(b: nat): string
    requires b < 256
  {
    [DigitChar(b / 64), DigitChar(b / 8 % 8), DigitChar(b % 8)]
  }

  function Letter(c: char): Option<char> {
    match c as int
    case 7 => Some('a')
    case 8 => Some('b')
    case 9 => Some('t')
    case 10 => Some('n')
    case 11 => Some('v')
    case 12 => Some('f')
    case 13 => Some('r')
    case 34 => Some('"')
    case 92 => Some('\\')
    case _ => None
  }

  predicate IsByte(c: char) {
    c as int < 256
  }

  predicate Bytes(s: string) {
    forall i :: 0 <= i < |s| ==> IsByte(s[i])
  }

  /** A byte as Git writes it inside quotes; bytes past ASCII only when `core.quotePath` is on. */
  function QuoteByte(c: char, quotePath: bool): string
    requires IsByte(c)
  {
    if Letter(c).Some? then ['\\', Letter(c).value]
    else if c < ' ' || c as int == 127 || (quotePath && c as int >= 128) then "\\" + OctalOf(c as int)
    else [c]
  }

  function QuoteBytes(name: string, quotePath: bool): string
    requires Bytes(name)
  {
    if name == "" then "" else QuoteByte(name[0], quotePath) + QuoteBytes(name[1..], quotePath)
  }

  function QuoteName(name: string, quotePath: bool): string
    requires Bytes(name)
  {
    "\"" + QuoteBytes(name, quotePath) + "\""
  }

  lemma OctalReads(b: nat, more: string)
    requires b < 256
    ensures OctalByte(OctalOf(b) + more) && ByteOf(OctalOf(b) + more) == b as char
  {
  }

  lemma ByteReads(c: char, quotePath: bool, more: string, value: string)
    requires IsByte(c)
    ensures Body(QuoteByte(c, quotePath) + more, value) == Body(more, value + [c])
  {
    hide OctalOf, OctalByte, ByteOf;
    var q := QuoteByte(c, quotePath);
    var s := q + more;
    assert s[|q|..] == more;
    if Letter(c).Some? {
      assert s[0] == '\\' && s[1] == Letter(c).value;
      LetterIsNoDigit(c, s);
    } else if q != [c] {
      OctalReads(c as int, more);
      assert s[1..] == OctalOf(c as int) + more;
      OctalLength(c as int);
      assert s[4..] == more;
    }
  }

  lemma OctalLength(b: nat)
    requires b < 256
    ensures |OctalOf(b)| == 3
  {
  }

  lemma LetterIsNoDigit(c: char, s: string)
    requires Letter(c).Some? && |s| > 1 && s[1] == Letter(c).value
    ensures !OctalByte(s[1..]) && Escaped(s[1]) == Some(c)
  {
  }

  lemma {:induction false} BytesRead(name: string, quotePath: bool, more: string, value: string)
    requires Bytes(name)
    ensures Body(QuoteBytes(name, quotePath) + more, value) == Body(more, value + name)
    decreases |name|
  {
    hide QuoteByte, Body;
    if name == "" {
      assert QuoteBytes(name, quotePath) + more == more && value + name == value;
    } else {
      var rest := QuoteBytes(name[1..], quotePath);
      ByteReads(name[0], quotePath, rest + more, value);
      assert QuoteBytes(name, quotePath) + more == QuoteByte(name[0], quotePath) + (rest + more);
      BytesRead(name[1..], quotePath, more, value + [name[0]]);
      assert value + [name[0]] + name[1..] == value + name;
    }
  }

  /** Reading inverts Git's quoting, whatever follows the closing quote. */
  lemma QuotedReadsBack(name: string, quotePath: bool, rest: string)
    requires Bytes(name)
    ensures Quoted(QuoteName(name, quotePath) + rest) == Some(Token(name, rest))
  {
    var body := QuoteBytes(name, quotePath);
    var text := QuoteName(name, quotePath) + rest;
    assert text[0] == '"' && text[1..] == body + ("\"" + rest);
    BytesRead(name, quotePath, "\"" + rest, "");
    assert ("\"" + rest)[0] == '"' && ("\"" + rest)[1..] == rest;
    assert "" + name == name;
  }

  // ----- a header's path -----

  const HEADER := "diff --git "

  predicate Break(c: char) {
    c == '\n' || c == '\r' || c == '\U{2028}' || c == '\U{2029}'
  }

  /** The first place where ` "b/` starts a token that runs to the end of the text. */
  function QuotedSecond(rest: string, i: nat): Option<nat>
    decreases |rest| - i
  {
    if i + 5 > |rest| then None
    else if rest[i..i + 4] == " \"b/" && rest[|rest| - 1] == '"' && (forall c :: c in rest[i + 4..] ==> !Break(c)) then Some(i)
    else QuotedSecond(rest, i + 1)
  }

  /** The last ` b/` with something before and after it. */
  function LastSide(rest: string, i: nat): Option<nat> {
    if i == 0 then None
    else if i + 3 < |rest| && i >= 3 && rest[i..i + 3] == " b/" then Some(i)
    else LastSide(rest, i - 1)
  }

  function SameName(rest: string): bool {
    |rest| > 5 && (|rest| - 5) % 2 == 0
    && var n := (|rest| - 5) / 2;
       rest[..2] == "a/" && rest[2 + n..5 + n] == " b/" && rest[2..2 + n] == rest[5 + n..]
  }

  /** The new side when the first side is quoted. */
  function SecondSide(afterFirst: string): Option<string> {
    var after := if " " <= afterFirst then afterFirst[1..] else afterFirst;
    var token := Quoted(after);
    var second := if token.Some? then token.value.value else after;
    if "b/" <= second then Some(second[2..]) else None
  }

  /** The new side when the names differ and the first is not quoted. */
  function OtherSide(rest: string): Option<string> {
    var at := QuotedSecond(rest, 0);
    if at.Some? && at.value < |rest| then
      var token := Quoted(rest[at.value + 1..]);
      if token.Some? then Some(Slice(token.value.value, 2, |token.value.value|)) else None
    else
      var side := LastSide(rest, |rest|);
      if side.Some? && side.value + 3 <= |rest| && "a/" <= rest && (forall c :: c in rest ==> !Break(c)) then Some(rest[side.value + 3..])
      else None
  }

  function SidesPath(rest: string): Option<string> {
    var first := Quoted(rest);
    if first.Some? then SecondSide(first.value.rest)
    else if SameName(rest) then Some(rest[5 + (|rest| - 5) / 2..])
    else OtherSide(rest)
  }

  function HeaderPath(line: string): Option<string> {
    if HEADER <= line then SidesPath(line[|HEADER|..]) else None
  }

  function QuoteSide(side: string, path: string, quotePath: bool): string
    requires Bytes(path) && Bytes(side)
  {
    QuoteName(side + path, quotePath)
  }

  /** Both sides of a file whose name is the same on both. */
  function Sides(path: string, quoted: bool, quotePath: bool): string
    requires Bytes(path)
  {
    if quoted then QuoteSide("a/", path, quotePath) + " " + QuoteSide("b/", path, quotePath) else "a/" + path + " b/" + path
  }

  lemma QuotedSides(path: string, quotePath: bool)
    requires Bytes(path)
    ensures SidesPath(Sides(path, true, quotePath)) == Some(path)
  {
    hide Quoted, QuoteName, SameName, OtherSide;
    var a, b := QuoteSide("a/", path, quotePath), QuoteSide("b/", path, quotePath);
    assert Sides(path, true, quotePath) == a + (" " + b);
    QuotedReadsBack("a/" + path, quotePath, " " + b);
    QuotedReadsBack("b/" + path, quotePath, "");
    assert (" " + b)[1..] == b && b + "" == b;
    assert ("b/" + path)[2..] == path && "b/" <= "b/" + path;
  }

  lemma PlainSides(path: string)
    requires Bytes(path) && path != ""
    ensures SidesPath(Sides(path, false, false)) == Some(path)
  {
    hide Quoted, SecondSide, OtherSide;
    var rest := Sides(path, false, false);
    NotQuoted(rest);
    var n := |path|;
    assert |rest| - 5 == 2 * n;
    assert rest[..2] == "a/" && rest[2..2 + n] == path && rest[2 + n..5 + n] == " b/" && rest[5 + n..] == path;
  }

  lemma NotQuoted(rest: string)
    requires rest != "" && rest[0] != '"'
    ensures Quoted(rest) == None
  {
  }

  /** A header that names a/P and b/P gives P, quoted or not, even when P holds ` b/`. */
  lemma HeaderGivesPath(path: string, quoted: bool, quotePath: bool)
    requires Bytes(path) && path != ""
    ensures HeaderPath(HEADER + Sides(path, quoted, quotePath)) == Some(path)
  {
    hide Sides, SidesPath, HEADER;
    var sides := Sides(path, quoted, quotePath);
    assert (HEADER + sides)[|HEADER|..] == sides;
    if quoted {
      QuotedSides(path, quotePath);
    } else {
      PlainSides(path);
      SameUnquoted(path, quotePath);
    }
  }

  lemma SameUnquoted(path: string, quotePath: bool)
    requires Bytes(path)
    ensures Sides(path, false, quotePath) == Sides(path, false, false)
  {
  }

  // ----- names that differ -----

  /** Inside quotes there is no line break, and every double quote has a backslash before it. */
  predicate WellQuoted(body: string) {
    && (forall i :: 0 <= i < |body| ==> !Break(body[i]))
    && (forall i :: 0 <= i < |body| && body[i] == '"' ==> i > 0 && body[i - 1] == '\\')
  }

  lemma ByteWellQuoted(c: char, quotePath: bool)
    requires IsByte(c)
    ensures WellQuoted(QuoteByte(c, quotePath))
  {
  }

  lemma WellQuotedJoin(a: string, b: string)
    requires WellQuoted(a) && WellQuoted(b)
    ensures WellQuoted(a + b)
  {
  }

  lemma {:induction false} BodyWellQuoted(name: string, quotePath: bool)
    requires Bytes(name)
    ensures WellQuoted(QuoteBytes(name, quotePath))
  {
    hide QuoteByte, WellQuoted;
    if name == "" {
      NothingQuoted();
    } else {
      ByteWellQuoted(name[0], quotePath);
      BodyWellQuoted(name[1..], quotePath);
      WellQuotedJoin(QuoteByte(name[0], quotePath), QuoteBytes(name[1..], quotePath));
    }
  }

  lemma NothingQuoted()
    ensures WellQuoted("")
  {
  }

  lemma BodyStarts(name: string, quotePath: bool)
    requires Bytes(name)
    ensures var body := QuoteBytes("b/" + name, quotePath); |body| >= 2 && body[..2] == "b/"
  {
    var whole := "b/" + name;
    assert whole[0] == 'b' && whole[1..] == "/" + name;
    assert ("/" + name)[0] == '/' && ("/" + name)[1..] == name;
    assert QuoteBytes("/" + name, quotePath) == "/" + QuoteBytes(name, quotePath);
    assert QuoteBytes(whole, quotePath) == "b" + QuoteBytes("/" + name, quotePath);
  }

  /** The first place where a quoted side can start is where it does, as no plain name holds a double quote. */
  lemma {:induction false} QuotedSecondFound(before: string, body: string, i: nat)
    requires '"' !in before && i <= |before| && |body| >= 2 && body[..2] == "b/" && WellQuoted(body)
    ensures QuotedSecond(before + " \"" + body + "\"", i) == Some(|before|)
    decreases |before| - i
  {
    var rest := before + " \"" + body + "\"";
    assert rest[|rest| - 1] == '"';
    if i < |before| {
      assert rest[i..i + 4][1] == rest[i + 1];
      assert rest[i + 1] != '"';
      QuotedSecondFound(before, body, i + 1);
    } else {
      assert rest[i + 2..] == body + "\"";
      assert rest[i..i + 4] == " \"" + body[..2];
      assert rest[i + 4..] == body[2..] + "\"";
    }
  }

  /** If two halves around three characters are the same, the first ends with the opening quote. */
  lemma HalvesEnd(before: string, body: string, n: nat)
    requires '"' !in before && |before| >= 2 && WellQuoted(body)
    requires var rest := before + " \"" + body + "\""; |rest| == 2 * n + 5 && rest[2..2 + n] == rest[5 + n..]
    requires n > 0
    ensures n == |before|
  {
    hide WellQuoted;
    var rest := before + " \"" + body + "\"";
    var first, last := |before| + 1, |rest| - 1;
    var left, right := rest[2..2 + n], rest[5 + n..];
    assert left[n - 1] == rest[n + 1] && right[n - 1] == rest[last] == '"';
    forall i | 0 <= i < first ensures rest[i] != '"' {
      assert rest[i] == (before + " ")[i];
    }
    assert left[first - 2] == rest[first] == '"' && right[first - 2] == rest[n + first + 3];
    assert left[first - 3] == rest[first - 1] == ' ' && right[first - 3] == rest[n + first + 2];
    InBody(before, body, n + first + 3);
  }

  /** With a plain first side and a quoted second one, the two halves are never taken for one name. */
  lemma HalvesDiffer(before: string, body: string)
    requires '"' !in before && |before| >= 2 && |body| >= 2 && body[..2] == "b/" && WellQuoted(body)
    ensures !SameName(before + " \"" + body + "\"")
  {
    hide WellQuoted, SameName;
    var rest := before + " \"" + body + "\"";
    assert rest[|before| + 2] == body[..2][0];
    if SameName(rest) {
      SameHalves(rest);
      HalvesEnd(before, body, (|rest| - 5) / 2);
    }
  }

  lemma SameHalves(rest: string)
    requires SameName(rest)
    ensures var n := (|rest| - 5) / 2; n > 0 && |rest| == 2 * n + 5 && rest[2..2 + n] == rest[5 + n..] && rest[2 + n] == ' '
  {
    var n := (|rest| - 5) / 2;
    assert rest[2 + n..5 + n][0] == rest[2 + n];
  }

  /** A double quote after the opening one has a backslash before it, or is the closing one. */
  lemma InBody(before: string, body: string, i: nat)
    requires WellQuoted(body) && |before| + 1 < i < |before| + |body| + 3
    ensures var rest := before + " \"" + body + "\"";
            rest[i] == '"' ==> i == |rest| - 1 || rest[i - 1] == '\\'
  {
    var rest := before + " \"" + body + "\"";
    var k := i - |before| - 2;
    if k < |body| {
      assert rest[i] == body[k];
      if k > 0 { assert rest[i - 1] == body[k - 1]; }
    }
  }

  lemma RenamedSides(rest: string, at: nat, to: string)
    requires Quoted(rest) == None && !SameName(rest) && QuotedSecond(rest, 0) == Some(at) && at < |rest|
    requires Quoted(rest[at + 1..]) == Some(Token("b/" + to, "")) && Slice("b/" + to, 2, |"b/" + to|) == to
    ensures SidesPath(rest) == Some(to)
  {
    hide Quoted, QuotedSecond, SameName, Slice;
  }

  /** A renamed file whose old name is plain and new name is quoted gives the new name, whatever is in it. */
  lemma RenamedGivesPath(from: string, to: string, quotePath: bool)
    requires '"' !in from && Bytes(to)
    ensures HeaderPath(HEADER + "a/" + from + " " + QuoteSide("b/", to, quotePath)) == Some(to)
  {
    hide Quoted, SidesPath, QuotedSecond, SameName, QuoteBytes, WellQuoted, HEADER;
    var side := QuoteSide("b/", to, quotePath);
    var body := QuoteBytes("b/" + to, quotePath);
    var before := "a/" + from;
    var rest := before + " \"" + body + "\"";
    assert HEADER + "a/" + from + " " + side == HEADER + rest;
    assert (HEADER + rest)[|HEADER|..] == rest;
    NotQuoted(rest);
    BodyWellQuoted("b/" + to, quotePath);
    BodyStarts(to, quotePath);
    HalvesDiffer(before, body);
    QuotedSecondFound(before, body, 0);
    assert rest[|before| + 1..] == side + "";
    QuotedReadsBack("b/" + to, quotePath, "");
    assert Slice("b/" + to, 2, |"b/" + to|) == to;
    RenamedSides(rest, |before|, to);
  }

  /** A renamed file whose old name is quoted and new name is plain gives the new name. */
  lemma UnquotedSecondGivesPath(from: string, to: string, quotePath: bool)
    requires Bytes(from)
    ensures HeaderPath(HEADER + QuoteSide("a/", from, quotePath) + " b/" + to) == Some(to)
  {
    hide Quoted, QuoteName, SameName, OtherSide, HEADER;
    var a := QuoteSide("a/", from, quotePath);
    var rest := a + (" b/" + to);
    assert HEADER + a + " b/" + to == HEADER + rest && (HEADER + rest)[|HEADER|..] == rest;
    QuotedReadsBack("a/" + from, quotePath, " b/" + to);
    assert (" b/" + to)[1..] == "b/" + to && ("b/" + to)[2..] == to;
    NotQuoted("b/" + to);
  }

  /** A ` b/` at place `k`. */
  predicate SideAt(rest: string, k: nat) {
    k + 3 <= |rest| && rest[k] == ' ' && rest[k + 1] == 'b' && rest[k + 2] == '/'
  }

  lemma SideIs(rest: string, k: nat)
    requires k + 3 <= |rest|
    ensures SideAt(rest, k) <==> rest[k..k + 3] == " b/"
  {
    var three := rest[k..k + 3];
    assert three[0] == rest[k] && three[1] == rest[k + 1] && three[2] == rest[k + 2];
  }

  /** No ` b/` from place `i` on. */
  ghost predicate NoSideFrom(rest: string, i: nat) {
    forall k: nat :: i <= k ==> !SideAt(rest, k)
  }

  lemma {:induction false} LastSideFound(rest: string, at: nat, i: nat)
    requires 3 <= at && at + 3 < |rest| && rest[at..at + 3] == " b/" && NoSideFrom(rest, at + 1) && at <= i <= |rest|
    ensures LastSide(rest, i) == Some(at)
  {
    if i + 3 <= |rest| { SideIs(rest, i); }
    if i > at {
      LastSideFound(rest, at, i - 1);
    }
  }

  lemma {:induction false} NoSecond(rest: string, i: nat)
    requires '"' !in rest
    ensures QuotedSecond(rest, i) == None
    decreases |rest| - i
  {
    if i + 5 <= |rest| {
      assert rest[i..i + 4][1] == rest[i + 1] && rest[i + 1] in rest;
      NoSecond(rest, i + 1);
    }
  }

  /** Two plain names that differ: the new one is what follows the last ` b/`. */
  lemma PlainRenamedGivesPath(from: string, to: string)
    requires from != "" && to != "" && NoSideFrom(to, 0)
    requires forall c :: c in from + to ==> c != '"' && !Break(c)
    requires forall p: string :: "a/" + from + " b/" + to != "a/" + p + " b/" + p
    ensures HeaderPath(HEADER + ("a/" + from + " b/" + to)) == Some(to)
  {
    hide Quoted, SameName, HEADER, LastSide, QuotedSecond, Break;
    var rest := "a/" + from + " b/" + to;
    assert (HEADER + rest)[|HEADER|..] == rest;
    NotQuoted(rest);
    var at := 2 + |from|;
    PlainCharacters(from, to);
    NoSecond(rest, 0);
    if SameName(rest) {
      SameIsTwice(rest);
    }
    assert rest[at + 3..] == to && rest[at..at + 3] == " b/";
    forall k: nat | at + 1 <= k ensures !SideAt(rest, k) {
      SideAfter(rest, to, at, k);
    }
    LastSideFound(rest, at, |rest|);
  }

  lemma SideAfter(rest: string, to: string, at: nat, k: nat)
    requires at + 3 <= |rest| && rest[at + 3..] == to && rest[at..at + 3] == " b/" && NoSideFrom(to, 0) && at < k
    ensures !SideAt(rest, k)
  {
    SideIs(rest, at);
    if k >= at + 3 && k + 3 <= |rest| {
      assert !SideAt(to, k - at - 3);
      assert to[k - at - 3] == rest[k] && to[k - at - 2] == rest[k + 1] && to[k - at - 1] == rest[k + 2];
    }
  }

  lemma PlainCharacters(from: string, to: string)
    requires forall c :: c in from + to ==> c != '"' && !Break(c)
    ensures forall c :: c in "a/" + from + " b/" + to ==> c != '"' && !Break(c)
  {
    forall c | c in "a/" + from + " b/" + to ensures c != '"' && !Break(c) {
      assert c in "a/" || c in " b/" || c in from + to;
    }
  }

  lemma SameIsTwice(rest: string)
    requires SameName(rest)
    ensures exists p: string :: rest == "a/" + p + " b/" + p
  {
    var n := (|rest| - 5) / 2;
    var p := rest[2..2 + n];
    assert rest == rest[..2] + p + rest[2 + n..5 + n] + rest[5 + n..];
  }

  // ----- what cannot be read -----

  /** A quoted name that never ends is not read. */
  lemma UnclosedIsNothing(name: string, quotePath: bool)
    requires Bytes(name)
    ensures Quoted("\"" + QuoteBytes(name, quotePath)) == None
  {
    var body := QuoteBytes(name, quotePath);
    assert ("\"" + body)[1..] == body;
    BytesRead(name, quotePath, "", "");
    assert body + "" == body;
  }

  /** Nor is one with a backslash before anything but three octal digits or an escape's letter. */
  lemma BadEscapeIsNothing(name: string, quotePath: bool, more: string)
    requires Bytes(name)
    requires more == "" || more[0] !in "abtnvfr\"\\"
    requires |more| < 3 || !('0' <= more[0] <= '3' && '0' <= more[1] <= '7' && '0' <= more[2] <= '7')
    ensures Quoted("\"" + QuoteBytes(name, quotePath) + "\\" + more) == None
  {
    var body := QuoteBytes(name, quotePath);
    var rest := "\\" + more;
    var text := "\"" + body + "\\" + more;
    assert text[0] == '"' && text[1..] == body + rest;
    BytesRead(name, quotePath, rest, "");
    assert rest[0] == '\\' && rest[1..] == more && (more != "" ==> rest[1] == more[0]);
  }

  /** A line that is no header, or names no two sides, gives nothing. */
  lemma NoSidesGiveNothing(rest: string)
    requires forall c :: c in rest ==> c != '"'
    requires NoSideFrom(rest, 0)
    ensures HeaderPath(HEADER + rest) == None && (!(HEADER <= rest) ==> HeaderPath(rest) == None)
  {
    hide Quoted, HEADER, LastSide, QuotedSecond;
    assert (HEADER + rest)[|HEADER|..] == rest;
    NothingStarts(rest);
    NoSecond(rest, 0);
    NoLastSide(rest, |rest|);
    if |rest| > 5 && (|rest| - 5) % 2 == 0 {
      SideIs(rest, 2 + (|rest| - 5) / 2);
    }
  }

  lemma NothingStarts(rest: string)
    requires forall c :: c in rest ==> c != '"'
    ensures Quoted(rest) == None
  {
    if rest != "" {
      assert rest[0] in rest;
    }
  }

  lemma {:induction false} NoLastSide(rest: string, i: nat)
    requires NoSideFrom(rest, 0)
    ensures LastSide(rest, i) == None
  {
    if i + 3 <= |rest| { SideIs(rest, i); }
    if i > 0 {
      NoLastSide(rest, i - 1);
    }
  }
}
