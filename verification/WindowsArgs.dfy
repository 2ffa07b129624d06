/** Quoting an argument list into a Windows command line (packages/executor/src/process.ts). */
module WindowsArgs {

  const BACKSLASH: char := '\\'
  const QUOTE: char := '\"'

  function Backslashes(n: nat): (s: string)
    ensures |s| == n
  {
    seq(n, _ => BACKSLASH)
  }

  predicate Blank(c: char) {
    c == ' ' || c == '\t'
  }

  predicate Has(s: string, p: char -> bool) {
    exists i :: 0 <= i < |s| && p(s[i])
  }

  // ----- quoting, as the executor writes it -----

  /**
   * The text of `arg` inside quotes, with `pending` backslashes just read and not written yet: doubled
   * before a quote (which gets one more) and before the closing quote, as they are anywhere else.
   */
  function Escaped(arg: string, pending: nat): string
  {
    if arg == "" then Backslashes(pending * 2)
    else if arg[0] == BACKSLASH then Escaped(arg[1..], pending + 1)
    else if arg[0] == QUOTE then Backslashes(pending * 2 + 1) + [QUOTE] + Escaped(arg[1..], 0)
    else Backslashes(pending) + [arg[0]] + Escaped(arg[1..], 0)
  }

  function Quoted(arg: string): string {
    if arg == "" then [QUOTE, QUOTE]
    else if !Has(arg, c => Blank(c) || c == QUOTE) then arg
    else if !Has(arg, c => c == QUOTE || c == BACKSLASH) then [QUOTE] + arg + [QUOTE]
    else [QUOTE] + Escaped(arg, 0) + [QUOTE]
  }

  method QuoteWindowsArg(arg: string) returns (quoted: string)
    ensures quoted == Quoted(arg)
  {
    if arg == "" {
      return [QUOTE, QUOTE];
    }
    if !Has(arg, c => Blank(c) || c == QUOTE) {
      return arg;
    }
    if !Has(arg, c => c == QUOTE || c == BACKSLASH) {
      return [QUOTE] + arg + [QUOTE];
    }
    var out := [QUOTE];
    var backslashes := 0;
    for i := 0 to |arg|
      invariant out + Escaped(arg[i..], backslashes) == [QUOTE] + Escaped(arg, 0)
    {
      var ch := arg[i];
      assert arg[i..][0] == ch && arg[i..][1..] == arg[i + 1..];
      if ch == BACKSLASH {
        backslashes := backslashes + 1;
        continue;
      }
      out := out + (if ch == QUOTE then Backslashes(backslashes * 2 + 1) + [QUOTE] else Backslashes(backslashes) + [ch]);
      backslashes := 0;
    }
    quoted := out + Backslashes(backslashes * 2) + [QUOTE];
  }

  function Joined(args: seq<string>): string {
    if args == [] then ""
    else if |args| == 1 then Quoted(args[0])
    else Quoted(args[0]) + " " + Joined(args[1..])
  }

  /** The command line after the program file, when cross-spawn asks for no verbatim arguments. */
  method CommandLine(args: seq<string>) returns (line: string)
    ensures line == Joined(args)
  {
    line := "";
    for i := |args| downto 0
      invariant line == Joined(args[i..])
    {
      var quoted := QuoteWindowsArg(args[i]);
      assert args[i..][0] == args[i] && args[i..][1..] == args[i + 1..];
      line := if i + 1 == |args| then quoted else quoted + " " + line;
    }
  }

  /** Only an argument that needs it is quoted: an empty one, or one with a space, a tab or a quote. */
  lemma QuotedWhenNeeded(arg: string)
    ensures Quoted(arg) == arg <==> arg != "" && forall c :: c in arg ==> c != ' ' && c != '\t' && c != QUOTE
  {
    EscapedIsLonger(arg, 0);
    if c :| c in arg && (c == ' ' || c == '\t' || c == QUOTE) {
      var i :| 0 <= i < |arg| && arg[i] == c;
      assert Blank(arg[i]) || arg[i] == QUOTE;
    } else {
      assert forall i :: 0 <= i < |arg| ==> arg[i] in arg;
    }
  }

  lemma {:induction false} EscapedIsLonger(arg: string, pending: nat)
    ensures |Escaped(arg, pending)| >= |arg| + pending
    decreases |arg|
  {
    if arg != "" {
      EscapedIsLonger(arg[1..], if arg[0] == BACKSLASH then pending + 1 else 0);
    }
  }

  // ----- reading it back, as the C runtime does -----

  function LeadingBackslashes(s: string): (n: nat)
    ensures n <= |s| && forall i :: 0 <= i < n ==> s[i] == BACKSLASH
    ensures n < |s| ==> s[n] != BACKSLASH
  {
    if s == "" || s[0] != BACKSLASH then 0 else 1 + LeadingBackslashes(s[1..])
  }

  /**
   * One argument from the start of `line`, and what follows it. 2n backslashes before a quote are n
   * backslashes and the quote opens or closes; 2n+1 are n and a literal quote; any others stand for
   * themselves. Runtimes from 2008 on also read `""` inside quotes as a literal quote (`doubled`).
   */
  function ReadArg(line: string, inQuotes: bool, doubled: bool): (string, string)
    decreases |line|
  {
    if line == "" then ("", "")
    else
      var n := LeadingBackslashes(line);
      if n < |line| && line[n] == QUOTE then
        if n % 2 == 1 then
          var (arg, rest) := ReadArg(line[n + 1..], inQuotes, doubled);
          (Backslashes(n / 2) + [QUOTE] + arg, rest)
        else if doubled && inQuotes && n + 1 < |line| && line[n + 1] == QUOTE then
          var (arg, rest) := ReadArg(line[n + 2..], inQuotes, doubled);
          (Backslashes(n / 2) + [QUOTE] + arg, rest)
        else
          var (arg, rest) := ReadArg(line[n + 1..], !inQuotes, doubled);
          (Backslashes(n / 2) + arg, rest)
      else if n > 0 then
        var (arg, rest) := ReadArg(line[n..], inQuotes, doubled);
        (Backslashes(n) + arg, rest)
      else if Blank(line[0]) && !inQuotes then ("", line)
      else
        var (arg, rest) := ReadArg(line[1..], inQuotes, doubled);
        ([line[0]] + arg, rest)
  }

  function SkipBlanks(line: string): (rest: string)
    ensures |rest| <= |line| && (rest == "" || !Blank(rest[0]))
  {
    if line == "" || !Blank(line[0]) then line else SkipBlanks(line[1..])
  }

  lemma {:induction false} ReadArgShrinks(line: string, inQuotes: bool, doubled: bool)
    ensures |ReadArg(line, inQuotes, doubled).1| <= |line|
    ensures line != "" && (inQuotes || !Blank(line[0])) ==> |ReadArg(line, inQuotes, doubled).1| < |line|
    decreases |line|
  {
    if line != "" {
      var n := LeadingBackslashes(line);
      if n < |line| && line[n] == QUOTE {
        ReadArgShrinks(line[n + 1..], inQuotes, doubled);
        ReadArgShrinks(line[n + 1..], !inQuotes, doubled);
        if n + 1 < |line| {
          ReadArgShrinks(line[n + 2..], inQuotes, doubled);
        }
      } else if n > 0 {
        ReadArgShrinks(line[n..], inQuotes, doubled);
      } else if !(Blank(line[0]) && !inQuotes) {
        ReadArgShrinks(line[1..], inQuotes, doubled);
      }
    }
  }

  function ReadArgs(line: string, doubled: bool): seq<string>
    decreases |line|
  {
    var start := SkipBlanks(line);
    if start == "" then []
    else
      ReadArgShrinks(start, false, doubled);
      var (arg, rest) := ReadArg(start, false, doubled);
      [arg] + ReadArgs(rest, doubled)
  }

  // ----- the round trip -----

  /** What may follow an argument on the line. */
  predicate EndsArg(rest: string) {
    rest == "" || Blank(rest[0])
  }

  lemma {:induction false} LeadingAll(n: nat, rest: string)
    requires rest == "" || rest[0] != BACKSLASH
    ensures LeadingBackslashes(Backslashes(n) + rest) == n
  {
    if n == 0 {
      assert Backslashes(0) + rest == rest;
    } else {
      LeadingAll(n - 1, rest);
      assert (Backslashes(n) + rest)[1..] == Backslashes(n - 1) + rest;
    }
  }

  /** An even run of backslashes and the quote after it. */
  lemma ReadClosing(n: nat, rest: string, doubled: bool)
    requires EndsArg(rest)
    ensures ReadArg(Backslashes(n * 2) + [QUOTE] + rest, true, doubled) == (Backslashes(n), rest)
  {
    var line := Backslashes(n * 2) + [QUOTE] + rest;
    assert line == Backslashes(n * 2) + ([QUOTE] + rest);
    LeadingAll(n * 2, [QUOTE] + rest);
    assert line[n * 2] == QUOTE && line[n * 2 + 1..] == rest;
    ReadEnd(rest, doubled);
    assert Backslashes(n) + "" == Backslashes(n);
  }

  lemma ReadEnd(rest: string, doubled: bool)
    requires EndsArg(rest)
    ensures ReadArg(rest, false, doubled) == ("", rest)
  {
    if rest != "" {
      assert LeadingBackslashes(rest) == 0;
    }
  }

  /** An odd run of backslashes and the literal quote after it. */
  lemma ReadLiteralQuote(n: nat, rest: string, doubled: bool)
    ensures var (arg, end) := ReadArg(rest, true, doubled);
            ReadArg(Backslashes(n * 2 + 1) + [QUOTE] + rest, true, doubled) == (Backslashes(n) + [QUOTE] + arg, end)
  {
    ReadOddRun(Backslashes(n * 2 + 1) + [QUOTE] + rest, n, rest, doubled) by {
      assert Backslashes(n * 2 + 1) + [QUOTE] + rest == Backslashes(n * 2 + 1) + ([QUOTE] + rest);
      LeadingAll(n * 2 + 1, [QUOTE] + rest);
    }
  }

  lemma ReadOddRun(line: string, n: nat, rest: string, doubled: bool)
    requires LeadingBackslashes(line) == n * 2 + 1 < |line| && line[n * 2 + 1] == QUOTE && line[n * 2 + 2..] == rest
    ensures var (arg, end) := ReadArg(rest, true, doubled); ReadArg(line, true, doubled) == (Backslashes(n) + [QUOTE] + arg, end)
  {
  }

  lemma ReadOne(c: char, rest: string, inQuotes: bool, doubled: bool)
    requires c != QUOTE && c != BACKSLASH && (inQuotes || !Blank(c))
    ensures var (arg, end) := ReadArg(rest, inQuotes, doubled); ReadArg([c] + rest, inQuotes, doubled) == ([c] + arg, end)
  {
    assert LeadingBackslashes([c] + rest) == 0;
    assert ([c] + rest)[1..] == rest;
  }

  /** Backslashes that no quote follows stand for themselves. */
  lemma ReadRun(n: nat, rest: string, inQuotes: bool, doubled: bool)
    requires rest == "" || (rest[0] != QUOTE && rest[0] != BACKSLASH)
    ensures var (arg, end) := ReadArg(rest, inQuotes, doubled); ReadArg(Backslashes(n) + rest, inQuotes, doubled) == (Backslashes(n) + arg, end)
  {
    var line := Backslashes(n) + rest;
    LeadingAll(n, rest);
    assert line[n..] == rest;
    if n == 0 {
      assert line == rest;
      var (arg, _) := ReadArg(rest, inQuotes, doubled);
      assert Backslashes(0) + arg == arg;
    } else if rest != "" {
      assert line[n] == rest[0];
    }
  }

  /** What is written inside quotes reads back as written. */
  lemma {:induction false} EscapedReadsBack(arg: string, pending: nat, rest: string, doubled: bool)
    requires EndsArg(rest)
    ensures ReadArg(Escaped(arg, pending) + [QUOTE] + rest, true, doubled) == (Backslashes(pending) + arg, rest)
    decreases |arg|
  {
    hide ReadArg;
    if arg == "" {
      ReadClosing(pending, rest, doubled);
      assert Backslashes(pending) + "" == Backslashes(pending);
    } else if arg[0] == BACKSLASH {
      EscapedReadsBack(arg[1..], pending + 1, rest, doubled);
      assert Backslashes(pending + 1) + arg[1..] == Backslashes(pending) + arg;
    } else {
      EscapedReadsBack(arg[1..], 0, rest, doubled);
      EscapedCharReadsBack(arg, pending, rest, doubled);
    }
  }

  lemma EscapedCharReadsBack(arg: string, pending: nat, rest: string, doubled: bool)
    requires arg != "" && arg[0] != BACKSLASH
    requires ReadArg(Escaped(arg[1..], 0) + [QUOTE] + rest, true, doubled) == (Backslashes(0) + arg[1..], rest)
    ensures ReadArg(Escaped(arg, pending) + [QUOTE] + rest, true, doubled) == (Backslashes(pending) + arg, rest)
  {
    hide ReadArg;
    var c, body := arg[0], Escaped(arg[1..], 0);
    assert Backslashes(0) + arg[1..] == arg[1..];
    assert Backslashes(pending) + [c] + arg[1..] == Backslashes(pending) + arg;
    if c == QUOTE {
      ReadLiteralQuote(pending, body + [QUOTE] + rest, doubled);
      Regroup(Backslashes(pending * 2 + 1) + [QUOTE], body, rest);
    } else {
      ReadRunAndOne(pending, c, body + [QUOTE] + rest, doubled);
      Regroup(Backslashes(pending) + [c], body, rest);
    }
  }

  lemma Regroup(head: string, body: string, rest: string)
    ensures (head + body) + [QUOTE] + rest == head + (body + [QUOTE] + rest)
  {
  }

  lemma ReadRunAndOne(n: nat, c: char, tail: string, doubled: bool)
    requires c != QUOTE && c != BACKSLASH
    ensures var (arg, end) := ReadArg(tail, true, doubled);
            ReadArg(Backslashes(n) + [c] + tail, true, doubled) == (Backslashes(n) + [c] + arg, end)
  {
    hide ReadArg;
    ReadOne(c, tail, true, doubled);
    ReadRun(n, [c] + tail, true, doubled);
    assert Backslashes(n) + [c] + tail == Backslashes(n) + ([c] + tail);
    var (arg, _) := ReadArg(tail, true, doubled);
    assert Backslashes(n) + [c] + arg == Backslashes(n) + ([c] + arg);
  }

  lemma {:induction false} NothingToEscape(arg: string)
    requires forall i :: 0 <= i < |arg| ==> arg[i] != QUOTE && arg[i] != BACKSLASH
    ensures Escaped(arg, 0) == arg
  {
    if arg != "" {
      NothingToEscape(arg[1..]);
      assert Backslashes(0) + [arg[0]] + arg[1..] == arg;
    } else {
      assert Backslashes(0) == "";
    }
  }

  /** An argument written without quotes reads back as written. */
  lemma {:induction false} PlainReadsBack(arg: string, rest: string, doubled: bool)
    requires EndsArg(rest)
    requires forall i :: 0 <= i < |arg| ==> !Blank(arg[i]) && arg[i] != QUOTE
    ensures ReadArg(arg + rest, false, doubled) == (arg, rest)
    decreases |arg|
  {
    hide ReadArg;
    if arg == "" {
      assert arg + rest == rest;
      ReadEnd(rest, doubled);
    } else if arg[0] == BACKSLASH {
      var n := LeadingBackslashes(arg);
      assert arg == Backslashes(n) + arg[n..];
      PlainReadsBack(arg[n..], rest, doubled);
      ReadRun(n, arg[n..] + rest, false, doubled);
      assert arg + rest == Backslashes(n) + (arg[n..] + rest);
    } else {
      PlainReadsBack(arg[1..], rest, doubled);
      ReadOne(arg[0], arg[1..] + rest, false, doubled);
      assert arg + rest == [arg[0]] + (arg[1..] + rest);
      assert [arg[0]] + arg[1..] == arg;
    }
  }

  /** Any quoted argument reads back as itself, and the line goes on where it ended. */
  lemma QuotedReadsBack(arg: string, rest: string, doubled: bool)
    requires EndsArg(rest)
    ensures Quoted(arg) != "" && !Blank(Quoted(arg)[0])
    ensures ReadArg(Quoted(arg) + rest, false, doubled) == (arg, rest)
  {
    hide ReadArg, Escaped;
    if arg != "" && !Has(arg, c => Blank(c) || c == QUOTE) {
      PlainReadsBack(arg, rest, doubled);
    } else {
      QuotesReadBack(arg, rest, doubled);
      if arg == "" || !Has(arg, c => c == QUOTE || c == BACKSLASH) {
        NothingToEscape(arg);
      }
      assert Quoted(arg) == [QUOTE] + Escaped(arg, 0) + [QUOTE];
    }
  }

  lemma QuotesReadBack(arg: string, rest: string, doubled: bool)
    requires EndsArg(rest)
    ensures ReadArg([QUOTE] + Escaped(arg, 0) + [QUOTE] + rest, false, doubled) == (arg, rest)
  {
    hide ReadArg, Escaped;
    var line := Escaped(arg, 0) + [QUOTE] + rest;
    EscapedReadsBack(arg, 0, rest, doubled);
    assert Backslashes(0) + arg == arg;
    OpenQuote(line, doubled);
    assert [QUOTE] + Escaped(arg, 0) + [QUOTE] + rest == [QUOTE] + line;
  }

  lemma OpenQuote(line: string, doubled: bool)
    ensures ReadArg([QUOTE] + line, false, doubled) == ReadArg(line, true, doubled)
  {
    assert LeadingBackslashes([QUOTE] + line) == 0;
    assert ([QUOTE] + line)[1..] == line;
    var (arg, _) := ReadArg(line, true, doubled);
    assert Backslashes(0) + arg == arg;
  }

  /** Every argument list survives the command line, whichever way the runtime reads `""`. */
  lemma {:induction false} CommandLineRoundTrip(args: seq<string>, doubled: bool)
    ensures ReadArgs(Joined(args), doubled) == args
  {
    hide ReadArg, Quoted;
    if args != [] {
      var rest := if |args| == 1 then "" else " " + Joined(args[1..]);
      var line := Joined(args);
      QuotedReadsBack(args[0], rest, doubled);
      assert line == Quoted(args[0]) + rest;
      CommandLineRoundTrip(args[1..], doubled);
      assert SkipBlanks(line) == line;
      if |args| > 1 {
        assert rest[1..] == Joined(args[1..]);
        SkipOne(Joined(args[1..]), doubled);
      }
      assert ReadArgs(rest, doubled) == args[1..];
    }
  }

  lemma SkipOne(line: string, doubled: bool)
    ensures ReadArgs(" " + line, doubled) == ReadArgs(line, doubled)
  {
    assert (" " + line)[1..] == line;
    assert SkipBlanks(" " + line) == SkipBlanks(line);
  }
}
