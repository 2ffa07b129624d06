/** The words of a command segment, and words quoted so they are read back (packages/security/src/shell-parse.ts). */
module ShellWords {
  import opened Common

  /** Between characters: the word so far, whether it was quoted, and the quote it is inside. */
  datatype State = State(current: string, quoted: bool, quote: Option<char>)

  const START := State("", false, None)

  function Step(s: State, c: char): State {
    if s.quote.Some? then
      if c == s.quote.value then s.(quote := None) else s.(current := s.current + [c])
    else if c == '"' || c == '\'' then s.(quote := Some(c), quoted := true)
    else if Space(c) then START
    else s.(current := s.current + [c])
  }

  /** The word a state has finished at white space or at the end. */
  function Finished(s: State): seq<string> {
    if s.current != "" || s.quoted then [s.current] else []
  }

  predicate Ends(s: State, c: char) {
    s.quote.None? && c != '"' && c != '\'' && Space(c)
  }

  /** The words read from here on. */
  function WordsFrom(s: State, text: string): seq<string>
    decreases |text|
  {
    if text == "" then Finished(s)
    else (if Ends(s, text[0]) then Finished(s) else []) + WordsFrom(Step(s, text[0]), text[1..])
  }

  function Words(text: string): seq<string> {
    WordsFrom(START, text)
  }

  method ReadWords(segment: string) returns (words: seq<string>)
    ensures words == Words(segment)
  {
    hide Space, WordsFrom;
    words := [];
    var current, quoted, quote: Option<char> := "", false, None;
    assert segment[0..] == segment;
    for i := 0 to |segment|
      invariant Words(segment) == words + WordsFrom(State(current, quoted, quote), segment[i..])
    {
      var c := segment[i];
      assert segment[i..] == [c] + segment[i + 1..];
      OneMore(words, State(current, quoted, quote), c, segment[i + 1..]);
      if quote.Some? {
        if c == quote.value {
          quote := None;
        } else {
          current := current + [c];
        }
      } else if c == '"' || c == '\'' {
        quote, quoted := Some(c), true;
      } else if Space(c) {
        if current != "" || quoted {
          words := words + [current];
        }
        current, quoted := "", false;
      } else {
        current := current + [c];
      }
    }
    if current != "" || quoted {
      words := words + [current];
    }
    AtEnd(State(current, quoted, quote));
  }

  lemma OneMore(words: seq<string>, s: State, c: char, rest: string)
    ensures words + WordsFrom(s, [c] + rest) == (if Ends(s, c) then words + Finished(s) else words) + WordsFrom(Step(s, c), rest)
  {
    hide Ends, Finished, Step;
    assert ([c] + rest)[1..] == rest;
  }

  lemma AtEnd(s: State)
    ensures WordsFrom(s, "") == Finished(s)
  {
  }

  // ----- quoting -----

  predicate Bare(word: string) {
    word != "" && forall i :: 0 <= i < |word| ==> !Space(word[i]) && word[i] != '"' && word[i] != '\''
  }

  /** The word's parts between its double quotes, each in double quotes, joined by a double quote in single quotes. */
  function QuotedParts(word: string, part: string): string
    decreases |word|
  {
    if word == "" then InQuotes(part)
    else if word[0] == '"' then InQuotes(part) + "'\"'" + QuotedParts(word[1..], "")
    else QuotedParts(word[1..], part + [word[0]])
  }

  function InQuotes(part: string): string {
    if part == "" then "" else "\"" + part + "\""
  }

  function QuoteWord(word: string): string {
    if Bare(word) then word
    else
      var quoted := QuotedParts(word, "");
      if quoted == "" then "\"\"" else quoted
  }

  function JoinedWords(words: seq<string>): string {
    if words == [] then "" else if |words| == 1 then QuoteWord(words[0]) else QuoteWord(words[0]) + " " + JoinedWords(words[1..])
  }

  // ----- round trip -----

  /** The state after a text that ends no word. */
  function After(s: State, text: string): State
    decreases |text|
  {
    if text == "" then s else After(Step(s, text[0]), text[1..])
  }

  predicate NoWordEnds(s: State, text: string)
    decreases |text|
  {
    text == "" || (!Ends(s, text[0]) && NoWordEnds(Step(s, text[0]), text[1..]))
  }

  lemma {:induction false} ReadThrough(s: State, a: string, b: string)
    requires NoWordEnds(s, a)
    ensures WordsFrom(s, a + b) == WordsFrom(After(s, a), b)
    decreases |a|
  {
    if a == "" {
      assert a + b == b;
    } else {
      assert (a + b)[0] == a[0] && (a + b)[1..] == a[1..] + b;
      ReadThrough(Step(s, a[0]), a[1..], b);
    }
  }

  lemma {:induction false} Through(s: State, a: string, b: string)
    ensures After(s, a + b) == After(After(s, a), b)
    ensures NoWordEnds(s, a + b) <==> NoWordEnds(s, a) && NoWordEnds(After(s, a), b)
    decreases |a|
  {
    if a == "" {
      assert a + b == b;
    } else {
      assert (a + b)[0] == a[0] && (a + b)[1..] == a[1..] + b;
      Through(Step(s, a[0]), a[1..], b);
    }
  }

  /** Inside a quote, or bare: the characters are taken as they are. */
  lemma {:induction false} Taken(s: State, text: string)
    requires forall i :: 0 <= i < |text| ==>
               if s.quote.Some? then text[i] != s.quote.value else !Space(text[i]) && text[i] != '"' && text[i] != '\''
    ensures After(s, text) == s.(current := s.current + text) && NoWordEnds(s, text)
    decreases |text|
  {
    if text == "" {
      assert s.current + text == s.current;
    } else {
      Taken(s.(current := s.current + [text[0]]), text[1..]);
      assert s.current + [text[0]] + text[1..] == s.current + text;
    }
  }

  /** A part in double quotes is read as itself. */
  lemma InQuotesRead(s: State, part: string)
    requires s.quote.None? && forall i :: 0 <= i < |part| ==> part[i] != '"'
    ensures After(s, InQuotes(part)) == s.(current := s.current + part, quoted := s.quoted || part != "")
    ensures NoWordEnds(s, InQuotes(part))
  {
    if part != "" {
      var inside := s.(quote := Some('"'), quoted := true);
      OneStep(s, '"');
      Taken(inside, part);
      OneStep(inside.(current := s.current + part), '"');
      Through(s, "\"" + part, "\"");
      Through(s, "\"", part);
    } else {
      assert s.current + "" == s.current;
    }
  }

  lemma OneStep(s: State, c: char)
    ensures After(s, [c]) == Step(s, c) && (NoWordEnds(s, [c]) <==> !Ends(s, c))
  {
    assert [c][1..] == "";
  }

  /** A double quote in single quotes is read as itself. */
  lemma QuoteRead(s: State)
    requires s.quote.None?
    ensures After(s, "'\"'") == s.(current := s.current + "\"", quoted := true) && NoWordEnds(s, "'\"'")
  {
    var text := "'\"'";
    var s1 := Step(s, '\'');
    var s2 := Step(s1, '"');
    assert text[1..][0] == '"' && text[1..][1..] == ['\''];
    OneStep(s2, '\'');
    assert After(s1, text[1..]) == After(s2, ['\'']);
    assert NoWordEnds(s1, text[1..]) <==> !Ends(s1, '"') && NoWordEnds(s2, ['\'']);
  }

  lemma {:induction false} QuotedRead(s: State, word: string, part: string)
    requires s.quote.None? && forall i :: 0 <= i < |part| ==> part[i] != '"'
    ensures After(s, QuotedParts(word, part)).current == s.current + part + word
    ensures After(s, QuotedParts(word, part)).quote == None
    ensures After(s, QuotedParts(word, part)).quoted == (s.quoted || part + word != "")
    ensures NoWordEnds(s, QuotedParts(word, part))
    decreases |word|
  {
    hide After, NoWordEnds, InQuotes, Step;
    if word == "" {
      InQuotesRead(s, part);
      assert s.current + part + word == s.current + part && part + word == part;
    } else if word[0] == '"' {
      var s1 := s.(current := s.current + part, quoted := s.quoted || part != "");
      var s2 := s1.(current := s1.current + "\"", quoted := true);
      var q, rest := InQuotes(part), QuotedParts(word[1..], "");
      InQuotesRead(s, part);
      QuoteRead(s1);
      QuotedRead(s2, word[1..], "");
      Through(s, q + "'\"'", rest);
      Through(s, q, "'\"'");
      QuoteAdds(s.current, part, word);
    } else {
      QuotedRead(s, word[1..], part + [word[0]]);
      assert part + [word[0]] + word[1..] == part + word;
      assert s.current + (part + [word[0]]) + word[1..] == s.current + part + word;
    }
  }

  lemma QuoteAdds(current: string, part: string, word: string)
    requires word != "" && word[0] == '"'
    ensures current + part + "\"" + "" + word[1..] == current + part + word
    ensures part + word != ""
  {
    assert word == "\"" + word[1..];
  }

  /** A quoted word is read as one word, unchanged. */
  lemma QuoteWordRead(word: string)
    ensures NoWordEnds(START, QuoteWord(word))
    ensures After(START, QuoteWord(word)).current == word && After(START, QuoteWord(word)).quote == None
    ensures Finished(After(START, QuoteWord(word))) == [word]
  {
    if Bare(word) {
      Taken(START, word);
      assert "" + word == word;
    } else if word == "" {
      assert QuotedParts("", "") == "";
      var s1 := Step(START, '"');
      OneStep(s1, '"');
      assert "\"\""[1..] == ['"'];
      assert After(START, "\"\"") == After(s1, ['"']);
      assert NoWordEnds(START, "\"\"") <==> !Ends(START, '"') && NoWordEnds(s1, ['"']);
    } else {
      QuotedRead(START, word, "");
      assert "" + "" + word == word && "" + word == word;
      assert After(START, "").current == "";
    }
  }

  lemma SpaceIsNoQuote(c: char)
    ensures Space(c) ==> c != '"' && c != '\''
    ensures Space(' ')
  {
  }

  /** Every list of words comes back, whatever quotes, spaces and empty words are in it. */
  lemma {:induction false} WordsRoundTrip(words: seq<string>)
    ensures Words(JoinedWords(words)) == words
  {
    hide Space;
    SpaceIsNoQuote(' ');
    if words != [] {
      var q := QuoteWord(words[0]);
      QuoteWordRead(words[0]);
      var s := After(START, q);
      if |words| == 1 {
        ReadThrough(START, q, "");
        assert q + "" == q;
      } else {
        var rest := JoinedWords(words[1..]);
        WordsRoundTrip(words[1..]);
        ReadThrough(START, q, " " + rest);
        assert q + (" " + rest) == q + " " + rest;
        assert (" " + rest)[0] == ' ' && (" " + rest)[1..] == rest;
        assert Ends(s, ' ') && Step(s, ' ') == START;
        assert words == [words[0]] + words[1..];
      }
    }
  }

  /** A word with nothing to quote is written as it is; any other is not. */
  lemma QuotedWhenNeeded(word: string)
    ensures QuoteWord(word) == word <==> word != "" && forall c :: c in word ==> !Space(c) && c != '"' && c != '\''
  {
    hide Space;
    if !Bare(word) && word != "" {
      QuotedIsLonger(word, "");
    }
  }

  lemma {:induction false} QuotedIsLonger(word: string, part: string)
    ensures |QuotedParts(word, part)| >= |part| + |word| + if part + word == "" then 0 else 2
    decreases |word|
  {
    if word != "" && word[0] == '"' {
      QuotedIsLonger(word[1..], "");
    } else if word != "" {
      QuotedIsLonger(word[1..], part + [word[0]]);
    }
  }

  // ----- words in any way of writing them -----

  /** A part of a word as written: as it is, or in quotes of either kind. */
  datatype Part = Raw(text: string) | InDouble(text: string) | InSingle(text: string)
  {
    predicate Ok() {
      match this
      case Raw(_) => text != "" && forall i :: 0 <= i < |text| ==> !Space(text[i]) && text[i] != '"' && text[i] != '\''
      case InDouble(_) => '"' !in text
      case InSingle(_) => '\'' !in text
    }

    function Written(): string {
      match this
      case Raw(_) => text
      case InDouble(_) => "\"" + text + "\""
      case InSingle(_) => "'" + text + "'"
    }
  }

  function WrittenWord(parts: seq<Part>): string {
    if parts == [] then "" else parts[0].Written() + WrittenWord(parts[1..])
  }

  function WordOf(parts: seq<Part>): string {
    if parts == [] then "" else parts[0].text + WordOf(parts[1..])
  }

  predicate Blank(gap: string) {
    forall i :: 0 <= i < |gap| ==> Space(gap[i])
  }

  lemma PartRead(s: State, part: Part)
    requires s.quote.None? && part.Ok()
    ensures After(s, part.Written()) == s.(current := s.current + part.text, quoted := s.quoted || !part.Raw?)
    ensures NoWordEnds(s, part.Written())
  {
    if part.Raw? {
      Taken(s, part.text);
    } else {
      var q := if part.InDouble? then '"' else '\'';
      var inside := s.(quote := Some(q), quoted := true);
      OneStep(s, q);
      Taken(inside, part.text);
      OneStep(inside.(current := s.current + part.text), q);
      Through(s, [q] + part.text, [q]);
      Through(s, [q], part.text);
      assert part.Written() == [q] + part.text + [q];
    }
  }

  lemma {:induction false} PartsRead(s: State, parts: seq<Part>)
    requires s.quote.None? && forall p :: p in parts ==> p.Ok()
    ensures NoWordEnds(s, WrittenWord(parts)) && After(s, WrittenWord(parts)).quote == None
    ensures After(s, WrittenWord(parts)).current == s.current + WordOf(parts)
    ensures parts != [] && s.current == "" ==> Finished(After(s, WrittenWord(parts))) == [WordOf(parts)]
    decreases |parts|
  {
    hide After, NoWordEnds, Step;
    if parts == [] {
      assert WrittenWord(parts) == "" && s.current + "" == s.current;
      Nothing(s);
    } else {
      var next := s.(current := s.current + parts[0].text, quoted := s.quoted || !parts[0].Raw?);
      PartRead(s, parts[0]);
      PartsRead(next, parts[1..]);
      Through(s, parts[0].Written(), WrittenWord(parts[1..]));
      assert s.current + parts[0].text + WordOf(parts[1..]) == s.current + WordOf(parts);
      StaysQuoted(next, WrittenWord(parts[1..]));
      assert parts[0].Raw? ==> WordOf(parts) != "";
      assert s.current == "" ==> s.current + WordOf(parts) == WordOf(parts);
      WordFinished(After(s, WrittenWord(parts)));
    }
  }

  lemma WordFinished(s: State)
    ensures s.current != "" || s.quoted ==> Finished(s) == [s.current]
  {
  }

  lemma Nothing(s: State)
    ensures After(s, "") == s && NoWordEnds(s, "")
  {
  }

  lemma {:induction false} StaysQuoted(s: State, text: string)
    requires NoWordEnds(s, text)
    ensures s.quoted ==> After(s, text).quoted
    decreases |text|
  {
    if text != "" {
      StaysQuoted(Step(s, text[0]), text[1..]);
    }
  }

  lemma {:induction false} GapRead(gap: string, rest: string)
    requires Blank(gap)
    ensures WordsFrom(START, gap + rest) == Words(rest)
    decreases |gap|
  {
    hide Space;
    if gap == "" {
      assert gap + rest == rest;
    } else {
      GapRead(gap[1..], rest);
      SpaceIsNoQuote(gap[0]);
      assert (gap + rest)[0] == gap[0] && (gap + rest)[1..] == gap[1..] + rest;
      assert Finished(START) == [];
    }
  }

  lemma GapEnds(s: State, gap: string, rest: string)
    requires s.quote.None? && gap != "" && Blank(gap)
    ensures WordsFrom(s, gap + rest) == Finished(s) + Words(rest)
  {
    hide Space;
    SpaceIsNoQuote(gap[0]);
    GapRead(gap[1..], rest);
    assert (gap + rest)[0] == gap[0] && (gap + rest)[1..] == gap[1..] + rest;
  }

  /** Words as written, each followed by its gap. */
  function WrittenLine(words: seq<(seq<Part>, string)>): string {
    if words == [] then "" else WrittenWord(words[0].0) + words[0].1 + WrittenLine(words[1..])
  }

  function LineWords(words: seq<(seq<Part>, string)>): seq<string> {
    if words == [] then [] else [WordOf(words[0].0)] + LineWords(words[1..])
  }

  /** Every line is read as its words, however each is put together from bare and quoted parts, and whatever space is between. */
  lemma {:induction false} WrittenWordsRead(before: string, words: seq<(seq<Part>, string)>)
    requires Blank(before)
    requires forall w :: w in words ==> w.0 != [] && Blank(w.1) && forall p :: p in w.0 ==> p.Ok()
    requires forall i :: 0 <= i < |words| - 1 ==> words[i].1 != ""
    ensures Words(before + WrittenLine(words)) == LineWords(words)
    decreases |words|
  {
    hide WordsFrom, After, NoWordEnds, Finished, Blank, Words;
    if words == [] {
      OnlySpace(before);
      assert before + "" == before;
    } else {
      var (parts, gap) := words[0];
      var rest := WrittenLine(words[1..]);
      var word := WrittenWord(parts);
      assert words[0] in words;
      LeadingSpace(before, word + gap + rest);
      PartsRead(START, parts);
      ReadThrough(START, word, gap + rest);
      assert word + (gap + rest) == word + gap + rest;
      NoSpace();
      assert forall w :: w in words[1..] ==> w in words;
      WrittenWordsRead("", words[1..]);
      assert "" + rest == rest;
      if gap != "" {
        GapEnds(After(START, word), gap, rest);
      } else {
        LastWord(After(START, word), words);
      }
    }
  }

  lemma OnlySpace(gap: string)
    requires Blank(gap)
    ensures Words(gap) == []
  {
    GapRead(gap, "");
    assert gap + "" == gap;
    AtEnd(START);
  }

  lemma LeadingSpace(gap: string, rest: string)
    requires Blank(gap)
    ensures Words(gap + rest) == WordsFrom(START, rest)
  {
    GapRead(gap, rest);
  }

  lemma NoSpace()
    ensures Blank("")
  {
  }

  lemma LastWord(s: State, words: seq<(seq<Part>, string)>)
    requires words != [] && words[0].1 == "" && forall i :: 0 <= i < |words| - 1 ==> words[i].1 != ""
    ensures WrittenLine(words[1..]) == "" && LineWords(words[1..]) == []
    ensures WordsFrom(s, "" + WrittenLine(words[1..])) == Finished(s)
  {
    assert |words| == 1;
    AtEnd(s);
  }
}
