/** What the analysis reads of a command that may move HEAD, and exactly which spellings it reads right. */
module PushMoves {
  import opened Common
  import opened PushText
  import opened PushAnalysis
  import opened PushSemantics

  // ----- the spellings of checkout and switch that are looked for -----

  /** A new branch: after a lone letter, or after `--orphan` as a word of its own. */
  function SeenMade(a: SwitchArg): Option<string> {
    if a.MakeWord? && a.letters == "" then Some(a.made)
    else if a.SwitchLongWord? && a.key == "orphan" then Some(a.value)
    else None
  }

  /** A name, or the value of an option that is not known to take one. */
  function SeenName(a: SwitchArg): Option<string> {
    if a.Name? then Some(a.word)
    else if a.MakeWord? && a.letters != "" then Some(a.made)
    else if a.SwitchLongWord? && a.key !in {"orphan", "conflict", "pathspec-from-file"} then Some(a.value)
    else None
  }

  predicate SeesTrack(a: SwitchArg) {
    (a.SwitchLetters? && a.letters == "t") || ((a.SwitchLong? || a.SwitchLongEquals?) && a.key == "track")
  }

  predicate SeesDetach(a: SwitchArg) {
    (a.SwitchLetters? && a.letters == "d") || (a.SwitchLong? && a.key == "detach")
  }

  function LastMade(args: seq<SwitchArg>): Option<string> {
    if args == [] then None else if LastMade(args[1..]).Some? then LastMade(args[1..]) else SeenMade(args[0])
  }

  function SeenNames(args: seq<SwitchArg>): seq<string> {
    if args == [] then [] else WordOf(SeenName(args[0])) + SeenNames(args[1..])
  }

  predicate HasTrack(args: seq<SwitchArg>) {
    exists a :: a in args && SeesTrack(a)
  }

  predicate HasDetach(args: seq<SwitchArg>) {
    exists a :: a in args && SeesDetach(a)
  }

  // ----- what is read right -----

  predicate NameRight(name: string) {
    !Solid(name) || StripHeads(name) == name
  }

  /** Nothing the branch reached stands for is another branch than this one. */
  predicate Alone(refs: Refs, git: Git, seen: string) {
    ReachOf(git).Reaches? && Branches(refs, git, ReachOf(git).branch) <= {seen}
  }

  /** The switch changes no branch; or a new branch, or with no `--` a name, is seen, and it cannot be read or is Git's. */
  predicate SwitchRight(refs: Refs, sub: string, args: seq<SwitchArg>, tail: Option<seq<string>>) {
    var made, names := LastMade(args), SeenNames(args);
    || SwitchReach(sub, args, tail) == Nowhere
    || (&& !HasDetach(args) && (made.Some? || (tail.None? && names != []))
        && var branch := if made.Some? then made.value else names[0];
           || UnreadableBranch(branch) || HasTrack(args) || (made.Some? && exists n :: n in names && '/' in n)
           || Alone(refs, Switch(sub, args, tail), StripHeads(branch)))
  }

  /** The words on which what is noted keeps up with HEAD, with these refs. */
  predicate ReadRight(refs: Refs, git: Git) {
    match git
    case Push(_, _) => true
    case Switch(sub, args, tail) => SwitchRight(refs, sub, args, tail)
    case Rename(args) => ReachOf(git) == Nowhere || NameRight(RenameNames(args)[|RenameNames(args)| - 1])
    case StashBranch(branch, _) => NameRight(branch) && (Solid(branch) ==> Alone(refs, git, branch))
    case SymbolicRef(_, reason, ref, to) =>
      Readable(reason, ref, to) && (ReachOf(git) == Nowhere || Alone(refs, git, StripHeads(if reason.ReasonWord? then ref else to)))
    case Rebase(_, onto, upstream, of) => of.None? && (onto.Some? ==> Written(onto.value)) && (upstream.Some? ==> Written(upstream.value))
    case BisectReset(_) => false
    case Returning(_, _) => false
    case KeepsHead(_, _) => true
    case Aliased(_, _, inner) => ReachOf(inner) == Nowhere
  }

  // ----- one argument of a switch -----

  /** The scan after one argument, then the words `more`. */
  function AfterArg(a: SwitchArg, more: seq<string>, created: Option<string>, tracks: bool, operands: seq<string>): Switch {
    if SeesDetach(a) then Stays
    else SwitchesTo(more, if SeenMade(a).Some? then SeenMade(a) else created, tracks || SeesTrack(a), operands + WordOf(SeenName(a)))
  }

  /** An option that is none of those looked for. */
  predicate Unseen(w: string) {
    !Operand(w) && w != "--" && !CreatesBranch(w) && !Tracks(w) && !Detaches(w) && !TakesPath(w)
  }

  predicate MadeOfLetters(letters: string) {
    forall c :: c in letters ==> c != '-'
  }

  lemma ShortForm(letters: string)
    requires letters != "" && MadeOfLetters(letters)
    ensures var w := "-" + letters; !Operand(w) && w != "--" && w != "--orphan" && !TakesPath(w) && w != "--detach" && !IsKey(w, "--track")
  {
    var w := "-" + letters;
    assert w[1] == letters[0] && letters[0] in letters;
    NotKey(w, "--track", 1);
  }

  /** Two letters or more are none of the lone letters looked for. */
  lemma Clustered(letters: string)
    requires |letters| >= 2 && MadeOfLetters(letters)
    ensures Unseen("-" + letters)
  {
    ShortForm(letters);
    assert |"-" + letters| >= 3;
  }

  lemma SkipUnseen(w: string, more: seq<string>, created: Option<string>, tracks: bool, operands: seq<string>)
    requires Unseen(w)
    ensures SwitchesTo([w] + more, created, tracks, operands) == SwitchesTo(more, created, tracks, operands)
  {
    hide Decided, Tracks, CreatesBranch, Detaches, TakesPath, Operand;
    assert ([w] + more)[1..] == more;
  }

  lemma NameScanned(w: string, more: seq<string>, created: Option<string>, tracks: bool, operands: seq<string>)
    requires Operand(w)
    ensures SwitchesTo([w] + more, created, tracks, operands) == SwitchesTo(more, created, tracks, operands + [w])
  {
    hide Decided, Tracks, CreatesBranch, Detaches, TakesPath;
    assert ([w] + more)[1..] == more;
    OperandIsNoOption(w);
  }

  lemma OperandIsNoOption(w: string)
    requires Operand(w)
    ensures w != "--" && !CreatesBranch(w) && !Tracks(w) && !Detaches(w) && !TakesPath(w)
  {
    hide IsKey;
    NotKey(w, "--track", if |w| <= 1 then 1 else 0);
  }

  lemma LetterTable(sub: string, letters: string)
    requires LettersOf(letters, sub)
    ensures MadeOfLetters(letters)
    ensures forall c :: c in letters ==> c !in "bBcC"
  {
    forall c | c in letters ensures c != '-' && c !in "bBcC" {
      assert c in LettersFor(sub);
      LetterIs(c, sub);
    }
  }

  lemma LetterIs(c: char, sub: string)
    requires c in LettersFor(sub)
    ensures c != '-' && c !in "bBcC"
  {
  }

  lemma LettersScanned(a: SwitchArg, sub: string, more: seq<string>, created: Option<string>, tracks: bool, operands: seq<string>)
    requires a.SwitchLetters? && SwitchArgOk(a, sub)
    ensures SwitchesTo(SwitchWords(a) + more, created, tracks, operands) == AfterArg(a, more, created, tracks, operands)
  {
    hide Decided, TakesPath, Operand, IsKey;
    var w := "-" + a.letters;
    LetterTable(sub, a.letters);
    ShortForm(a.letters);
    assert operands + [] == operands;
    if |a.letters| >= 2 {
      Clustered(a.letters);
      SkipUnseen(w, more, created, tracks, operands);
    } else {
      assert a.letters == [a.letters[0]] && a.letters[0] in a.letters;
      assert ([w] + more)[1..] == more;
      assert w[1] == a.letters[0];
      OneLetter(a.letters[0]);
    }
  }

  lemma OneLetter(c: char)
    ensures c !in "bBcC" ==> !CreatesBranch("-" + [c])
    ensures c in "bBcC" ==> CreatesBranch("-" + [c])
    ensures "-" + [c] == "-t" <==> c == 't'
    ensures "-" + [c] == "-d" <==> c == 'd'
  {
    var w := "-" + [c];
    assert w[1] == c && |w| == 2;
    assert "-b"[1] == 'b' && "-B"[1] == 'B' && "-c"[1] == 'c' && "-C"[1] == 'C' && "-t"[1] == 't' && "-d"[1] == 'd';
    assert "-" + ['b'] == "-b" && "-" + ['B'] == "-B" && "-" + ['c'] == "-c" && "-" + ['C'] == "-C";
    assert "-" + ['t'] == "-t" && "-" + ['d'] == "-d";
    assert c in "bBcC" <==> c == 'b' || c == 'B' || c == 'c' || c == 'C' by {
      assert "bBcC" == ['b', 'B', 'c', 'C'];
    }
  }

  lemma MakerIs(make: char, sub: string)
    requires make in MakersFor(sub)
    ensures make in "bBcC" && make != '-'
  {
  }

  lemma NoOptionIsOperand(w: string)
    requires !IsOption(w)
    ensures Operand(w)
  {
  }

  lemma MakeWordScanned(a: SwitchArg, sub: string, more: seq<string>, created: Option<string>, tracks: bool, operands: seq<string>)
    requires a.MakeWord? && SwitchArgOk(a, sub)
    ensures SwitchesTo(SwitchWords(a) + more, created, tracks, operands) == AfterArg(a, more, created, tracks, operands)
  {
    hide Decided, TakesPath, Operand, IsKey;
    var letters := a.letters + [a.make];
    var w := "-" + a.letters + [a.make];
    assert w == "-" + letters;
    assert SwitchWords(a) + more == [w] + ([a.made] + more);
    LetterTable(sub, a.letters);
    MakerIs(a.make, sub);
    if a.letters == "" {
      assert w == "-" + [a.make];
      OneLetter(a.make);
      ShortForm(letters);
      assert ([w] + ([a.made] + more))[2..] == more;
      assert operands + [] == operands;
    } else {
      Clustered(letters);
      SkipUnseen(w, [a.made] + more, created, tracks, operands);
      NoOptionIsOperand(a.made);
      NameScanned(a.made, more, created, tracks, operands);
    }
  }

  lemma MakeJoinedScanned(a: SwitchArg, sub: string, more: seq<string>, created: Option<string>, tracks: bool, operands: seq<string>)
    requires a.MakeJoined? && SwitchArgOk(a, sub)
    ensures SwitchesTo(SwitchWords(a) + more, created, tracks, operands) == AfterArg(a, more, created, tracks, operands)
  {
    hide Decided, SwitchesTo;
    var w := "-" + a.letters + [a.make] + a.made;
    LetterTable(sub, a.letters);
    MakerIs(a.make, sub);
    JoinedUnseen(a.letters, a.make, a.made);
    SkipUnseen(w, more, created, tracks, operands);
    assert operands + [] == operands;
  }

  lemma JoinedUnseen(letters: string, make: char, made: string)
    requires MadeOfLetters(letters) && make != '-' && made != ""
    ensures Unseen("-" + letters + [make] + made)
  {
    var w := "-" + letters + [make] + made;
    assert |w| >= 3 && w[0] == '-';
    assert w[1] != '-' by {
      if letters != "" {
        assert w[1] == letters[0] && letters[0] in letters;
      }
    }
    NotKey(w, "--track", 1);
  }

  // ----- long options -----

  lemma LongWord(key: string)
    requires key != ""
    ensures var w := "--" + key; !Operand(w) && w != "--" && |w| > 2 && w[2..] == key
    ensures var w := "--" + key; forall other: string :: w == "--" + other <==> key == other
  {
    var w := "--" + key;
    assert w[0] == '-' && w[1] == '-';
    forall other: string ensures w == "--" + other <==> key == other {
      assert ("--" + other)[2..] == other;
    }
  }

  lemma LongClasses(key: string, value: Option<string>)
    requires key != "" && '=' !in key
    ensures var w := "--" + key + (if value.Some? then "=" + value.value else "");
      && !Operand(w) && w != "--"
      && (CreatesBranch(w) <==> value.None? && key == "orphan")
      && (Tracks(w) <==> key == "track")
      && (Detaches(w) <==> value.None? && key == "detach")
      && (TakesPath(w) <==> value.None? && key in {"conflict", "pathspec-from-file"})
  {
    var text := key + if value.Some? then "=" + value.value else "";
    var w := "--" + key + if value.Some? then "=" + value.value else "";
    assert w == "--" + text;
    LongWord(text);
    LongNames();
    if value.Some? {
      assert text[|key|] == '=';
      HasNoEquals(text, |key|);
    }
    TrackText(key, value, text);
  }

  lemma LongNames()
    ensures "--orphan" == "--" + "orphan" && "--detach" == "--" + "detach" && "--conflict" == "--" + "conflict"
    ensures "--pathspec-from-file" == "--" + "pathspec-from-file" && "--track" == "--" + "track"
  {
  }

  lemma HasNoEquals(text: string, k: nat)
    requires k < |text| && text[k] == '='
    ensures text !in {"orphan", "detach", "conflict", "pathspec-from-file", "track"}
  {
    assert '=' in text;
    assert '=' !in "orphan" && '=' !in "detach" && '=' !in "conflict" && '=' !in "pathspec-from-file" && '=' !in "track";
  }

  lemma TrackText(key: string, value: Option<string>, text: string)
    requires '=' !in key && text == key + (if value.Some? then "=" + value.value else "") && key != ""
    ensures IsKey("--" + text, "--track") <==> key == "track"
  {
    var w := "--" + text;
    assert w[2..] == text;
    if key == "track" {
      if value.Some? {
        assert w == "--track" + "=" + value.value;
        assert w[..8] == "--track=";
      } else {
        assert w == "--track";
      }
    } else {
      NoTrackText(key, value, text);
    }
  }

  lemma NoTrackText(key: string, value: Option<string>, text: string)
    requires '=' !in key && text == key + (if value.Some? then "=" + value.value else "") && key != "track"
    ensures !IsKey("--" + text, "--track")
  {
    var w := "--" + text;
    assert w[2..] == text;
    if value.Some? {
      assert text[|key|] == '=';
      HasNoEquals(text, |key|);
    }
    assert w == "--track" ==> text == "track" by { assert "--track"[2..] == "track"; }
    if |text| >= 6 && text[..6] == "track=" {
      FirstEquals(key, text, value);
    }
    assert |w| >= 8 ==> w[..8][2..] == text[..6];
    assert ("--track" + "=")[2..] == "track=";
  }

  /** The first `=` ends the key. */
  lemma FirstEquals(key: string, text: string, value: Option<string>)
    requires '=' !in key && text == key + (if value.Some? then "=" + value.value else "")
    requires |text| >= 6 && text[..6] == "track="
    ensures key == "track"
  {
    CutAt("track", '=', text[6..]);
    assert text == "track" + "=" + text[6..];
    assert BeforeFirst(text, '=') == "track";
    CutAt(key, '=', if value.Some? then value.value else "");
    assert value.Some? ==> text == key + "=" + value.value;
  }

  lemma LongScanned(a: SwitchArg, sub: string, more: seq<string>, created: Option<string>, tracks: bool, operands: seq<string>)
    requires (a.SwitchLong? || a.SwitchLongEquals?) && SwitchArgOk(a, sub)
    ensures SwitchesTo(SwitchWords(a) + more, created, tracks, operands) == AfterArg(a, more, created, tracks, operands)
  {
    hide Decided, ReadsAs, NamesFor, SwitchRoleOf, CreatesBranch, Tracks, Detaches, TakesPath, Operand, TakesWord;
    KeyOk(a, sub);
    var value := if a.SwitchLong? then None else Some(a.value);
    LongClasses(a.key, value);
    var w := SwitchWords(a)[0];
    assert w == "--" + a.key + if value.Some? then "=" + value.value else "" by {
      if a.SwitchLongEquals? {
        assert "--" + a.key + "=" + a.value == "--" + a.key + ("=" + a.value);
      }
    }
    assert ([w] + more)[1..] == more;
    assert operands + [] == operands;
  }

  lemma KeyOk(a: SwitchArg, sub: string)
    requires (a.SwitchLong? || a.SwitchLongEquals? || a.SwitchLongWord?) && SwitchArgOk(a, sub)
    ensures a.key != "" && '=' !in a.key
  {
    hide SwitchRoleOf, NamesFor;
  }

  lemma LongWordScanned(a: SwitchArg, sub: string, more: seq<string>, created: Option<string>, tracks: bool, operands: seq<string>)
    requires a.SwitchLongWord? && SwitchArgOk(a, sub)
    ensures SwitchesTo(SwitchWords(a) + more, created, tracks, operands) == AfterArg(a, more, created, tracks, operands)
  {
    hide Decided, ReadsAs, NamesFor, SwitchRoleOf, CreatesBranch, Tracks, Detaches, TakesPath, TakesWord;
    KeyOk(a, sub);
    LongClasses(a.key, None);
    var w := "--" + a.key;
    assert w + "" == w;
    assert SwitchWords(a) + more == [w] + ([a.value] + more);
    assert ([w] + ([a.value] + more))[2..] == more && ([w] + ([a.value] + more))[1] == a.value;
    assert operands + [] == operands;
    if a.key !in {"orphan", "conflict", "pathspec-from-file"} {
      SkipUnseen(w, [a.value] + more, created, tracks, operands);
      NameScanned(a.value, more, created, tracks, operands);
    }
  }

  lemma ArgScanned(a: SwitchArg, sub: string, more: seq<string>, created: Option<string>, tracks: bool, operands: seq<string>)
    requires SwitchArgOk(a, sub)
    ensures SwitchesTo(SwitchWords(a) + more, created, tracks, operands) == AfterArg(a, more, created, tracks, operands)
  {
    hide SwitchArgOk, SwitchesTo, AfterArg, SwitchWords;
    match a
    case Name(word) => NameArgScanned(word, sub, more, created, tracks, operands);
    case SwitchLetters(_) => LettersScanned(a, sub, more, created, tracks, operands);
    case MakeWord(_, _, _) => MakeWordScanned(a, sub, more, created, tracks, operands);
    case MakeJoined(_, _, _) => MakeJoinedScanned(a, sub, more, created, tracks, operands);
    case SwitchLongWord(_, _, _) => LongWordScanned(a, sub, more, created, tracks, operands);
    case _ => LongScanned(a, sub, more, created, tracks, operands);
  }

  lemma NameArgScanned(word: string, sub: string, more: seq<string>, created: Option<string>, tracks: bool, operands: seq<string>)
    requires SwitchArgOk(Name(word), sub)
    ensures SwitchesTo(SwitchWords(Name(word)) + more, created, tracks, operands) == AfterArg(Name(word), more, created, tracks, operands)
  {
    hide SwitchesTo;
    NameScanned(word, more, created, tracks, operands);
  }

  // ----- all of them -----

  function Latest(args: seq<SwitchArg>, created: Option<string>): Option<string> {
    if LastMade(args).Some? then LastMade(args) else created
  }

  /** The switch seen, after what was read before. */
  function Seen(args: seq<SwitchArg>, tail: Option<seq<string>>, created: Option<string>, tracks: bool, operands: seq<string>): Switch {
    if HasDetach(args) || (Latest(args, created).None? && tail.Some?) then Stays
    else Decided(Latest(args, created), tracks || HasTrack(args), operands + SeenNames(args))
  }

  lemma OneMoreArg(a: SwitchArg, more: seq<SwitchArg>)
    ensures HasDetach([a] + more) <==> SeesDetach(a) || HasDetach(more)
    ensures HasTrack([a] + more) <==> SeesTrack(a) || HasTrack(more)
  {
    hide SeesDetach, SeesTrack;
    var args := [a] + more;
    assert args[0] == a;
    assert forall x :: x in args <==> x == a || x in more;
  }

  lemma SeenMore(a: SwitchArg, more: seq<SwitchArg>, tail: Option<seq<string>>, created: Option<string>, tracks: bool,
        operands: seq<string>)
    ensures Seen([a] + more, tail, created, tracks, operands)
         == if SeesDetach(a) then Stays
            else Seen(more, tail, if SeenMade(a).Some? then SeenMade(a) else created, tracks || SeesTrack(a), operands + WordOf(SeenName(a)))
  {
    hide Decided, HasDetach, HasTrack, SeesDetach, SeesTrack, SeenMade, SeenName;
    OneMoreArg(a, more);
    assert ([a] + more)[1..] == more;
    var own := WordOf(SeenName(a));
    assert operands + own + SeenNames(more) == operands + (own + SeenNames(more));
  }

  /** The scan of a switch's words sees exactly these spellings. */
  lemma {:induction false} SwitchScanned(sub: string, args: seq<SwitchArg>, tail: Option<seq<string>>,
        created: Option<string>, tracks: bool, operands: seq<string>)
    requires forall a :: a in args ==> SwitchArgOk(a, sub)
    ensures SwitchesTo(AllSwitchWords(args) + TailWords(tail), created, tracks, operands) == Seen(args, tail, created, tracks, operands)
    decreases |args|
  {
    hide SwitchArgOk, SwitchWords, SwitchesTo, Seen, TailWords, SeenMade, SeenName, SeesTrack, SeesDetach;
    if args == [] {
      TailScanned(tail, created, tracks, operands);
    } else {
      var a, more := args[0], args[1..];
      var words := AllSwitchWords(more) + TailWords(tail);
      assert AllSwitchWords(args) + TailWords(tail) == SwitchWords(a) + words;
      ArgScanned(a, sub, words, created, tracks, operands);
      SeenMore(a, more, tail, created, tracks, operands);
      assert [a] + more == args;
      if !SeesDetach(a) {
        SwitchScanned(sub, more, tail, if SeenMade(a).Some? then SeenMade(a) else created, tracks || SeesTrack(a), operands + WordOf(SeenName(a)));
      }
    }
  }

  lemma TailScanned(tail: Option<seq<string>>, created: Option<string>, tracks: bool, operands: seq<string>)
    ensures SwitchesTo(AllSwitchWords([]) + TailWords(tail), created, tracks, operands) == Seen([], tail, created, tracks, operands)
  {
    hide Decided;
    var words := AllSwitchWords([]) + TailWords(tail);
    assert tail.Some? ==> words[0] == "--";
    assert operands + SeenNames([]) == operands;
  }

  // ----- what is noted of each command -----

  function NameSeen(name: string): Switch {
    if UnreadableRef(name) || '*' in name then CannotRead else To(StripHeads(name))
  }

  function SeenOf(git: Git): Switch
    requires GitOk(git)
  {
    match git
    case Switch(_, args, tail) => Seen(args, tail, None, false, [])
    case Rename(args) => NameSeen(RenameNames(args)[|RenameNames(args)| - 1])
    case StashBranch(branch, _) => NameSeen(branch)
    case SymbolicRef(_, reason, ref, to) => To(StripHeads(if reason.ReasonWord? then ref else to))
    case _ => Stays
  }

  /** What is read right is read as Git reads it, or gives up. */
  lemma RightIsRead(refs: Refs, git: Git)
    requires GitOk(git)
    ensures ReadRight(refs, git) <==>
              || ReachOf(git) == Nowhere || SeenOf(git) == CannotRead
              || (SeenOf(git).To? && Alone(refs, git, SeenOf(git).branch))
  {
    hide SwitchArgOk, RenameArgOk, MovesBranch, UnreadableRef, StripHeads, SwitchReach, SwitchRight, Linked;
    match git
    case Switch(sub, args, tail) => SwitchRightIsRead(refs, sub, args, tail);
    case _ =>
  }

  /** The branch reached is one of those HEAD may be put on. */
  lemma {:induction false} BranchReached(refs: Refs, git: Git)
    requires ReachOf(git).Reaches?
    ensures ReachOf(git).branch in Branches(refs, git, ReachOf(git).branch)
  {
    hide SwitchReach, UnreadableRef, Linked;
    if git.Aliased? {
      BranchReached(refs, git.git);
    }
    if git.SymbolicRef? {
      SameHeads(git.ref, git.to);
    }
  }

  lemma SameHeads(a: string, b: string)
    requires "refs/heads/" <= b && a != b
    ensures "refs/heads/" <= a ==> a[11..] != b[11..]
  {
    if "refs/heads/" <= a {
      assert a == a[..11] + a[11..] && b == b[..11] + b[11..];
    }
  }

  lemma SwitchRightIsRead(refs: Refs, sub: string, args: seq<SwitchArg>, tail: Option<seq<string>>)
    ensures SwitchRight(refs, sub, args, tail) <==>
              || SwitchReach(sub, args, tail) == Nowhere || Seen(args, tail, None, false, []) == CannotRead
              || (Seen(args, tail, None, false, []).To? && Alone(refs, Switch(sub, args, tail), Seen(args, tail, None, false, []).branch))
  {
    hide UnreadableBranch, StripHeads, SwitchReach, HasDetach, HasTrack, Alone;
    assert [] + SeenNames(args) == SeenNames(args);
  }

  lemma LowerHeads()
    ensures Lower("refs/heads/") == "refs/heads/"
  {
  }

  // ----- noting a command -----

  function WithSwitch(line: Line, seen: Switch): Line {
    match seen
    case Stays => line
    case CannotRead => line.(unreadable := true)
    case To(b) => line.(switched := line.switched + [b])
  }

  /** An invocation that is this command. */
  predicate CallOf(git: Git, words: seq<string>, call: Call) {
    && CallOk(words, call) && call.sub.Some? && words[call.sub.value] == SubOf(git)
    && words[call.sub.value + 1..call.end] == ArgsOf(git)
  }

  function Marked(line: Line, call: Call): Line {
    if call.elsewhere then line.(unreadable := true) else line
  }

  lemma LowerSubs()
    ensures Lower("push") == "push" && Lower("checkout") == "checkout" && Lower("switch") == "switch"
    ensures Lower("branch") == "branch" && Lower("stash") == "stash" && Lower("symbolic-ref") == "symbolic-ref"
    ensures Lower("rebase") == "rebase" && Lower("bisect") == "bisect"
  {
  }

  lemma SwitchNoted(git: Git, words: seq<string>, call: Call, line: Line)
    requires git.Switch? && GitOk(git) && CallOf(git, words, call)
    ensures NotedCall(line, words, call) == WithSwitch(Marked(line, call), SeenOf(git))
  {
    hide SwitchArgOk, SwitchesTo, Seen, Lower;
    LowerSubs();
    SwitchScanned(git.sub, git.switchArgs, git.tail, None, false, []);
  }

  lemma {:induction false} NamesRenamed(args: seq<RenameArg>)
    requires forall a :: a in args ==> RenameArgOk(a)
    ensures NonOptions(RenameWords(args)) == RenameNames(args)
  {
    hide RenameArgOk;
    if args != [] {
      NamesRenamed(args[1..]);
      RenameOption(args[0]);
      assert RenameWords(args)[1..] == RenameWords(args[1..]);
    }
  }

  lemma RenameOption(a: RenameArg)
    requires RenameArgOk(a)
    ensures IsOption(RenameWord(a)) <==> !a.RenameName?
    ensures a.RenameName? ==> RenameWord(a) == a.word
    ensures !SetsUpstream(RenameWord(a))
    ensures MovesBranch(a) ==> Renames(RenameWord(a))
  {
    hide SetsUpstream, Renames;
    match a
    case RenameLetters(letters) => RenameLettersRead(letters);
    case RenameLong(word) => RenameLongRead(word);
    case RenameName(word) => NoUpstream(word);
  }

  lemma NoUpstream(word: string)
    requires !IsOption(word)
    ensures !SetsUpstream(word)
  {
    hide IsKey;
    NotKey(word, "--track", 0);
    NotKey(word, "--set-upstream-to", 0);
  }

  lemma RenameLongRead(word: string)
    requires word in {"--force", "--quiet", "--move", "--mov", "--mo"}
    ensures IsOption(word) && !SetsUpstream(word)
    ensures word in {"--move", "--mov", "--mo"} ==> Renames(word)
  {
    hide IsKey;
    NotKey(word, "--track", 2);
    NotKey(word, "--set-upstream-to", 2);
  }

  lemma RenameLettersRead(letters: string)
    requires letters != "" && forall c :: c in letters ==> c in "fqmM"
    ensures IsOption("-" + letters) && !SetsUpstream("-" + letters)
    ensures 'm' in letters || 'M' in letters ==> Renames("-" + letters)
  {
    hide IsKey;
    var w := "-" + letters;
    assert forall k :: 1 <= k < |w| ==> w[k] == letters[k - 1] && letters[k - 1] in letters;
    assert w[1] in "fqmM";
    NotKey(w, "--track", 1);
    NotKey(w, "--set-upstream-to", 1);
    if 'm' in letters || 'M' in letters {
      var k :| 0 <= k < |letters| && (letters[k] == 'm' || letters[k] == 'M');
      assert w[k + 1] == letters[k];
      assert forall j :: 1 <= j < k + 1 ==> Letter(w[j]);
    }
  }

  lemma {:induction false} WordOfArg(args: seq<RenameArg>, w: string)
    ensures w in RenameWords(args) <==> exists a :: a in args && RenameWord(a) == w
  {
    if args != [] {
      WordOfArg(args[1..], w);
      assert args == [args[0]] + args[1..];
    }
  }

  lemma RenameNoted(git: Git, words: seq<string>, call: Call, line: Line)
    requires git.Rename? && GitOk(git) && CallOf(git, words, call)
    ensures NotedCall(line, words, call) == WithSwitch(Marked(line, call), SeenOf(git))
  {
    hide NonOptions, Renames, UnreadableRef, StripHeads, SetsUpstream, Lower, RenameArgOk, MovesBranch;
    LowerSubs();
    NamesRenamed(git.renameArgs);
    RenameFlags(git.renameArgs);
  }

  lemma RenameFlags(args: seq<RenameArg>)
    requires (forall a :: a in args ==> RenameArgOk(a)) && exists a :: a in args && MovesBranch(a)
    ensures !exists w :: w in RenameWords(args) && SetsUpstream(w)
    ensures exists w :: w in RenameWords(args) && Renames(w)
  {
    hide Renames, SetsUpstream, RenameArgOk, MovesBranch, RenameWord;
    forall w | w in RenameWords(args) ensures !SetsUpstream(w) {
      WordOfArg(args, w);
      var a :| a in args && RenameWord(a) == w;
      RenameOption(a);
    }
    var a :| a in args && MovesBranch(a);
    RenameOption(a);
    WordOfArg(args, RenameWord(a));
  }

  lemma StashNoted(git: Git, words: seq<string>, call: Call, line: Line)
    requires git.StashBranch? && GitOk(git) && CallOf(git, words, call)
    ensures NotedCall(line, words, call) == WithSwitch(Marked(line, call), SeenOf(git))
  {
    hide UnreadableRef, StripHeads, Lower;
    LowerSubs();
  }

  lemma ReasonNames(reason: Reason, end: seq<string>)
    requires reason.ReasonWord? ==> !IsOption(reason.text)
    ensures NonOptions(ReasonWords(reason) + end) == (if reason.ReasonWord? then [reason.text] else []) + NonOptions(end)
  {
    hide IsOption, NonOptions;
    match reason
    case NoReason =>
      assert [] + end == end && [] + NonOptions(end) == NonOptions(end);
    case ReasonWord(text) =>
      DashOption("-m");
      NextName("-m", [text] + end);
      NextName(text, end);
      assert ["-m", text] + end == ["-m"] + ([text] + end);
    case ReasonJoined(text) =>
      DashOption("-m" + text);
      NextName("-m" + text, end);
  }

  lemma RefNames(ref: string, to: string)
    requires !IsOption(ref) && !IsOption(to)
    ensures NonOptions([ref, to]) == [ref, to]
  {
    hide IsOption;
    NextName(ref, [to]);
    NextName(to, []);
    assert [to] + [] == [to] && [ref] + [to] == [ref, to] && NonOptions([]) == [];
  }

  /** The words of `symbolic-ref` that are no options. */
  lemma Operands(quiet: bool, reason: Reason, ref: string, to: string)
    requires GitOk(SymbolicRef(quiet, reason, ref, to))
    ensures NonOptions(ArgsOf(SymbolicRef(quiet, reason, ref, to))) == (if reason.ReasonWord? then [reason.text] else []) + [ref, to]
  {
    hide IsOption, NonOptions;
    var rest := ReasonWords(reason) + [ref, to];
    RefNames(ref, to);
    ReasonNames(reason, [ref, to]);
    DashOption("-q");
    NextName("-q", rest);
    var flags := if quiet then ["-q"] else [];
    assert ArgsOf(SymbolicRef(quiet, reason, ref, to)) == flags + ReasonWords(reason) + [ref, to];
    Associative(flags, ReasonWords(reason), [ref, to]);
    assert [] + rest == rest;
  }

  lemma DashOption(w: string)
    requires w != "" && w[0] == '-'
    ensures IsOption(w)
  {
  }

  lemma NextName(w: string, more: seq<string>)
    ensures NonOptions([w] + more) == (if IsOption(w) then [] else [w]) + NonOptions(more)
  {
    assert ([w] + more)[1..] == more;
  }

  lemma SymbolicNoted(git: Git, words: seq<string>, call: Call, line: Line)
    requires git.SymbolicRef? && GitOk(git) && CallOf(git, words, call)
    ensures NotedCall(line, words, call) == WithSwitch(Marked(line, call), SeenOf(git))
  {
    hide NonOptions, StripHeads, Lower;
    LowerSubs();
    Operands(git.quiet, git.reason, git.ref, git.to);
  }

  lemma NothingNoted(words: seq<string>, call: Call, line: Line)
    requires CallOk(words, call) && call.sub.Some? && Lower(words[call.sub.value]) !in NOTED_SUBS
    ensures NotedCall(line, words, call) == Marked(line, call)
  {
    hide Lower;
  }

  /** A command that may move HEAD leaves just what is seen of it. */
  lemma MoveIsNoted(git: Git, words: seq<string>, call: Call, line: Line)
    requires GitOk(git) && ReachOf(git) != Nowhere && CallOf(git, words, call)
    ensures NotedCall(line, words, call) == WithSwitch(Marked(line, call), SeenOf(git))
  {
    hide NotedCall, Builtin, SwitchReach, UnreadableRef, SwitchArgOk, RenameArgOk, MovesBranch, Lower, ArgsOf, NeverMoves, NameSeen, Seen;
    LowerSubs();
    match git
    case Switch(_, _, _) => SwitchNoted(git, words, call, line);
    case Rename(_) => RenameNoted(git, words, call, line);
    case StashBranch(_, _) => StashNoted(git, words, call, line);
    case SymbolicRef(_, _, _, _) => SymbolicNoted(git, words, call, line);
    case _ =>
      NotedAreBuiltin();
      NothingNoted(words, call, line);
  }

  lemma NotedAreBuiltin()
    ensures forall sub :: sub in NOTED_SUBS ==> GitsOwn(sub)
  {
  }
}
