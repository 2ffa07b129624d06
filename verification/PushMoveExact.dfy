/** Exactly when a push of HEAD after a command that may move HEAD is covered, and commands whose moves are missed. */
module PushMoveExact {
  import opened Common
  import opened PushText
  import opened PushAnalysis
  import opened PushSemantics
  import opened PushReach
  import opened PushReading
  import opened PushMoves
  import opened PushSoundness
  import opened PushExact
  import opened PushLineRead
  import opened PushLineExact

  /** What is noted of a line of one command. */
  function AfterOne(c: Command): Line {
    LineAfter(SitesOf([c]))
  }

  /** A push of HEAD whose words alone are not given up on, and that reads no settings in. */
  predicate Reported(p: Command) {
    HeadPush(p) && !ReadsIn(p.globals) && !PushGivenUp(false, p)
  }

  // ----- a line of two commands -----

  lemma TwoSites(c: Command, p: Command)
    ensures SitesOf([c]) == [SiteFor(c)] && SitesOf([c, p]) == [SiteFor(c), SiteFor(p)]
  {
    hide WordsOf;
    assert [c][1..] == [] && [c, p][1..] == [p] && [p][1..] == [];
    assert SitesOf([p]) == [SiteFor(p)];
  }

  lemma AnswerOfTwo(c: Command, p: Command)
    ensures TargetsOf(SitesOf([c, p])) == CallsRead(TargetsOf(SitesOf([c])), SiteFor(p), CallsFrom(WordsOf(p), 0), AfterOne(c))
    ensures AfterOne(c) == Noted(NEW_LINE, SiteFor(c))
    ensures TargetsOf(SitesOf([c])) == CallsRead(NO_TARGETS, SiteFor(c), CallsFrom(WordsOf(c), 0), NEW_LINE)
  {
    hide WordsOf, CallsRead, CallsFrom, Noted, SiteFor;
    TwoSites(c, p);
    OneSite(SiteFor(c));
    assert SiteFor(c).words == WordsOf(c) && SiteFor(p).words == WordsOf(p) by { SiteWords(c); SiteWords(p); }
    assert [SiteFor(c), SiteFor(p)][..1] == [SiteFor(c)];
    assert [SiteFor(c)][..0] == [];
    assert LineAfter([]) == NEW_LINE;
  }

  lemma SiteWords(c: Command)
    ensures SiteFor(c).words == WordsOf(c)
  {
  }

  /** The first invocation among a command's words is the command; the others come after its name. */
  lemma FirstCall(c: Command) returns (first: Call, rest: seq<Call>)
    requires c.RunGit? && CommandOk(c)
    ensures CallsFrom(WordsOf(c), 0) == [first] + rest
    ensures CallOk(WordsOf(c), first) && first.at == 0 && first.sub.Some? && WordsOf(c)[first.sub.value] == SubOf(c.git)
    ensures first.elsewhere <==> Leaves(c.globals)
    ensures forall call :: call in rest ==> CallOk(WordsOf(c), call) && call.at > 0
  {
    hide IsGitProgram, Leaves, ArgsOf, AllGlobalWords, GlobalOk, ConfigsOf, ChDirs, GitOk, IsOption, Globals;
    var words := WordsOf(c);
    var g := AllGlobalWords(c.globals);
    var sub := 1 + |g|;
    assert words[0] == c.program && words[1..sub] == g && words[sub] == SubOf(c.git);
    SubIsNoOption(c.git);
    GlobalsRead(words, 1, Call(0, None, |words|, [], [], false), c.globals);
    rest := CallsFrom(words, sub + 1);
    first := CallsFrom(words, 0)[0];
    assert first in CallsFrom(words, 0);
  }

  /** Some invocation among the words may push. */
  predicate MayPush(c: Command) {
    exists call :: call in CallsFrom(WordsOf(c), 0) && call.sub.Some? && GitRuns(SiteFor(c), call) != RunsOther
  }

  predicate SomeMayPush(site: Site, calls: seq<Call>)
    requires forall c :: c in calls ==> CallOk(site.words, c)
  {
    exists call :: call in calls && call.sub.Some? && GitRuns(site, call) != RunsOther
  }

  /** Invocations after the first make the answer give up if one may push, and else add nothing. */
  lemma {:induction false} LaterCalls(out: Targets, site: Site, calls: seq<Call>, line: Line)
    requires forall c :: c in calls ==> CallOk(site.words, c) && c.at > 0
    ensures if SomeMayPush(site, calls) then GivesUp(CallsRead(out, site, calls, line)) else CallsRead(out, site, calls, line) == out
    decreases |calls|
  {
    hide PushNoted, CallOk, GitRuns, OutGrows;
    if calls != [] {
      var call, rest := calls[0], calls[1..];
      assert calls == [call] + rest;
      assert CallOk(site.words, call);
      LaterCall(out, site, call, line);
      var next := CallRead(out, site, call, line);
      LaterCalls(next, site, rest, line);
      assert SomeMayPush(site, calls) <==> (call.sub.Some? && GitRuns(site, call) != RunsOther) || SomeMayPush(site, rest);
      CallsReadGrow(next, site, rest, line);
      GivenUpGrows(next, CallsRead(next, site, rest, line));
    }
  }

  lemma LaterCall(out: Targets, site: Site, call: Call, line: Line)
    requires CallOk(site.words, call) && call.at > 0
    ensures if call.sub.Some? && GitRuns(site, call) != RunsOther then GivesUp(CallRead(out, site, call, line)) else CallRead(out, site, call, line) == out
  {
    hide PushNoted, GitRuns, OutGrows;
    if call.sub.Some? && GitRuns(site, call) == RunsPush {
      PushNotedGrows(out.(unknown := true), site, call, line);
      GivenUpGrows(out.(unknown := true), PushNoted(out.(unknown := true), site, call, line));
    }
  }

  lemma MovesAreNoPush(git: Git)
    requires GitOk(git) && !git.Push?
    ensures Lower(SubOf(git)) != "push"
  {
    hide Lower, NeverMoves, SwitchArgOk, RenameArgOk, MovesBranch, Builtin;
    if git.Aliased? {
      AliasIsNotGits(git);
    } else {
      SubIsBuiltin(git);
    }
  }

  /** A command that is no push is answered with nothing, unless an invocation among its words may push. */
  lemma MoveAnswer(c: Command)
    requires c.RunGit? && CommandOk(c) && !c.git.Push?
    ensures if MayPush(c) then GivesUp(TargetsOf(SitesOf([c]))) else TargetsOf(SitesOf([c])) == NO_TARGETS
  {
    hide WordsOf, CallsFrom, Noted, Lower, GitOk, Leaves, PushNoted, LineAfter, SitesOf, TargetsOf, GlobalOk,
      IsGitProgram, UnreadableWord, Builtin,
      DefinesAlias, OutGrows;
    AnswerOfTwo(c, c);
    SiteWords(c);
    var first, rest := FirstCall(c);
    MovesAreNoPush(c.git);
    var calls, site := [first] + rest, SiteFor(c);
    assert calls[0] == first && calls[1..] == rest;
    var next := CallRead(NO_TARGETS, site, first, NEW_LINE);
    assert GitRuns(site, first) != RunsPush;
    assert if GitRuns(site, first) == RunsUnknown then GivesUp(next) else next == NO_TARGETS;
    LaterCalls(next, site, rest, NEW_LINE);
    CallsReadGrow(next, site, rest, NEW_LINE);
    GivenUpGrows(next, CallsRead(next, site, rest, NEW_LINE));
    MayPushFirst(c, first, rest);
  }

  lemma MayPushFirst(c: Command, first: Call, rest: seq<Call>)
    requires CallsFrom(WordsOf(c), 0) == [first] + rest && first.sub.Some?
    requires forall call :: call in [first] + rest ==> CallOk(WordsOf(c), call)
    ensures CallOk(SiteFor(c).words, first) && forall call :: call in rest ==> CallOk(SiteFor(c).words, call)
    ensures MayPush(c) <==> GitRuns(SiteFor(c), first) != RunsOther || SomeMayPush(SiteFor(c), rest)
  {
    hide WordsOf, CallsFrom, GitRuns, CallOk;
    SiteWords(c);
    assert forall call :: call in [first] + rest <==> call == first || call in rest;
  }

  /** What runs elsewhere leaves HEAD unreadable. */
  lemma AwayIsMarked(c: Command)
    requires CommandOk(c) && RunsAway(c)
    ensures AfterOne(c).unreadable
  {
    hide WordsOf, CallsFrom, NotedCall, NotedMove, Leaves, LineAfter, SitesOf, GitOk, GlobalOk, IsGitProgram;
    AnswerOfTwo(c, c);
    SiteWords(c);
    var first, rest := FirstCall(c);
    var site := SiteFor(c);
    var l := if site.elsewhere || site.touches then NEW_LINE.(unreadable := true) else NEW_LINE;
    var m := NotedMove(l, site.words);
    NotedMoveGrows(l, site.words);
    var calls := [first] + rest;
    assert calls[0] == first && calls[1..] == rest;
    ElsewhereNoted(m, site.words, first);
    NotedCallGrows(m, site.words, first);
    NotedCallsGrow(NotedCall(m, site.words, first), site.words, rest);
  }

  lemma NotedGrows(line: Line, site: Site)
    ensures LineGrows(line, Noted(line, site))
  {
    hide NotedMove, NotedCalls, CallsFrom;
    var l := if site.elsewhere || site.touches then line.(unreadable := true) else line;
    NotedMoveGrows(l, site.words);
    NotedCallsGrow(NotedMove(l, site.words), site.words, CallsFrom(site.words, 0));
  }

  // ----- the answer to the push -----

  /** An answer that names no branch but those switched to. */
  predicate Only(out: Targets, line: Line) {
    !GivesUp(out) && forall b :: b in out.branches ==> b in line.switched
  }

  lemma {:induction false} HeadNames(specs: seq<string>, seen: seq<string>)
    requires forall spec :: spec in specs ==> IsHeadWord(spec)
    ensures forall b :: b in AllSpecNames(specs, seen) ==> b in seen
  {
    hide IsHeadWord, SpecNames;
    if specs != [] {
      HeadNames(specs[1..], seen);
      OneHeadName(specs[0], seen);
    }
  }

  lemma OneHeadName(spec: string, seen: seq<string>)
    requires IsHeadWord(spec)
    ensures SpecNames(spec, seen) == seen
  {
    hide Unforced;
    HeadWord();
    IsHeadForms();
  }

  lemma PushNamesSeen(p: Command, seen: seq<string>)
    requires HeadPush(p)
    ensures forall b :: b in PushNames(p, seen) ==> b in seen
  {
    hide CommandOk, NamesGit, DryRun, Deletes, AllOperands, Asks, IsHeadWord;
    var operands := AllOperands(p.git.pushArgs, p.git.tail);
    if |operands| > 1 {
      HeadNames(operands[1..], seen);
    }
  }

  /** A reported push of HEAD names, after a readable state, just the branches switched to. */
  lemma AnswerOnly(c: Command, p: Command)
    requires Reported(p) && TargetsOf(SitesOf([c])) == NO_TARGETS && !AfterOne(c).unreadable
    ensures Only(TargetsOf(SitesOf([c, p])), AfterOne(c))
  {
    hide WordsOf, CallsFrom, CallsRead, ArgsOf, PushNoted, HeadPush, TargetsOf, SitesOf, AfterOne, ReadsIn, CommandOk,
      NamesGit, PushGivenUp, Reading,
      CallOf, PushNames;
    HeadPushIs(p);
    var call := GitCall(p);
    SiteIsOf(p);
    AnswerOfTwo(c, p);
    PushRuns(NO_TARGETS, p, call, AfterOne(c));
    PushGivesUp(NO_TARGETS, p, SiteFor(p), call, AfterOne(c));
    PushAdds(NO_TARGETS, p, SiteFor(p), call, AfterOne(c));
    PushNamesSeen(p, AfterOne(c).switched);
    assert [] + PushNames(p, AfterOne(c).switched) == PushNames(p, AfterOne(c).switched);
  }

  // ----- exactly when the move is noted -----

  /** What is noted of the command keeps up with HEAD. */
  predicate MoveKept(refs: Refs, c: Command)
    requires c.RunGit?
  {
    || ReachOf(c.git) == Nowhere || AfterOne(c).unreadable
    || (ReachOf(c.git).Reaches? && forall b :: b in Branches(refs, c.git, ReachOf(c.git).branch) ==> b in AfterOne(c).switched)
  }

  lemma KnownAfterOne(refs: Refs, c: Command, p: Command)
    ensures KnownAfter(refs, [c, p][..1]) == Next(Start(refs), c) && KnownAfter(refs, [c, p][..0]) == Start(refs)
  {
    hide Next;
    assert [c, p][..1] == [c] && [c, p][..0] == [];
    assert [c][..0] == [];
    assert KnownAfter(refs, []) == Start(refs);
  }

  lemma SaidOfTwo(refs: Refs, c: Command, p: Command, out: Targets)
    requires !IsPush(c) && IsPush(p)
    ensures SaysAll(out, refs, [c, p]) <==> GivesUp(out) || PushSaid(out, Next(Start(refs), c), p)
  {
    hide PushSaid, Next, KnownAfter;
    KnownAfterOne(refs, c, p);
    assert [c, p][0] == c && [c, p][1] == p;
  }

  lemma StartHeld(refs: Refs, c: Command)
    ensures Contains(AfterOne(c), Start(refs))
  {
    hide AfterOne, WordsOf, Noted, SiteFor;
    AnswerOfTwo(c, c);
    NotedGrows(NEW_LINE, SiteFor(c));
    assert Slashed([]) == "";
    assert DirKnown(NEW_LINE, []);
    assert Contains(NEW_LINE, Start(refs));
    ContainsGrows(NEW_LINE, AfterOne(c), Start(refs));
  }

  lemma KeptContains(refs: Refs, c: Command)
    requires c.RunGit? && CommandOk(c) && MoveKept(refs, c)
    ensures Contains(AfterOne(c), Next(Start(refs), c))
  {
    hide AfterOne, ReachOf, CommandOk, RunsAway, DirKnown, Branches, RefsAfter;
    StartHeld(refs, c);
    if RunsAway(c) {
      AwayIsMarked(c);
    }
  }

  lemma NotKeptUnsaid(refs: Refs, c: Command, p: Command, out: Targets)
    requires c.RunGit? && !MoveKept(refs, c) && Only(out, AfterOne(c)) && HeadPush(p)
    ensures !PushSaid(out, Next(Start(refs), c), p)
  {
    hide AfterOne, ReachOf, RunsAway, HeadPush, PushSaid, Leaves, Redirected, DirSaid, Branches, RefsAfter;
    HeadPushIs(p);
    var k := Next(Start(refs), c);
    assert k.lost || (ReachOf(c.git).Reaches? && forall b :: b in Branches(refs, c.git, ReachOf(c.git).branch) ==> b in k.moved);
    if PushSaid(out, k, p) {
      HeadPushSaid(out, k, p);
      assert false;
    }
  }

  /**
   * For every command, whatever refs are symbolic, and every push of HEAD reported on its own: the push after the
   * command is covered in every run if and only if what is noted of the command keeps up with HEAD, or an
   * invocation among the command's words may push.
   */
  lemma MoveNotedExactly(refs: Refs, c: Command, p: Command)
    requires c.RunGit? && !c.git.Push? && CommandOk(c) && Reported(p)
    ensures AllCovered(refs, [c, p], TargetsOf(SitesOf([c, p]))) <==> MoveKept(refs, c) || MayPush(c)
  {
    hide AllCovered, SaysAll, TargetsOf, SitesOf, MoveKept, CommandOk, HeadPush, ReadsIn, PushSaid, Next, AfterOne,
      MayPush, PushGivenUp, GivesUp,
      Only, CallsRead, CallsFrom, WordsOf;
    var out := TargetsOf(SitesOf([c, p]));
    NotPush(c);
    HeadPushIs(p);
    CoveredExactly(refs, [c, p], out);
    SaidOfTwo(refs, c, p, out);
    AnswerOfTwo(c, p);
    MoveAnswer(c);
    if MoveKept(refs, c) {
      KeptContains(refs, c);
      HeadPushFollowed(Next(Start(refs), c).refs, p);
      SiteIsOf(p);
      CommandSays(TargetsOf(SitesOf([c])), p, SiteFor(p), AfterOne(c), Next(Start(refs), c));
    } else if MayPush(c) {
      GivenUpStays(c, p);
    } else {
      Moving(refs, c);
      AnswerOnly(c, p);
      OnlyKept(out, AfterOne(c));
      NotKeptUnsaid(refs, c, p, out);
    }
  }

  lemma NotPush(c: Command)
    requires c.RunGit? && !c.git.Push?
    ensures !IsPush(c)
  {
  }

  lemma OnlyKept(out: Targets, line: Line)
    requires Only(out, line)
    ensures !GivesUp(out)
  {
  }

  lemma Moving(refs: Refs, c: Command)
    requires c.RunGit? && !MoveKept(refs, c)
    ensures ReachOf(c.git) != Nowhere && !AfterOne(c).unreadable
  {
    hide ReachOf, AfterOne;
  }

  lemma GivenUpStays(c: Command, p: Command)
    requires GivesUp(TargetsOf(SitesOf([c])))
    ensures GivesUp(TargetsOf(SitesOf([c, p])))
  {
    hide TargetsOf, SitesOf, CallsRead, CallsFrom, WordsOf, OutGrows, AfterOne;
    AnswerOfTwo(c, p);
    SiteWords(p);
    CallsReadGrow(TargetsOf(SitesOf([c])), SiteFor(p), CallsFrom(WordsOf(p), 0), AfterOne(c));
    GivenUpGrows(TargetsOf(SitesOf([c])), TargetsOf(SitesOf([c, p])));
  }

  // ----- exactly when its words are read right -----

  /** A program in a folder named like `cd x` is read as a change of folder too. */
  predicate ReadAsLeaving(c: Command) {
    DirectoryChange(WordsOf(c)) == Leave
  }

  lemma {:induction false} FewMoved(dirs: seq<string>, from: seq<string>, to: string)
    requires |dirs| <= 1 && |from| <= 1
    ensures |DirsMoved(dirs, from, to)| <= 2
  {
    hide JoinDir;
    if from != [] {
      var more := AddNew(dirs, JoinDir(from[0], [to]));
      assert from[1..] == [];
      assert DirsMoved(more, [], to) == more;
    }
  }

  lemma MoveFromStart(words: seq<string>)
    ensures var m := NotedMove(NEW_LINE, words); m.switched == [] && (m.unreadable <==> DirectoryChange(words) == Leave)
  {
    hide DirectoryChange, DirsMoved;
    match DirectoryChange(words)
    case MoveTo(to) => FewMoved(NEW_LINE.dirs, NEW_LINE.dirs, to);
    case _ =>
  }

  lemma OneNoted(c: Command)
    requires c.RunGit? && CommandOk(c) && !NamesGit(c.git) && !RunsAway(c) && ReachOf(c.git) != Nowhere
    ensures AfterOne(c) == WithSwitch(NotedMove(NEW_LINE, WordsOf(c)), SeenOf(c.git))
  {
    hide WordsOf, CallsFrom, NotedCall, NotedMove, Leaves, LineAfter, SitesOf, TargetsOf, GitOk, GlobalOk,
      IsGitProgram, ArgsOf, SeenOf, ReachOf, ConfigsOf, ChDirs, CallsRead;
    AnswerOfTwo(c, c);
    SiteIsOf(c);
    var call := OneCall(c);
    var m := NotedMove(NEW_LINE, WordsOf(c));
    NotedOne(m, WordsOf(c), call);
    MoveIsNoted(c.git, WordsOf(c), call, m);
  }

  lemma KeptExactly(refs: Refs, c: Command)
    requires c.RunGit? && CommandOk(c) && !NamesGit(c.git)
    ensures MoveKept(refs, c) <==> RunsAway(c) || ReachOf(c.git) == Nowhere || ReadAsLeaving(c) || ReadRight(refs, c.git)
  {
    hide AfterOne, ReachOf, RunsAway, NamesGit, SeenOf, ReadRight, NotedMove, WordsOf, GlobalOk, IsGitProgram, GitOk,
      DirectoryChange, Branches;
    if RunsAway(c) {
      AwayIsMarked(c);
    } else if ReachOf(c.git) != Nowhere {
      OneNoted(c);
      MoveFromStart(WordsOf(c));
      RightIsRead(refs, c.git);
      if ReachOf(c.git).Reaches? {
        BranchReached(refs, c.git);
      }
    }
  }

  /** With one invocation, what may push is an alias. */
  lemma OneMayPush(c: Command)
    requires c.RunGit? && CommandOk(c) && !NamesGit(c.git) && !c.git.Push?
    ensures MayPush(c) <==> AliasUnknown(c)
  {
    hide WordsOf, CallsFrom, CommandOk, NamesGit, GitRuns, AliasUnknown, CallOf, Reading;
    var call := GitCall(c);
    SiteIsOf(c);
    AliasRuns(c, call);
    CallIsSub(c, call);
    assert call in [call] && forall x :: x in [call] ==> x == call;
  }

  lemma CallIsSub(c: Command, call: Call)
    requires c.RunGit? && CallOf(c.git, WordsOf(c), call)
    ensures call.sub.Some? && CallOk(WordsOf(c), call)
  {
    hide WordsOf;
  }

  /**
   * For every Git command none of whose arguments names Git, any options and any tail, whatever refs are
   * symbolic, and every push of HEAD reported on its own: the push after the command is covered in every run if
   * and only if the command is spelled in a way that is read right, or is read as run elsewhere, or is an alias
   * that is read as a push.
   */
  lemma MoveSoundExactly(refs: Refs, c: Command, p: Command)
    requires c.RunGit? && !c.git.Push? && CommandOk(c) && !NamesGit(c.git) && Reported(p)
    ensures AllCovered(refs, [c, p], TargetsOf(SitesOf([c, p]))) <==>
              RunsAway(c) || ReadAsLeaving(c) || ReadRight(refs, c.git) || AliasUnknown(c)
  {
    hide AllCovered, TargetsOf, SitesOf, MoveKept, CommandOk, Reported, NamesGit, RunsAway, ReadAsLeaving, ReadRight,
      ReachOf, MayPush, AliasUnknown;
    MoveNotedExactly(refs, c, p);
    KeptExactly(refs, c);
    OneMayPush(c);
    if ReachOf(c.git) == Nowhere {
      NowhereIsRight(refs, c);
    }
  }

  lemma NowhereIsRight(refs: Refs, c: Command)
    requires c.RunGit? && CommandOk(c) && ReachOf(c.git) == Nowhere
    ensures ReadRight(refs, c.git)
  {
    hide ReachOf, SeenOf, ReadRight, GlobalOk, IsGitProgram, GitOk;
    RightIsRead(refs, c.git);
  }

  // ----- switches spelled plainly -----

  /** Each word is written out, and each option that makes, tracks or detaches the way that is looked for, not taken back. */
  predicate PlainlySpelled(a: SwitchArg) {
    Written(ValueOf(a)) && LookedFor(a)
  }

  predicate LookedFor(a: SwitchArg) {
    match a
    case Name(_) => true
    case SwitchLetters(letters) => letters == "t" || letters == "d" || ('t' !in letters && 'd' !in letters)
    case MakeWord(letters, _, _) => letters == ""
    case MakeJoined(_, _, _) => false
    case SwitchLong(key, name, negated) => !Makes(SwitchRoleOf(name)) && (name in {"track", "detach"} ==> key == name && !negated)
    case SwitchLongEquals(key, name, _) => !Makes(SwitchRoleOf(name)) && (name == "track" ==> key == name)
    case SwitchLongWord(key, name, _) => key == name && name in {"orphan", "conflict", "pathspec-from-file"}
  }

  predicate Among(made: Option<string>, t: Taken) {
    made == t.made || made == t.forced || made == t.orphan
  }

  predicate SameMade(a: Taken, b: Taken) {
    a.made == b.made && a.forced == b.forced && a.orphan == b.orphan
  }

  predicate TakenAsSeen(t: Taken, a: SwitchArg) {
    var r := TakenOne(t, a);
    && r.tracking == (if SeesTrack(a) then Some(true) else t.tracking) && r.detach == (t.detach || SeesDetach(a))
    && (if SeenMade(a).Some? then Among(SeenMade(a), r) else SameMade(r, t))
    && SeenName(a) == if a.Name? then Some(a.word) else None
  }

  lemma OneTaken(t: Taken, a: SwitchArg, sub: string)
    requires PlainlySpelled(a) && SwitchArgOk(a, sub)
    ensures TakenAsSeen(t, a)
  {
    hide ReadsAs, NamesFor, LettersFor, MakersFor, Operand, TakenAsSeen;
    match a
    case SwitchLetters(letters) => LettersAsSeen(t, letters);
    case SwitchLong(key, name, negated) => LongAsSeen(t, a, sub);
    case SwitchLongEquals(key, name, value) => LongAsSeen(t, a, sub);
    case _ => OtherAsSeen(t, a);
  }

  lemma LettersAsSeen(t: Taken, letters: string)
    requires letters == "t" || letters == "d" || ('t' !in letters && 'd' !in letters)
    ensures TakenAsSeen(t, SwitchLetters(letters))
  {
    LettersTaken(letters);
  }

  lemma OtherAsSeen(t: Taken, a: SwitchArg)
    requires PlainlySpelled(a) && !a.SwitchLetters? && !a.SwitchLong? && !a.SwitchLongEquals?
    ensures TakenAsSeen(t, a)
  {
    hide SwitchRoleOf, WithLetters;
    assert WithLetters(t, "") == t by { NoLetters(t); }
    WordRoles();
  }

  lemma NoLetters(t: Taken)
    ensures WithLetters(t, "") == t
  {
  }

  lemma WordRoles()
    ensures SwitchRoleOf("orphan") == MakesOrphan && SwitchRoleOf("conflict") == NeedsWord && SwitchRoleOf("pathspec-from-file") == PathsFrom
  {
  }

  lemma LongAsSeen(t: Taken, a: SwitchArg, sub: string)
    requires (a.SwitchLong? || a.SwitchLongEquals?) && LookedFor(a) && SwitchArgOk(a, sub)
    ensures TakenAsSeen(t, a)
  {
    hide LookedFor, SwitchRoleOf, SwitchArgOk;
    LongRole(a.name);
    LongRead(a, sub);
    LookedForLong(a);
  }

  lemma LongRead(a: SwitchArg, sub: string)
    requires (a.SwitchLong? || a.SwitchLongEquals?) && SwitchArgOk(a, sub)
    ensures a.key == "track" || a.key == "detach" ==> a.name == a.key && (a.SwitchLong? ==> !a.negated)
    ensures a.SwitchLongEquals? ==> SwitchRoleOf(a.name) != Detaching
  {
    hide ReadsAs, NamesFor, Operand, CHECKOUT_NAMES, SWITCH_NAMES;
    LongTaken(a.key, a.name, a.SwitchLong? && a.negated, sub);
  }

  lemma LookedForLong(a: SwitchArg)
    requires (a.SwitchLong? || a.SwitchLongEquals?) && LookedFor(a)
    ensures !Makes(SwitchRoleOf(a.name)) && (a.name == "track" ==> a.key == a.name && (a.SwitchLong? ==> !a.negated))
    ensures a.SwitchLong? && a.name == "detach" ==> a.key == a.name && !a.negated
  {
    hide SwitchRoleOf;
  }

  lemma LongRole(name: string)
    ensures SwitchRoleOf(name) == Tracking <==> name == "track"
    ensures SwitchRoleOf(name) == Detaching <==> name == "detach"
  {
  }

  lemma LettersTaken(letters: string)
    requires letters == "t" || letters == "d" || ('t' !in letters && 'd' !in letters)
    ensures 't' in letters <==> letters == "t"
    ensures 'd' in letters <==> letters == "d"
  {
  }

  /** An option written as another's whole name is that option. */
  lemma TrackRead(key: string, name: string, sub: string)
    requires ReadsAs(NamesFor(sub), key, name, false)
    ensures key == "track" ==> name == "track"
    ensures key == "detach" ==> name == "detach"
  {
    TrackIsName(sub);
    assert FormOf("track", false) == "track" && FormOf("detach", false) == "detach";
    assert FormOf(name, false) == name;
  }

  lemma TrackIsName(sub: string)
    ensures "track" in NamesFor(sub) && "detach" in NamesFor(sub)
  {
    assert CHECKOUT_NAMES[6] == "track" && CHECKOUT_NAMES[5] == "detach";
    assert SWITCH_NAMES[10] == "track" && SWITCH_NAMES[9] == "detach";
  }

  lemma LongTaken(key: string, name: string, negated: bool, sub: string)
    requires ReadsAs(NamesFor(sub), key, name, negated)
    ensures key == "track" || key == "detach" ==> name == key && !negated
  {
    if negated {
      assert FormOf(name, true) == "no-" + name;
      PrefixAgrees(key, "no-" + name, 0);
    } else {
      TrackRead(key, name, sub);
    }
  }

  lemma {:induction false} AllPlainlyTaken(t: Taken, args: seq<SwitchArg>, sub: string)
    requires forall a :: a in args ==> PlainlySpelled(a) && SwitchArgOk(a, sub)
    ensures var r := AllTaken(t, args);
            && r.tracking == (if HasTrack(args) then Some(true) else t.tracking) && r.detach == (t.detach || HasDetach(args))
            && (if LastMade(args).Some? then Among(LastMade(args), r) else SameMade(r, t))
    ensures SeenNames(args) == SwitchNames(args)
    decreases |args|
  {
    hide PlainlySpelled, SwitchArgOk, TakenOne, SeenMade, SeenName, SeesTrack, SeesDetach, HasTrack, HasDetach;
    if args == [] {
      assert !HasTrack([]) && !HasDetach([]) by { NoneSeen(); }
    } else {
      OneTaken(t, args[0], sub);
      AllPlainlyTaken(TakenOne(t, args[0]), args[1..], sub);
      assert [args[0]] + args[1..] == args;
      OneMoreArg(args[0], args[1..]);
    }
  }

  lemma NoneSeen()
    ensures !HasTrack([]) && !HasDetach([])
  {
  }

  lemma MadeIsLast(r: Taken, args: seq<SwitchArg>)
    requires if LastMade(args).Some? then Among(LastMade(args), r) else SameMade(r, NOTHING_TAKEN)
    requires !Refused(r)
    ensures Made(r) == LastMade(args)
  {
    hide LastMade;
  }

  /**
   * The ways a plainly spelled switch is misread: a `--` with no new branch; or what is seen can be read and is
   * followed by nothing with a `/`, and yet the new branch may follow its start point, or the branch is another
   * than the one noted, which has no `refs/heads/` in front and stands for no other with these refs.
   */
  predicate Misread(refs: Refs, sub: string, args: seq<SwitchArg>, tail: Option<seq<string>>)
    requires LastMade(args).Some? || NamesGiven(sub, args, tail) != []
  {
    var made, names := LastMade(args), NamesGiven(sub, args, tail);
    var branch := if made.Some? then made.value else names[0];
    || (made.None? && tail.Some?)
    || (&& !UnreadableBranch(branch) && !HasTrack(args) && !(made.Some? && exists n :: n in SwitchNames(args) && '/' in n)
        && (|| (made.Some? && MayFollow(AllTaken(NOTHING_TAKEN, args), names))
            || StripHeads(branch) != branch || !(Linked(refs, {"refs/heads/" + branch}) <= {branch})))
  }

  /** A plainly spelled switch is read right exactly when it moves HEAD nowhere, or in none of these ways. */
  lemma PlainSwitchExactly(refs: Refs, sub: string, args: seq<SwitchArg>, tail: Option<seq<string>>)
    requires forall a :: a in args ==> PlainlySpelled(a) && SwitchArgOk(a, sub)
    ensures SwitchReach(sub, args, tail) != Nowhere ==> LastMade(args).Some? || NamesGiven(sub, args, tail) != []
    ensures SwitchRight(refs, sub, args, tail) <==> SwitchReach(sub, args, tail) == Nowhere || !Misread(refs, sub, args, tail)
  {
    hide LookedFor, SwitchArgOk, LastMade, SwitchNames, SeenNames, AllTaken, HasTrack, HasDetach, UnreadableBranch, UnreadableRef,
      StripHeads, Several, ForPaths, HasPaths, MayFollow, Linked, AfterRemote, Written;
    AllPlainlyTaken(NOTHING_TAKEN, args, sub);
    var t := AllTaken(NOTHING_TAKEN, args);
    assert !SomeUnwritten(args);
    assert tail.None? ==> NamesGiven(sub, args, tail) == SwitchNames(args);
    TracksFollow(t, NamesGiven(sub, args, tail));
    if !Refused(t) {
      MadeIsLast(t, args);
    }
  }

  lemma TracksFollow(t: Taken, names: seq<string>)
    ensures t.tracking == Some(true) ==> MayFollow(t, names)
  {
  }

  // ----- moves that are missed -----

  const PLAIN_PUSH := RunGit("git", [], Push([], None), false)

  lemma {:induction false} OneRun(s: string)
    requires forall c :: c in s ==> !Space(c)
    ensures FirstRun(s) == s
  {
    if s != "" {
      OneRun(s[1..]);
    }
  }

  lemma GitStaysHere()
    ensures !ChangesDirectory("git")
  {
    hide AfterLast, FirstRun, Space;
    NotSpaces();
    OneRun("git");
    NoSeparators("git", "/\\");
    assert Lower("git") == "git";
    assert StripExtension("git") == "git";
    assert CommandWord("git") == "git";
  }

  lemma NotSpaces()
    ensures !Space('g') && !Space('i') && !Space('t')
  {
  }

  lemma PlainPushReported()
    ensures Reported(PLAIN_PUSH)
  {
    hide IsGitProgram;
    WordsHere("", "");
    assert ArgsOf(PLAIN_PUSH.git) == [];
    assert HeadPush(PLAIN_PUSH);
    assert !SomeEvery([]) && AllOperands([], None) == [];
  }

  /** `git <git>; git push`. */
  function Then(git: Git): seq<Command> {
    [RunGit("git", [], git, false), PLAIN_PUSH]
  }

  ghost predicate Missed(git: Git) {
    !AllCovered(PLAIN_REFS, Then(git), TargetsOf(SitesOf(Then(git))))
  }

  lemma MissedAfter(git: Git)
    requires GitOk(git) && !git.Push? && !NamesGit(git) && !ReadRight(PLAIN_REFS, git) && (git.Aliased? ==> git.word == "co")
    ensures Missed(git)
  {
    hide AllCovered, TargetsOf, SitesOf, Reported, NamesGit, ReadRight, GitOk, IsGitProgram, ChangesDirectory, AliasUnknown;
    var c := RunGit("git", [], git, false);
    PlainPushReported();
    WordsHere("", "");
    GitStaysHere();
    assert WordAt(WordsOf(c), 0) == "git";
    AliasKnown(c);
    MoveSoundExactly(PLAIN_REFS, c, PLAIN_PUSH);
  }

  lemma AliasKnown(c: Command)
    requires c.RunGit? && c.globals == [] && !c.elsewhere && (c.git.Aliased? ==> c.git.word == "co")
    ensures !AliasUnknown(c)
  {
    assert Lower("co") == "co";
    assert !UnreadableWord("co");
    assert ConfigsOf([]) == [];
  }

  lemma DashedIsNotGit(word: string)
    requires word != "" && word[0] == '-' && forall c :: c in word ==> c !in "/\\^`"
    ensures !IsGitProgram(word)
  {
    NoSeparators(word, "/\\");
    NoSeparators(word, "/");
    NothingRemoved(word, "\\^`");
    assert Lower(word)[0] == '-';
    assert "git"[0] == 'g' && "git.exe"[0] == 'g';
  }

  lemma {:induction false} NothingRemoved(s: string, chars: string)
    requires forall c :: c in s ==> c !in chars
    ensures Without(s, chars) == s
  {
    if s != "" {
      NothingRemoved(s[1..], chars);
    }
  }

  lemma PlainBranch(b: string)
    requires Plain(b)
    ensures !UnreadableBranch(b) && !IsOption(b) && Operand(b) && StripHeads(b) == b && '/' !in b && !UnreadableRef(b) && '*' !in b
    ensures Written(b)
  {
    hide UnreadableRef, StripHeads, IsOption;
    PlainReadable(b);
    PlainName(b);
    assert Letter(b[0]);
    NoDash(b);
    PrefixAgrees("@{", b, 0);
  }

  lemma OneArg(a: SwitchArg)
    ensures AllSwitchWords([a]) == SwitchWords(a) && SwitchNames([a]) == (if a.Name? then [a.word] else [])
    ensures AllTaken(NOTHING_TAKEN, [a]) == TakenOne(NOTHING_TAKEN, a)
    ensures LastMade([a]) == SeenMade(a) && SeenNames([a]) == WordOf(SeenName(a))
    ensures HasTrack([a]) == SeesTrack(a) && HasDetach([a]) == SeesDetach(a)
    ensures SomeUnwritten([a]) == !Written(ValueOf(a))
  {
    hide SeesTrack, SeesDetach, Written;
    assert [a][1..] == [];
    assert a in [a] && forall x :: x in [a] ==> x == a;
  }

  function CheckoutOne(a: SwitchArg, tail: Option<seq<string>>): Git {
    Switch("checkout", [a], tail)
  }

  /** What one option makes, when it is written in none of the ways looked for. */
  predicate MakesUnseen(a: SwitchArg, b: string) {
    && SwitchArgOk(a, "checkout") && SeenMade(a).None? && SeenName(a).None?
    && var t := TakenOne(NOTHING_TAKEN, a);
       Made(t) == Some(b) && !Refused(t) && t.tracking.None? && !t.detach && !ForPaths(t)
  }

  lemma UnseenReach(a: SwitchArg, b: string)
    requires MakesUnseen(a, b) && Plain(b)
    ensures !ReadRight(PLAIN_REFS, CheckoutOne(a, None))
  {
    hide UnreadableBranch, SwitchArgOk, TakenOne, SwitchWords, Linked, ForPaths;
    OneArg(a);
    PlainBranch(b);
    assert !a.Name?;
  }

  lemma UnseenMissed(a: SwitchArg, b: string)
    requires MakesUnseen(a, b) && Plain(b) && forall w :: w in SwitchWords(a) ==> !IsGitProgram(w)
    ensures Missed(CheckoutOne(a, None))
  {
    hide IsGitProgram, Missed, ReadRight, SwitchWords, SwitchArgOk, TakenOne;
    UnseenReach(a, b);
    OneArg(a);
    UnseenArgs(a);
    assert MakesUnseen(a, b) ==> SwitchArgOk(a, "checkout");
    MissedAfter(CheckoutOne(a, None));
  }

  lemma UnseenArgs(a: SwitchArg)
    ensures ArgsOf(CheckoutOne(a, None)) == SwitchWords(a)
  {
    hide SwitchWords;
    OneArg(a);
    assert SwitchWords(a) + [] == SwitchWords(a);
  }

  /** `git checkout -Bmain`. */
  lemma JoinedMissed(b: string)
    requires Plain(b)
    ensures Missed(CheckoutOne(MakeJoined("", 'B', b), None))
  {
    hide IsGitProgram, Missed;
    var a := MakeJoined("", 'B', b);
    PlainBranch(b);
    assert 'B' in "bB";
    assert WithLetters(NOTHING_TAKEN, "") == NOTHING_TAKEN;
    DashedIsNotGit("-" + "" + ['B'] + b);
    UnseenMissed(a, b);
  }

  lemma OrphanOk(b: string)
    requires !IsOption(b)
    ensures MakesUnseen(SwitchLongEquals("orphan", "orphan", b), b)
  {
    assert CHECKOUT_NAMES[8] == "orphan" && '=' !in "orphan" && FormOf("orphan", false) == "orphan";
  }

  /** `git checkout --orphan=main`. */
  lemma EqualsMissed(b: string)
    requires Plain(b)
    ensures Missed(CheckoutOne(SwitchLongEquals("orphan", "orphan", b), None))
  {
    hide IsGitProgram, Missed, MakesUnseen;
    PlainBranch(b);
    OrphanOk(b);
    DashedIsNotGit("--" + "orphan" + "=" + b);
    UnseenMissed(SwitchLongEquals("orphan", "orphan", b), b);
  }

  lemma LoneMakerOk(name: string)
    requires !IsOption(name)
    ensures var a := MakeWord("", 'b', name);
            SwitchArgOk(a, "checkout") && TakenOne(NOTHING_TAKEN, a) == NOTHING_TAKEN.(made := Some(name)) && SwitchWords(a) == ["-b", name]
  {
    assert 'b' in "bB";
    assert "-" + "" + ['b'] == "-b";
  }

  lemma LiteralReach(b: string)
    requires Plain(b)
    ensures !ReadRight(PLAIN_REFS, CheckoutOne(MakeWord("", 'b', "refs/heads/" + b), None))
  {
    hide SwitchArgOk, TakenOne, UnreadableBranch, StripHeads, Linked, Written;
    var name := "refs/heads/" + b;
    OneArg(MakeWord("", 'b', name));
    NoDash(name);
    LoneMakerOk(name);
    LiteralReadable(b);
  }

  /** `git checkout -b refs/heads/main` makes a branch of that whole name. */
  lemma LiteralMissed(b: string)
    requires Plain(b) && !IsGitProgram("refs/heads/" + b)
    ensures Missed(CheckoutOne(MakeWord("", 'b', "refs/heads/" + b), None))
  {
    hide IsGitProgram, Missed, SwitchArgOk, ReadRight, SwitchWords;
    var name := "refs/heads/" + b;
    var a := MakeWord("", 'b', name);
    NoDash(name);
    LoneMakerOk(name);
    LiteralReach(b);
    UnseenArgs(a);
    DashedIsNotGit("-b");
    MissedAfter(CheckoutOne(a, None));
  }

  lemma LiteralReadable(b: string)
    requires Plain(b)
    ensures var name := "refs/heads/" + b; !UnreadableBranch(name) && Written(name) && StripHeads(name) == b && b != name
  {
    var name := "refs/heads/" + b;
    forall c | c in name ensures Letter(c) || c == '/' {
    }
    LowerHeads();
    assert name[..11] == "refs/heads/";
    PrefixAgrees("@{", name, 0);
  }

  /** `git checkout main --`. */
  lemma PathlessMissed(b: string)
    requires Plain(b) && !IsGitProgram(b)
    ensures Missed(CheckoutOne(Name(b), Some([])))
  {
    hide UnreadableBranch, IsGitProgram, Missed;
    OneArg(Name(b));
    PlainBranch(b);
    DashedIsNotGit("--");
    MissedAfter(CheckoutOne(Name(b), Some([])));
  }

  /** `git switch -- main`: after a `--` switch goes on with names. */
  lemma SwitchDashesMissed(b: string)
    requires Plain(b) && !IsGitProgram(b)
    ensures Missed(Switch("switch", [], Some([b])))
  {
    hide UnreadableBranch, IsGitProgram, Missed;
    PlainBranch(b);
    DashedIsNotGit("--");
    assert ArgsOf(Switch("switch", [], Some([b]))) == ["--", b];
    MissedAfter(Switch("switch", [], Some([b])));
  }

  /** `git rebase origin main` checks main out. */
  lemma RebaseMissed(upstream: string, b: string)
    requires Plain(upstream) && !IsGitProgram(upstream) && Plain(b) && !IsGitProgram(b)
    ensures Missed(Rebase([], None, Some(upstream), Some(b)))
  {
    hide IsGitProgram, Missed;
    PlainBranch(upstream);
    PlainBranch(b);
    assert ArgsOf(Rebase([], None, Some(upstream), Some(b))) == [upstream, b];
    MissedAfter(Rebase([], None, Some(upstream), Some(b)));
  }

  /** `git bisect reset main`. */
  lemma BisectMissed(b: string)
    requires Plain(b) && !IsGitProgram(b)
    ensures Missed(BisectReset(b))
  {
    hide IsGitProgram, Missed;
    PlainBranch(b);
    LettersOnly("reset");
    MissedAfter(BisectReset(b));
  }

  lemma LettersOnly(word: string)
    requires |word| != 3 && |word| != 7 && forall c :: c in word ==> Letter(c)
    ensures !IsGitProgram(word)
  {
    NoSeparators(word, "/\\");
    NoSeparators(word, "/");
    NothingRemoved(word, "\\^`");
  }

  lemma AliasReach(b: string)
    requires Plain(b)
    ensures GitOk(Aliased("co", [b], CheckoutOne(Name(b), None))) && !ReadRight(PLAIN_REFS, Aliased("co", [b], CheckoutOne(Name(b), None)))
  {
    hide UnreadableBranch, Written, Builtin;
    OneArg(Name(b));
    PlainBranch(b);
    NoDash("co");
    CoIsNotGits();
  }

  lemma CoIsNotGits()
    ensures Lower("co") == "co" && !Builtin("co")
  {
    assert Lower("co") == "co";
    NoTwoLetters("co");
  }

  lemma NoTwoLetters(sub: string)
    requires sub == "co"
    ensures !Builtin(sub)
  {
    assert sub[0] == 'c' && sub[1] == 'o' && |sub| == 2;
  }

  /** `git co main`, where `co` is an alias of checkout. */
  lemma AliasMissed(b: string)
    requires Plain(b) && !IsGitProgram(b)
    ensures Missed(Aliased("co", [b], CheckoutOne(Name(b), None)))
  {
    hide IsGitProgram, Missed, GitOk, ReadRight;
    AliasReach(b);
    MissedAfter(Aliased("co", [b], CheckoutOne(Name(b), None)));
  }

  lemma ReasonOk(note: string, b: string)
    requires Plain(note)
    ensures GitOk(SymbolicRef(false, ReasonWord(note), "HEAD", "refs/heads/" + b))
  {
    hide UnreadableRef;
    PlainBranch(note);
    NoDash("refs/heads/" + b);
    NoDash("HEAD");
  }

  lemma ReasonReach(note: string, b: string)
    requires Plain(note) && Plain(b) && b != "HEAD"
    ensures !ReadRight(PLAIN_REFS, SymbolicRef(false, ReasonWord(note), "HEAD", "refs/heads/" + b))
  {
    hide UnreadableRef, Linked, Written;
    var to := "refs/heads/" + b;
    assert to[..11] == "refs/heads/" && to[11..] == b && to != "HEAD";
    HeadNotStripped();
    assert b in Branches(PLAIN_REFS, SymbolicRef(false, ReasonWord(note), "HEAD", to), b);
  }

  lemma HeadNotStripped()
    ensures StripHeads("HEAD") == "HEAD" && !("refs/heads/" <= "HEAD")
  {
  }

  /** `git symbolic-ref -m note HEAD refs/heads/main`: the note is taken for the name of the ref. */
  lemma ReasonMissed(note: string, b: string)
    requires Plain(note) && !IsGitProgram(note) && Plain(b) && b != "HEAD" && !IsGitProgram("refs/heads/" + b)
    ensures Missed(SymbolicRef(false, ReasonWord(note), "HEAD", "refs/heads/" + b))
  {
    hide IsGitProgram, Missed, GitOk, ReadRight;
    ReasonOk(note, b);
    ReasonReach(note, b);
    LettersOnly("HEAD");
    DashedIsNotGit("-m");
    var git := SymbolicRef(false, ReasonWord(note), "HEAD", "refs/heads/" + b);
    assert ArgsOf(git) == ["-m", note, "HEAD", "refs/heads/" + b];
    MissedAfter(git);
  }

  // ----- tracking taken back -----

  function NoTrack(remote: string, b: string): Git {
    Switch("checkout", [SwitchLong("no-track", "track", true), Name(remote + "/" + b)], None)
  }

  lemma NoSlash(word: string)
    requires Plain(word)
    ensures '/' !in word
  {
    assert !Letter('/');
  }

  lemma RemoteBranch(remote: string, b: string)
    requires Plain(remote) && Plain(b) && remote !in {"refs", "remotes"}
    ensures var name := remote + "/" + b;
            && AfterRemote(name) == b && !UnreadableBranch(name) && Written(name) && StripHeads(name) != b && Operand(name)
  {
    var name := remote + "/" + b;
    assert Letter(remote[0]) && name[0] == remote[0] && name[|remote|] == '/';
    NoDash(name);
    RemoteReadable(remote, b);
    PrefixAgrees("@{", name, 0);
    NoSlash(remote);
    NoSlash(b);
    NotInFront("refs/", "refs", remote, b);
    NotInFront("remotes/", "remotes", remote, b);
    CutAt(remote, '/', b);
    assert name[..|remote|] == remote && name[|remote| + 1..] == b;
    KeepsSlash(name, |remote|);
  }

  lemma RemoteReadable(remote: string, b: string)
    requires Plain(remote) && Plain(b)
    ensures var name := remote + "/" + b; !UnreadableRef(name) && '*' !in name && Written(name) && name != "-"
  {
    var name := remote + "/" + b;
    assert Letter(remote[0]) && name[0] == remote[0];
    forall c | c in name ensures Letter(c) || c == '/' {
    }
  }

  /** What is in front of the first `/` is the remote's name. */
  lemma NotInFront(front: string, first: string, remote: string, b: string)
    requires front == first + "/" && '/' !in remote && '/' !in first
    ensures front <= remote + "/" + b ==> remote == first
  {
    var name := remote + "/" + b;
    CutAt(remote, '/', b);
    if front <= name {
      CutAt(first, '/', name[|front|..]);
      assert name == first + "/" + name[|front|..];
    }
  }

  lemma HeadsSlashes(p: string)
    requires |p| == 11
    ensures Lower(p) == "refs/heads/" ==> p[4] == '/' && p[10] == '/'
  {
    assert LowerChar(p[4]) == Lower(p)[4] && LowerChar(p[10]) == Lower(p)[10];
  }

  lemma KeepsSlash(name: string, k: nat)
    requires k < |name| && name[k] == '/' && '/' !in name[..k] && '/' !in name[k + 1..]
    ensures StripHeads(name) == name
  {
    forall i | 0 <= i < |name| ensures name[i] == '/' ==> i == k {
      assert i < k ==> name[i] == name[..k][i];
      assert i > k ==> name[i] == name[k + 1..][i - k - 1];
    }
    if |name| >= 11 {
      HeadsSlashes(name[..11]);
      assert name[..11][4] == name[4] && name[..11][10] == name[10];
    }
  }

  lemma NoTrackOk(remote: string, b: string)
    requires Operand(remote + "/" + b)
    ensures GitOk(NoTrack(remote, b))
  {
    assert CHECKOUT_NAMES[6] == "track" && FormOf("track", true) == "no-track" && '=' !in "no-track";
  }

  lemma TwoArgs(x: SwitchArg, y: SwitchArg)
    ensures AllSwitchWords([x, y]) == SwitchWords(x) + SwitchWords(y)
    ensures AllTaken(NOTHING_TAKEN, [x, y]) == TakenOne(TakenOne(NOTHING_TAKEN, x), y)
    ensures SwitchNames([x, y]) == (if x.Name? then [x.word] else []) + (if y.Name? then [y.word] else [])
    ensures LastMade([x, y]) == (if SeenMade(y).Some? then SeenMade(y) else SeenMade(x))
    ensures SeenNames([x, y]) == WordOf(SeenName(x)) + WordOf(SeenName(y))
    ensures HasTrack([x, y]) == (SeesTrack(x) || SeesTrack(y)) && SomeUnwritten([x, y]) == !(Written(ValueOf(x)) && Written(ValueOf(y)))
  {
    hide SeesTrack, SeesDetach, Written, TakenOne, SwitchWords, SeenMade, SeenName, ValueOf;
    var args := [x, y];
    OneArg(y);
    assert args[1..] == [y];
    OneMoreArg(x, [y]);
    assert [x] + [y] == args;
    assert forall a :: a in args <==> a == x || a == y;
    assert AllTaken(NOTHING_TAKEN, args) == AllTaken(TakenOne(NOTHING_TAKEN, x), [y]);
    assert [y][1..] == [];
    assert AllTaken(TakenOne(NOTHING_TAKEN, x), [y]) == AllTaken(TakenOne(TakenOne(NOTHING_TAKEN, x), y), []);
  }

  lemma NoTrackReads(remote: string, b: string)
    ensures var args := NoTrack(remote, b).switchArgs;
            && AllTaken(NOTHING_TAKEN, args) == NOTHING_TAKEN.(tracking := Some(false)) && SwitchNames(args) == [remote + "/" + b]
            && LastMade(args).None? && SeenNames(args) == [remote + "/" + b] && !HasTrack(args)
            && SomeUnwritten(args) == !Written(remote + "/" + b)
            && ArgsOf(NoTrack(remote, b)) == ["--no-track", remote + "/" + b]
  {
    hide Written;
    NothingUnwritten();
    TwoArgs(SwitchLong("no-track", "track", true), Name(remote + "/" + b));
    assert "--" + "no-track" == "--no-track";
    assert ["--no-track"] + [remote + "/" + b] + [] == ["--no-track", remote + "/" + b];
  }

  lemma NothingUnwritten()
    ensures Written("")
  {
  }

  lemma NoTrackReach(remote: string, b: string)
    requires Plain(remote) && Plain(b) && remote !in {"refs", "remotes"}
    ensures !ReadRight(PLAIN_REFS, NoTrack(remote, b))
  {
    hide UnreadableBranch, AfterRemote, Written, StripHeads, HasTrack, HasDetach, Linked, LastMade, SeenNames,
      SwitchNames, AllTaken, SomeUnwritten;
    RemoteBranch(remote, b);
    NoTrackReads(remote, b);
    assert b != "" by { assert Plain(b); }
  }

  lemma NoTrackIsNotGit(remote: string, b: string)
    requires !IsGitProgram(remote + "/" + b)
    ensures !NamesGit(NoTrack(remote, b))
  {
    hide IsGitProgram;
    NoTrackReads(remote, b);
    DashedIsNotGit("--no-track");
  }

  /** `git checkout --no-track origin/main` makes main and switches to it. */
  lemma NoTrackMissed(remote: string, b: string)
    requires Plain(remote) && Plain(b) && remote !in {"refs", "remotes"} && !IsGitProgram(remote + "/" + b)
    ensures Missed(NoTrack(remote, b))
  {
    hide IsGitProgram, Missed, GitOk, ReadRight, AfterRemote, UnreadableBranch, StripHeads, NamesGit;
    RemoteBranch(remote, b);
    NoTrackOk(remote, b);
    NoTrackIsNotGit(remote, b);
    NoTrackReach(remote, b);
    MissedAfter(NoTrack(remote, b));
  }

  // ----- branches that are symbolic -----

  /** `git checkout foo; git push`, where foo is symbolic and points at main, puts HEAD on main. */
  lemma LinkedMissed(foo: string, b: string)
    requires Plain(foo) && !IsGitProgram(foo) && foo != b
    ensures var line := Then(CheckoutOne(Name(foo), None)); !AllCovered(Link("refs/heads/" + foo, b), line, TargetsOf(SitesOf(line)))
  {
    hide AllCovered, TargetsOf, SitesOf, Reported, ReadRight, IsGitProgram, ChangesDirectory, AliasUnknown;
    var c := RunGit("git", [], CheckoutOne(Name(foo), None), false);
    OneArg(Name(foo));
    PlainBranch(foo);
    PlainPushReported();
    WordsHere("", "");
    GitStaysHere();
    assert WordAt(WordsOf(c), 0) == "git";
    AliasKnown(c);
    LinkedReach(foo, b);
    MoveSoundExactly(Link("refs/heads/" + foo, b), c, PLAIN_PUSH);
  }

  lemma LinkedReach(foo: string, b: string)
    requires Plain(foo) && foo != b
    ensures !ReadRight(Link("refs/heads/" + foo, b), CheckoutOne(Name(foo), None))
  {
    hide UnreadableBranch, Linked, StripHeads, Written;
    OneArg(Name(foo));
    PlainBranch(foo);
    LinkLeads("refs/heads/" + foo, b, {"refs/heads/" + foo});
    assert b in Branches(Link("refs/heads/" + foo, b), CheckoutOne(Name(foo), None), foo);
  }

  /** `git symbolic-ref refs/heads/<foo> refs/heads/<b>`. */
  function MakeLink(foo: string, b: string): Git {
    SymbolicRef(false, NoReason, "refs/heads/" + foo, "refs/heads/" + b)
  }

  function LinkThenPush(foo: string, b: string, remote: string): seq<Command> {
    [RunGit("git", [], MakeLink(foo, b), false), PushOf(remote, foo)]
  }

  lemma MakeLinkOk(foo: string, b: string)
    requires !IsGitProgram("refs/heads/" + foo) && !IsGitProgram("refs/heads/" + b)
    ensures GitOk(MakeLink(foo, b)) && !NamesGit(MakeLink(foo, b))
  {
    hide IsGitProgram;
    NoDash("refs/heads/" + foo);
    NoDash("refs/heads/" + b);
    assert ArgsOf(MakeLink(foo, b)) == ["refs/heads/" + foo, "refs/heads/" + b];
  }

  lemma PushOfOk(remote: string, spec: string)
    requires Plain(remote) && Plain(spec) && !IsGitProgram(remote) && !IsGitProgram(spec)
    ensures GitOk(PushOf(remote, spec).git) && !NamesGit(PushOf(remote, spec).git)
  {
    hide IsGitProgram;
    PlainBranch(remote);
    PlainBranch(spec);
    PushWordsOf(remote, spec);
  }

  lemma LinkLineOk(foo: string, b: string, remote: string)
    requires Plain(foo) && !IsGitProgram(foo) && Plain(remote) && !IsGitProgram(remote)
    requires !IsGitProgram("refs/heads/" + foo) && !IsGitProgram("refs/heads/" + b)
    ensures LineOk(LinkThenPush(foo, b, remote))
  {
    hide IsGitProgram, ChangesDirectory, GitOk, NamesGit, MakeLink;
    WordsHere("", "");
    GitStaysHere();
    MakeLinkOk(foo, b);
    PushOfOk(remote, foo);
  }

  lemma PushWordsOf(remote: string, spec: string)
    ensures ArgsOf(PushOf(remote, spec).git) == [remote, spec]
  {
    var args := [Word(remote), Word(spec)];
    assert args[1..] == [Word(spec)] && args[1..][1..] == [];
    assert AllPushWords([]) == [];
    assert AllPushWords(args[1..]) == PushWords(Word(spec)) + [] == [spec];
    assert AllPushWords(args) == PushWords(Word(remote)) + [spec] == [remote, spec];
    assert [remote, spec] + [] == [remote, spec];
  }

  /** The line shows one name: the symbolic branch's. */
  lemma LinkNames(foo: string, b: string, remote: string)
    requires LineOk(LinkThenPush(foo, b, remote)) && Plain(foo) && Lower(foo) != "head"
    ensures Names(LinkThenPush(foo, b, remote)) == [foo]
  {
    hide CommandOk, OneReading, SeenBefore, AllOperands, DryRun, Asks, IsHead, OtherRef, StripHeads, HasAny, UnreadableRef;
    var line := LinkThenPush(foo, b, remote);
    assert line[..1][..0] == [] && line[..1] == [line[0]];
    assert Names([]) == [];
    PlainReadable(foo);
    PlainName(foo);
    TwoWords(remote, foo);
    PlainNoHead(foo);
    assert [remote, foo][1..] == [foo] && [foo][1..] == [] && AllSpecNames([], SeenBefore(line[..1])) == [];
    assert AllSpecNames([foo], SeenBefore(line[..1])) == [foo] + [];
    assert Names(line[..1]) == [] + [];
    assert Names(line) == Names(line[..1]) + PushNames(line[1], SeenBefore(line[..1]));
  }

  lemma PlainNoHead(word: string)
    requires Plain(word) && Lower(word) != "head"
    ensures !IsHead(word)
  {
    PlainReadable(word);
  }

  lemma LinkNotGivenUp(foo: string, b: string, remote: string)
    requires LineOk(LinkThenPush(foo, b, remote)) && Plain(foo) && Plain(remote) && Lower(foo) != "head"
    ensures !LineGivenUp(LinkThenPush(foo, b, remote))
  {
    hide CommandOk, OneReading, Unreadable, AllOperands, DryRun, Asks, IsHead, UnreadableRemote, HasAny, UnreadableRef,
      SomeEvery, HeadGivenUp;
    var line := LinkThenPush(foo, b, remote);
    PlainReadable(foo);
    PlainReadable(remote);
    PlainName(foo);
    PlainNoHead(foo);
    TwoWords(remote, foo);
    NoEvery(remote, foo);
    assert [remote, foo][1..] == [foo] && forall x :: x in [foo] ==> x == foo;
    assert !AliasUnknown(line[0]);
    assert !PushGivenUp(Unreadable(line[..1]), line[1]);
  }

  lemma NoEvery(remote: string, spec: string)
    ensures !SomeEvery([Word(remote), Word(spec)])
  {
    forall a | a in [Word(remote), Word(spec)] ensures !SaysEvery(a) {
      assert a == Word(remote) || a == Word(spec);
    }
  }

  /** `git symbolic-ref refs/heads/foo refs/heads/main; git push origin foo` updates main. */
  lemma MadeLinkMissed(foo: string, b: string, remote: string)
    requires Plain(foo) && !IsGitProgram(foo) && foo != "tag" && Lower(foo) != "head" && Plain(remote) && !IsGitProgram(remote) && foo != b
    requires !IsGitProgram("refs/heads/" + foo) && !IsGitProgram("refs/heads/" + b)
    ensures var line := LinkThenPush(foo, b, remote); !AllCovered(PLAIN_REFS, line, TargetsOf(SitesOf(line)))
  {
    hide AllCovered, TargetsOf, SitesOf, IsGitProgram, LineOk, LineGivenUp, PushNamed, Names;
    var line := LinkThenPush(foo, b, remote);
    LinkLineOk(foo, b, remote);
    LinkNames(foo, b, remote);
    LinkNotGivenUp(foo, b, remote);
    LineSoundExactly(PLAIN_REFS, line);
    LinkUnnamed(foo, b, remote);
    assert IsPush(line[1]);
  }

  lemma LinkUnnamed(foo: string, b: string, remote: string)
    requires LineOk(LinkThenPush(foo, b, remote)) && Names(LinkThenPush(foo, b, remote)) == [foo]
    requires Plain(foo) && foo != "tag" && Lower(foo) != "head" && foo != b
    ensures !PushNamed(PLAIN_REFS, LinkThenPush(foo, b, remote), 1)
  {
    hide LineOk, Names, AllOperands, SpecsOf, DryRun, Deletes, HeadNamed, SpecTarget, PushesHead, AllRefs;
    var line := LinkThenPush(foo, b, remote);
    TwoWords(remote, foo);
    LinkTarget(foo, b, line);
    assert foo in [foo];
    assert !SpecNamed(PLAIN_REFS, line, 1, foo);
  }

  lemma LinkTarget(foo: string, b: string, line: seq<Command>)
    requires line != [] && line[0] == RunGit("git", [], MakeLink(foo, b), false)
    requires Plain(foo) && Lower(foo) != "head" && foo != b
    ensures var target := SpecTarget(AllRefs(PLAIN_REFS, line[..1]), foo, false); target.Updates? && b in target.branches
  {
    hide UnreadableRef, HasAny, Linked, AfterLast;
    PlainReadable(foo);
    PlainName(foo);
    assert line[..1][..0] == [];
    assert AllRefs(PLAIN_REFS, []) == PLAIN_REFS;
    assert AllRefs(PLAIN_REFS, line[..1]) == RefsAfter(PLAIN_REFS, line[0]);
    MadeLinkRefs(foo, b, line[0]);
    LinkLeads("refs/heads/" + foo, b, RefsOf(foo));
    assert foo != "HEAD" by { assert Lower("HEAD") == "head"; }
  }

  lemma MadeLinkRefs(foo: string, b: string, c: Command)
    requires c == RunGit("git", [], MakeLink(foo, b), false)
    ensures RefsAfter(PLAIN_REFS, c) == Link("refs/heads/" + foo, b)
  {
    var ref := "refs/heads/" + foo;
    assert ref[0] == 'r' && "main-worktree/HEAD"[0] == 'm';
    PrefixAgrees("worktrees/", ref, 0);
  }
}
