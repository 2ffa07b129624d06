/** What the analysis reads of a whole line, on its words: the branches it names, and when it gives up. */
module PushLineRead {
  import opened Common
  import opened PushText
  import opened PushAnalysis
  import opened PushSemantics
  import opened PushReach
  import opened PushReading
  import opened PushMoves
  import opened PushSoundness
  import opened PushExact

  /**
   * No word is taken for a Git invocation of its own: no argument of Git, and of other commands at most the last
   * word. Nor is Git taken for a change of folder.
   */
  predicate OneReading(c: Command) {
    if c.RunGit? then !NamesGit(c.git) && !ChangesDirectory(c.program)
    else forall w :: w in WordsOf(c)[..if WordsOf(c) == [] then 0 else |WordsOf(c)| - 1] ==> !IsGitProgram(w)
  }

  predicate LineOk(line: seq<Command>) {
    forall c :: c in line ==> CommandOk(c) && OneReading(c)
  }

  // ----- the names the words show -----

  function SeenBranch(c: Command): seq<string>
    requires CommandOk(c)
  {
    if c.RunGit? && SeenOf(c.git).To? then [SeenOf(c.git).branch] else []
  }

  /** The branches switched to, as read. */
  function SeenBefore(line: seq<Command>): seq<string>
    requires LineOk(line)
  {
    if line == [] then [] else SeenBefore(line[..|line| - 1]) + SeenBranch(line[|line| - 1])
  }

  function SpecNames(spec: string, seen: seq<string>): seq<string> {
    var first := FirstDestination(Unforced(spec));
    if first == "" then []
    else if IsHead(first) then seen
    else if OtherRef(first) then []
    else [StripHeads(first)]
  }

  function AllSpecNames(specs: seq<string>, seen: seq<string>): seq<string> {
    if specs == [] then [] else SpecNames(specs[0], seen) + AllSpecNames(specs[1..], seen)
  }

  /** An alias that may push, for all its words tell: its name cannot be read, or the command defines it or runs elsewhere. */
  predicate AliasUnknown(c: Command) {
    && c.RunGit? && c.git.Aliased?
    && var word := c.git.word;
       || UnreadableWord(word)
       || (if Lower(word) == "subtree" then "push" in c.git.shown
           else DefinesAlias(ConfigsOf(c.globals), Lower(word)) || RunsAway(c))
  }

  /** What one push names: its refspecs to their first colons, and for HEAD the branches switched to. */
  function PushNames(c: Command, seen: seq<string>): seq<string> {
    if !IsPush(c) || DryRun(c.git.pushArgs) then []
    else
      var operands := AllOperands(c.git.pushArgs, c.git.tail);
      if |operands| > 1 then AllSpecNames(operands[1..], seen)
      else if Asks(c.git.pushArgs, PushesTags) then []
      else seen
  }

  /** Every branch the line names. */
  function Names(line: seq<Command>): seq<string>
    requires LineOk(line)
  {
    if line == [] then []
    else
      var before := line[..|line| - 1];
      Names(before) + PushNames(line[|line| - 1], SeenBefore(before))
  }

  // ----- the state after a line -----

  lemma LowerSame(s: string)
    requires forall c :: c in s ==> !('A' <= c <= 'Z')
    ensures Lower(s) == s
  {
    forall i | 0 <= i < |s| ensures Lower(s)[i] == s[i] {
      assert s[i] in s;
    }
  }

  lemma KeptIsLower(sub: string)
    requires NeverMoves(sub)
    ensures forall c :: c in sub ==> 'a' <= c <= 'z' || c == '-'
  {
  }

  lemma KeptIsBuiltin(sub: string)
    requires NeverMoves(sub)
    ensures Builtin(sub) && sub !in NOTED_SUBS && !GitPushes(sub)
  {
  }

  predicate GitPushes(sub: string) {
    sub == "push" || sub == "send-pack" || sub == "http-push" || sub == "subtree"
  }

  lemma LettersReadable(word: string)
    requires forall c :: c in word ==> 'a' <= c <= 'z' || c == '-'
    ensures !UnreadableWord(word)
  {
  }

  /** A subcommand that is no alias and no push is one of Git's own, written out. */
  lemma SubIsBuiltin(git: Git)
    requires GitOk(git) && !git.Push? && !git.Aliased?
    ensures Builtin(Lower(SubOf(git))) && !GitPushes(Lower(SubOf(git))) && !UnreadableWord(SubOf(git))
  {
    hide Lower, SwitchArgOk, RenameArgOk, MovesBranch, NeverMoves, UnreadableWord, Builtin, GitPushes, ReachOf;
    LowerSubs();
    NamedAreBuiltin();
    if git.KeepsHead? && NeverMoves(git.sub) {
      KeptIsLower(git.sub);
      LowerSame(git.sub);
      KeptIsBuiltin(git.sub);
    }
    NamedAreLetters(SubOf(git));
    if forall c :: c in SubOf(git) ==> 'a' <= c <= 'z' || c == '-' {
      LettersReadable(SubOf(git));
    }
  }

  const NAMED := {"checkout", "switch", "branch", "stash", "symbolic-ref", "rebase", "bisect"}

  lemma NamedAreBuiltin()
    ensures forall sub :: sub in NAMED ==> Builtin(sub) && !GitPushes(sub)
  {
  }

  lemma NamedAreLetters(sub: string)
    ensures sub in NAMED ==> forall c :: c in sub ==> 'a' <= c <= 'z' || c == '-'
  {
  }

  lemma StashKeptNoted(git: Git, words: seq<string>, call: Call, line: Line)
    requires git.KeepsHead? && git.sub == "stash" && (git.args == [] || git.args[0] in STASH_KEEPS) && CallOf(git, words, call)
    ensures NotedCall(line, words, call) == Marked(line, call)
  {
    hide Lower;
    LowerSubs();
  }

  lemma BranchWordKeeps(w: string)
    requires !IsOption(w) || w in BRANCH_KEEPS
    ensures !SetsUpstream(w) && !Renames(w)
  {
    hide IsKey;
    if IsOption(w) {
      NotKey(w, "--track", if |w| > 2 then 2 else 1);
      NotKey(w, "--set-upstream-to", if |w| > 2 then (if w[2] == 's' then 3 else 2) else 1);
    } else {
      NoUpstream(w);
      PrefixAgrees("-", "--mo", 0);
    }
  }

  lemma BranchKeptNoted(git: Git, words: seq<string>, call: Call, line: Line)
    requires git.KeepsHead? && git.sub == "branch" && (forall w :: w in git.args ==> !IsOption(w) || w in BRANCH_KEEPS)
    requires CallOf(git, words, call)
    ensures NotedCall(line, words, call) == Marked(line, call)
  {
    hide Lower, SetsUpstream, Renames, BRANCH_KEEPS, IsOption;
    LowerSubs();
    forall w | w in git.args ensures !SetsUpstream(w) && !Renames(w) {
      BranchWordKeeps(w);
    }
  }

  /** A command leaves just what is seen of it. */
  lemma AllIsNoted(git: Git, words: seq<string>, call: Call, line: Line)
    requires GitOk(git) && CallOf(git, words, call)
    ensures NotedCall(line, words, call) == WithSwitch(Marked(line, call), SeenOf(git))
  {
    hide NotedCall, SwitchArgOk, RenameArgOk, MovesBranch, Lower, Written, Builtin, NeverMoves, STASH_KEEPS,
      BRANCH_KEEPS, NameSeen, Seen, SwitchReach;
    LowerSubs();
    match git
    case Push(_, _) => PushNotNoted(git, words, call, line);
    case KeepsHead(sub, args) =>
      if NeverMoves(sub) {
        KeptIsLower(sub);
        LowerSame(sub);
        KeptIsBuiltin(sub);
        NothingNoted(words, call, line);
      } else if sub == "stash" && (args == [] || args[0] in STASH_KEEPS) {
        StashKeptNoted(git, words, call, line);
      } else {
        BranchKeptNoted(git, words, call, line);
      }
    case Switch(_, _, _) => SwitchNoted(git, words, call, line);
    case Rename(_) => RenameNoted(git, words, call, line);
    case StashBranch(_, _) => StashNoted(git, words, call, line);
    case SymbolicRef(_, _, _, _) => SymbolicNoted(git, words, call, line);
    case _ =>
      NotedAreBuiltin();
      NothingNoted(words, call, line);
  }

  lemma PushNotNoted(git: Git, words: seq<string>, call: Call, line: Line)
    requires git.Push? && CallOf(git, words, call)
    ensures NotedCall(line, words, call) == Marked(line, call)
  {
    hide Lower;
    LowerSubs();
  }

  lemma MoveKeepsSwitched(line: Line, words: seq<string>)
    ensures NotedMove(line, words).switched == line.switched
  {
    hide DirectoryChange, DirsMoved;
  }

  /** A command that is not Git starts no invocation with a subcommand. */
  lemma {:induction false} NoSubcommands(words: seq<string>, i: nat)
    requires words == [] || forall w :: w in words[..|words| - 1] ==> !IsGitProgram(w)
    ensures forall call :: call in CallsFrom(words, i) ==> call.sub.None? && !call.elsewhere
    decreases |words| - i
  {
    hide IsGitProgram;
    if i < |words| {
      if i == |words| - 1 {
        assert CallsFrom(words, i + 1) == [];
      } else {
        assert words[i] == words[..|words| - 1][i];
        NoSubcommands(words, i + 1);
      }
    }
  }

  lemma {:induction false} NoneNoted(line: Line, words: seq<string>, calls: seq<Call>)
    requires forall c :: c in calls ==> CallOk(words, c) && c.sub.None? && !c.elsewhere
    ensures NotedCalls(line, words, calls) == line
    decreases |calls|
  {
    if calls != [] {
      assert CallOk(words, calls[0]);
      NoneNoted(line, words, calls[1..]);
    }
  }

  lemma {:induction false} NoneRead(out: Targets, site: Site, calls: seq<Call>, line: Line)
    requires forall c :: c in calls ==> CallOk(site.words, c) && c.sub.None?
    ensures CallsRead(out, site, calls, line) == out
    decreases |calls|
  {
    if calls != [] {
      assert CallOk(site.words, calls[0]);
      NoneRead(out, site, calls[1..], line);
    }
  }

  /** Noting a command adds the branch seen of it. */
  lemma OneSeen(c: Command, line: Line)
    requires CommandOk(c) && OneReading(c)
    ensures Noted(line, SiteFor(c)).switched == line.switched + SeenBranch(c)
  {
    hide CallsFrom, NotedMove, NotedCall, WordsOf, ArgsOf, GitOk, GlobalOk, SeenOf, NamesGit, IsGitProgram, Leaves, ConfigsOf, ChDirs;
    var site := SiteFor(c);
    var l := if site.elsewhere || site.touches then line.(unreadable := true) else line;
    var m := NotedMove(l, site.words);
    MoveKeepsSwitched(l, site.words);
    if c.RunGit? {
      var call := GitCall(c);
      NotedOne(m, site.words, call);
      AllIsNoted(c.git, site.words, call, m);
    } else {
      NoSubcommands(site.words, 0);
      NoneNoted(m, site.words, CallsFrom(site.words, 0));
    }
  }

  lemma GitIsOne(c: Command)
    requires OneReading(c)
    ensures c.RunGit? ==> !NamesGit(c.git)
  {
  }

  lemma GitCall(c: Command) returns (call: Call)
    requires c.RunGit? && CommandOk(c) && !NamesGit(c.git)
    ensures CallsFrom(WordsOf(c), 0) == [call] && CallOf(c.git, WordsOf(c), call) && Reading(c, SiteFor(c), call) && call.at == 0
  {
    hide CallsFrom, WordsOf, ArgsOf, GitOk, GlobalOk, IsGitProgram, Leaves, ConfigsOf, ChDirs, ChangesDirectory;
    call := OneCall(c);
  }

  lemma {:induction false} SitesTo(line: seq<Command>, k: nat)
    requires k <= |line|
    ensures |SitesOf(line)| == |line| && SitesOf(line)[..k] == SitesOf(line[..k])
    ensures k < |line| ==> SitesOf(line)[k] == SiteFor(line[k])
  {
    hide WordsOf;
    if line != [] {
      SitesTo(line[1..], if k == 0 then 0 else k - 1);
      if k > 0 {
        assert line[..k][1..] == line[1..][..k - 1] && line[..k][0] == line[0];
        assert SitesOf(line)[..k] == [SiteFor(line[0])] + SitesOf(line[1..])[..k - 1];
      }
    }
  }

  lemma {:induction false} SwitchedAre(line: seq<Command>)
    requires LineOk(line)
    ensures LineAfter(SitesOf(line)).switched == SeenBefore(line)
  {
    hide Noted, CommandOk, OneReading, SeenBranch, SiteFor;
    if line != [] {
      var n := |line| - 1;
      SitesTo(line, n);
      SwitchedAre(line[..n]);
      assert line[n] in line;
      OneSeen(line[n], LineAfter(SitesOf(line[..n])));
    }
  }

  // ----- the branches of the answer -----

  /** Unless it gives up, a refspec adds just its names. */
  lemma SpecAdds(out: Targets, spec: string, site: Site, call: Call, line: Line)
    requires !GivesUp(SpecNoted(out, spec, site, call, line))
    ensures SpecNoted(out, spec, site, call, line).branches == out.branches + SpecNames(spec, line.switched)
  {
    hide AfterFirst, UnreadableRef, HasAny, IsHead, OtherRef, StripHeads, Unforced, CallDirs, NonEmpty, PushConfigKey, BeforeFirst;
    assert out.branches + [] == out.branches;
  }

  lemma {:induction false} SpecsAdd(out: Targets, specs: seq<string>, site: Site, call: Call, line: Line)
    requires !GivesUp(SpecsNoted(out, specs, site, call, line))
    ensures SpecsNoted(out, specs, site, call, line).branches == out.branches + AllSpecNames(specs, line.switched)
    decreases |specs|
  {
    hide SpecNoted, SpecNames, OutGrows;
    if specs == [] {
      assert out.branches + [] == out.branches;
    } else {
      var next := SpecNoted(out, specs[0], site, call, line);
      SpecsNotedGrow(next, specs[1..], site, call, line);
      GivenUpGrows(next, SpecsNoted(next, specs[1..], site, call, line));
      SpecAdds(out, specs[0], site, call, line);
      SpecsAdd(next, specs[1..], site, call, line);
      Associative(out.branches, SpecNames(specs[0], line.switched), AllSpecNames(specs[1..], line.switched));
    }
  }

  lemma PushAdds(out: Targets, c: Command, site: Site, call: Call, line: Line)
    requires IsPush(c) && CommandOk(c) && CallOf(c.git, site.words, call) && !GivesUp(PushNoted(out, site, call, line))
    ensures PushNoted(out, site, call, line).branches == out.branches + PushNames(c, line.switched)
  {
    hide ReadArgs, HeadNoted, SpecsNoted, UnreadableRemote, AllOperands, AllPushWords, TailWords, LastSays,
      IsGitProgram, GlobalOk, PushArgOk, OutGrows, SubOf, WordsOf;
    var args, tail := c.git.pushArgs, c.git.tail;
    ArgsRead(args, tail, NOTHING_READ);
    var read := ReadArgs(ArgsOf(c.git), NOTHING_READ);
    var operands := AllOperands(args, tail);
    assert [] + operands == operands;
    var out1 := OptionsNoted(out.(unknown := out.unknown || read.unknown), read, site);
    NotUnknown(out, site, call, line, read);
    assert out.branches + [] == out.branches && out1.branches == out.branches;
    if !read.dryRun {
      if |operands| > 1 {
        SpecsAdd(out1, operands[1..], site, call, line);
      } else if !read.tagsOnly {
        HeadAdds(out1, site, call, line);
      }
    }
  }

  lemma HeadAdds(out: Targets, site: Site, call: Call, line: Line)
    requires !GivesUp(HeadNoted(out, site, call, line))
    ensures HeadNoted(out, site, call, line).branches == out.branches + line.switched
  {
    hide CallDirs, NonEmpty, PushConfigKey, BeforeFirst;
  }

  /** An answer that does not give up knows its options, and asks for no branch but those named. */
  lemma NotUnknown(out: Targets, site: Site, call: Call, line: Line, read: PushRead)
    requires CallOk(site.words, call) && call.sub.Some? && read == ReadArgs(site.words[call.sub.value + 1..call.end], NOTHING_READ)
    requires !GivesUp(PushNoted(out, site, call, line))
    ensures !read.unknown && (!read.dryRun ==> !read.every && !(read.operands != [] && UnreadableRemote(read.operands[0])))
    ensures !read.dryRun ==> !GivesUp(OptionsNoted(out.(unknown := out.unknown || read.unknown), read, site))
  {
    hide ReadArgs, HeadNoted, SpecsNoted, UnreadableRemote;
    var out1 := OptionsNoted(out.(unknown := out.unknown || read.unknown), read, site);
    HeadNotedGrows(out1, site, call, line);
    if |read.operands| > 1 { SpecsNotedGrow(out1, read.operands[1..], site, call, line); }
  }

  /** What a command adds to the answer. */
  function AnswerAfter(out: Targets, c: Command, line: Line): Targets {
    CallsRead(out, SiteFor(c), CallsFrom(WordsOf(c), 0), line)
  }

  lemma CommandAdds(out: Targets, c: Command, line: Line)
    requires CommandOk(c) && OneReading(c) && !GivesUp(AnswerAfter(out, c, line))
    ensures AnswerAfter(out, c, line).branches == out.branches + PushNames(c, line.switched)
  {
    hide CallsFrom, WordsOf, ArgsOf, PushNoted, CommandOk, OneReading, Lower, AllOperands, DryRun, Asks, SubOf, CallOf;
    assert out.branches + [] == out.branches;
    GitIsOne(c);
    if IsPush(c) {
      var call := GitCall(c);
      PushRuns(out, c, call, line);
      PushAdds(out, c, SiteFor(c), call, line);
    } else {
      NoPushRuns(out, c, line);
    }
  }

  lemma PushRuns(out: Targets, c: Command, call: Call, line: Line)
    requires IsPush(c) && CallsFrom(WordsOf(c), 0) == [call] && CallOf(c.git, WordsOf(c), call) && call.at == 0
    ensures AnswerAfter(out, c, line) == PushNoted(out, SiteFor(c), call, line)
  {
    hide CallsFrom, WordsOf, ArgsOf, PushNoted, Lower;
    LowerSubs();
    assert CallsRead(out, SiteFor(c), [call], line) == CallRead(out, SiteFor(c), call, line);
  }

  lemma AliasRuns(c: Command, call: Call)
    requires c.RunGit? && CommandOk(c) && !c.git.Push? && CallOf(c.git, WordsOf(c), call) && Reading(c, SiteFor(c), call)
    ensures GitRuns(SiteFor(c), call) == if AliasUnknown(c) then RunsUnknown else RunsOther
  {
    hide WordsOf, ArgsOf, Lower, Builtin, UnreadableWord, DefinesAlias, ConfigsOf, GlobalOk, IsGitProgram, GitOk, Leaves, ChDirs;
    if c.git.Aliased? {
      AliasIsNotGits(c.git);
    } else {
      SubIsBuiltin(c.git);
    }
  }

  lemma AliasIsNotGits(git: Git)
    requires git.Aliased? && GitOk(git)
    ensures !Builtin(Lower(git.word)) && Lower(git.word) !in {"push", "send-pack", "http-push"}
    ensures SubOf(git) == git.word && ArgsOf(git) == git.shown
  {
    hide Builtin, Lower;
  }

  /** A Git command that is no push adds nothing, unless it is an alias that may push. */
  lemma GitAddsNothing(out: Targets, c: Command, line: Line)
    requires c.RunGit? && CommandOk(c) && !NamesGit(c.git) && !c.git.Push?
    ensures AnswerAfter(out, c, line) == if AliasUnknown(c) then out.(unknown := true) else out
  {
    hide CallsFrom, WordsOf, ArgsOf, PushNoted, GitOk, GlobalOk, IsGitProgram, Lower, SubOf, NamesGit, GitRuns, AliasUnknown;
    var call := GitCall(c);
    AliasRuns(c, call);
    assert CallsRead(out, SiteFor(c), [call], line) == CallRead(out, SiteFor(c), call, line);
  }

  lemma NoPushRuns(out: Targets, c: Command, line: Line)
    requires CommandOk(c) && OneReading(c) && !IsPush(c)
    ensures AnswerAfter(out, c, line) == if AliasUnknown(c) then out.(unknown := true) else out
  {
    hide CallsFrom, WordsOf, PushNoted, CommandOk, IsGitProgram, NamesGit, GitRuns, AliasUnknown, ChangesDirectory;
    if c.RunGit? {
      GitAddsNothing(out, c, line);
    } else {
      NoSubcommands(WordsOf(c), 0);
      NoneRead(out, SiteFor(c), CallsFrom(WordsOf(c), 0), line);
      NoAlias(c);
    }
  }

  lemma NoAlias(c: Command)
    requires !c.RunGit?
    ensures !AliasUnknown(c)
  {
  }

  lemma AnswerOfMore(line: seq<Command>)
    requires line != []
    ensures var n := |line| - 1;
            TargetsOf(SitesOf(line)) == AnswerAfter(TargetsOf(SitesOf(line[..n])), line[n], LineAfter(SitesOf(line[..n])))
  {
    hide CallsRead, CallsFrom, WordsOf, LineAfter;
    var n := |line| - 1;
    SitesTo(line, n);
    assert SitesOf(line)[n].words == WordsOf(line[n]);
  }

  lemma AnswerGrows(out: Targets, c: Command, line: Line)
    ensures OutGrows(out, AnswerAfter(out, c, line))
  {
    hide CallsRead, CallsFrom, WordsOf, OutGrows;
    assert SiteFor(c).words == WordsOf(c);
    CallsReadGrow(out, SiteFor(c), CallsFrom(WordsOf(c), 0), line);
  }

  /** Unless it gives up, the answer names just what the words show, in order. */
  lemma {:induction false} NamesAre(line: seq<Command>)
    requires LineOk(line) && !GivesUp(TargetsOf(SitesOf(line)))
    ensures TargetsOf(SitesOf(line)).branches == Names(line)
  {
    hide CommandOk, OneReading, PushNames, SeenBefore, SitesOf, TargetsOf, LineAfter, AnswerAfter, OutGrows, GivesUp;
    if line == [] {
      NothingYet();
    } else {
      var n := |line| - 1;
      var before, c := line[..n], line[n];
      AnswerOfMore(line);
      AnswerGrows(TargetsOf(SitesOf(before)), c, LineAfter(SitesOf(before)));
      GivenUpGrows(TargetsOf(SitesOf(before)), TargetsOf(SitesOf(line)));
      NamesAre(before);
      SwitchedAre(before);
      assert c in line;
      CommandAdds(TargetsOf(SitesOf(before)), c, LineAfter(SitesOf(before)));
    }
  }

  lemma NothingYet()
    ensures TargetsOf(SitesOf([])) == NO_TARGETS
  {
  }

  // ----- when the state can no longer be read -----

  /** The folders the shell may be in. */
  function Folders(line: seq<Command>): set<seq<string>> {
    if line == [] then {[]}
    else
      var c, before := line[|line| - 1], Folders(line[..|line| - 1]);
      if Descends(c) then before + set p | p in before :: p + Parts(FolderOf(c).value) else before
  }

  /** It runs or goes where the words cannot say, or puts HEAD on a branch they cannot say. */
  predicate Unfollowed(c: Command)
    requires CommandOk(c)
  {
    Departs(c) || RunsAway(c) || (c.RunGit? && SeenOf(c.git) == CannotRead)
  }

  predicate Unreadable(line: seq<Command>)
    requires LineOk(line)
  {
    (exists c :: c in line && Unfollowed(c)) || |Folders(line)| > MAX_DIRS
  }

  predicate NoRepeats(xs: seq<string>) {
    forall i, j :: 0 <= i < j < |xs| ==> xs[i] != xs[j]
  }

  /** Each text is a folder's, written one way. */
  predicate Plainly(xs: seq<string>) {
    forall x :: x in xs ==> Slashed(Parts(x)) == x
  }

  function Paths(xs: seq<string>): set<seq<string>> {
    set x | x in xs :: Parts(x)
  }

  lemma {:induction false} AsManyPaths(xs: seq<string>)
    requires NoRepeats(xs) && Plainly(xs)
    ensures |Paths(xs)| == |xs|
  {
    hide Parts, Slashed;
    if xs == [] {
      assert Paths(xs) == {};
    } else {
      var rest := xs[1..];
      assert xs == [xs[0]] + rest;
      assert NoRepeats(rest) by {
        forall i, j | 0 <= i < j < |rest| ensures rest[i] != rest[j] {
          assert xs[i + 1] != xs[j + 1];
        }
      }
      AsManyPaths(rest);
      assert Parts(xs[0]) !in Paths(rest) by {
        forall x | x in rest ensures Parts(x) != Parts(xs[0]) {
          var j :| 0 <= j < |rest| && rest[j] == x;
          assert xs[j + 1] == x;
        }
      }
      assert Paths(xs) == {Parts(xs[0])} + Paths(rest);
    }
  }

  lemma {:induction false} Fewer<T>(a: set<T>, b: set<T>)
    requires a <= b
    ensures |a| <= |b|
  {
    if a != {} {
      var x :| x in a;
      Fewer(a - {x}, b - {x});
    }
  }

  /** Folders moved are new ones, each once, and all of them when there are few. */
  lemma {:induction false} MovedOnce(dirs: seq<string>, from: seq<string>, to: string)
    requires NoRepeats(dirs)
    ensures var r := DirsMoved(dirs, from, to);
            && NoRepeats(r) && (forall x :: x in dirs ==> x in r)
            && forall x :: x in r ==> x in dirs || exists d :: d in from && x == JoinDir(d, [to])
    decreases |from|
  {
    hide JoinDir;
    if from != [] && |dirs| <= MAX_DIRS {
      assert from == [from[0]] + from[1..];
      MovedOnce(AddNew(dirs, JoinDir(from[0], [to])), from[1..], to);
    }
  }

  /** The state's folders are those the shell may be in. */
  predicate SameFolders(dirs: seq<string>, folders: set<seq<string>>) {
    && NoRepeats(dirs) && Plainly(dirs) && Paths(dirs) == folders
    && forall p :: p in folders ==> CleanPath(p)
  }

  lemma PathsMoved(dirs: seq<string>, folders: set<seq<string>>, to: string)
    requires SameFolders(dirs, folders)
    ensures var r := DirsMoved(dirs, dirs, to);
            var more := folders + set p | p in folders :: p + Parts(to);
            && NoRepeats(r) && Plainly(r) && Paths(r) <= more && (|r| <= MAX_DIRS ==> Paths(r) == more)
            && forall p :: p in more ==> CleanPath(p)
  {
    hide JoinDir, Parts, Slashed, CleanPath;
    var r := DirsMoved(dirs, dirs, to);
    var more := folders + set p | p in folders :: p + Parts(to);
    MovedOnce(dirs, dirs, to);
    DirsMovedGrow(dirs, dirs, to);
    forall d | d in dirs
      ensures CleanPath(Parts(d) + Parts(to)) && JoinDir(d, [to]) == Slashed(Parts(d) + Parts(to))
      ensures Parts(JoinDir(d, [to])) == Parts(d) + Parts(to)
    {
      assert Parts(d) in folders;
      OneFolder(Parts(d), to);
      PartsOfSlashed(Parts(d) + Parts(to));
    }
    forall x | x in r ensures Slashed(Parts(x)) == x && Parts(x) in more {
      if x !in dirs {
        var d :| d in dirs && x == JoinDir(d, [to]);
        assert Parts(d) in folders;
      }
    }
    forall p | p in more ensures CleanPath(p) {
      if p !in folders {
        var q :| q in folders && p == q + Parts(to);
        var d :| d in dirs && Parts(d) == q;
      }
    }
    if |r| <= MAX_DIRS {
      forall p | p in more ensures p in Paths(r) {
        if p in folders {
          var d :| d in dirs && Parts(d) == p;
          assert d in r;
        } else {
          var q :| q in folders && p == q + Parts(to);
          var d :| d in dirs && Parts(d) == q;
          assert JoinDir(d, [to]) in r;
        }
      }
    }
  }

  /** The state is readable exactly while the words say where the shell and HEAD are, and then holds just the folders. */
  predicate StateIs(l: Line, line: seq<Command>)
    requires LineOk(line)
  {
    (l.unreadable <==> Unreadable(line)) && (!l.unreadable ==> SameFolders(l.dirs, Folders(line)))
  }

  /** What one command does to the state, but for the branches. */
  lemma NotedState(c: Command, l: Line)
    requires CommandOk(c) && OneReading(c)
    ensures var l' := Noted(l, SiteFor(c));
            var r := DirsMoved(l.dirs, l.dirs, if FolderOf(c).Some? then FolderOf(c).value else "");
            && (l'.unreadable <==> l.unreadable || Unfollowed(c) || (Descends(c) && |r| > MAX_DIRS))
            && l'.dirs == if Descends(c) then r else l.dirs
  {
    hide CallsFrom, NotedCall, WordsOf, ArgsOf, GitOk, GlobalOk, SeenOf, NamesGit, IsGitProgram, Leaves, ConfigsOf,
      ChDirs, DirsMoved, ChangesDirectory,
      DirectoryChange, Followable;
    var site := SiteFor(c);
    var l0 := if site.elsewhere || site.touches then l.(unreadable := true) else l;
    var m := NotedMove(l0, site.words);
    if c.RunGit? {
      GitStaysPut(c);
      var call := GitCall(c);
      NotedOne(m, site.words, call);
      AllIsNoted(c.git, site.words, call, m);
    } else {
      NoSubcommands(site.words, 0);
      NoneNoted(m, site.words, CallsFrom(site.words, 0));
      if c.Cd? {
        CdReads(c);
      } else if c.CdPath? {
        CdPathReads(c);
      } else {
        OtherStaysPut(c);
      }
    }
  }

  lemma GitStaysPut(c: Command)
    requires c.RunGit? && OneReading(c)
    ensures DirectoryChange(WordsOf(c)) == NoMove
  {
    hide ChangesDirectory, NamesGit;
    assert WordAt(WordsOf(c), 0) == c.program;
  }

  lemma OtherStaysPut(c: Command)
    requires c.OtherProgram? && CommandOk(c)
    ensures DirectoryChange(WordsOf(c)) == NoMove
  {
    EmptyStaysPut();
    hide ChangesDirectory;
  }

  lemma EmptyStaysPut()
    ensures !ChangesDirectory("")
  {
    assert CommandWord("") == "";
  }

  lemma UnreadableMore(line: seq<Command>)
    requires LineOk(line) && line != []
    ensures var n := |line| - 1;
            && LineOk(line[..n]) && CommandOk(line[n]) && OneReading(line[n])
            && (Unreadable(line) <==> (exists c :: c in line[..n] && Unfollowed(c)) || Unfollowed(line[n]) || |Folders(line)| > MAX_DIRS)
  {
    hide CommandOk, OneReading, Unfollowed, Folders;
    var n := |line| - 1;
    assert line == line[..n] + [line[n]];
    assert forall c :: c in line <==> c in line[..n] || c == line[n];
  }

  lemma {:induction false} StateExactly(line: seq<Command>)
    requires LineOk(line)
    ensures StateIs(LineAfter(SitesOf(line)), line)
  {
    hide Noted, CommandOk, OneReading, Unfollowed, SiteFor, SameFolders, DirsMoved, Parts, Descends;
    if line == [] {
      StartFolders();
    } else {
      var n := |line| - 1;
      var before, c := line[..n], line[n];
      SitesTo(line, n);
      UnreadableMore(line);
      StateExactly(before);
      var l := LineAfter(SitesOf(before));
      NotedState(c, l);
      FoldersGrow(line);
      assert before + [c] == line;
      if !l.unreadable && Descends(c) {
        DescendsInto(c);
        FoldersKept(l, before, c);
      }
    }
  }

  lemma DescendsInto(c: Command)
    requires Descends(c)
    ensures FolderOf(c).Some?
  {
  }

  lemma StartFolders()
    ensures SameFolders(NEW_LINE.dirs, Folders([])) && LineAfter(SitesOf([])) == NEW_LINE && |Folders([])| == 1
  {
    assert Parts("") == [] && Slashed([]) == "";
    assert Paths([""]) == {[]};
  }

  lemma FoldersGrow(line: seq<Command>)
    requires line != []
    ensures |Folders(line[..|line| - 1])| <= |Folders(line)|
  {
    hide Descends, Parts;
    Fewer(Folders(line[..|line| - 1]), Folders(line));
  }

  /** A folder more: too many for the state exactly when there are too many. */
  lemma FoldersKept(l: Line, before: seq<Command>, c: Command)
    requires SameFolders(l.dirs, Folders(before)) && Descends(c)
    ensures var r := DirsMoved(l.dirs, l.dirs, FolderOf(c).value);
            && (|r| > MAX_DIRS <==> |Folders(before + [c])| > MAX_DIRS)
            && (|r| <= MAX_DIRS ==> SameFolders(r, Folders(before + [c])))
  {
    hide Parts, DirsMoved, Followable;
    var to := FolderOf(c).value;
    var r := DirsMoved(l.dirs, l.dirs, to);
    assert (before + [c])[..|before|] == before;
    PathsMoved(l.dirs, Folders(before), to);
    AsManyPaths(r);
    Fewer(Paths(r), Folders(before + [c]));
  }

  // ----- when the answer gives up -----

  predicate PushSetting(gs: seq<Global>) {
    exists g :: g in gs && Sets(g) && PushConfigKey(ShownKey(g))
  }

  /** Where a push of HEAD goes cannot be said. */
  predicate HeadGivenUp(unreadable: bool, c: Command)
    requires c.RunGit?
  {
    unreadable || RunsAway(c) || PushSetting(c.globals)
  }

  predicate SpecGivenUpOn(unreadable: bool, c: Command, spec: string)
    requires c.RunGit?
  {
    var plain := Unforced(spec);
    var first := FirstDestination(plain);
    plain == ":" || GivesUpSpec(plain, first) || (first != "" && IsHead(first) && HeadGivenUp(unreadable, c))
  }

  /** A push given up on, after words that leave the state readable or not. */
  predicate PushGivenUp(unreadable: bool, c: Command)
    requires IsPush(c)
  {
    var args := c.git.pushArgs;
    var operands := AllOperands(args, c.git.tail);
    && !DryRun(args)
    && (|| SomeEvery(args) || (operands != [] && UnreadableRemote(operands[0]))
        || (|operands| <= 1 && !Asks(args, PushesTags) && HeadGivenUp(unreadable, c))
        || (|operands| > 1 && exists spec :: spec in operands[1..] && SpecGivenUpOn(unreadable, c, spec)))
  }

  /** What a command, after others, makes the answer give up on. */
  predicate GivenUpAt(line: seq<Command>, k: nat)
    requires LineOk(line) && k < |line|
  {
    if IsPush(line[k]) then PushGivenUp(Unreadable(line[..k]), line[k]) else AliasUnknown(line[k])
  }

  predicate LineGivenUp(line: seq<Command>)
    requires LineOk(line)
  {
    exists k: nat :: k < |line| && GivenUpAt(line, k)
  }

  lemma SettingRead(gs: seq<Global>)
    ensures PushSetting(gs) <==> exists kv :: kv in ConfigsOf(gs) && PushConfigKey(BeforeFirst(kv, '='))
  {
    hide PushConfigKey, BeforeFirst, ConfigsOf;
    forall g | g in gs && Sets(g) ensures SettingOf(g) in ConfigsOf(gs) && BeforeFirst(SettingOf(g), '=') == ShownKey(g) {
      ConfigRead(gs, g);
      SettingKey(g);
    }
    forall kv | kv in ConfigsOf(gs) ensures exists g :: g in gs && Sets(g) && SettingOf(g) == kv {
      ConfigGiven(gs, kv);
    }
  }

  lemma {:induction false} ConfigGiven(gs: seq<Global>, kv: string)
    requires kv in ConfigsOf(gs)
    ensures exists g :: g in gs && Sets(g) && SettingOf(g) == kv
  {
    assert gs == [gs[0]] + gs[1..];
    if !(Sets(gs[0]) && SettingOf(gs[0]) == kv) {
      ConfigGiven(gs[1..], kv);
    }
  }

  /** An invocation at its site, as `SiteFor` gives it. */
  predicate Placed(c: Command, site: Site, call: Call) {
    c.RunGit? && Reading(c, site, call) && site == SiteFor(c)
  }

  lemma HeadGivesUp(out: Targets, c: Command, site: Site, call: Call, line: Line)
    requires c.RunGit? && Placed(c, site, call)
    ensures GivesUp(HeadNoted(out, site, call, line)) <==> GivesUp(out) || HeadGivenUp(line.unreadable, c)
  {
    hide CallDirs, NonEmpty, PushConfigKey, BeforeFirst, ConfigsOf, ChDirs, WordsOf, Leaves, PushSetting;
    SettingRead(c.globals);
    assert site.elsewhere == c.elsewhere && call.elsewhere == Leaves(c.globals) && call.configs == ConfigsOf(c.globals);
    var read := line.unreadable || call.elsewhere || site.elsewhere || exists kv :: kv in call.configs && PushConfigKey(BeforeFirst(kv, '='));
    assert read == HeadGivenUp(line.unreadable, c);
    if read {
      assert HeadNoted(out, site, call, line) == out.(unknown := true);
    } else {
      assert HeadNoted(out, site, call, line).unknown == out.unknown;
    }
  }

  lemma SpecGivesUp(out: Targets, spec: string, c: Command, site: Site, call: Call, line: Line)
    requires c.RunGit? && Placed(c, site, call)
    ensures GivesUp(SpecNoted(out, spec, site, call, line)) <==> GivesUp(out) || SpecGivenUpOn(line.unreadable, c, spec)
  {
    hide HeadNoted, AfterFirst, UnreadableRef, HasAny, IsHead, OtherRef, StripHeads, Unforced, Placed, HeadGivenUp;
    HeadGivesUp(out, c, site, call, line);
  }

  lemma {:induction false} SpecsGiveUp(out: Targets, specs: seq<string>, c: Command, site: Site, call: Call, line: Line)
    requires c.RunGit? && Placed(c, site, call)
    ensures GivesUp(SpecsNoted(out, specs, site, call, line)) <==>
              GivesUp(out) || exists spec :: spec in specs && SpecGivenUpOn(line.unreadable, c, spec)
    decreases |specs|
  {
    hide SpecNoted, Placed, SpecGivenUpOn, GivesUp;
    if specs != [] {
      var next := SpecNoted(out, specs[0], site, call, line);
      SpecGivesUp(out, specs[0], c, site, call, line);
      SpecsGiveUp(next, specs[1..], c, site, call, line);
      assert specs == [specs[0]] + specs[1..];
      assert forall x :: x in specs <==> x == specs[0] || x in specs[1..];
    }
  }

  /** The arguments of a push as they are read. */
  lemma PushReads(c: Command, site: Site, call: Call) returns (read: PushRead)
    requires IsPush(c) && CommandOk(c) && CallOf(c.git, site.words, call)
    ensures read == ReadArgs(site.words[call.sub.value + 1..call.end], NOTHING_READ) && !read.unknown
    ensures read.operands == AllOperands(c.git.pushArgs, c.git.tail) && read.dryRun == DryRun(c.git.pushArgs)
    ensures read.tagsOnly == Asks(c.git.pushArgs, PushesTags) && read.every == SomeEvery(c.git.pushArgs)
  {
    hide ReadArgs, AllOperands, AllPushWords, TailWords, LastSays, IsGitProgram, GlobalOk, PushArgOk, SubOf, SomeEvery;
    var args, tail := c.git.pushArgs, c.git.tail;
    ArgsRead(args, tail, NOTHING_READ);
    read := ReadArgs(ArgsOf(c.git), NOTHING_READ);
    assert [] + AllOperands(args, tail) == AllOperands(args, tail);
  }

  lemma OptionsGiveUp(out: Targets, read: PushRead, site: Site)
    requires !read.unknown && !site.appended
    ensures out.(unknown := out.unknown || read.unknown) == out
    ensures GivesUp(OptionsNoted(out, read, site)) <==>
              GivesUp(out) || read.every || (read.operands != [] && UnreadableRemote(read.operands[0]))
  {
    hide UnreadableRemote;
  }

  /** A push makes the answer give up exactly when its words do. */
  lemma PushGivesUp(out: Targets, c: Command, site: Site, call: Call, line: Line)
    requires IsPush(c) && CommandOk(c) && CallOf(c.git, site.words, call) && Placed(c, site, call)
    ensures GivesUp(PushNoted(out, site, call, line)) <==> GivesUp(out) || PushGivenUp(line.unreadable, c)
  {
    hide ReadArgs, HeadNoted, SpecsNoted, OptionsNoted, UnreadableRemote, AllOperands, DryRun, Asks, CommandOk, SubOf,
      ArgsOf, WordsOf, SomeEvery,
      Placed, HeadGivenUp, SpecGivenUpOn, GivesUp;
    var read := PushReads(c, site, call);
    NotAppended(c, site, call);
    OptionsGiveUp(out, read, site);
    var out1 := OptionsNoted(out, read, site);
    if !read.dryRun {
      if |read.operands| > 1 {
        SpecsGiveUp(out1, read.operands[1..], c, site, call, line);
      } else if !read.every && !read.tagsOnly {
        HeadGivesUp(out1, c, site, call, line);
      }
    }
  }

  lemma NotAppended(c: Command, site: Site, call: Call)
    requires Placed(c, site, call)
    ensures !site.appended
  {
    hide WordsOf, Reading;
  }

  lemma OneGivesUp(out: Targets, c: Command, line: Line)
    requires CommandOk(c) && OneReading(c)
    ensures GivesUp(AnswerAfter(out, c, line)) <==>
              GivesUp(out) || (if IsPush(c) then PushGivenUp(line.unreadable, c) else AliasUnknown(c))
  {
    hide CallsFrom, WordsOf, PushNoted, CommandOk, OneReading, Reading, CallOf, AnswerAfter, PushGivenUp, AliasUnknown;
    GitIsOne(c);
    if IsPush(c) {
      var call := GitCall(c);
      PushRuns(out, c, call, line);
      SiteIsOf(c);
      PushGivesUp(out, c, SiteFor(c), call, line);
    } else {
      NoPushRuns(out, c, line);
    }
  }

  lemma GivenUpMore(line: seq<Command>)
    requires LineOk(line) && line != []
    ensures var n := |line| - 1;
            LineOk(line[..n]) && (LineGivenUp(line) <==> LineGivenUp(line[..n]) || GivenUpAt(line, n))
  {
    hide CommandOk, OneReading, PushGivenUp, AliasUnknown, Unreadable;
    var n := |line| - 1;
    var before := line[..n];
    forall k: nat | k < n ensures GivenUpAt(line, k) <==> GivenUpAt(before, k) {
      assert line[..k] == before[..k];
    }
    if LineGivenUp(line) {
      var k: nat :| k < |line| && GivenUpAt(line, k);
      assert k < n ==> GivenUpAt(before, k);
    }
    if LineGivenUp(before) {
      var k: nat :| k < n && GivenUpAt(before, k);
      assert GivenUpAt(line, k);
    }
  }

  /** For every line, each of whose commands is read as one: the answer gives up if and only if the words do. */
  lemma {:induction false} GivesUpExactly(line: seq<Command>)
    requires LineOk(line)
    ensures GivesUp(TargetsOf(SitesOf(line))) <==> LineGivenUp(line)
  {
    hide CommandOk, OneReading, SitesOf, TargetsOf, LineAfter, AnswerAfter, GivesUp, PushGivenUp, AliasUnknown,
      Unreadable, SameFolders, LineGivenUp;
    if line == [] {
      NothingGivenUp();
    } else {
      var n := |line| - 1;
      var before, c := line[..n], line[n];
      assert c in line;
      AnswerOfMore(line);
      GivenUpMore(line);
      GivesUpExactly(before);
      StateExactly(before);
      OneGivesUp(TargetsOf(SitesOf(before)), c, LineAfter(SitesOf(before)));
    }
  }

  lemma NothingGivenUp()
    ensures !GivesUp(TargetsOf(SitesOf([]))) && !LineGivenUp([])
  {
  }
}
