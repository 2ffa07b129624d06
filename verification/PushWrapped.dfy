/**
 * Pushes that the words of a line do not show whole: run by another command, or given words that are not on the
 * line (`xargs git push`); and what is left of a line after one that touches Git's own files.
 */
module PushWrapped {
  import opened Common
  import opened PushText
  import opened PushAnalysis
  import opened PushSemantics
  import opened PushReach
  import opened PushReading
  import opened PushMoves
  import opened PushSoundness
  import opened PushExact
  import opened PushLineRead
  import opened PushLineExact
  import opened PushMoveExact

  // ----- words that make the answer unknown -----

  /** The words show a push whose destination they do not: run by another command, or given more words and no dry run. */
  predicate ShowsOpenPush(site: Site, call: Call)
    requires CallOk(site.words, call) && call.sub.Some?
  {
    && Lower(site.words[call.sub.value]) == "push"
    && (call.at > 0 || (site.appended && !ReadArgs(site.words[call.sub.value + 1..call.end], NOTHING_READ).dryRun))
  }

  /** The words show an invocation that may push where they cannot say. */
  predicate ShowsOther(site: Site, call: Call)
    requires CallOk(site.words, call) && call.sub.Some?
  {
    var word := site.words[call.sub.value];
    && Lower(word) != "push"
    && (|| UnreadableWord(word) || Lower(word) == "send-pack" || Lower(word) == "http-push"
        || (Lower(word) == "subtree" && "push" in site.words[call.sub.value + 1..call.end]))
  }

  predicate ShowsOpen(site: Site) {
    exists call :: call in CallsFrom(site.words, 0) && call.sub.Some? && (ShowsOpenPush(site, call) || ShowsOther(site, call))
  }

  lemma OpenCallIsUnknown(out: Targets, site: Site, call: Call, line: Line)
    requires CallOk(site.words, call) && call.sub.Some? && (ShowsOpenPush(site, call) || ShowsOther(site, call))
    ensures CallRead(out, site, call, line).unknown
  {
    hide ReadArgs, HeadNoted, SpecsNoted, UnreadableRemote, Builtin, UnreadableWord, DefinesAlias, Lower, OutGrows;
    if Lower(site.words[call.sub.value]) == "push" {
      OpenPushNoted(if call.at > 0 then out.(unknown := true) else out, site, call, line);
    }
  }

  lemma OpenPushNoted(out: Targets, site: Site, call: Call, line: Line)
    requires CallOk(site.words, call) && call.sub.Some?
    requires out.unknown || (site.appended && !ReadArgs(site.words[call.sub.value + 1..call.end], NOTHING_READ).dryRun)
    ensures PushNoted(out, site, call, line).unknown
  {
    hide ReadArgs, HeadNoted, SpecsNoted, UnreadableRemote;
    PushNotedGrows(out, site, call, line);
    var read := ReadArgs(site.words[call.sub.value + 1..call.end], NOTHING_READ);
    var out1 := OptionsNoted(out.(unknown := out.unknown || read.unknown), read, site);
    HeadNotedGrows(out1, site, call, line);
    if |read.operands| > 1 { SpecsNotedGrow(out1, read.operands[1..], site, call, line); }
  }

  lemma {:induction false} CallsOpen(out: Targets, site: Site, calls: seq<Call>, line: Line, call: Call)
    requires (forall c :: c in calls ==> CallOk(site.words, c)) && call in calls && call.sub.Some?
    requires ShowsOpenPush(site, call) || ShowsOther(site, call)
    ensures CallsRead(out, site, calls, line).unknown
    decreases |calls|
  {
    hide CallRead, CallOk, ShowsOpenPush, ShowsOther;
    assert calls == [calls[0]] + calls[1..];
    if call == calls[0] {
      OpenCallIsUnknown(out, site, call, line);
      CallsReadGrow(CallRead(out, site, call, line), site, calls[1..], line);
    } else {
      CallsOpen(CallRead(out, site, calls[0], line), site, calls[1..], line, call);
    }
  }

  /** Whatever the other commands of a line are, the answer is unknown where one shows such an invocation. */
  lemma OpenIsUnknown(sites: seq<Site>, k: nat)
    requires k < |sites| && ShowsOpen(sites[k])
    ensures TargetsOf(sites).unknown
  {
    hide CallsRead, CallsFrom, LineAfter, ShowsOpenPush, ShowsOther;
    var site, upto := sites[k], sites[..k + 1];
    var call :| call in CallsFrom(site.words, 0) && call.sub.Some? && (ShowsOpenPush(site, call) || ShowsOther(site, call));
    assert upto[..k] == sites[..k] && upto[k] == site;
    CallsOpen(TargetsOf(sites[..k]), site, CallsFrom(site.words, 0), LineAfter(sites[..k]), call);
    TargetsGrow(sites, k + 1, |sites|);
    assert sites[..|sites|] == sites;
  }

  // ----- a line that touches Git's own files -----

  lemma {:induction false} UnreadableFrom(sites: seq<Site>, i: nat)
    requires i < |sites| && Unsettles(sites[i])
    ensures LineAfter(sites).unreadable
    decreases |sites|
  {
    hide Noted, CallsFrom, Unsettles;
    var n := |sites| - 1;
    if i < n {
      UnreadableFrom(sites[..n], i);
    }
    NotedStaysUnreadable(LineAfter(sites[..n]), sites[n]);
  }

  /** A branch given an upstream: what a push of HEAD follows, by the words of `git branch`. */
  ghost predicate GivesUpstream(site: Site) {
    exists call, w :: call in CallsFrom(site.words, 0) && call.sub.Some? && UpstreamWord(site, call, w)
  }

  predicate UpstreamWord(site: Site, call: Call, w: string)
    requires CallOk(site.words, call) && call.sub.Some?
  {
    && Lower(site.words[call.sub.value]) == "branch" && w in site.words[call.sub.value + 1..call.end]
    && (w == "-u" || w == "-t" || w == "--track" || "--track=" <= w || w == "--set-upstream-to" || "--set-upstream-to=" <= w)
  }

  lemma UpstreamNoted(line: Line, site: Site, call: Call, w: string)
    requires CallOk(site.words, call) && call.sub.Some? && UpstreamWord(site, call, w)
    ensures NotedCall(line, site.words, call).unreadable
  {
    hide SwitchesTo, NonOptions, Renames, StripHeads, UnreadableRef, Lower;
    assert SetsUpstream(w);
    LowerSubs();
  }

  lemma {:induction false} UpstreamAmong(line: Line, site: Site, calls: seq<Call>, call: Call, w: string)
    requires (forall c :: c in calls ==> CallOk(site.words, c)) && call in calls && call.sub.Some? && UpstreamWord(site, call, w)
    ensures NotedCalls(line, site.words, calls).unreadable
    decreases |calls|
  {
    hide NotedCall, CallOk, UpstreamWord;
    assert calls == [calls[0]] + calls[1..];
    if call == calls[0] {
      UpstreamNoted(line, site, call, w);
      NotedCallsGrow(NotedCall(line, site.words, call), site.words, calls[1..]);
    } else {
      UpstreamAmong(NotedCall(line, site.words, calls[0]), site, calls[1..], call, w);
    }
  }

  /** What makes a push of HEAD that comes after it unreadable, on the words. */
  ghost predicate Unsettles(site: Site) {
    site.touches || site.elsewhere || GivesUpstream(site)
  }

  lemma NotedStaysUnreadable(line: Line, site: Site)
    ensures line.unreadable || Unsettles(site) ==> Noted(line, site).unreadable
  {
    hide NotedMove, NotedCalls, CallsFrom, UpstreamWord;
    var l := if site.elsewhere || site.touches then line.(unreadable := true) else line;
    NotedMoveGrows(l, site.words);
    NotedCallsGrow(NotedMove(l, site.words), site.words, CallsFrom(site.words, 0));
    if GivesUpstream(site) {
      var call, w :| call in CallsFrom(site.words, 0) && call.sub.Some? && UpstreamWord(site, call, w);
      UpstreamAmong(NotedMove(l, site.words), site, CallsFrom(site.words, 0), call, w);
    }
  }

  /**
   * A push of HEAD after a command that touches Git's own files, runs in a place of its own, or gives a branch an
   * upstream is given up on, whatever runs between.
   */
  lemma TouchedIsGivenUp(sites: seq<Site>, i: nat, k: nat, p: Command)
    requires i < k < |sites| && Unsettles(sites[i])
    requires HeadPush(p) && sites[k] == SiteFor(p)
    ensures GivesUp(TargetsOf(sites))
  {
    hide HeadPush, LineAfter, OutGrows, TargetsOf, SiteFor, GivesUp, AnswerAfter, Unsettles;
    var before, upto := sites[..k], sites[..k + 1];
    assert upto == before + [SiteFor(p)];
    UnreadableFrom(before, i);
    AnswerHere(before, p);
    UnreadableGivenUp(TargetsOf(before), p, LineAfter(before));
    TargetsGrow(sites, k + 1, |sites|);
    GivenUpGrows(TargetsOf(upto), TargetsOf(sites[..|sites|]));
    assert sites[..|sites|] == sites;
  }

  lemma UnreadableGivenUp(out: Targets, p: Command, line: Line)
    requires HeadPush(p) && line.unreadable
    ensures GivesUp(AnswerAfter(out, p, line))
  {
    hide HeadPush, CommandOk, NamesGit, PushGivenUp, AnswerAfter, GivesUp, CallsFrom, WordsOf, PushNoted, CallOf, Reading;
    HeadPushIs(p);
    SiteIsOf(p);
    var call := GitCall(p);
    PushRuns(out, p, call, line);
    PushGivesUp(out, p, SiteFor(p), call, line);
    HeadUnreadable(p);
  }

  lemma AnswerHere(before: seq<Site>, p: Command)
    ensures TargetsOf(before + [SiteFor(p)]) == AnswerAfter(TargetsOf(before), p, LineAfter(before))
  {
    hide CallsFrom, CallsRead, WordsOf, LineAfter;
    assert (before + [SiteFor(p)])[..|before|] == before;
  }

  lemma HeadUnreadable(p: Command)
    requires HeadPush(p)
    ensures PushGivenUp(true, p)
  {
    hide CommandOk, NamesGit, DryRun, Deletes, AllOperands, Asks, SomeEvery, UnreadableRemote;
    var operands := AllOperands(p.git.pushArgs, p.git.tail);
    if |operands| > 1 {
      var spec := operands[1..][0];
      assert spec in operands[1..];
      HeadGivesUpHere(p, spec);
    }
  }

  lemma HeadGivesUpHere(p: Command, spec: string)
    requires p.RunGit? && IsHeadWord(spec)
    ensures SpecGivenUpOn(true, p, spec)
  {
    hide Unforced, AfterFirst;
    HeadWord();
    assert Lower("HEAD") == "head";
  }

  // ----- a command given words that are not on the line -----

  /** A run of Git of which the line shows the first words; a wrapper adds the others. */
  predicate Fed(c: Command, site: Site) {
    c.RunGit? && site.appended && site.words <= WordsOf(c)
  }

  /** It leaves HEAD and the refs as they are, and pushes nothing. */
  predicate LeavesAll(c: Command)
    requires c.RunGit?
  {
    ReachOf(c.git) == Nowhere && MadeRefs(c.git) == PLAIN_REFS && (c.git.Push? ==> DryRun(c.git.pushArgs))
  }

  /** A push on the line that is no dry run, given any more words, is unknown. */
  lemma FedPushShows(shown: Command, site: Site)
    requires IsPush(shown) && CommandOk(shown) && !NamesGit(shown.git) && !DryRun(shown.git.pushArgs)
    requires site.words == WordsOf(shown) && site.appended
    ensures ShowsOpen(site)
  {
    hide CallsFrom, WordsOf, ReadArgs, CommandOk, NamesGit, CallOf, Reading, AllOperands, SomeEvery, DryRun, Asks;
    var call := GitCall(shown);
    assert Lower("push") == "push";
    IsPushWord(shown, site.words, call);
    var read := PushReads(shown, site, call);
    assert ShowsOpenPush(site, call);
  }

  lemma IsPushWord(c: Command, words: seq<string>, call: Call)
    requires IsPush(c) && CallOf(c.git, words, call)
    ensures CallOk(words, call) && call.sub.Some? && words[call.sub.value] == "push"
  {
  }

  /** A line, and its words, some of which a wrapper adds. */
  predicate LineOrFed(line: seq<Command>, sites: seq<Site>) {
    |sites| == |line| && forall k :: 0 <= k < |line| ==> CommandOk(line[k]) && (SiteOf(line[k], sites[k]) || Fed(line[k], sites[k]))
  }

  predicate FollowedOrFed(refs: Refs, c: Command, site: Site) {
    if SiteOf(c, site) then Followed(refs, c) else c.RunGit? && LeavesAll(c)
  }

  lemma FedContains(c: Command, site: Site, line: Line, k: Known)
    requires c.RunGit? && LeavesAll(c) && Contains(line, k)
    ensures Contains(Noted(line, site), Next(k, c))
  {
    hide NotedMove, NotedCalls, CallsFrom, ReachOf, RunsAway, MadeRefs, Contains, LineGrows, WordsOf;
    var l := if site.elsewhere || site.touches then line.(unreadable := true) else line;
    MarkedGrows(line, l);
    ContainsGrows(line, l, k);
    var m := NotedMove(l, site.words);
    NotedMoveGrows(l, site.words);
    ContainsGrows(l, m, k);
    NotedCallsGrow(m, site.words, CallsFrom(site.words, 0));
    ContainsGrows(m, Noted(line, site), k);
    assert Next(k, c) == k by {
      assert k.refs.links + {} == k.refs.links && k.refs.literals + {} == k.refs.literals;
    }
  }

  lemma {:induction false} FedLineContains(refs: Refs, line: seq<Command>, sites: seq<Site>, k: nat)
    requires LineOrFed(line, sites) && k <= |line|
    requires forall i :: 0 <= i < |line| ==> FollowedOrFed(AllRefs(refs, line[..i]), line[i], sites[i])
    ensures Contains(LineAfter(sites[..k]), KnownAfter(refs, line[..k]))
  {
    hide CommandOk, Followed, Noted, Contains, SiteOf, Next, LeavesAll, Fed;
    if k == 0 {
      StartContains(refs);
    } else {
      FedLineContains(refs, line, sites, k - 1);
      assert sites[..k][..k - 1] == sites[..k - 1] && line[..k][..k - 1] == line[..k - 1];
      RefsKnown(refs, line[..k - 1]);
      if SiteOf(line[k - 1], sites[k - 1]) {
        NotedContains(line[k - 1], sites[k - 1], LineAfter(sites[..k - 1]), KnownAfter(refs, line[..k - 1]));
      } else {
        FedContains(line[k - 1], sites[k - 1], LineAfter(sites[..k - 1]), KnownAfter(refs, line[..k - 1]));
      }
    }
  }

  lemma DryIsSaid(out: Targets, k: Known, c: Command)
    requires IsPush(c) && LeavesAll(c)
    ensures PushSaid(out, k, c)
  {
  }

  /**
   * Soundness with wrapped runs: the answer covers every push of every run, whatever the words are that the line
   * does not show, when the words show an invocation that may push where they cannot say; or when every command
   * shown whole is spelled in a way read right, and every other, with the words it is given, leaves HEAD and
   * the refs and pushes nothing.
   */
  lemma WrappedCovered(refs: Refs, line: seq<Command>, sites: seq<Site>)
    requires LineOrFed(line, sites)
    requires (exists k :: 0 <= k < |sites| && ShowsOpen(sites[k]))
             || forall i :: 0 <= i < |line| ==> FollowedOrFed(AllRefs(refs, line[..i]), line[i], sites[i])
    ensures AllCovered(refs, line, TargetsOf(sites))
  {
    hide AllCovered, CommandOk, Followed, SiteOf, PushSaid, CallsRead, CallsFrom, OutGrows, LineAfter, Contains, KnownAfter, AllRefs,
      LeavesAll, ShowsOpen, Fed;
    var out := TargetsOf(sites);
    if exists k :: 0 <= k < |sites| && ShowsOpen(sites[k]) {
      var k :| 0 <= k < |sites| && ShowsOpen(sites[k]);
      OpenIsUnknown(sites, k);
    } else {
      forall k | 0 <= k < |line| && IsPush(line[k]) ensures GivesUp(out) || PushSaid(out, KnownAfter(refs, line[..k]), line[k]) {
        if SiteOf(line[k], sites[k]) {
          FedLineContains(refs, line, sites, k);
          RefsKnown(refs, line[..k]);
          OnePushSaid(refs, line, sites, k);
        } else {
          DryIsSaid(out, KnownAfter(refs, line[..k]), line[k]);
        }
      }
    }
    SaysCovers(refs, line, out);
  }

  lemma OnePushSaid(refs: Refs, line: seq<Command>, sites: seq<Site>, k: nat)
    requires |sites| == |line| && k < |line| && IsPush(line[k]) && CommandOk(line[k]) && SiteOf(line[k], sites[k])
    requires Contains(LineAfter(sites[..k]), KnownAfter(refs, line[..k])) && Followed(KnownAfter(refs, line[..k]).refs, line[k])
    ensures GivesUp(TargetsOf(sites)) || PushSaid(TargetsOf(sites), KnownAfter(refs, line[..k]), line[k])
  {
    hide CommandOk, Followed, SiteOf, PushSaid, CallsRead, CallsFrom, OutGrows, LineAfter, Contains, KnownAfter;
    var before, out := sites[..k], TargetsOf(sites);
    CommandSays(TargetsOf(before), line[k], sites[k], LineAfter(before), KnownAfter(refs, line[..k]));
    assert sites[..k + 1][..k] == before;
    TargetsGrow(sites, k + 1, |sites|);
    assert sites[..|sites|] == sites;
    SaidGrows(TargetsOf(sites[..k + 1]), out, KnownAfter(refs, line[..k]), line[k]);
  }

  // ----- exactly, for one wrapped push -----

  /** The push, with all the words it is given, updates no branch. */
  predicate UpdatesNothing(refs: Refs, c: Command)
    requires IsPush(c)
  {
    var args, tail := c.git.pushArgs, c.git.tail;
    var operands := AllOperands(args, tail);
    || DryRun(args)
    || (&& !AsksEvery(args) && !(operands != [] && UnreadableRemote(operands[0])) && !PushesHead(args, tail)
        && forall spec :: spec in SpecsOf(operands) ==> SpecTarget(refs, spec, Deletes(args)) == Updates({}, false))
  }

  lemma NothingSaid(refs: Refs, c: Command)
    requires IsPush(c)
    ensures PushSaid(NO_TARGETS, Start(refs), c) <==> UpdatesNothing(refs, c)
  {
    hide SpecTarget, DryRun, AsksEvery, UnreadableRemote, AllOperands, PushesHead, SpecsOf, Deletes, Redirected, RunsAway;
    forall spec ensures SpecSaid(NO_TARGETS, Start(refs), c, spec) <==> SpecTarget(refs, spec, Deletes(c.git.pushArgs)) == Updates({}, false) {
    }
  }

  /**
   * For every push of which the line shows the first words, as a push they could be: what it does is covered if and
   * only if those words are no dry run, or all of its words update no branch.
   */
  lemma FedPushExactly(refs: Refs, c: Command, shown: Command, site: Site)
    requires IsPush(c) && CommandOk(c) && Fed(c, site)
    requires IsPush(shown) && CommandOk(shown) && !NamesGit(shown.git) && site.words == WordsOf(shown)
    ensures AllCovered(refs, [c], TargetsOf([site])) <==> !DryRun(shown.git.pushArgs) || UpdatesNothing(refs, c)
  {
    hide AllCovered, CommandOk, NamesGit, WordsOf, DryRun, UpdatesNothing, PushSaid, ShowsOpen, TargetsOf, KnownAfter;
    CoveredExactly(refs, [c], TargetsOf([site]));
    OnlyPush(refs, c, TargetsOf([site]));
    if DryRun(shown.git.pushArgs) {
      DryAddsNothing(shown, site);
      NothingSaid(refs, c);
    } else {
      FedPushShows(shown, site);
      OpenIsUnknown([site], 0);
    }
  }

  lemma DryAddsNothing(shown: Command, site: Site)
    requires IsPush(shown) && CommandOk(shown) && !NamesGit(shown.git) && site.words == WordsOf(shown) && DryRun(shown.git.pushArgs)
    ensures TargetsOf([site]) == NO_TARGETS
  {
    hide CallsFrom, WordsOf, ReadArgs, CommandOk, NamesGit, CallOf, Reading, AllOperands, SomeEvery, DryRun, Asks, HeadNoted, SpecsNoted, OptionsNoted;
    var call := GitCall(shown);
    var read := PushReads(shown, site, call);
    IsPushWord(shown, site.words, call);
    assert Lower("push") == "push";
    OneSite(site);
    assert CallsRead(NO_TARGETS, site, [call], NEW_LINE) == CallRead(NO_TARGETS, site, call, NEW_LINE);
  }

  // ----- what is missed -----

  /** `-n --no-dry-run <remote> <branch>`. */
  function FedArgs(remote: string, b: string): seq<PushArg> {
    [Letters("n")] + UndoArgs(remote, b)
  }

  function UndoArgs(remote: string, b: string): seq<PushArg> {
    [Long("no-dry-run", "dry-run", true)] + [Word(remote), Word(b)]
  }

  lemma OneMoreArgWords(a: PushArg, more: seq<PushArg>)
    ensures AllPushWords([a] + more) == PushWords(a) + AllPushWords(more)
    ensures PushOperands([a] + more) == (if a.Word? then [a.word] else []) + PushOperands(more)
    ensures LastSays([a] + more, DryRuns) == if LastSays(more, DryRuns).Some? then LastSays(more, DryRuns) else Says(a, DryRuns)
    ensures LastDelete([a] + more) == if LastDelete(more).Some? then LastDelete(more) else SaysDelete(a)
  {
    hide Says, SaysDelete, PushWords;
    assert ([a] + more)[1..] == more;
  }

  lemma TwoWordsRead(remote: string, b: string)
    ensures var two := [Word(remote), Word(b)];
            AllPushWords(two) == [remote, b] && PushOperands(two) == [remote, b] && LastSays(two, DryRuns) == None && LastDelete(two) == None
  {
    OneMoreArgWords(Word(b), []);
    OneMoreArgWords(Word(remote), [Word(b)]);
    assert [Word(remote)] + [Word(b)] == [Word(remote), Word(b)] && [Word(b)] + [] == [Word(b)];
  }

  lemma FedRead(remote: string, b: string)
    ensures var args := FedArgs(remote, b);
            && AllPushWords(args) == ["-n", "--no-dry-run", remote, b] && PushOperands(args) == [remote, b]
            && LastSays(args, DryRuns) == Some(false) && LastDelete(args) == None
    ensures AllPushWords([Letters("n")]) == ["-n"] && DryRun([Letters("n")])
  {
    TwoWordsRead(remote, b);
    OneMoreArgWords(Long("no-dry-run", "dry-run", true), [Word(remote), Word(b)]);
    OneMoreArgWords(Letters("n"), UndoArgs(remote, b));
    OneMoreArgWords(Letters("n"), []);
    assert [Letters("n")] + [] == [Letters("n")];
    assert "-" + "n" == "-n" && "--" + "no-dry-run" == "--no-dry-run";
  }

  lemma FedOk(remote: string, b: string)
    requires Plain(remote) && Plain(b)
    ensures CommandOk(RunGit("git", [], Push(FedArgs(remote, b), None), false))
    ensures CommandOk(RunGit("git", [], Push([Letters("n")], None), false))
  {
    hide IsGitProgram, PUSH_OPTIONS;
    WordsHere("", "");
    PlainReadable(remote);
    PlainReadable(b);
    DryRunKnown();
    assert FormOf("dry-run", true) == "no-dry-run";
    assert PushArgOk(Long("no-dry-run", "dry-run", true));
  }

  lemma DryRunKnown()
    ensures PushSemantics.Known("dry-run")
  {
    assert FIRST_OPTIONS[8] == ("dry-run", Flag);
    assert FIRST_OPTIONS[8] in PUSH_OPTIONS;
  }

  lemma BranchUpdated(refs: Refs, remote: string, b: string)
    requires Plain(remote) && Plain(b) && b != "tag"
    ensures !UpdatesNothing(refs, RunGit("git", [], Push(FedArgs(remote, b), None), false))
  {
    hide UnreadableRemote, SpecTarget, FedArgs, LastSays, LastDelete, PushOperands, Redirected;
    var operands := AllOperands(FedArgs(remote, b), None);
    FedRead(remote, b);
    assert operands == [remote, b] && operands[1..] == [b];
    assert Refspecs([b]) == [b] by { assert [b][1..] == []; }
    assert b in SpecsOf(operands);
    SomeBranch(refs, b);
  }

  lemma SomeBranch(refs: Refs, b: string)
    requires Plain(b)
    ensures SpecTarget(refs, b, false) != Updates({}, false)
  {
    hide Otherwise, UnreadableRef, HasAny;
    PlainReadable(b);
    PlainName(b);
  }

  /** `echo --no-dry-run origin main | xargs git push -n`. */
  lemma FedDryMissed(refs: Refs, remote: string, b: string)
    requires Plain(remote) && Plain(b) && b != "tag"
    ensures var c := RunGit("git", [], Push(FedArgs(remote, b), None), false);
            var site := Site(["git", "push", "-n"], true, false, false);
            && WordsOf(c) == ["git", "push", "-n", "--no-dry-run", remote, b] && Fed(c, site)
            && !AllCovered(refs, [c], TargetsOf([site]))
  {
    hide AllCovered, TargetsOf, IsGitProgram, UpdatesNothing, GitReads, PUSH_OPTIONS, FedArgs, AllPushWords, LastSays;
    var c := RunGit("git", [], Push(FedArgs(remote, b), None), false);
    var shown := RunGit("git", [], Push([Letters("n")], None), false);
    var site := Site(["git", "push", "-n"], true, false, false);
    FedRead(remote, b);
    assert ArgsOf(shown.git) == ["-n"] && WordsOf(shown) == ["git", "push", "-n"];
    assert ArgsOf(c.git) == ["-n", "--no-dry-run", remote, b];
    FedOk(remote, b);
    DashedIsNotGit("-n");
    BranchUpdated(refs, remote, b);
    FedPushExactly(refs, c, shown, site);
  }

  const BARE_CHECKOUT := RunGit("git", [], Switch("checkout", [], None), false)

  lemma BareWords()
    ensures WordsOf(BARE_CHECKOUT) == ["git", "checkout"] && CommandOk(BARE_CHECKOUT) && !NamesGit(BARE_CHECKOUT.git)
  {
    hide IsGitProgram;
    WordsHere("", "");
    assert ArgsOf(BARE_CHECKOUT.git) == [];
  }

  /** `xargs git checkout` shows no branch, and leaves the state and the answer as they were. */
  lemma BareCheckout(site: Site)
    requires site == Site(["git", "checkout"], true, false, false)
    ensures Noted(NEW_LINE, site) == NEW_LINE && TargetsOf([site]) == NO_TARGETS
  {
    hide CallsFrom, WordsOf, CommandOk, NamesGit, NotedCall, ChangesDirectory, Builtin, UnreadableWord, Lower, PushNoted, NEW_LINE;
    BareWords();
    GitStaysHere();
    LowerSubs();
    var call := GitCall(BARE_CHECKOUT);
    assert Marked(NEW_LINE, call) == NEW_LINE;
    SwitchNoted(BARE_CHECKOUT.git, site.words, call, NEW_LINE);
    NotedOne(NEW_LINE, site.words, call);
    assert WordAt(site.words, 0) == "git";
    OneSite(site);
    assert CallsRead(NO_TARGETS, site, [call], NEW_LINE) == CallRead(NO_TARGETS, site, call, NEW_LINE);
    assert GitRuns(site, call) == RunsOther by { CheckoutIsGits(); }
  }

  lemma CheckoutIsGits()
    ensures Builtin("checkout") && !UnreadableWord("checkout")
  {
    hide BuiltinC, BuiltinF, BuiltinM, BuiltinR;
    assert BuiltinA("checkout");
  }

  lemma NothingSeen(site: Site)
    requires site == Site(["git", "checkout"], true, false, false)
    ensures var out := TargetsOf([site, SiteFor(PLAIN_PUSH)]); out.branches == [] && !GivesUp(out)
  {
    hide CallsFrom, WordsOf, CommandOk, NamesGit, PushNoted, Noted, PushGivenUp, CallsRead, PLAIN_PUSH, Reading, CallOf, NEW_LINE, NO_TARGETS, HeadPush;
    var sites := [site, SiteFor(PLAIN_PUSH)];
    assert sites[..1] == [site] && [site][..0] == [];
    BareCheckout(site);
    assert LineAfter([site]) == Noted(NEW_LINE, site);
    PlainPushReported();
    PlainNames();
    HeadPushIs(PLAIN_PUSH);
    SiteWords(PLAIN_PUSH);
    var call := GitCall(PLAIN_PUSH);
    assert TargetsOf(sites) == AnswerAfter(NO_TARGETS, PLAIN_PUSH, NEW_LINE);
    PushRuns(NO_TARGETS, PLAIN_PUSH, call, NEW_LINE);
    PushGivesUp(NO_TARGETS, PLAIN_PUSH, SiteFor(PLAIN_PUSH), call, NEW_LINE);
    PushAdds(NO_TARGETS, PLAIN_PUSH, SiteFor(PLAIN_PUSH), call, NEW_LINE);
  }

  lemma PlainNames()
    ensures PushNames(PLAIN_PUSH, NEW_LINE.switched) == [] && NO_TARGETS.branches == [] && !NEW_LINE.unreadable && !GivesUp(NO_TARGETS)
  {
    assert AllOperands([], None) == [];
  }

  lemma CheckedOut(b: string)
    requires Plain(b)
    ensures b in Next(Start(PLAIN_REFS), RunGit("git", [], CheckoutOne(Name(b), None), false)).moved
  {
    hide UnreadableBranch, IsOption, Linked;
    OneArg(Name(b));
    PlainBranch(b);
  }

  /** `echo main | xargs git checkout; git push`: the branch is not among the words, and the push is read as if nothing moved. */
  lemma FedMoveMissed(b: string)
    requires Plain(b)
    ensures var c := RunGit("git", [], CheckoutOne(Name(b), None), false);
            var site := Site(["git", "checkout"], true, false, false);
            Fed(c, site) && !AllCovered(PLAIN_REFS, [c, PLAIN_PUSH], TargetsOf([site, SiteFor(PLAIN_PUSH)]))
  {
    hide AllCovered, TargetsOf, IsGitProgram, SiteFor, Next, HeadPush, PLAIN_PUSH;
    var c := RunGit("git", [], CheckoutOne(Name(b), None), false);
    var site := Site(["git", "checkout"], true, false, false);
    var line, out := [c, PLAIN_PUSH], TargetsOf([site, SiteFor(PLAIN_PUSH)]);
    OneArg(Name(b));
    CoveredExactly(PLAIN_REFS, line, out);
    NothingSeen(site);
    CheckedOut(b);
    PlainPushReported();
    HeadPushIs(PLAIN_PUSH);
    assert line[..1] == [c] && [c][..0] == [];
    assert KnownAfter(PLAIN_REFS, line[..1]) == Next(Start(PLAIN_REFS), c);
    if SaysAll(out, PLAIN_REFS, line) {
      assert IsPush(line[1]);
      HeadPushSaid(out, KnownAfter(PLAIN_REFS, line[..1]), PLAIN_PUSH);
      assert false;
    }
  }
}
