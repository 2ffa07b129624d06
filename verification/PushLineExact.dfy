/** Exactly when the answer for a whole line covers its runs, on the words of its commands. */
module PushLineExact {
  import opened Common
  import opened PushText
  import opened PushAnalysis
  import opened PushSemantics
  import opened PushReach
  import opened PushReading
  import opened PushMoves
  import opened PushSoundness
  import opened PushExact
  import opened PushLineRead

  // ----- what must be named -----

  /** HEAD can be told, and every branch it may be on is named. */
  predicate HeadNamed(refs: Refs, line: seq<Command>, k: nat)
    requires LineOk(line) && k < |line| && line[k].RunGit?
  {
    var known := KnownAfter(refs, line[..k]);
    !known.lost && !ReadsIn(line[k].globals) && forall b :: b in known.moved ==> b in Names(line)
  }

  predicate SpecNamed(refs: Refs, line: seq<Command>, k: nat, spec: string)
    requires LineOk(line) && k < |line| && IsPush(line[k])
  {
    var deletes := Deletes(line[k].git.pushArgs);
    match SpecTarget(AllRefs(refs, line[..k]), spec, deletes)
    case AnyBranch => false
    case Updates(branches, head) =>
      && (forall b :: b in branches ==> b in Names(line))
      && (head ==> HeadNamed(refs, line, k))
      && (Redirected(line[k].globals) && !deletes && ':' !in Unforced(spec) ==> branches == {} && !head)
  }

  predicate PushNamed(refs: Refs, line: seq<Command>, k: nat)
    requires LineOk(line) && k < |line| && IsPush(line[k])
  {
    var args, tail := line[k].git.pushArgs, line[k].git.tail;
    || DryRun(args)
    || (&& (PushesHead(args, tail) ==> HeadNamed(refs, line, k))
        && forall spec :: spec in SpecsOf(AllOperands(args, tail)) ==> SpecNamed(refs, line, k, spec))
  }

  /** Every branch a push of the line may update is named. */
  predicate AllNamed(refs: Refs, line: seq<Command>)
    requires LineOk(line)
  {
    forall k :: 0 <= k < |line| && IsPush(line[k]) ==> PushNamed(refs, line, k)
  }

  // ----- where HEAD is pushed -----

  /** The state holds every folder, or has given up. */
  predicate HoldsDirs(l: Line, k: Known) {
    l.unreadable || forall p :: p in k.dirs ==> DirKnown(l, p)
  }

  lemma DirsContained(c: Command, line: Line, k: Known)
    requires CommandOk(c) && HoldsDirs(line, k)
    ensures HoldsDirs(Noted(line, SiteFor(c)), Next(k, c))
  {
    hide CommandOk, WordsOf, NotedMove, NotedCalls, CallsFrom, ReachOf, RunsAway, Slashed, CleanPath, Branches, RefsAfter;
    // With nothing moved or lost, what is contained is the folders.
    var still := Known(k.dirs, {}, false, k.refs);
    var l := if c.RunGit? && c.elsewhere then line.(unreadable := true) else line;
    assert Contains(l, still);
    var m := NotedMove(l, WordsOf(c));
    NotedMoveGrows(l, WordsOf(c));
    NotedCallsGrow(m, WordsOf(c), CallsFrom(WordsOf(c), 0));
    if c.Cd? || c.CdPath? {
      FolderContains(c, l, still);
      ContainsGrows(m, Noted(line, SiteFor(c)), Next(still, c));
    } else {
      ContainsGrows(l, m, still);
      ContainsGrows(m, Noted(line, SiteFor(c)), still);
    }
  }

  lemma {:induction false} DirsHeld(refs: Refs, line: seq<Command>)
    requires LineOk(line)
    ensures HoldsDirs(LineAfter(SitesOf(line)), KnownAfter(refs, line))
  {
    hide CommandOk, OneReading, Noted, HoldsDirs, SiteFor, Next;
    if line == [] {
      StartHolds(refs);
    } else {
      var n := |line| - 1;
      SitesTo(line, n);
      DirsHeld(refs, line[..n]);
      assert line[n] in line;
      DirsContained(line[n], LineAfter(SitesOf(line[..n])), KnownAfter(refs, line[..n]));
    }
  }

  lemma StartHolds(refs: Refs)
    ensures HoldsDirs(LineAfter(SitesOf([])), KnownAfter(refs, []))
  {
    StartContains(refs);
  }

  /** HEAD's folders are said, and nothing on the command turns the push elsewhere. */
  predicate HeadPlaced(out: Targets, k: Known, c: Command)
    requires c.RunGit?
  {
    && out.current && !RunsAway(c) && (Redirected(c.globals) ==> ReadsIn(c.globals))
    && forall p :: p in k.dirs ==> DirSaid(out, p + Flat(ChDirs(c.globals)))
  }

  lemma HeadNotedPlaces(out: Targets, c: Command, site: Site, call: Call, line: Line, k: Known)
    requires c.RunGit? && Reading(c, site, call) && HoldsDirs(line, k) && !GivesUp(HeadNoted(out, site, call, line))
    ensures HeadPlaced(HeadNoted(out, site, call, line), k, c)
  {
    hide CallDirs, NonEmpty, PushConfigKey, BeforeFirst, ConfigsOf, ChDirs, Flat, Slashed, CleanPath, Leaves, WordsOf,
      Redirected, ReadsIn, DirKnown;
    var out' := HeadNoted(out, site, call, line);
    if Redirected(c.globals) && !ReadsIn(c.globals) {
      SettingSeen(c.globals);
    }
    forall p | p in k.dirs ensures DirSaid(out', p + Flat(ChDirs(c.globals))) {
      assert DirKnown(line, p);
      FolderSaid(out, site, call, line, p);
    }
  }

  lemma PlacedGrows(a: Targets, b: Targets, k: Known, c: Command)
    requires c.RunGit? && OutGrows(a, b) && HeadPlaced(a, k, c)
    ensures HeadPlaced(b, k, c)
  {
    hide Slashed, Leaves, Redirected, ReadsIn, Flat, ChDirs;
    forall p | p in k.dirs ensures DirSaid(b, p + Flat(ChDirs(c.globals))) {
      assert DirSaid(a, p + Flat(ChDirs(c.globals)));
    }
  }

  /** A refspec that is HEAD for Git is HEAD for the analysis. */
  lemma HeadSpecPlaces(out: Targets, spec: string, deletes: bool, c: Command, site: Site, call: Call, line: Line, k: Known)
    requires c.RunGit? && Reading(c, site, call) && HoldsDirs(line, k) && !GivesUp(SpecNoted(out, spec, site, call, line))
    requires SpecTarget(k.refs, spec, deletes).Updates? && SpecTarget(k.refs, spec, deletes).head
    ensures HeadPlaced(SpecNoted(out, spec, site, call, line), k, c)
  {
    hide HeadNoted, UnreadableRef, HasAny, Reading, HoldsDirs, AfterFirst, AfterLast, Unforced, OtherRef, StripHeads, HeadPlaced, Otherwise,
      BranchesNamed;
    UnforcedColon(spec);
    HeadWord();
    IsHeadForms();
    assert SpecNoted(out, spec, site, call, line) == HeadNoted(out, site, call, line);
    HeadNotedPlaces(out, c, site, call, line, k);
  }

  lemma {:induction false} SpecsPlace(out: Targets, specs: seq<string>, spec: string, deletes: bool, c: Command, site: Site,
        call: Call, line: Line, k: Known)
    requires c.RunGit? && Reading(c, site, call) && HoldsDirs(line, k) && !GivesUp(SpecsNoted(out, specs, site, call, line))
    requires spec in specs && SpecTarget(k.refs, spec, deletes).Updates? && SpecTarget(k.refs, spec, deletes).head
    ensures HeadPlaced(SpecsNoted(out, specs, site, call, line), k, c)
    decreases |specs|
  {
    hide SpecNoted, Reading, HoldsDirs, SpecTarget, HeadPlaced, OutGrows;
    var next := SpecNoted(out, specs[0], site, call, line);
    var all := SpecsNoted(next, specs[1..], site, call, line);
    if spec == specs[0] {
      SpecsNotedGrow(next, specs[1..], site, call, line);
      GivenUpGrows(next, all);
      HeadSpecPlaces(out, spec, deletes, c, site, call, line, k);
      PlacedGrows(next, all, k, c);
    } else {
      assert specs == [specs[0]] + specs[1..];
      SpecsPlace(next, specs[1..], spec, deletes, c, site, call, line, k);
    }
  }

  predicate HeadSpec(refs: Refs, spec: string, deletes: bool) {
    SpecTarget(refs, spec, deletes).Updates? && SpecTarget(refs, spec, deletes).head
  }

  /** The push updates HEAD's branch, named or not. */
  predicate ReachesHead(refs: Refs, c: Command)
    requires IsPush(c)
  {
    || PushesHead(c.git.pushArgs, c.git.tail)
    || exists spec :: spec in SpecsOf(AllOperands(c.git.pushArgs, c.git.tail)) && HeadSpec(refs, spec, Deletes(c.git.pushArgs))
  }

  /** What a push that is answered without giving up asks for, and where. */
  predicate Answered(out: Targets, k: Known, c: Command)
    requires IsPush(c)
  {
    var operands := AllOperands(c.git.pushArgs, c.git.tail);
    || DryRun(c.git.pushArgs)
    || (&& !AsksEvery(c.git.pushArgs) && !(operands != [] && UnreadableRemote(operands[0]))
        && (ReachesHead(k.refs, c) ==> HeadPlaced(out, k, c)))
  }

  lemma PushAnswered(out: Targets, c: Command, site: Site, call: Call, line: Line, k: Known)
    requires IsPush(c) && CommandOk(c) && CallOf(c.git, site.words, call) && Reading(c, site, call) && HoldsDirs(line, k)
    requires !GivesUp(PushNoted(out, site, call, line))
    ensures Answered(PushNoted(out, site, call, line), k, c)
  {
    hide ReadArgs, HeadNoted, SpecsNoted, UnreadableRemote, AllOperands, AllPushWords, TailWords, LastSays,
      IsGitProgram, GlobalOk, PushArgOk, OutGrows, SubOf, WordsOf,
      HeadPlaced, SpecTarget, Reading, HoldsDirs, SomeEvery, AsksEvery, Deletes, SpecsOf;
    var args, tail := c.git.pushArgs, c.git.tail;
    ArgsRead(args, tail, NOTHING_READ);
    var read := ReadArgs(ArgsOf(c.git), NOTHING_READ);
    var operands := AllOperands(args, tail);
    assert [] + operands == operands;
    var out1 := OptionsNoted(out.(unknown := out.unknown || read.unknown), read, site);
    NotUnknown(out, site, call, line, read);
    EveryIsSaid(args);
    SpecsAmong(operands);
    if !read.dryRun && ReachesHead(k.refs, c) {
      if PushesHead(args, tail) {
        HeadNotedPlaces(out1, c, site, call, line, k);
      } else {
        var spec :| spec in SpecsOf(operands) && HeadSpec(k.refs, spec, Deletes(args));
        SpecsPlace(out1, operands[1..], spec, Deletes(args), c, site, call, line, k);
      }
    }
  }

  lemma AnsweredGrows(a: Targets, b: Targets, k: Known, c: Command)
    requires IsPush(c) && OutGrows(a, b) && Answered(a, k, c)
    ensures Answered(b, k, c)
  {
    hide OutGrows, HeadPlaced, DryRun, AsksEvery, UnreadableRemote, AllOperands, ReachesHead;
    if ReachesHead(k.refs, c) && HeadPlaced(a, k, c) {
      PlacedGrows(a, b, k, c);
    }
  }

  lemma OneAnswered(out: Targets, c: Command, line: Line, k: Known)
    requires IsPush(c) && CommandOk(c) && OneReading(c) && HoldsDirs(line, k) && !GivesUp(AnswerAfter(out, c, line))
    ensures Answered(AnswerAfter(out, c, line), k, c)
  {
    hide CallsFrom, WordsOf, PushNoted, CommandOk, OneReading, Answered, Reading, HoldsDirs, CallOf, AnswerAfter;
    GitIsOne(c);
    var call := GitCall(c);
    PushRuns(out, c, call, line);
    SiteIsOf(c);
    PushAnswered(out, c, SiteFor(c), call, line, k);
  }

  lemma {:induction false} LineGrown(line: seq<Command>, k: nat)
    requires k <= |line|
    ensures OutGrows(TargetsOf(SitesOf(line[..k])), TargetsOf(SitesOf(line)))
    decreases |line| - k
  {
    hide TargetsOf, SitesOf, AnswerAfter, LineAfter;
    if k == |line| {
      assert line[..k] == line;
    } else {
      LineGrown(line, k + 1);
      var next := line[..k + 1];
      assert next[..k] == line[..k] && next[k] == line[k];
      AnswerOfMore(next);
      AnswerGrows(TargetsOf(SitesOf(line[..k])), line[k], LineAfter(SitesOf(line[..k])));
    }
  }

  /** Each push of a line whose answer does not give up is answered in the whole. */
  lemma EachAnswered(refs: Refs, line: seq<Command>, k: nat)
    requires LineOk(line) && !GivesUp(TargetsOf(SitesOf(line))) && k < |line| && IsPush(line[k])
    ensures Answered(TargetsOf(SitesOf(line)), KnownAfter(refs, line[..k]), line[k])
  {
    hide TargetsOf, SitesOf, AnswerAfter, LineAfter, OutGrows, KnownAfter, HoldsDirs, Answered, CommandOk, OneReading;
    var before, c, next := line[..k], line[k], line[..k + 1];
    assert next[..k] == before && next[k] == c;
    assert forall x :: x in before ==> x in line;
    assert c in line;
    AnswerOfMore(next);
    LineGrown(line, k + 1);
    GivenUpGrows(TargetsOf(SitesOf(next)), TargetsOf(SitesOf(line)));
    DirsHeld(refs, before);
    OneAnswered(TargetsOf(SitesOf(before)), c, LineAfter(SitesOf(before)), KnownAfter(refs, before));
    AnsweredGrows(TargetsOf(SitesOf(next)), TargetsOf(SitesOf(line)), KnownAfter(refs, before), c);
  }

  // ----- exactly when a line is covered -----

  lemma HeadSaidIsNamed(refs: Refs, line: seq<Command>, k: nat, out: Targets)
    requires LineOk(line) && k < |line| && line[k].RunGit? && out.branches == Names(line)
    requires HeadPlaced(out, KnownAfter(refs, line[..k]), line[k])
    ensures HeadSaid(out, KnownAfter(refs, line[..k]), line[k]) <==> HeadNamed(refs, line, k)
  {
    hide KnownAfter, Names, LineOk, DirSaid, Flat, ChDirs, Leaves, IncludeKey, PushConfigKey, BeforeFirst;
  }

  lemma SpecSaidIsNamed(refs: Refs, line: seq<Command>, k: nat, out: Targets, spec: string)
    requires LineOk(line) && k < |line| && IsPush(line[k]) && out.branches == Names(line)
    requires HeadSpec(AllRefs(refs, line[..k]), spec, Deletes(line[k].git.pushArgs)) ==> HeadPlaced(out, KnownAfter(refs, line[..k]), line[k])
    ensures SpecSaid(out, KnownAfter(refs, line[..k]), line[k], spec) <==> SpecNamed(refs, line, k, spec)
  {
    hide KnownAfter, Names, LineOk, HeadPlaced, HeadSaid, HeadNamed, SpecTarget, Redirected, Deletes, AllRefs;
    RefsKnown(refs, line[..k]);
    if HeadSpec(AllRefs(refs, line[..k]), spec, Deletes(line[k].git.pushArgs)) {
      HeadSaidIsNamed(refs, line, k, out);
    }
  }

  lemma SaidIsNamed(refs: Refs, line: seq<Command>, k: nat, out: Targets)
    requires LineOk(line) && k < |line| && IsPush(line[k]) && out.branches == Names(line)
    requires Answered(out, KnownAfter(refs, line[..k]), line[k])
    ensures PushSaid(out, KnownAfter(refs, line[..k]), line[k]) <==> PushNamed(refs, line, k)
  {
    hide KnownAfter, Names, LineOk, HeadPlaced, HeadSaid, HeadNamed, SpecSaid, SpecNamed, SpecTarget, HeadSpec, DryRun, AsksEvery, Asks,
      UnreadableRemote, AllOperands, PushesHead, SpecsOf, Deletes, AllRefs;
    var c := line[k];
    var args, tail := c.git.pushArgs, c.git.tail;
    RefsKnown(refs, line[..k]);
    if !DryRun(args) {
      if PushesHead(args, tail) {
        HeadSaidIsNamed(refs, line, k, out);
      }
      forall spec | spec in SpecsOf(AllOperands(args, tail))
        ensures SpecSaid(out, KnownAfter(refs, line[..k]), c, spec) <==> SpecNamed(refs, line, k, spec)
      {
        SpecSaidIsNamed(refs, line, k, out, spec);
      }
    }
  }

  /**
   * For every line, each of whose commands is read as one, and whatever refs are symbolic when it starts: its
   * answer covers every push of every run, in every layout of worktrees, if and only if its words make the answer
   * give up, or name every branch a push may update, with no HEAD on a branch that cannot be told and no file of
   * settings read in.
   */
  lemma LineSoundExactly(refs: Refs, line: seq<Command>)
    requires LineOk(line)
    ensures AllCovered(refs, line, TargetsOf(SitesOf(line))) <==> LineGivenUp(line) || AllNamed(refs, line)
  {
    hide AllCovered, TargetsOf, SitesOf, PushSaid, PushNamed, KnownAfter, LineOk, Answered, Names, GivesUp, LineGivenUp;
    var out := TargetsOf(SitesOf(line));
    CoveredExactly(refs, line, out);
    GivesUpExactly(line);
    if !GivesUp(out) {
      NamesAre(line);
      forall k | 0 <= k < |line| && IsPush(line[k])
        ensures PushSaid(out, KnownAfter(refs, line[..k]), line[k]) <==> PushNamed(refs, line, k)
      {
        EachAnswered(refs, line, k);
        SaidIsNamed(refs, line, k, out);
      }
    }
  }

  // ----- a push of HEAD alone -----

  lemma HeadAnswered(p: Command)
    requires HeadPush(p)
    ensures GivesUp(TargetsOf(SitesOf([p]))) <==> PushGivenUp(false, p)
  {
    hide TargetsOf, SitesOf, CallsFrom, CallsRead, WordsOf, PushNoted, CommandOk, NamesGit, CallOf, Reading, DryRun,
      Deletes, AllOperands, PushGivenUp;
    OneSiteOf(p);
    OneSite(SiteFor(p));
    SiteIsOf(p);
    HeadPushIs(p);
    var call := GitCall(p);
    PushRuns(NO_TARGETS, p, call, NEW_LINE);
    assert AnswerAfter(NO_TARGETS, p, NEW_LINE) == CallsRead(NO_TARGETS, SiteFor(p), CallsFrom(WordsOf(p), 0), NEW_LINE);
    PushGivesUp(NO_TARGETS, p, SiteFor(p), call, NEW_LINE);
  }

  /** For every push of HEAD: its answer covers it if and only if its words make it give up, or no file of settings is read in. */
  lemma SettingsExactly(refs: Refs, p: Command)
    requires HeadPush(p)
    ensures AllCovered(refs, [p], TargetsOf(SitesOf([p]))) <==> PushGivenUp(false, p) || !ReadsIn(p.globals)
  {
    hide CommandOk, HeadPush, AllCovered, SaysAll, TargetsOf, PushSaid, LineOf, SitesOf, KnownAfter, HeadSaid, ReadsIn,
      GivesUp, PushGivenUp, Followed;
    var out := TargetsOf(SitesOf([p]));
    HeadPushIs(p);
    HeadAnswered(p);
    OneSiteOf(p);
    CoveredExactly(refs, [p], out);
    OnlyPush(refs, p, out);
    if !GivesUp(out) {
      if ReadsIn(p.globals) {
        SettingUnsaid(out, Start(refs), p);
        if PushSaid(out, Start(refs), p) {
          HeadPushSaid(out, Start(refs), p);
        }
      } else {
        OneFollowed(refs, p);
        EveryPushCovered(refs, [p], SitesOf([p]));
      }
    }
  }

  lemma OneFollowed(refs: Refs, p: Command)
    requires HeadPush(p) && !ReadsIn(p.globals)
    ensures AllFollowed(refs, [p])
  {
    hide HeadPush, ReadsIn, Followed;
    assert [p][..0] == [];
    HeadPushFollowed(refs, p);
    assert AllRefs(refs, []) == refs;
  }

  const HIDDEN := EnvConfig("remote.a=b.push", "X", true)
  const HIDDEN_PUSH := RunGit("git", [HIDDEN], Push([], None), false)

  /** `git --config-env=remote.a=b.push=X push`: Git takes the variable's name from after the last `=`. */
  lemma HiddenKeyMissed(refs: Refs)
    ensures !AllCovered(refs, [HIDDEN_PUSH], TargetsOf(SitesOf([HIDDEN_PUSH])))
  {
    hide AllCovered, TargetsOf, SitesOf, HeadPush, ReadsIn, PushGivenUp, HIDDEN_PUSH;
    HiddenIsPush();
    HiddenNotSeen();
    SettingsExactly(refs, HIDDEN_PUSH);
  }

  lemma HiddenIsPush()
    ensures HeadPush(HIDDEN_PUSH)
  {
    hide IsGitProgram, PushConfigKey, IncludeKey, PUSH_OPTIONS, Written;
    WordsHere("", "");
    HiddenIsWritten();
    assert ArgsOf(HIDDEN_PUSH.git) == [] && AllOperands([], None) == [];
  }

  lemma HiddenIsWritten()
    ensures Written("remote.a=b.push") && Written("X") && '=' !in "X"
  {
  }

  lemma HiddenNotSeen()
    ensures ReadsIn(HIDDEN_PUSH.globals) && !PushGivenUp(false, HIDDEN_PUSH)
  {
    hide PushConfigKey, IncludeKey, ShownKey;
    KeyIsHidden();
    assert AllOperands([], None) == [] && !SomeEvery([]);
    assert HIDDEN in HIDDEN_PUSH.globals && forall x :: x in HIDDEN_PUSH.globals ==> x == HIDDEN;
    assert !Leaves(HIDDEN_PUSH.globals) && !PushSetting(HIDDEN_PUSH.globals);
  }

  lemma KeyIsHidden()
    ensures Redirects(HIDDEN) && !PushConfigKey(ShownKey(HIDDEN))
  {
    hide PushConfigKey, IncludeKey, BeforeFirst, AfterFirst;
    assert HIDDEN.key + "=" + HIDDEN.env == "remote.a" + ['='] + "b.push=X";
    CutAt("remote.a", '=', "b.push=X");
    KeySets();
    ShortKeySetsNothing();
  }

  lemma KeySets()
    ensures PushConfigKey("remote.a=b.push")
  {
    var key := "remote.a=b.push";
    var k := Lower(key);
    assert |key| == 15 && key[10..] == ".push";
    assert k[10..] == ".push" && "remote." <= k;
  }

  lemma ShortKeySetsNothing()
    ensures !PushConfigKey("remote.a")
  {
    assert Lower("remote.a")[0] == 'r' && |"remote.a"| == 8 && |"push.default"| == 12;
    assert "branch."[0] == 'b';
  }
}
