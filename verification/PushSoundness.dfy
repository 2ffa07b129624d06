/**
 * The analysis keeps up with every line whose commands are spelled in ways it reads right: its answer
 * covers every push of every run.
 */
module PushSoundness {
  import opened Common
  import opened PushText
  import opened PushAnalysis
  import opened PushSemantics
  import opened PushReach
  import opened PushReading
  import opened PushMoves

  // ----- spellings read right -----

  predicate GivesUpSpec(plain: string, first: string) {
    first != "" && ('*' in first || UnreadableRef(first) || first == "-" || HasAny(plain, "!$`"))
  }

  /** A shell or a pattern may make it any branch. */
  predicate AnyDestination(plain: string, last: string) {
    '*' in last || UnreadableRef(last) || last == "-" || HasAny(plain, "!$`")
  }

  predicate NoBranch(last: string) {
    "refs/" <= last && !("refs/heads/" <= last)
  }

  /**
   * No branch but the one the analysis names: in full, or with nothing in front that either takes for part of the
   * path; or none at all.
   */
  predicate NamedAlike(first: string) {
    || "refs/heads/" <= first
    || (!IsHead(first) && !OtherRef(first) && (NoBranch(first) || (StripHeads(first) == first && !("heads/" < first))))
  }

  function FirstDestination(plain: string): string {
    if ':' in plain then AfterFirst(plain, ':') else plain
  }

  /** A refspec that is its own destination: what Git deletes, or a source that names no other. */
  predicate OwnSource(spec: string, deletes: bool) {
    ':' !in Unforced(spec) && !deletes
  }

  /**
   * The refspec is given up on; or Git updates no branch, or HEAD's, or both split it at one place and name one
   * branch, and it stands for no other with these refs.
   */
  predicate SpecRight(refs: Refs, spec: string, deletes: bool) {
    var plain := Unforced(spec);
    var given := if deletes then spec else plain;
    var first, last := FirstDestination(plain), Destination(given);
    var others := Otherwise(refs, last, OwnSource(spec, deletes));
    || plain == ":" || GivesUpSpec(plain, first)
    || (&& !AnyDestination(given, last)
        && (|| last == "" || (NoBranch(last) && others == {}) || (!deletes && (plain == "HEAD" || plain == "@"))
            || (first == last && NamedAlike(first) && others <= {StripHeads(first)})))
  }

  /** A setting that is not seen for what it is: one that reads a file of settings in, or hides its key behind an `=`. */
  predicate ReadsIn(gs: seq<Global>) {
    exists g :: g in gs && Redirects(g) && !PushConfigKey(ShownKey(g))
  }

  predicate IsHeadWord(spec: string) {
    Unforced(spec) == "HEAD" || Unforced(spec) == "@"
  }

  /** With a push setting, a refspec needs a destination of its own, or to be HEAD. */
  predicate Settled(gs: seq<Global>, spec: string, deletes: bool) {
    Redirected(gs) && OwnSource(spec, deletes) ==> IsHeadWord(spec)
  }

  /** No file of settings is read in, and each refspec is read right. */
  predicate PushRight(refs: Refs, gs: seq<Global>, args: seq<PushArg>, tail: Option<seq<string>>) {
    && !ReadsIn(gs)
    && forall spec :: spec in SpecsOf(AllOperands(args, tail)) ==> SpecRight(refs, spec, Deletes(args)) && Settled(gs, spec, Deletes(args))
  }

  predicate NamesGit(git: Git) {
    exists w :: w in ArgsOf(git) && IsGitProgram(w)
  }

  /** A command the analysis keeps up with, with these refs. */
  predicate Followed(refs: Refs, c: Command) {
    c.RunGit? ==>
      && !NamesGit(c.git) && (RunsAway(c) || ReadRight(refs, c.git))
      && (c.git.Push? ==> PushRight(refs, c.globals, c.git.pushArgs, c.git.tail))
  }

  predicate AllFollowed(refs: Refs, line: seq<Command>) {
    forall k :: 0 <= k < |line| ==> Followed(AllRefs(refs, line[..k]), line[k])
  }

  /** The words of a command, with what surrounds it; one run elsewhere is marked so. */
  predicate SiteOf(c: Command, site: Site) {
    site.words == WordsOf(c) && (c.RunGit? && c.elsewhere ==> site.elsewhere)
  }

  // ----- the line state -----

  predicate LineGrows(a: Line, b: Line) {
    && (a.unreadable ==> b.unreadable)
    && (forall x :: x in a.switched ==> x in b.switched)
    && (forall x :: x in a.dirs ==> x in b.dirs)
  }

  predicate DirKnown(l: Line, p: seq<string>) {
    CleanPath(p) && Slashed(p) in l.dirs
  }

  /** The state holds all that is known, or has given up. */
  predicate Contains(l: Line, k: Known) {
    || l.unreadable
    || (!k.lost && (forall b :: b in k.moved ==> b in l.switched) && forall p :: p in k.dirs ==> DirKnown(l, p))
  }

  lemma ContainsGrows(a: Line, b: Line, k: Known)
    requires Contains(a, k) && LineGrows(a, b)
    ensures Contains(b, k)
  {
    hide Slashed, CleanPath;
    if !b.unreadable {
      forall p | p in k.dirs ensures DirKnown(b, p) {
        assert DirKnown(a, p);
      }
    }
  }

  lemma {:induction false} DirsMovedGrow(dirs: seq<string>, from: seq<string>, to: string)
    ensures var r := DirsMoved(dirs, from, to);
            && (forall x :: x in dirs ==> x in r)
            && (|r| <= MAX_DIRS ==> forall d :: d in from ==> JoinDir(d, [to]) in r)
    decreases |from|
  {
    hide JoinDir;
    if from != [] && |dirs| <= MAX_DIRS {
      DirsMovedGrow(AddNew(dirs, JoinDir(from[0], [to])), from[1..], to);
      assert from == [from[0]] + from[1..];
    }
  }

  lemma NotedMoveGrows(line: Line, words: seq<string>)
    ensures LineGrows(line, NotedMove(line, words))
  {
    hide DirectoryChange, DirsMoved;
    match DirectoryChange(words)
    case NoMove =>
    case Leave =>
    case MoveTo(to) => DirsMovedGrow(line.dirs, line.dirs, to);
  }

  lemma NotedCallGrows(line: Line, words: seq<string>, call: Call)
    requires CallOk(words, call)
    ensures LineGrows(line, NotedCall(line, words, call))
  {
    hide SwitchesTo, StripHeads, UnreadableRef, NonOptions, Renames, SetsUpstream, Lower;
  }

  lemma {:induction false} NotedCallsGrow(line: Line, words: seq<string>, calls: seq<Call>)
    requires forall c :: c in calls ==> CallOk(words, c)
    ensures LineGrows(line, NotedCalls(line, words, calls))
    decreases |calls|
  {
    hide NotedCall, CallOk;
    if calls != [] {
      NotedCallGrows(line, words, calls[0]);
      NotedCallsGrow(NotedCall(line, words, calls[0]), words, calls[1..]);
    }
  }

  // ----- moving folders -----

  lemma NotAFlag(to: string)
    ensures PathFlag(to) ==> !Operand(to)
  {
    if PathFlag(to) {
      assert Lower(to)[0] == '-' && LowerChar(to[0]) == '-';
      assert to[0] == '-' && |to| > 1;
    }
  }

  lemma {:induction false} OptionsSkipped(options: seq<string>, end: seq<string>)
    requires forall o :: o in options ==> !Operand(o) && !PathFlag(o)
    ensures FirstOperand(options + end) == FirstOperand(end) && FlaggedPath(options + end) == FlaggedPath(end)
  {
    hide Operand, PathFlag;
    if options == [] {
      assert options + end == end;
    } else {
      OptionsSkipped(options[1..], end);
      assert (options + end)[0] == options[0] && (options + end)[1..] == options[1..] + end;
    }
  }

  lemma CdReads(c: Command)
    requires c.Cd? && CommandOk(c)
    ensures DirectoryChange(WordsOf(c)) == if Descends(c) then MoveTo(c.folder.value) else Leave
  {
    hide ChangesDirectory, InsideWorkingFolder, UnreadablePath, Operand, PathFlag;
    var end := WordOf(c.folder);
    OptionsSkipped(c.options, end);
    assert WordsOf(c)[1..] == c.options + end;
    if c.folder.Some? {
      NotAFlag(c.folder.value);
    }
  }

  lemma CdPathReads(c: Command)
    requires c.CdPath? && CommandOk(c)
    ensures DirectoryChange(WordsOf(c)) == if Descends(c) then MoveTo(c.path) else Leave
  {
    hide ChangesDirectory, InsideWorkingFolder, UnreadablePath, PathFlag;
    assert WordsOf(c)[1..] == [c.flag, c.path];
  }

  lemma FolderContains(c: Command, line: Line, k: Known)
    requires (c.Cd? || c.CdPath?) && CommandOk(c) && Contains(line, k)
    ensures Contains(NotedMove(line, WordsOf(c)), Next(k, c))
  {
    hide Slashed, Parts, JoinDir, DirectoryChange, Followable, DirsMoved, CleanPath, CommandOk, WordsOf;
    if c.Cd? {
      CdReads(c);
    } else {
      CdPathReads(c);
    }
    var l := NotedMove(line, WordsOf(c));
    if Descends(c) && !l.unreadable {
      var to := FolderOf(c).value;
      DirsMovedGrow(line.dirs, line.dirs, to);
      forall q | q in Next(k, c).dirs ensures DirKnown(l, q) {
        if q in k.dirs {
          assert DirKnown(line, q);
        } else {
          var p :| p in k.dirs && q == p + Parts(to);
          assert DirKnown(line, p);
          OneFolder(p, to);
        }
      }
    }
  }

  lemma OneFolder(p: seq<string>, to: string)
    requires CleanPath(p)
    ensures CleanPath(p + Parts(to)) && JoinDir(Slashed(p), [to]) == Slashed(p + Parts(to))
  {
    hide JoinDir, Slashed, Parts, CleanPath;
    JoinDirWalks(p, [to]);
    assert [to][1..] == [] && Flat([]) == [];
    assert Flat([to]) == Parts(to) + Flat([]);
    assert Parts(to) + [] == Parts(to);
  }

  // ----- moving heads -----

  lemma NotedOne(line: Line, words: seq<string>, call: Call)
    requires CallOk(words, call)
    ensures NotedCalls(line, words, [call]) == NotedCall(line, words, call)
  {
    hide NotedCall;
  }

  lemma ElsewhereNoted(line: Line, words: seq<string>, call: Call)
    requires CallOk(words, call)
    ensures call.elsewhere ==> NotedCall(line, words, call).unreadable
  {
    hide SwitchesTo, StripHeads, UnreadableRef, NonOptions, Renames, SetsUpstream, Lower;
  }

  lemma MoveContains(c: Command, call: Call, line: Line, k: Known)
    requires c.RunGit? && GitOk(c.git) && ReadRight(k.refs, c.git) && !RunsAway(c)
    requires CallOf(c.git, WordsOf(c), call) && Contains(line, k)
    ensures Contains(NotedCall(line, WordsOf(c), call), Next(k, c))
  {
    hide ReachOf, GitOk, ReadRight, SeenOf, CallOf, NotedCall, WordsOf, RunsAway, DirKnown, Branches, RefsAfter;
    NotedGrowsFor(c, call, line);
    ContainsGrows(line, NotedCall(line, WordsOf(c), call), k);
    if ReachOf(c.git) != Nowhere {
      MoveIsNoted(c.git, WordsOf(c), call, line);
      RightIsRead(k.refs, c.git);
    }
  }

  lemma NotedGrowsFor(c: Command, call: Call, line: Line)
    requires c.RunGit? && CallOf(c.git, WordsOf(c), call)
    ensures CallOk(WordsOf(c), call) && LineGrows(line, NotedCall(line, WordsOf(c), call))
  {
    hide NotedCall, WordsOf;
    NotedCallGrows(line, WordsOf(c), call);
  }

  lemma GitContains(c: Command, line: Line, k: Known)
    requires c.RunGit? && CommandOk(c) && Followed(k.refs, c) && Contains(line, k) && (c.elsewhere ==> line.unreadable)
    ensures Contains(NotedCalls(line, WordsOf(c), CallsFrom(WordsOf(c), 0)), Next(k, c))
  {
    hide IsGitProgram, GlobalOk, GitOk, NotedCall, CallsFrom, WordsOf, ArgsOf, PushRight, ReadRight, Leaves, Contains, Next, LineGrows;
    var words := WordsOf(c);
    var call := OneCall(c);
    NotedOne(line, words, call);
    NotedCallGrows(line, words, call);
    if RunsAway(c) {
      ElsewhereNoted(line, words, call);
      UnreadableContains(line, NotedCall(line, words, call), Next(k, c));
    } else {
      MoveContains(c, call, line, k);
    }
  }

  lemma UnreadableContains(a: Line, b: Line, k: Known)
    requires LineGrows(a, b) && (a.unreadable || b.unreadable)
    ensures Contains(b, k)
  {
  }

  /** Noting a command keeps up with all that its runs may change. */
  lemma NotedContains(c: Command, site: Site, line: Line, k: Known)
    requires CommandOk(c) && Followed(k.refs, c) && SiteOf(c, site) && Contains(line, k)
    ensures Contains(Noted(line, site), Next(k, c))
  {
    hide CommandOk, Followed, NotedMove, NotedCalls, Contains, CallsFrom, LineGrows, Next;
    var l := if site.elsewhere || site.touches then line.(unreadable := true) else line;
    MarkedGrows(line, l);
    ContainsGrows(line, l, k);
    var m := NotedMove(l, site.words);
    NotedMoveGrows(l, site.words);
    NotedCallsGrow(m, site.words, CallsFrom(site.words, 0));
    ContainsGrows(l, m, k);
    if c.RunGit? {
      UnreadableStays(l, m);
      GitContains(c, m, k);
    } else if c.OtherProgram? {
      ContainsGrows(m, Noted(line, site), k);
      NothingNext(k, c);
    } else {
      FolderContains(c, l, k);
      ContainsGrows(m, Noted(line, site), Next(k, c));
    }
  }

  lemma NothingNext(k: Known, c: Command)
    requires c.OtherProgram?
    ensures Next(k, c) == k.(refs := k.refs)
  {
  }

  lemma MarkedGrows(a: Line, b: Line)
    requires b == a || b == a.(unreadable := true)
    ensures LineGrows(a, b)
  {
  }

  lemma UnreadableStays(a: Line, b: Line)
    requires LineGrows(a, b)
    ensures a.unreadable ==> b.unreadable
  {
  }

  lemma {:induction false} LineContains(refs: Refs, line: seq<Command>, sites: seq<Site>, k: nat)
    requires LineOf(line, sites) && k <= |line| && AllFollowed(refs, line)
    ensures Contains(LineAfter(sites[..k]), KnownAfter(refs, line[..k]))
  {
    hide CommandOk, Followed, Noted, Contains, SiteOf, Next;
    if k == 0 {
      StartContains(refs);
    } else {
      LineContains(refs, line, sites, k - 1);
      assert sites[..k][..k - 1] == sites[..k - 1] && line[..k][..k - 1] == line[..k - 1];
      RefsKnown(refs, line[..k - 1]);
      NotedContains(line[k - 1], sites[k - 1], LineAfter(sites[..k - 1]), KnownAfter(refs, line[..k - 1]));
    }
  }

  lemma StartContains(refs: Refs)
    ensures Contains(LineAfter([]), KnownAfter(refs, []))
  {
    assert Slashed([]) == "";
  }

  // ----- the answer -----

  predicate OutGrows(a: Targets, b: Targets) {
    && (a.every ==> b.every) && (a.unknown ==> b.unknown) && (a.current ==> b.current)
    && (forall x :: x in a.branches ==> x in b.branches)
    && (forall x :: x in a.dirs ==> x in b.dirs)
  }

  lemma HeadNotedGrows(out: Targets, site: Site, call: Call, line: Line)
    ensures OutGrows(out, HeadNoted(out, site, call, line))
  {
    hide CallDirs, NonEmpty, PushConfigKey, BeforeFirst;
  }

  lemma SpecNotedGrows(out: Targets, spec: string, site: Site, call: Call, line: Line)
    ensures OutGrows(out, SpecNoted(out, spec, site, call, line))
  {
    hide HeadNoted, AfterFirst, UnreadableRef, HasAny, IsHead, OtherRef, StripHeads, Unforced;
    HeadNotedGrows(out, site, call, line);
  }

  lemma {:induction false} SpecsNotedGrow(out: Targets, specs: seq<string>, site: Site, call: Call, line: Line)
    ensures OutGrows(out, SpecsNoted(out, specs, site, call, line))
    decreases |specs|
  {
    hide SpecNoted;
    if specs != [] {
      SpecNotedGrows(out, specs[0], site, call, line);
      SpecsNotedGrow(SpecNoted(out, specs[0], site, call, line), specs[1..], site, call, line);
    }
  }

  lemma PushNotedGrows(out: Targets, site: Site, call: Call, line: Line)
    requires CallOk(site.words, call) && call.sub.Some?
    ensures OutGrows(out, PushNoted(out, site, call, line))
  {
    hide ReadArgs, HeadNoted, SpecsNoted, UnreadableRemote;
    var read := ReadArgs(site.words[call.sub.value + 1..call.end], NOTHING_READ);
    var out1 := OptionsNoted(out.(unknown := out.unknown || read.unknown), read, site);
    HeadNotedGrows(out1, site, call, line);
    if |read.operands| > 1 { SpecsNotedGrow(out1, read.operands[1..], site, call, line); }
  }

  lemma {:induction false} CallsReadGrow(out: Targets, site: Site, calls: seq<Call>, line: Line)
    requires forall c :: c in calls ==> CallOk(site.words, c)
    ensures OutGrows(out, CallsRead(out, site, calls, line))
    decreases |calls|
  {
    hide PushNoted, CallOk, Lower;
    if calls != [] {
      var call := calls[0];
      assert CallOk(site.words, call);
      CallReadGrows(out, site, call, line);
      CallsReadGrow(CallRead(out, site, call, line), site, calls[1..], line);
    }
  }

  lemma CallReadGrows(out: Targets, site: Site, call: Call, line: Line)
    requires CallOk(site.words, call)
    ensures OutGrows(out, CallRead(out, site, call, line))
  {
    hide PushNoted, Lower;
    if call.sub.Some? {
      PushNotedGrows(if call.at > 0 then out.(unknown := true) else out, site, call, line);
    }
  }

  // ----- what is said stays said -----

  lemma GivenUpGrows(a: Targets, b: Targets)
    requires OutGrows(a, b)
    ensures GivesUp(a) ==> GivesUp(b)
  {
  }

  lemma HeadSaidGrows(a: Targets, b: Targets, k: Known, c: Command)
    requires c.RunGit? && OutGrows(a, b) && HeadSaid(a, k, c)
    ensures HeadSaid(b, k, c)
  {
    hide Slashed, Leaves, Redirected, Flat, ChDirs;
    forall p | p in k.dirs ensures DirSaid(b, p + Flat(ChDirs(c.globals))) {
      assert DirSaid(a, p + Flat(ChDirs(c.globals)));
    }
  }

  lemma SpecSaidGrows(a: Targets, b: Targets, k: Known, c: Command, spec: string)
    requires IsPush(c) && OutGrows(a, b) && SpecSaid(a, k, c, spec)
    ensures SpecSaid(b, k, c, spec)
  {
    hide HeadSaid, SpecTarget, Redirected;
    if SpecTarget(k.refs, spec, Deletes(c.git.pushArgs)).head {
      HeadSaidGrows(a, b, k, c);
    }
  }

  lemma PushSaidGrows(a: Targets, b: Targets, k: Known, c: Command)
    requires IsPush(c) && OutGrows(a, b) && PushSaid(a, k, c)
    ensures PushSaid(b, k, c)
  {
    hide HeadSaid, SpecSaid, DryRun, AsksEvery, UnreadableRemote, AllOperands, Asks, OutGrows;
    var operands := AllOperands(c.git.pushArgs, c.git.tail);
    if !DryRun(c.git.pushArgs) {
      if PushesHead(c.git.pushArgs, c.git.tail) {
        HeadSaidGrows(a, b, k, c);
      }
      forall spec | spec in SpecsOf(operands) ensures SpecSaid(b, k, c, spec) {
        SpecSaidGrows(a, b, k, c, spec);
      }
    }
  }

  // ----- a push of HEAD -----

  lemma {:induction false} CallDirsHold(dirs: seq<string>, chdir: seq<string>, d: string)
    requires d in dirs
    ensures JoinDir(d, chdir) in CallDirs(dirs, chdir)
  {
    hide JoinDir;
    var n := |dirs| - 1;
    assert dirs == dirs[..n] + [dirs[n]];
    if d != dirs[n] {
      CallDirsHold(dirs[..n], chdir, d);
    }
  }

  lemma {:induction false} NonEmptyHolds(xs: seq<string>, x: string)
    requires x in xs && x != ""
    ensures x in NonEmpty(xs)
  {
    assert xs == [xs[0]] + xs[1..];
    if x != xs[0] {
      NonEmptyHolds(xs[1..], x);
    }
  }

  lemma {:induction false} ConfigRead(gs: seq<Global>, g: Global)
    requires g in gs && Sets(g)
    ensures SettingOf(g) in ConfigsOf(gs)
  {
    assert gs == [gs[0]] + gs[1..];
    if g != gs[0] {
      ConfigRead(gs[1..], g);
    }
  }

  /** What the analysis found of a Git command. */
  predicate Reading(c: Command, site: Site, call: Call) {
    && c.RunGit? && SiteOf(c, site)
    && call.configs == ConfigsOf(c.globals)
    && (call.elsewhere <==> Leaves(c.globals))
    && (!call.elsewhere ==> call.chdir == ChDirs(c.globals))
  }

  lemma SettingSeen(gs: seq<Global>)
    requires Redirected(gs) && !ReadsIn(gs)
    ensures exists kv :: kv in ConfigsOf(gs) && PushConfigKey(BeforeFirst(kv, '='))
  {
    hide PushConfigKey, BeforeFirst, ConfigsOf, IncludeKey;
    var g :| g in gs && Redirects(g);
    ConfigRead(gs, g);
    SettingKey(g);
  }

  lemma HeadNotedSays(out: Targets, c: Command, site: Site, call: Call, line: Line, k: Known)
    requires c.RunGit? && Reading(c, site, call) && Contains(line, k) && !ReadsIn(c.globals)
    ensures var out' := HeadNoted(out, site, call, line); GivesUp(out') || HeadSaid(out', k, c)
  {
    hide CallDirs, NonEmpty, PushConfigKey, BeforeFirst, ConfigsOf, ChDirs, Flat, Slashed, CleanPath, Leaves, WordsOf, Redirected, ReadsIn;
    var out' := HeadNoted(out, site, call, line);
    if !out'.unknown {
      if Redirected(c.globals) {
        SettingSeen(c.globals);
      }
      forall p | p in k.dirs ensures DirSaid(out', p + Flat(ChDirs(c.globals))) {
        assert DirKnown(line, p);
        FolderSaid(out, site, call, line, p);
      }
    }
  }

  lemma FolderSaid(out: Targets, site: Site, call: Call, line: Line, p: seq<string>)
    requires DirKnown(line, p) && !HeadNoted(out, site, call, line).unknown
    ensures DirSaid(HeadNoted(out, site, call, line), p + Flat(call.chdir))
  {
    hide NonEmpty, CallDirs, JoinDir, Slashed, Flat, PushConfigKey, BeforeFirst, CleanPath;
    var path := p + Flat(call.chdir);
    JoinDirWalks(p, call.chdir);
    SlashedEmpty(path);
    if path != [] {
      CallDirsHold(line.dirs, call.chdir, Slashed(p));
      NonEmptyHolds(CallDirs(line.dirs, call.chdir), Slashed(path));
    }
  }

  // ----- a push of refspecs -----

  lemma HeadsPrefix(d: string)
    ensures "refs/heads/" <= d ==> StripHeads(d) == d[11..] && !OtherRef(d) && !IsHead(d)
    ensures "refs/" <= d && !("refs/heads/" <= d) && StripHeads(d) == d ==> OtherRef(d)
    ensures "HEAD" <= d && |d| == 4 ==> IsHead(d)
  {
    LowerHeads();
    assert Lower("refs/") == "refs/" && Lower("HEAD") == "head";
    if "refs/heads/" <= d {
      assert d[..11] == "refs/heads/" && |d| != 4;
    } else if "refs/" <= d {
      assert d[..5] == "refs/";
    }
    if "HEAD" <= d && |d| == 4 {
      assert d == "HEAD";
    }
  }

  /** A refspec both name alike is named. */
  lemma AlikeNamed(out: Targets, refs: Refs, spec: string, deletes: bool, site: Site, call: Call, line: Line)
    requires var plain := Unforced(spec);
             var given := if deletes then spec else plain;
             && !AnyDestination(given, Destination(given)) && !GivesUpSpec(plain, FirstDestination(plain)) && plain != ":"
             && FirstDestination(plain) == Destination(given) && NamedAlike(Destination(given)) && Destination(given) != ""
             && Otherwise(refs, Destination(given), OwnSource(spec, deletes)) <= {StripHeads(Destination(given))}
    ensures var d := Destination(if deletes then spec else Unforced(spec));
            && SpecTarget(refs, spec, deletes).Updates? && SpecTarget(refs, spec, deletes).branches <= {StripHeads(d)}
            && !SpecTarget(refs, spec, deletes).head && StripHeads(d) in SpecNoted(out, spec, site, call, line).branches
  {
    hide UnreadableRef, HasAny, AfterFirst, AfterLast, HeadNoted, Otherwise, Unforced;
    var plain := Unforced(spec);
    var given := if deletes then spec else plain;
    var d := Destination(given);
    HeadsPrefix(d);
    HeadWords(d);
    UnforcedColon(spec);
    ColonUnforced(spec);
  }

  /** A forcing `+` holds no colon. */
  lemma UnforcedColon(spec: string)
    ensures ':' in spec <==> ':' in Unforced(spec)
  {
    if "+" <= spec {
      assert spec == [spec[0]] + spec[1..] && spec[0] == '+';
    }
  }

  lemma HeadWords(d: string)
    ensures d == "HEAD" || d == "@" ==> IsHead(d)
  {
    assert Lower("HEAD") == "head";
  }

  /** A refspec that updates no branch for Git adds nothing that has to be said. */
  lemma NoBranchUpdated(refs: Refs, spec: string, deletes: bool)
    requires var plain := Unforced(spec);
             var given := if deletes then spec else plain;
             var last := Destination(given);
             && plain != ":" && !AnyDestination(given, last)
             && (last == "" || (NoBranch(last) && Otherwise(refs, last, OwnSource(spec, deletes)) == {}))
    ensures SpecTarget(refs, spec, deletes) == Updates({}, false)
  {
    hide UnreadableRef, HasAny, AfterLast, Otherwise, Unforced;
    var given := if deletes then spec else Unforced(spec);
    var last := Destination(given);
    UnforcedColon(spec);
    if last != "" {
      NoHeadInRefs(last);
    }
    if deletes && given == ":" {
      ColonUnforced(spec);
    }
  }

  lemma ColonUnforced(spec: string)
    ensures spec == ":" ==> Unforced(spec) == ":"
  {
    PrefixAgrees("+", spec, 0);
  }

  lemma NoHeadInRefs(last: string)
    requires "refs/" <= last
    ensures !IsHead(last) && last != "HEAD" && last != "@"
  {
    assert |last| >= 5;
  }

  lemma SpecNotedSays(out: Targets, spec: string, c: Command, site: Site, call: Call, line: Line, k: Known)
    requires IsPush(c) && Reading(c, site, call) && Contains(line, k) && !ReadsIn(c.globals)
    requires SpecRight(k.refs, spec, Deletes(c.git.pushArgs)) && Settled(c.globals, spec, Deletes(c.git.pushArgs))
    ensures var out' := SpecNoted(out, spec, site, call, line); GivesUp(out') || SpecSaid(out', k, c, spec)
  {
    hide HeadNoted, UnreadableRef, HasAny, Reading, Contains, AfterFirst, AfterLast, Redirected, ReadsIn, HeadSaid,
      Unforced, IsHead, OtherRef,
      StripHeads, NamedAlike, SpecTarget, Otherwise, Deletes, NoBranch, AnyDestination;
    var deletes := Deletes(c.git.pushArgs);
    var plain := Unforced(spec);
    var given := if deletes then spec else plain;
    var last := Destination(given);
    if plain != ":" && !GivesUpSpec(plain, FirstDestination(plain)) {
      if !deletes && IsHeadWord(spec) {
        HeadSpecSays(out, spec, c, site, call, line, k);
      } else if last == "" || (NoBranch(last) && Otherwise(k.refs, last, OwnSource(spec, deletes)) == {}) {
        NoBranchUpdated(k.refs, spec, deletes);
      } else {
        AlikeNamed(out, k.refs, spec, deletes, site, call, line);
      }
    } else {
      SpecGivenUp(out, spec, site, call, line);
    }
  }

  lemma SpecGivenUp(out: Targets, spec: string, site: Site, call: Call, line: Line)
    requires var plain := Unforced(spec); plain == ":" || GivesUpSpec(plain, FirstDestination(plain))
    ensures GivesUp(SpecNoted(out, spec, site, call, line))
  {
    hide HeadNoted, UnreadableRef, HasAny, AfterFirst, Unforced, IsHead, OtherRef, StripHeads;
  }

  lemma HeadSpecSays(out: Targets, spec: string, c: Command, site: Site, call: Call, line: Line, k: Known)
    requires IsPush(c) && Reading(c, site, call) && Contains(line, k) && !ReadsIn(c.globals) && IsHeadWord(spec) && !Deletes(c.git.pushArgs)
    ensures var out' := SpecNoted(out, spec, site, call, line); GivesUp(out') || SpecSaid(out', k, c, spec)
  {
    hide HeadNoted, Reading, Contains, Redirected, ReadsIn, HeadSaid, Unforced, SpecTarget, SpecNoted, Deletes;
    HeadNotedSays(out, c, site, call, line, k);
    HeadIsRead(k.refs, out, spec, site, call, line);
    if Redirected(c.globals) {
      HeadRedirected(out, c, site, call, line);
    }
  }

  lemma HeadWord()
    ensures ':' !in "HEAD" && ':' !in "@"
  {
  }

  lemma HeadIsRead(refs: Refs, out: Targets, spec: string, site: Site, call: Call, line: Line)
    requires IsHeadWord(spec)
    ensures SpecTarget(refs, spec, false) == Updates({}, true) && SpecNoted(out, spec, site, call, line) == HeadNoted(out, site, call, line)
  {
    hide HeadNoted, AfterLast, AfterFirst, Unforced, Otherwise;
    HeadWord();
    assert Lower("HEAD") == "head";
    assert !HasAny("HEAD", "!$`") && !HasAny("@", "!$`") && !UnreadableRef("HEAD") && !UnreadableRef("@");
  }

  lemma HeadRedirected(out: Targets, c: Command, site: Site, call: Call, line: Line)
    requires c.RunGit? && Reading(c, site, call) && Redirected(c.globals) && !ReadsIn(c.globals)
    ensures GivesUp(HeadNoted(out, site, call, line))
  {
    hide PushConfigKey, BeforeFirst, ConfigsOf, Redirected, ReadsIn;
    SettingSeen(c.globals);
  }

  lemma {:induction false} SpecsNotedSay(out: Targets, specs: seq<string>, spec: string, c: Command, site: Site,
        call: Call, line: Line, k: Known)
    requires IsPush(c) && Reading(c, site, call) && Contains(line, k) && !ReadsIn(c.globals) && spec in specs
    requires SpecRight(k.refs, spec, Deletes(c.git.pushArgs)) && Settled(c.globals, spec, Deletes(c.git.pushArgs))
    ensures var out' := SpecsNoted(out, specs, site, call, line); GivesUp(out') || SpecSaid(out', k, c, spec)
    decreases |specs|
  {
    hide SpecNoted, SpecSaid, Reading, Contains, SpecRight, Settled, ReadsIn, Deletes;
    var out' := SpecNoted(out, specs[0], site, call, line);
    var all := SpecsNoted(out', specs[1..], site, call, line);
    if spec == specs[0] {
      SpecNotedSays(out, spec, c, site, call, line, k);
      SpecsNotedGrow(out', specs[1..], site, call, line);
      if !GivesUp(out') {
        SpecSaidGrows(out', all, k, c, spec);
      }
    } else {
      assert specs == [specs[0]] + specs[1..];
      SpecsNotedSay(out', specs[1..], spec, c, site, call, line, k);
    }
  }

  lemma {:induction false} RefspecsAmong(words: seq<string>)
    ensures forall spec :: spec in Refspecs(words) ==> spec in words
    decreases |words|
  {
    if words != [] {
      if words[0] != "tag" {
        RefspecsAmong(words[1..]);
      } else if |words| > 1 {
        RefspecsAmong(words[2..]);
      }
    }
  }

  /** The refspecs Git reads are operands. */
  lemma SpecsAmong(operands: seq<string>)
    ensures |operands| <= 1 ==> SpecsOf(operands) == []
    ensures |operands| > 1 ==> forall spec :: spec in SpecsOf(operands) ==> spec in operands[1..]
  {
    if operands != [] {
      RefspecsAmong(operands[1..]);
    }
  }

  // ----- one push -----

  lemma PushNotedSays(out: Targets, c: Command, site: Site, call: Call, line: Line, k: Known)
    requires IsPush(c) && Reading(c, site, call) && Contains(line, k) && CommandOk(c) && PushRight(k.refs, c.globals, c.git.pushArgs, c.git.tail)
    requires CallOk(site.words, call) && call.sub.Some? && site.words[call.sub.value + 1..call.end] == ArgsOf(c.git)
    ensures var out' := PushNoted(out, site, call, line); GivesUp(out') || PushSaid(out', k, c)
  {
    hide SomeEvery, AsksEvery, ReadArgs, HeadNoted, SpecsNoted, UnreadableRemote, Reading, Contains, AllOperands, AllPushWords, TailWords,
      LastSays, HeadSaid, SpecSaid,
      IsGitProgram, GlobalOk, PushArgOk, SpecRight, ReadsIn, Redirected;
    var args, tail := c.git.pushArgs, c.git.tail;
    EveryIsSaid(args);
    ArgsRead(args, tail, NOTHING_READ);
    var read := ReadArgs(ArgsOf(c.git), NOTHING_READ);
    var operands := AllOperands(args, tail);
    var out1 := OptionsNoted(out.(unknown := out.unknown || read.unknown), read, site);
    PushNotedGrows(out, site, call, line);
    HeadNotedGrows(out1, site, call, line);
    if |read.operands| > 1 { SpecsNotedGrow(out1, read.operands[1..], site, call, line); }
    var out' := PushNoted(out, site, call, line);
    SpecsAmong(operands);
    if !GivesUp(out') && !DryRun(args) {
      assert read.operands == [] + operands == operands;
      if PushesHead(args, tail) {
        HeadNotedSays(out1, c, site, call, line, k);
      }
      forall spec | spec in SpecsOf(operands) ensures SpecSaid(out', k, c, spec) {
        SpecsNotedSay(out1, operands[1..], spec, c, site, call, line, k);
      }
    }
  }

  /** A push found among the words of its command. */
  lemma CommandSays(out: Targets, c: Command, site: Site, line: Line, k: Known)
    requires CommandOk(c) && Followed(k.refs, c) && SiteOf(c, site) && Contains(line, k) && IsPush(c)
    ensures var out' := CallsRead(out, site, CallsFrom(site.words, 0), line); GivesUp(out') || PushSaid(out', k, c)
  {
    hide PushNoted, CallsFrom, WordsOf, ArgsOf, PushSaid, Contains, GitOk, GlobalOk, IsGitProgram, Leaves, ConfigsOf,
      ChDirs, PushRight, Lower, ReadRight;
    var call := OneCall(c);
    LowerSubs();
    assert CallsRead(out, site, [call], line) == CallRead(out, site, call, line);
    PushNotedSays(out, c, site, call, line, k);
  }

  // ----- a line -----

  /** A line, and the words the analysis is given for it. */
  predicate LineOf(line: seq<Command>, sites: seq<Site>) {
    |sites| == |line| && forall k :: 0 <= k < |line| ==> CommandOk(line[k]) && SiteOf(line[k], sites[k])
  }

  lemma {:induction false} TargetsGrow(sites: seq<Site>, k: nat, n: nat)
    requires k <= n <= |sites|
    ensures OutGrows(TargetsOf(sites[..k]), TargetsOf(sites[..n]))
    decreases n
  {
    hide CallsRead, CallsFrom, LineAfter;
    if k < n {
      TargetsGrow(sites, k, n - 1);
      assert sites[..n][..n - 1] == sites[..n - 1];
      CallsReadGrow(TargetsOf(sites[..n - 1]), sites[n - 1], CallsFrom(sites[n - 1].words, 0), LineAfter(sites[..n - 1]));
    }
  }

  /** Each push of a followed line is said. */
  lemma FollowedSays(refs: Refs, line: seq<Command>, sites: seq<Site>)
    requires LineOf(line, sites) && AllFollowed(refs, line)
    ensures SaysAll(TargetsOf(sites), refs, line)
  {
    hide CommandOk, Followed, SiteOf, PushSaid, CallsRead, CallsFrom, OutGrows, LineAfter, Contains, KnownAfter, AllRefs;
    var out := TargetsOf(sites);
    forall k | 0 <= k < |line| && IsPush(line[k]) ensures GivesUp(out) || PushSaid(out, KnownAfter(refs, line[..k]), line[k]) {
      LineContains(refs, line, sites, k);
      RefsKnown(refs, line[..k]);
      var before := sites[..k];
      CommandSays(TargetsOf(before), line[k], sites[k], LineAfter(before), KnownAfter(refs, line[..k]));
      assert sites[..k + 1][..k] == before;
      TargetsGrow(sites, k + 1, |sites|);
      assert sites[..|sites|] == sites;
      SaidGrows(TargetsOf(sites[..k + 1]), out, KnownAfter(refs, line[..k]), line[k]);
    }
  }

  lemma SaidGrows(a: Targets, b: Targets, k: Known, c: Command)
    requires IsPush(c) && OutGrows(a, b) && (GivesUp(a) || PushSaid(a, k, c))
    ensures GivesUp(b) || PushSaid(b, k, c)
  {
    hide PushSaid;
    if !GivesUp(a) {
      PushSaidGrows(a, b, k, c);
    }
  }

  /**
   * Soundness: for every line of followed commands, every layout of worktrees, and every run in which
   * any command may fail and any folder change may be undone, each branch pushed to is covered. The refs are
   * those that are symbolic, and the branches called `refs/…`, when the line starts.
   */
  lemma EveryPushCovered(refs: Refs, line: seq<Command>, sites: seq<Site>)
    requires LineOf(line, sites) && AllFollowed(refs, line)
    ensures AllCovered(refs, line, TargetsOf(sites))
  {
    hide AllCovered, SaysAll, TargetsOf, LineOf, AllFollowed;
    FollowedSays(refs, line, sites);
    SaysCovers(refs, line, TargetsOf(sites));
  }
}
