/**
 * What the runs of a line can push, without running it: the folders the shell may be in, the branches a
 * HEAD may be put on, and whether either is lost. An answer covers every run exactly when it says all this.
 */
module PushReach {
  import opened Common
  import opened PushText
  import opened PushAnalysis
  import opened PushSemantics

  /** The folders below the working folder, the branches moved to, whether a folder or a HEAD may be any, and the refs there may be. */
  datatype Known = Known(dirs: seq<seq<string>>, moved: set<string>, lost: bool, refs: Refs)

  function Start(refs: Refs): Known {
    Known([[]], {}, false, refs)
  }

  function DirsFrom(dirs: seq<seq<string>>, to: string): (r: seq<seq<string>>)
    ensures forall q :: q in r ==> exists p :: p in dirs && q == p + Parts(to)
    ensures forall p :: p in dirs ==> p + Parts(to) in r
  {
    if dirs == [] then []
    else
      assert dirs == [dirs[0]] + dirs[1..];
      [dirs[0] + Parts(to)] + DirsFrom(dirs[1..], to)
  }

  predicate Departs(c: Command) {
    (c.Cd? || c.CdPath?) && !(FolderOf(c).Some? && Followable(FolderOf(c).value))
  }

  predicate Descends(c: Command) {
    (c.Cd? || c.CdPath?) && FolderOf(c).Some? && Followable(FolderOf(c).value)
  }

  /** Git runs where the line cannot tell. */
  predicate RunsAway(c: Command) {
    c.RunGit? && (c.elsewhere || Leaves(c.globals))
  }

  /** What a command adds to it, but for the refs it makes. */
  function Moved(k: Known, c: Command): Known {
    if Departs(c) then k.(lost := true)
    else if Descends(c) then k.(dirs := k.dirs + DirsFrom(k.dirs, FolderOf(c).value))
    else if !c.RunGit? || ReachOf(c.git) == Nowhere then k
    else if RunsAway(c) || ReachOf(c.git) == Anywhere then k.(lost := true)
    else k.(moved := k.moved + Branches(k.refs, c.git, ReachOf(c.git).branch))
  }

  function Next(k: Known, c: Command): Known {
    Moved(k, c).(refs := RefsAfter(k.refs, c))
  }

  function KnownAfter(refs: Refs, line: seq<Command>): Known {
    if line == [] then Start(refs) else Next(KnownAfter(refs, line[..|line| - 1]), line[|line| - 1])
  }

  lemma {:induction false} RefsKnown(refs: Refs, line: seq<Command>)
    ensures KnownAfter(refs, line).refs == AllRefs(refs, line)
  {
    hide Moved, RefsAfter;
    if line != [] {
      RefsKnown(refs, line[..|line| - 1]);
    }
  }

  // ----- an answer that says it all -----

  predicate DirSaid(out: Targets, path: seq<string>) {
    path == [] || Slashed(path) in out.dirs
  }

  predicate HeadSaid(out: Targets, k: Known, c: Command)
    requires c.RunGit?
  {
    && !k.lost && !RunsAway(c) && !Redirected(c.globals)
    && out.current && (forall b :: b in k.moved ==> b in out.branches)
    && forall p :: p in k.dirs ==> DirSaid(out, p + Flat(ChDirs(c.globals)))
  }

  predicate IsPush(c: Command) {
    c.RunGit? && c.git.Push?
  }

  predicate SpecSaid(out: Targets, k: Known, c: Command, spec: string)
    requires IsPush(c)
  {
    match SpecTarget(k.refs, spec, Deletes(c.git.pushArgs))
    case AnyBranch => false
    case Updates(branches, head) =>
      && (forall b :: b in branches ==> b in out.branches)
      && (head ==> HeadSaid(out, k, c))
      && (Redirected(c.globals) && !Deletes(c.git.pushArgs) && ':' !in Unforced(spec) ==> branches == {} && !head)
  }

  predicate SpecsSaid(out: Targets, k: Known, c: Command, specs: seq<string>)
    requires IsPush(c)
  {
    forall spec :: spec in specs ==> SpecSaid(out, k, c, spec)
  }

  predicate PushSaid(out: Targets, k: Known, c: Command)
    requires IsPush(c)
  {
    var args, tail := c.git.pushArgs, c.git.tail;
    var operands := AllOperands(args, tail);
    DryRun(args)
    || (&& !AsksEvery(args) && !(operands != [] && UnreadableRemote(operands[0]))
        && (PushesHead(args, tail) ==> HeadSaid(out, k, c))
        && SpecsSaid(out, k, c, SpecsOf(operands)))
  }

  predicate GivesUp(out: Targets) {
    out.every || out.unknown
  }

  /** The answer gives up, or says for each push of the line every branch it may update. */
  predicate SaysAll(out: Targets, refs: Refs, line: seq<Command>) {
    GivesUp(out) || forall k :: 0 <= k < |line| && IsPush(line[k]) ==> PushSaid(out, KnownAfter(refs, line[..k]), line[k])
  }

  // ----- every run stays within what is known -----

  predicate PlaceWithin(k: Known, p: Place) {
    p.Below? && CleanPath(p.path) && p.path in k.dirs
  }

  predicate HeadWithin(k: Known, start: Option<string>, now: Option<string>) {
    now == None || now == start || now.value in k.moved
  }

  ghost predicate Within(k: Known, w: World, start: Heads) {
    k.lost
    || (&& w.cwd in w.seen && (forall p :: p in w.seen ==> PlaceWithin(k, p))
        && forall r :: HeadWithin(k, start(r), w.heads(r)))
  }

  lemma FolderStays(c: Command, repoOf: Place -> Repo, w: World, w': World, k: Known, start: Heads)
    requires (c.Cd? || c.CdPath?) && Within(k, w, start) && Moves(k.refs, c, repoOf, w, w')
    ensures Within(Next(k, c), w', start)
  {
    hide Slashed, Parts, Followable, CleanPath;
    if Descends(c) && !k.lost {
      var to := FolderOf(c).value;
      forall p | p in w'.seen ensures PlaceWithin(Next(k, c), p) {
        if p in w.seen {
          assert PlaceWithin(k, p);
        } else {
          assert PlaceWithin(k, w.cwd);
          CleanMore(w.cwd.path, to);
        }
      }
      forall r ensures HeadWithin(Next(k, c), start(r), w'.heads(r)) {
        assert HeadWithin(k, start(r), w.heads(r));
      }
    }
  }

  lemma CleanMore(path: seq<string>, to: string)
    requires CleanPath(path)
    ensures CleanPath(path + Parts(to))
  {
    PartsFromClean("", to);
  }

  lemma HeadStays(k: Known, c: Command, here: Repo, r: Repo, start: Option<string>, was: Option<string>, now: Option<string>)
    requires c.RunGit? && !RunsAway(c) && HeadWithin(k, start, was) && HeadMoves(k.refs, c.git, here, r, was, now)
    ensures Next(k, c).lost || HeadWithin(Next(k, c), start, now)
  {
    hide ReachOf, CanMove;
  }

  lemma GitStays(c: Command, repoOf: Place -> Repo, w: World, w': World, k: Known, start: Heads)
    requires c.RunGit? && Within(k, w, start) && Moves(k.refs, c, repoOf, w, w')
    ensures Within(Next(k, c), w', start)
  {
    hide ReachOf, CanMove, Leaves, HeadMoves, CleanPath;
    var k' := Next(k, c);
    if !k'.lost {
      assert PlaceWithin(k, w.cwd);
      forall p | p in w'.seen ensures PlaceWithin(k', p) {
        assert PlaceWithin(k, p);
      }
      var at := GitPlace(w.cwd, c.globals, c.elsewhere);
      forall r ensures HeadWithin(k', start(r), w'.heads(r)) {
        assert HeadWithin(k, start(r), w.heads(r));
        assert HeadMoves(k.refs, c.git, repoOf(at), r, w.heads(r), w'.heads(r));
        if RunsAway(c) {
          StillMoves(k.refs, c.git, repoOf(at), r, w.heads(r), w'.heads(r));
        } else {
          HeadStays(k, c, repoOf(at), r, start(r), w.heads(r), w'.heads(r));
        }
      }
    }
  }

  lemma StillMoves(refs: Refs, git: Git, here: Repo, r: Repo, was: Option<string>, now: Option<string>)
    requires HeadMoves(refs, git, here, r, was, now) && ReachOf(git) == Nowhere
    ensures now == was || now == None
  {
  }

  lemma OneStepWithin(c: Command, repoOf: Place -> Repo, w: World, w': World, k: Known, start: Heads)
    requires Within(k, w, start) && Moves(k.refs, c, repoOf, w, w')
    ensures Within(Next(k, c), w', start)
  {
    hide HeadsMove, LeadsTo, Followable;
    match c
    case RunGit(_, _, _, _) => GitStays(c, repoOf, w, w', k, start);
    case OtherProgram(_) =>
      if !k.lost {
        forall r ensures HeadWithin(k, start(r), w'.heads(r)) {
          assert HeadWithin(k, start(r), w.heads(r));
        }
      }
    case _ => FolderStays(c, repoOf, w, w', k, start);
  }

  lemma {:induction false} RunWithin(refs: Refs, line: seq<Command>, repoOf: Place -> Repo, worlds: seq<World>, k: nat)
    requires RunOf(refs, line, repoOf, worlds) && k <= |line|
    ensures Within(KnownAfter(refs, line[..k]), worlds[k], worlds[0].heads)
  {
    hide Moves, Next, Within;
    if k == 0 {
      StartWithin(refs, worlds[0]);
    } else {
      RunWithin(refs, line, repoOf, worlds, k - 1);
      assert line[..k][..k - 1] == line[..k - 1];
      RefsKnown(refs, line[..k - 1]);
      OneStepWithin(line[k - 1], repoOf, worlds[k - 1], worlds[k], KnownAfter(refs, line[..k - 1]), worlds[0].heads);
    }
  }

  lemma StartWithin(refs: Refs, w: World)
    requires w.cwd == Below([]) && w.seen == {Below([])}
    ensures Within(KnownAfter(refs, []), w, w.heads)
  {
    assert [] in Start(refs).dirs;
  }

  /** HEAD's branch, said for every folder and move known, is covered in every world within them. */
  lemma HeadSaidCovers(out: Targets, k: Known, c: Command, repoOf: Place -> Repo, w: World, start: Heads, b: string)
    requires c.RunGit? && HeadSaid(out, k, c) && Within(k, w, start)
    requires HeadGoesTo(c.globals, GitPlace(w.cwd, c.globals, c.elsewhere), repoOf, w.heads, b)
    ensures Covers(out, repoOf, start, b)
  {
    hide Slashed, Flat, ChDirs, Leaves, Redirected;
    assert PlaceWithin(k, w.cwd);
    var path := w.cwd.path + Flat(ChDirs(c.globals));
    CleanFlat(w.cwd.path, ChDirs(c.globals));
    assert HeadWithin(k, start(repoOf(Below(path))), w.heads(repoOf(Below(path))));
    assert DirSaid(out, path);
  }

  lemma CleanFlat(path: seq<string>, parts: seq<string>)
    requires CleanPath(path)
    ensures CleanPath(path + Flat(parts))
  {
    FlatClean(parts);
  }

  lemma PushSaidCovers(out: Targets, k: Known, c: Command, repoOf: Place -> Repo, w: World, start: Heads, b: string)
    requires IsPush(c) && PushSaid(out, k, c) && Within(k, w, start) && Pushes(k.refs, c, repoOf, w, b)
    ensures Covers(out, repoOf, start, b)
  {
    hide HeadSaid, HeadGoesTo, Within, Covers, SpecTarget, AllOperands, DryRun, AsksEvery, Asks, UnreadableRemote,
      GitPlace, SpecGoesTo, SpecSaid;
    var args, tail := c.git.pushArgs, c.git.tail;
    var operands := AllOperands(args, tail);
    var at := GitPlace(w.cwd, c.globals, c.elsewhere);
    if PushesHead(args, tail) && HeadGoesTo(c.globals, at, repoOf, w.heads, b) {
      HeadSaidCovers(out, k, c, repoOf, w, start, b);
    } else {
      var spec :| spec in SpecsOf(operands) && SpecGoesTo(k.refs, spec, Deletes(args), c.globals, at, repoOf, w.heads, b);
      assert SpecSaid(out, k, c, spec);
      SpecSaidCovers(out, k, c, spec, repoOf, w, start, b);
    }
  }

  lemma SpecSaidCovers(out: Targets, k: Known, c: Command, spec: string, repoOf: Place -> Repo, w: World, start: Heads, b: string)
    requires IsPush(c) && SpecSaid(out, k, c, spec) && Within(k, w, start)
    requires SpecGoesTo(k.refs, spec, Deletes(c.git.pushArgs), c.globals, GitPlace(w.cwd, c.globals, c.elsewhere), repoOf, w.heads, b)
    ensures Covers(out, repoOf, start, b)
  {
    hide HeadSaid, HeadGoesTo, Within, SpecTarget, GitPlace, CurrentCovers;
    var target := SpecTarget(k.refs, spec, Deletes(c.git.pushArgs));
    if target.Updates? && target.head {
      if HeadGoesTo(c.globals, GitPlace(w.cwd, c.globals, c.elsewhere), repoOf, w.heads, b) {
        HeadSaidCovers(out, k, c, repoOf, w, start, b);
      }
    }
  }

  /** An answer that says it all covers every run. */
  lemma SaysCovers(refs: Refs, line: seq<Command>, out: Targets)
    requires SaysAll(out, refs, line)
    ensures AllCovered(refs, line, out)
  {
    hide Moves, Pushes, PushSaid, KnownAfter, Within;
    forall repoOf: Place -> Repo, worlds: seq<World>, k: nat, b | RunOf(refs, line, repoOf, worlds) && k < |line| && Pushes(AllRefs(refs, line[..k]), line[k], repoOf, worlds[k], b)
      ensures Covers(out, repoOf, worlds[0].heads, b)
    {
      if !GivesUp(out) {
        RunWithin(refs, line, repoOf, worlds, k);
        RefsKnown(refs, line[..k]);
        PushIsPush(AllRefs(refs, line[..k]), line[k], repoOf, worlds[k], b);
        PushSaidCovers(out, KnownAfter(refs, line[..k]), line[k], repoOf, worlds[k], worlds[0].heads, b);
      }
    }
  }

  lemma PushIsPush(refs: Refs, c: Command, repoOf: Place -> Repo, w: World, b: string)
    requires Pushes(refs, c, repoOf, w, b)
    ensures IsPush(c)
  {
  }

  // ----- everything known is reached by some run -----

  const ONE_REPO: Place -> Repo := (p: Place) => 0

  function AtFirst(heads: Heads): World {
    World(Below([]), {Below([])}, heads)
  }

  function Everywhere(head: Option<string>): Heads {
    (r: Repo) => head
  }

  lemma StaysPut(refs: Refs, c: Command, repoOf: Place -> Repo, w: World)
    requires w.cwd in w.seen
    ensures Moves(refs, c, repoOf, w, w)
  {
    hide ReachOf, CanMove, GitPlace;
  }

  lemma OneMoreStep(refs: Refs, line: seq<Command>, k: nat, repoOf: Place -> Repo, worlds: seq<World>, w: World)
    requires k < |line| && RunOf(refs, line[..k], repoOf, worlds) && Moves(AllRefs(refs, line[..k]), line[k], repoOf, worlds[k], w)
    ensures RunOf(refs, line[..k + 1], repoOf, worlds + [w])
  {
    hide Moves;
    var more := worlds + [w];
    forall i | 0 <= i < k + 1 ensures Moves(AllRefs(refs, line[..k + 1][..i]), line[..k + 1][i], repoOf, more[i], more[i + 1]) {
      assert line[..k + 1][..i] == line[..i];
      if i < k { assert line[..k][i] == line[i] && line[..k][..i] == line[..i]; }
    }
  }

  /** A run of the first commands goes on with the rest failing. */
  lemma {:induction false} RestFails(refs: Refs, line: seq<Command>, k: nat, repoOf: Place -> Repo,
        worlds: seq<World>) returns (all: seq<World>)
    requires k <= |line| && RunOf(refs, line[..k], repoOf, worlds) && worlds[k].cwd in worlds[k].seen
    ensures RunOf(refs, line, repoOf, all) && worlds <= all
    decreases |line| - k
  {
    hide Moves;
    if k == |line| {
      assert line[..k] == line;
      all := worlds;
    } else {
      StaysPut(AllRefs(refs, line[..k]), line[k], repoOf, worlds[k]);
      OneMoreStep(refs, line, k, repoOf, worlds, worlds[k]);
      all := RestFails(refs, line, k + 1, repoOf, worlds + [worlds[k]]);
    }
  }

  lemma NotCovered(refs: Refs, line: seq<Command>, out: Targets, k: nat, repoOf: Place -> Repo, worlds: seq<World>, b: string)
    requires k < |line| && RunOf(refs, line[..k], repoOf, worlds) && worlds[k].cwd in worlds[k].seen
    requires Pushes(AllRefs(refs, line[..k]), line[k], repoOf, worlds[k], b) && !Covers(out, repoOf, worlds[0].heads, b)
    ensures !AllCovered(refs, line, out)
  {
    hide Moves, Pushes, Covers;
    var all := RestFails(refs, line, k, repoOf, worlds);
  }

  /** A run in which nothing happens. */
  lemma {:induction false} Still(refs: Refs, line: seq<Command>, k: nat, repoOf: Place -> Repo, heads: Heads) returns (worlds: seq<World>)
    requires k <= |line|
    ensures RunOf(refs, line[..k], repoOf, worlds) && worlds[0] == worlds[k] == AtFirst(heads)
    decreases k
  {
    hide Moves;
    if k == 0 {
      worlds := [AtFirst(heads)];
    } else {
      worlds := Still(refs, line, k - 1, repoOf, heads);
      StaysPut(AllRefs(refs, line[..k - 1]), line[k - 1], repoOf, worlds[k - 1]);
      OneMoreStep(refs, line, k - 1, repoOf, worlds, worlds[k - 1]);
      worlds := worlds + [worlds[k - 1]];
    }
  }

  function Longer(names: seq<string>): nat {
    if names == [] then 0 else Longer(names[1..]) + |names[0]| + 1
  }

  lemma {:induction false} LongerThanAll(names: seq<string>, n: string)
    requires n in names
    ensures |n| < Longer(names)
  {
    if n != names[0] {
      LongerThanAll(names[1..], n);
    }
  }

  /** A name none of these is. */
  lemma OtherName(names: seq<string>) returns (b: string)
    ensures b !in names
  {
    b := seq(Longer(names), i => 'x');
    if b in names {
      LongerThanAll(names, b);
    }
  }

  lemma NoHeadNoCover(out: Targets, repoOf: Place -> Repo, head: Option<string>, b: string)
    requires !GivesUp(out) && b !in out.branches && head != Some(b)
    ensures !Covers(out, repoOf, Everywhere(head), b)
  {
  }

  /** The head a command needs everywhere to move the first worktree. */
  function NeedsHead(git: Git): Option<string> {
    match git
    case Rename(args) => if |RenameNames(args)| == 2 then Some(RenameNames(args)[0]) else None
    case SymbolicRef(_, _, ref, _) => if "refs/heads/" <= ref then Some(ref[11..]) else None
    case Aliased(_, _, inner) => NeedsHead(inner)
    case _ => None
  }

  lemma {:induction false} NeededMoves(git: Git)
    ensures CanMove(git, 0, 0, NeedsHead(git))
  {
    if git.Aliased? {
      NeededMoves(git.git);
    }
  }

  lemma {:induction false} NeedsAnother(refs: Refs, git: Git, b: string)
    requires ReachOf(git).Reaches? && b in Branches(refs, git, ReachOf(git).branch)
    ensures NeedsHead(git) != Some(b)
  {
    hide SwitchReach, UnreadableRef, Linked;
    if git.Aliased? {
      NeedsAnother(refs, git.git, b);
    }
  }

  function MovedTo(heads: Heads, b: string): Heads {
    (r: Repo) => if r == 0 then Some(b) else heads(r)
  }

  lemma MovesHead(refs: Refs, c: Command, w: World, b: string)
    requires c.RunGit? && !c.git.Push? && Hits(refs, c.git, Some(b)) && w.cwd in w.seen
    requires w.heads == Everywhere(NeedsHead(c.git))
    ensures Moves(refs, c, ONE_REPO, w, w.(heads := MovedTo(w.heads, b)))
  {
    hide ReachOf, NeedsHead, CanMove, GitPlace, Branches;
    NeededMoves(c.git);
    var w' := w.(heads := MovedTo(w.heads, b));
    forall r ensures HeadMoves(refs, c.git, 0, r, w.heads(r), w'.heads(r)) {
    }
  }

  lemma PushReachesNowhere(git: Git)
    ensures git.Push? ==> ReachOf(git) == Nowhere
  {
  }

  /** A branch known to be moved to is moved to, in a run that starts elsewhere. */
  lemma {:induction false} ReachMoved(refs: Refs, line: seq<Command>, k: nat, b: string) returns (head: Option<string>, worlds: seq<World>)
    requires k <= |line| && b in KnownAfter(refs, line[..k]).moved
    ensures RunOf(refs, line[..k], ONE_REPO, worlds) && worlds[0] == AtFirst(Everywhere(head)) && head != Some(b)
    ensures worlds[k].cwd == Below([]) && worlds[k].cwd in worlds[k].seen && worlds[k].heads(0) == Some(b)
    decreases k
  {
    hide Moves, ReachOf, Departs, Descends, RunsAway, Branches, RefsAfter, NeedsHead;
    if k == 0 {
      assert false;
    } else {
      var c := line[k - 1];
      assert line[..k][..k - 1] == line[..k - 1];
      if b in KnownAfter(refs, line[..k - 1]).moved {
        head, worlds := ReachMoved(refs, line, k - 1, b);
        StaysPut(AllRefs(refs, line[..k - 1]), c, ONE_REPO, worlds[k - 1]);
        OneMoreStep(refs, line, k - 1, ONE_REPO, worlds, worlds[k - 1]);
        worlds := worlds + [worlds[k - 1]];
      } else {
        var now := AllRefs(refs, line[..k - 1]);
        RefsKnown(refs, line[..k - 1]);
        assert c.RunGit? && ReachOf(c.git).Reaches? && b in Branches(now, c.git, ReachOf(c.git).branch);
        head := NeedsHead(c.git);
        NeedsAnother(now, c.git, b);
        PushReachesNowhere(c.git);
        worlds := Still(refs, line, k - 1, ONE_REPO, Everywhere(head));
        MovesHead(now, c, worlds[k - 1], b);
        var w := worlds[k - 1].(heads := MovedTo(worlds[k - 1].heads, b));
        OneMoreStep(refs, line, k - 1, ONE_REPO, worlds, w);
        worlds := worlds + [w];
      }
    }
  }

  /** What is lost is lost in a run: the shell ends up away, or HEAD on a branch the answer does not name. */
  lemma {:induction false} ReachLost(refs: Refs, line: seq<Command>, k: nat, names: seq<string>) returns (head: Option<string>,
        b: string, worlds: seq<World>)
    requires k <= |line| && KnownAfter(refs, line[..k]).lost
    ensures RunOf(refs, line[..k], ONE_REPO, worlds) && worlds[0] == AtFirst(Everywhere(head)) && head != Some(b) && b !in names
    ensures worlds[k].cwd in worlds[k].seen && (worlds[k].cwd == Away || worlds[k].heads(0) == Some(b))
    decreases k
  {
    hide Moves, ReachOf, Departs, RunsAway;
    if k == 0 {
      assert false;
    } else {
      var c := line[k - 1];
      assert line[..k][..k - 1] == line[..k - 1];
      if KnownAfter(refs, line[..k - 1]).lost {
        head, b, worlds := ReachLost(refs, line, k - 1, names);
        StaysPut(AllRefs(refs, line[..k - 1]), c, ONE_REPO, worlds[k - 1]);
        OneMoreStep(refs, line, k - 1, ONE_REPO, worlds, worlds[k - 1]);
        worlds := worlds + [worlds[k - 1]];
      } else {
        head, b, worlds := LosesNow(refs, line, k, names);
      }
    }
  }

  lemma LosesNow(refs: Refs, line: seq<Command>, k: nat, names: seq<string>) returns (head: Option<string>, b: string, worlds: seq<World>)
    requires 0 < k <= |line| && Next(KnownAfter(refs, line[..k - 1]), line[k - 1]).lost && !KnownAfter(refs, line[..k - 1]).lost
    ensures RunOf(refs, line[..k], ONE_REPO, worlds) && worlds[0] == AtFirst(Everywhere(head)) && head != Some(b) && b !in names
    ensures worlds[k].cwd in worlds[k].seen && (worlds[k].cwd == Away || worlds[k].heads(0) == Some(b))
  {
    hide Moves, ReachOf, RunsAway;
    var c, now := line[k - 1], AllRefs(refs, line[..k - 1]);
    head := if c.RunGit? then NeedsHead(c.git) else None;
    b := OtherName(names + if head.Some? then [head.value] else []);
    worlds := Still(refs, line, k - 1, ONE_REPO, Everywhere(head));
    var w := worlds[k - 1];
    var w';
    if c.RunGit? {
      PushReachesNowhere(c.git);
      w' := w.(heads := MovedTo(w.heads, b));
      LostMoves(now, c, w, b);
    } else {
      w' := w.(cwd := Away, seen := w.seen + {Away});
      DepartsAway(now, c, w);
    }
    OneMoreStep(refs, line, k - 1, ONE_REPO, worlds, w');
    worlds := worlds + [w'];
  }

  lemma DepartsAway(refs: Refs, c: Command, w: World)
    requires Departs(c)
    ensures Moves(refs, c, ONE_REPO, w, w.(cwd := Away, seen := w.seen + {Away}))
  {
    hide Followable;
    assert LeadsTo(w.cwd, FolderOf(c), Away);
  }

  lemma LostMoves(refs: Refs, c: Command, w: World, b: string)
    requires c.RunGit? && !c.git.Push? && w.cwd in w.seen && w.heads == Everywhere(NeedsHead(c.git))
    requires ReachOf(c.git) == Anywhere || (RunsAway(c) && ReachOf(c.git) != Nowhere)
    ensures Moves(refs, c, ONE_REPO, w, w.(heads := MovedTo(w.heads, b)))
  {
    hide ReachOf, NeedsHead, Leaves;
    if ReachOf(c.git) == Anywhere {
      MovesHead(refs, c, w, b);
    }
  }

  lemma NewDir(k: Known, c: Command, p: seq<string>) returns (from: seq<string>)
    requires p in Next(k, c).dirs && p !in k.dirs
    ensures Descends(c) && from in k.dirs && p == from + Parts(FolderOf(c).value)
  {
    hide ReachOf, RunsAway, Parts, RefsAfter, Branches, Followable;
    from :| from in k.dirs && p == from + Parts(FolderOf(c).value);
  }

  /** Every folder known is reached, with the heads as they were. */
  lemma {:induction false} ReachDir(refs: Refs, line: seq<Command>, k: nat, p: seq<string>, repoOf: Place -> Repo,
        heads: Heads) returns (worlds: seq<World>)
    requires k <= |line| && p in KnownAfter(refs, line[..k]).dirs
    ensures RunOf(refs, line[..k], repoOf, worlds) && worlds[0] == AtFirst(heads)
    ensures worlds[k].cwd == Below(p) && worlds[k].cwd in worlds[k].seen && worlds[k].heads == heads
    decreases k
  {
    hide Moves, Next, Parts, AllRefs, Descends;
    if k == 0 {
      assert line[..0] == [];
      worlds := [AtFirst(heads)];
    } else {
      var c := line[k - 1];
      var known := KnownAfter(refs, line[..k - 1]);
      assert line[..k][..k - 1] == line[..k - 1];
      if p in known.dirs {
        worlds := ReachDir(refs, line, k - 1, p, repoOf, heads);
        StaysPut(AllRefs(refs, line[..k - 1]), c, repoOf, worlds[k - 1]);
        OneMoreStep(refs, line, k - 1, repoOf, worlds, worlds[k - 1]);
        worlds := worlds + [worlds[k - 1]];
      } else {
        var from := NewDir(known, c, p);
        worlds := ReachDir(refs, line, k - 1, from, repoOf, heads);
        var w := worlds[k - 1];
        var w' := w.(cwd := Below(p), seen := w.seen + {Below(p)});
        DescendsTo(AllRefs(refs, line[..k - 1]), c, repoOf, w, p);
        OneMoreStep(refs, line, k - 1, repoOf, worlds, w');
        worlds := worlds + [w'];
      }
    }
  }

  lemma DescendsTo(refs: Refs, c: Command, repoOf: Place -> Repo, w: World, p: seq<string>)
    requires Descends(c) && w.cwd.Below? && p == w.cwd.path + Parts(FolderOf(c).value)
    ensures Moves(refs, c, repoOf, w, w.(cwd := Below(p), seen := w.seen + {Below(p)}))
  {
    hide Followable, Parts;
    assert LeadsTo(w.cwd, FolderOf(c), Below(p));
  }

  lemma {:induction false} StartKnown(refs: Refs, line: seq<Command>)
    ensures [] in KnownAfter(refs, line).dirs
  {
    hide ReachOf, Departs, Descends, RunsAway;
    if line != [] {
      StartKnown(refs, line[..|line| - 1]);
    }
  }

  // ----- what is not said is missed -----

  function OneOther(q: seq<string>): Place -> Repo {
    (p: Place) => if p == Below(q) then 1 else 0
  }

  function HeadThere(b: string): Heads {
    (r: Repo) => if r == 1 then Some(b) else None
  }

  lemma DirMissed(out: Targets, q: seq<string>, b: string)
    requires !GivesUp(out) && b !in out.branches && !(out.current && DirSaid(out, q))
    ensures !Covers(out, OneOther(q), HeadThere(b), b)
  {
    hide Slashed, CleanPath;
  }

  /** A push of HEAD that is not said for all that is known is missed by some run. */
  lemma HeadMissed(refs: Refs, line: seq<Command>, k: nat, out: Targets) returns (repoOf: Place -> Repo, worlds: seq<World>, b: string)
    requires k < |line| && line[k].RunGit? && !GivesUp(out) && !HeadSaid(out, KnownAfter(refs, line[..k]), line[k])
    ensures RunOf(refs, line[..k], repoOf, worlds) && worlds[k].cwd in worlds[k].seen
    ensures HeadGoesTo(line[k].globals, GitPlace(worlds[k].cwd, line[k].globals, line[k].elsewhere), repoOf, worlds[k].heads, b)
    ensures !Covers(out, repoOf, worlds[0].heads, b)
  {
    hide Moves, KnownAfter, Covers, Redirected, Leaves, DirSaid;
    var known, c := KnownAfter(refs, line[..k]), line[k];
    if known.lost {
      var head;
      repoOf := ONE_REPO;
      head, b, worlds := ReachLost(refs, line, k, out.branches);
      NoHeadNoCover(out, repoOf, head, b);
    } else if RunsAway(c) || Redirected(c.globals) {
      repoOf := ONE_REPO;
      b := OtherName(out.branches);
      worlds := Still(refs, line, k, repoOf, Everywhere(None));
      NoHeadNoCover(out, repoOf, None, b);
    } else if m :| m in known.moved && m !in out.branches {
      var head;
      repoOf, b := ONE_REPO, m;
      head, worlds := ReachMoved(refs, line, k, m);
      NoHeadNoCover(out, repoOf, head, b);
    } else {
      StartKnown(refs, line[..k]);
      var p :| p in known.dirs && !(out.current && DirSaid(out, p + Flat(ChDirs(c.globals))));
      var q := p + Flat(ChDirs(c.globals));
      b := OtherName(out.branches);
      repoOf := OneOther(q);
      worlds := ReachDir(refs, line, k, p, repoOf, HeadThere(b));
      DirMissed(out, q, b);
    }
  }

  /** A push that is not said is missed by some run. */
  lemma PushMissed(refs: Refs, line: seq<Command>, k: nat, out: Targets)
    requires k < |line| && IsPush(line[k]) && !GivesUp(out) && !PushSaid(out, KnownAfter(refs, line[..k]), line[k])
    ensures !AllCovered(refs, line, out)
  {
    hide Moves, KnownAfter, Covers, AllCovered, HeadSaid, SpecSaid, HeadGoesTo, SpecGoesTo, DryRun, AsksEvery, Asks,
      UnreadableRemote, AllOperands, GitPlace, Pushes;
    var c, known := line[k], KnownAfter(refs, line[..k]);
    var args, tail := c.git.pushArgs, c.git.tail;
    var operands := AllOperands(args, tail);
    if AsksEvery(args) || (operands != [] && UnreadableRemote(operands[0])) {
      AnyMissed(refs, line, k, out);
    } else if PushesHead(args, tail) && !HeadSaid(out, known, c) {
      var repoOf, worlds, b := HeadMissed(refs, line, k, out);
      HeadPushed(AllRefs(refs, line[..k]), c, repoOf, worlds[k], b);
      NotCovered(refs, line, out, k, repoOf, worlds, b);
    } else {
      var spec :| spec in SpecsOf(operands) && !SpecSaid(out, known, c, spec);
      SpecMissed(refs, line, k, out, spec);
    }
  }

  lemma AnyMissed(refs: Refs, line: seq<Command>, k: nat, out: Targets)
    requires k < |line| && IsPush(line[k]) && !GivesUp(out) && !DryRun(line[k].git.pushArgs)
    requires var operands := AllOperands(line[k].git.pushArgs, line[k].git.tail);
             AsksEvery(line[k].git.pushArgs) || (operands != [] && UnreadableRemote(operands[0]))
    ensures !AllCovered(refs, line, out)
  {
    hide Moves, KnownAfter, Covers, AllCovered, DryRun, AsksEvery, Asks, UnreadableRemote, AllOperands, GitPlace;
    var b := OtherName(out.branches);
    var worlds := Still(refs, line, k, ONE_REPO, Everywhere(None));
    NoHeadNoCover(out, ONE_REPO, None, b);
    assert Pushes(AllRefs(refs, line[..k]), line[k], ONE_REPO, worlds[k], b);
    NotCovered(refs, line, out, k, ONE_REPO, worlds, b);
  }

  lemma HeadPushed(refs: Refs, c: Command, repoOf: Place -> Repo, w: World, b: string)
    requires IsPush(c) && !DryRun(c.git.pushArgs) && PushesHead(c.git.pushArgs, c.git.tail)
    requires HeadGoesTo(c.globals, GitPlace(w.cwd, c.globals, c.elsewhere), repoOf, w.heads, b)
    ensures Pushes(refs, c, repoOf, w, b)
  {
    hide HeadGoesTo, DryRun, AsksEvery, Asks, UnreadableRemote, AllOperands, GitPlace;
  }

  lemma SpecPushed(refs: Refs, c: Command, repoOf: Place -> Repo, w: World, spec: string, b: string)
    requires IsPush(c) && !DryRun(c.git.pushArgs)
    requires var operands := AllOperands(c.git.pushArgs, c.git.tail); spec in SpecsOf(operands)
    requires SpecGoesTo(refs, spec, Deletes(c.git.pushArgs), c.globals, GitPlace(w.cwd, c.globals, c.elsewhere), repoOf, w.heads, b)
    ensures Pushes(refs, c, repoOf, w, b)
  {
    hide SpecGoesTo, DryRun, AsksEvery, Asks, UnreadableRemote, AllOperands, GitPlace;
  }

  lemma SpecMissed(refs: Refs, line: seq<Command>, k: nat, out: Targets, spec: string)
    requires k < |line| && IsPush(line[k]) && !GivesUp(out) && !DryRun(line[k].git.pushArgs)
    requires var operands := AllOperands(line[k].git.pushArgs, line[k].git.tail); spec in SpecsOf(operands)
    requires !SpecSaid(out, KnownAfter(refs, line[..k]), line[k], spec)
    ensures !AllCovered(refs, line, out)
  {
    hide Moves, KnownAfter, Covers, AllCovered, HeadSaid, HeadGoesTo, DryRun, AllOperands, GitPlace, SpecTarget, Redirected;
    var c := line[k];
    var repoOf, worlds, b;
    RefsKnown(refs, line[..k]);
    var target := SpecTarget(AllRefs(refs, line[..k]), spec, Deletes(c.git.pushArgs));
    if target.Updates? && target.head && !HeadSaid(out, KnownAfter(refs, line[..k]), c) {
      repoOf, worlds, b := HeadMissed(refs, line, k, out);
    } else {
      repoOf := ONE_REPO;
      if m :| target.Updates? && m in target.branches && m !in out.branches {
        b := m;
      } else {
        b := OtherName(out.branches);
      }
      worlds := Still(refs, line, k, repoOf, Everywhere(None));
      NoHeadNoCover(out, repoOf, None, b);
    }
    assert SpecGoesTo(AllRefs(refs, line[..k]), spec, Deletes(c.git.pushArgs), c.globals, GitPlace(worlds[k].cwd, c.globals, c.elsewhere), repoOf, worlds[k].heads, b);
    SpecPushed(AllRefs(refs, line[..k]), c, repoOf, worlds[k], spec, b);
    NotCovered(refs, line, out, k, repoOf, worlds, b);
  }

  /**
   * For every line and every answer: the answer covers every push of every run, in every layout of
   * worktrees, if and only if it gives up or says what each push may update.
   */
  lemma CoveredExactly(refs: Refs, line: seq<Command>, out: Targets)
    ensures AllCovered(refs, line, out) <==> SaysAll(out, refs, line)
  {
    hide AllCovered, PushSaid, KnownAfter;
    if SaysAll(out, refs, line) {
      SaysCovers(refs, line, out);
    } else {
      var k :| 0 <= k < |line| && IsPush(line[k]) && !PushSaid(out, KnownAfter(refs, line[..k]), line[k]);
      PushMissed(refs, line, k, out);
    }
  }
}
