/** The loops of the push analysis: the line state and the answer updated command by command. */
module PushReader {
  import opened Common
  import opened PushText
  import opened PushAnalysis

  /** The Git invocation at word `at`, if there is one. */
  method GitCall(words: seq<string>, at: nat) returns (found: Option<Call>)
    ensures found == if at < |words| && IsGitProgram(words[at]) then Some(CallAt(words, at)) else None
  {
    hide InsideWorkingFolder, UnreadablePath, BeforeFirst, AfterFirst, IsGitProgram;
    if at >= |words| || !IsGitProgram(words[at]) {
      return None;
    }
    var call := Call(at, None, |words|, [], [], false);
    var i := at + 1;
    while i < |words|
      invariant CallAt(words, at) == Globals(words, i, call)
      decreases |words| - i
    {
      var w := words[i];
      if w == "--" {
        break;
      }
      if !IsOption(w) {
        call := call.(sub := Some(i));
        break;
      }
      if w == "-c" {
        call := call.(configs := call.configs + [WordAt(words, i + 1)]);
        i := i + 1;
      } else if w == "-C" {
        var dir := WordAt(words, i + 1);
        if !InsideWorkingFolder(dir) || UnreadablePath(dir) {
          call := call.(elsewhere := true);
        } else {
          call := call.(chdir := call.chdir + [dir]);
        }
        i := i + 1;
      } else if IsKey(w, "--config-env") {
        var value := if '=' in w then AfterFirst(w, '=') else WordAt(words, i + 1);
        if '=' !in w {
          i := i + 1;
        }
        call := call.(configs := call.configs + [BeforeFirst(value, '=') + "="]);
      } else if IsKey(w, "--git-dir") || IsKey(w, "--work-tree") {
        call := call.(elsewhere := true);
        if '=' !in w {
          i := i + 1;
        }
      } else if w in {"--namespace", "--super-prefix", "--attr-source"} {
        i := i + 1;
      }
      i := i + 1;
    }
    return Some(call);
  }

  /** Calls found so far, the last ending where the rest begin. */
  function Linked(calls: seq<Call>, rest: seq<Call>): seq<Call> {
    if calls == [] || rest == [] then calls + rest
    else calls[..|calls| - 1] + [calls[|calls| - 1].(end := rest[0].at)] + rest
  }

  lemma LinkOne(calls: seq<Call>, call: Call, rest: seq<Call>)
    ensures Linked(calls, [if rest == [] then call else call.(end := rest[0].at)] + rest) == Linked(Linked(calls, [call]), rest)
  {
  }

  lemma CallsStep(words: seq<string>, i: nat)
    requires i < |words|
    ensures !IsGitProgram(words[i]) ==> CallsFrom(words, i) == CallsFrom(words, i + 1)
    ensures IsGitProgram(words[i]) ==>
              var call := CallAt(words, i);
              var rest := if call.sub.Some? then CallsFrom(words, call.sub.value + 1) else [];
              CallsFrom(words, i) == [if rest == [] then call else call.(end := rest[0].at)] + rest
  {
    hide IsGitProgram, Globals;
  }

  /** The uses of Git in a command, in order, cut so that none overlaps the next. */
  method GitCalls(words: seq<string>) returns (calls: seq<Call>)
    ensures calls == CallsFrom(words, 0)
  {
    hide Linked, CallsFrom, IsGitProgram, CallAt;
    calls := [];
    var i := 0;
    LinkedToNothing(CallsFrom(words, 0));
    while i < |words|
      invariant CallsFrom(words, 0) == Linked(calls, CallsFrom(words, i))
      decreases |words| - i
    {
      CallsStep(words, i);
      var found := GitCall(words, i);
      if found.Some? {
        var call := found.value;
        LinkOne(calls, call, if call.sub.Some? then CallsFrom(words, call.sub.value + 1) else []);
        calls := Appended(calls, call);
        if call.sub.None? {
          NothingLinked(calls);
          return;
        }
        i := call.sub.value;
      }
      i := i + 1;
    }
    NothingLinked(calls);
    assert CallsFrom(words, i) == [] by { NoWordsLeft(words, i); }
  }

  /** The previous call ends where this one begins. */
  method Appended(calls: seq<Call>, call: Call) returns (calls': seq<Call>)
    ensures calls' == Linked(calls, [call])
  {
    calls' := calls;
    if calls != [] {
      calls' := calls[..|calls| - 1] + [calls[|calls| - 1].(end := call.at)];
    }
    calls' := calls' + [call];
  }

  lemma LinkedToNothing(rest: seq<Call>)
    ensures Linked([], rest) == rest
  {
  }

  lemma NothingLinked(calls: seq<Call>)
    ensures Linked(calls, []) == calls
  {
  }

  lemma NoWordsLeft(words: seq<string>, i: nat)
    requires i >= |words|
    ensures CallsFrom(words, i) == []
  {
  }

  /** The branch `git checkout|switch` with these arguments moves to. */
  method ReadSwitch(args: seq<string>) returns (to: Switch)
    ensures to == SwitchesTo(args, None, false, [])
  {
    hide Decided;
    var created: Option<string> := None;
    var tracks := false;
    var operands: seq<string> := [];
    var i := 0;
    assert args[0..] == args;
    while i < |args|
      invariant i <= |args|
      invariant SwitchesTo(args, None, false, []) == SwitchesTo(args[i..], created, tracks, operands)
    {
      var w := args[i];
      assert args[i..][0] == w && args[i..][1..] == args[i + 1..];
      assert |args[i..]| > 1 ==> args[i..][2..] == args[i + 2..] && args[i..][1] == args[i + 1];
      if w == "--" {
        if created.None? {
          return Stays;
        }
        return Decided(created, tracks, operands);
      }
      if CreatesBranch(w) {
        if i + 1 == |args| {
          return Decided(Some(""), tracks, operands);
        }
        created := Some(args[i + 1]);
        i := i + 1;
      } else if Tracks(w) {
        tracks := true;
      } else if Detaches(w) {
        return Stays;
      } else if TakesPath(w) {
        if i + 1 == |args| {
          assert SwitchesTo([], created, tracks, operands) == Decided(created, tracks, operands);
          return Decided(created, tracks, operands);
        }
        i := i + 1;
      } else if Operand(w) {
        operands := operands + [w];
      }
      i := i + 1;
    }
    return Decided(created, tracks, operands);
  }

  method ReadArguments(args: seq<string>) returns (operands: seq<string>, dryRun: bool, tagsOnly: bool, every: bool, unknown: bool)
    ensures PushRead(operands, dryRun, tagsOnly, every, unknown) == ReadArgs(args, NOTHING_READ)
  {
    hide PushLongOption, LongRead, Cluster;
    operands, dryRun, tagsOnly, every, unknown := [], false, false, false, false;
    var i := 0;
    assert args[0..] == args;
    while i < |args|
      invariant i <= |args|
      invariant ReadArgs(args, NOTHING_READ) == ReadArgs(args[i..], PushRead(operands, dryRun, tagsOnly, every, unknown))
    {
      var w := args[i];
      assert args[i..][0] == w && args[i..][1..] == args[i + 1..];
      assert |args[i..]| > 1 ==> args[i..][2..] == args[i + 2..];
      if w == "--" {
        operands := operands + args[i + 1..];
        return;
      }
      if Operand(w) {
        operands := operands + [w];
      } else {
        var takes: bool;
        if "--" <= w {
          dryRun, tagsOnly, every, unknown, takes := ReadLong(w[2..], operands, dryRun, tagsOnly, every, unknown);
        } else {
          dryRun, unknown, takes := ReadCluster(w, operands, dryRun, tagsOnly, every, unknown);
        }
        if takes && i + 1 < |args| {
          i := i + 1;
        }
      }
      i := i + 1;
    }
  }

  method ReadLong(text: string, operands: seq<string>, dryRun: bool, tagsOnly: bool, every: bool, unknown: bool)
      returns (dryRun': bool, tagsOnly': bool, every': bool, unknown': bool, takes: bool)
    ensures (PushRead(operands, dryRun', tagsOnly', every', unknown'), takes)
         == LongRead(PushLongOption(text), PushRead(operands, dryRun, tagsOnly, every, unknown))
  {
    hide PushLongOption, RoleOf;
    dryRun', tagsOnly', every', unknown', takes := dryRun, tagsOnly, every, unknown, false;
    var option := PushLongOption(text);
    if option.None? {
      unknown' := true;
    } else {
      match RoleOf(option.value.name)
      case DryRuns => dryRun' := !option.value.negated;
      case PushesAll => every' := every || !option.value.negated;
      case Mirrors => every' := every || !option.value.negated;
      case PushesTags => tagsOnly' := !option.value.negated;
      case _ => takes := option.value.kind == Value && !option.value.negated && option.value.value.None?;
    }
  }

  method ReadCluster(w: string, operands: seq<string>, dryRun: bool, tagsOnly: bool, every: bool, unknown: bool)
      returns (dryRun': bool, unknown': bool, takes: bool)
    ensures (PushRead(operands, dryRun', tagsOnly, every, unknown'), takes) == Cluster(w, 1, PushRead(operands, dryRun, tagsOnly, every, unknown))
  {
    dryRun', unknown', takes := dryRun, unknown, false;
    var k := 1;
    while k < |w|
      invariant unknown' == unknown && !takes && 1 <= k
      invariant Cluster(w, 1, PushRead(operands, dryRun, tagsOnly, every, unknown)) == Cluster(w, k, PushRead(operands, dryRun', tagsOnly, every, unknown'))
      decreases |w| - k
    {
      if w[k] == 'n' {
        dryRun' := true;
      } else if w[k] == 'o' {
        takes := k == |w| - 1;
        return;
      } else if w[k] !in "vqfdu46" {
        unknown' := true;
        return;
      }
      k := k + 1;
    }
  }

  // ----- the line -----

  class LineState {
    var switched: seq<string>
    var unreadable: bool
    var dirs: seq<string>

    ghost function Value(): Line
      reads this
    {
      Line(switched, unreadable, dirs)
    }

    constructor ()
      ensures Value() == NEW_LINE
    {
      switched, unreadable, dirs := [], false, [""];
    }

    /** The folders moved to, until there are too many to follow. */
    method MoveDirs(to: string)
      modifies this`dirs, this`unreadable
      ensures dirs == DirsMoved(old(dirs), old(dirs), to)
      ensures unreadable == (old(unreadable) || |dirs| > MAX_DIRS)
    {
      hide JoinDir;
      var before := dirs;
      var i := 0;
      assert before[0..] == before;
      while i < |before| && |dirs| <= MAX_DIRS
        invariant i <= |before| && unreadable == old(unreadable)
        invariant DirsMoved(before, before, to) == DirsMoved(dirs, before[i..], to)
      {
        assert before[i..][0] == before[i] && before[i..][1..] == before[i + 1..];
        dirs := AddNew(dirs, JoinDir(before[i], [to]));
        i := i + 1;
      }
      if |dirs| > MAX_DIRS {
        unreadable := true;
      }
    }

    method SwitchTo(name: string)
      modifies this`switched, this`unreadable
      ensures Value() == SwitchedTo(old(Value()), name)
    {
      if UnreadableRef(name) || '*' in name {
        unreadable := true;
      } else {
        switched := switched + [StripHeads(name)];
      }
    }

    method NoteCall(words: seq<string>, call: Call)
      requires CallOk(words, call)
      modifies this`switched, this`unreadable
      ensures Value() == NotedCall(old(Value()), words, call)
    {
      hide SwitchesTo, SetsUpstream, Renames, NonOptions, StripHeads, SwitchedTo, Lower;
      if call.elsewhere {
        unreadable := true;
      }
      if call.sub.None? {
        return;
      }
      var sub := Lower(words[call.sub.value]);
      var args := words[call.sub.value + 1..call.end];
      if sub == "checkout" || sub == "switch" {
        var to := ReadSwitch(args);
        match to
        case Stays =>
        case CannotRead => unreadable := true;
        case To(b) => switched := switched + [b];
      } else if sub == "branch" {
        if exists w :: w in args && SetsUpstream(w) {
          unreadable := true;
        }
        var names := NonOptions(args);
        if (exists w :: w in args && Renames(w)) && names != [] {
          SwitchTo(names[|names| - 1]);
        }
      } else if sub == "stash" && args != [] && args[0] == "branch" {
        if |args| > 1 {
          SwitchTo(args[1]);
        }
      } else if sub == "symbolic-ref" {
        var operands := NonOptions(args);
        if |operands| >= 2 {
          switched := switched + [StripHeads(operands[1])];
        }
      }
    }

    /** What a command leaves for later pushes. */
    method Note(site: Site)
      modifies this
      ensures Value() == Noted(old(Value()), site)
    {
      hide NotedCall, DirsMoved, DirectoryChange, CallsFrom;
      if site.elsewhere || site.touches {
        unreadable := true;
      }
      ghost var marked := Value();
      var move := DirectoryChange(site.words);
      if move == Leave {
        unreadable := true;
      } else if move.MoveTo? {
        MoveDirs(move.to);
      }
      ghost var moved := Value();
      assert moved == NotedMove(marked, site.words);
      var calls := GitCalls(site.words);
      assert calls[0..] == calls;
      for i := 0 to |calls|
        invariant forall c :: c in calls ==> CallOk(site.words, c)
        invariant forall c :: c in calls[i..] ==> CallOk(site.words, c)
        invariant NotedCalls(moved, site.words, calls) == NotedCalls(Value(), site.words, calls[i..])
      {
        assert calls[i..][0] == calls[i] && calls[i..][1..] == calls[i + 1..];
        NoteCall(site.words, calls[i]);
      }
    }
  }

  // ----- the answer -----

  class PushTargets {
    var branches: seq<string>
    var current: bool
    var every: bool
    var unknown: bool
    var dirs: seq<string>

    ghost function Value(): Targets
      reads this
    {
      Targets(branches, current, every, unknown, dirs)
    }

    constructor ()
      ensures Value() == NO_TARGETS
    {
      branches, current, every, unknown, dirs := [], false, false, false, [];
    }

    method NoteHead(site: Site, call: Call, state: LineState)
      modifies this
      ensures Value() == HeadNoted(old(Value()), site, call, state.Value())
    {
      hide CallDirs, NonEmpty, PushConfigKey, BeforeFirst;
      if state.unreadable || call.elsewhere || site.elsewhere || exists kv :: kv in call.configs && PushConfigKey(BeforeFirst(kv, '=')) {
        unknown := true;
      } else {
        current := true;
        branches := branches + state.switched;
        dirs := dirs + NonEmpty(CallDirs(state.dirs, call.chdir));
      }
    }

    method NoteSpec(spec: string, site: Site, call: Call, state: LineState)
      modifies this
      ensures Value() == SpecNoted(old(Value()), spec, site, call, state.Value())
    {
      hide HeadNoted, AfterFirst, UnreadableRef, HasAny, IsHead, OtherRef, StripHeads;
      var plain := Unforced(spec);
      if plain == ":" {
        every := true;
        return;
      }
      var destination := if ':' in plain then AfterFirst(plain, ':') else plain;
      if destination == "" {
      } else if '*' in destination {
        every := true;
      } else if UnreadableRef(destination) || destination == "-" || HasAny(plain, "!$`") {
        unknown := true;
      } else if IsHead(destination) {
        NoteHead(site, call, state);
      } else if !OtherRef(destination) {
        branches := branches + [StripHeads(destination)];
      }
    }

    method NotePush(site: Site, call: Call, state: LineState)
      requires CallOk(site.words, call) && call.sub.Some?
      modifies this
      ensures Value() == PushNoted(old(Value()), site, call, state.Value())
    {
      hide ReadArgs, HeadNoted, SpecNoted, UnreadableRemote;
      var operands, dryRun, tagsOnly, pushesEvery, odd := ReadArguments(site.words[call.sub.value + 1..call.end]);
      unknown := unknown || odd;
      if dryRun {
        return;
      }
      every := every || pushesEvery;
      unknown := unknown || site.appended || (operands != [] && UnreadableRemote(operands[0]));
      if |operands| <= 1 {
        if !pushesEvery && !tagsOnly {
          NoteHead(site, call, state);
        }
        return;
      }
      var specs := operands[1..];
      ghost var before := Value();
      assert specs[0..] == specs;
      for i := 0 to |specs|
        invariant state.Value() == old(state.Value())
        invariant SpecsNoted(before, specs, site, call, state.Value()) == SpecsNoted(Value(), specs[i..], site, call, state.Value())
      {
        assert specs[i..][0] == specs[i] && specs[i..][1..] == specs[i + 1..];
        NoteSpec(specs[i], site, call, state);
      }
    }

    method NoteSite(site: Site, state: LineState)
      modifies this
      ensures Value() == CallsRead(old(Value()), site, CallsFrom(site.words, 0), state.Value())
    {
      hide PushNoted, CallsFrom, GitRuns;
      var calls := GitCalls(site.words);
      assert calls[0..] == calls;
      for i := 0 to |calls|
        invariant forall c :: c in calls ==> CallOk(site.words, c)
        invariant forall c :: c in calls[i..] ==> CallOk(site.words, c)
        invariant CallsRead(old(Value()), site, calls, state.Value()) == CallsRead(Value(), site, calls[i..], state.Value())
      {
        assert calls[i..][0] == calls[i] && calls[i..][1..] == calls[i + 1..];
        var call := calls[i];
        if call.sub.Some? {
          var runs := GitRuns(site, call);
          if runs == RunsPush {
            if call.at > 0 {
              unknown := true;
            }
            NotePush(site, call, state);
          } else if runs == RunsUnknown {
            unknown := true;
          }
        }
      }
    }
  }

  /** Where the pushes of a line go: each command's pushes are read before what it leaves for later ones. */
  method ReadPushes(sites: seq<Site>) returns (out: PushTargets)
    ensures fresh(out) && out.Value() == TargetsOf(sites)
  {
    hide CallsRead, CallsFrom, Noted;
    out := new PushTargets();
    var state := new LineState();
    for i := 0 to |sites|
      invariant fresh(out) && fresh(state)
      invariant out.Value() == TargetsOf(sites[..i]) && state.Value() == LineAfter(sites[..i])
    {
      assert sites[..i + 1][..i] == sites[..i] && sites[..i + 1][i] == sites[i];
      out.NoteSite(sites[i], state);
      state.Note(sites[i]);
    }
    assert sites[..|sites|] == sites;
  }
}
