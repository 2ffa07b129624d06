/**
 * The branches that the pushes of a line may update, as its commands' words tell
 * (packages/security/src/commands.ts). The functions say what each step reads; the methods below
 * them are the loops.
 */
module PushAnalysis {
  import opened Common
  import opened PushText

  /** A command as its words, and what surrounds it: a wrapper adding words, a wrapper running it elsewhere, text that edits Git's state. */
  datatype Site = Site(words: seq<string>, appended: bool, elsewhere: bool, touches: bool)

  /** One use of Git in a command: where its name is, its subcommand, its end, and its global options. */
  datatype Call = Call(at: nat, sub: Option<nat>, end: nat, configs: seq<string>, chdir: seq<string>, elsewhere: bool)

  datatype Line = Line(switched: seq<string>, unreadable: bool, dirs: seq<string>)

  datatype Targets = Targets(branches: seq<string>, current: bool, every: bool, unknown: bool, dirs: seq<string>)

  const NEW_LINE := Line([], false, [""])
  const NO_TARGETS := Targets([], false, false, false, [])

  /** Folders followed before the analysis gives up. */
  const MAX_DIRS: nat := 16

  predicate IsOption(w: string) {
    "-" <= w
  }

  predicate Operand(w: string) {
    !IsOption(w) || w == "-"
  }

  function WordAt(words: seq<string>, i: nat): string {
    if i < |words| then words[i] else ""
  }

  /** The key written alone or with `=…`. */
  predicate IsKey(w: string, key: string) {
    w == key || key + "=" <= w
  }

  lemma NotKey(w: string, key: string, k: nat)
    requires k < |key| && (k < |w| ==> w[k] != key[k])
    ensures !IsKey(w, key)
  {
    PrefixAgrees(key, w, k);
    PrefixAgrees(key + "=", w, k);
  }

  // ----- the Git invocations of a command -----

  function Globals(words: seq<string>, i: nat, call: Call): (c: Call)
    ensures c.at == call.at && c.end == call.end
    ensures c.sub.Some? ==> c.sub == call.sub || (i <= c.sub.value < |words|)
    decreases |words| - i
  {
    if i >= |words| then call
    else
      var w := words[i];
      if w == "--" then call
      else if !IsOption(w) then call.(sub := Some(i))
      else if w == "-c" then Globals(words, i + 2, call.(configs := call.configs + [WordAt(words, i + 1)]))
      else if w == "-C" then
        var dir := WordAt(words, i + 1);
        Globals(words, i + 2,
          if !InsideWorkingFolder(dir) || UnreadablePath(dir) then call.(elsewhere := true) else call.(chdir := call.chdir + [dir]))
      else if IsKey(w, "--config-env") then
        var value := if '=' in w then AfterFirst(w, '=') else WordAt(words, i + 1);
        Globals(words, if '=' in w then i + 1 else i + 2, call.(configs := call.configs + [BeforeFirst(value, '=') + "="]))
      else if IsKey(w, "--git-dir") || IsKey(w, "--work-tree") then
        Globals(words, if '=' in w then i + 1 else i + 2, call.(elsewhere := true))
      else if w in {"--namespace", "--super-prefix", "--attr-source"} then Globals(words, i + 2, call)
      else Globals(words, i + 1, call)
  }

  function CallAt(words: seq<string>, at: nat): Call {
    Globals(words, at + 1, Call(at, None, |words|, [], [], false))
  }

  predicate CallOk(words: seq<string>, call: Call) {
    call.sub.Some? ==> call.at < call.sub.value < call.end <= |words|
  }

  /** Every invocation from word `i` on; each ends where the next begins. */
  function CallsFrom(words: seq<string>, i: nat): (calls: seq<Call>)
    ensures forall c :: c in calls ==> CallOk(words, c) && i <= c.at < |words|
    decreases |words| - i
  {
    if i >= |words| then []
    else if !IsGitProgram(words[i]) then CallsFrom(words, i + 1)
    else
      var call := CallAt(words, i);
      if call.sub.None? then [call]
      else
        var rest := CallsFrom(words, call.sub.value + 1);
        var first := if rest == [] then call else call.(end := rest[0].at);
        assert rest != [] ==> rest[0] in rest;
        assert CallOk(words, first);
        [first] + rest
  }

  // ----- git checkout and git switch -----

  /** No branch changes; one that cannot be read, or an upstream with it; a branch by name. */
  datatype Switch = Stays | CannotRead | To(branch: string)

  predicate CreatesBranch(w: string) {
    w in {"-b", "-B", "-c", "-C", "--orphan"}
  }

  predicate Tracks(w: string) {
    w == "-t" || IsKey(w, "--track")
  }

  predicate Detaches(w: string) {
    w == "-d" || w == "--detach"
  }

  predicate TakesPath(w: string) {
    w == "--conflict" || w == "--pathspec-from-file"
  }

  predicate UnreadableBranch(target: string) {
    target == "-" || "@{" <= target || UnreadableRef(target) || '*' in target
  }

  function Decided(created: Option<string>, tracks: bool, operands: seq<string>): Switch {
    if created.None? && operands == [] then Stays
    else
      var target := if created.Some? then created.value else operands[0];
      if UnreadableBranch(target) then CannotRead
      else if tracks || (created.Some? && exists o :: o in operands && '/' in o) then CannotRead
      else To(StripHeads(target))
  }

  function SwitchesTo(args: seq<string>, created: Option<string>, tracks: bool, operands: seq<string>): Switch
    decreases |args|
  {
    if args == [] then Decided(created, tracks, operands)
    else
      var w := args[0];
      if w == "--" then (if created.None? then Stays else Decided(created, tracks, operands))
      else if CreatesBranch(w) then
        if |args| > 1 then SwitchesTo(args[2..], Some(args[1]), tracks, operands) else Decided(Some(""), tracks, operands)
      else if Tracks(w) then SwitchesTo(args[1..], created, true, operands)
      else if Detaches(w) then Stays
      else if TakesPath(w) then SwitchesTo(if |args| > 1 then args[2..] else [], created, tracks, operands)
      else SwitchesTo(args[1..], created, tracks, if Operand(w) then operands + [w] else operands)
  }

  // ----- what a command leaves for later pushes -----

  function SwitchedTo(line: Line, name: string): Line {
    if UnreadableRef(name) || '*' in name then line.(unreadable := true)
    else line.(switched := line.switched + [StripHeads(name)])
  }

  predicate SetsUpstream(w: string) {
    w == "-u" || w == "-t" || IsKey(w, "--track") || IsKey(w, "--set-upstream-to")
  }

  /** `-m` or `-M`, alone or in a cluster, or a prefix of `--move`. */
  predicate Renames(w: string) {
    || w in {"--mo", "--mov", "--moe", "--move"}
    || (IsOption(w) && exists k :: 1 <= k < |w| && (w[k] == 'm' || w[k] == 'M') && forall j :: 1 <= j < k ==> Letter(w[j]))
  }

  function NonOptions(args: seq<string>): seq<string> {
    if args == [] then [] else (if IsOption(args[0]) then [] else [args[0]]) + NonOptions(args[1..])
  }

  function NotedCall(line: Line, words: seq<string>, call: Call): Line
    requires CallOk(words, call)
  {
    var l := if call.elsewhere then line.(unreadable := true) else line;
    if call.sub.None? then l
    else
      var sub := Lower(words[call.sub.value]);
      var args := words[call.sub.value + 1..call.end];
      if sub == "checkout" || sub == "switch" then
        match SwitchesTo(args, None, false, [])
        case Stays => l
        case CannotRead => l.(unreadable := true)
        case To(b) => l.(switched := l.switched + [b])
      else if sub == "branch" then
        var l' := if exists w :: w in args && SetsUpstream(w) then l.(unreadable := true) else l;
        var names := NonOptions(args);
        if (exists w :: w in args && Renames(w)) && names != [] then SwitchedTo(l', names[|names| - 1]) else l'
      else if sub == "stash" && args != [] && args[0] == "branch" then
        if |args| > 1 then SwitchedTo(l, args[1]) else l
      else if sub == "symbolic-ref" then
        var operands := NonOptions(args);
        if |operands| >= 2 then l.(switched := l.switched + [StripHeads(operands[1])]) else l
      else l
  }

  datatype Move = NoMove | Leave | MoveTo(to: string)

  predicate PathFlag(w: string) {
    Lower(w) == "-path" || Lower(w) == "-literalpath"
  }

  function FlaggedPath(args: seq<string>): Option<string> {
    if args == [] then None
    else if PathFlag(args[0]) then Some(WordAt(args, 1))
    else FlaggedPath(args[1..])
  }

  function FirstOperand(args: seq<string>): string {
    if args == [] then "" else if Operand(args[0]) then args[0] else FirstOperand(args[1..])
  }

  function DirectoryChange(words: seq<string>): Move {
    if !ChangesDirectory(WordAt(words, 0)) then NoMove
    else
      var args := if words == [] then [] else words[1..];
      var flagged := FlaggedPath(args);
      var target := if flagged.Some? then flagged.value else FirstOperand(args);
      if target == "" || !InsideWorkingFolder(target) || UnreadablePath(target) then Leave else MoveTo(target)
  }

  function AddNew(xs: seq<string>, x: string): seq<string> {
    if x in xs then xs else xs + [x]
  }

  /** Each folder of `from` moved by `to`, until there are too many. */
  function DirsMoved(dirs: seq<string>, from: seq<string>, to: string): seq<string>
    decreases |from|
  {
    if from == [] || |dirs| > MAX_DIRS then dirs else DirsMoved(AddNew(dirs, JoinDir(from[0], [to])), from[1..], to)
  }

  function NotedMove(line: Line, words: seq<string>): Line {
    match DirectoryChange(words)
    case NoMove => line
    case Leave => line.(unreadable := true)
    case MoveTo(to) =>
      var dirs := DirsMoved(line.dirs, line.dirs, to);
      Line(line.switched, line.unreadable || |dirs| > MAX_DIRS, dirs)
  }

  function NotedCalls(line: Line, words: seq<string>, calls: seq<Call>): Line
    requires forall c :: c in calls ==> CallOk(words, c)
    decreases |calls|
  {
    if calls == [] then line else NotedCalls(NotedCall(line, words, calls[0]), words, calls[1..])
  }

  function Noted(line: Line, site: Site): Line {
    var l := if site.elsewhere || site.touches then line.(unreadable := true) else line;
    NotedCalls(NotedMove(l, site.words), site.words, CallsFrom(site.words, 0))
  }

  // ----- git push -----

  datatype Kind = Flag | Value | Optional

  /** What a long option does to a push. */
  datatype Role = DryRuns | PushesAll | Mirrors | PushesTags | TakesValue | Other

  function RoleOf(name: string): Role {
    if name == "dry-run" then DryRuns
    else if name == "all" || name == "branches" then PushesAll
    else if name == "mirror" then Mirrors
    else if name == "tags" then PushesTags
    else if name in {"repo", "recurse-submodules", "receive-pack", "exec", "push-option"} then TakesValue
    else Other
  }

  datatype LongOption = LongOption(name: string, negated: bool, kind: Kind, value: Option<string>)

  datatype Form = Form(form: string, name: string, negated: bool, kind: Kind)

  const FIRST_OPTIONS: seq<(string, Kind)> := [
    ("verbose", Flag), ("quiet", Flag), ("repo", Value), ("all", Flag), ("branches", Flag), ("mirror", Flag), ("delete", Flag),
    ("tags", Flag), ("dry-run", Flag)]
  const NEXT_OPTIONS: seq<(string, Kind)> := [
    ("porcelain", Flag), ("force", Flag), ("force-with-lease", Optional), ("force-if-includes", Flag), ("recurse-submodules", Value),
    ("thin", Flag), ("receive-pack", Value), ("exec", Value), ("set-upstream", Flag), ("progress", Flag)]
  const LAST_OPTIONS: seq<(string, Kind)> := [
    ("prune", Flag), ("no-verify", Flag), ("verify", Flag), ("follow-tags", Flag), ("signed", Optional), ("atomic", Flag),
    ("push-option", Value), ("ipv4", Flag), ("ipv6", Flag)]

  /** The long options of `git push`. */
  const PUSH_OPTIONS := FIRST_OPTIONS + NEXT_OPTIONS + LAST_OPTIONS

  function Forms(table: seq<(string, Kind)>): seq<Form> {
    if table == [] then []
    else
      var (name, kind) := table[0];
      [Form(name, name, false, kind), Form("no-" + name, name, true, kind)] + Forms(table[1..])
  }

  function Exact(forms: seq<Form>, key: string): Option<Form> {
    if forms == [] then None else if forms[0].form == key then Some(forms[0]) else Exact(forms[1..], key)
  }

  function Prefixed(forms: seq<Form>, key: string): seq<Form> {
    if forms == [] then [] else (if key <= forms[0].form then [forms[0]] else []) + Prefixed(forms[1..], key)
  }

  /** A long option without its `--`: exact, negated, or a unique prefix; none when Git would refuse it. */
  function PushLongOption(text: string): Option<LongOption> {
    var key := BeforeFirst(text, '=');
    var value := if '=' in text then Some(AfterFirst(text, '=')) else None;
    var forms := Forms(PUSH_OPTIONS);
    if key == "" then None
    else if Exact(forms, key).Some? then
      var f := Exact(forms, key).value;
      Some(LongOption(f.name, f.negated, f.kind, value))
    else if |Prefixed(forms, key)| == 1 then
      var f := Prefixed(forms, key)[0];
      Some(LongOption(f.name, f.negated, f.kind, value))
    else None
  }

  datatype PushRead = PushRead(operands: seq<string>, dryRun: bool, tagsOnly: bool, every: bool, unknown: bool)

  const NOTHING_READ := PushRead([], false, false, false, false)

  /** A short option cluster from letter `k`, and whether it takes the next word. */
  function Cluster(w: string, k: nat, acc: PushRead): (PushRead, bool)
    decreases |w| - k
  {
    if k >= |w| then (acc, false)
    else if w[k] == 'n' then Cluster(w, k + 1, acc.(dryRun := true))
    else if w[k] == 'o' then (acc, k == |w| - 1)
    else if w[k] in "vqfdu46" then Cluster(w, k + 1, acc)
    else (acc.(unknown := true), false)
  }

  /** A long option, and whether it takes the next word. */
  function LongRead(o: Option<LongOption>, acc: PushRead): (PushRead, bool) {
    if o.None? then (acc.(unknown := true), false)
    else
      var LongOption(name, negated, kind, value) := o.value;
      match RoleOf(name)
      case DryRuns => (acc.(dryRun := !negated), false)
      case PushesAll => (acc.(every := acc.every || !negated), false)
      case Mirrors => (acc.(every := acc.every || !negated), false)
      case PushesTags => (acc.(tagsOnly := !negated), false)
      case _ => (acc, kind == Value && !negated && value.None?)
  }

  function ReadArgs(args: seq<string>, acc: PushRead): PushRead
    decreases |args|
  {
    if args == [] then acc
    else
      var w := args[0];
      if w == "--" then acc.(operands := acc.operands + args[1..])
      else if Operand(w) then ReadArgs(args[1..], acc.(operands := acc.operands + [w]))
      else
        var (acc', takes) := if "--" <= w then LongRead(PushLongOption(w[2..]), acc) else Cluster(w, 1, acc);
        ReadArgs(if takes && |args| > 1 then args[2..] else args[1..], acc')
  }

  function CallDirs(dirs: seq<string>, chdir: seq<string>): seq<string> {
    if dirs == [] then [] else AddNew(CallDirs(dirs[..|dirs| - 1], chdir), JoinDir(dirs[|dirs| - 1], chdir))
  }

  function NonEmpty(xs: seq<string>): seq<string> {
    if xs == [] then [] else (if xs[0] == "" then [] else [xs[0]]) + NonEmpty(xs[1..])
  }

  /** A push of HEAD. */
  function HeadNoted(out: Targets, site: Site, call: Call, line: Line): Targets {
    if line.unreadable || call.elsewhere || site.elsewhere || exists kv :: kv in call.configs && PushConfigKey(BeforeFirst(kv, '=')) then
      out.(unknown := true)
    else
      out.(current := true, branches := out.branches + line.switched, dirs := out.dirs + NonEmpty(CallDirs(line.dirs, call.chdir)))
  }

  predicate IsHead(destination: string) {
    Lower(destination) == "head" || destination == "@"
  }

  predicate OtherRef(destination: string) {
    |destination| >= 5 && Lower(destination[..5]) == "refs/" && !(|destination| >= 11 && Lower(destination[..11]) == "refs/heads/")
  }

  function Unforced(spec: string): string {
    if "+" <= spec then spec[1..] else spec
  }

  function SpecNoted(out: Targets, spec: string, site: Site, call: Call, line: Line): Targets {
    var plain := Unforced(spec);
    if plain == ":" then out.(every := true)
    else
      var destination := if ':' in plain then AfterFirst(plain, ':') else plain;
      if destination == "" then out
      else if '*' in destination then out.(every := true)
      else if UnreadableRef(destination) || destination == "-" || HasAny(plain, "!$`") then out.(unknown := true)
      else if IsHead(destination) then HeadNoted(out, site, call, line)
      else if OtherRef(destination) then out
      else out.(branches := out.branches + [StripHeads(destination)])
  }

  function SpecsNoted(out: Targets, specs: seq<string>, site: Site, call: Call, line: Line): Targets
    decreases |specs|
  {
    if specs == [] then out else SpecsNoted(SpecNoted(out, specs[0], site, call, line), specs[1..], site, call, line)
  }

  /** The options of a push, once it is no dry run. */
  function OptionsNoted(out: Targets, read: PushRead, site: Site): Targets {
    out.(every := out.every || read.every,
         unknown := out.unknown || site.appended || (read.operands != [] && UnreadableRemote(read.operands[0])))
  }

  function PushNoted(out: Targets, site: Site, call: Call, line: Line): Targets
    requires CallOk(site.words, call) && call.sub.Some?
  {
    var read := ReadArgs(site.words[call.sub.value + 1..call.end], NOTHING_READ);
    var out0 := out.(unknown := out.unknown || read.unknown);
    if read.dryRun then out0
    else
      var out1 := OptionsNoted(out0, read, site);
      if |read.operands| <= 1 then (if read.every || read.tagsOnly then out1 else HeadNoted(out1, site, call, line))
      else SpecsNoted(out1, read.operands[1..], site, call, line)
  }

  // ----- what an invocation runs -----

  /** Git's own commands; no alias hides one of them. */
  predicate BuiltinA(sub: string) {
    sub in {
      "add", "am", "annotate", "apply", "archive", "backfill", "bisect", "blame", "branch", "bugreport", "bundle",
      "cat-file", "check-attr", "check-ignore", "check-mailmap", "check-ref-format", "checkout", "checkout-index",
      "cherry", "cherry-pick", "citool", "clean", "clone", "column", "commit", "commit-graph", "commit-tree", "config",
      "count-objects", "credential", "credential-cache", "credential-store", "daemon", "describe", "diagnose"}
  }

  predicate BuiltinC(sub: string) {
    sub in {
      "diff", "diff-files", "diff-index", "diff-pairs", "diff-tree", "difftool", "fast-export", "fast-import", "fetch",
      "fetch-pack", "filter-branch", "fmt-merge-msg", "for-each-ref", "for-each-repo", "format-patch", "fsck",
      "fsmonitor--daemon", "gc", "get-tar-commit-id", "gitk", "grep", "gui", "hash-object", "help", "hook",
      "http-backend", "http-fetch", "imap-send", "index-pack", "init", "instaweb", "interpret-trailers",
      "last-modified", "log", "ls-files"}
  }

  predicate BuiltinF(sub: string) {
    sub in {
      "ls-remote", "ls-tree", "mailinfo", "mailsplit", "maintenance", "merge", "merge-base", "merge-file",
      "merge-index", "merge-one-file", "merge-tree", "mergetool", "mktag", "mktree", "multi-pack-index", "mv",
      "name-rev", "notes", "p4", "pack-objects", "pack-redundant", "pack-refs", "patch-id", "prune", "prune-packed",
      "pull", "range-diff", "read-tree", "rebase", "receive-pack", "reflog", "refs", "remote", "repack", "replace"}
  }

  predicate BuiltinM(sub: string) {
    sub in {
      "replay", "repo", "request-pull", "rerere", "reset", "restore", "rev-list", "rev-parse", "revert", "rm", "scalar",
      "send-email", "sh-i18n", "sh-setup", "shortlog", "show", "show-branch", "show-index", "show-ref",
      "sparse-checkout", "stage", "stash", "status", "stripspace", "submodule", "svn", "switch", "symbolic-ref", "tag",
      "unpack-file", "unpack-objects", "update-index", "update-ref", "update-server-info", "upload-archive"}
  }

  predicate BuiltinR(sub: string) {
    sub in {
      "upload-pack", "var", "verify-commit", "verify-pack", "verify-tag", "version", "whatchanged", "worktree",
      "write-tree"}
  }

  predicate Builtin(sub: string) {
    BuiltinA(sub) || BuiltinC(sub) || BuiltinF(sub) || BuiltinM(sub) || BuiltinR(sub)
  }

  /** A subcommand only known when the line runs. */
  predicate UnreadableWord(w: string) {
    HasAny(w, "$`(){}@\\^%!*?[<>")
  }

  /** A push; something that may push where the words cannot say; or nothing that pushes, but for an alias its caller looks up. */
  datatype Runs = RunsPush | RunsUnknown | RunsOther

  predicate DefinesAlias(configs: seq<string>, sub: string) {
    exists kv :: kv in configs && Lower(BeforeFirst(kv, '=')) == "alias." + sub
  }

  function GitRuns(site: Site, call: Call): Runs
    requires CallOk(site.words, call) && call.sub.Some?
  {
    var word := site.words[call.sub.value];
    var sub := Lower(word);
    if sub == "push" then RunsPush
    else if UnreadableWord(word) || sub == "send-pack" || sub == "http-push" then RunsUnknown
    else if sub == "subtree" then (if "push" in site.words[call.sub.value + 1..call.end] then RunsUnknown else RunsOther)
    else if Builtin(sub) then RunsOther
    else if DefinesAlias(call.configs, sub) || call.elsewhere || site.elsewhere then RunsUnknown
    else RunsOther
  }

  function CallRead(out: Targets, site: Site, call: Call, line: Line): Targets
    requires CallOk(site.words, call)
  {
    if call.sub.None? then out
    else
      match GitRuns(site, call)
      case RunsPush => PushNoted(if call.at > 0 then out.(unknown := true) else out, site, call, line)
      case RunsUnknown => out.(unknown := true)
      case RunsOther => out
  }

  function CallsRead(out: Targets, site: Site, calls: seq<Call>, line: Line): Targets
    requires forall c :: c in calls ==> CallOk(site.words, c)
    decreases |calls|
  {
    if calls == [] then out else CallsRead(CallRead(out, site, calls[0], line), site, calls[1..], line)
  }

  // ----- a line -----

  /** What the line leaves after its commands. */
  function LineAfter(sites: seq<Site>): Line {
    if sites == [] then NEW_LINE else Noted(LineAfter(sites[..|sites| - 1]), sites[|sites| - 1])
  }

  function TargetsOf(sites: seq<Site>): Targets {
    if sites == [] then NO_TARGETS
    else
      var before := sites[..|sites| - 1];
      var site := sites[|sites| - 1];
      CallsRead(TargetsOf(before), site, CallsFrom(site.words, 0), LineAfter(before))
  }
}
