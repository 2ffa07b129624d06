/**
 * What a line of commands does when a shell and Git run it: folders moved to, branches checked out,
 * renamed to or rebased, and pushes. The commands are data; their words are what the analysis is given.
 */
module PushSemantics {
  import opened Common
  import opened PushText
  import opened PushAnalysis

  /** A worktree: what has a HEAD of its own. */
  type Repo = nat

  /** A folder below the working folder, or any other. */
  datatype Place = Below(path: seq<string>) | Away

  datatype Global =
    | InDir(dir: string)
    | Config(setting: string)
    | EnvConfig(key: string, env: string, joined: bool)
    | Pointed(flag: string, value: string)
    | GlobalFlag(flag: string)
    | Attributes(tree: string)

  datatype PushArg =
    | Word(word: string)
    | Letters(letters: string)
    | LettersValue(letters: string, value: string)
    | LettersJoined(letters: string, value: string)
    | Long(key: string, name: string, negated: bool)
    | LongEquals(key: string, name: string, negated: bool, value: string)
    | LongValue(key: string, name: string, value: string)

  /**
   * An argument of checkout or switch: a name; letters that take no value; letters that end in one that
   * makes a branch, with its name as the next word or joined to them; a long option without a value, with
   * one after `=`, or with one as the next word.
   */
  datatype SwitchArg =
    | Name(word: string)
    | SwitchLetters(letters: string)
    | MakeWord(letters: string, make: char, made: string)
    | MakeJoined(letters: string, make: char, made: string)
    | SwitchLong(key: string, name: string, negated: bool)
    | SwitchLongEquals(key: string, name: string, value: string)
    | SwitchLongWord(key: string, name: string, value: string)

  datatype RenameArg = RenameLetters(letters: string) | RenameLong(word: string) | RenameName(word: string)

  datatype Reason = NoReason | ReasonWord(text: string) | ReasonJoined(text: string)

  datatype Git =
    | Push(pushArgs: seq<PushArg>, tail: Option<seq<string>>)
    | Switch(sub: string, switchArgs: seq<SwitchArg>, tail: Option<seq<string>>)
    | Rename(renameArgs: seq<RenameArg>)
    | StashBranch(branch: string, stash: Option<string>)
    | SymbolicRef(quiet: bool, reason: Reason, ref: string, to: string)
    | Rebase(flags: seq<string>, onto: Option<string>, upstream: Option<string>, of: Option<string>)
    | BisectReset(back: string)
    | Returning(sub: string, args: seq<string>)
    | KeepsHead(sub: string, args: seq<string>)
    | Aliased(word: string, shown: seq<string>, git: Git)

  datatype Command =
    | Cd(program: string, options: seq<string>, folder: Option<string>)
    | CdPath(program: string, flag: string, path: string)
    | RunGit(program: string, globals: seq<Global>, git: Git, elsewhere: bool)
    | OtherProgram(words: seq<string>)

  // ----- the words -----

  function GlobalWords(g: Global): seq<string> {
    match g
    case InDir(dir) => ["-C", dir]
    case Config(setting) => ["-c", setting]
    case EnvConfig(key, env, joined) => if joined then ["--config-env=" + (key + "=" + env)] else ["--config-env", key + "=" + env]
    case Pointed(flag, value) => if '=' in flag then [flag] else [flag, value]
    case GlobalFlag(flag) => [flag]
    case Attributes(tree) => ["--attr-source", tree]
  }

  function AllGlobalWords(gs: seq<Global>): seq<string> {
    if gs == [] then [] else GlobalWords(gs[0]) + AllGlobalWords(gs[1..])
  }

  function PushWords(a: PushArg): seq<string> {
    match a
    case Word(word) => [word]
    case Letters(letters) => ["-" + letters]
    case LettersValue(letters, value) => ["-" + letters + "o", value]
    case LettersJoined(letters, value) => ["-" + letters + "o" + value]
    case Long(key, _, _) => ["--" + key]
    case LongEquals(key, _, _, value) => ["--" + key + "=" + value]
    case LongValue(key, _, value) => ["--" + key, value]
  }

  function AllPushWords(args: seq<PushArg>): seq<string> {
    if args == [] then [] else PushWords(args[0]) + AllPushWords(args[1..])
  }

  function SwitchWords(a: SwitchArg): seq<string> {
    match a
    case Name(word) => [word]
    case SwitchLetters(letters) => ["-" + letters]
    case MakeWord(letters, make, made) => ["-" + letters + [make], made]
    case MakeJoined(letters, make, made) => ["-" + letters + [make] + made]
    case SwitchLong(key, _, _) => ["--" + key]
    case SwitchLongEquals(key, _, value) => ["--" + key + "=" + value]
    case SwitchLongWord(key, _, value) => ["--" + key, value]
  }

  function AllSwitchWords(args: seq<SwitchArg>): seq<string> {
    if args == [] then [] else SwitchWords(args[0]) + AllSwitchWords(args[1..])
  }

  function TailWords(tail: Option<seq<string>>): seq<string> {
    if tail.Some? then ["--"] + tail.value else []
  }

  function RenameWord(a: RenameArg): string {
    match a
    case RenameLetters(letters) => "-" + letters
    case RenameLong(word) => word
    case RenameName(word) => word
  }

  function RenameWords(args: seq<RenameArg>): seq<string> {
    if args == [] then [] else [RenameWord(args[0])] + RenameWords(args[1..])
  }

  function WordOf(word: Option<string>): seq<string> {
    if word.Some? then [word.value] else []
  }

  function ReasonWords(reason: Reason): seq<string> {
    match reason
    case NoReason => []
    case ReasonWord(text) => ["-m", text]
    case ReasonJoined(text) => ["-m" + text]
  }

  function SubOf(git: Git): string {
    match git
    case Push(_, _) => "push"
    case Switch(sub, _, _) => sub
    case Rename(_) => "branch"
    case StashBranch(_, _) => "stash"
    case SymbolicRef(_, _, _, _) => "symbolic-ref"
    case Rebase(_, _, _, _) => "rebase"
    case BisectReset(_) => "bisect"
    case Returning(sub, _) => sub
    case KeepsHead(sub, _) => sub
    case Aliased(word, _, _) => word
  }

  function ArgsOf(git: Git): seq<string> {
    match git
    case Push(args, tail) => AllPushWords(args) + TailWords(tail)
    case Switch(_, args, tail) => AllSwitchWords(args) + TailWords(tail)
    case Rename(args) => RenameWords(args)
    case StashBranch(branch, stash) => ["branch", branch] + WordOf(stash)
    case SymbolicRef(quiet, reason, ref, to) =>
      (if quiet then ["-q"] else [])
      + ReasonWords(reason) + [ref, to]
    case Rebase(flags, onto, upstream, of) =>
      flags + (if onto.Some? then ["--onto", onto.value] else [])
      + (if upstream.None? && of.Some? then ["--root"] else []) + WordOf(upstream) + WordOf(of)
    case BisectReset(back) => ["reset", back]
    case Returning(_, args) => args
    case KeepsHead(_, args) => args
    case Aliased(_, shown, _) => shown
  }

  function WordsOf(c: Command): seq<string> {
    match c
    case Cd(program, options, folder) => [program] + options + WordOf(folder)
    case CdPath(program, flag, path) => [program, flag, path]
    case RunGit(program, globals, git, _) => [program] + AllGlobalWords(globals) + [SubOf(git)] + ArgsOf(git)
    case OtherProgram(words) => words
  }

  // ----- commands that are what they say -----

  predicate LongGlobal(flag: string) {
    "--" < flag
  }

  predicate PointsElsewhere(flag: string) {
    IsKey(flag, "--git-dir") || IsKey(flag, "--work-tree")
  }

  /** A word a shell leaves alone: it is one word, and reaches Git as it is. */
  predicate Written(w: string) {
    !HasAny(w, "$`!")
  }

  /** Global options that change nothing a push depends on. */
  const PLAIN_GLOBALS := {"-p", "--paginate", "-P", "--no-pager", "--no-replace-objects", "--no-optional-locks", "--literal-pathspecs"}

  predicate GlobalOk(g: Global) {
    match g
    case InDir(_) => true
    case Config(setting) => Written(setting)
    case EnvConfig(key, env, _) => Written(key) && Written(env) && '=' !in env
    case Pointed(flag, _) => LongGlobal(flag) && PointsElsewhere(flag) && !IsKey(flag, "--config-env")
    case GlobalFlag(flag) => flag in PLAIN_GLOBALS
    case Attributes(_) => true
  }

  predicate Known(name: string) {
    exists o :: o in PUSH_OPTIONS && o.0 == name
  }

  function FormOf(name: string, negated: bool): string {
    if negated then "no-" + name else name
  }

  /** Git reads a long option by its name, negated or not, or by a prefix no other option shares. */
  predicate GitReads(key: string, name: string, negated: bool) {
    || key == FormOf(name, negated)
    || (&& key <= FormOf(name, negated)
        && forall o, g {:trigger FormOf(o.0, g)} :: o in PUSH_OPTIONS && key <= FormOf(o.0, g) ==> o.0 == name && g == negated)
  }

  predicate LettersOk(letters: string) {
    forall c :: c in letters ==> c in "vqfdu46n"
  }

  predicate LongOk(key: string, name: string, negated: bool) {
    key != "" && '=' !in key && Known(name) && GitReads(key, name, negated)
  }

  predicate PushArgOk(a: PushArg) {
    match a
    case Word(word) => Operand(word)
    case Letters(letters) => letters != "" && LettersOk(letters)
    case LettersValue(letters, value) => LettersOk(letters) && Written(value)
    case LettersJoined(letters, value) => LettersOk(letters) && value != "" && Written(value)
    case Long(key, name, negated) => LongOk(key, name, negated) && (RoleOf(name) == TakesValue ==> negated)
    case LongEquals(key, name, negated, value) => LongOk(key, name, negated) && Written(value)
    case LongValue(key, name, value) => LongOk(key, name, false) && RoleOf(name) == TakesValue && Written(value)
  }

  /** What an option of checkout or switch does. */
  datatype SwitchRole =
    MakesNew | MakesForced | MakesOrphan | Tracking | Detaching | Patching | OnlyPaths | PathsNul | PathsFrom | NeedsWord | NoEffect

  function SwitchRoleOf(name: string): SwitchRole {
    if name == "create" then MakesNew
    else if name == "force-create" then MakesForced
    else if name == "orphan" then MakesOrphan
    else if name == "track" then Tracking
    else if name == "detach" then Detaching
    else if name == "patch" then Patching
    else if name in {"ours", "theirs", "overlay"} then OnlyPaths
    else if name == "pathspec-file-nul" then PathsNul
    else if name == "pathspec-from-file" then PathsFrom
    else if name == "conflict" then NeedsWord
    else NoEffect
  }

  predicate Makes(role: SwitchRole) {
    role == MakesNew || role == MakesForced || role == MakesOrphan
  }

  predicate TakesWord(role: SwitchRole) {
    Makes(role) || role == PathsFrom || role == NeedsWord
  }

  const CHECKOUT_NAMES: seq<string> := [
    "quiet", "recurse-submodules", "progress", "merge", "conflict", "detach", "track", "force", "orphan", "overwrite-ignore",
    "ignore-other-worktrees", "guess", "overlay", "ours", "theirs", "patch", "ignore-skip-worktree-bits", "pathspec-from-file", "pathspec-file-nul"]
  const SWITCH_NAMES: seq<string> := [
    "create", "force-create", "guess", "discard-changes", "quiet", "recurse-submodules", "progress", "merge", "conflict", "detach",
    "track", "force", "orphan", "overwrite-ignore", "ignore-other-worktrees"]

  /** A long option by its name, negated or not, or by a prefix no other option of the subcommand shares. */
  predicate ReadsAs(names: seq<string>, key: string, name: string, negated: bool) {
    && name in names && key != "" && '=' !in key
    && (|| key == FormOf(name, negated)
        || (&& key <= FormOf(name, negated)
            && forall n, g {:trigger FormOf(n, g)} :: n in names && key <= FormOf(n, g) ==> n == name && g == negated))
  }

  function NamesFor(sub: string): seq<string> {
    if sub == "switch" then SWITCH_NAMES else CHECKOUT_NAMES
  }

  /** Letters without a value, and those that make a branch. */
  function LettersFor(sub: string): string {
    if sub == "switch" then "qfmdt" else "qfmdtl23p"
  }

  function MakersFor(sub: string): string {
    if sub == "switch" then "cC" else "bB"
  }

  predicate LettersOf(letters: string, sub: string) {
    forall c :: c in letters ==> c in LettersFor(sub)
  }

  predicate SwitchArgOk(a: SwitchArg, sub: string) {
    match a
    case Name(word) => Operand(word)
    case SwitchLetters(letters) => letters != "" && LettersOf(letters, sub)
    case MakeWord(letters, make, made) => LettersOf(letters, sub) && make in MakersFor(sub) && !IsOption(made)
    case MakeJoined(letters, make, made) => LettersOf(letters, sub) && make in MakersFor(sub) && made != "" && !IsOption(made)
    case SwitchLong(key, name, negated) =>
      && ReadsAs(NamesFor(sub), key, name, negated) && key !in {"orphan", "conflict", "pathspec-from-file"}
      && (if negated then name !in {"ours", "theirs"} else !TakesWord(SwitchRoleOf(name)))
    case SwitchLongEquals(key, name, value) =>
      && ReadsAs(NamesFor(sub), key, name, false) && SwitchRoleOf(name) !in {Detaching, Patching, OnlyPaths, PathsNul}
      && !IsOption(value)
    case SwitchLongWord(key, name, value) =>
      ReadsAs(NamesFor(sub), key, name, false) && TakesWord(SwitchRoleOf(name)) && key !in {"track", "detach"} && !IsOption(value)
  }

  predicate RenameArgOk(a: RenameArg) {
    match a
    case RenameLetters(letters) => letters != "" && forall c :: c in letters ==> c in "fqmM"
    case RenameLong(word) => word in {"--force", "--quiet", "--move", "--mov", "--mo"}
    case RenameName(word) => !IsOption(word)
  }

  predicate MovesBranch(a: RenameArg) {
    || (a.RenameLetters? && ('m' in a.letters || 'M' in a.letters))
    || (a.RenameLong? && a.word in {"--move", "--mov", "--mo"})
  }

  function RenameNames(args: seq<RenameArg>): seq<string> {
    if args == [] then [] else (if args[0].RenameName? then [args[0].word] else []) + RenameNames(args[1..])
  }

  /** Subcommands that leave HEAD on its branch and push nothing. */
  predicate NeverMoves(sub: string) {
    sub in {
      "add", "apply", "blame", "cat-file", "cherry-pick", "clean", "commit", "describe", "diff", "fetch", "gc", "grep", "log", "ls-files",
      "ls-remote", "merge", "mv", "notes", "pull", "reset", "restore", "rev-list", "rev-parse", "revert", "rm", "show", "status", "tag"}
  }

  /** Ways to use stash and branch that leave HEAD where it is. */
  const STASH_KEEPS := {"push", "save", "list", "show", "drop", "pop", "apply", "clear"}
  const BRANCH_KEEPS := {"-a", "-r", "-v", "-l", "--list", "-d", "-D", "--delete", "-f", "--force", "--show-current"}

  predicate Keeps(sub: string, args: seq<string>) {
    || NeverMoves(sub)
    || (sub == "stash" && (args == [] || args[0] in STASH_KEEPS))
    || (sub == "branch" && forall w :: w in args ==> Written(w) && (!IsOption(w) || w in BRANCH_KEEPS))
  }

  const REBASE_FLAGS := {
    "-i", "--interactive", "-q", "--quiet", "--autostash", "--autosquash", "--keep-base", "-r", "--rebase-merges", "--update-refs"}

  /** Subcommands the analysis reads for what they do to HEAD. */
  const NOTED_SUBS := {"push", "checkout", "switch", "branch", "stash", "symbolic-ref"}

  /** An alias hides none of these. */
  predicate GitsOwn(sub: string) {
    Builtin(sub) || sub == "push" || sub == "send-pack" || sub == "http-push"
  }

  predicate PlainWord(word: Option<string>) {
    word.Some? ==> !IsOption(word.value)
  }

  predicate GitOk(git: Git) {
    match git
    case Push(args, _) => forall a :: a in args ==> PushArgOk(a)
    case Switch(sub, args, _) => (sub == "checkout" || sub == "switch") && forall a :: a in args ==> SwitchArgOk(a, sub)
    case Rename(args) =>
      (forall a :: a in args ==> RenameArgOk(a)) && (exists a :: a in args && MovesBranch(a)) && 1 <= |RenameNames(args)| <= 2
    case StashBranch(branch, stash) => !IsOption(branch) && PlainWord(stash)
    case SymbolicRef(_, reason, ref, to) =>
      !IsOption(ref) && !IsOption(to) && (reason.ReasonWord? ==> !IsOption(reason.text)) && (reason.ReasonJoined? ==> reason.text != "")
    case Rebase(flags, onto, upstream, of) =>
      (forall f :: f in flags ==> f in REBASE_FLAGS) && PlainWord(onto) && PlainWord(upstream) && PlainWord(of)
    case BisectReset(back) => !IsOption(back)
    case Returning(sub, args) =>
      (sub == "rebase" && (args == ["--continue"] || args == ["--abort"] || args == ["--skip"])) || (sub == "bisect" && args == ["reset"])
    case KeepsHead(sub, args) => Keeps(sub, args)
    case Aliased(word, _, inner) =>
      !IsOption(word) && !GitsOwn(Lower(word)) && !inner.Push? && !inner.Aliased? && GitOk(inner)
  }

  predicate CommandOk(c: Command) {
    match c
    case Cd(program, options, folder) =>
      && ChangesDirectory(program) && (forall o :: o in options ==> !Operand(o) && !PathFlag(o))
      && (folder.Some? ==> Operand(folder.value))
    case CdPath(program, flag, _) => ChangesDirectory(program) && PathFlag(flag)
    case RunGit(program, globals, git, _) => IsGitProgram(program) && (forall g :: g in globals ==> GlobalOk(g)) && GitOk(git)
    // Neither runs Git nor changes the folder, but to go back to one it was in (`popd`).
    case OtherProgram(words) => words != [] ==> !ChangesDirectory(words[0]) && !IsGitProgram(words[0])
  }

  // ----- folders -----

  predicate Followable(dir: string) {
    dir != "" && InsideWorkingFolder(dir) && !UnreadablePath(dir)
  }

  /** Where a change of folder may lead: one that can be followed to a folder below, any other anywhere. */
  predicate LeadsTo(cwd: Place, to: Option<string>, p: Place) {
    cwd.Below? && to.Some? && Followable(to.value) ==> p == Below(cwd.path + Parts(to.value))
  }

  function ChDirs(gs: seq<Global>): seq<string> {
    if gs == [] then [] else (if gs[0].InDir? then [gs[0].dir] else []) + ChDirs(gs[1..])
  }

  predicate LeavesFolder(g: Global) {
    g.Pointed? || (g.InDir? && (!InsideWorkingFolder(g.dir) || UnreadablePath(g.dir)))
  }

  predicate Leaves(gs: seq<Global>) {
    exists g :: g in gs && LeavesFolder(g)
  }

  /** Where a Git invocation runs. */
  function GitPlace(cwd: Place, gs: seq<Global>, elsewhere: bool): Place {
    if cwd.Away? || elsewhere || Leaves(gs) then Away else Below(cwd.path + Flat(ChDirs(gs)))
  }

  // ----- heads -----

  /** The branch a push of HEAD goes to; none when HEAD is detached. */
  type Heads = Repo -> Option<string>

  /** Where a command may put HEAD: on no other branch, on this one, or on any. */
  datatype Reach = Nowhere | Reaches(branch: string) | Anywhere

  /** A name a shell may rewrite before Git reads it stands for any. */
  function Named(name: string): Reach {
    if UnreadableRef(name) || '*' in name then Anywhere else Reaches(name)
  }

  /**
   * The options of a switch so far: the branch each way of making one was last given, whether tracking was
   * mentioned and how last, and the last word on the rest. Of the options for paths, some cannot be taken back.
   */
  datatype Taken = Taken(made: Option<string>, forced: Option<string>, orphan: Option<string>, tracking: Option<bool>, detach: bool,
                         patch: bool, nul: bool, from: bool, onlyPaths: bool)

  const NOTHING_TAKEN := Taken(None, None, None, None, false, false, false, false, false)

  function WithRole(t: Taken, role: SwitchRole, value: Option<string>): Taken {
    match role
    case MakesNew => t.(made := value)
    case MakesForced => t.(forced := value)
    case MakesOrphan => t.(orphan := value)
    case Tracking => t.(tracking := Some(value.Some?))
    case Detaching => t.(detach := value.Some?)
    case Patching => t.(patch := value.Some?)
    case PathsNul => t.(nul := value.Some?)
    case PathsFrom => t.(from := value.Some?)
    case OnlyPaths => t.(onlyPaths := true)
    case _ => t
  }

  function WithLetters(t: Taken, letters: string): Taken {
    t.(tracking := if 't' in letters then Some(true) else t.tracking, detach := t.detach || 'd' in letters,
       patch := t.patch || 'p' in letters, onlyPaths := t.onlyPaths || '2' in letters || '3' in letters)
  }

  function MakerRole(make: char): SwitchRole {
    if make == 'b' || make == 'c' then MakesNew else MakesForced
  }

  function TakenOne(t: Taken, a: SwitchArg): Taken {
    match a
    case Name(_) => t
    case SwitchLetters(letters) => WithLetters(t, letters)
    case MakeWord(letters, make, made) => WithRole(WithLetters(t, letters), MakerRole(make), Some(made))
    case MakeJoined(letters, make, made) => WithRole(WithLetters(t, letters), MakerRole(make), Some(made))
    case SwitchLong(_, name, negated) => WithRole(t, SwitchRoleOf(name), if negated then None else Some(""))
    case SwitchLongEquals(_, name, value) => WithRole(t, SwitchRoleOf(name), Some(value))
    case SwitchLongWord(_, name, value) => WithRole(t, SwitchRoleOf(name), Some(value))
  }

  function AllTaken(t: Taken, args: seq<SwitchArg>): Taken
    decreases |args|
  {
    if args == [] then t else AllTaken(TakenOne(t, args[0]), args[1..])
  }

  function SwitchNames(args: seq<SwitchArg>): seq<string> {
    if args == [] then [] else (if args[0].Name? then [args[0].word] else []) + SwitchNames(args[1..])
  }

  /** The words an argument holds besides its option. */
  function ValueOf(a: SwitchArg): string {
    match a
    case Name(word) => word
    case MakeWord(_, _, made) => made
    case MakeJoined(_, _, made) => made
    case SwitchLongEquals(_, _, value) => value
    case SwitchLongWord(_, _, value) => value
    case _ => ""
  }

  /** A shell may make more of an argument, options included. */
  predicate SomeUnwritten(args: seq<SwitchArg>) {
    exists a :: a in args && !Written(ValueOf(a))
  }

  /** Options Git refuses together. */
  predicate Refused(t: Taken) {
    || (t.made.Some? && t.forced.Some?) || (t.made.Some? && t.orphan.Some?) || (t.forced.Some? && t.orphan.Some?)
    || (t.detach && (t.made.Some? || t.forced.Some? || t.orphan.Some? || t.tracking.Some?))
    || (t.orphan.Some? && t.tracking.Some?)
  }

  predicate ForPaths(t: Taken) {
    t.patch || t.nul || t.from || t.onlyPaths
  }

  function Made(t: Taken): Option<string> {
    if t.made.Some? then t.made else if t.forced.Some? then t.forced else t.orphan
  }

  /** A word that neither vanishes nor becomes several. */
  predicate Solid(w: string) {
    !UnreadableRef(w) && '*' !in w
  }

  /** A second name makes the rest paths, or is one too many. */
  predicate Several(names: seq<string>) {
    |names| >= 2 && Solid(names[1])
  }

  predicate HasPaths(sub: string, tail: Option<seq<string>>) {
    sub == "checkout" && tail.Some? && exists w :: w in tail.value && Solid(w)
  }

  /** The names Git is given: after a `--`, checkout takes paths, and switch goes on with names. */
  function NamesGiven(sub: string, args: seq<SwitchArg>, tail: Option<seq<string>>): seq<string> {
    SwitchNames(args) + if sub == "switch" && tail.Some? then tail.value else []
  }

  function After(prefix: string, s: string): string {
    if prefix <= s then s[|prefix|..] else s
  }

  /** The branch that `--track` or `--no-track` takes from a remote's: what follows the remote's name. */
  function AfterRemote(name: string): string {
    AfterFirst(After("remotes/", After("refs/", name)), '/')
  }

  /** A new branch may follow its start point. */
  predicate MayFollow(t: Taken, names: seq<string>) {
    || t.tracking == Some(true)
    || (t.tracking.None? && t.orphan.None? && names != [] && HasAny(names[0], "/$`!%{[?*"))
  }

  /** Where checkout or switch may put HEAD. */
  function SwitchReach(sub: string, args: seq<SwitchArg>, tail: Option<seq<string>>): Reach {
    var t := AllTaken(NOTHING_TAKEN, args);
    var names := NamesGiven(sub, args, tail);
    if SomeUnwritten(args) then Anywhere
    else if ForPaths(t) || t.detach || Refused(t) || Several(names) || HasPaths(sub, tail) then Nowhere
    else if Made(t).Some? then
      if UnreadableBranch(Made(t).value) || MayFollow(t, names) then Anywhere else Reaches(Made(t).value)
    else if names == [] then Nowhere
    else if UnreadableBranch(names[0]) then Anywhere
    else if t.tracking.None? then Reaches(names[0])
    else if AfterRemote(names[0]) == "" then Nowhere
    else if t.tracking == Some(true) then Anywhere
    else Reaches(AfterRemote(names[0]))
  }

  /** A HEAD of another worktree, by name. */
  predicate WorktreeHead(ref: string) {
    ref == "main-worktree/HEAD" || ("worktrees/" <= ref && |ref| > 14 && ref[|ref| - 5..] == "/HEAD")
  }

  predicate Readable(reason: Reason, ref: string, to: string) {
    !UnreadableRef(ref) && !UnreadableRef(to) && (reason.NoReason? || Written(reason.text))
  }

  function ReachOf(git: Git): Reach {
    match git
    case Push(_, _) => Nowhere
    case Switch(sub, args, tail) => SwitchReach(sub, args, tail)
    case Rename(args) =>
      var names := RenameNames(args);
      if names == [] || (|names| == 2 && names[0] == names[1] && Named(names[0]).Reaches?) then Nowhere else Named(names[|names| - 1])
    case StashBranch(branch, _) => Named(branch)
    case SymbolicRef(_, reason, ref, to) =>
      if !Readable(reason, ref, to) then Anywhere
      else if "refs/heads/" <= to && to != ref && (ref == "HEAD" || "refs/heads/" <= ref || WorktreeHead(ref)) then Reaches(to[11..])
      else Nowhere
    case Rebase(_, onto, upstream, of) =>
      if (onto.Some? && !Written(onto.value)) || (upstream.Some? && !Written(upstream.value)) then Anywhere
      else if of.Some? then Named(of.value) else Nowhere
    case BisectReset(back) => Named(back)
    case Returning(_, _) => Anywhere
    case KeepsHead(_, _) => Nowhere
    case Aliased(_, _, inner) => ReachOf(inner)
  }

  /**
   * The HEAD a command needs to find to move it: a rename of a named branch needs that branch, a branch made
   * symbolic the HEADs on it, and a return a detached one.
   */
  predicate CanMove(git: Git, here: Repo, r: Repo, was: Option<string>) {
    match git
    case Rename(args) => if |RenameNames(args)| == 2 then was == Some(RenameNames(args)[0]) else r == here
    case SymbolicRef(_, _, ref, _) => if "refs/heads/" <= ref then was == Some(ref[11..]) else ref != "HEAD" || r == here
    case Returning(_, _) => r == here && was == None
    case Aliased(_, _, inner) => CanMove(inner, here, r, was)
    case _ => r == here
  }

  // ----- names that stand for other branches -----

  /** Symbolic refs, each with the ref it points at; and branches whose own name begins with `refs/`. */
  datatype Refs = Refs(links: set<(string, string)>, literals: set<string>)

  const PLAIN_REFS := Refs({}, {})

  /** The refs these refs may lead to; Git follows five. */
  function Leads(links: set<(string, string)>, from: set<string>, n: nat): set<string>
    decreases n
  {
    if n == 0 then {}
    else
      var next := set l | l in links && l.0 in from :: l.1;
      next + Leads(links, next, n - 1)
  }

  function Linked(refs: Refs, from: set<string>): set<string> {
    set r | r in Leads(refs.links, from, 5) && "refs/heads/" <= r :: r[11..]
  }

  /**
   * The branches a command that reaches this one may put HEAD on: a rename replaces what was there, and a branch
   * made symbolic leads away from itself.
   */
  function Branches(refs: Refs, git: Git, b: string): set<string> {
    match git
    case Rename(_) => {b}
    case SymbolicRef(_, _, ref, _) => {b} + Linked(refs, {"refs/heads/" + b}) - if "refs/heads/" <= ref then {ref[11..]} else {}
    case Aliased(_, _, inner) => Branches(refs, inner, b)
    case _ => {b} + Linked(refs, {"refs/heads/" + b})
  }

  predicate Hits(refs: Refs, git: Git, now: Option<string>) {
    match ReachOf(git)
    case Nowhere => false
    case Reaches(b) => now.Some? && now.value in Branches(refs, git, b)
    case Anywhere => true
  }

  function ReachedLiteral(reach: Reach): set<string> {
    if reach.Reaches? && "refs/" <= reach.branch then {reach.branch} else {}
  }

  function MadeLiteral(args: seq<SwitchArg>): set<string> {
    var made := Made(AllTaken(NOTHING_TAKEN, args));
    if made.Some? && "refs/" <= made.value then {made.value} else {}
  }

  /** The symbolic refs and the branches a command may make. */
  function MadeRefs(git: Git): Refs {
    match git
    case SymbolicRef(_, _, ref, to) => Refs(if ref == "HEAD" || WorktreeHead(ref) then {} else {(ref, to)}, {})
    case KeepsHead(sub, args) => Refs({}, if sub == "branch" then set w | w in args && "refs/" <= w else {})
    case Aliased(_, _, inner) => MadeRefs(inner)
    case _ =>
      Refs({}, ReachedLiteral(ReachOf(git)) + if git.Switch? then MadeLiteral(git.switchArgs) else {})
  }

  function RefsAfter(refs: Refs, c: Command): Refs {
    if c.RunGit? then Refs(refs.links + MadeRefs(c.git).links, refs.literals + MadeRefs(c.git).literals) else refs
  }

  /** The refs that may be there once these commands ran. */
  function AllRefs(refs: Refs, line: seq<Command>): Refs {
    if line == [] then refs else RefsAfter(AllRefs(refs, line[..|line| - 1]), line[|line| - 1])
  }

  predicate HeadMoves(refs: Refs, git: Git, here: Repo, r: Repo, was: Option<string>, now: Option<string>) {
    now == was || (!git.Push? && now == None) || (CanMove(git, here, r, was) && Hits(refs, git, now))
  }

  ghost predicate HeadsMove(refs: Refs, git: Git, at: Place, repoOf: Place -> Repo, heads: Heads, heads': Heads) {
    || (at == Away && ReachOf(git) != Nowhere)
    || forall r :: HeadMoves(refs, git, repoOf(at), r, heads(r), heads'(r))
  }

  // ----- pushes -----

  /** What one argument says about a flag. */
  function Says(a: PushArg, flag: Role): Option<bool> {
    if (a.Long? || a.LongEquals?) && RoleOf(a.name) == flag then Some(!a.negated)
    else if flag == DryRuns && (a.Letters? || a.LettersValue? || a.LettersJoined?) && 'n' in a.letters then Some(true)
    else None
  }

  /** What the last argument about it says. */
  function LastSays(args: seq<PushArg>, flag: Role): Option<bool> {
    if args == [] then None
    else if LastSays(args[1..], flag).Some? then LastSays(args[1..], flag)
    else Says(args[0], flag)
  }

  predicate Asks(args: seq<PushArg>, flag: Role) {
    LastSays(args, flag) == Some(true)
  }

  predicate DryRun(args: seq<PushArg>) {
    Asks(args, DryRuns)
  }

  predicate AsksEvery(args: seq<PushArg>) {
    Asks(args, PushesAll) || Asks(args, Mirrors)
  }

  function PushOperands(args: seq<PushArg>): seq<string> {
    if args == [] then [] else (if args[0].Word? then [args[0].word] else []) + PushOperands(args[1..])
  }

  function AllOperands(args: seq<PushArg>, tail: Option<seq<string>>): seq<string> {
    PushOperands(args) + if tail.Some? then tail.value else []
  }

  /** Git splits a refspec at its last colon. */
  function Destination(plain: string): string {
    if ':' in plain then AfterLast(plain, ":") else plain
  }

  /** Asked to delete; the last word on it decides. */
  function SaysDelete(a: PushArg): Option<bool> {
    if (a.Long? || a.LongEquals?) && a.name == "delete" then Some(!a.negated)
    else if (a.Letters? || a.LettersValue? || a.LettersJoined?) && 'd' in a.letters then Some(true)
    else None
  }

  function LastDelete(args: seq<PushArg>): Option<bool> {
    if args == [] then None
    else if LastDelete(args[1..]).Some? then LastDelete(args[1..])
    else SaysDelete(args[0])
  }

  predicate Deletes(args: seq<PushArg>) {
    LastDelete(args) == Some(true)
  }

  /** What a refspec may update: any branch, or these and the one HEAD is on. */
  datatype RefTarget = AnyBranch | Updates(branches: set<string>, head: bool)

  /** The refs Git looks for under a word, the first it finds. */
  function RefsOf(word: string): set<string> {
    {word, "refs/" + word, "refs/tags/" + word, "refs/heads/" + word, "refs/remotes/" + word, "refs/remotes/" + word + "/HEAD"}
  }

  /** What else a destination may be: where symbolic refs of its name point, and a branch that is called so in full. */
  function Otherwise(refs: Refs, dst: string, source: bool): set<string> {
    (if source then Linked(refs, RefsOf(dst)) else {}) + if dst in refs.literals then {dst} else {}
  }

  /** The branch of a name that is no full name of a ref, or, after `heads/`, of the rest when the remote has one. */
  function BranchesNamed(dst: string): set<string> {
    if "refs/heads/" <= dst then {dst[11..]}
    else if "refs/" <= dst then {}
    else if "heads/" < dst then {dst, dst[6..]}
    else {dst}
  }

  /** A refspec as Git reads it; to delete, it is a destination. Only a source and destination in one can be HEAD. */
  function SpecTarget(refs: Refs, spec: string, deletes: bool): RefTarget {
    var plain := if deletes then spec else Unforced(spec);
    var dst := Destination(plain);
    var source := ':' !in plain && !deletes;
    if plain == ":" || '*' in dst || UnreadableRef(dst) || dst == "-" || HasAny(plain, "!$`") then AnyBranch
    else if dst == "" then Updates({}, false)
    else if source && (dst == "HEAD" || dst == "@") then Updates({}, true)
    else Updates(BranchesNamed(dst) + Otherwise(refs, dst, source), source && IsHead(dst))
  }

  /** A file of settings read in. */
  predicate IncludeKey(key: string) {
    var k := Lower(key);
    k == "include.path" || ("includeif." <= k && |k| > 15 && k[|k| - 5..] == ".path")
  }

  /** A setting given with the command, by itself or by the name of a variable. */
  predicate Sets(g: Global) {
    g.Config? || g.EnvConfig?
  }

  function KeyOf(g: Global): string
    requires Sets(g)
  {
    if g.Config? then BeforeFirst(g.setting, '=') else g.key
  }

  /** One that may decide where its push goes. */
  predicate Redirects(g: Global) {
    Sets(g) && (PushConfigKey(KeyOf(g)) || IncludeKey(KeyOf(g)))
  }

  predicate Redirected(gs: seq<Global>) {
    exists g :: g in gs && Redirects(g)
  }

  ghost predicate HeadGoesTo(gs: seq<Global>, at: Place, repoOf: Place -> Repo, heads: Heads, b: string) {
    at == Away || Redirected(gs) || heads(repoOf(at)) == Some(b)
  }

  /** A refspec without a destination of its own follows the settings too. */
  ghost predicate SpecGoesTo(refs: Refs, spec: string, deletes: bool, gs: seq<Global>, at: Place, repoOf: Place -> Repo, heads: Heads, b: string) {
    || (Redirected(gs) && !deletes && ':' !in Unforced(spec) && SpecTarget(refs, spec, deletes) != Updates({}, false))
    || match SpecTarget(refs, spec, deletes)
       case AnyBranch => true
       case Updates(branches, head) => b in branches || (head && HeadGoesTo(gs, at, repoOf, heads, b))
  }

  /** The refspecs of a push; `tag` and a name is a tag's. */
  function Refspecs(words: seq<string>): seq<string> {
    if words == [] then []
    else if words[0] == "tag" then (if |words| > 1 then Refspecs(words[2..]) else [])
    else [words[0]] + Refspecs(words[1..])
  }

  function SpecsOf(operands: seq<string>): seq<string> {
    if operands == [] then [] else Refspecs(operands[1..])
  }

  /** The push updates HEAD's branch without naming it. */
  predicate PushesHead(args: seq<PushArg>, tail: Option<seq<string>>) {
    |AllOperands(args, tail)| <= 1 && !Asks(args, PushesTags) && !Deletes(args)
  }

  /** A push with these arguments may update branch `b`. */
  ghost predicate PushGoesTo(refs: Refs, args: seq<PushArg>, tail: Option<seq<string>>, gs: seq<Global>, at: Place,
                             repoOf: Place -> Repo, heads: Heads, b: string) {
    var operands := AllOperands(args, tail);
    && !DryRun(args)
    && (|| AsksEvery(args)
        || (operands != [] && UnreadableRemote(operands[0]))
        || (PushesHead(args, tail) && HeadGoesTo(gs, at, repoOf, heads, b))
        || exists spec :: spec in SpecsOf(operands) && SpecGoesTo(refs, spec, Deletes(args), gs, at, repoOf, heads, b))
  }

  // ----- runs of a line -----

  /** The folder the shell is in, every folder it has been in, and the heads. */
  datatype World = World(cwd: Place, seen: set<Place>, heads: Heads)

  function FolderOf(c: Command): Option<string> {
    match c
    case Cd(_, _, folder) => folder
    case CdPath(_, _, path) => Some(path)
    case _ => None
  }

  /** A command runs or fails; a group's end may put the shell back in a folder it was in. */
  ghost predicate Moves(refs: Refs, c: Command, repoOf: Place -> Repo, w: World, w': World) {
    && w'.cwd in w'.seen
    && match c
       case RunGit(_, gs, git, elsewhere) =>
         w'.seen == w.seen && HeadsMove(refs, git, GitPlace(w.cwd, gs, elsewhere), repoOf, w.heads, w'.heads)
       case OtherProgram(_) => w'.seen == w.seen && forall r :: w'.heads(r) == w.heads(r)
       case _ =>
         && (forall r :: w'.heads(r) == w.heads(r))
         && (w'.seen == w.seen || exists p :: LeadsTo(w.cwd, FolderOf(c), p) && w'.seen == w.seen + {p})
  }

  ghost predicate Pushes(refs: Refs, c: Command, repoOf: Place -> Repo, w: World, b: string) {
    && c.RunGit? && c.git.Push?
    && PushGoesTo(refs, c.git.pushArgs, c.git.tail, c.globals, GitPlace(w.cwd, c.globals, c.elsewhere), repoOf, w.heads, b)
  }

  /** A run of a line in repositories with these refs at the start. */
  ghost predicate RunOf(refs: Refs, line: seq<Command>, repoOf: Place -> Repo, worlds: seq<World>) {
    && |worlds| == |line| + 1
    && worlds[0].cwd == Below([]) && worlds[0].seen == {Below([])}
    && forall k :: 0 <= k < |line| ==> Moves(AllRefs(refs, line[..k]), line[k], repoOf, worlds[k], worlds[k + 1])
  }

  // ----- what an answer covers -----

  ghost predicate CurrentCovers(out: Targets, repoOf: Place -> Repo, start: Heads, b: string) {
    out.current && exists path :: CleanPath(path) && (path == [] || Slashed(path) in out.dirs) && start(repoOf(Below(path))) == Some(b)
  }

  ghost predicate Covers(out: Targets, repoOf: Place -> Repo, start: Heads, b: string) {
    out.every || out.unknown || b in out.branches || CurrentCovers(out, repoOf, start, b)
  }

  /** The answer covers every push of every run of the line, in every layout of worktrees with these refs. */
  ghost predicate AllCovered(refs: Refs, line: seq<Command>, out: Targets) {
    forall repoOf: Place -> Repo, worlds: seq<World>, k: nat, b ::
      RunOf(refs, line, repoOf, worlds) && k < |line| && Pushes(AllRefs(refs, line[..k]), line[k], repoOf, worlds[k], b) ==>
        Covers(out, repoOf, worlds[0].heads, b)
  }
}
