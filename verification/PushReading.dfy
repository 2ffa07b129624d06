/** The analysis reads the words of a Git command as Git does. */
module PushReading {
  import opened Common
  import opened PushText
  import opened PushAnalysis
  import opened PushSemantics

  // ----- the invocation and its global options -----

  /** The key read of a setting: up to the first `=`, where Git takes a variable's name from after the last. */
  function ShownKey(g: Global): string
    requires Sets(g)
  {
    BeforeFirst(if g.Config? then g.setting else g.key + "=" + g.env, '=')
  }

  function SettingOf(g: Global): string
    requires Sets(g)
  {
    if g.Config? then g.setting else ShownKey(g) + "="
  }

  lemma {:induction false} KeyAgain(s: string)
    ensures BeforeFirst(BeforeFirst(s, '=') + "=", '=') == BeforeFirst(s, '=')
  {
    if s != "" && s[0] != '=' {
      KeyAgain(s[1..]);
      assert BeforeFirst(s, '=') + "=" == [s[0]] + (BeforeFirst(s[1..], '=') + "=");
    }
  }

  lemma SettingKey(g: Global)
    requires Sets(g)
    ensures BeforeFirst(SettingOf(g), '=') == ShownKey(g)
  {
    KeyAgain(if g.Config? then g.setting else g.key + "=" + g.env);
  }

  function ConfigsOf(gs: seq<Global>): seq<string> {
    if gs == [] then [] else (if Sets(gs[0]) then [SettingOf(gs[0])] else []) + ConfigsOf(gs[1..])
  }

  /** What reading one global option does to the invocation. */
  function WithGlobal(call: Call, g: Global): Call {
    match g
    case InDir(dir) => if LeavesFolder(g) then call.(elsewhere := true) else call.(chdir := call.chdir + [dir])
    case Config(_) => call.(configs := call.configs + [SettingOf(g)])
    case EnvConfig(_, _, _) => call.(configs := call.configs + [SettingOf(g)])
    case Pointed(_, _) => call.(elsewhere := true)
    case GlobalFlag(_) => call
    case Attributes(_) => call
  }

  predicate SkippedGlobal(w: string) {
    && IsOption(w) && w !in {"--", "-c", "-C", "--namespace", "--super-prefix", "--attr-source"}
    && !IsKey(w, "--config-env") && !IsKey(w, "--git-dir") && !IsKey(w, "--work-tree")
  }

  /** An option at this place differs from those read. */
  lemma PlainIsSkipped(w: string)
    requires w in PLAIN_GLOBALS
    ensures SkippedGlobal(w)
  {
    hide IsKey;
    NotKey(w, "--config-env", if |w| > 2 && w[2] == 'c' then 3 else 2);
    NotKey(w, "--git-dir", 2);
    NotKey(w, "--work-tree", 2);
  }

  lemma SkippedRead(words: seq<string>, i: nat, call: Call)
    requires i < |words| && SkippedGlobal(words[i])
    ensures Globals(words, i, call) == Globals(words, i + 1, call)
  {
    hide InsideWorkingFolder, UnreadablePath, BeforeFirst, AfterFirst, IsKey;
  }

  lemma GlobalRead(words: seq<string>, i: nat, call: Call, g: Global)
    requires GlobalOk(g) && i + |GlobalWords(g)| < |words| && words[i..i + |GlobalWords(g)|] == GlobalWords(g)
    ensures Globals(words, i, call) == Globals(words, i + |GlobalWords(g)|, WithGlobal(call, g))
  {
    hide InsideWorkingFolder, UnreadablePath, BeforeFirst, AfterFirst, PLAIN_GLOBALS, SkippedGlobal;
    var own := words[i..i + |GlobalWords(g)|];
    assert words[i] == own[0];
    assert |GlobalWords(g)| == 2 ==> words[i + 1] == own[1];
    if g.GlobalFlag? {
      PlainIsSkipped(g.flag);
      SkippedRead(words, i, call);
    } else if g.EnvConfig? {
      EnvConfigRead(words, i, call, g);
    } else if g.Attributes? {
      ValueSkipped(words, i, call);
    }
  }

  lemma EnvConfigRead(words: seq<string>, i: nat, call: Call, g: Global)
    requires g.EnvConfig? && i + |GlobalWords(g)| < |words| && words[i..i + |GlobalWords(g)|] == GlobalWords(g)
    ensures Globals(words, i, call) == Globals(words, i + |GlobalWords(g)|, WithGlobal(call, g))
  {
    hide InsideWorkingFolder, UnreadablePath, BeforeFirst, AfterFirst;
    var own, value := words[i..i + |GlobalWords(g)|], g.key + "=" + g.env;
    assert words[i] == own[0];
    NoEquals();
    if g.joined {
      CutAt("--config-env", '=', value);
      assert words[i] == "--config-env" + "=" + value;
      assert IsKey(words[i], "--config-env") && words[i][0] == '-' && words[i][1] == '-' && words[i][2] == 'c';
    } else {
      assert words[i + 1] == own[1];
    }
  }

  lemma NoEquals()
    ensures '=' !in "--config-env"
  {
  }

  /** The value of these options is never taken for the subcommand. */
  lemma ValueSkipped(words: seq<string>, i: nat, call: Call)
    requires i < |words| && (words[i] == "--namespace" || words[i] == "--super-prefix" || words[i] == "--attr-source")
    ensures Globals(words, i, call) == Globals(words, i + 2, call)
  {
    hide InsideWorkingFolder, UnreadablePath, BeforeFirst, AfterFirst;
    NotKey(words[i], "--config-env", 2);
    NotKey(words[i], "--git-dir", 2);
    NotKey(words[i], "--work-tree", 2);
  }

  /** An invocation with these global options, and the subcommand found at word `sub`. */
  predicate CallFound(call: Call, before: Call, gs: seq<Global>, sub: nat) {
    && call.at == before.at && call.end == before.end && call.sub == Some(sub)
    && call.configs == before.configs + ConfigsOf(gs)
    && (call.elsewhere <==> before.elsewhere || Leaves(gs))
    && (!call.elsewhere ==> call.chdir == before.chdir + ChDirs(gs))
  }

  lemma LeavesOneMore(g: Global, gs: seq<Global>)
    ensures Leaves([g] + gs) <==> LeavesFolder(g) || Leaves(gs)
  {
    hide LeavesFolder;
    assert forall x :: x in [g] + gs <==> x == g || x in gs;
  }

  lemma ListsOneMore(g: Global, gs: seq<Global>)
    ensures ConfigsOf([g] + gs) == (if Sets(g) then [SettingOf(g)] else []) + ConfigsOf(gs)
    ensures ChDirs([g] + gs) == (if g.InDir? then [g.dir] else []) + ChDirs(gs)
  {
    assert ([g] + gs)[1..] == gs;
  }

  lemma FoundOneMore(call: Call, before: Call, g: Global, gs: seq<Global>, sub: nat)
    requires CallFound(call, WithGlobal(before, g), gs, sub)
    ensures CallFound(call, before, [g] + gs, sub)
  {
    hide LeavesFolder, Leaves, ConfigsOf, ChDirs;
    LeavesOneMore(g, gs);
    LeavesPointed(g);
    ListsOneMore(g, gs);
    Associative(before.configs, if Sets(g) then [SettingOf(g)] else [], ConfigsOf(gs));
    Associative(before.chdir, if g.InDir? then [g.dir] else [], ChDirs(gs));
    assert before.configs + [] == before.configs && before.chdir + [] == before.chdir;
  }

  lemma LeavesPointed(g: Global)
    ensures g.Pointed? ==> LeavesFolder(g)
    ensures Sets(g) || g.GlobalFlag? || g.Attributes? ==> !LeavesFolder(g)
  {
  }

  lemma {:induction false} GlobalsRead(words: seq<string>, i: nat, call: Call, gs: seq<Global>)
    requires forall g :: g in gs ==> GlobalOk(g)
    requires i + |AllGlobalWords(gs)| < |words| && words[i..i + |AllGlobalWords(gs)|] == AllGlobalWords(gs)
    requires !IsOption(words[i + |AllGlobalWords(gs)|]) && call.sub.None?
    ensures CallFound(Globals(words, i, call), call, gs, i + |AllGlobalWords(gs)|)
    decreases |gs|
  {
    hide GlobalOk, LeavesFolder, GlobalWords, IsOption, WithGlobal, Globals, CallFound;
    if gs == [] {
      SubFound(words, i, call);
    } else {
      var g, more := gs[0], gs[1..];
      var n := |GlobalWords(g)|;
      TwoRuns(words, i, GlobalWords(g), AllGlobalWords(more));
      GlobalRead(words, i, call, g);
      WithGlobalSub(call, g);
      GlobalsRead(words, i + n, WithGlobal(call, g), more);
      FoundOneMore(Globals(words, i, call), call, g, more, i + |AllGlobalWords(gs)|);
      assert [g] + more == gs;
    }
  }

  lemma TwoRuns(words: seq<string>, i: nat, a: seq<string>, b: seq<string>)
    requires i + |a| + |b| <= |words| && words[i..i + |a + b|] == a + b
    ensures words[i..i + |a|] == a && words[i + |a|..i + |a| + |b|] == b
  {
    var all := words[i..i + |a + b|];
    assert words[i..i + |a|] == all[..|a|] == a;
    assert words[i + |a|..i + |a| + |b|] == all[|a|..] == b;
  }

  lemma WithGlobalSub(call: Call, g: Global)
    ensures WithGlobal(call, g).sub == call.sub
  {
  }

  lemma SubFound(words: seq<string>, i: nat, call: Call)
    requires i < |words| && !IsOption(words[i])
    ensures CallFound(Globals(words, i, call), call, [], i)
  {
    assert words[i] != "--";
  }

  lemma {:induction false} NoCalls(words: seq<string>, i: nat)
    requires forall k :: i <= k < |words| ==> !IsGitProgram(words[k])
    ensures CallsFrom(words, i) == []
    decreases |words| - i
  {
    hide IsGitProgram;
    if i < |words| {
      NoCalls(words, i + 1);
    }
  }

  /** A Git command none of whose arguments names Git is one invocation, read whole. */
  lemma OneCall(c: Command) returns (call: Call)
    requires c.RunGit? && CommandOk(c)
    requires forall w :: w in ArgsOf(c.git) ==> !IsGitProgram(w)
    ensures CallsFrom(WordsOf(c), 0) == [call]
    ensures CallOk(WordsOf(c), call) && call.at == 0 && call.end == |WordsOf(c)| && call.sub.Some?
    ensures WordsOf(c)[call.sub.value] == SubOf(c.git) && WordsOf(c)[call.sub.value + 1..call.end] == ArgsOf(c.git)
    ensures call.configs == ConfigsOf(c.globals)
    ensures call.elsewhere <==> Leaves(c.globals)
    ensures !call.elsewhere ==> call.chdir == ChDirs(c.globals)
  {
    hide IsGitProgram, Leaves, ArgsOf, AllGlobalWords, GlobalOk, ConfigsOf, ChDirs, GitOk, IsOption, Globals, SubOf;
    var words := WordsOf(c);
    var g := AllGlobalWords(c.globals);
    var sub := 1 + |g|;
    assert words[0] == c.program && words[1..sub] == g && words[sub] == SubOf(c.git) && words[sub + 1..] == ArgsOf(c.git);
    SubIsNoOption(c.git);
    call := CallAt(words, 0);
    GlobalsRead(words, 1, Call(0, None, |words|, [], [], false), c.globals);
    forall k | sub + 1 <= k < |words| ensures !IsGitProgram(words[k]) {
      assert words[k] == words[sub + 1..][k - sub - 1];
    }
    NoCalls(words, sub + 1);
    assert words[sub + 1..call.end] == ArgsOf(c.git);
  }

  lemma NoDash(w: string)
    requires w != "" && w[0] != '-'
    ensures !IsOption(w)
  {
    assert "-"[0] != w[0];
  }

  lemma KeptIsName(sub: string, args: seq<string>)
    requires Keeps(sub, args)
    ensures sub != "" && sub[0] != '-'
  {
  }

  lemma SubIsNoOption(git: Git)
    requires GitOk(git)
    ensures !IsOption(SubOf(git))
  {
    if git.KeepsHead? {
      KeptIsName(git.sub, git.args);
    }
    if !git.Aliased? {
      NoDash(SubOf(git));
    }
  }

  // ----- long options -----

  lemma {:induction false} FormsAre(table: seq<(string, Kind)>, f: Form)
    ensures f in Forms(table) <==> (f.name, f.kind) in table && f.form == FormOf(f.name, f.negated)
  {
    if table != [] {
      var (name, kind) := table[0];
      FormsAre(table[1..], f);
      assert table == [table[0]] + table[1..];
      assert FormOf(name, false) == name && FormOf(name, true) == "no-" + name;
      assert f in [Form(name, name, false, kind), Form("no-" + name, name, true, kind)] <==>
          f.name == name && f.kind == kind && f.form == FormOf(f.name, f.negated) by {
        if f.negated { assert FormOf(f.name, f.negated) == "no-" + f.name; }
      }
    }
  }

  lemma {:induction false} ExactFinds(forms: seq<Form>, key: string)
    ensures Exact(forms, key).Some? ==> Exact(forms, key).value in forms && Exact(forms, key).value.form == key
    ensures Exact(forms, key).None? ==> forall f :: f in forms ==> f.form != key
  {
    if forms != [] {
      ExactFinds(forms[1..], key);
    }
  }

  lemma {:induction false} PrefixedFinds(forms: seq<Form>, key: string)
    ensures forall f :: f in Prefixed(forms, key) ==> f in forms && key <= f.form
  {
    if forms != [] {
      PrefixedFinds(forms[1..], key);
    }
  }

  /** An option that is neither a dry run nor a choice of branches, and takes no value. */
  predicate Harmless(name: string) {
    name == "verify" || name == "no-verify"
  }

  predicate SaysNo(name: string) {
    |name| >= 3 && name[0] == 'n' && name[1] == 'o' && name[2] == '-'
  }

  predicate PlainOption(o: (string, Kind)) {
    (SaysNo(o.0) ==> o.0 == "no-verify") && (Harmless(o.0) ==> o.1 == Flag)
  }

  predicate KindOk(o: (string, Kind)) {
    o.1 == Value <==> RoleOf(o.0) == TakesValue
  }

  predicate OptionOk(o: (string, Kind)) {
    PlainOption(o) && KindOk(o)
  }

  lemma FirstOptions()
    ensures forall o :: o in FIRST_OPTIONS ==> OptionOk(o)
  {
  }

  lemma NextOptions()
    ensures forall o :: o in NEXT_OPTIONS ==> OptionOk(o)
  {
  }

  lemma LastOptions()
    ensures forall o :: o in LAST_OPTIONS ==> OptionOk(o)
  {
  }

  lemma OptionsOk()
    ensures forall o :: o in PUSH_OPTIONS ==> OptionOk(o)
  {
    hide OptionOk, FIRST_OPTIONS, NEXT_OPTIONS, LAST_OPTIONS;
    FirstOptions();
    NextOptions();
    LastOptions();
  }

  /** Two options written alike are one option, or harmless. */
  lemma SameForm(a: string, an: bool, b: string, bn: bool)
    requires Known(a) && Known(b) && FormOf(a, an) == FormOf(b, bn)
    ensures (a == b && an == bn) || (Harmless(a) && Harmless(b))
  {
    hide Harmless;
    if an == bn {
      assert a == FormOf(a, an)[if an then 3 else 0..];
      assert b == FormOf(b, bn)[if bn then 3 else 0..];
    } else if an {
      NegatedName(a, b);
    } else {
      NegatedName(b, a);
    }
  }

  lemma NegatedName(a: string, b: string)
    requires Known(b) && b == "no-" + a
    ensures Harmless(a) && Harmless(b)
  {
    hide PUSH_OPTIONS, KindOk;
    OptionsOk();
    var o :| o in PUSH_OPTIONS && o.0 == b;
    assert OptionOk(o);
    assert SaysNo(b);
    assert a == b[3..];
    assert "no-verify"[3..] == "verify";
  }

  predicate Distinct(table: seq<(string, Kind)>) {
    forall i, j :: 0 <= i < j < |table| ==> table[i].0 != table[j].0
  }

  predicate Apart(a: seq<(string, Kind)>, b: seq<(string, Kind)>) {
    forall i, j :: 0 <= i < |a| && 0 <= j < |b| ==> a[i].0 != b[j].0
  }

  lemma FirstDistinct()
    ensures Distinct(FIRST_OPTIONS)
  {
  }

  lemma NextDistinct()
    ensures Distinct(NEXT_OPTIONS)
  {
  }

  lemma LastDistinct()
    ensures Distinct(LAST_OPTIONS)
  {
  }

  lemma FirstNextApart()
    ensures Apart(FIRST_OPTIONS, NEXT_OPTIONS)
  {
  }

  lemma FirstLastApart()
    ensures Apart(FIRST_OPTIONS, LAST_OPTIONS)
  {
  }

  lemma NextLastApart()
    ensures Apart(NEXT_OPTIONS, LAST_OPTIONS)
  {
  }

  lemma DistinctJoin(a: seq<(string, Kind)>, b: seq<(string, Kind)>)
    requires Distinct(a) && Distinct(b) && Apart(a, b)
    ensures Distinct(a + b)
  {
  }

  lemma ApartJoin(a: seq<(string, Kind)>, b: seq<(string, Kind)>, c: seq<(string, Kind)>)
    requires Apart(a, c) && Apart(b, c)
    ensures Apart(a + b, c)
  {
  }

  lemma OptionsDistinct()
    ensures Distinct(PUSH_OPTIONS)
  {
    hide FIRST_OPTIONS, NEXT_OPTIONS, LAST_OPTIONS, Distinct, Apart;
    FirstDistinct();
    NextDistinct();
    LastDistinct();
    FirstNextApart();
    FirstLastApart();
    NextLastApart();
    DistinctJoin(FIRST_OPTIONS, NEXT_OPTIONS);
    ApartJoin(FIRST_OPTIONS, NEXT_OPTIONS, LAST_OPTIONS);
    DistinctJoin(FIRST_OPTIONS + NEXT_OPTIONS, LAST_OPTIONS);
  }

  predicate Lists(table: seq<(string, Kind)>, name: string) {
    exists o :: o in table && o.0 == name
  }

  /** A key that begins the forms of one option alone, negated or not, begins just one form. */
  lemma {:induction false} OnePrefixed(table: seq<(string, Kind)>, key: string, name: string, negated: bool)
    requires Distinct(table) && key <= FormOf(name, negated)
    requires forall o, g {:trigger FormOf(o.0, g)} :: o in table && key <= FormOf(o.0, g) ==> o.0 == name && g == negated
    ensures |Prefixed(Forms(table), key)| == if Lists(table, name) then 1 else 0
  {
    if table != [] {
      var o, rest := table[0], table[1..];
      assert table == [o] + rest;
      OnePrefixed(rest, key, name, negated);
      TwoForms(o, rest, key);
      assert FormOf(o.0, false) == o.0 && FormOf(o.0, true) == "no-" + o.0;
      assert o in table;
      assert o.0 == name ==> !Lists(rest, name) by {
        forall x | x in rest ensures x.0 != o.0 {
          var j :| 0 <= j < |rest| && rest[j] == x;
          assert table[j + 1] == x;
        }
      }
      assert Lists(table, name) <==> o.0 == name || Lists(rest, name);
    }
  }

  lemma TwoForms(o: (string, Kind), rest: seq<(string, Kind)>, key: string)
    ensures |Prefixed(Forms([o] + rest), key)|
         == (if key <= o.0 then 1 else 0) + (if key <= "no-" + o.0 then 1 else 0) + |Prefixed(Forms(rest), key)|
  {
    var table := [o] + rest;
    var plain, no := Form(o.0, o.0, false, o.1), Form("no-" + o.0, o.0, true, o.1);
    assert table[1..] == rest;
    var forms := Forms(table);
    assert forms == [plain, no] + Forms(rest);
    assert forms[1..] == [no] + Forms(rest) && forms[1..][1..] == Forms(rest);
    assert Prefixed(forms, key) == (if key <= plain.form then [plain] else []) + Prefixed(forms[1..], key);
    assert Prefixed(forms[1..], key) == (if key <= no.form then [no] else []) + Prefixed(Forms(rest), key);
  }

  /** Git never reads an option that is not found. */
  lemma OptionFound(text: string, key: string, name: string, negated: bool)
    requires LongOk(key, name, negated) && BeforeFirst(text, '=') == key
    ensures PushLongOption(text).Some?
  {
    hide Forms, Exact, Prefixed, FormOf, BeforeFirst, AfterFirst, PUSH_OPTIONS, Distinct;
    var forms := Forms(PUSH_OPTIONS);
    ExactFinds(forms, key);
    var own :| own in PUSH_OPTIONS && own.0 == name;
    FormsAre(PUSH_OPTIONS, Form(FormOf(name, negated), name, negated, own.1));
    if key != FormOf(name, negated) {
      OptionsDistinct();
      OnePrefixed(PUSH_OPTIONS, key, name, negated);
      assert Lists(PUSH_OPTIONS, name);
    }
  }

  /** The option found is the one Git reads, or both are harmless, or none is found. */
  lemma OptionRead(text: string, key: string, name: string, negated: bool)
    requires LongOk(key, name, negated) && BeforeFirst(text, '=') == key
    ensures var o := PushLongOption(text);
            o.Some? ==>
              && (o.value.name, o.value.kind) in PUSH_OPTIONS
              && o.value.value == (if '=' in text then Some(AfterFirst(text, '=')) else None)
              && ((o.value.name == name && o.value.negated == negated) || (Harmless(o.value.name) && Harmless(name)))
  {
    hide Forms, Exact, Prefixed, FormOf, BeforeFirst, AfterFirst;
    var o := PushLongOption(text);
    var forms := Forms(PUSH_OPTIONS);
    ExactFinds(forms, key);
    PrefixedFinds(forms, key);
    var own :| own in PUSH_OPTIONS && own.0 == name;
    FormsAre(PUSH_OPTIONS, Form(FormOf(name, negated), name, negated, own.1));
    if o.Some? {
      var f := if Exact(forms, key).Some? then Exact(forms, key).value else Prefixed(forms, key)[0];
      assert f in forms && key <= f.form;
      FormsAre(PUSH_OPTIONS, f);
      assert (f.name, f.kind) in PUSH_OPTIONS && (f.name, f.kind).0 == f.name;
      if key == FormOf(name, negated) {
        assert f.form == key;
        SameForm(name, negated, f.name, f.negated);
      }
    }
  }

  // ----- the arguments of a push -----

  function Later(says: Option<bool>, was: bool): bool {
    if says.Some? then says.value else was
  }

  predicate SaysEvery(a: PushArg) {
    Says(a, PushesAll) == Some(true) || Says(a, Mirrors) == Some(true)
  }

  /** What reading one argument adds. */
  predicate OneRead(acc: PushRead, a: PushArg, acc': PushRead) {
    && acc'.unknown == acc.unknown
    && acc'.operands == acc.operands + (if a.Word? then [a.word] else [])
    && acc'.dryRun == Later(Says(a, DryRuns), acc.dryRun)
    && acc'.tagsOnly == Later(Says(a, PushesTags), acc.tagsOnly)
    && (acc'.every <==> acc.every || SaysEvery(a))
  }

  /** A run of letters, then what the cluster ends with. */
  lemma {:induction false} ClusterLetters(w: string, k: nat, letters: string, end: nat, acc: PushRead)
    requires k <= end <= |w| && w[k..end] == letters && LettersOk(letters)
    ensures Cluster(w, k, acc) == Cluster(w, end, acc.(dryRun := acc.dryRun || 'n' in letters))
    decreases end - k
  {
    if k < end {
      assert w[k] == letters[0] && letters[0] in letters;
      assert letters == [letters[0]] + letters[1..];
      ClusterLetters(w, k + 1, letters[1..], end, if w[k] == 'n' then acc.(dryRun := true) else acc);
    } else {
      assert letters == "";
    }
  }

  lemma LettersRead(w: string, letters: string, rest: string, acc: PushRead)
    requires w == "-" + letters + rest && LettersOk(letters)
    requires rest == "" || rest[0] == 'o'
    requires letters != "" || rest != ""
    ensures IsOption(w) && !Operand(w) && w != "--" && !("--" <= w)
    ensures Cluster(w, 1, acc) == (acc.(dryRun := acc.dryRun || 'n' in letters), rest != "" && |rest| == 1)
  {
    assert w[0] == '-';
    assert w[1] != '-' by {
      if letters != "" { assert w[1] == letters[0] && letters[0] in letters; }
    }
    assert w[1..1 + |letters|] == letters;
    ClusterLetters(w, 1, letters, 1 + |letters|, acc);
    assert rest != "" ==> w[1 + |letters|] == 'o';
  }

  lemma LongForm(key: string)
    requires key != ""
    ensures !Operand("--" + key) && "--" + key != "--" && "--" <= "--" + key && ("--" + key)[2..] == key
  {
  }

  lemma ReadOne(w: string, more: seq<string>, acc: PushRead)
    requires !Operand(w) && w != "--"
    ensures var (acc', takes) := if "--" <= w then LongRead(PushLongOption(w[2..]), acc) else Cluster(w, 1, acc);
            ReadArgs([w] + more, acc) == ReadArgs(if takes && more != [] then more[1..] else more, acc')
  {
    hide PushLongOption, LongRead;
    var args := [w] + more;
    assert args[0] == w && args[1..] == more;
    assert more != [] ==> args[2..] == more[1..];
  }

  predicate ReadAsOne(a: PushArg, more: seq<string>, acc: PushRead, acc': PushRead) {
    ReadArgs(PushWords(a) + more, acc) == ReadArgs(more, acc') && OneRead(acc, a, acc')
  }

  /** One argument read as Git reads it. */
  lemma ArgRead(a: PushArg, more: seq<string>, acc: PushRead) returns (acc': PushRead)
    requires PushArgOk(a)
    ensures ReadAsOne(a, more, acc, acc')
  {
    hide PushArgOk, LongOk, LettersOk, ReadAsOne;
    match a
    case Word(word) =>
      acc' := acc.(operands := acc.operands + [word]);
      WordArgRead(word, more, acc);
    case Letters(_) => acc' := LettersArgRead(a, more, acc);
    case LettersValue(_, _) => acc' := LettersArgRead(a, more, acc);
    case LettersJoined(_, _) => acc' := LettersArgRead(a, more, acc);
    case _ => acc' := LongArgRead(a, more, acc);
  }

  lemma WordArgRead(word: string, more: seq<string>, acc: PushRead)
    requires PushArgOk(Word(word))
    ensures ReadAsOne(Word(word), more, acc, acc.(operands := acc.operands + [word]))
  {
    hide PushLongOption, Cluster, LongRead;
    assert ([word] + more)[1..] == more;
  }

  lemma LettersArgRead(a: PushArg, more: seq<string>, acc: PushRead) returns (acc': PushRead)
    requires PushArgOk(a) && (a.Letters? || a.LettersValue? || a.LettersJoined?)
    ensures ReadAsOne(a, more, acc, acc')
  {
    hide PushLongOption, Cluster, LettersOk, ReadArgs;
    var rest := if a.Letters? then "" else if a.LettersValue? then "o" else "o" + a.value;
    var next := (if a.LettersValue? then [a.value] else []) + more;
    var w := "-" + a.letters + rest;
    assert PushWords(a)[0] == w by {
      assert a.LettersJoined? ==> "-" + a.letters + "o" + a.value == w;
    }
    assert PushWords(a) + more == [w] + next;
    assert if a.LettersValue? then next[1..] == more else next == more;
    LettersRead(w, a.letters, rest, acc);
    ReadOne(w, next, acc);
    acc' := acc.(dryRun := acc.dryRun || 'n' in a.letters);
  }

  lemma LongArgRead(a: PushArg, more: seq<string>, acc: PushRead) returns (acc': PushRead)
    requires PushArgOk(a) && (a.Long? || a.LongEquals? || a.LongValue?)
    ensures ReadAsOne(a, more, acc, acc')
  {
    hide PushLongOption, Known, GitReads, ReadArgs, RoleOf, OneRead;
    var text := LongText(a);
    var negated := if a.LongValue? then false else a.negated;
    var next := (if a.LongValue? then [a.value] else []) + more;
    LongForm(text);
    OptionRead(text, a.key, a.name, negated);
    assert PushWords(a) + more == ["--" + text] + next;
    ReadOne("--" + text, next, acc);
    var o := PushLongOption(text);
    OptionFound(text, a.key, a.name, negated);
    acc' := LongRead(o, acc).0;
    LongEffect(a, o.value, acc);
    assert if a.LongValue? then next[1..] == more else next == more;
  }

  lemma LongText(a: PushArg) returns (text: string)
    requires PushArgOk(a) && (a.Long? || a.LongEquals? || a.LongValue?)
    ensures PushWords(a) == ["--" + text] + (if a.LongValue? then [a.value] else [])
    ensures text != "" && BeforeFirst(text, '=') == a.key
    ensures '=' in text <==> a.LongEquals?
  {
    hide Known, GitReads;
    text := if a.LongEquals? then a.key + "=" + a.value else a.key;
    CutAt(a.key, '=', if a.LongEquals? then a.value else "");
    if a.LongEquals? {
      assert text[|a.key|] == '=';
      assert "--" + (a.key + "=" + a.value) == "--" + a.key + "=" + a.value;
    }
  }

  lemma LongEffect(a: PushArg, o: LongOption, acc: PushRead)
    requires PushArgOk(a) && (a.Long? || a.LongEquals? || a.LongValue?)
    requires (o.name, o.kind) in PUSH_OPTIONS && (o.value.Some? <==> a.LongEquals?)
    requires (o.name == a.name && o.negated == (!a.LongValue? && a.negated)) || (Harmless(o.name) && Harmless(a.name))
    ensures OneRead(acc, a, LongRead(Some(o), acc).0)
    ensures LongRead(Some(o), acc).1 <==> a.LongValue?
  {
    hide PUSH_OPTIONS, GitReads, Known, RoleOf, Harmless;
    OptionsOk();
    assert OptionOk((o.name, o.kind));
    HarmlessRole(o.name);
    HarmlessRole(a.name);
  }

  lemma HarmlessRole(name: string)
    ensures Harmless(name) ==> RoleOf(name) == Other
  {
  }

  /** Some argument asks for every branch; one later that takes it back is not heard. */
  predicate SomeEvery(args: seq<PushArg>) {
    exists a :: a in args && SaysEvery(a)
  }

  lemma {:induction false} LastIsSaid(args: seq<PushArg>, flag: Role)
    requires Asks(args, flag)
    ensures exists a :: a in args && Says(a, flag) == Some(true)
  {
    hide Says;
    if LastSays(args[1..], flag).Some? {
      LastIsSaid(args[1..], flag);
    } else {
      assert args[0] in args;
    }
  }

  lemma EveryIsSaid(args: seq<PushArg>)
    ensures AsksEvery(args) ==> SomeEvery(args)
  {
    hide Says, LastSays;
    if Asks(args, PushesAll) {
      LastIsSaid(args, PushesAll);
    } else if Asks(args, Mirrors) {
      LastIsSaid(args, Mirrors);
    }
  }

  lemma SomeMore(a: PushArg, args: seq<PushArg>)
    ensures SomeEvery([a] + args) <==> SaysEvery(a) || SomeEvery(args)
  {
    hide SaysEvery;
    assert forall x :: x in [a] + args <==> x == a || x in args;
  }

  /** The last word on a flag over what was read before. */
  predicate AllRead(acc: PushRead, args: seq<PushArg>, operands: seq<string>, r: PushRead) {
    && r.operands == acc.operands + operands
    && r.dryRun == Later(LastSays(args, DryRuns), acc.dryRun)
    && r.tagsOnly == Later(LastSays(args, PushesTags), acc.tagsOnly)
    && (r.every <==> acc.every || SomeEvery(args)) && r.unknown == acc.unknown
  }

  lemma OneMoreRead(acc: PushRead, a: PushArg, acc': PushRead, args: seq<PushArg>, operands: seq<string>, r: PushRead)
    requires OneRead(acc, a, acc') && AllRead(acc', args, operands, r)
    ensures AllRead(acc, [a] + args, (if a.Word? then [a.word] else []) + operands, r)
  {
    hide Says, SaysEvery, SomeEvery;
    SomeMore(a, args);
    assert ([a] + args)[1..] == args;
    assert acc.operands + (if a.Word? then [a.word] else []) + operands == acc.operands + ((if a.Word? then [a.word] else []) + operands);
  }

  /** The arguments of a push read as Git reads them: operands, and the last word on each flag. */
  lemma {:induction false} ArgsRead(args: seq<PushArg>, tail: Option<seq<string>>, acc: PushRead)
    requires forall a :: a in args ==> PushArgOk(a)
    ensures AllRead(acc, args, AllOperands(args, tail), ReadArgs(AllPushWords(args) + TailWords(tail), acc))
    decreases |args|
  {
    hide PushArgOk, PushWords, ReadArgs, OneRead, AllRead, LastSays;
    if args == [] {
      TailRead(tail, acc);
    } else {
      var a, more := args[0], args[1..];
      var words := AllPushWords(more) + TailWords(tail);
      assert AllPushWords(args) + TailWords(tail) == PushWords(a) + words;
      var acc' := ArgRead(a, words, acc);
      ArgsRead(more, tail, acc');
      OneMoreRead(acc, a, acc', more, AllOperands(more, tail), ReadArgs(PushWords(a) + words, acc));
      assert [a] + more == args;
      OperandsOneMore(a, more, tail);
    }
  }

  lemma OperandsOneMore(a: PushArg, more: seq<PushArg>, tail: Option<seq<string>>)
    ensures AllOperands([a] + more, tail) == (if a.Word? then [a.word] else []) + AllOperands(more, tail)
  {
    assert ([a] + more)[1..] == more;
  }

  lemma TailRead(tail: Option<seq<string>>, acc: PushRead)
    ensures AllRead(acc, [], AllOperands([], tail), ReadArgs(AllPushWords([]) + TailWords(tail), acc))
  {
    var words := AllPushWords([]) + TailWords(tail);
    assert tail.Some? ==> words[0] == "--" && words[1..] == tail.value;
    assert AllOperands([], tail) == if tail.Some? then tail.value else [];
  }
}
