/**
 * What the words are that the analysis and Git's side both speak of: programs, folders, settings, names a shell
 * rewrites, and the forms of options and refs. Each is said here by how it is spelled.
 */
module PushWords {
  import opened Common
  import opened PushText
  import opened PushAnalysis
  import opened PushSemantics
  import opened PushExact

  // ----- words a shell rewrites -----

  predicate Holds(w: string, chars: set<char>) {
    exists i :: 0 <= i < |w| && w[i] in chars
  }

  lemma SameCharacters(w: string, chars: string, these: set<char>)
    requires forall c :: c in chars <==> c in these
    ensures HasAny(w, chars) <==> Holds(w, these)
  {
    if Holds(w, these) {
      var i :| 0 <= i < |w| && w[i] in these;
      assert w[i] in w && w[i] in chars;
    }
  }

  /** `@` and a letter, digit or `_`: what PowerShell takes apart. */
  predicate Splat(w: string) {
    |w| >= 2 && w[0] == '@' && (w[1] == '_' || '0' <= w[1] <= '9' || 'a' <= w[1] <= 'z' || 'A' <= w[1] <= 'Z')
  }

  lemma RewrittenRef(w: string)
    ensures UnreadableRef(w) <==> Splat(w) || Holds(w, {'$', '`', '?', '[', '{', '%', '(', '<', '^', '!', '\\'})
  {
    hide HasAny, Holds;
    SameCharacters(w, "$`?[{%(<^!\\", {'$', '`', '?', '[', '{', '%', '(', '<', '^', '!', '\\'});
  }

  lemma RewrittenRemote(w: string)
    ensures UnreadableRemote(w) <==> Splat(w) || Holds(w, {'$', '`', '%', '*', '?', '[', '{'})
  {
    hide HasAny, Holds;
    SameCharacters(w, "$`%*?[{", {'$', '`', '%', '*', '?', '[', '{'});
  }

  lemma RewrittenPath(w: string)
    ensures UnreadablePath(w) <==> Holds(w, {'$', '`', '?', '*', '[', '{', '%', '(', '<'})
  {
    hide HasAny, Holds;
    SameCharacters(w, "$`?*[{%(<", {'$', '`', '?', '*', '[', '{', '%', '(', '<'});
  }

  lemma RewrittenWord(w: string)
    ensures UnreadableWord(w) <==> Holds(w, {'$', '`', '(', ')', '{', '}', '@', '\\', '^', '%', '!', '*', '?', '[', '<', '>'})
  {
    hide HasAny, Holds;
    SameCharacters(w, "$`(){}@\\^%!*?[<>", {'$', '`', '(', ')', '{', '}', '@', '\\', '^', '%', '!', '*', '?', '[', '<', '>'});
  }

  /** The branch before (`-`), one by its reflog, a pattern, or a name a shell rewrites. */
  lemma UnreadableBranches(b: string)
    ensures UnreadableBranch(b) <==> b == "-" || (|b| >= 2 && b[0] == '@' && b[1] == '{') || UnreadableRef(b) || '*' in b
  {
    hide UnreadableRef;
    PrefixAgrees("@{", b, 0);
    PrefixAgrees("@{", b, 1);
    if |b| >= 2 && b[0] == '@' && b[1] == '{' {
      assert b[..2] == "@{";
    }
  }

  // ----- folders -----

  /** Where a shell comes to that goes into each folder in turn, and back at `..`; none when it leaves the first. */
  function Walk(cwd: seq<string>, parts: seq<string>): Option<seq<string>>
    decreases |parts|
  {
    if parts == [] then Some(cwd)
    else if parts[0] == ".." then (if cwd == [] then None else Walk(cwd[..|cwd| - 1], parts[1..]))
    else Walk(cwd + [parts[0]], parts[1..])
  }

  /** A path that is followed leads down from where the shell is, folder by folder. */
  lemma InsideWalksDown(cwd: seq<string>, p: string)
    requires InsideWorkingFolder(p)
    ensures Walk(cwd, Parts(p)) == Some(cwd + Parts(p))
  {
    hide Parts;
    NoReturn(cwd, Parts(p));
  }

  lemma {:induction false} NoReturn(cwd: seq<string>, parts: seq<string>)
    requires ".." !in parts
    ensures Walk(cwd, parts) == Some(cwd + parts)
    decreases |parts|
  {
    if parts == [] {
      assert cwd + parts == cwd;
    } else {
      NoReturn(cwd + [parts[0]], parts[1..]);
      assert cwd + [parts[0]] + parts[1..] == cwd + parts;
    }
  }

  /** It is followed exactly when it is no `-`, goes back nowhere, and starts at no root, home, drive or variable. */
  lemma FollowedExactly(p: string)
    ensures InsideWorkingFolder(p) <==>
              && p != "-" && (forall part :: part in Parts(p) ==> part != "..")
              && (p == "" || (p[0] != '/' && p[0] != '\\' && p[0] != '~' && p[0] != '$' && p[0] != '%'))
              && (|p| >= 2 && ('a' <= p[0] <= 'z' || 'A' <= p[0] <= 'Z') ==> p[1] != ':')
  {
    hide Parts;
  }

  // ----- programs -----

  /** A folder in front of a program's name. */
  predicate InFront(folder: string) {
    folder == "" || Separator(folder[|folder| - 1])
  }

  lemma {:induction false} AfterFolder(folder: string, name: string, seps: string)
    requires folder == "" || folder[|folder| - 1] in seps
    requires forall c :: c in name ==> c !in seps
    ensures AfterLast(folder + name, seps) == name
    decreases |folder|
  {
    var w := folder + name;
    if folder == "" {
      assert w == name;
      NoSeparators(name, seps);
    } else {
      assert w[|folder| - 1] in w;
      assert w[1..] == folder[1..] + name;
      AfterFolder(folder[1..], name, seps);
    }
  }

  /** `git`, in any case, with `.exe` or not, behind any folder. */
  lemma GitIsFound(folder: string, name: string)
    requires InFront(folder) && Lower(name) in {"git", "git.exe"} && forall c :: c in name ==> !Separator(c)
    ensures IsGitProgram(folder + name)
  {
    AfterFolder(folder, name, "/\\");
    LowerTwice(name);
  }

  lemma LowerTwice(s: string)
    ensures Lower(Lower(s)) == Lower(s)
  {
  }

  /** And no other word of letters is. */
  lemma OtherIsNotGit(word: string)
    requires Plain(word) && Lower(word) != "git"
    ensures !IsGitProgram(word)
  {
    assert forall c :: c in word ==> c !in "/\\" && c !in "/" && c !in "\\^`" by {
      assert !Letter('/') && !Letter('\\') && !Letter('^') && !Letter('`');
    }
    NoSeparators(word, "/\\");
    NoSeparators(word, "/");
    NothingLeftOut(word, "\\^`");
    LowerTwice(word);
    if |word| == 7 {
      assert Letter(word[3]) && LowerChar(word[3]) != '.';
    }
    assert "git.exe"[3] == '.';
  }

  lemma {:induction false} NothingLeftOut(s: string, chars: string)
    requires forall c :: c in s ==> c !in chars
    ensures Without(s, chars) == s
  {
    if s != "" {
      assert s == [s[0]] + s[1..];
      NothingLeftOut(s[1..], chars);
    }
  }

  /** Letters, digits, and what names and folders hold: nothing a shell splits at or quotes with. */
  predicate Unquoted(w: string) {
    w != "" && w[0] != '"' && w[0] != '\'' && forall c :: c in w ==> !Space(c)
  }

  lemma {:induction false} RunsOn(w: string)
    requires forall c :: c in w ==> !Space(c)
    ensures FirstRun(w) == w && TrimStart(w) == w && TrimEnd(w) == w
  {
    hide Space;
    if w != "" {
      assert w == [w[0]] + w[1..];
      RunsOn(w[1..]);
      assert w[|w| - 1] in w;
    }
  }

  lemma WordIsProgram(w: string)
    requires Unquoted(w)
    ensures CommandWord(w) == Lower(StripExtension(AfterLast(w, "/\\")))
  {
    hide Space, StripExtension, AfterLast, FirstRun, TrimStart, TrimEnd;
    RunsOn(w);
    if |w| >= 2 { assert w[1] in w; }
  }

  /** `cd`, `pushd` and the others, in any case, behind any folder, with a program's extension or not. */
  lemma CdIsFound(folder: string, name: string, extension: string)
    requires InFront(folder) && Unquoted(folder + name + extension)
    requires Lower(name) in {"cd", "chdir", "pushd", "set-location", "sl", "push-location"}
    requires Lower(extension) in {"", ".exe", ".cmd", ".bat", ".com", ".ps1"}
    ensures ChangesDirectory(folder + name + extension)
  {
    hide Space;
    var file := name + extension;
    assert folder + file == folder + name + extension;
    NameHasNoFolder(name, extension);
    AfterFolder(folder, file, "/\\");
    WordIsProgram(folder + file);
    ExtensionStripped(name, extension);
  }

  lemma NameHasNoFolder(name: string, extension: string)
    requires Lower(name) in {"cd", "chdir", "pushd", "set-location", "sl", "push-location"}
    requires Lower(extension) in {"", ".exe", ".cmd", ".bat", ".com", ".ps1"}
    ensures forall c :: c in name + extension ==> c !in "/\\"
  {
    LowerKeepsSeparators(name);
    LowerKeepsSeparators(extension);
  }

  lemma LowerKeepsSeparators(s: string)
    ensures forall c :: c in "/\\" && c in s ==> c in Lower(s)
  {
    forall c | c in "/\\" && c in s ensures c in Lower(s) {
      var i :| 0 <= i < |s| && s[i] == c;
      assert Lower(s)[i] == c;
    }
  }

  lemma ExtensionStripped(name: string, extension: string)
    requires Lower(name) in {"cd", "chdir", "pushd", "set-location", "sl", "push-location"}
    requires Lower(extension) in {"", ".exe", ".cmd", ".bat", ".com", ".ps1"}
    ensures Lower(StripExtension(name + extension)) == Lower(name)
  {
    var s := name + extension;
    if extension == "" {
      assert s == name;
      if |s| >= 4 {
        assert Lower(s)[|s| - 4..][0] == Lower(name)[|name| - 4];
      }
    } else {
      assert |extension| == 4 && Lower(s)[|s| - 4..] == Lower(extension);
      assert s[..|s| - 4] == name;
    }
  }

  /** And no other plain word changes the folder. */
  lemma OtherIsNoCd(word: string)
    requires Plain(word) && Lower(word) !in {"cd", "chdir", "pushd", "sl"}
    ensures !ChangesDirectory(word)
  {
    PlainIsUnquoted(word);
    WordIsProgram(word);
    NoSeparators(word, "/\\") by { assert !Letter('/') && !Letter('\\'); }
    if |word| >= 4 {
      assert Letter(word[|word| - 4]) && LowerChar(word[|word| - 4]) != '.';
      assert Lower(word)[|word| - 4..][0] == LowerChar(word[|word| - 4]);
    }
    assert StripExtension(word) == word;
    NoHyphen(word);
  }

  lemma NoHyphen(word: string)
    requires Plain(word)
    ensures Lower(word) != "set-location" && Lower(word) != "push-location"
  {
    if |word| == 12 { assert Letter(word[3]) && LowerChar(word[3]) != '-'; }
    if |word| == 13 { assert Letter(word[4]) && LowerChar(word[4]) != '-'; }
    assert "set-location"[3] == '-' && "push-location"[4] == '-';
  }

  lemma PlainIsUnquoted(word: string)
    requires Plain(word)
    ensures Unquoted(word)
  {
    assert Letter(word[0]);
  }

  // ----- settings, options and refs -----

  /** Where a push goes is set by push.default, and for each remote and branch by its push, mirror and merge. */
  lemma PushSettingsAre(key: string)
    ensures PushConfigKey(key) <==>
              || Lower(key) == "push.default"
              || (exists name :: name != "" && Lower(key) == "remote." + name + ".push")
              || (exists name :: name != "" && Lower(key) == "remote." + name + ".mirror")
              || (exists name :: name != "" && Lower(key) == "branch." + name + ".merge")
  {
    var k := Lower(key);
    Between(k, "remote.", ".push");
    Between(k, "remote.", ".mirror");
    Between(k, "branch.", ".merge");
  }

  lemma Between(k: string, first: string, last: string)
    ensures (first <= k && |k| > |first| + |last| && k[|k| - |last|..] == last) <==> exists name :: name != "" && k == first + name + last
  {
    if first <= k && |k| > |first| + |last| && k[|k| - |last|..] == last {
      var name := k[|first|..|k| - |last|];
      assert k == first + name + last;
    }
  }

  /** What Git's options of a push do, by name. */
  lemma PushRoles(name: string)
    ensures RoleOf(name) == DryRuns <==> name == "dry-run"
    ensures RoleOf(name) == PushesAll <==> name == "all" || name == "branches"
    ensures RoleOf(name) == Mirrors <==> name == "mirror"
    ensures RoleOf(name) == PushesTags <==> name == "tags"
    ensures RoleOf(name) == TakesValue <==> name == "repo" || name == "recurse-submodules" || name == "receive-pack" || name == "exec" || name == "push-option"
  {
  }

  lemma WordForms(w: string, key: string)
    ensures IsOption(w) <==> w != "" && w[0] == '-'
    ensures Operand(w) <==> w == "-" || w == "" || w[0] != '-'
    ensures IsKey(w, key) <==> w == key || exists value: string :: w == key + "=" + value
  {
    if w != "" && w[0] == '-' { assert w[..1] == "-"; }
    PrefixAgrees("-", w, 0);
    if key + "=" <= w {
      assert w == key + "=" + w[|key| + 1..];
    }
  }

  /** HEAD in any case, or `@`. */
  lemma HeadForms(d: string)
    ensures IsHead(d) <==> Lower(d) == "head" || d == "@"
  {
  }

  /** A branch in full, in any case of its prefix, is the branch; any other name is itself. */
  lemma FullBranch(prefix: string, b: string)
    requires Lower(prefix) == "refs/heads/"
    ensures StripHeads(prefix + b) == b && !OtherRef(prefix + b)
  {
    assert |prefix| == 11 && (prefix + b)[..11] == prefix;
  }

  lemma NotInFull(d: string)
    requires forall prefix, b :: prefix + b == d ==> Lower(prefix) != "refs/heads/"
    ensures StripHeads(d) == d
  {
    if |d| >= 11 {
      assert d[..11] + d[11..] == d;
    }
  }

  /** A ref in full that is no branch, in any case. */
  lemma OtherRefs(d: string)
    ensures OtherRef(d) <==> exists rest :: Lower(d) == "refs/" + rest && !("heads/" <= rest)
  {
    var l := Lower(d);
    if |d| >= 5 { assert Lower(d[..5]) == l[..5]; }
    if |d| >= 11 { assert Lower(d[..11]) == l[..11]; }
    assert OtherRef(d) <==> "refs/" <= l && !("refs/heads/" <= l);
    if "refs/" <= l {
      assert l == "refs/" + l[5..];
    }
    forall rest | l == "refs/" + rest ensures "refs/heads/" <= l <==> "heads/" <= rest {
      UnderRefs(rest);
    }
  }

  lemma UnderRefs(rest: string)
    ensures "refs/heads/" <= "refs/" + rest <==> "heads/" <= rest
  {
    var l := "refs/" + rest;
    assert "refs/heads/" == "refs/" + "heads/";
    if |rest| >= 6 {
      assert l[..11] == "refs/" + rest[..6];
      assert l[5..11] == rest[..6] && "refs/heads/"[5..] == "heads/";
    }
  }

  /** A forcing `+` is no part of a refspec. */
  lemma PlusIsDropped(spec: string)
    ensures Unforced("+" + spec) == spec
    ensures spec == "" || spec[0] != '+' ==> Unforced(spec) == spec
  {
    PrefixAgrees("+", spec, 0);
  }
}
