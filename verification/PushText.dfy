/** Words and paths as the command analysis reads them (packages/security/src/commands.ts, shell-parse.ts). */
module PushText {
  import opened Common

  function LowerChar(c: char): char {
    if 'A' <= c <= 'Z' then ((c as int) + 32) as char else c
  }

  function Lower(s: string): (r: string)
    ensures |r| == |s|
  {
    seq(|s|, i requires 0 <= i < |s| => LowerChar(s[i]))
  }

  predicate HasAny(s: string, chars: string) {
    exists c :: c in s && c in chars
  }

  predicate Letter(c: char) {
    'a' <= c <= 'z' || 'A' <= c <= 'Z'
  }

  predicate WordChar(c: char) {
    Letter(c) || '0' <= c <= '9' || c == '_'
  }

  /** What follows the last of `seps`. */
  function AfterLast(s: string, seps: string): string {
    if HasAny(s, seps) then AfterLast(s[1..], seps) else s
  }

  function Without(s: string, chars: string): string {
    if s == "" then "" else (if s[0] in chars then "" else [s[0]]) + Without(s[1..], chars)
  }

  function BaseName(file: string): string {
    Lower(AfterLast(file, "/\\"))
  }

  predicate IsGitName(name: string) {
    Lower(name) == "git" || Lower(name) == "git.exe"
  }

  /** `git`, a path to it, or its name with a shell's escape inside. */
  predicate IsGitProgram(word: string) {
    IsGitName(BaseName(word)) || IsGitName(Without(AfterLast(word, "/"), "\\^`"))
  }

  // ----- paths -----

  predicate Separator(c: char) {
    c == '/' || c == '\\'
  }

  /** A path component that names a folder. */
  predicate Clean(part: string) {
    part != "" && part != "." && forall c :: c in part ==> !Separator(c)
  }

  function Kept(part: string): seq<string> {
    if part == "" || part == "." then [] else [part]
  }

  function PartsFrom(part: string, s: string): seq<string>
    decreases |s|
  {
    if s == "" then Kept(part)
    else if Separator(s[0]) then Kept(part) + PartsFrom("", s[1..])
    else PartsFrom(part + [s[0]], s[1..])
  }

  /** The folders a path names, one inside another. */
  function Parts(s: string): seq<string> {
    PartsFrom("", s)
  }

  function Slashed(path: seq<string>): string {
    if path == [] then "" else if |path| == 1 then path[0] else path[0] + "/" + Slashed(path[1..])
  }

  function Extended(base: string, parts: seq<string>): string
    decreases |parts|
  {
    if parts == [] then base else Extended(base + "/" + parts[0], parts[1..])
  }

  /** The folder reached from `base` through each of `parts`, as text. */
  function JoinDir(base: string, parts: seq<string>): string {
    Slashed(Parts(Extended(base, parts)))
  }

  function Flat(parts: seq<string>): seq<string> {
    if parts == [] then [] else Parts(parts[0]) + Flat(parts[1..])
  }

  predicate CleanPath(path: seq<string>) {
    forall p :: p in path ==> Clean(p)
  }

  lemma {:induction false} PartsFromClean(part: string, s: string)
    requires forall c :: c in part ==> !Separator(c)
    ensures CleanPath(PartsFrom(part, s))
    decreases |s|
  {
    if s == "" {
    } else if Separator(s[0]) {
      PartsFromClean("", s[1..]);
    } else {
      PartsFromClean(part + [s[0]], s[1..]);
    }
  }

  lemma {:induction false} FlatClean(parts: seq<string>)
    ensures CleanPath(Flat(parts))
  {
    if parts != [] {
      PartsFromClean("", parts[0]);
      FlatClean(parts[1..]);
    }
  }

  lemma {:induction false} PartsFromSplit(part: string, a: string, b: string)
    ensures PartsFrom(part, a + "/" + b) == PartsFrom(part, a) + Parts(b)
    decreases |a|
  {
    var whole := a + "/" + b;
    if a == "" {
      assert whole[0] == '/' && whole[1..] == b;
    } else {
      assert whole[0] == a[0] && whole[1..] == a[1..] + "/" + b;
      if Separator(a[0]) {
        PartsFromSplit("", a[1..], b);
      } else {
        PartsFromSplit(part + [a[0]], a[1..], b);
      }
    }
  }

  lemma {:induction false} PartsOfName(part: string, name: string)
    requires forall c :: c in name ==> !Separator(c)
    ensures PartsFrom(part, name) == Kept(part + name)
    decreases |name|
  {
    if name == "" {
      assert part + name == part;
    } else {
      PartsOfName(part + [name[0]], name[1..]);
      assert part + [name[0]] + name[1..] == part + name;
    }
  }

  lemma {:induction false} PartsOfSlashed(path: seq<string>)
    requires CleanPath(path)
    ensures Parts(Slashed(path)) == path
  {
    if path == [] {
    } else {
      assert Clean(path[0]);
      PartsOfName("", path[0]);
      assert "" + path[0] == path[0];
      if |path| > 1 {
        PartsFromSplit("", path[0], Slashed(path[1..]));
        PartsOfSlashed(path[1..]);
      } else {
        assert path == [path[0]];
      }
    }
  }

  lemma {:induction false} PartsOfExtended(base: string, parts: seq<string>)
    ensures Parts(Extended(base, parts)) == Parts(base) + Flat(parts)
    decreases |parts|
  {
    if parts != [] {
      PartsOfExtended(base + "/" + parts[0], parts[1..]);
      PartsFromSplit("", base, parts[0]);
    }
  }

  /** Joining names the folder reached by walking each path in turn. */
  lemma JoinDirWalks(path: seq<string>, parts: seq<string>)
    requires CleanPath(path)
    ensures CleanPath(path + Flat(parts))
    ensures JoinDir(Slashed(path), parts) == Slashed(path + Flat(parts))
  {
    PartsOfSlashed(path);
    PartsOfExtended(Slashed(path), parts);
    FlatClean(parts);
  }

  lemma SlashedEmpty(path: seq<string>)
    requires CleanPath(path)
    ensures Slashed(path) == "" <==> path == []
  {
    if path != [] {
      assert Clean(path[0]);
    }
  }

  /** The path stays below where it starts. */
  predicate InsideWorkingFolder(p: string) {
    && p != "-"
    && !(p != "" && p[0] in "\\/~$%")
    && !(|p| >= 2 && Letter(p[0]) && p[1] == ':')
    && ".." !in Parts(p)
  }

  // ----- what cannot be read -----

  predicate UnreadablePath(p: string) {
    HasAny(p, "$`?*[{%(<")
  }

  predicate UnreadableRef(r: string) {
    HasAny(r, "$`?[{%(<^!\\") || (|r| >= 2 && r[0] == '@' && WordChar(r[1]))
  }

  predicate UnreadableRemote(r: string) {
    HasAny(r, "$`%*?[{") || (|r| >= 2 && r[0] == '@' && WordChar(r[1]))
  }

  /** remote.*.push, remote.*.mirror, push.default and branch.*.merge. */
  predicate PushConfigKey(key: string) {
    var k := Lower(key);
    || k == "push.default"
    || ("remote." <= k && |k| > 12 && k[|k| - 5..] == ".push")
    || ("remote." <= k && |k| > 14 && k[|k| - 7..] == ".mirror")
    || ("branch." <= k && |k| > 13 && k[|k| - 6..] == ".merge")
  }

  function StripHeads(b: string): string {
    if |b| >= 11 && Lower(b[..11]) == "refs/heads/" then b[11..] else b
  }

  // ----- the program a word names -----

  function TrimStart(s: string): string {
    if s != "" && Space(s[0]) then TrimStart(s[1..]) else s
  }

  function TrimEnd(s: string): string {
    if s != "" && Space(s[|s| - 1]) then TrimEnd(s[..|s| - 1]) else s
  }

  function FirstRun(s: string): string {
    if s == "" || Space(s[0]) then "" else [s[0]] + FirstRun(s[1..])
  }

  function StripExtension(s: string): string {
    var l := Lower(s);
    if |s| >= 4 && l[|s| - 4..] in {".exe", ".cmd", ".bat", ".com", ".ps1"} then s[..|s| - 4] else s
  }

  /** What a command's first word runs: no folder, no extension, lower case. */
  function CommandWord(segment: string): string {
    var t0 := TrimStart(TrimEnd(segment));
    var t := if |t0| >= 2 && t0[0] in "&." && Space(t0[1]) then TrimStart(t0[1..]) else t0;
    var quoted := if t != "" && (t[0] == '"' || t[0] == '\'') then BeforeFirst(t[1..], t[0]) else "";
    var raw := if quoted != "" && |quoted| + 1 < |t| then quoted else FirstRun(t);
    Lower(StripExtension(AfterLast(raw, "/\\")))
  }

  predicate ChangesDirectory(word: string) {
    CommandWord(word) in {"cd", "chdir", "pushd", "set-location", "sl", "push-location"}
  }
}
