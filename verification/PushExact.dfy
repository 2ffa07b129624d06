/** Exactly when the answer for one push covers what Git does, and pushes it misses. */
module PushExact {
  import opened Common
  import opened PushText
  import opened PushAnalysis
  import opened PushSemantics
  import opened PushReach
  import opened PushReading
  import opened PushMoves
  import opened PushSoundness

  function SiteFor(c: Command): Site {
    Site(WordsOf(c), false, c.RunGit? && c.elsewhere, false)
  }

  lemma SiteIsOf(c: Command)
    ensures SiteOf(c, SiteFor(c)) && SiteFor(c).words == WordsOf(c)
  {
    hide WordsOf;
  }

  /** The words the analysis is given for a line. */
  function SitesOf(line: seq<Command>): seq<Site> {
    if line == [] then [] else [SiteFor(line[0])] + SitesOf(line[1..])
  }

  // ----- `git push <remote> <refspec>` -----

  function PushOf(remote: string, spec: string): Command {
    RunGit("git", [], Push([Word(remote), Word(spec)], None), false)
  }

  function PushSite(remote: string, spec: string): Site {
    Site(["git", "push", remote, spec], false, false, false)
  }

  function Answer(remote: string, spec: string): Targets {
    TargetsOf([PushSite(remote, spec)])
  }

  /** An answer that gives up, or says no more than HEAD's branch, a named one or nothing. */
  datatype Said = GaveUp | Head | Branch(name: string) | Nothing

  predicate SaysIt(out: Targets, said: Said) {
    match said
    case GaveUp => GivesUp(out)
    case Head => out == NO_TARGETS.(current := true)
    case Branch(name) => out == NO_TARGETS.(branches := [name])
    case Nothing => out == NO_TARGETS
  }

  /** The refspec split at its first colon. */
  function FirstSaid(spec: string): Said {
    var plain := Unforced(spec);
    var first := FirstDestination(plain);
    if plain == ":" || GivesUpSpec(plain, first) then GaveUp
    else if first == "" then Nothing
    else if IsHead(first) then Head
    else if OtherRef(first) then Nothing
    else Branch(StripHeads(first))
  }

  /** A subcommand that pushes, or may. */
  predicate StartsUnknown(word: string) {
    Lower(word) == "push" || UnreadableWord(word) || Lower(word) == "send-pack" || Lower(word) == "http-push"
  }

  /** What the answer says: an argument that names Git ends the push before it. */
  function SaidOf(remote: string, spec: string): Said {
    if IsGitProgram(remote) then (if StartsUnknown(spec) then GaveUp else Head)
    else if UnreadableRemote(remote) then GaveUp
    else if IsGitProgram(spec) then Head
    else FirstSaid(spec)
  }

  function PushCall(end: nat): Call {
    Call(0, Some(1), end, [], [], false)
  }

  lemma WordsHere(remote: string, spec: string)
    ensures IsGitProgram("git") && !IsOption("push")
    ensures CallAt(["git", "push", remote, spec], 0) == PushCall(4)
    ensures Lower("push") == "push"
  {
    hide UnreadablePath, InsideWorkingFolder, BeforeFirst;
    NoDash("push");
    assert "git"[0] == 'g' && "git"[1] == 'i' && "git"[2] == 't';
    NoSeparators("git", "/\\");
    assert Lower("git") == "git";
  }

  lemma NoSeparators(s: string, seps: string)
    requires forall c :: c in s ==> c !in seps
    ensures AfterLast(s, seps) == s
  {
  }

  lemma HeadAnswer(end: nat, site: Site)
    requires !site.elsewhere
    ensures HeadNoted(NO_TARGETS, site, PushCall(end), NEW_LINE) == NO_TARGETS.(current := true)
  {
    assert CallDirs([""], []) == [JoinDir("", [])] by {
      assert [""][..0] == [];
    }
    assert JoinDir("", []) == "" by { PartsOfSlashed([]); }
    assert NonEmpty([""]) == [];
  }

  lemma ReadOperand(w: string, more: seq<string>, acc: PushRead)
    requires Operand(w)
    ensures ReadArgs([w] + more, acc) == ReadArgs(more, acc.(operands := acc.operands + [w]))
  {
    assert ([w] + more)[1..] == more;
  }

  lemma ReadWords(args: seq<string>)
    requires |args| <= 2 && forall w :: w in args ==> Operand(w)
    ensures ReadArgs(args, NOTHING_READ) == PushRead(args, false, false, false, false)
  {
    hide ReadArgs, Operand;
    NothingLeft(PushRead(args, false, false, false, false));
    if |args| == 1 {
      ReadOperand(args[0], [], NOTHING_READ);
      assert [args[0]] + [] == args && [] + [args[0]] == args;
    } else if |args| == 2 {
      ReadOperand(args[0], [args[1]], NOTHING_READ);
      ReadOperand(args[1], [], NOTHING_READ.(operands := [] + [args[0]]));
      assert [args[0]] + [args[1]] == args && [args[1]] + [] == [args[1]] && [] + [args[0]] + [args[1]] == args;
    }
  }

  lemma NothingLeft(acc: PushRead)
    ensures ReadArgs([], acc) == acc
  {
  }

  lemma SpecAnswer(spec: string, site: Site)
    requires !site.elsewhere
    ensures SaysIt(SpecNoted(NO_TARGETS, spec, site, PushCall(4), NEW_LINE), FirstSaid(spec))
  {
    hide HeadNoted, AfterFirst, UnreadableRef, HasAny, IsHead, OtherRef, StripHeads, Unforced;
    HeadAnswer(4, site);
  }

  /** The push call alone, ending before word `end`. */
  lemma PushAnswer(remote: string, spec: string, end: nat)
    requires Operand(remote) && Operand(spec) && 2 <= end <= 4
    ensures SaysIt(CallRead(NO_TARGETS, PushSite(remote, spec), PushCall(end), NEW_LINE),
              if end > 2 && UnreadableRemote(remote) then GaveUp else if end == 4 then FirstSaid(spec) else Head)
  {
    hide HeadNoted, SpecNoted, SpecsNoted, UnreadableRemote, FirstSaid, ReadArgs, Operand, OptionsNoted;
    var site := PushSite(remote, spec);
    WordsHere(remote, spec);
    var args := site.words[2..end];
    assert args == if end == 4 then [remote, spec] else if end == 3 then [remote] else [];
    ReadWords(args);
    HeadAnswer(end, site);
    var out1 := OptionsSaid(args, site);
    if end == 4 {
      assert args[1..] == [spec];
      OneSpec(out1, spec, site);
      SpecNotedGrows(out1, spec, site, PushCall(4), NEW_LINE);
      SpecAnswer(spec, site);
    } else {
      HeadNotedGrows(out1, site, PushCall(end), NEW_LINE);
    }
  }

  lemma OptionsSaid(args: seq<string>, site: Site) returns (out1: Targets)
    requires !site.appended
    ensures out1 == OptionsNoted(NO_TARGETS, PushRead(args, false, false, false, false), site)
    ensures out1 == NO_TARGETS.(unknown := args != [] && UnreadableRemote(args[0]))
  {
    hide UnreadableRemote;
    out1 := OptionsNoted(NO_TARGETS, PushRead(args, false, false, false, false), site);
  }

  lemma OneSpec(out: Targets, spec: string, site: Site)
    ensures SpecsNoted(out, [spec], site, PushCall(4), NEW_LINE) == SpecNoted(out, spec, site, PushCall(4), NEW_LINE)
  {
    hide SpecNoted;
    assert [spec][1..] == [];
  }

  lemma CallsHere(remote: string, spec: string) returns (calls: seq<Call>)
    requires Operand(remote) && Operand(spec)
    ensures calls == CallsFrom(["git", "push", remote, spec], 0) && calls != []
    ensures calls[0] == PushCall(if IsGitProgram(remote) then 2 else if IsGitProgram(spec) then 3 else 4)
    ensures |calls| <= 2
    ensures |calls| == 2 ==> 0 < calls[1].at && (calls[1].sub.None? || (IsGitProgram(remote) && calls[1].sub == Some(3)))
    ensures |calls| == 2 && calls[1].sub.Some? ==> !calls[1].elsewhere && calls[1].configs == []
    ensures |calls| == 2 <==> IsGitProgram(remote) || IsGitProgram(spec)
    ensures IsGitProgram(remote) && !IsOption(spec) ==> |calls| == 2 && calls[1].sub == Some(3)
  {
    hide IsGitProgram, Globals, Operand;
    var words := ["git", "push", remote, spec];
    WordsHere(remote, spec);
    calls := CallsFrom(words, 0);
    assert CallsFrom(words, 4) == [];
    if IsGitProgram(remote) {
      SubAfter(words, 2);
    } else if IsGitProgram(spec) {
      SubAfter(words, 3);
      assert CallsFrom(words, 2) == CallsFrom(words, 3);
    } else {
      NoCalls(words, 2);
    }
  }

  lemma SubAfter(words: seq<string>, at: nat)
    requires |words| == 4 && 2 <= at < 4 && IsGitProgram(words[at])
    ensures CallsFrom(words, at) == [CallAt(words, at)]
    ensures CallAt(words, at).at == at
    ensures CallAt(words, at).sub.Some? ==> CallAt(words, at).sub == Some(3) && at == 2
    ensures CallAt(words, at).sub.Some? ==> !CallAt(words, at).elsewhere && CallAt(words, at).configs == []
    ensures at == 2 && !IsOption(words[3]) ==> CallAt(words, at).sub == Some(3)
  {
    hide IsGitProgram;
    assert CallsFrom(words, 4) == [];
  }

  lemma AnswerSaid(remote: string, spec: string)
    requires Operand(remote) && Operand(spec)
    ensures SaysIt(Answer(remote, spec), SaidOf(remote, spec))
  {
    hide IsGitProgram, UnreadableRemote, FirstSaid, Operand, CallRead, SaysIt;
    var site := PushSite(remote, spec);
    var calls := CallsHere(remote, spec);
    OneSite(site);
    PushAnswer(remote, spec, calls[0].end);
    var out := CallRead(NO_TARGETS, site, calls[0], NEW_LINE);
    if |calls| == 1 {
      assert CallsRead(NO_TARGETS, site, calls, NEW_LINE) == out;
    } else {
      TwoCalls(NO_TARGETS, site, calls);
      SecondCall(out, site, calls[1], spec);
      OptionIsNoPush(spec);
    }
  }

  lemma OneSite(site: Site)
    ensures TargetsOf([site]) == CallsRead(NO_TARGETS, site, CallsFrom(site.words, 0), NEW_LINE)
  {
    hide CallsRead, CallsFrom;
    assert [site][..0] == [];
    assert TargetsOf([]) == NO_TARGETS && LineAfter([]) == NEW_LINE;
  }

  lemma TwoCalls(out: Targets, site: Site, calls: seq<Call>)
    requires |calls| == 2 && CallOk(site.words, calls[0]) && CallOk(site.words, calls[1])
    ensures forall c :: c in calls ==> CallOk(site.words, c)
    ensures CallsRead(out, site, calls, NEW_LINE) == CallRead(CallRead(out, site, calls[0], NEW_LINE), site, calls[1], NEW_LINE)
  {
    hide CallRead, CallOk;
    assert calls[1..] == [calls[1]] && calls[1..][1..] == [];
    assert CallsRead(CallRead(out, site, calls[0], NEW_LINE), site, [calls[1]], NEW_LINE)
        == CallRead(CallRead(out, site, calls[0], NEW_LINE), site, calls[1], NEW_LINE) by {
      assert [calls[1]][1..] == [];
    }
  }

  lemma OptionIsNoPush(spec: string)
    requires Operand(spec)
    ensures StartsUnknown(spec) ==> !IsOption(spec)
  {
    if spec == "-" {
      assert Lower("-") == "-";
    }
  }

  /** A later call adds nothing unless it may push. */
  lemma SecondCall(out: Targets, site: Site, call: Call, spec: string)
    requires CallOk(site.words, call) && 0 < call.at && |site.words| == 4 && site.words[3] == spec && !site.elsewhere
    requires call.sub.None? || (call.sub == Some(3) && !call.elsewhere && call.configs == [])
    ensures call.sub.Some? && StartsUnknown(spec) ==> SaysIt(CallRead(out, site, call, NEW_LINE), GaveUp)
    ensures call.sub.None? || !StartsUnknown(spec) ==> CallRead(out, site, call, NEW_LINE) == out
  {
    hide PushNoted, Lower, Builtin, UnreadableWord;
    if call.sub.Some? {
      assert site.words[4..call.end] == [];
      PushNotedGrows(out.(unknown := true), site, call, NEW_LINE);
    }
  }

  // ----- exactly when it covers -----

  /** What Git may update is said. */
  predicate Fits(said: Said, target: RefTarget) {
    match target
    case AnyBranch => said == GaveUp
    case Updates(branches, head) =>
      match said
      case GaveUp => true
      case Head => branches == {}
      case Branch(name) => branches <= {name} && !head
      case Nothing => branches == {} && !head
  }

  /** Git updates no branch, or HEAD's. */
  predicate AtMostHead(refs: Refs, spec: string) {
    var plain := Unforced(spec);
    var last := Destination(plain);
    && plain != ":" && !AnyDestination(plain, last)
    && (|| last == "" || plain == "HEAD" || plain == "@"
        || (NoBranch(last) && Otherwise(refs, last, OwnSource(spec, false)) == {}))
  }

  /**
   * The words on which the answer covers the push, with these refs. Where one of them names Git the answer stops
   * at HEAD's branch, unless the refspec starts what may be a push, which makes it give up.
   */
  predicate PushReadRight(refs: Refs, remote: string, spec: string) {
    if IsGitProgram(remote) then StartsUnknown(spec) || (!UnreadableRemote(remote) && (spec == "tag" || AtMostHead(refs, spec)))
    else || UnreadableRemote(remote) || spec == "tag"
         || (if IsGitProgram(spec) then AtMostHead(refs, spec) else SpecRight(refs, spec, false))
  }

  lemma TwoOperands(remote: string, spec: string)
    ensures AllOperands([Word(remote), Word(spec)], None) == [remote, spec]
  {
    var args := [Word(remote), Word(spec)];
    assert args[1..] == [Word(spec)] && args[1..][1..] == [];
    assert PushOperands([]) == [];
    assert PushOperands(args[1..]) == [spec];
    assert PushOperands(args) == [remote] + [spec] == [remote, spec];
    assert [remote, spec] + [] == [remote, spec];
  }

  lemma TwoWords(remote: string, spec: string)
    ensures var args := [Word(remote), Word(spec)];
            && AllOperands(args, None) == [remote, spec] && SpecsOf([remote, spec]) == (if spec == "tag" then [] else [spec])
            && !DryRun(args) && !AsksEvery(args) && !Deletes(args)
  {
    var args := [Word(remote), Word(spec)];
    assert args[1..] == [Word(spec)] && args[1..][1..] == [];
    TwoOperands(remote, spec);
    forall flag: Role ensures LastSays(args, flag) == None {
      assert LastSays(args[1..], flag) == None;
    }
    assert LastDelete(args[1..]) == None;
    assert [remote, spec][1..] == [spec] && [spec][1..] == [];
    assert Refspecs([]) == [];
  }

  lemma OnlyPush(refs: Refs, c: Command, out: Targets)
    requires IsPush(c)
    ensures SaysAll(out, refs, [c]) <==> GivesUp(out) || PushSaid(out, Start(refs), c)
  {
    hide PushSaid;
    assert [c][..0] == [];
    assert KnownAfter(refs, [c][..0]) == Start(refs);
  }

  lemma HeadSaidHere(refs: Refs, out: Targets, c: Command)
    requires c.RunGit? && c == RunGit("git", [], c.git, false)
    ensures HeadSaid(out, Start(refs), c) <==> out.current
  {
    assert [] + Flat(ChDirs([])) == [];
  }

  lemma SaidFits(refs: Refs, remote: string, spec: string, out: Targets, said: Said)
    requires SaysIt(out, said) && said != GaveUp
    ensures PushSaid(out, Start(refs), PushOf(remote, spec)) <==>
              !UnreadableRemote(remote) && (spec == "tag" || Fits(said, SpecTarget(refs, spec, false)))
  {
    hide UnreadableRemote, SpecTarget, DryRun, AsksEvery, Asks, Deletes, AllOperands, HeadSaid, SpecsOf;
    var c := PushOf(remote, spec);
    TwoWords(remote, spec);
    HeadSaidHere(refs, out, c);
    assert !Redirected(c.globals);
    assert spec in [spec] && forall x :: x in [spec] ==> x == spec;
  }

  /** After the first colon is another, or the last destination. */
  lemma {:induction false} FirstIsLast(s: string)
    requires ':' in s
    ensures ':' !in AfterLast(s, ":")
    ensures AfterFirst(s, ':') == AfterLast(s, ":") || ':' in AfterFirst(s, ':')
  {
    assert HasAny(s, ":") by { assert ':' in ":"; }
    assert s == [s[0]] + s[1..];
    if ':' in s[1..] {
      FirstIsLast(s[1..]);
    } else {
      assert !HasAny(s[1..], ":");
    }
  }

  lemma DestinationsAgree(plain: string)
    ensures ':' !in Destination(plain)
    ensures FirstDestination(plain) == Destination(plain) || ':' in FirstDestination(plain)
  {
    if ':' in plain {
      FirstIsLast(plain);
    }
  }

  lemma NoColonInHeads(p: string)
    requires Lower(p) == "refs/heads/"
    ensures ':' !in p
  {
    forall k | 0 <= k < |p| ensures p[k] != ':' {
      assert LowerChar(p[k]) == "refs/heads/"[k];
    }
  }

  lemma NoColonInHead(p: string)
    requires Lower(p) == "head"
    ensures ':' !in p
  {
    forall k | 0 <= k < |p| ensures p[k] != ':' {
      assert LowerChar(p[k]) == "head"[k];
    }
  }

  lemma StripKeepsColon(d: string)
    requires ':' in d
    ensures ':' in StripHeads(d) && !IsHead(d)
  {
    hide Lower;
    if |d| >= 11 && Lower(d[..11]) == "refs/heads/" {
      NoColonInHeads(d[..11]);
      assert d == d[..11] + d[11..];
    }
    if Lower(d) == "head" {
      NoColonInHead(d);
    }
  }

  lemma HeadFits(refs: Refs, spec: string)
    ensures Fits(Head, SpecTarget(refs, spec, false)) <==> AtMostHead(refs, spec)
  {
    hide UnreadableRef, HasAny, Unforced, AfterLast, Otherwise;
    NamesBranch(Destination(Unforced(spec)));
    HeadWord();
    NoneInHead();
    UnforcedColon(spec);
  }

  lemma NamesBranch(d: string)
    ensures BranchesNamed(d) == {} <==> NoBranch(d)
  {
    assert "refs/heads/" <= d ==> d[11..] in BranchesNamed(d);
    assert !("refs/" <= d) ==> d in BranchesNamed(d);
    assert "refs/heads/" <= d ==> "refs/" <= d by {
      if "refs/heads/" <= d {
        assert d[..5] == "refs/heads/"[..5] == "refs/";
      }
    }
  }

  lemma NoneInHead()
    ensures Destination("HEAD") == "HEAD" && Destination("@") == "@"
  {
    HeadWord();
  }

  lemma IsHeadForms()
    ensures IsHead("HEAD") && IsHead("@")
  {
    assert Lower("HEAD") == "head";
  }

  lemma AlikeExactly(d: string)
    requires !IsHead(d) && !OtherRef(d)
    ensures BranchesNamed(d) <= {StripHeads(d)} <==> NamedAlike(d)
  {
    hide IsHead, OtherRef, StripHeads;
    HeadsPrefix(d);
    NamesBranch(d);
    assert "heads/" < d ==> |d[6..]| != |d|;
    if !("refs/" <= d) {
      assert d in BranchesNamed(d);
      assert "heads/" < d ==> d[6..] in BranchesNamed(d);
    }
  }

  lemma OneDestination(refs: Refs, spec: string)
    requires FirstDestination(Unforced(spec)) == Destination(Unforced(spec))
    ensures FirstSaid(spec) == GaveUp || Fits(FirstSaid(spec), SpecTarget(refs, spec, false)) <==> SpecRight(refs, spec, false)
  {
    hide UnreadableRef, HasAny, Unforced, AfterLast, AfterFirst, IsHead, OtherRef, StripHeads, Otherwise,
      BranchesNamed, NoBranch, NamedAlike;
    var plain := Unforced(spec);
    var d := Destination(plain);
    EmptyReadable();
    HeadWord();
    NoneInHead();
    UnforcedColon(spec);
    IsHeadForms();
    if d != "" {
      NamesBranch(d);
      HeadIsNoOther(d);
      if !IsHead(d) && !OtherRef(d) {
        AlikeExactly(d);
        NoneAlike(d);
      } else {
        OddAlike(d);
      }
    }
  }

  lemma NoneAlike(d: string)
    requires !IsHead(d) && !OtherRef(d)
    ensures NoBranch(d) ==> NamedAlike(d)
  {
  }

  lemma OddAlike(d: string)
    requires IsHead(d) || OtherRef(d)
    ensures !NamedAlike(d)
    ensures IsHead(d) ==> !OtherRef(d)
    ensures OtherRef(d) ==> !IsHead(d)
  {
    HeadsPrefix(d);
  }

  lemma EmptyReadable()
    ensures !UnreadableRef("")
  {
  }

  lemma HeadIsNoOther(d: string)
    ensures IsHead(d) ==> !NoBranch(d)
  {
    if NoBranch(d) {
      NoHeadInRefs(d);
    }
  }

  lemma TwoDestinations(refs: Refs, spec: string)
    requires FirstDestination(Unforced(spec)) != Destination(Unforced(spec))
    ensures FirstSaid(spec) == GaveUp || Fits(FirstSaid(spec), SpecTarget(refs, spec, false)) <==> SpecRight(refs, spec, false)
  {
    hide UnreadableRef, HasAny, Unforced, AfterLast, AfterFirst, IsHead, OtherRef, StripHeads, NamedAlike, Otherwise;
    var plain := Unforced(spec);
    var first, last := FirstDestination(plain), Destination(plain);
    DestinationsAgree(plain);
    StripKeepsColon(first);
    HeadWord();
    UnforcedColon(spec);
    NamesBranch(last);
    assert ':' in plain && !OwnSource(spec, false);
    OthersNoColon(refs, last);
    if last != "" {
      BranchNoColon(last);
    }
  }

  lemma BranchNoColon(d: string)
    requires ':' !in d
    ensures forall b :: b in BranchesNamed(d) ==> ':' !in b
  {
  }

  lemma OthersNoColon(refs: Refs, d: string)
    requires ':' !in d
    ensures forall b :: b in Otherwise(refs, d, false) ==> ':' !in b
  {
  }

  lemma SpecFits(refs: Refs, spec: string)
    ensures FirstSaid(spec) == GaveUp || Fits(FirstSaid(spec), SpecTarget(refs, spec, false)) <==> SpecRight(refs, spec, false)
  {
    hide FirstSaid, SpecTarget, SpecRight, FirstDestination, Destination;
    if FirstDestination(Unforced(spec)) == Destination(Unforced(spec)) {
      OneDestination(refs, spec);
    } else {
      TwoDestinations(refs, spec);
    }
  }

  /**
   * For every remote and refspec, and whatever refs are symbolic: the answer covers every push of every run if and
   * only if the words are read right.
   */
  lemma SoundExactly(refs: Refs, remote: string, spec: string)
    requires Operand(remote) && Operand(spec)
    ensures AllCovered(refs, [PushOf(remote, spec)], Answer(remote, spec)) <==> PushReadRight(refs, remote, spec)
  {
    hide SaysIt, Answer, Operand, AllCovered, SaysAll, PushSaid, IsGitProgram, UnreadableRemote, FirstSaid, SpecRight,
      AtMostHead, Fits, SpecTarget,
      StartsUnknown;
    var c, out, said := PushOf(remote, spec), Answer(remote, spec), SaidOf(remote, spec);
    AnswerSaid(remote, spec);
    CoveredExactly(refs, [c], out);
    OnlyPush(refs, c, out);
    HeadFits(refs, spec);
    SpecFits(refs, spec);
    SaidGivesUp(out, said);
    if said != GaveUp {
      SaidFits(refs, remote, spec, out, said);
    }
  }

  lemma SaidGivesUp(out: Targets, said: Said)
    requires SaysIt(out, said)
    ensures GivesUp(out) <==> said == GaveUp
  {
  }

  // ----- pushes it misses -----

  predicate Plain(word: string) {
    word != "" && forall c :: c in word ==> Letter(c)
  }

  lemma NoneOf(word: string, chars: string)
    requires Plain(word) && forall c :: c in chars ==> !Letter(c)
    ensures !HasAny(word, chars)
  {
  }

  lemma PlainReadable(word: string)
    requires Plain(word)
    ensures Operand(word) && !UnreadableRemote(word) && !UnreadableRef(word) && !HasAny(word, "!$`")
    ensures ':' !in word && '*' !in word && word != "-" && word != "@"
  {
    assert Letter(word[0]);
    NoDash(word);
    NoneOf(word, "$`%*?[{");
    NoneOf(word, "$`?[{%(<^!\\");
    NoneOf(word, "!$`");
  }

  lemma PlainName(word: string)
    requires Plain(word)
    ensures !OtherRef(word) && StripHeads(word) == word && Unforced(word) == word
  {
    assert "+" <= word ==> !Letter(word[0]);
    if |word| >= 5 {
      assert Letter(word[4]) && LowerChar(word[4]) != '/';
      assert Lower(word[..5])[4] == LowerChar(word[4]);
      assert Lower(word[..5]) != "refs/";
      if |word| >= 11 { assert Lower(word[..11])[4] == LowerChar(word[4]); }
    }
  }

  /** `git push origin git`: a branch named like Git is read as a second Git command, and only HEAD's branch is answered. */
  lemma GitBranchMissed(remote: string)
    requires Plain(remote) && !IsGitProgram(remote)
    ensures !AllCovered(PLAIN_REFS, [PushOf(remote, "git")], Answer(remote, "git"))
  {
    hide IsGitProgram, UnreadableRemote, Answer, AllCovered, UnreadableRef, HasAny;
    PlainReadable(remote);
    WordsHere(remote, "git");
    PlainReadable("git");
    PlainName("git");
    SoundExactly(PLAIN_REFS, remote, "git");
  }

  /** `git push origin heads/main`: Git takes the name for `refs/heads/main`, the analysis for a branch of that name. */
  lemma HeadsMissed(remote: string, name: string)
    requires Plain(remote) && Plain(name) && !IsGitProgram(remote) && !IsGitProgram("heads/" + name)
    ensures !AllCovered(PLAIN_REFS, [PushOf(remote, "heads/" + name)], Answer(remote, "heads/" + name))
  {
    hide IsGitProgram, UnreadableRemote, Answer, AllCovered, UnreadableRef, HasAny;
    var spec := "heads/" + name;
    PlainReadable(remote);
    NoDash(spec);
    HeadsReadable(name);
    SoundExactly(PLAIN_REFS, remote, spec);
  }

  lemma HeadsReadable(name: string)
    requires Plain(name)
    ensures var spec := "heads/" + name;
            && Unforced(spec) == spec && ':' !in spec && '*' !in spec && !UnreadableRef(spec) && !HasAny(spec, "!$`")
            && "heads/" < spec && !("refs/" <= spec) && spec != "-"
  {
    var spec := "heads/" + name;
    assert spec[0] == 'h';
    PrefixAgrees("+", spec, 0);
    PrefixAgrees("refs/", spec, 0);
    forall c | c in spec ensures Letter(c) || c == '/' {
    }
  }

  lemma {:induction false} LastColon(last: string, before: string)
    requires ':' !in last
    ensures AfterLast(before + ":" + last, ":") == last
  {
    var s := before + ":" + last;
    assert s[|before|] == ':' && HasAny(s, ":") by { assert ':' in s && ':' in ":"; }
    if before == "" {
      assert s[1..] == last;
      NoSeparators(last, ":");
    } else {
      LastColon(last, before[1..]);
      assert s[1..] == before[1..] + ":" + last;
    }
  }

  /** `git push origin HEAD:heads/main`: the same after a colon. */
  lemma HeadToHeadsMissed(remote: string, name: string)
    requires Plain(remote) && Plain(name) && !IsGitProgram(remote) && !IsGitProgram("HEAD:heads/" + name)
    ensures !AllCovered(PLAIN_REFS, [PushOf(remote, "HEAD:heads/" + name)], Answer(remote, "HEAD:heads/" + name))
  {
    hide IsGitProgram, UnreadableRemote, Answer, AllCovered, UnreadableRef, HasAny, AfterFirst, AfterLast;
    var spec, dst := "HEAD:heads/" + name, "heads/" + name;
    assert spec == "HEAD" + ":" + dst && spec[0] == 'H' && ':' in spec && spec[4] == ':';
    PrefixAgrees("+", spec, 0);
    PlainReadable(remote);
    NoDash(spec);
    HeadsReadable(name);
    HeadWord();
    CutAt("HEAD", ':', dst);
    LastColon(dst, "HEAD");
    HeadsChars(name);
    SoundExactly(PLAIN_REFS, remote, spec);
  }

  lemma HeadsChars(name: string)
    requires Plain(name)
    ensures !HasAny("HEAD:heads/" + name, "!$`")
  {
    forall c | c in "HEAD:heads/" + name ensures Letter(c) || c == '/' || c == ':' {
    }
  }

  /**
   * `git push origin :/fix:main`: a search for a commit by its message starts with a colon, and the last
   * colon names the branch; the analysis takes the first.
   */
  lemma SearchedCommitMissed(remote: string, words: string, branch: string)
    requires Plain(remote) && !IsGitProgram(remote) && Plain(words) && Plain(branch)
    requires !IsGitProgram(":/" + words + ":" + branch)
    ensures !AllCovered(PLAIN_REFS, [PushOf(remote, ":/" + words + ":" + branch)], Answer(remote, ":/" + words + ":" + branch))
  {
    hide IsGitProgram, UnreadableRemote, Answer, AllCovered, HasAny, AfterLast, StripHeads, OtherRef, IsHead;
    var spec := ":/" + words + ":" + branch;
    assert spec == (":/" + words) + ":" + branch && spec[0] == ':';
    assert ':' in spec;
    PlainReadable(remote);
    NoDash(spec);
    SearchChars(words, branch, "!$`");
    SearchChars(words, branch, "$`?[{%(<^!\\");
    SearchRead(words, branch);
    PlainReadable(branch);
    LastColon(branch, ":/" + words);
    SoundExactly(PLAIN_REFS, remote, spec);
  }

  lemma SearchChars(words: string, branch: string, chars: string)
    requires Plain(words) && Plain(branch) && forall c :: c in chars ==> !Letter(c) && c != ':' && c != '/'
    ensures !HasAny(":/" + words + ":" + branch, chars) && !HasAny("/" + words + ":" + branch, chars)
  {
  }

  lemma SearchRead(words: string, branch: string)
    requires Plain(words) && Plain(branch)
    ensures var spec := ":/" + words + ":" + branch;
            var dst := "/" + words + ":" + branch;
            && Unforced(spec) == spec && AfterFirst(spec, ':') == dst && dst != branch && dst[0] == '/' && '*' !in dst
            && spec != ":" && !("refs/" <= branch)
  {
    var spec := ":/" + words + ":" + branch;
    var dst := "/" + words + ":" + branch;
    assert spec[0] == ':' && spec[1..] == dst;
    PrefixAgrees("+", spec, 0);
    assert |dst| > |branch|;
    if |branch| > 4 {
      assert Letter(branch[4]);
    }
    PrefixAgrees("refs/", branch, 4);
    assert forall c :: c in dst ==> Letter(c) || c == '/' || c == ':';
  }

  // ----- names that stand for other branches -----

  function Link(ref: string, b: string): Refs {
    Refs({(ref, "refs/heads/" + b)}, {})
  }

  lemma LinkLeads(ref: string, b: string, from: set<string>)
    requires ref in from
    ensures b in Linked(Link(ref, b), from)
  {
    var links, to := Link(ref, b).links, "refs/heads/" + b;
    assert (ref, to) in links;
    assert to in Leads(links, from, 5);
    assert "refs/heads/" <= to && to[11..] == b;
  }

  /** With others than the branch it names, a word is misread. */
  lemma OthersMissed(refs: Refs, remote: string, spec: string, other: string)
    requires Plain(remote) && !IsGitProgram(remote) && !IsGitProgram(spec) && Operand(spec) && spec != "tag"
    requires Unforced(spec) == spec && ':' !in spec && '*' !in spec && !UnreadableRef(spec) && !HasAny(spec, "!$`")
    requires other in Otherwise(refs, spec, true) && other != StripHeads(spec) && spec !in {"", "-", "HEAD", "@"}
    ensures !AllCovered(refs, [PushOf(remote, spec)], Answer(remote, spec))
  {
    hide IsGitProgram, UnreadableRemote, Answer, AllCovered, UnreadableRef, HasAny, Otherwise, StripHeads, OtherRef, NamedAlike;
    PlainReadable(remote);
    SoundExactly(refs, remote, spec);
  }

  /** `git push origin foo`, where foo is symbolic and points at main, updates main. */
  lemma SymbolicMissed(remote: string, foo: string, b: string)
    requires Plain(remote) && !IsGitProgram(remote) && Plain(foo) && !IsGitProgram(foo) && foo !in {"tag", "HEAD"} && foo != b
    ensures !AllCovered(Link("refs/heads/" + foo, b), [PushOf(remote, foo)], Answer(remote, foo))
  {
    hide IsGitProgram, Answer, AllCovered, UnreadableRef, HasAny, StripHeads, Linked;
    PlainReadable(foo);
    PlainName(foo);
    LinkLeads("refs/heads/" + foo, b, RefsOf(foo));
    OthersMissed(Link("refs/heads/" + foo, b), remote, foo, b);
  }

  /** `git push origin main-worktree/HEAD` updates the branch of the main worktree. */
  lemma WorktreeMissed(remote: string, b: string)
    requires Plain(remote) && !IsGitProgram(remote) && !IsGitProgram("main-worktree/HEAD") && Plain(b)
    ensures !AllCovered(Link("main-worktree/HEAD", b), [PushOf(remote, "main-worktree/HEAD")], Answer(remote, "main-worktree/HEAD"))
  {
    hide IsGitProgram, Answer, AllCovered, Linked;
    var spec := "main-worktree/HEAD";
    NoDash(spec);
    WorktreeWord();
    LinkLeads(spec, b, RefsOf(spec));
    assert '/' !in b by {
      assert !Letter('/');
    }
    OthersMissed(Link(spec, b), remote, spec, b);
  }

  lemma WorktreeWord()
    ensures var spec := "main-worktree/HEAD";
            Unforced(spec) == spec && ':' !in spec && '*' !in spec && !UnreadableRef(spec) && !HasAny(spec, "!$`") && '/' in StripHeads(spec)
  {
    hide HasAny, Lower;
    var spec := "main-worktree/HEAD";
    PrefixAgrees("+", spec, 0);
    WorktreeChars();
    NotHeads();
    assert StripHeads(spec) == spec && spec[13] == '/';
  }

  lemma WorktreeChars()
    ensures var spec := "main-worktree/HEAD";
            !HasAny(spec, "$`?[{%(<^!\\") && !HasAny(spec, "!$`") && ':' !in spec && '*' !in spec
  {
    forall c | c in "main-worktree/HEAD" ensures Letter(c) || c == '/' || c == '-' {
    }
  }

  lemma NotHeads()
    ensures Lower("main-worktree/HEAD"[..11]) != "refs/heads/"
  {
    assert Lower("main-worktree/HEAD"[..11])[0] == LowerChar("main-worktree/HEAD"[..11][0]) == 'm';
  }

  /** `git push origin refs/heads/lit` updates the branch called `refs/heads/lit` where that is the one there is. */
  lemma LiteralPushMissed(remote: string, b: string)
    requires Plain(remote) && !IsGitProgram(remote) && Plain(b) && !IsGitProgram("refs/heads/" + b)
    ensures !AllCovered(Refs({}, {"refs/heads/" + b}), [PushOf(remote, "refs/heads/" + b)], Answer(remote, "refs/heads/" + b))
  {
    hide IsGitProgram, Answer, AllCovered, Linked, UnreadableRef, HasAny;
    var spec := "refs/heads/" + b;
    NoDash(spec);
    FullReadable(b);
    OthersMissed(Refs({}, {spec}), remote, spec, spec);
  }

  lemma FullReadable(b: string)
    requires Plain(b)
    ensures var spec := "refs/heads/" + b;
            && Unforced(spec) == spec && ':' !in spec && '*' !in spec && !UnreadableRef(spec) && !HasAny(spec, "!$`")
            && StripHeads(spec) == b && b != spec
  {
    var spec := "refs/heads/" + b;
    forall c | c in spec ensures Letter(c) || c == '/' {
    }
    PrefixAgrees("+", spec, 0);
    LowerHeads();
    assert spec[..11] == "refs/heads/" && spec[0] == 'r';
  }

  // ----- a push of HEAD -----

  /** A push of HEAD, named or not, and of nothing else. */
  predicate HeadPush(p: Command) {
    && p.RunGit? && p.git.Push? && CommandOk(p) && !NamesGit(p.git) && !DryRun(p.git.pushArgs) && !Deletes(p.git.pushArgs)
    && var operands := AllOperands(p.git.pushArgs, p.git.tail);
       PushesHead(p.git.pushArgs, p.git.tail) || (|operands| > 1 && forall spec :: spec in operands[1..] ==> IsHeadWord(spec))
  }

  lemma OneSiteOf(c: Command)
    requires CommandOk(c)
    ensures LineOf([c], SitesOf([c]))
    ensures SitesOf([c]) == [SiteFor(c)]
  {
    hide WordsOf, CommandOk;
    assert [c][1..] == [];
  }

  lemma HeadPushIs(p: Command)
    requires HeadPush(p)
    ensures IsPush(p) && CommandOk(p) && !NamesGit(p.git)
  {
  }

  lemma HeadPushFollowed(refs: Refs, p: Command)
    requires HeadPush(p) && !ReadsIn(p.globals)
    ensures Followed(refs, p)
  {
    hide CommandOk, NamesGit, DryRun, Deletes, AllOperands, Asks, ReadsIn, Redirected, SpecRight, Unforced, SpecsOf;
    var operands := AllOperands(p.git.pushArgs, p.git.tail);
    SpecsAmong(operands);
    forall spec | spec in SpecsOf(operands) ensures SpecRight(refs, spec, false) {
      HeadWordRight(refs, spec);
    }
  }

  lemma HeadWordRight(refs: Refs, spec: string)
    requires IsHeadWord(spec)
    ensures SpecRight(refs, spec, false) && SpecTarget(refs, spec, false) == Updates({}, true)
  {
    hide SpecNoted, SpecTarget, AfterLast, AfterFirst, Unforced, AnyDestination, GivesUpSpec, NamedAlike, NoBranch, Otherwise;
    HeadIsRead(refs, NO_TARGETS, spec, Site([], false, false, false), PushCall(0), NEW_LINE);
    NoneInHead();
    HeadIsPlain();
  }

  lemma HeadIsPlain()
    ensures !AnyDestination("HEAD", "HEAD") && !AnyDestination("@", "@")
  {
    assert !HasAny("HEAD", "!$`") && !HasAny("@", "!$`") && !UnreadableRef("HEAD") && !UnreadableRef("@");
  }

  lemma {:induction false} NoTags(words: seq<string>)
    requires forall w :: w in words ==> IsHeadWord(w)
    ensures Refspecs(words) == words
  {
    hide IsHeadWord;
    if words != [] {
      TagIsNoHead();
      NoTags(words[1..]);
    }
  }

  lemma TagIsNoHead()
    ensures !IsHeadWord("tag")
  {
    PrefixAgrees("+", "tag", 0);
  }

  /** What it says of a push of HEAD is what it says of HEAD. */
  lemma HeadPushSaid(out: Targets, k: Known, p: Command)
    requires HeadPush(p) && PushSaid(out, k, p)
    ensures HeadSaid(out, k, p)
  {
    hide CommandOk, NamesGit, DryRun, Deletes, AllOperands, Asks, AsksEvery, UnreadableRemote, HeadSaid, IsHeadWord, SpecTarget, Refspecs;
    var operands := AllOperands(p.git.pushArgs, p.git.tail);
    if !PushesHead(p.git.pushArgs, p.git.tail) {
      NoTags(operands[1..]);
      var spec := operands[1..][0];
      assert SpecSaid(out, k, p, spec);
      HeadWordRight(k.refs, spec);
    }
  }

  lemma SettingUnsaid(out: Targets, k: Known, p: Command)
    requires p.RunGit? && ReadsIn(p.globals)
    ensures !HeadSaid(out, k, p)
  {
    hide IncludeKey, PushConfigKey, BeforeFirst;
  }
}
