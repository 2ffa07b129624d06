# Verified models

A local orchestrator runs coding agents on a developer's machine and keeps a copy of its history in a
cloud control plane. This project models the parts of it whose correctness is not visible from reading one
function, and proves what they promise, for every input, every run and every interleaving.

Each module follows one part of the program. Code that updates fields or works step by step is a class or a
method with loops, proved against functions that say what it computes; the results about those functions are
lemmas. `dafny verify dfyconfig.toml` checks everything.

**The cloud mirror and the lease.** `EventIngest` stores a batch of a node's events above its cursor.
`MirrorProtocol` is the whole path as a state machine: a node's outbox, sockets that are replaced or close,
one queue of frames per node handled in stages, stores that fail before or after they commit, and a node that
resends from the cursor it is welcomed with. Every step keeps one invariant, and so in every run the events
applied are those up to the cursor, each once and in order; a commit stores each event of its batch, and from
every state there is a way on after which all of the node's events are stored and acknowledged. `LeaseStore` holds the command, lease and task
tables and each statement on them; `LeaseProtocol` interleaves those statements: HTTP requests that take a
lease and then write a command, node frames that end commands, record tasks and mirror them, releases, and
time. It says exactly when a node that still has work can lose its lease, and that a node with an open command on a
repository, as its row says, cannot.

**Where a push goes.** `PushAnalysis` reads the words of a line's commands: folders moved to, branches checked
out, and pushes with their options and refspecs; `PushReader` holds its loops. `PushSemantics` is a shell and
Git beside it: commands as data, their words, worktrees with heads, and runs in which any command may fail
and any folder change be undone. Git's side has every spelling of the options of checkout and switch (joined,
clustered, after `=`, abbreviated, taken back), renames, `stash branch`, `symbolic-ref`, `rebase` with a branch,
`bisect reset`, aliases of these, and refspecs by Git's own rules. The refs that are symbolic, and the branches
whose own name begins with `refs/`, are a parameter of every result (`Refs`), to which the line's commands add.
`PushReach` tells without running a line what its runs can reach, and proves that exact (`CoveredExactly`).
`PushReading`, `PushMoves` and `PushLineRead` say what the analysis reads of the words and when it gives up,
`PushSoundness` that its answer covers every run of a line whose commands are spelled in ways it reads right.
Exactly when it does is said on the words: for a whole line and for one push of HEAD (`PushLineExact`), for
`git push <remote> <refspec>` (`PushExact`), and for any command that may move HEAD, before any push of HEAD
(`PushMoveExact`); the last two give the commands that are missed. `PushWrapped` is about words that are not on the
line: what another command runs or adds words to (`xargs git push`), and what is left after Git's own files are
touched. `PushWords` says by their spelling what the words are that both sides speak of.

**Secrets.** `Base64Cores` takes from a secret's base64 text the symbols that the secret alone decides, and
finds them in every encoding that holds the secret. `StreamRedactor` hides private key blocks in a stream
exactly as in the whole text, wherever the stream is cut.

**Smaller algorithms.** `EditDistance` (bounded, with transpositions, rolling rows and two early exits),
`GitGraph` (lanes whose wires are the parent relation), `WindowsArgs` (quoting the C runtime reads back),
`LineSplitter` (lines as a process prints them), `ShellWords`, `QuotedPath` and `Porcelain` (readers with the
printer they invert), `PtyBuffer` (a bounded terminal history followed by cursor), `DiffPack` (a diff packed
into a budget) and `Rpc` (chunked answers, each call settled once).

## What is false of the code, and exactly when

- A node can lose its lease while it has work. `HeldWhileWorking` gives the condition (a release ran while
  the lease named a command already written and the node's work was a request not yet written, or a task not
  yet recorded), `TwoHolders` a run in which two nodes end up holding one repository, and
  `SerialNeverBlind` a discipline that rules it out: one unwritten acquire per node and repository at a time,
  and no release from outside a node's frames between a result and its task.
- A push can be missed, in six ways; `LineSoundExactly` gives the condition for every line that shows all its words.
  - A switch of branches is not seen (`MoveSoundExactly`): a new branch joined to its letter, after `=`, after
    clustered letters or an abbreviated option (`-Bmain`, `--orphan=main`, `-ft origin/main`, `--create main
    origin/x`); `--no-track origin/main`, which makes main; a new branch called `refs/heads/main`, or one that
    may follow a start point a shell writes; a word a shell writes beside the branch, which may bring options;
    `git checkout main --` and `git switch -- main`; `git rebase up main`; `git bisect reset main`; a return by
    `rebase --continue`; an alias of checkout; `symbolic-ref -m note`. `PlainSwitchExactly` gives the condition
    for options spelled in full.
  - A refspec is read as another branch than Git's (`SoundExactly`): `heads/main` updates `main`; with two
    colons the first is taken, Git takes the last; `head` in lower case and `HEAD` after a colon, or to delete,
    are branches of that name to Git, `Refs/…` too; an empty destination hides a refspec a shell rewrites.
  - A name stands for another branch: a symbolic branch, tag or worktree's HEAD for the branch it points at
    (`SymbolicMissed`, `MadeLinkMissed`, `WorktreeMissed`, `LinkedMissed`), and `refs/heads/lit` for the branch
    called so in full where that is the one there is (`LiteralPushMissed`).
  - A word after the subcommand that names Git ends the push before it (`git push origin git`).
  - A file of settings read in by `-c include.path=…`, or a setting taken from a variable whose key holds a `=`
    (`--config-env=remote.a=b.push=X`, `HiddenKeyMissed`), may decide where HEAD goes (`SettingsExactly`), and a push
    setting on the line, where a refspec without a destination of its own goes (`LineSoundExactly`).
  - Words that a wrapper adds are not seen: `echo --no-dry-run origin main | xargs git push -n` is read as a dry run
    (`FedPushExactly`, `FedDryMissed`), and after `echo main | xargs git checkout` a push of HEAD as if nothing moved
    (`FedMoveMissed`).
- The line splitter's output depends on how the stream arrives exactly when a finished line fills its pieces
  with its carriage return left over (`ChunkingIndependentIff`).
- The per-line redactor is right after every line of a stream exactly when no line ends one key block and
  opens another (`RightExactly`).
- The edit distance is exact only up to the limit asked for; above it, the answer is some number above it.

## Model

| member | source | states |
|---|---|---|
| `MirrorProtocol.EveryRun` | apps/cloud-control/src/hub.ts:163-180 | in every run the events applied are exactly those up to the cursor that the node did not take back, once and in order; every number told to the node is stored; the cursor and the applied events only grow |
| `MirrorProtocol.EveryEventArrives` | apps/cloud-control/src/hub.ts:137-180 | nothing is ever stuck: from every state a run reaches there is a way on, with no new events, after which every event the node has not taken back is stored and acknowledged |
| `MirrorProtocol.StepKeeps` | apps/cloud-control/src/hub.ts:137-180 | every enabled step (connect, close, frame queued, handled in stages or failing, reply sent and received) keeps the invariant |
| `MirrorProtocol.CommitKeeps` | apps/cloud-control/src/store.ts:386-398 | storing a batch stores each of its events: those above the cursor in order, after what is there, the others being there already; the cursor moves to its last, and the node is told that number |
| `MirrorProtocol.ReadCursorKeeps` | apps/cloud-control/src/hub.ts:321-322 | a hello is welcomed with the cursor that was read |
| `MirrorProtocol.ReceiveKeeps` | apps/orchestrator/src/remote/service.ts:558-563 | a welcome sets where the node sends on from and what it has acknowledged, an ack only the latter |
| `MirrorProtocol.SendBatchKeeps` | apps/orchestrator/src/remote/service.ts:548-563 | what a node sends after a welcome goes on from the welcomed cursor, so nothing above it is skipped |
| `EventIngest.MirrorStore.Ingest` | apps/cloud-control/src/store.ts:386-402 | the new events are those above the cursor in ascending order, applied once; the cursor becomes the batch's highest number or stays |
| `EventIngest.ReplayIsNoOp` | apps/cloud-control/src/store.ts:380-385 | a batch stored before adds nothing when it is sent again |
| `EventIngest.FreshMembers` | apps/cloud-control/src/store.ts:388 | the events stored are those of the batch above the cursor and no other |
| `EventIngest.FreshExactly` | apps/cloud-control/src/store.ts:388 | they come by number, and of each number above the cursor there is just what the batch has, in its order |
| `LeaseStore.CloudStore.AcquireLease` | apps/cloud-control/src/store.ts:329-345 | a free, expired or own lease is taken for the command with a new lifetime, and it succeeds exactly then; refused, the lease is left as it was |
| `LeaseStore.CloudStore.InsertCommand` | apps/cloud-control/src/store.ts:258-269 | a key makes one row: the given one when no row has the key, else the one there was |
| `LeaseStore.RepointedIsFreeable` | apps/cloud-control/src/store.ts:371-373 | a lease taken for a repeat names no written command and is never idle; pointed at the command that exists, it is freed exactly when the node has no work in sight |
| `LeaseStore.CloudStore.Transition` | apps/cloud-control/src/store.ts:294-316 | a command moves exactly forward (pending, delivered, claimed, ended; what is claimed does not expire) and keeps all else; one that ends gets the time given; an ended one keeps its row |
| `LeaseStore.EndedStays` | apps/cloud-control/src/store.ts:294-316 | whatever transitions any frames ask for, in any order, a command that has ended keeps its row |
| `LeaseStore.MovesForward` | apps/cloud-control/src/store.ts:294-316 | over any list of transitions a command only goes from pending to delivered to claimed to ended, and its row changes only when it does |
| `LeaseStore.RecordedTaskKeepsBusy` | apps/cloud-control/src/store.ts:318-320 | once its task is recorded, a command that succeeded keeps its repository from being freed until the task ends, within the lifetime |
| `LeaseStore.CloudStore.AnyBusy` | apps/cloud-control/src/store.ts:361-366 | finds work exactly when a row of the node on the repository is pending, delivered or claimed, or succeeded within the lifetime with a task that is not mirrored as ended |
| `LeaseStore.CloudStore.ReleaseIdleLeases` | apps/cloud-control/src/store.ts:355-377 | frees exactly the node's leases whose command is written and whose repository has no work in sight |
| `LeaseStore.ReleasedExactly` | apps/cloud-control/src/store.ts:347-369 | on the fields of the rows: a release frees a lease if and only if its command is written and each row of the node on the repository has failed, expired or been rejected, or succeeded with no task, an ended one, or a lifetime ago; nothing else of the lease changes |
| `LeaseStore.CloudStore.MirrorTask` | apps/cloud-control/src/store.ts:428-442 | an ended task frees the idle leases in the same batch |
| `LeaseStore.CloudStore.RevokeNode` | apps/cloud-control/src/store.ts:141-151 | once: nothing of the node waits for delivery any more and it holds no repository; what it runs, what has ended and what is other nodes' stays |
| `LeaseStore.RevokedKeepsOnlyStarted` | apps/cloud-control/src/store.ts:141-151 | after a revocation a command keeps a lease busy exactly when it did before and was neither pending nor delivered |
| `LeaseProtocol.InvKept` | apps/cloud-control/src/routes/control.ts:390-404 | every step keeps: an unwritten request has no row, and a lease naming it belongs to its node with its lifetime, freed only by revocation |
| `LeaseProtocol.CheckedHolds` | apps/cloud-control/src/store.ts:343-344 | a successful acquire leaves the node holding the lease |
| `LeaseProtocol.OthersRefused` | apps/cloud-control/src/store.ts:329-345 | while a node holds the lease, another's upsert changes nothing and its check fails |
| `LeaseProtocol.StepKeepsHold` | apps/cloud-control/src/store.ts:347-377 | one step keeps a held lease, while the node has work, if and only if it is no blind release |
| `LeaseProtocol.HeldWhileWorking` | apps/cloud-control/src/store.ts:324-328 | over whole runs: from a successful acquire until work ends, the lifetime passes or the node is revoked, the lease is held throughout if and only if no release ran blind |
| `LeaseProtocol.NoSecondHolder` | apps/cloud-control/src/store.ts:324-345 | unless a release ran blind, no other node's acquire of the repository succeeds meanwhile |
| `LeaseProtocol.HeldWhileOpen` | apps/cloud-control/src/store.ts:347-369 | over whole runs: a node that holds the lease and has a written row on the repository holds it as long as that row is pending, delivered or claimed, whatever any node, request or release does, until revoked or the lifetime passes |
| `LeaseProtocol.NoOtherBesideOpen` | apps/cloud-control/src/store.ts:324-345 | while such a row is open, every other node's upsert changes nothing and its check fails |
| `LeaseProtocol.HeldWhileTask` | apps/cloud-control/src/store.ts:347-369 | the same while the row is open or the task it started has not ended |
| `LeaseProtocol.OpenRowKeeps` | apps/cloud-control/src/store.ts:355-369 | no release of any kind touches the lease of a node with an open row |
| `LeaseProtocol.RepeatPointsAtFirst` | apps/cloud-control/src/routes/control.ts:399-404 | a request whose key raced in makes no second command and leaves its lease to the one there is |
| `LeaseProtocol.NewKeyIsWritten` | apps/cloud-control/src/routes/control.ts:390-404 | a request of a new key writes its command, waiting for delivery, with its repository |
| `LeaseProtocol.ResultIsRecorded` | apps/cloud-control/src/hub.ts:376-385 | a frame that ends an open command ends it now, records the task it started, and then frees what is idle |
| `LeaseProtocol.StartedTaskIsWork` | apps/cloud-control/src/hub.ts:434-440 | between those steps and after them the node has work on the repository until the task ends |
| `LeaseProtocol.SerialNeverBlind` | apps/cloud-control/src/store.ts:347-354 | with one unwritten acquire per node and repository, and releases in frame order, no release is ever blind |
| `LeaseProtocol.TwoHolders` | apps/cloud-control/src/routes/control.ts:392-404 | a run in which a node's second acquire hides its first, the lease is freed, and another node takes it while the first still has work |
| `PushSoundness.EveryPushCovered` | packages/security/src/commands.ts:1671-1702 | soundness: for every line whose commands are spelled in ways read right with the refs there are, every layout of worktrees and every run, each branch pushed to is named, or is the starting branch of a folder the answer lists, or the answer is `every` or `unknown` |
| `PushWrapped.WrappedCovered` | packages/security/src/commands.ts:1671-1702 | the same where a wrapper adds words that are not on the line: covered whatever they are when some words show a push run by another command, or given more words and no dry run; else when every command shown whole is read right and the others leave HEAD and the refs and push nothing |
| `PushWrapped.OpenIsUnknown` | packages/security/src/commands.ts:1803-1811 | for all words of a line: a push run by another command, one given words by `xargs` that is no dry run, `send-pack`, `http-push`, `subtree push` or a subcommand a shell writes makes the answer unknown |
| `PushWrapped.FedPushExactly` | packages/security/src/commands.ts:1957-1959 | for every push of which the line shows the first words: it is covered if and only if those are no dry run or it updates no branch with all its words |
| `PushWrapped.FedDryMissed` | packages/security/src/commands.ts:1957-1959 | `xargs git push -n` given `--no-dry-run <remote> <branch>` is missed |
| `PushWrapped.FedMoveMissed` | packages/security/src/commands.ts:1629-1632 | `xargs git checkout` given a branch, then `git push`, is missed |
| `PushWrapped.TouchedIsGivenUp` | packages/security/src/commands.ts:1610-1645 | a push of HEAD after a command that touches Git's own files, runs in a place of its own or gives a branch an upstream is given up on, whatever runs between |
| `PushLineExact.LineSoundExactly` | packages/security/src/commands.ts:1671-1702 | for every line, each of whose commands is read as one, and any symbolic refs: the answer covers every push of every run if and only if the words make it give up, or name every branch each push may update, no HEAD is lost and no settings are read in |
| `PushLineRead.NamesAre` | packages/security/src/commands.ts:1778-1841 | an answer that does not give up names just the branches the words show, in order: refspecs to their first colons, and for HEAD the branches switched to before |
| `PushLineRead.GivesUpExactly` | packages/security/src/commands.ts:1854-1993 | the answer of a line gives up if and only if its words do: every branch asked for, a remote or refspec that cannot be read, a push of HEAD after words that leave the state unreadable or with a push setting, or an alias that may push |
| `PushLineRead.StateExactly` | packages/security/src/commands.ts:1610-1656 | the state is unreadable exactly when a command runs or goes where the words cannot say, puts HEAD on a branch they cannot say, or there are more than sixteen folders; and else holds just the folders the shell may be in |
| `PushReach.CoveredExactly` | packages/security/src/commands.ts:1671-1702 | any answer covers every run of a line, whatever refs are symbolic, if and only if it says, for each push, every folder, branch and HEAD that can be reached: nothing less is enough and nothing more is needed |
| `PushSoundness.NotedContains` | packages/security/src/commands.ts:1610-1656 | noting a command keeps up with all its runs may change: each folder the shell may be in and each branch a HEAD may be put on stays known, or the state is unreadable |
| `PushSoundness.PushNotedSays` | packages/security/src/commands.ts:1918-1993 | what is noted of a push says every branch it may update by Git's reading of its options and refspecs, or gives up |
| `PushSoundness.DirsMovedGrow` | packages/security/src/commands.ts:1618-1626 | every folder is moved and none forgotten, unless there are more than sixteen |
| `PushMoves.SwitchScanned` | packages/security/src/commands.ts:1491-1512 | what is read of any arguments of checkout or switch: the last new branch in the spellings looked for, else the first name, with track, detach and `--` |
| `PushMoves.MoveIsNoted` | packages/security/src/commands.ts:1629-1653 | a command that may move HEAD leaves exactly the branch seen of it, for checkout, switch, renames, `stash branch` and `symbolic-ref`, and nothing for the others |
| `PushMoves.RightIsRead` | packages/security/src/commands.ts:1629-1653 | the spellings read right are exactly those on which what is seen gives up, or is every branch Git may put HEAD on with the refs there are |
| `PushMoveExact.MoveSoundExactly` | packages/security/src/commands.ts:1491-1512 | for every Git command, any options and any tail, none of whose arguments names Git, any symbolic refs, and every push of HEAD reported on its own: the push after it is covered in every run if and only if the command is spelled in a way read right, or read as run elsewhere or as an alias that may push |
| `PushMoveExact.MoveNotedExactly` | packages/security/src/commands.ts:1629-1653 | the same for every command, arguments that name Git included: if and only if what is noted keeps up with HEAD, or an invocation among the words may push |
| `PushMoveExact.PlainSwitchExactly` | packages/security/src/commands.ts:1491-1512 | a switch whose options are spelled in full is misread exactly by a `--` with no new branch, a branch called `refs/heads/…` or symbolic, or a start point the new branch may follow and that is not seen |
| `PushReading.OneCall` | packages/security/src/commands.ts:1193-1235 | a command none of whose arguments names Git is one invocation with its folders, settings and arguments |
| `PushReading.ArgsRead` | packages/security/src/commands.ts:1918-1954 | the operands are Git's, and the last word on dry run, all, mirror and tags decides, in any mix of long, abbreviated, negated and clustered options |
| `PushReading.OptionRead` | packages/security/src/commands.ts:1902-1916 | a long option found is the one Git would pick by name, negation or unique prefix |
| `PushReading.OptionFound` | packages/security/src/commands.ts:1902-1916 | every long option Git reads is found, by name, negation or unique prefix |
| `PushText.JoinDirWalks` | packages/security/src/commands.ts:1539-1546 | joining folders as text is walking them as paths |
| `PushWords.InsideWalksDown` | packages/security/src/commands.ts:1073-1075 | a path that is followed leads down from where the shell is, folder by folder |
| `PushWords.FollowedExactly` | packages/security/src/commands.ts:1073-1075 | a path is followed exactly when it is no `-`, goes back nowhere, and starts at no root, home, drive or variable |
| `PushWords.CdIsFound` | packages/security/src/commands.ts:1077-1078 | `cd` and the others change the folder in any case, behind any folder, with a program extension or not |
| `PushWords.OtherIsNoCd` | packages/security/src/commands.ts:1077-1078 | and no other word of letters does |
| `PushWords.GitIsFound` | packages/security/src/commands.ts:1175-1178 | `git` in any case, with `.exe` or not, behind any folder, is Git |
| `PushWords.OtherIsNotGit` | packages/security/src/commands.ts:1175-1178 | and no other word of letters is |
| `PushWords.PushSettingsAre` | packages/security/src/commands.ts:1449 | the settings that decide where a push goes are push.default and, for any name, remote.*.push, remote.*.mirror and branch.*.merge |
| `PushWords.RewrittenRef` | packages/security/src/commands.ts:1457 | a branch name a shell may rewrite is one that holds one of its characters or begins with a splat |
| `PushExact.SoundExactly` | packages/security/src/commands.ts:1918-1993 | for every remote and refspec and any symbolic refs the answer covers every push if and only if: no word names Git (or the refspec starts what may push, or updates HEAD's branch at most), and the refspec is given up on, updates no branch or is HEAD, or has one destination by either colon that both name alike and that stands for no other |
| `PushLineExact.SettingsExactly` | packages/security/src/commands.ts:1964-1972 | the answer to a push of HEAD alone, with any options, settings and folders, covers it if and only if its words make it give up or no setting is hidden (a file read in, or a key cut at its own `=`) |
| `PushLineExact.HiddenKeyMissed` | packages/security/src/commands.ts:1208-1210 | `git --config-env=remote.a=b.push=X push` is missed |
| `PushExact.AnswerSaid` | packages/security/src/commands.ts:1918-1993 | the answer for a remote and a refspec is exactly the target read, with nothing else in it |
| `PushExact.GitBranchMissed` | packages/security/src/commands.ts:1221-1235 | `git push <remote> git` is missed |
| `PushExact.HeadsMissed` | packages/security/src/commands.ts:1991 | `git push <remote> heads/<branch>` is missed |
| `PushExact.HeadToHeadsMissed` | packages/security/src/commands.ts:1985-1991 | `git push <remote> HEAD:heads/<branch>` is missed |
| `PushExact.SymbolicMissed` | packages/security/src/commands.ts:1985-1991 | `git push <remote> foo`, where foo is symbolic, updates the branch it points at and is missed |
| `PushExact.WorktreeMissed` | packages/security/src/commands.ts:1985-1991 | `git push <remote> main-worktree/HEAD` is missed |
| `PushExact.LiteralPushMissed` | packages/security/src/commands.ts:1991 | `git push <remote> refs/heads/<branch>`, where a branch is called so in full, is missed |
| `PushExact.SearchedCommitMissed` | packages/security/src/commands.ts:1985 | a refspec whose source is a commit search is split at the wrong colon |
| `PushMoveExact.JoinedMissed` | packages/security/src/commands.ts:1501 | `git checkout -B<branch>; git push` is missed |
| `PushMoveExact.EqualsMissed` | packages/security/src/commands.ts:1501 | `git checkout --orphan=<branch>; git push` is missed |
| `PushMoveExact.LiteralMissed` | packages/security/src/commands.ts:1511 | `git checkout -b refs/heads/<branch>; git push` is missed |
| `PushMoveExact.PathlessMissed` | packages/security/src/commands.ts:1497-1500 | `git checkout <branch> --; git push` is missed |
| `PushMoveExact.SwitchDashesMissed` | packages/security/src/commands.ts:1497-1500 | `git switch -- <branch>; git push` is missed |
| `PushMoveExact.RebaseMissed` | packages/security/src/commands.ts:1629-1653 | `git rebase <upstream> <branch>; git push` is missed |
| `PushMoveExact.BisectMissed` | packages/security/src/commands.ts:1629-1653 | `git bisect reset <branch>; git push` is missed |
| `PushMoveExact.AliasMissed` | packages/security/src/commands.ts:1629-1653 | `git co <branch>; git push`, where `co` is an alias of checkout, is missed |
| `PushMoveExact.ReasonMissed` | packages/security/src/commands.ts:1649-1651 | `git symbolic-ref -m <note> HEAD refs/heads/<branch>; git push` is missed |
| `PushMoveExact.NoTrackMissed` | packages/security/src/commands.ts:1501-1511 | `git checkout --no-track <remote>/<branch>; git push` is missed |
| `PushMoveExact.LinkedMissed` | packages/security/src/commands.ts:1508-1511 | `git checkout foo; git push`, where foo is symbolic, is missed |
| `PushMoveExact.MadeLinkMissed` | packages/security/src/commands.ts:1649-1651 | `git symbolic-ref refs/heads/foo refs/heads/<branch>; git push <remote> foo` is missed |
| `PushReader.ReadPushes` | packages/security/src/commands.ts:1778-1841 | the loop over a line's commands computes the analysed answer, each push read before what its command leaves |
| `PushReader.GitCalls` | packages/security/src/commands.ts:1221-1235 | every invocation among the words, each ending where the next begins |
| `PushReader.LineState.Note` | packages/security/src/commands.ts:1610-1656 | the state a command leaves, folders and branches in order |
| `PushReader.PushTargets.NotePush` | packages/security/src/commands.ts:1918-1993 | the answer after one push |
| `Base64Cores.CoreInEncoding` | packages/security/src/redact.ts:128-144 | for every prefix, secret and suffix, in both alphabets, the core for the prefix's offset is in the encoding, at the place the prefix gives |
| `Base64Cores.CoreIsAllThatIsFixed` | packages/security/src/redact.ts:139-141 | a symbol is the same whatever surrounds the secret if and only if it is in the core |
| `Base64Cores.CoresAreLong` | packages/security/src/redact.ts:120-126 | a secret of eight bytes or more has cores of ten symbols or more |
| `Base64Cores.DecodeEncode` | packages/security/src/redact.ts:138 | decoding gives the bytes back, in both alphabets of RFC 4648 |
| `Base64Cores.PaddedLength` | packages/security/src/redact.ts:138 | four symbols for every three bytes begun with padding, and no padding in the URL alphabet |
| `Base64Cores.Base64CoresOf` | packages/security/src/redact.ts:134-144 | the loop gives the core at each of the three offsets |
| `StreamRedactor.Redactor.Redact` | packages/security/src/redact.ts:348-361 | after every piece, what was shown is what masking the whole text so far shows |
| `StreamRedactor.RedactAll` | packages/security/src/redact.ts:334-341 | every way to cut a text gives the whole-text answer |
| `StreamRedactor.MaskShowsVisible` | packages/security/src/redact.ts:213-218 | masking shows exactly the tokens with no BEGIN at or before them left open |
| `StreamRedactor.MaskExactly` | packages/security/src/redact.ts:213-218 | each block becomes one mark, where it begins, the rest of it nothing, and every other token stays |
| `StreamRedactor.MaskJoin` | packages/security/src/redact.ts:352-357 | a text masked in two parts, the second without what an open block hides of it |
| `StreamRedactor.RightExactly` | packages/security/src/redact.ts:240-253 | over every stream of lines the per-line flag is right after each line if and only if no line ends one block and opens another |
| `StreamRedactor.RedactLines` | packages/security/src/redact.ts:240-253 | a line is hidden exactly when the flag is set before or after it; unless some line reopens a block, every line that starts inside one is hidden |
| `EditDistance.EditDistance` | packages/shared/src/search.ts:30-49 | the answer is within the limit if and only if the distance is, and then is the distance |
| `EditDistance.DistanceIsLeastCost` | packages/shared/src/search.ts:29 | the recursive distance is the least cost of any script of insertions, deletions, replacements and adjacent swaps |
| `EditDistance.EarlyExit` | packages/shared/src/search.ts:44 | a row above the limit puts every later row and the distance above it |
| `EditDistance.CellAbove` | packages/shared/src/search.ts:39-44 | even through the row before last: a transposition costs no less than a replacement crossing the row above the limit |
| `EditDistance.LengthBound` | packages/shared/src/search.ts:31 | the distance is at least the difference in length |
| `EditDistance.NextRow` | packages/shared/src/search.ts:34-43 | a row of the table from the two before it, with its least entry |
| `EditDistance.HasNearWord` | packages/shared/src/search.ts:51-59 | a word of four letters or more is near one of the text, or its start, within one edit, from eight letters on two; a shorter one is never |
| `GitGraph.LayoutGraph` | packages/shared/src/git-graph.ts:36-74 | every row is drawn right: lanes below the width, each edge's lane passes through every row until its parent's, each wire leads from a child, no lane expects twice, a parent is dropped only when all lanes are taken; a new line takes the first free lane and a first parent goes on in its commit's |
| `GitGraph.DrawnIsParentRelation` | packages/shared/src/git-graph.ts:56-67 | for distinct commits, following a wire from one row to a later one is possible if and only if a kept edge names that parent, and every parent is connected unless the lanes were full |
| `GitGraph.PlaceCommit` | packages/shared/src/git-graph.ts:47-72 | one row from the lanes before it: incoming, passing and outgoing lanes and the lanes after |
| `GitGraph.WidthIsExact` | packages/shared/src/git-graph.ts:70 | the width is one more than the last lane the row names |
| `WindowsArgs.CommandLineRoundTrip` | packages/executor/src/process.ts:229-234 | for every argument list, the joined command line read by the C runtime rules gives the list back |
| `WindowsArgs.QuotedReadsBack` | packages/executor/src/process.ts:203-218 | one quoted argument is read back unchanged, whatever follows it |
| `WindowsArgs.QuotedWhenNeeded` | packages/executor/src/process.ts:203-205 | an argument is left as it is if and only if it is not empty and holds no space, tab or quote |
| `WindowsArgs.QuoteWindowsArg` | packages/executor/src/process.ts:203-218 | the loop over characters and backslashes writes that quoting |
| `LineSplitter.Splitter.Push` | packages/executor/src/process.ts:61-75 | after every chunk the pieces sent are those of the stream so far, and the scan offset never skips a line break |
| `LineSplitter.Splitter.Flush` | packages/executor/src/process.ts:76-80 | flushing sends exactly the rest of the stream's pieces |
| `LineSplitter.ChunkingIndependentIff` | packages/executor/src/process.ts:61-80 | all chunkings give the same pieces if and only if no finished line fills its pieces with its CR left over |
| `LineSplitter.PlainlyCut` | packages/executor/src/process.ts:69-74 | without CR, or when every line fits with it, each line is simply cut, however it arrives |
| `LineSplitter.PiecesOfLine` | packages/executor/src/process.ts:82-84 | a line's pieces put together are the line without its CR, all full but the last, and none is too long |
| `LineSplitter.StreamIsItsLines` | packages/executor/src/process.ts:61-84 | a stream of lines gives the pieces of each line in turn, an empty one too, and of an unfinished last one that is not empty |
| `ShellWords.WordsRoundTrip` | packages/security/src/shell-parse.ts:128-133 | every list of words, quoted and joined by spaces, is read back |
| `ShellWords.WrittenWordsRead` | packages/security/src/shell-parse.ts:96-121 | every line is read as its words, however each is put together from bare, double-quoted and single-quoted parts, with any white space between and around |
| `ShellWords.QuotedWhenNeeded` | packages/security/src/shell-parse.ts:130-133 | a word is written as it is if and only if it has nothing to quote |
| `ShellWords.ReadWords` | packages/security/src/shell-parse.ts:96-121 | the loop over characters reads the words |
| `ShellWords.QuoteWordRead` | packages/security/src/shell-parse.ts:130-133 | a quoted word is read as one word, unchanged |
| `QuotedPath.QuotedReadsBack` | packages/git/src/source-control.ts:284-306 | reading inverts Git's quoting for every byte, with `core.quotePath` on or off and any text after |
| `QuotedPath.ReadQuoted` | packages/git/src/source-control.ts:285-306 | the loop reads one quoted token and what follows it, or nothing |
| `QuotedPath.HeaderGivesPath` | packages/git/src/source-control.ts:314-328 | a header naming a/P and b/P gives P, quoted or not, even when P holds ` b/` |
| `QuotedPath.RenamedGivesPath` | packages/git/src/source-control.ts:314-328 | a header with a plain first name and a quoted second gives the second, whatever is in either |
| `QuotedPath.UnquotedSecondGivesPath` | packages/git/src/source-control.ts:317-322 | a header with a quoted first name and a plain second gives the second |
| `QuotedPath.PlainRenamedGivesPath` | packages/git/src/source-control.ts:327 | two plain names that differ: what follows the last ` b/` |
| `QuotedPath.BadEscapeIsNothing` | packages/git/src/source-control.ts:296-304 | a backslash before anything but three octal digits or an escape letter makes the name unreadable |
| `QuotedPath.UnclosedIsNothing` | packages/git/src/source-control.ts:288-305 | a quoted name that never ends is not read |
| `Porcelain.PorcelainRoundTrip` | packages/git/src/source-control.ts:47-91 | every branch header and list of entries printed in the NUL-separated form is parsed back |
| `Porcelain.ParsePorcelainV2` | packages/git/src/source-control.ts:48-91 | the loop over records parses the status, a rename taking the record after it |
| `Porcelain.ReadFields` | packages/git/src/source-control.ts:94-104 | the fields before the first spaces, the rest whole |
| `Porcelain.FieldsBack` | packages/git/src/source-control.ts:93-104 | a path with any spaces is the last field, whole |
| `Porcelain.FieldsExactly` | packages/git/src/source-control.ts:93-104 | the fields joined by spaces are the record, none but the last holds a space, and there are as many as asked for and there are spaces |
| `Porcelain.OthersPassedOver` | packages/git/src/source-control.ts:51-91 | a record of another kind, an empty one or a header of another key changes nothing |
| `PtyBuffer.PtySession.Push` | packages/pty/src/index.ts:133-151 | while the line has not ended and fits, nothing is released and all of it waits; else one piece goes on, up to the last line break, or all but as much as may wait; what is released and held is everything received, and a held line always has its timer |
| `PtyBuffer.PtySession.Release` | packages/pty/src/index.ts:154-167 | what is released goes through the redactor to the end of the history; the chunks kept are the end of it, one after another, and none is dropped unless one more would be over the cap |
| `PtyBuffer.PtySession.DropOld` | packages/pty/src/index.ts:163-165 | old chunks go only beyond the cap: the last one dropped and what is kept are over it together |
| `PtyBuffer.PtySession.Finish` | packages/pty/src/index.ts:169-179 | at exit the line in progress is shown first |
| `PtyBuffer.PtySession.HoldTimeout` | packages/pty/src/index.ts:145-148 | when the wait is over, the line in progress is released as one piece and nothing is held |
| `PtyBuffer.PtySession.Read` | packages/pty/src/index.ts:182-192 | the answer is the history from the later of the place asked for and the first character kept, and says when some is gone |
| `PtyBuffer.Reader.Poll` | packages/pty/src/index.ts:181-192 | a reader that follows the returned cursor has the whole history, unless it was told some was gone |
| `PtyBuffer.FollowsLater` | packages/pty/src/index.ts:181-192 | what a reader has stays the start of the history while it grows |
| `PtyBuffer.KeptWithinCap` | packages/pty/src/index.ts:165 | a reader is told it missed output exactly when it asks for more than is kept; then the history is over the cap from the last chunk dropped on; and never while the whole history is within the cap |
| `DiffPack.CutIsPrefix` | packages/git/src/diff-pack.ts:153-161 | for every diff and every place it is cut, what is left splits into a prefix of the diff's chunks |
| `DiffPack.TailCutExactly` | packages/git/src/diff-pack.ts:157-161 | of a cut diff everything before the last header line is kept and nothing after |
| `DiffPack.FilesAreTheDiff` | packages/git/src/diff-pack.ts:86-93 | the files put together are the diff from its first header on, each begins with its header and no header is missed |
| `DiffPack.SplitExactly` | packages/git/src/diff-pack.ts:92-96 | the chunks are exactly the files that name a path, each with its whole text ended by a line break |
| `DiffPack.PackDiff` | packages/git/src/diff-pack.ts:119-151 | all of the diff is shown when it fits; a chunk not shown no longer fits beside what is kept; only the first is ever cut, and then it is shown in part; each chunk is shown or named once, every changed file is shown or named, and the text kept is within the budget |
| `DiffPack.FateExactly` | packages/git/src/diff-pack.ts:131-147 | a chunk is shown whole exactly when it fits after what was kept before it, cut only when it is the first and no binary, and else left out, as binary when it is |
| `DiffPack.NotSeenExactly` | packages/git/src/diff-pack.ts:148-149 | the files named as not collected are exactly those with no chunk, each with its counts |
| `DiffPack.ClassIs` | packages/git/src/diff-pack.ts:121-125 | a chunk is classed by its path, as binary when its text is or Git counts no lines of the file last listed |
| `DiffPack.ChunkAccounted` | packages/git/src/diff-pack.ts:132-147 | a chunk not shown whole is named with its reason |
| `DiffPack.FileAccounted` | packages/git/src/diff-pack.ts:148-149 | a changed file that is not shown is named |
| `DiffPack.PartsFit` | packages/git/src/diff-pack.ts:131-147 | the text kept never exceeds the budget, the first file's part included |
| `DiffPack.OrderIsStable` | packages/git/src/diff-pack.ts:121-125 | each class keeps exactly its chunks, in their order |
| `DiffPack.SameChunks` | packages/git/src/diff-pack.ts:121-125 | ordering neither drops nor adds a chunk |
| `DiffPack.OrderIsSorted` | packages/git/src/diff-pack.ts:36 | source comes first, then tests, configuration, documentation and what is generated |
| `DiffPack.CutFits` | packages/git/src/diff-pack.ts:101-112 | a cut is within the budget and ends before a hunk, after a whole line, or at the budget |
| `DiffPack.CutIsLast` | packages/git/src/diff-pack.ts:106-107 | no later hunk boundary would fit |
| `DiffPack.CutIsLastLine` | packages/git/src/diff-pack.ts:109-111 | where no whole hunk fits, as many whole lines as fit are kept |
| `DiffPack.SplitDiff` | packages/git/src/diff-pack.ts:86-98 | the loops split a diff at its header lines |
| `Rpc.RpcHub.OnResponse` | apps/cloud-control/src/hub.ts:400-420 | a chunk is kept, or settles the call when the answer is complete or too large; another node's or an impossible one changes nothing |
| `Rpc.RpcHub.Call` | apps/cloud-control/src/hub.ts:451-466 | a call waits with a timer, or settles at once when it cannot be sent |
| `Rpc.RpcHub.OnTimeout` | apps/cloud-control/src/hub.ts:454-457 | a timer that fires settles its call |
| `Rpc.RpcHub.OnNodeGone` | apps/cloud-control/src/hub.ts:199-208 | every call waiting for a lost node settles, and no other |
| `Rpc.RpcHub.Resolve` | apps/cloud-control/src/hub.ts:411-419 | a call settles once: its waiter and timer go with it |
| `Rpc.WholeAnswer` | apps/cloud-control/src/hub.ts:400-420 | chunks in any order with any repeats settle the call exactly when every index has arrived, joined in index order, with the first response's status and type |
| `Rpc.OversizedAnswer` | apps/cloud-control/src/hub.ts:405-411 | an answer over the limit is never passed on: the call settles as too large, by its last chunk at the latest |

## Left out

- Lines the push analysis reads through other programs: `gh`, `git config`, interpreters, substitutions and hooks,
  and the names of aliases it hands to its caller. Which words are a wrapper's is an input, as is that it adds more.
- Git commands other than those of `PushSemantics.Git`: subcommands that neither are in its lists nor move HEAD as
  they say there (`clone`, `init`, `worktree`, `submodule`, `update-ref`, `bisect` but for `reset`, `rebase -x`), an
  alias that pushes or runs a program, or is spelled like a command of Git's but for the case, pushes of
  submodules, global options (`--namespace` among them) and options of `branch`, `stash`, `rebase` and `symbolic-ref`
  other than those listed,
  and a value for an option of `cd`. Options Git refuses together may be let run. `popd` goes back to a folder
  seen before.
- Splitting a line into commands, and the text patterns that mark a command as touching Git's own files; a
  command's words and that mark are inputs. A word reaches Git as written unless it holds `$`, a backtick or
  `!`, or its destination holds a character the analysis calls unreadable. Values of push options, settings
  given with `-c`, and the words of `git branch` that moves nothing are written out.
- Where a push of HEAD goes is the checked-out branch; push settings of a repository other than those on the
  line are not modelled. A new branch may follow its start point when that has a `/` in its name or a shell may
  write it, as the analysis takes it: a remote's own name, and settings that follow local branches, are left out.
- Symbolic refs of the remote's side, and refs made by a fetch or under a name a shell writes.
- `/` and `\` both separate folders, as the analysis splits them; symbolic links and `CDPATH` are not followed.
- Event frames that do not parse, which the hub drops without closing the socket, and restarts of the hub.
- A node's full resync after a database was restored, on either side.
- Deleting old rows, and the fixed command ids of the incident monitor: every acquire uses an id of its own. A
  node's frames run to completion; one that fails between a result and its task is not modelled.
- A command's work counts as ended a lease lifetime after the command succeeded, as the release statement
  counts it.
- The rules for secrets other than private key blocks; hex and percent spellings. The key block rule sees text
  as BEGIN lines, END lines and the rest, and a piece ends between them.
- The redactor inside a terminal session is any function of the pieces so far. How long a line waits, and that each
  has a wait of its own, is not modelled: the timer may fire whenever it is set.
- How a diff chunk names its path, when it is binary and a path's class are parameters; the wording of the
  notice after a partial file is not modelled.
- Quoted names are sequences of UTF-8 bytes; decoding them to text, and a literal character outside the basic
  plane inside quotes, are not modelled. Elsewhere a string is a sequence of characters where JavaScript counts
  UTF-16 units.
- How Git prints a status is the printer in `Porcelain`: records that end in a NUL, fields without spaces.
- The cost of the lane layout, hub log lines, broadcasts to browsers, and audit rows.
- PushSoundness.EveryPushCovered: asks that each command is spelled in a way read right, because without that
  a push can be missed; LineSoundExactly gives the exact condition.
- PushLineExact.LineSoundExactly: does not model a command other than Git with a Git invocation among its words,
  words that a wrapper adds, an argument of Git that names Git, or Git in a folder named like a change of folder;
  MoveNotedExactly has the last two, SoundExactly the third, WrappedCovered and FedPushExactly the second.
- PushWrapped.WrappedCovered: asks of a wrapped command that moves HEAD or makes refs that another command makes the
  answer unknown, because without that a push can be missed (FedMoveMissed).
- PushReader.ReadPushes: does not read `gh` calls, programs and text only known when the line runs, or the names
  of aliases to look up.
- PushReader.LineState.Note: does not note `git config`, `gh pr checkout` or aliases an earlier command defines.
- LeaseStore.CloudStore.AcquireLease: does not model another statement between its two; LeaseProtocol does.
