/**
 * Runs of the repository lease: HTTP requests that take it and write their command
 * (routes/control.ts), node frames that end commands and mirror tasks (hub.ts), and the
 * releases, every statement being one step. A node's frames run one at a time.
 */
module LeaseProtocol {
  import opened Common
  import opened LeaseStore

  /** Between the two statements of acquireLease; before the row is written; before the lease is pointed at the row there was. */
  datatype Stage = Checking | Writing | Repointing(to: CommandId)

  datatype Request = Request(node: Node, fingerprint: Fingerprint, key: Key, at: nat, stage: Stage)

  /** A `command.result` frame past its transition: first the task is recorded, then idle leases are freed. */
  datatype Frame = Recording(id: CommandId, task: Option<TaskId>) | Freeing

  datatype State = State(
    db: Tables,
    now: nat,
    requests: map<CommandId, Request>,
    frames: map<Node, Frame>,
    used: set<CommandId>)

  datatype Step =
    | Tick(ms: nat)
    | Upsert(id: CommandId, node: Node, fingerprint: Fingerprint, key: Key)
    | Check(id: CommandId)
    | Insert(id: CommandId, started: Option<TaskId>, existing: CommandId)
    | Repoint(id: CommandId)
    | Abandon(id: CommandId)
    | InsertPlain(id: CommandId, node: Node, key: Key, started: Option<TaskId>)
    | Move(id: CommandId, node: Node, to: Status)
    | Result(id: CommandId, node: Node, to: Status, started: Option<TaskId>)
    | Record(node: Node)
    | Free(node: Node)
    | Mirror(node: Node, task: TaskId, status: TaskStatus)
    | Forget(node: Node, task: TaskId)
    | Heartbeat(node: Node)
    | OutsideRelease(node: Node)
    | Revoke(node: Node)

  const INIT := State(Tables(map[], map[], map[], {}), 0, map[], map[], {})

  predicate AtStage(s: State, id: CommandId, stage: Stage) {
    id in s.requests && s.requests[id].stage == stage
  }

  predicate Enabled(s: State, step: Step) {
    match step
    case Tick(_) => true
    case Upsert(id, _, _, _) => id !in s.used
    case Check(id) => AtStage(s, id, Checking)
    case Insert(id, _, existing) =>
      && AtStage(s, id, Writing)
      && (KeyTaken(s.db, s.requests[id].key) ==> existing in s.db.commands && s.db.commands[existing].key == s.requests[id].key)
    case Repoint(id) => id in s.requests && s.requests[id].stage.Repointing?
    case Abandon(id) => id in s.requests
    case InsertPlain(id, _, _, _) => id !in s.used
    case Move(_, _, _) => true
    case Result(_, node, _, _) => node !in s.frames
    case Record(node) => node in s.frames && s.frames[node].Recording?
    case Free(node) => node in s.frames && s.frames[node].Freeing?
    case Mirror(node, _, _) => node !in s.frames
    case Forget(node, _) => node !in s.frames
    case Heartbeat(node) => node !in s.frames
    case OutsideRelease(_) => true
    case Revoke(_) => true
  }

  function Staged(s: State, id: CommandId, stage: Stage): State
    requires id in s.requests
  {
    s.(requests := s.requests[id := s.requests[id].(stage := stage)])
  }

  function Left(s: State, id: CommandId): State {
    s.(requests := s.requests - {id})
  }

  function After(s: State, step: Step): State
    requires Enabled(s, step)
  {
    match step
    case Tick(ms) => s.(now := s.now + ms)
    case Upsert(id, node, fp, key) =>
      s.(db := Upserted(s.db, fp, node, id, s.now),
         requests := s.requests[id := Request(node, fp, key, s.now, Checking)],
         used := s.used + {id})
    case Check(id) =>
      var r := s.requests[id];
      if Acquired(s.db, r.fingerprint, r.node, id) then Staged(s, id, Writing) else Left(s, id)
    case Insert(id, task, existing) =>
      var r := s.requests[id];
      if KeyTaken(s.db, r.key) then Staged(s, id, Repointing(existing))
      else Left(s, id).(db := Inserted(s.db, id, Command(r.node, r.key, Some(r.fingerprint), Pending, task, None)))
    case Repoint(id) =>
      Left(s, id).(db := Repointed(s.db, s.requests[id].fingerprint, id, s.requests[id].stage.to))
    case Abandon(id) => Left(s, id)
    case InsertPlain(id, node, key, task) =>
      s.(db := if KeyTaken(s.db, key) then s.db else Inserted(s.db, id, Command(node, key, None, Pending, task, None)),
         used := s.used + {id})
    case Move(id, node, to) => s.(db := Moved(s.db, id, node, to, s.now))
    case Result(id, node, to, task) =>
      s.(db := Moved(s.db, id, node, to, s.now),
         frames := if id in s.db.commands && s.db.commands[id].node == node
                   then s.frames[node := Recording(id, if to == Succeeded then task else None)] else s.frames)
    case Record(node) =>
      var f := s.frames[node];
      s.(db := if f.task.Some? then TaskSet(s.db, f.id, f.task.value) else s.db, frames := s.frames[node := Freeing])
    case Free(node) => s.(db := IdleReleased(s.db, node, s.now), frames := s.frames - {node})
    case Mirror(node, task, status) => s.(db := TaskMirrored(s.db, node, task, status, s.now))
    case Forget(node, task) => s.(db := TaskForgotten(s.db, node, task))
    case Heartbeat(node) => s.(db := IdleReleased(s.db, node, s.now))
    case OutsideRelease(node) => s.(db := IdleReleased(s.db, node, s.now))
    case Revoke(node) => s.(db := Revoked(s.db, node, s.now))
  }

  // ----- what the lease is for -----

  /** A request of the node holds the lease and has not written its command yet. */
  predicate Unwritten(s: State, node: Node, fp: Fingerprint) {
    exists id :: id in s.requests && s.requests[id].node == node && s.requests[id].fingerprint == fp && s.requests[id].stage == Writing
  }

  /** A command of the node succeeded and the task it started is about to be recorded. */
  predicate Unrecorded(s: State, node: Node, fp: Fingerprint) {
    && node in s.frames && s.frames[node].Recording? && s.frames[node].task.Some?
    && s.frames[node].id in s.db.commands
    && var c := s.db.commands[s.frames[node].id];
       Busy(s.db, c.(taskId := s.frames[node].task), node, fp, s.now)
  }

  /** The node has work on the repository. */
  predicate Working(s: State, node: Node, fp: Fingerprint) {
    Visible(s.db, node, fp, s.now) || Unwritten(s, node, fp) || Unrecorded(s, node, fp)
  }

  predicate Held(s: State, node: Node, fp: Fingerprint) {
    && fp in s.db.leases && s.db.leases[fp].node == node
    && !s.db.leases[fp].released && s.now < s.db.leases[fp].expiresAt
  }

  /** The steps that run releaseIdleLeases for the node. */
  predicate Frees(step: Step, node: Node) {
    || step == Free(node) || step == Heartbeat(node) || step == OutsideRelease(node)
    || (step.Mirror? && step.node == node && step.status != Active)
  }

  /**
   * A release that cannot see the node's work: the lease names a command already written, while
   * another request has yet to write its own, or a started task has yet to be recorded.
   */
  predicate Blind(s: State, step: Step, node: Node, fp: Fingerprint)
    requires Enabled(s, step)
  {
    var s' := After(s, step);
    && Frees(step, node)
    && fp in s.db.leases && s.db.leases[fp].commandId in s.db.commands
    && !Visible(s'.db, node, fp, s'.now)
    && (Unwritten(s', node, fp) || Unrecorded(s', node, fp))
  }

  // ----- invariant -----

  predicate LeaseOf(db: Tables, id: CommandId, r: Request) {
    r.fingerprint in db.leases && db.leases[r.fingerprint].commandId == id ==>
      && db.leases[r.fingerprint].node == r.node
      && db.leases[r.fingerprint].expiresAt == r.at + LEASE_TTL_MS
      && (db.leases[r.fingerprint].released ==> r.node in db.revoked)
  }

  predicate RequestOk(s: State, id: CommandId) {
    id in s.requests ==>
      && id in s.used && id !in s.db.commands
      && (s.requests[id].stage.Repointing? ==> s.requests[id].stage.to in s.db.commands)
      && LeaseOf(s.db, id, s.requests[id])
  }

  predicate LeaseInv(s: State, fp: Fingerprint)
    requires fp in s.db.leases
  {
    s.db.leases[fp].expiresAt <= s.now + LEASE_TTL_MS && s.db.leases[fp].commandId in s.used
  }

  predicate Inv(s: State) {
    && s.db.commands.Keys <= s.used
    && (forall fp :: fp in s.db.leases ==> LeaseInv(s, fp))
    && (forall id :: id in s.requests ==> RequestOk(s, id))
  }

  lemma InvKept(s: State, step: Step)
    requires Inv(s) && Enabled(s, step)
    ensures Inv(After(s, step))
  {
    hide After, Enabled, RequestOk;
    forall id | id in After(s, step).requests ensures RequestOk(After(s, step), id) {
      if step.Upsert? || step.Check? || step.Insert? || step.Repoint? || step.Abandon? {
        RequestStepKeeps(s, step, id);
      } else {
        DbStepKeeps(s, step, id);
      }
    }
    LeasesKept(s, step);
  }

  lemma LeasesKept(s: State, step: Step)
    requires Inv(s) && Enabled(s, step)
    ensures After(s, step).db.commands.Keys <= After(s, step).used
    ensures forall fp :: fp in After(s, step).db.leases ==> LeaseInv(After(s, step), fp)
  {
    hide KeyTaken, Visible, RequestOk, Idle;
    if step.Insert? || step.Repoint? { RequestKnown(s, step.id); }
    forall fp | fp in s.db.leases ensures LeaseInv(s, fp) {
    }
  }

  lemma RequestKnown(s: State, id: CommandId)
    requires Inv(s) && id in s.requests
    ensures id in s.used && id !in s.db.commands
    ensures s.requests[id].stage.Repointing? ==> s.requests[id].stage.to in s.used
  {
    assert RequestOk(s, id);
  }

  lemma RequestStepKeeps(s: State, step: Step, id: CommandId)
    requires Inv(s) && Enabled(s, step) && id in After(s, step).requests
    requires step.Upsert? || step.Check? || step.Insert? || step.Repoint? || step.Abandon?
    ensures RequestOk(After(s, step), id)
  {
    hide KeyTaken, Visible;
    assert id in s.requests ==> RequestOk(s, id);
    assert step.Repoint? ==> RequestOk(s, step.id);
    assert step.Upsert? && step.fingerprint in s.db.leases ==> LeaseInv(s, step.fingerprint);
  }

  lemma DbStepKeeps(s: State, step: Step, id: CommandId)
    requires Inv(s) && Enabled(s, step) && id in After(s, step).requests
    requires !(step.Upsert? || step.Check? || step.Insert? || step.Repoint? || step.Abandon?)
    ensures RequestOk(After(s, step), id)
  {
    hide KeyTaken, Visible;
    assert RequestOk(s, id);
  }

  /** A successful check leaves the node holding the lease, unless it was revoked or a lifetime has passed since the upsert. */
  lemma CheckedHolds(s: State, id: CommandId)
    requires Inv(s) && AtStage(s, id, Checking)
    requires var r := s.requests[id]; Acquired(s.db, r.fingerprint, r.node, id) && r.node !in s.db.revoked && s.now < r.at + LEASE_TTL_MS
    ensures var r := s.requests[id];
            && Held(After(s, Check(id)), r.node, r.fingerprint)
            && s.db.leases[r.fingerprint].expiresAt == r.at + LEASE_TTL_MS
            && Unwritten(After(s, Check(id)), r.node, r.fingerprint)
  {
    assert RequestOk(s, id);
    assert id in After(s, Check(id)).requests;
  }

  /** While one node holds the lease, another's upsert changes nothing and its check fails. */
  lemma OthersRefused(s: State, step: Step, node: Node, fp: Fingerprint)
    requires Enabled(s, step) && Held(s, node, fp)
    ensures step.Upsert? && step.fingerprint == fp && step.node != node ==> After(s, step).db == s.db
    ensures step.Check? && s.requests[step.id].fingerprint == fp && s.requests[step.id].node != node ==>
              After(s, step) == Left(s, step.id)
  {
  }

  // ----- one step -----

  lemma ReleaseSeesWork(db: Tables, node: Node, fp: Fingerprint, now: nat)
    requires fp in db.leases && db.leases[fp].node == node && !db.leases[fp].released
    ensures IdleReleased(db, node, now).leases[fp].released <==>
              db.leases[fp].commandId in db.commands && !Visible(IdleReleased(db, node, now), node, fp, now)
    ensures !IdleReleased(db, node, now).leases[fp].released ==> IdleReleased(db, node, now).leases[fp] == db.leases[fp]
  {
    VisibleIgnoresLeases(db, IdleReleased(db, node, now), node, fp, now);
  }

  /** A step keeps a held lease exactly when it is no blind release, as long as the node still has work. */
  lemma StepKeepsHold(s: State, step: Step, node: Node, fp: Fingerprint)
    requires Inv(s) && Enabled(s, step) && Held(s, node, fp)
    requires step != Revoke(node)
    requires Working(After(s, step), node, fp)
    requires After(s, step).now < s.db.leases[fp].expiresAt
    ensures Held(After(s, step), node, fp) <==> !Blind(s, step, node, fp)
    ensures fp in After(s, step).db.leases && s.db.leases[fp].expiresAt <= After(s, step).db.leases[fp].expiresAt
  {
    hide Visible, KeyTaken, Unwritten, Unrecorded;
    if Frees(step, node) {
      var db := if step.Mirror? then s.db.(tasks := s.db.tasks[(node, step.task) := step.status]) else s.db;
      ReleaseSeesWork(db, node, fp, s.now);
    } else {
      OtherStepKeepsHold(s, step, node, fp);
    }
  }

  lemma OtherStepKeepsHold(s: State, step: Step, node: Node, fp: Fingerprint)
    requires Inv(s) && Enabled(s, step) && Held(s, node, fp)
    requires step != Revoke(node) && !Frees(step, node)
    requires After(s, step).now < s.db.leases[fp].expiresAt
    ensures Held(After(s, step), node, fp)
    ensures s.db.leases[fp].expiresAt <= After(s, step).db.leases[fp].expiresAt
  {
    hide Visible, KeyTaken;
  }

  // ----- runs -----

  predicate IsRun(states: seq<State>, steps: seq<Step>) {
    && |states| == |steps| + 1
    && states[0] == INIT
    && forall k :: 0 <= k < |steps| ==> StepAt(states, steps, k)
  }

  predicate StepAt(states: seq<State>, steps: seq<Step>, k: nat)
    requires k < |steps| && |states| == |steps| + 1
  {
    Enabled(states[k], steps[k]) && states[k + 1] == After(states[k], steps[k])
  }

  lemma {:induction false} InvAt(states: seq<State>, steps: seq<Step>, k: nat)
    requires IsRun(states, steps) && k < |states|
    ensures Inv(states[k])
  {
    if k > 0 {
      InvAt(states, steps, k - 1);
      assert StepAt(states, steps, k - 1);
      InvKept(states[k - 1], steps[k - 1]);
    }
  }

  lemma TimeMovesOn(s: State, step: Step)
    requires Enabled(s, step)
    ensures s.now <= After(s, step).now
    ensures s.db.revoked <= After(s, step).db.revoked
    ensures After(s, step).now == s.now + if step.Tick? then step.ms else 0
    ensures step.Revoke? ==> step.node in After(s, step).db.revoked
  {
  }

  /** The node's check of request `id` succeeded at step `i`, and it has had work ever since, up to state `j`. */
  predicate WorkingSince(states: seq<State>, steps: seq<Step>, i: nat, j: nat, id: CommandId, r: Request) {
    && IsRun(states, steps) && i < j < |states|
    && steps[i] == Check(id) && StepAt(states, steps, i)
    && states[i].requests[id] == r && Acquired(states[i].db, r.fingerprint, r.node, id)
    && (forall k :: i < k <= j ==> Working(states[k], r.node, r.fingerprint))
    && r.node !in states[j].db.revoked
    && states[j].now < r.at + LEASE_TTL_MS
  }

  /** Some step between is a release that could not see the work. */
  predicate BlindBetween(states: seq<State>, steps: seq<Step>, i: nat, j: nat, node: Node, fp: Fingerprint)
    requires IsRun(states, steps) && j < |states|
  {
    exists k :: i < k < j && BlindAt(states, steps, k, node, fp)
  }

  predicate BlindAt(states: seq<State>, steps: seq<Step>, k: nat, node: Node, fp: Fingerprint)
    requires |states| == |steps| + 1 && k < |steps|
  {
    StepAt(states, steps, k) && Blind(states[k], steps[k], node, fp)
  }

  predicate HeldAt(states: seq<State>, k: nat, r: Request)
    requires k < |states|
  {
    && Held(states[k], r.node, r.fingerprint)
    && states[k].db.leases[r.fingerprint].expiresAt >= r.at + LEASE_TTL_MS
  }

  lemma WorkingBefore(states: seq<State>, steps: seq<Step>, i: nat, j: nat, id: CommandId, r: Request)
    requires WorkingSince(states, steps, i, j, id, r) && i + 1 < j
    ensures WorkingSince(states, steps, i, j - 1, id, r)
    ensures StepAt(states, steps, j - 1) && steps[j - 1] != Revoke(r.node)
  {
    hide Working, Acquired, After, Enabled;
    assert StepAt(states, steps, j - 1);
    TimeMovesOn(states[j - 1], steps[j - 1]);
  }

  /**
   * Safety over whole runs: from a node's successful acquire, as long as it keeps having work, is not
   * revoked and the lifetime has not passed, it holds the lease in every state exactly when no
   * release ran blind.
   */
  lemma {:induction false} HeldWhileWorking(states: seq<State>, steps: seq<Step>, i: nat, j: nat, id: CommandId, r: Request)
    requires WorkingSince(states, steps, i, j, id, r)
    ensures (forall k :: i < k <= j ==> HeldAt(states, k, r)) <==> !BlindBetween(states, steps, i, j, r.node, r.fingerprint)
    decreases j
  {
    hide Working, Acquired, After, Enabled, Inv, Blind, Held;
    if j == i + 1 {
      FirstHeld(states, steps, i, j, id, r);
    } else {
      WorkingBefore(states, steps, i, j, id, r);
      HeldWhileWorking(states, steps, i, j - 1, id, r);
      if forall k :: i < k <= j - 1 ==> HeldAt(states, k, r) {
        LastHeld(states, steps, j - 1, r);
        assert HeldAt(states, j, r) <==> !BlindAt(states, steps, j - 1, r.node, r.fingerprint);
      }
    }
  }

  lemma FirstHeld(states: seq<State>, steps: seq<Step>, i: nat, j: nat, id: CommandId, r: Request)
    requires WorkingSince(states, steps, i, j, id, r) && j == i + 1
    ensures HeldAt(states, j, r)
  {
    hide Working;
    InvAt(states, steps, i);
    TimeMovesOn(states[i], steps[i]);
    CheckedHolds(states[i], id);
  }

  lemma LastHeld(states: seq<State>, steps: seq<Step>, k: nat, r: Request)
    requires IsRun(states, steps) && k < |steps| && HeldAt(states, k, r)
    requires steps[k] != Revoke(r.node) && Working(states[k + 1], r.node, r.fingerprint)
    requires states[k + 1].now < r.at + LEASE_TTL_MS
    ensures HeldAt(states, k + 1, r) <==> !BlindAt(states, steps, k, r.node, r.fingerprint)
  {
    hide Working, After, Enabled, Inv, Blind;
    assert StepAt(states, steps, k);
    InvAt(states, steps, k);
    StepKeepsHold(states[k], steps[k], r.node, r.fingerprint);
  }

  // ----- when releases are never blind -----

  /** No second acquire of the node on the repository while one has yet to write, no release from outside mid-recording. */
  predicate Serial(s: State, step: Step) {
    && (step.Upsert? ==> !Unwritten(s, step.node, step.fingerprint))
    && (step.OutsideRelease? ==> !(step.node in s.frames && s.frames[step.node].Recording?))
  }

  predicate NamesWriter(s: State, id: CommandId)
    requires id in s.requests
  {
    var r := s.requests[id];
    r.stage == Writing && r.fingerprint in s.db.leases && s.db.leases[r.fingerprint].node == r.node ==>
      s.db.leases[r.fingerprint].commandId == id
  }

  predicate NamesWriters(s: State) {
    forall id :: id in s.requests ==> NamesWriter(s, id)
  }

  lemma NamesWritersKept(s: State, step: Step)
    requires Inv(s) && NamesWriters(s) && Enabled(s, step) && Serial(s, step)
    ensures NamesWriters(After(s, step))
  {
    hide Enabled, After, Serial, RequestOk, NamesWriter;
    forall id | id in After(s, step).requests ensures NamesWriter(After(s, step), id) {
      if step.Upsert? || step.Check? || step.Repoint? {
        LeaseStepNames(s, step, id);
      } else {
        OtherStepNames(s, step, id);
      }
    }
  }

  lemma LeaseStepNames(s: State, step: Step, id: CommandId)
    requires Inv(s) && NamesWriters(s) && Enabled(s, step) && Serial(s, step)
    requires step.Upsert? || step.Check? || step.Repoint?
    requires id in After(s, step).requests
    ensures NamesWriter(After(s, step), id)
  {
    if id in s.requests { assert NamesWriter(s, id) && RequestOk(s, id); }
  }

  lemma OtherStepNames(s: State, step: Step, id: CommandId)
    requires NamesWriters(s) && Enabled(s, step)
    requires !(step.Upsert? || step.Check? || step.Repoint?)
    requires id in After(s, step).requests
    ensures NamesWriter(After(s, step), id)
  {
    hide KeyTaken, Visible;
    assert NamesWriter(s, id);
  }

  lemma SerialNotBlind(s: State, step: Step, node: Node, fp: Fingerprint)
    requires Inv(s) && NamesWriters(s) && Enabled(s, step) && Serial(s, step)
    requires fp in s.db.leases && s.db.leases[fp].node == node
    ensures !Blind(s, step, node, fp)
  {
    hide KeyTaken, Visible, Idle;
    forall id | id in s.requests ensures NamesWriter(s, id) && RequestOk(s, id) {
    }
  }

  lemma {:induction false} NamesWritersAt(states: seq<State>, steps: seq<Step>, k: nat)
    requires IsRun(states, steps) && k < |states|
    requires forall h :: 0 <= h < k ==> Serial(states[h], steps[h])
    ensures NamesWriters(states[k])
  {
    hide After, Enabled, Serial, NamesWriters;
    if k > 0 {
      NamesWritersAt(states, steps, k - 1);
      InvAt(states, steps, k - 1);
      assert StepAt(states, steps, k - 1);
      NamesWritersKept(states[k - 1], steps[k - 1]);
    } else {
      NoWritersAtStart();
    }
  }

  lemma NoWritersAtStart()
    ensures NamesWriters(INIT)
  {
  }

  lemma {:induction false} SerialHeld(states: seq<State>, steps: seq<Step>, i: nat, j: nat, id: CommandId, r: Request)
    requires WorkingSince(states, steps, i, j, id, r)
    requires forall h :: 0 <= h < j ==> Serial(states[h], steps[h])
    ensures forall k :: i < k <= j ==> HeldAt(states, k, r)
    decreases j
  {
    hide Working, Acquired, After, Enabled, Inv, Blind, Serial, NamesWriters;
    if j == i + 1 {
      FirstHeld(states, steps, i, j, id, r);
    } else {
      WorkingBefore(states, steps, i, j, id, r);
      SerialHeld(states, steps, i, j - 1, id, r);
      NamesWritersAt(states, steps, j - 1);
      InvAt(states, steps, j - 1);
      assert HeldAt(states, j - 1, r);
      SerialNotBlind(states[j - 1], steps[j - 1], r.node, r.fingerprint);
      LastHeld(states, steps, j - 1, r);
    }
  }

  /** One acquire per node and repository at a time, and releases in frame order, are enough: no release runs blind. */
  lemma SerialNeverBlind(states: seq<State>, steps: seq<Step>, i: nat, j: nat, id: CommandId, r: Request)
    requires WorkingSince(states, steps, i, j, id, r)
    requires forall h :: 0 <= h < j ==> Serial(states[h], steps[h])
    ensures !BlindBetween(states, steps, i, j, r.node, r.fingerprint)
  {
    hide Working, Serial, WorkingSince, IsRun, HeldAt, BlindBetween;
    SerialHeld(states, steps, i, j, id, r);
    HeldWhileWorking(states, steps, i, j, id, r);
  }

  /** Unless a release ran blind, no other node's acquire of the repository succeeds while the holder's work goes on. */
  lemma NoSecondHolder(states: seq<State>, steps: seq<Step>, i: nat, j: nat, id: CommandId, r: Request, other: CommandId)
    requires WorkingSince(states, steps, i, j, id, r) && !BlindBetween(states, steps, i, j, r.node, r.fingerprint)
    requires AtStage(states[j], other, Checking)
    requires states[j].requests[other].fingerprint == r.fingerprint && states[j].requests[other].node != r.node
    ensures After(states[j], Check(other)) == Left(states[j], other)
  {
    hide Working, BlindBetween, Inv;
    HeldWhileWorking(states, steps, i, j, id, r);
    assert HeldAt(states, j, r);
    OthersRefused(states[j], Check(other), r.node, r.fingerprint);
  }

  // ----- what a request and a frame leave behind -----

  /** A row of the node on the repository that has not ended. */
  predicate OpenRow(s: State, cid: CommandId, node: Node, fp: Fingerprint) {
    && cid in s.db.commands && s.db.commands[cid].node == node && s.db.commands[cid].fingerprint == Some(fp)
    && (s.db.commands[cid].status == Pending || s.db.commands[cid].status == Delivered || s.db.commands[cid].status == Claimed)
  }

  /** A row of the node on the repository that succeeded, and whose task has not ended. */
  predicate TaskRow(s: State, cid: CommandId, node: Node, fp: Fingerprint) {
    && cid in s.db.commands && s.db.commands[cid].node == node && s.db.commands[cid].fingerprint == Some(fp)
    && s.db.commands[cid].status == Succeeded && s.db.commands[cid].taskId.Some?
    && s.db.commands[cid].finishedAt.Some? && s.now < s.db.commands[cid].finishedAt.value + LEASE_TTL_MS
    && ((node, s.db.commands[cid].taskId.value) in s.db.tasks ==> s.db.tasks[(node, s.db.commands[cid].taskId.value)] == Active)
  }

  /** A request whose key another has written makes no second command, and leaves its lease to the one there is. */
  lemma RepeatPointsAtFirst(s: State, id: CommandId, started: Option<TaskId>, first: CommandId)
    requires Inv(s) && AtStage(s, id, Writing) && first in s.db.commands && s.db.commands[first].key == s.requests[id].key
    ensures var s1 := After(s, Insert(id, started, first));
            && Enabled(s1, Repoint(id))
            && var s2, fp := After(s1, Repoint(id)), s.requests[id].fingerprint;
               && s2.db.commands == s.db.commands && s2.requests == s.requests - {id} && s2.db.leases.Keys == s.db.leases.Keys
               && (fp in s.db.leases && s.db.leases[fp].commandId == id ==> s2.db.leases[fp] == s.db.leases[fp].(commandId := first))
               && (forall f :: f in s.db.leases && (f != fp || s.db.leases[f].commandId != id) ==> s2.db.leases[f] == s.db.leases[f])
  {
    assert KeyTaken(s.db, s.requests[id].key);
  }

  /** A request of a new key writes its command with its lease's fingerprint, waiting for delivery. */
  lemma NewKeyIsWritten(s: State, id: CommandId, started: Option<TaskId>, existing: CommandId)
    requires Inv(s) && AtStage(s, id, Writing) && forall x :: x in s.db.commands ==> s.db.commands[x].key != s.requests[id].key
    ensures var s', r := After(s, Insert(id, started, existing)), s.requests[id];
            && s'.db.commands == s.db.commands[id := Command(r.node, r.key, Some(r.fingerprint), Pending, started, None)]
            && s'.db.leases == s.db.leases && s'.requests == s.requests - {id} && OpenRow(s', id, r.node, r.fingerprint)
  {
  }

  /** The steps of a frame that ends an open command: it ends, the task it started is recorded, and idle leases are freed. */
  lemma ResultIsRecorded(s: State, id: CommandId, node: Node, to: Status, task: Option<TaskId>)
    requires Enabled(s, Result(id, node, to, task)) && id in s.db.commands && s.db.commands[id].node == node
    requires s.db.commands[id].status in {Pending, Delivered, Claimed} && (to == Succeeded || to == Failed)
    ensures var s1 := After(s, Result(id, node, to, task));
            && Enabled(s1, Record(node))
            && var s2 := After(s1, Record(node));
               && s2.db.commands == s.db.commands[id := s.db.commands[id].(
                    status := to, finishedAt := Some(s.now), taskId := if to == Succeeded && task.Some? then task else s.db.commands[id].taskId)]
               && s2.db.leases == s.db.leases && s2.db.tasks == s.db.tasks
               && Enabled(s2, Free(node)) && node !in After(s2, Free(node)).frames
               && After(s2, Free(node)).db == IdleReleased(s2.db, node, s.now)
  {
  }

  /** Between those steps, and after them until the task ends, the node has work on the repository. */
  lemma StartedTaskIsWork(s: State, id: CommandId, node: Node, task: TaskId, fp: Fingerprint)
    requires Enabled(s, Result(id, node, Succeeded, Some(task))) && OpenRow(s, id, node, fp)
    requires (node, task) in s.db.tasks ==> s.db.tasks[(node, task)] == Active
    ensures var s1 := After(s, Result(id, node, Succeeded, Some(task)));
            && Working(s1, node, fp) && Working(After(s1, Record(node)), node, fp)
            && TaskRow(After(s1, Record(node)), id, node, fp)
  {
    hide Moved, TaskSet, KeyTaken, Unrecorded, Unwritten;
    ResultIsRecorded(s, id, node, Succeeded, Some(task));
    StartedIsUnrecorded(s, id, node, task, fp);
    var s1 := After(s, Result(id, node, Succeeded, Some(task)));
    var s2 := After(s1, Record(node));
    assert Busy(s2.db, s2.db.commands[id], node, fp, s2.now);
  }

  lemma StartedIsUnrecorded(s: State, id: CommandId, node: Node, task: TaskId, fp: Fingerprint)
    requires Enabled(s, Result(id, node, Succeeded, Some(task))) && OpenRow(s, id, node, fp)
    requires (node, task) in s.db.tasks ==> s.db.tasks[(node, task)] == Active
    ensures Unrecorded(After(s, Result(id, node, Succeeded, Some(task))), node, fp)
  {
  }

  /** A revoked node holds nothing. */
  lemma RevokedHoldsNothing(s: State, node: Node, fp: Fingerprint)
    requires node !in s.db.revoked
    ensures !Held(After(s, Revoke(node)), node, fp)
  {
  }

  /** A task's status is the last one mirrored; forgotten, it counts as not ended. */
  lemma TasksFollow(s: State, step: Step, node: Node, task: TaskId)
    requires Enabled(s, step)
    ensures step.Mirror? && step.node == node && step.task == task ==>
              (node, task) in After(s, step).db.tasks && After(s, step).db.tasks[(node, task)] == step.status
    ensures step == Forget(node, task) ==> (node, task) !in After(s, step).db.tasks
    ensures step != Forget(node, task) && !(step.Mirror? && step.node == node && step.task == task) ==>
              ((node, task) in After(s, step).db.tasks <==> (node, task) in s.db.tasks)
              && ((node, task) in s.db.tasks ==> After(s, step).db.tasks[(node, task)] == s.db.tasks[(node, task)])
  {
    hide KeyTaken, Visible, Idle;
  }

  // ----- work that can be seen -----

  /** No release of any kind touches the lease of a node with such a row. */
  lemma OpenRowKeeps(s: State, step: Step, node: Node, fp: Fingerprint, cid: CommandId)
    requires Enabled(s, step) && OpenRow(s, cid, node, fp) && fp in s.db.leases && s.db.leases[fp].node == node
    requires step.Free? || step.Heartbeat? || step.OutsideRelease? || step.Mirror?
    ensures fp in After(s, step).db.leases && After(s, step).db.leases[fp] == s.db.leases[fp]
  {
    ReleasedExactly(if step.Mirror? then s.db.(tasks := s.db.tasks[(step.node, step.task) := step.status]) else s.db, step.node, fp, s.now);
  }

  /** A row stays, and never opens again. */
  lemma RowStays(s: State, step: Step, cid: CommandId, node: Node, fp: Fingerprint)
    requires Inv(s) && Enabled(s, step) && cid in s.db.commands
    requires s.db.commands[cid].node == node && s.db.commands[cid].fingerprint == Some(fp)
    ensures cid in After(s, step).db.commands
    ensures After(s, step).db.commands[cid].node == node && After(s, step).db.commands[cid].fingerprint == Some(fp)
    ensures OpenRow(After(s, step), cid, node, fp) ==> OpenRow(s, cid, node, fp)
  {
    hide KeyTaken, Visible, Idle;
    if step.Insert? { RequestKnown(s, step.id); }
  }

  lemma WorkRowHolds(s: State, step: Step, node: Node, fp: Fingerprint, cid: CommandId)
    requires Inv(s) && Enabled(s, step) && Held(s, node, fp)
    requires OpenRow(After(s, step), cid, node, fp) || TaskRow(After(s, step), cid, node, fp)
    requires step != Revoke(node) && After(s, step).now < s.db.leases[fp].expiresAt
    ensures Held(After(s, step), node, fp) && s.db.leases[fp].expiresAt <= After(s, step).db.leases[fp].expiresAt
  {
    hide After, Enabled, Unwritten, Unrecorded, Held, Inv;
    assert Busy(After(s, step).db, After(s, step).db.commands[cid], node, fp, After(s, step).now);
    StepKeepsHold(s, step, node, fp);
  }

  /**
   * From any state of a run in which a node holds the lease and a row of its own on the repository is written, it
   * holds the lease as long as that row is open, whatever any node, request or release does meanwhile.
   */
  lemma {:induction false} HeldWhileOpen(states: seq<State>, steps: seq<Step>, i: nat, j: nat, node: Node, fp: Fingerprint, cid: CommandId)
    requires IsRun(states, steps) && i <= j < |states|
    requires Held(states[i], node, fp) && cid in states[i].db.commands
    requires states[i].db.commands[cid].node == node && states[i].db.commands[cid].fingerprint == Some(fp)
    requires cid in states[j].db.commands && states[j].db.commands[cid].status in {Pending, Delivered, Claimed}
    requires node !in states[j].db.revoked && states[j].now < states[i].db.leases[fp].expiresAt
    ensures Held(states[j], node, fp) && states[i].db.leases[fp].expiresAt <= states[j].db.leases[fp].expiresAt
    ensures OpenRow(states[j], cid, node, fp)
    decreases j
  {
    hide After, Enabled, Inv;
    if i < j {
      RowsStay(states, steps, i, j, cid, node, fp);
      assert StepAt(states, steps, j - 1);
      TimeMovesOn(states[j - 1], steps[j - 1]);
      InvAt(states, steps, j - 1);
      RowStays(states[j - 1], steps[j - 1], cid, node, fp);
      HeldWhileOpen(states, steps, i, j - 1, node, fp, cid);
      WorkRowHolds(states[j - 1], steps[j - 1], node, fp, cid);
    }
  }

  lemma {:induction false} RowsStay(states: seq<State>, steps: seq<Step>, i: nat, j: nat, cid: CommandId, node: Node, fp: Fingerprint)
    requires IsRun(states, steps) && i < j < |states| && cid in states[i].db.commands
    requires states[i].db.commands[cid].node == node && states[i].db.commands[cid].fingerprint == Some(fp)
    ensures cid in states[j - 1].db.commands
    ensures states[j - 1].db.commands[cid].node == node && states[j - 1].db.commands[cid].fingerprint == Some(fp)
    decreases j
  {
    hide After, Enabled, Inv;
    if i + 1 < j {
      RowsStay(states, steps, i, j - 1, cid, node, fp);
      assert StepAt(states, steps, j - 2);
      InvAt(states, steps, j - 2);
      RowStays(states[j - 2], steps[j - 2], cid, node, fp);
    }
  }

  /** The same while the row is open or the task it started goes on. */
  lemma {:induction false} HeldWhileTask(states: seq<State>, steps: seq<Step>, i: nat, j: nat, node: Node, fp: Fingerprint, cid: CommandId)
    requires IsRun(states, steps) && i <= j < |states| && Held(states[i], node, fp)
    requires forall k :: i < k <= j ==> OpenRow(states[k], cid, node, fp) || TaskRow(states[k], cid, node, fp)
    requires node !in states[j].db.revoked && states[j].now < states[i].db.leases[fp].expiresAt
    ensures Held(states[j], node, fp) && states[i].db.leases[fp].expiresAt <= states[j].db.leases[fp].expiresAt
    decreases j
  {
    hide After, Enabled, Inv, OpenRow, TaskRow;
    if i < j {
      assert StepAt(states, steps, j - 1);
      TimeMovesOn(states[j - 1], steps[j - 1]);
      InvAt(states, steps, j - 1);
      HeldWhileTask(states, steps, i, j - 1, node, fp, cid);
      WorkRowHolds(states[j - 1], steps[j - 1], node, fp, cid);
    }
  }

  /** While that row is open no other node gets the repository: its upserts change nothing and its checks fail. */
  lemma NoOtherBesideOpen(states: seq<State>, steps: seq<Step>, i: nat, j: nat, node: Node, fp: Fingerprint, cid: CommandId, step: Step)
    requires IsRun(states, steps) && i <= j < |states|
    requires Held(states[i], node, fp) && cid in states[i].db.commands
    requires states[i].db.commands[cid].node == node && states[i].db.commands[cid].fingerprint == Some(fp)
    requires cid in states[j].db.commands && states[j].db.commands[cid].status in {Pending, Delivered, Claimed}
    requires node !in states[j].db.revoked && states[j].now < states[i].db.leases[fp].expiresAt
    requires Enabled(states[j], step)
    ensures step.Upsert? && step.fingerprint == fp && step.node != node ==> After(states[j], step).db == states[j].db
    ensures step.Check? && states[j].requests[step.id].fingerprint == fp && states[j].requests[step.id].node != node ==>
              After(states[j], step).requests == states[j].requests - {step.id} && After(states[j], step).db == states[j].db
  {
    hide After;
    HeldWhileOpen(states, steps, i, j, node, fp, cid);
    OthersRefused(states[j], step, node, fp);
  }

  // ----- a blind release happens -----

  const FIRST := Request("a", "repo", ("user", "k1"), 0, Checking)
  const SECOND := Request("a", "repo", ("user", "k2"), 0, Checking)
  const OTHER := Request("b", "repo", ("user", "k3"), 0, Checking)

  const SEND := Command("a", ("user", "k2"), Some("repo"), Pending, None, None)
  const ENDED := SEND.(status := Failed, finishedAt := Some(0))

  function Leased(s: State, lease: Lease): State {
    s.(db := s.db.(leases := map["repo" := lease]))
  }

  const S1 := Leased(INIT, Lease("a", "c1", None, LEASE_TTL_MS, false)).(requests := map["c1" := FIRST], used := {"c1"})
  const S2 := S1.(requests := map["c1" := FIRST.(stage := Writing)])
  const S3 := Leased(S2, Lease("a", "c2", None, LEASE_TTL_MS, false)).(requests := S2.requests["c2" := SECOND], used := {"c1", "c2"})
  const S4 := S3.(requests := S2.requests["c2" := SECOND.(stage := Writing)])
  const S5 := S4.(db := S4.db.(commands := map["c2" := SEND]), requests := S2.requests)
  const S6 := S5.(db := S5.db.(commands := map["c2" := ENDED]))
  const S7 := Leased(S6, Lease("a", "c2", None, LEASE_TTL_MS, true))
  const S8 := Leased(S7, Lease("b", "c3", None, LEASE_TTL_MS, false)).(requests := S2.requests["c3" := OTHER], used := {"c1", "c2", "c3"})
  const S9 := S8.(requests := S2.requests["c3" := OTHER.(stage := Writing)])

  lemma FirstAcquires()
    ensures var up := Upsert("c1", "a", "repo", ("user", "k1")); Enabled(INIT, up) && After(INIT, up) == S1
    ensures Enabled(S1, Check("c1")) && After(S1, Check("c1")) == S2
    ensures Acquired(S1.db, "repo", "a", "c1")
  {
  }

  lemma SecondAcquires()
    ensures var up := Upsert("c2", "a", "repo", ("user", "k2")); Enabled(S2, up) && After(S2, up) == S3
    ensures Enabled(S3, Check("c2")) && After(S3, Check("c2")) == S4
  {
  }

  lemma SecondWritten()
    ensures Enabled(S4, Insert("c2", None, "c2")) && After(S4, Insert("c2", None, "c2")) == S5
  {
    assert S4.requests - {"c2"} == S2.requests;
  }

  lemma SecondEnds()
    ensures Enabled(S5, Move("c2", "a", Failed)) && After(S5, Move("c2", "a", Failed)) == S6
    ensures Enabled(S6, Heartbeat("a")) && After(S6, Heartbeat("a")) == S7
  {
  }

  lemma OtherAcquires()
    ensures var up := Upsert("c3", "b", "repo", ("user", "k3")); Enabled(S7, up) && After(S7, up) == S8
    ensures Enabled(S8, Check("c3")) && After(S8, Check("c3")) == S9
  {
  }

  /** Two nodes hold the repository for a command each: the first one's second acquire hid its first. */
  lemma TwoHolders() returns (states: seq<State>, steps: seq<Step>)
    ensures IsRun(states, steps) && |steps| == 9
    ensures WorkingSince(states, steps, 1, 9, "c1", FIRST)
    ensures steps[8] == Check("c3") && "c3" in states[8].requests && states[8].requests["c3"] == OTHER && OTHER.node != FIRST.node
    ensures Held(states[9], OTHER.node, FIRST.fingerprint) && !Held(states[9], FIRST.node, FIRST.fingerprint)
  {
    hide After, Enabled, Working, Acquired;
    FirstAcquires();
    SecondAcquires();
    SecondWritten();
    SecondEnds();
    OtherAcquires();
    states := [INIT, S1, S2, S3, S4, S5, S6, S7, S8, S9];
    steps := [Upsert("c1", "a", "repo", ("user", "k1")), Check("c1"), Upsert("c2", "a", "repo", ("user", "k2")), Check("c2"),
      Insert("c2", None, "c2"), Move("c2", "a", Failed), Heartbeat("a"), Upsert("c3", "b", "repo", ("user", "k3")), Check("c3")];
    forall k | 0 <= k < 9 ensures StepAt(states, steps, k) {
      assert k == 0 || k == 1 || k == 2 || k == 3 || k == 4 || k == 5 || k == 6 || k == 7 || k == 8;
    }
    forall k | 2 <= k <= 9 ensures Working(states[k], "a", "repo") {
      FirstUnwritten(states[k]);
    }
  }

  lemma FirstUnwritten(s: State)
    requires "c1" in s.requests && s.requests["c1"] == FIRST.(stage := Writing)
    ensures Working(s, "a", "repo")
  {
    hide Visible;
  }
}
