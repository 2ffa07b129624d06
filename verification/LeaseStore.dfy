/** Commands, mirrored tasks and repository leases (apps/cloud-control/src/store.ts). */
module LeaseStore {
  import opened Common

  type Node = string
  type Fingerprint = string
  type CommandId = string
  type TaskId = string

  /** A command's creator and idempotency key. */
  type Key = (string, string)

  /** Milliseconds; a lease that never sees its work end frees its repository after this. */
  const LEASE_TTL_MS: nat := 24 * 60 * 60 * 1000

  datatype Status = Pending | Delivered | Claimed | Succeeded | Failed | Expired | Rejected
  {
    /** Not ended yet. */
    predicate Open() {
      Pending? || Delivered? || Claimed?
    }
  }

  /** COMMAND_TRANSITIONS of packages/shared/src/remote.ts: a final status has no way out. */
  predicate CanTransition(from: Status, to: Status) {
    match from
    case Pending => to != Pending
    case Delivered => to != Pending && to != Delivered
    case Claimed => to == Succeeded || to == Failed || to == Rejected
    case _ => false
  }

  /** How far a command is. */
  function Rank(s: Status): nat {
    match s
    case Pending => 0
    case Delivered => 1
    case Claimed => 2
    case _ => 3
  }

  datatype TaskStatus = Active | Completed | Cancelled | TaskFailed

  datatype Command = Command(node: Node, key: Key, fingerprint: Option<Fingerprint>, status: Status, taskId: Option<TaskId>, finishedAt: Option<nat>)

  datatype Lease = Lease(node: Node, commandId: CommandId, taskId: Option<TaskId>, expiresAt: nat, released: bool)

  datatype Tables = Tables(
    commands: map<CommandId, Command>,
    leases: map<Fingerprint, Lease>,
    tasks: map<(Node, TaskId), TaskStatus>,
    revoked: set<Node>)

  // ----- what each statement does to the tables -----

  /** The upsert of `acquireLease`: a free or expired lease, or the node's own, is taken. */
  function Upserted(db: Tables, fp: Fingerprint, node: Node, id: CommandId, now: nat): Tables {
    if fp !in db.leases then
      db.(leases := db.leases[fp := Lease(node, id, None, now + LEASE_TTL_MS, false)])
    else
      var row := db.leases[fp];
      if row.released || row.expiresAt <= now || row.node == node then
        var task := if row.node == node && !row.released then row.taskId else None;
        db.(leases := db.leases[fp := Lease(node, id, task, now + LEASE_TTL_MS, false)])
      else db
  }

  /** Its second statement: the lease names this node and this command. */
  predicate Acquired(db: Tables, fp: Fingerprint, node: Node, id: CommandId) {
    fp in db.leases && db.leases[fp].node == node && db.leases[fp].commandId == id
  }

  predicate KeyTaken(db: Tables, key: Key) {
    exists id :: id in db.commands && db.commands[id].key == key
  }

  /** `insertCommand` of a new key. */
  function Inserted(db: Tables, id: CommandId, c: Command): Tables {
    db.(commands := db.commands[id := c])
  }

  function Repointed(db: Tables, fp: Fingerprint, from: CommandId, to: CommandId): Tables {
    if fp in db.leases && db.leases[fp].commandId == from
    then db.(leases := db.leases[fp := db.leases[fp].(commandId := to)])
    else db
  }

  /** `transition`: only from a status that allows it, so a final one never changes. */
  function Moved(db: Tables, id: CommandId, node: Node, to: Status, now: nat): Tables {
    if id in db.commands && db.commands[id].node == node && CanTransition(db.commands[id].status, to) then
      var c := db.commands[id];
      db.(commands := db.commands[id := c.(status := to, finishedAt := if to.Open() then c.finishedAt else Some(now))])
    else db
  }

  function TaskSet(db: Tables, id: CommandId, task: TaskId): Tables {
    if id in db.commands then db.(commands := db.commands[id := db.commands[id].(taskId := Some(task))]) else db
  }

  predicate TaskEnded(db: Tables, node: Node, task: TaskId) {
    (node, task) in db.tasks && db.tasks[(node, task)] != Active
  }

  /** A command of the node on the repository that has not ended, or started a task that has not. */
  predicate Busy(db: Tables, c: Command, node: Node, fp: Fingerprint, now: nat) {
    && c.node == node && c.fingerprint == Some(fp)
    && (c.status.Open()
        || (c.status == Succeeded && c.taskId.Some? && c.finishedAt.Some? && c.finishedAt.value + LEASE_TTL_MS > now
            && !TaskEnded(db, node, c.taskId.value)))
  }

  predicate Visible(db: Tables, node: Node, fp: Fingerprint, now: nat) {
    exists id :: id in db.commands && Busy(db, db.commands[id], node, fp, now)
  }

  /** The lease `releaseIdleLeasesStatement` frees: its latest command's row is written and nothing is in flight. */
  predicate Idle(db: Tables, node: Node, fp: Fingerprint, now: nat) {
    && fp in db.leases && db.leases[fp].node == node && !db.leases[fp].released
    && db.leases[fp].commandId in db.commands
    && !Visible(db, node, fp, now)
  }

  function IdleReleased(db: Tables, node: Node, now: nat): Tables {
    db.(leases := map fp | fp in db.leases :: if Idle(db, node, fp, now) then db.leases[fp].(released := true) else db.leases[fp])
  }

  /** A mirrored task event; an ended task frees the node's idle leases in the same batch. */
  function TaskMirrored(db: Tables, node: Node, task: TaskId, status: TaskStatus, now: nat): Tables {
    var db' := db.(tasks := db.tasks[(node, task) := status]);
    if status == Active then db' else IdleReleased(db', node, now)
  }

  function TaskForgotten(db: Tables, node: Node, task: TaskId): Tables {
    db.(tasks := map t | t in db.tasks && t != (node, task) :: db.tasks[t])
  }

  /** `revokeNode`: undelivered commands are rejected and the node's leases freed. */
  function Revoked(db: Tables, node: Node, now: nat): Tables {
    if node in db.revoked then db
    else
      db.(revoked := db.revoked + {node},
          commands := map id | id in db.commands ::
            var c := db.commands[id];
            if c.node == node && (c.status.Pending? || c.status.Delivered?) then c.(status := Rejected, finishedAt := Some(now)) else c,
          leases := map fp | fp in db.leases ::
            if db.leases[fp].node == node then db.leases[fp].(released := true) else db.leases[fp])
  }

  // ----- the store -----

  class CloudStore {
    var commands: map<CommandId, Command>
    var leases: map<Fingerprint, Lease>
    var tasks: map<(Node, TaskId), TaskStatus>
    var revoked: set<Node>

    ghost function Db(): Tables
      reads this
    {
      Tables(commands, leases, tasks, revoked)
    }

    constructor ()
      ensures Db() == Tables(map[], map[], map[], {})
    {
      commands, leases, tasks, revoked := map[], map[], map[], {};
    }

    /** Both statements of `acquireLease`, with nothing between them. */
    method AcquireLease(fp: Fingerprint, node: Node, id: CommandId, now: nat) returns (ok: bool)
      modifies this`leases
      ensures Db() == Upserted(old(Db()), fp, node, id, now)
      ensures ok <==> Acquired(Db(), fp, node, id)
      ensures ok <==> fp !in old(leases) || old(leases[fp]).released || old(leases[fp]).expiresAt <= now || old(leases[fp]).node == node
      // Taken, it is the command's for a lifetime, and names no task but the node's own; refused, it is left as it was.
      ensures ok ==> leases[fp] == Lease(node, id,
                if fp in old(leases) && old(leases[fp]).node == node && !old(leases[fp]).released then old(leases[fp]).taskId else None,
                now + LEASE_TTL_MS, false)
      ensures !ok ==> leases == old(leases)
      ensures leases.Keys == old(leases).Keys + {fp} && forall f :: f in leases && f != fp ==> leases[f] == old(leases[f])
    {
      if fp !in leases {
        leases := leases[fp := Lease(node, id, None, now + LEASE_TTL_MS, false)];
      } else {
        var row := leases[fp];
        if row.released || row.expiresAt <= now || row.node == node {
          var task := if row.node == node && !row.released then row.taskId else None;
          leases := leases[fp := Lease(node, id, task, now + LEASE_TTL_MS, false)];
        }
      }
      ok := leases[fp].node == node && leases[fp].commandId == id;
    }

    /** The row of this key: the one given, or the one there was. */
    method InsertCommand(id: CommandId, c: Command) returns (created: bool, existing: CommandId)
      requires id !in commands
      modifies this`commands
      ensures created <==> forall x :: x in old(commands) ==> old(commands)[x].key != c.key
      ensures existing in commands && commands[existing].key == c.key
      ensures created ==> existing == id && Db() == Inserted(old(Db()), id, c) && commands == old(commands)[id := c]
      ensures !created ==> Db() == old(Db())
    {
      var ids := commands.Keys;
      while ids != {}
        invariant ids <= commands.Keys
        invariant forall x :: x in commands && x !in ids ==> commands[x].key != c.key
        decreases ids
      {
        var x :| x in ids;
        if commands[x].key == c.key {
          return false, x;
        }
        ids := ids - {x};
      }
      commands := commands[id := c];
      return true, id;
    }

    method RepointLease(fp: Fingerprint, from: CommandId, to: CommandId)
      modifies this`leases
      ensures Db() == Repointed(old(Db()), fp, from, to)
      ensures leases.Keys == old(leases).Keys
      // Only a lease that names the repeat, and of it only the name: who holds it, until when and for what stays.
      ensures forall f :: f in leases && (f != fp || old(leases[f]).commandId != from) ==> leases[f] == old(leases[f])
      ensures forall f :: f in leases ==> leases[f].(commandId := old(leases[f]).commandId) == old(leases[f])
      ensures fp in leases && old(leases[fp]).commandId == from ==> leases[fp].commandId == to
    {
      if fp in leases && leases[fp].commandId == from {
        leases := leases[fp := leases[fp].(commandId := to)];
      }
    }

    method Transition(id: CommandId, node: Node, to: Status, now: nat) returns (row: Option<Command>)
      modifies this`commands
      ensures Db() == Moved(old(Db()), id, node, to, now)
      ensures commands.Keys == old(commands).Keys
      // A final status never changes, nor the time it was reached; other commands do not change at all.
      ensures forall x :: x in commands && !old(commands[x]).status.Open() ==> commands[x] == old(commands[x])
      ensures forall x :: x in commands && (x != id || old(commands[x]).node != node) ==> commands[x] == old(commands[x])
      // The command keeps what it is, and an open one ends at most once, at the time it does.
      ensures forall x :: x in commands ==>
                commands[x].(status := old(commands[x]).status, finishedAt := old(commands[x]).finishedAt) == old(commands[x])
      ensures id in commands && commands[id] != old(commands[id]) ==>
                commands[id].status == to && commands[id].finishedAt == if to.Open() then old(commands[id]).finishedAt else Some(now)
      // It moves exactly forward: what waits or is delivered may end in any way, what is claimed does not expire.
      ensures id in commands && commands[id].node == node ==>
                (commands[id] != old(commands[id]) <==>
                  Rank(old(commands[id]).status) < Rank(to) && !(old(commands[id]).status == Claimed && to == Expired))
      ensures row == if id in commands && commands[id].node == node then Some(commands[id]) else None
    {
      if id in commands && commands[id].node == node && CanTransition(commands[id].status, to) {
        var c := commands[id];
        commands := commands[id := c.(status := to, finishedAt := if to.Open() then c.finishedAt else Some(now))];
      }
      row := if id in commands && commands[id].node == node then Some(commands[id]) else None;
    }

    method SetCommandTask(id: CommandId, task: TaskId)
      modifies this`commands
      ensures Db() == TaskSet(old(Db()), id, task)
      ensures commands.Keys == old(commands).Keys && (id in commands ==> commands[id].taskId == Some(task))
      ensures forall x :: x in commands && x != id ==> commands[x] == old(commands[x])
      ensures forall x :: x in commands ==> commands[x].(taskId := old(commands[x]).taskId) == old(commands[x])
    {
      if id in commands {
        commands := commands[id := commands[id].(taskId := Some(task))];
      }
    }

    /** Whether some command keeps the lease: the statement's NOT EXISTS. */
    method AnyBusy(node: Node, fp: Fingerprint, now: nat) returns (busy: bool)
      ensures busy <==> Visible(Db(), node, fp, now)
      ensures busy <==>
                (exists id :: id in commands && commands[id].node == node && commands[id].fingerprint == Some(fp) &&
                   (match commands[id].status
                    case Pending | Delivered | Claimed => true
                    case Succeeded =>
                      && commands[id].taskId.Some? && commands[id].finishedAt.Some? && now < commands[id].finishedAt.value + LEASE_TTL_MS
                      && ((node, commands[id].taskId.value) in tasks ==> tasks[(node, commands[id].taskId.value)] == Active)
                    case Failed | Expired | Rejected => false))
    {
      var ids := commands.Keys;
      while ids != {}
        invariant ids <= commands.Keys
        invariant forall x :: x in commands && x !in ids ==> !Busy(Db(), commands[x], node, fp, now)
        decreases ids
      {
        var x :| x in ids;
        var c := commands[x];
        var ended := c.taskId.Some? && (node, c.taskId.value) in tasks && tasks[(node, c.taskId.value)] != Active;
        if c.node == node && c.fingerprint == Some(fp)
          && (c.status.Open() || (c.status == Succeeded && c.taskId.Some? && c.finishedAt.Some? && c.finishedAt.value + LEASE_TTL_MS > now && !ended)) {
          assert Busy(Db(), commands[x], node, fp, now);
          return true;
        }
        ids := ids - {x};
      }
      busy := false;
    }

    method ReleaseIdleLeases(node: Node, now: nat)
      modifies this`leases
      ensures Db() == IdleReleased(old(Db()), node, now)
    {
      var all := leases.Keys;
      var todo := all;
      while todo != {}
        invariant todo <= all == leases.Keys == old(leases).Keys
        invariant forall fp :: fp in leases ==>
                    leases[fp] == if fp !in todo && Idle(old(Db()), node, fp, now) then old(leases)[fp].(released := true) else old(leases)[fp]
        decreases todo
      {
        var fp :| fp in todo;
        var row := leases[fp];
        var busy := AnyBusy(node, fp, now);
        VisibleIgnoresLeases(Db(), old(Db()), node, fp, now);
        if row.node == node && !row.released && row.commandId in commands && !busy {
          leases := leases[fp := row.(released := true)];
        }
        todo := todo - {fp};
      }
    }

    method MirrorTask(node: Node, task: TaskId, status: TaskStatus, now: nat)
      modifies this`tasks, this`leases
      ensures Db() == TaskMirrored(old(Db()), node, task, status, now)
      ensures tasks == old(tasks)[(node, task) := status] && (status == Active ==> leases == old(leases))
    {
      tasks := tasks[(node, task) := status];
      if status != Active {
        ReleaseIdleLeases(node, now);
      }
    }

    method RevokeNode(node: Node, now: nat) returns (changed: bool)
      modifies this
      ensures changed <==> node !in old(revoked)
      ensures Db() == Revoked(old(Db()), node, now)
      ensures node in revoked && commands.Keys == old(commands).Keys && leases.Keys == old(leases).Keys && tasks == old(tasks)
      // The first time, nothing of the node waits for delivery any more and it holds no repository.
      ensures changed ==> forall x :: x in commands && commands[x].node == node ==> !commands[x].status.Pending? && !commands[x].status.Delivered?
      ensures changed ==> forall f :: f in leases && leases[f].node == node ==> leases[f].released
      ensures changed ==> forall x :: x in commands && commands[x].node == node && old(commands[x]).status in {Pending, Delivered} ==>
                commands[x] == old(commands[x]).(status := Rejected, finishedAt := Some(now))
      // What it is running, what has ended, and what other nodes have stays.
      ensures forall x :: x in commands && (commands[x].node != node || old(commands[x]).status.Claimed? || !old(commands[x]).status.Open()) ==>
                commands[x] == old(commands[x])
      ensures forall f :: f in leases && leases[f].node != node ==> leases[f] == old(leases[f])
    {
      if node in revoked {
        return false;
      }
      revoked := revoked + {node};
      commands := map id | id in commands ::
        var c := commands[id];
        if c.node == node && (c.status.Pending? || c.status.Delivered?) then c.(status := Rejected, finishedAt := Some(now)) else c;
      leases := map fp | fp in leases :: if leases[fp].node == node then leases[fp].(released := true) else leases[fp];
      changed := true;
    }
  }

  lemma VisibleIgnoresLeases(db: Tables, db': Tables, node: Node, fp: Fingerprint, now: nat)
    requires db.commands == db'.commands && db.tasks == db'.tasks
    ensures Visible(db, node, fp, now) <==> Visible(db', node, fp, now)
  {
    forall id | id in db.commands ensures Busy(db, db.commands[id], node, fp, now) <==> Busy(db', db.commands[id], node, fp, now) {
    }
  }

  // ----- what the statements mean over time -----

  datatype Transition = Transition(id: CommandId, node: Node, to: Status, now: nat)

  function MovedAll(db: Tables, moves: seq<Transition>): Tables {
    if moves == [] then db
    else
      var m := moves[|moves| - 1];
      Moved(MovedAll(db, moves[..|moves| - 1]), m.id, m.node, m.to, m.now)
  }

  /** Whatever transitions are asked for, by whichever frames, a command that has ended keeps its row. */
  lemma {:induction false} EndedStays(db: Tables, moves: seq<Transition>, id: CommandId)
    requires id in db.commands && !db.commands[id].status.Open()
    ensures id in MovedAll(db, moves).commands && MovedAll(db, moves).commands[id] == db.commands[id]
  {
    if moves != [] {
      EndedStays(db, moves[..|moves| - 1], id);
    }
  }

  /** A command only goes forward: pending, delivered, claimed, ended. */
  lemma {:induction false} MovesForward(db: Tables, moves: seq<Transition>, id: CommandId)
    requires id in db.commands
    ensures id in MovedAll(db, moves).commands
    ensures Rank(db.commands[id].status) <= Rank(MovedAll(db, moves).commands[id].status)
    ensures Rank(MovedAll(db, moves).commands[id].status) == Rank(db.commands[id].status) ==> MovedAll(db, moves).commands[id] == db.commands[id]
  {
    if moves != [] {
      MovesForward(db, moves[..|moves| - 1], id);
    }
  }

  /**
   * A release frees a lease of the node exactly when the lease's command is written and no row of the node on the
   * repository is work: each has failed, expired or been rejected, or succeeded and its task is none, ended, or too
   * long ago.
   */
  lemma ReleasedExactly(db: Tables, node: Node, fp: Fingerprint, now: nat)
    requires fp in db.leases
    ensures IdleReleased(db, node, now).leases.Keys == db.leases.Keys
    ensures IdleReleased(db, node, now).leases[fp].(released := db.leases[fp].released) == db.leases[fp]
    ensures IdleReleased(db, node, now).leases[fp].released <==>
              || db.leases[fp].released
              || (&& db.leases[fp].node == node && db.leases[fp].commandId in db.commands
                  && forall id :: id in db.commands && db.commands[id].node == node && db.commands[id].fingerprint == Some(fp) ==>
                       match db.commands[id].status
                       case Pending | Delivered | Claimed => false
                       case Failed | Expired | Rejected => true
                       case Succeeded =>
                         || db.commands[id].taskId.None? || db.commands[id].finishedAt.None?
                         || db.commands[id].finishedAt.value + LEASE_TTL_MS <= now
                         || ((node, db.commands[id].taskId.value) in db.tasks
                             && db.tasks[(node, db.commands[id].taskId.value)] in {Completed, Cancelled, TaskFailed}))
  {
    forall id | id in db.commands && Busy(db, db.commands[id], node, fp, now)
      ensures db.commands[id].node == node && db.commands[id].fingerprint == Some(fp)
    {
    }
  }

  /** Once its task is recorded, a command that succeeded keeps its repository busy until the task ends. */
  lemma RecordedTaskKeepsBusy(db: Tables, id: CommandId, task: TaskId, now: nat)
    requires id in db.commands && db.commands[id].status == Succeeded && db.commands[id].fingerprint.Some?
    requires db.commands[id].finishedAt.Some? && now < db.commands[id].finishedAt.value + LEASE_TTL_MS
    ensures var c := db.commands[id];
            Busy(TaskSet(db, id, task), TaskSet(db, id, task).commands[id], c.node, c.fingerprint.value, now) <==> !TaskEnded(db, c.node, task)
    ensures var c := db.commands[id];
            !TaskEnded(db, c.node, task) ==> !Idle(TaskSet(db, id, task), c.node, c.fingerprint.value, now)
  {
    assert id in TaskSet(db, id, task).commands;
  }

  /** Pointing the lease at the command that exists lets it be freed by that command's end, and changes nobody's hold. */
  lemma RepointedIsFreeable(db: Tables, fp: Fingerprint, from: CommandId, to: CommandId, node: Node, now: nat)
    requires fp in db.leases && db.leases[fp].commandId == from && db.leases[fp].node == node && !db.leases[fp].released
    requires from !in db.commands && to in db.commands
    ensures !Idle(db, node, fp, now)
    ensures Idle(Repointed(db, fp, from, to), node, fp, now) <==> !Visible(db, node, fp, now)
  {
    VisibleIgnoresLeases(db, Repointed(db, fp, from, to), node, fp, now);
  }

  /** After a revocation the node has no work that keeps a lease but what it is running or has started. */
  lemma RevokedKeepsOnlyStarted(db: Tables, node: Node, now: nat, id: CommandId, fp: Fingerprint)
    requires node !in db.revoked && id in db.commands
    ensures Busy(Revoked(db, node, now), Revoked(db, node, now).commands[id], node, fp, now) <==>
              Busy(db, db.commands[id], node, fp, now) && !db.commands[id].status.Pending? && !db.commands[id].status.Delivered?
  {
  }
}
