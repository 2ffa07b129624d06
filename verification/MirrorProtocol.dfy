/**
 * One node's event stream, from its outbox to the cloud's mirror
 * (apps/cloud-control/src/hub.ts and store.ts): sockets that are replaced or fail, frames queued per
 * node, stores that fail before or after committing, and a node that resends from the welcomed cursor.
 */
module MirrorProtocol {
  import opened Common
  import opened EventIngest

  datatype Frame = Hello | Batch(events: seq<Event>) | Other

  datatype Reply = Welcome(acked: int) | Ack(upTo: int)

  /** `sent` is how far the node has sent on this socket; it sends nothing before it is welcomed. */
  datatype Socket = Socket(open: bool, sent: Option<int>, wire: seq<Frame>, inbox: seq<Reply>)

  datatype Stage = Started | Read(cursor: int) | Stored(acked: int)

  /** The one frame of the node's queue being handled; other steps run between its stages. */
  datatype Work = Idle | Handling(socket: nat, frame: Frame, stage: Stage)

  datatype State = State(
    log: seq<Event>,              // every event the node issued
    dropped: set<int>,            // numbers the node took back from its outbox
    acknowledged: int,            // what the node deleted as stored
    sockets: seq<Socket>,
    queue: seq<(nat, Frame)>,
    work: Work,
    cursor: int,                  // `last_event_seq`
    applied: seq<Event>)          // the events stored, in the order they were

  datatype Step =
    | Issue(e: Event)
    | Drop(number: int)
    | Connect
    | SendBatch(s: nat, count: nat)
    | SendOther(s: nat)
    | Arrive(s: nat)
    | Close(s: nat)
    | Begin
    | ReadCursor
    | Commit
    | Answer(to: nat)
    | Finish
    | Fail
    | Receive(s: nat)

  // ----- the steps -----

  /** The outbox rows above `after`: `SELECT … WHERE seq > ? ORDER BY seq`. */
  function Pending(log: seq<Event>, after: int, dropped: set<int>): (r: seq<Event>)
    ensures forall e :: e in r <==> e in log && e.number > after && e.number !in dropped
  {
    if log == [] then []
    else
      var rest := Pending(log[1..], after, dropped);
      assert log == [log[0]] + log[1..];
      if log[0].number > after && log[0].number !in dropped then [log[0]] + rest else rest
  }

  function LastNumber(events: seq<Event>): int
    requires events != []
  {
    events[|events| - 1].number
  }

  predicate NoneOpen(sockets: seq<Socket>) {
    forall s :: 0 <= s < |sockets| ==> !sockets[s].open
  }

  function CloseAll(sockets: seq<Socket>): (r: seq<Socket>)
    ensures |r| == |sockets| && NoneOpen(r)
  {
    seq(|sockets|, i requires 0 <= i < |sockets| => sockets[i].(open := false))
  }

  function Outbox(st: State, s: nat): seq<Event>
    requires s < |st.sockets| && st.sockets[s].sent.Some?
  {
    Pending(st.log, Max(st.sockets[s].sent.value, st.acknowledged), st.dropped)
  }

  /** The reply the handled frame is ready for: a welcome after a hello, an ack after a stored batch. */
  function Ready(work: Work): Option<Reply> {
    if work.Handling? && work.frame.Hello? && work.stage.Read? then Some(Welcome(work.stage.cursor))
    else if work.Handling? && work.frame.Batch? && work.stage.Stored? then Some(Ack(work.stage.acked))
    else None
  }

  predicate Enabled(st: State, step: Step) {
    match step
    case Issue(e) => e.number > 0 && forall x :: x in st.log ==> x.number < e.number
    case Drop(_) => true
    case Connect => true
    case SendBatch(s, count) => s < |st.sockets| && st.sockets[s].sent.Some? && 0 < count <= |Outbox(st, s)|
    case SendOther(s) => s < |st.sockets|
    case Arrive(s) => s < |st.sockets| && st.sockets[s].wire != []
    case Close(s) => s < |st.sockets|
    case Begin => st.work.Idle? && st.queue != [] && st.queue[0].0 < |st.sockets|
    case ReadCursor => st.work.Handling? && st.work.stage.Started? && !st.work.frame.Other?
    case Commit => st.work.Handling? && st.work.stage.Read? && st.work.frame.Batch?
    case Answer(to) => to < |st.sockets| && st.sockets[to].open && Ready(st.work).Some?
    case Finish => st.work.Handling? && (st.work.frame.Other? || Ready(st.work).Some?)
    case Fail => st.work.Handling? && st.work.socket < |st.sockets|
    case Receive(s) => s < |st.sockets| && st.sockets[s].inbox != []
  }

  function With(st: State, s: nat, socket: Socket): State
    requires s < |st.sockets|
  {
    st.(sockets := st.sockets[s := socket])
  }

  function After(st: State, step: Step): State
    requires Enabled(st, step)
  {
    match step
    case Issue(e) => st.(log := st.log + [e])
    case Drop(n) => st.(dropped := st.dropped + {n})
    // Connecting closes the node's other sockets; its first frame is a hello.
    case Connect => st.(sockets := CloseAll(st.sockets) + [Socket(true, None, [Hello], [])])
    case SendBatch(s, count) =>
      var socket, events := st.sockets[s], Outbox(st, s)[..count];
      With(st, s, socket.(sent := Some(LastNumber(events)), wire := socket.wire + [Batch(events)]))
    case SendOther(s) => With(st, s, st.sockets[s].(wire := st.sockets[s].wire + [Other]))
    case Arrive(s) =>
      var socket := st.sockets[s];
      With(st, s, socket.(wire := socket.wire[1..])).(queue := st.queue + [(s, socket.wire[0])])
    case Close(s) => With(st, s, st.sockets[s].(open := false))
    // The frame of a closed socket is skipped when its turn comes.
    case Begin =>
      var (s, f) := st.queue[0];
      st.(queue := st.queue[1..], work := if st.sockets[s].open then Handling(s, f, Started) else Idle)
    case ReadCursor => st.(work := st.work.(stage := Read(st.cursor)))
    case Commit =>
      var events, cursor := st.work.frame.events, st.work.stage.cursor;
      var last := Highest(events, cursor);
      st.(applied := st.applied + Fresh(events, cursor), cursor := Max(st.cursor, last), work := st.work.(stage := Stored(last)))
    // The reply goes to whichever socket of the node is open by then.
    case Answer(to) =>
      With(st, to, st.sockets[to].(inbox := st.sockets[to].inbox + [Ready(st.work).value])).(work := Idle)
    case Finish => st.(work := Idle)
    // A batch that could not be stored, or whose outcome is unknown, closes its socket.
    case Fail =>
      var s := st.work.socket;
      (if st.work.frame.Batch? then With(st, s, st.sockets[s].(open := false)) else st).(work := Idle)
    case Receive(s) =>
      var socket := st.sockets[s];
      var reply := socket.inbox[0];
      var socket' := socket.(inbox := socket.inbox[1..], sent := if reply.Welcome? then Some(reply.acked) else socket.sent);
      With(st, s, socket').(acknowledged := if reply.Welcome? then reply.acked else reply.upTo)
  }

  const Init: State := State([], {}, 0, [], [], Idle, 0, [])

  ghost predicate CanRun(st: State, steps: seq<Step>)
    decreases |steps|
  {
    steps == [] || (Enabled(st, steps[0]) && CanRun(After(st, steps[0]), steps[1..]))
  }

  ghost function Run(st: State, steps: seq<Step>): State
    requires CanRun(st, steps)
    decreases |steps|
  {
    if steps == [] then st else Run(After(st, steps[0]), steps[1..])
  }

  // ----- what holds in every reachable state -----

  /** Every event up to `n` is stored, unless the node took it back. */
  ghost predicate StoredUpTo(st: State, n: int) {
    forall e :: e in st.log && e.number <= n ==> e in st.applied || e.number in st.dropped
  }

  /** The events applied are those up to the cursor, each once and in order. */
  ghost predicate ExactlyApplied(st: State) {
    && Ascending(st.applied)
    && (forall e :: e in st.applied ==> e in st.log && e.number <= st.cursor)
    && StoredUpTo(st, st.cursor)
  }

  /** Nothing the node is told is stored lies above the cursor. */
  ghost predicate RepliesCovered(st: State) {
    && st.acknowledged <= st.cursor
    && (forall s: nat, r :: s < |st.sockets| && r in st.sockets[s].inbox ==> (if r.Welcome? then r.acked else r.upTo) <= st.cursor)
  }

  /** A batch leaves out nothing above `reach` but what the node took back. */
  ghost predicate NoGap(log: seq<Event>, dropped: set<int>, reach: int, events: seq<Event>) {
    && events != [] && Ascending(events)
    && (forall e :: e in events ==> e in log)
    && (forall e :: e in log && reach < e.number <= LastNumber(events) ==> e in events || e.number in dropped)
  }

  /** Batches that follow one another from `reach` on without a gap. */
  ghost predicate Chain(log: seq<Event>, dropped: set<int>, reach: int, batches: seq<seq<Event>>)
    decreases |batches|
  {
    batches == [] || (NoGap(log, dropped, reach, batches[0]) && Chain(log, dropped, Max(reach, LastNumber(batches[0])), batches[1..]))
  }

  /** Where a chain ends. */
  ghost function Reach(reach: int, batches: seq<seq<Event>>): int
    decreases |batches|
  {
    if batches == [] then reach
    else Reach(if batches[0] == [] then reach else Max(reach, LastNumber(batches[0])), batches[1..])
  }

  ghost function Batches(frames: seq<Frame>): seq<seq<Event>> {
    if frames == [] then []
    else (if frames[0].Batch? then [frames[0].events] else []) + Batches(frames[1..])
  }

  ghost function Queued(queue: seq<(nat, Frame)>, s: nat): seq<seq<Event>> {
    if queue == [] then []
    else (if queue[0].0 == s && queue[0].1.Batch? then [queue[0].1.events] else []) + Queued(queue[1..], s)
  }

  ghost function InHand(work: Work, s: nat): seq<seq<Event>> {
    if work.Handling? && work.socket == s && work.frame.Batch? && !work.stage.Stored? then [work.frame.events] else []
  }

  /** The batches of socket `s` still to be stored: in hand, queued, on the wire. */
  ghost function Coming(st: State, s: nat): seq<seq<Event>>
    requires s < |st.sockets|
  {
    InHand(st.work, s) + Queued(st.queue, s) + Batches(st.sockets[s].wire)
  }

  /** A batch brings again only what is stored or came in a batch before it: with `known` stored up to `reach`. */
  ghost predicate Repeats(known: set<Event>, reach: int, batches: seq<seq<Event>>)
    decreases |batches|
  {
    batches == [] || (
      && batches[0] != [] && OldOnes(known, reach, batches[0])
      && Repeats(known + Members(batches[0]), Max(reach, LastNumber(batches[0])), batches[1..]))
  }

  ghost predicate OldOnes(known: set<Event>, reach: int, b: seq<Event>) {
    forall e :: e in b && e.number <= reach ==> e in known
  }

  ghost function Members(b: seq<Event>): set<Event> {
    set e | e in b
  }

  ghost predicate SocketOk(st: State, s: nat)
    requires s < |st.sockets|
  {
    && Chain(st.log, st.dropped, st.cursor, Coming(st, s))
    && Repeats(Members(st.applied), st.cursor, Coming(st, s))
    && (st.sockets[s].sent.Some? ==> st.sockets[s].sent.value <= Reach(st.cursor, Coming(st, s)))
  }

  ghost predicate WorkOk(st: State) {
    st.work.Handling? ==>
      && st.work.socket < |st.sockets|
      && (st.work.stage.Read? ==> st.work.stage.cursor == st.cursor)
      && (st.work.stage.Stored? ==> st.work.stage.acked <= st.cursor && st.work.frame.Batch?)
      && (st.work.frame.Batch? && !st.work.stage.Stored? ==>
            NoGap(st.log, st.dropped, st.cursor, st.work.frame.events) && OldOnes(Members(st.applied), st.cursor, st.work.frame.events))
  }

  /** A node has one open socket; while a batch of another is in hand, it has not been welcomed there and has sent nothing. */
  ghost predicate OneOpen(st: State) {
    && (forall s: nat, t: nat :: s < |st.sockets| && t < |st.sockets| && st.sockets[s].open && st.sockets[t].open ==> s == t)
    && (st.work.Handling? && st.work.frame.Batch? && !st.work.stage.Stored? ==>
          forall t: nat :: t < |st.sockets| && st.sockets[t].open && t != st.work.socket ==> Waiting(st, t))
  }

  ghost predicate Waiting(st: State, t: nat)
    requires t < |st.sockets|
  {
    st.sockets[t].sent.None? && Coming(st, t) == [] && forall r :: r in st.sockets[t].inbox ==> r.Ack?
  }

  ghost predicate LogOk(st: State) {
    && Ascending(st.log) && (forall e :: e in st.log ==> e.number > 0)
    && (st.cursor == 0 || exists e :: e in st.log && e.number == st.cursor)
  }

  ghost predicate QueueOk(st: State) {
    forall x :: x in st.queue ==> x.0 < |st.sockets|
  }

  ghost predicate Inv(st: State) {
    && LogOk(st)
    && QueueOk(st)
    && ExactlyApplied(st)
    && RepliesCovered(st)
    && WorkOk(st)
    && OneOpen(st)
    && (forall s: nat :: s < |st.sockets| && st.sockets[s].open ==> SocketOk(st, s))
  }

  // ----- chains -----

  lemma {:induction false} ChainGrows(log: seq<Event>, dropped: set<int>, reach: int, reach': int, batches: seq<seq<Event>>)
    requires reach <= reach' && Chain(log, dropped, reach, batches)
    ensures Chain(log, dropped, reach', batches)
    ensures reach <= Reach(reach, batches) <= Reach(reach', batches)
    decreases |batches|
  {
    if batches != [] {
      var last := LastNumber(batches[0]);
      ChainGrows(log, dropped, Max(reach, last), Max(reach', last), batches[1..]);
    }
  }

  lemma {:induction false} ChainAppend(log: seq<Event>, dropped: set<int>, reach: int, batches: seq<seq<Event>>, b: seq<Event>)
    requires Chain(log, dropped, reach, batches) && NoGap(log, dropped, Reach(reach, batches), b)
    ensures Chain(log, dropped, reach, batches + [b])
    ensures Reach(reach, batches + [b]) == Max(Reach(reach, batches), LastNumber(b))
    decreases |batches|
  {
    if batches == [] {
      assert batches + [b] == [b];
      assert [b][1..] == [];
    } else {
      ChainAppend(log, dropped, Max(reach, LastNumber(batches[0])), batches[1..], b);
      assert (batches + [b])[1..] == batches[1..] + [b];
    }
  }

  /** A new event comes after all the batches sent; a dropped one leaves no more to store. */
  lemma {:induction false} ChainKept(log: seq<Event>, log': seq<Event>, dropped: set<int>, dropped': set<int>, reach: int, batches: seq<seq<Event>>)
    requires dropped <= dropped' && Chain(log, dropped, reach, batches)
    requires log <= log' && forall x, e :: x in log && e in log' && e !in log ==> x.number < e.number
    ensures Chain(log', dropped', reach, batches)
    decreases |batches|
  {
    if batches != [] {
      NoGapKept(log, log', dropped, dropped', reach, batches[0]);
      ChainKept(log, log', dropped, dropped', Max(reach, LastNumber(batches[0])), batches[1..]);
    }
  }

  lemma NoGapKept(log: seq<Event>, log': seq<Event>, dropped: set<int>, dropped': set<int>, reach: int, b: seq<Event>)
    requires dropped <= dropped' && NoGap(log, dropped, reach, b)
    requires log <= log' && forall x, e :: x in log && e in log' && e !in log ==> x.number < e.number
    ensures NoGap(log', dropped', reach, b)
  {
    assert b[|b| - 1] in b;
    assert forall e :: e in log ==> e in log';
  }

  /** What is stored once all these batches are. */
  ghost function Stocked(known: set<Event>, batches: seq<seq<Event>>): set<Event>
    decreases |batches|
  {
    if batches == [] then known else Stocked(known + Members(batches[0]), batches[1..])
  }

  /** Up to where a chain ends, it brings every event the node has not taken back. */
  lemma {:induction false} ChainBrings(log: seq<Event>, dropped: set<int>, known: set<Event>, reach: int, batches: seq<seq<Event>>, e: Event)
    requires Chain(log, dropped, reach, batches) && e in log && e.number !in dropped && e.number <= Reach(reach, batches)
    requires e in known || e.number > reach
    ensures e in Stocked(known, batches)
    decreases |batches|
  {
    if batches != [] {
      ChainBrings(log, dropped, known + Members(batches[0]), Max(reach, LastNumber(batches[0])), batches[1..], e);
    }
  }

  lemma {:induction false} RepeatsAppend(known: set<Event>, reach: int, batches: seq<seq<Event>>, b: seq<Event>)
    requires Repeats(known, reach, batches) && b != [] && OldOnes(Stocked(known, batches), Reach(reach, batches), b)
    ensures Repeats(known, reach, batches + [b])
    decreases |batches|
  {
    hide OldOnes;
    if batches == [] {
      assert batches + [b] == [b];
      assert [b][1..] == [];
    } else {
      RepeatsAppend(known + Members(batches[0]), Max(reach, LastNumber(batches[0])), batches[1..], b);
      assert (batches + [b])[1..] == batches[1..] + [b];
    }
  }

  lemma {:induction false} BatchesAppend(frames: seq<Frame>, f: Frame)
    ensures Batches(frames + [f]) == Batches(frames) + if f.Batch? then [f.events] else []
  {
    if frames == [] {
      assert frames + [f] == [f];
    } else {
      BatchesAppend(frames[1..], f);
      assert (frames + [f])[1..] == frames[1..] + [f];
    }
  }

  lemma {:induction false} QueuedAppend(queue: seq<(nat, Frame)>, s: nat, f: Frame, t: nat)
    ensures Queued(queue + [(s, f)], t) == Queued(queue, t) + if s == t && f.Batch? then [f.events] else []
  {
    if queue == [] {
      assert queue + [(s, f)] == [(s, f)];
    } else {
      QueuedAppend(queue[1..], s, f, t);
      assert (queue + [(s, f)])[1..] == queue[1..] + [(s, f)];
    }
  }

  // ----- each step keeps the invariant -----

  lemma IssueKeeps(st: State, e: Event)
    requires Inv(st) && Enabled(st, Issue(e))
    ensures Inv(After(st, Issue(e))) && After(st, Issue(e)).log == st.log + [e]
  {
    hide Chain, Reach, Queued, Batches, Repeats, OldOnes, Members;
    var st' := After(st, Issue(e));
    assert forall x :: x in st'.log <==> x in st.log || x == e;
    assert st.cursor < e.number;
    forall s: nat | s < |st'.sockets| && st'.sockets[s].open ensures SocketOk(st', s) {
      ChainKept(st.log, st'.log, st.dropped, st.dropped, st.cursor, Coming(st, s));
    }
    if st.work.Handling? && st.work.frame.Batch? && !st.work.stage.Stored? {
      NoGapKept(st.log, st'.log, st.dropped, st.dropped, st.cursor, st.work.frame.events);
    }
  }

  lemma DropKeeps(st: State, n: int)
    requires Inv(st)
    ensures Inv(After(st, Drop(n)))
  {
    hide Chain, Reach, Queued, Batches, Repeats, OldOnes, Members;
    var st' := After(st, Drop(n));
    forall s: nat | s < |st'.sockets| && st'.sockets[s].open ensures SocketOk(st', s) {
      ChainKept(st.log, st.log, st.dropped, st'.dropped, st.cursor, Coming(st, s));
    }
  }

  lemma ConnectKeeps(st: State)
    requires Inv(st)
    ensures Inv(After(st, Connect))
  {
    hide Chain, Queued, Reach, Batches, Repeats, OldOnes, Members, NoGap;
    var st', n := After(st, Connect), |st.sockets|;
    assert forall t: nat :: t < n ==> st'.sockets[t] == CloseAll(st.sockets)[t];
    NewSocketOk(st', n);
  }

  lemma NewSocketOk(st: State, n: nat)
    requires n < |st.sockets| && st.sockets[n].wire == [Hello] && st.sockets[n].sent.None?
    requires forall x :: x in st.queue ==> x.0 < n
    requires st.work.Handling? ==> st.work.socket < n
    ensures SocketOk(st, n) && Coming(st, n) == []
  {
    NothingQueued(st.queue, n);
    assert Batches([Hello]) == Batches([]) == [];
    assert Coming(st, n) == [];
  }

  lemma {:induction false} NothingQueued(queue: seq<(nat, Frame)>, s: nat)
    requires forall x :: x in queue ==> x.0 < s
    ensures Queued(queue, s) == []
  {
    if queue != [] {
      NothingQueued(queue[1..], s);
    }
  }

  /** What the node sends next on a welcomed socket goes on where its last batch ended. */
  lemma SendBatchKeeps(st: State, s: nat, count: nat)
    requires Inv(st) && Enabled(st, SendBatch(s, count))
    ensures Inv(After(st, SendBatch(s, count)))
    ensures var b := Outbox(st, s)[..count];
            After(st, SendBatch(s, count)).sockets[s] == Socket(st.sockets[s].open, Some(b[count - 1].number), st.sockets[s].wire + [Batch(b)], st.sockets[s].inbox)
  {
    hide Chain, Reach, Queued, Batches, Pending;
    var st' := After(st, SendBatch(s, count));
    forall t: nat | t < |st'.sockets| && st'.sockets[t].open ensures SocketOk(st', t) {
      if t == s {
        SendBatchKeepsSocket(st, s, count);
      } else {
        assert Coming(st', t) == Coming(st, t);
      }
    }
  }

  lemma SendBatchKeepsSocket(st: State, s: nat, count: nat)
    requires LogOk(st) && RepliesCovered(st) && ExactlyApplied(st) && Enabled(st, SendBatch(s, count)) && SocketOk(st, s)
    ensures SocketOk(After(st, SendBatch(s, count)), s)
  {
    hide Chain, Reach, Queued, Batches, Pending, Repeats, Stocked, ExactlyApplied, OldOnes, Members;
    var socket, b := st.sockets[s], Outbox(st, s)[..count];
    var after, reach := Max(socket.sent.value, st.acknowledged), Reach(st.cursor, Coming(st, s));
    ChainGrows(st.log, st.dropped, st.cursor, st.cursor, Coming(st, s));
    PendingAscends(st.log, after, st.dropped);
    NextBatchHasNoGap(st.log, st.dropped, after, reach, count);
    ChainAppend(st.log, st.dropped, st.cursor, Coming(st, s), b);
    OutboxIsNew(st, s, b);
    RepeatsAppend(Members(st.applied), st.cursor, Coming(st, s), b);
    BatchesAppend(socket.wire, Batch(b));
    assert Coming(After(st, SendBatch(s, count)), s) == Coming(st, s) + [b];
  }

  /** What the node sends again has come before. */
  lemma OutboxIsNew(st: State, s: nat, b: seq<Event>)
    requires ExactlyApplied(st) && s < |st.sockets| && st.sockets[s].sent.Some? && SocketOk(st, s)
    requires forall e :: e in b ==> e in Outbox(st, s)
    ensures OldOnes(Stocked(Members(st.applied), Coming(st, s)), Reach(st.cursor, Coming(st, s)), b)
  {
    hide Chain, Reach, Pending, Repeats, Stocked, Coming;
    forall e | e in b && e.number <= Reach(st.cursor, Coming(st, s)) ensures e in Stocked(Members(st.applied), Coming(st, s)) {
      ChainBrings(st.log, st.dropped, Members(st.applied), st.cursor, Coming(st, s), e);
    }
  }

  lemma {:induction false} PendingAscends(log: seq<Event>, after: int, dropped: set<int>)
    requires Ascending(log)
    ensures Ascending(Pending(log, after, dropped))
  {
    if log != [] {
      PendingAscends(log[1..], after, dropped);
      RestOf(log);
      Prepend(log[0], Pending(log[1..], after, dropped));
    }
  }

  lemma Prepend(e: Event, rest: seq<Event>)
    requires Ascending(rest) && forall x :: x in rest ==> e.number < x.number
    ensures Ascending([e] + rest)
  {
    assert forall k :: 0 <= k < |rest| ==> rest[k] in rest;
  }

  lemma NextBatchHasNoGap(log: seq<Event>, dropped: set<int>, after: int, reach: int, count: nat)
    requires Ascending(log) && Ascending(Pending(log, after, dropped)) && after <= reach
    requires 0 < count <= |Pending(log, after, dropped)|
    ensures NoGap(log, dropped, reach, Pending(log, after, dropped)[..count])
  {
    hide Pending;
    var outbox := Pending(log, after, dropped);
    var b := outbox[..count];
    forall e | e in b ensures e in log {
      assert e in outbox;
    }
    forall e | e in log && reach < e.number <= LastNumber(b) ensures e in b || e.number in dropped {
      if e.number !in dropped {
        assert e in outbox;
        var k :| 0 <= k < |outbox| && outbox[k] == e;
        assert k < count && b[k] == e;
      }
    }
  }

  lemma SendOtherKeeps(st: State, s: nat)
    requires Inv(st) && Enabled(st, SendOther(s))
    ensures Inv(After(st, SendOther(s)))
  {
    hide Chain, Reach, Queued, Batches, Repeats, OldOnes, Members, NoGap;
    var st' := After(st, SendOther(s));
    BatchesAppend(st.sockets[s].wire, Other);
    forall t: nat | t < |st'.sockets| && st'.sockets[t].open ensures SocketOk(st', t) {
      assert Coming(st', t) == Coming(st, t);
    }
  }

  lemma ArriveKeeps(st: State, s: nat)
    requires Inv(st) && Enabled(st, Arrive(s))
    ensures Inv(After(st, Arrive(s)))
  {
    hide Chain, Reach, Queued, Batches, Coming, Repeats;
    var st' := After(st, Arrive(s));
    forall t: nat | t < |st'.sockets| ensures Coming(st', t) == Coming(st, t) {
      ArriveMoves(st, s, t);
    }
    assert forall x :: x in st'.queue <==> x in st.queue || x == (s, st.sockets[s].wire[0]);
  }

  /** A frame that arrives is queued behind the others; what is coming stays in order. */
  lemma ArriveMoves(st: State, s: nat, t: nat)
    requires Enabled(st, Arrive(s)) && t < |st.sockets|
    ensures Coming(After(st, Arrive(s)), t) == Coming(st, t)
  {
    hide Queued;
    var wire := st.sockets[s].wire;
    QueuedAppend(st.queue, s, wire[0], t);
    if t == s && wire[0].Batch? {
      assert Batches(wire) == [wire[0].events] + Batches(wire[1..]);
    }
  }

  lemma CloseKeeps(st: State, s: nat)
    requires Inv(st) && Enabled(st, Close(s))
    ensures Inv(After(st, Close(s))) && !After(st, Close(s)).sockets[s].open
  {
    hide Chain, Reach, Queued, Batches, Repeats, OldOnes, Members, NoGap;
    var st' := After(st, Close(s));
    forall t: nat | t < |st'.sockets| && st'.sockets[t].open ensures SocketOk(st', t) {
      assert Coming(st', t) == Coming(st, t);
    }
  }

  lemma BeginKeeps(st: State)
    requires Inv(st) && Enabled(st, Begin)
    ensures Inv(After(st, Begin))
  {
    hide Chain, Repeats, Reach, Batches, Queued, Coming, OldOnes, NoGap;
    var st' := After(st, Begin);
    var (s, f) := st.queue[0];
    forall t: nat | t < |st'.sockets| && st'.sockets[t].open ensures SocketOk(st', t) {
      BeginMoves(st, t);
    }
    if st.sockets[s].open && f.Batch? {
      FirstComing(st, s, f.events);
    }
    assert forall x :: x in st'.queue ==> x in st.queue;
  }

  lemma BeginMoves(st: State, t: nat)
    requires QueueOk(st) && Enabled(st, Begin) && t < |st.sockets| && st.sockets[t].open
    ensures Coming(After(st, Begin), t) == Coming(st, t)
  {
    hide Batches;
    assert Queued(st.queue, t) == (if st.queue[0].0 == t && st.queue[0].1.Batch? then [st.queue[0].1.events] else []) + Queued(st.queue[1..], t);
  }

  /** The first batch coming is the queue's first. */
  lemma FirstComing(st: State, s: nat, b: seq<Event>)
    requires s < |st.sockets| && SocketOk(st, s) && st.work.Idle? && st.queue != [] && st.queue[0] == (s, Batch(b))
    ensures NoGap(st.log, st.dropped, st.cursor, b) && OldOnes(Members(st.applied), st.cursor, b)
  {
    hide NoGap, OldOnes, Batches, Reach;
    assert Coming(st, s)[0] == b;
  }

  lemma ReadCursorKeeps(st: State)
    requires Inv(st) && Enabled(st, ReadCursor)
    ensures Inv(After(st, ReadCursor))
    ensures st.work.frame.Hello? ==> Ready(After(st, ReadCursor).work) == Some(Welcome(st.cursor))
  {
    hide Chain, Reach, Queued, Batches, Repeats, OldOnes, Members, NoGap;
    var st' := After(st, ReadCursor);
    forall t: nat | t < |st'.sockets| && st'.sockets[t].open ensures SocketOk(st', t) {
      assert Coming(st', t) == Coming(st, t);
    }
  }

  lemma CommitKeepsInv(st: State)
    requires Inv(st) && Enabled(st, Commit)
    ensures Inv(After(st, Commit))
  {
    hide Chain, Reach, Queued, Batches, Fresh, Highest, Repeats, Coming, OldOnes, Members;
    var st', b := After(st, Commit), st.work.frame.events;
    HighestOfBatch(b, st.cursor);
    CommitApplies(st);
    forall t: nat | t < |st'.sockets| && st'.sockets[t].open ensures SocketOk(st', t) {
      CommitKeepsSocket(st, t);
    }
    assert st'.cursor == st.cursor || (b[|b| - 1] in st.log && b[|b| - 1].number == st'.cursor);
  }

  /**
   * Storing the batch in hand stores each of its events: those above the cursor, in order, after what is there,
   * the others being there already. The cursor moves to its last, the node is told so, and the other batches follow
   * from there.
   */
  lemma CommitKeeps(st: State)
    requires Inv(st) && Enabled(st, Commit)
    ensures var st', b := After(st, Commit), st.work.frame.events;
            && Inv(st')
            && (exists n: nat :: n <= |b| && st'.applied == st.applied + b[n..] && CutAt(b, n, st.cursor))
            && (forall e :: e in b ==> e in st'.applied)
            && st'.cursor == Max(st.cursor, b[|b| - 1].number)
            && Ready(st'.work) == Some(Ack(st'.cursor))
  {
    hide Inv, Highest, Above;
    var b := st.work.frame.events;
    CommitKeepsInv(st);
    BatchInHand(st);
    HighestOfBatch(b, st.cursor);
    StoredWithBatch(st);
    assert forall e :: e in b ==> e in Members(b);
    AscendingBatch(b, st.cursor);
    var n := AboveIsRest(b, st.cursor);
  }

  lemma BatchInHand(st: State)
    requires Inv(st) && Enabled(st, Commit)
    ensures st.work.frame.events != [] && Ascending(st.work.frame.events) && st.work.stage.cursor == st.cursor
  {
    hide Chain, Reach, Queued, Batches, Repeats, Coming;
  }

  /** The events from the `n`th on are those above the cursor. */
  ghost predicate CutAt(b: seq<Event>, n: nat, cursor: int)
    requires n <= |b|
  {
    (forall i :: 0 <= i < n ==> b[i].number <= cursor) && forall i :: n <= i < |b| ==> b[i].number > cursor
  }

  lemma {:induction false} AboveIsRest(b: seq<Event>, cursor: int) returns (n: nat)
    requires Ascending(b)
    ensures n <= |b| && Above(b, cursor) == b[n..] && CutAt(b, n, cursor)
  {
    if b == [] || b[0].number > cursor {
      n := 0;
      AllAbove(b, cursor);
    } else {
      n := AboveIsRest(b[1..], cursor);
      n := n + 1;
      assert b[1..][n - 1..] == b[n..];
      assert forall i :: 1 <= i < |b| ==> b[1..][i - 1] == b[i];
    }
  }

  lemma {:induction false} AllAbove(b: seq<Event>, cursor: int)
    requires Ascending(b) && (b != [] ==> b[0].number > cursor)
    ensures Above(b, cursor) == b
  {
    if b != [] {
      AllAbove(b[1..], cursor);
      assert b == [b[0]] + b[1..];
    }
  }

  lemma HighestOfBatch(b: seq<Event>, cursor: int)
    requires b != [] && Ascending(b)
    ensures Highest(b, cursor) == Max(cursor, LastNumber(b))
  {
    hide Highest;
    assert b[|b| - 1] in b;
  }

  lemma CommitKeepsSocket(st: State, t: nat)
    requires Inv(st) && Enabled(st, Commit) && t < |st.sockets| && st.sockets[t].open
    requires Highest(st.work.frame.events, st.cursor) == Max(st.cursor, LastNumber(st.work.frame.events))
    ensures SocketOk(After(st, Commit), t)
  {
    hide Highest, Fresh, Queued, Batches;
    var st', b := After(st, Commit), st.work.frame.events;
    var rest := Queued(st.queue, t) + Batches(st.sockets[t].wire);
    assert Coming(st', t) == rest;
    if st.work.socket == t {
      assert Coming(st, t) == [b] + rest;
      assert ([b] + rest)[1..] == rest;
      StoredWithBatch(st);
    } else {
      assert Coming(st, t) == rest == [];
    }
  }

  /** What is stored then is what was, and the batch. */
  lemma StoredWithBatch(st: State)
    requires Inv(st) && Enabled(st, Commit)
    ensures Members(After(st, Commit).applied) == Members(st.applied) + Members(st.work.frame.events)
  {
    hide Highest, Fresh, Chain, Reach, Queued, Batches, Repeats;
    FreshMembers(st.work.frame.events, st.cursor);
  }

  lemma CommitApplies(st: State)
    requires Inv(st) && Enabled(st, Commit)
    requires Highest(st.work.frame.events, st.cursor) == Max(st.cursor, LastNumber(st.work.frame.events))
    ensures ExactlyApplied(After(st, Commit))
  {
    hide Highest, Fresh, Above, Chain, Reach, Queued, Batches;
    var b := st.work.frame.events;
    AscendingBatch(b, st.cursor);
    FreshMembers(b, st.cursor);
    AppendAscends(st.applied, Fresh(b, st.cursor), st.cursor);
    LastIsHighest(b);
    assert forall e :: e in st.applied + Fresh(b, st.cursor) <==> e in st.applied || e in Fresh(b, st.cursor);
  }

  lemma AppendAscends(a: seq<Event>, b: seq<Event>, middle: int)
    requires Ascending(a) && Ascending(b)
    requires (forall e :: e in a ==> e.number <= middle) && (forall e :: e in b ==> e.number > middle)
    ensures Ascending(a + b)
  {
    assert forall i :: 0 <= i < |a| ==> a[i] in a;
    assert forall j :: 0 <= j < |b| ==> b[j] in b;
  }

  lemma LastIsHighest(b: seq<Event>)
    requires b != [] && Ascending(b)
    ensures forall e :: e in b ==> e.number <= LastNumber(b)
  {
  }

  lemma AnswerKeeps(st: State, to: nat)
    requires Inv(st) && Enabled(st, Answer(to))
    ensures Inv(After(st, Answer(to)))
    ensures After(st, Answer(to)).sockets[to].inbox == st.sockets[to].inbox + [Ready(st.work).value]
  {
    hide Chain, Reach, Queued, Batches, Repeats, OldOnes, Members, NoGap;
    var st' := After(st, Answer(to));
    forall t: nat | t < |st'.sockets| && st'.sockets[t].open ensures SocketOk(st', t) {
      assert Coming(st', t) == Coming(st, t);
    }
  }

  lemma FinishKeeps(st: State)
    requires Inv(st) && Enabled(st, Finish)
    ensures Inv(After(st, Finish))
  {
    hide Chain, Reach, Queued, Batches, Repeats, OldOnes, Members, NoGap;
    var st' := After(st, Finish);
    forall t: nat | t < |st'.sockets| && st'.sockets[t].open ensures SocketOk(st', t) {
      assert Coming(st', t) == Coming(st, t);
    }
  }

  lemma FailKeeps(st: State)
    requires Inv(st) && Enabled(st, Fail)
    ensures Inv(After(st, Fail)) && After(st, Fail).work.Idle?
    ensures forall t: nat :: t < |st.sockets| ==>
              (After(st, Fail).sockets[t].open <==> st.sockets[t].open && !(st.work.frame.Batch? && st.work.socket == t))
  {
    hide Chain, Reach, Queued, Batches, Repeats, OldOnes, Members, NoGap;
    var st' := After(st, Fail);
    forall t: nat | t < |st'.sockets| && st'.sockets[t].open ensures SocketOk(st', t) {
      assert Coming(st', t) == Coming(st, t);
    }
  }

  lemma ReceiveKeeps(st: State, s: nat)
    requires Inv(st) && Enabled(st, Receive(s))
    ensures Inv(After(st, Receive(s)))
    ensures var st' := After(st, Receive(s));
            match st.sockets[s].inbox[0]
            case Welcome(n) => st'.sockets[s].sent == Some(n) && st'.acknowledged == n
            case Ack(n) => st'.sockets[s].sent == st.sockets[s].sent && st'.acknowledged == n
  {
    hide Chain, Queued, Batches, Repeats, OldOnes, Members, NoGap;
    var st' := After(st, Receive(s));
    assert st.sockets[s].inbox[0] in st.sockets[s].inbox;
    forall t: nat | t < |st'.sockets| && st'.sockets[t].open ensures SocketOk(st', t) {
      assert Coming(st', t) == Coming(st, t);
      ChainGrows(st.log, st.dropped, st.cursor, st.cursor, Coming(st, t));
    }
  }

  lemma StepKeeps(st: State, step: Step)
    requires Inv(st) && Enabled(st, step)
    ensures var st' := After(st, step);
            Inv(st') && st.cursor <= st'.cursor && st.applied <= st'.applied && st.log <= st'.log
  {
    hide Chain, Reach, Queued, Batches, Inv;
    match step
    case Issue(e) => IssueKeeps(st, e);
    case Drop(n) => DropKeeps(st, n);
    case Connect => ConnectKeeps(st);
    case SendBatch(s, count) => SendBatchKeeps(st, s, count);
    case SendOther(s) => SendOtherKeeps(st, s);
    case Arrive(s) => ArriveKeeps(st, s);
    case Close(s) => CloseKeeps(st, s);
    case Begin => BeginKeeps(st);
    case ReadCursor => ReadCursorKeeps(st);
    case Commit => CommitKeeps(st);
    case Answer(to) => AnswerKeeps(st, to);
    case Finish => FinishKeeps(st);
    case Fail => FailKeeps(st);
    case Receive(s) => ReceiveKeeps(st, s);
  }

  // ----- whole runs -----

  lemma {:induction false} RunKeeps(st: State, steps: seq<Step>)
    requires Inv(st) && CanRun(st, steps)
    ensures var st' := Run(st, steps);
            Inv(st') && st.cursor <= st'.cursor && st.applied <= st'.applied && st.log <= st'.log
    decreases |steps|
  {
    if steps != [] {
      StepKeeps(st, steps[0]);
      RunKeeps(After(st, steps[0]), steps[1..]);
    }
  }

  /**
   * In every run: the events applied are those up to the cursor, each once and in order, but for events
   * the node itself took back; nothing acknowledged to the node is missing; and the cursor and what is
   * applied only grow from any point of the run on.
   */
  lemma EveryRun(steps: seq<Step>, more: seq<Step>)
    requires CanRun(Init, steps) && CanRun(Run(Init, steps), more)
    ensures var st := Run(Init, steps);
            && ExactlyApplied(st)
            && (forall s: nat, r :: s < |st.sockets| && r in st.sockets[s].inbox ==> StoredUpTo(st, if r.Welcome? then r.acked else r.upTo))
            && StoredUpTo(st, st.acknowledged)
            && (st.dropped == {} ==> st.applied == UpTo(st.log, st.cursor))
            && st.cursor <= Run(st, more).cursor && st.applied <= Run(st, more).applied
  {
    hide Chain, Reach, Queued, Batches, CanRun, Run, Enabled, After, UpTo;
    var st := Run(Init, steps);
    RunKeeps(Init, steps);
    RunKeeps(st, more);
    if st.dropped == {} {
      UpToAscends(st.log, st.cursor);
      SameEvents(st.applied, UpTo(st.log, st.cursor));
    }
  }

  // ----- nothing is stuck -----

  lemma {:induction false} RunThen(st: State, a: seq<Step>, b: seq<Step>)
    requires CanRun(st, a) && CanRun(Run(st, a), b)
    ensures CanRun(st, a + b) && Run(st, a + b) == Run(Run(st, a), b)
    decreases |a|
  {
    hide Enabled, After;
    if a == [] {
      assert a + b == b;
    } else {
      RunThen(After(st, a[0]), a[1..], b);
      assert (a + b)[1..] == a[1..] + b;
    }
  }

  /** One more step of a run that has come to `s`. */
  lemma RunMore(st: State, steps: seq<Step>, s: State, step: Step, more: seq<Step>)
    requires CanRun(st, steps) && Run(st, steps) == s && Enabled(s, step) && more == steps + [step]
    ensures CanRun(st, more) && Run(st, more) == After(s, step)
  {
    hide Enabled, After;
    assert [step][1..] == [];
    assert CanRun(s, [step]) && Run(s, [step]) == After(s, step);
    RunThen(st, steps, [step]);
  }

  /** The frames of closed sockets are skipped. */
  lemma {:induction false} QueueSkipped(st: State) returns (steps: seq<Step>)
    requires st.work.Idle? && forall x :: x in st.queue ==> x.0 < |st.sockets| && !st.sockets[x.0].open
    ensures CanRun(st, steps) && Run(st, steps) == st.(queue := [])
    decreases |st.queue|
  {
    steps := [];
    if st.queue != [] {
      assert st.queue[0] in st.queue;
      var next := After(st, Begin);
      assert next == st.(queue := st.queue[1..]);
      steps := QueueSkipped(next);
      assert ([Begin] + steps)[1..] == steps;
      steps := [Begin] + steps;
    }
  }

  /** A node connected anew, with nothing of its other sockets left to handle. */
  predicate Connected(st: State, n: nat) {
    && |st.sockets| == n + 1 && st.sockets[n] == Socket(true, None, [Hello], [])
    && st.queue == [] && st.work.Idle?
  }

  /** Whatever is in hand fails, the node connects, and the frames of its other sockets are skipped. */
  lemma Reconnected(st: State) returns (steps: seq<Step>)
    requires Inv(st)
    ensures CanRun(st, steps)
    ensures var st' := Run(st, steps);
            Connected(st', |st.sockets|) && st'.log == st.log && st'.dropped == st.dropped
  {
    hide CanRun, Run, Chain, Reach, Queued, Batches, Repeats, Coming;
    steps := [];
    NoSteps(st);
    var idle := st;
    if st.work.Handling? {
      RunMore(st, [], st, Fail, [Fail]);
      steps, idle := [Fail], After(st, Fail);
    }
    var joined := After(idle, Connect);
    RunMore(st, steps, idle, Connect, steps + [Connect]);
    assert forall t :: 0 <= t < |st.sockets| ==> joined.sockets[t] == CloseAll(idle.sockets)[t];
    var skips := QueueSkipped(joined);
    RunThen(st, steps + [Connect], skips);
    steps := steps + [Connect] + skips;
  }

  lemma NoSteps(st: State)
    ensures CanRun(st, []) && Run(st, []) == st
  {
  }

  lemma Again(st: State, n: nat, a: Socket, b: Socket)
    requires n < |st.sockets|
    ensures With(With(st, n, a), n, b) == With(st, n, b)
  {
    assert st.sockets[n := a][n := b] == st.sockets[n := b];
  }

  /** The hello is read, and the node is welcomed with the cursor. */
  lemma Welcomed(st: State, n: nat)
    requires Connected(st, n)
    ensures var steps := [Arrive(n), Begin, ReadCursor, Answer(n), Receive(n)];
            && CanRun(st, steps)
            && Run(st, steps) == With(st, n, Socket(true, Some(st.cursor), [], [])).(acknowledged := st.cursor)
  {
    hide CanRun, Run, Outbox, Highest, Fresh, CloseAll;
    NoSteps(st);
    var read := Socket(true, None, [], []);
    var s1 := With(st, n, read).(queue := [(n, Hello)]);
    HelloArrives(st, n);
    RunMore(st, [], st, Arrive(n), [Arrive(n)]);
    var s2 := With(st, n, read).(work := Handling(n, Hello, Started));
    assert [(n, Hello)][1..] == [];
    RunMore(st, [Arrive(n)], s1, Begin, [Arrive(n), Begin]);
    var s3 := With(st, n, read).(work := Handling(n, Hello, Read(st.cursor)));
    RunMore(st, [Arrive(n), Begin], s2, ReadCursor, [Arrive(n), Begin, ReadCursor]);
    var s4 := With(st, n, Socket(true, None, [], [Welcome(st.cursor)]));
    WelcomeGiven(st, n);
    RunMore(st, [Arrive(n), Begin, ReadCursor], s3, Answer(n), [Arrive(n), Begin, ReadCursor, Answer(n)]);
    WelcomeTaken(st, n);
    RunMore(st, [Arrive(n), Begin, ReadCursor, Answer(n)], s4, Receive(n), [Arrive(n), Begin, ReadCursor, Answer(n), Receive(n)]);
  }

  lemma HelloArrives(st: State, n: nat)
    requires Connected(st, n)
    ensures After(st, Arrive(n)) == With(st, n, Socket(true, None, [], [])).(queue := [(n, Hello)])
  {
    assert [Hello][1..] == [] && [] + [(n, Hello)] == [(n, Hello)];
  }

  lemma WelcomeGiven(st: State, n: nat)
    requires Connected(st, n)
    ensures var s := With(st, n, Socket(true, None, [], [])).(work := Handling(n, Hello, Read(st.cursor)));
            After(s, Answer(n)) == With(st, n, Socket(true, None, [], [Welcome(st.cursor)]))
  {
    assert [] + [Welcome(st.cursor)] == [Welcome(st.cursor)];
    Again(st, n, Socket(true, None, [], []), Socket(true, None, [], [Welcome(st.cursor)]));
  }

  lemma WelcomeTaken(st: State, n: nat)
    requires Connected(st, n)
    ensures After(With(st, n, Socket(true, None, [], [Welcome(st.cursor)])), Receive(n))
         == With(st, n, Socket(true, Some(st.cursor), [], [])).(acknowledged := st.cursor)
  {
    assert [Welcome(st.cursor)][1..] == [];
    Again(st, n, Socket(true, None, [], [Welcome(st.cursor)]), Socket(true, Some(st.cursor), [], []));
  }

  /** What is in the outbox is sent, stored and acknowledged. */
  lemma OutboxStored(st: State, n: nat)
    requires n < |st.sockets| && st.sockets[n] == Socket(true, Some(st.cursor), [], [])
    requires st.queue == [] && st.work.Idle? && st.acknowledged == st.cursor && Outbox(st, n) != []
    ensures var steps := [SendBatch(n, |Outbox(st, n)|), Arrive(n), Begin, ReadCursor, Commit, Answer(n), Receive(n)];
            && CanRun(st, steps)
            && var st' := Run(st, steps);
               && st'.log == st.log && st'.dropped == st.dropped && st.cursor <= st'.acknowledged
               && forall e :: e in Outbox(st, n) ==> e.number <= st'.acknowledged
  {
    hide CanRun, Run, Pending, Highest, Fresh, CloseAll;
    var k := |Outbox(st, n)|;
    var send := SendBatch(n, k);
    NoSteps(st);
    var s1 := After(st, send);
    RunMore(st, [], st, send, [send]);
    var s2 := After(s1, Arrive(n));
    RunMore(st, [send], s1, Arrive(n), [send, Arrive(n)]);
    var s3 := After(s2, Begin);
    RunMore(st, [send, Arrive(n)], s2, Begin, [send, Arrive(n), Begin]);
    var s4 := After(s3, ReadCursor);
    RunMore(st, [send, Arrive(n), Begin], s3, ReadCursor, [send, Arrive(n), Begin, ReadCursor]);
    var s5 := After(s4, Commit);
    RunMore(st, [send, Arrive(n), Begin, ReadCursor], s4, Commit, [send, Arrive(n), Begin, ReadCursor, Commit]);
    var s6 := After(s5, Answer(n));
    RunMore(st, [send, Arrive(n), Begin, ReadCursor, Commit], s5, Answer(n), [send, Arrive(n), Begin, ReadCursor, Commit, Answer(n)]);
    RunMore(st, [send, Arrive(n), Begin, ReadCursor, Commit, Answer(n)], s6, Receive(n),
      [send, Arrive(n), Begin, ReadCursor, Commit, Answer(n), Receive(n)]);
    assert Outbox(st, n)[..k] == Outbox(st, n);
  }

  /**
   * Nothing is ever stuck: from every state a run reaches, there is a way on, with no new events and none taken
   * back, after which every event the node has not taken back is stored and acknowledged.
   */
  lemma EveryEventArrives(steps: seq<Step>) returns (more: seq<Step>)
    requires CanRun(Init, steps)
    ensures CanRun(Run(Init, steps), more)
    ensures var st, st' := Run(Init, steps), Run(Run(Init, steps), more);
            && st'.log == st.log && st'.dropped == st.dropped
            && forall e :: e in st.log && e.number !in st.dropped ==> e in st'.applied && e.number <= st'.acknowledged
  {
    hide CanRun, Run, Chain, Reach, Queued, Batches, Repeats, Coming, Pending;
    var st := Run(Init, steps);
    RunKeeps(Init, steps);
    more := Reconnected(st);
    var n, st1 := |st.sockets|, Run(st, more);
    Welcomed(st1, n);
    var hello := [Arrive(n), Begin, ReadCursor, Answer(n), Receive(n)];
    RunThen(st, more, hello);
    more := more + hello;
    var st2 := Run(st, more);
    if Outbox(st2, n) != [] {
      OutboxStored(st2, n);
      var batch := [SendBatch(n, |Outbox(st2, n)|), Arrive(n), Begin, ReadCursor, Commit, Answer(n), Receive(n)];
      RunThen(st, more, batch);
      more := more + batch;
    }
    RunKeeps(st, more);
    var st' := Run(st, more);
    forall e | e in st.log && e.number !in st.dropped ensures e in st'.applied && e.number <= st'.acknowledged {
      assert e in Outbox(st2, n) || e.number <= st2.cursor;
    }
  }

  ghost function UpTo(log: seq<Event>, n: int): (r: seq<Event>)
    ensures forall e :: e in r <==> e in log && e.number <= n
  {
    if log == [] then []
    else
      assert log == [log[0]] + log[1..];
      (if log[0].number <= n then [log[0]] else []) + UpTo(log[1..], n)
  }

  lemma {:induction false} UpToAscends(log: seq<Event>, n: int)
    requires Ascending(log)
    ensures Ascending(UpTo(log, n))
  {
    if log != [] {
      UpToAscends(log[1..], n);
      RestOf(log);
      Prepend(log[0], UpTo(log[1..], n));
    }
  }

  /** Two ascending lists of the same events are the same list. */
  lemma {:induction false} SameEvents(a: seq<Event>, b: seq<Event>)
    requires Ascending(a) && Ascending(b) && forall e :: e in a <==> e in b
    ensures a == b
  {
    if a == [] || b == [] {
      HasMember(a);
      HasMember(b);
    } else {
      assert a[0] in b && b[0] in a;
      RestOf(a);
      RestOf(b);
      SameEvents(a[1..], b[1..]);
      assert a == [a[0]] + a[1..] && b == [b[0]] + b[1..];
    }
  }

  lemma HasMember(a: seq<Event>)
    ensures a != [] ==> exists e :: e in a
  {
    if a != [] {
      assert a[0] in a;
    }
  }

  lemma RestOf(a: seq<Event>)
    requires a != [] && Ascending(a)
    ensures forall e :: e in a ==> a[0].number <= e.number
    ensures Ascending(a[1..]) && forall e :: e in a[1..] <==> e in a && e != a[0]
    ensures forall e :: e in a[1..] ==> a[0].number < e.number
  {
    assert a == [a[0]] + a[1..];
  }
}
