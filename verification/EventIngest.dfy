/** Storing a node's events behind a cursor (apps/cloud-control/src/store.ts, `ingest`). */
module EventIngest {

  datatype Event = Event(number: int, body: string)

  ghost predicate Ascending(events: seq<Event>) {
    forall i, j :: 0 <= i < j < |events| ==> events[i].number < events[j].number
  }

  /** The events above the cursor, in the order they came. */
  function Above(events: seq<Event>, cursor: int): (r: seq<Event>)
    ensures forall e :: e in r <==> e in events && e.number > cursor
  {
    if events == [] then []
    else if events[0].number > cursor then [events[0]] + Above(events[1..], cursor)
    else Above(events[1..], cursor)
  }

  function Insert(e: Event, sorted: seq<Event>): (r: seq<Event>)
    ensures multiset(r) == multiset{e} + multiset(sorted)
  {
    if sorted == [] || e.number <= sorted[0].number then [e] + sorted
    else
      assert sorted == [sorted[0]] + sorted[1..];
      [sorted[0]] + Insert(e, sorted[1..])
  }

  /** `sort((a, b) => a.seq - b.seq)`: stable, by number. */
  function Sorted(events: seq<Event>): (r: seq<Event>)
    ensures multiset(r) == multiset(events)
  {
    if events == [] then []
    else
      assert events == [events[0]] + events[1..];
      Insert(events[0], Sorted(events[1..]))
  }

  /** The highest number of the batch or the cursor. */
  function Highest(events: seq<Event>, cursor: int): (h: int)
    ensures h >= cursor && (h > cursor ==> exists e :: e in events && e.number == h)
    ensures forall e :: e in events ==> e.number <= h
  {
    if events == [] then cursor
    else
      var h := Highest(events[1..], cursor);
      assert events == [events[0]] + events[1..];
      if events[0].number > h then events[0].number else h
  }

  /** What storing a batch does to one node's row and its mirrored events. */
  function Fresh(events: seq<Event>, cursor: int): seq<Event> {
    Sorted(Above(events, cursor))
  }

  lemma {:induction false} SortedOrder(events: seq<Event>)
    ensures forall i, j :: 0 <= i < j < |Sorted(events)| ==> Sorted(events)[i].number <= Sorted(events)[j].number
  {
    if events != [] {
      SortedOrder(events[1..]);
      InsertOrder(events[0], Sorted(events[1..]));
    }
  }

  lemma {:induction false} InsertOrder(e: Event, sorted: seq<Event>)
    requires forall i, j :: 0 <= i < j < |sorted| ==> sorted[i].number <= sorted[j].number
    ensures forall i, j :: 0 <= i < j < |Insert(e, sorted)| ==> Insert(e, sorted)[i].number <= Insert(e, sorted)[j].number
  {
    if sorted != [] && e.number > sorted[0].number {
      InsertOrder(e, sorted[1..]);
      var r := Insert(e, sorted[1..]);
      forall k | 0 <= k < |r| ensures sorted[0].number <= r[k].number {
        assert r[k] in multiset(r);
        assert r[k] == e || r[k] in sorted[1..];
      }
    }
  }

  lemma FreshMembers(events: seq<Event>, cursor: int)
    ensures forall e :: e in Fresh(events, cursor) <==> e in events && e.number > cursor
  {
    forall e: Event ensures e in Fresh(events, cursor) <==> e in events && e.number > cursor {
      assert e in multiset(Fresh(events, cursor)) <==> e in multiset(Above(events, cursor));
    }
  }

  /** The events of one number, in order. */
  function OfNumber(events: seq<Event>, n: int): seq<Event> {
    if events == [] then [] else (if events[0].number == n then [events[0]] else []) + OfNumber(events[1..], n)
  }

  lemma {:induction false} AboveOfNumber(events: seq<Event>, cursor: int, n: int)
    ensures OfNumber(Above(events, cursor), n) == if n > cursor then OfNumber(events, n) else []
  {
    if events != [] {
      AboveOfNumber(events[1..], cursor, n);
      assert ([events[0]] + Above(events[1..], cursor))[1..] == Above(events[1..], cursor);
    }
  }

  lemma {:induction false} InsertOfNumber(e: Event, sorted: seq<Event>, n: int)
    ensures OfNumber(Insert(e, sorted), n) == (if e.number == n then [e] else []) + OfNumber(sorted, n)
  {
    assert ([e] + sorted)[1..] == sorted;
    if sorted != [] && e.number > sorted[0].number {
      InsertOfNumber(e, sorted[1..], n);
      assert ([sorted[0]] + Insert(e, sorted[1..]))[1..] == Insert(e, sorted[1..]);
    }
  }

  lemma {:induction false} SortedOfNumber(events: seq<Event>, n: int)
    ensures OfNumber(Sorted(events), n) == OfNumber(events, n)
  {
    if events != [] {
      SortedOfNumber(events[1..], n);
      InsertOfNumber(events[0], Sorted(events[1..]), n);
    }
  }

  /** What is stored comes by number, and of each number above the cursor just what the batch has, in its order. */
  lemma FreshExactly(events: seq<Event>, cursor: int)
    ensures forall i, j :: 0 <= i < j < |Fresh(events, cursor)| ==> Fresh(events, cursor)[i].number <= Fresh(events, cursor)[j].number
    ensures forall n :: OfNumber(Fresh(events, cursor), n) == if n > cursor then OfNumber(events, n) else []
  {
    SortedOrder(Above(events, cursor));
    forall n ensures OfNumber(Fresh(events, cursor), n) == if n > cursor then OfNumber(events, n) else [] {
      SortedOfNumber(Above(events, cursor), n);
      AboveOfNumber(events, cursor, n);
    }
  }

  /** A batch in ascending order is applied as it came, without the events already stored. */
  lemma {:induction false} AscendingBatch(events: seq<Event>, cursor: int)
    requires Ascending(events)
    ensures Fresh(events, cursor) == Above(events, cursor) && Ascending(Fresh(events, cursor))
  {
    AboveAscending(events, cursor);
    SortedAlready(Above(events, cursor));
  }

  lemma {:induction false} AboveAscending(events: seq<Event>, cursor: int)
    requires Ascending(events)
    ensures Ascending(Above(events, cursor))
  {
    if events != [] {
      AboveAscending(events[1..], cursor);
      assert forall k :: 0 <= k < |Above(events[1..], cursor)| ==> Above(events[1..], cursor)[k] in Above(events[1..], cursor);
    }
  }

  lemma {:induction false} SortedAlready(events: seq<Event>)
    requires Ascending(events)
    ensures Sorted(events) == events
  {
    if events != [] {
      SortedAlready(events[1..]);
      assert events == [events[0]] + events[1..];
    }
  }

  /** A batch that was stored is a duplicate: sent again, it changes nothing. */
  lemma ReplayIsNoOp(events: seq<Event>, cursor: int)
    ensures var stored := Highest(events, cursor);
            Fresh(events, stored) == [] && Highest(events, stored) == stored
  {
    NoneAbove(events, Highest(events, cursor));
  }

  lemma {:induction false} NoneAbove(events: seq<Event>, cursor: int)
    requires forall e :: e in events ==> e.number <= cursor
    ensures Above(events, cursor) == [] && Highest(events, cursor) == cursor
  {
    if events != [] {
      NoneAbove(events[1..], cursor);
    }
  }

  /** The rows of `nodes` and the events mirrored for each node. */
  class MirrorStore {
    var lastEventSeq: map<string, int>
    var mirrored: map<string, seq<Event>>

    ghost predicate Valid()
      reads this
    {
      lastEventSeq.Keys == mirrored.Keys
    }

    /** An unknown node reads as 0. */
    function Cursor(nodeId: string): int
      reads this
    {
      if nodeId in lastEventSeq then lastEventSeq[nodeId] else 0
    }

    /** Store one batch atomically; the node's row exists, since its socket was authenticated against it. */
    method Ingest(nodeId: string, events: seq<Event>) returns (added: seq<Event>, ackedSeq: int, advanced: bool)
      requires Valid() && nodeId in lastEventSeq
      modifies this
      ensures Valid()
      ensures added == Fresh(events, old(Cursor(nodeId))) && ackedSeq == Highest(events, old(Cursor(nodeId)))
      ensures advanced <==> ackedSeq > old(Cursor(nodeId))
      ensures lastEventSeq == old(lastEventSeq)[nodeId := ackedSeq]
      ensures mirrored == old(mirrored)[nodeId := old(mirrored[nodeId]) + added]
    {
      hide Highest, Sorted, Above;
      var cursor := Cursor(nodeId);
      added := Sorted(Above(events, cursor));
      ackedSeq := HighestOf(events, cursor);
      var rows := mirrored[nodeId];
      for i := 0 to |added|
        invariant rows == mirrored[nodeId] + added[..i]
      {
        rows := rows + [added[i]];
      }
      assert added[..|added|] == added;
      mirrored := mirrored[nodeId := rows];
      if lastEventSeq[nodeId] < ackedSeq {
        lastEventSeq := lastEventSeq[nodeId := ackedSeq];
      }
      advanced := ackedSeq > cursor;
    }
  }

  method HighestOf(events: seq<Event>, cursor: int) returns (h: int)
    ensures h == Highest(events, cursor)
  {
    h := cursor;
    for i := 0 to |events|
      invariant Highest(events[i..], h) == Highest(events, cursor)
    {
      assert events[i..][1..] == events[i + 1..];
      HighestFrom(events[i..], h);
      if events[i].number > h {
        h := events[i].number;
      }
    }
  }

  lemma {:induction false} HighestFrom(events: seq<Event>, cursor: int)
    requires events != []
    ensures Highest(events, cursor) == Highest(events[1..], if events[0].number > cursor then events[0].number else cursor)
  {
    HighestIsMax(events[1..], cursor, if events[0].number > cursor then events[0].number else cursor);
  }

  lemma {:induction false} HighestIsMax(events: seq<Event>, cursor: int, higher: int)
    requires cursor <= higher
    ensures Highest(events, higher) == if Highest(events, cursor) > higher then Highest(events, cursor) else higher
  {
    if events != [] {
      HighestIsMax(events[1..], cursor, higher);
    }
  }
}
