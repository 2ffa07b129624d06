/** Live reads relayed to a node: chunked answers put together, each call settled once (apps/cloud-control/src/hub.ts). */
module Rpc {
  import opened Common

  type Id = nat
  type Node = string

  /** Responses are cut into at most this many chunks (the frame's schema). */
  const MAX_CHUNKS: nat := 64
  const LIMIT: nat := 8 * 1024 * 1024

  datatype Meta = Meta(httpStatus: nat, contentType: string, encoding: string)

  datatype Reply = Answer(meta: Meta, text: string) | TooLarge | TimedOut | Offline

  datatype Waiter = Waiter(node: Node, chunks: map<nat, string>, meta: Option<Meta>)

  datatype Response = Response(index: nat, total: nat, chunk: string, meta: Meta)

  /** The lengths of the chunks below `n`. */
  function SizeTo(chunks: map<nat, string>, n: nat): nat {
    if n == 0 then 0 else SizeTo(chunks, n - 1) + if n - 1 in chunks then |chunks[n - 1]| else 0
  }

  /** The chunks below `n` joined in order; a missing one adds nothing. */
  function JoinTo(chunks: map<nat, string>, n: nat): string {
    if n == 0 then "" else JoinTo(chunks, n - 1) + if n - 1 in chunks then chunks[n - 1] else ""
  }

  /** A response taken in. */
  function Taken(w: Waiter, r: Response): Waiter {
    w.(meta := if w.meta.Some? then w.meta else Some(r.meta), chunks := w.chunks[r.index := r.chunk])
  }

  /** What a response settles, if it settles anything. */
  function Settles(w: Waiter, r: Response): Option<Reply> {
    var taken := Taken(w, r);
    if SizeTo(taken.chunks, MAX_CHUNKS) > LIMIT then Some(TooLarge)
    else if |taken.chunks| == r.total then Some(Answer(taken.meta.value, JoinTo(taken.chunks, MAX_CHUNKS)))
    else None
  }

  class RpcHub {
    var waiters: map<Id, Waiter>
    /** Timers that may still fire. */
    var timers: set<Id>
    /** Every call made, and what it was resolved with, in order. */
    ghost var resolved: map<Id, seq<Reply>>

    /** Each call settles at most once, and has a waiter and a timer exactly until it does. */
    ghost predicate Valid()
      reads this
    {
      && waiters.Keys == timers && waiters.Keys <= resolved.Keys
      && forall id :: id in resolved ==> |resolved[id]| <= 1 && (id in waiters <==> resolved[id] == [])
    }

    constructor ()
      ensures Valid() && resolved == map[]
    {
      waiters, timers, resolved := map[], {}, map[];
    }

    /** Remove the waiter and resolve its call. */
    method Resolve(id: Id, reply: Reply)
      requires Valid() && id in waiters
      modifies this
      ensures Valid() && waiters == old(waiters) - {id} && resolved == old(resolved)[id := [reply]]
    {
      assert resolved[id] + [reply] == [reply];
      timers := timers - {id};
      waiters := waiters - {id};
      resolved := resolved[id := resolved[id] + [reply]];
    }

    /** A call: the timer and the waiter first, then the request is sent to the node or not. */
    method Call(id: Id, node: Node, sent: bool)
      requires Valid() && id !in resolved
      modifies this
      ensures Valid()
      ensures sent ==> waiters == old(waiters)[id := Waiter(node, map[], None)] && resolved == old(resolved)[id := []]
      ensures !sent ==> waiters == old(waiters) && resolved == old(resolved)[id := [Offline]]
    {
      resolved := resolved[id := []];
      timers := timers + {id};
      waiters := waiters[id := Waiter(node, map[], None)];
      if !sent {
        Resolve(id, Offline);
        assert old(waiters)[id := Waiter(node, map[], None)] - {id} == old(waiters);
        assert old(resolved)[id := []][id := [Offline]] == old(resolved)[id := [Offline]];
      }
    }

    method OnResponse(node: Node, id: Id, r: Response)
      requires Valid() && r.index < MAX_CHUNKS
      modifies this
      ensures Valid()
      ensures id !in old(waiters) || old(waiters[id].node) != node || r.index >= r.total ==> waiters == old(waiters) && resolved == old(resolved)
      ensures id in old(waiters) && old(waiters[id].node) == node && r.index < r.total ==>
                match Settles(old(waiters[id]), r)
                case None => waiters == old(waiters)[id := Taken(old(waiters[id]), r)] && resolved == old(resolved)
                case Some(reply) => waiters == old(waiters) - {id} && resolved == old(resolved)[id := [reply]]
    {
      hide SizeTo, JoinTo;
      if id !in waiters || waiters[id].node != node || r.index >= r.total {
        return;
      }
      var w := Taken(waiters[id], r);
      waiters := waiters[id := w];
      assert waiters - {id} == old(waiters) - {id};
      if SizeTo(w.chunks, MAX_CHUNKS) > LIMIT {
        Resolve(id, TooLarge);
      } else if |w.chunks| == r.total {
        Resolve(id, Answer(w.meta.value, JoinTo(w.chunks, MAX_CHUNKS)));
      }
    }

    method OnTimeout(id: Id)
      requires Valid() && id in timers
      modifies this
      ensures Valid() && id !in waiters && resolved == old(resolved)[id := [TimedOut]]
    {
      Resolve(id, TimedOut);
    }

    /** A node's last socket closed: every call waiting for it settles. */
    method OnNodeGone(node: Node, replaced: bool)
      requires Valid()
      modifies this
      ensures Valid() && resolved.Keys == old(resolved).Keys
      ensures replaced ==> waiters == old(waiters) && resolved == old(resolved)
      ensures !replaced ==> forall id :: id in old(waiters) ==>
                if old(waiters)[id].node == node then id !in waiters && resolved[id] == [Offline]
                else id in waiters && waiters[id] == old(waiters)[id]
      ensures forall id :: id in old(resolved) && id !in old(waiters) ==> resolved[id] == old(resolved)[id]
    {
      if replaced {
        return;
      }
      var todo := waiters.Keys;
      while todo != {}
        invariant Valid() && todo <= old(waiters).Keys && resolved.Keys == old(resolved).Keys
        invariant forall id :: id in old(waiters) ==>
                    if id !in todo && old(waiters)[id].node == node then id !in waiters && resolved[id] == [Offline]
                    else id in waiters && waiters[id] == old(waiters)[id]
        invariant forall id :: id in old(resolved) && id !in old(waiters) ==> resolved[id] == old(resolved)[id]
        decreases todo
      {
        var id :| id in todo;
        if waiters[id].node == node {
          Resolve(id, Offline);
        }
        todo := todo - {id};
      }
    }
  }

  // ----- putting an answer together -----

  /** The answer cut into chunks, and a response that carries one of them. */
  predicate Carries(parts: seq<string>, r: Response) {
    r.total == |parts| && r.index < |parts| && r.chunk == parts[r.index]
  }

  /** The indices below `n`. */
  function Below(n: nat): (s: set<nat>)
    ensures |s| == n
    ensures forall i :: i in s <==> 0 <= i < n
  {
    if n == 0 then {} else Below(n - 1) + {n - 1}
  }

  lemma FullWhenCounted(keys: set<nat>, n: nat)
    requires keys <= Below(n)
    ensures |keys| == n <==> keys == Below(n)
  {
    if |keys| == n {
      SubsetSize(Below(n), keys);
    }
  }

  lemma SubsetSize(big: set<nat>, small: set<nat>)
    requires small <= big && |small| == |big|
    ensures small == big
  {
    assert big == small + (big - small);
    assert |big| == |small| + |big - small|;
  }

  /** The chunks received so far, and no others. */
  predicate Received(w: Waiter, parts: seq<string>, indices: set<nat>) {
    w.chunks.Keys == indices && indices <= Below(|parts|) && forall i :: i in indices ==> w.chunks[i] == parts[i]
  }

  lemma {:induction false} SizeBelow(chunks: map<nat, string>, parts: seq<string>, n: nat)
    requires forall i :: i in chunks ==> i < |parts| && chunks[i] == parts[i]
    ensures SizeTo(chunks, n) <= |Concat(parts[..if n < |parts| then n else |parts|])|
  {
    if n > 0 {
      SizeBelow(chunks, parts, n - 1);
      if n <= |parts| {
        PartsMore(parts, n);
      }
    }
  }

  lemma PartsMore(parts: seq<string>, n: nat)
    requires 0 < n <= |parts|
    ensures Concat(parts[..n]) == Concat(parts[..n - 1]) + parts[n - 1]
  {
    assert parts[..n] == parts[..n - 1] + [parts[n - 1]];
    ConcatAppend(parts[..n - 1], [parts[n - 1]]);
    ConcatOne(parts[n - 1]);
  }

  lemma {:induction false} JoinAll(chunks: map<nat, string>, parts: seq<string>, n: nat)
    requires chunks.Keys == Below(|parts|) && forall i :: i in chunks ==> chunks[i] == parts[i]
    ensures JoinTo(chunks, n) == Concat(parts[..if n < |parts| then n else |parts|])
  {
    if n > 0 {
      JoinAll(chunks, parts, n - 1);
      if n <= |parts| {
        assert n - 1 in Below(|parts|);
        PartsMore(parts, n);
      } else {
        assert n - 1 !in Below(|parts|);
      }
    }
  }

  /** One more chunk: the answer is complete exactly when no index is missing. */
  lemma OneResponse(w: Waiter, parts: seq<string>, indices: set<nat>, r: Response)
    requires Received(w, parts, indices) && Carries(parts, r)
    requires |parts| <= MAX_CHUNKS && |Concat(parts)| <= LIMIT
    ensures Received(Taken(w, r), parts, indices + {r.index})
    ensures Settles(w, r)
         == if indices + {r.index} == Below(|parts|) then Some(Answer(Taken(w, r).meta.value, Concat(parts))) else None
  {
    hide SizeTo, JoinTo, Concat, Below;
    var taken := Taken(w, r);
    assert taken.chunks.Keys == indices + {r.index};
    SizeBelow(taken.chunks, parts, MAX_CHUNKS);
    assert parts[..|parts|] == parts;
    FullWhenCounted(taken.chunks.Keys, |parts|);
    CountIsKeys(taken.chunks);
    if indices + {r.index} == Below(|parts|) {
      JoinAll(taken.chunks, parts, MAX_CHUNKS);
    }
  }

  lemma CountIsKeys(chunks: map<nat, string>)
    ensures |chunks| == |chunks.Keys|
  {
  }

  /** What the responses so far have settled: the first that settles decides. */
  function Arrive(w: Waiter, rs: seq<Response>): Option<Reply>
    decreases |rs|
  {
    if rs == [] then None else if Settles(w, rs[0]).Some? then Settles(w, rs[0]) else Arrive(Taken(w, rs[0]), rs[1..])
  }

  function Indices(rs: seq<Response>): set<nat> {
    set i | 0 <= i < |rs| :: rs[i].index
  }

  /** Status and type are the first response's. */
  function FirstMeta(w: Waiter, r: Response): Meta {
    if w.meta.Some? then w.meta.value else r.meta
  }

  lemma MetaStays(w: Waiter, r: Response, next: Response)
    ensures Taken(w, r).meta == Some(FirstMeta(w, r)) && FirstMeta(Taken(w, r), next) == FirstMeta(w, r)
  {
  }

  /**
   * For chunks that arrive in any order, with any repeats: the call settles exactly when every index has
   * arrived, with the chunks joined in index order.
   */
  lemma {:induction false} Reassembled(w: Waiter, parts: seq<string>, indices: set<nat>, rs: seq<Response>)
    requires Received(w, parts, indices) && indices != Below(|parts|)
    requires forall r :: r in rs ==> Carries(parts, r)
    requires |parts| <= MAX_CHUNKS && |Concat(parts)| <= LIMIT
    ensures Arrive(w, rs).Some? <==> indices + Indices(rs) == Below(|parts|)
    ensures Arrive(w, rs).Some? ==> rs != [] && Arrive(w, rs).value == Answer(FirstMeta(w, rs[0]), Concat(parts))
    decreases |rs|
  {
    hide Settles, Concat, Carries, Received, Taken, Below, Arrive, Indices;
    if rs == [] {
      NothingArrives(w);
      assert indices + {} == indices;
    } else {
      var r, rest := rs[0], rs[1..];
      assert rs == [r] + rest;
      OneResponse(w, parts, indices, r);
      IndicesHead(r, rest);
      ArriveHead(w, r, rest);
      var indices' := indices + {r.index};
      assert indices + Indices(rs) == indices' + Indices(rest);
      MetaStays(w, r, r);
      if indices' == Below(|parts|) {
        IndicesBelow(parts, rest);
        assert indices' + Indices(rest) == indices';
      } else {
        Reassembled(Taken(w, r), parts, indices', rest);
        if rest != [] {
          MetaStays(w, r, rest[0]);
        }
      }
    }
  }

  lemma NothingArrives(w: Waiter)
    ensures Arrive(w, []) == None && Indices([]) == {}
  {
  }

  lemma ArriveHead(w: Waiter, r: Response, rest: seq<Response>)
    ensures Arrive(w, [r] + rest) == if Settles(w, r).Some? then Settles(w, r) else Arrive(Taken(w, r), rest)
  {
    hide Settles;
    assert ([r] + rest)[1..] == rest;
  }

  lemma IndicesHead(r: Response, rest: seq<Response>)
    ensures Indices([r] + rest) == {r.index} + Indices(rest)
  {
    var all := [r] + rest;
    forall x | x in Indices(rest) ensures x in Indices(all) {
      var i :| 0 <= i < |rest| && rest[i].index == x;
      assert all[i + 1].index == x;
    }
    assert all[0].index == r.index;
    forall x | x in Indices(all) ensures x == r.index || x in Indices(rest) {
      var i :| 0 <= i < |all| && all[i].index == x;
      if i > 0 { assert rest[i - 1].index == x; }
    }
  }

  lemma IndicesBelow(parts: seq<string>, rs: seq<Response>)
    requires forall r :: r in rs ==> Carries(parts, r)
    ensures Indices(rs) <= Below(|parts|)
  {
    forall i | 0 <= i < |rs| ensures rs[i].index in Below(|parts|) {
      assert Carries(parts, rs[i]);
    }
  }

  /** The start of a call: nothing received. The answer has the first response's status and type. */
  lemma WholeAnswer(node: Node, parts: seq<string>, rs: seq<Response>)
    requires 0 < |parts| <= MAX_CHUNKS && |Concat(parts)| <= LIMIT
    requires forall r :: r in rs ==> Carries(parts, r)
    ensures var reply := Arrive(Waiter(node, map[], None), rs);
            if Indices(rs) == Below(|parts|) then rs != [] && reply == Some(Answer(rs[0].meta, Concat(parts))) else reply == None
  {
    hide Carries, Arrive, Concat;
    assert 0 in Below(|parts|);
    Reassembled(Waiter(node, map[], None), parts, {}, rs);
    assert {} + Indices(rs) == Indices(rs);
  }

  // ----- answers that are too large -----

  lemma {:induction false} SizeAll(chunks: map<nat, string>, parts: seq<string>, n: nat)
    requires chunks.Keys == Below(|parts|) && forall i :: i in chunks ==> chunks[i] == parts[i]
    ensures SizeTo(chunks, n) == |Concat(parts[..if n < |parts| then n else |parts|])|
  {
    if n > 0 {
      SizeAll(chunks, parts, n - 1);
      if n <= |parts| {
        assert n - 1 in Below(|parts|);
        PartsMore(parts, n);
      } else {
        assert n - 1 !in Below(|parts|);
      }
    }
  }

  lemma OneTooMuch(w: Waiter, parts: seq<string>, indices: set<nat>, r: Response)
    requires Received(w, parts, indices) && Carries(parts, r)
    requires |parts| <= MAX_CHUNKS && |Concat(parts)| > LIMIT
    ensures Received(Taken(w, r), parts, indices + {r.index})
    ensures Settles(w, r) == None || Settles(w, r) == Some(TooLarge)
    ensures indices + {r.index} == Below(|parts|) ==> Settles(w, r) == Some(TooLarge)
  {
    hide SizeTo, JoinTo, Concat, Below;
    var taken := Taken(w, r);
    assert taken.chunks.Keys == indices + {r.index};
    assert parts[..|parts|] == parts;
    FullWhenCounted(taken.chunks.Keys, |parts|);
    CountIsKeys(taken.chunks);
    if indices + {r.index} == Below(|parts|) {
      SizeAll(taken.chunks, parts, MAX_CHUNKS);
    }
  }

  /** An answer over the limit is never passed on: its call settles as too large, by the last chunk at the latest. */
  lemma {:induction false} TooLargeIsRefused(w: Waiter, parts: seq<string>, indices: set<nat>, rs: seq<Response>)
    requires Received(w, parts, indices) && indices != Below(|parts|)
    requires forall r :: r in rs ==> Carries(parts, r)
    requires |parts| <= MAX_CHUNKS && |Concat(parts)| > LIMIT
    ensures Arrive(w, rs) == None || Arrive(w, rs) == Some(TooLarge)
    ensures indices + Indices(rs) == Below(|parts|) ==> Arrive(w, rs) == Some(TooLarge)
    decreases |rs|
  {
    hide Settles, Concat, Carries, Received, Taken, Below, Arrive, Indices;
    if rs == [] {
      NothingArrives(w);
      assert indices + {} == indices;
    } else {
      var r, rest := rs[0], rs[1..];
      assert rs == [r] + rest;
      OneTooMuch(w, parts, indices, r);
      IndicesHead(r, rest);
      ArriveHead(w, r, rest);
      var indices' := indices + {r.index};
      assert indices + Indices(rs) == indices' + Indices(rest);
      if indices' != Below(|parts|) {
        TooLargeIsRefused(Taken(w, r), parts, indices', rest);
      }
    }
  }

  lemma HasParts(parts: seq<string>)
    requires |Concat(parts)| > LIMIT
    ensures parts != []
  {
  }

  /** From the start of a call, in any order and with any repeats. */
  lemma OversizedAnswer(node: Node, parts: seq<string>, rs: seq<Response>)
    requires |parts| <= MAX_CHUNKS && |Concat(parts)| > LIMIT
    requires forall r :: r in rs ==> Carries(parts, r)
    ensures var reply := Arrive(Waiter(node, map[], None), rs);
            (reply == None || reply == Some(TooLarge)) && (Indices(rs) == Below(|parts|) ==> reply == Some(TooLarge))
  {
    hide Carries, Arrive, Concat;
    HasParts(parts);
    assert 0 in Below(|parts|);
    TooLargeIsRefused(Waiter(node, map[], None), parts, {}, rs);
    assert {} + Indices(rs) == Indices(rs);
  }
}
