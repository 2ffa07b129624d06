/** The graph drawn beside a commit list, one lane for each line of history (packages/shared/src/git-graph.ts). */
module GitGraph {
  import opened Common

  type Sha = string

  datatype Commit = Commit(sha: Sha, parents: seq<Sha>)

  datatype Edge = Edge(from: nat, to: nat)

  datatype Row = Row(sha: Sha, lane: nat, through: seq<nat>, incoming: seq<nat>, outgoing: seq<Edge>, width: int)

  // ----- what the drawing must show -----

  /** No row strictly between `r` and `q` holds the commit `sha`. */
  ghost predicate NotYet(commits: seq<Commit>, sha: Sha, r: nat, q: nat) {
    forall x: nat :: r < x < q && x < |commits| ==> commits[x].sha != sha
  }

  /** Lane `i`, entered below row `r` towards `sha`, passes rows until that commit's row and ends there. */
  ghost predicate WireDown(rows: seq<Row>, commits: seq<Commit>, r: nat, i: nat, sha: Sha)
    requires |rows| <= |commits|
  {
    forall q: nat :: r < q < |rows| && NotYet(commits, sha, r, q) ==>
      if commits[q].sha == sha then i in rows[q].incoming else i in rows[q].through
  }

  /** Lane `i` above row `q` was opened by an edge of an earlier row to its parent `sha`, and passes every row since. */
  ghost predicate WireUp(rows: seq<Row>, commits: seq<Commit>, q: nat, i: nat, sha: Sha)
    requires |rows| <= |commits| && q <= |rows|
  {
    exists r: nat :: r < q && Opens(rows[r], commits[r], i, sha)
      && NotYet(commits, sha, r, q) && forall x: nat :: r < x < q ==> i in rows[x].through
  }

  ghost predicate Opens(row: Row, commit: Commit, i: nat, sha: Sha) {
    sha in commit.parents && Edge(row.lane, i) in row.outgoing
  }

  /** Every lane below `maxLanes` is in use below this row. */
  ghost predicate Full(row: Row, maxLanes: int) {
    forall i: nat :: i < maxLanes ==> i in row.through || Edge(row.lane, i) in row.outgoing
  }

  /** `kept` lists, in order, the parents of a commit that got an edge. */
  ghost predicate IsKept(kept: seq<nat>, commit: Commit) {
    && (forall k: nat :: k < |kept| ==> kept[k] < |commit.parents|)
    && (forall j: nat, k: nat :: j < k < |kept| ==> kept[j] < kept[k])
  }

  ghost predicate Ascending(lanes: seq<nat>) {
    forall j: nat, k: nat :: j < k < |lanes| ==> lanes[j] < lanes[k]
  }

  /** The lanes a row names. */
  ghost predicate Names(row: Row, i: nat) {
    i == row.lane || i in row.through || i in row.incoming || Edge(row.lane, i) in row.outgoing
  }

  /** An edge before the `k`th leads to lane `i`. */
  ghost predicate LedBefore(outgoing: seq<Edge>, k: nat, i: nat)
    requires k <= |outgoing|
  {
    exists h: nat :: h < k && outgoing[h].to == i
  }

  /**
   * Lanes are taken from the left: a commit no lane expects takes the first free one; its first parent goes on in the
   * commit's lane, and a further one takes the first free lane, unless a lane leads there already.
   */
  ghost predicate FromTheLeft(row: Row, kept: seq<nat>)
    requires |row.outgoing| == |kept|
  {
    && (row.incoming == [] ==> forall j: nat :: j < row.lane ==> j in row.through)
    && forall k: nat :: k < |kept| ==> EdgeFromTheLeft(row, kept, k)
  }

  ghost predicate EdgeFromTheLeft(row: Row, kept: seq<nat>, k: nat)
    requires k < |kept| == |row.outgoing|
  {
    var to := row.outgoing[k].to;
    || to in row.through || LedBefore(row.outgoing, k, to)
    || (if kept[k] == 0 then to == row.lane
        else forall j: nat :: j < to ==> j in row.through || LedBefore(row.outgoing, k, j))
  }

  /** What one row says by itself. */
  ghost predicate RowOk(row: Row, commit: Commit, kept: seq<nat>, maxLanes: int) {
    && row.sha == commit.sha
    && Ascending(row.through)
    && row.lane !in row.through
    && (row.incoming == [] || row.incoming == [row.lane])
    && IsKept(kept, commit) && |row.outgoing| == |kept|
    && (forall e :: e in row.outgoing ==> e.from == row.lane && e.to < maxLanes)
    && (forall i: nat :: Names(row, i) ==> i < row.width)
    && (exists i: nat :: Names(row, i) && i + 1 == row.width)
    && (|kept| < |commit.parents| ==> Full(row, maxLanes))
    && FromTheLeft(row, kept)
  }

  // ----- the lane array -----

  type Lanes = seq<Option<Sha>>

  /** No two lanes expect the same commit, and only lanes below the limit expect one. */
  ghost predicate Distinct(lanes: Lanes, maxLanes: int) {
    && (forall i: nat, j: nat :: i < j < |lanes| && lanes[i].Some? ==> lanes[i] != lanes[j])
    && (forall i: nat :: i < |lanes| && lanes[i].Some? ==> i < maxLanes)
  }

  /** Lane `i` expects `sha`. */
  predicate At(lanes: Lanes, i: nat, sha: Sha) {
    i < |lanes| && lanes[i] == Some(sha)
  }

  predicate Used(lanes: Lanes, i: nat) {
    i < |lanes| && lanes[i].Some?
  }

  /** `lanes.indexOf(value)`, as an index or the length when there is none. */
  method IndexOf(lanes: Lanes, value: Option<Sha>) returns (i: nat)
    ensures i <= |lanes| && value !in lanes[..i]
    ensures i < |lanes| ==> lanes[i] == value
  {
    i := 0;
    while i < |lanes| && lanes[i] != value
      invariant i <= |lanes| && value !in lanes[..i]
    {
      assert lanes[..i + 1] == lanes[..i] + [lanes[i]];
      i := i + 1;
    }
  }

  /** The first free lane, adding one at the end when there is none. */
  method FreeLane(lanes: Lanes) returns (lanes': Lanes, i: nat)
    ensures lanes <= lanes' && i < |lanes'| && lanes'[i] == None
    ensures forall j: nat :: j < i ==> Used(lanes, j)
    ensures forall j: nat :: Used(lanes', j) <==> Used(lanes, j)
    ensures forall j: nat, p :: At(lanes', j, p) <==> At(lanes, j, p)
    ensures forall j: nat :: |lanes| <= j < |lanes'| ==> lanes'[j] == None
  {
    i := IndexOf(lanes, None);
    lanes' := if i < |lanes| then lanes else lanes + [None];
    assert forall j: nat :: j < i ==> lanes[..i][j] == lanes[j];
  }

  /** The lanes expecting `sha`. */
  method Expecting(lanes: Lanes, sha: Sha) returns (found: seq<nat>)
    ensures forall i: nat :: i in found <==> At(lanes, i, sha)
    ensures Ascending(found)
  {
    found := [];
    for k := 0 to |lanes|
      invariant forall i: nat :: i in found <==> i < k && At(lanes, i, sha)
      invariant Ascending(found) && forall j: nat :: j < |found| ==> found[j] < k
    {
      if lanes[k] == Some(sha) {
        found := found + [k];
      }
    }
  }

  /** The lanes in use that lead elsewhere. */
  method Passing(lanes: Lanes, sha: Sha) returns (found: seq<nat>)
    ensures forall i: nat :: i in found <==> Used(lanes, i) && !At(lanes, i, sha)
    ensures Ascending(found)
  {
    found := [];
    for k := 0 to |lanes|
      invariant forall i: nat :: i in found <==> i < k && Used(lanes, i) && !At(lanes, i, sha)
      invariant Ascending(found) && forall j: nat :: j < |found| ==> found[j] < k
    {
      if lanes[k].Some? && lanes[k] != Some(sha) {
        found := found + [k];
      }
    }
  }

  /** `Math.max(0, ...lanes.map((i) => i + 1))` */
  function Widest(lanes: seq<nat>): (w: nat)
    ensures forall i: nat :: i in lanes ==> i < w
    ensures lanes == [] ==> w == 0
    ensures lanes != [] ==> w > 0 && w - 1 in lanes
  {
    if lanes == [] then 0
    else
      assert lanes == [lanes[0]] + lanes[1..];
      Max(lanes[0] + 1, Widest(lanes[1..]))
  }

  function Targets(edges: seq<Edge>): (ts: seq<nat>)
    ensures |ts| == |edges| && forall k: nat :: k < |edges| ==> ts[k] == edges[k].to
  {
    seq(|edges|, k requires 0 <= k < |edges| => edges[k].to)
  }

  /** The edge to one parent: joined to the lane already leading there, or opening one below the limit. */
  method PlaceParent(lanes0: Lanes, lane: nat, parent: Sha, first: bool, maxLanes: int) returns (lanes: Lanes, edge: Option<Edge>)
    requires Distinct(lanes0, maxLanes) && lane < |lanes0|
    requires first ==> lanes0[lane] == None && (lane < maxLanes || forall j: nat :: j < lane ==> Used(lanes0, j))
    ensures Distinct(lanes, maxLanes) && |lanes0| <= |lanes|
    ensures forall i: nat, p :: At(lanes0, i, p) ==> At(lanes, i, p)
    ensures forall i: nat, p :: At(lanes, i, p) ==> At(lanes0, i, p) || (edge == Some(Edge(lane, i)) && p == parent)
    ensures edge.Some? ==> edge.value.from == lane && At(lanes, edge.value.to, parent)
    ensures edge.None? ==> forall i: nat :: i < maxLanes ==> Used(lanes, i)
    ensures forall i: nat :: Used(lanes, i) <==> Used(lanes0, i) || (edge.Some? && edge.value.to == i)
    ensures edge.Some? ==> var to := edge.value.to;
              Used(lanes0, to) || (if first then to == lane else forall j: nat :: j < to ==> Used(lanes0, j))
  {
    lanes := lanes0;
    var existing := IndexOf(lanes, Some(parent));
    if existing < |lanes| {
      return lanes, Some(Edge(lane, existing));
    }
    assert forall i: nat :: i < |lanes| ==> lanes[..existing][i] == lanes[i];
    var target := lane;
    if !(first && lanes[lane] == None) {
      lanes, target := FreeLane(lanes);
    }
    if target >= maxLanes {
      return lanes, None;
    }
    lanes := lanes[target := Some(parent)];
    edge := Some(Edge(lane, target));
  }

  /** One edge per parent that can have one, in order. */
  method PlaceParents(lanes0: Lanes, lane: nat, parents: seq<Sha>, maxLanes: int)
    returns (lanes: Lanes, outgoing: seq<Edge>, ghost kept: seq<nat>)
    requires Distinct(lanes0, maxLanes) && lane < |lanes0| && lanes0[lane] == None
    requires lane < maxLanes || forall j: nat :: j < lane ==> Used(lanes0, j)
    ensures Distinct(lanes, maxLanes)
    ensures forall i: nat, p :: At(lanes0, i, p) ==> At(lanes, i, p)
    ensures forall i: nat, p :: At(lanes, i, p) ==> At(lanes0, i, p) || (p in parents && Edge(lane, i) in outgoing)
    ensures IsKept(kept, Commit("", parents)) && |outgoing| == |kept|
    ensures forall k: nat :: k < |kept| ==> outgoing[k].from == lane && At(lanes, outgoing[k].to, parents[kept[k]])
    ensures |kept| < |parents| ==> forall i: nat :: i < maxLanes ==> Used(lanes, i)
    ensures forall k: nat :: k < |kept| ==> PlacedRight(lanes0, lane, outgoing, kept, k)
  {
    lanes, outgoing, kept := lanes0, [], [];
    for index := 0 to |parents|
      invariant Distinct(lanes, maxLanes) && |lanes0| <= |lanes| && (index == 0 ==> lanes == lanes0)
      invariant forall i: nat, p :: At(lanes0, i, p) ==> At(lanes, i, p)
      invariant forall i: nat, p :: At(lanes, i, p) ==> At(lanes0, i, p) || (p in parents && Edge(lane, i) in outgoing)
      invariant IsKept(kept, Commit("", parents)) && |outgoing| == |kept| <= index
      invariant forall k: nat :: k < |kept| ==> kept[k] < index
      invariant forall k: nat :: k < |kept| ==> outgoing[k].from == lane && At(lanes, outgoing[k].to, parents[kept[k]])
      invariant |kept| < index ==> forall i: nat :: i < maxLanes ==> Used(lanes, i)
      invariant forall i: nat :: Used(lanes, i) <==> Used(lanes0, i) || LedBefore(outgoing, |outgoing|, i)
      invariant forall k: nat :: k < |kept| ==> PlacedRight(lanes0, lane, outgoing, kept, k)
    {
      ghost var before, earlier, held := lanes, outgoing, kept;
      var edge;
      lanes, edge := PlaceParent(lanes, lane, parents[index], index == 0, maxLanes);
      if |kept| < index {
        forall i: nat | i < maxLanes ensures Used(lanes, i) {
          assert Used(before, i) && At(before, i, before[i].value);
        }
      }
      if edge.Some? {
        outgoing, kept := outgoing + [edge.value], kept + [index];
        OneMoreEdge(lanes0, lane, before, earlier, held, edge.value, index);
      }
    }
  }

  /** One edge, by the lanes in use before the commit's first. */
  ghost predicate PlacedRight(lanes0: Lanes, lane: nat, outgoing: seq<Edge>, kept: seq<nat>, k: nat)
    requires k < |kept| == |outgoing|
  {
    var to := outgoing[k].to;
    || Used(lanes0, to) || LedBefore(outgoing, k, to)
    || (if kept[k] == 0 then to == lane else forall j: nat :: j < to ==> Used(lanes0, j) || LedBefore(outgoing, k, j))
  }

  lemma OneMoreEdge(lanes0: Lanes, lane: nat, before: Lanes, outgoing: seq<Edge>, kept: seq<nat>, e: Edge, index: nat)
    requires |kept| == |outgoing| && forall k: nat :: k < |kept| ==> PlacedRight(lanes0, lane, outgoing, kept, k)
    requires forall i: nat :: Used(before, i) <==> Used(lanes0, i) || LedBefore(outgoing, |outgoing|, i)
    requires Used(before, e.to) || (if index == 0 then e.to == lane else forall j: nat :: j < e.to ==> Used(before, j))
    ensures forall k: nat :: k < |kept| + 1 ==> PlacedRight(lanes0, lane, outgoing + [e], kept + [index], k)
    ensures forall i: nat :: LedBefore(outgoing + [e], |outgoing| + 1, i) <==> LedBefore(outgoing, |outgoing|, i) || e.to == i
  {
    hide Used;
    var outgoing', kept' := outgoing + [e], kept + [index];
    forall k: nat, i: nat | k <= |outgoing| ensures LedBefore(outgoing', k, i) <==> LedBefore(outgoing, k, i) {
      if LedBefore(outgoing, k, i) {
        var h: nat :| h < k && outgoing[h].to == i;
        assert outgoing'[h].to == i;
      }
      if LedBefore(outgoing', k, i) {
        var h: nat :| h < k && outgoing'[h].to == i;
        assert outgoing[h].to == i;
      }
    }
    forall k: nat | k < |kept| ensures PlacedRight(lanes0, lane, outgoing', kept', k) {
      assert PlacedRight(lanes0, lane, outgoing, kept, k);
    }
    forall i: nat ensures LedBefore(outgoing', |outgoing| + 1, i) <==> LedBefore(outgoing, |outgoing|, i) || e.to == i {
      assert outgoing'[|outgoing|] == e;
      if LedBefore(outgoing, |outgoing|, i) {
        var h: nat :| h < |outgoing| && outgoing[h].to == i;
        assert outgoing'[h].to == i;
      }
      if LedBefore(outgoing', |outgoing| + 1, i) {
        var h: nat :| h < |outgoing| + 1 && outgoing'[h].to == i;
        if h < |outgoing| { assert outgoing[h].to == i; }
      }
    }
  }

  /** The node's lane: the one expecting it or a free one. Every lane that expected it ends here. */
  method TakeLane(lanes0: Lanes, sha: Sha, maxLanes: int) returns (lanes: Lanes, lane: nat, expecting: seq<nat>)
    requires Distinct(lanes0, maxLanes)
    ensures Distinct(lanes, maxLanes) && lane < |lanes| && lanes[lane] == None
    ensures lane < maxLanes || forall j: nat :: j < lane ==> Used(lanes, j)
    ensures expecting == [] || expecting == [lane]
    ensures expecting == [] ==> forall j: nat :: j < lane ==> Used(lanes0, j)
    ensures forall i: nat :: i in expecting <==> At(lanes0, i, sha)
    ensures forall i: nat, p :: At(lanes, i, p) <==> At(lanes0, i, p) && p != sha
  {
    lanes := lanes0;
    expecting := Expecting(lanes, sha);
    assert expecting != [] ==> At(lanes0, expecting[0], sha) && At(lanes0, expecting[|expecting| - 1], sha);
    if expecting != [] {
      lane := expecting[0];
      assert lane in expecting;
      lanes := lanes[lane := None];
      assert forall i: nat :: At(lanes0, i, sha) ==> i in expecting && i == lane;
    } else {
      assert forall i: nat :: At(lanes0, i, sha) ==> i in expecting;
      lanes, lane := FreeLane(lanes);
    }
  }

  /** Drop the free lanes at the end. */
  method Trim(lanes0: Lanes, maxLanes: int) returns (lanes: Lanes)
    requires Distinct(lanes0, maxLanes)
    ensures Distinct(lanes, maxLanes) && (lanes == [] || Used(lanes, |lanes| - 1))
    ensures forall i: nat, p :: At(lanes, i, p) <==> At(lanes0, i, p)
  {
    lanes := lanes0;
    while |lanes| > 0 && lanes[|lanes| - 1] == None
      invariant forall i: nat, p :: At(lanes, i, p) <==> At(lanes0, i, p)
      invariant Distinct(lanes, maxLanes)
    {
      lanes := lanes[..|lanes| - 1];
    }
  }

  /** The width of a row: the lanes it names and those below it. */
  method Width(lane: nat, through: seq<nat>, outgoing: seq<Edge>, below: nat) returns (width: nat)
    ensures lane < width && below <= width
    ensures forall i: nat :: i in through ==> i < width
    ensures forall e :: e in outgoing ==> e.to < width
    ensures || width == lane + 1 || width == below || (exists i :: i in through && i + 1 == width)
            || (exists e :: e in outgoing && e.to + 1 == width)
  {
    var targets := Targets(outgoing);
    assert forall e :: e in outgoing ==> e.to in targets;
    width := Max(Max(lane + 1, Widest(through)), Max(Max(Widest(targets), below), 1));
    if width == Widest(targets) && targets != [] {
      var k :| 0 <= k < |targets| && targets[k] == width - 1;
      assert outgoing[k] in outgoing;
    }
  }

  /** What laying out one commit does to the lanes. */
  ghost predicate Passes(lanes0: Lanes, lanes: Lanes, row: Row, commit: Commit) {
    && (forall i: nat :: i in row.incoming <==> At(lanes0, i, commit.sha))
    && (forall i: nat :: i in row.through <==> Used(lanes0, i) && !At(lanes0, i, commit.sha))
    && (forall i: nat, p :: At(lanes0, i, p) && p != commit.sha ==> At(lanes, i, p))
    && (forall i: nat, p :: At(lanes, i, p) ==> (At(lanes0, i, p) && p != commit.sha) || Opens(row, commit, i, p))
  }

  /** Lay out one commit: its row, the lanes below it, and which parents got an edge. */
  method PlaceCommit(lanes0: Lanes, commit: Commit, maxLanes: int) returns (lanes: Lanes, row: Row, ghost kept: seq<nat>)
    requires Distinct(lanes0, maxLanes)
    ensures Distinct(lanes, maxLanes)
    ensures RowOk(row, commit, kept, maxLanes)
    ensures Passes(lanes0, lanes, row, commit)
    ensures forall k: nat :: k < |kept| ==> At(lanes, row.outgoing[k].to, commit.parents[kept[k]])
  {
    var through := Passing(lanes0, commit.sha);
    var cleared, lane, incoming := TakeLane(lanes0, commit.sha, maxLanes);
    var placed, outgoing;
    placed, outgoing, kept := PlaceParents(cleared, lane, commit.parents, maxLanes);
    lanes := Trim(placed, maxLanes);
    var width := Width(lane, through, outgoing, |lanes|);
    row := Row(commit.sha, lane, through, incoming, outgoing, width);
    LanesBelow(lanes0, cleared, placed, lanes, row, commit);
    assert lane in through ==> At(cleared, lane, lanes0[lane].value);
    PlacedFromTheLeft(lanes0, cleared, row, kept, commit);
    EdgesBelowLimit(placed, lane, outgoing, kept, commit, maxLanes);
    WidthIsExact(row, lanes);
  }

  lemma PlacedFromTheLeft(lanes0: Lanes, cleared: Lanes, row: Row, kept: seq<nat>, commit: Commit)
    requires forall i: nat :: i in row.through <==> Used(lanes0, i) && !At(lanes0, i, commit.sha)
    requires forall i: nat, p :: At(cleared, i, p) <==> At(lanes0, i, p) && p != commit.sha
    requires forall i: nat :: i in row.incoming <==> At(lanes0, i, commit.sha)
    requires row.incoming == [] ==> forall j: nat :: j < row.lane ==> Used(lanes0, j)
    requires |row.outgoing| == |kept| && forall k: nat :: k < |kept| ==> PlacedRight(cleared, row.lane, row.outgoing, kept, k)
    ensures FromTheLeft(row, kept)
  {
    hide LedBefore;
    forall i: nat ensures Used(cleared, i) <==> i in row.through {
      assert Used(cleared, i) ==> At(cleared, i, cleared[i].value);
      assert Used(lanes0, i) ==> At(lanes0, i, lanes0[i].value);
    }
    forall j: nat | row.incoming == [] && j < row.lane ensures j in row.through {
      assert j !in row.incoming;
    }
    forall k: nat | k < |kept| ensures EdgeFromTheLeft(row, kept, k) {
      assert PlacedRight(cleared, row.lane, row.outgoing, kept, k);
    }
  }

  lemma EdgesBelowLimit(lanes: Lanes, lane: nat, outgoing: seq<Edge>, kept: seq<nat>, commit: Commit, maxLanes: int)
    requires Distinct(lanes, maxLanes) && IsKept(kept, commit) && |outgoing| == |kept|
    requires forall k: nat :: k < |kept| ==> outgoing[k].from == lane && At(lanes, outgoing[k].to, commit.parents[kept[k]])
    ensures forall e :: e in outgoing ==> e.from == lane && e.to < maxLanes
  {
    forall e | e in outgoing ensures e.from == lane && e.to < maxLanes {
      var k :| 0 <= k < |outgoing| && outgoing[k] == e;
      assert At(lanes, outgoing[k].to, commit.parents[kept[k]]);
    }
  }

  lemma WidthIsExact(row: Row, lanes: Lanes)
    requires row.lane < row.width && |lanes| <= row.width && (row.incoming == [] || row.incoming == [row.lane])
    requires forall i: nat :: i in row.through ==> i < row.width
    requires forall e :: e in row.outgoing ==> e.from == row.lane && e.to < row.width
    requires || row.width == row.lane + 1 || row.width == |lanes| || (exists i :: i in row.through && i + 1 == row.width)
             || (exists e :: e in row.outgoing && e.to + 1 == row.width)
    requires lanes == [] || Used(lanes, |lanes| - 1)
    requires forall i: nat :: Used(lanes, i) ==> i in row.through || Edge(row.lane, i) in row.outgoing
    ensures forall i: nat :: Names(row, i) ==> i < row.width
    ensures exists i: nat :: Names(row, i) && i + 1 == row.width
  {
    assert Names(row, row.lane);
    if exists i :: i in row.through && i + 1 == row.width {
      var i :| i in row.through && i + 1 == row.width;
      assert Names(row, i);
    } else if exists e :: e in row.outgoing && e.to + 1 == row.width {
      var e :| e in row.outgoing && e.to + 1 == row.width;
      assert e == Edge(row.lane, e.to) && Names(row, e.to);
    } else if row.width == |lanes| {
      assert Names(row, |lanes| - 1);
    }
  }

  /** A lane in use below a row passed through it or starts in it. */
  lemma LanesBelow(lanes0: Lanes, cleared: Lanes, placed: Lanes, lanes: Lanes, row: Row, commit: Commit)
    requires forall i: nat :: i in row.through <==> Used(lanes0, i) && !At(lanes0, i, commit.sha)
    requires forall i: nat, p :: At(cleared, i, p) <==> At(lanes0, i, p) && p != commit.sha
    requires forall i: nat, p :: At(placed, i, p) ==> At(cleared, i, p) || (p in commit.parents && Edge(row.lane, i) in row.outgoing)
    requires forall i: nat, p :: At(lanes, i, p) <==> At(placed, i, p)
    ensures forall i: nat :: Used(placed, i) || Used(lanes, i) ==> i in row.through || Edge(row.lane, i) in row.outgoing
  {
    forall i: nat | Used(placed, i) || Used(lanes, i) ensures i in row.through || Edge(row.lane, i) in row.outgoing {
      var p := if Used(placed, i) then placed[i].value else lanes[i].value;
      assert At(placed, i, p) || At(lanes, i, p);
    }
  }

  // ----- the whole page -----

  /** Each edge of each row belongs to a listed parent. */
  ghost predicate Parallel(rows: seq<Row>, commits: seq<Commit>, keeps: seq<seq<nat>>) {
    && |rows| == |keeps| <= |commits|
    && (forall r: nat :: r < |rows| ==> |rows[r].outgoing| == |keeps[r]|)
    && (forall r: nat, k: nat :: r < |rows| && k < |keeps[r]| ==> keeps[r][k] < |commits[r].parents|)
  }

  ghost function KeptParent(commits: seq<Commit>, keeps: seq<seq<nat>>, r: nat, k: nat): Sha
    requires r < |keeps| <= |commits| && k < |keeps[r]| && keeps[r][k] < |commits[r].parents|
  {
    commits[r].parents[keeps[r][k]]
  }

  ghost predicate RowsOk(rows: seq<Row>, commits: seq<Commit>, keeps: seq<seq<nat>>, maxLanes: int)
    requires |rows| == |keeps| <= |commits|
  {
    forall r: nat :: r < |rows| ==> RowOk(rows[r], commits[r], keeps[r], maxLanes)
  }

  /** Each edge drawn leads down its lane to its parent. */
  ghost predicate EdgesLeadDown(rows: seq<Row>, commits: seq<Commit>, keeps: seq<seq<nat>>)
    requires Parallel(rows, commits, keeps)
  {
    forall r: nat, k: nat :: r < |rows| && k < |keeps[r]| ==>
      WireDown(rows, commits, r, rows[r].outgoing[k].to, KeptParent(commits, keeps, r, k))
  }

  /** Each lane drawn in a row leads up to the edge that opened it, and leads on to a real parent. */
  ghost predicate LanesLeadUp(rows: seq<Row>, commits: seq<Commit>)
    requires |rows| <= |commits|
  {
    && (forall q: nat, i: nat :: q < |rows| && i in rows[q].incoming ==> WireUp(rows, commits, q, i, commits[q].sha))
    && (forall q: nat, i: nat :: q < |rows| && i in rows[q].through ==>
          exists p :: p != commits[q].sha && WireUp(rows, commits, q, i, p))
  }

  ghost predicate Drawn(rows: seq<Row>, commits: seq<Commit>, keeps: seq<seq<nat>>, maxLanes: int) {
    && Parallel(rows, commits, keeps)
    && RowsOk(rows, commits, keeps, maxLanes)
    && EdgesLeadDown(rows, commits, keeps)
    && LanesLeadUp(rows, commits)
  }

  /** Every lane in use after the rows so far was opened by an edge to what it expects. */
  ghost predicate LanesOpened(lanes: Lanes, rows: seq<Row>, commits: seq<Commit>)
    requires |rows| <= |commits|
  {
    forall i: nat, p :: At(lanes, i, p) ==> WireUp(rows, commits, |rows|, i, p)
  }

  /** Every edge whose parent has not come yet still has its lane. */
  ghost predicate EdgesPending(lanes: Lanes, rows: seq<Row>, commits: seq<Commit>, keeps: seq<seq<nat>>)
    requires Parallel(rows, commits, keeps)
  {
    forall r: nat, k: nat :: r < |rows| && k < |keeps[r]| && NotYet(commits, KeptParent(commits, keeps, r, k), r, |rows|) ==>
      At(lanes, rows[r].outgoing[k].to, KeptParent(commits, keeps, r, k))
  }

  lemma WireUpStays(rows: seq<Row>, row: Row, commits: seq<Commit>, q: nat, i: nat, p: Sha)
    requires |rows| < |commits| && q <= |rows| && WireUp(rows, commits, q, i, p)
    ensures WireUp(rows + [row], commits, q, i, p)
  {
    var r: nat :| r < q && Opens(rows[r], commits[r], i, p)
      && NotYet(commits, p, r, q) && forall x: nat :: r < x < q ==> i in rows[x].through;
    assert Opens((rows + [row])[r], commits[r], i, p);
    assert forall x: nat :: r < x < q ==> (rows + [row])[x] == rows[x];
  }

  lemma WireUpOneMore(rows: seq<Row>, row: Row, commits: seq<Commit>, i: nat, p: Sha)
    requires |rows| < |commits| && WireUp(rows, commits, |rows|, i, p)
    requires i in row.through && p != commits[|rows|].sha
    ensures WireUp(rows + [row], commits, |rows| + 1, i, p)
  {
    var n := |rows|;
    var r: nat :| r < n && Opens(rows[r], commits[r], i, p)
      && NotYet(commits, p, r, n) && forall x: nat :: r < x < n ==> i in rows[x].through;
    assert Opens((rows + [row])[r], commits[r], i, p);
    assert NotYet(commits, p, r, n + 1);
    assert forall x: nat :: r < x < n + 1 ==> i in (rows + [row])[x].through;
  }

  lemma LanesOpenedKept(lanes0: Lanes, lanes: Lanes, rows: seq<Row>, row: Row, commits: seq<Commit>)
    requires |rows| < |commits| && LanesOpened(lanes0, rows, commits)
    requires Passes(lanes0, lanes, row, commits[|rows|])
    ensures LanesOpened(lanes, rows + [row], commits)
  {
    var n, rows' := |rows|, rows + [row];
    forall i: nat, p | At(lanes, i, p) ensures WireUp(rows', commits, n + 1, i, p) {
      if At(lanes0, i, p) && p != commits[n].sha {
        assert Used(lanes0, i);
        WireUpOneMore(rows, row, commits, i, p);
      } else {
        assert Opens(rows'[n], commits[n], i, p) && NotYet(commits, p, n, n + 1);
      }
    }
  }

  lemma LanesLeadUpKept(lanes0: Lanes, lanes: Lanes, rows: seq<Row>, row: Row, commits: seq<Commit>)
    requires |rows| < |commits| && LanesOpened(lanes0, rows, commits) && LanesLeadUp(rows, commits)
    requires Passes(lanes0, lanes, row, commits[|rows|])
    ensures LanesLeadUp(rows + [row], commits)
  {
    var n, rows' := |rows|, rows + [row];
    forall q: nat, i: nat | q < n + 1 && i in rows'[q].incoming ensures WireUp(rows', commits, q, i, commits[q].sha) {
      assert WireUp(rows, commits, q, i, commits[q].sha);
      WireUpStays(rows, row, commits, q, i, commits[q].sha);
    }
    forall q: nat, i: nat | q < n + 1 && i in rows'[q].through ensures exists p :: p != commits[q].sha && WireUp(rows', commits, q, i, p) {
      assert q == n ==> At(lanes0, i, lanes0[i].value);
      var p :| p != commits[q].sha && WireUp(rows, commits, q, i, p);
      WireUpStays(rows, row, commits, q, i, p);
    }
  }

  lemma ParallelKept(rows: seq<Row>, row: Row, commits: seq<Commit>, keeps: seq<seq<nat>>, kept: seq<nat>)
    requires |rows| < |commits| && Parallel(rows, commits, keeps)
    requires |row.outgoing| == |kept| && forall k: nat :: k < |kept| ==> kept[k] < |commits[|rows|].parents|
    ensures Parallel(rows + [row], commits, keeps + [kept])
    ensures forall r: nat, k: nat :: r < |rows| && k < |keeps[r]| ==>
              KeptParent(commits, keeps + [kept], r, k) == KeptParent(commits, keeps, r, k)
  {
  }

  lemma EdgesPendingKept(lanes0: Lanes, lanes: Lanes, rows: seq<Row>, row: Row, commits: seq<Commit>, keeps: seq<seq<nat>>, kept: seq<nat>)
    requires |rows| < |commits| && Parallel(rows, commits, keeps) && EdgesPending(lanes0, rows, commits, keeps)
    requires Passes(lanes0, lanes, row, commits[|rows|])
    requires |row.outgoing| == |kept| && forall k: nat :: k < |kept| ==> kept[k] < |commits[|rows|].parents|
    requires forall k: nat :: k < |kept| ==> At(lanes, row.outgoing[k].to, commits[|rows|].parents[kept[k]])
    ensures Parallel(rows + [row], commits, keeps + [kept])
    ensures EdgesPending(lanes, rows + [row], commits, keeps + [kept])
  {
    var n, rows', keeps' := |rows|, rows + [row], keeps + [kept];
    ParallelKept(rows, row, commits, keeps, kept);
    forall r: nat, k: nat | r < n + 1 && k < |keeps'[r]| && NotYet(commits, KeptParent(commits, keeps', r, k), r, n + 1)
      ensures At(lanes, rows'[r].outgoing[k].to, KeptParent(commits, keeps', r, k))
    {
      if r < n {
        var p := KeptParent(commits, keeps, r, k);
        assert NotYet(commits, p, r, n) && commits[n].sha != p;
        assert At(lanes0, rows[r].outgoing[k].to, p);
      }
    }
  }

  lemma EdgesLeadDownKept(lanes0: Lanes, lanes: Lanes, rows: seq<Row>, row: Row, commits: seq<Commit>, keeps: seq<seq<nat>>, kept: seq<nat>)
    requires |rows| < |commits| && Parallel(rows, commits, keeps)
    requires EdgesPending(lanes0, rows, commits, keeps) && EdgesLeadDown(rows, commits, keeps)
    requires Passes(lanes0, lanes, row, commits[|rows|])
    requires Parallel(rows + [row], commits, keeps + [kept])
    ensures EdgesLeadDown(rows + [row], commits, keeps + [kept])
  {
    var n, rows', keeps' := |rows|, rows + [row], keeps + [kept];
    forall r: nat, k: nat | r < n + 1 && k < |keeps'[r]|
      ensures WireDown(rows', commits, r, rows'[r].outgoing[k].to, KeptParent(commits, keeps', r, k))
    {
      if r < n {
        var i, p := rows[r].outgoing[k].to, KeptParent(commits, keeps, r, k);
        assert WireDown(rows, commits, r, i, p);
        assert NotYet(commits, p, r, n) ==> At(lanes0, i, p) && Used(lanes0, i);
        WireDownOneMore(lanes0, lanes, rows, row, commits, r, i, p);
      }
    }
  }

  lemma WireDownOneMore(lanes0: Lanes, lanes: Lanes, rows: seq<Row>, row: Row, commits: seq<Commit>, r: nat, i: nat, p: Sha)
    requires |rows| < |commits| && WireDown(rows, commits, r, i, p)
    requires Passes(lanes0, lanes, row, commits[|rows|])
    requires NotYet(commits, p, r, |rows|) ==> At(lanes0, i, p)
    ensures WireDown(rows + [row], commits, r, i, p)
  {
    var rows' := rows + [row];
    forall q: nat | r < q < |rows'| && NotYet(commits, p, r, q)
      ensures if commits[q].sha == p then i in rows'[q].incoming else i in rows'[q].through
    {
      if q == |rows| {
        assert Used(lanes0, i) && rows'[q] == row;
      } else {
        assert rows'[q] == rows[q];
      }
    }
  }

  /** Lay out a page of commits, newest first. */
  method LayoutGraph(commits: seq<Commit>, maxLanes: int) returns (rows: seq<Row>, ghost keeps: seq<seq<nat>>)
    ensures |rows| == |commits| && Drawn(rows, commits, keeps, maxLanes)
  {
    var lanes: Lanes := [];
    rows, keeps := [], [];
    for n := 0 to |commits|
      invariant |rows| == n && Distinct(lanes, maxLanes)
      invariant Drawn(rows, commits, keeps, maxLanes)
      invariant LanesOpened(lanes, rows, commits) && EdgesPending(lanes, rows, commits, keeps)
    {
      ghost var before := lanes;
      var row;
      ghost var kept;
      lanes, row, kept := PlaceCommit(lanes, commits[n], maxLanes);
      OneMoreRow(before, lanes, rows, row, commits, keeps, kept, maxLanes);
      rows, keeps := rows + [row], keeps + [kept];
    }
  }

  lemma OneMoreRow(lanes0: Lanes, lanes: Lanes, rows: seq<Row>, row: Row, commits: seq<Commit>, keeps: seq<seq<nat>>, kept: seq<nat>, maxLanes: int)
    requires |rows| < |commits| && Drawn(rows, commits, keeps, maxLanes)
    requires LanesOpened(lanes0, rows, commits) && EdgesPending(lanes0, rows, commits, keeps)
    requires Passes(lanes0, lanes, row, commits[|rows|]) && RowOk(row, commits[|rows|], kept, maxLanes)
    requires forall k: nat :: k < |kept| ==> At(lanes, row.outgoing[k].to, commits[|rows|].parents[kept[k]])
    ensures Drawn(rows + [row], commits, keeps + [kept], maxLanes)
    ensures LanesOpened(lanes, rows + [row], commits) && EdgesPending(lanes, rows + [row], commits, keeps + [kept])
  {
    ParallelKept(rows, row, commits, keeps, kept);
    LanesOpenedKept(lanes0, lanes, rows, row, commits);
    LanesLeadUpKept(lanes0, lanes, rows, row, commits);
    EdgesPendingKept(lanes0, lanes, rows, row, commits, keeps, kept);
    EdgesLeadDownKept(lanes0, lanes, rows, row, commits, keeps, kept);
  }

  // ----- the picture is the parent relation -----

  /** Following the drawn lanes down from row `r` arrives at row `q`. */
  ghost predicate Connects(rows: seq<Row>, r: nat, q: nat)
    requires r < q < |rows|
  {
    exists i: nat :: Edge(rows[r].lane, i) in rows[r].outgoing && i in rows[q].incoming
      && forall x: nat :: r < x < q ==> i in rows[x].through
  }

  /**
   * With no commit listed twice, a lower row is connected to a row exactly when it holds one of its
   * parents that got an edge; and every parent gets one unless all the lanes were taken.
   */
  lemma DrawnIsParentRelation(rows: seq<Row>, commits: seq<Commit>, keeps: seq<seq<nat>>, maxLanes: int, r: nat, q: nat)
    requires |rows| == |commits| && Drawn(rows, commits, keeps, maxLanes) && r < q < |rows|
    requires forall x: nat, y: nat :: x < y < |commits| ==> commits[x].sha != commits[y].sha
    ensures Connects(rows, r, q) <==> exists k: nat :: k < |keeps[r]| && KeptParent(commits, keeps, r, k) == commits[q].sha
    ensures Connects(rows, r, q) ==> commits[q].sha in commits[r].parents
    ensures commits[q].sha in commits[r].parents ==> Connects(rows, r, q) || Full(rows[r], maxLanes)
  {
    assert RowOk(rows[r], commits[r], keeps[r], maxLanes);
    if Connects(rows, r, q) {
      ConnectedToParent(rows, commits, keeps, maxLanes, r, q);
    }
    forall k: nat | k < |keeps[r]| && KeptParent(commits, keeps, r, k) == commits[q].sha ensures Connects(rows, r, q) {
      EdgeConnects(rows, commits, keeps, r, q, k);
    }
    if commits[q].sha in commits[r].parents && !Full(rows[r], maxLanes) {
      NoMoreThanAll(keeps[r], commits[r]);
      var k :| 0 <= k < |commits[r].parents| && commits[r].parents[k] == commits[q].sha;
      AllKept(keeps[r], commits[r], k);
      assert KeptParent(commits, keeps, r, k) == commits[q].sha;
    }
  }

  lemma EdgeConnects(rows: seq<Row>, commits: seq<Commit>, keeps: seq<seq<nat>>, r: nat, q: nat, k: nat)
    requires |rows| == |commits| && Parallel(rows, commits, keeps) && EdgesLeadDown(rows, commits, keeps) && r < q < |rows|
    requires forall x: nat, y: nat :: x < y < |commits| ==> commits[x].sha != commits[y].sha
    requires k < |keeps[r]| && KeptParent(commits, keeps, r, k) == commits[q].sha && rows[r].outgoing[k].from == rows[r].lane
    ensures Connects(rows, r, q)
  {
    var i := rows[r].outgoing[k].to;
    assert rows[r].outgoing[k] == Edge(rows[r].lane, i);
    assert WireDown(rows, commits, r, i, commits[q].sha);
    assert forall x: nat :: r < x <= q ==> NotYet(commits, commits[q].sha, r, x);
  }

  lemma ConnectedToParent(rows: seq<Row>, commits: seq<Commit>, keeps: seq<seq<nat>>, maxLanes: int, r: nat, q: nat)
    requires |rows| == |commits| && Parallel(rows, commits, keeps) && RowsOk(rows, commits, keeps, maxLanes)
    requires EdgesLeadDown(rows, commits, keeps) && r < q < |rows| && Connects(rows, r, q)
    ensures exists k: nat :: k < |keeps[r]| && KeptParent(commits, keeps, r, k) == commits[q].sha
  {
    var i: nat :| Edge(rows[r].lane, i) in rows[r].outgoing && i in rows[q].incoming
      && forall x: nat :: r < x < q ==> i in rows[x].through;
    var k :| 0 <= k < |rows[r].outgoing| && rows[r].outgoing[k] == Edge(rows[r].lane, i);
    WireEndsAtParent(rows, commits, keeps, maxLanes, r, q, k);
  }

  lemma WireEndsAtParent(rows: seq<Row>, commits: seq<Commit>, keeps: seq<seq<nat>>, maxLanes: int, r: nat, q: nat, k: nat)
    requires |rows| == |commits| && Parallel(rows, commits, keeps) && RowsOk(rows, commits, keeps, maxLanes)
    requires EdgesLeadDown(rows, commits, keeps) && r < q < |rows|
    requires k < |keeps[r]| && rows[r].outgoing[k].to in rows[q].incoming
    requires forall x: nat :: r < x < q ==> rows[r].outgoing[k].to in rows[x].through
    ensures KeptParent(commits, keeps, r, k) == commits[q].sha
  {
    var i, p := rows[r].outgoing[k].to, KeptParent(commits, keeps, r, k);
    assert WireDown(rows, commits, r, i, p);
    NotPassedYet(rows, commits, keeps, maxLanes, r, q, i, p);
    assert RowOk(rows[q], commits[q], keeps[q], maxLanes);
  }

  /** A row the lane only passes through does not hold the commit the lane leads to. */
  lemma {:induction false} NotPassedYet(rows: seq<Row>, commits: seq<Commit>, keeps: seq<seq<nat>>, maxLanes: int, r: nat, y: nat, i: nat, p: Sha)
    requires |rows| == |commits| == |keeps| && RowsOk(rows, commits, keeps, maxLanes) && r < y < |rows|
    requires WireDown(rows, commits, r, i, p)
    requires forall x: nat :: r < x < y ==> i in rows[x].through
    ensures NotYet(commits, p, r, y)
    decreases y
  {
    if r + 1 < y {
      NotPassedYet(rows, commits, keeps, maxLanes, r, y - 1, i, p);
      assert RowOk(rows[y - 1], commits[y - 1], keeps[y - 1], maxLanes);
    }
  }

  lemma AllKept(kept: seq<nat>, commit: Commit, k: nat)
    requires IsKept(kept, commit) && |kept| == |commit.parents| && k < |kept|
    ensures kept[k] == k
  {
    AtLeast(kept, commit, k);
    AtMost(kept, commit, k);
  }

  lemma NoMoreThanAll(kept: seq<nat>, commit: Commit)
    requires IsKept(kept, commit)
    ensures |kept| <= |commit.parents|
  {
    if |kept| > 0 {
      AtLeast(kept, commit, |kept| - 1);
    }
  }

  lemma {:induction false} AtLeast(kept: seq<nat>, commit: Commit, k: nat)
    requires IsKept(kept, commit) && k < |kept|
    ensures k <= kept[k]
  {
    if k > 0 {
      AtLeast(kept, commit, k - 1);
    }
  }

  lemma {:induction false} AtMost(kept: seq<nat>, commit: Commit, k: nat)
    requires IsKept(kept, commit) && |kept| == |commit.parents| && k < |kept|
    ensures kept[k] <= k
    decreases |kept| - k
  {
    if k + 1 < |kept| {
      AtMost(kept, commit, k + 1);
    }
  }
}
