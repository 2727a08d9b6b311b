/** The search loop of crates/world/src/pathfinding.rs. */
module Pathfinding {
  import opened World
  import opened PathCost
  import opened NodeTable

  // ---------------------------------------------------------------------
  // What the search has settled
  // ---------------------------------------------------------------------

  /** The direction a node was entered from, `None` for the start. */
  function EntryOf(nodes: seq<Node>, i: nat): Option<Direction>
    requires i < |nodes|
  {
    if nodes[i].parent >= |nodes| then None
    else
      var p := nodes[nodes[i].parent];
      Some(DirectionOf(nodes[i].x - p.x, nodes[i].y - p.y))
  }

  /** The neighbour of node `i` at offset `d` needs no more work: it lies off the map, was reported blocked when the
      search asked from there, lies outside the window, or is in the table at a `g` no better path through `i` beats. */
  ghost predicate EdgeSettled(pb: Problem, nodes: seq<Node>, table: map<(uint16, uint16), nat>, trace: seq<Query>,
                              i: nat, d: (int, int))
    requires i < |nodes|
  {
    var nx, ny := nodes[i].x + d.0, nodes[i].y + d.1;
    || !(0 <= nx < 0x1_0000) || !(0 <= ny < 0x1_0000)
    || Refused(trace, nodes[i].x, nodes[i].y, nx, ny)
    || pb.TooFar(nx, ny)
    || ((nx, ny) in table && table[(nx, ny)] < |nodes|
        && nodes[table[(nx, ny)]].g <= nodes[i].g + StepCost(d.0, d.1, (nx, ny) in pb.creatures))
  }

  /** Node `i` was popped and rejected, and every neighbour its entry direction allows is settled. */
  ghost predicate Settled(pb: Problem, condition: Position -> bool, nodes: seq<Node>,
                          table: map<(uint16, uint16), nat>, trace: seq<Query>, i: nat)
    requires i < |nodes|
  {
    && !condition(Position(nodes[i].x, nodes[i].y, pb.start.z))
    && (forall d :: d in NeighborsWithPruning(EntryOf(nodes, i)) ==> EdgeSettled(pb, nodes, table, trace, i, d))
  }

  /** In a sound table a node was entered in the direction from its parent's tile to its own, and the start in none. */
  lemma EntryMeans(pb: Problem, nodes: seq<Node>, i: nat)
    requires NodesOk(pb, nodes) && i < |nodes|
    ensures i == 0 <==> EntryOf(nodes, i).None?
    ensures i > 0 ==>
              && nodes[i].parent < |nodes|
              && var p := nodes[nodes[i].parent];
                 Delta(EntryOf(nodes, i).value) == (nodes[i].x - p.x, nodes[i].y - p.y)
  {
    assert Linked(pb, nodes, i);
    if i > 0 {
      var p := nodes[nodes[i].parent];
      DirectionOfInverts(nodes[i].x - p.x, nodes[i].y - p.y);
    }
  }

  /** What a search that has run out of open nodes has seen to: no node meets the condition, and every neighbour a node
      was to try is off the map, or was reported blocked from there, or is too far, or has a node no dearer than the
      way through this one. */
  lemma ExhaustedMeans(pb: Problem, condition: Position -> bool, nodes: seq<Node>, table: map<(uint16, uint16), nat>,
                       trace: seq<Query>, i: nat, d: Direction)
    requires NodesOk(pb, nodes) && TableOk(nodes, table) && NoneOpen(nodes)
    requires ClosedSettled(pb, condition, nodes, table, trace, -1)
    requires i < |nodes| && Delta(d) in NeighborsWithPruning(EntryOf(nodes, i))
    ensures !condition(Position(nodes[i].x, nodes[i].y, pb.start.z))
    ensures var x, y := nodes[i].x + Delta(d).0, nodes[i].y + Delta(d).1;
            || x < 0 || x > 65535 || y < 0 || y > 65535 || pb.TooFar(x, y)
            || (exists k :: 0 <= k < |trace| && trace[k] == Query(nodes[i].x, nodes[i].y, x, y, false))
            || (exists n: nat :: n < |nodes| && nodes[n].x == x && nodes[n].y == y
                  && nodes[n].g <= nodes[i].g + StepCost(Delta(d).0, Delta(d).1, (x, y) in pb.creatures))
  {
    hide StepCost, NeighborsWithPruning, EntryOf;
    assert Settled(pb, condition, nodes, table, trace, i);
    assert EdgeSettled(pb, nodes, table, trace, i, Delta(d));
    var x, y := nodes[i].x + Delta(d).0, nodes[i].y + Delta(d).1;
    if 0 <= x <= 65535 && 0 <= y <= 65535 && (x, y) in table {
      var n := table[(x, y)];
      assert nodes[n].x == x && nodes[n].y == y;
    }
  }

  /** Every closed node but `skip` is settled. */
  ghost predicate ClosedSettled(pb: Problem, condition: Position -> bool, nodes: seq<Node>,
                                table: map<(uint16, uint16), nat>, trace: seq<Query>, skip: int)
  {
    forall i: nat :: i < |nodes| && i != skip && !IsOpen(nodes[i]) ==> Settled(pb, condition, nodes, table, trace, i)
  }

  /** Nodes keep their tile, never get dearer, and only change by being (re)opened. */
  ghost predicate Improves(nodes: seq<Node>, table: map<(uint16, uint16), nat>,
                           nodes': seq<Node>, table': map<(uint16, uint16), nat>) {
    && 0 < |nodes| <= |nodes'| && nodes'[0] == nodes[0]
    && (forall i: nat :: i < |nodes| ==>
          && nodes'[i].x == nodes[i].x && nodes'[i].y == nodes[i].y && nodes'[i].g <= nodes[i].g
          && (nodes'[i] == nodes[i] || IsOpen(nodes'[i])))
    && (forall i: nat :: |nodes| <= i < |nodes'| ==> IsOpen(nodes'[i]))
    && (forall c :: c in table ==> c in table' && table'[c] == table[c])
  }

  lemma RefusedStays(trace: seq<Query>, more: seq<Query>, fromX: int, fromY: int, x: int, y: int)
    requires Refused(trace, fromX, fromY, x, y)
    ensures Refused(trace + more, fromX, fromY, x, y)
  {
    var j :| 0 <= j < |trace| && trace[j] == Query(fromX, fromY, x, y, false);
    assert (trace + more)[j] == trace[j];
  }

  lemma EdgeStaysSettled(pb: Problem, nodes: seq<Node>, table: map<(uint16, uint16), nat>,
                         nodes': seq<Node>, table': map<(uint16, uint16), nat>,
                         trace: seq<Query>, more: seq<Query>, i: nat, d: (int, int))
    requires Improves(nodes, table, nodes', table')
    requires i < |nodes| && nodes'[i] == nodes[i] && EdgeSettled(pb, nodes, table, trace, i, d)
    ensures EdgeSettled(pb, nodes', table', trace + more, i, d)
  {
    hide Refused;
    var nx, ny := nodes[i].x + d.0, nodes[i].y + d.1;
    if Refused(trace, nodes[i].x, nodes[i].y, nx, ny) {
      RefusedStays(trace, more, nodes[i].x, nodes[i].y, nx, ny);
    }
  }

  lemma ClosedStaySettled(pb: Problem, condition: Position -> bool, nodes: seq<Node>, table: map<(uint16, uint16), nat>,
                          nodes': seq<Node>, table': map<(uint16, uint16), nat>,
                          trace: seq<Query>, more: seq<Query>, skip: int)
    requires NodesOk(pb, nodes) && TableOk(nodes, table) && NodesOk(pb, nodes') && TableOk(nodes', table')
    requires Improves(nodes, table, nodes', table') && ClosedSettled(pb, condition, nodes, table, trace, skip)
    ensures ClosedSettled(pb, condition, nodes', table', trace + more, skip)
  {
    hide EdgeSettled;
    forall i: nat | i < |nodes'| && i != skip && !IsOpen(nodes'[i])
      ensures Settled(pb, condition, nodes', table', trace + more, i)
    {
      assert Settled(pb, condition, nodes, table, trace, i);
      assert Linked(pb, nodes, i) && Linked(pb, nodes', i);
      assert EntryOf(nodes', i) == EntryOf(nodes, i);
      forall d | d in NeighborsWithPruning(EntryOf(nodes, i))
        ensures EdgeSettled(pb, nodes', table', trace + more, i, d)
      {
        EdgeStaysSettled(pb, nodes, table, nodes', table', trace, more, i, d);
      }
    }
  }

  /** What the neighbour loop has established for the closed node `bi` survives an improvement elsewhere. */
  lemma ExpansionGoesOn(pb: Problem, condition: Position -> bool, nodes: seq<Node>, table: map<(uint16, uint16), nat>,
                        nodes': seq<Node>, table': map<(uint16, uint16), nat>,
                        trace: seq<Query>, more: seq<Query>, bi: nat, ds: seq<(int, int)>, n: nat)
    requires NodesOk(pb, nodes) && TableOk(nodes, table) && NodesOk(pb, nodes') && TableOk(nodes', table')
    requires Improves(nodes, table, nodes', table') && ClosedSettled(pb, condition, nodes, table, trace, bi)
    requires bi < |nodes| && nodes'[bi] == nodes[bi] && n <= |ds|
    requires forall j :: 0 <= j < n ==> EdgeSettled(pb, nodes, table, trace, bi, ds[j])
    ensures ClosedSettled(pb, condition, nodes', table', trace + more, bi)
    ensures forall j :: 0 <= j < n ==> EdgeSettled(pb, nodes', table', trace + more, bi, ds[j])
    ensures EntryOf(nodes', bi) == EntryOf(nodes, bi)
  {
    hide EdgeSettled;
    assert Linked(pb, nodes, bi);
    ClosedStaySettled(pb, condition, nodes, table, nodes', table', trace, more, bi);
    forall j | 0 <= j < n ensures EdgeSettled(pb, nodes', table', trace + more, bi, ds[j]) {
      EdgeStaysSettled(pb, nodes, table, nodes', table', trace, more, bi, ds[j]);
    }
  }

  // ---------------------------------------------------------------------
  // What the search asks
  // ---------------------------------------------------------------------

  /** The call made for the neighbour at offset `d`, if it is on the map; the `k`-th of the search. */
  function QueryAt(pb: Problem, x: int, y: int, d: (int, int), k: nat): seq<Query> {
    var (nx, ny) := (x + d.0, y + d.1);
    if 0 <= nx < 0x1_0000 && 0 <= ny < 0x1_0000 then [Query(x, y, nx, ny, pb.walk(k, nx, ny))] else []
  }

  /** The calls made for the offsets `ds` in turn, from the `k`-th on. */
  function Queries(pb: Problem, x: int, y: int, ds: seq<(int, int)>, k: nat): (asked: seq<Query>)
    ensures |asked| <= |ds|
  {
    if ds == [] then []
    else
      var front := Queries(pb, x, y, ds[..|ds| - 1], k);
      front + QueryAt(pb, x, y, ds[|ds| - 1], k + |front|)
  }

  /** The `k`-th call: a neighbour on the map of a tile seen before inside the window, or of the start, which is
      expanded first. */
  ghost predicate QueryOk(pb: Problem, trace: seq<Query>, k: nat)
    requires k < |trace|
  {
    var q := trace[k];
    && q.answer == pb.walk(k, q.x, q.y)
    && 0 <= q.x < 0x1_0000 && 0 <= q.y < 0x1_0000
    && 0 <= q.fromX < 0x1_0000 && 0 <= q.fromY < 0x1_0000
    && Adjacent(q.x - q.fromX, q.y - q.fromY) && !pb.TooFar(q.fromX, q.fromY)
    && if FromStart(pb, q) then forall j :: 0 <= j < k ==> FromStart(pb, trace[j]) else Seen(trace, k, q.fromX, q.fromY)
  }

  predicate FromStart(pb: Problem, q: Query) {
    q.fromX == pb.start.x && q.fromY == pb.start.y
  }

  ghost predicate TraceOk(pb: Problem, trace: seq<Query>) {
    forall k: nat :: k < |trace| ==> QueryOk(pb, trace, k)
  }

  /** The calls of the first expansion. */
  function StartQueries(pb: Problem): seq<Query> {
    Queries(pb, pb.start.x, pb.start.y, NeighborsWithPruning(None), 0)
  }

  lemma QueriesSnoc(pb: Problem, x: int, y: int, ds: seq<(int, int)>, i: nat, k: nat)
    requires i < |ds|
    ensures Queries(pb, x, y, ds[..i + 1], k)
         == Queries(pb, x, y, ds[..i], k) + QueryAt(pb, x, y, ds[i], k + |Queries(pb, x, y, ds[..i], k)|)
  {
    assert ds[..i + 1][..i] == ds[..i];
  }

  /** Every query of an expansion is about an adjacent tile on the map and gives the answer of its call. */
  lemma {:induction false} QueriesAre(pb: Problem, x: int, y: int, ds: seq<(int, int)>, k: nat)
    requires forall i :: 0 <= i < |ds| ==> Adjacent(ds[i].0, ds[i].1)
    ensures forall i :: 0 <= i < |Queries(pb, x, y, ds, k)| ==>
              var q := Queries(pb, x, y, ds, k)[i];
              && q.fromX == x && q.fromY == y && 0 <= q.x < 0x1_0000 && 0 <= q.y < 0x1_0000
              && Adjacent(q.x - x, q.y - y) && q.answer == pb.walk(k + i, q.x, q.y)
  {
    if ds != [] {
      QueriesAre(pb, x, y, ds[..|ds| - 1], k);
    }
  }

  /** An expansion of the start, when nothing has been asked, or of a tile seen, keeps the trace sound. */
  lemma {:induction false} TraceGrows(pb: Problem, trace: seq<Query>, x: uint16, y: uint16, ds: seq<(int, int)>)
    requires TraceOk(pb, trace) && forall i :: 0 <= i < |ds| ==> Adjacent(ds[i].0, ds[i].1)
    requires if x == pb.start.x && y == pb.start.y then trace == [] else Seen(trace, |trace|, x, y)
    requires !pb.TooFar(x, y)
    ensures TraceOk(pb, trace + Queries(pb, x, y, ds, |trace|))
  {
    var asked := Queries(pb, x, y, ds, |trace|);
    var grown := trace + asked;
    QueriesAre(pb, x, y, ds, |trace|);
    hide Queries, Adjacent;
    forall k: nat | k < |grown| ensures QueryOk(pb, grown, k) {
      if k < |trace| {
        assert QueryOk(pb, trace, k);
        SeenStays(trace, asked, k, trace[k].fromX, trace[k].fromY);
      } else {
        assert grown[k] == asked[k - |trace|];
        if x != pb.start.x || y != pb.start.y {
          SeenGrows(trace, asked, k, x, y);
        }
      }
    }
  }

  lemma SeenStays(trace: seq<Query>, more: seq<Query>, k: nat, x: int, y: int)
    requires k <= |trace|
    ensures Seen(trace + more, k, x, y) <==> Seen(trace, k, x, y)
  {
    if Seen(trace, k, x, y) {
      var j :| 0 <= j < k && trace[j].answer && trace[j].x == x && trace[j].y == y;
      assert (trace + more)[j] == trace[j];
    }
  }

  lemma SeenGrows(trace: seq<Query>, more: seq<Query>, k: nat, x: int, y: int)
    requires |trace| <= k <= |trace + more| && Seen(trace, |trace|, x, y)
    ensures Seen(trace + more, k, x, y)
  {
    var j :| 0 <= j < |trace| && trace[j].answer && trace[j].x == x && trace[j].y == y;
    assert (trace + more)[j] == trace[j];
  }

  /** The nodes an expansion adds stand on tiles it has just seen. */
  ghost predicate AddsSeen(before: seq<Node>, after: seq<Node>, asked: seq<Query>) {
    && |before| <= |after| <= |before| + |asked|
    && (forall i: nat :: i < |before| ==> after[i].x == before[i].x && after[i].y == before[i].y)
    && (forall i: nat :: |before| <= i < |after| ==> Seen(asked, |asked|, after[i].x, after[i].y))
  }

  lemma AddsSeenAppend(before: seq<Node>, mid: seq<Node>, after: seq<Node>, asked: seq<Query>, more: seq<Query>)
    requires AddsSeen(before, mid, asked) && AddsSeen(mid, after, more)
    ensures AddsSeen(before, after, asked + more)
  {
    hide Seen;
    forall i: nat | |before| <= i < |after| ensures Seen(asked + more, |asked + more|, after[i].x, after[i].y) {
      if i < |mid| {
        SeenGrows(asked, more, |asked + more|, after[i].x, after[i].y);
      } else {
        SeenLater(asked, more, after[i].x, after[i].y);
      }
    }
  }

  lemma SeenLater(trace: seq<Query>, more: seq<Query>, x: int, y: int)
    requires Seen(more, |more|, x, y)
    ensures Seen(trace + more, |trace + more|, x, y)
  {
    var j :| 0 <= j < |more| && more[j].answer && more[j].x == x && more[j].y == y;
    assert (trace + more)[|trace| + j] == more[j];
  }

  lemma SeenOne(asked: seq<Query>)
    requires |asked| == 1 && asked[0].answer
    ensures Seen(asked, 1, asked[0].x, asked[0].y)
  {
  }

  lemma RefusedOne(trace: seq<Query>, asked: seq<Query>)
    requires |asked| == 1 && !asked[0].answer
    ensures Refused(trace + asked, asked[0].fromX, asked[0].fromY, asked[0].x, asked[0].y)
  {
    assert (trace + asked)[|trace|] == asked[0];
  }

  lemma NodesStaySeen(before: seq<Node>, after: seq<Node>, trace: seq<Query>, asked: seq<Query>)
    requires NodesSeen(before, trace) && AddsSeen(before, after, asked) && before != []
    ensures NodesSeen(after, trace + asked)
  {
    hide Seen;
    forall i: nat | 0 < i < |after| ensures Seen(trace + asked, |trace + asked|, after[i].x, after[i].y) {
      if i < |before| {
        SeenGrows(trace, asked, |trace + asked|, after[i].x, after[i].y);
      } else {
        SeenLater(trace, asked, after[i].x, after[i].y);
      }
    }
  }

  // ---------------------------------------------------------------------
  // One neighbour of the node being expanded
  // ---------------------------------------------------------------------

  /** The node a neighbour of `b` gets: one step dearer than `b`, its `f` well below the closed marker. */
  lemma ChildOf(pb: Problem, nodes: seq<Node>, bi: nat, b: Node, nx: uint16, ny: uint16, childG: int, childF: int)
    requires NodesOk(pb, nodes) && bi < |nodes| && nodes[bi] == b.(f := CLOSED)
    requires Adjacent(nx - b.x, ny - b.y)
    requires childG == b.g + StepCost(nx - b.x, ny - b.y, (nx as int, ny as int) in pb.creatures)
    requires childF == childG + pb.H(nx, ny)
    ensures bi < NO_PARENT && b.g < childG <= MAX_G + 55 && childF < CLOSED
    ensures GoodChild(pb, nodes, bi, Node(bi, childF, childG, nx, ny))
  {
    assert Priced(pb, nodes, bi);
    HeuristicIsTaxicab(nx, ny, pb.target.x, pb.target.y);
  }

  lemma ReopenStep(pb: Problem, nodes: seq<Node>, table: map<(uint16, uint16), nat>,
                   bi: nat, b: Node, idx: nat, child: Node)
    requires NodesOk(pb, nodes) && TableOk(nodes, table)
    requires bi < |nodes| && nodes[bi] == b.(f := CLOSED) && IsOpen(b)
    requires idx < |nodes| && GoodChild(pb, nodes, bi, child) && IsOpen(child)
    requires child.x == nodes[idx].x && child.y == nodes[idx].y && child.g <= nodes[idx].g && b.g < child.g
    ensures var after := nodes[idx := child];
            && NodesOk(pb, after) && TableOk(after, table) && Improves(nodes, table, after, table)
            && after[bi] == nodes[bi]
            && 9 * OpenWeight(after) <= 9 * OpenWeight(nodes) + Weight(b)
  {
    assert Priced(pb, nodes, bi);
    ReopenKeepsNodes(pb, nodes, table, bi, idx, child);
    OpenWeightUpdate(nodes, idx, child);
    ChildWeighsLess(b, child);
  }

  lemma AddStep(pb: Problem, nodes: seq<Node>, table: map<(uint16, uint16), nat>, bi: nat, b: Node, child: Node)
    requires NodesOk(pb, nodes) && TableOk(nodes, table) && |nodes| < MAX_NODES
    requires bi < |nodes| && nodes[bi] == b.(f := CLOSED) && IsOpen(b)
    requires GoodChild(pb, nodes, bi, child) && b.g < child.g && IsOpen(child)
    requires (child.x, child.y) !in table && !pb.TooFar(child.x, child.y)
    ensures var after, table' := nodes + [child], table[(child.x, child.y) := |nodes|];
            && NodesOk(pb, after) && TableOk(after, table') && Improves(nodes, table, after, table')
            && after[bi] == nodes[bi]
            && 9 * OpenWeight(after) <= 9 * OpenWeight(nodes) + Weight(b)
  {
    assert Priced(pb, nodes, bi);
    AddKeepsNodes(pb, nodes, table, bi, child);
    OpenWeightSnoc(nodes, child);
    ChildWeighsLess(b, child);
  }

  /** One pass of the neighbour loop, for the walkable tile at offset `d` from the closed node `b`. */
  method Relax(pb: Problem, n: AStarNodes, bi: nat, b: Node, ghost d: (int, int), child: Node, ghost trace: seq<Query>)
    returns (full: bool)
    requires NodesOk(pb, n.nodes) && TableOk(n.nodes, n.table)
    requires bi < |n.nodes| && n.nodes[bi] == b.(f := CLOSED) && IsOpen(b) && b.g < child.g && IsOpen(child)
    requires d == (child.x - b.x, child.y - b.y) && GoodChild(pb, n.nodes, bi, child)
    modifies n
    ensures NodesOk(pb, n.nodes) && TableOk(n.nodes, n.table)
    ensures Improves(old(n.nodes), old(n.table), n.nodes, n.table)
    ensures n.nodes[bi] == b.(f := CLOSED)
    ensures 9 * OpenWeight(n.nodes) <= 9 * old(OpenWeight(n.nodes)) + Weight(b)
    ensures |n.nodes| <= |old(n.nodes)| + 1
    ensures forall i: nat :: |old(n.nodes)| <= i < |n.nodes| ==> n.nodes[i].x == child.x && n.nodes[i].y == child.y
    ensures if full then |n.nodes| >= MAX_NODES else EdgeSettled(pb, n.nodes, n.table, trace, bi, d)
  {
    hide NodesOk, OpenWeight, Weight, Refused;
    ghost var before, table := n.nodes, n.table;
    var moved := n.TryReopen(child.x, child.y, child.g, child.f, child.parent);
    if moved {
      ReopenStep(pb, before, table, bi, b, table[(child.x, child.y)], child);
      return false;
    }
    if (child.x, child.y) in n.table {
      return false;
    }
    if pb.TooFar(child.x, child.y) {
      return false;
    }
    var added := n.AddNode(child.x, child.y, child.g, child.f, child.parent);
    if added {
      AddStep(pb, before, table, bi, b, child);
    }
    return !added;
  }

  /** The body of the neighbour loop, for the neighbour at offset `d`. */
  method ExpandOne(pb: Problem, n: AStarNodes, bi: nat, b: Node, pg: nat, d: (int, int), calls: nat,
                   ghost trace: seq<Query>)
    returns (full: bool, calls': nat, ghost asked: seq<Query>)
    requires NodesOk(pb, n.nodes) && TableOk(n.nodes, n.table)
    requires bi < |n.nodes| && n.nodes[bi] == b.(f := CLOSED) && IsOpen(b) && pg == b.g
    requires Adjacent(d.0, d.1)
    modifies n
    ensures NodesOk(pb, n.nodes) && TableOk(n.nodes, n.table)
    ensures Improves(old(n.nodes), old(n.table), n.nodes, n.table)
    ensures n.nodes[bi] == b.(f := CLOSED)
    ensures 9 * OpenWeight(n.nodes) <= 9 * old(OpenWeight(n.nodes)) + Weight(b)
    ensures asked == QueryAt(pb, b.x, b.y, d, calls) && calls' == calls + |asked|
    ensures AddsSeen(old(n.nodes), n.nodes, asked)
    ensures if full then |n.nodes| >= MAX_NODES else EdgeSettled(pb, n.nodes, n.table, trace + asked, bi, d)
  {
    hide NodesOk, TableOk, OpenWeight, Weight, Seen, Refused, Heuristic;
    full, calls', asked := false, calls, [];
    var nx, ny := b.x + d.0, b.y + d.1;
    if !(0 <= nx < 0x1_0000) || !(0 <= ny < 0x1_0000) {
      return;
    }
    var walkable := pb.walk(calls, nx, ny);
    calls', asked := calls + 1, [Query(b.x, b.y, nx, ny, walkable)];
    if !walkable {
      RefusedOne(trace, asked);
      return;
    }
    var childG := pg + StepCost(d.0, d.1, (nx, ny) in pb.creatures);
    var childF := childG + pb.H(nx, ny);
    ChildOf(pb, n.nodes, bi, b, nx, ny, childG, childF);
    full := Relax(pb, n, bi, b, d, Node(bi, childF, childG, nx, ny), trace + asked);
    SeenOne(asked);
  }

  /** The neighbour loop over the offsets `neighbors` of `b`, the node just closed at `bi`: hang every
      walkable neighbour below it. Stops early, reporting `full`, when a new node does not fit.
      `calls` counts the queries made to `is_walkable`. */
  method ExpandAll(pb: Problem, ghost condition: Position -> bool, n: AStarNodes, bi: nat, b: Node, pg: nat,
                   neighbors: seq<(int, int)>, calls: nat, ghost trace: seq<Query>)
    returns (full: bool, calls': nat, ghost asked: seq<Query>, ghost m: nat)
    requires NodesOk(pb, n.nodes) && TableOk(n.nodes, n.table)
    requires bi < |n.nodes| && n.nodes[bi] == b.(f := CLOSED) && IsOpen(b) && pg == b.g
    requires ClosedSettled(pb, condition, n.nodes, n.table, trace, bi)
    requires |neighbors| <= 8 && forall i :: 0 <= i < |neighbors| ==> Adjacent(neighbors[i].0, neighbors[i].1)
    modifies n
    ensures NodesOk(pb, n.nodes) && TableOk(n.nodes, n.table)
    ensures bi < |n.nodes| && n.nodes[bi] == b.(f := CLOSED)
    ensures EntryOf(n.nodes, bi) == old(EntryOf(n.nodes, bi))
    ensures 9 * OpenWeight(n.nodes) <= 9 * old(OpenWeight(n.nodes)) + 8 * Weight(b)
    ensures ClosedSettled(pb, condition, n.nodes, n.table, trace + asked, bi) || full
    ensures m <= |neighbors| && asked == Queries(pb, b.x, b.y, neighbors[..m], calls) && calls' == calls + |asked|
    ensures !full ==> m == |neighbors|
    ensures AddsSeen(old(n.nodes), n.nodes, asked) && n.nodes[0] == old(n.nodes)[0]
    ensures if full then |n.nodes| >= MAX_NODES
            else forall j :: 0 <= j < |neighbors| ==> EdgeSettled(pb, n.nodes, n.table, trace + asked, bi, neighbors[j])
  {
    hide NodesOk, TableOk, ClosedSettled, EdgeSettled, EntryOf, OpenWeight, Queries, QueryAt, AddsSeen;
    full, calls', asked, m := false, calls, [], 0;
    ghost var w := Weight(b);
    NothingAsked(pb, b.x, b.y, neighbors, calls, n.nodes);
    assert trace + [] == trace;
    for i := 0 to |neighbors|
      invariant m == i && asked == Queries(pb, b.x, b.y, neighbors[..i], calls) && calls' == calls + |asked|
      invariant AddsSeen(old(n.nodes), n.nodes, asked) && n.nodes != [] && n.nodes[0] == old(n.nodes)[0]
      invariant NodesOk(pb, n.nodes) && TableOk(n.nodes, n.table)
      invariant bi < |n.nodes| && n.nodes[bi] == b.(f := CLOSED)
      invariant EntryOf(n.nodes, bi) == old(EntryOf(n.nodes, bi))
      invariant ClosedSettled(pb, condition, n.nodes, n.table, trace + asked, bi)
      invariant forall j :: 0 <= j < i ==> EdgeSettled(pb, n.nodes, n.table, trace + asked, bi, neighbors[j])
      invariant 9 * OpenWeight(n.nodes) <= 9 * old(OpenWeight(n.nodes)) + Share(i, w)
    {
      ghost var nodes, table := n.nodes, n.table;
      ghost var more;
      QueriesSnoc(pb, b.x, b.y, neighbors, i, calls);
      full, calls', more := ExpandOne(pb, n, bi, b, pg, neighbors[i], calls', trace + asked);
      AddsSeenAppend(old(n.nodes), nodes, n.nodes, asked, more);
      ExpansionGoesOn(pb, condition, nodes, table, n.nodes, n.table, trace + asked, more, bi, neighbors, i);
      assert trace + asked + more == trace + (asked + more);
      asked, m := asked + more, i + 1;
      ShareIsProduct(i + 1, w);
      if full {
        return;
      }
    }
    ShareIsProduct(|neighbors|, w);
    assert neighbors[..|neighbors|] == neighbors;
  }

  lemma NothingAsked(pb: Problem, x: int, y: int, ds: seq<(int, int)>, k: nat, nodes: seq<Node>)
    ensures Queries(pb, x, y, ds[..0], k) == [] && AddsSeen(nodes, nodes, [])
  {
  }

  /** Expanding the closed node `bi` along the offsets its entry direction allows settles it. */
  method Expand(pb: Problem, ghost condition: Position -> bool, n: AStarNodes, bi: nat, b: Node, calls: nat,
                ghost trace: seq<Query>)
    returns (full: bool, calls': nat, ghost asked: seq<Query>, ghost ds: seq<(int, int)>)
    requires NodesOk(pb, n.nodes) && TableOk(n.nodes, n.table)
    requires bi < |n.nodes| && n.nodes[bi] == b.(f := CLOSED) && IsOpen(b)
    requires b.f == b.g + pb.H(b.x, b.y) && !condition(Position(b.x, b.y, pb.start.z))
    requires ClosedSettled(pb, condition, n.nodes, n.table, trace, bi)
    modifies n
    ensures NodesOk(pb, n.nodes) && TableOk(n.nodes, n.table)
    ensures 9 * OpenWeight(n.nodes) <= 9 * old(OpenWeight(n.nodes)) + 8 * Weight(b)
    ensures if full then |n.nodes| == MAX_NODES else ClosedSettled(pb, condition, n.nodes, n.table, trace + asked, -1)
    ensures asked == Queries(pb, b.x, b.y, ds, calls) && calls' == calls + |asked|
    ensures |ds| <= 8 && forall i :: 0 <= i < |ds| ==> Adjacent(ds[i].0, ds[i].1)
    ensures !full ==> ds == NeighborsWithPruning(EntryOf(old(n.nodes), bi))
    ensures AddsSeen(old(n.nodes), n.nodes, asked) && n.nodes[0] == old(n.nodes)[0]
  {
    var pg := Max(b.f - pb.H(b.x, b.y), 0);
    var neighbors := NeighborsWithPruning(EntryOf(n.nodes, bi));
    ghost var m;
    full, calls', asked, m := ExpandAll(pb, condition, n, bi, b, pg, neighbors, calls, trace);
    ds := neighbors[..m];
    if !full {
      ExpansionDone(pb, condition, n.nodes, n.table, trace + asked, bi, neighbors);
    }
  }

  lemma ExpansionDone(pb: Problem, condition: Position -> bool, nodes: seq<Node>, table: map<(uint16, uint16), nat>,
                      trace: seq<Query>, bi: nat, neighbors: seq<(int, int)>)
    requires bi < |nodes| && ClosedSettled(pb, condition, nodes, table, trace, bi)
    requires !condition(Position(nodes[bi].x, nodes[bi].y, pb.start.z))
    requires neighbors == NeighborsWithPruning(EntryOf(nodes, bi))
    requires forall j :: 0 <= j < |neighbors| ==> EdgeSettled(pb, nodes, table, trace, bi, neighbors[j])
    ensures ClosedSettled(pb, condition, nodes, table, trace, -1)
  {
    hide EdgeSettled;
    assert Settled(pb, condition, nodes, table, trace, bi);
  }

  /** The weight `i` children may add, each at most a ninth of their parent's. */
  ghost function Share(i: nat, w: nat): nat {
    if i == 0 then 0 else w + Share(i - 1, w)
  }

  lemma {:induction false} ShareIsProduct(i: nat, w: nat)
    ensures Share(i, w) == i * w
    ensures i <= 8 ==> Share(i, w) <= 8 * w
  {
    if i > 0 {
      ShareIsProduct(i - 1, w);
    }
  }

  // ---------------------------------------------------------------------
  // The search
  // ---------------------------------------------------------------------

  /** The head of the search loop: take the best open node, with the `f` it had, and close it. */
  method PopBestNode(pb: Problem, n: AStarNodes) returns (best: Option<(nat, Node)>)
    requires NodesOk(pb, n.nodes) && TableOk(n.nodes, n.table)
    modifies n`nodes
    ensures best.None? <==> NoneOpen(old(n.nodes))
    ensures best.None? ==> n.nodes == old(n.nodes)
    ensures best.Some? ==>
              var (bi, b) := best.value;
              && bi < |old(n.nodes)| && b == old(n.nodes)[bi] && IsOpen(b)
              && (forall i :: 0 <= i < |old(n.nodes)| ==> b.f <= old(n.nodes)[i].f)
              && n.nodes == old(n.nodes)[bi := b.(f := CLOSED)]
              && NodesOk(pb, n.nodes) && TableOk(n.nodes, n.table)
              && OpenWeight(n.nodes) + Weight(b) == old(OpenWeight(n.nodes)) && Weight(b) > 0
              && b.f == b.g + pb.H(b.x, b.y)
              && (bi == 0 ==> Position(b.x, b.y, pb.start.z) == pb.start)
  {
    var r := GetBestNode(n.nodes);
    if r.None? {
      return None;
    }
    CloseStep(pb, n.nodes, n.table, r.value);
    best := Some((r.value, n.nodes[r.value]));
    n.nodes := n.nodes[r.value := n.nodes[r.value].(f := CLOSED)];
  }

  /** A path over tiles that calls of `trace` reported walkable, to a tile meeting the condition. */
  ghost predicate IsAnswer(pb: Problem, condition: Position -> bool, path: seq<Direction>, trace: seq<Query>) {
    var (x, y) := At(pb.start.x, pb.start.y, path, |path|);
    && StepsOk(pb, path, trace)
    && 0 <= x < 0x1_0000 && 0 <= y < 0x1_0000 && condition(Position(x, y, pb.start.z))
    && WalkCost(pb.start.x, pb.start.y, path, pb.creatures) <= MAX_G
  }

  /** Why the search stopped. */
  datatype Outcome =
    | Found(i: nat)        // node `i` satisfies the condition
    | Exhausted            // no open node is left
    | TableFull            // a 513th node was needed

  /** `get_path_matching`: best-first search over at most 512 nodes. It always stops. Every path it
      returns is an answer of at most 511 steps; and it gives up only with a full table, or once
      every node of the table is closed, rejected by the condition, and settled. What is walkable and what is not is
      judged by the calls it made, all of them listed in `trace`. */
  method GetPathMatching(pb: Problem, condition: Position -> bool)
    returns (path: seq<Direction>, ghost outcome: Outcome,
             ghost nodes: seq<Node>, ghost table: map<(uint16, uint16), nat>, ghost trace: seq<Query>)
    ensures |path| < MAX_NODES
    ensures path != [] ==> IsAnswer(pb, condition, path, trace)
    ensures condition(pb.start) ==> path == []
    ensures NodesOk(pb, nodes) && TableOk(nodes, table) && NodesSeen(nodes, trace)
    ensures outcome.Found? ==>
              && outcome.i < |nodes| && path == PathTo(pb, nodes, outcome.i)
              && condition(Position(nodes[outcome.i].x, nodes[outcome.i].y, pb.start.z))
    ensures !outcome.Found? ==> path == []
    ensures outcome.Exhausted? ==> NoneOpen(nodes) && ClosedSettled(pb, condition, nodes, table, trace, -1)
    ensures outcome.TableFull? ==> |nodes| == MAX_NODES
    ensures TraceOk(pb, trace) && (!condition(pb.start) ==> StartQueries(pb) <= trace)
  {
    hide NodesOk, TableOk, ClosedSettled, IsAnswer, OpenWeight, NoneOpen, TraceOk, Queries, NodesSeen, AddsSeen, EntryOf;
    var n := new AStarNodes();
    OpenIsNotClosed(pb, pb.start.x, pb.start.y, 0);
    var ok := n.AddNode(pb.start.x, pb.start.y, 0, pb.H(pb.start.x, pb.start.y), NO_PARENT);
    assert ok;  // an empty table has room for the start
    StartNodeOk(pb, condition, n.nodes, n.table);
    var calls := 0;
    ghost var startPopped := false;
    trace := [];
    NothingSeen(pb, n.nodes);
    while true
      invariant fresh(n)
      invariant NodesOk(pb, n.nodes) && TableOk(n.nodes, n.table)
      invariant if startPopped then !condition(pb.start) && n.nodes != [] && !IsOpen(n.nodes[0])
                else |n.nodes| == 1 && IsOpen(n.nodes[0])
      invariant calls == |trace| && TraceOk(pb, trace) && NodesSeen(n.nodes, trace)
      invariant if startPopped then StartQueries(pb) <= trace else trace == []
      invariant ClosedSettled(pb, condition, n.nodes, n.table, trace, -1)
      decreases OpenWeight(n.nodes)
    {
      ghost var before := n.nodes;
      FirstIsOpen(before);
      var best := PopBestNode(pb, n);
      if best.None? {
        return [], Exhausted, n.nodes, n.table, trace;
      }
      var (bi, b) := best.value;
      NeverLeavesWindow(pb, before, bi);
      if pb.TooFar(b.x, b.y) {
        assert false;  // the source gives up here
      }
      if condition(Position(b.x, b.y, pb.start.z)) {
        path := CalculatePath(pb, n.nodes, bi);
        ClosedStaysSeen(before, n.nodes, bi, trace);
        PathToIsAnswer(pb, n.nodes, bi, condition, trace);
        return path, Found(bi), n.nodes, n.table, trace;
      }
      startPopped := true;
      ClosingKeepsSettled(pb, condition, before, n.table, trace, bi);
      ghost var closed, first := n.nodes, bi == 0;
      StandsSeen(pb, before, n.table, trace, bi);
      ClosedStaysSeen(before, closed, bi, trace);
      var full;
      ghost var asked, ds;
      full, calls, asked, ds := Expand(pb, condition, n, bi, b, calls, trace);
      TraceGrows(pb, trace, b.x, b.y, ds);
      NodesStaySeen(closed, n.nodes, trace, asked);
      if first {
        FirstExpansion(pb, closed, n.nodes, asked);
      }
      trace := trace + asked;
      if full {
        return [], TableFull, n.nodes, n.table, trace;
      }
    }
  }

  lemma FirstIsOpen(nodes: seq<Node>)
    ensures nodes != [] && IsOpen(nodes[0]) ==> !NoneOpen(nodes)
  {
  }

  lemma NothingSeen(pb: Problem, nodes: seq<Node>)
    requires |nodes| == 1
    ensures TraceOk(pb, []) && NodesSeen(nodes, [])
  {
  }

  /** Where node `bi` stands: on the start, if it is the first, or else on a tile seen and never on the start. */
  lemma StandsSeen(pb: Problem, nodes: seq<Node>, table: map<(uint16, uint16), nat>, trace: seq<Query>, bi: nat)
    requires NodesOk(pb, nodes) && TableOk(nodes, table) && NodesSeen(nodes, trace) && bi < |nodes|
    ensures bi == 0 <==> nodes[bi].x == pb.start.x && nodes[bi].y == pb.start.y
    ensures bi != 0 ==> Seen(trace, |trace|, nodes[bi].x, nodes[bi].y)
    ensures bi == 0 ==> EntryOf(nodes, bi) == None
  {
    assert Linked(pb, nodes, 0);
  }

  lemma ClosedStaysSeen(before: seq<Node>, closed: seq<Node>, bi: nat, trace: seq<Query>)
    requires NodesSeen(before, trace) && bi < |before| && closed == before[bi := before[bi].(f := CLOSED)]
    ensures NodesSeen(closed, trace) && (bi == 0 ==> EntryOf(closed, bi) == EntryOf(before, bi))
  {
    hide Seen;
  }

  /** One node has at most eight neighbours, so the first expansion never fills the table. */
  lemma FirstExpansion(pb: Problem, before: seq<Node>, after: seq<Node>, asked: seq<Query>)
    requires |before| == 1 && AddsSeen(before, after, asked) && |asked| <= 8
    ensures |after| < MAX_NODES
  {
  }

  lemma ClosingKeepsSettled(pb: Problem, condition: Position -> bool, nodes: seq<Node>,
                            table: map<(uint16, uint16), nat>, trace: seq<Query>, bi: nat)
    requires NodesOk(pb, nodes) && TableOk(nodes, table) && bi < |nodes| && IsOpen(nodes[bi])
    requires NodesOk(pb, nodes[bi := nodes[bi].(f := CLOSED)])
    requires TableOk(nodes[bi := nodes[bi].(f := CLOSED)], table)
    requires ClosedSettled(pb, condition, nodes, table, trace, -1)
    ensures ClosedSettled(pb, condition, nodes[bi := nodes[bi].(f := CLOSED)], table, trace, bi)
  {
    hide EdgeSettled;
    var after := nodes[bi := nodes[bi].(f := CLOSED)];
    forall i: nat | i < |after| && i != bi && !IsOpen(after[i])
      ensures Settled(pb, condition, after, table, trace, i)
    {
      assert Settled(pb, condition, nodes, table, trace, i);
      assert Linked(pb, nodes, i) && Linked(pb, after, i);
      assert EntryOf(after, i) == EntryOf(nodes, i);
      forall d | d in NeighborsWithPruning(EntryOf(nodes, i)) ensures EdgeSettled(pb, after, table, trace, i, d) {
        ClosingKeepsEdge(pb, nodes, table, trace, bi, i, d);
      }
    }
  }

  lemma ClosingKeepsEdge(pb: Problem, nodes: seq<Node>, table: map<(uint16, uint16), nat>, trace: seq<Query>,
                         bi: nat, i: nat, d: (int, int))
    requires bi < |nodes| && i < |nodes| && EdgeSettled(pb, nodes, table, trace, i, d)
    ensures EdgeSettled(pb, nodes[bi := nodes[bi].(f := CLOSED)], table, trace, i, d)
  {
    hide Refused;
  }

  /** The search never pops a node outside its window, so it never gives up for that reason. */
  lemma NeverLeavesWindow(pb: Problem, nodes: seq<Node>, i: nat)
    requires NodesOk(pb, nodes) && i < |nodes|
    ensures !pb.TooFar(nodes[i].x, nodes[i].y)
  {
    assert Linked(pb, nodes, i);
  }

  lemma StartNodeOk(pb: Problem, condition: Position -> bool, nodes: seq<Node>, table: map<(uint16, uint16), nat>)
    requires pb.H(pb.start.x, pb.start.y) < CLOSED
    requires nodes == [Node(NO_PARENT, pb.H(pb.start.x, pb.start.y), 0, pb.start.x, pb.start.y)]
    requires table == map[(pb.start.x, pb.start.y) := 0]
    ensures NodesOk(pb, nodes) && TableOk(nodes, table) && ClosedSettled(pb, condition, nodes, table, [], -1)
  {
    assert Linked(pb, nodes, 0) && Priced(pb, nodes, 0);
  }

  lemma PathToIsAnswer(pb: Problem, nodes: seq<Node>, bi: nat, condition: Position -> bool, trace: seq<Query>)
    requires NodesOk(pb, nodes) && NodesSeen(nodes, trace) && bi < |nodes|
    requires condition(Position(nodes[bi].x, nodes[bi].y, pb.start.z))
    ensures IsAnswer(pb, condition, PathTo(pb, nodes, bi), trace)
    ensures bi == 0 ==> PathTo(pb, nodes, bi) == []
  {
    PathToLeadsThere(pb, nodes, bi, trace);
    assert Linked(pb, nodes, bi) && Priced(pb, nodes, bi);
  }

  /** Closing the best node keeps the table sound and takes its whole weight away. */
  lemma CloseStep(pb: Problem, nodes: seq<Node>, table: map<(uint16, uint16), nat>, bi: nat)
    requires NodesOk(pb, nodes) && TableOk(nodes, table) && bi < |nodes| && IsOpen(nodes[bi])
    ensures var b, after := nodes[bi], nodes[bi := nodes[bi].(f := CLOSED)];
            && NodesOk(pb, after) && TableOk(after, table)
            && OpenWeight(after) + Weight(b) == OpenWeight(nodes)
            && Weight(b) > 0 && b.f == b.g + pb.H(b.x, b.y)
            && (bi == 0 ==> Position(b.x, b.y, pb.start.z) == pb.start)
  {
    var after := nodes[bi := nodes[bi].(f := CLOSED)];
    assert Linked(pb, nodes, bi) && Priced(pb, nodes, bi);
    OpenWeightUpdate(nodes, bi, after[bi]);
    forall i: nat | i < |after| ensures Linked(pb, after, i) && Priced(pb, after, i) {
      assert Linked(pb, nodes, i) && Priced(pb, nodes, i);
    }
  }
}
