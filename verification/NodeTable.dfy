/** The node table of the A* search in crates/world/src/pathfinding.rs: what every reachable
    table satisfies, the path read back along its parent links, and the weight that bounds the search. */
module NodeTable {
  import opened World
  import opened PathCost

  const MAX_NODES: nat := 512
  const CLOSED: uint32 := 0xFFFF_FFFF   // u32::MAX in `f`
  const NO_PARENT: uint16 := 0xFFFF     // u16::MAX in `parent`
  const MAX_G: nat := 55 * 511

  datatype Node = Node(parent: uint16, f: uint32, g: uint32, x: uint16, y: uint16)

  datatype FindPathParams = FindPathParams(fullSearch: bool, maxSearchDist: int32)

  /** One search problem. `walk(k, x, y)` is the answer the `k`-th call of `is_walkable` gives
      for `(x, y)`: the callback may load chunks, so it need not repeat itself. */
  datatype Problem = Problem(start: Position, target: Position, creatures: seq<(int, int)>,
                             params: FindPathParams, walk: (nat, int, int) -> bool) {
    function H(x: int, y: int): nat {
      Heuristic(x, y, target.x, target.y)
    }

    /** `max_search_dist as u32`: a negative limit wraps to a huge one. */
    function DistLimit(): int {
      if params.maxSearchDist < 0 then params.maxSearchDist + 0x1_0000_0000 else params.maxSearchDist
    }

    predicate TooFar(x: int, y: int) {
      !params.fullSearch && Max(Abs(x - start.x), Abs(y - start.y)) > DistLimit()
    }
  }

  /** The estimate is ten for every tile of the way to the target along the axes. */
  lemma EstimateMeans(pb: Problem, x: int, y: int)
    ensures pb.H(x, y) == 10 * ((if x < pb.target.x then pb.target.x - x else x - pb.target.x)
                                + (if y < pb.target.y then pb.target.y - y else y - pb.target.y))
  {
    HeuristicIsTaxicab(x, y, pb.target.x, pb.target.y);
  }

  /** Unless it is a full search, a tile is too far if it lies further from the start than the limit along some axis. A
      negative limit is 2^32 greater. */
  lemma WindowMeans(pb: Problem, x: int, y: int)
    ensures pb.TooFar(x, y) <==>
              && !pb.params.fullSearch
              && (var d := pb.params.maxSearchDist;
                  var limit := if d >= 0 then d else 4294967296 + d;
                  x - pb.start.x > limit || pb.start.x - x > limit || y - pb.start.y > limit || pb.start.y - y > limit)
  {
  }

  /** One call of `is_walkable`: about a neighbour of the node at `(fromX, fromY)`, and its answer. */
  datatype Query = Query(fromX: int, fromY: int, x: int, y: int, answer: bool)

  /** One of the first `k` calls reported `(x, y)` walkable. */
  predicate Seen(trace: seq<Query>, k: nat, x: int, y: int)
    requires k <= |trace|
  {
    exists j :: 0 <= j < k && trace[j].answer && trace[j].x == x && trace[j].y == y
  }

  /** A call made for the node at `(fromX, fromY)` reported `(x, y)` blocked. */
  predicate Refused(trace: seq<Query>, fromX: int, fromY: int, x: int, y: int) {
    exists j :: 0 <= j < |trace| && trace[j] == Query(fromX, fromY, x, y, false)
  }

  // ---------------------------------------------------------------------
  // Directions
  // ---------------------------------------------------------------------

  predicate Adjacent(dx: int, dy: int) {
    -1 <= dx <= 1 && -1 <= dy <= 1 && (dx != 0 || dy != 0)
  }

  function DirectionOf(dx: int, dy: int): Direction {
    match (dx, dy)
    case (0, -1) => North
    case (1, 0) => East
    case (0, 1) => South
    case (-1, 0) => West
    case (1, -1) => NorthEast
    case (1, 1) => SouthEast
    case (-1, 1) => SouthWest
    case (-1, -1) => NorthWest
    case _ => North
  }

  /** Between adjacent tiles the `_ => North` fallback is never taken. */
  lemma DirectionOfInverts(dx: int, dy: int)
    ensures Adjacent(dx, dy) <==> Delta(DirectionOf(dx, dy)) == (dx, dy)
  {
  }

  function NeighborsWithPruning(entry: Option<Direction>): (ns: seq<(int, int)>)
    ensures |ns| <= 8
    ensures forall i :: 0 <= i < |ns| ==> Adjacent(ns[i].0, ns[i].1)
  {
    match entry
    case None => [(-1, -1), (0, -1), (1, -1), (-1, 0), (1, 0), (-1, 1), (0, 1), (1, 1)]
    case Some(East) => [(-1, 0), (0, 1), (1, 0), (1, 1), (-1, 1)]
    case Some(West) => [(-1, 0), (0, 1), (0, -1), (-1, -1), (-1, 1)]
    case Some(South) => [(-1, 0), (1, 0), (0, -1), (-1, -1), (1, -1)]
    case Some(North) => [(0, 1), (1, 0), (0, -1), (1, -1), (1, 1)]
    case Some(SouthEast) => [(1, 0), (0, -1), (-1, -1), (1, -1), (1, 1)]
    case Some(SouthWest) => [(-1, 0), (0, -1), (-1, -1), (1, -1), (-1, 1)]
    case Some(NorthEast) => [(0, 1), (1, 0), (1, -1), (1, 1), (-1, 1)]
    case Some(NorthWest) => [(-1, 0), (0, 1), (-1, -1), (1, 1), (-1, 1)]
  }

  /** The order in which the neighbours are tried, as directions. */
  function NeighborOrder(entry: Option<Direction>): seq<Direction> {
    match entry
    case None => [NorthWest, North, NorthEast, West, East, SouthWest, South, SouthEast]
    case Some(East) => [West, South, East, SouthEast, SouthWest]
    case Some(West) => [West, South, North, NorthWest, SouthWest]
    case Some(South) => [West, East, North, NorthWest, NorthEast]
    case Some(North) => [South, East, North, NorthEast, SouthEast]
    case Some(SouthEast) => [East, North, NorthWest, NorthEast, SouthEast]
    case Some(SouthWest) => [West, North, NorthWest, NorthEast, SouthWest]
    case Some(NorthEast) => [South, East, NorthEast, SouthEast, SouthWest]
    case Some(NorthWest) => [West, South, NorthWest, SouthEast, SouthWest]
  }

  lemma PruningOrder(entry: Option<Direction>)
    ensures |NeighborsWithPruning(entry)| == |NeighborOrder(entry)|
    ensures forall i :: 0 <= i < |NeighborOrder(entry)| ==>
              NeighborsWithPruning(entry)[i] == Delta(NeighborOrder(entry)[i])
  {
  }

  /** Where the three offsets omitted after entering in direction `d` lie: a side for a cardinal direction, a corner
      for a diagonal one. */
  function OmittedTowards(d: Direction): (int, int) {
    match d
    case North => (-1, 0)
    case East => (0, -1)
    case South => (0, 1)
    case West => (1, 0)
    case NorthEast => (-1, -1)
    case SouthEast => (-1, 1)
    case SouthWest => (1, 1)
    case NorthWest => (1, -1)
  }

  /** The start looks at all eight neighbours; a node entered in direction `d` at all but the three that touch one
      side, or one corner, of its tile. */
  lemma PruningOmitsThree(entry: Option<Direction>, dx: int, dy: int)
    requires Adjacent(dx, dy)
    ensures entry.None? ==> (dx, dy) in NeighborsWithPruning(entry)
    ensures entry.Some? ==>
      ((dx, dy) !in NeighborsWithPruning(entry) <==>
        (var (vx, vy) := OmittedTowards(entry.value);
         if vx == 0 || vy == 0 then dx * vx + dy * vy > 0 else dx * vx >= 0 && dy * vy >= 0))
  {
    var ns := NeighborsWithPruning(entry);
    if entry.None? {
      assert ns[0] == (-1, -1) && ns[1] == (0, -1) && ns[2] == (1, -1) && ns[3] == (-1, 0) && ns[4] == (1, 0);
      assert ns[5] == (-1, 1) && ns[6] == (0, 1) && ns[7] == (1, 1);
    } else {
      assert ns == [ns[0], ns[1], ns[2], ns[3], ns[4]];
    }
  }

  // ---------------------------------------------------------------------
  // What every reachable node table satisfies
  // ---------------------------------------------------------------------

  /** The cost of the step from node `p` to node `c`. */
  function LinkCost(pb: Problem, p: Node, c: Node): nat {
    StepCost(c.x - p.x, c.y - p.y, (c.x as int, c.y as int) in pb.creatures)
  }

  /** A link costs 10, or 25 across a corner, and 30 more where a creature stands. */
  lemma LinkPrice(pb: Problem, p: Node, c: Node)
    ensures LinkCost(pb, p, c) == (if p.x == c.x || p.y == c.y then 10 else 25)
                                  + if exists i :: 0 <= i < |pb.creatures| && pb.creatures[i] == (c.x as int, c.y as int)
                                    then 30 else 0
  {
  }

  /** Node 0 is the start; every other node hangs from an adjacent, strictly cheaper parent and
      stands on a tile inside the search window. */
  ghost predicate Linked(pb: Problem, nodes: seq<Node>, i: nat)
    requires i < |nodes|
  {
    var c := nodes[i];
    if i == 0 then
      c.parent == NO_PARENT && c.g == 0 && c.x == pb.start.x && c.y == pb.start.y
    else
      && c.parent < |nodes|
      && (var p := nodes[c.parent];
          && Adjacent(c.x - p.x, c.y - p.y)
          && p.g + LinkCost(pb, p, c) <= c.g)
      && !pb.TooFar(c.x, c.y)
  }

  /** A node is closed, or its `f` is `g + h`; and `g` grows by at most 55 per inserted node. */
  ghost predicate Priced(pb: Problem, nodes: seq<Node>, i: nat)
    requires i < |nodes|
  {
    && (nodes[i].f == CLOSED || nodes[i].f == nodes[i].g + pb.H(nodes[i].x, nodes[i].y))
    && nodes[i].g <= 55 * i
  }

  ghost predicate NodesOk(pb: Problem, nodes: seq<Node>) {
    && 0 < |nodes| <= MAX_NODES
    && forall i: nat :: i < |nodes| ==> Linked(pb, nodes, i) && Priced(pb, nodes, i)
  }

  /** Every node but the first stands on a tile some call of the search reported walkable. */
  ghost predicate NodesSeen(nodes: seq<Node>, trace: seq<Query>) {
    forall i: nat :: 0 < i < |nodes| ==> Seen(trace, |trace|, nodes[i].x, nodes[i].y)
  }

  /** The index holds exactly one node per coordinate. */
  ghost predicate TableOk(nodes: seq<Node>, table: map<(uint16, uint16), nat>) {
    && (forall i: nat :: i < |nodes| ==>
          (nodes[i].x, nodes[i].y) in table && table[(nodes[i].x, nodes[i].y)] == i)
    && (forall c :: c in table ==> table[c] < |nodes| && (nodes[table[c]].x, nodes[table[c]].y) == c)
  }

  /** The table holds 512 nodes; the markers are the greatest 32-bit and 16-bit numbers. */
  lemma Limits()
    ensures MAX_NODES == 512 && CLOSED == 4294967295 && NO_PARENT == 65535
  {
  }

  /** An open node's `f` is far below the closed marker, so `f < u32::MAX` tells the two apart. */
  lemma OpenIsNotClosed(pb: Problem, x: uint16, y: uint16, g: int)
    requires 0 <= g <= MAX_G
    ensures 0 <= g + pb.H(x, y) < CLOSED
  {
    HeuristicIsTaxicab(x, y, pb.target.x, pb.target.y);
  }

  // ---------------------------------------------------------------------
  // Reading the path back
  // ---------------------------------------------------------------------

  /** The directions along the parent links, from the start down to node `i`. */
  ghost function PathTo(pb: Problem, nodes: seq<Node>, i: nat): seq<Direction>
    requires NodesOk(pb, nodes) && i < |nodes|
    decreases nodes[i].g
  {
    assert Linked(pb, nodes, i);
    if nodes[i].parent == NO_PARENT then []
    else
      var p: nat := nodes[i].parent;
      PathTo(pb, nodes, p) + [DirectionOf(nodes[i].x - nodes[p].x, nodes[i].y - nodes[p].y)]
  }

  /** Replaying the path of node `i` from the start steps only onto tiles that calls of the search reported
      walkable, all inside the window, ends on the node's tile, and costs no more than the node's `g`. */
  lemma {:induction false} PathToLeadsThere(pb: Problem, nodes: seq<Node>, i: nat, trace: seq<Query>)
    requires NodesOk(pb, nodes) && NodesSeen(nodes, trace) && i < |nodes|
    ensures var path := PathTo(pb, nodes, i);
            && At(pb.start.x, pb.start.y, path, |path|) == (nodes[i].x as int, nodes[i].y as int)
            && StepsOk(pb, path, trace)
            && WalkCost(pb.start.x, pb.start.y, path, pb.creatures) <= nodes[i].g
    decreases nodes[i].g
  {
    hide Seen;
    assert Linked(pb, nodes, i);
    if nodes[i].parent != NO_PARENT {
      var p: nat := nodes[i].parent;
      PathToLeadsThere(pb, nodes, p, trace);
      var front, d := PathTo(pb, nodes, p), DirectionOf(nodes[i].x - nodes[p].x, nodes[i].y - nodes[p].y);
      DirectionOfInverts(nodes[i].x - nodes[p].x, nodes[i].y - nodes[p].y);
      ExtendWalk(pb, front, d, nodes[p], nodes[i], trace);
    }
  }

  lemma ExtendWalk(pb: Problem, front: seq<Direction>, d: Direction, p: Node, c: Node, trace: seq<Query>)
    requires At(pb.start.x, pb.start.y, front, |front|) == (p.x as int, p.y as int) && StepsOk(pb, front, trace)
    requires WalkCost(pb.start.x, pb.start.y, front, pb.creatures) <= p.g
    requires Delta(d) == (c.x - p.x, c.y - p.y) && p.g + LinkCost(pb, p, c) <= c.g
    requires Seen(trace, |trace|, c.x, c.y) && !pb.TooFar(c.x, c.y)
    ensures At(pb.start.x, pb.start.y, front + [d], |front| + 1) == (c.x as int, c.y as int)
    ensures StepsOk(pb, front + [d], trace)
    ensures WalkCost(pb.start.x, pb.start.y, front + [d], pb.creatures) <= c.g
  {
    hide Seen;
    AtSnoc(pb.start.x, pb.start.y, front, d);
    WalkCostSnoc(pb.start.x, pb.start.y, front, d, pb.creatures);
    forall k: nat | 0 < k <= |front| + 1 ensures StepOk(pb, front + [d], k, trace) {
      if k <= |front| {
        assert StepOk(pb, front, k, trace);
        AtPrefix(pb.start.x, pb.start.y, front, [d], k);
      }
    }
  }

  ghost predicate StepOk(pb: Problem, path: seq<Direction>, k: nat, trace: seq<Query>)
    requires k <= |path|
  {
    var (x, y) := At(pb.start.x, pb.start.y, path, k);
    && 0 <= x < 0x1_0000 && 0 <= y < 0x1_0000
    && Seen(trace, |trace|, x, y)
    && !pb.TooFar(x, y)
  }

  /** Every step lands on the map, inside the window, on a tile that a call of the search reported walkable. */
  ghost predicate StepsOk(pb: Problem, path: seq<Direction>, trace: seq<Query>) {
    forall k: nat :: 0 < k <= |path| ==> StepOk(pb, path, k, trace)
  }

  /** `calculate_path`: follow the parents from `end`, pushing each direction at the front. */
  method CalculatePath(ghost pb: Problem, nodes: seq<Node>, end: nat) returns (path: seq<Direction>)
    requires NodesOk(pb, nodes) && end < |nodes|
    ensures path == PathTo(pb, nodes, end)
    ensures |path| < |nodes|
  {
    path := [];
    var cur: nat := end;
    ghost var below: set<nat> := {};
    while true
      invariant cur < |nodes|
      invariant PathTo(pb, nodes, cur) + path == PathTo(pb, nodes, end)
      invariant |below| == |path|
      invariant forall i :: i in below ==> i < |nodes| && nodes[cur].g < nodes[i].g
      decreases nodes[cur].g
    {
      assert Linked(pb, nodes, cur);
      var parent := nodes[cur].parent;
      if parent == NO_PARENT {
        SubsetSize(below + {cur}, |nodes|);
        break;
      }
      var p: nat := parent;
      var dir := DirectionOf(nodes[cur].x - nodes[p].x, nodes[cur].y - nodes[p].y);
      path := [dir] + path;
      below := below + {cur};
      cur := p;
    }
  }

  // ---------------------------------------------------------------------
  // Termination: the weight of the open nodes
  // ---------------------------------------------------------------------

  function Pow9(e: nat): (r: nat)
    ensures r > 0
  {
    if e == 0 then 1 else 9 * Pow9(e - 1)
  }

  lemma {:induction false} Pow9Grows(d: nat, e: nat)
    requires d < e
    ensures 9 * Pow9(d) <= Pow9(e)
    decreases e
  {
    if d + 1 < e {
      Pow9Grows(d, e - 1);
    }
  }

  ghost function Weight(n: Node): nat {
    if n.f == CLOSED || n.g > MAX_G then 0 else Pow9(MAX_G - n.g)
  }

  /** The sum of `9^(MAX_G - g)` over the open nodes. */
  ghost function OpenWeight(nodes: seq<Node>): nat {
    if nodes == [] then 0 else OpenWeight(nodes[..|nodes| - 1]) + Weight(nodes[|nodes| - 1])
  }

  lemma OpenWeightSnoc(nodes: seq<Node>, n: Node)
    ensures OpenWeight(nodes + [n]) == OpenWeight(nodes) + Weight(n)
  {
    assert (nodes + [n])[..|nodes|] == nodes;
  }

  lemma {:induction false} OpenWeightUpdate(nodes: seq<Node>, i: nat, n: Node)
    requires i < |nodes|
    ensures OpenWeight(nodes[i := n]) == OpenWeight(nodes) - Weight(nodes[i]) + Weight(n)
  {
    var last := |nodes| - 1;
    if i == last {
      assert nodes[i := n][..last] == nodes[..last];
    } else {
      OpenWeightUpdate(nodes[..last], i, n);
      assert nodes[i := n][..last] == nodes[..last][i := n];
    }
  }

  /** A child costs more than the node being expanded, so nine of its weights fit in the parent's. */
  lemma ChildWeighsLess(parent: Node, child: Node)
    requires parent.g < child.g && parent.g <= MAX_G && parent.f != CLOSED
    ensures 9 * Weight(child) <= Weight(parent)
  {
    if child.g <= MAX_G {
      Pow9Grows(MAX_G - child.g, MAX_G - parent.g);
    }
  }

  // ---------------------------------------------------------------------
  // The node table
  // ---------------------------------------------------------------------

  predicate IsOpen(n: Node) {
    n.f < CLOSED
  }

  ghost predicate NoneOpen(nodes: seq<Node>) {
    forall i :: 0 <= i < |nodes| ==> !IsOpen(nodes[i])
  }

  /** `get_best_node`: the first open node of least `f`. */
  function GetBestNode(nodes: seq<Node>): (best: Option<nat>)
    ensures best.None? <==> NoneOpen(nodes)
    ensures best.Some? ==>
              && best.value < |nodes| && IsOpen(nodes[best.value])
              && (forall i :: 0 <= i < |nodes| ==> nodes[best.value].f <= nodes[i].f)
              && (forall i :: 0 <= i < best.value ==> nodes[best.value].f < nodes[i].f)
  {
    if nodes == [] then None
    else
      var last := |nodes| - 1;
      var r := GetBestNode(nodes[..last]);
      assert forall i :: 0 <= i < last ==> nodes[..last][i] == nodes[i];
      if IsOpen(nodes[last]) && (r.None? || nodes[last].f < nodes[r.value].f) then Some(last) else r
  }

  class AStarNodes {
    var nodes: seq<Node>
    var table: map<(uint16, uint16), nat>

    constructor ()
      ensures nodes == [] && table == map[]
    {
      nodes, table := [], map[];
    }

    method AddNode(x: uint16, y: uint16, g: uint32, f: uint32, parent: uint16) returns (ok: bool)
      modifies this
      ensures ok == (old(|nodes|) < MAX_NODES)
      ensures ok ==> nodes == old(nodes) + [Node(parent, f, g, x, y)]
                     && table == old(table)[(x, y) := old(|nodes|)]
      ensures !ok ==> nodes == old(nodes) && table == old(table)
    {
      if |nodes| >= MAX_NODES {
        return false;
      }
      var idx := |nodes|;
      nodes := nodes + [Node(parent, f, g, x, y)];
      table := table[(x, y) := idx];
      return true;
    }

    /** `try_reopen`: move the node at `(x, y)` under `parent` if that is at least as cheap. */
    method TryReopen(x: uint16, y: uint16, g: uint32, f: uint32, parent: uint16) returns (moved: bool)
      requires TableOk(nodes, table)
      modifies this`nodes
      ensures moved <==> (x, y) in table && g <= old(nodes)[table[(x, y)]].g
      ensures moved ==> nodes == old(nodes)[table[(x, y)] := Node(parent, f, g, x, y)]
      ensures !moved ==> nodes == old(nodes)
    {
      if (x, y) in table {
        var idx := table[(x, y)];
        var existing := nodes[idx];
        if g <= existing.g {
          nodes := nodes[idx := existing.(g := g, f := f, parent := parent)];
          return true;
        }
      }
      return false;
    }
  }

  // ---------------------------------------------------------------------
  // One neighbour of the node being expanded
  // ---------------------------------------------------------------------

  /** `child` may be hung below the closed node `bi`. */
  ghost predicate GoodChild(pb: Problem, nodes: seq<Node>, bi: nat, child: Node)
    requires bi < |nodes|
  {
    && child.parent == bi
    && Adjacent(child.x - nodes[bi].x, child.y - nodes[bi].y)
    && child.g == nodes[bi].g + LinkCost(pb, nodes[bi], child)
    && child.f == child.g + pb.H(child.x, child.y)
  }

  lemma ReopenKeepsNodes(pb: Problem, nodes: seq<Node>, table: map<(uint16, uint16), nat>,
                         bi: nat, idx: nat, child: Node)
    requires NodesOk(pb, nodes) && TableOk(nodes, table)
    requires bi < |nodes| && idx < |nodes| && GoodChild(pb, nodes, bi, child)
    requires child.x == nodes[idx].x && child.y == nodes[idx].y && child.g <= nodes[idx].g
    ensures idx != bi && idx != 0
    ensures NodesOk(pb, nodes[idx := child]) && TableOk(nodes[idx := child], table)
  {
    var after := nodes[idx := child];
    assert Linked(pb, nodes, 0) && Priced(pb, nodes, idx);
    forall i: nat | i < |after| ensures Linked(pb, after, i) && Priced(pb, after, i) {
      assert Linked(pb, nodes, i) && Priced(pb, nodes, i) && Linked(pb, nodes, idx);
    }
  }

  lemma AddKeepsNodes(pb: Problem, nodes: seq<Node>, table: map<(uint16, uint16), nat>, bi: nat, child: Node)
    requires NodesOk(pb, nodes) && TableOk(nodes, table) && |nodes| < MAX_NODES
    requires bi < |nodes| && GoodChild(pb, nodes, bi, child)
    requires (child.x, child.y) !in table && !pb.TooFar(child.x, child.y)
    ensures NodesOk(pb, nodes + [child])
    ensures TableOk(nodes + [child], table[(child.x, child.y) := |nodes|])
  {
    var after := nodes + [child];
    assert Priced(pb, nodes, bi);
    forall i: nat | i < |after| ensures Linked(pb, after, i) && Priced(pb, after, i) {
      if i < |nodes| {
        assert Linked(pb, nodes, i) && Priced(pb, nodes, i);
      }
    }
  }
}
