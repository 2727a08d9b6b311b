/** Walks on the tile grid, what they cost, and the search heuristic. */
module PathCost {
  import opened World

  const CARDINAL_COST: nat := 10
  const DIAGONAL_COST: nat := 25
  const CREATURE_PENALTY: nat := 30

  /** The tile reached from `(x, y)` after the first `k` steps of `path`. */
  function At(x: int, y: int, path: seq<Direction>, k: nat): (int, int)
    requires k <= |path|
  {
    if k == 0 then (x, y)
    else
      var (px, py) := At(x, y, path, k - 1);
      var (dx, dy) := Delta(path[k - 1]);
      (px + dx, py + dy)
  }

  function StepCost(dx: int, dy: int, occupied: bool): nat {
    (if dx != 0 && dy != 0 then DIAGONAL_COST else CARDINAL_COST)
    + if occupied then CREATURE_PENALTY else 0
  }

  /** The cost of walking `path` from `(x, y)`, with the penalty for every occupied tile stepped onto. */
  function WalkCost(x: int, y: int, path: seq<Direction>, creatures: seq<(int, int)>): nat {
    if path == [] then 0
    else
      var (dx, dy) := Delta(path[|path| - 1]);
      WalkCost(x, y, path[..|path| - 1], creatures)
      + StepCost(dx, dy, At(x, y, path, |path|) in creatures)
  }

  function Heuristic(x1: int, y1: int, x2: int, y2: int): nat {
    var dx, dy := Abs(x1 - x2), Abs(y1 - y2);
    var mi, ma := Min(dx, dy), Max(dx, dy);
    mi * (2 * CARDINAL_COST) + (ma - mi) * CARDINAL_COST
  }

  /** A longer path visits the same tiles as its prefix. */
  lemma {:induction false} AtPrefix(x: int, y: int, p: seq<Direction>, q: seq<Direction>, k: nat)
    requires k <= |p|
    ensures At(x, y, p + q, k) == At(x, y, p, k)
  {
    if k > 0 {
      AtPrefix(x, y, p, q, k - 1);
    }
  }

  lemma AtSnoc(x: int, y: int, p: seq<Direction>, d: Direction)
    ensures At(x, y, p + [d], |p| + 1)
         == (At(x, y, p, |p|).0 + Delta(d).0, At(x, y, p, |p|).1 + Delta(d).1)
  {
    AtPrefix(x, y, p, [d], |p|);
  }

  lemma WalkCostSnoc(x: int, y: int, p: seq<Direction>, d: Direction, creatures: seq<(int, int)>)
    ensures WalkCost(x, y, p + [d], creatures)
         == WalkCost(x, y, p, creatures)
            + StepCost(Delta(d).0, Delta(d).1, At(x, y, p + [d], |p| + 1) in creatures)
  {
    assert (p + [d])[..|p|] == p;
  }

  /** The steps of a walk along one axis, along both, and onto a tile with a creature. */
  function Straight(path: seq<Direction>): set<nat> {
    set k: nat | k < |path| && (Delta(path[k]).0 == 0 || Delta(path[k]).1 == 0)
  }

  function Diagonal(path: seq<Direction>): set<nat> {
    set k: nat | k < |path| && Delta(path[k]).0 != 0 && Delta(path[k]).1 != 0
  }

  function OntoCreature(x: int, y: int, path: seq<Direction>, creatures: seq<(int, int)>): set<nat> {
    set k: nat | 0 < k <= |path| && At(x, y, path, k) in creatures
  }

  lemma StepsSnoc(x: int, y: int, p: seq<Direction>, d: Direction, creatures: seq<(int, int)>)
    ensures var both := Delta(d).0 != 0 && Delta(d).1 != 0;
            && Straight(p + [d]) == Straight(p) + (if both then {} else {|p|})
            && Diagonal(p + [d]) == Diagonal(p) + (if both then {|p|} else {})
    ensures OntoCreature(x, y, p + [d], creatures)
         == OntoCreature(x, y, p, creatures) + if At(x, y, p + [d], |p| + 1) in creatures then {|p| + 1} else {}
  {
    hide At, Delta;
    forall k: nat | k <= |p| ensures At(x, y, p + [d], k) == At(x, y, p, k) {
      AtPrefix(x, y, p, [d], k);
    }
  }

  /** For every walk: 10 for each straight step, 25 for each diagonal one, and 30 more for each step that ends on a
      creature. */
  lemma {:induction false} WalkPrice(x: int, y: int, path: seq<Direction>, creatures: seq<(int, int)>)
    ensures WalkCost(x, y, path, creatures)
         == 10 * |Straight(path)| + 25 * |Diagonal(path)| + 30 * |OntoCreature(x, y, path, creatures)|
  {
    hide At, Delta;
    if path == [] {
      assert Straight(path) == {} && Diagonal(path) == {} && OntoCreature(x, y, path, creatures) == {};
    } else {
      var p, d := path[..|path| - 1], path[|path| - 1];
      assert path == p + [d];
      WalkPrice(x, y, p, creatures);
      WalkCostSnoc(x, y, p, d, creatures);
      StepsSnoc(x, y, p, d, creatures);
    }
  }

  /** The compass: north is up, east is right, opposite directions cancel, and a diagonal is its two sides. */
  lemma Compass()
    ensures Delta(North) == (0, -1) && Delta(East) == (1, 0)
    ensures forall p: (Direction, Direction) :: p in [(North, South), (East, West)] ==>
              Delta(p.0).0 + Delta(p.1).0 == 0 && Delta(p.0).1 + Delta(p.1).1 == 0
    ensures forall p: (Direction, Direction, Direction) ::
              p in [(NorthEast, North, East), (SouthEast, South, East), (SouthWest, South, West), (NorthWest, North, West)] ==>
              Delta(p.0) == (Delta(p.1).0 + Delta(p.2).0, Delta(p.1).1 + Delta(p.2).1)
  {
  }

  /** Since a diagonal costs more than two cardinal steps, the estimate is ten times the taxicab distance. */
  lemma HeuristicIsTaxicab(x1: int, y1: int, x2: int, y2: int)
    ensures Heuristic(x1, y1, x2, y2) == 10 * (Abs(x1 - x2) + Abs(y1 - y2))
  {
  }

  lemma StepCostBounds(d: Direction, occupied: bool)
    ensures Abs(Delta(d).0) <= 1 && Abs(Delta(d).1) <= 1 && Delta(d) != (0, 0)
    ensures 10 <= StepCost(Delta(d).0, Delta(d).1, occupied) <= 55
    ensures 10 * (Abs(Delta(d).0) + Abs(Delta(d).1)) <= StepCost(Delta(d).0, Delta(d).1, occupied)
  {
  }

  /** One step never lowers the estimate by more than it costs. */
  lemma HeuristicConsistent(x: int, y: int, d: Direction, tx: int, ty: int, occupied: bool)
    ensures Heuristic(x, y, tx, ty)
         <= StepCost(Delta(d).0, Delta(d).1, occupied)
            + Heuristic(x + Delta(d).0, y + Delta(d).1, tx, ty)
  {
    HeuristicIsTaxicab(x, y, tx, ty);
    HeuristicIsTaxicab(x + Delta(d).0, y + Delta(d).1, tx, ty);
    StepCostBounds(d, occupied);
  }

  /** The heuristic never exceeds the cost of any 8-way walk, whatever the creatures on the way. */
  lemma {:induction false} HeuristicAdmissible(x: int, y: int, path: seq<Direction>, creatures: seq<(int, int)>)
    ensures var end := At(x, y, path, |path|);
            Heuristic(x, y, end.0, end.1) <= WalkCost(x, y, path, creatures)
    decreases |path|
  {
    if path == [] {
      HeuristicIsTaxicab(x, y, x, y);
    } else {
      var p, d := path[..|path| - 1], path[|path| - 1];
      assert path == p + [d];
      HeuristicAdmissible(x, y, p, creatures);
      AtSnoc(x, y, p, d);
      WalkCostSnoc(x, y, p, d, creatures);
      var mid, end := At(x, y, p, |p|), At(x, y, path, |path|);
      HeuristicIsTaxicab(x, y, mid.0, mid.1);
      HeuristicIsTaxicab(x, y, end.0, end.1);
      StepCostBounds(d, end in creatures);
    }
  }

  /** ... and it is the largest such bound: some walk over empty tiles costs exactly that much. */
  lemma {:induction false} HeuristicAttained(x: int, y: int, tx: int, ty: int) returns (path: seq<Direction>)
    ensures At(x, y, path, |path|) == (tx, ty)
    ensures WalkCost(x, y, path, []) == Heuristic(x, y, tx, ty)
    decreases Abs(x - tx) + Abs(y - ty)
  {
    HeuristicIsTaxicab(x, y, tx, ty);
    if x == tx && y == ty {
      path := [];
    } else {
      var d := if x < tx then East else if tx < x then West else if y < ty then South else North;
      var px, py := tx - Delta(d).0, ty - Delta(d).1;
      HeuristicIsTaxicab(x, y, px, py);
      var p := HeuristicAttained(x, y, px, py);
      path := p + [d];
      AtSnoc(x, y, p, d);
      WalkCostSnoc(x, y, p, d, []);
    }
  }
}
