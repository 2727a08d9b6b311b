/** Auto-walk requests: the step bytes of a client packet and the tile they lead to
    (crates/protocol/src/walk.rs). */
module AutoWalk {
  import opened World
  import opened PathCost
  import opened NodeTable
  import opened Pathfinding

  /** East is 1, and the directions go round counter-clockwise to south-east, 8. */
  function StepOf(b: uint8): Option<Direction> {
    match b
    case 1 => Some(East)
    case 2 => Some(NorthEast)
    case 3 => Some(North)
    case 4 => Some(NorthWest)
    case 5 => Some(West)
    case 6 => Some(SouthWest)
    case 7 => Some(South)
    case 8 => Some(SouthEast)
    case _ => None
  }

  function ByteOf(d: Direction): (b: uint8)
    ensures forall c: uint8 :: StepOf(c) == Some(d) <==> c == b
  {
    match d
    case East => 1
    case NorthEast => 2
    case North => 3
    case NorthWest => 4
    case West => 5
    case SouthWest => 6
    case South => 7
    case SouthEast => 8
  }

  function Bytes(steps: seq<Direction>): seq<uint8> {
    seq(|steps|, i requires 0 <= i < |steps| => ByteOf(steps[i]))
  }

  /** The known steps among the bytes, in order. */
  function Steps(body: seq<uint8>): seq<Direction> {
    if body == [] then []
    else
      var last := StepOf(body[|body| - 1]);
      Steps(body[..|body| - 1]) + if last.Some? then [last.value] else []
  }

  /** A request carries a count and at least that many bytes, of which some are steps. */
  function Requested(body: seq<uint8>): Option<seq<Direction>> {
    if body == [] || |body| <= body[0] || Steps(body[1..body[0] + 1]) == [] then None
    else Some(Steps(body[1..body[0] + 1]))
  }

  /** `parse_auto_walk` */
  method ParseAutoWalk(body: seq<uint8>) returns (steps: Option<seq<Direction>>)
    ensures steps == Requested(body)
  {
    if body == [] || body[0] == 0 || |body| <= body[0] {
      return None;
    }
    var n: int := body[0];
    var found := [];
    for i := 1 to n + 1
      invariant found == Steps(body[1..i])
    {
      assert body[1..i + 1][..i - 1] == body[1..i];
      var step := StepOf(body[i]);
      if step.Some? {
        found := found + [step.value];
      }
    }
    return if found == [] then None else Some(found);
  }

  lemma {:induction false} StepsRoundTrip(steps: seq<Direction>)
    ensures Steps(Bytes(steps)) == steps
  {
    if steps != [] {
      var front := steps[..|steps| - 1];
      StepsRoundTrip(front);
      assert Bytes(steps)[..|steps| - 1] == Bytes(front);
    }
  }

  /** A request for 1 to 255 steps, whatever follows it, is read back as those steps. */
  lemma RequestRoundTrip(steps: seq<Direction>, rest: seq<uint8>)
    requires 0 < |steps| < 0x100
    ensures Requested([|steps| as uint8] + Bytes(steps) + rest) == Some(steps)
  {
    var body := [|steps| as uint8] + Bytes(steps) + rest;
    assert body[1..body[0] + 1] == Bytes(steps);
    StepsRoundTrip(steps);
  }

  predicate OnMap(at: (int, int)) {
    0 <= at.0 < 0x1_0000 && 0 <= at.1 < 0x1_0000
  }

  /** `auto_walk_destination`: the end of the walk, unless some tile on the way lies off the map. */
  method AutoWalkDestination(start: Position, steps: seq<Direction>) returns (end: Option<Position>)
    ensures end.Some? <==> forall k :: 0 <= k <= |steps| ==> OnMap(At(start.x, start.y, steps, k))
    ensures end.Some? ==> (end.value.x, end.value.y) == At(start.x, start.y, steps, |steps|) && end.value.z == start.z
  {
    var x, y := start.x, start.y;
    for i := 0 to |steps|
      invariant (x, y) == At(start.x, start.y, steps, i)
      invariant forall k :: 0 <= k <= i ==> OnMap(At(start.x, start.y, steps, k))
    {
      var (dx, dy) := Delta(steps[i]);
      var nx, ny := x + dx, y + dy;
      if !(0 <= nx < 0x1_0000) || !(0 <= ny < 0x1_0000) {
        assert !OnMap(At(start.x, start.y, steps, i + 1));
        return None;
      }
      x, y := nx, ny;
    }
    return Some(Position(x, y, start.z));
  }

  /** A path the search returns never leaves the map, so it can be requested as an auto-walk; the tile it leads to
      meets the search's condition. */
  lemma AnswersStayOnMap(pb: Problem, condition: Position -> bool, path: seq<Direction>,
                         trace: seq<Query>)
    requires IsAnswer(pb, condition, path, trace)
    ensures forall k :: 0 <= k <= |path| ==> OnMap(At(pb.start.x, pb.start.y, path, k))
    ensures forall at :: OnMap(at) <==> 0 <= at.0 <= 65535 && 0 <= at.1 <= 65535
    ensures var (x, y) := At(pb.start.x, pb.start.y, path, |path|);
            OnMap((x, y)) && condition(Position(x, y, pb.start.z))
  {
    forall k | 0 <= k <= |path| ensures OnMap(At(pb.start.x, pb.start.y, path, k)) {
      if k > 0 {
        assert StepOk(pb, path, k, trace);
      }
    }
  }
}
