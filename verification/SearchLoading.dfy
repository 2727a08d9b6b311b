/** What the path search finds loaded (crates/world/src/map.rs): the chunks it loads ahead whenever a tile turns out
    walkable, against the tiles it asks about next. */
module SearchLoading {
  import opened World
  import opened NodeTable
  import opened Pathfinding
  import opened ChunkIndex
  import opened ChunkManager

  function ChunkOf(pb: Problem, x: int, y: int): ChunkId {
    (x / CHUNK_DIM, y / CHUNK_DIM, pb.start.z)
  }

  /** The chunks loaded when `(x, y)` is found walkable. */
  function AheadOf(pb: Problem, x: int, y: int): seq<ChunkId>
    requires 0 <= x < 0x1_0000 && 0 <= y < 0x1_0000
  {
    Ahead(Position(x, y, pb.start.z))
  }

  /** The step to the queried tile leaves a chunk neither from the start tile nor through a corner. */
  predicate GoodStep(pb: Problem, q: Query) {
    if FromStart(pb, q) then ChunkOf(pb, q.x, q.y) == ChunkOf(pb, q.fromX, q.fromY)
    else q.x / CHUNK_DIM == q.fromX / CHUNK_DIM || q.y / CHUNK_DIM == q.fromY / CHUNK_DIM
  }

  /** For every search and every query of it: the queried tile lies in the chunk of the tile the step comes from, or
      in one loaded ahead of that very tile when it was found walkable, if and only if the step is a good one. The start
      itself is never asked about before its neighbours, so nothing is loaded ahead of it. What other tiles had loaded
      is `KnownDuring`'s business. */
  lemma StepLoadsAhead(pb: Problem, trace: seq<Query>, k: nat)
    requires TraceOk(pb, trace) && k < |trace|
    ensures var q := trace[k];
            && 0 <= q.fromX < 0x1_0000 && 0 <= q.fromY < 0x1_0000
            && ((|| ChunkOf(pb, q.x, q.y) == ChunkOf(pb, q.fromX, q.fromY)
                 || (Seen(trace, k, q.fromX, q.fromY) && ChunkOf(pb, q.x, q.y) in AheadOf(pb, q.fromX, q.fromY)))
                <==> GoodStep(pb, q))
  {
    hide Ahead;
    var q := trace[k];
    assert QueryOk(pb, trace, k);
    if FromStart(pb, q) {
      forall j | 0 <= j < k ensures trace[j].x != pb.start.x || trace[j].y != pb.start.y {
        assert QueryOk(pb, trace, j) && FromStart(pb, trace[j]);
      }
    } else {
      AheadReaches(Position(q.fromX, q.fromY, pb.start.z), Position(q.x, q.y, pb.start.z));
    }
  }

  // ---------------------------------------------------------------------
  // The chunks held during a search
  // ---------------------------------------------------------------------

  /** What the manager holds before the `k`-th query of a search that found it holding `h`. */
  function HeldBefore(disk: Disk, h: Held, pb: Problem, trace: seq<Query>, k: nat): Held
    requires k <= |trace| && forall j :: 0 <= j < |trace| ==> 0 <= trace[j].x < 0x1_0000 && 0 <= trace[j].y < 0x1_0000
  {
    if k == 0 then h
    else
      var before := HeldBefore(disk, h, pb, trace, k - 1);
      var q := trace[k - 1];
      if q.answer then Load(disk, before, AheadOf(pb, q.x, q.y)) else before
  }

  lemma TraceOnMap(pb: Problem, trace: seq<Query>)
    requires TraceOk(pb, trace)
    ensures forall j :: 0 <= j < |trace| ==> 0 <= trace[j].x < 0x1_0000 && 0 <= trace[j].y < 0x1_0000
  {
    forall j: nat | j < |trace| ensures 0 <= trace[j].x < 0x1_0000 && 0 <= trace[j].y < 0x1_0000 {
      assert QueryOk(pb, trace, j);
    }
  }

  /** A query before the `k`-th found a tile walkable that has `id` ahead of it. */
  predicate LoadedAhead(pb: Problem, trace: seq<Query>, k: nat, id: ChunkId)
    requires k <= |trace| && forall j :: 0 <= j < |trace| ==> 0 <= trace[j].x < 0x1_0000 && 0 <= trace[j].y < 0x1_0000
  {
    exists j :: 0 <= j < k && trace[j].answer && id in AheadOf(pb, trace[j].x, trace[j].y)
  }

  /** The exact criterion, for every chunk at every moment of a search: it has been tried if and only if it was known
      before the search or lies ahead of a tile found walkable since. */
  lemma {:induction false} KnownDuring(disk: Disk, h: Held, pb: Problem, trace: seq<Query>, k: nat, id: ChunkId)
    requires Faithful(disk, h) && k <= |trace|
    requires forall j :: 0 <= j < |trace| ==> 0 <= trace[j].x < 0x1_0000 && 0 <= trace[j].y < 0x1_0000
    ensures Faithful(disk, HeldBefore(disk, h, pb, trace, k))
    ensures Known(HeldBefore(disk, h, pb, trace, k), id) <==> Known(h, id) || LoadedAhead(pb, trace, k, id)
    decreases k
  {
    hide AheadOf, Load, Faithful;
    if k > 0 {
      KnownDuring(disk, h, pb, trace, k - 1, id);
      var q := trace[k - 1];
      if q.answer {
        LoadAdds(disk, HeldBefore(disk, h, pb, trace, k - 1), AheadOf(pb, q.x, q.y));
      }
    }
  }

  /** A tile is reported walkable only when its chunk is in memory at that moment. */
  ghost predicate Truthful(disk: Disk, h: Held, pb: Problem, trace: seq<Query>)
    requires forall j :: 0 <= j < |trace| ==> 0 <= trace[j].x < 0x1_0000 && 0 <= trace[j].y < 0x1_0000
  {
    forall j: nat :: j < |trace| && trace[j].answer ==>
      ChunkOf(pb, trace[j].x, trace[j].y) in HeldBefore(disk, h, pb, trace, j).chunks
  }

  /** Every query that a good step leads to is about a tile whose chunk the manager has tried to load by then, so an
      unanswered chunk is one the disk does not have. */
  lemma GoodStepsStayLoaded(disk: Disk, h: Held, pb: Problem, trace: seq<Query>, k: nat)
    requires TraceOk(pb, trace) && k < |trace| && GoodStep(pb, trace[k]) && Faithful(disk, h)
    requires forall j :: 0 <= j < |trace| ==> 0 <= trace[j].x < 0x1_0000 && 0 <= trace[j].y < 0x1_0000
    requires Known(h, ChunkOf(pb, pb.start.x, pb.start.y)) && Truthful(disk, h, pb, trace)
    ensures var id := ChunkOf(pb, trace[k].x, trace[k].y);
            var held := HeldBefore(disk, h, pb, trace, k);
            Known(held, id) && (id in held.chunks <==> id in disk)
  {
    hide AheadOf, HeldBefore, GoodStep;
    var q := trace[k];
    var id := ChunkOf(pb, q.x, q.y);
    StepLoadsAhead(pb, trace, k);
    assert QueryOk(pb, trace, k);
    KnownDuring(disk, h, pb, trace, k, id);
    if !FromStart(pb, q) {
      var j :| 0 <= j < k && trace[j].answer && trace[j].x == q.fromX && trace[j].y == q.fromY;
      var own := ChunkOf(pb, q.fromX, q.fromY);
      KnownDuring(disk, h, pb, trace, j, own);
      KnownDuring(disk, h, pb, trace, k, own);
      assert own in HeldBefore(disk, h, pb, trace, j).chunks;
      LoadedStays(pb, trace, j, k, own);
    }
  }

  lemma LoadedStays(pb: Problem, trace: seq<Query>, j: nat, k: nat, id: ChunkId)
    requires j <= k <= |trace|
    requires forall j :: 0 <= j < |trace| ==> 0 <= trace[j].x < 0x1_0000 && 0 <= trace[j].y < 0x1_0000
    ensures LoadedAhead(pb, trace, j, id) ==> LoadedAhead(pb, trace, k, id)
  {
    hide AheadOf;
  }

  // ---------------------------------------------------------------------
  // Searches near a player
  // ---------------------------------------------------------------------

  /** Every chunk of the grid around `p` has been tried. */
  ghost predicate GridKnown(h: Held, p: Position) {
    forall id :: IsAround(p, id) ==> Known(h, id)
  }

  /** The grid around `p` was loaded at step `i`, and every sweep since has required it. */
  ghost predicate GridKept(ops: seq<Op>, p: Position, i: nat) {
    && i < |ops| && ops[i].EnsureLoaded? && (forall id :: IsAround(p, id) ==> id in ops[i].ids)
    && (forall j :: i < j < |ops| && ops[j].SweepUnless? ==> forall id :: IsAround(p, id) ==> id in ops[j].required)
  }

  /** What a player's login, teleport or step loads stays known for as long as the sweeps require it. */
  lemma GridStaysKnown(disk: Disk, ops: seq<Op>, p: Position, i: nat)
    requires GridKept(ops, p, i)
    ensures Faithful(disk, Run(disk, ops)) && GridKnown(Run(disk, ops), p)
  {
    hide Run, Faithful, IsAround, PinnedBy;
    RunIsFaithful(disk, ops, (0, 0, 0));
    forall id | IsAround(p, id) ensures Known(Run(disk, ops), id) {
      RunIsFaithful(disk, ops, id);
      forall j | i < j < |ops| ensures SparesAt(ops, id, j) {
        assert ops[j].SweepUnless? ==> id in ops[j].required;
      }
      assert KeptSince(ops, id, i);
      assert AskedBy(ops, id);
    }
  }

  /** The search starts on a floor of the grid around `p`, and its window ends less than a chunk away from `p`. */
  predicate SearchesNear(pb: Problem, p: Position) {
    && !pb.params.fullSearch && 0 <= pb.params.maxSearchDist
    && FloorSpan(p.z).0 <= pb.start.z <= FloorSpan(p.z).1
    && Max(Abs(pb.start.x - p.x), Abs(pb.start.y - p.y)) + pb.params.maxSearchDist < CHUNK_DIM
  }

  lemma NearChunk(a: int, b: int)
    requires Abs(b - a) <= CHUNK_DIM
    ensures -1 <= b / CHUNK_DIM - a / CHUNK_DIM <= 1
  {
  }

  lemma QueriesStayNear(pb: Problem, trace: seq<Query>, k: nat, p: Position)
    requires TraceOk(pb, trace) && k < |trace| && SearchesNear(pb, p)
    ensures IsAround(p, ChunkOf(pb, trace[k].x, trace[k].y))
  {
    hide Seen;
    var q := trace[k];
    assert QueryOk(pb, trace, k);
    OneFurther(pb.start.x - p.x, q.fromX - pb.start.x, q.x - q.fromX, pb.params.maxSearchDist);
    OneFurther(pb.start.y - p.y, q.fromY - pb.start.y, q.y - q.fromY, pb.params.maxSearchDist);
    NearChunk(p.x, q.x);
    NearChunk(p.y, q.y);
  }

  lemma OneFurther(a: int, b: int, c: int, dist: int)
    requires Abs(a) + dist < CHUNK_DIM && Abs(b) <= dist && -1 <= c <= 1
    ensures Abs(a + b + c) <= CHUNK_DIM
  {
  }

  /** Every query of every search near a position whose grid is known is about a tile whose chunk the manager has
      tried: it is in memory, or the disk does not have it. */
  lemma SearchStaysLoaded(disk: Disk, h: Held, pb: Problem, trace: seq<Query>, k: nat, p: Position)
    requires TraceOk(pb, trace) && k < |trace| && Faithful(disk, h) && GridKnown(h, p) && SearchesNear(pb, p)
    requires forall j :: 0 <= j < |trace| ==> 0 <= trace[j].x < 0x1_0000 && 0 <= trace[j].y < 0x1_0000
    ensures var id := ChunkOf(pb, trace[k].x, trace[k].y);
            var held := HeldBefore(disk, h, pb, trace, k);
            Known(held, id) && (id in held.chunks <==> id in disk)
  {
    hide AheadOf, HeldBefore, SearchesNear, IsAround, TraceOk;
    QueriesStayNear(pb, trace, k, p);
    KnownDuring(disk, h, pb, trace, k, ChunkOf(pb, trace[k].x, trace[k].y));
  }

  /** A player's own search: the grid around its start was loaded when the player got there, and the sweeps since have
      required it. Whatever the manager did before and in between, the search never asks about a chunk not tried. */
  lemma PlayerSearchStaysLoaded(disk: Disk, ops: seq<Op>, i: nat, pb: Problem, trace: seq<Query>, k: nat)
    requires GridKept(ops, pb.start, i) && pb.start.z <= 15
    requires !pb.params.fullSearch && 0 <= pb.params.maxSearchDist < CHUNK_DIM
    requires TraceOk(pb, trace) && k < |trace|
    requires forall j :: 0 <= j < |trace| ==> 0 <= trace[j].x < 0x1_0000 && 0 <= trace[j].y < 0x1_0000
    ensures var id := ChunkOf(pb, trace[k].x, trace[k].y);
            var held := HeldBefore(disk, Run(disk, ops), pb, trace, k);
            Known(held, id) && (id in held.chunks <==> id in disk)
  {
    hide GridKept, GridKnown, TraceOk, HeldBefore, Run, Faithful, Known;
    GridStaysKnown(disk, ops, pb.start, i);
    SearchStaysLoaded(disk, Run(disk, ops), pb, trace, k, pb.start);
  }

  // ---------------------------------------------------------------------
  // Two searches that are not helped by loading ahead
  // ---------------------------------------------------------------------

  /** A search that finds nothing walkable but `free`. */
  function Walled(start: Position, target: Position, params: FindPathParams, free: (int, int)): Problem {
    Problem(start, target, [], params, (k, x, y) => (x, y) == free)
  }

  /** From the last column of a chunk the search asks about the next column, a plain edge away. That chunk has been
      tried by then only if it was known before the search. */
  lemma StartEdgeMissed(target: Position, params: FindPathParams, disk: Disk, h: Held, trace: seq<Query>)
    requires var pb := Walled(Position(255, 100, 7), target, params, (-1, -1));
             TraceOk(pb, trace) && StartQueries(pb) <= trace && Faithful(disk, h)
    ensures var pb := Walled(Position(255, 100, 7), target, params, (-1, -1));
            && |trace| > 4 && (trace[4].x, trace[4].y) == (256, 100)
            && (forall j :: 0 <= j < |trace| ==> 0 <= trace[j].x < 0x1_0000 && 0 <= trace[j].y < 0x1_0000)
            && (Known(HeldBefore(disk, h, pb, trace, 4), ChunkOf(pb, 256, 100)) <==> Known(h, ChunkOf(pb, 256, 100)))
  {
    hide HeldBefore, AheadOf;
    var pb := Walled(Position(255, 100, 7), target, params, (-1, -1));
    TraceOnMap(pb, trace);
    StartAsks(pb, trace);
    forall j | 0 <= j < 4 ensures !trace[j].answer {
      assert QueryOk(pb, trace, j);
    }
    KnownDuring(disk, h, pb, trace, 4, ChunkOf(pb, 256, 100));
  }

  /** From the corner of a chunk, although a tile was found walkable and both its edges were loaded ahead, the search
      asks about the chunk across the corner. That one has been tried by then only if it was known before the search. */
  lemma CornerMissed(target: Position, params: FindPathParams, disk: Disk, h: Held, trace: seq<Query>)
    requires var pb := Walled(Position(255, 255, 7), target, params, (254, 254));
             TraceOk(pb, trace) && StartQueries(pb) <= trace && Faithful(disk, h)
    ensures var pb := Walled(Position(255, 255, 7), target, params, (254, 254));
            && |trace| > 7 && (trace[7].x, trace[7].y) == (256, 256) && trace[0].answer
            && (forall j :: 0 <= j < |trace| ==> 0 <= trace[j].x < 0x1_0000 && 0 <= trace[j].y < 0x1_0000)
            && (Known(HeldBefore(disk, h, pb, trace, 7), ChunkOf(pb, 256, 256)) <==> Known(h, ChunkOf(pb, 256, 256)))
  {
    hide HeldBefore;
    var pb := Walled(Position(255, 255, 7), target, params, (254, 254));
    TraceOnMap(pb, trace);
    StartAsks(pb, trace);
    forall j | 0 <= j < 7 ensures trace[j].answer <==> j == 0 {
      assert QueryOk(pb, trace, j);
    }
    assert AheadOf(pb, 254, 254) == [(1, 0, 7), (0, 1, 7)];
    KnownDuring(disk, h, pb, trace, 7, ChunkOf(pb, 256, 256));
  }

  /** Away from the edges of the map, the first eight queries are about the eight neighbours, in the table's order. */
  lemma StartAsks(pb: Problem, trace: seq<Query>)
    requires 0 < pb.start.x < 0xFFFF && 0 < pb.start.y < 0xFFFF && StartQueries(pb) <= trace
    ensures |trace| >= 8
    ensures forall i :: 0 <= i < 8 ==>
              var d := NeighborsWithPruning(None)[i];
              i < |NeighborsWithPruning(None)| && trace[i].x == pb.start.x + d.0 && trace[i].y == pb.start.y + d.1
  {
    var ds := NeighborsWithPruning(None);
    AllAsked(pb, ds, 0);
  }

  lemma {:induction false} AllAsked(pb: Problem, ds: seq<(int, int)>, k: nat)
    requires 0 < pb.start.x < 0xFFFF && 0 < pb.start.y < 0xFFFF
    requires forall i :: 0 <= i < |ds| ==> Adjacent(ds[i].0, ds[i].1)
    ensures var asked := Queries(pb, pb.start.x, pb.start.y, ds, k);
            && |asked| == |ds|
            && forall i :: 0 <= i < |ds| ==> asked[i].x == pb.start.x + ds[i].0 && asked[i].y == pb.start.y + ds[i].1
  {
    if ds != [] {
      AllAsked(pb, ds[..|ds| - 1], k);
    }
  }
}
