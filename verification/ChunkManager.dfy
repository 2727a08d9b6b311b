/** The chunks held in memory (crates/world/src/map.rs): loaded on demand from a fixed disk, swept
    unless required or pinned, with the failed reads remembered. */
module ChunkManager {
  import opened World
  import opened Client
  import opened ChunkIndex

  /** The readable chunk files; an absent or corrupt file is not in the map. */
  type Disk = map<ChunkId, Chunk>

  datatype Held = Held(chunks: map<ChunkId, Chunk>, pinned: set<ChunkId>, missing: set<ChunkId>)

  const NOTHING_HELD := Held(map[], {}, {})

  // ---------------------------------------------------------------------
  // The operations on values
  // ---------------------------------------------------------------------

  predicate Known(h: Held, id: ChunkId) {
    id in h.chunks || id in h.missing
  }

  function LoadOne(disk: Disk, h: Held, id: ChunkId): Held {
    if Known(h, id) then h
    else if id in disk then h.(chunks := h.chunks[id := disk[id]])
    else h.(missing := h.missing + {id})
  }

  function Load(disk: Disk, h: Held, ids: seq<ChunkId>): Held {
    if ids == [] then h else LoadOne(disk, Load(disk, h, ids[..|ids| - 1]), ids[|ids| - 1])
  }

  function Sweep(h: Held, required: set<ChunkId>): Held {
    h.(chunks := map id | id in h.chunks && (id in required || id in h.pinned) :: h.chunks[id])
  }

  function Pin(h: Held, ids: seq<ChunkId>): Held {
    h.(pinned := h.pinned + set id | id in ids)
  }

  datatype Op = EnsureLoaded(ids: seq<ChunkId>) | SweepUnless(required: set<ChunkId>) | PinAll(ids: seq<ChunkId>)

  function Apply(disk: Disk, h: Held, op: Op): Held {
    match op
    case EnsureLoaded(ids) => Load(disk, h, ids)
    case SweepUnless(required) => Sweep(h, required)
    case PinAll(ids) => Pin(h, ids)
  }

  /** A run of operations from the empty manager. */
  function Run(disk: Disk, ops: seq<Op>): Held {
    if ops == [] then NOTHING_HELD else Apply(disk, Run(disk, ops[..|ops| - 1]), ops[|ops| - 1])
  }

  // ---------------------------------------------------------------------
  // The manager
  // ---------------------------------------------------------------------

  class ChunkManager {
    var chunks: map<ChunkId, Chunk>
    var pinned: set<ChunkId>
    var missing: set<ChunkId>

    function State(): Held
      reads this
    {
      Held(chunks, pinned, missing)
    }

    constructor ()
      ensures State() == NOTHING_HELD
    {
      chunks, pinned, missing := map[], {}, {};
    }

    /** Load what is neither in memory nor known to be missing; `opened_` lists the files it opened. */
    method EnsureLoaded(disk: Disk, ids: seq<ChunkId>) returns (opened_: seq<ChunkId>)
      modifies this`chunks, this`missing
      ensures State() == Load(disk, old(State()), ids)
      ensures opened_ == Opened(disk, old(State()), ids)
    {
      opened_ := [];
      for i := 0 to |ids|
        invariant State() == Load(disk, old(State()), ids[..i])
        invariant opened_ == Opened(disk, old(State()), ids[..i])
      {
        assert ids[..i + 1][..i] == ids[..i];
        var id := ids[i];
        if id !in chunks && id !in missing {
          opened_ := opened_ + [id];
          if id in disk {
            chunks := chunks[id := disk[id]];
          } else {
            missing := missing + {id};
          }
        }
      }
      assert ids[..|ids|] == ids;
    }

    /** Keep exactly the chunks in memory that are required or pinned. */
    method SweepChunks(required: set<ChunkId>)
      modifies this`chunks
      ensures State() == Sweep(old(State()), required)
    {
      var kept := map[];
      var todo := chunks.Keys;
      while todo != {}
        invariant todo <= chunks.Keys && chunks == old(chunks)
        invariant kept == map id | id in chunks && id !in todo && (id in required || id in pinned) :: chunks[id]
        decreases |todo|
      {
        var id :| id in todo;
        todo := todo - {id};
        if id in required || id in pinned {
          kept := kept[id := chunks[id]];
        }
      }
      chunks := kept;
    }

    method PinChunks(ids: seq<ChunkId>)
      modifies this`pinned
      ensures State() == Pin(old(State()), ids)
    {
      for i := 0 to |ids|
        invariant pinned == old(pinned) + set id | id in ids[..i]
      {
        pinned := pinned + {ids[i]};
      }
      assert ids[..|ids|] == ids;
    }
  }

  // ---------------------------------------------------------------------
  // What every run keeps
  // ---------------------------------------------------------------------

  /** Memory agrees with the disk, and only absent files are remembered missing. */
  ghost predicate Faithful(disk: Disk, h: Held) {
    && (forall id :: id in h.chunks ==> id in disk && h.chunks[id] == disk[id])
    && h.missing !! disk.Keys
  }

  /** Loading adds exactly the asked-for chunks that exist, and remembers exactly the ones that do not. */
  lemma {:induction false} LoadAdds(disk: Disk, h: Held, ids: seq<ChunkId>)
    requires Faithful(disk, h)
    ensures var h' := Load(disk, h, ids);
            && Faithful(disk, h') && h'.pinned == h.pinned
            && (forall id :: id in h'.chunks <==> id in h.chunks || (id in ids && id in disk))
            && (forall id :: id in h'.missing <==> id in h.missing || (id in ids && id !in disk))
  {
    if ids != [] {
      LoadAdds(disk, h, ids[..|ids| - 1]);
      assert ids == ids[..|ids| - 1] + [ids[|ids| - 1]];
    }
  }

  /** Whether the operation could drop or keep `id`, given whether it is pinned. */
  predicate Spares(op: Op, id: ChunkId, isPinned: bool) {
    op.SweepUnless? ==> isPinned || id in op.required
  }

  predicate PinnedBy(ops: seq<Op>, id: ChunkId) {
    exists k :: 0 <= k < |ops| && ops[k].PinAll? && id in ops[k].ids
  }

  predicate AskedBy(ops: seq<Op>, id: ChunkId) {
    exists k :: 0 <= k < |ops| && ops[k].EnsureLoaded? && id in ops[k].ids
  }

  /** Asked for at step `i`, and spared by every step since. */
  predicate KeptSince(ops: seq<Op>, id: ChunkId, i: nat) {
    && i < |ops| && ops[i].EnsureLoaded? && id in ops[i].ids
    && forall j :: i < j < |ops| ==> SparesAt(ops, id, j)
  }

  predicate SparesAt(ops: seq<Op>, id: ChunkId, j: nat)
    requires j < |ops|
  {
    Spares(ops[j], id, PinnedBy(ops[..j], id))
  }

  predicate Kept(ops: seq<Op>, id: ChunkId) {
    exists i: nat :: i < |ops| && KeptSince(ops, id, i)
  }

  /** After every run: memory agrees with the disk, no chunk is both loaded and missing, the pinned ids are
      the ones ever pinned, the missing ids the absent ones ever asked for, and a chunk is in memory exactly
      when it is on disk and was asked for with no sweep since that neither required it nor found it pinned. */
  lemma {:induction false} RunIsFaithful(disk: Disk, ops: seq<Op>, id: ChunkId)
    ensures var h := Run(disk, ops);
            && Faithful(disk, h) && h.chunks.Keys !! h.missing
            && (id in h.pinned <==> PinnedBy(ops, id))
            && (id in h.missing <==> AskedBy(ops, id) && id !in disk)
            && (id in h.chunks <==> id in disk && Kept(ops, id))
  {
    hide PinnedBy, AskedBy, Kept, Load;
    if ops == [] {
      NoHistory(id);
    } else {
      var front, op := ops[..|ops| - 1], ops[|ops| - 1];
      assert ops == front + [op];
      RunIsFaithful(disk, front, id);
      PinnedSnoc(front, op, id);
      AskedSnoc(front, op, id);
      KeptSnoc(front, op, id);
      if op.EnsureLoaded? {
        LoadAdds(disk, Run(disk, front), op.ids);
      }
    }
  }

  lemma NoHistory(id: ChunkId)
    ensures !PinnedBy([], id) && !AskedBy([], id) && !Kept([], id)
  {
  }

  lemma PinnedSnoc(front: seq<Op>, op: Op, id: ChunkId)
    ensures PinnedBy(front + [op], id) <==> PinnedBy(front, id) || (op.PinAll? && id in op.ids)
  {
    if PinnedBy(front, id) {
      var k :| 0 <= k < |front| && front[k].PinAll? && id in front[k].ids;
      assert (front + [op])[k] == front[k];
    }
    assert (front + [op])[|front|] == op;
  }

  lemma AskedSnoc(front: seq<Op>, op: Op, id: ChunkId)
    ensures AskedBy(front + [op], id) <==> AskedBy(front, id) || (op.EnsureLoaded? && id in op.ids)
  {
    if AskedBy(front, id) {
      var k :| 0 <= k < |front| && front[k].EnsureLoaded? && id in front[k].ids;
      assert (front + [op])[k] == front[k];
    }
    assert (front + [op])[|front|] == op;
  }

  lemma KeptSinceSnoc(front: seq<Op>, op: Op, id: ChunkId, i: nat)
    requires i < |front|
    ensures KeptSince(front + [op], id, i) <==> KeptSince(front, id, i) && Spares(op, id, PinnedBy(front, id))
  {
    hide Spares, PinnedBy;
    var ops := front + [op];
    forall j: nat | j < |front| ensures SparesAt(ops, id, j) == SparesAt(front, id, j) {
      assert ops[j] == front[j] && ops[..j] == front[..j];
    }
    assert ops[|front|] == op && ops[..|front|] == front;
    assert SparesAt(ops, id, |front|) == Spares(op, id, PinnedBy(front, id));
  }

  lemma KeptSinceLast(front: seq<Op>, op: Op, id: ChunkId)
    ensures KeptSince(front + [op], id, |front|) <==> op.EnsureLoaded? && id in op.ids
  {
  }

  /** How one more step changes whether `id` is kept. */
  lemma KeptSnoc(front: seq<Op>, op: Op, id: ChunkId)
    ensures Kept(front + [op], id)
       <==> (op.EnsureLoaded? && id in op.ids) || (Kept(front, id) && Spares(op, id, PinnedBy(front, id)))
  {
    hide KeptSince, PinnedBy, Spares;
    var n := |front|;
    KeptSinceLast(front, op, id);
    forall i: nat | i < n
      ensures KeptSince(front + [op], id, i) <==> KeptSince(front, id, i) && Spares(op, id, PinnedBy(front, id))
    {
      KeptSinceSnoc(front, op, id, i);
    }
    if Kept(front, id) && Spares(op, id, PinnedBy(front, id)) {
      var i: nat :| i < n && KeptSince(front, id, i);
      assert KeptSince(front + [op], id, i);
    }
  }

  // ---------------------------------------------------------------------
  // A miss is read once
  // ---------------------------------------------------------------------

  /** The files one `EnsureLoaded` opens, in order. */
  function Opened(disk: Disk, h: Held, ids: seq<ChunkId>): seq<ChunkId> {
    if ids == [] then []
    else
      var last := |ids| - 1;
      Opened(disk, h, ids[..last]) + if Known(Load(disk, h, ids[..last]), ids[last]) then [] else [ids[last]]
  }

  function OpenedBy(disk: Disk, h: Held, op: Op): seq<ChunkId> {
    if op.EnsureLoaded? then Opened(disk, h, op.ids) else []
  }

  function OpenedInRun(disk: Disk, ops: seq<Op>): seq<ChunkId> {
    if ops == [] then []
    else
      var front := ops[..|ops| - 1];
      OpenedInRun(disk, front) + OpenedBy(disk, Run(disk, front), ops[|ops| - 1])
  }

  lemma {:induction false} MissOpenedOnce(disk: Disk, h: Held, ids: seq<ChunkId>, id: ChunkId)
    requires Faithful(disk, h) && id !in disk
    ensures multiset(Opened(disk, h, ids))[id] == if id in h.missing || id !in ids then 0 else 1
  {
    hide Load, Faithful, Opened;
    if ids == [] {
      NothingOpened(disk, h);
    } else {
      var front, last := ids[..|ids| - 1], ids[|ids| - 1];
      MissOpenedOnce(disk, h, front, id);
      LoadAdds(disk, h, front);
      assert ids == front + [last];
      OpenedSnoc(disk, h, front, last);
      assert id !in h.chunks by { NotHeld(disk, h, id); }
    }
  }

  lemma NothingOpened(disk: Disk, h: Held)
    ensures Opened(disk, h, []) == []
  {
  }

  lemma OpenedSnoc(disk: Disk, h: Held, front: seq<ChunkId>, last: ChunkId)
    ensures Opened(disk, h, front + [last])
         == Opened(disk, h, front) + if Known(Load(disk, h, front), last) then [] else [last]
  {
    hide Load;
    assert (front + [last])[..|front|] == front;
  }

  lemma NotHeld(disk: Disk, h: Held, id: ChunkId)
    requires Faithful(disk, h) && id !in disk
    ensures id !in h.chunks
  {
  }

  /** Over a whole run, a chunk file that does not exist is opened exactly once if it is ever asked for,
      however often that is and whatever is swept in between. */
  lemma {:induction false} MissesOpenedOnceInRun(disk: Disk, ops: seq<Op>, id: ChunkId)
    requires id !in disk
    ensures multiset(OpenedInRun(disk, ops))[id] == if AskedBy(ops, id) then 1 else 0
  {
    hide AskedBy, Run, Opened;
    if ops == [] {
      NoHistory(id);
    } else {
      var front, op := ops[..|ops| - 1], ops[|ops| - 1];
      MissesOpenedOnceInRun(disk, front, id);
      RunIsFaithful(disk, front, id);
      if op.EnsureLoaded? {
        MissOpenedOnce(disk, Run(disk, front), op.ids, id);
      }
      AskedSnoc(front, op, id);
      assert ops == front + [op];
    }
  }

  // ---------------------------------------------------------------------
  // Which chunks a player needs
  // ---------------------------------------------------------------------

  /** `viewport_floor_span`: the visible floors plus stair slack. */
  function FloorSpan(z: uint8): (int, int) {
    if z <= 7 then (0, Min(Max(7, z + 1), 8)) else (z - 3, Min(z + 3, 15))
  }

  /** The 3x3 grid of chunks around a position, on every floor of its span. */
  predicate IsAround(p: Position, id: ChunkId) {
    && FloorSpan(p.z).0 <= id.2 <= FloorSpan(p.z).1
    && -1 <= id.0 - p.x / CHUNK_DIM <= 1 && -1 <= id.1 - p.y / CHUNK_DIM <= 1
  }

  /** Whether the loops over floors, rows and columns have passed `id` when they stand at `(x, y, z)`. */
  predicate Before(id: ChunkId, x: int, y: int, z: int) {
    id.2 < z || (id.2 == z && (id.1 < y || (id.1 == y && id.0 < x)))
  }

  method ChunksAround(p: Position) returns (ids: set<ChunkId>)
    ensures forall id :: id in ids <==> IsAround(p, id)
  {
    var cx, cy, span := p.x / CHUNK_DIM, p.y / CHUNK_DIM, FloorSpan(p.z);
    ids := {};
    var z: int := span.0;
    while z <= span.1
      invariant span.0 <= z
      invariant z <= Max(span.0, span.1 + 1)
      invariant forall id: ChunkId :: id in ids <==> IsAround(p, id) && Before(id, cx - 1, cy - 1, z)
    {
      for dcy := -1 to 2
        invariant forall id: ChunkId :: id in ids <==>
          IsAround(p, id) && Before(id, cx - 1, cy + dcy, z)
      {
        for dcx := -1 to 2
          invariant forall id: ChunkId :: id in ids <==>
            IsAround(p, id) && Before(id, cx + dcx, cy + dcy, z)
        {
          ids := ids + {(cx + dcx, cy + dcy, z)};
        }
      }
      z := z + 1;
    }
  }

  /** Nine chunks to a floor: the player's own and those that touch it. Above ground the floors are 0 to 7, and from
      floor 7 also 8; below, three either way, down to 15. */
  lemma GridMeans(p: Position, id: ChunkId)
    ensures IsAround(p, id) <==>
              && id.0 - p.x / 256 in {-1, 0, 1} && id.1 - p.y / 256 in {-1, 0, 1}
              && (if p.z < 7 then id.2 <= 7 else if p.z == 7 then id.2 <= 8
                  else p.z - id.2 <= 3 && id.2 - p.z <= 3 && id.2 <= 15)
  {
  }

  /** The chunk of every tile the map description samples is around the player. */
  predicate CoversView(p: Position, q: Position, t: Position) {
    InView(Center(q.x, q.y, q.z), (t.x, t.y, t.z)) ==> IsAround(p, ChunkIdOf(t))
  }

  lemma AroundCoversView(p: Position, t: Position)
    requires p.z <= 15
    ensures CoversView(p, p, t)
  {
  }

  /** The stair slack: with the chunks around `p` loaded, the view from any position one step away is loaded
      too, exactly when the step does not cross between floors 7 and 8. */
  lemma StairSlack(p: Position, q: Position)
    requires p.z <= 15 && q.z <= 15
    requires Abs(q.x - p.x) <= 1 && Abs(q.y - p.y) <= 1 && Abs(q.z - p.z) <= 1
    ensures (forall t :: CoversView(p, q, t)) <==> (p.z <= 7 <==> q.z <= 7)
  {
    if p.z <= 7 && q.z > 7 {
      assert !CoversView(p, q, Position(q.x, q.y, 9));
    } else if p.z > 7 && q.z <= 7 {
      assert !CoversView(p, q, Position(q.x, q.y, 4));
    }
  }

  // ---------------------------------------------------------------------
  // Loading ahead of the path search
  // ---------------------------------------------------------------------

  const EDGE: int := 20

  /** The chunks the path search loads when it finds the tile `p` walkable: the ones across a near edge. */
  function Ahead(p: Position): seq<ChunkId> {
    var (cx, cy, z) := ChunkIdOf(p);
    var (rx, ry) := ChunkRelative(p);
    (if rx < EDGE then [(cx - 1, cy, z)] else [])
    + (if rx > CHUNK_DIM - EDGE then [(cx + 1, cy, z)] else [])
    + (if ry < EDGE then [(cx, cy - 1, z)] else [])
    + (if ry > CHUNK_DIM - EDGE then [(cx, cy + 1, z)] else [])
  }

  /** Exactly the neighbours across an edge fewer than 20 tiles to the left or above, or 19 to the right or below. */
  lemma AheadMeans(p: Position, id: ChunkId)
    ensures id in Ahead(p) <==>
              && id.2 == p.z
              && (|| (p.x % 256 <= 19 && id.0 == p.x / 256 - 1 && id.1 == p.y / 256)
                  || (p.x % 256 >= 237 && id.0 == p.x / 256 + 1 && id.1 == p.y / 256)
                  || (p.y % 256 <= 19 && id.0 == p.x / 256 && id.1 == p.y / 256 - 1)
                  || (p.y % 256 >= 237 && id.0 == p.x / 256 && id.1 == p.y / 256 + 1))
  {
    var (cx, cy, z) := ChunkIdOf(p);
    var (rx, ry) := ChunkRelative(p);
    MaybeOne(rx < EDGE, (cx - 1, cy, z), id);
    MaybeOne(rx > CHUNK_DIM - EDGE, (cx + 1, cy, z), id);
    MaybeOne(ry < EDGE, (cx, cy - 1, z), id);
    MaybeOne(ry > CHUNK_DIM - EDGE, (cx, cy + 1, z), id);
  }

  lemma MaybeOne(there: bool, one: ChunkId, id: ChunkId)
    ensures id in (if there then [one] else []) <==> there && id == one
  {
  }

  /** A search that found `p` walkable may look at any neighbour `q` of `p` next. Its chunk is `p`'s own or one
      loaded ahead, exactly when the step does not leave the chunk through a corner. */
  lemma AheadReaches(p: Position, q: Position)
    requires q.z == p.z && Abs(q.x - p.x) <= 1 && Abs(q.y - p.y) <= 1
    ensures ChunkIdOf(q) == ChunkIdOf(p) || ChunkIdOf(q) in Ahead(p)
       <==> q.x / CHUNK_DIM == p.x / CHUNK_DIM || q.y / CHUNK_DIM == p.y / CHUNK_DIM
  {
    var (cx, cy, z) := ChunkIdOf(p);
    var (rx, ry) := ChunkRelative(p);
    assert p.x == cx * CHUNK_DIM + rx && p.y == cy * CHUNK_DIM + ry;
    NeighbourChunk(p.x, q.x);
    NeighbourChunk(p.y, q.y);
  }

  lemma NeighbourChunk(a: int, b: int)
    requires Abs(b - a) <= 1
    ensures b / CHUNK_DIM == a / CHUNK_DIM - 1 ==> a % CHUNK_DIM == 0
    ensures b / CHUNK_DIM == a / CHUNK_DIM + 1 ==> a % CHUNK_DIM == CHUNK_DIM - 1
    ensures -1 <= b / CHUNK_DIM - a / CHUNK_DIM <= 1
  {
  }
}
