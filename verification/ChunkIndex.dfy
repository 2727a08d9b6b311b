/** Two ways to build the chunked map (crates/world/src/map.rs, crates/server/src/bin/prechunk.rs):
    grouping the tiles first and indexing each group, or indexing the whole world and cutting it up.
    Both answer every lookup as the plain tile list does. */
module ChunkIndex {
  import opened World
  import opened TileStack

  const CHUNK_DIM: int := 256

  /** Chunk column, chunk row and floor of a position, and its coordinates inside that chunk. */
  type ChunkId = (int, int, uint8)
  type Rel = (uint8, uint8)

  function ChunkIdOf(p: Position): ChunkId {
    (p.x / CHUNK_DIM, p.y / CHUNK_DIM, p.z)
  }

  function ChunkRelative(p: Position): Rel {
    (p.x % CHUNK_DIM, p.y % CHUNK_DIM)
  }

  /** A position is its chunk and its place in it: 256 tiles to a chunk, either way. */
  lemma ChunkCoordinates(p: Position, q: Position)
    ensures var (id, rel) := (ChunkIdOf(p), ChunkRelative(p));
            p.x == 256 * id.0 + rel.0 && p.y == 256 * id.1 + rel.1 && p.z == id.2
    ensures p == q <==> ChunkIdOf(p) == ChunkIdOf(q) && ChunkRelative(p) == ChunkRelative(q)
  {
    assert p.x == p.x / CHUNK_DIM * CHUNK_DIM + p.x % CHUNK_DIM && q.x == q.x / CHUNK_DIM * CHUNK_DIM + q.x % CHUNK_DIM;
    assert p.y == p.y / CHUNK_DIM * CHUNK_DIM + p.y % CHUNK_DIM && q.y == q.y / CHUNK_DIM * CHUNK_DIM + q.y % CHUNK_DIM;
  }

  // ---------------------------------------------------------------------
  // What is known of one tile
  // ---------------------------------------------------------------------

  /** Everything a lookup can ask: the stack, blocking, floor change, height, and protection zone. */
  datatype Facts = Facts(stack: Option<Stack>, blocked: bool, projectile: bool, floorChange: set<FloorFlag>,
                         height: uint8, protectionZone: bool)

  const NO_FACTS := Facts(None, false, false, {}, 0, false)

  function Solid(types: ItemTypes, items: seq<MapItem>): bool {
    exists i :: 0 <= i < |items| && items[i].id in types && types[items[i].id].IsBlockSolid()
  }

  /** Projectile blocking, the union of floor changes, and the saturating height of a list of items. */
  function Vertical(types: ItemTypes, items: seq<MapItem>): (bool, set<FloorFlag>, uint8) {
    if items == [] then (false, {}, 0)
    else
      var (projectile, fc, height) := Vertical(types, items[..|items| - 1]);
      var id := items[|items| - 1].id;
      if id !in types then (projectile, fc, height)
      else (projectile || types[id].IsBlockProjectile(), fc + types[id].floorChange,
            if types[id].hasHeight then Min(height + 1, 0xFF) else height)
  }

  /** Bit 0 of the tile flags. */
  predicate ProtectionZone(t: MapTile) {
    t.flags % 2 == 1
  }

  function FactsOf(types: ItemTypes, t: MapTile): Facts {
    var (projectile, fc, height) := Vertical(types, t.items);
    Facts(StackOf(types, t.items), Solid(types, t.items), projectile, fc, height, ProtectionZone(t))
  }

  /** A later tile at the same place: its stack, floor change and height replace what is there, when it has
      any; the flags only accumulate. */
  function Overlay(old_: Facts, f: Facts): Facts {
    Facts(if f.stack.Some? then f.stack else old_.stack, old_.blocked || f.blocked, old_.projectile || f.projectile,
          if f.floorChange != {} then f.floorChange else old_.floorChange,
          if f.height > 0 then f.height else old_.height, old_.protectionZone || f.protectionZone)
  }

  /** The reference: what a list of tiles, repeated positions included, says about the place `k`. */
  function FactsAt<K(==)>(types: ItemTypes, tiles: seq<MapTile>, key: MapTile -> K, k: K): Facts {
    if tiles == [] then NO_FACTS
    else
      var before := FactsAt(types, tiles[..|tiles| - 1], key, k);
      var t := tiles[|tiles| - 1];
      if key(t) == k then Overlay(before, FactsOf(types, t)) else before
  }

  function PositionOf(t: MapTile): Position {
    Position(t.x, t.y, t.z)
  }

  function RelativeOf(t: MapTile): Rel {
    ChunkRelative(PositionOf(t))
  }

  /** `k` is marked exactly when some tile at `k` marks it: a later tile at the same place never clears a mark. */
  lemma {:induction false} MarksAccumulate<K>(types: ItemTypes, tiles: seq<MapTile>, key: MapTile -> K, k: K)
    ensures var f := FactsAt(types, tiles, key, k);
            && (f.blocked <==> exists i :: 0 <= i < |tiles| && key(tiles[i]) == k && Solid(types, tiles[i].items))
            && (f.protectionZone <==> exists i :: 0 <= i < |tiles| && key(tiles[i]) == k && ProtectionZone(tiles[i]))
            && (f.stack.Some? <==>
                exists i :: 0 <= i < |tiles| && key(tiles[i]) == k && StackOf(types, tiles[i].items).Some?)
  {
    hide Solid, StackOf, Vertical;
    if tiles != [] {
      var last := |tiles| - 1;
      MarksAccumulate(types, tiles[..last], key, k);
      assert tiles == tiles[..last] + [tiles[last]];
    }
  }

  /** The stack at a place is the one of the last tile there that has a stack. */
  lemma {:induction false} LastStackWins<K>(types: ItemTypes, tiles: seq<MapTile>, key: MapTile -> K, k: K, i: nat)
    requires i < |tiles| && key(tiles[i]) == k && StackOf(types, tiles[i].items).Some?
    requires forall j :: i < j < |tiles| && key(tiles[j]) == k ==> StackOf(types, tiles[j].items).None?
    ensures FactsAt(types, tiles, key, k).stack == StackOf(types, tiles[i].items)
  {
    hide StackOf, Vertical, Solid;
    var last := |tiles| - 1;
    if i < last {
      LastStackWins(types, tiles[..last], key, k, i);
    }
  }

  // ---------------------------------------------------------------------
  // What a place shows, in the tiles' own terms
  // ---------------------------------------------------------------------

  predicate LiesAt(t: MapTile, p: Position) {
    t.x == p.x && t.y == p.y && t.z == p.z
  }

  /** The places in `items` of the known ones with a height. */
  function Tall(types: ItemTypes, items: seq<MapItem>): set<nat> {
    set j: nat | j < |items| && items[j].id in types && types[items[j].id].hasHeight
  }

  predicate Stops(types: ItemTypes, items: seq<MapItem>) {
    exists j :: 0 <= j < |items| && items[j].id in types && types[items[j].id].IsBlockProjectile()
  }

  predicate Changes(types: ItemTypes, items: seq<MapItem>, f: FloorFlag) {
    exists j :: 0 <= j < |items| && items[j].id in types && f in types[items[j].id].floorChange
  }

  predicate Blocks(types: ItemTypes, items: seq<MapItem>) {
    exists j :: 0 <= j < |items| && items[j].id in types && types[items[j].id].IsBlockSolid()
  }

  lemma {:induction false} TallSnoc(types: ItemTypes, items: seq<MapItem>)
    requires items != []
    ensures var front, i := items[..|items| - 1], items[|items| - 1];
            |Tall(types, items)| == |Tall(types, front)| + if i.id in types && types[i.id].hasHeight then 1 else 0
  {
    var front, i := items[..|items| - 1], items[|items| - 1];
    assert Tall(types, items) == Tall(types, front) + if i.id in types && types[i.id].hasHeight then {|front|} else {};
  }

  /** Any item stops projectiles for the whole tile; floor changes add up; and so do heights, up to 255. */
  lemma {:induction false} VerticalMeans(types: ItemTypes, items: seq<MapItem>)
    ensures var (projectile, fc, height) := Vertical(types, items);
            && (projectile <==> Stops(types, items)) && (forall f :: f in fc <==> Changes(types, items, f))
            && height == if |Tall(types, items)| < 255 then |Tall(types, items)| else 255
  {
    if items == [] {
      assert Tall(types, items) == {};
    } else {
      var front, i := items[..|items| - 1], items[|items| - 1];
      VerticalMeans(types, front);
      TallSnoc(types, items);
      hide Vertical, Tall;
      VerticalSnoc(types, items);
      assert items == front + [i];
    }
  }

  lemma VerticalSnoc(types: ItemTypes, items: seq<MapItem>)
    requires items != []
    ensures var front, i := items[..|items| - 1], items[|items| - 1];
            var (projectile, fc, height) := Vertical(types, front);
            Vertical(types, items)
              == if i.id !in types then (projectile, fc, height)
                 else (projectile || types[i.id].IsBlockProjectile(), fc + types[i.id].floorChange,
                       if !types[i.id].hasHeight || height == 255 then height else height + 1)
  {
  }

  /** A place is blocked, stops projectiles or lies in a protection zone exactly if some tile there says so. */
  lemma {:induction false} PlaceMarked(types: ItemTypes, tiles: seq<MapTile>, p: Position)
    ensures var f := FactsAt(types, tiles, PositionOf, p);
            && (f.blocked <==> exists i :: 0 <= i < |tiles| && LiesAt(tiles[i], p) && Blocks(types, tiles[i].items))
            && (f.projectile <==> exists i :: 0 <= i < |tiles| && LiesAt(tiles[i], p) && Stops(types, tiles[i].items))
            && (f.protectionZone <==> exists i :: 0 <= i < |tiles| && LiesAt(tiles[i], p) && tiles[i].flags % 2 != 0)
  {
    hide Solid, StackOf, Vertical, Blocks, Stops;
    if tiles != [] {
      var last := |tiles| - 1;
      PlaceMarked(types, tiles[..last], p);
      assert tiles == tiles[..last] + [tiles[last]];
      VerticalMeans(types, tiles[last].items);
      SolidMeans(types, tiles[last].items);
    }
  }

  lemma SolidMeans(types: ItemTypes, items: seq<MapItem>)
    ensures Solid(types, items) <==> Blocks(types, items)
  {
  }

  /** No tile at `p` behind the `i`-th shows `has`. */
  ghost predicate IsLast(tiles: seq<MapTile>, p: Position, i: nat, has: MapTile -> bool) {
    && i < |tiles| && LiesAt(tiles[i], p) && has(tiles[i])
    && forall j :: i < j < |tiles| && LiesAt(tiles[j], p) ==> !has(tiles[j])
  }

  predicate HasFloorChange(types: ItemTypes, t: MapTile) {
    exists f :: Changes(types, t.items, f)
  }

  /** The floor changes of a place are those of the last tile there with any. */
  lemma {:induction false} LastFloorChangeWins(types: ItemTypes, tiles: seq<MapTile>, p: Position, i: nat)
    requires IsLast(tiles, p, i, (t: MapTile) => HasFloorChange(types, t))
    ensures forall f :: f in FactsAt(types, tiles, PositionOf, p).floorChange <==> Changes(types, tiles[i].items, f)
  {
    hide StackOf, Vertical, Solid, Changes;
    var last := |tiles| - 1;
    VerticalMeans(types, tiles[last].items);
    if i < last {
      assert LiesAt(tiles[last], p) ==> !HasFloorChange(types, tiles[last]);
      LastFloorChangeWins(types, tiles[..last], p, i);
    } else {
      var f :| Changes(types, tiles[i].items, f);
      assert f in Vertical(types, tiles[i].items).1;
    }
  }

  /** Its height is that of the last tile there with any. */
  lemma {:induction false} LastHeightWins(types: ItemTypes, tiles: seq<MapTile>, p: Position, i: nat)
    requires IsLast(tiles, p, i, (t: MapTile) => Tall(types, t.items) != {})
    ensures var n := |Tall(types, tiles[i].items)|;
            FactsAt(types, tiles, PositionOf, p).height == if n < 255 then n else 255
  {
    hide StackOf, Vertical, Solid, Tall;
    var last := |tiles| - 1;
    VerticalMeans(types, tiles[last].items);
    if i < last {
      assert LiesAt(tiles[last], p) ==> Tall(types, tiles[last].items) == {};
      LastHeightWins(types, tiles[..last], p, i);
    }
  }

  /** And its stack that of the last tile there with one. */
  lemma LastStackShows(types: ItemTypes, tiles: seq<MapTile>, p: Position, i: nat)
    requires IsLast(tiles, p, i, (t: MapTile) => StackOf(types, t.items).Some?)
    ensures FactsAt(types, tiles, PositionOf, p).stack == StackOf(types, tiles[i].items)
  {
    hide StackOf;
    LastStackWins(types, tiles, PositionOf, p, i);
  }

  /** A place where no tile lies shows nothing. */
  lemma {:induction false} EmptyPlace(types: ItemTypes, tiles: seq<MapTile>, p: Position)
    requires forall i :: 0 <= i < |tiles| ==> !LiesAt(tiles[i], p)
    ensures var f := FactsAt(types, tiles, PositionOf, p);
            f.stack.None? && !f.blocked && !f.projectile && f.floorChange == {} && f.height == 0 && !f.protectionZone
  {
    hide StackOf, Vertical, Solid;
    if tiles != [] {
      EmptyPlace(types, tiles[..|tiles| - 1], p);
    }
  }

  // ---------------------------------------------------------------------
  // The indexes
  // ---------------------------------------------------------------------

  /** The six collections of a `StaticMap` (by position) or a `Chunk` (by place in the chunk). */
  datatype Grid<!K(==)> = Grid(tiles: map<K, Stack>, blocked: set<K>, projectile: set<K>,
                              floorChange: map<K, set<FloorFlag>>, height: map<K, uint8>, protectionZone: set<K>)

  type Chunk = Grid<Rel>
  type Chunks = map<ChunkId, Chunk>

  function EmptyGrid<K>(): Grid<K> {
    Grid(map[], {}, {}, map[], map[], {})
  }

  function Find<K, V>(m: map<K, V>, k: K): Option<V> {
    if k in m then Some(m[k]) else None
  }

  function PutIfAny<K(==), V>(m: map<K, V>, k: K, v: Option<V>): map<K, V> {
    if v.Some? then m[k := v.value] else m
  }

  lemma PutIsFound<K(!new), V>(m: map<K, V>, k: K, v: Option<V>)
    ensures forall j: K :: Find(PutIfAny(m, k, v), j) == if j == k && v.Some? then v else Find(m, j)
  {
  }

  function OrElse<V>(found: Option<V>, default_: V): V {
    if found.Some? then found.value else default_
  }

  function Lookup<K>(g: Grid<K>, k: K): Facts {
    Facts(Find(g.tiles, k), k in g.blocked, k in g.projectile, OrElse(Find(g.floorChange, k), {}),
          OrElse(Find(g.height, k), 0), k in g.protectionZone)
  }

  /** A position whose chunk is absent answers every lookup with the default. */
  function LookupIn(cs: Chunks, p: Position): Facts {
    if ChunkIdOf(p) in cs then Lookup(cs[ChunkIdOf(p)], ChunkRelative(p)) else NO_FACTS
  }

  /** Read the tile's items for projectile blocking, floor change and height. */
  method AddVertical<K(==)>(types: ItemTypes, blocking: set<K>, k: K, items: seq<MapItem>)
    returns (projectile: set<K>, fc: set<FloorFlag>, height: uint8)
    ensures fc == Vertical(types, items).1 && height == Vertical(types, items).2
    ensures projectile == if Vertical(types, items).0 then blocking + {k} else blocking
  {
    projectile, fc, height := blocking, {}, 0;
    for i := 0 to |items|
      invariant projectile == if Vertical(types, items[..i]).0 then blocking + {k} else blocking
      invariant fc == Vertical(types, items[..i]).1 && height == Vertical(types, items[..i]).2
    {
      assert items[..i + 1][..i] == items[..i];
      var id := items[i].id;
      if id in types {
        fc := fc + types[id].floorChange;
        if types[id].hasHeight {
          height := Min(height + 1, 0xFF);
        }
        if types[id].IsBlockProjectile() {
          projectile := projectile + {k};
        }
      }
    }
    assert items[..|items|] == items;
  }

  /** The insertions of one pass of the tile loop. */
  method AddTile<K(==, !new)>(types: ItemTypes, g: Grid<K>, k: K, t: MapTile) returns (g': Grid<K>)
    ensures Lookup(g', k) == Overlay(Lookup(g, k), FactsOf(types, t))
    ensures forall j: K :: j != k ==> Lookup(g', j) == Lookup(g, j)
  {
    hide StackOf, Vertical, Solid, Find, PutIfAny;
    var stack := BuildStack(types, t.items);
    var blocked := if Solid(types, t.items) then g.blocked + {k} else g.blocked;
    var projectile, fc, height := AddVertical(types, g.projectile, k, t.items);
    var change := if fc != {} then Some(fc) else None;
    var tall := if height > 0 then Some(height) else None;
    g' := Grid(PutIfAny(g.tiles, k, stack), blocked, projectile, PutIfAny(g.floorChange, k, change),
               PutIfAny(g.height, k, tall), if ProtectionZone(t) then g.protectionZone + {k} else g.protectionZone);
    PutIsFound(g.tiles, k, stack);
    PutIsFound(g.floorChange, k, change);
    PutIsFound(g.height, k, tall);
  }

  lemma FactsSnoc<K>(types: ItemTypes, tiles: seq<MapTile>, i: nat, key: MapTile -> K, k: K)
    requires i < |tiles|
    ensures FactsAt(types, tiles[..i + 1], key, k)
         == (var before := FactsAt(types, tiles[..i], key, k);
             if key(tiles[i]) == k then Overlay(before, FactsOf(types, tiles[i])) else before)
  {
    assert tiles[..i + 1][..i] == tiles[..i];
  }

  /** `from_formats_with_spawn`: the whole world, indexed by position. */
  method FromFormats(types: ItemTypes, tiles: seq<MapTile>) returns (world: Grid<Position>)
    ensures forall p :: Lookup(world, p) == FactsAt(types, tiles, PositionOf, p)
  {
    hide FactsOf, Overlay, Lookup, FactsAt;
    world := EmptyGrid();
    NothingYet<Position>(types, PositionOf);
    for i := 0 to |tiles|
      invariant forall p :: Lookup(world, p) == FactsAt(types, tiles[..i], PositionOf, p)
    {
      var added := AddTile(types, world, PositionOf(tiles[i]), tiles[i]);
      forall p ensures Lookup(added, p) == FactsAt(types, tiles[..i + 1], PositionOf, p) {
        FactsSnoc(types, tiles, i, PositionOf, p);
      }
      world := added;
    }
    assert tiles[..|tiles|] == tiles;
  }

  /** `Chunk::from_otbm_tiles`: the tiles of one chunk, indexed by their place in it. */
  method FromOtbmTiles(types: ItemTypes, tiles: seq<MapTile>) returns (chunk: Chunk)
    ensures forall r: Rel :: Lookup(chunk, r) == FactsAt(types, tiles, RelativeOf, r)
  {
    hide FactsOf, Overlay, Lookup, FactsAt, ChunkRelative;
    chunk := EmptyGrid();
    NothingYet<Rel>(types, RelativeOf);
    for i := 0 to |tiles|
      invariant forall r: Rel :: Lookup(chunk, r) == FactsAt(types, tiles[..i], RelativeOf, r)
    {
      var added := AddTile(types, chunk, RelativeOf(tiles[i]), tiles[i]);
      forall r: Rel ensures Lookup(added, r) == FactsAt(types, tiles[..i + 1], RelativeOf, r) {
        FactsSnoc(types, tiles, i, RelativeOf, r);
      }
      chunk := added;
    }
    assert tiles[..|tiles|] == tiles;
  }

  lemma NothingYet<K(!new)>(types: ItemTypes, key: MapTile -> K)
    ensures forall k: K :: Lookup(EmptyGrid<K>(), k) == FactsAt(types, [], key, k)
  {
  }

  // ---------------------------------------------------------------------
  // The offline chunker: group, then index
  // ---------------------------------------------------------------------

  /** The tiles of one chunk, in file order. */
  function InChunk(tiles: seq<MapTile>, id: ChunkId): seq<MapTile> {
    if tiles == [] then []
    else
      var t := tiles[|tiles| - 1];
      InChunk(tiles[..|tiles| - 1], id) + if ChunkIdOf(PositionOf(t)) == id then [t] else []
  }

  /** `chunk_tiles.entry(cid).or_default().push(tile)` for every tile. */
  method GroupByChunk(tiles: seq<MapTile>) returns (groups: map<ChunkId, seq<MapTile>>)
    ensures forall id :: id in groups ==> groups[id] == InChunk(tiles, id)
    ensures forall id :: id !in groups ==> InChunk(tiles, id) == []
  {
    groups := map[];
    for i := 0 to |tiles|
      invariant forall id :: id in groups ==> groups[id] == InChunk(tiles[..i], id)
      invariant forall id :: id !in groups ==> InChunk(tiles[..i], id) == []
    {
      assert tiles[..i + 1][..i] == tiles[..i];
      var id := ChunkIdOf(PositionOf(tiles[i]));
      groups := groups[id := (if id in groups then groups[id] else []) + [tiles[i]]];
    }
    assert tiles[..|tiles|] == tiles;
  }

  /** Inside its own chunk a position is found among the chunk's tiles exactly as among all tiles. */
  lemma {:induction false} ChunkAnswers(types: ItemTypes, tiles: seq<MapTile>, p: Position)
    ensures FactsAt(types, InChunk(tiles, ChunkIdOf(p)), RelativeOf, ChunkRelative(p))
         == FactsAt(types, tiles, PositionOf, p)
  {
    hide Overlay, FactsOf, ChunkIdOf, ChunkRelative;
    if tiles != [] {
      var front, t := tiles[..|tiles| - 1], tiles[|tiles| - 1];
      ChunkAnswers(types, front, p);
      ChunkCoordinates(PositionOf(t), p);
      var mine := InChunk(tiles, ChunkIdOf(p));
      if ChunkIdOf(PositionOf(t)) == ChunkIdOf(p) {
        assert mine[..|mine| - 1] == InChunk(front, ChunkIdOf(p)) && mine[|mine| - 1] == t;
      } else {
        assert mine == InChunk(front, ChunkIdOf(p));
      }
    }
  }

  /** The chunker of `prechunk`: one chunk per group, in whatever order the groups come. */
  method Prechunk(types: ItemTypes, tiles: seq<MapTile>) returns (cs: Chunks)
    ensures forall p :: LookupIn(cs, p) == FactsAt(types, tiles, PositionOf, p)
  {
    hide FactsAt, Lookup, InChunk;
    var groups := GroupByChunk(tiles);
    cs := map[];
    var todo := groups.Keys;
    while todo != {}
      invariant todo <= groups.Keys && cs.Keys == groups.Keys - todo
      invariant forall id, r: Rel :: id in cs ==> Lookup(cs[id], r) == FactsAt(types, groups[id], RelativeOf, r)
      decreases |todo|
    {
      var id :| id in todo;
      todo := todo - {id};
      var chunk := FromOtbmTiles(types, groups[id]);
      cs := cs[id := chunk];
    }
    forall p ensures LookupIn(cs, p) == FactsAt(types, tiles, PositionOf, p) {
      ChunkAnswers(types, tiles, p);
      NoTiles(types, ChunkRelative(p));
    }
  }

  lemma NoTiles(types: ItemTypes, r: Rel)
    ensures FactsAt(types, [], RelativeOf, r) == NO_FACTS
  {
  }

  // ---------------------------------------------------------------------
  // The whole-world path: index, then cut up
  // ---------------------------------------------------------------------

  function OrEmptyMap<V>(parts: map<ChunkId, map<Rel, V>>, id: ChunkId): map<Rel, V> {
    if id in parts then parts[id] else map[]
  }

  function OrEmptySet(parts: map<ChunkId, set<Rel>>, id: ChunkId): set<Rel> {
    if id in parts then parts[id] else {}
  }

  ghost predicate IsCutOf<V(!new)>(parts: map<ChunkId, map<Rel, V>>, m: map<Position, V>) {
    forall p :: Find(OrEmptyMap(parts, ChunkIdOf(p)), ChunkRelative(p)) == Find(m, p)
  }

  ghost predicate IsCutOfSet(parts: map<ChunkId, set<Rel>>, s: set<Position>) {
    forall p :: ChunkRelative(p) in OrEmptySet(parts, ChunkIdOf(p)) <==> p in s
  }

  /** `*_by_id.entry(id).or_default().insert(rel, v)` for every entry, in whatever order. */
  method CutMap<V(!new)>(m: map<Position, V>) returns (parts: map<ChunkId, map<Rel, V>>)
    ensures IsCutOf(parts, m)
  {
    hide ChunkIdOf, ChunkRelative;
    parts := map[];
    var todo := m.Keys;
    while todo != {}
      invariant todo <= m.Keys && IsCutOf(parts, m - todo)
      decreases |todo|
    {
      var p :| p in todo;
      todo := todo - {p};
      var id, rel := ChunkIdOf(p), ChunkRelative(p);
      forall q ensures q == p <==> ChunkIdOf(q) == id && ChunkRelative(q) == rel {
        ChunkCoordinates(p, q);
      }
      parts := parts[id := OrEmptyMap(parts, id)[rel := m[p]]];
    }
    assert m - todo == m;
  }

  method CutSet(s: set<Position>) returns (parts: map<ChunkId, set<Rel>>)
    ensures IsCutOfSet(parts, s)
  {
    hide ChunkIdOf, ChunkRelative;
    parts := map[];
    var todo := s;
    while todo != {}
      invariant todo <= s && IsCutOfSet(parts, s - todo)
      decreases |todo|
    {
      var p :| p in todo;
      todo := todo - {p};
      var id, rel := ChunkIdOf(p), ChunkRelative(p);
      forall q ensures q == p <==> ChunkIdOf(q) == id && ChunkRelative(q) == rel {
        ChunkCoordinates(p, q);
      }
      parts := parts[id := OrEmptySet(parts, id) + {rel}];
    }
    assert s - todo == s;
  }

  /** `into_chunks_and_meta`: the same answers, chunk by chunk. */
  method IntoChunks(world: Grid<Position>) returns (cs: Chunks)
    ensures forall p :: LookupIn(cs, p) == Lookup(world, p)
  {
    hide ChunkIdOf, ChunkRelative, IsCutOf, IsCutOfSet, LookupIn;
    var tiles := CutMap(world.tiles);
    var blocked := CutSet(world.blocked);
    var projectile := CutSet(world.projectile);
    var floorChange := CutMap(world.floorChange);
    var height := CutMap(world.height);
    var protectionZone := CutSet(world.protectionZone);
    var all := tiles.Keys + blocked.Keys + projectile.Keys + floorChange.Keys + height.Keys + protectionZone.Keys;
    cs := map id | id in all ::
      Grid(OrEmptyMap(tiles, id), OrEmptySet(blocked, id), OrEmptySet(projectile, id), OrEmptyMap(floorChange, id),
           OrEmptyMap(height, id), OrEmptySet(protectionZone, id));
    forall p ensures LookupIn(cs, p) == Lookup(world, p) {
      CutAnswers(tiles, blocked, projectile, floorChange, height, protectionZone, world, cs, p);
    }
  }

  lemma CutAnswers(tiles: map<ChunkId, map<Rel, Stack>>, blocked: map<ChunkId, set<Rel>>,
                   projectile: map<ChunkId, set<Rel>>, floorChange: map<ChunkId, map<Rel, set<FloorFlag>>>,
                   height: map<ChunkId, map<Rel, uint8>>, protectionZone: map<ChunkId, set<Rel>>,
                   world: Grid<Position>, cs: Chunks, p: Position)
    requires IsCutOf(tiles, world.tiles) && IsCutOf(floorChange, world.floorChange) && IsCutOf(height, world.height)
    requires IsCutOfSet(blocked, world.blocked) && IsCutOfSet(projectile, world.projectile)
    requires IsCutOfSet(protectionZone, world.protectionZone)
    requires var id := ChunkIdOf(p);
             if id in cs then
               cs[id] == Grid(OrEmptyMap(tiles, id), OrEmptySet(blocked, id), OrEmptySet(projectile, id),
                              OrEmptyMap(floorChange, id), OrEmptyMap(height, id), OrEmptySet(protectionZone, id))
             else id !in tiles && id !in blocked && id !in projectile && id !in floorChange && id !in height
                  && id !in protectionZone
    ensures LookupIn(cs, p) == Lookup(world, p)
  {
    hide ChunkIdOf, ChunkRelative;
  }

  /** For every tile list, both builds give the same answer at every position: the answer of the list. */
  method BuildBothWays(types: ItemTypes, tiles: seq<MapTile>) returns (offline: Chunks, online: Chunks)
    ensures forall p :: LookupIn(offline, p) == LookupIn(online, p) == FactsAt(types, tiles, PositionOf, p)
  {
    hide LookupIn, FactsAt, Lookup;
    offline := Prechunk(types, tiles);
    var world := FromFormats(types, tiles);
    online := IntoChunks(world);
  }
}
