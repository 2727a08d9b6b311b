/** The map-description encoder (crates/protocol/src/map_description.rs): nested loops that append to
    a buffer, carrying the run counter across columns and floors. */
module MapDescription {
  import opened World
  import opened Wire
  import opened Creature
  import opened TileStream

  const OPCODE_MAP_DESCRIPTION: uint8 := 0x64
  const VIEWPORT_WIDTH: nat := 18
  const VIEWPORT_HEIGHT: nat := 14
  const ANCHOR_DX: int := 8
  const ANCHOR_DY: int := 6

  /** A tile's items, split around the creature slot. */
  datatype TileSlices = TileSlices(preCreature: seq<WireItem>, postCreature: seq<WireItem>)

  datatype PlacedCreature = PlacedCreature(x: uint16, y: uint16, z: uint8, bytes: Bytes)

  /** What the server sees of the world while it encodes. */
  datatype Scene = Scene(tile: (int, int, int) -> Option<TileSlices>, creatures: seq<PlacedCreature>)

  // ---------------------------------------------------------------------
  // What is to be sent
  // ---------------------------------------------------------------------

  predicate StandsAt(c: PlacedCreature, x: int, y: int, z: int) {
    c.x == x && c.y == y && c.z == z
  }

  function Items(items: seq<WireItem>, n: int): seq<TileThing> {
    if n <= 0 || items == [] then [] else [Item(items[0])] + Items(items[1..], n - 1)
  }

  function CreaturesAt(cs: seq<PlacedCreature>, x: int, y: int, z: int): seq<TileThing> {
    if cs == [] then []
    else (if StandsAt(cs[0], x, y, z) then [Being(cs[0].bytes)] else []) + CreaturesAt(cs[1..], x, y, z)
  }

  /** At most ten below-creature items, then every creature on the tile, then down items while fewer
      than ten things have been written. */
  function Things(s: TileSlices, cs: seq<PlacedCreature>, x: int, y: int, z: int): seq<TileThing> {
    var front := Items(s.preCreature, 10) + CreaturesAt(cs, x, y, z);
    front + Items(s.postCreature, 10 - |front|)
  }

  function CellAt(sc: Scene, x: int, y: int, z: int): Cell {
    match sc.tile(x, y, z)
    case None => None
    case Some(s) => Some(Things(s, sc.creatures, x, y, z))
  }

  // ---------------------------------------------------------------------
  // What that means, tile by tile
  // ---------------------------------------------------------------------

  lemma {:induction false} ItemsMeans(items: seq<WireItem>, n: int)
    ensures |Items(items, n)| == if n <= 0 then 0 else if n < |items| then n else |items|
    ensures forall i :: 0 <= i < |Items(items, n)| ==> Items(items, n)[i] == Item(items[i])
  {
    if n > 0 && items != [] {
      ItemsMeans(items[1..], n - 1);
    }
  }

  /** `who` are the places in `cs` of exactly the creatures at `(x, y, z)`, in order. */
  ghost predicate AreAt(who: seq<nat>, cs: seq<PlacedCreature>, x: int, y: int, z: int) {
    && (forall j, k :: 0 <= j < k < |who| ==> who[j] < who[k])
    && (forall j :: 0 <= j < |who| ==> who[j] < |cs|)
    && (forall i: nat :: i < |cs| ==> (i in who <==> cs[i].x == x && cs[i].y == y && cs[i].z == z))
  }

  /** The same from the `n`-th creature on. */
  ghost predicate AreAtFrom(who: seq<nat>, cs: seq<PlacedCreature>, n: nat, x: int, y: int, z: int) {
    && (forall j, k :: 0 <= j < k < |who| ==> who[j] < who[k])
    && (forall j :: 0 <= j < |who| ==> n <= who[j] < |cs|)
    && (forall i: nat :: n <= i < |cs| ==> (i in who <==> cs[i].x == x && cs[i].y == y && cs[i].z == z))
  }

  lemma {:induction false} CreaturesFrom(cs: seq<PlacedCreature>, n: nat, x: int, y: int, z: int)
    returns (who: seq<nat>)
    requires n <= |cs|
    ensures AreAtFrom(who, cs, n, x, y, z)
    ensures |CreaturesAt(cs[n..], x, y, z)| == |who|
    ensures forall k :: 0 <= k < |who| ==> CreaturesAt(cs[n..], x, y, z)[k] == Being(cs[who[k]].bytes)
    decreases |cs| - n
  {
    hide CreaturesAt, AreAtFrom;
    CreaturesNext(cs, n, x, y, z);
    if n == |cs| {
      who := [];
      NooneFrom(cs, x, y, z);
    } else {
      var later := CreaturesFrom(cs, n + 1, x, y, z);
      who := if StandsAt(cs[n], x, y, z) then [n] + later else later;
      AreAtNext(later, cs, n, x, y, z);
    }
  }

  lemma CreaturesNext(cs: seq<PlacedCreature>, n: nat, x: int, y: int, z: int)
    requires n <= |cs|
    ensures n == |cs| ==> CreaturesAt(cs[n..], x, y, z) == []
    ensures n < |cs| ==>
              var first := if StandsAt(cs[n], x, y, z) then [Being(cs[n].bytes)] else [];
              CreaturesAt(cs[n..], x, y, z) == first + CreaturesAt(cs[n + 1..], x, y, z)
  {
    hide StandsAt;
    if n < |cs| {
      assert cs[n..][0] == cs[n] && cs[n..][1..] == cs[n + 1..];
    }
  }

  lemma NooneFrom(cs: seq<PlacedCreature>, x: int, y: int, z: int)
    ensures AreAtFrom([], cs, |cs|, x, y, z)
  {
  }

  lemma AreAtNext(later: seq<nat>, cs: seq<PlacedCreature>, n: nat, x: int, y: int, z: int)
    requires n < |cs| && AreAtFrom(later, cs, n + 1, x, y, z)
    ensures AreAtFrom(if StandsAt(cs[n], x, y, z) then [n] + later else later, cs, n, x, y, z)
  {
    var who := if StandsAt(cs[n], x, y, z) then [n] + later else later;
    assert n !in later;
    assert forall i: nat :: i in [n] + later <==> i == n || i in later;
    forall i: nat | n <= i < |cs| ensures i in who <==> cs[i].x == x && cs[i].y == y && cs[i].z == z {
    }
  }

  lemma CreaturesMeans(cs: seq<PlacedCreature>, x: int, y: int, z: int) returns (who: seq<nat>)
    ensures AreAt(who, cs, x, y, z)
    ensures |CreaturesAt(cs, x, y, z)| == |who|
    ensures forall k :: 0 <= k < |who| ==> CreaturesAt(cs, x, y, z)[k] == Being(cs[who[k]].bytes)
  {
    assert cs[0..] == cs;
    who := CreaturesFrom(cs, 0, x, y, z);
  }

  /** On every tile: the first ten of the items below, then exactly the creatures whose place is the tile's, in scene
      order, then items above for as long as there are fewer than ten things. Where there is no tile, nothing. */
  lemma CellShows(sc: Scene, x: int, y: int, z: int) returns (who: seq<nat>)
    ensures CellAt(sc, x, y, z).Some? <==> sc.tile(x, y, z).Some?
    ensures sc.tile(x, y, z).Some? ==>
      var s, things := sc.tile(x, y, z).value, CellAt(sc, x, y, z).value;
      var below := if |s.preCreature| < 10 then |s.preCreature| else 10;
      var front := below + |who|;
      var above := if front >= 10 then 0 else if front + |s.postCreature| > 10 then 10 - front else |s.postCreature|;
      && AreAt(who, sc.creatures, x, y, z) && |things| == front + above
      && (forall i :: 0 <= i < below ==> things[i] == Item(s.preCreature[i]))
      && (forall k :: 0 <= k < |who| ==> things[below + k] == Being(sc.creatures[who[k]].bytes))
      && (forall i :: 0 <= i < above ==> things[front + i] == Item(s.postCreature[i]))
  {
    hide Items, CreaturesAt, StandsAt;
    who := CreaturesMeans(sc.creatures, x, y, z);
    if sc.tile(x, y, z).Some? {
      var s := sc.tile(x, y, z).value;
      ItemsMeans(s.preCreature, 10);
      ItemsMeans(s.postCreature, 10 - |Items(s.preCreature, 10) + CreaturesAt(sc.creatures, x, y, z)|);
    }
  }

  /** So a creature is sent on the tile it stands on, and on no other. */
  lemma CreatureShownWhereItStands(sc: Scene, c: nat, x: int, y: int, z: int)
    requires c < |sc.creatures| && sc.tile(x, y, z).Some?
    requires forall d :: 0 <= d < |sc.creatures| && d != c ==> sc.creatures[d].bytes != sc.creatures[c].bytes
    ensures Being(sc.creatures[c].bytes) in CellAt(sc, x, y, z).value
       <==> sc.creatures[c].x == x && sc.creatures[c].y == y && sc.creatures[c].z == z
  {
    hide CellAt;
    var who := CellShows(sc, x, y, z);
    var s, things := sc.tile(x, y, z).value, CellAt(sc, x, y, z).value;
    var below := if |s.preCreature| < 10 then |s.preCreature| else 10;
    var front := below + |who|;
    forall i | front <= i < |things| ensures things[i].Item? {
      var j := i - front;
      assert things[front + j] == Item(s.postCreature[j]);
    }
    if Being(sc.creatures[c].bytes) in things {
      var i :| 0 <= i < |things| && things[i] == Being(sc.creatures[c].bytes);
      assert below <= i < front;
      var k := i - below;
      assert things[below + k] == Being(sc.creatures[who[k]].bytes);
      assert who[k] == c;
    }
    if c in who {
      var k :| 0 <= k < |who| && who[k] == c;
      assert things[below + k] == Being(sc.creatures[c].bytes);
    }
  }

  type Tile = (int, int, int)

  /** The first `h` positions of the column at `x`. */
  function ColumnTiles(x: int, y: int, z: int, h: nat): seq<Tile> {
    if h == 0 then [] else ColumnTiles(x, y, z, h - 1) + [(x, y + h - 1, z)]
  }

  /** The first `w` columns of one floor, column by column. */
  function FloorTiles(x: int, y: int, z: int, w: nat, h: nat): seq<Tile> {
    if w == 0 then [] else FloorTiles(x, y, z, w - 1, h) + ColumnTiles(x + w - 1, y, z, h)
  }

  /** What is sent for a list of positions. */
  function Cells(sc: Scene, tiles: seq<Tile>): (cells: seq<Cell>)
    ensures |cells| == |tiles|
    ensures forall i :: 0 <= i < |tiles| ==> cells[i] == CellAt(sc, tiles[i].0, tiles[i].1, tiles[i].2)
  {
    seq(|tiles|, i requires 0 <= i < |tiles| => CellAt(sc, tiles[i].0, tiles[i].1, tiles[i].2))
  }

  lemma CellsAppend(sc: Scene, a: seq<Tile>, b: seq<Tile>)
    ensures Cells(sc, a + b) == Cells(sc, a) + Cells(sc, b)
  {
  }

  /** `(startz, endz, zstep)`: floors 7 to 0 above ground, two floors either way below. */
  function FloorRange(centerZ: int): (int, int, int) {
    if centerZ > 7 then (centerZ - 2, Min(centerZ + 2, 15), 1) else (7, 0, -1)
  }

  /** The floors streamed for a centre on floor `centerZ`, in stream order. */
  function Floors(centerZ: int): seq<int> {
    if centerZ > 7 then
      if centerZ > 17 then [] else seq(Min(centerZ + 2, 15) - (centerZ - 2) + 1, i => centerZ - 2 + i)
    else [7, 6, 5, 4, 3, 2, 1, 0]
  }

  /** The positions streamed for a list of floors: each floor is shifted diagonally by its distance
      from the centre's floor. */
  function MapTiles(ax: int, ay: int, centerZ: int, floors: seq<int>, w: nat, h: nat): seq<Tile> {
    if floors == [] then []
    else
      var z := floors[|floors| - 1];
      MapTiles(ax, ay, centerZ, floors[..|floors| - 1], w, h)
      + FloorTiles(ax + (centerZ - z), ay + (centerZ - z), z, w, h)
  }

  // ---------------------------------------------------------------------
  // The encoder
  // ---------------------------------------------------------------------

  method AddItem(w: MessageWriter, item: WireItem)
    modifies w
    ensures w.buf == old(w.buf) + ItemBytes(item)
  {
    w.WriteU16(item.clientId);
    w.WriteU8(MARK_UNMARKED);
    if item.subtype.Some? {
      w.WriteU8(item.subtype.value);
    }
    if item.animated {
      w.WriteU8(PHASE);
    }
  }

  /** `for item in items { if things == 10 { break } ... }` */
  method AddItems(w: MessageWriter, items: seq<WireItem>, things: uint8) returns (things': uint8)
    requires things <= 10
    modifies w
    ensures w.buf == old(w.buf) + ThingsBytes(Items(items, 10 - things))
    ensures things' == things + |Items(items, 10 - things)| <= 10
  {
    hide ItemBytes;
    things' := things;
    ghost var sent: seq<TileThing> := [];
    for i := 0 to |items|
      invariant things <= things' <= 10
      invariant w.buf == old(w.buf) + ThingsBytes(sent)
      invariant sent + Items(items[i..], 10 - things') == Items(items, 10 - things)
      invariant things' == things + |sent|
    {
      if things' == 10 {
        break;
      }
      AddItem(w, items[i]);
      things' := things' + 1;
      ThingsBytesSnoc(sent, Item(items[i]));
      sent := sent + [Item(items[i])];
      assert items[i..][1..] == items[i + 1..];
    }
    assert sent == Items(items, 10 - things);
  }

  lemma NoThings()
    ensures ThingsBytes([]) == []
  {
  }

  lemma ThingsBytesSnoc(ts: seq<TileThing>, t: TileThing)
    ensures ThingsBytes(ts + [t]) == ThingsBytes(ts) + ThingBytes(t)
  {
    ThingsBytesAppend(ts, [t]);
    assert ThingsBytes([t]) == ThingBytes(t) + [];
  }

  method AddCreatures(w: MessageWriter, cs: seq<PlacedCreature>, x: int, y: int, z: int, things: uint8)
    returns (things': uint8)
    modifies w
    ensures w.buf == old(w.buf) + ThingsBytes(CreaturesAt(cs, x, y, z))
    ensures things' == Min(things + |CreaturesAt(cs, x, y, z)|, 0xFF)
  {
    hide ThingsBytes;
    NoThings();
    things' := things;
    ghost var sent: seq<TileThing> := [];
    for i := 0 to |cs|
      invariant w.buf == old(w.buf) + ThingsBytes(sent)
      invariant sent + CreaturesAt(cs[i..], x, y, z) == CreaturesAt(cs, x, y, z)
      invariant things' == Min(things + |sent|, 0xFF)
    {
      if StandsAt(cs[i], x, y, z) {
        w.WriteBytes(cs[i].bytes);
        things' := Min(things' + 1, 0xFF);  // saturating_add
        ThingsBytesSnoc(sent, Being(cs[i].bytes));
        sent := sent + [Being(cs[i].bytes)];
      }
      assert cs[i..][1..] == cs[i + 1..];
    }
    assert sent == CreaturesAt(cs, x, y, z);
  }

  /** The things of one tile: at most ten below the creatures, the creatures, and the rest. */
  method AddThings(w: MessageWriter, s: TileSlices, cs: seq<PlacedCreature>, x: int, y: int, z: int)
    modifies w
    ensures w.buf == old(w.buf) + ThingsBytes(Things(s, cs, x, y, z))
  {
    hide ThingsBytes, Items, CreaturesAt;
    ghost var below, beings := Items(s.preCreature, 10), CreaturesAt(cs, x, y, z);
    ghost var above := Items(s.postCreature, 10 - |below + beings|);
    var things := AddItems(w, s.preCreature, 0);
    things := AddCreatures(w, cs, x, y, z, things);
    ThingsBytesAppend(below, beings);
    ThingsBytesAppend(below + beings, above);
    assert w.buf == old(w.buf) + ThingsBytes(below + beings);
    if things < 10 {
      things := AddItems(w, s.postCreature, things);
    } else {
      NoItems(s.postCreature, 10 - |below + beings|);
      assert ThingsBytes(below + beings) + [] == ThingsBytes(below + beings);
    }
    assert w.buf == old(w.buf) + (ThingsBytes(below + beings) + ThingsBytes(above));
  }

  lemma NoItems(items: seq<WireItem>, n: int)
    requires n <= 0
    ensures Items(items, n) == [] && ThingsBytes(Items(items, n)) == []
  {
  }

  /** One position of the floor loop. */
  method AddCell(w: MessageWriter, sc: Scene, x: int, y: int, z: int, skip: Skip) returns (skip': Skip)
    modifies w
    ensures w.buf == old(w.buf) + CellStep(skip, CellAt(sc, x, y, z)).0
    ensures skip' == CellStep(skip, CellAt(sc, x, y, z)).1
  {
    hide ThingsBytes, Things, Le16;
    match sc.tile(x, y, z)
    case Some(s) =>
      CloseRun(w, skip);
      skip' := 0;
      w.WriteU16(0);
      AddThings(w, s, sc.creatures, x, y, z);
    case None =>
      if skip == FULL_RUN {
        w.WriteU8(0xFF);
        w.WriteU8(0xFF);
        skip' := -1;
      } else {
        skip' := skip + 1;
      }
  }

  /** `if skip >= 0 { [skip][0xFF] }` */
  method CloseRun(w: MessageWriter, skip: Skip)
    modifies w
    ensures w.buf == old(w.buf) + Flush(skip)
  {
    if skip >= 0 {
      w.WriteU8(skip);
      w.WriteU8(0xFF);
    }
  }

  lemma RunSnoc(cells: seq<Cell>, c: Cell, skip: Skip)
    ensures var (b, s) := Run(cells, skip);
            Run(cells + [c], skip) == (b + CellStep(s, c).0, CellStep(s, c).1)
  {
    RunAppend(cells, [c], skip);
    var s := Run(cells, skip).1;
    var (b, next) := CellStep(s, c);
    RunNothing(next);
    assert Run([c], s) == (b + [], next);
    assert b + [] == b;
  }

  lemma RunNothing(skip: Skip)
    ensures Run([], skip) == ([], skip)
  {
  }

  /** `floor_description`: every position of one floor, column by column. */
  method FloorDescription(w: MessageWriter, ax: int, ay: int, nz: int, offset: int, width: nat, height: nat,
                          skip: Skip, sc: Scene) returns (skip': Skip)
    modifies w
    ensures var cells := Cells(sc, FloorTiles(ax + offset, ay + offset, nz, width, height));
            w.buf == old(w.buf) + Run(cells, skip).0 && skip' == Run(cells, skip).1
  {
    hide Run, CellStep, CellAt;
    RunNothing(skip);
    skip' := skip;
    for nx := 0 to width
      invariant var cells := Cells(sc, FloorTiles(ax + offset, ay + offset, nz, nx, height));
                w.buf == old(w.buf) + Run(cells, skip).0 && skip' == Run(cells, skip).1
    {
      ghost var before := FloorTiles(ax + offset, ay + offset, nz, nx, height);
      assert before + [] == before;
      for ny := 0 to height
        invariant var cells := Cells(sc, before + ColumnTiles(ax + nx + offset, ay + offset, nz, ny));
                  w.buf == old(w.buf) + Run(cells, skip).0 && skip' == Run(cells, skip).1
      {
        var wx, wy := ax + nx + offset, ay + ny + offset;
        ghost var done := before + ColumnTiles(wx, ay + offset, nz, ny);
        CellsSnoc(sc, done, (wx, wy, nz));
        RunSnoc(Cells(sc, done), CellAt(sc, wx, wy, nz), skip);
        skip' := AddCell(w, sc, wx, wy, nz, skip');
        assert done + [(wx, wy, nz)] == before + ColumnTiles(wx, ay + offset, nz, ny + 1);
      }
    }
  }

  lemma CellsSnoc(sc: Scene, tiles: seq<Tile>, t: Tile)
    ensures Cells(sc, tiles + [t]) == Cells(sc, tiles) + [CellAt(sc, t.0, t.1, t.2)]
  {
  }

  /** `get_map_description`: the floors of the band, and the final flush. */
  method GetMapDescription(w: MessageWriter, ax: int, ay: int, centerZ: int, width: nat, height: nat, sc: Scene)
    requires 0 <= centerZ <= 17
    modifies w
    ensures w.buf == old(w.buf) + Stream(Cells(sc, MapTiles(ax, ay, centerZ, Floors(centerZ), width, height)), -1)
  {
    hide Run, FloorTiles, Floors, FloorRange, Cells;
    RunNothing(-1);
    FloorWalk(centerZ);
    ghost var floors := Floors(centerZ);
    var skip: Skip := -1;
    var (startz, endz, zstep) := FloorRange(centerZ);
    var nz := startz;
    ghost var k := 0;
    while true
      invariant k < |floors| && nz == floors[k]
      invariant var cells := Cells(sc, MapTiles(ax, ay, centerZ, floors[..k], width, height));
                w.buf == old(w.buf) + Run(cells, -1).0 && skip == Run(cells, -1).1
      decreases |floors| - k
    {
      MapRunSnoc(sc, ax, ay, centerZ, floors, k, width, height, -1);
      skip := FloorDescription(w, ax, ay, nz, centerZ - nz, width, height, skip, sc);
      if nz == endz {
        assert floors[..k + 1] == floors;
        break;
      }
      nz := nz + zstep;
      k := k + 1;
    }
    CloseRun(w, skip);
  }

  /** From `startz`, steps of `zstep` visit exactly the floors of the band and meet `endz` at the last. */
  lemma FloorWalk(centerZ: int)
    requires 0 <= centerZ <= 17
    ensures var (startz, endz, zstep) := FloorRange(centerZ);
            var floors := Floors(centerZ);
            && floors != [] && floors[0] == startz
            && (forall k :: 0 <= k < |floors| ==> (floors[k] == endz <==> k == |floors| - 1))
            && (forall k :: 0 <= k < |floors| - 1 ==> floors[k + 1] == floors[k] + zstep)
  {
  }

  /** Counting in 32 bits. */
  function Wrapped(n: int): int {
    (n + 0x8000_0000) % 0x1_0000_0000 - 0x8000_0000
  }

  /** Below floor 17 the walk starts past its end. In 32-bit counting it meets the end only once it has been all the
      way round, after more than four thousand million floors. */
  lemma FloorWalkMisses(centerZ: uint8, k: nat)
    requires centerZ > 17 && k < 0x1_0000_0000
    ensures var (startz, endz, zstep) := FloorRange(centerZ);
            Wrapped(startz + k * zstep) == endz <==> k == 0x1_0000_0000 - (centerZ - 17)
  {
  }

  lemma MapRunSnoc(sc: Scene, ax: int, ay: int, centerZ: int, floors: seq<int>, k: nat, w: nat, h: nat, skip: Skip)
    requires k < |floors|
    ensures var cells := Cells(sc, MapTiles(ax, ay, centerZ, floors[..k], w, h));
            var z := floors[k];
            var floor := Cells(sc, FloorTiles(ax + (centerZ - z), ay + (centerZ - z), z, w, h));
            var (b, s) := Run(cells, skip);
            Run(Cells(sc, MapTiles(ax, ay, centerZ, floors[..k + 1], w, h)), skip) == (b + Run(floor, s).0, Run(floor, s).1)
  {
    hide Run, Cells;
    var z := floors[k];
    var tiles := MapTiles(ax, ay, centerZ, floors[..k], w, h);
    var floor := FloorTiles(ax + (centerZ - z), ay + (centerZ - z), z, w, h);
    assert floors[..k + 1][..k] == floors[..k];
    CellsAppend(sc, tiles, floor);
    RunAppend(Cells(sc, tiles), Cells(sc, floor), skip);
  }

  /** `encode`: the full `0x64` packet centred on `(x, y, z)`. */
  method Encode(x: uint16, y: uint16, z: uint8, sc: Scene) returns (bytes: Bytes)
    requires z <= 17
    ensures bytes == MapPacket(x, y, z, sc)
  {
    hide Stream, Cells, MapTiles, Floors, Le16;
    var w := new MessageWriter();
    w.WriteU8(OPCODE_MAP_DESCRIPTION);
    w.WriteU16(x);
    w.WriteU16(y);
    w.WriteU8(z);
    GetMapDescription(w, x - ANCHOR_DX, y - ANCHOR_DY, z, VIEWPORT_WIDTH, VIEWPORT_HEIGHT, sc);
    return w.buf;
  }

  function MapPacket(x: uint16, y: uint16, z: uint8, sc: Scene): Bytes {
    [OPCODE_MAP_DESCRIPTION] + Le16(x) + Le16(y) + [z]
    + Stream(Cells(sc, MapTiles(x - ANCHOR_DX, y - ANCHOR_DY, z, Floors(z), VIEWPORT_WIDTH, VIEWPORT_HEIGHT)), -1)
  }

  function SlicePacket(opcode: uint8, ax: int, ay: int, centerZ: int, width: nat, height: nat, sc: Scene): Bytes {
    [opcode] + Stream(Cells(sc, MapTiles(ax, ay, centerZ, Floors(centerZ), width, height)), -1)
  }

  /** `encode_slice`: a directional slice, its opcode and then the tile stream. */
  method EncodeSlice(opcode: uint8, ax: int, ay: int, centerZ: int, width: nat, height: nat, sc: Scene)
    returns (bytes: Bytes)
    requires 0 <= centerZ <= 17
    ensures bytes == SlicePacket(opcode, ax, ay, centerZ, width, height, sc)
  {
    var w := new MessageWriter();
    w.WriteU8(opcode);
    GetMapDescription(w, ax, ay, centerZ, width, height, sc);
    return w.buf;
  }
}
