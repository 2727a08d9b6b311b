/** The client side of the map protocol: a shifting view centre and the tiles seen so far. The rules
    are the ones crates/protocol/src/walk.rs relies on: a floor change moves the centre by a fixed
    diagonal projection shift, every directional slice by one tile, and only a full map description
    carries the centre itself. */
module Client {
  import opened World
  import opened Wire
  import opened TileStream
  import opened MapDescription

  const OP_CREATURE_MOVE: uint8 := 0x6D
  const OP_REMOVE_TILE_THING: uint8 := 0x6C
  const OP_FLOOR_CHANGE_UP: uint8 := 0xBE
  const OP_FLOOR_CHANGE_DOWN: uint8 := 0xBF
  const SLICE_NORTH: uint8 := 0x65
  const SLICE_EAST: uint8 := 0x66
  const SLICE_SOUTH: uint8 := 0x67
  const SLICE_WEST: uint8 := 0x68

  /** The view centre. */
  datatype Center = Center(x: int, y: int, z: int)

  /** The tiles decoded so far, and where creatures were last moved to by id. */
  datatype View = View(center: Center, known: map<Tile, Cell>, placed: map<uint32, Position>)

  /** Instead of a position and a stack place, a creature is named by its id behind this mark. */
  const BY_ID: uint16 := 0xFFFF

  // ---------------------------------------------------------------------
  // Tiles
  // ---------------------------------------------------------------------

  /** The 18x14 viewport around a centre, over every floor of its band. */
  function ViewTiles(c: Center): seq<Tile> {
    MapTiles(c.x - ANCHOR_DX, c.y - ANCHOR_DY, c.z, Floors(c.z), VIEWPORT_WIDTH, VIEWPORT_HEIGHT)
  }

  /** The floors a floor change up to `z` reveals, all shifted as seen from the floor below. */
  function RevealedUp(z: int): seq<int> {
    if z == 7 then [5, 4, 3, 2, 1, 0] else if z > 7 then [z - 2] else []
  }

  /** The floors a floor change down to `z` reveals, all shifted as seen from the floor above. */
  function RevealedDown(z: int): seq<int> {
    if z == 8 then [8, 9, 10] else if 8 < z < 14 then [z + 2] else []
  }

  function RevealTiles(c: Center, floors: seq<int>): seq<Tile> {
    MapTiles(c.x - ANCHOR_DX, c.y - ANCHOR_DY, c.z, floors, VIEWPORT_WIDTH, VIEWPORT_HEIGHT)
  }

  /** The row or column the client expects with a slice opcode, given its centre after the shift. */
  function SliceTiles(opcode: uint8, c: Center): seq<Tile> {
    if opcode == SLICE_NORTH then MapTiles(c.x - 8, c.y - 6, c.z, Floors(c.z), 18, 1)
    else if opcode == SLICE_SOUTH then MapTiles(c.x - 8, c.y + 7, c.z, Floors(c.z), 18, 1)
    else if opcode == SLICE_EAST then MapTiles(c.x + 9, c.y - 6, c.z, Floors(c.z), 1, 14)
    else MapTiles(c.x - 8, c.y - 6, c.z, Floors(c.z), 1, 14)
  }

  function Shift(opcode: uint8, c: Center): Center {
    if opcode == SLICE_NORTH then c.(y := c.y - 1)
    else if opcode == SLICE_SOUTH then c.(y := c.y + 1)
    else if opcode == SLICE_EAST then c.(x := c.x + 1)
    else c.(x := c.x - 1)
  }

  predicate IsSlice(opcode: uint8) {
    SLICE_NORTH <= opcode <= SLICE_WEST
  }

  // ---------------------------------------------------------------------
  // Receiving
  // ---------------------------------------------------------------------

  function Store(known: map<Tile, Cell>, tiles: seq<Tile>, cells: seq<Cell>): map<Tile, Cell>
    requires |tiles| == |cells|
  {
    if tiles == [] then known
    else
      var last := |tiles| - 1;
      Store(known, tiles[..last], cells[..last])[tiles[last] := cells[last]]
  }

  /** Decode one cell per expected tile, and remember them. */
  function ReadTiles(cat: Catalogue, known: map<Tile, Cell>, tiles: seq<Tile>, b: Bytes): Read<map<Tile, Cell>> {
    var (cells, rest) :- Decode(cat, b, |tiles|, 0);
    if |cells| == |tiles| then Got(Store(known, tiles, cells), rest) else Short
  }

  function ReadId(b: Bytes): Read<uint32> {
    var (mark, b) :- ReadU16(b);
    if mark == BY_ID then ReadU32(b) else Short
  }

  /** Take one packet off the stream. */
  function ReceiveOne(cat: Catalogue, v: View, b: Bytes): Read<View> {
    var (opcode, b) :- ReadU8(b);
    if opcode == OP_CREATURE_MOVE then
      var (id, b) :- ReadId(b);
      var (x, b) :- ReadU16(b);
      var (y, b) :- ReadU16(b);
      var (z, b) :- ReadU8(b);
      Got(v.(placed := v.placed[id := Position(x, y, z)]), b)
    else if opcode == OP_REMOVE_TILE_THING then
      var (id, b) :- ReadId(b);
      Got(v.(placed := v.placed - {id}), b)
    else if opcode == OPCODE_MAP_DESCRIPTION then
      var (x, b) :- ReadU16(b);
      var (y, b) :- ReadU16(b);
      var (z, b) :- ReadU8(b);
      var c := Center(x, y, z);
      var (known, b) :- ReadTiles(cat, v.known, ViewTiles(c), b);
      Got(v.(center := c, known := known), b)
    else if opcode == OP_FLOOR_CHANGE_UP then
      var (known, b) :- ReadTiles(cat, v.known, RevealTiles(v.center, RevealedUp(v.center.z - 1)), b);
      Got(v.(center := Center(v.center.x + 1, v.center.y + 1, v.center.z - 1), known := known), b)
    else if opcode == OP_FLOOR_CHANGE_DOWN then
      var (known, b) :- ReadTiles(cat, v.known, RevealTiles(v.center, RevealedDown(v.center.z + 1)), b);
      Got(v.(center := Center(v.center.x - 1, v.center.y - 1, v.center.z + 1), known := known), b)
    else if IsSlice(opcode) then
      var c := Shift(opcode, v.center);
      var (known, b) :- ReadTiles(cat, v.known, SliceTiles(opcode, c), b);
      Got(v.(center := c, known := known), b)
    else Short
  }

  /** Take packets off the stream until it is used up. */
  function Receive(cat: Catalogue, v: View, b: Bytes): Option<View>
    decreases |b|
  {
    if b == [] then Some(v)
    else
      match ReceiveOne(cat, v, b)
      case Short => None
      case Got(v', rest) => if |rest| < |b| then Receive(cat, v', rest) else None
  }

  /** `v` has decoded `tiles` correctly and kept everything else it knew. */
  ghost predicate Learns(known: map<Tile, Cell>, known': map<Tile, Cell>, tiles: seq<Tile>, sc: Scene) {
    && (forall t :: t in tiles ==> t in known' && known'[t] == CellAt(sc, t.0, t.1, t.2))
    && (forall t :: t !in tiles && t in known ==> t in known' && known'[t] == known[t])
  }

  ghost predicate SceneOk(cat: Catalogue, sc: Scene) {
    forall x, y, z :: CellOk(cat, CellAt(sc, x, y, z))
  }

  lemma {:induction false} StoreLearns(known: map<Tile, Cell>, tiles: seq<Tile>, sc: Scene)
    ensures Learns(known, Store(known, tiles, Cells(sc, tiles)), tiles, sc)
  {
    if tiles != [] {
      var last := |tiles| - 1;
      StoreLearns(known, tiles[..last], sc);
      assert Cells(sc, tiles)[..last] == Cells(sc, tiles[..last]);
    }
  }

  /** Reading the tiles the server wrote teaches the client exactly those tiles. */
  lemma ReadTilesBack(cat: Catalogue, known: map<Tile, Cell>, tiles: seq<Tile>, sc: Scene, rest: Bytes)
    requires SceneOk(cat, sc)
    ensures var known' := Store(known, tiles, Cells(sc, tiles));
            && ReadTiles(cat, known, tiles, Stream(Cells(sc, tiles), -1) + rest) == Got(known', rest)
            && Learns(known, known', tiles, sc)
  {
    StreamRoundTrip(cat, Cells(sc, tiles), rest);
    StoreLearns(known, tiles, sc);
  }

  // ---------------------------------------------------------------------
  // Which tiles a region holds
  // ---------------------------------------------------------------------

  lemma {:induction false} ColumnHolds(t: Tile, x: int, y: int, z: int, h: nat)
    ensures t in ColumnTiles(x, y, z, h) <==> t.0 == x && t.2 == z && y <= t.1 < y + h
  {
    if h > 0 {
      ColumnHolds(t, x, y, z, h - 1);
    }
  }

  lemma {:induction false} FloorHolds(t: Tile, x: int, y: int, z: int, w: nat, h: nat)
    ensures t in FloorTiles(x, y, z, w, h) <==> t.2 == z && x <= t.0 < x + w && y <= t.1 < y + h
  {
    hide ColumnTiles;
    if w > 0 {
      FloorHolds(t, x, y, z, w - 1, h);
      ColumnHolds(t, x + w - 1, y, z, h);
      assert t in FloorTiles(x, y, z, w, h)
        <==> t in FloorTiles(x, y, z, w - 1, h) || t in ColumnTiles(x + w - 1, y, z, h);
    }
  }

  lemma {:induction false} MapHolds(t: Tile, ax: int, ay: int, centerZ: int, floors: seq<int>, w: nat, h: nat)
    ensures t in MapTiles(ax, ay, centerZ, floors, w, h)
       <==> && t.2 in floors
            && ax + (centerZ - t.2) <= t.0 < ax + (centerZ - t.2) + w
            && ay + (centerZ - t.2) <= t.1 < ay + (centerZ - t.2) + h
  {
    hide FloorTiles;
    if floors != [] {
      var last := |floors| - 1;
      var z := floors[last];
      assert floors == floors[..last] + [z];
      MapHolds(t, ax, ay, centerZ, floors[..last], w, h);
      FloorHolds(t, ax + (centerZ - z), ay + (centerZ - z), z, w, h);
    }
  }

  lemma FloorsHold(f: int, z: int)
    requires 0 <= z <= 15
    ensures f in Floors(z) <==> if z > 7 then z - 2 <= f <= Min(z + 2, 15) else 0 <= f <= 7
  {
    if z > 7 && z - 2 <= f <= Min(z + 2, 15) {
      assert Floors(z)[f - (z - 2)] == f;
    }
  }

  /** The viewport, spelled out. */
  predicate InView(c: Center, t: Tile) {
    && (if c.z > 7 then c.z - 2 <= t.2 <= Min(c.z + 2, 15) else 0 <= t.2 <= 7)
    && -8 <= t.0 - c.x - (c.z - t.2) <= 9
    && -6 <= t.1 - c.y - (c.z - t.2) <= 7
  }

  lemma ViewHolds(c: Center, t: Tile)
    requires 0 <= c.z <= 15
    ensures t in ViewTiles(c) <==> InView(c, t)
  {
    hide MapTiles, Floors;
    MapHolds(t, c.x - ANCHOR_DX, c.y - ANCHOR_DY, c.z, Floors(c.z), VIEWPORT_WIDTH, VIEWPORT_HEIGHT);
    FloorsHold(t.2, c.z);
  }

  // ---------------------------------------------------------------------
  // Staying in sync
  // ---------------------------------------------------------------------

  /** The client knows the scene on every tile of its viewport, except the tiles in `stale`. */
  ghost predicate InSync(v: View, sc: Scene, stale: iset<Tile>) {
    forall t :: InView(v.center, t) && t !in stale ==> t in v.known && v.known[t] == CellAt(sc, t.0, t.1, t.2)
  }

  /** If the tiles just learnt are the ones that came into view, sync is kept, and only tiles that were in view before
      can still be stale. */
  lemma LearningKeepsSync(v: View, v': View, tiles: seq<Tile>, sc: Scene, stale: iset<Tile>)
    requires InSync(v, sc, stale) && Learns(v.known, v'.known, tiles, sc)
    requires forall t :: InView(v'.center, t) ==> InView(v.center, t) || t in tiles
    ensures InSync(v', sc, iset t | t in stale && InView(v.center, t) && InView(v'.center, t))
  {
  }

  /** A slice is exactly the row or column by which its shift moves the viewport. */
  lemma SliceCovers(opcode: uint8, c: Center, t: Tile)
    requires IsSlice(opcode) && 0 <= c.z <= 15
    ensures t in SliceTiles(opcode, Shift(opcode, c)) <==> InView(Shift(opcode, c), t) && !InView(c, t)
  {
    hide MapTiles, Floors;
    var d := Shift(opcode, c);
    FloorsHold(t.2, c.z);
    if opcode == SLICE_NORTH {
      MapHolds(t, d.x - 8, d.y - 6, d.z, Floors(d.z), 18, 1);
    } else if opcode == SLICE_SOUTH {
      MapHolds(t, d.x - 8, d.y + 7, d.z, Floors(d.z), 18, 1);
    } else if opcode == SLICE_EAST {
      MapHolds(t, d.x + 9, d.y - 6, d.z, Floors(d.z), 1, 14);
    } else {
      MapHolds(t, d.x - 8, d.y - 6, d.z, Floors(d.z), 1, 14);
    }
  }

  /** The floors revealed going up are exactly what the projection shift adds to the viewport. */
  lemma UpCovers(c: Center, t: Tile)
    requires 1 <= c.z <= 15
    ensures t in RevealTiles(c, RevealedUp(c.z - 1)) <==> InView(Center(c.x + 1, c.y + 1, c.z - 1), t) && !InView(c, t)
  {
    hide MapTiles;
    MapHolds(t, c.x - ANCHOR_DX, c.y - ANCHOR_DY, c.z, RevealedUp(c.z - 1), VIEWPORT_WIDTH, VIEWPORT_HEIGHT);
    if c.z == 8 {
      var r := RevealedUp(7);
      assert r[0] == 5 && r[1] == 4 && r[2] == 3 && r[3] == 2 && r[4] == 1 && r[5] == 0;
    } else if c.z > 8 {
      assert RevealedUp(c.z - 1)[0] == c.z - 3;
    }
  }

  /** The floors revealed going down are exactly what the projection shift adds to the viewport. */
  lemma DownCovers(c: Center, t: Tile)
    requires 0 <= c.z < 15
    ensures t in RevealTiles(c, RevealedDown(c.z + 1)) <==> InView(Center(c.x - 1, c.y - 1, c.z + 1), t) && !InView(c, t)
  {
    hide MapTiles;
    MapHolds(t, c.x - ANCHOR_DX, c.y - ANCHOR_DY, c.z, RevealedDown(c.z + 1), VIEWPORT_WIDTH, VIEWPORT_HEIGHT);
    if c.z == 7 {
      var r := RevealedDown(8);
      assert r[0] == 8 && r[1] == 9 && r[2] == 10;
    } else if 8 < c.z + 1 < 14 {
      assert RevealedDown(c.z + 1)[0] == c.z + 3;
    }
  }
}
