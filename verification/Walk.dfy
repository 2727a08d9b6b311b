/** The moving player's own update (crates/protocol/src/walk.rs): a header, a revealed-floor block
    and a few slices instead of a full map. */
module Walk {
  import opened World
  import opened Wire
  import opened TileStream
  import opened MapDescription
  import opened Client

  const VIEW_X: int := 8
  const VIEW_Y: int := 6
  const SLICE_W: nat := 18
  const SLICE_H: nat := 14

  // ---------------------------------------------------------------------
  // The packets of one step
  // ---------------------------------------------------------------------

  datatype Packet =
    | Move(id: uint32, to: Position)
    | Remove(id: uint32)
    | FullMap(at: Position)
    | Up(revealed: seq<Tile>)
    | Down(revealed: seq<Tile>)
    | Slice(opcode: uint8, ax: int, ay: int, z: int, w: nat, h: nat)

  function PacketBytes(p: Packet, sc: Scene): Bytes {
    match p
    case Move(id, to) => [OP_CREATURE_MOVE] + Le16(0xFFFF) + Le32(id) + (Le16(to.x) + Le16(to.y) + [to.z])
    case Remove(id) => [OP_REMOVE_TILE_THING] + Le16(0xFFFF) + Le32(id)
    case FullMap(at) => MapPacket(at.x, at.y, at.z, sc)
    case Up(revealed) => [OP_FLOOR_CHANGE_UP] + Stream(Cells(sc, revealed), -1)
    case Down(revealed) => [OP_FLOOR_CHANGE_DOWN] + Stream(Cells(sc, revealed), -1)
    case Slice(opcode, ax, ay, z, w, h) => SlicePacket(opcode, ax, ay, z, w, h, sc)
  }

  function AllBytes(ps: seq<Packet>, sc: Scene): Bytes {
    if ps == [] then [] else PacketBytes(ps[0], sc) + AllBytes(ps[1..], sc)
  }

  /** A change of floor that also leaps more than one tile. */
  predicate Leaps(old_: Position, new_: Position) {
    new_.z != old_.z && (Abs(new_.x - old_.x) > 1 || Abs(new_.y - old_.y) > 1)
  }

  function UpRevealed(o: Position, n: Position): seq<Tile> {
    if n.z == 7 then MapTiles(o.x - VIEW_X, o.y - VIEW_Y, 8, [5, 4, 3, 2, 1, 0], SLICE_W, SLICE_H)
    else if n.z > 7 then MapTiles(o.x - VIEW_X, o.y - VIEW_Y, o.z, [o.z - 3], SLICE_W, SLICE_H)
    else []
  }

  function DownRevealed(o: Position, n: Position): seq<Tile> {
    if n.z == 8 then MapTiles(o.x - VIEW_X, o.y - VIEW_Y, 7, [8, 9, 10], SLICE_W, SLICE_H)
    else if n.z > o.z && n.z > 8 && n.z < 14 then
      MapTiles(o.x - VIEW_X, o.y - VIEW_Y, n.z - 1, [n.z + 2], SLICE_W, SLICE_H)
    else []
  }

  function UpPackets(o: Position, n: Position): seq<Packet> {
    [Up(UpRevealed(o, n)),
     Slice(SLICE_WEST, o.x - VIEW_X, o.y - (VIEW_Y - 1), n.z, 1, SLICE_H),
     Slice(SLICE_NORTH, o.x - VIEW_X, o.y - VIEW_Y, n.z, SLICE_W, 1)]
  }

  function DownPackets(o: Position, n: Position): seq<Packet> {
    [Down(DownRevealed(o, n)),
     Slice(SLICE_EAST, o.x + (VIEW_X + 1), o.y - (VIEW_Y + 1), n.z, 1, SLICE_H),
     Slice(SLICE_SOUTH, o.x - VIEW_X, o.y + (VIEW_Y + 1), n.z, SLICE_W, 1)]
  }

  function RowPackets(o: Position, n: Position): seq<Packet> {
    if o.y > n.y then [Slice(SLICE_NORTH, o.x - VIEW_X, n.y - VIEW_Y, n.z, SLICE_W, 1)]
    else if o.y < n.y then [Slice(SLICE_SOUTH, o.x - VIEW_X, n.y + (VIEW_Y + 1), n.z, SLICE_W, 1)]
    else []
  }

  function ColumnPackets(o: Position, n: Position): seq<Packet> {
    if o.x < n.x then [Slice(SLICE_EAST, n.x + (VIEW_X + 1), n.y - VIEW_Y, n.z, 1, SLICE_H)]
    else if o.x > n.x then [Slice(SLICE_WEST, n.x - VIEW_X, n.y - VIEW_Y, n.z, 1, SLICE_H)]
    else []
  }

  function FloorPackets(o: Position, n: Position): seq<Packet> {
    if n.z > o.z then DownPackets(o, n) else if n.z < o.z then UpPackets(o, n) else []
  }

  function HeaderPacket(id: uint32, o: Position, n: Position): Packet {
    if o.z == 7 && n.z >= 8 then Remove(id) else Move(id, n)
  }

  function WalkPackets(id: uint32, o: Position, n: Position): seq<Packet> {
    if Leaps(o, n) then [Remove(id), FullMap(n)]
    else [HeaderPacket(id, o, n)] + FloorPackets(o, n) + RowPackets(o, n) + ColumnPackets(o, n)
  }

  // ---------------------------------------------------------------------
  // The server
  // ---------------------------------------------------------------------

  method RemoveCreatureById(id: uint32) returns (bytes: Bytes)
    ensures forall sc :: bytes == PacketBytes(Remove(id), sc)
  {
    var w := new MessageWriter();
    w.WriteU8(OP_REMOVE_TILE_THING);
    w.WriteU16(0xFFFF);
    w.WriteU32(id);
    return w.buf;
  }

  method CreatureMove(id: uint32, to: Position) returns (bytes: Bytes)
    ensures forall sc :: bytes == PacketBytes(Move(id, to), sc)
  {
    hide Le16, Le32;
    var w := new MessageWriter();
    w.WriteU8(OP_CREATURE_MOVE);
    w.WriteU16(0xFFFF);
    w.WriteU32(id);
    w.WriteU16(to.x);
    w.WriteU16(to.y);
    w.WriteU8(to.z);
    return w.buf;
  }

  /** The newly revealed upper floors, in one tile stream. */
  method RevealUp(w: MessageWriter, o: Position, n: Position, sc: Scene)
    modifies w
    ensures w.buf == old(w.buf) + Stream(Cells(sc, UpRevealed(o, n)), -1)
  {
    hide Run, MapTiles, FloorTiles, Cells, Flush;
    var ax, ay := o.x - VIEW_X, o.y - VIEW_Y;
    if n.z == 7 {
      ghost var floors := [5, 4, 3, 2, 1, 0];
      var skip: Skip := -1;
      NothingYet(sc, ax, ay, 8);
      for i := 6 downto 0
        invariant var cells := Cells(sc, MapTiles(ax, ay, 8, floors[..6 - i], SLICE_W, SLICE_H));
                  w.buf == old(w.buf) + Run(cells, -1).0 && skip == Run(cells, -1).1
      {
        MapRunSnoc(sc, ax, ay, 8, floors, 5 - i, SLICE_W, SLICE_H, -1);
        skip := FloorDescription(w, ax, ay, i, 8 - i, SLICE_W, SLICE_H, skip, sc);
      }
      assert floors[..6] == floors;
      CloseRun(w, skip);
    } else if n.z > 7 {
      OneFloor(sc, ax, ay, o.z, o.z - 3);
      var skip := FloorDescription(w, ax, ay, o.z - 3, 3, SLICE_W, SLICE_H, -1, sc);
      CloseRun(w, skip);
    } else {
      NoStream(sc);
    }
  }

  /** The newly revealed lower floors, in one tile stream. */
  method RevealDown(w: MessageWriter, o: Position, n: Position, sc: Scene)
    modifies w
    ensures w.buf == old(w.buf) + Stream(Cells(sc, DownRevealed(o, n)), -1)
  {
    hide Run, MapTiles, FloorTiles, Cells, Flush;
    var ax, ay := o.x - VIEW_X, o.y - VIEW_Y;
    if n.z == 8 {
      ghost var floors := [8, 9, 10];
      var skip: Skip := -1;
      NothingYet(sc, ax, ay, 7);
      for i := 0 to 3
        invariant var cells := Cells(sc, MapTiles(ax, ay, 7, floors[..i], SLICE_W, SLICE_H));
                  w.buf == old(w.buf) + Run(cells, -1).0 && skip == Run(cells, -1).1
      {
        MapRunSnoc(sc, ax, ay, 7, floors, i, SLICE_W, SLICE_H, -1);
        skip := FloorDescription(w, ax, ay, n.z + i, -i - 1, SLICE_W, SLICE_H, skip, sc);
      }
      assert floors[..3] == floors;
      CloseRun(w, skip);
    } else if n.z > o.z && n.z > 8 && n.z < 14 {
      OneFloor(sc, ax, ay, n.z - 1, n.z + 2);
      var skip := FloorDescription(w, ax, ay, n.z + 2, -3, SLICE_W, SLICE_H, -1, sc);
      CloseRun(w, skip);
    } else {
      NoStream(sc);
    }
  }

  method MoveUpBlock(o: Position, n: Position, sc: Scene) returns (bytes: Bytes)
    requires n.z <= 17
    ensures bytes == AllBytes(UpPackets(o, n), sc)
  {
    hide UpRevealed, SlicePacket, Stream;
    var w := new MessageWriter();
    w.WriteU8(OP_FLOOR_CHANGE_UP);
    RevealUp(w, o, n, sc);
    var west := EncodeSlice(SLICE_WEST, o.x - VIEW_X, o.y - (VIEW_Y - 1), n.z, 1, SLICE_H, sc);
    w.WriteBytes(west);
    var north := EncodeSlice(SLICE_NORTH, o.x - VIEW_X, o.y - VIEW_Y, n.z, SLICE_W, 1, sc);
    w.WriteBytes(north);
    AllBytesOfThree(UpPackets(o, n), sc);
    return w.buf;
  }

  method MoveDownBlock(o: Position, n: Position, sc: Scene) returns (bytes: Bytes)
    requires n.z <= 17
    ensures bytes == AllBytes(DownPackets(o, n), sc)
  {
    hide DownRevealed, SlicePacket, Stream;
    var w := new MessageWriter();
    w.WriteU8(OP_FLOOR_CHANGE_DOWN);
    RevealDown(w, o, n, sc);
    var east := EncodeSlice(SLICE_EAST, o.x + (VIEW_X + 1), o.y - (VIEW_Y + 1), n.z, 1, SLICE_H, sc);
    w.WriteBytes(east);
    var south := EncodeSlice(SLICE_SOUTH, o.x - VIEW_X, o.y + (VIEW_Y + 1), n.z, SLICE_W, 1, sc);
    w.WriteBytes(south);
    AllBytesOfThree(DownPackets(o, n), sc);
    return w.buf;
  }

  lemma NothingYet(sc: Scene, ax: int, ay: int, centerZ: int)
    ensures Run(Cells(sc, MapTiles(ax, ay, centerZ, [], SLICE_W, SLICE_H)), -1) == ([], -1)
  {
  }

  lemma NoStream(sc: Scene)
    ensures Stream(Cells(sc, []), -1) == []
  {
  }

  lemma OneFloor(sc: Scene, ax: int, ay: int, centerZ: int, f: int)
    ensures MapTiles(ax, ay, centerZ, [f], SLICE_W, SLICE_H)
         == FloorTiles(ax + (centerZ - f), ay + (centerZ - f), f, SLICE_W, SLICE_H)
  {
    assert [f][..0] == [];
    var floor := FloorTiles(ax + (centerZ - f), ay + (centerZ - f), f, SLICE_W, SLICE_H);
    assert [] + floor == floor;
  }

  lemma AllBytesOfThree(ps: seq<Packet>, sc: Scene)
    requires |ps| == 3
    ensures AllBytes(ps, sc) == PacketBytes(ps[0], sc) + PacketBytes(ps[1], sc) + PacketBytes(ps[2], sc)
  {
    hide PacketBytes;
    assert ps[1..][1..] == ps[2..] && ps[2..][1..] == [];
    assert AllBytes(ps[2..], sc) == PacketBytes(ps[2], sc) + [];
  }

  lemma {:induction false} AllBytesAppend(a: seq<Packet>, b: seq<Packet>, sc: Scene)
    ensures AllBytes(a + b, sc) == AllBytes(a, sc) + AllBytes(b, sc)
  {
    hide PacketBytes;
    if a == [] {
      assert a + b == b;
    } else {
      assert (a + b)[1..] == a[1..] + b;
      AllBytesAppend(a[1..], b, sc);
    }
  }

  lemma AllBytesOfOne(p: Packet, sc: Scene)
    ensures AllBytes([p], sc) == PacketBytes(p, sc)
  {
    hide PacketBytes;
    assert AllBytes([p], sc) == PacketBytes(p, sc) + [];
  }

  /** `walk_update`. */
  method WalkUpdate(id: uint32, o: Position, n: Position, sc: Scene) returns (out: Bytes)
    requires n.z <= 17
    ensures out == AllBytes(WalkPackets(id, o, n), sc)
  {
    hide AllBytes, PacketBytes, MapPacket, SlicePacket, UpPackets, DownPackets;
    if n.z != o.z && (Abs(n.x - o.x) > 1 || Abs(n.y - o.y) > 1) {
      out := RemoveCreatureById(id);
      var full := Encode(n.x, n.y, n.z, sc);
      out := out + full;
      LeapBytes(id, n, sc);
      return;
    }
    if o.z == 7 && n.z >= 8 {
      out := RemoveCreatureById(id);
    } else {
      out := CreatureMove(id, n);
    }
    var header, floor, row, column := HeaderPacket(id, o, n), FloorPackets(o, n), RowPackets(o, n), ColumnPackets(o, n);
    WalkBytes(header, floor, row, column, sc);
    if n.z > o.z {
      var block := MoveDownBlock(o, n, sc);
      out := out + block;
    } else if n.z < o.z {
      var block := MoveUpBlock(o, n, sc);
      out := out + block;
    } else {
      NoBytes(sc);
    }
    assert out == PacketBytes(header, sc) + AllBytes(floor, sc);
    if o.y > n.y {
      var slice := EncodeSlice(SLICE_NORTH, o.x - VIEW_X, n.y - VIEW_Y, n.z, SLICE_W, 1, sc);
      SliceBytes(row[0], sc);
      out := out + slice;
    } else if o.y < n.y {
      var slice := EncodeSlice(SLICE_SOUTH, o.x - VIEW_X, n.y + (VIEW_Y + 1), n.z, SLICE_W, 1, sc);
      SliceBytes(row[0], sc);
      out := out + slice;
    } else {
      NoBytes(sc);
    }
    assert out == PacketBytes(header, sc) + AllBytes(floor, sc) + AllBytes(row, sc);
    if o.x < n.x {
      var slice := EncodeSlice(SLICE_EAST, n.x + (VIEW_X + 1), n.y - VIEW_Y, n.z, 1, SLICE_H, sc);
      SliceBytes(column[0], sc);
      out := out + slice;
    } else if o.x > n.x {
      var slice := EncodeSlice(SLICE_WEST, n.x - VIEW_X, n.y - VIEW_Y, n.z, 1, SLICE_H, sc);
      SliceBytes(column[0], sc);
      out := out + slice;
    } else {
      NoBytes(sc);
    }
  }

  lemma NoBytes(sc: Scene)
    ensures AllBytes([], sc) == []
  {
  }

  lemma SliceBytes(p: Packet, sc: Scene)
    requires p.Slice?
    ensures AllBytes([p], sc) == PacketBytes(p, sc) == SlicePacket(p.opcode, p.ax, p.ay, p.z, p.w, p.h, sc)
  {
    AllBytesOfOne(p, sc);
  }

  lemma LeapBytes(id: uint32, n: Position, sc: Scene)
    ensures AllBytes([Remove(id), FullMap(n)], sc) == PacketBytes(Remove(id), sc) + MapPacket(n.x, n.y, n.z, sc)
  {
    AllBytesOfOne(FullMap(n), sc);
    assert [Remove(id), FullMap(n)][1..] == [FullMap(n)];
  }

  lemma WalkBytes(header: Packet, floor: seq<Packet>, row: seq<Packet>, column: seq<Packet>, sc: Scene)
    ensures AllBytes([header] + floor + row + column, sc)
         == PacketBytes(header, sc) + AllBytes(floor, sc) + AllBytes(row, sc) + AllBytes(column, sc)
  {
    AllBytesOfOne(header, sc);
    AllBytesAppend([header], floor, sc);
    AllBytesAppend([header] + floor, row, sc);
    AllBytesAppend([header] + floor + row, column, sc);
  }
}
