/** The numbers of the formats: which byte means what, on the wire and in the files. Everything else about the formats
    is proved with names for them. */
module Formats {
  import opened World
  import opened Wire
  import Creature
  import TileStream
  import MapDescription
  import Client
  import Walk
  import NodeTree
  import Props
  import MapItems
  import MapFile
  import WholeMap
  import ItemDictionary

  /** Words are little-endian. */
  lemma LittleEndian(v: uint16, w: uint32)
    ensures Le16(v)[0] as int + 256 * Le16(v)[1] as int == v
    ensures var b := Le32(w);
            b[0] as int + 256 * b[1] as int + 65536 * b[2] as int + 16777216 * b[3] as int == w
  {
  }

  // ---------------------------------------------------------------------
  // The wire
  // ---------------------------------------------------------------------

  /** The packets that name a creature by its id. */
  lemma IdPackets(id: uint32, to: Position, sc: MapDescription.Scene)
    ensures Walk.PacketBytes(Walk.Move(id, to), sc)
         == [0x6D, 0xFF, 0xFF] + Le32(id) + Le16(to.x) + Le16(to.y) + [to.z]
    ensures Walk.PacketBytes(Walk.Remove(id), sc) == [0x6C, 0xFF, 0xFF] + Le32(id)
  {
    hide Le32;
    assert Le16(0xFFFF) == [0xFF, 0xFF];
  }

  /** A map opens with its centre. */
  lemma MapPackets(n: Position, sc: MapDescription.Scene)
    ensures [0x64] + Le16(n.x) + Le16(n.y) + [n.z] <= Walk.PacketBytes(Walk.FullMap(n), sc)
  {
    hide TileStream.Stream, MapDescription.Cells, MapDescription.MapTiles, Le16;
  }

  /** The first byte of every other packet that carries tiles: a floor up or down, a step in each direction. */
  lemma TilePackets(o: Position, n: Position, sc: MapDescription.Scene)
    ensures n.z < o.z ==> Walk.PacketBytes(Walk.FloorPackets(o, n)[0], sc)[0] == 0xBE
    ensures n.z > o.z ==> Walk.PacketBytes(Walk.FloorPackets(o, n)[0], sc)[0] == 0xBF
    ensures n.y < o.y ==> Walk.PacketBytes(Walk.RowPackets(o, n)[0], sc)[0] == 0x65
    ensures n.x > o.x ==> Walk.PacketBytes(Walk.ColumnPackets(o, n)[0], sc)[0] == 0x66
    ensures n.y > o.y ==> Walk.PacketBytes(Walk.RowPackets(o, n)[0], sc)[0] == 0x67
    ensures n.x < o.x ==> Walk.PacketBytes(Walk.ColumnPackets(o, n)[0], sc)[0] == 0x68
  {
    hide TileStream.Stream, MapDescription.Cells, MapDescription.MapTiles;
  }

  /** An item; and a creature the client knows, or does not know yet. */
  lemma ItemBytes(i: TileStream.WireItem)
    ensures TileStream.ItemBytes(i)
         == Le16(i.clientId) + [0xFF] + (match i.subtype case None => [] case Some(n) => [n])
            + (if i.animated then [0xFE] else [])
  {
    hide Le16;
  }

  lemma CreatureBytes(v: Creature.CreatureView, removeId: uint32)
    ensures [0x62, 0] + Le32(v.id) <= Creature.CreatureBytes(v, true, removeId)
    ensures [0x61, 0] + Le32(removeId) + Le32(v.id) <= Creature.CreatureBytes(v, false, removeId)
    ensures Creature.TailBytes(v, true)
         == [v.lightLevel, v.lightColor] + Le16(v.speed / 2) + [0, 0, v.creatureType, 0, 0xFF, 0, 0, v.walkthrough]
    ensures Creature.TailBytes(v, false)
         == [v.lightLevel, v.lightColor] + Le16(v.speed / 2) + [0, 0, 0, v.creatureType, 0, 0xFF, 0, 0, v.walkthrough]
  {
    hide Le32, Creature.OutfitBytes;
    var speed := Le16(v.speed / 2);
    assert Le16(0x62) == [0x62, 0] && Le16(0x61) == [0x61, 0] && Le16(0) == [0, 0];
  }

  /** A tile opens with two zeros; a run of one to 256 empty places is its length less one, and 255. */
  lemma StreamMarkers(things: seq<TileStream.TileThing>)
    ensures TileStream.Stream([Some(things)], -1) == [0, 0] + TileStream.ThingsBytes(things) + [0, 0xFF]
    ensures TileStream.Stream([None], -1) == [0, 0xFF] && TileStream.Stream([None, None], -1) == [1, 0xFF]
    ensures TileStream.CellStep(254, None) == ([0xFF, 0xFF], -1) && TileStream.CellStep(253, None) == ([], 254)
  {
    hide TileStream.ThingsBytes;
    var none: seq<TileStream.Cell> := [None];
    assert none[1..] == [] && [None, None][1..] == none;
    var tile: seq<TileStream.Cell> := [Some(things)];
    assert tile == tile + [];
    TileStream.StreamOfTile(things, [], -1);
    assert TileStream.Stream([], 0) == [0, 0xFF] && Le16(0) == [0, 0];
  }

  // ---------------------------------------------------------------------
  // The files
  // ---------------------------------------------------------------------

  /** A node is bracketed by 0xFE and 0xFF, and those two and 0xFD are escaped by 0xFD. */
  lemma NodeMarkers(kind: uint8, b: uint8, child: NodeTree.Node)
    ensures NodeTree.NodeBytes(NodeTree.Node(kind, [b], []))
         == [0xFE, kind] + (if b in [0xFD, 0xFE, 0xFF] then [0xFD, b] else [b]) + [0xFF]
    ensures NodeTree.NodeBytes(NodeTree.Node(kind, [], [child])) == [0xFE, kind] + NodeTree.NodeBytes(child) + [0xFF]
  {
    assert NodeTree.Escaped([b]) == NodeTree.EscapedByte(b) by {
      assert [b][1..] == [];
    }
    assert NodeTree.ChildrenBytes([child]) == NodeTree.NodeBytes(child) by {
      assert [child][1..] == [];
    }
  }

  /** The attributes of an item: 15 is the count, and the others are skipped by their widths. */
  lemma ItemAttributes(tag: uint8, n: uint8, rest: Bytes, count: Option<uint8>)
    ensures MapItems.Attributes([15, n] + rest, count) == MapItems.Attributes(rest, Some(n))
    ensures tag in [12, 17] ==> MapItems.Attributes([tag, n] + rest, count) == MapItems.Attributes(rest, count)
    ensures MapItems.ShapeOf(tag).Fixed? && MapItems.ShapeOf(tag).size == 1 <==> tag in [12, 15, 17]
    ensures MapItems.ShapeOf(tag).Fixed? && MapItems.ShapeOf(tag).size == 2 <==> tag in [4, 5, 10, 22]
    ensures MapItems.ShapeOf(tag).Fixed? && MapItems.ShapeOf(tag).size == 4 <==> tag in [16, 18]
    ensures MapItems.ShapeOf(tag).Fixed? && MapItems.ShapeOf(tag).size == 5 <==> tag == 8
    ensures MapItems.ShapeOf(tag).Text? <==> tag in [6, 7, 19]
    ensures MapItems.ShapeOf(tag).Unknown? <==> tag !in [4, 5, 6, 7, 8, 10, 12, 15, 16, 17, 18, 19, 22]
  {
    var counted, skipped: Bytes := [15, n] + rest, [tag, n] + rest;
    assert counted[1..] == [n] + rest && ([n] + rest)[..1] == [n] && ([n] + rest)[1..] == rest;
    assert skipped[1..] == [n] + rest;
  }

  /** The attributes of a tile: 3 is its flags, 9 an item. */
  lemma TileAttributes(tag: uint8, flags: uint32, id: uint16, rest: Bytes, c: MapFile.Collected)
    ensures MapFile.TileAttributes([3] + Le32(flags) + rest, c) == MapFile.TileAttributes(rest, c.(flags := flags))
    ensures MapFile.TileAttributes([9] + Le16(id) + rest, c)
         == MapFile.TileAttributes(rest, c.(items := c.items + [MapItems.MapItem(id, None, [])]))
    ensures tag !in [3, 9] ==> MapFile.TileAttributes([tag] + rest, c) == NodeTree.Err(NodeTree.InvalidNode)
  {
    hide Le16, Le32, ReadU16, ReadU32;
    assert ([3] + Le32(flags) + rest)[1..] == Le32(flags) + rest;
    assert ([9] + Le16(id) + rest)[1..] == Le16(id) + rest;
    ReadU32Back(flags, rest);
    ReadU16Back(id, rest);
  }

  /** The kinds of nodes: 2 the map data, 4 an area, 5 a tile, 14 a house tile, 6 an item, 12 towns, 13 a town, 15
      waypoints, 16 a waypoint. Anything else in their places is an error. */
  lemma NodeKinds(n: NodeTree.Node, m: WholeMap.OtbmMap, item: MapItems.MapItem, x: uint16, y: uint16, z: uint8)
    ensures WholeMap.MapData([n]).Some? <==> n.kind == 2
    ensures n.kind == 4 ==> WholeMap.Section(n, m) == match MapFile.Area(n, m.tiles)
                                                      case Err(e) => NodeTree.Err(e)
                                                      case Ok(tiles) => NodeTree.Ok(m.(tiles := tiles))
    ensures n.kind == 12 && n.children == [] ==> WholeMap.Section(n, m) == NodeTree.Ok(m)
    ensures n.kind == 12 && n.children != [] && n.children[0].kind != 13 ==>
              WholeMap.Section(n, m) == NodeTree.Err(NodeTree.InvalidNode)
    ensures n.kind == 15 && n.children == [] ==> WholeMap.Section(n, m) == NodeTree.Ok(m)
    ensures n.kind == 15 && n.children != [] && n.children[0].kind != 16 ==>
              WholeMap.Section(n, m) == NodeTree.Err(NodeTree.InvalidNode)
    ensures n.kind !in [4, 12, 15] ==> WholeMap.Section(n, m) == NodeTree.Err(NodeTree.InvalidNode)
    ensures n.kind == 13 && n.props == [] ==> WholeMap.TownsFrom([n], []) == NodeTree.Err(NodeTree.UnexpectedEof)
    ensures n.kind == 16 && n.props == [] ==> WholeMap.WaypointsFrom([n], []) == NodeTree.Err(NodeTree.UnexpectedEof)
    ensures n.kind !in [5, 14] ==> MapFile.TilesFrom([n], x, y, z, []) == NodeTree.Err(NodeTree.InvalidNode)
    ensures n.kind in [5, 14] && n.props == [] ==> MapFile.TilesFrom([n], x, y, z, []) == NodeTree.Err(NodeTree.UnexpectedEof)
    ensures n.props == [0, 0] && n.children == [] ==>
              (MapFile.Tile(n, x, y, z).Err? <==> n.kind == 14)
    ensures n.kind != 6 ==> MapItems.ItemsFrom([n], []) == NodeTree.Err(NodeTree.InvalidNode)
    ensures n.kind == 6 && n.props == [] ==> MapItems.ItemsFrom([n], []) == NodeTree.Err(NodeTree.UnexpectedEof)
  {
    hide MapFile.Area;
  }

  /** The texts of a map: 1 a description, 11 the spawn file, 13 the house file. Descriptions are joined by a newline. */
  lemma MapTexts(tag: uint8, text: Bytes, m: WholeMap.OtbmMap)
    ensures WholeMap.IsTextTag(tag) <==> tag in [1, 11, 13]
    ensures m.description != [] ==> WholeMap.WithText(m, 1, text) == m.(description := m.description + [10] + text)
    ensures m.description == [] ==> WholeMap.WithText(m, 1, text) == m.(description := text)
    ensures WholeMap.WithText(m, 11, text) == m.(spawnFile := Some(text))
    ensures WholeMap.WithText(m, 13, text) == m.(houseFile := Some(text))
  {
  }

  /** The records of an item type: 0x10 its id, 0x11 the client's, 0x2B its order; zero where none says otherwise. */
  lemma DictionaryTags(id: uint16, order: uint8, rest: Bytes, f: ItemDictionary.Fields)
    ensures ItemDictionary.ReadRecord(0x10, [2, 0] + Le16(id) + rest, f) == Got(f.(serverId := id), rest)
    ensures ItemDictionary.ReadRecord(0x11, [2, 0] + Le16(id) + rest, f) == Got(f.(clientId := id), rest)
    ensures ItemDictionary.ReadRecord(0x2B, [1, 0] + [order] + rest, f) == Got(f.(topOrder := order), rest)
    ensures ItemDictionary.Records([], ItemDictionary.NO_FIELDS) == NodeTree.Ok(ItemDictionary.Fields(0, 0, 0))
  {
    assert Le16(2) == [2, 0] && Le16(1) == [1, 0];
    hide Le16, ReadU16;
    assert [2, 0] + Le16(id) + rest == Le16(2) + (Le16(id) + rest);
    assert [1, 0] + [order] + rest == Le16(1) + ([order] + rest);
    ReadU16Back(id, rest);
    ReadU16Back(2, Le16(id) + rest);
    ReadU16Back(1, [order] + rest);
    ReadU8Back(order, rest);
  }

  /** 0x01 marks the three numbers of the version. */
  lemma VersionTag(v: ItemDictionary.Version)
    ensures ItemDictionary.VersionOf([0, 0, 0, 0, 0x01, 0, 0] + (Le32(v.major) + (Le32(v.minor) + Le32(v.build))))
         == NodeTree.Ok(v)
  {
    assert Le16(0) == [0, 0] && Le32(0) == [0, 0, 0, 0];
    hide Le16, Le32, ItemDictionary.VersionOf;
    var numbers := Le32(v.major) + (Le32(v.minor) + Le32(v.build));
    assert Le32(v.build) + [] == Le32(v.build);
    assert ItemDictionary.VersionBytes(0, 0, v, []) == [0, 0, 0, 0, 0x01, 0, 0] + numbers;
    ItemDictionary.VersionParses(0, 0, v, []);
  }
}
