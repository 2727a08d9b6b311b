/** Tile areas of a map file (crates/formats/src/otbm.rs): tiles at offsets from a base, with flags, inline
    items and item trees. */
module MapFile {
  import opened World
  import opened Wire
  import opened NodeTree
  import opened Props
  import opened MapItems

  const OTBM_TILE_AREA: uint8 := 4
  const OTBM_TILE: uint8 := 5
  const OTBM_HOUSETILE: uint8 := 14
  const ATTR_TILE_FLAGS: uint8 := 3
  const ATTR_ITEM: uint8 := 9

  datatype MapTile = MapTile(x: uint16, y: uint16, z: uint8, flags: uint32, houseId: Option<uint32>, items: seq<MapItem>)

  // ---------------------------------------------------------------------
  // Parsing
  // ---------------------------------------------------------------------

  /** What the attribute loop of a tile has collected. */
  datatype Collected = Collected(flags: uint32, items: seq<MapItem>)

  /** The attribute loop: the last flags, and an item for every inline id. Unlike an item's, it refuses unknown tags. */
  function TileAttributes(b: Bytes, c: Collected): Result<Collected>
    decreases |b|
  {
    if b == [] then Ok(c)
    else if b[0] == ATTR_TILE_FLAGS then
      match ReadU32(b[1..])
      case Short => Err(UnexpectedEof)
      case Got(flags, rest) => TileAttributes(rest, c.(flags := flags))
    else if b[0] == ATTR_ITEM then
      match ReadU16(b[1..])
      case Short => Err(UnexpectedEof)
      case Got(id, rest) => TileAttributes(rest, c.(items := c.items + [MapItem(id, None, [])]))
    else Err(InvalidNode)
  }

  datatype TileHead = TileHead(dx: uint8, dy: uint8, houseId: Option<uint32>)

  function ReadTileHead(b: Bytes, house: bool): Read<TileHead> {
    var (dx, b) :- ReadU8(b);
    var (dy, b) :- ReadU8(b);
    if house then
      var (id, b) :- ReadU32(b);
      Got(TileHead(dx, dy, Some(id)), b)
    else Got(TileHead(dx, dy, None), b)
  }

  /** The properties of a tile node. */
  function TileProps(b: Bytes, house: bool): Result<(TileHead, Collected)> {
    match ReadTileHead(b, house)
    case Short => Err(UnexpectedEof)
    case Got(head, rest) =>
      match TileAttributes(rest, Collected(0, []))
      case Err(e) => Err(e)
      case Ok(c) => Ok((head, c))
  }

  /** The tile at an offset from `(x0, y0)`; the sums wrap at 16 bits. */
  function Placed(head: TileHead, c: Collected, x0: uint16, y0: uint16, z: uint8, items: seq<MapItem>): MapTile {
    MapTile((x0 + head.dx) % 0x1_0000, (y0 + head.dy) % 0x1_0000, z, c.flags, head.houseId, items)
  }

  /** A tile node below an area at `(x0, y0)`. */
  function Tile(n: Node, x0: uint16, y0: uint16, z: uint8): Result<MapTile> {
    match TileProps(n.props, n.kind == OTBM_HOUSETILE)
    case Err(e) => Err(e)
    case Ok((head, c)) =>
      match ItemsFrom(n.children, c.items)
      case Err(e) => Err(e)
      case Ok(items) => Ok(Placed(head, c, x0, y0, z, items))
  }

  function TilesFrom(ns: seq<Node>, x0: uint16, y0: uint16, z: uint8, out: seq<MapTile>): Result<seq<MapTile>> {
    if ns == [] then Ok(out)
    else if ns[0].kind != OTBM_TILE && ns[0].kind != OTBM_HOUSETILE then Err(InvalidNode)
    else
      match Tile(ns[0], x0, y0, z)
      case Err(e) => Err(e)
      case Ok(t) => TilesFrom(ns[1..], x0, y0, z, out + [t])
  }

  datatype Base = Base(x: uint16, y: uint16, z: uint8)

  function ReadBase(b: Bytes): Read<Base> {
    var (x, b) :- ReadU16(b);
    var (y, b) :- ReadU16(b);
    var (z, b) :- ReadU8(b);
    Got(Base(x, y, z), b)
  }

  /** An area node, with the tiles already collected. */
  function Area(n: Node, out: seq<MapTile>): Result<seq<MapTile>> {
    match ReadBase(n.props)
    case Short => Err(UnexpectedEof)
    case Got(base, _) => TilesFrom(n.children, base.x, base.y, base.z, out)
  }

  /** The head of `parse_tile`. */
  method ParseTileHead(reader: PropReader, house: bool) returns (r: Result<TileHead>)
    requires reader.Valid()
    modifies reader
    ensures reader.Valid()
    ensures match ReadTileHead(old(reader.Rest()), house)
            case Short => r == Err(UnexpectedEof)
            case Got(head, rest) => r == Ok(head) && reader.Rest() == rest
  {
    var dx := reader.TakeU8();
    if dx.Err? {
      return Err(dx.error);
    }
    var dy := reader.TakeU8();
    if dy.Err? {
      return Err(dy.error);
    }
    if !house {
      return Ok(TileHead(dx.value, dy.value, None));
    }
    var id := reader.TakeU32();
    if id.Err? {
      return Err(id.error);
    }
    return Ok(TileHead(dx.value, dy.value, Some(id.value)));
  }

  /** The attribute loop of `parse_tile`. */
  method ParseTileAttributes(reader: PropReader) returns (r: Result<Collected>)
    requires reader.Valid()
    modifies reader
    ensures r == TileAttributes(old(reader.Rest()), Collected(0, []))
  {
    var c := Collected(0, []);
    while reader.pos < |reader.data|
      invariant reader.Valid()
      invariant TileAttributes(old(reader.Rest()), Collected(0, [])) == TileAttributes(reader.Rest(), c)
      decreases |reader.data| - reader.pos
    {
      ghost var before := reader.Rest();
      var tag := reader.TakeU8();
      assert before[0] == tag.value && before[1..] == reader.Rest();
      if tag.value == ATTR_TILE_FLAGS {
        var flags := reader.TakeU32();
        if flags.Err? {
          return Err(flags.error);
        }
        c := c.(flags := flags.value);
      } else if tag.value == ATTR_ITEM {
        var id := reader.TakeU16();
        if id.Err? {
          return Err(id.error);
        }
        c := c.(items := c.items + [MapItem(id.value, None, [])]);
      } else {
        return Err(InvalidNode);
      }
    }
    return Ok(c);
  }

  /** The child loop of `parse_tile`. */
  method ParseStacked(ns: seq<Node>, inline: seq<MapItem>) returns (r: Result<seq<MapItem>>)
    ensures r == ItemsFrom(ns, inline)
  {
    hide Item;
    var items := inline;
    for i := 0 to |ns|
      invariant ItemsFrom(ns, inline) == ItemsFrom(ns[i..], items)
    {
      if ns[i].kind != OTBM_ITEM {
        return Err(InvalidNode);
      }
      var item := ParseItem(ns[i]);
      if item.Err? {
        return Err(item.error);
      }
      items := items + [item.value];
    }
    return Ok(items);
  }

  /** The property reads of `parse_tile`. */
  method ParseTileProps(props: Bytes, house: bool) returns (r: Result<(TileHead, Collected)>)
    ensures r == TileProps(props, house)
  {
    hide TileAttributes, ReadTileHead;
    var reader := new PropReader(props);
    var head := ParseTileHead(reader, house);
    if head.Err? {
      return Err(head.error);
    }
    var c := ParseTileAttributes(reader);
    if c.Err? {
      return Err(c.error);
    }
    return Ok((head.value, c.value));
  }

  /** `parse_tile` */
  method ParseTile(n: Node, x0: uint16, y0: uint16, z: uint8) returns (r: Result<MapTile>)
    ensures r == Tile(n, x0, y0, z)
  {
    hide TileProps, ItemsFrom, Placed;
    var props := ParseTileProps(n.props, n.kind == OTBM_HOUSETILE);
    if props.Err? {
      return Err(props.error);
    }
    var (head, c) := props.value;
    var items := ParseStacked(n.children, c.items);
    if items.Err? {
      return Err(items.error);
    }
    return Ok(Placed(head, c, x0, y0, z, items.value));
  }

  /** The tile loop of `parse_tile_area`. */
  method ParseTiles(ns: seq<Node>, x0: uint16, y0: uint16, z: uint8, out: seq<MapTile>) returns (r: Result<seq<MapTile>>)
    ensures r == TilesFrom(ns, x0, y0, z, out)
  {
    hide Tile;
    var tiles := out;
    for i := 0 to |ns|
      invariant TilesFrom(ns, x0, y0, z, out) == TilesFrom(ns[i..], x0, y0, z, tiles)
    {
      if ns[i].kind != OTBM_TILE && ns[i].kind != OTBM_HOUSETILE {
        return Err(InvalidNode);
      }
      var t := ParseTile(ns[i], x0, y0, z);
      if t.Err? {
        return Err(t.error);
      }
      tiles := tiles + [t.value];
    }
    return Ok(tiles);
  }

  /** `parse_tile_area`: append the area's tiles. */
  method ParseTileArea(n: Node, out: seq<MapTile>) returns (r: Result<seq<MapTile>>)
    ensures r == Area(n, out)
  {
    hide TilesFrom;
    var reader := new PropReader(n.props);
    var x := reader.TakeU16();
    if x.Err? {
      return Err(x.error);
    }
    var y := reader.TakeU16();
    if y.Err? {
      return Err(y.error);
    }
    var z := reader.TakeU8();
    if z.Err? {
      return Err(z.error);
    }
    r := ParseTiles(n.children, x.value, y.value, z.value, out);
  }

  // ---------------------------------------------------------------------
  // Writing
  // ---------------------------------------------------------------------

  datatype TileAttribute = Flags(flags: uint32) | Inline(id: uint16)

  /** A tile as a map editor holds it, at an offset from its area's base. */
  datatype RichTile = RichTile(dx: uint8, dy: uint8, houseId: Option<uint32>, attributes: seq<TileAttribute>,
                               stacked: seq<RichItem>)

  datatype RichArea = RichArea(base: Base, tiles: seq<RichTile>)

  predicate StackOk(t: RichTile) {
    forall k :: 0 <= k < |t.stacked| ==> ItemOk(t.stacked[k])
  }

  predicate AreaOk(a: RichArea) {
    forall k :: 0 <= k < |a.tiles| ==> StackOk(a.tiles[k])
  }

  function TileAttributeBytes(a: TileAttribute): Bytes {
    match a
    case Flags(flags) => [ATTR_TILE_FLAGS] + Le32(flags)
    case Inline(id) => [ATTR_ITEM] + Le16(id)
  }

  function TileAttributesBytes(attrs: seq<TileAttribute>): Bytes {
    if attrs == [] then [] else TileAttributeBytes(attrs[0]) + TileAttributesBytes(attrs[1..])
  }

  function HeadBytes(t: RichTile): Bytes {
    [t.dx] + ([t.dy] + if t.houseId.Some? then Le32(t.houseId.value) else [])
  }

  function ToTileNode(t: RichTile): Node {
    Node(if t.houseId.Some? then OTBM_HOUSETILE else OTBM_TILE,
         HeadBytes(t) + TileAttributesBytes(t.attributes), ToNodes(t.stacked))
  }

  function ToTileNodes(ts: seq<RichTile>): (ns: seq<Node>)
    ensures |ns| == |ts|
  {
    if ts == [] then [] else [ToTileNode(ts[0])] + ToTileNodes(ts[1..])
  }

  function ToAreaNode(a: RichArea): Node {
    Node(OTBM_TILE_AREA, Le16(a.base.x) + (Le16(a.base.y) + [a.base.z]), ToTileNodes(a.tiles))
  }

  /** The last flags, and the inline items in order. */
  function LastFlags(attrs: seq<TileAttribute>, flags: uint32): uint32 {
    if attrs == [] then flags else LastFlags(attrs[1..], if attrs[0].Flags? then attrs[0].flags else flags)
  }

  function InlineItems(attrs: seq<TileAttribute>): seq<MapItem> {
    if attrs == [] then []
    else (if attrs[0].Inline? then [MapItem(attrs[0].id, None, [])] else []) + InlineItems(attrs[1..])
  }

  /** What the game keeps of a tile: inline items below stacked ones, at the base plus the offset. */
  function PlainTile(base: Base, t: RichTile): MapTile
    requires StackOk(t)
  {
    MapTile((base.x + t.dx) % 0x1_0000, (base.y + t.dy) % 0x1_0000, base.z, LastFlags(t.attributes, 0), t.houseId,
            InlineItems(t.attributes) + Plains(t.stacked))
  }

  function PlainTiles(base: Base, ts: seq<RichTile>): (r: seq<MapTile>)
    requires forall k :: 0 <= k < |ts| ==> StackOk(ts[k])
    ensures |r| == |ts| && forall k :: 0 <= k < |ts| ==> r[k] == PlainTile(base, ts[k])
  {
    seq(|ts|, k requires 0 <= k < |ts| => PlainTile(base, ts[k]))
  }

  // ---------------------------------------------------------------------
  // Parsing undoes writing
  // ---------------------------------------------------------------------

  /** What one attribute adds. */
  function Collect(c: Collected, a: TileAttribute): Collected {
    match a
    case Flags(flags) => c.(flags := flags)
    case Inline(id) => c.(items := c.items + [MapItem(id, None, [])])
  }

  lemma TileAttributeParses(a: TileAttribute, rest: Bytes, c: Collected)
    ensures TileAttributes(TileAttributeBytes(a) + rest, c) == TileAttributes(rest, Collect(c, a))
  {
    hide Le16, Le32, ReadU16, ReadU32;
    var b := TileAttributeBytes(a) + rest;
    match a
    case Flags(flags) =>
      assert b[1..] == Le32(flags) + rest;
      ReadU32Back(flags, rest);
    case Inline(id) =>
      assert b[1..] == Le16(id) + rest;
      ReadU16Back(id, rest);
  }

  function Gathered(attrs: seq<TileAttribute>, c: Collected): Collected {
    Collected(LastFlags(attrs, c.flags), c.items + InlineItems(attrs))
  }

  lemma GatherNext(attrs: seq<TileAttribute>, c: Collected)
    requires attrs != []
    ensures Gathered(attrs, c) == Gathered(attrs[1..], Collect(c, attrs[0]))
  {
    var rest := InlineItems(attrs[1..]);
    match attrs[0]
    case Flags(_) =>
      assert [] + rest == rest;
    case Inline(id) =>
      assert c.items + [MapItem(id, None, [])] + rest == c.items + ([MapItem(id, None, [])] + rest);
  }

  lemma {:induction false} TileAttributesParse(attrs: seq<TileAttribute>, c: Collected)
    ensures TileAttributes(TileAttributesBytes(attrs), c) == Ok(Gathered(attrs, c))
  {
    if attrs == [] {
      assert c.items + [] == c.items;
    } else {
      hide TileAttributes, TileAttributeBytes, Gathered, Collect;
      TileAttributeParses(attrs[0], TileAttributesBytes(attrs[1..]), c);
      GatherNext(attrs, c);
      TileAttributesParse(attrs[1..], Collect(c, attrs[0]));
    }
  }

  lemma TileHeadParses(t: RichTile, rest: Bytes)
    ensures ReadTileHead(HeadBytes(t) + rest, t.houseId.Some?) == Got(TileHead(t.dx, t.dy, t.houseId), rest)
  {
    hide Le32, ReadU32, ReadU8;
    var tail := if t.houseId.Some? then Le32(t.houseId.value) else [];
    assert HeadBytes(t) + rest == [t.dx] + ([t.dy] + (tail + rest));
    ReadU8Back(t.dx, [t.dy] + (tail + rest));
    ReadU8Back(t.dy, tail + rest);
    if t.houseId.Some? {
      ReadU32Back(t.houseId.value, rest);
    } else {
      assert tail + rest == rest;
    }
  }

  lemma TileParses(base: Base, t: RichTile)
    requires StackOk(t)
    ensures Tile(ToTileNode(t), base.x, base.y, base.z) == Ok(PlainTile(base, t))
  {
    hide TileAttributes, ReadTileHead, HeadBytes, ItemsFrom;
    TileHeadParses(t, TileAttributesBytes(t.attributes));
    TileAttributesParse(t.attributes, Collected(0, []));
    assert [] + InlineItems(t.attributes) == InlineItems(t.attributes);
    ItemsParse(t.stacked, InlineItems(t.attributes));
  }

  lemma NextTile(base: Base, ns: seq<Node>, t: MapTile, out: seq<MapTile>)
    requires ns != [] && (ns[0].kind == OTBM_TILE || ns[0].kind == OTBM_HOUSETILE)
    requires Tile(ns[0], base.x, base.y, base.z) == Ok(t)
    ensures TilesFrom(ns, base.x, base.y, base.z, out) == TilesFrom(ns[1..], base.x, base.y, base.z, out + [t])
  {
    hide Tile;
  }

  lemma NoTile(base: Base, out: seq<MapTile>)
    ensures TilesFrom(ToTileNodes([]), base.x, base.y, base.z, out) == Ok(out)
  {
  }

  lemma TileNodesSplit(ts: seq<RichTile>)
    requires ts != []
    ensures ToTileNodes(ts)[0] == ToTileNode(ts[0]) && ToTileNodes(ts)[1..] == ToTileNodes(ts[1..])
  {
  }

  lemma PlainTilesSplit(base: Base, ts: seq<RichTile>)
    requires ts != [] && forall k :: 0 <= k < |ts| ==> StackOk(ts[k])
    ensures forall k :: 0 <= k < |ts[1..]| ==> StackOk(ts[1..][k])
    ensures PlainTiles(base, ts) == [PlainTile(base, ts[0])] + PlainTiles(base, ts[1..])
  {
    hide StackOk, PlainTile;
  }

  lemma {:induction false} TilesParse(base: Base, ts: seq<RichTile>, out: seq<MapTile>)
    requires forall k :: 0 <= k < |ts| ==> StackOk(ts[k])
    ensures TilesFrom(ToTileNodes(ts), base.x, base.y, base.z, out) == Ok(out + PlainTiles(base, ts))
  {
    hide Tile, PlainTile, StackOk, ToTileNode, TilesFrom, ToTileNodes;
    if ts == [] {
      NoTile(base, out);
      assert out + [] == out;
    } else {
      var t := PlainTile(base, ts[0]);
      TileParses(base, ts[0]);
      TileKind(ts[0]);
      TileNodesSplit(ts);
      PlainTilesSplit(base, ts);
      NextTile(base, ToTileNodes(ts), t, out);
      TilesParse(base, ts[1..], out + [t]);
      assert out + [t] + PlainTiles(base, ts[1..]) == out + ([t] + PlainTiles(base, ts[1..]));
    }
  }

  lemma TileKind(t: RichTile)
    ensures ToTileNode(t).kind == OTBM_TILE || ToTileNode(t).kind == OTBM_HOUSETILE
  {
  }

  /** An area appends exactly its tiles, in order, to those of the areas before it. */
  lemma AreaParses(a: RichArea, out: seq<MapTile>)
    requires AreaOk(a)
    ensures Area(ToAreaNode(a), out) == Ok(out + PlainTiles(a.base, a.tiles))
  {
    hide Le16, ReadU16, TilesFrom;
    ReadU16Back(a.base.x, Le16(a.base.y) + [a.base.z]);
    ReadU16Back(a.base.y, [a.base.z]);
    TilesParse(a.base, a.tiles, out);
  }

  /** From the escaped bytes of an area to its tiles. */
  lemma AreaRoundTrip(identifier: Bytes, a: RichArea, suffix: Bytes)
    requires |identifier| == 4 && AreaOk(a)
    ensures var t := Tree(identifier + NodeBytes(ToAreaNode(a)) + suffix);
            t.Ok? && Area(t.value, []) == Ok(PlainTiles(a.base, a.tiles))
  {
    hide Tree, Area, NodeBytes;
    TreeRoundTrip(identifier, ToAreaNode(a), suffix);
    AreaParses(a, []);
    assert [] + PlainTiles(a.base, a.tiles) == PlainTiles(a.base, a.tiles);
  }
}
