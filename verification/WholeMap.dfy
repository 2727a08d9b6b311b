/** A whole map file (`parse` in crates/formats/src/otbm.rs): header, attributes, tile areas, towns and waypoints. */
module WholeMap {
  import opened World
  import opened Wire
  import opened NodeTree
  import opened Props
  import opened MapFile

  const OTBM_MAP_DATA: uint8 := 2
  const OTBM_TOWNS: uint8 := 12
  const OTBM_TOWN: uint8 := 13
  const OTBM_WAYPOINTS: uint8 := 15
  const OTBM_WAYPOINT: uint8 := 16
  const ATTR_DESCRIPTION: uint8 := 1
  const ATTR_SPAWN_FILE: uint8 := 11
  const ATTR_HOUSE_FILE: uint8 := 13
  const NEWLINE: uint8 := 10

  datatype Header = Header(version: uint32, width: uint16, height: uint16, majorItems: uint32, minorItems: uint32)

  datatype Town = Town(id: uint32, name: Bytes, temple: Base)

  datatype Waypoint = Waypoint(name: Bytes, at: Base)

  /** What the parser returns; of the header it drops the version. Texts stay bytes. */
  datatype OtbmMap = OtbmMap(width: uint16, height: uint16, majorItems: uint32, minorItems: uint32, description: Bytes,
                             spawnFile: Option<Bytes>, houseFile: Option<Bytes>, tiles: seq<MapTile>, towns: seq<Town>,
                             waypoints: seq<Waypoint>)

  function EmptyMap(h: Header): OtbmMap {
    OtbmMap(h.width, h.height, h.majorItems, h.minorItems, [], None, None, [], [], [])
  }

  // ---------------------------------------------------------------------
  // Parsing
  // ---------------------------------------------------------------------

  function ReadHeader(b: Bytes): Read<Header> {
    var (version, b) :- ReadU32(b);
    var (width, b) :- ReadU16(b);
    var (height, b) :- ReadU16(b);
    var (major, b) :- ReadU32(b);
    var (minor, b) :- ReadU32(b);
    Got(Header(version, width, height, major, minor), b)
  }

  /** Descriptions are joined by newlines, but none goes in front while the text is empty. */
  function Described(m: OtbmMap, text: Bytes): OtbmMap {
    m.(description := if m.description == [] then text else m.description + [NEWLINE] + text)
  }

  predicate IsTextTag(tag: uint8) {
    tag == ATTR_DESCRIPTION || tag == ATTR_SPAWN_FILE || tag == ATTR_HOUSE_FILE
  }

  function WithText(m: OtbmMap, tag: uint8, text: Bytes): OtbmMap
    requires IsTextTag(tag)
  {
    if tag == ATTR_DESCRIPTION then Described(m, text)
    else if tag == ATTR_SPAWN_FILE then m.(spawnFile := Some(text))
    else m.(houseFile := Some(text))
  }

  /** One attribute of the map-data node, and the bytes after it. */
  function OneText(b: Bytes, m: OtbmMap): (r: Result<(OtbmMap, Bytes)>)
    requires b != []
    ensures r.Ok? ==> |r.value.1| < |b|
  {
    if !IsTextTag(b[0]) then Err(InvalidNode)
    else
      match ReadString(b[1..])
      case Short => Err(UnexpectedEof)
      case Got(text, rest) => Ok((WithText(m, b[0], text), rest))
  }

  /** The attribute loop of the map-data node. */
  function MapAttributes(b: Bytes, m: OtbmMap): Result<OtbmMap>
    decreases |b|
  {
    if b == [] then Ok(m)
    else
      match OneText(b, m)
      case Err(e) => Err(e)
      case Ok((m', rest)) => MapAttributes(rest, m')
  }

  function ReadTown(b: Bytes): Read<Town> {
    var (id, b) :- ReadU32(b);
    var (name, b) :- ReadString(b);
    var (temple, b) :- ReadBase(b);
    Got(Town(id, name, temple), b)
  }

  function TownsFrom(ns: seq<Node>, out: seq<Town>): Result<seq<Town>> {
    if ns == [] then Ok(out)
    else if ns[0].kind != OTBM_TOWN then Err(InvalidNode)
    else
      match ReadTown(ns[0].props)
      case Short => Err(UnexpectedEof)
      case Got(t, _) => TownsFrom(ns[1..], out + [t])
  }

  function ReadWaypoint(b: Bytes): Read<Waypoint> {
    var (name, b) :- ReadString(b);
    var (at, b) :- ReadBase(b);
    Got(Waypoint(name, at), b)
  }

  function WaypointsFrom(ns: seq<Node>, out: seq<Waypoint>): Result<seq<Waypoint>> {
    if ns == [] then Ok(out)
    else if ns[0].kind != OTBM_WAYPOINT then Err(InvalidNode)
    else
      match ReadWaypoint(ns[0].props)
      case Short => Err(UnexpectedEof)
      case Got(w, _) => WaypointsFrom(ns[1..], out + [w])
  }

  /** One child of the map-data node. */
  function Section(n: Node, m: OtbmMap): Result<OtbmMap> {
    if n.kind == OTBM_TILE_AREA then
      match Area(n, m.tiles)
      case Err(e) => Err(e)
      case Ok(tiles) => Ok(m.(tiles := tiles))
    else if n.kind == OTBM_TOWNS then
      match TownsFrom(n.children, m.towns)
      case Err(e) => Err(e)
      case Ok(towns) => Ok(m.(towns := towns))
    else if n.kind == OTBM_WAYPOINTS then
      match WaypointsFrom(n.children, m.waypoints)
      case Err(e) => Err(e)
      case Ok(waypoints) => Ok(m.(waypoints := waypoints))
    else Err(InvalidNode)
  }

  function Sections(ns: seq<Node>, m: OtbmMap): Result<OtbmMap> {
    if ns == [] then Ok(m)
    else
      match Section(ns[0], m)
      case Err(e) => Err(e)
      case Ok(m') => Sections(ns[1..], m')
  }

  /** The first map-data child of the root. */
  function MapData(ns: seq<Node>): Option<Node> {
    if ns == [] then None else if ns[0].kind == OTBM_MAP_DATA then Some(ns[0]) else MapData(ns[1..])
  }

  function MapFrom(root: Node): Result<OtbmMap> {
    match ReadHeader(root.props)
    case Short => Err(UnexpectedEof)
    case Got(header, _) =>
      match MapData(root.children)
      case None => Err(InvalidNode)
      case Some(data) =>
        match MapAttributes(data.props, EmptyMap(header))
        case Err(e) => Err(e)
        case Ok(m) => Sections(data.children, m)
  }

  function MapOf(data: Bytes): Result<OtbmMap> {
    match Tree(data)
    case Err(e) => Err(e)
    case Ok(root) => MapFrom(root)
  }

  // ---------------------------------------------------------------------
  // The parser
  // ---------------------------------------------------------------------

  method ParseHeader(props: Bytes) returns (r: Result<Header>)
    ensures match ReadHeader(props)
            case Short => r == Err(UnexpectedEof)
            case Got(header, _) => r == Ok(header)
  {
    hide ReadU32, ReadU16;
    var reader := new PropReader(props);
    var version := reader.TakeU32();
    if version.Err? {
      return Err(version.error);
    }
    var width := reader.TakeU16();
    if width.Err? {
      return Err(width.error);
    }
    var height := reader.TakeU16();
    if height.Err? {
      return Err(height.error);
    }
    var major := reader.TakeU32();
    if major.Err? {
      return Err(major.error);
    }
    var minor := reader.TakeU32();
    if minor.Err? {
      return Err(minor.error);
    }
    return Ok(Header(version.value, width.value, height.value, major.value, minor.value));
  }

  /** One turn of the loop of `parse_map_data_attrs`. */
  method ParseText(reader: PropReader, m: OtbmMap) returns (r: Result<OtbmMap>)
    requires reader.Valid() && reader.Rest() != []
    modifies reader
    ensures reader.Valid()
    ensures match OneText(old(reader.Rest()), m)
            case Err(e) => r == Err(e)
            case Ok((m', rest)) => r == Ok(m') && reader.Rest() == rest
  {
    hide ReadString, WithText;
    ghost var before := reader.Rest();
    var tag := reader.TakeU8();
    assert before[0] == tag.value && before[1..] == reader.Rest();
    if !IsTextTag(tag.value) {
      return Err(InvalidNode);
    }
    var text := reader.TakeString();
    if text.Err? {
      return Err(text.error);
    }
    return Ok(WithText(m, tag.value, text.value));
  }

  lemma NextText(b: Bytes, m: OtbmMap)
    ensures b == [] ==> MapAttributes(b, m) == Ok(m)
    ensures b != [] ==> MapAttributes(b, m) == match OneText(b, m)
                                               case Err(e) => Err(e)
                                               case Ok((m', rest)) => MapAttributes(rest, m')
  {
    hide OneText;
  }

  /** The loop of `parse_map_data_attrs`. */
  method ParseTexts(reader: PropReader, empty: OtbmMap) returns (r: Result<OtbmMap>)
    requires reader.Valid()
    modifies reader
    ensures r == MapAttributes(old(reader.Rest()), empty)
  {
    hide OneText, MapAttributes;
    var m := empty;
    while reader.pos < |reader.data|
      invariant reader.Valid()
      invariant MapAttributes(old(reader.Rest()), empty) == MapAttributes(reader.Rest(), m)
      decreases |reader.data| - reader.pos
    {
      ghost var before := reader.Rest();
      NextText(before, m);
      var next := ParseText(reader, m);
      if next.Err? {
        return Err(next.error);
      }
      assert |reader.Rest()| < |before|;
      m := next.value;
    }
    assert reader.Rest() == [];
    NextText([], m);
    return Ok(m);
  }

  /** `parse_map_data_attrs` */
  method ParseMapDataAttributes(props: Bytes, empty: OtbmMap) returns (r: Result<OtbmMap>)
    ensures r == MapAttributes(props, empty)
  {
    hide MapAttributes;
    var reader := new PropReader(props);
    r := ParseTexts(reader, empty);
  }

  /** The three numbers of a position. */
  method ParseBase(reader: PropReader) returns (r: Result<Base>)
    requires reader.Valid()
    modifies reader
    ensures reader.Valid()
    ensures match ReadBase(old(reader.Rest()))
            case Short => r == Err(UnexpectedEof)
            case Got(base, rest) => r == Ok(base) && reader.Rest() == rest
  {
    var x := reader.TakeU16();
    if x.Err? {
      return Err(x.error);
    }
    var y := reader.TakeU16();
    if y.Err? {
      return Err(y.error);
    }
    var z := reader.TakeU8();
    if z.Err? {
      return Err(z.error);
    }
    return Ok(Base(x.value, y.value, z.value));
  }

  method ParseTown(props: Bytes) returns (r: Result<Town>)
    ensures match ReadTown(props)
            case Short => r == Err(UnexpectedEof)
            case Got(t, _) => r == Ok(t)
  {
    hide ReadU32, ReadString, ReadBase;
    var reader := new PropReader(props);
    var id := reader.TakeU32();
    if id.Err? {
      return Err(id.error);
    }
    var name := reader.TakeString();
    if name.Err? {
      return Err(name.error);
    }
    var temple := ParseBase(reader);
    if temple.Err? {
      return Err(temple.error);
    }
    return Ok(Town(id.value, name.value, temple.value));
  }

  /** `parse_towns`: append the towns of a node. */
  method ParseTowns(ns: seq<Node>, out: seq<Town>) returns (r: Result<seq<Town>>)
    ensures r == TownsFrom(ns, out)
  {
    hide ReadTown;
    var towns := out;
    for i := 0 to |ns|
      invariant TownsFrom(ns, out) == TownsFrom(ns[i..], towns)
    {
      if ns[i].kind != OTBM_TOWN {
        return Err(InvalidNode);
      }
      var t := ParseTown(ns[i].props);
      if t.Err? {
        return Err(t.error);
      }
      towns := towns + [t.value];
    }
    return Ok(towns);
  }

  method ParseWaypoint(props: Bytes) returns (r: Result<Waypoint>)
    ensures match ReadWaypoint(props)
            case Short => r == Err(UnexpectedEof)
            case Got(w, _) => r == Ok(w)
  {
    hide ReadString, ReadBase;
    var reader := new PropReader(props);
    var name := reader.TakeString();
    if name.Err? {
      return Err(name.error);
    }
    var at := ParseBase(reader);
    if at.Err? {
      return Err(at.error);
    }
    return Ok(Waypoint(name.value, at.value));
  }

  /** `parse_waypoints`: append the waypoints of a node. */
  method ParseWaypoints(ns: seq<Node>, out: seq<Waypoint>) returns (r: Result<seq<Waypoint>>)
    ensures r == WaypointsFrom(ns, out)
  {
    hide ReadWaypoint;
    var waypoints := out;
    for i := 0 to |ns|
      invariant WaypointsFrom(ns, out) == WaypointsFrom(ns[i..], waypoints)
    {
      if ns[i].kind != OTBM_WAYPOINT {
        return Err(InvalidNode);
      }
      var w := ParseWaypoint(ns[i].props);
      if w.Err? {
        return Err(w.error);
      }
      waypoints := waypoints + [w.value];
    }
    return Ok(waypoints);
  }

  /** The child loop of `parse`. */
  method ParseSections(ns: seq<Node>, start: OtbmMap) returns (r: Result<OtbmMap>)
    ensures r == Sections(ns, start)
  {
    hide Area, TownsFrom, WaypointsFrom;
    var m := start;
    for i := 0 to |ns|
      invariant Sections(ns, start) == Sections(ns[i..], m)
    {
      var n := ns[i];
      assert ns[i..][0] == n && ns[i..][1..] == ns[i + 1..];
      if n.kind == OTBM_TILE_AREA {
        var tiles := ParseTileArea(n, m.tiles);
        if tiles.Err? {
          return Err(tiles.error);
        }
        m := m.(tiles := tiles.value);
      } else if n.kind == OTBM_TOWNS {
        var towns := ParseTowns(n.children, m.towns);
        if towns.Err? {
          return Err(towns.error);
        }
        m := m.(towns := towns.value);
      } else if n.kind == OTBM_WAYPOINTS {
        var waypoints := ParseWaypoints(n.children, m.waypoints);
        if waypoints.Err? {
          return Err(waypoints.error);
        }
        m := m.(waypoints := waypoints.value);
      } else {
        return Err(InvalidNode);
      }
    }
    return Ok(m);
  }

  method FindMapData(ns: seq<Node>) returns (r: Option<Node>)
    ensures r == MapData(ns)
  {
    for i := 0 to |ns|
      invariant MapData(ns) == MapData(ns[i..])
    {
      if ns[i].kind == OTBM_MAP_DATA {
        return Some(ns[i]);
      }
    }
    return None;
  }

  /** `parse` */
  method Parse(data: Bytes) returns (r: Result<OtbmMap>)
    ensures r == MapOf(data)
  {
    hide Tree, ReadHeader, MapData, MapAttributes, Sections;
    var root := ParseTree(data);
    if root.Err? {
      return Err(root.error);
    }
    var header := ParseHeader(root.value.props);
    if header.Err? {
      return Err(header.error);
    }
    var found := FindMapData(root.value.children);
    if found.None? {
      return Err(InvalidNode);
    }
    var m := ParseMapDataAttributes(found.value.props, EmptyMap(header.value));
    if m.Err? {
      return Err(m.error);
    }
    r := ParseSections(found.value.children, m.value);
  }

  // ---------------------------------------------------------------------
  // Writing
  // ---------------------------------------------------------------------

  datatype Text = Text(tag: uint8, text: Bytes)

  datatype RichSection = AreaOf(area: RichArea) | TownsOf(towns: seq<Town>) | WaypointsOf(waypoints: seq<Waypoint>)

  /** A map as an editor holds it; `padding` follows the header, and `others` are nodes beside the map data. */
  datatype RichMap = RichMap(kind: uint8, header: Header, padding: Bytes, texts: seq<Text>, sections: seq<RichSection>,
                             before: seq<Node>, others: seq<Node>)

  predicate NameOk(name: Bytes) {
    |name| < 0x1_0000
  }

  predicate TextOk(t: Text) {
    IsTextTag(t.tag) && NameOk(t.text)
  }

  predicate SectionOk(s: RichSection) {
    match s
    case AreaOf(a) => AreaOk(a)
    case TownsOf(towns) => forall k :: 0 <= k < |towns| ==> NameOk(towns[k].name)
    case WaypointsOf(waypoints) => forall k :: 0 <= k < |waypoints| ==> NameOk(waypoints[k].name)
  }

  predicate MapOk(m: RichMap) {
    && (forall k :: 0 <= k < |m.texts| ==> TextOk(m.texts[k]))
    && (forall k :: 0 <= k < |m.sections| ==> SectionOk(m.sections[k]))
    && (forall k :: 0 <= k < |m.before| ==> m.before[k].kind != OTBM_MAP_DATA)
  }

  function StringBytes(s: Bytes): Bytes
    requires NameOk(s)
  {
    Le16(|s|) + s
  }

  function HeaderBytes(h: Header): Bytes {
    Le32(h.version) + (Le16(h.width) + (Le16(h.height) + (Le32(h.majorItems) + Le32(h.minorItems))))
  }

  function BaseBytes(b: Base): Bytes {
    Le16(b.x) + (Le16(b.y) + [b.z])
  }

  function TextsBytes(ts: seq<Text>): Bytes
    requires forall k :: 0 <= k < |ts| ==> TextOk(ts[k])
  {
    if ts == [] then []
    else
      assert TextOk(ts[0]);
      [ts[0].tag] + (StringBytes(ts[0].text) + TextsBytes(ts[1..]))
  }

  function TownNode(t: Town): Node
    requires NameOk(t.name)
  {
    Node(OTBM_TOWN, Le32(t.id) + (StringBytes(t.name) + BaseBytes(t.temple)), [])
  }

  function TownNodes(ts: seq<Town>): (ns: seq<Node>)
    requires forall k :: 0 <= k < |ts| ==> NameOk(ts[k].name)
  {
    if ts == [] then [] else [TownNode(ts[0])] + TownNodes(ts[1..])
  }

  function WaypointNode(w: Waypoint): Node
    requires NameOk(w.name)
  {
    Node(OTBM_WAYPOINT, StringBytes(w.name) + BaseBytes(w.at), [])
  }

  function WaypointNodes(ws: seq<Waypoint>): (ns: seq<Node>)
    requires forall k :: 0 <= k < |ws| ==> NameOk(ws[k].name)
  {
    if ws == [] then [] else [WaypointNode(ws[0])] + WaypointNodes(ws[1..])
  }

  function SectionNode(s: RichSection): Node
    requires SectionOk(s)
  {
    match s
    case AreaOf(a) => ToAreaNode(a)
    case TownsOf(towns) => Node(OTBM_TOWNS, [], TownNodes(towns))
    case WaypointsOf(waypoints) => Node(OTBM_WAYPOINTS, [], WaypointNodes(waypoints))
  }

  function SectionNodes(ss: seq<RichSection>): seq<Node>
    requires forall k :: 0 <= k < |ss| ==> SectionOk(ss[k])
  {
    if ss == [] then [] else [SectionNode(ss[0])] + SectionNodes(ss[1..])
  }

  function RootNode(m: RichMap): Node
    requires MapOk(m)
  {
    var data := Node(OTBM_MAP_DATA, TextsBytes(m.texts), SectionNodes(m.sections));
    Node(m.kind, HeaderBytes(m.header) + m.padding, m.before + [data] + m.others)
  }

  /** A map file, up to its root's end marker. */
  function FileBytes(identifier: Bytes, m: RichMap): Bytes
    requires MapOk(m)
  {
    identifier + NodeBytes(RootNode(m))
  }

  // ---------------------------------------------------------------------
  // What a written map means
  // ---------------------------------------------------------------------

  function AddTexts(ts: seq<Text>, m: OtbmMap): OtbmMap
    requires forall k :: 0 <= k < |ts| ==> TextOk(ts[k])
  {
    if ts == [] then m
    else
      assert TextOk(ts[0]);
      AddTexts(ts[1..], WithText(m, ts[0].tag, ts[0].text))
  }

  function SectionTiles(s: RichSection): seq<MapTile>
    requires SectionOk(s)
  {
    if s.AreaOf? then PlainTiles(s.area.base, s.area.tiles) else []
  }

  function SectionTowns(s: RichSection): seq<Town> {
    if s.TownsOf? then s.towns else []
  }

  function SectionWaypoints(s: RichSection): seq<Waypoint> {
    if s.WaypointsOf? then s.waypoints else []
  }

  function TilesOf(ss: seq<RichSection>): seq<MapTile>
    requires forall k :: 0 <= k < |ss| ==> SectionOk(ss[k])
  {
    if ss == [] then [] else SectionTiles(ss[0]) + TilesOf(ss[1..])
  }

  function TownsIn(ss: seq<RichSection>): seq<Town> {
    if ss == [] then [] else SectionTowns(ss[0]) + TownsIn(ss[1..])
  }

  function WaypointsIn(ss: seq<RichSection>): seq<Waypoint> {
    if ss == [] then [] else SectionWaypoints(ss[0]) + WaypointsIn(ss[1..])
  }

  /** The texts, and behind what is there already the tiles, towns and waypoints of all sections in file order. */
  function WithSections(ss: seq<RichSection>, m: OtbmMap): OtbmMap
    requires forall k :: 0 <= k < |ss| ==> SectionOk(ss[k])
  {
    m.(tiles := m.tiles + TilesOf(ss), towns := m.towns + TownsIn(ss), waypoints := m.waypoints + WaypointsIn(ss))
  }

  function PlainMap(m: RichMap): OtbmMap
    requires MapOk(m)
  {
    WithSections(m.sections, AddTexts(m.texts, EmptyMap(m.header)))
  }

  // ---------------------------------------------------------------------
  // Parsing undoes writing
  // ---------------------------------------------------------------------

  lemma StringParses(s: Bytes, rest: Bytes)
    requires NameOk(s)
    ensures ReadString(StringBytes(s) + rest) == Got(s, rest)
  {
    hide Le16, ReadU16;
    assert StringBytes(s) + rest == Le16(|s|) + (s + rest);
    ReadU16Back(|s|, s + rest);
    ReadBytesBack(s, rest);
  }

  lemma BaseParses(b: Base)
    ensures ReadBase(BaseBytes(b)) == Got(b, [])
  {
    hide Le16, ReadU16;
    ReadU16Back(b.x, Le16(b.y) + [b.z]);
    ReadU16Back(b.y, [b.z]);
    assert [b.z] + [] == [b.z];
    ReadU8Back(b.z, []);
  }

  lemma HeaderParses(h: Header, padding: Bytes)
    ensures ReadHeader(HeaderBytes(h) + padding) == Got(h, padding)
  {
    hide Le16, Le32, ReadU16, ReadU32;
    var e := Le32(h.minorItems) + padding;
    var d := Le32(h.majorItems) + e;
    var c := Le16(h.height) + d;
    var b := Le16(h.width) + c;
    assert HeaderBytes(h) + padding == Le32(h.version) + b;
    ReadU32Back(h.version, b);
    ReadU16Back(h.width, c);
    ReadU16Back(h.height, d);
    ReadU32Back(h.majorItems, e);
    ReadU32Back(h.minorItems, padding);
  }

  lemma TextParses(t: Text, rest: Bytes, m: OtbmMap)
    requires TextOk(t)
    ensures OneText([t.tag] + (StringBytes(t.text) + rest), m) == Ok((WithText(m, t.tag, t.text), rest))
  {
    hide WithText, StringBytes, ReadString;
    assert ([t.tag] + (StringBytes(t.text) + rest))[1..] == StringBytes(t.text) + rest;
    StringParses(t.text, rest);
  }

  lemma {:induction false} TextsParse(ts: seq<Text>, m: OtbmMap)
    requires forall k :: 0 <= k < |ts| ==> TextOk(ts[k])
    ensures MapAttributes(TextsBytes(ts), m) == Ok(AddTexts(ts, m))
  {
    hide OneText, WithText, StringBytes;
    if ts != [] {
      assert TextOk(ts[0]);
      TextParses(ts[0], TextsBytes(ts[1..]), m);
      TextsParse(ts[1..], WithText(m, ts[0].tag, ts[0].text));
    }
  }

  lemma TownParses(t: Town)
    requires NameOk(t.name)
    ensures ReadTown(TownNode(t).props) == Got(t, [])
  {
    hide Le32, ReadU32, StringBytes, ReadString, BaseBytes, ReadBase;
    ReadU32Back(t.id, StringBytes(t.name) + BaseBytes(t.temple));
    StringParses(t.name, BaseBytes(t.temple));
    BaseParses(t.temple);
  }

  lemma {:induction false} TownsParse(ts: seq<Town>, out: seq<Town>)
    requires forall k :: 0 <= k < |ts| ==> NameOk(ts[k].name)
    ensures TownsFrom(TownNodes(ts), out) == Ok(out + ts)
  {
    hide ReadTown;
    if ts == [] {
      assert out + [] == out;
    } else {
      TownParses(ts[0]);
      TownsParse(ts[1..], out + [ts[0]]);
      assert TownNodes(ts)[0] == TownNode(ts[0]) && TownNodes(ts)[1..] == TownNodes(ts[1..]);
      assert out + [ts[0]] + ts[1..] == out + ts;
    }
  }

  lemma WaypointParses(w: Waypoint)
    requires NameOk(w.name)
    ensures ReadWaypoint(WaypointNode(w).props) == Got(w, [])
  {
    hide StringBytes, ReadString, BaseBytes, ReadBase;
    StringParses(w.name, BaseBytes(w.at));
    BaseParses(w.at);
  }

  lemma {:induction false} WaypointsParse(ws: seq<Waypoint>, out: seq<Waypoint>)
    requires forall k :: 0 <= k < |ws| ==> NameOk(ws[k].name)
    ensures WaypointsFrom(WaypointNodes(ws), out) == Ok(out + ws)
  {
    hide ReadWaypoint;
    if ws == [] {
      assert out + [] == out;
    } else {
      WaypointParses(ws[0]);
      WaypointsParse(ws[1..], out + [ws[0]]);
      assert WaypointNodes(ws)[0] == WaypointNode(ws[0]) && WaypointNodes(ws)[1..] == WaypointNodes(ws[1..]);
      assert out + [ws[0]] + ws[1..] == out + ws;
    }
  }

  /** What one section adds. */
  function WithSection(s: RichSection, m: OtbmMap): OtbmMap
    requires SectionOk(s)
  {
    m.(tiles := m.tiles + SectionTiles(s), towns := m.towns + SectionTowns(s),
       waypoints := m.waypoints + SectionWaypoints(s))
  }

  lemma SectionParses(s: RichSection, m: OtbmMap)
    requires SectionOk(s)
    ensures Section(SectionNode(s), m) == Ok(WithSection(s, m))
  {
    hide Area, TownsFrom, WaypointsFrom, TownNodes, WaypointNodes, ToTileNodes, PlainTiles, StackOk;
    assert m.tiles + [] == m.tiles && m.towns + [] == m.towns && m.waypoints + [] == m.waypoints;
    match s
    case AreaOf(a) => AreaParses(a, m.tiles);
    case TownsOf(towns) => TownsParse(towns, m.towns);
    case WaypointsOf(waypoints) => WaypointsParse(waypoints, m.waypoints);
  }

  lemma SectionsSplit(ss: seq<RichSection>, m: OtbmMap)
    requires ss != [] && forall k :: 0 <= k < |ss| ==> SectionOk(ss[k])
    ensures WithSections(ss, m) == WithSections(ss[1..], WithSection(ss[0], m))
  {
    hide SectionOk, PlainTiles, TilesOf, TownsIn, WaypointsIn;
    var s, rest := ss[0], ss[1..];
    PartsSplit(ss);
    Regroup(m.tiles, SectionTiles(s), TilesOf(rest));
    Regroup(m.towns, SectionTowns(s), TownsIn(rest));
    Regroup(m.waypoints, SectionWaypoints(s), WaypointsIn(rest));
  }

  lemma PartsSplit(ss: seq<RichSection>)
    requires ss != [] && forall k :: 0 <= k < |ss| ==> SectionOk(ss[k])
    ensures TilesOf(ss) == SectionTiles(ss[0]) + TilesOf(ss[1..])
    ensures TownsIn(ss) == SectionTowns(ss[0]) + TownsIn(ss[1..])
    ensures WaypointsIn(ss) == SectionWaypoints(ss[0]) + WaypointsIn(ss[1..])
  {
    hide SectionOk, SectionTiles, SectionTowns, SectionWaypoints;
  }

  lemma Regroup<T>(a: seq<T>, b: seq<T>, c: seq<T>)
    ensures a + (b + c) == a + b + c
  {
  }

  lemma NextSection(ns: seq<Node>, m: OtbmMap, m': OtbmMap)
    requires ns != [] && Section(ns[0], m) == Ok(m')
    ensures Sections(ns, m) == Sections(ns[1..], m')
  {
    hide Section;
  }

  lemma NoSection(m: OtbmMap)
    ensures Sections(SectionNodes([]), m) == Ok(m) && WithSections([], m) == m
  {
    assert m.tiles + [] == m.tiles && m.towns + [] == m.towns && m.waypoints + [] == m.waypoints;
  }

  lemma SectionNodesSplit(ss: seq<RichSection>)
    requires ss != [] && forall k :: 0 <= k < |ss| ==> SectionOk(ss[k])
    ensures SectionNodes(ss) == [SectionNode(ss[0])] + SectionNodes(ss[1..])
  {
    hide SectionOk, SectionNode;
  }

  lemma {:induction false} SectionsParse(ss: seq<RichSection>, m: OtbmMap)
    requires forall k :: 0 <= k < |ss| ==> SectionOk(ss[k])
    ensures Sections(SectionNodes(ss), m) == Ok(WithSections(ss, m))
  {
    hide Section, Sections, SectionOk, SectionNode, SectionNodes, WithSection, WithSections;
    if ss == [] {
      NoSection(m);
    } else {
      SectionParses(ss[0], m);
      SectionNodesSplit(ss);
      NextSection(SectionNodes(ss), m, WithSection(ss[0], m));
      SectionsParse(ss[1..], WithSection(ss[0], m));
      SectionsSplit(ss, m);
    }
  }

  lemma {:induction false} MapDataFound(before: seq<Node>, data: Node, others: seq<Node>)
    requires data.kind == OTBM_MAP_DATA && forall k :: 0 <= k < |before| ==> before[k].kind != OTBM_MAP_DATA
    ensures MapData(before + [data] + others) == Some(data)
  {
    if before != [] {
      MapDataFound(before[1..], data, others);
      assert (before + [data] + others)[1..] == before[1..] + [data] + others;
    }
  }

  lemma RootParses(m: RichMap)
    requires MapOk(m)
    ensures MapFrom(RootNode(m)) == Ok(PlainMap(m))
  {
    hide ReadHeader, HeaderBytes, MapData, MapAttributes, TextsBytes, Sections, SectionNodes, WithSections, AddTexts,
      TextOk, SectionOk;
    HeaderParses(m.header, m.padding);
    MapDataFound(m.before, Node(OTBM_MAP_DATA, TextsBytes(m.texts), SectionNodes(m.sections)), m.others);
    TextsParse(m.texts, EmptyMap(m.header));
    SectionsParse(m.sections, AddTexts(m.texts, EmptyMap(m.header)));
  }

  /** From the escaped bytes of a whole map file to the map. */
  lemma MapRoundTrip(identifier: Bytes, m: RichMap, suffix: Bytes)
    requires |identifier| == 4 && MapOk(m)
    ensures MapOf(FileBytes(identifier, m) + suffix) == Ok(PlainMap(m))
  {
    hide Tree, MapFrom, NodeBytes, RootNode, PlainMap, MapOk;
    TreeRoundTrip(identifier, RootNode(m), suffix);
    RootParses(m);
  }

  /** Texts leave the tiles alone, so the tiles of the map are exactly those of its areas, in file order. */
  lemma {:induction false} TextsKeepTiles(ts: seq<Text>, m: OtbmMap)
    requires forall k :: 0 <= k < |ts| ==> TextOk(ts[k])
    ensures AddTexts(ts, m).tiles == m.tiles
  {
    if ts != [] {
      assert TextOk(ts[0]);
      TextsKeepTiles(ts[1..], WithText(m, ts[0].tag, ts[0].text));
    }
  }

  lemma MapTiles(m: RichMap)
    requires MapOk(m)
    ensures PlainMap(m).tiles == TilesOf(m.sections)
  {
    TextsKeepTiles(m.texts, EmptyMap(m.header));
    assert [] + TilesOf(m.sections) == TilesOf(m.sections);
  }
}
