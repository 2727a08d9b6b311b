/** Items of a map file: property bytes inside nodes inside a byte stream (crates/formats/src/otbm.rs). */
module MapItems {
  import opened World
  import opened Wire
  import opened NodeTree
  import opened Props

  const OTBM_ITEM: uint8 := 6

  const ATTR_ACTION_ID: uint8 := 4
  const ATTR_UNIQUE_ID: uint8 := 5
  const ATTR_TEXT: uint8 := 6
  const ATTR_DESC: uint8 := 7
  const ATTR_TELE_DEST: uint8 := 8
  const ATTR_DEPOT_ID: uint8 := 10
  const ATTR_RUNE_CHARGES: uint8 := 12
  const ATTR_COUNT: uint8 := 15
  const ATTR_DURATION: uint8 := 16
  const ATTR_DECAYING_STATE: uint8 := 17
  const ATTR_WRITTENDATE: uint8 := 18
  const ATTR_WRITTENBY: uint8 := 19
  const ATTR_CHARGES: uint8 := 22

  datatype MapItem = MapItem(id: uint16, count: Option<uint8>, contents: seq<MapItem>)

  /** How many bytes follow an attribute tag; a `Text` carries its own length. */
  datatype Shape = Fixed(size: nat) | Text | Unknown

  function ShapeOf(tag: uint8): Shape {
    if tag == ATTR_COUNT || tag == ATTR_RUNE_CHARGES || tag == ATTR_DECAYING_STATE then Fixed(1)
    else if tag == ATTR_ACTION_ID || tag == ATTR_UNIQUE_ID || tag == ATTR_DEPOT_ID || tag == ATTR_CHARGES then Fixed(2)
    else if tag == ATTR_TELE_DEST then Fixed(5)
    else if tag == ATTR_DURATION || tag == ATTR_WRITTENDATE then Fixed(4)
    else if tag == ATTR_TEXT || tag == ATTR_DESC || tag == ATTR_WRITTENBY then Text
    else Unknown
  }

  // ---------------------------------------------------------------------
  // Parsing
  // ---------------------------------------------------------------------

  /** The attribute loop: the last count seen, and the bytes it leaves. An unknown tag ends it. */
  function Attributes(b: Bytes, count: Option<uint8>): Read<Option<uint8>>
    decreases |b|
  {
    if b == [] then Got(count, [])
    else
      var (tag, b) :- ReadU8(b);
      match ShapeOf(tag)
      case Unknown => Got(count, b)
      case Fixed(n) =>
        var (v, b) :- ReadBytes(b, n);
        Attributes(b, if tag == ATTR_COUNT then Some(v[0]) else count)
      case Text =>
        var (len, b) :- ReadU16(b);
        var (_, b) :- ReadBytes(b, len);
        Attributes(b, count)
  }

  function Item(n: Node): Result<MapItem>
    decreases n, 1
  {
    match ReadU16(n.props)
    case Short => Err(UnexpectedEof)
    case Got(id, rest) =>
      match Attributes(rest, None)
      case Short => Err(UnexpectedEof)
      case Got(count, _) =>
        match ItemsFrom(n.children, [])
        case Err(e) => Err(e)
        case Ok(contents) => Ok(MapItem(id, count, contents))
  }

  /** The child loop, with the items already collected. */
  function ItemsFrom(ns: seq<Node>, done: seq<MapItem>): Result<seq<MapItem>>
    decreases ns, 0
  {
    if ns == [] then Ok(done)
    else if ns[0].kind != OTBM_ITEM then Err(InvalidNode)
    else
      match Item(ns[0])
      case Err(e) => Err(e)
      case Ok(i) => ItemsFrom(ns[1..], done + [i])
  }

  /** `parse_item` */
  method ParseItem(n: Node) returns (r: Result<MapItem>)
    ensures r == Item(n)
    decreases n
  {
    var reader := new PropReader(n.props);
    var id := reader.TakeU16();
    if id.Err? {
      return Err(id.error);
    }
    var count := ParseAttributes(reader);
    if count.Err? {
      return Err(count.error);
    }
    var contents: seq<MapItem> := [];
    for i := 0 to |n.children|
      invariant ItemsFrom(n.children, []) == ItemsFrom(n.children[i..], contents)
    {
      if n.children[i].kind != OTBM_ITEM {
        return Err(InvalidNode);
      }
      var child := ParseItem(n.children[i]);
      if child.Err? {
        return Err(child.error);
      }
      contents := contents + [child.value];
    }
    return Ok(MapItem(id.value, count.value, contents));
  }

  /** The attribute loop of `parse_item`. */
  method ParseAttributes(reader: PropReader) returns (r: Result<Option<uint8>>)
    requires reader.Valid()
    modifies reader
    ensures match Attributes(old(reader.Rest()), None)
            case Short => r == Err(UnexpectedEof)
            case Got(count, _) => r == Ok(count)
  {
    var count: Option<uint8> := None;
    while reader.pos < |reader.data|
      invariant reader.Valid()
      invariant Attributes(old(reader.Rest()), None) == Attributes(reader.Rest(), count)
      decreases |reader.data| - reader.pos
    {
      ghost var before := reader.Rest();
      var tag := reader.TakeU8();
      assert before[0] == tag.value && before[1..] == reader.Rest();
      match ShapeOf(tag.value)
      case Unknown => break;
      case Fixed(n) =>
        var v := reader.Take(n);
        if v.Err? {
          return Err(v.error);
        }
        if tag.value == ATTR_COUNT {
          count := Some(v.value[0]);
        }
      case Text =>
        var s := reader.TakeString();
        if s.Err? {
          return Err(s.error);
        }
    }
    return Ok(count);
  }

  // ---------------------------------------------------------------------
  // Writing
  // ---------------------------------------------------------------------

  /** A known attribute with its payload (for a text, without its length prefix). */
  datatype Attribute = Attribute(tag: uint8, payload: Bytes)

  /** An item as a map editor holds it: any sequence of attributes, and contained items. */
  datatype RichItem = RichItem(id: uint16, attributes: seq<Attribute>, contents: seq<RichItem>)

  predicate AttributeOk(a: Attribute) {
    match ShapeOf(a.tag)
    case Unknown => false
    case Fixed(n) => |a.payload| == n
    case Text => |a.payload| < 0x1_0000
  }

  predicate ItemOk(i: RichItem) {
    && (forall k :: 0 <= k < |i.attributes| ==> AttributeOk(i.attributes[k]))
    && (forall k :: 0 <= k < |i.contents| ==> ItemOk(i.contents[k]))
  }

  function AttributeBytes(a: Attribute): Bytes {
    [a.tag] + (if ShapeOf(a.tag).Text? then Le16(|a.payload| % 0x1_0000) else []) + a.payload
  }

  function AttributesBytes(attrs: seq<Attribute>): Bytes {
    if attrs == [] then [] else AttributeBytes(attrs[0]) + AttributesBytes(attrs[1..])
  }

  function ToNode(i: RichItem): Node
    decreases i, 1
  {
    Node(OTBM_ITEM, Le16(i.id) + AttributesBytes(i.attributes), ToNodes(i.contents))
  }

  function ToNodes(items: seq<RichItem>): (ns: seq<Node>)
    ensures |ns| == |items|
    ensures forall k :: 0 <= k < |ns| ==> ns[k].kind == OTBM_ITEM
    decreases items, 0
  {
    if items == [] then [] else [ToNode(items[0])] + ToNodes(items[1..])
  }

  /** The count of the last count attribute, or else `count`. */
  function LastCount(attrs: seq<Attribute>, count: Option<uint8>): Option<uint8>
    requires forall k :: 0 <= k < |attrs| ==> AttributeOk(attrs[k])
  {
    if attrs == [] then count
    else
      assert AttributeOk(attrs[0]);
      LastCount(attrs[1..], if attrs[0].tag == ATTR_COUNT then Some(attrs[0].payload[0]) else count)
  }

  /** What the game keeps of an item. */
  function Plain(i: RichItem): MapItem
    requires ItemOk(i)
    decreases i, 1
  {
    MapItem(i.id, LastCount(i.attributes, None), Plains(i.contents))
  }

  function Plains(items: seq<RichItem>): seq<MapItem>
    requires forall k :: 0 <= k < |items| ==> ItemOk(items[k])
    decreases items, 0
  {
    if items == [] then [] else [Plain(items[0])] + Plains(items[1..])
  }

  // ---------------------------------------------------------------------
  // Parsing undoes writing
  // ---------------------------------------------------------------------

  lemma AttributeParses(a: Attribute, rest: Bytes, count: Option<uint8>)
    requires AttributeOk(a)
    ensures Attributes(AttributeBytes(a) + rest, count)
         == Attributes(rest, if a.tag == ATTR_COUNT then Some(a.payload[0]) else count)
  {
    var b := AttributeBytes(a) + rest;
    match ShapeOf(a.tag)
    case Fixed(n) =>
      assert b == [a.tag] + (a.payload + rest);
      ReadU8Back(a.tag, a.payload + rest);
      ReadBytesBack(a.payload, rest);
    case Text =>
      assert b == [a.tag] + (Le16(|a.payload|) + (a.payload + rest));
      ReadU8Back(a.tag, Le16(|a.payload|) + (a.payload + rest));
      ReadU16Back(|a.payload|, a.payload + rest);
      ReadBytesBack(a.payload, rest);
  }

  /** Any sequence of known attributes is consumed to the last byte, and yields its last count. */
  lemma {:induction false} AttributesParse(attrs: seq<Attribute>, count: Option<uint8>)
    requires forall k :: 0 <= k < |attrs| ==> AttributeOk(attrs[k])
    ensures Attributes(AttributesBytes(attrs), count) == Got(LastCount(attrs, count), [])
  {
    if attrs != [] {
      assert AttributeOk(attrs[0]);
      AttributeParses(attrs[0], AttributesBytes(attrs[1..]), count);
      AttributesParse(attrs[1..], if attrs[0].tag == ATTR_COUNT then Some(attrs[0].payload[0]) else count);
    }
  }

  lemma {:induction false} ItemParses(i: RichItem)
    requires ItemOk(i)
    ensures Item(ToNode(i)) == Ok(Plain(i))
    decreases i, 1
  {
    ReadU16Back(i.id, AttributesBytes(i.attributes));
    AttributesParse(i.attributes, None);
    ItemsParse(i.contents, []);
    assert [] + Plains(i.contents) == Plains(i.contents);
  }

  lemma {:induction false} ItemsParse(items: seq<RichItem>, done: seq<MapItem>)
    requires forall k :: 0 <= k < |items| ==> ItemOk(items[k])
    ensures ItemsFrom(ToNodes(items), done) == Ok(done + Plains(items))
    decreases items, 0
  {
    if items == [] {
      assert done + [] == done;
    } else {
      ItemParses(items[0]);
      assert ToNodes(items)[1..] == ToNodes(items[1..]);
      ItemsParse(items[1..], done + [Plain(items[0])]);
      assert done + [Plain(items[0])] + Plains(items[1..]) == done + Plains(items);
    }
  }

  /** From the bytes of a file to items: for every nested item, with any sequence of known attributes,
      parsing the escaped tree and then its nodes returns the ids, the nesting and the last counts. */
  lemma ItemRoundTrip(identifier: Bytes, i: RichItem, suffix: Bytes)
    requires |identifier| == 4 && ItemOk(i)
    ensures var t := Tree(identifier + NodeBytes(ToNode(i)) + suffix);
            t.Ok? && Item(t.value) == Ok(Plain(i))
  {
    TreeRoundTrip(identifier, ToNode(i), suffix);
    ItemParses(i);
  }
}
