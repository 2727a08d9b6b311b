/** The item dictionary `items.otb` (crates/formats/src/otb.rs): a version block in the root's properties and
    one node of attribute records per item type. */
module ItemDictionary {
  import opened World
  import opened Wire
  import opened NodeTree
  import opened Props

  const ROOT_ATTR_VERSION: uint8 := 0x01
  const ATTR_SERVER_ID: uint8 := 0x10
  const ATTR_CLIENT_ID: uint8 := 0x11
  const ATTR_TOP_ORDER: uint8 := 0x2B

  const GROUP_SPLASH: uint8 := 11
  const GROUP_FLUID: uint8 := 12

  datatype FloorFlag = Down | ToNorth | ToSouth | ToEast | ToWest | SouthAlt | EastAlt

  predicate Bit(flags: uint32, weight: nat)
    requires weight > 0
  {
    flags / weight % 2 == 1
  }

  /** `floorChange` comes from `items.xml` and is empty until it is merged in. */
  datatype ItemType = ItemType(group: uint8, flags: uint32, serverId: uint16, clientId: uint16, alwaysOnTop: bool,
                               topOrder: uint8, hasHeight: bool, floorChange: set<FloorFlag>) {
    predicate IsStackable() {
      Bit(flags, 0x80)
    }

    predicate IsFluidOrSplash() {
      group == GROUP_SPLASH || group == GROUP_FLUID
    }

    predicate IsAnimated() {
      Bit(flags, 0x100_0000)
    }

    predicate IsBlockSolid() {
      Bit(flags, 1)
    }

    predicate IsBlockProjectile() {
      Bit(flags, 2)
    }
  }

  /** The type a node describes, before `items.xml`. */
  function FromFields(group: uint8, flags: uint32, f: Fields): ItemType {
    ItemType(group, flags, f.serverId, f.clientId, Bit(flags, 0x2000), f.topOrder, Bit(flags, 8), {})
  }

  /** What the flags of a dictionary entry mean, bit by bit: solid 0, stops projectiles 1, has height 3, stackable 7,
      always on top 13, animated 24; splashes and fluids are groups 11 and 12. */
  lemma FlagsMean(group: uint8, flags: uint32, f: Fields)
    ensures var t := FromFields(group, flags, f);
            && (t.IsBlockSolid() <==> flags % 2 >= 1) && (t.IsBlockProjectile() <==> flags % 4 >= 2)
            && (t.hasHeight <==> flags % 16 >= 8) && (t.IsStackable() <==> flags % 256 >= 128)
            && (t.alwaysOnTop <==> flags % 16384 >= 8192) && (t.IsAnimated() <==> flags % 33554432 >= 16777216)
            && (t.IsFluidOrSplash() <==> group in [11, 12])
            && t.serverId == f.serverId && t.clientId == f.clientId && t.topOrder == f.topOrder && t.floorChange == {}
  {
    hide Bit;
    HighBit(flags, 1, 2);
    HighBit(flags, 2, 4);
    HighBit(flags, 8, 16);
    HighBit(flags, 128, 256);
    HighBit(flags, 8192, 16384);
    HighBit(flags, 16777216, 33554432);
  }

  lemma HighBit(flags: uint32, weight: nat, twice: nat)
    requires weight > 0 && twice == weight + weight
    ensures Bit(flags, weight) <==> flags % twice >= weight
  {
    var q, r := flags / twice, flags % twice;
    assert flags == q * twice + r;
    TwiceOf(q, weight, twice);
    if r < weight {
      Quotient(flags, weight, q + q, r);
    } else {
      Quotient(flags, weight, q + q + 1, r - weight);
    }
  }

  lemma TwiceOf(q: nat, weight: nat, twice: nat)
    requires twice == weight + weight
    ensures q * twice == (q + q) * weight && (q + q + 1) * weight == q * twice + weight
  {
  }

  lemma Quotient(x: nat, w: nat, q: nat, r: nat)
    requires r < w && x == q * w + r
    ensures x / w == q
  {
    var d := x / w;
    assert x == d * w + x % w;
    if d > q {
      NextMultiple(q, d, w);
    }
    if d < q {
      NextMultiple(d, q, w);
    }
  }

  lemma NextMultiple(a: nat, b: nat, w: nat)
    requires a < b
    ensures b * w >= a * w + w
  {
    assert b * w == (a + 1) * w + (b - a - 1) * w;
    assert (b - a - 1) * w >= 0;
  }

  datatype Version = Version(major: uint32, minor: uint32, build: uint32)

  datatype ItemsOtb = ItemsOtb(version: Version, items: seq<ItemType>)

  // ---------------------------------------------------------------------
  // Parsing
  // ---------------------------------------------------------------------

  /** The fields the record loop has filled so far. */
  datatype Fields = Fields(serverId: uint16, clientId: uint16, topOrder: uint8)

  const NO_FIELDS := Fields(0, 0, 0)

  /** One record after its tag. A known tag reads the bytes its field needs, whatever length was declared. */
  function ReadRecord(tag: uint8, b: Bytes, f: Fields): Read<Fields> {
    var (len, b) :- ReadU16(b);
    if tag == ATTR_SERVER_ID then
      var (id, b) :- ReadU16(b);
      Got(f.(serverId := id), b)
    else if tag == ATTR_CLIENT_ID then
      var (id, b) :- ReadU16(b);
      Got(f.(clientId := id), b)
    else if tag == ATTR_TOP_ORDER then
      var (order, b) :- ReadU8(b);
      Got(f.(topOrder := order), b)
    else
      var (_, b) :- ReadBytes(b, len);
      Got(f, b)
  }

  function Records(b: Bytes, f: Fields): Result<Fields>
    decreases |b|
  {
    if b == [] then Ok(f)
    else
      match ReadRecord(b[0], b[1..], f)
      case Short => Err(UnexpectedEof)
      case Got(f', rest) => Records(rest, f')
  }

  function Item(n: Node): Result<ItemType> {
    match ReadU32(n.props)
    case Short => Err(UnexpectedEof)
    case Got(flags, rest) =>
      match Records(rest, NO_FIELDS)
      case Err(e) => Err(e)
      case Ok(f) => Ok(FromFields(n.kind, flags, f))
  }

  function ItemsFrom(ns: seq<Node>, done: seq<ItemType>): Result<seq<ItemType>> {
    if ns == [] then Ok(done)
    else
      match Item(ns[0])
      case Err(e) => Err(e)
      case Ok(i) => ItemsFrom(ns[1..], done + [i])
  }

  /** Flags, the version tag, a length that is not looked at, and three numbers. */
  function VersionOf(props: Bytes): Result<Version> {
    match ReadU32(props)
    case Short => Err(UnexpectedEof)
    case Got(_, b) =>
      match ReadU8(b)
      case Short => Err(UnexpectedEof)
      case Got(tag, b) =>
        if tag != ROOT_ATTR_VERSION then Err(InvalidNode)
        else
          match ReadNumbers(b)
          case Short => Err(UnexpectedEof)
          case Got(v, _) => Ok(v)
  }

  function ReadNumbers(b: Bytes): Read<Version> {
    var (_, b) :- ReadU16(b);
    var (major, b) :- ReadU32(b);
    var (minor, b) :- ReadU32(b);
    var (build, b) :- ReadU32(b);
    Got(Version(major, minor, build), b)
  }

  function Dictionary(data: Bytes): Result<ItemsOtb> {
    match Tree(data)
    case Err(e) => Err(e)
    case Ok(root) =>
      match VersionOf(root.props)
      case Err(e) => Err(e)
      case Ok(v) =>
        match ItemsFrom(root.children, [])
        case Err(e) => Err(e)
        case Ok(items) => Ok(ItemsOtb(v, items))
  }

  /** One turn of the record loop of `parse_item`. */
  method ParseRecord(reader: PropReader, tag: uint8, f: Fields) returns (r: Result<Fields>)
    requires reader.Valid()
    modifies reader
    ensures reader.Valid() && reader.pos >= old(reader.pos)
    ensures match ReadRecord(tag, old(reader.Rest()), f)
            case Short => r == Err(UnexpectedEof)
            case Got(f', rest) => r == Ok(f') && reader.Rest() == rest
  {
    var len := reader.TakeU16();
    if len.Err? {
      return Err(len.error);
    }
    if tag == ATTR_SERVER_ID || tag == ATTR_CLIENT_ID {
      var id := reader.TakeU16();
      if id.Err? {
        return Err(id.error);
      }
      return Ok(if tag == ATTR_SERVER_ID then f.(serverId := id.value) else f.(clientId := id.value));
    }
    if tag == ATTR_TOP_ORDER {
      var order := reader.TakeU8();
      if order.Err? {
        return Err(order.error);
      }
      return Ok(f.(topOrder := order.value));
    }
    var skipped := reader.Take(len.value);
    if skipped.Err? {
      return Err(skipped.error);
    }
    return Ok(f);
  }

  /** The record loop of `parse_item`. */
  method ParseRecords(reader: PropReader) returns (r: Result<Fields>)
    requires reader.Valid()
    modifies reader
    ensures r == Records(old(reader.Rest()), NO_FIELDS)
  {
    hide ReadRecord;
    var f := NO_FIELDS;
    while reader.pos < |reader.data|
      invariant reader.Valid()
      invariant Records(old(reader.Rest()), NO_FIELDS) == Records(reader.Rest(), f)
      decreases |reader.data| - reader.pos
    {
      ghost var before := reader.Rest();
      var tag := reader.TakeU8();
      assert before[0] == tag.value && before[1..] == reader.Rest();
      var next := ParseRecord(reader, tag.value, f);
      if next.Err? {
        return Err(next.error);
      }
      f := next.value;
    }
    return Ok(f);
  }

  /** `parse_item` */
  method ParseItem(n: Node) returns (r: Result<ItemType>)
    ensures r == Item(n)
  {
    hide Records, FromFields;
    var reader := new PropReader(n.props);
    var flags := reader.TakeU32();
    if flags.Err? {
      return Err(flags.error);
    }
    var f := ParseRecords(reader);
    if f.Err? {
      return Err(f.error);
    }
    return Ok(FromFields(n.kind, flags.value, f.value));
  }

  /** `parse_version` */
  method ParseVersion(props: Bytes) returns (r: Result<Version>)
    ensures r == VersionOf(props)
  {
    var reader := new PropReader(props);
    var flags := reader.TakeU32();
    if flags.Err? {
      return Err(flags.error);
    }
    var tag := reader.TakeU8();
    if tag.Err? {
      return Err(tag.error);
    }
    if tag.value != ROOT_ATTR_VERSION {
      return Err(InvalidNode);
    }
    var len := reader.TakeU16();
    if len.Err? {
      return Err(len.error);
    }
    var major := reader.TakeU32();
    if major.Err? {
      return Err(major.error);
    }
    var minor := reader.TakeU32();
    if minor.Err? {
      return Err(minor.error);
    }
    var build := reader.TakeU32();
    if build.Err? {
      return Err(build.error);
    }
    return Ok(Version(major.value, minor.value, build.value));
  }

  /** `parse` */
  method Parse(data: Bytes) returns (r: Result<ItemsOtb>)
    ensures r == Dictionary(data)
  {
    hide VersionOf, Item;
    var root := ParseTree(data);
    if root.Err? {
      return Err(root.error);
    }
    var v := ParseVersion(root.value.props);
    if v.Err? {
      return Err(v.error);
    }
    var ns := root.value.children;
    var items: seq<ItemType> := [];
    for i := 0 to |ns|
      invariant ItemsFrom(ns, []) == ItemsFrom(ns[i..], items)
    {
      var item := ParseItem(ns[i]);
      if item.Err? {
        return Err(item.error);
      }
      items := items + [item.value];
    }
    return Ok(ItemsOtb(v.value, items));
  }

  // ---------------------------------------------------------------------
  // Writing
  // ---------------------------------------------------------------------

  datatype Record = ServerId(id: uint16) | ClientId(id: uint16) | TopOrder(order: uint8) | Other(tag: uint8, data: Bytes)

  /** An item type as an editor holds it: any sequence of records. */
  datatype RichType = RichType(group: uint8, flags: uint32, records: seq<Record>)

  predicate RecordOk(r: Record) {
    r.Other? ==> r.tag !in {ATTR_SERVER_ID, ATTR_CLIENT_ID, ATTR_TOP_ORDER} && |r.data| < 0x1_0000
  }

  predicate TypeOk(t: RichType) {
    forall k :: 0 <= k < |t.records| ==> RecordOk(t.records[k])
  }

  function TagOf(r: Record): uint8 {
    match r
    case ServerId(_) => ATTR_SERVER_ID
    case ClientId(_) => ATTR_CLIENT_ID
    case TopOrder(_) => ATTR_TOP_ORDER
    case Other(tag, _) => tag
  }

  function DataOf(r: Record): Bytes {
    match r
    case ServerId(id) => Le16(id)
    case ClientId(id) => Le16(id)
    case TopOrder(order) => [order]
    case Other(_, data) => data
  }

  /** A record that declares `len` bytes. */
  function DeclaredBytes(r: Record, len: uint16): Bytes {
    [TagOf(r)] + (Le16(len) + DataOf(r))
  }

  function RecordsBytes(rs: seq<Record>): Bytes {
    if rs == [] then [] else DeclaredBytes(rs[0], |DataOf(rs[0])| % 0x1_0000) + RecordsBytes(rs[1..])
  }

  function ToNode(t: RichType): Node {
    Node(t.group, Le32(t.flags) + RecordsBytes(t.records), [])
  }

  function ToNodes(ts: seq<RichType>): (ns: seq<Node>)
    ensures |ns| == |ts| && forall k :: 0 <= k < |ts| ==> ns[k] == ToNode(ts[k])
  {
    seq(|ts|, k requires 0 <= k < |ts| => ToNode(ts[k]))
  }

  /** The last record of each kind counts. */
  function Filled(rs: seq<Record>, f: Fields): Fields {
    if rs == [] then f else Filled(rs[1..], Fill(rs[0], f))
  }

  function Fill(r: Record, f: Fields): Fields {
    match r
    case ServerId(id) => f.(serverId := id)
    case ClientId(id) => f.(clientId := id)
    case TopOrder(order) => f.(topOrder := order)
    case Other(_, _) => f
  }

  function PlainType(t: RichType): ItemType {
    FromFields(t.group, t.flags, Filled(t.records, NO_FIELDS))
  }

  function PlainTypes(ts: seq<RichType>): (r: seq<ItemType>)
    ensures |r| == |ts| && forall k :: 0 <= k < |ts| ==> r[k] == PlainType(ts[k])
  {
    seq(|ts|, k requires 0 <= k < |ts| => PlainType(ts[k]))
  }

  function VersionBytes(flags: uint32, len: uint16, v: Version, padding: Bytes): Bytes {
    Le32(flags) + ([ROOT_ATTR_VERSION] + (Le16(len) + (Le32(v.major) + (Le32(v.minor) + (Le32(v.build) + padding)))))
  }

  // ---------------------------------------------------------------------
  // Parsing undoes writing
  // ---------------------------------------------------------------------

  /** A record parses to its field and is consumed exactly, if its length is the declared one or its tag is known:
      the declared length of an id or an order is never looked at. */
  lemma RecordParses(r: Record, len: uint16, rest: Bytes, f: Fields)
    requires RecordOk(r) && (r.Other? ==> len == |r.data|)
    ensures Records(DeclaredBytes(r, len) + rest, f) == Records(rest, Fill(r, f))
  {
    hide Le16, ReadU16, ReadU8, ReadBytes;
    var b := DeclaredBytes(r, len) + rest;
    assert b == [TagOf(r)] + (Le16(len) + (DataOf(r) + rest));
    assert b[1..] == Le16(len) + (DataOf(r) + rest);
    ReadU16Back(len, DataOf(r) + rest);
    match r
    case ServerId(id) => ReadU16Back(id, rest);
    case ClientId(id) => ReadU16Back(id, rest);
    case TopOrder(order) => ReadU8Back(order, rest);
    case Other(_, data) => ReadBytesBack(data, rest);
  }

  /** The size of a known field; `None` for an unknown tag. */
  function SizeOf(tag: uint8): Option<nat> {
    if tag == ATTR_SERVER_ID || tag == ATTR_CLIENT_ID then Some(2) else if tag == ATTR_TOP_ORDER then Some(1) else None
  }

  /** A record whose declared bytes are there is read to exactly their end if and only if its tag is unknown, or the
      declared length is the size of its field. */
  lemma DeclaredLengthMatters(tag: uint8, len: uint16, data: Bytes, f: Fields)
    requires len <= |data|
    ensures var r := ReadRecord(tag, Le16(len) + data, f);
            r.Got? && r.rest == data[len..] <==> SizeOf(tag) in {None, Some(len)}
  {
    ReadU16Back(len, data);
  }

  lemma {:induction false} RecordsParse(rs: seq<Record>, f: Fields)
    requires forall k :: 0 <= k < |rs| ==> RecordOk(rs[k])
    ensures Records(RecordsBytes(rs), f) == Ok(Filled(rs, f))
  {
    hide Records, DeclaredBytes, RecordOk, Fill;
    if rs == [] {
      NoRecords(f);
    } else {
      RecordLength(rs[0]);
      RecordParses(rs[0], |DataOf(rs[0])| % 0x1_0000, RecordsBytes(rs[1..]), f);
      assert forall k :: 0 <= k < |rs[1..]| ==> rs[1..][k] == rs[k + 1];
      RecordsParse(rs[1..], Fill(rs[0], f));
    }
  }

  lemma NoRecords(f: Fields)
    ensures Records([], f) == Ok(f)
  {
  }

  lemma RecordLength(r: Record)
    requires RecordOk(r)
    ensures r.Other? ==> |DataOf(r)| % 0x1_0000 == |r.data|
  {
  }

  lemma TypeParses(t: RichType)
    requires TypeOk(t)
    ensures Item(ToNode(t)) == Ok(PlainType(t))
  {
    hide Le32, ReadU32, Records, RecordsBytes, Filled, FromFields;
    ReadU32Back(t.flags, RecordsBytes(t.records));
    RecordsParse(t.records, NO_FIELDS);
  }

  lemma NextType(ns: seq<Node>, i: ItemType, done: seq<ItemType>)
    requires ns != [] && Item(ns[0]) == Ok(i)
    ensures ItemsFrom(ns, done) == ItemsFrom(ns[1..], done + [i])
  {
    hide Item;
  }

  lemma NoType(done: seq<ItemType>)
    ensures ItemsFrom(ToNodes([]), done) == Ok(done)
  {
  }

  lemma TypesSplit(ts: seq<RichType>)
    requires ts != [] && forall k :: 0 <= k < |ts| ==> TypeOk(ts[k])
    ensures ToNodes(ts)[0] == ToNode(ts[0]) && ToNodes(ts)[1..] == ToNodes(ts[1..])
    ensures PlainTypes(ts) == [PlainType(ts[0])] + PlainTypes(ts[1..])
    ensures forall k :: 0 <= k < |ts[1..]| ==> TypeOk(ts[1..][k])
  {
    hide TypeOk, ToNode, PlainType;
  }

  lemma {:induction false} TypesParse(ts: seq<RichType>, done: seq<ItemType>)
    requires forall k :: 0 <= k < |ts| ==> TypeOk(ts[k])
    ensures ItemsFrom(ToNodes(ts), done) == Ok(done + PlainTypes(ts))
  {
    hide Item, ItemsFrom, TypeOk, ToNode, ToNodes, PlainType, PlainTypes;
    if ts == [] {
      NoType(done);
      assert done + PlainTypes([]) == done;
    } else {
      TypeParses(ts[0]);
      TypesSplit(ts);
      NextType(ToNodes(ts), PlainType(ts[0]), done);
      TypesParse(ts[1..], done + [PlainType(ts[0])]);
      assert done + [PlainType(ts[0])] + PlainTypes(ts[1..]) == done + ([PlainType(ts[0])] + PlainTypes(ts[1..]));
    }
  }

  lemma VersionParses(flags: uint32, len: uint16, v: Version, padding: Bytes)
    ensures VersionOf(VersionBytes(flags, len, v, padding)) == Ok(v)
  {
    hide Le16, Le32, ReadU16, ReadU32, ReadU8;
    var d := Le32(v.build) + padding;
    var c := Le32(v.minor) + d;
    var b := Le32(v.major) + c;
    var a := Le16(len) + b;
    ReadU32Back(flags, [ROOT_ATTR_VERSION] + a);
    ReadU8Back(ROOT_ATTR_VERSION, a);
    ReadU16Back(len, b);
    ReadU32Back(v.major, c);
    ReadU32Back(v.minor, d);
    ReadU32Back(v.build, padding);
  }

  /** A dictionary file, up to its root's end marker. */
  function FileBytes(identifier: Bytes, kind: uint8, flags: uint32, len: uint16, v: Version, padding: Bytes,
                     ts: seq<RichType>): Bytes {
    identifier + NodeBytes(Node(kind, VersionBytes(flags, len, v, padding), ToNodes(ts)))
  }

  /** From the escaped bytes of a dictionary, with any padding in its version block and any unknown records, to
      its version and its item types in file order. */
  lemma DictionaryRoundTrip(identifier: Bytes, kind: uint8, flags: uint32, len: uint16, v: Version, padding: Bytes,
                            ts: seq<RichType>, suffix: Bytes)
    requires |identifier| == 4 && forall k :: 0 <= k < |ts| ==> TypeOk(ts[k])
    ensures Dictionary(FileBytes(identifier, kind, flags, len, v, padding, ts) + suffix) == Ok(ItemsOtb(v, PlainTypes(ts)))
  {
    hide Tree, NodeBytes, VersionOf, VersionBytes, ItemsFrom, TypeOk;
    var root := Node(kind, VersionBytes(flags, len, v, padding), ToNodes(ts));
    TreeRoundTrip(identifier, root, suffix);
    VersionParses(flags, len, v, padding);
    TypesParse(ts, []);
    assert [] + PlainTypes(ts) == PlainTypes(ts);
  }

  // ---------------------------------------------------------------------
  // What the map builders read
  // ---------------------------------------------------------------------

  /** `merge_items_xml`: every type for which `items.xml` names floor changes takes them over. */
  function Merged(items: seq<ItemType>, xml: uint16 -> set<FloorFlag>): (r: seq<ItemType>)
    ensures |r| == |items|
  {
    seq(|items|, k requires 0 <= k < |items| =>
      if xml(items[k].serverId) != {} then items[k].(floorChange := xml(items[k].serverId)) else items[k])
  }

  /** Where `items.xml` names floor changes for an id, they are the item's; everything else stays. */
  lemma MergedMeans(items: seq<ItemType>, xml: uint16 -> set<FloorFlag>, k: nat)
    requires k < |items|
    ensures var t, t' := items[k], Merged(items, xml)[k];
            && t' == t.(floorChange := t'.floorChange)
            && forall f :: f in t'.floorChange <==>
                 f in xml(t.serverId) || (f in t.floorChange && forall g :: g !in xml(t.serverId))
  {
    assert xml(items[k].serverId) == {} <==> forall g :: g !in xml(items[k].serverId);
  }

  method MergeItemsXml(items: seq<ItemType>, xml: uint16 -> set<FloorFlag>) returns (r: seq<ItemType>)
    ensures r == Merged(items, xml)
  {
    r := items;
    for k := 0 to |items|
      invariant |r| == |items|
      invariant forall j :: 0 <= j < |items| ==> r[j] == if j < k then Merged(items, xml)[j] else items[j]
    {
      var fc := xml(r[k].serverId);
      if fc != {} {
        r := r[k := r[k].(floorChange := fc)];
      }
    }
  }

  /** The lookup by server id; of several types with one id the last counts. */
  function ById(items: seq<ItemType>): map<uint16, ItemType> {
    if items == [] then map[] else ById(items[..|items| - 1])[items[|items| - 1].serverId := items[|items| - 1]]
  }
}
