/** The skip-encoded tile stream as a code: what a run of tiles is written as, the client's
    decoder, and the proof that the decoder undoes the encoder. */
module TileStream {
  import opened World
  import opened Wire
  import opened Creature

  datatype WireItem = WireItem(clientId: uint16, subtype: Option<uint8>, animated: bool)

  /** One thing on a tile; a creature is the bytes `AddCreature` produced for it. */
  datatype TileThing = Item(item: WireItem) | Being(bytes: Bytes)

  /** One position of the stream: `None` where there is no tile. */
  type Cell = Option<seq<TileThing>>

  const MARKER: uint16 := 0xFF00
  const FULL_RUN: int := 0xFE
  const PHASE: uint8 := 0xFE

  // ---------------------------------------------------------------------
  // Encoding
  // ---------------------------------------------------------------------

  function ItemBytes(i: WireItem): Bytes {
    Le16(i.clientId) + [MARK_UNMARKED]
    + (if i.subtype.Some? then [i.subtype.value] else [])
    + (if i.animated then [PHASE] else [])
  }

  function ThingBytes(t: TileThing): Bytes {
    match t
    case Item(i) => ItemBytes(i)
    case Being(b) => b
  }

  function ThingsBytes(ts: seq<TileThing>): Bytes {
    if ts == [] then [] else ThingBytes(ts[0]) + ThingsBytes(ts[1..])
  }

  /** The run counter: -1 with no run open, else the empty positions still to be announced. */
  type Skip = s: int | -1 <= s <= 0xFE witness -1

  /** `[skip][0xFF]`, closing an open run. */
  function Flush(skip: Skip): Bytes {
    if skip >= 0 then [skip as uint8, 0xFF] else []
  }

  /** What one position adds to the stream, and the run counter after it. */
  function CellStep(skip: Skip, c: Cell): (Bytes, Skip) {
    match c
    case Some(things) => (Flush(skip) + Le16(0) + ThingsBytes(things), 0)
    case None => if skip == FULL_RUN then ([0xFF, 0xFF], -1) else ([], skip + 1)
  }

  function Run(cells: seq<Cell>, skip: Skip): (Bytes, Skip) {
    if cells == [] then ([], skip)
    else
      var (b, s) := CellStep(skip, cells[0]);
      var (rest, last) := Run(cells[1..], s);
      (b + rest, last)
  }

  /** A whole stream: the run over all positions and the final flush. */
  function Stream(cells: seq<Cell>, skip: Skip): Bytes {
    Run(cells, skip).0 + Flush(Run(cells, skip).1)
  }

  lemma {:induction false} RunAppend(a: seq<Cell>, b: seq<Cell>, skip: Skip)
    ensures var (ba, s) := Run(a, skip);
            Run(a + b, skip) == (ba + Run(b, s).0, Run(b, s).1)
  {
    if a == [] {
      assert a + b == b;
      assert [] + Run(b, skip).0 == Run(b, skip).0;
    } else {
      var (c, s) := CellStep(skip, a[0]);
      assert (a + b)[1..] == a[1..] + b;
      RunAppend(a[1..], b, s);
      var (ba, t) := Run(a[1..], s);
      assert c + (ba + Run(b, t).0) == (c + ba) + Run(b, t).0;
    }
  }

  lemma {:induction false} ThingsBytesAppend(a: seq<TileThing>, b: seq<TileThing>)
    ensures ThingsBytes(a + b) == ThingsBytes(a) + ThingsBytes(b)
  {
    if a == [] {
      assert a + b == b;
    } else {
      assert (a + b)[1..] == a[1..] + b;
      ThingsBytesAppend(a[1..], b);
    }
  }

  // ---------------------------------------------------------------------
  // The client's decoder
  // ---------------------------------------------------------------------

  /** What the client knows of an item type: whether a count or fluid byte, and whether an
      animation phase byte, follow the mark. */
  datatype ItemKind = ItemKind(counted: bool, animated: bool)

  type Catalogue = uint16 -> ItemKind

  function ReadItem(cat: Catalogue, b: Bytes): Read<TileThing> {
    var (id, b) :- ReadU16(b);
    var (_, b) :- ReadU8(b);
    if cat(id).counted then
      var (subtype, b) :- ReadU8(b);
      var (_, b) :- ReadBytes(b, if cat(id).animated then 1 else 0);
      Got(Item(WireItem(id, Some(subtype), cat(id).animated)), b)
    else
      var (_, b) :- ReadBytes(b, if cat(id).animated then 1 else 0);
      Got(Item(WireItem(id, None, cat(id).animated)), b)
  }

  function ReadThing(cat: Catalogue, b: Bytes): (r: Read<TileThing>)
    ensures r.Got? ==> |r.rest| < |b|
  {
    var (id, _) :- ReadU16(b);
    if id == KNOWN || id == UNKNOWN then
      var (_, rest) :- ReadCreature(b);
      if |rest| < |b| then Got(Being(b[..|b| - |rest|]), rest) else Short
    else
      ReadItem(cat, b)
  }

  /** A tile's things up to the `[count][0xFF]` marker that ends it, and that count. */
  function ReadThings(cat: Catalogue, b: Bytes): (r: Read<(seq<TileThing>, nat)>)
    ensures r.Got? ==> |r.rest| < |b|
    decreases |b|
  {
    var (v, after) :- ReadU16(b);
    if v >= MARKER then Got(([], v - MARKER), after)
    else
      var (t, rest) :- ReadThing(cat, b);
      var ((ts, skip), rest) :- ReadThings(cat, rest);
      Got(([t] + ts, skip), rest)
  }

  /** Decode `n` positions, the first `skip` of them known to be empty. Succeeds only when the last
      announced run ends exactly at the last position. */
  function Decode(cat: Catalogue, b: Bytes, n: nat, skip: nat): Read<seq<Cell>>
    decreases n
  {
    if n == 0 then
      if skip == 0 then Got([], b) else Short
    else if skip > 0 then
      var (cells, rest) :- Decode(cat, b, n - 1, skip - 1);
      Got([None] + cells, rest)
    else
      var (v, after) :- ReadU16(b);
      if v >= MARKER then
        var (cells, rest) :- Decode(cat, after, n - 1, v - MARKER);
        Got([None] + cells, rest)
      else
        var ((things, next), after) :- ReadThings(cat, after);
        var (cells, rest) :- Decode(cat, after, n - 1, next);
        Got([Some(things)] + cells, rest)
  }

  // ---------------------------------------------------------------------
  // Decoding undoes encoding
  // ---------------------------------------------------------------------

  /** The server and the client agree on the item's optional bytes, and its id is no marker. */
  predicate ItemOk(cat: Catalogue, i: WireItem) {
    && i.clientId < MARKER && i.clientId != KNOWN && i.clientId != UNKNOWN
    && i.subtype.Some? == cat(i.clientId).counted
    && i.animated == cat(i.clientId).animated
  }

  /** The bytes of some creature with a name a string prefix can measure. */
  ghost predicate CreatureOk(b: Bytes) {
    exists v: CreatureView, known, removeId :: |v.name| < 0x1_0000 && b == CreatureBytes(v, known, removeId)
  }

  ghost predicate ThingOk(cat: Catalogue, t: TileThing) {
    match t
    case Item(i) => ItemOk(cat, i)
    case Being(b) => CreatureOk(b)
  }

  ghost predicate CellOk(cat: Catalogue, c: Cell) {
    c.Some? ==> forall i :: 0 <= i < |c.value| ==> ThingOk(cat, c.value[i])
  }

  ghost predicate CellsOk(cat: Catalogue, cells: seq<Cell>) {
    forall i :: 0 <= i < |cells| ==> CellOk(cat, cells[i])
  }

  lemma ItemRoundTrip(cat: Catalogue, i: WireItem, rest: Bytes)
    requires ItemOk(cat, i)
    ensures ReadItem(cat, ItemBytes(i) + rest) == Got(Item(i), rest)
    ensures ReadU16(ItemBytes(i) + rest).Got? && ReadU16(ItemBytes(i) + rest).value == i.clientId
  {
    var phase: Bytes := if i.animated then [PHASE] else [];
    var tail := (if i.subtype.Some? then [i.subtype.value] else []) + (phase + rest);
    assert ItemBytes(i) + rest == Le16(i.clientId) + ([MARK_UNMARKED] + tail);
    ReadU16Back(i.clientId, [MARK_UNMARKED] + tail);
    ReadU8Back(MARK_UNMARKED, tail);
    if i.subtype.Some? {
      ReadU8Back(i.subtype.value, phase + rest);
    }
    ReadBytesBack(phase, rest);
  }

  lemma ThingRoundTrip(cat: Catalogue, t: TileThing, rest: Bytes)
    requires ThingOk(cat, t)
    ensures ReadThing(cat, ThingBytes(t) + rest) == Got(t, rest)
    ensures ReadU16(ThingBytes(t) + rest).Got? && ReadU16(ThingBytes(t) + rest).value < MARKER
  {
    hide ReadItem, ItemBytes, CreatureBytes, ReadCreature, ReadU16, ThingOf;
    match t
    case Item(i) =>
      ItemRoundTrip(cat, i, rest);
    case Being(b) =>
      var v: CreatureView, known, removeId :| |v.name| < 0x1_0000 && b == CreatureBytes(v, known, removeId);
      CreatureMarker(v, known, removeId, rest);
      CreatureRoundTrip(v, known, removeId, rest);
      assert (b + rest)[..|b|] == b;
  }

  /** The things of a tile, followed by a marker, read back as themselves. */
  lemma {:induction false} ThingsRoundTrip(cat: Catalogue, ts: seq<TileThing>, k: uint8, rest: Bytes)
    requires forall i :: 0 <= i < |ts| ==> ThingOk(cat, ts[i])
    ensures ReadThings(cat, ThingsBytes(ts) + ([k, 0xFF] + rest)) == Got((ts, k), rest)
  {
    hide ReadThing, ThingBytes, ThingOk;
    var end: Bytes := [k, 0xFF] + rest;
    if ts == [] {
      assert ThingsBytes(ts) + end == end;
    } else {
      var tail := ThingsBytes(ts[1..]) + end;
      var all := ThingBytes(ts[0]) + tail;
      assert ThingsBytes(ts) + end == all;
      ThingRoundTrip(cat, ts[0], tail);
      ThingsRoundTrip(cat, ts[1..], k, rest);
      assert ReadThings(cat, all) == Got(([ts[0]] + ts[1..], k as nat), rest);
      assert [ts[0]] + ts[1..] == ts;
    }
  }

  /** The heart of the code. The encoder lags behind the decoder: with a run open at counter `skip`,
      the next bytes it writes are the marker `[k][0xFF]` of the whole run, and a decoder that has
      taken that marker has `k - skip` of its empty positions still ahead of it. */
  lemma {:induction false} StreamDecodes(cat: Catalogue, cells: seq<Cell>, skip: Skip, after: Bytes)
    returns (k: uint8, rest: Bytes)
    requires CellsOk(cat, cells)
    ensures skip == -1 ==> Decode(cat, Stream(cells, skip) + after, |cells|, 0) == Got(cells, after)
    ensures skip >= 0 ==> Stream(cells, skip) + after == [k, 0xFF] + rest && k >= skip
                          && Decode(cat, rest, |cells|, k - skip) == Got(cells, after)
    decreases |cells|
  {
    if cells == [] {
      k, rest := if skip < 0 then 0 else skip, after;
    } else if cells[0].None? {
      k, rest := EmptyCellDecodes(cat, cells, skip, after);
    } else {
      k, rest := TileDecodes(cat, cells, skip, after);
    }
  }

  /** What an empty position adds to a stream: nothing, or the marker of a full run. */
  lemma StreamOfGap(cells: seq<Cell>, skip: Skip)
    ensures Stream([None] + cells, skip)
         == if skip == FULL_RUN then [0xFF, 0xFF] + Stream(cells, -1) else Stream(cells, skip + 1)
  {
    hide ThingsBytes, Flush;
    assert ([None] + cells)[1..] == cells;
    if skip == FULL_RUN {
      var (b, last) := Run(cells, -1);
      assert ([0xFF, 0xFF] + b) + Flush(last) == [0xFF, 0xFF] + (b + Flush(last));
    }
  }

  /** A marker announces its own position and the run behind it. */
  lemma DecodeMarker(cat: Catalogue, k: uint8, rest: Bytes, cells: seq<Cell>, after: Bytes)
    requires Decode(cat, rest, |cells|, k) == Got(cells, after)
    ensures Decode(cat, [k, 0xFF] + rest, 1 + |cells|, 0) == Got([None] + cells, after)
  {
    hide ReadThings;
    var b := [k, 0xFF] + rest;
    assert b[2..] == rest;
  }

  /** Inside a run the next position is empty. */
  lemma DecodeGap(cat: Catalogue, rest: Bytes, skip: nat, cells: seq<Cell>, after: Bytes)
    requires skip > 0 && Decode(cat, rest, |cells|, skip - 1) == Got(cells, after)
    ensures Decode(cat, rest, 1 + |cells|, skip) == Got([None] + cells, after)
  {
    hide ReadThings, ReadU16;
  }

  lemma EmptyCellDecodes(cat: Catalogue, cells: seq<Cell>, skip: Skip, after: Bytes) returns (k: uint8, rest: Bytes)
    requires CellsOk(cat, cells) && cells != [] && cells[0].None?
    ensures skip == -1 ==> Decode(cat, Stream(cells, skip) + after, |cells|, 0) == Got(cells, after)
    ensures skip >= 0 ==> Stream(cells, skip) + after == [k, 0xFF] + rest && k >= skip
                          && Decode(cat, rest, |cells|, k - skip) == Got(cells, after)
    decreases |cells|, 0
  {
    hide Decode, Stream, CellOk;
    var next := cells[1..];
    assert cells == [None] + next && |cells| == 1 + |next|;
    StreamOfGap(next, skip);
    if skip == FULL_RUN {
      var _, _ := StreamDecodes(cat, next, -1, after);
      k, rest := 0xFF, Stream(next, -1) + after;
      assert Stream(cells, skip) + after == [k, 0xFF] + rest;
      DecodeGap(cat, rest, 1, next, after);
    } else {
      k, rest := StreamDecodes(cat, next, skip + 1, after);
      if skip == -1 {
        DecodeMarker(cat, k, rest, next, after);
      } else {
        DecodeGap(cat, rest, k - skip, next, after);
      }
    }
  }

  lemma TileDecodes(cat: Catalogue, cells: seq<Cell>, skip: Skip, after: Bytes) returns (k: uint8, rest: Bytes)
    requires CellsOk(cat, cells) && cells != [] && cells[0].Some?
    ensures skip == -1 ==> Decode(cat, Stream(cells, skip) + after, |cells|, 0) == Got(cells, after)
    ensures skip >= 0 ==> Stream(cells, skip) + after == [k, 0xFF] + rest && k >= skip
                          && Decode(cat, rest, |cells|, k - skip) == Got(cells, after)
    decreases |cells|, 0
  {
    hide ReadThings, ThingsBytes, ReadU16, ThingOk, Le16, Decode, Stream;
    var things := cells[0].value;
    var k', rest' := StreamDecodes(cat, cells[1..], 0, after);
    var next := ThingsBytes(things) + ([k', 0xFF] + rest');
    assert CellOk(cat, cells[0]);
    ThingsRoundTrip(cat, things, k', rest');
    k, rest := if skip < 0 then 0 else skip, Le16(0) + next;
    DecodeTile(cat, things, next, k', rest', cells[1..], after);
    assert [Some(things)] + cells[1..] == cells;
    StreamOfTile(things, cells[1..], skip);
    assert Stream(cells, skip) + after
        == Flush(skip) + (Le16(0) + (ThingsBytes(things) + (Stream(cells[1..], 0) + after)));
    assert |cells| == 1 + |cells[1..]|;
    if skip == -1 {
      assert Stream(cells, skip) + after == Le16(0) + next;
    }
  }

  lemma StreamOfTile(things: seq<TileThing>, cells: seq<Cell>, skip: Skip)
    ensures Stream([Some(things)] + cells, skip)
         == Flush(skip) + Le16(0) + ThingsBytes(things) + Stream(cells, 0)
  {
    assert ([Some(things)] + cells)[1..] == cells;
  }

  lemma DecodeTile(cat: Catalogue, things: seq<TileThing>, next: Bytes, k: uint8, rest: Bytes,
                   cells: seq<Cell>, after: Bytes)
    requires ReadThings(cat, next) == Got((things, k), rest)
    requires Decode(cat, rest, |cells|, k) == Got(cells, after)
    ensures Decode(cat, Le16(0) + next, 1 + |cells|, 0) == Got([Some(things)] + cells, after)
  {
    hide ReadThings, ReadU16, Le16;
    ReadU16Back(0, next);
  }

  /** For every run of cells, decoding the stream the encoder opens with counter -1 gives back exactly
      those cells and leaves exactly the bytes that follow the stream. */
  lemma StreamRoundTrip(cat: Catalogue, cells: seq<Cell>, after: Bytes)
    requires CellsOk(cat, cells)
    ensures Decode(cat, Stream(cells, -1) + after, |cells|, 0) == Got(cells, after)
  {
    var _, _ := StreamDecodes(cat, cells, -1, after);
  }
}
