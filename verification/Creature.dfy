/** The creature "thing" spliced into a tile (crates/protocol/src/creature.rs). */
module Creature {
  import opened World
  import opened Wire

  datatype Outfit = Outfit(lookType: uint16, head: uint8, body: uint8, legs: uint8, feet: uint8,
                           addons: uint8, mount: uint16)

  datatype CreatureView = CreatureView(id: uint32, name: Bytes, healthPercent: uint8, direction: uint8,
                                       outfit: Outfit, lightLevel: uint8, lightColor: uint8, speed: uint16,
                                       creatureType: uint8, walkthrough: uint8)

  const KNOWN: uint16 := 0x62
  const UNKNOWN: uint16 := 0x61
  const MARK_UNMARKED: uint8 := 0xFF

  function OutfitBytes(o: Outfit): Bytes {
    Le16(o.lookType)
    + (if o.lookType != 0 then [o.head, o.body, o.legs, o.feet, o.addons] else Le16(0))
    + Le16(o.mount)
  }

  function HeadBytes(v: CreatureView, known: bool, removeId: uint32): Bytes {
    if known then Le16(KNOWN) + Le32(v.id)
    else Le16(UNKNOWN) + Le32(removeId) + Le32(v.id) + [v.creatureType] + (Le16(|v.name| % 0x1_0000) + v.name)
  }

  function TailBytes(v: CreatureView, known: bool): Bytes {
    [v.lightLevel, v.lightColor] + Le16(v.speed / 2) + [0, 0] + (if known then [] else [0])
    + [v.creatureType, 0, MARK_UNMARKED] + Le16(0) + [v.walkthrough]
  }

  function CreatureBytes(v: CreatureView, known: bool, removeId: uint32): Bytes {
    HeadBytes(v, known, removeId) + ([v.healthPercent, v.direction] + (OutfitBytes(v.outfit) + TailBytes(v, known)))
  }

  method AddOutfit(w: MessageWriter, o: Outfit)
    modifies w
    ensures w.buf == old(w.buf) + OutfitBytes(o)
  {
    w.WriteU16(o.lookType);
    if o.lookType != 0 {
      w.WriteU8(o.head);
      w.WriteU8(o.body);
      w.WriteU8(o.legs);
      w.WriteU8(o.feet);
      w.WriteU8(o.addons);
    } else {
      w.WriteU16(0);
    }
    w.WriteU16(o.mount);
  }

  /** The marker, ids and (for an unknown creature) the name. */
  method AddHead(w: MessageWriter, v: CreatureView, known: bool, removeId: uint32)
    modifies w
    ensures w.buf == old(w.buf) + HeadBytes(v, known, removeId)
  {
    if known {
      w.WriteU16(KNOWN);
      w.WriteU32(v.id);
    } else {
      w.WriteU16(UNKNOWN);
      w.WriteU32(removeId);
      w.WriteU32(v.id);
      w.WriteU8(v.creatureType);
      w.WriteString(v.name);
    }
  }

  /** The fixed fields after the outfit. */
  method AddTail(w: MessageWriter, v: CreatureView, known: bool)
    modifies w
    ensures w.buf == old(w.buf) + TailBytes(v, known)
  {
    hide Le16;
    w.WriteU8(v.lightLevel);
    w.WriteU8(v.lightColor);
    w.WriteU16(v.speed / 2);
    w.WriteU8(0);  // skull
    w.WriteU8(0);  // party shield
    if !known {
      w.WriteU8(0);  // guild emblem
    }
    assert w.buf == old(w.buf) + ([v.lightLevel, v.lightColor] + Le16(v.speed / 2) + [0, 0] + (if known then [] else [0]));
    w.WriteU8(v.creatureType);
    w.WriteU8(0);  // speech bubble
    w.WriteU8(MARK_UNMARKED);
    w.WriteU16(0);  // helpers
    w.WriteU8(v.walkthrough);
  }

  method AddCreature(v: CreatureView, known: bool, removeId: uint32) returns (bytes: Bytes)
    ensures bytes == CreatureBytes(v, known, removeId)
  {
    hide HeadBytes, OutfitBytes, TailBytes;
    var w := new MessageWriter();
    AddHead(w, v, known, removeId);
    w.WriteU8(v.healthPercent);
    w.WriteU8(v.direction);
    AddOutfit(w, v.outfit);
    AddTail(w, v, known);
    return w.buf;
  }

  // ---------------------------------------------------------------------
  // Reading it back
  // ---------------------------------------------------------------------

  datatype Look =
    | Body(lookType: uint16, head: uint8, body: uint8, legs: uint8, feet: uint8, addons: uint8, mount: uint16)
    | ItemLook(itemId: uint16, mount: uint16)

  /** What a client learns from a creature thing. A known creature comes without its name. */
  datatype Thing = Thing(known: bool, removeId: uint32, id: uint32, name: Bytes, healthPercent: uint8,
                         direction: uint8, look: Look, lightLevel: uint8, lightColor: uint8, halfSpeed: uint16,
                         creatureType: uint8, walkthrough: uint8)

  function ReadLook(b: Bytes): Read<Look> {
    var (lookType, b) :- ReadU16(b);
    if lookType != 0 then
      var (head, b) :- ReadU8(b);
      var (body, b) :- ReadU8(b);
      var (legs, b) :- ReadU8(b);
      var (feet, b) :- ReadU8(b);
      var (addons, b) :- ReadU8(b);
      var (mount, b) :- ReadU16(b);
      Got(Body(lookType, head, body, legs, feet, addons, mount), b)
    else
      var (itemId, b) :- ReadU16(b);
      var (mount, b) :- ReadU16(b);
      Got(ItemLook(itemId, mount), b)
  }

  datatype Head = Head(known: bool, removeId: uint32, id: uint32, name: Bytes)

  function ReadHead(b: Bytes): Read<Head> {
    var (marker, b) :- ReadU16(b);
    if marker == KNOWN then
      var (id, b) :- ReadU32(b);
      Got(Head(true, 0, id, []), b)
    else if marker == UNKNOWN then
      var (removeId, b) :- ReadU32(b);
      var (id, b) :- ReadU32(b);
      var (_, b) :- ReadU8(b);
      var (len, b) :- ReadU16(b);
      var (name, b) :- ReadBytes(b, len);
      Got(Head(false, removeId, id, name), b)
    else Short
  }

  datatype Tail = Tail(lightLevel: uint8, lightColor: uint8, halfSpeed: uint16, creatureType: uint8, walkthrough: uint8)

  function ReadTail(b: Bytes, known: bool): Read<Tail> {
    var (lightLevel, b) :- ReadU8(b);
    var (lightColor, b) :- ReadU8(b);
    var (halfSpeed, b) :- ReadU16(b);
    var (_, b) :- ReadBytes(b, if known then 2 else 3);   // skull, party shield, guild emblem
    var (creatureType, b) :- ReadU8(b);
    var (_, b) :- ReadBytes(b, 4);                        // speech bubble, mark, helpers
    var (walkthrough, b) :- ReadU8(b);
    Got(Tail(lightLevel, lightColor, halfSpeed, creatureType, walkthrough), b)
  }

  function ReadCreature(b: Bytes): Read<Thing> {
    var (head, b) :- ReadHead(b);
    var (healthPercent, b) :- ReadU8(b);
    var (direction, b) :- ReadU8(b);
    var (look, b) :- ReadLook(b);
    var (tail, b) :- ReadTail(b, head.known);
    Got(Thing(head.known, head.removeId, head.id, head.name, healthPercent, direction, look, tail.lightLevel,
              tail.lightColor, tail.halfSpeed, tail.creatureType, tail.walkthrough), b)
  }

  function LookOf(o: Outfit): Look {
    if o.lookType != 0 then Body(o.lookType, o.head, o.body, o.legs, o.feet, o.addons, o.mount)
    else ItemLook(0, o.mount)
  }

  /** The part of a view that survives the wire. */
  function ThingOf(v: CreatureView, known: bool, removeId: uint32): Thing {
    Thing(known, if known then 0 else removeId, v.id, if known then [] else v.name, v.healthPercent, v.direction,
          LookOf(v.outfit), v.lightLevel, v.lightColor, v.speed / 2, v.creatureType, v.walkthrough)
  }

  lemma ReadLookBack(o: Outfit, rest: Bytes)
    ensures ReadLook(OutfitBytes(o) + rest) == Got(LookOf(o), rest)
  {
    hide Le16, ReadU16;
    var m := Le16(o.mount) + rest;
    ReadU16Back(o.mount, rest);
    if o.lookType != 0 {
      var colors := [o.head, o.body, o.legs, o.feet, o.addons];
      ReadU16Back(o.lookType, colors + m);
      assert OutfitBytes(o) + rest == Le16(o.lookType) + (colors + m);
      assert (colors + m)[1..][1..][1..][1..][1..] == m;
    } else {
      ReadU16Back(0, Le16(0) + m);
      ReadU16Back(0, m);
      assert OutfitBytes(o) + rest == Le16(0) + (Le16(0) + m);
    }
  }

  lemma ReadHeadBack(v: CreatureView, known: bool, removeId: uint32, rest: Bytes)
    requires |v.name| < 0x1_0000
    ensures ReadHead(HeadBytes(v, known, removeId) + rest)
         == Got(Head(known, if known then 0 else removeId, v.id, if known then [] else v.name), rest)
  {
    hide Le16, Le32, ReadU8, ReadU16, ReadU32, ReadBytes;
    if known {
      ReadU16Back(KNOWN, Le32(v.id) + rest);
      ReadU32Back(v.id, rest);
      assert HeadBytes(v, known, removeId) + rest == Le16(KNOWN) + (Le32(v.id) + rest);
    } else {
      var d := v.name + rest;
      var c := [v.creatureType] + (Le16(|v.name|) + d);
      var b := Le32(v.id) + c;
      var a := Le32(removeId) + b;
      assert HeadBytes(v, known, removeId) + rest == Le16(UNKNOWN) + a;
      ReadU16Back(UNKNOWN, a);
      ReadU32Back(removeId, b);
      ReadU32Back(v.id, c);
      ReadU8Back(v.creatureType, Le16(|v.name|) + d);
      ReadU16Back(|v.name|, d);
      ReadBytesBack(v.name, rest);
    }
  }

  lemma ReadTailBack(v: CreatureView, known: bool, rest: Bytes)
    ensures ReadTail(TailBytes(v, known) + rest, known)
         == Got(Tail(v.lightLevel, v.lightColor, v.speed / 2, v.creatureType, v.walkthrough), rest)
  {
    hide Le16, ReadU8, ReadU16, ReadBytes;
    var zeros: Bytes := [0, 0] + (if known then [] else [0]);
    var flags: Bytes := [0, MARK_UNMARKED] + Le16(0);
    var e := [v.walkthrough] + rest;
    var d := [v.creatureType] + (flags + e);
    var c := Le16(v.speed / 2) + (zeros + d);
    assert TailBytes(v, known) + rest == [v.lightLevel] + ([v.lightColor] + c);
    ReadU8Back(v.lightLevel, [v.lightColor] + c);
    ReadU8Back(v.lightColor, c);
    ReadU16Back(v.speed / 2, zeros + d);
    ReadBytesBack(zeros, d);
    ReadU8Back(v.creatureType, flags + e);
    ReadBytesBack(flags, e);
    ReadU8Back(v.walkthrough, rest);
  }

  /** A creature thing opens with its marker. */
  lemma CreatureMarker(v: CreatureView, known: bool, removeId: uint32, rest: Bytes)
    ensures var r := ReadU16(CreatureBytes(v, known, removeId) + rest);
            r.Got? && r.value == (if known then KNOWN else UNKNOWN)
    ensures |CreatureBytes(v, known, removeId)| > 0
  {
    hide Le32, OutfitBytes, TailBytes;
    var b := CreatureBytes(v, known, removeId) + rest;
    var marker := if known then KNOWN else UNKNOWN;
    assert HeadBytes(v, known, removeId)[..2] == Le16(marker);
    assert b[..2] == Le16(marker);
    assert b == Le16(marker) + b[2..];
    ReadU16Back(marker, b[2..]);
  }

  /** A creature thing delimits itself: whatever follows it, a client reads back exactly the fields
      that were sent and stops at its last byte. */
  lemma CreatureRoundTrip(v: CreatureView, known: bool, removeId: uint32, rest: Bytes)
    requires |v.name| < 0x1_0000
    ensures ReadCreature(CreatureBytes(v, known, removeId) + rest) == Got(ThingOf(v, known, removeId), rest)
  {
    hide Le16, Le32, HeadBytes, OutfitBytes, TailBytes, ReadHead, ReadLook, ReadTail, ReadU8, LookOf;
    var c := TailBytes(v, known) + rest;
    var b := OutfitBytes(v.outfit) + c;
    var a := [v.healthPercent] + ([v.direction] + b);
    assert CreatureBytes(v, known, removeId) + rest == HeadBytes(v, known, removeId) + a;
    ReadHeadBack(v, known, removeId, a);
    ReadU8Back(v.healthPercent, [v.direction] + b);
    ReadU8Back(v.direction, b);
    ReadLookBack(v.outfit, c);
    ReadTailBack(v, known, rest);
  }
}
