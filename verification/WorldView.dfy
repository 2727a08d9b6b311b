/** From map tiles to the client's screen: the chunks as the encoder's tile source (crates/world/src/map.rs), and
    what a client decodes of them. */
module WorldView {
  import opened World
  import opened Wire
  import opened TileStream
  import opened MapDescription
  import opened Client
  import opened Walk
  import opened WalkSync
  import opened TileStack
  import opened ChunkIndex
  import ItemDictionary
  import MapFile
  import WholeMap
  import opened NodeTree

  /** A stack split around the creature slot. */
  function Slices(s: Stack): TileSlices
    requires s.preCreatureLen <= |s.items|
  {
    TileSlices(s.items[..s.preCreatureLen], s.items[s.preCreatureLen..])
  }

  predicate InWorld(x: int, y: int, z: int) {
    0 <= x < 0x1_0000 && 0 <= y < 0x1_0000 && 0 <= z < 0x100
  }

  /** What a lookup's answer shows; a stack is never cut beyond its end. */
  function Shown(f: Facts): Option<TileSlices> {
    if f.stack.Some? && f.stack.value.preCreatureLen <= |f.stack.value.items| then Some(Slices(f.stack.value)) else None
  }

  /** Splitting a stack keeps its items, in order; the first `preCreatureLen` go below a creature. */
  lemma SlicesMean(s: Stack)
    requires s.preCreatureLen <= |s.items|
    ensures Slices(s).preCreature + Slices(s).postCreature == s.items && |Slices(s).preCreature| == s.preCreatureLen
  {
  }

  /** The tile source the chunks are. */
  function SceneOf(cs: Chunks, creatures: seq<PlacedCreature>): Scene {
    Scene((x, y, z) => if InWorld(x, y, z) then Shown(LookupIn(cs, Position(x, y, z))) else None, creatures)
  }

  /** The reference: what the tile list shows at a place. */
  function SeenAt(types: ItemTypes, tiles: seq<MapTile>, creatures: seq<PlacedCreature>, t: Tile): Cell {
    if !InWorld(t.0, t.1, t.2) then None
    else
      match Shown(FactsAt(types, tiles, PositionOf, Position(t.0, t.1, t.2)))
      case None => None
      case Some(s) => Some(Things(s, creatures, t.0, t.1, t.2))
  }

  /** What that is, item by item: of the last tile at the place that has a stack, the items below a creature, then
      exactly the creatures that stand there, then the rest of the stack up to ten things. */
  lemma SeenMeans(types: ItemTypes, tiles: seq<MapTile>, creatures: seq<PlacedCreature>, p: Position, i: nat)
    returns (who: seq<nat>)
    requires IsLast(tiles, p, i, (t: MapTile) => StackOf(types, t.items).Some?)
    ensures AreAt(who, creatures, p.x, p.y, p.z)
    ensures SeenAt(types, tiles, creatures, (p.x, p.y, p.z)).Some?
    ensures var s, things := StackOf(types, tiles[i].items).value, SeenAt(types, tiles, creatures, (p.x, p.y, p.z)).value;
            var below, rest, later := s.preCreatureLen, |s.items| - s.preCreatureLen, s.items[s.preCreatureLen..];
            var front := below + |who|;
            var above := if front >= 10 then 0 else if front + rest > 10 then 10 - front else rest;
            && below <= |s.items| <= 10 && |things| == front + above
            && (forall k :: 0 <= k < below ==> things[k] == Item(s.items[k]))
            && (forall k :: 0 <= k < |who| ==> things[below + k] == Being(creatures[who[k]].bytes))
            && (forall k :: 0 <= k < above ==> things[front + k] == Item(later[k]))
  {
    hide StackOf, FactsAt, CellAt, Things;
    LastStackShows(types, tiles, p, i);
    StackAligned(types, tiles[i].items) by {
      StackHasGround(types, tiles[i].items);
    }
    var s := StackOf(types, tiles[i].items).value;
    var sc := Scene((x, y, z) => Some(Slices(s)), creatures);
    who := CellShows(sc, p.x, p.y, p.z);
    assert CellAt(sc, p.x, p.y, p.z) == Some(Things(Slices(s), creatures, p.x, p.y, p.z)) by {
      CellIsThings(sc, p.x, p.y, p.z);
    }
  }

  lemma StackHasGround(types: ItemTypes, items: seq<MapItem>)
    requires StackOf(types, items).Some?
    ensures items != [] && items[0].id in types
  {
  }

  lemma CellIsThings(sc: Scene, x: int, y: int, z: int)
    requires sc.tile(x, y, z).Some?
    ensures CellAt(sc, x, y, z) == Some(Things(sc.tile(x, y, z).value, sc.creatures, x, y, z))
  {
  }

  /** Where no tile has a stack nothing is seen, not even creatures. */
  lemma NothingSeen(types: ItemTypes, tiles: seq<MapTile>, creatures: seq<PlacedCreature>, p: Position)
    requires forall i :: 0 <= i < |tiles| && LiesAt(tiles[i], p) ==> StackOf(types, tiles[i].items).None?
    ensures SeenAt(types, tiles, creatures, (p.x, p.y, p.z)) == None
  {
    hide StackOf, Vertical, Solid, Things;
    MarksAccumulate(types, tiles, PositionOf, p);
  }

  // ---------------------------------------------------------------------
  // Stacks only hold what the dictionary can make
  // ---------------------------------------------------------------------

  /** The client's catalogue agrees with the dictionary on every item's optional bytes. */
  ghost predicate Agrees(cat: Catalogue, types: ItemTypes) {
    forall id :: id in types ==>
      var t := types[id];
      && t.clientId < MARKER && t.clientId != Creature.KNOWN && t.clientId != Creature.UNKNOWN
      && cat(t.clientId) == ItemKind(t.IsStackable() || t.IsFluidOrSplash(), t.IsAnimated())
  }

  ghost predicate AllOk(cat: Catalogue, s: seq<(uint8, Entry)>) {
    forall i :: 0 <= i < |s| ==> ItemOk(cat, s[i].1.wire)
  }

  lemma EntryIsOk(cat: Catalogue, types: ItemTypes, i: MapItem)
    requires Agrees(cat, types) && i.id in types
    ensures ItemOk(cat, EntryOf(types, i).wire)
  {
  }

  lemma {:induction false} PickedOk(cat: Catalogue, types: ItemTypes, items: seq<MapItem>, onTop: bool)
    requires Agrees(cat, types)
    ensures AllOk(cat, Picked(types, items, onTop))
  {
    hide ItemOk, EntryOf, Agrees;
    if items != [] {
      PickedOk(cat, types, items[..|items| - 1], onTop);
      if items[|items| - 1].id in types {
        EntryIsOk(cat, types, items[|items| - 1]);
      }
    }
  }

  lemma {:induction false} InsertOk(cat: Catalogue, s: seq<(uint8, Entry)>, e: (uint8, Entry))
    requires AllOk(cat, s) && ItemOk(cat, e.1.wire)
    ensures AllOk(cat, Insert(s, e))
  {
    hide ItemOk;
    if s != [] && s[|s| - 1].0 > e.0 {
      InsertOk(cat, s[..|s| - 1], e);
    }
  }

  lemma {:induction false} SortOk(cat: Catalogue, s: seq<(uint8, Entry)>)
    requires AllOk(cat, s)
    ensures AllOk(cat, SortByOrder(s))
  {
    hide ItemOk, Insert;
    if s != [] {
      SortOk(cat, s[..|s| - 1]);
      InsertOk(cat, SortByOrder(s[..|s| - 1]), s[|s| - 1]);
    }
  }

  ghost predicate StackIsOk(cat: Catalogue, s: Stack) {
    s.preCreatureLen <= |s.items| <= MAX_TILE_THINGS && forall i :: 0 <= i < |s.items| ==> ItemOk(cat, s.items[i])
  }

  lemma StackOfOk(cat: Catalogue, types: ItemTypes, items: seq<MapItem>)
    requires Agrees(cat, types) && StackOf(types, items).Some?
    ensures StackIsOk(cat, StackOf(types, items).value)
  {
    hide ItemOk, EntryOf, Picked, SortByOrder, Agrees;
    EntryIsOk(cat, types, items[0]);
    var top, down := Picked(types, items[1..], true), Picked(types, items[1..], false);
    PickedOk(cat, types, items[1..], true);
    PickedOk(cat, types, items[1..], false);
    SortOk(cat, top);
    var full := FullStack(types, items);
    forall i | 0 <= i < |full| ensures ItemOk(cat, full[i].wire) {
      if 0 < i <= |top| {
        assert full[i] == SortByOrder(top)[i - 1].1;
      } else if |top| < i {
        assert full[i] == down[i - 1 - |top|].1;
      }
    }
  }

  lemma {:induction false} FactsOk(cat: Catalogue, types: ItemTypes, tiles: seq<MapTile>, p: Position)
    requires Agrees(cat, types) && FactsAt(types, tiles, PositionOf, p).stack.Some?
    ensures StackIsOk(cat, FactsAt(types, tiles, PositionOf, p).stack.value)
  {
    hide Agrees, StackIsOk, StackOf, Vertical, Solid;
    if tiles != [] {
      var front, t := tiles[..|tiles| - 1], tiles[|tiles| - 1];
      if PositionOf(t) == p && StackOf(types, t.items).Some? {
        StackOfOk(cat, types, t.items);
      } else {
        FactsOk(cat, types, front, p);
      }
    }
  }

  // ---------------------------------------------------------------------
  // Things
  // ---------------------------------------------------------------------

  lemma {:induction false} ItemsOk(cat: Catalogue, items: seq<WireItem>, n: int)
    requires forall i :: 0 <= i < |items| ==> ItemOk(cat, items[i])
    ensures forall i :: 0 <= i < |Items(items, n)| ==> ThingOk(cat, Items(items, n)[i])
  {
    hide ItemOk;
    if n > 0 && items != [] {
      ItemsOk(cat, items[1..], n - 1);
    }
  }

  lemma {:induction false} CreaturesOk(cat: Catalogue, cs: seq<PlacedCreature>, x: int, y: int, z: int)
    requires forall i :: 0 <= i < |cs| ==> CreatureOk(cs[i].bytes)
    ensures forall i :: 0 <= i < |CreaturesAt(cs, x, y, z)| ==> ThingOk(cat, CreaturesAt(cs, x, y, z)[i])
  {
    hide CreatureOk;
    if cs != [] {
      CreaturesOk(cat, cs[1..], x, y, z);
    }
  }

  lemma ThingsOk(cat: Catalogue, s: Stack, cs: seq<PlacedCreature>, x: int, y: int, z: int)
    requires StackIsOk(cat, s) && forall i :: 0 <= i < |cs| ==> CreatureOk(cs[i].bytes)
    ensures CellOk(cat, Some(Things(Slices(s), cs, x, y, z)))
  {
    hide ItemOk, CreatureOk, ThingOk, Items, CreaturesAt;
    var slices := Slices(s);
    ItemsOk(cat, slices.preCreature, 10);
    CreaturesOk(cat, cs, x, y, z);
    var front := Items(slices.preCreature, 10) + CreaturesAt(cs, x, y, z);
    ItemsOk(cat, slices.postCreature, 10 - |front|);
  }

  function AsThings(items: seq<WireItem>): seq<TileThing> {
    seq(|items|, i requires 0 <= i < |items| => Item(items[i]))
  }

  lemma {:induction false} ItemsAll(items: seq<WireItem>, n: int)
    requires |items| <= n
    ensures Items(items, n) == AsThings(items)
  {
    if items != [] {
      ItemsAll(items[1..], n - 1);
      assert AsThings(items) == [Item(items[0])] + AsThings(items[1..]);
    }
  }

  /** Where no creature stands, the whole stack is shown, in order: the cap of ten never cuts a built stack. */
  lemma WholeStackShown(cat: Catalogue, s: Stack, cs: seq<PlacedCreature>, x: int, y: int, z: int)
    requires StackIsOk(cat, s) && CreaturesAt(cs, x, y, z) == []
    ensures Things(Slices(s), cs, x, y, z) == AsThings(s.items)
  {
    var slices := Slices(s);
    ItemsAll(slices.preCreature, 10);
    ItemsAll(slices.postCreature, 10 - |slices.preCreature|);
    assert AsThings(s.items) == AsThings(slices.preCreature) + AsThings(slices.postCreature);
    assert Items(slices.preCreature, 10) + [] == Items(slices.preCreature, 10);
  }

  // ---------------------------------------------------------------------
  // The whole way
  // ---------------------------------------------------------------------

  /** The chunks answer as the tile list does: what both builds guarantee. */
  ghost predicate Answers(cs: Chunks, types: ItemTypes, tiles: seq<MapTile>) {
    forall p :: LookupIn(cs, p) == FactsAt(types, tiles, PositionOf, p)
  }

  lemma SceneShowsTiles(cat: Catalogue, cs: Chunks, types: ItemTypes, tiles: seq<MapTile>,
                        creatures: seq<PlacedCreature>, t: Tile)
    requires Answers(cs, types, tiles) && Agrees(cat, types)
    requires forall i :: 0 <= i < |creatures| ==> CreatureOk(creatures[i].bytes)
    ensures CellAt(SceneOf(cs, creatures), t.0, t.1, t.2) == SeenAt(types, tiles, creatures, t)
    ensures CellOk(cat, SeenAt(types, tiles, creatures, t))
  {
    hide LookupIn, FactsAt, Things, Agrees, CreatureOk, ThingOk;
    if InWorld(t.0, t.1, t.2) {
      var p := Position(t.0, t.1, t.2);
      assert LookupIn(cs, p) == FactsAt(types, tiles, PositionOf, p);
      if FactsAt(types, tiles, PositionOf, p).stack.Some? {
        var s := FactsAt(types, tiles, PositionOf, p).stack.value;
        FactsOk(cat, types, tiles, p);
        ThingsOk(cat, s, creatures, t.0, t.1, t.2);
      }
    }
  }

  lemma SceneIsOk(cat: Catalogue, cs: Chunks, types: ItemTypes, tiles: seq<MapTile>, creatures: seq<PlacedCreature>)
    requires Answers(cs, types, tiles) && Agrees(cat, types)
    requires forall i :: 0 <= i < |creatures| ==> CreatureOk(creatures[i].bytes)
    ensures SceneOk(cat, SceneOf(cs, creatures))
  {
    hide Answers, Agrees, CreatureOk, SceneOf, SeenAt, CellAt, CellOk;
    forall x, y, z ensures CellOk(cat, CellAt(SceneOf(cs, creatures), x, y, z)) {
      SceneShowsTiles(cat, cs, types, tiles, creatures, (x, y, z));
    }
  }

  /** The scene at every stop: the chunks, and the creatures of that moment. */
  function ScenesOf(cs: Chunks, creatures: seq<seq<PlacedCreature>>): (scenes: seq<Scene>)
    ensures |scenes| == |creatures|
    ensures forall i :: 0 <= i < |creatures| ==> scenes[i] == SceneOf(cs, creatures[i])
  {
    seq(|creatures|, i requires 0 <= i < |creatures| => SceneOf(cs, creatures[i]))
  }

  ghost predicate AllCreaturesOk(creatures: seq<PlacedCreature>) {
    forall i :: 0 <= i < |creatures| ==> CreatureOk(creatures[i].bytes)
  }

  /** With the `i`-th step, someone on `t` came, went or changed. */
  predicate CameOrWent(creatures: seq<seq<PlacedCreature>>, i: nat, t: Tile)
    requires i + 1 < |creatures|
  {
    CreaturesAt(creatures[i], t.0, t.1, t.2) != CreaturesAt(creatures[i + 1], t.0, t.1, t.2)
  }

  /** Someone on `t` came, went or changed with some step, and `t` has been in view all the time since. */
  ghost predicate StaleCreatures(id: uint32, stops: seq<Position>, creatures: seq<seq<PlacedCreature>>, t: Tile)
    requires |creatures| == |stops|
  {
    exists i: nat :: i < |stops| - 1 && CameOrWent(creatures, i, t) && StayedSince(id, stops, i, t)
  }

  /** The map itself never changes, so a tile is stale only for its creatures. */
  lemma OnlyCreaturesStale(id: uint32, stops: seq<Position>, cs: Chunks, creatures: seq<seq<PlacedCreature>>, t: Tile)
    requires |creatures| == |stops| && Stale(id, stops, ScenesOf(cs, creatures), t)
    ensures StaleCreatures(id, stops, creatures, t)
  {
    hide StayedSince, Items, LookupIn, CreaturesAt;
    var scenes := ScenesOf(cs, creatures);
    var i: nat :| i < |stops| - 1 && StayedSince(id, stops, i, t)
      && CellAt(scenes[i], t.0, t.1, t.2) != CellAt(scenes[i + 1], t.0, t.1, t.2);
    assert CameOrWent(creatures, i, t);
  }

  lemma ScenesAreOk(cat: Catalogue, cs: Chunks, types: ItemTypes, tiles: seq<MapTile>,
                    creatures: seq<seq<PlacedCreature>>)
    requires Answers(cs, types, tiles) && Agrees(cat, types)
    requires forall i :: 0 <= i < |creatures| ==> AllCreaturesOk(creatures[i])
    ensures ScenesOk(cat, ScenesOf(cs, creatures))
  {
    hide Answers, Agrees, CreatureOk, SceneOf, SceneOk;
    var scenes := ScenesOf(cs, creatures);
    forall i | 0 <= i < |scenes| ensures SceneOk(cat, scenes[i]) {
      assert AllCreaturesOk(creatures[i]);
      SceneIsOk(cat, cs, types, tiles, creatures[i]);
    }
  }

  /** Login at the first stop, then the updates of the journey. */
  function LoginAndJourney(cat: Catalogue, v: View, id: uint32, stops: seq<Position>, scenes: seq<Scene>): Option<View>
    requires |scenes| == |stops| > 0
  {
    match Receive(cat, v, MapPacket(stops[0].x, stops[0].y, stops[0].z, scenes[0]))
    case None => None
    case Some(v') => Journey(cat, v', id, stops, scenes)
  }

  /** From the tiles of a map file to the client: a client that receives the full map of a chunked world, built
      either way, at the first of `stops` and then the updates of the journey, ends centred on the last stop and
      knows on every tile in view what the tile list and the creatures of that moment show, except where someone came,
      went or changed and the tile has been in view all the time since. */
  lemma ClientSeesMapFile(cat: Catalogue, cs: Chunks, types: ItemTypes, tiles: seq<MapTile>,
                          creatures: seq<seq<PlacedCreature>>, id: uint32, stops: seq<Position>, v: View)
    requires Answers(cs, types, tiles) && Agrees(cat, types) && JourneyOk(stops)
    requires |creatures| == |stops| && forall i :: 0 <= i < |creatures| ==> AllCreaturesOk(creatures[i])
    ensures Sees(cat, cs, types, tiles, creatures, id, stops, v)
  {
    hide Answers, Agrees, AllCreaturesOk, SceneOf, SeenAt, CellAt, InView, MapPacket, ReceiveOne, Receive, Journey,
      SceneOk, JourneyOk, Stale, StaleCreatures;
    StopsOnMap(stops);
    var scenes, last := ScenesOf(cs, creatures), |stops| - 1;
    ScenesAreOk(cat, cs, types, tiles, creatures);
    LoginSyncs(cat, v, stops[0], scenes[0]);
    var login := Receive(cat, v, MapPacket(stops[0].x, stops[0].y, stops[0].z, scenes[0])).value;
    JourneySyncs(cat, login, id, stops, scenes);
    forall t | InView(CenterOf(stops[last]), t)
      ensures CellAt(scenes[last], t.0, t.1, t.2) == SeenAt(types, tiles, creatures[last], t)
      ensures t in StaleTiles(id, stops, scenes) ==> StaleCreatures(id, stops, creatures, t)
    {
      AllOf(creatures[last]);
      SceneShowsTiles(cat, cs, types, tiles, creatures[last], t);
      if Stale(id, stops, scenes, t) {
        OnlyCreaturesStale(id, stops, cs, creatures, t);
      }
    }
  }

  ghost predicate Sees(cat: Catalogue, cs: Chunks, types: ItemTypes, tiles: seq<MapTile>,
                       creatures: seq<seq<PlacedCreature>>, id: uint32, stops: seq<Position>, v: View)
    requires |creatures| == |stops| > 0
  {
    var r, last := LoginAndJourney(cat, v, id, stops, ScenesOf(cs, creatures)), |stops| - 1;
    && r.Some? && r.value.center == CenterOf(stops[last])
    && forall t :: InView(CenterOf(stops[last]), t) && !StaleCreatures(id, stops, creatures, t) ==>
         t in r.value.known && r.value.known[t] == SeenAt(types, tiles, creatures[last], t)
  }

  lemma AllOf(creatures: seq<PlacedCreature>)
    requires AllCreaturesOk(creatures)
    ensures forall i :: 0 <= i < |creatures| ==> CreatureOk(creatures[i].bytes)
  {
  }

  lemma StopsOnMap(stops: seq<Position>)
    requires JourneyOk(stops)
    ensures stops != [] && stops[0].z <= 15
  {
  }

  /** Whatever the client knew, the login map leaves nothing stale. */
  lemma LoginSyncs(cat: Catalogue, v: View, at: Position, sc: Scene)
    requires SceneOk(cat, sc) && at.z <= 15
    ensures var r := Receive(cat, v, MapPacket(at.x, at.y, at.z, sc));
            r.Some? && r.value.center == CenterOf(at) && InSync(r.value, sc, iset{})
  {
    hide SceneOk, Receive, MapPacket, InView, CellAt;
    var all := iset t | InView(v.center, t);
    OneMap(at, sc);
    assert InSync(v, sc, all);
    PacketsSync(cat, v, [FullMap(at)], sc, all);
    assert StaleAfter(v.center, [FullMap(at)], all) == iset{};
  }

  /** The bytes of an item dictionary and of a map parse to the types and tiles they were written from. */
  lemma FilesParse(identifier: Bytes, kind: uint8, flags: uint32, len: uint16, version: ItemDictionary.Version,
                   padding: Bytes, rich: seq<ItemDictionary.RichType>, mapIdentifier: Bytes, richMap: WholeMap.RichMap,
                   suffix: Bytes)
    requires |identifier| == |mapIdentifier| == 4 && WholeMap.MapOk(richMap) && TypesOk(rich)
    ensures var dictionary := ItemDictionary.Dictionary(
              ItemDictionary.FileBytes(identifier, kind, flags, len, version, padding, rich) + suffix);
            dictionary.Ok? && dictionary.value.items == ItemDictionary.PlainTypes(rich)
    ensures var worldMap := WholeMap.MapOf(WholeMap.FileBytes(mapIdentifier, richMap) + suffix);
            worldMap.Ok? && worldMap.value.tiles == WholeMap.TilesOf(richMap.sections)
  {
    hide ItemDictionary.Dictionary, ItemDictionary.FileBytes, ItemDictionary.PlainTypes, WholeMap.MapOf,
      WholeMap.FileBytes, WholeMap.PlainMap, WholeMap.SectionOk;
    ItemDictionary.DictionaryRoundTrip(identifier, kind, flags, len, version, padding, rich, suffix);
    WholeMap.MapRoundTrip(mapIdentifier, richMap, suffix);
    WholeMap.MapTiles(richMap);
  }

  ghost predicate TypesOk(rich: seq<ItemDictionary.RichType>) {
    forall k :: 0 <= k < |rich| ==> ItemDictionary.TypeOk(rich[k])
  }

  /** What a client sees, given the two files as parsed: the types by id with the floor changes of `items.xml` merged
      in, and the tiles of the map. */
  ghost predicate FilesSeen(dictionary: Result<ItemDictionary.ItemsOtb>, worldMap: Result<WholeMap.OtbmMap>,
                            xml: uint16 -> set<FloorFlag>, cat: Catalogue, cs: Chunks,
                            creatures: seq<seq<PlacedCreature>>, id: uint32, stops: seq<Position>, v: View)
    requires |creatures| == |stops| > 0
  {
    && dictionary.Ok? && worldMap.Ok?
    && (var types, tiles := ItemDictionary.ById(ItemDictionary.Merged(dictionary.value.items, xml)), worldMap.value.tiles;
        Answers(cs, types, tiles) && Agrees(cat, types) ==> Sees(cat, cs, types, tiles, creatures, id, stops, v))
  }

  /** The whole way from the bytes of the files: whatever chunks answer for the parsed map, a client sees it. */
  lemma FilesToScreen(identifier: Bytes, kind: uint8, flags: uint32, len: uint16, version: ItemDictionary.Version,
                      padding: Bytes, rich: seq<ItemDictionary.RichType>, mapIdentifier: Bytes,
                      richMap: WholeMap.RichMap, suffix: Bytes, xml: uint16 -> set<FloorFlag>, cat: Catalogue, cs: Chunks,
                      creatures: seq<seq<PlacedCreature>>, id: uint32, stops: seq<Position>, v: View)
    requires |identifier| == |mapIdentifier| == 4 && WholeMap.MapOk(richMap) && TypesOk(rich)
    requires JourneyOk(stops) && |creatures| == |stops| > 0
    requires forall i :: 0 <= i < |creatures| ==> AllCreaturesOk(creatures[i])
    ensures FilesSeen(ItemDictionary.Dictionary(
                        ItemDictionary.FileBytes(identifier, kind, flags, len, version, padding, rich) + suffix),
                      WholeMap.MapOf(WholeMap.FileBytes(mapIdentifier, richMap) + suffix),
                      xml, cat, cs, creatures, id, stops, v)
  {
    hide Answers, Agrees, AllCreaturesOk, JourneyOk, Sees, TypesOk, ItemDictionary.Dictionary, ItemDictionary.FileBytes,
      ItemDictionary.PlainTypes, ItemDictionary.ById, ItemDictionary.Merged, WholeMap.MapOf, WholeMap.FileBytes,
      WholeMap.SectionOk, WholeMap.TilesOf;
    FilesParse(identifier, kind, flags, len, version, padding, rich, mapIdentifier, richMap, suffix);
    var types := ItemDictionary.ById(ItemDictionary.Merged(ItemDictionary.PlainTypes(rich), xml));
    var tiles := WholeMap.TilesOf(richMap.sections);
    if Answers(cs, types, tiles) && Agrees(cat, types) {
      ClientSeesMapFile(cat, cs, types, tiles, creatures, id, stops, v);
    }
  }

  lemma OneMap(at: Position, sc: Scene)
    requires at.z <= 15
    ensures AllBytes([FullMap(at)], sc) == MapPacket(at.x, at.y, at.z, sc)
    ensures forall c :: AllMatch(c, [FullMap(at)]) && FinalCenter(c, [FullMap(at)]) == CenterOf(at)
    ensures [FullMap(at)][0].FullMap?
  {
    AllBytesOfOne(FullMap(at), sc);
    forall c ensures AllMatch(c, [FullMap(at)]) && FinalCenter(c, [FullMap(at)]) == CenterOf(at) {
      assert [FullMap(at)][1..] == [];
      assert AllMatch(CenterOf(at), []) && FinalCenter(CenterOf(at), []) == CenterOf(at);
    }
  }
}
