/** What a client makes of a walk update: it ends centred on the new position and in sync with the
    server over the whole new viewport, although only a few stripes were sent. */
module WalkSync {
  import opened World
  import opened Wire
  import opened TileStream
  import opened MapDescription
  import opened Client
  import opened Walk

  function CenterOf(p: Position): Center {
    Center(p.x, p.y, p.z)
  }

  /** The client's centre after a packet. */
  function NextCenter(c: Center, p: Packet): Center {
    match p
    case Move(_, _) => c
    case Remove(_) => c
    case FullMap(at) => CenterOf(at)
    case Up(_) => Center(c.x + 1, c.y + 1, c.z - 1)
    case Down(_) => Center(c.x - 1, c.y - 1, c.z + 1)
    case Slice(opcode, _, _, _, _, _) => Shift(opcode, c)
  }

  /** Where the client has the creatures it was told of by id, after a packet. */
  function NextPlaced(placed: map<uint32, Position>, p: Packet): map<uint32, Position> {
    match p
    case Move(id, to) => placed[id := to]
    case Remove(id) => placed - {id}
    case _ => placed
  }

  function FinalPlaced(placed: map<uint32, Position>, ps: seq<Packet>): map<uint32, Position>
    decreases |ps|
  {
    if ps == [] then placed else FinalPlaced(NextPlaced(placed, ps[0]), ps[1..])
  }

  function FinalCenter(c: Center, ps: seq<Packet>): Center
    decreases |ps|
  {
    if ps == [] then c else FinalCenter(NextCenter(c, ps[0]), ps[1..])
  }

  /** The packet carries exactly the tiles a client centred at `c` is going to read from it. */
  ghost predicate Matches(c: Center, p: Packet) {
    match p
    case Move(_, _) => true
    case Remove(_) => true
    case FullMap(at) => at.z <= 15
    case Up(revealed) => 1 <= c.z <= 15 && revealed == RevealTiles(c, RevealedUp(c.z - 1))
    case Down(revealed) => 0 <= c.z < 15 && revealed == RevealTiles(c, RevealedDown(c.z + 1))
    case Slice(opcode, ax, ay, z, w, h) =>
      && IsSlice(opcode) && 0 <= c.z <= 15
      && MapTiles(ax, ay, z, Floors(z), w, h) == SliceTiles(opcode, Shift(opcode, c))
  }

  ghost predicate AllMatch(c: Center, ps: seq<Packet>)
    decreases |ps|
  {
    ps == [] || (Matches(c, ps[0]) && AllMatch(NextCenter(c, ps[0]), ps[1..]))
  }

  /** `t` is in view before and after every packet, and no full map comes. */
  predicate StaysInView(c: Center, ps: seq<Packet>, t: Tile)
    decreases |ps|
  {
    InView(c, t) && (ps == [] || (!ps[0].FullMap? && StaysInView(NextCenter(c, ps[0]), ps[1..], t)))
  }

  /** The stale tiles that are still stale after the packets: the others have left the view, or have been sent. */
  ghost function StaleAfter(c: Center, ps: seq<Packet>, stale: iset<Tile>): iset<Tile> {
    iset t | t in stale && StaysInView(c, ps, t)
  }

  ghost function StaleAfterOne(c: Center, p: Packet, stale: iset<Tile>): iset<Tile> {
    iset t | t in stale && !p.FullMap? && InView(c, t) && InView(NextCenter(c, p), t)
  }

  // ---------------------------------------------------------------------
  // One packet
  // ---------------------------------------------------------------------

  /** A client that receives a matching packet shifts its centre, stays in sync, and stops exactly at the end of the
      packet. Of the tiles it had wrong it keeps only those in view all the time; a full map leaves none. */
  lemma PacketSyncs(cat: Catalogue, v: View, p: Packet, sc: Scene, stale: iset<Tile>, rest: Bytes) returns (v': View)
    requires SceneOk(cat, sc) && Matches(v.center, p) && InSync(v, sc, stale)
    ensures PacketBytes(p, sc) != [] && ReceiveOne(cat, v, PacketBytes(p, sc) + rest) == Got(v', rest)
    ensures v'.center == NextCenter(v.center, p) && v'.placed == NextPlaced(v.placed, p)
    ensures InSync(v', sc, StaleAfterOne(v.center, p, stale))
  {
    hide InSync, InView, ReceiveOne, Learns, SceneOk, MapTiles, Floors, RevealTiles, SliceTiles, Stream, Cells, MapPacket, Le16,
      Le32;
    match p
    case Move(_, _) =>
      v' := v.(placed := NextPlaced(v.placed, p));
      MoveReceived(cat, v, p, sc, rest);
      HeaderKeepsSync(v, v', p, sc, stale);
    case Remove(_) =>
      v' := v.(placed := NextPlaced(v.placed, p));
      RemoveReceived(cat, v, p, sc, rest);
      HeaderKeepsSync(v, v', p, sc, stale);
    case FullMap(at) =>
      v' := FullMapSyncs(cat, v, at, sc, rest);
      NothingStale(v.center, p, stale);
    case Up(revealed) =>
      v' := StreamSyncs(cat, v, OP_FLOOR_CHANGE_UP, revealed, NextCenter(v.center, p), sc, rest);
      forall t | InView(v'.center, t) ensures InView(v.center, t) || t in revealed {
        UpCovers(v.center, t);
      }
      IncrementKeepsSync(v, v', p, revealed, sc, stale);
    case Down(revealed) =>
      v' := StreamSyncs(cat, v, OP_FLOOR_CHANGE_DOWN, revealed, NextCenter(v.center, p), sc, rest);
      forall t | InView(v'.center, t) ensures InView(v.center, t) || t in revealed {
        DownCovers(v.center, t);
      }
      IncrementKeepsSync(v, v', p, revealed, sc, stale);
    case Slice(opcode, ax, ay, z, w, h) =>
      var tiles := MapTiles(ax, ay, z, Floors(z), w, h);
      v' := StreamSyncs(cat, v, opcode, tiles, NextCenter(v.center, p), sc, rest);
      forall t | InView(v'.center, t) ensures InView(v.center, t) || t in tiles {
        SliceCovers(opcode, v.center, t);
      }
      IncrementKeepsSync(v, v', p, tiles, sc, stale);
  }

  lemma HeaderKeepsSync(v: View, v': View, p: Packet, sc: Scene, stale: iset<Tile>)
    requires InSync(v, sc, stale) && (p.Move? || p.Remove?) && v'.center == v.center && v'.known == v.known
    ensures InSync(v', sc, StaleAfterOne(v.center, p, stale))
  {
  }

  lemma NothingStale(c: Center, p: Packet, stale: iset<Tile>)
    requires p.FullMap?
    ensures StaleAfterOne(c, p, stale) == iset{}
  {
  }

  lemma IncrementKeepsSync(v: View, v': View, p: Packet, tiles: seq<Tile>, sc: Scene, stale: iset<Tile>)
    requires Learns(v.known, v'.known, tiles, sc) && InSync(v, sc, stale)
    requires v'.center == NextCenter(v.center, p) && !p.FullMap?
    requires forall t :: InView(v'.center, t) ==> InView(v.center, t) || t in tiles
    ensures InSync(v', sc, StaleAfterOne(v.center, p, stale))
  {
    hide InView;
    LearningKeepsSync(v, v', tiles, sc, stale);
    assert StaleAfterOne(v.center, p, stale) == iset t | t in stale && InView(v.center, t) && InView(v'.center, t);
  }

  lemma IdReceived(id: uint32, rest: Bytes)
    ensures ReadId(Le16(BY_ID) + (Le32(id) + rest)) == Got(id, rest)
  {
    hide Le16, Le32, ReadU16, ReadU32;
    ReadU16Back(BY_ID, Le32(id) + rest);
    ReadU32Back(id, rest);
  }

  lemma MoveReceived(cat: Catalogue, v: View, p: Packet, sc: Scene, rest: Bytes)
    requires p.Move?
    ensures PacketBytes(p, sc) != []
    ensures ReceiveOne(cat, v, PacketBytes(p, sc) + rest) == Got(v.(placed := v.placed[p.id := p.to]), rest)
  {
    hide Le16, Le32, ReadU8, ReadU16, ReadId;
    var d := [p.to.z] + rest;
    var c := Le16(p.to.y) + d;
    var b := Le16(p.to.x) + c;
    var a := Le16(BY_ID) + (Le32(p.id) + b);
    assert PacketBytes(p, sc) + rest == [OP_CREATURE_MOVE] + a;
    ReadU8Back(OP_CREATURE_MOVE, a);
    IdReceived(p.id, b);
    ReadU16Back(p.to.x, c);
    ReadU16Back(p.to.y, d);
    ReadU8Back(p.to.z, rest);
  }

  lemma RemoveReceived(cat: Catalogue, v: View, p: Packet, sc: Scene, rest: Bytes)
    requires p.Remove?
    ensures PacketBytes(p, sc) != []
    ensures ReceiveOne(cat, v, PacketBytes(p, sc) + rest) == Got(v.(placed := v.placed - {p.id}), rest)
  {
    hide Le16, Le32, ReadU8, ReadU16, ReadId;
    var a := Le16(BY_ID) + (Le32(p.id) + rest);
    assert PacketBytes(p, sc) + rest == [OP_REMOVE_TILE_THING] + a;
    ReadU8Back(OP_REMOVE_TILE_THING, a);
    IdReceived(p.id, rest);
  }

  /** Opcode and tile stream, for the three kinds of incremental packet. */
  lemma StreamSyncs(cat: Catalogue, v: View, opcode: uint8, tiles: seq<Tile>, next: Center, sc: Scene, rest: Bytes)
    returns (v': View)
    requires SceneOk(cat, sc)
    requires || (opcode == OP_FLOOR_CHANGE_UP && tiles == RevealTiles(v.center, RevealedUp(v.center.z - 1))
                 && next == Center(v.center.x + 1, v.center.y + 1, v.center.z - 1))
             || (opcode == OP_FLOOR_CHANGE_DOWN && tiles == RevealTiles(v.center, RevealedDown(v.center.z + 1))
                 && next == Center(v.center.x - 1, v.center.y - 1, v.center.z + 1))
             || (IsSlice(opcode) && next == Shift(opcode, v.center) && tiles == SliceTiles(opcode, next))
    ensures ReceiveOne(cat, v, [opcode] + Stream(Cells(sc, tiles), -1) + rest) == Got(v', rest)
    ensures v'.center == next && v'.placed == v.placed && Learns(v.known, v'.known, tiles, sc)
  {
    hide ReadTiles, Stream, Cells, RevealTiles, SliceTiles, Learns, Store;
    ReadTilesBack(cat, v.known, tiles, sc, rest);
    var b := Stream(Cells(sc, tiles), -1) + rest;
    v' := v.(center := next, known := Store(v.known, tiles, Cells(sc, tiles)));
    assert [opcode] + Stream(Cells(sc, tiles), -1) + rest == [opcode] + b;
    ReadU8Back(opcode, b);
  }

  lemma FullMapSyncs(cat: Catalogue, v: View, at: Position, sc: Scene, rest: Bytes) returns (v': View)
    requires SceneOk(cat, sc) && at.z <= 15
    ensures PacketBytes(FullMap(at), sc) != []
    ensures ReceiveOne(cat, v, PacketBytes(FullMap(at), sc) + rest) == Got(v', rest)
    ensures v'.center == CenterOf(at) && v'.placed == v.placed && InSync(v', sc, iset{})
  {
    hide ReadTiles, Stream, Cells, MapTiles, Floors, Store, Le16, ReadU8, ReadU16;
    var c := CenterOf(at);
    var tiles := ViewTiles(c);
    ReadTilesBack(cat, v.known, tiles, sc, rest);
    var b3 := Stream(Cells(sc, tiles), -1) + rest;
    var b2 := [at.z] + b3;
    var b1 := Le16(at.y) + b2;
    var b0 := Le16(at.x) + b1;
    assert PacketBytes(FullMap(at), sc) + rest == [OPCODE_MAP_DESCRIPTION] + b0;
    ReadU8Back(OPCODE_MAP_DESCRIPTION, b0);
    ReadU16Back(at.x, b1);
    ReadU16Back(at.y, b2);
    ReadU8Back(at.z, b3);
    v' := v.(center := c, known := Store(v.known, tiles, Cells(sc, tiles)));
    forall t | InView(c, t) ensures t in tiles {
      ViewHolds(c, t);
    }
  }

  // ---------------------------------------------------------------------
  // A run of packets
  // ---------------------------------------------------------------------

  lemma {:induction false} PacketsSync(cat: Catalogue, v: View, ps: seq<Packet>, sc: Scene, stale: iset<Tile>)
    requires SceneOk(cat, sc) && AllMatch(v.center, ps) && InSync(v, sc, stale)
    ensures var r := Receive(cat, v, AllBytes(ps, sc));
            && r.Some? && r.value.center == FinalCenter(v.center, ps) && r.value.placed == FinalPlaced(v.placed, ps)
            && InSync(r.value, sc, StaleAfter(v.center, ps, stale))
    decreases |ps|
  {
    hide PacketBytes, ReceiveOne, InSync, SceneOk, Matches, NextCenter, NextPlaced, StaleAfter, StaleAfterOne;
    if ps == [] {
      NoPackets(v, sc, stale);
    } else {
      var v' := PacketSyncs(cat, v, ps[0], sc, stale, AllBytes(ps[1..], sc));
      PacketsSync(cat, v', ps[1..], sc, StaleAfterOne(v.center, ps[0], stale));
      StaleSplit(v.center, ps, stale);
    }
  }

  lemma NoPackets(v: View, sc: Scene, stale: iset<Tile>)
    requires InSync(v, sc, stale)
    ensures InSync(v, sc, StaleAfter(v.center, [], stale))
  {
  }

  lemma StaleSplit(c: Center, ps: seq<Packet>, stale: iset<Tile>)
    requires ps != []
    ensures StaleAfter(NextCenter(c, ps[0]), ps[1..], StaleAfterOne(c, ps[0], stale)) == StaleAfter(c, ps, stale)
  {
    hide InView, NextCenter;
    forall t | StaysInView(c, ps, t) ensures InView(NextCenter(c, ps[0]), t) {
      assert StaysInView(NextCenter(c, ps[0]), ps[1..], t);
    }
  }

  /** Whatever the packets, a tile stays in view all the time only if it is in view at both ends. */
  lemma {:induction false} StaysAtBothEnds(c: Center, ps: seq<Packet>, t: Tile)
    requires StaysInView(c, ps, t)
    ensures InView(c, t) && InView(FinalCenter(c, ps), t)
    decreases |ps|
  {
    hide InView, NextCenter;
    if ps != [] {
      StaysAtBothEnds(NextCenter(c, ps[0]), ps[1..], t);
    }
  }

  // ---------------------------------------------------------------------
  // The walk update
  // ---------------------------------------------------------------------

  /** The steps the incremental update can represent, and the leaps that get a full map. */
  predicate Representable(o: Position, n: Position) {
    Leaps(o, n) || (Abs(n.x - o.x) <= 1 && Abs(n.y - o.y) <= 1 && Abs(n.z - o.z) <= 1)
  }

  lemma {:induction false} FinalCenterAppend(c: Center, a: seq<Packet>, b: seq<Packet>)
    ensures FinalCenter(c, a + b) == FinalCenter(FinalCenter(c, a), b)
    ensures AllMatch(c, a + b) <==> AllMatch(c, a) && AllMatch(FinalCenter(c, a), b)
    decreases |a|
  {
    hide Matches, NextCenter;
    if a == [] {
      assert a + b == b;
    } else {
      assert (a + b)[1..] == a[1..] + b;
      FinalCenterAppend(NextCenter(c, a[0]), a[1..], b);
    }
  }

  lemma NoFloors(c: Center)
    ensures RevealTiles(c, []) == []
  {
  }

  /** One floor up: the block and both correction slices are anchored where the client is. */
  lemma UpBlockMatches(o: Position, n: Position)
    requires o.z <= 15 && n.z == o.z - 1
    ensures var c, ps := CenterOf(o), UpPackets(o, n);
            && Matches(c, ps[0]) && Matches(NextCenter(c, ps[0]), ps[1])
            && Matches(NextCenter(NextCenter(c, ps[0]), ps[1]), ps[2])
  {
    hide Floors, MapTiles;
    NoFloors(CenterOf(o));
  }

  lemma DownBlockMatches(o: Position, n: Position)
    requires n.z <= 15 && n.z == o.z + 1
    ensures var c, ps := CenterOf(o), DownPackets(o, n);
            && Matches(c, ps[0]) && Matches(NextCenter(c, ps[0]), ps[1])
            && Matches(NextCenter(NextCenter(c, ps[0]), ps[1]), ps[2])
  {
    hide Floors, MapTiles;
    NoFloors(CenterOf(o));
  }

  /** The floor-change block returns the client to the old column and row, one floor away. */
  lemma FloorPacketsMatch(o: Position, n: Position)
    requires o.z <= 15 && n.z <= 15
    ensures var c, ps := CenterOf(o), FloorPackets(o, n);
            && FinalCenter(c, ps) == Center(o.x, o.y, if n.z > o.z then o.z + 1 else if n.z < o.z then o.z - 1 else o.z)
            && (Abs(n.z - o.z) <= 1 ==> AllMatch(c, ps))
  {
    hide MapTiles, Floors, Matches;
    var c, ps := CenterOf(o), FloorPackets(o, n);
    if ps != [] {
      var c1 := NextCenter(c, ps[0]);
      var c2 := NextCenter(c1, ps[1]);
      var c3 := NextCenter(c2, ps[2]);
      assert ps[1..][1..] == [ps[2]] && ps[1..][0] == ps[1] && [ps[2]][1..] == [];
      assert FinalCenter(c, ps) == FinalCenter(c1, ps[1..]) == FinalCenter(c2, [ps[2]]) == FinalCenter(c3, []);
      if n.z == o.z - 1 {
        UpBlockMatches(o, n);
        assert AllMatch(c2, [ps[2]]);
      } else if n.z == o.z + 1 {
        DownBlockMatches(o, n);
        assert AllMatch(c2, [ps[2]]);
      }
    }
  }

  /** A row is sent for a step north or south, and it is the client's own. */
  lemma RowMatches(o: Position, n: Position, c: Center)
    requires c.x == o.x && c.y == o.y
    ensures var ps := RowPackets(o, n);
            && FinalCenter(c, ps) == Center(o.x, o.y + Sign(n.y - o.y), c.z)
            && (0 <= c.z <= 15 && c.z == n.z && Abs(n.y - o.y) <= 1 ==> AllMatch(c, ps))
  {
    hide MapTiles, Floors;
    var row := RowPackets(o, n);
    if row != [] {
      assert row[1..] == [] && FinalCenter(c, row) == NextCenter(c, row[0]);
      OneMatches(c, row[0]);
    }
  }

  /** A column is sent for a step east or west, and after the row it is the client's own. */
  lemma ColumnMatches(o: Position, n: Position, c: Center)
    requires c.x == o.x && c.y == o.y + Sign(n.y - o.y)
    ensures var ps := ColumnPackets(o, n);
            && FinalCenter(c, ps) == Center(o.x + Sign(n.x - o.x), c.y, c.z)
            && (0 <= c.z <= 15 && c.z == n.z && Abs(n.x - o.x) <= 1 && Abs(n.y - o.y) <= 1 ==> AllMatch(c, ps))
  {
    hide MapTiles, Floors;
    var column := ColumnPackets(o, n);
    if column != [] {
      assert column[1..] == [] && FinalCenter(c, column) == NextCenter(c, column[0]);
      OneMatches(c, column[0]);
    }
  }

  lemma OneMatches(c: Center, p: Packet)
    ensures AllMatch(c, [p]) <==> Matches(c, p)
  {
    hide Matches, NextCenter;
    assert [p][1..] == [];
  }

  /** The directional slices move the client by at most one tile each way. */
  lemma SlicesMatch(o: Position, n: Position, c: Center)
    requires c.x == o.x && c.y == o.y
    ensures var ps := RowPackets(o, n) + ColumnPackets(o, n);
            && FinalCenter(c, ps) == Center(o.x + Sign(n.x - o.x), o.y + Sign(n.y - o.y), c.z)
            && (0 <= c.z <= 15 && c.z == n.z && Abs(n.x - o.x) <= 1 && Abs(n.y - o.y) <= 1 ==> AllMatch(c, ps))
  {
    hide RowPackets, ColumnPackets, AllMatch, FinalCenter;
    RowMatches(o, n, c);
    ColumnMatches(o, n, FinalCenter(c, RowPackets(o, n)));
    FinalCenterAppend(c, RowPackets(o, n), ColumnPackets(o, n));
  }

  function Sign(d: int): int {
    if d < 0 then -1 else if d > 0 then 1 else 0
  }

  lemma WalkPacketsMatch(id: uint32, o: Position, n: Position)
    requires o.z <= 15 && n.z <= 15
    ensures FinalCenter(CenterOf(o), WalkPackets(id, o, n)) == CenterOf(n) <==> Representable(o, n)
    ensures Representable(o, n) ==> AllMatch(CenterOf(o), WalkPackets(id, o, n))
  {
    hide Matches, FloorPackets, RowPackets, ColumnPackets;
    var c := CenterOf(o);
    if Leaps(o, n) {
      var ps := [Remove(id), FullMap(n)];
      assert ps[1..] == [FullMap(n)] && [FullMap(n)][1..] == [];
      LeapMatches(id, c, n);
      assert FinalCenter(c, ps) == FinalCenter(c, [FullMap(n)]) == CenterOf(n);
    } else {
      var header, floor := [HeaderPacket(id, o, n)], FloorPackets(o, n);
      var slices := RowPackets(o, n) + ColumnPackets(o, n);
      assert WalkPackets(id, o, n) == header + floor + slices;
      HeaderMatches(id, o, n, c);
      FloorPacketsMatch(o, n);
      FinalCenterAppend(c, header, floor);
      FinalCenterAppend(c, header + floor, slices);
      SlicesMatch(o, n, FinalCenter(c, floor));
    }
  }

  lemma HeaderMatches(id: uint32, o: Position, n: Position, c: Center)
    ensures var ps := [HeaderPacket(id, o, n)];
            FinalCenter(c, ps) == c && AllMatch(c, ps)
  {
    assert [HeaderPacket(id, o, n)][1..] == [];
  }

  lemma LeapMatches(id: uint32, c: Center, n: Position)
    requires n.z <= 15
    ensures AllMatch(c, [Remove(id), FullMap(n)])
  {
    assert [Remove(id), FullMap(n)][1..] == [FullMap(n)] && [FullMap(n)][1..] == [];
    assert AllMatch(c, [FullMap(n)]);
  }

  /** A client centred on the old position ends a walk update centred on the new one exactly when the
      step moves at most one tile along each axis, or is a floor change that leaps further. */
  lemma CenterFollows(id: uint32, o: Position, n: Position)
    requires o.z <= 15 && n.z <= 15
    ensures FinalCenter(CenterOf(o), WalkPackets(id, o, n)) == CenterOf(n)
       <==> || (n.z != o.z && (Abs(n.x - o.x) > 1 || Abs(n.y - o.y) > 1))
            || (Abs(n.x - o.x) <= 1 && Abs(n.y - o.y) <= 1 && Abs(n.z - o.z) <= 1)
  {
    WalkPacketsMatch(id, o, n);
  }

  /** For every such step and every scene: a client around the old position decodes the whole update and ends centred
      on the new position. The tiles it does not know then are among those it did not know before and has had in view
      all the time; after a leap there are none. It has the walker on the new position: moved there by id, or, after a
      leap or the step underground, dropped by id and brought back by the tile. No one else is moved. */
  lemma WalkUpdateSyncs(cat: Catalogue, id: uint32, o: Position, n: Position, sc: Scene, v: View, stale: iset<Tile>)
    requires SceneOk(cat, sc) && o.z <= 15 && n.z <= 15 && Representable(o, n)
    requires v.center == CenterOf(o) && InSync(v, sc, stale)
    ensures var r := Receive(cat, v, AllBytes(WalkPackets(id, o, n), sc));
            && r.Some? && r.value.center == CenterOf(n)
            && InSync(r.value, sc, StaleAfter(CenterOf(o), WalkPackets(id, o, n), stale))
            && (Leaps(o, n) || stale == iset{} ==> InSync(r.value, sc, iset{}))
            && HasWalker(r.value, id, o, n, sc)
            && forall other :: other != id ==>
                 (other in r.value.placed <==> other in v.placed)
                 && (other in v.placed ==> r.value.placed[other] == v.placed[other])
  {
    hide SceneOk, InSync, AllMatch, FinalCenter, FinalPlaced, Receive, AllBytes, StaleAfter;
    WalkPacketsMatch(id, o, n);
    PacketsSync(cat, v, WalkPackets(id, o, n), sc, stale);
    LeapsLeaveNothing(id, o, n, stale);
    WalkPlaces(v.placed, id, o, n);
    if DropsWalker(o, n) {
      TileComes(id, o, n, stale, sc, Receive(cat, v, AllBytes(WalkPackets(id, o, n), sc)).value);
    }
  }

  /** The steps on which the walker is dropped by id and comes back with its tile. */
  predicate DropsWalker(o: Position, n: Position) {
    (n.z != o.z && (Abs(n.x - o.x) > 1 || Abs(n.y - o.y) > 1)) || (o.z == 7 && n.z >= 8)
  }

  /** The client has `id` on `n` after the step from `o`. */
  ghost predicate HasWalker(v: View, id: uint32, o: Position, n: Position, sc: Scene) {
    if DropsWalker(o, n) then
      && id !in v.placed && (n.x as int, n.y as int, n.z as int) in v.known
      && v.known[(n.x as int, n.y as int, n.z as int)] == CellAt(sc, n.x, n.y, n.z)
    else id in v.placed && v.placed[id] == n
  }

  lemma {:induction false} FinalPlacedAppend(placed: map<uint32, Position>, a: seq<Packet>, b: seq<Packet>)
    ensures FinalPlaced(placed, a + b) == FinalPlaced(FinalPlaced(placed, a), b)
    decreases |a|
  {
    hide NextPlaced;
    if a == [] {
      assert a + b == b;
    } else {
      assert (a + b)[1..] == a[1..] + b;
      FinalPlacedAppend(NextPlaced(placed, a[0]), a[1..], b);
    }
  }

  /** Tiles place no one by id. */
  lemma {:induction false} TilesPlaceNoOne(placed: map<uint32, Position>, ps: seq<Packet>)
    requires forall i :: 0 <= i < |ps| ==> !ps[i].Move? && !ps[i].Remove?
    ensures FinalPlaced(placed, ps) == placed
    decreases |ps|
  {
    if ps != [] {
      TilesPlaceNoOne(placed, ps[1..]);
    }
  }

  lemma WalkPlaces(placed: map<uint32, Position>, id: uint32, o: Position, n: Position)
    ensures FinalPlaced(placed, WalkPackets(id, o, n)) == if DropsWalker(o, n) then placed - {id} else placed[id := n]
  {
    var ps := WalkPackets(id, o, n);
    assert ps == [ps[0]] + ps[1..];
    FinalPlacedAppend(placed, [ps[0]], ps[1..]);
    assert [ps[0]][1..] == [];
    TilesPlaceNoOne(NextPlaced(placed, ps[0]), ps[1..]);
  }

  /** On those steps the tile itself is sent, whatever was stale before. */
  lemma TileComes(id: uint32, o: Position, n: Position, stale: iset<Tile>, sc: Scene, v: View)
    requires DropsWalker(o, n) && o.z <= 15 && n.z <= 15 && v.center == CenterOf(n)
    requires InSync(v, sc, StaleAfter(CenterOf(o), WalkPackets(id, o, n), stale))
    ensures var t := (n.x as int, n.y as int, n.z as int);
            t in v.known && v.known[t] == CellAt(sc, n.x, n.y, n.z)
  {
    hide WalkPackets;
    var t := (n.x as int, n.y as int, n.z as int);
    if Leaps(o, n) {
      LeapsLeaveNothing(id, o, n, stale);
    } else {
      assert !InView(CenterOf(o), t);
    }
    assert t !in StaleAfter(CenterOf(o), WalkPackets(id, o, n), stale);
  }

  /** A walker with a tile to stand on is among what the client knows of that tile after such a step. */
  lemma WalkerBroughtBack(v: View, id: uint32, o: Position, n: Position, sc: Scene, c: nat)
    requires HasWalker(v, id, o, n, sc) && DropsWalker(o, n) && sc.tile(n.x, n.y, n.z).Some?
    requires c < |sc.creatures| && sc.creatures[c].x == n.x && sc.creatures[c].y == n.y && sc.creatures[c].z == n.z
    ensures var cell := v.known[(n.x as int, n.y as int, n.z as int)];
            cell.Some? && Being(sc.creatures[c].bytes) in cell.value
  {
    hide CellAt;
    var who := CellShows(sc, n.x, n.y, n.z);
    var things := CellAt(sc, n.x, n.y, n.z).value;
    var s := sc.tile(n.x, n.y, n.z).value;
    var below := if |s.preCreature| < 10 then |s.preCreature| else 10;
    var k :| 0 <= k < |who| && who[k] == c;
    assert things[below + k] == Being(sc.creatures[c].bytes);
  }

  lemma LeapsLeaveNothing(id: uint32, o: Position, n: Position, stale: iset<Tile>)
    ensures Leaps(o, n) || stale == iset{} ==> StaleAfter(CenterOf(o), WalkPackets(id, o, n), stale) == iset{}
  {
    hide InView;
    if Leaps(o, n) {
      var ps := [Remove(id), FullMap(n)];
      assert ps[1..][0] == FullMap(n);
      forall t ensures !StaysInView(CenterOf(o), ps, t) {
        assert !StaysInView(NextCenter(CenterOf(o), ps[0]), ps[1..], t);
      }
    }
  }

  /** A step on one floor keeps in view exactly what both viewports hold. */
  lemma FlatStepStays(id: uint32, o: Position, n: Position, t: Tile)
    requires o.z == n.z && Abs(n.x - o.x) <= 1 && Abs(n.y - o.y) <= 1
    ensures StaysInView(CenterOf(o), WalkPackets(id, o, n), t) <==> InView(CenterOf(o), t) && InView(CenterOf(n), t)
  {
    hide MapTiles;
    var c, ps := CenterOf(o), WalkPackets(id, o, n);
    var row, column := RowPackets(o, n), ColumnPackets(o, n);
    assert ps == [HeaderPacket(id, o, n)] + (row + column);
    assert StaysInView(c, ps, t) <==> InView(c, t) && StaysInView(c, row + column, t) by {
      assert ps[1..] == row + column;
    }
    var c1 := Center(o.x, n.y, o.z);
    assert StaysInView(c, row + column, t) <==> InView(c, t) && StaysInView(c1, column, t) by {
      if row == [] {
        assert row + column == column;
      } else {
        assert (row + column)[1..] == column && NextCenter(c, row[0]) == c1;
      }
    }
    assert StaysInView(c1, column, t) <==> InView(c1, t) && InView(CenterOf(n), t) by {
      if column != [] {
        assert column[1..] == [] && NextCenter(c1, column[0]) == CenterOf(n);
        assert StaysInView(CenterOf(n), [], t) <==> InView(CenterOf(n), t);
      }
    }
  }

  // ---------------------------------------------------------------------
  // Whole journeys
  // ---------------------------------------------------------------------

  /** What a client makes of the updates of a journey over `stops`, one step after the other. The update of a step
      is sent from the scene as it is after the step, the mover already standing on its new tile. */
  function Journey(cat: Catalogue, v: View, id: uint32, stops: seq<Position>, scenes: seq<Scene>): Option<View>
    requires |scenes| == |stops|
    decreases |stops|
  {
    if |stops| <= 1 then Some(v)
    else
      var last := |stops| - 1;
      match Journey(cat, v, id, stops[..last], scenes[..last])
      case None => None
      case Some(v') => Receive(cat, v', AllBytes(WalkPackets(id, stops[last - 1], stops[last]), scenes[last]))
  }

  ghost predicate JourneyOk(stops: seq<Position>) {
    && stops != [] && (forall i :: 0 <= i < |stops| ==> stops[i].z <= 15)
    && (forall i :: 0 <= i < |stops| - 1 ==> Representable(stops[i], stops[i + 1]))
  }

  ghost predicate ScenesOk(cat: Catalogue, scenes: seq<Scene>) {
    forall i :: 0 <= i < |scenes| ==> SceneOk(cat, scenes[i])
  }

  /** From the `i`-th step on, `t` has been in view all the time. */
  ghost predicate StayedSince(id: uint32, stops: seq<Position>, i: nat, t: Tile) {
    forall j :: i <= j < |stops| - 1 ==> StaysInView(CenterOf(stops[j]), WalkPackets(id, stops[j], stops[j + 1]), t)
  }

  /** `t` changed with some step, and has been in view all the time since. */
  ghost predicate Stale(id: uint32, stops: seq<Position>, scenes: seq<Scene>, t: Tile)
    requires |scenes| == |stops|
  {
    exists i: nat :: i < |stops| - 1 && StayedSince(id, stops, i, t)
      && CellAt(scenes[i], t.0, t.1, t.2) != CellAt(scenes[i + 1], t.0, t.1, t.2)
  }

  ghost function StaleTiles(id: uint32, stops: seq<Position>, scenes: seq<Scene>): iset<Tile>
    requires |scenes| == |stops|
  {
    iset t | Stale(id, stops, scenes, t)
  }

  ghost function Changed(s: Scene, s': Scene): iset<Tile> {
    iset t: Tile | CellAt(s, t.0, t.1, t.2) != CellAt(s', t.0, t.1, t.2)
  }

  lemma SyncCarries(v: View, s: Scene, s': Scene, stale: iset<Tile>)
    requires InSync(v, s, stale)
    ensures InSync(v, s', stale + Changed(s, s'))
  {
  }

  lemma SyncWeakens(v: View, sc: Scene, stale: iset<Tile>, more: iset<Tile>)
    requires InSync(v, sc, stale) && stale <= more
    ensures InSync(v, sc, more)
  {
  }

  /** What the last step leaves stale was stale before it or changed with it. */
  lemma StaleSnoc(id: uint32, stops: seq<Position>, scenes: seq<Scene>)
    requires |scenes| == |stops| > 1
    ensures var last := |stops| - 1;
            StaleAfter(CenterOf(stops[last - 1]), WalkPackets(id, stops[last - 1], stops[last]),
                       StaleTiles(id, stops[..last], scenes[..last]) + Changed(scenes[last - 1], scenes[last]))
            <= StaleTiles(id, stops, scenes)
  {
    hide StaysInView, CellAt, WalkPackets, Stale;
    var last := |stops| - 1;
    forall t | StaysInView(CenterOf(stops[last - 1]), WalkPackets(id, stops[last - 1], stops[last]), t)
      && (Stale(id, stops[..last], scenes[..last], t) || t in Changed(scenes[last - 1], scenes[last]))
      ensures Stale(id, stops, scenes, t)
    {
      if Stale(id, stops[..last], scenes[..last], t) {
        StaleLonger(id, stops, scenes, t);
      } else {
        JustStale(id, stops, scenes, t);
      }
    }
  }

  lemma StaleLonger(id: uint32, stops: seq<Position>, scenes: seq<Scene>, t: Tile)
    requires |scenes| == |stops| > 1 && Stale(id, stops[..|stops| - 1], scenes[..|stops| - 1], t)
    requires StaysInView(CenterOf(stops[|stops| - 2]), WalkPackets(id, stops[|stops| - 2], stops[|stops| - 1]), t)
    ensures Stale(id, stops, scenes, t)
  {
    hide StaysInView, CellAt, WalkPackets, StayedSince;
    var last := |stops| - 1;
    var i: nat :| i < last - 1 && StayedSince(id, stops[..last], i, t)
      && CellAt(scenes[..last][i], t.0, t.1, t.2) != CellAt(scenes[..last][i + 1], t.0, t.1, t.2);
    StayedOn(id, stops, i, t);
    assert scenes[..last][i] == scenes[i] && scenes[..last][i + 1] == scenes[i + 1];
  }

  lemma JustStale(id: uint32, stops: seq<Position>, scenes: seq<Scene>, t: Tile)
    requires |scenes| == |stops| > 1
    requires var last := |stops| - 1;
             CellAt(scenes[last - 1], t.0, t.1, t.2) != CellAt(scenes[last], t.0, t.1, t.2)
    requires StaysInView(CenterOf(stops[|stops| - 2]), WalkPackets(id, stops[|stops| - 2], stops[|stops| - 1]), t)
    ensures Stale(id, stops, scenes, t)
  {
    hide StaysInView, CellAt, WalkPackets;
    var last := |stops| - 1;
    assert StayedSince(id, stops, last - 1, t);
    assert scenes[(last - 1) + 1] == scenes[last];
  }

  lemma StayedOn(id: uint32, stops: seq<Position>, i: nat, t: Tile)
    requires |stops| > 1 && StayedSince(id, stops[..|stops| - 1], i, t)
    requires StaysInView(CenterOf(stops[|stops| - 2]), WalkPackets(id, stops[|stops| - 2], stops[|stops| - 1]), t)
    ensures StayedSince(id, stops, i, t)
  {
    hide StaysInView, WalkPackets;
    var front := stops[..|stops| - 1];
    forall j | i <= j < |stops| - 1
      ensures StaysInView(CenterOf(stops[j]), WalkPackets(id, stops[j], stops[j + 1]), t)
    {
      if j < |front| - 1 {
        assert StaysInView(CenterOf(front[j]), WalkPackets(id, front[j], front[j + 1]), t);
      }
    }
  }

  /** However long the journey, up and down stairs and through leaps, and whatever changes on the way: the client
      decodes every update and knows the scene as it is now on every tile in view, except where something changed
      and the tile has been in view all the time since. It has the walker where it is. */
  lemma {:induction false} JourneySyncs(cat: Catalogue, v: View, id: uint32, stops: seq<Position>, scenes: seq<Scene>)
    requires JourneyOk(stops) && |scenes| == |stops| && ScenesOk(cat, scenes)
    requires v.center == CenterOf(stops[0]) && InSync(v, scenes[0], iset{})
    ensures var r := Journey(cat, v, id, stops, scenes);
            && r.Some? && r.value.center == CenterOf(stops[|stops| - 1])
            && InSync(r.value, scenes[|stops| - 1], StaleTiles(id, stops, scenes))
            && (|stops| > 1 ==> HasWalker(r.value, id, stops[|stops| - 2], stops[|stops| - 1], scenes[|stops| - 1]))
    decreases |stops|
  {
    hide SceneOk, InSync, Receive, AllBytes, WalkPackets, Representable, StaleAfter, StaleTiles, Changed, HasWalker;
    if |stops| == 1 {
      SyncWeakens(v, scenes[0], iset{}, StaleTiles(id, stops, scenes));
    } else {
      var last := |stops| - 1;
      var o, n, front, before := stops[last - 1], stops[last], stops[..last], scenes[..last];
      assert Representable(stops[last - 1], stops[(last - 1) + 1]);
      JourneySyncs(cat, v, id, front, before);
      var v' := Journey(cat, v, id, front, before).value;
      var stale := StaleTiles(id, front, before);
      SyncCarries(v', scenes[last - 1], scenes[last], stale);
      WalkUpdateSyncs(cat, id, o, n, scenes[last], v', stale + Changed(scenes[last - 1], scenes[last]));
      StaleSnoc(id, stops, scenes);
      var r := Journey(cat, v, id, stops, scenes);
      SyncWeakens(r.value, scenes[last],
                  StaleAfter(CenterOf(o), WalkPackets(id, o, n), stale + Changed(scenes[last - 1], scenes[last])),
                  StaleTiles(id, stops, scenes));
    }
  }
}
