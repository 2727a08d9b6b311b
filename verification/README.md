# Verified model of the game server's core

A Dafny model of the parts of the server whose correctness is not visible from any single function, with the
properties its documentation promises proved for all inputs. `dafny verify dfyconfig.toml` checks the project.

Where the source updates state in place (the node table, the message writer, the container windows, the cipher, the
cursors, the chunk manager, the creature registries) the model is a class or an in-place array algorithm, each method
proved equal to a function of the old state; the properties are lemmas about those functions.

A function that stands on both sides of a theorem, as the price of a step or the things on a tile do, is also said in
plain numbers and indices by a lemma of its own, mostly named `...Means`; `Formats` does so for bytes.

| files | what they model |
|---|---|
| `PathCost`, `NodeTable`, `Pathfinding`, `AutoWalk` | A* with reopening: termination, soundness of the path, what a failed search has settled; auto-walk requests |
| `Wire`, `Creature`, `TileStream`, `MapDescription` | the skip-encoded tile stream and its decoder |
| `Client`, `Walk`, `WalkSync` | a client's shifting view, the incremental walk update, and the proof that whole journeys stay in sync |
| `Windows`, `WindowNesting`, `WindowMoves`, `WindowInvariants`, `Containers` | the sixteen container windows: where a move puts an item, conservation of items and of nested addresses, and when closing nested windows ends |
| `NodeTree`, `Props`, `MapItems`, `MapFile`, `WholeMap`, `ItemDictionary` | the escaped node tree and the parsers above it |
| `Xtea`, `Adler`, `Frame` | the transport stack: cipher in place, checksum, message body |
| `TileStack`, `ChunkIndex`, `ChunkManager`, `SearchLoading`, `WorldView` | tile stacks, the two ways to build the chunked map, the chunks in memory and those a path search loads ahead, and the way from the files to a client's screen |
| `Fights`, `FightInvariants`, `Combat` | targets, swings, deaths, respawns and ticks over the creature registries |
| `Formats` | the numbers of the wire and file formats |
| `World` | fixed-width integers, positions, directions |

## What turned out false, and exactly when

Each of these is stated as an if-and-only-if over all inputs, or with a concrete case.

- Closing a window and everything nested in it keeps no record of where it has been. It ends exactly when the window
  is not on its own chain of parents (`CloseReturns`), and a move ends exactly when that holds of the window it
  orphans (`MoveReturns`). Two ordinary-looking moves of a bag reach a table where it does not
  (`SecondMoveNeverReturns`).
- A container move that ends conserves the player's items exactly when it is not a losing move (`MoveLoses`):
  allocating the destination evicts a hidden window that holds items, the destination window is unallocated, or source
  and destination are both beyond capacity. `ItemLostToMissingWindow` is a concrete loss.
- `encrypt_message` writes the low 16 bits of the length, so a message survives exactly when it is shorter than 65536
  bytes (`MessageSurvives`).
- A checksummed frame misses a two-byte change exactly when opposite changes lie a multiple of 65521 bytes apart
  (`TwoBytesRejected`).
- `logout` clears no fights: it leaves a fight with no one exactly when someone was fighting the leaver
  (`LogoutKeepsLive`). The next combat tick heals that (`OnCombatTick`).
- `viewport_floor_span` is documented to include the slack of one stair. It does exactly when the step does not cross
  between floors 7 and 8 (`StairSlack`).
- The path search is documented never to hit an unloaded tile because it loads ahead (crates/world/src/map.rs:678-680).
  Loading ahead alone does not achieve that. A queried tile lies in its predecessor's chunk, or in one loaded ahead of
  that predecessor, exactly when the step leaves neither the start tile's chunk nor a chunk through a corner
  (`StepLoadsAhead`): nothing is loaded ahead of the start, which is never asked about before its neighbours. In
  `StartEdgeMissed` and `CornerMissed` the chunk asked about has been tried only if it was known before the search.
  They are failures of the public function for a caller that has not loaded the chunks around the start. The searches
  for players do not meet them: they reach 20 tiles (crates/world/src/game/mod.rs:1571, 1659, 2015, 2111), and a
  player's 3x3 grid is loaded at login, teleport and every step and required by every sweep, so the promise holds
  (`PlayerSearchStaysLoaded`). A monster's chase (crates/world/src/game/mod.rs:1859) is covered while a player whose
  grid is loaded is within 235 tiles on its floor (`SearchStaysLoaded`).
- The client follows a walk update exactly for steps of at most one tile along each axis and for floor changes that
  leap further (`CenterFollows`); a leap on one floor is not representable.
- The floor loop of the map description meets its end within the band exactly for centres on floors 0 to 17
  (`FloorWalk`); below, it does so only after its 32-bit counter has wrapped round (`FloorWalkMisses`).
- `items.otb` records declare their length, but an id or an order is read at its own size whatever was declared. The
  declared length is respected exactly when the tag is unknown or the length is the field's own size
  (`DeclaredLengthMatters`).
- A spawn interval of zero is documented to switch respawning off (crates/world/src/game/monster.rs:601-602). Such a
  point is due at once, and no other is (`DueAfterInterval`).

Where the code and its comments disagree the model follows the code. Besides the above: a target out of range or out
of sight keeps its fight (crates/world/src/game/combat.rs:724-726 says it is cleared).

## Assumptions

- `is_walkable` may answer differently from call to call, since it loads chunks: a search problem carries one answer
  per call, and the results speak of the calls a search makes and of no others. A negative search distance wraps to a
  huge one, as the cast does.
- The client is the one described in crates/protocol/src/walk.rs:335-348 and in the decoders of the source's own
  tests: a floor change shifts its centre by one along both axes, a slice by one, and only a full map carries a
  centre. It knows from its catalogue which items carry a count and a phase byte; client ids are below 0xFF00 and
  differ from the two creature markers.
- On a journey everything may change at every stop. A tile that changed is stale, since the client is to know of the
  change from packets of its own, until the tile leaves the view or a walk update sends it again (`Stale`): the
  walker's own last tiles are among them.
- Random draws, weapons, sight lines and protection zones are left open: every result holds for all of them.
- Sending a packet has no effect. `XTEA` words are integers below 2^32 with every wrap-around written out.
- Creature ids are handed out upwards. Runs are followed until the id spaces would meet: 3 * 2^28 ids for players, 2^30
  for monsters, of which one for every spawn point must be left (`Serve`).

## Model

| member | source | states |
|---|---|---|
| Pathfinding.GetPathMatching | crates/world/src/pathfinding.rs:154-257 | the search always stops (9^(MAX_G-g) summed over open nodes falls at every pop, although equal-cost paths reopen closed nodes); a returned path is an answer of at most 511 steps over tiles that calls it made reported walkable; it gives up only with no open node left and every node settled by the calls made for it, or with a full table; every tile it asks about is next to the start or to a tile a call before reported walkable, inside the window, the start's neighbours first |
| Pathfinding.ExhaustedMeans | crates/world/src/pathfinding.rs:154-257 | what running out of open nodes means: no node meets the condition, and every neighbour a node was to try is off the map, was reported blocked from there, is too far, or has a node no dearer than the way through this one |
| Pathfinding.EntryMeans | crates/world/src/pathfinding.rs:189-210 | a node was entered in the direction from its parent's tile to its own, and the start in none |
| Pathfinding.PathToIsAnswer | crates/world/src/pathfinding.rs:117-143 | the parent path of a node meeting the condition is an answer: tiles inside the window that calls of the search reported walkable, ending on the condition, never dearer than the node's g |
| NodeTable.PathToLeadsThere | crates/world/src/pathfinding.rs:117-143 | replaying the parent path from the start ends on the node's tile, steps only onto tiles that calls of the search reported walkable inside the window, and costs at most g |
| NodeTable.CalculatePath | crates/world/src/pathfinding.rs:117-143 | following the parents from a node ends, gives exactly its parent path, and is shorter than the table |
| NodeTable.DirectionOfInverts | crates/world/src/pathfinding.rs:122-139 | between adjacent tiles the direction inverts its step, and only there: the North fallback is never taken |
| NodeTable.NeighborsWithPruning | crates/world/src/pathfinding.rs:80-116 | every pruned neighbour list holds at most eight offsets, all of them adjacent |
| NodeTable.PruningOmitsThree | crates/world/src/pathfinding.rs:80-116 | the start looks at all eight neighbours; a node entered in a direction at all but the three touching one side, or one corner, of its tile |
| NodeTable.GetBestNode | crates/world/src/pathfinding.rs:39-46 | the first open node of least f, and none exactly when no node is open |
| NodeTable.AStarNodes.AddNode | crates/world/src/pathfinding.rs:47-55 | appends and indexes a node while fewer than 512 exist, else changes nothing |
| NodeTable.AStarNodes.TryReopen | crates/world/src/pathfinding.rs:67-78 | moves the node of a coordinate under a new parent exactly when that is at least as cheap, open or closed |
| NodeTable.OpenIsNotClosed | crates/world/src/pathfinding.rs:144-153 | g plus the estimate stays below the closed marker for every g the table can reach |
| NodeTable.EstimateMeans | crates/world/src/pathfinding.rs:144-153 | the estimate is ten for every tile of the way to the search's own target along the axes |
| NodeTable.WindowMeans | crates/world/src/pathfinding.rs:178-185 | what lies too far from the start, a negative limit included |
| NodeTable.ReopenKeepsNodes | crates/world/src/pathfinding.rs:67-78 | reopening keeps parents adjacent and strictly cheaper, g[i] <= 55*i and the index exact, and can touch neither the start nor the node being expanded |
| NodeTable.AddKeepsNodes | crates/world/src/pathfinding.rs:47-55 | adding a child keeps the same invariant of the whole table |
| NodeTable.ChildWeighsLess | crates/world/src/pathfinding.rs:189-254 | nine children weigh no more than the parent they hang from: the step of the termination argument |
| Pathfinding.PopBestNode | crates/world/src/pathfinding.rs:173-177 | taking the best open node closes it, keeps the table sound and takes its whole weight away |
| Pathfinding.Relax | crates/world/src/pathfinding.rs:238-254 | one walkable neighbour is reopened, left alone, out of the window or added; the weight grows by at most a ninth of the parent's and the edge ends settled |
| Pathfinding.ExpandOne | crates/world/src/pathfinding.rs:211-254 | one neighbour, on or off the map, walkable or not, ends settled at that cost |
| Pathfinding.ExpandAll | crates/world/src/pathfinding.rs:211-255 | the whole neighbour loop adds at most eight ninths of the popped weight and keeps every closed node settled |
| Pathfinding.Expand | crates/world/src/pathfinding.rs:189-255 | expanding a popped node settles it too |
| Pathfinding.ClosedStaySettled | crates/world/src/pathfinding.rs:172-254 | closed nodes stay settled while others only get cheaper or are reopened |
| Pathfinding.ClosingKeepsSettled | crates/world/src/pathfinding.rs:173-177 | closing the best node leaves every other closed node settled |
| Pathfinding.CloseStep | crates/world/src/pathfinding.rs:173-189 | a popped node has f = g + h, so pg is its g |
| Pathfinding.NeverLeavesWindow | crates/world/src/pathfinding.rs:178-185 | no node of the table is ever outside the window, so the code's check for that never gives up a search |
| PathCost.HeuristicIsTaxicab | crates/world/src/pathfinding.rs:144-153 | the estimate is ten times the taxicab distance |
| PathCost.HeuristicConsistent | crates/world/src/pathfinding.rs:144-153 | no step, onto a free or an occupied tile, lowers the estimate by more than it costs |
| PathCost.HeuristicAdmissible | crates/world/src/pathfinding.rs:144-153 | the estimate never exceeds the cost of any 8-way walk, whatever the creatures |
| PathCost.HeuristicAttained | crates/world/src/pathfinding.rs:144-153 | some walk costs exactly the estimate, so it is the best lower bound |
| PathCost.StepCostBounds | crates/world/src/pathfinding.rs:229-236 | a step costs 10 to 55, and at least ten per tile of taxicab distance |
| PathCost.WalkPrice | crates/world/src/pathfinding.rs:229-236 | every walk costs 10 for each straight step, 25 for each diagonal one, and 30 more for each that ends on a creature |
| NodeTable.LinkPrice | crates/world/src/pathfinding.rs:229-236 | a link of the table costs 10, or 25 across a corner, and 30 more onto a creature |
| NodeTable.PruningOrder | crates/world/src/pathfinding.rs:80-116 | the neighbours are tried in the table's order |
| AutoWalk.ParseAutoWalk | crates/protocol/src/walk.rs:31-51 | reads a count and the known steps among that many bytes, and refuses a request without any |
| AutoWalk.RequestRoundTrip | crates/protocol/src/walk.rs:28-51 | a request for 1 to 255 steps is read back as those steps, whatever follows it |
| AutoWalk.AutoWalkDestination | crates/protocol/src/walk.rs:67-86 | the end of the walk, and none exactly when some tile on the way is off the map |
| AutoWalk.AnswersStayOnMap | crates/protocol/src/walk.rs:67-86 | every path the search returns can be walked on the map and ends on a tile it was asked for |
| Wire.ReadU32Back | crates/protocol/src/message.rs:50-55 | a 32-bit value written little-endian is read back, leaving what follows |
| Wire.MessageWriter.WriteString | crates/protocol/src/message.rs:95-100 | a string goes out behind the low 16 bits of its length |
| Creature.AddOutfit | crates/protocol/src/creature.rs:46-62 | an outfit appends its look bytes, five colour bytes only for a body look |
| Creature.AddCreature | crates/protocol/src/creature.rs:63-94 | a creature thing is its head, health and direction, outfit and tail |
| Creature.CreatureRoundTrip | crates/protocol/src/creature.rs:63-94 | a creature thing delimits itself: a client reads back exactly the fields sent and stops at its last byte |
| Creature.CreatureMarker | crates/protocol/src/creature.rs:63-75 | a creature thing opens with the known or unknown marker |
| TileStream.StreamDecodes | crates/protocol/src/map_description.rs:191-251 | the counter invariant: with a run open at skip the next bytes are one marker for the whole run, and the decoder that took it has the rest of the run ahead |
| TileStream.StreamRoundTrip | crates/protocol/src/map_description.rs:318-365 | for every run of tiles and gaps the decoder gives back exactly each position's things and leaves exactly the bytes after the stream |
| TileStream.ThingsRoundTrip | crates/world/tests/realmap_align.rs:50-101 | the things of a tile read back up to the marker that ends it |
| TileStream.ItemRoundTrip | crates/protocol/src/map_description.rs:253-267 | an item's optional count and phase bytes are read exactly when the catalogue says so |
| MapDescription.AddItem | crates/protocol/src/map_description.rs:258-267 | an item is its client id, the mark, and its optional bytes |
| MapDescription.AddItems | crates/protocol/src/map_description.rs:216-222 | items are written until ten things are on the tile |
| MapDescription.AddCreatures | crates/protocol/src/map_description.rs:223-228 | every creature on the tile is spliced in, and the count saturates |
| MapDescription.AddThings | crates/protocol/src/map_description.rs:215-238 | at most ten items below, then the creatures, then the rest up to ten things |
| MapDescription.CellShows | crates/protocol/src/map_description.rs:207-238 | on every tile: the first ten items below, then exactly the creatures of the scene whose x, y and z are the tile's, in order, then items above up to ten things |
| MapDescription.CreatureShownWhereItStands | crates/protocol/src/map_description.rs:223-228 | a creature is sent on the tile it stands on and on no other |
| MapDescription.AddCell | crates/protocol/src/map_description.rs:207-248 | one position closes an open run or lengthens it, flushing a full run of 255 |
| MapDescription.FloorDescription | crates/protocol/src/map_description.rs:191-251 | one floor appends the run of its positions, column by column, carrying the counter across floors |
| MapDescription.GetMapDescription | crates/protocol/src/map_description.rs:139-173 | the floors of the band in order, each shifted by its distance from the centre, and the final flush |
| MapDescription.FloorWalk | crates/protocol/src/map_description.rs:179-185 | the floor loop visits exactly the floors of the band and meets its end at the last, for centres down to floor 17 |
| MapDescription.FloorWalkMisses | crates/protocol/src/map_description.rs:150-173 | below floor 17 the loop, counting in 32 bits, meets its end only after wrapping round: at step 2^32 - (floor - 17) and at none before |
| MapDescription.Encode | crates/protocol/src/map_description.rs:86-103 | the full map packet: centre, then the stream of the 18x14 band |
| MapDescription.EncodeSlice | crates/protocol/src/map_description.rs:108-124 | a slice packet: opcode, then the stream of its stripe |
| Client.ReadTilesBack | crates/protocol/src/map_description.rs:318-365 | a client reading the tiles it expects learns exactly those tiles and forgets nothing else |
| Client.ViewHolds | crates/protocol/src/map_description.rs:86-103 | the tiles of a full map are exactly the viewport of every floor of the band |
| Client.SliceCovers | crates/protocol/src/walk.rs:384-423 | a slice carries exactly the tiles that its shift brings into the viewport |
| Client.UpCovers | crates/protocol/src/walk.rs:161-237 | the floors revealed by a floor-up are exactly the tiles that its shift brings into the viewport |
| Client.DownCovers | crates/protocol/src/walk.rs:241-317 | the floors revealed by a floor-down are exactly the tiles that its shift brings into the viewport |
| Walk.RemoveCreatureById | crates/protocol/src/walk.rs:150-157 | the id-form remove packet |
| Walk.CreatureMove | crates/protocol/src/walk.rs:110-118 | the id-form move packet |
| Walk.MoveUpBlock | crates/protocol/src/walk.rs:161-237 | the floor-up block: the revealed floors in one stream, then the west and north slices at the old anchor |
| Walk.MoveDownBlock | crates/protocol/src/walk.rs:241-317 | the floor-down block: the revealed floors in one stream, then the east and south slices |
| Walk.WalkUpdate | crates/protocol/src/walk.rs:324-445 | the update is the packets of the step: a leap gets a remove and a full map, everything else header, floor block and slices |
| WalkSync.PacketSyncs | crates/protocol/src/walk.rs:335-348 | a client that receives a packet carrying the tiles of its own centre shifts with it, moves or drops the creature named by its id, and stops at its last byte; of the tiles it had wrong it keeps only those in view before and after, and none after a full map |
| WalkSync.WalkPacketsMatch | crates/protocol/src/walk.rs:324-423 | every region the server sends is anchored where the client's own shifting centre is at that moment |
| WalkSync.CenterFollows | crates/protocol/src/walk.rs:324-423 | the client ends centred on the new position exactly for steps of at most one tile along each axis and for floor changes that leap |
| WalkSync.WalkUpdateSyncs | crates/protocol/src/walk.rs:324-445 | for every such step and every scene the client decodes the whole update and knows every tile of the new viewport, except those it did not know before and has had in view throughout; it has the walker on the new position, moved there by id, or dropped by id with that tile sent again after a leap or a step from floor 7 to 8; no one else is moved |
| WalkSync.WalkerBroughtBack | crates/protocol/src/walk.rs:335-368 | dropped by id, a walker is among the things the client now knows of the tile it stands on |
| WalkSync.FlatStepStays | crates/protocol/src/walk.rs:384-423 | a step on one floor keeps in view throughout exactly the tiles of both viewports |
| WalkSync.JourneySyncs | crates/protocol/src/walk.rs:324-445 | over a journey of any length, through stairs and leaps, with any scene at every stop, the client decodes every update; at its end it has the walker where it is, and knows the last scene on every tile in view, except where something changed and the tile has been in view ever since |
| Containers.Player.PopItem | crates/world/src/game/containers.rs:954-969 | takes out exactly the item at the slot, or nothing |
| Containers.Player.CloseContainerTree | crates/world/src/game/containers.rs:807-828 | wherever the unchecked recursion comes back, it hides the window and everything nested in it, at any depth, and touches nothing else |
| Containers.Player.CloseOrphaned | crates/world/src/game/containers.rs:833-859 | comes back exactly when the window of the removed item is not on its own chain of parents; then siblings behind the gap have moved up by one and that window is hidden with its subtree |
| Containers.Player.PushItem | crates/world/src/game/containers.rs:915-950 | inserts at the front and moves the nested windows down, unless the window is full or missing |
| Containers.Player.NestedDestCid | crates/world/src/game/containers.rs:978-1018 | finds the window of the container in the destination slot, or allocates a closed one |
| Containers.Player.MoveBetweenContainers | crates/world/src/game/containers.rs:1110-1168 | comes back exactly under `MoveReturns`; then the windows are the outcome of the move (`MoveLands` says which), and items are conserved exactly when it is none of the losing kind |
| WindowMoves.DestinationMeans | crates/world/src/game/containers.rs:978-1018 | for every table and move: the target is the first window opened from the container in the destination slot, or else the first never allocated or hidden one, given to it now and empty, or the destination window itself |
| WindowMoves.MoveLands | crates/world/src/game/containers.rs:1110-1168 | for every table and move: the item goes to the front of its target if there is room, back to its own window only if the target is full; every other item, address and window is where the gap, the insertion and the closed subtree leave it |
| Containers.SubtreeFromTop | crates/world/src/game/containers.rs:807-828 | walking up the parents of a window reaches the root exactly when the downward recursion reaches the window |
| WindowNesting.CloseReturns | crates/world/src/game/containers.rs:807-828 | the recursion from a window comes back if and only if the window is not on its own chain of parents, and then it is at most sixteen calls deep |
| WindowNesting.ClosedIsWhole | crates/world/src/game/containers.rs:807-828 | whatever is nested in a window is nested at most sixteen deep: closing deeper closes nothing more |
| WindowNesting.RemovalReturnsExactly | crates/world/src/game/containers.rs:833-859 | taking an item out comes back, at some depth, if and only if no window tracked the item or that window is not on its own chain of parents |
| WindowInvariants.MoveConserves | crates/world/src/game/containers.rs:1110-1168 | for every table and move: if it comes back, the items over all sixteen windows are conserved if and only if no window with items is evicted, the destination exists and not both ends are over-full; no item is ever created |
| WindowInvariants.SecondMoveNeverReturns | crates/world/src/game/containers.rs:1110-1168 | a sound table and two moves of a bag: the first leaves two windows nested in each other, the second never comes back |
| WindowInvariants.ItemLostToMissingWindow | crates/world/src/game/containers.rs:1142-1157 | a move into an unallocated window destroys the item |
| WindowInvariants.MoveKeepsAddresses | crates/world/src/game/containers.rs:1110-1168 | moving a non-container with an allocated destination and a free window comes back and keeps addresses sound and distinct; the item is at the front of its target, or of its own window if that is full, and every other item and nested address slides together |
| WindowInvariants.RemovalKeepsSound | crates/world/src/game/containers.rs:833-859 | after a removal every nested window is still addressed by its own item |
| WindowInvariants.InsertionKeepsSound | crates/world/src/game/containers.rs:915-950 | after a front insertion every nested window is still addressed by its own item |
| WindowInvariants.DestinationKeepsSound | crates/world/src/game/containers.rs:978-1018 | allocating the destination keeps addresses sound and distinct and no window's contents change |
| WindowInvariants.RunKeeps | crates/world/src/game/containers.rs:1110-1168 | any run of such moves comes back after every one of them and keeps the addresses, the capacities and the multiset of all items |
| NodeTree.ParseNode | crates/formats/src/node.rs:61-99 | the recursive parser with its moving cursor computes the node body, and stops on every input because the cursor strictly advances |
| NodeTree.ParseTree | crates/formats/src/node.rs:41-57 | identifier, root marker and root node, or the error of the first thing missing |
| NodeTree.BodyParse | crates/formats/src/node.rs:61-99 | whatever bytes surround it, a written body parses to its node with the cursor just past its end |
| NodeTree.TreeRoundTrip | crates/formats/src/node.rs:41-99 | parsing undoes the escaping writer for every tree, identifier and suffix |
| NodeTree.WriterInjective | crates/formats/src/node.rs:41-99 | the written form determines the tree |
| NodeTree.BodyLocal | crates/formats/src/node.rs:61-99 | a successful parse depends on nothing past its end marker |
| NodeTree.TruncationRejected | crates/formats/src/node.rs:61-99 | every proper prefix of a node is rejected as truncated |
| NodeTree.OnlyEof | crates/formats/src/node.rs:61-99 | running out of bytes is the only way a node body fails |
| Props.PropReader.Take | crates/formats/src/props.rs:60-66 | the next n bytes, or an error that consumes nothing |
| Props.PropReader.TakeU32 | crates/formats/src/props.rs:42-47 | a little-endian 32-bit value from the cursor |
| Props.PropReader.TakeString | crates/formats/src/props.rs:48-54 | a length-prefixed byte string from the cursor; a failure leaves the cursor behind the length, if there was one |
| MapItems.ParseAttributes | crates/formats/src/otbm.rs:287-312 | the last count among the attributes, ending at the first unknown tag |
| MapItems.ParseItem | crates/formats/src/otbm.rs:283-328 | an item tree from its node, or the first error |
| MapItems.AttributesParse | crates/formats/src/otbm.rs:287-312 | any sequence of known attributes is consumed to its last byte and yields its last count |
| MapItems.ItemRoundTrip | crates/formats/src/otbm.rs:283-328 | from file bytes to items: ids, nesting and last counts survive writing, escaping and both parsers |
| MapFile.ParseTileAttributes | crates/formats/src/otbm.rs:240-262 | the last flags and every inline item in order; an unknown tag is refused |
| MapFile.ParseTile | crates/formats/src/otbm.rs:229-278 | a tile from its node: position, house, flags, inline items and then stacked ones |
| MapFile.ParseTileArea | crates/formats/src/otbm.rs:211-226 | appends the tiles of an area in order |
| MapFile.TileParses | crates/formats/src/otbm.rs:229-278 | a written tile parses to its position, last flags and whole stack |
| MapFile.AreaParses | crates/formats/src/otbm.rs:211-226 | an area appends exactly its tiles to those before it |
| WholeMap.SectionsParse | crates/formats/src/otbm.rs:167-178 | the sections of the map-data node append their tiles, towns and waypoints in file order |
| WholeMap.TextsParse | crates/formats/src/otbm.rs:184-209 | descriptions are joined by newlines, and the last spawn and house files count |
| WholeMap.Parse | crates/formats/src/otbm.rs:133-181 | a whole map from its bytes, or the first error |
| WholeMap.MapRoundTrip | crates/formats/src/otbm.rs:133-181 | from the escaped bytes of a whole file to the map, with any nodes beside the map data |
| WholeMap.MapTiles | crates/formats/src/otbm.rs:167-178 | the tiles of the map are exactly those of its areas, in file order |
| MapFile.AreaRoundTrip | crates/formats/src/otbm.rs:211-278 | from escaped bytes to tiles |
| ItemDictionary.ParseVersion | crates/formats/src/otb.rs:145-159 | the three version numbers behind the version tag |
| ItemDictionary.ParseItem | crates/formats/src/otb.rs:162-188 | an item type from its flags and records |
| ItemDictionary.FlagsMean | crates/formats/src/otb.rs:20-125 | what each flag bit and group of an item type means |
| ItemDictionary.Parse | crates/formats/src/otb.rs:127-142 | the version and every item in file order, or the first error |
| ItemDictionary.RecordParses | crates/formats/src/otb.rs:168-178 | a record is consumed exactly whatever length it declares, if its tag is known: only unknown tags look at the length |
| ItemDictionary.DeclaredLengthMatters | crates/formats/src/otb.rs:168-178 | reading a record leaves exactly what follows its declared length if and only if its tag is unknown or it declares the field's own size |
| ItemDictionary.DictionaryRoundTrip | crates/formats/src/otb.rs:127-188 | from escaped bytes to the version and item types, last record of each kind, with any padding and unknown records |
| ItemDictionary.MergeItemsXml | crates/formats/src/items_xml.rs:297-305 | the items in order, each with the floor changes named for its id if there are any |
| ItemDictionary.MergedMeans | crates/formats/src/items_xml.rs:297-305 | named floor changes replace the item's, and nothing else changes |
| Formats.IdPackets | crates/protocol/src/walk.rs:110-157 | the bytes of the packets that name a creature by id |
| Formats.MapPackets | crates/protocol/src/map_description.rs:86-103 | a map packet opens with 0x64 and its centre |
| Formats.TilePackets | crates/protocol/src/walk.rs:161-423 | the opcodes of floor changes and of steps in each direction |
| Formats.ItemBytes | crates/protocol/src/map_description.rs:253-267 | the bytes of an item |
| Formats.CreatureBytes | crates/protocol/src/creature.rs:63-94 | the markers and the fixed bytes of a creature |
| Formats.StreamMarkers | crates/protocol/src/map_description.rs:191-251 | the markers of tiles, of short runs and of a full run |
| Formats.NodeMarkers | crates/formats/src/node.rs:61-99 | the three marker bytes of a node and their escape |
| Formats.ItemAttributes | crates/formats/src/otbm.rs:287-312 | the width of every item attribute, and which one is the count |
| Formats.TileAttributes | crates/formats/src/otbm.rs:240-262 | the two tile attributes |
| Formats.NodeKinds | crates/formats/src/otbm.rs:133-181 | the kinds of nodes, each refused in another's place |
| Formats.MapTexts | crates/formats/src/otbm.rs:184-209 | the texts of a map and how descriptions join |
| Formats.DictionaryTags | crates/formats/src/otb.rs:162-188 | the records of an item type |
| Formats.VersionTag | crates/formats/src/otb.rs:145-159 | the mark in front of the version |
| Xtea.ExpandKey | crates/protocol/src/xtea.rs:15-29 | the precomputed round keys are sum plus key word, the sum advancing between the halves of a cycle |
| Xtea.GoldenDelta | crates/protocol/src/xtea.rs:10-29 | the schedule adds 2^32 over the golden ratio, rounded down, at every step |
| Xtea.TextbookEncipher | crates/protocol/src/xtea.rs:125-141 | 32 Needham-Wheeler cycles with a running sum compute what the precomputed schedule does |
| Xtea.Encrypt | crates/protocol/src/xtea.rs:44-57 | the rounds-outer, blocks-inner loop in place enciphers every whole block separately and leaves trailing bytes alone |
| Xtea.Decrypt | crates/protocol/src/xtea.rs:59-72 | the loop with the rounds backwards deciphers every whole block separately |
| Xtea.CycleInverse | crates/protocol/src/xtea.rs:44-72 | each cycle and its reverse undo each other, wrap-around included |
| Xtea.DecipherPeels | crates/protocol/src/xtea.rs:44-72 | n decryption turns undo the last n encryption cycles |
| Xtea.DecryptUndoesEncrypt | crates/protocol/src/xtea.rs:170-190 | decryption undoes encryption for every key and every byte string of any length |
| Adler.Adler32 | crates/protocol/src/adler.rs:11-19 | the loop computes the checksum, and every intermediate sum fits 32 bits |
| Adler.ClosedForm | crates/protocol/src/adler.rs:11-19 | the two sums are the closed form of section 8.2 of RFC 1950 |
| Adler.KnownChecksums | crates/protocol/src/adler.rs:24-39 | the checksums of the reference vectors |
| Adler.OneByteDetected | crates/protocol/src/adler.rs:11-19 | changing one byte, in data of any length, changes the checksum |
| Adler.TwoBytesDetected | crates/protocol/src/adler.rs:11-19 | overwriting two bytes goes unnoticed if and only if nothing changed or opposite changes lie a multiple of 65521 apart |
| Adler.PrimeFactor | crates/protocol/src/adler.rs:8 | 65521 has no factor in common with any number up to 255 |
| Frame.Checksummed | crates/protocol/src/frame.rs:32-37 | the checksum in front of the payload |
| Frame.Verify | crates/protocol/src/frame.rs:40-51 | the payload, or too short, or both checksums |
| Frame.VerifiesIffFramed | crates/protocol/src/frame.rs:32-51 | a frame verifies with a payload exactly when it is the framing of that payload |
| Frame.OneByteRejected | crates/protocol/src/frame.rs:32-51 | changing any one byte of a frame, header or payload, makes it fail |
| Frame.TwoBytesRejected | crates/protocol/src/frame.rs:32-51 | overwriting two payload bytes of a frame goes unnoticed exactly for opposite changes a multiple of 65521 apart |
| Frame.AdjacentSwapRejected | crates/protocol/src/frame.rs:32-51 | swapping two different neighbouring payload bytes makes it fail |
| Frame.EncryptMessage | crates/protocol/src/xtea.rs:90-99 | length, payload and zero padding, encrypted |
| Frame.DecryptMessage | crates/protocol/src/xtea.rs:102-116 | total on every body, and never reads outside the decrypted bytes |
| Frame.PaddedLength | crates/protocol/src/xtea.rs:90-99 | the padded form is the fewest whole blocks that hold length and payload, filled with zeros |
| Frame.MessageRoundTrip | crates/protocol/src/xtea.rs:90-116 | decryption gives back the first length-mod-65536 bytes of every payload |
| Frame.MessageSurvives | crates/protocol/src/xtea.rs:90-116 | the message survives if and only if it is shorter than 65536 bytes |
| Frame.StackRoundTrip | crates/protocol/src/frame.rs:32-51 | encrypt, frame, verify and decrypt compose to the identity |
| Frame.TamperedStackRejected | crates/protocol/src/frame.rs:40-51 | no one-byte change to a sealed frame gets past verification |
| TileStack.Classify | crates/world/src/map.rs:761-778 | the first item is ground if known; the other known items split into top and down in file order |
| TileStack.BuildStack | crates/world/src/map.rs:761-810 | the stack loop computes the first ten of ground, sorted top items and down items |
| TileStack.WireMeans | crates/world/src/map.rs:180-193 | a pile carries its count and at least one, a splash or fluid its kind or zero, anything else no number |
| TileStack.StackShows | crates/world/src/map.rs:761-810 | for every tile with a stack, item by item: ground, items on top by order and then file order, all other known items in file order, the first ten; each with its own id and count |
| TileStack.StackAligned | crates/world/src/map.rs:1122-1170 | the three lists are aligned and capped at ten, and at least the ground lies below a creature |
| TileStack.SortIsStable | crates/world/src/map.rs:1138-1142 | top items come sorted, and equal orders keep file order |
| TileStack.StableSortUnique | crates/world/src/map.rs:1138-1142 | there is only one such list, so any stable sort gives it |
| ChunkIndex.ChunkCoordinates | crates/world/src/map.rs:226-232 | a position is its chunk of 256 by 256 tiles and its place in it |
| ChunkIndex.MarksAccumulate | crates/world/src/map.rs:1172-1208 | a place is blocked, protected or stacked exactly when some tile there is |
| ChunkIndex.LastStackWins | crates/world/src/map.rs:1139-1170 | among repeated positions the last tile with a stack counts |
| ChunkIndex.PlaceMarked | crates/world/src/map.rs:1172-1208 | in the tiles' own terms: a position is blocked, stops projectiles or lies in a protection zone exactly if some tile with its x, y and z says so |
| ChunkIndex.VerticalMeans | crates/world/src/map.rs:1172-1200 | any item stops projectiles for its tile, floor changes add up, and so do heights, up to 255 |
| ChunkIndex.LastFloorChangeWins | crates/world/src/map.rs:1172-1208 | a position has the floor changes of the last tile there with any |
| ChunkIndex.LastHeightWins | crates/world/src/map.rs:1172-1208 | a position has the height of the last tile there with any |
| ChunkIndex.AddTile | crates/world/src/map.rs:757-848 | one tile changes the answers at its place as the overlay rule says, and nowhere else |
| ChunkIndex.FromFormats | crates/world/src/map.rs:1107-1234 | the whole-world index answers every lookup as the tile list does |
| ChunkIndex.FromOtbmTiles | crates/world/src/map.rs:744-859 | a chunk's index answers every lookup as its own tiles do |
| ChunkIndex.GroupByChunk | crates/server/src/bin/prechunk.rs:63-71 | every group is the chunk's tiles in file order, and every chunk with tiles has a group |
| ChunkIndex.ChunkAnswers | crates/world/src/map.rs:744-859 | inside its chunk a position is found among the chunk's tiles exactly as among all tiles |
| ChunkIndex.Prechunk | crates/server/src/bin/prechunk.rs:63-85 | the offline chunker answers every position as the tile list does, repeated positions included |
| ChunkIndex.CutMap | crates/world/src/map.rs:1024-1029 | cutting a map by chunk keeps every entry findable and adds none |
| ChunkIndex.IntoChunks | crates/world/src/map.rs:1016-1091 | cutting the whole-world index into chunks changes no answer |
| ChunkIndex.BuildBothWays | crates/server/src/bin/prechunk.rs:63-85 | both builds give the same answer at every position |
| WorldView.WholeStackShown | crates/world/src/map.rs:917-926 | where no creature stands the encoder's cap never cuts a built stack |
| WorldView.StackOfOk | crates/world/src/map.rs:177-193 | every built stack holds only items whose optional bytes the client expects |
| WorldView.SeenMeans | crates/world/src/map.rs:917-926 | what the tile list shows at a place, item by item: of the last tile with a stack the items below, then exactly the creatures there, then the rest up to ten things |
| WorldView.ClientSeesMapFile | crates/world/src/map.rs:917-926 | from map tiles to the screen: after the login map and any journey, with any creatures at every stop, a client of either chunk build knows what the tile list shows on every tile in view, except where someone came, went or changed and the tile has been in view ever since |
| WorldView.FilesToScreen | crates/world/src/map.rs:177-193 | from the bytes of both files to the screen: they parse, and a client of whatever chunks answer for the parsed map sees it as above |
| ChunkManager.ChunkManager.EnsureLoaded | crates/world/src/map.rs:324-346 | loads what is neither held nor known missing, and opens exactly those files |
| ChunkManager.ChunkManager.SweepChunks | crates/world/src/map.rs:349-352 | keeps exactly the loaded chunks that are required or pinned |
| ChunkManager.ChunkManager.PinChunks | crates/world/src/map.rs:355-359 | adds exactly those ids |
| ChunkManager.LoadAdds | crates/world/src/map.rs:324-346 | loading adds the asked-for chunks that exist and remembers the ones that do not |
| ChunkManager.RunIsFaithful | crates/world/src/map.rs:324-359 | after every run memory agrees with the disk, nothing is both loaded and missing, and a chunk is held exactly when it was asked for with no sweep since that could drop it |
| ChunkManager.MissesOpenedOnceInRun | crates/world/src/map.rs:297-301 | over a whole run an absent file is opened exactly once if it is ever asked for |
| ChunkManager.ChunksAround | crates/world/src/map.rs:261-274 | the 3x3 grid on every floor of the span, and nothing else |
| ChunkManager.GridMeans | crates/world/src/map.rs:234-274 | nine chunks a floor; floors 0 to 7 above ground, and 8 from floor 7; three either way below, down to 15 |
| ChunkManager.AroundCoversView | crates/world/src/map.rs:240-274 | the chunk of every tile the map description samples is around the player, down to floor 15 |
| ChunkManager.StairSlack | crates/world/src/map.rs:234-247 | the view from one step away is loaded too if and only if the step does not cross between floors 7 and 8 |
| ChunkManager.AheadReaches | crates/world/src/map.rs:679-715 | of a tile found walkable, the chunks loaded ahead and its own hold a neighbour's chunk if and only if the step does not leave the chunk through a corner; the one-step fact behind `StepLoadsAhead` |
| ChunkManager.AheadMeans | crates/world/src/map.rs:679-715 | the chunk across each edge fewer than 20 tiles away, 19 to the right and below |
| SearchLoading.StepLoadsAhead | crates/world/src/pathfinding.rs:211-226 | for every search and every query of it: the queried tile lies in the chunk of the tile it is reached from, or in one loaded ahead of that tile when it was found walkable, if and only if the step leaves neither the start tile's chunk nor a chunk through a corner |
| SearchLoading.KnownDuring | crates/world/src/map.rs:679-715 | the exact criterion at every query: a chunk has been tried if and only if it was known before the search or lies ahead of a tile found walkable since |
| SearchLoading.SearchStaysLoaded | crates/world/src/map.rs:676-715 | every query of every search whose window ends less than 256 tiles from a position with its 3x3 grid tried is about a tried chunk: held unless the disk does not have it |
| SearchLoading.GridStaysKnown | crates/world/src/map.rs:261-274 | once loaded, the grid around a position stays tried for as long as every sweep requires it, whatever else the manager does |
| SearchLoading.PlayerSearchStaysLoaded | crates/world/src/game/mod.rs:1567-1590 | a search of distance below 256 from where a player stands, its grid loaded when the player got there, never asks about an untried chunk |
| SearchLoading.GoodStepsStayLoaded | crates/world/src/map.rs:679-715 | whatever was loaded before, a query reached by such a step is about a chunk the manager has tried by then: it is held unless the disk does not have it |
| SearchLoading.StartEdgeMissed | crates/world/src/map.rs:679-715 | a search from the last column of a chunk asks across a plain edge about a chunk that has been tried if and only if it was known before the search |
| SearchLoading.CornerMissed | crates/world/src/map.rs:679-715 | a search from a corner asks about the chunk across it, which has been tried if and only if it was known before the search, although a tile at that corner was found walkable |
| Combat.ApplyDefenseArmor | crates/world/src/combat.rs:112-143 | whatever is drawn, what gets through lies between the damage less the most and less the least soaked, and is zero exactly when something blocked |
| Combat.SoakedMeans | crates/world/src/combat.rs:112-143 | how much shield and armour soak up at least and at most |
| Combat.Game.DoSetTarget | crates/world/src/game/combat.rs:99-139 | sets, clears or ignores the target |
| FightInvariants.SetTargetMeans | crates/world/src/game/combat.rs:99-139 | zero ends a fight; anything else starts one exactly outside protection zones and with another player or any monster |
| Combat.Game.ApplyDamage | crates/world/src/game/combat.rs:146-265 | the victim loses the hit down to zero, and at zero dies (`PlayerHurtMeans`) |
| Combat.Game.ApplyMonsterDamage | crates/world/src/game/combat.rs:411-516 | the monster loses the hit, turns on its attacker unless busy, peaceful or fleeing, and at zero dies (`MonsterHurtMeans`) |
| FightInvariants.PlayerHurtMeans | crates/world/src/game/combat.rs:146-265 | for every player and hit: gone if and only if the hit is at least its health, else poorer by exactly the hit; a negative hit takes nothing, and no one else loses more than a fight with the dead |
| FightInvariants.MonsterHurtMeans | crates/world/src/game/combat.rs:411-516 | the same for every monster, with its spawn point waiting if it is gone and its new fight if it is left |
| Combat.Game.DoDeath | crates/world/src/game/combat.rs:273-405 | no one fights the victim any more and it is gone |
| Combat.Game.DoMonsterDeath | crates/world/src/game/combat.rs:522-589 | no one fights the victim, it is gone, and its spawn point starts waiting |
| Combat.Game.ProcessPlayerAttack | crates/world/src/game/combat.rs:1059-1164 | a swing is dropped, idle, missed or delivered under exactly the stated conditions |
| Combat.Game.ProcessMonsterAttack | crates/world/src/game/combat.rs:1169-1261 | the same for a monster, whose hits never exceed its attack value |
| FightInvariants.PlayerSwingLands | crates/world/src/game/combat.rs:1059-1164 | a swing lands exactly two seconds after the last, outside protection zones, at someone in reach and in sight |
| FightInvariants.SwingRests | crates/world/src/game/combat.rs:1059-1261 | whoever strikes has then struck now; a miss does nothing else, and a hit hurts the target |
| FightInvariants.MonsterSwingLands | crates/world/src/game/combat.rs:1169-1261 | the same for a monster, which must be hostile, not fleeing and able to hurt, and see the target in its window |
| Combat.Game.PlayerAttacks | crates/world/src/game/combat.rs:730-737 | one swing for every player fight of the snapshot, after which every player fights someone who exists or no one |
| FightInvariants.OnceMeans | crates/world/src/game/combat.rs:730-760 | the log of a round holds exactly one blow for every fight, at the one fought, and no other |
| Combat.Game.MonsterAttacks | crates/world/src/game/combat.rs:753-760 | one swing for every monster fight, after which every fight is live |
| Combat.Game.ProcessRespawns | crates/world/src/game/combat.rs:827-885 | every overdue spawn point gets its monster, and nothing else changes |
| Combat.Game.OnCombatTick | crates/world/src/game/combat.rs:727-767 | a tick restores live fights even from stale ones and leaves no respawn overdue |
| Combat.Game.NearestPlayer | crates/world/src/game/mod.rs:989-1003 | a nearest player on the floor in range, or none |
| FightInvariants.NearestMeans | crates/world/src/game/mod.rs:989-1003 | no player in the square is fewer steps away than the one found |
| Combat.Game.AiFights | crates/world/src/game/mod.rs:1712-1823 | each monster of the bucket flees, turns on a nearest player or gives up a chase; the others are untouched |
| FightInvariants.MoodMeans | crates/world/src/game/mod.rs:1735-1823 | who flees, who turns on the nearest player, and who lets a chase go |
| Combat.Game.LoadSpawns | crates/world/src/game/mod.rs:609-680 | one spawn point and one monster of its breed for every known entry, in file order, and nothing else |
| Combat.Game.DoLogout | crates/world/src/game/session.rs:219-222 | removes the player and clears no fight |
| Combat.Game.Handle | crates/world/src/game/mod.rs:1231-1325 | every command keeps the registries valid; all but a logout keep fights live, and a tick makes them live |
| Combat.Game.Serve | crates/world/src/game/mod.rs:1231-1325 | every run of commands keeps one monster or one timer per spawn point; fights are live at its end unless someone logged out since the last tick; it stops early only when the player ids are used up or no more monster ids are left than spawn points |
| FightInvariants.MonsterDiesKeepsSpawns | crates/world/src/game/combat.rs:584-588 | a death turns its point from living to waiting and keeps every point at exactly one of the two |
| FightInvariants.RespawnKeepsSpawns | crates/world/src/game/combat.rs:834-870 | a respawn turns its point from waiting to living and keeps every point at exactly one of the two |
| FightInvariants.DueAfterInterval | crates/world/src/game/combat.rs:584-588 | after a death its point is due exactly from the interval on, and at once if and only if the interval is zero |
| FightInvariants.AddSpawnKeepsSpawns | crates/world/src/game/mod.rs:609-680 | a new spawn point starts with its one monster |
| FightInvariants.ArrivalMeans | crates/world/src/game/combat.rs:834-870 | whoever arrives is healthy, in its place, fights no one and owes no rest; no one else changes |
| FightInvariants.HurtOnlyDrops | crates/world/src/game/combat.rs:146-516 | a hit removes at most its victim, leaves no one fighting it, and starts at most the victim's fight with its attacker |
| FightInvariants.HurtKeepsValid | crates/world/src/game/combat.rs:146-516 | a hit keeps spawn points, ids and targets, and every live fight live |
| FightInvariants.PlayerSwingSettles | crates/world/src/game/combat.rs:1059-1164 | processing a player's pending fight settles it and unsettles no other |
| FightInvariants.MonsterSwingSettles | crates/world/src/game/combat.rs:1169-1261 | processing a monster's pending fight settles it and unsettles no other |
| FightInvariants.SetTargetKeepsValid | crates/world/src/game/combat.rs:99-139 | choosing a target never starts a fight with oneself, an NPC or no one |
| FightInvariants.MoodKeepsValid | crates/world/src/game/mod.rs:1735-1823 | the monster AI keeps the registries valid and fights live |
| FightInvariants.LoginKeepsValid | crates/world/src/game/session.rs:12-13 | a new player takes a fresh id and fights no one |
| FightInvariants.AddMonsterKeepsValid | crates/world/src/game/gm.rs:505-537 | a monster made by a gamemaster belongs to no spawn point |
| Fights.FleeingMeans | crates/world/src/game/monster.rs:637-643 | a coward flees exactly below a quarter of its health, anyone at or below its own limit; saturation changes nothing |
| FightInvariants.LogoutKeepsLive | crates/world/src/game/session.rs:219-222 | a logout keeps every fight live if and only if no one was fighting the leaver |
| FightInvariants.LogoutLeavesStaleFight | crates/world/src/game/session.rs:219-222 | a concrete logout that leaves a fight with no one |

## Left out

- Sockets, tasks, the database, configuration: input and output. The disk of chunk files is a fixed map.
- RSA, line of sight and weapon formulas: an external bignum library and floating-point rounding.
- Lua, XML, chat, look texts, fixed-layout packets: only easy members.
- A* optimality and completeness: the pruned neighbour lists give neither. `GetPathMatching` states instead what a failed search has settled.
- MapDescription.GetMapDescription: requires a centre on floor 17 or less, because below the loop runs on until its counter wraps (`FloorWalkMisses`); `Encode`, `EncodeSlice` and `WalkUpdate` inherit that.
- Containers.Player.CloseContainerTree: requires that the recursion comes back (`Returns`), because the source overflows its stack on the others; `CloseOrphaned` and `MoveBetweenContainers` report those as not ended and say nothing of the windows then.
- WindowInvariants.MoveKeepsAddresses: does not cover moving a bag, an eviction or an unallocated destination, because the source then leaves stale addresses behind; `MoveConserves` covers all of them for the items themselves.
- Container moves from or to the ground and the inventory, up-arrow, restoring and exporting: they depend on the tile overlay and on code outside the modelled files.
- The overlay of changed tiles, corpses, splashes and decay: their index arithmetic depends on who stands on a tile when the timer fires.
- Combat.Game.AiFights: does not model walking, path refresh and wandering, because they only move creatures; `DoMove` lets any creature move anywhere.
- Combat.Game.Serve: does not model a full send buffer, which logs a player out in the middle of a command; a logout is a command of its own.
- Combat.Game.OnCombatTick: does not model decay and the zone-lock timer and icons of the same tick, because they influence no fight.
- Combat.Game.Handle: models the commands that touch fights, registries or positions; items, containers, text and regeneration are not among them.
- WalkSync.JourneySyncs: leaves out tiles that changed and have been in view ever since, because the packets that announce such a change, and what a client does with them, are not part of this model.
- WorldView.ClientSeesMapFile: the same tiles are left out.
- MapFile.ParseTile: the sum of base and offset wraps at 16 bits as in a release build; a debug build stops there.
- Props.PropReader.TakeString: does not model the lossy UTF-8 decoding; the string stays bytes.
- The text of `items.xml`: `MergeItemsXml` takes the floor changes it names as a function of the item id.
- ChunkManager.ChunkManager.EnsureLoaded: a corrupt file counts as absent, as the source treats it; the serialisation of chunks is not part of this model.
