/** A player's sixteen container windows as values: what each container operation of
    crates/world/src/game/containers.rs does to them. */
module Windows {
  import opened World

  const WINDOWS: nat := 16

  datatype ContainerItem = ContainerItem(serverId: uint16, clientId: uint16, count: Option<uint8>, animated: bool)

  /** Where a container was opened from; nested ones are addressed by window and slot. */
  datatype ContainerSource =
    | Slot(slot: uint8)
    | Nested(parentCid: uint8, parentSlot: uint8)
    | Ground(pos: Position)

  datatype OpenContainer = OpenContainer(serverId: uint16, clientId: uint16, capacity: uint8,
                                         items: seq<ContainerItem>, source: ContainerSource, isOpen: bool)

  datatype ItemMeta = ItemMeta(clientId: uint16, isContainer: bool, containerCapacity: uint8)

  type Catalogue = uint16 -> Option<ItemMeta>

  /** `[Option<OpenContainer>; 16]`, indexed by cid. */
  type Table = w: seq<Option<OpenContainer>> | |w| == WINDOWS witness seq(WINDOWS, _ => None)

  type Cid = c: int | 0 <= c < WINDOWS

  predicate IsContainer(meta: Catalogue, i: ContainerItem) {
    meta(i.serverId).Some? && meta(i.serverId).value.isContainer
  }

  predicate HasItem(w: Table, cid: Cid, slot: int) {
    w[cid].Some? && 0 <= slot < |w[cid].value.items|
  }

  function ItemAt(w: Table, cid: Cid, slot: int): ContainerItem
    requires HasItem(w, cid, slot)
  {
    w[cid].value.items[slot]
  }

  // ---------------------------------------------------------------------
  // Taking an item out
  // ---------------------------------------------------------------------

  function Removed<T>(s: seq<T>, k: nat): seq<T>
    requires k < |s|
  {
    s[..k] + s[k + 1..]
  }

  function SetItems(w: Table, cid: Cid, items: seq<ContainerItem>): Table
    requires w[cid].Some?
  {
    w[cid := Some(w[cid].value.(items := items))]
  }

  /** `pop_item_from_container` */
  function Popped(w: Table, cid: Cid, slot: nat): Table
    requires HasItem(w, cid, slot)
  {
    SetItems(w, cid, Removed(w[cid].value.items, slot))
  }

  /** After a removal, siblings behind the removed slot move up by one. */
  function SourceAfterRemoval(s: ContainerSource, cid: Cid, slot: nat): ContainerSource {
    if s.Nested? && s.parentCid == cid && s.parentSlot > slot then Nested(s.parentCid, s.parentSlot - 1) else s
  }

  function MapSources(w: Table, f: ContainerSource -> ContainerSource): (r: Table)
    ensures forall c :: 0 <= c < WINDOWS ==>
              r[c] == if w[c].Some? then Some(w[c].value.(source := f(w[c].value.source))) else None
  {
    var r := seq(WINDOWS, c requires 0 <= c < WINDOWS =>
      if w[c].Some? then Some(w[c].value.(source := f(w[c].value.source))) else w[c]);
    assert |r| == WINDOWS;
    r
  }

  predicate Tracks(o: Option<OpenContainer>, cid: Cid, slot: int) {
    o.Some? && o.value.source.Nested? && o.value.source.parentCid == cid && o.value.source.parentSlot == slot
  }

  /** The last window that tracked the removed slot. */
  function Orphan(w: Table, cid: Cid, slot: nat, n: nat): (r: Option<Cid>)
    requires n <= WINDOWS
    ensures r.None? ==> forall c :: 0 <= c < n ==> !Tracks(w[c], cid, slot)
    ensures r.Some? ==> r.value < n && Tracks(w[r.value], cid, slot)
  {
    if n == 0 then None
    else if Tracks(w[n - 1], cid, slot) then Some(n - 1)
    else Orphan(w, cid, slot, n - 1)
  }

  predicate NestedIn(o: Option<OpenContainer>, cid: Cid) {
    o.Some? && o.value.source.Nested? && o.value.source.parentCid == cid
  }

  /** Window `c` is `root`, or nested in it at most `depth` levels down. */
  predicate InSubtree(w: Table, root: Cid, c: Cid, depth: nat)
    decreases depth
  {
    || c == root
    || (depth > 0 && w[c].Some? && w[c].value.source.Nested? && w[c].value.source.parentCid < WINDOWS
        && InSubtree(w, root, w[c].value.source.parentCid, depth - 1))
  }

  /** `close_container_tree`: hide a window and, depth first, everything nested in it. */
  function Closed(w: Table, root: Cid, depth: nat): (r: Table)
    ensures forall c :: 0 <= c < WINDOWS ==>
              r[c] == if w[c].Some? && InSubtree(w, root, c, depth) then Some(w[c].value.(isOpen := false)) else w[c]
  {
    var r := seq(WINDOWS, c requires 0 <= c < WINDOWS =>
      if w[c].Some? && InSubtree(w, root, c, depth) then Some(w[c].value.(isOpen := false)) else w[c]);
    assert |r| == WINDOWS;
    r
  }

  /** `close_orphaned_nested_container` */
  function AfterRemoval(w: Table, cid: Cid, slot: nat): Table {
    var shifted := MapSources(w, s => SourceAfterRemoval(s, cid, slot));
    var orphan := Orphan(w, cid, slot, WINDOWS);
    if orphan.Some? then Closed(shifted, orphan.value, WINDOWS) else shifted
  }

  // ---------------------------------------------------------------------
  // Putting an item in
  // ---------------------------------------------------------------------

  predicate Full(w: Table, cid: Cid) {
    w[cid].Some? && |w[cid].value.items| >= w[cid].value.capacity
  }

  /** After a front insertion, every nested window of `cid` moves down by one (saturating). */
  function SourceAfterInsertion(s: ContainerSource, cid: Cid): ContainerSource {
    if s.Nested? && s.parentCid == cid then Nested(s.parentCid, Min(s.parentSlot + 1, 0xFF)) else s
  }

  /** `push_item_to_container` */
  function Pushed(w: Table, cid: Cid, item: ContainerItem): Table {
    if w[cid].None? || Full(w, cid) then w
    else MapSources(SetItems(w, cid, [item] + w[cid].value.items), s => SourceAfterInsertion(s, cid))
  }

  // ---------------------------------------------------------------------
  // Finding the destination
  // ---------------------------------------------------------------------

  /** The first window from `c` on that satisfies `p`. */
  function FirstFrom(w: Table, c: nat, p: Option<OpenContainer> -> bool): (r: Option<Cid>)
    requires c <= WINDOWS
    ensures r.Some? ==> c <= r.value && p(w[r.value]) && forall d :: c <= d < r.value ==> !p(w[d])
    ensures r.None? ==> forall d :: c <= d < WINDOWS ==> !p(w[d])
    decreases WINDOWS - c
  {
    if c == WINDOWS then None else if p(w[c]) then Some(c) else FirstFrom(w, c + 1, p)
  }

  predicate IsFree(o: Option<OpenContainer>) {
    o.None?
  }

  predicate IsHidden(o: Option<OpenContainer>) {
    o.Some? && !o.value.isOpen
  }

  function Tracking(cid: Cid, slot: int): Option<OpenContainer> -> bool {
    o => Tracks(o, cid, slot)
  }

  /** `next_free_cid`: an unallocated window, or else the first closed one, whose contents are dropped. */
  function NextFreeCid(w: Table): Option<Cid> {
    var free := FirstFrom(w, 0, IsFree);
    if free.Some? then free else FirstFrom(w, 0, IsHidden)
  }

  /** `nested_dest_cid`: the window of the container in the destination slot, allocating a closed one
      if it has none; and the windows afterwards. */
  function NestedDest(w: Table, meta: Catalogue, cid: Cid, slot: uint8): (Option<Cid>, Table) {
    if !HasItem(w, cid, slot) || !IsContainer(meta, ItemAt(w, cid, slot)) then (None, w)
    else
      var tracked := FirstFrom(w, 0, Tracking(cid, slot));
      if tracked.Some? then (tracked, w)
      else
        match NextFreeCid(w)
        case None => (None, w)
        case Some(free) =>
          var sid := ItemAt(w, cid, slot).serverId;
          var m := meta(sid).value;
          (Some(free), w[free := Some(OpenContainer(sid, m.clientId, Max(m.containerCapacity, 1), [],
                                                    Nested(cid, slot), false))])
  }

  // ---------------------------------------------------------------------
  // Moving between containers
  // ---------------------------------------------------------------------

  /** The destination window of a move, and the windows after it was resolved. */
  function Destination(w: Table, meta: Catalogue, fc: Cid, fs: uint8, tc: Cid, ts: uint8): (Cid, Table) {
    if HasItem(w, fc, fs) && IsContainer(meta, ItemAt(w, fc, fs)) then (tc, w)
    else
      var (d, w') := NestedDest(w, meta, tc, ts);
      (if d.Some? then d.value else tc, w')
  }

  /** Case 1 of `do_move_container`: container to container. */
  function Moved(w: Table, meta: Catalogue, fc: Cid, fs: uint8, tc: Cid, ts: uint8): Table {
    if fc == tc && fs == ts then w
    else
      var (dest, w1) := Destination(w, meta, fc, fs, tc, ts);
      if !HasItem(w1, fc, fs) then w1
      else
        var w2 := AfterRemoval(Popped(w1, fc, fs), fc, fs);
        if w2[dest].None? then w2
        else Pushed(w2, if Full(w2, dest) then fc else dest, ItemAt(w1, fc, fs))
  }
}
