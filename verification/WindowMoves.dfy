/** Where a move between containers puts the item, and what it does to every other window: said of each window by
    itself, for every table. */
module WindowMoves {
  import opened World
  import opened Windows
  import opened WindowNesting

  function ItemsIn(w: Table, c: Cid): seq<ContainerItem> {
    if w[c].None? then [] else w[c].value.items
  }

  /** A container lies at `slot` of window `c`. */
  predicate HoldsBag(w: Table, meta: Catalogue, c: Cid, slot: int) {
    && w[c].Some? && 0 <= slot < |w[c].value.items|
    && (var sid := w[c].value.items[slot].serverId;
        meta(sid).Some? && meta(sid).value.isContainer)
  }

  predicate OpenedAt(w: Table, c: Cid, parent: Cid, slot: uint8) {
    w[c].Some? && w[c].value.source == Nested(parent, slot)
  }

  /** `c` is the first window that satisfies `p`. */
  predicate IsFirst(c: Cid, p: int -> bool) {
    p(c) && forall d :: 0 <= d < c ==> !p(d)
  }

  /** The item is put on a container, rather than beside the items of window `tc`: it is none itself. */
  predicate IntoBag(w: Table, meta: Catalogue, fc: Cid, fs: uint8, tc: Cid, ts: uint8) {
    HoldsBag(w, meta, tc, ts) && !HoldsBag(w, meta, fc, fs)
  }

  predicate Untracked(w: Table, tc: Cid, ts: uint8) {
    forall c :: 0 <= c < WINDOWS ==> !OpenedAt(w, c, tc, ts)
  }

  /** Some window can be given to the container: one never allocated, or else one that is hidden. */
  predicate CanAllocate(w: Table) {
    exists c :: 0 <= c < WINDOWS && (w[c].None? || !w[c].value.isOpen)
  }

  /** The window a move is for: the one opened from the container in the destination slot; the one given to it now; or
      the window of that slot. */
  ghost predicate IsTarget(w: Table, meta: Catalogue, fc: Cid, fs: uint8, tc: Cid, ts: uint8, d: Cid) {
    if !IntoBag(w, meta, fc, fs, tc, ts) then d == tc
    else if !Untracked(w, tc, ts) then IsFirst(d, c => 0 <= c < WINDOWS && OpenedAt(w, c, tc, ts))
    else if exists c :: 0 <= c < WINDOWS && w[c].None? then IsFirst(d, c => 0 <= c < WINDOWS && w[c].None?)
    else if CanAllocate(w) then IsFirst(d, c => 0 <= c < WINDOWS && w[c].Some? && !w[c].value.isOpen)
    else d == tc
  }

  /** Whether that window is given to the container only now. */
  predicate IsFresh(w: Table, meta: Catalogue, fc: Cid, fs: uint8, tc: Cid, ts: uint8) {
    IntoBag(w, meta, fc, fs, tc, ts) && Untracked(w, tc, ts) && CanAllocate(w)
  }

  /** A hidden, empty window for the container at `ts` of `tc`, with room for at least one item. */
  function FreshWindow(w: Table, meta: Catalogue, tc: Cid, ts: uint8): OpenContainer
    requires HoldsBag(w, meta, tc, ts)
  {
    var bag := w[tc].value.items[ts];
    var m := meta(bag.serverId).value;
    OpenContainer(bag.serverId, m.clientId, if m.containerCapacity == 0 then 1 else m.containerCapacity, [],
                  Nested(tc, ts), false)
  }

  lemma FirstMeans(w: Table, tc: Cid, ts: uint8)
    ensures forall c :: 0 <= c < WINDOWS ==> (Tracks(w[c], tc, ts) <==> OpenedAt(w, c, tc, ts))
    ensures forall c :: 0 <= c < WINDOWS ==> (Tracking(tc, ts)(w[c]) <==> OpenedAt(w, c, tc, ts))
    ensures forall c :: 0 <= c < WINDOWS ==> (IsFree(w[c]) <==> w[c].None?)
    ensures forall c :: 0 <= c < WINDOWS ==> (IsHidden(w[c]) <==> w[c].Some? && !w[c].value.isOpen)
  {
  }

  /** Resolving the destination finds exactly that window, and changes the table exactly if it is fresh. */
  lemma DestinationMeans(w: Table, meta: Catalogue, fc: Cid, fs: uint8, tc: Cid, ts: uint8)
    ensures var (d, w1) := Destination(w, meta, fc, fs, tc, ts);
            && IsTarget(w, meta, fc, fs, tc, ts, d)
            && w1 == if IsFresh(w, meta, fc, fs, tc, ts) then w[d := Some(FreshWindow(w, meta, tc, ts))] else w
  {
    hide FirstFrom, OpenedAt, Tracks, Tracking, IsFree, IsHidden;
    FirstMeans(w, tc, ts);
    assert HoldsBag(w, meta, fc, fs) <==> HasItem(w, fc, fs) && IsContainer(meta, ItemAt(w, fc, fs));
    assert HoldsBag(w, meta, tc, ts) <==> HasItem(w, tc, ts) && IsContainer(meta, ItemAt(w, tc, ts));
  }

  // ---------------------------------------------------------------------
  // The move itself
  // ---------------------------------------------------------------------

  /** The items of window `c` once the moved one is out. */
  function Left(w: Table, fc: Cid, fs: nat, c: Cid): seq<ContainerItem>
    requires HasItem(w, fc, fs)
  {
    if c == fc then w[fc].value.items[..fs] + w[fc].value.items[fs + 1..] else ItemsIn(w, c)
  }

  predicate HasRoom(w: Table, fc: Cid, fs: nat, c: Cid)
    requires HasItem(w, fc, fs)
  {
    w[c].Some? && |Left(w, fc, fs, c)| < w[c].value.capacity
  }

  /** Where the item ends: in its target `d` if that has room; back where it came from if `d` is full and there is
      room there; and nowhere otherwise. */
  function LandsIn(w: Table, fc: Cid, fs: nat, d: Cid): Option<Cid>
    requires HasItem(w, fc, fs)
  {
    if w[d].None? then None
    else if HasRoom(w, fc, fs, d) then Some(d)
    else if HasRoom(w, fc, fs, fc) then Some(fc)
    else None
  }

  /** The slot of a nested window's own container: up one behind the gap, down one below the insertion. */
  function Follows(parent: int, slot: int, fc: Cid, fs: nat, at: Option<Cid>): int {
    var closed := if parent == fc && slot > fs then slot - 1 else slot;
    if at == Some(parent) && closed < 255 then closed + 1 else closed
  }

  /** Window `c` lies in the one that was opened from the moved item, at any depth. */
  ghost predicate Orphaned(w: Table, fc: Cid, fs: nat, c: Cid) {
    exists o: Cid, k: nat :: fs < 0x100 && OpenedAt(w, o, fc, fs) && Up(w, c, k) == Some(o)
      && forall later :: o < later < WINDOWS ==> !OpenedAt(w, later, fc, fs)
  }

  /** What a move makes of window `c` once its target is known. */
  ghost predicate WindowAfter(w: Table, fc: Cid, fs: nat, at: Option<Cid>, c: Cid, o: Option<OpenContainer>)
    requires HasItem(w, fc, fs)
  {
    && (o.Some? <==> w[c].Some?)
    && (o.Some? ==>
         && o.value.items == (if at == Some(c) then [ItemAt(w, fc, fs)] else []) + Left(w, fc, fs, c)
         && o.value.serverId == w[c].value.serverId && o.value.clientId == w[c].value.clientId
         && o.value.capacity == w[c].value.capacity
         && o.value.source == (match w[c].value.source
                               case Nested(parent, slot) => Nested(parent, Follows(parent, slot, fc, fs, at))
                               case other => other)
         && (o.value.isOpen <==> w[c].value.isOpen && !Orphaned(w, fc, fs, c)))
  }

  lemma OrphanMeans(w: Table, fc: Cid, fs: uint8, c: Cid)
    requires HasItem(w, fc, fs)
    ensures var p := Popped(w, fc, fs);
            var orphan := Orphan(p, fc, fs, WINDOWS);
            (orphan.Some? && InSubtree(MapSources(p, s => SourceAfterRemoval(s, fc, fs)), orphan.value, c, WINDOWS))
            <==> Orphaned(w, fc, fs, c)
  {
    hide Orphan, InSubtree, Up;
    var p := Popped(w, fc, fs);
    var shifted := MapSources(p, s => SourceAfterRemoval(s, fc, fs));
    assert forall x :: 0 <= x < WINDOWS ==> Parent(shifted, x) == Parent(w, x);
    OrphanIsLast(p, fc, fs, WINDOWS);
    assert forall x: int :: 0 <= x < WINDOWS ==> (Tracks(p[x], fc, fs) <==> OpenedAt(w, x, fc, fs));
    var orphan := Orphan(p, fc, fs, WINDOWS);
    if orphan.Some? {
      if InSubtree(shifted, orphan.value, c, WINDOWS) {
        var k := SubtreeIsUp(shifted, orphan.value, c, WINDOWS);
        UpOfShape(shifted, w, c, k);
      }
      if Orphaned(w, fc, fs, c) {
        var o: Cid, k: nat :| OpenedAt(w, o, fc, fs) && Up(w, c, k) == Some(o)
          && forall later :: o < later < WINDOWS ==> !OpenedAt(w, later, fc, fs);
        assert o == orphan.value;
        UpOfShape(shifted, w, c, k);
        k := NearAncestor(shifted, c, o, k);
        UpIsSubtree(shifted, o, c, k, WINDOWS);
      }
    }
  }

  lemma {:induction false} OrphanIsLast(w: Table, cid: Cid, slot: nat, n: nat)
    requires n <= WINDOWS
    ensures var r := Orphan(w, cid, slot, n);
            && (r.None? ==> forall c :: 0 <= c < n ==> !Tracks(w[c], cid, slot))
            && (r.Some? ==> Tracks(w[r.value], cid, slot)
                            && forall c :: r.value < c < n ==> !Tracks(w[c], cid, slot))
  {
    hide Tracks;
    if n > 0 {
      OrphanIsLast(w, cid, slot, n - 1);
    }
  }

  /** After a removal: the item is gone, addresses behind it move up, and its window and all in it are hidden. */
  lemma RemovalMeans(w: Table, fc: Cid, fs: uint8, c: Cid)
    requires HasItem(w, fc, fs)
    ensures WindowAfter(w, fc, fs, None, c, AfterRemoval(Popped(w, fc, fs), fc, fs)[c])
  {
    hide Orphan, InSubtree, Orphaned, MapSources, Closed;
    OrphanMeans(w, fc, fs, c);
    assert [] + Left(w, fc, fs, c) == Left(w, fc, fs, c);
    var p := Popped(w, fc, fs);
    var shifted := MapSources(p, s => SourceAfterRemoval(s, fc, fs));
    GapMeans(w, fc, fs, c, shifted[c]);
    var after := AfterRemoval(p, fc, fs);
    assert after[c] == shifted[c] || (w[c].Some? && after[c] == Some(shifted[c].value.(isOpen := false)));
  }

  /** The gap closes in the window itself and in the addresses of what is nested there. */
  lemma GapMeans(w: Table, fc: Cid, fs: uint8, c: Cid, o: Option<OpenContainer>)
    requires HasItem(w, fc, fs)
    requires var p := Popped(w, fc, fs);
             o == if p[c].Some? then Some(p[c].value.(source := SourceAfterRemoval(p[c].value.source, fc, fs))) else None
    ensures w[c].None? ==> o.None?
    ensures w[c].Some? ==>
      o == Some(w[c].value.(items := Left(w, fc, fs, c),
                            source := match w[c].value.source
                                      case Nested(parent, slot) => Nested(parent, Follows(parent, slot, fc, fs, None))
                                      case other => other))
  {
  }

  /** After an insertion as well. */
  lemma InsertionMeans(w: Table, fc: Cid, fs: uint8, at: Cid, c: Cid, w2: Table)
    requires HasItem(w, fc, fs) && w2[at].Some? && !Full(w2, at)
    requires WindowAfter(w, fc, fs, None, c, w2[c]) && WindowAfter(w, fc, fs, None, at, w2[at])
    ensures WindowAfter(w, fc, fs, Some(at), c, Pushed(w2, at, ItemAt(w, fc, fs))[c])
  {
    hide Orphaned, Left;
    assert [] + Left(w, fc, fs, c) == Left(w, fc, fs, c);
  }

  /** For every table and every move, once its target is resolved: what becomes of each window. */
  lemma MovedMeans(w: Table, fc: Cid, fs: uint8, d: Cid, c: Cid)
    requires HasItem(w, fc, fs)
    ensures var w2 := AfterRemoval(Popped(w, fc, fs), fc, fs);
            var w' := if w2[d].None? then w2 else Pushed(w2, if Full(w2, d) then fc else d, ItemAt(w, fc, fs));
            WindowAfter(w, fc, fs, LandsIn(w, fc, fs, d), c, w'[c])
  {
    hide AfterRemoval, Pushed, Popped, WindowAfter;
    var w2 := AfterRemoval(Popped(w, fc, fs), fc, fs);
    RemovalMeans(w, fc, fs, c);
    RemovalMeans(w, fc, fs, d);
    RemovalMeans(w, fc, fs, fc);
    FullMeans(w, fc, fs, d, w2);
    FullMeans(w, fc, fs, fc, w2);
    if w2[d].Some? {
      var at := if Full(w2, d) then fc else d;
      if Full(w2, at) {
        NothingPushed(w2, at, ItemAt(w, fc, fs));
      } else {
        InsertionMeans(w, fc, fs, at, c, w2);
      }
    }
  }

  lemma FullMeans(w: Table, fc: Cid, fs: uint8, c: Cid, w2: Table)
    requires HasItem(w, fc, fs) && WindowAfter(w, fc, fs, None, c, w2[c])
    ensures w2[c].None? <==> w[c].None?
    ensures w[c].Some? ==> (Full(w2, c) <==> !HasRoom(w, fc, fs, c))
  {
    hide Orphaned;
  }

  lemma NothingPushed(w: Table, at: Cid, item: ContainerItem)
    requires w[at].None? || Full(w, at)
    ensures Pushed(w, at, item) == w
  {
  }

  /** For every table and every move: `d` is the window the move is for, `w1` the table with that window given to its
      container if it had none. If the item is still there, every window becomes as `WindowAfter` says: the item is at
      the front of `d` if `d` exists and has room, and back at the front of its own window only if `d` is full. */
  lemma MoveLands(w: Table, meta: Catalogue, fc: Cid, fs: uint8, tc: Cid, ts: uint8) returns (d: Cid, w1: Table)
    requires !(fc == tc && fs == ts)
    ensures |w| == 16 && IsTarget(w, meta, fc, fs, tc, ts, d)
    ensures w1 == if IsFresh(w, meta, fc, fs, tc, ts) then w[d := Some(FreshWindow(w, meta, tc, ts))] else w
    ensures var w' := Moved(w, meta, fc, fs, tc, ts);
            if HasItem(w1, fc, fs) then
              && (forall c :: 0 <= c < WINDOWS ==> WindowAfter(w1, fc, fs, LandsIn(w1, fc, fs, d), c, w'[c]))
              && (HasRoom(w1, fc, fs, d) ==> HasItem(w', d, 0) && ItemAt(w', d, 0) == ItemAt(w1, fc, fs))
            else w' == w1
  {
    hide Destination, AfterRemoval, Pushed, Popped, IsTarget, IsFresh, FreshWindow, Orphaned, Left;
    d, w1 := Destination(w, meta, fc, fs, tc, ts).0, Destination(w, meta, fc, fs, tc, ts).1;
    DestinationMeans(w, meta, fc, fs, tc, ts);
    if HasItem(w1, fc, fs) {
      forall c | 0 <= c < WINDOWS
        ensures WindowAfter(w1, fc, fs, LandsIn(w1, fc, fs, d), c, Moved(w, meta, fc, fs, tc, ts)[c])
      {
        MovedMeans(w1, fc, fs, d, c);
      }
    }
  }
}
