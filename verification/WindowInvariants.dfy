/** What a move between containers keeps: the items themselves, and the addresses of nested windows. */
module WindowInvariants {
  import opened World
  import opened Windows
  import opened WindowNesting
  import WindowMoves

  // ---------------------------------------------------------------------
  // Conservation of items
  // ---------------------------------------------------------------------

  function Contents(o: Option<OpenContainer>): multiset<ContainerItem> {
    if o.None? then multiset{} else multiset(o.value.items)
  }

  function ItemsBelow(w: Table, n: nat): multiset<ContainerItem>
    requires n <= WINDOWS
  {
    if n == 0 then multiset{} else ItemsBelow(w, n - 1) + Contents(w[n - 1])
  }

  /** Every item in every window, with multiplicity. */
  function AllItems(w: Table): multiset<ContainerItem> {
    ItemsBelow(w, WINDOWS)
  }

  /** Changing one window changes the total by that window's contents. */
  lemma {:induction false} ItemsBelowUpdate(w: Table, c: Cid, o: Option<OpenContainer>, n: nat)
    requires n <= WINDOWS
    ensures n <= c ==> ItemsBelow(w[c := o], n) == ItemsBelow(w, n)
    ensures c < n ==> ItemsBelow(w[c := o], n) + Contents(w[c]) == ItemsBelow(w, n) + Contents(o)
  {
    hide Contents;
    if n > 0 {
      ItemsBelowUpdate(w, c, o, n - 1);
      var before, after, last := ItemsBelow(w, n - 1), ItemsBelow(w[c := o], n - 1), Contents(w[n - 1]);
      if n - 1 == c {
        SwapLast(before, Contents(o), last);
      } else if c < n - 1 {
        SwapLast(after, last, Contents(w[c]));
        SwapLast(before, last, Contents(o));
      }
    }
  }

  lemma SwapLast<T>(a: multiset<T>, b: multiset<T>, c: multiset<T>)
    ensures (a + b) + c == (a + c) + b
  {
  }

  lemma {:induction false} SameContents(v: Table, w: Table, n: nat)
    requires n <= WINDOWS && forall c :: 0 <= c < WINDOWS ==> Contents(v[c]) == Contents(w[c])
    ensures ItemsBelow(v, n) == ItemsBelow(w, n)
  {
    if n > 0 {
      SameContents(v, w, n - 1);
    }
  }

  lemma RemovedItems<T>(s: seq<T>, k: nat)
    requires k < |s|
    ensures multiset(Removed(s, k)) + multiset{s[k]} == multiset(s)
  {
    assert s == s[..k] + ([s[k]] + s[k + 1..]);
  }

  lemma UpdatedItems(w: Table, c: Cid, o: Option<OpenContainer>, rest: multiset<ContainerItem>)
    ensures Contents(w[c]) == Contents(o) + rest ==> AllItems(w) == AllItems(w[c := o]) + rest
    ensures Contents(o) == Contents(w[c]) + rest ==> AllItems(w[c := o]) == AllItems(w) + rest
  {
    hide Contents, ItemsBelow;
    ItemsBelowUpdate(w, c, o, WINDOWS);
    var before, after := AllItems(w), AllItems(w[c := o]);
    if Contents(w[c]) == Contents(o) + rest {
      Cancel(after + rest, before, Contents(o), (after + (Contents(o) + rest)));
    }
    if Contents(o) == Contents(w[c]) + rest {
      Cancel(before + rest, after, Contents(w[c]), (before + (Contents(w[c]) + rest)));
    }
  }

  lemma Cancel<T>(a: multiset<T>, b: multiset<T>, c: multiset<T>, whole: multiset<T>)
    requires a + c == whole && b + c == whole
    ensures a == b
  {
    forall e ensures a[e] == b[e] {
      assert whole[e] == a[e] + c[e];
      assert whole[e] == b[e] + c[e];
    }
  }

  lemma PoppedItems(w: Table, cid: Cid, slot: nat)
    requires HasItem(w, cid, slot)
    ensures AllItems(w) == AllItems(AfterRemoval(Popped(w, cid, slot), cid, slot)) + multiset{ItemAt(w, cid, slot)}
  {
    hide AllItems;
    var p := Popped(w, cid, slot);
    RemovedItems(w[cid].value.items, slot);
    UpdatedItems(w, cid, p[cid], multiset{ItemAt(w, cid, slot)});
    SameItems(AfterRemoval(p, cid, slot), p);
  }

  lemma SameItems(v: Table, w: Table)
    requires forall c :: 0 <= c < WINDOWS ==> Contents(v[c]) == Contents(w[c])
    ensures AllItems(v) == AllItems(w)
  {
    SameContents(v, w, WINDOWS);
  }

  lemma PushedItems(w: Table, cid: Cid, item: ContainerItem)
    ensures AllItems(Pushed(w, cid, item))
         == AllItems(w) + if w[cid].None? || Full(w, cid) then multiset{} else multiset{item}
  {
    hide AllItems;
    if w[cid].Some? && !Full(w, cid) {
      var s := SetItems(w, cid, [item] + w[cid].value.items);
      assert Contents(s[cid]) == Contents(w[cid]) + multiset{item};
      UpdatedItems(w, cid, s[cid], multiset{item});
      SameItems(Pushed(w, cid, item), s);
    }
  }

  /** Resolving the destination only ever replaces that destination's window, by an empty one. */
  lemma DestinationItems(w: Table, meta: Catalogue, fc: Cid, fs: uint8, tc: Cid, ts: uint8)
    ensures var (dest, w1) := Destination(w, meta, fc, fs, tc, ts);
            || w1 == w
            || (w1 == w[dest := w1[dest]] && w1[dest].Some? && w1[dest].value.items == []
                && AllItems(w) == AllItems(w1) + Contents(w[dest]))
  {
    hide AllItems;
    var (dest, w1) := Destination(w, meta, fc, fs, tc, ts);
    if w1 != w {
      UpdatedItems(w, dest, w1[dest], Contents(w[dest]));
    }
  }

  /** `cid` would have no room for one more item after one was taken out of `fc`. */
  predicate FullWithout(w: Table, fc: Cid, cid: Cid)
    requires w[cid].Some?
  {
    |w[cid].value.items| - (if cid == fc then 1 else 0) >= w[cid].value.capacity
  }

  /** When a move loses items: allocating the destination evicts a closed window that holds some; or the
      item is taken out and the destination window does not exist; or the destination is full and so,
      because it held more than its capacity, is the source the item should go back to. */
  predicate MoveLoses(w: Table, meta: Catalogue, fc: Cid, fs: uint8, tc: Cid, ts: uint8) {
    var (dest, w1) := Destination(w, meta, fc, fs, tc, ts);
    && !(fc == tc && fs == ts)
    && (|| (w1 != w && w[dest].Some? && w[dest].value.items != [])
        || (HasItem(w1, fc, fs)
            && (w1[dest].None? || (FullWithout(w1, fc, dest) && FullWithout(w1, fc, fc)))))
  }

  /** For every table and every move that comes back: the items over all sixteen windows are conserved exactly when
      the move is none of the losing kind, and no move ever creates an item. */
  lemma MoveConserves(w: Table, meta: Catalogue, fc: Cid, fs: uint8, tc: Cid, ts: uint8)
    ensures var outcome := MoveOutcome(w, meta, fc, fs, tc, ts);
            && (outcome.None? <==> !MoveReturns(w, meta, fc, fs, tc, ts))
            && (outcome.Some? ==>
                 && (AllItems(outcome.value) == AllItems(w) <==> !MoveLoses(w, meta, fc, fs, tc, ts))
                 && AllItems(outcome.value) <= AllItems(w))
  {
    hide AllItems, MoveReturns, MoveLoses, Moved;
    MovedConserves(w, meta, fc, fs, tc, ts);
  }

  lemma MovedConserves(w: Table, meta: Catalogue, fc: Cid, fs: uint8, tc: Cid, ts: uint8)
    ensures AllItems(Moved(w, meta, fc, fs, tc, ts)) == AllItems(w) <==> !MoveLoses(w, meta, fc, fs, tc, ts)
    ensures AllItems(Moved(w, meta, fc, fs, tc, ts)) <= AllItems(w)
  {
    hide AllItems, Destination, FullWithout, Contents, MovedTo;
    if !(fc == tc && fs == ts) {
      var (dest, w1) := Destination(w, meta, fc, fs, tc, ts);
      MovedIsMovedTo(w, meta, fc, fs, tc, ts);
      DestinationItems(w, meta, fc, fs, tc, ts);
      var evicted := if w1 == w then multiset{} else Contents(w[dest]);
      NoContents(w[dest]);
      var result := if HasItem(w1, fc, fs) then MovedTo(w1, fc, fs, dest) else w1;
      var lost: multiset<ContainerItem> := multiset{};
      if HasItem(w1, fc, fs) {
        MoveResolvedConserves(w1, fc, fs, dest);
        lost := if w1[dest].None? || (FullWithout(w1, fc, dest) && FullWithout(w1, fc, fc))
                then multiset{ItemAt(w1, fc, fs)} else multiset{};
      }
      Remainder(AllItems(w), AllItems(w1), AllItems(result), evicted, lost);
    }
  }

  lemma MovedIsMovedTo(w: Table, meta: Catalogue, fc: Cid, fs: uint8, tc: Cid, ts: uint8)
    requires !(fc == tc && fs == ts)
    ensures var (dest, w1) := Destination(w, meta, fc, fs, tc, ts);
            Moved(w, meta, fc, fs, tc, ts) == if HasItem(w1, fc, fs) then MovedTo(w1, fc, fs, dest) else w1
  {
    hide Destination, AfterRemoval, Pushed;
  }

  lemma NoContents(o: Option<OpenContainer>)
    ensures Contents(o) == multiset{} <==> o.None? || o.value.items == []
  {
    if o.Some? && o.value.items != [] {
      assert o.value.items[0] in Contents(o);
    }
  }

  lemma Remainder<T>(a: multiset<T>, b: multiset<T>, c: multiset<T>, d: multiset<T>, e: multiset<T>)
    requires a == b + d && b == c + e
    ensures c == a <==> d == multiset{} && e == multiset{}
    ensures c <= a
  {
    if c == a {
      forall x ensures d[x] == 0 && e[x] == 0 {
        assert a[x] == b[x] + d[x] && b[x] == c[x] + e[x];
      }
    }
  }

  /** The part of the move after the destination is known. */
  function MovedTo(w: Table, fc: Cid, fs: nat, dest: Cid): Table
    requires HasItem(w, fc, fs)
  {
    var w2 := AfterRemoval(Popped(w, fc, fs), fc, fs);
    if w2[dest].None? then w2
    else Pushed(w2, if Full(w2, dest) then fc else dest, ItemAt(w, fc, fs))
  }

  lemma MoveResolvedConserves(w: Table, fc: Cid, fs: nat, dest: Cid)
    requires HasItem(w, fc, fs)
    ensures var lost := w[dest].None? || (FullWithout(w, fc, dest) && FullWithout(w, fc, fc));
            AllItems(w) == AllItems(MovedTo(w, fc, fs, dest))
                           + if lost then multiset{ItemAt(w, fc, fs)} else multiset{}
  {
    hide AllItems;
    var item := ItemAt(w, fc, fs);
    var w2 := AfterRemoval(Popped(w, fc, fs), fc, fs);
    PoppedItems(w, fc, fs);
    if w2[dest].Some? {
      PushedItems(w2, if Full(w2, dest) then fc else dest, item);
    }
  }

  /** A move into a window that is not allocated destroys the item. */
  lemma ItemLostToMissingWindow(meta: Catalogue, item: ContainerItem) returns (w: Table)
    requires !IsContainer(meta, item)
    ensures MoveReturns(w, meta, 0, 0, 1, 0) && AllItems(w) != AllItems(Moved(w, meta, 0, 0, 1, 0))
  {
    var bag := OpenContainer(1988, 1988, 20, [item], Slot(3), true);
    w := seq(WINDOWS, c => if c == 0 then Some(bag) else None);
    MovedConserves(w, meta, 0, 0, 1, 0);
  }

  // ---------------------------------------------------------------------
  // Addresses of nested windows
  // ---------------------------------------------------------------------

  /** A nested window's address names a container item of an allocated window, of the window's own type. */
  predicate AddressOk(w: Table, meta: Catalogue, c: Cid) {
    w[c].Some? && w[c].value.source.Nested? ==>
      var s := w[c].value.source;
      && s.parentCid < WINDOWS && HasItem(w, s.parentCid, s.parentSlot)
      && IsContainer(meta, ItemAt(w, s.parentCid, s.parentSlot))
      && ItemAt(w, s.parentCid, s.parentSlot).serverId == w[c].value.serverId
  }

  ghost predicate AddressesOk(w: Table, meta: Catalogue) {
    forall c :: 0 <= c < WINDOWS ==> AddressOk(w, meta, c)
  }

  /** No two nested windows have the same address. */
  ghost predicate AddressesDistinct(w: Table) {
    forall c, d :: 0 <= c < d < WINDOWS && w[c].Some? && w[d].Some? && w[c].value.source.Nested?
                   ==> w[c].value.source != w[d].value.source
  }

  ghost predicate WithinCapacity(w: Table) {
    forall c :: 0 <= c < WINDOWS && w[c].Some? ==> |w[c].value.items| <= w[c].value.capacity
  }

  ghost predicate Sound(w: Table, meta: Catalogue) {
    AddressesOk(w, meta) && AddressesDistinct(w) && WithinCapacity(w)
  }

  /** Where the item at `(p, s)` is after an item was taken from `(cid, slot)`. */
  function SlotAfterRemoval(p: int, s: int, cid: Cid, slot: nat): int {
    if p == cid && s > slot then s - 1 else s
  }

  /** The items after a removal, and each window's new address. */
  lemma RemovalItems(w: Table, cid: Cid, slot: nat)
    requires HasItem(w, cid, slot) && forall c :: 0 <= c < WINDOWS ==> !Tracks(w[c], cid, slot)
    ensures var w' := AfterRemoval(Popped(w, cid, slot), cid, slot);
            && (forall p: Cid, s: nat :: HasItem(w, p, s) && !(p == cid && s == slot) ==>
                  var s' := SlotAfterRemoval(p, s, cid, slot);
                  HasItem(w', p, s') && ItemAt(w', p, s') == ItemAt(w, p, s))
            && (forall c :: 0 <= c < WINDOWS && w[c].Some? ==>
                  && w'[c].Some? && w'[c].value.serverId == w[c].value.serverId
                  && w'[c].value.capacity == w[c].value.capacity
                  && |w'[c].value.items| == |w[c].value.items| - (if c == cid then 1 else 0)
                  && w'[c].value.source == SourceAfterRemoval(w[c].value.source, cid, slot))
            && (forall c :: 0 <= c < WINDOWS && w[c].None? ==> w'[c].None?)
  {
    var p := Popped(w, cid, slot);
    forall c | 0 <= c < WINDOWS ensures !Tracks(p[c], cid, slot) {
      assert !Tracks(w[c], cid, slot);
    }
  }

  /** Every item but the removed one keeps its window and moves up behind the gap, and every window
      that was nested somewhere else is still addressed by its own item. */
  lemma RemovalKeepsSound(w: Table, meta: Catalogue, cid: Cid, slot: uint8)
    requires Sound(w, meta) && HasItem(w, cid, slot) && !IsContainer(meta, ItemAt(w, cid, slot))
    ensures var w' := AfterRemoval(Popped(w, cid, slot), cid, slot);
            && Sound(w', meta)
            && (forall p: Cid, s: nat :: HasItem(w, p, s) && !(p == cid && s == slot) ==>
                  var s' := SlotAfterRemoval(p, s, cid, slot);
                  HasItem(w', p, s') && ItemAt(w', p, s') == ItemAt(w, p, s))
            && (forall c :: 0 <= c < WINDOWS && w[c].Some? && w[c].value.source.Nested? ==>
                  w'[c].Some? && w'[c].value.source == Nested(w[c].value.source.parentCid,
                    SlotAfterRemoval(w[c].value.source.parentCid, w[c].value.source.parentSlot, cid, slot)))
  {
    hide AfterRemoval, Popped;
    forall c | 0 <= c < WINDOWS ensures !Tracks(w[c], cid, slot) {
      assert AddressOk(w, meta, c);
    }
    RemovalItems(w, cid, slot);
    var w' := AfterRemoval(Popped(w, cid, slot), cid, slot);
    forall c | 0 <= c < WINDOWS ensures AddressOk(w', meta, c) {
      assert AddressOk(w, meta, c);
    }
    forall c, d | 0 <= c < d < WINDOWS && w'[c].Some? && w'[d].Some? && w'[c].value.source.Nested?
      ensures w'[c].value.source != w'[d].value.source
    {
      assert AddressOk(w, meta, c) && AddressOk(w, meta, d);
      assert w[c].value.source != w[d].value.source;
    }
  }

  lemma InsertionItems(w: Table, cid: Cid, item: ContainerItem)
    requires w[cid].Some? && !Full(w, cid)
    ensures var w' := Pushed(w, cid, item);
            && HasItem(w', cid, 0) && ItemAt(w', cid, 0) == item
            && (forall p: Cid, s: nat :: HasItem(w, p, s) ==>
                  var s' := if p == cid then s + 1 else s;
                  HasItem(w', p, s') && ItemAt(w', p, s') == ItemAt(w, p, s))
            && (forall c :: 0 <= c < WINDOWS && w[c].Some? ==>
                  && w'[c].Some? && w'[c].value.serverId == w[c].value.serverId
                  && w'[c].value.capacity == w[c].value.capacity
                  && |w'[c].value.items| == |w[c].value.items| + (if c == cid then 1 else 0)
                  && w'[c].value.source == SourceAfterInsertion(w[c].value.source, cid))
            && (forall c :: 0 <= c < WINDOWS && w[c].None? ==> w'[c].None?)
  {
  }

  /** Every item of the window moves down one slot for the new one, and takes its window's address along. */
  lemma InsertionKeepsSound(w: Table, meta: Catalogue, cid: Cid, item: ContainerItem)
    requires Sound(w, meta) && w[cid].Some? && !Full(w, cid)
    ensures var w' := Pushed(w, cid, item);
            && Sound(w', meta)
            && HasItem(w', cid, 0) && ItemAt(w', cid, 0) == item
            && (forall p: Cid, s: nat :: HasItem(w, p, s) ==>
                  var s' := if p == cid then s + 1 else s;
                  HasItem(w', p, s') && ItemAt(w', p, s') == ItemAt(w, p, s))
            && (forall c :: 0 <= c < WINDOWS && w[c].Some? && w[c].value.source.Nested? ==>
                  var src := w[c].value.source;
                  w'[c].Some? && w'[c].value.source.Nested? && w'[c].value.source.parentCid == src.parentCid
                  && w'[c].value.source.parentSlot == if src.parentCid == cid then src.parentSlot + 1 else src.parentSlot)
  {
    hide Pushed;
    InsertionItems(w, cid, item);
    var w' := Pushed(w, cid, item);
    forall c | 0 <= c < WINDOWS
      ensures AddressOk(w', meta, c)
      ensures w[c].Some? && w[c].value.source.Nested? && w[c].value.source.parentCid == cid
              ==> w'[c].value.source == Nested(cid, w[c].value.source.parentSlot + 1)
    {
      assert AddressOk(w, meta, c);
    }
    forall c, d | 0 <= c < d < WINDOWS && w'[c].Some? && w'[d].Some? && w'[c].value.source.Nested?
      ensures w'[c].value.source != w'[d].value.source
    {
      assert AddressOk(w, meta, c) && AddressOk(w, meta, d);
      assert w[c].value.source != w[d].value.source;
    }
  }

  /** Resolving the destination needs no eviction: it is resolved already, or a window is unallocated. */
  ghost predicate NoEviction(w: Table, meta: Catalogue, fc: Cid, fs: uint8, tc: Cid, ts: uint8) {
    Destination(w, meta, fc, fs, tc, ts).1 == w || exists c :: 0 <= c < WINDOWS && w[c].None?
  }

  /** A window allocated for the destination is empty, and the first to be nested at its slot. */
  lemma FreshWindow(w: Table, meta: Catalogue, fc: Cid, fs: uint8, tc: Cid, ts: uint8)
    requires NoEviction(w, meta, fc, fs, tc, ts) && Destination(w, meta, fc, fs, tc, ts).1 != w
    ensures var (dest, w1) := Destination(w, meta, fc, fs, tc, ts);
            && w[dest].None? && w1[dest].Some? && w1 == w[dest := w1[dest]]
            && w1[dest].value.items == [] && w1[dest].value.source == Nested(tc, ts)
            && HasItem(w, tc, ts) && IsContainer(meta, ItemAt(w, tc, ts))
            && w1[dest].value.serverId == ItemAt(w, tc, ts).serverId
            && (forall c :: 0 <= c < WINDOWS ==> !Tracks(w[c], tc, ts))
  {
    forall c | 0 <= c < WINDOWS ensures !Tracks(w[c], tc, ts) {
      assert !Tracking(tc, ts)(w[c]);
    }
  }

  lemma DestinationKeepsSound(w: Table, meta: Catalogue, fc: Cid, fs: uint8, tc: Cid, ts: uint8)
    requires Sound(w, meta) && NoEviction(w, meta, fc, fs, tc, ts) && w[tc].Some?
    ensures var (dest, w1) := Destination(w, meta, fc, fs, tc, ts);
            && Sound(w1, meta) && w1[dest].Some?
            && (forall c :: 0 <= c < WINDOWS && w[c].Some? ==> w1[c] == w[c])
  {
    hide Destination, NoEviction;
    var (dest, w1) := Destination(w, meta, fc, fs, tc, ts);
    if w1 == w {
      ResolvedExists(w, meta, fc, fs, tc, ts);
    } else {
      FreshWindow(w, meta, fc, fs, tc, ts);
      FreshKeepsSound(w, meta, dest, w1[dest], tc, ts);
    }
  }

  lemma FreshKeepsSound(w: Table, meta: Catalogue, dest: Cid, added: Option<OpenContainer>, tc: Cid, ts: uint8)
    requires Sound(w, meta) && w[dest].None? && added.Some? && added.value.items == []
    requires added.value.source == Nested(tc, ts) && HasItem(w, tc, ts) && IsContainer(meta, ItemAt(w, tc, ts))
    requires added.value.serverId == ItemAt(w, tc, ts).serverId
    requires forall c :: 0 <= c < WINDOWS ==> !Tracks(w[c], tc, ts)
    ensures Sound(w[dest := added], meta)
  {
    var w1 := w[dest := added];
    forall c | 0 <= c < WINDOWS ensures AddressOk(w1, meta, c) {
      assert AddressOk(w, meta, c);
    }
    forall c, d | 0 <= c < d < WINDOWS && w1[c].Some? && w1[d].Some? && w1[c].value.source.Nested?
      ensures w1[c].value.source != w1[d].value.source
    {
      assert !Tracks(w[c], tc, ts) && !Tracks(w[d], tc, ts);
    }
  }

  lemma ResolvedExists(w: Table, meta: Catalogue, fc: Cid, fs: uint8, tc: Cid, ts: uint8)
    requires w[tc].Some? && Destination(w, meta, fc, fs, tc, ts).1 == w
    ensures w[Destination(w, meta, fc, fs, tc, ts).0].Some?
  {
  }

  /** Where a move leaves the item that was at `(p, s)`, other than the moved one. */
  function SlotAfterMove(p: int, s: int, fc: Cid, fs: nat, at: Cid): int {
    SlotAfterRemoval(p, s, fc, fs) + if p == at then 1 else 0
  }

  /** The item at `(p, s)` is at its new slot, unchanged. */
  ghost predicate ItemFollows(w: Table, w': Table, p: Cid, s: nat, fc: Cid, fs: nat, at: Cid)
    requires HasItem(w, p, s)
  {
    var s' := SlotAfterMove(p, s, fc, fs, at);
    HasItem(w', p, s') && ItemAt(w', p, s') == ItemAt(w, p, s)
  }

  /** The address of window `c` has moved exactly as the item it names. */
  ghost predicate AddressFollows(w: Table, w': Table, c: Cid, fc: Cid, fs: nat, at: Cid) {
    w[c].Some? && w[c].value.source.Nested? ==>
      var src := w[c].value.source;
      && w'[c].Some? && w'[c].value.source.Nested?
      && w'[c].value.source.parentCid == src.parentCid
      && w'[c].value.source.parentSlot == SlotAfterMove(src.parentCid, src.parentSlot, fc, fs, at)
  }

  /** Moving an item that is no container, into an allocated window and without evicting another, keeps
      every address sound and distinct and every window within capacity. The item ends at the front of window
      `at`, its target if there is room and its own window otherwise, every other item slides with the gap and the insertion, and each nested window's
      address slides with its own item, so it names the same container as before. */
  lemma MoveKeepsAddresses(w: Table, meta: Catalogue, fc: Cid, fs: uint8, tc: Cid, ts: uint8) returns (at: Cid)
    requires Sound(w, meta) && w[tc].Some? && NoEviction(w, meta, fc, fs, tc, ts)
    requires HasItem(w, fc, fs) ==> !IsContainer(meta, ItemAt(w, fc, fs))
    ensures MoveReturns(w, meta, fc, fs, tc, ts)
    ensures var w' := Moved(w, meta, fc, fs, tc, ts);
            && Sound(w', meta)
            && (HasItem(w, fc, fs) && !(fc == tc && fs == ts) ==>
                  && LandsAt(w, meta, fc, fs, tc, ts, at)
                  && HasItem(w', at, 0) && ItemAt(w', at, 0) == ItemAt(w, fc, fs)
                  && (forall p: Cid, s: nat :: HasItem(w, p, s) && !(p == fc && s == fs)
                        ==> ItemFollows(w, w', p, s, fc, fs, at))
                  && (forall c :: 0 <= c < WINDOWS ==> AddressFollows(w, w', c, fc, fs, at)))
  {
    hide Destination, AfterRemoval, Pushed, Sound, NoEviction, RemovalReturns;
    at := fc;
    if !(fc == tc && fs == ts) {
      var (dest, w1) := Destination(w, meta, fc, fs, tc, ts);
      DestinationKeepsSound(w, meta, fc, fs, tc, ts);
      if HasItem(w1, fc, fs) {
        if w[fc].None? {
          FreshIsEmpty(w, meta, fc, fs, tc, ts);
        }
        assert w1[fc] == w[fc];
        RemovalKeepsSound(w1, meta, fc, fs);
        PlainRemovalReturns(w1, meta, fc, fs);
        var w2 := AfterRemoval(Popped(w1, fc, fs), fc, fs);
        RoomAfterRemoval(w1, meta, fc, fs, dest);
        at := if Full(w2, dest) then fc else dest;
        WindowMoves.DestinationMeans(w, meta, fc, fs, tc, ts);
        RoomMeans(w1, fc, fs, dest);
        InsertionKeepsSound(w2, meta, at, ItemAt(w1, fc, fs));
      }
    }
  }

  /** The move's target, if that window exists and has room, and otherwise the window the item came from. */
  ghost predicate LandsAt(w: Table, meta: Catalogue, fc: Cid, fs: uint8, tc: Cid, ts: uint8, at: Cid) {
    var (d, w1) := Destination(w, meta, fc, fs, tc, ts);
    && WindowMoves.IsTarget(w, meta, fc, fs, tc, ts, d)
    && HasItem(w1, fc, fs) && w1[d].Some? && at == if WindowMoves.HasRoom(w1, fc, fs, d) then d else fc
  }

  lemma RoomMeans(w: Table, fc: Cid, fs: uint8, d: Cid)
    requires HasItem(w, fc, fs) && w[d].Some?
    ensures Full(AfterRemoval(Popped(w, fc, fs), fc, fs), d) <==> !WindowMoves.HasRoom(w, fc, fs, d)
  {
    hide AfterRemoval, Popped;
    WindowMoves.RemovalMeans(w, fc, fs, d);
    WindowMoves.FullMeans(w, fc, fs, d, AfterRemoval(Popped(w, fc, fs), fc, fs));
  }

  /** Nothing tracks an item that is no container. */
  lemma PlainRemovalReturns(w: Table, meta: Catalogue, cid: Cid, slot: uint8)
    requires Sound(w, meta) && HasItem(w, cid, slot) && !IsContainer(meta, ItemAt(w, cid, slot))
    ensures RemovalReturns(Popped(w, cid, slot), cid, slot)
  {
    hide OnOwnChain, Orphan;
    forall c | 0 <= c < WINDOWS ensures !Tracks(Popped(w, cid, slot)[c], cid, slot) {
      assert AddressOk(w, meta, c);
    }
  }

  lemma FreshIsEmpty(w: Table, meta: Catalogue, fc: Cid, fs: uint8, tc: Cid, ts: uint8)
    requires w[fc].None?
    ensures !HasItem(Destination(w, meta, fc, fs, tc, ts).1, fc, fs)
  {
  }

  lemma RoomAfterRemoval(w: Table, meta: Catalogue, fc: Cid, fs: nat, dest: Cid)
    requires Sound(w, meta) && HasItem(w, fc, fs) && w[dest].Some?
    ensures var w2 := AfterRemoval(Popped(w, fc, fs), fc, fs);
            w2[dest].Some? && w2[fc].Some? && !Full(w2, fc)
  {
  }

  // ---------------------------------------------------------------------
  // Runs of moves
  // ---------------------------------------------------------------------

  datatype Move = Move(fc: Cid, fs: uint8, tc: Cid, ts: uint8)

  function Apply(w: Table, meta: Catalogue, m: Move): Table {
    Moved(w, meta, m.fc, m.fs, m.tc, m.ts)
  }

  /** The moved item is no container, its destination is allocated, and no window has to be evicted. */
  ghost predicate Ordinary(w: Table, meta: Catalogue, m: Move) {
    && (HasItem(w, m.fc, m.fs) ==> !IsContainer(meta, ItemAt(w, m.fc, m.fs)))
    && w[m.tc].Some?
    && NoEviction(w, meta, m.fc, m.fs, m.tc, m.ts)
  }

  function Run(w: Table, meta: Catalogue, ms: seq<Move>): Table
    decreases |ms|
  {
    if ms == [] then w else Run(Apply(w, meta, ms[0]), meta, ms[1..])
  }

  ghost predicate OrdinaryRun(w: Table, meta: Catalogue, ms: seq<Move>)
    decreases |ms|
  {
    ms == [] || (Ordinary(w, meta, ms[0]) && OrdinaryRun(Apply(w, meta, ms[0]), meta, ms[1..]))
  }

  lemma OrdinaryMoveKeepsItems(w: Table, meta: Catalogue, m: Move)
    requires Sound(w, meta) && Ordinary(w, meta, m)
    ensures AllItems(Apply(w, meta, m)) == AllItems(w)
  {
    hide AllItems, Destination;
    var (dest, w1) := Destination(w, meta, m.fc, m.fs, m.tc, m.ts);
    DestinationKeepsSound(w, meta, m.fc, m.fs, m.tc, m.ts);
    if w1 != w {
      FreshWindow(w, meta, m.fc, m.fs, m.tc, m.ts);
    }
    MovedConserves(w, meta, m.fc, m.fs, m.tc, m.ts);
  }

  ghost predicate RunReturns(w: Table, meta: Catalogue, ms: seq<Move>)
    decreases |ms|
  {
    ms == []
    || (MoveReturns(w, meta, ms[0].fc, ms[0].fs, ms[0].tc, ms[0].ts) && RunReturns(Apply(w, meta, ms[0]), meta, ms[1..]))
  }

  /** Any run of ordinary moves comes back, and keeps every address sound, every window within capacity, and the
      multiset of items over all sixteen windows. */
  lemma {:induction false} RunKeeps(w: Table, meta: Catalogue, ms: seq<Move>)
    requires Sound(w, meta) && OrdinaryRun(w, meta, ms)
    ensures RunReturns(w, meta, ms) && Sound(Run(w, meta, ms), meta) && AllItems(Run(w, meta, ms)) == AllItems(w)
    decreases |ms|
  {
    hide Sound, Ordinary, AllItems, MoveReturns, Apply;
    if ms != [] {
      OrdinaryMoveKeeps(w, meta, ms[0]);
      RunKeeps(Apply(w, meta, ms[0]), meta, ms[1..]);
    }
  }

  lemma OrdinaryMoveKeeps(w: Table, meta: Catalogue, m: Move)
    requires Sound(w, meta) && Ordinary(w, meta, m)
    ensures MoveReturns(w, meta, m.fc, m.fs, m.tc, m.ts)
    ensures Sound(Apply(w, meta, m), meta) && AllItems(Apply(w, meta, m)) == AllItems(w)
  {
    hide Sound, AllItems, NoEviction;
    OrdinaryMoveKeepsItems(w, meta, m);
    var _ := MoveKeepsAddresses(w, meta, m.fc, m.fs, m.tc, m.ts);
  }

  // ---------------------------------------------------------------------
  // A move that never returns
  // ---------------------------------------------------------------------

  const COIN := ContainerItem(2148, 3031, Some(1), false)
  const BAG := ContainerItem(1987, 2853, None, false)

  function BagWindow(items: seq<ContainerItem>, source: ContainerSource, isOpen: bool): Option<OpenContainer> {
    Some(OpenContainer(BAG.serverId, BAG.clientId, 8, items, source, isOpen))
  }

  function FromThree(w0: Option<OpenContainer>, w1: Option<OpenContainer>, w2: Option<OpenContainer>): (w: Table)
    ensures w[0] == w0 && w[1] == w1 && w[2] == w2
    ensures forall c :: 3 <= c < WINDOWS ==> w[c] == BagWindow([], Slot(3), true)
  {
    var w := seq(WINDOWS, c requires 0 <= c < WINDOWS =>
      if c == 0 then w0 else if c == 1 then w1 else if c == 2 then w2 else BagWindow([], Slot(3), true));
    assert |w| == WINDOWS;
    w
  }

  /** A bag in a bag in a bag, the middle window hidden, and every other window in use. */
  function ThreeBags(): Table {
    FromThree(BagWindow([COIN, BAG], Slot(3), true), BagWindow([BAG], Nested(0, 1), false),
              BagWindow([BAG], Nested(1, 0), true))
  }

  /** The same after the coin was dropped on the innermost bag, which took the hidden window for it. */
  function BagsInACircle(): Table {
    FromThree(BagWindow([BAG], Slot(3), true), BagWindow([COIN], Nested(2, 0), false),
              BagWindow([BAG], Nested(1, 1), true))
  }

  predicate KnowsBags(meta: Catalogue) {
    meta(BAG.serverId) == Some(ItemMeta(BAG.clientId, true, 8)) && !IsContainer(meta, COIN)
  }

  /** Two moves a player can make, from a sound table: the first nests two windows in each other, the second never
      comes back. */
  lemma SecondMoveNeverReturns(meta: Catalogue)
    requires KnowsBags(meta)
    ensures Sound(ThreeBags(), meta)
    ensures MoveOutcome(ThreeBags(), meta, 0, 0, 2, 0) == Some(BagsInACircle())
    ensures MoveOutcome(BagsInACircle(), meta, 2, 0, 0, 0) == None
  {
    ThreeBagsSound(meta);
    ThreeBagsMoved(meta);
    CircleNeverReturns(meta);
  }

  lemma ThreeBagsSound(meta: Catalogue)
    requires KnowsBags(meta)
    ensures Sound(ThreeBags(), meta)
  {
    var w := ThreeBags();
    assert HasItem(w, 0, 1) && ItemAt(w, 0, 1) == BAG && HasItem(w, 1, 0) && ItemAt(w, 1, 0) == BAG;
    forall c | 0 <= c < WINDOWS ensures AddressOk(w, meta, c) {
      assert c >= 3 ==> w[c] == BagWindow([], Slot(3), true);
    }
  }

  /** Before the coin is put into it, the hidden window has become the innermost bag's. */
  function CoinInHand(): Table {
    FromThree(BagWindow([BAG], Slot(3), true), BagWindow([], Nested(2, 0), false), BagWindow([BAG], Nested(1, 0), true))
  }

  lemma CoinPushed()
    ensures Pushed(CoinInHand(), 1, COIN) == BagsInACircle()
  {
    hide FromThree;
    var w, v := Pushed(CoinInHand(), 1, COIN), BagsInACircle();
    assert [COIN] + [] == [COIN];
    assert forall c :: 0 <= c < WINDOWS ==> w[c] == v[c];
  }

  lemma CoinPopped(w1: Table)
    requires w1 == ThreeBags()[1 := BagWindow([], Nested(2, 0), false)]
    ensures HasItem(w1, 0, 0) && ItemAt(w1, 0, 0) == COIN
    ensures AfterRemoval(Popped(w1, 0, 0), 0, 0) == CoinInHand() && RemovalReturns(Popped(w1, 0, 0), 0, 0)
  {
    hide FromThree, Orphan, OnOwnChain;
    var p, v := Popped(w1, 0, 0), CoinInHand();
    assert Removed([COIN, BAG], 0) == [BAG];
    assert forall c :: 0 <= c < WINDOWS ==> p[c] == v[c] && !Tracks(p[c], 0, 0);
    assert p == v;
    var shifted := MapSources(p, s => SourceAfterRemoval(s, 0, 0));
    assert forall c :: 0 <= c < WINDOWS ==> shifted[c] == p[c];
    assert shifted == p;
  }

  lemma CoinDestination(meta: Catalogue)
    requires KnowsBags(meta)
    ensures Destination(ThreeBags(), meta, 0, 0, 2, 0) == (1, ThreeBags()[1 := BagWindow([], Nested(2, 0), false)])
  {
    hide FirstFrom, FromThree;
    var w := ThreeBags();
    assert w[0].Some? && w[1].Some? && w[2].Some?;
    assert forall c :: 0 <= c < WINDOWS ==> w[c].Some? && !Tracks(w[c], 2, 0) && (IsHidden(w[c]) <==> c == 1);
    assert NextFreeCid(w) == Some(1);
  }

  lemma ThreeBagsMoved(meta: Catalogue)
    requires KnowsBags(meta)
    ensures MoveOutcome(ThreeBags(), meta, 0, 0, 2, 0) == Some(BagsInACircle())
  {
    hide Destination, AfterRemoval, Popped, Pushed, FromThree, RemovalReturns;
    CoinDestination(meta);
    CoinPopped(ThreeBags()[1 := BagWindow([], Nested(2, 0), false)]);
    CoinPushed();
  }

  lemma CircleNeverReturns(meta: Catalogue)
    requires KnowsBags(meta)
    ensures MoveOutcome(BagsInACircle(), meta, 2, 0, 0, 0) == None
  {
    hide Orphan, FromThree, FirstFrom;
    var w := BagsInACircle();
    var p := Popped(w, 2, 0);
    assert Destination(w, meta, 2, 0, 0, 0) == (0, w);
    assert Tracks(p[1], 2, 0) && forall c :: 0 <= c < WINDOWS && c != 1 ==> !Tracks(p[c], 2, 0);
    assert Orphan(p, 2, 0, WINDOWS) == Some(1);
    assert Parent(p, 1) == Some(2) && Parent(p, 2) == Some(1);
    assert Up(p, 1, 2) == Some(1) by {
      assert Up(p, 2, 1) == Up(p, 1, 0) == Some(1);
    }
    assert OnOwnChain(p, 1);
  }
}
