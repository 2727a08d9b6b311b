/** The container engine (crates/world/src/game/containers.rs): methods that update a player's windows in
    place, each proved against the value it computes. Packets are left out. */
module Containers {
  import opened World
  import opened Windows
  import opened WindowNesting
  import opened WindowInvariants

  class Player {
    var windows: Table

    /** `pop_item_from_container` */
    method PopItem(cid: Cid, slot: nat) returns (item: Option<ContainerItem>)
      modifies this
      ensures item.Some? <==> HasItem(old(windows), cid, slot)
      ensures item.None? ==> windows == old(windows)
      ensures item.Some? ==> item.value == ItemAt(old(windows), cid, slot) && windows == Popped(old(windows), cid, slot)
    {
      if windows[cid].None? {
        return None;
      }
      var oc := windows[cid].value;
      if slot >= |oc.items| {
        return None;
      }
      item := Some(oc.items[slot]);
      windows := windows[cid := Some(oc.(items := oc.items[..slot] + oc.items[slot + 1..]))];
    }

    /** `close_container_tree`: hide the window and, depth first, everything nested in it. The recursion has no other
        end than a window without nested ones; `depth` is how deep it goes. */
    method CloseContainerTree(cid: Cid, ghost depth: nat)
      requires Returns(windows, cid, depth)
      modifies this
      ensures windows == Closed(old(windows), cid, depth)
      decreases depth
    {
      hide Closed, InSubtree, BelowSome, Returns;
      ghost var w := windows;
      ghost var d := if depth > 0 then depth - 1 else 0;
      ReturnsBelow(w, cid, depth);
      NoneBelow(w, cid, d);
      for c := 0 to WINDOWS
        invariant HiddenBelow(w, windows, cid, d, c)
      {
        ghost var before := windows;
        SameNesting(w, before, cid, d, c);
        if NestedIn(windows[c], cid) {
          CloseContainerTree(c, d);
        }
        OneMoreBelow(w, before, windows, cid, d, c);
      }
      ghost var below := windows;
      if windows[cid].Some? {
        windows := windows[cid := Some(windows[cid].value.(isOpen := false))];
      }
      TreeClosed(w, below, windows, cid, depth);
    }

    /** `close_orphaned_nested_container`: after the item at `slot` of `cid` was removed. `ended` is false, and the
        windows are left open, where the call that closes the orphan would never come back. */
    method CloseOrphaned(cid: Cid, slot: nat) returns (ended: bool)
      modifies this
      ensures ended <==> RemovalReturns(old(windows), cid, slot)
      ensures ended ==> windows == AfterRemoval(old(windows), cid, slot)
    {
      hide OnOwnChain, Returns;
      var orphaned: Option<Cid> := None;
      ghost var w := windows;
      for c := 0 to WINDOWS
        invariant orphaned == Orphan(w, cid, slot, c)
        invariant forall x :: 0 <= x < WINDOWS ==>
                    windows[x] == if x < c && w[x].Some?
                                  then Some(w[x].value.(source := SourceAfterRemoval(w[x].value.source, cid, slot)))
                                  else w[x]
      {
        if windows[c].Some? && windows[c].value.source.Nested? && windows[c].value.source.parentCid == cid {
          var ps := windows[c].value.source.parentSlot;
          if ps == slot {
            orphaned := Some(c);
          } else if ps > slot {
            windows := windows[c := Some(windows[c].value.(source := Nested(cid, ps - 1)))];
          }
        }
      }
      assert windows == MapSources(w, s => SourceAfterRemoval(s, cid, slot));
      RemovalReturnsExactly(w, cid, slot);
      ended := true;
      if orphaned.Some? {
        ChainOfShape(windows, w, orphaned.value);
        if OnOwnChain(windows, orphaned.value) {
          return false;
        }
        CloseContainerTree(orphaned.value, WINDOWS);
      }
    }

    /** `push_item_to_container`: insert at the front, unless the window is full or missing. */
    method PushItem(cid: Cid, item: ContainerItem)
      modifies this
      ensures windows == Pushed(old(windows), cid, item)
    {
      if windows[cid].None? {
        return;
      }
      var oc := windows[cid].value;
      if |oc.items| >= oc.capacity {
        return;
      }
      windows := windows[cid := Some(oc.(items := [item] + oc.items))];
      ghost var w := windows;
      for c := 0 to WINDOWS
        invariant forall x :: 0 <= x < WINDOWS ==>
                    windows[x] == if x < c && w[x].Some?
                                  then Some(w[x].value.(source := SourceAfterInsertion(w[x].value.source, cid)))
                                  else w[x]
      {
        if windows[c].Some? && windows[c].value.source.Nested? && windows[c].value.source.parentCid == cid {
          var o := windows[c].value;
          windows := windows[c := Some(o.(source := Nested(cid, Min(o.source.parentSlot + 1, 0xFF))))];
        }
      }
      assert windows == MapSources(w, s => SourceAfterInsertion(s, cid));
    }

    /** `nested_dest_cid` */
    method NestedDestCid(meta: Catalogue, parentCid: Cid, slot: uint8) returns (dest: Option<Cid>)
      modifies this
      ensures (dest, windows) == NestedDest(old(windows), meta, parentCid, slot)
    {
      if windows[parentCid].None? || slot >= |windows[parentCid].value.items| {
        return None;
      }
      var sid := windows[parentCid].value.items[slot].serverId;
      if meta(sid).None? || !meta(sid).value.isContainer {
        return None;
      }
      dest := FirstFrom(windows, 0, Tracking(parentCid, slot));
      if dest.Some? {
        return;
      }
      dest := NextFreeCid(windows);
      if dest.Some? {
        var m := meta(sid).value;
        windows := windows[dest.value := Some(OpenContainer(sid, m.clientId, Max(m.containerCapacity, 1), [],
                                                            Nested(parentCid, slot), false))];
      }
    }

    /** Case 1 of `do_move_container`: from `(fc, fs)` to `(tc, ts)`. It returns exactly if `MoveReturns`. Then the
        windows become `Moved`, and their items are conserved exactly when the move is none of the losing kind. */
    method MoveBetweenContainers(meta: Catalogue, fc: Cid, fs: uint8, tc: Cid, ts: uint8) returns (ended: bool)
      modifies this
      ensures ended <==> old(MoveReturns(windows, meta, fc, fs, tc, ts))
      ensures ended ==> MoveOutcome(old(windows), meta, fc, fs, tc, ts) == Some(windows)
      ensures ended ==>
        (AllItems(windows) == old(AllItems(windows)) <==> !old(MoveLoses(windows, meta, fc, fs, tc, ts)))
    {
      hide AllItems, MoveLoses, NestedDest, AfterRemoval, Popped, Pushed, RemovalReturns;
      ended := true;
      MovedConserves(windows, meta, fc, fs, tc, ts);
      if fc == tc && fs == ts {
        return;
      }
      var movingIsContainer := HasItem(windows, fc, fs) && IsContainer(meta, ItemAt(windows, fc, fs));
      var dest := tc;
      if !movingIsContainer {
        var nested := NestedDestCid(meta, tc, ts);
        if nested.Some? {
          dest := nested.value;
        }
      }
      var item := PopItem(fc, fs);
      if item.None? {
        return;
      }
      ended := CloseOrphaned(fc, fs);
      if !ended {
        return;
      }
      if windows[dest].None? {
        return;
      }
      if |windows[dest].value.items| >= windows[dest].value.capacity {
        PushItem(fc, item.value);
        return;
      }
      PushItem(dest, item.value);
    }
  }

  // ---------------------------------------------------------------------
  // The subtree of a window, from the top
  // ---------------------------------------------------------------------

  /** `x` lies in the subtree of one of the first `n` windows nested in `root`. */
  ghost predicate BelowSome(w: Table, root: Cid, x: Cid, depth: nat, n: nat)
    requires n <= WINDOWS
  {
    exists c: Cid :: c < n && NestedIn(w[c], root) && InSubtree(w, c, x, depth)
  }

  /** `v` is `w` with everything below the first `n` windows nested in `root` hidden. */
  ghost predicate HiddenBelow(w: Table, v: Table, root: Cid, depth: nat, n: nat)
    requires n <= WINDOWS
  {
    forall x :: 0 <= x < WINDOWS ==>
      v[x] == if w[x].Some? && BelowSome(w, root, x, depth, n) then Some(w[x].value.(isOpen := false)) else w[x]
  }

  lemma NoneBelow(w: Table, root: Cid, depth: nat)
    ensures HiddenBelow(w, w, root, depth, 0)
  {
  }

  lemma OneMoreBelow(w: Table, before: Table, after: Table, root: Cid, depth: nat, n: nat)
    requires n < WINDOWS && HiddenBelow(w, before, root, depth, n)
    requires after == if NestedIn(before[n], root) then Closed(before, n, depth) else before
    ensures HiddenBelow(w, after, root, depth, n + 1)
  {
    hide InSubtree, BelowSome;
    SubtreeOfShape(w, before, n, depth);
    assert NestedIn(before[n], root) == NestedIn(w[n], root);
    forall x | 0 <= x < WINDOWS
      ensures BelowSome(w, root, x, depth, n + 1)
         <==> BelowSome(w, root, x, depth, n) || (NestedIn(w[n], root) && InSubtree(w, n, x, depth))
    {
      BelowNext(w, root, x, depth, n);
    }
  }

  lemma BelowNext(w: Table, root: Cid, x: Cid, depth: nat, n: nat)
    requires n < WINDOWS
    ensures BelowSome(w, root, x, depth, n + 1)
       <==> BelowSome(w, root, x, depth, n) || (NestedIn(w[n], root) && InSubtree(w, n, x, depth))
  {
    hide InSubtree;
    if NestedIn(w[n], root) && InSubtree(w, n, x, depth) {
      var c: Cid := n;
      assert c < n + 1 && NestedIn(w[c], root) && InSubtree(w, c, x, depth);
    }
  }

  lemma TreeClosed(w: Table, below: Table, after: Table, root: Cid, depth: nat)
    requires HiddenBelow(w, below, root, if depth > 0 then depth - 1 else 0, WINDOWS)
    requires depth == 0 ==> forall c :: 0 <= c < WINDOWS ==> !NestedIn(w[c], root)
    requires after == if below[root].Some? then below[root := Some(below[root].value.(isOpen := false))] else below
    ensures after == Closed(w, root, depth)
  {
    forall x | 0 <= x < WINDOWS ensures after[x] == Closed(w, root, depth)[x] {
      if depth > 0 {
        hide BelowSome;
        SubtreeFromTop(w, root, x, depth);
      }
    }
  }

  /** Every window nested in `root` has a recursion that returns one call earlier. */
  lemma ReturnsBelow(w: Table, root: Cid, depth: nat)
    requires Returns(w, root, depth)
    ensures depth == 0 ==> forall c :: 0 <= c < WINDOWS ==> !NestedIn(w[c], root)
    ensures forall c: Cid :: c < WINDOWS && NestedIn(w[c], root) ==> depth > 0 && Returns(w, c, depth - 1)
  {
  }

  /** Hiding windows does not change what is nested in what. */
  lemma {:induction false} ReturnsOfShape(v: Table, w: Table, root: Cid, depth: nat)
    requires forall x, p :: 0 <= x < WINDOWS && 0 <= p < WINDOWS ==> NestedIn(v[x], p) == NestedIn(w[x], p)
    requires Returns(w, root, depth)
    ensures Returns(v, root, depth)
    decreases depth
  {
    forall c: Cid | c < WINDOWS && NestedIn(v[c], root) ensures depth > 0 && Returns(v, c, depth - 1) {
      ReturnsOfShape(v, w, c, depth - 1);
    }
  }

  lemma SameNesting(w: Table, v: Table, root: Cid, depth: nat, n: nat)
    requires n < WINDOWS && HiddenBelow(w, v, root, depth, n)
    ensures NestedIn(v[n], root) == NestedIn(w[n], root)
    ensures Returns(w, n, depth) ==> Returns(v, n, depth)
  {
    hide BelowSome, Returns;
    if Returns(w, n, depth) {
      ReturnsOfShape(v, w, n, depth);
    }
  }

  /** Only allocation and sources decide nesting. */
  lemma {:induction false} SubtreeOfShape(v: Table, w: Table, root: Cid, depth: nat)
    requires forall c :: 0 <= c < WINDOWS ==>
               v[c].Some? == w[c].Some? && (v[c].Some? ==> v[c].value.source == w[c].value.source)
    ensures forall c :: 0 <= c < WINDOWS ==> InSubtree(v, root, c, depth) == InSubtree(w, root, c, depth)
  {
    if depth > 0 {
      SubtreeOfShape(v, w, root, depth - 1);
    }
  }

  /** Walking up from `x` reaches `root` exactly when some child of `root` has `x` below it. */
  lemma {:induction false} SubtreeFromTop(w: Table, root: Cid, x: Cid, depth: nat)
    requires depth > 0
    ensures InSubtree(w, root, x, depth) <==> x == root || BelowSome(w, root, x, depth - 1, WINDOWS)
    decreases depth
  {
    if x != root && w[x].Some? && w[x].value.source.Nested? && w[x].value.source.parentCid < WINDOWS {
      var parent: Cid := w[x].value.source.parentCid;
      if parent == root {
        assert NestedIn(w[x], root) && InSubtree(w, x, x, depth - 1);
      } else if depth > 1 {
        SubtreeFromTop(w, root, parent, depth - 1);
        if BelowSome(w, root, parent, depth - 2, WINDOWS) {
          var c: Cid :| c < WINDOWS && NestedIn(w[c], root) && InSubtree(w, c, parent, depth - 2);
          assert InSubtree(w, c, x, depth - 1);
        }
        if BelowSome(w, root, x, depth - 1, WINDOWS) {
          var c: Cid :| c < WINDOWS && NestedIn(w[c], root) && InSubtree(w, c, x, depth - 1);
          assert c != x ==> InSubtree(w, c, parent, depth - 2);
        }
      }
    }
  }
}
