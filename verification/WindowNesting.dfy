/** How container windows nest, and when the recursion that closes a window and everything in it comes back
    (`close_container_tree` in crates/world/src/game/containers.rs, which keeps no record of where it has been). */
module WindowNesting {
  import opened World
  import opened Windows

  // ---------------------------------------------------------------------
  // Walking up
  // ---------------------------------------------------------------------

  function Parent(w: Table, c: Cid): Option<Cid> {
    if w[c].Some? && w[c].value.source.Nested? && w[c].value.source.parentCid < WINDOWS
    then Some(w[c].value.source.parentCid) else None
  }

  /** The window `k` levels above `c`. */
  function Up(w: Table, c: Cid, k: nat): Option<Cid>
    decreases k
  {
    if k == 0 then Some(c)
    else if Parent(w, c).None? then None
    else Up(w, Parent(w, c).value, k - 1)
  }

  lemma {:induction false} UpAdd(w: Table, c: Cid, j: nat, k: nat)
    ensures Up(w, c, j + k) == if Up(w, c, j).Some? then Up(w, Up(w, c, j).value, k) else None
    decreases j
  {
    if j > 0 && Parent(w, c).Some? {
      UpAdd(w, Parent(w, c).value, j - 1, k);
    }
  }

  lemma UpDefined(w: Table, c: Cid, j: nat, k: nat)
    requires j <= k && Up(w, c, k).Some?
    ensures Up(w, c, j).Some?
  {
    UpAdd(w, c, j, k - j);
  }

  /** The windows passed on the way up `k` levels, both ends included. */
  ghost function Way(w: Table, c: Cid, k: nat): (s: seq<Cid>)
    requires Up(w, c, k).Some?
    ensures |s| == k + 1 && forall i :: 0 <= i <= k ==> Up(w, c, i) == Some(s[i])
    decreases k
  {
    if k == 0 then [c]
    else
      UpDefined(w, c, k - 1, k);
      Way(w, c, k - 1) + [Up(w, c, k).value]
  }

  function Members(s: seq<nat>): (r: set<nat>)
    ensures forall c :: c in r ==> c in s
  {
    if s == [] then {} else Members(s[..|s| - 1]) + {s[|s| - 1]}
  }

  lemma {:induction false} AllDifferent(s: seq<nat>)
    requires forall i, j :: 0 <= i < j < |s| ==> s[i] != s[j]
    ensures |Members(s)| == |s|
  {
    if s != [] {
      AllDifferent(s[..|s| - 1]);
      assert s[|s| - 1] !in Members(s[..|s| - 1]);
    }
  }

  /** Seventeen windows cannot all be different. */
  lemma Repeats(s: seq<Cid>) returns (i: nat, j: nat)
    requires |s| > WINDOWS
    ensures i < j < |s| && s[i] == s[j]
  {
    if forall i, j :: 0 <= i < j < |s| ==> s[i] != s[j] {
      AllDifferent(s);
      SubsetSize(Members(s), WINDOWS);
      assert false;
    }
    i, j :| 0 <= i < j < |s| && s[i] == s[j];
  }

  // ---------------------------------------------------------------------
  // Sixteen levels are enough
  // ---------------------------------------------------------------------

  /** What lies more than sixteen levels above lies closer as well. */
  lemma Shortcut(w: Table, c: Cid, root: Cid, k: nat) returns (k': nat)
    requires Up(w, c, k) == Some(root) && k >= WINDOWS
    ensures k' < k && Up(w, c, k') == Some(root)
  {
    var s := Way(w, c, k);
    var i, j := Repeats(s);
    UpAdd(w, c, i, k - j);
    UpAdd(w, c, j, k - j);
    k' := i + (k - j);
  }

  lemma {:induction false} NearAncestor(w: Table, c: Cid, root: Cid, k: nat) returns (k': nat)
    requires Up(w, c, k) == Some(root)
    ensures k' < WINDOWS && k' <= k && Up(w, c, k') == Some(root)
    decreases k
  {
    k' := k;
    if k >= WINDOWS {
      k' := Shortcut(w, c, root, k);
      k' := NearAncestor(w, c, root, k');
    }
  }

  lemma {:induction false} SubtreeIsUp(w: Table, root: Cid, c: Cid, depth: nat) returns (k: nat)
    requires InSubtree(w, root, c, depth)
    ensures k <= depth && Up(w, c, k) == Some(root)
    decreases depth
  {
    if c == root {
      k := 0;
    } else {
      k := SubtreeIsUp(w, root, Parent(w, c).value, depth - 1);
      k := k + 1;
    }
  }

  lemma {:induction false} UpIsSubtree(w: Table, root: Cid, c: Cid, k: nat, depth: nat)
    requires k <= depth && Up(w, c, k) == Some(root)
    ensures InSubtree(w, root, c, depth)
    decreases depth
  {
    if k > 0 {
      UpIsSubtree(w, root, Parent(w, c).value, k - 1, depth - 1);
    }
  }

  /** Hiding sixteen levels hides everything below. */
  lemma ClosedIsWhole(w: Table, root: Cid, depth: nat)
    requires depth >= WINDOWS
    ensures Closed(w, root, depth) == Closed(w, root, WINDOWS)
  {
    hide InSubtree, Up;
    forall c | 0 <= c < WINDOWS ensures InSubtree(w, root, c, depth) == InSubtree(w, root, c, WINDOWS) {
      if InSubtree(w, root, c, depth) {
        var k := SubtreeIsUp(w, root, c, depth);
        k := NearAncestor(w, c, root, k);
        UpIsSubtree(w, root, c, k, WINDOWS);
      }
      if InSubtree(w, root, c, WINDOWS) {
        var k := SubtreeIsUp(w, root, c, WINDOWS);
        UpIsSubtree(w, root, c, k, depth);
      }
    }
    assert forall c :: 0 <= c < WINDOWS ==> Closed(w, root, depth)[c] == Closed(w, root, WINDOWS)[c];
  }

  // ---------------------------------------------------------------------
  // When the recursion returns
  // ---------------------------------------------------------------------

  /** The recursion from `root` comes back, at most `depth` calls deep: it calls itself for every window nested in
      `root`, and each of those calls comes back. */
  ghost predicate Returns(w: Table, root: Cid, depth: nat)
    decreases depth
  {
    forall c: Cid :: c < WINDOWS && NestedIn(w[c], root) ==> depth > 0 && Returns(w, c, depth - 1)
  }

  /** `root` lies on its own chain of parents. */
  predicate OnOwnChain(w: Table, root: Cid) {
    exists k :: 0 < k <= WINDOWS && Up(w, root, k) == Some(root)
  }

  lemma NestedIsParent(w: Table, c: Cid, root: Cid)
    ensures NestedIn(w[c], root) <==> Parent(w, c) == Some(root)
  {
  }

  /** A recursion deeper than `depth` has a window that far below its root. */
  lemma {:induction false} DeepWindow(w: Table, root: Cid, depth: nat) returns (c: Cid)
    requires !Returns(w, root, depth)
    ensures Up(w, c, depth + 1) == Some(root)
    decreases depth
  {
    var child: Cid :| child < WINDOWS && NestedIn(w[child], root) && !(depth > 0 && Returns(w, child, depth - 1));
    NestedIsParent(w, child, root);
    assert Up(w, child, 1) == Some(root) by { assert Up(w, root, 0) == Some(root); }
    if depth == 0 {
      c := child;
    } else {
      c := DeepWindow(w, child, depth - 1);
      UpAdd(w, c, depth, 1);
    }
  }

  /** A window that is on its own chain has a child that is on its own chain. */
  lemma ChainGoesOn(w: Table, root: Cid, k: nat) returns (c: Cid)
    requires k > 0 && Up(w, root, k) == Some(root)
    ensures NestedIn(w[c], root) && Up(w, c, k) == Some(c)
  {
    UpDefined(w, root, k - 1, k);
    c := Up(w, root, k - 1).value;
    UpAdd(w, root, k - 1, 1);
    assert Up(w, c, 1) == Some(root);
    assert Parent(w, c) == Some(root);
    NestedIsParent(w, c, root);
    UpAdd(w, c, 1, k - 1);
    assert Up(w, c, 1 + (k - 1)) == Some(c);
  }

  lemma {:induction false} ChainNeverReturns(w: Table, root: Cid, k: nat, depth: nat)
    requires k > 0 && Up(w, root, k) == Some(root)
    ensures !Returns(w, root, depth)
    decreases depth
  {
    var c := ChainGoesOn(w, root, k);
    if depth > 0 {
      ChainNeverReturns(w, c, k, depth - 1);
    }
  }

  /** Sixteen calls deep, some window repeats, and with it the root. */
  lemma DeepMeansChain(w: Table, root: Cid)
    ensures Returns(w, root, WINDOWS - 1) || OnOwnChain(w, root)
  {
    hide Returns, Up;
    if !Returns(w, root, WINDOWS - 1) {
      var c := DeepWindow(w, root, WINDOWS - 1);
      var i, j := Repeats(Way(w, c, WINDOWS));
      var p := j - i;
      UpAdd(w, c, i, WINDOWS - i);
      UpAdd(w, c, j, WINDOWS - i);
      UpAdd(w, c, WINDOWS, p);
      assert Up(w, root, p) == Some(root);
    }
  }

  lemma {:induction false} DeeperReturns(w: Table, root: Cid, depth: nat, deeper: nat)
    requires Returns(w, root, depth) && depth <= deeper
    ensures Returns(w, root, deeper)
    decreases depth
  {
    forall c: Cid | c < WINDOWS && NestedIn(w[c], root) ensures deeper > 0 && Returns(w, c, deeper - 1) {
      DeeperReturns(w, c, depth - 1, deeper - 1);
    }
  }

  /** The recursion returns, at some depth, if and only if the window is not on its own chain of parents; and then
      it is at most sixteen calls deep. */
  lemma CloseReturns(w: Table, root: Cid)
    ensures (exists depth: nat :: Returns(w, root, depth)) <==> !OnOwnChain(w, root)
    ensures Returns(w, root, WINDOWS) <==> !OnOwnChain(w, root)
  {
    hide Returns;
    if OnOwnChain(w, root) {
      var k :| 0 < k <= WINDOWS && Up(w, root, k) == Some(root);
      forall depth: nat ensures !Returns(w, root, depth) {
        ChainNeverReturns(w, root, k, depth);
      }
    } else {
      DeepMeansChain(w, root);
      DeeperReturns(w, root, WINDOWS - 1, WINDOWS);
      assert Returns(w, root, WINDOWS);
    }
  }

  /** Only allocation and parents decide nesting. */
  lemma {:induction false} UpOfShape(v: Table, w: Table, c: Cid, k: nat)
    requires forall x :: 0 <= x < WINDOWS ==> Parent(v, x) == Parent(w, x)
    ensures Up(v, c, k) == Up(w, c, k)
    decreases k
  {
    if k > 0 && Parent(w, c).Some? {
      UpOfShape(v, w, Parent(w, c).value, k - 1);
    }
  }

  lemma ChainOfShape(v: Table, w: Table, root: Cid)
    requires forall x :: 0 <= x < WINDOWS ==> Parent(v, x) == Parent(w, x)
    ensures OnOwnChain(v, root) == OnOwnChain(w, root)
  {
    forall k: nat ensures Up(v, root, k) == Up(w, root, k) {
      UpOfShape(v, w, root, k);
    }
  }

  // ---------------------------------------------------------------------
  // When a removal and a move return
  // ---------------------------------------------------------------------

  /** Taking the item at `slot` out of `cid` comes back unless the window that tracked it is on its own chain. */
  predicate RemovalReturns(w: Table, cid: Cid, slot: nat) {
    var orphan := Orphan(w, cid, slot, WINDOWS);
    orphan.Some? ==> !OnOwnChain(w, orphan.value)
  }

  /** That is: every call it makes comes back, at some depth. */
  lemma RemovalReturnsExactly(w: Table, cid: Cid, slot: nat)
    ensures var shifted := MapSources(w, s => SourceAfterRemoval(s, cid, slot));
            var orphan := Orphan(w, cid, slot, WINDOWS);
            (RemovalReturns(w, cid, slot) <==>
              (orphan.Some? ==> exists depth: nat :: Returns(shifted, orphan.value, depth)))
    ensures var shifted := MapSources(w, s => SourceAfterRemoval(s, cid, slot));
            var orphan := Orphan(w, cid, slot, WINDOWS);
            RemovalReturns(w, cid, slot) && orphan.Some? ==> Returns(shifted, orphan.value, WINDOWS)
  {
    hide Returns, OnOwnChain, Orphan;
    var shifted := MapSources(w, s => SourceAfterRemoval(s, cid, slot));
    var orphan := Orphan(w, cid, slot, WINDOWS);
    if orphan.Some? {
      assert forall x :: 0 <= x < WINDOWS ==> Parent(shifted, x) == Parent(w, x);
      ChainOfShape(shifted, w, orphan.value);
      CloseReturns(shifted, orphan.value);
    }
  }

  /** A move from container to container comes back. */
  predicate MoveReturns(w: Table, meta: Catalogue, fc: Cid, fs: uint8, tc: Cid, ts: uint8) {
    !(fc == tc && fs == ts) ==>
      var w1 := Destination(w, meta, fc, fs, tc, ts).1;
      HasItem(w1, fc, fs) ==> RemovalReturns(Popped(w1, fc, fs), fc, fs)
  }

  /** The windows after a move, if it comes back. */
  function MoveOutcome(w: Table, meta: Catalogue, fc: Cid, fs: uint8, tc: Cid, ts: uint8): Option<Table> {
    if MoveReturns(w, meta, fc, fs, tc, ts) then Some(Moved(w, meta, fc, fs, tc, ts)) else None
  }
}
