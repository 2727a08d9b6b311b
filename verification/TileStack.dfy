/** What the map builders derive from one tile: its wire-ordered stack and its movement flags
    (crates/world/src/map.rs). */
module TileStack {
  import opened World
  import opened TileStream
  import ItemDictionary
  import MapFile
  import MapItems

  const MAX_TILE_THINGS: nat := 10

  type FloorFlag = ItemDictionary.FloorFlag
  type ItemType = ItemDictionary.ItemType
  type ItemTypes = map<uint16, ItemType>
  type MapItem = MapItems.MapItem
  type MapTile = MapFile.MapTile

  /** One thing of a stack, with the server id and map count kept beside it. */
  datatype Entry = Entry(wire: WireItem, serverId: uint16, count: Option<uint8>)

  /** Three parallel lists; the first `preCreatureLen` items render below a creature. */
  datatype Stack = Stack(items: seq<WireItem>, serverIds: seq<uint16>, counts: seq<Option<uint8>>, preCreatureLen: nat)

  /** `wire_item` */
  function Wire(t: ItemType, count: Option<uint8>): WireItem {
    var n := if count.Some? then count.value else if t.IsStackable() then 1 else 0;
    WireItem(t.clientId,
             if t.IsStackable() then Some(Max(n, 1)) else if t.IsFluidOrSplash() then Some(n) else None,
             t.IsAnimated())
  }

  /** A pile carries its count and at least one, a splash or a fluid its kind or zero, anything else no number. */
  lemma WireMeans(t: ItemType, count: Option<uint8>)
    ensures Wire(t, count).clientId == t.clientId && (Wire(t, count).animated <==> t.IsAnimated())
    ensures t.IsStackable() && count.Some? && count.value > 0 ==> Wire(t, count).subtype == count
    ensures t.IsStackable() && (count.None? || count.value == 0) ==> Wire(t, count).subtype == Some(1)
    ensures !t.IsStackable() && t.IsFluidOrSplash() ==> Wire(t, count).subtype == if count.Some? then count else Some(0)
    ensures !t.IsStackable() && !t.IsFluidOrSplash() ==> Wire(t, count).subtype == None
  {
  }

  function EntryOf(types: ItemTypes, i: MapItem): Entry
    requires i.id in types
  {
    Entry(Wire(types[i.id], i.count), i.id, i.count)
  }

  // ---------------------------------------------------------------------
  // The stack as it should be
  // ---------------------------------------------------------------------

  /** The known items behind the first that are, or are not, always on top; in file order. */
  function Picked(types: ItemTypes, items: seq<MapItem>, onTop: bool): seq<(uint8, Entry)> {
    if items == [] then []
    else
      var i := items[|items| - 1];
      Picked(types, items[..|items| - 1], onTop)
      + if i.id in types && types[i.id].alwaysOnTop == onTop then [(types[i.id].topOrder, EntryOf(types, i))] else []
  }

  /** Insert behind every entry of the same or a lower order. */
  function Insert(s: seq<(uint8, Entry)>, e: (uint8, Entry)): (r: seq<(uint8, Entry)>)
    ensures |r| == |s| + 1
  {
    if s == [] then [e]
    else if s[|s| - 1].0 <= e.0 then s + [e]
    else Insert(s[..|s| - 1], e) + [s[|s| - 1]]
  }

  /** `sort_by_key` on the top order: a stable sort. */
  function SortByOrder(s: seq<(uint8, Entry)>): (r: seq<(uint8, Entry)>)
    ensures |r| == |s|
  {
    if s == [] then [] else Insert(SortByOrder(s[..|s| - 1]), s[|s| - 1])
  }

  function Entries(s: seq<(uint8, Entry)>): seq<Entry> {
    seq(|s|, i requires 0 <= i < |s| => s[i].1)
  }

  function FirstTen<T>(s: seq<T>): seq<T> {
    s[..Min(|s|, MAX_TILE_THINGS)]
  }

  /** Ground, then top items by order, then down items in file order. */
  function FullStack(types: ItemTypes, items: seq<MapItem>): seq<Entry>
    requires items != [] && items[0].id in types
  {
    [EntryOf(types, items[0])]
    + Entries(SortByOrder(Picked(types, items[1..], true)))
    + Entries(Picked(types, items[1..], false))
  }

  function Wires(s: seq<Entry>): seq<WireItem> {
    seq(|s|, i requires 0 <= i < |s| => s[i].wire)
  }

  function ServerIds(s: seq<Entry>): seq<uint16> {
    seq(|s|, i requires 0 <= i < |s| => s[i].serverId)
  }

  function Counts(s: seq<Entry>): seq<Option<uint8>> {
    seq(|s|, i requires 0 <= i < |s| => s[i].count)
  }

  /** A tile has a stack exactly when its first item is a known one, its ground. */
  function StackOf(types: ItemTypes, items: seq<MapItem>): Option<Stack> {
    if items == [] || items[0].id !in types then None
    else
      var s := FirstTen(FullStack(types, items));
      Some(Stack(Wires(s), ServerIds(s), Counts(s),
                 Min(1 + |Picked(types, items[1..], true)|, MAX_TILE_THINGS)))
  }

  // ---------------------------------------------------------------------
  // The loop that builds it
  // ---------------------------------------------------------------------

  /** Sort the tile's items into ground, top and down items. */
  method Classify(types: ItemTypes, items: seq<MapItem>)
    returns (ground: Option<Entry>, top: seq<(uint8, Entry)>, down: seq<(uint8, Entry)>)
    ensures ground == if items != [] && items[0].id in types then Some(EntryOf(types, items[0])) else None
    ensures items != [] ==> top == Picked(types, items[1..], true) && down == Picked(types, items[1..], false)
  {
    hide Wire;
    ground, top, down := None, [], [];
    for i := 0 to |items|
      invariant ground == if i > 0 && items[0].id in types then Some(EntryOf(types, items[0])) else None
      invariant i > 0 ==> top == Picked(types, items[1..i], true) && down == Picked(types, items[1..i], false)
      invariant i == 0 ==> top == [] && down == []
    {
      if i > 0 {
        assert items[1..i + 1][..i - 1] == items[1..i] && items[1..i + 1][i - 1] == items[i];
      }
      if items[i].id in types {
        var t := types[items[i].id];
        var e := EntryOf(types, items[i]);
        if i == 0 {
          ground := Some(e);
        } else if t.alwaysOnTop {
          top := top + [(t.topOrder, e)];
        } else {
          down := down + [(t.topOrder, e)];
        }
      }
    }
    assert items != [] ==> items[1..|items|] == items[1..];
  }

  /** The stack part of the tile loop of both builders. */
  method BuildStack(types: ItemTypes, items: seq<MapItem>) returns (stack: Option<Stack>)
    ensures stack == StackOf(types, items)
  {
    hide Picked, SortByOrder, EntryOf;
    var ground, top, down := Classify(types, items);
    if ground.None? {
      return None;
    }
    var sorted := SortByOrder(top);
    var all := [ground.value] + Entries(sorted);
    var preCreatureLen := Min(|all|, MAX_TILE_THINGS);
    all := all + Entries(down);
    var wires, serverIds, counts := Wires(all), ServerIds(all), Counts(all);
    assert FirstTen(wires) == Wires(FirstTen(all)) && FirstTen(serverIds) == ServerIds(FirstTen(all));
    assert FirstTen(counts) == Counts(FirstTen(all));
    return Some(Stack(FirstTen(wires), FirstTen(serverIds), FirstTen(counts), preCreatureLen));
  }

  // ---------------------------------------------------------------------
  // What a stack promises
  // ---------------------------------------------------------------------

  /** The three lists are aligned and capped at ten, and at least the ground lies below a creature. */
  lemma StackAligned(types: ItemTypes, items: seq<MapItem>)
    requires StackOf(types, items).Some?
    ensures var s := StackOf(types, items).value;
            && |s.items| == |s.serverIds| == |s.counts| <= MAX_TILE_THINGS
            && 1 <= s.preCreatureLen <= |s.items|
            && s.items[0] == Wire(types[items[0].id], items[0].count)
  {
  }

  function WithOrder(s: seq<(uint8, Entry)>, k: uint8): seq<Entry> {
    if s == [] then []
    else WithOrder(s[..|s| - 1], k) + if s[|s| - 1].0 == k then [s[|s| - 1].1] else []
  }

  predicate Ordered(s: seq<(uint8, Entry)>) {
    forall i, j :: 0 <= i < j < |s| ==> s[i].0 <= s[j].0
  }

  lemma {:induction false} InsertOrdered(s: seq<(uint8, Entry)>, e: (uint8, Entry))
    requires Ordered(s)
    ensures Ordered(Insert(s, e))
    ensures forall i :: 0 <= i < |s| + 1 ==> Insert(s, e)[i].0 <= if s == [] then e.0 else Max(e.0, s[|s| - 1].0)
  {
    if s != [] && s[|s| - 1].0 > e.0 {
      InsertOrdered(s[..|s| - 1], e);
    }
  }

  lemma WithOrderSnoc(s: seq<(uint8, Entry)>, e: (uint8, Entry), k: uint8)
    ensures WithOrder(s + [e], k) == WithOrder(s, k) + if e.0 == k then [e.1] else []
  {
    assert (s + [e])[..|s|] == s;
  }

  lemma InsertSplit(s: seq<(uint8, Entry)>, e: (uint8, Entry))
    requires s != []
    ensures var front, last := s[..|s| - 1], s[|s| - 1];
            s == front + [last] && Insert(s, e) == if last.0 <= e.0 then s + [e] else Insert(front, e) + [last]
  {
  }

  lemma {:induction false} InsertStable(s: seq<(uint8, Entry)>, e: (uint8, Entry), k: uint8)
    ensures WithOrder(Insert(s, e), k) == WithOrder(s, k) + if e.0 == k then [e.1] else []
  {
    hide WithOrder, Insert;
    if s == [] {
      InsertFirst(e);
      WithOrderSnoc([], e, k);
      assert [] + [e] == [e];
    } else {
      InsertSplit(s, e);
      var front, last := s[..|s| - 1], s[|s| - 1];
      if last.0 <= e.0 {
        WithOrderSnoc(s, e, k);
      } else {
        InsertStable(front, e, k);
        WithOrderSnoc(front, last, k);
        WithOrderSnoc(Insert(front, e), last, k);
      }
    }
  }

  lemma InsertFirst(e: (uint8, Entry))
    ensures Insert([], e) == [e]
  {
  }

  /** The top items come sorted by order, and items of one order keep their file order. */
  lemma {:induction false} SortIsStable(s: seq<(uint8, Entry)>, k: uint8)
    ensures Ordered(SortByOrder(s)) && WithOrder(SortByOrder(s), k) == WithOrder(s, k)
  {
    if s != [] {
      SortIsStable(s[..|s| - 1], k);
      InsertOrdered(SortByOrder(s[..|s| - 1]), s[|s| - 1]);
      InsertStable(SortByOrder(s[..|s| - 1]), s[|s| - 1], k);
    }
  }

  /** Sortedness and file order within each order determine the list: there is one stable sort. */
  lemma {:induction false} StableSortUnique(a: seq<(uint8, Entry)>, b: seq<(uint8, Entry)>)
    requires Ordered(a) && Ordered(b)
    requires forall k: uint8 :: WithOrder(a, k) == WithOrder(b, k)
    ensures a == b
    decreases |a| + |b|
  {
    hide WithOrder, Ordered;
    LastPresent(a);
    LastPresent(b);
    NothingWithOrder();
    assert a == [] <==> b == [];
    if a != [] {
      var x, y := a[|a| - 1], b[|b| - 1];
      OrderPresent(b, x.0, WithOrder(a, x.0));
      OrderPresent(a, y.0, WithOrder(b, y.0));
      assert x.0 == y.0;
      var p, q := a[..|a| - 1], b[..|b| - 1];
      assert a == p + [x] && b == q + [y];
      FrontOrdered(a);
      FrontOrdered(b);
      forall k: uint8 ensures WithOrder(p, k) == WithOrder(q, k) && (k == x.0 ==> x.1 == y.1) {
        WithOrderSnoc(p, x, k);
        WithOrderSnoc(q, y, k);
        SameFront(WithOrder(p, k), WithOrder(q, k), if x.0 == k then [x.1] else [], if x.0 == k then [y.1] else []);
      }
      assert WithOrder(p, x.0) == WithOrder(q, x.0) && x == y;
      StableSortUnique(p, q);
    }
  }

  lemma SameFront<T>(a: seq<T>, b: seq<T>, x: seq<T>, y: seq<T>)
    requires a + x == b + y && |x| == |y|
    ensures a == b && x == y
  {
    assert a == (a + x)[..|a|] && b == (b + y)[..|b|];
    assert x == (a + x)[|a|..] && y == (b + y)[|b|..];
  }

  lemma NothingWithOrder()
    ensures forall k: uint8 :: WithOrder([], k) == []
  {
  }

  lemma FrontOrdered(s: seq<(uint8, Entry)>)
    requires s != [] && Ordered(s)
    ensures Ordered(s[..|s| - 1])
  {
  }

  lemma LastPresent(s: seq<(uint8, Entry)>)
    ensures s != [] ==> WithOrder(s, s[|s| - 1].0) != []
  {
  }

  /** An order that occurs in the list is at most the order of the last entry. */
  lemma {:induction false} OrderPresent(s: seq<(uint8, Entry)>, k: uint8, found: seq<Entry>)
    requires Ordered(s) && s != [] && found == WithOrder(s, k) && found != []
    ensures k <= s[|s| - 1].0
  {
    if s[|s| - 1].0 != k {
      var p := s[..|s| - 1];
      if p != [] {
        OrderPresent(p, k, WithOrder(p, k));
      }
    }
  }

  // ---------------------------------------------------------------------
  // The stack, item by item
  // ---------------------------------------------------------------------

  /** `i` is a known item behind the first, and always on top or not as asked. */
  predicate IsPicked(types: ItemTypes, items: seq<MapItem>, onTop: bool, i: int) {
    0 < i < |items| && items[i].id in types && types[items[i].id].alwaysOnTop == onTop
  }

  function OrderedEntry(types: ItemTypes, items: seq<MapItem>, i: nat): (uint8, Entry)
    requires i < |items| && items[i].id in types
  {
    (types[items[i].id].topOrder, EntryOf(types, items[i]))
  }

  /** `s` lists the entries of the items at `places`. */
  ghost predicate Lists(types: ItemTypes, items: seq<MapItem>, s: seq<(uint8, Entry)>, places: seq<nat>) {
    && |s| == |places|
    && forall k :: 0 <= k < |s| ==>
         && places[k] < |items| && items[places[k]].id in types
         && s[k] == OrderedEntry(types, items, places[k])
  }

  predicate Rising(places: seq<nat>) {
    forall j, k :: 0 <= j < k < |places| ==> places[j] < places[k]
  }

  lemma PickedSnoc(types: ItemTypes, items: seq<MapItem>, onTop: bool, n: nat)
    requires 0 < n < |items|
    ensures Picked(types, items[1..n + 1], onTop)
         == Picked(types, items[1..n], onTop)
            + if IsPicked(types, items, onTop, n) then [OrderedEntry(types, items, n)] else []
  {
    hide EntryOf;
    assert items[1..n + 1][..n - 1] == items[1..n] && items[1..n + 1][n - 1] == items[n];
  }

  lemma ListsSnoc(types: ItemTypes, items: seq<MapItem>, s: seq<(uint8, Entry)>, places: seq<nat>, n: nat)
    requires Lists(types, items, s, places) && n < |items| && items[n].id in types
    ensures Lists(types, items, s + [OrderedEntry(types, items, n)], places + [n])
  {
    hide EntryOf;
  }

  lemma MemberSnoc(places: seq<nat>, n: nat)
    ensures forall i :: i in places + [n] <==> i in places || i == n
  {
  }

  lemma {:induction false} PickedMeans(types: ItemTypes, items: seq<MapItem>, onTop: bool, n: nat)
    returns (places: seq<nat>)
    requires 0 < n <= |items|
    ensures Lists(types, items, Picked(types, items[1..n], onTop), places) && Rising(places)
    ensures forall i :: i in places <==> i < n && IsPicked(types, items, onTop, i)
  {
    hide OrderedEntry, Picked, Lists;
    places := [];
    if n == 1 {
      NothingListed(types, items, onTop);
    } else {
      places := PickedMeans(types, items, onTop, n - 1);
      PickedSnoc(types, items, onTop, n - 1);
      var front := Picked(types, items[1..n - 1], onTop);
      assert front + [] == front;
      if IsPicked(types, items, onTop, n - 1) {
        ListsSnoc(types, items, front, places, n - 1);
        MemberSnoc(places, n - 1);
        assert forall k :: 0 <= k < |places| ==> places[k] in places;
        places := places + [n - 1];
      }
    }
  }

  lemma NothingListed(types: ItemTypes, items: seq<MapItem>, onTop: bool)
    requires items != []
    ensures Lists(types, items, Picked(types, items[1..1], onTop), [])
  {
  }

  /** The item at `i` comes before the one at `j`: by order, and within one order by place in the file. */
  predicate Precedes(types: ItemTypes, items: seq<MapItem>, i: nat, j: nat) {
    && i < |items| && j < |items| && items[i].id in types && items[j].id in types
    && (var a, b := types[items[i].id].topOrder, types[items[j].id].topOrder;
        a < b || (a == b && i < j))
  }

  ghost predicate InOrder(types: ItemTypes, items: seq<MapItem>, places: seq<nat>) {
    forall j, k :: 0 <= j < k < |places| ==> Precedes(types, items, places[j], places[k])
  }

  /** Where a new entry goes: behind all of its order or less, in front of all of a greater one. */
  lemma {:induction false} InsertMeans(s: seq<(uint8, Entry)>, e: (uint8, Entry)) returns (at: nat)
    requires Ordered(s)
    ensures at <= |s| && Insert(s, e) == s[..at] + [e] + s[at..]
    ensures (forall k :: 0 <= k < at ==> s[k].0 <= e.0) && (forall k :: at <= k < |s| ==> s[k].0 > e.0)
  {
    if s == [] || s[|s| - 1].0 <= e.0 {
      at := |s|;
    } else {
      at := InsertMeans(s[..|s| - 1], e);
      assert s == s[..|s| - 1] + [s[|s| - 1]];
    }
  }

  lemma {:induction false} SortMeans(types: ItemTypes, items: seq<MapItem>, s: seq<(uint8, Entry)>, places: seq<nat>)
    returns (sorted: seq<nat>)
    requires Lists(types, items, s, places) && Rising(places)
    ensures Lists(types, items, SortByOrder(s), sorted) && InOrder(types, items, sorted)
    ensures multiset(sorted) == multiset(places)
  {
    hide OrderedEntry, Insert, SortByOrder, Lists, InOrder, Ordered;
    sorted := [];
    ListsLength(types, items, s, places);
    if s == [] {
      NothingSorted(types, items);
    } else {
      var last := |s| - 1;
      var front, place := places[..last], places[last];
      assert places == front + [place];
      ListsFront(types, items, s, places);
      var before := SortMeans(types, items, s[..last], front);
      SortIsStable(s[..last], 0);
      var r := SortByOrder(s[..last]);
      ListsLength(types, items, r, before);
      var at := InsertMeans(r, s[last]);
      sorted := before[..at] + [place] + before[at..];
      assert before == before[..at] + before[at..];
      forall k | 0 <= k < |before| ensures before[k] < place {
        assert before[k] in multiset(before);
        assert before[k] in front;
      }
      InsertLists(types, items, before, place, at, r, s[last]);
      InsertKeepsOrder(types, items, before, place, at, r, s[last]);
      SortSnoc(s);
    }
  }

  lemma ListsLength(types: ItemTypes, items: seq<MapItem>, s: seq<(uint8, Entry)>, places: seq<nat>)
    requires Lists(types, items, s, places)
    ensures |s| == |places|
  {
  }

  lemma NothingSorted(types: ItemTypes, items: seq<MapItem>)
    ensures Lists(types, items, SortByOrder([]), []) && InOrder(types, items, [])
  {
  }

  lemma SortSnoc(s: seq<(uint8, Entry)>)
    requires s != []
    ensures SortByOrder(s) == Insert(SortByOrder(s[..|s| - 1]), s[|s| - 1])
  {
  }

  lemma ListsFront(types: ItemTypes, items: seq<MapItem>, s: seq<(uint8, Entry)>, places: seq<nat>)
    requires Lists(types, items, s, places) && s != []
    ensures Lists(types, items, s[..|s| - 1], places[..|s| - 1])
    ensures var p := places[|s| - 1];
            p < |items| && items[p].id in types && s[|s| - 1] == OrderedEntry(types, items, p)
  {
    hide EntryOf;
  }

  lemma InsertLists(types: ItemTypes, items: seq<MapItem>, before: seq<nat>, place: nat, at: nat,
                    r: seq<(uint8, Entry)>, e: (uint8, Entry))
    requires Lists(types, items, r, before) && at <= |r| == |before|
    requires place < |items| && items[place].id in types && e == OrderedEntry(types, items, place)
    ensures Lists(types, items, r[..at] + [e] + r[at..], before[..at] + [place] + before[at..])
  {
    hide OrderedEntry;
  }

  lemma InsertKeepsOrder(types: ItemTypes, items: seq<MapItem>, before: seq<nat>, place: nat, at: nat,
                         r: seq<(uint8, Entry)>, e: (uint8, Entry))
    requires Lists(types, items, r, before) && InOrder(types, items, before) && at <= |r| == |before|
    requires place < |items| && items[place].id in types && e == OrderedEntry(types, items, place)
    requires forall k :: 0 <= k < |before| ==> before[k] < place
    requires (forall k :: 0 <= k < at ==> r[k].0 <= e.0) && (forall k :: at <= k < |r| ==> r[k].0 > e.0)
    ensures InOrder(types, items, before[..at] + [place] + before[at..])
  {
    hide EntryOf, Precedes;
    forall k | 0 <= k < at ensures Precedes(types, items, before[k], place) {
      Compared(types, items, before[k], place, r[k], e);
    }
    forall k | at <= k < |r| ensures Precedes(types, items, place, before[k]) {
      Compared(types, items, before[k], place, r[k], e);
    }
  }

  lemma Compared(types: ItemTypes, items: seq<MapItem>, i: nat, j: nat, a: (uint8, Entry), b: (uint8, Entry))
    requires i < j < |items| && items[i].id in types && items[j].id in types
    requires a == OrderedEntry(types, items, i) && b == OrderedEntry(types, items, j)
    ensures if a.0 <= b.0 then Precedes(types, items, i, j) else Precedes(types, items, j, i)
  {
  }

  /** For every tile with a stack: its ground, then the items always on top, by order and within one order as in the
      file, then all other known items as in the file; the first ten of them. Each shows its own item, id and count,
      and the ground and the items on top lie below a creature. */
  lemma StackShows(types: ItemTypes, items: seq<MapItem>) returns (top: seq<nat>, down: seq<nat>)
    requires items != [] && items[0].id in types
    ensures forall i :: i in top <==> IsPicked(types, items, true, i)
    ensures forall i :: i in down <==> IsPicked(types, items, false, i)
    ensures InOrder(types, items, top) && Rising(down)
    ensures StackOf(types, items).Some?
    ensures var s, all := StackOf(types, items).value, [0] + top + down;
            && |s.items| == |s.serverIds| == |s.counts| == (if |all| < 10 then |all| else 10)
            && s.preCreatureLen == (if |top| < 9 then 1 + |top| else 10)
            && forall k :: 0 <= k < |s.items| ==>
                 && 0 <= all[k] < |items|
                 && var i := items[all[k]];
                    && i.id in types && s.items[k] == Wire(types[i.id], i.count)
                    && s.serverIds[k] == i.id && s.counts[k] == i.count
  {
    hide Picked, SortByOrder, Wire;
    var n := |items|;
    assert items[1..n] == items[1..];
    var tops := PickedMeans(types, items, true, n);
    down := PickedMeans(types, items, false, n);
    top := SortMeans(types, items, Picked(types, items[1..], true), tops);
    assert forall i :: i in top <==> i in multiset(top);
    assert forall i :: i in tops <==> i in multiset(tops);
    var full, all := FullStack(types, items), [0] + top + down;
    forall k | 0 <= k < |full|
      ensures all[k] < |items| && items[all[k]].id in types && full[k] == EntryOf(types, items[all[k]])
    {
    }
  }
}
