/** Saving the items of a player as rows, and rebuilding them from the rows. */
module SaveItems {
  import opened ItemTree
  import opened Weights
  import opened Traversal
  import opened Containers
  import opened Rows

  // ----- saving -----

  /** What one row takes from an item. */
  method MakeRow(item: Item, pid: int, sid: int, ghost s: set<Item>) returns (r: Row)
    requires item in s
    ensures r == Row(pid, sid, RecordOf(WorldOf(s)[item]))
  {
    r := Row(pid, sid, Record(item.typ, item.count, item.attrs, item.box, item.cap, item.unlocked));
  }

  /** The first loop: the items in the slots.  The list of container blocks is kept as two lists. */
  method SaveRoots(items: seq<Item>, slots: seq<int>, ghost s: set<Item>)
    returns (rows: seq<Row>, containers: seq<Item>, ids: seq<int>, runningId: int, ghost objs: seq<Item>)
    requires Forest(WorldOf(s)) && Roots(WorldOf(s), items, slots)
    ensures Saving(WorldOf(s), items, slots, rows, objs, containers, ids, 0, 0) && runningId == 100 + |rows|
  {
    ghost var w := WorldOf(s);
    rows, containers, ids, runningId, objs := [], [], [], 100, [];
    SaveNothing<Item>(w);
    for j := 0 to |items|
      invariant Saving(w, items[..j], slots[..j], rows, objs, containers, ids, 0, 0) && runningId == 100 + |rows|
    {
      var item := items[j];
      RootsUpTo(w, items, slots, j);
      runningId := runningId + 1;
      var r := MakeRow(item, slots[j], runningId, s);
      SaveRoot(w, items[..j], slots[..j], rows, objs, containers, ids, item, r);
      if item.box {
        containers, ids := containers + [item], ids + [runningId];
      }
      rows, objs := rows + [r], objs + [item];
    }
    assert items[..|items|] == items && slots[..|slots|] == slots;
  }

  lemma RootsUpTo<R>(w: World<R>, roots: seq<R>, slots: seq<int>, j: nat)
    requires Roots(w, roots, slots) && j < |roots|
    ensures roots[..j+1] == roots[..j] + [roots[j]] && slots[..j+1] == slots[..j] + [slots[j]]
    ensures roots[j] in w && Roots(w, roots[..j] + [roots[j]], slots[..j] + [slots[j]])
  {
    assert roots[j] in roots;
  }

  /** The entries of one container of the worklist. */
  method SaveEntries(containers: seq<Item>, ids: seq<int>, i: nat, rows: seq<Row>, runningId: int, ghost s: set<Item>,
                     ghost roots: seq<Item>, ghost slots: seq<int>, ghost objs: seq<Item>)
    returns (rows1: seq<Row>, containers1: seq<Item>, ids1: seq<int>, runningId1: int, ghost objs1: seq<Item>)
    requires i < |containers| && Saving(WorldOf(s), roots, slots, rows, objs, containers, ids, i, 0)
    requires runningId == 100 + |rows|
    ensures Saving(WorldOf(s), roots, slots, rows1, objs1, containers1, ids1, i + 1, 0)
    ensures runningId1 == 100 + |rows1|
  {
    ghost var w := WorldOf(s);
    rows1, containers1, ids1, runningId1, objs1 := rows, containers, ids, runningId, objs;
    var container, parentId := containers[i], ids[i];
    assert w[container].items == container.items;
    for k := 0 to |container.items|
      invariant i < |containers1| && containers1[i] == container && i < |ids1| && ids1[i] == parentId
      invariant Saving(w, roots, slots, rows1, objs1, containers1, ids1, i, k) && runningId1 == 100 + |rows1|
    {
      rows1, containers1, ids1, runningId1, objs1 :=
        SaveOne(container.items[k], containers1, ids1, i, k, parentId, rows1, runningId1, s, roots, slots, objs1);
    }
    SaveNext(w, roots, slots, rows1, objs1, containers1, ids1, i);
  }

  /** One entry: its row, and its place in the worklist if it is a container. */
  method SaveOne(item: Item, containers: seq<Item>, ids: seq<int>, ghost i: nat, ghost k: nat, parentId: int,
                 rows: seq<Row>, runningId: int, ghost s: set<Item>,
                 ghost roots: seq<Item>, ghost slots: seq<int>, ghost objs: seq<Item>)
    returns (rows1: seq<Row>, containers1: seq<Item>, ids1: seq<int>, runningId1: int, ghost objs1: seq<Item>)
    requires i < |containers| && Saving(WorldOf(s), roots, slots, rows, objs, containers, ids, i, k)
    requires runningId == 100 + |rows| && parentId == ids[i]
    requires k < |WorldOf(s)[containers[i]].items| && item == WorldOf(s)[containers[i]].items[k]
    ensures Saving(WorldOf(s), roots, slots, rows1, objs1, containers1, ids1, i, k + 1) && runningId1 == 100 + |rows1|
    ensures i < |containers1| && containers1[i] == containers[i] && i < |ids1| && ids1[i] == ids[i]
  {
    ghost var w := WorldOf(s);
    EntryExists(w, containers[i], k);
    runningId1 := runningId + 1;
    var r := MakeRow(item, parentId, runningId1, s);
    SaveEntry(w, roots, slots, rows, objs, containers, ids, i, k, item, r);
    containers1, ids1 := containers, ids;
    if item.box {
      containers1, ids1 := containers + [item], ids + [runningId1];
    }
    rows1, objs1 := rows + [r], objs + [item];
  }

  lemma EntryExists<R>(w: World<R>, c: R, k: nat)
    requires Forest(w) && c in w && k < |w[c].items|
    ensures w[c].items[k] in w
  {
    assert Holds(w, c);
  }

  /** `saveItems`: the slots first, then container after container; every item gets the next id. */
  method SaveItems(items: seq<Item>, slots: seq<int>, ghost s: set<Item>) returns (rows: seq<Row>, ghost objs: seq<Item>)
    requires Forest(WorldOf(s)) && Roots(WorldOf(s), items, slots)
    ensures SavedAs(WorldOf(s), items, slots, rows, objs)
    ensures Loadable(rows) && |items| == |slots| <= |rows|
    ensures forall j :: 0 <= j < |slots| ==> rows[j].pid == slots[j]
    ensures forall j :: |slots| <= j < |rows| ==> rows[j].pid >= FIRST_ID
  {
    ghost var w := WorldOf(s);
    var containers, ids, runningId;
    rows, containers, ids, runningId, objs := SaveRoots(items, slots, s);
    var i := 0;
    while i < |containers|
      invariant Saving(w, items, slots, rows, objs, containers, ids, i, 0) && runningId == 100 + |rows|
      decreases |w| - i
    {
      WorkIsShort(w, items, slots, rows, objs, containers, ids, i);
      rows, containers, ids, runningId, objs := SaveEntries(containers, ids, i, rows, runningId, s, items, slots, objs);
      i := i + 1;
    }
    SaveDone(w, items, slots, rows, objs, containers, ids);
    SavedIsLoadable(w, items, slots, rows, objs);
  }

  lemma WorkIsShort<R>(w: World<R>, roots: seq<R>, slots: seq<int>, rows: seq<Row>, objs: seq<R>, cs: seq<R>, ids: seq<int>, i: nat)
    requires Saving(w, roots, slots, rows, objs, cs, ids, i, 0)
    ensures |cs| <= |w|
  {
    BoxesDistinct(w, objs);
    DistinctCount(cs);
    var t := set x | x in cs;
    forall x | x in t
      ensures x in w.Keys
    {
      BoxesAt(w, objs, x);
    }
    SubsetCount(t, w.Keys);
  }

  // ----- loading -----

  datatype Entry = Entry(item: Item, pid: int)

  /** The item of one row, not in place yet. */
  method CreateItem(r: Row, ghost s: set<Item>) returns (item: Item)
    requires Sound(s)
    ensures fresh(item) && Sound(s + {item}) && WorldOf(s) == old(WorldOf(s))
    ensures WorldOf(s + {item}) == old(WorldOf(s))[item := ViewOf(r.record)]
  {
    var t := r.record;
    ghost var w, c := WorldOf(s), CacheOf(s);
    item := new Item(t.typ, t.count, t.attrs, t.box, t.cap, t.unlocked);
    BirthForest(w, item, ViewOf(t));
    BirthAgree(w, c, item, ViewOf(t));
    assert WorldOf(s + {item}) == w[item := ViewOf(t)];
    assert CacheOf(s + {item}) == c[item := 0];
  }

  /** Every row has a distinct new item, and the map finds it by id. */
  ghost predicate Created<R>(w: World<R>, rows: seq<Row>, l: seq<R>) {
    && Forest(w) && |l| <= |rows| && Distinct(l)
    && forall k :: 0 <= k < |l| ==> l[k] in w && w[l[k]] == ViewOf(rows[k].record)
  }

  ghost predicate FoundBy(rows: seq<Row>, l: seq<Item>, itemMap: map<int, Entry>) {
    && |l| <= |rows|
    && (forall k :: 0 <= k < |l| ==> rows[k].sid in itemMap && itemMap[rows[k].sid] == Entry(l[k], rows[k].pid))
    && (forall id :: id in itemMap ==> exists k :: 0 <= k < |l| && rows[k].sid == id)
  }

  /** `loadItems` */
  method LoadItems(rows: seq<Row>) returns (itemMap: map<int, Entry>, l: seq<Item>, ghost s: set<Item>)
    requires Loadable(rows)
    ensures fresh(s) && Sound(s) && Loading(WorldOf(s), rows, l, |rows|) && FoundBy(rows, l, itemMap)
  {
    itemMap, l, s := map[], [], {};
    for j := 0 to |rows|
      invariant |l| == j && fresh(s) && Sound(s) && Created(WorldOf(s), rows, l) && FoundBy(rows, l, itemMap)
    {
      ghost var w := WorldOf(s);
      var item := CreateItem(rows[j], s);
      CreatedNext(w, WorldOf(s + {item}), rows, l, item);
      FoundNext(rows, l, itemMap, item);
      itemMap := itemMap[rows[j].sid := Entry(item, rows[j].pid)];
      l, s := l + [item], s + {item};
    }
    CreatedAll(WorldOf(s), rows, l);
  }

  lemma CreatedNext<R>(w: World<R>, n: World<R>, rows: seq<Row>, l: seq<R>, x: R)
    requires Created(w, rows, l) && |l| < |rows| && x !in w && n == w[x := ViewOf(rows[|l|].record)]
    ensures Created(n, rows, l + [x])
  {
    BirthForest(w, x, ViewOf(rows[|l|].record));
    assert forall k :: 0 <= k < |l| ==> l[k] in w;
  }

  lemma FoundNext(rows: seq<Row>, l: seq<Item>, itemMap: map<int, Entry>, x: Item)
    requires Loadable(rows) && FoundBy(rows, l, itemMap) && |l| < |rows|
    ensures FoundBy(rows, l + [x], itemMap[rows[|l|].sid := Entry(x, rows[|l|].pid)])
  {
    var m, r := itemMap[rows[|l|].sid := Entry(x, rows[|l|].pid)], l + [x];
    forall id | id in m
      ensures exists k :: 0 <= k < |r| && rows[k].sid == id
    {
      if id == rows[|l|].sid {
        assert rows[|l|].sid == id;
      } else {
        var k :| 0 <= k < |l| && rows[k].sid == id;
        assert rows[k].sid == id;
      }
    }
  }

  lemma CreatedAll<R>(w: World<R>, rows: seq<Row>, l: seq<R>)
    requires Created(w, rows, l) && |l| == |rows| && Loadable(rows)
    ensures Loading(w, rows, l, |rows|)
  {
    forall k | 0 <= k < |rows|
      ensures LoadedRow(w, rows, l, k, |rows|)
    {
      assert Listed(rows, l, rows[k].sid, |rows|) == [];
    }
  }

  /** What each slot holds when the rows from `j` on are in place: the item of the last row that names it. */
  ghost predicate InventoryIs(rows: seq<Row>, l: seq<Item>, j: nat, inventory: map<int, Item>)
    requires |l| == |rows| && j <= |rows|
  {
    forall p {:trigger SlotIs(rows, l, j, inventory, p)} :: SlotIs(rows, l, j, inventory, p)
  }

  ghost predicate SlotIs(rows: seq<Row>, l: seq<Item>, j: nat, inventory: map<int, Item>, p: int)
    requires |l| == |rows| && j <= |rows|
  {
    if 1 <= p <= 10 && Listed(rows, l, p, j) != [] then p in inventory && inventory[p] == Last(Listed(rows, l, p, j))
    else p !in inventory
  }

  function Last<R>(s: seq<R>): R
    requires s != []
  {
    s[|s|-1]
  }

  /** A slot is filled already exactly if a later row names it. */
  lemma FilledIsTaken(rows: seq<Row>, l: seq<Item>, j: nat, inventory: map<int, Item>)
    requires |l| == |rows| && j < |rows| && InSlot(rows[j]) && InventoryIs(rows, l, j + 1, inventory)
    ensures rows[j].pid in inventory <==> TakenLater(rows, j)
  {
    assert SlotIs(rows, l, j + 1, inventory, rows[j].pid);
    if Listed(rows, l, rows[j].pid, j + 1) != [] {
      var k := ListedPair(rows, l, l, rows[j].pid, j + 1, 0);
    }
    if k: nat {:trigger rows[k]} :| j < k < |rows| && rows[k].pid == rows[j].pid {
      ListedSome(rows, l, rows[j].pid, j + 1, k);
    }
  }

  lemma SlotFilled(rows: seq<Row>, l: seq<Item>, j: nat, inventory: map<int, Item>)
    requires |l| == |rows| && j < |rows| && InSlot(rows[j]) && InventoryIs(rows, l, j + 1, inventory)
    ensures InventoryIs(rows, l, j, if rows[j].pid in inventory then inventory else inventory[rows[j].pid := l[j]])
  {
    var p := rows[j].pid;
    var now := if p in inventory then inventory else inventory[p := l[j]];
    assert Listed(rows, l, p, j) == [l[j]] + Listed(rows, l, p, j + 1);
    forall q: int
      ensures SlotIs(rows, l, j, now, q)
    {
      assert SlotIs(rows, l, j + 1, inventory, q);
    }
  }

  lemma SlotsStay(rows: seq<Row>, l: seq<Item>, j: nat, inventory: map<int, Item>)
    requires |l| == |rows| && j < |rows| && !InSlot(rows[j]) && InventoryIs(rows, l, j + 1, inventory)
    ensures InventoryIs(rows, l, j, inventory)
  {
    forall q: int
      ensures SlotIs(rows, l, j, inventory, q)
    {
      assert SlotIs(rows, l, j + 1, inventory, q);
      assert 1 <= q <= 10 ==> Listed(rows, l, q, j) == [] + Listed(rows, l, q, j + 1);
    }
  }

  /** `internalAddThing` of a player: the item is in a slot and in no container. */
  method PutInSlot(item: Item, ghost s: set<Item>)
    requires Sound(s) && item in s && item.parent.Nowhere?
    modifies item`parent
    ensures Sound(s)
    ensures WorldOf(s) == old(WorldOf(s))[item := old(WorldOf(s))[item].(parent := Outside)]
  {
    OutsideForest(WorldOf(s), item);
    OutsideAgree(WorldOf(s), CacheOf(s), item);
    item.SetParent(Outside, s);
  }

  lemma OutsideAgree<R>(w: World<R>, cache: Cache<R>, i: R)
    requires Forest(w) && AllAgree(w, cache) && i in w
    ensures AllAgree(w[i := w[i].(parent := Outside)], cache)
  {
    var n := w[i := w[i].(parent := Outside)];
    forall x | x in n
      ensures Agrees(n, cache, x)
    {
      assert Holds(w, x) && Agrees(w, cache, x);
      LoadSumFrame(w, n, cache, w[x].items);
    }
  }

  /** One row is put in place: in its slot if that is free, or at the front of its container if there is one. */
  method PlaceRow(rows: seq<Row>, itemMap: map<int, Entry>, l: seq<Item>, j: nat, inventory: map<int, Item>, ghost s: set<Item>)
    returns (inventory1: map<int, Item>)
    requires Sound(s) && Loading(WorldOf(s), rows, l, j + 1) && FoundBy(rows, l, itemMap) && j < |rows|
    requires InventoryIs(rows, l, j + 1, inventory)
    modifies s
    ensures Sound(s) && Loading(WorldOf(s), rows, l, j) && InventoryIs(rows, l, j, inventory1)
  {
    assert rows[j].sid in itemMap;
    var item, pid := itemMap[rows[j].sid].item, itemMap[rows[j].sid].pid;
    if 1 <= pid <= 10 {
      inventory1 := FillSlot(rows, l, j, item, pid, inventory, s);
    } else {
      inventory1 := inventory;
      SlotsStay(rows, l, j, inventory);
      PlaceInside(rows, itemMap, l, j, item, pid, s);
    }
  }

  /** `Player::internalAddThing` in the rebuild: a slot that is taken stays as it is. */
  method FillSlot(ghost rows: seq<Row>, ghost l: seq<Item>, ghost j: nat, item: Item, pid: int, inventory: map<int, Item>,
                  ghost s: set<Item>) returns (inventory1: map<int, Item>)
    requires Sound(s) && Loading(WorldOf(s), rows, l, j + 1) && j < |rows| && item == l[j] && pid == rows[j].pid
    requires InSlot(rows[j]) && InventoryIs(rows, l, j + 1, inventory)
    modifies s
    ensures Sound(s) && Loading(WorldOf(s), rows, l, j) && InventoryIs(rows, l, j, inventory1)
  {
    ghost var n := WorldOf(s);
    FilledIsTaken(rows, l, j, inventory);
    SlotFilled(rows, l, j, inventory);
    inventory1 := inventory;
    if pid in inventory {
      LoadTaken(n, rows, l, j);
    } else {
      LoadSlot(n, rows, l, j);
      assert n[item].parent == item.parent;
      PutInSlot(item, s);
      inventory1 := inventory[pid := item];
    }
  }

  method PlaceInside(rows: seq<Row>, itemMap: map<int, Entry>, l: seq<Item>, ghost j: nat, item: Item, pid: int, ghost s: set<Item>)
    requires Sound(s) && Loading(WorldOf(s), rows, l, j + 1) && FoundBy(rows, l, itemMap) && j < |rows|
    requires !InSlot(rows[j]) && item == l[j] && pid == rows[j].pid
    modifies s
    ensures Sound(s) && Loading(WorldOf(s), rows, l, j)
  {
    ghost var n := WorldOf(s);
    if pid in itemMap {
      ghost var m :| 0 <= m < |l| && rows[m].sid == pid;
      var container := itemMap[pid].item;
      assert container == l[m] && LoadedRow(n, rows, l, m, j + 1) && n[container].box == container.box;
      if container.box {
        assert Boxed(rows, j, m);
        LoadInto(n, rows, l, j, m);
        container.InternalAddThing(item, s);
      } else {
        OnlyRow(rows, j, m);
        LoadSkip(n, rows, l, j);
      }
    } else {
      LoadSkip(n, rows, l, j);
    }
  }

  lemma OnlyRow(rows: seq<Row>, j: nat, m: nat)
    requires Loadable(rows) && j < |rows| && m < |rows| && rows[m].sid == rows[j].pid && !rows[m].record.box
    ensures !HasBox(rows, j)
  {
  }

  /** The rebuild loop of `loadPlayer`: the highest id first. */
  method Rebuild(rows: seq<Row>) returns (inventory: map<int, Item>, l: seq<Item>, ghost s: set<Item>)
    requires Loadable(rows)
    ensures fresh(s) && Sound(s) && Loading(WorldOf(s), rows, l, 0) && InventoryIs(rows, l, 0, inventory)
  {
    var itemMap;
    itemMap, l, s := LoadItems(rows);
    inventory := map[];
    var j: nat := |rows|;
    while j > 0
      invariant j <= |rows| && fresh(s) && Sound(s) && FoundBy(rows, l, itemMap)
      invariant Loading(WorldOf(s), rows, l, j) && InventoryIs(rows, l, j, inventory)
    {
      j := j - 1;
      inventory := PlaceRow(rows, itemMap, l, j, inventory, s);
    }
  }

  // ----- both -----

  /**
   Saving and loading: every slot holds a new item with the tree of the old one, children in the
   same order, no other slot is filled, and all weight caches are right.
   */
  method SaveAndLoad(items: seq<Item>, slots: seq<int>, ghost s: set<Item>) returns (inventory: map<int, Item>, ghost t: set<Item>)
    requires Forest(WorldOf(s)) && Roots(WorldOf(s), items, slots) && Distinct(slots)
    requires forall j :: 0 <= j < |slots| ==> 1 <= slots[j] <= 10
    ensures fresh(t) && Sound(t) && inventory.Keys == set j | 0 <= j < |slots| :: slots[j]
    ensures forall j, tree :: 0 <= j < |slots| ==>
              (Shows(WorldOf(s), items[j], tree) <==> Shows(WorldOf(t), inventory[slots[j]], tree))
  {
    var rows, objs := SaveItems(items, slots, s);
    ghost var w := WorldOf(s);
    SavedIsLoadable(w, items, slots, rows, objs);
    var l;
    inventory, l, t := Rebuild(rows);
    assert WorldOf(s) == w;
    SameInventory(w, items, slots, rows, objs, WorldOf(t), l, inventory);
  }

  lemma SameInventory(w: World<Item>, roots: seq<Item>, slots: seq<int>, rows: seq<Row>, objs: seq<Item>,
                      n: World<Item>, l: seq<Item>, inventory: map<int, Item>)
    requires SavedAs(w, roots, slots, rows, objs) && Loading(n, rows, l, 0) && InventoryIs(rows, l, 0, inventory)
    requires Distinct(slots) && forall j :: 0 <= j < |slots| ==> 1 <= slots[j] <= 10
    ensures inventory.Keys == set j | 0 <= j < |slots| :: slots[j]
    ensures forall j, tree :: 0 <= j < |slots| ==>
              (Shows(w, roots[j], tree) <==> Shows(n, inventory[slots[j]], tree))
  {
    SavedIsLoadable(w, roots, slots, rows, objs);
    forall j | 0 <= j < |slots|
      ensures slots[j] in inventory && inventory[slots[j]] == l[j]
    {
      ListedOnly(rows, l, slots[j], 0, j);
      assert SlotIs(rows, l, 0, inventory, slots[j]);
    }
    forall p | p in inventory
      ensures exists j :: 0 <= j < |slots| && slots[j] == p
    {
      assert SlotIs(rows, l, 0, inventory, p);
      var j := ListedPair(rows, l, l, p, 0, 0);
      assert slots[j] == p;
    }
    forall j, tree | 0 <= j < |slots|
      ensures Shows(w, roots[j], tree) <==> Shows(n, inventory[slots[j]], tree)
    {
      assert objs[..|roots|][j] == objs[j];
      SameTree(w, roots, slots, rows, objs, n, l, j, tree);
    }
  }

  lemma {:induction false} ListedOnly<R>(rows: seq<Row>, objs: seq<R>, p: int, s: nat, j: nat)
    requires |rows| == |objs| && s <= j < |rows| && rows[j].pid == p && forall k :: s <= k < |rows| && k != j ==> rows[k].pid != p
    ensures Listed(rows, objs, p, s) == [objs[j]]
    decreases j - s
  {
    if s < j {
      ListedOnly(rows, objs, p, s + 1, j);
    } else {
      ListedNone(rows, objs, p, s + 1);
    }
  }
}
