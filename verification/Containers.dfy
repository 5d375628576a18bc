/**
 Items and containers as objects.  One class stands for both `Item` and `Container`: `box`
 says whether the object is a container, and `items` is empty when it is not.

 Every method takes the ghost set `s` of all items that exist; `WorldOf(s)` is the snapshot the
 contracts speak about.
 */
module Containers {
  import opened ItemTree
  import opened Weights
  import opened Queries

  class Item {
    var typ: ItemType
    var count: nat
    var attrs: Attrs
    var parent: Parent<Item>
    const box: bool
    const cap: nat
    const unlocked: bool
    var items: seq<Item>
    var totalWeight: nat
    ghost var depth: nat

    ghost function Look(): (v: View<Item>)
      reads this`typ, this`count, this`attrs, this`parent, this`items, this`depth
    {
      View(typ, count, attrs, parent, box, cap, unlocked, items, depth)
    }

    /** What `equals` compares, outside ghost code. */
    function Record(): View<Item>
      reads this`typ, this`count, this`attrs
    {
      View(typ, count, attrs, Nowhere, box, cap, unlocked, [], 0)
    }

    /** A new item that is nowhere yet; a new container is empty. */
    constructor (typ: ItemType, count: nat, attrs: Attrs, box: bool, cap: nat, unlocked: bool)
      ensures Look() == View(typ, count, attrs, Nowhere, box, cap, unlocked, [], 0)
      ensures totalWeight == 0
    {
      this.typ, this.count, this.attrs, this.parent := typ, count, attrs, Nowhere;
      this.box, this.cap, this.unlocked, this.items := box, cap, unlocked, [];
      this.totalWeight, this.depth := 0, 0;
    }

    function GetWeight(): nat
      reads this
    {
      Wrap(Own(Record()) + totalWeight)
    }

    /** One link of the walk: the 32-bit counter of this container alone moves. */
    method GainWeight(diff: int, ghost s: set<Item>)
      requires this in s
      modifies this`totalWeight
      ensures CacheOf(s) == Bumped(old(CacheOf(s)), this, diff)
      ensures WorldOf(s) == old(WorldOf(s))
    {
      totalWeight := Wrap(totalWeight + diff);
    }

    /** The container this item sits in directly, as the walk asks for it. */
    method UpdateItemWeight(diff: int, ghost s: set<Item>, ghost n: World<Item>)
      requires this in s && n.Keys == s && Forest(n)
      requires OffBy(n, CacheOf(s), this, diff)
      requires forall x :: x in s && Under(n, this, x) ==> WorldOf(s)[x].parent == n[x].parent
      modifies s`totalWeight
      ensures AllAgree(n, CacheOf(s)) && WorldOf(s) == old(WorldOf(s))
    {
      WalkStep(n, CacheOf(s), this, diff);
      GainWeight(diff, s);
      var p := this;
      while p.parent.In?
        invariant p in s && Under(n, this, p) && Settled(n, CacheOf(s), p, diff)
        invariant WorldOf(s) == old(WorldOf(s))
        decreases n[p].depth
      {
        assert WorldOf(s)[p].parent == n[p].parent;
        UnderUp(n, this, p);
        WalkUp(n, CacheOf(s), p, p.parent.c, diff);
        p := p.parent.c;
        p.GainWeight(diff, s);
      }
      assert WorldOf(s)[p].parent == n[p].parent;
    }

    /** The position of an entry, or -1. */
    method GetThingIndex(thing: Item) returns (index: int)
      ensures index == -1 ==> thing !in items
      ensures index != -1 ==> 0 <= index < |items| && items[index] == thing && thing !in items[..index]
    {
      index := 0;
      while index < |items|
        invariant 0 <= index <= |items|
        invariant thing !in items[..index]
      {
        if items[index] == thing {
          return;
        }
        index := index + 1;
      }
      index := -1;
    }

    /** An index past the last slot makes the call do nothing at all. */
    method AddThing(index: int, item: Item, ghost s: set<Item>)
      requires Sound(s) && this in s && item in s && box
      requires item.parent.Nowhere? && !Under(WorldOf(s), this, item)
      modifies s
      ensures Sound(s)
      ensures WorldOf(s) == if index >= cap then old(WorldOf(s)) else PushFront(old(WorldOf(s)), this, item)
    {
      if index >= cap {
        return;
      }
      InternalAddThing(item, s);
    }

    method SetParent(p: Parent<Item>, ghost s: set<Item>)
      requires this in s
      modifies this`parent
      ensures WorldOf(s) == old(WorldOf(s))[this := old(WorldOf(s))[this].(parent := p)]
      ensures CacheOf(s) == old(CacheOf(s))
    {
      parent := p;
    }

    method SetItems(entries: seq<Item>, ghost s: set<Item>)
      requires this in s
      modifies this`items
      ensures WorldOf(s) == old(WorldOf(s))[this := old(WorldOf(s))[this].(items := entries)]
      ensures CacheOf(s) == old(CacheOf(s))
    {
      items := entries;
    }

    /** Bookkeeping of the proofs only: this item and all it contains go below depth `below`. */
    ghost method Sink(below: nat, s: set<Item>, w: World<Item>)
      requires Forest(w) && w.Keys == s && this in s
      modifies s`depth
      ensures WorldOf(s) == Sinking(w, old(WorldOf(s)), this, below)
      ensures CacheOf(s) == old(CacheOf(s))
    {
      forall x | x in s {
        x.depth := Sunk(w, x, this, below);
      }
    }

    /** Pointers only: the entry goes to the front and names its new parent. */
    method LinkFront(item: Item, ghost s: set<Item>)
      requires Forest(WorldOf(s)) && this in s && item in s
      modifies s`parent, s`items, s`depth
      ensures WorldOf(s) == PushFront(old(WorldOf(s)), this, item) && CacheOf(s) == old(CacheOf(s))
    {
      ghost var w := WorldOf(s);
      item.SetParent(In(this), s);
      SetItems([item] + items, s);
      item.Sink(w[this].depth, s, w);
      PushFrontSteps(w, this, item);
    }

    method InternalAddThing(item: Item, ghost s: set<Item>)
      requires Sound(s) && this in s && item in s && box
      requires item.parent.Nowhere? && !Under(WorldOf(s), this, item)
      modifies s
      ensures Sound(s)
      ensures WorldOf(s) == PushFront(old(WorldOf(s)), this, item)
    {
      ghost var w, c := WorldOf(s), CacheOf(s);
      ghost var n := PushFront(w, this, item);
      PushFrontReady(w, c, this, item, item.GetWeight());
      LinkFront(item, s);
      UpdateItemWeight(item.GetWeight(), s, n);
    }

    /** Another stack size, type or attribute list: nothing but the item's own record. */
    method Rewrite(typ: ItemType, attrs: Attrs, count: nat, ghost s: set<Item>)
      requires this in s
      modifies this`typ, this`attrs, this`count
      ensures WorldOf(s) == old(WorldOf(s))[this := old(WorldOf(s))[this].(typ := typ, attrs := attrs, count := count)]
      ensures CacheOf(s) == old(CacheOf(s))
    {
      this.typ, this.attrs, this.count := typ, attrs, count;
    }

    /** The record of one entry changes and the difference in weight walks up. */
    method UpdateEntry(index: nat, typ: ItemType, attrs: Attrs, count: nat, ghost s: set<Item>)
      requires Sound(s) && this in s && index < |items| && items[index] in s
      modifies s
      ensures Sound(s)
      ensures var i := old(items[index]);
              WorldOf(s) == old(WorldOf(s))[i := old(WorldOf(s))[i].(typ := typ, attrs := attrs, count := count)]
    {
      var item := items[index];
      ghost var w, c := WorldOf(s), CacheOf(s);
      ghost var v := w[item].(typ := typ, attrs := attrs, count := count);
      var oldWeight := item.GetWeight();
      item.Rewrite(typ, attrs, count, s);
      var diff := item.GetWeight() - oldWeight;
      assert SamePlace(w[item], v) && w[this].items[index] == item;
      RewriteReady(w, c, this, index, v, diff);
      UpdateItemWeight(diff, s, w[item := v]);
    }

    /** The whole entry leaves; its weight walks up first, while it is still listed. */
    method RemoveEntry(index: nat, ghost s: set<Item>)
      requires Sound(s) && this in s && index < |items| && items[index] in s
      modifies s
      ensures Sound(s)
      ensures WorldOf(s) == TakeOut(old(WorldOf(s)), this, index)
    {
      var item := items[index];
      ghost var w, c := WorldOf(s), CacheOf(s);
      ghost var n := TakeOut(w, this, index);
      var diff := -(item.GetWeight() as int);
      TakeOutForest(w, this, index);
      TakeOutReady(w, c, this, index, diff);
      NotBelow(w, n, this, item);
      UpdateItemWeight(diff, s, n);
      item.SetParent(Nowhere, s);
      SetItems(Without(items, index), s);
    }

    method RemoveThing(item: Item, amount: nat, ghost s: set<Item>)
      requires Sound(s) && this in s && item in s
      modifies s
      ensures Sound(s)
      ensures WorldOf(s) == Removed(old(WorldOf(s)), this, item, amount)
    {
      assert Holds(WorldOf(s), this);
      var index := GetThingIndex(item);
      if index == -1 {
        return;
      }
      assert index == IndexOf(items, item);
      if item.typ.stackable && amount != item.count {
        var newCount := (if amount <= item.count then item.count - amount else 0) % 256;
        UpdateEntry(index, item.typ, item.attrs, newCount, s);
      } else {
        RemoveEntry(index, s);
      }
    }

    method UpdateThing(item: Item, typ: ItemType, count: nat, ghost s: set<Item>)
      requires Sound(s) && this in s && item in s
      modifies s
      ensures Sound(s)
      ensures WorldOf(s) ==
              if item in old(items) then old(WorldOf(s))[item := Restacked(old(WorldOf(s))[item], typ, count)]
              else old(WorldOf(s))
    {
      assert Holds(WorldOf(s), this);
      var index := GetThingIndex(item);
      if index == -1 {
        return;
      }
      UpdateEntry(index, typ, Restamp(item.typ, typ, item.attrs), count % 256, s);
    }

    /** Pointers only: `item` takes the place of the entry, which still names this container. */
    method LinkInstead(index: nat, item: Item, ghost s: set<Item>)
      requires Forest(WorldOf(s)) && this in s && item in s && index < |items|
      modifies s`parent, s`items, s`depth
      ensures WorldOf(s) == Supplanted(old(WorldOf(s)), this, index, item) && CacheOf(s) == old(CacheOf(s))
    {
      ghost var w := WorldOf(s);
      SetItems(items[index := item], s);
      item.SetParent(In(this), s);
      item.Sink(w[this].depth, s, w);
    }

    method ReplaceThing(index: nat, item: Item, ghost s: set<Item>)
      requires Sound(s) && this in s && item in s && box
      requires item.parent.Nowhere? && !Under(WorldOf(s), this, item)
      modifies s
      ensures Sound(s)
      ensures WorldOf(s) ==
              if index < |old(items)| then Exchange(old(WorldOf(s)), this, index, item) else old(WorldOf(s))
    {
      if index >= |items| {
        return;
      }
      ghost var w, c := WorldOf(s), CacheOf(s);
      assert Holds(w, this);
      var replaced := items[index];
      ghost var n := Exchange(w, this, index, item);
      var diff := item.GetWeight() - replaced.GetWeight();
      ExchangeForest(w, this, index, item);
      ExchangeReady(w, c, this, index, item, diff);
      ExchangedNotBelow(w, this, index, item);
      ExchangeSteps(w, this, index, item);
      LinkInstead(index, item, s);
      UpdateItemWeight(diff, s, n);
      replaced.SetParent(Nowhere, s);
    }

    method QueryAdd(index: int, item: Item, count: nat, noLimit: bool, carrier: nat -> bool, ghost s: set<Item>)
      returns (ret: ReturnValue)
      requires Forest(WorldOf(s)) && this in s && item in s
      ensures ret == AddAnswer(WorldOf(s), this, item, index, count, noLimit, carrier)
    {
      ghost var w := WorldOf(s);
      if !unlocked {
        return NotPossible;
      }
      if !item.typ.pickupable {
        return CannotPickup;
      }
      if item == this {
        return ThisIsImpossible;
      }
      var cylinder := this;
      while cylinder.parent.In?
        invariant cylinder in s && cylinder != item && Under(w, this, item) == Under(w, cylinder, item)
        decreases w[cylinder].depth
      {
        assert w[cylinder].parent == cylinder.parent;
        assert Linked(w, cylinder);
        cylinder := cylinder.parent.c;
        if cylinder == item {
          return ThisIsImpossible;
        }
      }
      assert w[cylinder].parent == cylinder.parent;
      if !noLimit && index == WHEREEVER && |items| >= Wrap(cap - 1) {
        return ContainerNotEnoughRoom;
      }
      return if carrier(count) then NoError else NotEnoughCapacity;
    }

    /** The space in the partial stacks, slot after slot, each of them asked about separately. */
    method SumSlack(item: Item, count: nat, carrier: nat -> bool, ghost s: set<Item>) returns (n: nat)
      requires Forest(WorldOf(s)) && this in s && item in s
      ensures n == MergeRoom(WorldOf(s), this, item, WHEREEVER, count, carrier)
    {
      ghost var w := WorldOf(s);
      ghost var ok := AddAnswer(w, this, item, 0, count, false, carrier) == NoError;
      assert Holds(w, this);
      n := 0;
      var slotIndex, k := 0, 0;
      while k < |items|
        invariant 0 <= k <= |items| && slotIndex >= 0
        invariant n == if ok then Slack(w, items[..k], item) else 0
      {
        SlackStep(w, items, k, item);
        var entry := items[k];
        if entry != item && Similar(entry.Record(), item.Record()) && entry.count < MAX_STACK {
          var answer := QueryAdd(slotIndex, item, count, false, carrier, s);
          slotIndex := slotIndex + 1;
          if answer == NoError {
            n := n + (MAX_STACK - entry.count);
          }
        }
        k := k + 1;
      }
      assert items[..k] == items;
    }

    method QueryMaxCount(index: int, item: Item, count: nat, noLimit: bool, carrier: nat -> bool, ghost s: set<Item>)
      returns (ret: ReturnValue, maxCount: nat)
      requires Forest(WorldOf(s)) && this in s && item in s
      ensures (ret, maxCount) == MaxCountAnswer(WorldOf(s), this, item, index, count, noLimit, carrier)
    {
      ghost var w := WorldOf(s);
      assert Holds(w, this);
      if noLimit {
        return NoError, if count > 1 then count else 1;
      }
      var freeSlots := if cap > |items| then cap - |items| else 0;
      if !item.typ.stackable {
        return if freeSlots == 0 then ContainerNotEnoughRoom else NoError, freeSlots;
      }
      var n := 0;
      if index == WHEREEVER {
        n := SumSlack(item, count, carrier, s);
      } else {
        var answer := QueryAdd(index, item, count, false, carrier, s);
        if 0 <= index < |items| && answer == NoError {
          var entry := items[index];
          if (item == entry || Similar(item.Record(), entry.Record())) && entry.count < MAX_STACK {
            n := MAX_STACK - entry.count;
          }
        }
      }
      maxCount := freeSlots * MAX_STACK + n;
      ret := if maxCount < count then ContainerNotEnoughRoom else NoError;
    }

    method QueryRemove(item: Item, count: nat, ignoreNotMoveable: bool, ghost s: set<Item>) returns (ret: ReturnValue)
      requires this in s && item in s
      ensures ret == RemoveAnswer(WorldOf(s), this, item, count, ignoreNotMoveable)
    {
      var index := GetThingIndex(item);
      if index == -1 || count == 0 || (item.typ.stackable && count > item.count) {
        return NotPossible;
      }
      return if !item.typ.moveable && !ignoreNotMoveable then NotMoveable else NoError;
    }

    method QueryDestination(index: int, item: Item, ignoreAutoStack: bool, ghost s: set<Item>)
      returns (dest: Destination<Item>)
      requires Forest(WorldOf(s)) && this in s && item in s
      ensures dest == DestinationAnswer(WorldOf(s), this, item, index, ignoreAutoStack)
    {
      ghost var w := WorldOf(s);
      assert Holds(w, this);
      if !unlocked {
        return Destination(this, index, None);
      }
      if index == MOVE_UP {
        var above: Item := if parent.In? then parent.c else this;
        return Destination(above, WHEREEVER, None);
      }
      var at := if index == ADD_WHEREEVER || index >= cap then WHEREEVER else index;
      var destItem: Option<Item> := None;
      if at != WHEREEVER {
        if 0 <= at < |items| {
          destItem := Some(items[at]);
          if items[at].box {
            return Destination(items[at], WHEREEVER, None);
          }
        }
      }
      if !ignoreAutoStack && item.typ.stackable && item.parent != In(this) {
        var n := 0;
        while n < |items|
          invariant 0 <= n <= |items|
          invariant FirstPartial(w, items, item, 0) == FirstPartial(w, items, item, n)
        {
          var entry := items[n];
          if entry != item && Similar(entry.Record(), item.Record()) && entry.count < MAX_STACK {
            return Destination(this, n, Some(entry));
          }
          n := n + 1;
        }
      }
      return Destination(this, at, destItem);
    }
  }

  /** What sits in a container is never above it. */
  lemma NotBelow<R>(w: World<R>, n: World<R>, c: R, i: R)
    requires Forest(w) && Forest(n) && c in w && i in w && w[i].parent == In(c)
    requires n.Keys == w.Keys && n[c].depth == w[c].depth && n[i].depth == w[i].depth
    ensures !Under(n, c, i)
  {
    assert Linked(w, i);
    if Under(n, c, i) {
      UnderUp(n, c, i);
    }
  }

  lemma ExchangedNotBelow<R>(w: World<R>, c: R, k: nat, i: R)
    requires Forest(w) && c in w && i in w && w[c].box && k < |w[c].items| && w[c].items[k] in w
    requires w[i].parent.Nowhere? && !Under(w, c, i)
    requires Forest(Exchange(w, c, k, i))
    ensures !Under(Exchange(w, c, k, i), c, w[c].items[k])
  {
    assert Holds(w, c) && Linked(w, w[c].items[k]);
    NotBelow(w, Exchange(w, c, k, i), c, w[c].items[k]);
  }

  ghost function WorldOf(s: set<Item>): (w: World<Item>)
    reads s`typ, s`count, s`attrs, s`parent, s`items, s`depth
    ensures w.Keys == s
  {
    map x | x in s :: x.Look()
  }

  ghost function CacheOf(s: set<Item>): (c: Cache<Item>)
    reads s`totalWeight
    ensures c.Keys == s
  {
    map x | x in s :: x.totalWeight
  }

  /** The invariant of the heap: a forest whose cached weights are right. */
  ghost predicate Sound(s: set<Item>)
    reads s
  {
    Forest(WorldOf(s)) && AllAgree(WorldOf(s), CacheOf(s))
  }

  /** In a sound heap, `getWeight` is the weight of the whole tree below, modulo 2^32. */
  lemma WeightIsExact(s: set<Item>, x: Item, floor: nat)
    requires Sound(s) && x in s && Bounded(WorldOf(s), floor)
    ensures x.GetWeight() == Wrap(TreeWeight(WorldOf(s), x, floor))
  {
    CacheIsTreeWeight(WorldOf(s), CacheOf(s), x, floor);
  }
}
