/** Iterating over everything inside a container with a queue of containers and a position. */
module Iterators {
  import opened ItemTree
  import opened Traversal
  import opened Containers

  class ContainerIterator {
    /** The containers still to be gone through; the first one is being gone through. */
    var over: seq<Item>
    /** The position in the first of them. */
    var cur: nat
    /** The same, split into the current level and what has been found for the next. */
    ghost var stop: Stop<Item>
    /** What has not been yielded yet, in the order in which it will be. */
    ghost var toCome: seq<Item>
    /** The world being iterated over, and a bound on its depth. */
    ghost var w: World<Item>
    ghost var floor: nat

    ghost predicate Valid()
      reads this
    {
      Comes(w, stop, floor, toCome) && over == stop.now + stop.next && cur == stop.at
    }

    constructor (c: Item, ghost s: set<Item>, ghost floor: nat)
      requires Forest(WorldOf(s)) && c in s && Bounded(WorldOf(s), floor)
      ensures Valid() && w == WorldOf(s)
      ensures Queue(WorldOf(s), [c], WorldOf(s)[c].depth)
      ensures toCome == LevelOrder(WorldOf(s), [c], WorldOf(s)[c].depth, floor)
    {
      over, cur := if c.items != [] then [c] else [], 0;
      ghost var start := StartComes(WorldOf(s), c, floor);
      w, this.floor, stop := WorldOf(s), floor, start;
      toCome := LevelOrder(WorldOf(s), [c], WorldOf(s)[c].depth, floor);
    }

    predicate HasNext()
      reads this
    {
      over != []
    }

    method Advance(ghost s: set<Item>) returns (item: Item)
      requires Valid() && w == WorldOf(s) && HasNext()
      modifies this
      ensures Valid() && w == old(w)
      ensures old(toCome) != [] && item == old(toCome)[0] && toCome == old(toCome)[1..]
    {
      ghost var t := StepComes(w, stop, floor, toCome, over);
      item := over[0].items[cur];
      var last := cur + 1 == |over[0].items|;
      if item.box && item.items != [] {
        over := over + [item];
      }
      over, cur := if last then over[1..] else over, if last then 0 else cur + 1;
      stop, toCome := t, toCome[1..];
    }
  }

  /** The number of items inside a container at any depth. */
  method GetItemHoldingCount(c: Item, ghost s: set<Item>) returns (counter: nat)
    requires Forest(WorldOf(s)) && c in s
    ensures counter == |Inside(WorldOf(s), c)|
  {
    ghost var w := WorldOf(s);
    ghost var floor := FloorExists(w);
    ghost var goal := |Inside(w, c)|;
    counter := 0;
    var it := new ContainerIterator(c, s, floor);
    assert |it.toCome| == goal by {
      LevelOrderIsInside(w, c, floor);
    }
    while it.HasNext()
      invariant fresh(it) && it.Valid() && it.w == WorldOf(s) == w
      invariant counter + |it.toCome| == goal
      decreases |it.toCome|
    {
      var item := it.Advance(s);
      counter := counter + 1;
    }
  }

  /** Whether an item is inside a container at any depth. */
  method IsHoldingItem(c: Item, item: Item, ghost s: set<Item>) returns (holding: bool)
    requires Forest(WorldOf(s)) && c in s && item in s
    ensures holding <==> item in Inside(WorldOf(s), c)
  {
    ghost var w := WorldOf(s);
    ghost var floor := FloorExists(w);
    ghost var goal := item in Inside(w, c);
    var it := new ContainerIterator(c, s, floor);
    assert item in it.toCome <==> goal by {
      LevelOrderIsInside(w, c, floor);
    }
    while it.HasNext()
      invariant fresh(it) && it.Valid() && it.w == WorldOf(s) == w
      invariant item in it.toCome <==> goal
      decreases |it.toCome|
    {
      var next := it.Advance(s);
      if next == item {
        return true;
      }
    }
    return false;
  }
}
