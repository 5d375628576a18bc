/**
 The game's own operations on items: moving, adding and removing them across containers.
 */
module GameItems {
  import opened ItemTree
  import opened Weights
  import opened Queries
  import opened Census
  import opened Moves
  import opened Adding
  import opened Containers

  class Game {
    /** Every item there is. */
    ghost var world: set<Item>
    /** Items whose reference is to be dropped at the end of the cycle. */
    var toRelease: seq<Item>

    ghost predicate Valid()
      reads this, world
    {
      Sound(world) && Stacked(WorldOf(world)) && Roomy(WorldOf(world))
    }

    constructor ()
      ensures Valid() && world == {} && toRelease == []
    {
      world, toRelease := {}, [];
    }

    /** The redirection loop in front of a move. */
    method FindCylinder(to: Item, index: int, item: Item, flags: Flags) returns (dest: Destination<Item>, fl: Flags)
      requires Forest(WorldOf(world)) && to in world && item in world
      ensures (dest, fl) == Route(WorldOf(world), to, item, index, flags, 0)
    {
      ghost var w := WorldOf(world);
      var toCylinder, at, floorN := to, index, 0;
      fl := flags;
      dest := toCylinder.QueryDestination(at, item, fl.ignoreAutoStack, world);
      while dest.c != toCylinder
        invariant toCylinder in world && 0 <= floorN < MAX_LAYERS
        invariant dest == DestinationAnswer(w, toCylinder, item, at, fl.ignoreAutoStack)
        invariant Route(w, to, item, index, flags, 0) == Route(w, toCylinder, item, at, fl, floorN)
        decreases MAX_LAYERS - floorN
      {
        assert Holds(w, toCylinder) && Linked(w, toCylinder);
        toCylinder, at, fl := dest.c, dest.index, NO_FLAGS;
        floorN := floorN + 1;
        if floorN >= MAX_LAYERS {
          return;
        }
        dest := toCylinder.QueryDestination(at, item, fl.ignoreAutoStack, world);
      }
    }

    /** Whether `y` is `x` or somewhere above it. */
    method IsInside(x: Item, y: Item) returns (inside: bool)
      requires Forest(WorldOf(world)) && x in world
      ensures inside == Under(WorldOf(world), x, y)
    {
      ghost var w := WorldOf(world);
      var tmp := x;
      while tmp != y && tmp.parent.In?
        invariant tmp in world && Under(w, x, y) == Under(w, tmp, y)
        decreases w[tmp].depth
      {
        assert w[tmp].parent == tmp.parent;
        assert Linked(w, tmp);
        tmp := tmp.parent.c;
      }
      assert w[tmp].parent == tmp.parent;
      return tmp == y;
    }

    method PlanRemoval(from: Item, dest: Destination<Item>, fl: Flags, item: Item, m: nat, ret: ReturnValue,
                       trade: Option<Item>) returns (p: Plan<Item>)
      requires Forest(WorldOf(world)) && from in world && dest.c in world && item in world
      ensures p == RemovalPlan(WorldOf(world), from, dest, fl, item, m, ret, trade)
    {
      var retRemove := from.QueryRemove(item, m, fl.ignoreNotMoveable, world);
      if retRemove != NoError {
        return Refused(retRemove);
      }
      if trade.Some? {
        var inside := IsInside(dest.c, trade.value);
        if inside {
          return Refused(NotEnoughRoom);
        }
      }
      return Go(dest.c, dest.index, dest.onto, m, ret, fl);
    }

    method PlanAddition(from: Item, dest: Destination<Item>, fl: Flags, item: Item, count: nat,
                        carrier: nat -> bool, trade: Option<Item>) returns (p: Plan<Item>)
      requires Forest(WorldOf(world)) && from in world && dest.c in world && item in world
      ensures p == AdditionPlan(WorldOf(world), from, dest, fl, item, count, carrier, trade)
    {
      var ret := dest.c.QueryAdd(dest.index, item, count, fl.noLimit, carrier, world);
      if ret != NoError {
        return Refused(ret);
      }
      var retMax, most := dest.c.QueryMaxCount(dest.index, item, count, fl.noLimit, carrier, world);
      if retMax != NoError && most == 0 {
        return Refused(retMax);
      }
      p := PlanRemoval(from, dest, fl, item, if item.typ.stackable && count < most then count else most,
                       if item.typ.stackable && most < count then retMax else NoError, trade);
    }

    /** Everything `internalMoveItem` checks before the first change. */
    method PlanMove(from: Item, to: Item, index: int, item: Item, count: nat, flags: Flags,
                    carrier: nat -> bool, trade: Option<Item>) returns (p: Plan<Item>)
      requires Forest(WorldOf(world)) && from in world && to in world && item in world
      ensures p == MovePlan(WorldOf(world), from, to, item, index, count, flags, carrier, trade)
    {
      var dest, fl := FindCylinder(to, index, item, flags);
      if dest.onto == Some(item) {
        return Ignored;
      }
      p := PlanAddition(from, dest, fl, item, count, carrier, trade);
    }

    /** A newly created item becomes part of the world. */
    ghost method Adopt(i: Item)
      requires Sound(world) && i !in world && i.parent.Nowhere? && i.items == [] && i.totalWeight == 0
      modifies this`world
      ensures world == old(world) + {i} && Sound(world)
      ensures WorldOf(world) == old(WorldOf(world))[i := i.Look()]
    {
      BirthForest(WorldOf(world), i, i.Look());
      BirthAgree(WorldOf(world), CacheOf(world), i, i.Look());
      ghost var w, c := WorldOf(world), CacheOf(world);
      world := world + {i};
      assert WorldOf(world) == w[i := i.Look()];
      assert CacheOf(world) == c[i := 0];
    }

    /** An item without a parent at the top of its chain is out of the world. */
    method IsRemoved(x: Item) returns (gone: bool)
      requires Forest(WorldOf(world)) && x in world
      ensures gone == Adrift(WorldOf(world), x)
    {
      ghost var w := WorldOf(world);
      var tmp := x;
      while tmp.parent.In?
        invariant tmp in world && Adrift(w, x) == Adrift(w, tmp)
        decreases w[tmp].depth
      {
        assert w[tmp].parent == tmp.parent;
        assert Linked(w, tmp);
        tmp := tmp.parent.c;
      }
      assert w[tmp].parent == tmp.parent;
      return tmp.parent.Nowhere?;
    }

    /** `clone` followed by `setItemCount`: a copy of `item` with `rest` pieces, not placed anywhere yet. */
    method Clone(item: Item, rest: nat) returns (clone: Item)
      requires Sound(world) && item in world
      modifies this`world
      ensures fresh(clone) && world == old(world) + {clone} && Sound(world)
      ensures WorldOf(world) == old(WorldOf(world))[clone := CloneOf(old(item.Look()), rest)]
      ensures forall x :: x in old(world) ==> !Under(WorldOf(world), x, clone)
    {
      clone := new Item(item.typ, rest % 256, ClonedAttrs(item.typ, item.attrs), false, 0, true);
      Adopt(clone);
      forall x | x in old(world)
        ensures !Under(WorldOf(world), x, clone)
      {
        UnderLeaf(WorldOf(world), x, clone);
      }
    }

    /** The copy of `rest` pieces of `item` goes to the front of `to`. */
    method PlaceClone(to: Item, index: int, item: Item, rest: nat, ghost of: View<Item>) returns (clone: Item)
      requires Sound(world) && Stacked(WorldOf(world)) && to in world && item in world && to.box
      requires item.typ.stackable && 1 <= rest <= MAX_STACK && index < to.cap
      requires of.typ == item.typ && of.attrs == item.attrs
      modifies this`world, world
      ensures fresh(clone) && world == old(world) + {clone} && Sound(world)
      ensures WorldOf(world) == Placed(old(WorldOf(world)), to, clone, CloneOf(of, rest))
    {
      clone := Clone(item, rest);
      to.AddThing(index, clone, world);
    }

    /** What is left of a stack, if anything, is copied and goes to the front of `to`. */
    method PlaceRest(to: Item, index: int, item: Item, rest: nat, ghost of: View<Item>)
      returns (copy: Option<Item>)
      requires Sound(world) && Stacked(WorldOf(world)) && to in world && item in world && to.box
      requires item.typ.stackable && rest <= MAX_STACK && index < to.cap
      requires of.typ == item.typ && of.attrs == item.attrs
      modifies this`world, world
      ensures Sound(world) && Spare(old(WorldOf(world)), copy, rest)
      ensures WorldOf(world) == Finished(old(WorldOf(world)), to, copy, of, rest)
      ensures copy.Some? ==> fresh(copy.value)
      ensures world == old(world) + (if copy.Some? then {copy.value} else {})
    {
      copy := None;
      if rest > 0 {
        var clone := PlaceClone(to, index, item, rest, of);
        copy := Some(clone);
      }
    }

    /** As much of `m` pieces as fits is merged into the stack at the destination. */
    method MergeInto(to: Item, onto: Option<Item>, item: Item, m: nat) returns (n: nat)
      requires Sound(world) && Stacked(WorldOf(world)) && to in world && item in world && item.typ.stackable
      requires onto.Some? ==> onto.value in world && onto.value in to.items && onto.value != item
      modifies world
      ensures n == Merged(old(WorldOf(world)), item, onto, m) && Sound(world)
      ensures WorldOf(world) == Topped(old(WorldOf(world)), item, onto, n)
    {
      n := 0;
      if onto.Some? && (item == onto.value || Similar(item.Record(), onto.value.Record())) {
        var toItem := onto.value;
        n := if MAX_STACK - toItem.count < m then MAX_STACK - toItem.count else m;
        to.UpdateThing(toItem, toItem.typ, toItem.count + n, world);
      }
    }

    /** The pieces leave the source, and the stack at the destination takes what fits. */
    method LiftAndMerge(from: Item, item: Item, p: Plan<Item>) returns (rest: nat)
      requires Sound(world) && GoodPlan(WorldOf(world), from, item, p) && item.typ.stackable
      modifies world
      ensures Sound(world) && rest == Rest(old(WorldOf(world)), item, p)
      ensures WorldOf(world) == Absorbed(old(WorldOf(world)), from, item, p)
    {
      ghost var w := WorldOf(world);
      LiftedIsFine(w, from, item, p);
      LiftedMerges(w, from, item, p);
      from.RemoveThing(item, p.amount, world);
      var n := MergeInto(p.c, p.onto, item, p.amount);
      rest := p.amount - n;
    }

    /** Part or all of a stack is moved, following a plan. */
    method MoveStack(from: Item, item: Item, p: Plan<Item>) returns (copy: Option<Item>)
      requires Sound(world) && GoodPlan(WorldOf(world), from, item, p) && item.typ.stackable
      modifies this`world, world
      ensures Sound(world)
      ensures Spare(old(WorldOf(world)), copy, Rest(old(WorldOf(world)), item, p))
      ensures WorldOf(world) == StackMoved(old(WorldOf(world)), from, item, p, copy)
      ensures copy.Some? ==> fresh(copy.value)
      ensures world == old(world) + (if copy.Some? then {copy.value} else {})
    {
      ghost var w := WorldOf(world);
      ReadyToPlace(w, from, item, p);
      var rest := LiftAndMerge(from, item, p);
      assert WorldOf(world)[item].typ == item.typ && WorldOf(world)[item].attrs == item.attrs;
      copy := PlaceRest(p.c, p.index, item, rest, w[item]);
      StackMovedIs(w, from, item, p, copy);
    }

    /** An item that does not stack is moved as it is, following a plan. */
    method MoveWhole(from: Item, item: Item, p: Plan<Item>)
      requires Sound(world) && GoodPlan(WorldOf(world), from, item, p) && !item.typ.stackable
      modifies world
      ensures Sound(world)
      ensures WorldOf(world) == WholeMoved(old(WorldOf(world)), from, item, p)
    {
      LiftedIsFine(WorldOf(world), from, item, p);
      from.RemoveThing(item, p.amount, world);
      p.c.AddThing(p.index, item, world);
    }

    /** Carries out a plan that goes ahead. */
    method Execute(from: Item, item: Item, p: Plan<Item>) returns (copy: Option<Item>)
      requires Sound(world) && GoodPlan(WorldOf(world), from, item, p)
      modifies this`world, world
      ensures Sound(world) && CarriedOut(old(WorldOf(world)), WorldOf(world), from, item, p, copy)
      ensures world >= old(world) && fresh(world - old(world))
    {
      if item.typ.stackable {
        copy := MoveStack(from, item, p);
      } else {
        copy := None;
        ghost var w := WorldOf(world);
        MoveWhole(from, item, p);
        assert Moved(w, from, item, p, copy) == WholeMoved(w, from, item, p);
      }
    }

    /** An item that is out of the world is to be released; a move does that to stacks only. */
    method ReleaseIfRemoved(item: Item, due: bool)
      requires Forest(WorldOf(world)) && item in world
      modifies this`toRelease
      ensures toRelease == old(toRelease) + if due && Adrift(WorldOf(world), item) then [item] else []
      ensures WorldOf(world) == old(WorldOf(world)) && CacheOf(world) == old(CacheOf(world))
    {
      if due {
        var gone := IsRemoved(item);
        if gone {
          toRelease := toRelease + [item];
        }
      }
    }

    /** The same, with what the plan promises about the outcome. */
    method Perform(from: Item, item: Item, p: Plan<Item>) returns (copy: Option<Item>)
      requires Valid() && GoodPlan(WorldOf(world), from, item, p)
      modifies this, world
      ensures CarriedOut(old(WorldOf(world)), WorldOf(world), from, item, p, copy)
      ensures Sound(world) && Stacked(WorldOf(world)) && (p.flags.noLimit || Roomy(WorldOf(world)))
      ensures forall m :: Total(WorldOf(world), m) == Total(old(WorldOf(world)), m)
      ensures world >= old(world) && fresh(world - old(world))
      ensures toRelease ==
              old(toRelease) + if item.typ.stackable && Adrift(WorldOf(world), item) then [item] else []
    {
      ghost var w := WorldOf(world);
      copy := Execute(from, item, p);
      CarriedOutIsFine(w, WorldOf(world), from, item, p, copy);
      ReleaseIfRemoved(item, item.typ.stackable);
    }

    /**
     `internalMoveItem` between containers.  Either a check fails and nothing at all changes, or
     the plan is carried out to the letter; in both cases nothing is made or lost.
     */
    method InternalMoveItem(from: Item, to: Item, index: int, item: Item, count: nat, flags: Flags,
                            carrier: nat -> bool, trade: Option<Item>)
      returns (ret: ReturnValue, moveItem: Item, ghost p: Plan<Item>, ghost copy: Option<Item>)
      requires Valid() && from in world && to in world && item in world && to.box
      modifies this, world
      ensures p == old(MovePlan(WorldOf(world), from, to, item, index, count, flags, carrier, trade))
      ensures !p.Go? ==> WorldOf(world) == old(WorldOf(world)) && toRelease == old(toRelease)
                         && ret == if p.Refused? then p.why else NoError
      ensures p.Go? ==> CarriedOut(old(WorldOf(world)), WorldOf(world), from, item, p, copy)
                        && ret == p.ret && moveItem == (if copy.Some? then copy.value else item)
      ensures p.Go? && old(item.typ.stackable) ==>
                && p.amount == old(Asked(WorldOf(world), p.c, item, p.index, p.flags.noLimit, count))
                && (ret == NoError <==> p.amount == count)
      ensures Sound(world) && Stacked(WorldOf(world)) && ((p.Go? && p.flags.noLimit) || Valid())
      ensures forall m :: Total(WorldOf(world), m) == Total(old(WorldOf(world)), m)
      ensures world >= old(world) && fresh(world - old(world))
      ensures p.Go? ==>
                (toRelease == old(toRelease) + if item.typ.stackable && Adrift(WorldOf(world), item) then [item] else [])
    {
      ghost var w := WorldOf(world);
      var plan := PlanMove(from, to, index, item, count, flags, carrier, trade);
      assert plan == MovePlan(w, from, to, item, index, count, flags, carrier, trade);
      p, copy, moveItem := plan, None, item;
      if !plan.Go? {
        ret := if plan.Refused? then plan.why else NoError;
        return;
      }
      PlanIsGood(w, from, to, item, index, count, flags, carrier, trade);
      if item.typ.stackable {
        MoveAmountIs(w, from, to, item, index, count, flags, carrier, trade);
      }
      var made := Perform(from, item, plan);
      ret, copy, moveItem := plan.ret, made, if made.Some? then made.value else item;
    }

    method Release(item: Item)
      modifies this`toRelease
      ensures toRelease == old(toRelease) + [item]
      ensures WorldOf(world) == old(WorldOf(world)) && CacheOf(world) == old(CacheOf(world))
    {
      toRelease := toRelease + [item];
    }

    /** The checks in front of an add, and the stack it goes onto. */
    method PlanAdd(to: Item, item: Item) returns (ret: ReturnValue, onto: Option<Item>)
      requires Valid() && to in world && item in world && item.parent.Nowhere?
      ensures var w := WorldOf(world);
              ret == AddAnswerHere(w, to, item) && (Admission(w, to, item) == NoError ==> onto == OntoOf(w, to, item))
    {
      ghost var w := WorldOf(world);
      onto := None;
      if !to.unlocked {
        return NotPossible, None;
      }
      assert w[to] == to.Look() && w[item] == item.Look();
      DestinationIsHere(w, to, item);
      var dest := to.QueryDestination(WHEREEVER, item, false, world);
      onto := dest.onto;
      ret := to.QueryAdd(dest.index, item, item.count, false, ANYONE, world);
      AnswerInSteps(w, to, item, dest, ret, MaxCountAnswer(w, to, item, WHEREEVER, item.count, false, ANYONE).0);
      if ret == NoError {
        var most;
        ret, most := to.QueryMaxCount(WHEREEVER, item, item.count, false, ANYONE, world);
      }
    }

    /** The whole item goes to the front of the container. */
    method AddWhole(to: Item, item: Item)
      requires Valid() && to in world && item in world && to.box && item.parent.Nowhere?
      requires Admission(WorldOf(world), to, item) == NoError && !TooMuch(WorldOf(world), to, item)
      requires OntoOf(WorldOf(world), to, item).None?
      modifies world
      ensures Valid() && Added(old(WorldOf(world)), WorldOf(world), to, item, NoError, 0, 0)
    {
      AddFront(WorldOf(world), to, item);
      AddedFront(WorldOf(world), to, item);
      to.AddThing(WHEREEVER, item, world);
    }

    /** The first stack that fits takes what it can. */
    method Merge(to: Item, onto: Item, item: Item) returns (n: nat)
      requires Valid() && to in world && item in world && item.parent.Nowhere?
      requires OntoOf(WorldOf(world), to, item) == Some(onto)
      modifies world
      ensures Valid() && n == Taken(old(WorldOf(world)), to, item)
      ensures WorldOf(world) == AfterMerge(old(WorldOf(world)), to, item)
    {
      var _ := OntoIs(WorldOf(world), to, item);
      var _ := MergeIsFine(WorldOf(world), to, item);
      n := MergeInto(to, Some(onto), item, item.count);
    }

    /** What a merge leaves over becomes a new item. */
    method MakeRest(to: Item, item: Item, rest: nat, ghost w: World<Item>) returns (remainder: Item)
      requires Valid() && RestDue(w, to, item) && WorldOf(world) == AfterMerge(w, to, item)
      requires w.Keys == world && rest == RestOf(w, to, item) && SlotOf(WorldOf(world)[item]) == SlotOf(w[item])
      modifies this`world
      ensures fresh(remainder) && world == old(world) + {remainder} && Valid()
      ensures remainder !in w && WorldOf(world) == WithRest(w, to, item, remainder)
      ensures WorldOf(world)[remainder].count == rest && WorldOf(world)[remainder].parent.Nowhere?
    {
      remainder := Clone(item, rest);
      RestReady(w, to, item, remainder);
    }

    /**
     `internalAddItem` into a plain container, wherever there is room.  With `test` nothing but the
     answer is wanted, which is the one that the add itself would give.  The recursion adds the
     remainder of a merge; `lost` is what a failure down there makes disappear, `remainderCount`
     what the caller is told about it.
     */
    method InternalAddItem(to: Item, item: Item, test: bool) returns (ret: ReturnValue, remainderCount: nat, ghost lost: nat)
      requires Valid() && to in world && item in world && to.box && item.parent.Nowhere?
      modifies this, world
      decreases item.count, 1
      ensures Valid() && ret == AddAnswerHere(old(WorldOf(world)), to, item)
      ensures test ==> WorldOf(world) == old(WorldOf(world)) && remainderCount == lost == 0
      ensures !test ==> Added(old(WorldOf(world)), WorldOf(world), to, item, ret, lost, remainderCount)
      ensures world >= old(world) && forall x :: x in world ==> x in old(world) || fresh(x)
    {
      ghost var w := WorldOf(world);
      var onto;
      lost, remainderCount := 0, 0;
      ret, onto := PlanAdd(to, item);
      if ret != NoError {
        AddedRefused(w, to, item);
        return;
      }
      if test {
        return;
      }
      if onto.None? {
        AddWhole(to, item);
        return;
      }
      remainderCount, lost := AddOnto(to, onto.value, item);
    }

    /** An accepted add that goes onto a stack. */
    method AddOnto(to: Item, onto: Item, item: Item) returns (remainderCount: nat, ghost lost: nat)
      requires Valid() && to in world && item in world && to.box && item.parent.Nowhere?
      requires Admission(WorldOf(world), to, item) == NoError && !TooMuch(WorldOf(world), to, item)
      requires OntoOf(WorldOf(world), to, item) == Some(onto)
      modifies this, world
      decreases item.count, 0
      ensures Valid() && Added(old(WorldOf(world)), WorldOf(world), to, item, NoError, lost, remainderCount)
      ensures world >= old(world) && forall x :: x in world ==> x in old(world) || fresh(x)
    {
      ghost var w := WorldOf(world);
      var count := item.count;
      var n := Merge(to, onto, item);
      if n == count {
        AddedMerged(w, to, item);
        Release(item);
        remainderCount, lost := 0, 0;
      } else {
        remainderCount, lost := AddRest(to, item, count, count - n, w);
      }
    }

    /** The remainder of a merge is added by a call of its own, of which only the answer is looked at. */
    method AddRest(to: Item, item: Item, ghost count: nat, rest: nat, ghost w: World<Item>)
      returns (remainderCount: nat, ghost lost: nat)
      requires Valid() && RestDue(w, to, item) && WorldOf(world) == AfterMerge(w, to, item)
      requires w.Keys == world && rest == RestOf(w, to, item) && SlotOf(WorldOf(world)[item]) == SlotOf(w[item])
      requires rest < count && to.box
      modifies this, world
      decreases count - 1, 2
      ensures Valid() && Added(w, WorldOf(world), to, item, NoError, lost, remainderCount)
      ensures world >= old(world) && forall x :: x in world ==> x in old(world) || fresh(x)
    {
      var remainder := MakeRest(to, item, rest, w);
      label Before:
      ghost var before := world;
      var r, told, l := InternalAddItem(to, remainder, false);
      forall x | x in world
        ensures x in old(world) || fresh(x)
      {
        if x !in before {
          assert fresh@Before(x);
        }
      }
      lost, remainderCount := if r != NoError then rest else l, if r != NoError then rest else 0;
      assert Added(w, WorldOf(world), to, item, NoError, lost, remainderCount) by {
        AddedInParts(w, to, item, remainder, WorldOf(world), r, l, told);
      }
      if r != NoError {
        Release(remainder);
      }
    }

    /** Part of a stack, or the whole entry, leaves the container; what is out of the world is released. */
    method TakeFrom(cylinder: Item, item: Item, count: nat)
      requires Valid() && cylinder in world && item in world && item in cylinder.items
      requires 1 <= count && (item.typ.stackable ==> count <= item.count)
      modifies this`toRelease, world
      ensures Valid() && WorldOf(world) == Removed(old(WorldOf(world)), cylinder, item, count)
    {
      RemovedKeepsBounds(WorldOf(world), cylinder, item, count);
      cylinder.RemoveThing(item, count, world);
      ReleaseIfRemoved(item, true);
    }

    /** `internalRemoveItem` for an item that is in a container or nowhere; with `test` only the answer is wanted. */
    method InternalRemoveItem(item: Item, count: nat, test: bool) returns (ret: ReturnValue)
      requires Valid() && item in world && !item.parent.Outside?
      modifies this`toRelease, world
      ensures Valid()
      ensures var w, p := old(WorldOf(world)), old(item.parent);
              if p.Nowhere? then ret == NotPossible && WorldOf(world) == w
              else p.c in w && ret == RemoveAnswer(w, p.c, item, count, true)
                   && WorldOf(world) == if ret == NoError && !test then Removed(w, p.c, item, count) else w
    {
      if item.parent.Nowhere? {
        return NotPossible;
      }
      assert WorldOf(world)[item].parent == item.parent;
      assert Linked(WorldOf(world), item);
      var cylinder := item.parent.c;
      ret := cylinder.QueryRemove(item, count, true, world);
      if ret == NoError && !test {
        TakeFrom(cylinder, item, count);
      }
    }

    /** `CreateItem`: a new stack that is nowhere yet. */
    method CreateStack(typ: ItemType, attrs: Attrs, count: nat) returns (item: Item)
      requires Valid() && typ.stackable && 1 <= count <= MAX_STACK
      modifies this`world
      ensures fresh(item) && world == old(world) + {item} && Valid()
      ensures WorldOf(world) == old(WorldOf(world))[item := View(typ, count, attrs, Nowhere, false, 0, true, [], 0)]
      ensures item.parent.Nowhere?
    {
      item := new Item(typ, count, attrs, false, 0, true);
      BirthKeepsBounds(WorldOf(world), item, item.Look());
      Adopt(item);
    }

    /** The item is put somewhere outside of all containers: on a tile, say. */
    method DropOutside(item: Item)
      requires Valid() && item in world && item.parent.Nowhere?
      modifies item`parent
      ensures Valid()
      ensures WorldOf(world) == old(WorldOf(world))[item := old(WorldOf(world))[item].(parent := Outside)]
    {
      OutsideIsFine(WorldOf(world), CacheOf(world), item);
      item.SetParent(Outside, world);
    }
  }

  /** The upward walk from `x` ends without a holder. */
  ghost predicate Adrift<R>(w: World<R>, x: R)
    requires Forest(w) && x in w
    decreases w[x].depth
  {
    assert Linked(w, x);
    w[x].parent.Nowhere? || (w[x].parent.In? && Adrift(w, w[x].parent.c))
  }

  lemma OutsideIsFine<R>(w: World<R>, cache: Cache<R>, i: R)
    requires Forest(w) && AllAgree(w, cache) && Stacked(w) && Roomy(w) && i in w && w[i].parent.Nowhere?
    ensures var n := w[i := w[i].(parent := Outside)];
            Forest(n) && AllAgree(n, cache) && Stacked(n) && Roomy(n)
  {
    var n := w[i := w[i].(parent := Outside)];
    forall x | x in n
      ensures Linked(n, x) && Holds(n, x) && Agrees(n, cache, x)
    {
      assert Linked(w, x) && Holds(w, x) && Agrees(w, cache, x);
      LoadSumFrame(w, n, cache, w[x].items);
    }
  }
}
