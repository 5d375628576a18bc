/**
 What a container answers when it is asked whether, where and how much can be added or
 removed, as functions of a snapshot.
 */
module Queries {
  import opened ItemTree
  import opened Weights

  datatype ReturnValue =
    | NoError | NotPossible | NotMoveable | CannotPickup | ThisIsImpossible
    | NotEnoughRoom | ContainerNotEnoughRoom | NotEnoughCapacity

  datatype Option<+T> = None | Some(value: T)

  const WHEREEVER: int := -1
  const MOVE_UP: int := 254
  const ADD_WHEREEVER: int := 255

  /** The answer of a tree that no creature carries. */
  const ANYONE: nat -> bool := (n: nat) => true

  datatype Flags = Flags(noLimit: bool, ignoreNotMoveable: bool, ignoreAutoStack: bool)
  const NO_FLAGS := Flags(false, false, false)

  /** `Item::equals`: an item is equal to itself even when it carries custom values. */
  predicate Same<R(==)>(w: World<R>, x: R, y: R)
    requires x in w && y in w
  {
    x == y || Similar(w[x], w[y])
  }

  /** `x` is another stack of the same kind as `i` that is not full. */
  predicate Partial<R(==)>(w: World<R>, x: R, i: R)
    requires i in w
  {
    x in w && x != i && Similar(w[x], w[i]) && w[x].count < MAX_STACK
  }

  /** The free space in the partial stacks of `s`. */
  ghost function Slack<R>(w: World<R>, s: seq<R>, i: R): nat
    requires i in w
  {
    if s == [] then 0
    else (if Partial(w, s[0], i) then MAX_STACK - w[s[0]].count else 0) + Slack(w, s[1..], i)
  }

  /** A container refuses a plain add when it has fewer than two free slots; the test is unsigned. */
  predicate Crowded<R>(v: View<R>) {
    |v.items| >= Wrap(v.cap - 1)
  }

  /** `carrier` is what the creature carrying the tree answers for a number of pieces. */
  ghost function AddAnswer<R>(w: World<R>, c: R, i: R, index: int, count: nat, noLimit: bool, carrier: nat -> bool): ReturnValue
    requires Forest(w) && c in w && i in w
  {
    if !w[c].unlocked then NotPossible
    else if !w[i].typ.pickupable then CannotPickup
    else if Under(w, c, i) then ThisIsImpossible
    else if !noLimit && index == WHEREEVER && Crowded(w[c]) then ContainerNotEnoughRoom
    else if !carrier(count) then NotEnoughCapacity
    else NoError
  }

  lemma {:induction false} SlackStep<R>(w: World<R>, s: seq<R>, k: nat, i: R)
    requires i in w && k < |s|
    ensures Slack(w, s[..k+1], i) ==
            Slack(w, s[..k], i) + if Partial(w, s[k], i) then MAX_STACK - w[s[k]].count else 0
  {
    if k == 0 {
      assert s[..1][1..] == [] && s[..0] == [];
    } else {
      SlackStep(w, s[1..], k - 1, i);
      assert s[..k+1][1..] == s[1..][..k] && s[..k][1..] == s[1..][..k-1];
    }
  }

  function FreeSlots<R>(v: View<R>): nat {
    if v.cap > |v.items| then v.cap - |v.items| else 0
  }

  /** The room for `i` that is not a free slot. */
  ghost function MergeRoom<R>(w: World<R>, c: R, i: R, index: int, count: nat, carrier: nat -> bool): nat
    requires Forest(w) && c in w && i in w
  {
    if AddAnswer(w, c, i, 0, count, false, carrier) != NoError then 0
    else if index == WHEREEVER then Slack(w, w[c].items, i)
    else if 0 <= index < |w[c].items| then
      assert Holds(w, c);
      var d := w[c].items[index];
      if Same(w, i, d) && w[d].count < MAX_STACK then MAX_STACK - w[d].count else 0
    else 0
  }

  ghost function MaxCountAnswer<R>(w: World<R>, c: R, i: R, index: int, count: nat, noLimit: bool, carrier: nat -> bool)
    : (r: (ReturnValue, nat))
    requires Forest(w) && c in w && i in w
  {
    if noLimit then (NoError, if count > 1 then count else 1)
    else if w[i].typ.stackable then
      var most := FreeSlots(w[c]) * MAX_STACK + MergeRoom(w, c, i, index, count, carrier);
      (if most < count then ContainerNotEnoughRoom else NoError, most)
    else
      (if FreeSlots(w[c]) == 0 then ContainerNotEnoughRoom else NoError, FreeSlots(w[c]))
  }

  function RemoveAnswer<R(==)>(w: World<R>, c: R, i: R, count: nat, ignoreNotMoveable: bool): ReturnValue
    requires c in w && i in w
  {
    if i !in w[c].items then NotPossible
    else if count == 0 || (w[i].typ.stackable && count > w[i].count) then NotPossible
    else if !w[i].typ.moveable && !ignoreNotMoveable then NotMoveable
    else NoError
  }

  /** Where an add really goes: which container, at which index, and onto which item there. */
  datatype Destination<R> = Destination(c: R, index: int, onto: Option<R>)

  /** The first stack that `i` could be merged into, from position `k` on. */
  ghost function FirstPartial<R>(w: World<R>, s: seq<R>, i: R, k: nat): (r: Option<nat>)
    requires i in w && k <= |s|
    ensures r.Some? ==> k <= r.value < |s| && Partial(w, s[r.value], i)
                        && forall j :: k <= j < r.value ==> !Partial(w, s[j], i)
    ensures r.None? ==> forall j :: k <= j < |s| ==> !Partial(w, s[j], i)
    decreases |s| - k
  {
    if k == |s| then None
    else if Partial(w, s[k], i) then Some(k)
    else FirstPartial(w, s, i, k + 1)
  }

  ghost function DestinationAnswer<R>(w: World<R>, c: R, i: R, index: int, ignoreAutoStack: bool): (d: Destination<R>)
    requires Forest(w) && c in w && i in w
  {
    assert Holds(w, c);
    var v := w[c];
    if !v.unlocked then Destination(c, index, None)
    else if index == MOVE_UP then Destination(if v.parent.In? then v.parent.c else c, WHEREEVER, None)
    else
      var at := if index == ADD_WHEREEVER || index >= v.cap then WHEREEVER else index;
      if 0 <= at < |v.items| && w[v.items[at]].box then Destination(v.items[at], WHEREEVER, None)
      else
        var stack :=
          if !ignoreAutoStack && w[i].typ.stackable && w[i].parent != In(c) then FirstPartial(w, v.items, i, 0)
          else None;
        if stack.Some? then Destination(c, stack.value, Some(v.items[stack.value]))
        else Destination(c, at, if 0 <= at < |v.items| then Some(v.items[at]) else None)
  }

  // ----- the answers, from the fields of the items -----

  /** `path` leads from `x` up to `y`, from every item to the container it is in. */
  ghost predicate Leads<R>(w: World<R>, older path: seq<R>, x: R, y: R) {
    && path != [] && path[0] == x && path[|path|-1] == y
    && (forall k :: 0 <= k < |path| ==> path[k] in w)
    && (forall k :: 0 <= k < |path| - 1 ==> w[path[k]].parent == In(path[k+1]))
  }

  /** `x` is `y`, or in `y` at some depth. */
  ghost predicate IsWithin<R>(w: World<R>, x: R, y: R) {
    exists path :: Leads(w, path, x, y)
  }

  lemma {:induction false} UnderLeads<R>(w: World<R>, x: R, y: R) returns (path: seq<R>)
    requires Forest(w) && x in w && Under(w, x, y)
    ensures Leads(w, path, x, y)
    decreases w[x].depth
  {
    assert Linked(w, x);
    if x == y {
      path := [x];
    } else {
      var up := UnderLeads(w, w[x].parent.c, y);
      path := [x] + up;
    }
  }

  lemma {:induction false} LeadsUnder<R>(w: World<R>, path: seq<R>, x: R, y: R)
    requires Forest(w) && Leads(w, path, x, y)
    ensures x in w && Under(w, x, y)
    decreases |path|
  {
    assert Linked(w, x);
    if |path| > 1 {
      assert w[path[0]].parent == In(path[1]);
      assert forall k :: 0 <= k < |path| - 1 ==> path[1..][k] == path[k+1];
      LeadsUnder(w, path[1..], path[1], y);
    }
  }

  lemma WithinIff<R>(w: World<R>, x: R, y: R)
    requires Forest(w) && x in w
    ensures Under(w, x, y) <==> IsWithin(w, x, y)
  {
    if Under(w, x, y) {
      var path := UnderLeads(w, x, y);
    }
    if path :| Leads(w, path, x, y) {
      LeadsUnder(w, path, x, y);
    }
  }

  /** When an add is refused: each reason, in the order in which the program looks for it. */
  lemma AddRefusedIff<R>(w: World<R>, c: R, i: R, index: int, count: nat, noLimit: bool, carrier: nat -> bool)
    requires Forest(w) && c in w && i in w && w[c].cap < 0x1_0000_0000 && |w[c].items| < 0xFFFF_FFFF
    ensures var r, v := AddAnswer(w, c, i, index, count, noLimit, carrier), w[c];
            var crowded := !noLimit && index == -1 && 1 <= v.cap <= |v.items| + 1;
            && (r == NotPossible <==> !v.unlocked)
            && (r == CannotPickup <==> v.unlocked && !w[i].typ.pickupable)
            && (r == ThisIsImpossible <==> v.unlocked && w[i].typ.pickupable && IsWithin(w, c, i))
            && (r == ContainerNotEnoughRoom <==> v.unlocked && w[i].typ.pickupable && !IsWithin(w, c, i) && crowded)
            && (r == NotEnoughCapacity <==>
                v.unlocked && w[i].typ.pickupable && !IsWithin(w, c, i) && !crowded && !carrier(count))
            && (r == NoError <==> v.unlocked && w[i].typ.pickupable && !IsWithin(w, c, i) && !crowded && carrier(count))
  {
    WithinIff(w, c, i);
  }

  /** How many pieces of `i` the stack `x` has room for. */
  function Space<R(==)>(w: World<R>, x: R, i: R): nat
    requires i in w
  {
    if x in w && x != i && w[x].typ == w[i].typ && w[x].attrs == w[i].attrs
       && !(w[i].attrs.Attrs? && w[i].attrs.custom) && w[x].count < 100
    then 100 - w[x].count else 0
  }

  ghost function SpaceIn<R>(w: World<R>, s: seq<R>, i: R): nat
    requires i in w
  {
    if s == [] then 0 else SpaceIn(w, s[..|s|-1], i) + Space(w, s[|s|-1], i)
  }

  lemma SlackAt<R>(w: World<R>, x: R, i: R)
    requires i in w
    ensures Space(w, x, i) == if Partial(w, x, i) then MAX_STACK - w[x].count else 0
  {
  }

  lemma {:induction false} SlackIsSpace<R>(w: World<R>, s: seq<R>, i: R)
    requires i in w
    ensures Slack(w, s, i) == SpaceIn(w, s, i)
    decreases |s|
  {
    if s != [] {
      var k := |s| - 1;
      SlackStep(w, s, k, i);
      assert s[..k+1] == s;
      SlackAt(w, s[k], i);
      SlackIsSpace(w, s[..k], i);
    }
  }

  /** The room for pieces of `i` at an index of `c`: a hundred for each free slot, and what stacks can take. */
  ghost function RoomAt<R>(w: World<R>, c: R, i: R, index: int): nat
    requires c in w && i in w
  {
    100 * (if w[c].cap > |w[c].items| then w[c].cap - |w[c].items| else 0)
    + (if index == -1 then SpaceIn(w, w[c].items, i)
       else if 0 <= index < |w[c].items| then
         (if w[c].items[index] == i then (if w[i].count < 100 then 100 - w[i].count else 0) else Space(w, w[c].items[index], i))
       else 0)
  }

  /** What can be added of a stack is the room there, and short of that an error is returned. */
  lemma MaxCountIsRoom<R>(w: World<R>, c: R, i: R, index: int, count: nat, carrier: nat -> bool)
    requires Forest(w) && c in w && i in w && w[i].typ.stackable
    requires AddAnswer(w, c, i, 0, count, false, carrier) == NoError
    ensures MaxCountAnswer(w, c, i, index, count, false, carrier) ==
            (if RoomAt(w, c, i, index) < count then ContainerNotEnoughRoom else NoError, RoomAt(w, c, i, index))
  {
    assert Holds(w, c);
    if index == WHEREEVER {
      SlackIsSpace(w, w[c].items, i);
    }
  }

  /** What can be added of other things is one for each free slot; without limit, whatever is asked for. */
  lemma MaxCountOfOthers<R>(w: World<R>, c: R, i: R, index: int, count: nat, noLimit: bool, carrier: nat -> bool)
    requires Forest(w) && c in w && i in w
    ensures var r := MaxCountAnswer(w, c, i, index, count, noLimit, carrier);
            && (noLimit ==> r.0 == NoError && r.1 >= 1 && r.1 >= count && (r.1 == 1 || r.1 == count))
            && (!noLimit && !w[i].typ.stackable ==>
                  if |w[c].items| < w[c].cap then r.0 == NoError && |w[c].items| + r.1 == w[c].cap
                  else r == (ContainerNotEnoughRoom, 0))
  {
  }

  /** When a removal is refused, and why. */
  lemma RemoveRefusedIff<R>(w: World<R>, c: R, i: R, count: nat, ignoreNotMoveable: bool)
    requires c in w && i in w
    ensures var r := RemoveAnswer(w, c, i, count, ignoreNotMoveable);
            var there := exists k :: 0 <= k < |w[c].items| && w[c].items[k] == i;
            && (r == NotPossible <==> !there || count == 0 || (w[i].typ.stackable && w[i].count < count))
            && (r == NotMoveable <==> r != NotPossible && !w[i].typ.moveable && !ignoreNotMoveable)
            && (r == NoError || r == NotPossible || r == NotMoveable)
  {
    assert i in w[c].items <==> exists k :: 0 <= k < |w[c].items| && w[c].items[k] == i;
  }

  /** The entry at a position. */
  predicate EntryAt<R(==)>(w: World<R>, c: R, k: int, x: R)
    requires c in w
  {
    0 <= k < |w[c].items| && w[c].items[k] == x
  }

  /** An item that may be merged, and goes to a container it is not in yet. */
  predicate MayMerge<R(==)>(w: World<R>, c: R, i: R, ignoreAutoStack: bool)
    requires i in w
  {
    !ignoreAutoStack && w[i].typ.stackable && w[i].parent != In(c)
  }

  /** Where an add goes that names a container and an index there: up, down, onto a stack, or here. */
  lemma DestinationIs<R>(w: World<R>, c: R, i: R, index: int, ignoreAutoStack: bool)
    requires Forest(w) && c in w && i in w
    ensures var d, v := DestinationAnswer(w, c, i, index, ignoreAutoStack), w[c];
            && (!v.unlocked ==> d == Destination(c, index, None))
            && (v.unlocked && index == 254 && v.parent.In? ==> d == Destination(v.parent.c, -1, None))
            && (v.unlocked && index == 254 && !v.parent.In? ==> d == Destination(c, -1, None))
            && (v.unlocked && index != 254 ==>
                  var at := if index == 255 || index >= v.cap then -1 else index;
                  && (forall b :: EntryAt(w, c, at, b) && b in w && w[b].box ==> d == Destination(b, -1, None))
                  && (!(exists b :: EntryAt(w, c, at, b) && b in w && w[b].box) ==> d.c == c && Settles(w, c, i, at, ignoreAutoStack, d)))
  {
    assert Holds(w, c);
  }

  /** Onto the first stack that has space for the item, if it may be merged, or else to the index. */
  ghost predicate Settles<R>(w: World<R>, c: R, i: R, at: int, ignoreAutoStack: bool, d: Destination<R>)
    requires c in w && i in w
  {
    if MayMerge(w, c, i, ignoreAutoStack) && (exists k :: 0 <= k < |w[c].items| && Space(w, w[c].items[k], i) > 0) then
      && 0 <= d.index < |w[c].items| && d.onto == Some(w[c].items[d.index]) && Space(w, w[c].items[d.index], i) > 0
      && forall k :: 0 <= k < d.index ==> Space(w, w[c].items[k], i) == 0
    else
      d.index == at && (if 0 <= at < |w[c].items| then d.onto == Some(w[c].items[at]) else d.onto == None)
  }
}
