/**
 A player as the destination of items: where an item goes that is added, or moved, to nowhere in
 particular.  A trade tests the first and does the second.

 What a slot answers about a number of pieces is the parameter `takes`, and what the player answers
 about their weight the parameter `carries`.
 */
module Carriers {
  import opened ItemTree
  import opened Queries
  import opened Moves
  import opened Adding
  import opened Traversal

  /** What is in the slots, the first one first, and the item on offer in a trade. */
  datatype Carrier<R> = Carrier(slots: seq<Option<R>>, offer: Option<R>)

  /** Where an item goes: a slot, a container, or nowhere. */
  datatype Place<R> = InSlot(k: nat) | InBag(c: R) | NoPlace

  /** Items a search passes over: the one that is to be added and the one on offer. */
  predicate Skipped<R(==)>(p: Carrier<R>, i: R, x: R) {
    x == i || p.offer == Some(x)
  }

  /** The containers in the slots, but those that are passed over. */
  function Bags<R(==)>(w: World<R>, p: Carrier<R>, i: R, slots: seq<Option<R>>): seq<R> {
    if slots == [] then []
    else
      var x := slots[0];
      (if x.Some? && x.value in w && w[x.value].box && !Skipped(p, i, x.value) then [x.value] else [])
      + Bags(w, p, i, slots[1..])
  }

  lemma {:induction false} BagsAt<R>(w: World<R>, p: Carrier<R>, i: R, slots: seq<Option<R>>, c: R)
    ensures c in Bags(w, p, i, slots) <==> Some(c) in slots && c in w && w[c].box && c != i && p.offer != Some(c)
  {
    if slots != [] {
      BagsAt(w, p, i, slots[1..], c);
    }
  }

  /** A container with a free slot that accepts the item there. */
  ghost predicate HasPlace<R>(w: World<R>, c: R, i: R, carries: nat -> bool)
    requires Forest(w) && i in w
  {
    c in w && FreeSlots(w[c]) > 0 && AddAnswer(w, c, i, |w[c].items|, w[i].count, false, carries) == NoError
  }

  // ----- without merging -----

  /** The first empty slot that takes so many pieces, from slot `k` on. */
  function EmptySlot<R>(slots: seq<Option<R>>, takes: (nat, nat) -> bool, count: nat, k: nat): (r: Option<nat>)
    requires k <= |slots|
    ensures r.Some? ==> k <= r.value < |slots| && slots[r.value].None? && takes(r.value, count)
    ensures r.None? ==> forall j :: k <= j < |slots| && slots[j].None? ==> !takes(j, count)
    decreases |slots| - k
  {
    if k == |slots| then None
    else if slots[k].None? && takes(k, count) then Some(k)
    else EmptySlot(slots, takes, count, k + 1)
  }

  ghost function FirstPlace<R>(w: World<R>, q: seq<R>, i: R, carries: nat -> bool): (r: Option<R>)
    requires Forest(w) && i in w
    ensures r.Some? ==> r.value in q && HasPlace(w, r.value, i, carries)
    ensures r.None? ==> forall c :: c in q ==> !HasPlace(w, c, i, carries)
  {
    if q == [] then None
    else if HasPlace(w, q[0], i, carries) then Some(q[0])
    else FirstPlace(w, q[1..], i, carries)
  }

  lemma InnerQueue<R>(w: World<R>, q: seq<R>, n: nat)
    requires Forest(w) && Queue(w, q, n)
    ensures Queue(w, Boxes(w, Entries(w, q)), n + 1)
  {
    forall x | x in Boxes(w, Entries(w, q))
      ensures x in w && n + 1 <= w[x].depth
    {
      BoxesAt(w, Entries(w, q), x);
      EntriesAt(w, q, x);
      assert Linked(w, x);
    }
  }

  /** The search through the queue of containers: all of the queue, then the containers in them, and so on. */
  ghost function FindPlace<R>(w: World<R>, q: seq<R>, n: nat, floor: nat, i: R, carries: nat -> bool): Option<R>
    requires Forest(w) && Bounded(w, floor) && Queue(w, q, n) && i in w
    decreases floor + 1 - n
  {
    var c := FirstPlace(w, q, i, carries);
    if q == [] || c.Some? then c
    else
      InnerQueue(w, q, n);
      assert q[0] in q;
      FindPlace(w, Boxes(w, Entries(w, q)), n + 1, floor, i, carries)
  }

  /** The containers the search comes to if it does not end before. */
  ghost predicate Searched<R>(w: World<R>, q: seq<R>, c: R)
    requires Forest(w)
  {
    c in w && w[c].box && (c in q || UnderSome(w, c, q))
  }

  lemma SearchedNext<R>(w: World<R>, q: seq<R>, c: R)
    requires Forest(w)
    ensures Searched(w, q, c) <==> (c in w && w[c].box && c in q) || Searched(w, Boxes(w, Entries(w, q)), c)
  {
    if c in w && w[c].box {
      var e := Entries(w, q);
      BelowQueue(w, q, c);
      BoxesAt(w, e, c);
      if UnderSome(w, c, FullBoxes(w, e)) {
        var b :| b in FullBoxes(w, e) && StrictlyUnder(w, c, b);
        FullBoxesAt(w, e, b);
        BoxesAt(w, e, b);
        assert UnderSome(w, c, Boxes(w, e));
      }
      if UnderSome(w, c, Boxes(w, e)) {
        var b :| b in Boxes(w, e) && StrictlyUnder(w, c, b);
        BoxesAt(w, e, b);
        HasEntries(w, c, b);
        FullBoxesAt(w, e, b);
        assert UnderSome(w, c, FullBoxes(w, e));
      }
    }
  }

  /** The search finds a place if there is one in any container inside those it starts with. */
  lemma {:induction false} FindPlaceIff<R>(w: World<R>, q: seq<R>, n: nat, floor: nat, i: R, carries: nat -> bool)
    requires Forest(w) && Bounded(w, floor) && Queue(w, q, n) && i in w && forall c :: c in q ==> w[c].box
    ensures var r := FindPlace(w, q, n, floor, i, carries);
            && (r.Some? ==> Searched(w, q, r.value) && HasPlace(w, r.value, i, carries))
            && (r.None? ==> forall c :: Searched(w, q, c) ==> !HasPlace(w, c, i, carries))
    decreases floor + 1 - n
  {
    if q != [] && FirstPlace(w, q, i, carries).None? {
      InnerQueue(w, q, n);
      assert q[0] in q;
      var later := Boxes(w, Entries(w, q));
      forall c | c in later
        ensures w[c].box
      {
        BoxesAt(w, Entries(w, q), c);
      }
      FindPlaceIff(w, later, n + 1, floor, i, carries);
      forall c
        ensures Searched(w, q, c) <==> (c in w && w[c].box && c in q) || Searched(w, later, c)
      {
        SearchedNext(w, q, c);
      }
    }
  }

  /** Where an item goes when it is moved without merging. */
  ghost function UnmergedPlace<R>(w: World<R>, p: Carrier<R>, i: R, takes: (nat, nat) -> bool, carries: nat -> bool, floor: nat): Place<R>
    requires Forest(w) && Bounded(w, floor) && i in w
  {
    var k := EmptySlot(p.slots, takes, w[i].count, 0);
    if k.Some? then InSlot(k.value)
    else
      BagsQueue(w, p, i, p.slots);
      var c := FindPlace(w, Bags(w, p, i, p.slots), 0, floor, i, carries);
      if c.Some? then InBag(c.value) else NoPlace
  }

  lemma BagsQueue<R>(w: World<R>, p: Carrier<R>, i: R, slots: seq<Option<R>>)
    ensures Queue(w, Bags(w, p, i, slots), 0) && forall c :: c in Bags(w, p, i, slots) ==> w[c].box
  {
    forall c | c in Bags(w, p, i, slots)
      ensures c in w && w[c].box
    {
      BagsAt(w, p, i, slots, c);
    }
  }

  /** A place is found unless no empty slot takes the item and no container that is searched has a free slot for it. */
  lemma PlaceIff<R>(w: World<R>, p: Carrier<R>, i: R, takes: (nat, nat) -> bool, carries: nat -> bool, floor: nat)
    requires Forest(w) && Bounded(w, floor) && i in w
    ensures var q, r := Bags(w, p, i, p.slots), UnmergedPlace(w, p, i, takes, carries, floor);
            && (r.NoPlace? <==> (forall k :: 0 <= k < |p.slots| && p.slots[k].None? ==> !takes(k, w[i].count))
                                && forall c :: Searched(w, q, c) ==> !HasPlace(w, c, i, carries))
            && (r.InSlot? ==> r.k < |p.slots| && p.slots[r.k].None? && takes(r.k, w[i].count))
            && (r.InBag? ==> Searched(w, q, r.c) && HasPlace(w, r.c, i, carries))
  {
    BagsQueue(w, p, i, p.slots);
    FindPlaceIff(w, Bags(w, p, i, p.slots), 0, floor, i, carries);
  }

  // ----- the move -----

  /**
   What becomes of a move once the search has found the container: the search has put the number of
   its entries in for the index, and the flags are cleared on the way there.
   */
  ghost function BagPlan<R>(w: World<R>, from: R, c: R, i: R, carries: nat -> bool, trade: Option<R>): Plan<R>
    requires Forest(w) && from in w && c in w && i in w
  {
    var (d, fl) := Route(w, c, i, |w[c].items|, NO_FLAGS, 1);
    if d.onto == Some(i) then Ignored else AdditionPlan(w, from, d, fl, i, w[i].count, carries, trade)
  }

  ghost predicate Inside<R>(w: World<R>, c: R, trade: Option<R>)
    requires Forest(w) && c in w
  {
    trade.Some? && Under(w, c, trade.value)
  }

  lemma BagRoute<R>(w: World<R>, c: R, i: R, carries: nat -> bool)
    requires Forest(w) && i in w && HasPlace(w, c, i, carries) && |w[c].items| < MOVE_UP
    ensures var (d, fl) := Route(w, c, i, |w[c].items|, NO_FLAGS, 1);
            d.c == c && d.index >= 0 && d.onto != Some(i) && fl == NO_FLAGS
  {
    assert Holds(w, c);
  }

  /** A container that has a place takes the whole item, unless it is inside the partner's offer. */
  lemma BagTakesAll<R>(w: World<R>, from: R, c: R, i: R, carries: nat -> bool, trade: Option<R>)
    requires Forest(w) && Stacked(w) && from in w && i in w && i in w[from].items && w[i].typ.moveable && 1 <= w[i].count
    requires HasPlace(w, c, i, carries) && |w[c].items| < MOVE_UP
    ensures var p := BagPlan(w, from, c, i, carries, trade);
            && (Inside(w, c, trade) ==> p == Refused(NotEnoughRoom))
            && (!Inside(w, c, trade) ==> p.Go? && p.c == c && p.ret == NoError && (w[i].typ.stackable ==> p.amount == w[i].count))
  {
    BagRoute(w, c, i, carries);
  }

  // ----- the test -----

  predicate Onto<R(==)>(w: World<R>, p: Carrier<R>, i: R, x: R)
    requires i in w
  {
    !Skipped(p, i, x) && w[i].typ.stackable && Partial(w, x, i)
  }

  /** The first slot with a stack the item can be merged into, or empty, that takes it. */
  function MergingSlot<R(==)>(w: World<R>, p: Carrier<R>, i: R, takes: (nat, nat) -> bool, k: nat): Option<nat>
    requires i in w && k <= |p.slots|
    decreases |p.slots| - k
  {
    if k == |p.slots| then None
    else if takes(k, w[i].count) && (p.slots[k].None? || Onto(w, p, i, p.slots[k].value)) then Some(k)
    else MergingSlot(w, p, i, takes, k + 1)
  }

  /** The entries of a container that are not passed over. */
  function Shown<R(==)>(p: Carrier<R>, i: R, s: seq<R>): seq<R> {
    if s == [] then [] else (if Skipped(p, i, s[0]) then [] else [s[0]]) + Shown(p, i, s[1..])
  }

  /** A container with a stack to merge into, or with more slots than entries that are not passed over. */
  ghost predicate MergesOrHasPlace<R>(w: World<R>, p: Carrier<R>, c: R, i: R, carries: nat -> bool)
    requires Forest(w) && i in w
  {
    && c in w
    && ((exists x :: x in w[c].items && Onto(w, p, i, x))
        || (|Shown(p, i, w[c].items)| < w[c].cap
            && AddAnswer(w, c, i, |Shown(p, i, w[c].items)|, w[i].count, false, carries) == NoError))
  }

  ghost function FirstMerging<R>(w: World<R>, p: Carrier<R>, q: seq<R>, i: R, carries: nat -> bool): Option<R>
    requires Forest(w) && i in w
  {
    if q == [] then None
    else if MergesOrHasPlace(w, p, q[0], i, carries) then Some(q[0])
    else FirstMerging(w, p, q[1..], i, carries)
  }

  lemma ShownQueue<R>(w: World<R>, p: Carrier<R>, i: R, s: seq<R>, n: nat)
    requires Queue(w, s, n)
    ensures Queue(w, Shown(p, i, s), n)
  {
    if s != [] {
      assert s[0] in s;
      ShownQueue(w, p, i, s[1..], n);
    }
  }

  ghost function FindMerging<R>(w: World<R>, p: Carrier<R>, q: seq<R>, n: nat, floor: nat, i: R, carries: nat -> bool): Option<R>
    requires Forest(w) && Bounded(w, floor) && Queue(w, q, n) && i in w
    decreases floor + 1 - n
  {
    var c := FirstMerging(w, p, q, i, carries);
    if q == [] || c.Some? then c
    else
      InnerQueue(w, q, n);
      ShownQueue(w, p, i, Boxes(w, Entries(w, q)), n + 1);
      assert q[0] in q;
      FindMerging(w, p, Shown(p, i, Boxes(w, Entries(w, q))), n + 1, floor, i, carries)
  }

  /** The room in the containers among `s`. */
  ghost function RoomIn<R>(w: World<R>, s: seq<R>, i: R, carries: nat -> bool): nat
    requires Forest(w) && i in w
  {
    if s == [] then 0
    else
      (if s[0] in w && w[s[0]].box then MaxCountAnswer(w, s[0], i, WHEREEVER, w[i].count, false, carries).1 else 0)
      + RoomIn(w, s[1..], i, carries)
  }

  /** The room in one slot: of an empty one, on a stack, or in a container and everything inside. */
  ghost function SlotRoom<R>(w: World<R>, p: Carrier<R>, i: R, takes: (nat, nat) -> bool, carries: nat -> bool, floor: nat, k: nat): nat
    requires Forest(w) && Bounded(w, floor) && i in w && k < |p.slots|
  {
    match p.slots[k]
    case None => if !takes(k, w[i].count) then 0 else if w[i].typ.stackable then MAX_STACK else 1
    case Some(x) =>
      if x !in w then 0
      else if w[x].box then RoomIn(w, [x] + LevelOrder(w, [x], w[x].depth, floor), i, carries)
      else if w[x].typ.stackable && Same(w, i, x) && w[x].count < MAX_STACK && takes(k, MAX_STACK - w[x].count) then MAX_STACK - w[x].count
      else 0
  }

  ghost function AllRoom<R>(w: World<R>, p: Carrier<R>, i: R, takes: (nat, nat) -> bool, carries: nat -> bool, floor: nat, k: nat): nat
    requires Forest(w) && Bounded(w, floor) && i in w && k <= |p.slots|
  {
    if k == 0 then 0 else AllRoom(w, p, i, takes, carries, floor, k - 1) + SlotRoom(w, p, i, takes, carries, floor, k - 1)
  }

  /** Where an item goes that is added: other than for a move, a stack it can be merged into will do. */
  ghost function MergingPlace<R>(w: World<R>, p: Carrier<R>, i: R, takes: (nat, nat) -> bool, carries: nat -> bool, floor: nat): Place<R>
    requires Forest(w) && Bounded(w, floor) && i in w
  {
    if !w[i].typ.stackable then UnmergedPlace(w, p, i, takes, carries, floor)
    else
      var k := MergingSlot(w, p, i, takes, 0);
      if k.Some? then InSlot(k.value)
      else
        BagsQueue(w, p, i, p.slots);
        var c := FindMerging(w, p, Bags(w, p, i, p.slots), 0, floor, i, carries);
        if c.Some? then InBag(c.value) else NoPlace
  }

  /**
   What the player answers when there is no place.  The answer of the switch over the slots, not
   enough room, is overwritten by that of the equip event, which for an index that is no slot is
   that there is no objection; only what comes before can refuse.
   */
  ghost function WithoutPlace<R>(w: World<R>, i: R, carries: nat -> bool): ReturnValue
    requires i in w
  {
    if !w[i].typ.pickupable then CannotPickup
    else if !carries(w[i].count) then NotEnoughCapacity
    else NoError
  }

  /** `internalAddItem` as a test; only a container makes it look at the room the player has in all. */
  ghost predicate TestAccepts<R>(w: World<R>, p: Carrier<R>, i: R, takes: (nat, nat) -> bool, carries: nat -> bool, floor: nat)
    requires Forest(w) && Bounded(w, floor) && i in w
  {
    match MergingPlace(w, p, i, takes, carries, floor)
    case InSlot(_) => true
    case InBag(c) =>
      c in w && AddAnswer(w, c, i, 0, w[i].count, false, carries) == NoError
      && AllRoom(w, p, i, takes, carries, floor, |p.slots|) >= w[i].count
    case NoPlace => WithoutPlace(w, i, carries) == NoError
  }

  // ----- the move, for all that can happen -----

  /** A move is refused, goes to a slot, goes to a container, or takes pieces away and puts them nowhere. */
  datatype Outcome<R> = Fails(why: ReturnValue) | Dressed(k: nat) | Packed(plan: Plan<R>) | Vanish(amount: nat)

  /**
   `internalMoveItem` to the player.  Without a place the index stays that of nowhere in particular:
   if all checks succeed, the pieces leave `from`, and `addThing` of the player does nothing.
   */
  ghost function MoveOutcome<R>(w: World<R>, from: R, p: Carrier<R>, i: R, takes: (nat, nat) -> bool, carries: nat -> bool,
                                floor: nat, trade: Option<R>): Outcome<R>
    requires Forest(w) && Bounded(w, floor) && from in w && i in w
  {
    match UnmergedPlace(w, p, i, takes, carries, floor)
    case InSlot(k) => Dressed(k)
    case InBag(c) =>
      PlaceIff(w, p, i, takes, carries, floor);
      (match BagPlan(w, from, c, i, carries, trade)
       case Refused(why) => Fails(why)
       case other => Packed(other))
    case NoPlace =>
      var room := AllRoom(w, p, i, takes, carries, floor, |p.slots|);
      var amount := if w[i].typ.stackable && w[i].count < room then w[i].count else room;
      if WithoutPlace(w, i, carries) != NoError then Fails(WithoutPlace(w, i, carries))
      else if room < w[i].count && room == 0 then Fails(NotEnoughRoom)
      else if RemoveAnswer(w, from, i, amount, false) != NoError then Fails(RemoveAnswer(w, from, i, amount, false))
      else Vanish(amount)
  }

  /**
   What becomes of an item that is moved to a player in a trade, having passed what does not depend
   on room.  It arrives whole exactly if there is a place - an empty slot that takes it or a container
   that is searched with a free slot - and that is not inside the partner's offer.  Without a place
   the move is refused exactly if there is no room on stacks or in containers that are not searched;
   if there is, the pieces that would have found room there are gone.

   Containers have fewer than 254 entries, numbers from which on an index means something else.
   */
  lemma MoveOutcomeIff<R>(w: World<R>, from: R, p: Carrier<R>, i: R, takes: (nat, nat) -> bool, carries: nat -> bool,
                          floor: nat, trade: Option<R>)
    requires Forest(w) && Stacked(w) && Bounded(w, floor) && from in w && i in w
    requires i in w[from].items && w[i].typ.moveable && w[i].typ.pickupable && 1 <= w[i].count && carries(w[i].count)
    requires forall c :: c in w ==> |w[c].items| < MOVE_UP
    ensures var o := MoveOutcome(w, from, p, i, takes, carries, floor, trade);
            var r := UnmergedPlace(w, p, i, takes, carries, floor);
            var room := AllRoom(w, p, i, takes, carries, floor, |p.slots|);
            && (o.Dressed? <==> r.InSlot?)
            && (o.Packed? <==> r.InBag? && r.c in w && !Inside(w, r.c, trade))
            && (o.Packed? ==> o.plan.Go? && o.plan.c == r.c && o.plan.ret == NoError
                              && (w[i].typ.stackable ==> o.plan.amount == w[i].count))
            && (o.Fails? <==> (r.NoPlace? && room == 0) || (r.InBag? && r.c in w && Inside(w, r.c, trade)))
            && (o.Fails? ==> o.why == NotEnoughRoom)
            && (o.Vanish? <==> r.NoPlace? && room > 0)
            && (o.Vanish? && w[i].typ.stackable ==> o.amount == if w[i].count < room then w[i].count else room)
  {
    PlaceIff(w, p, i, takes, carries, floor);
    var r := UnmergedPlace(w, p, i, takes, carries, floor);
    if r.InBag? {
      BagTakesAll(w, from, r.c, i, carries, trade);
    }
  }

  // ----- what the test searches -----

  lemma {:induction false} ShownAt<R>(p: Carrier<R>, i: R, s: seq<R>, x: R)
    ensures x in Shown(p, i, s) <==> x in s && x != i && p.offer != Some(x)
  {
    if s != [] {
      ShownAt(p, i, s[1..], x);
    }
  }

  /** A way from `c` up through containers, none of which but the last is the item itself or the one on offer. */
  ghost predicate Climbs<R>(w: World<R>, p: Carrier<R>, i: R, older path: seq<R>, c: R) {
    && path != [] && Leads(w, path, c, path[|path|-1])
    && (forall k :: 0 <= k < |path| ==> w[path[k]].box)
    && (forall k :: 0 <= k < |path| - 1 ==> path[k] != i && p.offer != Some(path[k]))
  }

  /** The containers the test comes to, starting with those of `q`, if it does not end before. */
  ghost predicate TestSearched<R>(w: World<R>, p: Carrier<R>, i: R, q: seq<R>, c: R) {
    exists path :: Climbs(w, p, i, path, c) && path[|path|-1] in q
  }

  lemma NextOnes<R>(w: World<R>, p: Carrier<R>, i: R, q: seq<R>, next: seq<R>, x: R)
    requires Forest(w) && next == Shown(p, i, Boxes(w, Entries(w, q)))
    ensures x in next <==> x in w && w[x].box && w[x].parent.In? && w[x].parent.c in q && x != i && p.offer != Some(x)
  {
    ShownAt(p, i, Boxes(w, Entries(w, q)), x);
    BoxesAt(w, Entries(w, q), x);
    EntriesAt(w, q, x);
  }

  lemma ClimbedThrough<R>(w: World<R>, p: Carrier<R>, i: R, q: seq<R>, next: seq<R>, c: R, path: seq<R>)
    requires Forest(w) && next == Shown(p, i, Boxes(w, Entries(w, q)))
    requires Climbs(w, p, i, path, c) && path[|path|-1] in q && |path| > 1
    ensures TestSearched(w, p, i, next, c)
  {
    var x, up := path[|path|-2], path[..|path|-1];
    NextOnes(w, p, i, q, next, x);
    assert Climbs(w, p, i, up, c) && up[|up|-1] == x;
  }

  lemma ClimbedFurther<R>(w: World<R>, p: Carrier<R>, i: R, q: seq<R>, next: seq<R>, c: R, path: seq<R>)
    requires Forest(w) && next == Shown(p, i, Boxes(w, Entries(w, q))) && forall b :: b in q ==> b in w && w[b].box
    requires Climbs(w, p, i, path, c) && path[|path|-1] in next
    ensures TestSearched(w, p, i, q, c)
  {
    var x := path[|path|-1];
    NextOnes(w, p, i, q, next, x);
    var up := path + [w[x].parent.c];
    assert forall k :: 0 <= k < |path| - 1 ==> w[up[k]].parent == In(up[k+1]);
    assert Climbs(w, p, i, up, c) && up[|up|-1] in q;
  }

  lemma TestSearchedNext<R>(w: World<R>, p: Carrier<R>, i: R, q: seq<R>, next: seq<R>, c: R)
    requires Forest(w) && (forall b :: b in q ==> b in w && w[b].box) && next == Shown(p, i, Boxes(w, Entries(w, q)))
    ensures TestSearched(w, p, i, q, c) <==> c in q || TestSearched(w, p, i, next, c)
  {
    if path :| Climbs(w, p, i, path, c) && path[|path|-1] in q {
      if |path| > 1 {
        ClimbedThrough(w, p, i, q, next, c, path);
      }
    }
    if c in q {
      assert Climbs(w, p, i, [c], c);
    }
    if path :| Climbs(w, p, i, path, c) && path[|path|-1] in next {
      ClimbedFurther(w, p, i, q, next, c, path);
    }
  }

  lemma {:induction false} FirstMergingIs<R>(w: World<R>, p: Carrier<R>, q: seq<R>, i: R, carries: nat -> bool)
    requires Forest(w) && i in w
    ensures var r := FirstMerging(w, p, q, i, carries);
            && (r.Some? ==> r.value in q && MergesOrHasPlace(w, p, r.value, i, carries))
            && (r.None? ==> forall c :: c in q ==> !MergesOrHasPlace(w, p, c, i, carries))
  {
    if q != [] {
      FirstMergingIs(w, p, q[1..], i, carries);
    }
  }

  /** If it finds nothing in the queue, the search goes on in the containers inside. */
  lemma NextMerging<R>(w: World<R>, p: Carrier<R>, q: seq<R>, n: nat, floor: nat, i: R, carries: nat -> bool, next: seq<R>)
    requires Forest(w) && Bounded(w, floor) && Queue(w, q, n) && i in w && next == Shown(p, i, Boxes(w, Entries(w, q)))
    requires q != [] && FirstMerging(w, p, q, i, carries).None?
    ensures n < floor + 1 && Queue(w, next, n + 1) && (forall c :: c in next ==> w[c].box)
    ensures FindMerging(w, p, q, n, floor, i, carries) == FindMerging(w, p, next, n + 1, floor, i, carries)
  {
    InnerQueue(w, q, n);
    ShownQueue(w, p, i, Boxes(w, Entries(w, q)), n + 1);
    assert q[0] in q;
    forall c | c in next
      ensures w[c].box
    {
      ShownAt(p, i, Boxes(w, Entries(w, q)), c);
      BoxesAt(w, Entries(w, q), c);
    }
  }

  /** What the search is to find: a container it comes to at which it ends, or that there is none. */
  ghost predicate FindsRight<R>(w: World<R>, p: Carrier<R>, q: seq<R>, i: R, carries: nat -> bool, r: Option<R>)
    requires Forest(w) && i in w
  {
    && (r.Some? ==> TestSearched(w, p, i, q, r.value) && MergesOrHasPlace(w, p, r.value, i, carries))
    && (r.None? ==> forall c :: c in w && TestSearched(w, p, i, q, c) ==> !MergesOrHasPlace(w, p, c, i, carries))
  }

  lemma FindsInQueue<R>(w: World<R>, p: Carrier<R>, q: seq<R>, i: R, carries: nat -> bool, next: seq<R>, r: Option<R>)
    requires Forest(w) && i in w && (forall b :: b in q ==> b in w && w[b].box) && next == Shown(p, i, Boxes(w, Entries(w, q)))
    requires if q == [] || FirstMerging(w, p, q, i, carries).Some? then r == FirstMerging(w, p, q, i, carries)
             else FindsRight(w, p, next, i, carries, r)
    ensures FindsRight(w, p, q, i, carries, r)
  {
    FirstMergingIs(w, p, q, i, carries);
    forall c
      ensures q != [] ==> (TestSearched(w, p, i, q, c) <==> c in q || TestSearched(w, p, i, next, c))
    {
      if q != [] {
        TestSearchedNext(w, p, i, q, next, c);
      }
    }
  }

  /** The search of the test finds a container if there is any to merge into, or with a place, among those it comes to. */
  lemma {:induction false} FindMergingIff<R>(w: World<R>, p: Carrier<R>, q: seq<R>, n: nat, floor: nat, i: R, carries: nat -> bool)
    requires Forest(w) && Bounded(w, floor) && Queue(w, q, n) && i in w && forall c :: c in q ==> w[c].box
    ensures FindsRight(w, p, q, i, carries, FindMerging(w, p, q, n, floor, i, carries))
    decreases floor + 1 - n
  {
    var next := Shown(p, i, Boxes(w, Entries(w, q)));
    if q != [] && FirstMerging(w, p, q, i, carries).None? {
      NextMerging(w, p, q, n, floor, i, carries, next);
      FindMergingIff(w, p, next, n + 1, floor, i, carries);
    }
    FindsInQueue(w, p, q, i, carries, next, FindMerging(w, p, q, n, floor, i, carries));
  }

  /** A container the test ends at: a stack in it has space, or it accepts the item and has more slots than entries it looks at. */
  lemma MergesIs<R>(w: World<R>, p: Carrier<R>, c: R, i: R, carries: nat -> bool)
    requires Forest(w) && i in w && c in w && w[i].typ.stackable
    ensures MergesOrHasPlace(w, p, c, i, carries) <==>
            || (exists x :: x in w[c].items && x != i && p.offer != Some(x) && Space(w, x, i) > 0)
            || (|Shown(p, i, w[c].items)| < w[c].cap && AddAnswer(w, c, i, 0, w[i].count, false, carries) == NoError)
  {
    forall x | x in w[c].items
      ensures Onto(w, p, i, x) <==> x != i && p.offer != Some(x) && Space(w, x, i) > 0
    {
      SlackAt(w, x, i);
    }
  }

  lemma {:induction false} MergingSlotIs<R>(w: World<R>, p: Carrier<R>, i: R, takes: (nat, nat) -> bool, k: nat)
    requires i in w && k <= |p.slots| && w[i].typ.stackable
    ensures var r := MergingSlot(w, p, i, takes, k);
            && (r.Some? ==> k <= r.value < |p.slots| && TakesThere(w, p, i, takes, r.value))
            && (r.None? ==> forall j :: k <= j < |p.slots| ==> !TakesThere(w, p, i, takes, j))
    decreases |p.slots| - k
  {
    if k < |p.slots| {
      if p.slots[k].Some? {
        SlackAt(w, p.slots[k].value, i);
      }
      MergingSlotIs(w, p, i, takes, k + 1);
    }
  }

  /** A slot that takes the pieces, and is empty or has a stack with space for them. */
  predicate TakesThere<R(==)>(w: World<R>, p: Carrier<R>, i: R, takes: (nat, nat) -> bool, k: nat)
    requires i in w && k < |p.slots|
  {
    takes(k, w[i].count) && (p.slots[k].None? || (p.slots[k].value != i && p.offer != p.slots[k] && Space(w, p.slots[k].value, i) > 0))
  }

  /**
   The test of a stack: accepted if a slot takes it; otherwise, if the search comes to a container, that
   one must accept it and the player have room for all of it; and if it comes to none, the player must
   be able to carry it, whether there is room or not.
   */
  lemma TestIff<R>(w: World<R>, p: Carrier<R>, i: R, takes: (nat, nat) -> bool, carries: nat -> bool, floor: nat)
    requires Forest(w) && Bounded(w, floor) && i in w && w[i].typ.stackable
    ensures var slot := exists k :: 0 <= k < |p.slots| && TakesThere(w, p, i, takes, k);
            var bag := exists c :: TestSearched(w, p, i, Bags(w, p, i, p.slots), c) && MergesOrHasPlace(w, p, c, i, carries);
            && (slot ==> TestAccepts(w, p, i, takes, carries, floor))
            && (!slot && bag ==> MergingPlace(w, p, i, takes, carries, floor).InBag?)
            && (!slot && bag ==>
                  var c := MergingPlace(w, p, i, takes, carries, floor).c;
                  && TestSearched(w, p, i, Bags(w, p, i, p.slots), c) && MergesOrHasPlace(w, p, c, i, carries)
                  && (TestAccepts(w, p, i, takes, carries, floor) <==>
                      AddAnswer(w, c, i, 0, w[i].count, false, carries) == NoError
                      && w[i].count <= AllRoom(w, p, i, takes, carries, floor, |p.slots|)))
            && (!slot && !bag ==> (TestAccepts(w, p, i, takes, carries, floor) <==> w[i].typ.pickupable && carries(w[i].count)))
  {
    MergingSlotIs(w, p, i, takes, 0);
    BagsQueue(w, p, i, p.slots);
    FindMergingIff(w, p, Bags(w, p, i, p.slots), 0, floor, i, carries);
  }

  /** The test of a thing that does not stack looks for the same places as the move. */
  lemma TestOfOthers<R>(w: World<R>, p: Carrier<R>, i: R, takes: (nat, nat) -> bool, carries: nat -> bool, floor: nat)
    requires Forest(w) && Bounded(w, floor) && i in w && !w[i].typ.stackable
    ensures var r := UnmergedPlace(w, p, i, takes, carries, floor);
            && (r.InSlot? ==> TestAccepts(w, p, i, takes, carries, floor))
            && (r.NoPlace? ==> (TestAccepts(w, p, i, takes, carries, floor) <==> w[i].typ.pickupable && carries(w[i].count)))
            && (r.InBag? ==> (TestAccepts(w, p, i, takes, carries, floor) <==>
                              r.c in w && AddAnswer(w, r.c, i, 0, w[i].count, false, carries) == NoError
                              && w[i].count <= AllRoom(w, p, i, takes, carries, floor, |p.slots|)))
  {
  }

  // ----- the room a player has in all -----

  /** The room of a container for a stack: that of its slots and, if it accepts the item, of its stacks. */
  lemma RoomOfOne<R>(w: World<R>, c: R, i: R, carries: nat -> bool)
    requires Forest(w) && i in w && c in w && w[c].box
    ensures RoomIn(w, [c], i, carries) ==
            var free := if w[c].cap > |w[c].items| then w[c].cap - |w[c].items| else 0;
            if !w[i].typ.stackable then free
            else if AddAnswer(w, c, i, 0, w[i].count, false, carries) == NoError then RoomAt(w, c, i, -1) else 100 * free
  {
    assert [c][1..] == [];
    assert RoomIn(w, [c], i, carries) == MaxCountAnswer(w, c, i, WHEREEVER, w[i].count, false, carries).1 + RoomIn(w, [], i, carries);
    if w[i].typ.stackable && AddAnswer(w, c, i, 0, w[i].count, false, carries) == NoError {
      MaxCountIsRoom(w, c, i, WHEREEVER, w[i].count, carries);
    }
  }

  /** Rooms add up; things that are no containers have none. */
  lemma {:induction false} RoomAddsUp<R>(w: World<R>, s: seq<R>, t: seq<R>, i: R, carries: nat -> bool)
    requires Forest(w) && i in w
    ensures RoomIn(w, s + t, i, carries) == RoomIn(w, s, i, carries) + RoomIn(w, t, i, carries)
    ensures (forall x :: x in s ==> x in w && !w[x].box) ==> RoomIn(w, s, i, carries) == 0
    decreases |s|
  {
    if s == [] {
      assert s + t == t;
    } else {
      assert (s + t)[1..] == s[1..] + t;
      RoomAddsUp(w, s[1..], t, i, carries);
    }
  }

  /** The room of a slot: a hundred pieces, or one thing, in an empty one; on a stack what it has space for; in a container what it and everything inside has. */
  lemma SlotRoomIs<R>(w: World<R>, p: Carrier<R>, i: R, takes: (nat, nat) -> bool, carries: nat -> bool, floor: nat, k: nat)
    requires Forest(w) && Bounded(w, floor) && i in w && k < |p.slots|
    ensures var room := SlotRoom(w, p, i, takes, carries, floor, k);
            && (p.slots[k].None? ==> room == if !takes(k, w[i].count) then 0 else if w[i].typ.stackable then 100 else 1)
            && (p.slots[k].Some? && p.slots[k].value in w ==>
                  var x := p.slots[k].value;
                  && (w[x].box ==> room == RoomIn(w, [x], i, carries) + RoomIn(w, LevelOrder(w, [x], w[x].depth, floor), i, carries))
                  && (!w[x].box && x != i ==>
                        room == if w[x].typ.stackable && Space(w, x, i) > 0 && takes(k, Space(w, x, i)) then Space(w, x, i) else 0))
  {
    if p.slots[k].Some? && p.slots[k].value in w {
      var x := p.slots[k].value;
      if w[x].box {
        RoomAddsUp(w, [x], LevelOrder(w, [x], w[x].depth, floor), i, carries);
      } else {
        SlackAt(w, x, i);
      }
    }
  }

  /** The room in all is that of all slots: that of each is a part of it, and if there is any, a slot has some. */
  lemma {:induction false} AllRoomIs<R>(w: World<R>, p: Carrier<R>, i: R, takes: (nat, nat) -> bool, carries: nat -> bool, floor: nat,
                                        k: nat, j: nat)
    requires Forest(w) && Bounded(w, floor) && i in w && j < k <= |p.slots|
    ensures SlotRoom(w, p, i, takes, carries, floor, j) <= AllRoom(w, p, i, takes, carries, floor, k)
    decreases k
  {
    if j < k - 1 {
      AllRoomIs(w, p, i, takes, carries, floor, k - 1, j);
    }
  }

  lemma {:induction false} SomeSlotHasRoom<R>(w: World<R>, p: Carrier<R>, i: R, takes: (nat, nat) -> bool, carries: nat -> bool,
                                              floor: nat, k: nat) returns (j: nat)
    requires Forest(w) && Bounded(w, floor) && i in w && k <= |p.slots| && AllRoom(w, p, i, takes, carries, floor, k) > 0
    ensures j < k && SlotRoom(w, p, i, takes, carries, floor, j) > 0
    decreases k
  {
    j := k - 1;
    if SlotRoom(w, p, i, takes, carries, floor, j) == 0 {
      j := SomeSlotHasRoom(w, p, i, takes, carries, floor, k - 1);
    }
  }

  // ----- after a test that has succeeded -----

  /** Item 1, five coins in container 0, and container 2, the backpack of a player, with a single slot and `coins` coins in it. */
  function Purses(coins: nat): World<nat> {
    map[0 := View(SomeBag(), 1, NoAttrs, Outside, true, 20, true, [1], 0),
        1 := View(SomeCoin(), 5, NoAttrs, In(0), false, 0, true, [], 1),
        2 := View(SomeBag(), 1, NoAttrs, Outside, true, 1, true, [3], 0),
        3 := View(SomeCoin(), coins, NoAttrs, In(2), false, 0, true, [], 1)]
  }

  function SomeBag(): ItemType {
    ItemType(1988, false, true, true, 1800, 0, false, -1)
  }

  const NO_SLOT: (nat, nat) -> bool := (k, n) => false

  /** The player's only container is `b`, which is full with the stack `s`; the stack `i` is of the same kind. */
  ghost predicate OnePurse<R>(w: World<R>, p: Carrier<R>, i: R, b: R, s: R) {
    && p.slots == [None, Some(b)] && p.offer == None
    && i in w && b in w && s in w && i != b && i != s
    && w[b].box && w[b].unlocked && w[b].items == [s] && w[b].cap == 1
    && !w[s].box && 1 <= w[s].count <= MAX_STACK && Similar(w[s], w[i])
    && !w[i].box && w[i].typ.stackable && w[i].typ.pickupable && w[i].count <= MAX_STACK
  }

  lemma OneBag<R>(w: World<R>, p: Carrier<R>, i: R, b: R, s: R)
    requires OnePurse(w, p, i, b, s)
    ensures Bags(w, p, i, p.slots) == [b]
  {
    assert p.slots[1..] == [Some(b)] && p.slots[1..][1..] == [];
    assert Bags(w, p, i, p.slots[1..]) == [b] + Bags(w, p, i, []);
  }

  lemma NothingBelow<R>(w: World<R>, x: R, c: R)
    requires Forest(w) && x in w && c in w && !w[x].box && Under(w, c, x)
    ensures c == x
  {
    assert Holds(w, x);
    forall e | e in w
      ensures w[e].parent != In(x)
    {
      assert Linked(w, e);
    }
    if c != x {
      var e := EntryOnTheWay(w, c, x);
    }
  }

  lemma OneSearched<R>(w: World<R>, p: Carrier<R>, i: R, b: R, s: R, c: R)
    requires Forest(w) && OnePurse(w, p, i, b, s) && Searched(w, [b], c)
    ensures c == b
  {
    if c != b {
      var e := EntryOnTheWay(w, c, b);
      assert Linked(w, e);
      NothingBelow(w, s, c);
    }
  }

  lemma NoPlaceForIt<R>(w: World<R>, p: Carrier<R>, i: R, b: R, s: R, floor: nat)
    requires Forest(w) && Bounded(w, floor) && OnePurse(w, p, i, b, s)
    ensures UnmergedPlace(w, p, i, NO_SLOT, ANYONE, floor).NoPlace?
  {
    OneBag(w, p, i, b, s);
    PlaceIff(w, p, i, NO_SLOT, ANYONE, floor);
    forall c | Searched(w, [b], c)
      ensures !HasPlace(w, c, i, ANYONE)
    {
      OneSearched(w, p, i, b, s, c);
    }
  }

  lemma OneEntry<R>(w: World<R>, p: Carrier<R>, i: R, b: R, s: R)
    requires OnePurse(w, p, i, b, s)
    ensures Entries(w, [b]) == [s] && FullBoxes(w, [s]) == [] && Boxes(w, [s]) == []
  {
    assert [b][1..] == [] && [s][1..] == [];
    assert Entries(w, [b]) == [s] + Entries(w, []);
  }

  lemma OneLevel<R>(w: World<R>, p: Carrier<R>, i: R, b: R, s: R, n: nat, floor: nat)
    requires Forest(w) && Bounded(w, floor) && Queue(w, [b], n) && OnePurse(w, p, i, b, s)
    ensures LevelOrder(w, [b], n, floor) == [s]
  {
    OneEntry(w, p, i, b, s);
    var later := LevelOrderNext(w, [b], n, floor);
  }

  lemma Addable<R>(w: World<R>, p: Carrier<R>, i: R, b: R, s: R, index: nat, count: nat)
    requires Forest(w) && OnePurse(w, p, i, b, s)
    ensures AddAnswer(w, b, i, index, count, false, ANYONE) == NoError
  {
    if Under(w, b, i) {
      NothingBelow(w, i, b);
    }
  }

  lemma RoomOnStack<R>(w: World<R>, p: Carrier<R>, i: R, b: R, s: R)
    requires Forest(w) && OnePurse(w, p, i, b, s)
    ensures RoomIn(w, [b] + [s], i, ANYONE) == MAX_STACK - w[s].count
  {
    Addable(w, p, i, b, s, 0, w[i].count);
    assert [s][1..] == [] && ([b] + [s])[1..] == [s];
    assert Slack(w, [s], i) == MAX_STACK - w[s].count + Slack(w, [], i);
    assert RoomIn(w, [s], i, ANYONE) == 0 + RoomIn(w, [], i, ANYONE);
  }

  lemma RoomInAll<R>(w: World<R>, p: Carrier<R>, i: R, b: R, s: R, floor: nat)
    requires Forest(w) && Bounded(w, floor) && OnePurse(w, p, i, b, s)
    ensures AllRoom(w, p, i, NO_SLOT, ANYONE, floor, |p.slots|) == MAX_STACK - w[s].count
  {
    OneLevel(w, p, i, b, s, w[b].depth, floor);
    RoomOnStack(w, p, i, b, s);
    assert SlotRoom(w, p, i, NO_SLOT, ANYONE, floor, 0) == 0;
    assert SlotRoom(w, p, i, NO_SLOT, ANYONE, floor, 1) == MAX_STACK - w[s].count;
    assert AllRoom(w, p, i, NO_SLOT, ANYONE, floor, 0) == 0;
    assert AllRoom(w, p, i, NO_SLOT, ANYONE, floor, 1) == 0;
  }

  lemma NotMerged<R>(w: World<R>, p: Carrier<R>, i: R, b: R, s: R)
    requires Forest(w) && OnePurse(w, p, i, b, s)
    ensures MergesOrHasPlace(w, p, b, i, ANYONE) <==> w[s].count < MAX_STACK
  {
    assert [s][1..] == [] && s in w[b].items;
    assert Shown(p, i, [s]) == [s] + Shown(p, i, []);
    assert Onto(w, p, i, s) <==> w[s].count < MAX_STACK;
  }

  lemma MergedSearch<R>(w: World<R>, p: Carrier<R>, i: R, b: R, s: R, n: nat, floor: nat)
    requires Forest(w) && Bounded(w, floor) && Queue(w, [b], n) && OnePurse(w, p, i, b, s)
    ensures FindMerging(w, p, [b], n, floor, i, ANYONE) == if w[s].count < MAX_STACK then Some(b) else None
  {
    NotMerged(w, p, i, b, s);
    OneEntry(w, p, i, b, s);
    var q, later := [b], Boxes(w, Entries(w, [b]));
    assert q[0] == b && q[1..] == [];
    assert FirstMerging(w, p, q, i, ANYONE) == if w[s].count < MAX_STACK then Some(b) else None;
    if w[s].count == MAX_STACK {
      InnerQueue(w, q, n);
      ShownQueue(w, p, i, later, n + 1);
      assert q[0] in q;
      assert Shown(p, i, later) == [];
      assert FindMerging(w, p, [], n + 1, floor, i, ANYONE) == None;
    }
  }

  lemma TestSucceeds<R>(w: World<R>, p: Carrier<R>, i: R, b: R, s: R, floor: nat)
    requires Forest(w) && Bounded(w, floor) && OnePurse(w, p, i, b, s)
    requires w[s].count == MAX_STACK || w[i].count <= MAX_STACK - w[s].count
    ensures TestAccepts(w, p, i, NO_SLOT, ANYONE, floor)
  {
    OneBag(w, p, i, b, s);
    BagsQueue(w, p, i, p.slots);
    MergedSearch(w, p, i, b, s, 0, floor);
    Addable(w, p, i, b, s, 0, w[i].count);
    RoomInAll(w, p, i, b, s, floor);
    assert MergingSlot(w, p, i, NO_SLOT, 2).None?;
    assert MergingSlot(w, p, i, NO_SLOT, 1).None?;
    var r := MergingPlace(w, p, i, NO_SLOT, ANYONE, floor);
    assert r == if w[s].count < MAX_STACK then InBag(b) else NoPlace;
  }

  lemma PurseAt(w: World<nat>, coins: nat, x: nat)
    requires 1 <= coins <= MAX_STACK && w == Purses(coins) && x in w
    ensures Linked(w, x) && Holds(w, x) && |w[x].items| <= w[x].cap < 0x1_0000 && w[x].depth <= 1
    ensures w[x].typ.stackable ==> !w[x].box && 1 <= w[x].count <= MAX_STACK
  {
    assert x == 0 || x == 1 || x == 2 || x == 3;
    assert w[0].items == [1] && w[2].items == [3];
  }

  lemma PursesAreFine(w: World<nat>, p: Carrier<nat>, coins: nat)
    requires 1 <= coins <= MAX_STACK && w == Purses(coins) && p == Carrier([None, Some(2)], None)
    ensures Forest(w) && Stacked(w) && Roomy(w) && Bounded(w, 1) && OnePurse(w, p, 1, 2, 3)
    ensures 0 in w && 1 in w[0].items && w[1].typ.moveable && w[1].count == 5 && w[3].count == coins
    ensures forall c :: c in w ==> |w[c].items| < MOVE_UP
  {
    forall x | x in w
      ensures Linked(w, x) && Holds(w, x) && |w[x].items| <= w[x].cap < 0x1_0000 && w[x].depth <= 1
      ensures w[x].typ.stackable ==> !w[x].box && 1 <= w[x].count <= MAX_STACK
    {
      PurseAt(w, coins, x);
    }
  }

  /**
   The player's only container has a single slot, with a stack of 95 coins in it, and the empty slot
   of the player takes no coins.  Five more could be merged, so the test succeeds.  The move does not
   merge: the five coins leave their container and arrive nowhere.
   */
  lemma TestedMoveCanVanish(w: World<nat>, p: Carrier<nat>)
    requires w == Purses(95) && p == Carrier([None, Some(2)], None)
    ensures Forest(w) && Stacked(w) && Roomy(w) && Bounded(w, 1)
    ensures 0 in w && 1 in w && TestAccepts(w, p, 1, NO_SLOT, ANYONE, 1)
    ensures MoveOutcome(w, 0, p, 1, NO_SLOT, ANYONE, 1, None) == Vanish(5)
  {
    PursesAreFine(w, p, 95);
    TestSucceeds(w, p, 1, 2, 3, 1);
    NoPlaceForIt(w, p, 1, 2, 3, 1);
    RoomInAll(w, p, 1, 2, 3, 1);
    MoveOutcomeIff(w, 0, p, 1, NO_SLOT, ANYONE, 1, None);
  }

  /** With 100 coins there is no room at all.  The test succeeds even so, and the move is refused. */
  lemma TestedMoveCanFail(w: World<nat>, p: Carrier<nat>)
    requires w == Purses(100) && p == Carrier([None, Some(2)], None)
    ensures Forest(w) && Stacked(w) && Roomy(w) && Bounded(w, 1)
    ensures 0 in w && 1 in w && TestAccepts(w, p, 1, NO_SLOT, ANYONE, 1)
    ensures MoveOutcome(w, 0, p, 1, NO_SLOT, ANYONE, 1, None) == Fails(NotEnoughRoom)
  {
    PursesAreFine(w, p, 100);
    TestSucceeds(w, p, 1, 2, 3, 1);
    NoPlaceForIt(w, p, 1, 2, 3, 1);
    RoomInAll(w, p, 1, 2, 3, 1);
    MoveOutcomeIff(w, 0, p, 1, NO_SLOT, ANYONE, 1, None);
  }
}
