/**
 Adding an item "wherever" to a container, seen as a list of stacks: what is merged, what goes
 to the front, what is refused, and what is lost on the way.
 */
module Adding {
  import opened ItemTree
  import opened Weights
  import opened Queries
  import opened Census
  import opened Moves
  import opened Seals

  datatype Slot = Slot(typ: ItemType, attrs: Attrs, count: nat)

  function SlotOf<R>(v: View<R>): Slot {
    Slot(v.typ, v.attrs, v.count)
  }

  /** The list of stacks of a list of entries. */
  ghost function ShelfOf<R>(w: World<R>, s: seq<R>): seq<Slot>
    requires forall x :: x in s ==> x in w
  {
    if s == [] then [] else [SlotOf(w[s[0]])] + ShelfOf(w, s[1..])
  }

  predicate Fits(a: Slot, s: Slot) {
    a.typ == s.typ && a.attrs == s.attrs && !Custom(a.attrs) && a.count < MAX_STACK
  }

  /** The first stack that `s` can be merged into. */
  function FirstFit(shelf: seq<Slot>, s: Slot): (r: Option<nat>)
    ensures r.Some? ==> r.value < |shelf| && Fits(shelf[r.value], s) && forall j :: 0 <= j < r.value ==> !Fits(shelf[j], s)
    ensures r.None? ==> forall j :: 0 <= j < |shelf| ==> !Fits(shelf[j], s)
  {
    if shelf == [] then None
    else if Fits(shelf[0], s) then Some(0)
    else
      var r := FirstFit(shelf[1..], s);
      if r.Some? then Some(r.value + 1) else None
  }

  /** The free space in stacks of the kind of `s`. */
  function Room(shelf: seq<Slot>, s: Slot): nat {
    if shelf == [] then 0
    else (if Fits(shelf[0], s) then MAX_STACK - shelf[0].count else 0) + Room(shelf[1..], s)
  }

  function Free(shelf: seq<Slot>, cap: nat): nat {
    if cap > |shelf| then cap - |shelf| else 0
  }

  predicate Full(shelf: seq<Slot>, cap: nat) {
    |shelf| >= Wrap(cap - 1)
  }

  /** `lost` pieces are nowhere afterwards; `reported` is what the caller is told about them. */
  datatype AddResult = AddResult(ret: ReturnValue, shelf: seq<Slot>, lost: nat, reported: nat)

  function RemainderOf(s: Slot, count: nat): Slot {
    Slot(s.typ, ClonedAttrs(s.typ, s.attrs), count % 256)
  }

  /** What becomes of `r`, the outcome of adding a remainder of `rest` pieces to `merged`. */
  function Passed(r: AddResult, merged: seq<Slot>, rest: nat): AddResult {
    if r.ret != NoError then AddResult(NoError, merged, rest, rest) else r.(reported := 0)
  }

  /**
   `internalAddItem` for the index "wherever".  The remainder of a merge is added by another call.
   If that fails the pieces of the remainder are gone, and their number is reported through the
   out-parameter `remainderCount`; the out-parameter of the other call is not passed on.
   */
  function AddTo(shelf: seq<Slot>, cap: nat, s: Slot): AddResult
    decreases s.count, 1
  {
    var k := if s.typ.stackable then FirstFit(shelf, s) else None;
    if k.None? && Full(shelf, cap) then AddResult(ContainerNotEnoughRoom, shelf, 0, 0)
    else if s.typ.stackable && Free(shelf, cap) * MAX_STACK + Room(shelf, s) < s.count then
      AddResult(ContainerNotEnoughRoom, shelf, 0, 0)
    else if !s.typ.stackable && Free(shelf, cap) == 0 then AddResult(ContainerNotEnoughRoom, shelf, 0, 0)
    else if k.None? then AddResult(NoError, [s] + shelf, 0, 0)
    else
      var o := shelf[k.value];
      var n := if MAX_STACK - o.count < s.count then MAX_STACK - o.count else s.count;
      AddOntoSlot(shelf[k.value := Slot(o.typ, Restamp(o.typ, o.typ, o.attrs), (o.count + n) % 256)], cap, s, n)
  }

  /** What follows a merge of `n` pieces that has left the shelf as it is given. */
  function AddOntoSlot(merged: seq<Slot>, cap: nat, s: Slot, n: nat): AddResult
    requires n == s.count || 1 <= n < s.count
    decreases s.count, 0
  {
    if n == s.count then AddResult(NoError, merged, 0, 0)
    else Passed(AddTo(merged, cap, RemainderOf(s, s.count - n)), merged, s.count - n)
  }

  lemma AddToOnto(shelf: seq<Slot>, cap: nat, s: Slot, k: nat)
    requires s.typ.stackable && FirstFit(shelf, s) == Some(k) && k < |shelf| && 1 <= s.count
    requires AddTo(shelf, cap, s).ret == NoError && shelf[k].count < MAX_STACK
    ensures var o := shelf[k];
            var n := if MAX_STACK - o.count < s.count then MAX_STACK - o.count else s.count;
            AddTo(shelf, cap, s) ==
            AddOntoSlot(shelf[k := Slot(o.typ, Restamp(o.typ, o.typ, o.attrs), (o.count + n) % 256)], cap, s, n)
  {
  }

  // ----- when it succeeds and when it loses something -----

  lemma {:induction false} NoFitNoRoom(shelf: seq<Slot>, s: Slot)
    ensures FirstFit(shelf, s).None? <==> Room(shelf, s) == 0
  {
    if shelf != [] {
      NoFitNoRoom(shelf[1..], s);
    }
  }

  lemma {:induction false} RoomAfterFilling(shelf: seq<Slot>, s: Slot, k: nat, full: Slot)
    requires k < |shelf| && Fits(shelf[k], s) && full.count == MAX_STACK
    ensures Room(shelf[k := full], s) + (MAX_STACK - shelf[k].count) == Room(shelf, s)
  {
    if k > 0 {
      RoomAfterFilling(shelf[1..], s, k - 1, full);
      assert shelf[k := full][1..] == shelf[1..][k - 1 := full];
    } else {
      assert shelf[0 := full][1..] == shelf[1..];
    }
  }

  /** Adding depends on the kind of the stack and its size only through `Room`. */
  ghost predicate Enough(shelf: seq<Slot>, cap: nat, s: Slot) {
    Free(shelf, cap) * MAX_STACK + Room(shelf, s) >= s.count && (Room(shelf, s) > 0 || !Full(shelf, cap))
  }

  ghost predicate Trapped(shelf: seq<Slot>, cap: nat, s: Slot) {
    0 < Room(shelf, s) < s.count && Full(shelf, cap)
  }

  /**
   For a stack whose copies are like itself, the outcome of the whole recursion in closed form:
   the add is accepted iff there is enough room, and an accepted add loses pieces iff the partial
   stacks take some but not all of it while the container counts as full; then exactly the pieces
   that the partial stacks did not take are lost.
   */
  lemma {:induction false} AddOutcome(shelf: seq<Slot>, cap: nat, s: Slot)
    requires s.typ.stackable && 1 <= s.count <= MAX_STACK && ClonedAttrs(s.typ, s.attrs) == s.attrs
    ensures var r := AddTo(shelf, cap, s);
            && (r.ret == NoError <==> Enough(shelf, cap, s))
            && (r.ret != NoError ==> r.ret == ContainerNotEnoughRoom && r.shelf == shelf)
            && (r.lost > 0 <==> Enough(shelf, cap, s) && Trapped(shelf, cap, s))
            && (r.lost > 0 ==> r.lost == s.count - Room(shelf, s))
    decreases s.count
  {
    NoFitNoRoom(shelf, s);
    var k := FirstFit(shelf, s);
    if Free(shelf, cap) * MAX_STACK + Room(shelf, s) >= s.count && k.Some? {
      if MAX_STACK - shelf[k.value].count < s.count {
        var merged, rest := Filled(shelf, k.value), RemainderOf(s, s.count - (MAX_STACK - shelf[k.value].count));
        FillStep(shelf, cap, s);
        AddOutcome(merged, cap, rest);
      } else {
        RoomAtLeast(shelf, s, k.value);
      }
    }
  }

  /** The stack at `k` filled up. */
  function Filled(shelf: seq<Slot>, k: nat): seq<Slot>
    requires k < |shelf|
  {
    var o := shelf[k];
    shelf[k := Slot(o.typ, Restamp(o.typ, o.typ, o.attrs), MAX_STACK)]
  }

  /** One level of the recursion: a stack is filled up and the rest is added to what results. */
  lemma FillStep(shelf: seq<Slot>, cap: nat, s: Slot)
    requires s.typ.stackable && 1 <= s.count <= MAX_STACK && ClonedAttrs(s.typ, s.attrs) == s.attrs
    requires FirstFit(shelf, s).Some? && MAX_STACK - shelf[FirstFit(shelf, s).value].count < s.count
    requires Free(shelf, cap) * MAX_STACK + Room(shelf, s) >= s.count
    ensures var k := FirstFit(shelf, s).value;
            var merged, rest := Filled(shelf, k), RemainderOf(s, s.count - (MAX_STACK - shelf[k].count));
            var r := AddTo(merged, cap, rest);
            && rest.count == s.count - (MAX_STACK - shelf[k].count) && rest.typ == s.typ && rest.attrs == s.attrs
            && Room(merged, rest) + (MAX_STACK - shelf[k].count) == Room(shelf, s)
            && Free(merged, cap) == Free(shelf, cap) && Full(merged, cap) == Full(shelf, cap)
            && AddTo(shelf, cap, s) == Passed(r, merged, rest.count)
  {
    var k := FirstFit(shelf, s).value;
    RoomAfterFilling(shelf, s, k, Filled(shelf, k)[k]);
    RoomSame(Filled(shelf, k), s, RemainderOf(s, s.count - (MAX_STACK - shelf[k].count)));
  }

  lemma {:induction false} RoomSame(shelf: seq<Slot>, s: Slot, t: Slot)
    requires s.typ == t.typ && s.attrs == t.attrs
    ensures Room(shelf, s) == Room(shelf, t)
  {
    if shelf != [] {
      RoomSame(shelf[1..], s, t);
    }
  }

  lemma {:induction false} RoomAtLeast(shelf: seq<Slot>, s: Slot, k: nat)
    requires k < |shelf| && Fits(shelf[k], s)
    ensures Room(shelf, s) >= MAX_STACK - shelf[k].count
  {
    if k > 0 {
      RoomAtLeast(shelf[1..], s, k - 1);
    }
  }

  /** With two free slots, or with room for everything in partial stacks, nothing is ever lost. */
  lemma SafeWithTwoSlots(shelf: seq<Slot>, cap: nat, s: Slot)
    requires s.typ.stackable && 1 <= s.count <= MAX_STACK && ClonedAttrs(s.typ, s.attrs) == s.attrs
    requires cap < 0x1_0000 && (Free(shelf, cap) >= 2 || Room(shelf, s) >= s.count)
    ensures AddTo(shelf, cap, s).ret == NoError && AddTo(shelf, cap, s).lost == 0
  {
    AddOutcome(shelf, cap, s);
  }

  /** What the first stack that `s` can be merged into takes at most. */
  function FirstSlack(shelf: seq<Slot>, s: Slot): nat {
    var k := FirstFit(shelf, s);
    if k.Some? then MAX_STACK - shelf[k.value].count else 0
  }

  /**
   What is reported is what is lost, or nothing; and it is what is lost exactly if nothing is lost
   or the first stack takes all that stacks can take, so that it is the first remainder that fails.
   */
  lemma ReportedIff(shelf: seq<Slot>, cap: nat, s: Slot)
    requires s.typ.stackable && 1 <= s.count <= MAX_STACK && ClonedAttrs(s.typ, s.attrs) == s.attrs
    ensures var r := AddTo(shelf, cap, s);
            && (r.reported == r.lost || r.reported == 0)
            && (r.reported == r.lost <==>
                Enough(shelf, cap, s) && Trapped(shelf, cap, s) ==> Room(shelf, s) == FirstSlack(shelf, s))
  {
    AddOutcome(shelf, cap, s);
    NoFitNoRoom(shelf, s);
    var k := FirstFit(shelf, s);
    if Enough(shelf, cap, s) && Trapped(shelf, cap, s) {
      RoomAtLeast(shelf, s, k.value);
      FillStep(shelf, cap, s);
      AddOutcome(Filled(shelf, k.value), cap, RemainderOf(s, s.count - (MAX_STACK - shelf[k.value].count)));
    }
  }

  /** A coin, and seven entries of a container with eight slots; the rest of them are no coins. */
  function SomeCoin(): ItemType {
    ItemType(2148, true, true, true, 10, 0, false, -1)
  }

  function Others(n: nat): seq<Slot> {
    seq(n, k => Slot(ItemType(2120, false, true, true, 1800, 0, false, -1), NoAttrs, 1))
  }

  /** Seven of eight slots taken, one of them by 95 coins: adding ten more is accepted, five vanish, and five are reported. */
  lemma AddCanLose()
    ensures var r := AddTo([Slot(SomeCoin(), NoAttrs, 95)] + Others(6), 8, Slot(SomeCoin(), NoAttrs, 10));
            r.ret == NoError && r.lost == 5 && r.reported == 5
  {
    var s := Slot(SomeCoin(), NoAttrs, 10);
    var shelf := [Slot(SomeCoin(), NoAttrs, 95)] + Others(6);
    NoRoomIn(Others(6), s);
    assert shelf[1..] == Others(6);
    AddOutcome(shelf, 8, s);
    ReportedIff(shelf, 8, s);
  }

  /** With two stacks of 95, twenty more are accepted, ten vanish, and nothing is reported. */
  lemma ReportCanMiss()
    ensures var c := Slot(SomeCoin(), NoAttrs, 95);
            var r := AddTo([c, c] + Others(5), 8, Slot(SomeCoin(), NoAttrs, 20));
            r.ret == NoError && r.lost == 10 && r.reported == 0
  {
    var c, s := Slot(SomeCoin(), NoAttrs, 95), Slot(SomeCoin(), NoAttrs, 20);
    var shelf := [c, c] + Others(5);
    TwoStacks(c, Others(5), s);
    AddOutcome(shelf, 8, s);
    ReportedIff(shelf, 8, s);
  }

  lemma TwoStacks(c: Slot, rest: seq<Slot>, s: Slot)
    requires Fits(c, s) && forall a :: a in rest ==> a.typ != s.typ
    ensures Room([c, c] + rest, s) == 2 * (MAX_STACK - c.count) && FirstFit([c, c] + rest, s) == Some(0)
  {
    var shelf := [c, c] + rest;
    NoRoomIn(rest, s);
    assert shelf[1..] == [c] + rest && ([c] + rest)[1..] == rest;
    assert Room([c] + rest, s) == MAX_STACK - c.count;
  }

  lemma {:induction false} NoRoomIn(shelf: seq<Slot>, s: Slot)
    requires forall a :: a in shelf ==> a.typ != s.typ
    ensures Room(shelf, s) == 0
  {
    if shelf != [] {
      assert shelf[0] in shelf;
      NoRoomIn(shelf[1..], s);
    }
  }

  // ----- the list of stacks against the world -----

  lemma {:induction false} ShelfAt<R>(w: World<R>, s: seq<R>)
    requires forall x :: x in s ==> x in w
    ensures |ShelfOf(w, s)| == |s|
    ensures forall k :: 0 <= k < |s| ==> ShelfOf(w, s)[k] == SlotOf(w[s[k]])
  {
    if s != [] {
      ShelfAt(w, s[1..]);
      forall k | 0 <= k < |s|
        ensures ShelfOf(w, s)[k] == SlotOf(w[s[k]])
      {
        assert k > 0 ==> ShelfOf(w, s)[k] == ShelfOf(w, s[1..])[k-1] && s[k] == s[1..][k-1];
      }
    }
  }

  /** The container asks about its entries what the list of stacks answers. */
  lemma ShelfFits<R>(w: World<R>, s: seq<R>, i: R)
    requires i in w && i !in s && forall x :: x in s ==> x in w
    ensures FirstFit(ShelfOf(w, s), SlotOf(w[i])) == FirstPartial(w, s, i, 0)
  {
    ShelfAt(w, s);
    assert forall k :: 0 <= k < |s| ==> Fits(ShelfOf(w, s)[k], SlotOf(w[i])) == Partial(w, s[k], i);
  }

  lemma {:induction false} ShelfRoom<R>(w: World<R>, s: seq<R>, i: R)
    requires i in w && i !in s && forall x :: x in s ==> x in w
    ensures Room(ShelfOf(w, s), SlotOf(w[i])) == Slack(w, s, i)
  {
    if s != [] {
      ShelfRoom(w, s[1..], i);
    }
  }

  lemma ShelfSame<R>(w: World<R>, n: World<R>, s: seq<R>)
    requires forall x :: x in s ==> x in w && x in n && SlotOf(w[x]) == SlotOf(n[x])
    ensures ShelfOf(w, s) == ShelfOf(n, s)
  {
    ShelfAt(w, s);
    ShelfAt(n, s);
  }

  lemma ShelfChange<R>(w: World<R>, n: World<R>, s: seq<R>, k: nat)
    requires Distinct(s) && k < |s| && forall x :: x in s ==> x in w && x in n
    requires forall x :: x in s && x != s[k] ==> SlotOf(w[x]) == SlotOf(n[x])
    ensures |ShelfOf(w, s)| == |s|
    ensures ShelfOf(n, s) == ShelfOf(w, s)[k := SlotOf(n[s[k]])]
  {
    ShelfAt(w, s);
    ShelfAt(n, s);
  }

  ghost function Shelf<R>(w: World<R>, c: R): (r: seq<Slot>)
    requires Forest(w) && c in w
    ensures |r| == |w[c].items|
  {
    assert Holds(w, c);
    ShelfAt(w, w[c].items);
    ShelfOf(w, w[c].items)
  }

  /** What may differ after adding `i` to `c`: new entries of `c`, and the sizes of stacks of the type of `i`. */
  ghost predicate Grown<R>(w: World<R>, n: World<R>, c: R, i: R) {
    && i in w
    && (forall x :: x in w ==>
          && x in n && n[x].typ == w[x].typ && n[x].box == w[x].box && n[x].cap == w[x].cap
          && n[x].unlocked == w[x].unlocked
          && (x != i ==> n[x].parent == w[x].parent)
          && (x != c ==> n[x].items == w[x].items)
          && (w[x].typ != w[i].typ ==> n[x].count == w[x].count && n[x].attrs == w[x].attrs))
  }

  /** The checks that do not depend on room. */
  ghost function Admission<R>(w: World<R>, c: R, i: R): ReturnValue
    requires Forest(w) && c in w && i in w
  {
    AddAnswer(w, c, i, 0, w[i].count, false, ANYONE)
  }

  /** The stack a plain add goes onto, if any. */
  ghost function OntoOf<R>(w: World<R>, c: R, i: R): Option<R>
    requires Forest(w) && c in w && i in w
  {
    var k := if w[i].typ.stackable then FirstPartial(w, w[c].items, i, 0) else None;
    if k.Some? then Some(w[c].items[k.value]) else None
  }

  /** The checks that do: no onto and no spare slot, or not enough room in all. */
  ghost predicate TooMuch<R>(w: World<R>, c: R, i: R)
    requires Forest(w) && c in w && i in w
  {
    || (OntoOf(w, c, i).None? && Crowded(w[c]))
    || (if w[i].typ.stackable then FreeSlots(w[c]) * MAX_STACK + Slack(w, w[c].items, i) < w[i].count
        else FreeSlots(w[c]) == 0)
  }

  /** The answer to a plain add, before anything is done. */
  ghost function AddAnswerHere<R>(w: World<R>, c: R, i: R): ReturnValue
    requires Forest(w) && c in w && i in w
  {
    if Admission(w, c, i) != NoError then Admission(w, c, i)
    else if TooMuch(w, c, i) then ContainerNotEnoughRoom else NoError
  }

  lemma DestinationIsHere<R>(w: World<R>, c: R, i: R)
    requires Forest(w) && c in w && i in w && w[i].parent.Nowhere? && w[c].unlocked
    ensures var d := DestinationAnswer(w, c, i, WHEREEVER, false);
            && d.c == c && d.onto == OntoOf(w, c, i)
            && (d.onto.Some? <==> d.index != WHEREEVER) && (d.onto.None? ==> d.index == WHEREEVER)
  {
    assert Holds(w, c);
  }

  /** The answer is that of the two queries the program makes, the second only if the first is fine. */
  lemma AnswerInSteps<R>(w: World<R>, c: R, i: R, d: Destination<R>, ret: ReturnValue, most: ReturnValue)
    requires Forest(w) && c in w && i in w && w[i].parent.Nowhere? && w[c].unlocked
    requires d == DestinationAnswer(w, c, i, WHEREEVER, false)
    requires ret == AddAnswer(w, c, i, d.index, w[i].count, false, ANYONE)
    requires most == MaxCountAnswer(w, c, i, WHEREEVER, w[i].count, false, ANYONE).0
    ensures d.c == c && d.onto == OntoOf(w, c, i)
    ensures AddAnswerHere(w, c, i) == if ret != NoError then ret else most
  {
    DestinationIsHere(w, c, i);
  }

  lemma OntoIffFits<R>(w: World<R>, c: R, i: R)
    requires Forest(w) && c in w && i in w && w[i].parent.Nowhere?
    ensures OntoOf(w, c, i).Some? <==> w[i].typ.stackable && FirstFit(Shelf(w, c), SlotOf(w[i])).Some?
  {
    assert Holds(w, c);
    ShelfAt(w, w[c].items);
    ShelfFits(w, w[c].items, i);
  }

  /** The list of stacks agrees with the world on whether a plain add is refused. */
  lemma TooMuchIsRefused<R>(w: World<R>, c: R, i: R)
    requires Forest(w) && c in w && i in w && w[i].parent.Nowhere?
    ensures var r := AddTo(Shelf(w, c), w[c].cap, SlotOf(w[i]));
            (TooMuch(w, c, i) ==> r == AddResult(ContainerNotEnoughRoom, Shelf(w, c), 0, 0))
            && (!TooMuch(w, c, i) ==> r.ret == NoError)
    ensures OntoOf(w, c, i).Some? <==> w[i].typ.stackable && FirstFit(Shelf(w, c), SlotOf(w[i])).Some?
  {
    OntoIffFits(w, c, i);
    assert Holds(w, c);
    ShelfRoom(w, w[c].items, i);
  }

  // ----- the three ways an accepted add goes on -----

  /** It goes to the front. */
  lemma AddFront<R>(w: World<R>, c: R, i: R)
    requires Forest(w) && Stacked(w) && Roomy(w) && c in w && i in w && w[c].box
    requires w[i].parent.Nowhere? && !Under(w, c, i) && !TooMuch(w, c, i) && OntoOf(w, c, i).None?
    ensures var n := PushFront(w, c, i);
            && Forest(n) && Stacked(n) && Roomy(n) && Grown(w, n, c, i)
            && AddTo(Shelf(w, c), w[c].cap, SlotOf(w[i])) == AddResult(NoError, Shelf(n, c), 0, 0)
  {
    var n := PushFront(w, c, i);
    PushFrontForest(w, c, i);
    TooMuchIsRefused(w, c, i);
    assert Holds(w, c) && Holds(n, c);
    assert n[c].items[1..] == w[c].items;
    ShelfSame(w, n, w[c].items);
    CrowdedMeansFull(w, c);
  }

  lemma CrowdedMeansFull<R>(w: World<R>, c: R)
    requires Forest(w) && Roomy(w) && c in w
    ensures |Shelf(w, c)| == |w[c].items|
    ensures !Crowded(w[c]) && FreeSlots(w[c]) == 0 ==> w[c].cap == 0
  {
    assert Holds(w, c);
    ShelfAt(w, w[c].items);
  }

  /** How much a merge takes. */
  ghost function Taken<R>(w: World<R>, c: R, i: R): nat
    requires Forest(w) && c in w && i in w
  {
    assert Holds(w, c);
    Merged(w, i, OntoOf(w, c, i), w[i].count)
  }

  /** The world after the first stack that fits has taken what it can. */
  ghost function AfterMerge<R>(w: World<R>, c: R, i: R): World<R>
    requires Forest(w) && c in w && i in w
  {
    assert Holds(w, c);
    Topped(w, i, OntoOf(w, c, i), Taken(w, c, i))
  }

  lemma OntoIs<R>(w: World<R>, c: R, i: R) returns (k: nat)
    requires Forest(w) && Stacked(w) && c in w && i in w && w[i].parent.Nowhere? && OntoOf(w, c, i).Some?
    ensures k < |w[c].items|
    ensures var o := OntoOf(w, c, i).value;
            && o in w && o in w[c].items && w[o].parent == In(c) && Same(w, i, o) && o != i && o != c
            && w[o].count < MAX_STACK && w[i].typ.stackable && !w[o].box && !w[i].box
            && FirstFit(Shelf(w, c), SlotOf(w[i])) == Some(k) && w[c].items[k] == o && Shelf(w, c)[k] == SlotOf(w[o])
            && 1 <= Taken(w, c, i) <= w[i].count && w[o].count + Taken(w, c, i) <= MAX_STACK
  {
    assert Holds(w, c);
    ShelfAt(w, w[c].items);
    ShelfFits(w, w[c].items, i);
    assert Linked(w, OntoOf(w, c, i).value);
    k := FirstFit(Shelf(w, c), SlotOf(w[i])).value;
  }

  /** A merge fills or finishes. */
  lemma MergeIsFine<R>(w: World<R>, c: R, i: R) returns (k: nat)
    requires Forest(w) && Stacked(w) && Roomy(w) && c in w && i in w && w[i].parent.Nowhere? && OntoOf(w, c, i).Some?
    ensures k < |w[c].items| && w[c].items[k] in w
    ensures var n := AfterMerge(w, c, i);
            && Forest(n) && Stacked(n) && Roomy(n) && n.Keys == w.Keys && Grown(w, n, c, i)
            && n[c] == w[c] && n[i] == w[i]
            && FirstFit(Shelf(w, c), SlotOf(w[i])) == Some(k)
            && Shelf(n, c) == Shelf(w, c)[k := SlotOf(Restacked(w[w[c].items[k]], w[w[c].items[k]].typ,
                                                               w[w[c].items[k]].count + Taken(w, c, i)))]
  {
    k := OntoIs(w, c, i);
    var o, n := OntoOf(w, c, i).value, AfterMerge(w, c, i);
    ToppedIsFine(w, c, i, Some(o), Taken(w, c, i));
    MergeShelf(w, n, c, k, o, Restacked(w[o], w[o].typ, w[o].count + Taken(w, c, i)));
  }

  lemma MergeShelf<R>(w: World<R>, n: World<R>, c: R, k: nat, o: R, v: View<R>)
    requires Forest(w) && Forest(n) && c in w && k < |w[c].items| && w[c].items[k] == o && o != c
    requires o in w && n == w[o := v]
    ensures Shelf(n, c) == Shelf(w, c)[k := SlotOf(v)]
  {
    assert Holds(w, c) && Holds(n, c);
    ShelfChange(w, n, w[c].items, k);
  }

  lemma MergeTotal<R>(w: World<R>, c: R, i: R, m: Measure)
    requires Forest(w) && Stacked(w) && c in w && i in w && w[i].parent.Nowhere? && OntoOf(w, c, i).Some?
    ensures Total(AfterMerge(w, c, i), m) == Total(w, m) + Part(w[i], Taken(w, c, i), m)
  {
    var k := OntoIs(w, c, i);
    TotalTopped(w, c, i, OntoOf(w, c, i).value, Taken(w, c, i), m);
  }

  lemma AddMergeSlots<R>(w: World<R>, c: R, i: R)
    requires Forest(w) && Stacked(w) && Roomy(w) && c in w && i in w && w[i].parent.Nowhere?
    requires !TooMuch(w, c, i) && OntoOf(w, c, i).Some?
    ensures Forest(AfterMerge(w, c, i)) && c in AfterMerge(w, c, i)
    ensures 1 <= Taken(w, c, i) <= w[i].count
    ensures AddTo(Shelf(w, c), w[c].cap, SlotOf(w[i])) ==
            AddOntoSlot(Shelf(AfterMerge(w, c, i), c), w[c].cap, SlotOf(w[i]), Taken(w, c, i))
  {
    var k := OntoIs(w, c, i);
    var _ := MergeIsFine(w, c, i);
    TooMuchIsRefused(w, c, i);
    AddToOnto(Shelf(w, c), w[c].cap, SlotOf(w[i]), k);
  }

  /** What the list of stacks says about a merge and what follows it. */
  lemma AddMerge<R>(w: World<R>, c: R, i: R)
    requires Forest(w) && Stacked(w) && Roomy(w) && c in w && i in w && w[i].parent.Nowhere?
    requires !TooMuch(w, c, i) && OntoOf(w, c, i).Some?
    ensures Forest(AfterMerge(w, c, i)) && c in AfterMerge(w, c, i) && Taken(w, c, i) <= w[i].count
    ensures var shelf, rest := Shelf(AfterMerge(w, c, i), c), w[i].count - Taken(w, c, i);
            AddTo(Shelf(w, c), w[c].cap, SlotOf(w[i])) ==
            if rest == 0 then AddResult(NoError, shelf, 0, 0)
            else Passed(AddTo(shelf, w[c].cap, RemainderOf(SlotOf(w[i]), rest)), shelf, rest)
  {
    AddMergeSlots(w, c, i);
    OntoSlotIs(Shelf(AfterMerge(w, c, i), c), w[c].cap, SlotOf(w[i]), Taken(w, c, i), w[i].count - Taken(w, c, i));
  }

  lemma OntoSlotIs(merged: seq<Slot>, cap: nat, s: Slot, n: nat, rest: nat)
    requires (n == s.count || 1 <= n < s.count) && rest == s.count - n
    ensures AddOntoSlot(merged, cap, s, n) ==
            if rest == 0 then AddResult(NoError, merged, 0, 0) else Passed(AddTo(merged, cap, RemainderOf(s, rest)), merged, rest)
  {
  }

  /** The remainder, as a new item, sees the same stacks and passes the same checks. */
  lemma RemainderIsFine<R>(w: World<R>, c: R, i: R, k: R, rest: nat)
    requires Forest(w) && Stacked(w) && Roomy(w) && c in w && i in w && k !in w && Admission(w, c, i) == NoError
    requires 1 <= rest <= MAX_STACK && w[i].typ.stackable
    ensures var p := w[k := CloneOf(w[i], rest)];
            && Forest(p) && Stacked(p) && Roomy(p) && Grown(w, p, c, i)
            && Shelf(p, c) == Shelf(w, c) && SlotOf(p[k]) == RemainderOf(SlotOf(w[i]), rest)
            && Admission(p, c, k) == NoError && p[k].typ == w[i].typ
  {
    var v := CloneOf(w[i], rest);
    var p := w[k := v];
    BirthForest(w, k, v);
    assert Holds(w, c);
    UnderLeaf(p, c, k);
    ShelfSame(w, p, w[c].items);
  }

  // ----- the whole recursion -----

  /**
   `n` is the world after `i` has been added to `c`: the entries of `c` are what the list of stacks
   says, a refusal changes nothing, nothing else is touched, and by every measure the world has
   grown by the item less the pieces lost.  `told` is what is reported about those.
   */
  ghost predicate AddedTo<R>(w: World<R>, n: World<R>, c: R, i: R, ret: ReturnValue, lost: nat, told: nat) {
    && Forest(w) && Forest(n) && c in w && i in w && Grown(w, n, c, i)
    && (ret != NoError ==> n == w && lost == told == 0)
    && (if Admission(w, c, i) != NoError then ret == Admission(w, c, i)
        else AddTo(Shelf(w, c), w[c].cap, SlotOf(w[i])) == AddResult(ret, Shelf(n, c), lost, told))
    && (forall m :: Total(n, m) + Part(w[i], lost, m) == Total(w, m) + Brought(w[i], ret, m))
  }

  /** `AddedTo`, kept out of sight of proofs that only pass it on. */
  ghost predicate Added<R>(w: World<R>, n: World<R>, c: R, i: R, ret: ReturnValue, lost: nat, told: nat) {
    forall k {:trigger Unsealed(OfAdds, k)} :: Unsealed(OfAdds, k) ==> AddedTo(w, n, c, i, ret, lost, told)
  }

  lemma Unseal<R>(w: World<R>, n: World<R>, c: R, i: R, ret: ReturnValue, lost: nat, told: nat)
    requires Added(w, n, c, i, ret, lost, told)
    ensures AddedTo(w, n, c, i, ret, lost, told)
  {
    assert Unsealed(OfAdds, 0);
  }

  ghost function Brought<R>(v: View<R>, ret: ReturnValue, m: Measure): nat {
    if ret == NoError then Bulk(v, m) else 0
  }

  lemma PartNone<R>(v: View<R>, m: Measure)
    ensures Part(v, 0, m) == 0 && Part(v, v.count, m) == Bulk(v, m)
  {
    assert v.(count := v.count) == v;
  }

  lemma AddedRefused<R>(w: World<R>, c: R, i: R)
    requires Forest(w) && c in w && i in w && w[i].parent.Nowhere?
    requires Admission(w, c, i) != NoError || TooMuch(w, c, i)
    ensures Added(w, w, c, i, AddAnswerHere(w, c, i), 0, 0)
  {
    TooMuchIsRefused(w, c, i);
    forall m
      ensures Part(w[i], 0, m) == 0
    {
      PartNone(w[i], m);
    }
  }

  lemma AddedFront<R>(w: World<R>, c: R, i: R)
    requires Forest(w) && Stacked(w) && Roomy(w) && c in w && i in w && w[c].box
    requires w[i].parent.Nowhere? && Admission(w, c, i) == NoError && !TooMuch(w, c, i) && OntoOf(w, c, i).None?
    ensures Added(w, PushFront(w, c, i), c, i, NoError, 0, 0)
  {
    AddFront(w, c, i);
    forall m
      ensures Total(PushFront(w, c, i), m) + Part(w[i], 0, m) == Total(w, m) + Bulk(w[i], m)
    {
      PartNone(w[i], m);
      TotalPushFront(w, c, i, m);
    }
  }

  lemma AddedMerged<R>(w: World<R>, c: R, i: R)
    requires Forest(w) && Stacked(w) && Roomy(w) && c in w && i in w && w[i].parent.Nowhere?
    requires Admission(w, c, i) == NoError && !TooMuch(w, c, i) && OntoOf(w, c, i).Some?
    requires Taken(w, c, i) == w[i].count
    ensures Added(w, AfterMerge(w, c, i), c, i, NoError, 0, 0)
  {
    AddMerge(w, c, i);
    var _ := MergeIsFine(w, c, i);
    forall m
      ensures Total(AfterMerge(w, c, i), m) + Part(w[i], 0, m) == Total(w, m) + Bulk(w[i], m)
    {
      PartNone(w[i], m);
      MergeTotal(w, c, i, m);
    }
  }

  ghost predicate PartialMerge<R>(w: World<R>, c: R, i: R, k: R) {
    LeavesRest(w, c, i) && k !in w
  }

  /** `i` passes all checks, and a stack takes some but not all of it. */
  ghost predicate LeavesRest<R>(w: World<R>, c: R, i: R) {
    && Forest(w) && Stacked(w) && Roomy(w) && c in w && i in w && w[i].parent.Nowhere?
    && Admission(w, c, i) == NoError && !TooMuch(w, c, i) && OntoOf(w, c, i).Some?
    && Taken(w, c, i) < w[i].count
  }

  /** `LeavesRest`, sealed. */
  ghost predicate RestDue<R>(w: World<R>, c: R, i: R) {
    && Forest(w) && c in w && i in w
    && forall k {:trigger Unsealed(OfAdds, k)} :: Unsealed(OfAdds, k) ==> LeavesRest(w, c, i)
  }

  ghost function RestOf<R>(w: World<R>, c: R, i: R): (rest: nat)
    requires Forest(w) && c in w && i in w
  {
    if Taken(w, c, i) < w[i].count then w[i].count - Taken(w, c, i) else 0
  }

  /** The world with the remainder made, in front of the next call. */
  ghost function WithRest<R>(w: World<R>, c: R, i: R, k: R): World<R>
    requires Forest(w) && c in w && i in w
  {
    AfterMerge(w, c, i)[k := CloneOf(w[i], RestOf(w, c, i))]
  }

  lemma WithRestIsFine<R>(w: World<R>, c: R, i: R, k: R)
    requires PartialMerge(w, c, i, k)
    ensures var t, p := AfterMerge(w, c, i), WithRest(w, c, i, k);
            && Forest(t) && Stacked(t) && Roomy(t) && t.Keys == w.Keys && t[i] == w[i] && t[c] == w[c]
            && Grown(w, t, c, i) && Grown(t, p, c, i)
            && Forest(p) && Stacked(p) && Roomy(p) && Shelf(p, c) == Shelf(t, c)
            && SlotOf(p[k]) == RemainderOf(SlotOf(w[i]), RestOf(w, c, i))
            && Admission(p, c, k) == NoError && p[k].typ == w[i].typ && 1 <= RestOf(w, c, i) <= MAX_STACK
  {
    var t := AfterMerge(w, c, i);
    var _ := OntoIs(w, c, i);
    var _ := MergeIsFine(w, c, i);
    AdmissionSame(w, t, c, i);
    RemainderIsFine(t, c, i, k, RestOf(w, c, i));
  }

  lemma ShelfInParts<R>(w: World<R>, c: R, i: R, k: R, q: World<R>, ret: ReturnValue, lost: nat, told: nat)
    requires PartialMerge(w, c, i, k) && Forest(WithRest(w, c, i, k)) && AddedTo(WithRest(w, c, i, k), q, c, k, ret, lost, told)
    ensures AddTo(Shelf(w, c), w[c].cap, SlotOf(w[i])) ==
            AddResult(NoError, Shelf(q, c), if ret != NoError then RestOf(w, c, i) else lost,
                      if ret != NoError then RestOf(w, c, i) else 0)
  {
    AddMerge(w, c, i);
    WithRestIsFine(w, c, i, k);
  }

  lemma AddedTotal<R>(w: World<R>, n: World<R>, c: R, i: R, ret: ReturnValue, lost: nat, told: nat, m: Measure)
    requires AddedTo(w, n, c, i, ret, lost, told)
    ensures Total(n, m) + Part(w[i], lost, m) == Total(w, m) + Brought(w[i], ret, m)
    ensures ret != NoError ==> lost == 0
  {
  }

  lemma CloneParts<R>(v: View<R>, rest: nat, lost: nat, m: Measure)
    requires !v.box && rest <= MAX_STACK
    ensures Bulk(CloneOf(v, rest), m) == Part(v, rest, m)
    ensures Part(CloneOf(v, rest), lost, m) == Part(v, lost, m)
  {
  }

  lemma RestIs<R>(w: World<R>, c: R, i: R, k: R)
    requires PartialMerge(w, c, i, k)
    ensures !w[i].box && w[i].count <= MAX_STACK && k !in AfterMerge(w, c, i) && k in WithRest(w, c, i, k)
    ensures WithRest(w, c, i, k)[k] == CloneOf(w[i], RestOf(w, c, i)) && RestOf(w, c, i) == w[i].count - Taken(w, c, i)
  {
    var _ := OntoIs(w, c, i);
    WithRestIsFine(w, c, i, k);
  }

  /** What the next call needs to know about the remainder. */
  lemma RestReady<R>(w: World<R>, c: R, i: R, k: R)
    requires RestDue(w, c, i) && k !in w
    ensures var p := WithRest(w, c, i, k);
            && Stacked(p) && Roomy(p) && k in p && p[k].count == RestOf(w, c, i) && p[k].parent.Nowhere?
  {
    assert Unsealed(OfAdds, 0);
    RestIs(w, c, i, k);
    WithRestIsFine(w, c, i, k);
  }

  lemma TotalsInParts<R>(w: World<R>, c: R, i: R, k: R, q: World<R>, ret: ReturnValue, lost: nat, told: nat, m: Measure)
    requires PartialMerge(w, c, i, k) && AddedTo(WithRest(w, c, i, k), q, c, k, ret, lost, told)
    ensures Total(q, m) + Part(w[i], if ret != NoError then RestOf(w, c, i) else lost, m) == Total(w, m) + Bulk(w[i], m)
  {
    RestIs(w, c, i, k);
    AddedTotal(WithRest(w, c, i, k), q, c, k, ret, lost, told, m);
    TotalInParts(w, c, i, k, m);
    CloneParts(w[i], RestOf(w, c, i), lost, m);
    PartNone(w[i], m);
  }

  /** A merge followed by the add of the remainder `k`, which may have failed. */
  lemma AddedInParts<R>(w: World<R>, c: R, i: R, k: R, q: World<R>, ret: ReturnValue, lost: nat, told: nat)
    requires RestDue(w, c, i) && k !in w && Added(WithRest(w, c, i, k), q, c, k, ret, lost, told)
    ensures Added(w, q, c, i, NoError, if ret != NoError then RestOf(w, c, i) else lost,
                  if ret != NoError then RestOf(w, c, i) else 0)
  {
    assert Unsealed(OfAdds, 0);
    WithRestIsFine(w, c, i, k);
    ShelfInParts(w, c, i, k, q, ret, lost, told);
    GrownThrough(w, AfterMerge(w, c, i), WithRest(w, c, i, k), q, c, i, k);
    forall m
      ensures Total(q, m) + Part(w[i], if ret != NoError then RestOf(w, c, i) else lost, m) == Total(w, m) + Bulk(w[i], m)
    {
      TotalsInParts(w, c, i, k, q, ret, lost, told, m);
    }
  }

  lemma AdmissionSame<R>(w: World<R>, t: World<R>, c: R, i: R)
    requires Forest(w) && Forest(t) && t.Keys == w.Keys && c in w && i in w && t[c] == w[c] && t[i] == w[i]
    requires forall x :: x in w ==> t[x].parent == w[x].parent
    ensures Admission(t, c, i) == Admission(w, c, i)
  {
    if Under(t, c, i) {
      UnderCut(w, t, c, i);
    }
    if Under(w, c, i) {
      UnderCut(t, w, c, i);
    }
  }

  lemma GrownThrough<R>(w: World<R>, t: World<R>, p: World<R>, q: World<R>, c: R, i: R, k: R)
    requires Grown(w, t, c, i) && Grown(t, p, c, i) && t[i].typ == w[i].typ && t.Keys == w.Keys
    requires k in p && k !in t && p[k].typ == w[i].typ && Grown(p, q, c, k)
    ensures Grown(w, q, c, i)
  {
    forall x | x in w
      ensures && x in q && q[x].typ == w[x].typ && q[x].box == w[x].box && q[x].cap == w[x].cap
              && q[x].unlocked == w[x].unlocked
              && (x != i ==> q[x].parent == w[x].parent)
              && (x != c ==> q[x].items == w[x].items)
              && (w[x].typ != w[i].typ ==> q[x].count == w[x].count && q[x].attrs == w[x].attrs)
    {
      assert x in t && x in p && x != k;
    }
  }

  lemma TotalInParts<R>(w: World<R>, c: R, i: R, k: R, m: Measure)
    requires Forest(w) && Stacked(w) && c in w && i in w && w[i].parent.Nowhere? && OntoOf(w, c, i).Some?
    requires k !in AfterMerge(w, c, i) && Taken(w, c, i) <= w[i].count
    ensures var rest := w[i].count - Taken(w, c, i);
            Total(AfterMerge(w, c, i)[k := CloneOf(w[i], rest)], m) + Part(w[i], rest, m)
            == Total(w, m) + Bulk(w[i], m)
  {
    MergeTotal(w, c, i, m);
    RestTotal(AfterMerge(w, c, i), k, w[i], Taken(w, c, i), m);
  }

  lemma RestTotal<R>(t: World<R>, k: R, v: View<R>, taken: nat, m: Measure)
    requires k !in t && taken <= v.count
    ensures Total(t[k := CloneOf(v, v.count - taken)], m) == Total(t, m)
    ensures Part(v, taken, m) + Part(v, v.count - taken, m) == Bulk(v, m)
  {
    TotalBirth(t, k, CloneOf(v, v.count - taken), m);
    PartAdd(v, taken, v.count - taken, m);
    PartNone(v, m);
  }

  // ----- where the pieces go -----

  /** A stack that nothing can be merged into goes to the front, one that fits into the first partial stack is merged there. */
  lemma AddToSimple(shelf: seq<Slot>, cap: nat, s: Slot)
    requires s.typ.stackable && 1 <= s.count <= MAX_STACK && ClonedAttrs(s.typ, s.attrs) == s.attrs
    ensures var r := AddTo(shelf, cap, s);
            && (r.ret == NoError && Room(shelf, s) == 0 ==> r.shelf == [s] + shelf)
            && (r.ret == NoError && Room(shelf, s) > 0 ==> FirstFit(shelf, s).Some?)
            && (r.ret == NoError && Room(shelf, s) > 0 && shelf[FirstFit(shelf, s).value].count + s.count <= MAX_STACK ==>
                  var k := FirstFit(shelf, s).value;
                  && |r.shelf| == |shelf| && (forall j :: 0 <= j < |shelf| && j != k ==> r.shelf[j] == shelf[j])
                  && r.shelf[k].count == shelf[k].count + s.count && r.shelf[k].typ == s.typ)
  {
    NoFitNoRoom(shelf, s);
  }

  /** Things that do not stack are accepted exactly if there are two free slots, and go to the front. */
  lemma AddToOthers(shelf: seq<Slot>, cap: nat, s: Slot)
    requires !s.typ.stackable && 0 < cap < 0x1_0000
    ensures var r := AddTo(shelf, cap, s);
            && (r.ret == NoError <==> |shelf| + 2 <= cap) && (r.ret != NoError ==> r.ret == ContainerNotEnoughRoom)
            && r.shelf == (if r.ret == NoError then [s] + shelf else shelf) && r.lost == 0 && r.reported == 0
  {
  }
}
