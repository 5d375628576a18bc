/**
 Moving an item between containers, as functions of snapshots: what `internalMoveItem` decides
 before it touches anything, what it then does, and what that leaves unchanged.
 */
module Moves {
  import opened ItemTree
  import opened Queries
  import opened Census

  const MAX_LAYERS: nat := 16

  /** The redirection loop: dropping onto a bag means dropping into the bag, at most sixteen times. */
  ghost function Route<R>(w: World<R>, c: R, i: R, index: int, flags: Flags, layer: nat): (r: (Destination<R>, Flags))
    requires Forest(w) && c in w && i in w && layer < MAX_LAYERS
    ensures r.0.c in w
    decreases MAX_LAYERS - layer
  {
    assert Holds(w, c) && Linked(w, c);
    var d := DestinationAnswer(w, c, i, index, flags.ignoreAutoStack);
    if d.c == c then (d, flags)
    else if layer + 1 >= MAX_LAYERS then (d, NO_FLAGS)
    else Route(w, d.c, i, d.index, NO_FLAGS, layer + 1)
  }

  datatype Plan<R> =
    | Refused(why: ReturnValue)
    | Ignored                      // the item is dropped onto itself
    | Go(c: R, index: int, onto: Option<R>, amount: nat, ret: ReturnValue, flags: Flags)

  /** The last checks, once the amount is known. */
  ghost function RemovalPlan<R>(w: World<R>, from: R, d: Destination<R>, fl: Flags, i: R, m: nat,
                                ret: ReturnValue, trade: Option<R>): Plan<R>
    requires Forest(w) && from in w && d.c in w && i in w
  {
    var retRemove := RemoveAnswer(w, from, i, m, fl.ignoreNotMoveable);
    if retRemove != NoError then Refused(retRemove)
    else if trade.Some? && Under(w, d.c, trade.value) then Refused(NotEnoughRoom)
    else Go(d.c, d.index, d.onto, m, ret, fl)
  }

  ghost function AdditionPlan<R>(w: World<R>, from: R, d: Destination<R>, fl: Flags, i: R, count: nat,
                                 carrier: nat -> bool, trade: Option<R>): Plan<R>
    requires Forest(w) && from in w && d.c in w && i in w
  {
    var ret := AddAnswer(w, d.c, i, d.index, count, fl.noLimit, carrier);
    if ret != NoError then Refused(ret) else
    var (retMax, most) := MaxCountAnswer(w, d.c, i, d.index, count, fl.noLimit, carrier);
    if retMax != NoError && most == 0 then Refused(retMax) else
    RemovalPlan(w, from, d, fl, i, if w[i].typ.stackable && count < most then count else most,
                if w[i].typ.stackable && most < count then retMax else NoError, trade)
  }

  ghost function MovePlan<R>(w: World<R>, from: R, c: R, i: R, index: int, count: nat, flags: Flags,
                             carrier: nat -> bool, trade: Option<R>): Plan<R>
    requires Forest(w) && from in w && c in w && i in w
  {
    var (d, fl) := Route(w, c, i, index, flags, 0);
    if d.onto == Some(i) then Ignored else AdditionPlan(w, from, d, fl, i, count, carrier, trade)
  }

  /** How many of `m` pieces fit onto the stack `onto`, if it is of the same kind at all. */
  function Merged<R(==)>(w: World<R>, i: R, onto: Option<R>, m: nat): nat
    requires i in w && (onto.Some? ==> onto.value in w)
  {
    if onto.Some? && Same(w, i, onto.value) && w[onto.value].count < MAX_STACK then
      if MAX_STACK - w[onto.value].count < m then MAX_STACK - w[onto.value].count else m
    else 0
  }

  /** `clone`: a copy of the attributes, or what a new item of the type starts with if there are none. */
  function ClonedAttrs(t: ItemType, a: Attrs): (r: Attrs)
    ensures Stable(r) == Stable(a) && Custom(r) == Custom(a)
  {
    if a.NoAttrs? && t.decayTime != 0 then SetVal(NoAttrs, DURATION, Number(t.decayTime * 1000)) else a
  }

  function CloneOf<R>(v: View<R>, count: nat): View<R> {
    View(v.typ, count % 256, ClonedAttrs(v.typ, v.attrs), Nowhere, false, 0, true, [], 0)
  }

  /** `onto` absorbs `n` pieces, if it is there to be merged with. */
  ghost function Topped<R>(w: World<R>, i: R, onto: Option<R>, n: nat): World<R>
    requires i in w && (onto.Some? ==> onto.value in w)
  {
    if onto.Some? && Same(w, i, onto.value) then
      var o := onto.value;
      w[o := Restacked(w[o], w[o].typ, w[o].count + n)]
    else w
  }

  // ----- what a plan that goes ahead has already made sure of -----

  ghost predicate GoodPlan<R>(w: World<R>, from: R, i: R, p: Plan<R>) {
    && p.Go? && Forest(w) && Stacked(w) && from in w && i in w && p.c in w && w[p.c].box
    && i in w[from].items
    && !Under(w, p.c, i)
    && 1 <= p.amount && (w[i].typ.stackable ==> p.amount <= w[i].count)
    && p.index < w[p.c].cap
    && (p.onto.Some? ==> p.onto.value in w && p.onto.value != i && p.onto.value in w[p.c].items && !w[p.onto.value].box)
    && (p.flags.noLimit || |w[p.c].items| < w[p.c].cap
        || (w[i].typ.stackable && Merged(w, i, p.onto, p.amount) == p.amount))
  }

  lemma {:induction false} RouteIsGood<R>(w: World<R>, c: R, i: R, index: int, flags: Flags, layer: nat)
    requires Forest(w) && Stacked(w) && Roomy(w) && c in w && i in w && w[c].box && layer < MAX_LAYERS
    ensures var d := Route(w, c, i, index, flags, layer).0;
            && d.c in w && w[d.c].box
            && (w[d.c].unlocked ==> d.index < w[d.c].cap)
            && (d.onto.Some? ==> 0 <= d.index < |w[d.c].items| && w[d.c].items[d.index] == d.onto.value
                                 && d.onto.value in w && !w[d.onto.value].box)
            && (d.onto.None? && w[d.c].unlocked ==> !(0 <= d.index < |w[d.c].items|))
    decreases MAX_LAYERS - layer
  {
    assert Holds(w, c) && Linked(w, c);
    if w[c].parent.In? {
      assert Holds(w, w[c].parent.c);
    }
    var d := DestinationAnswer(w, c, i, index, flags.ignoreAutoStack);
    if d.c != c && layer + 1 < MAX_LAYERS {
      RouteIsGood(w, d.c, i, d.index, NO_FLAGS, layer + 1);
    }
  }

  /** Every check of a plan that goes ahead, in a world whose containers are within their capacity. */
  lemma PlanIsGood<R>(w: World<R>, from: R, c: R, i: R, index: int, count: nat, flags: Flags,
                      carrier: nat -> bool, trade: Option<R>)
    requires Forest(w) && Stacked(w) && Roomy(w) && from in w && c in w && i in w && w[c].box
    requires MovePlan(w, from, c, i, index, count, flags, carrier, trade).Go?
    ensures GoodPlan(w, from, i, MovePlan(w, from, c, i, index, count, flags, carrier, trade))
  {
    var (d, fl) := Route(w, c, i, index, flags, 0);
    RouteIsGood(w, c, i, index, flags, 0);
    assert Holds(w, d.c) && Holds(w, from);
    var p := MovePlan(w, from, c, i, index, count, flags, carrier, trade);
    if !fl.noLimit && FreeSlots(w[d.c]) == 0 {
      NoSlotsNeeded(w, d.c, i, d.index, count, carrier);
    }
  }

  /** With no free slot left, what can still be added is what the stack at the index can absorb. */
  lemma NoSlotsNeeded<R>(w: World<R>, c: R, i: R, index: int, count: nat, carrier: nat -> bool)
    requires Forest(w) && Roomy(w) && c in w && i in w && FreeSlots(w[c]) == 0
    requires AddAnswer(w, c, i, index, count, false, carrier) == NoError
    ensures MergeRoom(w, c, i, index, count, carrier) > 0 ==>
              && 0 <= index < |w[c].items| && w[c].items[index] in w
              && Same(w, i, w[c].items[index]) && w[w[c].items[index]].count < MAX_STACK
              && MergeRoom(w, c, i, index, count, carrier) == MAX_STACK - w[w[c].items[index]].count
  {
    assert Holds(w, c);
    if index == WHEREEVER {
      assert w[c].cap == 0 && w[c].items == [];
    }
  }

  // ----- what the move then does -----

  /** The world after the pieces have left `from`. */
  ghost function Lifted<R>(w: World<R>, from: R, i: R, p: Plan<R>): World<R>
    requires GoodPlan(w, from, i, p)
  {
    Removed(w, from, i, p.amount)
  }

  ghost function Rest<R>(w: World<R>, i: R, p: Plan<R>): (r: nat)
    requires p.Go? && i in w && (p.onto.Some? ==> p.onto.value in w)
  {
    if w[i].typ.stackable then p.amount - Merged(w, i, p.onto, p.amount) else 0
  }

  /** The world after the stack at the destination has absorbed what it can. */
  ghost function Absorbed<R>(w: World<R>, from: R, i: R, p: Plan<R>): World<R>
    requires GoodPlan(w, from, i, p) && w[i].typ.stackable
  {
    Topped(Lifted(w, from, i, p), i, p.onto, Merged(w, i, p.onto, p.amount))
  }

  lemma LiftedForest<R>(w: World<R>, from: R, i: R, p: Plan<R>)
    requires GoodPlan(w, from, i, p)
    ensures var n := Lifted(w, from, i, p);
            && Forest(n) && Stacked(n) && n.Keys == w.Keys && (Roomy(w) ==> Roomy(n))
            && (!w[i].typ.stackable ==> n[i] == w[i].(parent := Nowhere))
            && n[i].typ == w[i].typ && n[i].attrs == w[i].attrs
  {
    RemovedForest(w, from, i, p.amount);
    assert Holds(w, from);
  }

  lemma LiftedApart<R>(w: World<R>, from: R, i: R, p: Plan<R>)
    requires GoodPlan(w, from, i, p) && Forest(Lifted(w, from, i, p))
    ensures p.c in Lifted(w, from, i, p) && !Under(Lifted(w, from, i, p), p.c, i)
  {
    var n := Lifted(w, from, i, p);
    if Under(n, p.c, i) {
      UnderCut(w, n, p.c, i);
    }
  }

  lemma LiftedOnto<R>(w: World<R>, from: R, i: R, p: Plan<R>)
    requires GoodPlan(w, from, i, p)
    ensures var n := Lifted(w, from, i, p);
            && n.Keys == w.Keys && n[p.c].box && n[p.c].cap == w[p.c].cap && |n[p.c].items| <= |w[p.c].items|
            && (p.onto.Some? ==> p.onto.value in n[p.c].items && n[p.onto.value] == w[p.onto.value]
                                 && n[p.onto.value].parent == In(p.c))
  {
    assert Holds(w, from) && Holds(w, p.c);
    WithoutKeeps(w[from].items, IndexOf(w[from].items, i));
  }

  lemma LiftedIsFine<R>(w: World<R>, from: R, i: R, p: Plan<R>)
    requires GoodPlan(w, from, i, p)
    ensures var n := Lifted(w, from, i, p);
            && Forest(n) && Stacked(n) && n.Keys == w.Keys && !Under(n, p.c, i)
            && (!w[i].typ.stackable ==> n[i] == w[i].(parent := Nowhere))
            && n[p.c].box && n[p.c].cap == w[p.c].cap && |n[p.c].items| <= |w[p.c].items|
            && (Roomy(w) ==> Roomy(n))
            && n[i].typ == w[i].typ && n[i].attrs == w[i].attrs
            && (p.onto.Some? ==> p.onto.value in n[p.c].items && n[p.onto.value] == w[p.onto.value]
                                 && n[p.onto.value].parent == In(p.c))
  {
    LiftedForest(w, from, i, p);
    LiftedApart(w, from, i, p);
    LiftedOnto(w, from, i, p);
  }

  lemma LiftedMerges<R>(w: World<R>, from: R, i: R, p: Plan<R>)
    requires GoodPlan(w, from, i, p) && w[i].typ.stackable
    ensures p.onto.Some? ==> p.onto.value in Lifted(w, from, i, p)
    ensures Merged(Lifted(w, from, i, p), i, p.onto, p.amount) + Rest(w, i, p) == p.amount
    ensures Absorbed(w, from, i, p) ==
            Topped(Lifted(w, from, i, p), i, p.onto, Merged(Lifted(w, from, i, p), i, p.onto, p.amount))
  {
    LiftedIsFine(w, from, i, p);
  }

  lemma ToppedIsFine<R>(a: World<R>, c: R, i: R, onto: Option<R>, k: nat)
    requires Forest(a) && Stacked(a) && c in a && i in a && a[i].typ.stackable
    requires onto.Some? ==> onto.value in a && onto.value != i && onto.value != c
    requires onto.Some? && Same(a, i, onto.value) ==> a[onto.value].count + k <= MAX_STACK
    ensures var n := Topped(a, i, onto, k);
            && Forest(n) && Stacked(n) && n.Keys == a.Keys && (Roomy(a) ==> Roomy(n))
            && n[c] == a[c] && n[i] == a[i]
  {
    if onto.Some? && Same(a, i, onto.value) {
      var o := onto.value;
      RewriteForest(a, o, Restacked(a[o], a[o].typ, a[o].count + k));
    }
  }

  lemma AbsorbedIsFine<R>(w: World<R>, from: R, i: R, p: Plan<R>)
    requires GoodPlan(w, from, i, p) && w[i].typ.stackable
    ensures var n := Absorbed(w, from, i, p);
            && Forest(n) && Stacked(n) && n.Keys == w.Keys
            && n[p.c] == Lifted(w, from, i, p)[p.c] && n[i].typ == w[i].typ && n[i].attrs == w[i].attrs
            && (Roomy(Lifted(w, from, i, p)) ==> Roomy(n))
  {
    LiftedIsFine(w, from, i, p);
    ToppedIsFine(Lifted(w, from, i, p), p.c, i, p.onto, Merged(w, i, p.onto, p.amount));
  }

  /** A brand-new item `clone` goes to the front of `c`. */
  ghost function Placed<R>(w: World<R>, c: R, clone: R, v: View<R>): World<R>
    requires Forest(w) && c in w && clone !in w && v.parent.Nowhere? && v.items == []
  {
    BirthForest(w, clone, v);
    PushFront(w[clone := v], c, clone)
  }

  lemma PlacedIsFine<R>(w: World<R>, c: R, clone: R, v: View<R>)
    requires Forest(w) && Stacked(w) && c in w && w[c].box && clone !in w && v.parent.Nowhere? && v.items == []
    requires v.typ.stackable ==> !v.box && 1 <= v.count <= MAX_STACK
    ensures Forest(w[clone := v]) && !Under(w[clone := v], c, clone)
    ensures Forest(Placed(w, c, clone, v)) && Stacked(Placed(w, c, clone, v))
    ensures Roomy(w) && |w[c].items| < w[c].cap && v.cap < 0x1_0000 ==> Roomy(Placed(w, c, clone, v))
  {
    BirthForest(w, clone, v);
    UnderLeaf(w[clone := v], c, clone);
    PushFrontForest(w[clone := v], c, clone);
  }

  lemma TotalPlaced<R>(w: World<R>, c: R, clone: R, v: View<R>, m: Measure)
    requires Forest(w) && c in w && clone !in w && v.parent.Nowhere? && v.items == []
    ensures Total(Placed(w, c, clone, v), m) == Total(w, m) + Bulk(v, m)
  {
    BirthForest(w, clone, v);
    TotalBirth(w, clone, v, m);
    TotalPushFront(w[clone := v], c, clone, m);
  }

  /** An object the copy can be made in is at hand if one is needed. */
  predicate Spare<R(==)>(w: World<R>, clone: Option<R>, rest: nat) {
    (clone.Some? ==> clone.value !in w) && (rest > 0 ==> clone.Some?)
  }

  /** What did not fit onto a stack goes to the front of `c` as a copy. */
  ghost function Finished<R>(w: World<R>, c: R, clone: Option<R>, of: View<R>, rest: nat): World<R>
    requires Forest(w) && c in w && Spare(w, clone, rest)
  {
    if rest == 0 then w else Placed(w, c, clone.value, CloneOf(of, rest))
  }

  lemma FinishedIsFine<R>(w: World<R>, c: R, clone: Option<R>, of: View<R>, rest: nat)
    requires Forest(w) && Stacked(w) && c in w && w[c].box && Spare(w, clone, rest)
    requires of.typ.stackable && rest <= MAX_STACK
    ensures var n := Finished(w, c, clone, of, rest);
            Forest(n) && Stacked(n) && (Roomy(w) && (rest == 0 || |w[c].items| < w[c].cap) ==> Roomy(n))
  {
    if rest != 0 {
      PlacedIsFine(w, c, clone.value, CloneOf(of, rest));
    }
  }

  lemma TotalFinished<R>(w: World<R>, c: R, clone: Option<R>, of: View<R>, rest: nat, m: Measure)
    requires Forest(w) && c in w && Spare(w, clone, rest) && rest <= MAX_STACK && !of.box
    ensures Total(Finished(w, c, clone, of, rest), m) == Total(w, m) + Part(of, rest, m)
  {
    if rest != 0 {
      TotalPlaced(w, c, clone.value, CloneOf(of, rest), m);
      assert Bulk(CloneOf(of, rest), m) == Part(of, rest, m);
    }
  }

  /** What `k` pieces of the kind of `v` count for. */
  ghost function Part<R>(v: View<R>, k: nat, m: Measure): nat {
    Bulk(v.(count := k), m)
  }

  /** The world after moving pieces of a stack; `clone` is the object the part that did not merge is copied into. */
  ghost function StackMoved<R>(w: World<R>, from: R, i: R, p: Plan<R>, clone: Option<R>): World<R>
    requires GoodPlan(w, from, i, p) && Spare(w, clone, Rest(w, i, p)) && w[i].typ.stackable
  {
    AbsorbedIsFine(w, from, i, p);
    Finished(Absorbed(w, from, i, p), p.c, clone, w[i], Rest(w, i, p))
  }

  lemma ReadyToPlace<R>(w: World<R>, from: R, i: R, p: Plan<R>)
    requires GoodPlan(w, from, i, p) && w[i].typ.stackable
    ensures var n := Absorbed(w, from, i, p);
            && n.Keys == w.Keys && Stacked(n) && p.c in n && i in n
            && n[p.c].box && n[p.c].cap == w[p.c].cap && n[i].typ == w[i].typ && n[i].attrs == w[i].attrs
    ensures Rest(w, i, p) <= MAX_STACK && p.index < w[p.c].cap
  {
    LiftedIsFine(w, from, i, p);
    AbsorbedIsFine(w, from, i, p);
  }

  lemma StackMovedIs<R>(w: World<R>, from: R, i: R, p: Plan<R>, clone: Option<R>)
    requires GoodPlan(w, from, i, p) && Spare(w, clone, Rest(w, i, p)) && w[i].typ.stackable
    ensures Forest(Absorbed(w, from, i, p)) && Absorbed(w, from, i, p).Keys == w.Keys
    ensures StackMoved(w, from, i, p, clone) == Finished(Absorbed(w, from, i, p), p.c, clone, w[i], Rest(w, i, p))
  {
    AbsorbedIsFine(w, from, i, p);
  }

  /** The world after moving an item as a whole. */
  ghost function WholeMoved<R>(w: World<R>, from: R, i: R, p: Plan<R>): World<R>
    requires GoodPlan(w, from, i, p) && !w[i].typ.stackable
  {
    LiftedIsFine(w, from, i, p);
    PushFront(Lifted(w, from, i, p), p.c, i)
  }

  ghost function Moved<R>(w: World<R>, from: R, i: R, p: Plan<R>, clone: Option<R>): World<R>
    requires GoodPlan(w, from, i, p) && Spare(w, clone, Rest(w, i, p))
  {
    if w[i].typ.stackable then StackMoved(w, from, i, p, clone) else WholeMoved(w, from, i, p)
  }

  // ----- what it leaves unchanged -----

  /** Bulk is additive in the number of pieces of one kind. */
  lemma BulkAdd<R>(u: View<R>, v: View<R>, x: View<R>, m: Measure)
    requires KeyOf(u) == KeyOf(v) == KeyOf(x) && u.box == v.box == x.box && x.count == u.count + v.count
    ensures Bulk(x, m) == Bulk(u, m) + Bulk(v, m)
  {
  }

  lemma TotalLifted<R>(w: World<R>, from: R, i: R, p: Plan<R>, m: Measure)
    requires GoodPlan(w, from, i, p)
    ensures Total(Lifted(w, from, i, p), m) +
            Part(w[i], if w[i].typ.stackable then p.amount else w[i].count, m) == Total(w, m)
  {
    assert Holds(w, from);
    if w[i].typ.stackable && p.amount != w[i].count {
      var v := Reduced(w[i], p.amount);
      TotalRewrite(w, i, v, m);
      BulkAdd(v, w[i].(count := p.amount), w[i], m);
    } else {
      TotalTakeOut(w, from, IndexOf(w[from].items, i), m);
      assert w[i].(count := w[i].count) == w[i];
    }
  }

  lemma TotalTopped<R>(a: World<R>, c: R, i: R, o: R, k: nat, m: Measure)
    requires i in a && o in a && a[o].parent == In(c) && Same(a, i, o) && o != i
    requires a[o].count + k <= MAX_STACK && !a[o].box && !a[i].box
    ensures Total(Topped(a, i, Some(o), k), m) == Total(a, m) + Part(a[i], k, m)
  {
    var v := Restacked(a[o], a[o].typ, a[o].count + k);
    TotalRewrite(a, o, v, m);
    BulkAdd(a[o], a[i].(count := k), v, m);
  }

  lemma TotalAbsorbed<R>(w: World<R>, from: R, i: R, p: Plan<R>, m: Measure)
    requires GoodPlan(w, from, i, p) && w[i].typ.stackable
    ensures Total(Absorbed(w, from, i, p), m) ==
            Total(Lifted(w, from, i, p), m) + Part(w[i], Merged(w, i, p.onto, p.amount), m)
  {
    LiftedIsFine(w, from, i, p);
    var a := Lifted(w, from, i, p);
    if p.onto.Some? && Same(a, i, p.onto.value) {
      TotalTopped(a, p.c, i, p.onto.value, Merged(w, i, p.onto, p.amount), m);
    }
  }

  lemma PartAdd<R>(v: View<R>, j: nat, k: nat, m: Measure)
    ensures Part(v, j + k, m) == Part(v, j, m) + Part(v, k, m)
  {
    BulkAdd(v.(count := j), v.(count := k), v.(count := j + k), m);
  }

  lemma TotalStackMoved<R>(w: World<R>, from: R, i: R, p: Plan<R>, clone: Option<R>, m: Measure)
    requires GoodPlan(w, from, i, p) && Spare(w, clone, Rest(w, i, p)) && w[i].typ.stackable
    ensures Total(StackMoved(w, from, i, p, clone), m) ==
            Total(Absorbed(w, from, i, p), m) + Part(w[i], Rest(w, i, p), m)
  {
    AbsorbedIsFine(w, from, i, p);
    TotalFinished(Absorbed(w, from, i, p), p.c, clone, w[i], Rest(w, i, p), m);
  }

  lemma PartsAddUp<R>(w: World<R>, i: R, p: Plan<R>, m: Measure)
    requires p.Go? && i in w && w[i].typ.stackable && (p.onto.Some? ==> p.onto.value in w)
    ensures Part(w[i], p.amount, m) == Part(w[i], Merged(w, i, p.onto, p.amount), m) + Part(w[i], Rest(w, i, p), m)
  {
    PartAdd(w[i], Merged(w, i, p.onto, p.amount), Rest(w, i, p), m);
  }

  lemma StackMoveConserves<R>(w: World<R>, from: R, i: R, p: Plan<R>, clone: Option<R>, m: Measure)
    requires GoodPlan(w, from, i, p) && Spare(w, clone, Rest(w, i, p)) && w[i].typ.stackable
    ensures Total(StackMoved(w, from, i, p, clone), m) == Total(w, m)
  {
    TotalLifted(w, from, i, p, m);
    TotalAbsorbed(w, from, i, p, m);
    TotalStackMoved(w, from, i, p, clone, m);
    PartsAddUp(w, i, p, m);
  }

  lemma WholeMoveConserves<R>(w: World<R>, from: R, i: R, p: Plan<R>, m: Measure)
    requires GoodPlan(w, from, i, p) && !w[i].typ.stackable
    ensures Total(WholeMoved(w, from, i, p), m) == Total(w, m)
  {
    LiftedIsFine(w, from, i, p);
    TotalLifted(w, from, i, p, m);
    var n := Lifted(w, from, i, p);
    TotalPushFront(n, p.c, i, m);
    assert w[i].(count := w[i].count) == w[i];
  }

  /** No piece of any kind, and no gold, is made or lost by a move. */
  lemma MoveConserves<R>(w: World<R>, from: R, i: R, p: Plan<R>, clone: Option<R>, m: Measure)
    requires GoodPlan(w, from, i, p) && Spare(w, clone, Rest(w, i, p))
    ensures Total(Moved(w, from, i, p, clone), m) == Total(w, m)
  {
    if w[i].typ.stackable {
      StackMoveConserves(w, from, i, p, clone, m);
    } else {
      WholeMoveConserves(w, from, i, p, m);
    }
  }

  lemma StackMoveKeepsBounds<R>(w: World<R>, from: R, i: R, p: Plan<R>, clone: Option<R>)
    requires GoodPlan(w, from, i, p) && Spare(w, clone, Rest(w, i, p)) && w[i].typ.stackable
    ensures var n := StackMoved(w, from, i, p, clone);
            Forest(n) && Stacked(n) && (Roomy(w) && !p.flags.noLimit ==> Roomy(n))
  {
    LiftedIsFine(w, from, i, p);
    AbsorbedIsFine(w, from, i, p);
    FinishedIsFine(Absorbed(w, from, i, p), p.c, clone, w[i], Rest(w, i, p));
  }

  lemma WholeMoveKeepsBounds<R>(w: World<R>, from: R, i: R, p: Plan<R>)
    requires GoodPlan(w, from, i, p) && !w[i].typ.stackable
    ensures var n := WholeMoved(w, from, i, p);
            Forest(n) && Stacked(n) && (Roomy(w) && !p.flags.noLimit ==> Roomy(n))
  {
    LiftedIsFine(w, from, i, p);
    PushFrontForest(Lifted(w, from, i, p), p.c, i);
  }

  /** Stacks stay within 1 and 100, and without FLAG_NOLIMIT so do containers within their capacity. */
  lemma MoveKeepsBounds<R>(w: World<R>, from: R, i: R, p: Plan<R>, clone: Option<R>)
    requires GoodPlan(w, from, i, p) && Spare(w, clone, Rest(w, i, p))
    ensures var n := Moved(w, from, i, p, clone);
            Forest(n) && Stacked(n) && (Roomy(w) && !p.flags.noLimit ==> Roomy(n))
  {
    if w[i].typ.stackable {
      StackMoveKeepsBounds(w, from, i, p, clone);
    } else {
      WholeMoveKeepsBounds(w, from, i, p);
    }
  }

  // ----- and what it delivers -----

  lemma HeldLifted<R>(w: World<R>, from: R, i: R, p: Plan<R>, x: R, m: Measure)
    requires GoodPlan(w, from, i, p) && x in w
    ensures Held(Lifted(w, from, i, p), x, m) + (if x == from then Portion(w, i, p, m) else 0) == Held(w, x, m)
  {
    RemovedForest(w, from, i, p.amount);
    if w[i].typ.stackable && p.amount != w[i].count {
      HeldRewrite(w, from, i, Reduced(w[i], p.amount), x, m);
      BulkAdd(Reduced(w[i], p.amount), w[i].(count := p.amount), w[i], m);
    } else {
      HeldTakeOut(w, from, IndexOf(w[from].items, i), x, m);
      assert w[i].(count := w[i].count) == w[i];
    }
  }

  lemma HeldAbsorbed<R>(w: World<R>, from: R, i: R, p: Plan<R>, x: R, m: Measure)
    requires GoodPlan(w, from, i, p) && w[i].typ.stackable && x in w
    ensures Held(Absorbed(w, from, i, p), x, m) ==
            Held(Lifted(w, from, i, p), x, m)
            + if x == p.c then Part(w[i], Merged(w, i, p.onto, p.amount), m) else 0
  {
    LiftedIsFine(w, from, i, p);
    var a, k := Lifted(w, from, i, p), Merged(w, i, p.onto, p.amount);
    if p.onto.Some? && Same(a, i, p.onto.value) {
      HeldTopped(a, p.c, i, p.onto.value, k, x, m);
    }
  }

  lemma HeldTopped<R>(a: World<R>, c: R, i: R, o: R, k: nat, x: R, m: Measure)
    requires Forest(a) && i in a && o in a && x in a && a[o].parent == In(c) && Same(a, i, o) && o != i
    requires a[o].count + k <= MAX_STACK && !a[o].box && !a[i].box
    ensures Held(Topped(a, i, Some(o), k), x, m) == Held(a, x, m) + if x == c then Part(a[i], k, m) else 0
  {
    var v := Restacked(a[o], a[o].typ, a[o].count + k);
    HeldRewrite(a, c, o, v, x, m);
    BulkAdd(a[o], a[i].(count := k), v, m);
  }

  lemma HeldFinished<R>(w: World<R>, c: R, clone: Option<R>, of: View<R>, rest: nat, x: R, m: Measure)
    requires Forest(w) && c in w && Spare(w, clone, rest) && rest <= MAX_STACK && !of.box && x in w
    ensures Held(Finished(w, c, clone, of, rest), x, m) == Held(w, x, m) + if x == c then Part(of, rest, m) else 0
  {
    if rest != 0 {
      HeldPlaced(w, c, clone.value, CloneOf(of, rest), x, m);
      CloneBulk(of, rest, m);
    }
  }

  lemma HeldPlaced<R>(w: World<R>, c: R, i: R, v: View<R>, x: R, m: Measure)
    requires Forest(w) && c in w && i !in w && x in w && v.parent.Nowhere? && v.items == []
    ensures Held(Placed(w, c, i, v), x, m) == Held(w, x, m) + if x == c then Bulk(v, m) else 0
  {
    BirthForest(w, i, v);
    HeldBirth(w, i, v, x, m);
    HeldPushFront(w[i := v], c, i, x, m);
  }

  lemma CloneBulk<R>(of: View<R>, rest: nat, m: Measure)
    requires rest <= MAX_STACK && !of.box
    ensures Bulk(CloneOf(of, rest), m) == Part(of, rest, m)
  {
  }

  /** What the pieces that move count for. */
  ghost function Portion<R>(w: World<R>, i: R, p: Plan<R>, m: Measure): nat
    requires p.Go? && i in w
  {
    Part(w[i], if w[i].typ.stackable then p.amount else w[i].count, m)
  }

  /**
   The source loses exactly the portion that was planned, the destination gains exactly that,
   and no other container holds anything more or less.
   */
  lemma MoveDelivers<R>(w: World<R>, from: R, i: R, p: Plan<R>, clone: Option<R>, x: R, m: Measure)
    requires GoodPlan(w, from, i, p) && Spare(w, clone, Rest(w, i, p)) && x in w
    ensures x in Moved(w, from, i, p, clone)
    ensures Held(Moved(w, from, i, p, clone), x, m) + (if x == from then Portion(w, i, p, m) else 0) ==
            Held(w, x, m) + if x == p.c then Portion(w, i, p, m) else 0
  {
    if w[i].typ.stackable {
      StackMoveDelivers(w, from, i, p, clone, x, m);
    } else {
      HeldLifted(w, from, i, p, x, m);
      LiftedIsFine(w, from, i, p);
      HeldPushFront(Lifted(w, from, i, p), p.c, i, x, m);
      assert w[i].(count := w[i].count) == w[i];
    }
  }

  lemma StackMoveDelivers<R>(w: World<R>, from: R, i: R, p: Plan<R>, clone: Option<R>, x: R, m: Measure)
    requires GoodPlan(w, from, i, p) && Spare(w, clone, Rest(w, i, p)) && x in w && w[i].typ.stackable
    ensures x in StackMoved(w, from, i, p, clone)
    ensures Held(StackMoved(w, from, i, p, clone), x, m) + (if x == from then Portion(w, i, p, m) else 0) ==
            Held(w, x, m) + if x == p.c then Portion(w, i, p, m) else 0
  {
    HeldLifted(w, from, i, p, x, m);
    HeldAbsorbed(w, from, i, p, x, m);
    PartsAddUp(w, i, p, m);
    HeldStackMoved(w, from, i, p, clone, x, m);
  }

  lemma HeldStackMoved<R>(w: World<R>, from: R, i: R, p: Plan<R>, clone: Option<R>, x: R, m: Measure)
    requires GoodPlan(w, from, i, p) && Spare(w, clone, Rest(w, i, p)) && x in w && w[i].typ.stackable
    ensures x in StackMoved(w, from, i, p, clone)
    ensures Held(StackMoved(w, from, i, p, clone), x, m) ==
            Held(Absorbed(w, from, i, p), x, m) + if x == p.c then Part(w[i], Rest(w, i, p), m) else 0
  {
    AbsorbedIsFine(w, from, i, p);
    HeldFinished(Absorbed(w, from, i, p), p.c, clone, w[i], Rest(w, i, p), x, m);
  }

  /** `n` is what carrying out the plan `p` makes of `w`. */
  ghost predicate CarriedOut<R>(w: World<R>, n: World<R>, from: R, i: R, p: Plan<R>, copy: Option<R>) {
    GoodPlan(w, from, i, p) && Spare(w, copy, Rest(w, i, p)) && n == Moved(w, from, i, p, copy)
  }

  lemma CarriedOutIsFine<R>(w: World<R>, n: World<R>, from: R, i: R, p: Plan<R>, copy: Option<R>)
    requires CarriedOut(w, n, from, i, p, copy)
    ensures Forest(n) && Stacked(n) && (Roomy(w) && !p.flags.noLimit ==> Roomy(n))
    ensures forall m :: Total(n, m) == Total(w, m)
  {
    MoveKeepsBounds(w, from, i, p, copy);
    forall m
      ensures Total(n, m) == Total(w, m)
    {
      MoveConserves(w, from, i, p, copy, m);
    }
  }

  /** A copy has the attributes of the original, or without any those of a new item: the duration of its type, if it decays. */
  lemma ClonedIs<R>(v: View<R>, count: nat)
    requires count < 256
    ensures var c := CloneOf(v, count);
            && c.typ == v.typ && c.count == count && c.parent == Nowhere && c.items == [] && !c.box
            && (v.attrs.Attrs? || v.typ.decayTime == 0 ==> c.attrs == v.attrs)
            && (v.attrs.NoAttrs? && v.typ.decayTime > 0 ==> c.attrs == Attrs(map[17 := Number(1000 * v.typ.decayTime)], false))
  {
  }

  // ----- how much moves, and when -----

  /** The smaller of what is asked for and the room at the destination. */
  ghost function Asked<R>(w: World<R>, c: R, i: R, index: int, noLimit: bool, count: nat): nat
    requires c in w && i in w
  {
    if !noLimit && RoomAt(w, c, i, index) < count then RoomAt(w, c, i, index) else count
  }

  lemma AnswerAtFront<R>(w: World<R>, c: R, i: R, index: int, count: nat, carrier: nat -> bool)
    requires Forest(w) && c in w && i in w && AddAnswer(w, c, i, index, count, false, carrier) == NoError
    ensures AddAnswer(w, c, i, 0, count, false, carrier) == NoError
  {
  }

  /**
   A move of a stack that goes ahead takes the smaller of what was asked for and the room at the
   destination, and returns no error exactly if that is all that was asked for.
   */
  lemma AmountIs<R>(w: World<R>, from: R, d: Destination<R>, fl: Flags, i: R, count: nat, carrier: nat -> bool, trade: Option<R>)
    requires Forest(w) && from in w && d.c in w && i in w && w[i].typ.stackable
    requires AdditionPlan(w, from, d, fl, i, count, carrier, trade).Go?
    ensures var p := AdditionPlan(w, from, d, fl, i, count, carrier, trade);
            && p.c == d.c && p.index == d.index && p.onto == d.onto && p.flags == fl
            && p.amount == Asked(w, d.c, i, d.index, fl.noLimit, count)
            && (p.ret == NoError <==> p.amount == count) && (p.ret != NoError ==> p.ret == ContainerNotEnoughRoom)
  {
    if !fl.noLimit {
      AnswerAtFront(w, d.c, i, d.index, count, carrier);
      MaxCountIsRoom(w, d.c, i, d.index, count, carrier);
    }
  }

  /** The same for whole moves, wherever they are redirected to. */
  lemma MoveAmountIs<R>(w: World<R>, from: R, c: R, i: R, index: int, count: nat, flags: Flags,
                        carrier: nat -> bool, trade: Option<R>)
    requires Forest(w) && from in w && c in w && i in w && w[i].typ.stackable
    requires MovePlan(w, from, c, i, index, count, flags, carrier, trade).Go?
    ensures var p := MovePlan(w, from, c, i, index, count, flags, carrier, trade);
            && p.c in w && p.amount == Asked(w, p.c, i, p.index, p.flags.noLimit, count)
            && (p.ret == NoError <==> p.amount == count) && (p.ret != NoError ==> p.ret == ContainerNotEnoughRoom)
  {
    var (d, fl) := Route(w, c, i, index, flags, 0);
    AmountIs(w, from, d, fl, i, count, carrier, trade);
  }

  /**
   What a move of a stack does to the two containers: the source loses, and the destination gains, the
   smaller of what was asked for and the room there, in pieces of that kind.
   */
  lemma AskedArrives<R>(w: World<R>, n: World<R>, from: R, c: R, i: R, index: int, count: nat, flags: Flags,
                        carrier: nat -> bool, trade: Option<R>, p: Plan<R>, copy: Option<R>)
    requires Forest(w) && from in w && c in w && i in w && w[i].typ.stackable
    requires p == MovePlan(w, from, c, i, index, count, flags, carrier, trade) && CarriedOut(w, n, from, i, p, copy)
    ensures from in n && p.c in n
    ensures var k, m := Asked(w, p.c, i, p.index, p.flags.noLimit, count), Pieces(KeyOf(w[i]));
            && (from != p.c ==> Held(n, from, m) + k == Held(w, from, m) && Held(n, p.c, m) == Held(w, p.c, m) + k)
            && (from == p.c ==> Held(n, from, m) == Held(w, from, m))
            && (p.ret == NoError <==> k == count)
  {
    MoveAmountIs(w, from, c, i, index, count, flags, carrier, trade);
    MoveDelivers(w, from, i, p, copy, from, Pieces(KeyOf(w[i])));
    MoveDelivers(w, from, i, p, copy, p.c, Pieces(KeyOf(w[i])));
    assert Portion(w, i, p, Pieces(KeyOf(w[i]))) == p.amount;
  }

  /** Whether there is room for at least one of the pieces, or things, that are asked for. */
  ghost predicate SomeRoom<R>(w: World<R>, c: R, i: R, index: int, noLimit: bool)
    requires c in w && i in w
  {
    noLimit || (if w[i].typ.stackable then RoomAt(w, c, i, index) > 0 else |w[c].items| < w[c].cap)
  }

  /**
   When a move goes ahead, once it is known where it goes: the destination accepts the item and has
   room for some of it, the source has it and lets so much go, and the destination is not in the
   item that is traded for it.
   */
  lemma GoesIff<R>(w: World<R>, from: R, d: Destination<R>, fl: Flags, i: R, count: nat, carrier: nat -> bool, trade: Option<R>)
    requires Forest(w) && from in w && d.c in w && i in w
    ensures AdditionPlan(w, from, d, fl, i, count, carrier, trade).Go? <==>
            && AddAnswer(w, d.c, i, d.index, count, fl.noLimit, carrier) == NoError
            && SomeRoom(w, d.c, i, d.index, fl.noLimit)
            && i in w[from].items && (w[i].typ.moveable || fl.ignoreNotMoveable)
            && (w[i].typ.stackable ==> 1 <= Asked(w, d.c, i, d.index, fl.noLimit, count) <= w[i].count)
            && !(trade.Some? && IsWithin(w, d.c, trade.value))
  {
    if AddAnswer(w, d.c, i, d.index, count, fl.noLimit, carrier) == NoError {
      if w[i].typ.stackable && !fl.noLimit {
        AnswerAtFront(w, d.c, i, d.index, count, carrier);
        MaxCountIsRoom(w, d.c, i, d.index, count, carrier);
      }
      MaxCountOfOthers(w, d.c, i, d.index, count, fl.noLimit, carrier);
      if trade.Some? {
        WithinIff(w, d.c, trade.value);
      }
    }
  }

  /** An item that is to go nowhere in particular is not sent on. */
  lemma StaysWherever<R>(w: World<R>, c: R, i: R, ignoreAutoStack: bool)
    requires Forest(w) && c in w && i in w
    ensures DestinationAnswer(w, c, i, WHEREEVER, ignoreAutoStack).c == c
  {
    assert Holds(w, c);
  }

  /**
   A move goes to the container that is named, with its flags, or is sent on once: to the container
   around that one, or to the one at the index, where it goes nowhere in particular and has no flags.
   */
  lemma SentOnOnce<R>(w: World<R>, c: R, i: R, index: int, flags: Flags)
    requires Forest(w) && c in w && i in w
    ensures var d, r := DestinationAnswer(w, c, i, index, flags.ignoreAutoStack), Route(w, c, i, index, flags, 0);
            && (d.c == c ==> r == (d, flags))
            && (d.c != c ==> d.c in w && d.index == -1 && r.0 == DestinationAnswer(w, d.c, i, -1, false) && r.0.c == d.c
                             && r.1 == Flags(false, false, false))
  {
    assert Holds(w, c) && Linked(w, c);
    var d := DestinationAnswer(w, c, i, index, flags.ignoreAutoStack);
    if d.c != c {
      StaysWherever(w, d.c, i, false);
    }
  }

  /** How many of the pieces the stack at the destination takes. */
  function Joined<R(==)>(w: World<R>, i: R, p: Plan<R>): nat
    requires p.Go? && i in w
  {
    if p.onto.None? then 0 else if Space(w, p.onto.value, i) < p.amount then Space(w, p.onto.value, i) else p.amount
  }

  lemma JoinedIs<R>(w: World<R>, from: R, i: R, p: Plan<R>)
    requires GoodPlan(w, from, i, p) && w[i].typ.stackable
    ensures Merged(w, i, p.onto, p.amount) == Joined(w, i, p) && Rest(w, i, p) + Joined(w, i, p) == p.amount
  {
    if p.onto.Some? {
      SlackAt(w, p.onto.value, i);
    }
  }

  /** The world after the pieces have left: a smaller stack, or one entry less. */
  lemma SourceAfter<R>(w: World<R>, from: R, i: R, p: Plan<R>)
    requires GoodPlan(w, from, i, p) && w[i].typ.stackable
    ensures var n := Lifted(w, from, i, p);
            && i in n && from in n && n.Keys == w.Keys
            && (p.amount < w[i].count ==> n[i].count == w[i].count - p.amount && n[i].parent == In(from) && n[from].items == w[from].items)
            && (p.amount == w[i].count ==> n[i].parent == Nowhere && n[i].count == w[i].count && LeftOut(w[from].items, n[from].items, i))
            && (forall x :: x in w && x != i ==> n[x].count == w[x].count && (x != from ==> n[x].items == w[x].items))
  {
    assert Holds(w, from) && Linked(w, i);
    RemovedIs(w, from, i, p.amount);
  }

  /** The world after the merge and before the rest is put down. */
  lemma MergeAfter<R>(w: World<R>, from: R, i: R, p: Plan<R>)
    requires GoodPlan(w, from, i, p) && w[i].typ.stackable
    ensures var a, b := Lifted(w, from, i, p), Absorbed(w, from, i, p);
            && b.Keys == a.Keys == w.Keys && Forest(b) && b[i] == a[i]
            && (p.onto.Some? ==> b[p.onto.value].count == w[p.onto.value].count + Joined(w, i, p))
            && (forall x :: x in w ==> b[x].items == a[x].items && b[x].parent == a[x].parent)
  {
    JoinedIs(w, from, i, p);
    SourceAfter(w, from, i, p);
    AbsorbedIsFine(w, from, i, p);
    ToppedCounts(Lifted(w, from, i, p), i, p.onto, Joined(w, i, p), p.c);
  }

  /** The destination afterwards: what can be joined is joined to the stack there, and the rest is a new entry in front. */
  lemma LandsAs<R>(w: World<R>, n: World<R>, from: R, i: R, p: Plan<R>, copy: Option<R>)
    requires CarriedOut(w, n, from, i, p, copy) && w[i].typ.stackable && from != p.c
    ensures p.c in n
    ensures var k := Joined(w, i, p);
            && (p.onto.Some? ==> p.onto.value in n && n[p.onto.value].count == w[p.onto.value].count + k)
            && (k == p.amount ==> n[p.c].items == w[p.c].items)
            && (k < p.amount ==> copy.Some? && copy.value in n && n[p.c].items == [copy.value] + w[p.c].items
                                 && n[copy.value].count == p.amount - k && n[copy.value].typ == w[i].typ)
  {
    JoinedIs(w, from, i, p);
    MergeAfter(w, from, i, p);
    SourceAfter(w, from, i, p);
    StackMovedIs(w, from, i, p, copy);
    PlacedCounts(Absorbed(w, from, i, p), p.c, copy, w[i], Rest(w, i, p));
  }

  /** The source afterwards: a smaller stack, or one entry less. */
  lemma LeavesAs<R>(w: World<R>, n: World<R>, from: R, i: R, p: Plan<R>, copy: Option<R>)
    requires CarriedOut(w, n, from, i, p, copy) && w[i].typ.stackable && from != p.c
    ensures i in n && from in n
    ensures p.amount < w[i].count ==> n[i].count == w[i].count - p.amount && n[from].items == w[from].items
    ensures p.amount == w[i].count ==> n[i].parent == Nowhere && LeftOut(w[from].items, n[from].items, i)
  {
    JoinedIs(w, from, i, p);
    MergeAfter(w, from, i, p);
    SourceAfter(w, from, i, p);
    StackMovedIs(w, from, i, p, copy);
    PlacedCounts(Absorbed(w, from, i, p), p.c, copy, w[i], Rest(w, i, p));
  }

  lemma ToppedCounts<R>(a: World<R>, i: R, onto: Option<R>, k: nat, c: R)
    requires i in a && c in a && (onto.Some? ==> onto.value in a && onto.value != i)
    requires onto.Some? ==> if Same(a, i, onto.value) then a[onto.value].count + k <= MAX_STACK else k == 0
    ensures var n := Topped(a, i, onto, k);
            && n.Keys == a.Keys && (onto.Some? ==> n[onto.value].count == a[onto.value].count + k)
            && n[i] == a[i] && (forall x :: x in a ==> n[x].items == a[x].items && n[x].parent == a[x].parent)
  {
  }

  lemma PlacedCounts<R>(a: World<R>, c: R, copy: Option<R>, of: View<R>, rest: nat)
    requires Forest(a) && c in a && Spare(a, copy, rest) && rest <= MAX_STACK
    ensures var n := Finished(a, c, copy, of, rest);
            && (forall x :: x in a ==> x in n && n[x].count == a[x].count && n[x].parent == a[x].parent
                                       && (x != c || rest == 0 ==> n[x].items == a[x].items))
            && (rest > 0 ==> copy.value in n && n[copy.value].count == rest && n[copy.value].typ == of.typ
                             && n[c].items == [copy.value] + a[c].items)
  {
    if rest > 0 {
      BirthForest(a, copy.value, CloneOf(of, rest));
    }
  }
}
