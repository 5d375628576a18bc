/**
 The state of a forest of items, as a value: one record per item, keyed by a
 reference type `R`.  `Containers.Item` is the heap object of the program; the
 functions and lemmas here speak about snapshots of a whole set of such objects,
 so that they can be stated without a heap.
 */
module ItemTree {
  import opened Streams

  /** The fields of an entry of the global item table that the item engine consults. */
  datatype ItemType = ItemType(
    id: nat, stackable: bool, moveable: bool, pickupable: bool, weight: nat,
    decayTime: nat, stopTime: bool, decayTo: int)

  datatype Value = Number(n: int) | Text(s: seq<Byte>)

  /** `NoAttrs` is a null attribute pointer, which `equals` tells apart from an empty list. */
  datatype Attrs = NoAttrs | Attrs(vals: map<nat, Value>, custom: bool)

  /** Bit positions of the attribute kinds the engine itself reads or writes. */
  const WEIGHT: nat := 9
  const DURATION: nat := 17
  const DECAY_STATE: nat := 18
  const CORPSE_OWNER: nat := 19
  const TIMESTAMP: nat := 23

  /** The values of the decay state. */
  const DECAYING_FALSE := 0
  const DECAYING_TRUE := 1
  const DECAYING_PENDING := 2
  const DECAYING_STOPPING := 3

  const MAX_STACK: nat := 100

  datatype Parent<R> =
    | Nowhere          // no parent: fresh, or taken out of the world
    | Outside          // a tile, a creature, a depot: any holder that is not a container
    | In(c: R)

  datatype View<R> = View(
    typ: ItemType, count: nat, attrs: Attrs, parent: Parent<R>,
    box: bool, cap: nat, unlocked: bool, items: seq<R>,
    depth: nat)  // strictly larger than the parent's: only the proofs look at it

  type World<R> = map<R, View<R>>

  // ----- attributes -----

  function Vals(a: Attrs): map<nat, Value> {
    if a.NoAttrs? then map[] else a.vals
  }

  function SetVal(a: Attrs, k: nat, v: Value): Attrs {
    if a.NoAttrs? then Attrs(map[k := v], false) else a.(vals := a.vals[k := v])
  }

  function DropVal(a: Attrs, k: nat): Attrs {
    if a.NoAttrs? then a else a.(vals := a.vals - {k})
  }

  predicate Volatile(k: nat) {
    k == DURATION || k == DECAY_STATE || k == CORPSE_OWNER || k == TIMESTAMP
  }

  /** The attributes that re-stamping a type id never touches. */
  function Stable(a: Attrs): map<nat, Value> {
    map k | k in Vals(a) && !Volatile(k) :: Vals(a)[k]
  }

  predicate Custom(a: Attrs) {
    a.Attrs? && a.custom
  }

  /** The effect of giving an item of type `prev` the type `t`: decay and corpse attributes are reset. */
  function Restamp(prev: ItemType, t: ItemType, a: Attrs): (r: Attrs)
    ensures Stable(r) == Stable(a) && Custom(r) == Custom(a)
  {
    var a1 :=
      if t.decayTime == 0 && !t.stopTime && t.decayTo < 0 then
        DropVal(if DECAY_STATE in Vals(a) then SetVal(a, DECAY_STATE, Number(DECAYING_STOPPING)) else a, DURATION)
      else a;
    var a2 := DropVal(a1, CORPSE_OWNER);
    if t.decayTime > 0 && (!prev.stopTime || DURATION !in Vals(a2)) then
      SetVal(SetVal(a2, DECAY_STATE, Number(DECAYING_PENDING)), DURATION, Number(t.decayTime * 1000))
    else a2
  }

  /** What a stack is counted under when asking whether anything was lost or duplicated. */
  datatype Key = Key(typ: ItemType, vals: map<nat, Value>, custom: bool)

  function KeyOf<R>(v: View<R>): Key {
    Key(v.typ, Stable(v.attrs), Custom(v.attrs))
  }

  /**
   `Item::equals` on two different items.  Values of kind "custom" are compared by the address
   of their table, so two different items that have one are never equal.
   */
  predicate Similar<R>(a: View<R>, b: View<R>) {
    && a.typ.id == b.typ.id && a.typ == b.typ
    && a.attrs == b.attrs
    && !Custom(a.attrs)
  }

  // ----- the shape of the forest -----

  predicate Distinct<R(==)>(s: seq<R>) {
    forall j, k :: 0 <= j < k < |s| ==> s[j] != s[k]
  }

  lemma DistinctConcat<R>(s: seq<R>, t: seq<R>)
    requires Distinct(s) && Distinct(t) && forall x :: x in s ==> x !in t
    ensures Distinct(s + t)
  {
    forall j, k | 0 <= j < k < |s + t|
      ensures (s + t)[j] != (s + t)[k]
    {
      if j < |s| <= k {
        assert s[j] in s && t[k - |s|] in t;
      }
    }
  }

  /** The parent of `x`, if it is a container, lists `x` and is strictly shallower. */
  ghost predicate Linked<R>(w: World<R>, x: R)
    requires x in w
  {
    w[x].parent.In? ==>
      && w[x].parent.c in w
      && x in w[w[x].parent.c].items
      && w[w[x].parent.c].depth < w[x].depth
  }

  /** The entries of `x` are different items that all name `x` as their parent. */
  ghost predicate Holds<R>(w: World<R>, x: R)
    requires x in w
  {
    && (forall y :: y in w[x].items ==> y in w && w[y].parent == In(x))
    && Distinct(w[x].items)
    && (w[x].box || w[x].items == [])
  }

  /** Parent pointers and item lists mirror each other, and no container is inside itself. */
  ghost predicate Forest<R>(w: World<R>) {
    && (forall x {:trigger Linked(w, x)} :: x in w ==> Linked(w, x))
    && (forall x {:trigger Holds(w, x)} :: x in w ==> Holds(w, x))
  }

  /** `y` is `x` or one of the containers `x` sits in: the upward walk along parent pointers. */
  ghost predicate Under<R>(w: World<R>, x: R, y: R)
    requires Forest(w) && x in w
    decreases w[x].depth
  {
    assert Linked(w, x);
    x == y || (w[x].parent.In? && Under(w, w[x].parent.c, y))
  }

  /** Stackable things are no containers, and every stack holds between one and a hundred pieces. */
  ghost predicate Stacked<R>(w: World<R>) {
    forall x :: x in w && w[x].typ.stackable ==> !w[x].box && 1 <= w[x].count <= MAX_STACK
  }

  /** No container holds more entries than it has slots, a number of sixteen bits. */
  ghost predicate Roomy<R>(w: World<R>) {
    forall x :: x in w ==> |w[x].items| <= w[x].cap < 0x1_0000
  }

  function IndexOf<R(==)>(s: seq<R>, x: R): (k: nat)
    requires x in s
    ensures k < |s| && s[k] == x
  {
    if s[0] == x then 0 else 1 + IndexOf(s[1..], x)
  }

  // ----- the elementary changes -----

  /** The new depth of `x` when `i` is hung below a container of depth `below`. */
  ghost function Sunk<R>(w: World<R>, x: R, i: R, below: nat): (d: nat)
    requires Forest(w) && x in w
  {
    if Under(w, x, i) then w[x].depth + below + 1 else w[x].depth
  }

  /** `i` becomes the first entry of `c`; everything inside `i` moves down with it. */
  ghost function PushFront<R>(w: World<R>, c: R, i: R): World<R>
    requires Forest(w) && c in w && i in w
  {
    map x | x in w ::
      w[x].(depth := Sunk(w, x, i, w[c].depth),
            parent := if x == i then In(c) else w[x].parent,
            items := if x == c then [i] + w[x].items else w[x].items)
  }

  function Without<R>(s: seq<R>, k: nat): seq<R>
    requires k < |s|
  {
    s[..k] + s[k+1..]
  }

  /** The `k`-th entry of `c` is taken out and left without a parent. */
  ghost function TakeOut<R>(w: World<R>, c: R, k: nat): World<R>
    requires c in w && k < |w[c].items| && w[c].items[k] in w
  {
    var i, s := w[c].items[k], Without(w[c].items, k);
    var w1 := w[i := w[i].(parent := Nowhere)];
    w1[c := w1[c].(items := s)]
  }

  /** `i` takes the place of the `k`-th entry of `c`, which is left without a parent. */
  ghost function Exchange<R>(w: World<R>, c: R, k: nat, i: R): World<R>
    requires Forest(w) && c in w && i in w && k < |w[c].items|
  {
    map x | x in w ::
      w[x].(depth := Sunk(w, x, i, w[c].depth),
            parent := if x == i then In(c) else if x == w[c].items[k] then Nowhere else w[x].parent,
            items := if x == c then w[x].items[k := i] else w[x].items)
  }

  /** A stack of another type or size in the same place; sizes are stored in eight bits. */
  function Restacked<R>(v: View<R>, t: ItemType, count: nat): View<R> {
    v.(typ := t, attrs := Restamp(v.typ, t, v.attrs), count := count % 256)
  }

  function Reduced<R>(v: View<R>, amount: nat): View<R> {
    v.(count := (if amount <= v.count then v.count - amount else 0) % 256)
  }

  /** Removing `amount` pieces of `i` from `c`: part of a stack, or else the whole entry. */
  ghost function Removed<R>(w: World<R>, c: R, i: R, amount: nat): World<R>
    requires Forest(w) && c in w
  {
    assert Holds(w, c);
    if i !in w[c].items then w
    else if w[i].typ.stackable && amount != w[i].count then w[i := Reduced(w[i], amount)]
    else TakeOut(w, c, IndexOf(w[c].items, i))
  }

  /** `v` differs from `u` in type, count or attributes at most: its place in the forest is the same. */
  predicate SamePlace<R(==)>(u: View<R>, v: View<R>) {
    u.parent == v.parent && u.box == v.box && u.cap == v.cap && u.items == v.items && u.depth == v.depth
  }

  // ----- the forest survives them -----

  lemma PushFrontForest<R>(w: World<R>, c: R, i: R)
    requires Forest(w) && c in w && i in w && w[c].box
    requires !w[i].parent.In? && !Under(w, c, i)
    ensures Forest(PushFront(w, c, i))
  {
    var n := PushFront(w, c, i);
    assert Holds(w, c);
    forall x | x in n
      ensures Linked(n, x) && Holds(n, x)
    {
      assert Linked(w, x) && Holds(w, x);
      assert Under(w, i, i);
      if x != i && w[x].parent.In? {
        assert Under(w, x, i) == Under(w, w[x].parent.c, i);
      }
    }
  }

  lemma TakeOutForest<R>(w: World<R>, c: R, k: nat)
    requires Forest(w) && c in w && k < |w[c].items|
    ensures w[c].items[k] in w && w[w[c].items[k]].parent == In(c) && w[c].items[k] != c
    ensures Forest(TakeOut(w, c, k))
  {
    var i, s := w[c].items[k], w[c].items;
    assert Holds(w, c) && Linked(w, i);
    var n := TakeOut(w, c, k);
    WithoutKeeps(s, k);
    forall x | x in n
      ensures Linked(n, x) && Holds(n, x)
    {
      assert Linked(w, x) && Holds(w, x);
    }
  }

  lemma WithoutKeeps<R>(s: seq<R>, k: nat)
    requires k < |s|
    ensures forall x :: x in s && x != s[k] ==> x in Without(s, k)
    ensures forall x :: x in Without(s, k) ==> x in s
    ensures Distinct(s) ==> Distinct(Without(s, k)) && s[k] !in Without(s, k)
  {
    var t := Without(s, k);
    forall x | x in s && x != s[k]
      ensures x in t
    {
      var j :| 0 <= j < |s| && s[j] == x;
      assert t[if j < k then j else j - 1] == x;
    }
  }

  lemma ExchangeForest<R>(w: World<R>, c: R, k: nat, i: R)
    requires Forest(w) && c in w && i in w && w[c].box && k < |w[c].items|
    requires w[i].parent.Nowhere? && !Under(w, c, i)
    ensures w[c].items[k] in w && w[w[c].items[k]].parent == In(c) && w[c].items[k] != c
    ensures Forest(Exchange(w, c, k, i))
  {
    var gone := w[c].items[k];
    assert Holds(w, c) && Linked(w, gone);
    var n := Exchange(w, c, k, i);
    assert n[c].items == w[c].items[k := i];
    forall x | x in n
      ensures Linked(n, x) && Holds(n, x)
    {
      assert Linked(w, x) && Holds(w, x);
      assert Under(w, i, i);
      if x == i {
        assert n[c].items[k] == i;
      } else if w[x].parent.In? {
        assert Under(w, x, i) == Under(w, w[x].parent.c, i);
        if x != gone && w[x].parent == In(c) {
          var j :| 0 <= j < |w[c].items| && w[c].items[j] == x;
          assert n[c].items[j] == x;
        }
      }
    }
  }

  lemma RewriteForest<R>(w: World<R>, i: R, v: View<R>)
    requires Forest(w) && i in w && SamePlace(w[i], v)
    ensures Forest(w[i := v])
  {
    var n := w[i := v];
    forall x | x in n
      ensures Linked(n, x) && Holds(n, x)
    {
      assert Linked(w, x) && Holds(w, x);
    }
  }

  /** A brand-new item joins the world without a parent. */
  lemma BirthForest<R>(w: World<R>, i: R, v: View<R>)
    requires Forest(w) && i !in w && v.parent.Nowhere? && v.items == []
    ensures Forest(w[i := v])
  {
    var n := w[i := v];
    forall x | x in n
      ensures Linked(n, x) && Holds(n, x)
    {
      assert x != i ==> Linked(w, x) && Holds(w, x);
    }
  }

  // ----- the same changes, one field at a time -----

  /** The depths of `w` adjusted for `i` hanging below a container of depth `below`, on top of `n`. */
  ghost function Sinking<R>(w: World<R>, n: World<R>, i: R, below: nat): World<R>
    requires Forest(w) && n.Keys == w.Keys
  {
    map x | x in n :: n[x].(depth := Sunk(w, x, i, below))
  }

  lemma PushFrontSteps<R>(w: World<R>, c: R, i: R)
    requires Forest(w) && c in w && i in w
    ensures var w1 := w[i := w[i].(parent := In(c))];
            var w2 := w1[c := w1[c].(items := [i] + w1[c].items)];
            PushFront(w, c, i) == Sinking(w, w2, i, w[c].depth)
  {
  }

  /** The entry that is replaced keeps its parent pointer until after the walk. */
  ghost function Supplanted<R>(w: World<R>, c: R, k: nat, i: R): World<R>
    requires Forest(w) && c in w && i in w && k < |w[c].items|
  {
    var w1 := w[c := w[c].(items := w[c].items[k := i])];
    Sinking(w, w1[i := w1[i].(parent := In(c))], i, w[c].depth)
  }

  lemma SupplantedAt<R>(w: World<R>, c: R, k: nat, i: R, x: R)
    requires Forest(w) && c in w && i in w && k < |w[c].items| && x in w
    ensures Supplanted(w, c, k, i)[x] ==
            w[x].(depth := Sunk(w, x, i, w[c].depth),
                  parent := if x == i then In(c) else w[x].parent,
                  items := if x == c then w[x].items[k := i] else w[x].items)
  {
  }

  lemma ExchangeSteps<R>(w: World<R>, c: R, k: nat, i: R)
    requires Forest(w) && c in w && i in w && k < |w[c].items| && w[c].items[k] in w && w[c].items[k] != i
    ensures var n, gone := Supplanted(w, c, k, i), w[c].items[k];
            Exchange(w, c, k, i) == n[gone := n[gone].(parent := Nowhere)]
            && forall x :: x in w && x != gone ==> n[x].parent == Exchange(w, c, k, i)[x].parent
  {
    var n, gone := Supplanted(w, c, k, i), w[c].items[k];
    var m, e := n[gone := n[gone].(parent := Nowhere)], Exchange(w, c, k, i);
    forall x | x in w
      ensures e[x] == m[x] && (x != gone ==> n[x].parent == e[x].parent)
    {
      SupplantedAt(w, c, k, i, x);
    }
    assert e.Keys == m.Keys;
  }

  // ----- the upward walk -----

  /** No item lies deeper than `floor`. */
  ghost predicate Bounded<R>(w: World<R>, floor: nat) {
    forall x :: x in w ==> w[x].depth <= floor
  }

  lemma {:induction false} FloorExists<R>(w: World<R>) returns (floor: nat)
    ensures Bounded(w, floor)
    decreases |w|
  {
    if w == map[] {
      floor := 0;
    } else {
      var x :| x in w;
      var v := w - {x};
      assert |w| == |v.Keys| + 1 by {
        assert w.Keys == v.Keys + {x};
      }
      floor := FloorExists(v);
      floor := if floor < w[x].depth then w[x].depth else floor;
      forall y | y in w
        ensures w[y].depth <= floor
      {
        assert y != x ==> y in v && v[y] == w[y];
      }
    }
  }

  lemma {:induction false} UnderUp<R>(w: World<R>, x: R, y: R)
    requires Forest(w) && x in w && Under(w, x, y)
    ensures y in w && w[y].depth <= w[x].depth
    ensures w[y].parent.In? ==> Under(w, x, w[y].parent.c)
    decreases w[x].depth
  {
    assert Linked(w, x);
    if x != y {
      UnderUp(w, w[x].parent.c, y);
    } else if w[x].parent.In? {
      assert Under(w, w[x].parent.c, w[x].parent.c);
    }
  }

  /** Cutting parent links never puts anything under anything. */
  lemma {:induction false} UnderCut<R>(w: World<R>, n: World<R>, x: R, y: R)
    requires Forest(w) && Forest(n) && n.Keys == w.Keys && x in w && Under(n, x, y)
    requires forall z :: z in w && n[z].parent.In? ==> n[z].parent == w[z].parent
    ensures Under(w, x, y)
    decreases n[x].depth
  {
    assert Linked(n, x);
    if x != y {
      UnderCut(w, n, n[x].parent.c, y);
    }
  }

  /** Nothing else is under an item that holds nothing. */
  lemma {:induction false} UnderLeaf<R>(w: World<R>, x: R, y: R)
    requires Forest(w) && x in w && y in w && x != y && w[y].items == []
    ensures !Under(w, x, y)
    decreases w[x].depth
  {
    assert Linked(w, x);
    if w[x].parent.In? {
      if w[x].parent.c != y {
        UnderLeaf(w, w[x].parent.c, y);
      }
    }
  }

  lemma RemovedForest<R>(w: World<R>, c: R, i: R, amount: nat)
    requires Forest(w) && c in w && i in w[c].items
    ensures i in w && i != c && w[i].parent == In(c)
    ensures Forest(Removed(w, c, i, amount))
  {
    assert Holds(w, c) && Linked(w, i);
    if w[i].typ.stackable && amount != w[i].count {
      RewriteForest(w, i, Reduced(w[i], amount));
    } else {
      TakeOutForest(w, c, IndexOf(w[c].items, i));
    }
  }

  lemma RemovedKeepsBounds<R>(w: World<R>, c: R, i: R, amount: nat)
    requires Forest(w) && Stacked(w) && Roomy(w) && c in w && i in w[c].items && i in w
    requires 1 <= amount && (w[i].typ.stackable ==> amount <= w[i].count)
    ensures Forest(Removed(w, c, i, amount)) && Stacked(Removed(w, c, i, amount)) && Roomy(Removed(w, c, i, amount))
  {
    RemovedForest(w, c, i, amount);
  }

  lemma BirthKeepsBounds<R>(w: World<R>, i: R, v: View<R>)
    requires Stacked(w) && Roomy(w) && i !in w && v.items == [] && v.cap < 0x1_0000
    requires v.typ.stackable ==> !v.box && 1 <= v.count <= MAX_STACK
    ensures Stacked(w[i := v]) && Roomy(w[i := v])
  {
  }

  lemma OutsideForest<R>(w: World<R>, i: R)
    requires Forest(w) && i in w && w[i].parent.Nowhere?
    ensures Forest(w[i := w[i].(parent := Outside)])
  {
    var n := w[i := w[i].(parent := Outside)];
    forall x | x in n
      ensures Linked(n, x) && Holds(n, x)
    {
      assert Linked(w, x) && Holds(w, x);
    }
  }

  // ----- adding a container to what is inside it -----

  /** In `n` the item `i` has `c` as its parent; everything else has the parent it has in `w`. */
  ghost predicate Hung<R>(w: World<R>, n: World<R>, c: R, i: R) {
    n.Keys == w.Keys && forall x :: x in w ==> n[x].parent == if x == i then In(c) else w[x].parent
  }

  lemma {:induction false} UnderStill<R>(w: World<R>, n: World<R>, c: R, i: R, x: R)
    requires Forest(w) && Forest(n) && Hung(w, n, c, i) && x in w && Under(w, x, i)
    ensures Under(n, x, i)
    decreases w[x].depth
  {
    assert Linked(w, x) && Linked(n, x);
    if x != i {
      UnderStill(w, n, c, i, w[x].parent.c);
    }
  }

  /** Whatever the lists and depths are like then: if `c` is inside `i`, or is `i`, the result is no forest. */
  lemma HungBelowItself<R>(w: World<R>, n: World<R>, c: R, i: R)
    requires Forest(w) && c in w && i in w && Under(w, c, i) && Hung(w, n, c, i)
    ensures !Forest(n)
  {
    if Forest(n) {
      assert Linked(n, i);
      UnderStill(w, n, c, i, c);
      UnderUp(n, c, i);
    }
  }

  /** Adding an item keeps the forest exactly if the container is not inside the item. */
  lemma AddKeepsForestIff<R>(w: World<R>, c: R, i: R)
    requires Forest(w) && c in w && i in w && w[c].box && !w[i].parent.In?
    ensures Forest(PushFront(w, c, i)) <==> !Under(w, c, i)
  {
    if Under(w, c, i) {
      HungBelowItself(w, PushFront(w, c, i), c, i);
    } else {
      PushFrontForest(w, c, i);
    }
  }

  // ----- the elementary changes, field by field -----

  /** An attribute is there, or not, as it was before. */
  predicate SameVal(a: Attrs, b: Attrs, k: nat) {
    (k in Vals(a) <==> k in Vals(b)) && (k in Vals(a) ==> Vals(a)[k] == Vals(b)[k])
  }

  /**
   What another type does to the decay of an item: one that decays starts anew, unless the old type
   had stopped the time; one that never decays loses its duration, and a state it has becomes stopping;
   otherwise duration and state stay.  The owner of a corpse goes, the time stamp stays.
   */
  lemma RestampIs(prev: ItemType, t: ItemType, a: Attrs)
    ensures var r := Restamp(prev, t, a);
            var anew := t.decayTime > 0 && (!prev.stopTime || 17 !in Vals(a));
            var never := t.decayTime == 0 && !t.stopTime && t.decayTo < 0;
            && 19 !in Vals(r) && SameVal(r, a, 23)
            && (forall k :: k !in {17, 18, 19} ==> SameVal(r, a, k))
            && (anew ==> 17 in Vals(r) && Vals(r)[17] == Number(1000 * t.decayTime) && 18 in Vals(r) && Vals(r)[18] == Number(2))
            && (never ==> 17 !in Vals(r) && (18 in Vals(r) <==> 18 in Vals(a)) && (18 in Vals(a) ==> Vals(r)[18] == Number(3)))
            && (!anew && !never ==> SameVal(r, a, 17) && SameVal(r, a, 18))
  {
  }

  /** An entry takes the place of another: the others stay where they are, and only the two have a new parent. */
  lemma ExchangeIs<R>(w: World<R>, c: R, k: nat, i: R)
    requires Forest(w) && c in w && i in w && k < |w[c].items| && w[c].items[k] in w && i != w[c].items[k]
    ensures var n, o := Exchange(w, c, k, i), w[c].items[k];
            && n.Keys == w.Keys && n[i].parent == In(c) && n[o].parent == Nowhere
            && |n[c].items| == |w[c].items| && n[c].items[k] == i
            && (forall j :: 0 <= j < |w[c].items| && j != k ==> n[c].items[j] == w[c].items[j])
            && (forall x :: x in w ==> n[x].typ == w[x].typ && n[x].count == w[x].count && n[x].attrs == w[x].attrs
                                       && (x != i && x != o ==> n[x].parent == w[x].parent) && (x != c ==> n[x].items == w[x].items))
  {
  }

  /** An entry is taken out whole: the others stay in their order. */
  predicate LeftOut<R(==)>(before: seq<R>, after: seq<R>, x: R) {
    exists k :: 0 <= k < |before| && before[k] == x && after == before[..k] + before[k+1..]
  }

  /** Removing pieces: a smaller stack in the same place, or one entry less; nothing else changes. */
  lemma RemovedIs<R>(w: World<R>, c: R, i: R, amount: nat)
    requires Forest(w) && c in w && i in w[c].items && i in w && amount <= w[i].count < 256
    ensures var n := Removed(w, c, i, amount);
            && n.Keys == w.Keys
            && (w[i].typ.stackable && amount < w[i].count ==> n == w[i := w[i].(count := w[i].count - amount)])
            && (!w[i].typ.stackable || amount == w[i].count ==>
                  && n[i] == w[i].(parent := Nowhere) && LeftOut(w[c].items, n[c].items, i)
                  && (forall x :: x in w && x != i && x != c ==> n[x] == w[x]))
  {
    assert Holds(w, c) && Linked(w, i);
    if !w[i].typ.stackable || amount == w[i].count {
      var k := IndexOf(w[c].items, i);
      assert Removed(w, c, i, amount)[c].items == w[c].items[..k] + w[c].items[k+1..];
    }
  }
}
