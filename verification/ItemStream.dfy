/**
 Whole items as bytes: `saveItem` writes an item with everything in it, `loadItem` rebuilds it.
 Items are values here; the streams are objects.
 */
module ItemStream {
  import opened Arithmetic
  import opened Streams
  import opened ItemTree
  import opened AttrCodec
  import opened Seals

  datatype Thing = Thing(id: nat, state: State, kids: seq<Thing>)

  /** The item table, the clock, and the order in which the hash tables of custom attributes are walked. */
  datatype Env = Env(kinds: nat -> Kind, now: int, keys: map<seq<Byte>, Custom> -> seq<seq<Byte>>)

  /** An item as its constructor leaves it, for the count `CreateItem` passes. */
  function NewState(t: Kind): State {
    var a :=
      if t.fluid then State(1, map[FLUID_TYPE := Number(0)], map[])
      else if t.stackable then State(1, map[], map[])
      else if t.charges != 0 then State(1, map[CHARGES := Number(Cast(t.charges, 2))], map[])
      else State(1, map[], map[]);
    var duration := Cast(t.decayTime * 1000, 4);
    if duration == 0 then a
    else WithInt(a, DURATION, if Signed(duration, 4) < 0 then 0 else Signed(duration, 4))
  }

  // ----- saving -----

  /** What can be saved faithfully of one item, sealed. */
  ghost predicate SavableHere(e: Env, x: Thing)
    requires AreFields(ORDER)
  {
    forall i {:trigger Unsealed(OfSaves, i)} :: Unsealed(OfSaves, i) ==>
      && x.id < Span(2) && Persistable(e.kinds(x.id), x.state, e.now) && Enumerates(e.keys(x.state.customs), x.state.customs)
      && (!e.kinds(x.id).container ==> x.kids == []) && |x.kids| < Span(4)
  }

  /** What can be saved faithfully, all the way down. */
  ghost predicate Savable(e: Env, x: Thing)
    requires AreFields(ORDER)
    decreases x
  {
    SavableHere(e, x) && forall k :: 0 <= k < |x.kids| ==> Savable(e, x.kids[k])
  }

  /** The hash tables can be walked. */
  ghost predicate Walkable(e: Env, x: Thing)
    decreases x
  {
    Enumerates(e.keys(x.state.customs), x.state.customs) && forall k :: 0 <= k < |x.kids| ==> Walkable(e, x.kids[k])
  }

  /** The bytes of an item: its id, its attributes, for a container its entries from the last to the first, and a zero. */
  ghost function ItemBytes(e: Env, x: Thing): seq<Byte>
    requires Walkable(e, x)
    decreases x, 1, 0
  {
    var t := e.kinds(x.id);
    Le(Cast(x.id, 2), 2) + Serialized(t, x.state, e.now, e.keys(x.state.customs))
    + (if t.container then [ITEMS_TAG] + Le(Cast(|x.kids|, 4), 4) + KidsBytes(e, x, |x.kids|) else []) + [0]
  }

  ghost function KidsBytes(e: Env, x: Thing, k: nat): seq<Byte>
    requires Walkable(e, x) && k <= |x.kids|
    decreases x, 0, k
  {
    if k == 0 then [] else ItemBytes(e, x.kids[k-1]) + KidsBytes(e, x, k - 1)
  }

  // ----- loading -----

  datatype Loaded<+T> = Bad | Done(value: T, rest: seq<Byte>)

  function ItemLoaded(kinds: nat -> Kind, b: seq<Byte>): (r: Loaded<Thing>)
    ensures r.Done? ==> |r.rest| < |b|
    decreases |b|, 0, 0
  {
    match TakeNumber(b, 2)
    case Short => Bad
    case Got(id, b1) =>
      match Unserialized(kinds(id), NewState(kinds(id)), b1)
      case Failed(_) => Bad
      case Go(a, b2) =>
        UnserializedShrinks(kinds(id), NewState(kinds(id)), b1);
        if kinds(id).container then Owned(id, a, KidsLoaded(kinds, 0, b2, [])) else Done(Thing(id, a, []), b2)
      case Contents(a, n, b2) =>
        UnserializedShrinks(kinds(id), NewState(kinds(id)), b1);
        Owned(id, a, KidsLoaded(kinds, n, b2, []))
  }

  function Owned(id: nat, a: State, kids: Loaded<seq<Thing>>): Loaded<Thing> {
    match kids case Bad => Bad case Done(s, rest) => Done(Thing(id, a, s), rest)
  }

  /** `loadContainer`: every entry goes to the front; a zero byte must follow the last one. */
  function KidsLoaded(kinds: nat -> Kind, n: nat, b: seq<Byte>, acc: seq<Thing>): (r: Loaded<seq<Thing>>)
    ensures r.Done? ==> |r.rest| <= |b|
    decreases |b|, 1, n
  {
    if n == 0 then
      match TakeNumber(b, 1)
      case Short => Bad
      case Got(end, rest) => if end == 0 then Done(acc, rest) else Bad
    else
      match ItemLoaded(kinds, b)
      case Bad => Bad
      case Done(x, rest) => KidsLoaded(kinds, n - 1, rest, [x] + acc)
  }

  lemma {:induction false} UnserializedShrinks(t: Kind, a: State, b: seq<Byte>)
    ensures var r := Unserialized(t, a, b); !r.Failed? ==> |r.rest| <= |b|
    ensures Unserialized(t, a, b).Contents? ==> t.container
    decreases |b|
  {
    if b != [] && b[0] != 0 {
      var r := AttrRead(t, a, b[0], b[1..]);
      if r.Go? {
        UnserializedShrinks(t, r.a, r.rest);
      }
    }
  }

  // ----- the round trip -----

  /** The item that comes back: new, with what was saved put over it, and with the same entries in the same order. */
  ghost function Back(e: Env, x: Thing): Thing
    requires AreFields(ORDER)
    decreases x, 1, 0
  {
    Thing(x.id, Overlaid(e.kinds(x.id), x.state, e.now, NewState(e.kinds(x.id))), BackKids(e, x, |x.kids|))
  }

  ghost function BackKids(e: Env, x: Thing, k: nat): (r: seq<Thing>)
    requires AreFields(ORDER) && k <= |x.kids|
    ensures |r| == k
    decreases x, 0, k
  {
    if k == 0 then [] else BackKids(e, x, k - 1) + [Back(e, x.kids[k-1])]
  }

  lemma {:induction false} BackKidsAt(e: Env, x: Thing, k: nat, i: nat)
    requires AreFields(ORDER) && i < k <= |x.kids|
    ensures BackKids(e, x, k)[i] == Back(e, x.kids[i])
  {
    if i < k - 1 {
      BackKidsAt(e, x, k - 1, i);
    }
  }

  lemma {:induction false} SavableIsWalkable(e: Env, x: Thing)
    requires AreFields(ORDER) && Savable(e, x)
    ensures Walkable(e, x)
    decreases x
  {
    assert Unsealed(OfSaves, 0);
    forall k | 0 <= k < |x.kids|
      ensures Walkable(e, x.kids[k])
    {
      SavableIsWalkable(e, x.kids[k]);
    }
  }

  /** Everything up to the entries, or to the final zero byte, is read back. */
  lemma HeadBack(e: Env, x: Thing, tail: seq<Byte>)
    requires AreFields(ORDER) && Savable(e, x) && Walkable(e, x)
    ensures var t := e.kinds(x.id);
            var b := Le(Cast(x.id, 2), 2) + Serialized(t, x.state, e.now, e.keys(x.state.customs)) + tail;
            TakeNumber(b, 2).Got? && TakeNumber(b, 2).value == x.id
            && Unserialized(t, NewState(t), TakeNumber(b, 2).rest) == Unserialized(t, Overlaid(t, x.state, e.now, NewState(t)), tail)
  {
    assert Unsealed(OfSaves, 0);
    var t := e.kinds(x.id);
    var s := Serialized(t, x.state, e.now, e.keys(x.state.customs));
    Regroup(Le(Cast(x.id, 2), 2), s, tail);
    ModUnique(x.id, Span(2));
    NumberBack(x.id, 2, s + tail);
    AttributesBack(t, x.state, e.now, e.keys(x.state.customs), NewState(t), tail);
  }

  lemma ContentsBack(t: Kind, a: State, n: nat, tail: seq<Byte>)
    requires t.container && n < Span(4)
    ensures Unserialized(t, a, [ITEMS_TAG] + Le(Cast(n, 4), 4) + tail) == Contents(a, n, tail)
  {
    TagReads(t, a, ITEMS_TAG, Le(Cast(n, 4), 4), tail);
    ModUnique(n, Span(4));
    NumberBack(n, 4, tail);
  }

  lemma ZeroEnds(t: Kind, a: State, rest: seq<Byte>)
    ensures Unserialized(t, a, [0] + rest) == Go(a, rest)
  {
    assert ([0] + rest)[1..] == rest;
  }

  lemma ZeroByte(rest: seq<Byte>)
    ensures TakeNumber([0] + rest, 1) == Got(0, rest)
  {
    assert ([0] + rest)[1..] == rest && ([0] + rest)[..1] == [0];
    assert Un([0]) == 0 + 256 * Un([]);
  }

  lemma ItemStep(kinds: nat -> Kind, b: seq<Byte>, id: nat, b1: seq<Byte>)
    requires TakeNumber(b, 2) == Got(id, b1)
    ensures match Unserialized(kinds(id), NewState(kinds(id)), b1)
            case Failed(_) => true
            case Go(a, b2) => !kinds(id).container ==> ItemLoaded(kinds, b) == Done(Thing(id, a, []), b2)
            case Contents(a, n, b2) => ItemLoaded(kinds, b) == Owned(id, a, KidsLoaded(kinds, n, b2, []))
  {
  }

  lemma KidStep(kinds: nat -> Kind, n: nat, b: seq<Byte>, acc: seq<Thing>, x: Thing, rest: seq<Byte>)
    requires n > 0 && ItemLoaded(kinds, b) == Done(x, rest)
    ensures KidsLoaded(kinds, n, b, acc) == KidsLoaded(kinds, n - 1, rest, [x] + acc)
  {
  }

  /** Loading an item gives this, sealed. */
  ghost predicate ItemGives(kinds: nat -> Kind, b: seq<Byte>, x: Thing, rest: seq<Byte>) {
    forall i {:trigger Unsealed(OfLoads, i)} :: Unsealed(OfLoads, i) ==> ItemLoaded(kinds, b) == Done(x, rest)
  }

  /** Loading the entries of a container gives this, sealed. */
  ghost predicate KidsGive(kinds: nat -> Kind, n: nat, b: seq<Byte>, acc: seq<Thing>, kids: seq<Thing>, rest: seq<Byte>) {
    forall i {:trigger Unsealed(OfLoads, i)} :: Unsealed(OfLoads, i) ==> KidsLoaded(kinds, n, b, acc) == Done(kids, rest)
  }

  /** A container whose entries are read back is read back. */
  lemma BoxBack(e: Env, x: Thing, rest: seq<Byte>, kids: seq<Byte>, s: seq<Thing>) returns (b: seq<Byte>, y: Thing)
    requires AreFields(ORDER) && Savable(e, x) && Walkable(e, x) && e.kinds(x.id).container
    requires kids == KidsBytes(e, x, |x.kids|) + ([0] + rest) && s == BackKids(e, x, |x.kids|) + []
    requires KidsGive(e.kinds, |x.kids|, kids, [], s, rest)
    ensures b == ItemBytes(e, x) + rest && y == Back(e, x) && ItemGives(e.kinds, b, y, rest)
  {
    assert Unsealed(OfLoads, 0) && Unsealed(OfSaves, 0);
    b, y := ItemBytes(e, x) + rest, Back(e, x);
    var t := e.kinds(x.id);
    var a := Overlaid(t, x.state, e.now, NewState(t));
    var h := Le(Cast(x.id, 2), 2) + Serialized(t, x.state, e.now, e.keys(x.state.customs));
    var m := [ITEMS_TAG] + Le(Cast(|x.kids|, 4), 4);
    Five(h, m, KidsBytes(e, x, |x.kids|), rest);
    HeadBack(e, x, m + kids);
    ContentsBack(t, a, |x.kids|, kids);
    ItemStep(e.kinds, h + (m + kids), x.id, TakeNumber(h + (m + kids), 2).rest);
    assert BackKids(e, x, |x.kids|) + [] == BackKids(e, x, |x.kids|);
  }

  lemma LeafBack(e: Env, x: Thing, rest: seq<Byte>) returns (b: seq<Byte>, y: Thing)
    requires AreFields(ORDER) && Savable(e, x) && Walkable(e, x) && !e.kinds(x.id).container
    ensures b == ItemBytes(e, x) + rest && y == Back(e, x) && ItemGives(e.kinds, b, y, rest)
  {
    assert Unsealed(OfSaves, 0);
    b, y := ItemBytes(e, x) + rest, Back(e, x);
    var t := e.kinds(x.id);
    var h := Le(Cast(x.id, 2), 2) + Serialized(t, x.state, e.now, e.keys(x.state.customs));
    assert h + [] + [0] + rest == h + ([0] + rest);
    HeadBack(e, x, [0] + rest);
    ZeroEnds(t, Overlaid(t, x.state, e.now, NewState(t)), rest);
    ItemStep(e.kinds, h + ([0] + rest), x.id, TakeNumber(h + ([0] + rest), 2).rest);
  }

  lemma Five(h: seq<Byte>, m: seq<Byte>, kids: seq<Byte>, rest: seq<Byte>)
    ensures h + (m + kids) + [0] + rest == h + (m + (kids + ([0] + rest)))
  {
  }

  lemma KidsBytesStep(e: Env, x: Thing, k: nat, tail: seq<Byte>)
    requires Walkable(e, x) && 0 < k <= |x.kids|
    ensures KidsBytes(e, x, k) + tail == ItemBytes(e, x.kids[k-1]) + (KidsBytes(e, x, k - 1) + tail)
  {
    Regroup(ItemBytes(e, x.kids[k-1]), KidsBytes(e, x, k - 1), tail);
  }

  lemma BackKidsStep(e: Env, x: Thing, k: nat, acc: seq<Thing>)
    requires AreFields(ORDER) && 0 < k <= |x.kids|
    ensures BackKids(e, x, k - 1) + ([Back(e, x.kids[k-1])] + acc) == BackKids(e, x, k) + acc
  {
  }

  lemma KidsEnd(kinds: nat -> Kind, acc: seq<Thing>, rest: seq<Byte>)
    ensures KidsLoaded(kinds, 0, [] + ([0] + rest), acc) == Done([] + acc, rest)
  {
    assert [] + ([0] + rest) == [0] + rest && [] + acc == acc;
    ZeroByte(rest);
  }

  lemma KidsBackStep(e: Env, x: Thing, k: nat, acc: seq<Thing>, rest: seq<Byte>, y: Thing,
                     z: seq<Byte>, s: seq<Thing>, b0: seq<Byte>) returns (b: seq<Byte>, s1: seq<Thing>)
    requires AreFields(ORDER) && Walkable(e, x) && 0 < k <= |x.kids|
    requires y == Back(e, x.kids[k-1]) && z == KidsBytes(e, x, k - 1) + ([0] + rest)
    requires s == BackKids(e, x, k - 1) + ([y] + acc) && b0 == ItemBytes(e, x.kids[k-1]) + z
    requires ItemGives(e.kinds, b0, y, z) && KidsGive(e.kinds, k - 1, z, [y] + acc, s, rest)
    ensures b == KidsBytes(e, x, k) + ([0] + rest) && s1 == BackKids(e, x, k) + acc
    ensures KidsGive(e.kinds, k, b, acc, s1, rest)
  {
    assert Unsealed(OfLoads, 0);
    b, s1 := KidsBytes(e, x, k) + ([0] + rest), BackKids(e, x, k) + acc;
    KidsBytesStep(e, x, k, [0] + rest);
    KidStep(e.kinds, k, b0, acc, y, z);
    BackKidsStep(e, x, k, acc);
  }

  lemma KidsNone(e: Env, x: Thing, acc: seq<Thing>, rest: seq<Byte>) returns (b: seq<Byte>, s: seq<Thing>)
    requires AreFields(ORDER) && Walkable(e, x)
    ensures b == KidsBytes(e, x, 0) + ([0] + rest) && s == BackKids(e, x, 0) + acc && KidsGive(e.kinds, 0, b, acc, s, rest)
  {
    b, s := [] + ([0] + rest), [] + acc;
    KidsEnd(e.kinds, acc, rest);
  }

  /** Written from the last to the first and each put to the front, the entries are in their old order. */
  lemma {:induction false} KidsBack(e: Env, x: Thing, k: nat, acc: seq<Thing>, rest: seq<Byte>)
    returns (b: seq<Byte>, s: seq<Thing>)
    requires AreFields(ORDER) && Savable(e, x) && Walkable(e, x) && k <= |x.kids|
    ensures b == KidsBytes(e, x, k) + ([0] + rest) && s == BackKids(e, x, k) + acc && KidsGive(e.kinds, k, b, acc, s, rest)
    decreases x, 0, k, 1
  {
    if k == 0 {
      b, s := KidsNone(e, x, acc, rest);
    } else {
      b, s := MoreKidsBack(e, x, k, acc, rest);
    }
  }

  lemma {:induction false} MoreKidsBack(e: Env, x: Thing, k: nat, acc: seq<Thing>, rest: seq<Byte>)
    returns (b: seq<Byte>, s: seq<Thing>)
    requires AreFields(ORDER) && Savable(e, x) && Walkable(e, x) && 0 < k <= |x.kids|
    ensures b == KidsBytes(e, x, k) + ([0] + rest) && s == BackKids(e, x, k) + acc && KidsGive(e.kinds, k, b, acc, s, rest)
    decreases x, 0, k, 0
  {
    var z := KidsBytes(e, x, k - 1) + ([0] + rest);
    var b0, y := ItemBackSealed(e, x.kids[k-1], z);
    b, s := KidsBack(e, x, k - 1, [y] + acc, rest);
    b, s := KidsBackStep(e, x, k, acc, rest, y, b, s, b0);
  }

  lemma {:induction false} ItemBackSealed(e: Env, x: Thing, rest: seq<Byte>) returns (b: seq<Byte>, y: Thing)
    requires AreFields(ORDER) && Savable(e, x) && Walkable(e, x)
    ensures b == ItemBytes(e, x) + rest && y == Back(e, x) && ItemGives(e.kinds, b, y, rest)
    decreases x, 1, 0, 0
  {
    if e.kinds(x.id).container {
      var kids, s := KidsBack(e, x, |x.kids|, [], rest);
      b, y := BoxBack(e, x, rest, kids, s);
    } else {
      b, y := LeafBack(e, x, rest);
    }
  }

  /** `loadItem` on what `saveItem` has written, whatever follows: the item is back and exactly what follows is left. */
  lemma ItemBack(e: Env, x: Thing, rest: seq<Byte>)
    requires AreFields(ORDER) && Savable(e, x)
    ensures Walkable(e, x)
    ensures ItemLoaded(e.kinds, ItemBytes(e, x) + rest) == Done(Back(e, x), rest)
  {
    SavableIsWalkable(e, x);
    var b, y := ItemBackSealed(e, x, rest);
    assert Unsealed(OfLoads, 0);
  }

  // ----- when what comes back is what was there -----

  /** What belongs to decay: a decaying item comes back as one that is to decay. */
  predicate OfDecay(k: nat) {
    k == DURATION || k == DECAY_STATE || k == TIMESTAMP
  }

  /** The same but for decay. */
  ghost predicate Alike(a: State, b: State) {
    a.count == b.count && a.customs == b.customs && forall k: nat {:trigger Agree(a, b, k)} :: !OfDecay(k) ==> Agree(a, b, k)
  }

  /** One of the attributes that are written if they are there, and it is there. */
  ghost predicate Written(t: Kind, a: State, now: int, k: nat) {
    exists tag :: tag in ORDER && FieldOf(tag).Field? && FieldOf(tag).attr == k && Due(t, a, now, tag)
  }

  /** What a caller can check about an attribute before saving: it is saved, or no different in a new item. */
  ghost predicate Comes(t: Kind, a: State, now: int, k: nat) {
    if k == FLUID_TYPE && t.fluid then k in a.vals && a.vals[k].Number?
    else if k == CHARGES && !t.fluid && Cast(IntOf(a, CHARGES), 2) != 0 then true
    else Written(t, a, now, k) || Agree(NewState(t), a, k)
  }

  lemma WrittenComes(t: Kind, a: State, now: int, k: nat)
    requires AreFields(ORDER) && Regular(a) && Written(t, a, now, k) && !OfDecay(k)
    ensures var m := KeptVals(t, a, now, ORDER); k in m && k in a.vals && m[k] == a.vals[k]
  {
    var tag :| tag in ORDER && FieldOf(tag).Field? && FieldOf(tag).attr == k && Due(t, a, now, tag);
    var i :| 0 <= i < |ORDER| && ORDER[i] == tag;
    OrderDiffers();
    KeptAt(t, a, now, ORDER, i);
    DueIsThere(t, a, now, tag);
  }

  lemma UnwrittenStays(t: Kind, a: State, now: int, k: nat)
    requires AreFields(ORDER) && !Written(t, a, now, k)
    ensures k !in KeptVals(t, a, now, ORDER)
  {
    OrderDiffers();
    if i :| 0 <= i < |ORDER| && FieldOf(ORDER[i]).attr == k {
      KeptAt(t, a, now, ORDER, i);
    } else {
      KeptElsewhere(t, a, now, ORDER, k);
    }
  }

  lemma NumbersUnwritten(t: Kind, a: State, now: int, k: nat)
    requires k == FLUID_TYPE || k == CHARGES
    ensures !Written(t, a, now, k)
  {
    OrderDiffers();
  }

  /** What is put over a new item: the saved attributes are `m`. */
  lemma OverlaidIs(t: Kind, a: State, now: int, d: State) returns (o: State, m: map<nat, Value>)
    requires AreFields(ORDER)
    ensures o == Overlaid(t, a, now, d) && m == KeptVals(t, a, now, ORDER)
    ensures o.vals == d.vals + (CountVals(t, a) + m)
  {
    m := KeptVals(t, a, now, ORDER);
    o := Overlaid(t, a, now, d);
  }

  lemma OneAgrees(t: Kind, a: State, d: State, o: State, m: map<nat, Value>, k: nat, written: bool)
    requires o.vals == d.vals + (CountVals(t, a) + m)
    requires k == FLUID_TYPE || k == CHARGES ==> !written
    requires if written then k in m && k in a.vals && m[k] == a.vals[k] else k !in m
    ensures Agree(o, a, k) <==>
            if k == FLUID_TYPE && t.fluid then k in a.vals && a.vals[k].Number?
            else if k == CHARGES && !t.fluid && Cast(IntOf(a, CHARGES), 2) != 0 then true
            else written || Agree(d, a, k)
  {
    if k == CHARGES && Cast(IntOf(a, CHARGES), 2) != 0 {
      ModUnique(0, Span(2));
    }
  }

  lemma AgreesIff(t: Kind, a: State, now: int, k: nat, o: State)
    requires AreFields(ORDER) && Regular(a) && !OfDecay(k) && o == Overlaid(t, a, now, NewState(t))
    ensures Agree(o, a, k) <==> Comes(t, a, now, k)
  {
    var n, m := OverlaidIs(t, a, now, NewState(t));
    if k == FLUID_TYPE || k == CHARGES {
      NumbersUnwritten(t, a, now, k);
    }
    if Written(t, a, now, k) {
      WrittenComes(t, a, now, k);
    } else {
      UnwrittenStays(t, a, now, k);
    }
    OneAgrees(t, a, NewState(t), o, m, k, Written(t, a, now, k));
  }

  /** Everything about the item is saved, or no different in a new item. */
  ghost predicate AllComes(t: Kind, a: State, now: int) {
    (!t.stackable || t.fluid ==> a.count == 1) && forall k: nat {:trigger Comes(t, a, now, k)} :: !OfDecay(k) ==> Comes(t, a, now, k)
  }

  /** An item whose attributes fit comes back as it was, but for decay, exactly if all of it is saved or no different in a new item. */
  lemma AlikeIff(t: Kind, a: State, now: int, o: State)
    requires AreFields(ORDER) && Regular(a) && o == Overlaid(t, a, now, NewState(t))
    ensures Alike(o, a) <==> AllComes(t, a, now)
  {
    forall k: nat | !OfDecay(k)
      ensures Agree(o, a, k) <==> Comes(t, a, now, k)
    {
      AgreesIff(t, a, now, k, o);
    }
    CountAndCustoms(t, a, now, NewState(t), o);
  }

  lemma CountAndCustoms(t: Kind, a: State, now: int, d: State, o: State)
    requires AreFields(ORDER) && d == NewState(t) && o == Overlaid(t, a, now, d)
    ensures o.count == (if t.stackable && !t.fluid then a.count else 1) && o.customs == a.customs
  {
  }

  /** The same but for decay, all the way down. */
  ghost predicate SameThing(y: Thing, x: Thing)
    decreases x
  {
    && y.id == x.id && Alike(y.state, x.state)
    && |y.kids| == |x.kids| && forall k :: 0 <= k < |x.kids| ==> SameThing(y.kids[k], x.kids[k])
  }

  ghost predicate Complete(e: Env, x: Thing)
    decreases x
  {
    AllComes(e.kinds(x.id), x.state, e.now) && forall k :: 0 <= k < |x.kids| ==> Complete(e, x.kids[k])
  }

  lemma RegularHere(e: Env, x: Thing)
    requires AreFields(ORDER) && Savable(e, x)
    ensures Regular(x.state)
  {
    assert Unsealed(OfSaves, 0);
  }

  /** Saving and loading is the identity, but for decay, exactly on the items of which everything is saved, all the way down. */
  lemma {:induction false} BackIsSameIff(e: Env, x: Thing)
    requires AreFields(ORDER) && Savable(e, x)
    ensures SameThing(Back(e, x), x) <==> Complete(e, x)
    decreases x
  {
    RegularHere(e, x);
    AlikeIff(e.kinds(x.id), x.state, e.now, Back(e, x).state);
    forall k | 0 <= k < |x.kids|
      ensures SameThing(Back(e, x).kids[k], x.kids[k]) <==> Complete(e, x.kids[k])
    {
      BackKidsAt(e, x, |x.kids|, k);
      BackIsSameIff(e, x.kids[k]);
    }
  }

  /** Loading the bytes of an item gives the same item, but for decay, exactly if all of it is saved. */
  lemma SameAgainIff(e: Env, x: Thing, rest: seq<Byte>)
    requires AreFields(ORDER) && Savable(e, x)
    ensures Walkable(e, x)
    ensures var r := ItemLoaded(e.kinds, ItemBytes(e, x) + rest);
            r.Done? && r.rest == rest && (SameThing(r.value, x) <==> Complete(e, x))
  {
    ItemBack(e, x, rest);
    BackIsSameIff(e, x);
  }

  // ----- the bytes and the new item, written out -----

  /** A new item: one piece; a fluid container is empty; charges and duration are those of the type. */
  lemma NewIs(t: Kind)
    requires t.charges < 0x1_0000 && 1000 * t.decayTime < 0x8000_0000
    ensures var n := NewState(t);
            && n.count == 1 && n.customs == map[]
            && (forall k :: k in n.vals <==> (k == 21 && t.fluid) || (k == 20 && !t.fluid && !t.stackable && t.charges > 0)
                                             || (k == 17 && t.decayTime > 0))
            && (21 in n.vals ==> n.vals[21] == Number(0)) && (20 in n.vals ==> n.vals[20] == Number(t.charges))
            && (17 in n.vals ==> n.vals[17] == Number(1000 * t.decayTime))
  {
    Spans();
  }

  /** An item is its id in two bytes, the lower one first, its attributes, and a zero. */
  lemma PlainItemBytes(e: Env, x: Thing, id: seq<Byte>)
    requires Walkable(e, x) && !e.kinds(x.id).container && x.id < 0x1_0000 && id == [x.id % 256, x.id / 256]
    ensures ItemBytes(e, x) == id + Serialized(e.kinds(x.id), x.state, e.now, e.keys(x.state.customs)) + [0]
  {
    IdBytes(x.id);
    var a := id + Serialized(e.kinds(x.id), x.state, e.now, e.keys(x.state.customs));
    assert a + [] == a;
  }

  lemma IdBytes(n: nat)
    requires n < 0x1_0000
    ensures Le(Cast(n, 2), 2) == [n % 256, n / 256]
  {
    Spans();
    assert Le(n / 256, 1) == [n / 256] + Le(n / 256 / 256, 0);
  }

  lemma CountIs(n: nat)
    requires n < 0x1_0000_0000
    ensures Cast(n, 4) == n
  {
    Spans();
  }

  /** A container has the tag 23, the number of its entries in four bytes, and the entries in front of the zero. */
  lemma ContainerBytes(e: Env, x: Thing, id: seq<Byte>, middle: seq<Byte>)
    requires Walkable(e, x) && e.kinds(x.id).container && x.id < 0x1_0000 && |x.kids| < 0x1_0000_0000
    requires id == [x.id % 256, x.id / 256] && middle == [23] + Le(|x.kids|, 4) + KidsBytes(e, x, |x.kids|)
    ensures ItemBytes(e, x) == id + Serialized(e.kinds(x.id), x.state, e.now, e.keys(x.state.customs)) + middle + [0]
  {
    IdBytes(x.id);
    CountIs(|x.kids|);
  }

  /** The entries follow each other, the last one first. */
  lemma KidsBytesAre(e: Env, x: Thing, k: nat)
    requires Walkable(e, x) && k < |x.kids|
    ensures KidsBytes(e, x, k + 1) == ItemBytes(e, x.kids[k]) + KidsBytes(e, x, k) && KidsBytes(e, x, 0) == []
  {
  }
}
