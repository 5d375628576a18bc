/**
 Counting what a world holds: pieces of one kind, or gold.  Items without a parent are
 not in the world any more (or not yet) and count for nothing.
 */
module Census {
  import opened ItemTree

  const GOLD_COIN: nat := 2148
  const PLATINUM_COIN: nat := 2152
  const CRYSTAL_COIN: nat := 2160
  const GOLD_INGOT: nat := 9971

  /** `Item::getWorth` */
  function Worth(id: nat, count: nat): nat {
    if id == GOLD_COIN then count
    else if id == PLATINUM_COIN then count * 100
    else if id == CRYSTAL_COIN then count * 10000
    else if id == GOLD_INGOT then count * 1000000
    else 0
  }

  /** What is being counted. */
  datatype Measure = Pieces(key: Key) | Gold

  /** What one stack counts for, wherever it is. */
  function Bulk<R>(v: View<R>, m: Measure): nat {
    match m
    case Pieces(key) => if KeyOf(v) == key then v.count else 0
    case Gold => if v.box then 0 else Worth(v.typ.id, v.count)
  }

  function Amount<R>(v: View<R>, m: Measure): nat {
    if v.parent.Nowhere? then 0 else Bulk(v, m)
  }

  ghost function SumOf<R>(a: map<R, nat>): nat {
    if a == map[] then 0 else
      var x :| x in a;
      a[x] + SumOf(a - {x})
  }

  ghost function Amounts<R>(w: World<R>, m: Measure): map<R, nat> {
    map x | x in w :: Amount(w[x], m)
  }

  /** Everything the world holds, by one measure. */
  ghost function Total<R>(w: World<R>, m: Measure): nat {
    SumOf(Amounts(w, m))
  }

  lemma {:induction false} SumOfAny<R>(a: map<R, nat>, x: R)
    requires x in a
    ensures SumOf(a) == a[x] + SumOf(a - {x})
  {
    var y :| y in a && SumOf(a) == a[y] + SumOf(a - {y});
    if y != x {
      SumOfAny(a - {y}, x);
      SumOfAny(a - {x}, y);
      assert a - {y} - {x} == a - {x} - {y};
    }
  }

  /** If one item alone is affected, the total moves by its own amount alone. */
  lemma TotalChange<R>(w: World<R>, n: World<R>, i: R, m: Measure)
    requires n.Keys == w.Keys && i in w
    requires forall x :: x in w && x != i ==> Amount(n[x], m) == Amount(w[x], m)
    ensures Total(n, m) + Amount(w[i], m) == Total(w, m) + Amount(n[i], m)
  {
    var a, b := Amounts(w, m), Amounts(n, m);
    SumOfAny(a, i);
    SumOfAny(b, i);
    assert a - {i} == b - {i};
  }

  lemma TotalBirth<R>(w: World<R>, i: R, v: View<R>, m: Measure)
    requires i !in w && v.parent.Nowhere?
    ensures Total(w[i := v], m) == Total(w, m)
  {
    var a, b := Amounts(w, m), Amounts(w[i := v], m);
    SumOfAny(b, i);
    assert b - {i} == a;
  }

  lemma TotalPushFront<R>(w: World<R>, c: R, i: R, m: Measure)
    requires Forest(w) && c in w && i in w && w[i].parent.Nowhere?
    ensures Total(PushFront(w, c, i), m) == Total(w, m) + Bulk(w[i], m)
  {
    TotalChange(w, PushFront(w, c, i), i, m);
  }

  lemma TotalTakeOut<R>(w: World<R>, c: R, k: nat, m: Measure)
    requires Forest(w) && c in w && k < |w[c].items|
    ensures w[c].items[k] in w
    ensures Total(TakeOut(w, c, k), m) + Bulk(w[w[c].items[k]], m) == Total(w, m)
  {
    TakeOutForest(w, c, k);
    TotalChange(w, TakeOut(w, c, k), w[c].items[k], m);
  }

  lemma TotalRewrite<R>(w: World<R>, i: R, v: View<R>, m: Measure)
    requires i in w && v.parent == w[i].parent
    ensures Total(w[i := v], m) + Amount(w[i], m) == Total(w, m) + Amount(v, m)
  {
    TotalChange(w, w[i := v], i, m);
  }

  // ----- what one container holds directly -----

  ghost function HeldIn<R>(w: World<R>, s: seq<R>, m: Measure): nat {
    if s == [] then 0 else (if s[0] in w then Bulk(w[s[0]], m) else 0) + HeldIn(w, s[1..], m)
  }

  ghost function Held<R>(w: World<R>, c: R, m: Measure): nat
    requires c in w
  {
    HeldIn(w, w[c].items, m)
  }

  lemma {:induction false} HeldFrame<R>(w: World<R>, n: World<R>, s: seq<R>, m: Measure)
    requires forall x :: x in s ==> x in w && x in n && Bulk(w[x], m) == Bulk(n[x], m)
    ensures HeldIn(n, s, m) == HeldIn(w, s, m)
  {
    if s != [] {
      HeldFrame(w, n, s[1..], m);
    }
  }

  lemma {:induction false} HeldAt<R>(w: World<R>, s: seq<R>, k: nat, m: Measure)
    requires k < |s| && s[k] in w
    ensures HeldIn(w, s, m) == HeldIn(w, Without(s, k), m) + Bulk(w[s[k]], m)
  {
    if k == 0 {
      assert Without(s, k) == s[1..];
    } else {
      HeldAt(w, s[1..], k - 1, m);
      assert Without(s, k) == [s[0]] + Without(s[1..], k - 1);
    }
  }

  lemma HeldPushFront<R>(w: World<R>, c: R, i: R, x: R, m: Measure)
    requires Forest(w) && c in w && i in w && x in w
    ensures Held(PushFront(w, c, i), x, m) == Held(w, x, m) + if x == c then Bulk(w[i], m) else 0
  {
    var n := PushFront(w, c, i);
    assert Holds(w, x);
    assert forall y :: y in w ==> Bulk(n[y], m) == Bulk(w[y], m);
    HeldFrame(w, n, w[x].items, m);
    if x == c {
      assert n[c].items[1..] == w[c].items;
    }
  }

  lemma HeldTakeOut<R>(w: World<R>, c: R, k: nat, x: R, m: Measure)
    requires Forest(w) && c in w && k < |w[c].items| && x in w && w[c].items[k] in w
    ensures Held(TakeOut(w, c, k), x, m) + (if x == c then Bulk(w[w[c].items[k]], m) else 0) == Held(w, x, m)
  {
    var n := TakeOut(w, c, k);
    TakeOutForest(w, c, k);
    assert Holds(w, x) && Holds(n, x);
    assert forall y :: y in w ==> Bulk(n[y], m) == Bulk(w[y], m);
    HeldFrame(w, n, n[x].items, m);
    if x == c {
      HeldAt(w, w[c].items, k, m);
    }
  }

  lemma HeldRewrite<R>(w: World<R>, c: R, i: R, v: View<R>, x: R, m: Measure)
    requires Forest(w) && i in w && w[i].parent == In(c) && SamePlace(w[i], v) && x in w
    ensures Held(w[i := v], x, m) + (if x == c then Bulk(w[i], m) else 0) ==
            Held(w, x, m) + if x == c then Bulk(v, m) else 0
  {
    var n := w[i := v];
    assert Linked(w, i) && Holds(w, x);
    if x == c {
      var k, s := IndexOf(w[c].items, i), w[c].items;
      HeldAt(w, s, k, m);
      HeldAt(n, s, k, m);
      WithoutKeeps(s, k);
      HeldFrame(w, n, Without(s, k), m);
    } else {
      HeldFrame(w, n, w[x].items, m);
    }
  }

  lemma HeldBirth<R>(w: World<R>, i: R, v: View<R>, x: R, m: Measure)
    requires Forest(w) && i !in w && x in w
    ensures Held(w[i := v], x, m) == Held(w, x, m)
  {
    assert Holds(w, x);
    HeldFrame(w, w[i := v], w[x].items, m);
  }

  /** What coins are worth: gold 1, platinum 100, crystal 10000, ingots 1000000, everything else nothing. */
  lemma WorthIs(id: nat, n: nat)
    ensures Worth(2148, n) == n && Worth(2152, n) == 100 * n && Worth(2160, n) == 10000 * n && Worth(9971, n) == 1000000 * n
    ensures id !in {2148, 2152, 2160, 9971} ==> Worth(id, n) == 0
  {
  }
}
