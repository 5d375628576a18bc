/**
 The coins found in a container, ordered by what they are worth, and what taking them out in that
 order leaves behind.
 */
module Purse {
  import opened ItemTree
  import opened Queries
  import opened Census
  import opened Moves
  import opened Adding
  import opened Traversal
  import opened Coins

  /** An entry of the multimap `removeMoney` builds. */
  datatype Coin<R> = Coin(worth: nat, item: R)

  /** Where a multimap keyed by worth puts a new entry: behind those that are worth the same. */
  function Emplace<R>(m: seq<Coin<R>>, e: Coin<R>): seq<Coin<R>> {
    if m == [] || m[0].worth > e.worth then [e] + m else [m[0]] + Emplace(m[1..], e)
  }

  function Worths<R>(m: seq<Coin<R>>): nat {
    if m == [] then 0 else m[0].worth + Worths(m[1..])
  }

  predicate Ascending<R>(m: seq<Coin<R>>) {
    forall j, k :: 0 <= j < k < |m| ==> m[j].worth <= m[k].worth
  }

  predicate OneEach<R(==)>(m: seq<Coin<R>>) {
    forall j, k :: 0 <= j < k < |m| ==> m[j].item != m[k].item
  }

  lemma {:induction false} EmplaceAt<R>(m: seq<Coin<R>>, e: Coin<R>) returns (k: nat)
    ensures k <= |m| && Emplace(m, e) == m[..k] + [e] + m[k..]
    ensures (forall j :: 0 <= j < k ==> m[j].worth <= e.worth) && (k < |m| ==> m[k].worth > e.worth)
    ensures Worths(Emplace(m, e)) == Worths(m) + e.worth
  {
    k := 0;
    if m != [] && m[0].worth <= e.worth {
      k := EmplaceAt(m[1..], e);
      assert [m[0]] + (m[1..][..k] + [e] + m[1..][k..]) == m[..k+1] + [e] + m[k+1..];
      k := k + 1;
    }
  }

  lemma EmplaceKeeps<R>(m: seq<Coin<R>>, e: Coin<R>)
    requires Ascending(m) && OneEach(m) && forall j :: 0 <= j < |m| ==> m[j].item != e.item
    ensures Ascending(Emplace(m, e)) && OneEach(Emplace(m, e)) && |Emplace(m, e)| == |m| + 1
    ensures forall j :: 0 <= j <= |m| ==> Emplace(m, e)[j] == e || Emplace(m, e)[j] in m
    ensures e in Emplace(m, e) && forall d :: d in m ==> d in Emplace(m, e)
    ensures Worths(Emplace(m, e)) == Worths(m) + e.worth
  {
    var k := EmplaceAt(m, e);
    InsertKeeps(m, e, k);
    InsertHolds(m, e, k);
  }

  lemma InsertHolds<R>(m: seq<Coin<R>>, e: Coin<R>, k: nat)
    requires k <= |m|
    ensures var n := m[..k] + [e] + m[k..];
            e in n && forall d :: d in m ==> d in n
  {
    assert m == m[..k] + m[k..];
  }

  lemma InsertKeeps<R>(m: seq<Coin<R>>, e: Coin<R>, k: nat)
    requires Ascending(m) && OneEach(m) && k <= |m| && forall j :: 0 <= j < |m| ==> m[j].item != e.item
    requires (forall j :: 0 <= j < k ==> m[j].worth <= e.worth) && (k < |m| ==> m[k].worth > e.worth)
    ensures var n := m[..k] + [e] + m[k..];
            Ascending(n) && OneEach(n) && forall j :: 0 <= j <= |m| ==> n[j] == e || n[j] in m
  {
    var n := m[..k] + [e] + m[k..];
    forall i, j | 0 <= i < j < |n|
      ensures n[i].worth <= n[j].worth && n[i].item != n[j].item
    {
      var a, b := if i < k then i else i - 1, if j < k then j else j - 1;
      assert i != k ==> n[i] == m[a];
      assert j != k ==> n[j] == m[b];
    }
  }

  /** `m` lists the coins among the items `s`, all of them, each once and in order, and their worth is all the gold there is. */
  ghost predicate CoinsOf<R>(w: World<R>, m: seq<Coin<R>>, s: seq<R>) {
    && Ascending(m) && OneEach(m) && Worths(m) == GoldOf(w, s)
    && (forall k :: 0 <= k < |m| ==> m[k].item in s && IsCoin(w, m[k]))
    && forall x :: x in s ==> Listed(w, m, x)
  }

  /** If `x` is a coin, it is on the list. */
  predicate Listed<R(==)>(w: World<R>, m: seq<Coin<R>>, x: R) {
    x in w && !w[x].box && Worth(w[x].typ.id, w[x].count) > 0 ==> Coin(Worth(w[x].typ.id, w[x].count), x) in m
  }

  predicate IsCoin<R(==)>(w: World<R>, e: Coin<R>) {
    e.item in w && !w[e.item].box && e.worth > 0 && e.worth == Worth(w[e.item].typ.id, w[e.item].count)
  }

  lemma CoinsOfNext<R>(w: World<R>, m: seq<Coin<R>>, s: seq<R>, x: R)
    requires CoinsOf(w, m, s) && x in w && x !in s
    ensures CoinsOf(w, Noted(w, m, x), s + [x])
  {
    GoldOfConcat(w, s, [x]);
    assert GoldOf(w, [x]) == Bulk(w[x], Gold) + GoldOf(w, []);
    var e := Coin(Worth(w[x].typ.id, w[x].count), x);
    var p := Noted(w, m, x);
    EmplaceKeeps(m, e);
    forall k | 0 <= k < |p|
      ensures p[k].item in s + [x] && IsCoin(w, p[k])
    {
    }
    forall y | y in s + [x]
      ensures Listed(w, p, y)
    {
      assert y in s ==> Listed(w, m, y);
    }
  }

  /** One more entry is looked at. */
  function Noted<R(==)>(w: World<R>, m: seq<Coin<R>>, x: R): seq<Coin<R>>
    requires x in w
  {
    var worth := Worth(w[x].typ.id, w[x].count);
    if w[x].box || worth == 0 then m else Emplace(m, Coin(worth, x))
  }

  /** The entries of `m` are still where they were, untouched. */
  ghost predicate Pending<R>(n: World<R>, m: seq<Coin<R>>) {
    && Forest(n) && OneEach(m)
    && forall k :: 0 <= k < |m| ==> Untouched(n, m[k])
  }

  ghost predicate Untouched<R>(n: World<R>, e: Coin<R>) {
    && e.item in n && n[e.item].parent.In? && !n[e.item].box && n[e.item].typ.stackable
    && e.worth == Worth(n[e.item].typ.id, n[e.item].count) > 0
  }

  /** The coins that are entries of `top` itself are all on the list. */
  ghost predicate AllListed<R>(n: World<R>, m: seq<Coin<R>>, top: R) {
    top in n && forall x :: x in n[top].items ==> Listed(n, m, x)
  }

  /** The coins still to be taken: the least valuable first, all of them where they were, and none of `top` missing. */
  ghost predicate Payable<R>(n: World<R>, m: seq<Coin<R>>, top: R) {
    Ascending(m) && Pending(n, m) && AllListed(n, m, top)
  }

  /** One whole stack is taken. */
  lemma TakeNext<R>(n: World<R>, m: seq<Coin<R>>, top: R)
    requires Payable(n, m, top) && m != [] && n[m[0].item].parent.c in n
    ensures var p := Removed(n, n[m[0].item].parent.c, m[0].item, n[m[0].item].count);
            Payable(p, m[1..], top) && Total(p, Gold) + m[0].worth == Total(n, Gold)
  {
    var x := m[0].item;
    assert Untouched(n, m[0]);
    var c := n[x].parent.c;
    assert Linked(n, x);
    var k := IndexOf(n[c].items, x);
    TakeOutForest(n, c, k);
    TotalTakeOut(n, c, k, Gold);
    WithoutKeeps(n[c].items, k);
    forall k | 0 <= k < |m[1..]|
      ensures Untouched(TakeOut(n, c, IndexOf(n[c].items, x)), m[1..][k])
    {
      assert m[1..][k] == m[k+1] && Untouched(n, m[k+1]) && m[k+1].item != x;
    }
    TakeListed(n, m, top, c, k);
  }

  lemma TakeListed<R>(n: World<R>, m: seq<Coin<R>>, top: R, c: R, k: nat)
    requires Forest(n) && AllListed(n, m, top) && m != [] && c in n && k < |n[c].items| && n[c].items[k] == m[0].item
    requires n[c].items[k] in n && n[c].items[k] != c && Forest(TakeOut(n, c, k))
    ensures AllListed(TakeOut(n, c, k), m[1..], top)
  {
    var p := TakeOut(n, c, k);
    assert Holds(n, c) && Holds(n, top);
    WithoutKeeps(n[c].items, k);
    forall x | x in p[top].items
      ensures Listed(p, m[1..], x)
    {
      assert x in n[top].items && Listed(n, m, x) && Linked(n, x);
      assert m == [m[0]] + m[1..];
    }
  }

  /** Part of a stack is taken, or all of it. */
  lemma TotalRemoved<R>(n: World<R>, c: R, x: R, k: nat)
    requires Forest(n) && Stacked(n) && x in n && c in n && n[x].parent == In(c) && !n[x].box && n[x].typ.stackable
    requires 1 <= k <= n[x].count
    ensures Total(Removed(n, c, x, k), Gold) + Worth(n[x].typ.id, k) == Total(n, Gold)
  {
    assert Linked(n, x);
    if k == n[x].count {
      TotalTakeOut(n, c, IndexOf(n[c].items, x), Gold);
    } else {
      TotalReduced(n, x, k);
    }
  }

  lemma TotalReduced<R>(n: World<R>, x: R, k: nat)
    requires x in n && !n[x].box && !n[x].parent.Nowhere? && 1 <= k < n[x].count <= MAX_STACK
    ensures Total(n[x := Reduced(n[x], k)], Gold) + Worth(n[x].typ.id, k) == Total(n, Gold)
  {
    TotalRewrite(n, x, Reduced(n[x], k), Gold);
    WorthSplits(n[x].typ.id, n[x].count, k);
  }

  lemma WorthSplits(id: nat, count: nat, k: nat)
    requires k <= count
    ensures Worth(id, count - k) + Worth(id, k) == Worth(id, count)
  {
  }

  /** A coin that is broken is worth more than the change, so minting the change does not touch its stack. */
  lemma StaysWhole<R>(n: World<R>, p: World<R>, e: Coin<R>, most: nat)
    requires Untouched(n, e) && Kept(n, p, most) && Unit(n[e.item].typ.id) > most
    ensures Untouched(p, e) && p[e.item].parent == n[e.item].parent && p[e.item].typ == n[e.item].typ
    ensures p[e.item].count == n[e.item].count
  {
  }

  lemma UnitsApart(a: nat, b: nat)
    requires 0 < Unit(a) < Unit(b)
    ensures 100 * Unit(a) <= Unit(b)
  {
  }

  /** A stack of `top` that a coin of change could be merged into would have been taken before the one that is broken. */
  lemma NoneLeftToMerge<R>(n: World<R>, m: seq<Coin<R>>, top: R, mint: nat -> ItemType, s: Stack, j: nat)
    requires Payable(n, m, top) && m != [] && Stacked(n) && IsMint(mint)
    requires 0 < Unit(s.id) < Unit(n[m[0].item].typ.id)
    requires j < |Shelf(n, top)|
    ensures !Fits(Shelf(n, top)[j], SlotFor(mint, s))
  {
    assert Holds(n, top);
    ShelfAt(n, n[top].items);
    var x, e := n[top].items[j], m[0];
    assert Listed(n, m, x) && Untouched(n, e);
    if Fits(Shelf(n, top)[j], SlotFor(mint, s)) {
      UnitsApart(s.id, n[e.item].typ.id);
      var d := Coin(Worth(s.id, n[x].count), x);
      assert n[x].typ == mint(s.id) && d in m;
      SmallerWorth(s.id, n[x].count, n[e.item].typ.id, n[e.item].count);
      assert false;
    }
  }

  lemma SmallerWorth(a: nat, j: nat, b: nat, k: nat)
    requires 0 < Unit(a) && 100 * Unit(a) <= Unit(b) && 1 <= j < 100 && 1 <= k
    ensures 0 < Worth(a, j) < Worth(b, k)
  {
  }

  /** The change given when the first stack on the list is broken is never lost, however little room there is. */
  lemma ChangeIsKept<R>(n: World<R>, m: seq<Coin<R>>, top: R, mint: nat -> ItemType, change: nat)
    requires Payable(n, m, top) && m != [] && Stacked(n) && IsMint(mint)
    requires change < Unit(n[m[0].item].typ.id)
    ensures Settle(mint, Shelf(n, top), n[top].cap, Change(change)).lost == 0
  {
    ChangeKinds(change);
    forall j, k | 0 <= j < |Shelf(n, top)| && 0 <= k < |Change(change)|
      ensures !Fits(Shelf(n, top)[j], SlotFor(mint, Change(change)[k]))
    {
      ChangeIsCoins(change, k);
      NoneLeftToMerge(n, m, top, mint, Change(change)[k], j);
    }
    SettleUnmatched(mint, Shelf(n, top), n[top].cap, Change(change));
  }
}
