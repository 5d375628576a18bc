/**
 The cached weight of a container.  A container stores the weight of its contents in an
 unsigned 32-bit field and every change of an entry walks up the parent chain adding a signed
 difference, so the cache is exact modulo 2^32.
 */
module Weights {
  import opened Arithmetic
  import opened ItemTree

  function Wrap(n: int): nat {
    n % UINT32
  }

  function BaseWeight<R>(v: View<R>): nat {
    if WEIGHT in Vals(v.attrs) && Vals(v.attrs)[WEIGHT].Number? then Wrap(Vals(v.attrs)[WEIGHT].n)
    else v.typ.weight
  }

  /** The weight of an item without its contents. */
  function Own<R>(v: View<R>): nat {
    if v.typ.stackable && v.count > 1 then BaseWeight(v) * v.count else BaseWeight(v)
  }

  type Cache<R> = map<R, int>

  /** What an entry contributes to its container: its own weight plus its cached contents. */
  ghost function Load<R>(w: World<R>, cache: Cache<R>, x: R): int {
    if x in w && x in cache then Own(w[x]) + cache[x] else 0
  }

  ghost function LoadSum<R>(w: World<R>, cache: Cache<R>, s: seq<R>): int {
    if s == [] then 0 else Load(w, cache, s[0]) + LoadSum(w, cache, s[1..])
  }

  /** The cache of `c` is what its entries say, trusting the caches of the entries themselves. */
  ghost predicate Agrees<R>(w: World<R>, cache: Cache<R>, c: R)
    requires c in w && c in cache
  {
    cache[c] == Wrap(LoadSum(w, cache, w[c].items))
  }

  ghost predicate AllAgree<R>(w: World<R>, cache: Cache<R>) {
    cache.Keys == w.Keys && forall c {:trigger Agrees(w, cache, c)} :: c in w ==> Agrees(w, cache, c)
  }

  /** Every cache is right except that the one of `c` still lacks `diff`. */
  ghost predicate OffBy<R>(w: World<R>, cache: Cache<R>, c: R, diff: int) {
    && cache.Keys == w.Keys && c in w
    && (forall x {:trigger Agrees(w, cache, x)} :: x in w && x != c ==> Agrees(w, cache, x))
    && 0 <= cache[c] < UINT32
    && Wrap(cache[c] + diff) == Wrap(LoadSum(w, cache, w[c].items))
  }

  // ----- one step of the upward walk -----

  lemma {:induction false} LoadSumBump<R>(w: World<R>, cache: Cache<R>, s: seq<R>, p: R, v: int)
    requires Distinct(s) && p in cache && p in w
    ensures LoadSum(w, cache[p := v], s) ==
            LoadSum(w, cache, s) + if p in s then v - cache[p] else 0
  {
    if s != [] {
      LoadSumBump(w, cache, s[1..], p, v);
      assert p in s <==> p == s[0] || p in s[1..];
    }
  }

  lemma WrapMultiple(a: int, k: int)
    ensures Wrap(a + UINT32 * k) == Wrap(a)
  {
    WrapUnique(a + UINT32 * k, a / UINT32 + k, a % UINT32);
  }

  lemma WrapUnique(n: int, k: int, r: int)
    requires n == UINT32 * k + r && 0 <= r < UINT32
    ensures Wrap(n) == r
  {
    assert n / UINT32 == k;
  }

  lemma WrapShift(a: int, b: int, d: int)
    ensures Wrap(a + Wrap(b + d) - b) == Wrap(a + d)
  {
    WrapMultiple(a + d, -((b + d) / UINT32));
  }

  /** The difference of two wrapped weights, as the signed walk uses it. */
  lemma WrapDifference(a: int, b: int)
    ensures Wrap(Wrap(a) - Wrap(b)) == Wrap(a - b)
    ensures Wrap(-(Wrap(b) as int)) == Wrap(-b)
  {
    WrapMultiple(a - b, b / UINT32 - a / UINT32);
    WrapMultiple(-b, b / UINT32);
  }

  lemma WrapSum(a: int, d: int)
    ensures Wrap(Wrap(a) + d) == Wrap(a + d)
  {
    WrapMultiple(a + d, -(a / UINT32));
  }

  /** The walk has dealt with `c`: the discrepancy, if any is left, is at its parent. */
  ghost predicate Settled<R>(w: World<R>, cache: Cache<R>, c: R, diff: int)
    requires c in w
  {
    if w[c].parent.In? then OffBy(w, cache, w[c].parent.c, diff) else AllAgree(w, cache)
  }

  function Bumped<R>(cache: Cache<R>, c: R, diff: int): Cache<R>
    requires c in cache
  {
    cache[c := Wrap(cache[c] + diff)]
  }

  /**
   Adding the difference to one cache moves the discrepancy to the parent container, or, at
   the top of the chain, makes it disappear.
   */
  lemma WalkStep<R>(w: World<R>, cache: Cache<R>, c: R, diff: int)
    requires Forest(w) && OffBy(w, cache, c, diff)
    ensures Settled(w, Bumped(cache, c, diff), c, diff)
  {
    var n := Bumped(cache, c, diff);
    assert n.Keys == w.Keys;
    forall x | x in w
      ensures LoadSum(w, n, w[x].items) ==
              LoadSum(w, cache, w[x].items) + if w[c].parent == In(x) then n[c] - cache[c] else 0
    {
      assert Holds(w, x) && Linked(w, c);
      LoadSumBump(w, cache, w[x].items, c, n[c]);
    }
    forall x | x in w && w[c].parent != In(x)
      ensures Agrees(w, n, x)
    {
      assert x != c ==> Agrees(w, cache, x);
    }
    if w[c].parent.In? {
      var p := w[c].parent.c;
      assert Linked(w, c);
      assert Agrees(w, cache, p);
      WrapShift(LoadSum(w, cache, w[p].items), cache[c], diff);
      WrapSum(LoadSum(w, cache, w[p].items), diff);
    }
  }

  lemma WalkUp<R>(w: World<R>, cache: Cache<R>, c: R, p: R, diff: int)
    requires Forest(w) && cache.Keys == w.Keys && c in w && w[c].parent == In(p) && Settled(w, cache, c, diff)
    ensures p in w && w[p].depth < w[c].depth && Settled(w, Bumped(cache, p, diff), p, diff)
  {
    assert Linked(w, c);
    WalkStep(w, cache, p, diff);
  }

  // ----- what each elementary change leaves to be added -----

  lemma {:induction false} LoadSumFrame<R>(w: World<R>, n: World<R>, cache: Cache<R>, s: seq<R>)
    requires forall x :: x in s ==> Load(w, cache, x) == Load(n, cache, x)
    ensures LoadSum(n, cache, s) == LoadSum(w, cache, s)
  {
    if s != [] {
      LoadSumFrame(w, n, cache, s[1..]);
    }
  }

  lemma {:induction false} LoadSumAt<R>(w: World<R>, cache: Cache<R>, s: seq<R>, k: nat)
    requires k < |s|
    ensures LoadSum(w, cache, s) == LoadSum(w, cache, Without(s, k)) + Load(w, cache, s[k])
  {
    if k == 0 {
      assert Without(s, k) == s[1..];
    } else {
      LoadSumAt(w, cache, s[1..], k - 1);
      assert Without(s, k) == [s[0]] + Without(s[1..], k - 1);
    }
  }

  /** Only the residue of the difference matters. */
  lemma OffByResidue<R>(w: World<R>, cache: Cache<R>, c: R, diff: int, d: int)
    requires OffBy(w, cache, c, diff) && Wrap(d) == Wrap(diff)
    ensures OffBy(w, cache, c, d)
  {
    WrapSum(diff, cache[c]);
    WrapSum(d, cache[c]);
  }

  /** Nothing but the entries of `c`, and the weight of `i` itself if it is one of them, differs. */
  ghost predicate OnlyIn<R>(w: World<R>, n: World<R>, c: R, i: R) {
    && n.Keys == w.Keys
    && (forall x :: x in w && x != c ==> n[x].items == w[x].items && i !in w[x].items)
    && (forall y :: y in w && y != i ==> Own(n[y]) == Own(w[y]))
  }

  lemma OthersAgree<R>(w: World<R>, n: World<R>, cache: Cache<R>, c: R, i: R, x: R)
    requires AllAgree(w, cache) && OnlyIn(w, n, c, i) && x in w && x != c
    ensures Agrees(n, cache, x)
  {
    assert Agrees(w, cache, x);
    LoadSumFrame(w, n, cache, w[x].items);
  }

  lemma OffByFrom<R>(w: World<R>, n: World<R>, cache: Cache<R>, c: R, i: R, diff: int)
    requires AllAgree(w, cache) && OnlyIn(w, n, c, i) && c in w
    requires LoadSum(n, cache, n[c].items) == LoadSum(w, cache, w[c].items) + diff
    ensures OffBy(n, cache, c, diff)
  {
    forall x | x in n && x != c
      ensures Agrees(n, cache, x)
    {
      OthersAgree(w, n, cache, c, i, x);
    }
    assert Agrees(w, cache, c);
    WrapSum(LoadSum(w, cache, w[c].items), diff);
  }

  lemma PushFrontOff<R>(w: World<R>, cache: Cache<R>, c: R, i: R)
    requires Forest(w) && AllAgree(w, cache) && c in w && i in w && !w[i].parent.In?
    ensures OffBy(PushFront(w, c, i), cache, c, Load(w, cache, i))
  {
    var n := PushFront(w, c, i);
    assert forall y :: y in w ==> Own(n[y]) == Own(w[y]);
    assert n[c].items[1..] == w[c].items;
    LoadSumFrame(w, n, cache, w[c].items);
    forall x | x in w && x != c
      ensures n[x].items == w[x].items && i !in w[x].items
    {
      assert Holds(w, x);
    }
    OffByFrom(w, n, cache, c, i, Load(w, cache, i));
  }

  lemma TakeOutOff<R>(w: World<R>, cache: Cache<R>, c: R, k: nat)
    requires Forest(w) && AllAgree(w, cache) && c in w && k < |w[c].items| && w[c].items[k] in w
    ensures OffBy(TakeOut(w, c, k), cache, c, -Load(w, cache, w[c].items[k]))
  {
    var n, i := TakeOut(w, c, k), w[c].items[k];
    TakeOutForest(w, c, k);
    assert n[c].items == Without(w[c].items, k);
    LoadSumAt(w, cache, w[c].items, k);
    LoadSumFrame(w, n, cache, Without(w[c].items, k));
    forall x | x in w && x != c
      ensures n[x].items == w[x].items && i !in w[x].items
    {
      assert Holds(w, x);
    }
    OffByFrom(w, n, cache, c, i, -Load(w, cache, i));
  }

  lemma ExchangeSum<R>(w: World<R>, cache: Cache<R>, c: R, k: nat, i: R)
    requires Forest(w) && c in w && i in w && k < |w[c].items| && w[c].items[k] in w
    ensures LoadSum(Exchange(w, c, k, i), cache, w[c].items[k := i]) ==
            LoadSum(w, cache, w[c].items) + Load(w, cache, i) - Load(w, cache, w[c].items[k])
  {
    var n, s := Exchange(w, c, k, i), w[c].items;
    assert forall y :: y in w ==> Own(n[y]) == Own(w[y]);
    LoadSumAt(w, cache, s, k);
    LoadSumAt(w, cache, s[k := i], k);
    assert Without(s[k := i], k) == Without(s, k);
    LoadSumFrame(w, n, cache, s[k := i]);
  }

  lemma ExchangeOff<R>(w: World<R>, cache: Cache<R>, c: R, k: nat, i: R)
    requires Forest(w) && AllAgree(w, cache) && c in w && i in w && k < |w[c].items| && w[c].items[k] in w
    requires w[i].parent.Nowhere?
    ensures OffBy(Exchange(w, c, k, i), cache, c, Load(w, cache, i) - Load(w, cache, w[c].items[k]))
  {
    var n := Exchange(w, c, k, i);
    forall x | x in w && x != c
      ensures n[x].items == w[x].items && i !in w[x].items
    {
      assert Holds(w, x);
    }
    ExchangeSum(w, cache, c, k, i);
    OffByFrom(w, n, cache, c, i, Load(w, cache, i) - Load(w, cache, w[c].items[k]));
  }

  lemma RewriteSum<R>(w: World<R>, cache: Cache<R>, s: seq<R>, k: nat, v: View<R>)
    requires Distinct(s) && k < |s| && s[k] in w && s[k] in cache
    ensures LoadSum(w[s[k] := v], cache, s) == LoadSum(w, cache, s) + Own(v) - Own(w[s[k]])
  {
    var n := w[s[k] := v];
    LoadSumAt(w, cache, s, k);
    LoadSumAt(n, cache, s, k);
    WithoutKeeps(s, k);
    LoadSumFrame(w, n, cache, Without(s, k));
  }

  lemma RewriteOff<R>(w: World<R>, cache: Cache<R>, c: R, k: nat, v: View<R>)
    requires Forest(w) && AllAgree(w, cache) && c in w && k < |w[c].items| && w[c].items[k] in w
    requires SamePlace(w[w[c].items[k]], v)
    ensures var i := w[c].items[k];
            OffBy(w[i := v], cache, c, Own(v) - Own(w[i]))
  {
    var i := w[c].items[k];
    var n := w[i := v];
    assert Holds(w, c);
    forall x | x in w && x != c
      ensures n[x].items == w[x].items && i !in w[x].items
    {
      assert Holds(w, x);
    }
    assert n[c].items == w[c].items;
    RewriteSum(w, cache, w[c].items, k, v);
    OffByFrom(w, n, cache, c, i, Own(v) - Own(w[i]));
  }

  // ----- the same, for the signed difference of 32-bit weights the program computes -----

  lemma PushFrontReady<R>(w: World<R>, cache: Cache<R>, c: R, i: R, diff: int)
    requires Forest(w) && AllAgree(w, cache) && c in w && i in w && w[c].box
    requires !w[i].parent.In? && !Under(w, c, i)
    requires diff == Wrap(Load(w, cache, i))
    ensures Forest(PushFront(w, c, i)) && OffBy(PushFront(w, c, i), cache, c, diff)
  {
    PushFrontForest(w, c, i);
    PushFrontOff(w, cache, c, i);
    OffByResidue(PushFront(w, c, i), cache, c, Load(w, cache, i), diff);
  }

  lemma TakeOutReady<R>(w: World<R>, cache: Cache<R>, c: R, k: nat, diff: int)
    requires Forest(w) && AllAgree(w, cache) && c in w && k < |w[c].items| && w[c].items[k] in w
    requires diff == -(Wrap(Load(w, cache, w[c].items[k])) as int)
    ensures Forest(TakeOut(w, c, k)) && OffBy(TakeOut(w, c, k), cache, c, diff)
  {
    TakeOutForest(w, c, k);
    TakeOutOff(w, cache, c, k);
    WrapDifference(0, Load(w, cache, w[c].items[k]));
    OffByResidue(TakeOut(w, c, k), cache, c, -Load(w, cache, w[c].items[k]), diff);
  }

  lemma ExchangeReady<R>(w: World<R>, cache: Cache<R>, c: R, k: nat, i: R, diff: int)
    requires Forest(w) && AllAgree(w, cache) && c in w && i in w && w[c].box && k < |w[c].items| && w[c].items[k] in w
    requires w[i].parent.Nowhere? && !Under(w, c, i)
    requires diff == Wrap(Load(w, cache, i)) - Wrap(Load(w, cache, w[c].items[k]))
    ensures Forest(Exchange(w, c, k, i)) && OffBy(Exchange(w, c, k, i), cache, c, diff)
  {
    ExchangeForest(w, c, k, i);
    ExchangeOff(w, cache, c, k, i);
    WrapDifference(Load(w, cache, i), Load(w, cache, w[c].items[k]));
    OffByResidue(Exchange(w, c, k, i), cache, c, Load(w, cache, i) - Load(w, cache, w[c].items[k]), diff);
  }

  lemma RewriteReady<R>(w: World<R>, cache: Cache<R>, c: R, k: nat, v: View<R>, diff: int)
    requires Forest(w) && AllAgree(w, cache) && c in w && k < |w[c].items| && w[c].items[k] in w
    requires var i := w[c].items[k];
             SamePlace(w[i], v) && diff == Wrap(Own(v) + cache[i]) - Wrap(Own(w[i]) + cache[i])
    ensures var n := w[w[c].items[k] := v]; Forest(n) && OffBy(n, cache, c, diff)
  {
    var i := w[c].items[k];
    RewriteForest(w, i, v);
    RewriteOff(w, cache, c, k, v);
    WrapDifference(Own(v) + cache[i], Own(w[i]) + cache[i]);
    OffByResidue(w[i := v], cache, c, Own(v) - Own(w[i]), diff);
  }

  lemma BirthAgree<R>(w: World<R>, cache: Cache<R>, i: R, v: View<R>)
    requires Forest(w) && AllAgree(w, cache) && i !in w && v.items == []
    ensures AllAgree(w[i := v], cache[i := 0])
  {
    var n, m := w[i := v], cache[i := 0];
    forall x | x in n
      ensures Agrees(n, m, x)
    {
      if x != i {
        assert Agrees(w, cache, x) && Holds(w, x);
        LoadSumSame(w, cache, n, m, w[x].items);
      }
    }
  }

  lemma {:induction false} LoadSumSame<R>(w: World<R>, cache: Cache<R>, n: World<R>, m: Cache<R>, s: seq<R>)
    requires forall x :: x in s ==> Load(w, cache, x) == Load(n, m, x)
    ensures LoadSum(n, m, s) == LoadSum(w, cache, s)
  {
    if s != [] {
      LoadSumSame(w, cache, n, m, s[1..]);
    }
  }

  // ----- the cache against the tree -----

  /** The weight of an item with everything inside it, recomputed from scratch and not wrapped. */
  ghost function TreeWeight<R>(w: World<R>, x: R, floor: nat): int
    requires Forest(w) && x in w && Bounded(w, floor)
    decreases floor - w[x].depth, 1, 0
  {
    Own(w[x]) + EntriesWeight(w, x, 0, floor)
  }

  ghost function EntriesWeight<R>(w: World<R>, x: R, k: nat, floor: nat): int
    requires Forest(w) && x in w && Bounded(w, floor) && k <= |w[x].items|
    decreases floor - w[x].depth, 0, |w[x].items| - k
  {
    if k == |w[x].items| then 0
    else
      assert Holds(w, x) && Linked(w, w[x].items[k]);
      TreeWeight(w, w[x].items[k], floor) + EntriesWeight(w, x, k + 1, floor)
  }

  /** Local agreement everywhere makes every cached weight the true one, modulo 2^32. */
  lemma {:induction false} CacheIsTreeWeight<R>(w: World<R>, cache: Cache<R>, x: R, floor: nat)
    requires Forest(w) && AllAgree(w, cache) && x in w && Bounded(w, floor)
    ensures Wrap(Load(w, cache, x)) == Wrap(TreeWeight(w, x, floor))
    ensures cache[x] == Wrap(EntriesWeight(w, x, 0, floor))
    decreases floor - w[x].depth, 1, 0
  {
    assert Agrees(w, cache, x);
    assert w[x].items[0..] == w[x].items;
    EntriesAgree(w, cache, x, 0, floor);
    WrapSum(EntriesWeight(w, x, 0, floor), Own(w[x]));
  }

  lemma {:induction false} EntriesAgree<R>(w: World<R>, cache: Cache<R>, x: R, k: nat, floor: nat)
    requires Forest(w) && AllAgree(w, cache) && x in w && Bounded(w, floor) && k <= |w[x].items|
    ensures Wrap(LoadSum(w, cache, w[x].items[k..])) == Wrap(EntriesWeight(w, x, k, floor))
    decreases floor - w[x].depth, 0, |w[x].items| - k
  {
    if k < |w[x].items| {
      var i := w[x].items[k];
      assert Holds(w, x) && Linked(w, i);
      CacheIsTreeWeight(w, cache, i, floor);
      EntriesAgree(w, cache, x, k + 1, floor);
      assert w[x].items[k..][0] == i && w[x].items[k..][1..] == w[x].items[k+1..];
      WrapSum(Load(w, cache, i), LoadSum(w, cache, w[x].items[k+1..]));
      WrapSum(LoadSum(w, cache, w[x].items[k+1..]), Wrap(Load(w, cache, i)));
      WrapSum(TreeWeight(w, i, floor), EntriesWeight(w, x, k + 1, floor));
      WrapSum(EntriesWeight(w, x, k + 1, floor), Wrap(TreeWeight(w, i, floor)));
    }
  }

  /** The weight of one piece: that of the type, or its own if it has one. */
  lemma BaseIs<R>(v: View<R>)
    ensures 9 !in Vals(v.attrs) ==> BaseWeight(v) == v.typ.weight
    ensures 9 in Vals(v.attrs) && Vals(v.attrs)[9].Number? && 0 <= Vals(v.attrs)[9].n < 0x1_0000_0000 ==>
              BaseWeight(v) == Vals(v.attrs)[9].n
  {
  }

  /** The weight of one item: that for every piece of a stack, and for one piece of anything else. */
  lemma OwnIs<R>(v: View<R>, base: nat, pieces: nat)
    requires base == BaseWeight(v) && pieces == if v.typ.stackable && v.count > 0 then v.count else 1
    ensures Own(v) == base * pieces
  {
    if pieces == 1 {
      assert base * pieces == base;
    }
  }
}
