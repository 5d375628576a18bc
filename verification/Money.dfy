/** Paying gold out of and into a container. */
module Money {
  import opened Arithmetic
  import opened ItemTree
  import opened Queries
  import opened Census
  import opened Moves
  import opened Adding
  import opened Traversal
  import opened Seals
  import opened Coins
  import opened Purse
  import opened Weights
  import opened Containers
  import opened GameItems

  /** One stack of coins is created and added; if it is refused it is dropped outside. */
  method AddStack(g: Game, top: Item, mint: nat -> ItemType, s: Stack, ghost most: nat) returns (ghost lost: nat)
    requires g.Valid() && top in g.world && top.box && IsMint(mint)
    requires 0 < Unit(s.id) <= most && 1 <= s.count <= MAX_STACK
    modifies g, g.world
    ensures g.Valid() && Paid(old(WorldOf(g.world)), WorldOf(g.world), top, mint, [s], most, lost)
    ensures g.world >= old(g.world) && forall x :: x in g.world ==> x in old(g.world) || fresh(x)
  {
    ghost var w := WorldOf(g.world);
    var item := g.CreateStack(mint(s.id), NewAttrs(mint(s.id)), s.count);
    label Before:
    ghost var before := g.world;
    lost := AddCreated(g, top, mint, s, item, w, most);
    forall x | x in g.world
      ensures x in old(g.world) || fresh(x)
    {
      if x !in before {
        assert fresh@Before(x);
      }
    }
  }

  method AddCreated(g: Game, top: Item, mint: nat -> ItemType, s: Stack, item: Item, ghost w: World<Item>, ghost most: nat)
    returns (ghost lost: nat)
    requires g.Valid() && top in g.world && top.box && item in g.world && item.parent.Nowhere?
    requires Minting(w, top, item, mint, s) && Unit(s.id) <= most
    requires WorldOf(g.world) == w[item := CoinView(mint, s)]
    modifies g, g.world
    ensures g.Valid() && Paid(w, WorldOf(g.world), top, mint, [s], most, lost)
    ensures g.world >= old(g.world) && forall x :: x in g.world ==> x in old(g.world) || fresh(x)
  {
    var ret, told, l := g.InternalAddItem(top, item, false);
    lost := 0;
    if ret == NoError {
      lost := Worth(s.id, l);
      PaidAccepted(w, top, item, mint, s, WorldOf(g.world), most, l, told);
    } else {
      ghost var v: View<Item> := CoinView(mint, s);
      assert WorldOf(g.world) == w[item := v] && l == 0 by {
        Unseal(w[item := v], WorldOf(g.world), top, item, ret, l, told);
      }
      PaidOutside(w, top, item, mint, s, ret, most);
      assert w[item := v][item := v.(parent := Outside)] == w[item := v.(parent := Outside)];
      assert WorldOf(g.world)[item] == v;
      g.DropOutside(item);
      assert WorldOf(g.world) == w[item := v.(parent := Outside)];
    }
  }

  /** Coins of one kind, in stacks of at most a hundred. */
  method AddStacks(g: Game, top: Item, mint: nat -> ItemType, id: nat, coins: nat, ghost most: nat) returns (ghost lost: nat)
    requires g.Valid() && top in g.world && top.box && IsMint(mint) && 0 < Unit(id) <= most
    modifies g, g.world
    ensures g.Valid() && Paid(old(WorldOf(g.world)), WorldOf(g.world), top, mint, Stacks(id, coins), most, lost)
    ensures g.world >= old(g.world) && forall x :: x in g.world ==> x in old(g.world) || fresh(x)
  {
    ghost var w := WorldOf(g.world);
    var n: nat := coins;
    ghost var done: seq<Stack> := [];
    lost := 0;
    PaidNothing(w, top, mint, most);
    MadeNone(id, coins);
    while n > 0
      invariant g.Valid() && top in g.world && top.box && Paid(w, WorldOf(g.world), top, mint, done, most, lost)
      invariant g.world >= old(g.world) && forall x :: x in g.world ==> x in old(g.world) || fresh(x)
      invariant Made(done, id, coins, n)
    {
      var count := if MAX_STACK < n then MAX_STACK else n;
      ghost var before := g.world;
      label Before:
      n, done, lost := AddNext(g, top, mint, id, count, coins, n, w, done, most, lost);
      forall x | x in g.world
        ensures x in old(g.world) || fresh(x)
      {
        if x !in before {
          assert fresh@Before(x);
        }
      }
    }
    MadeAll(done, id, coins);
  }

  /** One more stack after those that have been added since `w`. */
  method AddNext(g: Game, top: Item, mint: nat -> ItemType, id: nat, count: nat, ghost coins: nat, n: nat,
                 ghost w: World<Item>, ghost done: seq<Stack>, ghost most: nat, ghost lost: nat)
    returns (left: nat, ghost now: seq<Stack>, ghost more: nat)
    requires g.Valid() && top in g.world && top.box && IsMint(mint)
    requires 0 < Unit(id) <= most && n > 0 && count == if MAX_STACK < n then MAX_STACK else n
    requires Made(done, id, coins, n) && Paid(w, WorldOf(g.world), top, mint, done, most, lost)
    modifies g, g.world
    ensures left == n - count
    ensures g.Valid() && Paid(w, WorldOf(g.world), top, mint, now, most, more) && Made(now, id, coins, left)
    ensures g.world >= old(g.world) && forall x :: x in g.world ==> x in old(g.world) || fresh(x)
  {
    ghost var v := WorldOf(g.world);
    var l := AddStack(g, top, mint, Stack(id, count), most);
    left := n - count;
    now, more := PaidMade(w, v, WorldOf(g.world), top, mint, id, count, coins, n, left, done, most, lost, l);
  }

  /** One more kind of coin after what has been added since `w`: ingots and crystal coins in as many stacks as it takes. */
  method AddKind(g: Game, top: Item, mint: nat -> ItemType, coins: nat, ghost money: nat, k: nat, ghost w: World<Item>,
                 ghost lost: nat) returns (ghost more: nat)
    requires g.Valid() && top in g.world && top.box && IsMint(mint) && k < 2 && coins == CoinsAt(money, k)
    requires PaidKinds(w, WorldOf(g.world), top, mint, money, k, lost)
    modifies g, g.world
    ensures g.Valid() && PaidKinds(w, WorldOf(g.world), top, mint, money, k + 1, more)
    ensures g.world >= old(g.world) && forall x :: x in g.world ==> x in old(g.world) || fresh(x)
  {
    ghost var n := WorldOf(g.world);
    more := lost;
    if coins > 0 {
      KindsAreSmall(money, k);
      var l := AddStacks(g, top, mint, KindAt(k), coins, money);
      more := PaidKind(w, n, WorldOf(g.world), top, mint, money, k, lost, l);
    } else {
      PaidNoKind(w, n, top, mint, money, k, lost);
    }
  }

  /** Platinum and gold coins in a single stack. */
  method AddLast(g: Game, top: Item, mint: nat -> ItemType, coins: nat, ghost money: nat, k: nat, ghost w: World<Item>,
                 ghost lost: nat) returns (ghost more: nat)
    requires g.Valid() && top in g.world && top.box && IsMint(mint) && 2 <= k < 4 && coins == CoinsAt(money, k)
    requires WholeStacks(money) && PaidKinds(w, WorldOf(g.world), top, mint, money, k, lost)
    modifies g, g.world
    ensures g.Valid() && PaidKinds(w, WorldOf(g.world), top, mint, money, k + 1, more)
    ensures g.world >= old(g.world) && forall x :: x in g.world ==> x in old(g.world) || fresh(x)
  {
    ghost var n := WorldOf(g.world);
    more := lost;
    if coins > 0 {
      KindsAreSmall(money, k);
      var l := AddStack(g, top, mint, Stack(KindAt(k), SizeOf(coins)), money);
      more := PaidKind(w, n, WorldOf(g.world), top, mint, money, k, lost, l);
    } else {
      PaidNoKind(w, n, top, mint, money, k, lost);
    }
  }

  /** How many coins of each kind `addMoney` counts, with the widths of the program; the last is what is left over. */
  method CountCoins(amount: nat) returns (goldIngots: nat, crystalCoins: nat, platinumCoins: nat, left: nat)
    ensures goldIngots == CoinsAt(amount, 0) && crystalCoins == CoinsAt(amount, 1)
    ensures platinumCoins == CoinsAt(amount, 2) && left == CoinsAt(amount, 3)
    ensures amount < 4295000000 ==>
              1000000 * goldIngots + 10000 * crystalCoins + 100 * platinumCoins + left == amount
              && crystalCoins < 100 && platinumCoins < 100 && left < 100
  {
    Left32Fits(amount, 1000000);
    goldIngots := (amount / 1000000) % UINT32;
    var money: nat := amount - (goldIngots * 1000000) % UINT32;
    Left32Fits(money, 10000);
    crystalCoins := (money / 10000) % UINT32;
    money := money - (crystalCoins * 10000) % UINT32;
    platinumCoins := (money / 100) % 0x1_0000;
    assert platinumCoins <= money / 100;
    left := money - platinumCoins * 100;
    if amount < 4295000000 {
      CountsAddUp(amount);
    }
  }

  /**
   `addMoney`: the stacks the program makes of the amount are added, highest kind first, to the
   container or, where that refuses, next to it.  `lost` is what the recursion of an accepted add
   drops; what it reports of that is not looked at.
   */
  method AddMoney(g: Game, top: Item, mint: nat -> ItemType, money: nat) returns (ghost lost: nat)
    requires g.Valid() && top in g.world && top.box && IsMint(mint) && WholeStacks(money)
    modifies g, g.world
    ensures g.Valid() && Paid(old(WorldOf(g.world)), WorldOf(g.world), top, mint, Minted(money), money, lost)
    ensures g.world >= old(g.world) && forall x :: x in g.world ==> x in old(g.world) || fresh(x)
  {
    ghost var w := WorldOf(g.world);
    PaidNothing(w, top, mint, money);
    var goldIngots, crystalCoins, platinumCoins, goldCoins := CountCoins(money);
    lost := AddAll(g, top, mint, goldIngots, crystalCoins, platinumCoins, goldCoins, money, w);
    PaidAllKinds(w, WorldOf(g.world), top, mint, money, lost);
  }

  method AddAll(g: Game, top: Item, mint: nat -> ItemType, a: nat, b: nat, c: nat, d: nat, ghost money: nat,
                ghost w: World<Item>) returns (ghost lost: nat)
    requires g.Valid() && top in g.world && top.box && IsMint(mint) && WholeStacks(money)
    requires a == CoinsAt(money, 0) && b == CoinsAt(money, 1) && c == CoinsAt(money, 2) && d == CoinsAt(money, 3)
    requires PaidKinds(w, WorldOf(g.world), top, mint, money, 0, 0)
    modifies g, g.world
    ensures g.Valid() && PaidKinds(w, WorldOf(g.world), top, mint, money, 4, lost)
    ensures g.world >= old(g.world) && forall x :: x in g.world ==> x in old(g.world) || fresh(x)
  {
    lost := AddHigh(g, top, mint, a, b, money, w);
    label High:
    ghost var high := g.world;
    lost := AddLow(g, top, mint, c, d, money, w, lost);
    forall x | x in g.world
      ensures x in old(g.world) || fresh(x)
    {
      if x !in high {
        assert fresh@High(x);
      }
    }
  }

  method AddHigh(g: Game, top: Item, mint: nat -> ItemType, a: nat, b: nat, ghost money: nat, ghost w: World<Item>)
    returns (ghost lost: nat)
    requires g.Valid() && top in g.world && top.box && IsMint(mint)
    requires a == CoinsAt(money, 0) && b == CoinsAt(money, 1) && PaidKinds(w, WorldOf(g.world), top, mint, money, 0, 0)
    modifies g, g.world
    ensures g.Valid() && PaidKinds(w, WorldOf(g.world), top, mint, money, 2, lost)
    ensures g.world >= old(g.world) && forall x :: x in g.world ==> x in old(g.world) || fresh(x)
  {
    lost := AddKind(g, top, mint, a, money, 0, w, 0);
    label First:
    ghost var before := g.world;
    lost := AddKind(g, top, mint, b, money, 1, w, lost);
    forall x | x in g.world
      ensures x in old(g.world) || fresh(x)
    {
      if x !in before {
        assert fresh@First(x);
      }
    }
  }

  method AddLow(g: Game, top: Item, mint: nat -> ItemType, c: nat, d: nat, ghost money: nat, ghost w: World<Item>,
                ghost soFar: nat) returns (ghost lost: nat)
    requires g.Valid() && top in g.world && top.box && IsMint(mint) && WholeStacks(money)
    requires c == CoinsAt(money, 2) && d == CoinsAt(money, 3) && PaidKinds(w, WorldOf(g.world), top, mint, money, 2, soFar)
    modifies g, g.world
    ensures g.Valid() && PaidKinds(w, WorldOf(g.world), top, mint, money, 4, lost)
    ensures g.world >= old(g.world) && forall x :: x in g.world ==> x in old(g.world) || fresh(x)
  {
    lost := AddLast(g, top, mint, c, money, 2, w, soFar);
    label First:
    ghost var before := g.world;
    lost := AddLast(g, top, mint, d, money, 3, w, lost);
    forall x | x in g.world
      ensures x in old(g.world) || fresh(x)
    {
      if x !in before {
        assert fresh@First(x);
      }
    }
  }

  // ----- removing money -----

  /** The entries of one container: containers join the worklist, coins the ordered list. */
  method ScanBox(c: Item, q: seq<Item>, m: seq<Coin<Item>>, money: nat, ghost s: set<Item>, ghost seen: seq<Item>)
    returns (q1: seq<Item>, m1: seq<Coin<Item>>, money1: nat)
    requires Forest(WorldOf(s)) && c in s && Distinct(seen + c.items)
    requires CoinsOf(WorldOf(s), m, seen) && money == Worths(m)
    ensures q1 == q + Boxes(WorldOf(s), c.items)
    ensures CoinsOf(WorldOf(s), m1, seen + c.items) && money1 == Worths(m1)
  {
    ghost var w := WorldOf(s);
    assert Holds(w, c);
    q1, m1, money1 := q, m, money;
    assert c.items[..0] == [] && seen + [] == seen && q + [] == q;
    for k := 0 to |c.items|
      invariant q1 == q + Boxes(w, c.items[..k])
      invariant CoinsOf(w, m1, seen + c.items[..k]) && money1 == Worths(m1)
    {
      var item := c.items[k];
      ScanStep(w, c.items, k, seen, q, m1);
      if item.box {
        q1 := q1 + [item];
      } else {
        var worth := Worth(item.typ.id, item.count);
        if worth != 0 {
          money1, m1 := money1 + worth, Emplace(m1, Coin(worth, item));
        }
      }
    }
    assert c.items[..|c.items|] == c.items;
  }

  lemma ScanStep<R>(w: World<R>, items: seq<R>, k: nat, seen: seq<R>, q: seq<R>, m: seq<Coin<R>>)
    requires k < |items| && items[k] in w && Distinct(seen + items) && CoinsOf(w, m, seen + items[..k])
    ensures CoinsOf(w, Noted(w, m, items[k]), seen + items[..k+1])
    ensures q + Boxes(w, items[..k+1]) == q + Boxes(w, items[..k]) + if w[items[k]].box then [items[k]] else []
    ensures Worths(Noted(w, m, items[k])) ==
            Worths(m) + if w[items[k]].box then 0 else Worth(w[items[k]].typ.id, w[items[k]].count)
  {
    var x := items[k];
    assert items[..k+1] == items[..k] + [x] && seen + items[..k+1] == seen + items[..k] + [x];
    assert (seen + items)[|seen| + k] == x;
    assert (seen + items)[..|seen| + k] == seen + items[..k];
    assert x !in (seen + items)[..|seen| + k];
    CoinsOfNext(w, m, seen + items[..k], x);
    var _ := EmplaceAt(m, Coin(Worth(w[x].typ.id, w[x].count), x));
    BoxesConcat(w, items[..k], [x]);
    assert Boxes(w, [x]) == (if w[x].box then [x] else []) + Boxes(w, []);
  }

  /** The worklist has been gone through up to `i`, and `m` lists the coins seen so far; sealed. */
  ghost predicate Gathering<R>(w: World<R>, top: R, q: seq<R>, i: nat, m: seq<Coin<R>>, money: nat, seen: seq<R>) {
    forall k {:trigger Unsealed(OfReads, k)} :: Unsealed(OfReads, k) ==>
      Worklist(w, top, q, i) && seen == Entries(w, q[..i]) && CoinsOf(w, m, seen) && money == Worths(m)
  }

  /** All coins inside `top`, and what they are worth together. */
  method Gather(top: Item, ghost s: set<Item>) returns (m: seq<Coin<Item>>, moneyCount: nat, ghost seen: seq<Item>)
    requires Forest(WorldOf(s)) && top in s
    ensures CoinsOf(WorldOf(s), m, seen) && forall x :: x in seen <==> x in Inside(WorldOf(s), top)
    ensures moneyCount == Worths(m) == GoldInside(WorldOf(s), top)
  {
    ghost var w := WorldOf(s);
    var containers, i := [top], 0;
    m, moneyCount, seen := [], 0, [];
    GatherStart(w, top);
    while i < |containers|
      invariant i <= |containers| && Gathering(w, top, containers, i, m, moneyCount, seen)
      decreases |w| - i
    {
      containers, m, moneyCount, seen := GatherBox(top, containers, i, m, moneyCount, s, seen);
      i := i + 1;
    }
    GatherDone(w, top, containers, i, m, moneyCount, seen);
  }

  lemma GatherStart<R>(w: World<R>, c: R)
    requires Forest(w) && c in w
    ensures Gathering<R>(w, c, [c], 0, [], 0, [])
  {
    assert [c][..0] == [];
  }

  lemma GatherDone<R>(w: World<R>, c: R, q: seq<R>, i: nat, m: seq<Coin<R>>, money: nat, seen: seq<R>)
    requires i == |q| && Gathering(w, c, q, i, m, money, seen)
    ensures Forest(w) && c in w && CoinsOf(w, m, seen) && money == Worths(m) == GoldInside(w, c)
    ensures forall x :: x in seen <==> x in Inside(w, c)
  {
    assert Unsealed(OfReads, 0);
    assert q[..i] == q;
    WorklistDone(w, c, q);
  }

  /** One container of the worklist. */
  method GatherBox(top: Item, q: seq<Item>, i: nat, m: seq<Coin<Item>>, money: nat, ghost s: set<Item>, ghost seen: seq<Item>)
    returns (q1: seq<Item>, m1: seq<Coin<Item>>, money1: nat, ghost seen1: seq<Item>)
    requires i < |q| && Gathering(WorldOf(s), top, q, i, m, money, seen)
    ensures i < |q1| && i < |WorldOf(s)| && Gathering(WorldOf(s), top, q1, i + 1, m1, money1, seen1)
  {
    assert Unsealed(OfReads, 0);
    GatherStep(WorldOf(s), top, q, i);
    var c := q[i];
    q1, m1, money1 := ScanBox(c, q, m, money, s, seen);
    seen1 := seen + c.items;
  }

  lemma GatherStep<R>(w: World<R>, c: R, q: seq<R>, i: nat)
    requires Worklist(w, c, q, i) && i < |q|
    ensures |q| <= |w| && q[i] in w && Distinct(Entries(w, q[..i]) + w[q[i]].items)
    ensures Worklist(w, c, q + Boxes(w, w[q[i]].items), i + 1)
    ensures Entries(w, (q + Boxes(w, w[q[i]].items))[..i+1]) == Entries(w, q[..i]) + w[q[i]].items
  {
    WorklistShort(w, c, q, i);
    WorklistStep(w, c, q, i);
    var p := q + Boxes(w, w[q[i]].items);
    assert Distinct(p[..i+1]);
    EntriesDistinct(w, p[..i+1]);
  }

  // ----- paying -----

  /** Coins are stacks. */
  ghost predicate CoinsStack<R>(w: World<R>) {
    forall x :: x in w && Unit(w[x].typ.id) > 0 ==> w[x].typ.stackable
  }

  /** A whole stack of coins goes. */
  method TakeWhole(g: Game, top: Item, ghost m: seq<Coin<Item>>, e: Coin<Item>)
    requires g.Valid() && top in g.world
    requires m != [] && e == m[0] && Payable(WorldOf(g.world), m, top)
    modifies g`toRelease, g.world
    ensures g.Valid() && Payable(WorldOf(g.world), m[1..], top)
    ensures Total(WorldOf(g.world), Gold) + e.worth == Total(old(WorldOf(g.world)), Gold)
  {
    ghost var w := WorldOf(g.world);
    assert Untouched(w, m[0]) && w[e.item].parent == e.item.parent && w[e.item].count == e.item.count;
    assert Linked(w, e.item);
    TakeNext(w, m, top);
    var ret := g.InternalRemoveItem(e.item, e.item.count, false);
  }

  /** Part of a stack of coins goes, or all of it. */
  method TakePart(g: Game, item: Item, k: nat)
    requires g.Valid() && item in g.world && item.parent.In? && !item.box && item.typ.stackable && 1 <= k <= item.count
    modifies g`toRelease, g.world
    ensures g.Valid()
    ensures Total(WorldOf(g.world), Gold) + Worth(old(item.typ.id), k) == Total(old(WorldOf(g.world)), Gold)
  {
    ghost var w := WorldOf(g.world);
    assert w[item] == item.Look();
    assert Linked(w, item);
    TotalRemoved(w, item.parent.c, item, k);
    var ret := g.InternalRemoveItem(item, k, false);
  }

  /** Breaking a stack costs the amount and no more. */
  method BreakCoin(g: Game, top: Item, mint: nat -> ItemType, ghost m: seq<Coin<Item>>, e: Coin<Item>, money: nat)
    requires g.Valid() && top in g.world && top.box && IsMint(mint)
    requires m != [] && e == m[0] && Payable(WorldOf(g.world), m, top) && 0 < money < e.worth
    modifies g, g.world
    ensures g.Valid()
    ensures Total(WorldOf(g.world), Gold) + money == Total(old(WorldOf(g.world)), Gold)
  {
    ghost var w := WorldOf(g.world);
    var item := e.item;
    assert Untouched(w, m[0]);
    assert w[item] == item.Look();
    BreakStack(item.typ.id, item.count, money);
    var worth := e.worth / item.count;
    var removeCount := CoinsFor(money, worth);
    GiveChange(g, top, mint, m, worth * removeCount - money);
    TakePart(g, item, removeCount);
  }

  /** The change for a stack that is about to be broken arrives in full, and leaves that stack alone. */
  method GiveChange(g: Game, top: Item, mint: nat -> ItemType, ghost m: seq<Coin<Item>>, change: nat)
    requires g.Valid() && top in g.world && top.box && IsMint(mint)
    requires m != [] && Payable(WorldOf(g.world), m, top)
    requires m[0].item in g.world && change < Unit(m[0].item.typ.id)
    modifies g, g.world
    ensures g.Valid() && Total(WorldOf(g.world), Gold) == Total(old(WorldOf(g.world)), Gold) + change
    ensures var x := m[0].item;
            && x in g.world && x.parent.In? && x.count == old(x.count) && x.typ == old(x.typ)
            && !x.box && x.typ.stackable
    ensures g.world >= old(g.world) && forall x :: x in g.world ==> x in old(g.world) || fresh(x)
  {
    ghost var w, x := WorldOf(g.world), m[0].item;
    assert Untouched(w, m[0]) && w[x] == x.Look();
    MintedIsChange(change);
    var lost := AddMoney(g, top, mint, change);
    ghost var n := WorldOf(g.world);
    ChangePaid(w, n, m, top, mint, change, lost);
    StaysWhole(w, n, m[0], change);
    assert n[x] == x.Look();
  }

  lemma ChangePaid<R>(w: World<R>, n: World<R>, m: seq<Coin<R>>, top: R, mint: nat -> ItemType, change: nat, lost: nat)
    requires Paid(w, n, top, mint, Minted(change), change, lost)
    requires Payable(w, m, top) && m != [] && Stacked(w) && IsMint(mint) && change < Unit(w[m[0].item].typ.id)
    ensures Kept(w, n, change) && Total(n, Gold) == Total(w, Gold) + change
  {
    assert Unsealed(OfAdds, 0);
    MintedIsChange(change);
    ChangeIsExact(change);
    ChangeIsKept(w, m, top, mint, change);
  }

  /** The next stack is taken whole or broken; `left` is what is still to be paid. */
  method PayNext(g: Game, top: Item, mint: nat -> ItemType, m: seq<Coin<Item>>, money: nat) returns (left: nat)
    requires g.Valid() && top in g.world && top.box && IsMint(mint)
    requires m != [] && Payable(WorldOf(g.world), m, top) && 0 < money <= Worths(m)
    modifies g, g.world
    ensures g.Valid() && Total(WorldOf(g.world), Gold) + money == Total(old(WorldOf(g.world)), Gold) + left
    ensures left > 0 ==> g.world == old(g.world) && Payable(WorldOf(g.world), m[1..], top) && left <= Worths(m[1..])
  {
    var e := m[0];
    if e.worth <= money {
      TakeWhole(g, top, m, e);
      left := money - e.worth;
    } else {
      BreakCoin(g, top, mint, m, e, money);
      left := 0;
    }
  }

  /** Stacks are taken, the least valuable first, until the amount is reached; the last one may be broken. */
  method Pay(g: Game, top: Item, mint: nat -> ItemType, m: seq<Coin<Item>>, amount: nat)
    requires g.Valid() && top in g.world && top.box && IsMint(mint)
    requires Payable(WorldOf(g.world), m, top) && 0 < amount <= Worths(m)
    modifies g, g.world
    ensures g.Valid()
    ensures Total(WorldOf(g.world), Gold) + amount == Total(old(WorldOf(g.world)), Gold)
  {
    ghost var w := WorldOf(g.world);
    var money, j := amount, 0;
    assert m[0..] == m;
    while j < |m|
      invariant j <= |m| && g.Valid() && g.world == old(g.world)
      invariant top in g.world && Payable(WorldOf(g.world), m[j..], top)
      invariant 0 < money <= Worths(m[j..])
      invariant Total(WorldOf(g.world), Gold) + amount == Total(w, Gold) + money
    {
      assert m[j..][1..] == m[j+1..];
      money := PayNext(g, top, mint, m[j..], money);
      if money == 0 {
        break;
      }
      j := j + 1;
    }
  }

  /**
   `removeMoney` on a container.  It fails, changing nothing, exactly when the coins inside are
   worth less than the amount; otherwise the gold in the world, what lies next to the container
   included, falls by exactly the amount, however little room there is for change.
   */
  method RemoveMoney(g: Game, top: Item, mint: nat -> ItemType, money: nat) returns (ok: bool)
    requires g.Valid() && top in g.world && top.box && IsMint(mint) && CoinsStack(WorldOf(g.world))
    modifies g, g.world
    ensures g.Valid()
    ensures ok <==> money == 0 || money <= GoldInside(old(WorldOf(g.world)), top)
    ensures !ok ==> WorldOf(g.world) == old(WorldOf(g.world))
    ensures ok ==> Total(WorldOf(g.world), Gold) + money == Total(old(WorldOf(g.world)), Gold)
  {
    if money == 0 {
      return true;
    }
    var moneyMap, moneyCount, seen := Gather(top, g.world);
    if moneyCount < money {
      return false;
    }
    GatheredPayable(WorldOf(g.world), top, moneyMap, seen);
    Pay(g, top, mint, moneyMap, money);
    ok := true;
  }

  lemma GatheredPayable<R>(w: World<R>, top: R, m: seq<Coin<R>>, seen: seq<R>)
    requires Forest(w) && top in w && CoinsOf(w, m, seen) && CoinsStack(w)
    requires forall x :: x in seen <==> x in Inside(w, top)
    ensures Payable(w, m, top)
  {
    forall k | 0 <= k < |m|
      ensures Untouched(w, m[k])
    {
      assert m[k].item in seen && IsCoin(w, m[k]);
      InAContainer(w, m[k].item, top);
    }
    forall x | x in w[top].items
      ensures Listed(w, m, x)
    {
      EntryIsInside(w, x, top);
    }
  }

  lemma EntryIsInside<R>(w: World<R>, x: R, top: R)
    requires Forest(w) && top in w && x in w[top].items
    ensures x in Inside(w, top)
  {
    assert Holds(w, top) && Linked(w, x);
    assert Under(w, top, top);
  }

  lemma InAContainer<R>(w: World<R>, x: R, top: R)
    requires Forest(w) && top in w && x in Inside(w, top)
    ensures x in w && w[x].parent.In?
  {
    assert StrictlyUnder(w, x, top);
    assert Linked(w, x);
  }
}
