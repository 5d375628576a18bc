/**
 Amounts of gold as stacks of coins: which stacks `addMoney` makes of an amount, what adding them
 to a container loses, and how much of a stack `removeMoney` breaks.
 */
module Coins {
  import opened Arithmetic
  import opened ItemTree
  import opened Queries
  import opened Census
  import opened Moves
  import opened Adding
  import opened Traversal
  import opened Seals

  /** What one coin of a kind is worth; zero for everything that is no coin. */
  function Unit(id: nat): nat {
    Worth(id, 1)
  }

  /** The entries of the item table for the four kinds of coin. */
  ghost predicate IsMint(mint: nat -> ItemType) {
    forall id :: Unit(id) > 0 ==> mint(id).id == id && mint(id).stackable && mint(id).pickupable
  }

  datatype Stack = Stack(id: nat, count: nat)

  /** `n` coins of one kind in stacks of at most a hundred. */
  function Stacks(id: nat, n: nat): seq<Stack> {
    if n == 0 then []
    else if n <= MAX_STACK then [Stack(id, n)]
    else [Stack(id, MAX_STACK)] + Stacks(id, n - MAX_STACK)
  }

  /** The stacks `done` and the coins still to come make up the whole. */
  ghost predicate Made(done: seq<Stack>, id: nat, coins: nat, n: nat) {
    forall k {:trigger Unsealed(OfMints, k)} :: Unsealed(OfMints, k) ==> done + Stacks(id, n) == Stacks(id, coins)
  }

  lemma MadeNone(id: nat, coins: nat)
    ensures Made([], id, coins, coins)
  {
    assert [] + Stacks(id, coins) == Stacks(id, coins);
  }

  lemma MadeNext(done: seq<Stack>, id: nat, coins: nat, n: nat, s: Stack)
    requires Made(done, id, coins, n) && n > 0
    requires s == Stack(id, if MAX_STACK < n then MAX_STACK else n)
    ensures Made(done + [s], id, coins, n - s.count)
  {
    assert Unsealed(OfMints, 0);
    assert done + [s] + Stacks(id, n - s.count) == done + Stacks(id, n);
  }

  lemma MadeAll(done: seq<Stack>, id: nat, coins: nat)
    requires Made(done, id, coins, 0)
    ensures done == Stacks(id, coins)
  {
    assert Unsealed(OfMints, 0);
    assert done + [] == done;
  }

  /** The stacks made of an amount, highest kind first. */
  function Change(money: nat): seq<Stack> {
    Stacks(GOLD_INGOT, money / 1000000) + Stacks(CRYSTAL_COIN, money % 1000000 / 10000)
    + Stacks(PLATINUM_COIN, money % 10000 / 100) + Stacks(GOLD_COIN, money % 100)
  }

  function StacksWorth(s: seq<Stack>): nat {
    if s == [] then 0 else Worth(s[0].id, s[0].count) + StacksWorth(s[1..])
  }

  lemma {:induction false} StacksWorthConcat(s: seq<Stack>, t: seq<Stack>)
    ensures StacksWorth(s + t) == StacksWorth(s) + StacksWorth(t)
  {
    if s == [] {
      assert s + t == t;
    } else {
      StacksWorthConcat(s[1..], t);
      assert (s + t)[1..] == s[1..] + t;
    }
  }

  lemma {:induction false} StacksAreWorth(id: nat, n: nat)
    ensures StacksWorth(Stacks(id, n)) == Worth(id, n)
    ensures forall k :: 0 <= k < |Stacks(id, n)| ==> Stacks(id, n)[k].id == id && 1 <= Stacks(id, n)[k].count <= MAX_STACK
  {
    if n > MAX_STACK {
      StacksAreWorth(id, n - MAX_STACK);
      assert Stacks(id, n)[1..] == Stacks(id, n - MAX_STACK);
    }
  }

  /** The stacks are worth the amount exactly. */
  lemma ChangeIsExact(money: nat)
    ensures StacksWorth(Change(money)) == money
  {
    var a, b := Stacks(GOLD_INGOT, money / 1000000), Stacks(CRYSTAL_COIN, money % 1000000 / 10000);
    var c, d := Stacks(PLATINUM_COIN, money % 10000 / 100), Stacks(GOLD_COIN, money % 100);
    StacksAreWorth(GOLD_INGOT, money / 1000000);
    StacksAreWorth(CRYSTAL_COIN, money % 1000000 / 10000);
    StacksAreWorth(PLATINUM_COIN, money % 10000 / 100);
    StacksAreWorth(GOLD_COIN, money % 100);
    StacksWorthConcat(a, b);
    StacksWorthConcat(a + b, c);
    StacksWorthConcat(a + b + c, d);
    Digits(money);
  }

  lemma Digits(money: nat)
    ensures money / 1000000 * 1000000 + money % 1000000 / 10000 * 10000 + money % 10000 / 100 * 100 + money % 100 == money
    ensures money % 1000000 % 10000 == money % 10000 && money % 10000 % 100 == money % 100
  {
    assert money % 1000000 % 10000 == money % 10000;
    assert money % 10000 % 100 == money % 100;
  }

  /** Every stack of change is a real stack of coins, each coin worth no more than the amount. */
  lemma ChangeIsCoins(money: nat, k: nat)
    requires k < |Change(money)|
    ensures 1 <= Change(money)[k].count <= MAX_STACK && 0 < Unit(Change(money)[k].id) <= money
  {
    StacksAreWorth(GOLD_INGOT, money / 1000000);
    StacksAreWorth(CRYSTAL_COIN, money % 1000000 / 10000);
    StacksAreWorth(PLATINUM_COIN, money % 10000 / 100);
    StacksAreWorth(GOLD_COIN, money % 100);
  }

  // ----- the same with the widths of the program -----

  /** The kinds of coin in the order in which they are made. */
  function KindAt(k: nat): nat {
    if k == 0 then GOLD_INGOT else if k == 1 then CRYSTAL_COIN else if k == 2 then PLATINUM_COIN else GOLD_COIN
  }

  /** How many coins of a kind there are in an amount, as a number of 32 bits. */
  function Count32(money: nat, unit: nat): nat
    requires unit > 0
  {
    money / unit % UINT32
  }

  /** What is left of the amount; the worth of the coins is subtracted as a number of 32 bits. */
  function Left32(money: nat, unit: nat): (left: nat)
    requires unit > 0
    ensures left <= money
  {
    Left32Fits(money, unit);
    money - Count32(money, unit) * unit % UINT32
  }

  lemma Left32Fits(money: nat, unit: nat)
    requires unit > 0
    ensures Count32(money, unit) * unit % UINT32 <= money
  {
    var q := money / unit;
    if money < UINT32 {
      DivIs(q, unit, money % unit);
      Multiple(q, unit, money);
      ModUnique(q, UINT32);
      ModUnique(q * unit, UINT32);
    }
  }

  lemma Multiple(q: nat, unit: nat, money: nat)
    requires unit > 0 && q == money / unit
    ensures q <= q * unit <= money
  {
    assert money == q * unit + money % unit;
    if q > 0 {
      Covers(q, unit);
    }
  }

  /** How many coins of each kind `addMoney` counts: ingots, crystal coins, platinum coins in 16 bits, and the rest. */
  function CoinsAt(money: nat, k: nat): nat {
    if k == 0 then Count32(money, 1000000)
    else if k == 1 then Count32(Left32(money, 1000000), 10000)
    else if k == 2 then SmallChange(money) / 100 % 0x1_0000
    else
      var platinum := SmallChange(money) / 100 % 0x1_0000;
      assert platinum <= SmallChange(money) / 100;
      SmallChange(money) - platinum * 100
  }

  /** What is left for platinum and gold coins. */
  function SmallChange(money: nat): nat {
    Left32(Left32(money, 1000000), 10000)
  }

  /** The size of a new stack: `CreateItem` takes it in 16 bits, makes one of none, and stores 8 bits. */
  function SizeOf(count: nat): nat {
    if count % 0x1_0000 == 0 then 1 else count % 256
  }

  /** The stacks of one kind.  Platinum and gold coins are made in a single stack, whatever their number. */
  function MintedAt(money: nat, k: nat): seq<Stack> {
    if k < 2 then Stacks(KindAt(k), CoinsAt(money, k))
    else if CoinsAt(money, k) == 0 then []
    else [Stack(KindAt(k), SizeOf(CoinsAt(money, k)))]
  }

  /** The stacks of the first `k` kinds. */
  function MintedUpTo(money: nat, k: nat): seq<Stack> {
    if k == 0 then [] else MintedUpTo(money, k - 1) + MintedAt(money, k - 1)
  }

  /** The stacks `addMoney` makes of an amount. */
  function Minted(money: nat): seq<Stack> {
    MintedUpTo(money, 4)
  }

  /** The platinum and the gold coins come out as stacks of one to a hundred. */
  predicate WholeStacks(money: nat) {
    forall k :: 2 <= k < 4 && CoinsAt(money, k) > 0 ==> 1 <= SizeOf(CoinsAt(money, k)) <= MAX_STACK
  }

  /** A kind is made only of an amount that is worth one coin of it. */
  lemma KindsAreSmall(money: nat, k: nat)
    requires k < 4 && CoinsAt(money, k) > 0
    ensures 0 < Unit(KindAt(k)) <= money
  {
  }

  /** What the platinum and the gold coins are worth. */
  function SmallWorth(money: nat): nat {
    StacksWorth(MintedAt(money, 2)) + StacksWorth(MintedAt(money, 3))
  }

  lemma MintedWorth(money: nat)
    ensures StacksWorth(Minted(money)) == 1000000 * CoinsAt(money, 0) + 10000 * CoinsAt(money, 1) + SmallWorth(money)
  {
    var a, b, c, d := MintedAt(money, 0), MintedAt(money, 1), MintedAt(money, 2), MintedAt(money, 3);
    MintedKinds(money);
    StacksWorthConcat(a, b);
    StacksWorthConcat(a + b, c);
    StacksWorthConcat(a + b + c, d);
    StacksAreWorth(GOLD_INGOT, CoinsAt(money, 0));
    StacksAreWorth(CRYSTAL_COIN, CoinsAt(money, 1));
  }

  /** How often 32 bits overflow when the worth of the ingots is computed, and when crystal coins are counted. */
  function IngotWraps(money: nat): nat {
    CoinsAt(money, 0) * 1000000 / UINT32
  }

  function CrystalWraps(money: nat): nat {
    Left32(money, 1000000) / 10000 / UINT32
  }

  /** The platinum and gold coins that should be made come through their narrow counts. */
  predicate SmallFits(money: nat) {
    var due, platinum := Left32(money, 1000000) % 10000, SmallChange(money) / 100 % 256;
    && 100 * platinum <= due < 100 * platinum + 256
    && (CoinsAt(money, 3) % 0x1_0000 == 0 ==> CoinsAt(money, 3) == 0)
  }

  /**
   For every amount: what is minted is worth the amount exactly if the worth of the ingots
   overflows ten thousand times as often as the count of crystal coins, and the small coins fit.
   */
  lemma MintIsExact(money: nat)
    ensures StacksWorth(Minted(money)) == money <==> IngotWraps(money) == 10000 * CrystalWraps(money) && SmallFits(money)
  {
    MintedWorth(money);
    MintOff(money);
    SmallIs(money);
    OffByWraps(StacksWorth(Minted(money)), money, IngotWraps(money) - 10000 * CrystalWraps(money),
               SmallWorth(money) - Left32(money, 1000000) % 10000);
  }

  lemma OffByWraps(minted: int, money: int, d: int, off: int)
    requires minted == money + d * UINT32 + off && -10000 < off < 25800
    ensures minted == money <==> d == 0 && off == 0
  {
  }

  /** Below 2^32 * 10000, where no count of crystal coins overflows, the first amount minted wrongly is 4295000000. */
  lemma MintIsExactBelow(money: nat)
    requires money < 42949672960000
    ensures StacksWorth(Minted(money)) == money <==> money < 4295000000
    ensures StacksWorth(Minted(money)) >= money
    ensures money < 4295000000 ==> Minted(money) == Change(money)
  {
    if money < 4295000000 {
      MintedIsChange(money);
      ChangeIsExact(money);
    } else {
      MintedWorth(money);
      MintOff(money);
      SmallIs(money);
      WrapsBelow(money);
    }
  }

  lemma WrapsBelow(money: nat)
    requires 4295000000 <= money < 42949672960000
    ensures IngotWraps(money) >= 1 && CrystalWraps(money) == 0
  {
    ModUnique(money / 1000000, UINT32);
    assert CoinsAt(money, 0) >= 4295;
  }

  /** Below the bound nothing overflows, and the counts are those of the digits. */
  lemma CountsBelow(money: nat)
    requires money < 4295000000
    ensures CoinsAt(money, 0) == money / 1000000 && CoinsAt(money, 1) == money % 1000000 / 10000
    ensures CoinsAt(money, 2) == money % 10000 / 100 && CoinsAt(money, 3) == money % 100
  {
    var left := money % 1000000;
    ModUnique(money / 1000000, UINT32);
    ModUnique(money / 1000000 * 1000000, UINT32);
    assert CoinsAt(money, 0) == money / 1000000 && Left32(money, 1000000) == left;
    ModUnique(left / 10000, UINT32);
    ModUnique(left / 10000 * 10000, UINT32);
    assert CoinsAt(money, 1) == left / 10000 && SmallChange(money) == left % 10000;
    Digits(money);
    SmallBelow(money, money % 10000);
  }

  lemma SmallBelow(money: nat, small: nat)
    requires small == SmallChange(money) < 10000
    ensures CoinsAt(money, 2) == small / 100 && CoinsAt(money, 3) == small % 100
  {
    ModUnique(small / 100, 0x1_0000);
  }

  lemma CountsAddUp(money: nat)
    requires money < 4295000000
    ensures CoinsAt(money, 1) < 100 && CoinsAt(money, 2) < 100 && CoinsAt(money, 3) < 100
    ensures 1000000 * CoinsAt(money, 0) + 10000 * CoinsAt(money, 1) + 100 * CoinsAt(money, 2) + CoinsAt(money, 3) == money
  {
    CountsBelow(money);
    Digits(money);
  }

  lemma MintedIsChange(money: nat)
    requires money < 4295000000
    ensures Minted(money) == Change(money)
    ensures WholeStacks(money)
  {
    CountsBelow(money);
    CountsAddUp(money);
    MintedKinds(money);
    OneStack(money, 2);
    OneStack(money, 3);
  }

  lemma OneStack(money: nat, k: nat)
    requires 2 <= k < 4 && CoinsAt(money, k) < 100
    ensures MintedAt(money, k) == Stacks(KindAt(k), CoinsAt(money, k))
  {
  }

  lemma MintedKinds(money: nat)
    ensures Minted(money) == MintedAt(money, 0) + MintedAt(money, 1) + MintedAt(money, 2) + MintedAt(money, 3)
  {
    var a, b, c := MintedAt(money, 0), MintedAt(money, 1), MintedAt(money, 2);
    assert MintedUpTo(money, 1) == [] + a == a;
    assert MintedUpTo(money, 2) == a + b;
    assert MintedUpTo(money, 3) == a + b + c;
  }

  /** An amount far above the bound that is minted exactly. */
  lemma MintExactAgain(money: nat)
    requires money == 42949673000001
    ensures StacksWorth(Minted(money)) == money
  {
    assert Counted(money, 42949673, 42949672960001, 0, 42949672960001, 0);
    MintedBy(money, 42949673, 42949672960001, 0, 42949672960001, 0, money);
  }

  /** An amount of which less is minted. */
  lemma MintLess(money: nat)
    requires money == 0x8000_0000_0000_0000
    ensures StacksWorth(Minted(money)) == 2092916088517632 < money
  {
    assert Counted(money, 2077252342, 9223372032560584320, 1566374650, 9223372032559812832, 60336);
    MintedBy(money, 2077252342, 9223372032560584320, 1566374650, 9223372032559812832, 60336, 2092916088517632);
  }

  /** The coins counted step by step. */
  predicate Counted(money: nat, ingots: nat, left: nat, crystals: nat, small: nat, platinum: nat) {
    && ingots == Count32(money, 1000000) && left == money - ingots * 1000000 % UINT32
    && crystals == Count32(left, 10000) && small == left - crystals * 10000 % UINT32
    && platinum == small / 100 % 0x1_0000
  }

  lemma CountedAre(money: nat, ingots: nat, left: nat, crystals: nat, small: nat, platinum: nat)
    requires Counted(money, ingots, left, crystals, small, platinum)
    ensures CoinsAt(money, 0) == ingots && CoinsAt(money, 1) == crystals
    ensures CoinsAt(money, 2) == platinum && CoinsAt(money, 3) == small - 100 * platinum
  {
  }

  lemma MintedBy(money: nat, ingots: nat, left: nat, crystals: nat, small: nat, platinum: nat, worth: nat)
    requires Counted(money, ingots, left, crystals, small, platinum) && small >= 100 * platinum
    requires worth == 1000000 * ingots + 10000 * crystals
             + (if platinum == 0 then 0 else 100 * SizeOf(platinum))
             + if small == 100 * platinum then 0 else SizeOf(small - 100 * platinum)
    ensures StacksWorth(Minted(money)) == worth
  {
    CountedAre(money, ingots, left, crystals, small, platinum);
    MintedWorth(money);
    SmallStacks(money);
  }

  /** How far off the amount the ingots and the crystal coins are. */
  lemma MintOff(money: nat)
    ensures 1000000 * CoinsAt(money, 0) + 10000 * CoinsAt(money, 1) + Left32(money, 1000000) % 10000 ==
            money + (IngotWraps(money) - 10000 * CrystalWraps(money)) * UINT32
    ensures SmallChange(money) ==
            10000 * CrystalWraps(money) * UINT32 + CoinsAt(money, 1) * 10000 / UINT32 * UINT32 + Left32(money, 1000000) % 10000
  {
    var left := Left32(money, 1000000);
    SplitCount(left, 10000);
    assert left == money - CoinsAt(money, 0) * 1000000 % UINT32;
    assert SmallChange(money) == left - CoinsAt(money, 1) * 10000 % UINT32;
  }

  lemma SplitCount(left: nat, unit: nat)
    requires unit > 0
    ensures left == (left / unit / UINT32 * UINT32 + Count32(left, unit)) * unit + left % unit
  {
  }

  /** The small coins are worth what is due exactly if they fit. */
  lemma SmallIs(money: nat)
    ensures var due := Left32(money, 1000000) % 10000;
            (SmallWorth(money) == due <==> SmallFits(money)) && -10000 < SmallWorth(money) - due < 25800
  {
    var due, x := Left32(money, 1000000) % 10000, SmallChange(money);
    MintOff(money);
    SmallBits(x, due, 10000 * CrystalWraps(money) + CoinsAt(money, 1) * 10000 / UINT32);
    SmallStacks(money);
    SmallNarrow(due, CoinsAt(money, 2), CoinsAt(money, 3));
  }

  /** Both counts come down to their last eight bits, but a gold count of 65536 or a multiple of it to one. */
  lemma SmallNarrow(due: nat, p: nat, g: nat)
    requires due < 10000 && p < 0x1_0000 && g % 256 == (due - 100 * (p % 256)) % 256
    ensures var low := (if p == 0 then 0 else 100 * SizeOf(p)) + if g == 0 then 0 else SizeOf(g);
            && -10000 < low - due < 25800
            && (low == due <==> 100 * (p % 256) <= due < 100 * (p % 256) + 256 && (g % 0x1_0000 == 0 ==> g == 0))
  {
    var d := due - 100 * (p % 256);
    assert (if p == 0 then 0 else SizeOf(p)) == p % 256 by {
      ModUnique(p, 0x1_0000);
    }
    ModUnique(d, 256);
    if g % 0x1_0000 == 0 {
      LowBits(g);
    }
  }

  lemma LowBits(g: nat)
    ensures g % 0x1_0000 % 256 == g % 256
  {
    var r := g % 0x1_0000;
    DivIs(g / 0x1_0000 * 256 + r / 256, 256, r % 256);
  }

  lemma SmallStacks(money: nat)
    ensures StacksWorth(MintedAt(money, 2)) == if CoinsAt(money, 2) == 0 then 0 else 100 * SizeOf(CoinsAt(money, 2))
    ensures StacksWorth(MintedAt(money, 3)) == if CoinsAt(money, 3) == 0 then 0 else SizeOf(CoinsAt(money, 3))
  {
  }

  lemma SmallBits(x: nat, due: nat, n: nat)
    requires x == n * UINT32 + due && due < 10000
    ensures var p := x / 100 % 0x1_0000;
            && p % 256 == x / 100 % 256
            && (x - 100 * p) % 256 == (due - 100 * (p % 256)) % 256
  {
    var q := x / 100;
    var p := q % 0x1_0000;
    LowBits(q);
    SmallLeft(x, due, n, p, p / 256, p % 256);
  }

  lemma SmallLeft(x: nat, due: nat, n: nat, p: nat, h: nat, low: nat)
    requires x == n * UINT32 + due && p == 256 * h + low
    ensures (x - 100 * p) % 256 == (due - 100 * low) % 256
  {
    assert x - 100 * p == due - 100 * low + 256 * (n * 0x100_0000 - 100 * h);
    ModShift(due - 100 * low, n * 0x100_0000 - 100 * h);
  }

  lemma ModShift(v: int, k: int)
    ensures (v + 256 * k) % 256 == v % 256
  {
  }

  // ----- adding change to a container -----

  function SlotFor(mint: nat -> ItemType, s: Stack): Slot {
    Slot(mint(s.id), NewAttrs(mint(s.id)), s.count)
  }

  /** The attributes a newly created item of a type starts with. */
  function NewAttrs(t: ItemType): Attrs {
    if t.decayTime != 0 then SetVal(NoAttrs, DURATION, Number(t.decayTime * 1000)) else NoAttrs
  }

  datatype Settled = Settled(shelf: seq<Slot>, lost: nat)

  /**
   The stacks added one after the other.  One that is refused goes to the floor instead; what the
   recursion of an accepted one drops is lost.
   */
  function Settle(mint: nat -> ItemType, shelf: seq<Slot>, cap: nat, s: seq<Stack>): Settled
    decreases |s|
  {
    if s == [] then Settled(shelf, 0)
    else
      var r := AddTo(shelf, cap, SlotFor(mint, s[0]));
      var rest := Settle(mint, r.shelf, cap, s[1..]);
      Settled(rest.shelf, Worth(s[0].id, r.lost) + rest.lost)
  }

  lemma {:induction false} SettleConcat(mint: nat -> ItemType, shelf: seq<Slot>, cap: nat, s: seq<Stack>, t: seq<Stack>)
    ensures var a := Settle(mint, shelf, cap, s);
            var b := Settle(mint, a.shelf, cap, t);
            Settle(mint, shelf, cap, s + t) == Settled(b.shelf, a.lost + b.lost)
    decreases |s|
  {
    if s == [] {
      assert s + t == t;
    } else {
      var r := SettleHead(mint, shelf, cap, s, t);
      SettleConcat(mint, r.shelf, cap, s[1..], t);
    }
  }

  /** The first stack of `s`, with and without `t` behind it. */
  lemma SettleHead(mint: nat -> ItemType, shelf: seq<Slot>, cap: nat, s: seq<Stack>, t: seq<Stack>) returns (r: AddResult)
    requires s != []
    ensures var rest := Settle(mint, r.shelf, cap, s[1..]);
            Settle(mint, shelf, cap, s) == Settled(rest.shelf, Worth(s[0].id, r.lost) + rest.lost)
    ensures var rest := Settle(mint, r.shelf, cap, s[1..] + t);
            Settle(mint, shelf, cap, s + t) == Settled(rest.shelf, Worth(s[0].id, r.lost) + rest.lost)
  {
    r := AddTo(shelf, cap, SlotFor(mint, s[0]));
    SettleFirst(mint, shelf, cap, s, s[1..], r);
    assert (s + t)[1..] == s[1..] + t;
    SettleFirst(mint, shelf, cap, s + t, s[1..] + t, r);
  }

  lemma SettleFirst(mint: nat -> ItemType, shelf: seq<Slot>, cap: nat, s: seq<Stack>, tail: seq<Stack>, r: AddResult)
    requires s != [] && tail == s[1..] && r == AddTo(shelf, cap, SlotFor(mint, s[0]))
    ensures var rest := Settle(mint, r.shelf, cap, tail);
            Settle(mint, shelf, cap, s) == Settled(rest.shelf, Worth(s[0].id, r.lost) + rest.lost)
  {
  }

  // ----- what a container holds in gold, at any depth -----

  ghost function GoldOf<R>(w: World<R>, s: seq<R>): nat {
    if s == [] then 0 else (if s[0] in w then Bulk(w[s[0]], Gold) else 0) + GoldOf(w, s[1..])
  }

  /** All the gold inside `c`. */
  ghost function GoldInside<R>(w: World<R>, c: R): nat
    requires Forest(w) && c in w
  {
    SumOf(map x | x in Inside(w, c) :: Bulk(w[x], Gold))
  }

  lemma {:induction false} GoldOfSet<R>(w: World<R>, s: seq<R>, t: set<R>)
    requires Distinct(s) && (forall x :: x in s <==> x in t) && (forall x :: x in t ==> x in w)
    ensures GoldOf(w, s) == SumOf(map x | x in t :: Bulk(w[x], Gold))
  {
    var a := map x | x in t :: Bulk(w[x], Gold);
    if s == [] {
      assert t == {};
      assert a == map[];
    } else {
      assert s[0] !in s[1..];
      var u := t - {s[0]};
      GoldOfSet(w, s[1..], u);
      SumOfAny(a, s[0]);
      assert a - {s[0]} == map x | x in u :: Bulk(w[x], Gold);
    }
  }

  lemma {:induction false} GoldOfConcat<R>(w: World<R>, s: seq<R>, t: seq<R>)
    ensures GoldOf(w, s + t) == GoldOf(w, s) + GoldOf(w, t)
  {
    if s == [] {
      assert s + t == t;
    } else {
      GoldOfConcat(w, s[1..], t);
      assert (s + t)[1..] == s[1..] + t;
    }
  }

  // ----- the worklist of containers -----

  /** The worklist `q` from `c`, of which the first `i` containers have been gone through. */
  ghost predicate Worklist<R>(w: World<R>, c: R, q: seq<R>, i: nat) {
    && Forest(w) && c in w && i <= |q|
    && q == [c] + Boxes(w, Entries(w, q[..i]))
    && Distinct(q)
    && (forall x :: x in q ==> x in w && Under(w, x, c))
  }

  lemma WorklistEntry<R>(w: World<R>, c: R, q: seq<R>, i: nat, x: R)
    requires Worklist(w, c, q, i) && x in Entries(w, q[..i])
    ensures x in w && StrictlyUnder(w, x, c)
  {
    EntriesAt(w, q[..i], x);
    assert w[x].parent.c in q;
    assert Linked(w, x);
    UnderUp(w, w[x].parent.c, c);
  }

  /** What the worklist becomes with one more container is again without repetitions. */
  lemma WorklistGrows<R>(w: World<R>, c: R, q: seq<R>, i: nat)
    requires Worklist(w, c, q, i) && i < |q|
    ensures q[i] in w && Entries(w, q[..i] + [q[i]]) == Entries(w, q[..i]) + w[q[i]].items
    ensures Distinct(Boxes(w, Entries(w, q[..i] + [q[i]])))
    ensures q + Boxes(w, w[q[i]].items) == [c] + Boxes(w, Entries(w, q[..i] + [q[i]]))
  {
    assert q[i] in q;
    var s := w[q[i]].items;
    EntriesConcat(w, q[..i], [q[i]]);
    assert Entries(w, [q[i]]) == s;
    assert q[..i+1] == q[..i] + [q[i]];
    EntriesDistinct(w, q[..i] + [q[i]]);
    BoxesDistinct(w, Entries(w, q[..i] + [q[i]]));
    BoxesGrow(w, c, q, Entries(w, q[..i]), s);
  }

  lemma BoxesGrow<R>(w: World<R>, c: R, q: seq<R>, e: seq<R>, s: seq<R>)
    requires q == [c] + Boxes(w, e)
    ensures q + Boxes(w, s) == [c] + Boxes(w, e + s)
  {
    BoxesConcat(w, e, s);
  }

  lemma BoxIsUnder<R>(w: World<R>, c: R, q: seq<R>, s: seq<R>, x: R)
    requires Forest(w) && c in w && (forall y :: y in q ==> y in w && Under(w, y, c)) && (forall y :: y in s ==> y in q)
    requires x in Boxes(w, Entries(w, s))
    ensures x in w && Under(w, x, c) && x != c
  {
    BoxesAt(w, Entries(w, s), x);
    EntriesAt(w, s, x);
    assert w[x].parent.c in q;
    assert Linked(w, x);
    UnderUp(w, w[x].parent.c, c);
  }

  /** Going through one more container. */
  lemma WorklistStep<R>(w: World<R>, c: R, q: seq<R>, i: nat)
    requires Worklist(w, c, q, i) && i < |q|
    ensures q[i] in w && Worklist(w, c, q + Boxes(w, w[q[i]].items), i + 1)
    ensures Entries(w, (q + Boxes(w, w[q[i]].items))[..i+1]) == Entries(w, q[..i]) + w[q[i]].items
  {
    WorklistGrows(w, c, q, i);
    var p, s := q + Boxes(w, w[q[i]].items), q[..i] + [q[i]];
    assert p[..i+1] == s;
    forall x | x in Boxes(w, Entries(w, s))
      ensures x in w && Under(w, x, c) && x != c
    {
      BoxIsUnder(w, c, q, s, x);
    }
    DistinctConcat([c], Boxes(w, Entries(w, s)));
  }

  lemma {:induction false} WorklistComplete<R>(w: World<R>, c: R, q: seq<R>, x: R)
    requires Worklist(w, c, q, |q|) && x in w && StrictlyUnder(w, x, c)
    ensures x in Entries(w, q)
    decreases w[x].depth
  {
    assert Linked(w, x);
    var p := w[x].parent.c;
    assert q[..|q|] == q;
    EntriesAt(w, q, x);
    if p != c {
      WorklistComplete(w, c, q, p);
      assert Holds(w, p);
      BoxesAt(w, Entries(w, q), p);
    }
  }

  /** When the worklist is exhausted, the entries seen are what is inside `c`, each once. */
  lemma WorklistDone<R>(w: World<R>, c: R, q: seq<R>)
    requires Worklist(w, c, q, |q|)
    ensures Distinct(Entries(w, q)) && forall x :: x in Entries(w, q) <==> x in Inside(w, c)
    ensures GoldOf(w, Entries(w, q)) == GoldInside(w, c)
  {
    assert q[..|q|] == q;
    EntriesDistinct(w, q);
    forall x | x in w
      ensures x in Inside(w, c) ==> x in Entries(w, q)
    {
      if StrictlyUnder(w, x, c) {
        WorklistComplete(w, c, q, x);
      }
    }
    forall x | x in Entries(w, q)
      ensures x in Inside(w, c)
    {
      WorklistEntry(w, c, q, |q|, x);
    }
    GoldOfSet(w, Entries(w, q), Inside(w, c));
  }

  lemma WorklistShort<R>(w: World<R>, c: R, q: seq<R>, i: nat)
    requires Worklist(w, c, q, i)
    ensures |q| <= |w|
  {
    DistinctCount(q);
    var s := set x | x in q;
    assert s <= w.Keys;
    SubsetCount(s, w.Keys);
  }

  // ----- minting coins into a container -----

  /** Nothing that was there has changed place or type, and no coin of a kind above `most` has changed at all. */
  ghost predicate Kept<R>(w: World<R>, n: World<R>, most: nat) {
    forall x :: x in w ==>
      && x in n && n[x].typ == w[x].typ && n[x].box == w[x].box && n[x].cap == w[x].cap
      && n[x].unlocked == w[x].unlocked && n[x].parent == w[x].parent
      && (Unit(w[x].typ.id) > most ==> n[x].count == w[x].count && n[x].attrs == w[x].attrs)
  }

  /**
   `n` is the world after the stacks have been minted into `c`, or next to it where `c` refused:
   the gold in the world has grown by what they are worth, less `lost`; and that is what the list
   of stacks of `c` determined beforehand.
   */
  ghost predicate PaidIn<R>(w: World<R>, n: World<R>, c: R, mint: nat -> ItemType, s: seq<Stack>, most: nat, lost: nat) {
    && Forest(w) && Forest(n) && c in w && Kept(w, n, most)
    && Total(n, Gold) + lost == Total(w, Gold) + StacksWorth(s)
    && Settled(Shelf(n, c), lost) ==
       if w[c].unlocked then Settle(mint, Shelf(w, c), w[c].cap, s) else Settled(Shelf(w, c), 0)
  }

  /** The same, sealed. */
  ghost predicate Paid<R>(w: World<R>, n: World<R>, c: R, mint: nat -> ItemType, s: seq<Stack>, most: nat, lost: nat) {
    forall k {:trigger Unsealed(OfAdds, k)} :: Unsealed(OfAdds, k) ==> PaidIn(w, n, c, mint, s, most, lost)
  }

  lemma PaidNothing<R>(w: World<R>, c: R, mint: nat -> ItemType, most: nat)
    requires Forest(w) && c in w
    ensures Paid(w, w, c, mint, [], most, 0)
  {
  }

  lemma PaidThen<R>(w: World<R>, n: World<R>, p: World<R>, c: R, mint: nat -> ItemType, s: seq<Stack>, t: seq<Stack>,
                    most: nat, lost: nat, more: nat)
    requires Paid(w, n, c, mint, s, most, lost) && Paid(n, p, c, mint, t, most, more)
    ensures Paid(w, p, c, mint, s + t, most, lost + more)
  {
    assert Unsealed(OfAdds, 0);
    StacksWorthConcat(s, t);
    SettleConcat(mint, Shelf(w, c), w[c].cap, s, t);
  }

  /** One more stack has been minted, towards all coins of a kind. */
  lemma PaidMade<R>(w: World<R>, n: World<R>, p: World<R>, c: R, mint: nat -> ItemType, id: nat, count: nat, coins: nat,
                    left: nat, rest: nat, done: seq<Stack>, most: nat, lost: nat, more: nat)
    returns (now: seq<Stack>, all: nat)
    requires Paid(w, n, c, mint, done, most, lost) && Paid(n, p, c, mint, [Stack(id, count)], most, more)
    requires left > 0 && count == (if MAX_STACK < left then MAX_STACK else left) && Made(done, id, coins, left)
    requires rest == left - count
    ensures Paid(w, p, c, mint, now, most, all) && Made(now, id, coins, rest)
  {
    PaidThen(w, n, p, c, mint, done, [Stack(id, count)], most, lost, more);
    MadeNext(done, id, coins, left, Stack(id, count));
    now, all := done + [Stack(id, count)], lost + more;
  }

  /** The first `k` kinds of coin have been minted, sealed. */
  ghost predicate PaidKinds<R>(w: World<R>, n: World<R>, c: R, mint: nat -> ItemType, money: nat, k: nat, lost: nat) {
    forall i {:trigger Unsealed(OfMints, i)} :: Unsealed(OfMints, i) ==> Paid(w, n, c, mint, MintedUpTo(money, k), money, lost)
  }

  /** A kind of coin after the kinds before it. */
  lemma PaidKind<R>(w: World<R>, n: World<R>, p: World<R>, c: R, mint: nat -> ItemType, money: nat, k: nat, lost: nat, more: nat)
    returns (all: nat)
    requires PaidKinds(w, n, c, mint, money, k, lost)
    requires Paid(n, p, c, mint, MintedAt(money, k), money, more)
    ensures all == lost + more && PaidKinds(w, p, c, mint, money, k + 1, all)
  {
    assert Unsealed(OfMints, 0);
    PaidThen(w, n, p, c, mint, MintedUpTo(money, k), MintedAt(money, k), money, lost, more);
    all := lost + more;
  }

  /** No coin of that kind. */
  lemma PaidNoKind<R>(w: World<R>, n: World<R>, c: R, mint: nat -> ItemType, money: nat, k: nat, lost: nat)
    requires PaidKinds(w, n, c, mint, money, k, lost) && CoinsAt(money, k) == 0
    requires Forest(n) && c in n
    ensures PaidKinds(w, n, c, mint, money, k + 1, lost)
  {
    PaidNothing(n, c, mint, money);
    var _ := PaidKind(w, n, n, c, mint, money, k, lost, 0);
  }

  lemma PaidAllKinds<R>(w: World<R>, n: World<R>, c: R, mint: nat -> ItemType, money: nat, lost: nat)
    requires PaidKinds(w, n, c, mint, money, 4, lost)
    ensures Paid(w, n, c, mint, Minted(money), money, lost)
  {
    assert Unsealed(OfMints, 0);
  }

  /** A new stack of coins, before it is added anywhere. */
  function CoinView<R>(mint: nat -> ItemType, s: Stack): View<R> {
    View(mint(s.id), s.count, NewAttrs(mint(s.id)), Nowhere, false, 0, true, [], 0)
  }

  ghost predicate Minting<R>(w: World<R>, c: R, i: R, mint: nat -> ItemType, s: Stack) {
    && Forest(w) && Stacked(w) && Roomy(w) && c in w && i !in w && IsMint(mint)
    && Unit(s.id) > 0 && 1 <= s.count <= MAX_STACK
  }

  lemma MintingIsFine<R>(w: World<R>, c: R, i: R, mint: nat -> ItemType, s: Stack)
    requires Minting(w, c, i, mint, s)
    ensures var n := w[i := CoinView(mint, s)];
            && Forest(n) && Shelf(n, c) == Shelf(w, c) && n[c] == w[c]
            && Total(n, Gold) == Total(w, Gold) && Bulk(n[i], Gold) == Worth(s.id, s.count)
            && SlotOf(n[i]) == SlotFor(mint, s)
            && Admission(n, c, i) == if w[c].unlocked then NoError else NotPossible
  {
    var v: View<R> := CoinView(mint, s);
    var n := w[i := v];
    BirthForest(w, i, v);
    TotalBirth(w, i, v, Gold);
    assert Holds(w, c);
    ShelfSame(w, n, w[c].items);
    UnderLeaf(n, c, i);
  }

  /** The coin is accepted. */
  lemma PaidAccepted<R>(w: World<R>, c: R, i: R, mint: nat -> ItemType, s: Stack, n: World<R>, most: nat, lost: nat, told: nat)
    requires Minting(w, c, i, mint, s) && Unit(s.id) <= most
    requires Added(w[i := CoinView(mint, s)], n, c, i, NoError, lost, told)
    ensures Paid(w, n, c, mint, [s], most, Worth(s.id, lost))
  {
    var m := w[i := CoinView(mint, s)];
    MintingIsFine(w, c, i, mint, s);
    Unseal(m, n, c, i, NoError, lost, told);
    AddedTotal(m, n, c, i, NoError, lost, told, Gold);
    assert Part(m[i], lost, Gold) == Worth(s.id, lost);
    KeptByAdding(w, m, n, c, i, most);
    SettleOne(mint, Shelf(w, c), w[c].cap, s);
  }

  lemma SettleOne(mint: nat -> ItemType, shelf: seq<Slot>, cap: nat, s: Stack)
    ensures var r := AddTo(shelf, cap, SlotFor(mint, s));
            Settle(mint, shelf, cap, [s]) == Settled(r.shelf, Worth(s.id, r.lost))
    ensures StacksWorth([s]) == Worth(s.id, s.count)
  {
    var r := AddTo(shelf, cap, SlotFor(mint, s));
    assert [s][1..] == [];
    assert Settle(mint, r.shelf, cap, []) == Settled(r.shelf, 0);
  }

  lemma KeptByAdding<R>(w: World<R>, m: World<R>, n: World<R>, c: R, i: R, most: nat)
    requires i in m && i !in w && m == w[i := m[i]] && Unit(m[i].typ.id) <= most && Grown(m, n, c, i)
    ensures Kept(w, n, most)
  {
    forall x | x in w
      ensures && x in n && n[x].typ == w[x].typ && n[x].box == w[x].box && n[x].cap == w[x].cap
              && n[x].unlocked == w[x].unlocked && n[x].parent == w[x].parent
              && (Unit(w[x].typ.id) > most ==> n[x].count == w[x].count && n[x].attrs == w[x].attrs)
    {
      assert x in m && x != i && m[x] == w[x];
    }
  }

  /** The coin is refused and dropped next to the container. */
  lemma PaidOutside<R>(w: World<R>, c: R, i: R, mint: nat -> ItemType, s: Stack, ret: ReturnValue, most: nat)
    requires Minting(w, c, i, mint, s) && Unit(s.id) <= most && ret != NoError
    requires Added(w[i := CoinView(mint, s)], w[i := CoinView(mint, s)], c, i, ret, 0, 0)
    ensures Forest(w[i := CoinView(mint, s).(parent := Outside)])
    ensures Paid(w, w[i := CoinView(mint, s).(parent := Outside)], c, mint, [s], most, 0)
  {
    var n := w[i := CoinView(mint, s).(parent := Outside)];
    MintingIsFine(w, c, i, mint, s);
    Unseal(w[i := CoinView(mint, s)], w[i := CoinView(mint, s)], c, i, ret, 0, 0);
    DroppedIs(w, c, i, mint, s, n);
    SettleOne(mint, Shelf(w, c), w[c].cap, s);
  }

  /** The coin next to the container. */
  lemma DroppedIs<R>(w: World<R>, c: R, i: R, mint: nat -> ItemType, s: Stack, n: World<R>)
    requires Minting(w, c, i, mint, s) && n == w[i := CoinView(mint, s).(parent := Outside)]
    ensures Forest(n) && Shelf(n, c) == Shelf(w, c) && Total(n, Gold) == Total(w, Gold) + Worth(s.id, s.count)
  {
    var m := w[i := CoinView(mint, s)];
    MintingIsFine(w, c, i, mint, s);
    OutsideForest(m, i);
    assert n == m[i := m[i].(parent := Outside)];
    TotalChange(m, n, i, Gold);
    assert Holds(w, c);
    ShelfSame(w, n, w[c].items);
  }

  // ----- when change is safe -----

  lemma {:induction false} AddGrowsByOne(shelf: seq<Slot>, cap: nat, s: Slot)
    ensures |shelf| <= |AddTo(shelf, cap, s).shelf| <= |shelf| + 1
    decreases s.count
  {
    var k := if s.typ.stackable then FirstFit(shelf, s) else None;
    if k.Some? {
      var o := shelf[k.value];
      var n := if MAX_STACK - o.count < s.count then MAX_STACK - o.count else s.count;
      if n < s.count {
        var merged := shelf[k.value := Slot(o.typ, Restamp(o.typ, o.typ, o.attrs), (o.count + n) % 256)];
        AddGrowsByOne(merged, cap, RemainderOf(s, s.count - n));
      }
    }
  }

  /** With one free slot more than there are stacks to add, nothing is lost. */
  lemma {:induction false} SettleIsSafe(mint: nat -> ItemType, shelf: seq<Slot>, cap: nat, s: seq<Stack>)
    requires IsMint(mint) && cap < 0x1_0000 && Free(shelf, cap) > |s|
    requires forall k :: 0 <= k < |s| ==> Unit(s[k].id) > 0 && 1 <= s[k].count <= MAX_STACK
    ensures Settle(mint, shelf, cap, s).lost == 0
    decreases |s|
  {
    if s != [] {
      SafeWithTwoSlots(shelf, cap, SlotFor(mint, s[0]));
      AddGrowsByOne(shelf, cap, SlotFor(mint, s[0]));
      SettleIsSafe(mint, AddTo(shelf, cap, SlotFor(mint, s[0])).shelf, cap, s[1..]);
    }
  }

  /** When its turn comes, the `k`-th stack is accepted, but the container counts as full and its stacks take only a part. */
  ghost predicate Snags(mint: nat -> ItemType, shelf: seq<Slot>, cap: nat, s: seq<Stack>, k: nat)
    requires k < |s|
  {
    var now, t := Settle(mint, shelf, cap, s[..k]).shelf, SlotFor(mint, s[k]);
    Enough(now, cap, t) && Trapped(now, cap, t)
  }

  /** Gold is lost exactly if that happens to one of the stacks. */
  lemma {:induction false} SettleLosesIff(mint: nat -> ItemType, shelf: seq<Slot>, cap: nat, s: seq<Stack>)
    requires IsMint(mint) && forall k :: 0 <= k < |s| ==> Unit(s[k].id) > 0 && 1 <= s[k].count <= MAX_STACK
    ensures Settle(mint, shelf, cap, s).lost > 0 <==> exists k :: 0 <= k < |s| && Snags(mint, shelf, cap, s, k)
    decreases |s|
  {
    if s != [] {
      var r := FirstSnags(mint, shelf, cap, s);
      SettleLosesIff(mint, r, cap, s[1..]);
      forall k | 0 <= k < |s[1..]|
        ensures Snags(mint, r, cap, s[1..], k) <==> Snags(mint, shelf, cap, s, k + 1)
      {
        LaterSnags(mint, shelf, cap, s, r, k);
      }
      if Settle(mint, r, cap, s[1..]).lost > 0 {
        var k :| 0 <= k < |s[1..]| && Snags(mint, r, cap, s[1..], k);
        assert Snags(mint, shelf, cap, s, k + 1);
      }
      if k :| 0 < k < |s| && Snags(mint, shelf, cap, s, k) {
        assert Snags(mint, r, cap, s[1..], k - 1);
      }
    }
  }

  /** The first stack, and the shelf it leaves to the others. */
  lemma FirstSnags(mint: nat -> ItemType, shelf: seq<Slot>, cap: nat, s: seq<Stack>) returns (r: seq<Slot>)
    requires IsMint(mint) && s != [] && Unit(s[0].id) > 0 && 1 <= s[0].count <= MAX_STACK
    ensures r == AddTo(shelf, cap, SlotFor(mint, s[0])).shelf
    ensures Settle(mint, shelf, cap, s).lost > 0 <==> Snags(mint, shelf, cap, s, 0) || Settle(mint, r, cap, s[1..]).lost > 0
  {
    var a := AddTo(shelf, cap, SlotFor(mint, s[0]));
    r := a.shelf;
    SettleFirst(mint, shelf, cap, s, s[1..], a);
    AddOutcome(shelf, cap, SlotFor(mint, s[0]));
    assert s[..0] == [];
    SomeWorth(s[0].id, a.lost);
  }

  lemma SomeWorth(id: nat, n: nat)
    requires Unit(id) > 0
    ensures Worth(id, n) > 0 <==> n > 0
  {
  }

  lemma LaterSnags(mint: nat -> ItemType, shelf: seq<Slot>, cap: nat, s: seq<Stack>, r: seq<Slot>, k: nat)
    requires s != [] && k < |s[1..]| && r == AddTo(shelf, cap, SlotFor(mint, s[0])).shelf
    ensures Snags(mint, r, cap, s[1..], k) <==> Snags(mint, shelf, cap, s, k + 1)
  {
    assert s[..k+1][1..] == s[1..][..k] && s[..k+1][0] == s[0];
    SettleFirst(mint, shelf, cap, s[..k+1], s[1..][..k], AddTo(shelf, cap, SlotFor(mint, s[0])));
  }

  /** How many of the stacks are not taken whole by the stacks of their kind that are there at the start. */
  function Needing(mint: nat -> ItemType, shelf: seq<Slot>, s: seq<Stack>): nat {
    if s == [] then 0
    else (if Room(shelf, SlotFor(mint, s[0])) < s[0].count then 1 else 0) + Needing(mint, shelf, s[1..])
  }

  /**
   The stacks of its kind take a part of the `k`-th stack but not all, and the stacks before it that
   are not taken whole are enough to use up the free slots but for the last one.
   */
  predicate Caught(mint: nat -> ItemType, shelf: seq<Slot>, cap: nat, s: seq<Stack>, k: nat)
    requires k < |s|
  {
    0 < Room(shelf, SlotFor(mint, s[k])) < s[k].count && 1 <= Free(shelf, cap) <= Needing(mint, shelf, s[..k]) + 1
  }

  /** For stacks of different kinds the loss is decided by what is there at the start. */
  lemma {:induction false} KindsLoseIff(mint: nat -> ItemType, shelf: seq<Slot>, cap: nat, s: seq<Stack>)
    requires IsMint(mint) && Kinds(s) && cap < 0x1_0000 && forall k :: 0 <= k < |s| ==> 1 <= s[k].count <= MAX_STACK
    ensures Settle(mint, shelf, cap, s).lost > 0 <==> exists k :: 0 <= k < |s| && Caught(mint, shelf, cap, s, k)
    decreases |s|
  {
    if s != [] {
      var r := FirstCaught(mint, shelf, cap, s);
      KindsLoseIff(mint, r, cap, s[1..]);
      forall k | 0 <= k < |s[1..]|
        ensures Caught(mint, r, cap, s[1..], k) <==> Caught(mint, shelf, cap, s, k + 1)
      {
        LaterCaught(mint, shelf, cap, s, r, k);
      }
      if Settle(mint, r, cap, s[1..]).lost > 0 {
        var k :| 0 <= k < |s[1..]| && Caught(mint, r, cap, s[1..], k);
        assert Caught(mint, shelf, cap, s, k + 1);
      }
      if k :| 0 < k < |s| && Caught(mint, shelf, cap, s, k) {
        assert Caught(mint, r, cap, s[1..], k - 1);
      }
    }
  }

  /** The shelf after the first stack: a slot less if the stack was not taken whole and two slots were free. */
  predicate FirstStackIn(mint: nat -> ItemType, shelf: seq<Slot>, cap: nat, s: seq<Stack>, r: seq<Slot>)
    requires s != []
  {
    var needs := Room(shelf, SlotFor(mint, s[0])) < s[0].count;
    && r == AddTo(shelf, cap, SlotFor(mint, s[0])).shelf
    && Free(r, cap) == if needs && Free(shelf, cap) >= 2 then Free(shelf, cap) - 1 else Free(shelf, cap)
  }

  lemma FirstCaught(mint: nat -> ItemType, shelf: seq<Slot>, cap: nat, s: seq<Stack>) returns (r: seq<Slot>)
    requires IsMint(mint) && s != [] && Unit(s[0].id) > 0 && 1 <= s[0].count <= MAX_STACK && cap < 0x1_0000
    ensures FirstStackIn(mint, shelf, cap, s, r)
    ensures Settle(mint, shelf, cap, s).lost > 0 <==> Caught(mint, shelf, cap, s, 0) || Settle(mint, r, cap, s[1..]).lost > 0
  {
    var a := AddTo(shelf, cap, SlotFor(mint, s[0]));
    r := a.shelf;
    SettleFirst(mint, shelf, cap, s, s[1..], a);
    FirstIsLost(shelf, cap, SlotFor(mint, s[0]));
    AddUsesSlot(shelf, cap, SlotFor(mint, s[0]));
    assert s[..0] == [];
    SomeWorth(s[0].id, a.lost);
  }

  /** With one free slot, a stack of which a part can be merged loses the rest; otherwise nothing is lost. */
  lemma FirstIsLost(shelf: seq<Slot>, cap: nat, s: Slot)
    requires s.typ.stackable && 1 <= s.count <= MAX_STACK && ClonedAttrs(s.typ, s.attrs) == s.attrs && cap < 0x1_0000
    ensures AddTo(shelf, cap, s).lost > 0 <==> 0 < Room(shelf, s) < s.count && Free(shelf, cap) == 1
  {
    AddOutcome(shelf, cap, s);
  }

  lemma {:induction false} AddUsesSlot(shelf: seq<Slot>, cap: nat, s: Slot)
    requires s.typ.stackable && 1 <= s.count <= MAX_STACK && ClonedAttrs(s.typ, s.attrs) == s.attrs && cap < 0x1_0000
    ensures |AddTo(shelf, cap, s).shelf| == |shelf| + if Room(shelf, s) < s.count && Free(shelf, cap) >= 2 then 1 else 0
    decreases s.count
  {
    NoFitNoRoom(shelf, s);
    AddOutcome(shelf, cap, s);
    var k := FirstFit(shelf, s);
    if Free(shelf, cap) * MAX_STACK + Room(shelf, s) >= s.count && k.Some? {
      if MAX_STACK - shelf[k.value].count < s.count {
        FillStep(shelf, cap, s);
        AddUsesSlot(Filled(shelf, k.value), cap, RemainderOf(s, s.count - (MAX_STACK - shelf[k.value].count)));
      } else {
        RoomAtLeast(shelf, s, k.value);
      }
    }
  }

  /** Adding a stack does not touch what is free in stacks of other kinds. */
  lemma {:induction false} OtherRoom(shelf: seq<Slot>, cap: nat, s: Slot, t: Slot)
    requires s.typ != t.typ
    ensures Room(AddTo(shelf, cap, s).shelf, t) == Room(shelf, t)
    decreases s.count
  {
    var k := if s.typ.stackable then FirstFit(shelf, s) else None;
    if k.Some? {
      var o := shelf[k.value];
      var n := if MAX_STACK - o.count < s.count then MAX_STACK - o.count else s.count;
      var filled := Slot(o.typ, Restamp(o.typ, o.typ, o.attrs), (o.count + n) % 256);
      OtherRoomAt(shelf, t, k.value, filled);
      if n < s.count {
        OtherRoom(shelf[k.value := filled], cap, RemainderOf(s, s.count - n), t);
      }
    }
  }

  lemma {:induction false} OtherRoomAt(shelf: seq<Slot>, t: Slot, k: nat, filled: Slot)
    requires k < |shelf| && shelf[k].typ == filled.typ != t.typ
    ensures Room(shelf[k := filled], t) == Room(shelf, t)
  {
    if k > 0 {
      OtherRoomAt(shelf[1..], t, k - 1, filled);
      assert shelf[k := filled][1..] == shelf[1..][k - 1 := filled];
    } else {
      assert shelf[0 := filled][1..] == shelf[1..];
    }
  }

  lemma {:induction false} OtherNeeding(mint: nat -> ItemType, shelf: seq<Slot>, cap: nat, a: Stack, s: seq<Stack>)
    requires IsMint(mint) && Unit(a.id) > 0 && forall k :: 0 <= k < |s| ==> Unit(s[k].id) > 0 && s[k].id != a.id
    ensures Needing(mint, AddTo(shelf, cap, SlotFor(mint, a)).shelf, s) == Needing(mint, shelf, s)
    decreases |s|
  {
    if s != [] {
      assert mint(a.id).id == a.id && mint(s[0].id).id == s[0].id;
      OtherRoom(shelf, cap, SlotFor(mint, a), SlotFor(mint, s[0]));
      OtherNeeding(mint, shelf, cap, a, s[1..]);
    }
  }

  lemma LaterCaught(mint: nat -> ItemType, shelf: seq<Slot>, cap: nat, s: seq<Stack>, r: seq<Slot>, k: nat)
    requires IsMint(mint) && Kinds(s) && s != [] && k < |s[1..]| && FirstStackIn(mint, shelf, cap, s, r)
    ensures Caught(mint, r, cap, s[1..], k) <==> Caught(mint, shelf, cap, s, k + 1)
  {
    assert mint(s[0].id).id == s[0].id && mint(s[k + 1].id).id == s[k + 1].id;
    OtherRoom(shelf, cap, SlotFor(mint, s[0]), SlotFor(mint, s[k + 1]));
    OtherNeeding(mint, shelf, cap, s[0], s[1..][..k]);
    assert s[..k+1][1..] == s[1..][..k] && s[..k+1][0] == s[0];
  }

  /**
   `addMoney` of ten gold coins into eight slots with one left and a stack of 95: five vanish.  The
   container is the cylinder of the call; a player as the cylinder picks the last slot by its number.
   */
  lemma AddMoneyCanLose(mint: nat -> ItemType)
    requires forall id :: mint(id) == ItemType(id, true, true, true, 10, 0, false, -1)
    ensures IsMint(mint)
    ensures Settle(mint, [Slot(mint(GOLD_COIN), NoAttrs, 95)] + Others(6), 8, Minted(10)).lost == 5
  {
    AddCanLose();
    assert Stacks(GOLD_COIN, 10) == [Stack(GOLD_COIN, 10)];
    assert Change(10) == [Stack(GOLD_COIN, 10)];
    MintedIsChange(10);
    SettleOne(mint, [Slot(mint(GOLD_COIN), NoAttrs, 95)] + Others(6), 8, Stack(GOLD_COIN, 10));
  }

  /** None of the stacks can be merged into what is there. */
  ghost predicate Unmatched(mint: nat -> ItemType, shelf: seq<Slot>, s: seq<Stack>) {
    forall j, k :: 0 <= j < |shelf| && 0 <= k < |s| ==> !Fits(shelf[j], SlotFor(mint, s[k]))
  }

  predicate Kinds(s: seq<Stack>) {
    && (forall k :: 0 <= k < |s| ==> Unit(s[k].id) > 0)
    && (forall j, k :: 0 <= j < k < |s| ==> s[j].id != s[k].id)
  }

  /** Stacks of different kinds that find nothing to be merged into lose nothing, however little room there is. */
  lemma {:induction false} SettleUnmatched(mint: nat -> ItemType, shelf: seq<Slot>, cap: nat, s: seq<Stack>)
    requires IsMint(mint) && Kinds(s) && Unmatched(mint, shelf, s)
    ensures Settle(mint, shelf, cap, s).lost == 0
    decreases |s|
  {
    if s != [] {
      var t := SlotFor(mint, s[0]);
      var r := AddTo(shelf, cap, t);
      assert FirstFit(shelf, t).None?;
      assert r.lost == 0 && (r.shelf == shelf || r.shelf == [t] + shelf);
      forall j, k | 0 <= j < |r.shelf| && 0 <= k < |s[1..]|
        ensures !Fits(r.shelf[j], SlotFor(mint, s[1..][k]))
      {
        StillUnmatched(mint, shelf, s, r.shelf, j, k + 1);
      }
      SettleUnmatched(mint, r.shelf, cap, s[1..]);
      SettleFirst(mint, shelf, cap, s, s[1..], r);
    }
  }

  lemma StillUnmatched(mint: nat -> ItemType, shelf: seq<Slot>, s: seq<Stack>, now: seq<Slot>, j: nat, k: nat)
    requires IsMint(mint) && Kinds(s) && Unmatched(mint, shelf, s) && 0 < k < |s| && j < |now|
    requires now == shelf || now == [SlotFor(mint, s[0])] + shelf
    ensures !Fits(now[j], SlotFor(mint, s[k]))
  {
    if now == shelf {
      assert !Fits(shelf[j], SlotFor(mint, s[k]));
    } else if j > 0 {
      assert now[j] == shelf[j - 1];
    }
  }

  predicate OneOf(id: nat, s: seq<Stack>) {
    |s| <= 1 && forall k :: 0 <= k < |s| ==> s[k].id == id
  }

  /** Change is at most one stack of each kind if there are no more than a hundred ingots. */
  lemma ChangeKinds(money: nat)
    requires money < 101000000
    ensures Kinds(Change(money))
  {
    var a, b, c, d := Stacks(GOLD_INGOT, money / 1000000), Stacks(CRYSTAL_COIN, money % 1000000 / 10000),
                      Stacks(PLATINUM_COIN, money % 10000 / 100), Stacks(GOLD_COIN, money % 100);
    assert Change(money) == a + b + c + d;
    assert OneOf(GOLD_INGOT, a) && OneOf(CRYSTAL_COIN, b) && OneOf(PLATINUM_COIN, c) && OneOf(GOLD_COIN, d);
    OneOfEach(a, b, c, d);
  }

  lemma OneOfEach(a: seq<Stack>, b: seq<Stack>, c: seq<Stack>, d: seq<Stack>)
    requires OneOf(GOLD_INGOT, a) && OneOf(CRYSTAL_COIN, b) && OneOf(PLATINUM_COIN, c) && OneOf(GOLD_COIN, d)
    ensures Kinds(a + b + c + d)
  {
  }

  /**
   `addMoney` of up to a hundred ingots' worth loses gold exactly if what is in the container when
   it is called catches one of the stacks.
   */
  lemma AddMoneyLosesIff(mint: nat -> ItemType, shelf: seq<Slot>, cap: nat, money: nat)
    requires IsMint(mint) && cap < 0x1_0000 && money < 101000000
    ensures var s := Minted(money);
            Settle(mint, shelf, cap, s).lost > 0 <==> exists k :: 0 <= k < |s| && Caught(mint, shelf, cap, s, k)
  {
    var s := Minted(money);
    MintedIsChange(money);
    ChangeKinds(money);
    forall k | 0 <= k < |s|
      ensures 1 <= s[k].count <= MAX_STACK
    {
      ChangeIsCoins(money, k);
    }
    KindsLoseIff(mint, shelf, cap, s);
  }

  // ----- breaking a stack -----

  /** Rounding up: the fewest coins of a kind that cover an amount. */
  function CoinsFor(money: nat, unit: nat): nat
    requires unit > 0
  {
    (money + unit - 1) / unit
  }

  /** The coins taken from a stack worth more than the amount cover it, and the change is less than one coin. */
  lemma BreakStack(id: nat, count: nat, money: nat)
    requires Unit(id) > 0 && count > 0 && 0 < money < Worth(id, count)
    ensures Worth(id, count) / count == Unit(id)
    ensures var k := CoinsFor(money, Unit(id));
            1 <= k <= count && Unit(id) * k == Worth(id, k) && money <= Worth(id, k) < money + Unit(id)
  {
    if id == GOLD_COIN {
      DivideBack(count, 1);
    } else if id == PLATINUM_COIN {
      DivideBack(count, 100);
    } else if id == CRYSTAL_COIN {
      DivideBack(count, 10000);
    } else {
      DivideBack(count, 1000000);
    }
  }

  lemma DivideBack(n: nat, k: nat)
    requires n > 0
    ensures n * k / n == k
  {
    DivIs(k, n, 0);
    assert k * n + 0 == n * k;
  }

  /** A coin that is made: so many pieces of its type; attributes only if the type decays, and then its duration. */
  lemma MintedCoinIs(mint: nat -> ItemType, s: Stack)
    ensures var c := SlotFor(mint, s);
            && c.typ == mint(s.id) && c.count == s.count
            && (mint(s.id).decayTime == 0 ==> c.attrs == NoAttrs)
            && (mint(s.id).decayTime > 0 ==> c.attrs == Attrs(map[17 := Number(1000 * mint(s.id).decayTime)], false))
  {
  }
}
