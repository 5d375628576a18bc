/**
 Visiting everything inside a container, level by level.  `LevelOrder` is the plain definition;
 the iterator of `Containers` keeps a queue of containers and a position instead.
 */
module Traversal {
  import opened ItemTree

  /** The containers of `s` that have something in them. */
  function FullBoxes<R(==)>(w: World<R>, s: seq<R>): seq<R> {
    if s == [] then []
    else (if FullBox(w, s[0]) then [s[0]] else []) + FullBoxes(w, s[1..])
  }

  predicate FullBox<R(==)>(w: World<R>, x: R) {
    x in w && w[x].box && w[x].items != []
  }

  /** The entries of all of `q`, one list after the other. */
  function Entries<R(==)>(w: World<R>, q: seq<R>): seq<R> {
    if q == [] then [] else (if q[0] in w then w[q[0]].items else []) + Entries(w, q[1..])
  }

  /** `x` is an entry of one of the containers of `q`. */
  predicate EntryOf<R(==)>(w: World<R>, x: R, q: seq<R>) {
    x in w && w[x].parent.In? && w[x].parent.c in q
  }

  /** A queue the traversal can be in: containers of the world, none shallower than `n`. */
  ghost predicate Queue<R>(w: World<R>, q: seq<R>, n: nat) {
    forall x :: x in q ==> x in w && n <= w[x].depth
  }

  lemma {:induction false} FullBoxesAt<R>(w: World<R>, s: seq<R>, x: R)
    ensures x in FullBoxes(w, s) <==> x in s && FullBox(w, x)
  {
    if s != [] {
      FullBoxesAt(w, s[1..], x);
    }
  }

  lemma {:induction false} EntriesAt<R>(w: World<R>, q: seq<R>, x: R)
    requires Forest(w)
    ensures x in Entries(w, q) <==> EntryOf(w, x, q)
  {
    if q != [] {
      EntriesAt(w, q[1..], x);
      assert q[0] in w ==> Holds(w, q[0]);
      assert x in w ==> Linked(w, x);
    }
  }

  lemma NextQueue<R>(w: World<R>, q: seq<R>, n: nat)
    requires Forest(w) && Queue(w, q, n)
    ensures Queue(w, FullBoxes(w, Entries(w, q)), n + 1)
  {
    var e := Entries(w, q);
    forall x | x in FullBoxes(w, e)
      ensures x in w && n + 1 <= w[x].depth
    {
      FullBoxesAt(w, e, x);
      EntriesAt(w, q, x);
      assert Linked(w, x);
    }
  }

  /** All the entries of `q`, then everything one level further down, and so on. */
  ghost function LevelOrder<R>(w: World<R>, q: seq<R>, n: nat, floor: nat): seq<R>
    requires Forest(w) && Bounded(w, floor) && Queue(w, q, n)
    decreases floor + 1 - n
  {
    if q == [] then []
    else
      NextQueue(w, q, n);
      assert q[0] in q;
      Entries(w, q) + LevelOrder(w, FullBoxes(w, Entries(w, q)), n + 1, floor)
  }

  // ----- what is visited -----

  ghost predicate StrictlyUnder<R>(w: World<R>, x: R, a: R)
    requires Forest(w) && x in w
  {
    x != a && Under(w, x, a)
  }

  ghost predicate UnderSome<R>(w: World<R>, x: R, q: seq<R>)
    requires Forest(w) && x in w
  {
    exists a :: a in q && StrictlyUnder(w, x, a)
  }

  /** On the way from `x` up to `a` one passes an entry of `a`. */
  lemma {:induction false} EntryOnTheWay<R>(w: World<R>, x: R, a: R) returns (b: R)
    requires Forest(w) && x in w && StrictlyUnder(w, x, a)
    ensures b in w && w[b].parent == In(a) && Under(w, x, b)
    decreases w[x].depth
  {
    assert Linked(w, x);
    if w[x].parent == In(a) {
      b := x;
    } else {
      b := EntryOnTheWay(w, w[x].parent.c, a);
    }
  }

  /** What is below an entry of `a` is below `a`. */
  lemma StepUp<R>(w: World<R>, x: R, b: R)
    requires Forest(w) && x in w && Under(w, x, b) && b in w && w[b].parent.In?
    ensures StrictlyUnder(w, x, w[b].parent.c)
  {
    assert Linked(w, b);
    UnderUp(w, x, b);
  }

  lemma HasEntries<R>(w: World<R>, x: R, b: R)
    requires Forest(w) && x in w && StrictlyUnder(w, x, b)
    ensures FullBox(w, b)
  {
    var c := EntryOnTheWay(w, x, b);
    assert Linked(w, c);
    assert Holds(w, b);
  }

  /** One level: an item is below the queue iff it is an entry, or below a full container among the entries. */
  lemma BelowQueue<R>(w: World<R>, q: seq<R>, x: R)
    requires Forest(w) && x in w
    ensures UnderSome(w, x, q) <==> x in Entries(w, q) || UnderSome(w, x, FullBoxes(w, Entries(w, q)))
  {
    var e := Entries(w, q);
    if x in e {
      EntriesAt(w, q, x);
      StepUp(w, x, x);
    } else if UnderSome(w, x, FullBoxes(w, e)) {
      var b :| b in FullBoxes(w, e) && StrictlyUnder(w, x, b);
      FullBoxesAt(w, e, b);
      EntriesAt(w, q, b);
      StepUp(w, x, b);
    } else if UnderSome(w, x, q) {
      var a :| a in q && StrictlyUnder(w, x, a);
      var b := EntryOnTheWay(w, x, a);
      EntriesAt(w, q, b);
      if x != b {
        HasEntries(w, x, b);
        FullBoxesAt(w, e, b);
        assert StrictlyUnder(w, x, b);
      }
    }
  }

  /** Exactly the items strictly below some container of the queue are visited. */
  lemma {:induction false} VisitsDescendants<R>(w: World<R>, q: seq<R>, n: nat, floor: nat, x: R)
    requires Forest(w) && Bounded(w, floor) && Queue(w, q, n) && x in w
    ensures x in LevelOrder(w, q, n, floor) <==> UnderSome(w, x, q)
    decreases floor + 1 - n
  {
    if q != [] {
      var later := LevelOrderNext(w, q, n, floor);
      BelowQueue(w, q, x);
      VisitsDescendants(w, later, n + 1, floor, x);
    }
  }

  // ----- how often -----

  /** No container of the queue is repeated or inside another one. */
  ghost predicate Apart<R>(w: World<R>, q: seq<R>)
    requires Forest(w)
  {
    && Distinct(q)
    && forall a, b :: a in q && b in q && a in w ==> !StrictlyUnder(w, a, b)
  }

  lemma {:induction false} EntriesDistinct<R>(w: World<R>, q: seq<R>)
    requires Forest(w) && Distinct(q)
    ensures Distinct(Entries(w, q))
  {
    if q != [] {
      EntriesDistinct(w, q[1..]);
      var s, t := if q[0] in w then w[q[0]].items else [], Entries(w, q[1..]);
      assert q[0] in w ==> Holds(w, q[0]);
      assert q[0] !in q[1..];
      forall x | x in s
        ensures x !in t
      {
        EntriesAt(w, q[1..], x);
      }
      DistinctConcat(s, t);
    }
  }

  lemma {:induction false} FullBoxesDistinct<R>(w: World<R>, s: seq<R>)
    requires Distinct(s)
    ensures Distinct(FullBoxes(w, s))
  {
    if s != [] {
      FullBoxesDistinct(w, s[1..]);
      FullBoxesAt(w, s[1..], s[0]);
      assert s[0] !in s[1..];
    }
  }

  /** An entry of a separated queue is below no other entry of it. */
  lemma EntriesApart<R>(w: World<R>, q: seq<R>, x: R, b: R)
    requires Forest(w) && Apart(w, q) && x in Entries(w, q) && b in Entries(w, q)
    ensures x in w && !StrictlyUnder(w, x, b)
  {
    EntriesAt(w, q, x);
    EntriesAt(w, q, b);
    assert Linked(w, x) && Linked(w, b);
    if StrictlyUnder(w, x, b) {
      StepUp(w, w[x].parent.c, b);
    }
  }

  lemma NextApart<R>(w: World<R>, q: seq<R>)
    requires Forest(w) && Apart(w, q)
    ensures Apart(w, FullBoxes(w, Entries(w, q)))
  {
    var e := Entries(w, q);
    EntriesDistinct(w, q);
    FullBoxesDistinct(w, e);
    forall a, b | a in FullBoxes(w, e) && b in FullBoxes(w, e) && a in w
      ensures !StrictlyUnder(w, a, b)
    {
      FullBoxesAt(w, e, a);
      FullBoxesAt(w, e, b);
      EntriesApart(w, q, a, b);
    }
  }

  /** An entry of the queue is not found again on a later level. */
  lemma NotLater<R>(w: World<R>, q: seq<R>, n: nat, floor: nat, x: R, later: seq<R>)
    requires Forest(w) && Bounded(w, floor) && Queue(w, q, n) && Apart(w, q) && x in Entries(w, q)
    requires later == FullBoxes(w, Entries(w, q)) && Queue(w, later, n + 1)
    ensures x !in LevelOrder(w, later, n + 1, floor)
  {
    EntriesAt(w, q, x);
    VisitsDescendants(w, later, n + 1, floor, x);
    if UnderSome(w, x, later) {
      var b :| b in later && StrictlyUnder(w, x, b);
      FullBoxesAt(w, Entries(w, q), b);
      EntriesApart(w, q, x, b);
    }
  }

  /** The level order of a queue is its entries, and then that of the containers among them. */
  lemma LevelOrderNext<R>(w: World<R>, q: seq<R>, n: nat, floor: nat) returns (later: seq<R>)
    requires Forest(w) && Bounded(w, floor) && Queue(w, q, n) && q != []
    ensures later == FullBoxes(w, Entries(w, q)) && Queue(w, later, n + 1)
    ensures LevelOrder(w, q, n, floor) == Entries(w, q) + LevelOrder(w, later, n + 1, floor)
    ensures n < floor + 1
  {
    assert q[0] in q;
    NextQueue(w, q, n);
    later := FullBoxes(w, Entries(w, q));
  }

  /** Nothing is visited twice. */
  lemma {:induction false} VisitsOnce<R>(w: World<R>, q: seq<R>, n: nat, floor: nat)
    requires Forest(w) && Bounded(w, floor) && Queue(w, q, n) && Apart(w, q)
    ensures Distinct(LevelOrder(w, q, n, floor))
    decreases floor + 1 - n
  {
    if q != [] {
      var later := LevelOrderNext(w, q, n, floor);
      NextApart(w, q);
      EntriesDistinct(w, q);
      VisitsOnce(w, later, n + 1, floor);
      var e, rest := Entries(w, q), LevelOrder(w, later, n + 1, floor);
      forall x | x in e
        ensures x !in rest
      {
        NotLater(w, q, n, floor, x, later);
      }
      DistinctConcat(e, rest);
    }
  }

  lemma StartsApart<R>(w: World<R>, c: R)
    requires Forest(w) && c in w
    ensures Apart(w, [c]) && Queue(w, [c], w[c].depth)
  {
  }

  // ----- the queue of the iterator -----

  /**
   What is still to come when the containers `now` of the current level are being gone through,
   `at` entries of the first of them are done, and `next` are the containers found so far.
   */
  ghost predicate Position<R>(w: World<R>, now: seq<R>, next: seq<R>, at: nat, n: nat) {
    && Forest(w) && Queue(w, now, n) && Queue(w, next, n + 1)
    && (forall x :: x in now ==> FullBox(w, x)) && (forall x :: x in next ==> FullBox(w, x))
    && (now == [] ==> next == [] && at == 0)
    && (now != [] ==> at < |w[now[0]].items|)
  }

  lemma PositionQueue<R>(w: World<R>, now: seq<R>, next: seq<R>, at: nat, n: nat)
    requires Position(w, now, next, at, n)
    ensures at <= |Entries(w, now)|
    ensures Queue(w, next + FullBoxes(w, Entries(w, now)[at..]), n + 1)
  {
    var e := Entries(w, now);
    NextQueue(w, now, n);
    forall x | x in FullBoxes(w, e[at..])
      ensures x in FullBoxes(w, e)
    {
      FullBoxesAt(w, e[at..], x);
      FullBoxesAt(w, e, x);
    }
  }

  ghost function Remaining<R>(w: World<R>, now: seq<R>, next: seq<R>, at: nat, n: nat, floor: nat): seq<R>
    requires Position(w, now, next, at, n) && Bounded(w, floor)
  {
    PositionQueue(w, now, next, at, n);
    var e := Entries(w, now)[at..];
    e + LevelOrder(w, next + FullBoxes(w, e), n + 1, floor)
  }

  ghost function Found<R>(w: World<R>, next: seq<R>, i: R): seq<R> {
    next + if FullBox(w, i) then [i] else []
  }

  lemma FoundQueue<R>(w: World<R>, now: seq<R>, next: seq<R>, at: nat, n: nat)
    requires Position(w, now, next, at, n) && now != []
    ensures var f := Found(w, next, w[now[0]].items[at]);
            Queue(w, f, n + 1) && forall x :: x in f ==> FullBox(w, x)
  {
    assert now[0] in now && Holds(w, now[0]);
    var i := w[now[0]].items[at];
    assert i in w[now[0]].items;
    assert Linked(w, i);
  }

  lemma SameLevel<R>(w: World<R>, now: seq<R>, next: seq<R>, at: nat, a: seq<R>, k: nat, i: R, n: nat, floor: nat)
    requires Position(w, now, next, at, n) && Position(w, a, Found(w, next, i), k, n) && Bounded(w, floor)
    requires at <= |Entries(w, now)| && k <= |Entries(w, a)|
    requires Entries(w, now)[at..] == [i] + Entries(w, a)[k..]
    ensures Remaining(w, now, next, at, n, floor) == [i] + Remaining(w, a, Found(w, next, i), k, n, floor)
  {
    PositionQueue(w, now, next, at, n);
    PositionQueue(w, a, Found(w, next, i), k, n);
    var t := Entries(w, a)[k..];
    FoundFirst(w, next, i, t);
    ConsAssociates(i, t, LevelOrder(w, Found(w, next, i) + FullBoxes(w, t), n + 1, floor));
  }

  lemma ConsAssociates<R>(i: R, t: seq<R>, r: seq<R>)
    ensures [i] + (t + r) == [i] + t + r
  {
  }

  lemma FoundFirst<R>(w: World<R>, next: seq<R>, i: R, t: seq<R>)
    ensures next + FullBoxes(w, [i] + t) == Found(w, next, i) + FullBoxes(w, t)
  {
    assert ([i] + t)[1..] == t;
  }

  /** The step, when the current list goes on. */
  lemma StayInList<R>(w: World<R>, now: seq<R>, next: seq<R>, at: nat, n: nat, floor: nat)
    requires Position(w, now, next, at, n) && Bounded(w, floor) && now != [] && at + 1 < |w[now[0]].items|
    ensures var f := Found(w, next, w[now[0]].items[at]);
            && Position(w, now, f, at + 1, n)
            && Remaining(w, now, next, at, n, floor) ==
               [w[now[0]].items[at]] + Remaining(w, now, f, at + 1, n, floor)
  {
    FoundQueue(w, now, next, at, n);
    SameLevel(w, now, next, at, now, at + 1, w[now[0]].items[at], n, floor);
  }

  /** The step, when the list ends but the level does not. */
  lemma NextContainer<R>(w: World<R>, now: seq<R>, next: seq<R>, at: nat, n: nat, floor: nat)
    requires Position(w, now, next, at, n) && Bounded(w, floor) && |now| > 1 && at + 1 == |w[now[0]].items|
    ensures var f := Found(w, next, w[now[0]].items[at]);
            && Position(w, now[1..], f, 0, n)
            && Remaining(w, now, next, at, n, floor) ==
               [w[now[0]].items[at]] + Remaining(w, now[1..], f, 0, n, floor)
  {
    FoundQueue(w, now, next, at, n);
    assert now[1] in now && now[0] in now;
    var i := w[now[0]].items[at];
    assert Entries(w, now)[at..] == [i] + Entries(w, now[1..]);
    SameLevel(w, now, next, at, now[1..], 0, i, n, floor);
  }

  /** The step, when the level ends: what has been found becomes the current level. */
  lemma NextLevel<R>(w: World<R>, now: seq<R>, next: seq<R>, at: nat, n: nat, floor: nat)
    requires Position(w, now, next, at, n) && Bounded(w, floor) && |now| == 1 && at + 1 == |w[now[0]].items|
    ensures var f := Found(w, next, w[now[0]].items[at]);
            && Position(w, f, [], 0, n + 1)
            && Remaining(w, now, next, at, n, floor) ==
               [w[now[0]].items[at]] + Remaining(w, f, [], 0, n + 1, floor)
  {
    var i := w[now[0]].items[at];
    var f := Found(w, next, i);
    FoundQueue(w, now, next, at, n);
    PositionQueue(w, now, next, at, n);
    assert f != [] ==> f[0] in f;
    PositionQueue(w, f, [], 0, n + 1);
    var e := Entries(w, now)[at..];
    assert e == [i];
    assert next + FullBoxes(w, e) == f;
    assert Entries(w, f)[0..] == Entries(w, f);
    assert [] + FullBoxes(w, Entries(w, f)) == FullBoxes(w, Entries(w, f));
  }

  lemma StartRemaining<R>(w: World<R>, c: R, floor: nat)
    requires Forest(w) && FullBox(w, c) && Bounded(w, floor)
    ensures Position(w, [c], [], 0, w[c].depth)
    ensures Remaining(w, [c], [], 0, w[c].depth, floor) == LevelOrder(w, [c], w[c].depth, floor)
  {
    assert [] + FullBoxes(w, Entries(w, [c])) == FullBoxes(w, Entries(w, [c]));
  }

  /** Everything inside `c`, at any depth. */
  ghost function Inside<R>(w: World<R>, c: R): set<R>
    requires Forest(w) && c in w
  {
    set x | x in w && StrictlyUnder(w, x, c)
  }

  lemma {:induction false} DistinctCount<R>(s: seq<R>)
    requires Distinct(s)
    ensures |set x | x in s| == |s|
  {
    if s != [] {
      DistinctCount(s[1..]);
      assert s[0] !in s[1..];
      assert (set x | x in s) == {s[0]} + set x | x in s[1..];
    }
  }

  /** Level order lists what is inside `c`, each item exactly once. */
  lemma LevelOrderIsInside<R>(w: World<R>, c: R, floor: nat)
    requires Forest(w) && c in w && Bounded(w, floor)
    ensures Queue(w, [c], w[c].depth)
    ensures var s := LevelOrder(w, [c], w[c].depth, floor);
            Distinct(s) && (forall x :: x in s <==> x in Inside(w, c)) && |s| == |Inside(w, c)|
  {
    var s := LevelOrder(w, [c], w[c].depth, floor);
    StartsApart(w, c);
    VisitsOnce(w, [c], w[c].depth, floor);
    forall x | x in w
      ensures x in s <==> x in Inside(w, c)
    {
      VisitsDescendants(w, [c], w[c].depth, floor, x);
      assert c in [c];
    }
    forall x | x in s
      ensures x in w
    {
      VisitsWorld(w, [c], w[c].depth, floor, x);
    }
    DistinctCount(s);
    assert (set x | x in s) == Inside(w, c);
  }

  lemma {:induction false} VisitsWorld<R>(w: World<R>, q: seq<R>, n: nat, floor: nat, x: R)
    requires Forest(w) && Bounded(w, floor) && Queue(w, q, n) && x in LevelOrder(w, q, n, floor)
    ensures x in w
    decreases floor + 1 - n
  {
    assert q[0] in q;
    NextQueue(w, q, n);
    EntriesAt(w, q, x);
    if x !in Entries(w, q) {
      VisitsWorld(w, FullBoxes(w, Entries(w, q)), n + 1, floor, x);
    }
  }

  /** Nothing is to come exactly when no container is left. */
  lemma AllYielded<R>(w: World<R>, now: seq<R>, next: seq<R>, at: nat, n: nat, floor: nat)
    requires Position(w, now, next, at, n) && Bounded(w, floor)
    ensures now == [] <==> Remaining(w, now, next, at, n, floor) == []
  {
    if now != [] {
      assert now[0] in now;
      assert Entries(w, now)[at] == w[now[0]].items[at];
    }
  }

  datatype Stop<R> = Stop(now: seq<R>, next: seq<R>, at: nat, n: nat)

  /** The position after one step. */
  ghost function Step<R>(w: World<R>, now: seq<R>, next: seq<R>, at: nat, n: nat, floor: nat): Stop<R>
    requires Position(w, now, next, at, n) && now != []
  {
    assert now[0] in now;
    var f := Found(w, next, w[now[0]].items[at]);
    if at + 1 < |w[now[0]].items| then Stop(now, f, at + 1, n)
    else if |now| > 1 then Stop(now[1..], f, 0, n)
    else Stop(f, [], 0, n + 1)
  }

  /** A step yields the first item still to come and keeps the rest in order. */
  lemma StepYields<R>(w: World<R>, now: seq<R>, next: seq<R>, at: nat, n: nat, floor: nat)
    requires Position(w, now, next, at, n) && Bounded(w, floor) && now != []
    ensures now[0] in w && at < |w[now[0]].items| && w[now[0]].items[at] in w
    ensures var s := Step(w, now, next, at, n, floor);
            && Position(w, s.now, s.next, s.at, s.n)
            && Remaining(w, now, next, at, n, floor) ==
               [w[now[0]].items[at]] + Remaining(w, s.now, s.next, s.at, s.n, floor)
            && (s.now == [] <==> Remaining(w, s.now, s.next, s.at, s.n, floor) == [])
  {
    assert now[0] in now && Holds(w, now[0]) && w[now[0]].items[at] in w[now[0]].items;
    if at + 1 < |w[now[0]].items| {
      StayInList(w, now, next, at, n, floor);
    } else if |now| > 1 {
      NextContainer(w, now, next, at, n, floor);
    } else {
      NextLevel(w, now, next, at, n, floor);
    }
    var s := Step(w, now, next, at, n, floor);
    AllYielded(w, s.now, s.next, s.at, s.n, floor);
  }

  /**
   `rest` is what is still to come at stop `s`.  The quantifier keeps the definition of `Remaining`
   out of the way of proofs that do not need it.
   */
  ghost predicate Comes<R>(w: World<R>, s: Stop<R>, floor: nat, rest: seq<R>) {
    && Position(w, s.now, s.next, s.at, s.n) && Bounded(w, floor)
    && (forall k {:trigger Remaining(w, s.now, s.next, k, s.n, floor)} ::
          k == s.at ==> rest == Remaining(w, s.now, s.next, k, s.n, floor))
    && (s.now == [] <==> rest == [])
  }

  /** The step, on the queue as one list, which is what the iterator keeps. */
  lemma StepComes<R>(w: World<R>, s: Stop<R>, floor: nat, rest: seq<R>, queue: seq<R>) returns (t: Stop<R>)
    requires Comes(w, s, floor, rest) && queue == s.now + s.next && queue != []
    ensures queue[0] in w && s.at < |w[queue[0]].items| && w[queue[0]].items[s.at] in w
    ensures rest != [] && rest[0] == w[queue[0]].items[s.at]
    ensures Comes(w, t, floor, rest[1..])
    ensures var last := s.at + 1 == |w[queue[0]].items|;
            var grown := if FullBox(w, rest[0]) then queue + [rest[0]] else queue;
            t.now + t.next == (if last then grown[1..] else grown) && t.at == if last then 0 else s.at + 1
  {
    assert rest == Remaining(w, s.now, s.next, s.at, s.n, floor);
    StepYields(w, s.now, s.next, s.at, s.n, floor);
    t := Step(w, s.now, s.next, s.at, s.n, floor);
    assert rest[1..] == Remaining(w, t.now, t.next, t.at, t.n, floor);
  }

  lemma StartComes<R>(w: World<R>, c: R, floor: nat) returns (s: Stop<R>)
    requires Forest(w) && c in w && Bounded(w, floor)
    ensures Queue(w, [c], w[c].depth)
    ensures Comes(w, s, floor, LevelOrder(w, [c], w[c].depth, floor))
    ensures s.now + s.next == (if w[c].items != [] then [c] else []) && s.at == 0
  {
    assert Holds(w, c);
    if w[c].items != [] {
      s := Stop([c], [], 0, w[c].depth);
      StartRemaining(w, c, floor);
      AllYielded(w, [c], [], 0, w[c].depth, floor);
    } else {
      s := Stop([], [], 0, w[c].depth);
      assert Entries(w, [c]) == [];
    }
  }

  // ----- lists of containers -----

  /** The containers of `s`, empty ones included. */
  function Boxes<R(==)>(w: World<R>, s: seq<R>): seq<R> {
    if s == [] then [] else (if s[0] in w && w[s[0]].box then [s[0]] else []) + Boxes(w, s[1..])
  }

  lemma {:induction false} BoxesAt<R>(w: World<R>, s: seq<R>, x: R)
    ensures x in Boxes(w, s) <==> x in s && x in w && w[x].box
  {
    if s != [] {
      BoxesAt(w, s[1..], x);
    }
  }

  lemma {:induction false} BoxesDistinct<R>(w: World<R>, s: seq<R>)
    requires Distinct(s)
    ensures Distinct(Boxes(w, s))
  {
    if s != [] {
      BoxesDistinct(w, s[1..]);
      BoxesAt(w, s[1..], s[0]);
      assert s[0] !in s[1..];
    }
  }

  lemma {:induction false} BoxesConcat<R>(w: World<R>, s: seq<R>, t: seq<R>)
    ensures Boxes(w, s + t) == Boxes(w, s) + Boxes(w, t)
  {
    if s == [] {
      assert s + t == t;
    } else {
      BoxesConcat(w, s[1..], t);
      assert (s + t)[1..] == s[1..] + t;
      FirstBox(w, s, s[1..]);
      FirstBox(w, s + t, s[1..] + t);
    }
  }

  lemma FirstBox<R>(w: World<R>, s: seq<R>, rest: seq<R>)
    requires s != [] && rest == s[1..]
    ensures Boxes(w, s) == (if s[0] in w && w[s[0]].box then [s[0]] else []) + Boxes(w, rest)
  {
  }

  lemma {:induction false} EntriesConcat<R>(w: World<R>, s: seq<R>, t: seq<R>)
    ensures Entries(w, s + t) == Entries(w, s) + Entries(w, t)
  {
    if s == [] {
      assert s + t == t;
    } else {
      EntriesConcat(w, s[1..], t);
      assert (s + t)[1..] == s[1..] + t;
    }
  }

  lemma {:induction false} SubsetCount<T>(s: set<T>, t: set<T>)
    requires s <= t
    ensures |s| <= |t|
    decreases |s|
  {
    if s != {} {
      var x :| x in s;
      SubsetCount(s - {x}, t - {x});
    }
  }
}
