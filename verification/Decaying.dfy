/** Sets of numbers have a least one. */
module Ordered {

  lemma NothingIn(s: set<int>)
    ensures (forall k :: k !in s) ==> s == {}
  {
    if forall k :: k !in s {
      assert s == {};
    }
  }

  lemma {:induction false} LeastExists(s: set<int>)
    requires s != {}
    ensures exists t :: t in s && forall k :: k in s ==> t <= k
  {
    NothingIn(s);
    var k :| k in s;
    var r := s - {k};
    if r == {} {
      assert s == {k};
      assert k in s && forall j :: j in s ==> k <= j;
    } else {
      LeastExists(r);
      var t :| t in r && forall j :: j in r ==> t <= j;
      assert s == r + {k};
      var m := if t < k then t else k;
      assert m in s && forall j :: j in s ==> m <= j;
    }
  }
}

/**
 The decay scheduler: items in buckets by the time they are due, and a pending check.

 `State` is everything the scheduler touches: its buckets, the decay attributes of the items, the
 references it holds, and the timer events.  The functions say what each operation does to it; the
 class at the end is the program's own code, with its loops.
 */
module Decaying {
  import opened ItemTree
  import opened Ordered
  import opened Queries

  type Id = nat

  const MINTICKS := 50

  /** The attributes of one item; `able` is what `canDecay` answers, `held` the references taken and not given back. */
  datatype Info = Info(duration: Option<int>, state: Option<int>, timestamp: Option<int>, able: bool, held: int)

  /** A timer event: when it was asked for, and when it comes. */
  datatype Event = Event(created: int, due: int)

  datatype State = State(buckets: map<int, seq<Id>>, info: map<Id, Info>, pending: map<nat, Event>, eventId: nat, nextId: nat)

  // ----- ordered keys -----

  ghost predicate IsFirst(m: map<int, seq<Id>>, t: int) {
    t in m && forall k :: k in m ==> t <= k
  }

  /** `begin()->first` of an ordered map. */
  function First(m: map<int, seq<Id>>): (t: int)
    requires m != map[]
    ensures IsFirst(m, t)
  {
    assert m.Keys != {};
    LeastExists(m.Keys);
    var t :| t in m && forall k :: k in m ==> t <= k;
    t
  }

  // ----- the operations -----

  function AtLeast(a: int, b: int): int {
    if a < b then b else a
  }

  function Scheduled(s: State, now: int, delay: int): State {
    s.(pending := s.pending[s.nextId := Event(now, now + AtLeast(MINTICKS, delay))], eventId := s.nextId, nextId := s.nextId + 1)
  }

  function Cancelled(s: State): State {
    s.(pending := s.pending - {s.eventId})
  }

  /** `getDuration` */
  function TimeLeft(i: Info, now: int): int {
    if i.state == Some(DECAYING_TRUE) || i.state == Some(DECAYING_STOPPING) then
      AtLeast(0, (if i.timestamp.Some? then i.timestamp.value else 0) - now)
    else if i.duration.Some? then i.duration.value else 0
  }

  /** `setDuration(getDuration())`, if there is a duration at all. */
  function Kept(i: Info, now: int): Info {
    if i.duration.Some? then i.(duration := Some(AtLeast(0, TimeLeft(i, now)))) else i
  }

  /** Swapping with the last entry and dropping it. */
  function SwapPop(b: seq<Id>, i: nat): seq<Id>
    requires i < |b|
  {
    b[i := b[|b|-1]][..|b|-1]
  }

  function PositionOf(b: seq<Id>, x: Id): (i: nat)
    requires x in b
    ensures i < |b| && b[i] == x
  {
    if b[0] == x then 0 else 1 + PositionOf(b[1..], x)
  }

  function Dropped(m: map<int, seq<Id>>, t: int, x: Id): map<int, seq<Id>>
    requires t in m && x in m[t]
  {
    if |m[t]| == 1 then m - {t} else m[t := SwapPop(m[t], PositionOf(m[t], x))]
  }

  /** `Decay::stopDecay` */
  function Unlisted(s: State, x: Id, t: int, now: int): State
    requires x in s.info
  {
    if t in s.buckets && x in s.buckets[t] then
      s.(buckets := Dropped(s.buckets, t, x),
         info := s.info[x := Kept(s.info[x], now).(state := None, held := s.info[x].held - 1)])
    else s
  }

  /** The check is moved up if the new time is the first. */
  function Alerted(s: State, t: int, duration: int, now: int): State {
    if s.buckets == map[] then Scheduled(s, now, duration)
    else if t < First(s.buckets) then Scheduled(Cancelled(s), now, duration)
    else s
  }

  function Bucket(m: map<int, seq<Id>>, t: int): seq<Id> {
    if t in m then m[t] else []
  }

  function Enlisted(s: State, x: Id, t: int): State
    requires x in s.info
  {
    s.(buckets := s.buckets[t := Bucket(s.buckets, t) + [x]],
       info := s.info[x := s.info[x].(held := s.info[x].held + 1, state := Some(DECAYING_TRUE), timestamp := Some(t))])
  }

  /** `Decay::startDecay` */
  function Listed(s: State, x: Id, duration: int, now: int): State
    requires x in s.info
  {
    var s1 := if s.info[x].timestamp.Some? then Unlisted(s, x, s.info[x].timestamp.value, now) else s;
    Enlisted(Alerted(s1, now + duration, duration, now), x, now + duration)
  }

  /** `Game::stopDecay` */
  function Stopped(s: State, x: Id, now: int): State
    requires x in s.info
  {
    var i := s.info[x];
    if i.state.None? then s
    else if i.timestamp.Some? then
      var s1 := Unlisted(s, x, i.timestamp.value, now);
      s1.(info := s1.info[x := s1.info[x].(timestamp := None)])
    else s.(info := s.info[x := i.(state := None)])
  }

  /** An item that is started while it has this state is stopped instead. */
  predicate Ends(i: Info) {
    i.state == Some(DECAYING_STOPPING) || (!i.able && i.state == Some(DECAYING_TRUE))
  }

  /** An item that is started in this state goes into a bucket. */
  predicate Lists(i: Info) {
    !Ends(i) && i.able && i.state != Some(DECAYING_TRUE) && i.duration.Some? && i.duration.value > 0
  }

  /** `Game::startDecay`; an item without duration decays at once, which is not part of the scheduler. */
  function Started(s: State, x: Id, now: int): State
    requires x in s.info
  {
    var i := s.info[x];
    if Ends(i) then Stopped(s, x, now)
    else if !i.able || i.state == Some(DECAYING_TRUE) then s
    else
      var duration := if i.duration.Some? then i.duration.value else 0;
      if duration > 0 then Listed(s, x, duration, now) else s
  }

  /** What giving an item another type may do to it: the scheduler is not told, and a state does not go away. */
  predicate MayRetype(i: Info, j: Info) {
    && j.timestamp == i.timestamp && j.held == i.held
    && (j.state == i.state || j.state == Some(DECAYING_PENDING) || (i.state.Some? && j.state == Some(DECAYING_STOPPING)))
  }

  datatype Op = StartOp(x: Id) | StopOp(x: Id) | RetypeOp(x: Id, info: Info)

  predicate Possible(s: State, op: Op) {
    op.x in s.info && (op.RetypeOp? ==> MayRetype(s.info[op.x], op.info))
  }

  function Applied(s: State, op: Op, now: int): State
    requires Possible(s, op)
  {
    match op
    case StartOp(x) => Started(s, x, now)
    case StopOp(x) => Stopped(s, x, now)
    case RetypeOp(x, i) => s.(info := s.info[x := i])
  }

  // ----- what always holds -----

  /** The items waiting to be processed by a check, and the one being processed. */
  datatype Drain = Drain(waiting: seq<Id>, current: Option<Id>)

  const IDLE := Drain([], None)

  ghost predicate BucketIs(s: State, d: Drain, t: int) {
    t in s.buckets ==>
      && s.buckets[t] != [] && Distinct(s.buckets[t])
      && forall x :: x in s.buckets[t] ==> x in s.info && s.info[x].timestamp == Some(t) && x !in d.waiting
  }

  ghost predicate ItemIs(s: State, d: Drain, x: Id) {
    x in s.info ==>
      var i := s.info[x];
      && (x !in d.waiting && i.timestamp.Some? ==> i.timestamp.value in s.buckets && x in s.buckets[i.timestamp.value])
      && (i.timestamp.Some? ==> i.state.Some?)
      && (i.state == Some(DECAYING_TRUE) ==> i.timestamp.Some? || x in d.waiting)
      && i.held == if x in d.waiting then 1 else (if i.timestamp.Some? then 1 else 0) + (if d.current == Some(x) then 1 else 0)
  }

  /**
   Every bucket holds exactly the items whose time stamp it is, each once, and is not empty; one
   reference is held for each of them and for no other item.
   */
  ghost predicate Indexed(s: State, d: Drain) {
    && (forall t {:trigger BucketIs(s, d, t)} :: BucketIs(s, d, t))
    && (forall x {:trigger ItemIs(s, d, x)} :: ItemIs(s, d, x))
  }

  ghost predicate Covers(e: Event, first: int) {
    e.due <= AtLeast(first, e.created + MINTICKS)
  }

  /** A pending check comes no later than the first bucket is due, or fifty milliseconds after it was asked for. */
  ghost predicate Covered(s: State)
    requires s.buckets != map[]
  {
    exists id :: id in s.pending && Covers(s.pending[id], First(s.buckets))
  }

  ghost predicate Fresh(s: State) {
    s.eventId < s.nextId && forall id :: id in s.pending ==> id < s.nextId
  }

  /** While a check holds on to a bucket it is to be woken up for that one at the end. */
  ghost predicate Awake(s: State, hold: Option<int>) {
    && Fresh(s)
    && (hold.Some? ==> hold.value in s.buckets)
    && (s.buckets != map[] ==> Covered(s) || (hold.Some? && First(s.buckets) == hold.value))
  }

  ghost predicate Inv(s: State) {
    Indexed(s, IDLE) && Awake(s, None)
  }

  // ----- the elementary steps keep the index -----

  lemma SwapPopIs(b: seq<Id>, i: nat)
    requires i < |b| && Distinct(b)
    ensures Distinct(SwapPop(b, i)) && |SwapPop(b, i)| == |b| - 1
    ensures forall x :: x in SwapPop(b, i) <==> x in b && x != b[i]
  {
    var r := SwapPop(b, i);
    forall x | x in b && x != b[i]
      ensures x in r
    {
      var k :| 0 <= k < |b| && b[k] == x;
      if k == |b| - 1 {
        assert r[i] == x;
      } else {
        assert r[k] == x;
      }
    }
  }

  /** Taking an item out of its bucket; its time stamp is not touched yet. */
  lemma UnlistedIs(s: State, d: Drain, x: Id, now: int)
    requires Indexed(s, d) && x in s.info && x !in d.waiting && s.info[x].timestamp.Some?
    ensures var t, n := s.info[x].timestamp.value, Unlisted(s, x, s.info[x].timestamp.value, now);
            && n.info.Keys == s.info.Keys && (forall y :: y in s.info && y != x ==> n.info[y] == s.info[y])
            && n.info[x].held == s.info[x].held - 1 && n.info[x].timestamp == Some(t) && n.info[x].state.None?
            && (forall k :: k != t ==> (k in n.buckets <==> k in s.buckets) && (k in s.buckets ==> n.buckets[k] == s.buckets[k]))
            && (t in n.buckets ==> n.buckets[t] != [] && Distinct(n.buckets[t]))
            && (forall y :: t in n.buckets && y in n.buckets[t] <==> t in s.buckets && y in s.buckets[t] && y != x)
  {
    var t := s.info[x].timestamp.value;
    assert ItemIs(s, d, x) && BucketIs(s, d, t);
    SwapPopIs(s.buckets[t], PositionOf(s.buckets[t], x));
  }

  lemma UnlistedBucket(s: State, d: Drain, x: Id, now: int, i: Info, k: int)
    requires Indexed(s, d) && x in s.info && x !in d.waiting && s.info[x].timestamp.Some?
    ensures var n := Unlisted(s, x, s.info[x].timestamp.value, now);
            BucketIs(n.(info := n.info[x := i]), d, k)
  {
    UnlistedIs(s, d, x, now);
    assert BucketIs(s, d, k) && BucketIs(s, d, s.info[x].timestamp.value);
  }

  /** With its time stamp gone as well, the index is right again. */
  lemma UnlistedKeeps(s: State, d: Drain, x: Id, now: int)
    requires Indexed(s, d) && x in s.info && x !in d.waiting && s.info[x].timestamp.Some?
    ensures var n := Unlisted(s, x, s.info[x].timestamp.value, now);
            x in n.info && Indexed(n.(info := n.info[x := n.info[x].(timestamp := None)]), d)
  {
    UnlistedIs(s, d, x, now);
    var n := Unlisted(s, x, s.info[x].timestamp.value, now);
    var m := n.(info := n.info[x := n.info[x].(timestamp := None)]);
    forall k | true
      ensures BucketIs(m, d, k)
    {
      UnlistedBucket(s, d, x, now, n.info[x].(timestamp := None), k);
    }
    forall y | true
      ensures ItemIs(m, d, y)
    {
      assert ItemIs(s, d, y);
    }
  }

  /** Putting an item into a bucket. */
  lemma EnlistedKeeps(s: State, d: Drain, x: Id, t: int)
    requires Indexed(s, d) && x in s.info && x !in d.waiting && s.info[x].timestamp.None?
    ensures Indexed(Enlisted(s, x, t), d)
  {
    var n := Enlisted(s, x, t);
    forall k | true
      ensures BucketIs(n, d, k)
    {
      assert BucketIs(s, d, k) && BucketIs(s, d, t);
    }
    forall y | true
      ensures ItemIs(n, d, y)
    {
      assert ItemIs(s, d, y) && ItemIs(s, d, x);
    }
  }

  /** Only buckets and attributes matter for the index. */
  lemma IndexedSame(s: State, n: State, d: Drain)
    requires Indexed(s, d) && n.buckets == s.buckets && n.info == s.info
    ensures Indexed(n, d)
  {
    forall k | true
      ensures BucketIs(n, d, k)
    {
      assert BucketIs(s, d, k);
    }
    forall y | true
      ensures ItemIs(n, d, y)
    {
      assert ItemIs(s, d, y);
    }
  }

  // ----- a check stays pending -----

  lemma StillCovered(s: State, n: State)
    requires s.buckets != map[] && n.buckets != map[] && Covered(s) && s.pending == n.pending
    requires First(s.buckets) <= First(n.buckets)
    ensures Covered(n)
  {
    var id :| id in s.pending && Covers(s.pending[id], First(s.buckets));
    assert Covers(n.pending[id], First(n.buckets));
  }

  lemma Fewer(m: map<int, seq<Id>>, n: map<int, seq<Id>>)
    requires n != map[] && forall k :: k in n ==> k in m
    ensures m != map[] && First(m) <= First(n)
  {
    assert First(n) in m;
  }

  /** Fewer buckets, the same events: the check is still in time. */
  lemma AwakeFewer(s: State, n: State, hold: Option<int>)
    requires Awake(s, hold) && n.pending == s.pending && n.eventId == s.eventId && n.nextId == s.nextId
    requires (forall k :: k in n.buckets ==> k in s.buckets) && (hold.Some? ==> hold.value in n.buckets)
    ensures Awake(n, hold)
  {
    if n.buckets != map[] {
      Fewer(s.buckets, n.buckets);
      if Covered(s) {
        StillCovered(s, n);
      }
    }
  }

  lemma ScheduledCovers(s: State, now: int, delay: int, n: State)
    requires Fresh(s) && n.buckets != map[] && First(n.buckets) >= now + delay
    requires n.pending == Scheduled(s, now, delay).pending && n.eventId == s.nextId && n.nextId == s.nextId + 1
    ensures Fresh(n) && Covered(n)
  {
    assert Covers(n.pending[s.nextId], First(n.buckets));
  }

  lemma FirstOfMore(m: map<int, seq<Id>>, t: int, b: seq<Id>)
    ensures var n := m[t := b];
            n != map[] && First(n) == if m == map[] || t < First(m) then t else First(m)
  {
    var n := m[t := b];
    assert t in n;
    assert m != map[] ==> First(m) in n;
    assert First(n) == t || First(n) in m;
  }

  /** A new entry is covered by the event that is there already, or by a new one. */
  lemma EnlistedAwake(s: State, x: Id, duration: int, now: int, hold: Option<int>)
    requires Awake(s, hold) && x in s.info
    ensures Awake(Enlisted(Alerted(s, now + duration, duration, now), x, now + duration), hold)
  {
    var t := now + duration;
    var a := Alerted(s, t, duration, now);
    var n := Enlisted(a, x, t);
    FirstOfMore(s.buckets, t, Bucket(s.buckets, t) + [x]);
    if s.buckets == map[] {
      ScheduledCovers(s, now, duration, n);
    } else if t < First(s.buckets) {
      ScheduledCovers(Cancelled(s), now, duration, n);
    } else if Covered(s) {
      StillCovered(s, n);
    }
  }

  // ----- every operation keeps all of it -----

  /** A waiting item goes into a bucket again. */
  predicate Relists(s: State, op: Op, d: Drain) {
    op.StartOp? && op.x in d.waiting && op.x in s.info && Lists(s.info[op.x])
  }

  /** The bucket the loop holds loses its last item and is erased. */
  predicate Erases(s: State, op: Op, hold: Option<int>) {
    && hold.Some? && hold.value in s.buckets && s.buckets[hold.value] == [op.x]
    && (op.StopOp? || (op.StartOp? && op.x in s.info && (Ends(s.info[op.x]) || Lists(s.info[op.x]))))
  }

  /** An operation that may happen during a check. */
  predicate Harmless(s: State, op: Op, d: Drain, hold: Option<int>) {
    !Relists(s, op, d) && !Erases(s, op, hold)
  }

  /** An item that waits is in no bucket: its attributes may change, but for the reference. */
  lemma WaitingInfoKeeps(s: State, d: Drain, x: Id, j: Info)
    requires Indexed(s, d) && x in s.info && x in d.waiting
    requires j.held == s.info[x].held && (j.timestamp.Some? ==> j.state.Some?)
    ensures Indexed(s.(info := s.info[x := j]), d)
  {
    var n := s.(info := s.info[x := j]);
    forall k | true
      ensures BucketIs(n, d, k)
    {
      assert BucketIs(s, d, k);
    }
    forall y | true
      ensures ItemIs(n, d, y)
    {
      assert ItemIs(s, d, y);
    }
  }

  /** Whatever is done to an item that waits, other than putting it into a bucket. */
  lemma WaitingKeeps(s: State, op: Op, now: int, d: Drain, hold: Option<int>)
    requires Possible(s, op) && Indexed(s, d) && Awake(s, hold) && op.x in d.waiting && !Relists(s, op, d)
    ensures Indexed(Applied(s, op, now), d) && Awake(Applied(s, op, now), hold)
  {
    var x, i, n := op.x, s.info[op.x], Applied(s, op, now);
    assert ItemIs(s, d, x);
    if i.timestamp.Some? {
      assert BucketIs(s, d, i.timestamp.value);
    }
    assert n == s.(info := s.info[x := n.info[x]]);
    WaitingInfoKeeps(s, d, x, n.info[x]);
    AwakeFewer(s, n, hold);
  }

  /** A waiting item that is put into a bucket breaks the index, whatever else is the case. */
  lemma RelistedBreaks(s: State, op: Op, now: int, d: Drain)
    requires Possible(s, op) && Relists(s, op, d)
    ensures !Indexed(Applied(s, op, now), d)
  {
    var n := Applied(s, op, now);
    var t := now + s.info[op.x].duration.value;
    assert t in n.buckets && op.x == n.buckets[t][|n.buckets[t]|-1];
    assert !BucketIs(n, d, t);
  }

  /** During a check an operation keeps the index exactly if it does not put a waiting item into a bucket. */
  lemma IndexKeptIff(s: State, op: Op, now: int, d: Drain, hold: Option<int>)
    requires Possible(s, op) && Indexed(s, d) && Awake(s, hold) && !Erases(s, op, hold)
    ensures Indexed(Applied(s, op, now), d) <==> !Relists(s, op, d)
  {
    if Relists(s, op, d) {
      RelistedBreaks(s, op, now, d);
    } else {
      AppliedKeeps(s, op, now, d, hold);
    }
  }

  lemma HoldStays(s: State, d: Drain, x: Id, now: int, hold: Option<int>)
    requires Indexed(s, d) && x in s.info && x !in d.waiting && s.info[x].timestamp.Some? && Awake(s, hold)
    requires hold.Some? ==> s.buckets[hold.value] != [x]
    ensures Awake(Unlisted(s, x, s.info[x].timestamp.value, now), hold)
  {
    var t := s.info[x].timestamp.value;
    var n := Unlisted(s, x, t, now);
    UnlistedIs(s, d, x, now);
    assert BucketIs(s, d, t) && ItemIs(s, d, x);
    assert |s.buckets[t]| == 1 ==> s.buckets[t] == [x];
    AwakeFewer(s, n, hold);
  }

  lemma StoppedKeeps(s: State, d: Drain, x: Id, now: int, hold: Option<int>)
    requires Indexed(s, d) && Awake(s, hold) && x in s.info && x !in d.waiting
    requires hold.Some? ==> s.buckets[hold.value] != [x]
    ensures Indexed(Stopped(s, x, now), d) && Awake(Stopped(s, x, now), hold)
    ensures s.info[x].timestamp.Some? && s.info[x].state.Some? ==> Stopped(s, x, now).info[x].held == s.info[x].held - 1
  {
    var n := Stopped(s, x, now);
    var i := s.info[x];
    assert ItemIs(s, d, x);
    if i.state.Some? && i.timestamp.Some? {
      UnlistedIs(s, d, x, now);
      UnlistedKeeps(s, d, x, now);
      HoldStays(s, d, x, now, hold);
      AwakeFewer(Unlisted(s, x, i.timestamp.value, now), n, hold);
    } else if i.state.Some? {
      InfoKeeps(s, d, x, i.(state := None));
      AwakeFewer(s, n, hold);
    }
  }

  /** Attributes other than the time stamp do not matter for the index, as long as the states make sense. */
  lemma InfoKeeps(s: State, d: Drain, x: Id, j: Info)
    requires Indexed(s, d) && x in s.info && x !in d.waiting
    requires j.timestamp == s.info[x].timestamp && j.held == s.info[x].held && (j.timestamp.Some? ==> j.state.Some?)
    requires j.state == Some(DECAYING_TRUE) ==> j.timestamp.Some?
    ensures Indexed(s.(info := s.info[x := j]), d)
  {
    var n := s.(info := s.info[x := j]);
    forall k | true
      ensures BucketIs(n, d, k)
    {
      assert BucketIs(s, d, k);
    }
    forall y | true
      ensures ItemIs(n, d, y)
    {
      assert ItemIs(s, d, y) && ItemIs(s, d, x);
    }
  }

  /** The old entry of an item that is put into a bucket: `s1` is the program's state, `s2` the one without the time stamp. */
  lemma OldEntryGone(s: State, d: Drain, x: Id, now: int, hold: Option<int>) returns (s1: State, s2: State)
    requires Indexed(s, d) && Awake(s, hold) && x in s.info && x !in d.waiting
    requires hold.Some? ==> s.buckets[hold.value] != [x]
    ensures s1 == if s.info[x].timestamp.Some? then Unlisted(s, x, s.info[x].timestamp.value, now) else s
    ensures x in s1.info && s2 == s1.(info := s1.info[x := s1.info[x].(timestamp := None)])
    ensures Awake(s1, hold) && Indexed(s2, d)
  {
    if s.info[x].timestamp.Some? {
      s1 := Unlisted(s, x, s.info[x].timestamp.value, now);
      s2 := s1.(info := s1.info[x := s1.info[x].(timestamp := None)]);
      UnlistedIs(s, d, x, now);
      UnlistedKeeps(s, d, x, now);
      HoldStays(s, d, x, now, hold);
    } else {
      s1, s2 := s, s.(info := s.info[x := s.info[x].(timestamp := None)]);
      assert s.info[x].(timestamp := None) == s.info[x];
      assert s2 == s;
    }
  }

  lemma ListedKeeps(s: State, d: Drain, x: Id, duration: int, now: int, hold: Option<int>)
    requires Indexed(s, d) && Awake(s, hold) && x in s.info && x !in d.waiting
    requires hold.Some? ==> s.buckets[hold.value] != [x]
    ensures Indexed(Listed(s, x, duration, now), d) && Awake(Listed(s, x, duration, now), hold)
  {
    var t := now + duration;
    var s1, s2 := OldEntryGone(s, d, x, now, hold);
    EnlistedAwake(s1, x, duration, now, hold);
    EnlistedKeeps(s2, d, x, t);
    SameEntry(s1, s2, Alerted(s1, t, duration, now), x, t);
    IndexedSame(Enlisted(s2, x, t), Enlisted(Alerted(s1, t, duration, now), x, t), d);
  }

  /** The new time stamp replaces the old one, and events are not part of the index. */
  lemma SameEntry(s1: State, s2: State, s3: State, x: Id, t: int)
    requires x in s1.info && s2 == s1.(info := s1.info[x := s1.info[x].(timestamp := None)])
    requires s3.info == s1.info && s3.buckets == s1.buckets
    ensures Enlisted(s3, x, t).buckets == Enlisted(s2, x, t).buckets && Enlisted(s3, x, t).info == Enlisted(s2, x, t).info
  {
  }

  lemma AppliedKeeps(s: State, op: Op, now: int, d: Drain, hold: Option<int>)
    requires Possible(s, op) && Indexed(s, d) && Awake(s, hold) && Harmless(s, op, d, hold)
    ensures Indexed(Applied(s, op, now), d) && Awake(Applied(s, op, now), hold)
  {
    if op.x in d.waiting {
      WaitingKeeps(s, op, now, d, hold);
      return;
    }
    assert ItemIs(s, d, op.x);
    match op
    case StopOp(x) =>
      StoppedKeeps(s, d, x, now, hold);
    case RetypeOp(x, i) =>
      InfoKeeps(s, d, x, i);
      AwakeFewer(s, Applied(s, op, now), hold);
    case StartOp(x) =>
      var i := s.info[x];
      if Ends(i) {
        StoppedKeeps(s, d, x, now, hold);
      } else if Lists(i) {
        ListedKeeps(s, d, x, if i.duration.Some? then i.duration.value else 0, now, hold);
      }
  }

  // ----- the check -----

  datatype Drained = Drained(s: State, items: seq<Id>)

  /** All buckets that are due leave the map, the first one first. */
  function DueTaken(s: State, now: int, items: seq<Id>): Drained
    decreases |s.buckets|
  {
    if s.buckets == map[] || First(s.buckets) > now then Drained(s, items)
    else
      var t := First(s.buckets);
      assert (s.buckets - {t}).Keys == s.buckets.Keys - {t};
      DueTaken(s.(buckets := s.buckets - {t}), now, items + s.buckets[t])
  }

  /** What happens to an item whose time has come, before anything it sets off. */
  function Expired(s: State, x: Id, now: int): State
    requires x in s.info
  {
    var i := s.info[x];
    var j := if i.able then i else i.(duration := Some(AtLeast(0, TimeLeft(i, now))));
    s.(info := s.info[x := j.(state := Some(DECAYING_FALSE), timestamp := None)])
  }

  function Released(s: State, x: Id): State
    requires x in s.info
  {
    s.(info := s.info[x := s.info[x].(held := s.info[x].held - 1)])
  }

  /** What the decay of an item sets off; operations that are not harmless are left out. */
  function AllApplied(s: State, ops: seq<Op>, now: int, d: Drain, hold: Option<int>): (n: State)
    ensures s.info.Keys == n.info.Keys
    decreases |ops|
  {
    if ops == [] then s
    else if Possible(s, ops[0]) && Harmless(s, ops[0], d, hold) then AllApplied(Applied(s, ops[0], now), ops[1..], now, d, hold)
    else AllApplied(s, ops[1..], now, d, hold)
  }

  /** The loop over the items that were due. */
  function Processed(s: State, items: seq<Id>, now: int, script: Id -> seq<Op>, hold: Option<int>): State
    requires forall x :: x in items ==> x in s.info
    decreases |items|
  {
    if items == [] then s
    else
      var x := items[0];
      var s1 := Expired(s, x, now);
      var s2 := if s.info[x].able then AllApplied(s1, script(x), now, Drain(items[1..], Some(x)), hold) else s1;
      Processed(Released(s2, x), items[1..], now, script, hold)
  }

  /** The bucket the loop has stopped at. */
  function Next(s: State): Option<int> {
    if s.buckets == map[] then None else Some(First(s.buckets))
  }

  // ----- the check keeps everything -----

  lemma DueTakenKeeps(s: State, now: int, items: seq<Id>)
    requires Indexed(s, Drain(items, None)) && Distinct(items) && forall x :: x in items ==> x in s.info
    ensures var r := DueTaken(s, now, items);
            && Indexed(r.s, Drain(r.items, None)) && Distinct(r.items) && r.s.info == s.info
            && r.s.pending == s.pending && r.s.eventId == s.eventId && r.s.nextId == s.nextId
            && (r.s.buckets != map[] ==> First(r.s.buckets) > now)
            && (forall x :: x in r.items ==> x in s.info)
    decreases |s.buckets|
  {
    if s.buckets != map[] && First(s.buckets) <= now {
      var t := First(s.buckets);
      assert (s.buckets - {t}).Keys == s.buckets.Keys - {t};
      assert BucketIs(s, Drain(items, None), t);
      BucketTaken(s, t, items);
      DueTakenKeeps(s.(buckets := s.buckets - {t}), now, items + s.buckets[t]);
    }
  }

  /** The items of a bucket that is taken are waiting from then on. */
  lemma BucketTaken(s: State, t: int, items: seq<Id>)
    requires Indexed(s, Drain(items, None)) && Distinct(items) && t in s.buckets && BucketIs(s, Drain(items, None), t)
    ensures Indexed(s.(buckets := s.buckets - {t}), Drain(items + s.buckets[t], None)) && Distinct(items + s.buckets[t])
  {
    var d, e := Drain(items, None), Drain(items + s.buckets[t], None);
    var n := s.(buckets := s.buckets - {t});
    DistinctConcat(items, s.buckets[t]);
    forall k | true
      ensures BucketIs(n, e, k)
    {
      assert BucketIs(s, d, k);
    }
    forall x | true
      ensures ItemIs(n, e, x)
    {
      assert ItemIs(s, d, x);
    }
  }

  /** An item that is processed is in no bucket; its reference is still held. */
  lemma ExpiredKeeps(s: State, items: seq<Id>, now: int)
    requires items != [] && Distinct(items) && items[0] in s.info && Indexed(s, Drain(items, None))
    ensures Indexed(Expired(s, items[0], now), Drain(items[1..], Some(items[0])))
  {
    var x, d, e := items[0], Drain(items, None), Drain(items[1..], Some(items[0]));
    var n := Expired(s, x, now);
    assert x !in items[1..];
    forall k | true
      ensures BucketIs(n, e, k)
    {
      assert BucketIs(s, d, k);
    }
    forall y | true
      ensures ItemIs(n, e, y)
    {
      assert ItemIs(s, d, y);
      assert y in items <==> y == x || y in items[1..];
    }
  }

  lemma ReleasedKeeps(s: State, x: Id, rest: seq<Id>)
    requires Indexed(s, Drain(rest, Some(x))) && x in s.info && x !in rest
    ensures Indexed(Released(s, x), Drain(rest, None))
  {
    var n, d, e := Released(s, x), Drain(rest, Some(x)), Drain(rest, None);
    forall k | true
      ensures BucketIs(n, e, k)
    {
      assert BucketIs(s, d, k);
    }
    forall y | true
      ensures ItemIs(n, e, y)
    {
      assert ItemIs(s, d, y);
    }
  }

  lemma AllAppliedKeeps(s: State, ops: seq<Op>, now: int, d: Drain, hold: Option<int>)
    requires Indexed(s, d) && Awake(s, hold)
    ensures var n := AllApplied(s, ops, now, d, hold); Indexed(n, d) && Awake(n, hold)
    decreases |ops|
  {
    if ops != [] {
      if Possible(s, ops[0]) && Harmless(s, ops[0], d, hold) {
        AppliedKeeps(s, ops[0], now, d, hold);
        AllAppliedKeeps(Applied(s, ops[0], now), ops[1..], now, d, hold);
      } else {
        AllAppliedKeeps(s, ops[1..], now, d, hold);
      }
    }
  }

  lemma ProcessedKeeps(s: State, items: seq<Id>, now: int, script: Id -> seq<Op>, hold: Option<int>)
    requires (forall x :: x in items ==> x in s.info) && Distinct(items) && Indexed(s, Drain(items, None)) && Awake(s, hold)
    ensures var n := Processed(s, items, now, script, hold); Indexed(n, IDLE) && Awake(n, hold)
    decreases |items|
  {
    if items != [] {
      var x := items[0];
      var d := Drain(items[1..], Some(x));
      var s1 := Expired(s, x, now);
      ExpiredKeeps(s, items, now);
      AwakeFewer(s, s1, hold);
      if s.info[x].able {
        AllAppliedKeeps(s1, script(x), now, d, hold);
      }
      var s2 := if s.info[x].able then AllApplied(s1, script(x), now, d, hold) else s1;
      assert x !in items[1..];
      ReleasedKeeps(s2, x, items[1..]);
      AwakeFewer(s2, Released(s2, x), hold);
      ProcessedKeeps(Released(s2, x), items[1..], now, script, hold);
    }
  }

  /** `checkDecay`, run by the event `fired`, which is thereby no longer pending. */
  ghost function Checked(s: State, fired: nat, now: int, script: Id -> seq<Op>): State
    requires Indexed(s, IDLE)
  {
    IndexedSame(s, s.(pending := s.pending - {fired}), IDLE);
    DueTakenKeeps(s.(pending := s.pending - {fired}), now, []);
    var r := DueTaken(s.(pending := s.pending - {fired}), now, []);
    var next := Next(r.s);
    var n := Processed(r.s, r.items, now, script, next);
    if next.Some? then Scheduled(n, now, next.value - now) else n
  }

  lemma ScheduledAwake(n: State, now: int, hold: int)
    requires Awake(n, Some(hold))
    ensures Awake(Scheduled(n, now, hold - now), None)
  {
    var m := Scheduled(n, now, hold - now);
    if First(n.buckets) >= hold {
      ScheduledCovers(n, now, hold - now, m);
    } else {
      var id :| id in n.pending && Covers(n.pending[id], First(n.buckets));
      assert id in m.pending && Covers(m.pending[id], First(m.buckets));
    }
  }

  lemma CheckedKeeps(s: State, fired: nat, now: int, script: Id -> seq<Op>)
    requires Inv(s)
    ensures Inv(Checked(s, fired, now, script))
  {
    var s0 := s.(pending := s.pending - {fired});
    IndexedSame(s, s0, IDLE);
    DueTakenKeeps(s0, now, []);
    var r := DueTaken(s0, now, []);
    var next := Next(r.s);
    ProcessedKeeps(r.s, r.items, now, script, next);
    var n := Processed(r.s, r.items, now, script, next);
    if next.Some? {
      AskedAgain(n, now, next.value);
    }
  }

  lemma AskedAgain(n: State, now: int, hold: int)
    requires Indexed(n, IDLE) && Awake(n, Some(hold))
    ensures Inv(Scheduled(n, now, hold - now))
  {
    ScheduledAwake(n, now, hold);
    IndexedSame(n, Scheduled(n, now, hold - now), IDLE);
  }

  /** Exactly the items whose time has come are processed by a check. */
  lemma DueTakenIs(s: State, now: int, items: seq<Id>, x: Id)
    requires Indexed(s, Drain(items, None)) && Distinct(items) && x in s.info && x !in items
    requires forall y :: y in items ==> y in s.info
    ensures x in DueTaken(s, now, items).items <==> s.info[x].timestamp.Some? && s.info[x].timestamp.value <= now
    decreases |s.buckets|
  {
    var d := Drain(items, None);
    assert ItemIs(s, d, x);
    if s.buckets != map[] && First(s.buckets) <= now {
      var t := First(s.buckets);
      assert BucketIs(s, d, t);
      assert (s.buckets - {t}).Keys == s.buckets.Keys - {t};
      BucketTaken(s, t, items);
      if x in s.buckets[t] {
        StaysTaken(s.(buckets := s.buckets - {t}), now, items + s.buckets[t], x);
      } else {
        DueTakenIs(s.(buckets := s.buckets - {t}), now, items + s.buckets[t], x);
      }
    }
  }

  lemma {:induction false} StaysTaken(s: State, now: int, items: seq<Id>, x: Id)
    requires x in items
    ensures x in DueTaken(s, now, items).items
    decreases |s.buckets|
  {
    if s.buckets != map[] && First(s.buckets) <= now {
      var t := First(s.buckets);
      assert (s.buckets - {t}).Keys == s.buckets.Keys - {t};
      StaysTaken(s.(buckets := s.buckets - {t}), now, items + s.buckets[t], x);
    }
  }

  // ----- runs -----

  datatype Action = Do(op: Op, now: int) | Check(fired: nat, now: int, script: Id -> seq<Op>)

  ghost function Run(s: State, actions: seq<Action>): (n: State)
    requires Inv(s)
    ensures Inv(n)
    decreases |actions|
  {
    if actions == [] then s
    else
      match actions[0]
      case Do(op, now) =>
        if Possible(s, op) then
          AppliedKeeps(s, op, now, IDLE, None);
          Run(Applied(s, op, now), actions[1..])
        else Run(s, actions[1..])
      case Check(fired, now, script) =>
        CheckedKeeps(s, fired, now, script);
        Run(Checked(s, fired, now, script), actions[1..])
  }

  /** Before anything decays. */
  predicate Quiet(info: map<Id, Info>) {
    forall x :: x in info ==> info[x].timestamp.None? && info[x].held == 0 && info[x].state != Some(DECAYING_TRUE)
  }

  lemma Starts(info: map<Id, Info>)
    requires Quiet(info)
    ensures Inv(State(map[], info, map[], 0, 1))
  {
    var s := State(map[], info, map[], 0, 1);
    forall k | true
      ensures BucketIs(s, IDLE, k)
    {
    }
    forall x | true
      ensures ItemIs(s, IDLE, x)
    {
    }
  }

  /**
   Over every run: an item is in a bucket exactly when that is its time stamp; exactly then one
   reference is held for it; an item in the decaying state is in a bucket; and if there is a bucket,
   a check is pending that comes no later than the first one is due or fifty milliseconds after it
   was asked for.
   */
  lemma OverEveryRun(info: map<Id, Info>, actions: seq<Action>, x: Id, t: int)
    requires Quiet(info)
    ensures Inv(State(map[], info, map[], 0, 1))
    ensures var n := Run(State(map[], info, map[], 0, 1), actions);
            && (t in n.buckets && x in n.buckets[t] <==> x in n.info && n.info[x].timestamp == Some(t))
            && (x in n.info ==> n.info[x].held == if n.info[x].timestamp.Some? then 1 else 0)
            && (x in n.info && n.info[x].state == Some(DECAYING_TRUE) ==> n.info[x].timestamp.Some?)
            && (t in n.buckets ==> n.buckets[t] != [] && Distinct(n.buckets[t]))
            && (n.buckets != map[] ==> exists id :: id in n.pending && Covers(n.pending[id], First(n.buckets)))
  {
    Starts(info);
    var n := Run(State(map[], info, map[], 0, 1), actions);
    assert BucketIs(n, IDLE, t) && ItemIs(n, IDLE, x);
  }

  /**
   The state alone does not say whether an item is in a bucket: another type can take an item out of
   the decaying state without the scheduler being told.
   */
  lemma StateCanLag()
    ensures exists s: State, x: Id ::
              Inv(s) && x in s.info && s.info[x].timestamp == Some(1000) && s.info[x].state == Some(DECAYING_STOPPING)
              && 1000 in s.buckets && x in s.buckets[1000]
  {
    var i := Info(Some(1000), None, None, true, 0);
    var s := State(map[], map[7 := i], map[], 0, 1);
    Starts(s.info);
    AppliedKeeps(s, StartOp(7), 0, IDLE, None);
    var n := Applied(s, StartOp(7), 0);
    var j := n.info[7].(state := Some(DECAYING_STOPPING), duration := None);
    AppliedKeeps(n, RetypeOp(7, j), 0, IDLE, None);
    var m := Applied(n, RetypeOp(7, j), 0);
    assert Inv(m) && m.info[7].timestamp == Some(1000) && m.buckets[1000] == [7];
  }

  lemma {:induction false} EntryIsTaken(s: State, now: int, items: seq<Id>, x: Id, t: int)
    requires t in s.buckets && x in s.buckets[t] && t <= now
    ensures x in DueTaken(s, now, items).items
    decreases |s.buckets|
  {
    var f := First(s.buckets);
    assert (s.buckets - {f}).Keys == s.buckets.Keys - {f};
    if f == t {
      StaysTaken(s.(buckets := s.buckets - {t}), now, items + s.buckets[t], x);
    } else {
      EntryIsTaken(s.(buckets := s.buckets - {f}), now, items + s.buckets[f], x, t);
    }
  }

  /**
   An entry whose item has no time stamp outlives the stopping of the item: the stop touches neither
   the bucket nor the reference, and the next check that is late enough takes the item all the same.
   */
  lemma StopMissesEntry(s: State, x: Id, t: int, now: int, later: int)
    requires x in s.info && s.info[x].timestamp.None? && t in s.buckets && x in s.buckets[t] && t <= later
    ensures var n := Stopped(s, x, now);
            && n.buckets == s.buckets && x in n.info && n.info[x].held == s.info[x].held && n.info[x].state.None?
            && x in DueTaken(n, later, []).items
  {
    EntryIsTaken(Stopped(s, x, now), later, [], x, t);
  }

  /** Its reference is given back by that check, if there is no other entry. */
  lemma LateCheckReleases(s: State, x: Id, t: int, later: int)
    requires x in s.info && s.buckets == map[t := [x]] && s.info[x].held == 1 && t <= later
    ensures var r := DueTaken(s, later, []);
            && r.items == [x] && r.s.buckets == map[] && x in r.s.info && x in Expired(r.s, x, later).info
            && Released(Expired(r.s, x, later), x).info[x].held == 0
  {
    assert s.buckets - {t} == map[];
    assert First(s.buckets) == t;
    assert DueTaken(s.(buckets := map[]), later, [] + [x]) == Drained(s.(buckets := map[]), [] + [x]);
  }

  /**
   An item that waits, is given another type and is started: when its turn comes it loses its time
   stamp, but stays in the bucket.  From then on it cannot be stopped: whatever `Stopped` does to it
   at any time, the check of that bucket takes it, processes it and gives its last reference back.
   */
  lemma RelistedGoesWrong(now: int)
    requires now >= 10
    ensures var s := State(map[10 := [5, 7]], map[5 := Due(), 7 := Due()], map[], 0, 1);
            var r := DueTaken(s, now, []);
            && Indexed(s, IDLE) && r.items == [5, 7] && 7 in Expired(r.s, 5, now).info
            && Possible(Expired(r.s, 5, now), RetypeOp(7, Again()))
            && var n := Started(Applied(Expired(r.s, 5, now), RetypeOp(7, Again()), now), 7, now);
            var m := Released(Expired(Released(n, 5), 7, now), 7);
            && m.buckets == map[now + 1000 := [7]] && m.info[7].timestamp.None? && m.info[7].held == 1
            && !Indexed(m, IDLE)
            && forall at, later :: later >= now + 1000 ==> DueTaken(Stopped(m, 7, at), later, []).items == [7]
  {
    var s := State(map[10 := [5, 7]], map[5 := Due(), 7 := Due()], map[], 0, 1);
    forall k | true
      ensures BucketIs(s, IDLE, k)
    {
    }
    forall x | true
      ensures ItemIs(s, IDLE, x)
    {
    }
    TwoTaken(s, now);
    var r := DueTaken(s, now, []);
    var a := Applied(Expired(r.s, 5, now), RetypeOp(7, Again()), now);
    assert a.buckets == map[] && a.info[7] == Again();
    RelistStep(a, now);
    var n := Started(a, 7, now);
    var m := Released(Expired(Released(n, 5), 7, now), 7);
    assert m.buckets == n.buckets && m.buckets[now + 1000][0] == 7;
    assert m.info[7].timestamp.None?;
    assert !BucketIs(m, IDLE, now + 1000);
    NeverStopped(m, 7, now + 1000);
  }

  lemma NeverStopped(m: State, x: Id, t: int)
    requires x in m.info && m.buckets == map[t := [x]] && m.info[x].timestamp.None? && m.info[x].held == 1
    ensures forall at, later :: later >= t ==> DueTaken(Stopped(m, x, at), later, []).items == [x]
  {
    forall at, later | later >= t
      ensures DueTaken(Stopped(m, x, at), later, []).items == [x]
    {
      StopMissesEntry(m, x, t, at, later);
      LateCheckReleases(Stopped(m, x, at), x, t, later);
    }
  }

  lemma RelistStep(a: State, now: int)
    requires a.buckets == map[] && 7 in a.info && 5 in a.info && a.info[7] == Again()
    ensures var n := Started(a, 7, now);
            && n.info.Keys == a.info.Keys && n.buckets == map[now + 1000 := [7]] && n.info[7].held == 2
            && n.info[5] == a.info[5]
  {
    assert Lists(a.info[7]);
    assert Unlisted(a, 7, 10, now) == a;
    var s := Alerted(a, now + 1000, 1000, now);
    assert s == Scheduled(a, now, 1000);
    assert Bucket(s.buckets, now + 1000) == [];
    assert Started(a, 7, now) == Enlisted(s, 7, now + 1000);
    assert Bucket(s.buckets, now + 1000) + [7] == [7];
    assert s.buckets[now + 1000 := [7]] == map[now + 1000 := [7]];
  }

  function Due(): Info {
    Info(Some(1000), Some(DECAYING_TRUE), Some(10), true, 1)
  }

  function Again(): Info {
    Info(Some(1000), Some(DECAYING_PENDING), Some(10), true, 1)
  }

  lemma TwoTaken(s: State, now: int)
    requires s == State(map[10 := [5, 7]], map[5 := Due(), 7 := Due()], map[], 0, 1) && now >= 10
    ensures DueTaken(s, now, []) == Drained(s.(buckets := map[]), [5, 7])
  {
    assert s.buckets - {10} == map[];
    assert s.buckets[10] == [5, 7];
    assert DueTaken(s.(buckets := map[]), now, [5, 7]) == Drained(s.(buckets := map[]), [5, 7]);
  }

  // ----- the time an item has left -----

  function NotBelowZero(n: int): int {
    if n < 0 then 0 else n
  }

  predicate RunsOut(i: Info) {
    i.state == Some(1) || i.state == Some(3)
  }

  /** The item is in no bucket. */
  ghost predicate Nowhere(s: State, x: Id) {
    forall t :: t in s.buckets ==> x !in s.buckets[t]
  }

  /**
   A listed item that is stopped keeps the time up to its time stamp, if it has a duration at all, and
   none if that has passed; it loses state and time stamp, leaves its bucket and gives its reference back.
   */
  lemma StopLeaves(s: State, d: Drain, x: Id, now: int)
    requires Indexed(s, d) && x in s.info && x !in d.waiting && s.info[x].timestamp.Some?
    ensures var i, n := s.info[x], Stopped(s, x, now);
            && x in n.info && n.info.Keys == s.info.Keys && (forall y :: y in s.info && y != x ==> n.info[y] == s.info[y])
            && n.info[x].state == None && n.info[x].timestamp == None && n.info[x].able == i.able && n.info[x].held == i.held - 1
            && (i.duration.None? ==> n.info[x].duration == None)
            && (i.duration.Some? && RunsOut(i) ==> n.info[x].duration == Some(NotBelowZero(i.timestamp.value - now)))
            && (i.duration.Some? && !RunsOut(i) ==> n.info[x].duration == Some(NotBelowZero(i.duration.value)))
            && Nowhere(n, x) && n.pending == s.pending
  {
    assert ItemIs(s, d, x);
    UnlistedIs(s, d, x, now);
    forall t | t in Stopped(s, x, now).buckets
      ensures x !in Stopped(s, x, now).buckets[t]
    {
      assert BucketIs(s, d, t) && BucketIs(s, d, s.info[x].timestamp.value);
    }
  }

  /** In the bucket it leaves, the last entry takes its place; a bucket it was alone in is gone. */
  lemma StopMovesLast(s: State, x: Id, t: int, now: int)
    requires x in s.info && t in s.buckets && Distinct(s.buckets[t]) && x in s.buckets[t]
    ensures var b, n := s.buckets[t], Unlisted(s, x, t, now);
            && (forall u :: u != t ==> (u in n.buckets <==> u in s.buckets) && (u in s.buckets ==> n.buckets[u] == s.buckets[u]))
            && (b == [x] <==> t !in n.buckets)
            && (t in n.buckets ==>
                  && |n.buckets[t]| == |b| - 1
                  && forall k :: 0 <= k < |b| - 1 ==> n.buckets[t][k] == if b[k] == x then b[|b|-1] else b[k])
  {
    var i := PositionOf(s.buckets[t], x);
    assert |s.buckets[t]| == 1 ==> s.buckets[t] == [x];
  }

  /** An item that is not listed only loses its state when it is stopped. */
  lemma StopUnlisted(s: State, x: Id, now: int)
    requires x in s.info && s.info[x].timestamp.None?
    ensures Stopped(s, x, now) == s.(info := s.info[x := s.info[x].(state := None)])
  {
    assert s.info[x := s.info[x]] == s.info;
  }

  /**
   An item that may decay and has a duration is started: it goes to the end of the bucket of the time
   at which the duration is over, one reference is held for it, and its duration stays as it is.
   */
  lemma StartEnters(s: State, d: Drain, x: Id, now: int)
    requires Indexed(s, d) && x in s.info && x !in d.waiting && s.info[x].able && s.info[x].state != Some(1) && s.info[x].state != Some(3)
    requires s.info[x].duration.Some? && s.info[x].duration.value > 0
    ensures var i, n := s.info[x], Started(s, x, now);
            var t := now + i.duration.value;
            && x in n.info && n.info.Keys == s.info.Keys && (forall y :: y in s.info && y != x ==> n.info[y] == s.info[y])
            && n.info[x] == Info(i.duration, Some(1), Some(t), true, i.held + if i.timestamp.Some? then 0 else 1)
            && t in n.buckets && n.buckets[t] != [] && n.buckets[t][|n.buckets[t]|-1] == x && OthersListed(s, n, x)
  {
    var i := s.info[x];
    var t := now + i.duration.value;
    var s1 := OldEntryOut(s, d, x, now);
    var s2 := Alerted(s1, t, i.duration.value, now);
    NewEntryIn(s1, s2, x, t);
    assert Started(s, x, now) == Enlisted(s2, x, t);
  }

  /** All other items are in the same buckets. */
  ghost predicate OthersListed(s: State, n: State, x: Id) {
    forall u, y :: y != x ==> (IsListed(n, u, y) <==> IsListed(s, u, y))
  }

  predicate IsListed(s: State, u: int, y: Id) {
    u in s.buckets && y in s.buckets[u]
  }

  lemma OldEntryOut(s: State, d: Drain, x: Id, now: int) returns (s1: State)
    requires Indexed(s, d) && x in s.info && x !in d.waiting && s.info[x].state != Some(1) && s.info[x].state != Some(3)
    requires s.info[x].duration.Some? && s.info[x].duration.value > 0
    ensures s1 == if s.info[x].timestamp.Some? then Unlisted(s, x, s.info[x].timestamp.value, now) else s
    ensures s1.info.Keys == s.info.Keys && (forall y :: y in s.info && y != x ==> s1.info[y] == s.info[y])
    ensures var i, j := s.info[x], s1.info[x];
            j.duration == i.duration && j.able == i.able && j.held == i.held - if i.timestamp.Some? then 1 else 0
    ensures OthersListed(s, s1, x)
  {
    var i := s.info[x];
    s1 := if i.timestamp.Some? then Unlisted(s, x, i.timestamp.value, now) else s;
    if i.timestamp.Some? {
      assert ItemIs(s, d, x);
      UnlistedIs(s, d, x, now);
      assert Kept(i, now) == i;
    }
  }

  lemma NewEntryIn(s1: State, s2: State, x: Id, t: int)
    requires x in s1.info && s2.info == s1.info && s2.buckets == s1.buckets
    ensures var n := Enlisted(s2, x, t);
            && n.info == s1.info[x := s1.info[x].(held := s1.info[x].held + 1, state := Some(1), timestamp := Some(t))]
            && t in n.buckets && n.buckets[t] != [] && n.buckets[t][|n.buckets[t]|-1] == x && OthersListed(s1, n, x)
  {
  }

  /** In all other cases nothing happens, or the item is stopped. */
  lemma StartOtherwise(s: State, x: Id, now: int)
    requires x in s.info
    ensures var i, n := s.info[x], Started(s, x, now);
            && (i.state == Some(3) ==> n == Stopped(s, x, now))
            && (i.state == Some(1) ==> n == if i.able then s else Stopped(s, x, now))
            && (i.state != Some(1) && i.state != Some(3) && (!i.able || i.duration.None? || i.duration.value <= 0) ==> n == s)
  {
  }

  /** What is left of a duration after some time: all of it but that time. */
  lemma StartThenStop(s: State, x: Id, t0: int, t1: int)
    requires Indexed(s, IDLE) && Awake(s, None) && x in s.info && s.info[x].able && s.info[x].state != Some(1) && s.info[x].state != Some(3)
    requires s.info[x].duration.Some? && s.info[x].duration.value > 0 && t0 <= t1
    ensures var i, m := s.info[x], Started(s, x, t0);
            && x in m.info
            && var n := Stopped(m, x, t1);
               && x in n.info && n.info[x].duration == Some(NotBelowZero(i.duration.value - (t1 - t0)))
               && n.info[x].state == None && n.info[x].timestamp == None && n.info[x].held == 0 && Nowhere(n, x)
  {
    StartEnters(s, IDLE, x, t0);
    AppliedKeeps(s, StartOp(x), t0, IDLE, None);
    assert ItemIs(s, IDLE, x);
    StopLeaves(Started(s, x, t0), IDLE, x, t1);
  }

  /**
   An item that a check takes and that cannot decay any more keeps the time up to its time stamp; one
   that can decay keeps its duration.  Both are no longer decaying, and have no time stamp.
   */
  lemma CheckLeaves(s: State, x: Id, now: int)
    requires x in s.info
    ensures var i, n := s.info[x], Expired(s, x, now);
            && n.buckets == s.buckets && n.pending == s.pending && n.eventId == s.eventId && n.nextId == s.nextId
            && x in n.info && n.info.Keys == s.info.Keys && (forall y :: y in s.info && y != x ==> n.info[y] == s.info[y])
            && n.info[x].state == Some(0) && n.info[x].timestamp == None && n.info[x].able == i.able && n.info[x].held == i.held
            && (i.able ==> n.info[x].duration == i.duration)
            && (!i.able && i.timestamp.Some? && RunsOut(i) ==> n.info[x].duration == Some(NotBelowZero(i.timestamp.value - now)))
            && (!i.able && i.duration.Some? && !RunsOut(i) ==> n.info[x].duration == Some(NotBelowZero(i.duration.value)))
  {
  }

  /** When a check is asked for: for an item due before all others, after its duration but no sooner than fifty milliseconds. */
  lemma StartAsks(s: State, x: Id, duration: int, now: int)
    requires s.buckets == map[] || x !in s.info || s.info[x].timestamp.None?
    requires x in s.info
    ensures var n := Listed(s, x, duration, now);
            var first := s.buckets == map[] || forall t :: t in s.buckets ==> now + duration < t;
            && (!first ==> n.pending == s.pending && n.eventId == s.eventId && n.nextId == s.nextId)
            && (first ==>
                  && n.eventId == s.nextId && n.nextId == s.nextId + 1 && s.nextId in n.pending
                  && n.pending[s.nextId] == Event(now, now + if duration < 50 then 50 else duration)
                  && (forall e :: e != s.nextId ==>
                        (e in n.pending <==> e in s.pending && (s.buckets == map[] || e != s.eventId))
                        && (e in n.pending ==> n.pending[e] == s.pending[e])))
  {
    if s.info[x].timestamp.Some? {
      assert Unlisted(s, x, s.info[x].timestamp.value, now) == s;
    }
    assert s.buckets != map[] ==> IsFirst(s.buckets, First(s.buckets));
  }

  /** A check that leaves buckets asks for the next one when the first of them is due, no sooner than in fifty milliseconds. */
  lemma CheckAsks(s: State, fired: nat, now: int, script: Id -> seq<Op>)
    requires Inv(s)
    ensures var s0 := s.(pending := s.pending - {fired});
            var r := DueTaken(s0, now, []);
            var n := Checked(s, fired, now, script);
            && (r.s.buckets != map[] ==>
                  exists t, id :: IsFirst(r.s.buckets, t) && id in n.pending && n.eventId == id
                                  && n.pending[id] == Event(now, now + if t - now < 50 then 50 else t - now))
  {
    var s0 := s.(pending := s.pending - {fired});
    IndexedSame(s, s0, IDLE);
    DueTakenKeeps(s0, now, []);
    var r := DueTaken(s0, now, []);
    if r.s.buckets != map[] {
      var t := First(r.s.buckets);
      var m := Processed(r.s, r.items, now, script, Some(t));
      assert Checked(s, fired, now, script) == Scheduled(m, now, t - now);
      assert m.nextId in Scheduled(m, now, t - now).pending;
    }
  }

  // ----- what a check does, in order -----

  function TimeOf(s: State, x: Id): int {
    if x in s.info && s.info[x].timestamp.Some? then s.info[x].timestamp.value else 0
  }

  predicate InOrder(s: State, items: seq<Id>) {
    forall i, j :: 0 <= i < j < |items| ==> TimeOf(s, items[i]) <= TimeOf(s, items[j])
  }

  ghost predicate AllBefore(s: State, items: seq<Id>) {
    forall x, t :: x in items && t in s.buckets ==> TimeOf(s, x) <= t
  }

  lemma FirstBucketNext(s: State, t: int, items: seq<Id>)
    requires IsFirst(s.buckets, t) && BucketIs(s, Drain(items, None), t) && InOrder(s, items) && AllBefore(s, items)
    ensures var n := s.(buckets := s.buckets - {t});
            InOrder(n, items + s.buckets[t]) && AllBefore(n, items + s.buckets[t])
  {
    forall x | x in s.buckets[t]
      ensures TimeOf(s, x) == t
    {
    }
  }

  /** The items that are due are taken in the order of their times. */
  lemma {:induction false} DueInOrder(s: State, now: int, items: seq<Id>)
    requires Indexed(s, Drain(items, None)) && Distinct(items) && InOrder(s, items) && AllBefore(s, items)
    ensures DueTaken(s, now, items).s.info == s.info && InOrder(s, DueTaken(s, now, items).items)
    decreases |s.buckets|
  {
    if s.buckets != map[] && First(s.buckets) <= now {
      var t := First(s.buckets);
      assert (s.buckets - {t}).Keys == s.buckets.Keys - {t};
      assert BucketIs(s, Drain(items, None), t);
      BucketTaken(s, t, items);
      FirstBucketNext(s, t, items);
      DueInOrder(s.(buckets := s.buckets - {t}), now, items + s.buckets[t]);
    }
  }

  /** What the decay of an item sets off happens one after the other. */
  lemma {:induction false} AllAppliedConcat(s: State, a: seq<Op>, b: seq<Op>, now: int, d: Drain, hold: Option<int>)
    ensures AllApplied(s, a + b, now, d, hold) == AllApplied(AllApplied(s, a, now, d, hold), b, now, d, hold)
    decreases |a|
  {
    if a == [] {
      assert a + b == b;
    } else {
      assert (a + b)[0] == a[0] && (a + b)[1..] == a[1..] + b;
      AllAppliedConcat(if Possible(s, a[0]) && Harmless(s, a[0], d, hold) then Applied(s, a[0], now) else s, a[1..], b, now, d, hold);
    }
  }

  /** A single item that is due: it decays with all it sets off, if it can, and its reference is given back. */
  lemma OneProcessed(s: State, x: Id, op: Op, now: int, script: Id -> seq<Op>, hold: Option<int>)
    requires x in s.info && script(x) == [op]
    ensures var s1 := Expired(s, x, now);
            var n := Processed(s, [x], now, script, hold);
            && (!s.info[x].able ==> n == Released(s1, x))
            && (s.info[x].able && Possible(s1, op) && Harmless(s1, op, Drain([], Some(x)), hold) ==>
                  x in Applied(s1, op, now).info && n == Released(Applied(s1, op, now), x))
  {
    assert [x][1..] == [] && [op][1..] == [];
    var s1 := Expired(s, x, now);
    if s.info[x].able {
      var s2 := AllApplied(s1, [op], now, Drain([], Some(x)), hold);
      assert Processed(s, [x], now, script, hold) == Processed(Released(s2, x), [], now, script, hold);
      if Possible(s1, op) && Harmless(s1, op, Drain([], Some(x)), hold) {
        assert s2 == AllApplied(Applied(s1, op, now), [], now, Drain([], Some(x)), hold);
      }
    }
  }
}
