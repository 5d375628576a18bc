/** The decay scheduler as the program has it: maps that are changed in place, and loops over them. */
module DecayScheduler {
  import opened ItemTree
  import opened Queries
  import opened Decaying

  class Decay {
    /** The buckets, ordered by time. */
    var decayMap: map<int, seq<Id>>
    var eventId: nat
    /** The decay attributes of the items, and the timer: not members of the scheduler itself. */
    var info: map<Id, Info>
    var pending: map<nat, Event>
    var nextId: nat

    ghost function Now(): State
      reads this
    {
      State(decayMap, info, pending, eventId, nextId)
    }

    constructor (info: map<Id, Info>)
      requires Quiet(info)
      ensures this.info == info && Inv(Now())
    {
      this.decayMap, this.eventId, this.info, this.pending, this.nextId := map[], 0, info, map[], 1;
      new;
      Starts(info);
    }

    method AddEvent(now: int, delay: int)
      modifies this
      ensures Now() == Scheduled(old(Now()), now, delay)
    {
      pending := pending[nextId := Event(now, now + AtLeast(MINTICKS, delay))];
      eventId, nextId := nextId, nextId + 1;
    }

    /** The item keeps what is left of its time and gives its reference back. */
    method LetGo(item: Id, now: int)
      requires item in info
      modifies this`info
      ensures info == old(info)[item := Kept(old(info)[item], now).(state := None, held := old(info)[item].held - 1)]
    {
      var i := info[item];
      if i.duration.Some? {
        i := i.(duration := Some(AtLeast(0, TimeLeft(i, now))));
      }
      info := info[item := i.(state := None, held := i.held - 1)];
    }

    /** `Decay::stopDecay` */
    method StopDecay(item: Id, timestamp: int, now: int)
      requires item in info
      requires timestamp in decayMap ==> decayMap[timestamp] != []
      modifies this
      ensures Now() == Unlisted(old(Now()), item, timestamp, now)
    {
      if timestamp in decayMap {
        var decayItems := decayMap[timestamp];
        var i, end := 0, |decayItems|;
        if end == 1 {
          if item == decayItems[i] {
            LetGo(item, now);
            decayMap := decayMap - {timestamp};
          }
          return;
        }
        while i < end
          invariant i <= end && Now() == old(Now())
          invariant item !in decayItems[..i]
        {
          if item == decayItems[i] {
            FirstPosition(decayItems, item, i);
            LetGo(item, now);
            decayMap := decayMap[timestamp := decayItems[i := decayItems[end-1]][..end-1]];
            return;
          }
          i := i + 1;
        }
      }
    }

    /** `Decay::startDecay` */
    method StartDecay(item: Id, duration: int, now: int)
      requires item in info && Indexed(Now(), IDLE)
      modifies this
      ensures Now() == Listed(old(Now()), item, duration, now)
    {
      if info[item].timestamp.Some? {
        BucketsFull(Now(), IDLE, info[item].timestamp.value);
        StopDecay(item, info[item].timestamp.value, now);
      }
      var timestamp := now + duration;
      if decayMap == map[] {
        AddEvent(now, duration);
      } else {
        if timestamp < First(decayMap) {
          pending := pending - {eventId};
          AddEvent(now, duration);
        }
      }
      info := info[item := info[item].(held := info[item].held + 1, state := Some(DECAYING_TRUE), timestamp := Some(timestamp))];
      decayMap := decayMap[timestamp := (if timestamp in decayMap then decayMap[timestamp] else []) + [item]];
    }

    /** `Game::stopDecay` */
    method GameStopDecay(item: Id, now: int)
      requires item in info && Inv(Now())
      modifies this
      ensures Now() == Stopped(old(Now()), item, now) && Inv(Now())
    {
      StoppedKeeps(Now(), IDLE, item, now, None);
      if info[item].state.Some? {
        if info[item].timestamp.Some? {
          BucketsFull(Now(), IDLE, info[item].timestamp.value);
          StopDecay(item, info[item].timestamp.value, now);
          info := info[item := info[item].(timestamp := None)];
        } else {
          info := info[item := info[item].(state := None)];
        }
      }
    }

    /** `Game::startDecay` */
    method GameStartDecay(item: Id, now: int)
      requires item in info && Inv(Now())
      modifies this
      ensures Now() == Started(old(Now()), item, now) && Inv(Now())
    {
      AppliedKeeps(Now(), StartOp(item), now, IDLE, None);
      var i := info[item];
      if Ends(i) {
        GameStopDecay(item, now);
        return;
      }
      if !i.able || i.state == Some(DECAYING_TRUE) {
        return;
      }
      var duration := if i.duration.Some? then i.duration.value else 0;
      if duration > 0 {
        StartDecay(item, duration, now);
      }
    }

    /** The first loop of a check: the buckets that are due leave the map. */
    method TakeDue(now: int) returns (tempItems: seq<Id>)
      modifies this`decayMap
      ensures var r := DueTaken(old(Now()), now, []); Now() == r.s && tempItems == r.items
    {
      tempItems := [];
      while decayMap != map[] && First(decayMap) <= now
        invariant DueTaken(Now(), now, tempItems) == DueTaken(old(Now()), now, [])
        decreases |decayMap|
      {
        var t := First(decayMap);
        assert (decayMap - {t}).Keys == decayMap.Keys - {t};
        tempItems := tempItems + decayMap[t];
        decayMap := decayMap - {t};
      }
    }

    /** One item whose time has come, before anything it sets off. */
    method Expire(item: Id, now: int)
      requires item in info
      modifies this`info
      ensures Now() == Expired(old(Now()), item, now)
    {
      var i := info[item];
      if !i.able {
        i := i.(duration := Some(AtLeast(0, TimeLeft(i, now))));
      }
      info := info[item := i.(state := Some(DECAYING_FALSE), timestamp := None)];
    }

    /** What the decay of an item sets off, but for operations that are not harmless. */
    method RunScript(ops: seq<Op>, now: int, ghost d: Drain, waiting: seq<Id>, hold: Option<int>)
      requires d.waiting == waiting
      modifies this
      ensures Now() == AllApplied(old(Now()), ops, now, d, hold)
    {
      ghost var s0 := Now();
      var s, k := State(decayMap, info, pending, eventId, nextId), 0;
      assert ops[0..] == ops;
      while k < |ops|
        invariant k <= |ops| && AllApplied(s, ops[k..], now, d, hold) == AllApplied(s0, ops, now, d, hold)
      {
        assert ops[k..][1..] == ops[k+1..];
        if Possible(s, ops[k]) && Harmless(s, ops[k], Drain(waiting, None), hold) {
          s := Applied(s, ops[k], now);
        }
        k := k + 1;
      }
      decayMap, info, pending, eventId, nextId := s.buckets, s.info, s.pending, s.eventId, s.nextId;
    }

    /** One turn of the second loop of a check. */
    method ProcessOne(rest: seq<Id>, item: Id, now: int, script: Id -> seq<Op>, hold: Option<int>)
      requires item in info
      modifies this
      ensures var s1 := Expired(old(Now()), item, now);
              var s2 := if old(info)[item].able then AllApplied(s1, script(item), now, Drain(rest, Some(item)), hold) else s1;
              Now() == Released(s2, item)
    {
      var able := info[item].able;
      Expire(item, now);
      if able {
        RunScript(script(item), now, Drain(rest, Some(item)), rest, hold);
      }
      info := info[item := info[item].(held := info[item].held - 1)];
    }

    /** The second loop of a check. */
    method Process(tempItems: seq<Id>, now: int, script: Id -> seq<Op>, hold: Option<int>)
      requires forall x :: x in tempItems ==> x in info
      modifies this
      ensures Now() == Processed(old(Now()), tempItems, now, script, hold)
    {
      ghost var s0 := Now();
      var k := 0;
      assert tempItems[0..] == tempItems;
      while k < |tempItems|
        invariant k <= |tempItems| && forall x :: x in tempItems ==> x in info
        invariant Processed(Now(), tempItems[k..], now, script, hold) == Processed(s0, tempItems, now, script, hold)
      {
        assert tempItems[k..][1..] == tempItems[k+1..] && tempItems[k] in tempItems;
        ProcessOne(tempItems[k+1..], tempItems[k], now, script, hold);
        k := k + 1;
      }
    }

    /** `checkDecay`, run by one of the pending events. */
    method CheckDecay(fired: nat, now: int, script: Id -> seq<Op>)
      requires Inv(Now())
      modifies this
      ensures Now() == Checked(old(Now()), fired, now, script) && Inv(Now())
    {
      CheckedKeeps(Now(), fired, now, script);
      ghost var s0 := Now().(pending := pending - {fired});
      IndexedSame(Now(), s0, IDLE);
      DueTakenKeeps(s0, now, []);
      pending := pending - {fired};
      var tempItems := TakeDue(now);
      var it := if decayMap == map[] then None else Some(First(decayMap));
      Process(tempItems, now, script, it);
      if it.Some? {
        AddEvent(now, it.value - now);
      }
    }
  }

  lemma {:induction false} FirstPosition(b: seq<Id>, x: Id, i: nat)
    requires i < |b| && b[i] == x && x !in b[..i]
    ensures PositionOf(b, x) == i
    decreases i
  {
    if i > 0 {
      assert b[..i][0] == b[0];
      assert b[1..][..i-1] == b[..i][1..];
      FirstPosition(b[1..], x, i - 1);
    }
  }

  lemma BucketsFull(s: State, d: Drain, t: int)
    requires Indexed(s, d)
    ensures t in s.buckets ==> s.buckets[t] != []
  {
    assert BucketIs(s, d, t);
  }
}
