/**
 Trades between two players: who is whose partner, what is on offer, and when items change hands.
 */
module Trading {
  import opened Queries

  type Id = nat

  datatype TradeState = Idle | Initiated | Accepted | Acknowledged | Transferring

  datatype Player = Player(state: TradeState, partner: Option<Id>, item: Option<Id>)

  datatype Move = Move(item: Id, to: Id)

  /** Players, the items on offer with the player who offers them, the references held for them, and what has changed hands. */
  datatype State = State(players: map<Id, Player>, tradeItems: map<Id, Id>, held: map<Id, int>, log: seq<Move>)

  const NOBODY := Player(Idle, None, None)

  function Held(s: State, i: Id): int {
    if i in s.held then s.held[i] else 0
  }

  // ----- the steps -----

  /** `internalStartTrade`: a first offer, or an answer to one. */
  function Started(s: State, p: Id, q: Id, i: Id): State
    requires p in s.players && q in s.players
  {
    var a, b := s.players[p], s.players[q];
    if !(a.state.Idle? || (a.state.Acknowledged? && a.partner == Some(q))) then s
    else if !b.state.Idle? && b.partner != Some(p) then s
    else
      var players := s.players[p := Player(Initiated, Some(q), Some(i))];
      s.(players := if b.state.Idle? then players[q := b.(state := Acknowledged, partner := Some(p))] else players,
         tradeItems := s.tradeItems[i := p], held := s.held[i := Held(s, i) + 1])
  }

  /** An item that is on offer no longer is, and its reference is given back. */
  function Withdrawn(s: State, item: Option<Id>): State {
    if item.Some? && item.value in s.tradeItems then
      s.(tradeItems := s.tradeItems - {item.value}, held := s.held[item.value := Held(s, item.value) - 1])
    else s
  }

  function WithPlayer(s: State, p: Id, a: Player): State {
    s.(players := s.players[p := a])
  }

  /** `internalCloseTrade` */
  function Closed(s: State, p: Id): State
    requires p in s.players && (s.players[p].partner.Some? ==> s.players[p].partner.value in s.players)
  {
    var a := s.players[p];
    if a.state.Transferring? || (a.partner.Some? && s.players[a.partner.value].state.Transferring?) then s
    else
      var s1 := WithPlayer(Withdrawn(s, a.item), p, NOBODY);
      if a.partner.None? then s1
      else WithPlayer(Withdrawn(s1, s.players[a.partner.value].item), a.partner.value, NOBODY)
  }

  /** `playerAcceptTrade` up to the point where both items are taken off the list. */
  function Agreed(s: State, p: Id, sight: bool, allowed: bool): State
    requires p in s.players && (s.players[p].partner.Some? ==> s.players[p].partner.value in s.players)
  {
    var a := s.players[p];
    if !a.state.Acknowledged? && !a.state.Initiated? then s
    else if a.partner.None? || !sight then s
    else
      var q := a.partner.value;
      var s1 := WithPlayer(s, p, a.(state := Accepted));
      if !s1.players[q].state.Accepted? then s1
      else if !allowed then (if q == p then s1 else Closed(s1, p))
      else
        var s2 := WithPlayer(WithPlayer(s1, p, s1.players[p].(state := Transferring)), q, s1.players[q].(state := Transferring));
        Withdrawn(Withdrawn(s2, a.item), s.players[q].item)
  }

  /** What the item engine answers to the tests and to the moves of a transfer. */
  datatype Answers = Answers(roomHere: bool, roomThere: bool, removable: bool, first: bool, second: bool)

  /** Both items are moved if both are there and every test succeeds; the answer to the second move is not looked at. */
  function Moves(a: Player, b: Player, p: Id, q: Id, answers: Answers): seq<Move> {
    if a.item.Some? && b.item.Some? && answers.roomHere && answers.roomThere && answers.removable && answers.first then
      [Move(a.item.value, q)] + if answers.second then [Move(b.item.value, p)] else []
    else []
  }

  /** The rest of `playerAcceptTrade`: the transfer, and the end of the trade. */
  function Finished(s: State, p: Id, answers: Answers): State
    requires p in s.players && (s.players[p].partner.Some? ==> s.players[p].partner.value in s.players)
  {
    var a := s.players[p];
    if !a.state.Transferring? || a.partner.None? then s
    else
      var q := a.partner.value;
      WithPlayer(WithPlayer(s, p, NOBODY), q, NOBODY).(log := s.log + Moves(a, s.players[q], p, q, answers))
  }

  // ----- what always holds -----

  ghost predicate PlayerIs(s: State, p: Id) {
    p in s.players ==>
      var a := s.players[p];
      && (a.state.Idle? <==> a.partner.None?) && (a.state.Idle? || a.state.Acknowledged? ==> a.item.None?)
      && (a.state.Initiated? ==> a.item.Some?)
      && (a.partner.Some? ==>
            var q := a.partner.value;
            && q != p && q in s.players && s.players[q].partner == Some(p)
            && (a.state.Transferring? <==> s.players[q].state.Transferring?)
            && !(a.state.Accepted? && s.players[q].state.Accepted?)
            && (a.state.Acknowledged? ==> !s.players[q].state.Acknowledged?))
      && (a.item.Some? && !a.state.Transferring? ==> a.item.value in s.tradeItems && s.tradeItems[a.item.value] == p)
  }

  ghost predicate OfferIs(s: State, i: Id) {
    && (i in s.tradeItems ==>
          var p := s.tradeItems[i];
          p in s.players && s.players[p].item == Some(i) && !s.players[p].state.Transferring?)
    && Held(s, i) == if i in s.tradeItems then 1 else 0
  }

  /**
   Partners are mutual; without a trade there is neither partner nor item; the list holds exactly the
   items on offer outside of a transfer, with one reference each.
   */
  ghost predicate Inv(s: State) {
    && (forall p {:trigger PlayerIs(s, p)} :: PlayerIs(s, p))
    && (forall i {:trigger OfferIs(s, i)} :: OfferIs(s, i))
  }

  /** A fresh offer keeps everything. */
  lemma StartedKeeps(s: State, p: Id, q: Id, i: Id)
    requires Inv(s) && p in s.players && q in s.players && p != q && i !in s.tradeItems
    ensures Inv(Started(s, p, q, i))
  {
    var n := Started(s, p, q, i);
    assert PlayerIs(s, p) && PlayerIs(s, q) && OfferIs(s, i);
    forall r | true
      ensures PlayerIs(n, r)
    {
      assert PlayerIs(s, r);
    }
    forall j | true
      ensures OfferIs(n, j)
    {
      assert OfferIs(s, j);
    }
  }

  /** An offer that is accepted although the item is already on offer breaks the books, and only then. */
  lemma StartedKeepsIff(s: State, p: Id, q: Id, i: Id)
    requires Inv(s) && p in s.players && q in s.players && p != q && Started(s, p, q, i) != s
    ensures Inv(Started(s, p, q, i)) <==> i !in s.tradeItems
  {
    if i in s.tradeItems {
      var n := Started(s, p, q, i);
      assert OfferIs(s, i);
      assert Held(n, i) == 2;
      assert !OfferIs(n, i);
    } else {
      StartedKeeps(s, p, q, i);
    }
  }

  lemma ClosedKeeps(s: State, p: Id)
    requires Inv(s) && p in s.players && PlayerIs(s, p)
    ensures Inv(Closed(s, p))
  {
    var n := Closed(s, p);
    var a := s.players[p];
    if n != s {
      if a.partner.Some? {
        assert PlayerIs(s, a.partner.value);
      }
      forall r | true
        ensures PlayerIs(n, r)
      {
        assert PlayerIs(s, r);
      }
      forall j | true
        ensures OfferIs(n, j)
      {
        assert OfferIs(s, j);
      }
    }
  }

  /** A player who accepts while the partner has not. */
  lemma AcceptKeeps(s: State, p: Id)
    requires Inv(s) && p in s.players && s.players[p].partner.Some?
    requires s.players[p].state.Acknowledged? || s.players[p].state.Initiated?
    requires s.players[p].partner.value in s.players && !s.players[s.players[p].partner.value].state.Accepted?
    ensures Inv(WithPlayer(s, p, s.players[p].(state := Accepted)))
  {
    var n := WithPlayer(s, p, s.players[p].(state := Accepted));
    assert PlayerIs(s, p) && PlayerIs(s, s.players[p].partner.value);
    forall r | true
      ensures PlayerIs(n, r)
    {
      assert PlayerIs(s, r);
    }
    forall j | true
      ensures OfferIs(n, j)
    {
      assert OfferIs(s, j);
    }
  }

  /** `p` is about to accept a trade that `q` has accepted. */
  ghost predicate BothAccept(s: State, p: Id, q: Id) {
    && Inv(s) && p in s.players && q in s.players && p != q
    && s.players[p].partner == Some(q) && s.players[q].partner == Some(p)
    && (s.players[p].state.Acknowledged? || s.players[p].state.Initiated?) && s.players[q].state.Accepted?
  }

  lemma TransferPlayers(s: State, p: Id, q: Id)
    requires BothAccept(s, p, q)
    ensures Agreed(s, p, true, true).players ==
            s.players[p := s.players[p].(state := Transferring)][q := s.players[q].(state := Transferring)]
  {
  }

  lemma TransferPlayerIs(s: State, p: Id, q: Id, r: Id)
    requires BothAccept(s, p, q)
    ensures PlayerIs(Agreed(s, p, true, true), r)
  {
    TransferPlayers(s, p, q);
    assert PlayerIs(s, p) && PlayerIs(s, q) && PlayerIs(s, r);
  }

  lemma TransferOfferIs(s: State, p: Id, q: Id, i: Id)
    requires BothAccept(s, p, q)
    ensures OfferIs(Agreed(s, p, true, true), i)
  {
    TransferPlayers(s, p, q);
    assert PlayerIs(s, p) && PlayerIs(s, q) && OfferIs(s, i);
  }

  /** Both have accepted: the items leave the list and the pair is out of reach of everybody. */
  lemma TransferKeeps(s: State, p: Id, q: Id)
    requires BothAccept(s, p, q)
    ensures Agreed(s, p, true, true).players ==
            s.players[p := s.players[p].(state := Transferring)][q := s.players[q].(state := Transferring)]
    ensures Inv(Agreed(s, p, true, true))
    ensures var t := Agreed(s, p, true, true).tradeItems;
            forall i :: i in t <==> i in s.tradeItems && s.players[p].item != Some(i) && s.players[q].item != Some(i)
  {
    TransferPlayers(s, p, q);
    forall r | true
      ensures PlayerIs(Agreed(s, p, true, true), r)
    {
      TransferPlayerIs(s, p, q, r);
    }
    forall i | true
      ensures OfferIs(Agreed(s, p, true, true), i)
    {
      TransferOfferIs(s, p, q, i);
    }
  }

  /** Closing does not depend on whether the one who closes has accepted. */
  lemma ClosedAfterAccept(s: State, p: Id)
    requires Inv(s) && p in s.players && PlayerIs(s, p) && s.players[p].partner.Some?
    requires !s.players[p].state.Transferring?
    ensures Closed(WithPlayer(s, p, s.players[p].(state := Accepted)), p) == Closed(s, p)
  {
    var q := s.players[p].partner.value;
    var s1 := WithPlayer(s, p, s.players[p].(state := Accepted));
    var m := Withdrawn(s, s.players[p].item);
    assert Withdrawn(s1, s.players[p].item) == m.(players := s1.players);
    assert WithPlayer(Withdrawn(s1, s.players[p].item), p, NOBODY) == WithPlayer(m, p, NOBODY);
  }

  lemma AgreedKeeps(s: State, p: Id, sight: bool, allowed: bool)
    requires Inv(s) && p in s.players && PlayerIs(s, p)
    ensures Inv(Agreed(s, p, sight, allowed))
  {
    var a := s.players[p];
    if (a.state.Acknowledged? || a.state.Initiated?) && a.partner.Some? && sight {
      var q := a.partner.value;
      if !s.players[q].state.Accepted? {
        AcceptKeeps(s, p);
      } else if allowed {
        TransferKeeps(s, p, q);
      } else {
        ClosedAfterAccept(s, p);
        ClosedKeeps(s, p);
      }
    }
  }

  lemma FinishedKeeps(s: State, p: Id, answers: Answers)
    requires Inv(s) && p in s.players && PlayerIs(s, p)
    ensures Inv(Finished(s, p, answers))
  {
    var n := Finished(s, p, answers);
    var a := s.players[p];
    if a.state.Transferring? && a.partner.Some? {
      assert PlayerIs(s, a.partner.value);
      forall r | true
        ensures PlayerIs(n, r)
      {
        assert PlayerIs(s, r);
      }
      forall j | true
        ensures OfferIs(n, j)
      {
        assert OfferIs(s, j);
      }
    }
  }

  // ----- runs -----

  datatype Step =
    | Start(p: Id, q: Id, i: Id)
    | Accept(p: Id, sight: bool, allowed: bool)
    | Finish(p: Id, answers: Answers)
    | Close(p: Id)

  /** Requests are only passed on for another player and an item that is not on offer. */
  predicate Allowed(s: State, step: Step) {
    step.p in s.players && (step.Start? ==> step.q in s.players && step.q != step.p && step.i !in s.tradeItems)
  }

  ghost function Taken(s: State, step: Step): (n: State)
    requires Inv(s) && Allowed(s, step)
    ensures Inv(n)
  {
    assert PlayerIs(s, step.p);
    match step
    case Start(p, q, i) => StartedKeeps(s, p, q, i); Started(s, p, q, i)
    case Accept(p, sight, allowed) => AgreedKeeps(s, p, sight, allowed); Agreed(s, p, sight, allowed)
    case Finish(p, answers) => FinishedKeeps(s, p, answers); Finished(s, p, answers)
    case Close(p) => ClosedKeeps(s, p); Closed(s, p)
  }

  /** The state after some steps; those that are not allowed do nothing. */
  ghost function Run(s: State, steps: seq<Step>): (n: State)
    requires Inv(s)
    ensures Inv(n)
    decreases |steps|
  {
    if steps == [] then s
    else
      var before, last := Run(s, steps[..|steps|-1]), steps[|steps|-1];
      if Allowed(before, last) then Taken(before, last) else before
  }

  /** Nobody trades yet. */
  predicate Quiet(s: State) {
    s.tradeItems == map[] && s.held == map[] && s.log == [] && forall p :: p in s.players ==> s.players[p] == NOBODY
  }

  lemma QuietIsFine(s: State)
    requires Quiet(s)
    ensures Inv(s)
  {
    forall p | true
      ensures PlayerIs(s, p)
    {
    }
    forall i | true
      ensures OfferIs(s, i)
    {
    }
  }

  /** What is true of players and offers after any steps whatever, interleaved in any way. */
  lemma OverEveryRun(s: State, steps: seq<Step>, p: Id, i: Id)
    requires Quiet(s)
    ensures Inv(s)
    ensures var n := Run(s, steps);
            && (p in n.players && n.players[p].partner.Some? ==>
                  var q := n.players[p].partner.value; q in n.players && q != p && n.players[q].partner == Some(p))
            && (p in n.players && n.players[p].state.Idle? ==> n.players[p] == NOBODY)
            && (i in n.tradeItems <==> exists r :: r in n.players && n.players[r].item == Some(i) && !n.players[r].state.Transferring?)
            && Held(n, i) == if i in n.tradeItems then 1 else 0
  {
    QuietIsFine(s);
    var n := Run(s, steps);
    assert PlayerIs(n, p) && OfferIs(n, i);
    if r :| r in n.players && n.players[r].item == Some(i) && !n.players[r].state.Transferring? {
      assert PlayerIs(n, r);
    }
  }

  // ----- who has accepted -----

  /** `p` has accepted the trade with `q`. */
  predicate Committed(s: State, p: Id, q: Id) {
    p in s.players && (s.players[p].state.Accepted? || s.players[p].state.Transferring?) && s.players[p].partner == Some(q)
  }

  /** Nobody becomes committed but by accepting. */
  lemma CommittedByAccepting(s: State, step: Step, p: Id, q: Id)
    requires Inv(s) && Allowed(s, step) && Committed(Taken(s, step), p, q)
    ensures Committed(s, p, q) || (step.Accept? && step.p == p && step.sight)
  {
    assert PlayerIs(s, step.p) && PlayerIs(s, p);
  }

  /** At some step `p` accepted, and has been committed to `q` ever since. */
  ghost predicate SinceAccepting(s: State, steps: seq<Step>, p: Id, q: Id)
    requires Inv(s)
  {
    exists k :: 0 <= k < |steps| && AcceptsAt(steps, k, p) && CommittedFrom(s, steps, k, p, q)
  }

  predicate AcceptsAt(steps: seq<Step>, k: nat, p: Id)
    requires k < |steps|
  {
    steps[k].Accept? && steps[k].p == p && steps[k].sight
  }

  ghost predicate CommittedFrom(s: State, steps: seq<Step>, k: nat, p: Id, q: Id)
    requires Inv(s) && k < |steps|
  {
    forall m :: k < m <= |steps| ==> Committed(Run(s, steps[..m]), p, q)
  }

  lemma {:induction false} CommittedSince(s: State, steps: seq<Step>, p: Id, q: Id)
    requires Inv(s) && !Committed(s, p, q) && Committed(Run(s, steps), p, q)
    ensures SinceAccepting(s, steps, p, q)
    decreases |steps|
  {
    var n := |steps| - 1;
    var init, last := steps[..n], steps[n];
    var before := Run(s, init);
    assert steps[..|steps|] == steps;
    if Allowed(before, last) {
      CommittedByAccepting(before, last, p, q);
    }
    if Committed(before, p, q) {
      CommittedSince(s, init, p, q);
      var k :| 0 <= k < |init| && AcceptsAt(init, k, p) && CommittedFrom(s, init, k, p, q);
      forall m | k < m <= |steps|
        ensures Committed(Run(s, steps[..m]), p, q)
      {
        if m < |steps| {
          assert steps[..m] == init[..m];
        }
      }
      assert AcceptsAt(steps, k, p) && CommittedFrom(s, steps, k, p, q);
    } else {
      forall m | n < m <= |steps|
        ensures Committed(Run(s, steps[..m]), p, q)
      {
        assert steps[..m] == steps;
      }
      assert AcceptsAt(steps, n, p) && CommittedFrom(s, steps, n, p, q);
    }
  }

  /** The log grows by the exchange of two offers, or by the first half of it. */
  ghost predicate Exchanged(s: State, step: Step, n: State) {
    step.Finish? && step.p in s.players && s.players[step.p].partner.Some? && s.players[step.p].partner.value in s.players &&
    var a, q := s.players[step.p], s.players[step.p].partner.value;
    var b := s.players[q];
    && a.item.Some? && b.item.Some? && Committed(s, step.p, q) && Committed(s, q, step.p)
    && n.log == s.log + [Move(a.item.value, q)] + if step.answers.second then [Move(b.item.value, step.p)] else []
  }

  lemma StepMoves(s: State, step: Step)
    requires Inv(s) && Allowed(s, step)
    ensures Taken(s, step).log == s.log || Exchanged(s, step, Taken(s, step))
  {
    assert PlayerIs(s, step.p);
    if step.Finish? && s.players[step.p].partner.Some? {
      assert PlayerIs(s, s.players[step.p].partner.value);
    }
  }

  /**
   Whatever happens next after any run: items move only from a player to the partner, each having an
   item on the table, and each having accepted and not been out of the trade since.
   */
  lemma ItemsMoveFairly(s: State, steps: seq<Step>, step: Step)
    requires Quiet(s)
    ensures Inv(s)
    ensures var n := Run(s, steps);
            Allowed(n, step) && Taken(n, step).log != n.log ==>
              && Exchanged(n, step, Taken(n, step))
              && SinceAccepting(s, steps, step.p, n.players[step.p].partner.value)
              && SinceAccepting(s, steps, n.players[step.p].partner.value, step.p)
  {
    QuietIsFine(s);
    var n := Run(s, steps);
    if Allowed(n, step) && Taken(n, step).log != n.log {
      StepMoves(n, step);
      var q := n.players[step.p].partner.value;
      CommittedSince(s, steps, step.p, q);
      CommittedSince(s, steps, q, step.p);
    }
  }

  // ----- to what they have agreed -----

  lemma StartStays(s: State, p: Id, q: Id, r: Id, t: Id, i: Id)
    requires Inv(s) && r in s.players && t in s.players && r != t && Committed(s, p, q) && PlayerIs(s, p)
    ensures var n := Started(s, r, t, i);
            q in n.players && n.players[p].item == s.players[p].item
            && (s.players[q].item.Some? ==> n.players[q].item == s.players[q].item)
  {
    assert PlayerIs(s, q) && PlayerIs(s, r) && PlayerIs(s, t);
  }

  lemma AcceptStays(s: State, p: Id, q: Id, r: Id, sight: bool, allowed: bool)
    requires Inv(s) && r in s.players && PlayerIs(s, r) && Committed(s, p, q) && PlayerIs(s, p)
    requires Committed(Agreed(s, r, sight, allowed), p, q)
    ensures var n := Agreed(s, r, sight, allowed);
            q in n.players && n.players[p].item == s.players[p].item && n.players[q].item == s.players[q].item
  {
    assert PlayerIs(s, q);
    if s.players[r].partner.Some? {
      assert PlayerIs(s, s.players[r].partner.value);
    }
  }

  lemma FinishStays(s: State, p: Id, q: Id, r: Id, answers: Answers)
    requires Inv(s) && r in s.players && PlayerIs(s, r) && Committed(s, p, q) && PlayerIs(s, p)
    requires Committed(Finished(s, r, answers), p, q)
    ensures var n := Finished(s, r, answers);
            q in n.players && n.players[p].item == s.players[p].item && n.players[q].item == s.players[q].item
  {
    assert PlayerIs(s, q);
  }

  lemma CloseStays(s: State, p: Id, q: Id, r: Id)
    requires Inv(s) && r in s.players && PlayerIs(s, r) && Committed(s, p, q) && PlayerIs(s, p)
    requires Committed(Closed(s, r), p, q)
    ensures var n := Closed(s, r);
            q in n.players && n.players[p].item == s.players[p].item && n.players[q].item == s.players[q].item
  {
    assert PlayerIs(s, q);
  }

  /** While `p` is committed to `q`, the item of `p` stays, and so does that of `q` once it is there. */
  lemma TableStays(s: State, step: Step, p: Id, q: Id)
    requires Inv(s) && Allowed(s, step) && Committed(s, p, q) && Committed(Taken(s, step), p, q)
    ensures q in s.players && q in Taken(s, step).players && Taken(s, step).players[p].item == s.players[p].item
    ensures s.players[q].item.Some? ==> Taken(s, step).players[q].item == s.players[q].item
  {
    assert PlayerIs(s, step.p) && PlayerIs(s, p);
    match step
    case Start(r, t, i) => StartStays(s, p, q, r, t, i);
    case Accept(r, sight, allowed) => AcceptStays(s, p, q, r, sight, allowed);
    case Finish(r, answers) => FinishStays(s, p, q, r, answers);
    case Close(r) => CloseStays(s, p, q, r);
  }

  /**
   What was on the table when `p` accepted, and what is there as long as `p` is committed: the
   same on the side of `p`, and on the side of `q` if there was anything.
   */
  lemma {:induction false} TableSince(s: State, steps: seq<Step>, k: nat, p: Id, q: Id)
    requires Inv(s) && k < |steps| && CommittedFrom(s, steps, k, p, q)
    ensures var once, now := Run(s, steps[..k+1]), Run(s, steps);
            && p in once.players && q in once.players && p in now.players && q in now.players
            && now.players[p].item == once.players[p].item
            && (once.players[q].item.Some? ==> now.players[q].item == once.players[q].item)
    decreases |steps|
  {
    var n := |steps| - 1;
    assert steps[..|steps|] == steps;
    assert Committed(Run(s, steps[..k+1]), p, q) && Committed(Run(s, steps[..|steps|]), p, q);
    if k < n {
      var init := steps[..n];
      forall m | k < m <= n
        ensures Committed(Run(s, init[..m]), p, q)
      {
        assert init[..m] == steps[..m];
        assert Committed(Run(s, steps[..m]), p, q);
      }
      assert CommittedFrom(s, init, k, p, q);
      TableSince(s, init, k, p, q);
      assert init[..k+1] == steps[..k+1];
      if Allowed(Run(s, init), steps[n]) {
        assert init[..n] == init;
        TableStays(Run(s, init), steps[n], p, q);
      }
    } else {
      assert PlayerIs(Run(s, steps), p);
    }
  }

  /** Both items on the table are those `p` agreed to exactly if the partner's was there when `p` accepted. */
  lemma AgreedToPairIff(s: State, steps: seq<Step>, k: nat, p: Id, q: Id)
    requires Inv(s) && k < |steps| && CommittedFrom(s, steps, k, p, q)
    ensures var once, now := Run(s, steps[..k+1]), Run(s, steps);
            && p in once.players && q in once.players && p in now.players && q in now.players
            && (now.players[q].item.Some? ==>
                  (now.players[p].item == once.players[p].item && now.players[q].item == once.players[q].item
                   <==> once.players[q].item.Some?))
  {
    TableSince(s, steps, k, p, q);
  }

  /** It may not have been: 1 offers item 8 to 2 and accepts, and only then 2 offers item 9 and accepts. */
  lemma AcceptedUnseen(s: State, answers: Answers)
    requires Quiet(s) && s.players == map[1 := NOBODY, 2 := NOBODY]
    requires answers == Answers(true, true, true, true, true)
    ensures Inv(s)
    ensures var first := Started(s, 1, 2, 8);
            var accepted := Agreed(first, 1, true, true);
            var offered := Started(accepted, 2, 1, 9);
            var agreed := Agreed(offered, 2, true, true);
            && accepted.players[1].state.Accepted? && accepted.players[2].item.None?
            && Finished(agreed, 2, answers).log == [Move(9, 1), Move(8, 2)]
  {
    QuietIsFine(s);
    var first := Started(s, 1, 2, 8);
    assert first.players == map[1 := Player(Initiated, Some(2), Some(8)), 2 := Player(Acknowledged, Some(1), None)];
    var accepted := Agreed(first, 1, true, true);
    assert accepted.players == map[1 := Player(Accepted, Some(2), Some(8)), 2 := Player(Acknowledged, Some(1), None)];
    var offered := Started(accepted, 2, 1, 9);
    assert offered.players == map[1 := Player(Accepted, Some(2), Some(8)), 2 := Player(Initiated, Some(1), Some(9))];
    var agreed := Agreed(offered, 2, true, true);
    assert agreed.players[2] == Player(Transferring, Some(1), Some(9)) && agreed.players[1] == Player(Transferring, Some(2), Some(8));
  }

  // ----- what each step does to players, offers and references -----

  /** The item is what one of the two has on the table. */
  predicate OnTable(s: State, p: Id, i: Id)
    requires p in s.players
  {
    s.players[p].item == Some(i) || (s.players[p].partner.Some? && s.players[p].partner.value in s.players
                                     && s.players[s.players[p].partner.value].item == Some(i))
  }

  /** The offer is gone from the list, and so is the reference held for it. */
  predicate OffTheList(n: State, i: Id) {
    i !in n.tradeItems && Held(n, i) == 0
  }

  predicate OfferAsBefore(s: State, n: State, i: Id) {
    && (i in n.tradeItems <==> i in s.tradeItems) && (i in s.tradeItems ==> n.tradeItems[i] == s.tradeItems[i])
    && Held(n, i) == Held(s, i)
  }

  /** All players but these two are as before. */
  predicate OthersAsBefore(s: State, n: State, p: Id, q: Option<Id>) {
    n.players.Keys == s.players.Keys && forall r :: r in s.players && r != p && q != Some(r) ==> n.players[r] == s.players[r]
  }

  lemma WithdrawnIs(s: State, item: Option<Id>, i: Id)
    requires forall j {:trigger OfferIs(s, j)} :: OfferIs(s, j)
    ensures var n := Withdrawn(s, item);
            && n.players == s.players && n.log == s.log
            && if item == Some(i) then OffTheList(n, i) else OfferAsBefore(s, n, i)
  {
    assert OfferIs(s, i);
  }

  lemma BothWithdrawnIs(s: State, one: Option<Id>, two: Option<Id>, i: Id)
    requires forall j {:trigger OfferIs(s, j)} :: OfferIs(s, j)
    ensures var n := Withdrawn(Withdrawn(s, one), two);
            && n.players == s.players && n.log == s.log
            && if one == Some(i) || two == Some(i) then OffTheList(n, i) else OfferAsBefore(s, n, i)
  {
    assert OfferIs(s, i);
    var m := Withdrawn(s, one);
    forall j: Id | true
      ensures j in m.tradeItems || Held(m, j) == 0
    {
      WithdrawnIs(s, one, j);
      assert OfferIs(s, j);
    }
    WithdrawnIs(s, one, i);
  }

  /**
   Closing a trade: unless a transfer is under way, when nothing happens, neither the player nor the
   partner has state, partner or item afterwards, both offers are off the list with no reference
   held, and everything else is as before.
   */
  lemma ClosedIs(s: State, p: Id, i: Id)
    requires Inv(s) && p in s.players
    ensures var a, n := s.players[p], Closing(s, p);
            && (a.state.Transferring? ==> n == s)
            && (!a.state.Transferring? ==>
                  && OthersAsBefore(s, n, p, a.partner) && n.log == s.log
                  && n.players[p] == Player(Idle, None, None)
                  && (a.partner.Some? ==> a.partner.value in n.players && n.players[a.partner.value] == Player(Idle, None, None))
                  && if OnTable(s, p, i) then OffTheList(n, i) else OfferAsBefore(s, n, i))
  {
    assert PlayerIs(s, p);
    var a := s.players[p];
    if a.partner.Some? {
      assert PlayerIs(s, a.partner.value);
    }
    if !a.state.Transferring? {
      ClosedInSteps(s, p);
      BothWithdrawnIs(s, a.item, if a.partner.Some? then s.players[a.partner.value].item else None, i);
    }
  }

  /** `Closed`, which looks at the partner. */
  ghost function Closing(s: State, p: Id): State
    requires Inv(s) && p in s.players
  {
    assert PlayerIs(s, p);
    Closed(s, p)
  }

  lemma ClosedInSteps(s: State, p: Id)
    requires Inv(s) && p in s.players && PlayerIs(s, p) && !s.players[p].state.Transferring?
    ensures var a, n := s.players[p], Closed(s, p);
            var m := Withdrawn(Withdrawn(s, a.item), if a.partner.Some? then s.players[a.partner.value].item else None);
            && n.tradeItems == m.tradeItems && n.held == m.held && n.log == m.log
            && n.players == if a.partner.Some? then s.players[p := NOBODY][a.partner.value := NOBODY] else s.players[p := NOBODY]
  {
    var a := s.players[p];
    if a.partner.Some? {
      assert PlayerIs(s, a.partner.value);
    }
  }

  /** Who may make an offer: a player who is idle or answers the partner, to one who is idle or trades with that player. */
  predicate MayOffer(s: State, p: Id, q: Id)
    requires p in s.players && q in s.players
  {
    && (s.players[p].state.Idle? || (s.players[p].state.Acknowledged? && s.players[p].partner == Some(q)))
    && (s.players[q].state.Idle? || s.players[q].partner == Some(p))
  }

  /** An offer: the player has initiated with this partner and item; an idle partner has been told; the item is on the list. */
  lemma StartedIs(s: State, p: Id, q: Id, i: Id, j: Id)
    requires Inv(s) && p in s.players && q in s.players && p != q
    ensures var n := Started(s, p, q, i);
            && (!MayOffer(s, p, q) ==> n == s)
            && (MayOffer(s, p, q) ==>
                  && OthersAsBefore(s, n, p, Some(q)) && n.log == s.log
                  && n.players[p] == Player(Initiated, Some(q), Some(i))
                  && n.players[q] == (if s.players[q].state.Idle? then Player(Acknowledged, Some(p), None) else s.players[q])
                  && i in n.tradeItems && n.tradeItems[i] == p && Held(n, i) == Held(s, i) + 1
                  && (j != i ==> OfferAsBefore(s, n, j)))
  {
    assert PlayerIs(s, p) && PlayerIs(s, q);
  }

  /** Whether an acceptance counts. */
  predicate MayAccept(s: State, p: Id, sight: bool)
    requires p in s.players
  {
    sight && s.players[p].partner.Some? && (s.players[p].state.Acknowledged? || s.players[p].state.Initiated?)
  }

  ghost function Agreeing(s: State, p: Id, sight: bool, allowed: bool): State
    requires Inv(s) && p in s.players
  {
    assert PlayerIs(s, p);
    Agreed(s, p, sight, allowed)
  }

  /**
   An acceptance: alone it only marks the player; as the second one it ends the trade if the script
   objects, and otherwise starts the transfer, with both offers off the list.
   */
  lemma AgreedIs(s: State, p: Id, sight: bool, allowed: bool, i: Id)
    requires Inv(s) && p in s.players
    ensures var a, n := s.players[p], Agreeing(s, p, sight, allowed);
            && (!MayAccept(s, p, sight) ==> n == s)
            && (MayAccept(s, p, sight) && a.partner.value in s.players ==>
                  var b := s.players[a.partner.value];
                  && (!b.state.Accepted? ==>
                        n == s.(players := s.players[p := Player(Accepted, a.partner, a.item)]))
                  && (b.state.Accepted? && !allowed ==> n == Closing(s, p))
                  && (b.state.Accepted? && allowed ==>
                        && OthersAsBefore(s, n, p, a.partner) && n.log == s.log
                        && n.players[p] == Player(Transferring, a.partner, a.item)
                        && n.players[a.partner.value] == Player(Transferring, Some(p), b.item)
                        && if OnTable(s, p, i) then OffTheList(n, i) else OfferAsBefore(s, n, i)))
    ensures MayAccept(s, p, sight) ==> s.players[p].partner.value in s.players
  {
    assert PlayerIs(s, p);
    var a := s.players[p];
    if MayAccept(s, p, sight) {
      var q := a.partner.value;
      assert PlayerIs(s, q);
      if s.players[q].state.Accepted? && !allowed {
        ClosedAfterAccept(s, p);
      }
      if s.players[q].state.Accepted? && allowed {
        TransferPlayers(s, p, q);
        TransferInSteps(s, p, q);
        BothWithdrawnIs(s, a.item, s.players[q].item, i);
      }
    }
  }

  lemma TransferInSteps(s: State, p: Id, q: Id)
    requires BothAccept(s, p, q)
    ensures var n := Agreed(s, p, true, true);
            var m := Withdrawn(Withdrawn(s, s.players[p].item), s.players[q].item);
            n.tradeItems == m.tradeItems && n.held == m.held && n.log == m.log
  {
  }

  ghost function Finishing(s: State, p: Id, answers: Answers): State
    requires Inv(s) && p in s.players
  {
    assert PlayerIs(s, p);
    Finished(s, p, answers)
  }

  /**
   The end of a transfer: both are idle, the list is as it was, and the items have changed hands, the
   player's first, if both are there and everything succeeds; the second may be missing.
   */
  lemma FinishedIs(s: State, p: Id, answers: Answers)
    requires Inv(s) && p in s.players
    ensures var a, n := s.players[p], Finishing(s, p, answers);
            && n.tradeItems == s.tradeItems && n.held == s.held
            && (!a.state.Transferring? ==> n == s)
            && (a.state.Transferring? && a.partner.Some? && a.partner.value in s.players ==>
                  var q, b := a.partner.value, s.players[a.partner.value];
                  var passed := answers.roomHere && answers.roomThere && answers.removable && answers.first;
                  && OthersAsBefore(s, n, p, a.partner)
                  && n.players[p] == Player(Idle, None, None) && n.players[q] == Player(Idle, None, None)
                  && (a.item.None? || b.item.None? || !passed ==> n.log == s.log)
                  && (a.item.Some? && b.item.Some? && passed && answers.second ==>
                        n.log == s.log + [Move(a.item.value, q), Move(b.item.value, p)])
                  && (a.item.Some? && b.item.Some? && passed && !answers.second ==> n.log == s.log + [Move(a.item.value, q)]))
    ensures s.players[p].state.Transferring? ==> s.players[p].partner.Some? && s.players[p].partner.value in s.players
  {
    assert PlayerIs(s, p);
  }

  // ----- the program -----

  class TradeDesk {
    var players: map<Id, Player>
    var tradeItems: map<Id, Id>
    var held: map<Id, int>
    ghost var log: seq<Move>

    ghost function Now(): State
      reads this
    {
      State(players, tradeItems, held, log)
    }

    constructor (players: map<Id, Player>)
      requires forall p :: p in players ==> players[p] == NOBODY
      ensures this.players == players && Inv(Now())
    {
      this.players, this.tradeItems, this.held, this.log := players, map[], map[], [];
      new;
      QuietIsFine(Now());
    }

    /** A first offer, or an answer to one. */
    method InternalStartTrade(player: Id, tradePartner: Id, tradeItem: Id) returns (ok: bool)
      requires Inv(Now()) && player in players && tradePartner in players && player != tradePartner && tradeItem !in tradeItems
      modifies this
      ensures Inv(Now()) && Now() == Started(old(Now()), player, tradePartner, tradeItem)
      ensures ok <==> players[player].state.Initiated? && players[player].item == Some(tradeItem)
                      && tradeItem in tradeItems
    {
      StartedKeeps(Now(), player, tradePartner, tradeItem);
      assert PlayerIs(Now(), player);
      if !players[player].state.Idle? && !(players[player].state.Acknowledged? && players[player].partner == Some(tradePartner)) {
        return false;
      } else if !players[tradePartner].state.Idle? && players[tradePartner].partner != Some(player) {
        return false;
      }
      players := players[player := Player(Initiated, Some(tradePartner), Some(tradeItem))];
      held := held[tradeItem := (if tradeItem in held then held[tradeItem] else 0) + 1];
      tradeItems := tradeItems[tradeItem := player];
      if players[tradePartner].state.Idle? {
        players := players[tradePartner := players[tradePartner].(state := Acknowledged, partner := Some(player))];
      }
      ok := true;
    }

    /** If the item is on offer, it no longer is and its reference is given back. */
    method Withdraw(item: Option<Id>)
      modifies this`tradeItems, this`held
      ensures Now() == Withdrawn(old(Now()), item)
    {
      if item.Some? && item.value in tradeItems {
        tradeItems := tradeItems - {item.value};
        held := held[item.value := (if item.value in held then held[item.value] else 0) - 1];
      }
    }

    method InternalCloseTrade(player: Id)
      requires Inv(Now()) && player in players
      modifies this
      ensures PlayerIs(old(Now()), player) && Now() == Closed(old(Now()), player) && Inv(Now())
      ensures !old(players[player].state.Transferring?) ==>
                && player in players && players[player] == Player(Idle, None, None)
                && (forall i :: OnTable(old(Now()), player, i) ==> OffTheList(Now(), i))
    {
      ghost var s := Now();
      assert PlayerIs(s, player);
      ClosedKeeps(s, player);
      forall i | true
        ensures !s.players[player].state.Transferring? && OnTable(s, player, i) ==> OffTheList(Closed(s, player), i)
      {
        ClosedIs(s, player, i);
      }
      ClosedIs(s, player, 0);
      CloseBoth(player);
    }

    method CloseBoth(player: Id)
      requires player in players && (players[player].partner.Some? ==> players[player].partner.value in players)
      modifies this
      ensures Now() == Closed(old(Now()), player)
    {
      var tradePartner := players[player].partner;
      if (tradePartner.Some? && players[tradePartner.value].state.Transferring?) || players[player].state.Transferring? {
        return;
      }
      Withdraw(players[player].item);
      players := players[player := NOBODY];
      if tradePartner.Some? {
        Withdraw(players[tradePartner.value].item);
        players := players[tradePartner.value := NOBODY];
      }
    }

    /** `playerAcceptTrade` up to the transfer; `sight` and `allowed` are the answers of the map and of the script. */
    method PlayerAcceptTrade(player: Id, sight: bool, allowed: bool)
      requires Inv(Now()) && player in players
      modifies this
      ensures PlayerIs(old(Now()), player) && Now() == Agreed(old(Now()), player, sight, allowed) && Inv(Now())
    {
      assert PlayerIs(Now(), player);
      AgreedKeeps(Now(), player, sight, allowed);
      var a := players[player];
      if !a.state.Acknowledged? && !a.state.Initiated? {
        return;
      }
      if a.partner.None? || !sight {
        return;
      }
      var tradePartner := a.partner.value;
      players := players[player := a.(state := Accepted)];
      if players[tradePartner].state.Accepted? {
        var partnerTradeItem := players[tradePartner].item;
        if !allowed {
          CloseBoth(player);
          return;
        }
        players := players[player := players[player].(state := Transferring)];
        players := players[tradePartner := players[tradePartner].(state := Transferring)];
        Withdraw(a.item);
        Withdraw(partnerTradeItem);
      }
    }

    /** The rest of `playerAcceptTrade`, with what the item engine answers. */
    method FinishTrade(player: Id, answers: Answers) returns (isSuccess: bool)
      requires Inv(Now()) && player in players
      modifies this
      ensures PlayerIs(old(Now()), player) && Now() == Finished(old(Now()), player, answers) && Inv(Now())
      ensures isSuccess <==> log != old(log)
    {
      assert PlayerIs(Now(), player);
      FinishedKeeps(Now(), player, answers);
      var a := players[player];
      isSuccess := false;
      if !a.state.Transferring? || a.partner.None? {
        return;
      }
      var tradePartner := a.partner.value;
      var b := players[tradePartner];
      log := log + Moves(a, b, player, tradePartner, answers);
      if a.item.Some? && b.item.Some? && answers.roomHere && answers.roomThere {
        if answers.removable {
          isSuccess := answers.first;
        }
      }
      players := players[player := NOBODY];
      players := players[tradePartner := NOBODY];
    }
  }
}
