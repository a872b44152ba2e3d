/** Multi-leg entries: which legs count as failed, which peers are cancelled, which positions are flattened. */
module LegCoordination {
  import opened Domain
  import opened Orders
  import opened Pricing
  import opened OrderChains
  import opened OrderTheorems
  import opened OrderRaces
  import opened OrderManagement
  import opened OrderSurvival
  import Positions

  datatype BatchKey = Batch(tag: nat) | Day(day: int)

  datatype Group = Group(strategy: string, batch: BatchKey)

  const SECONDS_PER_DAY: int := 86400

  const PROXIMITY_SECONDS: int := 180

  /** Legs correlate within one submission batch; untagged orders fall back to their day. */
  function GroupOf(o: Order): Group {
    Group(o.strategy, if o.batch.Some? then Batch(o.batch.value) else Day(o.createdAt / SECONDS_PER_DAY))
  }

  /** The last order of an entry chain of the group. */
  predicate EndsLeg(orders: seq<Order>, i: OrderId, g: Group)
    requires i < |orders|
  {
    orders[i].isEntry && GroupOf(orders[i]) == g && orders[i].supersededBy.None?
  }

  /** What counts as a failed leg: a chain whose last order is dead with nothing filled on that order. */
  predicate FailedLeg(orders: seq<Order>, i: OrderId, g: Group)
    requires i < |orders|
  {
    EndsLeg(orders, i, g) && Dead(orders[i].status) && orders[i].filled == 0
  }

  predicate FirstFailedLeg(orders: seq<Order>, i: OrderId, g: Group) {
    i < |orders| && FailedLeg(orders, i, g) && forall j :: 0 <= j < i ==> !FailedLeg(orders, j, g)
  }

  predicate SameContract(a: Contract, b: Contract) {
    KeyOf(a) == KeyOf(b)
  }

  predicate KnownEntry(orders: seq<Order>, p: Positions.Position) {
    0 <= p.entryOrder < |orders|
  }

  /** Does the failed leg f of group g make this open position asymmetric? */
  predicate Flags(orders: seq<Order>, p: Positions.Position, g: Group, f: OrderId)
    requires Forward(orders) && f < |orders|
  {
    && p.strategy == g.strategy
    && if KnownEntry(orders, p) then
         Group(g.strategy, GroupOf(orders[p.entryOrder]).batch) == g && f !in Chain(orders, p.entryOrder)
       else
         var entered := if p.entryTime.Some? then p.entryTime.value else p.createdAt;
         && !(entered - orders[f].createdAt > PROXIMITY_SECONDS || orders[f].createdAt - entered > PROXIMITY_SECONDS)
         && !SameContract(orders[f].contract, p.contract)
  }

  // ---------------------------------------------------------------
  // The pass, with whatever interleaves while it waits for the broker
  // ---------------------------------------------------------------

  /** The first failed leg of the group among the n orders the pass has captured. */
  function FirstFailed(orders: seq<Order>, n: nat, g: Group): (r: Option<OrderId>)
    ensures r.Some? ==> r.value < n && FirstFailedLeg(orders, r.value, g)
    ensures r.None? ==> forall i :: 0 <= i < n && i < |orders| ==> !FailedLeg(orders, i, g)
  {
    if n == 0 then None
    else
      var r := FirstFailed(orders, n - 1, g);
      if r.Some? then r
      else if n - 1 < |orders| && FailedLeg(orders, n - 1, g) then Some(n - 1)
      else None
  }

  predicate IsPeer(orders: seq<Order>, i: OrderId, g: Group, f: OrderId) {
    i < |orders| && EndsLeg(orders, i, g) && i != f
  }

  /** The other captured legs of the group, as their chains stand when the group is judged. */
  function Peers(orders: seq<Order>, n: nat, g: Group, f: OrderId): (ids: seq<OrderId>)
    ensures forall i: OrderId :: i in ids <==> i < n && IsPeer(orders, i, g, f)
  {
    if n == 0 then []
    else Peers(orders, n - 1, g, f) + (if IsPeer(orders, n - 1, g, f) then [n - 1] else [])
  }

  function GroupPass(b: Book, n: nat, g: Group, pause: OrderId -> seq<Event>): Book {
    var f := FirstFailed(b.orders, n, g);
    if f.None? then b else CancelEach(b, Peers(b.orders, n, g, f.value), pause)
  }

  function LegPass(b: Book, n: nat, groups: seq<Group>, pause: OrderId -> seq<Event>): Book {
    var k := |groups| - 1;
    if groups == [] then b else GroupPass(LegPass(b, n, groups[..k], pause), n, groups[k], pause)
  }

  /** The group judged in book b flags the position once its peers have been cancelled. */
  ghost predicate GroupFlags(b: Book, n: nat, g: Group, pause: OrderId -> seq<Event>, p: Positions.Position) {
    var f, after := FirstFailed(b.orders, n, g), GroupPass(b, n, g, pause).orders;
    f.Some? && Forward(after) && f.value < |after| && Flags(after, p, g, f.value)
  }

  ghost predicate PassFlags(b: Book, n: nat, groups: seq<Group>, pause: OrderId -> seq<Event>, p: Positions.Position) {
    exists m :: 0 <= m < |groups| && GroupFlags(LegPass(b, n, groups[..m], pause), n, groups[m], pause, p)
  }

  lemma GroupPassIsRun(b: Book, n: nat, g: Group, pause: OrderId -> seq<Event>) returns (events: seq<Event>)
    ensures GroupPass(b, n, g, pause) == Run(b, events)
    ensures PausesMapped(pause) ==> AllMapped(events)
  {
    hide Run, CancelEach, AllMapped, FirstFailed, Peers;
    var f := FirstFailed(b.orders, n, g);
    if f.None? {
      events := [];
      NothingRuns(b);
    } else {
      events := CancelEachIsRun(b, Peers(b.orders, n, g, f.value), pause);
    }
  }

  /** The whole pass is a run of the machine, so every theorem about runs covers it. */
  lemma {:induction false} PassIsRun(b: Book, n: nat, groups: seq<Group>, pause: OrderId -> seq<Event>)
    returns (events: seq<Event>)
    ensures LegPass(b, n, groups, pause) == Run(b, events)
    ensures PausesMapped(pause) ==> AllMapped(events)
  {
    hide Run, GroupPass, AllMapped;
    if groups == [] {
      events := [];
      NothingRuns(b);
    } else {
      var k := |groups| - 1;
      var before := PassIsRun(b, n, groups[..k], pause);
      var last := GroupPassIsRun(LegPass(b, n, groups[..k], pause), n, groups[k], pause);
      RunAppend(b, before, last);
      if PausesMapped(pause) {
        AllMappedAppend(before, last);
      }
      events := before + last;
    }
  }

  lemma {:induction false} PassSplit(b: Book, n: nat, groups: seq<Group>, m: nat, pause: OrderId -> seq<Event>)
    requires m <= |groups|
    ensures LegPass(b, n, groups, pause) == LegPass(LegPass(b, n, groups[..m], pause), n, groups[m..], pause)
    decreases |groups|
  {
    hide GroupPass;
    var k := |groups| - 1;
    if m == |groups| {
      assert groups[..m] == groups;
    } else {
      assert groups[..k][..m] == groups[..m] && groups[m..][..k - m] == groups[..k][m..];
      PassSplit(b, n, groups[..k], m, pause);
    }
  }

  // ---------------------------------------------------------------
  // What a pass achieves
  // ---------------------------------------------------------------

  /** The book in which group m is judged, and the book at its k-th peer's turn. */
  function JudgedIn(b: Book, n: nat, groups: seq<Group>, m: nat, pause: OrderId -> seq<Event>): Book
    requires m <= |groups|
  {
    LegPass(b, n, groups[..m], pause)
  }

  lemma RunKeepsOrder(b: Book, events: seq<Event>, i: OrderId)
    requires Inv(b) && i < |b.orders|
    ensures Inv(Run(b, events)) && i < |Run(b, events).orders|
    ensures b.orders[i].brokerId.Some? ==> Run(b, events).orders[i].brokerId.Some?
    ensures GivenUp(b.orders[i]) && AllMapped(events) ==> GivenUp(Run(b, events).orders[i])
    ensures b.orders[i].hardCancel && b.orders[i].supersededBy.None? ==>
              Run(b, events).orders[i].hardCancel && Run(b, events).orders[i].supersededBy.None?
  {
    hide Inv, Run, GivenUp, AllMapped;
    RunKeeps(b, events);
    RunGrows(b, events);
    if b.orders[i].brokerId.Some? {
      BrokerIdStays(b, events, i);
    }
    if GivenUp(b.orders[i]) && AllMapped(events) {
      OwnCancelNeverTrips(b, events, i);
    }
    if b.orders[i].hardCancel && b.orders[i].supersededBy.None? {
      NoReplacementAfterHardCancel(b, events, i);
    }
  }

  lemma PeerOfGroup(b: Book, n: nat, g: Group, f: OrderId, k: nat, pause: OrderId -> seq<Event>)
    requires Inv(b) && PausesMapped(pause) && FirstFailed(b.orders, n, g) == Some(f) && k < |Peers(b.orders, n, g, f)|
    ensures
      var ids := Peers(b.orders, n, g, f);
      var i, t, after := ids[k], CancelEach(b, ids[..k], pause), GroupPass(b, n, g, pause);
      && Inv(t) && Inv(after) && i < |b.orders| && i < |t.orders| && i < |after.orders|
      && (b.orders[i].brokerId.Some? ==> t.orders[i].brokerId.Some?)
      && (t.orders[i].brokerId.Some? ==> GivenUp(after.orders[i]))
      && (Working(t.orders[i].status) ==> after.orders[i].hardCancel && after.orders[i].supersededBy.None?)
  {
    hide Inv, Run, CancelEach, GivenUp, AllMapped, PausesMapped, FirstFailed;
    var ids := Peers(b.orders, n, g, f);
    assert ids[k] in ids;
    EachIsStopped(b, ids, k, pause);
    var before := CancelEachIsRun(b, ids[..k], pause);
    RunKeepsOrder(b, before, ids[k]);
  }

  /**
   * Once a group has a failed leg, every captured peer that the broker knows at its turn is no longer
   * working when the pass ends, and every peer working at its turn is hard-cancelled and ends its chain.
   */
  lemma PeersStopped(b: Book, n: nat, groups: seq<Group>, m: nat, f: OrderId, k: nat, pause: OrderId -> seq<Event>)
    requires Inv(b) && PausesMapped(pause) && m < |groups|
    requires FirstFailed(JudgedIn(b, n, groups, m, pause).orders, n, groups[m]) == Some(f)
    requires k < |Peers(JudgedIn(b, n, groups, m, pause).orders, n, groups[m], f)|
    ensures
      var judged, end := JudgedIn(b, n, groups, m, pause), LegPass(b, n, groups, pause);
      var ids := Peers(judged.orders, n, groups[m], f);
      var i, t := ids[k], CancelEach(judged, ids[..k], pause);
      && Inv(end) && i < |judged.orders| && i < |t.orders| && i < |end.orders|
      && (judged.orders[i].brokerId.Some? || t.orders[i].brokerId.Some? ==> !Working(end.orders[i].status))
      && (Working(t.orders[i].status) ==> end.orders[i].hardCancel && end.orders[i].supersededBy.None?)
  {
    hide Inv, Run, CancelEach, AllMapped, PausesMapped, FirstFailed, Peers, GroupPass, LegPass;
    var judged := JudgedIn(b, n, groups, m, pause);
    var before := PassIsRun(b, n, groups[..m], pause);
    RunKeeps(b, before);
    PeerOfGroup(judged, n, groups[m], f, k, pause);
    PassStep(b, n, groups, m, pause);
    PassSplit(b, n, groups, m + 1, pause);
    var after := LegPass(b, n, groups[..m + 1], pause);
    var rest := PassIsRun(after, n, groups[m + 1..], pause);
    RunKeepsOrder(after, rest, Peers(judged.orders, n, groups[m], f)[k]);
  }

  lemma PassStep(b: Book, n: nat, groups: seq<Group>, m: nat, pause: OrderId -> seq<Event>)
    requires m < |groups|
    ensures LegPass(b, n, groups[..m + 1], pause) == GroupPass(JudgedIn(b, n, groups, m, pause), n, groups[m], pause)
  {
    hide GroupPass;
    assert groups[..m + 1][..m] == groups[..m];
  }

  // ---------------------------------------------------------------
  // Which peers escape
  // ---------------------------------------------------------------

  /** The book once the pass has looked at peer i: hard-cancelled if it was working. */
  function LookedAt(b: Book, i: OrderId): Book {
    if i < |b.orders| && Working(b.orders[i].status) then Step(b, EvCancel(i, true)) else b
  }

  /**
   * After its turn a peer's chain can still come to a working order that nobody hard-cancels exactly when
   * the peer was not working at its turn and its chain's end was alive then: softly cancelled with a
   * repricer that will go on, already replaced by such an order, or waiting for its placement.
   */
  lemma PeerEscapesIff(b: Book, i: OrderId)
    requires Inv(b) && Forward(b.orders) && i < |b.orders|
    ensures CanComeAlive(LookedAt(b, i), i)
            <==> !Working(b.orders[i].status) && Alive(b, Last(Chain(b.orders, i)))
  {
    hide Inv, Step, Alive, Forward, CanComeAlive;
    if Working(b.orders[i].status) {
      CancelStops(b, i);
      WorkingIsLast(b, i);
      var b' := Step(b, EvCancel(i, true));
      StepKeeps(b, EvCancel(i, true));
      InvForward(b');
      AliveIff(b', i);
      HardIsNotAlive(b', i);
    } else {
      AliveIff(b, i);
    }
  }

  lemma HardIsNotAlive(b: Book, i: OrderId)
    requires i < |b.orders| && b.orders[i].hardCancel
    ensures !Alive(b, i)
  {
  }

  /** The same said of a peer whose chain is not replaced yet and that the broker knows. */
  lemma UnreplacedPeerEscapesIff(b: Book, i: OrderId)
    requires Inv(b) && Forward(b.orders) && i < |b.orders|
    requires b.orders[i].brokerId.Some? && b.orders[i].supersededBy.None?
    ensures CanComeAlive(LookedAt(b, i), i) <==> !Working(b.orders[i].status) && Resumable(b, i)
  {
    hide Inv, CanComeAlive, LookedAt;
    assert Chain(b.orders, i) == [i];
    PeerEscapesIff(b, i);
  }

  // ---------------------------------------------------------------
  // Failures that are none
  // ---------------------------------------------------------------

  /**
   * A leg judged failed comes back exactly when its repricer is about to replace it, or its placement is
   * still outstanding: a routine cancel looks like a failure until the replacement is linked.
   */
  lemma FailedLegComesBackIff(b: Book, f: OrderId, g: Group)
    requires Inv(b) && Forward(b.orders) && f < |b.orders| && FailedLeg(b.orders, f, g)
    ensures CanComeAlive(b, f) <==>
            && !b.orders[f].hardCancel
            && if b.orders[f].brokerId.Some? then Resumable(b, f) else Outstanding(b, f)
  {
    hide Inv, CanComeAlive, Resumable, Outstanding;
    AliveIff(b, f);
  }

  // ---------------------------------------------------------------
  // Which positions are flagged
  // ---------------------------------------------------------------

  lemma {:induction false} ChainsMeet(orders: seq<Order>, i: OrderId, a: OrderId, f: OrderId)
    requires Forward(orders) && i < |orders| && a in Chain(orders, i) && f in Chain(orders, i)
    ensures a < |orders| && f < |orders| && (f in Chain(orders, a) || a in Chain(orders, f))
    decreases |orders| - i
  {
    if a != i && f != i {
      ChainsMeet(orders, orders[i].supersededBy.value, a, f);
    }
  }

  /** An order that gets a successor during a run gets one created during it. */
  lemma {:induction false} SuccessorIsNew(b: Book, events: seq<Event>, f: OrderId)
    requires Inv(b) && f < |b.orders| && b.orders[f].supersededBy.None?
    ensures f < |Run(b, events).orders|
    ensures Run(b, events).orders[f].supersededBy.Some? ==> Run(b, events).orders[f].supersededBy.value >= |b.orders|
    decreases |events|
  {
    hide Inv, Step, Moved;
    if events != [] {
      var b1 := Step(b, events[0]);
      StepMove(b, events[0], f);
      StepKeeps(b, events[0]);
      StepGrows(b, events[0]);
      LinkKept(b, events[0], f, b.orders[f], b1.orders[f]);
      if b1.orders[f].supersededBy.None? {
        SuccessorIsNew(b1, events[1..], f);
      } else {
        SupersededFrozen(b1, events[1..], f);
      }
    }
  }

  /** What the pass judges by: a dead end of a chain with no fill of its own, entered by this strategy in this batch. */
  predicate DeadLegOf(orders: seq<Order>, f: OrderId, strategy: string, batch: Option<nat>) {
    && f < |orders| && orders[f].isEntry && orders[f].strategy == strategy && orders[f].batch == batch
    && Dead(orders[f].status) && orders[f].filled == 0 && orders[f].supersededBy.None?
  }

  ghost predicate ShareAChain(orders: seq<Order>, a: OrderId, f: OrderId)
    requires Forward(orders)
  {
    exists i :: 0 <= i < |orders| && a in Chain(orders, i) && f in Chain(orders, i)
  }

  /**
   * A position whose entry order is known and tagged is flagged only because the last order of a leg of the
   * same strategy and batch was dead and unfilled, and that order shares no chain with the entry order. The
   * leg itself may have been filled: what its chain holds is what its last order no longer asked for.
   */
  lemma FlaggedForAnotherChain(b: Book, n: nat, groups: seq<Group>, pause: OrderId -> seq<Event>, p: Positions.Position)
    returns (m: nat, f: OrderId)
    requires Inv(b) && PassFlags(b, n, groups, pause, p)
    requires KnownEntry(b.orders, p) && b.orders[p.entryOrder].batch.Some?
    ensures m < |groups|
    ensures DeadLegOf(JudgedIn(b, n, groups, m, pause).orders, f, p.strategy, b.orders[p.entryOrder].batch)
    ensures
      var orders := JudgedIn(b, n, groups, m, pause).orders;
      Forward(orders) && forall i: OrderId :: i < |orders| && Last(Chain(orders, i)) == f ==>
        SumFilled(orders, Chain(orders, i)) == orders[i].quantity - orders[f].quantity
    ensures Forward(LegPass(b, n, groups[..m + 1], pause).orders)
    ensures !ShareAChain(LegPass(b, n, groups[..m + 1], pause).orders, p.entryOrder, f)
  {
    hide Inv, Run, LegPass, GroupPass, Forward;
    m :| 0 <= m < |groups| && GroupFlags(JudgedIn(b, n, groups, m, pause), n, groups[m], pause, p);
    var judged := JudgedIn(b, n, groups, m, pause);
    f := FirstFailed(judged.orders, n, groups[m]).value;
    PassStep(b, n, groups, m, pause);
    var events := PassIsRun(b, n, groups[..m + 1], pause);
    TermsStay(b, events, p.entryOrder);
    var before := PassIsRun(b, n, groups[..m], pause);
    RunKeeps(b, before);
    RunGrows(b, before);
    FailedLegHolds(judged, f, groups[m]);
    var own := GroupPassIsRun(judged, n, groups[m], pause);
    NoSharedChain(judged, own, p.entryOrder, f);
  }

  /** What the chains of a failed leg hold, and when they hold nothing. */
  lemma FailedLegHolds(b: Book, f: OrderId, g: Group)
    requires Inv(b) && f < |b.orders| && FailedLeg(b.orders, f, g)
    ensures Forward(b.orders)
    ensures forall i: OrderId :: i < |b.orders| && Last(Chain(b.orders, i)) == f ==>
      SumFilled(b.orders, Chain(b.orders, i)) == b.orders[i].quantity - b.orders[f].quantity
  {
    hide FailedLeg, Inv;
    InvForward(b);
    forall i: OrderId | i < |b.orders| && Last(Chain(b.orders, i)) == f
      ensures SumFilled(b.orders, Chain(b.orders, i)) == b.orders[i].quantity - b.orders[f].quantity
    {
      FailedLegUnfilled(b.orders, f, g);
      FilledOfChain(b, i);
    }
  }

  lemma FailedLegUnfilled(orders: seq<Order>, f: OrderId, g: Group)
    requires f < |orders| && FailedLeg(orders, f, g)
    ensures orders[f].filled == 0
  {
  }

  lemma FilledOfChain(b: Book, i: OrderId)
    requires Inv(b) && Forward(b.orders) && i < |b.orders|
    ensures
      var c := Chain(b.orders, i);
      SumFilled(b.orders, c) == b.orders[i].quantity - (b.orders[Last(c)].quantity - b.orders[Last(c)].filled)
  {
    var c := Chain(b.orders, i);
    forall j | 0 <= j < |b.orders| ensures LinkOk(b.orders, j) {
      assert OrderOk(b, j);
    }
    hide Inv;
    ChainAccounts(b.orders, i, |c| - 1);
    assert c == c[..|c| - 1] + [Last(c)];
    SumFilledAppend(b.orders, c[..|c| - 1], Last(c));
  }

  /** A leg judged failed has come to nothing exactly when its last order still asked for all of it. */
  lemma FailedLegEmptyIff(now: int, events: seq<Event>, i: OrderId, f: OrderId, g: Group)
    requires i < |Reached(now, events).orders| && Forward(Reached(now, events).orders)
    requires f == Last(Chain(Reached(now, events).orders, i)) && FailedLeg(Reached(now, events).orders, f, g)
    ensures
      var orders := Reached(now, events).orders;
      SumFilled(orders, Chain(orders, i)) == 0 <==> orders[f].quantity == orders[i].quantity
  {
    hide Reached, FailedLeg, Inv;
    ReachedInv(now, events);
    FailedLegHolds(Reached(now, events), f, g);
  }

  lemma NoSharedChain(judged: Book, events: seq<Event>, a: OrderId, f: OrderId)
    requires Inv(judged) && f < |judged.orders| && a < |judged.orders| && judged.orders[f].supersededBy.None?
    requires Forward(Run(judged, events).orders) && a < |Run(judged, events).orders|
    requires f !in Chain(Run(judged, events).orders, a)
    ensures !ShareAChain(Run(judged, events).orders, a, f)
  {
    hide Inv, Run;
    var after := Run(judged, events).orders;
    SuccessorIsNew(judged, events, f);
    if after[f].supersededBy.Some? {
      assert Chain(after, f) == [f] + Chain(after, after[f].supersededBy.value);
    }
    assert a == f || a !in Chain(after, f);
    forall i | 0 <= i < |after| ensures !(a in Chain(after, i) && f in Chain(after, i)) {
      if a in Chain(after, i) && f in Chain(after, i) {
        ChainsMeet(after, i, a, f);
      }
    }
  }

  lemma {:induction false} TermsStay(b: Book, events: seq<Event>, i: OrderId)
    requires Inv(b) && i < |b.orders|
    ensures i < |Run(b, events).orders| && SameTerms(b.orders[i], Run(b, events).orders[i])
    decreases |events|
  {
    hide Inv, Step;
    if events != [] {
      StepEvolves(b, events[0], i);
      StepKeeps(b, events[0]);
      TermsStay(Step(b, events[0]), events[1..], i);
    }
  }

  /**
   * Only the first failed leg of a group is looked at. So a failed peer leaves a position unflagged
   * exactly when the first failed leg is the position's own.
   */
  lemma PeerFailureMissedIff(orders: seq<Order>, n: nat, p: Positions.Position, first: OrderId, peer: OrderId)
    requires Forward(orders) && n <= |orders| && KnownEntry(orders, p)
    requires var g := GroupOf(orders[p.entryOrder]);
             && g.strategy == p.strategy && FirstFailed(orders, n, g) == Some(first)
             && peer < n && FailedLeg(orders, peer, g) && peer !in Chain(orders, p.entryOrder)
    ensures Flags(orders, p, GroupOf(orders[p.entryOrder]), peer)
    ensures !Flags(orders, p, GroupOf(orders[p.entryOrder]), first) <==> first in Chain(orders, p.entryOrder)
  {
  }

  /** Submitted together: under one tag, or both untagged on one day. */
  predicate SameBatch(a: Order, b: Order) {
    || (a.batch.Some? && a.batch == b.batch)
    || (a.batch.None? && b.batch.None? && a.createdAt / 86400 == b.createdAt / 86400)
  }

  /**
   * A leg counts as failed exactly when it is the unreplaced end of an entry, dead and unfilled; its peers are the
   * ends of its batch.
   */
  lemma LegRules(orders: seq<Order>, i: OrderId, f: OrderId)
    requires i < |orders| && f < |orders|
    ensures FailedLeg(orders, i, GroupOf(orders[f])) <==>
            && orders[i].isEntry && orders[i].supersededBy.None? && orders[i].filled == 0
            && (orders[i].status == Cancelled || orders[i].status == Rejected || orders[i].status == Error)
            && orders[i].strategy == orders[f].strategy && SameBatch(orders[i], orders[f])
    ensures IsPeer(orders, i, GroupOf(orders[f]), f) <==>
            && i != f && orders[i].isEntry && orders[i].supersededBy.None?
            && orders[i].strategy == orders[f].strategy && SameBatch(orders[i], orders[f])
  {
  }

  /** When the position was entered, as far as is known. */
  function Entered(p: Positions.Position): int {
    if p.entryTime.None? then p.createdAt else p.entryTime.value
  }

  /**
   * A failed leg makes a position of its strategy asymmetric exactly when the position was entered in its batch on
   * another chain; or, by an order that is not known, within three minutes of it in another contract.
   */
  lemma FlagRules(orders: seq<Order>, p: Positions.Position, f: OrderId)
    requires Forward(orders) && f < |orders|
    ensures Flags(orders, p, GroupOf(orders[f]), f) <==>
            && p.strategy == orders[f].strategy
            && if 0 <= p.entryOrder < |orders| then
                 SameBatch(orders[p.entryOrder], orders[f]) && f !in Chain(orders, p.entryOrder)
               else
                 && -180 <= Entered(p) - orders[f].createdAt <= 180
                 && (|| p.contract.symbol != orders[f].contract.symbol || p.contract.expiry != orders[f].contract.expiry
                     || p.contract.strike != orders[f].contract.strike || p.contract.right != orders[f].contract.right)
  {
  }

  // ---------------------------------------------------------------
  // Runs that show it
  // ---------------------------------------------------------------

  /** A second leg of the batch is submitted and its placement fails. */
  function SecondLegFails(second: Intent, id: OrderId): seq<Event> {
    [EvSubmit(second, RiskDecision(second.riskDecisionId, true, 1), false, None, None), EvSubmitFailed(id)]
  }

  predicate TwoLegs(first: Intent, second: Intent) {
    && first.side == Sell && first.limit == 1.0 && first.isEntry && second.isEntry
    && first.strategy == second.strategy && first.batch.Some? && first.batch == second.batch
    && second.positionId.None?
  }

  function DeadLeg(intent: Intent): Order {
    FailedOrder(NewOrder(intent, RiskDecision(intent.riskDecisionId, true, 1), None, 0), 0)
  }

  function LegsGroup(intent: Intent): Group
    requires intent.batch.Some?
  {
    Group(intent.strategy, Batch(intent.batch.value))
  }

  lemma {:induction false} SecondLegStep(b: Book, second: Intent)
    requires b.submitting == map[] && b.now == 0 && second.positionId.None?
    ensures
      var events := SecondLegFails(second, |b.orders|);
      Step(Step(b, events[0]), events[1]) == b.(orders := b.orders + [DeadLeg(second)])
  {
    var events := SecondLegFails(second, |b.orders|);
    var m: map<OrderId, Option<RepriceConfig>> := map[|b.orders| := None];
    assert m - {|b.orders|} == map[];
    var submitted := Step(b, events[0]);
    assert submitted.submitting == m;
    assert submitted.orders[|b.orders| := DeadLeg(second)] == b.orders + [DeadLeg(second)];
  }

  lemma SecondLegReached(before: seq<Event>, b: Book, second: Intent)
    requires Reached(0, before) == b && b.submitting == map[] && b.now == 0 && second.positionId.None?
    ensures Reached(0, before + SecondLegFails(second, |b.orders|)) == b.(orders := b.orders + [DeadLeg(second)])
  {
    hide Step, Reached, DeadLeg;
    var events := SecondLegFails(second, |b.orders|);
    SecondLegStep(b, second);
    ReachedAppend(0, before, events[0]);
    ReachedAppend(0, before + [events[0]], events[1]);
    assert before + events == (before + [events[0]]) + [events[1]];
  }

  /** The first leg is being softly cancelled by its repricer when the second one fails. */
  function PeerInFlight(first: Intent, second: Intent): seq<Event> {
    UpToSoftCancel(first, 1) + SecondLegFails(second, 1)
  }

  function InFlightBook(first: Intent, second: Intent): Book {
    var b := OneSell(first, 1, 0, CancelPending, Cancelling(1.2));
    b.(orders := b.orders + [DeadLeg(second)])
  }

  lemma InFlightReached(first: Intent, second: Intent)
    requires TwoLegs(first, second)
    ensures Reached(0, PeerInFlight(first, second)) == InFlightBook(first, second)
  {
    hide Reached, DeadLeg, UpToSoftCancel, SecondLegFails;
    SoftCancelReached(first, 1);
    SecondLegReached(UpToSoftCancel(first, 1), OneSell(first, 1, 0, CancelPending, Cancelling(1.2)), second);
  }

  lemma InFlightFacts(first: Intent, second: Intent)
    requires TwoLegs(first, second)
    ensures
      var b, g := InFlightBook(first, second), LegsGroup(first);
      && FirstFailed(b.orders, 2, g) == Some(1) && Peers(b.orders, 2, g, 1) == [0]
      && !Working(b.orders[0].status) && b.orders[0].brokerId.Some? && b.orders[0].supersededBy.None?
      && Resumable(b, 0)
  {
    var b, g := InFlightBook(first, second), LegsGroup(first);
    assert FailedLeg(b.orders, 1, g) && !FailedLeg(b.orders, 0, g);
    assert Peers(b.orders, 0, g, 1) == [] && Peers(b.orders, 1, g, 1) == [0];
    assert Hopeful(b.now, b.orders[0], b.repricers[0]);
  }

  /** The pass leaves such a peer alone, and its repricer goes on to a working order of the abandoned entry. */
  lemma PeerEscapes(first: Intent, second: Intent)
    requires TwoLegs(first, second)
    ensures
      var b, g := Reached(0, PeerInFlight(first, second)), LegsGroup(first);
      && FirstFailed(b.orders, 2, g) == Some(1) && 0 in Peers(b.orders, 2, g, 1)
      && LegPass(b, 2, [g], Quiet) == b && CanComeAlive(b, 0)
  {
    hide Reached, PeerInFlight, InFlightBook, CanComeAlive, Resumable, FirstFailed, Peers;
    var b, g := InFlightBook(first, second), LegsGroup(first);
    InFlightReached(first, second);
    ReachedInv(0, PeerInFlight(first, second));
    InFlightFacts(first, second);
    UnreplacedPeerEscapesIff(b, 0);
    NothingToCancel(b, g);
  }

  lemma NothingToCancel(b: Book, g: Group)
    requires FirstFailed(b.orders, 2, g) == Some(1) && Peers(b.orders, 2, g, 1) == [0]
    requires 0 < |b.orders| && !Working(b.orders[0].status)
    ensures LegPass(b, 2, [g], Quiet) == b
  {
    hide FirstFailed, Peers;
    assert [g][..0] == [];
    assert LegPass(b, 2, [], Quiet) == b;
    var none: seq<OrderId> := [];
    assert [0][..0] == none;
    assert CancelEach(b, none, Quiet) == b;
    assert CancelEach(b, [0], Quiet) == Turn(b, 0, Quiet) == b;
  }

  /** Between the confirmation of a routine cancel and the repricer's next poll, a healthy leg is judged failed. */
  lemma RoutineCancelLooksFailed(first: Intent)
    requires first.side == Sell && first.limit == 1.0 && first.isEntry && first.batch.Some?
    ensures
      var b, g := Reached(0, UpToCancelled(first, 1, 0)), LegsGroup(first);
      FirstFailed(b.orders, 1, g) == Some(0) && CanComeAlive(b, 0)
  {
    hide Reached, UpToCancelled, CanComeAlive, FirstFailed, Outstanding;
    var b, g := OneSell(first, 1, 0, Cancelled, AwaitingAck(1.2)), LegsGroup(first);
    CancelledReached(first, 1, 0);
    ReachedInv(0, UpToCancelled(first, 1, 0));
    assert FailedLeg(b.orders, 0, g);
    OnlyLegFailed(b, g);
    assert Hopeful(b.now, b.orders[0], b.repricers[0]);
    FailedLegComesBackIff(b, 0, g);
  }

  lemma OnlyLegFailed(b: Book, g: Group)
    requires |b.orders| == 1 && FailedLeg(b.orders, 0, g)
    ensures FirstFailed(b.orders, 1, g) == Some(0)
  {
  }

  /** The first leg is part filled and replaced, its replacement is not placed, and the second leg fails too. */
  function BothLegsFail(first: Intent, second: Intent): seq<Event> {
    UpToCancelled(first, 2, 1) + [EvAckPoll(0), EvReplacementFailed(0)] + SecondLegFails(second, 2)
  }

  function PartFilledBook(first: Intent): Book {
    var b := OneSell(first, 2, 1, Cancelled, AwaitingAck(1.2));
    var o := b.orders[0];
    var dead := FailedOrder(Replacement(o, 1.2, 0), 0);
    b.(orders := [o.(supersededBy := Some(1)), dead],
       repricers := [b.repricers[0].(attempts := 1, phase := Done, trail := [0, 1])])
  }

  lemma PartFilledReached(first: Intent)
    requires first.side == Sell && first.limit == 1.0
    ensures Reached(0, UpToCancelled(first, 2, 1) + [EvAckPoll(0), EvReplacementFailed(0)]) == PartFilledBook(first)
  {
    hide Reached, UpToCancelled;
    CancelledReached(first, 2, 1);
    var before := UpToCancelled(first, 2, 1);
    ReachedAppend(0, before, EvAckPoll(0));
    ReachedAppend(0, before + [EvAckPoll(0)], EvReplacementFailed(0));
    assert before + [EvAckPoll(0), EvReplacementFailed(0)] == (before + [EvAckPoll(0)]) + [EvReplacementFailed(0)];
    var b := OneSell(first, 2, 1, Cancelled, AwaitingAck(1.2));
    var polled := Step(b, EvAckPoll(0));
    assert polled.orders == [b.orders[0].(supersededBy := Some(1)), Replacement(b.orders[0], 1.2, 0)];
    assert b.repricers[0].trail + [1] == [0, 1];
    assert polled.repricers == [b.repricers[0].(attempts := 1, phase := Placing(1), trail := [0, 1])];
    assert Step(polled, EvReplacementFailed(0)) == PartFilledBook(first);
  }

  /** The second leg, submitted and placed instead of failing. */
  function SecondLegWorks(second: Intent): seq<Event> {
    [EvSubmit(second, RiskDecision(second.riskDecisionId, true, 1), false, None, None), EvSubmitPlaced(2, 9, Submitted)]
  }

  function WorkingLeg(second: Intent): Order {
    PlacedOrder(NewOrder(second, RiskDecision(second.riskDecisionId, true, 1), None, 0), 9, Submitted, 0)
  }

  lemma SecondLegWorksStep(first: Intent, second: Intent)
    requires second.positionId.None?
    ensures
      var b, events := PartFilledBook(first), SecondLegWorks(second);
      Step(Step(b, events[0]), events[1]) == b.(orders := b.orders + [WorkingLeg(second)])
  {
    var b, events := PartFilledBook(first), SecondLegWorks(second);
    var m: map<OrderId, Option<RepriceConfig>> := map[2 := None];
    assert m - {2} == map[];
    var submitted := Step(b, events[0]);
    assert submitted.submitting == m;
    assert submitted.orders[2 := WorkingLeg(second)] == b.orders + [WorkingLeg(second)];
  }

  function PartFilledBesidePeer(first: Intent, second: Intent): seq<Event> {
    UpToCancelled(first, 2, 1) + [EvAckPoll(0), EvReplacementFailed(0)] + SecondLegWorks(second)
  }

  lemma PartFilledBesidePeerReached(first: Intent, second: Intent)
    requires TwoLegs(first, second)
    ensures
      var b := PartFilledBook(first);
      Reached(0, PartFilledBesidePeer(first, second)) == b.(orders := b.orders + [WorkingLeg(second)])
  {
    hide Reached, UpToCancelled, PartFilledBook, WorkingLeg, Step;
    PartFilledReached(first);
    SecondLegWorksStep(first, second);
    var before, more := UpToCancelled(first, 2, 1) + [EvAckPoll(0), EvReplacementFailed(0)], SecondLegWorks(second);
    ReachedAppend(0, before, more[0]);
    ReachedAppend(0, before + [more[0]], more[1]);
    assert PartFilledBesidePeer(first, second) == (before + [more[0]]) + [more[1]];
  }

  /** A leg that holds a contract is judged failed all the same, and its working peer is abandoned for it. */
  lemma PartFilledLegLooksFailed(first: Intent, second: Intent)
    requires TwoLegs(first, second)
    ensures
      var orders, g := Reached(0, PartFilledBesidePeer(first, second)).orders, LegsGroup(first);
      && Forward(orders) && |orders| == 3 && Chain(orders, 0) == [0, 1]
      && FirstFailed(orders, 3, g) == Some(1) && SumFilled(orders, Chain(orders, 0)) == 1
      && Abandoned(orders, 3, 2) && GroupOf(orders[2]) == g
  {
    hide Reached, UpToCancelled, Step;
    PartFilledBesidePeerReached(first, second);
    var orders, g := PartFilledBook(first).orders + [WorkingLeg(second)], LegsGroup(first);
    assert Chain(orders, 1) == [1];
    assert Chain(orders, 0) == [0] + Chain(orders, 1);
    assert SumFilled(orders, [1]) == 0 && [0, 1][1..] == [1];
    assert FailedLeg(orders, 1, g) && !FailedLeg(orders, 0, g) && !FailedLeg(orders, 2, g);
    assert FirstFailed(orders, 1, g) == None;
    assert FirstFailed(orders, 2, g) == Some(1);
  }

  lemma BothLegsFailReached(first: Intent, second: Intent)
    requires TwoLegs(first, second)
    ensures
      var b := PartFilledBook(first);
      Reached(0, BothLegsFail(first, second)) == b.(orders := b.orders + [DeadLeg(second)])
  {
    hide Reached, UpToCancelled, SecondLegFails, DeadLeg;
    PartFilledReached(first);
    var before := UpToCancelled(first, 2, 1) + [EvAckPoll(0), EvReplacementFailed(0)];
    SecondLegReached(before, PartFilledBook(first), second);
  }

  lemma BothLegsFailFacts(first: Intent, second: Intent)
    requires TwoLegs(first, second)
    ensures
      var b := PartFilledBook(first);
      var orders, g := b.orders + [DeadLeg(second)], LegsGroup(first);
      && Forward(orders) && |orders| == 3 && Chain(orders, 0) == [0, 1] && GroupOf(orders[0]) == g
      && FirstFailed(orders, 3, g) == Some(1) && FailedLeg(orders, 2, g)
  {
    var b := PartFilledBook(first);
    var orders, g := b.orders + [DeadLeg(second)], LegsGroup(first);
    assert Chain(orders, 1) == [1];
    assert Chain(orders, 0) == [0] + Chain(orders, 1);
    assert FailedLeg(orders, 1, g) && !FailedLeg(orders, 0, g);
    assert FirstFailed(orders, 1, g) == None;
  }

  /**
   * The first leg's position is not flagged, though the second leg failed with nothing filled: a run to such a book.
   */
  lemma PeerFailureCanBeMissed(first: Intent, second: Intent, p: Positions.Position)
    requires TwoLegs(first, second) && p.entryOrder == 0 && p.strategy == first.strategy
    ensures
      var orders, g := Reached(0, BothLegsFail(first, second)).orders, LegsGroup(first);
      && Forward(orders) && |orders| == 3 && FailedLeg(orders, 2, g) && 2 !in Chain(orders, 0)
      && Flags(orders, p, g, 2)
      && FirstFailed(orders, 3, g) == Some(1) && !Flags(orders, p, g, 1)
  {
    hide Reached, BothLegsFail, PartFilledBook, DeadLeg, FirstFailed;
    BothLegsFailReached(first, second);
    BothLegsFailFacts(first, second);
    PeerFailureMissedIff(PartFilledBook(first).orders + [DeadLeg(second)], 3, p, 1, 2);
  }

  // ---------------------------------------------------------------
  // A pass in which nothing interleaves
  // ---------------------------------------------------------------

  /** A working captured leg of a failed group. */
  predicate Abandoned(orders: seq<Order>, n: nat, i: OrderId) {
    && i < n && i < |orders| && EndsLeg(orders, i, GroupOf(orders[i])) && Working(orders[i].status)
    && FirstFailed(orders, n, GroupOf(orders[i])).Some?
  }

  predicate Distinct(groups: seq<Group>) {
    forall k, m :: 0 <= k < m < |groups| ==> groups[k] != groups[m]
  }

  lemma QuietTurn(b: Book, i: OrderId)
    ensures
      var b' := Turn(b, i, Quiet);
      && |b'.orders| == |b.orders| && b'.now == b.now
      && forall k :: 0 <= k < |b.orders| ==>
           b'.orders[k] == if k == i && Working(b.orders[i].status)
                           then CancelledOrder(b.orders[i], true, b.now) else b.orders[k]
  {
  }

  lemma {:induction false} QuietEach(b: Book, ids: seq<OrderId>)
    ensures
      var b' := CancelEach(b, ids, Quiet);
      && |b'.orders| == |b.orders| && b'.now == b.now
      && forall i: OrderId :: i < |b.orders| ==>
           b'.orders[i] == if i in ids && Working(b.orders[i].status)
                           then CancelledOrder(b.orders[i], true, b.now) else b.orders[i]
  {
    hide Turn;
    if ids != [] {
      var n := |ids| - 1;
      QuietEach(b, ids[..n]);
      QuietTurn(CancelEach(b, ids[..n], Quiet), ids[n]);
      assert ids == ids[..n] + [ids[n]];
    }
  }

  lemma QuietGroup(b: Book, n: nat, g: Group)
    requires n <= |b.orders|
    ensures
      var b' := GroupPass(b, n, g, Quiet);
      && |b'.orders| == |b.orders| && b'.now == b.now
      && forall i: OrderId :: i < |b.orders| ==>
           b'.orders[i] == if Abandoned(b.orders, n, i) && GroupOf(b.orders[i]) == g
                           then CancelledOrder(b.orders[i], true, b.now) else b.orders[i]
  {
    hide CancelEach, CancelledOrder, GroupOf;
    var f := FirstFailed(b.orders, n, g);
    if f.Some? {
      QuietEach(b, Peers(b.orders, n, g, f.value));
    }
  }

  lemma {:induction false} FirstFailedSame(a: seq<Order>, b: seq<Order>, n: nat, g: Group)
    requires |a| == |b| && forall i :: 0 <= i < |a| ==> (FailedLeg(a, i, g) <==> FailedLeg(b, i, g))
    ensures FirstFailed(a, n, g) == FirstFailed(b, n, g)
  {
    hide FailedLeg;
    if n > 0 {
      FirstFailedSame(a, b, n - 1, g);
    }
  }

  lemma CancelKeepsShape(o: Order, now: int)
    ensures
      var o' := CancelledOrder(o, true, now);
      && GroupOf(o') == GroupOf(o) && SameTerms(o', o) && o'.supersededBy == o.supersededBy
      && o'.createdAt == o.createdAt && SameTerms(o, o)
  {
  }

  /** Cancelling legs of other groups changes nothing this group is judged by. */
  lemma OtherGroups(before: seq<Order>, mid: seq<Order>, n: nat, handled: seq<Group>, g: Group, now: int)
    requires |mid| == |before| && g !in handled
    requires forall i: OrderId :: i < |before| ==>
      mid[i] == if Abandoned(before, n, i) && GroupOf(before[i]) in handled
                then CancelledOrder(before[i], true, now) else before[i]
    ensures SameShape(mid, before) && FirstFailed(mid, n, g) == FirstFailed(before, n, g)
    ensures forall i: OrderId :: i < |mid| ==>
      && GroupOf(mid[i]) == GroupOf(before[i])
      && (GroupOf(before[i]) == g ==> mid[i] == before[i])
      && (Abandoned(mid, n, i) && GroupOf(mid[i]) == g <==> Abandoned(before, n, i) && GroupOf(before[i]) == g)
  {
    hide FirstFailed, Abandoned, GroupOf, CancelledOrder, SameTerms;
    forall i | 0 <= i < |mid|
      ensures GroupOf(mid[i]) == GroupOf(before[i]) && SameTerms(mid[i], before[i])
      ensures mid[i].supersededBy == before[i].supersededBy && mid[i].createdAt == before[i].createdAt
      ensures FailedLeg(mid, i, g) <==> FailedLeg(before, i, g)
    {
      CancelKeepsShape(before[i], now);
    }
    FirstFailedSame(mid, before, n, g);
    forall i: OrderId | i < |mid|
      ensures Abandoned(mid, n, i) && GroupOf(mid[i]) == g <==> Abandoned(before, n, i) && GroupOf(before[i]) == g
    {
      AbandonedSame(before, mid, n, i, g);
    }
  }

  lemma AbandonedSame(before: seq<Order>, mid: seq<Order>, n: nat, i: OrderId, g: Group)
    requires i < |mid| == |before| && GroupOf(mid[i]) == GroupOf(before[i])
    requires GroupOf(before[i]) == g ==> mid[i] == before[i]
    requires FirstFailed(mid, n, g) == FirstFailed(before, n, g)
    ensures Abandoned(mid, n, i) && GroupOf(mid[i]) == g <==> Abandoned(before, n, i) && GroupOf(before[i]) == g
  {
  }

  /**
   * When nothing interleaves, exactly the working captured legs of failed groups are hard-cancelled, and
   * nothing else about the orders changes.
   */
  lemma {:induction false} QuietPass(b: Book, n: nat, groups: seq<Group>)
    requires n <= |b.orders| && Distinct(groups)
    ensures
      var b' := LegPass(b, n, groups, Quiet);
      && |b'.orders| == |b.orders| && b'.now == b.now
      && forall i: OrderId :: i < |b.orders| ==>
           b'.orders[i] == if Abandoned(b.orders, n, i) && GroupOf(b.orders[i]) in groups
                           then CancelledOrder(b.orders[i], true, b.now) else b.orders[i]
  {
    hide GroupPass, CancelledOrder, GroupOf, Abandoned;
    if groups != [] {
      var k := |groups| - 1;
      var mid := LegPass(b, n, groups[..k], Quiet);
      QuietPass(b, n, groups[..k]);
      assert groups == groups[..k] + [groups[k]];
      OtherGroups(b.orders, mid.orders, n, groups[..k], groups[k], b.now);
      QuietGroup(mid, n, groups[k]);
    }
  }

  predicate SameShape(a: seq<Order>, b: seq<Order>) {
    && |a| == |b|
    && forall i :: 0 <= i < |a| ==>
         && a[i].supersededBy == b[i].supersededBy && SameTerms(a[i], b[i])
         && a[i].createdAt == b[i].createdAt
  }

  lemma {:induction false} ChainSame(a: seq<Order>, b: seq<Order>, i: OrderId)
    requires Forward(a) && Forward(b) && SameShape(a, b) && i < |a|
    ensures Chain(a, i) == Chain(b, i)
    decreases |a| - i
  {
    if a[i].supersededBy.Some? {
      ChainSame(a, b, a[i].supersededBy.value);
    }
  }

  lemma FlagsSame(a: seq<Order>, b: seq<Order>, p: Positions.Position, g: Group, f: OrderId)
    requires Forward(a) && SameShape(a, b) && f < |a|
    ensures Forward(b) && (Flags(a, p, g, f) <==> Flags(b, p, g, f))
  {
    assert Forward(b);
    if KnownEntry(a, p) {
      ChainSame(a, b, p.entryOrder);
    }
  }

  lemma QuietShape(b: Book, n: nat, groups: seq<Group>)
    requires n <= |b.orders| && Distinct(groups)
    ensures SameShape(b.orders, LegPass(b, n, groups, Quiet).orders)
  {
    hide LegPass, Abandoned;
    QuietPass(b, n, groups);
  }

  /**
   * And exactly the positions are flagged that the first failed leg of a group makes asymmetric in the book as it was.
   */
  lemma QuietFlags(b: Book, n: nat, groups: seq<Group>, p: Positions.Position)
    requires n <= |b.orders| && Distinct(groups) && Forward(b.orders)
    ensures PassFlags(b, n, groups, Quiet, p) <==>
            exists m :: 0 <= m < |groups| && FirstFailed(b.orders, n, groups[m]).Some?
              && Flags(b.orders, p, groups[m], FirstFailed(b.orders, n, groups[m]).value)
  {
    hide LegPass, GroupPass, FirstFailed, Flags;
    forall m | 0 <= m < |groups|
      ensures GroupFlags(LegPass(b, n, groups[..m], Quiet), n, groups[m], Quiet, p)
              <==> FirstFailed(b.orders, n, groups[m]).Some?
                   && Flags(b.orders, p, groups[m], FirstFailed(b.orders, n, groups[m]).value)
    {
      QuietGroupFlags(b, n, groups, m, p);
    }
  }

  lemma QuietGroupFlags(b: Book, n: nat, groups: seq<Group>, m: nat, p: Positions.Position)
    requires n <= |b.orders| && Distinct(groups) && Forward(b.orders) && m < |groups|
    ensures GroupFlags(LegPass(b, n, groups[..m], Quiet), n, groups[m], Quiet, p)
            <==> FirstFailed(b.orders, n, groups[m]).Some?
                 && Flags(b.orders, p, groups[m], FirstFailed(b.orders, n, groups[m]).value)
  {
    hide LegPass, GroupPass, FirstFailed, Flags, Abandoned, CancelledOrder, GroupOf;
    var handled, g := groups[..m], groups[m];
    QuietPass(b, n, handled);
    OtherGroups(b.orders, LegPass(b, n, handled, Quiet).orders, n, handled, g, b.now);
    var f := FirstFailed(b.orders, n, g);
    if f.Some? {
      QuietShape(b, n, groups[..m + 1]);
      PassStep(b, n, groups, m, Quiet);
      FlagsSame(b.orders, LegPass(b, n, groups[..m + 1], Quiet).orders, p, g, f.value);
    }
  }

  // ---------------------------------------------------------------
  // The coordinator
  // ---------------------------------------------------------------

  /** Every group with an entry among the n captured orders, once. */
  predicate Lists(groups: seq<Group>, orders: seq<Order>, n: nat)
    requires n <= |orders|
  {
    Distinct(groups) && forall i :: 0 <= i < n && orders[i].isEntry ==> GroupOf(orders[i]) in groups
  }

  /** The strategies with an entry among the first n orders, by first appearance. */
  function EntryStrategies(orders: seq<Order>, n: nat): (strategies: seq<string>)
    requires n <= |orders|
    ensures forall k, m :: 0 <= k < m < |strategies| ==> strategies[k] != strategies[m]
    ensures forall i :: 0 <= i < n && orders[i].isEntry ==> orders[i].strategy in strategies
  {
    if n == 0 then []
    else
      var before := EntryStrategies(orders, n - 1);
      var o := orders[n - 1];
      if o.isEntry && o.strategy !in before then before + [o.strategy] else before
  }

  /** Appends the strategy's groups among the first n orders that are not listed yet. */
  function AddGroups(orders: seq<Order>, n: nat, strategy: string, listed: seq<Group>): seq<Group>
    requires n <= |orders|
  {
    if n == 0 then listed
    else
      var before := AddGroups(orders, n - 1, strategy, listed);
      var o := orders[n - 1];
      if o.isEntry && o.strategy == strategy && GroupOf(o) !in before then before + [GroupOf(o)] else before
  }

  function GroupsFor(orders: seq<Order>, n: nat, strategies: seq<string>): seq<Group>
    requires n <= |orders|
  {
    var k := |strategies| - 1;
    if strategies == [] then [] else AddGroups(orders, n, strategies[k], GroupsFor(orders, n, strategies[..k]))
  }

  /** Strategy by strategy, batch by batch, in order of first appearance. */
  function EntryGroups(orders: seq<Order>, n: nat): seq<Group>
    requires n <= |orders|
  {
    GroupsFor(orders, n, EntryStrategies(orders, n))
  }

  lemma {:induction false} AddedGroups(orders: seq<Order>, n: nat, strategy: string, listed: seq<Group>)
    requires n <= |orders| && Distinct(listed)
    ensures
      var groups := AddGroups(orders, n, strategy, listed);
      && Distinct(groups) && (forall g :: g in listed ==> g in groups)
      && forall i :: 0 <= i < n && orders[i].isEntry && orders[i].strategy == strategy ==> GroupOf(orders[i]) in groups
  {
    hide GroupOf;
    if n > 0 {
      AddedGroups(orders, n - 1, strategy, listed);
    }
  }

  lemma {:induction false} GroupsForLists(orders: seq<Order>, n: nat, strategies: seq<string>)
    requires n <= |orders|
    ensures
      var groups := GroupsFor(orders, n, strategies);
      && Distinct(groups)
      && forall i :: 0 <= i < n && orders[i].isEntry && orders[i].strategy in strategies ==>
        GroupOf(orders[i]) in groups
  {
    hide GroupOf, AddGroups, Distinct;
    if strategies == [] {
      NoGroups();
    } else {
      var k := |strategies| - 1;
      GroupsForLists(orders, n, strategies[..k]);
      AddedGroups(orders, n, strategies[k], GroupsFor(orders, n, strategies[..k]));
      assert strategies == strategies[..k] + [strategies[k]];
    }
  }

  lemma NoGroups()
    ensures Distinct([])
  {
  }

  /** The listing has every group with an entry, once. */
  lemma EntryGroupsList(orders: seq<Order>, n: nat)
    requires n <= |orders|
    ensures Lists(EntryGroups(orders, n), orders, n)
  {
    hide GroupsFor, GroupOf, Distinct;
    GroupsForLists(orders, n, EntryStrategies(orders, n));
  }

  class LegCoordinator {
    var asymmetricExits: set<int>

    constructor ()
      ensures asymmetricExits == {}
    {
      asymmetricExits := {};
    }

    method FindFailedLeg(orders: seq<Order>, n: nat, g: Group) returns (failed: Option<OrderId>)
      requires n <= |orders|
      ensures failed == FirstFailed(orders, n, g)
    {
      for i := 0 to n
        invariant FirstFailed(orders, i, g) == None
      {
        if FailedLeg(orders, i, g) {
          StaysFirst(orders, i, n, g);
          return Some(i);
        }
      }
      return None;
    }

    lemma {:induction false} StaysFirst(orders: seq<Order>, i: OrderId, n: nat, g: Group)
      requires i < n <= |orders| && FirstFailed(orders, i, g) == None && FailedLeg(orders, i, g)
      ensures FirstFailed(orders, n, g) == Some(i)
      decreases n
    {
      if n > i + 1 {
        StaysFirst(orders, i, n - 1, g);
      }
    }

    static method StrategiesOf(orders: seq<Order>, n: nat) returns (strategies: seq<string>)
      requires n <= |orders|
      ensures strategies == EntryStrategies(orders, n)
    {
      strategies := [];
      for i := 0 to n
        invariant strategies == EntryStrategies(orders, i)
      {
        if orders[i].isEntry && orders[i].strategy !in strategies {
          strategies := strategies + [orders[i].strategy];
        }
      }
    }

    /** Strategy by strategy, batch by batch, in order of first appearance. */
    method GroupsOf(orders: seq<Order>, n: nat) returns (groups: seq<Group>)
      requires n <= |orders|
      ensures groups == EntryGroups(orders, n) && Lists(groups, orders, n)
    {
      hide GroupOf, Lists, EntryStrategies;
      var strategies := StrategiesOf(orders, n);
      groups := [];
      for s := 0 to |strategies|
        invariant groups == GroupsFor(orders, n, strategies[..s])
      {
        assert strategies[..s + 1][..s] == strategies[..s];
        ghost var listed := groups;
        for i := 0 to n
          invariant groups == AddGroups(orders, i, strategies[s], listed)
        {
          if orders[i].isEntry && orders[i].strategy == strategies[s] && GroupOf(orders[i]) !in groups {
            groups := groups + [GroupOf(orders[i])];
          }
        }
      }
      assert strategies[..|strategies|] == strategies;
      EntryGroupsList(orders, n);
    }

    /** Walk from the entry order along the replacement links; this ends because links lead to newer orders. */
    method IsOwnChain(orders: seq<Order>, entry: OrderId, failed: OrderId) returns (own: bool)
      requires Forward(orders) && entry < |orders|
      ensures own <==> failed in Chain(orders, entry)
    {
      var chain := {entry};
      var o := entry;
      while orders[o].supersededBy.Some?
        invariant o < |orders| && o in chain
        invariant failed in Chain(orders, entry) <==> failed in chain || failed in Chain(orders, o)
        decreases |orders| - o
      {
        o := orders[o].supersededBy.value;
        chain := chain + {o};
      }
      own := failed in chain;
    }

    method IsFlagged(orders: seq<Order>, p: Positions.Position, g: Group, failed: OrderId) returns (flagged: bool)
      requires Forward(orders) && failed < |orders|
      ensures flagged <==> Flags(orders, p, g, failed)
    {
      if p.strategy != g.strategy {
        return false;
      }
      if 0 <= p.entryOrder < |orders| {
        if GroupOf(orders[p.entryOrder]).batch != g.batch {
          return false;
        }
        var own := IsOwnChain(orders, p.entryOrder, failed);
        return !own;
      }
      var entered := p.createdAt;
      if p.entryTime.Some? {
        entered := p.entryTime.value;
      }
      if entered - orders[failed].createdAt > PROXIMITY_SECONDS
        || orders[failed].createdAt - entered > PROXIMITY_SECONDS {
        return false;
      }
      return !SameContract(orders[failed].contract, p.contract);
    }

    /** The captured legs of the group other than the failed one, as their chains stand now. */
    method ListPeers(orders: seq<Order>, n: nat, g: Group, failed: OrderId) returns (ids: seq<OrderId>)
      requires n <= |orders|
      ensures ids == Peers(orders, n, g, failed)
    {
      ids := [];
      for i := 0 to n
        invariant ids == Peers(orders, i, g, failed)
      {
        if EndsLeg(orders, i, g) && i != failed {
          ids := ids + [i];
        } else {
          assert ids + [] == ids;
        }
      }
    }

    /** Hard-cancel each listed peer that is working at its turn, waiting for the broker each time. */
    method CancelPeers(om: OrderManager, ids: seq<OrderId>, pause: OrderId -> seq<Event>)
      requires Inv(om.View())
      modifies om
      ensures Inv(om.View()) && om.View() == CancelEach(old(om.View()), ids, pause)
    {
      hide Inv, Cancel, Run;
      ghost var before := om.View();
      for k := 0 to |ids|
        invariant Inv(om.View()) && om.View() == CancelEach(before, ids[..k], pause)
      {
        CancelEachStep(before, ids, k, pause);
        var i := ids[k];
        if i < |om.orders| && Working(om.orders[i].status) {
          CancelKeeps(om.View(), i, true);
          var _ := om.CancelOrder(i, true);
          RunKeeps(om.View(), pause(i));
          om.PerformAll(pause(i));
        }
      }
      assert ids[..|ids|] == ids;
    }

    /** Flag the open positions that the failed leg makes asymmetric. */
    method FlagPositions(orders: seq<Order>, open: seq<Positions.Position>, g: Group, failed: OrderId)
      requires Forward(orders) && failed < |orders|
      modifies this
      ensures forall id :: id in asymmetricExits <==>
        || id in old(asymmetricExits)
        || exists k :: 0 <= k < |open| && open[k].id == id && Flags(orders, open[k], g, failed)
    {
      hide Flags;
      for k := 0 to |open|
        invariant forall id :: id in asymmetricExits <==>
          || id in old(asymmetricExits)
          || exists j :: 0 <= j < k && open[j].id == id && Flags(orders, open[j], g, failed)
      {
        var flagged := IsFlagged(orders, open[k], g, failed);
        if flagged && open[k].id !in asymmetricExits {
          asymmetricExits := asymmetricExits + {open[k].id};
        }
      }
    }

    /** One group: find its first failed leg, cancel its working peers, flag the positions. */
    method HandleGroup(om: OrderManager, open: seq<Positions.Position>, n: nat, g: Group, pause: OrderId -> seq<Event>)
      requires Inv(om.View()) && n <= |om.orders|
      modifies this, om
      ensures Inv(om.View()) && om.View() == GroupPass(old(om.View()), n, g, pause) && |om.orders| >= |old(om.orders)|
      ensures forall id :: id in asymmetricExits <==>
        || id in old(asymmetricExits)
        || exists k :: 0 <= k < |open| && open[k].id == id && GroupFlags(old(om.View()), n, g, pause, open[k])
    {
      hide Inv, Flags, CancelEach, Forward;
      ghost var before := om.View();
      var failed := FindFailedLeg(om.orders, n, g);
      if failed.None? {
        return;
      }
      var ids := ListPeers(om.orders, n, g, failed.value);
      CancelPeers(om, ids, pause);
      ghost var events := CancelEachIsRun(before, ids, pause);
      RunGrows(before, events);
      InvForward(om.View());
      FlagPositions(om.orders, open, g, failed.value);
      assert forall p :: GroupFlags(before, n, g, pause, p) <==> Flags(om.orders, p, g, failed.value);
    }

    /**
     * The pass over the orders captured when it began. The orders end as the specified pass leaves them,
     * and exactly the positions are added that it flags.
     */
    method Coordinate(om: OrderManager, open: seq<Positions.Position>, captured: seq<Order>,
                      pause: OrderId -> seq<Event>)
      requires Inv(om.View()) && |captured| <= |om.orders|
      modifies this, om
      ensures Inv(om.View()) && |om.orders| >= |old(om.orders)|
      ensures om.View() == LegPass(old(om.View()), |captured|, EntryGroups(captured, |captured|), pause)
      ensures forall id :: id in asymmetricExits <==>
        || id in old(asymmetricExits)
        || exists k :: 0 <= k < |open| && open[k].id == id
             && PassFlags(old(om.View()), |captured|, EntryGroups(captured, |captured|), pause, open[k])
    {
      hide Inv, GroupPass, GroupFlags, EntryGroups, Lists;
      ghost var before := om.View();
      var n := |captured|;
      var groups := GroupsOf(captured, n);
      for m := 0 to |groups|
        invariant Inv(om.View()) && om.View() == LegPass(before, n, groups[..m], pause)
            && |om.orders| >= |before.orders|
        invariant forall id :: id in asymmetricExits <==>
          || id in old(asymmetricExits)
          || exists k :: 0 <= k < |open| && open[k].id == id && PassFlags(before, n, groups[..m], pause, open[k])
      {
        PassStep(before, n, groups, m, pause);
        forall p ensures PassFlags(before, n, groups[..m + 1], pause, p)
                         <==> (|| PassFlags(before, n, groups[..m], pause, p)
                               || GroupFlags(om.View(), n, groups[m], pause, p))
        {
          PassFlagsStep(before, n, groups, m, pause, p);
        }
        HandleGroup(om, open, n, groups[m], pause);
      }
      assert groups[..|groups|] == groups;
    }
  }

  lemma PassFlagsStep(b: Book, n: nat, groups: seq<Group>, m: nat, pause: OrderId -> seq<Event>, p: Positions.Position)
    requires m < |groups|
    ensures PassFlags(b, n, groups[..m + 1], pause, p)
            <==> (|| PassFlags(b, n, groups[..m], pause, p)
                  || GroupFlags(LegPass(b, n, groups[..m], pause), n, groups[m], pause, p))
  {
    hide GroupFlags, LegPass;
    assert forall k :: 0 <= k <= m ==> groups[..m + 1][..k] == groups[..k];
    assert forall k :: 0 <= k < m ==> groups[..m][..k] == groups[..k] && groups[..m][k] == groups[k];
    assert groups[..m + 1][m] == groups[m];
  }
}
