/** Where the order book's promises stop: the races the code leaves open, and when. */
module OrderRaces {
  import opened Domain
  import opened Pricing
  import opened Orders
  import opened OrderChains
  import opened OrderTheorems
  import opened OrderSurvival

  // ---------------------------------------------------------------
  // Cancels that do not hold
  // ---------------------------------------------------------------

  /**
   * A hard cancel that lands before the placement returns is only local: the order comes back
   * working, and no cancellation has been sent for it.
   */
  lemma CancelBeforePlacementIsLost(b: Book, id: OrderId, brokerId: int, status: Status)
    requires Inv(b) && id in b.submitting && Working(b.orders[id].status) && Working(status)
    ensures
      var b1 := Step(b, EvCancel(id, true));
      var b2 := Step(b1, EvSubmitPlaced(id, brokerId, status));
      && b1.orders[id].status == Cancelled
      && Working(b2.orders[id].status) && b2.orders[id].hardCancel && id !in b2.cancelCalls
  {
    assert OrderOk(b, id);
  }

  /** A hard cancel addressed to a superseded order touches nothing but its flag: the chain goes on. */
  lemma CancelOfSupersededIsInert(b: Book, id: OrderId)
    requires Inv(b) && id < |b.orders| && b.orders[id].supersededBy.Some?
    ensures Step(b, EvCancel(id, true)) == b.(orders := b.orders[id := b.orders[id].(hardCancel := true)])
    ensures Forward(b.orders) && Last(Chain(b.orders, id)) != id
  {
    assert OrderOk(b, id);
    InvForward(b);
    assert Chain(b.orders, id) == [id] + Chain(b.orders, b.orders[id].supersededBy.value);
  }

  /** A cancellation the broker announces before it confirms never trips the lock. */
  lemma AnnouncedCancelEscapesLock(b: Book, brokerId: int, i: OrderId, filled: nat, filled': nat)
    requires FindByBrokerId(b.orders, brokerId) == Some(i) && Working(b.orders[i].status) && i !in b.rejected
    ensures
      var b1 := BrokerUpdate(b, brokerId, CancelPending, filled);
      var b2 := BrokerUpdate(b1, brokerId, Cancelled, filled');
      && i !in b2.rejected && b2.orders[i].status == Cancelled
      && i in BrokerUpdate(b, brokerId, Cancelled, filled').rejected
  {
    var b1 := BrokerUpdate(b, brokerId, CancelPending, filled);
    assert forall j :: 0 <= j < |b.orders| ==> b1.orders[j].brokerId == b.orders[j].brokerId;
    assert FindByBrokerId(b1.orders, brokerId) == Some(i);
  }

  // ---------------------------------------------------------------
  // One active order per position
  // ---------------------------------------------------------------

  predicate OneActivePerPosition(orders: seq<Order>) {
    forall i, j ::
      (0 <= i < |orders| && 0 <= j < |orders| && orders[i].positionId.Some?
       && orders[i].positionId == orders[j].positionId
       && Active(orders[i].status) && Active(orders[j].status)) ==> i == j
  }

  /**
   * The steps that bypass the duplicate guard: a replacement, or a placement returning live for an
   * order given up meanwhile, while another order of the position is active.
   */
  ghost predicate Clashes(b: Book, e: Event) {
    || (e.EvAckPoll? && Replaces(b, e.r) && PositionBusy(b.orders, CurrentOrder(b, e.r).positionId))
    || (exists i :: 0 <= i < |b.orders| && Revives(b, e, i) && PositionBusy(b.orders, b.orders[i].positionId))
  }

  predicate PositionBusy(orders: seq<Order>, position: Option<int>) {
    position.Some? && HasActiveOrder(orders, position.value)
  }

  /** The step makes an order active that was over. */
  predicate Revives(b: Book, e: Event, i: OrderId)
    requires i < |b.orders|
  {
    PlacementReturns(b, e, i) && Terminal(b.orders[i].status) && Active(e.status)
  }

  ghost predicate NeverClashes(b: Book, events: seq<Event>)
    decreases |events|
  {
    events == [] || (!Clashes(b, events[0]) && NeverClashes(Step(b, events[0]), events[1..]))
  }

  ghost predicate AlwaysOneActive(b: Book, events: seq<Event>)
    decreases |events|
  {
    OneActivePerPosition(b.orders) && (events == [] || AlwaysOneActive(Step(b, events[0]), events[1..]))
  }

  lemma MovedActive(b: Book, e: Event, i: OrderId, o: Order, o': Order)
    requires i < |b.orders| && b.orders[i] == o && Moved(b, e, i, o, o') && !Revives(b, e, i)
    ensures o'.positionId == o.positionId && (Active(o'.status) ==> Active(o.status))
  {
    hide FindByBrokerId, PlacementReturns, Clashes;
    if o' == CancelledOrder(o, true, b.now) {
    } else if o' == CancelledOrder(o, false, b.now) {
    } else if e.EvSweep? && o' == SweptOrder(o, e.report, e.at) {
    } else if Reported(b, e, i) && o' == UpdatedOrder(o, e.status, e.filled, b.now) {
    }
  }

  /** No order of `after` is active that was not before, save possibly `but`; positions stay. */
  predicate NoneActivated(before: seq<Order>, after: seq<Order>, but: OrderId) {
    && |before| <= |after|
    && forall i :: 0 <= i < |before| ==>
         && after[i].positionId == before[i].positionId
         && (i != but && Active(after[i].status) ==> Active(before[i].status))
  }

  /** One order becoming active, or appended active, keeps the promise exactly when its position was not busy. */
  lemma OneMoreActive(before: seq<Order>, after: seq<Order>, i: OrderId)
    requires OneActivePerPosition(before) && NoneActivated(before, after, i)
    requires forall k :: 0 <= k < |before| && Active(before[k].status) ==> Active(after[k].status)
    requires i < |after| && Active(after[i].status) && |after| <= |before| + 1
    requires if i < |before| then |after| == |before| && !Active(before[i].status) else i == |before|
    ensures OneActivePerPosition(after) <==> !PositionBusy(before, after[i].positionId)
  {
    if PositionBusy(before, after[i].positionId) {
      var k :| 0 <= k < |before| && before[k].positionId == after[i].positionId && Active(before[k].status);
      assert after[k].positionId == after[i].positionId && k != i;
    }
  }

  lemma NoneMoreActive(before: seq<Order>, after: seq<Order>)
    requires OneActivePerPosition(before) && NoneActivated(before, after, |before|) && |after| == |before|
    ensures OneActivePerPosition(after)
  {
  }

  lemma NoneRevived(b: Book, e: Event, but: OrderId)
    requires Inv(b)
    requires forall i :: 0 <= i < |b.orders| && i != but ==> !Revives(b, e, i)
    ensures NoneActivated(b.orders, Step(b, e).orders, but)
  {
    hide Inv, Step, Moved, Revives;
    StepGrows(b, e);
    forall i | 0 <= i < |b.orders|
      ensures Step(b, e).orders[i].positionId == b.orders[i].positionId
      ensures i != but && Active(Step(b, e).orders[i].status) ==> Active(b.orders[i].status)
    {
      StepMove(b, e, i);
      StepEvolves(b, e, i);
      if i != but {
        MovedActive(b, e, i, b.orders[i], Step(b, e).orders[i]);
      }
    }
  }

  /** A placement belongs to one order only, and touches no other. */
  lemma RevivalAlone(b: Book, e: Event, i: OrderId)
    requires Inv(b) && i < |b.orders| && Revives(b, e, i)
    ensures forall k :: 0 <= k < |b.orders| && k != i ==> !Revives(b, e, k)
    ensures |Step(b, e).orders| == |b.orders| && Active(Step(b, e).orders[i].status)
    ensures forall k :: 0 <= k < |b.orders| && k != i ==> Step(b, e).orders[k] == b.orders[k]
  {
    hide Inv;
  }

  lemma ReplacementAppends(b: Book, r: nat)
    requires Replaces(b, r)
    ensures
      var o, after := CurrentOrder(b, r), AckPoll(b, r).orders;
      && |after| == |b.orders| + 1
      && after[|b.orders|].positionId == o.positionId && Active(after[|b.orders|].status)
      && forall k :: 0 <= k < |b.orders| ==>
           after[k].status == b.orders[k].status && after[k].positionId == b.orders[k].positionId
  {
  }

  lemma SubmissionAppends(b: Book, e: Event)
    requires e.EvSubmit? && SubmitRefusal(b.orders, e.intent, e.decision).None?
    ensures
      var after := Step(b, e).orders;
      && |after| == |b.orders| + 1 && after[..|b.orders|] == b.orders
      && after[|b.orders|].positionId == e.intent.positionId && Active(after[|b.orders|].status)
      && !PositionBusy(b.orders, e.intent.positionId)
  {
  }

  lemma OnlyTwoAppend(b: Book, e: Event)
    requires |Step(b, e).orders| != |b.orders|
    ensures (e.EvSubmit? && SubmitRefusal(b.orders, e.intent, e.decision).None?) || (e.EvAckPoll? && Replaces(b, e.r))
  {
    if !e.EvSubmit? && !e.EvAckPoll? {
      SameSize(b, e);
    }
  }

  lemma NoRevivalOf(b: Book, e: Event)
    requires !e.EvSubmitPlaced? && !e.EvReplacementPlaced?
    ensures forall i :: 0 <= i < |b.orders| ==> !Revives(b, e, i)
  {
  }

  lemma ReplacementClashes(b: Book, r: nat)
    requires Inv(b) && Replaces(b, r)
    ensures Clashes(b, EvAckPoll(r)) <==> PositionBusy(b.orders, CurrentOrder(b, r).positionId)
  {
    NoRevivalOf(b, EvAckPoll(r));
  }

  /** From a book that keeps it, one step keeps one active order per position exactly when it does not clash. */
  lemma OneActiveIff(b: Book, e: Event)
    requires Inv(b) && OneActivePerPosition(b.orders)
    ensures OneActivePerPosition(Step(b, e).orders) <==> !Clashes(b, e)
  {
    hide Inv, OneActivePerPosition, NoneActivated, Step, AckPoll, PositionBusy, Revives, Replaces;
    var after := Step(b, e).orders;
    if e.EvAckPoll? && Replaces(b, e.r) {
      ReplacementAppends(b, e.r);
      ReplacementClashes(b, e.r);
      NoRevivalOf(b, e);
      NoneRevived(b, e, |b.orders|);
      assert Step(b, e) == AckPoll(b, e.r) by {
        AckPollIsStep(b, e.r);
      }
      OneMoreActive(b.orders, after, |b.orders|);
    } else if i: OrderId :| i < |b.orders| && Revives(b, e, i) {
      RevivalAlone(b, e, i);
      NoneRevived(b, e, i);
      StepEvolves(b, e, i);
      RevivedWasOver(b, e, i);
      OneMoreActive(b.orders, after, i);
    } else if |after| != |b.orders| {
      OnlyTwoAppend(b, e);
      SubmissionAppends(b, e);
      NoneRevived(b, e, |b.orders|);
      OneMoreActive(b.orders, after, |b.orders|);
    } else {
      NoneRevived(b, e, |b.orders|);
      NoneMoreActive(b.orders, after);
    }
  }

  lemma AckPollIsStep(b: Book, r: nat)
    ensures Step(b, EvAckPoll(r)) == AckPoll(b, r)
  {
    hide AckPoll;
  }

  lemma RevivedWasOver(b: Book, e: Event, i: OrderId)
    requires i < |b.orders| && Revives(b, e, i)
    ensures !Active(b.orders[i].status)
  {
  }

  /** Over any run: never two active orders for one position exactly when no step of it clashes. */
  lemma {:induction false} GuardHoldsIff(b: Book, events: seq<Event>)
    requires Inv(b) && OneActivePerPosition(b.orders)
    ensures AlwaysOneActive(b, events) <==> NeverClashes(b, events)
    decreases |events|
  {
    hide Inv, OneActivePerPosition, Step, Clashes;
    if events != [] {
      OneActiveIff(b, events[0]);
      StepKeeps(b, events[0]);
      if OneActivePerPosition(Step(b, events[0]).orders) {
        GuardHoldsIff(Step(b, events[0]), events[1..]);
      } else {
        NotAlways(Step(b, events[0]), events[1..]);
      }
    }
  }

  lemma NotAlways(b: Book, events: seq<Event>)
    requires !OneActivePerPosition(b.orders)
    ensures !AlwaysOneActive(b, events)
  {
  }

  /**
   * With a replacement due, a submission for the same position that slips in before it is
   * accepted, and then both orders are active.
   */
  lemma ReplacementBypassesGuard(b: Book, r: nat, intent: Intent, decision: RiskDecision)
    requires Inv(b) && Replaces(b, r)
    requires decision.approved && decision.id == intent.riskDecisionId && decision.allowedQuantity > 0
    requires intent.positionId.Some? && intent.positionId == CurrentOrder(b, r).positionId
    requires !HasActiveOrder(b.orders, intent.positionId.value)
    ensures
      var b1 := Step(b, EvSubmit(intent, decision, false, None, None));
      var b2 := Step(b1, EvAckPoll(r));
      |b2.orders| == |b.orders| + 2 && !OneActivePerPosition(b2.orders)
  {
    hide AckPoll, Replaces, SubmitRefusal;
    var n, e := |b.orders|, EvSubmit(intent, decision, false, None, None);
    NothingRefuses(b, intent, decision);
    SubmissionAppends(b, e);
    SubmissionLeavesDue(b, e, r);
    var b1 := Step(b, e);
    ReplacementAppends(b1, r);
    var after := AckPoll(b1, r).orders;
    AckPollIsStep(b1, r);
    assert after[n].status == b1.orders[n].status && after[n].positionId == after[n + 1].positionId;
  }

  lemma NothingRefuses(b: Book, intent: Intent, decision: RiskDecision)
    requires decision.approved && decision.id == intent.riskDecisionId && decision.allowedQuantity > 0
    requires intent.positionId.Some? ==> !HasActiveOrder(b.orders, intent.positionId.value)
    ensures SubmitRefusal(b.orders, intent, decision).None?
  {
  }

  lemma SubmissionLeavesDue(b: Book, e: Event, r: nat)
    requires e.EvSubmit? && Replaces(b, r)
    ensures Replaces(Step(b, e), r) && CurrentOrder(Step(b, e), r) == CurrentOrder(b, r)
  {
    hide SubmitRefusal;
  }

  const LATE: Event := EvSubmitPlaced(0, 7, Submitted)

  function FirstDecision(intent: Intent): RiskDecision {
    RiskDecision(intent.riskDecisionId, true, 1)
  }

  /** An exit is submitted, given up before its placement returns, and submitted again. */
  function SubmittedAgain(intent: Intent): seq<Event> {
    var submit := EvSubmit(intent, FirstDecision(intent), false, None, None);
    [submit, EvCancel(0, true), submit]
  }

  function GivenUpOnce(intent: Intent): Book {
    var first := NewOrder(intent, FirstDecision(intent), None, 0);
    Book([CancelledOrder(first, true, 0), first], [], map[0 := None, 1 := None], multiset{}, {}, 0)
  }

  lemma SubmittedAgainReaches(intent: Intent)
    ensures Reached(0, SubmittedAgain(intent)) == GivenUpOnce(intent)
  {
    var first := NewOrder(intent, FirstDecision(intent), None, 0);
    var one := Book([first], [], map[0 := None], multiset{}, {}, 0);
    var two := one.(orders := [CancelledOrder(first, true, 0)]);
    var events := SubmittedAgain(intent);
    assert Step(Init(0), events[0]) == one;
    assert Step(one, events[1]) == two;
    assert Step(two, events[2]) == GivenUpOnce(intent);
    RunThrough([Init(0), one, two, GivenUpOnce(intent)], events);
  }

  lemma LatePlacementClashes(intent: Intent)
    requires intent.positionId.Some?
    ensures OneActivePerPosition(GivenUpOnce(intent).orders) && Clashes(GivenUpOnce(intent), LATE)
  {
    var b := GivenUpOnce(intent);
    assert Revives(b, LATE, 0);
    assert b.orders[1].positionId == intent.positionId && Active(b.orders[1].status);
    assert PositionBusy(b.orders, intent.positionId);
  }

  /** The second way is taken too: the position looks free until the placement given up returns. */
  lemma LatePlacementBypassesGuard(intent: Intent)
    requires intent.positionId.Some?
    ensures OneActivePerPosition(Reached(0, SubmittedAgain(intent)).orders)
    ensures !OneActivePerPosition(Reached(0, SubmittedAgain(intent) + [LATE]).orders)
  {
    hide OneActivePerPosition, Step, Inv, Clashes, SubmittedAgain, GivenUpOnce, Reached;
    SubmittedAgainReaches(intent);
    LatePlacementClashes(intent);
    ReachedInv(0, SubmittedAgain(intent));
    ReachedAppend(0, SubmittedAgain(intent), LATE);
    OneActiveIff(GivenUpOnce(intent), LATE);
  }

  const PLAIN_REPRICING := RepriceConfig(true, 3, 999999.0, 0.01, 30, None, 0.05, false)

  const DEAR: Quote := Quote(Some(1.2), Some(1.3))

  /** A book holding one sell order, at time zero, with its repricer in the given phase. */
  function OneSell(intent: Intent, quantity: nat, filled: nat, status: Status, phase: Phase): Book {
    var o := PlacedOrder(NewOrder(intent, RiskDecision(intent.riskDecisionId, true, quantity), None, 0), 7, status, 0);
    Book([o.(filled := filled)], [Repricer(0, 0, 0, 0, PLAIN_REPRICING, phase, [0], 0)], map[], multiset{}, {}, 0)
  }

  /** Submitted, placed, and a soft cancel under way to move it to 1.20. */
  function UpToSoftCancel(intent: Intent, quantity: nat): seq<Event> {
    [EvSubmit(intent, RiskDecision(intent.riskDecisionId, true, quantity), false, Some(PLAIN_REPRICING), None),
     EvSubmitPlaced(0, 7, New), EvWake(0), EvQuoted(0, Some(DEAR))]
  }

  lemma SellSubmitted(intent: Intent, quantity: nat)
    requires quantity > 0
    ensures
      var e := EvSubmit(intent, RiskDecision(intent.riskDecisionId, true, quantity), false, Some(PLAIN_REPRICING),
                        None);
      Step(Step(Init(0), e), EvSubmitPlaced(0, 7, New)) == OneSell(intent, quantity, 0, New, Sleeping)
  {
    var m: map<OrderId, Option<RepriceConfig>> := map[0 := Some(PLAIN_REPRICING)];
    assert m - {0} == map[];
  }

  lemma SellQuoted(intent: Intent, quantity: nat)
    requires intent.side == Sell && intent.limit == 1.0 && quantity > 0
    ensures
      Step(Step(OneSell(intent, quantity, 0, New, Sleeping), EvWake(0)), EvQuoted(0, Some(DEAR)))
      == OneSell(intent, quantity, 0, CancelPending, Cancelling(1.2))
  {
    RoundInteger(120);
    assert NextPrice(Sell, 1.0, 1.2, 1.3, 0, PLAIN_REPRICING) == 1.2;
    assert Step(OneSell(intent, quantity, 0, New, Sleeping), EvWake(0)) == OneSell(intent, quantity, 0, New, Quoting);
  }

  lemma SoftCancelReached(intent: Intent, quantity: nat)
    requires intent.side == Sell && intent.limit == 1.0 && quantity > 0
    ensures Reached(0, UpToSoftCancel(intent, quantity)) == OneSell(intent, quantity, 0, CancelPending, Cancelling(1.2))
  {
    hide Step, NextPrice, OneSell;
    SellSubmitted(intent, quantity);
    SellQuoted(intent, quantity);
    var events := UpToSoftCancel(intent, quantity);
    var submitted, placed := Step(Init(0), events[0]), OneSell(intent, quantity, 0, New, Sleeping);
    RunThrough([Init(0), submitted, placed, Step(placed, events[2]),
                OneSell(intent, quantity, 0, CancelPending, Cancelling(1.2))], events);
  }

  /** The broker accepts the cancel, perhaps reports a part fill, and confirms. */
  function UpToCancelled(intent: Intent, quantity: nat, filled: nat): seq<Event> {
    UpToSoftCancel(intent, quantity) + [EvCancelReply(0, Accepted), EvBrokerUpdate(7, Cancelled, filled)]
  }

  lemma SellCancelled(intent: Intent, quantity: nat, filled: nat)
    ensures
      Step(Step(OneSell(intent, quantity, 0, CancelPending, Cancelling(1.2)), EvCancelReply(0, Accepted)),
           EvBrokerUpdate(7, Cancelled, filled))
      == OneSell(intent, quantity, filled, Cancelled, AwaitingAck(1.2))
  {
    var b := OneSell(intent, quantity, 0, CancelPending, AwaitingAck(1.2));
    assert Step(OneSell(intent, quantity, 0, CancelPending, Cancelling(1.2)), EvCancelReply(0, Accepted)) == b;
    assert FindByBrokerId(b.orders, 7) == Some(0);
  }

  lemma CancelledReached(intent: Intent, quantity: nat, filled: nat)
    requires intent.side == Sell && intent.limit == 1.0 && quantity > 0
    ensures Reached(0, UpToCancelled(intent, quantity, filled))
        == OneSell(intent, quantity, filled, Cancelled, AwaitingAck(1.2))
  {
    hide Step, OneSell, Reached, UpToSoftCancel;
    SoftCancelReached(intent, quantity);
    SellCancelled(intent, quantity, filled);
    ReachedAppend(0, UpToSoftCancel(intent, quantity), EvCancelReply(0, Accepted));
    var accepted := UpToSoftCancel(intent, quantity) + [EvCancelReply(0, Accepted)];
    ReachedAppend(0, accepted, EvBrokerUpdate(7, Cancelled, filled));
    assert UpToCancelled(intent, quantity, filled)
           == accepted + [EvBrokerUpdate(7, Cancelled, filled)];
  }

  /**
   * A book with a replacement due, as ReplacementBypassesGuard asks for, is reached in six steps from a single exit
   * order.
   */
  lemma ReplacementCanBeDue(intent: Intent)
    requires intent.side == Sell && intent.limit == 1.0 && intent.positionId.Some?
    ensures
      var b := Reached(0, UpToCancelled(intent, 1, 0));
      && Replaces(b, 0) && CurrentOrder(b, 0).positionId == intent.positionId
      && !HasActiveOrder(b.orders, intent.positionId.value)
  {
    hide Reached, UpToCancelled;
    CancelledReached(intent, 1, 0);
  }

  // ---------------------------------------------------------------
  // Chains that survive a lock
  // ---------------------------------------------------------------

  /** Beside the softly cancelled order a second one is submitted, placed, and rejected by the broker. */
  function UpToRejection(intent: Intent, second: Intent): seq<Event> {
    UpToSoftCancel(intent, 1) + TurnedDown(second)
  }

  function TurnedDown(second: Intent): seq<Event> {
    [EvSubmit(second, FirstDecision(second), false, None, None),
     EvSubmitPlaced(1, 8, Submitted),
     EvBrokerUpdate(8, Rejected, 0)]
  }

  function TurnedDownBook(intent: Intent, second: Intent, rejected: set<OrderId>): Book {
    var b := OneSell(intent, 1, 0, CancelPending, Cancelling(1.2));
    var o := PlacedOrder(NewOrder(second, FirstDecision(second), None, 0), 8, Rejected, 0);
    b.(orders := b.orders + [o], rejected := rejected)
  }

  lemma SecondRejected(intent: Intent, second: Intent)
    requires second.positionId.None? || second.positionId != intent.positionId
    ensures
      var b, events := OneSell(intent, 1, 0, CancelPending, Cancelling(1.2)), TurnedDown(second);
      Step(Step(Step(b, events[0]), events[1]), events[2]) == TurnedDownBook(intent, second, {1})
  {
    var b, events := OneSell(intent, 1, 0, CancelPending, Cancelling(1.2)), TurnedDown(second);
    var o := NewOrder(second, FirstDecision(second), None, 0);
    var placed := PlacedOrder(o, 8, Submitted, 0);
    var m: map<OrderId, Option<RepriceConfig>> := map[1 := None];
    assert m - {1} == map[];
    assert Step(b, events[0]) == b.(orders := b.orders + [o], submitting := m);
    var b2 := b.(orders := b.orders + [placed]);
    assert (b.orders + [o])[1 := placed] == b.orders + [placed];
    assert Step(Step(b, events[0]), events[1]) == b2;
    assert FindFrom(b2.orders, 8, 1) == Some(1);
    assert FindByBrokerId(b2.orders, 8) == Some(1);
    assert b2.orders[1 := PlacedOrder(o, 8, Rejected, 0)] == TurnedDownBook(intent, second, {1}).orders;
  }

  lemma RejectionReached(intent: Intent, second: Intent)
    requires intent.side == Sell && intent.limit == 1.0
    requires second.positionId.None? || second.positionId != intent.positionId
    ensures Reached(0, UpToRejection(intent, second)) == TurnedDownBook(intent, second, {1})
  {
    hide Reached, UpToSoftCancel, Step, OneSell, TurnedDownBook;
    SoftCancelReached(intent, 1);
    SecondRejected(intent, second);
    var before, more := UpToSoftCancel(intent, 1), TurnedDown(second);
    ReachedAppend(0, before, more[0]);
    ReachedAppend(0, before + [more[0]], more[1]);
    ReachedAppend(0, before + [more[0]] + [more[1]], more[2]);
    assert before + [more[0]] + [more[1]] + [more[2]] == UpToRejection(intent, second);
  }

  /**
   * A second order is rejected, so the runner reacts; the reaction passes over the first, which is being
   * softly cancelled, and its repricer goes on to a working replacement under the lock.
   */
  lemma SoftCancelSurvivesLock(intent: Intent, second: Intent)
    requires intent.side == Sell && intent.limit == 1.0
    requires second.positionId.None? || second.positionId != intent.positionId
    ensures
      var b := Reached(0, UpToRejection(intent, second));
      && b.rejected == {1}
      && Reaction(b, Quiet) == b.(rejected := {}) && CanComeAlive(Reaction(b, Quiet), 0)
  {
    hide Reached, UpToRejection, CanComeAlive, Alive, Step, Reaction;
    RejectionReached(intent, second);
    ReachedInv(0, UpToRejection(intent, second));
    SoftCancelPassedOver(intent, second);
    StepKeeps(TurnedDownBook(intent, second, {1}), EvRejectedCleared);
    ClearsRejected(TurnedDownBook(intent, second, {1}));
    SoftCancelAlive(intent, second);
    AliveIff(TurnedDownBook(intent, second, {}), 0);
  }

  lemma ClearsRejected(b: Book)
    ensures Step(b, EvRejectedCleared) == b.(rejected := {})
  {
  }

  lemma SoftCancelPassedOver(intent: Intent, second: Intent)
    ensures
      var b := TurnedDownBook(intent, second, {1});
      Reaction(b, Quiet) == b.(rejected := {})
  {
    var b := TurnedDownBook(intent, second, {1});
    assert FirstIds(2)[..1] == FirstIds(1) && FirstIds(1)[..0] == [];
    assert CancelEach(b, FirstIds(1), Quiet) == Turn(CancelEach(b, [], Quiet), 0, Quiet) == b;
    assert CancelEach(b, FirstIds(2), Quiet) == Turn(b, 1, Quiet) == b;
  }

  lemma SoftCancelAlive(intent: Intent, second: Intent)
    ensures
      var b := TurnedDownBook(intent, second, {});
      Forward(b.orders) && Chain(b.orders, 0) == [0] && Alive(b, 0)
  {
    var b := TurnedDownBook(intent, second, {});
    assert Hopeful(b.now, b.orders[0], b.repricers[0]);
    assert Resumable(b, 0);
  }
}
