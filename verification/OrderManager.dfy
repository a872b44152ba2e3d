/**
 * OrderManager as the object it is: the same steps written as updates of its fields, each
 * proved to take the state machine's step.
 */
module OrderManagement {
  import opened Domain
  import opened Pricing
  import opened Orders

  datatype Outcome = TurnedDown(why: Refusal) | Created(id: OrderId)

  class OrderManager {
    var orders: seq<Order>
    var repricers: seq<Repricer>
    var submitting: map<OrderId, Option<RepriceConfig>>
    var cancelCalls: multiset<OrderId>
    var rejectedIds: set<OrderId>
    var clock: int

    ghost function View(): Book
      reads this
    {
      Book(orders, repricers, submitting, cancelCalls, rejectedIds, clock)
    }

    constructor (now: int)
      ensures View() == Init(now)
    {
      orders, repricers := [], [];
      submitting, cancelCalls, rejectedIds := map[], multiset{}, {};
      clock := now;
    }

    // -------------------------------------------------------------
    // Submission
    // -------------------------------------------------------------

    method FindActiveFor(position: int) returns (found: bool)
      ensures found <==> HasActiveOrder(orders, position)
    {
      for i := 0 to |orders|
        invariant !HasActiveOrder(orders[..i], position)
      {
        if orders[i].positionId == Some(position) && Active(orders[i].status) {
          return true;
        }
      }
      assert orders[..|orders|] == orders;
      return false;
    }

    /** Runs up to the placement call; the order is left risk-checked with its placement outstanding. */
    method SubmitIntent(intent: Intent, decision: RiskDecision, emergency: bool,
                        config: Option<RepriceConfig>, algo: Option<string>) returns (outcome: Outcome)
      modifies this
      ensures View() == Submit(old(View()), intent, decision, emergency, config, algo)
      ensures outcome == match SubmitRefusal(old(orders), intent, decision) {
                           case Some(why) => TurnedDown(why)
                           case None => Created(|old(orders)|)
                         }
    {
      if !decision.approved {
        return TurnedDown(NotApproved);
      }
      if decision.id != intent.riskDecisionId {
        return TurnedDown(DecisionMismatch);
      }
      if intent.positionId.Some? {
        var duplicate := FindActiveFor(intent.positionId.value);
        if duplicate {
          return TurnedDown(DuplicateForPosition);
        }
      }
      if decision.allowedQuantity <= 0 {
        return TurnedDown(InvalidPlan);
      }
      var order := Order(intent.strategy, intent.contract, intent.side, intent.positionId, intent.isEntry, intent.batch,
                         algo, decision.allowedQuantity, 0, intent.limit, intent.limit, New, None, false, None,
                         clock, clock);
      order := order.(status := RiskChecked, updatedAt := clock);
      var reprice: Option<RepriceConfig> := None;
      if config.Some? && config.value.enabled && !emergency {
        reprice := config;
      }
      outcome := Created(|orders|);
      submitting := submitting[|orders| := reprice];
      orders := orders + [order];
    }

    method PlacementReturned(id: OrderId, brokerId: int, status: Status)
      modifies this
      ensures View() == SubmitPlaced(old(View()), id, brokerId, status)
    {
      if id in submitting && id < |orders| {
        orders := orders[id := orders[id].(brokerId := Some(brokerId), status := status, updatedAt := clock)];
        if submitting[id].Some? {
          repricers := repricers + [Repricer(id, id, 0, clock, submitting[id].value, Sleeping, [id], 0)];
        }
        submitting := submitting - {id};
      }
    }

    method PlacementFailed(id: OrderId)
      modifies this
      ensures View() == SubmitFailed(old(View()), id)
    {
      if id in submitting && id < |orders| {
        orders := orders[id := orders[id].(status := Error, updatedAt := clock)];
        submitting := submitting - {id};
      }
    }

    // -------------------------------------------------------------
    // Cancellation
    // -------------------------------------------------------------

    /** cancel_order up to the broker call. */
    method BeginCancel(id: OrderId, hard: bool) returns (accepted: bool, callsBroker: bool)
      modifies this`orders
      ensures orders == if id >= |old(orders)| then old(orders)
                        else old(orders)[id := CancelledOrder(old(orders)[id], hard, clock)]
      ensures callsBroker <==> id < |old(orders)| && CallsBroker(old(orders)[id])
      ensures accepted <==> id < |old(orders)| && !Terminal(old(orders)[id].status)
    {
      if id >= |orders| {
        return false, false;
      }
      if hard {
        orders := orders[id := orders[id].(hardCancel := true)];
      }
      if Terminal(orders[id].status) {
        assert hard || orders[id := orders[id]] == orders;
        return false, false;
      }
      orders := orders[id := orders[id].(status := CancelPending, updatedAt := clock)];
      if orders[id].brokerId.None? {
        orders := orders[id := orders[id].(status := Cancelled, updatedAt := clock)];
        return true, false;
      }
      return true, true;
    }

    method CancelOrder(id: OrderId, hard: bool) returns (accepted: bool)
      modifies this
      ensures View() == Cancel(old(View()), id, hard)
      ensures accepted <==> id < |old(orders)| && !Terminal(old(orders)[id].status)
    {
      var callsBroker;
      accepted, callsBroker := BeginCancel(id, hard);
      if callsBroker {
        cancelCalls := cancelCalls + multiset{id};
      }
    }

    method CancelCallRaised(id: OrderId)
      modifies this
      ensures View() == CancelRaised(old(View()), id)
    {
      if id in cancelCalls && id < |orders| {
        orders := orders[id := orders[id].(status := Error, updatedAt := clock)];
        cancelCalls := cancelCalls - multiset{id};
      }
    }

    /** The sweep's look at one order; says whether its cancel must be issued again. */
    method SweepOne(id: OrderId, report: Report, at: int) returns (reissue: bool)
      modifies this`orders
      ensures View() == Sweep(old(View()), id, report, at)
      ensures reissue <==>
        && id < |orders| && Stuck(old(orders)[id], at) && old(orders)[id].brokerId.Some?
        && report.Known? && !Terminal(report.status)
    {
      reissue := false;
      if id >= |orders| {
        return;
      }
      var order := orders[id];
      if order.status != CancelPending {
        assert orders[id := order] == orders;
        return;
      }
      if at - order.updatedAt < STUCK_AFTER_SECONDS {
        assert orders[id := order] == orders;
        return;
      }
      var answer := Unknown;
      if order.brokerId.Some? {
        if report.QueryFailed? {
          assert orders[id := order] == orders;
          return;
        }
        answer := report;
      }
      if answer.Known? && Terminal(answer.status) {
        order := order.(status := answer.status, updatedAt := at);
      } else if answer.Unknown? {
        order := order.(status := Cancelled, updatedAt := at);
      } else {
        reissue := true;
      }
      orders := orders[id := order];
    }

    method RecancelReturned(id: OrderId, at: int)
      modifies this`orders
      ensures View() == Recancelled(old(View()), id, at)
    {
      if id < |orders| {
        orders := orders[id := orders[id].(updatedAt := at)];
      }
    }

    /**
     * The whole sweep over the orders there are at its start. The broker's answers, whether a new cancel
     * call succeeds, and what interleaves while it waits come from the environment.
     */
    method ResolveStuckCancels(reports: OrderId -> Report, recancels: OrderId -> bool, pause: OrderId -> seq<Event>)
      modifies this
      ensures View() == SweepAll(old(View()), |old(orders)|, old(clock), reports, recancels, pause)
    {
      var at, n := clock, |orders|;
      for i := 0 to n
        invariant View() == SweepAll(old(View()), i, at, reports, recancels, pause)
      {
        var reissue := SweepOne(i, reports(i), at);
        if reissue {
          PerformAll(pause(i));
          if recancels(i) {
            RecancelReturned(i, at);
          }
        }
      }
    }

    // -------------------------------------------------------------
    // Broker callback
    // -------------------------------------------------------------

    method FindOrderByBrokerId(brokerId: int) returns (found: Option<OrderId>)
      ensures found == FindByBrokerId(orders, brokerId)
    {
      for i := 0 to |orders|
        invariant forall j :: 0 <= j < i ==> orders[j].brokerId != Some(brokerId)
      {
        if orders[i].brokerId == Some(brokerId) {
          return Some(i);
        }
      }
      return None;
    }

    method OnBrokerOrderUpdate(brokerId: int, status: Status, filled: nat)
      modifies this
      ensures View() == BrokerUpdate(old(View()), brokerId, status, filled)
    {
      var found := FindOrderByBrokerId(brokerId);
      if found.None? {
        return;
      }
      var order := orders[found.value];
      var oldStatus := order.status;
      if Terminal(oldStatus) {
        assert orders[found.value := order] == orders;
        return;
      }
      if oldStatus == CancelPending && (status == Rejected || status == Error) {
        orders := orders[found.value := order.(status := Cancelled, updatedAt := clock)];
        return;
      }
      if oldStatus == CancelPending && (status == Submitted || status == PartiallyFilled || status == New) {
        order := order.(status := CancelPending);
      } else {
        order := order.(status := status);
      }
      order := order.(filled := filled, updatedAt := clock);
      orders := orders[found.value := order];
      var spontaneous := status == Cancelled && oldStatus != CancelPending;
      if spontaneous || status == Rejected || status == Error {
        rejectedIds := rejectedIds + {found.value};
      }
    }

    // -------------------------------------------------------------
    // The repricer, one suspension to the next
    // -------------------------------------------------------------

    method SetRepricerPhase(r: nat, phase: Phase)
      requires r < |repricers|
      modifies this`repricers
      ensures repricers == old(repricers)[r := old(repricers)[r].(phase := phase)]
    {
      repricers := repricers[r := repricers[r].(phase := phase)];
    }

    method RepricerWakes(r: nat)
      requires At(View(), r) && repricers[r].phase == Sleeping
      modifies this
      ensures View() == Wake(old(View()), r)
    {
      var p := repricers[r];
      var order := orders[p.current];
      if order.hardCancel || Terminal(order.status) {
        SetRepricerPhase(r, Done);
      } else if clock - p.startedAt >= p.config.timeoutSeconds {
        SetRepricerPhase(r, Done);
        var _ := CancelOrder(p.current, true);
      } else if p.attempts >= p.config.maxAttempts {
        SetRepricerPhase(r, Done);
        var _ := CancelOrder(p.current, true);
      } else {
        SetRepricerPhase(r, Quoting);
      }
    }

    method RepricerStartsReplacement(r: nat, price: real)
      requires At(View(), r)
      modifies this
      ensures View() == StartReplace(old(View()), r, price)
    {
      var id := repricers[r].current;
      if orders[id].hardCancel {
        SetRepricerPhase(r, Done);
        return;
      }
      var accepted, callsBroker := BeginCancel(id, false);
      if !accepted {
        assert orders == old(orders);
        SetRepricerPhase(r, Sleeping);
      } else if callsBroker {
        SetRepricerPhase(r, Cancelling(price));
      } else {
        SetRepricerPhase(r, AwaitingAck(price));
      }
    }

    method RepricerQuoted(r: nat, quote: Option<Quote>)
      requires At(View(), r) && repricers[r].phase == Quoting
      modifies this
      ensures View() == Quoted(old(View()), r, quote)
    {
      if quote.None? || quote.value.bid.None? || quote.value.ask.None? {
        SetRepricerPhase(r, Sleeping);
        return;
      }
      var p := repricers[r];
      var order := orders[p.current];
      var price := NextPrice(order.side, order.limit, quote.value.bid.value, quote.value.ask.value, p.attempts,
                             p.config);
      if AbsReal(price - order.limit) < 0.01 {
        SetRepricerPhase(r, Sleeping);
        return;
      }
      if order.quantity - order.filled <= 0 {
        SetRepricerPhase(r, Done);
        return;
      }
      if p.config.inPlace && order.brokerId.Some? {
        SetRepricerPhase(r, Modifying(price));
        return;
      }
      RepricerStartsReplacement(r, price);
    }

    method RepricerModifyReplied(r: nat, modified: bool)
      requires At(View(), r) && repricers[r].phase.Modifying?
      modifies this
      ensures View() == ModifyReply(old(View()), r, modified)
    {
      var p := repricers[r];
      if modified {
        orders := orders[p.current := orders[p.current].(limit := p.phase.price, updatedAt := clock)];
        repricers := repricers[r := p.(attempts := p.attempts + 1, phase := Sleeping, amended := p.amended + 1)];
      } else {
        RepricerStartsReplacement(r, p.phase.price);
      }
    }

    method RepricerCancelReplied(r: nat, reply: Reply)
      requires At(View(), r) && repricers[r].phase.Cancelling?
      modifies this
      ensures View() == CancelReply(old(View()), r, reply)
    {
      var p := repricers[r];
      match reply
      case Accepted =>
        SetRepricerPhase(r, AwaitingAck(p.phase.price));
      case Refused =>
        SetRepricerPhase(r, Sleeping);
      case Raised =>
        orders := orders[p.current := orders[p.current].(status := Error, updatedAt := clock)];
        SetRepricerPhase(r, Sleeping);
    }

    method RepricerPollsAck(r: nat)
      requires At(View(), r) && repricers[r].phase.AwaitingAck?
      modifies this
      ensures View() == AckPoll(old(View()), r)
    {
      var p := repricers[r];
      var order := orders[p.current];
      if order.status == CancelPending {
        if clock - p.startedAt < p.config.timeoutSeconds {
          return;
        }
      }
      if order.status != Cancelled || order.hardCancel {
        SetRepricerPhase(r, Done);
        return;
      }
      p := p.(attempts := p.attempts + 1);
      var remaining := order.quantity - order.filled;
      if remaining <= 0 || p.phase.price <= 0.0 {
        repricers := repricers[r := p.(phase := Done)];
        return;
      }
      var first := order.firstLimit;
      if first == 0.0 {
        first := order.limit;
      }
      var next := |orders|;
      var replacement := Order(order.strategy, order.contract, order.side, order.positionId, order.isEntry,
                               order.batch, order.algo, remaining, 0, p.phase.price, first, New, None, false, None,
                               clock, clock);
      orders := orders[p.current := order.(supersededBy := Some(next))] + [replacement];
      repricers := repricers[r := p.(phase := Placing(next), trail := p.trail + [next])];
    }

    method RepricerPlaced(r: nat, brokerId: int, status: Status)
      requires r < |repricers| && repricers[r].phase.Placing? && repricers[r].phase.next < |orders|
      modifies this
      ensures View() == ReplacementPlaced(old(View()), r, brokerId, status)
    {
      var id := repricers[r].phase.next;
      orders := orders[id := orders[id].(brokerId := Some(brokerId), status := status, updatedAt := clock)];
      repricers := repricers[r := repricers[r].(current := id, phase := Sleeping)];
    }

    method RepricerPlacementFailed(r: nat)
      requires r < |repricers| && repricers[r].phase.Placing? && repricers[r].phase.next < |orders|
      modifies this
      ensures View() == ReplacementFailed(old(View()), r)
    {
      var id := repricers[r].phase.next;
      orders := orders[id := orders[id].(status := Error, updatedAt := clock)];
      SetRepricerPhase(r, Done);
    }

    // -------------------------------------------------------------
    // The event loop
    // -------------------------------------------------------------

    method TimePasses(dt: nat)
      modifies this`clock
      ensures View() == old(View()).(now := old(clock) + dt)
    {
      clock := clock + dt;
    }

    method CancelCallReturned(id: OrderId)
      modifies this`cancelCalls
      ensures View() == CancelReturned(old(View()), id)
    {
      if id in cancelCalls {
        cancelCalls := cancelCalls - multiset{id};
      }
    }

    method ClearRejected()
      modifies this`rejectedIds
      ensures View() == old(View()).(rejected := {})
    {
      rejectedIds := {};
    }

    /** Let one coroutine or callback take its step. */
    method Perform(e: Event)
      modifies this
      ensures View() == Step(old(View()), e)
    {
      hide Submit, SubmitPlaced, SubmitFailed, Cancel, CancelReturned, CancelRaised, Sweep, Recancelled, BrokerUpdate,
           SubmitRefusal, Stuck, Wake, Quoted, ModifyReply, CancelReply, AckPoll, ReplacementPlaced, ReplacementFailed;
      match e
      case EvTime(dt) => TimePasses(dt);
      case EvRejectedCleared => ClearRejected();
      case EvSubmit(intent, decision, emergency, config, algo) =>
        var _ := SubmitIntent(intent, decision, emergency, config, algo);
      case EvSubmitPlaced(id, brokerId, status) => PlacementReturned(id, brokerId, status);
      case EvSubmitFailed(id) => PlacementFailed(id);
      case EvCancel(id, hard) =>
        var _ := CancelOrder(id, hard);
      case EvCancelReturned(id) => CancelCallReturned(id);
      case EvCancelRaised(id) => CancelCallRaised(id);
      case EvSweep(id, report, at) =>
        var _ := SweepOne(id, report, at);
      case EvRecancelled(id, at) => RecancelReturned(id, at);
      case EvBrokerUpdate(brokerId, status, filled) => OnBrokerOrderUpdate(brokerId, status, filled);
      case _ => PerformRepricer(e);
    }

    predicate CurrentKnown(r: nat)
      reads this
    {
      r < |repricers| && repricers[r].current < |orders|
    }

    method PerformRepricer(e: Event)
      requires OfRepricer(e)
      modifies this
      ensures View() == Step(old(View()), e)
    {
      hide NextPrice;
      match e
      case EvWake(r) =>
        if CurrentKnown(r) && repricers[r].phase == Sleeping { RepricerWakes(r); }
      case EvQuoted(r, quote) =>
        if CurrentKnown(r) && repricers[r].phase == Quoting { RepricerQuoted(r, quote); }
      case EvModifyReply(r, modified) =>
        if CurrentKnown(r) && repricers[r].phase.Modifying? { RepricerModifyReplied(r, modified); }
      case EvCancelReply(r, reply) =>
        if CurrentKnown(r) && repricers[r].phase.Cancelling? { RepricerCancelReplied(r, reply); }
      case EvAckPoll(r) =>
        if CurrentKnown(r) && repricers[r].phase.AwaitingAck? { RepricerPollsAck(r); }
      case EvReplacementPlaced(r, brokerId, status) =>
        if r < |repricers| && repricers[r].phase.Placing? && repricers[r].phase.next < |orders| {
          RepricerPlaced(r, brokerId, status);
        }
      case EvReplacementFailed(r) =>
        if r < |repricers| && repricers[r].phase.Placing? && repricers[r].phase.next < |orders| {
          RepricerPlacementFailed(r);
        }
    }

    method PerformAll(events: seq<Event>)
      modifies this
      ensures View() == Run(old(View()), events)
    {
      for k := 0 to |events|
        invariant Run(View(), events[k..]) == Run(old(View()), events)
      {
        assert events[k..][1..] == events[k + 1..];
        Perform(events[k]);
      }
    }
  }
}
