/** Where orders and repricers come from: what is accepted, with what terms, and that every one was asked for. */
module OrderBirth {
  import opened Domain
  import opened Pricing
  import opened Orders
  import opened OrderChains
  import opened OrderTheorems
  import opened OrderSurvival

  // ---------------------------------------------------------------
  // One submission
  // ---------------------------------------------------------------

  /** Another order of the position may still fill. */
  predicate Busy(orders: seq<Order>, position: Option<int>) {
    position.Some? &&
    exists i :: 0 <= i < |orders| && orders[i].positionId == position
      && orders[i].status != Filled && orders[i].status != Cancelled
      && orders[i].status != Rejected && orders[i].status != Error
  }

  /** Approved by the decision it names, for something, and alone for its position. */
  predicate Acceptable(orders: seq<Order>, intent: Intent, decision: RiskDecision) {
    && decision.approved && intent.riskDecisionId == decision.id && decision.allowedQuantity >= 1
    && !Busy(orders, intent.positionId)
  }

  lemma BusyIs(orders: seq<Order>, position: int)
    ensures HasActiveOrder(orders, position) <==> Busy(orders, Some(position))
  {
    if Busy(orders, Some(position)) {
      var i :| 0 <= i < |orders| && orders[i].positionId == Some(position)
        && orders[i].status != Filled && orders[i].status != Cancelled
        && orders[i].status != Rejected && orders[i].status != Error;
      assert Active(orders[i].status);
    }
  }

  /** A submission is refused exactly when it is not acceptable, for the first reason there is. */
  lemma RefusedIff(orders: seq<Order>, intent: Intent, decision: RiskDecision)
    ensures SubmitRefusal(orders, intent, decision).None? <==> Acceptable(orders, intent, decision)
    ensures SubmitRefusal(orders, intent, decision) == Some(NotApproved) <==> !decision.approved
    ensures SubmitRefusal(orders, intent, decision) == Some(DecisionMismatch) <==>
            decision.approved && intent.riskDecisionId != decision.id
    ensures SubmitRefusal(orders, intent, decision) == Some(DuplicateForPosition) <==>
            decision.approved && intent.riskDecisionId == decision.id && Busy(orders, intent.positionId)
  {
    hide HasActiveOrder, Busy;
    if intent.positionId.Some? {
      BusyIs(orders, intent.positionId.value);
    } else {
      NobodysBusy(orders);
    }
  }

  lemma NobodysBusy(orders: seq<Order>)
    ensures !Busy(orders, None)
  {
  }

  /** The order has the intent's terms, the decision's quantity, and nothing behind it yet. */
  predicate AsAsked(o: Order, e: Event, now: int)
    requires e.EvSubmit?
  {
    && o.strategy == e.intent.strategy && o.contract == e.intent.contract && o.side == e.intent.side
    && o.positionId == e.intent.positionId && o.isEntry == e.intent.isEntry && o.batch == e.intent.batch
    && o.algo == e.algo && o.quantity == e.decision.allowedQuantity
    && o.limit == e.intent.limit && o.firstLimit == e.intent.limit
    && o.status == RiskChecked && o.filled == 0 && o.brokerId.None? && !o.hardCancel && o.supersededBy.None?
    && o.createdAt == now && o.updatedAt == now
  }

  /** Which configuration its repricer is to work with, if it is to have one. */
  function Asked(e: Event): Option<RepriceConfig>
    requires e.EvSubmit?
  {
    if e.emergency then None else if e.config.Some? && e.config.value.enabled then e.config else None
  }

  /** An acceptable submission appends the order as asked, to be placed; any other changes nothing. */
  lemma SubmissionOutcome(b: Book, e: Event)
    requires e.EvSubmit?
    ensures
      var b' := Step(b, e);
      if Acceptable(b.orders, e.intent, e.decision) then
        && |b'.orders| == |b.orders| + 1 && b'.orders[..|b.orders|] == b.orders
        && AsAsked(b'.orders[|b.orders|], e, b.now)
        && b' == b.(orders := b'.orders, submitting := b.submitting[|b.orders| := Asked(e)])
      else b' == b
  {
    hide SubmitRefusal, Acceptable;
    RefusedIff(b.orders, e.intent, e.decision);
  }

  /** Its placement returned, the order has the broker's id and status, and a repricer sets out if one was asked for. */
  lemma PlacementOutcome(b: Book, id: OrderId, brokerId: int, status: Status)
    requires id in b.submitting && id < |b.orders|
    ensures
      var b' := Step(b, EvSubmitPlaced(id, brokerId, status));
      && |b'.orders| == |b.orders| && b'.submitting == b.submitting - {id}
      && b'.orders[id] == b.orders[id].(brokerId := Some(brokerId), status := status, updatedAt := b.now)
      && (forall i :: 0 <= i < |b.orders| && i != id ==> b'.orders[i] == b.orders[i])
      && if b.submitting[id].None? then b'.repricers == b.repricers
         else
           && |b'.repricers| == |b.repricers| + 1 && b'.repricers[..|b.repricers|] == b.repricers
           && var p := b'.repricers[|b.repricers|];
              && p.root == id && p.current == id && p.attempts == 0 && p.startedAt == b.now
              && p.config == b.submitting[id].value && p.phase == Sleeping
  {
  }

  /** A placement that fails ends the order in error; it is not asked for again, and no repricer sets out. */
  lemma PlacementFailureOutcome(b: Book, id: OrderId)
    requires id in b.submitting && id < |b.orders|
    ensures
      var b' := Step(b, EvSubmitFailed(id));
      && b' == b.(orders := b.orders[id := b.orders[id].(status := Error, updatedAt := b.now)],
                  submitting := b.submitting - {id})
  {
  }

  // ---------------------------------------------------------------
  // Every order and every repricer was asked for
  // ---------------------------------------------------------------

  /** Event k of the run is the submission that made order i. */
  ghost predicate BornAt(now: int, events: seq<Event>, i: OrderId, k: nat) {
    && k < |events| && events[k].EvSubmit?
    && |Reached(now, events[..k]).orders| == i
    && Acceptable(Reached(now, events[..k]).orders, events[k].intent, events[k].decision)
  }

  lemma BornBefore(now: int, events: seq<Event>, e: Event, i: OrderId, k: nat)
    requires BornAt(now, events, i, k)
    ensures BornAt(now, events + [e], i, k)
  {
    hide Reached, Acceptable;
    assert (events + [e])[..k] == events[..k];
  }

  lemma BornNow(now: int, events: seq<Event>, e: Event)
    requires e.EvSubmit? && Acceptable(Reached(now, events).orders, e.intent, e.decision)
    ensures BornAt(now, events + [e], |Reached(now, events).orders|, |events|)
  {
    hide Reached, Acceptable;
    assert (events + [e])[..|events|] == events;
  }

  lemma SubmittingStep(b: Book, e: Event, i: OrderId)
    requires i in Step(b, e).submitting
    ensures || (i in b.submitting && !(e.EvSubmit? && i == |b.orders|) && Step(b, e).submitting[i] == b.submitting[i])
            || (e.EvSubmit? && i == |b.orders| && Step(b, e) != b)
            || (i in b.submitting && Step(b, e) == b)
  {
    hide NextPrice, CancelledOrder, SweptOrder, UpdatedOrder, TripsLock, SubmitRefusal, FindByBrokerId;
  }

  /** An order waiting for its placement was submitted, and the repricer it is to have is the one asked for. */
  lemma {:induction false} WaitingOrigin(now: int, events: seq<Event>, i: OrderId) returns (k: nat)
    requires i in Reached(now, events).submitting
    ensures BornAt(now, events, i, k) && Reached(now, events).submitting[i] == Asked(events[k])
    decreases |events|
  {
    hide Inv, Step, Run, BornAt, Acceptable;
    var n := |events| - 1;
    assert events != [] by {
      NothingAtFirst(now);
    }
    var before, e := events[..n], events[n];
    assert events == before + [e];
    var b := Reached(now, before);
    ReachedAppend(now, before, e);
    SubmittingStep(b, e, i);
    if e.EvSubmit? && i == |b.orders| && Step(b, e) != b {
      SubmissionOutcome(b, e);
      BornNow(now, before, e);
      k := n;
    } else {
      k := WaitingOrigin(now, before, i);
      BornBefore(now, before, e, i, k);
      BornIndex(now, before, i, k);
    }
  }

  lemma BornIndex(now: int, events: seq<Event>, i: OrderId, k: nat)
    requires BornAt(now, events, i, k)
    ensures k < |events| && events[k].EvSubmit?
  {
  }

  lemma NothingAtFirst(now: int)
    ensures Reached(now, []) == Init(now)
  {
  }

  lemma OwnConfigKept(b: Book, e: Event)
    requires OfRepricer(e) && e.r < |b.repricers|
    ensures |Step(b, e).repricers| == |b.repricers|
    ensures
      var p, p' := b.repricers[e.r], Step(b, e).repricers[e.r];
      p'.root == p.root && p'.config == p.config && p'.startedAt == p.startedAt
  {
    hide NextPrice, CancelledOrder, PlacedOrder, FailedOrder, Replacement;
  }

  lemma ConfigKept(b: Book, e: Event, r: nat)
    requires r < |b.repricers|
    ensures r < |Step(b, e).repricers|
    ensures
      var p, p' := b.repricers[r], Step(b, e).repricers[r];
      p'.root == p.root && p'.config == p.config && p'.startedAt == p.startedAt
  {
    hide Step;
    if OfRepricer(e) {
      OnlyOwnRepricer(b, e);
      if e.r == r {
        OwnConfigKept(b, e);
      }
    } else if e.EvSubmitPlaced? {
      PlacedKeepsOthers(b, e, r);
    } else {
      RepricersKept(b, e);
    }
  }

  lemma PlacedKeepsOthers(b: Book, e: Event, r: nat)
    requires e.EvSubmitPlaced? && r < |b.repricers|
    ensures r < |Step(b, e).repricers| && Step(b, e).repricers[r] == b.repricers[r]
  {
  }

  lemma NewRepricer(b: Book, e: Event, r: nat)
    requires |b.repricers| <= r < |Step(b, e).repricers|
    ensures e.EvSubmitPlaced? && e.id in b.submitting && e.id < |b.orders| && b.submitting[e.id].Some?
    ensures
      var p := Step(b, e).repricers[r];
      p.root == e.id && p.config == b.submitting[e.id].value && p.startedAt == b.now
  {
    hide NextPrice, CancelledOrder, SweptOrder, UpdatedOrder, TripsLock, SubmitRefusal, FindByBrokerId;
    if OfRepricer(e) {
      OnlyOwnRepricer(b, e);
    }
  }

  /**
   * Every repricer works, under the configuration asked for, an order whose submission asked for repricing and
   * was no emergency; and it counts its time from the return of that order's placement.
   */
  lemma {:induction false} RepricerOrigin(now: int, events: seq<Event>, r: nat) returns (k: nat, placed: nat)
    requires r < |Reached(now, events).repricers|
    ensures
      var p := Reached(now, events).repricers[r];
      && BornAt(now, events, p.root, k) && k < |events| && events[k].EvSubmit?
      && !events[k].emergency && events[k].config == Some(p.config) && p.config.enabled
      && k < placed < |events| && events[placed].EvSubmitPlaced? && events[placed].id == p.root
      && p.startedAt == Reached(now, events[..placed]).now
    decreases |events|
  {
    hide Inv, Step, Run, BornAt, Acceptable;
    var n := |events| - 1;
    assert events != [] by {
      NothingAtFirst(now);
    }
    var before, e := events[..n], events[n];
    assert events == before + [e];
    var b := Reached(now, before);
    ReachedAppend(now, before, e);
    if r < |b.repricers| {
      k, placed := RepricerOrigin(now, before, r);
      ConfigKept(b, e, r);
      assert before[..placed] == events[..placed];
    } else {
      NewRepricer(b, e, r);
      k := WaitingOrigin(now, before, e.id);
      placed := n;
    }
    BornBefore(now, before, e, Reached(now, events).repricers[r].root, k);
    BornIndex(now, before, Reached(now, events).repricers[r].root, k);
  }

  /**
   * An order is as it was submitted, or stands in for an older one of the same terms; every order began one of these
   * ways.
   */
  lemma {:induction false} OrderOrigin(now: int, events: seq<Event>, i: OrderId) returns (k: nat)
    requires i < |Reached(now, events).orders|
    ensures
      var orders := Reached(now, events).orders;
      || (BornAt(now, events, i, k) && events[k].EvSubmit? && orders[i].quantity == events[k].decision.allowedQuantity
          && orders[i].strategy == events[k].intent.strategy && orders[i].contract == events[k].intent.contract
          && orders[i].side == events[k].intent.side && orders[i].positionId == events[k].intent.positionId
          && orders[i].firstLimit == events[k].intent.limit && orders[i].isEntry == events[k].intent.isEntry)
      || exists j :: 0 <= j < i && orders[j].supersededBy == Some(i)
    decreases |events|
  {
    hide Inv, Step, Run, BornAt, Acceptable;
    var n := |events| - 1;
    k := 0;
    assert events != [] by {
      NothingAtFirst(now);
    }
    var before, e := events[..n], events[n];
    assert events == before + [e];
    var b := Reached(now, before);
    ReachedAppend(now, before, e);
    ReachedInv(now, before);
    if i < |b.orders| {
      k := OrderOrigin(now, before, i);
      StepEvolves(b, e, i);
      if j: OrderId :| j < i && b.orders[j].supersededBy == Some(i) {
        StepEvolves(b, e, j);
      } else {
        BornBefore(now, before, e, i, k);
        BornIndex(now, before, i, k);
      }
    } else if e.EvSubmit? {
      SubmissionOutcome(b, e);
      BornNow(now, before, e);
      k := n;
    } else {
      AppendedByPoll(b, e);
    }
  }

  lemma AppendedByPoll(b: Book, e: Event)
    requires |Step(b, e).orders| > |b.orders| && !e.EvSubmit?
    ensures |Step(b, e).orders| == |b.orders| + 1
    ensures exists j :: 0 <= j < |b.orders| && Step(b, e).orders[j].supersededBy == Some(|b.orders|)
  {
    if e.EvAckPoll? {
      assert At(b, e.r);
      assert Step(b, e).orders[b.repricers[e.r].current].supersededBy == Some(|b.orders|);
    } else {
      SameSize(b, e);
    }
  }
}
