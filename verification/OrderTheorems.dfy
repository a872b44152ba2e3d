/** Safety of the order book over whole runs: conservation, replacement chains, hard cancels, the lock. */
module OrderTheorems {
  import opened Domain
  import opened Pricing
  import opened Orders
  import opened OrderChains

  function Reached(now: int, events: seq<Event>): Book {
    Run(Init(now), events)
  }

  lemma {:induction false} RunAppend(b: Book, first: seq<Event>, second: seq<Event>)
    ensures Run(b, first + second) == Run(Run(b, first), second)
    decreases |first|
  {
    if first == [] {
      assert first + second == second;
    } else {
      assert (first + second)[1..] == first[1..] + second;
      RunAppend(Step(b, first[0]), first[1..], second);
    }
  }

  lemma ReachedAppend(now: int, events: seq<Event>, e: Event)
    ensures Reached(now, events + [e]) == Step(Reached(now, events), e)
  {
    hide Step;
    RunAppend(Init(now), events, [e]);
    assert [e][1..] == [];
  }

  /** A run given by all its books. */
  lemma {:induction false} RunThrough(books: seq<Book>, events: seq<Event>)
    requires |books| == |events| + 1
    requires forall k :: 0 <= k < |events| ==> Step(books[k], events[k]) == books[k + 1]
    ensures Run(books[0], events) == books[|events|]
    decreases |events|
  {
    hide Step;
    if events != [] {
      assert forall k :: 0 <= k < |events| - 1 ==> books[1..][k] == books[k + 1] && events[1..][k] == events[k + 1];
      RunThrough(books[1..], events[1..]);
    }
  }

  lemma ReachedInv(now: int, events: seq<Event>)
    ensures Inv(Reached(now, events)) && Forward(Reached(now, events).orders)
  {
    RunKeeps(Init(now), events);
    InvForward(Reached(now, events));
  }

  lemma ReachedLinks(now: int, events: seq<Event>)
    ensures
      var orders := Reached(now, events).orders;
      Forward(orders) && forall j :: 0 <= j < |orders| ==> LinkOk(orders, j)
  {
    ReachedInv(now, events);
    var b := Reached(now, events);
    forall j | 0 <= j < |b.orders| ensures LinkOk(b.orders, j) {
      assert OrderOk(b, j);
    }
  }

  // ---------------------------------------------------------------
  // What one step may do to one order
  // ---------------------------------------------------------------

  /** Is e the return of order i's own placement? */
  predicate PlacementReturns(b: Book, e: Event, i: OrderId) {
    || (e.EvSubmitPlaced? && e.id == i && i in b.submitting)
    || (e.EvReplacementPlaced? && e.r < |b.repricers| && b.repricers[e.r].phase == Placing(i))
  }

  predicate Reported(b: Book, e: Event, i: OrderId) {
    e.EvBrokerUpdate? && FindByBrokerId(b.orders, e.brokerId) == Some(i)
  }

  predicate AmendedBy(b: Book, e: Event, i: OrderId) {
    e.EvModifyReply? && At(b, e.r) && b.repricers[e.r].current == i && b.repricers[e.r].phase.Modifying?
  }

  predicate ReplacedBy(b: Book, e: Event, i: OrderId) {
    e.EvAckPoll? && Replaces(b, e.r) && b.repricers[e.r].current == i
  }

  /** The complete list of changes a step makes to an existing order. */
  predicate Moved(b: Book, e: Event, i: OrderId, o: Order, o': Order) {
    || o' == o
    || o' == CancelledOrder(o, true, b.now)
    || o' == CancelledOrder(o, false, b.now)
    || (e.EvSweep? && o' == SweptOrder(o, e.report, e.at))
    || (Reported(b, e, i) && o' == UpdatedOrder(o, e.status, e.filled, b.now))
    || (AmendedBy(b, e, i) && o' == o.(limit := o'.limit, updatedAt := b.now))
    || (e.EvRecancelled? && o' == o.(updatedAt := e.at))
    || (o' == FailedOrder(o, b.now) && (o.brokerId.Some? || o.supersededBy.None?))
    || (PlacementReturns(b, e, i) && o.brokerId.None? && o.supersededBy.None?
        && o' == PlacedOrder(o, e.brokerId, e.status, b.now))
    || (ReplacedBy(b, e, i) && o.status == Cancelled && !o.hardCancel && o.brokerId.Some? && o.supersededBy.None?
        && o.filled < o.quantity && o' == o.(supersededBy := Some(|b.orders|)))
  }

  lemma PlainMove(b: Book, e: Event, i: OrderId)
    requires i < |b.orders| && OrderOk(b, i) && !OfRepricer(e)
    requires i in b.cancelCalls ==> b.orders[i].brokerId.Some?
    ensures i < |Step(b, e).orders| && Moved(b, e, i, b.orders[i], Step(b, e).orders[i])
  {
  }

  lemma StartReplaceMove(b: Book, r: nat, price: real, e: Event, i: OrderId)
    requires i < |b.orders| && At(b, r)
    ensures i < |StartReplace(b, r, price).orders| && Moved(b, e, i, b.orders[i], StartReplace(b, r, price).orders[i])
  {
  }

  lemma AckPollMove(b: Book, r: nat, e: Event, i: OrderId)
    requires i < |b.orders| && r < |b.repricers| && RepricerOk(b, b.repricers[r]) && e == EvAckPoll(r)
    ensures i < |AckPoll(b, r).orders| && Moved(b, e, i, b.orders[i], AckPoll(b, r).orders[i])
  {
  }

  lemma QuotedMove(b: Book, r: nat, quote: Option<Quote>, e: Event, i: OrderId)
    requires i < |b.orders|
    ensures i < |Quoted(b, r, quote).orders| && Moved(b, e, i, b.orders[i], Quoted(b, r, quote).orders[i])
  {
    if At(b, r) && quote.Some? && quote.value.bid.Some? && quote.value.ask.Some? {
      var p, o := b.repricers[r], CurrentOrder(b, r);
      StartReplaceMove(b, r,
        NextPrice(o.side, o.limit, quote.value.bid.value, quote.value.ask.value, p.attempts, p.config), e, i);
    }
  }

  lemma ModifyReplyMove(b: Book, r: nat, modified: bool, e: Event, i: OrderId)
    requires i < |b.orders| && e == EvModifyReply(r, modified)
    ensures i < |ModifyReply(b, r, modified).orders|
    ensures Moved(b, e, i, b.orders[i], ModifyReply(b, r, modified).orders[i])
  {
    if At(b, r) && b.repricers[r].phase.Modifying? {
      StartReplaceMove(b, r, b.repricers[r].phase.price, e, i);
    }
  }

  lemma PlacementMove(b: Book, e: Event, i: OrderId)
    requires i < |b.orders| && (e.EvReplacementPlaced? || e.EvReplacementFailed?)
    requires e.r < |b.repricers| && RepricerOk(b, b.repricers[e.r])
    ensures i < |Step(b, e).orders| && Moved(b, e, i, b.orders[i], Step(b, e).orders[i])
  {
  }

  lemma RepricerMove(b: Book, e: Event, i: OrderId)
    requires i < |b.orders| && OfRepricer(e) && e.r < |b.repricers| && RepricerOk(b, b.repricers[e.r])
    ensures i < |Step(b, e).orders| && Moved(b, e, i, b.orders[i], Step(b, e).orders[i])
  {
    match e
    case EvWake(r) =>
    case EvQuoted(r, quote) => QuotedMove(b, r, quote, e, i);
    case EvModifyReply(r, modified) => ModifyReplyMove(b, r, modified, e, i);
    case EvCancelReply(r, reply) =>
    case EvAckPoll(r) => AckPollMove(b, r, e, i);
    case EvReplacementPlaced(r, brokerId, status) => PlacementMove(b, e, i);
    case EvReplacementFailed(r) => PlacementMove(b, e, i);
  }

  lemma NoRepricerNoMove(b: Book, e: Event)
    requires OfRepricer(e) && e.r >= |b.repricers|
    ensures Step(b, e) == b
  {
  }

  lemma StepMove(b: Book, e: Event, i: OrderId)
    requires Inv(b) && i < |b.orders|
    ensures OrderOk(b, i)
    ensures i < |Step(b, e).orders| && Moved(b, e, i, b.orders[i], Step(b, e).orders[i])
  {
    assert OrderOk(b, i);
    assert i in b.cancelCalls ==> b.orders[i].brokerId.Some?;
    assert forall r :: 0 <= r < |b.repricers| ==> RepricerOk(b, b.repricers[r]);
    if OfRepricer(e) && e.r >= |b.repricers| {
      NoRepricerNoMove(b, e);
    }
    assert Moved(b, e, i, b.orders[i], b.orders[i]);
    hide Inv, OrderOk, RepricerOk, Moved, Step;
    if OfRepricer(e) {
      if e.r < |b.repricers| {
        RepricerMove(b, e, i);
      }
    } else {
      PlainMove(b, e, i);
    }
  }

  // ---------------------------------------------------------------
  // Conservation along a chain
  // ---------------------------------------------------------------

  lemma {:induction false} ChainAccounts(orders: seq<Order>, i: OrderId, k: nat)
    requires Forward(orders) && i < |orders| && forall j :: 0 <= j < |orders| ==> LinkOk(orders, j)
    requires k < |Chain(orders, i)|
    ensures
      var c := Chain(orders, i);
      && SumFilled(orders, c[..k]) + orders[c[k]].quantity == orders[i].quantity
      && SameTerms(orders[i], orders[c[k]])
      && (k < |c| - 1 ==> Ended(orders[c[k]]))
    decreases k
  {
    assert LinkOk(orders, i);
    if k > 0 {
      var c := Chain(orders, i);
      var next := orders[i].supersededBy.value;
      var c' := Chain(orders, next);
      assert c == [i] + c';
      ChainAccounts(orders, next, k - 1);
      assert c[..k] == [i] + c'[..k - 1];
      assert c[..k][1..] == c'[..k - 1];
    }
  }

  lemma {:induction false} SumFilledAppend(orders: seq<Order>, ids: seq<OrderId>, id: OrderId)
    requires id < |orders| && forall k :: 0 <= k < |ids| ==> ids[k] < |orders|
    ensures SumFilled(orders, ids + [id]) == SumFilled(orders, ids) + orders[id].filled
  {
    if ids != [] {
      SumFilledAppend(orders, ids[1..], id);
      assert (ids + [id])[1..] == ids[1..] + [id];
    }
  }

  /**
   * In every reachable book and along every chain: what earlier orders filled plus what the
   * k-th asks for is what the first asked for, the terms never change, and every order but
   * the last is over. So at most the last can be live.
   */
  lemma ChainConservation(now: int, events: seq<Event>, i: OrderId)
    requires i < |Reached(now, events).orders|
    ensures
      var orders := Reached(now, events).orders;
      && Forward(orders)
      && var c := Chain(orders, i);
      && (forall k :: 0 <= k < |c| ==>
            && SumFilled(orders, c[..k]) + orders[c[k]].quantity == orders[i].quantity
            && SameTerms(orders[i], orders[c[k]])
            && (k < |c| - 1 ==> Ended(orders[c[k]])))
      && SumFilled(orders, c) + (orders[Last(c)].quantity - orders[Last(c)].filled) == orders[i].quantity
  {
    ReachedLinks(now, events);
    var orders := Reached(now, events).orders;
    var c := Chain(orders, i);
    forall k | 0 <= k < |c|
      ensures SumFilled(orders, c[..k]) + orders[c[k]].quantity == orders[i].quantity
      ensures SameTerms(orders[i], orders[c[k]])
      ensures k < |c| - 1 ==> Ended(orders[c[k]])
    {
      ChainAccounts(orders, i, k);
    }
    assert c == c[..|c| - 1] + [Last(c)];
    SumFilledAppend(orders, c[..|c| - 1], Last(c));
  }

  /** The broker never reports more filled than the order it reports on asked for. */
  predicate Honest(b: Book, e: Event) {
    e.EvBrokerUpdate? && FindByBrokerId(b.orders, e.brokerId).Some? ==>
      e.filled <= b.orders[FindByBrokerId(b.orders, e.brokerId).value].quantity
  }

  predicate HonestRun(b: Book, events: seq<Event>)
    decreases |events|
  {
    events == [] || (Honest(b, events[0]) && HonestRun(Step(b, events[0]), events[1..]))
  }

  predicate NoOverfill(b: Book) {
    forall i :: 0 <= i < |b.orders| ==> b.orders[i].filled <= b.orders[i].quantity
  }

  lemma NewOrdersUnfilled(b: Book, e: Event, i: OrderId)
    requires |b.orders| <= i < |Step(b, e).orders|
    ensures Step(b, e).orders[i].filled == 0
  {
    hide NextPrice, SweptOrder, CancelledOrder, UpdatedOrder, TripsLock, FindByBrokerId;
    if !e.EvSubmit? && !e.EvAckPoll? {
      SameSize(b, e);
    }
  }

  lemma SameSize(b: Book, e: Event)
    requires !e.EvSubmit? && !e.EvAckPoll?
    ensures |Step(b, e).orders| == |b.orders|
  {
    hide NextPrice, SweptOrder, CancelledOrder, UpdatedOrder, TripsLock;
  }

  lemma MovedFills(b: Book, e: Event, i: OrderId, o: Order, o': Order)
    requires Moved(b, e, i, o, o')
    ensures o'.quantity == o.quantity && (o'.filled == o.filled || (Reported(b, e, i) && o'.filled == e.filled))
  {
    hide FindByBrokerId, PlacementReturns;
    if o' == CancelledOrder(o, true, b.now) {
    } else if o' == CancelledOrder(o, false, b.now) {
    } else if e.EvSweep? && o' == SweptOrder(o, e.report, e.at) {
    } else if Reported(b, e, i) && o' == UpdatedOrder(o, e.status, e.filled, b.now) {
    }
  }

  lemma StepNoOverfill(b: Book, e: Event)
    requires Inv(b) && NoOverfill(b) && Honest(b, e)
    ensures NoOverfill(Step(b, e))
  {
    var b' := Step(b, e);
    StepKeeps(b, e);
    forall i | 0 <= i < |b'.orders| ensures b'.orders[i].filled <= b'.orders[i].quantity {
      if i < |b.orders| {
        StepMove(b, e, i);
        MovedFills(b, e, i, b.orders[i], b'.orders[i]);
      } else {
        NewOrdersUnfilled(b, e, i);
        assert OrderOk(b', i);
      }
    }
  }

  lemma {:induction false} RunNoOverfill(b: Book, events: seq<Event>)
    requires Inv(b) && NoOverfill(b) && HonestRun(b, events)
    ensures NoOverfill(Run(b, events))
    decreases |events|
  {
    hide Inv, Step;
    if events != [] {
      StepNoOverfill(b, events[0]);
      StepKeeps(b, events[0]);
      RunNoOverfill(Step(b, events[0]), events[1..]);
    }
  }

  /** However often it is replaced, an order never fills more than the risk engine allowed. */
  lemma ChainNeverOverfills(now: int, events: seq<Event>, i: OrderId)
    requires i < |Reached(now, events).orders| && HonestRun(Init(now), events)
    ensures
      var orders := Reached(now, events).orders;
      Forward(orders) && SumFilled(orders, Chain(orders, i)) <= orders[i].quantity
  {
    RunNoOverfill(Init(now), events);
    ChainConservation(now, events, i);
  }

  // ---------------------------------------------------------------
  // Bounded replacement
  // ---------------------------------------------------------------

  lemma {:induction false} TrailIsChain(b: Book, trail: seq<OrderId>)
    requires Inv(b) && Forward(b.orders) && TrailOk(b, trail)
    ensures Chain(b.orders, trail[0]) == trail
    decreases |trail|
  {
    hide Inv, Forward;
    if |trail| > 1 {
      var rest := trail[1..];
      assert forall k :: 0 <= k < |rest| ==> rest[k] == trail[k + 1];
      TrailIsChain(b, rest);
      assert b.orders[trail[0]].supersededBy == Some(trail[1]);
      assert trail == [trail[0]] + rest;
    }
  }

  lemma {:induction false} ChainSuffix(orders: seq<Order>, i: OrderId, k: nat)
    requires Forward(orders) && i < |orders| && k < |Chain(orders, i)|
    ensures Chain(orders, Chain(orders, i)[k]) == Chain(orders, i)[k..]
    decreases k
  {
    if k > 0 {
      ChainSuffix(orders, orders[i].supersededBy.value, k - 1);
    }
  }

  /** Replacements and in-place price changes of one repricer never exceed its attempt limit. */
  lemma AttemptsBounded(now: int, events: seq<Event>, r: nat)
    requires r < |Reached(now, events).repricers|
    ensures
      var b := Reached(now, events);
      var p := b.repricers[r];
      && p.root < |b.orders| && Forward(b.orders)
      && |Chain(b.orders, p.root)| - 1 + p.amended <= p.config.maxAttempts
  {
    ReachedInv(now, events);
    var b := Reached(now, events);
    assert RepricerOk(b, b.repricers[r]);
    TrailIsChain(b, b.repricers[r].trail);
  }

  lemma TrailsAreChains(b: Book, r: nat)
    requires Inv(b) && Forward(b.orders) && r < |b.repricers|
    ensures
      var p := b.repricers[r];
      && p.root < |b.orders| && Chain(b.orders, p.root) == p.trail
      && |p.trail| - 1 <= p.config.maxAttempts
  {
    assert RepricerOk(b, b.repricers[r]);
    TrailIsChain(b, b.repricers[r].trail);
  }

  lemma OnOneTrail(b: Book, i: OrderId) returns (r: nat, k: nat)
    requires Inv(b) && i < |b.orders| && b.orders[i].supersededBy.Some?
    ensures r < |b.repricers| && k < |b.repricers[r].trail| && b.repricers[r].trail[k] == i
    ensures forall r' :: 0 <= r' < |b.repricers| && r' != r ==> i !in b.repricers[r'].trail
  {
    assert Covered(b.orders, b.repricers) && Disjoint(b.repricers);
    hide Inv;
    r :| 0 <= r < |b.repricers| && i in b.repricers[r].trail;
    k :| 0 <= k < |b.repricers[r].trail| && b.repricers[r].trail[k] == i;
  }

  /** Every replaced order lies on the chain of exactly one repricer, and its own chain is no longer. */
  lemma ReplacedByOneRepricer(now: int, events: seq<Event>, i: OrderId) returns (r: nat)
    requires i < |Reached(now, events).orders| && Reached(now, events).orders[i].supersededBy.Some?
    ensures
      var b := Reached(now, events);
      && r < |b.repricers| && Forward(b.orders)
      && b.repricers[r].root < |b.orders| && i in Chain(b.orders, b.repricers[r].root)
      && |Chain(b.orders, i)| - 1 <= b.repricers[r].config.maxAttempts
      && forall r' :: 0 <= r' < |b.repricers| && r' != r ==>
           b.repricers[r'].root < |b.orders| && i !in Chain(b.orders, b.repricers[r'].root)
  {
    ReachedInv(now, events);
    hide Inv, Reached, Forward;
    var b := Reached(now, events);
    var k: nat;
    r, k := OnOneTrail(b, i);
    TrailsAreChains(b, r);
    ChainSuffix(b.orders, b.repricers[r].root, k);
    forall r' | 0 <= r' < |b.repricers| && r' != r
      ensures b.repricers[r'].root < |b.orders| && i !in Chain(b.orders, b.repricers[r'].root)
    {
      TrailsAreChains(b, r');
    }
  }

  // ---------------------------------------------------------------
  // What no step ever undoes
  // ---------------------------------------------------------------

  predicate Evolves(o: Order, o': Order) {
    && SameTerms(o, o') && o'.quantity == o.quantity
    && (o.hardCancel ==> o'.hardCancel)
    && (o.brokerId.Some? ==> o'.brokerId == o.brokerId)
    && (o.supersededBy.Some? ==> o'.supersededBy == o.supersededBy && Ended(o'))
    && (o.hardCancel && o.supersededBy.None? ==> o'.supersededBy.None?)
    && (Terminal(o.status) ==> o'.filled == o.filled)
    && (Terminal(o.status) && o.brokerId.Some? ==> Terminal(o'.status))
  }

  /** Neither broker ever reports the internal status RISK_CHECKED. */
  predicate Mapped(e: Event) {
    && (e.EvBrokerUpdate? ==> e.status != RiskChecked)
  }

  /** The broker knows the order and it is no longer working. */
  predicate GivenUp(o: Order) {
    o.brokerId.Some? && !Working(o.status)
  }

  lemma CancelledEvolves(o: Order, hard: bool, now: int)
    requires o.supersededBy.Some? ==> Ended(o)
    ensures Evolves(o, CancelledOrder(o, hard, now))
    ensures GivenUp(o) ==> GivenUp(CancelledOrder(o, hard, now))
  {
  }

  lemma SweptEvolves(o: Order, report: Report, at: int)
    requires o.supersededBy.Some? ==> Ended(o)
    ensures Evolves(o, SweptOrder(o, report, at))
    ensures GivenUp(o) ==> GivenUp(SweptOrder(o, report, at))
  {
  }

  lemma UpdatedEvolves(o: Order, status: Status, filled: nat, now: int)
    requires o.supersededBy.Some? ==> Ended(o)
    ensures Evolves(o, UpdatedOrder(o, status, filled, now))
    ensures GivenUp(o) && status != RiskChecked ==> GivenUp(UpdatedOrder(o, status, filled, now))
  {
  }

  lemma MovedEvolves(b: Book, e: Event, i: OrderId, o: Order, o': Order)
    requires Moved(b, e, i, o, o') && (o.supersededBy.Some? ==> Ended(o) && o.brokerId.Some?)
    ensures Evolves(o, o')
    ensures GivenUp(o) && Mapped(e) ==> GivenUp(o')
  {
    if o' == CancelledOrder(o, true, b.now) {
      CancelledEvolves(o, true, b.now);
    } else if o' == CancelledOrder(o, false, b.now) {
      CancelledEvolves(o, false, b.now);
    } else if e.EvSweep? && o' == SweptOrder(o, e.report, e.at) {
      SweptEvolves(o, e.report, e.at);
    } else if Reported(b, e, i) && o' == UpdatedOrder(o, e.status, e.filled, b.now) {
      UpdatedEvolves(o, e.status, e.filled, b.now);
    }
  }

  lemma StepEvolves(b: Book, e: Event, i: OrderId)
    requires Inv(b) && i < |b.orders|
    ensures i < |Step(b, e).orders| && Evolves(b.orders[i], Step(b, e).orders[i])
  {
    StepMove(b, e, i);
    MovedEvolves(b, e, i, b.orders[i], Step(b, e).orders[i]);
  }

  /** A superseded order is over for good: same successor, same fills, never live again. */
  lemma {:induction false} SupersededFrozen(b: Book, events: seq<Event>, i: OrderId)
    requires Inv(b) && i < |b.orders| && b.orders[i].supersededBy.Some?
    ensures i < |Run(b, events).orders|
    ensures
      var o, o' := b.orders[i], Run(b, events).orders[i];
      && o'.supersededBy == o.supersededBy && o'.filled == o.filled
      && o'.quantity == o.quantity && SameTerms(o, o') && Ended(o')
    decreases |events|
  {
    assert OrderOk(b, i);
    hide Inv, Step;
    if events != [] {
      StepEvolves(b, events[0], i);
      StepKeeps(b, events[0]);
      SupersededFrozen(Step(b, events[0]), events[1..], i);
    }
  }

  /**
   * Once the last order of a chain is hard-cancelled, no interleaving appends another, also
   * when the cancel lands while that order's own placement is outstanding.
   */
  lemma {:induction false} NoReplacementAfterHardCancel(b: Book, events: seq<Event>, i: OrderId)
    requires Inv(b) && i < |b.orders| && b.orders[i].hardCancel && b.orders[i].supersededBy.None?
    ensures i < |Run(b, events).orders|
    ensures Run(b, events).orders[i].hardCancel && Run(b, events).orders[i].supersededBy.None?
    decreases |events|
  {
    hide Inv, Step;
    if events != [] {
      StepEvolves(b, events[0], i);
      StepKeeps(b, events[0]);
      NoReplacementAfterHardCancel(Step(b, events[0]), events[1..], i);
    }
  }

  /** The same over chains: the chain through a hard-cancelled last order never grows again. */
  lemma {:induction false} ChainStopsAtHardCancel(b: Book, events: seq<Event>, i: OrderId)
    requires Inv(b) && i < |b.orders| && Forward(b.orders)
    requires b.orders[Last(Chain(b.orders, i))].hardCancel
    ensures
      var orders := Run(b, events).orders;
      Forward(orders) && i < |orders| && Chain(orders, i) == Chain(b.orders, i)
    decreases |b.orders| - i
  {
    RunKeeps(b, events);
    InvForward(Run(b, events));
    if b.orders[i].supersededBy.None? {
      NoReplacementAfterHardCancel(b, events, i);
    } else {
      SupersededFrozen(b, events, i);
      ChainStopsAtHardCancel(b, events, b.orders[i].supersededBy.value);
    }
  }

  /** With a broker id, the terminal statuses are closed and the fills fixed. */
  lemma {:induction false} TerminalClosed(b: Book, events: seq<Event>, i: OrderId)
    requires Inv(b) && i < |b.orders| && b.orders[i].brokerId.Some? && Terminal(b.orders[i].status)
    ensures i < |Run(b, events).orders|
    ensures Terminal(Run(b, events).orders[i].status) && Run(b, events).orders[i].filled == b.orders[i].filled
    decreases |events|
  {
    hide Inv, Step;
    if events != [] {
      StepEvolves(b, events[0], i);
      StepKeeps(b, events[0]);
      TerminalClosed(Step(b, events[0]), events[1..], i);
    }
  }

  /** An order leaves the terminal statuses exactly when its placement returns after it was given up locally. */
  lemma TerminalLeftIff(b: Book, e: Event, i: OrderId)
    requires Inv(b) && i < |b.orders| && Terminal(b.orders[i].status)
    ensures i < |Step(b, e).orders|
    ensures !Terminal(Step(b, e).orders[i].status) <==> PlacementReturns(b, e, i) && !Terminal(e.status)
  {
    StepMove(b, e, i);
    if PlacementReturns(b, e, i) {
      PlacementSets(b, e, i);
    } else {
      hide Step, Inv, OrderOk, SameTerms;
      MovedStaysTerminal(b, e, i, b.orders[i], Step(b, e).orders[i]);
    }
  }

  lemma PlacementSets(b: Book, e: Event, i: OrderId)
    requires i < |b.orders| && PlacementReturns(b, e, i)
    ensures i < |Step(b, e).orders| && Step(b, e).orders[i].status == e.status
  {
  }

  lemma MovedStaysTerminal(b: Book, e: Event, i: OrderId, o: Order, o': Order)
    requires Moved(b, e, i, o, o') && Terminal(o.status) && !PlacementReturns(b, e, i)
    ensures Terminal(o'.status)
  {
    hide FindByBrokerId, PlacementReturns, Replacement;
    if o' == CancelledOrder(o, true, b.now) {
    } else if o' == CancelledOrder(o, false, b.now) {
    } else if e.EvSweep? && o' == SweptOrder(o, e.report, e.at) {
    } else if Reported(b, e, i) && o' == UpdatedOrder(o, e.status, e.filled, b.now) {
    }
  }

  // ---------------------------------------------------------------
  // Which cancellations trip the lock
  // ---------------------------------------------------------------

  /** A report trips the lock exactly when it ends an order that was still working. */
  lemma TripsIffWorking(b: Book, brokerId: int, status: Status, filled: nat, i: OrderId)
    requires i < |b.orders| && i !in b.rejected
    ensures i in BrokerUpdate(b, brokerId, status, filled).rejected <==>
            FindByBrokerId(b.orders, brokerId) == Some(i) && Working(b.orders[i].status) && Dead(status)
  {
  }

  predicate AllMapped(events: seq<Event>) {
    forall k :: 0 <= k < |events| ==> Mapped(events[k])
  }

  lemma RejectedOnlyByReport(b: Book, e: Event, i: OrderId)
    requires i < |b.orders| && i in Step(b, e).rejected && i !in b.rejected
    ensures Working(b.orders[i].status)
  {
    if e.EvBrokerUpdate? {
      TripsIffWorking(b, e.brokerId, e.status, e.filled, i);
    }
  }

  lemma StepGivenUp(b: Book, e: Event, i: OrderId)
    requires Inv(b) && i < |b.orders| && GivenUp(b.orders[i]) && Mapped(e)
    ensures i < |Step(b, e).orders| && GivenUp(Step(b, e).orders[i])
    ensures i in Step(b, e).rejected ==> i in b.rejected
  {
    StepMove(b, e, i);
    MovedEvolves(b, e, i, b.orders[i], Step(b, e).orders[i]);
    if i in Step(b, e).rejected && i !in b.rejected {
      RejectedOnlyByReport(b, e, i);
    }
  }

  /**
   * Once our own cancellation has marked an order that the broker knows, no later sequence of
   * reports trips the lock for it or makes it work again.
   */
  lemma {:induction false} OwnCancelNeverTrips(b: Book, events: seq<Event>, i: OrderId)
    requires Inv(b) && i < |b.orders| && GivenUp(b.orders[i]) && AllMapped(events)
    ensures i < |Run(b, events).orders| && GivenUp(Run(b, events).orders[i])
    ensures i in Run(b, events).rejected ==> i in b.rejected
    decreases |events|
  {
    hide Inv, Step;
    if events != [] {
      StepGivenUp(b, events[0], i);
      StepKeeps(b, events[0]);
      OwnCancelNeverTrips(Step(b, events[0]), events[1..], i);
    }
  }

  // ---------------------------------------------------------------
  // Cancelling a list of orders, one awaited cancellation after the other
  // ---------------------------------------------------------------

  /**
   * Hard-cancel order i if it is working when its turn comes; `pause(i)` is what interleaves until the broker answers.
   */
  function Turn(b: Book, i: OrderId, pause: OrderId -> seq<Event>): Book {
    if i < |b.orders| && Working(b.orders[i].status) then Run(Cancel(b, i, true), pause(i)) else b
  }

  function CancelEach(b: Book, ids: seq<OrderId>, pause: OrderId -> seq<Event>): Book {
    var n := |ids| - 1;
    if ids == [] then b else Turn(CancelEach(b, ids[..n], pause), ids[n], pause)
  }

  /** Nothing interleaves. */
  function Quiet(i: OrderId): seq<Event> {
    []
  }

  ghost predicate PausesMapped(pause: OrderId -> seq<Event>) {
    forall i :: AllMapped(pause(i))
  }

  lemma AllMappedAppend(first: seq<Event>, second: seq<Event>)
    requires AllMapped(first) && AllMapped(second)
    ensures AllMapped(first + second)
  {
  }

  /** A turn is a run of the machine, and so is a list of turns. */
  lemma TurnIsRun(b: Book, i: OrderId, pause: OrderId -> seq<Event>) returns (events: seq<Event>)
    ensures Turn(b, i, pause) == Run(b, events)
    ensures PausesMapped(pause) ==> AllMapped(events)
  {
    hide Cancel;
    events := [];
    if i < |b.orders| && Working(b.orders[i].status) {
      events := [EvCancel(i, true)] + pause(i);
      assert events[1..] == pause(i);
    }
  }

  lemma {:induction false} CancelEachIsRun(b: Book, ids: seq<OrderId>, pause: OrderId -> seq<Event>)
    returns (events: seq<Event>)
    ensures CancelEach(b, ids, pause) == Run(b, events)
    ensures PausesMapped(pause) ==> AllMapped(events)
  {
    hide Turn, Run, AllMapped;
    if ids == [] {
      events := [];
      NothingRuns(b);
    } else {
      var n := |ids| - 1;
      var before := CancelEachIsRun(b, ids[..n], pause);
      var last := TurnIsRun(CancelEach(b, ids[..n], pause), ids[n], pause);
      RunAppend(b, before, last);
      if PausesMapped(pause) {
        AllMappedAppend(before, last);
      }
      events := before + last;
    }
  }

  /** The stuck-cancel sweep, with whatever interleaves, is a run too: every theorem about runs covers it. */
  lemma {:induction false} SweepAllIsRun(b: Book, n: nat, at: int, reports: OrderId -> Report,
                                         recancels: OrderId -> bool, pause: OrderId -> seq<Event>)
    returns (events: seq<Event>)
    ensures SweepAll(b, n, at, reports, recancels, pause) == Run(b, events)
    ensures forall k :: 0 <= k < |events| ==> OfSweep(events[k], pause)
  {
    hide Run, Sweep, Recancelled, OfSweep;
    events := [];
    if n == 0 {
      NothingRuns(b);
    } else {
      var before := SweepAllIsRun(b, n - 1, at, reports, recancels, pause);
      var t := Run(b, before);
      var own := SweepTurnIsRun(t, n - 1, at, reports, recancels, pause);
      events := before + own;
      RunAppend(b, before, own);
    }
  }

  /** An event of the sweep itself, or one that interleaves with it. */
  ghost predicate OfSweep(e: Event, pause: OrderId -> seq<Event>) {
    e.EvSweep? || e.EvRecancelled? || exists i :: e in pause(i)
  }

  lemma SweepTurnIsRun(t: Book, i: OrderId, at: int, reports: OrderId -> Report, recancels: OrderId -> bool,
                       pause: OrderId -> seq<Event>) returns (events: seq<Event>)
    ensures
      var swept := Sweep(t, i, reports(i), at);
      Run(t, events) == if !Reissues(t, i, reports(i), at) then swept
                        else if recancels(i) then Recancelled(Run(swept, pause(i)), i, at) else Run(swept, pause(i))
    ensures forall k :: 0 <= k < |events| ==> OfSweep(events[k], pause)
  {
    hide Run, Sweep, Recancelled;
    RunOne(t, EvSweep(i, reports(i), at));
    events := [EvSweep(i, reports(i), at)];
    if Reissues(t, i, reports(i), at) {
      RunAppend(t, events, pause(i));
      events := events + pause(i);
      if recancels(i) {
        RunOne(Run(t, events), EvRecancelled(i, at));
        RunAppend(t, events, [EvRecancelled(i, at)]);
        events := events + [EvRecancelled(i, at)];
      }
    }
  }

  lemma RunOne(b: Book, e: Event)
    ensures Run(b, [e]) == Step(b, e)
  {
    hide Step;
    assert [e][1..] == [];
  }

  lemma NothingRuns(b: Book)
    ensures Run(b, []) == b && AllMapped([])
  {
  }

  lemma {:induction false} CancelEachSplit(b: Book, ids: seq<OrderId>, k: nat, pause: OrderId -> seq<Event>)
    requires k <= |ids|
    ensures CancelEach(b, ids, pause) == CancelEach(CancelEach(b, ids[..k], pause), ids[k..], pause)
    decreases |ids|
  {
    hide Turn;
    var n := |ids| - 1;
    if k == |ids| {
      assert ids[..k] == ids;
    } else {
      assert ids[..n][..k] == ids[..k] && ids[k..][..n - k] == ids[..n][k..];
      CancelEachSplit(b, ids[..n], k, pause);
    }
  }

  lemma CancelStops(b: Book, i: OrderId)
    requires i < |b.orders| && Working(b.orders[i].status)
    ensures
      var b' := Step(b, EvCancel(i, true));
      && b' == Cancel(b, i, true) && i < |b'.orders|
      && b'.orders[i].hardCancel && b'.orders[i].supersededBy == b.orders[i].supersededBy
      && b'.orders[i].brokerId == b.orders[i].brokerId && (b.orders[i].brokerId.Some? ==> GivenUp(b'.orders[i]))
  {
  }

  /**
   * A working order is stopped by its turn: hard-cancelled, its chain at an end, and given up if the broker knew it.
   */
  lemma TurnStops(b: Book, i: OrderId, pause: OrderId -> seq<Event>)
    requires Inv(b) && PausesMapped(pause) && i < |b.orders| && Working(b.orders[i].status)
    ensures
      var b' := Turn(b, i, pause);
      && i < |b'.orders| && b'.orders[i].hardCancel && b'.orders[i].supersededBy.None?
      && (b.orders[i].brokerId.Some? ==> GivenUp(b'.orders[i]))
  {
    hide Inv, Step, Cancel, Run, GivenUp;
    WorkingIsLast(b, i);
    CancelStops(b, i);
    StepKeeps(b, EvCancel(i, true));
    NoReplacementAfterHardCancel(Cancel(b, i, true), pause(i), i);
    if b.orders[i].brokerId.Some? {
      OwnCancelNeverTrips(Cancel(b, i, true), pause(i), i);
    }
  }

  lemma WorkingIsLast(b: Book, i: OrderId)
    requires Inv(b) && i < |b.orders|
    ensures Working(b.orders[i].status) ==> b.orders[i].supersededBy.None?
    ensures b.orders[i].brokerId.Some? && !Working(b.orders[i].status) ==> GivenUp(b.orders[i])
  {
    assert OrderOk(b, i);
  }

  /**
   * Of the listed orders, each one the broker knew at its turn is no longer working at the end, and
   * each one working at its turn is hard-cancelled and ends its chain.
   */
  lemma EachIsStopped(b: Book, ids: seq<OrderId>, k: nat, pause: OrderId -> seq<Event>)
    requires Inv(b) && PausesMapped(pause) && k < |ids| && ids[k] < |b.orders|
    ensures
      var i, t, b' := ids[k], CancelEach(b, ids[..k], pause), CancelEach(b, ids, pause);
      && Inv(t) && Inv(b') && i < |t.orders| && i < |b'.orders|
      && (t.orders[i].brokerId.Some? ==> GivenUp(b'.orders[i]))
      && (Working(t.orders[i].status) ==> b'.orders[i].hardCancel && b'.orders[i].supersededBy.None?)
  {
    hide Inv, CancelEach, Turn, Run, GivenUp, AllMapped;
    var i := ids[k];
    var before := CancelEachIsRun(b, ids[..k], pause);
    var t := CancelEach(b, ids[..k], pause);
    RunKeeps(b, before);
    RunGrows(b, before);
    var own := TurnIsRun(t, i, pause);
    var t' := Turn(t, i, pause);
    RunKeeps(t, own);
    RunGrows(t, own);
    CancelEachStep(b, ids, k, pause);
    CancelEachSplit(b, ids, k + 1, pause);
    var rest := CancelEachIsRun(t', ids[k + 1..], pause);
    RunKeeps(t', rest);
    RunGrows(t', rest);
    WorkingIsLast(t, i);
    if Working(t.orders[i].status) {
      TurnStops(t, i, pause);
      NoReplacementAfterHardCancel(t', rest, i);
    } else if t.orders[i].brokerId.Some? {
      OwnCancelNeverTrips(t, own, i);
    }
    if t.orders[i].brokerId.Some? {
      OwnCancelNeverTrips(t', rest, i);
    }
  }

  lemma CancelEachStep(b: Book, ids: seq<OrderId>, k: nat, pause: OrderId -> seq<Event>)
    requires k < |ids|
    ensures CancelEach(b, ids[..k + 1], pause) == Turn(CancelEach(b, ids[..k], pause), ids[k], pause)
  {
    hide Turn;
    assert ids[..k + 1][..k] == ids[..k];
  }

  lemma {:induction false} BrokerIdStays(b: Book, events: seq<Event>, i: OrderId)
    requires Inv(b) && i < |b.orders| && b.orders[i].brokerId.Some?
    ensures i < |Run(b, events).orders| && Run(b, events).orders[i].brokerId == b.orders[i].brokerId
    decreases |events|
  {
    hide Inv, Step;
    if events != [] {
      StepEvolves(b, events[0], i);
      StepKeeps(b, events[0]);
      BrokerIdStays(Step(b, events[0]), events[1..], i);
    }
  }

  function FirstIds(n: nat): (ids: seq<OrderId>)
    ensures |ids| == n && forall i :: 0 <= i < n ==> ids[i] == i
  {
    seq(n, i => i)
  }

  /** The runner's reaction to a rejection: cancel every order working when its turn comes, then clear the set. */
  function Reaction(b: Book, pause: OrderId -> seq<Event>): Book {
    Step(CancelEach(b, FirstIds(|b.orders|), pause), EvRejectedCleared)
  }

  /** The book the reaction finds at order i's turn. */
  function AtTurn(b: Book, i: OrderId, pause: OrderId -> seq<Event>): Book {
    CancelEach(b, FirstIds(i), pause)
  }

  lemma ReactionAt(b: Book, i: OrderId, pause: OrderId -> seq<Event>)
    requires Inv(b) && PausesMapped(pause) && i < |b.orders|
    ensures
      var t, b' := AtTurn(b, i, pause), Reaction(b, pause);
      && Inv(t) && Inv(b') && i < |t.orders| && i < |b'.orders| && b'.rejected == {}
      && (b.orders[i].brokerId.Some? ==> t.orders[i].brokerId.Some?)
      && (t.orders[i].brokerId.Some? ==> GivenUp(b'.orders[i]))
      && (Working(t.orders[i].status) ==> b'.orders[i].hardCancel && b'.orders[i].supersededBy.None?)
  {
    hide Inv, CancelEach, GivenUp, Run, PausesMapped;
    var ids := FirstIds(|b.orders|);
    assert ids[..i] == FirstIds(i);
    EachIsStopped(b, ids, i, pause);
    StepKeeps(CancelEach(b, ids, pause), EvRejectedCleared);
    var events := CancelEachIsRun(b, FirstIds(i), pause);
    if b.orders[i].brokerId.Some? {
      BrokerIdStays(b, events, i);
    }
  }

  /**
   * After the reaction no order that the broker knew at its turn is working, and every order that was
   * working at its turn is hard-cancelled with no successor.
   */
  lemma RejectionStopsTheBook(b: Book, pause: OrderId -> seq<Event>)
    requires Inv(b) && PausesMapped(pause)
    ensures
      var b' := Reaction(b, pause);
      && Inv(b') && b'.rejected == {} && |b'.orders| >= |b.orders|
      && forall i :: 0 <= i < |b.orders| ==>
           && (b.orders[i].brokerId.Some? ==> !Working(b'.orders[i].status))
           && i < |AtTurn(b, i, pause).orders|
           && (AtTurn(b, i, pause).orders[i].brokerId.Some? ==> !Working(b'.orders[i].status))
           && (Working(AtTurn(b, i, pause).orders[i].status) ==>
             b'.orders[i].hardCancel && b'.orders[i].supersededBy.None?)
  {
    hide Inv, AtTurn, PausesMapped;
    ReactionKeeps(b, pause);
    forall i | 0 <= i < |b.orders|
      ensures b.orders[i].brokerId.Some? ==> !Working(Reaction(b, pause).orders[i].status)
      ensures i < |AtTurn(b, i, pause).orders|
      ensures AtTurn(b, i, pause).orders[i].brokerId.Some? ==> !Working(Reaction(b, pause).orders[i].status)
      ensures Working(AtTurn(b, i, pause).orders[i].status) ==>
                Reaction(b, pause).orders[i].hardCancel && Reaction(b, pause).orders[i].supersededBy.None?
    {
      ReactionAt(b, i, pause);
    }
  }

  lemma ReactionKeeps(b: Book, pause: OrderId -> seq<Event>)
    requires Inv(b) && PausesMapped(pause)
    ensures
      var b' := Reaction(b, pause);
      Inv(b') && b'.rejected == {} && |b'.orders| >= |b.orders|
  {
    hide Inv, CancelEach, Run;
    var events := CancelEachIsRun(b, FirstIds(|b.orders|), pause);
    RunKeeps(b, events);
    RunGrows(b, events);
    StepKeeps(Run(b, events), EvRejectedCleared);
  }

  lemma StepGrows(b: Book, e: Event)
    ensures |Step(b, e).orders| >= |b.orders|
  {
    if !e.EvSubmit? && !e.EvAckPoll? {
      SameSize(b, e);
    }
  }

  lemma {:induction false} RunGrows(b: Book, events: seq<Event>)
    ensures |Run(b, events).orders| >= |b.orders|
    decreases |events|
  {
    if events != [] {
      StepGrows(b, events[0]);
      hide Step;
      RunGrows(Step(b, events[0]), events[1..]);
    }
  }
}
