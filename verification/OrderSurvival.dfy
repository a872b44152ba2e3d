/**
 * Which replacement chains can still end in a working order that nobody has hard-cancelled, and
 * which never will: an exact condition on the book, over every continuation.
 */
module OrderSurvival {
  import opened Domain
  import opened Pricing
  import opened Orders
  import opened OrderChains
  import opened OrderTheorems

  // ---------------------------------------------------------------
  // Continuations
  // ---------------------------------------------------------------

  /** Reports carry broker statuses and never take a fill back; a sweep is not dated ahead of the clock. */
  predicate Plausible(b: Book, e: Event) {
    && Mapped(e)
    && (e.EvSweep? || e.EvRecancelled? ==> e.at <= b.now)
    && (e.EvBrokerUpdate? && FindByBrokerId(b.orders, e.brokerId).Some? ==>
          b.orders[FindByBrokerId(b.orders, e.brokerId).value].filled <= e.filled)
  }

  ghost predicate PlausibleRun(b: Book, events: seq<Event>)
    decreases |events|
  {
    events == [] || (Plausible(b, events[0]) && PlausibleRun(Step(b, events[0]), events[1..]))
  }

  /** The chain ends in a working order that nobody has hard-cancelled. */
  ghost predicate LiveEnd(b: Book, i: OrderId) {
    && Forward(b.orders) && i < |b.orders|
    && var o := b.orders[Last(Chain(b.orders, i))];
       Working(o.status) && !o.hardCancel
  }

  ghost predicate CanComeAlive(b: Book, i: OrderId) {
    exists events :: PlausibleRun(b, events) && LiveEnd(Run(b, events), i)
  }

  // ---------------------------------------------------------------
  // The condition
  // ---------------------------------------------------------------

  /** Some quote makes the repricer move the limit to this price. */
  ghost predicate Offered(side: Side, limit: real, attempts: nat, config: RepriceConfig, price: real) {
    exists bid, ask ::
      price == NextPrice(side, limit, bid, ask, attempts, config) && AbsReal(price - limit) >= 0.01
  }

  /** A repricer asleep at this limit can still get as far as a replacement, if its time lasts. */
  ghost predicate CanReplaceFrom(side: Side, limit: real, attempts: nat, config: RepriceConfig)
    decreases config.maxAttempts - attempts
  {
    && attempts < config.maxAttempts
    && exists price :: Offered(side, limit, attempts, config, price)
         && (price > 0.0 || (config.inPlace && CanReplaceFrom(side, price, attempts + 1, config)))
  }

  ghost predicate QuoteLeadsOn(side: Side, limit: real, attempts: nat, config: RepriceConfig, inTime: bool) {
    exists price :: Offered(side, limit, attempts, config, price)
      && (price > 0.0 || (config.inPlace && inTime && CanReplaceFrom(side, price, attempts + 1, config)))
  }

  /** Can the repricer, suspended here, still replace its order? */
  ghost predicate Hopeful(now: int, o: Order, p: Repricer) {
    var pending := o.status == CancelPending;
    var inTime := !TimedOut(p, now);
    var again := pending && inTime && CanReplaceFrom(o.side, o.limit, p.attempts, p.config);
    match p.phase
    case Sleeping => again
    case Quoting => pending && QuoteLeadsOn(o.side, o.limit, p.attempts, p.config, inTime)
    case Modifying(price) =>
      again || (pending && (price > 0.0 || (inTime && CanReplaceFrom(o.side, price, p.attempts + 1, p.config))))
    case Cancelling(price) => again || (price > 0.0 && (pending || o.status == Cancelled))
    case AwaitingAck(price) => price > 0.0 && (pending || o.status == Cancelled)
    case _ => false
  }

  /** Cancelled softly, or being so, short of its quantity, and with a repricer that will go on. */
  ghost predicate Resumable(b: Book, j: OrderId)
    requires j < |b.orders|
  {
    var o := b.orders[j];
    && !o.hardCancel && o.filled < o.quantity
    && exists r :: 0 <= r < |b.repricers| && b.repricers[r].current == j && Hopeful(b.now, o, b.repricers[r])
  }

  ghost predicate Outstanding(b: Book, j: OrderId) {
    j in b.submitting || exists r :: 0 <= r < |b.repricers| && b.repricers[r].phase == Placing(j)
  }

  /** The end of a chain is alive: working, waiting for its placement, or about to be replaced. */
  ghost predicate Alive(b: Book, j: OrderId)
    requires j < |b.orders|
  {
    var o := b.orders[j];
    && !o.hardCancel
    && (|| Working(o.status)
        || (o.brokerId.None? && Outstanding(b, j))
        || (o.brokerId.Some? && Resumable(b, j)))
  }

  // ---------------------------------------------------------------
  // Hope never arises anew
  // ---------------------------------------------------------------

  /** What any step may still do to an order that its broker knows and that is not working. */
  predicate Fades(o: Order, o': Order) {
    && SameTerms(o, o') && o'.quantity == o.quantity && o.filled <= o'.filled
    && (o.hardCancel ==> o'.hardCancel)
    && (o'.status == CancelPending ==> o.status == CancelPending)
    && (o'.status == Cancelled ==> o.status == Cancelled || o.status == CancelPending)
  }

  lemma GivenUpFades(b: Book, e: Event, i: OrderId, o: Order, o': Order)
    requires i < |b.orders| && b.orders[i] == o && Moved(b, e, i, o, o') && GivenUp(o) && Plausible(b, e)
    ensures Fades(o, o')
  {
    hide FindByBrokerId, PlacementReturns;
    if o' == CancelledOrder(o, true, b.now) {
    } else if o' == CancelledOrder(o, false, b.now) {
    } else if e.EvSweep? && o' == SweptOrder(o, e.report, e.at) {
    } else if Reported(b, e, i) && o' == UpdatedOrder(o, e.status, e.filled, b.now) {
    }
  }

  /** With the same repricer and limit, hope only fades. */
  lemma HopeFades(now: int, now': int, o: Order, o': Order, p: Repricer)
    requires Fades(o, o') && o'.limit == o.limit && now <= now' && Hopeful(now', o', p)
    ensures Hopeful(now, o, p)
  {
    hide CanReplaceFrom;
  }

  lemma LimitMovedBy(b: Book, e: Event, i: OrderId)
    requires Inv(b) && i < |b.orders|
    ensures i < |Step(b, e).orders|
    ensures Step(b, e).orders[i].limit != b.orders[i].limit ==> AmendedBy(b, e, i)
  {
    hide Inv, Step, AmendedBy, ReplacedBy;
    StepMove(b, e, i);
    if !AmendedBy(b, e, i) {
      LimitKept(b, e, i, b.orders[i], Step(b, e).orders[i]);
    }
  }

  lemma LimitKept(b: Book, e: Event, i: OrderId, o: Order, o': Order)
    requires Moved(b, e, i, o, o') && !AmendedBy(b, e, i)
    ensures o'.limit == o.limit
  {
    hide FindByBrokerId, PlacementReturns, ReplacedBy, AmendedBy;
    if o' == CancelledOrder(o, true, b.now) {
    } else if o' == CancelledOrder(o, false, b.now) {
    } else if e.EvSweep? && o' == SweptOrder(o, e.report, e.at) {
    } else if Reported(b, e, i) && o' == UpdatedOrder(o, e.status, e.filled, b.now) {
    }
  }

  lemma LinkKept(b: Book, e: Event, i: OrderId, o: Order, o': Order)
    requires Moved(b, e, i, o, o')
    ensures o'.supersededBy == o.supersededBy || (ReplacedBy(b, e, i) && o'.supersededBy == Some(|b.orders|))
  {
    hide FindByBrokerId, PlacementReturns, ReplacedBy, AmendedBy;
    if o' == CancelledOrder(o, true, b.now) {
    } else if o' == CancelledOrder(o, false, b.now) {
    } else if e.EvSweep? && o' == SweptOrder(o, e.report, e.at) {
    } else if Reported(b, e, i) && o' == UpdatedOrder(o, e.status, e.filled, b.now) {
    }
  }

  lemma RepricersKept(b: Book, e: Event)
    requires !OfRepricer(e) && !e.EvSubmitPlaced?
    ensures Step(b, e).repricers == b.repricers
  {
    hide NextPrice, SweptOrder, CancelledOrder, UpdatedOrder, TripsLock, SubmitRefusal;
  }

  predicate OnlyRepricer(b: Book, b': Book, r: nat) {
    && |b'.repricers| == |b.repricers|
    && (forall k :: 0 <= k < |b.repricers| && k != r ==> b'.repricers[k] == b.repricers[k])
    && (r < |b.repricers| ==> b'.repricers[r].current == b.repricers[r].current)
  }

  lemma StartReplaceOwn(b: Book, r: nat, price: real)
    requires At(b, r)
    ensures OnlyRepricer(b, StartReplace(b, r, price), r)
  {
    hide CancelledOrder;
  }

  lemma QuotedOwn(b: Book, r: nat, quote: Option<Quote>)
    ensures OnlyRepricer(b, Quoted(b, r, quote), r)
  {
    hide StartReplace, NextPrice;
    if At(b, r) && quote.Some? && quote.value.bid.Some? && quote.value.ask.Some? {
      var p, o := b.repricers[r], CurrentOrder(b, r);
      StartReplaceOwn(b, r,
                      NextPrice(o.side, o.limit, quote.value.bid.value, quote.value.ask.value, p.attempts, p.config));
    }
  }

  lemma ModifyReplyOwn(b: Book, r: nat, modified: bool)
    ensures OnlyRepricer(b, ModifyReply(b, r, modified), r)
  {
    hide StartReplace;
    if At(b, r) && b.repricers[r].phase.Modifying? {
      StartReplaceOwn(b, r, b.repricers[r].phase.price);
    }
  }

  lemma OnlyOwnRepricer(b: Book, e: Event)
    requires OfRepricer(e)
    ensures |Step(b, e).repricers| == |b.repricers|
    ensures forall r :: 0 <= r < |b.repricers| && r != e.r ==> Step(b, e).repricers[r] == b.repricers[r]
    ensures e.r < |b.repricers| && !e.EvReplacementPlaced? ==>
        Step(b, e).repricers[e.r].current == b.repricers[e.r].current
  {
    hide Quoted, ModifyReply, PlacedOrder, FailedOrder, Replacement, CancelledOrder;
    match e
    case EvQuoted(r, quote) => QuotedOwn(b, r, quote);
    case EvModifyReply(r, modified) => ModifyReplyOwn(b, r, modified);
    case _ =>
  }

  /** The repricer of an order with a broker id was its repricer before, and only its own steps change it. */
  lemma RepricerBefore(b: Book, e: Event, r: nat, j: OrderId)
    requires Inv(b) && j < |b.orders| && b.orders[j].brokerId.Some?
    requires r < |Step(b, e).repricers| && Step(b, e).repricers[r].current == j
    ensures r < |b.repricers| && b.repricers[r].current == j
    ensures Step(b, e).repricers[r] != b.repricers[r] ==> OfRepricer(e) && e.r == r && !e.EvReplacementPlaced?
  {
    if e.EvSubmitPlaced? {
      if e.id in b.submitting {
        assert OrderOk(b, e.id);
      }
    } else if OfRepricer(e) {
      OnlyOwnRepricer(b, e);
      if e.EvReplacementPlaced? && e.r == r {
        PlacedElsewhere(b, e, j);
      }
    } else {
      RepricersKept(b, e);
    }
  }

  lemma PlacedElsewhere(b: Book, e: Event, j: OrderId)
    requires Inv(b) && j < |b.orders| && b.orders[j].brokerId.Some? && e.EvReplacementPlaced? && e.r < |b.repricers|
    ensures Step(b, e).repricers[e.r].current == j ==> Step(b, e).repricers[e.r] == b.repricers[e.r]
  {
    assert RepricerOk(b, b.repricers[e.r]);
  }

  lemma ClockOnlyAdvances(b: Book, e: Event)
    ensures b.now <= Step(b, e).now
  {
    hide NextPrice, SweptOrder, CancelledOrder, UpdatedOrder, TripsLock, FindByBrokerId, SubmitRefusal;
  }

  // Each step of the order's own repricer.

  lemma WakeHope(b: Book, r: nat)
    requires At(b, r) && b.repricers[r].current < |b.orders|
    requires
      var b' := Wake(b, r);
      b'.repricers[r].current < |b'.orders| && Hopeful(b'.now, CurrentOrder(b', r), b'.repricers[r])
    requires !CurrentOrder(Wake(b, r), r).hardCancel
    ensures Hopeful(b.now, CurrentOrder(b, r), b.repricers[r])
  {
    hide Offered;
  }

  lemma AgainIsAQuote(side: Side, limit: real, attempts: nat, config: RepriceConfig)
    requires CanReplaceFrom(side, limit, attempts, config)
    ensures QuoteLeadsOn(side, limit, attempts, config, true)
  {
    hide Offered;
  }

  lemma QuoteOffers(side: Side, limit: real, attempts: nat, config: RepriceConfig, bid: real, ask: real, inTime: bool)
    requires
      var price := NextPrice(side, limit, bid, ask, attempts, config);
      && AbsReal(price - limit) >= 0.01
      && (price > 0.0 || (config.inPlace && inTime && CanReplaceFrom(side, price, attempts + 1, config)))
    ensures QuoteLeadsOn(side, limit, attempts, config, inTime)
  {
    hide NextPrice, CanReplaceFrom;
    assert Offered(side, limit, attempts, config, NextPrice(side, limit, bid, ask, attempts, config));
  }

  lemma QuotedHope(b: Book, r: nat, quote: Option<Quote>)
    requires At(b, r) && CurrentOrder(b, r).brokerId.Some?
        && b.repricers[r].attempts < b.repricers[r].config.maxAttempts
    requires !Working(CurrentOrder(b, r).status)
    requires Hopeful(Quoted(b, r, quote).now, CurrentOrder(Quoted(b, r, quote), r), Quoted(b, r, quote).repricers[r])
    ensures Hopeful(b.now, CurrentOrder(b, r), b.repricers[r])
  {
    hide NextPrice, CanReplaceFrom, QuoteLeadsOn;
    var p, o := b.repricers[r], CurrentOrder(b, r);
    if o.status == CancelPending && !TimedOut(p, b.now) && CanReplaceFrom(o.side, o.limit, p.attempts, p.config) {
      AgainIsAQuote(o.side, o.limit, p.attempts, p.config);
    } else if p.phase == Quoting {
      QuoteOffers(o.side, o.limit, p.attempts, p.config, quote.value.bid.value, quote.value.ask.value,
                  !TimedOut(p, b.now));
    }
  }

  lemma ModifyHope(b: Book, r: nat, modified: bool)
    requires At(b, r) && CurrentOrder(b, r).brokerId.Some? && !Working(CurrentOrder(b, r).status)
    requires var b' := ModifyReply(b, r, modified); Hopeful(b'.now, CurrentOrder(b', r), b'.repricers[r])
    ensures Hopeful(b.now, CurrentOrder(b, r), b.repricers[r])
  {
    hide Offered, CanReplaceFrom;
  }

  lemma CancelReplyHope(b: Book, r: nat, reply: Reply)
    requires At(b, r)
    requires var b' := CancelReply(b, r, reply); Hopeful(b'.now, CurrentOrder(b', r), b'.repricers[r])
    ensures Hopeful(b.now, CurrentOrder(b, r), b.repricers[r])
  {
    hide Offered, CanReplaceFrom;
  }

  lemma AckPollHope(b: Book, r: nat)
    requires At(b, r)
    requires || AckPoll(b, r).orders[b.repricers[r].current].supersededBy != CurrentOrder(b, r).supersededBy
             || (var b' := AckPoll(b, r); Hopeful(b'.now, CurrentOrder(b', r), b'.repricers[r]))
    ensures Hopeful(b.now, CurrentOrder(b, r), b.repricers[r])
  {
    hide Offered, CanReplaceFrom;
  }

  lemma OwnStepHope(b: Book, e: Event, r: nat)
    requires Inv(b) && OfRepricer(e) && e.r == r && !e.EvReplacementPlaced? && At(b, r)
    requires GivenUp(CurrentOrder(b, r)) && At(Step(b, e), r) && !CurrentOrder(Step(b, e), r).hardCancel
    requires Step(b, e).repricers[r].current == b.repricers[r].current
    requires Hopeful(Step(b, e).now, CurrentOrder(Step(b, e), r), Step(b, e).repricers[r])
    ensures Hopeful(b.now, CurrentOrder(b, r), b.repricers[r])
  {
    hide Wake, Quoted, ModifyReply, CancelReply, AckPoll;
    assert RepricerOk(b, b.repricers[r]);
    match e
    case EvWake(_) => WakeHope(b, r);
    case EvQuoted(_, quote) => if b.repricers[r].phase == Quoting { QuotedHope(b, r, quote); } else { StepIdle(b, e); }
    case EvModifyReply(_, modified) => ModifyHope(b, r, modified);
    case EvCancelReply(_, reply) => CancelReplyHope(b, r, reply);
    case EvAckPoll(_) => AckPollHope(b, r);
    case EvReplacementFailed(_) => FailedHope(b, r);
  }

  lemma StepIdle(b: Book, e: Event)
    requires e.EvQuoted? && At(b, e.r) && b.repricers[e.r].phase != Quoting
    ensures Step(b, e) == b
  {
  }

  lemma FailedHope(b: Book, r: nat)
    requires At(b, r) && At(ReplacementFailed(b, r), r)
    requires var b' := ReplacementFailed(b, r); Hopeful(b'.now, CurrentOrder(b', r), b'.repricers[r])
    ensures ReplacementFailed(b, r) == b
  {
  }

  /** What makes an order resumable after a step made it so before; and so does being replaced. */
  lemma StepHope(b: Book, e: Event, j: OrderId)
    requires Inv(b) && j < |b.orders| && GivenUp(b.orders[j]) && b.orders[j].supersededBy.None? && Plausible(b, e)
    requires j < |Step(b, e).orders|
    requires Step(b, e).orders[j].supersededBy.Some? || Resumable(Step(b, e), j)
    ensures Resumable(b, j)
  {
    hide Inv, Step, Moved, Hopeful, Plausible, OrderOk;
    StepMove(b, e, j);
    GivenUpFades(b, e, j, b.orders[j], Step(b, e).orders[j]);
    if Step(b, e).orders[j].supersededBy.Some? {
      ReplacedWasResumable(b, e, j);
    } else {
      var b' := Step(b, e);
      var r :| 0 <= r < |b'.repricers| && b'.repricers[r].current == j
          && Hopeful(b'.now, b'.orders[j], b'.repricers[r]);
      RepricerBefore(b, e, r, j);
      if OfRepricer(e) && e.r == r && !e.EvReplacementPlaced? {
        OwnStepHope(b, e, r);
      } else {
        ClockOnlyAdvances(b, e);
        HopefulIsRunning(b'.now, b'.orders[j], b.repricers[r]);
        OthersKeepLimit(b, e, r, j);
        HopeFades(b.now, b'.now, b.orders[j], b'.orders[j], b.repricers[r]);
      }
      assert Hopeful(b.now, b.orders[j], b.repricers[r]);
    }
  }

  /** An order's limit is moved by its own repricer only. */
  lemma OthersKeepLimit(b: Book, e: Event, r: nat, j: OrderId)
    requires Inv(b) && r < |b.repricers| && b.repricers[r].current == j && j < |b.orders| && j < |Step(b, e).orders|
    requires !(OfRepricer(e) && e.r == r && !e.EvReplacementPlaced?)
    requires !b.repricers[r].phase.Done?
    ensures Step(b, e).orders[j].limit == b.orders[j].limit
  {
    hide Inv, Step;
    if Step(b, e).orders[j].limit != b.orders[j].limit {
      LimitMovedBy(b, e, j);
      OneRepricerEach(b, e.r, r, j);
    }
  }

  lemma OneRepricerEach(b: Book, r: nat, r': nat, j: OrderId)
    requires Inv(b) && r < |b.repricers| && r' < |b.repricers|
    requires b.repricers[r].current == j && b.repricers[r'].current == j
    requires !b.repricers[r].phase.Done? && !b.repricers[r'].phase.Done?
    ensures r == r'
  {
    assert RepricerOk(b, b.repricers[r]) && RepricerOk(b, b.repricers[r']) && Disjoint(b.repricers);
    assert j in b.repricers[r].trail && j in b.repricers[r'].trail;
  }

  lemma HopefulIsRunning(now: int, o: Order, p: Repricer)
    requires Hopeful(now, o, p)
    ensures !p.phase.Done? && !p.phase.Placing?
  {
  }

  lemma ReplacedWasResumable(b: Book, e: Event, j: OrderId)
    requires Inv(b) && j < |b.orders| && b.orders[j].supersededBy.None? && GivenUp(b.orders[j])
    requires j < |Step(b, e).orders| && Step(b, e).orders[j].supersededBy.Some?
    ensures Resumable(b, j)
  {
    hide Hopeful;
    ReplacedByPoll(b, e, j);
    assert Hopeful(b.now, b.orders[j], b.repricers[e.r]) by {
      AckPollHope(b, e.r);
    }
  }

  lemma ReplacedByPoll(b: Book, e: Event, j: OrderId)
    requires Inv(b) && j < |b.orders| && b.orders[j].supersededBy.None?
    requires j < |Step(b, e).orders| && Step(b, e).orders[j].supersededBy.Some?
    ensures ReplacedBy(b, e, j) && Step(b, e) == AckPoll(b, e.r)
  {
    hide Inv, Moved, AckPoll;
    StepMove(b, e, j);
    LinkKept(b, e, j, b.orders[j], Step(b, e).orders[j]);
  }

  // ---------------------------------------------------------------
  // Hope is fulfilled by some continuation
  // ---------------------------------------------------------------

  /** Order j is softly cancelled or being so, and r is its repricer. */
  ghost predicate Ready(b: Book, j: OrderId, r: nat) {
    && Inv(b) && j < |b.orders| && r < |b.repricers| && b.repricers[r].current == j
    && var o := b.orders[j];
       && o.brokerId.Some? && o.supersededBy.None? && !o.hardCancel && o.filled < o.quantity
       && (o.status == Cancelled || o.status == CancelPending)
  }

  /** The events continue j by a working order. */
  ghost predicate Continues(b: Book, events: seq<Event>, j: OrderId) {
    && PlausibleRun(b, events)
    && var orders := Run(b, events).orders;
       && j < |orders| && orders[j].supersededBy.Some? && orders[j].supersededBy.value < |orders|
       && var o := orders[orders[j].supersededBy.value];
          Working(o.status) && !o.hardCancel && o.supersededBy.None?
  }

  lemma First(b: Book, e: Event, rest: seq<Event>, j: OrderId)
    requires Plausible(b, e) && Continues(Step(b, e), rest, j)
    ensures Continues(b, [e] + rest, j)
  {
    hide Step, Plausible;
    assert ([e] + rest)[1..] == rest;
  }

  /** Waiting changes nothing but the clock. */
  lemma WaitReady(b: Book, j: OrderId, r: nat, dt: nat)
    requires Ready(b, j, r)
    ensures
      var e := EvTime(dt);
      && Plausible(b, e) && Ready(Step(b, e), j, r) && Step(b, e) == b.(now := b.now + dt)
  {
    hide Inv;
    StepKeeps(b, EvTime(dt));
  }

  /** How long to wait until the sweep takes the order for stuck. */
  function UntilStuck(b: Book, j: OrderId): nat
    requires j < |b.orders|
  {
    var due := b.orders[j].updatedAt + STUCK_AFTER_SECONDS;
    if b.now < due then due - b.now else 0
  }

  lemma ConfirmReady(b: Book, j: OrderId, r: nat)
    requires Ready(b, j, r) && Stuck(b.orders[j], b.now)
    ensures
      var e := EvSweep(j, Known(Cancelled), b.now);
      && Plausible(b, e) && Ready(Step(b, e), j, r) && Step(b, e).orders[j].status == Cancelled
      && Step(b, e).repricers == b.repricers
  {
    hide Inv;
    StepKeeps(b, EvSweep(j, Known(Cancelled), b.now));
  }

  lemma PollContinues(b: Book, j: OrderId, r: nat)
    requires Ready(b, j, r) && b.orders[j].status == Cancelled
    requires b.repricers[r].phase.AwaitingAck? && b.repricers[r].phase.price > 0.0
    ensures Continues(b, [EvAckPoll(r)], j)
  {
    hide Inv;
    var events := [EvAckPoll(r)];
    assert events[1..] == [];
    var b' := Step(b, EvAckPoll(r));
    assert b'.orders[j].supersededBy == Some(|b.orders|);
    assert b'.orders[|b.orders|] == Replacement(b.orders[j], b.repricers[r].phase.price, b.now);
    assert Run(b, events) == Run(b', []) == b';
    assert PlausibleRun(b', []) && PlausibleRun(b, events);
  }

  lemma FromAwaiting(b: Book, j: OrderId, r: nat) returns (events: seq<Event>)
    requires Ready(b, j, r) && b.repricers[r].phase.AwaitingAck? && b.repricers[r].phase.price > 0.0
    ensures Continues(b, events, j)
  {
    hide Ready, Continues, Step, Plausible;
    ReadyStatus(b, j, r);
    if b.orders[j].status == Cancelled {
      events := [EvAckPoll(r)];
      PollContinues(b, j, r);
    } else {
      var wait := EvTime(UntilStuck(b, j));
      WaitReady(b, j, r, UntilStuck(b, j));
      var waited := Step(b, wait);
      var sweep := EvSweep(j, Known(Cancelled), waited.now);
      ConfirmReady(waited, j, r);
      PollContinues(Step(waited, sweep), j, r);
      First(waited, sweep, [EvAckPoll(r)], j);
      First(b, wait, [sweep] + [EvAckPoll(r)], j);
      events := [wait] + ([sweep] + [EvAckPoll(r)]);
    }
  }

  lemma ReadyStatus(b: Book, j: OrderId, r: nat)
    requires Ready(b, j, r)
    ensures j < |b.orders| && r < |b.repricers| && At(b, r) && CurrentOrder(b, r) == b.orders[j]
    ensures b.orders[j].status == Cancelled || b.orders[j].status == CancelPending
  {
  }

  lemma ReplyReady(b: Book, j: OrderId, r: nat, reply: Reply)
    requires Ready(b, j, r) && b.repricers[r].phase.Cancelling? && reply != Raised
    ensures
      var e := EvCancelReply(r, reply);
      && Plausible(b, e) && Ready(Step(b, e), j, r) && Step(b, e).now == b.now && Step(b, e).orders == b.orders
      && Step(b, e).repricers[r] == b.repricers[r].(phase :=
           if reply == Accepted then AwaitingAck(b.repricers[r].phase.price) else Sleeping)
  {
    hide Inv;
    StepKeeps(b, EvCancelReply(r, reply));
  }

  lemma FromCancelling(b: Book, j: OrderId, r: nat) returns (events: seq<Event>)
    requires Ready(b, j, r) && b.repricers[r].phase.Cancelling? && b.repricers[r].phase.price > 0.0
    ensures Continues(b, events, j)
  {
    hide Ready, Continues, Step, Plausible;
    ReadyStatus(b, j, r);
    ReplyReady(b, j, r, Accepted);
    ReadyStatus(Step(b, EvCancelReply(r, Accepted)), j, r);
    var rest := FromAwaiting(Step(b, EvCancelReply(r, Accepted)), j, r);
    First(b, EvCancelReply(r, Accepted), rest, j);
    events := [EvCancelReply(r, Accepted)] + rest;
  }

  /** Falling back from an amendment starts another soft cancel. */
  lemma FallBackReady(b: Book, j: OrderId, r: nat)
    requires Ready(b, j, r) && b.orders[j].status == CancelPending && b.repricers[r].phase.Modifying?
    ensures
      var e := EvModifyReply(r, false);
      && Plausible(b, e) && Ready(Step(b, e), j, r) && Step(b, e).now == b.now
      && Step(b, e).orders[j].status == CancelPending && Step(b, e).orders[j].limit == b.orders[j].limit
      && Step(b, e).orders[j].side == b.orders[j].side
      && Step(b, e).repricers[r] == b.repricers[r].(phase := Cancelling(b.repricers[r].phase.price))
  {
    hide Inv;
    StepKeeps(b, EvModifyReply(r, false));
  }

  lemma FromModifying(b: Book, j: OrderId, r: nat) returns (events: seq<Event>)
    requires Ready(b, j, r) && b.orders[j].status == CancelPending
    requires b.repricers[r].phase.Modifying? && b.repricers[r].phase.price > 0.0
    ensures Continues(b, events, j)
  {
    hide Ready, Continues, Step, Plausible;
    ReadyStatus(b, j, r);
    FallBackReady(b, j, r);
    ReadyStatus(Step(b, EvModifyReply(r, false)), j, r);
    var rest := FromCancelling(Step(b, EvModifyReply(r, false)), j, r);
    First(b, EvModifyReply(r, false), rest, j);
    events := [EvModifyReply(r, false)] + rest;
  }

  lemma AmendReady(b: Book, j: OrderId, r: nat)
    requires Ready(b, j, r) && b.orders[j].status == CancelPending && b.repricers[r].phase.Modifying?
    ensures
      var e, p := EvModifyReply(r, true), b.repricers[r];
      && Plausible(b, e) && Ready(Step(b, e), j, r) && Step(b, e).now == b.now
      && Step(b, e).orders[j].status == CancelPending && Step(b, e).orders[j].limit == p.phase.price
      && Step(b, e).orders[j].side == b.orders[j].side
      && Step(b, e).repricers[r] == p.(attempts := p.attempts + 1, phase := Sleeping, amended := p.amended + 1)
  {
    hide Inv;
    StepKeeps(b, EvModifyReply(r, true));
  }

  lemma WakeReady(b: Book, j: OrderId, r: nat)
    requires Ready(b, j, r) && b.orders[j].status == CancelPending && b.repricers[r].phase == Sleeping
    requires !TimedOut(b.repricers[r], b.now) && b.repricers[r].attempts < b.repricers[r].config.maxAttempts
    ensures
      var e := EvWake(r);
      && Plausible(b, e) && Ready(Step(b, e), j, r) && Step(b, e).now == b.now && Step(b, e).orders == b.orders
      && Step(b, e).repricers[r] == b.repricers[r].(phase := Quoting)
  {
    hide Inv;
    StepKeeps(b, EvWake(r));
  }

  lemma QuoteReady(b: Book, j: OrderId, r: nat, bid: real, ask: real)
    requires Ready(b, j, r) && b.orders[j].status == CancelPending && b.repricers[r].phase == Quoting
    requires
      var o, p := b.orders[j], b.repricers[r];
      AbsReal(NextPrice(o.side, o.limit, bid, ask, p.attempts, p.config) - o.limit) >= 0.01
    ensures
      var e, o, p := EvQuoted(r, Some(Quote(Some(bid), Some(ask)))), b.orders[j], b.repricers[r];
      var price := NextPrice(o.side, o.limit, bid, ask, p.attempts, p.config);
      && Plausible(b, e) && Ready(Step(b, e), j, r) && Step(b, e).now == b.now
      && Step(b, e).orders[j].status == CancelPending && Step(b, e).orders[j].limit == o.limit
      && Step(b, e).orders[j].side == o.side
      && Step(b, e).repricers[r] == p.(phase := if p.config.inPlace then Modifying(price) else Cancelling(price))
  {
    hide Inv, NextPrice;
    StepKeeps(b, EvQuoted(r, Some(Quote(Some(bid), Some(ask)))));
  }

  /** Asleep with hope: wake, take a quote that leads on, and if its price cannot be sent, amend and go round again. */
  lemma {:induction false} FromSleeping(b: Book, j: OrderId, r: nat) returns (events: seq<Event>)
    requires Ready(b, j, r) && b.orders[j].status == CancelPending && b.repricers[r].phase == Sleeping
    requires !TimedOut(b.repricers[r], b.now)
    requires CanReplaceFrom(b.orders[j].side, b.orders[j].limit, b.repricers[r].attempts, b.repricers[r].config)
    ensures Continues(b, events, j)
    decreases b.repricers[r].config.maxAttempts - b.repricers[r].attempts, 0
  {
    hide Ready, Continues, Step, Plausible, CanReplaceFrom, QuoteLeadsOn;
    ReadyStatus(b, j, r);
    var o, p := b.orders[j], b.repricers[r];
    HasAttempts(o.side, o.limit, p.attempts, p.config);
    AgainIsAQuote(o.side, o.limit, p.attempts, p.config);
    WakeReady(b, j, r);
    var b1 := Step(b, EvWake(r));
    ReadyStatus(b1, j, r);
    var bid, ask := GoodQuote(o.side, o.limit, p.attempts, p.config, true);
    var price := NextPrice(o.side, o.limit, bid, ask, p.attempts, p.config);
    var e := EvQuoted(r, Some(Quote(Some(bid), Some(ask))));
    QuoteReady(b1, j, r, bid, ask);
    var b2 := Step(b1, e);
    ReadyStatus(b2, j, r);
    var rest;
    if price > 0.0 {
      rest := FromMoved(b2, j, r);
    } else {
      AmendReady(b2, j, r);
      var b3 := Step(b2, EvModifyReply(r, true));
      ReadyStatus(b3, j, r);
      var more := FromSleeping(b3, j, r);
      First(b2, EvModifyReply(r, true), more, j);
      rest := [EvModifyReply(r, true)] + more;
    }
    First(b1, e, rest, j);
    First(b, EvWake(r), [e] + rest, j);
    events := [EvWake(r)] + ([e] + rest);
  }

  lemma FromMoved(b: Book, j: OrderId, r: nat) returns (events: seq<Event>)
    requires Ready(b, j, r) && b.orders[j].status == CancelPending
    requires b.repricers[r].phase.Modifying? || b.repricers[r].phase.Cancelling?
    requires b.repricers[r].phase.price > 0.0
    ensures Continues(b, events, j)
  {
    if b.repricers[r].phase.Modifying? {
      events := FromModifying(b, j, r);
    } else {
      events := FromCancelling(b, j, r);
    }
  }

  lemma HasAttempts(side: Side, limit: real, attempts: nat, config: RepriceConfig)
    requires CanReplaceFrom(side, limit, attempts, config)
    ensures attempts < config.maxAttempts
  {
  }

  lemma GoodQuote(side: Side, limit: real, attempts: nat, config: RepriceConfig, inTime: bool)
    returns (bid: real, ask: real)
    requires QuoteLeadsOn(side, limit, attempts, config, inTime)
    ensures
      var price := NextPrice(side, limit, bid, ask, attempts, config);
      && AbsReal(price - limit) >= 0.01
      && (price > 0.0 || (config.inPlace && inTime && CanReplaceFrom(side, price, attempts + 1, config)))
  {
    hide NextPrice, CanReplaceFrom;
    var price :| Offered(side, limit, attempts, config, price)
      && (price > 0.0 || (config.inPlace && inTime && CanReplaceFrom(side, price, attempts + 1, config)));
    bid, ask :| price == NextPrice(side, limit, bid, ask, attempts, config) && AbsReal(price - limit) >= 0.01;
  }

  lemma FromQuoting(b: Book, j: OrderId, r: nat) returns (events: seq<Event>)
    requires Ready(b, j, r) && b.orders[j].status == CancelPending && b.repricers[r].phase == Quoting
    requires QuoteLeadsOn(b.orders[j].side, b.orders[j].limit, b.repricers[r].attempts, b.repricers[r].config,
                          !TimedOut(b.repricers[r], b.now))
    ensures Continues(b, events, j)
  {
    hide Ready, Continues, Step, Plausible, CanReplaceFrom, QuoteLeadsOn;
    ReadyStatus(b, j, r);
    var o, p := b.orders[j], b.repricers[r];
    var bid, ask := GoodQuote(o.side, o.limit, p.attempts, p.config, !TimedOut(p, b.now));
    var e := EvQuoted(r, Some(Quote(Some(bid), Some(ask))));
    QuoteReady(b, j, r, bid, ask);
    var b1 := Step(b, e);
    ReadyStatus(b1, j, r);
    var rest;
    if NextPrice(o.side, o.limit, bid, ask, p.attempts, p.config) > 0.0 {
      rest := FromMoved(b1, j, r);
    } else {
      rest := FromAmendment(b1, j, r);
    }
    First(b, e, rest, j);
    events := [e] + rest;
  }

  lemma FromAmendment(b: Book, j: OrderId, r: nat) returns (events: seq<Event>)
    requires Ready(b, j, r) && b.orders[j].status == CancelPending && b.repricers[r].phase.Modifying?
    requires !TimedOut(b.repricers[r], b.now)
    requires
      var p := b.repricers[r];
      CanReplaceFrom(b.orders[j].side, p.phase.price, p.attempts + 1, p.config)
    ensures Continues(b, events, j)
  {
    hide Ready, Continues, Step, Plausible, CanReplaceFrom;
    ReadyStatus(b, j, r);
    AmendReady(b, j, r);
    ReadyStatus(Step(b, EvModifyReply(r, true)), j, r);
    var rest := FromSleeping(Step(b, EvModifyReply(r, true)), j, r);
    First(b, EvModifyReply(r, true), rest, j);
    events := [EvModifyReply(r, true)] + rest;
  }

  /** A refused cancel puts the repricer back to sleep at the same limit. */
  lemma FromRefusal(b: Book, j: OrderId, r: nat) returns (events: seq<Event>)
    requires Ready(b, j, r) && b.orders[j].status == CancelPending && b.repricers[r].phase.Cancelling?
    requires !TimedOut(b.repricers[r], b.now)
    requires CanReplaceFrom(b.orders[j].side, b.orders[j].limit, b.repricers[r].attempts, b.repricers[r].config)
    ensures Continues(b, events, j)
  {
    hide Ready, Continues, Step, Plausible, CanReplaceFrom;
    ReadyStatus(b, j, r);
    ReplyReady(b, j, r, Refused);
    ReadyStatus(Step(b, EvCancelReply(r, Refused)), j, r);
    var rest := FromSleeping(Step(b, EvCancelReply(r, Refused)), j, r);
    First(b, EvCancelReply(r, Refused), rest, j);
    events := [EvCancelReply(r, Refused)] + rest;
  }

  lemma FromFallBack(b: Book, j: OrderId, r: nat) returns (events: seq<Event>)
    requires Ready(b, j, r) && b.orders[j].status == CancelPending && b.repricers[r].phase.Modifying?
    requires !TimedOut(b.repricers[r], b.now)
    requires CanReplaceFrom(b.orders[j].side, b.orders[j].limit, b.repricers[r].attempts, b.repricers[r].config)
    ensures Continues(b, events, j)
  {
    hide Ready, Continues, Step, Plausible, CanReplaceFrom;
    ReadyStatus(b, j, r);
    FallBackReady(b, j, r);
    ReadyStatus(Step(b, EvModifyReply(r, false)), j, r);
    var rest := FromRefusal(Step(b, EvModifyReply(r, false)), j, r);
    First(b, EvModifyReply(r, false), rest, j);
    events := [EvModifyReply(r, false)] + rest;
  }

  /** Every hopeful repricer has a continuation in which it replaces its order. */
  lemma HopeFulfilled(b: Book, j: OrderId, r: nat) returns (events: seq<Event>)
    requires Ready(b, j, r) && Hopeful(b.now, b.orders[j], b.repricers[r])
    ensures Continues(b, events, j)
  {
    hide Ready, Continues, CanReplaceFrom, QuoteLeadsOn;
    ReadyStatus(b, j, r);
    var o, p := b.orders[j], b.repricers[r];
    var again := !TimedOut(p, b.now) && CanReplaceFrom(o.side, o.limit, p.attempts, p.config);
    match p.phase
    case Sleeping => events := FromSleeping(b, j, r);
    case Quoting => events := FromQuoting(b, j, r);
    case Modifying(price) =>
      if price > 0.0 {
        events := FromModifying(b, j, r);
      } else if again {
        events := FromFallBack(b, j, r);
      } else {
        events := FromAmendment(b, j, r);
      }
    case Cancelling(price) =>
      if price > 0.0 {
        events := FromCancelling(b, j, r);
      } else {
        events := FromRefusal(b, j, r);
      }
    case AwaitingAck(_) => events := FromAwaiting(b, j, r);
  }

  // ---------------------------------------------------------------
  // The theorem
  // ---------------------------------------------------------------

  lemma {:induction false} PlausibleIsMapped(b: Book, events: seq<Event>)
    requires PlausibleRun(b, events)
    ensures AllMapped(events)
    decreases |events|
  {
    if events != [] {
      PlausibleIsMapped(Step(b, events[0]), events[1..]);
      assert forall k :: 1 <= k < |events| ==> events[k] == events[1..][k - 1];
    }
  }

  /** Whatever follows, a chain goes where its present end goes. */
  lemma {:induction false} EndFollows(b: Book, events: seq<Event>, i: OrderId)
    requires Inv(b) && Forward(b.orders) && i < |b.orders|
    ensures
      var orders := Run(b, events).orders;
      && Forward(orders) && i < |orders| && Last(Chain(b.orders, i)) < |orders|
      && Last(Chain(orders, i)) == Last(Chain(orders, Last(Chain(b.orders, i))))
    decreases |b.orders| - i
  {
    hide Inv, Run;
    RunGrows(b, events);
    RunKeeps(b, events);
    InvForward(Run(b, events));
    if b.orders[i].supersededBy.Some? {
      SupersededFrozen(b, events, i);
      EndFollows(b, events, b.orders[i].supersededBy.value);
    }
  }

  lemma NotWorkingStays(b: Book, e: Event, j: OrderId)
    requires Inv(b) && Mapped(e) && j < |b.orders| && !Working(b.orders[j].status)
    ensures j < |Step(b, e).orders|
    ensures Working(Step(b, e).orders[j].status) ==> b.orders[j].brokerId.None? && PlacementReturns(b, e, j)
  {
    hide Inv, Step;
    StepMove(b, e, j);
    if b.orders[j].brokerId.Some? {
      StepGivenUp(b, e, j);
    } else if !PlacementReturns(b, e, j) {
      WorksOnlyIfPlaced(b, e, j, b.orders[j], Step(b, e).orders[j]);
    }
  }

  lemma WorksOnlyIfPlaced(b: Book, e: Event, i: OrderId, o: Order, o': Order)
    requires i < |b.orders| && b.orders[i] == o && Moved(b, e, i, o, o')
    requires o.brokerId.None? && !Working(o.status) && !PlacementReturns(b, e, i)
    ensures !Working(o'.status) && o'.brokerId.None?
  {
    hide PlacementReturns;
    if o' == CancelledOrder(o, true, b.now) {
    } else if o' == CancelledOrder(o, false, b.now) {
    } else if e.EvSweep? && o' == SweptOrder(o, e.report, e.at) {
    }
  }

  lemma OutstandingBefore(b: Book, e: Event, j: OrderId)
    requires Inv(b) && j < |b.orders| && Outstanding(Step(b, e), j)
    ensures Outstanding(b, j)
  {
    hide Inv;
    if !e.EvSubmit? && !OfRepricer(e) && !e.EvSubmitPlaced? {
      RepricersKept(b, e);
      SubmittingShrinks(b, e);
    } else if OfRepricer(e) {
      SubmittingShrinks(b, e);
      PlacingBefore(b, e, j);
    }
  }

  lemma SubmittingShrinks(b: Book, e: Event)
    requires !e.EvSubmit?
    ensures Step(b, e).submitting.Keys <= b.submitting.Keys
  {
    hide NextPrice, CancelledOrder, SweptOrder, UpdatedOrder, TripsLock;
  }

  lemma PlacingBefore(b: Book, e: Event, j: OrderId)
    requires OfRepricer(e) && j < |b.orders|
    ensures forall r :: 0 <= r < |Step(b, e).repricers| && Step(b, e).repricers[r].phase == Placing(j) ==>
              r < |b.repricers| && b.repricers[r].phase == Placing(j)
  {
    hide NextPrice, CancelledOrder;
    OnlyOwnRepricer(b, e);
  }

  /** A dead end of a chain stays one, through any plausible step. */
  lemma StepStaysDead(b: Book, e: Event, j: OrderId)
    requires Inv(b) && j < |b.orders| && b.orders[j].supersededBy.None? && !Alive(b, j) && Plausible(b, e)
    ensures
      var b' := Step(b, e);
      j < |b'.orders| && b'.orders[j].supersededBy.None? && !Alive(b', j)
  {
    hide Inv, Step, Resumable, Outstanding, Moved;
    var o, b' := b.orders[j], Step(b, e);
    StepEvolves(b, e, j);
    var o' := b'.orders[j];
    if o.hardCancel {
    } else if o.brokerId.Some? {
      NotWorkingStays(b, e, j);
      if o'.supersededBy.Some? || Resumable(b', j) {
        StepHope(b, e, j);
      }
    } else {
      NotWorkingStays(b, e, j);
      PlacedWasOutstanding(b, e, j);
      StepMove(b, e, j);
      NoIdNoLink(b, e, j, o, o');
      if Outstanding(b', j) {
        OutstandingBefore(b, e, j);
      }
    }
  }

  lemma PlacedWasOutstanding(b: Book, e: Event, j: OrderId)
    ensures PlacementReturns(b, e, j) ==> Outstanding(b, j)
  {
  }

  lemma NoIdNoLink(b: Book, e: Event, i: OrderId, o: Order, o': Order)
    requires i < |b.orders| && b.orders[i] == o && Moved(b, e, i, o, o') && o.brokerId.None? && o.supersededBy.None?
    ensures o'.supersededBy.None? && (o'.brokerId.Some? ==> PlacementReturns(b, e, i))
  {
    hide PlacementReturns;
    if o' == CancelledOrder(o, true, b.now) {
    } else if o' == CancelledOrder(o, false, b.now) {
    } else if e.EvSweep? && o' == SweptOrder(o, e.report, e.at) {
    }
  }

  lemma {:induction false} StaysDead(b: Book, events: seq<Event>, j: OrderId)
    requires Inv(b) && j < |b.orders| && b.orders[j].supersededBy.None? && !Alive(b, j) && PlausibleRun(b, events)
    ensures
      var b' := Run(b, events);
      j < |b'.orders| && b'.orders[j].supersededBy.None? && !Alive(b', j)
    decreases |events|
  {
    hide Inv, Step, Alive, Plausible;
    if events != [] {
      StepStaysDead(b, events[0], j);
      StepKeeps(b, events[0]);
      StaysDead(Step(b, events[0]), events[1..], j);
    }
  }

  lemma DeadEnd(b: Book, j: OrderId)
    requires Forward(b.orders) && j < |b.orders| && b.orders[j].supersededBy.None? && !Alive(b, j)
    ensures !LiveEnd(b, j)
  {
  }

  lemma AwaitedPlacement(b: Book, j: OrderId) returns (e: Event)
    requires Inv(b) && j < |b.orders| && b.orders[j].supersededBy.None? && !b.orders[j].hardCancel
    requires b.orders[j].brokerId.None? && Outstanding(b, j)
    ensures Plausible(b, e)
    ensures
      var orders := Step(b, e).orders;
      j < |orders| && orders[j].supersededBy.None? && Working(orders[j].status) && !orders[j].hardCancel
  {
    hide Inv, Step;
    if j in b.submitting {
      e := EvSubmitPlaced(j, 0, New);
    } else {
      var r :| 0 <= r < |b.repricers| && b.repricers[r].phase == Placing(j);
      e := EvReplacementPlaced(r, 0, New);
    }
    PlacedIsLive(b, e, j);
  }

  lemma PlacedIsLive(b: Book, e: Event, j: OrderId)
    requires j < |b.orders| && b.orders[j].supersededBy.None? && !b.orders[j].hardCancel
    requires PlacementReturns(b, e, j) && Working(e.status)
    ensures
      var orders := Step(b, e).orders;
      j < |orders| && orders[j].supersededBy.None? && Working(orders[j].status) && !orders[j].hardCancel
  {
  }

  lemma LiveNow(b: Book, i: OrderId, j: OrderId)
    requires Forward(b.orders) && i < |b.orders| && j < |b.orders|
    requires Last(Chain(b.orders, i)) == Last(Chain(b.orders, j))
    ensures LiveEnd(b, i) <==> LiveEnd(b, j)
  {
  }

  lemma LiveAt(b: Book, j: OrderId)
    requires Forward(b.orders) && j < |b.orders| && b.orders[j].supersededBy.None?
    requires Working(b.orders[j].status) && !b.orders[j].hardCancel
    ensures LiveEnd(b, j)
  {
  }

  lemma LiveNext(b: Book, j: OrderId)
    requires Forward(b.orders) && j < |b.orders| && b.orders[j].supersededBy.Some?
    requires
      var o := b.orders[b.orders[j].supersededBy.value];
      Working(o.status) && !o.hardCancel && o.supersededBy.None?
    ensures LiveEnd(b, j)
  {
    var n := b.orders[j].supersededBy.value;
    assert Chain(b.orders, n) == [n];
    assert Chain(b.orders, j) == [j] + Chain(b.orders, n);
  }

  lemma AliveComesAlive(b: Book, j: OrderId) returns (events: seq<Event>)
    requires Inv(b) && j < |b.orders| && b.orders[j].supersededBy.None? && Alive(b, j)
    ensures PlausibleRun(b, events) && LiveEnd(Run(b, events), j)
  {
    hide Inv, Step, Hopeful, LiveEnd, Outstanding, Plausible;
    var o := b.orders[j];
    events := [];
    if Working(o.status) {
      InvForward(b);
      LiveAt(b, j);
    } else if o.brokerId.None? {
      var e := AwaitedPlacement(b, j);
      events := [e];
      assert events[1..] == [];
      assert Run(b, events) == Run(Step(b, e), []) == Step(b, e);
      assert PlausibleRun(Step(b, e), []);
      StepKeeps(b, e);
      InvForward(Step(b, e));
      LiveAt(Step(b, e), j);
    } else {
      var r :| 0 <= r < |b.repricers| && b.repricers[r].current == j && Hopeful(b.now, o, b.repricers[r]);
      HopefulStatus(b.now, o, b.repricers[r]);
      assert Ready(b, j, r);
      events := HopeFulfilled(b, j, r);
      RunKeeps(b, events);
      InvForward(Run(b, events));
      LiveNext(Run(b, events), j);
    }
  }

  lemma HopefulStatus(now: int, o: Order, p: Repricer)
    requires Hopeful(now, o, p)
    ensures o.status == Cancelled || o.status == CancelPending
  {
  }

  /**
   * Some continuation leaves the chain of i with a working order that nobody has hard-cancelled
   * exactly when the present end of the chain is alive.
   */
  lemma AliveIff(b: Book, i: OrderId)
    requires Inv(b) && Forward(b.orders) && i < |b.orders|
    ensures CanComeAlive(b, i) <==> Alive(b, Last(Chain(b.orders, i)))
  {
    hide Inv, Alive, LiveEnd, Forward;
    var j := Last(Chain(b.orders, i));
    if Alive(b, j) {
      var events := AliveComesAlive(b, j);
      EndFollows(b, events, i);
      LiveNow(Run(b, events), i, j);
    }
    forall events | PlausibleRun(b, events) && !Alive(b, j) ensures !LiveEnd(Run(b, events), i) {
      StaysDead(b, events, j);
      EndFollows(b, events, i);
      DeadEnd(Run(b, events), j);
      LiveNow(Run(b, events), i, j);
    }
  }

  /**
   * After the reaction to a rejection a chain can still come to a working order that nobody hard-cancels
   * exactly when its end is alive; not if its order was working at its turn; and an end that the broker
   * knew all along only if its repricer will go on.
   */
  lemma SurvivesLockIff(b: Book, pause: OrderId -> seq<Event>, i: OrderId)
    requires Inv(b) && PausesMapped(pause) && i < |b.orders|
    ensures
      var t, b' := AtTurn(b, i, pause), Reaction(b, pause);
      && Inv(b') && Forward(b'.orders) && i < |t.orders| && i < |b'.orders|
      && (CanComeAlive(b', i) <==> Alive(b', Last(Chain(b'.orders, i))))
      && (Working(t.orders[i].status) ==> !CanComeAlive(b', i))
      && (b.orders[i].brokerId.Some? && b'.orders[i].supersededBy.None? ==> (CanComeAlive(b', i) <==> Resumable(b', i)))
  {
    hide Inv, AtTurn, Reaction, PausesMapped, CanComeAlive, Outstanding, Forward, Hopeful;
    ReactionAt(b, i, pause);
    var b' := Reaction(b, pause);
    InvForward(b');
    AliveIff(b', i);
    if b'.orders[i].supersededBy.None? {
      assert Chain(b'.orders, i) == [i];
    }
  }

  // ---------------------------------------------------------------
  // Which single orders can still work
  // ---------------------------------------------------------------

  ghost predicate CanWork(b: Book, j: OrderId) {
    exists events :: PlausibleRun(b, events) && j < |Run(b, events).orders| && Working(Run(b, events).orders[j].status)
  }

  /** Working, or not known to the broker with its placement outstanding. */
  ghost predicate Startable(b: Book, j: OrderId)
    requires j < |b.orders|
  {
    Working(b.orders[j].status) || (b.orders[j].brokerId.None? && Outstanding(b, j))
  }

  lemma StepStaysIdle(b: Book, e: Event, j: OrderId)
    requires Inv(b) && j < |b.orders| && !Startable(b, j) && Plausible(b, e)
    ensures j < |Step(b, e).orders| && !Startable(Step(b, e), j)
  {
    hide Inv, Step, Outstanding, Moved;
    NotWorkingStays(b, e, j);
    PlacedWasOutstanding(b, e, j);
    StepEvolves(b, e, j);
    if Outstanding(Step(b, e), j) {
      OutstandingBefore(b, e, j);
    }
  }

  lemma {:induction false} StaysIdle(b: Book, events: seq<Event>, j: OrderId)
    requires Inv(b) && j < |b.orders| && !Startable(b, j) && PlausibleRun(b, events)
    ensures j < |Run(b, events).orders| && !Working(Run(b, events).orders[j].status)
    decreases |events|
  {
    hide Inv, Step, Outstanding, Plausible;
    if events != [] {
      StepStaysIdle(b, events[0], j);
      StepKeeps(b, events[0]);
      StaysIdle(Step(b, events[0]), events[1..], j);
    }
  }

  lemma PlacementStarts(b: Book, j: OrderId) returns (events: seq<Event>)
    requires Inv(b) && j < |b.orders| && b.orders[j].brokerId.None? && Outstanding(b, j)
    ensures PlausibleRun(b, events) && j < |Run(b, events).orders| && Working(Run(b, events).orders[j].status)
  {
    hide Inv;
    var e;
    if j in b.submitting {
      e := EvSubmitPlaced(j, 0, New);
    } else {
      var r :| 0 <= r < |b.repricers| && b.repricers[r].phase == Placing(j);
      e := EvReplacementPlaced(r, 0, New);
    }
    PlacementSets(b, e, j);
    events := [e];
    assert events[1..] == [];
    assert Run(b, events) == Run(Step(b, e), []) == Step(b, e);
    assert PlausibleRun(Step(b, e), []);
  }

  /** Some continuation has the order working exactly when it is, or the broker's first answer for it is outstanding. */
  lemma CanWorkIff(b: Book, j: OrderId)
    requires Inv(b) && j < |b.orders|
    ensures CanWork(b, j) <==> Startable(b, j)
  {
    hide Inv, Step, Outstanding, Plausible;
    if Working(b.orders[j].status) {
      assert Run(b, []) == b && PlausibleRun(b, []);
    } else if b.orders[j].brokerId.None? && Outstanding(b, j) {
      var events := PlacementStarts(b, j);
    }
    forall events | PlausibleRun(b, events) && !Startable(b, j) && j < |Run(b, events).orders|
      ensures !Working(Run(b, events).orders[j].status)
    {
      StaysIdle(b, events, j);
    }
  }

  /** A hard cancel of a working order can be lost exactly when the broker's first answer is still outstanding. */
  lemma HardCancelLostIff(b: Book, i: OrderId)
    requires Inv(b) && i < |b.orders| && Working(b.orders[i].status)
    ensures CanWork(Step(b, EvCancel(i, true)), i) <==> b.orders[i].brokerId.None? && Outstanding(b, i)
  {
    hide Inv, CanWork;
    StepKeeps(b, EvCancel(i, true));
    CanWorkIff(Step(b, EvCancel(i, true)), i);
  }

  /**
   * After the reaction to a rejection, an order there was before it can work again exactly when it has no broker
   * id and its placement is outstanding, or has just returned live: never one the broker knew at its turn.
   */
  lemma WorksUnderLockIff(b: Book, pause: OrderId -> seq<Event>, i: OrderId)
    requires Inv(b) && PausesMapped(pause) && i < |b.orders|
    ensures
      var t, b' := AtTurn(b, i, pause), Reaction(b, pause);
      && Inv(b') && i < |t.orders| && i < |b'.orders|
      && (CanWork(b', i) <==> Startable(b', i))
      && (t.orders[i].brokerId.Some? ==> !CanWork(b', i))
  {
    hide Inv, AtTurn, Reaction, PausesMapped, CanWork;
    ReactionAt(b, i, pause);
    CanWorkIff(Reaction(b, pause), i);
  }
}
