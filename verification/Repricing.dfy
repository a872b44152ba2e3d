/**
 * What a repricer does over its life: chase the touch, send only prices a quote led to, and stop the order when out of
 * time.
 */
module Repricing {
  import opened Domain
  import opened Pricing
  import opened Orders
  import opened OrderChains
  import opened OrderTheorems
  import opened OrderSurvival

  // ---------------------------------------------------------------
  // Chasing the touch
  // ---------------------------------------------------------------

  /** The side of the quote the order trades against. */
  function TouchOf(side: Side, bid: real, ask: real): real {
    if side == Buy then ask else bid
  }

  predicate Acceptable(side: Side, touch: real, cfg: RepriceConfig) {
    touch > 0.0 && if side == Buy then touch <= cfg.maxBuy else touch >= cfg.minSell
  }

  /** So many attempts have been made that the touch is crossed. */
  predicate GoesThrough(attempts: nat, cfg: RepriceConfig) {
    cfg.crossAfter.Some? && cfg.crossAfter.value <= attempts
  }

  predicate NotYetAt(side: Side, limit: real, touch: real) {
    if side == Buy then limit <= touch else limit >= touch
  }

  /** The first move goes half the way to the touch, up to rounding; from beyond it, to the touch. */
  lemma FirstMoveHalves(side: Side, limit: real, bid: real, ask: real, cfg: RepriceConfig)
    requires var touch := TouchOf(side, bid, ask); Acceptable(side, touch, cfg) && !GoesThrough(0, cfg)
    ensures
      var touch, price := TouchOf(side, bid, ask), NextPrice(side, limit, bid, ask, 0, cfg);
      if NotYetAt(side, limit, touch) then
        AbsReal((price - limit) - (touch - price)) <= 0.05
      else price == Tick(touch)
  {
    TickWithinTolerance((limit + TouchOf(side, bid, ask)) / 2.0);
  }

  /** Every later move, before crossing, goes to the touch itself, wherever the order stands. */
  lemma LaterMovesReach(side: Side, limit: real, bid: real, ask: real, attempts: nat, cfg: RepriceConfig)
    requires var touch := TouchOf(side, bid, ask); Acceptable(side, touch, cfg)
    requires attempts > 0 && !GoesThrough(attempts, cfg)
    ensures NextPrice(side, limit, bid, ask, attempts, cfg) == Tick(TouchOf(side, bid, ask))
  {
  }

  /**
   * On a quote that stands still two moves reach the touch, and a third look moves nothing: the repricer's
   * own threshold of a cent puts it back to sleep.
   */
  lemma TwoMovesReachTheTouch(side: Side, limit: real, bid: real, ask: real, cfg: RepriceConfig)
    requires var touch := TouchOf(side, bid, ask); Acceptable(side, touch, cfg)
    requires !GoesThrough(0, cfg) && !GoesThrough(1, cfg) && !GoesThrough(2, cfg)
    ensures
      var first := NextPrice(side, limit, bid, ask, 0, cfg);
      var second := NextPrice(side, first, bid, ask, 1, cfg);
      && second == Tick(TouchOf(side, bid, ask))
      && AbsReal(NextPrice(side, second, bid, ask, 2, cfg) - second) < 0.01
  {
    hide NextPrice, Tick;
    var first := NextPrice(side, limit, bid, ask, 0, cfg);
    LaterMovesReach(side, first, bid, ask, 1, cfg);
    LaterMovesReach(side, Tick(TouchOf(side, bid, ask)), bid, ask, 2, cfg);
  }

  /**
   * Once crossing, the limit is marketable: through the touch by the offset, as far as the configured bound lets it.
   */
  lemma CrossingIsMarketable(side: Side, limit: real, bid: real, ask: real, attempts: nat, cfg: RepriceConfig)
    requires var touch := TouchOf(side, bid, ask); Acceptable(side, touch, cfg)
    requires GoesThrough(attempts, cfg) && cfg.crossOffset >= 0.0
    ensures
      var touch, price := TouchOf(side, bid, ask), NextPrice(side, limit, bid, ask, attempts, cfg);
      if side == Buy then
        && price >= Tick(touch)
        && (touch + cfg.crossOffset <= cfg.maxBuy ==> price == Tick(touch + cfg.crossOffset))
        && (touch + cfg.crossOffset > cfg.maxBuy ==> price == Tick(cfg.maxBuy))
      else
        && price <= Tick(touch)
        && (touch - cfg.crossOffset >= cfg.minSell ==> price == Tick(touch - cfg.crossOffset))
        && (touch - cfg.crossOffset < cfg.minSell ==> price == Tick(cfg.minSell))
  {
    var raw := RawPrice(side, limit, bid, ask, attempts, cfg);
    if side == Buy {
      TickMonotone(ask, raw);
    } else {
      TickMonotone(raw, bid);
    }
  }

  /** A touch that is not acceptable moves nothing beyond rounding. */
  lemma UnacceptableStays(side: Side, limit: real, bid: real, ask: real, attempts: nat, cfg: RepriceConfig)
    requires !Acceptable(side, TouchOf(side, bid, ask), cfg)
    ensures NextPrice(side, limit, bid, ask, attempts, cfg) == Tick(limit)
  {
  }

  // ---------------------------------------------------------------
  // The price a repricer carries
  // ---------------------------------------------------------------

  /** On its way to move the order to a price. */
  predicate Priced(phase: Phase) {
    phase.Modifying? || phase.Cancelling? || phase.AwaitingAck?
  }

  /** In book b, quote e leads repricer r to the price: on the tick grid and at least a cent from the limit. */
  predicate LedTo(b: Book, e: Event, r: nat, price: real) {
    && At(b, r) && b.repricers[r].phase == Quoting
    && e.EvQuoted? && e.r == r && e.quote.Some? && e.quote.value.bid.Some? && e.quote.value.ask.Some?
    && var o, p := CurrentOrder(b, r), b.repricers[r];
       && price == NextPrice(o.side, o.limit, e.quote.value.bid.value, e.quote.value.ask.value, p.attempts, p.config)
       && AbsReal(price - o.limit) >= 0.01
  }

  /** From b to b', repricer r stays with its order, and the order with its limit. */
  predicate StaysWith(b: Book, b': Book, r: nat) {
    && At(b, r) && At(b', r)
    && b'.repricers[r].current == b.repricers[r].current
    && CurrentOrder(b', r).limit == CurrentOrder(b, r).limit
  }

  /** A repricer that looks at a quote, or carries a price, has an order the broker knows. */
  predicate HasOrder(b: Book, r: nat) {
    r < |b.repricers| &&
    (b.repricers[r].phase == Quoting || Priced(b.repricers[r].phase) ==> At(b, r) && CurrentOrder(b, r).brokerId.Some?)
  }

  lemma InvHasOrder(b: Book, r: nat)
    requires Inv(b) && r < |b.repricers|
    ensures HasOrder(b, r)
  {
    assert RepricerOk(b, b.repricers[r]);
  }

  predicate CarriesOn(b: Book, b': Book, r: nat)
    requires r < |b'.repricers| && Priced(b'.repricers[r].phase)
  {
    && r < |b.repricers| && Priced(b.repricers[r].phase) && StaysWith(b, b', r)
    && b'.repricers[r].phase.price == b.repricers[r].phase.price
  }

  lemma QuotedPrices(b: Book, r: nat, quote: Option<Quote>)
    requires HasOrder(b, r)
    ensures
      var b' := Quoted(b, r, quote);
      r < |b'.repricers| &&
      (Priced(b'.repricers[r].phase) ==>
        if b.repricers[r].phase == Quoting then
          LedTo(b, EvQuoted(r, quote), r, b'.repricers[r].phase.price) && StaysWith(b, b', r)
        else CarriesOn(b, b', r))
  {
    hide NextPrice;
  }

  lemma ModifyReplyPrices(b: Book, r: nat, modified: bool)
    requires HasOrder(b, r)
    ensures
      var b' := ModifyReply(b, r, modified);
      r < |b'.repricers| && (Priced(b'.repricers[r].phase) ==> CarriesOn(b, b', r))
  {
  }

  lemma CancelReplyPrices(b: Book, r: nat, reply: Reply)
    requires HasOrder(b, r)
    ensures
      var b' := CancelReply(b, r, reply);
      r < |b'.repricers| && (Priced(b'.repricers[r].phase) ==> CarriesOn(b, b', r))
  {
  }

  lemma OtherOwnPrices(b: Book, e: Event, r: nat)
    requires e.EvWake? || e.EvAckPoll? || e.EvReplacementPlaced? || e.EvReplacementFailed?
    requires HasOrder(b, r) && e.r == r
    ensures
      var b' := Step(b, e);
      r < |b'.repricers| && (Priced(b'.repricers[r].phase) ==> CarriesOn(b, b', r))
  {
    hide FailedOrder, PlacedOrder, Replacement;
  }

  lemma OthersPrices(b: Book, e: Event, r: nat)
    requires Inv(b) && !(OfRepricer(e) && e.r == r) && r < |Step(b, e).repricers|
    requires Priced(Step(b, e).repricers[r].phase)
    ensures CarriesOn(b, Step(b, e), r)
  {
    hide Inv, Step, LedTo;
    KeptByOthers(b, e, r);
    InvHasOrder(b, r);
    StepGrows(b, e);
    OthersKeepLimit(b, e, r, b.repricers[r].current);
  }

  lemma KeptByOthers(b: Book, e: Event, r: nat)
    requires !(OfRepricer(e) && e.r == r) && r < |Step(b, e).repricers|
    requires Priced(Step(b, e).repricers[r].phase)
    ensures r < |b.repricers| && Step(b, e).repricers[r] == b.repricers[r]
  {
    hide SweptOrder, CancelledOrder, UpdatedOrder, TripsLock, SubmitRefusal, NextPrice, PlacedOrder;
    if OfRepricer(e) {
      OnlyOwnRepricer(b, e);
    } else if !e.EvSubmitPlaced? {
      RepricersKept(b, e);
    }
  }

  /** After any step a repricer's price is the one it carried before, or the one a quote has just led it to. */
  lemma StepPrices(b: Book, e: Event, r: nat)
    requires Inv(b) && r < |Step(b, e).repricers| && Priced(Step(b, e).repricers[r].phase)
    ensures || CarriesOn(b, Step(b, e), r)
            || (LedTo(b, e, r, Step(b, e).repricers[r].phase.price) && StaysWith(b, Step(b, e), r))
  {
    hide Inv, LedTo, CarriesOn, StaysWith, Quoted, ModifyReply, CancelReply, Wake, AckPoll, ReplacementPlaced,
         ReplacementFailed;
    if !OfRepricer(e) || e.r != r {
      OthersPrices(b, e, r);
    } else {
      SameRepricers(b, e);
      InvHasOrder(b, r);
      match e
      case EvQuoted(_, quote) => QuotedPrices(b, r, quote);
      case EvModifyReply(_, modified) => ModifyReplyPrices(b, r, modified);
      case EvCancelReply(_, reply) => CancelReplyPrices(b, r, reply);
      case _ => OtherOwnPrices(b, e, r);
    }
  }

  lemma SameRepricers(b: Book, e: Event)
    requires OfRepricer(e)
    ensures |Step(b, e).repricers| == |b.repricers|
  {
    hide Step;
    OnlyOwnRepricer(b, e);
  }

  /**
   * A repricer carrying a price got it from the last quote it looked at: at the k-th event of the run, for the
   * same order at the same limit; it has not looked at another since.
   */
  lemma {:induction false} LastQuote(now: int, events: seq<Event>, r: nat) returns (k: nat)
    requires r < |Reached(now, events).repricers| && Priced(Reached(now, events).repricers[r].phase)
    ensures k < |events|
    ensures
      var t, b := Reached(now, events[..k]), Reached(now, events);
      LedTo(t, events[k], r, b.repricers[r].phase.price) && StaysWith(t, b, r)
    ensures forall m :: k < m <= |events| ==>
      r < |Reached(now, events[..m]).repricers| && Priced(Reached(now, events[..m]).repricers[r].phase)
    decreases |events|
  {
    hide Inv, Step, LedTo, NextPrice, Run;
    var n := |events| - 1;
    assert events != [] by {
      NoRepricersAtFirst(now);
    }
    assert events == events[..n] + [events[n]];
    var before, b := Reached(now, events[..n]), Reached(now, events);
    ReachedAppend(now, events[..n], events[n]);
    ReachedInv(now, events[..n]);
    StepPrices(before, events[n], r);
    assert events[..|events|] == events;
    if LedTo(before, events[n], r, b.repricers[r].phase.price) && StaysWith(before, b, r) {
      k := n;
    } else {
      k := LastQuote(now, events[..n], r);
      forall m | k < m <= |events|
        ensures r < |Reached(now, events[..m]).repricers| && Priced(Reached(now, events[..m]).repricers[r].phase)
      {
        if m <= n {
          assert events[..n][..m] == events[..m];
        }
      }
      assert events[..n][..k] == events[..k] && events[..n][k] == events[k];
    }
  }

  lemma NoRepricersAtFirst(now: int)
    ensures Reached(now, []).repricers == []
  {
  }

  lemma LedToTick(b: Book, e: Event, r: nat, price: real)
    requires LedTo(b, e, r, price)
    ensures Tick(price) == price && AbsReal(price - CurrentOrder(b, r).limit) >= 0.01
  {
    hide Tick, RawPrice;
    var o, p := CurrentOrder(b, r), b.repricers[r];
    TickIdempotent(RawPrice(o.side, o.limit, e.quote.value.bid.value, e.quote.value.ask.value, p.attempts, p.config));
  }

  lemma ReplacedAt(b: Book, r: nat)
    requires Replaces(b, r)
    ensures
      var b' := Step(b, EvAckPoll(r));
      && |b'.orders| == |b.orders| + 1
      && b'.orders[|b.orders|].limit == b.repricers[r].phase.price > 0.0
      && b'.orders[b.repricers[r].current].supersededBy == Some(|b.orders|)
  {
  }

  /**
   * In every reachable book a poll that appends an order gives it the price the last quote led to: positive, on
   * the tick grid, and at least a cent away from the limit of the order it replaces.
   */
  lemma ReplacementIsRepriced(now: int, events: seq<Event>, r: nat) returns (k: nat)
    requires Replaces(Reached(now, events), r)
    ensures k < |events|
    ensures
      var b := Reached(now, events);
      var b' := Step(b, EvAckPoll(r));
      && |b'.orders| == |b.orders| + 1
      && b'.orders[b.repricers[r].current].supersededBy == Some(|b.orders|)
      && var limit := b'.orders[|b.orders|].limit;
         && limit > 0.0 && Tick(limit) == limit && AbsReal(limit - CurrentOrder(b, r).limit) >= 0.01
         && LedTo(Reached(now, events[..k]), events[k], r, limit)
         && StaysWith(Reached(now, events[..k]), b, r)
  {
    hide Reached, Step, LedTo, Tick;
    var b := Reached(now, events);
    k := LastQuote(now, events, r);
    LedToTick(Reached(now, events[..k]), events[k], r, b.repricers[r].phase.price);
    ReplacedAt(b, r);
  }

  lemma AmendedAt(b: Book, r: nat)
    requires At(b, r) && b.repricers[r].phase.Modifying?
    ensures
      var b' := Step(b, EvModifyReply(r, true));
      && |b'.orders| == |b.orders| && b'.orders[b.repricers[r].current].limit == b.repricers[r].phase.price
      && forall i :: 0 <= i < |b.orders| && i != b.repricers[r].current ==> b'.orders[i] == b.orders[i]
  {
  }

  /** And an accepted change in place moves that order, and no other, to such a price. */
  lemma AmendmentIsRepriced(now: int, events: seq<Event>, r: nat) returns (k: nat)
    requires r < |Reached(now, events).repricers| && Reached(now, events).repricers[r].phase.Modifying?
    ensures k < |events|
    ensures
      var b := Reached(now, events);
      var b' := Step(b, EvModifyReply(r, true));
      && At(b, r) && |b'.orders| == |b.orders|
      && (forall i :: 0 <= i < |b.orders| && i != b.repricers[r].current ==> b'.orders[i] == b.orders[i])
      && var limit := b'.orders[b.repricers[r].current].limit;
         && Tick(limit) == limit && AbsReal(limit - CurrentOrder(b, r).limit) >= 0.01
         && LedTo(Reached(now, events[..k]), events[k], r, limit)
         && StaysWith(Reached(now, events[..k]), b, r)
  {
    hide Reached, Step, LedTo, Tick;
    var b := Reached(now, events);
    k := LastQuote(now, events, r);
    LedToTick(Reached(now, events[..k]), events[k], r, b.repricers[r].phase.price);
    AmendedAt(b, r);
  }

  // ---------------------------------------------------------------
  // What a look and a poll come to
  // ---------------------------------------------------------------

  /** Both sides are quoted and move the limit by a cent or more. */
  predicate WorthMoving(o: Order, p: Repricer, quote: Option<Quote>) {
    && quote.Some? && quote.value.bid.Some? && quote.value.ask.Some?
    && AbsReal(NextPrice(o.side, o.limit, quote.value.bid.value, quote.value.ask.value, p.attempts, p.config) - o.limit)
       >= 0.01
  }

  /**
   * A look sends the repricer back to sleep when there is nothing worth moving, ends it when nothing is left to
   * fill, amends in place where that is configured, and otherwise begins a soft cancel of the order, if it is
   * still to be had; the price is the quote's.
   */
  lemma LookOutcome(b: Book, r: nat, quote: Option<Quote>)
    requires HasOrder(b, r) && b.repricers[r].phase == Quoting
    ensures
      var b', o, p := Step(b, EvQuoted(r, quote)), CurrentOrder(b, r), b.repricers[r];
      && |b'.repricers| == |b.repricers| && |b'.orders| == |b.orders|
      && (forall i :: 0 <= i < |b.orders| && i != p.current ==> b'.orders[i] == b.orders[i])
      && var p', o' := b'.repricers[r], b'.orders[p.current];
         if !WorthMoving(o, p, quote) then p'.phase == Sleeping && o' == o
         else
           var price := NextPrice(o.side, o.limit, quote.value.bid.value, quote.value.ask.value, p.attempts, p.config);
           if o.filled >= o.quantity then p'.phase == Done && o' == o
           else if p.config.inPlace then p'.phase == Modifying(price) && o' == o
           else SoftCancelled(b, o, o', p'.phase, price)
  {
    hide NextPrice;
  }

  /**
   * A soft cancel: none for an order hard-cancelled or over; else it is pending at the broker, to go on to the price.
   */
  predicate SoftCancelled(b: Book, o: Order, o': Order, phase: Phase, price: real) {
    if o.hardCancel then phase == Done && o' == o
    else if Terminal(o.status) then phase == Sleeping && o' == o
    else phase == Cancelling(price) && o' == o.(status := CancelPending, updatedAt := b.now)
  }

  /**
   * The reply to an amendment: an accepted one uses up an attempt, a refused one begins a soft cancel to the same
   * price.
   */
  lemma AmendmentOutcome(b: Book, r: nat, modified: bool)
    requires HasOrder(b, r) && b.repricers[r].phase.Modifying?
    ensures
      var b', o, p := Step(b, EvModifyReply(r, modified)), CurrentOrder(b, r), b.repricers[r];
      && |b'.repricers| == |b.repricers| && |b'.orders| == |b.orders|
      && var p', o' := b'.repricers[r], b'.orders[p.current];
         if modified then
           && p'.phase == Sleeping && p'.attempts == p.attempts + 1
           && o' == o.(limit := p.phase.price, updatedAt := b.now)
         else p'.attempts == p.attempts && SoftCancelled(b, o, o', p'.phase, p.phase.price)
  {
  }

  /** The appended order asks for the rest, at the repricer's price, and is as young as the poll that made it. */
  predicate TakesOver(o: Order, o': Order, price: real, now: int) {
    && SameTerms(o, o') && o'.quantity == o.quantity - o.filled && o'.limit == price
    && o'.status == New && o'.filled == 0 && o'.brokerId.None? && !o'.hardCancel && o'.supersededBy.None?
    && o'.createdAt == now && o'.updatedAt == now
  }

  /**
   * A poll waits while the cancellation is pending and there is time; it replaces the order exactly when that is
   * cancelled, not hard, short of its quantity, and the price can be sent; in any other case the repricer ends.
   */
  lemma PollOutcome(b: Book, r: nat)
    requires Inv(b) && r < |b.repricers| && b.repricers[r].phase.AwaitingAck?
    ensures
      var b', p := Step(b, EvAckPoll(r)), b.repricers[r];
      && At(b, r)
      && var o, n := CurrentOrder(b, r), |b.orders|;
         if o.status == CancelPending && b.now < p.startedAt + p.config.timeoutSeconds then b' == b
         else
           && |b'.repricers| == |b.repricers|
           && if o.status == Cancelled && !o.hardCancel && o.filled < o.quantity && p.phase.price > 0.0 then
                && |b'.orders| == n + 1 && b'.orders[p.current].supersededBy == Some(n)
                && TakesOver(o, b'.orders[n], p.phase.price, b.now)
                && b'.repricers[r].phase == Placing(n) && b'.repricers[r].attempts == p.attempts + 1
              else b'.orders == b.orders && b'.repricers[r].phase == Done
  {
    assert RepricerOk(b, b.repricers[r]);
    assert OrderOk(b, b.repricers[r].current);
  }

  // ---------------------------------------------------------------
  // Out of time
  // ---------------------------------------------------------------

  /** Its time is over, or its attempts are used up. */
  predicate OutOfTime(p: Repricer, now: int) {
    now >= p.startedAt + p.config.timeoutSeconds || p.attempts >= p.config.maxAttempts
  }

  /** A repricer that wakes looks for a quote exactly when its order can still be moved and it is not out of time. */
  lemma WakesToLookIff(b: Book, r: nat)
    requires Inv(b) && r < |b.repricers| && b.repricers[r].phase == Sleeping
    ensures
      var b' := Step(b, EvWake(r));
      && At(b, r) && |b'.repricers| == |b.repricers|
      && (b'.repricers[r].phase == Quoting <==>
            !CurrentOrder(b, r).hardCancel && !Terminal(CurrentOrder(b, r).status) && !OutOfTime(b.repricers[r], b.now))
      && (b'.repricers[r].phase != Quoting ==> b'.repricers[r].phase == Done)
  {
    assert RepricerOk(b, b.repricers[r]);
  }

  lemma WakeCancels(b: Book, r: nat)
    requires Inv(b) && r < |b.repricers| && b.repricers[r].phase == Sleeping && OutOfTime(b.repricers[r], b.now)
    requires At(b, r) && !CurrentOrder(b, r).hardCancel && !Terminal(CurrentOrder(b, r).status)
    ensures
      var b', i := Step(b, EvWake(r)), b.repricers[r].current;
      && |b'.orders| == |b.orders| && b'.orders[i].hardCancel && GivenUp(b'.orders[i])
      && b'.orders[i].supersededBy.None? && b'.cancelCalls == b.cancelCalls + multiset{i}
  {
    assert RepricerOk(b, b.repricers[r]);
    assert OrderOk(b, b.repricers[r].current);
  }

  /**
   * Waking out of time with its order not over, it sends a hard cancel; and whatever follows, that order never
   * works again and its chain ends there.
   */
  lemma OutOfTimeEndsTheChain(b: Book, r: nat, later: seq<Event>)
    requires Inv(b) && r < |b.repricers| && b.repricers[r].phase == Sleeping && OutOfTime(b.repricers[r], b.now)
    requires At(b, r) && !CurrentOrder(b, r).hardCancel && !Terminal(CurrentOrder(b, r).status)
    requires AllMapped(later)
    ensures
      var woken, i := Step(b, EvWake(r)), b.repricers[r].current;
      var end := Run(woken, later);
      && woken.cancelCalls == b.cancelCalls + multiset{i} && i < |end.orders|
      && end.orders[i].hardCancel && end.orders[i].supersededBy.None? && !Working(end.orders[i].status)
  {
    hide Inv, Step, Run;
    WakeCancels(b, r);
    var woken := Step(b, EvWake(r));
    StepKeeps(b, EvWake(r));
    NoReplacementAfterHardCancel(woken, later, b.repricers[r].current);
    OwnCancelNeverTrips(woken, later, b.repricers[r].current);
  }
}
