/** Which position gets which exit signal, at what limit: the rules in prices and levels, over the whole check. */
module ExitRules {
  import opened Domain
  import opened Positions
  import opened Exits
  import Pricing

  // ---------------------------------------------------------------
  // What is seen of a position
  // ---------------------------------------------------------------

  /** The check sends an exit of p for this reason at this limit. */
  ghost predicate Gets(m: Market, ps: seq<Position>, force: bool, flagged: set<int>, p: Position,
                       reason: Reason, limit: real)
    requires Checked(m, ps, force, flagged).Some?
  {
    var signals := Checked(m, ps, force, flagged).value;
    exists k :: 0 <= k < |signals| && signals[k].position == p && signals[k].reason == reason
      && signals[k].intent.limit == limit
  }

  ghost predicate GetsAny(m: Market, ps: seq<Position>, force: bool, flagged: set<int>, p: Position, reason: Reason)
    requires Checked(m, ps, force, flagged).Some?
  {
    exists limit :: Gets(m, ps, force, flagged, p, reason, limit)
  }

  /** The option's own quote, or for want of one the underlying's. */
  predicate Sees(m: Market, c: Contract, q: QuoteView) {
    || (KeyOf(c) in m.optionQuotes && m.optionQuotes[KeyOf(c)] == q)
    || (KeyOf(c) !in m.optionQuotes && c.symbol in m.symbolQuotes && m.symbolQuotes[c.symbol] == q)
  }

  /** The last bar of the option, or of the underlying, if it began after the minute of entry. */
  predicate SeesBar(m: Market, p: Position, bar: BarView) {
    && (|| (KeyOf(p.contract) in m.optionBars && m.optionBars[KeyOf(p.contract)] == bar)
        || (KeyOf(p.contract) !in m.optionBars && p.contract.symbol in m.symbolBars
            && m.symbolBars[p.contract.symbol] == bar))
    && bar.minute > EntryTime(p) / 60
  }

  ghost predicate SeesNoBar(m: Market, p: Position) {
    forall bar :: !SeesBar(m, p, bar)
  }

  /** Neither flattened, nor at its exit time, nor flagged by its strategy. */
  predicate LeftToPrices(m: Market, p: Position, force: bool, flagged: set<int>) {
    && IsOpen(p) && !force && p.id !in flagged
    && (p.timeExit.Some? ==> m.now < p.timeExit.value)
  }

  /** A quote that stops and targets may act on: fresh and narrow enough, ten seconds after entry. */
  predicate Trusted(m: Market, p: Position, q: QuoteView) {
    Sees(m, p.contract, q) && q.recent && q.tight && m.now >= EntryTime(p) + 10
  }

  /** What is sent for a price: the nearest cent, and a cent for what is not worth one. */
  function Sent(price: real): real {
    if price <= 0.0 then 0.01 else Pricing.Cents(price)
  }

  lemma SentIsNear(price: real)
    ensures price > 0.0 ==> AbsReal(Sent(price) - price) <= 0.005
  {
    Pricing.RoundNear(price * 100.0);
  }

  lemma SentIsLimit(price: real)
    ensures LimitSent(price) == Sent(price)
  {
    Pricing.RoundInteger(1);
  }

  // ---------------------------------------------------------------
  // From a position's trigger to the signals of the check
  // ---------------------------------------------------------------

  predicate Pulls(m: Market, p: Position, force: bool, flagged: set<int>, reason: Reason, price: real) {
    IsOpen(p) && TriggerFor(m, p, force, flagged) == Some(Trigger(reason, Some(price)))
  }

  lemma {:induction false} GetsIff(m: Market, ps: seq<Position>, force: bool, flagged: set<int>, p: Position,
                                   reason: Reason, limit: real)
    requires Checked(m, ps, force, flagged).Some?
    ensures Gets(m, ps, force, flagged, p, reason, limit) <==>
            p in ps && exists price :: Pulls(m, p, force, flagged, reason, price) && limit == LimitSent(price)
    decreases |ps|
  {
    hide TriggerFor, LimitSent;
    if ps != [] {
      var n := |ps| - 1;
      GetsIff(m, ps[..n], force, flagged, p, reason, limit);
      var before, signals := Checked(m, ps[..n], force, flagged).value, Checked(m, ps, force, flagged).value;
      assert ps == ps[..n] + [ps[n]];
      var v := VerdictFor(m, ps[n], force, flagged);
      if v.Emit? {
        assert signals == before + [v.signal];
        assert signals[|before|] == v.signal && forall k :: 0 <= k < |before| ==> signals[k] == before[k];
        assert Pulls(m, ps[n], force, flagged, v.signal.reason, TriggerFor(m, ps[n], force, flagged).value.limit.value);
      } else {
        assert signals == before;
        NoPull(m, ps[n], force, flagged, reason);
      }
    }
  }

  lemma NoPull(m: Market, p: Position, force: bool, flagged: set<int>, reason: Reason)
    requires !VerdictFor(m, p, force, flagged).Emit? && !VerdictFor(m, p, force, flagged).Invalid?
    ensures forall price :: !Pulls(m, p, force, flagged, reason, price)
  {
    hide TriggerFor, LimitSent;
  }

  lemma GetsAt(m: Market, ps: seq<Position>, force: bool, flagged: set<int>, p: Position, reason: Reason, price: real)
    requires Checked(m, ps, force, flagged).Some? && p in ps && Pulls(m, p, force, flagged, reason, price)
    ensures forall limit :: Gets(m, ps, force, flagged, p, reason, limit) <==> limit == Sent(price)
    ensures GetsAny(m, ps, force, flagged, p, reason)
  {
    hide TriggerFor, Checked, Sent, LimitSent, Gets;
    SentIsLimit(price);
    forall limit ensures Gets(m, ps, force, flagged, p, reason, limit) <==> limit == Sent(price) {
      GetsIff(m, ps, force, flagged, p, reason, limit);
    }
    assert Gets(m, ps, force, flagged, p, reason, Sent(price));
  }

  lemma GetsNothing(m: Market, ps: seq<Position>, force: bool, flagged: set<int>, p: Position, reason: Reason)
    requires Checked(m, ps, force, flagged).Some? && forall price :: !Pulls(m, p, force, flagged, reason, price)
    ensures !GetsAny(m, ps, force, flagged, p, reason)
  {
    hide TriggerFor, Checked, LimitSent, Pulls;
    forall limit ensures !Gets(m, ps, force, flagged, p, reason, limit) {
      GetsIff(m, ps, force, flagged, p, reason, limit);
    }
  }

  // ---------------------------------------------------------------
  // Stops
  // ---------------------------------------------------------------

  /**
   * A long's stop: the bar traded down to it, or the middle of the quote is 15% below; without a bar, the exit price
   * is at it.
   */
  predicate LongStopped(stop: real, bar: Option<BarView>, bid: Option<real>, ask: Option<real>, byMid: bool) {
    match bar
    case Some(b) =>
      b.low <= stop || (bid.Some? && ask.Some? && bid.value + ask.value <= 1.7 * stop)
    case None =>
      if byMid && bid.Some? && ask.Some? then bid.value + ask.value <= 2.0 * stop
      else bid.Some? && bid.value <= stop
  }

  predicate ShortStopped(stop: real, bar: Option<BarView>, bid: Option<real>, ask: Option<real>, byMid: bool) {
    match bar
    case Some(b) =>
      b.high >= stop || (bid.Some? && ask.Some? && bid.value + ask.value >= 2.3 * stop)
    case None =>
      if byMid && bid.Some? && ask.Some? then bid.value + ask.value >= 2.0 * stop
      else ask.Some? && ask.value >= stop
  }

  ghost predicate BarSeen(m: Market, p: Position, bar: Option<BarView>) {
    match bar
    case Some(b) => SeesBar(m, p, b)
    case None => SeesNoBar(m, p)
  }

  lemma BarSeenIs(m: Market, p: Position, bar: Option<BarView>)
    requires BarSeen(m, p, bar)
    ensures BarFor(m, p) == bar
  {
    if bar.None? {
      var found := BarFor(m, p);
      if found.Some? {
        assert SeesBar(m, p, found.value);
        assert false;
      }
    }
  }

  lemma LongStopHitIff(p: Position, bar: Option<BarView>, q: QuoteView)
    requires p.side == Buy && p.stopPrice.Some?
    ensures StopHit(p, bar, q) <==> LongStopped(p.stopPrice.value, bar, q.bid, q.ask, p.useMidForExits)
  {
  }

  lemma ShortStopHitIff(p: Position, bar: Option<BarView>, q: QuoteView)
    requires p.side == Sell && p.stopPrice.Some?
    ensures StopHit(p, bar, q) <==> ShortStopped(p.stopPrice.value, bar, q.bid, q.ask, p.useMidForExits)
  {
  }

  lemma StopPulls(m: Market, p: Position, force: bool, flagged: set<int>, q: QuoteView, bar: Option<BarView>)
    requires LeftToPrices(m, p, force, flagged) && Trusted(m, p, q) && BarSeen(m, p, bar)
    ensures
      var touch := if p.side == Buy then q.bid else q.ask;
      && (forall price :: Pulls(m, p, force, flagged, StopLoss, price) <==>
            StopHit(p, bar, q) && touch == Some(price))
      && (StopHit(p, bar, q) ==> forall reason, price :: Pulls(m, p, force, flagged, reason, price) ==>
        reason == StopLoss)
  {
    hide StopHit, TargetHit, BarFor, SeesBar, SeesNoBar;
    BarSeenIs(m, p, bar);
    if StopHit(p, bar, q) {
      EvalOnlyWithTouch(p, q);
    }
  }

  lemma EvalOnlyWithTouch(p: Position, q: QuoteView)
    ensures EvalPrice(p, q).Some? <==> Touch(p.side, q).Some?
  {
  }

  /**
   * A long on a trusted quote is stopped out exactly when there is a bid and its stop is reached: by the low of
   * the counting bar or a middle 15% below it, and without such a bar by the exit price. It goes out at the bid.
   */
  lemma LongStopIff(m: Market, ps: seq<Position>, force: bool, flagged: set<int>, p: Position, q: QuoteView,
                    bar: Option<BarView>)
    requires Checked(m, ps, force, flagged).Some? && p in ps && p.side == Buy
    requires LeftToPrices(m, p, force, flagged) && Trusted(m, p, q) && BarSeen(m, p, bar)
    ensures GetsAny(m, ps, force, flagged, p, StopLoss) <==>
            && q.bid.Some? && p.stopPrice.Some?
            && LongStopped(p.stopPrice.value, bar, q.bid, q.ask, p.useMidForExits)
    ensures forall limit :: Gets(m, ps, force, flagged, p, StopLoss, limit) ==>
        q.bid.Some? && limit == Sent(q.bid.value)
  {
    hide Checked, TriggerFor, Pulls, LongStopped, Gets, LeftToPrices, Trusted, BarSeen, Sent;
    StopPulls(m, p, force, flagged, q, bar);
    if p.stopPrice.Some? {
      LongStopHitIff(p, bar, q);
    }
    if StopHit(p, bar, q) && q.bid.Some? {
      GetsAt(m, ps, force, flagged, p, StopLoss, q.bid.value);
    } else {
      GetsNothing(m, ps, force, flagged, p, StopLoss);
    }
  }

  /** The same for a short: the high of the bar, a middle 15% above, or the exit price; it goes out at the ask. */
  lemma ShortStopIff(m: Market, ps: seq<Position>, force: bool, flagged: set<int>, p: Position, q: QuoteView,
                     bar: Option<BarView>)
    requires Checked(m, ps, force, flagged).Some? && p in ps && p.side == Sell
    requires LeftToPrices(m, p, force, flagged) && Trusted(m, p, q) && BarSeen(m, p, bar)
    ensures GetsAny(m, ps, force, flagged, p, StopLoss) <==>
            && q.ask.Some? && p.stopPrice.Some?
            && ShortStopped(p.stopPrice.value, bar, q.bid, q.ask, p.useMidForExits)
    ensures forall limit :: Gets(m, ps, force, flagged, p, StopLoss, limit) ==>
        q.ask.Some? && limit == Sent(q.ask.value)
  {
    hide Checked, TriggerFor, Pulls, ShortStopped, Gets, LeftToPrices, Trusted, BarSeen, Sent;
    StopPulls(m, p, force, flagged, q, bar);
    if p.stopPrice.Some? {
      ShortStopHitIff(p, bar, q);
    }
    if StopHit(p, bar, q) && q.ask.Some? {
      GetsAt(m, ps, force, flagged, p, StopLoss, q.ask.value);
    } else {
      GetsNothing(m, ps, force, flagged, p, StopLoss);
    }
  }

  /** Both are quoted on the same sides, and q nowhere higher than q'. */
  predicate NoHigher(q: QuoteView, q': QuoteView) {
    && (q.bid.Some? <==> q'.bid.Some?) && (q.ask.Some? <==> q'.ask.Some?)
    && (q.bid.Some? ==> q.bid.value <= q'.bid.value) && (q.ask.Some? ==> q.ask.value <= q'.ask.value)
  }

  predicate BarNoHigher(bar: Option<BarView>, bar': Option<BarView>) {
    (bar.Some? <==> bar'.Some?) && (bar.Some? ==> bar.value.low <= bar'.value.low && bar.value.high <= bar'.value.high)
  }

  /** Lower prices never take back a long's stop, nor give a short one it would not have had. */
  lemma StopsAreMonotone(m: Market, m': Market, ps: seq<Position>, force: bool, flagged: set<int>, p: Position,
                         q: QuoteView, q': QuoteView, bar: Option<BarView>, bar': Option<BarView>)
    requires Checked(m, ps, force, flagged).Some? && Checked(m', ps, force, flagged).Some? && p in ps
    requires LeftToPrices(m, p, force, flagged) && Trusted(m, p, q) && BarSeen(m, p, bar)
    requires LeftToPrices(m', p, force, flagged) && Trusted(m', p, q') && BarSeen(m', p, bar')
    requires NoHigher(q, q') && BarNoHigher(bar, bar')
    ensures p.side == Buy && GetsAny(m', ps, force, flagged, p, StopLoss) ==>
        GetsAny(m, ps, force, flagged, p, StopLoss)
    ensures p.side == Sell && GetsAny(m, ps, force, flagged, p, StopLoss) ==>
        GetsAny(m', ps, force, flagged, p, StopLoss)
  {
    hide Checked, GetsAny, Gets, LeftToPrices, Trusted, BarSeen;
    if p.side == Buy {
      LongStopIff(m, ps, force, flagged, p, q, bar);
      LongStopIff(m', ps, force, flagged, p, q', bar');
    } else {
      ShortStopIff(m, ps, force, flagged, p, q, bar);
      ShortStopIff(m', ps, force, flagged, p, q', bar');
    }
  }

  /** No stop and no target acts without a trusted quote. */
  lemma UntrustedHolds(m: Market, ps: seq<Position>, force: bool, flagged: set<int>, p: Position, reason: Reason)
    requires Checked(m, ps, force, flagged).Some? && LeftToPrices(m, p, force, flagged)
    requires forall q :: !Trusted(m, p, q)
    ensures !GetsAny(m, ps, force, flagged, p, reason)
  {
    hide Checked, GetsAny, StopHit, TargetHit;
    var q := QuoteFor(m, p.contract);
    if q.Some? {
      assert Sees(m, p.contract, q.value);
      assert !Trusted(m, p, q.value);
    }
    GetsNothing(m, ps, force, flagged, p, reason);
  }

  // ---------------------------------------------------------------
  // Targets
  // ---------------------------------------------------------------

  /**
   * The price the exit is judged at: the middle if the position asks for it and there is one, else the side it trades
   * against.
   */
  predicate ExitPrice(p: Position, q: QuoteView, price: real) {
    if p.useMidForExits && q.bid.Some? && q.ask.Some? then price == (q.bid.value + q.ask.value) / 2.0
    else if p.side == Buy then q.bid == Some(price)
    else q.ask == Some(price)
  }

  lemma TargetPulls(m: Market, p: Position, force: bool, flagged: set<int>, q: QuoteView, bar: Option<BarView>,
                    price: real)
    requires LeftToPrices(m, p, force, flagged) && Trusted(m, p, q) && BarSeen(m, p, bar)
    ensures Pulls(m, p, force, flagged, TakeProfit, price) <==>
            && !StopHit(p, bar, q) && ExitPrice(p, q, price) && p.targetPrice.Some?
            && if p.side == Buy then price >= p.targetPrice.value else price <= p.targetPrice.value
  {
    hide StopHit, BarFor, SeesBar, SeesNoBar;
    BarSeenIs(m, p, bar);
  }

  /**
   * Profit is taken exactly at an exit price that has reached the target of a position that is not stopped out, at
   * that price.
   */
  lemma TargetIff(m: Market, ps: seq<Position>, force: bool, flagged: set<int>, p: Position, q: QuoteView,
                  bar: Option<BarView>, limit: real)
    requires Checked(m, ps, force, flagged).Some? && p in ps
    requires LeftToPrices(m, p, force, flagged) && Trusted(m, p, q) && BarSeen(m, p, bar)
    ensures Gets(m, ps, force, flagged, p, TakeProfit, limit) <==>
            && p.targetPrice.Some?
            && (p.stopPrice.Some? ==>
                  !(if p.side == Buy then LongStopped(p.stopPrice.value, bar, q.bid, q.ask, p.useMidForExits)
                    else ShortStopped(p.stopPrice.value, bar, q.bid, q.ask, p.useMidForExits)))
            && exists price :: ExitPrice(p, q, price) && limit == Sent(price)
                 && if p.side == Buy then price >= p.targetPrice.value else price <= p.targetPrice.value
  {
    hide Checked, TriggerFor, Pulls, LongStopped, ShortStopped, Gets, LeftToPrices, Trusted, BarSeen, ExitPrice, Sent,
         LimitSent;
    if p.stopPrice.Some? && p.side == Buy {
      LongStopHitIff(p, bar, q);
    } else if p.stopPrice.Some? {
      ShortStopHitIff(p, bar, q);
    }
    GetsIff(m, ps, force, flagged, p, TakeProfit, limit);
    forall price
      ensures Pulls(m, p, force, flagged, TakeProfit, price) <==>
              && !StopHit(p, bar, q) && ExitPrice(p, q, price) && p.targetPrice.Some?
              && if p.side == Buy then price >= p.targetPrice.value else price <= p.targetPrice.value
      ensures LimitSent(price) == Sent(price)
    {
      TargetPulls(m, p, force, flagged, q, bar, price);
      SentIsLimit(price);
    }
  }

  // ---------------------------------------------------------------
  // Exits that do not look at levels
  // ---------------------------------------------------------------

  /**
   * The best price known: the quote's side the exit trades against, whatever its age, else the position's own last
   * price.
   */
  ghost predicate BestPrice(m: Market, p: Position, price: real) {
    || (exists q :: Sees(m, p.contract, q) && (if p.side == Buy then q.bid else q.ask) == Some(price))
    || ((forall q :: Sees(m, p.contract, q) ==> (if p.side == Buy then q.bid else q.ask).None?)
        && p.currentPrice == Some(price))
  }

  lemma BestPriceIs(m: Market, p: Position, price: real)
    ensures BestPrice(m, p, price) <==> Best(m, p) == Some(price)
  {
    var q := QuoteFor(m, p.contract);
    if q.Some? {
      assert Sees(m, p.contract, q.value);
    }
    assert forall v :: Sees(m, p.contract, v) ==> q == Some(v);
  }

  /** The reason that comes before prices: flattening, then the clock, then the strategy. */
  function EarlyReason(m: Market, p: Position, force: bool, flagged: set<int>): Option<Reason> {
    if force then Some(ForceFlatten)
    else if p.timeExit.Some? && p.timeExit.value <= m.now then Some(TimeExit)
    else if p.id in flagged then Some(StrategyExit)
    else None
  }

  predicate IsEarly(reason: Reason) {
    reason == ForceFlatten || reason == TimeExit || reason == StrategyExit
  }

  /**
   * Such an exit is sent exactly for the first of these reasons that applies, at the best price known, if there is
   * one.
   */
  lemma EarlyExitIff(m: Market, ps: seq<Position>, force: bool, flagged: set<int>, p: Position, reason: Reason,
                     limit: real)
    requires Checked(m, ps, force, flagged).Some? && p in ps && IsEarly(reason)
    ensures Gets(m, ps, force, flagged, p, reason, limit) <==>
            && IsOpen(p) && EarlyReason(m, p, force, flagged) == Some(reason)
            && exists price :: BestPrice(m, p, price) && limit == Sent(price)
  {
    hide Checked, Gets, StopHit, TargetHit, Best, BestPrice, Sent, LimitSent, QuoteFor, BarFor, EvalPrice;
    GetsIff(m, ps, force, flagged, p, reason, limit);
    forall price
      ensures Pulls(m, p, force, flagged, reason, price) <==>
              IsOpen(p) && EarlyReason(m, p, force, flagged) == Some(reason) && BestPrice(m, p, price)
      ensures LimitSent(price) == Sent(price)
    {
      BestPriceIs(m, p, price);
      SentIsLimit(price);
    }
  }
}
