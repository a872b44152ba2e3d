/** What every step of the order book keeps, and what follows for whole runs and whole chains. */
module OrderChains {
  import opened Domain
  import opened Pricing
  import opened Orders

  // ---------------------------------------------------------------
  // Chains
  // ---------------------------------------------------------------

  predicate Forward(orders: seq<Order>) {
    forall i :: 0 <= i < |orders| && orders[i].supersededBy.Some? ==> i < orders[i].supersededBy.value < |orders|
  }

  /** The runner's walk along the replacement links, from order i to the last of its chain. */
  function Chain(orders: seq<Order>, i: OrderId): (c: seq<OrderId>)
    requires Forward(orders) && i < |orders|
    ensures c != [] && c[0] == i
    ensures forall k :: 0 <= k < |c| ==> i <= c[k] < |orders|
    ensures forall k :: 0 <= k < |c| - 1 ==> orders[c[k]].supersededBy == Some(c[k + 1])
    ensures orders[c[|c| - 1]].supersededBy == None
    decreases |orders| - i
  {
    if orders[i].supersededBy.None? then [i] else [i] + Chain(orders, orders[i].supersededBy.value)
  }

  predicate SameTerms(a: Order, b: Order) {
    && a.strategy == b.strategy && a.contract == b.contract && a.side == b.side
    && a.positionId == b.positionId && a.isEntry == b.isEntry
    && a.batch == b.batch && a.algo == b.algo && a.firstLimit == b.firstLimit
  }

  function SumFilled(orders: seq<Order>, ids: seq<OrderId>): int
    requires forall k :: 0 <= k < |ids| ==> ids[k] < |orders|
  {
    if ids == [] then 0 else orders[ids[0]].filled + SumFilled(orders, ids[1..])
  }

  // ---------------------------------------------------------------
  // The invariant
  // ---------------------------------------------------------------

  predicate Ended(o: Order) {
    o.status == Cancelled || o.status == Error
  }

  /** A link leads to a newer order with the same terms and exactly the unfilled quantity. */
  predicate LinkOk(orders: seq<Order>, i: OrderId)
    requires i < |orders|
  {
    var o := orders[i];
    o.supersededBy.Some? ==>
      && i < o.supersededBy.value < |orders|
      && Ended(o) && o.brokerId.Some? && o.filled < o.quantity
      && orders[o.supersededBy.value].quantity == o.quantity - o.filled
      && SameTerms(o, orders[o.supersededBy.value])
  }

  predicate OrderOk(b: Book, i: OrderId)
    requires i < |b.orders|
  {
    var o := b.orders[i];
    && o.firstLimit > 0.0 && o.quantity > 0
    && (i in b.submitting ==> o.brokerId.None? && o.supersededBy.None?)
    && LinkOk(b.orders, i)
  }

  function Last(s: seq<OrderId>): OrderId
    requires s != []
  {
    s[|s| - 1]
  }

  predicate TrailOk(b: Book, trail: seq<OrderId>) {
    && trail != []
    && (forall k :: 0 <= k < |trail| ==> trail[k] < |b.orders| && trail[k] !in b.submitting)
    && (forall k :: 0 <= k < |trail| - 1 ==> b.orders[trail[k]].supersededBy == Some(trail[k + 1]))
    && b.orders[Last(trail)].supersededBy == None
  }

  predicate CountsOk(p: Repricer) {
    |p.trail| - 1 + p.amended <= p.attempts <= p.config.maxAttempts
  }

  predicate PhaseOk(orders: seq<Order>, p: Repricer)
    requires p.trail != [] && Last(p.trail) < |orders|
  {
    match p.phase
    case Done => true
    case Placing(next) =>
      && |p.trail| >= 2 && Last(p.trail) == next && p.trail[|p.trail| - 2] == p.current
      && orders[next].brokerId == None
    case Sleeping => p.current == Last(p.trail) && orders[p.current].brokerId.Some?
    case _ =>
      && p.current == Last(p.trail) && orders[p.current].brokerId.Some?
      && p.attempts < p.config.maxAttempts
  }

  predicate RepricerOk(b: Book, p: Repricer) {
    TrailOk(b, p.trail) && p.trail[0] == p.root && CountsOk(p) && PhaseOk(b.orders, p)
  }

  ghost predicate Disjoint(ps: seq<Repricer>) {
    forall r, r', id :: 0 <= r < |ps| && 0 <= r' < |ps| && id in ps[r].trail && id in ps[r'].trail ==> r == r'
  }

  ghost predicate Covered(orders: seq<Order>, ps: seq<Repricer>) {
    forall i :: 0 <= i < |orders| && orders[i].supersededBy.Some? ==>
      exists r :: 0 <= r < |ps| && i in ps[r].trail
  }

  predicate Injective(orders: seq<Order>) {
    forall i, j ::
      (0 <= i < |orders| && 0 <= j < |orders| && orders[i].supersededBy.Some?
       && orders[i].supersededBy == orders[j].supersededBy) ==> i == j
  }

  ghost predicate Inv(b: Book) {
    && (forall i :: 0 <= i < |b.orders| ==> OrderOk(b, i))
    && (forall id :: id in b.submitting ==> id < |b.orders|)
    && (forall id :: id in b.cancelCalls ==> id < |b.orders| && b.orders[id].brokerId.Some?)
    && (forall r :: 0 <= r < |b.repricers| ==> RepricerOk(b, b.repricers[r]))
    && Disjoint(b.repricers)
    && Covered(b.orders, b.repricers)
    && Injective(b.orders)
  }

  lemma InvForward(b: Book)
    requires Inv(b)
    ensures Forward(b.orders)
  {
    forall i | 0 <= i < |b.orders| && b.orders[i].supersededBy.Some?
      ensures i < b.orders[i].supersededBy.value < |b.orders|
    {
      assert OrderOk(b, i);
    }
  }

  // ---------------------------------------------------------------
  // Steps that keep it
  // ---------------------------------------------------------------

  /** What a step may do to an order without touching its links. */
  predicate Benign(o: Order, o': Order) {
    && SameTerms(o, o') && o'.quantity == o.quantity
    && o'.supersededBy == o.supersededBy && o'.brokerId == o.brokerId
    && (o.hardCancel ==> o'.hardCancel)
    && (o.supersededBy.Some? && Ended(o) ==> Ended(o') && o'.filled == o.filled)
    && (Terminal(o.status) ==> Terminal(o'.status) && o'.filled == o.filled)
  }

  lemma SetOrderOrder(b: Book, id: OrderId, o': Order, i: OrderId)
    requires id < |b.orders| && Benign(b.orders[id], o') && i < |b.orders| && OrderOk(b, i)
    ensures OrderOk(b.(orders := b.orders[id := o']), i)
  {
  }

  lemma SetOrderRepricer(b: Book, id: OrderId, o': Order, p: Repricer)
    requires id < |b.orders| && Benign(b.orders[id], o') && RepricerOk(b, p)
    ensures RepricerOk(b.(orders := b.orders[id := o']), p)
  {
  }

  lemma SetOrderLinks(orders: seq<Order>, id: OrderId, o': Order, ps: seq<Repricer>)
    requires id < |orders| && o'.supersededBy == orders[id].supersededBy
    requires Covered(orders, ps) && Injective(orders)
    ensures Covered(orders[id := o'], ps) && Injective(orders[id := o'])
  {
  }

  lemma SetOrderKeeps(b: Book, id: OrderId, o': Order)
    requires Inv(b) && id < |b.orders| && Benign(b.orders[id], o')
    ensures Inv(b.(orders := b.orders[id := o']))
  {
    var b' := b.(orders := b.orders[id := o']);
    assert Covered(b.orders, b.repricers) && Injective(b.orders) && Disjoint(b.repricers);
    assert o'.brokerId == b.orders[id].brokerId && o'.supersededBy == b.orders[id].supersededBy;
    hide OrderOk, RepricerOk, Covered, Injective, Disjoint, Benign;
    SetOrderLinks(b.orders, id, o', b.repricers);
    forall i | 0 <= i < |b'.orders| ensures OrderOk(b', i) {
      SetOrderOrder(b, id, o', i);
    }
    forall r | 0 <= r < |b'.repricers| ensures RepricerOk(b', b'.repricers[r]) {
      SetOrderRepricer(b, id, o', b.repricers[r]);
    }
  }

  /** A repricer may change everything but its trail. */
  lemma SetRepricerKeeps(b: Book, r: nat, p: Repricer)
    requires Inv(b) && r < |b.repricers|
    requires p.trail == b.repricers[r].trail && RepricerOk(b, p)
    ensures Inv(b.(repricers := b.repricers[r := p]))
  {
    var b' := b.(repricers := b.repricers[r := p]);
    forall i | 0 <= i < |b'.orders| ensures OrderOk(b', i) {
      assert OrderOk(b, i);
    }
    forall k | 0 <= k < |b'.repricers| ensures RepricerOk(b', b'.repricers[k]) {
      assert RepricerOk(b, b.repricers[k]);
    }
    assert forall k :: 0 <= k < |b.repricers| ==> b'.repricers[k].trail == b.repricers[k].trail;
  }

  /** The bookkeeping of cancel calls, rejections and time is free. */
  lemma SetRestKeeps(b: Book, calls: multiset<OrderId>, rejected: set<OrderId>, now: int)
    requires Inv(b)
    requires forall id :: id in calls ==> id < |b.orders| && b.orders[id].brokerId.Some?
    ensures Inv(b.(cancelCalls := calls, rejected := rejected, now := now))
  {
    var b' := b.(cancelCalls := calls, rejected := rejected, now := now);
    forall i | 0 <= i < |b'.orders| ensures OrderOk(b', i) {
      assert OrderOk(b, i);
    }
    forall r | 0 <= r < |b'.repricers| ensures RepricerOk(b', b'.repricers[r]) {
      assert RepricerOk(b, b.repricers[r]);
    }
  }

  lemma SubmitOrder(b: Book, o: Order, config: Option<RepriceConfig>, i: OrderId)
    requires i <= |b.orders| && (i < |b.orders| ==> OrderOk(b, i))
    requires o.firstLimit > 0.0 && o.quantity > 0 && o.brokerId.None? && o.supersededBy.None?
    ensures OrderOk(b.(orders := b.orders + [o], submitting := b.submitting[|b.orders| := config]), i)
  {
  }

  lemma SubmitRepricer(b: Book, o: Order, config: Option<RepriceConfig>, p: Repricer)
    requires RepricerOk(b, p)
    ensures RepricerOk(b.(orders := b.orders + [o], submitting := b.submitting[|b.orders| := config]), p)
  {
  }

  lemma SubmitKeeps(b: Book, intent: Intent, decision: RiskDecision, emergency: bool,
                    config: Option<RepriceConfig>, algo: Option<string>)
    requires Inv(b)
    ensures Inv(Submit(b, intent, decision, emergency, config, algo))
  {
    if SubmitRefusal(b.orders, intent, decision).None? {
      var b' := Submit(b, intent, decision, emergency, config, algo);
      var o := NewOrder(intent, decision, algo, b.now);
      var config' := RepricerFor(config, emergency);
      hide OrderOk, RepricerOk, SubmitRefusal, RepricerFor;
      assert b' == b.(orders := b.orders + [o], submitting := b.submitting[|b.orders| := config']);
      forall i | 0 <= i < |b'.orders| ensures OrderOk(b', i) {
        SubmitOrder(b, o, config', i);
      }
      forall r | 0 <= r < |b'.repricers| ensures RepricerOk(b', b'.repricers[r]) {
        SubmitRepricer(b, o, config', b.repricers[r]);
      }
    }
  }

  /** A placement returns (or fails) for an order that no running repricer is placing. */
  lemma SettleKeeps(b: Book, id: OrderId, o': Order, submitting: map<OrderId, Option<RepriceConfig>>)
    requires Inv(b) && id < |b.orders|
    requires b.orders[id].brokerId.None? && b.orders[id].supersededBy.None?
    requires o' == b.orders[id].(brokerId := o'.brokerId, status := o'.status, updatedAt := o'.updatedAt)
    requires forall r :: 0 <= r < |b.repricers| ==> b.repricers[r].phase != Placing(id)
    requires submitting == b.submitting - {id}
    ensures Inv(b.(orders := b.orders[id := o'], submitting := submitting))
  {
    var b' := b.(orders := b.orders[id := o'], submitting := submitting);
    assert OrderOk(b, id);
    forall i | 0 <= i < |b'.orders| ensures OrderOk(b', i) {
      assert OrderOk(b, i);
    }
    forall r | 0 <= r < |b'.repricers| ensures RepricerOk(b', b'.repricers[r]) {
      assert RepricerOk(b, b.repricers[r]);
    }
  }

  lemma CoveredByMore(orders: seq<Order>, ps: seq<Repricer>, p: Repricer)
    requires Covered(orders, ps)
    ensures Covered(orders, ps + [p])
  {
    var ps' := ps + [p];
    forall i | 0 <= i < |orders| && orders[i].supersededBy.Some?
      ensures exists r :: 0 <= r < |ps'| && i in ps'[r].trail
    {
      var r :| 0 <= r < |ps| && i in ps[r].trail;
      assert ps'[r] == ps[r];
    }
  }

  lemma StartRepricerKeeps(b: Book, p: Repricer)
    requires Inv(b) && RepricerOk(b, p)
    requires forall r, id :: 0 <= r < |b.repricers| && id in p.trail ==> id !in b.repricers[r].trail
    ensures Inv(b.(repricers := b.repricers + [p]))
  {
    var b' := b.(repricers := b.repricers + [p]);
    assert (forall i :: 0 <= i < |b.orders| ==> OrderOk(b, i)) && Injective(b.orders) && Covered(b.orders, b.repricers);
    assert Disjoint(b'.repricers);
    CoveredByMore(b.orders, b.repricers, p);
    hide OrderOk, Covered, Disjoint, Injective, RepricerOk;
    forall i | 0 <= i < |b'.orders| ensures OrderOk(b', i) {
      OrderOkFrame(b, b', i);
    }
    forall r | 0 <= r < |b'.repricers| ensures RepricerOk(b', b'.repricers[r]) {
      RepricerOkFrame(b, b', b'.repricers[r]);
    }
  }

  lemma OrderOkFrame(b: Book, b': Book, i: OrderId)
    requires b'.orders == b.orders && b'.submitting == b.submitting && i < |b.orders|
    ensures OrderOk(b', i) == OrderOk(b, i)
  {
  }

  lemma SubmitPlacedKeeps(b: Book, id: OrderId, brokerId: int, status: Status)
    requires Inv(b)
    ensures Inv(SubmitPlaced(b, id, brokerId, status))
  {
    if id in b.submitting {
      assert OrderOk(b, id);
      forall r | 0 <= r < |b.repricers| ensures id !in b.repricers[r].trail && b.repricers[r].phase != Placing(id) {
        assert RepricerOk(b, b.repricers[r]);
      }
      var o' := PlacedOrder(b.orders[id], brokerId, status, b.now);
      SettleKeeps(b, id, o', b.submitting - {id});
      var b1 := b.(orders := b.orders[id := o'], submitting := b.submitting - {id});
      var config := b.submitting[id];
      if config.Some? {
        var p := Repricer(id, id, 0, b.now, config.value, Sleeping, [id], 0);
        StartRepricerKeeps(b1, p);
      }
    }
  }

  lemma SubmitFailedKeeps(b: Book, id: OrderId)
    requires Inv(b)
    ensures Inv(SubmitFailed(b, id))
  {
    if id in b.submitting {
      assert OrderOk(b, id);
      forall r | 0 <= r < |b.repricers| ensures b.repricers[r].phase != Placing(id) {
        assert RepricerOk(b, b.repricers[r]);
      }
      SettleKeeps(b, id, FailedOrder(b.orders[id], b.now), b.submitting - {id});
    }
  }

  lemma CancelKeeps(b: Book, id: OrderId, hard: bool)
    requires Inv(b)
    ensures Inv(Cancel(b, id, hard))
  {
    if id < |b.orders| {
      assert OrderOk(b, id);
      SetOrderKeeps(b, id, CancelledOrder(b.orders[id], hard, b.now));
      var b1 := b.(orders := b.orders[id := CancelledOrder(b.orders[id], hard, b.now)]);
      SetRestKeeps(b1, Cancel(b, id, hard).cancelCalls, b.rejected, b.now);
    }
  }

  lemma StartReplaceKeeps(b: Book, r: nat, price: real)
    requires Inv(b) && At(b, r)
    requires b.repricers[r].phase.Quoting? || b.repricers[r].phase.Modifying?
    ensures Inv(StartReplace(b, r, price))
  {
    var o := CurrentOrder(b, r);
    var p := b.repricers[r];
    assert RepricerOk(b, p);
    assert OrderOk(b, p.current);
    if o.hardCancel || Terminal(o.status) {
      SetRepricerKeeps(b, r, p.(phase := if o.hardCancel then Done else Sleeping));
    } else {
      SetOrderKeeps(b, p.current, CancelledOrder(o, false, b.now));
      var b1 := b.(orders := b.orders[p.current := CancelledOrder(o, false, b.now)]);
      assert RepricerOk(b1, b1.repricers[r]);
      SetRepricerKeeps(b1, r, p.(phase := if o.brokerId.Some? then Cancelling(price) else AwaitingAck(price)));
    }
  }

  lemma WakeKeeps(b: Book, r: nat)
    requires Inv(b)
    ensures Inv(Wake(b, r))
  {
    if At(b, r) && b.repricers[r].phase == Sleeping {
      var p, o := b.repricers[r], CurrentOrder(b, r);
      assert RepricerOk(b, p);
      SetRepricerKeeps(b, r, p.(phase := Done));
      CancelKeeps(SetPhase(b, r, Done), p.current, true);
      if p.attempts < p.config.maxAttempts {
        SetRepricerKeeps(b, r, p.(phase := Quoting));
      }
    }
  }

  lemma QuotedKeeps(b: Book, r: nat, quote: Option<Quote>)
    requires Inv(b)
    ensures Inv(Quoted(b, r, quote))
  {
    if At(b, r) && b.repricers[r].phase == Quoting {
      var p, o := b.repricers[r], CurrentOrder(b, r);
      assert RepricerOk(b, p);
      SetRepricerKeeps(b, r, p.(phase := Sleeping));
      if quote.Some? && quote.value.bid.Some? && quote.value.ask.Some? {
        var price := NextPrice(o.side, o.limit, quote.value.bid.value, quote.value.ask.value, p.attempts, p.config);
        SetRepricerKeeps(b, r, p.(phase := Done));
        SetRepricerKeeps(b, r, p.(phase := Modifying(price)));
        StartReplaceKeeps(b, r, price);
      }
    }
  }

  lemma ModifiedKeeps(b: Book, r: nat, o': Order, p': Repricer)
    requires Inv(b) && At(b, r)
    requires Benign(CurrentOrder(b, r), o')
    requires
      var p := b.repricers[r];
      && p.phase.Modifying?
      && p' == p.(attempts := p.attempts + 1, phase := Sleeping, amended := p.amended + 1)
    ensures Inv(b.(orders := b.orders[b.repricers[r].current := o'], repricers := b.repricers[r := p']))
  {
    var p := b.repricers[r];
    SetOrderKeeps(b, p.current, o');
    var b1 := b.(orders := b.orders[p.current := o']);
    assert RepricerOk(b1, b1.repricers[r]);
    SetRepricerKeeps(b1, r, p');
  }

  lemma ModifyReplyKeeps(b: Book, r: nat, modified: bool)
    requires Inv(b)
    ensures Inv(ModifyReply(b, r, modified))
  {
    hide Inv;
    if At(b, r) && b.repricers[r].phase.Modifying? {
      if modified {
        var p, o := b.repricers[r], CurrentOrder(b, r);
        ModifiedKeeps(b, r, o.(limit := p.phase.price, updatedAt := b.now),
          p.(attempts := p.attempts + 1, phase := Sleeping, amended := p.amended + 1));
      } else {
        StartReplaceKeeps(b, r, b.repricers[r].phase.price);
      }
    }
  }

  lemma CancelReplyKeeps(b: Book, r: nat, reply: Reply)
    requires Inv(b)
    ensures Inv(CancelReply(b, r, reply))
  {
    if At(b, r) && b.repricers[r].phase.Cancelling? {
      var p, o := b.repricers[r], CurrentOrder(b, r);
      assert RepricerOk(b, p);
      assert OrderOk(b, p.current);
      match reply
      case Accepted => SetRepricerKeeps(b, r, p.(phase := AwaitingAck(p.phase.price)));
      case Refused => SetRepricerKeeps(b, r, p.(phase := Sleeping));
      case Raised =>
        SetOrderKeeps(b, p.current, FailedOrder(o, b.now));
        var b1 := b.(orders := b.orders[p.current := FailedOrder(o, b.now)]);
        assert RepricerOk(b1, b1.repricers[r]);
        SetRepricerKeeps(b1, r, p.(phase := Sleeping));
    }
  }

  /** Does this poll append a replacement? */
  predicate Replaces(b: Book, r: nat) {
    && At(b, r) && b.repricers[r].phase.AwaitingAck?
    && CurrentOrder(b, r).status == Cancelled && !CurrentOrder(b, r).hardCancel
    && CurrentOrder(b, r).filled < CurrentOrder(b, r).quantity && b.repricers[r].phase.price > 0.0
  }

  /** The order appended by a replacement, and the link to it, are in order. */
  lemma ReplaceOrders(b: Book, r: nat)
    requires Inv(b) && Replaces(b, r)
    ensures
      var b' := AckPoll(b, r);
      && (forall i :: 0 <= i < |b'.orders| ==> OrderOk(b', i))
      && Injective(b'.orders)
  {
    var p, o := b.repricers[r], CurrentOrder(b, r);
    var next := |b.orders|;
    var b' := AckPoll(b, r);
    assert RepricerOk(b, p);
    assert OrderOk(b, p.current);
    assert next !in b.submitting;
    forall i | 0 <= i < next
      ensures OrderOk(b', i)
      ensures b.orders[i].supersededBy != Some(next)
      ensures i != p.current ==> b'.orders[i].supersededBy == b.orders[i].supersededBy
    {
      assert OrderOk(b, i);
      ReplaceOrder(b, r, i);
    }
    assert OrderOk(b', next);
    hide OrderOk, AckPoll, Replacement;
  }

  lemma ReplaceOrder(b: Book, r: nat, i: OrderId)
    requires Replaces(b, r) && i < |b.orders| && OrderOk(b, i) && OrderOk(b, b.repricers[r].current)
    requires RepricerOk(b, b.repricers[r])
    ensures OrderOk(AckPoll(b, r), i) && b.orders[i].supersededBy != Some(|b.orders|)
  {
  }

  lemma ReplaceTrail(b: Book, r: nat)
    requires Inv(b) && Replaces(b, r)
    ensures RepricerOk(AckPoll(b, r), AckPoll(b, r).repricers[r])
  {
    var p, o := b.repricers[r], CurrentOrder(b, r);
    var next := |b.orders|;
    var b' := AckPoll(b, r);
    assert RepricerOk(b, p);
    var t, t' := p.trail, b'.repricers[r].trail;
    assert t' == t + [next];
    forall k | 0 <= k < |t'| - 1 ensures b'.orders[t'[k]].supersededBy == Some(t'[k + 1]) {
      if k < |t| - 1 {
        assert b.orders[t[k]].supersededBy == Some(t[k + 1]);
        assert t[k] != p.current;
      }
    }
    assert Last(t') == next && t'[|t'| - 2] == p.current;
  }

  lemma ReplaceOthers(b: Book, r: nat, k: nat)
    requires Inv(b) && Replaces(b, r) && k < |b.repricers| && k != r
    ensures RepricerOk(AckPoll(b, r), b.repricers[k]) && |b.orders| !in b.repricers[k].trail
  {
    var p, q := b.repricers[r], b.repricers[k];
    var b' := AckPoll(b, r);
    assert RepricerOk(b, p);
    assert RepricerOk(b, q);
    assert p.current in p.trail;
    assert p.current !in q.trail;
    assert forall j :: 0 <= j < |q.trail| ==> b'.orders[q.trail[j]] == b.orders[q.trail[j]];
  }

  lemma ReplaceTrails(b: Book, r: nat)
    requires Inv(b) && Replaces(b, r)
    ensures
      var ps, ps' := b.repricers, AckPoll(b, r).repricers;
      && |ps'| == |ps| && ps'[r].trail == ps[r].trail + [|b.orders|] && ps[r].current in ps[r].trail
      && forall k :: 0 <= k < |ps| && k != r ==> ps'[k] == ps[k] && |b.orders| !in ps[k].trail
  {
    assert RepricerOk(b, b.repricers[r]);
    forall k | 0 <= k < |b.repricers| && k != r ensures |b.orders| !in b.repricers[k].trail {
      ReplaceOthers(b, r, k);
    }
  }

  lemma ReplaceLinks(b: Book, r: nat, i: OrderId)
    requires Replaces(b, r) && i < |AckPoll(b, r).orders| && AckPoll(b, r).orders[i].supersededBy.Some?
    ensures i < |b.orders| && (i == b.repricers[r].current || b.orders[i].supersededBy.Some?)
  {
  }

  lemma ReplaceCovers(b: Book, r: nat)
    requires Inv(b) && Replaces(b, r)
    ensures Disjoint(AckPoll(b, r).repricers) && Covered(AckPoll(b, r).orders, AckPoll(b, r).repricers)
  {
    hide OrderOk, RepricerOk, AckPoll, Injective;
    var b' := AckPoll(b, r);
    var ps, ps' := b.repricers, b'.repricers;
    ReplaceTrails(b, r);
    forall i | 0 <= i < |b'.orders| && b'.orders[i].supersededBy.Some?
      ensures exists k :: 0 <= k < |ps'| && i in ps'[k].trail
    {
      ReplaceLinks(b, r, i);
      if i == ps[r].current {
        assert i in ps'[r].trail;
      } else {
        var k :| 0 <= k < |ps| && i in ps[k].trail;
        assert i in ps'[k].trail;
      }
    }
  }

  lemma ReplaceCalls(b: Book, r: nat)
    requires Inv(b) && Replaces(b, r)
    ensures
      var b' := AckPoll(b, r);
      && (forall id :: id in b'.submitting ==> id < |b'.orders|)
      && (forall id :: id in b'.cancelCalls ==> id < |b'.orders| && b'.orders[id].brokerId.Some?)
  {
    hide OrderOk, RepricerOk, Disjoint, Covered, Injective;
  }

  lemma ReplaceKeeps(b: Book, r: nat)
    requires Inv(b) && Replaces(b, r)
    ensures Inv(AckPoll(b, r))
  {
    hide OrderOk, RepricerOk, Disjoint, Covered, Injective, AckPoll;
    ReplaceOrders(b, r);
    ReplaceTrail(b, r);
    ReplaceTrails(b, r);
    forall k | 0 <= k < |b.repricers| && k != r ensures RepricerOk(AckPoll(b, r), b.repricers[k]) {
      ReplaceOthers(b, r, k);
    }
    ReplaceCovers(b, r);
    ReplaceCalls(b, r);
  }

  lemma AckPollKeeps(b: Book, r: nat)
    requires Inv(b)
    ensures Inv(AckPoll(b, r))
  {
    if At(b, r) && b.repricers[r].phase.AwaitingAck? {
      var p := b.repricers[r];
      assert RepricerOk(b, p);
      if Replaces(b, r) {
        ReplaceKeeps(b, r);
      } else {
        SetRepricerKeeps(b, r, p.(phase := Done));
        SetRepricerKeeps(b, r, p.(attempts := p.attempts + 1, phase := Done));
      }
    }
  }

  /** A repricer waiting for a placement waits alone, for an order nothing else is placing. */
  lemma PlacingAlone(b: Book, r: nat)
    requires Inv(b) && r < |b.repricers| && b.repricers[r].phase.Placing?
    ensures
      var p, id := b.repricers[r], b.repricers[r].phase.next;
      && RepricerOk(b, p) && id < |b.orders| && id !in b.submitting
      && b.orders[id].brokerId.None? && b.orders[id].supersededBy.None?
      && forall k :: 0 <= k < |b.repricers| && k != r ==> b.repricers[k].phase != Placing(id)
  {
    var id := b.repricers[r].phase.next;
    assert RepricerOk(b, b.repricers[r]);
    assert id in b.repricers[r].trail;
    forall k | 0 <= k < |b.repricers| && k != r ensures b.repricers[k].phase != Placing(id) {
      assert RepricerOk(b, b.repricers[k]);
    }
  }

  lemma ReplacementPlacedKeeps(b: Book, r: nat, brokerId: int, status: Status)
    requires Inv(b)
    ensures Inv(ReplacementPlaced(b, r, brokerId, status))
  {
    hide Inv, TrailOk;
    if r < |b.repricers| && b.repricers[r].phase.Placing? && b.repricers[r].phase.next < |b.orders| {
      var p := b.repricers[r];
      var id := p.phase.next;
      PlacingAlone(b, r);
      assert RepricerOk(b, p.(phase := Done));
      SetRepricerKeeps(b, r, p.(phase := Done));
      var b1 := SetPhase(b, r, Done);
      var o' := PlacedOrder(b.orders[id], brokerId, status, b.now);
      assert b.submitting - {id} == b.submitting;
      SettleKeeps(b1, id, o', b.submitting);
      var b2 := b1.(orders := b1.orders[id := o'], submitting := b.submitting);
      var p' := p.(current := id, phase := Sleeping);
      PlacedTrail(b, p, id, o');
      RepricerOkFrame(b.(orders := b.orders[id := o']), b2, p');
      SetRepricerKeeps(b2, r, p');
      assert b2.repricers[r := p'] == b.repricers[r := p'];
      assert ReplacementPlaced(b, r, brokerId, status) == b2.(repricers := b2.repricers[r := p']);
    }
  }

  lemma PlacedTrail(b: Book, p: Repricer, id: OrderId, o': Order)
    requires RepricerOk(b, p) && p.phase == Placing(id)
    requires o'.supersededBy == b.orders[id].supersededBy && o'.brokerId.Some?
    ensures RepricerOk(b.(orders := b.orders[id := o']), p.(current := id, phase := Sleeping))
  {
  }

  /** A repricer's health depends on the orders and the outstanding submissions only. */
  lemma RepricerOkFrame(b: Book, b': Book, p: Repricer)
    requires b'.orders == b.orders && b'.submitting == b.submitting
    ensures RepricerOk(b', p) == RepricerOk(b, p)
  {
  }

  lemma ReplacementFailedKeeps(b: Book, r: nat)
    requires Inv(b)
    ensures Inv(ReplacementFailed(b, r))
  {
    if r < |b.repricers| && b.repricers[r].phase.Placing? && b.repricers[r].phase.next < |b.orders| {
      var p := b.repricers[r];
      var id := p.phase.next;
      assert RepricerOk(b, p);
      assert OrderOk(b, id);
      SetOrderKeeps(b, id, FailedOrder(b.orders[id], b.now));
      var b1 := b.(orders := b.orders[id := FailedOrder(b.orders[id], b.now)]);
      assert RepricerOk(b1, b1.repricers[r]);
      SetRepricerKeeps(b1, r, p.(phase := Done));
    }
  }

  lemma CancelRaisedKeeps(b: Book, id: OrderId)
    requires Inv(b)
    ensures Inv(CancelRaised(b, id))
  {
    if id in b.cancelCalls {
      assert OrderOk(b, id);
      SetOrderKeeps(b, id, FailedOrder(b.orders[id], b.now));
      var b1 := b.(orders := b.orders[id := FailedOrder(b.orders[id], b.now)]);
      SetRestKeeps(b1, b.cancelCalls - multiset{id}, b.rejected, b.now);
    }
  }

  lemma RejectedKeeps(b: Book, rejected: set<OrderId>)
    requires Inv(b)
    ensures Inv(b.(rejected := rejected))
  {
    SetRestKeeps(b, b.cancelCalls, rejected, b.now);
  }

  lemma UpdatedBenign(o: Order, status: Status, filled: nat, now: int)
    requires Ended(o) || o.supersededBy.None?
    ensures Benign(o, UpdatedOrder(o, status, filled, now))
  {
  }

  lemma BrokerUpdateKeeps(b: Book, brokerId: int, status: Status, filled: nat)
    requires Inv(b)
    ensures Inv(BrokerUpdate(b, brokerId, status, filled))
  {
    var found := FindByBrokerId(b.orders, brokerId);
    if found.Some? {
      var id := found.value;
      assert OrderOk(b, id);
      hide Inv, OrderOk, Benign, UpdatedOrder, TripsLock;
      var o' := UpdatedOrder(b.orders[id], status, filled, b.now);
      UpdatedBenign(b.orders[id], status, filled, b.now);
      SetOrderKeeps(b, id, o');
      RejectedKeeps(b.(orders := b.orders[id := o']), BrokerUpdate(b, brokerId, status, filled).rejected);
    }
  }

  lemma SweepKeeps(b: Book, id: OrderId, report: Report, at: int)
    requires Inv(b)
    ensures Inv(Sweep(b, id, report, at))
  {
    if id < |b.orders| {
      assert OrderOk(b, id);
      SetOrderKeeps(b, id, SweptOrder(b.orders[id], report, at));
    }
  }

  lemma RecancelledKeeps(b: Book, id: OrderId, at: int)
    requires Inv(b)
    ensures Inv(Recancelled(b, id, at))
  {
    hide Inv;
    if id < |b.orders| {
      SetOrderKeeps(b, id, b.orders[id].(updatedAt := at));
    }
  }

  lemma TimeKeeps(b: Book, dt: nat)
    requires Inv(b)
    ensures Inv(b.(now := b.now + dt))
  {
    SetRestKeeps(b, b.cancelCalls, b.rejected, b.now + dt);
  }

  lemma CancelReturnedKeeps(b: Book, id: OrderId)
    requires Inv(b)
    ensures Inv(CancelReturned(b, id))
  {
    if id in b.cancelCalls {
      SetRestKeeps(b, b.cancelCalls - multiset{id}, b.rejected, b.now);
    }
  }

  lemma StepKeeps(b: Book, e: Event)
    requires Inv(b)
    ensures Inv(Step(b, e))
  {
    hide Inv, Submit, SubmitPlaced, SubmitFailed, Cancel, CancelReturned, CancelRaised, Sweep, BrokerUpdate,
         Recancelled, Wake, Quoted, ModifyReply, CancelReply, AckPoll, ReplacementPlaced, ReplacementFailed;
    match e
    case EvTime(dt) => TimeKeeps(b, dt);
    case EvRejectedCleared => RejectedKeeps(b, {});
    case EvSubmit(intent, decision, emergency, config, algo) =>
      SubmitKeeps(b, intent, decision, emergency, config, algo);
    case EvSubmitPlaced(id, brokerId, status) =>
      SubmitPlacedKeeps(b, id, brokerId, status);
    case EvSubmitFailed(id) =>
      SubmitFailedKeeps(b, id);
    case EvCancel(id, hard) => CancelKeeps(b, id, hard);
    case EvCancelReturned(id) => CancelReturnedKeeps(b, id);
    case EvCancelRaised(id) =>
      CancelRaisedKeeps(b, id);
    case EvSweep(id, report, at) => SweepKeeps(b, id, report, at);
    case EvRecancelled(id, at) => RecancelledKeeps(b, id, at);
    case EvBrokerUpdate(brokerId, status, filled) => BrokerUpdateKeeps(b, brokerId, status, filled);
    case EvWake(r) => WakeKeeps(b, r);
    case EvQuoted(r, quote) => QuotedKeeps(b, r, quote);
    case EvModifyReply(r, modified) => ModifyReplyKeeps(b, r, modified);
    case EvCancelReply(r, reply) => CancelReplyKeeps(b, r, reply);
    case EvAckPoll(r) => AckPollKeeps(b, r);
    case EvReplacementPlaced(r, brokerId, status) => ReplacementPlacedKeeps(b, r, brokerId, status);
    case EvReplacementFailed(r) => ReplacementFailedKeeps(b, r);
  }

  lemma {:induction false} RunKeeps(b: Book, events: seq<Event>)
    requires Inv(b)
    ensures Inv(Run(b, events))
    decreases |events|
  {
    hide Inv, Step;
    if events != [] {
      StepKeeps(b, events[0]);
      RunKeeps(Step(b, events[0]), events[1..]);
    }
  }
}
