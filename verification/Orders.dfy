/**
 * The order book kept by OrderManager, as a state machine. One step is the code that runs
 * between two suspension points of a coroutine; the environment picks the next step.
 */
module Orders {
  import opened Domain
  import opened Pricing

  datatype Status =
    | New | RiskChecked | Submitted | PartiallyFilled | Filled
    | CancelPending | Cancelled | Rejected | Error

  predicate Terminal(s: Status) {
    s == Filled || s == Cancelled || s == Rejected || s == Error
  }

  predicate Working(s: Status) {
    s == New || s == RiskChecked || s == Submitted || s == PartiallyFilled
  }

  predicate Active(s: Status) {
    Working(s) || s == CancelPending
  }

  /** Ended without succeeding. */
  predicate Dead(s: Status) {
    s == Cancelled || s == Rejected || s == Error
  }

  /** Orders are never removed, so an order's id is its place in the order of creation. */
  type OrderId = nat

  datatype Order = Order(
    strategy: string,
    contract: Contract,
    side: Side,
    positionId: Option<int>,
    isEntry: bool,
    batch: Option<nat>,
    algo: Option<string>,
    quantity: int,
    filled: nat,
    limit: real,
    firstLimit: real,
    status: Status,
    brokerId: Option<int>,
    hardCancel: bool,
    supersededBy: Option<OrderId>,
    createdAt: int,
    updatedAt: int)

  datatype Intent = Intent(
    riskDecisionId: int,
    positionId: Option<int>,
    isEntry: bool,
    strategy: string,
    contract: Contract,
    side: Side,
    quantity: Qty,
    limit: Price,
    batch: Option<nat>)

  datatype RiskDecision = RiskDecision(id: int, approved: bool, allowedQuantity: nat)

  /** Where a repricer coroutine is suspended. */
  datatype Phase =
    | Sleeping
    | Quoting
    | Modifying(price: real)
    | Cancelling(price: real)
    | AwaitingAck(price: real)
    | Placing(next: OrderId)
    | Done

  /**
   * One repricer. `trail` (the orders it has worked, oldest first) and `amended` (in-place
   * price changes so far) are history: no step reads them.
   */
  datatype Repricer = Repricer(
    root: OrderId,
    current: OrderId,
    attempts: nat,
    startedAt: int,
    config: RepriceConfig,
    phase: Phase,
    trail: seq<OrderId>,
    amended: nat)

  /**
   * The whole machine. `submitting` holds the orders whose first placement has not returned
   * yet, with the repricer to start when it does; `cancelCalls` the broker cancellations that
   * have not returned; `rejected` the ids that trip the fail-closed lock.
   */
  datatype Book = Book(
    orders: seq<Order>,
    repricers: seq<Repricer>,
    submitting: map<OrderId, Option<RepriceConfig>>,
    cancelCalls: multiset<OrderId>,
    rejected: set<OrderId>,
    now: int)

  function Init(now: int): Book {
    Book([], [], map[], multiset{}, {}, now)
  }

  // ---------------------------------------------------------------
  // Submission
  // ---------------------------------------------------------------

  datatype Refusal = NotApproved | DecisionMismatch | DuplicateForPosition | InvalidPlan

  predicate HasActiveOrder(orders: seq<Order>, position: int) {
    exists i :: 0 <= i < |orders| && orders[i].positionId == Some(position) && Active(orders[i].status)
  }

  function SubmitRefusal(orders: seq<Order>, intent: Intent, decision: RiskDecision): Option<Refusal> {
    if !decision.approved then Some(NotApproved)
    else if decision.id != intent.riskDecisionId then Some(DecisionMismatch)
    else if intent.positionId.Some? && HasActiveOrder(orders, intent.positionId.value) then Some(DuplicateForPosition)
    else if decision.allowedQuantity <= 0 then Some(InvalidPlan)
    else None
  }

  function NewOrder(intent: Intent, decision: RiskDecision, algo: Option<string>, now: int): Order {
    Order(intent.strategy, intent.contract, intent.side, intent.positionId, intent.isEntry, intent.batch, algo,
          decision.allowedQuantity, 0, intent.limit, intent.limit, RiskChecked, None, false, None, now, now)
  }

  function RepricerFor(config: Option<RepriceConfig>, emergency: bool): Option<RepriceConfig> {
    if config.Some? && config.value.enabled && !emergency then config else None
  }

  function Submit(b: Book, intent: Intent, decision: RiskDecision, emergency: bool,
                  config: Option<RepriceConfig>, algo: Option<string>): Book {
    if SubmitRefusal(b.orders, intent, decision).Some? then b
    else b.(orders := b.orders + [NewOrder(intent, decision, algo, b.now)],
            submitting := b.submitting[|b.orders| := RepricerFor(config, emergency)])
  }

  function PlacedOrder(o: Order, brokerId: int, status: Status, now: int): Order {
    o.(brokerId := Some(brokerId), status := status, updatedAt := now)
  }

  function SubmitPlaced(b: Book, id: OrderId, brokerId: int, status: Status): Book {
    if id !in b.submitting || id >= |b.orders| then b
    else
      var config := b.submitting[id];
      b.(orders := b.orders[id := PlacedOrder(b.orders[id], brokerId, status, b.now)],
         submitting := b.submitting - {id},
         repricers := if config.None? then b.repricers
                      else b.repricers + [Repricer(id, id, 0, b.now, config.value, Sleeping, [id], 0)])
  }

  function FailedOrder(o: Order, now: int): Order {
    o.(status := Error, updatedAt := now)
  }

  function SubmitFailed(b: Book, id: OrderId): Book {
    if id !in b.submitting || id >= |b.orders| then b
    else b.(orders := b.orders[id := FailedOrder(b.orders[id], b.now)],
            submitting := b.submitting - {id})
  }

  // ---------------------------------------------------------------
  // Cancellation
  // ---------------------------------------------------------------

  /** The part of cancel_order that runs before the broker is called. */
  function CancelledOrder(o: Order, hard: bool, now: int): Order {
    var o1 := if hard then o.(hardCancel := true) else o;
    if Terminal(o1.status) then o1
    else if o1.brokerId.None? then o1.(status := Cancelled, updatedAt := now)
    else o1.(status := CancelPending, updatedAt := now)
  }

  predicate CallsBroker(o: Order) {
    !Terminal(o.status) && o.brokerId.Some?
  }

  function Cancel(b: Book, id: OrderId, hard: bool): Book {
    if id >= |b.orders| then b
    else
      var o := b.orders[id];
      b.(orders := b.orders[id := CancelledOrder(o, hard, b.now)],
         cancelCalls := if CallsBroker(o) then b.cancelCalls + multiset{id} else b.cancelCalls)
  }

  function CancelReturned(b: Book, id: OrderId): Book {
    if id !in b.cancelCalls then b else b.(cancelCalls := b.cancelCalls - multiset{id})
  }

  function CancelRaised(b: Book, id: OrderId): Book {
    if id !in b.cancelCalls || id >= |b.orders| then b
    else b.(orders := b.orders[id := FailedOrder(b.orders[id], b.now)],
            cancelCalls := b.cancelCalls - multiset{id})
  }

  // ---------------------------------------------------------------
  // Stuck-cancel sweep
  // ---------------------------------------------------------------

  /** What the broker answers when asked for an order's status. */
  datatype Report = QueryFailed | Unknown | Known(status: Status)

  const STUCK_AFTER_SECONDS: int := 20

  predicate Stuck(o: Order, at: int) {
    o.status == CancelPending && at - o.updatedAt >= STUCK_AFTER_SECONDS
  }

  /** One order of the sweep started at `at`; an order still working at the broker is left for a new cancel call. */
  function SweptOrder(o: Order, report: Report, at: int): Order {
    if !Stuck(o, at) then o
    else
      var answer := if o.brokerId.Some? then report else Unknown;
      match answer
      case QueryFailed => o
      case Unknown => o.(status := Cancelled, updatedAt := at)
      case Known(s) =>
        if Terminal(s) then o.(status := s, updatedAt := at) else o
  }

  function Sweep(b: Book, id: OrderId, report: Report, at: int): Book {
    if id >= |b.orders| then b
    else b.(orders := b.orders[id := SweptOrder(b.orders[id], report, at)])
  }

  /** The sweep's own cancel call returned: it restarts the age clock, whatever has become of the order. */
  function Recancelled(b: Book, id: OrderId, at: int): Book {
    if id >= |b.orders| then b
    else b.(orders := b.orders[id := b.orders[id].(updatedAt := at)])
  }

  // ---------------------------------------------------------------
  // Broker callback
  // ---------------------------------------------------------------

  /** The first order carrying the broker id. */
  function FindByBrokerId(orders: seq<Order>, brokerId: int): (r: Option<OrderId>)
    ensures r.Some? ==> r.value < |orders| && orders[r.value].brokerId == Some(brokerId)
                        && forall j :: 0 <= j < r.value ==> orders[j].brokerId != Some(brokerId)
    ensures r.None? ==> forall j :: 0 <= j < |orders| ==> orders[j].brokerId != Some(brokerId)
  {
    FindFrom(orders, brokerId, 0)
  }

  function FindFrom(orders: seq<Order>, brokerId: int, from: nat): (r: Option<OrderId>)
    requires from <= |orders|
    ensures r.Some? ==> from <= r.value < |orders| && orders[r.value].brokerId == Some(brokerId)
                        && forall j :: from <= j < r.value ==> orders[j].brokerId != Some(brokerId)
    ensures r.None? ==> forall j :: from <= j < |orders| ==> orders[j].brokerId != Some(brokerId)
    decreases |orders| - from
  {
    if from == |orders| then None
    else if orders[from].brokerId == Some(brokerId) then Some(from)
    else FindFrom(orders, brokerId, from + 1)
  }

  function UpdatedOrder(o: Order, status: Status, filled: nat, now: int): Order {
    if Terminal(o.status) then o
    else if o.status == CancelPending && (status == Rejected || status == Error) then
      o.(status := Cancelled, updatedAt := now)
    else
      var kept := o.status == CancelPending && (status == Submitted || status == PartiallyFilled || status == New);
      o.(status := if kept then CancelPending else status, filled := filled, updatedAt := now)
  }

  /** Does this report count as the broker turning the order down? */
  predicate TripsLock(o: Order, status: Status) {
    && !Terminal(o.status)
    && !(o.status == CancelPending && (status == Rejected || status == Error))
    && ((status == Cancelled && o.status != CancelPending) || status == Rejected || status == Error)
  }

  function BrokerUpdate(b: Book, brokerId: int, status: Status, filled: nat): Book {
    var found := FindByBrokerId(b.orders, brokerId);
    if found.None? then b
    else
      var id := found.value;
      b.(orders := b.orders[id := UpdatedOrder(b.orders[id], status, filled, b.now)],
         rejected := if TripsLock(b.orders[id], status) then b.rejected + {id} else b.rejected)
  }

  // ---------------------------------------------------------------
  // The repricer
  // ---------------------------------------------------------------

  function SetPhase(b: Book, r: nat, phase: Phase): Book
    requires r < |b.repricers|
  {
    b.(repricers := b.repricers[r := b.repricers[r].(phase := phase)])
  }

  predicate At(b: Book, r: nat) {
    r < |b.repricers| && b.repricers[r].current < |b.orders|
  }

  function CurrentOrder(b: Book, r: nat): Order
    requires At(b, r)
  {
    b.orders[b.repricers[r].current]
  }

  predicate TimedOut(p: Repricer, now: int) {
    now - p.startedAt >= p.config.timeoutSeconds
  }

  function Wake(b: Book, r: nat): Book {
    if !At(b, r) || b.repricers[r].phase != Sleeping then b
    else
      var p, o := b.repricers[r], CurrentOrder(b, r);
      if o.hardCancel || Terminal(o.status) then SetPhase(b, r, Done)
      else if TimedOut(p, b.now) || p.attempts >= p.config.maxAttempts then
        Cancel(SetPhase(b, r, Done), p.current, true)
      else SetPhase(b, r, Quoting)
  }

  /** Fall back to cancel/replace: start cancelling the current order, not as a hard cancel. */
  function StartReplace(b: Book, r: nat, price: real): Book
    requires At(b, r)
  {
    var o := CurrentOrder(b, r);
    if o.hardCancel then SetPhase(b, r, Done)
    else if Terminal(o.status) then SetPhase(b, r, Sleeping)
    else
      var b1 := b.(orders := b.orders[b.repricers[r].current := CancelledOrder(o, false, b.now)]);
      SetPhase(b1, r, if o.brokerId.Some? then Cancelling(price) else AwaitingAck(price))
  }

  function Quoted(b: Book, r: nat, quote: Option<Quote>): Book {
    if !At(b, r) || b.repricers[r].phase != Quoting then b
    else if quote.None? || quote.value.bid.None? || quote.value.ask.None? then SetPhase(b, r, Sleeping)
    else
      var p, o := b.repricers[r], CurrentOrder(b, r);
      var price := NextPrice(o.side, o.limit, quote.value.bid.value, quote.value.ask.value, p.attempts, p.config);
      if AbsReal(price - o.limit) < 0.01 then SetPhase(b, r, Sleeping)
      else if o.quantity - o.filled <= 0 then SetPhase(b, r, Done)
      else if p.config.inPlace && o.brokerId.Some? then SetPhase(b, r, Modifying(price))
      else StartReplace(b, r, price)
  }

  function ModifyReply(b: Book, r: nat, modified: bool): Book {
    if !At(b, r) || !b.repricers[r].phase.Modifying? then b
    else
      var p := b.repricers[r];
      if !modified then StartReplace(b, r, p.phase.price)
      else
        b.(orders := b.orders[p.current := CurrentOrder(b, r).(limit := p.phase.price, updatedAt := b.now)],
           repricers := b.repricers[r := p.(attempts := p.attempts + 1, phase := Sleeping, amended := p.amended + 1)])
  }

  datatype Reply = Accepted | Refused | Raised

  function CancelReply(b: Book, r: nat, reply: Reply): Book {
    if !At(b, r) || !b.repricers[r].phase.Cancelling? then b
    else
      match reply
      case Accepted => SetPhase(b, r, AwaitingAck(b.repricers[r].phase.price))
      case Refused => SetPhase(b, r, Sleeping)
      case Raised =>
        var id := b.repricers[r].current;
        SetPhase(b.(orders := b.orders[id := FailedOrder(b.orders[id], b.now)]), r, Sleeping)
  }

  /** The order that continues a cancelled one at a new price. */
  function Replacement(o: Order, price: real, now: int): Order {
    Order(o.strategy, o.contract, o.side, o.positionId, o.isEntry, o.batch, o.algo,
          o.quantity - o.filled, 0, price,
          if o.firstLimit != 0.0 then o.firstLimit else o.limit,
          New, None, false, None, now, now)
  }

  /** One poll of the wait for the cancellation, and what follows it up to the placement call. */
  function AckPoll(b: Book, r: nat): Book {
    if !At(b, r) || !b.repricers[r].phase.AwaitingAck? then b
    else
      var p, o := b.repricers[r], CurrentOrder(b, r);
      if o.status == CancelPending && !TimedOut(p, b.now) then b
      else if o.status != Cancelled || o.hardCancel then SetPhase(b, r, Done)
      else if o.quantity - o.filled <= 0 || p.phase.price <= 0.0 then
        b.(repricers := b.repricers[r := p.(attempts := p.attempts + 1, phase := Done)])
      else
        var next := |b.orders|;
        b.(orders := b.orders[p.current := o.(supersededBy := Some(next))] + [Replacement(o, p.phase.price, b.now)],
           repricers := b.repricers[r := p.(attempts := p.attempts + 1, phase := Placing(next),
                                            trail := p.trail + [next])])
  }

  function ReplacementPlaced(b: Book, r: nat, brokerId: int, status: Status): Book {
    if r >= |b.repricers| || !b.repricers[r].phase.Placing? || b.repricers[r].phase.next >= |b.orders| then b
    else
      var p := b.repricers[r];
      var id := p.phase.next;
      b.(orders := b.orders[id := PlacedOrder(b.orders[id], brokerId, status, b.now)],
         repricers := b.repricers[r := p.(current := id, phase := Sleeping)])
  }

  function ReplacementFailed(b: Book, r: nat): Book {
    if r >= |b.repricers| || !b.repricers[r].phase.Placing? || b.repricers[r].phase.next >= |b.orders| then b
    else
      var id := b.repricers[r].phase.next;
      SetPhase(b.(orders := b.orders[id := FailedOrder(b.orders[id], b.now)]), r, Done)
  }

  // ---------------------------------------------------------------
  // Runs
  // ---------------------------------------------------------------

  datatype Event =
    | EvTime(dt: nat)
    | EvSubmit(intent: Intent, decision: RiskDecision, emergency: bool, config: Option<RepriceConfig>,
               algo: Option<string>)
    | EvSubmitPlaced(id: OrderId, brokerId: int, status: Status)
    | EvSubmitFailed(id: OrderId)
    | EvCancel(id: OrderId, hard: bool)
    | EvCancelReturned(id: OrderId)
    | EvCancelRaised(id: OrderId)
    | EvSweep(id: OrderId, report: Report, at: int)
    | EvRecancelled(id: OrderId, at: int)
    | EvBrokerUpdate(brokerId: int, status: Status, filled: nat)
    | EvWake(r: nat)
    | EvQuoted(r: nat, quote: Option<Quote>)
    | EvModifyReply(r: nat, modified: bool)
    | EvCancelReply(r: nat, reply: Reply)
    | EvAckPoll(r: nat)
    | EvReplacementPlaced(r: nat, brokerId: int, status: Status)
    | EvReplacementFailed(r: nat)
    | EvRejectedCleared

  /** A step that is not enabled leaves the book as it is. */
  function Step(b: Book, e: Event): Book {
    match e
    case EvTime(dt) => b.(now := b.now + dt)
    case EvSubmit(intent, decision, emergency, config, algo) => Submit(b, intent, decision, emergency, config, algo)
    case EvSubmitPlaced(id, brokerId, status) => SubmitPlaced(b, id, brokerId, status)
    case EvSubmitFailed(id) => SubmitFailed(b, id)
    case EvCancel(id, hard) => Cancel(b, id, hard)
    case EvCancelReturned(id) => CancelReturned(b, id)
    case EvCancelRaised(id) => CancelRaised(b, id)
    case EvSweep(id, report, at) => Sweep(b, id, report, at)
    case EvRecancelled(id, at) => Recancelled(b, id, at)
    case EvBrokerUpdate(brokerId, status, filled) => BrokerUpdate(b, brokerId, status, filled)
    case EvWake(r) => Wake(b, r)
    case EvQuoted(r, quote) => Quoted(b, r, quote)
    case EvModifyReply(r, modified) => ModifyReply(b, r, modified)
    case EvCancelReply(r, reply) => CancelReply(b, r, reply)
    case EvAckPoll(r) => AckPoll(b, r)
    case EvReplacementPlaced(r, brokerId, status) => ReplacementPlaced(b, r, brokerId, status)
    case EvReplacementFailed(r) => ReplacementFailed(b, r)
    case EvRejectedCleared => b.(rejected := {})
  }

  function Run(b: Book, events: seq<Event>): Book
    decreases |events|
  {
    if events == [] then b else Run(Step(b, events[0]), events[1..])
  }

  /** The repricer an event belongs to, if it belongs to one. */
  predicate OfRepricer(e: Event) {
    e.EvWake? || e.EvQuoted? || e.EvModifyReply? || e.EvCancelReply? || e.EvAckPoll?
    || e.EvReplacementPlaced? || e.EvReplacementFailed?
  }

  /** The stuck-cancel sweep over the first n orders, started at `at`. */
  function SweepAll(b: Book, n: nat, at: int, reports: OrderId -> Report, recancels: OrderId -> bool,
                    pause: OrderId -> seq<Event>): Book {
    if n == 0 then b
    else
      var i := n - 1;
      var before := SweepAll(b, i, at, reports, recancels, pause);
      var swept := Sweep(before, i, reports(i), at);
      if Reissues(before, i, reports(i), at) then
        var after := Run(swept, pause(i));
        if recancels(i) then Recancelled(after, i, at) else after
      else swept
  }

  /** A stuck order that the broker still works gets a new cancel call. */
  predicate Reissues(b: Book, i: OrderId, report: Report, at: int) {
    && i < |b.orders| && Stuck(b.orders[i], at) && b.orders[i].brokerId.Some?
    && report.Known? && !Terminal(report.status)
  }
}
