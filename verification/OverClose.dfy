/**
 * Can the exits of a position sell more than it held? What its orders may still fill, when a step commits too
 * much of it, and two runs that do.
 */
module OverClose {
  import opened Domain
  import opened Pricing
  import opened Orders
  import opened OrderChains
  import opened OrderTheorems
  import opened OrderRaces
  import opened Sums
  import Positions

  // ---------------------------------------------------------------
  // What the orders of a position may still fill
  // ---------------------------------------------------------------

  /** All of an active order may fill; of an order that is over, what it has filled. */
  function Share(o: Order): int {
    if Active(o.status) then o.quantity else o.filled
  }

  function ShareOf(position: int): Order -> int {
    (o: Order) => if o.positionId == Some(position) then Share(o) else 0
  }

  function FilledOf(position: int): Order -> int {
    (o: Order) => if o.positionId == Some(position) then o.filled else 0
  }

  function Exposure(orders: seq<Order>, position: int): int {
    SumInt(orders, ShareOf(position))
  }

  function TotalFilled(orders: seq<Order>, position: int): int {
    SumInt(orders, FilledOf(position))
  }

  lemma {:induction false} SumIntLe<T>(s: seq<T>, t: seq<T>, f: T -> int, g: T -> int)
    requires |s| == |t| && forall i :: 0 <= i < |s| ==> f(s[i]) <= g(t[i])
    ensures SumInt(s, f) <= SumInt(t, g)
  {
    if s != [] {
      SumIntLe(s[..|s| - 1], t[..|t| - 1], f, g);
    }
  }

  lemma FillsWithinExposure(b: Book, position: int)
    requires NoOverfill(b)
    ensures TotalFilled(b.orders, position) <= Exposure(b.orders, position)
  {
    SumIntLe(b.orders, b.orders, FilledOf(position), ShareOf(position));
  }

  /** With no active order of the position, what its orders may fill is what they have filled. */
  lemma QuietExposure(b: Book, position: int)
    requires NoOverfill(b) && !HasActiveOrder(b.orders, position)
    ensures TotalFilled(b.orders, position) == Exposure(b.orders, position)
  {
    SumIntLe(b.orders, b.orders, FilledOf(position), ShareOf(position));
    SumIntLe(b.orders, b.orders, ShareOf(position), FilledOf(position));
  }

  // ---------------------------------------------------------------
  // The steps that commit more
  // ---------------------------------------------------------------

  /** What a step adds to an order's claim: all of a new order, the rest of a replaced or revived one. */
  ghost function Added(b: Book, e: Event, position: int): int {
    if e.EvSubmit? && SubmitRefusal(b.orders, e.intent, e.decision).None? then
      if e.intent.positionId == Some(position) then e.decision.allowedQuantity else 0
    else if e.EvAckPoll? && Replaces(b, e.r) then
      var o := CurrentOrder(b, e.r);
      if o.positionId == Some(position) then o.quantity - o.filled else 0
    else if i: OrderId :| i < |b.orders| && Revives(b, e, i) then
      var o := b.orders[i];
      if o.positionId == Some(position) then o.quantity - o.filled else 0
    else 0
  }

  ghost predicate Overcommits(b: Book, e: Event, position: int, held: int) {
    Exposure(b.orders, position) + Added(b, e, position) > held
  }

  lemma MovedShare(b: Book, e: Event, i: OrderId, o: Order, o': Order)
    requires i < |b.orders| && b.orders[i] == o && Moved(b, e, i, o, o') && !Revives(b, e, i)
    requires o.filled <= o.quantity && Honest(b, e)
    ensures o'.positionId == o.positionId && Share(o') <= Share(o)
  {
    hide FindByBrokerId, PlacementReturns;
    if o' == CancelledOrder(o, true, b.now) {
    } else if o' == CancelledOrder(o, false, b.now) {
    } else if e.EvSweep? && o' == SweptOrder(o, e.report, e.at) {
    } else if Reported(b, e, i) && o' == UpdatedOrder(o, e.status, e.filled, b.now) {
    }
  }

  lemma SubmissionAdds(b: Book, e: Event, position: int)
    requires e.EvSubmit? && SubmitRefusal(b.orders, e.intent, e.decision).None?
    ensures Exposure(Step(b, e).orders, position) == Exposure(b.orders, position) + Added(b, e, position)
  {
    hide SubmitRefusal;
    SumIntAppend(b.orders, NewOrder(e.intent, e.decision, e.algo, b.now), ShareOf(position));
  }

  lemma ReplacementAdds(b: Book, r: nat, position: int)
    requires Replaces(b, r)
    ensures Exposure(AckPoll(b, r).orders, position) == Exposure(b.orders, position) + Added(b, EvAckPoll(r), position)
  {
    var p, o := b.repricers[r], CurrentOrder(b, r);
    var linked := o.(supersededBy := Some(|b.orders|));
    SumIntUpdate(b.orders, p.current, linked, ShareOf(position));
    SumIntAppend(b.orders[p.current := linked], Replacement(o, p.phase.price, b.now), ShareOf(position));
  }

  lemma RevivalAdds(b: Book, e: Event, i: OrderId, position: int)
    requires Inv(b) && i < |b.orders| && Revives(b, e, i)
    ensures Exposure(Step(b, e).orders, position) == Exposure(b.orders, position) + Added(b, e, position)
  {
    hide Inv;
    RevivalAlone(b, e, i);
    RevivedOrder(b, e, i);
    SumIntUpdate(b.orders, i, PlacedOrder(b.orders[i], e.brokerId, e.status, b.now), ShareOf(position));
  }

  lemma RevivedOrder(b: Book, e: Event, i: OrderId)
    requires i < |b.orders| && Revives(b, e, i)
    ensures Step(b, e).orders == b.orders[i := PlacedOrder(b.orders[i], e.brokerId, e.status, b.now)]
  {
  }

  lemma NothingAdds(b: Book, e: Event, position: int)
    requires Inv(b) && NoOverfill(b) && Honest(b, e) && |Step(b, e).orders| == |b.orders|
    requires forall i :: 0 <= i < |b.orders| ==> !Revives(b, e, i)
    ensures Exposure(Step(b, e).orders, position) <= Exposure(b.orders, position)
  {
    hide Inv, Step, Moved, Revives, Honest, Share;
    var after := Step(b, e).orders;
    forall i | 0 <= i < |b.orders| ensures ShareOf(position)(after[i]) <= ShareOf(position)(b.orders[i]) {
      StepMove(b, e, i);
      MovedShare(b, e, i, b.orders[i], after[i]);
    }
    SumIntLe(after, b.orders, ShareOf(position), ShareOf(position));
  }

  /** One step moves what the orders may fill by what it adds; other steps never raise it. */
  lemma StepExposure(b: Book, e: Event, position: int)
    requires Inv(b) && NoOverfill(b) && Honest(b, e)
    ensures
      var before, after := Exposure(b.orders, position), Exposure(Step(b, e).orders, position);
      after <= before + Added(b, e, position)
        && (Added(b, e, position) != 0 ==> after == before + Added(b, e, position))
  {
    hide Inv, NoOverfill, Honest, Step, Exposure, Revives, Replaces, SubmitRefusal;
    if e.EvSubmit? && SubmitRefusal(b.orders, e.intent, e.decision).None? {
      SubmissionAdds(b, e, position);
    } else if e.EvAckPoll? && Replaces(b, e.r) {
      ReplacementAdds(b, e.r, position);
      AckPollIsStep(b, e.r);
    } else if i: OrderId :| i < |b.orders| && Revives(b, e, i) {
      RevivalAdds(b, e, i, position);
    } else {
      if |Step(b, e).orders| != |b.orders| {
        OnlyTwoAppend(b, e);
      }
      NothingAdds(b, e, position);
    }
  }

  /** From within what is held, an honest step stays within it exactly when it does not overcommit. */
  lemma WithinIff(b: Book, e: Event, position: int, held: int)
    requires Inv(b) && NoOverfill(b) && Honest(b, e) && Exposure(b.orders, position) <= held
    ensures Exposure(Step(b, e).orders, position) <= held <==> !Overcommits(b, e, position, held)
  {
    hide Inv, NoOverfill, Honest, Step, Exposure, Added;
    StepExposure(b, e, position);
  }

  /** A step that clashes with nothing overcommits exactly when it asks for more than is held and not yet filled. */
  lemma UnclashedOvercommitsIff(b: Book, e: Event, position: int, held: int)
    requires Inv(b) && NoOverfill(b) && Added(b, e, position) > 0 && !Clashes(b, e)
    ensures Overcommits(b, e, position, held) <==> Added(b, e, position) > held - TotalFilled(b.orders, position)
  {
    hide Inv, NoOverfill, Exposure, TotalFilled;
    assert !HasActiveOrder(b.orders, position);
    QuietExposure(b, position);
  }

  // ---------------------------------------------------------------
  // Over runs
  // ---------------------------------------------------------------

  ghost predicate NeverOvercommits(b: Book, events: seq<Event>, position: int, held: int)
    decreases |events|
  {
    events == []
    || (!Overcommits(b, events[0], position, held) && NeverOvercommits(Step(b, events[0]), events[1..], position, held))
  }

  ghost predicate AlwaysWithin(b: Book, events: seq<Event>, position: int, held: int)
    decreases |events|
  {
    && Exposure(b.orders, position) <= held
    && (events == [] || AlwaysWithin(Step(b, events[0]), events[1..], position, held))
  }

  /**
   * Over any honest run: what the orders of the position may fill stays within what it held exactly when no step
   * overcommits.
   */
  lemma {:induction false} AlwaysWithinIff(b: Book, events: seq<Event>, position: int, held: int)
    requires Inv(b) && NoOverfill(b) && HonestRun(b, events) && Exposure(b.orders, position) <= held
    ensures AlwaysWithin(b, events, position, held) <==> NeverOvercommits(b, events, position, held)
    decreases |events|
  {
    hide Inv, NoOverfill, Honest, Step, Exposure, Overcommits;
    if events != [] {
      WithinIff(b, events[0], position, held);
      StepKeeps(b, events[0]);
      StepNoOverfill(b, events[0]);
      if Exposure(Step(b, events[0]).orders, position) <= held {
        AlwaysWithinIff(Step(b, events[0]), events[1..], position, held);
      } else {
        NotWithin(Step(b, events[0]), events[1..], position, held);
      }
    }
  }

  lemma NotWithin(b: Book, events: seq<Event>, position: int, held: int)
    requires Exposure(b.orders, position) > held
    ensures !AlwaysWithin(b, events, position, held)
  {
  }

  lemma {:induction false} WithinAtEnd(b: Book, events: seq<Event>, position: int, held: int)
    requires AlwaysWithin(b, events, position, held)
    ensures Exposure(Run(b, events).orders, position) <= held
    decreases |events|
  {
    hide Step, Exposure;
    if events != [] {
      WithinAtEnd(Step(b, events[0]), events[1..], position, held);
    }
  }

  /** So all exits of a position together, with all their replacements, never fill more than it held. */
  lemma NeverOverCloses(now: int, events: seq<Event>, position: int, held: nat)
    requires HonestRun(Init(now), events) && NeverOvercommits(Init(now), events, position, held)
    ensures TotalFilled(Reached(now, events).orders, position) <= held
  {
    hide Inv, HonestRun, NeverOvercommits;
    ReachedInv(now, []);
    AlwaysWithinIff(Init(now), events, position, held);
    WithinAtEnd(Init(now), events, position, held);
    RunNoOverfill(Init(now), events);
    FillsWithinExposure(Reached(now, events), position);
  }

  // ---------------------------------------------------------------
  // An overcommitted position can be over-closed
  // ---------------------------------------------------------------

  /** Every active order of the position has a broker id of its own. */
  predicate Identified(orders: seq<Order>, position: int) {
    forall i, j ::
      (0 <= i < |orders| && 0 <= j < |orders| && orders[i].positionId == Some(position) && Active(orders[i].status)) ==>
        orders[i].brokerId.Some? && (orders[j].brokerId == orders[i].brokerId ==> i == j)
  }

  predicate OnlyReports(events: seq<Event>) {
    forall k :: 0 <= k < |events| ==> events[k].EvBrokerUpdate?
  }

  ghost predicate CanOverClose(b: Book, position: int, held: int) {
    exists events :: OnlyReports(events) && HonestRun(b, events)
      && TotalFilled(Run(b, events).orders, position) > held
  }

  lemma ReportsAddNothing(b: Book, e: Event, position: int)
    requires e.EvBrokerUpdate?
    ensures Added(b, e, position) == 0
  {
  }

  lemma {:induction false} ReportsStayWithin(b: Book, events: seq<Event>, position: int)
    requires Inv(b) && NoOverfill(b) && OnlyReports(events) && HonestRun(b, events)
    ensures TotalFilled(Run(b, events).orders, position) <= Exposure(b.orders, position)
    decreases |events|
  {
    hide Inv, NoOverfill, Honest, Step, Exposure, Added, TotalFilled;
    if events == [] {
      FillsWithinExposure(b, position);
    } else {
      ReportsAddNothing(b, events[0], position);
      StepExposure(b, events[0], position);
      StepKeeps(b, events[0]);
      StepNoOverfill(b, events[0]);
      ReportsStayWithin(Step(b, events[0]), events[1..], position);
    }
  }

  function FilledOrder(o: Order, now: int): Order {
    o.(status := Filled, filled := if o.quantity > 0 then o.quantity else 0, updatedAt := now)
  }

  /** The broker fills an active order of the position completely. */
  lemma FillOne(b: Book, i: OrderId, position: int) returns (e: Event)
    requires Inv(b) && Identified(b.orders, position)
    requires i < |b.orders| && b.orders[i].positionId == Some(position) && Active(b.orders[i].status)
    ensures e.EvBrokerUpdate? && Honest(b, e)
    ensures Step(b, e).orders == b.orders[i := FilledOrder(b.orders[i], b.now)]
    ensures Exposure(Step(b, e).orders, position) == Exposure(b.orders, position)
  {
    hide Inv, Step, Share, Active, FindByBrokerId, SumInt, Honest;
    var o := b.orders[i];
    AsksForSome(b, i);
    e := EvBrokerUpdate(o.brokerId.value, Filled, o.quantity);
    FoundById(b.orders, i, position);
    FullReport(b, i, e.brokerId);
    SumIntUpdate(b.orders, i, FilledOrder(o, b.now), ShareOf(position));
    SharesFilled(o, b.now);
  }

  lemma AsksForSome(b: Book, i: OrderId)
    requires Inv(b) && i < |b.orders|
    ensures b.orders[i].quantity > 0
  {
    assert OrderOk(b, i);
  }

  lemma FoundById(orders: seq<Order>, i: OrderId, position: int)
    requires Identified(orders, position)
    requires i < |orders| && orders[i].positionId == Some(position) && Active(orders[i].status)
    ensures orders[i].brokerId.Some? && FindByBrokerId(orders, orders[i].brokerId.value) == Some(i)
  {
  }

  lemma FullReport(b: Book, i: OrderId, brokerId: int)
    requires i < |b.orders| && b.orders[i].quantity > 0 && Active(b.orders[i].status)
    requires FindByBrokerId(b.orders, brokerId) == Some(i)
    ensures
      var e := EvBrokerUpdate(brokerId, Filled, b.orders[i].quantity);
      Honest(b, e) && Step(b, e).orders == b.orders[i := FilledOrder(b.orders[i], b.now)]
  {
    hide FindByBrokerId;
  }

  lemma SharesFilled(o: Order, now: int)
    requires o.quantity > 0 && Active(o.status)
    ensures Share(FilledOrder(o, now)) == Share(o)
  {
  }

  lemma StillIdentified(orders: seq<Order>, i: OrderId, now: int, position: int)
    requires Identified(orders, position) && i < |orders|
    ensures Identified(orders[i := FilledOrder(orders[i], now)], position)
  {
  }

  /** Reports can fill every active order of the position among the first n. */
  lemma {:induction false} FillUp(b: Book, n: nat, position: int) returns (events: seq<Event>)
    requires Inv(b) && Identified(b.orders, position) && n <= |b.orders|
    ensures OnlyReports(events) && HonestRun(b, events)
    ensures
      var b' := Run(b, events);
      && Inv(b') && |b'.orders| == |b.orders| && Identified(b'.orders, position)
      && Exposure(b'.orders, position) == Exposure(b.orders, position)
      && !HasActiveOrder(b'.orders[..n], position)
  {
    hide Inv, Identified, Exposure, Honest, Step;
    if n == 0 {
      events := [];
    } else {
      var before := FillUp(b, n - 1, position);
      var t := Run(b, before);
      events := before;
      if t.orders[n - 1].positionId == Some(position) && Active(t.orders[n - 1].status) {
        var e := FillOne(t, n - 1, position);
        StillIdentified(t.orders, n - 1, t.now, position);
        StepKeeps(t, e);
        events := before + [e];
        RunAppend(b, before, [e]);
        RunOne(t, e);
        HonestOne(t, e);
        HonestAppend(b, before, [e]);
        assert Step(t, e).orders[..n - 1] == t.orders[..n - 1];
        NotActiveNow(Step(t, e).orders, n - 1, position);
      } else {
        NotActiveNow(t.orders, n - 1, position);
      }
    }
  }

  lemma NotActiveNow(orders: seq<Order>, n: nat, position: int)
    requires n < |orders| && !HasActiveOrder(orders[..n], position)
    requires orders[n].positionId == Some(position) ==> !Active(orders[n].status)
    ensures !HasActiveOrder(orders[..n + 1], position)
  {
    assert orders[..n + 1] == orders[..n] + [orders[n]];
    assert forall i :: 0 <= i < n ==> orders[..n + 1][i] == orders[..n][i];
  }

  lemma HonestOne(b: Book, e: Event)
    requires Honest(b, e)
    ensures HonestRun(b, [e])
  {
    hide Step, Honest;
    var none: seq<Event> := [];
    assert [e][1..] == none;
    assert HonestRun(Step(b, e), none);
  }

  lemma {:induction false} HonestAppend(b: Book, first: seq<Event>, second: seq<Event>)
    requires HonestRun(b, first) && HonestRun(Run(b, first), second)
    ensures HonestRun(b, first + second)
    decreases |first|
  {
    hide Step, Honest;
    if first == [] {
      assert first + second == second;
    } else {
      assert (first + second)[1..] == first[1..] + second;
      HonestAppend(Step(b, first[0]), first[1..], second);
    }
  }

  /** Honest reports alone can take the fills of a position past a quantity exactly when its exposure is past it. */
  lemma CanOverCloseIff(b: Book, position: int, held: int)
    requires Inv(b) && NoOverfill(b) && Identified(b.orders, position)
    ensures CanOverClose(b, position, held) <==> Exposure(b.orders, position) > held
  {
    hide Inv, NoOverfill, Identified, Exposure, TotalFilled, HonestRun, Run;
    var fill := FillUp(b, |b.orders|, position);
    var full := Run(b, fill);
    assert full.orders[..|b.orders|] == full.orders;
    RunNoOverfill(b, fill);
    QuietExposure(full, position);
    forall events | OnlyReports(events) && HonestRun(b, events)
      ensures TotalFilled(Run(b, events).orders, position) <= Exposure(b.orders, position)
    {
      ReportsStayWithin(b, events, position);
    }
  }

  // ---------------------------------------------------------------
  // What the position then shows
  // ---------------------------------------------------------------

  function SumQuantity(fills: seq<Positions.Fill>): nat {
    if fills == [] then 0 else SumQuantity(fills[..|fills| - 1]) + fills[|fills| - 1].quantity
  }

  /** A position once these fills have reached it. */
  function Exited(p: Positions.Position, fills: seq<Positions.Fill>): Positions.Position {
    if fills == [] then p else Positions.Filled(Exited(p, fills[..|fills| - 1]), fills[|fills| - 1])
  }

  /**
   * Exit fills draw a position down to what is left and no further: its books are right exactly when they stay within
   * it.
   */
  lemma {:induction false} BookedRightIff(p: Positions.Position, fills: seq<Positions.Fill>)
    requires forall k :: 0 <= k < |fills| ==> fills[k].side != p.side
    ensures
      var left := p.quantity - SumQuantity(fills);
      && Exited(p, fills).quantity == (if left > 0 then left else 0) && Exited(p, fills).side == p.side
      && (Exited(p, fills).quantity == left <==> SumQuantity(fills) <= p.quantity)
  {
    if fills != [] {
      BookedRightIff(p, fills[..|fills| - 1]);
      DrawsDown(Exited(p, fills[..|fills| - 1]), fills[|fills| - 1]);
    }
  }

  lemma DrawsDown(p: Positions.Position, f: Positions.Fill)
    requires f.side != p.side
    ensures
      var q := Positions.Filled(p, f);
      q.side == p.side && q.quantity == if f.quantity < p.quantity then p.quantity - f.quantity else 0
  {
    hide Positions.Gain, Positions.WithExit;
  }

  /** With honest reports, no overcommitment, and every reported fill booked, the position shows what it should. */
  lemma PositionStaysRight(now: int, events: seq<Event>, p: Positions.Position, fills: seq<Positions.Fill>)
    requires HonestRun(Init(now), events) && NeverOvercommits(Init(now), events, p.id, p.quantity)
    requires forall k :: 0 <= k < |fills| ==> fills[k].side != p.side
    requires SumQuantity(fills) == TotalFilled(Reached(now, events).orders, p.id)
    ensures Exited(p, fills).quantity == p.quantity - TotalFilled(Reached(now, events).orders, p.id)
  {
    hide HonestRun, NeverOvercommits, Exited, TotalFilled;
    NeverOverCloses(now, events, p.id, p.quantity);
    BookedRightIff(p, fills);
  }

  // ---------------------------------------------------------------
  // Two runs that over-close
  // ---------------------------------------------------------------

  /** The first exit, cancelled to be replaced at 1.20. */
  function FirstExit(intent: Intent): Order {
    OneSell(intent, 1, 0, Cancelled, AwaitingAck(1.2)).orders[0]
  }

  function SecondExit(intent: Intent): Order {
    NewOrder(intent, FirstDecision(intent), None, 0)
  }

  function Answered(o: Order, brokerId: int): Order {
    PlacedOrder(o, brokerId, Submitted, 0)
  }

  function Sold(o: Order, brokerId: int): Order {
    FilledOrder(Answered(o, brokerId), 0)
  }

  function ThirdExit(intent: Intent): Order {
    Replacement(FirstExit(intent), 1.2, 0)
  }

  /** The book before the first exit is replaced, by the second one's state. */
  function Due(intent: Intent, second: Order, submitting: map<OrderId, Option<RepriceConfig>>): Book {
    var b := OneSell(intent, 1, 0, Cancelled, AwaitingAck(1.2));
    b.(orders := [FirstExit(intent), second], submitting := submitting)
  }

  /** And once it has been, by the state of both. */
  function Replaced(intent: Intent, second: Order, third: Order, placed: bool,
                    submitting: map<OrderId, Option<RepriceConfig>>): Book {
    var b := OneSell(intent, 1, 0, Cancelled, AwaitingAck(1.2));
    var p := b.repricers[0].(attempts := 1, trail := [0, 2]);
    b.(orders := [FirstExit(intent).(supersededBy := Some(2)), second, third],
       repricers := [if placed then p.(current := 2, phase := Sleeping) else p.(phase := Placing(2))],
       submitting := submitting)
  }

  predicate TwoExits(first: Intent, second: Intent) {
    first.side == Sell && first.limit == 1.0 && first.positionId.Some? && second.positionId == first.positionId
  }

  lemma SubmitsSecond(first: Intent, second: Intent)
    requires TwoExits(first, second)
    ensures
      Step(OneSell(first, 1, 0, Cancelled, AwaitingAck(1.2)),
           EvSubmit(second, FirstDecision(second), false, None, None))
      == Due(first, SecondExit(second), map[1 := None])
  {
    var b := OneSell(first, 1, 0, Cancelled, AwaitingAck(1.2));
    assert b.orders + [SecondExit(second)] == [FirstExit(first), SecondExit(second)];
  }

  lemma Polls(first: Intent, second: Order, submitting: map<OrderId, Option<RepriceConfig>>)
    ensures Step(Due(first, second, submitting), EvAckPoll(0))
        == Replaced(first, second, ThirdExit(first), false, submitting)
  {
    var b := Due(first, second, submitting);
    var linked := FirstExit(first).(supersededBy := Some(2));
    assert b.orders[0 := linked] + [ThirdExit(first)] == [linked, second, ThirdExit(first)];
    assert b.repricers[0].trail + [2] == [0, 2];
  }

  lemma PlacesSecond(first: Intent, second: Order)
    ensures
      Step(Due(first, second, map[1 := None]), EvSubmitPlaced(1, 8, Submitted))
        == Due(first, Answered(second, 8), map[])
    ensures
      Step(Replaced(first, second, ThirdExit(first), false, map[1 := None]), EvSubmitPlaced(1, 8, Submitted))
      == Replaced(first, Answered(second, 8), ThirdExit(first), false, map[])
  {
    var m: map<OrderId, Option<RepriceConfig>> := map[1 := None];
    assert m - {1} == map[];
  }

  lemma PlacesThird(first: Intent, second: Order)
    ensures
      Step(Replaced(first, second, ThirdExit(first), false, map[]), EvReplacementPlaced(0, 9, Submitted))
      == Replaced(first, second, Answered(ThirdExit(first), 9), true, map[])
  {
  }

  lemma SellsSecond(first: Intent, second: Intent)
    ensures
      Step(Due(first, Answered(SecondExit(second), 8), map[]), EvBrokerUpdate(8, Filled, 1))
      == Due(first, Sold(SecondExit(second), 8), map[])
    ensures
      var third := Answered(ThirdExit(first), 9);
      Step(Replaced(first, Answered(SecondExit(second), 8), third, true, map[]), EvBrokerUpdate(8, Filled, 1))
      == Replaced(first, Sold(SecondExit(second), 8), third, true, map[])
  {
    var b := Due(first, Answered(SecondExit(second), 8), map[]);
    assert FindFrom(b.orders, 8, 1) == Some(1);
    assert FindByBrokerId(b.orders, 8) == Some(1);
    var b' := Replaced(first, Answered(SecondExit(second), 8), Answered(ThirdExit(first), 9), true, map[]);
    assert FindFrom(b'.orders, 8, 1) == Some(1);
    assert FindByBrokerId(b'.orders, 8) == Some(1);
  }

  lemma SellsThird(first: Intent, second: Intent)
    ensures
      Step(Replaced(first, Sold(SecondExit(second), 8), Answered(ThirdExit(first), 9), true, map[]),
           EvBrokerUpdate(9, Filled, 1))
      == Replaced(first, Sold(SecondExit(second), 8), Sold(ThirdExit(first), 9), true, map[])
  {
    var b := Replaced(first, Sold(SecondExit(second), 8), Answered(ThirdExit(first), 9), true, map[]);
    assert FindFrom(b.orders, 9, 2) == Some(2);
    assert FindFrom(b.orders, 9, 1) == Some(2);
    assert FindByBrokerId(b.orders, 9) == Some(2);
  }

  lemma TotalOfThree(a: Order, b: Order, c: Order, position: int)
    ensures
      var f := FilledOf(position);
      TotalFilled([a, b, c], position) == f(a) + f(b) + f(c)
  {
    var f := FilledOf(position);
    SumIntAppend([], a, f);
    SumIntAppend([a], b, f);
    SumIntAppend([a, b], c, f);
    assert [] + [a] == [a] && [a] + [b] == [a, b] && [a, b] + [c] == [a, b, c];
  }

  lemma ExitFills(first: Intent, second: Intent)
    requires TwoExits(first, second)
    ensures
      var f := FilledOf(first.positionId.value);
      && f(FirstExit(first).(supersededBy := Some(2))) == 0
      && f(Sold(SecondExit(second), 8)) == 1 && f(Sold(ThirdExit(first), 9)) == 1
  {
  }

  lemma SoldTwice(first: Intent, second: Intent)
    requires TwoExits(first, second)
    ensures
      var orders := Replaced(first, Sold(SecondExit(second), 8), Sold(ThirdExit(first), 9), true, map[]).orders;
      TotalFilled(orders, first.positionId.value) == 2
  {
    hide Sold, SecondExit, ThirdExit, FirstExit, FilledOf, TotalFilled, OneSell;
    ExitFills(first, second);
    TotalOfThree(FirstExit(first).(supersededBy := Some(2)), Sold(SecondExit(second), 8), Sold(ThirdExit(first), 9),
                 first.positionId.value);
  }

  /** A second exit slips in while the first is due for replacement, and is filled before the repricer's next poll. */
  function InTurn(second: Intent): seq<Event> {
    [EvSubmit(second, FirstDecision(second), false, None, None), EvSubmitPlaced(1, 8, Submitted),
     EvBrokerUpdate(8, Filled, 1), EvAckPoll(0), EvReplacementPlaced(0, 9, Submitted), EvBrokerUpdate(9, Filled, 1)]
  }

  function InTurnBooks(first: Intent, second: Intent): seq<Book> {
    var s, t := SecondExit(second), ThirdExit(first);
    [OneSell(first, 1, 0, Cancelled, AwaitingAck(1.2)),
     Due(first, s, map[1 := None]),
     Due(first, Answered(s, 8), map[]),
     Due(first, Sold(s, 8), map[]),
     Replaced(first, Sold(s, 8), t, false, map[]),
     Replaced(first, Sold(s, 8), Answered(t, 9), true, map[]),
     Replaced(first, Sold(s, 8), Sold(t, 9), true, map[])]
  }

  lemma InTurnSteps(first: Intent, second: Intent)
    requires TwoExits(first, second)
    ensures forall k :: 0 <= k < 6 ==>
        Step(InTurnBooks(first, second)[k], InTurn(second)[k]) == InTurnBooks(first, second)[k + 1]
  {
    hide Step, OneSell, Due, Replaced, SecondExit, ThirdExit, Answered, Sold;
    SubmitsSecond(first, second);
    PlacesSecond(first, SecondExit(second));
    SellsSecond(first, second);
    Polls(first, Sold(SecondExit(second), 8), map[]);
    PlacesThird(first, Sold(SecondExit(second), 8));
    SellsThird(first, second);
  }

  /** The same six events, but the repricer polls while the second exit is still working. */
  function Together(second: Intent): seq<Event> {
    [EvSubmit(second, FirstDecision(second), false, None, None), EvAckPoll(0), EvSubmitPlaced(1, 8, Submitted),
     EvReplacementPlaced(0, 9, Submitted), EvBrokerUpdate(8, Filled, 1), EvBrokerUpdate(9, Filled, 1)]
  }

  function TogetherBooks(first: Intent, second: Intent): seq<Book> {
    var s, t := SecondExit(second), ThirdExit(first);
    [OneSell(first, 1, 0, Cancelled, AwaitingAck(1.2)),
     Due(first, s, map[1 := None]),
     Replaced(first, s, t, false, map[1 := None]),
     Replaced(first, Answered(s, 8), t, false, map[]),
     Replaced(first, Answered(s, 8), Answered(t, 9), true, map[]),
     Replaced(first, Sold(s, 8), Answered(t, 9), true, map[]),
     Replaced(first, Sold(s, 8), Sold(t, 9), true, map[])]
  }

  lemma TogetherSteps(first: Intent, second: Intent)
    requires TwoExits(first, second)
    ensures forall k :: 0 <= k < 6 ==>
      Step(TogetherBooks(first, second)[k], Together(second)[k]) == TogetherBooks(first, second)[k + 1]
  {
    hide Step, OneSell, Due, Replaced, SecondExit, ThirdExit, Answered, Sold;
    SubmitsSecond(first, second);
    Polls(first, SecondExit(second), map[1 := None]);
    PlacesSecond(first, SecondExit(second));
    PlacesThird(first, Answered(SecondExit(second), 8));
    SellsSecond(first, second);
    SellsThird(first, second);
  }

  lemma {:induction false} HonestThrough(books: seq<Book>, events: seq<Event>)
    requires |books| == |events| + 1
    requires forall k :: 0 <= k < |events| ==> Step(books[k], events[k]) == books[k + 1] && Honest(books[k], events[k])
    ensures HonestRun(books[0], events)
    decreases |events|
  {
    hide Step, Honest;
    if events != [] {
      assert forall k :: 0 <= k < |events| - 1 ==> books[1..][k] == books[k + 1] && events[1..][k] == events[k + 1];
      HonestThrough(books[1..], events[1..]);
    }
  }

  lemma {:induction false} UnfilledIsHonest(b: Book, events: seq<Event>)
    requires Inv(b) && forall k :: 0 <= k < |events| ==> (events[k].EvBrokerUpdate? ==> events[k].filled == 0)
    ensures HonestRun(b, events)
    decreases |events|
  {
    hide Inv, Step, Honest;
    if events != [] {
      UnfilledReport(b, events[0]);
      StepKeeps(b, events[0]);
      assert forall k :: 0 <= k < |events| - 1 ==> events[1..][k] == events[k + 1];
      UnfilledIsHonest(Step(b, events[0]), events[1..]);
    }
  }

  lemma UnfilledReport(b: Book, e: Event)
    requires Inv(b) && (e.EvBrokerUpdate? ==> e.filled == 0)
    ensures Honest(b, e)
  {
    if e.EvBrokerUpdate? && FindByBrokerId(b.orders, e.brokerId).Some? {
      assert OrderOk(b, FindByBrokerId(b.orders, e.brokerId).value);
    }
  }

  lemma OneEachIsHonest(b: Book, e: Event)
    requires forall i :: 0 <= i < |b.orders| ==> b.orders[i].quantity == 1
    requires e.EvBrokerUpdate? ==> e.filled <= 1
    ensures Honest(b, e)
  {
  }

  /** A run beginning with the first exit, cancelled to be replaced, and going on through the given books. */
  lemma SoldTwiceBy(first: Intent, second: Intent, books: seq<Book>, events: seq<Event>)
    requires TwoExits(first, second) && |books| == |events| + 1
    requires books[0] == OneSell(first, 1, 0, Cancelled, AwaitingAck(1.2))
    requires books[|events|] == Replaced(first, Sold(SecondExit(second), 8), Sold(ThirdExit(first), 9), true, map[])
    requires forall k :: 0 <= k < |events| ==> Step(books[k], events[k]) == books[k + 1] && Honest(books[k], events[k])
    ensures
      var all := UpToCancelled(first, 1, 0) + events;
      HonestRun(Init(0), all) && TotalFilled(Reached(0, all).orders, first.positionId.value) == 2
  {
    hide Step, Honest, OneSell, Replaced, Inv, TotalFilled;
    var before := UpToCancelled(first, 1, 0);
    CancelledReached(first, 1, 0);
    RunAppend(Init(0), before, events);
    RunThrough(books, events);
    SoldTwice(first, second);
    ReachedInv(0, []);
    UnfilledIsHonest(Init(0), before);
    HonestThrough(books, events);
    HonestAppend(Init(0), before, events);
  }

  lemma InTurnOneEach(first: Intent, second: Intent, k: nat)
    requires k < 7
    ensures forall i :: 0 <= i < |InTurnBooks(first, second)[k].orders| ==>
        InTurnBooks(first, second)[k].orders[i].quantity == 1
  {
  }

  lemma TogetherOneEach(first: Intent, second: Intent, k: nat)
    requires k < 7
    ensures forall i :: 0 <= i < |TogetherBooks(first, second)[k].orders| ==>
        TogetherBooks(first, second)[k].orders[i].quantity == 1
  {
  }

  lemma {:induction false} OneActiveThrough(books: seq<Book>, events: seq<Event>)
    requires |books| == |events| + 1 && forall k :: 0 <= k <= |events| ==> OneActivePerPosition(books[k].orders)
    requires forall k :: 0 <= k < |events| ==> Step(books[k], events[k]) == books[k + 1]
    ensures AlwaysOneActive(books[0], events)
    decreases |events|
  {
    hide Step, OneActivePerPosition;
    if events != [] {
      assert forall k :: 0 <= k < |events| ==> books[1..][k] == books[k + 1];
      assert forall k :: 0 <= k < |events| - 1 ==> events[1..][k] == events[k + 1];
      OneActiveThrough(books[1..], events[1..]);
    }
  }

  /** While there is one order at most there are not two active ones. */
  lemma {:induction false} SmallBookOneActive(b: Book, events: seq<Event>)
    requires |Run(b, events).orders| <= 1
    ensures AlwaysOneActive(b, events)
    decreases |events|
  {
    hide Step;
    RunGrows(b, events);
    if events != [] {
      SmallBookOneActive(Step(b, events[0]), events[1..]);
    }
  }

  lemma {:induction false} OneActiveAppend(b: Book, first: seq<Event>, second: seq<Event>)
    ensures AlwaysOneActive(b, first + second) <==> AlwaysOneActive(b, first) && AlwaysOneActive(Run(b, first), second)
    decreases |first|
  {
    hide Step, OneActivePerPosition;
    if first == [] {
      assert first + second == second;
    } else {
      assert (first + second)[1..] == first[1..] + second;
      OneActiveAppend(Step(b, first[0]), first[1..], second);
    }
  }

  lemma DueOneActive(first: Intent, second: Order, submitting: map<OrderId, Option<RepriceConfig>>)
    ensures OneActivePerPosition(Due(first, second, submitting).orders)
    ensures OneActivePerPosition(OneSell(first, 1, 0, Cancelled, AwaitingAck(1.2)).orders)
  {
  }

  lemma ReplacedOneActive(first: Intent, second: Order, third: Order, placed: bool)
    requires !Active(second.status)
    ensures OneActivePerPosition(Replaced(first, second, third, placed, map[]).orders)
  {
    var orders := Replaced(first, second, third, placed, map[]).orders;
    assert !Active(orders[0].status) && !Active(orders[1].status);
  }

  lemma InTurnOneActive(first: Intent, second: Intent, k: nat)
    requires k < 7
    ensures OneActivePerPosition(InTurnBooks(first, second)[k].orders)
  {
    hide OneActivePerPosition, Due, Replaced, OneSell, ThirdExit, SecondExit;
    var s, t := SecondExit(second), ThirdExit(first);
    DueOneActive(first, s, map[1 := None]);
    DueOneActive(first, Answered(s, 8), map[]);
    DueOneActive(first, Sold(s, 8), map[]);
    ReplacedOneActive(first, Sold(s, 8), t, false);
    ReplacedOneActive(first, Sold(s, 8), Answered(t, 9), true);
    ReplacedOneActive(first, Sold(s, 8), Sold(t, 9), true);
  }

  /**
   * Not even a run in which nothing clashes is safe: the exit that slipped in is over when the first is replaced.
   * Reports are honest, each exit asks for one contract, and two are sold.
   */
  lemma OverClosesWithoutClash(first: Intent, second: Intent)
    requires TwoExits(first, second)
    ensures
      var all := UpToCancelled(first, 1, 0) + InTurn(second);
      && NeverClashes(Init(0), all) && HonestRun(Init(0), all)
      && TotalFilled(Reached(0, all).orders, first.positionId.value) == 2
  {
    hide Step, Honest, OneSell, InTurnBooks, InTurn, Inv, UpToCancelled, OneActivePerPosition, HonestRun, Reached,
        TotalFilled;
    InTurnFrame(first, second);
    var books, events, before := InTurnBooks(first, second), InTurn(second), UpToCancelled(first, 1, 0);
    forall k | 0 <= k < 7 ensures OneActivePerPosition(books[k].orders) && (k < 6 ==> Honest(books[k], events[k])) {
      InTurnOneEach(first, second, k);
      InTurnOneActive(first, second, k);
      if k < 6 {
        OneEachIsHonest(books[k], events[k]);
      }
    }
    SoldTwiceBy(first, second, books, events);
    CancelledReached(first, 1, 0);
    RunOfReached(0, before);
    SmallBookOneActive(Init(0), before);
    OneActiveThrough(books, events);
    OneActiveAppend(Init(0), before, events);
    ReachedInv(0, []);
    GuardHoldsIff(Init(0), before + events);
  }

  lemma RunOfReached(now: int, events: seq<Event>)
    ensures Reached(now, events) == Run(Init(now), events) && Reached(now, []) == Init(now)
    ensures OneActivePerPosition(Init(now).orders)
  {
  }

  lemma InTurnFrame(first: Intent, second: Intent)
    requires TwoExits(first, second)
    ensures
      var books, events := InTurnBooks(first, second), InTurn(second);
      && |books| == 7 && |events| == 6 && books[0] == OneSell(first, 1, 0, Cancelled, AwaitingAck(1.2))
      && |books[0].orders| == 1
      && books[6] == Replaced(first, Sold(SecondExit(second), 8), Sold(ThirdExit(first), 9), true, map[])
      && (forall k :: 0 <= k < 6 ==> Step(books[k], events[k]) == books[k + 1])
      && forall k :: 0 <= k < 6 ==> (events[k].EvBrokerUpdate? ==> events[k].filled <= 1)
  {
    hide Step;
    InTurnSteps(first, second);
  }

  lemma TogetherFrame(first: Intent, second: Intent)
    requires TwoExits(first, second)
    ensures
      var books, events := TogetherBooks(first, second), Together(second);
      && |books| == 7 && |events| == 6 && books[0] == OneSell(first, 1, 0, Cancelled, AwaitingAck(1.2))
      && books[6] == Replaced(first, Sold(SecondExit(second), 8), Sold(ThirdExit(first), 9), true, map[])
      && (forall k :: 0 <= k < 6 ==> Step(books[k], events[k]) == books[k + 1])
      && (forall k :: 0 <= k < 6 ==> (events[k].EvBrokerUpdate? ==> events[k].filled <= 1))
      && !OneActivePerPosition(books[2].orders)
  {
    TogetherSteps(first, second);
    var b := TogetherBooks(first, second)[2];
    assert b.orders[1].positionId == b.orders[2].positionId && Active(b.orders[1].status) && Active(b.orders[2].status);
  }

  /** The same events with the poll before the second exit is filled clash, and over-close too. */
  lemma OverClosesWithClash(first: Intent, second: Intent)
    requires TwoExits(first, second)
    ensures
      var all := UpToCancelled(first, 1, 0) + Together(second);
      && !NeverClashes(Init(0), all) && HonestRun(Init(0), all)
      && TotalFilled(Reached(0, all).orders, first.positionId.value) == 2
  {
    hide Step, Honest, OneSell, TogetherBooks, Together, Inv, UpToCancelled, OneActivePerPosition, HonestRun, Reached,
        TotalFilled;
    TogetherFrame(first, second);
    var books, events, before := TogetherBooks(first, second), Together(second), UpToCancelled(first, 1, 0);
    forall k | 0 <= k < 6 ensures Honest(books[k], events[k]) {
      TogetherOneEach(first, second, k);
      OneEachIsHonest(books[k], events[k]);
    }
    SoldTwiceBy(first, second, books, events);
    CancelledReached(first, 1, 0);
    RunOfReached(0, before);
    NotOneActiveAt(books[0], books, events, 2);
    OneActiveAppend(Init(0), before, events);
    ReachedInv(0, []);
    GuardHoldsIff(Init(0), before + events);
  }

  lemma {:induction false} NotOneActiveAt(b: Book, books: seq<Book>, events: seq<Event>, m: nat)
    requires |books| == |events| + 1 && m <= |events| && b == books[0] && !OneActivePerPosition(books[m].orders)
    requires forall k :: 0 <= k < |events| ==> Step(books[k], events[k]) == books[k + 1]
    ensures !AlwaysOneActive(b, events)
    decreases |events|
  {
    hide Step, OneActivePerPosition;
    if m > 0 {
      assert forall k :: 0 <= k < |events| ==> books[1..][k] == books[k + 1];
      assert forall k :: 0 <= k < |events| - 1 ==> events[1..][k] == events[k + 1];
      NotOneActiveAt(books[1], books[1..], events[1..], m - 1);
    }
  }
}
