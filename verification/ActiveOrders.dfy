/**
 * What a tick does to the orders it finds: the stuck-cancel sweep, then either the reaction to rejections,
 * or the entry timeouts and the coordination of legs.
 */
module ActiveOrders {
  import opened Domain
  import opened Orders
  import opened OrderChains
  import opened OrderTheorems
  import opened BrokerTruth
  import opened OrderSurvival
  import opened LegCoordination
  import Positions

  /** The tick's time, the timeout of each configured strategy, the broker's answers, and what interleaves. */
  datatype Surroundings = Surroundings(
    at: int,
    timeouts: map<string, int>,
    reports: OrderId -> Report,
    recancels: OrderId -> bool,
    sweepPause: OrderId -> seq<Event>,
    pause: OrderId -> seq<Event>,
    legPause: OrderId -> seq<Event>)

  ghost predicate AllPausesMapped(s: Surroundings) {
    PausesMapped(s.sweepPause) && PausesMapped(s.pause) && PausesMapped(s.legPause)
  }

  function Swept(b: Book, s: Surroundings): Book {
    SweepAll(b, |b.orders|, b.now, s.reports, s.recancels, s.sweepPause)
  }

  // ---------------------------------------------------------------
  // Entry timeouts
  // ---------------------------------------------------------------

  /** The strategy's entries among the first n orders that are `limit` seconds old, oldest first. */
  function OverdueOf(orders: seq<Order>, n: nat, strategy: string, at: int, limit: int): seq<OrderId>
    requires n <= |orders|
  {
    if n == 0 then []
    else
      var o := orders[n - 1];
      OverdueOf(orders, n - 1, strategy, at, limit)
      + if o.isEntry && o.strategy == strategy && at - o.createdAt >= limit then [n - 1] else []
  }

  /** Strategy by strategy; one that is not configured has no timeout. */
  function OverdueIn(orders: seq<Order>, strategies: seq<string>, at: int, timeouts: map<string, int>): seq<OrderId> {
    var k := |strategies| - 1;
    if strategies == [] then []
    else
      OverdueIn(orders, strategies[..k], at, timeouts)
      + if strategies[k] in timeouts
        then OverdueOf(orders, |orders|, strategies[k], at, timeouts[strategies[k]]) else []
  }

  function Overdue(orders: seq<Order>, at: int, timeouts: map<string, int>): seq<OrderId> {
    OverdueIn(orders, EntryStrategies(orders, |orders|), at, timeouts)
  }

  lemma {:induction false} OverdueOfIff(orders: seq<Order>, n: nat, strategy: string, at: int, limit: int, i: OrderId)
    requires n <= |orders|
    ensures i in OverdueOf(orders, n, strategy, at, limit) <==>
            i < n && orders[i].isEntry && orders[i].strategy == strategy && at - orders[i].createdAt >= limit
  {
    if n > 0 {
      OverdueOfIff(orders, n - 1, strategy, at, limit, i);
    }
  }

  lemma {:induction false} OverdueInIff(orders: seq<Order>, strategies: seq<string>, at: int,
                                        timeouts: map<string, int>, i: OrderId)
    ensures i in OverdueIn(orders, strategies, at, timeouts) <==>
            && i < |orders| && orders[i].isEntry && orders[i].strategy in strategies && orders[i].strategy in timeouts
            && at - orders[i].createdAt >= timeouts[orders[i].strategy]
  {
    hide OverdueOf;
    if strategies != [] {
      var k := |strategies| - 1;
      OverdueInIff(orders, strategies[..k], at, timeouts, i);
      assert strategies == strategies[..k] + [strategies[k]];
      if strategies[k] in timeouts {
        OverdueOfIff(orders, |orders|, strategies[k], at, timeouts[strategies[k]], i);
      }
    }
  }

  /**
   * Listed for cancellation: exactly the entries of configured strategies that have reached their strategy's timeout.
   */
  lemma OverdueIff(orders: seq<Order>, at: int, timeouts: map<string, int>, i: OrderId)
    ensures i in Overdue(orders, at, timeouts) <==>
            && i < |orders| && orders[i].isEntry && orders[i].strategy in timeouts
            && at - orders[i].createdAt >= timeouts[orders[i].strategy]
  {
    hide OverdueIn;
    OverdueInIff(orders, EntryStrategies(orders, |orders|), at, timeouts, i);
  }

  // ---------------------------------------------------------------
  // The whole of it
  // ---------------------------------------------------------------

  /** The book once the overdue entries have had their turn. */
  function TimedOutEntries(b: Book, s: Surroundings): Book {
    CancelEach(b, Overdue(b.orders, s.at, s.timeouts), s.pause)
  }

  function Coordinated(b: Book, s: Surroundings): Book {
    LegPass(TimedOutEntries(b, s), |b.orders|, EntryGroups(b.orders, |b.orders|), s.legPause)
  }

  function Managed(b: Book, s: Surroundings): Book {
    var swept := Swept(b, s);
    if swept.rejected != {} then Reaction(swept, s.pause) else Coordinated(swept, s)
  }

  /** Does the tick flag the open position as asymmetric? */
  ghost predicate Asymmetric(b: Book, s: Surroundings, p: Positions.Position) {
    var swept := Swept(b, s);
    && swept.rejected == {}
    && PassFlags(TimedOutEntries(swept, s), |swept.orders|, EntryGroups(swept.orders, |swept.orders|), s.legPause, p)
  }

  lemma SweptIsRun(b: Book, s: Surroundings) returns (events: seq<Event>)
    ensures Swept(b, s) == Run(b, events)
    ensures PausesMapped(s.sweepPause) ==> AllMapped(events)
    ensures (forall i :: NothingCleared(s.sweepPause(i))) ==> NothingCleared(events)
  {
    hide Run, SweepAll;
    events := SweepAllIsRun(b, |b.orders|, b.now, s.reports, s.recancels, s.sweepPause);
    forall k | 0 <= k < |events|
      ensures PausesMapped(s.sweepPause) ==> Mapped(events[k])
      ensures (forall i :: NothingCleared(s.sweepPause(i))) ==> !events[k].EvRejectedCleared?
    {
      assert OfSweep(events[k], s.sweepPause);
      OfSweepKinds(events[k], s.sweepPause);
    }
  }

  lemma OfSweepKinds(e: Event, pause: OrderId -> seq<Event>)
    requires OfSweep(e, pause)
    ensures PausesMapped(pause) ==> Mapped(e)
    ensures (forall i :: NothingCleared(pause(i))) ==> !e.EvRejectedCleared?
  {
    if !e.EvSweep? && !e.EvRecancelled? {
      var i :| e in pause(i);
      var k :| 0 <= k < |pause(i)| && pause(i)[k] == e;
      if PausesMapped(pause) {
        assert AllMapped(pause(i));
      }
      if forall i :: NothingCleared(pause(i)) {
        assert NothingCleared(pause(i));
      }
    }
  }

  lemma CoordinatedIsRun(b: Book, s: Surroundings) returns (events: seq<Event>)
    ensures Coordinated(b, s) == Run(b, events)
    ensures AllPausesMapped(s) ==> AllMapped(events)
  {
    hide Run, CancelEach, LegPass, PausesMapped, AllMapped;
    var first := CancelEachIsRun(b, Overdue(b.orders, s.at, s.timeouts), s.pause);
    var second := PassIsRun(TimedOutEntries(b, s), |b.orders|, EntryGroups(b.orders, |b.orders|), s.legPause);
    events := first + second;
    RunAppend(b, first, second);
    if AllPausesMapped(s) {
      AllMappedAppend(first, second);
    }
  }

  lemma ReactionIsRun(b: Book, pause: OrderId -> seq<Event>) returns (events: seq<Event>)
    ensures Reaction(b, pause) == Run(b, events)
    ensures PausesMapped(pause) ==> AllMapped(events)
  {
    hide Run, CancelEach, PausesMapped;
    var first := CancelEachIsRun(b, FirstIds(|b.orders|), pause);
    events := first + [EvRejectedCleared];
    RunAppend(b, first, [EvRejectedCleared]);
    RunOne(Run(b, first), EvRejectedCleared);
  }

  /** All a tick does to the order book is a run of the machine, so every theorem about runs covers it. */
  lemma ManagedIsRun(b: Book, s: Surroundings) returns (events: seq<Event>)
    ensures Managed(b, s) == Run(b, events)
    ensures AllPausesMapped(s) ==> AllMapped(events)
  {
    hide Run, Swept, Coordinated, Reaction, PausesMapped, AllMapped;
    var first := SweptIsRun(b, s);
    var swept := Swept(b, s);
    var second;
    if swept.rejected != {} {
      second := ReactionIsRun(swept, s.pause);
    } else {
      second := CoordinatedIsRun(swept, s);
    }
    events := first + second;
    RunAppend(b, first, second);
    if AllPausesMapped(s) {
      AllMappedAppend(first, second);
    }
  }

  lemma ManagedKeeps(b: Book, s: Surroundings)
    requires Inv(b)
    ensures Inv(Managed(b, s)) && |Managed(b, s).orders| >= |b.orders|
  {
    hide Inv, Run, Managed;
    var events := ManagedIsRun(b, s);
    RunKeeps(b, events);
    RunGrows(b, events);
  }

  // ---------------------------------------------------------------
  // What is stopped
  // ---------------------------------------------------------------

  /**
   * An entry that has reached its timeout is stopped in a tick without rejections: if the broker knows it when
   * the tick finds the book it ends the tick not working, and if it is working at its turn it ends hard-cancelled
   * with no successor.
   */
  lemma OverdueIsStopped(b: Book, s: Surroundings, i: OrderId) returns (k: nat)
    requires Inv(b) && AllPausesMapped(s) && i < |b.orders| && Swept(b, s).rejected == {}
    requires i in Overdue(Swept(b, s).orders, s.at, s.timeouts)
    ensures
      var swept, end := Swept(b, s), Managed(b, s);
      var ids := Overdue(swept.orders, s.at, s.timeouts);
      && k < |ids| && ids[k] == i
      && var t := CancelEach(swept, ids[..k], s.pause);
         && i < |t.orders| && i < |end.orders|
         && (b.orders[i].brokerId.Some? ==> !Working(end.orders[i].status))
         && (Working(t.orders[i].status) ==> end.orders[i].hardCancel && end.orders[i].supersededBy.None?)
  {
    hide Inv, Run, CancelEach, LegPass, Overdue, Swept, PausesMapped, AllMapped;
    var sweep := SweptIsRun(b, s);
    RunKeepsOrder(b, sweep, i);
    var swept := Swept(b, s);
    var ids := Overdue(swept.orders, s.at, s.timeouts);
    k :| 0 <= k < |ids| && ids[k] == i;
    EachIsStopped(swept, ids, k, s.pause);
    var before := CancelEachIsRun(swept, ids[..k], s.pause);
    RunKeepsOrder(swept, before, i);
    var mid := TimedOutEntries(swept, s);
    var rest := PassIsRun(mid, |swept.orders|, EntryGroups(swept.orders, |swept.orders|), s.legPause);
    RunKeepsOrder(mid, rest, i);
  }

  // ---------------------------------------------------------------
  // A tick in which nothing interleaves
  // ---------------------------------------------------------------

  /** A hard cancel of a working order: pending at the broker, or over at once if the broker does not know it. */
  predicate HardCancelled(o: Order, o': Order, now: int) {
    o' == o.(hardCancel := true, updatedAt := now,
             status := if o.brokerId.Some? then CancelPending else Cancelled)
  }

  predicate CancelledIf(cancel: bool, o: Order, o': Order, now: int) {
    if cancel && Working(o.status) then HardCancelled(o, o', now) else o' == o
  }

  /** An entry of a configured strategy that has reached its timeout. */
  predicate PastTimeout(o: Order, at: int, timeouts: map<string, int>) {
    o.isEntry && o.strategy in timeouts && at >= o.createdAt + timeouts[o.strategy]
  }

  ghost predicate NothingInterleaves(s: Surroundings) {
    s.sweepPause == Quiet && s.pause == Quiet && s.legPause == Quiet
  }

  lemma CancelIsHard(o: Order, now: int)
    requires Working(o.status)
    ensures HardCancelled(o, CancelledOrder(o, true, now), now)
  {
  }

  lemma QuietReaction(b: Book)
    ensures
      var b' := Reaction(b, Quiet);
      && |b'.orders| == |b.orders| && b'.rejected == {}
      && forall i :: 0 <= i < |b.orders| ==> CancelledIf(true, b.orders[i], b'.orders[i], b.now)
  {
    hide CancelEach, CancelledOrder;
    var ids := FirstIds(|b.orders|);
    QuietEach(b, ids);
    forall i: OrderId | i < |b.orders|
      ensures i in ids
      ensures Working(b.orders[i].status) ==>
                HardCancelled(b.orders[i], CancelledOrder(b.orders[i], true, b.now), b.now)
    {
      assert ids[i] == i;
      if Working(b.orders[i].status) {
        CancelIsHard(b.orders[i], b.now);
      }
    }
  }

  lemma QuietTimeouts(b: Book, s: Surroundings)
    requires s.pause == Quiet
    ensures
      var b' := TimedOutEntries(b, s);
      && |b'.orders| == |b.orders| && b'.now == b.now
      && forall i :: 0 <= i < |b.orders| ==>
           CancelledIf(PastTimeout(b.orders[i], s.at, s.timeouts), b.orders[i], b'.orders[i], b.now)
  {
    hide CancelEach, CancelledOrder, Overdue;
    QuietEach(b, Overdue(b.orders, s.at, s.timeouts));
    forall i | 0 <= i < |b.orders|
      ensures i in Overdue(b.orders, s.at, s.timeouts) <==> PastTimeout(b.orders[i], s.at, s.timeouts)
      ensures Working(b.orders[i].status) ==>
                HardCancelled(b.orders[i], CancelledOrder(b.orders[i], true, b.now), b.now)
    {
      OverdueIff(b.orders, s.at, s.timeouts, i);
      if Working(b.orders[i].status) {
        CancelIsHard(b.orders[i], b.now);
      }
    }
  }

  lemma SameGroup(o: Order, o': Order, cancel: bool, now: int)
    requires CancelledIf(cancel, o, o', now)
    ensures GroupOf(o') == GroupOf(o) && o'.isEntry == o.isEntry
  {
  }

  lemma AbandonedIsEntry(orders: seq<Order>, n: nat, i: OrderId)
    requires Abandoned(orders, n, i)
    ensures i < |orders| && i < n && orders[i].isEntry && Working(orders[i].status)
  {
  }

  lemma QuietLegs(before: seq<Order>, mid: Book)
    requires |mid.orders| == |before|
    requires forall i :: 0 <= i < |before| ==> GroupOf(mid.orders[i]) == GroupOf(before[i])
                                               && mid.orders[i].isEntry == before[i].isEntry
    ensures
      var b' := LegPass(mid, |before|, EntryGroups(before, |before|), Quiet);
      && |b'.orders| == |before|
      && forall i :: 0 <= i < |before| ==>
           CancelledIf(Abandoned(mid.orders, |before|, i), mid.orders[i], b'.orders[i], mid.now)
  {
    hide LegPass, EntryGroups, Abandoned, CancelledOrder, GroupOf;
    var groups := EntryGroups(before, |before|);
    EntryGroupsList(before, |before|);
    QuietPass(mid, |before|, groups);
    var b' := LegPass(mid, |before|, groups, Quiet);
    forall i | 0 <= i < |before|
      ensures CancelledIf(Abandoned(mid.orders, |before|, i), mid.orders[i], b'.orders[i], mid.now)
    {
      if Abandoned(mid.orders, |before|, i) {
        AbandonedIsEntry(mid.orders, |before|, i);
        CancelIsHard(mid.orders[i], mid.now);
      }
    }
  }

  /**
   * When nothing interleaves, a tick settles the overdue cancellations as the broker answers; then, with a rejection
   * standing, it hard-cancels exactly the working orders and does no more; without, it hard-cancels exactly the
   * working entries past their timeout and then the working legs of failed groups.
   */
  lemma QuietTick(b: Book, s: Surroundings)
    requires NothingInterleaves(s)
    ensures
      var swept, end := Swept(b, s), Managed(b, s);
      && |swept.orders| == |b.orders| && |end.orders| == |b.orders| && swept.rejected == b.rejected
      && (forall i :: 0 <= i < |b.orders| ==>
            Resolved(b.orders[i], swept.orders[i], s.reports(i), s.recancels(i), b.now))
      && (b.rejected != {} ==>
            && end.rejected == {}
            && forall i :: 0 <= i < |b.orders| ==> CancelledIf(true, swept.orders[i], end.orders[i], b.now))
      && (b.rejected == {} ==>
            var mid := TimedOutEntries(swept, s);
            && |mid.orders| == |b.orders|
            && forall i :: 0 <= i < |b.orders| ==>
                 && CancelledIf(PastTimeout(swept.orders[i], s.at, s.timeouts), swept.orders[i], mid.orders[i], b.now)
                 && CancelledIf(Abandoned(mid.orders, |b.orders|, i), mid.orders[i], end.orders[i], b.now))
  {
    hide SweepAll, Reaction, LegPass, Overdue, CancelEach, Resolved, Abandoned, CancelledIf, EntryGroups, PastTimeout;
    QuietSweep(b, |b.orders|, b.now, s.reports, s.recancels);
    var swept := Swept(b, s);
    if swept.rejected != {} {
      QuietReaction(swept);
    } else {
      QuietTimeouts(swept, s);
      var mid := TimedOutEntries(swept, s);
      forall i | 0 <= i < |swept.orders|
        ensures GroupOf(mid.orders[i]) == GroupOf(swept.orders[i])
        ensures mid.orders[i].isEntry == swept.orders[i].isEntry
      {
        SameGroup(swept.orders[i], mid.orders[i], PastTimeout(swept.orders[i], s.at, s.timeouts), b.now);
      }
      QuietLegs(swept.orders, mid);
    }
  }

  /** A replacement is as young as the poll that appended it, so its timeout starts again. */
  lemma ReplacementRestartsTimeout(b: Book, r: nat, at: int, timeouts: map<string, int>)
    requires Replaces(b, r)
    requires
      var strategy := CurrentOrder(b, r).strategy;
      strategy in timeouts ==> at < b.now + timeouts[strategy]
    ensures
      var b' := Step(b, EvAckPoll(r));
      |b.orders| < |b'.orders| && |b.orders| !in Overdue(b'.orders, at, timeouts)
  {
    hide Overdue;
    OverdueIff(Step(b, EvAckPoll(r)).orders, at, timeouts, |b.orders|);
  }

  predicate NothingCleared(events: seq<Event>) {
    forall k :: 0 <= k < |events| ==> !events[k].EvRejectedCleared?
  }

  lemma RejectedGrows(b: Book, e: Event)
    requires !e.EvRejectedCleared?
    ensures b.rejected <= Step(b, e).rejected
  {
    hide SweptOrder, CancelledOrder, UpdatedOrder, TripsLock, FindByBrokerId, SubmitRefusal;
  }

  lemma {:induction false} RejectedStays(b: Book, events: seq<Event>)
    requires NothingCleared(events)
    ensures b.rejected <= Run(b, events).rejected
    decreases |events|
  {
    hide Step;
    if events != [] {
      assert !events[0].EvRejectedCleared?;
      RejectedGrows(b, events[0]);
      RejectedStays(Step(b, events[0]), events[1..]);
    }
  }

  /**
   * A tick that finds a rejection reacts, also if its sweep waits first: no order that the broker knew when the
   * tick found the book is still working, and the rejected set is cleared.
   */
  lemma RejectionIsActedOn(b: Book, s: Surroundings)
    requires Inv(b) && AllPausesMapped(s) && b.rejected != {} && forall i :: NothingCleared(s.sweepPause(i))
    ensures
      var end := Managed(b, s);
      && Swept(b, s).rejected != {}
      && Inv(end) && end.rejected == {} && |b.orders| <= |end.orders|
      && forall k :: 0 <= k < |b.orders| && b.orders[k].brokerId.Some? ==> !Working(end.orders[k].status)
  {
    hide Inv, Run, Reaction, Swept, Coordinated, AtTurn, PausesMapped, NothingCleared;
    var swept := Swept(b, s);
    var events := SweptIsRun(b, s);
    RejectedStays(b, events);
    RunKeeps(b, events);
    RunGrows(b, events);
    RejectionStopsTheBook(swept, s.pause);
    forall k | 0 <= k < |b.orders| && b.orders[k].brokerId.Some? ensures swept.orders[k].brokerId.Some? {
      BrokerIdStays(b, events, k);
    }
  }
}
