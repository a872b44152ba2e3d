/** What the order book keeps of the broker's word: every report, and the answers of the stuck-cancel sweep. */
module BrokerTruth {
  import opened Domain
  import opened Orders
  import opened OrderChains
  import opened OrderTheorems

  // ---------------------------------------------------------------
  // Reported fills, over any run
  // ---------------------------------------------------------------

  /** A report about order i: i is the oldest order with its broker id. */
  predicate About(b: Book, e: Event, i: OrderId) {
    && e.EvBrokerUpdate? && i < |b.orders| && b.orders[i].brokerId == Some(e.brokerId)
    && forall j :: 0 <= j < i ==> b.orders[j].brokerId != Some(e.brokerId)
  }

  /** It counts unless the order is over, or it only turns down what we were cancelling anyway. */
  predicate Counts(b: Book, e: Event, i: OrderId) {
    && About(b, e, i) && !Terminal(b.orders[i].status)
    && !(b.orders[i].status == CancelPending && (e.status == Rejected || e.status == Error))
  }

  /** The fills told by the last report of the run that counts. */
  ghost function LastTold(b: Book, events: seq<Event>, i: OrderId): Option<nat>
    decreases |events|
  {
    if events == [] then None
    else
      var later := LastTold(Step(b, events[0]), events[1..], i);
      if later.Some? then later else if Counts(b, events[0], i) then Some(events[0].filled) else None
  }

  lemma AboutIsFound(b: Book, e: Event, i: OrderId)
    requires e.EvBrokerUpdate?
    ensures About(b, e, i) <==> FindByBrokerId(b.orders, e.brokerId) == Some(i)
  {
  }

  lemma OtherMoveFills(b: Book, e: Event, i: OrderId, o: Order, o': Order)
    requires i < |b.orders| && o == b.orders[i] && Moved(b, e, i, o, o') && !Counts(b, e, i)
    ensures o'.filled == o.filled
  {
    hide FindByBrokerId, PlacementReturns, About;
    if o' == CancelledOrder(o, true, b.now) {
    } else if o' == CancelledOrder(o, false, b.now) {
    } else if e.EvSweep? && o' == SweptOrder(o, e.report, e.at) {
    } else if Reported(b, e, i) && o' == UpdatedOrder(o, e.status, e.filled, b.now) {
      AboutIsFound(b, e, i);
    }
  }

  lemma CountedFills(b: Book, e: Event, i: OrderId)
    requires Counts(b, e, i)
    ensures i < |Step(b, e).orders| && Step(b, e).orders[i].filled == e.filled
  {
    AboutIsFound(b, e, i);
  }

  lemma StepFills(b: Book, e: Event, i: OrderId)
    requires Inv(b) && i < |b.orders|
    ensures i < |Step(b, e).orders|
    ensures Step(b, e).orders[i].filled == if Counts(b, e, i) then e.filled else b.orders[i].filled
  {
    hide Inv, Step, Counts;
    StepMove(b, e, i);
    if Counts(b, e, i) {
      CountedFills(b, e, i);
    } else {
      OtherMoveFills(b, e, i, b.orders[i], Step(b, e).orders[i]);
    }
  }

  lemma NotYetThere(b: Book, e: Event, i: OrderId)
    requires i >= |b.orders|
    ensures !Counts(b, e, i)
  {
  }

  /** Over any run an order has filled what the last report that counts told, and nothing before the first. */
  lemma {:induction false} FillsAsLastTold(b: Book, events: seq<Event>, i: OrderId)
    requires Inv(b) && i < |Run(b, events).orders|
    ensures
      var told := LastTold(b, events, i);
      Run(b, events).orders[i].filled
      == if told.Some? then told.value else if i < |b.orders| then b.orders[i].filled else 0
    decreases |events|
  {
    hide Inv, Step, Counts;
    if events != [] {
      var e := events[0];
      StepKeeps(b, e);
      FillsAsLastTold(Step(b, e), events[1..], i);
      if i < |b.orders| {
        StepFills(b, e, i);
      } else {
        NotYetThere(b, e, i);
        if i < |Step(b, e).orders| {
          NewOrdersUnfilled(b, e, i);
        }
      }
    }
  }

  // ---------------------------------------------------------------
  // Status and fills, while only reports move an order
  // ---------------------------------------------------------------

  datatype Word = Word(status: Status, filled: nat)

  /** All the run reports about order i, oldest first. */
  ghost function Words(b: Book, events: seq<Event>, i: OrderId): seq<Word>
    decreases |events|
  {
    if events == [] then []
    else
      (if About(b, events[0], i) then [Word(events[0].status, events[0].filled)] else [])
      + Words(Step(b, events[0]), events[1..], i)
  }

  /** No step but a report changes the order's status. */
  ghost predicate OnlyReportsMove(b: Book, events: seq<Event>, i: OrderId)
    decreases |events|
  {
    && i < |b.orders|
    && (events != [] ==>
          && (!About(b, events[0], i) ==>
                i < |Step(b, events[0]).orders| && Step(b, events[0]).orders[i].status == b.orders[i].status)
          && OnlyReportsMove(Step(b, events[0]), events[1..], i))
  }

  /** Where the first report stands that ends the order, or their number. */
  function FirstFinal(words: seq<Word>): (n: nat)
    ensures n <= |words| && (n < |words| ==> Terminal(words[n].status))
    ensures forall k :: 0 <= k < n ==> !Terminal(words[k].status)
  {
    if words == [] || Terminal(words[0].status) then 0 else 1 + FirstFinal(words[1..])
  }

  /** Being cancelled at the start, or announced to be by one of the reports. */
  predicate Cancelling(start: Status, words: seq<Word>) {
    start == CancelPending || exists k :: 0 <= k < |words| && words[k].status == CancelPending
  }

  function LastFilled(start: nat, words: seq<Word>): nat {
    if words == [] then start else words[|words| - 1].filled
  }

  /**
   * What the reports leave of an order: the first final one stands, else the latest; while the order is being
   * cancelled a live report tells fills only, and one that turns it down makes it cancelled and tells nothing.
   */
  function Settled(start: Word, words: seq<Word>): Word {
    var n := FirstFinal(words);
    var before := words[..n];
    var cancelling := Cancelling(start.status, before);
    if n == |words| then
      Word(if cancelling then CancelPending else if words == [] then start.status else words[n - 1].status,
           LastFilled(start.filled, words))
    else if cancelling && (words[n].status == Rejected || words[n].status == Error) then
      Word(Cancelled, LastFilled(start.filled, before))
    else words[n]
  }

  lemma {:induction false} OverStays(b: Book, events: seq<Event>, i: OrderId)
    requires Inv(b) && i < |b.orders| && Terminal(b.orders[i].status) && OnlyReportsMove(b, events, i)
    ensures i < |Run(b, events).orders|
    ensures Run(b, events).orders[i].status == b.orders[i].status
    ensures Run(b, events).orders[i].filled == b.orders[i].filled
    decreases |events|
  {
    hide Inv, Step, About;
    if events != [] {
      var e := events[0];
      StepKeeps(b, e);
      StepFills(b, e, i);
      if About(b, e, i) {
        IgnoredWhenOver(b, e, i);
      }
      OverStays(Step(b, e), events[1..], i);
    }
  }

  lemma IgnoredWhenOver(b: Book, e: Event, i: OrderId)
    requires About(b, e, i) && Terminal(b.orders[i].status)
    ensures Step(b, e).orders == b.orders
  {
    AboutIsFound(b, e, i);
  }

  lemma OneWord(b: Book, e: Event, i: OrderId)
    requires About(b, e, i) && !Terminal(b.orders[i].status) && e.status != RiskChecked
    ensures i < |Step(b, e).orders|
    ensures
      var o, o' := b.orders[i], Step(b, e).orders[i];
      Word(o'.status, o'.filled) == Settled(Word(o.status, o.filled), [Word(e.status, e.filled)])
  {
    AboutIsFound(b, e, i);
    var w := [Word(e.status, e.filled)];
    assert w[1..] == [];
    assert w[..0] == [];
  }

  /** Later reports change nothing once one has ended the order. */
  lemma SettledByFirst(start: Word, w: Word, words: seq<Word>)
    requires Terminal(w.status)
    ensures Settled(start, [w] + words) == Settled(start, [w])
  {
    assert ([w] + words)[..0] == [w][..0] == [];
  }

  /** Otherwise the rest is heard from where the first one leaves it. */
  lemma SettledOnward(start: Word, w: Word, words: seq<Word>)
    requires !Terminal(w.status)
    ensures Settled(start, [w] + words) == Settled(Settled(start, [w]), words)
  {
    var all := [w] + words;
    var n := FirstFinal(words);
    assert all[1..] == words && [w][1..] == [];
    assert FirstFinal(all) == n + 1 && FirstFinal([w]) == 1;
    assert [w][..1] == [w] && all[..n + 1] == [w] + words[..n];
    var mid := Settled(start, [w]);
    CancellingOnward(start.status, w, words[..n]);
    assert [w][0].status == w.status;
    if n == 0 {
      assert words[..0] == [] && all[..1] == [w];
    }
  }

  lemma CancellingOnward(start: Status, w: Word, words: seq<Word>)
    ensures Cancelling(start, [w] + words) <==> Cancelling(start, [w]) || Cancelling(w.status, words)
  {
    var all := [w] + words;
    assert all[0] == w && forall k :: 0 <= k < |words| ==> all[k + 1] == words[k];
    assert [w][0] == w;
    if Cancelling(w.status, words) && w.status != CancelPending {
      var k :| 0 <= k < |words| && words[k].status == CancelPending;
      assert all[k + 1].status == CancelPending;
    }
  }

  lemma NothingSettled(start: Word)
    ensures Settled(start, []) == start
  {
  }

  /**
   * Of an order that the broker knows and that is not over, however the rest of the book moves: the first final
   * report stands, with its fills, else the latest, as Settled says.
   */
  lemma {:induction false} ReportsStand(b: Book, events: seq<Event>, i: OrderId)
    requires Inv(b) && AllMapped(events) && OnlyReportsMove(b, events, i) && !Terminal(b.orders[i].status)
    ensures i < |Run(b, events).orders|
    ensures
      var o, o' := b.orders[i], Run(b, events).orders[i];
      Word(o'.status, o'.filled) == Settled(Word(o.status, o.filled), Words(b, events, i))
    decreases |events|
  {
    hide Inv, Step, About, Settled;
    var o := b.orders[i];
    var start := Word(o.status, o.filled);
    if events == [] {
      NothingSettled(start);
    } else {
      var e, b1 := events[0], Step(b, events[0]);
      assert Mapped(e);
      assert forall k :: 0 <= k < |events| - 1 ==> events[1..][k] == events[k + 1];
      StepKeeps(b, e);
      StepFills(b, e, i);
      var rest := Words(b1, events[1..], i);
      if About(b, e, i) {
        AboutReports(b, e, i);
        var w := Word(e.status, e.filled);
        OneWord(b, e, i);
        if Terminal(w.status) {
          SettledByFirst(start, w, rest);
          EndsOver(start, w);
          OverStays(b1, events[1..], i);
        } else {
          SettledOnward(start, w, rest);
          GoesOn(start, w);
          ReportsStand(b1, events[1..], i);
        }
      } else {
        NotCounted(b, e, i);
        assert [] + rest == rest;
        ReportsStand(b1, events[1..], i);
      }
    }
  }

  lemma AboutReports(b: Book, e: Event, i: OrderId)
    requires About(b, e, i)
    ensures e.EvBrokerUpdate? && i < |b.orders|
  {
  }

  lemma NotCounted(b: Book, e: Event, i: OrderId)
    requires !About(b, e, i)
    ensures !Counts(b, e, i)
  {
  }

  lemma EndsOver(start: Word, w: Word)
    requires Terminal(w.status)
    ensures Terminal(Settled(start, [w]).status)
  {
  }

  lemma GoesOn(start: Word, w: Word)
    requires !Terminal(w.status)
    ensures !Terminal(Settled(start, [w]).status)
  {
    assert [w][1..] == [];
  }

  // ---------------------------------------------------------------
  // The stuck-cancel sweep
  // ---------------------------------------------------------------

  predicate CancelOverdue(o: Order, at: int) {
    o.status == CancelPending && at >= o.updatedAt + 20
  }

  /** The status an overdue cancellation ends with, if the answer settles it: unknown orders are taken for cancelled. */
  function Resolution(o: Order, answer: Report): Option<Status> {
    if o.brokerId.None? then Some(Cancelled)
    else
      match answer
      case QueryFailed => None
      case Unknown => Some(Cancelled)
      case Known(s) => if Terminal(s) then Some(s) else None
  }

  /** The broker still works the order, and the new call to cancel it goes through. */
  predicate CalledAgain(o: Order, answer: Report, recancelled: bool) {
    o.brokerId.Some? && answer.Known? && !Terminal(answer.status) && recancelled
  }

  predicate Resolved(o: Order, o': Order, answer: Report, recancelled: bool, at: int) {
    if !CancelOverdue(o, at) then o' == o
    else if Resolution(o, answer).Some? then o' == o.(status := Resolution(o, answer).value, updatedAt := at)
    else o' == if CalledAgain(o, answer, recancelled) then o.(updatedAt := at) else o
  }

  /**
   * When nothing interleaves, a sweep settles every overdue cancellation as the broker answers, and touches
   * nothing else of the book.
   */
  lemma {:induction false} QuietSweep(b: Book, n: nat, at: int, reports: OrderId -> Report, recancels: OrderId -> bool)
    requires n <= |b.orders|
    ensures
      var b' := SweepAll(b, n, at, reports, recancels, Quiet);
      && b' == b.(orders := b'.orders) && |b'.orders| == |b.orders|
      && (forall i :: 0 <= i < n ==> Resolved(b.orders[i], b'.orders[i], reports(i), recancels(i), at))
      && (forall i :: n <= i < |b.orders| ==> b'.orders[i] == b.orders[i])
  {
    hide Resolved;
    if n > 0 {
      QuietSweep(b, n - 1, at, reports, recancels);
      QuietSweepTurn(SweepAll(b, n - 1, at, reports, recancels, Quiet), n - 1, at, reports, recancels);
    }
  }

  lemma QuietSweepTurn(t: Book, i: OrderId, at: int, reports: OrderId -> Report, recancels: OrderId -> bool)
    requires i < |t.orders|
    ensures
      var swept := Sweep(t, i, reports(i), at);
      var b' := if !Reissues(t, i, reports(i), at) then swept
                else if recancels(i) then Recancelled(Run(swept, Quiet(i)), i, at) else Run(swept, Quiet(i));
      && b' == t.(orders := b'.orders) && |b'.orders| == |t.orders|
      && Resolved(t.orders[i], b'.orders[i], reports(i), recancels(i), at)
      && forall k :: 0 <= k < |t.orders| && k != i ==> b'.orders[k] == t.orders[k]
  {
  }

  /**
   * Whatever starts or restarts an order's clock gives its cancellation twenty seconds: no sweep dated earlier
   * touches it. Our own cancel does, a broker's report that counts, and the sweep's own new cancel call.
   */
  lemma CancelGetsItsTime(b: Book, i: OrderId, hard: bool, report: Report, at: int)
    requires i < |b.orders| && !Terminal(b.orders[i].status) && at < b.now + 20
    ensures
      var b' := Step(b, EvCancel(i, hard));
      Step(b', EvSweep(i, report, at)) == b'
  {
    var b' := Step(b, EvCancel(i, hard));
    assert b'.orders[i := b'.orders[i]] == b'.orders;
  }

  lemma ReportRestartsTheClock(b: Book, e: Event, i: OrderId, report: Report, at: int)
    requires Counts(b, e, i) && at < b.now + 20
    ensures
      var b' := Step(b, e);
      i < |b'.orders| && b'.orders[i].updatedAt == b.now && Step(b', EvSweep(i, report, at)) == b'
  {
    AboutIsFound(b, e, i);
    var b' := Step(b, e);
    assert b'.orders[i := b'.orders[i]] == b'.orders;
  }

  lemma NewCallRestartsTheClock(b: Book, i: OrderId, since: int, report: Report, at: int)
    requires i < |b.orders| && at < since + 20
    ensures
      var b' := Step(b, EvRecancelled(i, since));
      && |b'.orders| == |b.orders| && b'.orders[i] == b.orders[i].(updatedAt := since)
      && Step(b', EvSweep(i, report, at)) == b'
  {
    var b' := Step(b, EvRecancelled(i, since));
    assert b'.orders[i := b'.orders[i]] == b'.orders;
  }

  /** Over without having been cancelled: filled, rejected or failed, and known to the broker. */
  predicate OverUncancelled(o: Order) {
    && o.brokerId.Some? && o.supersededBy.None?
    && (o.status == Filled || o.status == Rejected || o.status == Error)
  }

  lemma MovedOver(b: Book, e: Event, i: OrderId, o: Order, o': Order)
    requires i < |b.orders| && b.orders[i] == o && Moved(b, e, i, o, o') && OverUncancelled(o)
    ensures OverUncancelled(o') && o'.filled == o.filled && (o'.status == o.status || o'.status == Error)
  {
    hide FindByBrokerId, PlacementReturns;
    if o' == CancelledOrder(o, true, b.now) {
    } else if o' == CancelledOrder(o, false, b.now) {
    } else if e.EvSweep? && o' == SweptOrder(o, e.report, e.at) {
    } else if Reported(b, e, i) && o' == UpdatedOrder(o, e.status, e.filled, b.now) {
    }
  }

  /** An order that is over without having been cancelled stays so over any run: it never gets a successor. */
  lemma {:induction false} NeverReplaced(b: Book, events: seq<Event>, i: OrderId)
    requires Inv(b) && i < |b.orders| && OverUncancelled(b.orders[i])
    ensures i < |Run(b, events).orders|
    ensures
      var o, o' := b.orders[i], Run(b, events).orders[i];
      OverUncancelled(o') && o'.filled == o.filled && (o'.status == o.status || o'.status == Error)
    decreases |events|
  {
    hide Inv, Step, Moved, OverUncancelled;
    if events != [] {
      StepMove(b, events[0], i);
      MovedOver(b, events[0], i, b.orders[i], Step(b, events[0]).orders[i]);
      StepKeeps(b, events[0]);
      NeverReplaced(Step(b, events[0]), events[1..], i);
    }
  }

  /** The sweep past its first m turns is a run from where they leave the book. */
  lemma {:induction false} SweepRest(b: Book, m: nat, n: nat, at: int, reports: OrderId -> Report,
                                     recancels: OrderId -> bool, pause: OrderId -> seq<Event>)
    returns (events: seq<Event>)
    requires m <= n
    ensures SweepAll(b, n, at, reports, recancels, pause)
         == Run(SweepAll(b, m, at, reports, recancels, pause), events)
    decreases n
  {
    hide Run, Sweep, Recancelled;
    var t := SweepAll(b, m, at, reports, recancels, pause);
    if m == n {
      events := [];
      NothingRuns(t);
    } else {
      var before := SweepRest(b, m, n - 1, at, reports, recancels, pause);
      var last := SweepAll(b, n - 1, at, reports, recancels, pause);
      var own := SweepTurnIsRun(last, n - 1, at, reports, recancels, pause);
      events := before + own;
      RunAppend(t, before, own);
    }
  }

  lemma AdoptedAtTurn(t: Book, i: OrderId, at: int, reports: OrderId -> Report, recancels: OrderId -> bool,
                      pause: OrderId -> seq<Event>, b: Book)
    requires t == SweepAll(b, i, at, reports, recancels, pause)
    requires i < |t.orders| && CancelOverdue(t.orders[i], at)
    requires t.orders[i].brokerId.Some? && t.orders[i].supersededBy.None?
    requires reports(i) == Known(Filled) || reports(i) == Known(Rejected) || reports(i) == Known(Error)
    ensures
      var swept := SweepAll(b, i + 1, at, reports, recancels, pause);
      && swept == Step(t, EvSweep(i, reports(i), at)) && i < |swept.orders|
      && swept.orders[i] == t.orders[i].(status := reports(i).status, updatedAt := at)
  {
  }

  /**
   * Whatever interleaves with the sweep and whatever follows it: an order overdue at its turn that the broker
   * answers is filled, rejected or failed takes that status then, keeps its fills and never gets a successor.
   */
  lemma SweptIsNeverReplaced(b: Book, n: nat, at: int, reports: OrderId -> Report, recancels: OrderId -> bool,
                             pause: OrderId -> seq<Event>, i: OrderId, later: seq<Event>)
    requires Inv(b) && i < n
    requires reports(i) == Known(Filled) || reports(i) == Known(Rejected) || reports(i) == Known(Error)
    requires
      var t := SweepAll(b, i, at, reports, recancels, pause);
      && i < |t.orders| && CancelOverdue(t.orders[i], at)
      && t.orders[i].brokerId.Some? && t.orders[i].supersededBy.None?
    ensures
      var t, swept := SweepAll(b, i, at, reports, recancels, pause), SweepAll(b, i + 1, at, reports, recancels, pause);
      var end := Run(SweepAll(b, n, at, reports, recancels, pause), later);
      && i < |swept.orders| && swept.orders[i].status == reports(i).status
      && i < |end.orders| && OverUncancelled(end.orders[i]) && end.orders[i].filled == t.orders[i].filled
      && (end.orders[i].status == reports(i).status || end.orders[i].status == Error)
  {
    hide Inv, Run, SweepAll, Step;
    var before := SweepAllIsRun(b, i, at, reports, recancels, pause);
    RunKeeps(b, before);
    var t := SweepAll(b, i, at, reports, recancels, pause);
    AdoptedAtTurn(t, i, at, reports, recancels, pause, b);
    var swept := SweepAll(b, i + 1, at, reports, recancels, pause);
    StepKeeps(t, EvSweep(i, reports(i), at));
    var rest := SweepRest(b, i + 1, n, at, reports, recancels, pause);
    RunAppend(swept, rest, later);
    NeverReplaced(swept, rest + later, i);
  }
}
