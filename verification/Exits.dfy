/**
 * Exit decisions over the open positions, and flatten-all: what it sends, when it can, and that it empties the book.
 */
module Exits {
  import opened Domain
  import opened Positions
  import Pricing
  import Netting

  // ---------------------------------------------------------------
  // What the exit manager sees
  // ---------------------------------------------------------------

  /** A quote, and whether it passes the age and spread limits in force. */
  datatype QuoteView = QuoteView(bid: Option<real>, ask: Option<real>, recent: bool, tight: bool)

  /** A completed one-minute bar; minutes and seconds count from one origin. */
  datatype BarView = BarView(minute: int, low: real, high: real)

  datatype Market = Market(
    optionQuotes: map<ContractKey, QuoteView>,
    symbolQuotes: map<string, QuoteView>,
    optionBars: map<ContractKey, BarView>,
    symbolBars: map<string, BarView>,
    now: int)

  datatype Reason = ForceFlatten | TimeExit | StrategyExit | StopLoss | TakeProfit

  datatype ExitIntent = ExitIntent(positionId: int, isEntry: bool, strategy: string, contract: Contract,
                                   side: Side, quantity: Qty, limit: Price)

  datatype Signal = Signal(position: Position, intent: ExitIntent, reason: Reason)

  /** `Invalid` is an intent its own validator turns down: the whole check fails. */
  datatype Verdict = Hold | Deferred(reason: Reason) | Invalid | Emit(signal: Signal)

  const GUARD_BUFFER: real := 0.15

  const GRACE_SECONDS: int := 10

  function Find<K, V>(m: map<K, V>, k: K): Option<V> {
    if k in m then Some(m[k]) else None
  }

  function QuoteFor(m: Market, c: Contract): Option<QuoteView> {
    if KeyOf(c) in m.optionQuotes then Some(m.optionQuotes[KeyOf(c)]) else Find(m.symbolQuotes, c.symbol)
  }

  function EntryTime(p: Position): int {
    if p.entryTime.Some? then p.entryTime.value else p.createdAt
  }

  /** The latest bar, unless it is from the entry minute or before. */
  function BarFor(m: Market, p: Position): Option<BarView> {
    var option := Find(m.optionBars, KeyOf(p.contract));
    var bar := if option.Some? then option else Find(m.symbolBars, p.contract.symbol);
    if bar.Some? && bar.value.minute <= EntryTime(p) / 60 then None else bar
  }

  // ---------------------------------------------------------------
  // The decision for one position
  // ---------------------------------------------------------------

  /** The side of the quote the exit trades against. */
  function Touch(side: Side, q: QuoteView): Option<real> {
    if side == Buy then q.bid else q.ask
  }

  /** Touch of the quote, else the position's own last price. */
  function Best(m: Market, p: Position): Option<real> {
    var q := QuoteFor(m, p.contract);
    if q.Some? && Touch(p.side, q.value).Some? then Touch(p.side, q.value) else p.currentPrice
  }

  function Mid(q: QuoteView): Option<real> {
    if q.bid.Some? && q.ask.Some? then Some((q.bid.value + q.ask.value) / 2.0) else None
  }

  function EvalPrice(p: Position, q: QuoteView): Option<real> {
    if p.useMidForExits && Mid(q).Some? then Mid(q) else Touch(p.side, q)
  }

  /** With a bar: its extreme, or the mid well beyond the stop. Without: the evaluated quote. */
  predicate StopHit(p: Position, bar: Option<BarView>, q: QuoteView) {
    p.stopPrice.Some? &&
    var stop := p.stopPrice.value;
    if bar.Some? then
      if p.side == Buy then
        bar.value.low <= stop || (Mid(q).Some? && Mid(q).value <= stop * (1.0 - GUARD_BUFFER))
      else
        bar.value.high >= stop || (Mid(q).Some? && Mid(q).value >= stop * (1.0 + GUARD_BUFFER))
    else
      var e := EvalPrice(p, q);
      e.Some? && if p.side == Buy then e.value <= stop else e.value >= stop
  }

  predicate TargetHit(p: Position, q: QuoteView) {
    var e := EvalPrice(p, q);
    && e.Some? && p.targetPrice.Some?
    && if p.side == Buy then e.value >= p.targetPrice.value else e.value <= p.targetPrice.value
  }

  datatype Trigger = Trigger(reason: Reason, limit: Option<real>)

  /** The first condition that applies, and the price it would exit at. */
  function TriggerFor(m: Market, p: Position, force: bool, flagged: set<int>): Option<Trigger> {
    if force then Some(Trigger(ForceFlatten, Best(m, p)))
    else if p.timeExit.Some? && m.now >= p.timeExit.value then Some(Trigger(TimeExit, Best(m, p)))
    else if p.id in flagged then Some(Trigger(StrategyExit, Best(m, p)))
    else
      match QuoteFor(m, p.contract)
      case None => None
      case Some(q) =>
        if !q.recent || !q.tight || m.now - EntryTime(p) < GRACE_SECONDS then None
        else if StopHit(p, BarFor(m, p), q) then
          Some(Trigger(StopLoss, if Touch(p.side, q).Some? then Touch(p.side, q) else EvalPrice(p, q)))
        else if TargetHit(p, q) then Some(Trigger(TakeProfit, EvalPrice(p, q)))
        else None
  }

  /** The limit that is sent: at least a cent when the price is not positive, then rounded to cents. */
  function LimitSent(price: real): real {
    Pricing.Cents(if price <= 0.0 then 0.01 else price)
  }

  function IntentFor(p: Position, limit: Price): ExitIntent
    requires p.quantity > 0
  {
    ExitIntent(p.id, false, p.strategy, p.contract, Opposite(p.side), p.quantity, limit)
  }

  function VerdictFor(m: Market, p: Position, force: bool, flagged: set<int>): Verdict {
    if !IsOpen(p) then Hold
    else
      match TriggerFor(m, p, force, flagged)
      case None => Hold
      case Some(t) =>
        if t.limit.None? then Deferred(t.reason)
        else
          var limit := LimitSent(t.limit.value);
          if limit <= 0.0 || p.quantity <= 0 then Invalid
          else Emit(Signal(p, IntentFor(p, limit), t.reason))
  }

  /** All signals in order, or nothing at all if one intent is invalid. */
  function Checked(m: Market, ps: seq<Position>, force: bool, flagged: set<int>): Option<seq<Signal>> {
    if ps == [] then Some([])
    else
      var n := |ps| - 1;
      var before := Checked(m, ps[..n], force, flagged);
      var v := VerdictFor(m, ps[n], force, flagged);
      if before.None? || v.Invalid? then None
      else Some(before.value + if v.Emit? then [v.signal] else [])
  }

  method CheckExits(m: Market, ps: seq<Position>, force: bool, flagged: set<int>) returns (signals: Option<seq<Signal>>)
    ensures signals == Checked(m, ps, force, flagged)
  {
    hide TriggerFor, Pricing.Cents;
    var out: seq<Signal> := [];
    for i := 0 to |ps|
      invariant Checked(m, ps[..i], force, flagged) == Some(out)
    {
      assert ps[..i + 1][..i] == ps[..i];
      assert out + [] == out;
      var p := ps[i];
      if !IsOpen(p) {
        continue;
      }
      var trigger := Evaluate(m, p, force, flagged);
      if trigger.None? || trigger.value.limit.None? {
        continue;
      }
      var limit := trigger.value.limit.value;
      if limit <= 0.0 {
        limit := 0.01;
      }
      limit := Pricing.Cents(limit);
      if limit <= 0.0 || p.quantity <= 0 {
        PrefixInvalid(m, ps, i + 1, force, flagged);
        return None;
      }
      out := out + [Signal(p, IntentFor(p, limit), trigger.value.reason)];
    }
    assert ps[..|ps|] == ps;
    return Some(out);
  }

  /** The conditions in the order they are tried. */
  method Evaluate(m: Market, p: Position, force: bool, flagged: set<int>) returns (trigger: Option<Trigger>)
    ensures trigger == TriggerFor(m, p, force, flagged)
  {
    hide QuoteFor, Best, BarFor, EvalPrice, Mid, Touch, EntryTime;
    var quote := QuoteFor(m, p.contract);
    if force {
      return Some(Trigger(ForceFlatten, Best(m, p)));
    }
    if p.timeExit.Some? && m.now >= p.timeExit.value {
      return Some(Trigger(TimeExit, Best(m, p)));
    }
    if p.id in flagged {
      return Some(Trigger(StrategyExit, Best(m, p)));
    }
    if quote.None? {
      return None;
    }
    var q := quote.value;
    if !q.recent || !q.tight || m.now - EntryTime(p) < GRACE_SECONDS {
      return None;
    }
    var eval := EvalPrice(p, q);
    var bar := BarFor(m, p);
    var stopHit := false;
    if p.stopPrice.Some? {
      var stop := p.stopPrice.value;
      if bar.Some? {
        if p.side == Buy && bar.value.low <= stop {
          stopHit := true;
        } else if p.side == Sell && bar.value.high >= stop {
          stopHit := true;
        }
        if !stopHit && Mid(q).Some? {
          if p.side == Buy && Mid(q).value <= stop * (1.0 - GUARD_BUFFER) {
            stopHit := true;
          } else if p.side == Sell && Mid(q).value >= stop * (1.0 + GUARD_BUFFER) {
            stopHit := true;
          }
        }
      } else if eval.Some? {
        stopHit := if p.side == Buy then eval.value <= stop else eval.value >= stop;
      }
    }
    assert stopHit <==> StopHit(p, bar, q);
    if stopHit {
      var touch := Touch(p.side, q);
      return Some(Trigger(StopLoss, if touch.Some? then touch else eval));
    }
    if eval.Some? && p.targetPrice.Some? {
      if p.side == Buy && eval.value >= p.targetPrice.value {
        return Some(Trigger(TakeProfit, eval));
      }
      if p.side == Sell && eval.value <= p.targetPrice.value {
        return Some(Trigger(TakeProfit, eval));
      }
    }
    return None;
  }

  lemma {:induction false} PrefixInvalid(m: Market, ps: seq<Position>, n: nat, force: bool, flagged: set<int>)
    requires n <= |ps| && Checked(m, ps[..n], force, flagged).None?
    ensures Checked(m, ps, force, flagged).None?
    decreases |ps|
  {
    if n == |ps| {
      assert ps[..n] == ps;
    } else {
      assert ps[..|ps| - 1][..n] == ps[..n];
      PrefixInvalid(m, ps[..|ps| - 1], n, force, flagged);
    }
  }

  // ---------------------------------------------------------------
  // When a check sends what it should
  // ---------------------------------------------------------------

  /** Rounding to cents wipes out a positive price exactly when it is at most half a cent. */
  lemma CentsPositiveIff(price: real)
    requires price > 0.0
    ensures Pricing.Cents(price) > 0.0 <==> price > 0.005
  {
    if price <= 0.005 {
      Pricing.RoundMonotone(0.0, price * 100.0);
      Pricing.RoundMonotone(price * 100.0, 0.5);
      Pricing.RoundInteger(0);
    } else {
      var x := price * 100.0;
      assert x > 0.5;
      Pricing.RoundNear(x);
    }
  }

  lemma LimitSentIff(price: real)
    ensures LimitSent(price) > 0.0 <==> !(0.0 < price <= 0.005)
  {
    CentsPositiveIff(0.01);
    if price > 0.0 {
      CentsPositiveIff(price);
    }
  }

  predicate AllHeld(ps: seq<Position>) {
    forall i :: 0 <= i < |ps| && IsOpen(ps[i]) ==> ps[i].quantity > 0
  }

  /** One open position priced at half a cent or less costs the whole check, every other exit included. */
  lemma {:induction false} CheckFailsIff(m: Market, ps: seq<Position>, force: bool, flagged: set<int>)
    requires AllHeld(ps)
    ensures Checked(m, ps, force, flagged).None? <==>
            exists i :: 0 <= i < |ps| && IsOpen(ps[i]) && TooCheap(m, ps[i], force, flagged)
  {
    if ps != [] {
      var n := |ps| - 1;
      CheckFailsIff(m, ps[..n], force, flagged);
      assert forall i :: 0 <= i < n ==> ps[i] == ps[..n][i];
      var t := TriggerFor(m, ps[n], force, flagged);
      if t.Some? && t.value.limit.Some? {
        LimitSentIff(t.value.limit.value);
      }
    }
  }

  predicate TooCheap(m: Market, p: Position, force: bool, flagged: set<int>) {
    var t := TriggerFor(m, p, force, flagged);
    t.Some? && t.value.limit.Some? && 0.0 < t.value.limit.value <= 0.005
  }

  /** Every signal is reduce-only: opposite side, the whole position, never an entry. */
  lemma {:induction false} SignalsReduceOnly(m: Market, ps: seq<Position>, force: bool, flagged: set<int>)
    requires Checked(m, ps, force, flagged).Some?
    ensures forall k :: 0 <= k < |Checked(m, ps, force, flagged).value| ==>
              ReduceOnly(Checked(m, ps, force, flagged).value[k])
                && Checked(m, ps, force, flagged).value[k].position in ps
  {
    if ps != [] {
      SignalsReduceOnly(m, ps[..|ps| - 1], force, flagged);
    }
  }

  predicate ReduceOnly(s: Signal) {
    && IsOpen(s.position) && !s.intent.isEntry && s.intent.positionId == s.position.id
    && s.intent.strategy == s.position.strategy && s.intent.contract == s.position.contract
    && s.intent.side == Opposite(s.position.side) && s.intent.quantity == s.position.quantity
  }

  /** A price that can be sent: known, and not wiped out by rounding. */
  predicate Priceable(m: Market, p: Position) {
    Best(m, p).Some? && !(0.0 < Best(m, p).value <= 0.005)
  }

  function PositionsOf(signals: seq<Signal>): seq<Position> {
    if signals == [] then [] else PositionsOf(signals[..|signals| - 1]) + [signals[|signals| - 1].position]
  }

  lemma OpenOnlyStep(ps: seq<Position>)
    requires ps != []
    ensures
      var n := |ps| - 1;
      OpenOnly(ps) == OpenOnly(ps[..n]) + if IsOpen(ps[n]) then [ps[n]] else []
  {
  }

  /** Flatten-all sends exactly one exit per open position, in order, exactly when every one can be priced. */
  lemma {:induction false} FlattenCoversIff(m: Market, ps: seq<Position>, flagged: set<int>)
    requires AllHeld(ps)
    ensures
      var signals := Checked(m, ps, true, flagged);
      (signals.Some? && PositionsOf(signals.value) == OpenOnly(ps))
      <==> forall i :: 0 <= i < |ps| && IsOpen(ps[i]) ==> Priceable(m, ps[i])
    ensures
      var signals := Checked(m, ps, true, flagged);
      signals.Some? ==> |PositionsOf(signals.value)| <= |OpenOnly(ps)|
  {
    if ps != [] {
      var n := |ps| - 1;
      FlattenCoversIff(m, ps[..n], flagged);
      assert forall i :: 0 <= i < n ==> ps[i] == ps[..n][i];
      OpenOnlyStep(ps);
      FlattenStep(m, ps, flagged);
      var before := Checked(m, ps[..n], true, flagged);
      assert OpenOnly(ps[..n]) + [] == OpenOnly(ps[..n]);
      if before.Some? {
        SameEnd(PositionsOf(before.value), OpenOnly(ps[..n]), ps[n]);
      }
    }
  }

  lemma SameEnd(a: seq<Position>, b: seq<Position>, p: Position)
    ensures a + [p] == b + [p] <==> a == b
  {
    assert (a + [p])[..|a|] == a && (b + [p])[..|b|] == b;
  }

  lemma FlattenStep(m: Market, ps: seq<Position>, flagged: set<int>)
    requires ps != [] && AllHeld(ps)
    ensures
      var n := |ps| - 1;
      var before, signals := Checked(m, ps[..n], true, flagged), Checked(m, ps, true, flagged);
      && (signals.Some? ==> before.Some?)
      && (before.Some? && !IsOpen(ps[n]) ==> signals == before)
      && (before.Some? && IsOpen(ps[n]) && Priceable(m, ps[n]) ==>
            signals.Some? && PositionsOf(signals.value) == PositionsOf(before.value) + [ps[n]])
      && (before.Some? && IsOpen(ps[n]) && !Priceable(m, ps[n]) ==>
            signals.None? || signals == before)
  {
    var n := |ps| - 1;
    var before := Checked(m, ps[..n], true, flagged);
    if IsOpen(ps[n]) && Best(m, ps[n]).Some? {
      LimitSentIff(Best(m, ps[n]).value);
    }
    if before.Some? {
      assert before.value + [] == before.value;
      var v := VerdictFor(m, ps[n], true, flagged);
      if v.Emit? {
        assert (before.value + [v.signal])[..|before.value|] == before.value;
      }
    }
  }

  // ---------------------------------------------------------------
  // Draining the book
  // ---------------------------------------------------------------

  /** The fills after each other; ids[i] would name the position the i-th fill opened, had it to. */
  function AfterFills(ps: seq<Position>, fs: seq<Fill>, ids: seq<int>): seq<Position>
    requires |ids| == |fs|
    decreases |fs|
  {
    if fs == [] then ps else AfterFills(HandleFill(ps, fs[0], None, ids[0]), fs[1..], ids[1..])
  }

  function QuantityFor(fs: seq<Fill>, key: BookKey): int {
    if fs == [] then 0
    else (if FillKey(fs[0]) == key then fs[0].quantity else 0) + QuantityFor(fs[1..], key)
  }

  predicate Closes(f: Fill, p: Position) {
    IsOpen(p) && PositionKey(p) == FillKey(f) && f.side != p.side
  }

  /** The fills only reduce open positions, and together take exactly what each holds. */
  ghost predicate Drains(ps: seq<Position>, fs: seq<Fill>) {
    && (forall k :: 0 <= k < |fs| ==>
          exists i :: 0 <= i < |ps| && Closes(fs[k], ps[i]))
    && (forall i :: 0 <= i < |ps| && IsOpen(ps[i]) ==> QuantityFor(fs, PositionKey(ps[i])) == ps[i].quantity)
  }

  lemma {:induction false} QuantityBounds(fs: seq<Fill>, key: BookKey)
    ensures QuantityFor(fs, key) >= 0
    ensures QuantityFor(fs, key) == 0 <==> forall k :: 0 <= k < |fs| ==> FillKey(fs[k]) != key
  {
    if fs != [] {
      QuantityBounds(fs[1..], key);
      assert forall k :: 0 <= k < |fs| - 1 ==> fs[1..][k] == fs[k + 1];
      if QuantityFor(fs, key) == 0 {
        forall k | 0 <= k < |fs| ensures FillKey(fs[k]) != key {
          assert k > 0 ==> fs[1..][k - 1] == fs[k];
        }
      }
    }
  }

  /** One fill of a draining sequence takes its position down, or closes it, and touches no other. */
  lemma DrainStep(ps: seq<Position>, fs: seq<Fill>, id: int) returns (t: nat)
    requires Netting.Tidy(ps) && Drains(ps, fs) && fs != []
    ensures t < |ps| && IsOpen(ps[t]) && PositionKey(ps[t]) == FillKey(fs[0])
    ensures HandleFill(ps, fs[0], None, id) == ps[t := Filled(ps[t], fs[0])]
    ensures
      var q := Filled(ps[t], fs[0]);
      && q.side == ps[t].side && PositionKey(q) == PositionKey(ps[t])
      && q.quantity == QuantityFor(fs[1..], FillKey(fs[0])) && (IsOpen(q) <==> q.quantity > 0)
  {
    var f := fs[0];
    var i :| 0 <= i < |ps| && Closes(f, ps[i]);
    t := i;
    var found := FirstOpen(ps, FillKey(f));
    assert found == Some(i);
    QuantityBounds(fs[1..], FillKey(f));
    assert QuantityFor(fs, FillKey(f)) == f.quantity + QuantityFor(fs[1..], FillKey(f));
    FilledKeepsKey(ps[i], f);
  }

  lemma FilledKeepsKey(p: Position, f: Fill)
    requires f.side != p.side
    ensures
      var q := Filled(p, f);
      && q.side == p.side && PositionKey(q) == PositionKey(p)
      && q.quantity == p.quantity - Min(f.quantity, p.quantity)
      && (IsOpen(p) ==> (IsOpen(q) <==> f.quantity < p.quantity))
  {
    hide Gain;
  }

  lemma DrainsRest(ps: seq<Position>, fs: seq<Fill>, id: int)
    requires Netting.Tidy(ps) && Drains(ps, fs) && fs != []
    ensures Drains(HandleFill(ps, fs[0], None, id), fs[1..])
  {
    hide HandleFill, Filled;
    var t := DrainStep(ps, fs, id);
    var qs := HandleFill(ps, fs[0], None, id);
    var rest := fs[1..];
    forall k | 0 <= k < |rest|
      ensures exists i :: 0 <= i < |qs| && Closes(rest[k], qs[i])
    {
      assert rest[k] == fs[k + 1];
      var i :| 0 <= i < |ps| && Closes(fs[k + 1], ps[i]);
      QuantityBounds(rest, FillKey(fs[0]));
      assert Closes(rest[k], qs[i]);
    }
    forall i | 0 <= i < |qs| && IsOpen(qs[i]) ensures QuantityFor(rest, PositionKey(qs[i])) == qs[i].quantity {
      if i != t {
        assert PositionKey(ps[i]) != FillKey(fs[0]);
      }
    }
  }

  /**
   * However the exits' fills are cut into parts and interleaved, once they have all arrived no open
   * position is left.
   */
  lemma {:induction false} FillsDrain(ps: seq<Position>, fs: seq<Fill>, ids: seq<int>)
    requires |ids| == |fs| && Netting.Tidy(ps) && Drains(ps, fs)
    ensures forall i :: 0 <= i < |AfterFills(ps, fs, ids)| ==> !IsOpen(AfterFills(ps, fs, ids)[i])
    ensures |AfterFills(ps, fs, ids)| == |ps|
    decreases |fs|
  {
    hide HandleFill, Filled;
    if fs == [] {
      forall i | 0 <= i < |ps| ensures !IsOpen(ps[i]) {
        NothingDrained(ps, i);
      }
    } else {
      var t := DrainStep(ps, fs, ids[0]);
      DrainsRest(ps, fs, ids[0]);
      Netting.FillKeepsTidy(ps, fs[0], ids[0]);
      FillsDrain(HandleFill(ps, fs[0], None, ids[0]), fs[1..], ids[1..]);
    }
  }

  lemma NothingDrained(ps: seq<Position>, i: nat)
    requires Netting.Tidy(ps) && Drains(ps, []) && i < |ps|
    ensures !IsOpen(ps[i])
  {
  }

  function SignalKey(s: Signal): BookKey {
    BookKey(s.intent.strategy, KeyOf(s.intent.contract))
  }

  predicate FillsPartOf(f: Fill, s: Signal) {
    FillKey(f) == SignalKey(s) && f.side == s.intent.side
  }

  /** The fills are the signals', in parts: each belongs to a signal, and each signal is filled in full. */
  ghost predicate FillsOf(signals: seq<Signal>, fs: seq<Fill>) {
    && (forall k :: 0 <= k < |fs| ==> exists j :: 0 <= j < |signals| && FillsPartOf(fs[k], signals[j]))
    && (forall j :: 0 <= j < |signals| ==> QuantityFor(fs, SignalKey(signals[j])) == signals[j].intent.quantity)
  }

  lemma {:induction false} PositionsOfAt(signals: seq<Signal>)
    ensures |PositionsOf(signals)| == |signals|
    ensures forall j :: 0 <= j < |signals| ==> PositionsOf(signals)[j] == signals[j].position
  {
    if signals != [] {
      PositionsOfAt(signals[..|signals| - 1]);
    }
  }

  lemma {:induction false} OpenOnlyMembers(ps: seq<Position>)
    ensures forall p :: p in OpenOnly(ps) <==> p in ps && IsOpen(p)
  {
    if ps != [] {
      var n := |ps| - 1;
      OpenOnlyMembers(ps[..n]);
      OpenOnlyStep(ps);
      assert ps == ps[..n] + [ps[n]];
    }
  }

  /** Flatten-all drains the book: its exits, filled in full in any parts and any order, leave nothing open. */
  lemma FlattenDrains(m: Market, ps: seq<Position>, flagged: set<int>, fs: seq<Fill>, ids: seq<int>)
    requires Netting.Tidy(ps) && |ids| == |fs|
    requires forall i :: 0 <= i < |ps| && IsOpen(ps[i]) ==> Priceable(m, ps[i])
    requires Checked(m, ps, true, flagged).Some? ==> FillsOf(Checked(m, ps, true, flagged).value, fs)
    ensures Checked(m, ps, true, flagged).Some?
    ensures forall i :: 0 <= i < |AfterFills(ps, fs, ids)| ==> !IsOpen(AfterFills(ps, fs, ids)[i])
  {
    hide Checked, Priceable, ReduceOnly, AfterFills, QuantityFor;
    FlattenCoversIff(m, ps, flagged);
    var signals := Checked(m, ps, true, flagged).value;
    SignalsReduceOnly(m, ps, true, flagged);
    DrainedBySignals(ps, signals, fs);
    FillsDrain(ps, fs, ids);
  }

  lemma DrainedBySignals(ps: seq<Position>, signals: seq<Signal>, fs: seq<Fill>)
    requires FillsOf(signals, fs) && PositionsOf(signals) == OpenOnly(ps)
    requires forall j :: 0 <= j < |signals| ==> ReduceOnly(signals[j]) && signals[j].position in ps
    ensures Drains(ps, fs)
  {
    hide QuantityFor;
    PositionsOfAt(signals);
    OpenOnlyMembers(ps);
    forall k | 0 <= k < |fs|
      ensures exists i :: 0 <= i < |ps| && Closes(fs[k], ps[i])
    {
      var j :| 0 <= j < |signals| && FillsPartOf(fs[k], signals[j]);
      var i :| 0 <= i < |ps| && ps[i] == signals[j].position;
      assert ReduceOnly(signals[j]);
      assert Closes(fs[k], ps[i]);
    }
    forall i | 0 <= i < |ps| && IsOpen(ps[i]) ensures QuantityFor(fs, PositionKey(ps[i])) == ps[i].quantity {
      assert ps[i] in OpenOnly(ps);
      var j :| 0 <= j < |signals| && PositionsOf(signals)[j] == ps[i];
      assert ReduceOnly(signals[j]);
    }
  }
}
