/** What a sequence of fills nets to, and that positions at average cost hold exactly that. */
module Netting {
  import opened Domain
  import opened Positions
  import opened Sums
  import CashFlow

  /** The groups the books are compared by. */
  datatype Scope =
    | OneKey(key: BookKey)
    | Account(strategy: string, symbol: string)
    | AcrossStrategies(contract: ContractKey)

  predicate In(scope: Scope, key: BookKey) {
    match scope
    case OneKey(k) => key == k
    case Account(strategy, symbol) => key.strategy == strategy && key.contract.symbol == symbol
    case AcrossStrategies(contract) => key.contract == contract
  }

  // ---------------------------------------------------------------
  // Fills
  // ---------------------------------------------------------------

  function FillQty(f: Fill): int {
    Sign(f.side) * f.quantity
  }

  /** Cash per unit of multiplier: bought is paid, sold is received. */
  function FillCash(f: Fill): real {
    -(FillQty(f) as real * f.price)
  }

  function FillQtyIn(scope: Scope): Fill -> int {
    (f: Fill) => if In(scope, FillKey(f)) then FillQty(f) else 0
  }

  function FillCashIn(scope: Scope): Fill -> real {
    (f: Fill) => if In(scope, FillKey(f)) then FillCash(f) else 0.0
  }

  function NetFilled(fs: seq<Fill>, scope: Scope): int {
    SumInt(fs, FillQtyIn(scope))
  }

  function CashOf(fs: seq<Fill>, scope: Scope): real {
    SumReal(fs, FillCashIn(scope))
  }

  // ---------------------------------------------------------------
  // Positions
  // ---------------------------------------------------------------

  /** The position book after the fills; ids[i] is the id generated for the i-th. */
  function Booked(fs: seq<Fill>, ids: seq<int>): seq<Position>
    requires |ids| == |fs|
  {
    var n := |fs| - 1;
    if fs == [] then [] else HandleFill(Booked(fs[..n], ids[..n]), fs[n], None, ids[n])
  }

  /** The fill closes no more than is held. */
  predicate Covered(ps: seq<Position>, f: Fill) {
    var t := FirstOpen(ps, FillKey(f));
    t.Some? && ps[t.value].side != f.side ==> f.quantity <= ps[t.value].quantity
  }

  predicate AllCovered(fs: seq<Fill>, ids: seq<int>)
    requires |ids| == |fs|
  {
    var n := |fs| - 1;
    fs == [] || (AllCovered(fs[..n], ids[..n]) && Covered(Booked(fs[..n], ids[..n]), fs[n]))
  }

  function Held(p: Position): int {
    if IsOpen(p) then Sign(p.side) * p.quantity else 0
  }

  function HeldIn(scope: Scope): Position -> int {
    (p: Position) => if In(scope, PositionKey(p)) then Held(p) else 0
  }

  function NetHeld(ps: seq<Position>, scope: Scope): int {
    SumInt(ps, HeldIn(scope))
  }

  /** Open positions hold something, and no key has two of them. */
  ghost predicate Tidy(ps: seq<Position>) {
    && (forall i :: 0 <= i < |ps| ==> if IsOpen(ps[i]) then ps[i].quantity > 0 else ps[i].quantity == 0)
    && (forall i :: 0 <= i < |ps| ==> ps[i].average > 0.0)
    && (forall i, j ::
          (0 <= i < |ps| && 0 <= j < |ps| && IsOpen(ps[i]) && IsOpen(ps[j])
           && PositionKey(ps[i]) == PositionKey(ps[j])) ==> i == j)
  }

  lemma BlendPositive(average: real, held: nat, price: real, added: Qty)
    requires average > 0.0 && price > 0.0
    ensures Blend(average, held, price, added) > 0.0
  {
    var cost := average * held as real + price * added as real;
    assert average * held as real >= 0.0;
    assert price * added as real > 0.0;
    assert cost / (held + added) as real > 0.0;
  }

  lemma FilledFacts(p: Position, f: Fill)
    requires IsOpen(p) && p.quantity > 0 && p.average > 0.0
    ensures
      var q := Filled(p, f);
      && q.average > 0.0 && PositionKey(q) == PositionKey(p) && q.contract == p.contract && q.side == p.side
      && (if IsOpen(q) then q.quantity > 0 else q.quantity == 0)
      && (f.side == p.side || f.quantity <= p.quantity ==> Held(q) == Held(p) + FillQty(f))
  {
    if f.side == p.side {
      BlendPositive(p.average, p.quantity, f.price, f.quantity);
    }
  }

  lemma FillKeepsTidy(ps: seq<Position>, f: Fill, id: int)
    requires Tidy(ps)
    ensures Tidy(HandleFill(ps, f, None, id))
  {
    var t := FirstOpen(ps, FillKey(f));
    if t.Some? {
      FilledFacts(ps[t.value], f);
    }
  }

  lemma FilledMovesNet(ps: seq<Position>, i: nat, f: Fill, scope: Scope)
    requires i < |ps| && IsOpen(ps[i]) && ps[i].quantity > 0 && ps[i].average > 0.0 && PositionKey(ps[i]) == FillKey(f)
    requires f.side == ps[i].side || f.quantity <= ps[i].quantity
    ensures NetHeld(ps[i := Filled(ps[i], f)], scope) == NetHeld(ps, scope) + FillQtyIn(scope)(f)
  {
    hide Filled, Held, FillQty, Sign, Blend, SumInt, IsOpen, PositionKey, FillKey, In;
    FilledFacts(ps[i], f);
    SumIntUpdate(ps, i, Filled(ps[i], f), HeldIn(scope));
  }

  /** A covered fill moves the net of every group it belongs to by its signed quantity. */
  lemma FillMovesNet(ps: seq<Position>, f: Fill, id: int, scope: Scope)
    requires Tidy(ps) && Covered(ps, f)
    ensures NetHeld(HandleFill(ps, f, None, id), scope) == NetHeld(ps, scope) + FillQtyIn(scope)(f)
  {
    hide Filled, Opened, Held, FillQty, Sign, SumInt;
    var t := FirstOpen(ps, FillKey(f));
    if t.None? {
      OpenedFacts(f, id);
      SumIntAppend(ps, Opened(f, id), HeldIn(scope));
    } else {
      FilledMovesNet(ps, t.value, f, scope);
    }
  }

  lemma {:induction false} BookedTidy(fs: seq<Fill>, ids: seq<int>)
    requires |ids| == |fs|
    ensures Tidy(Booked(fs, ids))
  {
    var n := |fs| - 1;
    if fs != [] {
      BookedTidy(fs[..n], ids[..n]);
      FillKeepsTidy(Booked(fs[..n], ids[..n]), fs[n], ids[n]);
    }
  }

  /** After any covered fills the positions of every group hold exactly what was filled. */
  lemma {:induction false} BookedHoldsNet(fs: seq<Fill>, ids: seq<int>, scope: Scope)
    requires |ids| == |fs| && AllCovered(fs, ids)
    ensures NetHeld(Booked(fs, ids), scope) == NetFilled(fs, scope)
  {
    var n := |fs| - 1;
    if fs != [] {
      BookedHoldsNet(fs[..n], ids[..n], scope);
      BookedTidy(fs[..n], ids[..n]);
      FillMovesNet(Booked(fs[..n], ids[..n]), fs[n], ids[n], scope);
    }
  }

  /** One fill keeps the books equal exactly when it is covered: the excess of an over-close is dropped. */
  lemma NetKeptIffCovered(ps: seq<Position>, f: Fill, id: int)
    requires Tidy(ps)
    ensures
      var scope := OneKey(FillKey(f));
      NetHeld(HandleFill(ps, f, None, id), scope) == NetHeld(ps, scope) + FillQty(f) <==> Covered(ps, f)
  {
    var scope := OneKey(FillKey(f));
    var t := FirstOpen(ps, FillKey(f));
    if Covered(ps, f) {
      FillMovesNet(ps, f, id, scope);
    } else {
      SumIntUpdate(ps, t.value, Filled(ps[t.value], f), HeldIn(scope));
    }
  }

  // ---------------------------------------------------------------
  // Results
  // ---------------------------------------------------------------

  function WorthIn(scope: Scope): Position -> real {
    (p: Position) => if In(scope, PositionKey(p)) then CashFlow.Worth(p) else 0.0
  }

  function RealizedIn(scope: Scope): Position -> real {
    (p: Position) => if In(scope, PositionKey(p)) then p.realized else 0.0
  }

  function RealizedOf(ps: seq<Position>, scope: Scope): real {
    SumReal(ps, RealizedIn(scope))
  }

  predicate OneMultiplier(fs: seq<Fill>, scope: Scope, m: Qty) {
    forall i :: 0 <= i < |fs| && In(scope, FillKey(fs[i])) ==> fs[i].contract.multiplier == m
  }

  predicate PositionsCarry(ps: seq<Position>, scope: Scope, m: Qty) {
    forall i :: 0 <= i < |ps| && In(scope, PositionKey(ps[i])) ==> ps[i].contract.multiplier == m
  }

  lemma ScaledCash(f: Fill, m: real)
    ensures FillQty(f) as real * (f.price * m) == -(FillCash(f) * m)
  {
    assert FillQty(f) as real * (f.price * m) == FillQty(f) as real * f.price * m;
  }

  lemma OpenedFacts(f: Fill, id: int)
    ensures PositionKey(Opened(f, id)) == FillKey(f) && Opened(f, id).contract == f.contract
    ensures Held(Opened(f, id)) == FillQty(f)
  {
  }

  lemma OpenedWorth(f: Fill, id: int)
    ensures CashFlow.Worth(Opened(f, id)) == FillCash(f) * f.contract.multiplier as real
  {
    hide CashFlow.Worth, Opened;
    ScaledCash(f, f.contract.multiplier as real);
    CashFlow.OpenedBalances(f, id);
  }

  lemma FilledWorth(p: Position, f: Fill)
    requires f.contract.multiplier == p.contract.multiplier
    requires f.side == p.side || f.quantity <= p.quantity
    ensures CashFlow.Worth(Filled(p, f)) == CashFlow.Worth(p) + FillCash(f) * f.contract.multiplier as real
  {
    hide CashFlow.Worth, Filled;
    ScaledCash(f, f.contract.multiplier as real);
    assert CashFlow.Clipped(p, f) == FillQty(f);
    CashFlow.FilledBalances(p, f);
  }

  lemma FillMovesWorth(ps: seq<Position>, f: Fill, id: int, scope: Scope)
    requires Tidy(ps) && Covered(ps, f) && In(scope, FillKey(f))
    requires
      var t := FirstOpen(ps, FillKey(f));
      t.Some? ==> ps[t.value].contract.multiplier == f.contract.multiplier
    ensures SumReal(HandleFill(ps, f, None, id), WorthIn(scope))
            == SumReal(ps, WorthIn(scope)) + FillCash(f) * f.contract.multiplier as real
  {
    hide CashFlow.Worth, Filled, Opened, FillCash;
    var t := FirstOpen(ps, FillKey(f));
    if t.None? {
      OpenedWorth(f, id);
      OpenedFacts(f, id);
      SumRealAppend(ps, Opened(f, id), WorthIn(scope));
    } else {
      var p := ps[t.value];
      FilledFacts(p, f);
      FilledWorth(p, f);
      SumRealUpdate(ps, t.value, Filled(p, f), WorthIn(scope));
    }
  }

  lemma FillOutside(ps: seq<Position>, f: Fill, id: int, scope: Scope)
    requires Tidy(ps) && !In(scope, FillKey(f))
    ensures SumReal(HandleFill(ps, f, None, id), WorthIn(scope)) == SumReal(ps, WorthIn(scope))
  {
    hide CashFlow.Worth, Filled, Opened;
    var t := FirstOpen(ps, FillKey(f));
    if t.None? {
      OpenedFacts(f, id);
      SumRealAppend(ps, Opened(f, id), WorthIn(scope));
    } else {
      FilledFacts(ps[t.value], f);
      SumRealUpdate(ps, t.value, Filled(ps[t.value], f), WorthIn(scope));
    }
  }

  lemma FillKeepsMultiplier(ps: seq<Position>, f: Fill, id: int, scope: Scope, m: Qty)
    requires Tidy(ps) && PositionsCarry(ps, scope, m)
    requires In(scope, FillKey(f)) ==> f.contract.multiplier == m
    ensures PositionsCarry(HandleFill(ps, f, None, id), scope, m)
  {
    var t := FirstOpen(ps, FillKey(f));
    if t.Some? {
      FilledFacts(ps[t.value], f);
    }
  }

  lemma {:induction false} BookedCarries(fs: seq<Fill>, ids: seq<int>, scope: Scope, m: Qty)
    requires |ids| == |fs| && OneMultiplier(fs, scope, m)
    ensures PositionsCarry(Booked(fs, ids), scope, m)
  {
    var n := |fs| - 1;
    if fs != [] {
      BookedCarries(fs[..n], ids[..n], scope, m);
      BookedTidy(fs[..n], ids[..n]);
      FillKeepsMultiplier(Booked(fs[..n], ids[..n]), fs[n], ids[n], scope, m);
    }
  }

  /** Cash per unit, in money. */
  function Money(cash: real, m: Qty): real {
    cash * m as real
  }

  lemma MoneyAdds(total: real, cash: real, m: Qty)
    ensures Money(total + cash, m) == Money(total, m) + Money(cash, m)
  {
  }

  lemma MoneyInScope(f: Fill, scope: Scope, m: Qty)
    requires In(scope, FillKey(f)) ==> f.contract.multiplier == m
    ensures Money(FillCashIn(scope)(f), m)
            == if In(scope, FillKey(f)) then FillCash(f) * f.contract.multiplier as real else 0.0
  {
    hide FillCash;
    assert Money(0.0, m) == 0.0;
  }

  lemma CarriedByTarget(ps: seq<Position>, f: Fill, scope: Scope, m: Qty)
    requires PositionsCarry(ps, scope, m) && In(scope, FillKey(f))
    ensures FirstOpen(ps, FillKey(f)).Some? ==> ps[FirstOpen(ps, FillKey(f)).value].contract.multiplier == m
  {
  }

  lemma FillMovesScaledCash(ps: seq<Position>, f: Fill, id: int, scope: Scope, m: Qty)
    requires Tidy(ps) && Covered(ps, f) && PositionsCarry(ps, scope, m)
    requires In(scope, FillKey(f)) ==> f.contract.multiplier == m
    ensures SumReal(HandleFill(ps, f, None, id), WorthIn(scope))
            == SumReal(ps, WorthIn(scope)) + Money(FillCashIn(scope)(f), m)
  {
    hide *;
    MoneyInScope(f, scope, m);
    if In(scope, FillKey(f)) {
      CarriedByTarget(ps, f, scope, m);
      FillMovesWorth(ps, f, id, scope);
    } else {
      FillOutside(ps, f, id, scope);
    }
  }

  lemma BookedStep(fs: seq<Fill>, ids: seq<int>, scope: Scope, m: Qty)
    requires |ids| == |fs| && fs != [] && AllCovered(fs, ids) && OneMultiplier(fs, scope, m)
    ensures
      var n := |fs| - 1;
      && Booked(fs, ids) == HandleFill(Booked(fs[..n], ids[..n]), fs[n], None, ids[n])
      && CashOf(fs, scope) == CashOf(fs[..n], scope) + FillCashIn(scope)(fs[n])
      && AllCovered(fs[..n], ids[..n]) && Covered(Booked(fs[..n], ids[..n]), fs[n])
      && OneMultiplier(fs[..n], scope, m)
      && (In(scope, FillKey(fs[n])) ==> fs[n].contract.multiplier == m)
  {
    hide HandleFill, FillCash, FillQty;
  }

  lemma NothingBooked(scope: Scope, m: Qty)
    ensures SumReal(Booked([], []), WorthIn(scope)) == Money(CashOf([], scope), m)
  {
    assert Money(0.0, m) == 0.0;
  }

  lemma {:induction false} BookedWorth(fs: seq<Fill>, ids: seq<int>, scope: Scope, m: Qty)
    requires |ids| == |fs| && AllCovered(fs, ids) && OneMultiplier(fs, scope, m)
    ensures SumReal(Booked(fs, ids), WorthIn(scope)) == Money(CashOf(fs, scope), m)
  {
    hide *;
    if fs == [] {
      NothingBooked(scope, m);
    } else {
      BookedStep(fs, ids, scope, m);
      var n := |fs| - 1;
      BookedWorth(fs[..n], ids[..n], scope, m);
      BookedTidy(fs[..n], ids[..n]);
      BookedCarries(fs[..n], ids[..n], scope, m);
      FillMovesScaledCash(Booked(fs[..n], ids[..n]), fs[n], ids[n], scope, m);
      MoneyAdds(CashOf(fs[..n], scope), FillCashIn(scope)(fs[n]), m);
    }
  }

  /** No open position is left in the group. */
  predicate Flat(ps: seq<Position>, scope: Scope) {
    forall i :: 0 <= i < |ps| && In(scope, PositionKey(ps[i])) ==> !IsOpen(ps[i])
  }

  lemma WorthWhenFlat(p: Position)
    requires p.quantity == 0
    ensures CashFlow.Worth(p) == p.realized
  {
  }

  /** Once a group is flat, the realized results of its positions are its trade cash. */
  lemma FlatRealizedIsCash(fs: seq<Fill>, ids: seq<int>, scope: Scope, m: Qty)
    requires |ids| == |fs| && AllCovered(fs, ids) && OneMultiplier(fs, scope, m)
    requires Flat(Booked(fs, ids), scope)
    ensures RealizedOf(Booked(fs, ids), scope) == Money(CashOf(fs, scope), m)
  {
    hide CashFlow.Worth, Money;
    BookedWorth(fs, ids, scope, m);
    BookedTidy(fs, ids);
    var ps := Booked(fs, ids);
    forall i | 0 <= i < |ps| ensures WorthIn(scope)(ps[i]) == RealizedIn(scope)(ps[i]) {
      if In(scope, PositionKey(ps[i])) {
        WorthWhenFlat(ps[i]);
      }
    }
    SumRealSame(ps, WorthIn(scope), RealizedIn(scope));
  }
}
