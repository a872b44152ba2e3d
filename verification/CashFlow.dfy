/** Every position's result is its trade cash: realized, fees, cash and what is still held balance after any run. */
module CashFlow {
  import opened Domain
  import opened Positions

  datatype Action =
    | AFill(fill: Fill, positionId: Option<int>, newId: int)
    | AForceClose(id: int, exit: real)
    | ACommission(orderId: int, amount: real)

  function Apply(ps: seq<Position>, a: Action): seq<Position> {
    match a
    case AFill(f, positionId, newId) => HandleFill(ps, f, positionId, newId)
    case AForceClose(id, exit) => ForceClose(ps, id, exit)
    case ACommission(orderId, amount) => NetCommission(ps, orderId, amount)
  }

  function ApplyAll(ps: seq<Position>, actions: seq<Action>): seq<Position>
    decreases |actions|
  {
    if actions == [] then ps else ApplyAll(Apply(ps, actions[0]), actions[1..])
  }

  // ---------------------------------------------------------------
  // The ledger: what was traded, at what price, for which position
  // ---------------------------------------------------------------

  /** Contracts bought (positive) or sold for position `id`; a closing fill is clipped to what was held. */
  function Traded(ps: seq<Position>, a: Action, id: int): int {
    match a
    case AFill(f, positionId, newId) =>
      var t := Target(ps, f, positionId);
      if t.None? then
        (if (if positionId.Some? then positionId.value else newId) == id then Sign(f.side) * f.quantity else 0)
      else if ps[t.value].id != id then 0
      else if f.side == ps[t.value].side then Sign(f.side) * f.quantity
      else Sign(f.side) * Min(f.quantity, ps[t.value].quantity)
    case AForceClose(pid, exit) =>
      var t := IndexOf(ps, id);
      if pid != id || t.None? || ps[t.value].status == Closed then 0
      else -Sign(ps[t.value].side) * ps[t.value].quantity
    case ACommission(_, _) => 0
  }

  /** Price times multiplier of what the action trades. */
  function UnitValue(ps: seq<Position>, a: Action): real {
    match a
    case AFill(f, _, _) => f.price * f.contract.multiplier as real
    case AForceClose(pid, exit) =>
      var t := IndexOf(ps, pid);
      if t.None? then 0.0 else exit * ps[t.value].contract.multiplier as real
    case ACommission(_, _) => 0.0
  }

  function TradeCash(ps: seq<Position>, a: Action, id: int): real {
    -(Traded(ps, a, id) as real * UnitValue(ps, a))
  }

  function Fee(ps: seq<Position>, a: Action, id: int): real {
    if a.ACommission? && OwnerOf(ps, a.orderId).Some? && ps[OwnerOf(ps, a.orderId).value].id == id
    then a.amount else 0.0
  }

  function Cash(ps: seq<Position>, actions: seq<Action>, id: int): real
    decreases |actions|
  {
    if actions == [] then 0.0
    else TradeCash(ps, actions[0], id) + Cash(Apply(ps, actions[0]), actions[1..], id)
  }

  function Fees(ps: seq<Position>, actions: seq<Action>, id: int): real
    decreases |actions|
  {
    if actions == [] then 0.0
    else Fee(ps, actions[0], id) + Fees(Apply(ps, actions[0]), actions[1..], id)
  }

  function NetTraded(ps: seq<Position>, actions: seq<Action>, id: int): int
    decreases |actions|
  {
    if actions == [] then 0
    else Traded(ps, actions[0], id) + NetTraded(Apply(ps, actions[0]), actions[1..], id)
  }

  // ---------------------------------------------------------------
  // What the actions are assumed to be
  // ---------------------------------------------------------------

  predicate UniqueIds(ps: seq<Position>) {
    forall i, j :: 0 <= i < |ps| && 0 <= j < |ps| && ps[i].id == ps[j].id ==> i == j
  }

  /** Generated ids are new, and a fill carries the multiplier of the position it reaches. */
  predicate Sound(ps: seq<Position>, a: Action) {
    a.AFill? ==>
      var t := Target(ps, a.fill, a.positionId);
      if t.Some? then a.fill.contract.multiplier == ps[t.value].contract.multiplier
      else a.positionId.None? ==> IndexOf(ps, a.newId).None?
  }

  predicate SoundRun(ps: seq<Position>, actions: seq<Action>)
    decreases |actions|
  {
    actions == [] || (Sound(ps, actions[0]) && SoundRun(Apply(ps, actions[0]), actions[1..]))
  }

  lemma UpdateKeepsUnique(ps: seq<Position>, t: nat, q: Position)
    requires UniqueIds(ps) && t < |ps| && q.id == ps[t].id
    ensures UniqueIds(ps[t := q])
  {
  }

  lemma AppendKeepsUnique(ps: seq<Position>, q: Position)
    requires UniqueIds(ps) && IndexOf(ps, q.id).None?
    ensures UniqueIds(ps + [q])
  {
    hide IndexOf;
  }

  lemma FilledKeepsId(p: Position, f: Fill)
    ensures Filled(p, f).id == p.id
  {
  }

  lemma ApplyKeepsUnique(ps: seq<Position>, a: Action)
    requires UniqueIds(ps)
    requires a.AFill? && Target(ps, a.fill, a.positionId).None? && a.positionId.None? ==> IndexOf(ps, a.newId).None?
    ensures UniqueIds(Apply(ps, a))
  {
    hide UniqueIds, Filled, IndexOf, FirstOpen, OwnerOf, Gain;
    match a
    case AFill(f, positionId, newId) =>
      var t := Target(ps, f, positionId);
      if t.None? {
        AppendKeepsUnique(ps, Opened(f, if positionId.Some? then positionId.value else newId));
      } else {
        FilledKeepsId(ps[t.value], f);
        UpdateKeepsUnique(ps, t.value, Filled(ps[t.value], f));
      }
    case AForceClose(id, exit) =>
      var t := IndexOf(ps, id);
      if t.Some? {
        UpdateKeepsUnique(ps, t.value, ForceClosedAt(ps[t.value], exit));
      }
    case ACommission(orderId, amount) =>
      var t := OwnerOf(ps, orderId);
      if t.Some? {
        UpdateKeepsUnique(ps, t.value, ps[t.value].(realized := ps[t.value].realized - amount));
      }
  }

  // ---------------------------------------------------------------
  // The identity
  // ---------------------------------------------------------------

  function Signed(side: Side, x: real): real {
    if side == Buy then x else -x
  }

  function Cost(side: Side, average: real, quantity: nat, multiplier: Qty): real {
    Signed(side, average * quantity as real * multiplier as real)
  }

  /** The signed cost of what is held. */
  function CostHeld(p: Position): real {
    Cost(p.side, p.average, p.quantity, p.contract.multiplier)
  }

  /** Realized result minus the signed cost of what is still held. */
  function Worth(p: Position): real {
    p.realized - CostHeld(p)
  }

  function WorthOf(ps: seq<Position>, id: int): real {
    var t := IndexOf(ps, id);
    if t.None? then 0.0 else Worth(ps[t.value])
  }

  function HeldOf(ps: seq<Position>, id: int): int {
    var t := IndexOf(ps, id);
    if t.None? then 0 else Sign(ps[t.value].side) * ps[t.value].quantity
  }

  lemma BlendBalances(average: real, held: nat, price: real, added: Qty)
    ensures Blend(average, held, price, added) * (held + added) as real
        == average * held as real + price * added as real
  {
  }

  lemma AddedCost(average: real, held: nat, price: real, added: Qty, m: real)
    ensures Blend(average, held, price, added) * (held + added) as real * m
            == average * held as real * m + added as real * (price * m)
  {
    BlendBalances(average, held, price, added);
    calc {
      Blend(average, held, price, added) * (held + added) as real * m;
      (average * held as real + price * added as real) * m;
      average * held as real * m + price * added as real * m;
      average * held as real * m + added as real * (price * m);
    }
  }

  lemma ReducedCost(average: real, held: nat, price: real, exited: nat, m: real)
    requires exited <= held
    ensures (price - average) * exited as real * m + average * held as real * m
            == exited as real * (price * m) + average * (held - exited) as real * m
  {
    calc {
      (price - average) * exited as real * m + average * held as real * m;
      ((price - average) * exited as real + average * held as real) * m;
      (price * exited as real + average * (held as real - exited as real)) * m;
      price * exited as real * m + average * (held as real - exited as real) * m;
      exited as real * (price * m) + average * (held - exited) as real * m;
    }
  }

  /** What a fill traded on the position it reaches. */
  function Clipped(p: Position, f: Fill): int {
    if f.side == p.side then Sign(f.side) * f.quantity else Sign(f.side) * Min(f.quantity, p.quantity)
  }

  lemma SignedProduct(side: Side, q: int, v: real)
    ensures (Sign(side) * q) as real * v == Signed(side, q as real * v)
  {
    if side == Sell {
      assert (Sign(side) * q) as real == -(q as real);
    }
  }

  lemma AddBalances(p: Position, f: Fill)
    requires f.contract.multiplier == p.contract.multiplier && f.side == p.side
    ensures Worth(Filled(p, f))
        == Worth(p) - Signed(f.side, f.quantity as real * (f.price * f.contract.multiplier as real))
  {
    AddedCost(p.average, p.quantity, f.price, f.quantity, p.contract.multiplier as real);
  }

  /** Leaving a position: the gain and the cost given back make up the proceeds. */
  lemma GainBalances(side: Side, average: real, held: nat, price: real, exited: nat, m: Qty)
    requires exited <= held
    ensures Gain(side, average, price, exited, m) - Signed(side, average * (held - exited) as real * m as real)
            == Signed(side, exited as real * (price * m as real)) - Signed(side, average * held as real * m as real)
  {
    ReducedCost(average, held, price, exited, m as real);
    if side == Sell {
      GainOpposite(average, price, exited, m as real);
    }
  }

  lemma GainOpposite(average: real, price: real, exited: nat, m: real)
    ensures (average - price) * exited as real * m == -((price - average) * exited as real * m)
  {
  }

  lemma SignedOpposite(side: Side, x: real)
    ensures Signed(Opposite(side), x) == -Signed(side, x)
  {
  }

  lemma FilledReduces(p: Position, f: Fill)
    requires f.side != p.side
    ensures
      var q, exited := Filled(p, f), Min(f.quantity, p.quantity);
      && q.quantity == p.quantity - exited && q.side == p.side && q.average == p.average && q.contract == p.contract
      && q.realized == p.realized + Gain(p.side, p.average, f.price, exited, f.contract.multiplier)
  {
    hide Gain;
  }

  lemma ReduceBalances(p: Position, f: Fill)
    requires f.contract.multiplier == p.contract.multiplier && f.side != p.side
    ensures Worth(Filled(p, f)) == Worth(p)
              - Signed(f.side, Min(f.quantity, p.quantity) as real * (f.price * f.contract.multiplier as real))
  {
    var exited := Min(f.quantity, p.quantity);
    FilledReduces(p, f);
    GainBalances(p.side, p.average, p.quantity, f.price, exited, p.contract.multiplier);
    hide Filled, Gain;
    SignedOpposite(p.side, exited as real * (f.price * p.contract.multiplier as real));
  }

  lemma FilledBalances(p: Position, f: Fill)
    requires f.contract.multiplier == p.contract.multiplier
    ensures Worth(Filled(p, f)) == Worth(p) - Clipped(p, f) as real * (f.price * f.contract.multiplier as real)
  {
    hide Worth, Filled;
    var unit := f.price * f.contract.multiplier as real;
    if f.side == p.side {
      AddBalances(p, f);
      SignedProduct(f.side, f.quantity, unit);
    } else {
      ReduceBalances(p, f);
      SignedProduct(f.side, Min(f.quantity, p.quantity), unit);
    }
  }

  lemma FilledHolds(p: Position, f: Fill)
    ensures Filled(p, f).id == p.id
    ensures Sign(Filled(p, f).side) * Filled(p, f).quantity == Sign(p.side) * p.quantity + Clipped(p, f)
  {
  }

  lemma StepBalances(ps: seq<Position>, a: Action, id: int)
    requires UniqueIds(ps) && Sound(ps, a)
    ensures WorthOf(Apply(ps, a), id) == WorthOf(ps, id) + TradeCash(ps, a, id) - Fee(ps, a, id)
    ensures HeldOf(Apply(ps, a), id) == HeldOf(ps, id) + Traded(ps, a, id)
  {
    match a
    case AFill(f, positionId, newId) => FillBalances(ps, f, positionId, newId, id);
    case AForceClose(pid, exit) => ForceCloseBalances(ps, pid, exit, id);
    case ACommission(orderId, amount) => CommissionBalances(ps, orderId, amount, id);
  }

  lemma UpdateLookup(ps: seq<Position>, i: nat, p: Position, id: int)
    requires UniqueIds(ps) && i < |ps| && p.id == ps[i].id
    ensures IndexOf(ps[i := p], id) == IndexOf(ps, id)
    ensures IndexOf(ps, ps[i].id) == Some(i)
  {
    var qs := ps[i := p];
    assert forall j :: 0 <= j < |ps| ==> qs[j].id == ps[j].id;
    var t, u := IndexOf(ps, id), IndexOf(qs, id);
    if t.Some? { assert qs[t.value].id == id; }
    if u.Some? { assert ps[u.value].id == id; }
  }

  lemma AppendLookup(ps: seq<Position>, p: Position, id: int)
    requires IndexOf(ps, p.id).None?
    ensures IndexOf(ps + [p], id) == if id == p.id then Some(|ps|) else IndexOf(ps, id)
  {
    var qs := ps + [p];
    var t, u := IndexOf(ps, id), IndexOf(qs, id);
    assert qs[|ps|] == p;
    if t.Some? { assert qs[t.value].id == id; }
    if u.Some? && u.value < |ps| { assert ps[u.value].id == id; }
  }

  /** The ledger entry of a fill: its own position only. */
  lemma FillTrade(ps: seq<Position>, f: Fill, positionId: Option<int>, newId: int, id: int)
    ensures
      var a := AFill(f, positionId, newId);
      var t := Target(ps, f, positionId);
      var unit := f.price * f.contract.multiplier as real;
      var owner := if t.Some? then ps[t.value].id else if positionId.Some? then positionId.value else newId;
      var q := if t.Some? then Clipped(ps[t.value], f) else Sign(f.side) * f.quantity;
      && Traded(ps, a, id) == (if owner == id then q else 0)
      && TradeCash(ps, a, id) == (if owner == id then -(q as real * unit) else 0.0)
  {
  }

  lemma ReplaceWorth(ps: seq<Position>, i: nat, p: Position, id: int)
    requires UniqueIds(ps) && i < |ps| && p.id == ps[i].id
    ensures WorthOf(ps[i := p], id) == if ps[i].id == id then Worth(p) else WorthOf(ps, id)
    ensures HeldOf(ps[i := p], id) == if ps[i].id == id then Sign(p.side) * p.quantity else HeldOf(ps, id)
    ensures ps[i].id == id ==> WorthOf(ps, id) == Worth(ps[i]) && HeldOf(ps, id) == Sign(ps[i].side) * ps[i].quantity
  {
    hide Worth;
    UpdateLookup(ps, i, p, id);
  }

  lemma AppendWorth(ps: seq<Position>, p: Position, id: int)
    requires IndexOf(ps, p.id).None?
    ensures WorthOf(ps + [p], id) == if p.id == id then Worth(p) else WorthOf(ps, id)
    ensures HeldOf(ps + [p], id) == if p.id == id then Sign(p.side) * p.quantity else HeldOf(ps, id)
    ensures WorthOf(ps, p.id) == 0.0 && HeldOf(ps, p.id) == 0
  {
    hide Worth;
    AppendLookup(ps, p, id);
  }

  lemma FillBalances(ps: seq<Position>, f: Fill, positionId: Option<int>, newId: int, id: int)
    requires UniqueIds(ps) && Sound(ps, AFill(f, positionId, newId))
    ensures
      var a := AFill(f, positionId, newId);
      && WorthOf(Apply(ps, a), id) == WorthOf(ps, id) + TradeCash(ps, a, id)
      && HeldOf(Apply(ps, a), id) == HeldOf(ps, id) + Traded(ps, a, id)
  {
    hide Worth, WorthOf, HeldOf, Filled, Opened, TradeCash, Traded, Clipped, Sign;
    FillTrade(ps, f, positionId, newId, id);
    var t := Target(ps, f, positionId);
    if t.None? {
      var newest := if positionId.Some? then positionId.value else newId;
      OpenedBalances(f, newest);
      AppendWorth(ps, Opened(f, newest), id);
    } else {
      var p := ps[t.value];
      FilledHolds(p, f);
      FilledBalances(p, f);
      ReplaceWorth(ps, t.value, Filled(p, f), id);
    }
  }

  lemma OpenedBalances(f: Fill, id: int)
    ensures Opened(f, id).id == id
    ensures Sign(Opened(f, id).side) * Opened(f, id).quantity == Sign(f.side) * f.quantity
    ensures Worth(Opened(f, id)) == -((Sign(f.side) * f.quantity) as real * (f.price * f.contract.multiplier as real))
  {
    var q, m := f.quantity as real, f.contract.multiplier as real;
    assert f.price * q * m == q * (f.price * m);
    SignedProduct(f.side, f.quantity, f.price * m);
  }

  lemma ForcedBalances(p: Position, exit: real)
    ensures Worth(ForceClosedAt(p, exit))
            == Worth(p) - (-Sign(p.side) * p.quantity) as real * (exit * p.contract.multiplier as real)
    ensures ForceClosedAt(p, exit).id == p.id && ForceClosedAt(p, exit).quantity == 0
  {
    GainBalances(p.side, p.average, p.quantity, exit, p.quantity, p.contract.multiplier);
    SignedProduct(Opposite(p.side), p.quantity, exit * p.contract.multiplier as real);
    assert Sign(Opposite(p.side)) == -Sign(p.side);
  }

  lemma ForceCloseTrade(ps: seq<Position>, pid: int, exit: real, id: int)
    requires IndexOf(ps, pid).Some?
    ensures
      var a := AForceClose(pid, exit);
      var p := ps[IndexOf(ps, pid).value];
      var q := -Sign(p.side) * p.quantity;
      var counts := pid == id && p.status != Closed;
      && Traded(ps, a, id) == (if counts then q else 0)
      && TradeCash(ps, a, id) == (if counts then -(q as real * (exit * p.contract.multiplier as real)) else 0.0)
  {
  }

  lemma ForceCloseBalances(ps: seq<Position>, pid: int, exit: real, id: int)
    requires UniqueIds(ps)
    ensures
      var a := AForceClose(pid, exit);
      && WorthOf(Apply(ps, a), id) == WorthOf(ps, id) + TradeCash(ps, a, id)
      && HeldOf(Apply(ps, a), id) == HeldOf(ps, id) + Traded(ps, a, id)
  {
    var t := IndexOf(ps, pid);
    if t.Some? {
      hide Worth, WorthOf, HeldOf, ForceClosedAt, TradeCash, Traded, Sign;
      ForceCloseTrade(ps, pid, exit, id);
      var p := ps[t.value];
      if p.status != Closed {
        ForcedBalances(p, exit);
        ReplaceWorth(ps, t.value, ForceClosedAt(p, exit), id);
      }
    }
  }

  lemma CommissionWorth(p: Position, amount: real)
    ensures Worth(p.(realized := p.realized - amount)) == Worth(p) - amount
  {
    hide Cost;
  }

  lemma CommissionBalances(ps: seq<Position>, orderId: int, amount: real, id: int)
    requires UniqueIds(ps)
    ensures
      var a := ACommission(orderId, amount);
      && WorthOf(Apply(ps, a), id) == WorthOf(ps, id) - Fee(ps, a, id)
      && HeldOf(Apply(ps, a), id) == HeldOf(ps, id)
  {
    hide Worth, WorthOf, HeldOf, Sign;
    var t := OwnerOf(ps, orderId);
    if t.Some? {
      CommissionWorth(ps[t.value], amount);
      ReplaceWorth(ps, t.value, ps[t.value].(realized := ps[t.value].realized - amount), id);
    }
  }

  lemma {:induction false} RunBalances(ps: seq<Position>, actions: seq<Action>, id: int)
    requires UniqueIds(ps) && SoundRun(ps, actions)
    ensures WorthOf(ApplyAll(ps, actions), id)
            == WorthOf(ps, id) + Cash(ps, actions, id) - Fees(ps, actions, id)
    ensures HeldOf(ApplyAll(ps, actions), id) == HeldOf(ps, id) + NetTraded(ps, actions, id)
    ensures UniqueIds(ApplyAll(ps, actions))
    decreases |actions|
  {
    if actions != [] {
      StepBalances(ps, actions[0], id);
      ApplyKeepsUnique(ps, actions[0]);
      RunBalances(Apply(ps, actions[0]), actions[1..], id);
    }
  }

  lemma StartsEmpty(id: int)
    ensures WorthOf([], id) == 0.0 && HeldOf([], id) == 0
  {
  }

  /**
   * For every position a run has created: realized result plus netted commissions equals the
   * signed trade cash plus the signed cost of what is held, and what is held is the net traded.
   */
  lemma CashFlowIdentity(actions: seq<Action>, i: nat)
    requires SoundRun([], actions) && i < |ApplyAll([], actions)|
    ensures
      var p := ApplyAll([], actions)[i];
      && p.realized + Fees([], actions, p.id) == Cash([], actions, p.id) + CostHeld(p)
      && Sign(p.side) * p.quantity == NetTraded([], actions, p.id)
  {
    hide CostHeld, Apply, Cash, Fees, SoundRun;
    var ps := ApplyAll([], actions);
    var p := ps[i];
    StartsEmpty(p.id);
    RunBalances([], actions, p.id);
    UpdateLookup(ps, i, p, p.id);
    assert WorthOf(ps, p.id) == Worth(p);
  }

  lemma ProductDiffers(x: real, n: real, m: real)
    requires x > 0.0 && n != m
    ensures x * n != x * m
  {
  }

  /** How far a fill misses the balance: by what it traded, priced, times the difference of the multipliers. */
  lemma AddMisses(p: Position, f: Fill)
    requires f.side == p.side
    ensures
      var n, m := p.contract.multiplier as real, f.contract.multiplier as real;
      Worth(Filled(p, f)) == Worth(p) - Signed(f.side, f.quantity as real * f.price * n)
  {
    var n := p.contract.multiplier as real;
    AddedCost(p.average, p.quantity, f.price, f.quantity, n);
    assert f.quantity as real * (f.price * n) == f.quantity as real * f.price * n;
  }

  function Product(x: real, q: int, m: real): real {
    x * q as real * m
  }

  lemma ReduceWorth(p: Position, f: Fill)
    requires f.side != p.side
    ensures
      var n, m := p.contract.multiplier as real, f.contract.multiplier as real;
      var exited := Min(f.quantity, p.quantity);
      && Worth(p) == p.realized - Signed(p.side, Product(p.average, p.quantity, n))
      && Worth(Filled(p, f)) == p.realized + Signed(p.side, Product(f.price - p.average, exited, m))
                                - Signed(p.side, Product(p.average, p.quantity - exited, n))
  {
    FilledReduces(p, f);
    hide Filled;
    GainOpposite(p.average, f.price, Min(f.quantity, p.quantity), f.contract.multiplier as real);
  }

  lemma ReduceMisses(p: Position, f: Fill)
    requires f.side != p.side
    ensures
      var n, m := p.contract.multiplier as real, f.contract.multiplier as real;
      var q := Min(f.quantity, p.quantity) as real;
      Worth(Filled(p, f)) == Worth(p) - Signed(f.side, q * f.price * m - q * p.average * m + q * p.average * n)
  {
    hide Worth, Filled, Product;
    ReduceWorth(p, f);
    ReduceSplit(p.average, p.quantity, f.price, Min(f.quantity, p.quantity),
                p.contract.multiplier as real, f.contract.multiplier as real);
  }

  lemma ReduceSplit(average: real, held: nat, price: real, exited: nat, n: real, m: real)
    requires exited <= held
    ensures
      var q := exited as real;
      Product(price - average, exited, m) + Product(average, held, n) - Product(average, held - exited, n)
      == q * price * m - q * average * m + q * average * n
  {
    var q, h := exited as real, held as real;
    assert (held - exited) as real == h - q;
    assert average * (h - q) * n == average * h * n - average * q * n;
    assert (price - average) * q * m == price * q * m - average * q * m;
  }

  /**
   * The multiplier is not part of the contract's identity: a fill balances exactly when it carries the position's own.
   */
  lemma BalancesIffSameMultiplier(p: Position, f: Fill)
    requires p.quantity > 0 && p.average > 0.0
    ensures Worth(Filled(p, f)) == Worth(p) - Clipped(p, f) as real * (f.price * f.contract.multiplier as real)
            <==> f.contract.multiplier == p.contract.multiplier
  {
    hide Worth, Filled;
    var n, m := p.contract.multiplier as real, f.contract.multiplier as real;
    if f.contract.multiplier == p.contract.multiplier {
      FilledBalances(p, f);
    } else if f.side == p.side {
      AddMisses(p, f);
      SignedProduct(f.side, f.quantity, f.price * m);
      var x := f.quantity as real * f.price;
      ProductDiffers(x, n, m);
      assert f.quantity as real * (f.price * m) == x * m;
    } else {
      ReduceMisses(p, f);
      var q := Min(f.quantity, p.quantity);
      SignedProduct(f.side, q, f.price * m);
      var x := q as real * p.average;
      ProductDiffers(x, n, m);
      assert q as real * (f.price * m) == q as real * f.price * m;
    }
  }
}
