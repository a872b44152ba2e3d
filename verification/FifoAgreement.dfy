/** Both ways of computing a realized result come to the trade cash, so they agree whenever a book is flat. */
module FifoAgreement {
  import opened Domain
  import opened Positions
  import opened Sums
  import opened Netting
  import opened Fifo

  // ---------------------------------------------------------------
  // Lots
  // ---------------------------------------------------------------

  /** All lots are on one side and hold something. */
  predicate OneSided(lots: seq<Lot>) {
    forall i :: 0 <= i < |lots| ==> lots[i].quantity > 0 && lots[i].side == lots[0].side
  }

  function LotsNet(lots: seq<Lot>): int {
    if lots == [] then 0 else Sign(lots[0].side) * lots[0].quantity + LotsNet(lots[1..])
  }

  function LotCost(lot: Lot): real {
    (Sign(lot.side) * lot.quantity) as real * lot.price
  }

  function LotsCost(lots: seq<Lot>): real {
    if lots == [] then 0.0 else LotCost(lots[0]) + LotsCost(lots[1..])
  }

  lemma {:induction false} LotsAppend(lots: seq<Lot>, lot: Lot)
    ensures LotsNet(lots + [lot]) == LotsNet(lots) + Sign(lot.side) * lot.quantity
    ensures LotsCost(lots + [lot]) == LotsCost(lots) + LotCost(lot)
  {
    if lots == [] {
      assert (lots + [lot])[1..] == [];
    } else {
      assert (lots + [lot])[1..] == lots[1..] + [lot];
      LotsAppend(lots[1..], lot);
    }
  }

  /** What a fill of the given side pays for part of itself. */
  function Paid(side: Side, price: real, quantity: int): real {
    (Sign(side) * quantity) as real * price
  }

  lemma PaidAdds(side: Side, price: real, a: int, b: int)
    ensures Paid(side, price, a + b) == Paid(side, price, a) + Paid(side, price, b)
  {
    if side == Buy {
      assert Paid(side, price, a + b) == (a as real + b as real) * price;
    } else {
      assert (Sign(side) * (a + b)) as real == -(a as real) - b as real;
      assert Paid(side, price, a + b) == (-(a as real) - b as real) * price;
    }
  }

  /** Closing part of a lot gains the cost given back less the price paid. */
  lemma LotGainBalances(lot: Lot, side: Side, price: real, taken: int)
    requires lot.side != side
    ensures LotGain(lot, side, price, taken)
            == LotCost(lot.(quantity := lot.quantity - taken)) - LotCost(lot) - Paid(side, price, taken)
  {
    var q, t := lot.quantity as real, taken as real;
    if side == Sell {
      assert (q - t) * lot.price - q * lot.price == -(t * lot.price);
      assert (Sign(side) * taken) as real == -t;
    } else {
      assert (Sign(lot.side) * (lot.quantity - taken)) as real == t - q;
      assert (t - q) * lot.price - (-q) * lot.price == t * lot.price;
      assert (Sign(lot.side) * lot.quantity) as real == -q;
    }
  }

  lemma {:induction false} MatchShape(lots: seq<Lot>, side: Side, price: real, quantity: int)
    requires OneSided(lots) && quantity >= 0
    ensures
      var m := Match(lots, side, price, quantity);
      && OneSided(m.lots) && 0 <= m.left
      && (m.left > 0 ==> m.lots == [] || m.lots[0].side == side)
      && (m.lots != [] ==> lots != [] && m.lots[0].side == lots[0].side)
      && LotsNet(m.lots) + Sign(side) * m.left == LotsNet(lots) + Sign(side) * quantity
    decreases |lots|
  {
    if quantity > 0 && lots != [] && lots[0].side != side && lots[0].quantity <= quantity {
      MatchShape(lots[1..], side, price, quantity - lots[0].quantity);
    }
  }

  lemma {:induction false} MatchBalances(lots: seq<Lot>, side: Side, price: real, quantity: int)
    requires OneSided(lots) && quantity >= 0
    ensures
      var m := Match(lots, side, price, quantity);
      m.gain + LotsCost(lots) == LotsCost(m.lots) - Paid(side, price, quantity - m.left)
    decreases |lots|
  {
    if quantity <= 0 || lots == [] || lots[0].side == side {
      assert Paid(side, price, 0) == 0.0;
    } else {
      hide LotGain, LotCost, Paid;
      var lot := lots[0];
      var taken := Min(quantity, lot.quantity);
      LotGainBalances(lot, side, price, taken);
      if lot.quantity == taken {
        var rest := Match(lots[1..], side, price, quantity - taken);
        MatchBalances(lots[1..], side, price, quantity - taken);
        PaidAdds(side, price, taken, quantity - taken - rest.left);
        EmptyLotCostsNothing(lot.(quantity := 0));
      } else {
        assert ([lot.(quantity := lot.quantity - taken)] + lots[1..])[1..] == lots[1..];
      }
    }
  }

  lemma EmptyLotCostsNothing(lot: Lot)
    requires lot.quantity == 0
    ensures LotCost(lot) == 0.0
  {
  }

  /** One fill on one key's lots: shape, net and cost. */
  lemma LotsAfterFill(lots: seq<Lot>, f: Fill)
    requires OneSided(lots)
    ensures OneSided(LotsAfter(lots, f))
    ensures LotsNet(LotsAfter(lots, f)) == LotsNet(lots) + FillQty(f)
    ensures GainOf(lots, f) + LotsCost(lots) == LotsCost(LotsAfter(lots, f)) + FillCash(f)
  {
    hide LotCost, Paid, FillCash;
    var m := Match(lots, f.side, f.price, f.quantity);
    MatchShape(lots, f.side, f.price, f.quantity);
    MatchBalances(lots, f.side, f.price, f.quantity);
    PaidAdds(f.side, f.price, f.quantity - m.left, m.left);
    PaidIsCash(f, m.left);
    if m.left > 0 {
      LotsAppend(m.lots, Lot(m.left, f.price, f.side));
    } else {
      PaidNothing(f.side, f.price);
    }
  }

  lemma PaidIsCash(f: Fill, left: int)
    ensures Paid(f.side, f.price, f.quantity) == -FillCash(f)
    ensures LotCost(Lot(left, f.price, f.side)) == Paid(f.side, f.price, left)
  {
  }

  lemma PaidNothing(side: Side, price: real)
    ensures Paid(side, price, 0) == 0.0
  {
  }

  // ---------------------------------------------------------------
  // The inventory
  // ---------------------------------------------------------------

  ghost predicate Kept(slots: seq<Slot>) {
    && (forall i :: 0 <= i < |slots| ==> OneSided(slots[i].lots))
    && (forall i, j :: 0 <= i < |slots| && 0 <= j < |slots| && slots[i].key == slots[j].key ==> i == j)
  }

  function SlotNetIn(scope: Scope): Slot -> int {
    (s: Slot) => if In(scope, s.key) then LotsNet(s.lots) else 0
  }

  function SlotCostIn(scope: Scope): Slot -> real {
    (s: Slot) => if In(scope, s.key) then LotsCost(s.lots) else 0.0
  }

  lemma WithLotsSums(slots: seq<Slot>, key: BookKey, lots: seq<Lot>, scope: Scope)
    requires Kept(slots) && OneSided(lots)
    ensures Kept(WithLots(slots, key, lots))
    ensures SumInt(WithLots(slots, key, lots), SlotNetIn(scope))
            == SumInt(slots, SlotNetIn(scope))
              + (if In(scope, key) then LotsNet(lots) - LotsNet(LotsOf(slots, key)) else 0)
    ensures SumReal(WithLots(slots, key, lots), SlotCostIn(scope))
            == SumReal(slots, SlotCostIn(scope))
              + (if In(scope, key) then LotsCost(lots) - LotsCost(LotsOf(slots, key)) else 0.0)
  {
    hide SlotOf;
    var i := SlotOf(slots, key);
    var slot := Slot(key, lots);
    if i.None? {
      SumIntAppend(slots, slot, SlotNetIn(scope));
      SumRealAppend(slots, slot, SlotCostIn(scope));
    } else {
      SumIntUpdate(slots, i.value, slot, SlotNetIn(scope));
      SumRealUpdate(slots, i.value, slot, SlotCostIn(scope));
    }
  }

  /** The inventory nets to the fills, and gains plus cash given out equal what the open lots cost. */
  lemma {:induction false} InventoryBalances(fs: seq<Fill>, scope: Scope)
    ensures Kept(Inventory(fs))
    ensures SumInt(Inventory(fs), SlotNetIn(scope)) == NetFilled(fs, scope)
    ensures FifoGain(fs, scope) == CashOf(fs, scope) + SumReal(Inventory(fs), SlotCostIn(scope))
  {
    var n := |fs| - 1;
    if fs != [] {
      hide FillCash, LotsAfter, GainOf;
      var slots, f := Inventory(fs[..n]), fs[n];
      var lots := LotsOf(slots, FillKey(f));
      InventoryBalances(fs[..n], scope);
      LotsAfterFill(lots, f);
      WithLotsSums(slots, FillKey(f), LotsAfter(lots, f), scope);
    }
  }

  lemma {:induction false} OneSidedNet(lots: seq<Lot>)
    requires OneSided(lots) && lots != []
    ensures LotsNet(lots) * Sign(lots[0].side) > 0
    decreases |lots|
  {
    if |lots| > 1 {
      OneSidedNet(lots[1..]);
    }
  }

  /** Every key of the group nets to nothing. */
  ghost predicate NetsToNothing(fs: seq<Fill>, scope: Scope) {
    forall key :: In(scope, key) ==> NetFilled(fs, OneKey(key)) == 0
  }

  lemma FlatLotsEmpty(fs: seq<Fill>, scope: Scope, i: nat)
    requires i < |Inventory(fs)| && In(scope, Inventory(fs)[i].key) && NetsToNothing(fs, scope)
    ensures Inventory(fs)[i].lots == []
  {
    var slots := Inventory(fs);
    var key := slots[i].key;
    InventoryBalances(fs, OneKey(key));
    SumIntOne(slots, i, SlotNetIn(OneKey(key)));
    if slots[i].lots != [] {
      OneSidedNet(slots[i].lots);
    }
  }

  /** When the group nets to nothing, the FIFO result is its trade cash. */
  lemma FlatFifoIsCash(fs: seq<Fill>, scope: Scope)
    requires NetsToNothing(fs, scope)
    ensures FifoGain(fs, scope) == CashOf(fs, scope)
  {
    InventoryBalances(fs, scope);
    var slots := Inventory(fs);
    forall i | 0 <= i < |slots| ensures SlotCostIn(scope)(slots[i]) == 0.0 {
      if In(scope, slots[i].key) {
        FlatLotsEmpty(fs, scope, i);
      }
    }
    SumRealZero(slots, SlotCostIn(scope));
  }

  /**
   * For any fills that never close more than is held, with one multiplier per contract: once
   * every position of the group is closed, the FIFO result times the multiplier is the sum of
   * the positions' realized results.
   */
  lemma FifoAgreesWithAverageCost(fs: seq<Fill>, ids: seq<int>, scope: Scope, m: Qty)
    requires |ids| == |fs| && AllCovered(fs, ids) && OneMultiplier(fs, scope, m)
    requires Flat(Booked(fs, ids), scope)
    ensures Money(FifoGain(fs, scope), m) == RealizedOf(Booked(fs, ids), scope)
  {
    FlatRealizedIsCash(fs, ids, scope, m);
    var ps := Booked(fs, ids);
    forall key | In(scope, key) ensures NetFilled(fs, OneKey(key)) == 0 {
      BookedHoldsNet(fs, ids, OneKey(key));
      SumIntZero(ps, HeldIn(OneKey(key)));
    }
    FlatFifoIsCash(fs, scope);
  }

  // ---------------------------------------------------------------
  // Where they part
  // ---------------------------------------------------------------

  /** An over-closing fill flips the FIFO lots and is clipped by the position: the net differs by the excess. */
  lemma OverCloseParts(lots: seq<Lot>, p: Position, f: Fill)
    requires OneSided(lots) && IsOpen(p) && LotsNet(lots) == Held(p)
    ensures LotsNet(LotsAfter(lots, f)) == Held(Filled(p, f)) <==> f.side == p.side || f.quantity <= p.quantity
  {
    LotsAfterFill(lots, f);
  }

  /** Every fill as two adjacent events, as when both the broker and the order manager log it. */
  function LoggedTwice(fs: seq<Fill>): seq<Logged> {
    var n := |fs| - 1;
    if fs == [] then []
    else LoggedTwice(fs[..n]) + [Logged(FillCallback, fs[n]), Logged(FillReceived, fs[n])]
  }

  lemma {:induction false} LoggedTwiceSums(fs: seq<Fill>, scope: Scope)
    ensures CashOf(FillsOf(LoggedTwice(fs)), scope) == 2.0 * CashOf(fs, scope)
    ensures NetFilled(FillsOf(LoggedTwice(fs)), scope) == 2 * NetFilled(fs, scope)
  {
    var n := |fs| - 1;
    if fs != [] {
      hide FillCash, FillQty;
      LoggedTwiceSums(fs[..n], scope);
      var before := LoggedTwice(fs[..n]);
      var once := before + [Logged(FillCallback, fs[n])];
      assert LoggedTwice(fs) == once + [Logged(FillReceived, fs[n])];
      assert (once + [Logged(FillReceived, fs[n])])[..|once|] == once;
      assert once[..|before|] == before;
      var was := FillsOf(before);
      assert FillsOf(LoggedTwice(fs)) == (was + [fs[n]]) + [fs[n]];
      SumRealAppend(was, fs[n], FillCashIn(scope));
      SumRealAppend(was + [fs[n]], fs[n], FillCashIn(scope));
      SumIntAppend(was, fs[n], FillQtyIn(scope));
      SumIntAppend(was + [fs[n]], fs[n], FillQtyIn(scope));
    }
  }

  /** Fills logged twice are counted twice: the reported result of a flat group is exactly doubled. */
  lemma LoggedTwiceCountsTwice(fs: seq<Fill>, scope: Scope)
    requires NetsToNothing(fs, scope)
    ensures FifoGain(FillsOf(LoggedTwice(fs)), scope) == 2.0 * FifoGain(fs, scope)
  {
    forall key | In(scope, key) ensures NetFilled(FillsOf(LoggedTwice(fs)), OneKey(key)) == 0 {
      LoggedTwiceSums(fs, OneKey(key));
    }
    LoggedTwiceSums(fs, scope);
    FlatFifoIsCash(fs, scope);
    FlatFifoIsCash(FillsOf(LoggedTwice(fs)), scope);
  }
}
